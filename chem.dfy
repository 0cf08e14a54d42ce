/** The chemical oxidative polymerisation page: the 'solution_analyze' sheet shown newest
    first, the solutions narrowed by date and then by solution number, and the PNG images
    listed (comma-separated) in each chosen solution's 'Solution Image' cell laid out as a
    one-row table keyed by file name. */
module ChemPolymerization {
  import opened Base
  import opened Text
  import opened Masks
  import opened Naming

  /** A cell of the 'Solution Image' column: text, or anything else pandas hands back there
      (NaN for an empty cell, a Series when the solution number is repeated). */
  datatype CellValue = Str(text: string) | NotStr

  /** Python `s.count(sep)`: the non-overlapping occurrences of `sep`, counted left to right. */
  function Count(s: string, sep: string): nat
    requires sep != []
    decreases |s|
  {
    if |s| < |sep| then 0
    else if s[..|sep|] == sep then 1 + Count(s[|sep|..], sep)
    else Count(s[1..], sep)
  }

  /** Counting from a position before which `sep` does not occur counts everything. */
  lemma {:induction false} CountSkips(s: string, sep: string, i: nat)
    requires sep != [] && i <= |s|
    requires forall j: nat :: j < i ==> !OccursAt(s, sep, j)
    ensures Count(s, sep) == Count(s[i..], sep)
    decreases i
  {
    if i > 0 {
      assert !OccursAt(s, sep, 0);
      if |s| >= |sep| {
        var t := s[1..];
        forall j: nat | j < i - 1 ensures !OccursAt(t, sep, j) {
          assert !OccursAt(s, sep, j + 1);
          if j + |sep| <= |t| {
            assert t[j..j + |sep|] == s[j + 1..j + 1 + |sep|];
          }
        }
        CountSkips(t, sep, i - 1);
        assert t[i - 1..] == s[i..];
      }
    }
  }

  /** `s.split(sep)` has one piece more than `s` has separators. */
  lemma {:induction false} SplitCount(s: string, sep: string)
    requires sep != []
    ensures |Split(s, sep)| == Count(s, sep) + 1
    decreases |s|
  {
    match IndexOf(s, sep)
    case None =>
      CountSkips(s, sep, |s|);
    case Some(i) =>
      var rest := s[i + |sep|..];
      CountSkips(s, sep, i);
      var t := s[i..];
      assert t[..|sep|] == s[i..i + |sep|];
      assert t[|sep|..] == rest;
      SplitCount(rest, sep);
  }

  /** `t` has no whitespace at either end. */
  predicate Trimmed(t: string) {
    t != [] ==> !IsSpace(t[0]) && !IsSpace(t[|t| - 1])
  }

  /** `p` is `t` with whitespace around it. */
  predicate Padded(p: string, t: string) {
    exists a: nat, b: nat :: a <= b <= |p| && p[a..b] == t && AllSpace(p[..a]) && AllSpace(p[b..])
  }

  /** `string_to_list(path_string, separator)`: a string is split at the separator and each
      piece stripped; anything else gives no paths. */
  function StringToList(cell: CellValue, sep: string): (r: Result<seq<string>>)
    ensures r.Err? <==> cell.Str? && sep == []
    ensures r.Err? ==> r.error == ValueError
    ensures cell.NotStr? ==> r == Ok([])
  {
    match cell
    case NotStr => Ok([])
    case Str(s) =>
      if sep == [] then Err(ValueError)
      else
        var parts := Split(s, sep);
        Ok(seq(|parts|, k requires 0 <= k < |parts| => Strip(parts[k])))
  }

  /** A string gives one path per separator plus one, each a separator-free piece of it (the
      pieces joined by the separator give the string back) with its outer whitespace gone. */
  lemma StringToListPieces(s: string, sep: string)
    requires sep != []
    ensures StringToList(Str(s), sep).Ok?
    ensures |StringToList(Str(s), sep).value| == Count(s, sep) + 1
    ensures Join(Split(s, sep), sep) == s
    ensures forall k :: 0 <= k < |Split(s, sep)| ==> !Contains(Split(s, sep)[k], sep)
    ensures forall k :: 0 <= k < |StringToList(Str(s), sep).value| ==>
      Trimmed(StringToList(Str(s), sep).value[k]) && Padded(Split(s, sep)[k], StringToList(Str(s), sep).value[k])
  {
    var parts := Split(s, sep);
    var r := StringToList(Str(s), sep).value;
    SplitCount(s, sep);
    SplitJoinRoundTrip(s, sep);
    forall k | 0 <= k < |r| ensures Trimmed(r[k]) && Padded(parts[k], r[k]) {
      var p := parts[k];
      StripTrims(p);
      StripRemovesOuterSpace(p);
      assert p[LeadingSpaces(p)..StripEnd(p)] == r[k];
    }
  }

  /** `os.path.basename(path)` on Windows: what follows the last slash or backslash, once a
      leading drive letter is set aside. */
  function Basename(path: string): (b: string)
    ensures |b| <= |path| && b == path[|path| - |b|..]
  {
    var p := if |path| >= 2 && path[1] == ':' then path[2..] else path;
    p[LastWhere(p, IsSep) + 1..]
  }

  /** The base name of `dir\name` is `name`. */
  lemma BasenameOfPath(dir: string, name: string)
    requires |dir| >= 2 && IsSep(dir[|dir| - 1])
    requires forall c :: c in name ==> !IsSep(c)
    ensures Basename(dir + name) == name
  {
    var path := dir + name;
    var d := if path[1] == ':' then 2 else 0;
    var p := path[d..];
    forall j | |dir| - d <= j < |p| ensures !IsSep(p[j]) {
      assert p[j] == name[j - |dir| + d] && name[j - |dir| + d] in name;
    }
    assert p[|dir| - d - 1] == dir[|dir| - 1];
    assert LastWhere(p, IsSep) == |dir| - d - 1;
  }

  /** `path.lower().endswith('.png')`. */
  predicate IsPng(path: string) {
    EndsWith(Lower(path), ".png")
  }

  /** The column a path is stored under: its base name when it is a PNG, none otherwise. */
  function PngKey(path: string): (key: Option<string>)
    ensures key.Some? <==> IsPng(path)
    ensures key.Some? ==> key.value == Basename(path)
  {
    if IsPng(path) then Some(Basename(path)) else None
  }

  /** The cells a dictionary filled from `paths` holds: the URI of each path that has a key,
      under that key, a later path overwriting an earlier one of the same key. */
  function Stored(paths: seq<string>, key: string -> Option<string>, uri: string -> string): map<string, string> {
    if paths == [] then map[]
    else
      var p := paths[|paths| - 1];
      var m := Stored(paths[..|paths| - 1], key, uri);
      match key(p)
      case None => m
      case Some(b) => m[b := uri(p)]
  }

  /** The keys of that dictionary in insertion order: each where it is first stored. */
  function Order(paths: seq<string>, key: string -> Option<string>): seq<string> {
    if paths == [] then []
    else
      var p := paths[|paths| - 1];
      var c := Order(paths[..|paths| - 1], key);
      match key(p)
      case None => c
      case Some(b) => if b in c then c else c + [b]
  }

  /** A one-row frame of images: its column names, and the cell under each. */
  datatype ImageTable = ImageTable(names: seq<string>, cells: map<string, string>)

  /** A name is stored exactly when some path has it as key, and the column order lists
      exactly the stored names. */
  lemma {:induction false} StoredKeys(paths: seq<string>, key: string -> Option<string>, uri: string -> string)
    ensures forall b :: b in Stored(paths, key, uri) <==> exists k :: 0 <= k < |paths| && key(paths[k]) == Some(b)
    ensures forall b :: b in Order(paths, key) <==> b in Stored(paths, key, uri)
    decreases |paths|
  {
    if paths != [] {
      var front := paths[..|paths| - 1];
      StoredKeys(front, key, uri);
      forall b | b in Stored(paths, key, uri)
        ensures exists k :: 0 <= k < |paths| && key(paths[k]) == Some(b)
      {
        if b in Stored(front, key, uri) {
          var k :| 0 <= k < |front| && key(front[k]) == Some(b);
          assert paths[k] == front[k];
        }
      }
      forall b | exists k :: 0 <= k < |paths| && key(paths[k]) == Some(b)
        ensures b in Stored(paths, key, uri)
      {
        var k :| 0 <= k < |paths| && key(paths[k]) == Some(b);
        if k < |front| {
          assert front[k] == paths[k];
        }
      }
    }
  }

  /** No column name is repeated. */
  lemma {:induction false} OrderDistinct(paths: seq<string>, key: string -> Option<string>)
    ensures forall i, j :: 0 <= i < j < |Order(paths, key)| ==> Order(paths, key)[i] != Order(paths, key)[j]
    decreases |paths|
  {
    if paths != [] {
      OrderDistinct(paths[..|paths| - 1], key);
    }
  }

  /** A path that no later path of the same key follows keeps its URI in the dictionary. */
  lemma {:induction false} StoredLastWins(paths: seq<string>, key: string -> Option<string>, uri: string -> string, k: nat)
    requires k < |paths| && key(paths[k]).Some?
    requires forall j :: k < j < |paths| ==> key(paths[j]) != key(paths[k])
    ensures key(paths[k]).value in Stored(paths, key, uri)
    ensures Stored(paths, key, uri)[key(paths[k]).value] == uri(paths[k])
    decreases |paths|
  {
    var front := paths[..|paths| - 1];
    if k < |front| {
      assert front[k] == paths[k];
      forall j | k < j < |front| ensures key(front[j]) != key(front[k]) {
        assert front[j] == paths[j];
      }
      StoredLastWins(front, key, uri, k);
    }
  }

  /** Storing one more path adds its key, at the end if it is new, with its URI. */
  lemma StoreStep(paths: seq<string>, p: string, key: string -> Option<string>, uri: string -> string)
    ensures key(p).None? ==> Order(paths + [p], key) == Order(paths, key) && Stored(paths + [p], key, uri) == Stored(paths, key, uri)
    ensures key(p).Some? ==> Stored(paths + [p], key, uri) == Stored(paths, key, uri)[key(p).value := uri(p)]
    ensures key(p).Some? && key(p).value in Order(paths, key) ==> Order(paths + [p], key) == Order(paths, key)
    ensures key(p).Some? && key(p).value !in Order(paths, key) ==> Order(paths + [p], key) == Order(paths, key) + [key(p).value]
  {
    assert (paths + [p])[..|paths|] == paths;
  }

  lemma PrefixSnoc<T>(xs: seq<T>, i: nat)
    requires i < |xs|
    ensures xs[..i + 1] == xs[..i] + [xs[i]]
  {
  }

  /** `img_paths_to_dataframe(path_list)`, the URI of each image (`create_image_uri`, which
      reads the file) given as `uri`. */
  method ImgPathsToDataFrame(paths: seq<string>, uri: string -> string) returns (t: ImageTable)
    ensures t == ImageTable(Order(paths, PngKey), Stored(paths, PngKey, uri))
  {
    var names: seq<string> := [];
    var data: map<string, string> := map[];
    ghost var done: seq<string> := [];
    var i := 0;
    while i < |paths|
      invariant i <= |paths| && done == paths[..i]
      invariant names == Order(done, PngKey) && data == Stored(done, PngKey, uri)
    {
      var p := paths[i];
      PrefixSnoc(paths, i);
      var key := PngKey(p);
      StoreStep(done, p, PngKey, uri);
      if key.Some? {
        var b := key.value;
        if b !in names {
          names := names + [b];
        }
        data := data[b := uri(p)];
      }
      done := done + [p];
      i := i + 1;
    }
    assert done == paths;
    t := ImageTable(names, data);
  }

  /** `resize_image`'s target size `(int(width / height * target_height), target_height)`,
      on exact rather than floating-point arithmetic. */
  function ResizeTarget(width: nat, height: nat, targetHeight: nat): (r: Result<(nat, nat)>)
    ensures r.Err? <==> height == 0
    ensures r.Err? ==> r.error == ZeroDivisionError
    ensures r.Ok? ==> r.value.1 == targetHeight
  {
    if height == 0 then Err(ZeroDivisionError)
    else
      var x := width as real / height as real * targetHeight as real;
      assert x >= 0.0 by { ProductNonNegative(width as real / height as real, targetHeight as real); }
      Ok((Trunc(x), targetHeight))
  }

  lemma ProductNonNegative(a: real, b: real)
    requires a >= 0.0 && b >= 0.0
    ensures a * b >= 0.0
  {
  }

  /** The new width is the widest that keeps the aspect ratio within the target height:
      `w * height <= width * target_height < (w + 1) * height`. */
  lemma ResizeKeepsAspect(width: nat, height: nat, targetHeight: nat)
    requires height > 0
    ensures var w := ResizeTarget(width, height, targetHeight).value.0;
      w * height <= width * targetHeight < (w + 1) * height
  {
    var n := width * targetHeight;
    TruncQuotient(width, targetHeight, height);
    assert ResizeTarget(width, height, targetHeight).value.0 == n / height;
    QuotientBounds(n, height);
  }

  /** An image already at the target height keeps its width. */
  lemma ResizeSameHeight(width: nat, height: nat)
    requires height > 0
    ensures ResizeTarget(width, height, height) == Ok((width, height))
  {
    TruncQuotient(width, height, height);
    CancelFactor(width, height);
  }

  /** `df[::-1]`: the rows last to first. */
  function Reversed<T>(rows: seq<T>): (r: seq<T>)
    ensures |r| == |rows| && forall k :: 0 <= k < |rows| ==> r[k] == rows[|rows| - 1 - k]
  {
    if rows == [] then [] else [rows[|rows| - 1]] + Reversed(rows[..|rows| - 1])
  }

  /** Reversing twice gives the sheet back. */
  lemma ReversedTwice<T>(rows: seq<T>)
    ensures Reversed(Reversed(rows)) == rows
  {
    assert forall k :: 0 <= k < |rows| ==> Reversed(Reversed(rows))[k] == rows[k];
  }

  /** A row of the 'solution_analyze' sheet, as far as the page filters and looks it up. */
  datatype Solution = Solution(date: string, number: string, image: CellValue)

  /** `show_raw_data`: the sheet as it is displayed, newest (last) row first. */
  function RawData(sheet: seq<Solution>): (shown: seq<Solution>)
    ensures |shown| == |sheet| && (sheet != [] ==> shown[0] == sheet[|sheet| - 1])
  {
    Reversed(sheet)
  }

  /** `df['Date'].isin(dates)`. */
  function DateMask(rows: seq<Solution>, dates: seq<string>): (m: seq<bool>)
    ensures |m| == |rows| && forall k :: 0 <= k < |rows| ==> (m[k] <==> rows[k].date in dates)
  {
    seq(|rows|, k requires 0 <= k < |rows| => rows[k].date in dates)
  }

  /** `df['Solution Number'].isin(numbers)`. */
  function NumberMask(rows: seq<Solution>, numbers: seq<string>): (m: seq<bool>)
    ensures |m| == |rows| && forall k :: 0 <= k < |rows| ==> (m[k] <==> rows[k].number in numbers)
  {
    seq(|rows|, k requires 0 <= k < |rows| => rows[k].number in numbers)
  }

  /** `df['Solution Number'].tolist()`. */
  function Numbers(rows: seq<Solution>): (ns: seq<string>)
    ensures |ns| == |rows| && forall k :: 0 <= k < |rows| ==> ns[k] == rows[k].number
  {
    seq(|rows|, k requires 0 <= k < |rows| => rows[k].number)
  }

  /** The rows and the numbers `data_analysis` goes on with: the rows of the chosen dates and
      numbers, or with 'select all' every row of the chosen dates and all their numbers. */
  function Selected(df: seq<Solution>, dates: seq<string>, numbers: seq<string>, selectAll: bool): (seq<Solution>, seq<string>)
  {
    var byDate := Select(df, DateMask(df, dates));
    if selectAll then (byDate, Numbers(byDate))
    else (Select(byDate, NumberMask(byDate, numbers)), numbers)
  }

  /** A row is selected exactly when its date is chosen and, without 'select all', its
      number is too. */
  lemma SelectedRows(df: seq<Solution>, dates: seq<string>, numbers: seq<string>, selectAll: bool)
    ensures forall s :: s in Selected(df, dates, numbers, selectAll).0 <==>
      s in df && s.date in dates && (selectAll || s.number in numbers)
  {
    var dm := DateMask(df, dates);
    var byDate := Select(df, dm);
    forall s ensures s in byDate <==> s in df && s.date in dates {
      if s in byDate {
        var q :| 0 <= q < |byDate| && byDate[q] == s;
        var k := SelectedFrom(df, dm, q);
      }
      if s in df && s.date in dates {
        var k :| 0 <= k < |df| && df[k] == s;
        var q := SelectedTo(df, dm, k);
      }
    }
    if !selectAll {
      var nm := NumberMask(byDate, numbers);
      var rows := Select(byDate, nm);
      forall s ensures s in rows <==> s in byDate && s.number in numbers {
        if s in rows {
          var q :| 0 <= q < |rows| && rows[q] == s;
          var k := SelectedFrom(byDate, nm, q);
        }
        if s in byDate && s.number in numbers {
          var k :| 0 <= k < |byDate| && byDate[k] == s;
          var q := SelectedTo(byDate, nm, k);
        }
      }
    }
  }

  /** `filtered_df.loc[number, 'Solution Image']` once 'Solution Number' is the index: the
      cell of the one row with that number, a Series (not text) when several rows have it,
      and `KeyError` when none does. */
  function ImageCell(rows: seq<Solution>, number: string): (r: Result<CellValue>)
    ensures r.Err? ==> r.error == KeyError(number)
  {
    var hits := Select(rows, NumberMask(rows, [number]));
    if |hits| == 0 then Err(KeyError(number))
    else if |hits| == 1 then Ok(hits[0].image)
    else Ok(NotStr)
  }

  /** The lookup fails exactly for a number no row has. */
  lemma ImageCellFails(rows: seq<Solution>, number: string)
    ensures ImageCell(rows, number).Err? <==> number !in Numbers(rows)
  {
    var m := NumberMask(rows, [number]);
    TrueIndicesExact(m);
    if number in Numbers(rows) {
      var k :| 0 <= k < |rows| && Numbers(rows)[k] == number;
      assert m[k] && k in TrueIndices(m);
    } else {
      forall j | 0 <= j < |rows| ensures !m[j] {
        assert Numbers(rows)[j] == rows[j].number;
      }
      TrueIndicesNone(m);
    }
  }

  /** A number held by one row alone gives that row's cell. */
  lemma ImageCellUnique(rows: seq<Solution>, number: string, k: nat)
    requires k < |rows| && rows[k].number == number
    requires forall j :: 0 <= j < |rows| && j != k ==> rows[j].number != number
    ensures ImageCell(rows, number) == Ok(rows[k].image)
  {
    var m := NumberMask(rows, [number]);
    TrueIndicesSingle(m, k);
    assert Select(rows, m)[0] == rows[k];
  }

  /** A number held by two rows gives no text, so no images are shown for it. */
  lemma ImageCellRepeated(rows: seq<Solution>, number: string, i: nat, j: nat)
    requires i < j < |rows| && rows[i].number == number && rows[j].number == number
    ensures ImageCell(rows, number) == Ok(NotStr)
    ensures StringToList(ImageCell(rows, number).value, ",") == Ok([])
  {
    var m := NumberMask(rows, [number]);
    TrueIndicesExact(m);
    var idx := TrueIndices(m);
    assert m[i] && i in idx && m[j] && j in idx;
    var qi :| 0 <= qi < |idx| && idx[qi] == i;
    var qj :| 0 <= qj < |idx| && idx[qj] == j;
    assert qi != qj;
  }

  /** The image table shown for one solution number. */
  function SolutionImages(rows: seq<Solution>, number: string, uri: string -> string): Result<ImageTable> {
    match ImageCell(rows, number)
    case Err(e) => Err(e)
    case Ok(cell) =>
      var paths := StringToList(cell, ",").value;
      Ok(ImageTable(Order(paths, PngKey), Stored(paths, PngKey, uri)))
  }

  /** The image table of each solution number, looked up in `rows`. */
  function ShownFor(rows: seq<Solution>, uri: string -> string): string -> Result<ImageTable> {
    number => SolutionImages(rows, number, uri)
  }

  /** `show(x)` for each `x` of `xs` in turn, stopping at the first that raises. */
  function Each<T>(xs: seq<string>, show: string -> Result<T>): (r: Result<seq<T>>)
    ensures r.Ok? ==> |r.value| == |xs|
  {
    if xs == [] then Ok([])
    else
      match Each(xs[..|xs| - 1], show)
      case Err(e) => Err(e)
      case Ok(ts) =>
        match show(xs[|xs| - 1])
        case Err(e) => Err(e)
        case Ok(t) => Ok(ts + [t])
  }

  /** The loop succeeds exactly when every step does, and then result `k` is that of `xs[k]`. */
  lemma {:induction false} EachStep<T>(xs: seq<string>, show: string -> Result<T>)
    ensures Each(xs, show).Ok? <==> forall k :: 0 <= k < |xs| ==> show(xs[k]).Ok?
    ensures Each(xs, show).Ok? ==> forall k :: 0 <= k < |xs| ==> Each(xs, show).value[k] == show(xs[k]).value
    decreases |xs|
  {
    if xs != [] {
      var front := xs[..|xs| - 1];
      EachStep(front, show);
      assert forall k :: 0 <= k < |front| ==> front[k] == xs[k];
    }
  }

  /** One more step appends its result, or raises its error. */
  lemma EachSnoc<T>(xs: seq<string>, x: string, show: string -> Result<T>)
    ensures Each(xs + [x], show) == match Each(xs, show)
      case Err(e) => Err(e)
      case Ok(ts) => (match show(x) case Err(e) => Err(e) case Ok(t) => Ok(ts + [t]))
  {
    assert (xs + [x])[..|xs|] == xs;
  }

  /** Once a prefix fails, the whole loop fails with the same error. */
  lemma {:induction false} EachFailureStays<T>(xs: seq<string>, show: string -> Result<T>, n: nat)
    requires n <= |xs| && Each(xs[..n], show).Err?
    ensures Each(xs, show) == Each(xs[..n], show)
    decreases |xs| - n
  {
    if n < |xs| {
      assert xs[..n + 1][..n] == xs[..n];
      EachFailureStays(xs, show, n + 1);
    } else {
      assert xs[..n] == xs;
    }
  }

  /** `data_analysis` on a sheet read in file order: the sheet reversed, the selection made
      with the widgets' `dates`, `numbers` and 'select all' box, then the image table of each
      selected number. */
  method DataAnalysis(sheet: seq<Solution>, dates: seq<string>, numbers: seq<string>, selectAll: bool, uri: string -> string)
    returns (r: Result<(seq<Solution>, seq<ImageTable>)>)
    ensures var (rows, chosen) := Selected(Reversed(sheet), dates, numbers, selectAll);
      match Each(chosen, ShownFor(rows, uri))
      case Err(e) => r == Err(e)
      case Ok(ts) => r == Ok((rows, ts))
  {
    var df := Reversed(sheet);
    var sel := Selected(df, dates, numbers, selectAll);
    var rows, chosen := sel.0, sel.1;
    var tables: seq<ImageTable> := [];
    ghost var done: seq<string> := [];
    var i := 0;
    while i < |chosen|
      invariant i <= |chosen| && done == chosen[..i]
      invariant Each(done, ShownFor(rows, uri)) == Ok(tables)
    {
      var number := chosen[i];
      PrefixSnoc(chosen, i);
      EachSnoc(done, number, ShownFor(rows, uri));
      var cell := ImageCell(rows, number);
      if cell.Err? {
        EachFailureStays(chosen, ShownFor(rows, uri), i + 1);
        return Err(cell.error);
      }
      var paths := StringToList(cell.value, ",").value;
      var t := ImgPathsToDataFrame(paths, uri);
      tables := tables + [t];
      done := done + [number];
      i := i + 1;
    }
    assert done == chosen;
    r := Ok((rows, tables));
  }

  /** The numbers the page looks up are all present, so the lookup never raises: without
      'select all' they are offered from, and then kept in, the date-filtered rows; with it
      they are those rows' own numbers. */
  lemma SelectionNeverRaises(df: seq<Solution>, dates: seq<string>, numbers: seq<string>, selectAll: bool, uri: string -> string)
    requires forall n :: n in numbers ==> n in Numbers(Select(df, DateMask(df, dates)))
    ensures var (rows, chosen) := Selected(df, dates, numbers, selectAll);
      Each(chosen, ShownFor(rows, uri)).Ok?
  {
    var byDate := Select(df, DateMask(df, dates));
    var (rows, chosen) := Selected(df, dates, numbers, selectAll);
    forall k | 0 <= k < |chosen| ensures ShownFor(rows, uri)(chosen[k]).Ok? {
      var n := chosen[k];
      var j: nat;
      if selectAll {
        j := k;
      } else {
        assert n in Numbers(byDate);
        var at :| 0 <= at < |byDate| && Numbers(byDate)[at] == n;
        j := SelectedTo(byDate, NumberMask(byDate, numbers), at);
      }
      assert Numbers(rows)[j] == n;
      ImageCellFails(rows, n);
    }
    EachStep(chosen, ShownFor(rows, uri));
  }
}
