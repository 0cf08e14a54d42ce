/** The Keithley text converter: the first line names the measurement in a tab-separated
    field ending in "测试数据", which decides the column names; the text before that field and
    every further line are whitespace-separated numbers, one row per line; the current may be
    converted from milliamperes to amperes. */
module Keithley {
  import opened Base
  import opened Text
  import opened Frames
  import opened Naming

  const Marker: string := "测试数据"

  /** `[^\t]+测试数据` matches `line[s..e]`: at least one character, then the marker, and no tab
      anywhere in between. */
  predicate Matches(line: string, s: nat, e: nat) {
    s + |Marker| < e <= |line| && OccursAt(line, Marker, e - |Marker|)
    && forall j :: s <= j < e ==> line[j] != '\t'
  }

  /** Where the run of non-tab characters starting at `p` stops. */
  function RunEnd(line: string, p: nat): (e: nat)
    requires p <= |line|
    decreases |line| - p
    ensures p <= e <= |line| && forall j :: p <= j < e ==> line[j] != '\t'
    ensures e < |line| ==> line[e] == '\t'
  {
    if p == |line| || line[p] == '\t' then p else RunEnd(line, p + 1)
  }

  /** The end of the last occurrence of `pat` in `line[..hi]` that starts at `lo` or later:
      the greedy `[^\t]+` gives back characters from the end of the run until the marker fits. */
  function LastEnd(line: string, pat: string, lo: nat, hi: nat): (r: Option<nat>)
    requires hi <= |line|
    ensures r.Some? ==> lo + |pat| <= r.value <= hi && OccursAt(line, pat, r.value - |pat|)
    ensures r.Some? ==> forall q: nat :: r.value - |pat| < q && q + |pat| <= hi ==> !OccursAt(line, pat, q)
    ensures r.None? ==> forall q: nat :: lo <= q && q + |pat| <= hi ==> !OccursAt(line, pat, q)
  {
    if hi < lo + |pat| then None
    else if OccursAt(line, pat, hi - |pat|) then Some(hi)
    else LastEnd(line, pat, lo, hi - 1)
  }

  /** The end of the match the regular expression finds when it starts at `s`: the longest. */
  function MatchEnd(line: string, s: nat): (r: Option<nat>)
    ensures r.Some? ==> Matches(line, s, r.value)
    ensures r.Some? ==> forall e: nat :: Matches(line, s, e) ==> e <= r.value
    ensures r.None? ==> forall e: nat :: !Matches(line, s, e)
  {
    if s < |line| && line[s] != '\t' then
      var hi := RunEnd(line, s);
      var r := LastEnd(line, Marker, s + 1, hi);
      forall e: nat | Matches(line, s, e)
        ensures r.Some? && e <= r.value
      {
        assert OccursAt(line, Marker, e - |Marker|);
      }
      r
    else None
  }

  /** `re.findall(...)[0]` as a span: the match that starts leftmost at or after `p`, and the
      longest from there. */
  function FirstMatch(line: string, p: nat): (r: Option<(nat, nat)>)
    decreases |line| - p
    ensures r.Some? ==> p <= r.value.0 && Matches(line, r.value.0, r.value.1)
    ensures r.Some? ==> forall e: nat :: Matches(line, r.value.0, e) ==> e <= r.value.1
    ensures r.Some? ==> forall t: nat, e: nat :: p <= t < r.value.0 ==> !Matches(line, t, e)
    ensures r.None? ==> forall t: nat, e: nat :: p <= t ==> !Matches(line, t, e)
  {
    if p >= |line| then None
    else
      match MatchEnd(line, p)
      case Some(e) => Some((p, e))
      case None => FirstMatch(line, p + 1)
  }

  /** `re.findall(r'([^\t]+测试数据)', line)[0]`, `None` where the list is empty. */
  function HeaderField(line: string): (r: Option<string>)
    ensures r.Some? ==> |r.value| > |Marker|
  {
    match FirstMatch(line, 0)
    case None => None
    case Some((s, e)) => Some(line[s..e])
  }

  /** The first line cut to `line.split(field)[0].strip()` keeps exactly the text in front of
      the header field: the field occurs nowhere earlier, since an earlier copy would be an
      earlier match. */
  lemma {:induction false} CutBeforeField(line: string) returns (s: nat)
    requires HeaderField(line).Some?
    ensures s <= |line| && s == FirstMatch(line, 0).value.0
    ensures Strip(BeforeFirst(line, HeaderField(line).value)) == Strip(line[..s])
  {
    var e: nat;
    s, e := FirstMatch(line, 0).value.0, FirstMatch(line, 0).value.1;
    var field := line[s..e];
    assert OccursAt(line, field, s);
    forall j: nat | j < s && OccursAt(line, field, j)
      ensures false
    {
      var n := |field|;
      assert line[j..j + n] == field;
      forall i | j <= i < j + n ensures line[i] != '\t' {
        assert line[i] == field[i - j] == line[s + (i - j)];
      }
      assert line[j + n - |Marker|..j + n] == field[n - |Marker|..] == line[e - |Marker|..e];
      assert Matches(line, j, j + n);
    }
    assert IndexOf(line, field) == Some(s);
    assert BeforeFirst(line, field) == Split(line, field)[0] == line[..s];
  }

  /** The three kinds of measurement the header field tells apart. */
  datatype Mode = CV | CA | Electricity

  function ModeName(m: Mode): string {
    match m
    case CV => "CV"
    case CA => "CA"
    case Electricity => "Electricity"
  }

  const MilliAmp: string := "Current[mA]"
  const Amp: string := "Current[A]"

  function ModeOf(field: string): Mode {
    if field == "I-V测试数据" then CV
    else if field == "方波信号测试数据" then CA
    else Electricity
  }

  /** The column names: fixed for the two recognised measurements, the caller's otherwise. */
  function Columns(m: Mode, columns: seq<string>): (names: seq<string>)
    ensures m == Electricity ==> names == columns
    ensures m != Electricity ==> MilliAmp in names && Distinct(names)
  {
    match m
    case CV => ["Potential[V]", MilliAmp]
    case CA => ["Time[s]", "Potential[V]", MilliAmp]
    case Electricity => columns
  }

  /** The lines with the first one cut in front of the header field. */
  function Cut(lines: seq<string>, field: string): (content: seq<string>)
    requires lines != [] && field != []
    ensures |content| == |lines| && content[1..] == lines[1..]
  {
    lines[0 := Strip(BeforeFirst(lines[0], field))]
  }

  /** `line.split()` of every line. */
  function Fields(content: seq<string>): (r: seq<seq<string>>)
    ensures |r| == |content| && forall i :: 0 <= i < |content| ==> r[i] == Words(content[i])
  {
    seq(|content|, i requires 0 <= i < |content| => Words(content[i]))
  }

  /** `pd.DataFrame([[float(v) for v in line.split()] for line in content], columns=names)`. */
  function Table(content: seq<string>, names: seq<string>, parse: Parser): (r: Result<seq<seq<Num>>>)
    ensures r.Err? ==> r.error == ValueError
    ensures r.Ok? ==> |r.value| == |names| && forall c :: 0 <= c < |names| ==> |r.value[c]| == |content|
  {
    match ParseTable(Fields(content), parse)
    case None => Err(ValueError)
    case Some(rows) => ToTable(rows, names)
  }

  function Scaled(names: seq<string>, cols: seq<seq<Num>>): seq<seq<Num>>
    requires |names| == |cols|
  {
    seq(|cols|, k requires 0 <= k < |cols| => if names[k] == MilliAmp then DivideBy(cols[k], 1000.0) else cols[k])
  }

  function Renamed(names: seq<string>): seq<string> {
    seq(|names|, k requires 0 <= k < |names| => if names[k] == MilliAmp then Amp else names[k])
  }

  /** `df['Current[mA]'] = df['Current[mA]'] / 1000` and the rename to `Current[A]`: every
      column of that name is converted, nothing else changes, and a frame without one raises
      `KeyError`. */
  function InAmperes(names: seq<string>, cols: seq<seq<Num>>): (r: Result<(seq<string>, seq<seq<Num>>)>)
    requires |names| == |cols|
    ensures r.Err? <==> MilliAmp !in names
    ensures r.Err? ==> r.error == KeyError(MilliAmp)
    ensures r.Ok? ==> |r.value.0| == |names| && |r.value.1| == |cols| && MilliAmp !in r.value.0
    ensures r.Ok? ==> forall k :: 0 <= k < |names| && names[k] != MilliAmp ==>
      r.value.0[k] == names[k] && r.value.1[k] == cols[k]
    ensures r.Ok? ==> forall k :: 0 <= k < |names| && names[k] == MilliAmp ==>
      r.value.0[k] == Amp && r.value.1[k] == DivideBy(cols[k], 1000.0)
  {
    if MilliAmp !in names then Err(KeyError(MilliAmp))
    else Ok((Renamed(names), Scaled(names, cols)))
  }

  /** The sheet written for the cut lines under `names`. */
  function Sheet(content: seq<string>, names: seq<string>, currentUnit: bool, parse: Parser): (r: Result<(seq<string>, seq<seq<Num>>)>)
    ensures r.Err? ==> r.error == ValueError || r.error == KeyError(MilliAmp)
  {
    match Table(content, names, parse)
    case Err(e) => Err(e)
    case Ok(t) => if currentUnit then InAmperes(names, t) else Ok((names, t))
  }

  /** `kei_txt2excel`: the workbook written for the lines of `path`, or the exception raised. */
  function Convert(path: string, lines: seq<string>, columns: seq<string>, currentUnit: bool, parse: Parser): (r: Result<Workbook>)
    ensures r == Err(IndexError) <==> lines == [] || HeaderField(lines[0]).None?
    ensures r.Ok? ==> lines != [] && HeaderField(lines[0]).Some?
    ensures r.Ok? ==> r.value.sheet == ModeName(ModeOf(HeaderField(lines[0]).value))
    ensures r.Ok? ==> r.value.path == OutputPath(path, ".txt", r.value.sheet + "_")
    ensures r.Ok? ==> r.value.fileName == FileStem(path, ".txt")
  {
    if lines == [] then Err(IndexError)
    else
      match HeaderField(lines[0])
      case None => Err(IndexError)
      case Some(field) =>
        var m := ModeOf(field);
        match Sheet(Cut(lines, field), Columns(m, columns), currentUnit, parse)
        case Err(e) => Err(e)
        case Ok((names, cols)) =>
          Ok(Workbook(OutputPath(path, ".txt", ModeName(m) + "_"), ModeName(m), names, cols, FileStem(path, ".txt")))
  }

  /** The rows `float` produces, one per line, and the table they give. */
  lemma TableRows(content: seq<string>, names: seq<string>, parse: Parser) returns (rows: seq<seq<real>>)
    requires Table(content, names, parse).Ok?
    ensures |rows| == |content|
    ensures forall i :: 0 <= i < |content| ==> ParseFields(Words(content[i]), parse) == Some(rows[i])
    ensures ToTable(rows, names) == Table(content, names, parse)
    ensures forall c, i :: 0 <= c < |names| && 0 <= i < |content| ==>
      Table(content, names, parse).value[c][i] == if c < |rows[i]| then R(rows[i][c]) else NaN
  {
    rows := ParseTable(Fields(content), parse).value;
    forall i | 0 <= i < |content|
      ensures ParseFields(Words(content[i]), parse) == Some(rows[i])
    {
      var fs := Fields(content)[i];
      assert fs == Words(content[i]);
      assert forall c :: 0 <= c < |fs| ==> parse(fs[c]) == Some(rows[i][c]);
      ParseFieldsOf(fs, rows[i], parse);
    }
  }

  /** The workbook holds the sheet of the lines with the first one cut to the text in front of
      the header field's match, under the columns the field selects. */
  lemma ConvertSheet(path: string, lines: seq<string>, columns: seq<string>, currentUnit: bool, parse: Parser)
    returns (s: nat)
    requires Convert(path, lines, columns, currentUnit, parse).Ok?
    ensures s <= |lines[0]| && FirstMatch(lines[0], 0).Some? && s == FirstMatch(lines[0], 0).value.0
    ensures var book := Convert(path, lines, columns, currentUnit, parse).value;
      Sheet(lines[0 := Strip(lines[0][..s])], Columns(ModeOf(HeaderField(lines[0]).value), columns), currentUnit, parse)
        == Ok((book.names, book.cols))
  {
    s := CutBeforeField(lines[0]);
    assert Cut(lines, HeaderField(lines[0]).value) == lines[0 := Strip(lines[0][..s])];
  }

  /** With the conversion asked for, a measurement of neither recognised kind whose caller's
      columns lack `Current[mA]` fails with `KeyError`, however well its numbers parse. */
  lemma ElectricityWithoutCurrent(path: string, lines: seq<string>, columns: seq<string>, parse: Parser)
    requires lines != [] && HeaderField(lines[0]).Some?
    requires ModeOf(HeaderField(lines[0]).value) == Electricity && MilliAmp !in columns
    ensures Convert(path, lines, columns, true, parse).Err?
    ensures Convert(path, lines, columns, true, parse).error in {ValueError, KeyError(MilliAmp)}
  {
  }

  /** `df['Current[mA]'] = df['Current[mA]'] / 1000` on the frame. */
  method DivideCurrent(df: Frame)
    requires df.Valid()
    modifies df`cols
    ensures df.Valid() && df.cols == Scaled(df.names, old(df.cols))
  {
    df.cols := Scaled(df.names, df.cols);
  }

  /** `kei_txt2excel` on the lines read from `path`: the list of lines has its first entry
      replaced by the cut text, the frame is built, and its current column converted and
      renamed in place. */
  method KeiTxt2Excel(path: string, lines: seq<string>, columns: seq<string>, currentUnit: bool, parse: Parser)
    returns (r: Result<Workbook>)
    ensures r == Convert(path, lines, columns, currentUnit, parse)
  {
    if lines == [] {
      return Err(IndexError);
    }
    var field := HeaderField(lines[0]);
    if field.None? {
      return Err(IndexError);
    }
    var m := ModeOf(field.value);
    var names := Columns(m, columns);
    var content := lines;
    content := content[0 := Strip(BeforeFirst(content[0], field.value))];
    assert content == Cut(lines, field.value);
    var table := Table(content, names, parse);
    if table.Err? {
      return Err(table.error);
    }
    var df := new Frame(names, table.value, |content|);
    if currentUnit {
      if MilliAmp !in df.names {
        return Err(KeyError(MilliAmp));
      }
      DivideCurrent(df);
      df.Rename(MilliAmp, Amp);
      assert df.names == Renamed(names);
    }
    r := Ok(Workbook(OutputPath(path, ".txt", ModeName(m) + "_"), ModeName(m), df.names, df.cols, FileStem(path, ".txt")));
  }
}
