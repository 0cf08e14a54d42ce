/** The part of a pandas DataFrame the converters change in place: named columns of float
    cells over a default integer index `0..rows-1`. */
module Frames {
  import opened Base
  import opened Masks

  /** `series.reindex(range(n))` for a Series with a default index: the first `n` values,
      padded with NaN when there are fewer. */
  function Align(values: seq<Num>, n: nat): (r: seq<Num>)
    ensures |r| == n
    ensures forall k :: 0 <= k < n ==> r[k] == if k < |values| then values[k] else NaN
  {
    seq(n, k requires 0 <= k < n => if k < |values| then values[k] else NaN)
  }

  /** Aligning a value that already has `n` entries changes nothing. */
  lemma AlignSameLength(values: seq<Num>, n: nat)
    requires |values| == n
    ensures Align(values, n) == values
  {
  }

  /** Aligning columns that already have `n` entries changes none of them. */
  lemma AlignAllSameLength(cols: seq<seq<Num>>, n: nat)
    requires forall k :: 0 <= k < |cols| ==> |cols[k]| == n
    ensures AlignAll(cols, n) == cols
  {
    forall k | 0 <= k < |cols| ensures AlignAll(cols, n)[k] == cols[k] {
      AlignSameLength(cols[k], n);
    }
  }

  /** Every column aligned to `n` rows. */
  function AlignAll(cols: seq<seq<Num>>, n: nat): (r: seq<seq<Num>>)
    ensures |r| == |cols| && forall k :: 0 <= k < |cols| ==> r[k] == Align(cols[k], n)
  {
    seq(|cols|, k requires 0 <= k < |cols| => Align(cols[k], n))
  }

  /** The number of rows a frame ends up with when the columns `cols` are assigned one after
      another to an empty `pd.DataFrame()`: the length of the first non-empty one, or 0. */
  function AdoptedRows(cols: seq<seq<Num>>): nat {
    if cols == [] then 0
    else
      var front := cols[..|cols| - 1];
      if AdoptedRows(front) > 0 then AdoptedRows(front) else |cols[|cols| - 1]|
  }

  /** No rows are adopted exactly when every column is empty; otherwise the row count is the
      length of the first non-empty column. */
  lemma {:induction false} AdoptedRowsIsFirstNonEmpty(cols: seq<seq<Num>>)
    ensures AdoptedRows(cols) == 0 <==> forall k :: 0 <= k < |cols| ==> cols[k] == []
    ensures AdoptedRows(cols) > 0 ==>
      exists k :: 0 <= k < |cols| && AdoptedRows(cols) == |cols[k]| && forall j :: 0 <= j < k ==> cols[j] == []
    decreases |cols|
  {
    if cols != [] {
      var front := cols[..|cols| - 1];
      AdoptedRowsIsFirstNonEmpty(front);
      assert forall k :: 0 <= k < |front| ==> front[k] == cols[k];
    }
  }

  /** The first non-empty column of `cols + more` is in `cols` when `cols` has one. */
  lemma {:induction false} AdoptedRowsAppend(cols: seq<seq<Num>>, more: seq<seq<Num>>)
    ensures AdoptedRows(cols + more) == if AdoptedRows(cols) > 0 then AdoptedRows(cols) else AdoptedRows(more)
    decreases |more|
  {
    if more == [] {
      assert cols + more == cols;
    } else {
      var m := more[..|more| - 1];
      AdoptedRowsAppend(cols, m);
      assert (cols + more)[..|cols + more| - 1] == cols + m;
    }
  }

  /** Assigning one more column `v` to a frame that holds `cols` aligned to `AdoptedRows(cols)`
      (as `Frame.SetColumn` does for a new name) leaves it holding `cols + [v]` aligned the same
      way. */
  lemma AppendAligned(cols: seq<seq<Num>>, v: seq<Num>)
    ensures AdoptedRows(cols + [v]) == if AdoptedRows(cols) == 0 then |v| else AdoptedRows(cols)
    ensures var n := AdoptedRows(cols + [v]);
      AlignAll(AlignAll(cols, AdoptedRows(cols)), n) + [Align(v, n)] == AlignAll(cols + [v], n)
  {
    assert (cols + [v])[..|cols|] == cols;
    AdoptedRowsIsFirstNonEmpty(cols);
    var n := AdoptedRows(cols + [v]);
    forall k | 0 <= k < |cols| ensures Align(Align(cols[k], AdoptedRows(cols)), n) == Align(cols[k], n) {
      if AdoptedRows(cols) > 0 {
        AlignSameLength(Align(cols[k], n), n);
      }
    }
  }

  /** Position of the first column called `name`. */
  function Find(names: seq<string>, name: string): (r: Option<nat>)
    ensures r.Some? ==> r.value < |names| && names[r.value] == name && name !in names[..r.value]
    ensures r.None? ==> name !in names
  {
    if names == [] then None
    else if names[0] == name then Some(0)
    else match Find(names[1..], name)
      case None => None
      case Some(i) => Some(i + 1)
  }

  /** Column names as `read_excel` delivers them: duplicates are renamed, so all differ. */
  predicate Distinct(names: seq<string>) {
    forall i, j :: 0 <= i < j < |names| ==> names[i] != names[j]
  }

  /** With distinct names, looking a column up by its name finds its own position. */
  lemma FindDistinct(names: seq<string>, k: nat)
    requires Distinct(names) && k < |names|
    ensures Find(names, names[k]) == Some(k)
  {
  }

  /** Python's `float` on text, which the model takes from the caller: `None` where it
      raises `ValueError`. */
  type Parser = string -> Option<real>

  /** `[float(v) for v in fields]`. */
  function ParseFields(fields: seq<string>, parse: Parser): (r: Option<seq<real>>)
    ensures r.Some? ==> |r.value| == |fields| && forall k :: 0 <= k < |fields| ==> parse(fields[k]) == Some(r.value[k])
    ensures r.None? ==> exists k :: 0 <= k < |fields| && parse(fields[k]).None?
  {
    if fields == [] then Some([])
    else
      match parse(fields[0])
      case None => None
      case Some(x) =>
        match ParseFields(fields[1..], parse)
        case None => None
        case Some(xs) => Some([x] + xs)
  }

  /** Parsing every field of a row to `xs` is what `ParseFields` yields. */
  lemma {:induction false} ParseFieldsOf(fields: seq<string>, xs: seq<real>, parse: Parser)
    requires |xs| == |fields| && forall c :: 0 <= c < |fields| ==> parse(fields[c]) == Some(xs[c])
    ensures ParseFields(fields, parse) == Some(xs)
    decreases |fields|
  {
    if fields != [] {
      ParseFieldsOf(fields[1..], xs[1..], parse);
      assert xs == [xs[0]] + xs[1..];
    }
  }

  /** Column `c` holds field `c` of every row, NaN where a row is shorter. */
  function TableColumns(rows: seq<seq<real>>, width: nat): (cols: seq<seq<Num>>)
    ensures |cols| == width && forall c :: 0 <= c < width ==> |cols[c]| == |rows|
  {
    seq(width, c requires 0 <= c < width =>
      seq(|rows|, i requires 0 <= i < |rows| => if c < |rows[i]| then R(rows[i][c]) else NaN))
  }

  /** `.astype(float)` on rows of text cells. */
  function ParseTable(rows: seq<seq<string>>, parse: Parser): (r: Option<seq<seq<real>>>)
    ensures r.Some? <==> forall i, c :: 0 <= i < |rows| && 0 <= c < |rows[i]| ==> parse(rows[i][c]).Some?
    ensures r.Some? ==> |r.value| == |rows|
    ensures r.Some? ==> forall i :: 0 <= i < |rows| ==> |r.value[i]| == |rows[i]|
    ensures r.Some? ==>
      forall i, c :: 0 <= i < |rows| && 0 <= c < |rows[i]| ==> parse(rows[i][c]) == Some(r.value[i][c])
  {
    if rows == [] then Some([])
    else
      match ParseFields(rows[0], parse)
      case None => None
      case Some(x) =>
        match ParseTable(rows[1..], parse)
        case None =>
          assert forall i :: 1 <= i < |rows| ==> rows[i] == rows[1..][i - 1];
          None
        case Some(xs) => Some([x] + xs)
  }

  /** The length of the longest row. */
  function MaxWidth(rows: seq<seq<real>>): (w: nat)
    ensures forall i :: 0 <= i < |rows| ==> |rows[i]| <= w
    ensures rows != [] ==> exists i :: 0 <= i < |rows| && |rows[i]| == w
  {
    if rows == [] then 0
    else
      var w := MaxWidth(rows[1..]);
      assert forall i :: 1 <= i < |rows| ==> rows[i] == rows[1..][i - 1];
      if |rows[0]| >= w then |rows[0]| else w
  }

  /** The frame of the rows under `columns`: the widest row must have exactly as many fields
      as there are names (pandas raises `ValueError` otherwise); shorter rows are padded. */
  function ToTable(rows: seq<seq<real>>, columns: seq<string>): (r: Result<seq<seq<Num>>>)
    ensures r.Ok? <==> rows == [] || ((forall i :: 0 <= i < |rows| ==> |rows[i]| <= |columns|)
                                     && exists i :: 0 <= i < |rows| && |rows[i]| == |columns|)
    ensures r.Err? ==> r.error == ValueError
    ensures r.Ok? ==> |r.value| == |columns| && forall c :: 0 <= c < |columns| ==> |r.value[c]| == |rows|
  {
    if rows != [] && MaxWidth(rows) != |columns| then Err(ValueError)
    else Ok(TableColumns(rows, |columns|))
  }

  /** `col / d` for a positive divisor: every number is divided, NaN and the infinities stay
      as they are. */
  function DivideBy(col: seq<Num>, d: real): (r: seq<Num>)
    requires d > 0.0
    ensures |r| == |col|
    ensures forall i :: 0 <= i < |col| ==> (r[i].R? <==> col[i].R?)
    ensures forall i :: 0 <= i < |col| && col[i].R? ==> r[i].v * d == col[i].v
    ensures forall i :: 0 <= i < |col| && !col[i].R? ==> r[i] == col[i]
  {
    seq(|col|, i requires 0 <= i < |col| => if col[i].R? then R(col[i].v / d) else col[i])
  }

  /** Python's `int` on text, likewise taken from the caller. */
  type IntParser = string -> Option<int>

  /** `df.index * time_interval`: evenly spaced from zero. */
  function TimeColumn(n: nat, dt: real): (t: seq<Num>)
    ensures |t| == n && forall k :: 0 <= k < n ==> t[k].R?
    ensures n > 0 ==> t[0] == R(0.0)
    ensures forall k :: 0 <= k < n - 1 ==> t[k + 1].v - t[k].v == dt
  {
    seq(n, k requires 0 <= k < n => R(k as real * dt))
  }

  /** `df[mask]`: the rows where the mask holds, in order, in every column. */
  function KeepRows(cols: seq<seq<Num>>, mask: seq<bool>): (r: seq<seq<Num>>)
    requires forall c :: 0 <= c < |cols| ==> |cols[c]| == |mask|
    ensures |r| == |cols| && forall c :: 0 <= c < |cols| ==> r[c] == Select(cols[c], mask)
  {
    seq(|cols|, c requires 0 <= c < |cols| => Select(cols[c], mask))
  }

  /** One workbook a converter writes: its path, the data sheet's name, header and columns, and
      the file name recorded in its 'parameter' sheet. */
  datatype Workbook = Workbook(path: string, sheet: string, names: seq<string>, cols: seq<seq<Num>>, fileName: string)

  class Frame {
    var names: seq<string>
    var cols: seq<seq<Num>>
    var rows: nat

    ghost predicate Valid()
      reads this
    {
      |names| == |cols| && forall k :: 0 <= k < |cols| ==> |cols[k]| == rows
    }

    /** The frame is `names` over the columns `written`, assigned one by one to an empty
        `pd.DataFrame()` and aligned to the index the first non-empty one fixed. */
    ghost predicate Holds(names0: seq<string>, written: seq<seq<Num>>)
      reads this
    {
      Valid() && names == names0 && rows == AdoptedRows(written) && cols == AlignAll(written, rows)
    }

    /** `pd.DataFrame(...)` from columns of equal length. */
    constructor (names0: seq<string>, cols0: seq<seq<Num>>, rows0: nat)
      requires |names0| == |cols0| && forall k :: 0 <= k < |cols0| ==> |cols0[k]| == rows0
      ensures Valid() && names == names0 && cols == cols0 && rows == rows0
    {
      names, cols, rows := names0, cols0, rows0;
    }

    /** `df[name] = pd.Series(values)`. A frame whose index is still empty takes its index
        from the first non-empty value, and its existing (empty) columns become NaN; otherwise
        the value is aligned to the existing index. An existing column is replaced where it
        stands; a new one is appended. */
    method SetColumn(name: string, values: seq<Num>)
      requires Valid()
      modifies this
      ensures Valid()
      ensures rows == if old(rows) == 0 && |values| > 0 then |values| else old(rows)
      ensures Find(old(names), name).Some? ==>
        (names == old(names) && cols == AlignAll(old(cols), rows)[Find(old(names), name).value := Align(values, rows)])
      ensures Find(old(names), name).None? ==>
        (names == old(names) + [name] && cols == AlignAll(old(cols), rows) + [Align(values, rows)])
    {
      if rows == 0 && |values| > 0 {
        rows := |values|;
        cols := AlignAll(cols, rows);
      } else {
        forall k | 0 <= k < |cols| ensures Align(cols[k], rows) == cols[k] {
          AlignSameLength(cols[k], rows);
        }
        assert cols == AlignAll(cols, rows);
      }
      match Find(names, name)
      case Some(p) =>
        cols := cols[p := Align(values, rows)];
      case None =>
        names := names + [name];
        cols := cols + [Align(values, rows)];
    }

    /** `df[name] = values` for a new name and an array as long as the index. */
    method Append(name: string, values: seq<Num>)
      requires Valid() && name !in names && |values| == rows
      modifies this
      ensures Valid() && rows == old(rows)
      ensures names == old(names) + [name] && cols == old(cols) + [values]
    {
      names := names + [name];
      cols := cols + [values];
    }

    /** `df.insert(loc, name, values)` with a value as long as the index and a new name. */
    method Insert(loc: nat, name: string, values: seq<Num>)
      requires Valid() && loc <= |names| && name !in names && |values| == rows
      modifies this
      ensures Valid() && rows == old(rows)
      ensures names == old(names)[..loc] + [name] + old(names)[loc..]
      ensures cols == old(cols)[..loc] + [values] + old(cols)[loc..]
    {
      names := names[..loc] + [name] + names[loc..];
      cols := cols[..loc] + [values] + cols[loc..];
    }

    /** `df.columns.values[lo:lo + len(labels)] = labels`: names overwritten in place, columns
        untouched. */
    method Relabel(lo: nat, labels: seq<string>)
      requires Valid() && lo + |labels| <= |names|
      modifies this`names
      ensures Valid()
      ensures names == old(names)[..lo] + labels + old(names)[lo + |labels|..]
    {
      names := names[..lo] + labels + names[lo + |labels|..];
    }

    /** `df.rename(columns={old: new}, inplace=True)`: every column called `from` is renamed. */
    method Rename(from: string, to: string)
      requires Valid()
      modifies this`names
      ensures Valid()
      ensures |names| == |old(names)|
      ensures forall k :: 0 <= k < |names| ==> names[k] == if old(names)[k] == from then to else old(names)[k]
    {
      names := seq(|names|, k requires 0 <= k < |names| reads this => if names[k] == from then to else names[k]);
    }
  }
}
