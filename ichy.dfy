/** The ichy CSV converter: a potentiostat export read as a table of text cells, whose cell
    (1, 1) names the technique. The rows after the technique's header become a two-column
    frame of floats; CV gains a time axis from the scan rate, i-t a constant potential column
    and loses repeated time stamps, CA gets a recomputed time axis and its square-wave
    potential. Float and integer parsing are supplied by the caller. */
module Ichy {
  import opened Base
  import opened Text
  import opened Masks
  import opened Frames
  import opened Naming

  // ----- the table -----

  /** The number of columns `read_csv` gave the table. */
  function Width(grid: seq<seq<string>>): nat {
    if grid == [] then 0 else |grid[0]|
  }

  /** `read_csv` yields a table whose rows all have the same width. */
  predicate Rectangular(grid: seq<seq<string>>) {
    forall i :: 0 <= i < |grid| ==> |grid[i]| == Width(grid)
  }

  /** `float(df.iloc[i, j])` or `int(df.iloc[i, j])`, with the conversion as `parse`. */
  function CellAt<T>(grid: seq<seq<string>>, i: nat, j: nat, parse: string -> Option<T>): (r: Result<T>)
    ensures r.Ok? <==> i < |grid| && j < |grid[i]| && parse(grid[i][j]).Some?
    ensures r.Ok? ==> r.value == parse(grid[i][j]).value
    ensures r == Err(IndexError) <==> !(i < |grid| && j < |grid[i]|)
  {
    if i < |grid| && j < |grid[i]| then
      match parse(grid[i][j])
      case None => Err(ValueError)
      case Some(x) => Ok(x)
    else Err(IndexError)
  }

  /** `df.iloc[start:]`. */
  function DataRows(grid: seq<seq<string>>, start: nat): seq<seq<string>> {
    if start <= |grid| then grid[start..] else []
  }

  /** The data frame: the rows from `start` on as floats, under two column names. A cell that
      is not a number, or a table that is not two columns wide, raises `ValueError`. */
  function Data(grid: seq<seq<string>>, start: nat, parse: Parser): (r: Result<seq<seq<Num>>>)
    ensures r.Err? ==> r.error == ValueError
    ensures r.Ok? ==> |r.value| == 2 && forall c :: 0 <= c < 2 ==> |r.value[c]| == |DataRows(grid, start)|
  {
    match ParseTable(DataRows(grid, start), parse)
    case None => Err(ValueError)
    case Some(rows) =>
      if Width(grid) != 2 then Err(ValueError) else Ok(TableColumns(rows, 2))
  }

  /** The data frame exists exactly when the table is two columns wide and every cell from
      row `start` on is a number; cell `c` of data row `i` is then the float of
      `grid[start + i][c]`. */
  lemma DataCells(grid: seq<seq<string>>, start: nat, parse: Parser)
    requires Rectangular(grid)
    ensures Data(grid, start, parse).Ok? <==>
      Width(grid) == 2 && forall i, c :: start <= i < |grid| && 0 <= c < 2 ==> parse(grid[i][c]).Some?
    ensures Data(grid, start, parse).Ok? ==>
      forall i, c :: 0 <= i < |DataRows(grid, start)| && 0 <= c < 2 ==>
        start + i < |grid| && Data(grid, start, parse).value[c][i] == R(parse(grid[start + i][c]).value)
  {
    var d := DataRows(grid, start);
    assert forall i :: 0 <= i < |d| ==> start + i < |grid| && d[i] == grid[start + i];
    if Width(grid) == 2 && forall i, c :: start <= i < |grid| && 0 <= c < 2 ==> parse(grid[i][c]).Some? {
      forall i, c | 0 <= i < |d| && 0 <= c < |d[i]| ensures parse(d[i][c]).Some? {
        assert parse(grid[start + i][c]).Some?;
      }
    }
    if Data(grid, start, parse).Ok? {
      var rows := ParseTable(d, parse).value;
      forall i, c | start <= i < |grid| && 0 <= c < 2 ensures parse(grid[i][c]).Some? {
        assert d[i - start] == grid[i];
      }
      forall i, c | 0 <= i < |d| && 0 <= c < 2
        ensures Data(grid, start, parse).value[c][i] == R(parse(grid[start + i][c]).value)
      {
        assert Data(grid, start, parse).value[c][i] == R(rows[i][c]);
      }
    }
  }

  // ----- techniques -----

  datatype Mode = LSV | CV | It | CA

  /** The tag in the sheet and file names. */
  function ModeName(m: Mode): string {
    match m
    case LSV => "LSV"
    case CV => "CV"
    case It => "It"
    case CA => "CA"
  }

  /** The text of cell (1, 1) for each technique. */
  function Technique(m: Mode): string {
    match m
    case LSV => "LSV - Linear Sweep Voltammetry"
    case CV => "CV - Cyclic Voltammetry"
    case It => "I-t - Amperometric i-t Curve"
    case CA => "CA - Chronoamperometry"
  }

  /** The technique whose text the cell equals exactly, if any. */
  function ModeOf(cell: string): (r: Option<Mode>)
    ensures r.Some? ==> cell == Technique(r.value)
    ensures r.None? <==> forall m :: cell != Technique(m)
  {
    if cell == Technique(LSV) then Some(LSV)
    else if cell == Technique(CV) then Some(CV)
    else if cell == Technique(It) then Some(It)
    else if cell == Technique(CA) then Some(CA)
    else None
  }

  /** The names the two data columns get. */
  function Columns(m: Mode): seq<string> {
    if m == LSV || m == CV then ["Potential[V]", "Current[A]"] else ["Time[s]", "Current[A]"]
  }

  /** The same value in each of `n` rows: a scalar inserted as a column. */
  function Constant(n: nat, v: real): (col: seq<Num>)
    ensures |col| == n && forall k :: 0 <= k < n ==> col[k] == R(v)
  {
    seq(n, k requires 0 <= k < n => R(v))
  }

  // ----- CV -----

  /** `time_interval`: the potential step of the first two data rows over the scan rate of
      cell (6, 1), given in uV/s. */
  function CvInterval(grid: seq<seq<string>>, parse: Parser): (r: Result<real>)
    requires Rectangular(grid) && Width(grid) >= 2
    ensures r.Ok? <==> (|grid| >= 13 && parse(grid[6][1]).Some? && parse(grid[6][1]).value != 0.0 &&
                        parse(grid[12][0]).Some? && parse(grid[11][0]).Some?)
    ensures r.Ok? ==>
      r.value * (parse(grid[6][1]).value * 0.000001) == parse(grid[12][0]).value - parse(grid[11][0]).value
    ensures r == Err(IndexError) <==> |grid| < 7 || (|grid| < 13 && parse(grid[6][1]).Some?)
    ensures r == Err(ZeroDivisionError) <==>
      |grid| >= 13 && parse(grid[6][1]) == Some(0.0) && parse(grid[12][0]).Some? && parse(grid[11][0]).Some?
  {
    match CellAt(grid, 6, 1, parse)
    case Err(e) => Err(e)
    case Ok(v) =>
      var rate := v * 0.000001;
      match CellAt(grid, 12, 0, parse)
      case Err(e) => Err(e)
      case Ok(x12) =>
        match CellAt(grid, 11, 0, parse)
        case Err(e) => Err(e)
        case Ok(x11) =>
          if rate == 0.0 then Err(ZeroDivisionError)
          else
            var dt := (x12 - x11) / rate;
            assert dt * rate == x12 - x11;
            Ok(dt)
  }

  /** The CV sheet: the time axis in front of potential and current. */
  function CvSheet(grid: seq<seq<string>>, parse: Parser): Result<(seq<string>, seq<seq<Num>>)>
    requires Rectangular(grid) && Width(grid) >= 2
  {
    match CvInterval(grid, parse)
    case Err(e) => Err(e)
    case Ok(dt) =>
      match Data(grid, 11, parse)
      case Err(e) => Err(e)
      case Ok(cols) => Ok(CvRows(cols, dt))
  }

  /** The data columns with the time axis of step `dt` in front. */
  function CvRows(cols: seq<seq<Num>>, dt: real): (seq<string>, seq<seq<Num>>)
    requires |cols| == 2
  {
    (["Time[s]"] + Columns(CV), [TimeColumn(|cols[0]|, dt)] + cols)
  }

  /** A CV sheet is the data with the time axis whose step is the change between the first two
      potentials over the scan rate of cell (6, 1) in V/s (`CvRowsTimeAxis`): row `k` is at
      `k * (x[1] - x[0]) / rate`. */
  lemma CvTimeAxis(grid: seq<seq<string>>, parse: Parser)
    requires Rectangular(grid) && Width(grid) >= 2 && CvSheet(grid, parse).Ok?
    ensures Data(grid, 11, parse).Ok? && parse(grid[6][1]).Some? && parse(grid[6][1]).value != 0.0
    ensures var x := Data(grid, 11, parse).value[0];
      && |grid| >= 13 && |x| == |grid| - 11 && x[0].R? && x[1].R?
      && CvSheet(grid, parse).value ==
           CvRows(Data(grid, 11, parse).value, (x[1].v - x[0].v) / (parse(grid[6][1]).value * 0.000001))
  {
    CvIntervalIsFirstStep(grid, parse);
  }

  /** The CV columns: time, then the potential and current of the data; row `k` is at `k * dt`. */
  lemma CvRowsTimeAxis(cols: seq<seq<Num>>, dt: real)
    requires |cols| == 2 && |cols[0]| == |cols[1]|
    ensures var out := CvRows(cols, dt);
      && out.0 == ["Time[s]", "Potential[V]", "Current[A]"] && out.1 == [TimeColumn(|cols[0]|, dt)] + cols
      && forall k :: 0 <= k < |cols[0]| ==> out.1[0][k] == R(k as real * dt)
  {
  }

  /** The CV interval is the step between the first two potentials of the data over the scan
      rate in V/s. */
  lemma CvIntervalIsFirstStep(grid: seq<seq<string>>, parse: Parser)
    requires Rectangular(grid) && Width(grid) >= 2 && CvInterval(grid, parse).Ok? && Data(grid, 11, parse).Ok?
    ensures |grid| >= 13 && |Data(grid, 11, parse).value[0]| == |grid| - 11
    ensures Data(grid, 11, parse).value[0][0].R? && Data(grid, 11, parse).value[0][1].R?
    ensures CvInterval(grid, parse).value ==
      (Data(grid, 11, parse).value[0][1].v - Data(grid, 11, parse).value[0][0].v) / (parse(grid[6][1]).value * 0.000001)
  {
    DataCells(grid, 11, parse);
    var cols := Data(grid, 11, parse).value;
    assert cols[0][1] == R(parse(grid[12][0]).value) && cols[0][0] == R(parse(grid[11][0]).value);
  }


  // ----- i-t -----

  /** The i-t sheet: time, the potential of cell (3, 1) in mV as a constant column, current;
      rows whose time stamp already occurred are dropped. */
  function ItSheet(grid: seq<seq<string>>, parse: Parser, parseInt: IntParser): Result<(seq<string>, seq<seq<Num>>)>
    requires Rectangular(grid) && Width(grid) >= 2
  {
    if |grid| < 4 then Err(IndexError)
    else
      match Data(grid, 9, parse)
      case Err(e) => Err(e)
      case Ok(cols) =>
        match parseInt(grid[3][1])
        case None => Err(ValueError)
        case Some(p) => Ok(ItRows(cols, p as real * 0.001))
  }

  /** The time and current columns `t` with the potential `v` inserted between them, each time
      stamp's first row kept. */
  function ItRows(t: seq<seq<Num>>, v: real): (seq<string>, seq<seq<Num>>)
    requires |t| == 2 && |t[0]| == |t[1]|
  {
    var full := [t[0], Constant(|t[0]|, v), t[1]];
    (["Time[s]", "Potential[V]", "Current[A]"], KeepRows(full, FirstSeen(t[0])))
  }

  /** The i-t rows keep no time stamp twice, lose none, keep each row together, and hold the
      potential `v` in every row. */
  lemma ItRowsDropRepeatedTimes(t: seq<seq<Num>>, v: real)
    requires |t| == 2 && |t[0]| == |t[1]|
    ensures var out := ItRows(t, v).1;
      && |out| == 3 && |out[1]| == |out[0]| && |out[2]| == |out[0]| <= |t[0]|
      && (forall i, j :: 0 <= i < j < |out[0]| ==> out[0][i] != out[0][j])
      && (forall k :: 0 <= k < |t[0]| ==> t[0][k] in out[0])
      && (forall q :: 0 <= q < |out[0]| ==>
            exists k :: 0 <= k < |t[0]| && out[0][q] == t[0][k] && out[2][q] == t[1][k])
      && (forall q :: 0 <= q < |out[1]| ==> out[1][q] == R(v))
  {
    var m := FirstSeen(t[0]);
    var full := [t[0], Constant(|t[0]|, v), t[1]];
    var out := KeepRows(full, m);
    assert out == ItRows(t, v).1;
    FirstSeenDistinct(t[0]);
    FirstSeenKeepsEvery(t[0]);
    SelectCount(m);
    forall q | 0 <= q < |out[0]|
      ensures exists k :: 0 <= k < |t[0]| && out[0][q] == t[0][k] && out[2][q] == t[1][k]
    {
      TrueIndicesExact(m);
      var k := TrueIndices(m)[q];
      assert out[2][q] == t[1][k] && out[0][q] == t[0][k];
    }
    forall q | 0 <= q < |out[1]| ensures out[1][q] == R(v) {
      var k := SelectedFrom(full[1], m, q);
    }
  }

  /** On a whole file: the i-t sheet's potential is the one of cell (3, 1), and its rows are the
      data rows with repeated time stamps dropped (`ItRowsDropRepeatedTimes`). */
  lemma ItSheetRows(grid: seq<seq<string>>, parse: Parser, parseInt: IntParser)
    requires Rectangular(grid) && Width(grid) >= 2 && ItSheet(grid, parse, parseInt).Ok?
    ensures |grid| >= 4 && parseInt(grid[3][1]).Some? && Data(grid, 9, parse).Ok?
    ensures ItSheet(grid, parse, parseInt).value ==
      ItRows(Data(grid, 9, parse).value, parseInt(grid[3][1]).value as real * 0.001)
  {
  }

  // ----- CA -----

  /** The CA parameters, in thousandths: high and low potential (mV), pulse width and sample
      interval (ms). */
  datatype CaParams = CaParams(high: int, low: int, pulse: int, sample: int)

  /** `int()` of cells (4, 1), (5, 1), (7, 1) and (9, 1), read in that order. */
  function CaParameters(grid: seq<seq<string>>, parseInt: IntParser): (r: Result<CaParams>)
    requires Rectangular(grid) && Width(grid) >= 2
    ensures r.Ok? <==> (|grid| >= 10 && parseInt(grid[4][1]).Some? && parseInt(grid[5][1]).Some? &&
                        parseInt(grid[7][1]).Some? && parseInt(grid[9][1]).Some?)
    ensures r.Ok? ==> r.value == CaParams(parseInt(grid[4][1]).value, parseInt(grid[5][1]).value,
      parseInt(grid[7][1]).value, parseInt(grid[9][1]).value)
    ensures r.Err? ==> r.error == IndexError || r.error == ValueError
    ensures |grid| < 5 ==> r == Err(IndexError)
  {
    match CellAt(grid, 4, 1, parseInt)
    case Err(e) => Err(e)
    case Ok(high) =>
      match CellAt(grid, 5, 1, parseInt)
      case Err(e) => Err(e)
      case Ok(low) =>
        match CellAt(grid, 7, 1, parseInt)
        case Err(e) => Err(e)
        case Ok(pulse) =>
          match CellAt(grid, 9, 1, parseInt)
          case Err(e) => Err(e)
          case Ok(sample) => Ok(CaParams(high, low, pulse, sample))
  }

  /** `(df.index + 1) * Sample_Int`. */
  function CaTime(n: nat, sample: int): (t: seq<Num>)
    ensures |t| == n
  {
    seq(n, k requires 0 <= k < n => R((k + 1) as real * (sample as real * 0.001)))
  }

  /** `np.repeat([high, low], w)`. */
  function Pattern(high: real, low: real, w: nat): seq<real> {
    seq(2 * w, k requires 0 <= k < 2 * w => if k < w then high else low)
  }

  /** `np.tile(p, q)`. */
  function Tile<T>(p: seq<T>, q: nat): (r: seq<T>)
    ensures |r| == q * |p|
  {
    if q == 0 then [] else Tile(p, q - 1) + p
  }

  /** `np.append(np.tile(p, n // len(p)), p[0:n % len(p)])`. */
  function Fill<T>(p: seq<T>, n: nat): seq<T>
    requires |p| > 0
  {
    Tile(p, n / |p|) + p[..n % |p|]
  }

  lemma MulAtLeast(x: int, m: int)
    requires x >= 1 && m > 0
    ensures x * m >= m
  {
    assert x * m == (x - 1) * m + m;
    assert (x - 1) * m >= 0;
  }

  /** Division with remainder determines quotient and remainder. */
  lemma DivModUnique(k: int, m: int, a: int, r: int)
    requires m > 0 && 0 <= r < m && k == a * m + r
    ensures k / m == a && k % m == r
  {
    var q, s := k / m, k % m;
    assert k == q * m + s;
    assert q * m - a * m == r - s;
    assert (q - a) * m == q * m - a * m;
    if q > a {
      MulAtLeast(q - a, m);
    } else if q < a {
      MulAtLeast(a - q, m);
    }
  }

  /** Entry `k` of `p` tiled `q` times is `p[k % |p|]`. */
  lemma {:induction false} TileIndex<T>(p: seq<T>, q: nat)
    requires |p| > 0
    ensures forall k :: 0 <= k < q * |p| ==> Tile(p, q)[k] == p[k % |p|]
    decreases q
  {
    if q > 0 {
      TileIndex(p, q - 1);
      forall k | 0 <= k < q * |p| ensures Tile(p, q)[k] == p[k % |p|] {
        if k >= (q - 1) * |p| {
          DivModUnique(k, |p|, q - 1, k - (q - 1) * |p|);
        }
      }
    }
  }

  /** Tiling and then appending the partial pattern gives exactly `n` entries, entry `k` being
      `p[k % |p|]`: the pattern repeats from the first row to the last. */
  lemma FillIndex<T>(p: seq<T>, n: nat)
    requires |p| > 0
    ensures |Fill(p, n)| == n && forall k :: 0 <= k < n ==> Fill(p, n)[k] == p[k % |p|]
  {
    var q, s := n / |p|, n % |p|;
    DivModUnique(n, |p|, q, s);
    TileIndex(p, q);
    forall k | q * |p| <= k < n ensures Fill(p, n)[k] == p[k % |p|] {
      DivModUnique(k, |p|, q, k - q * |p|);
    }
  }

  /** `int(a / b)` of two non-negative whole numbers is the quotient of division with remainder. */
  lemma WholeQuotient(a: int, b: int)
    requires a >= 0 && b > 0
    ensures Trunc(a as real / b as real) * b <= a < (Trunc(a as real / b as real) + 1) * b
  {
    var ratio, s := a as real / b as real, b as real;
    assert ratio >= 0.0;
    var w := Trunc(ratio);
    assert ratio * s == a as real;
    MulLe(w as real, ratio, s);
    MulLt(ratio, w as real + 1.0, s);
    assert (w * b) as real == w as real * s;
    assert (w + 1) as real == w as real + 1.0;
    assert ((w + 1) * b) as real == (w + 1) as real * s;
    assert a as real < ((w + 1) * b) as real;
  }

  lemma MulLe(x: real, y: real, s: real)
    requires x <= y && s > 0.0
    ensures x * s <= y * s
  {
  }

  lemma MulLt(x: real, y: real, s: real)
    requires x < y && s > 0.0
    ensures x * s < y * s
  {
  }

  /** The count `np.repeat` needs, as `int(Pulse_Width / Sample_Int)`: the number of samples
      in one pulse. */
  function PulseCount(p: CaParams): (r: Result<int>)
    ensures r.Err? <==> p.sample == 0
    ensures r.Err? ==> r.error == ZeroDivisionError
    ensures r.Ok? && p.pulse >= 0 && p.sample > 0 ==> r.value * p.sample <= p.pulse < (r.value + 1) * p.sample
  {
    if p.sample == 0 then Err(ZeroDivisionError)
    else
      var ratio := (p.pulse as real * 0.001) / (p.sample as real * 0.001);
      assert ratio == p.pulse as real / p.sample as real;
      if p.pulse >= 0 && p.sample > 0 then
        WholeQuotient(p.pulse, p.sample);
        Ok(Trunc(ratio))
      else Ok(Trunc(ratio))
  }

  /** The potential column with a whole-sample pulse count: the high potential for `w` rows, the
      low one for `w` rows, over and over, cut to the frame's `n` rows. A negative count makes
      `np.repeat` raise `ValueError`; a zero one leaves an empty pattern to divide by. */
  function CaPotential(p: CaParams, n: nat): (r: Result<seq<Num>>)
    ensures r.Ok? ==> |r.value| == n
  {
    match PulseCount(p)
    case Err(e) => Err(e)
    case Ok(w) =>
      if w < 0 then Err(ValueError)
      else if w == 0 then Err(ZeroDivisionError)
      else
        var full := Fill(Pattern(p.high as real * 0.001, p.low as real * 0.001, w), n);
        FillIndex(Pattern(p.high as real * 0.001, p.low as real * 0.001, w), n);
        Ok(seq(n, k requires 0 <= k < n => R(full[k])))
  }

  /** The potential column as written: `np.repeat` is handed the float `Pulse_Width /
      Sample_Int` as its count and refuses it with `TypeError`, unless the division itself
      fails first. */
  function CaPotentialAsWritten(p: CaParams, n: nat): (r: Result<seq<Num>>)
    ensures r.Err?
  {
    if p.sample == 0 then Err(ZeroDivisionError) else Err(TypeError)
  }

  /** The CA sheet: the recomputed time axis, the square-wave potential, the current. */
  function CaSheet(grid: seq<seq<string>>, parse: Parser, parseInt: IntParser): Result<(seq<string>, seq<seq<Num>>)>
    requires Rectangular(grid) && Width(grid) >= 2
  {
    match CaParameters(grid, parseInt)
    case Err(e) => Err(e)
    case Ok(p) =>
      match Data(grid, 11, parse)
      case Err(e) => Err(e)
      case Ok(cols) =>
        var n := |cols[0]|;
        match CaPotential(p, n)
        case Err(e) => Err(e)
        case Ok(v) => Ok(CaRows(cols, p.sample, v))
  }

  /** The data's current with the recomputed time axis and the potential column `v`. */
  function CaRows(cols: seq<seq<Num>>, sample: int, v: seq<Num>): (seq<string>, seq<seq<Num>>)
    requires |cols| == 2
  {
    (["Time[s]", "Potential[V]", "Current[A]"], [CaTime(|cols[0]|, sample), v, cols[1]])
  }

  /** The CA sheet as written, with `CaPotentialAsWritten`. */
  function CaSheetAsWritten(grid: seq<seq<string>>, parse: Parser, parseInt: IntParser): Result<(seq<string>, seq<seq<Num>>)>
    requires Rectangular(grid) && Width(grid) >= 2
  {
    match CaParameters(grid, parseInt)
    case Err(e) => Err(e)
    case Ok(p) =>
      match Data(grid, 11, parse)
      case Err(e) => Err(e)
      case Ok(cols) =>
        var n := |cols[0]|;
        match CaPotentialAsWritten(p, n)
        case Err(e) => Err(e)
        case Ok(v) => Ok(CaRows(cols, p.sample, v))
  }

  /** Every CA file the corrected converter turns into a sheet makes the code as written raise
      `TypeError`. */
  lemma CaAsWrittenFails(grid: seq<seq<string>>, parse: Parser, parseInt: IntParser)
    requires Rectangular(grid) && Width(grid) >= 2 && CaSheet(grid, parse, parseInt).Ok?
    ensures CaSheetAsWritten(grid, parse, parseInt) == Err(TypeError)
  {
    var p := CaParameters(grid, parseInt).value;
    assert PulseCount(p).Ok?;
  }

  /** The corrected potential column: with `w` samples per pulse, row `k` holds the high
      potential in the first `w` rows of every `2 * w` and the low one in the rest. */
  lemma CaPotentialPattern(p: CaParams, n: nat)
    requires CaPotential(p, n).Ok?
    ensures PulseCount(p).Ok? && PulseCount(p).value >= 1 && |CaPotential(p, n).value| == n
    ensures var w := PulseCount(p).value;
      forall k :: 0 <= k < n ==>
        CaPotential(p, n).value[k] == R(if k % (2 * w) < w then p.high as real * 0.001 else p.low as real * 0.001)
  {
    var w := PulseCount(p).value;
    var pat := Pattern(p.high as real * 0.001, p.low as real * 0.001, w);
    FillIndex(pat, n);
    forall k | 0 <= k < n
      ensures CaPotential(p, n).value[k] == R(if k % (2 * w) < w then p.high as real * 0.001 else p.low as real * 0.001)
    {
      assert CaPotential(p, n).value[k] == R(Fill(pat, n)[k]);
    }
  }

  /** The CA sheet: row `k` is at `(k + 1)` sample intervals, its potential follows
      `CaPotentialPattern`, and the current is the data's. */
  lemma CaAxes(grid: seq<seq<string>>, parse: Parser, parseInt: IntParser)
    requires Rectangular(grid) && Width(grid) >= 2 && CaSheet(grid, parse, parseInt).Ok?
    ensures var p := CaParameters(grid, parseInt).value; var out := CaSheet(grid, parse, parseInt).value;
      var n := |Data(grid, 11, parse).value[0]|;
      && out.0 == ["Time[s]", "Potential[V]", "Current[A]"] && |out.1| == 3
      && out.1[1] == CaPotential(p, n).value
      && out.1[2] == Data(grid, 11, parse).value[1]
      && |out.1[0]| == n
      && (forall k :: 0 <= k < n ==> out.1[0][k] == R((k + 1) as real * (p.sample as real * 0.001)))
  {
    var p := CaParameters(grid, parseInt).value;
    var cols := Data(grid, 11, parse).value;
    var v := CaPotential(p, |cols[0]|).value;
    assert CaSheet(grid, parse, parseInt).value == CaRows(cols, p.sample, v);
    CaRowsTime(cols, p.sample, v);
  }

  lemma CaRowsTime(cols: seq<seq<Num>>, sample: int, v: seq<Num>)
    requires |cols| == 2
    ensures var out := CaRows(cols, sample, v).1;
      && |out| == 3 && out[1] == v && out[2] == cols[1] && |out[0]| == |cols[0]|
      && forall k :: 0 <= k < |cols[0]| ==> out[0][k] == R((k + 1) as real * (sample as real * 0.001))
  {
  }


  // ----- ichy_csv2excel -----

  /** The data sheet of technique `m`. */
  function Sheet(grid: seq<seq<string>>, m: Mode, parse: Parser, parseInt: IntParser): Result<(seq<string>, seq<seq<Num>>)>
    requires Rectangular(grid) && Width(grid) >= 2
  {
    match m
    case LSV =>
      (match Data(grid, 9, parse)
       case Err(e) => Err(e)
       case Ok(cols) => Ok((Columns(LSV), cols)))
    case CV => CvSheet(grid, parse)
    case It => ItSheet(grid, parse, parseInt)
    case CA => CaSheet(grid, parse, parseInt)
  }

  /** What the converter writes: a workbook for a known technique; for any other text in cell
      (1, 1) the table unchanged, in a sheet named after that text. */
  datatype Output =
    | Book(book: Workbook)
    | RawBook(path: string, sheet: string, grid: seq<seq<string>>, fileName: string)

  /** The output of `ichy_csv2excel` for the file at `path` holding the table `grid`. */
  function Convert(path: string, grid: seq<seq<string>>, parse: Parser, parseInt: IntParser): Result<Output>
    requires Rectangular(grid)
  {
    if |grid| < 2 || Width(grid) < 2 then Err(IndexError)
    else
      var cell := grid[1][1];
      var name := FileStem(path, ".csv");
      match ModeOf(cell)
      case None => Ok(RawBook(OutputPath(path, ".csv", cell + "_"), cell, grid, name))
      case Some(m) =>
        match Sheet(grid, m, parse, parseInt)
        case Err(e) => Err(e)
        case Ok(sh) => Ok(Book(Workbook(OutputPath(path, ".csv", ModeName(m) + "_"), ModeName(m), sh.0, sh.1, name)))
  }

  /** A table naming no known technique is written out unchanged, under the technique text. */
  lemma ConvertUnknown(path: string, grid: seq<seq<string>>, parse: Parser, parseInt: IntParser)
    requires Rectangular(grid) && |grid| >= 2 && Width(grid) >= 2
    requires forall m :: grid[1][1] != Technique(m)
    ensures Convert(path, grid, parse, parseInt) ==
      Ok(RawBook(OutputPath(path, ".csv", grid[1][1] + "_"), grid[1][1], grid, FileStem(path, ".csv")))
  {
  }

  /** `ichy_csv2excel`: the frame is built, given its columns and changed in place as the
      technique requires. */
  method IchyCsv2Excel(path: string, grid: seq<seq<string>>, parse: Parser, parseInt: IntParser)
    returns (r: Result<Output>)
    requires Rectangular(grid)
    ensures r == Convert(path, grid, parse, parseInt)
  {
    if |grid| < 2 || Width(grid) < 2 {
      return Err(IndexError);
    }
    var scanMode := grid[1][1];
    var name := FileStem(path, ".csv");
    var mode := ModeOf(scanMode);
    if mode.None? {
      return Ok(RawBook(OutputPath(path, ".csv", scanMode + "_"), scanMode, grid, name));
    }
    var m := mode.value;
    var sheet: Result<(seq<string>, seq<seq<Num>>)>;
    match m {
      case LSV =>
        var cols := Data(grid, 9, parse);
        sheet := if cols.Err? then Err(cols.error) else Ok((Columns(LSV), cols.value));
      case CV => sheet := CvFrame(grid, parse);
      case It => sheet := ItFrame(grid, parse, parseInt);
      case CA => sheet := CaFrame(grid, parse, parseInt);
    }
    if sheet.Err? {
      return Err(sheet.error);
    }
    return Ok(Book(Workbook(OutputPath(path, ".csv", ModeName(m) + "_"), ModeName(m), sheet.value.0, sheet.value.1, name)));
  }

  /** The CV frame, with `df.insert(0, 'Time[s]', ...)`. */
  method CvFrame(grid: seq<seq<string>>, parse: Parser) returns (r: Result<(seq<string>, seq<seq<Num>>)>)
    requires Rectangular(grid) && Width(grid) >= 2
    ensures r == CvSheet(grid, parse)
  {
    var dt := CvInterval(grid, parse);
    if dt.Err? {
      return Err(dt.error);
    }
    var data := Data(grid, 11, parse);
    if data.Err? {
      return Err(data.error);
    }
    var n := |data.value[0]|;
    var df := new Frame(Columns(CV), data.value, n);
    assert "Time[s]" != "Potential[V]" && "Time[s]" != "Current[A]";
    df.Insert(0, "Time[s]", TimeColumn(n, dt.value));
    assert df.names == ["Time[s]"] + Columns(CV);
    assert df.cols == [TimeColumn(n, dt.value)] + data.value;
    return Ok((df.names, df.cols));
  }

  /** The i-t frame: `df.insert(1, 'Potential[V]', ...)`, then `drop_duplicates` on the time. */
  method ItFrame(grid: seq<seq<string>>, parse: Parser, parseInt: IntParser) returns (r: Result<(seq<string>, seq<seq<Num>>)>)
    requires Rectangular(grid) && Width(grid) >= 2
    ensures r == ItSheet(grid, parse, parseInt)
  {
    if |grid| < 4 {
      return Err(IndexError);
    }
    var potential := grid[3][1];
    var data := Data(grid, 9, parse);
    if data.Err? {
      return Err(data.error);
    }
    var p := parseInt(potential);
    if p.None? {
      return Err(ValueError);
    }
    var sheet := ItFrameOf(data.value, p.value as real * 0.001);
    return Ok(sheet);
  }

  /** `df.insert(1, 'Potential[V]', v)` on the frame of the data, then `df.drop_duplicates`
      on the time, which makes a new frame. */
  method ItFrameOf(t: seq<seq<Num>>, v: real) returns (sheet: (seq<string>, seq<seq<Num>>))
    requires |t| == 2 && |t[0]| == |t[1]|
    ensures sheet == ItRows(t, v)
  {
    var n := |t[0]|;
    var df := new Frame(Columns(It), t, n);
    assert "Potential[V]" != "Time[s]" && "Potential[V]" != "Current[A]";
    df.Insert(1, "Potential[V]", Constant(n, v));
    assert df.names == ["Time[s]", "Potential[V]", "Current[A]"];
    assert df.cols == [t[0], Constant(n, v), t[1]];
    var keep := FirstSeen(df.cols[0]);
    SelectCount(keep);
    df := new Frame(df.names, KeepRows(df.cols, keep), |TrueIndices(keep)|);
    return (df.names, df.cols);
  }

  /** The CA frame: `df['Time[s]'] = ...` replaces the time column in place, then the potential
      is inserted after it. */
  method CaFrame(grid: seq<seq<string>>, parse: Parser, parseInt: IntParser) returns (r: Result<(seq<string>, seq<seq<Num>>)>)
    requires Rectangular(grid) && Width(grid) >= 2
    ensures r == CaSheet(grid, parse, parseInt)
  {
    var p := CaParameters(grid, parseInt);
    if p.Err? {
      return Err(p.error);
    }
    var data := Data(grid, 11, parse);
    if data.Err? {
      return Err(data.error);
    }
    var n := |data.value[0]|;
    var df := new Frame(Columns(CA), data.value, n);
    df.SetColumn("Time[s]", CaTime(n, p.value.sample));
    AlignAllSameLength(data.value, n);
    AlignSameLength(CaTime(n, p.value.sample), n);
    assert df.cols == [CaTime(n, p.value.sample), data.value[1]];
    var v := CaPotential(p.value, n);
    if v.Err? {
      return Err(v.error);
    }
    assert "Potential[V]" != "Time[s]" && "Potential[V]" != "Current[A]";
    df.Insert(1, "Potential[V]", v.value);
    assert df.names == ["Time[s]", "Potential[V]", "Current[A]"];
    assert df.cols == [CaTime(n, p.value.sample), v.value, data.value[1]];
    return Ok((df.names, df.cols));
  }
}
