/** The CHI workstation text export converted to a workbook. The technique named on the second
    line fixes the column names and the header that precedes the data; every line after it is
    a row of comma-separated floats, and a cyclic voltammogram gains a time axis from its
    potential step and the scan rate given in the header. Lines are those of `readlines()`;
    Python's `float` is the caller's `parse`. */
module Chi {
  import opened Base
  import opened Text
  import opened Frames
  import opened Naming

  // ----- technique -----

  datatype Mode = OCP | LSV | CV

  function ModeName(m: Mode): string {
    match m
    case OCP => "OCP"
    case LSV => "LSV"
    case CV => "CV"
  }

  /** How the technique is named on the second line of the export. */
  function Marker(m: Mode): string {
    match m
    case OCP => "开路电位-时间"
    case LSV => "线性扫描伏安法"
    case CV => "循环伏安法"
  }

  /** The order in which the techniques are tried. */
  function Rank(m: Mode): nat {
    match m
    case OCP => 0
    case LSV => 1
    case CV => 2
  }

  /** The technique of the (stripped) second line: the first one tried whose name it holds. */
  function ScanMode(line: string): (r: Option<Mode>)
    ensures r.Some? ==> Contains(line, Marker(r.value))
    ensures r.Some? ==> forall n :: Rank(n) < Rank(r.value) ==> !Contains(line, Marker(n))
    ensures r.None? <==> forall n :: !Contains(line, Marker(n))
  {
    if Contains(line, Marker(OCP)) then Some(OCP)
    else if Contains(line, Marker(LSV)) then Some(LSV)
    else if Contains(line, Marker(CV)) then Some(CV)
    else None
  }

  /** The columns of each technique; the caller's column names are always overridden. */
  function Columns(m: Mode): seq<string> {
    if m == OCP then ["Time[s]", "Potential[V]"] else ["Potential[V]", "Current[A]"]
  }

  /** The header line that precedes the data of each technique. */
  function Keywords(m: Mode): seq<string> {
    if m == OCP then ["Time/sec, Potential/V"] else ["Potential/V, Current/A"]
  }

  // ----- find_data_start_line -----

  predicate HasAll(line: string, keywords: seq<string>) {
    forall k :: 0 <= k < |keywords| ==> Contains(line, keywords[k])
  }

  /** The first line from `i` on that holds every keyword. */
  function FindFrom(content: seq<string>, keywords: seq<string>, i: nat): (r: Option<nat>)
    decreases |content| - i
    ensures r.Some? ==> i <= r.value < |content| && HasAll(content[r.value], keywords)
    ensures r.Some? ==> forall j :: i <= j < r.value ==> !HasAll(content[j], keywords)
    ensures r.None? ==> forall j :: i <= j < |content| ==> !HasAll(content[j], keywords)
  {
    if i >= |content| then None
    else if HasAll(content[i], keywords) then Some(i)
    else FindFrom(content, keywords, i + 1)
  }

  /** `find_data_start_line`: the data start two lines below the first header line. */
  function FindDataStartLine(content: seq<string>, keywords: seq<string>): (r: Option<nat>)
    ensures r.Some? ==> 2 <= r.value < |content| + 2 && HasAll(content[r.value - 2], keywords)
    ensures r.Some? ==> forall j :: 0 <= j < r.value - 2 ==> !HasAll(content[j], keywords)
    ensures r.None? <==> forall j :: 0 <= j < |content| ==> !HasAll(content[j], keywords)
  {
    match FindFrom(content, keywords, 0)
    case None => None
    case Some(i) =>
      assert content[i + 2 - 2] == content[i];
      Some(i + 2)
  }

  /** `content[start:]`, where a missing start (`None`) slices from the beginning and a start
      past the end gives no lines. */
  function DataLines(content: seq<string>, m: Mode): (lines: seq<string>)
    ensures |lines| <= |content|
  {
    match FindDataStartLine(content, Keywords(m))
    case None => content
    case Some(s) => if s <= |content| then content[s..] else []
  }

  // ----- row parsing -----

  /** One line: its comma-separated fields as floats. */
  function ParseRow(line: string, parse: Parser): (r: Option<seq<real>>)
    ensures r.Some? ==> |r.value| >= 1
  {
    ParseFields(Split(line, ","), parse)
  }

  /** Every line as a row; the first field `float` rejects raises `ValueError`. */
  function ParseRows(lines: seq<string>, parse: Parser): (r: Result<seq<seq<real>>>)
    ensures r.Ok? ==> |r.value| == |lines| && forall i :: 0 <= i < |lines| ==> ParseRow(lines[i], parse) == Some(r.value[i])
    ensures r.Err? ==> r.error == ValueError && exists i :: 0 <= i < |lines| && ParseRow(lines[i], parse).None?
  {
    if lines == [] then Ok([])
    else
      match ParseRow(lines[0], parse)
      case None => Err(ValueError)
      case Some(row) =>
        match ParseRows(lines[1..], parse)
        case Err(e) => Err(e)
        case Ok(rows) => Ok([row] + rows)
  }

  // ----- pd.DataFrame(data, columns=columns) -----


  // ----- extract_scan_rate -----

  const ScanRateKey: string := "Scan Rate (V/s)"
  const ScanRateLabel: string := "Scan Rate (V/s) = "

  /** `[\d.]`, with ASCII digits. */
  predicate IsRateChar(c: char) {
    IsDigit(c) || c == '.'
  }

  /** The number of rate characters from `k` on. */
  function RunLength(s: string, k: nat): (n: nat)
    requires k <= |s|
    decreases |s| - k
    ensures k + n <= |s| && forall j :: k <= j < k + n ==> IsRateChar(s[j])
    ensures k + n < |s| ==> !IsRateChar(s[k + n])
  {
    if k < |s| && IsRateChar(s[k]) then 1 + RunLength(s, k + 1) else 0
  }

  /** `Scan Rate \(V/s\) = ([\d.]+)` matches at `p`. */
  predicate MatchesAt(line: string, p: nat) {
    OccursAt(line, ScanRateLabel, p) && p + |ScanRateLabel| < |line| && IsRateChar(line[p + |ScanRateLabel|])
  }

  /** The captured group of a match at `p`: the longest run of rate characters after the label. */
  function Group(line: string, p: nat): (g: string)
    requires MatchesAt(line, p)
    ensures |g| >= 1 && forall j :: 0 <= j < |g| ==> IsRateChar(g[j])
    ensures var e := p + |ScanRateLabel| + |g|; e <= |line| && (e < |line| ==> !IsRateChar(line[e]))
  {
    var k := p + |ScanRateLabel|;
    line[k..k + RunLength(line, k)]
  }

  /** `re.search`: the leftmost match at or after `p`. */
  function MatchFrom(line: string, p: nat): (r: Option<nat>)
    decreases |line| - p
    ensures r.Some? ==> p <= r.value && MatchesAt(line, r.value)
    ensures r.Some? ==> forall j :: p <= j < r.value ==> !MatchesAt(line, j)
    ensures r.None? ==> forall j :: p <= j ==> !MatchesAt(line, j)
  {
    if p >= |line| then None
    else if MatchesAt(line, p) then Some(p)
    else MatchFrom(line, p + 1)
  }

  /** The scan rate one line states, if any. */
  function ScanRateIn(line: string): Option<string> {
    match MatchFrom(line, 0)
    case None => None
    case Some(p) => Some(Group(line, p))
  }

  /** The last present entry. */
  function LastSome<T>(xs: seq<Option<T>>): (r: Option<T>)
    ensures r.None? <==> forall i :: 0 <= i < |xs| ==> xs[i].None?
  {
    if xs == [] then None
    else if xs[|xs| - 1].Some? then xs[|xs| - 1]
    else
      var front := xs[..|xs| - 1];
      assert forall i :: 0 <= i < |front| ==> front[i] == xs[i];
      LastSome(front)
  }

  /** An entry that is present and followed only by absent ones is the last present entry. */
  lemma {:induction false} LastSomeIsLast<T>(xs: seq<Option<T>>) returns (i: nat)
    requires LastSome(xs).Some?
    ensures i < |xs| && xs[i] == LastSome(xs)
    ensures forall j :: i < j < |xs| ==> xs[j].None?
  {
    var last := |xs| - 1;
    if xs[last].Some? {
      i := last;
    } else {
      var front := xs[..last];
      assert forall j :: 0 <= j < |front| ==> front[j] == xs[j];
      i := LastSomeIsLast(front);
    }
  }

  /** The rate each line states, if any. */
  function Rates(content: seq<string>): (rs: seq<Option<string>>)
    ensures |rs| == |content| && forall i :: 0 <= i < |content| ==> rs[i] == ScanRateIn(content[i])
  {
    seq(|content|, i requires 0 <= i < |content| => ScanRateIn(content[i]))
  }

  /** The rate of the last line that states one. */
  function LastScanRate(content: seq<string>): Option<string> {
    LastSome(Rates(content))
  }

  /** The rate kept is the one on the last line that states a rate: later lines state none,
      and no rate is kept only when no line states one. */
  lemma LastScanRateIsLast(content: seq<string>) returns (i: nat)
    requires LastScanRate(content).Some?
    ensures i < |content| && ScanRateIn(content[i]) == LastScanRate(content)
    ensures forall j :: i < j < |content| ==> ScanRateIn(content[j]).None?
  {
    i := LastSomeIsLast(Rates(content));
  }

  lemma NoScanRate(content: seq<string>)
    ensures LastScanRate(content).None? <==> forall i :: 0 <= i < |content| ==> ScanRateIn(content[i]).None?
  {
    assert forall i :: 0 <= i < |content| ==> Rates(content)[i] == ScanRateIn(content[i]);
  }

  /** `extract_scan_rate`: the dict the loop over every line leaves behind. */
  method ExtractScanRate(content: seq<string>) returns (parameters: map<string, string>)
    ensures parameters == if LastScanRate(content).Some? then map[ScanRateKey := LastScanRate(content).value] else map[]
  {
    parameters := map[];
    var rates := Rates(content);
    var i := 0;
    while i < |content|
      invariant 0 <= i <= |content|
      invariant parameters == if LastSome(rates[..i]).Some? then map[ScanRateKey := LastSome(rates[..i]).value] else map[]
    {
      var g := rates[i];
      if g.Some? {
        parameters := parameters[ScanRateKey := g.value];
      }
      assert rates[..i + 1][..i] == rates[..i];
      assert rates[..i + 1][i] == g;
      i := i + 1;
    }
    assert rates[..|content|] == rates;
  }

  /** `parameters.get('Scan Rate (V/s)', 'Unknown')`. */
  function Rate(content: seq<string>): string {
    match LastScanRate(content)
    case Some(g) => g
    case None => "Unknown"
  }

  // ----- the CV time axis -----

  /** `(x[2] - x[1]) / float(scan_rate)`: the time one potential step takes. Fewer than three
      rows fail on `iloc[2, 0]`, a rate `float` rejects (such as 'Unknown') with `ValueError`,
      a zero rate on the float division. */
  function TimeStep(rows: seq<seq<real>>, rate: string, parse: Parser): (r: Result<real>)
    requires forall i :: 0 <= i < |rows| ==> rows[i] != []
    ensures r == Err(IndexError) <==> |rows| < 3
    ensures r == Err(ValueError) <==> |rows| >= 3 && parse(rate).None?
    ensures r == Err(ZeroDivisionError) <==> |rows| >= 3 && parse(rate) == Some(0.0)
    ensures r.Ok? ==> |rows| >= 3 && parse(rate).Some? && r.value * parse(rate).value == rows[2][0] - rows[1][0]
  {
    if |rows| < 3 then Err(IndexError)
    else
      match parse(rate)
      case None => Err(ValueError)
      case Some(v) =>
        if v == 0.0 then Err(ZeroDivisionError)
        else
          var dt := (rows[2][0] - rows[1][0]) / v;
          assert dt * v == rows[2][0] - rows[1][0];
          Ok(dt)
  }

  // ----- chi_txt2excel -----

  /** The header and columns of the data sheet for technique `m`. */
  function Sheet(content: seq<string>, m: Mode, parse: Parser): Result<(seq<string>, seq<seq<Num>>)> {
    match ParseRows(DataLines(content, m), parse)
    case Err(e) => Err(e)
    case Ok(rows) => SheetOfRows(content, m, rows, parse)
  }

  /** The sheet of parsed rows: the frame under the technique's columns, and for CV the time
      axis in front. */
  function SheetOfRows(content: seq<string>, m: Mode, rows: seq<seq<real>>, parse: Parser): Result<(seq<string>, seq<seq<Num>>)>
    requires forall i :: 0 <= i < |rows| ==> rows[i] != []
  {
    match ToTable(rows, Columns(m))
    case Err(e) => Err(e)
    case Ok(cols) =>
      if m != CV then Ok((Columns(m), cols))
      else
        match TimeStep(rows, Rate(content), parse)
        case Err(e) => Err(e)
        case Ok(dt) => Ok((["Time[s]"] + Columns(m), [TimeColumn(|rows|, dt)] + cols))
  }

  /** The workbook `chi_txt2excel` writes for the file at `path` with lines `content`. A file of
      fewer than two lines fails on `content[1]`; one whose second line names no known
      technique leaves `keywords` unbound. */
  function Convert(path: string, content: seq<string>, parse: Parser): Result<Workbook> {
    if |content| < 2 then Err(IndexError)
    else
      match ScanMode(Strip(content[1]))
      case None => Err(NameError("keywords"))
      case Some(m) =>
        match Sheet(content, m, parse)
        case Err(e) => Err(e)
        case Ok(sheet) =>
          var name := FileStem(path, ".txt");
          Ok(Workbook(OutputPath(path, ".txt", ModeName(m) + "_"), ModeName(m), sheet.0, sheet.1, name))
  }

  /** A data line that `float` cannot read fails the whole conversion with `ValueError`. */
  lemma ConvertUnparsable(path: string, content: seq<string>, parse: Parser, m: Mode, i: nat)
    requires |content| >= 2 && ScanMode(Strip(content[1])) == Some(m)
    requires i < |DataLines(content, m)| && ParseRow(DataLines(content, m)[i], parse).None?
    ensures Convert(path, content, parse) == Err(ValueError)
  {
  }

  /** The frame built from parsed rows has the technique's header, the CV time axis first,
      and one row per parsed row: column `c` of the technique holds field `c` of each row, NaN
      where the row is short, and no row has more fields than there are columns. */
  lemma SheetOfRowsCells(content: seq<string>, m: Mode, rows: seq<seq<real>>, parse: Parser)
    requires forall i :: 0 <= i < |rows| ==> rows[i] != []
    requires SheetOfRows(content, m, rows, parse).Ok?
    ensures var sh := SheetOfRows(content, m, rows, parse).value;
      && sh.0 == (if m == CV then ["Time[s]"] else []) + Columns(m)
      && |sh.1| == |sh.0| && (forall c :: 0 <= c < |sh.1| ==> |sh.1[c]| == |rows|)
    ensures var sh := SheetOfRows(content, m, rows, parse).value;
      var off := if m == CV then 1 else 0;
      forall i, c :: 0 <= i < |rows| && 0 <= c < |Columns(m)| ==>
        |rows[i]| <= |Columns(m)| && sh.1[off + c][i] == if c < |rows[i]| then R(rows[i][c]) else NaN
  {
    var cols := ToTable(rows, Columns(m)).value;
    assert cols == TableColumns(rows, |Columns(m)|);
  }

  /** The CV time axis: row `k` is at `k * (x[2] - x[1]) / rate`, where `x` is the potential
      column and `rate` the scan rate the header states last (`LastScanRateIsLast`). */
  lemma SheetOfRowsTimeAxis(content: seq<string>, rows: seq<seq<real>>, parse: Parser)
    requires forall i :: 0 <= i < |rows| ==> rows[i] != []
    requires SheetOfRows(content, CV, rows, parse).Ok?
    ensures var cols := SheetOfRows(content, CV, rows, parse).value.1;
      && |rows| >= 3 && |cols| == 3 && parse(Rate(content)).Some? && parse(Rate(content)).value != 0.0
      && forall k :: 0 <= k < |rows| ==>
           cols[0][k] == R(k as real * ((cols[1][2].v - cols[1][1].v) / parse(Rate(content)).value))
  {
    var cols := ToTable(rows, Columns(CV)).value;
    assert cols == TableColumns(rows, 2);
    assert cols[0][2] == R(rows[2][0]) && cols[0][1] == R(rows[1][0]);
    var v := parse(Rate(content)).value;
    var dt := TimeStep(rows, Rate(content), parse).value;
    assert dt == (rows[2][0] - rows[1][0]) / v;
    var out := SheetOfRows(content, CV, rows, parse).value.1;
    assert out == [TimeColumn(|rows|, dt)] + cols;
    assert out[1] == cols[0];
    forall k | 0 <= k < |rows| ensures out[0][k] == R(k as real * ((out[1][2].v - out[1][1].v) / v)) {
    }
  }

  /** The sheet holds one parsed row per data line. */
  lemma SheetRows(content: seq<string>, m: Mode, parse: Parser) returns (rows: seq<seq<real>>)
    requires Sheet(content, m, parse).Ok?
    ensures |rows| == |DataLines(content, m)|
    ensures forall i :: 0 <= i < |rows| ==> ParseRow(DataLines(content, m)[i], parse) == Some(rows[i]) && rows[i] != []
    ensures Sheet(content, m, parse) == SheetOfRows(content, m, rows, parse)
  {
    rows := ParseRows(DataLines(content, m), parse).value;
  }

  /** What `chi_txt2excel` writes for a file whose second line names technique `m`. */
  lemma ConvertIsSheet(path: string, content: seq<string>, parse: Parser, m: Mode)
    requires |content| >= 2 && ScanMode(Strip(content[1])) == Some(m)
    ensures Sheet(content, m, parse).Err? ==> Convert(path, content, parse) == Err(Sheet(content, m, parse).error)
    ensures Sheet(content, m, parse).Ok? ==>
      var name := FileStem(path, ".txt");
      var sh := Sheet(content, m, parse).value;
      Convert(path, content, parse) == Ok(Workbook(OutputPath(path, ".txt", ModeName(m) + "_"), ModeName(m), sh.0, sh.1, name))
  {
  }

  /** `chi_txt2excel`: builds the frame, inserts the CV time axis in place and names the output. */
  method ChiTxt2Excel(path: string, content: seq<string>, parse: Parser) returns (r: Result<Workbook>)
    ensures r == Convert(path, content, parse)
  {
    if |content| < 2 {
      return Err(IndexError);
    }
    var mode := ScanMode(Strip(content[1]));
    if mode.None? {
      return Err(NameError("keywords"));
    }
    var m := mode.value;
    var sheet := BuildSheet(content, m, parse);
    if sheet.Err? {
      return Err(sheet.error);
    }
    var name := FileStem(path, ".txt");
    return Ok(Workbook(OutputPath(path, ".txt", ModeName(m) + "_"), ModeName(m), sheet.value.0, sheet.value.1, name));
  }

  /** The frame of the data lines, with the CV time axis inserted in front. */
  method BuildSheet(content: seq<string>, m: Mode, parse: Parser) returns (r: Result<(seq<string>, seq<seq<Num>>)>)
    ensures r == Sheet(content, m, parse)
  {
    var rows := ParseRows(DataLines(content, m), parse);
    if rows.Err? {
      return Err(rows.error);
    }
    r := FrameOfRows(content, m, rows.value, parse);
  }

  method FrameOfRows(content: seq<string>, m: Mode, rows: seq<seq<real>>, parse: Parser)
    returns (r: Result<(seq<string>, seq<seq<Num>>)>)
    requires forall i :: 0 <= i < |rows| ==> rows[i] != []
    ensures r == SheetOfRows(content, m, rows, parse)
  {
    var table := ToTable(rows, Columns(m));
    if table.Err? {
      return Err(table.error);
    }
    var df := new Frame(Columns(m), table.value, |rows|);
    if m == CV {
      var parameters := ExtractScanRate(content);
      var rate := if ScanRateKey in parameters then parameters[ScanRateKey] else "Unknown";
      var dt := TimeStep(rows, rate, parse);
      if dt.Err? {
        return Err(dt.error);
      }
      InsertTimeAxis(df, TimeColumn(|rows|, dt.value));
    }
    return Ok((df.names, df.cols));
  }

  /** `df.insert(0, 'Time[s]', ...)` on the CV frame. */
  method InsertTimeAxis(df: Frame, t: seq<Num>)
    requires df.Valid() && df.names == Columns(CV) && |t| == df.rows
    modifies df
    ensures df.Valid() && df.rows == old(df.rows)
    ensures df.names == ["Time[s]"] + Columns(CV) && df.cols == [t] + old(df.cols)
  {
    assert "Time[s]" != "Potential[V]" && "Time[s]" != "Current[A]";
    df.Insert(0, "Time[s]", t);
    assert old(df.cols)[..0] == [] && old(df.cols)[0..] == old(df.cols);
  }
}
