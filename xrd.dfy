/** The XRD text converter: the lines that start with a digit are the measurement, each split
    on whitespace into the diffraction angle and the intensity; a Savitzky-Golay smoothing of
    the intensity is appended, and the workbook records the smoothing parameters. */
module Xrd {
  import opened Base
  import opened Text
  import opened Masks
  import opened Frames
  import opened Naming

  const AngleName: string := "2Θ[degree]"
  const IntensityName: string := "Intensity[a.u.]"
  const SmoothedName: string := "Smoothed Intensity[a.u.]"
  const SheetName: string := "XRD_rawdata"

  /** `re.match(r'^\d', line)`. */
  predicate DataLine(line: string) {
    line != [] && IsDigit(line[0])
  }

  /** The data lines, in file order. */
  function DataLines(lines: seq<string>): (d: seq<string>)
    ensures |d| <= |lines| && forall k :: 0 <= k < |d| ==> DataLine(d[k])
  {
    if lines == [] then []
    else
      var last := lines[|lines| - 1];
      DataLines(lines[..|lines| - 1]) + (if DataLine(last) then [last] else [])
  }

  /** The mask of data lines. */
  function DataMask(lines: seq<string>): (m: seq<bool>)
    ensures |m| == |lines| && forall i :: 0 <= i < |lines| ==> (m[i] <==> DataLine(lines[i]))
  {
    seq(|lines|, i requires 0 <= i < |lines| => DataLine(lines[i]))
  }

  /** The data lines are exactly the lines that start with a digit, each once, in order. */
  lemma {:induction false} DataLinesSelect(lines: seq<string>)
    ensures DataLines(lines) == Select(lines, DataMask(lines))
    decreases |lines|
  {
    if lines != [] {
      var front := lines[..|lines| - 1];
      DataLinesSelect(front);
      assert DataMask(lines)[..|lines| - 1] == DataMask(front);
      SelectSnoc(lines, DataMask(lines));
    }
  }

  /** `line.strip().split()`. */
  function Fields(line: string): seq<string> {
    Words(Strip(line))
  }

  /** `[float(x) for x in line.strip().split()]`. */
  function Row(line: string, parse: Parser): (r: Option<seq<real>>)
    ensures r.Some? ==> |r.value| == |Fields(line)|
  {
    ParseFields(Fields(line), parse)
  }

  /** How one data line becomes a row. */
  type LineReader = string -> Option<seq<real>>

  /** `Row` with `float` fixed. */
  function RowReader(parse: Parser): LineReader {
    line => Row(line, parse)
  }

  /** The rows the reading loop collects; the first data line `float` rejects raises
      `ValueError`. */
  function Rows(lines: seq<string>, read: LineReader): (r: Result<seq<seq<real>>>)
    ensures r.Err? ==> r.error == ValueError
    ensures r.Ok? ==> |r.value| == |DataLines(lines)|
    ensures r.Ok? ==> forall k :: 0 <= k < |r.value| ==> read(DataLines(lines)[k]) == Some(r.value[k])
  {
    if lines == [] then Ok([])
    else
      var front := lines[..|lines| - 1];
      var last := lines[|lines| - 1];
      match Rows(front, read)
      case Err(e) => Err(e)
      case Ok(rows) =>
        if !DataLine(last) then Ok(rows)
        else
          match read(last)
          case None => Err(ValueError)
          case Some(row) => Ok(rows + [row])
  }

  /** Reading succeeds exactly when every data line's fields are numbers. */
  lemma RowsSucceed(lines: seq<string>, read: LineReader)
    ensures Rows(lines, read).Ok? <==> forall k :: 0 <= k < |DataLines(lines)| ==> read(DataLines(lines)[k]).Some?
  {
    if forall k :: 0 <= k < |DataLines(lines)| ==> read(DataLines(lines)[k]).Some? {
      RowsRead(lines, read);
    }
  }

  lemma {:induction false} RowsRead(lines: seq<string>, read: LineReader)
    requires forall k :: 0 <= k < |DataLines(lines)| ==> read(DataLines(lines)[k]).Some?
    ensures Rows(lines, read).Ok?
    decreases |lines|
  {
    if lines != [] {
      var front := lines[..|lines| - 1];
      var last := lines[|lines| - 1];
      var d, df := DataLines(lines), DataLines(front);
      assert d == df + (if DataLine(last) then [last] else []);
      assert forall k :: 0 <= k < |df| ==> d[k] == df[k];
      RowsRead(front, read);
      if DataLine(last) {
        assert d[|df|] == last;
      }
    }
  }

  /** Once the rows of a prefix fail, the rows of the whole file fail. */
  lemma {:induction false} RowsFailForever(lines: seq<string>, j: nat, read: LineReader)
    requires j <= |lines| && Rows(lines[..j], read).Err?
    ensures Rows(lines, read).Err?
    decreases |lines|
  {
    if j < |lines| {
      var front := lines[..|lines| - 1];
      assert front[..j] == lines[..j];
      RowsFailForever(front, j, read);
    } else {
      assert lines[..j] == lines;
    }
  }

  /** The loop of `kei_txt2excel` over the file's lines. */
  method ReadRows(lines: seq<string>, read: LineReader) returns (r: Result<seq<seq<real>>>)
    ensures r == Rows(lines, read)
  {
    var data: seq<seq<real>> := [];
    var i := 0;
    while i < |lines|
      invariant 0 <= i <= |lines|
      invariant Rows(lines[..i], read) == Ok(data)
    {
      var line := lines[i];
      assert lines[..i + 1][..i] == lines[..i];
      if DataLine(line) {
        var row := read(line);
        if row.None? {
          RowsFailForever(lines, i + 1, read);
          return Err(ValueError);
        }
        data := data + [row.value];
      }
      i := i + 1;
    }
    assert lines[..i] == lines;
    return Ok(data);
  }

  /** `savgol_filter(intensity, window_length, polyorder)`, taken from the caller: `None`
      where SciPy raises `ValueError`. */
  type Smoother = (seq<Num>, int, int) -> Option<seq<Num>>

  /** The workbook and the two smoothing parameters its 'parameter' sheet records. */
  datatype Export = Export(book: Workbook, window: int, polyorder: int)

  const Columns: seq<string> := [AngleName, IntensityName]

  /** `pd.DataFrame(data, columns=['2Θ[degree]', 'Intensity[a.u.]'])` on the rows read. */
  function Table(lines: seq<string>, parse: Parser): (r: Result<seq<seq<Num>>>)
    ensures r.Err? ==> r.error == ValueError
    ensures r.Ok? ==> |r.value| == 2 && |r.value[0]| == |r.value[1]| == |DataLines(lines)|
  {
    match Rows(lines, RowReader(parse))
    case Err(e) => Err(e)
    case Ok(rows) => ToTable(rows, Columns)
  }

  /** Cell `k` of the angle and intensity columns is field 0 and 1 of the `k`-th data line,
      NaN where that line has a single field; no data line has more than two. */
  lemma TableCells(lines: seq<string>, parse: Parser, k: nat, c: nat)
    requires Table(lines, parse).Ok? && k < |DataLines(lines)| && c < 2
    ensures var fields := Fields(DataLines(lines)[k]);
      |fields| <= 2 && Table(lines, parse).value[c][k] == if c < |fields| then R(parse(fields[c]).value) else NaN
  {
    var rows := Rows(lines, RowReader(parse)).value;
    assert RowReader(parse)(DataLines(lines)[k]) == Some(rows[k]);
  }

  /** The table exists exactly when every data line parses into at most two fields and, if
      there is any data line, one of them has two. */
  lemma TableSucceeds(lines: seq<string>, parse: Parser)
    ensures var d := DataLines(lines);
      Table(lines, parse).Ok? <==>
        (forall k :: 0 <= k < |d| ==> Row(d[k], parse).Some? && |Fields(d[k])| <= 2) &&
        (d == [] || exists k :: 0 <= k < |d| && |Fields(d[k])| == 2)
  {
    RowsSucceed(lines, RowReader(parse));
  }

  /** `kei_txt2excel` on the file's lines. */
  function Convert(path: string, lines: seq<string>, window: int, polyorder: int, parse: Parser, smooth: Smoother): (r: Result<Export>)
    ensures r.Err? ==> r.error == ValueError
    ensures r.Err? <==> Table(lines, parse).Err? || smooth(Table(lines, parse).value[1], window, polyorder).None?
                        || |smooth(Table(lines, parse).value[1], window, polyorder).value| != |DataLines(lines)|
    ensures r.Ok? ==> r.value.book.sheet == SheetName && r.value.book.names == Columns + [SmoothedName]
    ensures r.Ok? ==> r.value.book.path == OutputPath(path, ".txt", "") && r.value.book.fileName == FileStem(path, ".txt")
    ensures r.Ok? ==> r.value.window == window && r.value.polyorder == polyorder
    ensures r.Ok? ==> r.value.book.cols == Table(lines, parse).value + [smooth(Table(lines, parse).value[1], window, polyorder).value]
  {
    match Table(lines, parse)
    case Err(e) => Err(e)
    case Ok(cols) =>
      match smooth(cols[1], window, polyorder)
      case None => Err(ValueError)
      case Some(s) =>
        if |s| != |cols[1]| then Err(ValueError)
        else Ok(Export(Workbook(OutputPath(path, ".txt", ""), SheetName, Columns + [SmoothedName], cols + [s], FileStem(path, ".txt")),
                       window, polyorder))
  }

  /** `kei_txt2excel`: reads the rows, builds the frame, appends the smoothed intensity and
      names the workbook after the file. */
  method KeiTxt2Excel(path: string, lines: seq<string>, window: int, polyorder: int, parse: Parser, smooth: Smoother)
    returns (r: Result<Export>)
    ensures r == Convert(path, lines, window, polyorder, parse, smooth)
  {
    var data := ReadRows(lines, RowReader(parse));
    if data.Err? {
      return Err(data.error);
    }
    var table := ToTable(data.value, Columns);
    if table.Err? {
      return Err(table.error);
    }
    assert table == Table(lines, parse);
    var df := new Frame(Columns, table.value, |data.value|);
    var smoothed := smooth(df.cols[1], window, polyorder);
    if smoothed.None? || |smoothed.value| != df.rows {
      return Err(ValueError);
    }
    df.Append(SmoothedName, smoothed.value);
    var fileName := FileStem(path, ".txt");
    return Ok(Export(Workbook(OutputPath(path, ".txt", ""), SheetName, df.names, df.cols, fileName), window, polyorder));
  }
}
