/** The UV-Vis `.sca` converter: the block of data lines between the first line beginning with
    'Filter:10' and the next one beginning with '[Extended]' becomes a wavelength column and a
    spectrum column, optionally converted from absorbance to transmittance, followed by its
    min-max normalisation. */
module UvSca {
  import opened Base
  import opened Text
  import opened Frames
  import opened Naming
  import opened Normalization
  import opened ExcelNormalize

  /** The spectrum the user chose; the data are absorbances, converted when 'Transmittance'. */
  datatype Spectrum = Transmittance | Absorbance

  function SpectrumName(s: Spectrum): string {
    match s
    case Transmittance => "Transmittance"
    case Absorbance => "Absorbance"
  }

  function Columns(s: Spectrum): seq<string> {
    ["Wavelength[nm]", SpectrumName(s)]
  }

  const StartMarker := "Filter:10"
  const EndMarker := "[Extended]"

  // ----- the data block -----

  /** `start_row` when the scan for the start marker begins at line `i`: one past the first
      marked line, or `None` when no line from `i` on is marked. */
  function StartFrom(lines: seq<string>, i: nat): (r: Option<nat>)
    ensures r.Some? ==> i < r.value <= |lines| && StartsWith(lines[r.value - 1], StartMarker)
    ensures r.Some? ==> forall j :: i <= j < r.value - 1 ==> !StartsWith(lines[j], StartMarker)
    ensures r.None? ==> forall j :: i <= j < |lines| ==> !StartsWith(lines[j], StartMarker)
    decreases |lines| - i
  {
    if i >= |lines| then None
    else if StartsWith(lines[i], StartMarker) then Some(i + 1)
    else StartFrom(lines, i + 1)
  }

  /** The index of the first line from `i` on that begins with the end marker, or the number of
      lines. */
  function BlockEnd(lines: seq<string>, i: nat): (e: nat)
    requires i <= |lines|
    ensures i <= e <= |lines|
    ensures forall j :: i <= j < e ==> !StartsWith(lines[j], EndMarker)
    ensures e < |lines| ==> StartsWith(lines[e], EndMarker)
    decreases |lines| - i
  {
    if i == |lines| || StartsWith(lines[i], EndMarker) then i else BlockEnd(lines, i + 1)
  }

  /** One data line: stripped and split on single spaces. */
  function Fields(line: string): seq<string> {
    Split(Strip(line), " ")
  }

  /** The split data lines from `start` up to the end of the block. */
  function Block(lines: seq<string>, start: nat): (data: seq<seq<string>>)
    requires start <= |lines|
    ensures |data| == BlockEnd(lines, start) - start
    ensures forall k :: 0 <= k < |data| ==> data[k] == Fields(lines[start + k])
  {
    seq(BlockEnd(lines, start) - start, k requires 0 <= k < BlockEnd(lines, start) - start => Fields(lines[start + k]))
  }

  /** The first loop of `sca2excel`: the line after the first one beginning with 'Filter:10'. */
  method FindStart(lines: seq<string>) returns (start: Option<nat>)
    ensures start == StartFrom(lines, 0)
  {
    var i := 0;
    while i < |lines|
      invariant i <= |lines| && StartFrom(lines, i) == StartFrom(lines, 0)
    {
      if StartsWith(lines[i], StartMarker) {
        return Some(i + 1);
      }
      i := i + 1;
    }
    return None;
  }

  /** The second loop: the split lines from `start` on, stopping before the first one beginning
      with '[Extended]'. */
  method CollectData(lines: seq<string>, start: nat) returns (data: seq<seq<string>>)
    requires start <= |lines|
    ensures data == Block(lines, start)
  {
    data := [];
    var i := start;
    while i < |lines|
      invariant start <= i <= BlockEnd(lines, start)
      invariant BlockEnd(lines, i) == BlockEnd(lines, start)
      invariant |data| == i - start
      invariant forall k :: 0 <= k < |data| ==> data[k] == Fields(lines[start + k])
    {
      if StartsWith(lines[i], EndMarker) {
        break;
      }
      data := data + [Fields(lines[i])];
      i := i + 1;
    }
  }

  // ----- the sheet -----

  /** `10 ** (-a)` of the present cells of a column, with the power supplied by the caller. */
  function ToTransmittance(col: seq<Num>, pow: real -> real): (r: seq<Num>)
    ensures |r| == |col|
    ensures forall k :: 0 <= k < |col| ==> r[k] == if col[k].R? then R(pow(col[k].v)) else col[k]
  {
    seq(|col|, k requires 0 <= k < |col| => if col[k].R? then R(pow(col[k].v)) else col[k])
  }

  /** The sheet of the parsed data rows: wavelength, the spectrum (converted when asked) and its
      normalisation. A row wider than two fields, or no row of two fields, raises `ValueError`;
      a row of one field leaves its spectrum cell missing. */
  function SheetOfRows(rows: seq<seq<real>>, s: Spectrum, pow: real -> real): Result<(seq<string>, seq<seq<Num>>)> {
    match ToTable(rows, Columns(s))
    case Err(e) => Err(e)
    case Ok(t) =>
      var y := if s == Transmittance then ToTransmittance(t[1], pow) else t[1];
      Ok((Columns(s) + ["Normalized"], [t[0], y, NormalizeColumn(y)]))
  }

  /** The sheet holds the wavelength and the spectrum of every data row, in order, then the
      normalised spectrum, which lies in [0, 1] wherever the spectrum has a value, with 0 at its
      minimum and 1 at its maximum. */
  lemma SheetOfRowsNormalized(rows: seq<seq<real>>, s: Spectrum, pow: real -> real)
    requires SheetOfRows(rows, s, pow).Ok?
    ensures var out := SheetOfRows(rows, s, pow).value;
      && out.0 == ["Wavelength[nm]", SpectrumName(s), "Normalized"] && |out.1| == 3
      && |out.1[0]| == |out.1[1]| == |out.1[2]| == |rows|
      && (forall i :: 0 <= i < |rows| ==> |rows[i]| <= 2)
      && (forall i :: 0 <= i < |rows| ==> out.1[0][i] == if |rows[i]| < 1 then NaN else R(rows[i][0]))
      && (forall i :: 0 <= i < |rows| ==>
            out.1[1][i] == if |rows[i]| < 2 then NaN else if s == Transmittance then R(pow(rows[i][1])) else R(rows[i][1]))
      && out.1[2] == NormalizeColumn(out.1[1])
    ensures var y := SheetOfRows(rows, s, pow).value.1[1];
      Values(y) != [] && Min(Values(y)) < Max(Values(y)) ==>
        forall i :: 0 <= i < |y| && y[i].R? ==>
          NormalizeColumn(y)[i].R? && 0.0 <= NormalizeColumn(y)[i].v <= 1.0
          && (NormalizeColumn(y)[i] == R(0.0) <==> y[i].v == Min(Values(y)))
          && (NormalizeColumn(y)[i] == R(1.0) <==> y[i].v == Max(Values(y)))
  {
    var t := ToTable(rows, Columns(s)).value;
    assert t == TableColumns(rows, 2);
    var y := SheetOfRows(rows, s, pow).value.1[1];
    if Values(y) != [] && Min(Values(y)) < Max(Values(y)) {
      forall i | 0 <= i < |y| && y[i].R?
        ensures NormalizeColumn(y)[i].R? && 0.0 <= NormalizeColumn(y)[i].v <= 1.0
          && (NormalizeColumn(y)[i] == R(0.0) <==> y[i].v == Min(Values(y)))
          && (NormalizeColumn(y)[i] == R(1.0) <==> y[i].v == Max(Values(y)))
      {
        NormalizeColumnSpread(y, i, i);
      }
    }
  }

  /** The header, data and sheet of the file with lines `lines`. A file without a line
      beginning with 'Filter:10' leaves `start_row` unbound. */
  function Sheet(lines: seq<string>, s: Spectrum, parse: Parser, pow: real -> real): Result<(seq<string>, seq<seq<Num>>)> {
    match StartFrom(lines, 0)
    case None => Err(NameError("start_row"))
    case Some(start) =>
      match ParseTable(Block(lines, start), parse)
      case None => Err(ValueError)
      case Some(rows) => SheetOfRows(rows, s, pow)
  }

  /** The workbook `sca2excel` writes for the file at `path`. */
  function Convert(path: string, lines: seq<string>, s: Spectrum, parse: Parser, pow: real -> real): Result<Workbook> {
    match Sheet(lines, s, parse, pow)
    case Err(e) => Err(e)
    case Ok(sh) =>
      Ok(Workbook(OutputPath(path, ".sca", SpectrumName(s) + "_"), SpectrumName(s), sh.0, sh.1, FileStem(path, ".sca")))
  }

  /** Row `i` of the sheet is the parsed fields of the `i`-th line after the start marker
      (`Block`), which lies before any '[Extended]' line that follows it. */
  lemma SheetRows(lines: seq<string>, s: Spectrum, parse: Parser, pow: real -> real) returns (start: nat, rows: seq<seq<real>>)
    requires Sheet(lines, s, parse, pow).Ok?
    ensures 1 <= start <= |lines| && StartsWith(lines[start - 1], StartMarker)
    ensures forall j :: 0 <= j < start - 1 ==> !StartsWith(lines[j], StartMarker)
    ensures |rows| == BlockEnd(lines, start) - start
    ensures forall i :: 0 <= i < |rows| ==>
      !StartsWith(lines[start + i], EndMarker) && ParseFields(Block(lines, start)[i], parse) == Some(rows[i])
    ensures Sheet(lines, s, parse, pow) == SheetOfRows(rows, s, pow)
  {
    start := StartFrom(lines, 0).value;
    rows := ParseTable(Block(lines, start), parse).value;
    forall i | 0 <= i < |rows|
      ensures !StartsWith(lines[start + i], EndMarker) && ParseFields(Block(lines, start)[i], parse) == Some(rows[i])
    {
      var f := Block(lines, start)[i];
      assert forall c :: 0 <= c < |f| ==> parse(f[c]) == Some(rows[i][c]);
      ParseFieldsOf(f, rows[i], parse);
    }
  }

  /** `sca2excel`: two scanning loops, the frame, the in-place conversion and the appended
      'Normalized' column. */
  method Sca2Excel(path: string, lines: seq<string>, s: Spectrum, parse: Parser, pow: real -> real)
    returns (r: Result<Workbook>)
    ensures r == Convert(path, lines, s, parse, pow)
  {
    var start := FindStart(lines);
    if start.None? {
      return Err(NameError("start_row"));
    }
    var data := CollectData(lines, start.value);
    var rows := ParseTable(data, parse);
    if rows.None? {
      return Err(ValueError);
    }
    var sheet := FrameOfRows(rows.value, s, pow);
    if sheet.Err? {
      return Err(sheet.error);
    }
    var name := FileStem(path, ".sca");
    return Ok(Workbook(OutputPath(path, ".sca", SpectrumName(s) + "_"), SpectrumName(s), sheet.value.0, sheet.value.1, name));
  }

  /** The frame of the parsed rows, changed in place. */
  method FrameOfRows(rows: seq<seq<real>>, s: Spectrum, pow: real -> real) returns (r: Result<(seq<string>, seq<seq<Num>>)>)
    ensures r == SheetOfRows(rows, s, pow)
  {
    var table := ToTable(rows, Columns(s));
    if table.Err? {
      return Err(table.error);
    }
    var df := new Frame(Columns(s), table.value, |rows|);
    if s == Transmittance {
      ConvertSpectrum(df, pow);
    }
    var y := if s == Transmittance then ToTransmittance(table.value[1], pow) else table.value[1];
    assert df.cols == [table.value[0], y];
    AddNormalized(df);
    assert df.names == Columns(s) + ["Normalized"];
    assert df.cols == [table.value[0], y, NormalizeColumn(y)];
    return Ok((df.names, df.cols));
  }

  /** `df.iloc[:, 1:] = df.iloc[:, 1:].apply(absorbance_to_transmittance)`. */
  method ConvertSpectrum(df: Frame, pow: real -> real)
    requires df.Valid() && df.names == Columns(Transmittance) && |df.cols| == 2
    modifies df
    ensures df.Valid() && df.rows == old(df.rows) && df.names == old(df.names)
    ensures df.cols == [old(df.cols[0]), ToTransmittance(old(df.cols[1]), pow)]
  {
    var y := ToTransmittance(df.cols[1], pow);
    ghost var before := df.cols;
    df.SetColumn("Transmittance", y);
    AlignAllSameLength(before, df.rows);
    AlignSameLength(y, df.rows);
  }

  /** `df['Normalized'] = normalize_data(df[spectrum])`. */
  method AddNormalized(df: Frame)
    requires df.Valid() && |df.names| == 2 && df.names[0] == "Wavelength[nm]" && df.names[1] != "Normalized"
    modifies df
    ensures df.Valid() && df.rows == old(df.rows)
    ensures df.names == old(df.names) + ["Normalized"]
    ensures df.cols == old(df.cols) + [NormalizeColumn(old(df.cols[1]))]
  {
    var y := NormalizeColumn(df.cols[1]);
    ghost var before := df.cols;
    df.SetColumn("Normalized", y);
    AlignAllSameLength(before, df.rows);
    AlignSameLength(y, df.rows);
  }
}
