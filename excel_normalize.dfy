/** Min-max normalisation of the y columns of a workbook's first sheet, either column by column
    or against one minimum and maximum over all y columns, written to prefixed copies of the
    workbook. Cells are floats or missing (NaN); pandas' `min`/`max` skip the missing ones. */
module ExcelNormalize {
  import opened Base
  import opened Text
  import opened Frames
  import opened Normalization

  /** The present values of a column, in order. */
  function Values(col: seq<Num>): seq<real> {
    if col == [] then []
    else Values(col[..|col| - 1]) + (if col[|col| - 1].R? then [col[|col| - 1].v] else [])
  }

  /** Every present cell is among the values `min` and `max` look at. */
  lemma {:induction false} ValuesListCells(col: seq<Num>, k: nat)
    requires k < |col| && col[k].R?
    ensures col[k].v in Values(col)
    decreases |col|
  {
    if k < |col| - 1 {
      var front := col[..|col| - 1];
      assert front[k] == col[k];
      ValuesListCells(front, k);
    }
  }

  /** One cell against the bounds; a missing cell stays missing. */
  function NormalizeCell(x: Num, lo: real, hi: real): Num {
    if x.R? then Scale(x.v, lo, hi) else x
  }

  function NormalizeWith(col: seq<Num>, lo: real, hi: real): (r: seq<Num>)
    ensures |r| == |col|
  {
    seq(|col|, k requires 0 <= k < |col| => NormalizeCell(col[k], lo, hi))
  }

  /** `normalize_series`. A column with no values has NaN bounds and stays all NaN. */
  function NormalizeColumn(col: seq<Num>): (r: seq<Num>)
    ensures |r| == |col|
  {
    var vs := Values(col);
    if vs == [] then col else NormalizeWith(col, Min(vs), Max(vs))
  }

  /** With distinct bounds, a present cell lands in [0, 1], is 0 exactly at the minimum and 1
      exactly at the maximum, and two present cells keep their order; missing cells stay
      missing. */
  lemma NormalizeColumnSpread(col: seq<Num>, i: nat, j: nat)
    requires i < |col| && j < |col| && Values(col) != [] && Min(Values(col)) < Max(Values(col))
    ensures var r := NormalizeColumn(col); var vs := Values(col);
      && (col[i].NaN? ==> r[i] == NaN)
      && (col[i].R? ==>
          && r[i].R? && 0.0 <= r[i].v <= 1.0
          && (r[i] == R(0.0) <==> col[i].v == Min(vs))
          && (r[i] == R(1.0) <==> col[i].v == Max(vs)))
      && (col[i].R? && col[j].R? ==> (col[i].v < col[j].v <==> r[i].v < r[j].v))
  {
    var vs := Values(col);
    MinMaxBound(vs);
    if col[i].R? {
      ValuesListCells(col, i);
      ScaleProperties(col[i].v, col[i].v, Min(vs), Max(vs));
      if col[j].R? {
        ScaleProperties(col[i].v, col[j].v, Min(vs), Max(vs));
      }
    }
  }

  /** There is no guard for a constant column: every present cell becomes 0/0, NaN. */
  lemma NormalizeColumnConstant(col: seq<Num>, i: nat)
    requires i < |col| && col[i].R? && Values(col) != [] && Min(Values(col)) == Max(Values(col))
    ensures NormalizeColumn(col)[i] == NaN
  {
    var vs := Values(col);
    ValuesListCells(col, i);
    MinMaxBound(vs);
  }

  /** `normalize_individual_columns` on the column values: the first (x) column as it was, every
      other column normalised on its own. */
  function RowNormalized(cols: seq<seq<Num>>): (r: seq<seq<Num>>)
    ensures |r| == |cols|
  {
    seq(|cols|, k requires 0 <= k < |cols| => if k == 0 then cols[0] else NormalizeColumn(cols[k]))
  }

  /** All present values of the y columns (every column but the first). */
  function AllYValues(cols: seq<seq<Num>>): seq<real> {
    if |cols| <= 1 then []
    else AllYValues(cols[..|cols| - 1]) + Values(cols[|cols| - 1])
  }

  /** Every present y cell is among the values the global bounds come from. */
  lemma {:induction false} AllYValuesListCells(cols: seq<seq<Num>>, k: nat, i: nat)
    requires 1 <= k < |cols| && i < |cols[k]| && cols[k][i].R?
    ensures cols[k][i].v in AllYValues(cols)
    decreases |cols|
  {
    if k == |cols| - 1 {
      ValuesListCells(cols[k], i);
    } else {
      var front := cols[..|cols| - 1];
      assert front[k] == cols[k];
      AllYValuesListCells(front, k, i);
    }
  }

  /** `normalize_all_y_together_optimized` on the column values. Without any present y value
      the global bounds are NaN and the y columns, all missing, stay so. */
  function GlobalNormalized(cols: seq<seq<Num>>): (r: seq<seq<Num>>)
    ensures |r| == |cols|
  {
    var all := AllYValues(cols);
    seq(|cols|, k requires 0 <= k < |cols| =>
      if k == 0 || all == [] then cols[k] else NormalizeWith(cols[k], Min(all), Max(all)))
  }

  /** With distinct global bounds, every present y cell lands in [0, 1], 0 only at the global
      minimum and 1 only at the global maximum, and value order holds across all y columns. */
  lemma GlobalNormalizedSpread(cols: seq<seq<Num>>, k: nat, i: nat, l: nat, j: nat)
    requires 1 <= k < |cols| && 1 <= l < |cols| && i < |cols[k]| && j < |cols[l]|
    requires cols[k][i].R? && cols[l][j].R?
    requires AllYValues(cols) != [] && Min(AllYValues(cols)) < Max(AllYValues(cols))
    ensures var r := GlobalNormalized(cols); var all := AllYValues(cols);
      && r[k][i].R? && 0.0 <= r[k][i].v <= 1.0
      && (r[k][i] == R(0.0) <==> cols[k][i].v == Min(all))
      && (r[k][i] == R(1.0) <==> cols[k][i].v == Max(all))
      && (cols[k][i].v < cols[l][j].v <==> r[k][i].v < r[l][j].v)
  {
    var all := AllYValues(cols);
    MinMaxBound(all);
    AllYValuesListCells(cols, k, i);
    AllYValuesListCells(cols, l, j);
    ScaleProperties(cols[k][i].v, cols[l][j].v, Min(all), Max(all));
  }

  /** When all present y values are equal, global mode turns every one of them into NaN. */
  lemma GlobalNormalizedConstant(cols: seq<seq<Num>>, k: nat, i: nat)
    requires 1 <= k < |cols| && i < |cols[k]| && cols[k][i].R?
    requires AllYValues(cols) != [] && Min(AllYValues(cols)) == Max(AllYValues(cols))
    ensures GlobalNormalized(cols)[k][i] == NaN
  {
    var all := AllYValues(cols);
    AllYValuesListCells(cols, k, i);
    MinMaxBound(all);
  }

  /** `df[name] = values` for the existing column at `k` of a frame with distinct names. */
  method ReplaceColumn(df: Frame, k: nat, values: seq<Num>)
    requires df.Valid() && Distinct(df.names) && k < |df.names| && |values| == df.rows
    modifies df
    ensures df.Valid() && df.names == old(df.names) && df.rows == old(df.rows)
    ensures df.cols == old(df.cols)[k := values]
  {
    FindDistinct(df.names, k);
    AlignAllSameLength(df.cols, df.rows);
    AlignSameLength(values, df.rows);
    df.SetColumn(df.names[k], values);
  }

  /** `normalize_individual_columns(df)`, which overwrites the y columns of `df` in place. */
  method NormalizeIndividualColumns(df: Frame)
    requires df.Valid() && Distinct(df.names)
    modifies df
    ensures df.Valid() && df.names == old(df.names) && df.rows == old(df.rows)
    ensures df.cols == RowNormalized(old(df.cols))
  {
    ghost var cols0 := df.cols;
    var k := 1;
    while k < |df.names|
      invariant df.Valid() && df.names == old(df.names) && df.rows == old(df.rows)
      invariant 1 <= k && |df.cols| == |cols0|
      invariant forall j :: 0 <= j < |cols0| ==> df.cols[j] == if 1 <= j < k then RowNormalized(cols0)[j] else cols0[j]
    {
      ReplaceColumn(df, k, NormalizeColumn(df.cols[k]));
      k := k + 1;
    }
  }

  /** `normalize_all_y_together_optimized(df)`: one minimum and maximum over all y columns,
      then every y column overwritten in place. */
  method NormalizeAllYTogether(df: Frame)
    requires df.Valid() && Distinct(df.names)
    modifies df
    ensures df.Valid() && df.names == old(df.names) && df.rows == old(df.rows)
    ensures df.cols == GlobalNormalized(old(df.cols))
  {
    ghost var cols0 := df.cols;
    var all := AllYValues(df.cols);
    var k := 1;
    while k < |df.names|
      invariant df.Valid() && df.names == old(df.names) && df.rows == old(df.rows)
      invariant 1 <= k && |df.cols| == |cols0|
      invariant forall j :: 0 <= j < |cols0| ==> df.cols[j] == if 1 <= j < k then GlobalNormalized(cols0)[j] else cols0[j]
    {
      var normalized := if all == [] then df.cols[k] else NormalizeWith(df.cols[k], Min(all), Max(all));
      ReplaceColumn(df, k, normalized);
      k := k + 1;
    }
  }

  /** The new header: the x name kept, every other name behind `prefix`. */
  function Prefixed(names: seq<string>, prefix: string): (r: seq<string>)
    requires names != []
    ensures |r| == |names| && r[0] == names[0]
    ensures forall k :: 1 <= k < |names| ==> r[k] == prefix + names[k]
  {
    [names[0]] + seq(|names| - 1, k requires 0 <= k < |names| - 1 => prefix + names[k + 1])
  }

  /** The file name recorded in the parameter sheet. */
  function FileName(path: string): string {
    FileStem(path, ".xlsx")
  }

  /** As written: `file_path.replace(file_name, prefix + file_name)`, which rewrites every
      occurrence of the file name, in the directory part too. */
  function SavePathAsWritten(path: string, prefix: string): string {
    Replace(path, FileName(path), prefix + FileName(path))
  }

  /** The intended save path: the prefix in front of the last path component only. */
  function SavePath(path: string, prefix: string): string {
    var base := AfterLast(path, "\\");
    path[..|path| - |base|] + prefix + base
  }

  /** For `dir + name + '.xlsx'`, the save path is `dir + prefix + name + '.xlsx'`: the
      directory is kept whatever it contains. */
  lemma SavePathOfPath(dir: string, name: string, prefix: string)
    requires dir == [] || dir[|dir| - 1] == '\\'
    requires !Contains(name + ".xlsx", "\\")
    ensures SavePath(dir + name + ".xlsx", prefix) == dir + prefix + name + ".xlsx"
  {
    var file := name + ".xlsx";
    var path := dir + file;
    assert dir + name + ".xlsx" == path;
    if dir == [] {
      assert path == file;
      SplitNoMatch(file, "\\");
    } else {
      var d := dir[..|dir| - 1];
      assert path == d + ['\\'] + file;
      SplitLastAfterSep(d, file, '\\');
    }
    assert AfterLast(path, "\\") == file;
  }

  /** `excel_normalize`: both normalisations start from their own copy of the sheet, so the
      sheet itself is left alone and neither mode sees the other's output. A sheet without
      columns fails on `df.columns[0]`. */
  method ExcelNormalizeSheet(path: string, sheet: string, df: Frame, rowSelect: bool, globalSelect: bool)
    returns (r: Result<seq<Workbook>>)
    requires df.Valid() && Distinct(df.names)
    ensures df.names == [] ==> r == Err(IndexError)
    ensures df.names != [] ==> (r.Ok? && r.value ==
      (if rowSelect then [Workbook(SavePath(path, "RowNormalized_"), sheet, Prefixed(df.names, "row_normalized_"),
                                   RowNormalized(df.cols), FileName(path))] else [])
      + (if globalSelect then [Workbook(SavePath(path, "GlobalNormalized_"), sheet, Prefixed(df.names, "global_normalized_"),
                                        GlobalNormalized(df.cols), FileName(path))] else []))
  {
    if |df.names| == 0 {
      return Err(IndexError);
    }
    var fileName := FileName(path);
    var individual := IndividualCopy(df);
    var global := GlobalCopy(df);
    var out: seq<Workbook> := [];
    if rowSelect {
      out := out + [Workbook(SavePath(path, "RowNormalized_"), sheet, Prefixed(df.names, "row_normalized_"),
                             individual, fileName)];
    }
    if globalSelect {
      out := out + [Workbook(SavePath(path, "GlobalNormalized_"), sheet, Prefixed(df.names, "global_normalized_"),
                             global, fileName)];
    }
    return Ok(out);
  }

  /** `normalize_individual_columns(df.copy())`: the copy is normalised, `df` is not touched. */
  method IndividualCopy(df: Frame) returns (cols: seq<seq<Num>>)
    requires df.Valid() && Distinct(df.names)
    ensures cols == RowNormalized(df.cols)
  {
    var copy := new Frame(df.names, df.cols, df.rows);
    NormalizeIndividualColumns(copy);
    cols := copy.cols;
  }

  /** `normalize_all_y_together_optimized(df.copy())`. */
  method GlobalCopy(df: Frame) returns (cols: seq<seq<Num>>)
    requires df.Valid() && Distinct(df.names)
    ensures cols == GlobalNormalized(df.cols)
  {
    var copy := new Frame(df.names, df.cols, df.rows);
    NormalizeAllYTogether(copy);
    cols := copy.cols;
  }

  /** For the workbook `a\a.xlsx` the file name `a` also names its directory, and `replace`
      prefixes both: the copy is written into a directory `{prefix}a` instead of beside the
      input, where `SavePath` puts it (`SavePathOfPath`). */
  lemma SavePathAsWrittenRewritesDirectory(prefix: string)
    ensures SavePathAsWritten("a\\a.xlsx", prefix) == prefix + "a\\" + prefix + "a.xlsx"
  {
    ExampleFileName();
    ExampleReplace(prefix);
  }

  /** A differing character rules out an occurrence. */
  lemma MismatchAt(s: string, sub: string, j: nat, d: nat)
    requires d < |sub| && j + d < |s| && s[j + d] != sub[d]
    ensures !OccursAt(s, sub, j)
  {
    if j + |sub| <= |s| {
      assert s[j..j + |sub|][d] == s[j + d];
    }
  }

  /** A string without the character `c` does not contain `[c]`. */
  lemma LacksChar(s: string, c: char)
    requires forall k :: 0 <= k < |s| ==> s[k] != c
    ensures !Contains(s, [c])
  {
    forall j: nat ensures !OccursAt(s, [c], j) {
      if j < |s| {
        MismatchAt(s, [c], j, 0);
      }
    }
  }

  /** Replacing a one-character pattern handles the first character on its own. */
  lemma ReplaceFirstChar(c: char, t: string, pat: string, repl: string)
    requires |pat| == 1
    ensures ReplaceAll([c] + t, pat, repl) == (if [c] == pat then repl else [c]) + ReplaceAll(t, pat, repl)
  {
    var s := [c] + t;
    assert s[..1] == [c] && s[1..] == t && s[0] == c;
  }

  lemma ExampleFileName()
    ensures FileName("a\\a.xlsx") == "a"
  {
    var path := "a\\a.xlsx";
    var ext := ".xlsx";
    MismatchAt(path, ext, 0, 0);
    MismatchAt(path, ext, 1, 0);
    MismatchAt(path, ext, 2, 0);
    assert path[3..8] == ext;
    assert IndexFrom(path, ext, 3) == Some(3);
    assert IndexFrom(path, ext, 1) == IndexFrom(path, ext, 2) == IndexFrom(path, ext, 3);
    assert IndexOf(path, ext) == Some(3);
    assert "a\\" + "a" + ext == path;
    LacksChar("a", '\\');
    FileStemOfPath("a\\", "a", ext);
  }

  lemma ExampleReplace(prefix: string)
    ensures ReplaceAll("a\\a.xlsx", "a", prefix + "a") == prefix + "a\\" + prefix + "a.xlsx"
  {
    var repl := prefix + "a";
    var rest := ".xlsx";
    LacksChar(rest, 'a');
    ReplaceNoMatch(rest, "a", repl);
    var s2 := ['a'] + rest;
    ReplaceFirstChar('a', rest, "a", repl);
    var s1 := ['\\'] + s2;
    ReplaceFirstChar('\\', s2, "a", repl);
    var s0 := ['a'] + s1;
    ReplaceFirstChar('a', s1, "a", repl);
    assert s0 == "a\\a.xlsx";
    assert repl + (['\\'] + (repl + rest)) == prefix + "a\\" + prefix + "a.xlsx";
  }
}
