/** The LANHE (LAND) battery-tester converter: a CSV export with a time column, a current
    column whose name carries its unit, and a voltage column becomes a galvanostatic
    charge/discharge sheet of time, current in amperes and potential. */
module Lanhe {
  import opened Base
  import opened Text
  import opened Masks
  import opened Frames
  import opened Naming

  const CurrentMark: string := "电流"
  const TimeName: string := "测试时间/Sec"
  const VoltName: string := "电压/V"
  const AmpName: string := "Current[A]"

  /** `df.columns[df.columns.str.contains('电流')][0]`: the first column whose name holds the
      mark, `None` where the selection is empty. */
  function CurrentColumn(names: seq<string>): (r: Option<nat>)
    ensures r.Some? ==> r.value < |names| && Contains(names[r.value], CurrentMark)
    ensures r.Some? ==> forall j :: 0 <= j < r.value ==> !Contains(names[j], CurrentMark)
    ensures r.None? ==> forall j :: 0 <= j < |names| ==> !Contains(names[j], CurrentMark)
  {
    if names == [] then None
    else if Contains(names[0], CurrentMark) then Some(0)
    else match CurrentColumn(names[1..])
      case None => None
      case Some(k) => Some(k + 1)
  }

  /** The unit a current column's name announces. */
  datatype Unit = Micro | Milli | Whole

  /** The tests in the order they are made: 'uA', then 'mA', then 'A'. */
  function UnitOf(name: string): (u: Option<Unit>)
    ensures u == Some(Micro) <==> Contains(name, "uA")
    ensures u == Some(Milli) <==> !Contains(name, "uA") && Contains(name, "mA")
    ensures u == Some(Whole) <==> !Contains(name, "uA") && !Contains(name, "mA") && Contains(name, "A")
  {
    if Contains(name, "uA") then Some(Micro)
    else if Contains(name, "mA") then Some(Milli)
    else if Contains(name, "A") then Some(Whole)
    else None
  }

  /** 'uA' and 'mA' both hold an 'A', so the name announces no unit exactly when it has no
      'A' at all. */
  lemma NoUnitWithoutA(name: string)
    ensures UnitOf(name).None? <==> !Contains(name, "A")
  {
    if Contains(name, "uA") {
      var i := IndexOf(name, "uA").value;
      assert name[i + 1] == 'A';
      assert OccursAt(name, "A", i + 1);
      ContainsAt(name, "A", i + 1);
    } else if Contains(name, "mA") {
      var i := IndexOf(name, "mA").value;
      assert name[i + 1] == 'A';
      assert OccursAt(name, "A", i + 1);
      ContainsAt(name, "A", i + 1);
    }
  }

  /** What a reading in the unit is divided by to give amperes. */
  function Divisor(u: Unit): (d: real)
    ensures d > 0.0
  {
    match u
    case Micro => 1000000.0
    case Milli => 1000.0
    case Whole => 1.0
  }

  /** `dropna()` on the three columns: the rows where none is NaN. */
  function Complete(t: seq<Num>, c: seq<Num>, v: seq<Num>): (m: seq<bool>)
    requires |t| == |c| == |v|
    ensures |m| == |t| && forall i :: 0 <= i < |t| ==> (m[i] <==> !t[i].NaN? && !c[i].NaN? && !v[i].NaN?)
  {
    seq(|t|, i requires 0 <= i < |t| => !t[i].NaN? && !c[i].NaN? && !v[i].NaN?)
  }

  const SheetNames: seq<string> := ["Time[s]", AmpName, "Potential[V]"]

  /** The three columns taken by name, in the order the dictionary is written, and the rows
      without a missing value. */
  function Assemble(names: seq<string>, cols: seq<seq<Num>>, n: nat): (r: Result<seq<seq<Num>>>)
    requires |names| == |cols| && forall k :: 0 <= k < |cols| ==> |cols[k]| == n
    ensures r.Err? <==> TimeName !in names || AmpName !in names || VoltName !in names
    ensures r.Err? ==> r.error == KeyError(if TimeName !in names then TimeName else if AmpName !in names then AmpName else VoltName)
    ensures r.Ok? ==> |r.value| == 3
  {
    match (Find(names, TimeName), Find(names, AmpName), Find(names, VoltName))
    case (None, _, _) => Err(KeyError(TimeName))
    case (_, None, _) => Err(KeyError(AmpName))
    case (_, _, None) => Err(KeyError(VoltName))
    case (Some(t), Some(c), Some(v)) =>
      var keep := Complete(cols[t], cols[c], cols[v]);
      Ok(KeepRows([cols[t], cols[c], cols[v]], keep))
  }

  /** The sheet's rows are exactly the rows of the three source columns where none is
      missing, in order. */
  lemma AssembleRows(names: seq<string>, cols: seq<seq<Num>>, n: nat)
    requires |names| == |cols| && forall k :: 0 <= k < |cols| ==> |cols[k]| == n
    requires Assemble(names, cols, n).Ok?
    ensures var t, c, v := cols[Find(names, TimeName).value], cols[Find(names, AmpName).value], cols[Find(names, VoltName).value];
      Assemble(names, cols, n).value == [Select(t, Complete(t, c, v)), Select(c, Complete(t, c, v)), Select(v, Complete(t, c, v))]
    ensures forall k, q :: 0 <= k < 3 && 0 <= q < |Assemble(names, cols, n).value[k]| ==> !Assemble(names, cols, n).value[k][q].NaN?
  {
    var t, c, v := cols[Find(names, TimeName).value], cols[Find(names, AmpName).value], cols[Find(names, VoltName).value];
    var m := Complete(t, c, v);
    var out: seq<seq<Num>> := Assemble(names, cols, n).value;
    assert out == [Select(t, m), Select(c, m), Select(v, m)];
    forall k: int, q: int | 0 <= k < 3 && 0 <= q < |out[k]| ensures !out[k][q].NaN? {
      var src: seq<Num> := if k == 0 then t else if k == 1 then c else v;
      assert out[k] == Select(src, m);
      var i := SelectedFrom(src, m, q);
    }
  }

  /** `LANDHE_csv2excel` on the frame `read_csv` gives (distinct `names` over `n` rows). */
  function Convert(path: string, names: seq<string>, cols: seq<seq<Num>>, n: nat): (r: Result<Workbook>)
    requires |names| == |cols| && forall k :: 0 <= k < |cols| ==> |cols[k]| == n
    ensures r.Ok? ==> r.value.sheet == "GCD" && r.value.names == SheetNames
    ensures r.Ok? ==> r.value.path == OutputPath(path, ".csv", "GCD_") && r.value.fileName == FileStem(path, ".csv")
    ensures CurrentColumn(names).None? ==> r == Err(IndexError)
  {
    match CurrentColumn(names)
    case None => Err(IndexError)
    case Some(k) =>
      var (names', cols') :=
        match UnitOf(names[k])
        case None => (names, cols)
        case Some(u) => Converted(names, cols, n, DivideBy(cols[k], Divisor(u)));
      match Assemble(names', cols', n)
      case Err(e) => Err(e)
      case Ok(out) => Ok(Workbook(OutputPath(path, ".csv", "GCD_"), "GCD", SheetNames, out, FileStem(path, ".csv")))
  }

  /** `df['Current[A]'] = values`: replaced where such a column exists, appended otherwise. */
  function Converted(names: seq<string>, cols: seq<seq<Num>>, n: nat, values: seq<Num>): (r: (seq<string>, seq<seq<Num>>))
    requires |names| == |cols| && forall k :: 0 <= k < |cols| ==> |cols[k]| == n
    requires |values| == n
    ensures |r.0| == |r.1| && forall k :: 0 <= k < |r.1| ==> |r.1[k]| == n
    ensures Find(r.0, AmpName).Some? && r.1[Find(r.0, AmpName).value] == values
    ensures r.0 == names || r.0 == names + [AmpName]
    ensures forall k :: 0 <= k < |names| && names[k] != AmpName ==> r.1[k] == cols[k]
  {
    match Find(names, AmpName)
    case Some(p) => (names, cols[p := values])
    case None =>
      FindAppended(names, AmpName);
      (names + [AmpName], cols + [values])
  }

  lemma FindAppended(names: seq<string>, name: string)
    requires name !in names
    ensures Find(names + [name], name) == Some(|names|)
  {
    var r := Find(names + [name], name);
    assert (names + [name])[|names|] == name;
    assert r.Some?;
  }

  /** Without a unit in the current column's name no ampere column is made, so a file with a
      time column and no ampere column of its own fails on the lookup of 'Current[A]'. */
  lemma NoUnitNoAmperes(path: string, names: seq<string>, cols: seq<seq<Num>>, n: nat)
    requires |names| == |cols| && forall k :: 0 <= k < |cols| ==> |cols[k]| == n
    requires CurrentColumn(names).Some? && UnitOf(names[CurrentColumn(names).value]).None?
    requires TimeName in names && AmpName !in names
    ensures Convert(path, names, cols, n) == Err(KeyError(AmpName))
  {
  }

  /** With a unit, the sheet's current is the current column over the unit's divisor, on the
      rows where time, current and potential are all present. */
  lemma ConvertedCurrent(path: string, names: seq<string>, cols: seq<seq<Num>>, n: nat)
    requires |names| == |cols| && forall k :: 0 <= k < |cols| ==> |cols[k]| == n
    requires Convert(path, names, cols, n).Ok?
    requires UnitOf(names[CurrentColumn(names).value]).Some?
    requires Find(names, TimeName).Some? && Find(names, VoltName).Some?
    ensures var c := DivideBy(cols[CurrentColumn(names).value], Divisor(UnitOf(names[CurrentColumn(names).value]).value));
      var t, v := cols[Find(names, TimeName).value], cols[Find(names, VoltName).value];
      Convert(path, names, cols, n).value.cols == [Select(t, Complete(t, c, v)), Select(c, Complete(t, c, v)), Select(v, Complete(t, c, v))]
  {
    var k := CurrentColumn(names).value;
    var u := UnitOf(names[k]).value;
    var c := DivideBy(cols[k], Divisor(u));
    var conv := Converted(names, cols, n, c);
    var ti, vi := Find(names, TimeName).value, Find(names, VoltName).value;
    FindPrefix(names, conv.0, TimeName);
    FindPrefix(names, conv.0, VoltName);
    AssembleRows(conv.0, conv.1, n);
  }

  /** Appending the ampere column leaves every other column where it was found. */
  lemma FindPrefix(names: seq<string>, names': seq<string>, name: string)
    requires names' == names || names' == names + [AmpName]
    requires name != AmpName
    ensures Find(names', name) == Find(names, name)
  {
    if names' != names {
      var j := Find(names', name);
      if j.Some? {
        assert names'[j.value] == names[j.value];
        assert names'[..j.value] == names[..j.value];
      } else {
        assert forall q :: 0 <= q < |names| ==> names[q] == names'[q];
      }
    }
  }

  /** `LANDHE_csv2excel` on the frame: the converted current is assigned in place, then the
      new frame is built from three columns and its incomplete rows dropped. */
  method LandheCsv2Excel(path: string, names: seq<string>, cols: seq<seq<Num>>, n: nat) returns (r: Result<Workbook>)
    requires |names| == |cols| && forall k :: 0 <= k < |cols| ==> |cols[k]| == n
    ensures r == Convert(path, names, cols, n)
  {
    var df := new Frame(names, cols, n);
    var cc := CurrentColumn(df.names);
    if cc.None? {
      return Err(IndexError);
    }
    var k := cc.value;
    match UnitOf(df.names[k]) {
      case None =>
      case Some(u) =>
        var values := DivideBy(df.cols[k], Divisor(u));
        df.SetColumn(AmpName, values);
        AlignAllSameLength(cols, n);
        AlignSameLength(values, n);
        assert (df.names, df.cols) == Converted(names, cols, n, values);
    }
    var out := Assemble(df.names, df.cols, df.rows);
    if out.Err? {
      return Err(out.error);
    }
    r := Ok(Workbook(OutputPath(path, ".csv", "GCD_"), "GCD", SheetNames, out.value, FileStem(path, ".csv")));
  }
}
