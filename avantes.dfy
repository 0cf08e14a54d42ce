/** The Avantes spectrometer converter: a workbook exported by AvaSoft holds the wavelength,
    the dark (background) spectrum, the reference spectrum and then the measured spectra, one
    column each, under five rows of preamble. The converter drops the preamble, names the
    first three columns, strips '.Raw8'/'.RAW8' from the others, optionally renames the
    measured columns as a series, and turns the spectra into transmittance, absorbance or
    background-corrected fluorescence. */
module Avantes {
  import opened Base
  import opened Text
  import opened Frames
  import opened Naming

  /** Every column of a frame has `n` cells. */
  predicate Shaped(cols: seq<seq<Num>>, n: nat) {
    forall k :: 0 <= k < |cols| ==> |cols[k]| == n
  }

  function Negate(a: Num): Num {
    match a
    case R(x) => R(-x)
    case NaN => NaN
    case PosInf => NegInf
    case NegInf => PosInf
  }

  /** NumPy `a - b` on float64 cells. */
  function Minus(a: Num, b: Num): (r: Num)
    ensures a.R? && b.R? ==> r == R(a.v - b.v)
    ensures a.NaN? || b.NaN? ==> r.NaN?
  {
    match (a, b)
    case (NaN, _) => NaN
    case (_, NaN) => NaN
    case (R(x), R(y)) => R(x - y)
    case (R(_), _) => Negate(b)
    case (_, R(_)) => a
    case (_, _) => if a == b then NaN else a
  }

  /** NumPy `a / b` on float64 cells; the sign of a zero divisor is not modelled, it counts as
      positive. */
  function Over(a: Num, b: Num): (r: Num)
    ensures a.R? && b.R? ==> r == NumDiv(a.v, b.v)
    ensures a.NaN? || b.NaN? ==> r.NaN?
  {
    match (a, b)
    case (NaN, _) => NaN
    case (_, NaN) => NaN
    case (R(x), R(y)) => NumDiv(x, y)
    case (R(_), _) => R(0.0)
    case (_, R(y)) => if y < 0.0 then Negate(a) else a
    case (_, _) => NaN
  }

  /** `col.sub(other, axis=0)`: row by row. */
  function Sub(col: seq<Num>, other: seq<Num>): (r: seq<Num>)
    requires |col| == |other|
    ensures |r| == |col| && forall i :: 0 <= i < |col| ==> r[i] == Minus(col[i], other[i])
  {
    seq(|col|, i requires 0 <= i < |col| => Minus(col[i], other[i]))
  }

  /** `col.div(other, axis=0)`: row by row. */
  function Div(col: seq<Num>, other: seq<Num>): (r: seq<Num>)
    requires |col| == |other|
    ensures |r| == |col| && forall i :: 0 <= i < |col| ==> r[i] == Over(col[i], other[i])
  {
    seq(|col|, i requires 0 <= i < |col| => Over(col[i], other[i]))
  }

  /** `transmittance_calculation`: the wavelength column, then every measured column `c >= 3`
      with the dark column subtracted and divided by the reference minus the dark. A frame with
      fewer than three columns has no reference column to read. */
  function Transmittance(names: seq<string>, cols: seq<seq<Num>>, n: nat): (r: Result<(seq<string>, seq<seq<Num>>)>)
    requires |names| == |cols| && Shaped(cols, n)
    ensures r.Err? <==> |cols| < 3
    ensures r.Err? ==> r.error == IndexError
    ensures r.Ok? ==> r.value.0 == [names[0]] + names[3..]
    ensures r.Ok? ==> |r.value.1| == |cols| - 2 && r.value.1[0] == cols[0] && Shaped(r.value.1, n)
    ensures r.Ok? ==> forall j, i :: 1 <= j < |cols| - 2 && 0 <= i < n ==>
      r.value.1[j][i] == Over(Minus(cols[j + 2][i], cols[1][i]), Minus(cols[2][i], cols[1][i]))
  {
    if |cols| < 3 then Err(IndexError)
    else
      var reference := Sub(cols[2], cols[1]);
      Ok(([names[0]] + names[3..],
          [cols[0]] + seq(|cols| - 3, j requires 0 <= j < |cols| - 3 => Div(Sub(cols[j + 3], cols[1]), reference))))
  }

  /** Where the dark, reference and sample readings are numbers and the reference differs from
      the dark, the transmittance is the fraction of the reference signal the sample
      reaches: multiplying back and adding the dark gives the sample reading. Where the
      reference equals the dark, there is no number. */
  lemma TransmittanceInverts(names: seq<string>, cols: seq<seq<Num>>, n: nat, j: nat, i: nat)
    requires |names| == |cols| && Shaped(cols, n) && 3 <= |cols|
    requires 1 <= j < |cols| - 2 && i < n
    requires cols[1][i].R? && cols[2][i].R? && cols[j + 2][i].R?
    ensures var t := Transmittance(names, cols, n).value.1[j][i];
      var dark, ref, s := cols[1][i].v, cols[2][i].v, cols[j + 2][i].v;
      (t.R? <==> ref != dark) && (t.R? ==> t.v * (ref - dark) + dark == s)
  {
    var dark, ref, s := cols[1][i].v, cols[2][i].v, cols[j + 2][i].v;
    var t := Transmittance(names, cols, n).value.1[j][i];
    assert t == NumDiv(s - dark, ref - dark);
    if ref != dark {
      assert t.v * (ref - dark) == s - dark;
    }
  }

  /** `fluorescence_calculation`: the wavelength column, then every column `c >= 2` with the
      dark column subtracted. */
  function Fluorescence(names: seq<string>, cols: seq<seq<Num>>, n: nat): (r: Result<(seq<string>, seq<seq<Num>>)>)
    requires |names| == |cols| && Shaped(cols, n)
    ensures r.Err? <==> |cols| < 2
    ensures r.Err? ==> r.error == IndexError
    ensures r.Ok? ==> r.value.0 == [names[0]] + names[2..]
    ensures r.Ok? ==> |r.value.1| == |cols| - 1 && r.value.1[0] == cols[0] && Shaped(r.value.1, n)
    ensures r.Ok? ==> forall j, i :: 1 <= j < |cols| - 1 && 0 <= i < n ==> r.value.1[j][i] == Minus(cols[j + 1][i], cols[1][i])
  {
    if |cols| < 2 then Err(IndexError)
    else Ok(([names[0]] + names[2..], [cols[0]] + seq(|cols| - 2, j requires 0 <= j < |cols| - 2 => Sub(cols[j + 2], cols[1]))))
  }

  /** Adding the dark reading back to a fluorescence value gives the measured one. */
  lemma FluorescenceInverts(names: seq<string>, cols: seq<seq<Num>>, n: nat, j: nat, i: nat)
    requires |names| == |cols| && Shaped(cols, n) && 2 <= |cols|
    requires 1 <= j < |cols| - 1 && i < n
    requires cols[1][i].R? && cols[j + 1][i].R?
    ensures Fluorescence(names, cols, n).value.1[j][i].R?
    ensures Fluorescence(names, cols, n).value.1[j][i].v + cols[1][i].v == cols[j + 1][i].v
  {
  }

  /** The value that replaces a non-positive transmittance: `1e-10`. */
  const Tiny: real := 0.0000000001

  /** `x if x > 0 else 1e-10`: every result is positive, so the logarithm is defined; NaN fails
      the comparison and is replaced too. */
  function Clamp(x: Num): (r: Num)
    ensures (r.R? && r.v > 0.0) || r == PosInf
    ensures (x.R? && x.v > 0.0) || x == PosInf ==> r == x
    ensures (x.R? && x.v <= 0.0) || x == NaN || x == NegInf ==> r == R(Tiny)
  {
    match x
    case R(v) => if v > 0.0 then x else R(Tiny)
    case PosInf => x
    case _ => R(Tiny)
  }

  /** `-np.log10(...)` of a clamped transmittance, with the logarithm taken from the caller. */
  function AbsorbanceCell(t: Num, log10: real -> real): (a: Num)
    ensures a.R? || a == NegInf
  {
    match Clamp(t)
    case R(v) => R(-log10(v))
    case _ => NegInf
  }

  /** `absorbance_calculation`: the transmittance, with every column after the wavelength
      turned into absorbance. */
  function Absorbance(names: seq<string>, cols: seq<seq<Num>>, n: nat, log10: real -> real): (r: Result<(seq<string>, seq<seq<Num>>)>)
    requires |names| == |cols| && Shaped(cols, n)
    ensures r.Err? <==> |cols| < 3
    ensures r.Err? ==> r.error == IndexError
    ensures r.Ok? ==> r.value.0 == Transmittance(names, cols, n).value.0
    ensures r.Ok? ==> |r.value.1| == |cols| - 2 && r.value.1[0] == cols[0] && Shaped(r.value.1, n)
    ensures r.Ok? ==> forall j, i :: 1 <= j < |cols| - 2 && 0 <= i < n ==>
      r.value.1[j][i] == AbsorbanceCell(Transmittance(names, cols, n).value.1[j][i], log10)
  {
    match Transmittance(names, cols, n)
    case Err(e) => Err(e)
    case Ok((tn, t)) =>
      Ok((tn, [t[0]] + seq(|t| - 1, j requires 0 <= j < |t| - 1 =>
        seq(n, i requires 0 <= i < n => AbsorbanceCell(t[j + 1][i], log10)))))
  }

  /** A transmittance that is a positive number gives `-log10(T)`; any other reading but
      `inf` gives the absorbance of `1e-10`. */
  lemma AbsorbanceOfTransmittance(t: Num, log10: real -> real)
    ensures t.R? && t.v > 0.0 ==> AbsorbanceCell(t, log10) == R(-log10(t.v))
    ensures (t.R? && t.v <= 0.0) || t == NaN || t == NegInf ==> AbsorbanceCell(t, log10) == R(-log10(Tiny))
  {
  }

  /** The spectrum the user selects, by its label; any other label leaves the frame as it is. */
  function Spectra(spectrum: string, names: seq<string>, cols: seq<seq<Num>>, n: nat, log10: real -> real): (r: Result<(seq<string>, seq<seq<Num>>)>)
    requires |names| == |cols| && Shaped(cols, n)
    ensures |cols| >= 3 ==> r.Ok?
  {
    if spectrum == "Transmittance" then Transmittance(names, cols, n)
    else if spectrum == "Absorbance" then Absorbance(names, cols, n, log10)
    else if spectrum == "Fluorescence" then Fluorescence(names, cols, n)
    else Ok((names, cols))
  }

  /** The selection offered as 'fluorescence' does not match the capitalised label it is compared
      with, so that choice writes the frame untransformed. */
  lemma LowercaseFluorescenceUntouched(names: seq<string>, cols: seq<seq<Num>>, n: nat, log10: real -> real)
    requires |names| == |cols| && Shaped(cols, n)
    ensures Spectra("fluorescence", names, cols, n, log10) == Ok((names, cols))
  {
    assert "fluorescence"[0] != "Fluorescence"[0];
  }

  /** `scan(\d+\.?\d*)s` matches at `p`: "scan", the whole digits in `[p + 4, b)`, and either
      the 's' at `b` or a point at `b`, the fraction digits up to `e` and the 's' at `e`. The
      group is `s[p + 4..e]`. */
  predicate ScanMatch(s: string, p: nat, b: nat, e: nat) {
    OccursAt(s, "scan", p) && p + 4 < b && DigitsIn(s, p + 4, b) && b <= e < |s| && s[e] == 's'
    && (e == b || (s[b] == '.' && DigitsIn(s, b + 1, e)))
  }

  /** The match at `p`, if any: there is at most one, since the digit runs are maximal. */
  function ScanAt(s: string, p: nat): (r: Option<(nat, nat)>)
    ensures r.Some? ==> ScanMatch(s, p, r.value.0, r.value.1)
    ensures r.None? ==> forall b: nat, e: nat :: !ScanMatch(s, p, b, e)
  {
    if !OccursAt(s, "scan", p) then None
    else
      var b := DigitEnd(s, p + 4);
      if b == p + 4 || b >= |s| then None
      else if s[b] == 's' then Some((b, b))
      else if s[b] == '.' then
        var e := DigitEnd(s, b + 1);
        if e < |s| && s[e] == 's' then Some((b, e)) else None
      else None
  }

  /** `re.search`: the leftmost match at or after `p`. */
  function FirstScan(s: string, p: nat): (r: Option<(nat, nat, nat)>)
    decreases |s| - p
    ensures r.Some? ==> p <= r.value.0 && ScanMatch(s, r.value.0, r.value.1, r.value.2)
    ensures r.Some? ==> forall q: nat, b: nat, e: nat :: p <= q < r.value.0 ==> !ScanMatch(s, q, b, e)
    ensures r.None? ==> forall q: nat, b: nat, e: nat :: p <= q ==> !ScanMatch(s, q, b, e)
  {
    if p >= |s| then None
    else
      match ScanAt(s, p)
      case Some((b, e)) => Some((p, b, e))
      case None => FirstScan(s, p + 1)
  }

  function Pow10(k: nat): (r: real)
    ensures r >= 1.0
  {
    if k == 0 then 1.0 else 10.0 * Pow10(k - 1)
  }

  /** The value of the digits in `[lo, hi)`. */
  function DigitsAt(s: string, lo: nat, hi: nat): nat
    requires DigitsIn(s, lo, hi)
  {
    assert forall c :: c in s[lo..hi] ==> IsDigit(c);
    DigitsValue(s[lo..hi])
  }

  /** `float(match.group(1))`: the whole digits plus the fraction digits over their scale. */
  function GroupValue(s: string, p: nat, b: nat, e: nat): (x: real)
    requires ScanMatch(s, p, b, e)
    ensures x >= 0.0
  {
    DigitsAt(s, p + 4, b) as real + (if e == b then 0.0 else DigitsAt(s, b + 1, e) as real / Pow10(e - b - 1))
  }

  /** `extract_time_interval`: the number between "scan" and "s" in the file name. */
  function TimeInterval(name: string): Option<real> {
    match FirstScan(name, 0)
    case None => None
    case Some((p, b, e)) => Some(GroupValue(name, p, b, e))
  }

  /** At one position the match is unique: both digit runs are maximal. */
  lemma ScanMatchUnique(s: string, p: nat, b: nat, e: nat, b': nat, e': nat)
    requires ScanMatch(s, p, b, e) && ScanMatch(s, p, b', e')
    ensures b == b' && e == e'
  {
  }

  /** A name that matches at its start yields the number of that match. */
  lemma TimeIntervalAtStart(s: string, b: nat, e: nat)
    requires ScanMatch(s, 0, b, e)
    ensures TimeInterval(s) == Some(GroupValue(s, 0, b, e))
  {
    var r := ScanAt(s, 0).value;
    ScanMatchUnique(s, 0, b, e, r.0, r.1);
    assert FirstScan(s, 0) == Some((0, b, e));
  }

  /** A name that starts with "scan", a whole number's digits and "s" yields that number. */
  lemma {:induction false} TimeIntervalOfWhole(k: nat, rest: string)
    ensures TimeInterval("scan" + NatToString(k) + "s" + rest) == Some(k as real)
  {
    var d := NatToString(k);
    var s := "scan" + d + "s" + rest;
    var b := 4 + |d|;
    assert s[..4] == "scan";
    assert forall j :: 4 <= j < b ==> s[j] == d[j - 4] && d[j - 4] in d;
    assert s[b] == 's';
    assert ScanMatch(s, 0, b, b);
    TimeIntervalAtStart(s, b, b);
    assert s[4..b] == d;
    NatToStringRoundTrip(k);
    assert GroupValue(s, 0, b, b) == DigitsValue(d) as real;
  }

  /** The user's series naming: first value, interval and unit. */
  datatype SeriesLabels = SeriesLabels(start: real, step: real, unit: string)

  /** The interval the names step by: the file name's when it has a non-zero one (0.0 is
      false in Python), the user's otherwise. */
  function Step(base: string, labels: SeriesLabels): (step: real)
    ensures TimeInterval(base).Some? && TimeInterval(base).value != 0.0 ==> step == TimeInterval(base).value
    ensures TimeInterval(base).None? || TimeInterval(base).value == 0.0 ==> step == labels.step
  {
    match TimeInterval(base)
    case Some(t) => if t != 0.0 then t else labels.step
    case None => labels.step
  }

  /** `f'{start + i * step}{unit}'`, with Python's float formatting taken from the caller. */
  function SeriesName(start: real, step: real, unit: string, fmt: real -> string, i: nat): string {
    fmt(start + i as real * step) + unit
  }

  /** `[f'{start + i * step}{unit}' for i in range(count)]`. */
  function SeriesNames(count: nat, start: real, step: real, unit: string, fmt: real -> string): (r: seq<string>)
    ensures |r| == count && forall i :: 0 <= i < count ==> r[i] == SeriesName(start, step, unit, fmt, i)
  {
    seq(count, i requires 0 <= i < count => SeriesName(start, step, unit, fmt, i))
  }

  /** `name.replace('.Raw8', '').replace('.RAW8', '')`. */
  function Unraw(name: string): string {
    ReplaceAll(ReplaceAll(name, ".Raw8", ""), ".RAW8", "")
  }

  /** A name without a point is left alone. */
  lemma {:induction false} UnrawPointless(pat: string, name: string)
    requires pat != [] && pat[0] == '.' && '.' !in name
    ensures ReplaceAll(name, pat, "") == name
    decreases |name|
  {
    if |name| >= |pat| {
      assert name[0] != pat[0];
      assert '.' !in name[1..];
      UnrawPointless(pat, name[1..]);
      assert [name[0]] + name[1..] == name;
    }
  }

  /** An AvaSoft column name `stem + '.Raw8'` loses the suffix, when the stem has neither
      suffix in it. */
  lemma UnrawOfExport(stem: string)
    requires IndexOf(stem + ".Raw8", ".Raw8") == Some(|stem|) && !Contains(stem, ".RAW8")
    ensures Unraw(stem + ".Raw8") == stem
  {
    ReplaceAtEnd(stem, ".Raw8", "");
    assert stem + "" == stem;
    ReplaceNoMatch(stem, ".RAW8", "");
  }

  const FixedNames: seq<string> := ["Wavelength[nm]", "dark", "reference"]

  /** The three fixed names survive the stripping. */
  lemma FixedNamesUnraw()
    ensures forall k :: 0 <= k < 3 ==> Unraw(FixedNames[k]) == FixedNames[k]
  {
    forall k | 0 <= k < 3 ensures Unraw(FixedNames[k]) == FixedNames[k] {
      var f := FixedNames[k];
      assert '.' !in f;
      UnrawPointless(".Raw8", f);
      UnrawPointless(".RAW8", f);
    }
  }

  /** `df.columns = df.columns.str.replace(...)` twice: every name stripped. */
  function UnrawAll(names: seq<string>): (r: seq<string>)
    ensures |r| == |names| && forall k :: 0 <= k < |names| ==> r[k] == Unraw(names[k])
  {
    seq(|names|, k requires 0 <= k < |names| => Unraw(names[k]))
  }

  /** The header `excel2excel` gives a frame of at least three columns. */
  function Headers(names: seq<string>, base: string, labels: Option<SeriesLabels>, fmt: real -> string): (r: seq<string>)
    requires |names| >= 3
    ensures |r| == |names|
  {
    match labels
    case None => FixedNames + UnrawAll(names[3..])
    case Some(l) => FixedNames + SeriesNames(|names| - 3, l.start, Step(base, l), l.unit, fmt)
  }

  /** Names that stripping leaves alone stay in front of the stripped rest. */
  lemma UnrawAllAfter(fixed: seq<string>, rest: seq<string>)
    requires forall k :: 0 <= k < |fixed| ==> Unraw(fixed[k]) == fixed[k]
    ensures UnrawAll(fixed + rest)[..|fixed|] == fixed
    ensures forall k :: 0 <= k < |rest| ==> UnrawAll(fixed + rest)[|fixed| + k] == Unraw(rest[k])
  {
    var u := UnrawAll(fixed + rest);
    assert forall k :: 0 <= k < |rest| ==> (fixed + rest)[|fixed| + k] == rest[k];
    assert forall k :: 0 <= k < |fixed| ==> (fixed + rest)[k] == fixed[k];
  }

  /** The first three names are the fixed ones; the rest are the stripped originals, or,
      with a series naming, measured column `k` is named after the start plus `k - 3`
      steps. */
  lemma HeadersNamed(names: seq<string>, base: string, labels: Option<SeriesLabels>, fmt: real -> string)
    requires |names| >= 3
    ensures Headers(names, base, labels, fmt)[..3] == FixedNames
    ensures labels.None? ==> forall k :: 3 <= k < |names| ==> Headers(names, base, labels, fmt)[k] == Unraw(names[k])
    ensures labels.Some? ==> forall k :: 3 <= k < |names| ==>
      Headers(names, base, labels, fmt)[k] == SeriesName(labels.value.start, Step(base, labels.value), labels.value.unit, fmt, k - 3)
  {
    var h := Headers(names, base, labels, fmt);
    assert |FixedNames| == 3;
    forall k | 3 <= k < |names| ensures h[k] == h[3..][k - 3] {
    }
  }

  /** `df.iloc[k:]`: the first `k` rows dropped from every column. */
  function DropRows(cols: seq<seq<Num>>, n: nat, k: nat): (r: seq<seq<Num>>)
    requires Shaped(cols, n)
    ensures |r| == |cols| && Shaped(r, if n >= k then n - k else 0)
    ensures forall c :: 0 <= c < |cols| && n >= k ==> r[c] == cols[c][k..]
  {
    seq(|cols|, c requires 0 <= c < |cols| => if n >= k then cols[c][k..] else [])
  }

  /** `excel2excel` without interpolation, on the frame `read_excel` gives (`n` rows under
      `names`): fewer than three columns cannot take the three fixed names, a `ValueError`. */
  function Convert(path: string, base: string, names: seq<string>, cols: seq<seq<Num>>, n: nat, spectrum: string,
                   labels: Option<SeriesLabels>, fmt: real -> string, log10: real -> real): (r: Result<Workbook>)
    requires |names| == |cols| && Shaped(cols, n)
    ensures r.Err? <==> |names| < 3
    ensures r.Err? ==> r.error == ValueError
    ensures r.Ok? ==> r.value.sheet == spectrum && r.value.fileName == FileStem(path, ".xlsx")
    ensures r.Ok? ==> r.value.path == OutputPath(path, ".xlsx", spectrum + "_merged_")
  {
    if |names| < 3 then Err(ValueError)
    else
      var m := if n >= 5 then n - 5 else 0;
      var out := Spectra(spectrum, Headers(names, base, labels, fmt), DropRows(cols, n, 5), m, log10);
      Ok(Workbook(OutputPath(path, ".xlsx", spectrum + "_merged_"), spectrum, out.value.0, out.value.1, FileStem(path, ".xlsx")))
  }

  /** `excel2excel`: the read frame is cut below its preamble, its header overwritten in place
      and stripped, the series names written in place, and the spectrum computed. */
  method Excel2Excel(path: string, base: string, names: seq<string>, cols: seq<seq<Num>>, n: nat, spectrum: string,
                     labels: Option<SeriesLabels>, fmt: real -> string, log10: real -> real) returns (r: Result<Workbook>)
    requires |names| == |cols| && Shaped(cols, n)
    ensures r == Convert(path, base, names, cols, n, spectrum, labels, fmt, log10)
  {
    var df := new Frame(names, cols, n);
    df := new Frame(df.names, DropRows(df.cols, df.rows, 5), if n >= 5 then n - 5 else 0);
    if |df.names| < 3 {
      return Err(ValueError);
    }
    df.Relabel(0, FixedNames);
    df.names := UnrawAll(df.names);
    FixedNamesUnraw();
    UnrawAllAfter(FixedNames, names[3..]);
    assert df.names == FixedNames + UnrawAll(names[3..]);
    if labels.Some? {
      var l := labels.value;
      df.Relabel(3, SeriesNames(|df.names| - 3, l.start, Step(base, l), l.unit, fmt));
      assert df.names == Headers(names, base, labels, fmt);
    }
    var out := Spectra(spectrum, df.names, df.cols, df.rows, log10);
    r := Ok(Workbook(OutputPath(path, ".xlsx", spectrum + "_merged_"), spectrum, out.value.0, out.value.1, FileStem(path, ".xlsx")));
  }
}
