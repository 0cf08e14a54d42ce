/** The current-time (It) analysis of an electropolymerisation run: duplicate removal, peak
    picking, normalisation by the peak, the cumulative charge and its normalisation, and the
    window of points handed to the linear fit. Times and currents are finite floats, taken as
    reals. */
module ItAnalysis {
  import opened Base
  import opened Masks
  import opened Text
  import opened Normalization

  // ----- find_peak -----

  /** Index `i` is interior, the current strictly rises into it and strictly falls after it. */
  predicate IsPeak(c: seq<real>, i: nat) {
    1 <= i && i + 1 < |c| && c[i] - c[i - 1] > 0.0 && c[i + 1] - c[i] < 0.0
  }

  /** The peaks below `n`, in increasing order: `potential_peaks` once the scan reaches `n`. */
  function PeaksBelow(c: seq<real>, n: nat): (ps: seq<nat>)
    ensures forall j :: 0 <= j < |ps| ==> ps[j] < n && IsPeak(c, ps[j])
  {
    if n == 0 then []
    else PeaksBelow(c, n - 1) + (if IsPeak(c, n - 1) then [n - 1] else [])
  }

  function Peaks(c: seq<real>): seq<nat> {
    PeaksBelow(c, |c|)
  }

  /** The scan lists every peak below `n`, each once, in increasing order. */
  lemma {:induction false} PeaksBelowExact(c: seq<real>, n: nat)
    ensures var ps := PeaksBelow(c, n);
      && (forall j, l :: 0 <= j < l < |ps| ==> ps[j] < ps[l])
      && (forall k: nat :: k < n && IsPeak(c, k) ==> k in ps)
  {
    if n > 0 {
      PeaksBelowExact(c, n - 1);
    }
  }

  /** Position in `idx` of the first entry with the largest current. Python's
      `max(idx, key=...)` replaces its candidate only on a strictly larger key, and `np.argmax`
      also reports the first maximum. */
  function FirstMaxPos(c: seq<real>, idx: seq<nat>): (pos: nat)
    requires idx != [] && forall j :: 0 <= j < |idx| ==> idx[j] < |c|
    ensures pos < |idx|
  {
    if |idx| == 1 then 0
    else
      var p := FirstMaxPos(c, idx[..|idx| - 1]);
      if c[idx[|idx| - 1]] > c[idx[p]] then |idx| - 1 else p
  }

  /** The chosen entry carries the largest current, and every earlier entry a smaller one. */
  lemma {:induction false} FirstMaxPosIsFirstMax(c: seq<real>, idx: seq<nat>)
    requires idx != [] && forall j :: 0 <= j < |idx| ==> idx[j] < |c|
    ensures var p := FirstMaxPos(c, idx);
      && (forall j :: 0 <= j < |idx| ==> c[idx[j]] <= c[idx[p]])
      && (forall j :: 0 <= j < p ==> c[idx[j]] < c[idx[p]])
    decreases |idx|
  {
    if |idx| > 1 {
      var front := idx[..|idx| - 1];
      FirstMaxPosIsFirstMax(c, front);
      assert forall j :: 0 <= j < |front| ==> front[j] == idx[j];
    }
  }

  function Indices(n: nat): (r: seq<nat>)
    ensures |r| == n && forall j :: 0 <= j < n ==> r[j] == j
  {
    seq(n, j requires 0 <= j < n => j)
  }

  /** The index `find_peak` reports: the highest peak, else the first global maximum, else
      nothing, where `np.argmax` of an empty array raises. */
  function PeakIndex(c: seq<real>): (k: Option<nat>)
    ensures k.Some? ==> k.value < |c|
    ensures k.None? <==> c == []
  {
    var ps := Peaks(c);
    if ps != [] then Some(ps[FirstMaxPos(c, ps)])
    else if c == [] then None
    else Some(Indices(|c|)[FirstMaxPos(c, Indices(|c|))])
  }

  /** `find_peak(current, time)`: `(Im, tm)` or the `ValueError` of the empty argmax. */
  function PeakOf(c: seq<real>, t: seq<real>): Result<(real, real)>
    requires |t| == |c|
  {
    match PeakIndex(c)
    case None => Err(ValueError)
    case Some(k) => Ok((c[k], t[k]))
  }

  method FindPeak(current: seq<real>, time: seq<real>) returns (r: Result<(real, real)>)
    requires |time| == |current|
    ensures r == PeakOf(current, time)
  {
    var peaks: seq<nat> := [];
    var i := 1;
    while i < |current| - 1
      invariant 1 <= i <= if |current| >= 2 then |current| - 1 else 1
      invariant peaks == PeaksBelow(current, i)
    {
      if current[i] - current[i - 1] > 0.0 && current[i + 1] - current[i] < 0.0 {
        peaks := peaks + [i];
      }
      i := i + 1;
    }
    assert peaks == Peaks(current);
    if |peaks| > 0 {
      var k := peaks[FirstMaxPos(current, peaks)];
      return Ok((current[k], time[k]));
    }
    if |current| == 0 {
      return Err(ValueError);
    }
    var k := FirstMaxPos(current, Indices(|current|));
    return Ok((current[k], time[k]));
  }

  /** When there are peaks, the reported index is the peak with the largest current, and
      every earlier peak is strictly lower. */
  lemma HighestPeakChosen(c: seq<real>)
    requires Peaks(c) != []
    ensures var k := PeakIndex(c).value;
      && IsPeak(c, k)
      && (forall j: nat :: IsPeak(c, j) ==> c[j] <= c[k])
      && (forall j: nat :: j < k && IsPeak(c, j) ==> c[j] < c[k])
  {
    var ps := Peaks(c);
    var p := FirstMaxPos(c, ps);
    PeaksBelowExact(c, |c|);
    FirstMaxPosIsFirstMax(c, ps);
    forall j: nat | IsPeak(c, j) ensures c[j] <= c[ps[p]] && (j < ps[p] ==> c[j] < c[ps[p]]) {
      var q :| 0 <= q < |ps| && ps[q] == j;
      if j < ps[p] {
        assert q < p;
      }
    }
  }

  /** Without peaks, a non-empty curve reports its first global maximum. */
  lemma FallbackIsFirstMaximum(c: seq<real>)
    requires Peaks(c) == [] && c != []
    ensures var k := PeakIndex(c).value;
      && (forall j :: 0 <= j < |c| ==> c[j] <= c[k])
      && (forall j :: 0 <= j < k ==> c[j] < c[k])
  {
    var all := Indices(|c|);
    var p := FirstMaxPos(c, all);
    FirstMaxPosIsFirstMax(c, all);
    assert PeakIndex(c).value == p;
    forall j | 0 <= j < |c| ensures c[j] <= c[p] && (j < p ==> c[j] < c[p]) {
      assert all[j] == j && all[p] == p;
    }
  }

  // ----- remove_duplicates -----

  /** Row `i` survives when it is the first row, its current differs from the previous row's
      (`diff() != 0`; the first diff is NaN, which compares unequal) or its time is the first
      time. */
  function KeepMask(t: seq<real>, c: seq<real>): (m: seq<bool>)
    requires |t| == |c|
    ensures |m| == |c|
  {
    seq(|c|, i requires 0 <= i < |c| => i == 0 || c[i] - c[i - 1] != 0.0 || t[i] == t[0])
  }

  function RemoveDuplicates(t: seq<real>, c: seq<real>): (r: (seq<real>, seq<real>))
    requires |t| == |c|
  {
    var m := KeepMask(t, c);
    (Select(t, m), Select(c, m))
  }

  /** The surviving rows are input rows in their original order, exactly those the rule keeps,
      starting with row 0. */
  lemma RemoveDuplicatesRows(t: seq<real>, c: seq<real>)
    requires |t| == |c|
    ensures var (tu, cu) := RemoveDuplicates(t, c);
      var idx := TrueIndices(KeepMask(t, c));
      && |tu| == |cu| == |idx| <= |c|
      && (forall j :: 0 <= j < |idx| ==> tu[j] == t[idx[j]] && cu[j] == c[idx[j]])
      && (forall j, l :: 0 <= j < l < |idx| ==> idx[j] < idx[l])
      && (forall i :: 0 <= i < |c| ==> (i in idx <==> i == 0 || c[i] != c[i - 1] || t[i] == t[0]))
      && (c != [] ==> |idx| > 0 && idx[0] == 0)
  {
    var m := KeepMask(t, c);
    TrueIndicesExact(m);
    SelectCount(m);
    if c != [] {
      SelectKeepsFirst(m);
    }
  }

  /** Nothing but repeats is lost: a dropped row repeats the current of an earlier kept row. */
  lemma {:induction false} DroppedRowRepeatsKeptCurrent(t: seq<real>, c: seq<real>, i: nat)
    requires |t| == |c| && i < |c| && !KeepMask(t, c)[i]
    ensures exists p :: 0 <= p < i && KeepMask(t, c)[p] && c[p] == c[i]
  {
    var m := KeepMask(t, c);
    assert c[i] == c[i - 1];
    if !m[i - 1] {
      DroppedRowRepeatsKeptCurrent(t, c, i - 1);
    }
  }

  // ----- calculate_charge -----

  /** The charge at row `i`: the left-endpoint sum of `current * dt` over the earlier rows. */
  function LeftSum(t: seq<real>, c: seq<real>, i: nat): real
    requires i < |t| && |c| == |t|
  {
    if i == 0 then 0.0 else LeftSum(t, c, i - 1) + Increment(t, c, i - 1)
  }

  /** `current[k] * (time[k + 1] - time[k])`, the charge added over one interval. */
  function Increment(t: seq<real>, c: seq<real>, k: nat): real
    requires k + 1 < |t| && |c| == |t|
  {
    c[k] * (t[k + 1] - t[k])
  }

  function ChargeSeq(t: seq<real>, c: seq<real>): (q: seq<real>)
    requires |c| == |t|
    ensures |q| == |t|
  {
    seq(|t|, i requires 0 <= i < |t| => LeftSum(t, c, i))
  }

  /** `calculate_charge`: `np.zeros(n)` filled by the running sum. */
  method CalculateCharge(time: seq<real>, current: seq<real>) returns (charge: array<real>)
    requires |current| == |time|
    ensures charge.Length == |time|
    ensures forall k {:trigger charge[k]} :: 0 <= k < |time| ==> charge[k] == LeftSum(time, current, k)
  {
    charge := new real[|time|](_ => 0.0);
    var i := 1;
    while i < |time|
      invariant charge.Length == |time|
      invariant |time| == 0 || 1 <= i <= |time|
      invariant forall k {:trigger charge[k]} :: 0 <= k < i && k < |time| ==> charge[k] == LeftSum(time, current, k)
    {
      assert charge[i - 1] == LeftSum(time, current, i - 1);
      charge[i] := charge[i - 1] + current[i - 1] * (time[i] - time[i - 1]);
      assert charge[i] == LeftSum(time, current, i);
      i := i + 1;
    }
  }

  /** With times in order and a non-negative current, the charge never decreases. */
  lemma {:induction false} ChargeNondecreasing(t: seq<real>, c: seq<real>, i: nat, j: nat)
    requires |c| == |t| && i <= j < |t|
    requires forall k :: 0 < k < |t| ==> t[k - 1] <= t[k]
    requires forall k :: 0 <= k < |c| ==> c[k] >= 0.0
    ensures LeftSum(t, c, i) <= LeftSum(t, c, j)
    decreases j
  {
    if i < j {
      ChargeNondecreasing(t, c, i, j - 1);
      assert Increment(t, c, j - 1) >= 0.0;
    }
  }

  /** Under a constant current the charge is that current times the elapsed time. */
  lemma {:induction false} ChargeOfConstantCurrent(t: seq<real>, c: seq<real>, amps: real, i: nat)
    requires |c| == |t| && i < |t|
    requires forall k :: 0 <= k < |c| ==> c[k] == amps
    ensures LeftSum(t, c, i) == amps * (t[i] - t[0])
  {
    if i > 0 {
      ChargeOfConstantCurrent(t, c, amps, i - 1);
    }
  }

  // ----- normalize_data and the charge normalisation -----

  /** `normalize_data`: `time / tm` and `current / Im`, elementwise. */
  function NormalizeData(time: seq<real>, current: seq<real>, tm: real, im: real): (r: (seq<Num>, seq<Num>))
    ensures |r.0| == |time| && |r.1| == |current|
    ensures tm != 0.0 ==> forall k :: 0 <= k < |time| ==> r.0[k].R? && r.0[k].v * tm == time[k]
    ensures im != 0.0 ==> forall k :: 0 <= k < |current| ==> r.1[k].R? && r.1[k].v * im == current[k]
  {
    (seq(|time|, k requires 0 <= k < |time| => NumDiv(time[k], tm)),
     seq(|current|, k requires 0 <= k < |current| => NumDiv(current[k], im)))
  }

  /** The peak found on the de-duplicated curve is a row of the full curve, and that row
      normalises to (1, 1). */
  lemma PeakRowNormalizesToOne(time: seq<real>, current: seq<real>, im: real, tm: real)
    requires |time| == |current| && im != 0.0 && tm != 0.0
    requires PeakOf(RemoveDuplicates(time, current).1, RemoveDuplicates(time, current).0) == Ok((im, tm))
    ensures exists k :: (0 <= k < |time| && NormalizeData(time, current, tm, im).0[k] == R(1.0)
                               && NormalizeData(time, current, tm, im).1[k] == R(1.0))
  {
    var k := PeakIsRow(time, current);
    assert time[k] == tm && current[k] == im;
    UnitQuotient(tm);
    UnitQuotient(im);
    assert NormalizeData(time, current, tm, im).0[k] == NumDiv(tm, tm);
    assert NormalizeData(time, current, tm, im).1[k] == NumDiv(im, im);
  }

  lemma UnitQuotient(x: real)
    requires x != 0.0
    ensures NumDiv(x, x) == R(1.0)
  {
  }

  /** The de-duplicated peak `(Im, tm)` is `(current[k], time[k])` for a row `k` of the input. */
  lemma PeakIsRow(time: seq<real>, current: seq<real>) returns (k: nat)
    requires |time| == |current|
    requires PeakOf(RemoveDuplicates(time, current).1, RemoveDuplicates(time, current).0).Ok?
    ensures k < |time|
    ensures PeakOf(RemoveDuplicates(time, current).1, RemoveDuplicates(time, current).0) == Ok((current[k], time[k]))
  {
    var tu := RemoveDuplicates(time, current).0;
    var cu := RemoveDuplicates(time, current).1;
    RemoveDuplicatesRows(time, current);
    var j := PeakIndex(cu).value;
    k := TrueIndices(KeepMask(time, current))[j];
    assert cu[j] == current[k] && tu[j] == time[k];
  }

  /** The guard in the analysis: `None` where it stops because `max - min == 0`, otherwise
      `(charge - min) / (max - min)`. */
  function NormalizeCharge(q: seq<real>): (r: Option<seq<Num>>)
    requires q != []
  {
    if Max(q) - Min(q) == 0.0 then None else Some(NormalizeSeries(q))
  }

  /** The analysis stops exactly on a constant charge; otherwise every charge lands in
      [0, 1], 0 exactly at the minima and 1 exactly at the maxima, in the same order. */
  lemma NormalizeChargeRange(q: seq<real>, i: nat, j: nat)
    requires q != [] && i < |q| && j < |q|
    ensures NormalizeCharge(q).None? <==> forall k :: 0 <= k < |q| ==> q[k] == q[0]
    ensures NormalizeCharge(q).Some? ==>
      var r := NormalizeCharge(q).value;
      && r[i].R? && 0.0 <= r[i].v <= 1.0
      && (r[i] == R(0.0) <==> q[i] == Min(q))
      && (r[i] == R(1.0) <==> q[i] == Max(q))
      && (q[i] < q[j] <==> r[i].v < r[j].v)
  {
    ConstantIffMinIsMax(q);
    MinMaxBound(q);
    if Max(q) - Min(q) != 0.0 {
      NormalizeSeriesSpread(q, i, j);
    }
  }

  // ----- the masks of fit_ln_term -----

  /** `(y < 1) & (y > 0)`; NaN compares false. */
  function ValidMask(y: seq<Num>): (m: seq<bool>)
    ensures |m| == |y|
  {
    seq(|y|, k requires 0 <= k < |y| => y[k].R? && 0.0 < y[k].v < 1.0)
  }

  /** `(t > lo) & (t < hi)`. */
  function WindowMask(ts: seq<real>, lo: real, hi: real): (m: seq<bool>)
    ensures |m| == |ts|
  {
    seq(|ts|, k requires 0 <= k < |ts| => lo < ts[k] < hi)
  }

  /** The points `(t, y)` the fit uses: valid `y`, then `1 < t < tm`, widened to `1 < t < 10`
      when that leaves fewer than two points. */
  function FitPoints(y: seq<Num>, time: seq<real>, tm: real): seq<(real, Num)>
    requires |y| == |time|
  {
    var m := ValidMask(y);
    var tv := Select(time, m);
    var pv := Select(seq(|y|, k requires 0 <= k < |y| => (time[k], y[k])), m);
    var primary := Select(pv, WindowMask(tv, 1.0, tm));
    if |primary| < 2 then Select(pv, WindowMask(tv, 1.0, 10.0)) else primary
  }

  /** The upper end of the time window that `FitPoints` ends up using. */
  function FitUpper(y: seq<Num>, time: seq<real>, tm: real): real
    requires |y| == |time|
  {
    var tv := Select(time, ValidMask(y));
    if CountTrue(WindowMask(tv, 1.0, tm)) < 2 then 10.0 else tm
  }

  /** Every fit point is a row with `0 < y < 1` and a time inside the window in use. */
  lemma FitPointsSound(y: seq<Num>, time: seq<real>, tm: real, q: nat)
    requires |y| == |time| && q < |FitPoints(y, time, tm)|
    ensures var pt := FitPoints(y, time, tm)[q];
      pt.1.R? && 0.0 < pt.1.v < 1.0 && 1.0 < pt.0 < FitUpper(y, time, tm)
      && exists k :: 0 <= k < |time| && pt == (time[k], y[k])
  {
    var m := ValidMask(y);
    var tv := Select(time, m);
    var rows := seq(|y|, k requires 0 <= k < |y| => (time[k], y[k]));
    var pv := Select(rows, m);
    var w := WindowMask(tv, 1.0, FitUpper(y, time, tm));
    SelectCount(WindowMask(tv, 1.0, tm));
    assert FitPoints(y, time, tm) == Select(pv, w);
    var p := SelectedFrom(pv, w, q);
    var k := SelectedFrom(rows, m, p);
    assert tv[p] == time[k];
  }

  /** Every row with `0 < y < 1` and a time inside the window in use is a fit point. */
  lemma FitPointsComplete(y: seq<Num>, time: seq<real>, tm: real, k: nat)
    requires |y| == |time| && k < |time|
    requires y[k].R? && 0.0 < y[k].v < 1.0 && 1.0 < time[k] < FitUpper(y, time, tm)
    ensures (time[k], y[k]) in FitPoints(y, time, tm)
  {
    var m := ValidMask(y);
    var tv := Select(time, m);
    var rows := seq(|y|, k requires 0 <= k < |y| => (time[k], y[k]));
    var pv := Select(rows, m);
    var w := WindowMask(tv, 1.0, FitUpper(y, time, tm));
    SelectCount(WindowMask(tv, 1.0, tm));
    assert FitPoints(y, time, tm) == Select(pv, w);
    var p := SelectedTo(rows, m, k);
    assert tv[p] == time[k];
    var q := SelectedTo(pv, w, p);
  }

  // ----- It_analysis -----

  /** What the analysis of one workbook ends in. The `except ValueError` around `find_peak`
      never fires: duplicate removal keeps row 0 of a non-empty curve, so `np.argmax` always
      has a value to pick. */
  datatype ItOutcome =
    | Raised(error: PyError)  // an exception no handler catches leaves `It_analysis`
    | FlatCharge              // the charge is constant; the analysis returns
    | NoFit                   // `linregress` refused an empty window; the analysis returns
    | Analysed(im: real, tm: real, tNorm: seq<Num>, iNorm: seq<Num>, charge: seq<real>,
               chargeNorm: seq<Num>, fit: seq<(real, Num)>)

  /** `remove_duplicates` reads `data['Time[s]'].iloc[0]`, so an empty curve raises
      IndexError before any other step. */
  function FirstTime(time: seq<real>): (r: Result<real>)
    ensures r.Err? <==> time == []
    ensures r.Err? ==> r.error == IndexError
    ensures r.Ok? ==> r.value == time[0]
  {
    if time == [] then Err(IndexError) else Ok(time[0])
  }

  /** The computing steps of `It_analysis` on one curve, in its order. */
  method Analyse(time: seq<real>, current: seq<real>) returns (r: ItOutcome)
    requires |time| == |current|
    ensures r.Raised? <==> time == []
    ensures r.Raised? ==> r.error == IndexError
    ensures r.FlatCharge? <==> time != [] && NormalizeCharge(ChargeSeq(time, current)).None?
    ensures r.NoFit? || r.Analysed? ==>
      var (tu, cu) := RemoveDuplicates(time, current);
      && time != []
      && PeakOf(cu, tu).Ok?
      && NormalizeCharge(ChargeSeq(time, current)).Some?
      && (r.NoFit? <==> FitPoints(NormalizeCharge(ChargeSeq(time, current)).value, time, PeakOf(cu, tu).value.1) == [])
    ensures r.Analysed? ==>
      var (tu, cu) := RemoveDuplicates(time, current);
      && PeakOf(cu, tu) == Ok((r.im, r.tm))
      && (r.tNorm, r.iNorm) == NormalizeData(time, current, r.tm, r.im)
      && r.charge == ChargeSeq(time, current)
      && NormalizeCharge(r.charge) == Some(r.chargeNorm)
      && r.fit == FitPoints(r.chargeNorm, time, r.tm)
      && r.fit != []
  {
    var first := FirstTime(time);
    if first.Err? {
      return Raised(first.error);
    }
    var (tu, cu) := RemoveDuplicates(time, current);
    RemoveDuplicatesRows(time, current);
    var peak := FindPeak(cu, tu);
    assert peak.Ok?;
    var (im, tm) := peak.value;
    var (tn, cn) := NormalizeData(time, current, tm, im);
    var q := CalculateCharge(time, current);
    var charge := q[..];
    assert charge == ChargeSeq(time, current);
    match NormalizeCharge(charge)
    case None =>
      return FlatCharge;
    case Some(qn) =>
      var fit := FitPoints(qn, time, tm);
      if fit == [] {
        return NoFit;
      }
      return Analysed(im, tm, tn, cn, charge, qn, fit);
  }

  /** `file_path.replace('.xlsx', '_analysis.xlsx')`, the workbook the results go to. */
  function AnalysisWorkbook(path: string): string {
    ReplaceAll(path, ".xlsx", "_analysis.xlsx")
  }

  /** For a path whose only `.xlsx` is its extension, the result sits beside it. */
  lemma AnalysisWorkbookOfPath(stem: string)
    requires IndexOf(stem + ".xlsx", ".xlsx") == Some(|stem|)
    ensures AnalysisWorkbook(stem + ".xlsx") == stem + "_analysis.xlsx"
  {
    ReplaceAtEnd(stem, ".xlsx", "_analysis.xlsx");
  }
}
