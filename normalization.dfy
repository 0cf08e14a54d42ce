/** Min-max normalisation `(x - min) / (max - min)` of a column of finite floats, with NumPy's
    float division: a constant column divides zero by zero and becomes NaN. */
module Normalization {
  import opened Base

  function Min(xs: seq<real>): real
    requires xs != []
  {
    if |xs| == 1 then xs[0]
    else
      var m := Min(xs[1..]);
      if xs[0] <= m then xs[0] else m
  }

  function Max(xs: seq<real>): real
    requires xs != []
  {
    if |xs| == 1 then xs[0]
    else
      var m := Max(xs[1..]);
      if xs[0] >= m then xs[0] else m
  }

  /** `min()` and `max()` are values of the column that bound every other value. */
  lemma {:induction false} MinMaxBound(xs: seq<real>)
    requires xs != []
    ensures Min(xs) in xs && Max(xs) in xs
    ensures forall k :: 0 <= k < |xs| ==> Min(xs) <= xs[k] <= Max(xs)
  {
    if |xs| > 1 {
      MinMaxBound(xs[1..]);
      assert forall k :: 1 <= k < |xs| ==> xs[k] == xs[1..][k - 1];
    }
  }

  /** One value mapped against the bounds `lo` and `hi`. */
  function Scale(x: real, lo: real, hi: real): Num {
    NumDiv(x - lo, hi - lo)
  }

  /** `(series - lo) / (hi - lo)`, elementwise. */
  function Normalized(xs: seq<real>, lo: real, hi: real): (r: seq<Num>)
    ensures |r| == |xs|
  {
    seq(|xs|, k requires 0 <= k < |xs| => Scale(xs[k], lo, hi))
  }

  /** `normalize_series`: each value against the column's own minimum and maximum. */
  function NormalizeSeries(xs: seq<real>): (r: seq<Num>)
    ensures |r| == |xs|
  {
    if xs == [] then [] else Normalized(xs, Min(xs), Max(xs))
  }

  /** With `lo < hi`, scaling is an order isomorphism onto the reals that undoes itself:
      `lo` goes to 0, `hi` to 1, and `v * (hi - lo) + lo` recovers `x`. */
  lemma ScaleProperties(x: real, y: real, lo: real, hi: real)
    requires lo < hi
    ensures Scale(x, lo, hi).R? && Scale(x, lo, hi).v * (hi - lo) + lo == x
    ensures x < y <==> Scale(x, lo, hi).v < Scale(y, lo, hi).v
    ensures Scale(x, lo, hi) == R(0.0) <==> x == lo
    ensures Scale(x, lo, hi) == R(1.0) <==> x == hi
    ensures lo <= x <= hi ==> 0.0 <= Scale(x, lo, hi).v <= 1.0
  {
    var d := hi - lo;
    var a, b := (x - lo) / d, (y - lo) / d;
    assert Scale(x, lo, hi) == R(a) && Scale(y, lo, hi) == R(b);
    assert a * d == x - lo && b * d == y - lo;
    ScaleByPositive(a, b, d);
    ScaleByPositive(a, 1.0, d);
    ScaleByPositive(0.0, a, d);
  }

  lemma ScaleByPositive(a: real, b: real, d: real)
    requires d > 0.0
    ensures a < b <==> a * d < b * d
    ensures a == b <==> a * d == b * d
  {
    if a < b {
      assert (b - a) * d > 0.0;
    } else if b < a {
      assert (a - b) * d > 0.0;
    }
  }

  /** A column with distinct extremes lands in [0, 1]; the value 0 appears exactly at the
      minima and 1 exactly at the maxima, and value order is kept. */
  lemma NormalizeSeriesSpread(xs: seq<real>, i: nat, j: nat)
    requires xs != [] && Min(xs) < Max(xs) && i < |xs| && j < |xs|
    ensures var r := NormalizeSeries(xs);
      && r[i].R? && 0.0 <= r[i].v <= 1.0
      && (r[i] == R(0.0) <==> xs[i] == Min(xs))
      && (r[i] == R(1.0) <==> xs[i] == Max(xs))
      && (xs[i] < xs[j] <==> r[i].v < r[j].v)
  {
    MinMaxBound(xs);
    ScaleProperties(xs[i], xs[j], Min(xs), Max(xs));
  }

  /** A constant (non-empty) column divides zero by zero in every row: all NaN. */
  lemma NormalizeSeriesConstant(xs: seq<real>)
    requires xs != [] && Min(xs) == Max(xs)
    ensures forall k :: 0 <= k < |xs| ==> NormalizeSeries(xs)[k] == NaN
  {
    MinMaxBound(xs);
  }

  /** The minimum and maximum of a column are equal exactly when all its values are. */
  lemma ConstantIffMinIsMax(xs: seq<real>)
    requires xs != []
    ensures Min(xs) == Max(xs) <==> forall k :: 0 <= k < |xs| ==> xs[k] == xs[0]
  {
    MinMaxBound(xs);
    if forall k :: 0 <= k < |xs| ==> xs[k] == xs[0] {
      assert Min(xs) == xs[0] && Max(xs) == xs[0];
    }
  }
}
