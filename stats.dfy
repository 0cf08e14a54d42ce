/** `np.mean` and `np.var` (population variance, divisor n) of a list of pixel values,
    computed exactly over the reals. NumPy returns NaN for an empty list. */
module Stats {
  import opened Base

  function Sum(s: seq<int>): int {
    if s == [] then 0 else s[0] + Sum(s[1..])
  }

  function Sq(x: real): real { x * x }

  /** Sum of squared deviations from `m`. */
  function SqDev(s: seq<int>, m: real): real {
    if s == [] then 0.0 else Sq(s[0] as real - m) + SqDev(s[1..], m)
  }

  function Average(s: seq<int>): real
    requires s != []
  {
    Sum(s) as real / |s| as real
  }

  /** `np.mean(s)`. */
  function Mean(s: seq<int>): (m: Num)
    ensures m.NaN? <==> s == []
  {
    if s == [] then NaN else R(Average(s))
  }

  /** `np.var(s)`: the mean squared deviation from the mean. */
  function Variance(s: seq<int>): (v: Num)
    ensures v.NaN? <==> s == []
  {
    if s == [] then NaN else R(SqDev(s, Average(s)) / |s| as real)
  }

  lemma {:induction false} SumBounds(s: seq<int>, lo: int, hi: int)
    requires forall k :: 0 <= k < |s| ==> lo <= s[k] <= hi
    ensures |s| * lo <= Sum(s) <= |s| * hi
  {
    if s != [] {
      assert forall k :: 0 <= k < |s| - 1 ==> s[1..][k] == s[k + 1];
      SumBounds(s[1..], lo, hi);
    }
  }

  /** The mean lies between any lower and upper bound of the values. */
  lemma MeanBetweenBounds(s: seq<int>, lo: int, hi: int)
    requires s != [] && forall k :: 0 <= k < |s| ==> lo <= s[k] <= hi
    ensures Mean(s).R? && lo as real <= Mean(s).v <= hi as real
  {
    SumBounds(s, lo, hi);
    QuotientBetween(Sum(s) as real, |s| as real, lo as real, hi as real);
  }

  lemma QuotientBetween(x: real, n: real, lo: real, hi: real)
    requires n > 0.0 && n * lo <= x <= n * hi
    ensures lo <= x / n <= hi
  {
    assert x / n * n == x;
  }

  lemma {:induction false} SqDevNonNegative(s: seq<int>, m: real)
    ensures SqDev(s, m) >= 0.0
  {
    if s != [] {
      Square(s[0] as real - m);
      SqDevNonNegative(s[1..], m);
    }
  }

  lemma MulPositive(a: real, b: real)
    requires a > 0.0 && b > 0.0
    ensures a * b > 0.0
  {
  }

  lemma Square(d: real)
    ensures d == 0.0 ==> Sq(d) == 0.0
    ensures d != 0.0 ==> Sq(d) > 0.0
  {
    if d > 0.0 {
      calc {
        Sq(d);
        d * d;
      > { MulPositive(d, d); }
        0.0;
      }
    } else if d < 0.0 {
      calc {
        Sq(d);
        d * d;
        (-d) * (-d);
      > { MulPositive(-d, -d); }
        0.0;
      }
    }
  }

  /** A zero sum of squared deviations means every value equals `m`, and conversely. */
  lemma {:induction false} SqDevZero(s: seq<int>, m: real)
    ensures SqDev(s, m) == 0.0 <==> forall k :: 0 <= k < |s| ==> s[k] as real == m
  {
    if s != [] {
      SqDevZero(s[1..], m);
      SqDevNonNegative(s[1..], m);
      Square(s[0] as real - m);
      assert forall k :: 1 <= k < |s| ==> s[k] == s[1..][k - 1];
    }
  }

  lemma {:induction false} SumOfConstant(s: seq<int>, c: int)
    requires forall k :: 0 <= k < |s| ==> s[k] == c
    ensures Sum(s) == |s| * c
  {
    if s != [] {
      assert forall k :: 0 <= k < |s| - 1 ==> s[1..][k] == s[k + 1];
      SumOfConstant(s[1..], c);
    }
  }

  /** The variance is never negative. */
  lemma VarianceNonNegative(s: seq<int>)
    requires s != []
    ensures Variance(s).R? && Variance(s).v >= 0.0
  {
    SqDevNonNegative(s, Average(s));
  }

  /** The variance is zero exactly when all the values are equal; the mean is then that value. */
  lemma VarianceZeroIffConstant(s: seq<int>)
    requires s != []
    ensures Variance(s) == R(0.0) <==> forall k :: 0 <= k < |s| ==> s[k] == s[0]
    ensures (forall k :: 0 <= k < |s| ==> s[k] == s[0]) ==> Mean(s) == R(s[0] as real)
  {
    var m := Average(s);
    var n := |s| as real;
    SqDevZero(s, m);
    SqDevNonNegative(s, m);
    if forall k :: 0 <= k < |s| ==> s[k] == s[0] {
      SumOfConstant(s, s[0]);
      assert Sum(s) as real == n * s[0] as real;
      assert m == s[0] as real;
    }
    if Variance(s) == R(0.0) {
      assert SqDev(s, m) / n == 0.0;
      assert SqDev(s, m) == 0.0;
      forall k | 0 <= k < |s| ensures s[k] == s[0] {
        assert s[k] as real == m && s[0] as real == m;
      }
    }
  }
}
