/** Boolean-mask indexing `xs[mask]` as NumPy and pandas do it: the entries where the mask is
    true, in their original order. */
module Masks {

  /** The positions where `m` holds, in increasing order. */
  function TrueIndices(m: seq<bool>): (idx: seq<nat>)
    ensures forall j :: 0 <= j < |idx| ==> idx[j] < |m|
  {
    if m == [] then []
    else
      var front := TrueIndices(m[..|m| - 1]);
      if m[|m| - 1] then front + [|m| - 1] else front
  }

  /** `xs[m]`. */
  function Select<T>(xs: seq<T>, m: seq<bool>): (r: seq<T>)
    requires |xs| == |m|
    ensures |r| == |TrueIndices(m)|
  {
    var idx := TrueIndices(m);
    seq(|idx|, j requires 0 <= j < |idx| => xs[idx[j]])
  }

  /** The mask picks exactly the positions where it is true, each once, in increasing order. */
  lemma {:induction false} TrueIndicesExact(m: seq<bool>)
    ensures forall j, l :: 0 <= j < l < |TrueIndices(m)| ==> TrueIndices(m)[j] < TrueIndices(m)[l]
    ensures forall j :: 0 <= j < |TrueIndices(m)| ==> m[TrueIndices(m)[j]]
    ensures forall k :: 0 <= k < |m| && m[k] ==> k in TrueIndices(m)
    decreases |m|
  {
    if m != [] {
      var front := m[..|m| - 1];
      TrueIndicesExact(front);
      assert forall k :: 0 <= k < |front| ==> front[k] == m[k];
    }
  }

  /** The number of true entries. */
  function CountTrue(m: seq<bool>): nat {
    if m == [] then 0 else CountTrue(m[..|m| - 1]) + (if m[|m| - 1] then 1 else 0)
  }

  /** A mask selects as many entries as it has true positions, and never more than its length. */
  lemma {:induction false} SelectCount(m: seq<bool>)
    ensures |TrueIndices(m)| == CountTrue(m) <= |m|
    decreases |m|
  {
    if m != [] {
      SelectCount(m[..|m| - 1]);
    }
  }

  /** Selecting from a sequence is selecting from all but its last entry, then the last entry
      if the mask keeps it. */
  lemma SelectSnoc<T>(xs: seq<T>, m: seq<bool>)
    requires |xs| == |m| > 0
    ensures Select(xs, m) == Select(xs[..|xs| - 1], m[..|m| - 1]) + (if m[|m| - 1] then [xs[|xs| - 1]] else [])
  {
    var front := TrueIndices(m[..|m| - 1]);
    assert forall j :: 0 <= j < |front| ==> Select(xs, m)[j] == xs[..|xs| - 1][front[j]];
  }

  /** A mask with a true first position keeps the first entry first. */
  lemma {:induction false} SelectKeepsFirst(m: seq<bool>)
    requires m != [] && m[0]
    ensures TrueIndices(m) != [] && TrueIndices(m)[0] == 0
  {
    TrueIndicesExact(m);
    assert 0 in TrueIndices(m);
  }

  /** Each selected entry comes from a position where the mask is true. */
  lemma SelectedFrom<T>(xs: seq<T>, m: seq<bool>, q: nat) returns (k: nat)
    requires |xs| == |m| && q < |Select(xs, m)|
    ensures k < |m| && m[k] && Select(xs, m)[q] == xs[k]
  {
    TrueIndicesExact(m);
    var idx := TrueIndices(m);
    k := idx[q];
    assert Select(xs, m)[q] == xs[idx[q]];
  }

  /** Each position where the mask is true contributes its entry. */
  lemma SelectedTo<T>(xs: seq<T>, m: seq<bool>, k: nat) returns (q: nat)
    requires |xs| == |m| && k < |m| && m[k]
    ensures q < |Select(xs, m)| && Select(xs, m)[q] == xs[k]
  {
    TrueIndicesExact(m);
    var idx := TrueIndices(m);
    q :| 0 <= q < |idx| && idx[q] == k;
    assert Select(xs, m)[q] == xs[idx[q]];
  }

  /** The mask of `drop_duplicates()` on one column: each value is kept where it first occurs. */
  function FirstSeen<T(==)>(xs: seq<T>): (m: seq<bool>)
    ensures |m| == |xs| && forall k :: 0 <= k < |xs| ==> (m[k] <==> xs[k] !in xs[..k])
  {
    seq(|xs|, k requires 0 <= k < |xs| => xs[k] !in xs[..k])
  }

  /** After dropping repeats no value occurs twice. */
  lemma FirstSeenDistinct<T>(xs: seq<T>)
    ensures forall i, j :: 0 <= i < j < |Select(xs, FirstSeen(xs))| ==>
      Select(xs, FirstSeen(xs))[i] != Select(xs, FirstSeen(xs))[j]
  {
    var m := FirstSeen(xs);
    var idx := TrueIndices(m);
    TrueIndicesExact(m);
    forall i, j | 0 <= i < j < |Select(xs, m)| ensures Select(xs, m)[i] != Select(xs, m)[j] {
      assert Select(xs, m)[i] == xs[idx[i]] && Select(xs, m)[j] == xs[idx[j]];
      assert idx[i] < idx[j] && m[idx[j]];
      assert xs[..idx[j]][idx[i]] == xs[idx[i]];
    }
  }

  /** Every value of the column survives dropping repeats: its first occurrence is kept. */
  lemma FirstSeenKeepsEvery<T>(xs: seq<T>)
    ensures forall k :: 0 <= k < |xs| ==> xs[k] in Select(xs, FirstSeen(xs))
  {
    var m := FirstSeen(xs);
    forall k | 0 <= k < |xs| ensures xs[k] in Select(xs, m) {
      var f := FirstIndex(xs, k);
      var q := SelectedTo(xs, m, f);
    }
  }

  /** The position where the value at `k` first occurs. */
  lemma {:induction false} FirstIndex<T>(xs: seq<T>, k: nat) returns (f: nat)
    requires k < |xs|
    ensures f <= k && xs[f] == xs[k] && xs[f] !in xs[..f]
    decreases k
  {
    if xs[k] in xs[..k] {
      var j :| 0 <= j < k && xs[..k][j] == xs[k];
      f := FirstIndex(xs, j);
    } else {
      f := k;
    }
  }

  /** A mask true nowhere picks nothing. */
  lemma {:induction false} TrueIndicesNone(m: seq<bool>)
    requires forall j :: 0 <= j < |m| ==> !m[j]
    ensures TrueIndices(m) == []
    decreases |m|
  {
    if m != [] {
      TrueIndicesNone(m[..|m| - 1]);
    }
  }

  /** A mask true at `k` alone picks position `k` alone. */
  lemma {:induction false} TrueIndicesSingle(m: seq<bool>, k: nat)
    requires k < |m| && m[k] && forall j :: 0 <= j < |m| && j != k ==> !m[j]
    ensures TrueIndices(m) == [k]
    decreases |m|
  {
    var front := m[..|m| - 1];
    if k == |m| - 1 {
      TrueIndicesNone(front);
    } else {
      TrueIndicesSingle(front, k);
    }
  }
}
