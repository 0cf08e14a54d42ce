/** Splitting an electrochemistry sheet into segments (`electricity_excel_split_segment.py`).
    CV sheets split where the potential sweep reverses; GCD sheets split where the current
    changes sign. Segments are written side by side into one sheet, three columns each. */
module SegmentSplit {
  import opened Base
  import opened Text
  import opened Frames

  /** One row of the input sheet. */
  datatype Sample = Sample(time: real, potential: real, current: real)

  datatype Mode = CV | GCD

  /** Row `r`, coming after `prev`, reverses the sweep in progress: for CV a falling potential
      while forward or a rising one while backward; for GCD a negative current while positive
      or a positive one while negative (a zero current never reverses). */
  predicate Reverses(mode: Mode, forward: bool, prev: Sample, r: Sample) {
    match mode
    case CV => (forward && r.potential < prev.potential) || (!forward && r.potential > prev.potential)
    case GCD => (forward && r.current < 0.0) || (!forward && r.current > 0.0)
  }

  /** The starting direction: `potential[1] > potential[0]` for CV, `current[1] > 0` for GCD. */
  function InitialForward(mode: Mode, r0: Sample, r1: Sample): bool {
    match mode
    case CV => r1.potential > r0.potential
    case GCD => r1.current > 0.0
  }

  /** Direction of segment `k` (0-based): directions alternate from the initial one. */
  function Dir(forward0: bool, k: nat): bool {
    if k == 0 then forward0 else !Dir(forward0, k - 1)
  }

  lemma DirNext(forward0: bool, k: nat)
    ensures Dir(forward0, k + 1) == !Dir(forward0, k)
  {
  }

  /** The loop's variables: finished segments, the segment in progress, the direction flag and
      the previous row. */
  datatype State = State(done: seq<seq<Sample>>, segment: seq<Sample>, forward: bool, prev: Sample)

  /** One iteration: on a reversal the segment in progress is flushed, the direction flips and
      the row starts the next segment; otherwise the row joins the segment in progress. */
  function Step(mode: Mode, st: State, r: Sample): State {
    if Reverses(mode, st.forward, st.prev, r) then State(st.done + [st.segment], [r], !st.forward, r)
    else State(st.done, st.segment + [r], st.forward, r)
  }

  function Run(mode: Mode, start: State, rows: seq<Sample>): State
    decreases |rows|
  {
    if rows == [] then start else Step(mode, Run(mode, start, rows[..|rows| - 1]), rows[|rows| - 1])
  }

  lemma RunSnoc(mode: Mode, start: State, rows: seq<Sample>, i: nat)
    requires i < |rows|
    ensures Run(mode, start, rows[..i + 1]) == Step(mode, Run(mode, start, rows[..i]), rows[i])
  {
    assert rows[..i + 1][..i] == rows[..i];
  }

  lemma PrefixSnoc<T>(s: seq<T>, i: nat)
    requires i < |s|
    ensures s[..i + 1] == s[..i] + [s[i]]
  {
  }

  function Start(mode: Mode, rows: seq<Sample>): State
    requires |rows| >= 2
  {
    State([], [], InitialForward(mode, rows[0], rows[1]), rows[0])
  }

  /** The segments in numbering order, the last one included. */
  function Segments(mode: Mode, rows: seq<Sample>): seq<seq<Sample>>
    requires |rows| >= 2
  {
    var st := Run(mode, Start(mode, rows), rows);
    st.done + [st.segment]
  }

  function Flatten(segs: seq<seq<Sample>>): seq<Sample> {
    if segs == [] then [] else Flatten(segs[..|segs| - 1]) + segs[|segs| - 1]
  }

  /** The row before the next one: the last row placed so far, or row 0 at the start. */
  function PrevOf(first: Sample, segs: seq<seq<Sample>>): Sample {
    var f := Flatten(segs);
    if f == [] then first else f[|f| - 1]
  }

  /** The row placed just before segment `k` starts: the last row of segment `k - 1`, or row 0
      when that segment is empty (which only the first segment can be). */
  function RowBefore(first: Sample, segs: seq<seq<Sample>>, k: nat): Sample
    requires 1 <= k < |segs|
  {
    var s := segs[k - 1];
    if s != [] then s[|s| - 1] else first
  }

  /** No row inside a segment reverses the segment's direction against the row before it. */
  ghost predicate NoReversalInside(mode: Mode, forward0: bool, segs: seq<seq<Sample>>) {
    forall k, j :: 0 <= k < |segs| && 1 <= j < |segs[k]| ==>
      !Reverses(mode, Dir(forward0, k), segs[k][j - 1], segs[k][j])
  }

  /** Every segment after the first starts with a row that reverses the previous segment's
      direction against the row placed just before it (so none of them is empty). */
  ghost predicate ReversalAtEachStart(mode: Mode, forward0: bool, first: Sample, segs: seq<seq<Sample>>) {
    forall k :: 1 <= k < |segs| ==>
      segs[k] != [] && Reverses(mode, Dir(forward0, k - 1), RowBefore(first, segs, k), segs[k][0])
  }

  /** The segments follow the reversal rule, and the first segment's first row (if any) does
      not reverse against row 0. */
  ghost predicate WellSplit(mode: Mode, forward0: bool, first: Sample, segs: seq<seq<Sample>>) {
    && |segs| >= 1
    && NoReversalInside(mode, forward0, segs)
    && ReversalAtEachStart(mode, forward0, first, segs)
    && (segs[0] != [] ==> !Reverses(mode, forward0, first, segs[0][0]))
  }

  ghost predicate RunInvariant(mode: Mode, forward0: bool, first: Sample, consumed: seq<Sample>, st: State) {
    var segs := st.done + [st.segment];
    && Flatten(segs) == consumed
    && st.forward == Dir(forward0, |st.done|)
    && st.prev == PrevOf(first, segs)
    && WellSplit(mode, forward0, first, segs)
  }

  lemma FlattenOne(s: seq<Sample>)
    ensures Flatten([s]) == s
  {
    assert [s][..0] == [];
  }

  lemma FlattenSnoc(segs: seq<seq<Sample>>, s: seq<Sample>)
    ensures Flatten(segs + [s]) == Flatten(segs) + s
  {
    assert (segs + [s])[..|segs|] == segs;
  }

  /** Once every segment after the first is non-empty, the last row placed is the last row of
      the last segment, or row 0 when nothing has been placed: the row before the next segment. */
  lemma PrevIsRowBefore(first: Sample, segs: seq<seq<Sample>>, next: seq<Sample>)
    requires |segs| >= 1 && forall k :: 1 <= k < |segs| ==> segs[k] != []
    ensures PrevOf(first, segs) == RowBefore(first, segs + [next], |segs|)
  {
    var n := |segs|;
    assert (segs + [next])[n - 1] == segs[n - 1];
    FlattenLengthOne(segs);
  }

  lemma InsideAfterFlush(mode: Mode, forward0: bool, segs: seq<seq<Sample>>, r: Sample)
    requires NoReversalInside(mode, forward0, segs)
    ensures NoReversalInside(mode, forward0, segs + [[r]])
  {
    var segs' := segs + [[r]];
    forall k, j | 0 <= k < |segs'| && 1 <= j < |segs'[k]|
      ensures !Reverses(mode, Dir(forward0, k), segs'[k][j - 1], segs'[k][j])
    {
      assert segs'[k] == segs[k];
    }
  }

  lemma StartsAfterFlush(mode: Mode, forward0: bool, first: Sample, segs: seq<seq<Sample>>, r: Sample)
    requires |segs| >= 1 && ReversalAtEachStart(mode, forward0, first, segs)
    requires Reverses(mode, Dir(forward0, |segs| - 1), PrevOf(first, segs), r)
    ensures ReversalAtEachStart(mode, forward0, first, segs + [[r]])
  {
    var segs' := segs + [[r]];
    PrevIsRowBefore(first, segs, [r]);
    forall k | 1 <= k < |segs'|
      ensures segs'[k] != [] && Reverses(mode, Dir(forward0, k - 1), RowBefore(first, segs', k), segs'[k][0])
    {
      if k < |segs| {
        assert segs'[k - 1] == segs[k - 1] && segs'[k] == segs[k];
      }
    }
  }

  lemma InsideAfterExtend(mode: Mode, forward0: bool, first: Sample, done: seq<seq<Sample>>, seg: seq<Sample>, r: Sample)
    requires NoReversalInside(mode, forward0, done + [seg])
    requires forall k :: 1 <= k < |done + [seg]| ==> (done + [seg])[k] != []
    requires !Reverses(mode, Dir(forward0, |done|), PrevOf(first, done + [seg]), r)
    ensures NoReversalInside(mode, forward0, done + [seg + [r]])
  {
    var segs := done + [seg];
    var segs' := done + [seg + [r]];
    PrevIsRowBefore(first, segs, []);
    forall k, j | 0 <= k < |segs'| && 1 <= j < |segs'[k]|
      ensures !Reverses(mode, Dir(forward0, k), segs'[k][j - 1], segs'[k][j])
    {
      if k < |done| {
        assert segs'[k] == segs[k];
      } else if j < |seg| {
        assert segs'[k][j - 1] == segs[k][j - 1] && segs'[k][j] == segs[k][j];
      } else {
        assert segs'[k][j - 1] == PrevOf(first, segs);
      }
    }
  }

  lemma StartsAfterExtend(mode: Mode, forward0: bool, first: Sample, done: seq<seq<Sample>>, seg: seq<Sample>, r: Sample)
    requires ReversalAtEachStart(mode, forward0, first, done + [seg])
    ensures ReversalAtEachStart(mode, forward0, first, done + [seg + [r]])
  {
    var segs := done + [seg];
    var segs' := done + [seg + [r]];
    forall k | 1 <= k < |segs'|
      ensures segs'[k] != [] && Reverses(mode, Dir(forward0, k - 1), RowBefore(first, segs', k), segs'[k][0])
    {
      assert segs'[k - 1] == segs[k - 1] && segs'[k][0] == segs[k][0];
    }
  }

  lemma FlushKeepsWellSplit(mode: Mode, forward0: bool, first: Sample, segs: seq<seq<Sample>>, r: Sample)
    requires WellSplit(mode, forward0, first, segs)
    requires Reverses(mode, Dir(forward0, |segs| - 1), PrevOf(first, segs), r)
    ensures WellSplit(mode, forward0, first, segs + [[r]])
  {
    InsideAfterFlush(mode, forward0, segs, r);
    StartsAfterFlush(mode, forward0, first, segs, r);
    assert (segs + [[r]])[0] == segs[0];
  }

  /** A reversal flushes the segment in progress and opens `[r]`. */
  lemma ReversalKeepsInvariant(mode: Mode, forward0: bool, first: Sample, consumed: seq<Sample>, st: State, r: Sample)
    requires RunInvariant(mode, forward0, first, consumed, st)
    requires Reverses(mode, st.forward, st.prev, r)
    ensures RunInvariant(mode, forward0, first, consumed + [r], Step(mode, st, r))
  {
    FlushParts(mode, forward0, first, consumed, st.done + [st.segment], r);
    DirNext(forward0, |st.done|);
  }

  lemma FlushParts(mode: Mode, forward0: bool, first: Sample, consumed: seq<Sample>, segs: seq<seq<Sample>>, r: Sample)
    requires Flatten(segs) == consumed && WellSplit(mode, forward0, first, segs)
    requires Reverses(mode, Dir(forward0, |segs| - 1), PrevOf(first, segs), r)
    ensures Flatten(segs + [[r]]) == consumed + [r] && PrevOf(first, segs + [[r]]) == r
    ensures WellSplit(mode, forward0, first, segs + [[r]])
  {
    FlattenSnoc(segs, [r]);
    FlushKeepsWellSplit(mode, forward0, first, segs, r);
  }

  /** Without a reversal the row joins the segment in progress. */
  lemma ContinueKeepsInvariant(mode: Mode, forward0: bool, first: Sample, consumed: seq<Sample>, st: State, r: Sample)
    requires RunInvariant(mode, forward0, first, consumed, st)
    requires !Reverses(mode, st.forward, st.prev, r)
    ensures RunInvariant(mode, forward0, first, consumed + [r], Step(mode, st, r))
  {
    ExtendParts(mode, forward0, first, consumed, st.done, st.segment, r);
  }

  lemma ExtendParts(mode: Mode, forward0: bool, first: Sample, consumed: seq<Sample>, done: seq<seq<Sample>>, seg: seq<Sample>, r: Sample)
    requires Flatten(done + [seg]) == consumed && WellSplit(mode, forward0, first, done + [seg])
    requires !Reverses(mode, Dir(forward0, |done|), PrevOf(first, done + [seg]), r)
    ensures Flatten(done + [seg + [r]]) == consumed + [r] && PrevOf(first, done + [seg + [r]]) == r
    ensures WellSplit(mode, forward0, first, done + [seg + [r]])
  {
    FlattenExtend(first, done, seg, r);
    ExtendKeepsWellSplit(mode, forward0, first, done, seg, r);
  }

  lemma FlattenExtend(first: Sample, done: seq<seq<Sample>>, seg: seq<Sample>, r: Sample)
    ensures Flatten(done + [seg + [r]]) == Flatten(done + [seg]) + [r]
    ensures PrevOf(first, done + [seg + [r]]) == r
  {
    FlattenSnoc(done, seg);
    FlattenSnoc(done, seg + [r]);
  }

  lemma ExtendKeepsWellSplit(mode: Mode, forward0: bool, first: Sample, done: seq<seq<Sample>>, seg: seq<Sample>, r: Sample)
    requires WellSplit(mode, forward0, first, done + [seg])
    requires !Reverses(mode, Dir(forward0, |done|), PrevOf(first, done + [seg]), r)
    ensures WellSplit(mode, forward0, first, done + [seg + [r]])
  {
    InsideAfterExtend(mode, forward0, first, done, seg, r);
    StartsAfterExtend(mode, forward0, first, done, seg, r);
    FirstAfterExtend(mode, forward0, first, done, seg, r);
  }

  lemma FirstAfterExtend(mode: Mode, forward0: bool, first: Sample, done: seq<seq<Sample>>, seg: seq<Sample>, r: Sample)
    requires (done + [seg])[0] != [] ==> !Reverses(mode, forward0, first, (done + [seg])[0][0])
    requires !Reverses(mode, Dir(forward0, |done|), PrevOf(first, done + [seg]), r)
    ensures (done + [seg + [r]])[0] != [] ==> !Reverses(mode, forward0, first, (done + [seg + [r]])[0][0])
  {
    if done != [] {
      assert (done + [seg + [r]])[0] == (done + [seg])[0];
    } else if seg != [] {
      assert (seg + [r])[0] == seg[0];
    } else {
      assert done + [seg] == [[]];
      FlattenOne([]);
    }
  }

  lemma StepKeepsInvariant(mode: Mode, forward0: bool, first: Sample, consumed: seq<Sample>, st: State, r: Sample)
    requires RunInvariant(mode, forward0, first, consumed, st)
    ensures RunInvariant(mode, forward0, first, consumed + [r], Step(mode, st, r))
  {
    if Reverses(mode, st.forward, st.prev, r) {
      ReversalKeepsInvariant(mode, forward0, first, consumed, st, r);
    } else {
      ContinueKeepsInvariant(mode, forward0, first, consumed, st, r);
    }
  }

  lemma {:induction false} RunKeepsInvariant(mode: Mode, rows: seq<Sample>, n: nat)
    requires |rows| >= 2 && n <= |rows|
    ensures RunInvariant(mode, InitialForward(mode, rows[0], rows[1]), rows[0], rows[..n], Run(mode, Start(mode, rows), rows[..n]))
  {
    var f0 := InitialForward(mode, rows[0], rows[1]);
    if n == 0 {
      FlattenOne([]);
    } else {
      RunKeepsInvariant(mode, rows, n - 1);
      RunSnoc(mode, Start(mode, rows), rows, n - 1);
      PrefixSnoc(rows, n - 1);
      StepKeepsInvariant(mode, f0, rows[0], rows[..n - 1], Run(mode, Start(mode, rows), rows[..n - 1]), rows[n - 1]);
    }
  }

  /** Every row lands in exactly one segment, in input order, and the segments obey the
      reversal rule with alternating directions starting from `InitialForward`. */
  lemma SegmentsPartitionRows(mode: Mode, rows: seq<Sample>)
    requires |rows| >= 2
    ensures Flatten(Segments(mode, rows)) == rows
    ensures WellSplit(mode, InitialForward(mode, rows[0], rows[1]), rows[0], Segments(mode, rows))
  {
    RunKeepsInvariant(mode, rows, |rows|);
    assert rows[..|rows|] == rows;
  }

  /** Within a CV segment the potential never falls while forward and never rises while
      backward; equal neighbouring potentials therefore stay in one segment. */
  lemma CvSegmentsMonotone(rows: seq<Sample>, k: nat, j: nat)
    requires |rows| >= 2
    requires k < |Segments(CV, rows)| && 1 <= j < |Segments(CV, rows)[k]|
    ensures var seg := Segments(CV, rows)[k];
      if Dir(rows[1].potential > rows[0].potential, k) then seg[j - 1].potential <= seg[j].potential
      else seg[j - 1].potential >= seg[j].potential
  {
    SegmentsPartitionRows(CV, rows);
  }

  lemma FlattenLengthOne(segs: seq<seq<Sample>>)
    ensures |segs| == 1 ==> Flatten(segs) == segs[0]
  {
    if |segs| == 1 {
      assert segs == [segs[0]];
      FlattenOne(segs[0]);
    }
  }

  lemma FlattenFirst(segs: seq<seq<Sample>>)
    requires |segs| >= 1 && segs[0] != []
    ensures Flatten(segs) != [] && Flatten(segs)[0] == segs[0][0]
    decreases |segs|
  {
    if |segs| > 1 {
      FlattenFirst(segs[..|segs| - 1]);
      assert segs[..|segs| - 1][0] == segs[0];
    }
  }

  lemma FlattenOfEmptyFirst(segs: seq<seq<Sample>>)
    requires |segs| >= 2 && segs[0] == [] && segs[1] != []
    ensures Flatten(segs) != [] && Flatten(segs)[0] == segs[1][0]
    decreases |segs|
  {
    if |segs| > 2 {
      FlattenOfEmptyFirst(segs[..|segs| - 1]);
      assert segs[..|segs| - 1][1] == segs[1];
    } else {
      assert segs[..1] == [[]];
      FlattenOne([]);
    }
  }

  /** The first segment is empty exactly when row 0 already reverses the initial direction.
      That never happens for CV, and happens for GCD when row 0's current has the sign opposite
      to row 1's. */
  lemma FirstSegmentEmptyIff(mode: Mode, rows: seq<Sample>)
    requires |rows| >= 2
    ensures Segments(mode, rows)[0] == [] <==> Reverses(mode, InitialForward(mode, rows[0], rows[1]), rows[0], rows[0])
    ensures mode == CV ==> Segments(mode, rows)[0] != []
  {
    var segs := Segments(mode, rows);
    SegmentsPartitionRows(mode, rows);
    if segs[0] != [] {
      FlattenFirst(segs);
    } else {
      FlattenLengthOne(segs);
      FlattenOfEmptyFirst(segs);
      assert segs[..1] == [[]];
      FlattenOne([]);
    }
  }

  // ---------------------------------------------------------------------------------------
  // Writing the segments into one sheet

  /** The three columns of a segment, in the order the sheet holds them. */
  function Quantities(mode: Mode): (qs: seq<string>)
    ensures |qs| == 3 && qs[0] != qs[1] && qs[0] != qs[2] && qs[1] != qs[2]
  {
    match mode
    case CV => ["Time[s]", "Potential[V]", "Current[A]"]
    case GCD => ["Time[s]", "Current[A]", "Potential[V]"]
  }

  function Field(mode: Mode, c: nat, r: Sample): real
    requires c < 3
  {
    if c == 0 then r.time
    else if (c == 1) == (mode == CV) then r.potential
    else r.current
  }

  /** Column `c` of a segment, as the `pd.Series` built from the collected list. */
  function Column(mode: Mode, c: nat, seg: seq<Sample>): (col: seq<Num>)
    requires c < 3
    ensures |col| == |seg| && forall i :: 0 <= i < |seg| ==> col[i] == R(Field(mode, c, seg[i]))
  {
    seq(|seg|, i requires 0 <= i < |seg| => R(Field(mode, c, seg[i])))
  }

  function SegmentColumns(mode: Mode, seg: seq<Sample>): seq<seq<Num>> {
    [Column(mode, 0, seg), Column(mode, 1, seg), Column(mode, 2, seg)]
  }

  /** The columns of all the segments side by side, segment by segment. */
  function Columns(mode: Mode, segs: seq<seq<Sample>>): (cols: seq<seq<Num>>)
    ensures |cols| == 3 * |segs|
  {
    if segs == [] then [] else Columns(mode, segs[..|segs| - 1]) + SegmentColumns(mode, segs[|segs| - 1])
  }

  /** The column label: `Segment {n} Time[s]` for a segment flushed inside the loop,
      `Segment{n} Time[s]` (no space) for the last one. */
  function Label(n: nat, last: bool, q: string): string {
    (if last then "Segment" else "Segment ") + NatToString(n) + " " + q
  }

  function SegmentLabels(mode: Mode, n: nat, last: bool): seq<string> {
    var qs := Quantities(mode);
    [Label(n, last, qs[0]), Label(n, last, qs[1]), Label(n, last, qs[2])]
  }

  /** Labels of the segments 1..m flushed inside the loop. */
  function FlushedLabels(mode: Mode, m: nat): (names: seq<string>)
    ensures |names| == 3 * m
  {
    if m == 0 then [] else FlushedLabels(mode, m - 1) + SegmentLabels(mode, m, false)
  }

  /** The labels of all segments: one triple per segment, the last one without the space. */
  function SheetLabels(mode: Mode, count: nat): (names: seq<string>)
    requires count >= 1
    ensures |names| == 3 * count
  {
    FlushedLabels(mode, count - 1) + SegmentLabels(mode, count, true)
  }

  /** A label determines its segment number, its kind and its quantity. */
  lemma LabelInjective(n1: nat, last1: bool, q1: string, n2: nat, last2: bool, q2: string)
    requires Label(n1, last1, q1) == Label(n2, last2, q2)
    ensures n1 == n2 && last1 == last2 && q1 == q2
  {
    var d1, d2 := NatToString(n1), NatToString(n2);
    var l1, l2 := Label(n1, last1, q1), Label(n2, last2, q2);
    assert d1[0] in d1 && d2[0] in d2;
    if last1 {
      assert l1[7] == d1[0];
    } else {
      assert l1[7] == ' ';
    }
    if last2 {
      assert l2[7] == d2[0];
    } else {
      assert l2[7] == ' ';
    }
    var p := if last1 then "Segment" else "Segment ";
    assert l1 == p + (d1 + " " + q1) && l2 == p + (d2 + " " + q2);
    assert d1 + " " + q1 == l1[|p|..] == d2 + " " + q2;
    DigitsThenSpace(d1, q1, d2, q2);
    NatToStringInjective(n1, n2);
  }

  /** No label of segment `n` has been written when only segments before `n` were flushed, and
      no label of the last segment clashes with a flushed one. */
  lemma {:induction false} LabelNotYetWritten(mode: Mode, m: nat, n: nat, last: bool, q: string)
    requires n > m || last
    ensures Label(n, last, q) !in FlushedLabels(mode, m)
  {
    if m > 0 {
      LabelNotYetWritten(mode, m - 1, n, last, q);
      var qs := Quantities(mode);
      if Label(n, last, q) in SegmentLabels(mode, m, false) {
        var c :| 0 <= c < 3 && Label(n, last, q) == Label(m, false, qs[c]);
        LabelInjective(n, last, q, m, false, qs[c]);
      }
    }
  }

  /** The labels of the whole sheet are pairwise distinct, so no column overwrites another. */
  lemma {:induction false} SheetLabelsDistinct(mode: Mode, count: nat, i: nat, j: nat)
    requires count >= 1 && i < j < 3 * count
    ensures SheetLabels(mode, count)[i] != SheetLabels(mode, count)[j]
  {
    var names := SheetLabels(mode, count);
    var qs := Quantities(mode);
    if names[i] == names[j] {
      var ni, li, qi := i / 3 + 1, i / 3 + 1 == count, qs[i % 3];
      var nj, lj, qj := j / 3 + 1, j / 3 + 1 == count, qs[j % 3];
      LabelAt(mode, count, i);
      LabelAt(mode, count, j);
      LabelInjective(ni, li, qi, nj, lj, qj);
    }
  }

  /** Entry `i` of the sheet labels is the label of segment `i / 3 + 1`, quantity `i % 3`. */
  lemma {:induction false} LabelAt(mode: Mode, count: nat, i: nat)
    requires count >= 1 && i < 3 * count
    ensures SheetLabels(mode, count)[i] == Label(i / 3 + 1, i / 3 + 1 == count, Quantities(mode)[i % 3])
  {
    if i < 3 * (count - 1) {
      FlushedLabelAt(mode, count - 1, i);
    }
  }

  lemma {:induction false} FlushedLabelAt(mode: Mode, m: nat, i: nat)
    requires i < 3 * m
    ensures FlushedLabels(mode, m)[i] == Label(i / 3 + 1, false, Quantities(mode)[i % 3])
  {
    if i < 3 * (m - 1) {
      FlushedLabelAt(mode, m - 1, i);
    }
  }

  lemma AppendThree<T>(w: seq<T>, a: T, b: T, c: T)
    ensures w + [a, b, c] == w + [a] + [b] + [c]
  {
  }

  /** Two labels of one segment differ when their quantities do. */
  lemma LabelsDiffer(n: nat, last: bool, q1: string, q2: string)
    requires q1 != q2
    ensures Label(n, last, q1) != Label(n, last, q2)
  {
    var p := (if last then "Segment" else "Segment ") + NatToString(n) + " ";
    assert Label(n, last, q1)[|p|..] == q1 && Label(n, last, q2)[|p|..] == q2;
  }

  /** Each label of segment `n` is new when segments before `n` have been flushed and the
      segment's earlier labels written. */
  lemma SegmentLabelsFresh(mode: Mode, n: nat, last: bool)
    requires n >= 1
    ensures var ls := SegmentLabels(mode, n, last);
      && ls[0] !in FlushedLabels(mode, n - 1)
      && ls[1] !in FlushedLabels(mode, n - 1) + [ls[0]]
      && ls[2] !in FlushedLabels(mode, n - 1) + [ls[0]] + [ls[1]]
  {
    var qs := Quantities(mode);
    LabelNotYetWritten(mode, n - 1, n, last, qs[0]);
    LabelNotYetWritten(mode, n - 1, n, last, qs[1]);
    LabelNotYetWritten(mode, n - 1, n, last, qs[2]);
    LabelsDiffer(n, last, qs[0], qs[1]);
    LabelsDiffer(n, last, qs[0], qs[2]);
    LabelsDiffer(n, last, qs[1], qs[2]);
  }

  /** `segments_df[name] = pd.Series(column)` for a name not used yet. */
  method AddColumn(sheet: Frame, ghost names: seq<string>, name: string, column: seq<Num>, ghost written: seq<seq<Num>>)
    requires sheet.Holds(names, written) && name !in names
    modifies sheet
    ensures sheet.Holds(names + [name], written + [column])
  {
    AppendAligned(written, column);
    sheet.SetColumn(name, column);
  }

  /** `segments_df[label] = pd.Series(...)` for the three columns of segment `n`. */
  method WriteSegment(sheet: Frame, mode: Mode, n: nat, last: bool, seg: seq<Sample>, ghost written: seq<seq<Num>>)
    requires n >= 1 && sheet.Holds(FlushedLabels(mode, n - 1), written)
    modifies sheet
    ensures sheet.Holds(FlushedLabels(mode, n - 1) + SegmentLabels(mode, n, last), written + SegmentColumns(mode, seg))
  {
    var ls := SegmentLabels(mode, n, last);
    var c0, c1, c2 := Column(mode, 0, seg), Column(mode, 1, seg), Column(mode, 2, seg);
    SegmentLabelsFresh(mode, n, last);
    var names := FlushedLabels(mode, n - 1);
    AddColumn(sheet, names, ls[0], c0, written);
    AddColumn(sheet, names + [ls[0]], ls[1], c1, written + [c0]);
    AddColumn(sheet, names + [ls[0]] + [ls[1]], ls[2], c2, written + [c0] + [c1]);
    assert ls == [ls[0], ls[1], ls[2]];
    AppendThree(names, ls[0], ls[1], ls[2]);
    assert SegmentColumns(mode, seg) == [c0, c1, c2];
    AppendThree(written, c0, c1, c2);
  }

  lemma ColumnsSnoc(mode: Mode, segs: seq<seq<Sample>>, seg: seq<Sample>)
    ensures Columns(mode, segs + [seg]) == Columns(mode, segs) + SegmentColumns(mode, seg)
  {
    assert (segs + [seg])[..|segs|] == segs;
  }

  /** One pass of the loop of `CV_segment` / `GCD_segment` for row `r`: on a reversal the
      segment in progress is written to `sheet` under number `number`, the direction flips and
      `r` starts the next segment; otherwise `r` joins the segment in progress. */
  method Advance(sheet: Frame, mode: Mode, number: nat, segment: seq<Sample>, forward: bool, prev: Sample, r: Sample, ghost done: seq<seq<Sample>>)
    returns (number': nat, segment': seq<Sample>, forward': bool, ghost done': seq<seq<Sample>>)
    requires number == |done| + 1 && sheet.Holds(FlushedLabels(mode, |done|), Columns(mode, done))
    modifies sheet
    ensures State(done', segment', forward', r) == Step(mode, State(done, segment, forward, prev), r)
    ensures number' == |done'| + 1
    ensures sheet.Holds(FlushedLabels(mode, |done'|), Columns(mode, done'))
  {
    if Reverses(mode, forward, prev, r) {
      WriteSegment(sheet, mode, number, false, segment, Columns(mode, done));
      ColumnsSnoc(mode, done, segment);
      number', segment', forward', done' := number + 1, [r], !forward, done + [segment];
    } else {
      number', segment', forward', done' := number, segment + [r], forward, done;
    }
  }

  /** The loop of `CV_segment` / `GCD_segment` over all rows. Returns the number and the rows
      of the segment still in progress when the rows run out. */
  method WriteFinishedSegments(sheet: Frame, mode: Mode, rows: seq<Sample>) returns (number: nat, segment: seq<Sample>, ghost done: seq<seq<Sample>>)
    requires |rows| >= 2 && sheet.Holds([], [])
    modifies sheet
    ensures var st := Run(mode, Start(mode, rows), rows); st.done == done && st.segment == segment
    ensures number == |done| + 1
    ensures sheet.Holds(FlushedLabels(mode, |done|), Columns(mode, done))
  {
    number := 1;
    var prev := rows[0];
    var forward := InitialForward(mode, rows[0], rows[1]);
    segment := [];
    done := [];
    for i := 0 to |rows|
      invariant State(done, segment, forward, prev) == Run(mode, Start(mode, rows), rows[..i])
      invariant number == |done| + 1
      invariant sheet.Holds(FlushedLabels(mode, |done|), Columns(mode, done))
    {
      RunSnoc(mode, Start(mode, rows), rows, i);
      number, segment, forward, done := Advance(sheet, mode, number, segment, forward, prev, rows[i], done);
      prev := rows[i];
    }
    assert rows[..|rows|] == rows;
  }

  /** `CV_segment` / `GCD_segment`: split the rows and write every segment's columns side by
      side into a new frame. Reading row 0 or row 1 of a sheet that lacks it raises KeyError. */
  method SegmentSheet(mode: Mode, rows: seq<Sample>) returns (r: Result<Frame>)
    ensures |rows| == 0 ==> r == Err(KeyError("0"))
    ensures |rows| == 1 ==> r == Err(KeyError("1"))
    ensures |rows| >= 2 ==> r.Ok? && fresh(r.value)
    ensures |rows| >= 2 ==> (
      var segs := Segments(mode, rows);
      r.Ok? && r.value.Holds(SheetLabels(mode, |segs|), Columns(mode, segs)))
  {
    if |rows| == 0 {
      return Err(KeyError("0"));
    }
    if |rows| == 1 {
      return Err(KeyError("1"));
    }
    var sheet := new Frame([], [], 0);
    ghost var done;
    var number, segment;
    number, segment, done := WriteFinishedSegments(sheet, mode, rows);
    WriteSegment(sheet, mode, number, true, segment, Columns(mode, done));
    ColumnsSnoc(mode, done, segment);
    return Ok(sheet);
  }

  /** Columns `3k`, `3k+1`, `3k+2` of the side-by-side layout belong to segment `k`. */
  lemma {:induction false} ColumnsAt(mode: Mode, segs: seq<seq<Sample>>, k: nat, c: nat)
    requires k < |segs| && c < 3
    ensures Columns(mode, segs)[3 * k + c] == Column(mode, c, segs[k])
  {
    var front := segs[..|segs| - 1];
    if k < |front| {
      ColumnsAt(mode, front, k, c);
      assert front[k] == segs[k];
    }
  }

  lemma SegmentColumnsRows(mode: Mode, seg: seq<Sample>)
    ensures AdoptedRows(SegmentColumns(mode, seg)) == |seg|
  {
    var sc := SegmentColumns(mode, seg);
    assert sc[..1][..0] == [];
    assert AdoptedRows(sc[..1]) == |seg|;
    assert sc[..2][..1] == sc[..1];
    assert AdoptedRows(sc[..2]) == |seg|;
  }

  lemma EmptySegmentsAdoptNoRows(mode: Mode, segs: seq<seq<Sample>>)
    requires forall i :: 0 <= i < |segs| ==> segs[i] == []
    ensures AdoptedRows(Columns(mode, segs)) == 0
  {
    forall i | 0 <= i < |Columns(mode, segs)| ensures Columns(mode, segs)[i] == [] {
      ColumnsAt(mode, segs, i / 3, i % 3);
    }
    AdoptedRowsIsFirstNonEmpty(Columns(mode, segs));
  }

  lemma FrontAgrees<T>(s: seq<seq<T>>, j: nat)
    requires j < |s| - 1 && forall i :: 0 <= i < j ==> s[i] == []
    ensures var front := s[..|s| - 1]; front[j] == s[j] && forall i :: 0 <= i < j ==> front[i] == []
  {
  }

  /** The sheet takes its row count from the first non-empty segment. */
  lemma {:induction false} SheetRowsFromFirstNonEmpty(mode: Mode, segs: seq<seq<Sample>>, j: nat)
    requires j < |segs| && segs[j] != [] && forall i :: 0 <= i < j ==> segs[i] == []
    ensures AdoptedRows(Columns(mode, segs)) == |segs[j]|
  {
    var front := segs[..|segs| - 1];
    var last := segs[|segs| - 1];
    AdoptedRowsAppend(Columns(mode, front), SegmentColumns(mode, last));
    if j < |front| {
      FrontAgrees(segs, j);
      SheetRowsFromFirstNonEmpty(mode, front, j);
    } else {
      SegmentColumnsRows(mode, last);
      EmptySegmentsAdoptNoRows(mode, front);
    }
  }

  /** In CV mode the first segment is never empty, so the sheet has exactly as many rows as
      the first segment; every later segment is cut to that length or padded with NaN. */
  lemma CvSheetRows(rows: seq<Sample>, k: nat, c: nat)
    requires |rows| >= 2
    requires k < |Segments(CV, rows)| && c < 3
    ensures var segs := Segments(CV, rows);
      && AdoptedRows(Columns(CV, segs)) == |segs[0]|
      && AlignAll(Columns(CV, segs), |segs[0]|)[3 * k + c] == Align(Column(CV, c, segs[k]), |segs[0]|)
  {
    var segs := Segments(CV, rows);
    FirstSegmentEmptyIff(CV, rows);
    SheetRowsFromFirstNonEmpty(CV, segs, 0);
    ColumnsAt(CV, segs, k, c);
  }

  /** Five CV rows with potentials 0, 1, 0, -1, -2. */
  function ExampleRows(): seq<Sample> {
    [Sample(0.0, 0.0, 0.0), Sample(1.0, 1.0, 0.0), Sample(2.0, 0.0, 0.0),
     Sample(3.0, -1.0, 0.0), Sample(4.0, -2.0, 0.0)]
  }

  /** The first two example rows rise, so they form the forward segment in progress. */
  lemma ExampleRunRising()
    ensures var rows := ExampleRows();
      Run(CV, Start(CV, rows), rows[..2]) == State([], rows[..2], true, rows[1])
  {
    var rows := ExampleRows();
    var start := Start(CV, rows);
    assert rows[..0] == [];
    RunSnoc(CV, start, rows, 0);
    assert Run(CV, start, rows[..1]) == State([], [rows[0]], true, rows[0]);
    RunSnoc(CV, start, rows, 1);
  }

  /** Row 2 falls, which flushes the rising segment; rows 3 and 4 keep falling. */
  lemma ExampleRunFalling()
    ensures var rows := ExampleRows();
      Run(CV, Start(CV, rows), rows) == State([rows[..2]], rows[2..], false, rows[4])
  {
    var rows := ExampleRows();
    var start := Start(CV, rows);
    ExampleRunRising();
    RunSnoc(CV, start, rows, 2);
    assert Run(CV, start, rows[..3]) == State([rows[..2]], [rows[2]], false, rows[2]);
    RunSnoc(CV, start, rows, 3);
    assert Run(CV, start, rows[..4]) == State([rows[..2]], rows[2..4], false, rows[3]);
    RunSnoc(CV, start, rows, 4);
    assert rows[..5] == rows;
  }

  /** As written: the example rows split into a forward segment of two rows and a backward
      segment of three, but the sheet keeps two rows, so the last potential, -2, is lost. */
  lemma TruncatedSegmentExample()
    ensures var rows := ExampleRows();
      var segs := Segments(CV, rows);
      && segs == [rows[..2], rows[2..]]
      && AdoptedRows(Columns(CV, segs)) == 2
      && AlignAll(Columns(CV, segs), 2)[4] == [R(0.0), R(-1.0)]
  {
    var rows := ExampleRows();
    ExampleRunFalling();
    var segs := Segments(CV, rows);
    assert segs == [rows[..2], rows[2..]];
    SheetRowsFromFirstNonEmpty(CV, segs, 0);
    ExampleFallingPotential(segs);
  }

  /** The second segment's potential column, cut to two rows. */
  lemma ExampleFallingPotential(segs: seq<seq<Sample>>)
    requires segs == [ExampleRows()[..2], ExampleRows()[2..]]
    ensures AlignAll(Columns(CV, segs), 2)[4] == [R(0.0), R(-1.0)]
  {
    ColumnsAt(CV, segs, 1, 1);
    var col := Column(CV, 1, ExampleRows()[2..]);
    assert col[0] == R(0.0) && col[1] == R(-1.0);
  }

  /** The longest segment's length. */
  function Longest(segs: seq<seq<Sample>>): (n: nat)
    ensures forall k :: 0 <= k < |segs| ==> |segs[k]| <= n
    ensures segs != [] ==> exists k :: 0 <= k < |segs| && n == |segs[k]|
  {
    if segs == [] then 0
    else
      var front := segs[..|segs| - 1];
      assert forall k :: 0 <= k < |front| ==> front[k] == segs[k];
      var m := Longest(front);
      if m >= |segs[|segs| - 1]| then m else |segs[|segs| - 1]|
  }

  /** Corrected layout: every column padded with NaN to the longest segment. */
  function PaddedSheet(mode: Mode, segs: seq<seq<Sample>>): seq<seq<Num>> {
    AlignAll(Columns(mode, segs), Longest(segs))
  }

  /** With padding to the longest segment no row is lost: column `3k+c` holds every value of
      segment `k` in order and NaN after it. */
  lemma PaddedSheetKeepsEveryRow(mode: Mode, segs: seq<seq<Sample>>, k: nat, c: nat)
    requires k < |segs| && c < 3
    ensures var col := PaddedSheet(mode, segs)[3 * k + c];
      && |col| == Longest(segs) >= |segs[k]|
      && (forall i :: 0 <= i < |segs[k]| ==> col[i] == R(Field(mode, c, segs[k][i])))
      && (forall i :: |segs[k]| <= i < |col| ==> col[i] == NaN)
  {
    ColumnsAt(mode, segs, k, c);
  }

  /** What `split_segment` writes for one workbook: the output file, the segment sheet (named
      after the mode), if any, and the sheets copied unchanged. */
  datatype Output = Output(file: string, segmentSheet: Option<(string, Mode)>, copied: seq<string>)

  /** The per-file dispatch of `split_segment`: the first sheet is split as CV when its name
      contains "CV", else as GCD when it contains "GCD", else not at all; every other sheet is
      copied. A workbook without a "parameter" sheet fails when that sheet is read. */
  function SplitPlan(fileName: string, sheetNames: seq<string>): (r: Result<Output>)
    ensures sheetNames == [] ==> r == Err(IndexError)
    ensures sheetNames != [] ==> (r.Ok? <==> "parameter" in sheetNames)
    ensures sheetNames != [] && "parameter" !in sheetNames ==> r == Err(ValueError)
    ensures r.Ok? ==> r.value.file == "segment_" + fileName && r.value.copied == sheetNames[1..]
    ensures r.Ok? ==> (r.value.segmentSheet == Some(("CV_segment", CV)) <==> Contains(sheetNames[0], "CV"))
    ensures r.Ok? ==> (r.value.segmentSheet == Some(("GCD_segment", GCD)) <==>
      !Contains(sheetNames[0], "CV") && Contains(sheetNames[0], "GCD"))
    ensures r.Ok? ==> (r.value.segmentSheet.None? <==>
      !Contains(sheetNames[0], "CV") && !Contains(sheetNames[0], "GCD"))
  {
    if sheetNames == [] then Err(IndexError)
    else if "parameter" !in sheetNames then Err(ValueError)
    else
      var first := sheetNames[0];
      var sheet := if Contains(first, "CV") then Some(("CV_segment", CV))
        else if Contains(first, "GCD") then Some(("GCD_segment", GCD))
        else None;
      Ok(Output("segment_" + fileName, sheet, sheetNames[1..]))
  }
}
