/** The coffee-ring page: radial profiles of an RGB image around a ring centre, the
    millimetre-per-pixel scale from two marked points, and the colour window used to find the
    ring. The image is a `height x width x channels` array of byte values read as
    `img[y, x, channel]`; `cos`/`sin` of whole degrees are supplied by the caller, so the proofs
    are about the sampling loops, not about trigonometry. */
module CoffeeRing {
  import opened Base
  import opened Text
  import Stats

  /** A sample offset of less than one pixel from a whole centre coordinate `c` moves toward
      zero only: it lands on `c - 1` when `c >= 1` and the offset is negative, on `c + 1` when
      `c <= -1` and the offset is positive, and on `c` itself otherwise (so a centre on row or
      column 0 keeps small negative offsets inside the image). */
  lemma TruncNearWhole(c: int, off: real)
    requires -1.0 < off < 1.0
    ensures Trunc(c as real + off) ==
      if c >= 1 && off < 0.0 then c - 1 else if c <= -1 && off > 0.0 then c + 1 else c
  {
    var v := c as real + off;
    var n := Trunc(v);
    if c >= 1 && off < 0.0 {
      assert v >= 0.0;
    } else if c <= -1 && off > 0.0 {
      assert v < 0.0;
    } else if v >= 0.0 {
      assert c >= 0;
    } else {
      assert c <= 0;
    }
  }

  /** `(int(cx + i*cos), int(cy + i*sin))`: the point at distance `i` from the centre along a
      direction with cosine `c` and sine `s`, as `(x, y)`. */
  function SamplePoint(cx: int, cy: int, i: int, c: real, s: real): (int, int) {
    (Trunc(cx as real + i as real * c), Trunc(cy as real + i as real * s))
  }

  /** Distance 0 is the centre itself, whatever the direction. */
  lemma SamplePointAtCentre(cx: int, cy: int, c: real, s: real)
    ensures SamplePoint(cx, cy, 0, c, s) == (cx, cy)
  {
    TruncOfInt(cx);
    TruncOfInt(cy);
  }

  /** The loop's guard: `x < 0 or y < 0 or x >= img.shape[1] or y >= img.shape[0]` breaks. */
  predicate InBounds(height: int, width: int, p: (int, int)) {
    0 <= p.0 < width && 0 <= p.1 < height
  }

  /** The 360 points of ring `i`, at angles 0, 1, ..., 359 degrees in that order. */
  function RingPoints(cx: int, cy: int, i: int, cosDeg: int -> real, sinDeg: int -> real): (pts: seq<(int, int)>)
    ensures |pts| == 360
  {
    seq(360, j => SamplePoint(cx, cy, i, cosDeg(j), sinDeg(j)))
  }

  /** The points at distances 0, 1, ..., `radius` along one direction. */
  function DirectionPoints(cx: int, cy: int, radius: nat, c: real, s: real): (pts: seq<(int, int)>)
    ensures |pts| == radius + 1
  {
    seq(radius + 1, i => SamplePoint(cx, cy, i, c, s))
  }

  /** How many points come before the first one outside the image. */
  function InBoundsRun(height: int, width: int, pts: seq<(int, int)>): (n: nat)
    ensures n <= |pts|
    ensures forall k :: 0 <= k < n ==> InBounds(height, width, pts[k])
    ensures n < |pts| ==> !InBounds(height, width, pts[n])
  {
    if pts == [] || !InBounds(height, width, pts[0]) then 0
    else 1 + InBoundsRun(height, width, pts[1..])
  }

  /** The pixel values `img[y, x, ch]` at points known to be inside the image. */
  function Pixels(img: array3<int>, ch: nat, pts: seq<(int, int)>): (vs: seq<int>)
    requires ch < img.Length2
    requires forall k :: 0 <= k < |pts| ==> InBounds(img.Length0, img.Length1, pts[k])
    reads img
  {
    seq(|pts|, k requires 0 <= k < |pts| && InBounds(img.Length0, img.Length1, pts[k]) reads img =>
      img[pts[k].1, pts[k].0, ch])
  }

  /** The values a sampling loop collects: those at the points before the first point outside
      the image; later points are never read. */
  function Samples(img: array3<int>, ch: nat, pts: seq<(int, int)>): (vs: seq<int>)
    requires ch < img.Length2
    reads img
    ensures |vs| <= |pts|
    ensures forall k :: 0 <= k < |vs| ==>
      InBounds(img.Length0, img.Length1, pts[k]) && vs[k] == img[pts[k].1, pts[k].0, ch]
    ensures |vs| < |pts| ==> !InBounds(img.Length0, img.Length1, pts[|vs|])
  {
    var n := InBoundsRun(img.Length0, img.Length1, pts);
    Pixels(img, ch, pts[..n])
  }

  /** The values of ring `i` in channel `ch`. */
  function RingSamples(img: array3<int>, ch: nat, cx: int, cy: int, i: int, cosDeg: int -> real, sinDeg: int -> real): seq<int>
    requires ch < img.Length2
    reads img
  {
    Samples(img, ch, RingPoints(cx, cy, i, cosDeg, sinDeg))
  }

  /** The inner loop of `radial_profile_mean_variance`: angles 0..359 in order, stopping at the
      first point outside the image. */
  method SampleRing(img: array3<int>, ch: nat, cx: int, cy: int, i: int, cosDeg: int -> real, sinDeg: int -> real)
    returns (values: seq<int>)
    requires ch < img.Length2
    ensures values == RingSamples(img, ch, cx, cy, i, cosDeg, sinDeg)
  {
    ghost var pts := RingPoints(cx, cy, i, cosDeg, sinDeg);
    values := [];
    var j := 0;
    while j < 360
      invariant 0 <= j <= 360 && |values| == j
      invariant forall k :: 0 <= k < j ==> InBounds(img.Length0, img.Length1, pts[k])
      invariant forall k :: 0 <= k < j ==> values[k] == img[pts[k].1, pts[k].0, ch]
    {
      var x := Trunc(cx as real + i as real * cosDeg(j));
      var y := Trunc(cy as real + i as real * sinDeg(j));
      assert pts[j] == (x, y);
      if x < 0 || y < 0 || x >= img.Length1 || y >= img.Length0 {
        break;
      }
      values := values + [img[y, x, ch]];
      j := j + 1;
    }
    SamplesAreLoopResult(img, ch, pts, values);
  }

  /** A sampling loop that kept exactly the in-bounds prefix computed `Samples`. */
  lemma SamplesAreLoopResult(img: array3<int>, ch: nat, pts: seq<(int, int)>, values: seq<int>)
    requires ch < img.Length2 && |values| <= |pts|
    requires forall k :: 0 <= k < |values| ==>
      InBounds(img.Length0, img.Length1, pts[k]) && values[k] == img[pts[k].1, pts[k].0, ch]
    requires |values| < |pts| ==> !InBounds(img.Length0, img.Length1, pts[|values|])
    ensures values == Samples(img, ch, pts)
  {
    var n := InBoundsRun(img.Length0, img.Length1, pts);
    assert n == |values|;
  }

  /** `RadialProfileCalculator.radial_profile_mean_variance`: for every ring `i = 0..newRadius`
      the mean and the population variance of the ring's samples (NaN for an empty ring). */
  method RadialProfileMeanVariance(img: array3<int>, ch: nat, cx: int, cy: int, newRadius: nat,
                                   cosDeg: int -> real, sinDeg: int -> real)
    returns (means: seq<Num>, variances: seq<Num>)
    requires ch < img.Length2
    ensures |means| == newRadius + 1 && |variances| == newRadius + 1
    ensures forall i :: 0 <= i <= newRadius ==>
      means[i] == Stats.Mean(RingSamples(img, ch, cx, cy, i, cosDeg, sinDeg)) &&
      variances[i] == Stats.Variance(RingSamples(img, ch, cx, cy, i, cosDeg, sinDeg))
  {
    means, variances := [], [];
    var i := 0;
    while i < newRadius + 1
      invariant 0 <= i <= newRadius + 1 && |means| == i && |variances| == i
      invariant forall r :: 0 <= r < i ==>
        means[r] == Stats.Mean(RingSamples(img, ch, cx, cy, r, cosDeg, sinDeg)) &&
        variances[r] == Stats.Variance(RingSamples(img, ch, cx, cy, r, cosDeg, sinDeg))
    {
      var ring := SampleRing(img, ch, cx, cy, i, cosDeg, sinDeg);
      means := means + [Stats.Mean(ring)];
      variances := variances + [Stats.Variance(ring)];
      i := i + 1;
    }
  }

  /** Ring 0 around a centre inside the image reads the centre pixel 360 times: its mean is
      that pixel and its variance is 0. */
  lemma RingZeroIsCentre(img: array3<int>, ch: nat, cx: int, cy: int, cosDeg: int -> real, sinDeg: int -> real)
    requires ch < img.Length2 && InBounds(img.Length0, img.Length1, (cx, cy))
    ensures var vs := RingSamples(img, ch, cx, cy, 0, cosDeg, sinDeg);
      |vs| == 360 && forall j :: 0 <= j < 360 ==> vs[j] == img[cy, cx, ch]
    ensures Stats.Mean(RingSamples(img, ch, cx, cy, 0, cosDeg, sinDeg)) == R(img[cy, cx, ch] as real)
    ensures Stats.Variance(RingSamples(img, ch, cx, cy, 0, cosDeg, sinDeg)) == R(0.0)
  {
    var pts := RingPoints(cx, cy, 0, cosDeg, sinDeg);
    forall j | 0 <= j < 360 ensures pts[j] == (cx, cy) {
      SamplePointAtCentre(cx, cy, cosDeg(j), sinDeg(j));
    }
    var vs := RingSamples(img, ch, cx, cy, 0, cosDeg, sinDeg);
    assert |vs| == 360;
    Stats.VarianceZeroIffConstant(vs);
  }

  /** When the angle-0 point of ring `i` is already outside the image, the ring has no samples
      and NumPy reports NaN for both statistics. */
  lemma RingOutsideFromAngleZero(img: array3<int>, ch: nat, cx: int, cy: int, i: int, cosDeg: int -> real, sinDeg: int -> real)
    requires ch < img.Length2
    requires !InBounds(img.Length0, img.Length1, SamplePoint(cx, cy, i, cosDeg(0), sinDeg(0)))
    ensures RingSamples(img, ch, cx, cy, i, cosDeg, sinDeg) == []
    ensures Stats.Mean(RingSamples(img, ch, cx, cy, i, cosDeg, sinDeg)) == NaN
    ensures Stats.Variance(RingSamples(img, ch, cx, cy, i, cosDeg, sinDeg)) == NaN
  {
    var pts := RingPoints(cx, cy, i, cosDeg, sinDeg);
    assert pts[0] == SamplePoint(cx, cy, i, cosDeg(0), sinDeg(0));
  }

  /** `RadialProfileCalculator.radial_profile_direction`: the values at distances
      `0..newRadius` along one direction, up to the first point outside the image. */
  method RadialProfileDirection(img: array3<int>, ch: nat, cx: int, cy: int, newRadius: nat, c: real, s: real)
    returns (values: seq<int>)
    requires ch < img.Length2
    ensures values == Samples(img, ch, DirectionPoints(cx, cy, newRadius, c, s))
    ensures |values| <= newRadius + 1
  {
    ghost var pts := DirectionPoints(cx, cy, newRadius, c, s);
    values := [];
    var i := 0;
    while i < newRadius + 1
      invariant 0 <= i <= newRadius + 1 && |values| == i
      invariant forall k :: 0 <= k < i ==> InBounds(img.Length0, img.Length1, pts[k])
      invariant forall k :: 0 <= k < i ==> values[k] == img[pts[k].1, pts[k].0, ch]
    {
      var x := Trunc(cx as real + i as real * c);
      var y := Trunc(cy as real + i as real * s);
      assert pts[i] == (x, y);
      if x < 0 || y < 0 || x >= img.Length1 || y >= img.Length0 {
        break;
      }
      values := values + [img[y, x, ch]];
      i := i + 1;
    }
    SamplesAreLoopResult(img, ch, pts, values);
  }

  /** `(x2 - x1)**2 + (y2 - y1)**2` for two `(x, y)` points. */
  function SquaredDistance(p1: (int, int), p2: (int, int)): (d: nat)
    ensures d == 0 <==> p1 == p2
  {
    var dx, dy := p2.0 - p1.0, p2.1 - p1.1;
    SquareOfInt(dx);
    SquareOfInt(dy);
    dx * dx + dy * dy
  }

  lemma SquareOfInt(d: int)
    ensures d * d >= 0 && (d * d == 0 <==> d == 0)
  {
    if d > 0 {
      assert d * d >= d;
    } else if d < 0 {
      assert d * d == (-d) * (-d) >= -d;
    }
  }

  /** The scale of `actual_size_mapping`: `distance / sqrt(squared distance)` millimetres per
      pixel, computed only when the two points differ. `sqrt` is supplied by the caller; it
      only has to be positive on positive arguments. */
  function Scale(p1: (int, int), p2: (int, int), distance: real, sqrt: nat -> real): (r: Option<real>)
    requires forall n: nat :: n > 0 ==> sqrt(n) > 0.0
    ensures r.Some? <==> p1 != p2
  {
    if p1.0 != p2.0 || p1.1 != p2.1 then Some(distance / sqrt(SquaredDistance(p1, p2))) else None
  }

  /** The scale does not depend on which point was entered first, and with a true square root
      it turns the pixel distance back into the given distance. */
  lemma ScaleSymmetric(p1: (int, int), p2: (int, int), distance: real, sqrt: nat -> real)
    requires forall n: nat :: n > 0 ==> sqrt(n) > 0.0
    ensures Scale(p1, p2, distance, sqrt) == Scale(p2, p1, distance, sqrt)
    ensures p1 != p2 ==> Scale(p1, p2, distance, sqrt).value * sqrt(SquaredDistance(p1, p2)) == distance
  {
    var dx, dy := p2.0 - p1.0, p2.1 - p1.1;
    assert (-dx) * (-dx) == dx * dx && (-dy) * (-dy) == dy * dy;
    assert SquaredDistance(p1, p2) == SquaredDistance(p2, p1);
  }

  /** The points that get a marker on the copy of the image: those inside it, in input order.
      The input image itself is never written. */
  function MarkedPoints(height: int, width: int, p1: (int, int), p2: (int, int)): (ps: seq<(int, int)>)
    ensures forall p :: p in ps <==> (p == p1 || p == p2) && InBounds(height, width, p)
    ensures |ps| <= 2
  {
    (if InBounds(height, width, p1) then [p1] else []) + (if InBounds(height, width, p2) then [p2] else [])
  }

  /** `np.array([c - t for c in color])` and `[c + t ...]` on the uint8 pixel under the chosen
      centre, as NumPy 2 computes them: under its promotion rules (NEP 50) the uint8 scalar
      minus a Python int stays uint8, which wraps modulo 256. */
  function ThresholdBounds(color: seq<int>, t: int): (b: (seq<int>, seq<int>))
    ensures |b.0| == |color| && |b.1| == |color|
    ensures forall k :: 0 <= k < |color| ==> 0 <= b.0[k] < 256 && 0 <= b.1[k] < 256
  {
    (seq(|color|, k requires 0 <= k < |color| => (color[k] - t) % 256),
     seq(|color|, k requires 0 <= k < |color| => (color[k] + t) % 256))
  }

  /** `cv2.inRange` for one pixel: every channel lies between its bounds. */
  predicate InRange(p: seq<int>, lower: seq<int>, upper: seq<int>)
    requires |lower| == |p| && |upper| == |p|
  {
    forall k :: 0 <= k < |p| ==> lower[k] <= p[k] <= upper[k]
  }

  predicate IsBytes(p: seq<int>) {
    forall k :: 0 <= k < |p| ==> 0 <= p[k] < 256
  }

  /** The bounds as the threshold slider is meant to work: clamped to the byte range. */
  function ClampedThresholdBounds(color: seq<int>, t: int): (b: (seq<int>, seq<int>))
    ensures |b.0| == |color| && |b.1| == |color|
  {
    (seq(|color|, k requires 0 <= k < |color| => if color[k] - t < 0 then 0 else color[k] - t),
     seq(|color|, k requires 0 <= k < |color| => if color[k] + t > 255 then 255 else color[k] + t))
  }

  /** With clamped bounds a byte pixel is in the mask exactly when every channel is within `t`
      of the centre colour, so the centre pixel is always in its own mask. */
  lemma ClampedMaskIsWindow(color: seq<int>, t: int, p: seq<int>)
    requires IsBytes(color) && IsBytes(p) && |p| == |color|
    ensures var b := ClampedThresholdBounds(color, t);
      InRange(p, b.0, b.1) <==> forall k :: 0 <= k < |p| ==> color[k] - t <= p[k] <= color[k] + t
    ensures t >= 0 ==> var b := ClampedThresholdBounds(color, t); InRange(color, b.0, b.1)
  {
  }

  /** The same bounds as NumPy 1.x computes them: the uint8 scalar and the Python int promote
      to int64, so `5 - 20` is -15 and nothing wraps. */
  function ExactThresholdBounds(color: seq<int>, t: int): (b: (seq<int>, seq<int>))
    ensures |b.0| == |color| && |b.1| == |color|
    ensures forall k :: 0 <= k < |color| ==> b.0[k] + t == color[k] && b.1[k] - t == color[k]
  {
    (seq(|color|, k requires 0 <= k < |color| => color[k] - t),
     seq(|color|, k requires 0 <= k < |color| => color[k] + t))
  }

  /** `cv2.inRange` converts its bounds to the image's 8-bit depth with saturation: every
      bound lands in 0..255, and a bound already in that range is kept. */
  function Saturate(s: seq<int>): (r: seq<int>)
    ensures |r| == |s| && IsBytes(r)
    ensures forall k :: 0 <= k < |s| && 0 <= s[k] < 256 ==> r[k] == s[k]
    ensures forall k :: 0 <= k < |s| && s[k] < 0 ==> r[k] == 0
    ensures forall k :: 0 <= k < |s| && s[k] > 255 ==> r[k] == 255
  {
    seq(|s|, k requires 0 <= k < |s| => if s[k] < 0 then 0 else if s[k] > 255 then 255 else s[k])
  }

  /** Under NumPy 1.x the mask `cv2.inRange` builds is the clamped window: the saturated exact
      bounds are the clamped bounds, so the chosen colour is always in its own mask. */
  lemma ExactBoundsSaturateToClamped(color: seq<int>, t: int)
    requires IsBytes(color) && t >= 0
    ensures var e := ExactThresholdBounds(color, t);
      (Saturate(e.0), Saturate(e.1)) == ClampedThresholdBounds(color, t)
  {
    var e, c := ExactThresholdBounds(color, t), ClampedThresholdBounds(color, t);
    assert Saturate(e.0) == c.0 && Saturate(e.1) == c.1 by {
      forall k | 0 <= k < |color| ensures Saturate(e.0)[k] == c.0[k] && Saturate(e.1)[k] == c.1[k] {
        assert color[k] - t <= 255 && color[k] + t >= 0;
      }
    }
  }

  /** The wrapped bounds agree with the clamped ones while every channel stays `t` away from 0
      and 255. */
  lemma WrappedBoundsAwayFromEnds(color: seq<int>, t: int)
    requires 0 <= t && forall k :: 0 <= k < |color| ==> t <= color[k] <= 255 - t
    ensures ThresholdBounds(color, t) == ClampedThresholdBounds(color, t)
  {
    var w, c := ThresholdBounds(color, t), ClampedThresholdBounds(color, t);
    assert w.0 == c.0 && w.1 == c.1 by {
      forall k | 0 <= k < |color| ensures w.0[k] == c.0[k] && w.1[k] == c.1[k] {
        assert 0 <= color[k] - t < 256 && 0 <= color[k] + t < 256;
      }
    }
  }

  /** Under NumPy 2, with the wrapped bounds a dark centre colour is not in its own mask:
      channel value 5 with threshold 20 gives the lower bound 241. */
  lemma WrappedBoundsDropTheCentre()
    ensures var b := ThresholdBounds([5, 100, 100], 20); b.0[0] == 241 && !InRange([5, 100, 100], b.0, b.1)
  {
    var b := ThresholdBounds([5, 100, 100], 20);
    assert b.0[0] == (5 - 20) % 256 == 241;
  }

  /** The first sheet of the saved workbook: one row per radius, the three channels' means and
      variances side by side. */
  datatype ProfileRow = ProfileRow(radius: int, rMean: Num, rVar: Num, gMean: Num, gVar: Num, bMean: Num, bVar: Num)

  /** The 'circle' sheet: `center(x, y)` down the rows, radius and scale repeated. */
  datatype CircleRow = CircleRow(center: int, radius: int, scale: Option<real>)

  /** The per-channel assembly of `get_radial_profile_data`: channels 0, 1 and 2, radii
      `0..radius`, and the names derived from the image's file name. */
  method RadialProfileData(img: array3<int>, fileName: string, scale: Option<real>, cx: int, cy: int, radius: nat,
                           cosDeg: int -> real, sinDeg: int -> real)
    returns (rows: seq<ProfileRow>, circle: seq<CircleRow>, pngName: string, xlsxName: string)
    requires img.Length2 >= 3
    ensures |rows| == radius + 1
    ensures forall i :: 0 <= i <= radius ==> rows[i].radius == i
    ensures forall i :: 0 <= i <= radius ==>
      rows[i].rMean == Stats.Mean(RingSamples(img, 0, cx, cy, i, cosDeg, sinDeg)) &&
      rows[i].rVar == Stats.Variance(RingSamples(img, 0, cx, cy, i, cosDeg, sinDeg)) &&
      rows[i].gMean == Stats.Mean(RingSamples(img, 1, cx, cy, i, cosDeg, sinDeg)) &&
      rows[i].gVar == Stats.Variance(RingSamples(img, 1, cx, cy, i, cosDeg, sinDeg)) &&
      rows[i].bMean == Stats.Mean(RingSamples(img, 2, cx, cy, i, cosDeg, sinDeg)) &&
      rows[i].bVar == Stats.Variance(RingSamples(img, 2, cx, cy, i, cosDeg, sinDeg))
    ensures circle == [CircleRow(cx, radius, scale), CircleRow(cy, radius, scale)]
    ensures pngName == DropLast(fileName, 4) + "_RadialProfile.png"
    ensures xlsxName == DropLast(fileName, 4) + "_RadialProfile.xlsx"
  {
    var rm, rv := RadialProfileMeanVariance(img, 0, cx, cy, radius, cosDeg, sinDeg);
    var gm, gv := RadialProfileMeanVariance(img, 1, cx, cy, radius, cosDeg, sinDeg);
    var bm, bv := RadialProfileMeanVariance(img, 2, cx, cy, radius, cosDeg, sinDeg);
    rows := seq(radius + 1, i requires 0 <= i <= radius => ProfileRow(i, rm[i], rv[i], gm[i], gv[i], bm[i], bv[i]));
    circle := [CircleRow(cx, radius, scale), CircleRow(cy, radius, scale)];
    var stem := DropLast(fileName, 4);
    pngName := stem + "_RadialProfile.png";
    xlsxName := stem + "_RadialProfile.xlsx";
  }
}
