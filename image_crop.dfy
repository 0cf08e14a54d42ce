/** The image cropping page: a rectangle chosen with sliders is cut out of the image, the
    crop is divided by horizontal and vertical grid lines placed at percentages of its size,
    and every cell of the grid, less the line thickness on each side, becomes a sub-image
    with a default file name. An image is its rows of pixels, as `img.shape` sees it. */
module ImageCrop {
  import opened Text

  /** `height` rows of `width` pixels each. */
  predicate IsImage<P>(img: seq<seq<P>>, height: nat, width: nat) {
    |img| == height && forall y :: 0 <= y < height ==> |img[y]| == width
  }

  // ----- Python slicing -----

  /** Where the slice bound `i` falls in a sequence of length `n`: a negative bound counts
      from the end, and the result is clamped to `[0, n]`. */
  function Bound(n: nat, i: int): (b: nat)
    ensures b <= n
    ensures 0 <= i <= n ==> b == i
    ensures i > n ==> b == n
    ensures i < 0 && n + i >= 0 ==> b == n + i
    ensures n + i < 0 ==> b == 0
  {
    if i < 0 then (if n + i < 0 then 0 else n + i)
    else if i > n then n
    else i
  }

  /** `xs[start:stop]`: empty when the stop falls before the start. */
  function Slice<T>(xs: seq<T>, start: int, stop: int): (r: seq<T>)
    ensures |r| == if Bound(|xs|, start) <= Bound(|xs|, stop) then Bound(|xs|, stop) - Bound(|xs|, start) else 0
    ensures forall k :: 0 <= k < |r| ==> r[k] == xs[Bound(|xs|, start) + k]
  {
    var a, b := Bound(|xs|, start), Bound(|xs|, stop);
    if a <= b then xs[a..b] else []
  }

  /** `img[r0:r1, c0:c1]`. */
  function Window<P>(img: seq<seq<P>>, r0: int, r1: int, c0: int, c1: int): seq<seq<P>> {
    var rows := Slice(img, r0, r1);
    seq(|rows|, i requires 0 <= i < |rows| => Slice(rows[i], c0, c1))
  }

  // ----- crop_image -----

  /** `crop_image`: the rows `y1..y2-1` and the columns `x1..x2-1`, for the corners the sliders
      allow (`0 <= x1 < x2 <= width`, `0 <= y1 < y2 <= height`), so the crop is never empty. */
  function Crop<P>(img: seq<seq<P>>, height: nat, width: nat, x1: int, y1: int, x2: int, y2: int): (c: seq<seq<P>>)
    requires IsImage(img, height, width)
    requires 0 <= x1 < x2 <= width && 0 <= y1 < y2 <= height
    ensures IsImage(c, y2 - y1, x2 - x1) && c != [] && c[0] != []
    ensures forall i, j :: 0 <= i < y2 - y1 && 0 <= j < x2 - x1 ==> c[i][j] == img[y1 + i][x1 + j]
  {
    Window(img, y1, y2, x1, x2)
  }

  /** The sliders' default corners crop nothing away. */
  lemma CropWhole<P>(img: seq<seq<P>>, height: nat, width: nat)
    requires IsImage(img, height, width) && height > 0 && width > 0
    ensures Crop(img, height, width, 0, 0, width, height) == img
  {
    var c := Crop(img, height, width, 0, 0, width, height);
    forall i | 0 <= i < height ensures c[i] == img[i] {
      assert forall j :: 0 <= j < width ==> c[i][j] == img[i][j];
    }
  }

  // ----- block_img -----

  /** The grid lines' thickness in pixels. */
  const Thickness: int := 3

  /** `[0] + [int(p / 100 * size) for p in positions] + [size - 1]`, in selection order. */
  function GridCoords(positions: seq<nat>, size: nat): (cs: seq<int>)
    ensures |cs| == |positions| + 2 && cs[0] == 0 && cs[|cs| - 1] == size - 1
    ensures forall k :: 0 <= k < |positions| ==> cs[k + 1] == positions[k] * size / 100
  {
    [0] + seq(|positions|, k requires 0 <= k < |positions| => positions[k] * size / 100) + [size - 1]
  }

  /** Percentages chosen top to bottom give lines top to bottom, all inside the image. */
  lemma GridCoordsOrdered(positions: seq<nat>, size: nat)
    requires forall k :: 0 <= k < |positions| ==> positions[k] <= 100
    requires forall k, l :: 0 <= k < l < |positions| ==> positions[k] <= positions[l]
    ensures var cs := GridCoords(positions, size);
      (forall k :: 0 < k <= |positions| ==> 0 <= cs[k] <= size) &&
      (forall k, l :: 0 <= k < l <= |positions| ==> cs[k] <= cs[l])
  {
    var cs := GridCoords(positions, size);
    forall k, l | 0 <= k < l <= |positions| ensures cs[k] <= cs[l] {
      if k > 0 {
        MulDivMonotone(positions[k - 1], positions[l - 1], size);
      }
    }
    forall k | 0 < k <= |positions| ensures cs[k] <= size {
      MulDivMonotone(positions[k - 1], 100, size);
    }
  }

  lemma MulDivMonotone(p: nat, q: nat, size: nat)
    requires p <= q
    ensures p * size / 100 <= q * size / 100
  {
    assert p * size <= q * size by {
      assert (q - p) * size >= 0;
    }
  }

  /** Cell `(i, j)` as written: rows `h[i]+3 : h[i+1]-3` and columns `v[j]+3 : v[j+1]-3` of
      the image, with NumPy reading a negative stop from the end. */
  function CellAsWritten<P>(img: seq<seq<P>>, hs: seq<int>, vs: seq<int>, i: nat, j: nat): seq<seq<P>>
    requires i + 1 < |hs| && j + 1 < |vs|
  {
    Window(img, hs[i] + Thickness, hs[i + 1] - Thickness, vs[j] + Thickness, vs[j + 1] - Thickness)
  }

  /** A line at 0% coincides with the top edge, so the band between them should be empty; as
      written its stop `0 - 3` counts from the bottom and the band is 4 rows of a 10-row image. */
  lemma CoincidentLinesAsWritten()
    ensures var img := seq(10, y => seq(10, x => 0));
      var hs, vs := GridCoords([0], 10), GridCoords([], 10);
      hs[0] == hs[1] == 0 && |CellAsWritten(img, hs, vs, 0, 0)| == 4
  {
    var img := seq(10, y => seq(10, x => 0));
    var hs := GridCoords([0], 10);
    assert hs[1] == 0;
    assert |Slice(img, 3, -3)| == 4;
  }

  /** A stop that falls before zero, clamped at zero rather than read from the end. */
  function Stop(line: int): int {
    if line - Thickness < 0 then 0 else line - Thickness
  }

  /** Cell `(i, j)`: the pixels strictly between lines `i` and `i + 1` and between lines `j`
      and `j + 1`, less the line thickness on each side (nothing past the last line). */
  function Cell<P>(img: seq<seq<P>>, hs: seq<int>, vs: seq<int>, i: nat, j: nat): seq<seq<P>> {
    if i + 1 < |hs| && j + 1 < |vs| then
      Window(img, hs[i] + Thickness, Stop(hs[i + 1]), vs[j] + Thickness, Stop(vs[j + 1]))
    else []
  }

  /** Every pixel of a cell is the image pixel at the cell's offset, and lies more than the
      line thickness below and right of the cell's first lines and above and left of its
      second ones; lines closer than twice the thickness give an empty cell. */
  lemma CellBetweenLines<P>(img: seq<seq<P>>, height: nat, width: nat, hs: seq<int>, vs: seq<int>, i: nat, j: nat)
    requires IsImage(img, height, width)
    requires i + 1 < |hs| && j + 1 < |vs| && hs[i] >= 0 && vs[j] >= 0
    ensures var c := Cell(img, hs, vs, i, j);
      forall a, b :: 0 <= a < |c| && 0 <= b < |c[a]| ==>
        hs[i] + Thickness + a < hs[i + 1] - Thickness && vs[j] + Thickness + b < vs[j + 1] - Thickness &&
        c[a][b] == img[hs[i] + Thickness + a][vs[j] + Thickness + b]
  {
  }

  /** The first `n` cells in row-major order. */
  function Cells<P>(img: seq<seq<P>>, hs: seq<int>, vs: seq<int>, n: nat): seq<seq<seq<P>>>
    requires |vs| >= 2
  {
    seq(n, k requires 0 <= k < n => Cell(img, hs, vs, k / (|vs| - 1), k % (|vs| - 1)))
  }

  lemma CellsSnoc<P>(img: seq<seq<P>>, hs: seq<int>, vs: seq<int>, n: nat)
    requires |vs| >= 2
    ensures Cells(img, hs, vs, n + 1) == Cells(img, hs, vs, n) + [Cell(img, hs, vs, n / (|vs| - 1), n % (|vs| - 1))]
  {
    var a, b := Cells(img, hs, vs, n + 1), Cells(img, hs, vs, n);
    assert forall k :: 0 <= k < n ==> a[k] == b[k];
  }

  /** The `(len(h) - 1) * (len(v) - 1)` cells, row by row. */
  method SubImages<P>(img: seq<seq<P>>, hs: seq<int>, vs: seq<int>) returns (subs: seq<seq<seq<P>>>)
    requires |hs| >= 2 && |vs| >= 2
    ensures |subs| == (|hs| - 1) * (|vs| - 1)
    ensures forall k :: 0 <= k < |subs| ==> subs[k] == Cell(img, hs, vs, k / (|vs| - 1), k % (|vs| - 1))
  {
    var m := |vs| - 1;
    subs := [];
    var i := 0;
    while i < |hs| - 1
      invariant 0 <= i <= |hs| - 1
      invariant |subs| == i * m && subs == Cells(img, hs, vs, |subs|)
    {
      var j := 0;
      while j < m
        invariant 0 <= j <= m
        invariant |subs| == i * m + j && subs == Cells(img, hs, vs, |subs|)
      {
        RowMajor(i, j, m);
        CellsSnoc(img, hs, vs, |subs|);
        subs := subs + [Cell(img, hs, vs, i, j)];
        j := j + 1;
      }
      assert |subs| == (i + 1) * m;
      i := i + 1;
    }
  }

  /** Entry `j` of row `i` sits at `i * m + j`. */
  lemma RowMajor(i: nat, j: nat, m: nat)
    requires j < m
    ensures (i * m + j) / m == i && (i * m + j) % m == j
  {
    var n := i * m + j;
    var d, r := n / m, n % m;
    assert n == d * m + r && 0 <= r < m;
    if d < i {
      assert (d + 1) * m == d * m + m;
      MulLe(d + 1, i, m);
    } else if d > i {
      assert (i + 1) * m == i * m + m;
      MulLe(i + 1, d, m);
    }
  }

  lemma {:induction false} MulLe(a: nat, b: nat, m: nat)
    requires a <= b
    ensures a * m <= b * m
    decreases b - a
  {
    if a < b {
      MulLe(a, b - 1, m);
      assert b * m == (b - 1) * m + m;
    }
  }

  /** `f"{file_name[:-4]}({i + 1}).png"`: the default name of sub-image `i`. */
  function DefaultName(fileName: string, i: nat): string {
    DropLast(fileName, 4) + "(" + NatToString(i + 1) + ").png"
  }

  /** For an uploaded `stem.png` or `stem.jpg` the names are `stem(1).png`, `stem(2).png`, .... */
  lemma DefaultNameOfUpload(stem: string, ext: string, i: nat)
    requires |ext| == 4
    ensures DefaultName(stem + ext, i) == stem + "(" + NatToString(i + 1) + ").png"
  {
    DropLastOfSuffixed(stem, ext);
  }

  /** Different sub-images get different default names. */
  lemma DefaultNamesDiffer(fileName: string, i: nat, j: nat)
    requires DefaultName(fileName, i) == DefaultName(fileName, j)
    ensures i == j
  {
    var p := DropLast(fileName, 4) + "(";
    var a, b := NatToString(i + 1), NatToString(j + 1);
    assert DefaultName(fileName, i) == p + (a + ").png");
    assert DefaultName(fileName, j) == p + (b + ").png");
    assert a + ").png" == (p + (a + ").png"))[|p|..] == b + ").png";
    assert a == (a + ").png")[..|a|];
    assert b == (b + ").png")[..|b|];
    NatToStringInjective(i + 1, j + 1);
  }

  /** The loop that offers one default name per sub-image. */
  method DefaultNames(fileName: string, count: nat) returns (names: seq<string>)
    ensures |names| == count && forall i :: 0 <= i < count ==> names[i] == DefaultName(fileName, i)
  {
    names := [];
    var i := 0;
    while i < count
      invariant 0 <= i <= count
      invariant |names| == i && forall k :: 0 <= k < i ==> names[k] == DefaultName(fileName, k)
    {
      names := names + [DefaultName(fileName, i)];
      i := i + 1;
    }
  }

  /** `block_img` on the cropped image: the grid from the selected positions (whether or not
      as many as requested were selected), the cells row by row and their default names. */
  method BlockImg<P>(img: seq<seq<P>>, height: nat, width: nat, hPositions: seq<nat>, vPositions: seq<nat>, fileName: string)
    returns (subs: seq<seq<seq<P>>>, names: seq<string>)
    requires IsImage(img, height, width)
    ensures var hs, vs := GridCoords(hPositions, height), GridCoords(vPositions, width);
      |subs| == |names| == (|hPositions| + 1) * (|vPositions| + 1) &&
      (forall k :: 0 <= k < |subs| ==> subs[k] == Cell(img, hs, vs, k / (|vPositions| + 1), k % (|vPositions| + 1))) &&
      (forall k :: 0 <= k < |names| ==> names[k] == DefaultName(fileName, k))
  {
    var hs := GridCoords(hPositions, height);
    var vs := GridCoords(vPositions, width);
    subs := SubImages(img, hs, vs);
    names := DefaultNames(fileName, |subs|);
  }
}
