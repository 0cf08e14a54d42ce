/** The page that writes an image's name in its top-left corner and a scale bar in its
    bottom-right corner. The objective's magnification is chosen or read from the file name,
    and the micrometres per pixel come from a fixed table keyed by camera, microscope and
    magnification. Drawing is recorded as the marks put on the picture. */
module ImageScale {
  import opened Base
  import opened Text
  import opened Naming

  // ----- get_lens_parameter -----

  /** What `get_lens_parameter` returns when the file name holds no magnification. */
  const NoLens: string := "未提取到放大倍数"

  predicate IsLead(c: char) { c == '-' || c == '_' }

  predicate IsTimes(c: char) { c == 'x' || c == 'X' }

  /** `[-_](\d+(\.\d+)?)[xX]` matches at `s` with its group ending at `e`: a '-' or '_', whole
      digits, optionally a point and fraction digits, then an 'x' or 'X' at `e`. */
  predicate LensMatch(path: string, s: nat, e: nat) {
    s + 1 < e < |path| && IsLead(path[s]) && IsTimes(path[e]) &&
    (DigitsIn(path, s + 1, e) ||
     exists d :: s + 1 < d < e - 1 && path[d] == '.' && DigitsIn(path, s + 1, d) && DigitsIn(path, d + 1, e))
  }

  /** Where the match starting at `s` ends, found as the regular-expression engine does:
      the longest run of digits, then a fraction if a point and digits follow. */
  function MatchEnd(path: string, s: nat): (e: Option<nat>)
    requires s < |path|
  {
    if !IsLead(path[s]) then None
    else
      var b := DigitEnd(path, s + 1);
      if b == s + 1 || b == |path| then None
      else if IsTimes(path[b]) then Some(b)
      else if path[b] != '.' || b + 1 == |path| then None
      else
        var f := DigitEnd(path, b + 1);
        if f == b + 1 || f == |path| || !IsTimes(path[f]) then None else Some(f)
  }

  /** The engine's end is the one match starting at `s`. */
  lemma MatchEndExact(path: string, s: nat, e: nat)
    requires s < |path|
    ensures MatchEnd(path, s) == Some(e) <==> LensMatch(path, s, e)
  {
    if LensMatch(path, s, e) {
      var b := DigitEnd(path, s + 1);
      if DigitsIn(path, s + 1, e) {
        DigitEndAt(path, s + 1, e);
      } else {
        var d :| s + 1 < d < e - 1 && path[d] == '.' && DigitsIn(path, s + 1, d) && DigitsIn(path, d + 1, e);
        DigitEndAt(path, s + 1, d);
        DigitEndAt(path, d + 1, e);
      }
    }
    if MatchEnd(path, s) == Some(e) {
      var b := DigitEnd(path, s + 1);
      if !IsTimes(path[b]) {
        assert s + 1 < b < e - 1 && path[b] == '.' && DigitsIn(path, s + 1, b) && DigitsIn(path, b + 1, e);
      }
    }
  }

  /** The leftmost match at or after `s`, as start and end. */
  function FirstMatch(path: string, s: nat): (m: Option<(nat, nat)>)
    requires s <= |path|
    decreases |path| - s
    ensures m.Some? ==> s <= m.value.0 < m.value.1 < |path| && MatchEnd(path, m.value.0) == Some(m.value.1)
    ensures m.Some? ==> forall q :: s <= q < m.value.0 ==> MatchEnd(path, q).None?
    ensures m.None? ==> forall q :: s <= q < |path| ==> MatchEnd(path, q).None?
  {
    if s == |path| then None
    else
      match MatchEnd(path, s)
      case Some(e) => Some((s, e))
      case None => FirstMatch(path, s + 1)
  }

  /** `get_lens_parameter`: the group of the leftmost match, or the sentinel. */
  function LensParameter(path: string): string {
    match FirstMatch(path, 0)
    case None => NoLens
    case Some((s, e)) => path[s + 1..e]
  }

  /** The magnification found is the group of the leftmost match; the sentinel is returned
      exactly when nothing matches, and never mistaken for a magnification. */
  lemma LensParameterSpec(path: string)
    ensures LensParameter(path) == NoLens <==> forall s, e :: 0 <= s < e < |path| ==> !LensMatch(path, s, e)
    ensures LensParameter(path) != NoLens ==>
      exists s, e :: 0 <= s < e < |path| && LensMatch(path, s, e) && LensParameter(path) == path[s + 1..e] &&
        forall q, f :: 0 <= q < s && q < f < |path| ==> !LensMatch(path, q, f)
  {
    match FirstMatch(path, 0)
    case None =>
      forall s, e | 0 <= s < e < |path| ensures !LensMatch(path, s, e) {
        MatchEndExact(path, s, e);
      }
    case Some((s, e)) =>
      MatchEndExact(path, s, e);
      var g := path[s + 1..e];
      assert g[0] == path[s + 1] && IsDigit(g[0]);
      assert NoLens[0] == '未';
      forall q, f | 0 <= q < s && q < f < |path| ensures !LensMatch(path, q, f) {
        MatchEndExact(path, q, f);
      }
  }

  /** A name such as `sample_10x.png`: with no '-' or '_' before the magnification, the
      magnification is found. */
  lemma LensOfName(stem: string, digits: string, rest: string)
    requires forall c :: c in stem ==> !IsLead(c)
    requires digits != [] && forall c :: c in digits ==> IsDigit(c)
    ensures LensParameter(stem + "_" + digits + "x" + rest) == digits
  {
    var path := stem + "_" + digits + "x" + rest;
    var s, e := |stem|, |stem| + 1 + |digits|;
    assert path[s] == '_' && path[e] == 'x';
    assert DigitsIn(path, s + 1, e) by {
      forall j | s + 1 <= j < e ensures IsDigit(path[j]) {
        assert path[j] == digits[j - s - 1];
      }
    }
    MatchEndExact(path, s, e);
    forall q | 0 <= q < s ensures MatchEnd(path, q).None? {
      assert path[q] == stem[q];
    }
    var m := FirstMatch(path, 0);
    assert m == Some((s, e));
    assert path[s + 1..e] == digits;
  }

  // ----- pixel_scale_dict -----

  /** Micrometres per pixel for each camera, microscope and objective. */
  const PixelScales: map<string, real> := map[
    "海康(2*2merge)-凤凰-X5" := 0.745, "海康(2*2merge)-凤凰-X10" := 0.3725,
    "海康(2*2merge)-凤凰-X20" := 0.18625,
    "海康(2*2merge)-凤凰-X40" := 0.093125, "海康(2*2merge)-凤凰-X60" := 0.062083333,
    "凤凰-凤凰-X5" := 1.345, "凤凰-凤凰-X10" := 0.6725, "凤凰-凤凰-X20" := 0.33625,
    "凤凰-凤凰-X40" := 0.168125, "凤凰-凤凰-X60" := 0.112083333]

  /** `f'{camera}-{microscope}-X{lens}'`. */
  function ScaleKey(camera: string, microscope: string, lens: string): string {
    camera + "-" + microscope + "-X" + lens
  }

  /** The microscope '海约' offered on the page has no entry in the table, whatever camera
      and magnification, so its lookup always fails. */
  lemma OtherMicroscopeMissing(camera: string, lens: string)
    ensures ScaleKey(camera, "海约", lens) !in PixelScales
  {
    var key := ScaleKey(camera, "海约", lens);
    assert key[|camera| + 2] == '约';
    assert forall k :: k in PixelScales ==> '约' !in k;
  }

  /** Every camera and objective the page offers with the microscope '凤凰' is in the table. */
  lemma OfferedChoicesFound(camera: string, lens: string)
    requires camera in ["海康(2*2merge)", "凤凰"] && lens in ["5", "10", "20", "40", "60"]
    ensures ScaleKey(camera, "凤凰", lens) in PixelScales
  {
    assert ScaleKey("海康(2*2merge)", "凤凰", "5") == "海康(2*2merge)-凤凰-X5";
    assert ScaleKey("海康(2*2merge)", "凤凰", "10") == "海康(2*2merge)-凤凰-X10";
    assert ScaleKey("海康(2*2merge)", "凤凰", "20") == "海康(2*2merge)-凤凰-X20";
    assert ScaleKey("海康(2*2merge)", "凤凰", "40") == "海康(2*2merge)-凤凰-X40";
    assert ScaleKey("海康(2*2merge)", "凤凰", "60") == "海康(2*2merge)-凤凰-X60";
    assert ScaleKey("凤凰", "凤凰", "5") == "凤凰-凤凰-X5";
    assert ScaleKey("凤凰", "凤凰", "10") == "凤凰-凤凰-X10";
    assert ScaleKey("凤凰", "凤凰", "20") == "凤凰-凤凰-X20";
    assert ScaleKey("凤凰", "凤凰", "40") == "凤凰-凤凰-X40";
    assert ScaleKey("凤凰", "凤凰", "60") == "凤凰-凤凰-X60";
  }

  // ----- png_add_name_scale -----

  /** The scale-bar settings: camera, microscope, objective, whether to read the objective
      from the file name, and the bar's length in pixels. */
  datatype ScaleSettings = ScaleSettings(camera: string, microscope: string, lens: string, lensExtract: bool, pixels: int)

  /** What is drawn: text at a point, the bar's value in micrometres (printed to three
      decimals) at a point, or a line of some width. */
  datatype Mark =
    | Text(x: int, y: int, text: string)
    | Value(x: int, y: int, micrometres: real)
    | Line(x0: int, y0: int, x1: int, y1: int, lineWidth: nat)

  /** The objective used: read from the file name when asked, else the one chosen. */
  function Lens(path: string, s: ScaleSettings): string {
    if s.lensExtract then LensParameter(path) else s.lens
  }

  /** The bar: horizontal, 55 pixels above the bottom, ending 20 pixels from the right edge. */
  function ScaleBar(width: int, height: int, pixels: int): (m: Mark)
    ensures m.Line? && m.y0 == m.y1 == height - 55 && m.x1 == width - 20 && m.x1 - m.x0 == pixels && m.lineWidth == 2
  {
    Line(width - 20 - pixels, height - 55, width - 20, height - 55, 2)
  }

  /** The value and the bar, or the `KeyError` of a missing table entry. */
  function ScaleMarks(path: string, width: int, height: int, s: ScaleSettings): (r: Result<seq<Mark>>)
    ensures var key := ScaleKey(s.camera, s.microscope, Lens(path, s));
      (r.Err? <==> key !in PixelScales) && (r.Err? ==> r.error == KeyError(key))
    ensures r.Ok? ==> |r.value| == 2
  {
    var key := ScaleKey(s.camera, s.microscope, Lens(path, s));
    if key !in PixelScales then Err(KeyError(key))
    else Ok([Value(width - 180, height - 50, (s.pixels as real) * PixelScales[key]), ScaleBar(width, height, s.pixels)])
  }

  /** The value printed is the bar's length in pixels times the micrometres per pixel for the
      key, placed 180 pixels from the right and 50 from the bottom; the bar is `pixels` long. */
  lemma ScaleMarksValue(path: string, width: int, height: int, s: ScaleSettings)
    requires ScaleMarks(path, width, height, s).Ok?
    ensures var key := ScaleKey(s.camera, s.microscope, Lens(path, s));
      var m := ScaleMarks(path, width, height, s).value;
      key in PixelScales && m[0].Value? && m[0].micrometres == (s.pixels as real) * PixelScales[key] &&
      m[0].x == width - 180 && m[0].y == height - 50 &&
      m[1].Line? && m[1].x1 - m[1].x0 == s.pixels && m[1].y0 == m[1].y1
  {
  }

  /** An objective asked for from a file name without one is looked up under the sentinel
      and raises `KeyError`: the comparison meant to catch it tests the builtin `len`, which
      never equals a string. */
  lemma MissingLensRaises(path: string, width: int, height: int, s: ScaleSettings)
    requires s.lensExtract && LensParameter(path) == NoLens
    ensures ScaleMarks(path, width, height, s) == Err(KeyError(ScaleKey(s.camera, s.microscope, NoLens)))
  {
    var key := ScaleKey(s.camera, s.microscope, NoLens);
    assert key[|key| - 1] == '数';
    assert forall k :: k in PixelScales ==> k[|k| - 1] != '数';
  }

  /** `os.path.splitext(p)[0]` with Windows separators: the text before the last point of
      the last component, unless that component is only points up to there. */
  function Root(p: string): string {
    var s, d := LastWhere(p, IsSep), LastWhere(p, IsDot);
    if d > s && exists k :: s < k < d && p[k] != '.' then p[..d] else p
  }

  /** `os.path.splitext(png_path)[0].split('\\')[-1]`: the name written on the image. */
  function ImageName(p: string): string {
    AfterLast(Root(p), "\\")
  }

  /** The root of `dir\stem.ext` is `dir\stem`. */
  lemma RootOfPath(dir: string, stem: string, ext: string)
    requires forall c :: c in stem ==> !IsSep(c)
    requires exists k :: 0 <= k < |stem| && stem[k] != '.'
    requires |ext| >= 1 && ext[0] == '.' && forall c :: c in ext[1..] ==> !IsSep(c) && c != '.'
    ensures Root(dir + stem + ext) == dir + stem
  {
    var p := dir + stem + ext;
    var d := |dir| + |stem|;
    assert p[d] == '.';
    forall j | |dir| <= j < |p| ensures !IsSep(p[j]) && (j > d ==> !IsDot(p[j])) {
      if j < d {
        assert p[j] == stem[j - |dir|] && stem[j - |dir|] in stem;
      } else if j > d {
        assert p[j] == ext[1..][j - d - 1] && ext[1..][j - d - 1] in ext[1..];
      }
    }
    assert LastWhere(p, IsDot) == d;
    var k :| 0 <= k < |stem| && stem[k] != '.';
    assert p[|dir| + k] == stem[k];
    assert p[..d] == dir + stem;
  }

  /** The name of `dir\stem.ext` is `stem`. */
  lemma ImageNameOfPath(dir: string, stem: string, ext: string)
    requires dir == [] || dir[|dir| - 1] == '\\'
    requires forall c :: c in stem ==> !IsSep(c)
    requires exists k :: 0 <= k < |stem| && stem[k] != '.'
    requires |ext| >= 1 && ext[0] == '.' && forall c :: c in ext[1..] ==> !IsSep(c) && c != '.'
    ensures ImageName(dir + stem + ext) == stem
  {
    RootOfPath(dir, stem, ext);
    assert !Contains(stem, "\\") by {
      forall i | 0 <= i < |stem| ensures !OccursAt(stem, "\\", i) {
        assert stem[i] in stem;
      }
    }
    if dir == [] {
      SplitNoMatch(stem, "\\");
    } else {
      SplitLastAfterSep(dir[..|dir| - 1], stem, '\\');
      assert dir[..|dir| - 1] + ['\\'] + stem == dir + stem;
    }
  }

  /** The picture being annotated: its size, the marks drawn on it and whether it was saved. */
  class Picture {
    const width: int
    const height: int
    var marks: seq<Mark>
    var saved: bool

    /** `Image.open(png_path)`. */
    constructor (w: int, h: int)
      ensures width == w && height == h && marks == [] && !saved
    {
      width, height := w, h;
      marks, saved := [], false;
    }

    /** `draw.text` or `draw.line`. */
    method Draw(m: Mark)
      modifies this`marks
      ensures marks == old(marks) + [m]
    {
      marks := marks + [m];
    }

    /** `image.save(png_path)`. */
    method Save()
      modifies this`saved
      ensures saved
    {
      saved := true;
    }
  }

  /** `png_add_name_scale` as written, on a picture without marks: what it draws, whether it
      saves, and how it ends. Without scale-bar settings `camera` is never assigned, so the
      lookup raises before the picture is saved. */
  function AddNameScaleAsWritten(path: string, width: int, height: int, scale: Option<ScaleSettings>): (Result<()>, seq<Mark>, bool) {
    var name := [Text(10, 10, ImageName(path))];
    match scale
    case None => (Err(NameError("camera")), name, false)
    case Some(s) =>
      match ScaleMarks(path, width, height, s)
      case Err(e) => (Err(e), name, false)
      case Ok(bar) => (Ok(()), name + bar, true)
  }

  /** As written, an image can never be saved with its name alone. */
  lemma NameAloneNeverSaved(path: string, width: int, height: int)
    ensures var (r, marks, saved) := AddNameScaleAsWritten(path, width, height, None);
      r.Err? && !saved
  {
  }

  /** `png_add_name_scale` with the scale bar optional, as its settings page offers: the name
      is written at (10, 10); with settings, the value and the bar follow or the lookup
      raises before saving; the picture is saved whenever nothing raised. */
  method AddNameScale(pic: Picture, path: string, scale: Option<ScaleSettings>) returns (r: Result<()>)
    modifies pic
    ensures scale.None? ==> r.Ok?
    ensures scale.Some? ==> (r.Err? <==> ScaleMarks(path, pic.width, pic.height, scale.value).Err?)
    ensures r.Err? ==> r == Err(ScaleMarks(path, pic.width, pic.height, scale.value).error)
    ensures pic.saved == (r.Ok? || old(pic.saved))
    ensures pic.marks == old(pic.marks) + [Text(10, 10, ImageName(path))] +
      (if r.Ok? && scale.Some? then ScaleMarks(path, pic.width, pic.height, scale.value).value else [])
  {
    pic.Draw(Text(10, 10, ImageName(path)));
    if scale.Some? {
      var bar := ScaleMarks(path, pic.width, pic.height, scale.value);
      if bar.Err? {
        return Err(bar.error);
      }
      pic.Draw(bar.value[0]);
      pic.Draw(bar.value[1]);
    }
    pic.Save();
    return Ok(());
  }
}
