/**
 * Prettify (Tools/prettify_process.py): each 16-bit image is cropped to the
 * 1024 x 1280 frame, optionally has its bad pixels filled in place (ten
 * sweeps of the list), is optionally inverted, despeckled, autoscaled to the
 * full 16-bit range and mirrored, and is then written once per chosen
 * colormap as 8-bit data under the colormap's folder name.
 */
module Prettify {
  import opened Numerics
  import opened Grids
  import opened BadPixels

  /** The largest uint16 value, math.pow(2, 16) - 1. */
  const MaxU16: int := 65535

  /** How many times Prettify sweeps the bad-pixel list. */
  const PrettifySweeps: nat := 10

  // ---------------------------------------------------------------------------
  // Cropping.

  /** ImageMat[0:1024, 0:1280] of an h x w image. */
  function Crop(g: Grid, h: nat, w: nat): (r: Grid)
    requires IsGrid(g, h, w)
    ensures IsGrid(r, Min(h, FrameRows), Min(w, FrameCols))
    ensures forall i, j | 0 <= i < Min(h, FrameRows) && 0 <= j < Min(w, FrameCols) :: r[i][j] == g[i][j]
  {
    seq(Min(h, FrameRows), i requires 0 <= i < Min(h, FrameRows) => g[i][..Min(w, FrameCols)])
  }

  // ---------------------------------------------------------------------------
  // Inversion.

  /** np.invert of a uint16 pixel: every bit flipped. */
  function Invert(v: int): int
  {
    MaxU16 - v
  }

  /** Inverting reverses the order of pixel values and keeps them 16-bit; doing it twice restores the pixel. */
  lemma InvertReverses(u: int, v: int)
    ensures Invert(Invert(v)) == v
    ensures 0 <= v <= MaxU16 ==> 0 <= Invert(v) <= MaxU16
    ensures u < v <==> Invert(v) < Invert(u)
  {
  }

  /** The inverted image. */
  function InvertImage(g: Grid): (r: Grid)
    ensures |r| == |g| && forall i | 0 <= i < |g| :: |r[i]| == |g[i]|
    ensures forall i, j | 0 <= i < |g| && 0 <= j < |g[i]| :: r[i][j] == Invert(g[i][j])
  {
    seq(|g|, i requires 0 <= i < |g| => seq(|g[i]|, j requires 0 <= j < |g[i]| => Invert(g[i][j])))
  }

  /** Inverting an image twice gives it back; a uint16 image stays uint16. */
  lemma InvertImageTwice(g: Grid)
    ensures InvertImage(InvertImage(g)) == g
    ensures IsU16(g) ==> IsU16(InvertImage(g))
  {
    var r := InvertImage(InvertImage(g));
    forall i | 0 <= i < |g|
      ensures r[i] == g[i]
    {
    }
  }

  // ---------------------------------------------------------------------------
  // Despeckling.

  /** np.median of three values: the middle one. */
  function Median3(a: int, b: int, c: int): (m: int)
    ensures m == a || m == b || m == c
    ensures (if a <= m then 1 else 0) + (if b <= m then 1 else 0) + (if c <= m then 1 else 0) >= 2
    ensures (if m <= a then 1 else 0) + (if m <= b then 1 else 0) + (if m <= c then 1 else 0) >= 2
  {
    if a <= b then
      if b <= c then b else if a <= c then c else a
    else
      if a <= c then a else if b <= c then c else b
  }

  /** scipy's medfilt2d, pixel by pixel. */
  function MedianFiltered(lib: Lib, g: Grid, h: nat, w: nat): (r: Grid)
    ensures IsGrid(r, h, w)
  {
    seq(h, i requires 0 <= i < h => seq(w, j requires 0 <= j < w => lib.medfiltAt(g, i, j)))
  }

  /**
   * The despeckle step: the median filter, then each of the four pixels at
   * rows 0 and 1023 and columns 0 and 1279 set to the median of its three
   * neighbours towards the middle; an image without row 1023 or column 1279
   * raises IndexError.
   */
  function Despeckle(lib: Lib, g: Grid, h: nat, w: nat): (r: Result<Grid>)
    ensures r.Ok? <==> FrameRows <= h && FrameCols <= w
    ensures r.Ok? ==> IsGrid(r.value, h, w)
  {
    if h < FrameRows || w < FrameCols then Err(IndexError)
    else
      var m := MedianFiltered(lib, g, h, w);
      var m := Set(m, 0, 0, Median3(m[0][1], m[1][0], m[1][1]));
      var m := Set(m, 1023, 0, Median3(m[1022][0], m[1022][1], m[1023][1]));
      var m := Set(m, 0, 1279, Median3(m[0][1278], m[1][1278], m[1][1279]));
      Ok(Set(m, 1023, 1279, Median3(m[1022][1279], m[1022][1278], m[1023][1278])))
  }

  /**
   * Away from the four corner pixels the despeckled image is the median
   * filter's output, and each corner pixel is the median of its three
   * neighbours' filtered values, so between their smallest and largest.
   */
  lemma DespeckleCorners(lib: Lib, g: Grid, h: nat, w: nat)
    requires FrameRows <= h && FrameCols <= w
    ensures var r := Despeckle(lib, g, h, w).value;
      var m := MedianFiltered(lib, g, h, w);
      (forall i, j | 0 <= i < h && 0 <= j < w && !((i == 0 || i == 1023) && (j == 0 || j == 1279)) ::
        r[i][j] == m[i][j]) &&
      r[0][0] == Median3(m[0][1], m[1][0], m[1][1]) &&
      r[1023][0] == Median3(m[1022][0], m[1022][1], m[1023][1]) &&
      r[0][1279] == Median3(m[0][1278], m[1][1278], m[1][1279]) &&
      r[1023][1279] == Median3(m[1022][1279], m[1022][1278], m[1023][1278]) &&
      Min(m[0][1], Min(m[1][0], m[1][1])) <= r[0][0] <= Max(m[0][1], Max(m[1][0], m[1][1])) &&
      Min(m[1022][0], Min(m[1022][1], m[1023][1])) <= r[1023][0] <= Max(m[1022][0], Max(m[1022][1], m[1023][1])) &&
      Min(m[0][1278], Min(m[1][1278], m[1][1279])) <= r[0][1279] <= Max(m[0][1278], Max(m[1][1278], m[1][1279])) &&
      Min(m[1022][1279], Min(m[1022][1278], m[1023][1278])) <= r[1023][1279] <= Max(m[1022][1279], Max(m[1022][1278], m[1023][1278]))
  {
  }

  // ---------------------------------------------------------------------------
  // Autoscaling.

  /** np.clip(x, 0.0, 65535.0). */
  function Clip(x: real): (c: real)
    ensures 0.0 <= c <= MaxU16 as real
    ensures 0.0 <= x <= MaxU16 as real ==> c == x
  {
    if x < 0.0 then 0.0 else if x > MaxU16 as real then MaxU16 as real else x
  }

  /**
   * One autoscaled pixel: (v - low) * (65535 / (high - low)), clipped to
   * [0, 65535] and truncated by astype('uint16'). With high == low the
   * numpy factor is inf: a pixel above low becomes 65535, one below becomes
   * 0, and one equal to low is 0 * inf = NaN, whose uint16 cast numpy leaves
   * undefined.
   */
  function Scale(v: int, low: real, high: real): (r: Result<int>)
    ensures r.Err? <==> high == low && v as real == low
    ensures r.Ok? ==> 0 <= r.value <= MaxU16
  {
    if high == low then
      if v as real < low then Ok(0)
      else if v as real > low then Ok(MaxU16)
      else Err(NotFinite)
    else
      Ok(Trunc(Clip(Stretch(v, low, high))))
  }

  /** (v - low) * (65535 / (high - low)) before the clip. */
  function Stretch(v: int, low: real, high: real): real
    requires high != low
  {
    (v as real - low) * (MaxU16 as real / (high - low))
  }

  lemma StretchRises(u: int, v: int, low: real, high: real)
    requires low < high && u <= v
    ensures Stretch(u, low, high) <= Stretch(v, low, high)
  {
    var k := MaxU16 as real / (high - low);
    assert 0.0 < k;
    assert (v as real - low) * k - (u as real - low) * k == (v - u) as real * k;
  }

  lemma StretchEnds(v: int, low: real, high: real)
    requires low < high
    ensures v as real <= low ==> Stretch(v, low, high) <= 0.0
    ensures high <= v as real ==> MaxU16 as real <= Stretch(v, low, high)
  {
    var k := MaxU16 as real / (high - low);
    assert 0.0 < k;
    assert k * (high - low) == MaxU16 as real;
    if v as real <= low {
      assert (low - v as real) * k >= 0.0;
    }
    if high <= v as real {
      assert (v as real - low) * k >= (high - low) * k;
    }
  }

  /**
   * With high above low the scaling keeps the order of pixel values, maps
   * everything at or below low to 0 and everything at or above high to
   * 65535.
   */
  lemma ScaleIsMonotone(u: int, v: int, low: real, high: real)
    requires low < high
    ensures Scale(u, low, high).Ok?
    ensures u <= v ==> Scale(u, low, high).value <= Scale(v, low, high).value
    ensures u as real <= low ==> Scale(u, low, high).value == 0
    ensures high <= u as real ==> Scale(u, low, high).value == MaxU16
  {
    if u <= v {
      StretchRises(u, v, low, high);
    }
    StretchEnds(u, low, high);
  }

  /** The autoscaled image: every pixel scaled between the 0.07th and 99.97th percentiles. */
  function Autoscale(lib: Lib, g: Grid): (r: Result<Grid>)
    ensures r.Ok? ==> |r.value| == |g|
  {
    var high := lib.percentile(g, 99.97);
    var low := lib.percentile(g, 0.07);
    ParseAll((row: seq<int>) => ParseAll((v: int) => Scale(v, low, high), row, |row|), g, |g|)
  }

  /**
   * An autoscaled image keeps its shape, holds only uint16 values and, when
   * the upper percentile lies above the lower one, keeps the order of any two
   * pixels.
   */
  lemma AutoscaleIsMonotone(lib: Lib, g: Grid, h: nat, w: nat)
    requires IsGrid(g, h, w) && Autoscale(lib, g).Ok?
    ensures var r := Autoscale(lib, g).value;
      IsGrid(r, h, w) && IsU16(r) &&
      (forall i, j | 0 <= i < h && 0 <= j < w :: Scale(g[i][j], lib.percentile(g, 0.07), lib.percentile(g, 99.97)) == Ok(r[i][j]))
    ensures var r := Autoscale(lib, g).value;
      lib.percentile(g, 0.07) < lib.percentile(g, 99.97) ==>
        forall i, j, k, l | 0 <= i < h && 0 <= j < w && 0 <= k < h && 0 <= l < w && g[i][j] <= g[k][l] ::
          r[i][j] <= r[k][l]
  {
    var high := lib.percentile(g, 99.97);
    var low := lib.percentile(g, 0.07);
    var scale := (v: int) => Scale(v, low, high);
    var scaleRow := (row: seq<int>) => ParseAll(scale, row, |row|);
    var r := Autoscale(lib, g).value;
    ParsedInOrder(scaleRow, g, |g|);
    forall i | 0 <= i < h
      ensures |r[i]| == w && forall j | 0 <= j < w :: scale(g[i][j]) == Ok(r[i][j])
    {
      ParsedInOrder(scale, g[i], |g[i]|);
    }
    if low < high {
      forall i, j, k, l | 0 <= i < h && 0 <= j < w && 0 <= k < h && 0 <= l < w && g[i][j] <= g[k][l]
        ensures r[i][j] <= r[k][l]
      {
        ScaleIsMonotone(g[i][j], g[k][l], low, high);
      }
    }
  }

  // ---------------------------------------------------------------------------
  // Mirroring and the 8-bit output.

  /** cv2.flip(ImageMat, 1): every row reversed. */
  function FlipHorizontal(g: Grid): (r: Grid)
    ensures |r| == |g| && forall i | 0 <= i < |g| :: |r[i]| == |g[i]|
  {
    seq(|g|, i requires 0 <= i < |g| => seq(|g[i]|, j requires 0 <= j < |g[i]| => g[i][|g[i]| - 1 - j]))
  }

  /** Pixel (i, j) of the mirrored image is pixel (i, w - 1 - j) of the original, and mirroring twice restores the image. */
  lemma FlipMirrors(g: Grid, h: nat, w: nat)
    requires IsGrid(g, h, w)
    ensures forall i, j | 0 <= i < h && 0 <= j < w :: FlipHorizontal(g)[i][j] == g[i][w - 1 - j]
    ensures FlipHorizontal(FlipHorizontal(g)) == g
  {
    var r := FlipHorizontal(FlipHorizontal(g));
    forall i | 0 <= i < h
      ensures r[i] == g[i]
    {
    }
  }

  /** (ImageMat / 256).astype('uint8') of one pixel. */
  function EightBit(v: int): (b: int)
    ensures 0 <= v ==> 0 <= b && b * 256 <= v < (b + 1) * 256
  {
    Trunc(v as real / 256.0)
  }

  /** A uint16 pixel becomes a uint8 one, and brighter stays at least as bright. */
  lemma EightBitIsMonotone(u: int, v: int)
    requires 0 <= u <= MaxU16 && 0 <= v <= MaxU16
    ensures 0 <= EightBit(v) <= 255
    ensures u <= v ==> EightBit(u) <= EightBit(v)
    ensures EightBit(v) == v / 256
  {
    var q := v / 256;
    assert q as real <= v as real / 256.0 < q as real + 1.0;
    assert EightBit(v) == q;
    var p := u / 256;
    assert p as real <= u as real / 256.0 < p as real + 1.0;
    assert EightBit(u) == p;
  }

  // ---------------------------------------------------------------------------
  // Colormaps.

  /** The OpenCV colormap codes the check boxes offer. */
  const Jet: int := 2
  const Rainbow: int := 4
  const Ocean: int := 5
  const HSV: int := 9
  const Hot: int := 11
  const Inferno: int := 14
  const Viridis: int := 16
  const TwilightShifted: int := 19

  /** The folder name of a colormap code. */
  function ColormapName(code: int): (name: Option<string>)
    ensures name.Some? <==> code in Offered
    ensures name.Some? ==> name.value != ""
  {
    if code == Jet then Some("Jet")
    else if code == HSV then Some("HSV")
    else if code == Inferno then Some("Inferno")
    else if code == Rainbow then Some("Rainbow")
    else if code == Hot then Some("Hot")
    else if code == Ocean then Some("Ocean")
    else if code == Viridis then Some("Viridis")
    else if code == TwilightShifted then Some("Twilight Shifted")
    else None
  }

  /** The colormap check boxes, in the order Prettify reads them. */
  datatype ColormapBoxes = ColormapBoxes(jet: bool, inferno: bool, rainbow: bool, hot: bool,
                                         hsv: bool, viridis: bool, ocean: bool, twilightShifted: bool)

  /** The codes in box order. */
  const Offered: seq<int> := [Jet, Inferno, Rainbow, Hot, HSV, Viridis, Ocean, TwilightShifted]

  /** The offered colormaps all have folder names, and no two share one. */
  lemma ColormapNamesDistinct()
    ensures forall i | 0 <= i < |Offered| :: ColormapName(Offered[i]).Some?
    ensures forall i, j | 0 <= i < j < |Offered| :: ColormapName(Offered[i]) != ColormapName(Offered[j])
  {
  }

  function Ticks(b: ColormapBoxes): (t: seq<bool>)
    ensures |t| == |Offered|
  {
    [b.jet, b.inferno, b.rainbow, b.hot, b.hsv, b.viridis, b.ocean, b.twilightShifted]
  }

  /** The codes among the first n whose box is ticked, in box order. */
  function Pick(codes: seq<int>, ticks: seq<bool>, n: nat): seq<int>
    requires |ticks| == |codes| && n <= |codes|
  {
    if n == 0 then []
    else Pick(codes, ticks, n - 1) + (if ticks[n - 1] then [codes[n - 1]] else [])
  }

  /** ui.colormaps: one code per ticked box, appended in box order. */
  function Selected(b: ColormapBoxes): seq<int>
  {
    Pick(Offered, Ticks(b), |Offered|)
  }

  lemma {:induction false} PickMembers(codes: seq<int>, ticks: seq<bool>, n: nat, x: int)
    requires |ticks| == |codes| && n <= |codes|
    ensures x in Pick(codes, ticks, n) <==> exists i | 0 <= i < n :: ticks[i] && codes[i] == x
  {
    if n > 0 {
      PickMembers(codes, ticks, n - 1, x);
    }
  }

  lemma {:induction false} PickDistinct(codes: seq<int>, ticks: seq<bool>, n: nat)
    requires |ticks| == |codes| && n <= |codes|
    requires forall i, j | 0 <= i < j < |codes| :: codes[i] != codes[j]
    ensures var p := Pick(codes, ticks, n); forall i, j | 0 <= i < j < |p| :: p[i] != p[j]
  {
    if n > 0 {
      PickDistinct(codes, ticks, n - 1);
      PickMembers(codes, ticks, n - 1, codes[n - 1]);
    }
  }

  /** A code is selected exactly when its box is ticked, at most once, and always has a name. */
  lemma SelectedAreNamed(b: ColormapBoxes, k: nat)
    requires k < |Offered|
    ensures Offered[k] in Selected(b) <==> Ticks(b)[k]
    ensures forall i | 0 <= i < |Selected(b)| :: ColormapName(Selected(b)[i]).Some?
    ensures forall i, j | 0 <= i < j < |Selected(b)| :: Selected(b)[i] != Selected(b)[j]
  {
    var p := Selected(b);
    PickDistinct(Offered, Ticks(b), |Offered|);
    PickMembers(Offered, Ticks(b), |Offered|, Offered[k]);
    forall i | 0 <= i < |p|
      ensures ColormapName(p[i]).Some?
    {
      PickMembers(Offered, Ticks(b), |Offered|, p[i]);
    }
  }

  /**
   * colormapName through the colormap loop: a code without a name keeps the
   * previous name, and before any name was set reading it raises
   * UnboundLocalError.
   */
  function FolderNames(codes: seq<int>, previous: Option<string>): (r: Result<seq<string>>)
    ensures r.Ok? ==> |r.value| == |codes|
    decreases |codes|
  {
    if codes == [] then Ok([])
    else
      var name := if ColormapName(codes[0]).Some? then ColormapName(codes[0]) else previous;
      if name.None? then Err(UnboundName)
      else
        var rest :- FolderNames(codes[1..], name);
        Ok([name.value] + rest)
  }

  /** With every code named, each image goes to its own colormap's folder. */
  lemma {:induction false} NamedCodesUseTheirFolders(codes: seq<int>, previous: Option<string>)
    requires forall i | 0 <= i < |codes| :: ColormapName(codes[i]).Some?
    ensures FolderNames(codes, previous).Ok?
    ensures forall i | 0 <= i < |codes| :: Some(FolderNames(codes, previous).value[i]) == ColormapName(codes[i])
    decreases |codes|
  {
    if codes != [] {
      assert forall i | 0 <= i < |codes[1..]| :: codes[1..][i] == codes[i + 1];
      NamedCodesUseTheirFolders(codes[1..], ColormapName(codes[0]));
    }
  }

  // ---------------------------------------------------------------------------
  // One image.

  /** The processing check boxes. */
  datatype Settings = Settings(autofill: bool, invert: bool, despeckle: bool, autoscale: bool, flip: bool)

  /** The 16-bit image Prettify colour-maps, from the image read from disk and the rows of the bad-pixel CSV. */
  function PrettifySpec(lib: Lib, cfg: Settings, raw: Grid, h: nat, w: nat, rows: seq<seq<string>>): (r: Result<Grid>)
    requires IsGrid(raw, h, w)
    ensures r.Ok? ==> IsGrid(r.value, Min(h, FrameRows), Min(w, FrameCols))
    ensures r.Ok? && cfg.autoscale ==> IsU16(r.value)
    ensures cfg == Settings(false, false, false, false, false) ==> r == Ok(Crop(raw, h, w))
  {
    var h', w' := Min(h, FrameRows), Min(w, FrameCols);
    var g := Crop(raw, h, w);
    var g :- if cfg.autofill then Filled(g, h', w', rows) else Ok(g);
    Finish(lib, cfg, g, h', w')
  }

  /** The bad-pixel fill of Prettify: the parsed list, swept ten times. */
  function Filled(g: Grid, h: nat, w: nat, rows: seq<seq<string>>): (r: Result<Grid>)
    requires IsGrid(g, h, w)
    ensures r.Ok? ==> IsGrid(r.value, h, w)
  {
    var bad :- BadPixelList(rows);
    Sweeps(g, h, w, bad, PrettifySweeps)
  }

  /** The steps after the fill: invert, despeckle, autoscale and mirror, each when ticked. */
  function Finish(lib: Lib, cfg: Settings, g: Grid, h: nat, w: nat): (r: Result<Grid>)
    requires IsGrid(g, h, w)
    ensures r.Ok? ==> IsGrid(r.value, h, w)
    ensures r.Ok? && cfg.autoscale ==> IsU16(r.value)
  {
    var g1 := if cfg.invert then InvertImage(g) else g;
    var g2 :- if cfg.despeckle then Despeckle(lib, g1, h, w) else Ok(g1);
    var g3 :- if cfg.autoscale then Autoscale(lib, g2) else Ok(g2);
    AutoscaledShape(lib, cfg, g2, h, w);
    Ok(if cfg.flip then FlipHorizontal(g3) else g3)
  }

  /** The autoscale step keeps the shape and yields uint16 values, and so does mirroring afterwards. */
  lemma AutoscaledShape(lib: Lib, cfg: Settings, g: Grid, h: nat, w: nat)
    requires IsGrid(g, h, w)
    ensures cfg.autoscale && Autoscale(lib, g).Ok? ==>
      var s := Autoscale(lib, g).value;
      IsGrid(s, h, w) && IsU16(s) && IsGrid(FlipHorizontal(s), h, w) && IsU16(FlipHorizontal(s))
    ensures !cfg.autoscale ==> IsGrid(FlipHorizontal(g), h, w)
  {
    if cfg.autoscale && Autoscale(lib, g).Ok? {
      var s := Autoscale(lib, g).value;
      AutoscaleIsMonotone(lib, g, h, w);
      FlipMirrors(s, h, w);
    }
  }

  /**
   * The output has the cropped size whatever the settings, holds only uint16
   * values when autoscaling is on, and with only the fill ticked every pixel
   * that no bad-pixel row addresses keeps its value from the file.
   */
  lemma PrettifiedShape(lib: Lib, cfg: Settings, raw: Grid, h: nat, w: nat, rows: seq<seq<string>>)
    requires IsGrid(raw, h, w) && PrettifySpec(lib, cfg, raw, h, w, rows).Ok?
    ensures IsGrid(PrettifySpec(lib, cfg, raw, h, w, rows).value, Min(h, FrameRows), Min(w, FrameCols))
    ensures cfg.autoscale ==> IsU16(PrettifySpec(lib, cfg, raw, h, w, rows).value)
    ensures cfg == Settings(true, false, false, false, false) ==>
      var bad := BadPixelList(rows).value;
      forall i, j | 0 <= i < Min(h, FrameRows) && 0 <= j < Min(w, FrameCols) && !Listed(bad, Min(h, FrameRows), Min(w, FrameCols), i, j) ::
        PrettifySpec(lib, cfg, raw, h, w, rows).value[i][j] == raw[i][j]
  {
    var h', w' := Min(h, FrameRows), Min(w, FrameCols);
    var g0 := Crop(raw, h, w);
    if cfg == Settings(true, false, false, false, false) {
      SweepsTouchOnlyListed(g0, h', w', BadPixelList(rows).value, PrettifySweeps);
    }
  }

  /** Prettify's treatment of one image: the fill runs in place on the cropped array. */
  method PrettifyImage(lib: Lib, cfg: Settings, raw: Grid, h: nat, w: nat, rows: seq<seq<string>>) returns (r: Result<Grid>)
    requires IsGrid(raw, h, w)
    ensures r == PrettifySpec(lib, cfg, raw, h, w, rows)
  {
    var h', w' := Min(h, FrameRows), Min(w, FrameCols);
    var g := Crop(raw, h, w);
    if cfg.autofill {
      var bad := ReadBadPixels(rows);
      if bad.Err? {
        return Err(bad.error);
      }
      var img := new int[h', w']((i, j) => if 0 <= i < |g| && 0 <= j < |g[i]| then g[i][j] else 0);
      GridsEqual(Contents(img), g, h', w');
      var ok := Fill(img, bad.value, PrettifySweeps);
      if !ok {
        return Err(Sweeps(g, h', w', bad.value, PrettifySweeps).error);
      }
      g := Contents(img);
    }
    r := Finish(lib, cfg, g, h', w');
  }
}
