/**
 * The whole-nine-yards tool (Tools/wholenineyards_process.py): the worker
 * reads the bad-pixel list, keeps the ancillary columns (1280 onwards) of
 * every raw frame, writes the settings file for the external NUC program and
 * then takes each corrected frame through the bad-pixel fill (eight sweeps),
 * inversion, despeckling and autoscaling, re-attaching the ancillary columns
 * to every copy it saves.
 */
module Wholenineyards {
  import opened Numerics
  import opened Grids
  import opened BadPixels
  import opened Prettify

  /** How many times the worker sweeps the bad-pixel list. */
  const WnySweeps: nat := 8

  // ---------------------------------------------------------------------------
  // Ancillary columns.

  /** A frame as read from disk, with its shape. */
  datatype Frame = Frame(pixels: Grid, h: nat, w: nat)

  predicate AllFrames(frames: seq<Frame>)
  {
    forall k | 0 <= k < |frames| :: IsGrid(frames[k].pixels, frames[k].h, frames[k].w)
  }

  /**
   * raw_tif[0:height, 1280:width] of an rh x rw frame: the first height rows
   * and the columns from 1280 up to width, both cut short by the frame.
   */
  function Ancillary(raw: Grid, rh: nat, rw: nat, height: nat, width: nat): (r: Grid)
    requires IsGrid(raw, rh, rw)
    ensures IsGrid(r, Min(height, rh), Max(Min(width, rw) - FrameCols, 0))
    ensures forall i, j | 0 <= i < Min(height, rh) && 0 <= j < Max(Min(width, rw) - FrameCols, 0) ::
      r[i][j] == raw[i][FrameCols + j]
  {
    var rows := SliceRange(0, height, rh);
    var cols := SliceRange(FrameCols, width, rw);
    seq(rows.1 - rows.0, i requires 0 <= i < rows.1 - rows.0 => raw[rows.0 + i][cols.0..cols.1])
  }

  /**
   * cv2.hconcat of two images: each row of the left image followed by the
   * same row of the right one; images with different row counts raise cv2.error.
   */
  function HConcat(left: Grid, right: Grid): (r: Result<Grid>)
    ensures r.Ok? <==> |left| == |right|
    ensures r.Ok? ==> |r.value| == |left| && forall i | 0 <= i < |left| ::
      |r.value[i]| == |left[i]| + |right[i]| && r.value[i][..|left[i]|] == left[i] && r.value[i][|left[i]|..] == right[i]
  {
    if |left| != |right| then Err(CvError)
    else Ok(seq(|left|, i requires 0 <= i < |left| => left[i] + right[i]))
  }

  /**
   * Attaching an ancillary block to an h x w image gives an h x (w + c)
   * image whose first w columns are the image and whose last c columns are
   * the block, unchanged.
   */
  lemma HConcatKeepsAncillary(img: Grid, anc: Grid, h: nat, w: nat, c: nat)
    requires IsGrid(img, h, w) && IsGrid(anc, h, c)
    ensures HConcat(img, anc).Ok?
    ensures var r := HConcat(img, anc).value;
      IsGrid(r, h, w + c) &&
      (forall i, j | 0 <= i < h && 0 <= j < w :: r[i][j] == img[i][j]) &&
      (forall i, j | 0 <= i < h && 0 <= j < c :: r[i][w + j] == anc[i][j])
  {
    var r := HConcat(img, anc).value;
    forall i | 0 <= i < h
      ensures |r[i]| == w + c
      ensures forall j | 0 <= j < w :: r[i][j] == img[i][j]
      ensures forall j | 0 <= j < c :: r[i][w + j] == anc[i][j]
    {
      assert r[i][..w] == img[i] && r[i][w..] == anc[i];
      forall j | 0 <= j < w
        ensures r[i][j] == img[i][j]
      {
        assert r[i][..w][j] == r[i][j];
      }
      forall j | 0 <= j < c
        ensures r[i][w + j] == anc[i][j]
      {
        assert r[i][w..][j] == r[i][w + j];
      }
    }
  }

  /**
   * Splitting a frame of at most 1024 rows and at least 1280 columns into the
   * 1024 x 1280 image and its ancillary block, then attaching the block
   * again, gives the frame back.
   */
  lemma AncillaryRoundTrip(raw: Grid, h: nat, w: nat)
    requires IsGrid(raw, h, w) && h <= FrameRows && FrameCols <= w
    ensures HConcat(Crop(raw, h, w), Ancillary(raw, h, w, h, w)) == Ok(raw)
  {
    var left, right := Crop(raw, h, w), Ancillary(raw, h, w, h, w);
    assert |left| == h && |right| == h;
    var r := HConcat(left, right).value;
    forall i | 0 <= i < h
      ensures r[i] == raw[i]
    {
      assert left[i] == raw[i][..FrameCols];
      assert right[i] == raw[i][FrameCols..];
      assert raw[i] == raw[i][..FrameCols] + raw[i][FrameCols..];
    }
    assert r == raw;
  }

  /** The ancillary blocks of all frames, cut to the first frame's shape. */
  function AncillaryOf(raws: seq<Frame>): (r: seq<Grid>)
    requires AllFrames(raws) && raws != []
    ensures |r| == |raws|
    ensures forall k | 0 <= k < |raws| :: r[k] == Ancillary(raws[k].pixels, raws[k].h, raws[k].w, raws[0].h, raws[0].w)
  {
    seq(|raws|, k requires 0 <= k < |raws| => Ancillary(raws[k].pixels, raws[k].h, raws[k].w, raws[0].h, raws[0].w))
  }

  /**
   * With every frame the shape of the first, the blocks are height x
   * (width - 1280) and hold each frame's columns from 1280 on.
   */
  lemma SameShapeAncillary(raws: seq<Frame>, k: nat)
    requires AllFrames(raws) && raws != [] && k < |raws|
    requires raws[k].h == raws[0].h && raws[k].w == raws[0].w && FrameCols <= raws[0].w
    ensures IsGrid(AncillaryOf(raws)[k], raws[0].h, raws[0].w - FrameCols)
    ensures forall i, j | 0 <= i < raws[0].h && 0 <= j < raws[0].w - FrameCols ::
      AncillaryOf(raws)[k][i][j] == raws[k].pixels[i][FrameCols + j]
  {
    var f := raws[k];
    assert Min(f.h, f.h) == f.h && Max(Min(f.w, f.w) - FrameCols, 0) == f.w - FrameCols;
  }

  // ---------------------------------------------------------------------------
  // The settings file for the NUC program.

  /** The eight fixed lines of images_to_process.txt. */
  function Header(calib: string, inputDir: string, outputDir: string): (r: seq<string>)
    ensures |r| == 8
  {
    [ "# SVuNtcApplySettings \n",
      "version=1 \n",
      "# The calibration to be applied to images.\n",
      "calibration = \"" + calib + "\"\n",
      "# Folder containing the input images.\n",
      "image_folder=\"" + inputDir + "\"\n",
      "# Folder where the corrected images will be stored.\n",
      "output_folder=\"" + outputDir + "\"\n" ]
  }

  /** "image={}\n".format(name). */
  function ImageLine(name: string): string
  {
    "image=" + name + "\n"
  }

  /** The lines written to images_to_process.txt, in order. */
  function SettingsLines(calib: string, inputDir: string, outputDir: string, images: seq<string>): (r: seq<string>)
    ensures |r| == 8 + |images|
    ensures r[..8] == Header(calib, inputDir, outputDir)
    ensures forall i | 0 <= i < |images| :: r[8 + i] == "image=" + images[i] + "\n"
  {
    Header(calib, inputDir, outputDir) + seq(|images|, i requires 0 <= i < |images| => ImageLine(images[i]))
  }

  /** The text of a file written line by line. */
  function Join(lines: seq<string>): string
    decreases |lines|
  {
    if lines == [] then "" else Join(lines[..|lines| - 1]) + lines[|lines| - 1]
  }

  /** Writes images_to_process.txt: the header, then one line per image in glob order. */
  method WriteSettings(calib: string, inputDir: string, outputDir: string, images: seq<string>) returns (text: string)
    ensures text == Join(SettingsLines(calib, inputDir, outputDir, images))
  {
    var lines := SettingsLines(calib, inputDir, outputDir, images);
    text := "";
    var n := 0;
    while n < |lines|
      invariant n <= |lines|
      invariant text == Join(lines[..n])
    {
      assert lines[..n + 1][..n] == lines[..n];
      text := text + lines[n];
      n := n + 1;
    }
    assert lines[..n] == lines;
  }

  /** How many characters up to and including the first newline (all of them if there is none). */
  function LineLength(s: string): (n: nat)
    ensures n <= |s| && (s != [] ==> 0 < n)
    decreases |s|
  {
    if s == [] then 0 else if s[0] == '\n' then 1 else 1 + LineLength(s[1..])
  }

  /** A text cut after each newline, as a reader of the file sees its lines. */
  function Lines(s: string): seq<string>
    decreases |s|
  {
    if s == [] then [] else [s[..LineLength(s)]] + Lines(s[LineLength(s)..])
  }

  /** A line: some text without a newline, then a newline. */
  predicate IsLine(l: string)
  {
    l != [] && l[|l| - 1] == '\n' && forall i | 0 <= i < |l| - 1 :: l[i] != '\n'
  }

  lemma {:induction false} FirstLineEnds(l: string, rest: string)
    requires IsLine(l)
    ensures LineLength(l + rest) == |l|
    decreases |l|
  {
    if l[0] != '\n' {
      assert (l + rest)[1..] == l[1..] + rest;
      FirstLineEnds(l[1..], rest);
    }
  }

  /** Reading the lines back from a text written line by line gives the lines. */
  lemma {:induction false} LinesOfJoin(lines: seq<string>)
    requires forall i | 0 <= i < |lines| :: IsLine(lines[i])
    ensures Lines(Join(lines)) == lines
    decreases |lines|
  {
    if lines != [] {
      JoinFront(lines);
      FirstLineEnds(lines[0], Join(lines[1..]));
      var s := Join(lines);
      assert s[..|lines[0]|] == lines[0];
      assert s[|lines[0]|..] == Join(lines[1..]);
      LinesOfJoin(lines[1..]);
    }
  }

  /** Join taken from the front. */
  lemma {:induction false} JoinFront(lines: seq<string>)
    requires lines != []
    ensures Join(lines) == lines[0] + Join(lines[1..])
    decreases |lines|
  {
    if |lines| > 1 {
      var init := lines[..|lines| - 1];
      JoinFront(init);
      assert init[1..] == lines[1..][..|lines[1..]| - 1];
    } else {
      assert lines[..0] == [] && lines[1..] == [];
    }
  }

  /** The name an image line carries: the text between "image=" and the newline. */
  function ImageName(line: string): string
  {
    if 7 <= |line| then line[6..|line| - 1] else ""
  }

  /**
   * With no newline in the names, directories or calibration file, the file
   * reads back as exactly eight header lines followed by one image line per
   * image, in the order given, each naming its image.
   */
  lemma SettingsReadBack(calib: string, inputDir: string, outputDir: string, images: seq<string>)
    requires '\n' !in calib && '\n' !in inputDir && '\n' !in outputDir
    requires forall i | 0 <= i < |images| :: '\n' !in images[i]
    ensures var lines := Lines(Join(SettingsLines(calib, inputDir, outputDir, images)));
      |lines| == 8 + |images| &&
      lines[..8] == Header(calib, inputDir, outputDir) &&
      forall i | 0 <= i < |images| :: lines[8 + i] == ImageLine(images[i]) && ImageName(lines[8 + i]) == images[i]
  {
    var ls := SettingsLines(calib, inputDir, outputDir, images);
    HeaderLines(calib, inputDir, outputDir);
    forall i | 8 <= i < |ls|
      ensures IsLine(ls[i])
    {
      ImageLineReadsBack(images[i - 8]);
    }
    LinesOfJoin(ls);
    forall i | 0 <= i < |images|
      ensures ImageName(ImageLine(images[i])) == images[i]
    {
      ImageLineReadsBack(images[i]);
    }
  }

  /** Each header line is one line of the file. */
  lemma HeaderLines(calib: string, inputDir: string, outputDir: string)
    requires '\n' !in calib && '\n' !in inputDir && '\n' !in outputDir
    ensures forall i | 0 <= i < 8 :: IsLine(Header(calib, inputDir, outputDir)[i])
  {
    CommentLines();
    QuotedLine("calibration = \"", calib);
    QuotedLine("image_folder=\"", inputDir);
    QuotedLine("output_folder=\"", outputDir);
  }

  /** The five fixed lines of the header are single lines. */
  lemma CommentLines()
    ensures IsLine("# SVuNtcApplySettings \n") && IsLine("version=1 \n")
    ensures IsLine("# The calibration to be applied to images.\n")
    ensures IsLine("# Folder containing the input images.\n")
    ensures IsLine("# Folder where the corrected images will be stored.\n")
  {
    TextLine("# SVuNtcApplySettings ");
    TextLine("version=1 ");
    TextLine("# The calibration to be applied to images.");
    TextLine("# Folder containing the input images.");
    OutputCommentLine();
  }

  /** The comment before output_folder is a single line. */
  lemma OutputCommentLine()
    ensures IsLine("# Folder where the corrected images will be stored.\n")
  {
    TextLine("# Folder where the corrected " + "images will be stored.");
    assert "# Folder where the corrected " + "images will be stored." + "\n"
      == "# Folder where the corrected images will be stored.\n";
  }

  /** Text without a newline, then a newline, makes a line. */
  lemma TextLine(text: string)
    requires forall i | 0 <= i < |text| :: text[i] != '\n'
    ensures IsLine(text + "\n")
  {
    var l := text + "\n";
    forall t | 0 <= t < |l| - 1
      ensures l[t] != '\n'
    {
      assert l[t] == text[t];
    }
  }

  /** An image line is one line of the file, and the name reads back from it. */
  lemma ImageLineReadsBack(name: string)
    requires '\n' !in name
    ensures IsLine(ImageLine(name)) && ImageName(ImageLine(name)) == name
  {
    var l := ImageLine(name);
    forall t | 0 <= t < |l| - 1
      ensures l[t] != '\n'
    {
      if t >= 6 {
        assert l[t] == name[t - 6];
      }
    }
    assert l[6..|l| - 1] == name;
  }

  /** A key, a quoted value without newlines and a newline make a line. */
  lemma QuotedLine(key: string, value: string)
    requires (forall i | 0 <= i < |key| :: key[i] != '\n') && '\n' !in value
    ensures IsLine(key + value + "\"\n")
  {
    var l := key + value + "\"\n";
    forall t | 0 <= t < |l| - 1
      ensures l[t] != '\n'
    {
      if t < |key| {
        assert l[t] == key[t];
      } else if t < |key| + |value| {
        assert l[t] == value[t - |key|];
      }
    }
  }

  // ---------------------------------------------------------------------------
  // One corrected frame.

  /** The optional copies the worker saves. */
  datatype Copies = Copies(nuc: bool, badPixel: bool, inverted: bool, despeckled: bool)

  /** What the worker writes for one frame: the optional copies, the scaled copy, and the image it colour-maps. */
  datatype Written = Written(nuc: Option<Grid>, badPixel: Option<Grid>, inverted: Option<Grid>,
                             despeckled: Option<Grid>, scaled: Grid, image: Grid)

  /** self.ancillary_data[k]. */
  function AncillaryAt(anc: seq<Grid>, k: nat): (r: Result<Grid>)
    ensures r.Ok? <==> k < |anc|
    ensures r.Ok? ==> r.value == anc[k]
  {
    if k < |anc| then Ok(anc[k]) else Err(IndexError)
  }

  /** An optional copy: the image with the k-th ancillary block attached, when that copy is ticked. */
  function Copy(on: bool, g: Grid, anc: seq<Grid>, k: nat): (r: Result<Option<Grid>>)
    ensures r.Ok? <==> !on || (k < |anc| && |g| == |anc[k]|)
    ensures r.Ok? ==> (r.value.Some? <==> on)
    ensures r.Ok? && on ==> HConcat(g, anc[k]) == Ok(r.value.value)
  {
    if !on then Ok(None)
    else
      var a :- AncillaryAt(anc, k);
      var c :- HConcat(g, a);
      Ok(Some(c))
  }

  /** The steps after the fill: invert, despeckle and scale, each followed by its copy. */
  function Enhance(lib: Lib, copies: Copies, f: Grid, h: nat, w: nat, anc: seq<Grid>, k: nat): (r: Result<Written>)
    requires IsGrid(f, h, w)
    ensures r.Ok? ==> IsGrid(r.value.image, h, w) && IsU16(r.value.image)
    ensures r.Ok? ==> k < |anc| && |anc[k]| == h && FrameRows <= h && FrameCols <= w
  {
    var fixed :- Copy(copies.badPixel, f, anc, k);
    var inv := InvertImage(f);
    var invOut :- Copy(copies.inverted, inv, anc, k);
    var d :- Despeckle(lib, inv, h, w);
    var despOut :- Copy(copies.despeckled, d, anc, k);
    var s :- Autoscale(lib, d);
    AutoscaleIsMonotone(lib, d, h, w);
    var a :- AncillaryAt(anc, k);
    var scaled :- HConcat(s, a);
    Ok(Written(None, fixed, invOut, despOut, scaled, s))
  }

  /** The worker's treatment of the k-th corrected frame. */
  function ProcessSpec(lib: Lib, copies: Copies, g: Grid, h: nat, w: nat, bad: seq<Cell>, anc: seq<Grid>, k: nat): (r: Result<Written>)
    requires IsGrid(g, h, w)
    ensures r.Ok? ==> IsGrid(r.value.image, h, w) && IsU16(r.value.image)
    ensures |anc| <= k ==> r.Err?
  {
    var nuc :- Copy(copies.nuc, g, anc, k);
    var f :- Sweeps(g, h, w, bad, WnySweeps);
    var rest :- Enhance(lib, copies, f, h, w, anc, k);
    Ok(rest.(nuc := nuc))
  }

  /**
   * For a frame that goes through: every saved copy carries the k-th
   * ancillary block after the image unchanged; the bad-pixel copy differs
   * from the frame only at listed pixels; the inverted copy holds 65535
   * minus each filled pixel, whether or not inversion was ticked; and the
   * scaled image is the autoscaled despeckled one, in the same order as its
   * input when the percentiles differ.
   */
  lemma ProcessedOutputs(lib: Lib, copies: Copies, g: Grid, h: nat, w: nat, bad: seq<Cell>, anc: seq<Grid>, k: nat)
    requires IsGrid(g, h, w)
    requires ProcessSpec(lib, copies, g, h, w, bad, anc, k).Ok?
    ensures var r := ProcessSpec(lib, copies, g, h, w, bad, anc, k).value;
      var f := Sweeps(g, h, w, bad, WnySweeps).value;
      k < |anc| && |anc[k]| == h &&
      (forall i | 0 <= i < h :: r.scaled[i][..w] == r.image[i] && r.scaled[i][w..] == anc[k][i]) &&
      (copies.nuc ==> forall i | 0 <= i < h :: r.nuc.value[i][..w] == g[i] && r.nuc.value[i][w..] == anc[k][i]) &&
      (copies.badPixel ==> forall i | 0 <= i < h :: r.badPixel.value[i][w..] == anc[k][i]) &&
      (copies.badPixel ==> forall i, j | 0 <= i < h && 0 <= j < w && !Listed(bad, h, w, i, j) :: r.badPixel.value[i][j] == g[i][j]) &&
      (copies.inverted ==> forall i | 0 <= i < h :: r.inverted.value[i][w..] == anc[k][i]) &&
      (copies.inverted ==> forall i, j | 0 <= i < h && 0 <= j < w :: r.inverted.value[i][j] == MaxU16 - f[i][j]) &&
      (copies.despeckled ==> forall i | 0 <= i < h ::
         r.despeckled.value[i][..w] == Despeckle(lib, InvertImage(f), h, w).value[i] && r.despeckled.value[i][w..] == anc[k][i]) &&
      r.image == Autoscale(lib, Despeckle(lib, InvertImage(f), h, w).value).value
  {
    var f := Sweeps(g, h, w, bad, WnySweeps).value;
    var e := Enhance(lib, copies, f, h, w, anc, k).value;
    var r := ProcessSpec(lib, copies, g, h, w, bad, anc, k).value;
    assert r == e.(nuc := Copy(copies.nuc, g, anc, k).value);
    EnhancedOutputs(lib, copies, f, h, w, anc, k);
    if copies.nuc {
      CopyRows(copies.nuc, g, h, w, anc, k);
    }
    if copies.badPixel {
      SweepsTouchOnlyListed(g, h, w, bad, WnySweeps);
      var c := r.badPixel.value;
      forall i, j | 0 <= i < h && 0 <= j < w && !Listed(bad, h, w, i, j)
        ensures c[i][j] == g[i][j]
      {
        assert c[i][..w] == f[i];
        assert c[i][..w][j] == c[i][j];
      }
    }
    if copies.inverted {
      var c := r.inverted.value;
      var inv := InvertImage(f);
      forall i, j | 0 <= i < h && 0 <= j < w
        ensures c[i][j] == MaxU16 - f[i][j]
      {
        assert c[i][..w] == inv[i];
        assert c[i][..w][j] == c[i][j];
      }
    }
  }

  /** A saved copy holds the image in its first w columns and the ancillary block after them. */
  lemma CopyRows(on: bool, g: Grid, h: nat, w: nat, anc: seq<Grid>, k: nat)
    requires IsGrid(g, h, w) && on && Copy(on, g, anc, k).Ok?
    ensures k < |anc| && |anc[k]| == h
    ensures var c := Copy(on, g, anc, k).value.value;
      forall i | 0 <= i < h :: c[i][..w] == g[i] && c[i][w..] == anc[k][i]
  {
  }

  /** What the steps after the fill leave: each copy holds its stage's image, then the ancillary block. */
  lemma EnhancedOutputs(lib: Lib, copies: Copies, f: Grid, h: nat, w: nat, anc: seq<Grid>, k: nat)
    requires IsGrid(f, h, w) && Enhance(lib, copies, f, h, w, anc, k).Ok?
    ensures k < |anc| && |anc[k]| == h
    ensures var r := Enhance(lib, copies, f, h, w, anc, k).value;
      && (forall i | 0 <= i < h :: r.scaled[i][..w] == r.image[i] && r.scaled[i][w..] == anc[k][i])
      && (copies.badPixel ==> forall i | 0 <= i < h :: r.badPixel.value[i][..w] == f[i] && r.badPixel.value[i][w..] == anc[k][i])
      && (copies.inverted ==> forall i | 0 <= i < h :: r.inverted.value[i][..w] == InvertImage(f)[i] && r.inverted.value[i][w..] == anc[k][i])
      && (copies.despeckled ==> forall i | 0 <= i < h ::
            r.despeckled.value[i][..w] == Despeckle(lib, InvertImage(f), h, w).value[i] && r.despeckled.value[i][w..] == anc[k][i])
      && r.image == Autoscale(lib, Despeckle(lib, InvertImage(f), h, w).value).value
  {
    var r := Enhance(lib, copies, f, h, w, anc, k).value;
    if copies.badPixel {
      CopyRows(copies.badPixel, f, h, w, anc, k);
    }
    if copies.inverted {
      CopyRows(copies.inverted, InvertImage(f), h, w, anc, k);
    }
    if copies.despeckled {
      CopyRows(copies.despeckled, Despeckle(lib, InvertImage(f), h, w).value, h, w, anc, k);
    }
  }

  /** One numbered frame through ProcessSpec; a frame whose pixels do not have its shape is refused. */
  function Treat(lib: Lib, copies: Copies, bad: seq<Cell>, anc: seq<Grid>, item: (Frame, nat)): Result<Written>
  {
    var (f, k) := item;
    if IsGrid(f.pixels, f.h, f.w) then ProcessSpec(lib, copies, f.pixels, f.h, f.w, bad, anc, k) else Err(ValueError)
  }

  /** Each frame with its image_counter. */
  function Numbered(frames: seq<Frame>): (r: seq<(Frame, nat)>)
    ensures |r| == |frames| && forall k | 0 <= k < |frames| :: r[k] == (frames[k], k)
  {
    seq(|frames|, k requires 0 <= k < |frames| => (frames[k], k))
  }

  /** The processing pass: the frames in order, stopping at the first failure. */
  function RunSpec(lib: Lib, copies: Copies, frames: seq<Frame>, bad: seq<Cell>, anc: seq<Grid>): (r: Result<seq<Written>>)
    ensures r.Ok? ==> |r.value| == |frames|
    ensures frames == [] ==> r == Ok([])
  {
    ParseAll((item: (Frame, nat)) => Treat(lib, copies, bad, anc, item), Numbered(frames), |frames|)
  }

  /**
   * A run over the frames succeeds only with an ancillary block for each of
   * them, and then its k-th output is the k-th frame's treatment with the
   * k-th block.
   */
  lemma RunPairsFrames(lib: Lib, copies: Copies, frames: seq<Frame>, bad: seq<Cell>, anc: seq<Grid>)
    requires AllFrames(frames) && RunSpec(lib, copies, frames, bad, anc).Ok?
    ensures |frames| <= |anc|
    ensures var out := RunSpec(lib, copies, frames, bad, anc).value;
      |out| == |frames| &&
      forall k | 0 <= k < |frames| :: ProcessSpec(lib, copies, frames[k].pixels, frames[k].h, frames[k].w, bad, anc, k) == Ok(out[k])
  {
    var treat := (item: (Frame, nat)) => Treat(lib, copies, bad, anc, item);
    ParsedInOrder(treat, Numbered(frames), |frames|);
    var out := RunSpec(lib, copies, frames, bad, anc).value;
    forall k | 0 <= k < |frames|
      ensures ProcessSpec(lib, copies, frames[k].pixels, frames[k].h, frames[k].w, bad, anc, k) == Ok(out[k])
    {
      assert treat(Numbered(frames)[k]) == Ok(out[k]);
    }
    if frames != [] {
      var k := |frames| - 1;
      assert ProcessSpec(lib, copies, frames[k].pixels, frames[k].h, frames[k].w, bad, anc, k).Ok?;
    }
  }

  // ---------------------------------------------------------------------------
  // The worker.

  /** WorkerThread: the bad-pixel list read at construction and the ancillary blocks collected by run. */
  class Worker {
    var badPixels: seq<Cell>
    var ancillary: seq<Grid>

    constructor(bad: seq<Cell>)
      ensures badPixels == bad && ancillary == []
    {
      badPixels := bad;
      ancillary := [];
    }

    /**
     * The ancillary pass of run: the first frame fixes the block shape and
     * each frame's block is appended in turn; with no frames, reading the
     * first raises IndexError.
     */
    method CollectAncillary(raws: seq<Frame>) returns (r: Result<()>)
      requires AllFrames(raws)
      modifies this
      ensures badPixels == old(badPixels)
      ensures r.Err? <==> raws == []
      ensures r.Ok? ==> ancillary == old(ancillary) + AncillaryOf(raws)
      ensures r.Err? ==> r.error == IndexError && ancillary == old(ancillary)
    {
      if raws == [] {
        return Err(IndexError);
      }
      var height, width := raws[0].h, raws[0].w;
      var k := 0;
      while k < |raws|
        invariant k <= |raws| && badPixels == old(badPixels)
        invariant ancillary == old(ancillary) + AncillaryOf(raws)[..k]
      {
        assert AncillaryOf(raws)[..k + 1] == AncillaryOf(raws)[..k] + [AncillaryOf(raws)[k]];
        ancillary := ancillary + [Ancillary(raws[k].pixels, raws[k].h, raws[k].w, height, width)];
        k := k + 1;
      }
      assert AncillaryOf(raws)[..k] == AncillaryOf(raws);
      return Ok(());
    }

    /** One frame: the fill runs in place on the frame's array, the rest follows Enhance. */
    method ProcessImage(lib: Lib, copies: Copies, g: Grid, h: nat, w: nat, k: nat) returns (r: Result<Written>)
      requires IsGrid(g, h, w)
      ensures r == ProcessSpec(lib, copies, g, h, w, badPixels, ancillary, k)
    {
      var nuc := Copy(copies.nuc, g, ancillary, k);
      if nuc.Err? {
        return Err(nuc.error);
      }
      var img := new int[h, w]((i, j) => if 0 <= i < |g| && 0 <= j < |g[i]| then g[i][j] else 0);
      GridsEqual(Contents(img), g, h, w);
      var ok := Fill(img, badPixels, WnySweeps);
      if !ok {
        return Err(Sweeps(g, h, w, badPixels, WnySweeps).error);
      }
      var rest := Enhance(lib, copies, Contents(img), h, w, ancillary, k);
      if rest.Err? {
        return Err(rest.error);
      }
      return Ok(rest.value.(nuc := nuc.value));
    }

    /** The processing pass of run: the frames in order, the k-th with the k-th ancillary block. */
    method Run(lib: Lib, copies: Copies, frames: seq<Frame>) returns (r: Result<seq<Written>>)
      requires AllFrames(frames)
      ensures r == RunSpec(lib, copies, frames, badPixels, ancillary)
    {
      var bad, anc := badPixels, ancillary;
      var treat := (item: (Frame, nat)) => Treat(lib, copies, bad, anc, item);
      var items := Numbered(frames);
      var done: seq<Written> := [];
      var n := 0;
      while n < |frames|
        invariant n <= |frames|
        invariant ParseAll(treat, items, n) == Ok(done)
      {
        var out := ProcessImage(lib, copies, frames[n].pixels, frames[n].h, frames[n].w, n);
        assert treat(items[n]) == out;
        if out.Err? {
          ParseStops(treat, items, n + 1, |frames|);
          return Err(out.error);
        }
        done := done + [out.value];
        n := n + 1;
      }
      return Ok(done);
    }
  }

  /** WorkerThread.__init__: the bad-pixel rows are parsed before anything else happens. */
  method NewWorker(rows: seq<seq<string>>) returns (r: Result<Worker>)
    ensures r.Err? <==> BadPixelList(rows).Err?
    ensures r.Err? ==> r.error == BadPixelList(rows).error
    ensures r.Ok? ==> fresh(r.value) && r.value.badPixels == BadPixelList(rows).value && r.value.ancillary == []
  {
    var bad := ReadBadPixels(rows);
    if bad.Err? {
      return Err(bad.error);
    }
    var worker := new Worker(bad.value);
    return Ok(worker);
  }
}
