/**
 * findEdge (MTF/MTF_Functions.py): clean the AOI, locate the edge, and with
 * dynamicAoi on, twice re-centre the AOI on the edge, copy it out of the
 * frame again, clean it and locate the edge in it. A raise in the first
 * cleanEdge leaves findEdge; a failed getLine ends it without an edge; a
 * raise in the re-centring loop ends the loop with whatever it had done.
 */
module FindEdge {
  import opened Numerics
  import opened Grids
  import opened EdgeLocator
  import opened Aoi
  import opened CleanEdge

  /**
   * The settings findEdge reads from the window, and the neighbour test its
   * cleanEdge applies: AsWritten is the code's, Intended the corrected one.
   */
  datatype Settings = Settings(aoiSize: int, factor: real, removeDeadPixels: bool, dynamicAoi: bool, comparison: Comparison)

  /** Where the AOI is: its centre, its pixels and their shape, and the edge found in it. */
  datatype Placement = Placement(x: int, y: int, aoi: Grid, h: nat, w: nat, fit: EdgeFit)

  /** What findEdge ends in. */
  datatype Located =
    | Raised                                   // the first cleanEdge raised IndexError
    | NoEdge(aoi: Grid)                        // getLine failed; the analyse button stays off
    | Found(at: Placement, moveFailed: bool)   // moveFailed: "Could not move the AOI!"

  predicate Shaped(p: Placement)
  {
    IsGrid(p.aoi, p.h, p.w)
  }

  /**
   * One pass of the re-centring loop: adjustAoi, drawAoi, cleanEdge, getLine.
   * The flag is false when a step raised; the placement then holds the steps
   * done so far (the edge of the previous pass stays, because getLine raises
   * before it assigns).
   */
  function Relocate(lib: Lib, frame: Grid, fh: nat, fw: nat, s: Settings, p: Placement): (r: (Placement, bool))
    requires IsGrid(frame, fh, fw) && Shaped(p)
    ensures Shaped(r.0)
  {
    match AdjustAoi(lib, p.fit.edge, s.aoiSize, p.x, p.y)
    case Err(_) => (p, false)
    case Ok(centre) =>
      var cleaned := Redraw(lib, frame, fh, fw, s, centre.0, centre.1);
      var q := Placement(centre.0, centre.1, cleaned.0.grid, cleaned.1, cleaned.2, p.fit);
      if cleaned.0.failed then (q, false)
      else
        match GetLine(lib, DetectLineSpec(lib, q.aoi, q.h, q.w))
        case Err(_) => (q, false)
        case Ok(fit) => (q.(fit := fit), true)
  }

  /** drawAoi around (x, y) followed by cleanEdge: the cleaned AOI and its shape. */
  function Redraw(lib: Lib, frame: Grid, fh: nat, fw: nat, s: Settings, x: int, y: int): (r: (Outcome, nat, nat))
    requires IsGrid(frame, fh, fw)
    ensures IsGrid(r.0.grid, r.1, r.2)
  {
    var win := AoiWindow(x, y, s.aoiSize);
    var b := CropBounds(fh, fw, win);
    (CleanEdgeSpec(lib, Crop(frame, fh, fw, win), b.1 - b.0, b.3 - b.2, s.factor, s.removeDeadPixels, s.comparison),
     b.1 - b.0, b.3 - b.2)
  }

  /** The remaining n passes of the loop; the flag says a pass raised. */
  function Moves(lib: Lib, frame: Grid, fh: nat, fw: nat, s: Settings, p: Placement, n: nat): (r: (Placement, bool))
    requires IsGrid(frame, fh, fw) && Shaped(p)
    ensures Shaped(r.0)
    decreases n
  {
    if n == 0 then (p, false)
    else
      var (q, ok) := Relocate(lib, frame, fh, fw, s, p);
      if !ok then (q, true) else Moves(lib, frame, fh, fw, s, q, n - 1)
  }

  /** findEdge, from the AOI drawAoi last produced around (x, y). */
  function FindEdgeSpec(lib: Lib, frame: Grid, fh: nat, fw: nat, s: Settings, x: int, y: int,
                        aoi: Grid, h: nat, w: nat): (r: Located)
    requires IsGrid(frame, fh, fw) && IsGrid(aoi, h, w)
    ensures r.Found? ==> Shaped(r.at)
  {
    var cleaned := CleanEdgeSpec(lib, aoi, h, w, s.factor, s.removeDeadPixels, s.comparison);
    if cleaned.failed then Raised
    else
      match GetLine(lib, DetectLineSpec(lib, cleaned.grid, h, w))
      case Err(_) => NoEdge(cleaned.grid)
      case Ok(fit) =>
        var p := Placement(x, y, cleaned.grid, h, w, fit);
        if s.dynamicAoi then
          var (q, failed) := Moves(lib, frame, fh, fw, s, p, 2);
          Found(q, failed)
        else Found(p, false)
  }

  // ---------------------------------------------------------------------------
  // Properties.

  /** findEdge raises only on an AOI one pixel thick. */
  lemma RaisesOnlyOnThinAoi(lib: Lib, frame: Grid, fh: nat, fw: nat, s: Settings, x: int, y: int,
                            aoi: Grid, h: nat, w: nat)
    requires IsGrid(frame, fh, fw) && IsGrid(aoi, h, w)
    requires FindEdgeSpec(lib, frame, fh, fw, s, x, y, aoi, h, w) == Raised
    ensures h < 2 || w < 2
  {
    if 2 <= h && 2 <= w {
      NoFailureOnWideAoi(lib, aoi, h, w, s.factor, s.removeDeadPixels, s.comparison);
    }
  }

  /**
   * adjustAoi's division dy / dx never raises inside findEdge: every edge
   * getLine produces runs from x = -1000 to x = 1000.
   */
  lemma AdjustNeverDividesByZero(lib: Lib, frame: Grid, fh: nat, fw: nat, s: Settings, p: Placement, n: nat)
    requires IsGrid(frame, fh, fw) && Shaped(p)
    requires p.fit.edge.x1 == -1000 && p.fit.edge.x2 == 1000
    ensures var r := Moves(lib, frame, fh, fw, s, p, n).0;
      r.fit.edge.x1 == -1000 && r.fit.edge.x2 == 1000
    ensures n > 0 ==> AdjustAoi(lib, p.fit.edge, s.aoiSize, p.x, p.y).Ok?
    decreases n
  {
    if n > 0 {
      var (q, ok) := Relocate(lib, frame, fh, fw, s, p);
      if ok {
        AdjustNeverDividesByZero(lib, frame, fh, fw, s, q, n - 1);
      }
    }
  }

  /** The static case: findEdge keeps the AOI's centre and pixels once cleaned. */
  lemma StaticAoiStays(lib: Lib, frame: Grid, fh: nat, fw: nat, s: Settings, x: int, y: int,
                       aoi: Grid, h: nat, w: nat)
    requires IsGrid(frame, fh, fw) && IsGrid(aoi, h, w) && !s.dynamicAoi
    ensures var r := FindEdgeSpec(lib, frame, fh, fw, s, x, y, aoi, h, w);
      r.Found? ==>
        && r.at.x == x && r.at.y == y && !r.moveFailed
        && r.at.aoi == CleanEdgeSpec(lib, aoi, h, w, s.factor, s.removeDeadPixels, s.comparison).grid
  {
  }

  // ---------------------------------------------------------------------------
  // The procedure over arrays.

  /**
   * One pass of the re-centring loop over arrays: the AOI array it ends
   * with is the current one when adjustAoi raised, the fresh copy otherwise.
   */
  method RelocateOnce(lib: Lib, frame: array2<int>, s: Settings, p: Placement, current: array2<int>)
    returns (q: Placement, ok: bool, last: array2<int>)
    requires Shaped(p) && Contents(current) == p.aoi
    ensures (q, ok) == Relocate(lib, Contents(frame), frame.Length0, frame.Length1, s, p)
    ensures Contents(last) == q.aoi
  {
    var next := AdjustAoi(lib, p.fit.edge, s.aoiSize, p.x, p.y);
    if next.Err? {
      return p, false, current;
    }
    var (nx, ny) := next.value;
    var cleaned;
    last, cleaned := DrawAndClean(lib, frame, s, nx, ny);
    q := Placement(nx, ny, Contents(last), last.Length0, last.Length1, p.fit);
    if !cleaned {
      return q, false, last;
    }
    var line := DetectLine(lib, last);
    var got := GetLine(lib, line);
    if got.Err? {
      return q, false, last;
    }
    return q.(fit := got.value), true, last;
  }

  /** drawAoi then cleanEdge on the fresh AOI. */
  method DrawAndClean(lib: Lib, frame: array2<int>, s: Settings, x: int, y: int) returns (img: array2<int>, ok: bool)
    ensures (Outcome(Contents(img), !ok), img.Length0, img.Length1)
      == Redraw(lib, Contents(frame), frame.Length0, frame.Length1, s, x, y)
  {
    ghost var F := Contents(frame);
    img := DrawAoi(frame, x, y, s.aoiSize);
    RedrawOfCrop(lib, F, frame.Length0, frame.Length1, s, x, y, Contents(img), img.Length0, img.Length1);
    ok := Clean(lib, img, s.factor, s.removeDeadPixels, s.comparison);
    assert Contents(frame) == F;
  }

  /** Redraw is cleanEdge on the crop drawAoi returns. */
  lemma RedrawOfCrop(lib: Lib, frame: Grid, fh: nat, fw: nat, s: Settings, x: int, y: int, aoi: Grid, h: nat, w: nat)
    requires IsGrid(frame, fh, fw)
    requires var b := CropBounds(fh, fw, AoiWindow(x, y, s.aoiSize));
      h == b.1 - b.0 && w == b.3 - b.2 && aoi == Crop(frame, fh, fw, AoiWindow(x, y, s.aoiSize))
    ensures IsGrid(aoi, h, w)
    ensures Redraw(lib, frame, fh, fw, s, x, y) == (CleanEdgeSpec(lib, aoi, h, w, s.factor, s.removeDeadPixels, s.comparison), h, w)
  {
  }

  /** The loop `for i in range(2)` inside one try: the first pass that raises ends it. */
  method Recentre(lib: Lib, frame: array2<int>, s: Settings, p: Placement, current: array2<int>)
    returns (q: Placement, failed: bool, last: array2<int>)
    requires Shaped(p) && Contents(current) == p.aoi
    ensures (q, failed) == Moves(lib, Contents(frame), frame.Length0, frame.Length1, s, p, 2)
    ensures Contents(last) == q.aoi
  {
    q, last := p, current;
    for i := 0 to 2
      invariant Shaped(q) && Contents(last) == q.aoi
      invariant Moves(lib, Contents(frame), frame.Length0, frame.Length1, s, q, 2 - i)
        == Moves(lib, Contents(frame), frame.Length0, frame.Length1, s, p, 2)
    {
      var ok;
      q, ok, last := RelocateOnce(lib, frame, s, q, last);
      if !ok {
        return q, true, last;
      }
    }
    return q, false, last;
  }

  /**
   * findEdge on the frame and the current AOI array, which it cleans in
   * place; the re-centring loop works on fresh copies, and the last AOI is
   * returned.
   */
  method Find(lib: Lib, frame: array2<int>, s: Settings, x: int, y: int, aoi: array2<int>)
    returns (r: Located, last: array2<int>)
    requires frame != aoi
    modifies aoi
    ensures r == FindEdgeSpec(lib, Contents(frame), frame.Length0, frame.Length1, s, x, y,
                              old(Contents(aoi)), aoi.Length0, aoi.Length1)
    ensures r.Found? ==> Contents(last) == r.at.aoi
    ensures Contents(aoi) == CleanEdgeSpec(lib, old(Contents(aoi)), aoi.Length0, aoi.Length1,
                                           s.factor, s.removeDeadPixels, s.comparison).grid
  {
    last := aoi;
    var ok := Clean(lib, aoi, s.factor, s.removeDeadPixels, s.comparison);
    if !ok {
      return Raised, last;
    }
    var line := DetectLine(lib, aoi);
    var got := GetLine(lib, line);
    if got.Err? {
      return NoEdge(Contents(aoi)), last;
    }
    var p := Placement(x, y, Contents(aoi), aoi.Length0, aoi.Length1, got.value);
    if !s.dynamicAoi {
      return Found(p, false), last;
    }
    var q, failed;
    q, failed, last := Recentre(lib, frame, s, p, aoi);
    return Found(q, failed), last;
  }
}
