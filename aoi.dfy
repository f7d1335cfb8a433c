/**
 * The area of interest (MTF/MTF_Functions.py, drawAoi and adjustAoi): a
 * square window around the chosen centre, clamped to the 1024 x 1280 sensor
 * frame and copied out of the frame; and the shift that re-centres the
 * window on the fitted edge.
 */
module Aoi {
  import opened Numerics
  import opened Grids
  import opened EdgeLocator
  import opened Misc

  /** The last row and column index of the sensor frame. */
  const LastRow: int := 1023
  const LastCol: int := 1279

  /** Inclusive bounds of the AOI in frame coordinates. */
  datatype Window = Window(top: int, bottom: int, left: int, right: int)

  /** ui.half_width = int((aoiSize - 1) / 2). */
  function HalfWidth(aoiSize: int): (hw: int)
    ensures 1 <= aoiSize ==> hw == (aoiSize - 1) / 2 && 0 <= hw
    ensures 1 <= aoiSize && aoiSize % 2 == 1 ==> 2 * hw + 1 == aoiSize
  {
    Trunc((aoiSize - 1) as real / 2.0)
  }

  /**
   * drawAoi's window: hw pixels either side of the centre, clamped to rows
   * 0..1023 and columns 0..1279. The window never leaves the frame and is at
   * most 2hw + 1 pixels on a side.
   */
  function AoiWindow(x: int, y: int, aoiSize: int): (win: Window)
    ensures 0 <= win.top && win.bottom <= LastRow && 0 <= win.left && win.right <= LastCol
    ensures 0 <= HalfWidth(aoiSize) ==>
      win.bottom - win.top <= 2 * HalfWidth(aoiSize) && win.right - win.left <= 2 * HalfWidth(aoiSize)
  {
    var hw := HalfWidth(aoiSize);
    Window(Max(y - hw, 0), Min(y + hw, LastRow), Max(x - hw, 0), Min(x + hw, LastCol))
  }

  /** A centre inside the frame lies inside its own window, which is therefore never empty. */
  lemma WindowHoldsCentre(x: int, y: int, aoiSize: int)
    requires 0 <= x <= LastCol && 0 <= y <= LastRow && 1 <= aoiSize
    ensures var win := AoiWindow(x, y, aoiSize);
      win.top <= y <= win.bottom && win.left <= x <= win.right
  {
  }

  /** Rows [r0, r1) and columns [c0, c1) that np's slice [top:bottom+1, left:right+1] selects. */
  function CropBounds(h: nat, w: nat, win: Window): (b: (nat, nat, nat, nat))
    ensures b.0 <= b.1 <= h && b.2 <= b.3 <= w
  {
    var rows := SliceRange(win.top, win.bottom + 1, h);
    var cols := SliceRange(win.left, win.right + 1, w);
    (rows.0, rows.1, cols.0, cols.1)
  }

  /**
   * Whatever the frame's size, the AOI around a non-negative centre is at
   * most 2hw + 1 pixels each way.
   */
  lemma CropIsSmall(h: nat, w: nat, x: int, y: int, aoiSize: int)
    requires 1 <= aoiSize && 0 <= x && 0 <= y
    ensures var b := CropBounds(h, w, AoiWindow(x, y, aoiSize));
      b.1 - b.0 <= 2 * HalfWidth(aoiSize) + 1 && b.3 - b.2 <= 2 * HalfWidth(aoiSize) + 1
  {
  }

  /** np.copy(frame[top:bottom+1, left:right+1]). */
  function Crop(g: Grid, h: nat, w: nat, win: Window): (r: Grid)
    requires IsGrid(g, h, w)
    ensures var b := CropBounds(h, w, win);
      IsGrid(r, b.1 - b.0, b.3 - b.2)
      && forall i, j | 0 <= i < b.1 - b.0 && 0 <= j < b.3 - b.2 :: r[i][j] == g[b.0 + i][b.2 + j]
  {
    var b := CropBounds(h, w, win);
    seq(b.1 - b.0, i requires 0 <= i < b.1 - b.0 => g[b.0 + i][b.2..b.3])
  }

  /**
   * On the full 1024 x 1280 frame the AOI is exactly the window: its rows
   * are top..bottom and its columns left..right of the frame.
   */
  lemma CropOfFullFrame(g: Grid, x: int, y: int, aoiSize: int)
    requires IsGrid(g, LastRow + 1, LastCol + 1)
    requires 0 <= x <= LastCol && 0 <= y <= LastRow && 1 <= aoiSize
    ensures var win := AoiWindow(x, y, aoiSize);
      var r := Crop(g, LastRow + 1, LastCol + 1, win);
      && IsGrid(r, win.bottom - win.top + 1, win.right - win.left + 1)
      && (forall i, j | 0 <= i <= win.bottom - win.top && 0 <= j <= win.right - win.left ::
            r[i][j] == g[win.top + i][win.left + j])
  {
  }

  /** drawAoi: the fresh AOI copied out of the frame. */
  method DrawAoi(frame: array2<int>, x: int, y: int, aoiSize: int) returns (aoi: array2<int>)
    ensures fresh(aoi)
    ensures var b := CropBounds(frame.Length0, frame.Length1, AoiWindow(x, y, aoiSize));
      aoi.Length0 == b.1 - b.0 && aoi.Length1 == b.3 - b.2
    ensures Contents(aoi) == Crop(Contents(frame), frame.Length0, frame.Length1, AoiWindow(x, y, aoiSize))
  {
    var b := CropBounds(frame.Length0, frame.Length1, AoiWindow(x, y, aoiSize));
    aoi := CopyBlock(frame, b.0, b.1, b.2, b.3);
    ghost var G, A := Contents(frame), Contents(aoi);
    CropIsCopy(G, frame.Length0, frame.Length1, AoiWindow(x, y, aoiSize), A);
  }

  /** np.copy of rows [r0, r1) and columns [c0, c1) of an image array. */
  method CopyBlock(frame: array2<int>, r0: nat, r1: nat, c0: nat, c1: nat) returns (block: array2<int>)
    requires r0 <= r1 <= frame.Length0 && c0 <= c1 <= frame.Length1
    ensures fresh(block) && block.Length0 == r1 - r0 && block.Length1 == c1 - c0
    ensures forall i, j | 0 <= i < r1 - r0 && 0 <= j < c1 - c0 :: Contents(block)[i][j] == Contents(frame)[r0 + i][c0 + j]
  {
    block := new int[r1 - r0, c1 - c0]((i, j) requires 0 <= i < r1 - r0 && 0 <= j < c1 - c0 reads frame =>
      frame[r0 + i, c0 + j]);
  }

  /** A grid holding the window's pixels is the crop. */
  lemma CropIsCopy(g: Grid, h: nat, w: nat, win: Window, a: Grid)
    requires IsGrid(g, h, w)
    requires var b := CropBounds(h, w, win);
      IsGrid(a, b.1 - b.0, b.3 - b.2)
      && forall i, j | 0 <= i < b.1 - b.0 && 0 <= j < b.3 - b.2 :: a[i][j] == g[b.0 + i][b.2 + j]
    ensures a == Crop(g, h, w, win)
  {
    var b := CropBounds(h, w, win);
    GridsEqual(a, Crop(g, h, w, win), b.1 - b.0, b.3 - b.2);
  }

  /**
   * |cross(p2 - p1, p1 - p3)| / |p2 - p1|: the distance from the point (c, c)
   * to the line through the edge's two ends.
   */
  function Distance(lib: Lib, e: Edge, c: real): (dist: real)
    requires e.x2 != e.x1
    ensures 0.0 <= dist
  {
    var p1, p2 := EdgeEnd(e, true), EdgeEnd(e, false);
    EdgeEndsApart(e);
    PointLineDistance(lib, p1, p2, Point3(c, c, 0.0))
  }

  /** A segment that is not vertical has two distinct ends. */
  lemma EdgeEndsApart(e: Edge)
    requires e.x2 != e.x1
    ensures 0.0 < SquaredDistance(EdgeEnd(e, true), EdgeEnd(e, false))
  {
    var dx := (e.x1 - e.x2) as real;
    var dy := (e.y1 - e.y2) as real;
    assert 0.0 < dx * dx;
    assert 0.0 <= dy * dy;
  }

  /** The edge's first (x1, y1) or second (x2, y2) end as a point of the plane z = 0. */
  function EdgeEnd(e: Edge, first: bool): (p: Point3)
    ensures p.z == 0.0
  {
    if first then Point3(e.x1 as real, e.y1 as real, 0.0) else Point3(e.x2 as real, e.y2 as real, 0.0)
  }

  /**
   * The point (c, c) has a larger y than the line y = m x + b through the
   * edge at x = c: it lies above the line in the plane's own orientation,
   * which is below it on screen, where image rows grow downward.
   */
  predicate AboveLine(e: Edge, c: real)
    requires e.x2 != e.x1
  {
    var m := EdgeSlope(e);
    c > m * c + (e.y1 as real - m * e.x1 as real)
  }

  /**
   * adjustAoi's signed distance from the AOI's middle pixel ((s - 1) / 2,
   * (s - 1) / 2) to the edge, negative exactly when the middle pixel lies on
   * the far side of y = m x + b.
   */
  function SignedOffset(lib: Lib, e: Edge, aoiSize: int): (d: real)
    requires e.x2 != e.x1
    ensures var c := (aoiSize - 1) as real / 2.0;
      Abs(d) == Distance(lib, e, c)
      && (AboveLine(e, c) ==> d <= 0.0) && (!AboveLine(e, c) ==> 0.0 <= d)
  {
    var c := (aoiSize - 1) as real / 2.0;
    var dist := Distance(lib, e, c);
    if AboveLine(e, c) then -dist else dist
  }

  /**
   * The shift (dX, dY) = d (-sin t, cos t) along the edge normal, given
   * (cos t, sin t): it has length |d| and neither coordinate exceeds |d|.
   */
  function NormalShift(cs: UnitPair, d: real): (shift: (real, real))
    ensures shift.0 * shift.0 + shift.1 * shift.1 == d * d
    ensures Abs(shift.0) <= Abs(d) && Abs(shift.1) <= Abs(d)
  {
    UnitBound(cs, d, -cs.1 * d, cs.0 * d);
    (-cs.1 * d, cs.0 * d)
  }

  /**
   * adjustAoi: the new AOI centre. A vertical segment divides by zero in
   * dy / dx. The centre moves by the normal shift, rounded half to even, and
   * only when |d| > 2.
   */
  function AdjustAoi(lib: Lib, e: Edge, aoiSize: int, aoiX: int, aoiY: int): (r: Result<(int, int)>)
    ensures r.Err? <==> e.x2 == e.x1
    ensures e.x2 != e.x1 && Abs(SignedOffset(lib, e, aoiSize)) <= 2.0 ==> r == Ok((aoiX, aoiY))
  {
    if e.x2 == e.x1 then Err(ZeroDivisionError)
    else if Abs(SignedOffset(lib, e, aoiSize)) > 2.0 then
      var shift := NormalShift(lib.cis(lib.atan(EdgeSlope(e))), SignedOffset(lib, e, aoiSize));
      Ok((RoundHalfEven(aoiX as real + shift.0), RoundHalfEven(aoiY as real + shift.1)))
    else Ok((aoiX, aoiY))
  }

  /** A move changes each coordinate by at most |d| plus the half pixel of rounding. */
  lemma MoveIsOffset(lib: Lib, e: Edge, aoiSize: int, aoiX: int, aoiY: int)
    requires e.x2 != e.x1
    ensures var d := SignedOffset(lib, e, aoiSize);
      var r := AdjustAoi(lib, e, aoiSize, aoiX, aoiY).value;
      && Abs((r.0 - aoiX) as real) <= Abs(d) + 0.5
      && Abs((r.1 - aoiY) as real) <= Abs(d) + 0.5
  {
    var d := SignedOffset(lib, e, aoiSize);
    if Abs(d) > 2.0 {
      var shift := NormalShift(lib.cis(lib.atan(EdgeSlope(e))), d);
      RoundedStep(aoiX, shift.0, d);
      RoundedStep(aoiY, shift.1, d);
    }
  }

  /** Rounding a + delta moves a by at most |d| + 1/2 when |delta| <= |d|. */
  lemma RoundedStep(a: int, delta: real, d: real)
    requires Abs(delta) <= Abs(d)
    ensures Abs((RoundHalfEven(a as real + delta) - a) as real) <= Abs(d) + 0.5
  {
  }

  /** For a unit pair (c, s), the shift (-s d, c d) is no longer than |d| in either coordinate, and has length |d|. */
  lemma UnitBound(cs: UnitPair, d: real, dX: real, dY: real)
    requires dX == -cs.1 * d && dY == cs.0 * d
    ensures Abs(dY) <= Abs(d) && Abs(dX) <= Abs(d)
    ensures dX * dX + dY * dY == d * d
  {
    UnitShift(cs.0, cs.1, d, dX, dY);
  }

  lemma UnitShift(c: real, s: real, d: real, dX: real, dY: real)
    requires c * c + s * s == 1.0 && dX == -s * d && dY == c * d
    ensures Abs(dY) <= Abs(d) && Abs(dX) <= Abs(d)
    ensures dX * dX + dY * dY == d * d
  {
    UnitHalves(c, s);
    ProductBound(c, d);
    ProductBound(-s, d);
    ScaledUnit(c, s, d, dX, dY);
  }

  lemma ScaledUnit(c: real, s: real, d: real, dX: real, dY: real)
    requires c * c + s * s == 1.0 && dX == -s * d && dY == c * d
    ensures dX * dX + dY * dY == d * d
  {
    assert dX * dX == (s * s) * (d * d);
    assert dY * dY == (c * c) * (d * d);
    assert (s * s) * (d * d) + (c * c) * (d * d) == (c * c + s * s) * (d * d);
  }

  lemma ProductBound(c: real, d: real)
    requires Abs(c) <= 1.0
    ensures Abs(c * d) <= Abs(d)
  {
    assert Abs(c * d) == Abs(c) * Abs(d);
    assert Abs(c) * Abs(d) <= 1.0 * Abs(d);
  }

  /** Both halves of a unit pair lie in [-1, 1]. */
  lemma UnitHalves(c: real, s: real)
    requires c * c + s * s == 1.0
    ensures Abs(c) <= 1.0 && Abs(s) <= 1.0
  {
    assert 0.0 <= s * s && 0.0 <= c * c;
    SquareBound(c);
    SquareBound(s);
  }

  lemma SquareBound(c: real)
    requires c * c <= 1.0
    ensures Abs(c) <= 1.0
  {
    if Abs(c) > 1.0 {
      assert Abs(c) * Abs(c) > 1.0 * Abs(c);
    }
  }
}
