/**
 * analyse (MTF/MTF_Functions.py): the raw edge spread function. Every pixel
 * of the AOI, column by column, is measured against the edge line and
 * against the edge turned 90 degrees about the AOI's centre; the pixels
 * close enough to the edge and near enough to its middle give one intensity
 * and one signed distance each, appended together.
 */
module EsfBuilder {
  import opened Numerics
  import opened Grids
  import opened Misc
  import opened EdgeLocator
  import opened Aoi

  /** The raw ESF: EsfRawData (intensities) and EsfRawPosition (signed distances). */
  datatype Esf = Esf(data: seq<int>, position: seq<real>)

  /** normalDistanceFromEdge and lengthOfEdgeLine. */
  datatype Limits = Limits(normal: real, length: real)

  /**
   * The lines a pixel is measured against: y = a x + b through p1 and p2,
   * and the segment p4 p5, the edge turned 90 degrees about the AOI centre.
   */
  datatype Geometry = Geometry(a: real, b: real, p1: Point3, p2: Point3, p4: Point3, p5: Point3)

  /** Both lines lie in the plane z = 0 and have distinct ends, so the distances are defined. */
  predicate Measurable(g: Geometry)
  {
    && g.p1.z == 0.0 && g.p2.z == 0.0 && g.p4.z == 0.0 && g.p5.z == 0.0
    && 0.0 < SquaredDistance(g.p1, g.p2) && 0.0 < SquaredDistance(g.p4, g.p5)
  }

  /**
   * a = dy / dx, b = y1 - a x1, and p4, p5 the ends turned 90 degrees about
   * ((aoiSize - 1) / 2, (aoiSize - 1) / 2). The turned segment is as long
   * as the edge, so it is never a single point.
   */
  function GeometryOf(lib: Lib, e: Edge, aoiSize: int): (g: Geometry)
    requires e.x2 != e.x1
    ensures Measurable(g)
  {
    var a := EdgeSlope(e);
    TurnedEdgeIsSegment(lib, e, aoiSize);
    Geometry(a, e.y1 as real - a * e.x1 as real, EdgeEnd(e, true), EdgeEnd(e, false),
             Turned(lib, aoiSize, EdgeEnd(e, true)), Turned(lib, aoiSize, EdgeEnd(e, false)))
  }

  /** rotate2d(origin, p, 90) about the AOI centre ((aoiSize - 1) / 2, (aoiSize - 1) / 2). */
  function Turned(lib: Lib, aoiSize: int, p: Point3): (q: Point3)
    ensures q.z == 0.0
  {
    Rotate2d(lib, Point3((aoiSize - 1) as real / 2.0, (aoiSize - 1) as real / 2.0, 0.0), p, 90.0)
  }

  /** The turned edge is as long as the edge, hence not a single point. */
  lemma TurnedEdgeIsSegment(lib: Lib, e: Edge, aoiSize: int)
    requires e.x2 != e.x1
    ensures 0.0 < SquaredDistance(EdgeEnd(e, true), EdgeEnd(e, false))
    ensures 0.0 < SquaredDistance(Turned(lib, aoiSize, EdgeEnd(e, true)), Turned(lib, aoiSize, EdgeEnd(e, false)))
  {
    EdgeEndsApart(e);
    var origin := Point3((aoiSize - 1) as real / 2.0, (aoiSize - 1) as real / 2.0, 0.0);
    RotationKeepsDistance(lib, origin, EdgeEnd(e, true), EdgeEnd(e, false), 90.0);
  }

  /** The pixel (x, y) has y < a x + b. */
  predicate Below(g: Geometry, x: int, y: int)
  {
    (y as real) < g.a * x as real + g.b
  }

  /** d: the distance from (x, y) to the edge line, negated when y < a x + b. */
  function SignedDistance(lib: Lib, g: Geometry, x: int, y: int): (d: real)
    requires Measurable(g)
    ensures Abs(d) == PointLineDistance(lib, g.p1, g.p2, Point3(x as real, y as real, 0.0))
    ensures Below(g, x, y) ==> d <= 0.0
    ensures !Below(g, x, y) ==> 0.0 <= d
  {
    var d := PointLineDistance(lib, g.p1, g.p2, Point3(x as real, y as real, 0.0));
    if Below(g, x, y) then -d else d
  }

  /** dc: the distance from (x, y) to the turned line, that is, along the edge from the AOI centre's foot. */
  function AlongDistance(lib: Lib, g: Geometry, x: int, y: int): (dc: real)
    requires Measurable(g)
    ensures 0.0 <= dc
  {
    PointLineDistance(lib, g.p4, g.p5, Point3(x as real, y as real, 0.0))
  }

  /** The pixel at row c.row, column c.col goes into the raw ESF. */
  predicate Kept(lib: Lib, g: Geometry, lim: Limits, c: Cell)
    requires Measurable(g)
  {
    Abs(SignedDistance(lib, g, c.col, c.row)) <= lim.normal && AlongDistance(lib, g, c.col, c.row) <= lim.length / 2.0
  }

  /** The test as a function of the pixel. */
  function Keeper(lib: Lib, g: Geometry, lim: Limits): (keep: Cell -> bool)
    requires Measurable(g)
    ensures forall c :: keep(c) == Kept(lib, g, lim, c)
  {
    c => Kept(lib, g, lim, c)
  }

  /** The pixels among rows 0 .. y - 1 of column x that pass keep, top to bottom. */
  function KeptInColumn(keep: Cell -> bool, x: int, y: nat): (r: seq<Cell>)
    ensures |r| <= y
    ensures forall i | 0 <= i < |r| :: r[i].col == x && 0 <= r[i].row < y
    decreases y
  {
    if y == 0 then []
    else
      var c := Cell(y - 1, x);
      KeptInColumn(keep, x, y - 1) + (if keep(c) then [c] else [])
  }

  /** The pixels of columns 0 .. x - 1 of an AOI h rows high that pass keep, in the order analyse visits them. */
  function KeptCells(keep: Cell -> bool, h: nat, x: nat): (r: seq<Cell>)
    ensures |r| <= x * h
    ensures forall i | 0 <= i < |r| :: 0 <= r[i].row < h && 0 <= r[i].col < x
    decreases x
  {
    if x == 0 then []
    else KeptCells(keep, h, x - 1) + KeptInColumn(keep, x - 1, h)
  }

  function PixelOf(img: Grid, h: nat, w: nat, c: Cell): int
    requires IsGrid(img, h, w) && InGrid(c, h, w)
  {
    img[c.row][c.col]
  }

  /** The intensity and the signed distance of each cell, in order. */
  function Samples(lib: Lib, g: Geometry, img: Grid, h: nat, w: nat, cells: seq<Cell>): (r: Esf)
    requires Measurable(g) && IsGrid(img, h, w)
    requires AllInGrid(cells, h, w)
    ensures |r.data| == |r.position| == |cells|
    decreases |cells|
  {
    if cells == [] then Esf([], [])
    else
      var c := cells[|cells| - 1];
      var s := Samples(lib, g, img, h, w, cells[..|cells| - 1]);
      Esf(s.data + [PixelOf(img, h, w, c)], s.position + [SignedDistance(lib, g, c.col, c.row)])
  }

  /**
   * analyse on an AOI h x w: a vertical edge divides by zero in dy / dx;
   * otherwise the samples of the kept pixels, column-major.
   */
  function AnalyseSpec(lib: Lib, img: Grid, h: nat, w: nat, e: Edge, aoiSize: int, lim: Limits): (r: Result<Esf>)
    requires IsGrid(img, h, w)
    ensures r.Err? <==> e.x2 == e.x1
    ensures r.Ok? ==> |r.value.data| == |r.value.position| <= w * h
  {
    if e.x2 == e.x1 then Err(ZeroDivisionError)
    else
      var g := GeometryOf(lib, e, aoiSize);
      KeptCellsInAoi(Keeper(lib, g, lim), h, w);
      Ok(Samples(lib, g, img, h, w, KeptCells(Keeper(lib, g, lim), h, w)))
  }

  /** The kept cells lie in the AOI, so their pixels can be read. */
  lemma KeptCellsInAoi(keep: Cell -> bool, h: nat, w: nat)
    ensures AllInGrid(KeptCells(keep, h, w), h, w)
  {
  }

  // ---------------------------------------------------------------------------
  // Properties.

  /** Row-major order within a column, columns left to right. */
  predicate Precedes(c: Cell, d: Cell)
  {
    c.col < d.col || (c.col == d.col && c.row < d.row)
  }

  /** Every listed cell passes the distance tests. */
  lemma {:induction false} KeptAreKept(keep: Cell -> bool, h: nat, x: nat)
    ensures forall i | 0 <= i < |KeptCells(keep, h, x)| :: keep(KeptCells(keep, h, x)[i])
    decreases x
  {
    if x > 0 {
      KeptAreKept(keep, h, x - 1);
      KeptInColumnAreKept(keep, x - 1, h);
    }
  }

  lemma {:induction false} KeptInColumnAreKept(keep: Cell -> bool, x: int, y: nat)
    ensures forall i | 0 <= i < |KeptInColumn(keep, x, y)| :: keep(KeptInColumn(keep, x, y)[i])
    decreases y
  {
    if y > 0 {
      KeptInColumnAreKept(keep, x, y - 1);
    }
  }

  /** A pixel of column x above row y is listed exactly when it passes the tests. */
  lemma {:induction false} KeptInColumnExactly(keep: Cell -> bool, x: int, y: nat, c: Cell)
    ensures c in KeptInColumn(keep, x, y) <==> c.col == x && 0 <= c.row < y && keep(c)
    decreases y
  {
    if y > 0 {
      KeptInColumnExactly(keep, x, y - 1, c);
    }
  }

  /** A pixel is listed exactly when it lies in the first x columns of the AOI and passes the tests. */
  lemma {:induction false} KeptCellsExactly(keep: Cell -> bool, h: nat, x: nat, c: Cell)
    ensures c in KeptCells(keep, h, x) <==> InGrid(c, h, x) && keep(c)
    decreases x
  {
    if x > 0 {
      KeptCellsExactly(keep, h, x - 1, c);
      KeptInColumnExactly(keep, x - 1, h, c);
      var front, column := KeptCells(keep, h, x - 1), KeptInColumn(keep, x - 1, h);
      assert KeptCells(keep, h, x) == front + column;
      assert c in front + column <==> c in front || c in column;
    }
  }

  /** Each cell precedes every later one. */
  predicate Ordered(r: seq<Cell>)
  {
    forall i, j | 0 <= i < j < |r| :: Precedes(r[i], r[j])
  }

  /** Two ordered runs, the first wholly before the second, make one ordered run. */
  lemma OrderedConcat(a: seq<Cell>, b: seq<Cell>)
    requires Ordered(a) && Ordered(b)
    requires forall i, j | 0 <= i < |a| && 0 <= j < |b| :: Precedes(a[i], b[j])
    ensures Ordered(a + b)
  {
    var r := a + b;
    forall i, j | 0 <= i < j < |r|
      ensures Precedes(r[i], r[j])
    {
      if j < |a| {
        assert r[i] == a[i] && r[j] == a[j];
      } else if i < |a| {
        assert r[i] == a[i] && r[j] == b[j - |a|];
      } else {
        assert r[i] == b[i - |a|] && r[j] == b[j - |a|];
      }
    }
  }

  /** The cells of one column come top to bottom. */
  lemma {:induction false} KeptInColumnOrdered(keep: Cell -> bool, x: int, y: nat)
    ensures Ordered(KeptInColumn(keep, x, y))
    decreases y
  {
    if y > 0 {
      KeptInColumnOrdered(keep, x, y - 1);
      var c := Cell(y - 1, x);
      var tail := if keep(c) then [c] else [];
      OrderedConcat(KeptInColumn(keep, x, y - 1), tail);
    }
  }

  /** The kept pixels come column-major: x outer, y inner, each at most once. */
  lemma {:induction false} KeptCellsOrdered(keep: Cell -> bool, h: nat, x: nat)
    ensures Ordered(KeptCells(keep, h, x))
    decreases x
  {
    if x > 0 {
      KeptCellsOrdered(keep, h, x - 1);
      KeptInColumnOrdered(keep, x - 1, h);
      OrderedConcat(KeptCells(keep, h, x - 1), KeptInColumn(keep, x - 1, h));
    }
  }

  /**
   * The raw ESF pairs each intensity with its pixel's signed distance: the
   * i-th sample is the pixel of the i-th kept cell, and its distance is
   * negative only for pixels with y < a x + b.
   */
  lemma SamplesArePixels(lib: Lib, img: Grid, h: nat, w: nat, e: Edge, aoiSize: int, lim: Limits)
    requires IsGrid(img, h, w) && e.x2 != e.x1
    ensures var g := GeometryOf(lib, e, aoiSize);
      var cells := KeptCells(Keeper(lib, g, lim), h, w);
      var r := AnalyseSpec(lib, img, h, w, e, aoiSize, lim).value;
      forall i | 0 <= i < |cells| ::
        && r.data[i] == img[cells[i].row][cells[i].col]
        && (r.position[i] < 0.0 ==> Below(g, cells[i].col, cells[i].row))
        && (Below(g, cells[i].col, cells[i].row) ==> r.position[i] <= 0.0)
        && Abs(r.position[i]) <= lim.normal
        && AlongDistance(lib, g, cells[i].col, cells[i].row) <= lim.length / 2.0
  {
    var g := GeometryOf(lib, e, aoiSize);
    var cells := KeptCells(Keeper(lib, g, lim), h, w);
    KeptAreKept(Keeper(lib, g, lim), h, w);
    KeptCellsInAoi(Keeper(lib, g, lim), h, w);
    forall i | 0 <= i < |cells|
      ensures var r := Samples(lib, g, img, h, w, cells);
        r.data[i] == img[cells[i].row][cells[i].col]
        && r.position[i] == SignedDistance(lib, g, cells[i].col, cells[i].row)
    {
      SampleAt(lib, g, img, h, w, cells, i);
    }
  }

  // ---------------------------------------------------------------------------
  // The procedure.

  /** Appending one cell appends its intensity and its distance. */
  lemma SamplesAppend(lib: Lib, g: Geometry, img: Grid, h: nat, w: nat, cells: seq<Cell>, c: Cell)
    requires Measurable(g) && IsGrid(img, h, w) && InGrid(c, h, w)
    requires AllInGrid(cells, h, w)
    ensures AllInGrid(cells + [c], h, w)
    ensures var s := Samples(lib, g, img, h, w, cells);
      Samples(lib, g, img, h, w, cells + [c])
        == Esf(s.data + [img[c.row][c.col]], s.position + [SignedDistance(lib, g, c.col, c.row)])
  {
    assert (cells + [c])[..|cells|] == cells;
  }

  /** One pass of the inner loop keeps its invariant, whether or not the pixel is kept. */
  lemma ScanStep(lib: Lib, g: Geometry, lim: Limits, img: Grid, h: nat, w: nat, x: nat, y: nat,
                 cells: seq<Cell>, after: seq<Cell>, next: Esf)
    requires Measurable(g) && IsGrid(img, h, w) && x < w && y < h
    requires AllInGrid(after, h, w)
    requires after == cells + KeptInColumn(Keeper(lib, g, lim), x, y)
    requires next == Samples(lib, g, img, h, w, after)
    ensures var c := Cell(y, x);
      if Kept(lib, g, lim, c) then
        && AllInGrid(after + [c], h, w)
        && after + [c] == cells + KeptInColumn(Keeper(lib, g, lim), x, y + 1)
        && Samples(lib, g, img, h, w, after + [c])
          == Esf(next.data + [img[y][x]], next.position + [SignedDistance(lib, g, x, y)])
      else after == cells + KeptInColumn(Keeper(lib, g, lim), x, y + 1)
  {
    var c := Cell(y, x);
    var keep := Keeper(lib, g, lim);
    var column := KeptInColumn(keep, x, y);
    assert KeptInColumn(keep, x, y + 1) == column + (if keep(c) then [c] else []);
    if keep(c) {
      SamplesAppend(lib, g, img, h, w, after, c);
      assert after + [c] == cells + (column + [c]);
    } else {
      assert column + [] == column;
    }
  }

  /** Sample i is the intensity and the signed distance of cell i. */
  lemma {:induction false} SampleAt(lib: Lib, g: Geometry, img: Grid, h: nat, w: nat, cells: seq<Cell>, i: nat)
    requires Measurable(g) && IsGrid(img, h, w)
    requires AllInGrid(cells, h, w) && i < |cells|
    ensures Samples(lib, g, img, h, w, cells).data[i] == img[cells[i].row][cells[i].col]
    ensures Samples(lib, g, img, h, w, cells).position[i] == SignedDistance(lib, g, cells[i].col, cells[i].row)
    decreases |cells|
  {
    var n := |cells|;
    if i < n - 1 {
      var front := cells[..n - 1];
      SampleAt(lib, g, img, h, w, front, i);
      assert front[i] == cells[i];
    }
  }

  /** analyse's two nested loops, appending to the two lists. */
  method Analyse(lib: Lib, img: array2<int>, e: Edge, aoiSize: int, lim: Limits) returns (r: Result<Esf>)
    ensures r == AnalyseSpec(lib, Contents(img), img.Length0, img.Length1, e, aoiSize, lim)
  {
    if e.x2 == e.x1 {
      return Err(ZeroDivisionError);
    }
    var g := GeometryOf(lib, e, aoiSize);
    var raw := Esf([], []);
    ghost var cells: seq<Cell> := [];
    for x := 0 to img.Length1
      invariant cells == KeptCells(Keeper(lib, g, lim), img.Length0, x)
      invariant AllInGrid(cells, img.Length0, img.Length1)
      invariant raw == Samples(lib, g, Contents(img), img.Length0, img.Length1, cells)
    {
      raw, cells := ScanColumn(lib, img, Contents(img), g, lim, x, raw, cells);
    }
    return Ok(raw);
  }

  /** The inner loop: column x, top to bottom, appending each kept pixel. */
  method ScanColumn(lib: Lib, img: array2<int>, ghost G: Grid, g: Geometry, lim: Limits, x: nat, raw: Esf, ghost cells: seq<Cell>)
    returns (next: Esf, ghost after: seq<Cell>)
    requires Measurable(g) && x < img.Length1 && G == Contents(img)
    requires AllInGrid(cells, img.Length0, img.Length1)
    requires raw == Samples(lib, g, G, img.Length0, img.Length1, cells)
    ensures after == cells + KeptInColumn(Keeper(lib, g, lim), x, img.Length0)
    ensures AllInGrid(after, img.Length0, img.Length1)
    ensures next == Samples(lib, g, G, img.Length0, img.Length1, after)
  {
    next, after := raw, cells;
    for y := 0 to img.Length0
      invariant after == cells + KeptInColumn(Keeper(lib, g, lim), x, y)
      invariant AllInGrid(after, img.Length0, img.Length1)
      invariant next == Samples(lib, g, G, img.Length0, img.Length1, after)
    {
      next, after := ScanPixel(lib, img, G, g, lim, x, y, cells, next, after);
    }
  }

  /** One pass of the inner loop: pixel (x, y) is appended when it is close enough to the edge. */
  method ScanPixel(lib: Lib, img: array2<int>, ghost G: Grid, g: Geometry, lim: Limits, x: nat, y: nat,
                   ghost cells: seq<Cell>, raw: Esf, ghost before: seq<Cell>)
    returns (next: Esf, ghost after: seq<Cell>)
    requires Measurable(g) && x < img.Length1 && y < img.Length0 && G == Contents(img)
    requires before == cells + KeptInColumn(Keeper(lib, g, lim), x, y)
    requires AllInGrid(before, img.Length0, img.Length1)
    requires raw == Samples(lib, g, G, img.Length0, img.Length1, before)
    ensures after == cells + KeptInColumn(Keeper(lib, g, lim), x, y + 1)
    ensures AllInGrid(after, img.Length0, img.Length1)
    ensures next == Samples(lib, g, G, img.Length0, img.Length1, after)
  {
    ScanStep(lib, g, lim, G, img.Length0, img.Length1, x, y, cells, before, raw);
    var d := SignedDistance(lib, g, x, y);
    var dc := AlongDistance(lib, g, x, y);
    assert Kept(lib, g, lim, Cell(y, x)) == (Abs(d) <= lim.normal && dc <= lim.length / 2.0);
    if Abs(d) <= lim.normal && dc <= lim.length / 2.0 {
      assert G[y][x] == img[y, x];
      next := Esf(raw.data + [img[y, x]], raw.position + [d]);
      after := before + [Cell(y, x)];
    } else {
      next, after := raw, before;
    }
  }
}
