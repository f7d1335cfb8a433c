/**
 * cleanEdge (MTF/MTF_Functions.py): removal of dead and hot pixels from the
 * AOI before the edge is located. Two passes sweep the AOI column by column,
 * top to bottom, in place; a pixel that differs by more than a threshold from
 * every one of its neighbours is replaced by int() of their mean. The
 * neighbours are compared in the order of the source's `and` chain, so a
 * read past the last row or column (an AOI one pixel thick) raises
 * IndexError only when the chain gets that far.
 *
 * Every definition takes the neighbour test as a parameter: AsWritten is the
 * code's uint16 subtraction, which wraps before abs(); Intended is the
 * symmetric absolute difference the code evidently means. The properties
 * below hold for both, and CleanEdgeSpecsDiffer shows an AOI on which the
 * two clean differently.
 */
module CleanEdge {
  import opened Numerics
  import opened Grids

  /** What the `and` chain over the neighbours ends in. */
  datatype Chain = AllDiffer | Similar | Broken

  /** What one visit to a pixel does. */
  datatype Verdict = Keep | Replace(value: int) | OutOfRange

  /** The grid after a sweep, and whether the sweep raised IndexError part-way. */
  datatype Outcome = Outcome(grid: Grid, failed: bool)

  /**
   * The neighbours of pixel (y, x) in an h x w AOI, in the order the source
   * compares them: the left column, the right column and the rest, each split
   * into top row, bottom row and the rest, x taking priority over y.
   */
  function Neighbours(h: nat, w: nat, y: int, x: int): (r: seq<Cell>)
    ensures 3 <= |r| <= 8
  {
    if x == 0 then
      if y == 0 then [Cell(y + 1, x), Cell(y + 1, x + 1), Cell(y, x + 1)]
      else if y == h - 1 then [Cell(y - 1, x), Cell(y - 1, x + 1), Cell(y, x + 1)]
      else [Cell(y - 1, x), Cell(y - 1, x + 1), Cell(y, x + 1), Cell(y + 1, x + 1), Cell(y + 1, x)]
    else if x == w - 1 then
      if y == 0 then [Cell(y, x - 1), Cell(y + 1, x - 1), Cell(y + 1, x)]
      else if y == h - 1 then [Cell(y - 1, x), Cell(y - 1, x - 1), Cell(y, x - 1)]
      else [Cell(y - 1, x), Cell(y - 1, x - 1), Cell(y, x - 1), Cell(y + 1, x - 1), Cell(y + 1, x)]
    else
      if y == 0 then [Cell(y, x - 1), Cell(y + 1, x - 1), Cell(y + 1, x), Cell(y + 1, x + 1), Cell(y, x + 1)]
      else if y == h - 1 then [Cell(y, x - 1), Cell(y - 1, x - 1), Cell(y - 1, x), Cell(y - 1, x + 1), Cell(y, x + 1)]
      else [Cell(y - 1, x - 1), Cell(y - 1, x), Cell(y - 1, x + 1), Cell(y, x - 1),
            Cell(y, x + 1), Cell(y + 1, x - 1), Cell(y + 1, x), Cell(y + 1, x + 1)]
  }

  /** c is one of the eight pixels around (y, x). */
  predicate Adjacent(c: Cell, y: int, x: int)
  {
    c != Cell(y, x) && -1 <= c.row - y <= 1 && -1 <= c.col - x <= 1
  }

  /**
   * On an AOI at least two pixels each way, the neighbour list of every
   * pixel is exactly its in-frame 8-neighbourhood, without repeats: 3 pixels
   * at a corner, 5 along a border, 8 inside.
   */
  lemma NeighboursAreAdjacentPixels(h: nat, w: nat, y: int, x: int)
    requires 2 <= h && 2 <= w && 0 <= y < h && 0 <= x < w
    ensures forall c :: c in Neighbours(h, w, y, x) <==> InGrid(c, h, w) && Adjacent(c, y, x)
    ensures var cells := Neighbours(h, w, y, x);
      forall i, j | 0 <= i < j < |cells| :: cells[i] != cells[j]
    ensures var border := (if x == 0 || x == w - 1 then 1 else 0) + (if y == 0 || y == h - 1 then 1 else 0);
      |Neighbours(h, w, y, x)| == [8, 5, 3][border]
  {
    forall c | InGrid(c, h, w) && Adjacent(c, y, x)
      ensures c in Neighbours(h, w, y, x)
    {
      var dr, dc := c.row - y, c.col - x;
      assert dr in {-1, 0, 1} && dc in {-1, 0, 1};
    }
  }

  /**
   * The source's test |a[y, x] - a[r, c]| > threshold, on the absolute
   * difference the code evidently means (see WrappedDiffers for what the
   * uint16 subtraction actually computes).
   */
  predicate Differs(centre: int, neighbour: int, threshold: real)
  {
    Abs((centre - neighbour) as real) > threshold
  }

  /** A pixel differs from a neighbour exactly when the neighbour differs from it. */
  lemma DiffersIsSymmetric(a: int, b: int, threshold: real)
    ensures Differs(a, b, threshold) <==> Differs(b, a, threshold)
  {
    assert (a - b) as real == -((b - a) as real);
  }

  /**
   * The test as written: both pixels are numpy uint16 scalars, so their
   * difference wraps modulo 2^16 before abs() sees it, and abs() of an
   * unsigned value is the value itself.
   */
  predicate WrappedDiffers(centre: int, neighbour: int, threshold: real)
  {
    ((centre - neighbour) % 65536) as real > threshold
  }

  /**
   * On uint16 pixels the wrapped test agrees with the intended one when the
   * centre is at least as bright as its neighbour; when it is darker, the
   * difference is read as 65536 minus the true gap.
   */
  lemma WrappedDifference(centre: int, neighbour: int, threshold: real)
    requires 0 <= centre <= 65535 && 0 <= neighbour <= 65535
    ensures neighbour <= centre ==> (WrappedDiffers(centre, neighbour, threshold) <==> Differs(centre, neighbour, threshold))
    ensures centre < neighbour ==>
      (WrappedDiffers(centre, neighbour, threshold) <==> (65536 - (neighbour - centre)) as real > threshold)
  {
  }

  /**
   * As written, a pixel one count darker than its neighbour differs from it
   * by 65535, while the neighbour does not differ from the pixel at all: the
   * test is not symmetric, and a pixel slightly darker than all its
   * neighbours is treated as dead.
   */
  lemma WrappedDiffersIsNotSymmetric()
    ensures WrappedDiffers(1000, 1001, 100.0) && !WrappedDiffers(1001, 1000, 100.0)
    ensures !Differs(1000, 1001, 100.0)
  {
    assert (1000 - 1001) % 65536 == 65535;
  }

  /** Which neighbour test a sweep applies. */
  datatype Comparison = AsWritten | Intended

  /** The neighbour test of the chosen comparison. */
  predicate Exceeds(cmp: Comparison, centre: int, neighbour: int, threshold: real)
  {
    if cmp == AsWritten then WrappedDiffers(centre, neighbour, threshold)
    else Differs(centre, neighbour, threshold)
  }

  /**
   * The `and` chain: the first neighbour outside the AOI raises, the first
   * neighbour that does not differ ends the chain false, and the chain is
   * true when every neighbour differs.
   */
  function Walk(g: Grid, h: nat, w: nat, centre: int, cells: seq<Cell>, cmp: Comparison, threshold: real): (r: Chain)
    requires IsGrid(g, h, w)
    ensures r == AllDiffer <==>
      forall i | 0 <= i < |cells| :: InGrid(cells[i], h, w)
        && Exceeds(cmp, centre, g[cells[i].row][cells[i].col], threshold)
    ensures r == Broken ==> exists i | 0 <= i < |cells| :: !InGrid(cells[i], h, w)
  {
    if cells == [] then AllDiffer
    else if !InGrid(cells[0], h, w) then Broken
    else if !Exceeds(cmp, centre, g[cells[0].row][cells[0].col], threshold) then Similar
    else
      var rest := Walk(g, h, w, centre, cells[1..], cmp, threshold);
      assert forall i | 1 <= i < |cells| :: cells[i] == cells[1..][i - 1];
      rest
  }

  /** The value of a pixel of the AOI, or 0 outside it. */
  function Pixel(g: Grid, c: Cell): int
  {
    if 0 <= c.row < |g| && 0 <= c.col < |g[c.row]| then g[c.row][c.col] else 0
  }

  /** The sum of the neighbours' values. */
  function SumAt(g: Grid, h: nat, w: nat, cells: seq<Cell>): int
    requires IsGrid(g, h, w)
    requires forall i | 0 <= i < |cells| :: InGrid(cells[i], h, w)
  {
    if cells == [] then 0
    else
      var last := cells[|cells| - 1];
      assert InGrid(last, h, w) && |g[last.row]| == w;
      SumAt(g, h, w, cells[..|cells| - 1]) + g[last.row][last.col]
  }

  /** Neighbours whose values lie between lo and hi sum to between k lo and k hi. */
  lemma {:induction false} SumAtBounds(g: Grid, h: nat, w: nat, cells: seq<Cell>, lo: int, hi: int)
    requires IsGrid(g, h, w)
    requires forall i | 0 <= i < |cells| :: InGrid(cells[i], h, w)
    requires forall i | 0 <= i < |cells| :: lo <= Pixel(g, cells[i]) <= hi
    ensures |cells| * lo <= SumAt(g, h, w, cells) <= |cells| * hi
  {
    if cells != [] {
      SumAtBounds(g, h, w, cells[..|cells| - 1], lo, hi);
    }
  }

  /**
   * The visit to pixel (y, x): replace it by int() of the neighbours' mean
   * (the sum of each neighbour divided by their number) when it differs from
   * every one of them.
   */
  function Decide(g: Grid, h: nat, w: nat, cmp: Comparison, threshold: real, y: nat, x: nat): (v: Verdict)
    requires IsGrid(g, h, w) && y < h && x < w
    ensures v.Replace? <==> Walk(g, h, w, g[y][x], Neighbours(h, w, y, x), cmp, threshold) == AllDiffer
    ensures v == OutOfRange <==> Walk(g, h, w, g[y][x], Neighbours(h, w, y, x), cmp, threshold) == Broken
  {
    var cells := Neighbours(h, w, y, x);
    match Walk(g, h, w, g[y][x], cells, cmp, threshold)
    case Broken => OutOfRange
    case Similar => Keep
    case AllDiffer => Replace(Trunc(SumAt(g, h, w, cells) as real / |cells| as real))
  }

  /** The replacement lies between the smallest and the largest neighbour value. */
  lemma ReplacementBetweenNeighbours(g: Grid, h: nat, w: nat, cmp: Comparison, threshold: real, y: nat, x: nat, lo: int, hi: int)
    requires IsGrid(g, h, w) && y < h && x < w
    requires Decide(g, h, w, cmp, threshold, y, x).Replace?
    requires var cells := Neighbours(h, w, y, x);
      forall i | 0 <= i < |cells| :: lo <= Pixel(g, cells[i]) <= hi
    ensures lo <= Decide(g, h, w, cmp, threshold, y, x).value <= hi
  {
    var cells := Neighbours(h, w, y, x);
    SumAtBounds(g, h, w, cells, lo, hi);
    TruncOfMean(SumAt(g, h, w, cells), |cells|, lo, hi);
  }

  /** One visit: the pixel is replaced, kept, or the visit raises. */
  function Visit(g: Grid, h: nat, w: nat, cmp: Comparison, threshold: real, y: nat, x: nat): (o: Outcome)
    requires IsGrid(g, h, w) && y < h && x < w
    ensures IsGrid(o.grid, h, w)
  {
    match Decide(g, h, w, cmp, threshold, y, x)
    case OutOfRange => Outcome(g, true)
    case Keep => Outcome(g, false)
    case Replace(v) => Outcome(Set(g, y, x, v), false)
  }

  /**
   * Visits to rows y .. h-1 of column x, each seeing the writes of the ones
   * before; a visit that raises ends the sweep.
   */
  function SweepRows(g: Grid, h: nat, w: nat, cmp: Comparison, threshold: real, x: nat, y: nat): (o: Outcome)
    requires IsGrid(g, h, w) && x < w && y <= h
    ensures IsGrid(o.grid, h, w)
    decreases h - y
  {
    if y == h then Outcome(g, false)
    else
      var o := Visit(g, h, w, cmp, threshold, y, x);
      if o.failed then o else SweepRows(o.grid, h, w, cmp, threshold, x, y + 1)
  }

  /** Columns x .. w-1 swept in turn. */
  function SweepColumns(g: Grid, h: nat, w: nat, cmp: Comparison, threshold: real, x: nat): (o: Outcome)
    requires IsGrid(g, h, w) && x <= w
    ensures IsGrid(o.grid, h, w)
    decreases w - x
  {
    if x == w then Outcome(g, false)
    else
      var o := SweepRows(g, h, w, cmp, threshold, x, 0);
      if o.failed then o else SweepColumns(o.grid, h, w, cmp, threshold, x + 1)
  }

  /** One pass of `for x ...: for y ...:` over the whole AOI. */
  function Pass(g: Grid, h: nat, w: nat, cmp: Comparison, threshold: real): (o: Outcome)
    requires IsGrid(g, h, w)
    ensures IsGrid(o.grid, h, w)
  {
    SweepColumns(g, h, w, cmp, threshold, 0)
  }

  /** np.std(aoi) * badPixelFactor, taken once before the passes. */
  function Threshold(lib: Lib, g: Grid, factor: real): (t: real)
    ensures 0.0 <= factor ==> 0.0 <= t
    ensures factor == 0.0 ==> t == 0.0
  {
    lib.std(Flatten(g)) * factor
  }

  /** The two passes, the second skipped when the first raises. */
  function TwoPasses(g: Grid, h: nat, w: nat, cmp: Comparison, threshold: real): (o: Outcome)
    requires IsGrid(g, h, w)
    ensures IsGrid(o.grid, h, w)
  {
    var first := Pass(g, h, w, cmp, threshold);
    if first.failed then first else Pass(first.grid, h, w, cmp, threshold)
  }

  /** cleanEdge: nothing when removeDeadPixels is off, two passes otherwise. */
  function CleanEdgeSpec(lib: Lib, g: Grid, h: nat, w: nat, factor: real, enabled: bool, cmp: Comparison): (o: Outcome)
    requires IsGrid(g, h, w)
    ensures IsGrid(o.grid, h, w)
  {
    if enabled then TwoPasses(g, h, w, cmp, Threshold(lib, g, factor)) else Outcome(g, false)
  }

  // ---------------------------------------------------------------------------
  // Preserved invariant: the AOI stays a uint16 image.

  lemma VisitKeepsU16(g: Grid, h: nat, w: nat, cmp: Comparison, threshold: real, y: nat, x: nat)
    requires IsGrid(g, h, w) && y < h && x < w && IsU16(g)
    ensures IsU16(Visit(g, h, w, cmp, threshold, y, x).grid)
  {
    if Decide(g, h, w, cmp, threshold, y, x).Replace? {
      ReplacementBetweenNeighbours(g, h, w, cmp, threshold, y, x, 0, 65535);
    }
  }

  lemma {:induction false} SweepRowsKeepU16(g: Grid, h: nat, w: nat, cmp: Comparison, threshold: real, x: nat, y: nat)
    requires IsGrid(g, h, w) && x < w && y <= h && IsU16(g)
    ensures IsU16(SweepRows(g, h, w, cmp, threshold, x, y).grid)
    decreases h - y
  {
    if y < h {
      VisitKeepsU16(g, h, w, cmp, threshold, y, x);
      var o := Visit(g, h, w, cmp, threshold, y, x);
      if !o.failed {
        SweepRowsKeepU16(o.grid, h, w, cmp, threshold, x, y + 1);
      }
    }
  }

  lemma {:induction false} SweepColumnsKeepU16(g: Grid, h: nat, w: nat, cmp: Comparison, threshold: real, x: nat)
    requires IsGrid(g, h, w) && x <= w && IsU16(g)
    ensures IsU16(SweepColumns(g, h, w, cmp, threshold, x).grid)
    decreases w - x
  {
    if x < w {
      SweepRowsKeepU16(g, h, w, cmp, threshold, x, 0);
      var o := SweepRows(g, h, w, cmp, threshold, x, 0);
      if !o.failed {
        SweepColumnsKeepU16(o.grid, h, w, cmp, threshold, x + 1);
      }
    }
  }

  /** Cleaning a uint16 AOI leaves a uint16 AOI: every replacement is a mean of uint16 values. */
  lemma CleanEdgeKeepsU16(lib: Lib, g: Grid, h: nat, w: nat, factor: real, enabled: bool, cmp: Comparison)
    requires IsGrid(g, h, w) && IsU16(g)
    ensures IsU16(CleanEdgeSpec(lib, g, h, w, factor, enabled, cmp).grid)
  {
    if enabled {
      var threshold := Threshold(lib, g, factor);
      SweepColumnsKeepU16(g, h, w, cmp, threshold, 0);
      var first := Pass(g, h, w, cmp, threshold);
      if !first.failed {
        SweepColumnsKeepU16(first.grid, h, w, cmp, threshold, 0);
      }
    }
  }

  // ---------------------------------------------------------------------------
  // When cleanEdge raises.

  /** On an AOI at least 2 x 2 no visit reads outside the AOI, so cleaning never raises. */
  lemma NoFailureOnWideAoi(lib: Lib, g: Grid, h: nat, w: nat, factor: real, enabled: bool, cmp: Comparison)
    requires IsGrid(g, h, w) && 2 <= h && 2 <= w
    ensures !CleanEdgeSpec(lib, g, h, w, factor, enabled, cmp).failed
  {
    if enabled {
      var threshold := Threshold(lib, g, factor);
      ColumnsDoNotFail(g, h, w, cmp, threshold, 0);
      ColumnsDoNotFail(Pass(g, h, w, cmp, threshold).grid, h, w, cmp, threshold, 0);
    }
  }

  lemma VisitDoesNotFail(g: Grid, h: nat, w: nat, cmp: Comparison, threshold: real, y: nat, x: nat)
    requires IsGrid(g, h, w) && 2 <= h && 2 <= w && y < h && x < w
    ensures !Visit(g, h, w, cmp, threshold, y, x).failed
  {
    NeighboursAreAdjacentPixels(h, w, y, x);
    var cells := Neighbours(h, w, y, x);
    assert forall i | 0 <= i < |cells| :: InGrid(cells[i], h, w) by {
      forall i | 0 <= i < |cells|
        ensures InGrid(cells[i], h, w)
      {
        assert cells[i] in cells;
      }
    }
  }

  lemma {:induction false} RowsDoNotFail(g: Grid, h: nat, w: nat, cmp: Comparison, threshold: real, x: nat, y: nat)
    requires IsGrid(g, h, w) && 2 <= h && 2 <= w && x < w && y <= h
    ensures !SweepRows(g, h, w, cmp, threshold, x, y).failed
    decreases h - y
  {
    if y < h {
      VisitDoesNotFail(g, h, w, cmp, threshold, y, x);
      RowsDoNotFail(Visit(g, h, w, cmp, threshold, y, x).grid, h, w, cmp, threshold, x, y + 1);
    }
  }

  lemma {:induction false} ColumnsDoNotFail(g: Grid, h: nat, w: nat, cmp: Comparison, threshold: real, x: nat)
    requires IsGrid(g, h, w) && 2 <= h && 2 <= w && x <= w
    ensures !SweepColumns(g, h, w, cmp, threshold, x).failed
    decreases w - x
  {
    if x < w {
      RowsDoNotFail(g, h, w, cmp, threshold, x, 0);
      ColumnsDoNotFail(SweepRows(g, h, w, cmp, threshold, x, 0).grid, h, w, cmp, threshold, x + 1);
    }
  }

  /** On a single-row AOI the very first comparison reads row 1, so cleaning raises at once. */
  lemma SingleRowFails(lib: Lib, g: Grid, w: nat, factor: real, cmp: Comparison)
    requires IsGrid(g, 1, w) && 1 <= w
    ensures CleanEdgeSpec(lib, g, 1, w, factor, true, cmp) == Outcome(g, true)
  {
    var threshold := Threshold(lib, g, factor);
    assert Visit(g, 1, w, cmp, threshold, 0, 0) == Outcome(g, true);
  }

  /**
   * An AOI one pixel thick is never written: every pixel has a neighbour
   * outside the AOI, so no chain can end true.
   */
  lemma ThinAoiIsNotWritten(lib: Lib, g: Grid, h: nat, w: nat, factor: real, enabled: bool, cmp: Comparison)
    requires IsGrid(g, h, w) && (h < 2 || w < 2)
    ensures CleanEdgeSpec(lib, g, h, w, factor, enabled, cmp).grid == g
  {
    if enabled {
      var threshold := Threshold(lib, g, factor);
      ColumnsKeepThinAoi(g, h, w, cmp, threshold, 0);
    }
  }

  lemma NoReplacementOnThinAoi(g: Grid, h: nat, w: nat, cmp: Comparison, threshold: real, y: nat, x: nat)
    requires IsGrid(g, h, w) && (h < 2 || w < 2) && y < h && x < w
    ensures Visit(g, h, w, cmp, threshold, y, x).grid == g
  {
    var cells := Neighbours(h, w, y, x);
    if w < 2 {
      assert !InGrid(cells[1], h, w);
    } else {
      assert !InGrid(cells[if x == 0 then 0 else 2], h, w);
    }
  }

  lemma {:induction false} RowsKeepThinAoi(g: Grid, h: nat, w: nat, cmp: Comparison, threshold: real, x: nat, y: nat)
    requires IsGrid(g, h, w) && (h < 2 || w < 2) && x < w && y <= h
    ensures SweepRows(g, h, w, cmp, threshold, x, y).grid == g
    decreases h - y
  {
    if y < h {
      NoReplacementOnThinAoi(g, h, w, cmp, threshold, y, x);
      RowsKeepThinAoi(g, h, w, cmp, threshold, x, y + 1);
    }
  }

  lemma {:induction false} ColumnsKeepThinAoi(g: Grid, h: nat, w: nat, cmp: Comparison, threshold: real, x: nat)
    requires IsGrid(g, h, w) && (h < 2 || w < 2) && x <= w
    ensures SweepColumns(g, h, w, cmp, threshold, x).grid == g
    decreases w - x
  {
    if x < w {
      RowsKeepThinAoi(g, h, w, cmp, threshold, x, 0);
      ColumnsKeepThinAoi(g, h, w, cmp, threshold, x + 1);
    }
  }

  // ---------------------------------------------------------------------------
  // The two tests clean differently.

  /** A visit keeps the pixel when its first neighbour lies in the AOI and does not differ from it. */
  lemma FirstNeighbourSimilar(g: Grid, h: nat, w: nat, cmp: Comparison, threshold: real, y: nat, x: nat)
    requires IsGrid(g, h, w) && y < h && x < w
    requires var c := Neighbours(h, w, y, x)[0];
      InGrid(c, h, w) && !Exceeds(cmp, g[y][x], g[c.row][c.col], threshold)
    ensures Visit(g, h, w, cmp, threshold, y, x) == Outcome(g, false)
  {
  }

  /** A column sweep from row y changes nothing when no visit from row y on changes anything. */
  lemma {:induction false} StableRows(g: Grid, h: nat, w: nat, cmp: Comparison, threshold: real, x: nat, y: nat)
    requires IsGrid(g, h, w) && x < w && y <= h
    requires forall k | y <= k < h :: Visit(g, h, w, cmp, threshold, k, x) == Outcome(g, false)
    ensures SweepRows(g, h, w, cmp, threshold, x, y) == Outcome(g, false)
    decreases h - y
  {
    if y < h {
      StableRows(g, h, w, cmp, threshold, x, y + 1);
    }
  }

  /** A sweep from column x changes nothing when no visit from column x on changes anything. */
  lemma {:induction false} StableColumns(g: Grid, h: nat, w: nat, cmp: Comparison, threshold: real, x: nat)
    requires IsGrid(g, h, w) && x <= w
    requires forall k, l | x <= l < w && 0 <= k < h :: Visit(g, h, w, cmp, threshold, k, l) == Outcome(g, false)
    ensures SweepColumns(g, h, w, cmp, threshold, x) == Outcome(g, false)
    decreases w - x
  {
    if x < w {
      StableRows(g, h, w, cmp, threshold, x, 0);
      StableColumns(g, h, w, cmp, threshold, x + 1);
    }
  }

  /** A 3 x 3 AOI whose centre is one count darker than its eight neighbours. */
  function Speck(): Grid
  {
    [[1001, 1001, 1001], [1001, 1000, 1001], [1001, 1001, 1001]]
  }

  /** The same AOI with the centre brought up to its neighbours. */
  function Healed(): Grid
  {
    [[1001, 1001, 1001], [1001, 1001, 1001], [1001, 1001, 1001]]
  }

  /** Each of Speck's eight outer pixels has a first neighbour of equal value, so it is kept. */
  lemma SpeckRimKept(cmp: Comparison, threshold: real)
    requires 0.0 <= threshold
    ensures forall k, l | 0 <= k < 3 && 0 <= l < 3 && (k != 1 || l != 1) ::
      Visit(Speck(), 3, 3, cmp, threshold, k, l) == Outcome(Speck(), false)
  {
    var g := Speck();
    FirstNeighbourSimilar(g, 3, 3, cmp, threshold, 0, 0);
    FirstNeighbourSimilar(g, 3, 3, cmp, threshold, 1, 0);
    FirstNeighbourSimilar(g, 3, 3, cmp, threshold, 2, 0);
    FirstNeighbourSimilar(g, 3, 3, cmp, threshold, 0, 1);
    FirstNeighbourSimilar(g, 3, 3, cmp, threshold, 2, 1);
    FirstNeighbourSimilar(g, 3, 3, cmp, threshold, 0, 2);
    FirstNeighbourSimilar(g, 3, 3, cmp, threshold, 1, 2);
    FirstNeighbourSimilar(g, 3, 3, cmp, threshold, 2, 2);
  }

  /** In a uniform AOI at least 2 x 2, every pixel's first neighbour has its value, so it is kept. */
  lemma UniformKept(g: Grid, h: nat, w: nat, cmp: Comparison, threshold: real, y: nat, x: nat)
    requires IsGrid(g, h, w) && 2 <= h && 2 <= w && y < h && x < w && 0.0 <= threshold
    requires forall i, j | 0 <= i < h && 0 <= j < w :: g[i][j] == g[y][x]
    ensures Visit(g, h, w, cmp, threshold, y, x) == Outcome(g, false)
  {
    var c := Neighbours(h, w, y, x)[0];
    assert InGrid(c, h, w);
    assert g[c.row][c.col] == g[y][x];
    FirstNeighbourSimilar(g, h, w, cmp, threshold, y, x);
  }

  /** Every pixel of Healed has a first neighbour of equal value, so it is kept. */
  lemma HealedKept(cmp: Comparison, threshold: real)
    requires 0.0 <= threshold
    ensures forall k, l | 0 <= k < 3 && 0 <= l < 3 ::
      Visit(Healed(), 3, 3, cmp, threshold, k, l) == Outcome(Healed(), false)
  {
    var g := Healed();
    forall k, l | 0 <= k < 3 && 0 <= l < 3
      ensures Visit(g, 3, 3, cmp, threshold, k, l) == Outcome(g, false)
    {
      assert forall i, j | 0 <= i < 3 && 0 <= j < 3 :: g[i][j] == 1001;
      UniformKept(g, 3, 3, cmp, threshold, k, l);
    }
  }

  /** As written, Speck's centre differs from all eight neighbours by 65535 and becomes their mean, 1001. */
  lemma SpeckCentreReplaced(threshold: real)
    requires threshold < 65535.0
    ensures Visit(Speck(), 3, 3, AsWritten, threshold, 1, 1) == Outcome(Healed(), false)
  {
    var g, cells := Speck(), Neighbours(3, 3, 1, 1);
    assert forall i | 0 <= i < |cells| :: InGrid(cells[i], 3, 3) && g[cells[i].row][cells[i].col] == 1001;
    assert (1000 - 1001) % 65536 == 65535;
    assert Walk(g, 3, 3, 1000, cells, AsWritten, threshold) == AllDiffer;
    SumAtBounds(g, 3, 3, cells, 1001, 1001);
    GridsEqual(Set(g, 1, 1, 1001), Healed(), 3, 3);
  }

  /** As written, the sweep of Speck's middle column keeps the top, heals the centre and keeps the bottom. */
  lemma SpeckMiddleColumn(threshold: real)
    requires 0.0 <= threshold < 65535.0
    ensures SweepRows(Speck(), 3, 3, AsWritten, threshold, 1, 0) == Outcome(Healed(), false)
  {
    FirstNeighbourSimilar(Speck(), 3, 3, AsWritten, threshold, 0, 1);
    SpeckCentreReplaced(threshold);
    FirstNeighbourSimilar(Healed(), 3, 3, AsWritten, threshold, 2, 1);
    assert SweepRows(Healed(), 3, 3, AsWritten, threshold, 1, 2) == Outcome(Healed(), false);
    assert SweepRows(Speck(), 3, 3, AsWritten, threshold, 1, 1) == Outcome(Healed(), false);
  }

  /**
   * A pass over a 3 x 3 AOI that keeps column 0, turns the AOI into g2
   * while sweeping column 1, and then keeps column 2 of g2, ends in g2.
   */
  lemma PassThroughMiddle(g: Grid, g2: Grid, cmp: Comparison, threshold: real)
    requires IsGrid(g, 3, 3) && IsGrid(g2, 3, 3)
    requires forall k | 0 <= k < 3 :: Visit(g, 3, 3, cmp, threshold, k, 0) == Outcome(g, false)
    requires SweepRows(g, 3, 3, cmp, threshold, 1, 0) == Outcome(g2, false)
    requires forall k | 0 <= k < 3 :: Visit(g2, 3, 3, cmp, threshold, k, 2) == Outcome(g2, false)
    ensures Pass(g, 3, 3, cmp, threshold) == Outcome(g2, false)
  {
    StableRows(g, 3, 3, cmp, threshold, 0, 0);
    StableColumns(g2, 3, 3, cmp, threshold, 2);
  }

  /** Two passes that each end in g2 without raising end in g2. */
  lemma TwoPassesSettle(g: Grid, g2: Grid, cmp: Comparison, threshold: real)
    requires IsGrid(g, 3, 3) && IsGrid(g2, 3, 3)
    requires Pass(g, 3, 3, cmp, threshold) == Outcome(g2, false)
    requires forall k, l | 0 <= k < 3 && 0 <= l < 3 :: Visit(g2, 3, 3, cmp, threshold, k, l) == Outcome(g2, false)
    ensures TwoPasses(g, 3, 3, cmp, threshold) == Outcome(g2, false)
  {
    StableColumns(g2, 3, 3, cmp, threshold, 0);
  }

  /**
   * On Speck, with any threshold from 1 up to 65535, cleanEdge as written
   * replaces the centre by the mean of its neighbours, 1001: 1000 - 1001 wraps
   * to 65535. The intended test sees a difference of 1 and keeps the AOI.
   */
  lemma CleanEdgeSpecsDiffer(lib: Lib, factor: real)
    requires 1.0 <= Threshold(lib, Speck(), factor) < 65535.0
    ensures CleanEdgeSpec(lib, Speck(), 3, 3, factor, true, AsWritten) == Outcome(Healed(), false)
    ensures CleanEdgeSpec(lib, Speck(), 3, 3, factor, true, Intended) == Outcome(Speck(), false)
  {
    var g, t := Speck(), Threshold(lib, Speck(), factor);
    SpeckRimKept(AsWritten, t);
    SpeckMiddleColumn(t);
    HealedKept(AsWritten, t);
    PassThroughMiddle(g, Healed(), AsWritten, t);
    TwoPassesSettle(g, Healed(), AsWritten, t);
    SpeckRimKept(Intended, t);
    FirstNeighbourSimilar(g, 3, 3, Intended, t, 1, 1);
    StableColumns(g, 3, 3, Intended, t, 0);
    TwoPassesSettle(g, g, Intended, t);
  }

  // ---------------------------------------------------------------------------
  // The in-place sweeps.

  /** One step of a column sweep: the visit to (y, x) and what follows it. */
  lemma SweepRowsStep(g: Grid, h: nat, w: nat, cmp: Comparison, threshold: real, x: nat, y: nat)
    requires IsGrid(g, h, w) && x < w && y < h
    ensures SweepRows(g, h, w, cmp, threshold, x, y) ==
      match Decide(g, h, w, cmp, threshold, y, x)
      case OutOfRange => Outcome(g, true)
      case Keep => SweepRows(g, h, w, cmp, threshold, x, y + 1)
      case Replace(v) => SweepRows(Set(g, y, x, v), h, w, cmp, threshold, x, y + 1)
  {
  }

  /** The inner loop: column x, top to bottom, returning false where the source raises. */
  method SweepColumn(img: array2<int>, cmp: Comparison, threshold: real, x: nat) returns (ok: bool)
    requires x < img.Length1
    modifies img
    ensures Outcome(Contents(img), !ok) == SweepRows(old(Contents(img)), img.Length0, img.Length1, cmp, threshold, x, 0)
  {
    ghost var g0 := Contents(img);
    var h, w := img.Length0, img.Length1;
    for y := 0 to h
      invariant SweepRows(g0, h, w, cmp, threshold, x, 0) == SweepRows(Contents(img), h, w, cmp, threshold, x, y)
    {
      var g := Contents(img);
      SweepRowsStep(g, h, w, cmp, threshold, x, y);
      match Decide(g, h, w, cmp, threshold, y, x)
      case OutOfRange =>
        return false;
      case Keep =>
      case Replace(v) =>
        Write(img, y, x, v);
    }
    return true;
  }

  /** One pass over the AOI in place. */
  method SweepOnce(img: array2<int>, cmp: Comparison, threshold: real) returns (ok: bool)
    modifies img
    ensures Outcome(Contents(img), !ok) == Pass(old(Contents(img)), img.Length0, img.Length1, cmp, threshold)
  {
    ghost var g0 := Contents(img);
    var h, w := img.Length0, img.Length1;
    for x := 0 to w
      invariant Pass(g0, h, w, cmp, threshold) == SweepColumns(Contents(img), h, w, cmp, threshold, x)
    {
      ok := SweepColumn(img, cmp, threshold, x);
      if !ok {
        return;
      }
    }
    return true;
  }

  /** cleanEdge on the AOI array; false where the source raises IndexError. */
  method Clean(lib: Lib, img: array2<int>, factor: real, enabled: bool, cmp: Comparison) returns (ok: bool)
    modifies img
    ensures Outcome(Contents(img), !ok) == CleanEdgeSpec(lib, old(Contents(img)), img.Length0, img.Length1, factor, enabled, cmp)
  {
    if !enabled {
      return true;
    }
    var threshold := Threshold(lib, Contents(img), factor);
    ok := SweepOnce(img, cmp, threshold);
    if ok {
      ok := SweepOnce(img, cmp, threshold);
    }
  }
}
