/**
 * Locating the slanted edge inside the AOI (MTF/MTF_Functions.py,
 * detect_line and getLine): a logistic is fitted across chosen rows, a
 * straight line through the fitted centres gives slope and intercept, and
 * the line becomes an integer segment from x = -1000 to x = 1000.
 */
module EdgeLocator {
  import opened Numerics
  import opened Grids
  import Misc

  /** A fitted line y = slope * x + intercept, as np.polyfit returns it. */
  datatype Line = Line(slope: real, intercept: real)

  /** The QLine ui.edge: integer end points. */
  datatype Edge = Edge(x1: int, y1: int, x2: int, y2: int)

  /** The edge and its angle in degrees (ui.edge and ui.angle). */
  datatype EdgeFit = EdgeFit(edge: Edge, angle: real)

  /** Row i of the image as reals. */
  function RowOf(g: Grid, i: nat): seq<real>
    requires i < |g|
  {
    Reals(g[i])
  }

  /** Row i of an image array as reals; the same row as RowOf on its contents. */
  function RowAt(img: array2<int>, i: nat): (r: seq<real>)
    requires i < img.Length0
    reads img
    ensures r == RowOf(Contents(img), i)
  {
    seq(img.Length1, j requires 0 <= j < img.Length1 reads img => img[i, j] as real)
  }

  /**
   * The fitted centre popt[2] of the logistic across one row. np.amax of an
   * empty row raises; scipy refuses
   * fewer data points than the four parameters, and a fit that does not
   * converge raises.
   */
  function FitRow(lib: Lib, row: seq<real>): (r: Result<real>)
    ensures r == Err(ValueError) <==> row == []
    ensures r.Err? ==> r.error == ValueError || r.error == FitFailed
    ensures 0 < |row| < 4 ==> r == Err(FitFailed)
    ensures r.Ok? ==> lib.logisticCentre(Columns(|row|), row, InitialGuess(row)) == Some(r.value)
  {
    if row == [] then Err(ValueError)
    else if |row| < 4 then Err(FitFailed)
    else match lib.logisticCentre(Columns(|row|), row, InitialGuess(row))
      case None => Err(FitFailed)
      case Some(c) => Ok(c)
  }

  /** np.arange(0, width) as reals. */
  function Columns(w: nat): seq<real>
  {
    seq(w, j requires 0 <= j < w => j as real)
  }

  /** The starting parameters p0 = [max - min, 1, width / 2, min] of the logistic fit. */
  function InitialGuess(row: seq<real>): (p: seq<real>)
    requires row != []
    ensures |p| == 4 && 0.0 <= p[0] && p[1] == 1.0 && p[2] == |row| as real / 2.0
    ensures forall v | v in row :: p[3] <= v <= p[3] + p[0]
  {
    [MaxOf(row) - MinOf(row), 1.0, |row| as real / 2.0, MinOf(row)]
  }

  /**
   * Whether row i is fitted: when the top or bottom row is flat (std below
   * half the AOI's), only rows with std at least half the AOI's are; otherwise
   * every row is.
   */
  predicate RowFitted(lib: Lib, g: Grid, i: nat, filter: bool, s: real)
    requires i < |g|
  {
    !filter || !(lib.std(RowOf(g, i)) < s / 2.0)
  }

  /** The rows below k that are chosen, in increasing order. */
  function ChosenRows(chosen: seq<bool>, k: nat): seq<nat>
    requires k <= |chosen|
  {
    if k == 0 then []
    else ChosenRows(chosen, k - 1) + (if chosen[k - 1] then [k - 1] else [])
  }

  /**
   * The observations (edge_x, edge_y) collected from rows 0 .. k-1: each
   * chosen row adds its fitted centre and its index; the first failing fit
   * ends the collection.
   */
  function Collect(fits: seq<Result<real>>, chosen: seq<bool>, k: nat): (r: Result<(seq<real>, seq<real>)>)
    requires |chosen| == |fits| && k <= |fits|
    ensures r.Err? ==> exists i | 0 <= i < k :: chosen[i] && fits[i] == Err(r.error)
  {
    if k == 0 then Ok(([], []))
    else
      var prev :- Collect(fits, chosen, k - 1);
      if chosen[k - 1] then
        var c :- fits[k - 1];
        Ok((prev.0 + [c], prev.1 + [(k - 1) as real]))
      else Ok(prev)
  }

  /** The fit of every row, whether or not it is chosen. */
  function RowFits(lib: Lib, g: Grid): (r: seq<Result<real>>)
    ensures |r| == |g|
  {
    seq(|g|, i requires 0 <= i < |g| => FitRow(lib, RowOf(g, i)))
  }

  /** Which rows the filter lets through. */
  function Chosen(lib: Lib, g: Grid, filter: bool, s: real): (r: seq<bool>)
    ensures |r| == |g|
  {
    seq(|g|, i requires 0 <= i < |g| => RowFitted(lib, g, i, filter, s))
  }

  /** Whether the row filter is on: the first or last row has std below half the AOI's. */
  predicate FilterRows(lib: Lib, g: Grid, s: real)
    requires g != []
  {
    lib.std(RowOf(g, 0)) < s / 2.0 || lib.std(RowOf(g, |g| - 1)) < s / 2.0
  }

  /**
   * detect_line: the line through the fitted centres, (0.1, 0) when no row was
   * fitted. An AOI with no rows fails at aoi[0, :]; one with empty rows fails
   * at np.amax (its NaN standard deviations select every row).
   */
  function DetectLineSpec(lib: Lib, g: Grid, h: nat, w: nat): (r: Result<Line>)
    requires IsGrid(g, h, w)
    ensures h == 0 ==> r == Err(IndexError)
    ensures 0 < h && w == 0 ==> r == Err(ValueError)
    ensures 0 < h && 0 < w && r.Err? ==> r.error == FitFailed
  {
    if h == 0 then Err(IndexError)
    else if w == 0 then Err(ValueError)
    else
      var s := lib.std(Flatten(g));
      LineThrough(lib, Collect(RowFits(lib, g), Chosen(lib, g, FilterRows(lib, g, s), s), h))
  }

  /** The line np.polyfit puts through the observations; (0.1, 0) when there are none. */
  function LineThrough(lib: Lib, obs: Result<(seq<real>, seq<real>)>): Result<Line>
  {
    match obs
    case Err(e) => Err(e)
    case Ok((xs, ys)) =>
      if xs == [] then Ok(Line(0.1, 0.0))
      else
        var p := lib.polyfit(xs, ys);
        Ok(Line(p.0, p.1))
  }

  /** detect_line over the AOI array. */
  method DetectLine(lib: Lib, img: array2<int>) returns (r: Result<Line>)
    ensures r == DetectLineSpec(lib, Contents(img), img.Length0, img.Length1)
  {
    var h := img.Length0;
    var w := img.Length1;
    if h == 0 {
      return Err(IndexError);
    }
    if w == 0 {
      return Err(ValueError);
    }
    var s := lib.std(Flatten(Contents(img)));
    var filter := lib.std(RowAt(img, 0)) < s / 2.0 || lib.std(RowAt(img, h - 1)) < s / 2.0;
    var obs := FitRows(lib, img, filter, s);
    match obs {
      case Err(e) =>
        r := Err(e);
      case Ok((edgeX, edgeY)) =>
        if edgeX == [] {
          r := Ok(Line(0.1, 0.0));
        } else {
          var p := lib.polyfit(edgeX, edgeY);
          r := Ok(Line(p.0, p.1));
        }
    }
  }

  /** The row loop of detect_line: fit each row the filter lets through, in order. */
  method FitRows(lib: Lib, img: array2<int>, filter: bool, s: real) returns (r: Result<(seq<real>, seq<real>)>)
    ensures r == Collect(RowFits(lib, Contents(img)), Chosen(lib, Contents(img), filter, s), img.Length0)
  {
    ghost var fits := RowFits(lib, Contents(img));
    ghost var chosen := Chosen(lib, Contents(img), filter, s);
    var edgeX: seq<real> := [];
    var edgeY: seq<real> := [];
    for i := 0 to img.Length0
      invariant Collect(fits, chosen, i) == Ok((edgeX, edgeY))
    {
      var row := RowAt(img, i);
      if filter && lib.std(row) < s / 2.0 {
        assert !chosen[i];
      } else {
        assert chosen[i];
        var c := FitRow(lib, row);
        assert c == fits[i];
        if c.Err? {
          CollectStops(fits, chosen, i);
          FailureStays(fits, chosen, i + 1, img.Length0);
          return Err(c.error);
        }
        edgeX := edgeX + [c.value];
        edgeY := edgeY + [i as real];
      }
    }
    r := Ok((edgeX, edgeY));
  }

  /** A chosen row whose fit fails makes the collection fail with the fit's error. */
  lemma CollectStops(fits: seq<Result<real>>, chosen: seq<bool>, k: nat)
    requires |chosen| == |fits| && k < |fits|
    requires Collect(fits, chosen, k).Ok? && chosen[k] && fits[k].Err?
    ensures Collect(fits, chosen, k + 1) == Err(fits[k].error)
  {
  }

  /** A failed fit ends the collection: every longer prefix fails with the same error. */
  lemma {:induction false} FailureStays(fits: seq<Result<real>>, chosen: seq<bool>, k: nat, k': nat)
    requires |chosen| == |fits| && k <= k' <= |fits|
    requires Collect(fits, chosen, k).Err?
    ensures Collect(fits, chosen, k') == Collect(fits, chosen, k)
    decreases k' - k
  {
    if k < k' {
      FailureStays(fits, chosen, k, k' - 1);
    }
  }

  /**
   * The observations pair each chosen row's fitted centre with its row
   * index: edge_y lists exactly the chosen rows, in increasing order, and
   * edge_x[t] is the centre fitted across row edge_y[t].
   */
  lemma {:induction false} CollectedAreChosenRows(fits: seq<Result<real>>, chosen: seq<bool>, k: nat)
    requires |chosen| == |fits| && k <= |fits|
    requires Collect(fits, chosen, k).Ok?
    ensures var obs := Collect(fits, chosen, k).value;
      var rows := ChosenRows(chosen, k);
      && |obs.0| == |obs.1| == |rows|
      && (forall t | 0 <= t < |rows| :: obs.1[t] == rows[t] as real)
      && (forall t | 0 <= t < |rows| :: rows[t] < k && fits[rows[t]] == Ok(obs.0[t]))
  {
    if k > 0 {
      CollectedAreChosenRows(fits, chosen, k - 1);
    }
  }

  /** Row i is among the chosen rows below k exactly when the filter lets it through. */
  lemma {:induction false} ChosenRowsMembership(chosen: seq<bool>, k: nat, i: nat)
    requires k <= |chosen|
    ensures i in ChosenRows(chosen, k) <==> i < k && chosen[i]
  {
    if k > 0 {
      ChosenRowsMembership(chosen, k - 1, i);
    }
  }

  /**
   * The rows detect_line fits: with a flat first or last row, exactly the
   * rows whose std is at least half the AOI's; otherwise every row.
   */
  lemma RowSelection(lib: Lib, g: Grid, i: nat)
    requires g != [] && i < |g|
    ensures var s := lib.std(Flatten(g));
      Chosen(lib, g, FilterRows(lib, g, s), s)[i]
      <==> !FilterRows(lib, g, s) || lib.std(RowOf(g, i)) >= s / 2.0
  {
  }

  /** When no row is chosen, nothing is collected. */
  lemma {:induction false} NothingChosen(fits: seq<Result<real>>, chosen: seq<bool>, k: nat)
    requires |chosen| == |fits| && k <= |fits|
    requires forall i | 0 <= i < |chosen| :: !chosen[i]
    ensures Collect(fits, chosen, k) == Ok(([], []))
  {
    if k > 0 {
      NothingChosen(fits, chosen, k - 1);
    }
  }

  /** When the filter is on and every row is flat, detect_line returns exactly (0.1, 0). */
  lemma NoObservationsGivesDefaultLine(lib: Lib, g: Grid, h: nat, w: nat)
    requires IsGrid(g, h, w) && 0 < h && 0 < w
    requires var s := lib.std(Flatten(g));
      FilterRows(lib, g, s) && forall i | 0 <= i < h :: lib.std(RowOf(g, i)) < s / 2.0
    ensures DetectLineSpec(lib, g, h, w) == Ok(Line(0.1, 0.0))
  {
    var s := lib.std(Flatten(g));
    NothingChosen(RowFits(lib, g), Chosen(lib, g, true, s), h);
  }

  /**
   * getLine: the angle of the fitted slope in degrees and the integer segment
   * at x = -1000 and x = 1000; when detect_line failed, p1 is never bound and
   * getLine raises.
   */
  function GetLine(lib: Lib, fit: Result<Line>): (r: Result<EdgeFit>)
    ensures fit.Err? <==> r.Err?
    ensures fit.Ok? ==> r.value.angle == Degrees(lib.atan(fit.value.slope))
    ensures fit.Ok? ==> r.value.edge.x1 == -1000 && r.value.edge.x2 == 1000
  {
    match fit
    case Err(_) => Err(UnboundName)
    case Ok(line) =>
      var ends := Misc.LineFromEquation(line.slope, line.intercept);
      Ok(EdgeFit(Edge(ends.0.0, ends.0.1, ends.1.0, ends.1.1), Degrees(lib.atan(line.slope))))
  }

  /** The slope analyse and adjustAoi recover from the integer segment: dy / dx. */
  function EdgeSlope(e: Edge): real
    requires e.x2 != e.x1
  {
    (e.y2 - e.y1) as real / (e.x2 - e.x1) as real
  }

  /**
   * The segment spans x = -1000 .. 1000 and its slope differs from the
   * fitted slope by less than 1/1000 (each end point is truncated by less
   * than one pixel).
   */
  lemma EdgeKeepsSlope(lib: Lib, line: Line)
    ensures var r := GetLine(lib, Ok(line));
      && r.Ok? && r.value.edge.x1 == -1000 && r.value.edge.x2 == 1000
      && Abs(EdgeSlope(r.value.edge) - line.slope) < 1.0 / 1000.0
  {
    var e := GetLine(lib, Ok(line)).value.edge;
    var lo := line.slope * -1000.0 + line.intercept;
    var hi := line.slope * 1000.0 + line.intercept;
    assert Abs(e.y1 as real - lo) < 1.0 && Abs(e.y2 as real - hi) < 1.0;
    assert hi - lo == 2000.0 * line.slope;
    var dy := (e.y2 - e.y1) as real;
    assert Abs(dy - 2000.0 * line.slope) < 2.0;
    assert EdgeSlope(e) == dy / 2000.0;
  }
}
