/**
 * fitESFCurve in MTF/MTF_Functions.py: resample the raw ESF, smooth it,
 * locate d10 and d90 with one threshold walk, split the raw samples into
 * accepted and removed, re-smooth the grid from the accepted samples and
 * smooth once more. Any exception ends the stage (the whole body sits in one
 * try block).
 */
module EsfFit {
  import opened Numerics
  import opened Crossings
  import opened EdgeSpec
  import opened Resample
  import opened Misc
  import opened EsfNoise
  import opened EsfSmooth

  /**
   * The walk for d10 and d90: on a falling curve d90 is checked first and
   * records the sample itself, d10 records the sample before; on a rising
   * curve the roles swap.
   */
  function FitThresholds(falling: bool): (ts: seq<Threshold>)
    ensures |ts| == 2 && !ts[0].before && ts[1].before
  {
    if falling then [Threshold(0.9, false), Threshold(0.1, true)]
    else [Threshold(0.1, false), Threshold(0.9, true)]
  }

  /** (d10, d90) from the walk's two links, in walk order. */
  function Distances(falling: bool, p: seq<real>): (real, real)
    requires |p| == 2
  {
    if falling then (p[1], p[0]) else (p[0], p[1])
  }

  /**
   * d10 and d90 of the smoothed curve ys over the grid xs: min() of an empty
   * curve raises ValueError; the walk raises IndexError past the curve's end.
   */
  function D10D90(xs: seq<real>, ys: seq<real>): (r: Result<(real, real)>)
    ensures ys == [] ==> r == Err(ValueError)
    ensures ys != [] && |xs| <= |ys| ==> r.Ok?
    ensures r.Err? ==> r.error == ValueError || (r.error == IndexError && |ys| < |xs|)
  {
    if ys == [] then Err(ValueError)
    else
      var s := CurveScan(xs, ys);
      WalkFailsOnlyPastTheCurve(s, FitThresholds(s.falling), |xs|);
      var p :- Walk(s, FitThresholds(s.falling), |xs|);
      Ok(Distances(s.falling, p))
  }

  /** The user's settings the stage reads. */
  datatype FitSettings = FitSettings(
    oversampling: int,     // oversamplingMultiplier
    maxminD: int,          // normalDistanceFromEdge
    tailStart: real,       // tailStartdT
    removeNoise: bool,
    sigmaScaling: real,    // sigmaScalingSpinBox
    smooth: SmoothSettings)

  /** What the stage leaves behind: EsfPosition, EsfData, the split raw samples, d10, d90 and dT. */
  datatype Fit = Fit(position: seq<real>, data: seq<real>, split: Split, d10: real, d90: real, dT: real)

  /** dT = tailStartdT * max(|d10|, |d90|). */
  function TailStart(tailStart: real, d10: real, d90: real): real
  {
    tailStart * MaxR(Abs(d10), Abs(d90))
  }

  /** The whole stage, step by step; the first exception ends it. */
  function FitOf(lib: Lib, cfg: FitSettings, raw: Samples): (r: Result<Fit>)
    requires Parallel(raw)
    ensures 1 + cfg.oversampling * cfg.maxminD < 0 ==> r == Err(ValueError)
    ensures r.Ok? ==> 0 <= 1 + cfg.oversampling * cfg.maxminD
    ensures r.Ok? ==> r.value.position == Resampled(Linspace(cfg.maxminD, 1 + cfg.oversampling * cfg.maxminD),
                                                    raw.position, raw.data, 1 + cfg.oversampling * cfg.maxminD).xs
  {
    var num := 1 + cfg.oversampling * cfg.maxminD;
    if num < 0 then Err(ValueError)
    else FitSmoothed(lib, cfg, raw, Resampled(Linspace(cfg.maxminD, num), raw.position, raw.data, num))
  }

  /** The stage once the grid is resampled: the first smoothing, then the rest. */
  function FitSmoothed(lib: Lib, cfg: FitSettings, raw: Samples, curve: Curve): (r: Result<Fit>)
    requires Parallel(raw)
    ensures SavitzkyGolay(lib, curve.ys, cfg.oversampling + 1, 3).Err? ==> r.Err?
    ensures r.Ok? ==> r.value.position == curve.xs
  {
    var ys :- SavitzkyGolay(lib, curve.ys, cfg.oversampling + 1, 3);
    FitFrom(lib, cfg, raw, curve.xs, ys)
  }

  /** The stage after the first smoothing of the curve ys over the grid xs. */
  function FitFrom(lib: Lib, cfg: FitSettings, raw: Samples, xs: seq<real>, ys: seq<real>): (r: Result<Fit>)
    requires Parallel(raw)
    ensures ys == [] ==> r == Err(ValueError)
    ensures r.Ok? ==> r.value.position == xs && D10D90(xs, ys) == Ok((r.value.d10, r.value.d90))
  {
    var d :- D10D90(xs, ys);
    FitBeyond(lib, cfg, raw, xs, ys, d.0, d.1)
  }

  /** The stage after d10 and d90: noise split, re-smoothing and the last smoothing. */
  function FitBeyond(lib: Lib, cfg: FitSettings, raw: Samples, xs: seq<real>, ys: seq<real>, d10: real, d90: real): (r: Result<Fit>)
    requires Parallel(raw)
    ensures r.Ok? ==> r.value.position == xs && r.value.d10 == d10 && r.value.d90 == d90
    ensures r.Ok? ==> r.value.dT == TailStart(cfg.tailStart, d10, d90)
    ensures r.Ok? && !cfg.removeNoise ==> r.value.split == Split(raw, Samples([], []))
  {
    var dT := TailStart(cfg.tailStart, d10, d90);
    var split :- NoiseSplit(lib, xs, ys, raw, d10, d90, cfg.sigmaScaling, cfg.removeNoise);
    var ysNew :- Resmoothed(lib, cfg.smooth, dT, split.kept, xs);
    var data :- SavitzkyGolay(lib, ysNew, cfg.oversampling + 1, 3);
    Ok(Fit(xs, data, split, d10, d90, dT))
  }

  // ---------------------------------------------------------------------------
  // Properties of the walk.

  /**
   * The link that records the sample before never fires at the first sample:
   * the direction test puts ys[0] on the wrong side of its threshold. So
   * ESFrX[x - 1] is never read as ESFrX[-1].
   */
  lemma FirstSampleNeverLooksBack(xs: seq<real>, ys: seq<real>)
    requires ys != []
    ensures var s := CurveScan(xs, ys); !Reached(s, FitThresholds(s.falling)[1].level, 0)
  {
  }

  /**
   * Each non-zero distance is a grid position next to a crossing: the first
   * link records the sample x that crosses its threshold, the second the
   * sample x - 1 before the sample x that crosses its threshold.
   */
  lemma {:induction false} DistancesAreCrossings(xs: seq<real>, ys: seq<real>)
    requires ys != []
    requires Walk(CurveScan(xs, ys), FitThresholds(CurveScan(xs, ys).falling), |xs|).Ok?
    ensures var s := CurveScan(xs, ys);
      var ts := FitThresholds(s.falling);
      var p := Walk(s, ts, |xs|).value;
      && (p[0] != 0.0 ==> exists x | 0 <= x < |xs| && x < |ys| :: Reached(s, ts[0].level, x) && p[0] == xs[x])
      && (p[1] != 0.0 ==> exists x | 1 <= x < |xs| && x < |ys| :: Reached(s, ts[1].level, x) && p[1] == xs[x - 1])
  {
    var s := CurveScan(xs, ys);
    var ts := FitThresholds(s.falling);
    var p := Walk(s, ts, |xs|).value;
    if p[0] != 0.0 {
      RecordsAreCrossings(s, ts, |xs|, 0);
    }
    if p[1] != 0.0 {
      RecordsAreCrossings(s, ts, |xs|, 1);
      FirstSampleNeverLooksBack(xs, ys);
      var x :| 0 <= x < |xs| && x < |ys| && Reached(s, ts[1].level, x) && p[1] == Recorded(s, ts[1].before, x);
      assert x != 0;
    }
  }

  /** The elif chain of two links spelt out. */
  lemma ChainOfTwo(s: Scan, ts: seq<Threshold>, f: seq<real>, x: nat)
    requires |ts| == |f| == 2 && x < |s.xs|
    ensures |s.ys| <= x ==> (Chain(s, ts, f, x, 0) == if f[0] == 0.0 || f[1] == 0.0 then Err(IndexError) else Ok(f))
    ensures x < |s.ys| ==> (Chain(s, ts, f, x, 0)
      == Ok(if Fires(s, ts, f, x, 0) then [Recorded(s, ts[0].before, x), f[1]]
         else if Fires(s, ts, f, x, 1) then [f[0], Recorded(s, ts[1].before, x)]
         else f))
  {
    assert Chain(s, ts, f, x, 2) == Ok(f);
    var c1 := Chain(s, ts, f, x, 1);
    if x < |s.ys| {
      assert f == [f[0], f[1]];
      assert f[0 := Recorded(s, ts[0].before, x)] == [Recorded(s, ts[0].before, x), f[1]];
      assert f[1 := Recorded(s, ts[1].before, x)] == [f[0], Recorded(s, ts[1].before, x)];
    }
  }

  // ---------------------------------------------------------------------------
  // Properties of the stage.

  /**
   * An oversampling factor that is odd or below 4 gives a Savitzky-Golay
   * window the smoother refuses: the stage fails with TypeError once the grid
   * size is valid.
   */
  lemma BadOversamplingFails(lib: Lib, cfg: FitSettings, raw: Samples)
    requires Parallel(raw) && 0 <= cfg.oversampling
    requires 0 <= 1 + cfg.oversampling * cfg.maxminD
    requires cfg.oversampling % 2 == 1 || cfg.oversampling < 4
    ensures FitOf(lib, cfg, raw) == Err(TypeError)
  {
    var num := 1 + cfg.oversampling * cfg.maxminD;
    var curve := Resampled(Linspace(cfg.maxminD, num), raw.position, raw.data, num);
    SmoothingWindowAccepted(lib, curve.ys, cfg.oversampling);
  }

  /**
   * After d10 and d90: a successful stage keeps the grid, records dT from
   * the two distances, and places every raw sample in exactly one list;
   * with noise removal off it accepts them all and re-smooths from all.
   */
  lemma RefitShape(lib: Lib, cfg: FitSettings, raw: Samples, xs: seq<real>, ys: seq<real>, d10: real, d90: real)
    requires Parallel(raw)
    requires FitBeyond(lib, cfg, raw, xs, ys, d10, d90).Ok?
    ensures var f := FitBeyond(lib, cfg, raw, xs, ys, d10, d90).value;
      && f.position == xs && f.d10 == d10 && f.d90 == d90
      && f.dT == TailStart(cfg.tailStart, d10, d90)
      && multiset(f.split.kept.data) + multiset(f.split.removed.data) == multiset(raw.data)
      && multiset(f.split.kept.position) + multiset(f.split.removed.position) == multiset(raw.position)
      && (!cfg.removeNoise ==> f.split == Split(raw, Samples([], [])) && Resmoothed(lib, cfg.smooth, f.dT, raw, xs).Ok?)
  {
    NoiseSplitPartitions(lib, xs, ys, raw, d10, d90, cfg.sigmaScaling, cfg.removeNoise);
  }

  /** A successful stage ran through the resampled grid, its smoothing and d10/d90 in turn. */
  lemma FitStages(lib: Lib, cfg: FitSettings, raw: Samples)
    requires Parallel(raw)
    requires FitOf(lib, cfg, raw).Ok?
    ensures var num := 1 + cfg.oversampling * cfg.maxminD;
      && 0 <= num
      && var curve := Resampled(Linspace(cfg.maxminD, num), raw.position, raw.data, num);
      && SavitzkyGolay(lib, curve.ys, cfg.oversampling + 1, 3).Ok?
      && var ys := SavitzkyGolay(lib, curve.ys, cfg.oversampling + 1, 3).value;
      && D10D90(curve.xs, ys).Ok?
      && FitOf(lib, cfg, raw) == FitBeyond(lib, cfg, raw, curve.xs, ys, D10D90(curve.xs, ys).value.0, D10D90(curve.xs, ys).value.1)
  {
    var num := 1 + cfg.oversampling * cfg.maxminD;
    var curve := Resampled(Linspace(cfg.maxminD, num), raw.position, raw.data, num);
    assert FitOf(lib, cfg, raw) == FitSmoothed(lib, cfg, raw, curve);
    var ys := SavitzkyGolay(lib, curve.ys, cfg.oversampling + 1, 3).value;
    assert FitSmoothed(lib, cfg, raw, curve) == FitFrom(lib, cfg, raw, curve.xs, ys);
  }

  /**
   * A successful fit keeps the grid of the resampling stage: EsfPosition
   * is the list of supported linspace points, strictly rising when D >= 1,
   * and every raw sample is either accepted or removed.
   */
  lemma FitKeepsGrid(lib: Lib, cfg: FitSettings, raw: Samples)
    requires Parallel(raw)
    requires FitOf(lib, cfg, raw).Ok?
    ensures var f := FitOf(lib, cfg, raw).value;
      var num := 1 + cfg.oversampling * cfg.maxminD;
      && 0 <= num
      && f.position == Resampled(Linspace(cfg.maxminD, num), raw.position, raw.data, num).xs
      && (1 <= cfg.maxminD ==> Rising(f.position))
      && multiset(f.split.kept.data) + multiset(f.split.removed.data) == multiset(raw.data)
      && multiset(f.split.kept.position) + multiset(f.split.removed.position) == multiset(raw.position)
      && f.dT == TailStart(cfg.tailStart, f.d10, f.d90)
  {
    FitStages(lib, cfg, raw);
    var num := 1 + cfg.oversampling * cfg.maxminD;
    var curve := Resampled(Linspace(cfg.maxminD, num), raw.position, raw.data, num);
    var ys := SavitzkyGolay(lib, curve.ys, cfg.oversampling + 1, 3).value;
    var d := D10D90(curve.xs, ys).value;
    RefitShape(lib, cfg, raw, curve.xs, ys, d.0, d.1);
    if 1 <= cfg.maxminD {
      ResampledRise(raw.position, raw.data, cfg.maxminD, num);
    }
  }

  /**
   * With noise removal off the stage accepts every raw sample, so the
   * re-smoothed curve, before the last smoothing pass, stays within the range
   * of the raw intensities.
   */
  lemma ResmoothingStaysInRange(lib: Lib, cfg: FitSettings, raw: Samples, lo: int, hi: int)
    requires Parallel(raw) && !cfg.removeNoise
    requires forall k | 0 <= k < |raw.data| :: lo <= raw.data[k] <= hi
    requires FitOf(lib, cfg, raw).Ok?
    ensures var f := FitOf(lib, cfg, raw).value;
      && f.split == Split(raw, Samples([], []))
      && Resmoothed(lib, cfg.smooth, f.dT, raw, f.position).Ok?
      && forall j | 0 <= j < |f.position| :: lo as real <= Resmoothed(lib, cfg.smooth, f.dT, raw, f.position).value[j] <= hi as real
  {
    FitStages(lib, cfg, raw);
    var num := 1 + cfg.oversampling * cfg.maxminD;
    var curve := Resampled(Linspace(cfg.maxminD, num), raw.position, raw.data, num);
    var ys := SavitzkyGolay(lib, curve.ys, cfg.oversampling + 1, 3).value;
    var d := D10D90(curve.xs, ys).value;
    RefitShape(lib, cfg, raw, curve.xs, ys, d.0, d.1);
    var f := FitOf(lib, cfg, raw).value;
    ResmoothedWithinRange(lib, cfg.smooth, f.dT, raw, f.position, lo, hi);
  }

  // ---------------------------------------------------------------------------
  // The procedure.

  /** The for loop of a falling curve: d90 first, then d10 from the sample before. */
  method FitFalling(xs: seq<real>, ys: seq<real>, minimum: real, delta: real) returns (r: Result<seq<real>>)
    ensures r == Walk(Scan(xs, ys, minimum, delta, true), FitThresholds(true), |xs|)
  {
    ghost var s := Scan(xs, ys, minimum, delta, true);
    var d90, d10 := 0.0, 0.0;
    NothingFoundYet(s, FitThresholds(true), [0.0, 0.0]);
    for x := 0 to |xs|
      invariant Walk(s, FitThresholds(true), x) == Ok([d90, d10])
    {
      WalkStep(s, FitThresholds(true), [d90, d10], x);
      ChainOfTwo(s, FitThresholds(true), [d90, d10], x);
      if (d90 == 0.0 || d10 == 0.0) && |ys| <= x {
        ErrorsPersist(s, FitThresholds(true), x + 1, |xs|);
        return Err(IndexError);
      }
      if d90 == 0.0 && ys[x] < minimum + 0.9 * delta {
        d90 := xs[x];
      } else if d10 == 0.0 && ys[x] < minimum + 0.1 * delta {
        d10 := xs[if x == 0 then |xs| - 1 else x - 1];
      }
    }
    return Ok([d90, d10]);
  }

  /** The for loop of a rising curve: d10 first, then d90 from the sample before. */
  method FitRising(xs: seq<real>, ys: seq<real>, minimum: real, delta: real) returns (r: Result<seq<real>>)
    ensures r == Walk(Scan(xs, ys, minimum, delta, false), FitThresholds(false), |xs|)
  {
    ghost var s := Scan(xs, ys, minimum, delta, false);
    var d10, d90 := 0.0, 0.0;
    NothingFoundYet(s, FitThresholds(false), [0.0, 0.0]);
    for x := 0 to |xs|
      invariant Walk(s, FitThresholds(false), x) == Ok([d10, d90])
    {
      WalkStep(s, FitThresholds(false), [d10, d90], x);
      ChainOfTwo(s, FitThresholds(false), [d10, d90], x);
      if (d10 == 0.0 || d90 == 0.0) && |ys| <= x {
        ErrorsPersist(s, FitThresholds(false), x + 1, |xs|);
        return Err(IndexError);
      }
      if d10 == 0.0 && ys[x] > minimum + 0.1 * delta {
        d10 := xs[x];
      } else if d90 == 0.0 && ys[x] > minimum + 0.9 * delta {
        d90 := xs[if x == 0 then |xs| - 1 else x - 1];
      }
    }
    return Ok([d10, d90]);
  }

  /** The range, the direction and the walk for d10 and d90. */
  method FindDistances(xs: seq<real>, ys: seq<real>) returns (r: Result<(real, real)>)
    ensures r == D10D90(xs, ys)
  {
    if ys == [] {
      return Err(ValueError);
    }
    var minimum := MinOf(ys);
    var maximum := MaxOf(ys);
    var delta := Abs(maximum - minimum);
    var falling := ys[0] > minimum + 0.5 * delta;
    var walked;
    if falling {
      walked := FitFalling(xs, ys, minimum, delta);
    } else {
      walked := FitRising(xs, ys, minimum, delta);
    }
    if walked.Err? {
      return Err(walked.error);
    }
    return Ok(Distances(falling, walked.value));
  }

  /** fitESFCurve: the stages in order, each one's exception ending the stage. */
  method FitEsfCurve(lib: Lib, cfg: FitSettings, raw: Samples) returns (r: Result<Fit>)
    requires Parallel(raw)
    ensures r == FitOf(lib, cfg, raw)
  {
    var resampled := ResampleEsf(raw.position, raw.data, cfg.maxminD, cfg.oversampling);
    FitOfResampled(lib, cfg, raw);
    if resampled.Err? {
      return Err(resampled.error);
    }
    r := SmoothAndFinish(lib, cfg, raw, resampled.value);
  }

  /** The stage is the resampling's ValueError, or the rest of the stage on the resampled curve. */
  lemma FitOfResampled(lib: Lib, cfg: FitSettings, raw: Samples)
    requires Parallel(raw)
    ensures var num := 1 + cfg.oversampling * cfg.maxminD;
      FitOf(lib, cfg, raw)
        == if num < 0 then Err(ValueError)
           else FitSmoothed(lib, cfg, raw, Resampled(Linspace(cfg.maxminD, num), raw.position, raw.data, num))
  {
  }

  /** The first smoothing of the resampled curve, then the rest of the stage. */
  method SmoothAndFinish(lib: Lib, cfg: FitSettings, raw: Samples, curve: Curve) returns (r: Result<Fit>)
    requires Parallel(raw)
    ensures r == FitSmoothed(lib, cfg, raw, curve)
  {
    var smoothed := SavitzkyGolay(lib, curve.ys, cfg.oversampling + 1, 3);
    if smoothed.Err? {
      return Err(smoothed.error);
    }
    r := FinishFit(lib, cfg, raw, curve.xs, smoothed.value);
  }

  /** From the smoothed curve: d10 and d90, then the rest. */
  method FinishFit(lib: Lib, cfg: FitSettings, raw: Samples, esfX: seq<real>, esfY: seq<real>) returns (r: Result<Fit>)
    requires Parallel(raw)
    ensures r == FitFrom(lib, cfg, raw, esfX, esfY)
  {
    var d := FindDistances(esfX, esfY);
    if d.Err? {
      return Err(d.error);
    }
    r := Refit(lib, cfg, raw, esfX, esfY, d.value.0, d.value.1);
  }

  /** Noise split, re-smoothing and the final Savitzky-Golay pass. */
  method Refit(lib: Lib, cfg: FitSettings, raw: Samples, esfX: seq<real>, esfY: seq<real>, d10: real, d90: real)
    returns (r: Result<Fit>)
    requires Parallel(raw)
    ensures r == FitBeyond(lib, cfg, raw, esfX, esfY, d10, d90)
  {
    var dT := TailStart(cfg.tailStart, d10, d90);
    var split := RemoveNoise(lib, esfX, esfY, raw, d10, d90, cfg.sigmaScaling, cfg.removeNoise);
    if split.Err? {
      return Err(split.error);
    }
    var ysNew := Resmooth(lib, cfg.smooth, dT, split.value.kept, esfX);
    if ysNew.Err? {
      return Err(ysNew.error);
    }
    var data := SavitzkyGolay(lib, ysNew.value, cfg.oversampling + 1, 3);
    if data.Err? {
      return Err(data.error);
    }
    return Ok(Fit(esfX, data.value, split.value, d10, d90, dT));
  }
}
