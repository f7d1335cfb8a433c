/**
 * EdgeSpec in MTF/MTF_Functions.py: the 10-90 % and 20-80 % edge widths of
 * the fitted ESF, read off one threshold walk over the curve.
 */
module EdgeSpec {
  import opened Numerics
  import opened Crossings

  /** width10_90 and width20_80, in pixels. */
  datatype Widths = Widths(width10_90: real, width20_80: real)

  /**
   * The elif chain's order: from 90 % down to 10 % on a falling curve, from
   * 10 % up to 90 % on a rising one. Every link records the sample itself.
   */
  function Percentiles(falling: bool): (ts: seq<Threshold>)
    ensures |ts| == 5 && forall i | 0 <= i < 5 :: !ts[i].before
  {
    if falling then [Threshold(0.9, false), Threshold(0.8, false), Threshold(0.5, false), Threshold(0.2, false), Threshold(0.1, false)]
    else [Threshold(0.1, false), Threshold(0.2, false), Threshold(0.5, false), Threshold(0.8, false), Threshold(0.9, false)]
  }

  /** The walk over EsfPosition's indices: the curve is falling iff EsfData[0] > min + delta / 2. */
  function CurveScan(position: seq<real>, data: seq<real>): (s: Scan)
    requires data != []
    ensures s.delta >= 0.0
  {
    var maximum := MaxOf(data);
    var minimum := MinOf(data);
    var delta := maximum - minimum;
    assert minimum <= data[0] <= maximum;
    Scan(position, data, minimum, delta, data[0] > minimum + 0.5 * delta)
  }

  /**
   * The widths from the five recorded positions, listed in chain order:
   * |p90 - p10| and |p80 - p20|.
   */
  function WidthsOf(falling: bool, p: seq<real>): (w: Widths)
    requires |p| == 5
    ensures 0.0 <= w.width10_90 && 0.0 <= w.width20_80
  {
    if falling then Widths(Abs(p[0] - p[4]), Abs(p[1] - p[3]))
    else Widths(Abs(p[4] - p[0]), Abs(p[3] - p[1]))
  }

  /**
   * EdgeSpec: max() of an empty curve raises ValueError; a curve shorter
   * than the positions raises IndexError where the walk first reads past it.
   */
  function EdgeSpecOf(position: seq<real>, data: seq<real>): (r: Result<Widths>)
    ensures data == [] ==> r == Err(ValueError)
    ensures data != [] && |position| <= |data| ==> r.Ok?
    ensures r.Err? ==> r.error == ValueError || (r.error == IndexError && |data| < |position|)
    ensures r.Ok? ==> 0.0 <= r.value.width10_90 && 0.0 <= r.value.width20_80
  {
    if data == [] then Err(ValueError)
    else
      var s := CurveScan(position, data);
      WalkFailsOnlyPastTheCurve(s, Percentiles(s.falling), |position|);
      var p :- Walk(s, Percentiles(s.falling), |position|);
      Ok(WidthsOf(s.falling, p))
  }

  /**
   * Each non-zero percentile position is the position of a sample past its
   * threshold: below min + level * delta on a falling curve, above it on a
   * rising one.
   */
  lemma PercentilesAreCrossings(position: seq<real>, data: seq<real>, k: nat)
    requires data != [] && k < 5
    requires Walk(CurveScan(position, data), Percentiles(CurveScan(position, data).falling), |position|).Ok?
    ensures var s := CurveScan(position, data);
      var p := Walk(s, Percentiles(s.falling), |position|).value;
      p[k] != 0.0 ==> exists x | 0 <= x < |position| && x < |data| ::
        p[k] == position[x] && Reached(s, Percentiles(s.falling)[k].level, x)
  {
    var s := CurveScan(position, data);
    var p := Walk(s, Percentiles(s.falling), |position|).value;
    if p[k] != 0.0 {
      RecordsAreCrossings(s, Percentiles(s.falling), |position|, k);
    }
  }

  /**
   * 0 doubles as "not found": on this falling curve the 90 % crossing is at
   * position 0.0, so p90 stays open, takes the next sample's position 1.0
   * instead, and that sample is then lost to p80.
   */
  lemma ZeroCrossingIsOverwritten()
    ensures var s := CurveScan([-1.0, 0.0, 1.0, 2.0], [10.0, 5.0, 4.0, 0.0]);
      && s.falling
      && Walk(s, Percentiles(true), 2) == Ok([0.0, 0.0, 0.0, 0.0, 0.0])
      && Walk(s, Percentiles(true), 4) == Ok([1.0, 2.0, 0.0, 0.0, 0.0])
  {
    var data := [10.0, 5.0, 4.0, 0.0];
    assert data[1..] == [5.0, 4.0, 0.0] && [5.0, 4.0, 0.0][1..] == [4.0, 0.0] && [4.0, 0.0][1..] == [0.0];
    assert MinOf([4.0, 0.0]) == 0.0 && MaxOf([4.0, 0.0]) == 4.0;
    assert MinOf(data) == 0.0 && MaxOf(data) == 10.0;
    var s := CurveScan([-1.0, 0.0, 1.0, 2.0], data);
    assert s.lo == 0.0 && s.delta == 10.0 && s.falling;
    var ts := Percentiles(true);
    var zero := [0.0, 0.0, 0.0, 0.0, 0.0];
    NothingFoundYet(s, ts, zero);
    ChainOfFive(s, ts, zero, 0);
    ChainOfFive(s, ts, zero, 1);
    ChainOfFive(s, ts, zero, 2);
    ChainOfFive(s, ts, [1.0, 0.0, 0.0, 0.0, 0.0], 3);
  }

  /** The elif chain of five links spelt out: the first open link the sample crosses records. */
  lemma ChainOfFive(s: Scan, ts: seq<Threshold>, f: seq<real>, x: nat)
    requires |ts| == |f| == 5 && x < |s.xs|
    ensures |s.ys| <= x ==> (Chain(s, ts, f, x, 0)
      == if f[0] == 0.0 || f[1] == 0.0 || f[2] == 0.0 || f[3] == 0.0 || f[4] == 0.0 then Err(IndexError) else Ok(f))
    ensures x < |s.ys| ==> (Chain(s, ts, f, x, 0)
      == Ok(if Fires(s, ts, f, x, 0) then [Recorded(s, ts[0].before, x), f[1], f[2], f[3], f[4]]
         else if Fires(s, ts, f, x, 1) then [f[0], Recorded(s, ts[1].before, x), f[2], f[3], f[4]]
         else if Fires(s, ts, f, x, 2) then [f[0], f[1], Recorded(s, ts[2].before, x), f[3], f[4]]
         else if Fires(s, ts, f, x, 3) then [f[0], f[1], f[2], Recorded(s, ts[3].before, x), f[4]]
         else if Fires(s, ts, f, x, 4) then [f[0], f[1], f[2], f[3], Recorded(s, ts[4].before, x)]
         else f))
  {
    assert Chain(s, ts, f, x, 5) == Ok(f);
    var c4 := Chain(s, ts, f, x, 4);
    var c3 := Chain(s, ts, f, x, 3);
    var c2 := Chain(s, ts, f, x, 2);
    var c1 := Chain(s, ts, f, x, 1);
    if x < |s.ys| {
      assert f == [f[0], f[1], f[2], f[3], f[4]];
      var r0, r1, r2, r3, r4 := Recorded(s, ts[0].before, x), Recorded(s, ts[1].before, x),
        Recorded(s, ts[2].before, x), Recorded(s, ts[3].before, x), Recorded(s, ts[4].before, x);
      assert f[0 := r0] == [r0, f[1], f[2], f[3], f[4]];
      assert f[1 := r1] == [f[0], r1, f[2], f[3], f[4]];
      assert f[2 := r2] == [f[0], f[1], r2, f[3], f[4]];
      assert f[3 := r3] == [f[0], f[1], f[2], r3, f[4]];
      assert f[4 := r4] == [f[0], f[1], f[2], f[3], r4];
    }
  }

  /** EdgeSpec: the curve's range, its direction, one walk, and the two widths. */
  method EdgeSpec(position: seq<real>, data: seq<real>) returns (r: Result<Widths>)
    ensures r == EdgeSpecOf(position, data)
  {
    if data == [] {
      return Err(ValueError);
    }
    var maximum := MaxOf(data);
    var minimum := MinOf(data);
    var delta := maximum - minimum;
    var falling := data[0] > minimum + 0.5 * delta;
    var walked;
    if falling {
      walked := FallingWalk(position, data, minimum, delta);
    } else {
      walked := RisingWalk(position, data, minimum, delta);
    }
    if walked.Err? {
      return Err(walked.error);
    }
    var p := walked.value;
    return Ok(WidthsOf(falling, p));
  }

  /** The for loop of a falling curve: p90, p80, p50, p20, p10 in chain order. */
  method FallingWalk(position: seq<real>, data: seq<real>, minimum: real, delta: real) returns (r: Result<seq<real>>)
    ensures r == Walk(Scan(position, data, minimum, delta, true), Percentiles(true), |position|)
  {
    ghost var s := Scan(position, data, minimum, delta, true);
    var p10, p20, p50, p80, p90 := 0.0, 0.0, 0.0, 0.0, 0.0;
    NothingFoundYet(s, Percentiles(true), [0.0, 0.0, 0.0, 0.0, 0.0]);
    for x := 0 to |position|
      invariant Walk(s, Percentiles(true), x) == Ok([p90, p80, p50, p20, p10])
    {
      WalkStep(s, Percentiles(true), [p90, p80, p50, p20, p10], x);
      ChainOfFive(s, Percentiles(true), [p90, p80, p50, p20, p10], x);
      if (p90 == 0.0 || p80 == 0.0 || p50 == 0.0 || p20 == 0.0 || p10 == 0.0) && |data| <= x {
        ErrorsPersist(s, Percentiles(true), x + 1, |position|);
        return Err(IndexError);
      }
      if p90 == 0.0 && data[x] < minimum + 0.9 * delta {
        p90 := position[x];
      } else if p80 == 0.0 && data[x] < minimum + 0.8 * delta {
        p80 := position[x];
      } else if p50 == 0.0 && data[x] < minimum + 0.5 * delta {
        p50 := position[x];
      } else if p20 == 0.0 && data[x] < minimum + 0.2 * delta {
        p20 := position[x];
      } else if p10 == 0.0 && data[x] < minimum + 0.1 * delta {
        p10 := position[x];
      }
    }
    return Ok([p90, p80, p50, p20, p10]);
  }

  /** The for loop of a rising curve: p10, p20, p50, p80, p90 in chain order. */
  method RisingWalk(position: seq<real>, data: seq<real>, minimum: real, delta: real) returns (r: Result<seq<real>>)
    ensures r == Walk(Scan(position, data, minimum, delta, false), Percentiles(false), |position|)
  {
    ghost var s := Scan(position, data, minimum, delta, false);
    var p10, p20, p50, p80, p90 := 0.0, 0.0, 0.0, 0.0, 0.0;
    NothingFoundYet(s, Percentiles(false), [0.0, 0.0, 0.0, 0.0, 0.0]);
    for x := 0 to |position|
      invariant Walk(s, Percentiles(false), x) == Ok([p10, p20, p50, p80, p90])
    {
      WalkStep(s, Percentiles(false), [p10, p20, p50, p80, p90], x);
      ChainOfFive(s, Percentiles(false), [p10, p20, p50, p80, p90], x);
      if (p90 == 0.0 || p80 == 0.0 || p50 == 0.0 || p20 == 0.0 || p10 == 0.0) && |data| <= x {
        ErrorsPersist(s, Percentiles(false), x + 1, |position|);
        return Err(IndexError);
      }
      if p10 == 0.0 && data[x] > minimum + 0.1 * delta {
        p10 := position[x];
      } else if p20 == 0.0 && data[x] > minimum + 0.2 * delta {
        p20 := position[x];
      } else if p50 == 0.0 && data[x] > minimum + 0.5 * delta {
        p50 := position[x];
      } else if p80 == 0.0 && data[x] > minimum + 0.8 * delta {
        p80 := position[x];
      } else if p90 == 0.0 && data[x] > minimum + 0.9 * delta {
        p90 := position[x];
      }
    }
    return Ok([p10, p20, p50, p80, p90]);
  }
}
