/**
 * The first stage of fitESFCurve (MTF/MTF_Functions.py): the raw ESF is
 * resampled onto the grid np.linspace(-D, D, 1 + oversampling * D) with a
 * triangle weight of half-width 4/7 pixel. A grid point no raw sample
 * supports is deleted from the grid, so the grid can shrink while it is
 * walked.
 */
module Resample {
  import opened Numerics

  /** np.linspace(-d, d, num): num evenly spaced points from -d to d. */
  function Linspace(d: int, num: nat): (xs: seq<real>)
    ensures |xs| == num
    ensures num >= 1 ==> xs[0] == -d as real
    ensures num >= 2 ==> xs[num - 1] == d as real
  {
    if num == 1 then [-d as real]
    else
      seq(num, j requires 0 <= j < num => -d as real + j as real * ((2 * d) as real / (num - 1) as real))
  }

  /** The triangle weight 1 - (7/4)|t| of a sample at distance |t| <= 4/7; none beyond. */
  function Weight(t: real): (wt: real)
    ensures 0.0 <= wt <= 1.0
    ensures 0.0 < wt <==> Abs(t) < 4.0 / 7.0
  {
    var a := Abs(t);
    if a <= 4.0 / 7.0 then 1.0 - (7.0 / 4.0) * a else 0.0
  }

  /** sumsN over the first n raw samples: the total weight at grid point x. */
  function TotalWeight(position: seq<real>, x: real, n: nat): (s: real)
    requires n <= |position|
    ensures 0.0 <= s
    decreases n
  {
    if n == 0 then 0.0
    else
      var t := position[n - 1] - x;
      TotalWeight(position, x, n - 1) + (if Abs(t) <= 4.0 / 7.0 then 1.0 - (7.0 / 4.0) * Abs(t) else 0.0)
  }

  /** sumsI over the first n raw samples: the weighted intensity at grid point x. */
  function WeightedSum(position: seq<real>, data: seq<int>, x: real, n: nat): real
    requires n <= |position| == |data|
    decreases n
  {
    if n == 0 then 0.0
    else
      var t := position[n - 1] - x;
      WeightedSum(position, data, x, n - 1)
        + (if Abs(t) <= 4.0 / 7.0 then (1.0 - (7.0 / 4.0) * Abs(t)) * data[n - 1] as real else 0.0)
  }

  /** The resampled curve: grid points and values. */
  datatype Curve = Curve(xs: seq<real>, ys: seq<real>)

  /**
   * The while loop over the first n grid points: a point with no weight is
   * deleted; any other gets the weighted mean sumsI / sumsN.
   */
  function Resampled(grid: seq<real>, position: seq<real>, data: seq<int>, n: nat): (r: Curve)
    requires n <= |grid| && |position| == |data|
    ensures |r.xs| == |r.ys| <= n
    decreases n
  {
    if n == 0 then Curve([], [])
    else
      var r := Resampled(grid, position, data, n - 1);
      var x := grid[n - 1];
      var sumsN := TotalWeight(position, x, |position|);
      if sumsN == 0.0 then r
      else Curve(r.xs + [x], r.ys + [WeightedSum(position, data, x, |position|) / sumsN])
  }

  // ---------------------------------------------------------------------------
  // Properties.

  /** The grid spacing is 2 / oversampling: point j lies at -D + j (2 / oversampling). */
  lemma GridSpacing(d: int, oversampling: int, j: nat)
    requires 1 <= d && 1 <= oversampling
    requires j < 1 + oversampling * d
    ensures Linspace(d, 1 + oversampling * d)[j] == -d as real + j as real * (2.0 / oversampling as real)
  {
    var num := 1 + oversampling * d;
    assert num >= 2 by {
      assert oversampling * d >= 1;
    }
    var o, dr := oversampling as real, d as real;
    assert (num - 1) as real == o * dr;
    assert (2 * d) as real / (o * dr) == 2.0 / o by {
      assert (2 * d) as real == 2.0 * dr;
      assert dr != 0.0 && o != 0.0;
      assert 2.0 * dr / (o * dr) == 2.0 / o;
    }
  }

  /** The grid rises strictly when D > 0. */
  lemma LinspaceRises(d: int, num: nat, i: nat, j: nat)
    requires 1 <= d && i < j < num
    ensures Linspace(d, num)[i] < Linspace(d, num)[j]
  {
    var step := (2 * d) as real / (num - 1) as real;
    assert 0.0 < step;
    assert i as real * step < j as real * step;
  }

  /** A grid point has no weight exactly when no raw sample lies closer than 4/7. */
  lemma {:induction false} NoWeightMeansNoNearSample(position: seq<real>, x: real, n: nat)
    requires n <= |position|
    ensures TotalWeight(position, x, n) == 0.0 <==> forall k | 0 <= k < n :: 4.0 / 7.0 <= Abs(position[k] - x)
    decreases n
  {
    if n > 0 {
      NoWeightMeansNoNearSample(position, x, n - 1);
      assert Weight(position[n - 1] - x) == TotalWeight(position, x, n) - TotalWeight(position, x, n - 1);
    }
  }

  /**
   * The weighted sum lies between lo and hi times the total weight when
   * every sample closer than 4/7 has its intensity between lo and hi.
   */
  lemma {:induction false} WeightedSumBounds(position: seq<real>, data: seq<int>, x: real, n: nat, lo: real, hi: real)
    requires n <= |position| == |data|
    requires forall k | 0 <= k < n && Abs(position[k] - x) < 4.0 / 7.0 :: lo <= data[k] as real <= hi
    ensures Between(lo, hi, TotalWeight(position, x, n), WeightedSum(position, data, x, n))
    decreases n
  {
    if n > 0 {
      WeightedSumBounds(position, data, x, n - 1, lo, hi);
      var wt := Weight(position[n - 1] - x);
      assert 0.0 < wt ==> lo <= data[n - 1] as real <= hi;
      SumsStep(position, data, x, n);
      BoundStep(lo, hi, TotalWeight(position, x, n - 1), WeightedSum(position, data, x, n - 1), wt, data[n - 1] as real,
                TotalWeight(position, x, n), WeightedSum(position, data, x, n));
    }
  }

  /** lo s <= t <= hi s: t is a weighted sum of values between lo and hi with total weight s. */
  predicate Between(lo: real, hi: real, s: real, t: real)
  {
    lo * s <= t <= hi * s
  }

  /** The n-th sample adds its weight to sumsN and its weighted intensity to sumsI. */
  lemma SumsStep(position: seq<real>, data: seq<int>, x: real, n: nat)
    requires 0 < n <= |position| == |data|
    ensures TotalWeight(position, x, n) == TotalWeight(position, x, n - 1) + Weight(position[n - 1] - x)
    ensures WeightedSum(position, data, x, n)
      == WeightedSum(position, data, x, n - 1) + Weight(position[n - 1] - x) * data[n - 1] as real
  {
  }

  /** One more sample of weight wt and intensity v keeps the sums in bounds. */
  lemma BoundStep(lo: real, hi: real, s0: real, t0: real, wt: real, v: real, s: real, t: real)
    requires Between(lo, hi, s0, t0) && 0.0 <= wt
    requires 0.0 < wt ==> lo <= v <= hi
    requires s == s0 + wt && t == t0 + wt * v
    ensures Between(lo, hi, s, t)
  {
    assert lo * (s0 + wt) == lo * s0 + lo * wt;
    assert hi * (s0 + wt) == hi * s0 + hi * wt;
    if 0.0 < wt {
      ScaleBetween(lo, v, hi, wt);
    }
  }

  /** lo <= v <= hi scaled by a non-negative c. */
  lemma ScaleBetween(lo: real, v: real, hi: real, c: real)
    requires lo <= v <= hi && 0.0 <= c
    ensures lo * c <= c * v <= hi * c
  {
  }

  /** lo s <= t <= hi s with s > 0 puts t / s between lo and hi. */
  lemma QuotientBetween(lo: real, t: real, hi: real, s: real)
    requires 0.0 < s && lo * s <= t <= hi * s
    ensures lo <= t / s <= hi
  {
    var m := t / s;
    assert m * s == t;
    assert 0.0 <= (m - lo) * s;
    assert 0.0 <= (hi - m) * s;
  }

  /**
   * Each resampled value is a convex combination of the raw intensities
   * closer than 4/7 to its grid point: it lies between their bounds.
   */
  lemma MeanWithinNeighbours(position: seq<real>, data: seq<int>, x: real, lo: real, hi: real)
    requires |position| == |data|
    requires forall k | 0 <= k < |position| && Abs(position[k] - x) < 4.0 / 7.0 :: lo <= data[k] as real <= hi
    requires TotalWeight(position, x, |position|) != 0.0
    ensures var m := WeightedSum(position, data, x, |position|) / TotalWeight(position, x, |position|);
      lo <= m <= hi
  {
    WeightedSumBounds(position, data, x, |position|, lo, hi);
    MeanOfBetween(lo, hi, TotalWeight(position, x, |position|), WeightedSum(position, data, x, |position|));
  }

  /** A total t between lo s and hi s over a positive weight s has its mean t / s between lo and hi. */
  lemma MeanOfBetween(lo: real, hi: real, s: real, t: real)
    requires Between(lo, hi, s, t) && 0.0 <= s && s != 0.0
    ensures lo <= t / s <= hi
  {
    QuotientBetween(lo, t, hi, s);
  }

  /** Grid point x has weight, and y is its weighted mean. */
  predicate Supported(position: seq<real>, data: seq<int>, x: real, y: real)
    requires |position| == |data|
  {
    && TotalWeight(position, x, |position|) != 0.0
    && y == WeightedSum(position, data, x, |position|) / TotalWeight(position, x, |position|)
  }

  /**
   * The j-th surviving point is a supported grid point among the first n,
   * paired with its weighted mean.
   */
  lemma {:induction false} SurvivorAt(grid: seq<real>, position: seq<real>, data: seq<int>, n: nat, j: nat)
    requires n <= |grid| && |position| == |data|
    requires j < |Resampled(grid, position, data, n).xs|
    ensures var r := Resampled(grid, position, data, n);
      (exists k | 0 <= k < n :: grid[k] == r.xs[j]) && Supported(position, data, r.xs[j], r.ys[j])
    decreases n
  {
    var r0 := Resampled(grid, position, data, n - 1);
    var r := Resampled(grid, position, data, n);
    if j < |r0.xs| {
      SurvivorAt(grid, position, data, n - 1, j);
      assert r.xs[j] == r0.xs[j] && r.ys[j] == r0.ys[j];
    } else {
      assert r.xs[j] == grid[n - 1];
    }
  }

  /** Every surviving point is a supported grid point, paired with its weighted mean. */
  lemma SurvivorsAreSupported(grid: seq<real>, position: seq<real>, data: seq<int>)
    requires |position| == |data|
    ensures var r := Resampled(grid, position, data, |grid|);
      forall j | 0 <= j < |r.xs| :: r.xs[j] in grid && Supported(position, data, r.xs[j], r.ys[j])
  {
    var r := Resampled(grid, position, data, |grid|);
    forall j | 0 <= j < |r.xs|
      ensures r.xs[j] in grid && Supported(position, data, r.xs[j], r.ys[j])
    {
      SurvivorAt(grid, position, data, |grid|, j);
    }
  }

  /** Every supported grid point among the first n survives. */
  lemma {:induction false} SupportedSurvive(grid: seq<real>, position: seq<real>, data: seq<int>, n: nat, i: nat)
    requires i < n <= |grid| && |position| == |data|
    requires TotalWeight(position, grid[i], |position|) != 0.0
    ensures grid[i] in Resampled(grid, position, data, n).xs
    decreases n
  {
    if i < n - 1 {
      SupportedSurvive(grid, position, data, n - 1, i);
    }
  }

  /** Strictly rising values. */
  predicate Rising(xs: seq<real>)
  {
    forall i, j | 0 <= i < j < |xs| :: xs[i] < xs[j]
  }

  /** Points that survive keep their grid order: a strictly rising grid gives strictly rising survivors. */
  lemma {:induction false} SurvivorsRise(grid: seq<real>, position: seq<real>, data: seq<int>, n: nat)
    requires n <= |grid| && |position| == |data|
    requires Rising(grid)
    ensures Rising(Resampled(grid, position, data, n).xs)
    decreases n
  {
    if n > 0 {
      SurvivorsRise(grid, position, data, n - 1);
      var xs0 := Resampled(grid, position, data, n - 1).xs;
      var xs := Resampled(grid, position, data, n).xs;
      assert Rising(xs0);
      if xs != xs0 {
        assert xs == xs0 + [grid[n - 1]];
        forall i | 0 <= i < |xs0|
          ensures xs0[i] < grid[n - 1]
        {
          SurvivorAt(grid, position, data, n - 1, i);
          var k :| 0 <= k < n - 1 && grid[k] == xs0[i];
        }
        RisingAppend(xs0, grid[n - 1]);
      }
    }
  }

  /** With D >= 1 the resampled positions rise strictly. */
  lemma ResampledRise(position: seq<real>, data: seq<int>, d: int, num: nat)
    requires 1 <= d && |position| == |data|
    ensures Rising(Resampled(Linspace(d, num), position, data, num).xs)
  {
    var grid := Linspace(d, num);
    forall i, j | 0 <= i < j < |grid|
      ensures grid[i] < grid[j]
    {
      LinspaceRises(d, num, i, j);
    }
    SurvivorsRise(grid, position, data, num);
  }

  /** Appending a value above every element keeps a rising sequence rising. */
  lemma RisingAppend(xs: seq<real>, x: real)
    requires Rising(xs) && forall i | 0 <= i < |xs| :: xs[i] < x
    ensures Rising(xs + [x])
  {
  }

  // ---------------------------------------------------------------------------
  // The procedure.

  /** The inner for loop over the raw samples: sumsI and sumsN at grid point x. */
  method Weigh(position: seq<real>, data: seq<int>, x: real) returns (sumsI: real, sumsN: real)
    requires |position| == |data|
    ensures sumsI == WeightedSum(position, data, x, |position|)
    ensures sumsN == TotalWeight(position, x, |position|)
  {
    sumsI, sumsN := 0.0, 0.0;
    for k := 0 to |position|
      invariant sumsI == WeightedSum(position, data, x, k)
      invariant sumsN == TotalWeight(position, x, k)
    {
      var absX := Abs(position[k] - x);
      if absX <= 4.0 / 7.0 {
        sumsI := sumsI + (1.0 - (7.0 / 4.0) * absX) * data[k] as real;
        sumsN := sumsN + (1.0 - (7.0 / 4.0) * absX);
      }
    }
  }

  /**
   * The while loop: ESFrX starts as the linspace grid and ESFrY as zeros;
   * an unsupported point is deleted from both (np.delete) and num drops by
   * one, otherwise ESFrY[j] gets the weighted mean and j moves on. A
   * negative point count makes np.linspace raise ValueError.
   */
  method ResampleEsf(position: seq<real>, data: seq<int>, d: int, oversampling: int) returns (r: Result<Curve>)
    requires |position| == |data|
    ensures 1 + oversampling * d < 0 ==> r == Err(ValueError)
    ensures 0 <= 1 + oversampling * d ==>
      r == Ok(Resampled(Linspace(d, 1 + oversampling * d), position, data, 1 + oversampling * d))
  {
    if 1 + oversampling * d < 0 {
      return Err(ValueError);
    }
    var num: nat := 1 + oversampling * d;
    var curve := ResampleGrid(position, data, Linspace(d, num));
    return Ok(curve);
  }

  /** The while loop over the grid points, starting from ESFrX = grid and ESFrY = zeros. */
  method ResampleGrid(position: seq<real>, data: seq<int>, grid: seq<real>) returns (c: Curve)
    requires |position| == |data|
    ensures c == Resampled(grid, position, data, |grid|)
  {
    var xs, ys := grid, seq(|grid|, _ => 0.0);
    var num := |grid|;
    var j: nat := 0;
    ghost var i: nat := 0;
    while j < num
      invariant j <= num == |xs| == |ys| && i <= |grid| && num - j == |grid| - i
      invariant xs[..j] == Resampled(grid, position, data, i).xs
      invariant ys[..j] == Resampled(grid, position, data, i).ys
      invariant xs[j..] == grid[i..]
      decreases num - j
    {
      xs, ys, j := ResamplePoint(position, data, grid, i, xs, ys, j);
      num := |xs|;
      i := i + 1;
    }
    assert xs == xs[..j] && ys == ys[..j];
    return Curve(xs, ys);
  }

  /**
   * One pass of the while loop at ESFrX[j], grid point i: deleted from both
   * lists when no raw sample is near, otherwise given its weighted mean.
   */
  method ResamplePoint(position: seq<real>, data: seq<int>, ghost grid: seq<real>, ghost i: nat,
                       xs: seq<real>, ys: seq<real>, j: nat)
    returns (xs': seq<real>, ys': seq<real>, j': nat)
    requires |position| == |data| && j < |xs| == |ys| && i < |grid| && |xs| - j == |grid| - i
    requires xs[..j] == Resampled(grid, position, data, i).xs
    requires ys[..j] == Resampled(grid, position, data, i).ys
    requires xs[j..] == grid[i..]
    ensures j' <= |xs'| == |ys'| && |xs'| - j' == |grid| - (i + 1)
    ensures xs'[..j'] == Resampled(grid, position, data, i + 1).xs
    ensures ys'[..j'] == Resampled(grid, position, data, i + 1).ys
    ensures xs'[j'..] == grid[i + 1..]
  {
    assert xs[j] == grid[i] by {
      assert xs[j..][0] == grid[i..][0];
    }
    assert xs[j + 1..] == grid[i + 1..] by {
      assert xs[j + 1..] == xs[j..][1..];
    }
    var sumsI, sumsN := Weigh(position, data, xs[j]);
    if sumsN == 0.0 {
      xs', ys', j' := xs[..j] + xs[j + 1..], ys[..j] + ys[j + 1..], j;
      assert xs'[..j] == xs[..j] && ys'[..j] == ys[..j];
      assert xs'[j..] == xs[j + 1..];
    } else {
      xs', ys', j' := xs, ys[j := sumsI / sumsN], j + 1;
      assert xs[..j + 1] == xs[..j] + [grid[i]];
      assert ys'[..j + 1] == ys[..j] + [sumsI / sumsN];
    }
  }
}
