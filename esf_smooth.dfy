/**
 * The re-smoothing inside fitESFCurve (MTF/MTF_Functions.py): every grid
 * point of the resampled ESF gets a new value from the accepted raw
 * samples, a Gaussian-weighted mean within 2 px near the edge (or
 * everywhere when tail smoothing is off), and a plain mean over a wider
 * window in the tails.
 */
module EsfSmooth {
  import opened Numerics
  import opened Resample
  import opened EsfNoise

  /** smoothingAlpha, and tailSmoothing with its window tailSmoothSpinBox. */
  datatype SmoothSettings = SmoothSettings(tailSmoothing: bool, alpha: real, tailSmooth: real)

  /** math.exp(-alpha * X^2): the weight of an accepted sample at offset X. */
  function GaussWeight(lib: Lib, alpha: real, t: real): (w: real)
    ensures 0.0 < w
  {
    lib.exp(-alpha * (t * t))
  }

  /** The weight accepted sample k adds at grid point x: its Gaussian weight within 2 px, nothing beyond. */
  function NearWeight(lib: Lib, alpha: real, kept: Samples, x: real, k: nat): (w: real)
    requires Parallel(kept) && k < |kept.data|
    ensures 0.0 <= w && (0.0 < w <==> Abs(kept.position[k] - x) <= 2.0)
  {
    var t := kept.position[k] - x;
    if Abs(t) <= 2.0 then GaussWeight(lib, alpha, t) else 0.0
  }

  /** sumsN over the first n accepted samples: the weights of those within 2 px of x. */
  function GaussTotal(lib: Lib, alpha: real, kept: Samples, x: real, n: nat): (s: real)
    requires Parallel(kept) && n <= |kept.data|
    ensures 0.0 <= s
    decreases n
  {
    if n == 0 then 0.0
    else GaussTotal(lib, alpha, kept, x, n - 1) + NearWeight(lib, alpha, kept, x, n - 1)
  }

  /** sumsI over the first n accepted samples: their weighted intensities. */
  function GaussSum(lib: Lib, alpha: real, kept: Samples, x: real, n: nat): real
    requires Parallel(kept) && n <= |kept.data|
    decreases n
  {
    if n == 0 then 0.0
    else GaussSum(lib, alpha, kept, x, n - 1) + NearWeight(lib, alpha, kept, x, n - 1) * kept.data[n - 1] as real
  }

  /**
   * The Gaussian branch at grid point x: sumsI / sumsN. With no accepted
   * sample within 2 px both sums stay the integer 0 and Python raises
   * ZeroDivisionError.
   */
  function GaussianAt(lib: Lib, alpha: real, kept: Samples, x: real): (r: Result<real>)
    requires Parallel(kept)
    ensures r.Err? <==> GaussTotal(lib, alpha, kept, x, |kept.data|) == 0.0
    ensures r.Err? ==> r.error == ZeroDivisionError
  {
    var sumsN := GaussTotal(lib, alpha, kept, x, |kept.data|);
    if sumsN == 0.0 then Err(ZeroDivisionError)
    else Ok(GaussSum(lib, alpha, kept, x, |kept.data|) / sumsN)
  }

  /** values in the tail branch: the intensities of the first n accepted samples within w of x. */
  function TailWindow(kept: Samples, x: real, w: real, n: nat): (vs: seq<int>)
    requires Parallel(kept) && n <= |kept.data|
    ensures |vs| <= n
    decreases n
  {
    if n == 0 then []
    else TailWindow(kept, x, w, n - 1) + (if Abs(kept.position[n - 1] - x) <= w then [kept.data[n - 1]] else [])
  }

  /** The sum of a list of intensities. */
  function IntSum(s: seq<int>): int
  {
    if s == [] then 0 else IntSum(s[..|s| - 1]) + s[|s| - 1]
  }

  /**
   * The tail branch at grid point x: float(np.mean(values)). The mean of an
   * empty window is NaN, which numpy does not raise.
   */
  function TailMeanAt(kept: Samples, x: real, w: real): (r: Result<real>)
    requires Parallel(kept)
    ensures r.Err? <==> TailWindow(kept, x, w, |kept.data|) == []
    ensures r.Err? ==> r.error == NotFinite
  {
    var values := TailWindow(kept, x, w, |kept.data|);
    if values == [] then Err(NotFinite)
    else Ok(IntSum(values) as real / |values| as real)
  }

  /** The new value at grid point x: the Gaussian mean inside dT (or with tail smoothing off), the tail mean beyond. */
  function SmoothedAt(lib: Lib, cfg: SmoothSettings, dT: real, kept: Samples, x: real): (r: Result<real>)
    requires Parallel(kept)
    ensures !cfg.tailSmoothing ==> r == GaussianAt(lib, cfg.alpha, kept, x)
    ensures r.Err? ==> r.error == ZeroDivisionError || r.error == NotFinite
    ensures r == Err(NotFinite) ==> cfg.tailSmoothing && dT <= Abs(x)
  {
    if !cfg.tailSmoothing || Abs(x) < dT then GaussianAt(lib, cfg.alpha, kept, x)
    else TailMeanAt(kept, x, cfg.tailSmooth)
  }

  /** The new value of every grid point, as one function of the point. */
  function Smoother(lib: Lib, cfg: SmoothSettings, dT: real, kept: Samples): (f: real --> Result<real>)
    requires Parallel(kept)
    ensures forall x :: f.requires(x) && f(x) == SmoothedAt(lib, cfg, dT, kept, x)
  {
    x requires Parallel(kept) => SmoothedAt(lib, cfg, dT, kept, x)
  }

  /** A loop over the first n points that stores f of each point; the first error stops it. */
  function Collect(f: real --> Result<real>, xs: seq<real>, n: nat): (r: Result<seq<real>>)
    requires n <= |xs| && forall x :: f.requires(x)
    ensures r.Ok? ==> |r.value| == n
    decreases n
  {
    if n == 0 then Ok([])
    else
      var ys :- Collect(f, xs, n - 1);
      var y :- f(xs[n - 1]);
      Ok(ys + [y])
  }

  /** ESFrYnew over the grid xs. */
  function Resmoothed(lib: Lib, cfg: SmoothSettings, dT: real, kept: Samples, xs: seq<real>): (r: Result<seq<real>>)
    requires Parallel(kept)
    ensures r.Ok? ==> |r.value| == |xs|
  {
    Collect(Smoother(lib, cfg, dT, kept), xs, |xs|)
  }

  // ---------------------------------------------------------------------------
  // Properties.

  /** sumsN is 0 exactly when no accepted sample lies within 2 px: every Gaussian weight is positive. */
  lemma {:induction false} NoGaussWeightMeansNoNearSample(lib: Lib, alpha: real, kept: Samples, x: real, n: nat)
    requires Parallel(kept) && n <= |kept.data|
    ensures GaussTotal(lib, alpha, kept, x, n) == 0.0 <==> forall k | 0 <= k < n :: 2.0 < Abs(kept.position[k] - x)
    decreases n
  {
    if n > 0 {
      NoGaussWeightMeansNoNearSample(lib, alpha, kept, x, n - 1);
    }
  }

  /** The Gaussian branch raises ZeroDivisionError exactly when no accepted sample lies within 2 px. */
  lemma GaussianFailsOnlyWithoutSupport(lib: Lib, alpha: real, kept: Samples, x: real)
    requires Parallel(kept)
    ensures GaussianAt(lib, alpha, kept, x).Err? <==> forall k | 0 <= k < |kept.data| :: 2.0 < Abs(kept.position[k] - x)
    ensures GaussianAt(lib, alpha, kept, x).Err? ==> GaussianAt(lib, alpha, kept, x).error == ZeroDivisionError
  {
    NoGaussWeightMeansNoNearSample(lib, alpha, kept, x, |kept.data|);
  }

  /** The Gaussian sums of the first n samples keep lo sumsN <= sumsI <= hi sumsN. */
  lemma {:induction false} GaussSumBounds(lib: Lib, alpha: real, kept: Samples, x: real, n: nat, lo: real, hi: real)
    requires Parallel(kept) && n <= |kept.data|
    requires forall k | 0 <= k < |kept.data| && Abs(kept.position[k] - x) <= 2.0 :: lo <= kept.data[k] as real <= hi
    ensures Between(lo, hi, GaussTotal(lib, alpha, kept, x, n), GaussSum(lib, alpha, kept, x, n))
    decreases n
  {
    if n > 0 {
      GaussSumBounds(lib, alpha, kept, x, n - 1, lo, hi);
      var wt := NearWeight(lib, alpha, kept, x, n - 1);
      assert 0.0 < wt ==> lo <= kept.data[n - 1] as real <= hi;
      GaussSumsStep(lib, alpha, kept, x, n);
      BoundStep(lo, hi, GaussTotal(lib, alpha, kept, x, n - 1), GaussSum(lib, alpha, kept, x, n - 1), wt, kept.data[n - 1] as real,
                GaussTotal(lib, alpha, kept, x, n), GaussSum(lib, alpha, kept, x, n));
    }
  }

  /**
   * A Gaussian value is a weighted mean of the accepted intensities within
   * 2 px: it lies between their bounds.
   */
  lemma GaussianWithinNeighbours(lib: Lib, alpha: real, kept: Samples, x: real, lo: real, hi: real)
    requires Parallel(kept)
    requires forall k | 0 <= k < |kept.data| && Abs(kept.position[k] - x) <= 2.0 :: lo <= kept.data[k] as real <= hi
    ensures GaussianAt(lib, alpha, kept, x).Ok? ==> lo <= GaussianAt(lib, alpha, kept, x).value <= hi
  {
    if GaussianAt(lib, alpha, kept, x).Ok? {
      GaussSumBounds(lib, alpha, kept, x, |kept.data|, lo, hi);
      MeanOfBetween(lo, hi, GaussTotal(lib, alpha, kept, x, |kept.data|), GaussSum(lib, alpha, kept, x, |kept.data|));
    }
  }

  /** The tail window holds exactly the intensities of the samples within w of x, in raw order. */
  lemma {:induction false} TailWindowMembers(kept: Samples, x: real, w: real, n: nat)
    requires Parallel(kept) && n <= |kept.data|
    ensures forall k | 0 <= k < n && Abs(kept.position[k] - x) <= w :: kept.data[k] in TailWindow(kept, x, w, n)
    ensures forall v | v in TailWindow(kept, x, w, n) ::
      exists k | 0 <= k < n :: Abs(kept.position[k] - x) <= w && kept.data[k] == v
    ensures TailWindow(kept, x, w, n) == [] <==> forall k | 0 <= k < n :: w < Abs(kept.position[k] - x)
    decreases n
  {
    if n > 0 {
      TailWindowMembers(kept, x, w, n - 1);
      var prev, all := TailWindow(kept, x, w, n - 1), TailWindow(kept, x, w, n);
      var near := Abs(kept.position[n - 1] - x) <= w;
      assert all == prev + (if near then [kept.data[n - 1]] else []);
      forall k | 0 <= k < n && Abs(kept.position[k] - x) <= w
        ensures kept.data[k] in all
      {
        if k < n - 1 {
          assert kept.data[k] in prev;
        }
      }
      forall v | v in all
        ensures exists k | 0 <= k < n :: Abs(kept.position[k] - x) <= w && kept.data[k] == v
      {
        if v in prev {
          var k :| 0 <= k < n - 1 && Abs(kept.position[k] - x) <= w && kept.data[k] == v;
        } else {
          assert near && v == kept.data[n - 1];
        }
      }
    }
  }

  /** The tail window of samples whose intensities near x lie in [lo, hi] stays in [lo, hi]. */
  lemma {:induction false} TailWindowBounds(kept: Samples, x: real, w: real, n: nat, lo: int, hi: int)
    requires Parallel(kept) && n <= |kept.data|
    requires forall k | 0 <= k < |kept.data| && Abs(kept.position[k] - x) <= w :: lo <= kept.data[k] <= hi
    ensures forall i | 0 <= i < |TailWindow(kept, x, w, n)| :: lo <= TailWindow(kept, x, w, n)[i] <= hi
    decreases n
  {
    if n > 0 {
      TailWindowBounds(kept, x, w, n - 1, lo, hi);
    }
  }

  /** A list of intensities between lo and hi sums to between |s| lo and |s| hi. */
  lemma {:induction false} IntSumBounds(s: seq<int>, lo: int, hi: int)
    requires forall i | 0 <= i < |s| :: lo <= s[i] <= hi
    ensures |s| * lo <= IntSum(s) <= |s| * hi
    decreases |s|
  {
    if s != [] {
      IntSumBounds(s[..|s| - 1], lo, hi);
    }
  }

  /** The mean of n integers between lo and hi lies between lo and hi. */
  lemma MeanBetween(sum: int, n: nat, lo: int, hi: int)
    requires 0 < n && n * lo <= sum <= n * hi
    ensures lo as real <= sum as real / n as real <= hi as real
  {
    assert (n * lo) as real == n as real * lo as real;
    assert (n * hi) as real == n as real * hi as real;
    QuotientBetween(lo as real, sum as real, hi as real, n as real);
  }

  /**
   * The tail mean fails (NaN) exactly when no accepted sample lies within the
   * window, and otherwise lies between the bounds of the samples inside it.
   */
  lemma TailMeanWithinNeighbours(kept: Samples, x: real, w: real, lo: int, hi: int)
    requires Parallel(kept)
    requires forall k | 0 <= k < |kept.data| && Abs(kept.position[k] - x) <= w :: lo <= kept.data[k] <= hi
    ensures TailMeanAt(kept, x, w).Err? <==> forall k | 0 <= k < |kept.data| :: w < Abs(kept.position[k] - x)
    ensures TailMeanAt(kept, x, w).Ok? ==> lo as real <= TailMeanAt(kept, x, w).value <= hi as real
  {
    var values := TailWindow(kept, x, w, |kept.data|);
    TailWindowMembers(kept, x, w, |kept.data|);
    if values != [] {
      TailWindowBounds(kept, x, w, |kept.data|, lo, hi);
      IntSumBounds(values, lo, hi);
      MeanBetween(IntSum(values), |values|, lo, hi);
    }
  }

  /**
   * The loop fills every point in order: it succeeds exactly when every
   * point's value does, and then value j is point j's value.
   */
  lemma {:induction false} CollectPointwise(f: real --> Result<real>, xs: seq<real>, n: nat)
    requires n <= |xs| && forall x :: f.requires(x)
    ensures Collect(f, xs, n).Ok? <==> forall j | 0 <= j < n :: f(xs[j]).Ok?
    ensures Collect(f, xs, n).Ok? ==> forall j | 0 <= j < n :: Collect(f, xs, n).value[j] == f(xs[j]).value
    decreases n
  {
    if n > 0 {
      CollectPointwise(f, xs, n - 1);
    }
  }

  /** Once a point fails, every longer loop fails with that error. */
  lemma {:induction false} CollectStops(f: real --> Result<real>, xs: seq<real>, m: nat, n: nat)
    requires m <= n <= |xs| && forall x :: f.requires(x)
    requires Collect(f, xs, m).Err?
    ensures Collect(f, xs, n) == Collect(f, xs, m)
    decreases n
  {
    if m < n {
      CollectStops(f, xs, m, n - 1);
    }
  }

  /** One more point whose value is y extends the collected values by y. */
  lemma CollectStep(f: real --> Result<real>, xs: seq<real>, j: nat, done: seq<real>, y: real)
    requires j < |xs| && forall x :: f.requires(x)
    requires Collect(f, xs, j) == Ok(done) && f(xs[j]) == Ok(y)
    ensures Collect(f, xs, j + 1) == Ok(done + [y])
  {
  }

  /** Re-smoothing succeeds exactly when every grid point's branch does, and stores each point's value. */
  lemma ResmoothedPointwise(lib: Lib, cfg: SmoothSettings, dT: real, kept: Samples, xs: seq<real>)
    requires Parallel(kept)
    ensures Resmoothed(lib, cfg, dT, kept, xs).Ok? <==> forall j | 0 <= j < |xs| :: SmoothedAt(lib, cfg, dT, kept, xs[j]).Ok?
    ensures Resmoothed(lib, cfg, dT, kept, xs).Ok? ==>
      forall j | 0 <= j < |xs| :: Resmoothed(lib, cfg, dT, kept, xs).value[j] == SmoothedAt(lib, cfg, dT, kept, xs[j]).value
  {
    CollectPointwise(Smoother(lib, cfg, dT, kept), xs, |xs|);
  }

  /**
   * Re-smoothing never leaves the range of the accepted intensities: when
   * they all lie in [lo, hi], so does every new curve value.
   */
  lemma ResmoothedWithinRange(lib: Lib, cfg: SmoothSettings, dT: real, kept: Samples, xs: seq<real>, lo: int, hi: int)
    requires Parallel(kept)
    requires forall k | 0 <= k < |kept.data| :: lo <= kept.data[k] <= hi
    requires Resmoothed(lib, cfg, dT, kept, xs).Ok?
    ensures forall j | 0 <= j < |xs| :: lo as real <= Resmoothed(lib, cfg, dT, kept, xs).value[j] <= hi as real
  {
    ResmoothedPointwise(lib, cfg, dT, kept, xs);
    forall j | 0 <= j < |xs|
      ensures lo as real <= SmoothedAt(lib, cfg, dT, kept, xs[j]).value <= hi as real
    {
      GaussianWithinNeighbours(lib, cfg.alpha, kept, xs[j], lo as real, hi as real);
      TailMeanWithinNeighbours(kept, xs[j], cfg.tailSmooth, lo, hi);
    }
  }

  // ---------------------------------------------------------------------------
  // The procedure.

  /** Sample k adds its near weight to sumsN and the weight times its intensity to sumsI. */
  lemma GaussSumsStep(lib: Lib, alpha: real, kept: Samples, x: real, n: nat)
    requires Parallel(kept) && 0 < n <= |kept.data|
    ensures GaussTotal(lib, alpha, kept, x, n) == GaussTotal(lib, alpha, kept, x, n - 1) + NearWeight(lib, alpha, kept, x, n - 1)
    ensures GaussSum(lib, alpha, kept, x, n)
      == GaussSum(lib, alpha, kept, x, n - 1) + NearWeight(lib, alpha, kept, x, n - 1) * kept.data[n - 1] as real
  {
  }

  /** One pass of the inner loop: sample k within 2 px adds its weight and weighted intensity. */
  method GaussAdd(lib: Lib, alpha: real, kept: Samples, x: real, k: nat, sumsI: real, sumsN: real) returns (i': real, n': real)
    requires Parallel(kept) && k < |kept.data|
    requires sumsI == GaussSum(lib, alpha, kept, x, k) && sumsN == GaussTotal(lib, alpha, kept, x, k)
    ensures i' == GaussSum(lib, alpha, kept, x, k + 1) && n' == GaussTotal(lib, alpha, kept, x, k + 1)
  {
    i', n' := sumsI, sumsN;
    GaussSumsStep(lib, alpha, kept, x, k + 1);
    var t := kept.position[k] - x;
    if Abs(t) <= 2.0 {
      var wt := GaussWeight(lib, alpha, t);
      assert wt == NearWeight(lib, alpha, kept, x, k);
      i' := i' + wt * kept.data[k] as real;
      n' := n' + wt;
    } else {
      assert NearWeight(lib, alpha, kept, x, k) == 0.0;
    }
  }

  /** The Gaussian branch's inner loop over the accepted samples. */
  method Gaussian(lib: Lib, alpha: real, kept: Samples, x: real) returns (r: Result<real>)
    requires Parallel(kept)
    ensures r == GaussianAt(lib, alpha, kept, x)
  {
    var sumsI, sumsN := 0.0, 0.0;
    for k := 0 to |kept.position|
      invariant sumsI == GaussSum(lib, alpha, kept, x, k)
      invariant sumsN == GaussTotal(lib, alpha, kept, x, k)
    {
      sumsI, sumsN := GaussAdd(lib, alpha, kept, x, k, sumsI, sumsN);
    }
    if sumsN == 0.0 {
      return Err(ZeroDivisionError);
    }
    return Ok(sumsI / sumsN);
  }

  /** The tail branch: collect values within the window, then their mean. */
  method TailMean(kept: Samples, x: real, w: real) returns (r: Result<real>)
    requires Parallel(kept)
    ensures r == TailMeanAt(kept, x, w)
  {
    var values := [];
    for k := 0 to |kept.position|
      invariant values == TailWindow(kept, x, w, k)
    {
      if Abs(kept.position[k] - x) <= w {
        values := values + [kept.data[k]];
      }
    }
    if values == [] {
      return Err(NotFinite);
    }
    var total := 0;
    for i := 0 to |values|
      invariant total == IntSum(values[..i])
    {
      assert values[..i + 1][..i] == values[..i];
      total := total + values[i];
    }
    assert values[..|values|] == values;
    return Ok(total as real / |values| as real);
  }

  /** The for loop over the grid: ESFrYnew starts as zeros and point j is overwritten in turn. */
  method Resmooth(lib: Lib, cfg: SmoothSettings, dT: real, kept: Samples, xs: seq<real>) returns (r: Result<seq<real>>)
    requires Parallel(kept)
    ensures r == Resmoothed(lib, cfg, dT, kept, xs)
  {
    ghost var f := Smoother(lib, cfg, dT, kept);
    var ys := seq(|xs|, _ => 0.0);
    for j := 0 to |xs|
      invariant |ys| == |xs| && Collect(f, xs, j) == Ok(ys[..j])
    {
      var y := SmoothPoint(lib, cfg, dT, kept, xs[j]);
      if y.Err? {
        CollectStops(f, xs, j + 1, |xs|);
        return Err(y.error);
      }
      ghost var before := ys[..j];
      ys := ys[j := y.value];
      assert ys[..j] == before;
      CollectStep(f, xs, j, before, y.value);
      assert ys[..j + 1] == before + [y.value];
    }
    assert ys[..|xs|] == ys;
    return Ok(ys);
  }

  /** The branch for one grid point. */
  method SmoothPoint(lib: Lib, cfg: SmoothSettings, dT: real, kept: Samples, x: real) returns (y: Result<real>)
    requires Parallel(kept)
    ensures y == SmoothedAt(lib, cfg, dT, kept, x)
  {
    if !cfg.tailSmoothing || Abs(x) < dT {
      y := Gaussian(lib, cfg.alpha, kept, x);
    } else {
      y := TailMean(kept, x, cfg.tailSmooth);
    }
  }
}
