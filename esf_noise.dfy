/**
 * The noise rejection inside fitESFCurve (MTF/MTF_Functions.py): sigma is
 * estimated from the dark tail, every raw sample is compared with the
 * resampled curve at its nearest grid point, and the raw samples are split
 * into accepted and removed lists in their original order.
 */
module EsfNoise {
  import opened Numerics

  /** The raw ESF as parallel lists, and the two lists the split produces. */
  datatype Samples = Samples(position: seq<real>, data: seq<int>)
  datatype Split = Split(kept: Samples, removed: Samples)

  predicate Parallel(r: Samples) { |r.position| == |r.data| }

  /** The intensities of the first n samples at position <= cut (y_samples). */
  function TailSamples(raw: Samples, cut: real, n: nat): (ys: seq<int>)
    requires Parallel(raw) && n <= |raw.data|
    ensures |ys| <= n
    decreases n
  {
    if n == 0 then []
    else TailSamples(raw, cut, n - 1) + (if raw.position[n - 1] <= cut then [raw.data[n - 1]] else [])
  }

  /** The tail cut: 3.5 px plus the larger of |d10| and |d90| before the edge. */
  function TailCut(d10: real, d90: real): (cut: real)
    ensures cut <= -3.5
  {
    -(3.5 + MaxR(Abs(d10), Abs(d90)))
  }

  /** sigma' = uint16(np.std(y_samples)) * sigmaScaling. */
  function ScaledSigma(lib: Lib, raw: Samples, d10: real, d90: real, scaling: real): (r: real)
    requires Parallel(raw)
    ensures 0.0 <= scaling ==>
      0.0 <= r <= lib.std(Reals(TailSamples(raw, TailCut(d10, d90), |raw.data|))) * scaling
  {
    Scaled(Trunc(lib.std(Reals(TailSamples(raw, TailCut(d10, d90), |raw.data|)))), scaling)
  }

  /** A uint16 standard deviation times the scaling factor. */
  function Scaled(stddev: int, scaling: real): real
  {
    stddev as real * scaling
  }

  /**
   * The inner loop over the first n grid points: (j_index, delta), starting
   * from (0, 1) and moving only to a strictly closer point.
   */
  function NearestFrom(xs: seq<real>, p: real, n: nat): (r: (nat, real))
    requires n <= |xs|
    ensures r.1 <= 1.0 && (r.0 < n || r.0 == 0)
    decreases n
  {
    if n == 0 then (0, 1.0)
    else
      var r := NearestFrom(xs, p, n - 1);
      if Abs(p - xs[n - 1]) < r.1 then (n - 1, Abs(p - xs[n - 1])) else r
  }

  /**
   * The grid point chosen for a raw sample at p: when some grid point lies
   * closer than 1 px, the first of the closest ones; otherwise index 0.
   */
  lemma {:induction false} NearestIsFirstClosest(xs: seq<real>, p: real, n: nat)
    requires n <= |xs|
    ensures var (j, d) := NearestFrom(xs, p, n);
      && (d < 1.0 <==> exists k | 0 <= k < n :: Abs(p - xs[k]) < 1.0)
      && (d == 1.0 ==> j == 0)
      && (d < 1.0 ==>
            && j < n && d == Abs(p - xs[j])
            && (forall k | 0 <= k < n :: d <= Abs(p - xs[k]))
            && (forall k | 0 <= k < j :: d < Abs(p - xs[k])))
    decreases n
  {
    if n > 0 {
      NearestIsFirstClosest(xs, p, n - 1);
    }
  }

  /**
   * The verdict on one raw sample (p, v): accepted iff its distance from the
   * curve at the nearest grid point is at most 1.75 sigma' within 2.5 px of
   * the edge and at most sigma' elsewhere. Reading the grid or the curve past
   * its end raises IndexError.
   */
  function Verdict(xs: seq<real>, ys: seq<real>, sigma: real, p: real, v: int): Result<bool>
  {
    var j := NearestFrom(xs, p, |xs|).0;
    if j >= |xs| || j >= |ys| then Err(IndexError)
    else if Abs(xs[j]) < 2.5 then Ok(Abs(ys[j] - v as real) <= 1.75 * sigma)
    else Ok(Abs(ys[j] - v as real) <= sigma)
  }

  /** The verdicts on the first n raw samples; the first error stops the loop. */
  function Verdicts(xs: seq<real>, ys: seq<real>, sigma: real, raw: Samples, n: nat): (r: Result<seq<bool>>)
    requires Parallel(raw) && n <= |raw.data|
    ensures r.Ok? ==> |r.value| == n
    decreases n
  {
    if n == 0 then Ok([])
    else
      var vs :- Verdicts(xs, ys, sigma, raw, n - 1);
      var b :- Verdict(xs, ys, sigma, raw.position[n - 1], raw.data[n - 1]);
      Ok(vs + [b])
  }

  /** The elements of s whose verdict is want, in their original order. */
  function Select<T>(s: seq<T>, verdicts: seq<bool>, want: bool): (r: seq<T>)
    requires |verdicts| == |s|
    ensures |r| <= |s|
  {
    if s == [] then []
    else
      Select(s[..|s| - 1], verdicts[..|s| - 1], want)
        + (if verdicts[|s| - 1] == want then [s[|s| - 1]] else [])
  }

  /**
   * The split the loop builds: each raw sample goes to the accepted or the
   * removed lists by its verdict. With noise removal off, every sample is
   * accepted and none removed.
   */
  function NoiseSplit(lib: Lib, xs: seq<real>, ys: seq<real>, raw: Samples, d10: real, d90: real,
                      scaling: real, removeNoise: bool): (r: Result<Split>)
    requires Parallel(raw)
    ensures !removeNoise ==> r == Ok(Split(raw, Samples([], [])))
    ensures r.Ok? ==> Parallel(r.value.kept) && Parallel(r.value.removed)
  {
    if !removeNoise then Ok(Split(raw, Samples([], [])))
    else
      SplitOf(xs, ys, ScaledSigma(lib, raw, d10, d90, scaling), raw)
  }

  /**
   * The lists after the first n raw samples: each sample appended to the
   * accepted or the removed lists by its verdict; the first failing verdict
   * stops the loop with its error.
   */
  function SplitUpTo(xs: seq<real>, ys: seq<real>, sigma: real, raw: Samples, n: nat): (r: Result<Split>)
    requires Parallel(raw) && n <= |raw.data|
    ensures r.Ok? ==> Parallel(r.value.kept) && Parallel(r.value.removed)
    decreases n
  {
    if n == 0 then Ok(Split(Samples([], []), Samples([], [])))
    else
      var split :- SplitUpTo(xs, ys, sigma, raw, n - 1);
      var accept :- Verdict(xs, ys, sigma, raw.position[n - 1], raw.data[n - 1]);
      Ok(Placed(raw, n - 1, split, accept))
  }

  /** The split of all raw samples, or the first verdict's error. */
  function SplitOf(xs: seq<real>, ys: seq<real>, sigma: real, raw: Samples): (r: Result<Split>)
    requires Parallel(raw)
    ensures r.Ok? ==> Parallel(r.value.kept) && Parallel(r.value.removed)
  {
    SplitUpTo(xs, ys, sigma, raw, |raw.data|)
  }

  /** The accepted and the removed samples under the given verdicts. */
  function SplitBy(raw: Samples, vs: seq<bool>): (r: Split)
    requires Parallel(raw) && |vs| == |raw.data|
    ensures Parallel(r.kept) && Parallel(r.removed)
  {
    SelectLengths(raw.position, raw.data, vs, true);
    SelectLengths(raw.position, raw.data, vs, false);
    Split(Samples(Select(raw.position, vs, true), Select(raw.data, vs, true)),
          Samples(Select(raw.position, vs, false), Select(raw.data, vs, false)))
  }

  /** The first k raw samples. */
  function Prefix(raw: Samples, k: nat): (r: Samples)
    requires Parallel(raw) && k <= |raw.data|
    ensures Parallel(r) && |r.data| == k
  {
    Samples(raw.position[..k], raw.data[..k])
  }

  /** Parallel lists stay parallel under the same verdicts. */
  lemma {:induction false} SelectLengths<T, U>(a: seq<T>, b: seq<U>, verdicts: seq<bool>, want: bool)
    requires |a| == |b| == |verdicts|
    ensures |Select(a, verdicts, want)| == |Select(b, verdicts, want)|
    decreases |a|
  {
    if a != [] {
      SelectLengths(a[..|a| - 1], b[..|b| - 1], verdicts[..|a| - 1], want);
    }
  }

  /**
   * Every element lands in exactly one of the two selections: together they
   * hold the same elements as s, as many times each.
   */
  lemma {:induction false} SelectPartitions<T>(s: seq<T>, verdicts: seq<bool>)
    requires |verdicts| == |s|
    ensures multiset(Select(s, verdicts, true)) + multiset(Select(s, verdicts, false)) == multiset(s)
    ensures |Select(s, verdicts, true)| + |Select(s, verdicts, false)| == |s|
    decreases |s|
  {
    if s != [] {
      SelectPartitions(s[..|s| - 1], verdicts[..|s| - 1]);
      SelectLast(s, verdicts, true);
      SelectLast(s, verdicts, false);
      PartitionStep(Select(s[..|s| - 1], verdicts[..|s| - 1], true), Select(s[..|s| - 1], verdicts[..|s| - 1], false),
                    s, verdicts[|s| - 1]);
    }
  }

  /** Adding the last element to the side its verdict v names keeps a partition a partition. */
  lemma PartitionStep<T>(a: seq<T>, b: seq<T>, s: seq<T>, v: bool)
    requires s != [] && multiset(a) + multiset(b) == multiset(s[..|s| - 1]) && |a| + |b| == |s| - 1
    ensures var a' := a + (if v == true then [s[|s| - 1]] else []);
      var b' := b + (if v == false then [s[|s| - 1]] else []);
      multiset(a') + multiset(b') == multiset(s) && |a'| + |b'| == |s|
  {
    assert s[..|s| - 1] + [s[|s| - 1]] == s;
  }

  /** The last element goes to the selection its verdict names. */
  lemma SelectLast<T>(s: seq<T>, verdicts: seq<bool>, want: bool)
    requires |verdicts| == |s| && s != []
    ensures Select(s, verdicts, want)
      == Select(s[..|s| - 1], verdicts[..|s| - 1], want) + (if verdicts[|s| - 1] == want then [s[|s| - 1]] else [])
  {
  }

  /** Appending one element and its verdict appends to one selection only. */
  lemma SelectAppend<T>(s: seq<T>, verdicts: seq<bool>, x: T, b: bool, want: bool)
    requires |verdicts| == |s|
    ensures Select(s + [x], verdicts + [b], want) == Select(s, verdicts, want) + (if b == want then [x] else [])
  {
    assert (s + [x])[..|s|] == s && (verdicts + [b])[..|s|] == verdicts;
  }

  /** Selection keeps order: the kept elements are the selected indices, rising. */
  lemma {:induction false} SelectKeepsOrder<T>(s: seq<T>, verdicts: seq<bool>, want: bool, i: nat)
    requires |verdicts| == |s| && i < |Select(s, verdicts, want)|
    ensures exists k | 0 <= k < |s| ::
      && verdicts[k] == want && Select(s, verdicts, want)[i] == s[k]
      && |Select(s[..k], verdicts[..k], want)| == i
    decreases |s|
  {
    var n := |s| - 1;
    var front := Select(s[..n], verdicts[..n], want);
    if i < |front| {
      SelectKeepsOrder(s[..n], verdicts[..n], want, i);
      var k :| 0 <= k < n && verdicts[..n][k] == want && front[i] == s[..n][k]
        && |Select(s[..n][..k], verdicts[..n][..k], want)| == i;
      assert s[..n][..k] == s[..k] && verdicts[..n][..k] == verdicts[..k];
    } else {
      assert s[..n] == s[..n] && verdicts[..n] == verdicts[..n];
    }
  }

  /** The nearest-grid-point loop: the inner for loop over range(num). */
  method NearestGridPoint(xs: seq<real>, p: real) returns (jIndex: nat)
    ensures jIndex == NearestFrom(xs, p, |xs|).0
  {
    var delta := 1.0;
    jIndex := 0;
    for j := 0 to |xs|
      invariant (jIndex, delta) == NearestFrom(xs, p, j)
    {
      if Abs(p - xs[j]) < delta {
        delta := Abs(p - xs[j]);
        jIndex := j;
      }
    }
  }

  /** The y_samples loop. */
  method CollectTail(raw: Samples, cut: real) returns (ys: seq<int>)
    requires Parallel(raw)
    ensures ys == TailSamples(raw, cut, |raw.data|)
  {
    ys := [];
    for i := 0 to |raw.position|
      invariant ys == TailSamples(raw, cut, i)
    {
      if raw.position[i] <= cut {
        ys := ys + [raw.data[i]];
      }
    }
  }

  /** The removeNoise branch: sigma from the tail, then one pass over the raw samples. */
  method RemoveNoise(lib: Lib, xs: seq<real>, ys: seq<real>, raw: Samples, d10: real, d90: real,
                     scaling: real, removeNoise: bool) returns (r: Result<Split>)
    requires Parallel(raw)
    ensures r == NoiseSplit(lib, xs, ys, raw, d10, d90, scaling, removeNoise)
  {
    if !removeNoise {
      return Ok(Split(raw, Samples([], [])));
    }
    var ySamples := CollectTail(raw, TailCut(d10, d90));
    var stddev := Trunc(lib.std(Reals(ySamples)));
    var scaledSigma := Scaled(stddev, scaling);
    SigmaOfTail(lib, raw, d10, d90, scaling, ySamples);
    r := SplitSamples(xs, ys, scaledSigma, raw);
  }

  /** The for loop over the raw samples, appending each to _new or _removed. */
  method SplitSamples(xs: seq<real>, ys: seq<real>, scaledSigma: real, raw: Samples) returns (r: Result<Split>)
    requires Parallel(raw)
    ensures r == SplitOf(xs, ys, scaledSigma, raw)
  {
    var newData, newPosition, removedData, removedPosition := [], [], [], [];
    for k := 0 to |raw.position|
      invariant SplitUpTo(xs, ys, scaledSigma, raw, k) == Ok(Split(Samples(newPosition, newData), Samples(removedPosition, removedData)))
    {
      var verdict := Judge(xs, ys, scaledSigma, raw.position[k], raw.data[k]);
      if verdict.Err? {
        SplitStops(xs, ys, scaledSigma, raw, k + 1, |raw.data|);
        return Err(verdict.error);
      }
      if verdict.value {
        newData, newPosition := newData + [raw.data[k]], newPosition + [raw.position[k]];
      } else {
        removedData, removedPosition := removedData + [raw.data[k]], removedPosition + [raw.position[k]];
      }
    }
    return Ok(Split(Samples(newPosition, newData), Samples(removedPosition, removedData)));
  }

  /**
   * The loop body's test for one raw sample: the nearest grid point, then
   * the band of 1.75 sigma' within 2.5 px of the edge or sigma' beyond.
   */
  method Judge(xs: seq<real>, ys: seq<real>, scaledSigma: real, p: real, v: int) returns (r: Result<bool>)
    ensures r == Verdict(xs, ys, scaledSigma, p, v)
  {
    var jIndex := NearestGridPoint(xs, p);
    if jIndex >= |xs| || jIndex >= |ys| {
      return Err(IndexError);
    }
    if Abs(xs[jIndex]) < 2.5 {
      r := Ok(Abs(ys[jIndex] - v as real) <= 1.75 * scaledSigma);
    } else {
      r := Ok(Abs(ys[jIndex] - v as real) <= scaledSigma);
    }
  }

  /** sigma' from the collected tail samples. */
  lemma SigmaOfTail(lib: Lib, raw: Samples, d10: real, d90: real, scaling: real, ySamples: seq<int>)
    requires Parallel(raw) && ySamples == TailSamples(raw, TailCut(d10, d90), |raw.data|)
    ensures Scaled(Trunc(lib.std(Reals(ySamples))), scaling) == ScaledSigma(lib, raw, d10, d90, scaling)
  {
  }

  /** Raw sample k appended to the accepted or to the removed lists. */
  function Placed(raw: Samples, k: nat, split: Split, accept: bool): (r: Split)
    requires Parallel(raw) && k < |raw.data|
    ensures Parallel(split.kept) && Parallel(split.removed) ==> Parallel(r.kept) && Parallel(r.removed)
  {
    if accept then Split(Samples(split.kept.position + [raw.position[k]], split.kept.data + [raw.data[k]]), split.removed)
    else Split(split.kept, Samples(split.removed.position + [raw.position[k]], split.removed.data + [raw.data[k]]))
  }

  /**
   * The loop's lists are the selections by the verdicts: after n samples the
   * accepted lists hold exactly the samples accepted so far and the removed
   * lists the others, each in raw order; or both fail with the same error.
   */
  lemma {:induction false} SplitSelects(xs: seq<real>, ys: seq<real>, sigma: real, raw: Samples, n: nat)
    requires Parallel(raw) && n <= |raw.data|
    ensures Verdicts(xs, ys, sigma, raw, n).Err? ==> SplitUpTo(xs, ys, sigma, raw, n) == Err(Verdicts(xs, ys, sigma, raw, n).error)
    ensures Verdicts(xs, ys, sigma, raw, n).Ok? ==>
      SplitUpTo(xs, ys, sigma, raw, n) == Ok(SplitBy(Prefix(raw, n), Verdicts(xs, ys, sigma, raw, n).value))
    decreases n
  {
    if n > 0 {
      SplitSelects(xs, ys, sigma, raw, n - 1);
      var vs := Verdicts(xs, ys, sigma, raw, n - 1);
      if vs.Ok? {
        VerdictsStep(xs, ys, sigma, raw, n - 1, vs.value);
        var v := Verdict(xs, ys, sigma, raw.position[n - 1], raw.data[n - 1]);
        if v.Ok? {
          PlacedSelects(raw, n - 1, vs.value, v.value);
        }
      }
    }
  }

  /** Appending sample k by its verdict extends the selection of the first k samples to k + 1. */
  lemma PlacedSelects(raw: Samples, k: nat, vs: seq<bool>, accept: bool)
    requires Parallel(raw) && k < |raw.data| && |vs| == k
    ensures Placed(raw, k, SplitBy(Prefix(raw, k), vs), accept) == SplitBy(Prefix(raw, k + 1), vs + [accept])
  {
    SelectStep(raw, k, vs, accept);
  }

  /**
   * With noise removal on or off, every raw sample lands in exactly one of
   * the accepted and removed lists (positions and intensities alike); the
   * only failure is IndexError from reading the grid or the curve.
   */
  lemma NoiseSplitPartitions(lib: Lib, xs: seq<real>, ys: seq<real>, raw: Samples, d10: real, d90: real,
                             scaling: real, removeNoise: bool)
    requires Parallel(raw)
    ensures var r := NoiseSplit(lib, xs, ys, raw, d10, d90, scaling, removeNoise);
      && (r.Ok? ==>
        && multiset(r.value.kept.data) + multiset(r.value.removed.data) == multiset(raw.data)
        && multiset(r.value.kept.position) + multiset(r.value.removed.position) == multiset(raw.position)
        && |r.value.kept.data| + |r.value.removed.data| == |raw.data|)
      && (r.Err? ==> r.error == IndexError)
  {
    if removeNoise {
      var sigma := ScaledSigma(lib, raw, d10, d90, scaling);
      var n := |raw.data|;
      SplitSelects(xs, ys, sigma, raw, n);
      VerdictsFailOnlyOnIndex(xs, ys, sigma, raw, n);
      var vs := Verdicts(xs, ys, sigma, raw, n);
      if vs.Ok? {
        assert Prefix(raw, n) == raw;
        SelectPartitions(raw.data, vs.value);
        SelectPartitions(raw.position, vs.value);
      }
    }
  }

  /** A verdict fails only with IndexError. */
  lemma {:induction false} VerdictsFailOnlyOnIndex(xs: seq<real>, ys: seq<real>, sigma: real, raw: Samples, n: nat)
    requires Parallel(raw) && n <= |raw.data|
    ensures Verdicts(xs, ys, sigma, raw, n).Err? ==> Verdicts(xs, ys, sigma, raw, n).error == IndexError
    decreases n
  {
    if n > 0 {
      VerdictsFailOnlyOnIndex(xs, ys, sigma, raw, n - 1);
    }
  }

  /** One more sample appends to the accepted or the removed lists, by its verdict. */
  lemma SelectStep(raw: Samples, k: nat, vs: seq<bool>, accept: bool)
    requires Parallel(raw) && k < |raw.data| && |vs| == k
    ensures Select(raw.position[..k + 1], vs + [accept], true)
      == Select(raw.position[..k], vs, true) + (if accept then [raw.position[k]] else [])
    ensures Select(raw.position[..k + 1], vs + [accept], false)
      == Select(raw.position[..k], vs, false) + (if accept then [] else [raw.position[k]])
    ensures Select(raw.data[..k + 1], vs + [accept], true)
      == Select(raw.data[..k], vs, true) + (if accept then [raw.data[k]] else [])
    ensures Select(raw.data[..k + 1], vs + [accept], false)
      == Select(raw.data[..k], vs, false) + (if accept then [] else [raw.data[k]])
  {
    assert raw.position[..k + 1] == raw.position[..k] + [raw.position[k]];
    assert raw.data[..k + 1] == raw.data[..k] + [raw.data[k]];
    SelectAppend(raw.position[..k], vs, raw.position[k], accept, true);
    SelectAppend(raw.position[..k], vs, raw.position[k], accept, false);
    SelectAppend(raw.data[..k], vs, raw.data[k], accept, true);
    SelectAppend(raw.data[..k], vs, raw.data[k], accept, false);
  }

  /** One more sample: the verdicts so far, then this sample's verdict or its error. */
  lemma VerdictsStep(xs: seq<real>, ys: seq<real>, sigma: real, raw: Samples, k: nat, vs: seq<bool>)
    requires Parallel(raw) && k < |raw.data|
    requires Verdicts(xs, ys, sigma, raw, k) == Ok(vs)
    ensures var v := Verdict(xs, ys, sigma, raw.position[k], raw.data[k]);
      Verdicts(xs, ys, sigma, raw, k + 1) == if v.Err? then Err(v.error) else Ok(vs + [v.value])
  {
  }

  /** Once the loop fails, every longer run fails with the same error. */
  lemma {:induction false} SplitStops(xs: seq<real>, ys: seq<real>, sigma: real, raw: Samples, m: nat, n: nat)
    requires Parallel(raw) && m <= n <= |raw.data|
    requires SplitUpTo(xs, ys, sigma, raw, m).Err?
    ensures SplitUpTo(xs, ys, sigma, raw, n) == SplitUpTo(xs, ys, sigma, raw, m)
    decreases n
  {
    if m < n {
      SplitStops(xs, ys, sigma, raw, m, n - 1);
    }
  }
}
