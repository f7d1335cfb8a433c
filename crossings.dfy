/**
 * The threshold walk shared by fitESFCurve (d10/d90) and EdgeSpec (the five
 * percentiles) in MTF/MTF_Functions.py. One pass runs over the curve; at
 * every sample an elif chain offers the sample to the thresholds in a fixed
 * order, and the first threshold that is still 0 and is crossed records a
 * position. The value 0 doubles as "not found yet".
 */
module Crossings {
  import opened Numerics

  /**
   * One link of the elif chain: the fraction of the curve's range it tests,
   * and whether it records the position one sample back (ESFrX[x - 1]).
   */
  datatype Threshold = Threshold(level: real, before: bool)

  /**
   * What a walk reads: positions xs (the loop runs over their indices),
   * curve values ys, the curve minimum lo and range delta, and the direction
   * chosen from the first sample.
   */
  datatype Scan = Scan(xs: seq<real>, ys: seq<real>, lo: real, delta: real, falling: bool)

  /** Sample x is past the threshold: below it on a falling curve, above it on a rising one. */
  predicate Reached(s: Scan, level: real, x: nat)
    requires x < |s.ys|
  {
    if s.falling then s.ys[x] < s.lo + level * s.delta else s.ys[x] > s.lo + level * s.delta
  }

  /** The position recorded at sample x: xs[x], or xs[x - 1] read as Python does (x = 0 reads the last). */
  function Recorded(s: Scan, before: bool, x: nat): real
    requires x < |s.xs|
  {
    if before then s.xs[if x == 0 then |s.xs| - 1 else x - 1] else s.xs[x]
  }

  /**
   * The elif chain at sample x, from link i on. A link whose value is no
   * longer 0 is skipped without reading the curve; the first link still at
   * 0 reads ys[x], which raises IndexError past the end of the curve.
   */
  function Chain(s: Scan, ts: seq<Threshold>, found: seq<real>, x: nat, i: nat): (r: Result<seq<real>>)
    requires |found| == |ts| && i <= |ts| && x < |s.xs|
    ensures r.Ok? ==> |r.value| == |ts|
    decreases |ts| - i
  {
    if i == |ts| then Ok(found)
    else if found[i] != 0.0 then Chain(s, ts, found, x, i + 1)
    else if |s.ys| <= x then Err(IndexError)
    else if Reached(s, ts[i].level, x) then Ok(found[i := Recorded(s, ts[i].before, x)])
    else Chain(s, ts, found, x, i + 1)
  }

  /** The values after the first n samples; every link starts at 0. */
  function Walk(s: Scan, ts: seq<Threshold>, n: nat): (r: Result<seq<real>>)
    requires n <= |s.xs|
    ensures r.Ok? ==> |r.value| == |ts|
    decreases n
  {
    if n == 0 then Ok(seq(|ts|, _ => 0.0))
    else
      var found :- Walk(s, ts, n - 1);
      Chain(s, ts, found, n - 1, 0)
  }

  /** Link i is open and sample x crosses it: the chain records here. */
  predicate Fires(s: Scan, ts: seq<Threshold>, found: seq<real>, x: nat, i: nat)
    requires |found| == |ts| && i < |ts| && x < |s.ys|
  {
    found[i] == 0.0 && Reached(s, ts[i].level, x)
  }

  /**
   * The chain records at most one link per sample: either nothing changes,
   * or exactly link k changes, k is the first open link the sample crosses,
   * and it records the sample's position.
   */
  lemma {:induction false} ChainRecordsAtMostOne(s: Scan, ts: seq<Threshold>, found: seq<real>, x: nat, i: nat)
    requires |found| == |ts| && i <= |ts| && x < |s.xs|
    requires Chain(s, ts, found, x, i).Ok?
    ensures var r := Chain(s, ts, found, x, i).value;
      || (r == found && (x < |s.ys| ==> forall l | i <= l < |ts| :: !Fires(s, ts, found, x, l)))
      || (exists k | i <= k < |ts| ::
            && x < |s.ys|
            && Fires(s, ts, found, x, k)
            && (forall l | i <= l < k :: !Fires(s, ts, found, x, l))
            && r == found[k := Recorded(s, ts[k].before, x)])
    decreases |ts| - i
  {
    if i < |ts| && (found[i] != 0.0 || (x < |s.ys| && !Reached(s, ts[i].level, x))) {
      ChainRecordsAtMostOne(s, ts, found, x, i + 1);
      var r := Chain(s, ts, found, x, i).value;
      if r == found && (x < |s.ys| ==> forall l | i + 1 <= l < |ts| :: !Fires(s, ts, found, x, l)) {
      } else {
        var k :| i + 1 <= k < |ts| && x < |s.ys| && Fires(s, ts, found, x, k)
          && (forall l | i + 1 <= l < k :: !Fires(s, ts, found, x, l))
          && r == found[k := Recorded(s, ts[k].before, x)];
        assert forall l | i <= l < k :: !Fires(s, ts, found, x, l);
      }
    }
  }

  /** The walk fails exactly when the curve is shorter than the samples walked and some link is still open there. */
  lemma {:induction false} WalkFailsOnlyPastTheCurve(s: Scan, ts: seq<Threshold>, n: nat)
    requires n <= |s.xs|
    ensures Walk(s, ts, n).Err? ==> Walk(s, ts, n).error == IndexError && |s.ys| < n
    ensures n <= |s.ys| ==> Walk(s, ts, n).Ok?
    decreases n
  {
    if n > 0 {
      WalkFailsOnlyPastTheCurve(s, ts, n - 1);
      if Walk(s, ts, n - 1).Ok? {
        ChainFailsOnlyPastTheCurve(s, ts, Walk(s, ts, n - 1).value, n - 1, 0);
      }
    }
  }

  /** One chain fails only with IndexError, and only past the end of the curve. */
  lemma {:induction false} ChainFailsOnlyPastTheCurve(s: Scan, ts: seq<Threshold>, found: seq<real>, x: nat, i: nat)
    requires |found| == |ts| && i <= |ts| && x < |s.xs|
    ensures Chain(s, ts, found, x, i).Err? ==> Chain(s, ts, found, x, i).error == IndexError && |s.ys| <= x
    decreases |ts| - i
  {
    if i < |ts| {
      ChainFailsOnlyPastTheCurve(s, ts, found, x, i + 1);
    }
  }

  /** A walk that succeeds over n samples succeeded over every shorter prefix. */
  lemma {:induction false} WalkPrefixOk(s: Scan, ts: seq<Threshold>, m: nat, n: nat)
    requires m <= n <= |s.xs|
    requires Walk(s, ts, n).Ok?
    ensures Walk(s, ts, m).Ok?
    decreases n
  {
    if m < n {
      WalkPrefixOk(s, ts, m, n - 1);
    }
  }

  /** Once the walk fails, the same error stands for every longer walk. */
  lemma {:induction false} ErrorsPersist(s: Scan, ts: seq<Threshold>, m: nat, n: nat)
    requires m <= n <= |s.xs|
    requires Walk(s, ts, m).Err?
    ensures Walk(s, ts, n) == Walk(s, ts, m)
    decreases n
  {
    if m < n {
      ErrorsPersist(s, ts, m, n - 1);
    }
  }

  /** One more sample runs the chain once more on the values so far. */
  lemma WalkStep(s: Scan, ts: seq<Threshold>, found: seq<real>, n: nat)
    requires n < |s.xs| && Walk(s, ts, n) == Ok(found)
    ensures Walk(s, ts, n + 1) == Chain(s, ts, found, n, 0)
  {
  }

  /** Before any sample every link reads 0. */
  lemma NothingFoundYet(s: Scan, ts: seq<Threshold>, zeros: seq<real>)
    requires |zeros| == |ts| && forall i | 0 <= i < |zeros| :: zeros[i] == 0.0
    ensures Walk(s, ts, 0) == Ok(zeros)
  {
    var start := seq(|ts|, _ => 0.0);
    assert forall i | 0 <= i < |ts| :: start[i] == zeros[i];
    assert start == zeros;
  }

  /** A chain never changes a link that already holds a non-zero value. */
  lemma {:induction false} ChainKeepsRecords(s: Scan, ts: seq<Threshold>, found: seq<real>, x: nat, i: nat, k: nat)
    requires |found| == |ts| && i <= |ts| && x < |s.xs| && k < |ts|
    requires Chain(s, ts, found, x, i).Ok? && found[k] != 0.0
    ensures Chain(s, ts, found, x, i).value[k] == found[k]
    decreases |ts| - i
  {
    if i < |ts| && (found[i] != 0.0 || !Reached(s, ts[i].level, x)) {
      ChainKeepsRecords(s, ts, found, x, i + 1, k);
    }
  }

  /** Once a link holds a non-zero position, later samples never change it. */
  lemma {:induction false} RecordsStay(s: Scan, ts: seq<Threshold>, m: nat, n: nat, k: nat)
    requires m <= n <= |s.xs| && k < |ts|
    requires Walk(s, ts, n).Ok?
    requires Walk(s, ts, m).Ok? && Walk(s, ts, m).value[k] != 0.0
    ensures Walk(s, ts, n).value[k] == Walk(s, ts, m).value[k]
    decreases n
  {
    if m < n {
      WalkPrefixOk(s, ts, n - 1, n);
      RecordsStay(s, ts, m, n - 1, k);
      ChainKeepsRecords(s, ts, Walk(s, ts, n - 1).value, n - 1, 0, k);
    }
  }

  /** A chain that changes link k records there a sample that crosses k's threshold. */
  lemma {:induction false} ChainRecordsCrossings(s: Scan, ts: seq<Threshold>, found: seq<real>, x: nat, i: nat, k: nat)
    requires |found| == |ts| && i <= |ts| && x < |s.xs| && k < |ts|
    requires Chain(s, ts, found, x, i).Ok? && Chain(s, ts, found, x, i).value[k] != found[k]
    ensures x < |s.ys| && Reached(s, ts[k].level, x)
    ensures Chain(s, ts, found, x, i).value[k] == Recorded(s, ts[k].before, x)
    decreases |ts| - i
  {
    if i < |ts| && (found[i] != 0.0 || !Reached(s, ts[i].level, x)) {
      ChainRecordsCrossings(s, ts, found, x, i + 1, k);
    }
  }

  /**
   * Every non-zero value a walk holds was recorded by a sample before n that
   * crosses that link's threshold.
   */
  lemma {:induction false} RecordsAreCrossings(s: Scan, ts: seq<Threshold>, n: nat, k: nat)
    requires n <= |s.xs| && k < |ts|
    requires Walk(s, ts, n).Ok? && Walk(s, ts, n).value[k] != 0.0
    ensures exists x | 0 <= x < n && x < |s.ys| ::
      Reached(s, ts[k].level, x) && Walk(s, ts, n).value[k] == Recorded(s, ts[k].before, x)
    decreases n
  {
    WalkPrefixOk(s, ts, n - 1, n);
    var found := Walk(s, ts, n - 1).value;
    if found[k] == Walk(s, ts, n).value[k] {
      RecordsAreCrossings(s, ts, n - 1, k);
    } else {
      ChainRecordsCrossings(s, ts, found, n - 1, 0, k);
    }
  }

  /**
   * A position recorded as exactly 0.0 leaves its link open: the link still
   * reads "not found" after that sample.
   */
  lemma ZeroRecordLeavesLinkOpen(s: Scan, ts: seq<Threshold>, n: nat, k: nat)
    requires 0 < n <= |s.xs| && k < |ts|
    requires Walk(s, ts, n).Ok?
    requires Recorded(s, ts[k].before, n - 1) == 0.0
    requires Walk(s, ts, n - 1).Ok? && Walk(s, ts, n - 1).value[k] == 0.0
    ensures Walk(s, ts, n).value[k] == 0.0
  {
    var found := Walk(s, ts, n - 1).value;
    if Walk(s, ts, n).value[k] != found[k] {
      ChainRecordsCrossings(s, ts, found, n - 1, 0, k);
    }
  }
}
