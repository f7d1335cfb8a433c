/**
 * The batch drivers in MTF/MTF_Functions.py: the folder-prefix table that
 * BulkAnalyseAndAverage and AnalyseStack share, the elementwise mean and
 * peak-hold of the MTFs of one folder, and the stacking of the raw ESFs of
 * one folder into a single sample list.
 */
module Batch {
  import opened Numerics
  import opened Aoi
  import opened EsfBuilder
  import opened Resample

  // ---------------------------------------------------------------- folders

  /** The AOI centre (x, y) for a folder, by the first matching name prefix; None marks an invalid folder. */
  function FieldPoint(name: string): (p: Option<(int, int)>)
    ensures p.Some? <==> "top" <= name || "bottom" <= name || "centre" <= name || "left" <= name || "right" <= name
  {
    if "top" <= name then Some((640, 50))
    else if "bottom" <= name then Some((640, 974))
    else if "centre" <= name then Some((640, 512))
    else if "left" <= name then Some((50, 512))
    else if "right" <= name then Some((1230, 512))
    else None
  }

  /** The five prefixes each select their own field position, and no two positions coincide. */
  lemma FieldPointsAreDistinct(a: string, b: string)
    requires FieldPoint(a).Some? && FieldPoint(b).Some?
    ensures FieldPoint(a) == FieldPoint(b) <==> a[0] == b[0]
  {
    if "top" <= a { assert a[0] == 't'; }
    else if "bottom" <= a { assert a[0] == 'b'; }
    else if "centre" <= a { assert a[0] == 'c'; }
    else if "left" <= a { assert a[0] == 'l'; }
    else { assert a[0] == 'r'; }
    if "top" <= b { assert b[0] == 't'; }
    else if "bottom" <= b { assert b[0] == 'b'; }
    else if "centre" <= b { assert b[0] == 'c'; }
    else if "left" <= b { assert b[0] == 'l'; }
    else { assert b[0] == 'r'; }
  }

  /**
   * Every field position lies inside the 1024 x 1280 sensor frame, so the
   * AOI that setAoi draws around it holds the position itself.
   */
  lemma FieldPointsInFrame(name: string, aoiSize: int)
    requires FieldPoint(name).Some? && 1 <= aoiSize
    ensures var (x, y) := FieldPoint(name).value;
      0 <= x <= LastCol && 0 <= y <= LastRow &&
      var win := AoiWindow(x, y, aoiSize);
      win.top <= y <= win.bottom && win.left <= x <= win.right
  {
    var (x, y) := FieldPoint(name).value;
    WindowHoldsCentre(x, y, aoiSize);
  }

  // ---------------------------------------------------------- mean and peak

  /** np.array of the list of MTFs is a 2-d array only when every MTF has the same length. */
  predicate Rectangular(mtfs: seq<seq<real>>)
  {
    forall i | 0 <= i < |mtfs| :: |mtfs[i]| == |mtfs[0]|
  }

  /** Bin j of every MTF, in list order. */
  function Column(mtfs: seq<seq<real>>, j: nat): (c: seq<real>)
    requires Rectangular(mtfs) && mtfs != [] && j < |mtfs[0]|
    ensures |c| == |mtfs| && forall i | 0 <= i < |mtfs| :: c[i] == mtfs[i][j]
  {
    seq(|mtfs|, i requires 0 <= i < |mtfs| && Rectangular(mtfs) => mtfs[i][j])
  }

  /**
   * mean_mtf and max_mtf: np.mean and np.amax along axis 0. An empty folder
   * (np.amax of a zero-size array) and MTFs of unequal length (a ragged
   * np.array) both raise ValueError, which the driver reports as a warning.
   */
  function MeanAndPeak(mtfs: seq<seq<real>>): (r: Result<(seq<real>, seq<real>)>)
    ensures r.Ok? <==> mtfs != [] && Rectangular(mtfs)
    ensures r.Err? ==> r.error == ValueError
    ensures r.Ok? ==> |r.value.0| == |r.value.1| == |mtfs[0]|
  {
    if mtfs == [] || !Rectangular(mtfs) then Err(ValueError)
    else
      var n := |mtfs| as real;
      Ok((seq(|mtfs[0]|, j requires 0 <= j < |mtfs[0]| => Sum(Column(mtfs, j)) / n),
          seq(|mtfs[0]|, j requires 0 <= j < |mtfs[0]| => MaxOf(Column(mtfs, j)))))
  }

  /** A sum of k values between lo and hi lies between k lo and k hi. */
  lemma {:induction false} SumBounds(s: seq<real>, lo: real, hi: real)
    requires forall i | 0 <= i < |s| :: lo <= s[i] <= hi
    ensures lo * (|s| as real) <= Sum(s) <= hi * (|s| as real)
  {
    if s != [] {
      SumBounds(s[..|s| - 1], lo, hi);
    }
  }

  /** The smallest and the largest element are both elements. */
  lemma {:induction false} ExtremesAreAttained(s: seq<real>)
    requires s != []
    ensures exists i | 0 <= i < |s| :: s[i] == MinOf(s)
    ensures exists i | 0 <= i < |s| :: s[i] == MaxOf(s)
  {
    if |s| == 1 {
      assert s[0] == MinOf(s) && s[0] == MaxOf(s);
    } else {
      var rest := s[1..];
      ExtremesAreAttained(rest);
      var i :| 0 <= i < |rest| && rest[i] == MinOf(rest);
      var k :| 0 <= k < |rest| && rest[k] == MaxOf(rest);
      assert s[i + 1] == rest[i] && s[k + 1] == rest[k];
      if s[0] <= MinOf(rest) {
        assert s[0] == MinOf(s);
      } else {
        assert s[i + 1] == MinOf(s);
      }
      if MaxOf(rest) <= s[0] {
        assert s[0] == MaxOf(s);
      } else {
        assert s[k + 1] == MaxOf(s);
      }
    }
  }

  /** The mean of a non-empty list lies between its smallest and largest element. */
  lemma {:induction false} MeanBetweenExtremes(s: seq<real>)
    requires s != []
    ensures MinOf(s) <= Sum(s) / (|s| as real) <= MaxOf(s)
  {
    var lo, hi, n, t := MinOf(s), MaxOf(s), |s| as real, Sum(s);
    assert lo * n <= t <= hi * n by {
      SumBounds(s, lo, hi);
    }
    assert 0.0 < n;
    QuotientBetween(lo, t, hi, n);
  }

  /**
   * The peak-hold curve is, bin by bin, the largest MTF value of the folder:
   * no MTF exceeds it and some MTF reaches it. The mean lies between the
   * smallest MTF value of that bin and the peak.
   */
  lemma PeakHoldsAndMeanBelow(mtfs: seq<seq<real>>, j: nat)
    requires MeanAndPeak(mtfs).Ok? && j < |mtfs[0]|
    ensures var (mean, peak) := MeanAndPeak(mtfs).value;
      (forall i | 0 <= i < |mtfs| :: mtfs[i][j] <= peak[j]) &&
      (exists i | 0 <= i < |mtfs| :: mtfs[i][j] == peak[j]) &&
      (exists i | 0 <= i < |mtfs| :: mtfs[i][j] <= mean[j]) &&
      mean[j] <= peak[j]
  {
    var (mean, peak) := MeanAndPeak(mtfs).value;
    var c := Column(mtfs, j);
    assert peak[j] == MaxOf(c) && mean[j] == Sum(c) / |c| as real;
    ExtremesAreAttained(c);
    MeanBetweenExtremes(c);
    var i :| 0 <= i < |c| && c[i] == MinOf(c);
    assert mtfs[i][j] <= mean[j];
  }

  /** Averaging a folder that holds one image returns that image's MTF as both mean and peak. */
  lemma SingleImageIsItsOwnAverage(mtf: seq<real>)
    ensures MeanAndPeak([mtf]) == Ok((mtf, mtf))
  {
    var (mean, peak) := MeanAndPeak([mtf]).value;
    forall j | 0 <= j < |mtf|
      ensures mean[j] == mtf[j] && peak[j] == mtf[j]
    {
      var c := Column([mtf], j);
      assert c == [mtf[j]];
      assert c[..0] == [];
      assert Sum(c) == mtf[j];
      assert mean[j] == Sum(c) / 1.0;
      assert peak[j] == MaxOf(c);
    }
    assert mean == mtf && peak == mtf;
  }

  // -------------------------------------------------------------- stacking

  /** [item for sublist in lists for item in sublist]. */
  function Flatten<T>(lists: seq<seq<T>>): seq<T>
    decreases |lists|
  {
    if lists == [] then [] else Flatten(lists[..|lists| - 1]) + lists[|lists| - 1]
  }

  /** Where list i starts in the flattened sequence. */
  function Offset<T>(lists: seq<seq<T>>, i: nat): nat
    requires i <= |lists|
  {
    |Flatten(lists[..i])|
  }

  /** Flattening a prefix of the lists gives a prefix of the flattened lists. */
  lemma {:induction false} FlattenPrefix<T>(lists: seq<seq<T>>, m: nat)
    requires m <= |lists|
    ensures Flatten(lists[..m]) <= Flatten(lists)
    decreases |lists|
  {
    if m < |lists| {
      var init := lists[..|lists| - 1];
      assert init[..m] == lists[..m];
      assert lists[..|lists|] == lists;
      FlattenPrefix(init, m);
    } else {
      assert lists[..m] == lists;
    }
  }

  /** Element k of list i sits at Offset(i) + k of the flattened sequence. */
  lemma FlattenAt<T>(lists: seq<seq<T>>, i: nat, k: nat)
    requires i < |lists| && k < |lists[i]|
    ensures Offset(lists, i) + k < |Flatten(lists)|
    ensures Flatten(lists)[Offset(lists, i) + k] == lists[i][k]
  {
    var front := lists[..i + 1];
    assert front[..i] == lists[..i];
    assert Flatten(front) == Flatten(lists[..i]) + lists[i];
    FlattenPrefix(lists, i + 1);
  }

  /** The flattened length is the sum of the list lengths. */
  function TotalLength<T>(lists: seq<seq<T>>): nat
    decreases |lists|
  {
    if lists == [] then 0 else TotalLength(lists[..|lists| - 1]) + |lists[|lists| - 1]|
  }

  lemma {:induction false} FlattenLength<T>(lists: seq<seq<T>>)
    ensures |Flatten(lists)| == TotalLength(lists)
    decreases |lists|
  {
    if lists != [] {
      FlattenLength(lists[..|lists| - 1]);
    }
  }

  /** The intensity and position lists of each image of a folder, in load order. */
  function DataLists(images: seq<Esf>): (r: seq<seq<int>>)
    ensures |r| == |images| && forall i | 0 <= i < |images| :: r[i] == images[i].data
  {
    seq(|images|, i requires 0 <= i < |images| => images[i].data)
  }

  function PositionLists(images: seq<Esf>): (r: seq<seq<real>>)
    ensures |r| == |images| && forall i | 0 <= i < |images| :: r[i] == images[i].position
  {
    seq(|images|, i requires 0 <= i < |images| => images[i].position)
  }

  /** AnalyseStack's EsfRawData and EsfRawPosition: every image's raw ESF, one after another. */
  function Stacked(images: seq<Esf>): Esf
  {
    Esf(Flatten(DataLists(images)), Flatten(PositionLists(images)))
  }

  /** An ESF whose intensities and positions pair up, as analyse builds it. */
  predicate Paired(e: Esf)
  {
    |e.data| == |e.position|
  }

  /** Equal lengths list by list give equal offsets. */
  lemma {:induction false} OffsetsAgree(images: seq<Esf>, i: nat)
    requires i <= |images| && forall m | 0 <= m < |images| :: Paired(images[m])
    ensures Offset(DataLists(images), i) == Offset(PositionLists(images), i)
    decreases i
  {
    var ds := DataLists(images)[..i];
    var ps := PositionLists(images)[..i];
    FlattenLength(ds);
    FlattenLength(ps);
    TotalLengthsAgree(images, i);
  }

  lemma {:induction false} TotalLengthsAgree(images: seq<Esf>, i: nat)
    requires i <= |images| && forall m | 0 <= m < |images| :: Paired(images[m])
    ensures TotalLength(DataLists(images)[..i]) == TotalLength(PositionLists(images)[..i])
    decreases i
  {
    if i > 0 {
      var ds := DataLists(images)[..i];
      var ps := PositionLists(images)[..i];
      assert ds[..i - 1] == DataLists(images)[..i - 1];
      assert ps[..i - 1] == PositionLists(images)[..i - 1];
      TotalLengthsAgree(images, i - 1);
    }
  }

  /**
   * Stacking keeps every sample with its own position: when each image's
   * raw ESF pairs up, the stacked lists have equal length, and sample k of
   * image i sits at the same index of both, with that image's intensity and
   * position.
   */
  lemma StackKeepsPairs(images: seq<Esf>, i: nat, k: nat)
    requires forall m | 0 <= m < |images| :: Paired(images[m])
    requires i < |images| && k < |images[i].data| && k < |images[i].position|
    ensures Paired(Stacked(images))
    ensures var at := Offset(DataLists(images), i) + k;
      at < |Stacked(images).data| && at < |Stacked(images).position| &&
      Stacked(images).data[at] == images[i].data[k] &&
      Stacked(images).position[at] == images[i].position[k]
  {
    OffsetsAgree(images, |images|);
    assert DataLists(images)[..|images|] == DataLists(images);
    assert PositionLists(images)[..|images|] == PositionLists(images);
    FlattenAt(DataLists(images), i, k);
    FlattenAt(PositionLists(images), i, k);
    OffsetsAgree(images, i);
  }

  /** The stacked length is the total sample count of the folder's images. */
  lemma StackedLength(images: seq<Esf>)
    ensures |Stacked(images).data| == TotalLength(DataLists(images))
    ensures |Stacked(images).position| == TotalLength(PositionLists(images))
  {
    FlattenLength(DataLists(images));
    FlattenLength(PositionLists(images));
  }
}
