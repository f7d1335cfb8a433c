/**
 * LSFCurve and MTFCurve in MTF/MTF_Functions.py: the LSF is the numerical
 * gradient of the fitted ESF; the MTF is the first half of the FFT magnitude
 * of the LSF, divided by the truncation sinc, normalised by its DC bin, and
 * divided by the detector sinc for the optical MTF.
 */
module Mtf {
  import opened Numerics
  import opened Misc

  /**
   * A numpy float64 as far as the stage can produce one: finite, infinite
   * (either sign) or NaN. numpy divides by zero without raising.
   */
  datatype Num = Fin(r: real) | Inf | NaN

  /** numpy's a / b on float64 values. */
  function Div(a: Num, b: Num): Num
  {
    match (a, b)
    case (NaN, _) => NaN
    case (_, NaN) => NaN
    case (Fin(x), Fin(y)) => if y != 0.0 then Fin(x / y) else if x == 0.0 then NaN else Inf
    case (Fin(_), Inf) => Fin(0.0)
    case (Inf, Fin(_)) => Inf
    case (Inf, Inf) => NaN
  }

  /** numpy's k * a for a finite k. */
  function Scale(k: real, a: Num): Num
  {
    match a
    case Fin(x) => Fin(k * x)
    case Inf => if k == 0.0 then NaN else Inf
    case NaN => NaN
  }

  // ---------------------------------------------------------------------------
  // LSFCurve.

  /**
   * np.gradient with unit spacing: one-sided differences at both ends,
   * central differences inside. Fewer than two samples raise ValueError.
   */
  function Gradient(y: seq<real>): (r: Result<seq<real>>)
    ensures |y| < 2 <==> r.Err?
    ensures r.Err? ==> r.error == ValueError
    ensures r.Ok? ==> |r.value| == |y|
  {
    var n := |y|;
    if n < 2 then Err(ValueError)
    else
      Ok(seq(n, i requires 0 <= i < n =>
        if i == 0 then y[1] - y[0]
        else if i == n - 1 then y[n - 1] - y[n - 2]
        else (y[i + 1] - y[i - 1]) / 2.0))
  }

  /** Sample i of a straight line a + b i. */
  function Line(a: real, b: real, i: nat): real
  {
    a + b * i as real
  }

  /** The gradient of a straight line is its slope at every sample, including both ends. */
  lemma GradientOfLine(y: seq<real>, a: real, b: real)
    requires 2 <= |y|
    requires forall i | 0 <= i < |y| :: y[i] == Line(a, b, i)
    ensures forall i | 0 <= i < |y| :: Gradient(y).value[i] == b
  {
    forall i | 0 <= i < |y|
      ensures Gradient(y).value[i] == b
    {
      if i == 0 {
        assert y[1] - y[0] == Line(a, b, 1) - Line(a, b, 0) == b;
      } else if i == |y| - 1 {
        assert y[i] - y[i - 1] == Line(a, b, i) - Line(a, b, i - 1) == b;
      } else {
        assert y[i + 1] - y[i - 1] == Line(a, b, i + 1) - Line(a, b, i - 1) == 2.0 * b;
      }
    }
  }

  // ---------------------------------------------------------------------------
  // The FFT length.

  /** 2^i. */
  function Pow2(i: nat): (p: nat)
    ensures 1 <= p
  {
    if i == 0 then 1 else 2 * Pow2(i - 1)
  }

  /**
   * The for loop over i in range(16) from i = start: 2^(i+1) for the first
   * i with 2^i > n, and the default 64 when there is none.
   */
  function FftLengthFrom(n: nat, start: nat): (len: nat)
    requires start <= 16
    decreases 16 - start
  {
    if start == 16 then 64
    else if Pow2(start) > n then Pow2(start + 1)
    else FftLengthFrom(n, start + 1)
  }

  /** desired_number_of_points for an ESF of n samples. */
  function FftLength(n: nat): (len: nat)
    ensures len % 2 == 0 && 2 <= len
    ensures 2 <= n ==> 8 <= len
  {
    FftLengthIsEven(n, 0);
    if 2 <= n then LongEsfHasFourBins(n, 0); FftLengthFrom(n, 0)
    else FftLengthFrom(n, 0)
  }

  /** Powers of two rise. */
  lemma {:induction false} Pow2Rises(i: nat, j: nat)
    requires i <= j
    ensures Pow2(i) <= Pow2(j)
    decreases j
  {
    if i < j {
      Pow2Rises(i, j - 1);
    }
  }

  /** The loop from i = start, when 2^(start-1) <= n, stops at the least i with 2^i > n. */
  lemma {:induction false} FftLengthFromIsLeastPower(n: nat, start: nat)
    requires start <= 16
    requires start == 0 || Pow2(start - 1) <= n
    ensures n < Pow2(15) ==> exists i | start <= i < 16 ::
      && Pow2(i) > n && (i == 0 || Pow2(i - 1) <= n) && FftLengthFrom(n, start) == 2 * Pow2(i)
    ensures Pow2(15) <= n ==> FftLengthFrom(n, start) == 64
    decreases 16 - start
  {
    if start < 16 {
      if Pow2(start) > n {
        if Pow2(15) <= n {
          Pow2Rises(start, 15);
        }
      } else {
        FftLengthFromIsLeastPower(n, start + 1);
      }
    }
  }

  /**
   * The FFT length is twice the least power of two above the sample count
   * while that power is at most 2^15; from 32768 samples on it falls back
   * to 64.
   */
  lemma FftLengthIsTwiceLeastPower(n: nat)
    ensures n < 32768 ==> exists i | 0 <= i < 16 ::
      && Pow2(i) > n && (i == 0 || Pow2(i - 1) <= n) && FftLength(n) == 2 * Pow2(i)
    ensures 32768 <= n ==> FftLength(n) == 64
  {
    assert Pow2(15) == 32768 by {
      assert Pow2(5) == 32;
      assert Pow2(10) == 1024;
    }
    FftLengthFromIsLeastPower(n, 0);
  }

  /** The FFT length is even, so np.split(., 2) halves it exactly. */
  lemma {:induction false} FftLengthIsEven(n: nat, start: nat)
    requires start <= 16
    ensures FftLengthFrom(n, start) % 2 == 0 && 2 <= FftLengthFrom(n, start)
    decreases 16 - start
  {
    if start < 16 && Pow2(start) <= n {
      FftLengthIsEven(n, start + 1);
    }
  }

  /** At least two samples take the FFT length to at least 8, so it keeps at least four bins. */
  lemma {:induction false} LongEsfHasFourBins(n: nat, start: nat)
    requires 2 <= n && start <= 16
    ensures 8 <= FftLengthFrom(n, start)
    decreases 16 - start
  {
    if start < 16 {
      if Pow2(start) > n {
        assert Pow2(0) == 1 && Pow2(1) == 2;
        Pow2Rises(2, start);
      } else {
        LongEsfHasFourBins(n, start + 1);
      }
    }
  }

  // ---------------------------------------------------------------------------
  // MTFCurve.

  /** pixelSize (um), the oversampling factor and the MtfFrequency combo index. */
  datatype MtfSettings = MtfSettings(pixelSize: real, oversampling: int, frequencyIndex: int)

  /** FFT, frequency axis, the two sinc corrections, the optical MTF and the plot's frequency_max. */
  datatype MtfResult = MtfResult(fft: seq<Num>, frequency: seq<Num>, detector: seq<Num>,
                                 truncation: seq<Num>, optical: seq<Num>, frequencyMax: real)

  /** sampling_interval: the pixel pitch in mm times the grid's extent, per ESF sample. */
  function SamplingInterval(pixelSize: real, position: seq<real>, n: nat): (d: real)
    requires position != [] && 0 < n
    ensures d == 0.0 <==> pixelSize == 0.0 || MaxOf(position) == MinOf(position)
    ensures 0.0 <= pixelSize ==> 0.0 <= d
  {
    var pitch := pixelSize / 1000.0;
    var extent := MaxOf(position) - MinOf(position);
    assert 0.0 <= extent by {
      assert MinOf(position) <= position[0] <= MaxOf(position);
    }
    assert pitch * extent == 0.0 <==> pitch == 0.0 || extent == 0.0;
    assert 0.0 <= pitch ==> 0.0 <= pitch * extent;
    pitch * extent / n as real
  }

  /** fftfreq's step 1 / (N d): infinite when d is 0. */
  function FrequencyStep(len: nat, d: real): (f: Num)
    requires 0 < len
    ensures f == Inf <==> d == 0.0
    ensures 0.0 < d ==> f.Fin? && 0.0 < f.r
    ensures d != 0.0 ==> f.Fin? && f.r * len as real * d == 1.0
  {
    if d == 0.0 then Inf else Fin(1.0 / (len as real * d))
  }

  /** The first half of np.fft.fftfreq(N, d): bin k at k / (N d). */
  function Frequencies(len: nat, d: real): (f: seq<Num>)
    requires 0 < len
    ensures |f| == len / 2
  {
    seq(len / 2, k requires 0 <= k < len / 2 => Scale(k as real, FrequencyStep(len, d)))
  }

  /** The first half of |np.fft.fft(LSF, N)|. */
  function FftHalf(lib: Lib, lsf: seq<real>, len: nat): (f: seq<Num>)
    ensures |f| == len / 2
  {
    seq(len / 2, k requires 0 <= k < len / 2 => Fin(lib.fftBin(lsf, len, k)))
  }

  /**
   * misc.sinc on a float64: NaN passes the "== 0" test as unequal and comes
   * out NaN; math.sin of an infinite argument raises ValueError; a zero
   * pixel pitch divides by zero first.
   */
  function SincOf(lib: Lib, pixelSize: real, v: Num): (r: Result<Num>)
    ensures v == Fin(0.0) ==> r == Ok(Fin(1.0))
    ensures v != Fin(0.0) && pixelSize == 0.0 ==> r == Err(ZeroDivisionError)
    ensures v == Inf ==> r.Err?
    ensures v == NaN && pixelSize != 0.0 ==> r == Ok(NaN)
    ensures r.Err? ==> r.error == ZeroDivisionError || r.error == ValueError
  {
    match v
    case Fin(x) =>
      var s :- Sinc(lib, pixelSize, x);
      Ok(Fin(s))
    case NaN => if pixelSize == 0.0 then Err(ZeroDivisionError) else Ok(NaN)
    case Inf => if pixelSize == 0.0 then Err(ZeroDivisionError) else Err(ValueError)
  }

  /** The truncation sinc's argument (width10_90 * f) / oversampling. */
  function TruncationArgument(width: real, oversampling: int, f: Num): Num
  {
    Div(Scale(width, f), Fin(oversampling as real))
  }

  /** One bin's detector sinc, then its truncation sinc. */
  function BinSincs(lib: Lib, cfg: MtfSettings, width: real, f: Num): Result<(Num, Num)>
  {
    var detector :- SincOf(lib, cfg.pixelSize, f);
    var truncation :- SincOf(lib, cfg.pixelSize, TruncationArgument(width, cfg.oversampling, f));
    Ok((detector, truncation))
  }

  /** The two corrections as one function of the bin's frequency. */
  function Sincs(lib: Lib, cfg: MtfSettings, width: real): (g: Num -> Result<(Num, Num)>)
    ensures forall f :: g(f) == BinSincs(lib, cfg, width, f)
  {
    f => BinSincs(lib, cfg, width, f)
  }

  /**
   * A loop over the first n frequencies appending g's two values to two
   * lists; the first exception ends it.
   */
  function Gather(g: Num -> Result<(Num, Num)>, freq: seq<Num>, n: nat): (r: Result<(seq<Num>, seq<Num>)>)
    requires n <= |freq|
    ensures r.Ok? ==> |r.value.0| == |r.value.1| == n
    decreases n
  {
    if n == 0 then Ok(([], []))
    else
      var lists :- Gather(g, freq, n - 1);
      var pair :- g(freq[n - 1]);
      Ok((lists.0 + [pair.0], lists.1 + [pair.1]))
  }

  /** detector_mtf and truncation_mtf over the whole frequency axis. */
  function SincLists(lib: Lib, cfg: MtfSettings, width: real, freq: seq<Num>): (r: Result<(seq<Num>, seq<Num>)>)
    ensures r.Ok? ==> |r.value.0| == |r.value.1| == |freq|
  {
    Gather(Sincs(lib, cfg, width), freq, |freq|)
  }

  /** frequency_max for the combo index; an index other than 0 or 1 leaves it unbound. */
  function FrequencyMax(pixelSize: real, index: int): (r: Result<Option<real>>)
    ensures r.Err? <==> (index == 0 || index == 1) && pixelSize == 0.0
  {
    if index != 0 && index != 1 then Ok(None)
    else if pixelSize == 0.0 then Err(ZeroDivisionError)
    else if index == 0 then Ok(Some((1000.0 / pixelSize) / 4.0))
    else Ok(Some((1000.0 / pixelSize) / 2.0))
  }

  /** a / b elementwise. */
  function DivAll(a: seq<Num>, b: seq<Num>): (r: seq<Num>)
    requires |a| == |b|
    ensures |r| == |a| && forall k | 0 <= k < |a| :: r[k] == Div(a[k], b[k])
  {
    seq(|a|, k requires 0 <= k < |a| => Div(a[k], b[k]))
  }

  /** a / a[0] elementwise. */
  function Normalise(a: seq<Num>): (r: seq<Num>)
    requires a != []
    ensures |r| == |a| && forall k | 0 <= k < |a| :: r[k] == Div(a[k], a[0])
  {
    seq(|a|, k requires 0 <= k < |a| => Div(a[k], a[0]))
  }

  /**
   * MTFCurve on the fitted ESF (position, data) and its LSF. It runs only
   * after np.gradient succeeded, so the ESF has at least two samples.
   * max() of an empty grid raises ValueError.
   */
  function MtfOf(lib: Lib, cfg: MtfSettings, width: real, position: seq<real>, data: seq<real>, lsf: seq<real>): (r: Result<MtfResult>)
    requires 2 <= |data|
    ensures r.Ok? ==> 4 <= |r.value.fft|
  {
    var len := FftLength(|data|);
    LongEsfHasFourBins(|data|, 0);
    if position == [] then Err(ValueError)
    else
      var d := SamplingInterval(cfg.pixelSize, position, |data|);
      Corrected(lib, cfg, width, FftHalf(lib, lsf, len), Frequencies(len, d))
  }

  /**
   * From the FFT magnitudes and the frequency axis: frequency_max, the sinc
   * loop, FFT / truncation_mtf, its normalisation by bin 0, and the optical
   * MTF FFT / detector_mtf. The plot call reads frequency_max last.
   */
  function Corrected(lib: Lib, cfg: MtfSettings, width: real, fft: seq<Num>, freq: seq<Num>): (r: Result<MtfResult>)
    requires |fft| == |freq| && fft != []
    ensures r.Ok? ==> var m := r.value;
      && m.frequency == freq && |m.fft| == |m.detector| == |m.truncation| == |m.optical| == |freq|
  {
    var fmax :- FrequencyMax(cfg.pixelSize, cfg.frequencyIndex);
    var sincs :- SincLists(lib, cfg, width, freq);
    var corrected := Normalise(DivAll(fft, sincs.1));
    var optical := DivAll(corrected, sincs.0);
    if fmax.None? then Err(UnboundName)
    else Ok(MtfResult(corrected, freq, sincs.0, sincs.1, optical, fmax.value))
  }

  // ---------------------------------------------------------------------------
  // Properties.

  /** Both sinc corrections are exactly 1 at frequency 0, whatever the pixel pitch. */
  lemma SincsAreOneAtZero(lib: Lib, cfg: MtfSettings, width: real)
    requires cfg.oversampling != 0
    ensures SincOf(lib, cfg.pixelSize, Fin(0.0)) == Ok(Fin(1.0))
    ensures SincOf(lib, cfg.pixelSize, TruncationArgument(width, cfg.oversampling, Fin(0.0))) == Ok(Fin(1.0))
  {
    assert width * 0.0 == 0.0;
  }

  /** The loop succeeds exactly when g succeeds on every bin, and stores g's values in order. */
  lemma {:induction false} GatherPointwise(g: Num -> Result<(Num, Num)>, freq: seq<Num>, n: nat)
    requires n <= |freq|
    ensures Gather(g, freq, n).Ok? <==> forall k | 0 <= k < n :: g(freq[k]).Ok?
    ensures Gather(g, freq, n).Ok? ==> forall k | 0 <= k < n ::
      Gather(g, freq, n).value.0[k] == g(freq[k]).value.0 && Gather(g, freq, n).value.1[k] == g(freq[k]).value.1
    decreases n
  {
    if n > 0 {
      GatherPointwise(g, freq, n - 1);
    }
  }

  /** Once the loop fails, it fails with the same error for every longer run. */
  lemma {:induction false} GatherStops(g: Num -> Result<(Num, Num)>, freq: seq<Num>, m: nat, n: nat)
    requires m <= n <= |freq|
    requires Gather(g, freq, m).Err?
    ensures Gather(g, freq, n) == Gather(g, freq, m)
    decreases n
  {
    if m < n {
      GatherStops(g, freq, m, n - 1);
    }
  }

  /**
   * At frequency 0 with a non-zero DC magnitude and oversampling, the
   * corrected MTF and the optical MTF are exactly 1.
   */
  lemma CorrectedIsOneAtZero(lib: Lib, cfg: MtfSettings, width: real, fft: seq<Num>, freq: seq<Num>)
    requires |fft| == |freq| && fft != []
    requires freq[0] == Fin(0.0) && fft[0].Fin? && fft[0].r != 0.0 && cfg.oversampling != 0
    requires Corrected(lib, cfg, width, fft, freq).Ok?
    ensures var m := Corrected(lib, cfg, width, fft, freq).value;
      && m.detector[0] == Fin(1.0) && m.truncation[0] == Fin(1.0)
      && m.fft[0] == Fin(1.0) && m.optical[0] == Fin(1.0)
  {
    var fmax := FrequencyMax(cfg.pixelSize, cfg.frequencyIndex).value;
    var sincs := SincLists(lib, cfg, width, freq).value;
    GatherPointwise(Sincs(lib, cfg, width), freq, |freq|);
    SincsAreOneAtZero(lib, cfg, width);
    assert sincs.0[0] == Fin(1.0) && sincs.1[0] == Fin(1.0);
    var x := fft[0].r;
    DivideByOneAndSelf(x);
    var c := DivAll(fft, sincs.1);
    assert c[0] == Fin(x);
    var n := Normalise(c);
    assert n[0] == Fin(1.0);
    assert Corrected(lib, cfg, width, fft, freq) == Ok(MtfResult(n, freq, sincs.0, sincs.1, DivAll(n, sincs.0), fmax.value));
  }

  /** A non-zero float divided by 1 is itself, and by itself is 1. */
  lemma DivideByOneAndSelf(x: real)
    requires x != 0.0
    ensures Div(Fin(x), Fin(1.0)) == Fin(x) && Div(Fin(x), Fin(x)) == Fin(1.0) && Div(Fin(1.0), Fin(1.0)) == Fin(1.0)
  {
    assert x / 1.0 == x;
    assert x / x == 1.0;
  }

  /**
   * The normalisation: with a non-zero sampling interval and oversampling
   * and a non-zero DC magnitude, the MTF and the optical MTF are exactly 1
   * at frequency 0, where both sinc corrections are 1.
   */
  lemma MtfIsOneAtZero(lib: Lib, cfg: MtfSettings, width: real, position: seq<real>, data: seq<real>, lsf: seq<real>)
    requires 2 <= |data| && position != []
    requires SamplingInterval(cfg.pixelSize, position, |data|) != 0.0 && cfg.oversampling != 0
    requires lib.fftBin(lsf, FftLength(|data|), 0) != 0.0
    requires MtfOf(lib, cfg, width, position, data, lsf).Ok?
    ensures var m := MtfOf(lib, cfg, width, position, data, lsf).value;
      && m.frequency[0] == Fin(0.0) && m.detector[0] == Fin(1.0) && m.truncation[0] == Fin(1.0)
      && m.fft[0] == Fin(1.0) && m.optical[0] == Fin(1.0)
  {
    var len := FftLength(|data|);
    LongEsfHasFourBins(|data|, 0);
    var d := SamplingInterval(cfg.pixelSize, position, |data|);
    var freq := Frequencies(len, d);
    var fft := FftHalf(lib, lsf, len);
    assert freq[0] == Fin(0.0);
    CorrectedIsOneAtZero(lib, cfg, width, fft, freq);
  }

  /**
   * A grid of zero extent makes the sampling interval 0: fftfreq turns bin 1
   * into infinity, and math.sin raises ValueError in its detector sinc
   * (bin 0 is NaN and passes without raising).
   */
  lemma FlatGridFails(lib: Lib, cfg: MtfSettings, width: real, position: seq<real>, data: seq<real>, lsf: seq<real>)
    requires 2 <= |data| && position != []
    requires SamplingInterval(cfg.pixelSize, position, |data|) == 0.0
    requires cfg.pixelSize != 0.0 && (cfg.frequencyIndex == 0 || cfg.frequencyIndex == 1)
    ensures MtfOf(lib, cfg, width, position, data, lsf) == Err(ValueError)
  {
    var len := FftLength(|data|);
    LongEsfHasFourBins(|data|, 0);
    var freq := Frequencies(len, 0.0);
    assert freq[0] == NaN && freq[1] == Inf;
    var g := Sincs(lib, cfg, width);
    assert g(freq[0]).Ok? && g(freq[1]) == Err(ValueError);
    assert Gather(g, freq, 2) == Err(ValueError);
    GatherStops(g, freq, 2, |freq|);
  }

  /** With a positive sampling interval the frequency axis rises from 0 in equal steps of 1 / (N d). */
  lemma FrequenciesRise(len: nat, d: real, j: nat, k: nat)
    requires 0 < len && 0.0 < d && j < k < len / 2
    ensures Frequencies(len, d)[j].Fin? && Frequencies(len, d)[k].Fin?
    ensures Frequencies(len, d)[0] == Fin(0.0)
    ensures Frequencies(len, d)[j].r < Frequencies(len, d)[k].r
  {
    var step := 1.0 / (len as real * d);
    assert 0.0 < step;
    assert j as real * step < k as real * step;
  }

  // ---------------------------------------------------------------------------
  // The procedure.

  /** The for loop over range(16) with its break. */
  method ChooseFftLength(n: nat) returns (len: nat)
    ensures len == FftLength(n)
  {
    len := 64;
    for i := 0 to 16
      invariant FftLengthFrom(n, i) == FftLength(n)
    {
      if Pow2(i) > n {
        len := Pow2(i + 1);
        return;
      }
    }
  }

  /** The for loop appending each bin's detector and truncation sinc. */
  method SincLoop(lib: Lib, cfg: MtfSettings, width: real, freq: seq<Num>) returns (r: Result<(seq<Num>, seq<Num>)>)
    ensures r == SincLists(lib, cfg, width, freq)
  {
    ghost var g := Sincs(lib, cfg, width);
    var detector, truncation := [], [];
    for k := 0 to |freq|
      invariant Gather(g, freq, k) == Ok((detector, truncation))
    {
      var ds := SincOf(lib, cfg.pixelSize, freq[k]);
      if ds.Err? {
        GatherStops(g, freq, k + 1, |freq|);
        return Err(ds.error);
      }
      var ts := SincOf(lib, cfg.pixelSize, TruncationArgument(width, cfg.oversampling, freq[k]));
      if ts.Err? {
        GatherStops(g, freq, k + 1, |freq|);
        return Err(ts.error);
      }
      detector, truncation := detector + [ds.value], truncation + [ts.value];
    }
    return Ok((detector, truncation));
  }

  /** MTFCurve: FFT length, axis, the corrections, then the normalisations. */
  method MtfCurve(lib: Lib, cfg: MtfSettings, width: real, position: seq<real>, data: seq<real>, lsf: seq<real>)
    returns (r: Result<MtfResult>)
    requires 2 <= |data|
    ensures r == MtfOf(lib, cfg, width, position, data, lsf)
  {
    var len := ChooseFftLength(|data|);
    FftLengthIsEven(|data|, 0);
    LongEsfHasFourBins(|data|, 0);
    if position == [] {
      return Err(ValueError);
    }
    var d := SamplingInterval(cfg.pixelSize, position, |data|);
    var fft := FftHalf(lib, lsf, len);
    var freq := Frequencies(len, d);
    var fmax := FrequencyMax(cfg.pixelSize, cfg.frequencyIndex);
    if fmax.Err? {
      return Err(fmax.error);
    }
    var sincs := SincLoop(lib, cfg, width, freq);
    if sincs.Err? {
      return Err(sincs.error);
    }
    var corrected := Normalise(DivAll(fft, sincs.value.1));
    var optical := DivAll(corrected, sincs.value.0);
    if fmax.value.None? {
      return Err(UnboundName);
    }
    return Ok(MtfResult(corrected, freq, sincs.value.0, sincs.value.1, optical, fmax.value.value));
  }
}
