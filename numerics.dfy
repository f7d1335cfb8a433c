/**
 * Numeric ground the model stands on: the library numerics the bench
 * software calls (math, numpy, scipy) as function-typed parameters with only
 * the facts the proofs need, the outcome types, and Python's integer
 * conversions and index rules.
 */
module Numerics {

  /** Python's math.pi. */
  const Pi: real := 3.141592653589793

  type NonNeg = r: real | 0.0 <= r
  type Pos = r: real | 0.0 < r witness 1.0

  /** (cos t, sin t): the only trigonometric fact used is cos^2 + sin^2 = 1. */
  type UnitPair = p: (real, real) | p.0 * p.0 + p.1 * p.1 == 1.0 witness (1.0, 0.0)

  datatype Option<T> = None | Some(value: T)

  /** The exception a Python call raises, or a non-finite numpy value. */
  datatype Error =
    | IndexError          // an index at or past the end of an array or list
    | ValueError          // min()/max() of an empty sequence, too few samples
    | TypeError           // savitzky_golay's window checks
    | ZeroDivisionError   // Python division by zero
    | FitFailed           // scipy's curve_fit did not converge
    | UnboundName         // a local read before it was ever assigned
    | NotFinite           // numpy produced inf or NaN without raising
    | CvError             // cv2.error, raised by an OpenCV call

  datatype Result<T> = Ok(value: T) | Err(error: Error)
  {
    predicate IsFailure() { Err? }
    function PropagateFailure<U>(): Result<U>
      requires Err?
    {
      Err(error)
    }
    function Extract(): T
      requires Ok?
    {
      value
    }
  }

  /**
   * The library routines the core calls, each as a value: math.cos/sin (as one
   * unit pair), math.exp, math.atan, the square root in np.linalg.norm,
   * np.std, scipy's curve_fit of the logistic (its fitted centre popt[2], or
   * None when it raises), np.polyfit(x, y, 1) as (slope, intercept),
   * |np.fft.fft(x, n)[k]|, the Savitzky-Golay weights pinv(b).A[0][k],
   * np.percentile and pixel (i, j) of scipy's medfilt2d.
   */
  datatype Lib = Lib(
    cis: real -> UnitPair,
    exp: real -> Pos,
    atan: real -> real,
    sqrt: Pos -> Pos,
    std: seq<real> -> NonNeg,
    logisticCentre: (seq<real>, seq<real>, seq<real>) -> Option<real>,
    polyfit: (seq<real>, seq<real>) -> (real, real),
    fftBin: (seq<real>, nat, nat) -> NonNeg,
    sgWeight: (nat, nat, nat) -> real,
    percentile: (seq<seq<int>>, real) -> real,
    medfiltAt: (seq<seq<int>>, nat, nat) -> int
  )

  function Cos(lib: Lib, t: real): real { lib.cis(t).0 }
  function Sin(lib: Lib, t: real): real { lib.cis(t).1 }

  /** A square root: zero at zero, and positive on positive arguments. */
  function Sqrt(lib: Lib, r: NonNeg): (q: NonNeg)
    ensures q == 0.0 <==> r == 0.0
  {
    if r == 0.0 then 0.0 else lib.sqrt(r)
  }

  function Abs(r: real): (a: real)
    ensures 0.0 <= a && (a == r || a == -r)
  {
    if r < 0.0 then -r else r
  }

  function MaxR(a: real, b: real): (m: real)
    ensures a <= m && b <= m && (m == a || m == b)
  {
    if a < b then b else a
  }

  function Max(a: int, b: int): (m: int)
    ensures a <= m && b <= m && (m == a || m == b)
  {
    if a < b then b else a
  }

  function Min(a: int, b: int): (m: int)
    ensures m <= a && m <= b && (m == a || m == b)
  {
    if a < b then a else b
  }

  /** Python's int() on a float: truncation toward zero. */
  function Trunc(r: real): (t: int)
    ensures 0.0 <= r ==> t as real <= r < t as real + 1.0
    ensures r < 0.0 ==> t as real - 1.0 < r <= t as real
  {
    if 0.0 <= r || r.Floor as real == r then r.Floor else r.Floor + 1
  }

  /** Python 3's round() to an int: the nearest integer, ties to the even one. */
  function RoundHalfEven(r: real): (n: int)
    ensures Abs(r - n as real) <= 0.5
    ensures Abs(r - n as real) == 0.5 ==> n % 2 == 0
  {
    var f := r.Floor;
    var frac := r - f as real;
    if frac < 0.5 then f
    else if frac > 0.5 then f + 1
    else if f % 2 == 0 then f
    else f + 1
  }

  /** Python's a[i] on a sequence of length n: a negative index counts from the end. */
  function PyIndex(i: int, n: nat): (r: Option<nat>)
    ensures r.Some? <==> -(n as int) <= i < n
    ensures r.Some? ==> r.value < n && (0 <= i ==> r.value == i) && (i < 0 ==> r.value == i + n)
  {
    if 0 <= i < n then Some(i)
    else if -(n as int) <= i < 0 then Some(i + n)
    else None
  }

  /** One end of a Python slice a[lo:hi] on a sequence of length n. */
  function SliceEnd(i: int, n: nat): (e: nat)
    ensures e <= n
    ensures 0 <= i <= n ==> e == i
    ensures n < i ==> e == n
    ensures i < 0 ==> e == Max(i + n, 0)
  {
    if i < 0 then (if i + n < 0 then 0 else i + n)
    else if i > n then n
    else i
  }

  /** The index range [start, stop) a Python slice a[lo:hi] selects; empty when lo >= hi. */
  function SliceRange(lo: int, hi: int, n: nat): (r: (nat, nat))
    ensures r.0 <= r.1 <= n
    ensures 0 <= lo <= hi <= n ==> r == (lo, hi)
    ensures 0 <= lo && 0 <= hi ==> r.1 - r.0 <= Max(hi - lo, 0)
  {
    var s := SliceEnd(lo, n);
    var e := SliceEnd(hi, n);
    if s <= e then (s, e) else (s, s)
  }

  /** Sum of a sequence of reals, first element first. */
  function Sum(s: seq<real>): real
  {
    if s == [] then 0.0 else Sum(s[..|s| - 1]) + s[|s| - 1]
  }

  /** The smallest and largest elements of a non-empty sequence (Python's min and max). */
  function MinOf(s: seq<real>): (m: real)
    requires s != []
    ensures forall i | 0 <= i < |s| :: m <= s[i]
  {
    if |s| == 1 then s[0]
    else
      var rest := MinOf(s[1..]);
      assert forall i | 1 <= i < |s| :: s[i] == s[1..][i - 1];
      if s[0] <= rest then s[0] else rest
  }

  function MaxOf(s: seq<real>): (m: real)
    requires s != []
    ensures forall i | 0 <= i < |s| :: s[i] <= m
  {
    if |s| == 1 then s[0]
    else
      var rest := MaxOf(s[1..]);
      assert forall i | 1 <= i < |s| :: s[i] == s[1..][i - 1];
      if rest <= s[0] then s[0] else rest
  }

  /** Degrees from radians, as math.degrees does. */
  function Degrees(r: real): real { r * (180.0 / Pi) }

  /** Radians from degrees, as math.radians does. */
  function Radians(d: real): real { d * (Pi / 180.0) }

  /** Integers as reals, elementwise. */
  function Reals(s: seq<int>): (r: seq<real>)
    ensures |r| == |s| && forall i | 0 <= i < |s| :: r[i] == s[i] as real
  {
    seq(|s|, i requires 0 <= i < |s| => s[i] as real)
  }

  /** int() of the mean of k integers between lo and hi stays between lo and hi. */
  lemma TruncOfMean(sum: int, k: nat, lo: int, hi: int)
    requires 0 < k
    requires k * lo <= sum <= k * hi
    ensures lo <= Trunc(sum as real / k as real) <= hi
  {
    var m := sum as real / k as real;
    assert m * k as real == sum as real;
    assert (k * lo) as real == k as real * lo as real;
    assert (k * hi) as real == k as real * hi as real;
    assert lo as real <= m;
    assert m <= hi as real;
  }
}
