/**
 * The shared numeric helpers of MISC/Misc_Functions.py: the detector sinc,
 * polynomial evaluation, the Savitzky-Golay smoother, the two end points of a
 * fitted line, the logistic model and the 2-D rotation.
 */
module Misc {
  import opened Numerics

  /**
   * sinc(ui, value): exactly 1 at frequency 0; otherwise sin(pi r)/(pi r) where
   * r is the frequency times the pixel pitch in millimetres. A zero pixel pitch
   * divides by zero in Python, unless the value is 0.
   */
  function Sinc(lib: Lib, pixelSize: real, value: real): (r: Result<real>)
    ensures value == 0.0 ==> r == Ok(1.0)
    ensures value != 0.0 && pixelSize == 0.0 ==> r == Err(ZeroDivisionError)
    ensures value != 0.0 && pixelSize != 0.0 ==> r == Ok(NormalisedSinc(lib, PitchRatio(value, pixelSize)))
  {
    if value == 0.0 then Ok(1.0)
    else if pixelSize / 1000.0 == 0.0 then Err(ZeroDivisionError)
    else
      SincRatio(value, pixelSize);
      var spatialFrequency := 1.0 / (pixelSize / 1000.0);
      var ratio := value / spatialFrequency;
      Ok(Sin(lib, Pi * ratio) / (Pi * ratio))
  }

  /** sin(pi t) / (pi t), and 1 at t = 0. */
  function NormalisedSinc(lib: Lib, t: real): real
  {
    if t == 0.0 then 1.0
    else
      assert Pi * t != 0.0;
      Sin(lib, Pi * t) / (Pi * t)
  }

  /** A frequency times the pixel pitch in millimetres. */
  function PitchRatio(value: real, pixelSize: real): real
  {
    value * pixelSize / 1000.0
  }

  /** Dividing by the reciprocal of the pitch is multiplying by the pitch; non-zero for non-zero inputs. */
  lemma SincRatio(value: real, pixelSize: real)
    requires value != 0.0 && pixelSize != 0.0
    ensures 1.0 / (pixelSize / 1000.0) != 0.0
    ensures value / (1.0 / (pixelSize / 1000.0)) == PitchRatio(value, pixelSize) != 0.0
  {
    var p := pixelSize / 1000.0;
    assert p * (1.0 / p) == 1.0;
    assert 1.0 / p != 0.0;
    assert value / (1.0 / p) == value * p;
    assert value * p != 0.0;
  }

  function Pow(x: real, n: nat): real
  {
    if n == 0 then 1.0 else x * Pow(x, n - 1)
  }

  /** The polynomial with coefficients highest power first, evaluated by Horner's rule. */
  function Horner(coeffs: seq<real>, x: real): real
  {
    if coeffs == [] then 0.0
    else Horner(coeffs[..|coeffs| - 1], x) * x + coeffs[|coeffs| - 1]
  }

  /** The first k terms coeffs[i] * x^(o-1-i) of PolyCoefficients' sum. */
  function PowerTerms(coeffs: seq<real>, x: real, k: nat): real
    requires k <= |coeffs|
  {
    if k == 0 then 0.0
    else PowerTerms(coeffs, x, k - 1) + coeffs[k - 1] * Pow(x, |coeffs| - k)
  }

  /**
   * PolyCoefficients(x, coeffs): the value at x of the polynomial whose
   * coefficients are listed highest power first.
   */
  method PolyCoefficients(x: real, coeffs: seq<real>) returns (y: real)
    ensures y == Horner(coeffs, x)
    ensures coeffs == [] ==> y == 0.0
    ensures coeffs != [] && x == 0.0 ==> y == coeffs[|coeffs| - 1]
  {
    var o := |coeffs|;
    y := 0.0;
    for i := 0 to o
      invariant y == PowerTerms(coeffs, x, i)
    {
      y := y + coeffs[i] * Pow(x, o - 1 - i);
    }
    PowerTermsAreHorner(coeffs, x);
  }

  /** Appending a coefficient multiplies every earlier term by x. */
  lemma {:induction false} PowerTermsShift(p: seq<real>, a: real, x: real, k: nat)
    requires k <= |p|
    ensures PowerTerms(p + [a], x, k) == x * PowerTerms(p, x, k)
  {
    if k > 0 {
      PowerTermsShift(p, a, x, k - 1);
      assert (p + [a])[k - 1] == p[k - 1];
      assert Pow(x, |p| + 1 - k) == x * Pow(x, |p| - k);
    }
  }

  /** The power-sum PolyCoefficients computes is Horner's rule. */
  lemma {:induction false} PowerTermsAreHorner(coeffs: seq<real>, x: real)
    ensures PowerTerms(coeffs, x, |coeffs|) == Horner(coeffs, x)
  {
    if coeffs != [] {
      var p := coeffs[..|coeffs| - 1];
      var a := coeffs[|coeffs| - 1];
      assert coeffs == p + [a];
      PowerTermsAreHorner(p, x);
      PowerTermsShift(p, a, x, |p|);
    }
  }

  function Reverse(s: seq<real>): (r: seq<real>)
    ensures |r| == |s| && forall i | 0 <= i < |s| :: r[i] == s[|s| - 1 - i]
  {
    seq(|s|, i requires 0 <= i < |s| => s[|s| - 1 - i])
  }

  /** The sum over k < |v| of a[i + k] * v[k]. */
  function DotAt(a: seq<real>, v: seq<real>, i: nat): real
    requires i + |v| <= |a|
  {
    if v == [] then 0.0
    else DotAt(a, v[..|v| - 1], i) + a[i + |v| - 1] * v[|v| - 1]
  }

  /**
   * np.convolve(a, v, mode='valid'): the longer argument is slid under the
   * shorter one reversed; one output per full overlap.
   */
  function ConvolveValid(a: seq<real>, v: seq<real>): (r: seq<real>)
    requires |a| > 0 && |v| > 0
    ensures |v| <= |a| ==> |r| == |a| - |v| + 1
    ensures |a| < |v| ==> |r| == |v| - |a| + 1
  {
    var long := if |v| > |a| then v else a;
    var short := if |v| > |a| then a else v;
    seq(|long| - |short| + 1, i requires 0 <= i < |long| - |short| + 1 => DotAt(long, Reverse(short), i))
  }

  /** firstvals: y[0] - |y[k] - y[0]| for k from min(hw, n-1) down to 1. */
  function FrontPad(y: seq<real>, hw: nat): (r: seq<real>)
    requires |y| > 0
    ensures |r| == Min(hw, |y| - 1)
    ensures forall i | 0 <= i < |r| :: r[i] <= y[0]
  {
    var fc := Min(hw, |y| - 1);
    seq(fc, i requires 0 <= i < fc => y[0] - Abs(y[fc - i] - y[0]))
  }

  /** lastvals: y[-1] + |y[k] - y[-1]| for k from n-2 down to max(n-1-hw, 0). */
  function BackPad(y: seq<real>, hw: nat): (r: seq<real>)
    requires |y| > 0
    ensures |r| == Min(hw, |y| - 1)
    ensures forall i | 0 <= i < |r| :: y[|y| - 1] <= r[i]
  {
    var n := |y|;
    var bc := Min(hw, n - 1);
    seq(bc, i requires 0 <= i < bc => y[n - 1] + Abs(y[n - 2 - i] - y[n - 1]))
  }

  /** The Savitzky-Golay weights pinv(b).A[0] for a window and polynomial order. */
  function Weights(lib: Lib, window: nat, order: nat): (m: seq<real>)
    ensures |m| == window
  {
    seq(window, k requires 0 <= k < window => lib.sgWeight(window, order, k))
  }

  /**
   * savitzky_golay(y, window_size, order): the window and order are taken as
   * |int(.)|; a window that is even or below order + 2 raises TypeError; an
   * empty signal raises IndexError at y[0]; otherwise the signal is padded
   * at both ends and convolved in 'valid' mode with the reversed weights.
   */
  function SavitzkyGolay(lib: Lib, y: seq<real>, windowSize: int, order: int): (r: Result<seq<real>>)
    ensures var w, o := if windowSize < 0 then -windowSize else windowSize, if order < 0 then -order else order;
      && (r.Err? <==> w % 2 != 1 || w < o + 2 || y == [])
      && (r.Err? ==> r.error == TypeError || (r.error == IndexError && y == []))
      && (r.Ok? && (w - 1) / 2 < |y| ==> |r.value| == |y|)
  {
    var w := if windowSize < 0 then -windowSize else windowSize;
    var o := if order < 0 then -order else order;
    if w % 2 != 1 || w < 1 then Err(TypeError)
    else if w < o + 2 then Err(TypeError)
    else if y == [] then Err(IndexError)
    else
      var hw := (w - 1) / 2;
      var padded := FrontPad(y, hw) + y + BackPad(y, hw);
      Ok(ConvolveValid(Reverse(Weights(lib, w, o)), padded))
  }

  /**
   * The window the ESF stage passes, oversampling + 1 with order 3, is
   * refused with TypeError exactly when the oversampling is odd or below 4.
   */
  lemma SmoothingWindowAccepted(lib: Lib, y: seq<real>, oversampling: nat)
    ensures SavitzkyGolay(lib, y, oversampling + 1, 3) == Err(TypeError)
      <==> oversampling % 2 == 1 || oversampling < 4
    ensures y != [] && oversampling % 2 == 0 && 4 <= oversampling ==>
      SavitzkyGolay(lib, y, oversampling + 1, 3).Ok?
  {
  }

  /**
   * When the signal is at least half a window long, the smoothed signal has
   * the length of the input and sample i is the weighted sum of the padded
   * window centred on y[i].
   */
  lemma {:induction false} SmoothedSampleIsCentredWindow(lib: Lib, y: seq<real>, hw: nat, order: nat)
    requires order + 2 <= 2 * hw + 1
    requires hw + 1 <= |y|
    ensures
      var padded := FrontPad(y, hw) + y + BackPad(y, hw);
      var m := Weights(lib, 2 * hw + 1, order);
      var r := SavitzkyGolay(lib, y, 2 * hw + 1, order);
      && r.Ok? && |r.value| == |y|
      && (forall i | 0 <= i < |y| :: padded[i + hw] == y[i])
      && (forall i | 0 <= i < |y| :: r.value[i] == DotAt(padded, m, i))
  {
    var window := 2 * hw + 1;
    assert (window - 1) / 2 == hw;
    assert window % 2 == 1;
    var front := FrontPad(y, hw);
    var back := BackPad(y, hw);
    var padded := front + y + back;
    var m := Weights(lib, window, order);
    assert |front| == hw && |back| == hw;
    assert |padded| == |y| + 2 * hw;
    forall i | 0 <= i < |y|
      ensures padded[i + hw] == y[i]
    {
      assert padded[i + hw] == (front + y)[i + hw];
    }
    var r := SavitzkyGolay(lib, y, window, order);
    var rm := Reverse(m);
    assert r == Ok(ConvolveValid(rm, padded));
    assert |rm| < |padded|;
    assert Reverse(rm) == m;
    var rv := ConvolveValid(rm, padded);
    assert |rv| == |y|;
    forall i | 0 <= i < |y|
      ensures rv[i] == DotAt(padded, m, i)
    {
      assert rv[i] == DotAt(padded, Reverse(rm), i);
    }
  }

  /**
   * Where the signal rises away from its first sample, the front padding is
   * its point reflection through y[0] (an odd extension of the signal).
   */
  lemma FrontPadReflects(y: seq<real>, hw: nat)
    requires |y| > 0
    requires forall k | 0 < k < |y| :: y[0] <= y[k]
    ensures var fc := Min(hw, |y| - 1);
      forall i | 0 <= i < fc :: FrontPad(y, hw)[i] == 2.0 * y[0] - y[fc - i]
  {
    var fc := Min(hw, |y| - 1);
    var front := FrontPad(y, hw);
    forall i | 0 <= i < fc
      ensures front[i] == 2.0 * y[0] - y[fc - i]
    {
      assert front[i] == y[0] - Abs(y[fc - i] - y[0]);
      assert y[0] <= y[fc - i];
    }
  }

  /** get_line_from_equation(m, b): the integer points of the line at x = -1000 and x = 1000. */
  function LineFromEquation(m: real, b: real): (r: ((int, int), (int, int)))
    ensures r.0.0 == -1000 && r.1.0 == 1000
    ensures Abs(r.0.1 as real - (m * -1000.0 + b)) < 1.0
    ensures Abs(r.1.1 as real - (m * 1000.0 + b)) < 1.0
  {
    ((-1000, Trunc(m * -1000.0 + b)), (1000, Trunc(m * 1000.0 + b)))
  }

  /** f_logistic(x, a, b, c, d) = a / (1 + exp(-b (x - c))) + d. */
  function Logistic(lib: Lib, x: real, a: real, b: real, c: real, d: real): (r: real)
    ensures 0.0 < a ==> d < r < a + d
    ensures a < 0.0 ==> a + d < r < d
    ensures a == 0.0 ==> r == d
  {
    var e := lib.exp(-b * (x - c));
    LogisticBounds(a, e);
    a / (1.0 + e) + d
  }

  lemma LogisticBounds(a: real, e: real)
    requires 0.0 < e
    ensures 0.0 < a ==> 0.0 < a / (1.0 + e) < a
    ensures a < 0.0 ==> a < a / (1.0 + e) < 0.0
  {
    var q := a / (1.0 + e);
    assert q * (1.0 + e) == a;
    assert a - q == q * e;
  }

  datatype Point3 = Point3(x: real, y: real, z: real)

  /**
   * rotate2d(origin, point, angle): the point turned by angle degrees about the
   * origin in the x-y plane; the z coordinate of the result is 0.
   */
  function Rotate2d(lib: Lib, origin: Point3, point: Point3, angle: real): (q: Point3)
    ensures q.z == 0.0
    ensures point.x == origin.x && point.y == origin.y ==> q.x == origin.x && q.y == origin.y
  {
    Turn(lib.cis(Radians(angle)), origin, point)
  }

  /** The point turned about the origin by the rotation whose cosine and sine are cs. */
  function Turn(cs: UnitPair, origin: Point3, point: Point3): Point3
  {
    var (c, s) := cs;
    Point3(origin.x + c * (point.x - origin.x) - s * (point.y - origin.y),
           origin.y + s * (point.x - origin.x) + c * (point.y - origin.y),
           0.0)
  }

  function SquaredDistance(p: Point3, q: Point3): real
  {
    (p.x - q.x) * (p.x - q.x) + (p.y - q.y) * (p.y - q.y)
  }

  /**
   * norm(cross(p2 - p1, p1 - p3)) / norm(p2 - p1) for three points of the
   * plane z = 0: the distance from p3 to the line through p1 and p2.
   */
  function PointLineDistance(lib: Lib, p1: Point3, p2: Point3, p3: Point3): (d: real)
    requires p1.z == 0.0 && p2.z == 0.0 && p3.z == 0.0
    requires 0.0 < SquaredDistance(p1, p2)
    ensures 0.0 <= d
    ensures p3.x == p1.x && p3.y == p1.y ==> d == 0.0
  {
    var cross := (p2.x - p1.x) * (p1.y - p3.y) - (p2.y - p1.y) * (p1.x - p3.x);
    Sqrt(lib, cross * cross) / Sqrt(lib, SquaredDistance(p1, p2))
  }

  /** Rotating two points about one origin by one angle keeps their distance. */
  lemma RotationKeepsDistance(lib: Lib, origin: Point3, p: Point3, q: Point3, angle: real)
    ensures SquaredDistance(Rotate2d(lib, origin, p, angle), Rotate2d(lib, origin, q, angle))
      == SquaredDistance(p, q)
  {
    TurnKeepsDistance(lib.cis(Radians(angle)), origin, p, q);
  }

  lemma TurnKeepsDistance(cs: UnitPair, origin: Point3, p: Point3, q: Point3)
    ensures SquaredDistance(Turn(cs, origin, p), Turn(cs, origin, q)) == SquaredDistance(p, q)
  {
    var (c, s) := cs;
    var rp := Turn(cs, origin, p);
    var rq := Turn(cs, origin, q);
    var dx, dy := p.x - q.x, p.y - q.y;
    var ux, uy := rp.x - rq.x, rp.y - rq.y;
    assert ux == c * dx - s * dy && uy == s * dx + c * dy by {
      RotatedDifference(c, s, origin.x, origin.y, p.x, p.y, q.x, q.y);
    }
    RotatedSquares(c, s, dx, dy, ux, uy);
    assert SquaredDistance(rp, rq) == ux * ux + uy * uy;
  }

  /** The difference of two rotated points is the rotated difference. */
  lemma RotatedDifference(c: real, s: real, ox: real, oy: real, px: real, py: real, qx: real, qy: real)
    ensures (ox + c * (px - ox) - s * (py - oy)) - (ox + c * (qx - ox) - s * (qy - oy))
      == c * (px - qx) - s * (py - qy)
    ensures (oy + s * (px - ox) + c * (py - oy)) - (oy + s * (qx - ox) + c * (qy - oy))
      == s * (px - qx) + c * (py - qy)
  {
    assert c * (px - ox) - c * (qx - ox) == c * (px - qx);
    assert s * (py - oy) - s * (qy - oy) == s * (py - qy);
    assert s * (px - ox) - s * (qx - ox) == s * (px - qx);
    assert c * (py - oy) - c * (qy - oy) == c * (py - qy);
  }

  /** A difference (ux, uy) turned by the unit pair (c, s) keeps its squared length. */
  lemma RotatedSquares(c: real, s: real, dx: real, dy: real, ux: real, uy: real)
    requires c * c + s * s == 1.0
    requires ux == c * dx - s * dy && uy == s * dx + c * dy
    ensures ux * ux + uy * uy == dx * dx + dy * dy
  {
    assert ux * ux == c * c * (dx * dx) - 2.0 * (c * s) * (dx * dy) + s * s * (dy * dy);
    assert uy * uy == s * s * (dx * dx) + 2.0 * (c * s) * (dx * dy) + c * c * (dy * dy);
    assert c * c * (dx * dx) + s * s * (dx * dx) == (c * c + s * s) * (dx * dx);
    assert c * c * (dy * dy) + s * s * (dy * dy) == (c * c + s * s) * (dy * dy);
  }
}
