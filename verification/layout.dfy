/**
 Where each point goes on the 1200x800 canvas and how large it is.

 The horizontal position depends only on the point's index among the
 filtered measurements; the vertical position on its temperature anomaly,
 measured up from the gray zero line across the middle of the image; the
 radius on the size of the anomaly. Arithmetic is exact (`real`), where the
 program uses IEEE doubles.
 */
module Layout {

  const ImageWidth: int := 1200
  const ImageHeight: int := 800
  const WaveAmplitudeScale: real := 200.0

  const XStart: real := 50.0
  const XEnd: real := ImageWidth as real - 50.0
  const XRange: real := XEnd - XStart
  const CenterY: real := ImageHeight as real / 2.0

  /** The horizontal position of point `i` of `n`: the points divide the
      band from `XStart` to `XEnd` into `n` equal steps, the first point on
      its left edge and the last one step short of its right edge. */
  function X(i: nat, n: nat): (x: real)
    requires i < n
    ensures XStart <= x < XEnd
    ensures i == 0 <==> x == XStart
  {
    XStart + (i as real / n as real) * XRange
  }

  /** Later points lie strictly further right. */
  lemma {:induction false} XStrictlyIncreasing(i: nat, j: nat, n: nat)
    requires i < j < n
    ensures X(i, n) < X(j, n)
  {
    assert i as real / n as real < j as real / n as real;
  }

  /** Neighbouring points are one `XRange / n` apart. */
  lemma {:induction false} XEvenlySpaced(i: nat, n: nat)
    requires i + 1 < n
    ensures X(i + 1, n) - X(i, n) == XRange / n as real
  {
    assert (i + 1) as real / n as real - i as real / n as real == 1.0 / n as real;
  }

  /** The vertical position of a temperature anomaly: canvas `y` grows
      downwards, so a warmer anomaly sits higher. */
  function Y(temp: real): (y: real)
    ensures y == CenterY <==> temp == 0.0
    ensures y < CenterY <==> temp > 0.0
  {
    CenterY - temp * WaveAmplitudeScale
  }

  /** The anomaly a vertical position stands for; undoes `Y`. */
  function TempAtY(y: real): real
  {
    (CenterY - y) / WaveAmplitudeScale
  }

  /** `Y` is a bijection between anomalies and heights. */
  lemma {:induction false} YRoundTrip(temp: real, y: real)
    ensures TempAtY(Y(temp)) == temp
    ensures Y(TempAtY(y)) == y
  {
  }

  /** A higher anomaly is drawn strictly higher. */
  lemma {:induction false} YStrictlyDecreasing(t1: real, t2: real)
    requires t1 < t2
    ensures Y(t2) < Y(t1)
  {
  }

  function Abs(t: real): (a: real)
    ensures a >= 0.0
    ensures a == t || a == -t
  {
    if t < 0.0 then -t else t
  }

  /** The dot radius: never below 4, exactly 4 at zero anomaly. */
  function Radius(temp: real): (r: real)
    ensures r >= 4.0
    ensures r == 4.0 <==> temp == 0.0
  {
    4.0 + Abs(temp) * 3.0
  }

  /** Equal anomalies of either sign get equal dots, and a larger anomaly a
      larger dot. */
  lemma {:induction false} RadiusSymmetricMonotone(t1: real, t2: real)
    ensures Radius(t1) == Radius(-t1)
    ensures Abs(t1) <= Abs(t2) <==> Radius(t1) <= Radius(t2)
  {
  }

  /** The rectangle `[x0, y0, x1, y1]` an ellipse is inscribed in. */
  datatype Box = Box(x0: real, y0: real, x1: real, y1: real)

  /** The bounding box of a dot: a square of side `2 * radius` centred on
      the point, so the ellipse drawn in it is a circle of that radius. */
  function DotBox(x: real, y: real, radius: real): (b: Box)
    ensures (b.x0 + b.x1) / 2.0 == x && (b.y0 + b.y1) / 2.0 == y
    ensures b.x1 - b.x0 == 2.0 * radius && b.y1 - b.y0 == 2.0 * radius
  {
    Box(x - radius, y - radius, x + radius, y + radius)
  }

  /** The gray reference line, from `(XStart, CenterY)` to `(XEnd, CenterY)`. */
  datatype Segment = Segment(xa: real, ya: real, xb: real, yb: real)

  const CenterLine: Segment := Segment(XStart, CenterY, XEnd, CenterY)

  predicate OnSegment(s: Segment, x: real, y: real)
    requires s.ya == s.yb
  {
    s.xa <= x <= s.xb && y == s.ya
  }

  /** A point is centred on the gray line exactly when its anomaly is zero. */
  lemma {:induction false} ZeroAnomalyOnCenterLine(i: nat, n: nat, temp: real)
    requires i < n
    ensures OnSegment(CenterLine, X(i, n), Y(temp)) <==> temp == 0.0
  {
  }
}
