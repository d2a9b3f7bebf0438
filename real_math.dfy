/**
  Real-number helpers shared by the kinematics and the animation model.

  The source computes cos, sin, asin and powers of two through `math`/`numpy`.
  They are not definable here, so every operation that needs them takes a
  `Math` value holding the four functions, and each lemma states, as a
  `requires`, only the identities it relies on.
 */
module RealMath {

  /** The double-precision value of pi used by `math.pi` / `np.pi`. */
  const PI: real := 3.141592653589793

  datatype Math = Math(
    cos: real -> real,
    sin: real -> real,
    asin: real -> real,
    exp2: real -> real)

  /** cos(0) = 1 and cos(pi) = -1. */
  predicate CosEndpoints(m: Math)
  {
    m.cos(0.0) == 1.0 && m.cos(PI) == -1.0
  }

  /** cos(0) = 1 and sin(0) = 0. */
  predicate TrigAtZero(m: Math)
  {
    m.cos(0.0) == 1.0 && m.sin(0.0) == 0.0
  }

  /** cos(a)^2 + sin(a)^2 = 1 at the one angle a. */
  predicate OnUnitCircle(m: Math, a: real)
  {
    m.cos(a) * m.cos(a) + m.sin(a) * m.sin(a) == 1.0
  }

  function Abs(x: real): (r: real)
    ensures r >= 0.0 && (r == x || r == -x)
  {
    if x < 0.0 then -x else x
  }

  function Min(a: real, b: real): (r: real)
    ensures r <= a && r <= b && (r == a || r == b)
  {
    if a <= b then a else b
  }

  function Max(a: real, b: real): (r: real)
    ensures r >= a && r >= b && (r == a || r == b)
  {
    if a >= b then a else b
  }

  /** `np.clip(x, lo, hi)`: min(max(x, lo), hi). */
  function Clip(x: real, lo: real, hi: real): (r: real)
    requires lo <= hi
    ensures lo <= r <= hi
    ensures lo <= x <= hi ==> r == x
    ensures x <= lo ==> r == lo
    ensures x >= hi ==> r == hi
  {
    Min(Max(x, lo), hi)
  }

  /** `math.radians(d)`. */
  function Radians(d: real): real
  {
    d * PI / 180.0
  }

  /** If c^2 <= 1 then -1 <= c <= 1. */
  lemma SquareAtMostOne(c: real, s: real)
    requires c * c + s * s == 1.0
    ensures -1.0 <= c <= 1.0
  {
    assert (1.0 - c) * (1.0 + c) == s * s >= 0.0;
  }

  /** Multiplying by a nonnegative factor keeps an inequality. */
  lemma MulLeftMono(a: real, x: real, y: real)
    requires a >= 0.0 && x <= y
    ensures a * x <= a * y
    ensures a > 0.0 && x < y ==> a * x < a * y
  {
    assert a * y - a * x == a * (y - x);
  }

  /** Where a quotient by a positive number lies relative to 0 and 1. */
  lemma QuotientBounds(n: real, d: real)
    requires d > 0.0
    ensures (n / d) * d == n
    ensures n / d <= 0.0 <==> n <= 0.0
    ensures n / d >= 1.0 <==> n >= d
  {
    var q := n / d;
    assert q * d == n;
    assert d * q == n;
    if q > 0.0 { MulLeftMono(d, 0.0, q); }
    if q < 0.0 { MulLeftMono(d, q, 0.0); }
    assert d * 1.0 == d;
    if q > 1.0 { MulLeftMono(d, 1.0, q); assert n > d; }
    if q < 1.0 { MulLeftMono(d, q, 1.0); assert n < d; }
  }

  /** On [0, h], x^2 <= h x and x^3 <= h^2 x. */
  lemma PowerBounds(x: real, h: real)
    requires 0.0 <= x <= h
    ensures 0.0 <= x * x <= h * x
    ensures 0.0 <= x * x * x <= h * h * x
  {
    MulLeftMono(x, 0.0, x);
    MulLeftMono(x, x, h);
    MulLeftMono(x, x * x, h * x);
    MulLeftMono(h, x * x, h * x);
    MulLeftMono(x * x, 0.0, x);
    assert x * (x * x) == x * x * x;
    assert x * (h * x) == h * (x * x);
    assert h * (h * x) == h * h * x;
  }

  /** x^2 and x^3 are nondecreasing on nonnegative reals. */
  lemma PowersMonotone(a: real, b: real)
    requires 0.0 <= a <= b
    ensures a * a <= b * b
    ensures a * a * a <= b * b * b
  {
    MulLeftMono(a, a, b);
    MulLeftMono(b, a, b);
    assert a * b == b * a;
    MulLeftMono(a * a, a, b);
    MulLeftMono(b, a * a, b * b);
    assert a * a * b == b * (a * a);
    assert b * (b * b) == b * b * b;
  }
}
