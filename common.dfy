/** Helpers shared by every part of the model: an Option type, Python's
    truncating int(), small clamps, and the way random draws are modelled.

    Every call to Python's `random` module is modelled as a "unit draw": a real
    number u with 0 <= u < 1 that the caller passes in. The operations of the
    `random` module are then functions of that draw, so a contract that holds
    for every draw holds whatever the random generator returns. */
module Common {

  datatype Option<T> = None | Some(value: T)
  {
    function GetOr(default: T): T
    {
      match this
      case Some(v) => v
      case None => default
    }
  }

  /** Python's int(x) for a float x: rounds toward zero. */
  function Trunc(x: real): (r: int)
    ensures 0.0 <= x ==> 0 <= r && r as real <= x < r as real + 1.0
    ensures x <= 0.0 ==> r <= 0 && r as real - 1.0 < x <= r as real
  {
    if x >= 0.0 then x.Floor else -((-x).Floor)
  }

  /** Truncation never leaves the integer interval that holds its argument. */
  lemma TruncBetween(x: real, lo: int, hi: int)
    requires lo as real <= x <= hi as real
    ensures lo <= Trunc(x) <= hi
  {
  }

  function Min(a: int, b: int): int { if a <= b then a else b }

  function Max(a: int, b: int): int { if a >= b then a else b }

  function Abs(x: int): nat { if x < 0 then -x else x }

  /** The distance between two integers. */
  function Dist(a: int, b: int): nat { if a <= b then b - a else a - b }

  function MinReal(a: real, b: real): real { if a <= b then a else b }

  function MaxReal(a: real, b: real): real { if a >= b then a else b }

  /** Python's max(lo, min(hi, x)). */
  function Clamp(x: int, lo: int, hi: int): (r: int)
    requires lo <= hi
    ensures lo <= r <= hi
    ensures lo <= x <= hi ==> r == x
    ensures x < lo ==> r == lo
    ensures hi < x ==> r == hi
  {
    Max(lo, Min(hi, x))
  }

  /** Python's max(lo, min(hi, x)) on floats. */
  function ClampReal(x: real, lo: real, hi: real): (r: real)
    requires lo <= hi
    ensures lo <= r <= hi
    ensures lo <= x <= hi ==> r == x
  {
    MaxReal(lo, MinReal(hi, x))
  }

  /** A draw of Python's random.random(). */
  predicate Unit(u: real) { 0.0 <= u < 1.0 }

  /** Scaling a non-negative length by a unit draw stays inside it. */
  lemma ScaleByUnit(u: real, n: real)
    requires Unit(u) && 0.0 <= n
    ensures 0.0 <= u * n <= n
    ensures 0.0 < n ==> u * n < n
  {
    assert n - u * n == (1.0 - u) * n;
    assert 0.0 <= (1.0 - u) * n;
  }

  lemma MulNonNegative(a: real, b: real)
    requires 0.0 <= a && 0.0 <= b
    ensures 0.0 <= a * b
  {
  }

  /** Multiplying by a non-negative factor keeps an inequality. */
  lemma MulMonotone(a: real, b: real, c: real)
    requires a <= b && 0.0 <= c
    ensures a * c <= b * c
  {
    MulNonNegative(b - a, c);
    assert (b - a) * c == b * c - a * c;
  }

  /** random.randint(a, b) driven by the draw u. */
  function RandInt(a: int, b: int, u: real): (r: int)
    requires a <= b && Unit(u)
    ensures a <= r <= b
  {
    var n := (b - a + 1) as real;
    ScaleByUnit(u, n);
    var k := (u * n).Floor;
    assert 0 <= k by { assert 0.0 <= u * n; }
    assert k < b - a + 1 by { assert k as real <= u * n < n; }
    a + k
  }

  /** random.uniform(a, b) driven by the draw u. */
  function Uniform(a: real, b: real, u: real): (r: real)
    requires a <= b && Unit(u)
    ensures a <= r <= b
  {
    var w := b - a;
    ScaleByUnit(u, w);
    a + u * w
  }

  /** random.choice(xs) driven by the draw u. */
  function Choice<T>(xs: seq<T>, u: real): (r: T)
    requires |xs| > 0 && Unit(u)
    ensures r in xs
  {
    xs[RandInt(0, |xs| - 1, u)]
  }
}
