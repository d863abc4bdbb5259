/**
 * The numeric conventions of the C# runtime that the game relies on, written out over
 * unbounded integers and exact reals: MathF.Round (nearest, ties to even), the (int) cast
 * of a float (truncation toward zero), and C#'s integer / and % (truncation toward zero).
 */
module Numerics {

  function Abs(r: real): (a: real)
    ensures a >= 0.0 && (a == r || a == -r)
  {
    if r < 0.0 then -r else r
  }

  function IntAbs(n: int): (a: int)
    ensures a >= 0 && (a == n || a == -n)
  {
    if n < 0 then -n else n
  }

  function Min(a: real, b: real): (m: real)
    ensures m <= a && m <= b && (m == a || m == b)
  {
    if a <= b then a else b
  }

  function Max(a: real, b: real): (m: real)
    ensures m >= a && m >= b && (m == a || m == b)
  {
    if a >= b then a else b
  }

  /** MathHelper.Clamp / Math.Clamp on an ordered pair of bounds. */
  function Clamp(v: real, lo: real, hi: real): (c: real)
    requires lo <= hi
    ensures lo <= c <= hi
    ensures lo <= v <= hi ==> c == v
    ensures v < lo ==> c == lo
    ensures v > hi ==> c == hi
  {
    if v < lo then lo else if v > hi then hi else v
  }

  /** MathF.Round with its default mode: the nearest integer, a tie going to the even one. */
  function RoundHalfEven(r: real): (n: int)
    ensures r - 0.5 <= n as real <= r + 0.5
    ensures (n as real == r - 0.5 || n as real == r + 0.5) ==> n % 2 == 0
  {
    var f := r.Floor;
    var frac := r - f as real;
    if frac < 0.5 then f
    else if frac > 0.5 then f + 1
    else if f % 2 == 0 then f
    else f + 1
  }

  /** max(0, n): how many times `for (i = 0; i < n; i++)` runs. */
  function Max0(n: int): nat {
    if n < 0 then 0 else n
  }

  /** The (int) cast of a float: truncation toward zero. */
  function Truncate(r: real): (n: int)
    ensures 0.0 <= r ==> 0 <= n && n as real <= r < n as real + 1.0
    ensures r < 0.0 ==> n <= 0 && n as real - 1.0 < r <= n as real
  {
    if r >= 0.0 then r.Floor else -((-r).Floor)
  }

  /** C#'s integer division, which truncates toward zero (Dafny's / is Euclidean). */
  function CsDiv(a: int, b: int): (q: int)
    requires b != 0
    ensures 0 <= a && 0 < b ==> q == a / b
    ensures (0 <= a && 0 < b) || (a <= 0 && b < 0) ==> q >= 0
    ensures (0 <= a && b < 0) || (a <= 0 && 0 < b) ==> q <= 0
  {
    if a >= 0 then (if b > 0 then QuotientNonNegative(a, b); a / b else QuotientNonNegative(a, -b); -(a / -b))
    else (if b > 0 then QuotientNonNegative(-a, b); -((-a) / b) else QuotientNonNegative(-a, -b); (-a) / (-b))
  }

  /** Dividing a non-negative number by a positive one gives a non-negative quotient. */
  lemma QuotientNonNegative(n: int, d: int)
    requires n >= 0 && d > 0
    ensures n / d >= 0
  {
  }

  /** C#'s %, the remainder left by CsDiv. */
  function CsMod(a: int, b: int): (m: int)
    requires b != 0
    ensures 0 <= a && 0 < b ==> m == a % b
  {
    a - CsDiv(a, b) * b
  }

  /**
   * CsDiv rounds toward zero: the remainder CsMod is smaller than the divisor in magnitude and
   * takes the sign of the dividend.
   */
  lemma CsDivModTruncate(a: int, b: int)
    requires b != 0
    ensures a == CsDiv(a, b) * b + CsMod(a, b)
    ensures 0 <= a ==> 0 <= CsMod(a, b) < IntAbs(b)
    ensures a < 0 ==> -IntAbs(b) < CsMod(a, b) <= 0
  {
    var n, d := IntAbs(a), IntAbs(b);
    var q, r := n / d, n % d;
    assert n == q * d + r && 0 <= r < d;
    if a >= 0 && b > 0 {
      assert CsDiv(a, b) * b == q * d;
    } else if a >= 0 && b < 0 {
      assert CsDiv(a, b) * b == q * d;
    } else if a < 0 && b > 0 {
      assert CsDiv(a, b) * b == -(q * d);
    } else if a < 0 && b < 0 {
      assert CsDiv(a, b) * b == -(q * d);
    }
  }

  /** Vector2 over exact reals. */
  datatype Vec2 = Vec2(x: real, y: real) {
    function Plus(o: Vec2): Vec2 { Vec2(x + o.x, y + o.y) }
    function Minus(o: Vec2): Vec2 { Vec2(x - o.x, y - o.y) }
    function Times(k: real): Vec2 { Vec2(x * k, y * k) }
    function LengthSq(): real { x * x + y * y }
  }

  const Zero2 := Vec2(0.0, 0.0)

  /** Vector3 over exact reals. */
  datatype Vec3 = Vec3(x: real, y: real, z: real)

  /** Vector2.DistanceSquared. */
  function DistSq(a: Vec2, b: Vec2): (d: real)
    ensures d >= 0.0
  {
    (a.x - b.x) * (a.x - b.x) + (a.y - b.y) * (a.y - b.y)
  }

  /** Vector2.Lerp(a, b, t) = a + (b - a) * t. */
  function Lerp(a: Vec2, b: Vec2, t: real): Vec2 {
    a.Plus(b.Minus(a).Times(t))
  }

  /** Lerp by t leaves a fraction 1 - t of the remaining distance on each axis. */
  lemma LerpShrinksGap(a: Vec2, b: Vec2, t: real)
    ensures b.Minus(Lerp(a, b, t)) == b.Minus(a).Times(1.0 - t)
    ensures t == 0.0 ==> Lerp(a, b, t) == a
    ensures t == 1.0 ==> Lerp(a, b, t) == b
  {
  }

  /** For a non-negative dividend and a positive divisor C# and Dafny agree. */
  lemma CsDivModAgree(a: nat, b: int)
    requires b > 0
    ensures CsDiv(a, b) == a / b && CsMod(a, b) == a % b
  {
  }
}
