/** Small facts about products of reals; larger ones follow from these by polynomial identities. */
module RealArith {

  /** Clamped to the unit interval. */
  function Unit(x: real): (r: real)
    ensures 0.0 <= r <= 1.0
    ensures 0.0 <= x <= 1.0 ==> r == x
  {
    if x < 0.0 then 0.0 else if x > 1.0 then 1.0 else x
  }

  lemma PosMul(a: real, b: real)
    requires a > 0.0 && b > 0.0
    ensures a * b > 0.0
  {
  }

  lemma NonNegMul(a: real, b: real)
    requires a >= 0.0 && b >= 0.0
    ensures a * b >= 0.0
  {
  }

  lemma MulMono(a: real, b: real, c: real)
    requires a <= b && c >= 0.0
    ensures a * c <= b * c
  {
    NonNegMul(b - a, c);
    assert (b - a) * c == b * c - a * c;
  }

  lemma CancelMul(a: real, b: real, c: real)
    requires a * c <= b * c && c > 0.0
    ensures a <= b
  {
    assert (a - b) * c == a * c - b * c;
    if b < a { PosMul(a - b, c); }
  }

  lemma SquareStrict(a: real, b: real)
    requires 0.0 <= a < b
    ensures a * a < b * b
  {
    PosMul(b - a, b + a);
    assert (b - a) * (b + a) == b * b - a * a;
  }

  lemma SquareMono(a: real, b: real)
    requires 0.0 <= a && 0.0 <= b
    ensures a <= b <==> a * a <= b * b
  {
    if a < b { SquareStrict(a, b); }
    if b < a { SquareStrict(b, a); }
  }

  lemma Quotient(s: real, n: real)
    requires n > 0.0
    ensures (s / n) * n == s
  {
  }

  lemma QuotientAtMost(s: real, n: real, h: real)
    requires n > 0.0
    ensures s <= h * n <==> s / n <= h
  {
    var q := s / n;
    Quotient(s, n);
    if s <= h * n { CancelMul(q, h, n); } else if q <= h { MulMono(q, h, n); }
  }

  lemma QuotientAtLeast(s: real, n: real, h: real)
    requires n > 0.0
    ensures s >= h * n <==> s / n >= h
  {
    var q := s / n;
    Quotient(s, n);
    if s >= h * n { CancelMul(h, q, n); } else if q >= h { MulMono(h, q, n); }
  }

  // ----- rounding of recorded values -----

  /** To the nearest integer, halves to the even one. */
  function RoundToInt(x: real): (n: int)
    ensures n as real - 0.5 <= x <= n as real + 0.5
  {
    var below := x.Floor;
    var rest := x - below as real;
    if rest < 0.5 || (rest == 0.5 && below % 2 == 0) then below else below + 1
  }

  const MICRO := 0.000001
  const HALF_MICRO := 0.0000005

  /** Six decimals. */
  function Round6(x: real): (r: real)
    ensures x - HALF_MICRO <= r <= x + HALF_MICRO
  {
    RoundToInt(x * 1000000.0) as real / 1000000.0
  }

  /** Four decimals. */
  function Round4(x: real): (r: real)
    ensures x - 0.00005 <= r <= x + 0.00005
  {
    RoundToInt(x * 10000.0) as real / 10000.0
  }

  lemma RoundingIsMonotone(x: real, y: real)
    requires x <= y
    ensures RoundToInt(x) <= RoundToInt(y)
  {
  }

  lemma Round4Monotone(x: real, y: real)
    requires x <= y
    ensures Round4(x) <= Round4(y)
  {
    RoundingIsMonotone(x * 10000.0, y * 10000.0);
  }

  /** Values within half a unit are recorded at most one unit apart. */
  lemma Round6Within(x: real, y: real)
    requires -HALF_MICRO <= x - y <= HALF_MICRO
    ensures Round6(x) == Round6(y) || Round6(x) == Round6(y) + MICRO || Round6(y) == Round6(x) + MICRO
  {
    var m, n := RoundToInt(x * 1000000.0), RoundToInt(y * 1000000.0);
    assert -1 <= m - n <= 1;
  }

  lemma RoundUnit(x: real)
    requires 0.0 <= x <= 1.0
    ensures 0.0 <= Round4(x) <= 1.0 && 0.0 <= Round6(x) <= 1.0
  {
  }

  lemma RoundNonNegative(x: real)
    requires x >= 0.0
    ensures Round4(x) >= 0.0
  {
  }

  /** A number of four decimals is its own rounding. */
  lemma RoundExact(x: real, n: int)
    requires x * 10000.0 == n as real
    ensures Round4(x) == x
  {
  }
}
