/** The Agresti-Coull interval around an estimate `p` from `n` observations, at a normal quantile `z`.

    Square roots enter as witnesses: `root` stands for the square root that the code takes.
    Comparing the lower bound with a threshold needs no root at all. */
module AgrestiCoull {
  import opened RealArith

  ghost predicate IsRoot(root: real, x: real) {
    root >= 0.0 && root * root == x
  }

  /** The two normal quantiles in use: 1.96 from confidence 0.95 on, 1.645 below. */
  datatype Level = Level95 | Level90

  function Quantile(z: Level): (q: real)
    ensures q > 0.0
  {
    if z == Level95 then 1.96 else 1.645
  }

  function Sq(z: Level): (s: real)
    ensures s > 0.0
  {
    if z == Level95 then 3.8416 else 2.706025
  }

  lemma SqIsSquare(z: Level)
    ensures Sq(z) == Quantile(z) * Quantile(z)
  {
  }

  function Total(n: int, z: Level): (t: real)
    requires n > 0
    ensures t > Sq(z)
  {
    n as real + Sq(z)
  }

  /** The shrunk estimate. */
  function Centre(p: real, n: int, z: Level): real
    requires n > 0
  {
    (p * n as real + Sq(z) / 2.0) / Total(n, z)
  }

  /** The variance under the root. */
  function Variance(p: real, n: int, z: Level): real
    requires n > 0
  {
    var c := Centre(p, n, z);
    c * (1.0 - c) / Total(n, z)
  }

  function Lower(p: real, n: int, z: Level, root: real): real
  {
    if n <= 0 then 0.0 else Unit(Centre(p, n, z) - Quantile(z) * root)
  }

  function Upper(p: real, n: int, z: Level, root: real): real
  {
    if n <= 0 then 1.0 else Unit(Centre(p, n, z) + Quantile(z) * root)
  }

  /** Whether the lower bound reaches `t`, without any root. */
  predicate Reaches(p: real, n: int, z: Level, t: real)
  {
    t <= 0.0 || (n > 0 && var c := Centre(p, n, z); c >= t && (c - t) * (c - t) >= Sq(z) * Variance(p, n, z))
  }

  // ----- the same quantities in terms of the weight of the half-and-half prior -----

  function Weight(n: int, z: Level): (w: real)
    requires n > 0
    ensures 0.0 < w <= 1.0
  {
    Share(Sq(z), Total(n, z));
    Sq(z) / Total(n, z)
  }

  lemma Share(y: real, t: real)
    requires 0.0 < y <= t
    ensures 0.0 < y / t <= 1.0
  {
    QuotientAtMost(y, t, 1.0);
    QuotientAtMost(y, t, 0.0);
  }

  function Mid(p: real, w: real): real {
    p + w * (0.5 - p)
  }

  function Half2(p: real, w: real): real {
    w * (Mid(p, w) * (1.0 - Mid(p, w)))
  }

  lemma CentreIsMid(p: real, n: int, z: Level)
    requires n > 0
    ensures Centre(p, n, z) == Mid(p, Weight(n, z))
  {
    MidQuotient(p, n as real, Sq(z));
  }

  lemma MidQuotient(p: real, n: real, y: real)
    requires n > 0.0 && y > 0.0
    ensures (p * n + y / 2.0) / (n + y) == Mid(p, y / (n + y))
  {
    var t := n + y;
    var w := y / t;
    Quotient(y, t);
    var s, m := p * n + y / 2.0, Mid(p, w);
    assert m * t == p * t + (w * t) * (0.5 - p) == s;
    QuotientAtMost(s, t, m);
    QuotientAtLeast(s, t, m);
  }

  lemma Regroup(y: real, x: real, t: real)
    requires t > 0.0
    ensures y * (x / t) == (y / t) * x
  {
    var a, b := x / t, y / t;
    Quotient(x, t);
    Quotient(y, t);
    assert y * a == (b * t) * a && b * x == b * (a * t);
  }

  lemma VarianceIsHalf2(p: real, n: int, z: Level)
    requires n > 0
    ensures Sq(z) * Variance(p, n, z) == Half2(p, Weight(n, z))
  {
    CentreIsMid(p, n, z);
    var c := Centre(p, n, z);
    Regroup(Sq(z), c * (1.0 - c), Total(n, z));
  }

  lemma MidInRange(p: real, w: real)
    requires 0.0 <= p <= 1.0 && 0.0 <= w <= 1.0
    ensures 0.0 <= Mid(p, w) <= 1.0 && Half2(p, w) >= 0.0
  {
    var m := Mid(p, w);
    NonNegMul(1.0 - w, p);
    NonNegMul(1.0 - w, 1.0 - p);
    assert m == (1.0 - w) * p + w * 0.5;
    assert 1.0 - m == (1.0 - w) * (1.0 - p) + w * 0.5;
    NonNegMul(m, 1.0 - m);
    NonNegMul(w, m * (1.0 - m));
  }

  // ----- bracketing -----

  /** The shift of the centre is within the half-width. */
  lemma ShiftWithinHalf(p: real, w: real)
    requires 0.0 <= p <= 1.0 && 0.0 <= w <= 1.0
    ensures (Mid(p, w) - p) * (Mid(p, w) - p) <= Half2(p, w)
  {
    var e, m := p - 0.5, Mid(p, w);
    NonNegMul(p, 1.0 - p);
    NonNegMul(e * e, w * (1.0 - w)) by {
      Square(e);
      NonNegMul(w, 1.0 - w);
    }
    var gap := p * (1.0 - p) + e * e * (w * (1.0 - w));
    NonNegMul(w, gap);
    assert m - p == -(w * e) && p == e + 0.5;
    assert w * (m * (1.0 - m)) - (w * e) * (w * e) == w * gap;
  }

  lemma Square(x: real)
    ensures x * x >= 0.0
  {
    if x >= 0.0 { NonNegMul(x, x); } else { NonNegMul(-x, -x); }
  }

  /** From a square to the two-sided bound. */
  lemma WithinRoot(d: real, h: real)
    requires h >= 0.0 && d * d <= h * h
    ensures -h <= d <= h
  {
    if d > h { SquareStrict(h, d); }
    if d < -h { SquareStrict(h, -d); }
  }

  /** The interval brackets the estimate, for every number of observations. */
  lemma Bracket(p: real, n: int, z: Level, root: real)
    requires 0.0 <= p <= 1.0
    requires n > 0 ==> IsRoot(root, Variance(p, n, z))
    ensures Lower(p, n, z, root) <= p <= Upper(p, n, z, root)
  {
    if n > 0 {
      var w := Weight(n, z);
      CentreIsMid(p, n, z);
      HalfWidth(p, n, z, root);
      ShiftWithinHalf(p, w);
      WithinRoot(Mid(p, w) - p, Quantile(z) * root);
    }
  }

  // ----- monotonicity -----

  lemma ReachesForm(p: real, n: int, z: Level, t: real)
    requires n > 0
    ensures Reaches(p, n, z, t) <==> t <= 0.0 || ReachesAt(p, Weight(n, z), t)
  {
    CentreIsMid(p, n, z);
    VarianceIsHalf2(p, n, z);
  }

  predicate ReachesAt(p: real, w: real, t: real) {
    Mid(p, w) >= t && (Mid(p, w) - t) * (Mid(p, w) - t) >= Half2(p, w)
  }

  lemma SlackIdentity(e: real, w: real)
    ensures var m, u, p := 0.5 + (1.0 - w) * e, -((1.0 - w) * e), 0.5 + e;
            w * (m * (1.0 - m)) - (w * u) * (w * u)
            == w * (p * (1.0 - p) + e * e * (w * (1.0 + w - w * w)))
  {
  }

  lemma SlackNonNegative(p: real, w: real)
    requires 0.0 <= p <= 1.0 && 0.0 <= w <= 1.0
    ensures var e := p - 0.5; w * (p * (1.0 - p) + e * e * (w * (1.0 + w - w * w))) >= 0.0
  {
    var e := p - 0.5;
    NonNegMul(p, 1.0 - p);
    Square(e);
    NonNegMul(w, 1.0 - w);
    NonNegMul(w, 1.0 + w - w * w);
    NonNegMul(e * e, w * (1.0 + w - w * w));
    NonNegMul(w, p * (1.0 - p) + e * e * (w * (1.0 + w - w * w)));
  }

  /** Where the bound reaches `t`, the centre is well above `t`. */
  lemma SlackAtReach(p: real, w: real, t: real)
    requires 0.0 <= p <= 1.0 && 0.0 <= w <= 1.0 && ReachesAt(p, w, t)
    ensures Mid(p, w) - t >= w * (0.5 - Mid(p, w))
  {
    var e, m := p - 0.5, Mid(p, w);
    assert m == 0.5 + (1.0 - w) * e;
    SlackIdentity(e, w);
    SlackNonNegative(p, w);
    WithinRoot(w * (0.5 - m), m - t);
  }

  lemma GrowthIdentity(a: real, d: real, m: real, w: real)
    ensures var k := m + d;
            (a + d) * (a + d) - w * (k * (1.0 - k))
            == a * a - w * (m * (1.0 - m)) + d * (2.0 * (a - w * (0.5 - m)) + (1.0 + w) * d)
  {
  }

  lemma ReachesAtMonotone(p: real, q: real, w: real, t: real)
    requires 0.0 <= p <= q <= 1.0 && 0.0 <= w <= 1.0 && ReachesAt(p, w, t)
    ensures ReachesAt(q, w, t)
  {
    var m, d := Mid(p, w), Mid(q, w) - Mid(p, w);
    SlackAtReach(p, w, t);
    NonNegMul(1.0 - w, q - p);
    assert d == (1.0 - w) * (q - p);
    NonNegMul(1.0 + w, d);
    NonNegMul(d, 2.0 * (m - t - w * (0.5 - m)) + (1.0 + w) * d);
    GrowthIdentity(m - t, d, m, w);
  }

  /** A larger estimate never loses a threshold. */
  lemma ReachesMonotone(p: real, q: real, n: int, z: Level, t: real)
    requires 0.0 <= p <= q <= 1.0 && Reaches(p, n, z, t)
    ensures Reaches(q, n, z, t)
  {
    if n > 0 {
      ReachesForm(p, n, z, t);
      ReachesForm(q, n, z, t);
      if t > 0.0 { ReachesAtMonotone(p, q, Weight(n, z), t); }
    }
  }

  /** The half-width that the code computes, squared. */
  lemma HalfWidth(p: real, n: int, z: Level, root: real)
    requires n > 0 && IsRoot(root, Variance(p, n, z))
    ensures var h := Quantile(z) * root; h >= 0.0 && h * h == Half2(p, Weight(n, z))
  {
    VarianceIsHalf2(p, n, z);
    NonNegMul(Quantile(z), root);
    SqIsSquare(z);
    var h := Quantile(z) * root;
    assert h * h == Sq(z) * (root * root);
  }

  lemma ClampReaches(m: real, h: real, t: real)
    requires 0.0 <= m <= 1.0 && h >= 0.0 && 0.0 < t
    ensures Unit(m - h) >= t <==> m >= t && (m - t) * (m - t) >= h * h
  {
    if m >= t { SquareMono(h, m - t); }
  }

  /** A threshold that the bound reaches is not above the estimate. */
  lemma ReachesBelow(p: real, n: int, z: Level, t: real)
    requires 0.0 <= p <= 1.0 && Reaches(p, n, z, t)
    ensures t <= p || t <= 0.0
  {
    if t > 0.0 {
      var w := Weight(n, z);
      var m := Mid(p, w);
      ReachesForm(p, n, z, t);
      ShiftWithinHalf(p, w);
      WithinRoot(m - p, m - t);
    }
  }

  /** The root-free comparison is the comparison with the lower bound. */
  lemma LowerReaches(p: real, n: int, z: Level, root: real, t: real)
    requires 0.0 <= p <= 1.0
    requires n > 0 ==> IsRoot(root, Variance(p, n, z))
    ensures Lower(p, n, z, root) >= t <==> Reaches(p, n, z, t)
  {
    if n > 0 && t > 0.0 {
      CentreIsMid(p, n, z);
      HalfWidth(p, n, z, root);
      ReachesForm(p, n, z, t);
      MidInRange(p, Weight(n, z));
      ClampReaches(Mid(p, Weight(n, z)), Quantile(z) * root, t);
    }
  }

  /** The lower bound is monotone in the estimate. */
  lemma LowerMonotone(p: real, q: real, n: int, z: Level, rootP: real, rootQ: real)
    requires 0.0 <= p <= q <= 1.0
    requires n > 0 ==> IsRoot(rootP, Variance(p, n, z)) && IsRoot(rootQ, Variance(q, n, z))
    ensures Lower(p, n, z, rootP) <= Lower(q, n, z, rootQ)
  {
    var t := Lower(p, n, z, rootP);
    LowerReaches(p, n, z, rootP, t);
    ReachesMonotone(p, q, n, z, t);
    LowerReaches(q, n, z, rootQ, t);
  }
}
