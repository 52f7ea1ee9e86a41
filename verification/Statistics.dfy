/** Sorting, interpolated percentiles and the empirical CVaR of a sample of losses. */
module Statistics {
  import opened Collections
  import opened RealArith

  // ----- sorted samples -----

  predicate Sorted(v: seq<real>) {
    forall i, j :: 0 <= i < j < |v| ==> v[i] <= v[j]
  }

  lemma SortedCons(x: real, v: seq<real>)
    requires Sorted(v) && (v == [] || x <= v[0])
    ensures Sorted([x] + v)
  {
    assert forall j :: 0 < j < |v| + 1 ==> ([x] + v)[j] == v[j - 1] && v[0] <= v[j - 1];
  }

  function Insert(v: seq<real>, x: real): (r: seq<real>)
    requires Sorted(v)
    ensures Sorted(r) && |r| == |v| + 1
    ensures r[0] == if v == [] || x <= v[0] then x else v[0]
  {
    if v == [] || x <= v[0] then
      SortedCons(x, v);
      [x] + v
    else
      var r := Insert(v[1..], x);
      SortedCons(v[0], r);
      [v[0]] + r
  }

  lemma SplitHead(v: seq<real>)
    requires v != []
    ensures multiset(v) == multiset(v[1..]) + multiset{v[0]}
  {
    assert v == [v[0]] + v[1..];
  }

  lemma {:induction false} InsertMultiset(v: seq<real>, x: real)
    requires Sorted(v)
    ensures multiset(Insert(v, x)) == multiset(v) + multiset{x}
  {
    if v != [] {
      SplitHead(v);
      if x > v[0] {
        InsertMultiset(v[1..], x);
        SplitHead(Insert(v, x));
      }
    }
  }

  function Sort(v: seq<real>): (r: seq<real>)
    ensures Sorted(r) && |r| == |v|
  {
    if v == [] then [] else Insert(Sort(v[1..]), v[0])
  }

  lemma {:induction false} SortMultiset(v: seq<real>)
    ensures multiset(Sort(v)) == multiset(v)
  {
    if v != [] {
      SortMultiset(v[1..]);
      InsertMultiset(Sort(v[1..]), v[0]);
      SplitHead(v);
    }
  }

  lemma SameSize(a: seq<real>, b: seq<real>)
    requires multiset(a) == multiset(b)
    ensures |a| == |b|
  {
    assert |a| == |multiset(a)|;
    assert |b| == |multiset(b)|;
  }

  lemma SortedHead(a: seq<real>, b: seq<real>)
    requires Sorted(a) && Sorted(b) && multiset(a) == multiset(b) && a != [] && b != []
    ensures a[0] == b[0]
  {
    assert a[0] in multiset(b) && b[0] in multiset(a);
    assert a[0] in b && b[0] in a;
  }

  lemma {:induction false} SortedUnique(a: seq<real>, b: seq<real>)
    requires Sorted(a) && Sorted(b) && multiset(a) == multiset(b)
    ensures a == b
  {
    SameSize(a, b);
    if a != [] {
      SortedHead(a, b);
      SplitHead(a);
      SplitHead(b);
      assert multiset(a[1..]) == multiset(a) - multiset{a[0]};
      SortedUnique(a[1..], b[1..]);
    }
  }

  // ----- percentiles -----

  function Ceil(x: real): (c: int)
    ensures c as real - 1.0 < x <= c as real
    ensures c == x.Floor || c == x.Floor + 1
  {
    if x == x.Floor as real then x.Floor else x.Floor + 1
  }

  function Rank(n: nat, q: real): real {
    (n as real - 1.0) * (q / 100.0)
  }

  lemma RankInRange(n: nat, q: real)
    requires n >= 1 && 0.0 <= q <= 100.0
    ensures 0.0 <= Rank(n, q) <= n as real - 1.0
    ensures 0 <= Rank(n, q).Floor <= Ceil(Rank(n, q)) <= n - 1
  {
    var m, t := n as real - 1.0, q / 100.0;
    MulMono(0.0, t, m);
    MulMono(t, 1.0, m);
    assert Rank(n, q) == m * t == t * m;
  }

  /** Linear interpolation between the two closest ranks of a sorted sample. */
  function Percentile(v: seq<real>, q: real): real
    requires 0.0 <= q <= 100.0
  {
    if v == [] then 0.0
    else if |v| == 1 then v[0]
    else
      RankInRange(|v|, q);
      var k := Rank(|v|, q);
      var f, c := k.Floor, Ceil(k);
      if f == c then v[f] else v[f] * (c as real - k) + v[c] * (k - f as real)
  }

  lemma Between(a: real, b: real, s: real, t: real)
    requires a <= b && s >= 0.0 && t >= 0.0 && s + t == 1.0
    ensures a <= a * s + b * t <= b
    ensures a < b && t > 0.0 ==> a < a * s + b * t
  {
    NonNegMul(b - a, s);
    NonNegMul(b - a, t);
    if a < b && t > 0.0 { PosMul(b - a, t); }
    assert a * s + b * t - a == (b - a) * t;
    assert b - (a * s + b * t) == (b - a) * s;
  }

  /** The percentile lies between the two ranks it interpolates. */
  lemma PercentileBetween(v: seq<real>, q: real)
    requires v != [] && Sorted(v) && 0.0 <= q <= 100.0
    ensures 0 <= Rank(|v|, q).Floor <= Ceil(Rank(|v|, q)) <= |v| - 1
    ensures v[Rank(|v|, q).Floor] <= Percentile(v, q) <= v[Ceil(Rank(|v|, q))]
    ensures v[Rank(|v|, q).Floor] < v[Ceil(Rank(|v|, q))] ==> v[Rank(|v|, q).Floor] < Percentile(v, q)
  {
    RankInRange(|v|, q);
    var k := Rank(|v|, q);
    var f, c := k.Floor, Ceil(k);
    if |v| > 1 && f < c {
      Between(v[f], v[c], c as real - k, k - f as real);
    }
  }

  // ----- sums and means -----

  function Sum(v: seq<real>): real {
    if v == [] then 0.0 else v[0] + Sum(v[1..])
  }

  function Mean(v: seq<real>): real
    requires v != []
  {
    Sum(v) / |v| as real
  }

  lemma {:induction false} SumSplit(a: seq<real>, b: seq<real>)
    ensures Sum(a + b) == Sum(a) + Sum(b)
  {
    if a == [] {
      assert a + b == b;
    } else {
      assert (a + b)[1..] == a[1..] + b;
      SumSplit(a[1..], b);
    }
  }

  lemma RemoveOne(a: seq<real>, b: seq<real>) returns (front: seq<real>, back: seq<real>)
    requires a != [] && multiset(a) == multiset(b)
    ensures b == front + [a[0]] + back && multiset(a[1..]) == multiset(front + back)
  {
    assert a[0] in multiset(b);
    var i :| 0 <= i < |b| && b[i] == a[0];
    front, back := b[..i], b[i + 1..];
    assert b == front + [a[0]] + back;
    assert a == [a[0]] + a[1..];
    assert multiset(b) == multiset(front) + multiset{a[0]} + multiset(back);
    assert multiset(a) == multiset{a[0]} + multiset(a[1..]);
    assert multiset(front + back) == multiset(front) + multiset(back);
    assert multiset(a[1..]) == multiset(a) - multiset{a[0]};
  }

  lemma {:induction false} SumOfMultiset(a: seq<real>, b: seq<real>)
    requires multiset(a) == multiset(b)
    ensures Sum(a) == Sum(b)
  {
    SameSize(a, b);
    if a != [] {
      var front, back := RemoveOne(a, b);
      SumOfMultiset(a[1..], front + back);
      SumSplit(front, back);
      SumSplit(front, [a[0]] + back);
      assert ([a[0]] + back)[1..] == back;
      assert b == front + ([a[0]] + back);
    }
  }

  lemma MeanAtLeast(v: seq<real>, lo: real)
    requires v != [] && forall i :: 0 <= i < |v| ==> lo <= v[i]
    ensures lo <= Mean(v)
  {
    SumAbove(v, lo);
    QuotientAtLeast(Sum(v), |v| as real, lo);
  }

  lemma MeanAtMost(v: seq<real>, hi: real)
    requires v != [] && forall i :: 0 <= i < |v| ==> v[i] <= hi
    ensures Mean(v) <= hi
  {
    SumBelow(v, hi);
    QuotientAtMost(Sum(v), |v| as real, hi);
  }

  /** Dropping a lower part of a sample does not lower the mean. */
  lemma JoinMean(low: seq<real>, high: seq<real>, cut: real)
    requires high != []
    requires forall j :: 0 <= j < |low| ==> low[j] <= cut
    requires forall j :: 0 <= j < |high| ==> cut <= high[j]
    ensures Mean(low + high) <= Mean(high)
  {
    SumSplit(low, high);
    MeanAtLeast(high, cut);
    SumBelow(low, cut);
    assert |low + high| as real == |low| as real + |high| as real;
    JoinQuotients(Sum(low), |low| as real, Sum(high), |high| as real, cut);
  }

  lemma JoinQuotients(s: real, a: real, t: real, b: real, cut: real)
    requires a >= 0.0 && b > 0.0 && s <= cut * a && cut <= t / b
    ensures (s + t) / (a + b) <= t / b
  {
    var m := t / b;
    Quotient(t, b);
    MulMono(cut, m, a);
    assert m * (a + b) == m * a + m * b;
    QuotientAtMost(s + t, a + b, m);
  }

  lemma {:induction false} SumBelow(v: seq<real>, cut: real)
    requires forall j :: 0 <= j < |v| ==> v[j] <= cut
    ensures Sum(v) <= cut * |v| as real
  {
    if v != [] {
      SumBelow(v[1..], cut);
      assert |v| as real == |v[1..]| as real + 1.0;
      assert cut * |v| as real == cut * |v[1..]| as real + cut;
    }
  }

  lemma {:induction false} SumAbove(v: seq<real>, cut: real)
    requires forall j :: 0 <= j < |v| ==> cut <= v[j]
    ensures cut * |v| as real <= Sum(v)
  {
    if v != [] {
      SumAbove(v[1..], cut);
      assert |v| as real == |v[1..]| as real + 1.0;
      assert cut * |v| as real == cut * |v[1..]| as real + cut;
    }
  }

  function Max(v: seq<real>): (m: real)
    requires v != []
    ensures m in v && forall i :: 0 <= i < |v| ==> v[i] <= m
  {
    if |v| == 1 then v[0] else
      assert v == [v[0]] + v[1..];
      var m := Max(v[1..]);
      if v[0] > m then v[0] else m
  }

  function Min(v: seq<real>): (m: real)
    requires v != []
    ensures m in v && forall i :: 0 <= i < |v| ==> m <= v[i]
  {
    if |v| == 1 then v[0] else
      assert v == [v[0]] + v[1..];
      var m := Min(v[1..]);
      if v[0] < m then v[0] else m
  }

  // ----- CVaR -----

  /** The values that reach a threshold, in order. */
  function Tail(v: seq<real>, threshold: real): seq<real> {
    if v == [] then []
    else (if v[0] >= threshold then [v[0]] else []) + Tail(v[1..], threshold)
  }

  function TailMean(v: seq<real>, threshold: real): real {
    var tail := Tail(v, threshold);
    if tail == [] then threshold else Mean(tail)
  }

  function VaR(losses: seq<real>, alpha: real): real
    requires 0.0 <= alpha <= 1.0
  {
    Percentile(Sort(losses), alpha * 100.0)
  }

  /** The mean of the sorted losses that reach the value at risk. */
  function CVaR(losses: seq<real>, alpha: real): real
    requires 0.0 <= alpha <= 1.0
  {
    if losses == [] then 0.0 else TailMean(Sort(losses), VaR(losses, alpha))
  }

  lemma {:induction false} TailKeepsAll(v: seq<real>, threshold: real)
    requires forall j :: 0 <= j < |v| ==> v[j] >= threshold
    ensures Tail(v, threshold) == v
  {
    if v != [] { TailKeepsAll(v[1..], threshold); }
  }

  /** In a sorted sample the tail is a suffix. */
  lemma {:induction false} TailIsSuffix(v: seq<real>, threshold: real) returns (i: nat)
    requires Sorted(v)
    ensures i <= |v| && Tail(v, threshold) == v[i..]
    ensures forall j :: 0 <= j < i ==> v[j] < threshold
    ensures forall j :: i <= j < |v| ==> v[j] >= threshold
  {
    if v == [] || v[0] >= threshold {
      i := 0;
      TailKeepsAll(v, threshold);
    } else {
      var rest := v[1..];
      var k := TailIsSuffix(rest, threshold);
      i := k + 1;
      assert rest[k..] == v[i..];
      forall j | 1 <= j < |v| ensures v[j] < threshold <==> j < i {
        assert v[j] == rest[j - 1];
      }
    }
  }

  lemma TailMeanBounds(v: seq<real>, threshold: real)
    requires Sorted(v) && v != [] && threshold <= v[|v| - 1]
    ensures Tail(v, threshold) != []
    ensures threshold <= TailMean(v, threshold) <= v[|v| - 1]
    ensures Mean(v) <= TailMean(v, threshold)
  {
    var i := TailIsSuffix(v, threshold);
    MeanAtLeast(v[i..], threshold);
    MeanAtMost(v[i..], v[|v| - 1]);
    JoinMean(v[..i], v[i..], threshold);
    assert v == v[..i] + v[i..];
  }

  lemma TailMeanMonotone(v: seq<real>, s: real, t: real)
    requires Sorted(v) && v != [] && s <= t <= v[|v| - 1]
    ensures TailMean(v, s) <= TailMean(v, t)
  {
    var i := TailIsSuffix(v, s);
    var j := TailIsSuffix(v, t);
    assert v[|v| - 1] >= t;
    var x := v[j];
    assert s <= t <= x;
    JoinMean(v[i..j], v[j..], t);
    assert v[i..] == v[i..j] + v[j..];
  }

  lemma SameMembers(a: seq<real>, b: seq<real>, x: real)
    requires multiset(a) == multiset(b) && x in a
    ensures x in b
  {
    assert x in multiset(a);
  }

  lemma LastIsMax(v: seq<real>, losses: seq<real>)
    requires Sorted(v) && v != [] && losses != [] && multiset(v) == multiset(losses)
    ensures v[|v| - 1] == Max(losses)
  {
    var last, max := v[|v| - 1], Max(losses);
    SameMembers(v, losses, last);
    SameMembers(losses, v, max);
    var i :| 0 <= i < |v| && v[i] == max;
    assert i == |v| - 1 || v[i] <= last;
  }

  lemma SortedMax(losses: seq<real>)
    requires losses != []
    ensures Sort(losses)[|losses| - 1] == Max(losses)
  {
    SortMultiset(losses);
    LastIsMax(Sort(losses), losses);
  }

  lemma VaRBelowMax(v: seq<real>, q: real)
    requires v != [] && Sorted(v) && 0.0 <= q <= 100.0
    ensures Percentile(v, q) <= v[|v| - 1]
  {
    PercentileBetween(v, q);
  }

  /** The tail is never empty, so the fallback branch is dead; mean and value at risk are lower bounds
      of CVaR and the maximum is an upper bound. */
  lemma CVaRBounds(losses: seq<real>, alpha: real)
    requires losses != [] && 0.0 <= alpha <= 1.0
    ensures Tail(Sort(losses), VaR(losses, alpha)) != []
    ensures VaR(losses, alpha) <= CVaR(losses, alpha) <= Max(losses)
    ensures Mean(losses) <= CVaR(losses, alpha)
  {
    var v := Sort(losses);
    VaRBelowMax(v, alpha * 100.0);
    SortedMax(losses);
    TailMeanBounds(v, VaR(losses, alpha));
    SortMultiset(losses);
    SumOfMultiset(v, losses);
  }

  lemma CVaRPermutationInvariant(a: seq<real>, b: seq<real>, alpha: real)
    requires multiset(a) == multiset(b) && 0.0 <= alpha <= 1.0
    ensures CVaR(a, alpha) == CVaR(b, alpha)
  {
    SortMultiset(a);
    SortMultiset(b);
    SortedUnique(Sort(a), Sort(b));
    SameSize(a, b);
  }

  lemma RankMonotone(n: nat, p: real, q: real)
    requires n >= 1 && p <= q
    ensures Rank(n, p) <= Rank(n, q)
  {
    NonNegMul(n as real - 1.0, q / 100.0 - p / 100.0);
  }

  lemma PercentileMonotone(v: seq<real>, p: real, q: real)
    requires v != [] && Sorted(v) && 0.0 <= p <= q <= 100.0
    ensures Percentile(v, p) <= Percentile(v, q)
  {
    PercentileBetween(v, p);
    PercentileBetween(v, q);
    RankMonotone(|v|, p, q);
    var k, l := Rank(|v|, p), Rank(|v|, q);
    if k.Floor == l.Floor && Ceil(k) == Ceil(l) && k.Floor < Ceil(k) {
      var a, b := v[k.Floor], v[Ceil(k)];
      NonNegMul(b - a, l - k);
      var f, c := k.Floor as real, Ceil(k) as real;
      assert a * (c - l) + b * (l - f) - (a * (c - k) + b * (k - f)) == (b - a) * (l - k);
    }
  }

  /** A larger confidence level never lowers CVaR. */
  lemma CVaRMonotoneInAlpha(losses: seq<real>, alpha: real, beta: real)
    requires losses != [] && 0.0 <= alpha <= beta <= 1.0
    ensures CVaR(losses, alpha) <= CVaR(losses, beta)
  {
    var v := Sort(losses);
    PercentileMonotone(v, alpha * 100.0, beta * 100.0);
    VaRBelowMax(v, beta * 100.0);
    TailMeanMonotone(v, VaR(losses, alpha), VaR(losses, beta));
  }

  // ----- affine changes of the sample -----

  ghost predicate Increasing(f: real -> real) {
    forall x, y :: x <= y <==> f(x) <= f(y)
  }

  /** A factor, then a translation. */
  function Line(c: real, t: real, x: real): real {
    c * x + t
  }

  ghost predicate IsLine(f: real -> real, c: real, t: real) {
    forall x :: f(x) == Line(c, t, x)
  }

  lemma LineIncreasing(f: real -> real, c: real, t: real)
    requires c > 0.0 && IsLine(f, c, t)
    ensures Increasing(f)
  {
    forall x, y ensures x <= y <==> f(x) <= f(y) {
      LineOrder(c, t, x, y);
    }
  }

  lemma LineOrder(c: real, t: real, x: real, y: real)
    requires c > 0.0
    ensures x <= y <==> Line(c, t, x) <= Line(c, t, y)
  {
    if x <= y { MulMono(x, y, c); } else { PosMul(c, x - y); }
    assert c * (x - y) == c * x - c * y;
  }

  lemma {:induction false} MappedInsert(v: seq<real>, x: real, f: real -> real)
    requires Sorted(v) && Sorted(Mapped(v, f)) && Increasing(f)
    ensures Insert(Mapped(v, f), f(x)) == Mapped(Insert(v, x), f)
  {
    if v == [] || x <= v[0] {
      MappedCons(x, v, f);
    } else {
      MappedHead(v, f);
      MappedInsert(v[1..], x, f);
      MappedCons(v[0], Insert(v[1..], x), f);
    }
  }

  lemma {:induction false} MappedSort(v: seq<real>, f: real -> real)
    requires Increasing(f)
    ensures Sort(Mapped(v, f)) == Mapped(Sort(v), f)
  {
    if v != [] {
      MappedHead(v, f);
      MappedSort(v[1..], f);
      MappedInsert(Sort(v[1..]), v[0], f);
    }
  }

  lemma {:induction false} MappedTail(v: seq<real>, threshold: real, f: real -> real)
    requires Increasing(f)
    ensures Tail(Mapped(v, f), f(threshold)) == Mapped(Tail(v, threshold), f)
  {
    if v != [] {
      MappedHead(v, f);
      MappedTail(v[1..], threshold, f);
      if v[0] >= threshold { MappedCons(v[0], Tail(v[1..], threshold), f); }
    }
  }

  /** The weight that interpolation gives to the upper rank. */
  function Weight(n: nat, q: real): real {
    var k := Rank(n, q);
    if k.Floor == Ceil(k) then 0.0 else k - k.Floor as real
  }

  lemma PercentileWeights(v: seq<real>, q: real)
    requires v != [] && 0.0 <= q <= 100.0
    ensures 0 <= Rank(|v|, q).Floor <= Ceil(Rank(|v|, q)) < |v|
    ensures var k, w := Rank(|v|, q), Weight(|v|, q);
            Percentile(v, q) == v[k.Floor] * (1.0 - w) + v[Ceil(k)] * w
  {
    RankInRange(|v|, q);
  }

  lemma LinePercentile(v: seq<real>, m: seq<real>, q: real, c: real, t: real)
    requires v != [] && |m| == |v| && 0.0 <= q <= 100.0
    requires forall i :: 0 <= i < |v| ==> m[i] == Line(c, t, v[i])
    ensures Percentile(m, q) == Line(c, t, Percentile(v, q))
  {
    PercentileWeights(v, q);
    PercentileWeights(m, q);
    var f, g, w := Rank(|v|, q).Floor, Ceil(Rank(|v|, q)), Weight(|v|, q);
    LineInterpolates(v[f], v[g], 1.0 - w, w, c, t);
  }

  lemma LineInterpolates(a: real, b: real, s: real, u: real, c: real, t: real)
    ensures s + u == 1.0 ==> (c * a + t) * s + (c * b + t) * u == c * (a * s + b * u) + t
  {
    assert (c * a + t) * s + (c * b + t) * u == c * (a * s + b * u) + t * (s + u);
  }

  lemma {:induction false} LineSum(v: seq<real>, f: real -> real, c: real, t: real)
    requires IsLine(f, c, t)
    ensures Sum(Mapped(v, f)) == c * Sum(v) + t * |v| as real
  {
    if v != [] {
      MappedHead(v, f);
      LineSum(v[1..], f, c, t);
      LineSumStep(v[0], Sum(v[1..]), |v[1..]| as real, c, t);
    }
  }

  lemma LineSumStep(x: real, s: real, n: real, c: real, t: real)
    ensures (c * x + t) + (c * s + t * n) == c * (x + s) + t * (n + 1.0)
  {
  }

  lemma LineMean(v: seq<real>, f: real -> real, c: real, t: real)
    requires v != [] && IsLine(f, c, t)
    ensures Mean(Mapped(v, f)) == Line(c, t, Mean(v))
  {
    LineSum(v, f, c, t);
    MeanOfSum(v, Mapped(v, f), c, t);
  }

  lemma MeanOfSum(v: seq<real>, m: seq<real>, c: real, t: real)
    requires v != [] && |m| == |v| && Sum(m) == c * Sum(v) + t * |v| as real
    ensures Mean(m) == Line(c, t, Mean(v))
  {
    LineQuotient(Sum(m), Sum(v), |v| as real, c, t);
  }

  lemma LineQuotient(r: real, s: real, n: real, c: real, t: real)
    requires n > 0.0 && r == c * s + t * n
    ensures r / n == Line(c, t, s / n)
  {
    var q := s / n;
    Quotient(s, n);
    var h := c * q + t;
    assert r == h * n;
    QuotientAtMost(r, n, h);
    QuotientAtLeast(r, n, h);
  }

  /** `f` is increasing and commutes with means and percentiles. */
  ghost predicate Equivariant(f: real -> real) {
    && Increasing(f)
    && (forall v :: v != [] ==> Mean(Mapped(v, f)) == f(Mean(v)))
    && (forall v, q :: v != [] && 0.0 <= q <= 100.0 ==> Percentile(Mapped(v, f), q) == f(Percentile(v, q)))
  }

  lemma LineEquivariant(f: real -> real, c: real, t: real)
    requires c > 0.0 && IsLine(f, c, t)
    ensures Equivariant(f)
  {
    LineIncreasing(f, c, t);
    forall v | v != [] ensures Mean(Mapped(v, f)) == f(Mean(v)) {
      LineMean(v, f, c, t);
    }
    forall v, q | v != [] && 0.0 <= q <= 100.0 ensures Percentile(Mapped(v, f), q) == f(Percentile(v, q)) {
      LinePercentile(v, Mapped(v, f), q, c, t);
    }
  }

  lemma EquivariantCVaR(losses: seq<real>, alpha: real, f: real -> real)
    requires losses != [] && 0.0 <= alpha <= 1.0 && Equivariant(f)
    ensures CVaR(Mapped(losses, f), alpha) == f(CVaR(losses, alpha))
  {
    MappedSort(losses, f);
    MappedTail(Sort(losses), VaR(losses, alpha), f);
  }

  /** CVaR moves with a translation of the losses and scales with a positive factor. */
  lemma CVaRAffine(losses: seq<real>, alpha: real, f: real -> real, c: real, t: real)
    requires losses != [] && 0.0 <= alpha <= 1.0 && c > 0.0 && IsLine(f, c, t)
    ensures CVaR(Mapped(losses, f), alpha) == Line(c, t, CVaR(losses, alpha))
  {
    LineEquivariant(f, c, t);
    EquivariantCVaR(losses, alpha, f);
  }

  // ----- small samples -----

  /** The confidence level is so high for the sample size that the rank falls beyond the last but one value. */
  predicate TopRank(n: nat, alpha: real) {
    (n as real - 1.0) * (1.0 - alpha) < 1.0
  }

  lemma SingletonTop(alpha: real)
    ensures TopRank(1, alpha)
  {
    assert 0.0 * (1.0 - alpha) == 0.0;
  }

  lemma TopRankBeyond(n: nat, alpha: real)
    requires n >= 2 && 0.0 <= alpha <= 1.0
    ensures TopRank(n, alpha) <==> Rank(n, alpha * 100.0) > n as real - 2.0
  {
    assert (alpha * 100.0) / 100.0 == alpha;
    assert (n as real - 1.0) * (1.0 - alpha) == n as real - 1.0 - (n as real - 1.0) * alpha;
  }

  lemma TopTailMean(v: seq<real>, alpha: real)
    requires Sorted(v) && v != [] && 0.0 <= alpha <= 1.0 && TopRank(|v|, alpha)
    ensures TailMean(v, Percentile(v, alpha * 100.0)) == v[|v| - 1]
  {
    var n := |v|;
    var p := Percentile(v, alpha * 100.0);
    PercentileBetween(v, alpha * 100.0);
    if n >= 2 {
      TopRankBeyond(n, alpha);
      assert Ceil(Rank(n, alpha * 100.0)) == n - 1;
      assert v[n - 2] < v[n - 1] ==> v[n - 2] < p;
    }
    var i := TailIsSuffix(v, p);
    assert forall j :: i <= j < n ==> v[j] == v[n - 1];
    MeanAtLeast(v[i..], v[n - 1]);
    MeanAtMost(v[i..], v[n - 1]);
  }

  /** A sample of zeros with a single one. */
  function OneOutlier(n: nat): (v: seq<real>)
    requires n >= 1
    ensures |v| == n && Sorted(v)
  {
    seq(n, i => if i == n - 1 then 1.0 else 0.0)
  }

  lemma {:induction false} SortSorted(v: seq<real>)
    requires Sorted(v)
    ensures Sort(v) == v
  {
    SortMultiset(v);
    SortedUnique(Sort(v), v);
  }

  lemma OutlierMean(n: nat)
    requires n >= 2
    ensures Mean(OneOutlier(n)) < 1.0
  {
    var v := OneOutlier(n);
    assert v == v[..n - 1] + [1.0];
    SumSplit(v[..n - 1], [1.0]);
    SumBelow(v[..n - 1], 0.0);
    QuotientAtLeast(Sum(v), n as real, 1.0);
  }

  lemma OutlierIsDiluted(n: nat, alpha: real)
    requires n >= 2 && 0.0 <= alpha <= 1.0 && !TopRank(n, alpha)
    ensures TailMean(OneOutlier(n), Percentile(OneOutlier(n), alpha * 100.0)) < 1.0
  {
    var v := OneOutlier(n);
    TopRankBeyond(n, alpha);
    PercentileBetween(v, alpha * 100.0);
    TailKeepsAll(v, 0.0);
    OutlierMean(n);
  }

  lemma TopCVaR(v: seq<real>, alpha: real)
    requires v != [] && 0.0 <= alpha <= 1.0 && TopRank(|v|, alpha)
    ensures CVaR(v, alpha) == Max(v)
  {
    TopTailMean(Sort(v), alpha);
    SortedMax(v);
  }

  /** CVaR is the maximum of every sample of size `n` exactly when the rank falls beyond the last but one value. */
  lemma CVaRIsMaxExactly(n: nat, alpha: real)
    requires n >= 1 && 0.0 <= alpha <= 1.0
    ensures TopRank(n, alpha) <==> forall v: seq<real> :: |v| == n ==> CVaR(v, alpha) == Max(v)
  {
    if TopRank(n, alpha) {
      forall v: seq<real> | |v| == n ensures CVaR(v, alpha) == Max(v) {
        TopCVaR(v, alpha);
      }
    } else {
      SingletonTop(alpha);
      var v := OneOutlier(n);
      OutlierIsDiluted(n, alpha);
      SortSorted(v);
      assert v[n - 1] == 1.0;
      assert CVaR(v, alpha) != Max(v);
    }
  }

  /** At the default level 0.95 that is so exactly for samples of at most 20 losses. */
  lemma DefaultLevelTop(n: nat)
    requires n >= 1
    ensures TopRank(n, 0.95) <==> n <= 20
  {
  }

  // ----- monotonicity in the losses -----

  /** `a` is nowhere above `b`. */
  predicate Below(a: seq<real>, b: seq<real>) {
    |a| == |b| && forall i :: 0 <= i < |a| ==> a[i] <= b[i]
  }

  lemma {:induction false} SumMonotone(a: seq<real>, b: seq<real>)
    requires Below(a, b)
    ensures Sum(a) <= Sum(b)
  {
    if a != [] { SumMonotone(a[1..], b[1..]); }
  }

  lemma MeanMonotone(a: seq<real>, b: seq<real>)
    requires a != [] && Below(a, b)
    ensures Mean(a) <= Mean(b)
  {
    SumMonotone(a, b);
    var n := |a| as real;
    Quotient(Sum(b), n);
    QuotientAtMost(Sum(a), n, Sum(b) / n);
  }

  lemma MaxMonotone(a: seq<real>, b: seq<real>)
    requires a != [] && Below(a, b)
    ensures Max(a) <= Max(b)
  {
    var i :| 0 <= i < |a| && a[i] == Max(a);
    assert a[i] <= b[i] && b[i] in b;
  }

  /** At level zero CVaR is the mean. */
  lemma ZeroCVaR(v: seq<real>, alpha: real)
    requires v != [] && alpha == 0.0
    ensures CVaR(v, alpha) == Mean(v)
  {
    var s := Sort(v);
    PercentileBetween(s, alpha * 100.0);
    assert Rank(|s|, alpha * 100.0) == 0.0;
    TailKeepsAll(s, Percentile(s, alpha * 100.0));
    SortMultiset(v);
    SumOfMultiset(s, v);
  }

  /** Zeros, then ones from position `c` on, then a last two. */
  function Steps(n: nat, c: nat): (v: seq<real>)
    requires c < n
    ensures |v| == n && Sorted(v)
  {
    seq(n, i => if i == n - 1 then 2.0 else if i < c then 0.0 else 1.0)
  }

  lemma OnesThenTwo(v: seq<real>)
    requires |v| >= 1 && v[|v| - 1] == 2.0 && forall i :: 0 <= i < |v| - 1 ==> v[i] == 1.0
    ensures Sum(v) == |v| as real + 1.0
  {
    var ones := v[..|v| - 1];
    assert v == ones + [2.0];
    SumSplit(ones, [2.0]);
    SumBelow(ones, 1.0);
    SumAbove(ones, 1.0);
  }

  /** The mean of a two and otherwise ones. */
  function TiedMean(m: nat): real
    requires m >= 1
  {
    (m as real + 1.0) / m as real
  }

  lemma StepsTail(n: nat, c: nat, p: real)
    requires c < n && 0.0 < p <= 1.0
    ensures TailMean(Steps(n, c), p) == TiedMean(n - c)
  {
    var v := Steps(n, c);
    var i := TailIsSuffix(v, p);
    assert v[c] >= p;
    assert c > 0 ==> v[c - 1] < p;
    assert i == c;
    OnesThenTwo(v[c..]);
  }

  lemma LongerTailIsLower(k: nat)
    requires k >= 1
    ensures TiedMean(k) > TiedMean(k + 1)
  {
    var m, q := k as real, TiedMean(k + 1);
    Quotient(m + 2.0, m + 1.0);
    assert q * (m + 1.0) == q * m + q;
    QuotientAtMost(m + 2.0, m + 1.0, 1.0);
    QuotientAtMost(m + 1.0, m, q);
  }

  lemma StepsPercentile(n: nat, q: real, c: nat)
    requires n >= 2 && 0.0 <= q <= 100.0
    requires var g := Ceil(Rank(n, q)); g <= n - 2 && c <= g <= c + 1
    ensures 0.0 < Percentile(Steps(n, c), q) <= 1.0
  {
    PercentileBetween(Steps(n, c), q);
  }

  lemma StepsCVaR(n: nat, alpha: real, c: nat, g: nat)
    requires n >= 2 && 0.0 <= alpha <= 1.0
    requires g == Ceil(Rank(n, alpha * 100.0)) && g <= n - 2 && c <= g <= c + 1
    ensures CVaR(Steps(n, c), alpha) == TiedMean(n - c)
  {
    StepsPercentile(n, alpha * 100.0, c);
    StepsTail(n, c, Percentile(Steps(n, c), alpha * 100.0));
    SortSorted(Steps(n, c));
  }

  lemma StepsBelow(n: nat, c: nat)
    requires 1 <= c < n
    ensures Below(Steps(n, c), Steps(n, c - 1))
  {
  }

  lemma StepsLowered(n: nat, alpha: real, c: nat)
    requires 0.0 <= alpha <= 1.0 && 1 <= c <= n - 2 && Ceil(Rank(n, alpha * 100.0)) == c
    ensures CVaR(Steps(n, c), alpha) > CVaR(Steps(n, c - 1), alpha)
  {
    StepsCVaR(n, alpha, c, c);
    StepsCVaR(n, alpha, c - 1, c);
    TiedMeansFall(n - c, n - (c - 1));
  }

  lemma TiedMeansFall(k: nat, l: nat)
    requires k >= 1 && l == k + 1
    ensures TiedMean(k) > TiedMean(l)
  {
    LongerTailIsLower(k);
  }

  /** Between level zero and the levels that pick the maximum, raising one loss to a tie at the rank widens the tail
      and lowers its mean. */
  lemma CVaRNotMonotone(n: nat, alpha: real) returns (a: seq<real>, b: seq<real>)
    requires n >= 1 && 0.0 < alpha <= 1.0 && !TopRank(n, alpha)
    ensures |a| == n && Below(a, b) && CVaR(a, alpha) > CVaR(b, alpha)
  {
    var c := InnerRank(n, alpha);
    a, b := Steps(n, c), Steps(n, c - 1);
    StepsBelow(n, c);
    StepsLowered(n, alpha, c);
  }

  lemma InnerRank(n: nat, alpha: real) returns (c: nat)
    requires n >= 1 && 0.0 < alpha <= 1.0 && !TopRank(n, alpha)
    ensures c == Ceil(Rank(n, alpha * 100.0)) && 1 <= c <= n - 2
  {
    SingletonTop(alpha);
    TopRankBeyond(n, alpha);
    RankInRange(n, alpha * 100.0);
    RankPositive(n, alpha);
    c := Ceil(Rank(n, alpha * 100.0));
  }

  lemma RankPositive(n: nat, alpha: real)
    requires n >= 2 && alpha > 0.0
    ensures Rank(n, alpha * 100.0) > 0.0
  {
    assert (alpha * 100.0) / 100.0 == alpha;
    PosMul(n as real - 1.0, alpha);
  }

  /** CVaR is monotone in the losses, over all samples of size `n`, exactly at level zero and at the levels at which it
      is the maximum. */
  lemma CVaRMonotoneExactly(n: nat, alpha: real)
    requires n >= 1 && 0.0 <= alpha <= 1.0
    ensures (forall a: seq<real>, b: seq<real> :: |a| == n && Below(a, b) ==> CVaR(a, alpha) <= CVaR(b, alpha))
            <==> alpha == 0.0 || TopRank(n, alpha)
  {
    if alpha == 0.0 || TopRank(n, alpha) {
      forall a: seq<real>, b: seq<real> | |a| == n && Below(a, b) ensures CVaR(a, alpha) <= CVaR(b, alpha) {
        if alpha == 0.0 {
          ZeroCVaR(a, alpha);
          ZeroCVaR(b, alpha);
          MeanMonotone(a, b);
        } else {
          TopCVaR(a, alpha);
          TopCVaR(b, alpha);
          MaxMonotone(a, b);
        }
      }
    } else {
      var a, b := CVaRNotMonotone(n, alpha);
    }
  }
}
