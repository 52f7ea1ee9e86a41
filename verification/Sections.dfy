/** Local sections of episodes and the divergence between two of them. */
module Sections {
  import opened Collections
  import opened Contracts
  import opened RealArith

  // ----- Jaccard similarity -----

  function Jaccard(a: set<string>, b: set<string>): real {
    if a == {} && b == {} then 1.0
    else
      assert a + b != {};
      |a * b| as real / |a + b| as real
  }

  function JaccardDistance(a: set<string>, b: set<string>): real {
    1.0 - Jaccard(a, b)
  }

  lemma SplitBy(s: set<string>, t: set<string>)
    ensures |s| == |s * t| + |s - t|
  {
    assert s == (s * t) + (s - t);
  }

  /** The number of elements in exactly one of the two sets. */
  function Apart(a: set<string>, b: set<string>): nat {
    |a - b| + |b - a|
  }

  lemma UnionSize(a: set<string>, b: set<string>)
    ensures |a + b| == |a * b| + Apart(a, b)
  {
    assert a + b == (a - b) + (b - a) + (a * b);
    assert |(a - b) + (b - a)| == |a - b| + |b - a|;
  }

  lemma DistanceIsShareApart(a: set<string>, b: set<string>)
    requires a + b != {}
    ensures JaccardDistance(a, b) == Apart(a, b) as real / |a + b| as real
  {
    UnionSize(a, b);
    Complement(|a * b| as real, Apart(a, b) as real, |a + b| as real);
  }

  lemma Complement(x: real, y: real, n: real)
    requires n > 0.0 && x + y == n
    ensures 1.0 - x / n == y / n
  {
    var q := x / n;
    Quotient(x, n);
    assert (1.0 - q) * n == y;
    QuotientAtMost(y, n, 1.0 - q);
    QuotientAtLeast(y, n, 1.0 - q);
  }

  lemma JaccardRange(a: set<string>, b: set<string>)
    ensures 0.0 <= Jaccard(a, b) <= 1.0
    ensures Jaccard(a, b) == 1.0 <==> a == b
    ensures Jaccard(a, b) == Jaccard(b, a)
  {
    if a != {} || b != {} {
      UnionSize(a, b);
      assert a + b == b + a && a * b == b * a;
      QuotientAtLeast(|a * b| as real, |a + b| as real, 0.0);
      QuotientAtMost(|a * b| as real, |a + b| as real, 1.0);
      QuotientAtLeast(|a * b| as real, |a + b| as real, 1.0);
      if Apart(a, b) == 0 {
        assert a - b == {} && b - a == {};
        assert a == b;
      }
      if a == b { assert a * b == a && a + b == a; }
    }
  }

  /** What sets a and c apart, and what only b adds, is seen by the detour through b. */
  lemma Detour(a: set<string>, b: set<string>, c: set<string>)
    ensures Apart(a, c) + |b - (a + c)| <= Apart(a, b) + Apart(b, c)
    ensures |a + b + c| == |a + c| + |b - (a + c)|
  {
    SplitBy(a - c, b);
    SplitBy(c - a, b);
    SubsetSize((a - c) - b, a - b);
    SubsetSize((c - a) - b, c - b);
    SubsetSize((c - a) * b, b - a);
    assert ((a - c) * b) !! (b - (a + c));
    SubsetSize(((a - c) * b) + (b - (a + c)), b - c);
    assert a + b + c == (a + c) + (b - (a + c));
  }

  lemma GrowFraction(x: real, n: real, t: real)
    requires 0.0 <= x <= n && n > 0.0 && t >= 0.0
    ensures x / n <= (x + t) / (n + t)
  {
    var q := x / n;
    Quotient(x, n);
    QuotientAtMost(x, n, 1.0);
    NonNegMul(1.0 - q, t);
    assert q * (n + t) == x + q * t;
    QuotientAtLeast(x + t, n + t, q);
  }

  lemma ShrinkFraction(x: real, n: real, m: real)
    requires 0.0 <= x && 0.0 < n <= m
    ensures x / m <= x / n
  {
    var q := x / n;
    Quotient(x, n);
    QuotientAtLeast(x, n, 0.0);
    MulMono(n, m, q);
    QuotientAtMost(x, m, q);
  }

  /** The share apart, over any common base that holds the union, is a lower bound of the distance. */
  lemma DistanceAtLeast(a: set<string>, b: set<string>, base: nat)
    requires |a + b| <= base && base > 0
    ensures Apart(a, b) as real / base as real <= JaccardDistance(a, b)
  {
    if a + b == {} {
      assert a == {} && b == {};
      assert Apart(a, b) == 0;
    } else {
      DistanceIsShareApart(a, b);
      ShrinkFraction(Apart(a, b) as real, |a + b| as real, base as real);
    }
  }

  lemma AddFractions(x: real, y: real, z: real, n: real)
    requires n > 0.0 && x <= y + z
    ensures x / n <= y / n + z / n
  {
    Quotient(y, n);
    Quotient(z, n);
    var q, r := y / n, z / n;
    assert (q + r) * n == y + z;
    QuotientAtMost(x, n, q + r);
  }

  lemma JaccardTriangle(a: set<string>, b: set<string>, c: set<string>)
    ensures JaccardDistance(a, c) <= JaccardDistance(a, b) + JaccardDistance(b, c)
  {
    if a + c == {} {
      assert a == {} && c == {};
      JaccardRange(a, b);
      JaccardRange(b, c);
    } else {
      Detour(a, b, c);
      var t, u := |b - (a + c)|, |a + b + c|;
      SubsetSize(a + b, a + b + c);
      SubsetSize(b + c, a + b + c);
      DistanceAtLeast(a, b, u);
      DistanceAtLeast(b, c, u);
      DistanceIsShareApart(a, c);
      UnionSize(a, c);
      GrowFraction(Apart(a, c) as real, |a + c| as real, t as real);
      AddFractions((Apart(a, c) + t) as real, Apart(a, b) as real, Apart(b, c) as real, u as real);
    }
  }

  // ----- normalised formulas -----

  /** The separator does not occur in a word, and a word is not empty. */
  predicate IsWord(w: string) {
    w != "" && ' ' !in w
  }

  type Word = w: string | IsWord(w) witness "w"

  predicate Words(tokens: seq<string>) {
    forall i :: 0 <= i < |tokens| ==> IsWord(tokens[i])
  }

  function Join(tokens: seq<string>): string {
    if tokens == [] then ""
    else if |tokens| == 1 then tokens[0]
    else tokens[0] + [' '] + Join(tokens[1..])
  }

  /** A word followed by a separator or nothing is as long as any word that starts the same text. */
  lemma NotShorter(u: string, x: string, v: string, text: string)
    requires IsWord(v) && text == u + x && v <= text && (x == "" || x[0] == ' ')
    ensures |v| <= |u|
  {
    if x != "" {
      assert text[|u|] == ' ';
      assert forall i :: 0 <= i < |v| ==> text[i] == v[i] && v[i] in v;
    }
  }

  lemma FirstWord(u: string, x: string, v: string, y: string)
    requires IsWord(u) && IsWord(v) && u + x == v + y
    requires (x == "" || x[0] == ' ') && (y == "" || y[0] == ' ')
    ensures u == v && x == y
  {
    var s := u + x;
    NotShorter(u, x, v, s);
    NotShorter(v, y, u, s);
    assert u == s[..|u|] && v == s[..|v|];
    assert x == s[|u|..] && y == s[|v|..];
  }

  function Rest(tokens: seq<string>): string
    requires tokens != []
  {
    if |tokens| == 1 then "" else [' '] + Join(tokens[1..])
  }

  lemma JoinSplit(tokens: seq<string>)
    requires tokens != []
    ensures Join(tokens) == tokens[0] + Rest(tokens)
  {
  }

  /** Joining words with a separator loses nothing. */
  lemma {:induction false} JoinInjective(a: seq<string>, b: seq<string>)
    requires Words(a) && Words(b) && Join(a) == Join(b)
    ensures a == b
  {
    if a != [] && b != [] {
      JoinSplit(a);
      JoinSplit(b);
      FirstWord(a[0], Rest(a), b[0], Rest(b));
      if |a| > 1 && |b| > 1 {
        assert Join(a[1..]) == Rest(a)[1..] && Join(b[1..]) == Rest(b)[1..];
        JoinInjective(a[1..], b[1..]);
      }
    } else if a != [] {
      JoinSplit(a);
    } else if b != [] {
      JoinSplit(b);
    }
  }

  // ----- sections -----

  datatype Section = Section(
    scenario: string,
    symbols: set<string>,
    relationKind: Option<string>,
    formulaNorm: string,
    formulaTokens: set<string>,
    mainVariable: string,
    value: Option<real>,
    alarm: Option<real>)

  /** The normal form and the token set come from one list of words. */
  ghost predicate WellFormed(s: Section) {
    exists tokens :: Words(tokens) && s.formulaNorm == Join(tokens) && s.formulaTokens == (set t | t in tokens)
  }

  lemma SameNormSameTokens(a: Section, b: Section)
    requires WellFormed(a) && WellFormed(b) && a.formulaNorm == b.formulaNorm
    ensures a.formulaTokens == b.formulaTokens
  {
    var s :| Words(s) && a.formulaNorm == Join(s) && a.formulaTokens == (set t | t in s);
    var r :| Words(r) && b.formulaNorm == Join(r) && b.formulaTokens == (set t | t in r);
    JoinInjective(s, r);
  }

  /** A transport between scenarios. `hostile`: its class is adversarial or incompatible. */
  datatype Morphism = Morphism(
    hostile: bool, propositions: map<string, string>, overall: Option<real>, informationLoss: Option<real>)

  datatype Divergence = Divergence(dS: real, dF: real, dW: real, total: real)

  function Abs(x: real): real {
    if x < 0.0 then -x else x
  }

  function Larger(x: real, y: real): real {
    if x > y then x else y
  }

  function Transported(symbols: set<string>, m: Option<Morphism>): set<string> {
    if m.None? then symbols
    else set s | s in symbols :: if s in m.value.propositions then m.value.propositions[s] else s
  }

  /** A relation that was not recorded reads as the empty name. */
  function RelationName(s: Section): string {
    if s.relationKind.Some? then s.relationKind.value else ""
  }

  function RelationGap(a: Section, b: Section): real {
    if RelationName(a) != RelationName(b) then 1.0 else 0.0
  }

  function MeaningGap(symbols: set<string>, a: Section, b: Section): real {
    Unit(0.7 * (1.0 - Jaccard(symbols, b.symbols)) + 0.3 * RelationGap(a, b))
  }

  function FormGap(a: Section, b: Section): real {
    if a.formulaNorm == b.formulaNorm && a.formulaNorm != "" then 0.0
    else Unit(1.0 - Jaccard(a.formulaTokens, b.formulaTokens))
  }

  function WorldGap(a: Section, b: Section): real {
    if a.value.Some? && b.value.Some? then Unit(Abs(a.value.value - b.value.value)) else 0.5
  }

  /** An absent number, and a zero as well, reads as the default. */
  function NumberOr(x: Option<real>, default_: real): real {
    if x.None? || x.value == 0.0 then default_ else x.value
  }

  function TransportedWorldGap(raw: real, m: Morphism): real {
    var overall := Unit(NumberOr(m.overall, 0.0));
    var loss := Unit(NumberOr(m.informationLoss, 1.0));
    var mixed := Unit(overall * raw + (1.0 - overall) * Larger(loss, raw));
    if m.hostile then Larger(mixed, 0.70) else mixed
  }

  function SectionDivergence(a: Section, b: Section, m: Option<Morphism> := None): Divergence {
    var dS := MeaningGap(Transported(a.symbols, m), a, b);
    var dF := FormGap(a, b);
    var raw := WorldGap(a, b);
    var dW := if m.Some? then TransportedWorldGap(raw, m.value) else raw;
    Divergence(dS, dF, dW, Unit((dS + dF + dW) / 3.0))
  }

  /** Every component lies between 0 and 1, so the outer clamp never acts; a hostile transport costs at least 0.70. */
  lemma DivergenceRange(a: Section, b: Section, m: Option<Morphism>)
    ensures var d := SectionDivergence(a, b, m);
            && 0.0 <= d.dS <= 1.0 && 0.0 <= d.dF <= 1.0 && 0.0 <= d.dW <= 1.0
            && d.total == (d.dS + d.dF + d.dW) / 3.0
            && (m.Some? && m.value.hostile ==> d.dW >= 0.70)
  {
  }

  // ----- without transport the divergence is a metric -----

  function Total(a: Section, b: Section): real {
    SectionDivergence(a, b).total
  }

  /** The three gaps without their clamps. */
  lemma Unclamped(a: Section, b: Section)
    requires WellFormed(a) && WellFormed(b)
    ensures MeaningGap(a.symbols, a, b) == 0.7 * JaccardDistance(a.symbols, b.symbols) + 0.3 * RelationGap(a, b)
    ensures FormGap(a, b) == JaccardDistance(a.formulaTokens, b.formulaTokens)
    ensures Total(a, b) == (MeaningGap(a.symbols, a, b) + FormGap(a, b) + WorldGap(a, b)) / 3.0
  {
    JaccardRange(a.symbols, b.symbols);
    JaccardRange(a.formulaTokens, b.formulaTokens);
    if a.formulaNorm == b.formulaNorm { SameNormSameTokens(a, b); }
  }

  lemma DivergenceSymmetric(a: Section, b: Section)
    ensures SectionDivergence(a, b) == SectionDivergence(b, a)
  {
    JaccardRange(a.symbols, b.symbols);
    JaccardRange(a.formulaTokens, b.formulaTokens);
  }

  lemma WorldTriangle(a: Section, b: Section, c: Section)
    ensures WorldGap(a, c) <= WorldGap(a, b) + WorldGap(b, c)
  {
  }

  lemma DivergenceTriangle(a: Section, b: Section, c: Section)
    requires WellFormed(a) && WellFormed(b) && WellFormed(c)
    ensures Total(a, c) <= Total(a, b) + Total(b, c)
  {
    Unclamped(a, b);
    Unclamped(b, c);
    Unclamped(a, c);
    JaccardTriangle(a.symbols, b.symbols, c.symbols);
    JaccardTriangle(a.formulaTokens, b.formulaTokens, c.formulaTokens);
    WorldTriangle(a, b, c);
  }

  /** Zero divergence means the same symbols, relation, tokens and measured value; in particular a section
      is at zero from itself exactly when its value was measured. */
  lemma ZeroDivergence(a: Section, b: Section)
    requires WellFormed(a) && WellFormed(b)
    ensures Total(a, b) == 0.0 <==>
            && a.symbols == b.symbols && RelationName(a) == RelationName(b)
            && a.formulaTokens == b.formulaTokens && a.value.Some? && a.value == b.value
  {
    Unclamped(a, b);
    JaccardRange(a.symbols, b.symbols);
    JaccardRange(a.formulaTokens, b.formulaTokens);
  }

  // ----- what each difference costs -----

  /** The share of elements that are in exactly one of two sets; none for two empty sets. */
  function ShareApart(a: set<string>, b: set<string>): real {
    if a + b == {} then 0.0 else (|a - b| + |b - a|) as real / |a + b| as real
  }

  lemma DistanceMeans(a: set<string>, b: set<string>)
    ensures JaccardDistance(a, b) == ShareApart(a, b)
    ensures 0.0 <= ShareApart(a, b) <= 1.0
  {
    JaccardRange(a, b);
    if a + b == {} { assert a == {} && b == {}; } else { DistanceIsShareApart(a, b); }
  }

  /** The two measured values differ by this much. */
  function Gap(a: Section, b: Section): Option<real> {
    if a.value.None? || b.value.None? then None
    else if a.value.value >= b.value.value then Some(a.value.value - b.value.value)
    else Some(b.value.value - a.value.value)
  }

  /** What a gap of values costs: its size up to one, and one half when a value was not measured. */
  predicate Costs(gap: Option<real>, cost: real) {
    match gap
    case None => cost == 0.5
    case Some(g) => cost == if g < 1.0 then g else 1.0
  }

  /** Between sections of well-formed formulas, in thirtieths: seven for symbols apart, three for another relation, ten for
      tokens apart, and ten for the gap of values; so an unmeasured value alone costs one sixth. */
  lemma DivergenceExactly(a: Section, b: Section, world: real)
    requires WellFormed(a) && WellFormed(b) && Costs(Gap(a, b), world)
    ensures 30.0 * Total(a, b) ==
              7.0 * ShareApart(a.symbols, b.symbols) + (if RelationName(a) == RelationName(b) then 0.0 else 3.0)
              + 10.0 * ShareApart(a.formulaTokens, b.formulaTokens) + 10.0 * world
    ensures a.symbols == b.symbols && RelationName(a) == RelationName(b) && a.formulaTokens == b.formulaTokens
              && Gap(a, b).None? ==>
              Total(a, b) == 1.0 / 6.0
  {
    Unclamped(a, b);
    DistanceMeans(a.symbols, b.symbols);
    DistanceMeans(a.formulaTokens, b.formulaTokens);
    JaccardRange(a.symbols, b.symbols);
    JaccardRange(a.formulaTokens, b.formulaTokens);
  }

  /** What a transport says it loses, beyond the gap it starts from. */
  function Excess(m: Morphism, world: real): real {
    var loss := if m.informationLoss.None? || m.informationLoss.value == 0.0 then 1.0 else m.informationLoss.value;
    if loss > world then loss - world else 0.0
  }

  /** A transport never makes the world look closer: it adds what it loses beyond the gap, in the share that it does not
      carry, and a hostile one costs at least seven tenths. */
  lemma TransportCosts(a: Section, b: Section, m: Morphism, world: real)
    requires Costs(Gap(a, b), world)
    requires m.overall.Some? ==> 0.0 <= m.overall.value <= 1.0
    requires m.informationLoss.Some? ==> 0.0 <= m.informationLoss.value <= 1.0
    ensures var carried := if m.overall.Some? then m.overall.value else 0.0;
            var cost := world + (1.0 - carried) * Excess(m, world);
            SectionDivergence(a, b, Some(m)).dW == (if m.hostile && cost < 0.70 then 0.70 else cost)
            && cost >= world
  {
    assert WorldGap(a, b) == world;
    TransportedGap(world, m);
  }

  lemma TransportedGap(world: real, m: Morphism)
    requires 0.0 <= world <= 1.0
    requires m.overall.Some? ==> 0.0 <= m.overall.value <= 1.0
    requires m.informationLoss.Some? ==> 0.0 <= m.informationLoss.value <= 1.0
    ensures var carried := if m.overall.Some? then m.overall.value else 0.0;
            var cost := world + (1.0 - carried) * Excess(m, world);
            TransportedWorldGap(world, m) == (if m.hostile && cost < 0.70 then 0.70 else cost) && cost >= world
  {
    var carried, loss := if m.overall.Some? then m.overall.value else 0.0, NumberOr(m.informationLoss, 1.0);
    MixedGap(carried, world, loss);
    UnclampedTransport(world, m, carried, loss, carried * world + (1.0 - carried) * Larger(loss, world));
  }

  /** No clamp of a transport acts on numbers in range. */
  lemma UnclampedTransport(world: real, m: Morphism, carried: real, loss: real, mixed: real)
    requires carried == NumberOr(m.overall, 0.0) && loss == NumberOr(m.informationLoss, 1.0)
    requires 0.0 <= carried <= 1.0 && 0.0 <= loss <= 1.0 && 0.0 <= mixed <= 1.0
    requires mixed == carried * world + (1.0 - carried) * Larger(loss, world)
    ensures TransportedWorldGap(world, m) == if m.hostile then Larger(mixed, 0.70) else mixed
  {
    assert Unit(carried) == carried && Unit(loss) == loss && Unit(mixed) == mixed;
  }

  lemma MixedGap(carried: real, world: real, loss: real)
    requires 0.0 <= carried <= 1.0 && 0.0 <= world <= 1.0 && 0.0 <= loss <= 1.0
    ensures var excess := if loss > world then loss - world else 0.0;
            var mixed := carried * world + (1.0 - carried) * Larger(loss, world);
            mixed == world + (1.0 - carried) * excess && world <= mixed <= 1.0
  {
    var excess := if loss > world then loss - world else 0.0;
    NonNegMul(1.0 - carried, excess);
    MulMono(1.0 - carried, 1.0, excess);
    assert Larger(loss, world) == world + excess;
    assert (1.0 - carried) * (world + excess) == world - carried * world + (1.0 - carried) * excess;
  }

  /** The symbols are compared after renaming them; a transport touches nothing else of meaning and form. */
  lemma TransportRenames(a: Section, b: Section, m: Morphism)
    ensures var renamed := set s | s in a.symbols :: if s in m.propositions then m.propositions[s] else s;
            var d, plain := SectionDivergence(a, b, Some(m)), SectionDivergence(a.(symbols := renamed), b);
            d.dS == plain.dS && d.dF == plain.dF
    ensures 3.0 * SectionDivergence(a, b, Some(m)).total
            == SectionDivergence(a, b, Some(m)).dS + SectionDivergence(a, b, Some(m)).dF
               + SectionDivergence(a, b, Some(m)).dW
  {
    DivergenceRange(a, b, Some(m));
  }
}
