/** The obstruction of coherence over a bounded window of sections. */
module Coherence {
  import opened Collections
  import opened Contracts
  import opened RealArith
  import opened Sections
  import opened Certificates
  import opened Windows

  // ----- the cycle error of one episode -----

  /** `vocabulary`: that of the scenario's signature, when the scenario is known and has one. */
  datatype CycleSignals = CycleSignals(
    symbols: set<string>,
    vocabulary: Option<set<string>>,
    formulaValidated: Option<bool>,
    solverSatisfied: Option<bool>,
    directionMatch: Option<bool>,
    agreement: Option<bool>)

  function Miss(ok: bool): real {
    if ok then 0.0 else 1.0
  }

  function SymbolGap(s: CycleSignals): real {
    if s.symbols == {} || s.vocabulary.None? || s.vocabulary.value == {} then 0.5
    else 1.0 - |s.symbols * s.vocabulary.value| as real / |s.symbols| as real
  }

  function FormulaGap(s: CycleSignals): real {
    if s.formulaValidated.Some? then Miss(s.formulaValidated.value)
    else if s.solverSatisfied.Some? then Miss(s.solverSatisfied.value)
    else 0.5
  }

  function DynamicsGap(s: CycleSignals): real {
    match (s.directionMatch, s.agreement)
    case (Some(d), Some(a)) => (Miss(d) + Miss(a)) / 2.0
    case (Some(d), None) => Miss(d)
    case (None, Some(a)) => Miss(a)
    case (None, None) => 0.5
  }

  function CycleGap(s: CycleSignals): real {
    Unit((SymbolGap(s) + FormulaGap(s) + DynamicsGap(s)) / 3.0)
  }

  /** The error as it is recorded and used. */
  function CycleError(s: CycleSignals): real {
    Round6(CycleGap(s))
  }

  /** Every leg was measured and closes. */
  predicate Closes(s: CycleSignals) {
    && s.symbols != {} && s.vocabulary.Some? && s.symbols <= s.vocabulary.value
    && (s.formulaValidated == Some(true) || (s.formulaValidated.None? && s.solverSatisfied == Some(true)))
    && (s.directionMatch.Some? || s.agreement.Some?)
    && s.directionMatch != Some(false) && s.agreement != Some(false)
  }

  lemma CoverageGap(symbols: set<string>, vocabulary: set<string>)
    requires symbols != {}
    ensures var gap := 1.0 - |symbols * vocabulary| as real / |symbols| as real;
            0.0 <= gap <= 1.0 && (gap == 0.0 <==> symbols <= vocabulary)
  {
    var known, all := |symbols * vocabulary| as real, |symbols| as real;
    SplitBy(symbols, vocabulary);
    QuotientAtLeast(known, all, 0.0);
    QuotientAtMost(known, all, 1.0);
    QuotientAtLeast(known, all, 1.0);
    if symbols <= vocabulary {
      assert symbols - vocabulary == {};
    } else {
      var x :| x in symbols && x !in vocabulary;
      assert x in symbols - vocabulary;
    }
  }

  lemma GapOfOneSymbol(symbols: set<string>, vocabulary: set<string>)
    requires symbols != {} && !(symbols <= vocabulary) && |symbols| <= 600000
    ensures 1.0 - |symbols * vocabulary| as real / |symbols| as real > 0.0000015
  {
    var known, all := |symbols * vocabulary| as real, |symbols| as real;
    SplitBy(symbols, vocabulary);
    var x :| x in symbols && x !in vocabulary;
    assert x in symbols - vocabulary;
    assert |symbols| >= 1 && |symbols * vocabulary| <= |symbols| - 1;
    assert 0.0 < all <= 600000.0 && known <= all - 1.0;
    assert known <= 0.9999984 * all;
    QuotientAtMost(known, all, 0.9999984);
  }

  lemma RoundsToZero(x: real)
    requires x >= 0.0
    ensures Round6(x) == 0.0 <==> x <= HALF_MICRO
  {
  }

  /** The clamp never acts, and the gap is zero exactly when every leg was measured and closes. The recorded error is
      zero exactly when the gap is at most half a unit of the sixth decimal, which is the same for any formula of at most
      600000 symbols. */
  lemma CycleCloses(s: CycleSignals)
    ensures CycleGap(s) == (SymbolGap(s) + FormulaGap(s) + DynamicsGap(s)) / 3.0
    ensures CycleGap(s) == 0.0 <==> Closes(s)
    ensures CycleError(s) == 0.0 <==> CycleGap(s) <= HALF_MICRO
    ensures |s.symbols| <= 600000 ==> (CycleError(s) == 0.0 <==> Closes(s))
  {
    if s.symbols != {} && s.vocabulary.Some? {
      CoverageGap(s.symbols, s.vocabulary.value);
      if !(s.symbols <= s.vocabulary.value) && |s.symbols| <= 600000 {
        GapOfOneSymbol(s.symbols, s.vocabulary.value);
      }
    }
    RoundsToZero(CycleGap(s));
  }

  /** The share of a formula's symbols that the vocabulary does not know. */
  function Unknown(symbols: set<string>, vocabulary: set<string>): real
    requires symbols != {}
  {
    |symbols - vocabulary| as real / |symbols| as real
  }

  /** The cycle's three legs in the signals: a leg that was not measured counts one half, a leg that fails one, and of the
      symbols the share that is not known; two signals about the dynamics count half each. */
  lemma CycleExactly(s: CycleSignals)
    ensures 3.0 * CycleGap(s) ==
              (if s.symbols == {} || s.vocabulary.None? || s.vocabulary == Some({}) then 0.5
               else Unknown(s.symbols, s.vocabulary.value))
              + (match (s.formulaValidated, s.solverSatisfied)
                 case (Some(ok), _) => if ok then 0.0 else 1.0
                 case (None, Some(ok)) => if ok then 0.0 else 1.0
                 case (None, None) => 0.5)
              + (match (s.directionMatch, s.agreement)
                 case (None, None) => 0.5
                 case (Some(true), Some(false)) => 0.5
                 case (Some(false), Some(true)) => 0.5
                 case _ => if s.directionMatch == Some(false) || s.agreement == Some(false) then 1.0 else 0.0)
  {
    CycleCloses(s);
    if s.symbols != {} && s.vocabulary.Some? {
      SplitBy(s.symbols, s.vocabulary.value);
      Complement(|s.symbols * s.vocabulary.value| as real, |s.symbols - s.vocabulary.value| as real,
                 |s.symbols| as real);
    }
  }

  // ----- the obstruction block -----

  type Engine = (string, string) -> Option<Morphism>

  /** No transport is computed within a scenario or for an unnamed one. */
  function MorphismOf(engine: Engine, source: string, target: string): Option<Morphism> {
    if source == "" || target == "" || source == target then None else engine(source, target)
  }

  function PairsOf(engine: Engine, window: seq<Section>, current: Section): seq<Divergence> {
    if window == [] then []
    else
      var last := window[|window| - 1];
      PairsOf(engine, window[..|window| - 1], current)
      + [SectionDivergence(last, current, MorphismOf(engine, last.scenario, current.scenario))]
  }

  /** Of the divergences as they are recorded. */
  function SumTotals(pairs: seq<Divergence>): real {
    if pairs == [] then 0.0 else Round6(pairs[0].total) + SumTotals(pairs[1..])
  }

  function MeanTotal(pairs: seq<Divergence>): real {
    if pairs == [] then 0.0 else SumTotals(pairs) / |pairs| as real
  }

  datatype Lambdas = Lambdas(omega: real, cycle: real)

  datatype OmegaBlock = OmegaBlock(omega: real, pairs: seq<Divergence>, iocStar: real, deltaStar: Option<real>)

  /** The change of the corrected index, as it is recorded. */
  function ChangeOf(previous: Option<real>, star: real): Option<real> {
    if previous.Some? then Some(Round6(star - previous.value)) else None
  }

  function BlockOf(
    pairs: seq<Divergence>, lambdas: Lambdas, previousStar: Option<real>, ioc: real, cycle: real): OmegaBlock
  {
    var omega := MeanTotal(pairs) + lambdas.cycle * cycle;
    var star := Unit(ioc - lambdas.omega * omega);
    OmegaBlock(omega, pairs, star, ChangeOf(previousStar, star))
  }

  function OmegaBlockOf(
    engine: Engine, lambdas: Lambdas, window: seq<Section>, previousStar: Option<real>,
    current: Section, ioc: real, cycle: real): OmegaBlock
  {
    BlockOf(PairsOf(engine, window, current), lambdas, previousStar, ioc, cycle)
  }

  lemma {:induction false} PairsRange(engine: Engine, window: seq<Section>, current: Section)
    ensures |PairsOf(engine, window, current)| == |window|
    ensures forall p :: p in PairsOf(engine, window, current) ==> 0.0 <= p.total <= 1.0
  {
    if window != [] { PairsRange(engine, window[..|window| - 1], current); }
  }

  lemma {:induction false} SumRange(pairs: seq<Divergence>)
    requires forall p :: p in pairs ==> 0.0 <= p.total <= 1.0
    ensures 0.0 <= SumTotals(pairs) <= |pairs| as real
  {
    if pairs != [] {
      assert pairs[0] in pairs;
      RoundUnit(pairs[0].total);
      SumRange(pairs[1..]);
    }
  }

  lemma MeanRange(pairs: seq<Divergence>)
    requires forall p :: p in pairs ==> 0.0 <= p.total <= 1.0
    ensures 0.0 <= MeanTotal(pairs) <= 1.0
  {
    SumRange(pairs);
    if pairs != [] {
      QuotientAtLeast(SumTotals(pairs), |pairs| as real, 0.0);
      QuotientAtMost(SumTotals(pairs), |pairs| as real, 1.0);
    }
  }

  lemma WeightedRange(mean: real, w: real, cycle: real)
    requires w >= 0.0 && 0.0 <= cycle <= 1.0 && 0.0 <= mean <= 1.0
    ensures 0.0 <= mean + w * cycle <= 1.0 + w
  {
    NonNegMul(w, cycle);
    NonNegMul(w, 1.0 - cycle);
    assert w * cycle + w * (1.0 - cycle) == w;
  }

  lemma Lowered(ioc: real, l: real, omega: real)
    requires 0.0 <= ioc && l >= 0.0 && omega >= 0.0
    ensures Unit(ioc - l * omega) <= ioc
  {
    NonNegMul(l, omega);
  }

  /** With non-negative weights the obstruction is bounded by 1 plus the cycle weight,
      and the corrected index never exceeds the index. */
  lemma BlockLowers(pairs: seq<Divergence>, lambdas: Lambdas, previousStar: Option<real>, ioc: real, cycle: real)
    requires lambdas.omega >= 0.0 && lambdas.cycle >= 0.0 && 0.0 <= cycle <= 1.0 && 0.0 <= ioc <= 1.0
    requires forall p :: p in pairs ==> 0.0 <= p.total <= 1.0
    ensures var b := BlockOf(pairs, lambdas, previousStar, ioc, cycle);
            0.0 <= b.omega <= 1.0 + lambdas.cycle && 0.0 <= b.iocStar <= ioc
  {
    MeanRange(pairs);
    WeightedRange(MeanTotal(pairs), lambdas.cycle, cycle);
    Lowered(ioc, lambdas.omega, MeanTotal(pairs) + lambdas.cycle * cycle);
  }

  lemma ObstructionOnlyLowers(
    engine: Engine, lambdas: Lambdas, window: seq<Section>, previousStar: Option<real>,
    current: Section, ioc: real, cycle: real)
    requires lambdas.omega >= 0.0 && lambdas.cycle >= 0.0 && 0.0 <= cycle <= 1.0 && 0.0 <= ioc <= 1.0
    ensures var b := OmegaBlockOf(engine, lambdas, window, previousStar, current, ioc, cycle);
            0.0 <= b.omega <= 1.0 + lambdas.cycle && 0.0 <= b.iocStar <= ioc
  {
    PairsRange(engine, window, current);
    BlockLowers(PairsOf(engine, window, current), lambdas, previousStar, ioc, cycle);
  }

  /** The clamp did not act. */
  predicate Inside(b: OmegaBlock) {
    0.0 < b.iocStar < 1.0
  }

  /** Where no clamp acts, the corrected index falls in proportion with the mean divergence and with the cycle error: at
      the default weights by three tenths of the one and fifteen hundredths of the other. */
  lemma IndexFalls(
    pairs: seq<Divergence>, more: seq<Divergence>, lambdas: Lambdas, previous: Option<real>, ioc: real,
    cycle: real, worse: real)
    requires Inside(BlockOf(pairs, lambdas, previous, ioc, cycle)) && Inside(BlockOf(more, lambdas, previous, ioc, worse))
    ensures var star, lower := BlockOf(pairs, lambdas, previous, ioc, cycle).iocStar,
                               BlockOf(more, lambdas, previous, ioc, worse).iocStar;
            && star - lower == lambdas.omega * ((MeanTotal(more) - MeanTotal(pairs)) + lambdas.cycle * (worse - cycle))
            && (lambdas == Lambdas(0.30, 0.50) ==>
                  star - lower == 0.30 * (MeanTotal(more) - MeanTotal(pairs)) + 0.15 * (worse - cycle))
  {
    Weighted(lambdas.omega, lambdas.cycle, MeanTotal(pairs), MeanTotal(more), cycle, worse);
  }

  lemma Weighted(l: real, w: real, a: real, b: real, c: real, d: real)
    ensures l * (b + w * d) - l * (a + w * c) == l * ((b - a) + w * (d - c))
  {
  }

  /** The recorded change is that of the corrected index, up to half a unit of its last decimal; there is none without an
      index before. */
  lemma ChangeTells(pairs: seq<Divergence>, lambdas: Lambdas, previous: Option<real>, ioc: real, cycle: real)
    ensures var b := BlockOf(pairs, lambdas, previous, ioc, cycle);
            && (b.deltaStar.None? <==> previous.None?)
            && (previous.Some? ==>
                  b.iocStar - previous.value - 0.0000005 <= b.deltaStar.value <= b.iocStar - previous.value + 0.0000005)
  {
  }

  /** Without anything to compare with and without a cycle error the index stays, and an error alone costs its share. */
  lemma FirstBlock(lambdas: Lambdas, previous: Option<real>, ioc: real, cycle: real)
    requires lambdas == Lambdas(0.30, 0.50) && 0.0 <= cycle <= 1.0 && 0.0 <= ioc <= 1.0
    ensures BlockOf([], lambdas, previous, ioc, cycle).iocStar == if ioc < 0.15 * cycle then 0.0 else ioc - 0.15 * cycle
    ensures BlockOf([], lambdas, previous, ioc, cycle).omega == 0.50 * cycle
  {
  }

  lemma {:induction false} TotalsConcat(a: seq<Divergence>, b: seq<Divergence>)
    ensures SumTotals(a + b) == SumTotals(a) + SumTotals(b)
  {
    if a == [] {
      assert a + b == b;
    } else {
      assert (a + b)[1..] == a[1..] + b;
      TotalsConcat(a[1..], b);
    }
  }

  lemma MeanTimesCount(pairs: seq<Divergence>)
    ensures MeanTotal(pairs) * |pairs| as real == SumTotals(pairs)
  {
    if pairs != [] { Quotient(SumTotals(pairs), |pairs| as real); }
  }

  /** The mean divergence of a window is the mean of its parts, and of a single pair its recorded divergence. */
  lemma MeanOfParts(a: seq<Divergence>, b: seq<Divergence>, d: Divergence)
    ensures MeanTotal(a + b) * |a + b| as real == MeanTotal(a) * |a| as real + MeanTotal(b) * |b| as real
    ensures MeanTotal([d]) == Round6(d.total)
  {
    TotalsConcat(a, b);
    MeanTimesCount(a + b);
    MeanTimesCount(a);
    MeanTimesCount(b);
    MeanOfOne(d);
  }

  lemma MeanOfOne(d: Divergence)
    ensures MeanTotal([d]) == Round6(d.total)
  {
    assert [d][1..] == [] && SumTotals([d]) == Round6(d.total);
    QuotientByOne(SumTotals([d]));
  }

  lemma QuotientByOne(x: real)
    ensures x / 1.0 == x
  {
  }

  lemma {:induction false} PairOf(engine: Engine, window: seq<Section>, current: Section, i: nat)
    requires i < |window|
    ensures |PairsOf(engine, window, current)| == |window|
    ensures PairsOf(engine, window, current)[i]
            == SectionDivergence(window[i], current, MorphismOf(engine, window[i].scenario, current.scenario))
  {
    var n := |window| - 1;
    PairsRange(engine, window, current);
    PairsRange(engine, window[..n], current);
    if i < n { PairOf(engine, window[..n], current, i); }
  }

  /** Each section of the window is compared with the current one, in order: within a scenario or without a name as they
      are, across scenarios along the engine's answer. */
  lemma PairAt(engine: Engine, window: seq<Section>, current: Section, i: nat)
    requires i < |window| == |PairsOf(engine, window, current)|
    ensures var past, pair := window[i], PairsOf(engine, window, current)[i];
            pair == SectionDivergence(past, current,
                                      if past.scenario == current.scenario || past.scenario == "" || current.scenario == ""
                                      then None else engine(past.scenario, current.scenario))
  {
    PairOf(engine, window, current, i);
  }

  // ----- the tracker -----

  class CoherenceTracker {
    const engine: Engine
    const lambdas: Lambdas
    const window: nat
    var sections: map<string, seq<Section>>
    var starPrev: map<string, real>
    var cache: map<(string, string), Option<Morphism>>

    constructor (engine: Engine, lambdas: Lambdas := Lambdas(0.30, 0.50), window: nat := 4)
      ensures Valid()
      ensures this.engine == engine && this.lambdas == lambdas && this.window == window
      ensures sections == map[] && starPrev == map[]
    {
      this.engine, this.lambdas, this.window := engine, lambdas, window;
      sections, starPrev, cache := map[], map[], map[];
    }

    ghost predicate Valid()
      reads this
    {
      && starPrev.Keys == sections.Keys
      && forall key :: key in cache ==> cache[key] == engine(key.0, key.1)
    }

    /** The window as the next assessment will find it; `listing` is the store's answer, newest first. */
    ghost function WindowFor(run: string, listing: Option<seq<Certificate>>): seq<Section>
      reads this
    {
      if run in sections then sections[run]
      else if listing.Some? then LastN(Mapped(Reversed(listing.value), SectionOfCertificate), window)
      else []
    }

    ghost function StarFor(run: string, listing: Option<seq<Certificate>>): Option<real>
      reads this
    {
      if run in starPrev then Some(starPrev[run])
      else if listing.Some? && listing.value != [] then listing.value[0].iocStar
      else None
    }

    /** The engine's answer, computed at most once for a pair of scenarios. */
    method MorphismFor(source: string, target: string) returns (m: Option<Morphism>)
      requires Valid()
      modifies this`cache
      ensures Valid()
      ensures m == MorphismOf(engine, source, target)
    {
      if source == "" || target == "" || source == target { return None; }
      var key := (source, target);
      if key in cache { return cache[key]; }
      m := engine(source, target);
      cache := cache[key := m];
    }

    method ComparePairs(before: seq<Section>, current: Section) returns (pairs: seq<Divergence>)
      requires Valid()
      modifies this`cache
      ensures Valid()
      ensures pairs == PairsOf(engine, before, current)
    {
      pairs := [];
      for i := 0 to |before|
        invariant Valid()
        invariant pairs == PairsOf(engine, before[..i], current)
      {
        assert before[..i + 1][..i] == before[..i];
        var m := MorphismFor(before[i].scenario, current.scenario);
        pairs := pairs + [SectionDivergence(before[i], current, m)];
      }
      assert before[..|before|] == before;
    }

    method Assess(run: string, current: Section, ioc: real, cycle: real, listing: Option<seq<Certificate>>)
      returns (block: OmegaBlock)
      requires Valid()
      modifies this
      ensures Valid()
      ensures block == OmegaBlockOf(engine, lambdas, old(WindowFor(run, listing)), old(StarFor(run, listing)),
                                    current, ioc, cycle)
      ensures sections == old(sections)[run := LastN(old(WindowFor(run, listing)) + [current], window)]
      ensures starPrev == old(starPrev)[run := block.iocStar]
    {
      var before: seq<Section> := [];
      var star: Option<real> := None;
      if run in sections {
        before := sections[run];
        star := Some(starPrev[run]);
      } else if listing.Some? {
        before := LastN(Mapped(Reversed(listing.value), SectionOfCertificate), window);
        if listing.value != [] { star := listing.value[0].iocStar; }
      }
      var pairs := ComparePairs(before, current);
      block := BlockOf(pairs, lambdas, star, ioc, cycle);
      starPrev := starPrev[run := block.iocStar];
      sections := sections[run := LastN(before + [current], window)];
    }
  }
}
