/** How the transfer posterior responds to the purity of memory, for all evidence. */
module PurityEffect {
  import opened Contracts
  import opened RealArith
  import opened FailureModes
  import opened TransferPosterior

  /** The modes that do not depend on purity. */
  function OtherModes(x: TransferInput): seq<Mode> {
    var m := EvidenceOf(x);
    Raised(PolicyDrift, m) + Raised(BeliefCollapse, m) + Raised(TraceDiscontinuity, m)
    + Raised(CausalInversion, m) + Raised(MorphismFailure, m)
  }

  function At(x: TransferInput, purity: real): TransferInput {
    x.(purity := purity)
  }

  function Contamination(purity: real): Mode {
    Mode(MemoryContamination, if purity < 0.40 then Critical else High, Round4(1.0 - purity))
  }

  lemma Associate<T>(a: seq<T>, b: seq<T>, c: seq<T>, d: seq<T>, e: seq<T>, f: seq<T>)
    ensures a + b + c + d + e + f == a + (b + c + d + e + f)
  {
  }

  lemma ModesAt(x: TransferInput, u: real)
    ensures Detected(AllModes, EvidenceOf(At(x, u)))
            == (if u < 0.70 then [Contamination(u)] else []) + OtherModes(x)
  {
    var m, n := EvidenceOf(At(x, u)), EvidenceOf(x);
    Associate(Raised(MemoryContamination, m), Raised(PolicyDrift, m), Raised(BeliefCollapse, m),
              Raised(TraceDiscontinuity, m), Raised(CausalInversion, m), Raised(MorphismFailure, m));
    assert Raised(PolicyDrift, m) == Raised(PolicyDrift, n) && Raised(BeliefCollapse, m) == Raised(BeliefCollapse, n);
    assert Raised(TraceDiscontinuity, m) == Raised(TraceDiscontinuity, n);
    assert Raised(CausalInversion, m) == Raised(CausalInversion, n);
    assert Raised(MorphismFailure, m) == Raised(MorphismFailure, n);
  }

  // ----- the aggregated risk -----

  lemma {:induction false} WeightedCons(a: Mode, s: seq<Mode>)
    ensures WeightedSum([a] + s) == Weight(a.severity) * a.evidence + WeightedSum(s)
  {
    if s == [] {
      assert [a] + s == [a] && [a][..0] == [];
    } else {
      var n := |s| - 1;
      assert ([a] + s)[..n + 1] == [a] + s[..n];
      WeightedCons(a, s[..n]);
    }
  }

  /** The average of a sum over a count, at most one. */
  function Average(sum: real, count: nat): real {
    if count == 0 then 0.0 else if sum / count as real > 1.0 then 1.0 else sum / count as real
  }

  function Excess(u: real): real {
    (if u < 0.40 then 1.0 else 0.6) * Round4(1.0 - u)
  }

  /** The recorded risk at a purity, beside the other modes. */
  function RiskAt(sum: real, count: nat, u: real): real {
    Round4(if u < 0.70 then Average(sum + Excess(u), count + 1) else Average(sum, count))
  }

  lemma TotalIsAverage(modes: seq<Mode>)
    ensures TotalRisk(modes) == Average(WeightedSum(modes), |modes|)
  {
  }

  lemma SumAt(x: TransferInput, u: real, modes: seq<Mode>)
    requires modes == (if u < 0.70 then [Contamination(u)] else []) + OtherModes(x)
    ensures var s, n := WeightedSum(OtherModes(x)), |OtherModes(x)|;
            && WeightedSum(modes) == (if u < 0.70 then s + Excess(u) else s)
            && |modes| == if u < 0.70 then n + 1 else n
  {
    if u < 0.70 { WeightedCons(Contamination(u), OtherModes(x)); } else { assert modes == OtherModes(x); }
  }

  lemma TotalRiskAt(x: TransferInput, u: real)
    ensures var s, n := WeightedSum(OtherModes(x)), |OtherModes(x)|;
            AssessmentOf(EvidenceOf(At(x, u)), AllModes).totalRisk == RiskAt(s, n, u)
  {
    var modes := Detected(AllModes, EvidenceOf(At(x, u)));
    ModesAt(x, u);
    SumAt(x, u, modes);
    TotalIsAverage(modes);
  }

  lemma OthersNonNegative(x: TransferInput)
    ensures WeightedSum(OtherModes(x)) >= 0.0
  {
    forall d | d in OtherModes(x) ensures d.evidence >= 0.0 {
      var m := EvidenceOf(x);
      assert || d in Raised(PolicyDrift, m) || d in Raised(BeliefCollapse, m) || d in Raised(TraceDiscontinuity, m)
             || d in Raised(CausalInversion, m) || d in Raised(MorphismFailure, m);
      RoundNonNegative(if m.policyConfidence.value < 0.50 then 1.0 - m.policyConfidence.value else 0.0);
      RoundNonNegative(if m.shiftKl.value > 0.40 then m.shiftKl.value else 0.0);
      RoundNonNegative(if m.causalSupport.value < 0.60 then 1.0 - m.causalSupport.value else 0.0);
      RoundNonNegative(if m.morphismScore.value < 0.35 then 1.0 - m.morphismScore.value else 0.0);
    }
    SumNonNegative(OtherModes(x));
  }

  lemma AverageOrder(s: real, t: real, n: nat)
    requires s <= t && n >= 1
    ensures Average(s, n) <= Average(t, n)
  {
    Quotient(t, n as real);
    QuotientAtMost(s, n as real, t / n as real);
  }

  lemma ExcessFalls(u: real, v: real)
    requires 0.0 <= u <= v < 0.70
    ensures Excess(u) >= Excess(v) >= 0.18
  {
    RoundExact(0.3, 3000);
    Round4Monotone(0.3, 1.0 - v);
    Round4Monotone(1.0 - v, 1.0 - u);
    RoundNonNegative(1.0 - u);
  }

  /** The recorded risk just below the purity at which contamination is no longer reported. */
  function BrinkRisk(sum: real, count: nat): real {
    Round4(Average(sum + 0.18, count + 1))
  }

  function SpotlessRisk(sum: real, count: nat): real {
    Round4(Average(sum, count))
  }

  const BRINK := 0.69996

  lemma BrinkIsReached(s: real, n: nat)
    ensures RiskAt(s, n, BRINK) == BrinkRisk(s, n) && RiskAt(s, n, 0.70) == SpotlessRisk(s, n) == RiskAt(s, n, 1.0)
  {
    assert RoundToInt(3000.4) == 3000;
    assert Round4(1.0 - BRINK) == 0.3;
  }

  lemma RiskFalls(s: real, n: nat, u: real, v: real)
    requires 0.0 <= u <= v <= 1.0 && SpotlessRisk(s, n) <= BrinkRisk(s, n)
    ensures RiskAt(s, n, u) >= RiskAt(s, n, v)
  {
    if v < 0.70 {
      ExcessFalls(u, v);
      AverageOrder(s + Excess(v), s + Excess(u), n + 1);
      Round4Monotone(Average(s + Excess(v), n + 1), Average(s + Excess(u), n + 1));
    } else if u < 0.70 {
      ExcessFalls(u, u);
      AverageOrder(s + 0.18, s + Excess(u), n + 1);
      Round4Monotone(Average(s + 0.18, n + 1), Average(s + Excess(u), n + 1));
    }
  }

  lemma RoundedApart(x: real, y: real)
    requires Round4(x) > Round4(y)
    ensures Round4(x) - Round4(y) >= 0.0001
  {
    assert RoundToInt(x * 10000.0) >= RoundToInt(y * 10000.0) + 1;
  }

  /** Where the recorded risk jumps up, it does so by more than purity weighs. */
  lemma RiskJumps(s: real, n: nat)
    requires SpotlessRisk(s, n) > BrinkRisk(s, n)
    ensures 0.25 * BRINK - 0.20 * RiskAt(s, n, BRINK) > 0.25 * 0.70 - 0.20 * RiskAt(s, n, 0.70)
  {
    BrinkIsReached(s, n);
    RoundedApart(Average(s, n), Average(s + 0.18, n + 1));
  }

  // ----- the posterior -----

  /** Stability and concurrence in range, and no sequential risk process. */
  predicate Ordinary(x: TransferInput) {
    0.0 <= x.stability <= 1.0 && 0.0 <= x.eml <= 1.0 && x.sequentialRisk.None?
  }

  /** The likelihood without its clamp. */
  function RawLikelihood(x: TransferInput, u: real, risk: real): real {
    0.25 * u + 0.30 * x.stability + 0.15 * (if x.trace then 1.0 else 0.3) + 0.10 * x.eml + 0.20 * (1.0 - risk)
  }

  lemma LikelihoodAt(x: TransferInput, u: real)
    ensures var s, n := WeightedSum(OtherModes(x)), |OtherModes(x)|;
            ComputeTransferPosterior(At(x, u)).likelihood == ClampProbability(RawLikelihood(x, u, RiskAt(s, n, u)))
  {
    TotalRiskAt(x, u);
  }

  lemma AverageRange(s: real, n: nat)
    requires s >= 0.0
    ensures 0.0 <= Average(s, n) <= 1.0
  {
    if n > 0 { QuotientAtLeast(s, n as real, 0.0); }
  }

  ghost predicate MonotoneInPurity(x: TransferInput) {
    forall u, v :: 0.0 <= u <= v <= 1.0 ==>
      ComputeTransferPosterior(At(x, u)).posterior <= ComputeTransferPosterior(At(x, v)).posterior
  }

  lemma LikelihoodDrops(x: TransferInput, s: real, n: nat, u: real)
    requires Ordinary(x) && s >= 0.0 && 0.40 <= u < 0.70
    requires 0.25 * u - 0.20 * RiskAt(s, n, u) > 0.25 * 0.70 - 0.20 * RiskAt(s, n, 0.70)
    ensures ClampProbability(RawLikelihood(x, u, RiskAt(s, n, u)))
            > ClampProbability(RawLikelihood(x, 0.70, RiskAt(s, n, 0.70)))
  {
    RoundNonNegative(1.0 - u);
    AverageRange(s + Excess(u), n + 1);
    AverageRange(s, n);
    RoundUnit(Average(s + Excess(u), n + 1));
    RoundUnit(Average(s, n));
  }

  lemma MonotoneBySums(x: TransferInput)
    requires Ordinary(x)
    ensures var s, n := WeightedSum(OtherModes(x)), |OtherModes(x)|;
            MonotoneInPurity(x) <==> SpotlessRisk(s, n) <= BrinkRisk(s, n)
  {
    var s, n := WeightedSum(OtherModes(x)), |OtherModes(x)|;
    OthersNonNegative(x);
    if SpotlessRisk(s, n) <= BrinkRisk(s, n) {
      forall u, v | 0.0 <= u <= v <= 1.0
        ensures ComputeTransferPosterior(At(x, u)).posterior <= ComputeTransferPosterior(At(x, v)).posterior
      {
        RiskFalls(s, n, u, v);
        LikelihoodAt(x, u);
        LikelihoodAt(x, v);
        PosteriorOrder(At(x, u), At(x, v));
      }
    } else {
      RiskJumps(s, n);
      LikelihoodDrops(x, s, n, BRINK);
      LikelihoodAt(x, BRINK);
      LikelihoodAt(x, 0.70);
      PosteriorOrder(At(x, BRINK), At(x, 0.70));
    }
  }

  /** For all evidence: the posterior never falls as purity rises exactly when the recorded risk of a spotless memory is
      not above that of a memory at the brink of being reported. */
  lemma MonotoneExactly(x: TransferInput)
    requires Ordinary(x)
    ensures MonotoneInPurity(x) <==>
              AssessmentOf(EvidenceOf(At(x, 1.0)), AllModes).totalRisk
              <= AssessmentOf(EvidenceOf(At(x, BRINK)), AllModes).totalRisk
  {
    MonotoneBySums(x);
    TotalRiskAt(x, 1.0);
    TotalRiskAt(x, BRINK);
    BrinkIsReached(WeightedSum(OtherModes(x)), |OtherModes(x)|);
  }

  lemma {:induction false} SumAtMostCount(modes: seq<Mode>)
    requires forall d :: d in modes ==> 0.0 <= d.evidence <= 1.0
    ensures WeightedSum(modes) <= |modes| as real
  {
    if modes != [] {
      var n := |modes| - 1;
      assert modes[n] in modes;
      SumAtMostCount(modes[..n]);
    }
  }

  lemma OthersInUnit(x: TransferInput)
    requires UnitEvidence(EvidenceOf(x))
    ensures WeightedSum(OtherModes(x)) <= |OtherModes(x)| as real
  {
    forall d | d in OtherModes(x) ensures 0.0 <= d.evidence <= 1.0 {
      var m := EvidenceOf(x);
      assert || d in Raised(PolicyDrift, m) || d in Raised(BeliefCollapse, m) || d in Raised(TraceDiscontinuity, m)
             || d in Raised(CausalInversion, m) || d in Raised(MorphismFailure, m);
      RoundUnit(1.0 - m.policyConfidence.value);
      RoundUnit(m.shiftKl.value);
      RoundUnit(1.0 - m.causalSupport.value);
      RoundUnit(1.0 - m.morphismScore.value);
    }
    SumAtMostCount(OtherModes(x));
  }

  lemma AtMostFive(x: TransferInput)
    ensures |OtherModes(x)| <= 5
  {
    var m := EvidenceOf(x);
    assert |Raised(PolicyDrift, m)| <= 1 && |Raised(BeliefCollapse, m)| <= 1 && |Raised(TraceDiscontinuity, m)| <= 1;
    assert |Raised(CausalInversion, m)| <= 1 && |Raised(MorphismFailure, m)| <= 1;
  }

  /** The average of n values is `q`; with 0.18 added to them it is nearer to 0.18. */
  lemma BrinkAverage(s: real, n: nat)
    requires 0.0 <= s <= n as real
    ensures n > 0 ==> 0.0 <= Average(s, n) <= 1.0
                      && Average(s + 0.18, n + 1) * (n as real + 1.0) == Average(s, n) * n as real + 0.18
    ensures n == 0 ==> Average(s, n) == 0.0
  {
    if n > 0 {
      var k := (n + 1) as real;
      QuotientAtLeast(s, n as real, 0.0);
      QuotientAtMost(s, n as real, 1.0);
      QuotientAtMost(s + 0.18, k, 1.0);
      Quotient(s, n as real);
      Quotient(s + 0.18, k);
    }
  }

  lemma BetweenBrinks(q: real, b: real, n: real)
    requires 1.0 <= n <= 5.0 && b * (n + 1.0) == q * n + 0.18
    ensures q <= 0.18 ==> q <= b
    ensures q >= 0.18 ==> b >= 0.18 && q - b >= (q - 0.18) / 6.0
  {
    assert (b - q) * (n + 1.0) == 0.18 - q;
    if q <= 0.18 { CancelMul(0.0, b - q, n + 1.0); }
    if q >= 0.18 {
      NonNegMul(n, q - 0.18);
      assert (b - 0.18) * (n + 1.0) == n * (q - 0.18);
      CancelMul(0.0, b - 0.18, n + 1.0);
      var d := q - b;
      assert d * (n + 1.0) == q - 0.18;
      CancelMul(0.0, d, n + 1.0);
      NonNegMul(d, 5.0 - n);
      assert d * (5.0 - n) == 6.0 * d - d * (n + 1.0);
    }
  }

  lemma RoundedBrinks(q: real, b: real)
    requires q <= 0.18 ==> q <= b
    requires q >= 0.18 ==> b >= 0.18 && q - b >= (q - 0.18) / 6.0
    ensures Round4(q) <= 0.18 ==> Round4(q) <= Round4(b)
    ensures Round4(q) >= 0.1807 ==> Round4(q) > Round4(b)
  {
    RoundExact(0.18, 1800);
    if q <= 0.18 {
      Round4Monotone(q, b);
      Round4Monotone(q, 0.18);
    } else {
      Round4Monotone(0.18, b);
      if Round4(q) >= 0.1807 { assert q >= 0.18065 && q - b > 0.0001; }
    }
  }

  lemma BrinkThreshold(s: real, n: nat)
    requires 0.0 <= s <= n as real && n <= 5
    ensures SpotlessRisk(s, n) <= 0.18 ==> SpotlessRisk(s, n) <= BrinkRisk(s, n)
    ensures SpotlessRisk(s, n) >= 0.1807 ==> SpotlessRisk(s, n) > BrinkRisk(s, n)
  {
    var q, b := Average(s, n), Average(s + 0.18, n + 1);
    BrinkAverage(s, n);
    if n == 0 { AverageRange(s + 0.18, n + 1); } else { BetweenBrinks(q, b, n as real); }
    RoundedBrinks(q, b);
  }

  /** With evidence in range, in terms of the recorded risk that a spotless memory leaves: up to 0.18 the posterior is
      monotone in purity, from 0.1807 on it is not; in between the rounding of the two risks decides. */
  lemma PurityBoundary(x: TransferInput)
    requires Ordinary(x) && UnitEvidence(EvidenceOf(x))
    ensures var spotless := AssessmentOf(EvidenceOf(At(x, 1.0)), AllModes).totalRisk;
            && (spotless <= 0.18 ==> MonotoneInPurity(x))
            && (spotless >= 0.1807 ==> !MonotoneInPurity(x))
  {
    var s, n := WeightedSum(OtherModes(x)), |OtherModes(x)|;
    MonotoneBySums(x);
    OthersNonNegative(x);
    OthersInUnit(x);
    AtMostFive(x);
    TotalRiskAt(x, 1.0);
    BrinkIsReached(s, n);
    BrinkThreshold(s, n);
  }
}
