/** The Bayesian transfer posterior, its bounds and the certificate scope. */
module TransferPosterior {
  import opened Contracts
  import opened RealArith
  import opened AgrestiCoull
  import opened FailureModes

  datatype MorphismClass = Isomorphic | Homomorphic | Analogical | Adversarial | Incompatible | OtherClass

  datatype CertificateScope = LocalScope | CompatibleTransfer | AnalogicalHint | BlockedScope

  const THRESHOLD := 0.60

  function ClampProbability(x: real): (r: real)
    ensures 0.01 <= r <= 0.99
  {
    if x > 0.99 then 0.99 else if x < 0.01 then 0.01 else x
  }

  function BasePrior(c: MorphismClass): real {
    match c
    case Isomorphic => 0.95
    case Homomorphic => 0.80
    case Analogical => 0.45
    case Adversarial => 0.15
    case Incompatible => 0.05
    case OtherClass => 0.30
  }

  /** The class counts as much as five earlier transfers. */
  function Blended(base: real, rate: real, historical: nat): real {
    (5.0 * base + historical as real * rate) / (5 + historical) as real
  }

  function Prior(c: MorphismClass, rate: Option<real>, historical: int): (r: real)
    ensures 0.01 <= r <= 0.99
  {
    if rate.Some? && historical > 0
    then ClampProbability(Blended(BasePrior(c), rate.value, historical))
    else ClampProbability(BasePrior(c))
  }

  function Likelihood(purity: real, stability: real, trace: bool, eml: real, risk: real): (r: real)
    ensures 0.01 <= r <= 0.99
  {
    ClampProbability(0.25 * purity + 0.30 * stability + 0.15 * (if trace then 1.0 else 0.3)
                     + 0.10 * eml + 0.20 * (1.0 - risk))
  }

  function Product(a: real, b: real): (r: real)
    requires a > 0.0 && b > 0.0
    ensures r > 0.0
  {
    PosMul(a, b);
    a * b
  }

  function Share(a: real, b: real): (r: real)
    requires a > 0.0 && b > 0.0
    ensures 0.0 < r < 1.0
  {
    QuotientAtMost(a, a + b, 0.0);
    QuotientAtLeast(a, a + b, 1.0);
    a / (a + b)
  }

  function Bayes(prior: real, likelihood: real): (p: real)
    requires 0.01 <= prior <= 0.99 && 0.01 <= likelihood <= 0.99
    ensures 0.0 < p < 1.0
  {
    Share(Product(prior, likelihood), Product(1.0 - prior, 1.0 - likelihood))
  }

  /** `sequentialRisk` is the score of the sequential risk process, when that mode is on and has a state. */
  function Posterior(prior: real, likelihood: real, sequentialRisk: Option<real>): (p: real)
    requires 0.01 <= prior <= 0.99 && 0.01 <= likelihood <= 0.99
    ensures 0.0 < p < 1.0
  {
    var p := Bayes(prior, likelihood);
    if sequentialRisk.Some? then ClampProbability(0.70 * p + 0.30 * (1.0 - sequentialRisk.value)) else p
  }

  /** The scope from the estimate and its lower bound, as the code decides it. */
  function DetermineScope(
    posterior: real, lcb: real, c: MorphismClass, blocking: bool, cross: bool, threshold: real): CertificateScope
  {
    if blocking then BlockedScope
    else if !cross then LocalScope
    else if lcb >= threshold && (c.Isomorphic? || c.Homomorphic?) then CompatibleTransfer
    else if posterior >= 0.40 && (c.Isomorphic? || c.Homomorphic? || c.Analogical?) then AnalogicalHint
    else if posterior < 0.25 || lcb < 0.15 then BlockedScope
    else AnalogicalHint
  }

  /** The same scope with the bound compared without taking a root. */
  function ScopeOf(
    posterior: real, n: int, c: MorphismClass, blocking: bool, cross: bool, threshold: real): CertificateScope
  {
    if blocking then BlockedScope
    else if !cross then LocalScope
    else if Reaches(posterior, n, Level95, threshold) && (c.Isomorphic? || c.Homomorphic?) then CompatibleTransfer
    else if posterior >= 0.40 && (c.Isomorphic? || c.Homomorphic? || c.Analogical?) then AnalogicalHint
    else if posterior < 0.25 || !Reaches(posterior, n, Level95, 0.15) then BlockedScope
    else AnalogicalHint
  }

  /** With the root that the code takes, both decide the same scope. */
  lemma ScopeIsRootFree(
    posterior: real, n: int, c: MorphismClass, blocking: bool, cross: bool, threshold: real, root: real)
    requires 0.0 <= posterior <= 1.0
    requires n > 0 ==> IsRoot(root, Variance(posterior, n, Level95))
    ensures DetermineScope(posterior, Lower(posterior, n, Level95, root), c, blocking, cross, threshold)
            == ScopeOf(posterior, n, c, blocking, cross, threshold)
  {
    LowerReaches(posterior, n, Level95, root, threshold);
    LowerReaches(posterior, n, Level95, root, 0.15);
  }

  function ScopeRank(s: CertificateScope): nat {
    match s
    case BlockedScope => 0
    case LocalScope => 1
    case AnalogicalHint => 2
    case CompatibleTransfer => 3
  }

  /** With everything else fixed, a larger posterior never lowers the scope. */
  lemma ScopeMonotone(
    p: real, q: real, n: int, c: MorphismClass, blocking: bool, cross: bool, threshold: real)
    requires 0.0 <= p <= q <= 1.0
    ensures ScopeRank(ScopeOf(p, n, c, blocking, cross, threshold))
            <= ScopeRank(ScopeOf(q, n, c, blocking, cross, threshold))
  {
    if Reaches(p, n, Level95, threshold) { ReachesMonotone(p, q, n, Level95, threshold); }
    if Reaches(p, n, Level95, 0.15) { ReachesMonotone(p, q, n, Level95, 0.15); }
  }

  // ----- the whole computation -----

  datatype TransferInput = TransferInput(
    source: string,
    target: string,
    class_: MorphismClass,
    morphismScore: real,
    purity: real,
    stability: real,
    trace: bool,
    eml: real,
    polarityInversion: bool,
    policyConfidence: real,
    causalSupport: real,
    shiftKl: real,
    rate: Option<real>,
    historical: int,
    sequentialRisk: Option<real>)

  /** The detectors receive the same numbers as the likelihood. */
  function EvidenceOf(x: TransferInput): Measured {
    Measured(Some(x.purity), Some(x.policyConfidence), Some(x.shiftKl), Some(x.trace), Some(x.causalSupport),
             Some(x.morphismScore), x.polarityInversion)
  }

  datatype TransferResult = TransferResult(
    prior: real, likelihood: real, posterior: real, observations: int, scope: CertificateScope, modes: Assessment)

  function ComputeTransferPosterior(x: TransferInput, threshold: real := THRESHOLD): (r: TransferResult)
    ensures 0.0 < r.posterior < 1.0
  {
    var modes := AssessmentOf(EvidenceOf(x), AllModes);
    var prior := Prior(x.class_, x.rate, x.historical);
    var likelihood := Likelihood(x.purity, x.stability, x.trace, x.eml, modes.totalRisk);
    var posterior := Posterior(prior, likelihood, x.sequentialRisk);
    var n := 5 + x.historical;
    TransferResult(prior, likelihood, posterior, n,
                   ScopeOf(posterior, n, x.class_, modes.blocking, x.source != x.target, threshold), modes)
  }

  // ----- how the posterior moves -----

  lemma ShareOrder(a: real, b: real, c: real, d: real)
    requires a > 0.0 && b > 0.0 && c > 0.0 && d > 0.0
    ensures Share(a, b) <= Share(c, d) <==> a * d <= c * b
  {
    var q := Share(c, d);
    Quotient(c, c + d);
    QuotientAtMost(a, a + b, q);
    assert q * (c + d) == c;
    if a * d <= c * b {
      assert (q * (a + b)) * (c + d) == c * (a + b) == c * a + c * b;
      assert a * (c + d) == a * c + a * d;
      CancelMul(a, q * (a + b), c + d);
    } else if a <= q * (a + b) {
      MulMono(a, q * (a + b), c + d);
      assert (q * (a + b)) * (c + d) == c * (a + b) == c * a + c * b;
      assert a * (c + d) == a * c + a * d;
    }
  }

  lemma ScaleOrder(x: real, y: real, k: real)
    requires k > 0.0
    ensures x <= y <==> x * k <= y * k
  {
    if x <= y { MulMono(x, y, k); } else if x * k <= y * k { CancelMul(x, y, k); }
  }

  lemma OddsOrder(p: real, l: real, m: real, a: real, b: real, c: real, d: real)
    requires 0.0 < p < 1.0
    requires a == p * l && b == (1.0 - p) * (1.0 - l) && c == p * m && d == (1.0 - p) * (1.0 - m)
    ensures l <= m <==> a * d <= c * b
  {
    var k := p * (1.0 - p);
    PosMul(p, 1.0 - p);
    var x, y := l * (1.0 - m), m * (1.0 - l);
    assert x - y == l - m;
    ScaleOrder(x, y, k);
    assert a * d == x * k;
    assert c * b == y * k;
  }

  lemma ShareOfOdds(p: real, l: real, m: real, a: real, b: real, c: real, d: real)
    requires 0.0 < p < 1.0 && a > 0.0 && b > 0.0 && c > 0.0 && d > 0.0
    requires a == p * l && b == (1.0 - p) * (1.0 - l) && c == p * m && d == (1.0 - p) * (1.0 - m)
    ensures Share(a, b) <= Share(c, d) <==> l <= m
  {
    ShareOrder(a, b, c, d);
    OddsOrder(p, l, m, a, b, c, d);
  }

  /** A larger likelihood gives a larger posterior, and only a larger one does. */
  lemma BayesOrder(p: real, l: real, m: real)
    requires 0.01 <= p <= 0.99 && 0.01 <= l <= 0.99 && 0.01 <= m <= 0.99
    ensures Bayes(p, l) <= Bayes(p, m) <==> l <= m
  {
    ShareOfOdds(p, l, m, Product(p, l), Product(1.0 - p, 1.0 - l), Product(p, m), Product(1.0 - p, 1.0 - m));
  }

  lemma BayesSymmetric(p: real, l: real)
    requires 0.01 <= p <= 0.99 && 0.01 <= l <= 0.99
    ensures Bayes(p, l) == Bayes(l, p)
  {
  }

  /** Evidence of likelihood one half leaves the prior where it is; from there the posterior moves
      with the likelihood, and likewise with the prior. */
  lemma EvenEvidence(p: real, l: real)
    requires 0.01 <= p <= 0.99 && 0.01 <= l <= 0.99
    ensures Bayes(p, 0.5) == p
    ensures Bayes(p, l) >= p <==> l >= 0.5
    ensures Bayes(p, l) >= l <==> p >= 0.5
  {
    EvenShare(p);
    EvenShare(l);
    BayesOrder(p, 0.5, l);
    BayesSymmetric(p, l);
    BayesSymmetric(l, 0.5);
    BayesOrder(l, 0.5, p);
  }

  lemma EvenShare(p: real)
    requires 0.01 <= p <= 0.99
    ensures Bayes(p, 0.5) == p
  {
    assert p * 0.5 + (1.0 - p) * 0.5 == 0.5;
    QuotientAtMost(p * 0.5, 0.5, p);
    QuotientAtLeast(p * 0.5, 0.5, p);
  }

  lemma OddsOfShare(a: real, b: real)
    requires a > 0.0 && b > 0.0
    ensures Share(a, b) * b == (1.0 - Share(a, b)) * a
  {
    var q := a / (a + b);
    Quotient(a, a + b);
    assert q * (a + b) == q * a + q * b;
  }

  /** Odds multiply: those of the posterior are those of the prior times those of the likelihood. */
  lemma OddsMultiply(p: real, l: real)
    requires 0.01 <= p <= 0.99 && 0.01 <= l <= 0.99
    ensures Bayes(p, l) * ((1.0 - p) * (1.0 - l)) == (1.0 - Bayes(p, l)) * (p * l)
  {
    OddsOfShare(Product(p, l), Product(1.0 - p, 1.0 - l));
  }

  /** A score of the sequential risk process pulls the posterior three tenths of the way to what the score leaves, within
      one and ninety-nine hundredths. */
  lemma SequentialPull(p: real, l: real, score: real)
    requires 0.01 <= p <= 0.99 && 0.01 <= l <= 0.99
    ensures var pulled := Bayes(p, l) + 0.30 * ((1.0 - score) - Bayes(p, l));
            Posterior(p, l, Some(score)) == if pulled < 0.01 then 0.01 else if pulled > 0.99 then 0.99 else pulled
    ensures Posterior(p, l, None) == Bayes(p, l)
  {
  }

  /** The prior of a class without history. */
  predicate Presumed(c: MorphismClass, p: real) {
    match c
    case Isomorphic => p == 0.95
    case Homomorphic => p == 0.80
    case Analogical => p == 0.45
    case OtherClass => p == 0.30
    case Adversarial => p == 0.15
    case Incompatible => p == 0.05
  }

  /** How trusted a class is. */
  function Trust(c: MorphismClass): nat {
    match c
    case Isomorphic => 5
    case Homomorphic => 4
    case Analogical => 3
    case OtherClass => 2
    case Adversarial => 1
    case Incompatible => 0
  }

  /** Without history the prior is that of the class; `h` earlier transfers count against five of the class, within one and
      ninety-nine hundredths. */
  lemma PriorExactly(c: MorphismClass, rate: Option<real>, h: int, base: real)
    requires Presumed(c, base)
    ensures rate.None? || h <= 0 ==> Prior(c, rate, h) == base
    ensures rate.Some? && h > 0 ==>
              var sum, n := 5.0 * base + h as real * rate.value, 5.0 + h as real;
              if sum < 0.01 * n then Prior(c, rate, h) == 0.01
              else if sum > 0.99 * n then Prior(c, rate, h) == 0.99
              else Prior(c, rate, h) * n == sum
  {
    PresumedIsBase(c, base);
    if rate.Some? && h > 0 { BlendedMeans(base, rate.value, h); }
  }

  lemma PresumedIsBase(c: MorphismClass, base: real)
    ensures Presumed(c, base) <==> base == BasePrior(c)
  {
  }

  lemma BlendedMeans(base: real, rate: real, h: nat)
    ensures var sum, n, q := 5.0 * base + h as real * rate, 5.0 + h as real, Blended(base, rate, h);
            q * n == sum && (q < 0.01 <==> sum < 0.01 * n) && (q > 0.99 <==> sum > 0.99 * n)
  {
    var sum, n := 5.0 * base + h as real * rate, (5 + h) as real;
    Quotient(sum, n);
    QuotientAtLeast(sum, n, 0.01);
    QuotientAtMost(sum, n, 0.99);
  }

  /** With the same evidence and history, a more trusted class never has the lower posterior, and without history it has
      the higher one. */
  lemma ClassesInOrder(x: TransferInput, c: MorphismClass)
    requires x.sequentialRisk.None? && Trust(c) > Trust(x.class_)
    ensures var p, q := ComputeTransferPosterior(x).posterior, ComputeTransferPosterior(x.(class_ := c)).posterior;
            p <= q && (x.rate.None? || x.historical <= 0 ==> p < q)
  {
    var r, s := ComputeTransferPosterior(x), ComputeTransferPosterior(x.(class_ := c));
    PriorsInOrder(x.class_, c, x.rate, x.historical);
    BayesSymmetric(r.prior, r.likelihood);
    BayesSymmetric(s.prior, s.likelihood);
    BayesOrder(r.likelihood, r.prior, s.prior);
    BayesOrder(r.likelihood, s.prior, r.prior);
  }

  lemma PriorsInOrder(b: MorphismClass, c: MorphismClass, rate: Option<real>, h: int)
    requires Trust(c) > Trust(b)
    ensures Prior(b, rate, h) <= Prior(c, rate, h)
    ensures rate.None? || h <= 0 ==> Prior(b, rate, h) < Prior(c, rate, h)
  {
    assert BasePrior(b) < BasePrior(c);
    if rate.Some? && h > 0 { BlendedInOrder(BasePrior(b), BasePrior(c), rate.value, h); }
  }

  lemma BlendedInOrder(a: real, b: real, rate: real, h: nat)
    requires a < b
    ensures Blended(a, rate, h) <= Blended(b, rate, h)
  {
    var n, t := (5 + h) as real, h as real * rate;
    Quotient(5.0 * b + t, n);
    QuotientAtMost(5.0 * a + t, n, Blended(b, rate, h));
  }

  /** The likelihood is a mean of purity, stability, trace, concurrence and the absence of risk, in hundredths 25, 30, 15,
      10 and 20; a broken trace counts for three tenths, and certainty stops at 0.99. */
  lemma LikelihoodExactly(x: TransferInput)
    requires 0.0 <= x.purity <= 1.0 && 0.0 <= x.stability <= 1.0 && 0.0 <= x.eml <= 1.0
    requires UnitEvidence(EvidenceOf(x))
    ensures var r := ComputeTransferPosterior(x);
            var hundredths := 25.0 * x.purity + 30.0 * x.stability + (if x.trace then 15.0 else 4.5) + 10.0 * x.eml
                              + 20.0 - 20.0 * r.modes.totalRisk;
            100.0 * r.likelihood == if hundredths <= 99.0 then hundredths else 99.0
  {
    RiskInUnitInterval(EvidenceOf(x), AllModes);
  }

  /** A trace that is broken and nothing else wrong but, perhaps, the purity. */
  predicate OnlyTraceAndPurity(x: TransferInput) {
    && !x.trace && x.policyConfidence >= 0.50 && x.shiftKl <= 0.40 && !x.polarityInversion && x.morphismScore >= 0.35
    && 0.0 <= x.stability <= 1.0 && 0.0 <= x.eml <= 1.0 && x.sequentialRisk.None?
  }

  lemma TraceModes(x: TransferInput)
    requires OnlyTraceAndPurity(x) && 0.40 <= x.purity
    ensures Detected(AllModes, EvidenceOf(x))
            == Raise(x.purity < 0.70, MemoryContamination, High, Round4(1.0 - x.purity)) + [Mode(TraceDiscontinuity, High, 1.0)]
  {
    var m := EvidenceOf(x);
    assert RaisedIn(AllModes, PolicyDrift, m) == [] && RaisedIn(AllModes, BeliefCollapse, m) == [];
    assert RaisedIn(AllModes, CausalInversion, m) == [] && RaisedIn(AllModes, MorphismFailure, m) == [];
  }

  lemma RiskOfTwo(a: Mode, b: Mode)
    requires a.severity == High && 0.0 <= a.evidence <= 1.0 && b.severity == High && 0.0 <= b.evidence <= 1.0
    ensures TotalRisk([a, b]) == 0.3 * (a.evidence + b.evidence)
  {
    var s := [a, b];
    assert s[..1] == [a] && [a][..0] == [];
    assert WeightedSum([a]) == 0.6 * a.evidence;
    assert WeightedSum(s) == 0.6 * a.evidence + 0.6 * b.evidence && |s| as real == 2.0;
  }

  /** The recorded risk of a broken trace, beside a contamination of memory when that is reported. */
  function TraceRisk(purity: real): real {
    Round4(if purity < 0.70 then 0.3 * (1.0 + Round4(1.0 - purity)) else 0.6)
  }

  lemma TraceLikelihood(x: TransferInput)
    requires OnlyTraceAndPurity(x) && 0.40 <= x.purity <= 1.0
    ensures ComputeTransferPosterior(x).likelihood
            == 0.25 * x.purity + 0.30 * x.stability + 0.045 + 0.10 * x.eml + 0.20 * (1.0 - TraceRisk(x.purity))
  {
    var a, b := Mode(MemoryContamination, High, Round4(1.0 - x.purity)), Mode(TraceDiscontinuity, High, 1.0);
    TraceModes(x);
    RiskOfSingle(b);
    RoundUnit(1.0 - x.purity);
    if x.purity < 0.70 {
      RiskOfTwo(a, b);
      RoundUnit(0.3 * (1.0 + a.evidence));
      assert Detected(AllModes, EvidenceOf(x)) == [a, b];
    } else {
      RoundUnit(0.6);
      assert Detected(AllModes, EvidenceOf(x)) == [b];
    }
  }

  lemma PosteriorOrder(x: TransferInput, y: TransferInput)
    requires x.class_ == y.class_ && x.rate == y.rate && x.historical == y.historical
    requires x.sequentialRisk.None? && y.sequentialRisk.None?
    ensures ComputeTransferPosterior(x).posterior <= ComputeTransferPosterior(y).posterior
            <==> ComputeTransferPosterior(x).likelihood <= ComputeTransferPosterior(y).likelihood
  {
    var r, s := ComputeTransferPosterior(x), ComputeTransferPosterior(y);
    BayesOrder(r.prior, r.likelihood, s.likelihood);
  }

  lemma TraceRiskBoundary(purity: real)
    requires 0.40 <= purity < 0.70
    ensures 0.25 * purity - 0.20 * TraceRisk(purity) > 0.25 * 0.70 - 0.20 * TraceRisk(0.70) <==> purity > 0.56448
  {
    RoundExact(0.6, 6000);
    assert RoundToInt(4355.2) == 4355 && RoundToInt(4306.5) == 4306;
    assert Round4(0.43552) == 0.4355 && Round4(0.43065) == 0.4306;
    if purity > 0.56448 {
      Round4Monotone(1.0 - purity, 0.43552);
      Round4Monotone(0.3 * (1.0 + Round4(1.0 - purity)), 0.43065);
    } else {
      Round4Monotone(0.43552, 1.0 - purity);
      Round4Monotone(0.43065, 0.3 * (1.0 + Round4(1.0 - purity)));
    }
  }

  /** The aggregated risk is an average, so a second, milder mode lowers it: beside a broken trace, making a memory
      pure enough not to be reported lowers the posterior exactly when its purity was above 0.56448. */
  lemma PurityCanLower(x: TransferInput, y: TransferInput)
    requires OnlyTraceAndPurity(x) && 0.40 <= x.purity < 0.70 && y == x.(purity := 0.70)
    ensures ComputeTransferPosterior(y).posterior < ComputeTransferPosterior(x).posterior <==> x.purity > 0.56448
  {
    TraceLikelihood(x);
    TraceLikelihood(y);
    TraceRiskBoundary(x.purity);
    PosteriorOrder(x, y);
    PosteriorOrder(y, x);
  }

  // ----- the threshold 0.60 needs three historical observations -----

  /** The bound of a certain estimate misses 0.60 at this weight of the prior. */
  lemma CertainEstimateMisses(w: real)
    requires 0.3543 <= w <= 1.0
    ensures !ReachesAt(1.0, w, 0.60)
  {
    var m := 1.0 - w / 2.0;
    assert Mid(1.0, w) == m;
    NonNegMul(w - 0.3543, 1.0 - w);
    NonNegMul(w - 0.3543, w * (1.0 - w)) by { NonNegMul(w, 1.0 - w); }
    assert w * (m * (1.0 - m)) - (m - 0.60) * (m - 0.60) == 0.4 * w + w * w / 4.0 - w * w * w / 4.0 - 0.16;
  }

  lemma WeightOfFew(n: int)
    requires 0 < n <= 7
    ensures 0.3543 <= AgrestiCoull.Weight(n, Level95) <= 1.0
  {
    QuotientAtLeast(3.8416, n as real + 3.8416, 0.3543);
  }

  lemma FewObservationsMiss(p: real, n: int)
    requires 0.0 <= p <= 1.0 && n <= 7
    ensures !Reaches(p, n, Level95, 0.60)
  {
    if n > 0 && Reaches(p, n, Level95, 0.60) {
      ReachesMonotone(p, 1.0, n, Level95, 0.60);
      ReachesForm(1.0, n, Level95, 0.60);
      WeightOfFew(n);
      CertainEstimateMisses(AgrestiCoull.Weight(n, Level95));
    }
  }

  /** At the default threshold no input whatever is certified as compatible with fewer than three
      historical observations. */
  lemma CompatibleNeedsHistory(x: TransferInput)
    requires x.historical < 3
    ensures ComputeTransferPosterior(x).scope != CompatibleTransfer
  {
    var r := ComputeTransferPosterior(x);
    FewObservationsMiss(r.posterior, r.observations);
  }

  lemma NearCertainEstimateReaches(w: real)
    requires 0.0 < w <= 0.32443
    ensures ReachesAt(0.999, w, 0.60)
  {
    var m := 0.999 - 0.499 * w;
    assert Mid(0.999, w) == m;
    NonNegMul(w, 0.32443 - w);
    NonNegMul(w, w);
    NonNegMul(w * w, w);
    assert (m - 0.60) * (m - 0.60) - w * (m * (1.0 - m))
           == 0.159201 - 0.399201 * w - 0.249001 * (w * w) + 0.249001 * (w * w * w);
  }

  lemma WeightOfMany(n: int)
    requires n >= 8
    ensures 0.0 < AgrestiCoull.Weight(n, Level95) <= 0.32443
  {
    QuotientAtMost(3.8416, n as real + 3.8416, 0.32443);
  }

  lemma ManyObservationsReach(p: real, n: int)
    requires 0.999 <= p <= 1.0 && n >= 8
    ensures Reaches(p, n, Level95, 0.60)
  {
    WeightOfMany(n);
    NearCertainEstimateReaches(AgrestiCoull.Weight(n, Level95));
    ReachesForm(0.999, n, Level95, 0.60);
    ReachesMonotone(0.999, p, n, Level95, 0.60);
  }

  /** The best possible evidence for an isomorphic transfer with a spotless history. */
  function BestInput(historical: int): TransferInput {
    TransferInput("a", "b", Isomorphic, 1.0, 1.0, 1.0, true, 1.0, false, 1.0, 1.0, 0.0, Some(1.0), historical, None)
  }

  lemma BestModes(historical: int)
    ensures AssessmentOf(EvidenceOf(BestInput(historical)), AllModes).modes == []
  {
    var m := EvidenceOf(BestInput(historical));
    assert forall name :: Raised(name, m) == [];
  }

  lemma BestPosterior(historical: int)
    requires historical >= 3
    ensures 0.999 <= ComputeTransferPosterior(BestInput(historical)).posterior
  {
    BestModes(historical);
    var h := historical as real;
    QuotientAtLeast(4.75 + h, 5.0 + h, 0.96875);
    var prior := Prior(Isomorphic, Some(1.0), historical);
    assert prior >= 0.96875;
    QuotientAtLeast(prior * 0.99, prior * 0.99 + (1.0 - prior) * 0.01, 0.999);
  }

  /** At the default threshold, compatible transfer is attainable exactly from three historical observations on. */
  lemma CompatibleAttainable(historical: int)
    ensures (exists x: TransferInput ::
               x.historical == historical && ComputeTransferPosterior(x).scope == CompatibleTransfer)
            <==> historical >= 3
  {
    if historical >= 3 {
      var x := BestInput(historical);
      BestModes(historical);
      BestPosterior(historical);
      var r := ComputeTransferPosterior(x);
      ManyObservationsReach(r.posterior, r.observations);
      assert x.historical == historical && r.scope == CompatibleTransfer;
    } else {
      forall x: TransferInput | x.historical == historical
        ensures ComputeTransferPosterior(x).scope != CompatibleTransfer
      {
        CompatibleNeedsHistory(x);
      }
    }
  }
}
