/** From an episode's evidence to a transfer verdict, keeping track of what was not measured. */
module TransferAssessment {
  import opened Contracts
  import opened RealArith
  import opened AgrestiCoull
  import opened FailureModes
  import opened TransferPosterior

  datatype Verdict = CertifiedLocal | CertifiedTransferSafe | CertifiedAnalogicalOnly | RejectedForTransfer

  function VerdictOf(scope: CertificateScope): Verdict {
    match scope
    case LocalScope => CertifiedLocal
    case CompatibleTransfer => CertifiedTransferSafe
    case AnalogicalHint => CertifiedAnalogicalOnly
    case BlockedScope => RejectedForTransfer
  }

  datatype CompatibilityClass =
    EquivalentClass | CompatibleClass | AnalogicalClass | IncompatibleClass | OtherCompatibility

  function ToMorphismClass(c: CompatibilityClass): MorphismClass {
    match c
    case EquivalentClass => Isomorphic
    case CompatibleClass => Homomorphic
    case AnalogicalClass => Analogical
    case IncompatibleClass => Incompatible
    case OtherCompatibility => Analogical
  }

  datatype Metrics = Metrics(cross: Option<int>, same: Option<int>)

  datatype Hit = Hit(analogicalSource: bool, metrics: Option<Metrics>)

  datatype Compatibility = Compatibility(target: string, class_: CompatibilityClass, score: real)

  datatype Transition = Transition(purity: real, composite: real)

  datatype Morphism = Morphism(score: real, class_: MorphismClass, polarityInversion: bool)

  datatype Inputs = Inputs(
    source: string,
    retrieved: seq<Hit>,
    policyConfidence: Option<real>,
    causalSupport: Option<real>,
    trace: bool,
    compatibility: Option<Compatibility>,
    metrics: Option<Metrics>,
    transition: Option<Transition>,
    morphism: Option<Morphism>,
    shiftKl: Option<real>,
    eml: real,
    rate: Option<real>,
    historical: int,
    sequentialRisk: Option<real>)

  // ----- memory purity -----

  datatype PurityStatus = PurityMeasured | PurityNotApplicable | PurityUnmeasured

  function OrZero(x: Option<int>): int {
    if x.Some? then x.value else 0
  }

  /** The metrics given, or else those of the first hit that carries any. */
  function MetricsOf(given: Option<Metrics>, hits: seq<Hit>): Option<Metrics>
    decreases |hits|
  {
    if given.Some? || hits == [] then given else MetricsOf(hits[0].metrics, hits[1..])
  }

  function CrossCount(m: Option<Metrics>): int {
    if m.Some? then OrZero(m.value.cross) else 0
  }

  function SameCount(m: Option<Metrics>): int {
    if m.Some? then OrZero(m.value.same) else 0
  }

  /** Purity has three states: measured, not applicable (no memory to contaminate), not measured. */
  function MeasurePurity(transition: Option<Transition>, m: Option<Metrics>, hits: nat):
    (r: (Option<real>, PurityStatus))
    ensures r.1 == PurityNotApplicable <==> hits == 0 && CrossCount(m) + SameCount(m) <= 0
    ensures r.0.None? <==> r.1 == PurityUnmeasured
    ensures r.1 == PurityUnmeasured ==> hits > 0 && transition.None? && CrossCount(m) + SameCount(m) <= 0
    ensures r.1 == PurityMeasured && transition.None? && CrossCount(m) >= 0 && SameCount(m) >= 0 ==>
              0.0 <= r.0.value <= 1.0 && (r.0.value == 1.0 <==> CrossCount(m) == 0)
    ensures r.1 == PurityNotApplicable ==> r.0 == Some(1.0)
    ensures r.1 == PurityMeasured && transition.Some? ==> r.0 == Some(transition.value.purity)
    ensures r.1 == PurityMeasured && transition.None? ==>
              r.0.value * (CrossCount(m) + SameCount(m)) as real == SameCount(m) as real
  {
    var cross, counted := CrossCount(m), CrossCount(m) + SameCount(m);
    if hits == 0 && counted <= 0 then (Some(1.0), PurityNotApplicable)
    else if transition.Some? then (Some(transition.value.purity), PurityMeasured)
    else if counted > 0 then
      ShareOfCounts(cross, counted);
      Quotient(cross as real, counted as real);
      (Some(1.0 - cross as real / counted as real), PurityMeasured)
    else (None, PurityUnmeasured)
  }

  lemma ShareOfCounts(cross: int, counted: int)
    requires counted > 0
    ensures 0 <= cross <= counted ==> 0.0 <= cross as real / counted as real <= 1.0
    ensures cross as real / counted as real == 0.0 <==> cross == 0
  {
    QuotientAtLeast(cross as real, counted as real, 0.0);
    QuotientAtMost(cross as real, counted as real, 0.0);
    QuotientAtMost(cross as real, counted as real, 1.0);
  }

  // ----- the assessment -----

  predicate HitIsCross(h: Hit) {
    h.analogicalSource || CrossCount(h.metrics) > 0
  }

  function MeasuredOf(x: Inputs): Measured {
    Measured(
      MeasurePurity(x.transition, MetricsOf(x.metrics, x.retrieved), |x.retrieved|).0,
      x.policyConfidence,
      x.shiftKl,
      Some(x.trace),
      x.causalSupport,
      if x.morphism.Some? then Some(x.morphism.value.score)
      else if x.compatibility.Some? then Some(x.compatibility.value.score) else None,
      x.morphism.Some? && x.morphism.value.polarityInversion)
  }

  function TargetOf(x: Inputs): string {
    if x.compatibility.Some? then x.compatibility.value.target else x.source
  }

  function ClassOf(x: Inputs): MorphismClass {
    if x.morphism.Some? then x.morphism.value.class_
    else ToMorphismClass(if x.compatibility.Some? then x.compatibility.value.class_ else EquivalentClass)
  }

  const NEUTRAL_STABILITY := 1.0

  /** The posterior's input: neutral numbers stand for what was not measured. */
  function PosteriorInput(x: Inputs): TransferInput {
    var m := Neutralised(MeasuredOf(x));
    TransferInput(
      x.source, TargetOf(x), ClassOf(x), m.morphismScore.value, m.purity.value,
      if x.transition.Some? then x.transition.value.composite else NEUTRAL_STABILITY,
      x.trace, x.eml, m.polarityInversion, m.policyConfidence.value, m.causalSupport.value, m.shiftKl.value,
      x.rate, x.historical, x.sequentialRisk)
  }

  datatype Transfer = Transfer(
    verdict: Verdict, scope: CertificateScope, crossEvidence: bool, analogicalPresent: bool, modes: Assessment)

  function TransferOf(x: Inputs): Transfer {
    var analogical := exists h :: h in x.retrieved && h.analogicalSource;
    var cross := exists h :: h in x.retrieved && HitIsCross(h);
    if x.source != TargetOf(x) || cross then
      var scope := ComputeTransferPosterior(PosteriorInput(x)).scope;
      Transfer(VerdictOf(scope), scope, cross, analogical, AssessmentOf(MeasuredOf(x), RederivedScope(MeasuredOf(x))))
    else
      Transfer(CertifiedLocal, LocalScope, cross, analogical,
               AssessmentOf(MeasuredOf(x).(morphismScore := None, polarityInversion := false), LocalOnly))
  }

  method AssessTransfer(x: Inputs) returns (t: Transfer)
    ensures t == TransferOf(x)
  {
    var crossEvidence, analogicalPresent := false, false;
    for i := 0 to |x.retrieved|
      invariant analogicalPresent <==> exists h :: h in x.retrieved[..i] && h.analogicalSource
      invariant crossEvidence <==> exists h :: h in x.retrieved[..i] && HitIsCross(h)
    {
      assert x.retrieved[..i + 1] == x.retrieved[..i] + [x.retrieved[i]];
      assert x.retrieved[i] in x.retrieved[..i + 1];
      if x.retrieved[i].analogicalSource {
        analogicalPresent := true;
        crossEvidence := true;
      }
      if CrossCount(x.retrieved[i].metrics) > 0 {
        crossEvidence := true;
      }
    }
    assert x.retrieved[..|x.retrieved|] == x.retrieved;
    var measured := MeasuredOf(x);
    if x.source != TargetOf(x) || crossEvidence {
      var posterior := ComputeTransferPosterior(PosteriorInput(x));
      var modes := DetectFailureModes(measured, RederivedScope(measured));
      t := Transfer(VerdictOf(posterior.scope), posterior.scope, crossEvidence, analogicalPresent, modes);
    } else {
      var modes := DetectFailureModes(measured.(morphismScore := None, polarityInversion := false), LocalOnly);
      t := Transfer(CertifiedLocal, LocalScope, crossEvidence, analogicalPresent, modes);
    }
  }

  lemma PosteriorModes(x: Inputs)
    ensures EvidenceOf(PosteriorInput(x)) == Neutralised(MeasuredOf(x))
    ensures Consistent(MeasuredOf(x))
  {
  }

  /** A transfer certified as safe crosses scenarios along an isomorphic or homomorphic morphism, has at least three
      historical observations, and the certificate itself lists no critical failure mode. */
  lemma SafeVerdict(x: Inputs)
    requires TransferOf(x).verdict == CertifiedTransferSafe
    ensures x.source != TargetOf(x)
    ensures ClassOf(x) in {Isomorphic, Homomorphic}
    ensures x.historical >= 3
    ensures !TransferOf(x).modes.blocking
  {
    var input := PosteriorInput(x);
    if x.historical < 3 { CompatibleNeedsHistory(input); }
    PosteriorModes(x);
    NeutralAgrees(MeasuredOf(x));
  }

  /** The posterior and the certificate agree on whether a critical mode blocks. */
  lemma BlockingAgrees(x: Inputs)
    requires x.source != TargetOf(x) || TransferOf(x).crossEvidence
    ensures TransferOf(x).modes.blocking <==> AssessmentOf(EvidenceOf(PosteriorInput(x)), AllModes).blocking
    ensures TransferOf(x).verdict == VerdictOf(ComputeTransferPosterior(PosteriorInput(x)).scope)
  {
    PosteriorModes(x);
    NeutralAgrees(MeasuredOf(x));
  }

  lemma ScopeOfBlocking(y: TransferInput)
    ensures AssessmentOf(EvidenceOf(y), AllModes).blocking ==> ComputeTransferPosterior(y).scope == BlockedScope
    ensures y.source == y.target ==>
              ComputeTransferPosterior(y).scope
              == if AssessmentOf(EvidenceOf(y), AllModes).blocking then BlockedScope else LocalScope
  {
  }

  /** Whenever the posterior is used, a critical mode in the certificate goes with a rejection, and
      cross evidence inside one scenario can only be certified as local or rejected. */
  lemma CriticalModesReject(x: Inputs)
    requires x.source != TargetOf(x) || TransferOf(x).crossEvidence
    ensures TransferOf(x).modes.blocking ==> TransferOf(x).verdict == RejectedForTransfer
    ensures x.source == TargetOf(x) ==>
              TransferOf(x).verdict == if TransferOf(x).modes.blocking then RejectedForTransfer else CertifiedLocal
  {
    BlockingAgrees(x);
    ScopeOfBlocking(PosteriorInput(x));
  }

  // ----- which verdict, from what was measured -----

  /** The target is another scenario. */
  predicate Crossing(x: Inputs) {
    x.compatibility.Some? && x.compatibility.value.target != x.source
  }

  /** A retrieved memory comes from another scenario. */
  ghost predicate Foreign(x: Inputs) {
    exists h :: h in x.retrieved
                && (h.analogicalSource
                    || (h.metrics.Some? && h.metrics.value.cross.Some? && h.metrics.value.cross.value > 0))
  }

  /** Along an isomorphic or homomorphic relation. */
  predicate Near(x: Inputs) {
    if x.morphism.Some? then x.morphism.value.class_.Isomorphic? || x.morphism.value.class_.Homomorphic?
    else x.compatibility.None? || x.compatibility.value.class_.EquivalentClass? || x.compatibility.value.class_.CompatibleClass?
  }

  /** Near, or analogical. */
  predicate Akin(x: Inputs) {
    Near(x) || if x.morphism.Some? then x.morphism.value.class_.Analogical?
               else !x.compatibility.value.class_.IncompatibleClass?
  }

  /** The polarity of the causes is inverted and the support for them is low. */
  predicate Inverted(x: Inputs) {
    x.morphism.Some? && x.morphism.value.polarityInversion && x.causalSupport.Some? && x.causalSupport.value < 0.30
  }

  /** One of the four critical measurements; the purity is that of `MeasurePurity`. */
  predicate Grave(x: Inputs) {
    || Under(MeasuredOf(x).purity, 0.40)
    || (x.shiftKl.Some? && x.shiftKl.value > 0.60)
    || Inverted(x)
    || (if x.morphism.Some? then x.morphism.value.score < 0.15
        else x.compatibility.Some? && x.compatibility.value.score < 0.15)
  }

  lemma GraveBlocks(x: Inputs)
    requires Crossing(x) || Foreign(x)
    ensures Crossing(x) <==> x.source != TargetOf(x)
    ensures Foreign(x) <==> TransferOf(x).crossEvidence
    ensures AssessmentOf(EvidenceOf(PosteriorInput(x)), AllModes).blocking <==> Grave(x)
    ensures TransferOf(x).modes.blocking <==> Grave(x)
  {
    ForeignEvidence(x);
    BlockingAgrees(x);
    BlockingExactly(EvidenceOf(PosteriorInput(x)), AllModes);
  }

  lemma ForeignEvidence(x: Inputs)
    ensures Foreign(x) <==> TransferOf(x).crossEvidence
  {
    forall h: Hit ensures HitIsCross(h) <==>
                            h.analogicalSource
                            || (h.metrics.Some? && h.metrics.value.cross.Some? && h.metrics.value.cross.value > 0) {}
  }

  function PosteriorOf(x: Inputs): (p: real)
    ensures 0.0 < p < 1.0
  {
    ComputeTransferPosterior(PosteriorInput(x)).posterior
  }

  /** The lower bound of the posterior, `root` being the square root that the code takes. */
  function BoundOf(x: Inputs, root: real): real {
    Lower(PosteriorOf(x), 5 + x.historical, Level95, root)
  }

  ghost predicate RootOf(x: Inputs, root: real) {
    5 + x.historical > 0 ==> IsRoot(root, Variance(PosteriorOf(x), 5 + x.historical, Level95))
  }

  predicate Safe(x: Inputs, root: real) {
    Crossing(x) && !Grave(x) && BoundOf(x, root) >= 0.60 && Near(x)
  }

  /** Neither akin and plausible, nor plausible enough for a hint. */
  predicate Weak(x: Inputs, root: real) {
    && (PosteriorOf(x) < 0.40 || !Akin(x))
    && (PosteriorOf(x) < 0.25 || BoundOf(x, root) < 0.15)
  }

  lemma KinshipMeans(x: Inputs)
    requires Crossing(x)
    ensures Near(x) <==> ClassOf(x).Isomorphic? || ClassOf(x).Homomorphic?
    ensures Akin(x) <==> ClassOf(x).Isomorphic? || ClassOf(x).Homomorphic? || ClassOf(x).Analogical?
  {
  }

  lemma CrossingScope(x: Inputs, root: real)
    requires Crossing(x) && !Grave(x) && RootOf(x, root)
    ensures TransferOf(x).verdict ==
              if Safe(x, root) then CertifiedTransferSafe
              else if Weak(x, root) then RejectedForTransfer
              else CertifiedAnalogicalOnly
  {
    var y := PosteriorInput(x);
    GraveBlocks(x);
    KinshipMeans(x);
    ScopeIsRootFree(PosteriorOf(x), 5 + x.historical, ClassOf(x), false, true, 0.60, root);
  }

  /** Exactly when each verdict is given. Local: nothing crosses, and no critical measurement counts because memory of
      another scenario was used. Rejected: a critical measurement that counts, or a crossing that is not safe and weak.
      Safe: a crossing without critical measurement along a near relation whose bound reaches 0.60. Analogical: every
      other crossing. */
  lemma VerdictExactly(x: Inputs, root: real)
    requires RootOf(x, root)
    ensures var v := TransferOf(x).verdict;
            && (v == CertifiedLocal <==> !Crossing(x) && !(Foreign(x) && Grave(x)))
            && (v == RejectedForTransfer <==>
                  || ((Crossing(x) || Foreign(x)) && Grave(x))
                  || (Crossing(x) && !Safe(x, root) && Weak(x, root)))
            && (v == CertifiedTransferSafe <==> Safe(x, root))
            && (v == CertifiedAnalogicalOnly <==>
                  Crossing(x) && !Grave(x) && !Safe(x, root) && !Weak(x, root))
  {
    ForeignEvidence(x);
    if Crossing(x) || Foreign(x) {
      GraveBlocks(x);
      CriticalModesReject(x);
      if Crossing(x) && !Grave(x) { CrossingScope(x, root); }
    }
  }

  /** The scope of the certificate and the verdict tell the same, and the two flags what was retrieved. */
  lemma ScopeTellsVerdict(x: Inputs)
    ensures var t := TransferOf(x);
            && (t.scope == LocalScope <==> t.verdict == CertifiedLocal)
            && (t.scope == BlockedScope <==> t.verdict == RejectedForTransfer)
            && (t.scope == CompatibleTransfer <==> t.verdict == CertifiedTransferSafe)
            && (t.scope == AnalogicalHint <==> t.verdict == CertifiedAnalogicalOnly)
            && (t.crossEvidence <==> Foreign(x))
            && (t.analogicalPresent <==> exists h :: h in x.retrieved && h.analogicalSource)
  {
    ForeignEvidence(x);
  }

  /** Counts come from the metrics given, or else from the first hit that carries any; a count not given is zero. */
  lemma {:induction false} FirstMetrics(given: Option<Metrics>, hits: seq<Hit>)
    ensures given.Some? ==> MetricsOf(given, hits) == given
    ensures given.None? ==>
              || (exists i :: 0 <= i < |hits| && hits[i].metrics.Some? && MetricsOf(given, hits) == hits[i].metrics
                              && forall j :: 0 <= j < i ==> hits[j].metrics.None?)
              || (MetricsOf(given, hits).None? && forall h :: h in hits ==> h.metrics.None?)
    decreases |hits|
  {
    if given.None? && hits != [] {
      FirstMetrics(hits[0].metrics, hits[1..]);
      if hits[0].metrics.None? {
        if i :| 0 <= i < |hits| - 1 && hits[1..][i].metrics.Some?
                && MetricsOf(None, hits[1..]) == hits[1..][i].metrics
                && forall j :: 0 <= j < i ==> hits[1..][j].metrics.None? {
          assert hits[i + 1].metrics == MetricsOf(given, hits);
          assert forall j :: 0 < j < i + 1 ==> hits[j] == hits[1..][j - 1];
        }
      }
    }
  }

  /** The same verdict and the same posterior. */
  predicate Alike(x: Inputs, y: Inputs) {
    TransferOf(x).verdict == TransferOf(y).verdict && PosteriorOf(x) == PosteriorOf(y)
  }

  lemma AlikeByInput(x: Inputs, y: Inputs)
    requires PosteriorInput(x) == PosteriorInput(y) && x.retrieved == y.retrieved
    ensures Alike(x, y)
  {
    ForeignEvidence(x);
    ForeignEvidence(y);
    assert x.source == PosteriorInput(x).source && TargetOf(x) == PosteriorInput(x).target;
    assert y.source == PosteriorInput(y).source && TargetOf(y) == PosteriorInput(y).target;
  }

  lemma UnmeasuredPurity(x: Inputs)
    requires MeasuredOf(x).purity.None?
    ensures PosteriorInput(x) == PosteriorInput(x.(transition := Some(Transition(1.0, 1.0))))
  {
  }

  lemma UnmeasuredScore(x: Inputs)
    requires x.morphism.None? && x.compatibility.None?
    ensures PosteriorInput(x) == PosteriorInput(x.(morphism := Some(Morphism(0.50, Isomorphic, false))))
  {
  }

  /** What was not measured weighs as much as these numbers: one half for a confidence, a support or a score, nothing for
      a shift of belief, and full for purity and stability. */
  lemma UnmeasuredCounts(x: Inputs)
    ensures x.policyConfidence.None? ==> Alike(x, x.(policyConfidence := Some(0.50)))
    ensures x.causalSupport.None? ==> Alike(x, x.(causalSupport := Some(0.50)))
    ensures x.shiftKl.None? ==> Alike(x, x.(shiftKl := Some(0.0)))
    ensures MeasuredOf(x).purity.None? ==> Alike(x, x.(transition := Some(Transition(1.0, 1.0))))
    ensures x.morphism.None? && x.compatibility.None? ==>
              Alike(x, x.(morphism := Some(Morphism(0.50, Isomorphic, false))))
  {
    if x.policyConfidence.None? { AlikeByInput(x, x.(policyConfidence := Some(0.50))); }
    if x.causalSupport.None? { AlikeByInput(x, x.(causalSupport := Some(0.50))); }
    if x.shiftKl.None? { AlikeByInput(x, x.(shiftKl := Some(0.0))); }
    if MeasuredOf(x).purity.None? {
      UnmeasuredPurity(x);
      AlikeByInput(x, x.(transition := Some(Transition(1.0, 1.0))));
    }
    if x.morphism.None? && x.compatibility.None? {
      UnmeasuredScore(x);
      AlikeByInput(x, x.(morphism := Some(Morphism(0.50, Isomorphic, false))));
    }
  }

  /** Without a directed morphism and without history, the relation of the scenarios sets the prior. */
  lemma PriorOfRelation(x: Inputs)
    requires x.morphism.None? && (x.rate.None? || x.historical <= 0)
    ensures var prior := ComputeTransferPosterior(PosteriorInput(x)).prior;
            if x.compatibility.None? || x.compatibility.value.class_.EquivalentClass? then prior == 0.95
            else if x.compatibility.value.class_.CompatibleClass? then prior == 0.80
            else if x.compatibility.value.class_.IncompatibleClass? then prior == 0.05
            else prior == 0.45
  {
  }

  /** A spotless transfer, in hundredths: stability counts 30, a trace that holds 15, and concurrence 10. */
  lemma SpotlessLikelihood(x: Inputs)
    requires x.transition.Some? && 0.0 <= x.transition.value.composite <= 1.0 && 0.0 <= x.eml <= 1.0
    requires MeasuredOf(x).purity == Some(1.0) && x.trace && x.shiftKl == Some(0.0)
    requires x.policyConfidence == Some(1.0) && x.causalSupport == Some(1.0)
    requires x.morphism.Some? && 0.35 <= x.morphism.value.score <= 1.0
    ensures var hundredths := 60.0 + 30.0 * x.transition.value.composite + 10.0 * x.eml;
            100.0 * ComputeTransferPosterior(PosteriorInput(x)).likelihood
            == if hundredths <= 99.0 then hundredths else 99.0
  {
    var y := PosteriorInput(x);
    LikelihoodExactly(y);
    NothingDetected(EvidenceOf(y));
  }

  lemma NothingDetected(m: Measured)
    requires forall name, severity :: !Symptom(m, name, severity)
    ensures AssessmentOf(m, AllModes).modes == [] && AssessmentOf(m, AllModes).totalRisk == 0.0
  {
    var modes := AssessmentOf(m, AllModes).modes;
    if modes != [] { ModesExactly(m, AllModes, modes[0]); }
    RoundExact(0.0, 0);
  }

  /** Nothing of an assessment but the class of its relation and its history enters the prior. */
  lemma HistoryCounts(x: Inputs)
    ensures ComputeTransferPosterior(PosteriorInput(x)).prior == Prior(ClassOf(x), x.rate, x.historical)
  {
  }

  /** The sequential risk pulls the posterior of an assessment three tenths of the way to what it leaves. */
  lemma SequentialRiskCounts(x: Inputs)
    requires x.sequentialRisk.Some?
    ensures var plain := PosteriorOf(x.(sequentialRisk := None));
            var pulled := plain + 0.30 * ((1.0 - x.sequentialRisk.value) - plain);
            PosteriorOf(x) == if pulled < 0.01 then 0.01 else if pulled > 0.99 then 0.99 else pulled
  {
    var r := ComputeTransferPosterior(PosteriorInput(x));
    SequentialPull(r.prior, r.likelihood, x.sequentialRisk.value);
    SamePlain(x);
  }

  lemma SamePlain(x: Inputs)
    ensures var r := ComputeTransferPosterior(PosteriorInput(x));
            && PosteriorOf(x.(sequentialRisk := None)) == Bayes(r.prior, r.likelihood)
            && PosteriorOf(x) == Posterior(r.prior, r.likelihood, x.sequentialRisk)
  {
  }

  const LOCAL_MODES: set<ModeName> := {MemoryContamination, PolicyDrift, BeliefCollapse, TraceDiscontinuity}

  /** The certificate claims a mode as checked exactly when its evidence was measured, and those of a transfer only when
      the posterior is used and a morphism or a compatibility gave a score; what is asked and was not measured is listed
      as such. */
  lemma CheckedInTransfer(x: Inputs, name: ModeName)
    ensures var t := TransferOf(x);
            var asked := (Crossing(x) || Foreign(x)) && (x.morphism.Some? || x.compatibility.Some?);
            && (name in t.modes.checks <==> Observed(MeasuredOf(x), name) && (name in LOCAL_MODES || asked))
            && (name in t.modes.unmeasured <==> !Observed(MeasuredOf(x), name) && (name in LOCAL_MODES || asked))
  {
    var m := MeasuredOf(x);
    ForeignEvidence(x);
    if x.source != TargetOf(x) || TransferOf(x).crossEvidence {
      CheckedOrUnmeasured(m, RederivedScope(m), name);
    } else {
      CheckedOrUnmeasured(m.(morphismScore := None, polarityInversion := false), LocalOnly, name);
    }
  }

  ghost predicate Shows(t: Transfer, name: ModeName) {
    exists d :: d in t.modes.modes && d.name == name
  }

  lemma ShownByNumbers(m: Measured, scope: Scope, name: ModeName)
    ensures (exists d :: d in AssessmentOf(m, scope).modes && d.name == name) <==>
              Selected(scope, name) && exists severity :: Symptom(m, name, severity)
  {
    if d :| d in AssessmentOf(m, scope).modes && d.name == name { ModesExactly(m, scope, d); }
    if severity :| Selected(scope, name) && Symptom(m, name, severity) {
      ModesExactly(m, scope, Mode(name, severity, Round4(Distance(m, name))));
    }
  }

  /** Whether some severity fits. */
  predicate Troubled(m: Measured, name: ModeName) {
    match name
    case MemoryContamination => Under(m.purity, 0.70)
    case PolicyDrift => Under(m.policyConfidence, 0.50)
    case BeliefCollapse => m.shiftKl.Some? && m.shiftKl.value > 0.40
    case TraceDiscontinuity => m.trace == Some(false)
    case CausalInversion => m.polarityInversion && Under(m.causalSupport, 0.60)
    case MorphismFailure => Under(m.morphismScore, 0.35)
  }

  lemma TroubledMeans(m: Measured, name: ModeName)
    ensures Troubled(m, name) <==> exists severity :: Symptom(m, name, severity)
  {
    assert Symptom(m, name, Critical) || Symptom(m, name, High) || Symptom(m, name, Medium) <==> Troubled(m, name);
  }

  lemma ShownInTransfer(x: Inputs, name: ModeName)
    ensures var m := MeasuredOf(x);
            Shows(TransferOf(x), name) <==>
              if Crossing(x) || Foreign(x) then Selected(RederivedScope(m), name) && Troubled(m, name)
              else Selected(LocalOnly, name) && Troubled(m.(morphismScore := None, polarityInversion := false), name)
  {
    var m := MeasuredOf(x);
    var bare := m.(morphismScore := None, polarityInversion := false);
    ForeignEvidence(x);
    if x.source != TargetOf(x) || TransferOf(x).crossEvidence {
      ShownByNumbers(m, RederivedScope(m), name);
      TroubledMeans(m, name);
    } else {
      ShownByNumbers(bare, LocalOnly, name);
      TroubledMeans(bare, name);
    }
  }

  /** Which modes the certificate of an assessment lists, in the numbers of the episode: those of the organism itself... */
  lemma LocalModesOfTransfer(x: Inputs)
    ensures var t := TransferOf(x);
            && (Shows(t, MemoryContamination) <==> Under(MeasuredOf(x).purity, 0.70))
            && (Shows(t, PolicyDrift) <==> Under(x.policyConfidence, 0.50))
            && (Shows(t, BeliefCollapse) <==> x.shiftKl.Some? && x.shiftKl.value > 0.40)
            && (Shows(t, TraceDiscontinuity) <==> !x.trace)
  {
    ShownInTransfer(x, MemoryContamination);
    ShownInTransfer(x, PolicyDrift);
    ShownInTransfer(x, BeliefCollapse);
    ShownInTransfer(x, TraceDiscontinuity);
  }

  /** ... and those of the transfer, only where the posterior is used. */
  lemma CrossModesOfTransfer(x: Inputs)
    ensures var t := TransferOf(x);
            var used := Crossing(x) || Foreign(x);
            && (Shows(t, CausalInversion) <==>
                  used && x.morphism.Some? && x.morphism.value.polarityInversion && Under(x.causalSupport, 0.60))
            && (Shows(t, MorphismFailure) <==>
                  used && (if x.morphism.Some? then x.morphism.value.score < 0.35
                           else x.compatibility.Some? && x.compatibility.value.score < 0.35))
  {
    ShownInTransfer(x, CausalInversion);
    ShownInTransfer(x, MorphismFailure);
  }
}
