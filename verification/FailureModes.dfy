/** Failure-mode detectors that abstain on evidence that was not measured. */
module FailureModes {
  import opened Contracts
  import opened RealArith

  datatype ModeName =
    | MemoryContamination | PolicyDrift | BeliefCollapse | TraceDiscontinuity
    | CausalInversion | MorphismFailure

  datatype Severity = Critical | High | Medium

  datatype Mode = Mode(name: ModeName, severity: Severity, evidence: real)

  datatype Scope = AllModes | LocalOnly | TransferOnly

  /** Modes that only exist when there is a transfer; the other four are local. */
  predicate IsTransfer(name: ModeName) {
    name.CausalInversion? || name.MorphismFailure?
  }

  predicate InScope(scope: Scope, name: ModeName) {
    scope == AllModes || IsTransfer(name) == (scope == TransferOnly)
  }

  /** None means that the evidence was not measured. */
  datatype Measured = Measured(
    purity: Option<real>,
    policyConfidence: Option<real>,
    shiftKl: Option<real>,
    trace: Option<bool>,
    causalSupport: Option<real>,
    morphismScore: Option<real>,
    polarityInversion: bool)

  datatype Assessment = Assessment(
    modes: seq<Mode>,
    totalRisk: real,
    criticalCount: nat,
    highCount: nat,
    blocking: bool,
    checks: seq<ModeName>,
    unmeasured: seq<ModeName>)

  function Raise(condition: bool, name: ModeName, severity: Severity, evidence: real): seq<Mode> {
    if condition then [Mode(name, severity, evidence)] else []
  }

  /** What one detector says: nothing measured, or the modes (at most one) that it raises. */
  function Detect(name: ModeName, m: Measured): Option<seq<Mode>> {
    match name
    case MemoryContamination =>
      if m.purity == None then None
      else var p := m.purity.value; Some(Raise(p < 0.70, name, if p < 0.40 then Critical else High, Round4(1.0 - p)))
    case PolicyDrift =>
      if m.policyConfidence == None then None
      else var c := m.policyConfidence.value; Some(Raise(c < 0.50, name, if c < 0.30 then High else Medium, Round4(1.0 - c)))
    case BeliefCollapse =>
      if m.shiftKl == None then None
      else var k := m.shiftKl.value; Some(Raise(k > 0.40, name, if k > 0.60 then Critical else High, Round4(k)))
    case TraceDiscontinuity =>
      if m.trace == None then None else Some(Raise(!m.trace.value, name, High, 1.0))
    case CausalInversion =>
      if m.causalSupport == None then None
      else
        var c := m.causalSupport.value;
        Some(Raise(m.polarityInversion && c < 0.60, name, if c < 0.30 then Critical else High, Round4(1.0 - c)))
    case MorphismFailure =>
      if m.morphismScore == None then None
      else var s := m.morphismScore.value; Some(Raise(s < 0.35, name, if s < 0.15 then Critical else Medium, Round4(1.0 - s)))
  }

  function Raised(name: ModeName, m: Measured): seq<Mode> {
    if Detect(name, m) == None then [] else Detect(name, m).value
  }

  function RaisedIn(scope: Scope, name: ModeName, m: Measured): seq<Mode> {
    if InScope(scope, name) then Raised(name, m) else []
  }

  /** `name` alone, if it is in scope and its evidence is (not) measured. */
  function ListedIn(scope: Scope, name: ModeName, m: Measured, measured: bool): seq<ModeName> {
    if InScope(scope, name) && Detect(name, m).Some? == measured then [name] else []
  }

  function DetectedLocal(scope: Scope, m: Measured): seq<Mode> {
    RaisedIn(scope, MemoryContamination, m) + RaisedIn(scope, PolicyDrift, m)
    + RaisedIn(scope, BeliefCollapse, m) + RaisedIn(scope, TraceDiscontinuity, m)
  }

  function Detected(scope: Scope, m: Measured): seq<Mode> {
    DetectedLocal(scope, m) + RaisedIn(scope, CausalInversion, m) + RaisedIn(scope, MorphismFailure, m)
  }

  function ListedLocal(scope: Scope, m: Measured, measured: bool): seq<ModeName> {
    ListedIn(scope, MemoryContamination, m, measured) + ListedIn(scope, PolicyDrift, m, measured)
    + ListedIn(scope, BeliefCollapse, m, measured) + ListedIn(scope, TraceDiscontinuity, m, measured)
  }

  function Listed(scope: Scope, m: Measured, measured: bool): seq<ModeName> {
    ListedLocal(scope, m, measured)
    + ListedIn(scope, CausalInversion, m, measured) + ListedIn(scope, MorphismFailure, m, measured)
  }

  function Weight(severity: Severity): real {
    match severity
    case Critical => 1.0
    case High => 0.6
    case Medium => 0.3
  }

  function WeightedSum(modes: seq<Mode>): real {
    if modes == [] then 0.0
    else
      var last := modes[|modes| - 1];
      WeightedSum(modes[..|modes| - 1]) + Weight(last.severity) * last.evidence
  }

  function TotalRisk(modes: seq<Mode>): real {
    if modes == [] then 0.0
    else var average := WeightedSum(modes) / |modes| as real; if average > 1.0 then 1.0 else average
  }

  function Count(modes: seq<Mode>, severity: Severity): nat {
    if modes == [] then 0
    else (if modes[0].severity == severity then 1 else 0) + Count(modes[1..], severity)
  }

  function Assess(modes: seq<Mode>, checks: seq<ModeName>, unmeasured: seq<ModeName>): Assessment {
    var critical := Count(modes, Critical);
    Assessment(modes, Round4(TotalRisk(modes)), critical, Count(modes, High), critical > 0, checks, unmeasured)
  }

  function AssessmentOf(m: Measured, scope: Scope): Assessment {
    Assess(Detected(scope, m), Listed(scope, m, true), Listed(scope, m, false))
  }

  /** One detector: it appends to `unmeasured`, or to `checks` and perhaps to `modes`. */
  method Run(
    name: ModeName, scope: Scope, m: Measured,
    modes: seq<Mode>, checks: seq<ModeName>, unmeasured: seq<ModeName>)
    returns (modes': seq<Mode>, checks': seq<ModeName>, unmeasured': seq<ModeName>)
    ensures modes' == modes + RaisedIn(scope, name, m)
    ensures checks' == checks + ListedIn(scope, name, m, true)
    ensures unmeasured' == unmeasured + ListedIn(scope, name, m, false)
  {
    modes', checks', unmeasured' := modes, checks, unmeasured;
    if InScope(scope, name) {
      var d := Detect(name, m);
      if d == None {
        unmeasured' := unmeasured' + [name];
      } else {
        checks' := checks' + [name];
        modes' := modes' + d.value;
      }
    }
  }

  method AggregateRisk(modes: seq<Mode>) returns (total: real)
    ensures total == TotalRisk(modes)
  {
    total := 0.0;
    for i := 0 to |modes|
      invariant total == WeightedSum(modes[..i])
    {
      assert modes[..i + 1][..i] == modes[..i];
      total := total + Weight(modes[i].severity) * modes[i].evidence;
    }
    assert modes[..|modes|] == modes;
    if modes == [] {
      total := 0.0;
    } else {
      total := total / |modes| as real;
      total := if total > 1.0 then 1.0 else total;
    }
  }

  method RunLocal(scope: Scope, m: Measured)
    returns (modes: seq<Mode>, checks: seq<ModeName>, unmeasured: seq<ModeName>)
    ensures modes == DetectedLocal(scope, m)
    ensures checks == ListedLocal(scope, m, true)
    ensures unmeasured == ListedLocal(scope, m, false)
  {
    modes, checks, unmeasured := Run(MemoryContamination, scope, m, [], [], []);
    assert modes == RaisedIn(scope, MemoryContamination, m);
    assert checks == ListedIn(scope, MemoryContamination, m, true);
    assert unmeasured == ListedIn(scope, MemoryContamination, m, false);
    modes, checks, unmeasured := Run(PolicyDrift, scope, m, modes, checks, unmeasured);
    modes, checks, unmeasured := Run(BeliefCollapse, scope, m, modes, checks, unmeasured);
    modes, checks, unmeasured := Run(TraceDiscontinuity, scope, m, modes, checks, unmeasured);
  }

  method RunAll(scope: Scope, m: Measured)
    returns (modes: seq<Mode>, checks: seq<ModeName>, unmeasured: seq<ModeName>)
    ensures modes == Detected(scope, m)
    ensures checks == Listed(scope, m, true)
    ensures unmeasured == Listed(scope, m, false)
  {
    modes, checks, unmeasured := RunLocal(scope, m);
    modes, checks, unmeasured := Run(CausalInversion, scope, m, modes, checks, unmeasured);
    modes, checks, unmeasured := Run(MorphismFailure, scope, m, modes, checks, unmeasured);
  }

  method DetectFailureModes(m: Measured, scope: Scope) returns (a: Assessment)
    ensures a == AssessmentOf(m, scope)
  {
    var modes, checks, unmeasured := RunAll(scope, m);
    var total := AggregateRisk(modes);
    var critical := Count(modes, Critical);
    a := Assessment(modes, Round4(total), critical, Count(modes, High), critical > 0, checks, unmeasured);
  }

  // ----- abstention -----

  function ScopeSize(scope: Scope): nat {
    match scope
    case AllModes => 6
    case LocalOnly => 4
    case TransferOnly => 2
  }

  /** What is evaluated in a scope: what an organism suffers by itself, what only a transfer can suffer, or both. */
  predicate Selected(scope: Scope, name: ModeName) {
    match name
    case MemoryContamination | PolicyDrift | BeliefCollapse | TraceDiscontinuity => !scope.TransferOnly?
    case CausalInversion | MorphismFailure => !scope.LocalOnly?
  }

  /** The evidence of the mode was measured. */
  predicate Observed(m: Measured, name: ModeName) {
    match name
    case MemoryContamination => m.purity.Some?
    case PolicyDrift => m.policyConfidence.Some?
    case BeliefCollapse => m.shiftKl.Some?
    case TraceDiscontinuity => m.trace.Some?
    case CausalInversion => m.causalSupport.Some?
    case MorphismFailure => m.morphismScore.Some?
  }

  lemma ObservedIsDetectable(m: Measured, scope: Scope, name: ModeName)
    ensures Observed(m, name) <==> Detect(name, m).Some?
    ensures Selected(scope, name) <==> InScope(scope, name)
  {
  }

  lemma ListedObserved(scope: Scope, m: Measured, measured: bool, name: ModeName)
    ensures name in Listed(scope, m, measured) <==> Selected(scope, name) && Observed(m, name) == measured
  {
    ListedMembers(scope, m, measured, name);
    ObservedIsDetectable(m, scope, name);
  }

  /** In every scope each mode is checked or unmeasured, never both, never twice. */
  lemma CheckedOrUnmeasured(m: Measured, scope: Scope, name: ModeName)
    ensures name in AssessmentOf(m, scope).checks <==> Selected(scope, name) && Observed(m, name)
    ensures name in AssessmentOf(m, scope).unmeasured <==> Selected(scope, name) && !Observed(m, name)
    ensures |AssessmentOf(m, scope).checks| + |AssessmentOf(m, scope).unmeasured| == ScopeSize(scope)
  {
    ListedObserved(scope, m, true, name);
    ListedObserved(scope, m, false, name);
    ListedSizes(scope, m);
  }

  lemma InSix<T>(x: T, a: seq<T>, b: seq<T>, c: seq<T>, d: seq<T>, e: seq<T>, f: seq<T>)
    ensures x in a + b + c + d + e + f <==> x in a || x in b || x in c || x in d || x in e || x in f
  {
  }

  lemma ListedMember(scope: Scope, other: ModeName, m: Measured, measured: bool, name: ModeName)
    ensures name in ListedIn(scope, other, m, measured) <==>
              name == other && InScope(scope, name) && Detect(name, m).Some? == measured
  {
  }

  lemma ListedMembers(scope: Scope, m: Measured, measured: bool, name: ModeName)
    ensures name in Listed(scope, m, measured) <==> InScope(scope, name) && Detect(name, m).Some? == measured
  {
    InSix(name, ListedIn(scope, MemoryContamination, m, measured), ListedIn(scope, PolicyDrift, m, measured),
          ListedIn(scope, BeliefCollapse, m, measured), ListedIn(scope, TraceDiscontinuity, m, measured),
          ListedIn(scope, CausalInversion, m, measured), ListedIn(scope, MorphismFailure, m, measured));
    forall other ensures name in ListedIn(scope, other, m, measured) <==>
                           name == other && InScope(scope, name) && Detect(name, m).Some? == measured
    {
      ListedMember(scope, other, m, measured, name);
    }
  }

  lemma ListedSize(scope: Scope, name: ModeName, m: Measured)
    ensures |ListedIn(scope, name, m, true)| + |ListedIn(scope, name, m, false)|
            == if InScope(scope, name) then 1 else 0
  {
  }

  lemma ListedSizes(scope: Scope, m: Measured)
    ensures |Listed(scope, m, true)| + |Listed(scope, m, false)| == ScopeSize(scope)
  {
    ListedSize(scope, MemoryContamination, m);
    ListedSize(scope, PolicyDrift, m);
    ListedSize(scope, BeliefCollapse, m);
    ListedSize(scope, TraceDiscontinuity, m);
    ListedSize(scope, CausalInversion, m);
    ListedSize(scope, MorphismFailure, m);
    SizeOfListed(scope, m, true);
    SizeOfListed(scope, m, false);
  }

  lemma SizeOfListed(scope: Scope, m: Measured, measured: bool)
    ensures |Listed(scope, m, measured)|
            == |ListedIn(scope, MemoryContamination, m, measured)| + |ListedIn(scope, PolicyDrift, m, measured)|
               + |ListedIn(scope, BeliefCollapse, m, measured)| + |ListedIn(scope, TraceDiscontinuity, m, measured)|
               + |ListedIn(scope, CausalInversion, m, measured)| + |ListedIn(scope, MorphismFailure, m, measured)|
  {
  }

  // ----- what is detected, in the measured numbers -----

  predicate Low(x: Option<real>, floor: real, limit: real) {
    x.Some? && floor <= x.value < limit
  }

  predicate Under(x: Option<real>, limit: real) {
    x.Some? && x.value < limit
  }

  /** The numbers that make a mode of this severity. */
  predicate Symptom(m: Measured, name: ModeName, severity: Severity) {
    match (name, severity)
    case (MemoryContamination, Critical) => Under(m.purity, 0.40)
    case (MemoryContamination, High) => Low(m.purity, 0.40, 0.70)
    case (PolicyDrift, High) => Under(m.policyConfidence, 0.30)
    case (PolicyDrift, Medium) => Low(m.policyConfidence, 0.30, 0.50)
    case (BeliefCollapse, Critical) => m.shiftKl.Some? && m.shiftKl.value > 0.60
    case (BeliefCollapse, High) => m.shiftKl.Some? && 0.40 < m.shiftKl.value <= 0.60
    case (TraceDiscontinuity, High) => m.trace == Some(false)
    case (CausalInversion, Critical) => m.polarityInversion && Under(m.causalSupport, 0.30)
    case (CausalInversion, High) => m.polarityInversion && Low(m.causalSupport, 0.30, 0.60)
    case (MorphismFailure, Critical) => Under(m.morphismScore, 0.15)
    case (MorphismFailure, Medium) => Low(m.morphismScore, 0.15, 0.35)
    case _ => false
  }

  /** The recorded evidence of an observed mode: how far the number is from the best one. */
  function Distance(m: Measured, name: ModeName): real
    requires Observed(m, name)
  {
    match name
    case MemoryContamination => 1.0 - m.purity.value
    case PolicyDrift => 1.0 - m.policyConfidence.value
    case BeliefCollapse => m.shiftKl.value
    case TraceDiscontinuity => 1.0
    case CausalInversion => 1.0 - m.causalSupport.value
    case MorphismFailure => 1.0 - m.morphismScore.value
  }

  lemma RaisedExactly(m: Measured, d: Mode, name: ModeName)
    ensures d in Raised(name, m) <==>
              && d.name == name && Symptom(m, name, d.severity)
              && Observed(m, name) && d.evidence == Round4(Distance(m, name))
  {
    RoundExact(1.0, 10000);
  }

  lemma DetectedMembers(scope: Scope, m: Measured, d: Mode)
    ensures d in Detected(scope, m) <==> exists name :: d in RaisedIn(scope, name, m)
  {
    InSix(d, RaisedIn(scope, MemoryContamination, m), RaisedIn(scope, PolicyDrift, m),
          RaisedIn(scope, BeliefCollapse, m), RaisedIn(scope, TraceDiscontinuity, m),
          RaisedIn(scope, CausalInversion, m), RaisedIn(scope, MorphismFailure, m));
    if name :| d in RaisedIn(scope, name, m) {
      match name
      case MemoryContamination =>
      case PolicyDrift =>
      case BeliefCollapse =>
      case TraceDiscontinuity =>
      case CausalInversion =>
      case MorphismFailure =>
    }
  }

  /** A mode is detected, with this severity and evidence, exactly when it is in scope and the numbers say so. */
  lemma ModesExactly(m: Measured, scope: Scope, d: Mode)
    ensures d in AssessmentOf(m, scope).modes <==>
              && Selected(scope, d.name) && Symptom(m, d.name, d.severity)
              && Observed(m, d.name) && d.evidence == Round4(Distance(m, d.name))
  {
    DetectedMembers(scope, m, d);
    RaisedExactly(m, d, d.name);
    forall name | d in RaisedIn(scope, name, m) ensures name == d.name { RaisedExactly(m, d, name); }
  }

  function One(condition: bool): nat {
    if condition then 1 else 0
  }

  function Present(scope: Scope, m: Measured, name: ModeName, severity: Severity): nat {
    One(Selected(scope, name) && Symptom(m, name, severity))
  }

  lemma CountOfOne(scope: Scope, m: Measured, name: ModeName, severity: Severity)
    ensures Count(RaisedIn(scope, name, m), severity) == Present(scope, m, name, severity)
  {
  }

  lemma CountOfSix(
    a: seq<Mode>, b: seq<Mode>, c: seq<Mode>, d: seq<Mode>, e: seq<Mode>, f: seq<Mode>, severity: Severity)
    ensures Count(a + b + c + d + e + f, severity)
            == Count(a, severity) + Count(b, severity) + Count(c, severity)
               + Count(d, severity) + Count(e, severity) + Count(f, severity)
  {
    CountConcat(a, b, severity);
    CountConcat(a + b, c, severity);
    CountConcat(a + b + c, d, severity);
    CountConcat(a + b + c + d, e, severity);
    CountConcat(a + b + c + d + e, f, severity);
  }

  lemma CountsExactly(m: Measured, scope: Scope, severity: Severity)
    ensures Count(AssessmentOf(m, scope).modes, severity)
            == Present(scope, m, MemoryContamination, severity) + Present(scope, m, PolicyDrift, severity)
               + Present(scope, m, BeliefCollapse, severity) + Present(scope, m, TraceDiscontinuity, severity)
               + Present(scope, m, CausalInversion, severity) + Present(scope, m, MorphismFailure, severity)
  {
    CountOfSix(RaisedIn(scope, MemoryContamination, m), RaisedIn(scope, PolicyDrift, m),
               RaisedIn(scope, BeliefCollapse, m), RaisedIn(scope, TraceDiscontinuity, m),
               RaisedIn(scope, CausalInversion, m), RaisedIn(scope, MorphismFailure, m), severity);
    CountOfOne(scope, m, MemoryContamination, severity);
    CountOfOne(scope, m, PolicyDrift, severity);
    CountOfOne(scope, m, BeliefCollapse, severity);
    CountOfOne(scope, m, TraceDiscontinuity, severity);
    CountOfOne(scope, m, CausalInversion, severity);
    CountOfOne(scope, m, MorphismFailure, severity);
  }

  /** The assessment blocks exactly on one of four measurements in scope, which are counted. */
  lemma BlockingExactly(m: Measured, scope: Scope)
    ensures var a := AssessmentOf(m, scope);
            && (a.blocking <==>
                  || (!scope.TransferOnly? && Under(m.purity, 0.40))
                  || (!scope.TransferOnly? && m.shiftKl.Some? && m.shiftKl.value > 0.60)
                  || (!scope.LocalOnly? && m.polarityInversion && Under(m.causalSupport, 0.30))
                  || (!scope.LocalOnly? && Under(m.morphismScore, 0.15)))
            && a.criticalCount
               == One(!scope.TransferOnly? && Under(m.purity, 0.40))
                  + One(!scope.TransferOnly? && m.shiftKl.Some? && m.shiftKl.value > 0.60)
                  + One(!scope.LocalOnly? && m.polarityInversion && Under(m.causalSupport, 0.30))
                  + One(!scope.LocalOnly? && Under(m.morphismScore, 0.15))
  {
    CountsExactly(m, scope, Critical);
  }

  /** Five measurements make a mode of high severity. */
  lemma HighExactly(m: Measured, scope: Scope)
    ensures AssessmentOf(m, scope).highCount
            == One(!scope.TransferOnly? && Low(m.purity, 0.40, 0.70))
               + One(!scope.TransferOnly? && Under(m.policyConfidence, 0.30))
               + One(!scope.TransferOnly? && m.shiftKl.Some? && 0.40 < m.shiftKl.value <= 0.60)
               + One(!scope.TransferOnly? && m.trace == Some(false))
               + One(!scope.LocalOnly? && m.polarityInversion && Low(m.causalSupport, 0.30, 0.60))
  {
    CountsExactly(m, scope, High);
  }

  // ----- the aggregated risk -----

  /** A single mode of evidence in range counts for its severity: in full, for six tenths, or for three. */
  lemma RiskOfSingle(d: Mode)
    requires 0.0 <= d.evidence <= 1.0
    ensures TotalRisk([d])
            == match d.severity case Critical => d.evidence case High => 0.6 * d.evidence case Medium => 0.3 * d.evidence
  {
    assert [d][..0] == [] && WeightedSum([d][..0]) == 0.0;
    assert WeightedSum([d]) == Weight(d.severity) * d.evidence && |[d]| as real == 1.0;
  }

  predicate InRange(modes: seq<Mode>) {
    forall d :: d in modes ==> 0.0 <= d.evidence <= 1.0
  }

  lemma {:induction false} SumAtMost(modes: seq<Mode>)
    requires InRange(modes)
    ensures WeightedSum(modes) <= |modes| as real
  {
    if modes != [] {
      var n := |modes| - 1;
      assert modes[n] in modes;
      SumAtMost(modes[..n]);
    }
  }

  lemma RiskTimesCount(modes: seq<Mode>)
    requires InRange(modes)
    ensures TotalRisk(modes) * |modes| as real == WeightedSum(modes)
  {
    SumAtMost(modes);
    if modes != [] {
      QuotientAtMost(WeightedSum(modes), |modes| as real, 1.0);
      Quotient(WeightedSum(modes), |modes| as real);
    }
  }

  /** The evidence of the modes of one severity, added up. */
  function EvidenceOfAll(modes: seq<Mode>, severity: Severity): real {
    if modes == [] then 0.0
    else
      var last := modes[|modes| - 1];
      EvidenceOfAll(modes[..|modes| - 1], severity) + if last.severity == severity then last.evidence else 0.0
  }

  lemma {:induction false} SumBySeverity(modes: seq<Mode>)
    ensures 10.0 * WeightedSum(modes)
            == 10.0 * EvidenceOfAll(modes, Critical) + 6.0 * EvidenceOfAll(modes, High)
               + 3.0 * EvidenceOfAll(modes, Medium)
  {
    if modes != [] { SumBySeverity(modes[..|modes| - 1]); }
  }

  /** With evidence in range the aggregated risk is a mean over the modes: evidence of critical severity counts in full,
      of high severity six tenths, and of medium severity three. */
  lemma RiskIsMean(modes: seq<Mode>)
    requires InRange(modes)
    ensures 10.0 * (TotalRisk(modes) * |modes| as real)
            == 10.0 * EvidenceOfAll(modes, Critical) + 6.0 * EvidenceOfAll(modes, High)
               + 3.0 * EvidenceOfAll(modes, Medium)
  {
    SumBySeverity(modes);
    RiskTimesCount(modes);
  }

  predicate UnitOrAbsent(x: Option<real>) {
    x.None? || 0.0 <= x.value <= 1.0
  }

  predicate UnitEvidence(m: Measured) {
    && UnitOrAbsent(m.purity) && UnitOrAbsent(m.policyConfidence) && UnitOrAbsent(m.shiftKl)
    && UnitOrAbsent(m.causalSupport) && UnitOrAbsent(m.morphismScore)
  }

  lemma RaisedEvidence(m: Measured, name: ModeName)
    requires UnitEvidence(m)
    ensures forall d :: d in Raised(name, m) ==> d.evidence >= 0.0
  {
    forall d | d in Raised(name, m) ensures d.evidence >= 0.0 {
      if m.purity.Some? { RoundUnit(1.0 - m.purity.value); }
      if m.policyConfidence.Some? { RoundUnit(1.0 - m.policyConfidence.value); }
      if m.shiftKl.Some? { RoundUnit(m.shiftKl.value); }
      if m.causalSupport.Some? { RoundUnit(1.0 - m.causalSupport.value); }
      if m.morphismScore.Some? { RoundUnit(1.0 - m.morphismScore.value); }
    }
  }

  /** Risk lies between 0 and 1 when the measured evidence does. */
  lemma RiskInUnitInterval(m: Measured, scope: Scope)
    requires UnitEvidence(m)
    ensures 0.0 <= AssessmentOf(m, scope).totalRisk <= 1.0
  {
    NonNegativeEvidence(scope, m);
    RiskNonNegative(Detected(scope, m));
    RoundUnit(TotalRisk(Detected(scope, m)));
  }

  lemma RiskNonNegative(modes: seq<Mode>)
    requires forall d :: d in modes ==> 0.0 <= d.evidence
    ensures 0.0 <= TotalRisk(modes) <= 1.0
  {
    SumNonNegative(modes);
    if modes != [] { QuotientAtLeast(WeightedSum(modes), |modes| as real, 0.0); }
  }

  lemma NonNegativeEvidence(scope: Scope, m: Measured)
    requires UnitEvidence(m)
    ensures forall d :: d in Detected(scope, m) ==> 0.0 <= d.evidence
  {
    forall name ensures forall d :: d in RaisedIn(scope, name, m) ==> 0.0 <= d.evidence {
      RaisedEvidence(m, name);
    }
  }

  lemma {:induction false} SumNonNegative(modes: seq<Mode>)
    requires forall d :: d in modes ==> 0.0 <= d.evidence
    ensures WeightedSum(modes) >= 0.0
  {
    if modes != [] {
      var n := |modes| - 1;
      assert modes[n] in modes;
      SumNonNegative(modes[..n]);
    }
  }

  // ----- neutral substitution -----

  const NEUTRAL_PURITY := 1.0
  const NEUTRAL_CONFIDENCE := 0.5
  const NEUTRAL_SHIFT_KL := 0.0
  const NEUTRAL_SCORE := 0.5

  function OrElse(x: Option<real>, neutral: real): Option<real> {
    if x.Some? then x else Some(neutral)
  }

  /** The evidence as the posterior needs it: numbers everywhere. */
  function Neutralised(m: Measured): Measured {
    m.(purity := OrElse(m.purity, NEUTRAL_PURITY),
       policyConfidence := OrElse(m.policyConfidence, NEUTRAL_CONFIDENCE),
       shiftKl := OrElse(m.shiftKl, NEUTRAL_SHIFT_KL),
       causalSupport := OrElse(m.causalSupport, NEUTRAL_CONFIDENCE),
       morphismScore := OrElse(m.morphismScore, NEUTRAL_SCORE))
  }

  /** The scope in which the certificate re-derives its modes. */
  function RederivedScope(m: Measured): Scope {
    if m.morphismScore.Some? then AllModes else LocalOnly
  }

  /** Without a morphism score there is no polarity to invert: the caller sets both from the same morphism. */
  predicate Consistent(m: Measured) {
    m.morphismScore.None? ==> !m.polarityInversion
  }

  lemma NeutralIsSilent(m: Measured, name: ModeName)
    requires Consistent(m)
    requires name == CausalInversion ==> !(m.polarityInversion && m.causalSupport.None?)
    ensures Raised(name, Neutralised(m)) == Raised(name, m)
    ensures name in {CausalInversion, MorphismFailure} && m.morphismScore.None? ==> Raised(name, m) == []
  {
  }

  /** Neutral numbers raise exactly the modes of the re-derived, abstaining assessment, with one exception:
      when polarity is inverted and causal support was not measured they add one causal inversion, of high severity.
      Whether the transfer is blocked never differs. */
  lemma NeutralAgrees(m: Measured)
    requires Consistent(m)
    ensures var neutral, rederived := AssessmentOf(Neutralised(m), AllModes), AssessmentOf(m, RederivedScope(m));
            var local, last := DetectedLocal(AllModes, m), Raised(MorphismFailure, m);
            && (neutral.modes == rederived.modes <==> !(m.polarityInversion && m.causalSupport.None?))
            && (m.polarityInversion && m.causalSupport.None? ==>
                  && rederived.modes == local + last
                  && neutral.modes == local + [Mode(CausalInversion, High, 0.5)] + last)
            && neutral.blocking == rederived.blocking
  {
    if m.polarityInversion && m.causalSupport.None? {
      InvertedModes(m);
      var local, last := DetectedLocal(AllModes, m), Raised(MorphismFailure, m);
      var extra := Mode(CausalInversion, High, 0.5);
      assert |local + [extra] + last| == |local + last| + 1;
      CountWithout(local, extra, last);
    } else {
      SilentModes(m);
    }
  }

  lemma InvertedModes(m: Measured)
    requires Consistent(m) && m.polarityInversion && m.causalSupport.None?
    ensures var local, last := DetectedLocal(AllModes, m), Raised(MorphismFailure, m);
            && Detected(RederivedScope(m), m) == local + last
            && Detected(AllModes, Neutralised(m)) == local + [Mode(CausalInversion, High, 0.5)] + last
  {
    LocalAgrees(m);
    NeutralIsSilent(m, MorphismFailure);
    InversionAdded(m);
  }

  lemma SilentModes(m: Measured)
    requires Consistent(m) && !(m.polarityInversion && m.causalSupport.None?)
    ensures Detected(AllModes, Neutralised(m)) == Detected(RederivedScope(m), m)
  {
    LocalAgrees(m);
    NeutralIsSilent(m, MorphismFailure);
    NeutralIsSilent(m, CausalInversion);
  }

  lemma LocalAgrees(m: Measured)
    requires Consistent(m)
    ensures DetectedLocal(AllModes, Neutralised(m)) == DetectedLocal(AllModes, m) == DetectedLocal(LocalOnly, m)
  {
    NeutralIsSilent(m, MemoryContamination);
    NeutralIsSilent(m, PolicyDrift);
    NeutralIsSilent(m, BeliefCollapse);
    NeutralIsSilent(m, TraceDiscontinuity);
  }

  lemma InversionAdded(m: Measured)
    requires m.polarityInversion && m.causalSupport.None? && Consistent(m)
    ensures Raised(CausalInversion, Neutralised(m)) == [Mode(CausalInversion, High, 0.5)]
    ensures Raised(CausalInversion, m) == []
  {
    RoundExact(0.5, 5000);
  }

  lemma CountWithout(a: seq<Mode>, extra: Mode, b: seq<Mode>)
    requires extra.severity != Critical
    ensures Count(a + [extra] + b, Critical) == Count(a + b, Critical)
  {
    CountConcat(a + [extra], b, Critical);
    CountConcat(a, [extra], Critical);
    CountConcat(a, b, Critical);
  }

  lemma {:induction false} CountConcat(a: seq<Mode>, b: seq<Mode>, severity: Severity)
    ensures Count(a + b, severity) == Count(a, severity) + Count(b, severity)
  {
    if a == [] {
      assert a + b == b;
    } else {
      assert (a + b)[1..] == a[1..] + b;
      CountConcat(a[1..], b, severity);
    }
  }
}
