/** Episodes, the certificates written for them, and the sections read from either. */
module Certificates {
  import opened Contracts
  import opened RealArith
  import opened Sections

  /** A dictionary entry that is absent, null, or a text. */
  datatype Entry = Absent | Null | Text(text: string)

  /** The entry if it holds a non-empty text, the default otherwise. */
  function Or(e: Entry, default_: string): string {
    if e.Text? && e.text != "" then e.text else default_
  }

  /** The default only if the entry is absent. */
  function GetOr(e: Entry, default_: string): Entry {
    if e.Absent? then Text(default_) else e
  }

  datatype ScenarioMetadata = ScenarioMetadata(name: Entry, mainVariable: Entry, alarm: Option<real>)

  datatype Episode = Episode(
    scenario: Entry,
    metadata: Option<ScenarioMetadata>,
    tokens: seq<Word>,
    relationKind: Option<string>,
    world: map<string, real>,
    reasoningSequence: seq<string>,
    uncertainty: real)

  datatype Certificate = Certificate(
    continuity: real,
    ioc: real,
    risk: real,
    certified: bool,
    rollbackReady: bool,
    candidate: bool,
    tokens: seq<Word>,
    relationKind: Option<string>,
    world: map<string, real>,
    reasoningSequence: seq<string>,
    mainVariable: Entry,
    mainValue: Option<real>,
    metadata: ScenarioMetadata,
    iocStar: Option<real>)

  const TEMPERATURE := "temperature"

  function Lookup(world: map<string, real>, name: string): Option<real> {
    if name in world then Some(world[name]) else None
  }

  function LookupEntry(world: map<string, real>, e: Entry): Option<real> {
    if e.Text? then Lookup(world, e.text) else None
  }

  function PersistedMetadata(ep: Episode): ScenarioMetadata {
    if ep.metadata.Some? then ep.metadata.value else ScenarioMetadata(GetOr(ep.scenario, "unknown"), Absent, None)
  }

  // ----- scores and the verdict -----

  function IoC(continuity: real, closure: bool, trace: bool, collapse: bool, uncertainty: real): (r: real)
    ensures 0.0 <= r <= 1.0
  {
    Unit(0.45 * Unit(continuity) + (if closure then 0.25 else 0.0) + (if trace then 0.2 else 0.0)
         - 0.06 * Unit(uncertainty) - (if collapse then 0.14 else 0.0))
  }

  function RiskScore(continuity: real, ioc: real, trace: bool, collapse: bool, uncertainty: real): (r: real)
    ensures 0.0 <= r <= 1.0
  {
    Unit(0.55 * (1.0 - continuity) + 0.30 * (1.0 - ioc) + 0.10 * (if trace then 0.0 else 1.0)
         + 0.05 * uncertainty + (if collapse then 0.08 else 0.0))
  }

  const ALERT_THRESHOLD := 0.35

  function Build(
    ep: Episode, continuity: real, ioc: real, alert: bool, closure: bool, trace: bool, collapse: bool,
    iocStar: Option<real>): Certificate
  {
    var metadata := PersistedMetadata(ep);
    var main := GetOr(metadata.mainVariable, TEMPERATURE);
    var risk := RiskScore(continuity, ioc, trace, collapse, ep.uncertainty);
    var certified := closure && trace && !collapse;
    Certificate(
      continuity, ioc, risk, certified, true,
      certified && !alert && continuity >= 0.60 && ioc >= 0.72 && risk <= 0.45,
      ep.tokens, ep.relationKind, ep.world, ep.reasoningSequence,
      main, LookupEntry(ep.world, main), metadata, iocStar)
  }

  /** The lowest continuity of a candidate, from the index. */
  function ContinuityFloor(uncertainty: real): real {
    0.60 + Unit(uncertainty) * 2.0 / 15.0
  }

  /** What the risk ceiling asks of a continuity; the score takes the uncertainty as it comes. */
  predicate UnderRiskCeiling(c: real, uncertainty: real) {
    0.685 * c >= 0.265 + 0.018 * Unit(uncertainty) + 0.05 * uncertainty
  }

  /** For a continuity in range the alert and the continuity floor are implied by the index, and candidacy
      is two conditions on continuity and uncertainty. */
  lemma CandidateCollapses(ep: Episode, c: real, closure: bool, trace: bool, collapse: bool, star: Option<real>)
    requires 0.0 <= c <= 1.0
    ensures var ioc := IoC(c, closure, trace, collapse, ep.uncertainty);
            var cert := Build(ep, c, ioc, c < ALERT_THRESHOLD, closure, trace, collapse, star);
            && (cert.candidate <==> closure && trace && !collapse && ioc >= 0.72 && cert.risk <= 0.45)
            && (cert.candidate <==> closure && trace && !collapse
                                    && c >= ContinuityFloor(ep.uncertainty) && UnderRiskCeiling(c, ep.uncertainty))
  {
  }

  /** The candidacy of a closed episode without collapse, by continuity. */
  predicate CandidateAt(ep: Episode, c: real, star: Option<real>) {
    Build(ep, c, IoC(c, true, true, false, ep.uncertainty), c < ALERT_THRESHOLD, true, true, false, star).candidate
  }

  /** The builder does not clamp the uncertainty that the index clamps: the index alone decides for every continuity
      exactly up to an uncertainty of 329/75. */
  lemma RiskCeilingRedundant(ep: Episode, star: Option<real>)
    ensures (forall c :: 0.0 <= c <= 1.0 ==>
               (CandidateAt(ep, c, star) <==> IoC(c, true, true, false, ep.uncertainty) >= 0.72))
            <==> 75.0 * ep.uncertainty <= 329.0
  {
    var floor := ContinuityFloor(ep.uncertainty);
    forall c | 0.0 <= c <= 1.0
      ensures CandidateAt(ep, c, star) <==> c >= floor && UnderRiskCeiling(c, ep.uncertainty)
      ensures IoC(c, true, true, false, ep.uncertainty) >= 0.72 <==> c >= floor
    {
      CandidateCollapses(ep, c, true, true, false, star);
    }
    CeilingAtFloor(ep.uncertainty);
    if 75.0 * ep.uncertainty > 329.0 {
      assert !CandidateAt(ep, floor, star) && IoC(floor, true, true, false, ep.uncertainty) >= 0.72;
    }
  }

  lemma CeilingAtFloor(u: real)
    ensures UnderRiskCeiling(ContinuityFloor(u), u) <==> 75.0 * u <= 329.0
    ensures 75.0 * u <= 329.0 ==> forall c :: c >= ContinuityFloor(u) ==> UnderRiskCeiling(c, u)
  {
  }

  // ----- continuity between episodes -----

  function Matches(a: seq<string>, b: seq<string>): nat {
    if a == [] || b == [] then 0 else (if a[0] == b[0] then 1 else 0) + Matches(a[1..], b[1..])
  }

  function SequenceScore(a: seq<string>, b: seq<string>): real {
    if a == [] && b == [] then 1.0
    else if a == [] || b == [] then 0.0
    else Matches(a, b) as real / (if |a| > |b| then |a| else |b|) as real
  }

  function StabilityScore(previous: Option<real>, current: Option<real>): real {
    if previous.Some? && current.Some? then 1.0 - Unit(Abs(current.value - previous.value)) else 0.5
  }

  function MainVariable(ep: Episode): Entry {
    if ep.metadata.Some? then GetOr(ep.metadata.value.mainVariable, TEMPERATURE) else Text(TEMPERATURE)
  }

  function Continuity(previous: Option<Certificate>, ep: Episode, fallback: Option<real>): (r: real)
    ensures 0.0 <= r <= 1.0
  {
    if fallback.Some? then Unit(fallback.value)
    else if previous.None? then 1.0
    else
      var main := MainVariable(ep);
      var before := if previous.value.mainVariable == main then previous.value.mainValue else None;
      Unit(0.6 * SequenceScore(previous.value.reasoningSequence, ep.reasoningSequence)
           + 0.4 * StabilityScore(before, LookupEntry(ep.world, main)))
  }

  lemma {:induction false} MatchesBound(a: seq<string>, b: seq<string>)
    ensures Matches(a, b) <= |a| && Matches(a, b) <= |b|
    ensures Matches(a, b) == |a| == |b| <==> a == b
  {
    if a != [] && b != [] {
      MatchesBound(a[1..], b[1..]);
      assert a == [a[0]] + a[1..] && b == [b[0]] + b[1..];
    }
  }

  lemma SequenceScoreRange(a: seq<string>, b: seq<string>)
    ensures 0.0 <= SequenceScore(a, b) <= 1.0
    ensures SequenceScore(a, b) == 1.0 <==> a == b
  {
    MatchesBound(a, b);
    if a != [] && b != [] {
      var m, n := Matches(a, b) as real, (if |a| > |b| then |a| else |b|) as real;
      QuotientAtLeast(m, n, 0.0);
      QuotientAtMost(m, n, 1.0);
      QuotientAtLeast(m, n, 1.0);
    }
  }

  /** Measured continuity is complete exactly when nothing moved: the same reasoning sequence, the same main
      variable, and the same measured value of it. */
  lemma FullContinuity(previous: Certificate, ep: Episode)
    ensures Continuity(Some(previous), ep, None) == 1.0 <==>
            && previous.reasoningSequence == ep.reasoningSequence
            && previous.mainVariable == MainVariable(ep)
            && previous.mainValue.Some? && previous.mainValue == LookupEntry(ep.world, MainVariable(ep))
  {
    SequenceScoreRange(previous.reasoningSequence, ep.reasoningSequence);
  }

  // ----- sections of the live episode and of its certificate -----

  const OPERATORS: set<string> := {"->", "(", ")", "NOT", "AND", "OR"}

  function MakeSection(
    scenario: string, tokens: seq<Word>, relation: Option<string>, main: string,
    value: Option<real>, alarm: Option<real>): Section
  {
    Section(scenario, (set t | t in tokens) - OPERATORS, relation, Join(tokens), (set t | t in tokens),
            main, value, alarm)
  }

  function SectionOfEpisode(ep: Episode): Section {
    var md := if ep.metadata.Some? then ep.metadata.value else ScenarioMetadata(Absent, Absent, None);
    var main := Or(md.mainVariable, TEMPERATURE);
    MakeSection(Or(ep.scenario, Or(md.name, "")), ep.tokens, ep.relationKind, main,
                Lookup(ep.world, main), md.alarm)
  }

  function SectionOfCertificate(cert: Certificate): Section {
    var md := cert.metadata;
    var main := Or(cert.mainVariable, Or(md.mainVariable, TEMPERATURE));
    var value := Lookup(cert.world, main);
    MakeSection(Or(md.name, ""), cert.tokens, cert.relationKind, main,
                if value.Some? then value else cert.mainValue, md.alarm)
  }

  /** The symbols of an episode are its tokens but the six operators; its formula is their joined form, and its value that
      of the variable it names, or of the temperature. */
  lemma SectionOfContents(ep: Episode, t: string)
    ensures var section := SectionOfEpisode(ep);
            && (t in section.symbols <==>
                  t in ep.tokens && t != "->" && t != "(" && t != ")" && t != "NOT" && t != "AND" && t != "OR")
            && (t in section.formulaTokens <==> t in ep.tokens)
            && section.formulaNorm == Join(ep.tokens) && section.relationKind == ep.relationKind
            && section.value == (if section.mainVariable in ep.world then Some(ep.world[section.mainVariable]) else None)
            && section.mainVariable != ""
            && (ep.metadata.None? ==> section.mainVariable == "temperature")
            && (section.mainVariable == "temperature"
                || (ep.metadata.Some? && ep.metadata.value.mainVariable == Text(section.mainVariable)))
  {
  }

  /** The episode's own scenario name is empty or that of its metadata; without metadata it is at least an entry. */
  predicate NamesAgree(ep: Episode) {
    if ep.metadata.Some?
    then Or(ep.scenario, "") == "" || Or(ep.scenario, "") == Or(ep.metadata.value.name, "")
    else !ep.scenario.Absent?
  }

  /** The main variable is named by the empty text, which the live reader replaces and the builder does not. */
  predicate NamelessVariable(ep: Episode) {
    && ep.metadata.Some? && ep.metadata.value.mainVariable == Text("")
    && TEMPERATURE !in ep.world && "" in ep.world
  }

  /** The section read back from the certificate is the section of the live episode exactly under these conditions. */
  lemma SectionRoundTrip(
    ep: Episode, c: real, ioc: real, alert: bool, closure: bool, trace: bool, collapse: bool, star: Option<real>)
    ensures SectionOfCertificate(Build(ep, c, ioc, alert, closure, trace, collapse, star)) == SectionOfEpisode(ep)
            <==> NamesAgree(ep) && !NamelessVariable(ep)
  {
    assert "unknown" != "" && TEMPERATURE != "";
    if ep.metadata.Some? {
      MainVariableAgrees(ep);
    }
  }

  lemma MainVariableAgrees(ep: Episode)
    requires ep.metadata.Some?
    ensures var entry := ep.metadata.value.mainVariable;
            Or(GetOr(entry, TEMPERATURE), Or(entry, TEMPERATURE)) == Or(entry, TEMPERATURE)
  {
  }

  /** A section as the trackers hold it: read from a live episode or from a stored certificate. */
  ghost predicate Tracked(s: Section) {
    || (exists ep: Episode :: s == SectionOfEpisode(ep))
    || (exists cert: Certificate :: s == SectionOfCertificate(cert))
  }

  lemma TrackedWellFormed(s: Section)
    requires Tracked(s)
    ensures WellFormed(s)
  {
    if ep: Episode :| s == SectionOfEpisode(ep) {
      MadeWellFormed(ep.tokens, s);
    } else {
      var cert: Certificate :| s == SectionOfCertificate(cert);
      MadeWellFormed(cert.tokens, s);
    }
  }

  lemma MadeWellFormed(tokens: seq<Word>, s: Section)
    requires s.formulaNorm == Join(tokens) && s.formulaTokens == (set t: string | t in tokens)
    ensures WellFormed(s)
  {
    assert Words(tokens);
  }

  /** On the sections that the trackers compare, the divergence without transport is a metric up to the value that was
      not measured. */
  lemma TrackedMetric(a: Section, b: Section, c: Section)
    requires Tracked(a) && Tracked(b) && Tracked(c)
    ensures Total(a, c) <= Total(a, b) + Total(b, c)
    ensures Total(a, b) == Total(b, a)
    ensures Total(a, b) == 0.0 <==>
              && a.symbols == b.symbols && RelationName(a) == RelationName(b)
              && a.formulaTokens == b.formulaTokens && a.value.Some? && a.value == b.value
  {
    TrackedWellFormed(a);
    TrackedWellFormed(b);
    TrackedWellFormed(c);
    DivergenceTriangle(a, b, c);
    DivergenceSymmetric(a, b);
    ZeroDivergence(a, b);
  }

  // ----- the sequential tribunal's adjustment -----

  datatype CanonicalScope =
    LocalSafe | TransferSafe | ModificationSafe | InheritanceSafe | QuarantineOnly | BlockedCanonical

  datatype Tribunal = Tribunal(
    scope: CanonicalScope, rollbackObligation: bool,
    organismRisk: real, edgeRisk: real, modificationRisk: real, inheritanceRisk: real)

  function MaxRisk(t: Tribunal): real {
    Larger(Larger(t.organismRisk, t.edgeRisk), Larger(t.modificationRisk, t.inheritanceRisk))
  }

  predicate TribunalBlocks(t: Tribunal) {
    t.scope in {BlockedCanonical, QuarantineOnly} || t.rollbackObligation || MaxRisk(t) >= 0.85
  }

  /** None: the mode is off or gave no result. */
  function Adjust(cert: Certificate, tribunal: Option<Tribunal>): Certificate {
    if tribunal.None? then cert
    else
      var t := tribunal.value;
      var certified := cert.certified && !TribunalBlocks(t);
      var candidate := cert.candidate && !TribunalBlocks(t) && MaxRisk(t) < 0.60;
      var risk := Larger(cert.risk, MaxRisk(t));
      if certified == cert.certified && candidate == cert.candidate && risk == cert.risk then cert
      else cert.(certified := certified, candidate := candidate, risk := risk,
                 rollbackReady := cert.rollbackReady || t.rollbackObligation)
  }

  /** The adjustment only ever takes away: no verdict or candidacy is upgraded, no risk lowered, and what the
      trackers and the sections read is untouched. */
  lemma AdjustOnlyTakesAway(cert: Certificate, tribunal: Option<Tribunal>)
    ensures var a := Adjust(cert, tribunal);
            && (a.certified ==> cert.certified) && (a.candidate ==> cert.candidate) && a.risk >= cert.risk
            && ((cert.candidate ==> cert.certified) ==> a.candidate ==> a.certified)
            && (tribunal.Some? && a.candidate ==> MaxRisk(tribunal.value) < 0.60)
            && a.ioc == cert.ioc && a.iocStar == cert.iocStar
            && SectionOfCertificate(a) == SectionOfCertificate(cert)
  {
  }
}
