/** The gate: proposal, certificate, promotion or rejection, memory; with trackers that seed from the store. */
module PromotionGate {
  import opened Collections
  import opened Contracts
  import opened RealArith
  import opened Sections
  import opened Certificates
  import opened Windows
  import opened RiskEngine
  import opened Coherence

  /** An episode with what the collaborators report about it. */
  datatype Input = Input(
    ep: Episode,
    closure: bool,
    trace: bool,
    fallback: Option<real>,
    declaredCollapse: bool,
    cycle: real,
    hardViolations: int,
    barrierViolated: bool,
    tribunal: Option<Tribunal>,
    macroSupported: bool)

  // ----- what is measured before the certificate -----

  const COLLAPSE_HISTORY := 3
  const COLLAPSE_STREAK := 3

  function LowCount(recent: seq<Certificate>): nat {
    if recent == [] then 0
    else (if recent[0].continuity < ALERT_THRESHOLD then 1 else 0) + LowCount(recent[1..])
  }

  /** Closure or trace failed, or continuity is low and was low often enough just before. */
  predicate Collapses(closure: bool, trace: bool, continuity: real, recent: seq<Certificate>) {
    !closure || !trace || (continuity < ALERT_THRESHOLD && LowCount(recent) >= COLLAPSE_STREAK - 1)
  }

  datatype Measured = Measured(continuity: real, collapse: bool, ioc: real)

  /** `recent`: the last certificates of the run, newest first. */
  function MeasuredFrom(recent: seq<Certificate>, x: Input): Measured {
    var c := Continuity(if recent == [] then None else Some(recent[0]), x.ep, x.fallback);
    var collapse := x.declaredCollapse || Collapses(x.closure, x.trace, c, recent);
    Measured(c, collapse, IoC(c, x.closure, x.trace, collapse, x.ep.uncertainty))
  }

  function MeasuredOf(history: seq<Certificate>, x: Input): Measured {
    MeasuredFrom(NewestFirst(history, COLLAPSE_HISTORY), x)
  }

  // ----- the certificate, the decision and the memory -----

  /** The certificate for measured values and a corrected index, after the tribunal. */
  function CertificateFrom(m: Measured, x: Input, star: real): Certificate {
    Adjust(Build(x.ep, m.continuity, m.ioc, m.continuity < ALERT_THRESHOLD, x.closure, x.trace, m.collapse,
                 Some(Round6(star))),
           x.tribunal)
  }

  function CertificateFor(history: seq<Certificate>, x: Input, star: real): Certificate {
    CertificateFrom(MeasuredOf(history, x), x, star)
  }

  datatype Decision = Decision(run: string, promoted: bool)

  datatype Memory = Memory(micro: seq<Certificate>, meso: seq<Certificate>, macro: seq<Certificate>)

  function Remembered(m: Memory, cert: Certificate, macroSupported: bool): Memory {
    if !cert.certified then m
    else Memory(m.micro + [cert], m.meso + [cert],
                if cert.candidate && macroSupported then m.macro + [cert] else m.macro)
  }

  predicate TribunalClears(tribunal: Option<Tribunal>) {
    tribunal.Some? ==> !TribunalBlocks(tribunal.value)
  }

  /** The verdict as a condition on what came in: a low continuity alone does not reject, a streak does. */
  lemma CertifiedExactly(history: seq<Certificate>, x: Input, star: real)
    ensures var c := MeasuredOf(history, x).continuity;
            CertificateFor(history, x, star).certified <==>
              && x.closure && x.trace && !x.declaredCollapse
              && (c >= ALERT_THRESHOLD || LowCount(NewestFirst(history, COLLAPSE_HISTORY)) < COLLAPSE_STREAK - 1)
              && TribunalClears(x.tribunal)
  {
  }

  lemma CandidateFrom(m: Measured, x: Input, star: real)
    requires 0.0 <= m.continuity <= 1.0
    requires m.ioc == IoC(m.continuity, x.closure, x.trace, m.collapse, x.ep.uncertainty)
    ensures CertificateFrom(m, x, star).candidate <==>
              && x.closure && x.trace && !m.collapse
              && m.continuity >= ContinuityFloor(x.ep.uncertainty) && UnderRiskCeiling(m.continuity, x.ep.uncertainty)
              && TribunalClears(x.tribunal) && (x.tribunal.Some? ==> MaxRisk(x.tribunal.value) < 0.60)
  {
    CandidateCollapses(x.ep, m.continuity, x.closure, x.trace, m.collapse, Some(Round6(star)));
  }

  /** Promotion as a condition on what came in: neither the history of low continuity nor the index decides anything
      that continuity and uncertainty do not, and up to an uncertainty of 329/75 neither does the risk score. */
  lemma PromotedExactly(history: seq<Certificate>, x: Input, star: real)
    ensures var c, u := MeasuredOf(history, x).continuity, x.ep.uncertainty;
            && (CertificateFor(history, x, star).candidate <==>
                  && x.closure && x.trace && !x.declaredCollapse
                  && c >= ContinuityFloor(u) && UnderRiskCeiling(c, u)
                  && TribunalClears(x.tribunal) && (x.tribunal.Some? ==> MaxRisk(x.tribunal.value) < 0.60))
            && (75.0 * u <= 329.0 && c >= ContinuityFloor(u) ==> UnderRiskCeiling(c, u))
  {
    CandidateFrom(MeasuredOf(history, x), x, star);
    CeilingAtFloor(x.ep.uncertainty);
  }

  /** What a stored certificate that was promoted, or only certified, is known to satisfy. */
  predicate Sound(cert: Certificate) {
    cert.candidate ==> cert.certified && cert.ioc >= 0.72 && cert.continuity >= 0.60 && cert.risk < 0.60
  }

  predicate SoundMemory(m: Memory) {
    && m.micro == m.meso
    && (forall c :: c in m.micro ==> c.certified)
    && (forall c :: c in m.macro ==> c in m.meso && c.candidate && Sound(c))
  }

  lemma EveryCertificateSound(history: seq<Certificate>, x: Input, star: real)
    ensures Sound(CertificateFor(history, x, star))
  {
  }

  /** Only certified episodes are remembered, and only promoted ones reach macro memory. */
  lemma RememberedSound(m: Memory, cert: Certificate, macroSupported: bool)
    requires SoundMemory(m) && Sound(cert)
    ensures SoundMemory(Remembered(m, cert, macroSupported))
  {
  }

  // ----- one step of a run, on values -----

  datatype Settings = Settings(engine: Engine, lambdas: Lambdas, window: nat, cfg: SieConfig, maxHistory: nat)

  /** What the trackers hold of a run. */
  datatype Live = Live(series: seq<real>, sections: seq<Section>, star: Option<real>)

  function Iocs(history: seq<Certificate>): seq<real> {
    Mapped(history, (c: Certificate) => c.ioc)
  }

  /** What fresh trackers read from the store. */
  function Seeded(s: Settings, history: seq<Certificate>): Live {
    var listing := NewestFirst(history, s.window);
    Live(Reversed(NewestFirst(Iocs(history), s.maxHistory)),
         LastN(Mapped(Reversed(listing), SectionOfCertificate), s.window),
         if listing == [] then None else listing[0].iocStar)
  }

  datatype Report = Report(omega: OmegaBlock, risk: RiskBlock, certificate: Certificate)

  function SeriesAfter(s: Settings, live: Live, ioc: real): seq<real> {
    LastN(live.series + [ioc], s.maxHistory)
  }

  function ReportOf(s: Settings, history: seq<Certificate>, live: Live, x: Input): Report
    requires 0.0 <= s.cfg.cvarAlpha <= 1.0
  {
    var ioc := MeasuredOf(history, x).ioc;
    var omega := OmegaBlockOf(s.engine, s.lambdas, live.sections, live.star, SectionOfEpisode(x.ep), ioc, x.cycle);
    Report(omega,
           RiskBlockOf(live.series, SeriesAfter(s, live, ioc), ioc, s.cfg, x.hardViolations, x.barrierViolated),
           CertificateFor(history, x, omega.iocStar))
  }

  function LiveAfter(s: Settings, live: Live, x: Input, ioc: real, star: real): Live {
    Live(SeriesAfter(s, live, ioc), LastN(live.sections + [SectionOfEpisode(x.ep)], s.window), Some(star))
  }

  // ----- the gate -----

  class PromotionGate {
    const risk: EpisodeRiskTracker
    const omega: CoherenceTracker
    var certificates: map<string, seq<Certificate>>
    var decisions: seq<Decision>
    var memory: Memory

    /** A new gate over a store that may already hold certificates: what it knows of a run is what it can read. */
    constructor (engine: Engine, stored: map<string, seq<Certificate>>, decided: seq<Decision>, remembered: Memory)
      ensures Valid() && fresh(risk) && fresh(omega)
      ensures certificates == stored && decisions == decided && memory == remembered
      ensures forall run :: LiveOf(run) == Seeded(Configured(), History(run))
      ensures Configured() == Settings(engine, Lambdas(0.30, 0.50), 4, SieConfig(0.95, 0.10, 0.45, 4), 64)
    {
      risk := new EpisodeRiskTracker();
      omega := new CoherenceTracker(engine);
      certificates, decisions, memory := stored, decided, remembered;
    }

    ghost predicate Valid()
      reads omega
    {
      omega.Valid() && 0.0 <= risk.cfg.cvarAlpha <= 1.0
    }

    function Configured(): Settings {
      Settings(omega.engine, omega.lambdas, omega.window, risk.cfg, risk.maxHistory)
    }

    function History(run: string): seq<Certificate>
      reads this
    {
      if run in certificates then certificates[run] else []
    }

    /** What the trackers hold of a run, or will read of this history when they first meet it. */
    ghost function LiveIn(run: string, history: seq<Certificate>): Live
      reads risk, omega
    {
      Live(risk.SeriesFor(run, Some(NewestFirst(Iocs(history), risk.maxHistory))),
           omega.WindowFor(run, Some(NewestFirst(history, omega.window))),
           omega.StarFor(run, Some(NewestFirst(history, omega.window))))
    }

    ghost function LiveOf(run: string): Live
      reads this, risk, omega
    {
      LiveIn(run, History(run))
    }

    /** Both trackers observe the episode; from then on they do not read the store for this run. */
    method Observe(run: string, x: Input, ioc: real) returns (omegaBlock: OmegaBlock, riskBlock: RiskBlock)
      requires Valid()
      modifies risk, omega
      ensures Valid()
      ensures var live, s := old(LiveOf(run)), Configured();
              && omegaBlock == OmegaBlockOf(s.engine, s.lambdas, live.sections, live.star,
                                            SectionOfEpisode(x.ep), ioc, x.cycle)
              && riskBlock == RiskBlockOf(live.series, SeriesAfter(s, live, ioc), ioc, s.cfg,
                                          x.hardViolations, x.barrierViolated)
      ensures forall h :: LiveIn(run, h) == LiveAfter(Configured(), old(LiveOf(run)), x, ioc, omegaBlock.iocStar)
      ensures forall other, h :: other != run ==> LiveIn(other, h) == old(LiveIn(other, h))
    {
      var history := History(run);
      omegaBlock := omega.Assess(run, SectionOfEpisode(x.ep), ioc, x.cycle, Some(NewestFirst(history, omega.window)));
      riskBlock := risk.Assess(run, ioc, x.hardViolations, x.barrierViolated,
                               Some(NewestFirst(Iocs(history), risk.maxHistory)));
    }

    /** The certificate is stored, and stored again in its place if the tribunal changes it. */
    method Certify(run: string, m: Measured, x: Input, star: real) returns (certificate: Certificate)
      modifies this`certificates
      ensures certificate == CertificateFrom(m, x, star)
      ensures certificates == old(certificates)[run := old(History(run)) + [certificate]]
    {
      var history := History(run);
      certificate := Build(x.ep, m.continuity, m.ioc, m.continuity < ALERT_THRESHOLD, x.closure, x.trace, m.collapse,
                           Some(Round6(star)));
      certificates := certificates[run := history + [certificate]];
      if x.tribunal.Some? {
        certificate := Adjust(certificate, x.tribunal);
        certificates := certificates[run := history + [certificate]];
      }
    }

    method Decide(run: string, certificate: Certificate, macroSupported: bool)
      modifies this`decisions, this`memory
      ensures decisions == old(decisions) + [Decision(run, certificate.candidate)]
      ensures memory == Remembered(old(memory), certificate, macroSupported)
      ensures SoundMemory(old(memory)) && Sound(certificate) ==> SoundMemory(memory)
    {
      decisions := decisions + [Decision(run, certificate.candidate)];
      if certificate.certified {
        memory := memory.(micro := memory.micro + [certificate], meso := memory.meso + [certificate]);
        if certificate.candidate && macroSupported {
          memory := memory.(macro := memory.macro + [certificate]);
        }
      }
    }

    /** What the trackers hold of a run they have met does not depend on the store any more. */
    method Assess(run: string, x: Input) returns (report: Report)
      requires Valid()
      modifies this`certificates, risk, omega
      ensures Valid()
      ensures report == ReportOf(Configured(), old(History(run)), old(LiveOf(run)), x)
      ensures certificates == old(certificates)[run := old(History(run)) + [report.certificate]]
      ensures Sound(report.certificate)
      ensures forall h :: LiveIn(run, h) == LiveAfter(Configured(), old(LiveOf(run)), x,
                                                      MeasuredOf(old(History(run)), x).ioc, report.omega.iocStar)
      ensures forall other, h :: other != run ==> LiveIn(other, h) == old(LiveIn(other, h))
    {
      var measured := MeasuredOf(History(run), x);
      var omegaBlock, riskBlock := Observe(run, x, measured.ioc);
      EveryCertificateSound(History(run), x, omegaBlock.iocStar);
      var certificate := Certify(run, measured, x, omegaBlock.iocStar);
      report := Report(omegaBlock, riskBlock, certificate);
    }

    method ProcessEpisode(run: string, x: Input) returns (report: Report)
      requires Valid()
      modifies this, risk, omega
      ensures Valid()
      ensures report == ReportOf(Configured(), old(History(run)), old(LiveOf(run)), x)
      ensures certificates == old(certificates)[run := old(History(run)) + [report.certificate]]
      ensures decisions == old(decisions) + [Decision(run, report.certificate.candidate)]
      ensures memory == Remembered(old(memory), report.certificate, x.macroSupported)
      ensures SoundMemory(old(memory)) ==> SoundMemory(memory)
      ensures LiveOf(run) == LiveAfter(Configured(), old(LiveOf(run)), x,
                                       MeasuredOf(old(History(run)), x).ioc, report.omega.iocStar)
      ensures forall other :: other != run ==> LiveOf(other) == old(LiveOf(other))
    {
      report := Assess(run, x);
      Decide(run, report.certificate, x.macroSupported);
    }
  }
}
