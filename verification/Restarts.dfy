/** Runs of the gate over a stream of episodes, with the process restarted at arbitrary points. */
module Restarts {
  import opened Collections
  import opened Contracts
  import opened RealArith
  import opened Sections
  import opened Certificates
  import opened Windows
  import opened RiskEngine
  import opened Coherence
  import opened PromotionGate

  function Before(s: Settings, history: seq<Certificate>, live: Option<Live>, e: Event<Input>): Live {
    if live.None? || e.restarted then Seeded(s, history) else live.value
  }

  function Next(s: Settings, history: seq<Certificate>, live: Live, x: Input): Live
    requires 0.0 <= s.cfg.cvarAlpha <= 1.0
  {
    LiveAfter(s, live, x, MeasuredOf(history, x).ioc, ReportOf(s, history, live, x).omega.iocStar)
  }

  /** The reports of a run: before each episode the trackers hold `live`, or read the store when there is none
      or the process was replaced. Every certificate is appended to the stored history. */
  function Reports(s: Settings, history: seq<Certificate>, live: Option<Live>, events: seq<Event<Input>>): seq<Report>
    requires 0.0 <= s.cfg.cvarAlpha <= 1.0
    decreases |events|
  {
    if events == [] then []
    else
      var x := events[0].item;
      var before := Before(s, history, live, events[0]);
      var report := ReportOf(s, history, before, x);
      [report] + Reports(s, history + [report.certificate], Some(Next(s, history, before, x)), events[1..])
  }

  /** The same episodes in one process. */
  function Unbroken(events: seq<Event<Input>>): seq<Event<Input>> {
    if events == [] then [] else [Event(events[0].item, false)] + Unbroken(events[1..])
  }

  function SectionsOf(history: seq<Certificate>): seq<Section> {
    Mapped(history, SectionOfCertificate)
  }

  // ----- the windows are functions of the stored history -----

  /** Both windows are the last items of the stored history. */
  predicate Windowed(s: Settings, history: seq<Certificate>, live: Live) {
    live.series == LastN(Iocs(history), s.maxHistory) && live.sections == LastN(SectionsOf(history), s.window)
  }

  lemma SeededWindowed(s: Settings, history: seq<Certificate>)
    ensures Windowed(s, history, Seeded(s, history))
  {
    SeededWindow(Iocs(history), s.maxHistory);
    SeededWindow(history, s.window);
    MappedWindow(history, SectionOfCertificate, s.window);
  }

  /** The section of a certificate for the episode is the episode's, when the round trip holds. */
  lemma CertificateKeeps(m: Measured, x: Input, star: real)
    requires NamesAgree(x.ep) && !NamelessVariable(x.ep)
    ensures var cert := CertificateFrom(m, x, star);
            && SectionOfCertificate(cert) == SectionOfEpisode(x.ep)
            && cert.ioc == m.ioc && cert.iocStar == Some(Round6(star))
  {
    var alert := m.continuity < ALERT_THRESHOLD;
    SectionRoundTrip(x.ep, m.continuity, m.ioc, alert, x.closure, x.trace, m.collapse, Some(Round6(star)));
    AdjustOnlyTakesAway(
      Build(x.ep, m.continuity, m.ioc, alert, x.closure, x.trace, m.collapse, Some(Round6(star))), x.tribunal);
  }

  lemma WindowedSlides(s: Settings, history: seq<Certificate>, live: Live, x: Input, cert: Certificate, star: real)
    requires Windowed(s, history, live) && SectionOfCertificate(cert) == SectionOfEpisode(x.ep)
    ensures Windowed(s, history + [cert], LiveAfter(s, live, x, cert.ioc, star))
  {
    SlidingWindow(Iocs(history), cert.ioc, s.maxHistory);
    MappedSnoc(history, cert, (c: Certificate) => c.ioc);
    SlidingWindow(SectionsOf(history), SectionOfCertificate(cert), s.window);
    MappedSnoc(history, cert, SectionOfCertificate);
  }

  /** The last corrected index that was stored is that of the trackers, rounded. */
  predicate Recorded(history: seq<Certificate>, live: Live) {
    history != [] && live.star.Some? && history[|history| - 1].iocStar == Some(Round6(live.star.value))
  }

  /** What a step leaves in the trackers is what the store now holds, if it was before. */
  lemma StepKeeps(s: Settings, history: seq<Certificate>, live: Live, x: Input)
    requires 0.0 <= s.cfg.cvarAlpha <= 1.0
    requires Windowed(s, history, live) && NamesAgree(x.ep) && !NamelessVariable(x.ep)
    ensures var longer := history + [ReportOf(s, history, live, x).certificate];
            Windowed(s, longer, Next(s, history, live, x)) && Recorded(longer, Next(s, history, live, x))
  {
    var star := ReportOf(s, history, live, x).omega.iocStar;
    var cert := CertificateFor(history, x, star);
    CertificateKeeps(MeasuredOf(history, x), x, star);
    WindowedSlides(s, history, live, x, cert, star);
  }

  // ----- two runs in step -----

  predicate Close(a: Option<real>, b: Option<real>) {
    match (a, b)
    case (Some(p), Some(q)) => -HALF_MICRO <= p - q <= HALF_MICRO
    case (None, None) => true
    case _ => false
  }

  /** Recorded changes that are equal or neighbours. */
  predicate OneUnit(a: Option<real>, b: Option<real>) {
    match (a, b)
    case (Some(p), Some(q)) => p == q || p == q + MICRO || q == p + MICRO
    case (None, None) => true
    case _ => false
  }

  /** Equal in everything but the change of the corrected index. */
  predicate SameButDelta(a: Report, b: Report) {
    && a.certificate == b.certificate && a.risk == b.risk
    && a.omega.omega == b.omega.omega && a.omega.pairs == b.omega.pairs && a.omega.iocStar == b.omega.iocStar
  }

  predicate Equivalent(s: Settings, a: Report, b: Report) {
    && SameButDelta(a, b)
    && (s.window >= 1 ==> OneUnit(a.omega.deltaStar, b.omega.deltaStar))
  }

  predicate AllEquivalent(s: Settings, a: seq<Report>, b: seq<Report>) {
    |a| == |b| && forall i :: 0 <= i < |a| ==> Equivalent(s, a[i], b[i])
  }

  predicate InStep(s: Settings, a: Live, b: Live) {
    a.series == b.series && a.sections == b.sections && (s.window >= 1 ==> Close(a.star, b.star))
  }

  lemma ReportsAgree(s: Settings, history: seq<Certificate>, a: Live, b: Live, x: Input)
    requires 0.0 <= s.cfg.cvarAlpha <= 1.0
    requires InStep(s, a, b)
    ensures Equivalent(s, ReportOf(s, history, a, x), ReportOf(s, history, b, x))
    ensures Next(s, history, a, x) == Next(s, history, b, x)
  {
    var section, ioc := SectionOfEpisode(x.ep), MeasuredOf(history, x).ioc;
    BlocksAgree(PairsOf(s.engine, a.sections, section), s.lambdas, a.star, b.star, ioc, x.cycle);
  }

  lemma BlocksAgree(
    pairs: seq<Divergence>, lambdas: Lambdas, p: Option<real>, q: Option<real>, ioc: real, cycle: real)
    ensures var a, b := BlockOf(pairs, lambdas, p, ioc, cycle), BlockOf(pairs, lambdas, q, ioc, cycle);
            && a.omega == b.omega && a.pairs == b.pairs && a.iocStar == b.iocStar
            && (Close(p, q) ==> OneUnit(a.deltaStar, b.deltaStar))
  {
    var star := BlockOf(pairs, lambdas, p, ioc, cycle).iocStar;
    if p.Some? && q.Some? && Close(p, q) { Round6Within(star - p.value, star - q.value); }
  }

  lemma SeededStar(s: Settings, history: seq<Certificate>, live: Live)
    requires Recorded(history, live) && s.window >= 1
    ensures Close(Seeded(s, history).star, live.star)
  {
    assert NewestFirst(history, s.window)[0] == history[|history| - 1];
  }

  lemma Prepend(s: Settings, a: Report, b: Report, tail: seq<Report>, bs: seq<Report>)
    requires Equivalent(s, a, b) && AllEquivalent(s, tail, bs)
    ensures AllEquivalent(s, [a] + tail, [b] + bs)
  {
  }

  /** Two processes over the same store that start an episode in step stay in step. */
  lemma {:induction false} RunsAgree(
    s: Settings, history: seq<Certificate>, live: Option<Live>, events: seq<Event<Input>>)
    requires 0.0 <= s.cfg.cvarAlpha <= 1.0
    requires forall e :: e in events ==> NamesAgree(e.item.ep) && !NamelessVariable(e.item.ep)
    requires live.Some? ==> Windowed(s, history, live.value) && Recorded(history, live.value)
    ensures AllEquivalent(s, Reports(s, history, live, events), Reports(s, history, live, Unbroken(events)))
    decreases |events|
  {
    if events != [] {
      var x, rest := events[0].item, events[1..];
      var a := Before(s, history, live, events[0]);
      var b := Before(s, history, live, Event(x, false));
      StaysInStep(s, history, live, events[0]);
      ReportsAgree(s, history, a, b, x);
      assert events[0] in events;
      StepKeeps(s, history, b, x);
      var ra, rb := ReportOf(s, history, a, x), ReportOf(s, history, b, x);
      var longer, after := history + [rb.certificate], Some(Next(s, history, b, x));
      RunsAgree(s, longer, after, rest);
      Prepend(s, ra, rb, Reports(s, longer, after, rest), Reports(s, longer, after, Unbroken(rest)));
      assert Unbroken(events)[1..] == Unbroken(rest);
    }
  }

  lemma WindowsDetermine(s: Settings, history: seq<Certificate>, a: Live, b: Live)
    requires Windowed(s, history, a) && Windowed(s, history, b) && (s.window >= 1 ==> Close(a.star, b.star))
    ensures InStep(s, a, b)
  {
  }

  /** Reading the store instead of the memory leaves the process in step. */
  lemma StaysInStep(s: Settings, history: seq<Certificate>, live: Option<Live>, e: Event<Input>)
    requires live.Some? ==> Windowed(s, history, live.value) && Recorded(history, live.value)
    ensures var a, b := Before(s, history, live, e), Before(s, history, live, e.(restarted := false));
            Windowed(s, history, b) && InStep(s, a, b)
  {
    SeededWindowed(s, history);
    if live.Some? { SeededInStep(s, history, live.value); }
  }

  lemma SeededInStep(s: Settings, history: seq<Certificate>, live: Live)
    requires Windowed(s, history, live) && Recorded(history, live)
    ensures InStep(s, Seeded(s, history), live)
  {
    SeededWindowed(s, history);
    if s.window >= 1 { SeededStar(s, history, live); }
    WindowsDetermine(s, history, Seeded(s, history), live);
  }

  /** Restart equivalence: over any store and any stream of episodes, replacing the process at any points changes
      no certificate of the model, no risk block and no obstruction. The recorded change of the corrected index, which
      a fresh tracker computes from the persisted index, stays or moves to a neighbouring number of six decimals. */
  lemma RestartsDoNotMatter(s: Settings, stored: seq<Certificate>, events: seq<Event<Input>>)
    requires 0.0 <= s.cfg.cvarAlpha <= 1.0
    requires forall e :: e in events ==> NamesAgree(e.item.ep) && !NamelessVariable(e.item.ep)
    ensures AllEquivalent(s, Reports(s, stored, None, events), Reports(s, stored, None, Unbroken(events)))
  {
    RunsAgree(s, stored, None, events);
  }

  // ----- without a condition on names -----

  /** Equal in everything but the corrected index. */
  predicate Alike(a: Certificate, b: Certificate) {
    a.(iocStar := None) == b.(iocStar := None)
  }

  predicate AlikeHistories(g: seq<Certificate>, h: seq<Certificate>) {
    |g| == |h| && forall i :: 0 <= i < |g| ==> Alike(g[i], h[i])
  }

  predicate AlikeReports(a: seq<Report>, b: seq<Report>) {
    |a| == |b| && forall i :: 0 <= i < |a| ==> a[i].risk == b[i].risk && Alike(a[i].certificate, b[i].certificate)
  }

  lemma {:induction false} LowCountAlike(g: seq<Certificate>, h: seq<Certificate>)
    requires AlikeHistories(g, h)
    ensures LowCount(g) == LowCount(h)
  {
    if g != [] {
      assert Alike(g[0], h[0]);
      assert AlikeHistories(g[1..], h[1..]) by {
        forall i | 0 <= i < |g| - 1 ensures Alike(g[1..][i], h[1..][i]) { assert Alike(g[i + 1], h[i + 1]); }
      }
      LowCountAlike(g[1..], h[1..]);
    }
  }

  lemma MeasuredFromAlike(g: seq<Certificate>, h: seq<Certificate>, x: Input)
    requires AlikeHistories(g, h)
    ensures MeasuredFrom(g, x) == MeasuredFrom(h, x)
  {
    LowCountAlike(g, h);
    if g != [] { assert Alike(g[0], h[0]); }
  }

  lemma NewestAlike(g: seq<Certificate>, h: seq<Certificate>, n: nat)
    requires AlikeHistories(g, h)
    ensures AlikeHistories(NewestFirst(g, n), NewestFirst(h, n))
  {
    var p, q := LastN(g, n), LastN(h, n);
    forall i | 0 <= i < |p| ensures Alike(p[i], q[i]) {
      assert p[i] == g[|g| - |p| + i] && q[i] == h[|h| - |q| + i];
      assert Alike(g[|g| - |p| + i], h[|h| - |q| + i]);
    }
    forall i | 0 <= i < |p| ensures Alike(NewestFirst(g, n)[i], NewestFirst(h, n)[i]) {
      assert Alike(p[|p| - 1 - i], q[|p| - 1 - i]);
    }
  }

  lemma MeasuredAlike(g: seq<Certificate>, h: seq<Certificate>, x: Input)
    requires AlikeHistories(g, h)
    ensures MeasuredOf(g, x) == MeasuredOf(h, x)
  {
    NewestAlike(g, h, COLLAPSE_HISTORY);
    MeasuredFromAlike(NewestFirst(g, COLLAPSE_HISTORY), NewestFirst(h, COLLAPSE_HISTORY), x);
  }

  lemma CertificatesAlike(m: Measured, x: Input, p: real, q: real)
    ensures Alike(CertificateFrom(m, x, p), CertificateFrom(m, x, q))
    ensures CertificateFrom(m, x, p).ioc == m.ioc
  {
  }

  lemma AlikeSnoc(g: seq<Certificate>, h: seq<Certificate>, a: Certificate, b: Certificate)
    requires AlikeHistories(g, h) && Alike(a, b)
    ensures AlikeHistories(g + [a], h + [b])
  {
    forall i | 0 <= i < |g| + 1 ensures Alike((g + [a])[i], (h + [b])[i]) {
      if i < |g| { assert Alike(g[i], h[i]); }
    }
  }

  predicate SeriesKept(s: Settings, history: seq<Certificate>, live: Option<Live>) {
    live.Some? ==> live.value.series == LastN(Iocs(history), s.maxHistory)
  }

  lemma SeriesBefore(s: Settings, history: seq<Certificate>, live: Option<Live>, e: Event<Input>)
    requires SeriesKept(s, history, live)
    ensures Before(s, history, live, e).series == LastN(Iocs(history), s.maxHistory)
  {
    SeededWindow(Iocs(history), s.maxHistory);
  }

  lemma IocsAlike(g: seq<Certificate>, h: seq<Certificate>)
    requires AlikeHistories(g, h)
    ensures Iocs(g) == Iocs(h)
  {
    forall i | 0 <= i < |g| ensures g[i].ioc == h[i].ioc { assert Alike(g[i], h[i]); }
  }

  /** One episode from alike histories: the same risk block, alike certificates, and the series is kept. */
  lemma RiskStep(s: Settings, g: seq<Certificate>, h: seq<Certificate>, a: Live, b: Live, x: Input)
    requires 0.0 <= s.cfg.cvarAlpha <= 1.0 && AlikeHistories(g, h)
    requires a.series == LastN(Iocs(g), s.maxHistory) && b.series == LastN(Iocs(h), s.maxHistory)
    ensures ReportOf(s, g, a, x).risk == ReportOf(s, h, b, x).risk
    ensures Alike(ReportOf(s, g, a, x).certificate, ReportOf(s, h, b, x).certificate)
    ensures SeriesKept(s, g + [ReportOf(s, g, a, x).certificate], Some(Next(s, g, a, x)))
  {
    MeasuredAlike(g, h, x);
    IocsAlike(g, h);
    var m, cert := MeasuredOf(g, x), ReportOf(s, g, a, x).certificate;
    CertificatesAlike(m, x, ReportOf(s, g, a, x).omega.iocStar, ReportOf(s, h, b, x).omega.iocStar);
    SlidingWindow(Iocs(g), m.ioc, s.maxHistory);
    MappedSnoc(g, cert, (c: Certificate) => c.ioc);
  }

  lemma PrependAlike(a: Report, b: Report, tail: seq<Report>, rest: seq<Report>)
    requires a.risk == b.risk && Alike(a.certificate, b.certificate) && AlikeReports(tail, rest)
    ensures AlikeReports([a] + tail, [b] + rest)
  {
  }

  lemma {:induction false} RisksAgree(
    s: Settings, g: seq<Certificate>, h: seq<Certificate>, a: Option<Live>, b: Option<Live>, events: seq<Event<Input>>)
    requires 0.0 <= s.cfg.cvarAlpha <= 1.0
    requires AlikeHistories(g, h) && SeriesKept(s, g, a) && SeriesKept(s, h, b)
    ensures AlikeReports(Reports(s, g, a, events), Reports(s, h, b, Unbroken(events)))
    decreases |events|
  {
    if events != [] {
      var x, rest := events[0].item, events[1..];
      var p, q := Before(s, g, a, events[0]), Before(s, h, b, Event(x, false));
      SeriesBefore(s, g, a, events[0]);
      SeriesBefore(s, h, b, Event(x, false));
      RiskStep(s, g, h, p, q, x);
      AlikeSelf(h);
      RiskStep(s, h, h, q, q, x);
      var ra, rb := ReportOf(s, g, p, x), ReportOf(s, h, q, x);
      AlikeSnoc(g, h, ra.certificate, rb.certificate);
      var longer, other := g + [ra.certificate], h + [rb.certificate];
      var after, next := Some(Next(s, g, p, x)), Some(Next(s, h, q, x));
      RisksAgree(s, longer, other, after, next, rest);
      UnbrokenRuns(s, h, b, events);
      PrependAlike(ra, rb, Reports(s, longer, after, rest), Reports(s, other, next, Unbroken(rest)));
    }
  }

  lemma AlikeSelf(h: seq<Certificate>)
    ensures AlikeHistories(h, h)
  {
  }

  /** For every stream, however its episodes are named: restarts change no risk block, and of a certificate at most the
      corrected index, so no verdict and no promotion either. */
  lemma RestartsNeverTouchRisk(s: Settings, stored: seq<Certificate>, events: seq<Event<Input>>)
    requires 0.0 <= s.cfg.cvarAlpha <= 1.0
    ensures AlikeReports(Reports(s, stored, None, events), Reports(s, stored, None, Unbroken(events)))
  {
    AlikeSelf(stored);
    RisksAgree(s, stored, stored, None, None, events);
  }

  // ----- unsafe episodes -----

  predicate Judged(r: Report, x: Input) {
    r.risk.sie.verdict == Reject <==> x.hardViolations > 0 || x.barrierViolated
  }

  predicate AllJudged(reports: seq<Report>, events: seq<Event<Input>>) {
    |reports| == |events| && forall i :: 0 <= i < |events| ==> Judged(reports[i], events[i].item)
  }

  lemma ReportRejects(s: Settings, history: seq<Certificate>, live: Live, x: Input)
    requires 0.0 <= s.cfg.cvarAlpha <= 1.0
    ensures Judged(ReportOf(s, history, live, x), x)
  {
  }

  lemma PrependJudged(r: Report, tail: seq<Report>, events: seq<Event<Input>>)
    requires events != [] && Judged(r, events[0].item) && AllJudged(tail, events[1..])
    ensures AllJudged([r] + tail, events)
  {
  }

  lemma {:induction false} RunIsJudged(
    s: Settings, history: seq<Certificate>, live: Option<Live>, events: seq<Event<Input>>)
    requires 0.0 <= s.cfg.cvarAlpha <= 1.0
    ensures AllJudged(Reports(s, history, live, events), events)
    decreases |events|
  {
    if events != [] {
      var x, before := events[0].item, Before(s, history, live, events[0]);
      var report := ReportOf(s, history, before, x);
      var longer, after := history + [report.certificate], Some(Next(s, history, before, x));
      ReportRejects(s, history, before, x);
      RunIsJudged(s, longer, after, events[1..]);
      PrependJudged(report, Reports(s, longer, after, events[1..]), events);
    }
  }

  /** In every run over any store, after any restarts, exactly the episodes with a hard violation or a violated barrier
      are rejected. */
  lemma EveryUnsafeEpisodeIsRejected(s: Settings, stored: seq<Certificate>, events: seq<Event<Input>>)
    requires 0.0 <= s.cfg.cvarAlpha <= 1.0
    ensures var reports := Reports(s, stored, None, events);
            |reports| == |events| &&
            forall i :: 0 <= i < |events| ==>
              (reports[i].risk.sie.verdict == Reject <==>
                 events[i].item.hardViolations > 0 || events[i].item.barrierViolated)
  {
    RunIsJudged(s, stored, None, events);
    JudgedMeans(Reports(s, stored, None, events), events);
  }

  lemma JudgedMeans(reports: seq<Report>, events: seq<Event<Input>>)
    requires AllJudged(reports, events)
    ensures forall i :: 0 <= i < |events| ==>
              (reports[i].risk.sie.verdict == Reject <==>
                 events[i].item.hardViolations > 0 || events[i].item.barrierViolated)
  {
    forall i | 0 <= i < |events| ensures Judged(reports[i], events[i].item) {}
  }

  // ----- when a restart shows -----

  /** The change from `star` to `next` is recorded alike from the index in memory and from the persisted one. */
  predicate SameChange(s: Settings, star: real, next: real) {
    s.window >= 1 && Round6(next - star) == Round6(next - Round6(star))
  }

  /** Just after a restart the report is that of the uninterrupted process exactly when the change to the new index is
      recorded alike from the persisted index; with an empty window it never is. */
  lemma RestartShows(s: Settings, history: seq<Certificate>, live: Live, x: Input)
    requires 0.0 <= s.cfg.cvarAlpha <= 1.0
    requires Windowed(s, history, live) && Recorded(history, live)
    ensures ReportOf(s, history, Seeded(s, history), x) == ReportOf(s, history, live, x)
            <==> SameChange(s, live.star.value, ReportOf(s, history, live, x).omega.iocStar)
  {
    var seeded := Seeded(s, history);
    SeededWindowed(s, history);
    SeededStarIs(s, history, live);
    DeltaShows(s, history, seeded, live, x);
    ChangesMean(s, live.star.value, ReportOf(s, history, live, x).omega.iocStar);
  }

  lemma ChangesMean(s: Settings, star: real, next: real)
    ensures ChangeOf(if s.window >= 1 then Some(Round6(star)) else None, next) == ChangeOf(Some(star), next)
            <==> SameChange(s, star, next)
  {
  }

  lemma SeededStarIs(s: Settings, history: seq<Certificate>, live: Live)
    requires Recorded(history, live)
    ensures Seeded(s, history).star == if s.window >= 1 then Some(Round6(live.star.value)) else None
  {
    if s.window >= 1 { assert NewestFirst(history, s.window)[0] == history[|history| - 1]; }
  }

  lemma DeltaShows(s: Settings, history: seq<Certificate>, a: Live, b: Live, x: Input)
    requires 0.0 <= s.cfg.cvarAlpha <= 1.0
    requires a.series == b.series && a.sections == b.sections
    ensures var star := ReportOf(s, history, b, x).omega.iocStar;
            ReportOf(s, history, a, x) == ReportOf(s, history, b, x) <==> ChangeOf(a.star, star) == ChangeOf(b.star, star)
  {
    var section, ioc := SectionOfEpisode(x.ep), MeasuredOf(history, x).ioc;
    BlockDeltas(PairsOf(s.engine, a.sections, section), s.lambdas, a.star, b.star, ioc, x.cycle);
  }

  lemma BlockDeltas(
    pairs: seq<Divergence>, lambdas: Lambdas, p: Option<real>, q: Option<real>, ioc: real, cycle: real)
    ensures var a, b := BlockOf(pairs, lambdas, p, ioc, cycle), BlockOf(pairs, lambdas, q, ioc, cycle);
            a.iocStar == b.iocStar && (a == b <==> ChangeOf(p, a.iocStar) == ChangeOf(q, a.iocStar))
  {
  }

  /** If the process is replaced before episode `i`, the change to its index is recorded alike. */
  predicate UnnoticedAt(s: Settings, last: Option<real>, whole: seq<Report>, events: seq<Event<Input>>, i: nat)
    requires i < |whole| == |events|
  {
    var before := if i == 0 then last else Some(whole[i - 1].omega.iocStar);
    events[i].restarted && before.Some? ==> SameChange(s, before.value, whole[i].omega.iocStar)
  }

  predicate Unnoticed(s: Settings, last: Option<real>, whole: seq<Report>, events: seq<Event<Input>>)
    requires |whole| == |events|
  {
    forall i :: 0 <= i < |events| ==> UnnoticedAt(s, last, whole, events, i)
  }

  lemma UnnoticedSplits(s: Settings, last: Option<real>, whole: seq<Report>, events: seq<Event<Input>>)
    requires |whole| == |events| && events != []
    ensures Unnoticed(s, last, whole, events) <==>
              && UnnoticedAt(s, last, whole, events, 0)
              && Unnoticed(s, Some(whole[0].omega.iocStar), whole[1..], events[1..])
  {
    var first := Some(whole[0].omega.iocStar);
    forall i | 0 <= i < |events| - 1
      ensures UnnoticedAt(s, first, whole[1..], events[1..], i) <==> UnnoticedAt(s, last, whole, events, i + 1)
    {
    }
    if Unnoticed(s, first, whole[1..], events[1..]) {
      forall i | 1 <= i < |events| ensures UnnoticedAt(s, last, whole, events, i) {
        assert UnnoticedAt(s, first, whole[1..], events[1..], i - 1);
      }
    }
  }

  lemma {:induction false} UnbrokenLength(events: seq<Event<Input>>)
    ensures |Unbroken(events)| == |events|
  {
    if events != [] { UnbrokenLength(events[1..]); }
  }

  lemma {:induction false} ReportsLength(
    s: Settings, history: seq<Certificate>, live: Option<Live>, events: seq<Event<Input>>)
    requires 0.0 <= s.cfg.cvarAlpha <= 1.0
    ensures |Reports(s, history, live, events)| == |events|
    decreases |events|
  {
    if events != [] {
      var x, before := events[0].item, Before(s, history, live, events[0]);
      ReportsLength(s, history + [ReportOf(s, history, before, x).certificate],
                    Some(Next(s, history, before, x)), events[1..]);
    }
  }

  function LastStar(live: Option<Live>): Option<real> {
    if live.Some? then live.value.star else None
  }

  lemma HeadsAndTails<T>(a: T, b: T, s: seq<T>, t: seq<T>)
    ensures [a] + s == [b] + t <==> a == b && s == t
  {
    if [a] + s == [b] + t { assert s == ([a] + s)[1..] && ([a] + s)[0] == a && ([b] + t)[0] == b; }
  }

  lemma FirstReportEqual(s: Settings, history: seq<Certificate>, live: Option<Live>, e: Event<Input>)
    requires 0.0 <= s.cfg.cvarAlpha <= 1.0
    requires live.Some? ==> Windowed(s, history, live.value) && Recorded(history, live.value)
    ensures var a, b := Before(s, history, live, e), Before(s, history, live, e.(restarted := false));
            && (ReportOf(s, history, a, e.item) == ReportOf(s, history, b, e.item) <==>
                  (e.restarted && LastStar(live).Some? ==>
                     SameChange(s, LastStar(live).value, ReportOf(s, history, b, e.item).omega.iocStar)))
            && ReportOf(s, history, a, e.item).certificate == ReportOf(s, history, b, e.item).certificate
            && Next(s, history, a, e.item) == Next(s, history, b, e.item)
            && Windowed(s, history, b)
  {
    StaysInStep(s, history, live, e);
    ReportsAgree(s, history, Before(s, history, live, e), Before(s, history, live, e.(restarted := false)), e.item);
    if live.Some? { RestartShows(s, history, live.value, e.item); }
  }

  lemma UnbrokenRuns(s: Settings, history: seq<Certificate>, live: Option<Live>, events: seq<Event<Input>>)
    requires 0.0 <= s.cfg.cvarAlpha <= 1.0 && events != []
    ensures var x := events[0].item;
            var b := Before(s, history, live, Event(x, false));
            var report := ReportOf(s, history, b, x);
            Reports(s, history, live, Unbroken(events)) == [report] +
              Reports(s, history + [report.certificate], Some(Next(s, history, b, x)), Unbroken(events[1..]))
  {
    assert Unbroken(events)[1..] == Unbroken(events[1..]);
  }

  lemma {:induction false} RunsEqual(
    s: Settings, history: seq<Certificate>, live: Option<Live>, events: seq<Event<Input>>)
    requires 0.0 <= s.cfg.cvarAlpha <= 1.0
    requires forall e :: e in events ==> NamesAgree(e.item.ep) && !NamelessVariable(e.item.ep)
    requires live.Some? ==> Windowed(s, history, live.value) && Recorded(history, live.value)
    ensures |Reports(s, history, live, Unbroken(events))| == |events|
    ensures Reports(s, history, live, events) == Reports(s, history, live, Unbroken(events))
            <==> Unnoticed(s, LastStar(live), Reports(s, history, live, Unbroken(events)), events)
    decreases |events|
  {
    UnbrokenLength(events);
    ReportsLength(s, history, live, Unbroken(events));
    if events != [] {
      var x, rest := events[0].item, events[1..];
      var a := Before(s, history, live, events[0]);
      var b := Before(s, history, live, Event(x, false));
      var ra, rb := ReportOf(s, history, a, x), ReportOf(s, history, b, x);
      var longer, after := history + [rb.certificate], Some(Next(s, history, b, x));
      assert events[0] in events;
      FirstReportEqual(s, history, live, events[0]);
      StepKeeps(s, history, b, x);
      RunsEqual(s, longer, after, rest);
      UnbrokenRuns(s, history, live, events);
      var tail := Reports(s, longer, after, Unbroken(rest));
      HeadsAndTails(ra, rb, Reports(s, longer, after, rest), tail);
      UnnoticedSplits(s, LastStar(live), [rb] + tail, events);
    }
  }

  /** Over any store and stream, the reports of the restarted process are those of the uninterrupted one, changes of the
      corrected index included, exactly when at every restart but one before the first episode the change to the next
      index is recorded alike from the persisted index. */
  lemma RestartsUnnoticedExactly(s: Settings, stored: seq<Certificate>, events: seq<Event<Input>>)
    requires 0.0 <= s.cfg.cvarAlpha <= 1.0
    requires forall e :: e in events ==> NamesAgree(e.item.ep) && !NamelessVariable(e.item.ep)
    ensures var whole := Reports(s, stored, None, Unbroken(events));
            && |whole| == |events|
            && (Reports(s, stored, None, events) == whole <==>
                  forall i :: 0 < i < |events| && events[i].restarted ==>
                    SameChange(s, whole[i - 1].omega.iocStar, whole[i].omega.iocStar))
  {
    RunsEqual(s, stored, None, events);
    UnnoticedFromStart(s, Reports(s, stored, None, Unbroken(events)), events);
  }

  lemma UnnoticedFromStart(s: Settings, whole: seq<Report>, events: seq<Event<Input>>)
    requires |whole| == |events|
    ensures Unnoticed(s, None, whole, events) <==>
              forall i :: 0 < i < |events| && events[i].restarted ==>
                SameChange(s, whole[i - 1].omega.iocStar, whole[i].omega.iocStar)
  {
    forall i | 0 <= i < |events|
      ensures UnnoticedAt(s, None, whole, events, i) <==>
                (i > 0 && events[i].restarted ==>
                   SameChange(s, whole[i - 1].omega.iocStar, whole[i].omega.iocStar))
    {
    }
  }

  /** A closed episode of measured temperature, without collapse and without cycle error. */
  predicate Quiet(x: Input) {
    && x.closure && x.trace && !x.declaredCollapse && x.fallback.None? && x.cycle == 0.0
    && 0.0 <= x.ep.uncertainty <= 1.0
    && x.ep.metadata.None? && !x.ep.scenario.Absent? && TEMPERATURE in x.ep.world
  }

  /** The same episode again, at another uncertainty. */
  function Again(x: Input, uncertainty: real): Input {
    x.(ep := x.ep.(uncertainty := uncertainty))
  }

  lemma IndexWithout(pairs: seq<Divergence>, lambdas: Lambdas, previous: Option<real>, ioc: real, cycle: real)
    requires SumTotals(pairs) == 0.0 && cycle == 0.0 && 0.0 <= ioc <= 1.0
    ensures BlockOf(pairs, lambdas, previous, ioc, cycle).iocStar == ioc
  {
    if pairs != [] { QuotientAtMost(0.0, |pairs| as real, 0.0); QuotientAtLeast(0.0, |pairs| as real, 0.0); }
    NoWeight(lambdas.cycle, lambdas.omega);
  }

  lemma NoWeight(a: real, b: real)
    ensures a * 0.0 == 0.0 && b * 0.0 == 0.0 && b * (a * 0.0) == 0.0
  {
  }

  lemma FirstIndex(s: Settings, x: Input)
    requires 0.0 <= s.cfg.cvarAlpha <= 1.0 && Quiet(x)
    ensures ReportOf(s, [], Seeded(s, []), x).omega.iocStar == 0.90 - 0.06 * x.ep.uncertainty
  {
    assert MeasuredOf([], x) == Measured(1.0, false, 0.90 - 0.06 * x.ep.uncertainty);
    assert Seeded(s, []).sections == [];
    IndexWithout([], s.lambdas, None, 0.90 - 0.06 * x.ep.uncertainty, x.cycle);
  }

  lemma SameSection(engine: Engine, section: Section, window: seq<Section>)
    requires Tracked(section) && section.value.Some? && (window == [] || window == [section])
    ensures SumTotals(PairsOf(engine, window, section)) == 0.0
  {
    if window == [section] {
      TrackedMetric(section, section, section);
      assert window[..0] == [] && PairsOf(engine, window[..0], section) == [];
      var pairs := PairsOf(engine, window, section);
      assert pairs == [SectionDivergence(section, section, None)];
      assert pairs[1..] == [];
      assert RoundToInt(0.0) == 0;
    }
  }

  lemma ContinuityStays(x: Input, u: real, star: real)
    requires Quiet(x) && 0.0 <= u <= 1.0
    ensures var cert := CertificateFor([], x, star);
            MeasuredOf([cert], Again(x, u)) == Measured(1.0, false, 0.90 - 0.06 * u)
  {
    var cert := CertificateFor([], x, star);
    var y := Again(x, u);
    FullContinuity(cert, y.ep);
    assert NewestFirst([cert], COLLAPSE_HISTORY) == [cert];
  }

  lemma SecondIndex(s: Settings, x: Input, u: real)
    requires 0.0 <= s.cfg.cvarAlpha <= 1.0 && Quiet(x) && 0.0 <= u <= 1.0
    ensures var first := ReportOf(s, [], Seeded(s, []), x);
            ReportOf(s, [first.certificate], Next(s, [], Seeded(s, []), x), Again(x, u)).omega.iocStar == 0.90 - 0.06 * u
  {
    var first := ReportOf(s, [], Seeded(s, []), x);
    var live, y := Next(s, [], Seeded(s, []), x), Again(x, u);
    var section := SectionOfEpisode(x.ep);
    assert SectionOfEpisode(y.ep) == section;
    assert live.sections == LastN([section], s.window);
    ContinuityStays(x, u, first.omega.iocStar);
    SameSection(s.engine, section, live.sections);
    IndexWithout(PairsOf(s.engine, live.sections, section), s.lambdas, live.star, 0.90 - 0.06 * u, y.cycle);
  }

  lemma OneReport(s: Settings, history: seq<Certificate>, live: Live, y: Input)
    requires 0.0 <= s.cfg.cvarAlpha <= 1.0
    ensures Reports(s, history, Some(live), Unbroken([Event(y, true)])) == [ReportOf(s, history, live, y)]
  {
    var events := [Event(y, true)];
    assert events[1..] == [];
    UnbrokenRuns(s, history, Some(live), events);
  }

  lemma TwoReports(s: Settings, x: Input, y: Input)
    requires 0.0 <= s.cfg.cvarAlpha <= 1.0
    ensures var first := ReportOf(s, [], Seeded(s, []), x);
            var second := ReportOf(s, [first.certificate], Next(s, [], Seeded(s, []), x), y);
            Reports(s, [], None, Unbroken([Event(x, false), Event(y, true)])) == [first] + [second]
  {
    var events := [Event(x, false), Event(y, true)];
    assert events[1..] == [Event(y, true)];
    UnbrokenRuns(s, [], None, events);
    var first := ReportOf(s, [], Seeded(s, []), x);
    assert [] + [first.certificate] == [first.certificate];
    OneReport(s, [first.certificate], Next(s, [], Seeded(s, []), x), y);
  }

  lemma IndicesTellApart(s: Settings)
    ensures !SameChange(s, 0.8999994, 0.8999997)
  {
    assert RoundToInt(0.3) == 0 && RoundToInt(0.7) == 1 && RoundToInt(899999.4) == 899999;
  }

  lemma TwoIndices(s: Settings, x: Input, u: real)
    requires 0.0 <= s.cfg.cvarAlpha <= 1.0 && Quiet(x) && 0.0 <= u <= 1.0
    ensures var whole := Reports(s, [], None, Unbroken([Event(x, false), Event(Again(x, u), true)]));
            |whole| == 2 && whole[0].omega.iocStar == 0.90 - 0.06 * x.ep.uncertainty
            && whole[1].omega.iocStar == 0.90 - 0.06 * u
  {
    FirstIndex(s, x);
    SecondIndex(s, x, u);
    TwoReports(s, x, Again(x, u));
  }

  /** An input for which a restart shows: the same quiet episode twice, first at an uncertainty of 0.00001, then, after
      the restart, at 0.000005. The recorded change is 0.0 without the restart and 0.000001 with it. */
  lemma RestartShowsAfter(s: Settings, x: Input)
    requires 0.0 <= s.cfg.cvarAlpha <= 1.0 && Quiet(x) && x.ep.uncertainty == 0.00001
    ensures var events := [Event(x, false), Event(Again(x, 0.000005), true)];
            Reports(s, [], None, events) != Reports(s, [], None, Unbroken(events))
  {
    var events := [Event(x, false), Event(Again(x, 0.000005), true)];
    TwoIndices(s, x, 0.000005);
    RestartsUnnoticedExactly(s, [], events);
    IndicesTellApart(s);
    assert events[1].restarted;
  }

  // ----- the decisions of a run -----

  /** Whatever the store held and however the process was restarted. */
  lemma {:induction false} EveryReportSound(
    s: Settings, history: seq<Certificate>, live: Option<Live>, events: seq<Event<Input>>)
    requires 0.0 <= s.cfg.cvarAlpha <= 1.0
    ensures forall r :: r in Reports(s, history, live, events) ==> Sound(r.certificate)
    decreases |events|
  {
    if events != [] {
      var x := events[0].item;
      var before := Before(s, history, live, events[0]);
      var report := ReportOf(s, history, before, x);
      EveryCertificateSound(history, x, report.omega.iocStar);
      EveryReportSound(s, history + [report.certificate], Some(Next(s, history, before, x)), events[1..]);
    }
  }

  /** The memory after a run. */
  function MemoryAfter(m: Memory, reports: seq<Report>, events: seq<Event<Input>>): Memory
    requires |reports| == |events|
    decreases |events|
  {
    if events == [] then m
    else MemoryAfter(Remembered(m, reports[0].certificate, events[0].item.macroSupported), reports[1..], events[1..])
  }

  lemma {:induction false} SoundReportsSoundMemory(m: Memory, reports: seq<Report>, events: seq<Event<Input>>)
    requires |reports| == |events| && SoundMemory(m) && forall r :: r in reports ==> Sound(r.certificate)
    ensures SoundMemory(MemoryAfter(m, reports, events))
    decreases |events|
  {
    if events != [] {
      assert reports[0] in reports;
      RememberedSound(m, reports[0].certificate, events[0].item.macroSupported);
      SoundReportsSoundMemory(Remembered(m, reports[0].certificate, events[0].item.macroSupported),
                              reports[1..], events[1..]);
    }
  }

  /** Over every run, with or without restarts, memory holds certified episodes only, and macro memory promoted ones. */
  lemma EveryMemorySound(
    s: Settings, history: seq<Certificate>, live: Option<Live>, events: seq<Event<Input>>, m: Memory)
    requires 0.0 <= s.cfg.cvarAlpha <= 1.0 && SoundMemory(m)
    ensures |Reports(s, history, live, events)| == |events|
    ensures SoundMemory(MemoryAfter(m, Reports(s, history, live, events), events))
  {
    ReportsLength(s, history, live, events);
    EveryReportSound(s, history, live, events);
    SoundReportsSoundMemory(m, Reports(s, history, live, events), events);
  }
}
