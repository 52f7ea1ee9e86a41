/** When an episode is certified and promoted, from the episode and its predecessor themselves. */
module Promotions {
  import opened Collections
  import opened Contracts
  import opened RealArith
  import opened Certificates
  import opened Windows
  import opened PromotionGate
  import opened Restarts

  // ----- how much of an episode continues the one before -----

  /** The positions at which both sequences hold the same step. */
  function Agreeing(a: seq<string>, b: seq<string>): set<int> {
    set i | 0 <= i < |a| && i < |b| && a[i] == b[i]
  }

  function Longer(a: seq<string>, b: seq<string>): nat {
    if |a| >= |b| then |a| else |b|
  }

  /** The share of positions that agree; two episodes without reasoning agree. */
  function Agreement(a: seq<string>, b: seq<string>): real {
    if Longer(a, b) == 0 then 1.0 else |Agreeing(a, b)| as real / Longer(a, b) as real
  }

  /** The name of the variable that an episode watches. */
  function Watched(ep: Episode): Entry {
    match ep.metadata
    case None => Text("temperature")
    case Some(md) => if md.mainVariable.Absent? then Text("temperature") else md.mainVariable
  }

  /** The value that an episode has for it, if any. */
  function Reading(ep: Episode): Option<real> {
    match Watched(ep)
    case Text(name) => if name in ep.world then Some(ep.world[name]) else None
    case _ => None
  }

  /** How far the watched value moved, if both episodes watch the same and both have a value. */
  function Move(x: Episode, y: Episode): Option<real> {
    if Watched(x) != Watched(y) || Reading(x).None? || Reading(y).None? then None
    else if Reading(y).value >= Reading(x).value then Some(Reading(y).value - Reading(x).value)
    else Some(Reading(x).value - Reading(y).value)
  }

  /** What is left of a move: nothing from one unit on, and one half when it was not measured. */
  function Left(move: Option<real>): real {
    if move.None? then 0.5 else if move.value >= 1.0 then 0.0 else 1.0 - move.value
  }

  /** Moved up by one, and perhaps zero besides. */
  lemma ShiftedOnce(rest: set<int>, all: set<int>)
    requires forall i :: i in rest ==> i + 1 in all && i >= 0
    requires forall i :: i in all && i != 0 ==> i - 1 in rest
    ensures |all| == |rest| + if 0 in all then 1 else 0
  {
    var later, next := set i | i in all && i != 0, (i: int) => i + 1;
    forall k | k in later ensures exists i :: i in rest && next(i) == k { assert next(k - 1) == k; }
    ImageSize(rest, later, next);
    assert all == later + if 0 in all then {0} else {};
  }

  lemma {:induction false} MatchesCount(a: seq<string>, b: seq<string>)
    ensures Matches(a, b) == |Agreeing(a, b)|
  {
    if a == [] || b == [] {
      assert Agreeing(a, b) == {};
    } else {
      MatchesCount(a[1..], b[1..]);
      ShiftedOnce(Agreeing(a[1..], b[1..]), Agreeing(a, b));
    }
  }

  lemma ScoreIsAgreement(a: seq<string>, b: seq<string>)
    ensures SequenceScore(a, b) == Agreement(a, b)
    ensures 0.0 <= Agreement(a, b) <= 1.0
  {
    MatchesCount(a, b);
    SequenceScoreRange(a, b);
    if (a == [] || b == []) && Longer(a, b) > 0 {
      assert Agreeing(a, b) == {};
      QuotientAtLeast(0.0, Longer(a, b) as real, 0.0);
      QuotientAtMost(0.0, Longer(a, b) as real, 0.0);
    }
  }

  /** The certificate of an episode, whatever the tribunal says, keeps what the next episode is compared with. */
  lemma KeptForTheNext(m: Measured, x: Input, star: real)
    ensures var cert := CertificateFrom(m, x, star);
            && cert.reasoningSequence == x.ep.reasoningSequence && cert.mainVariable == Watched(x.ep)
            && cert.mainValue == Reading(x.ep) && cert.continuity == m.continuity
  {
  }

  /** Continuity, from the two episodes: six tenths for the steps that agree, four for what is left of the move. */
  lemma ContinuityOfEpisodes(history: seq<Certificate>, x: Input, star: real, y: Input)
    requires y.fallback.None?
    ensures MeasuredOf(history + [CertificateFor(history, x, star)], y).continuity
            == 0.6 * Agreement(x.ep.reasoningSequence, y.ep.reasoningSequence) + 0.4 * Left(Move(x.ep, y.ep))
  {
    var cert := CertificateFor(history, x, star);
    KeptForTheNext(MeasuredOf(history, x), x, star);
    LastIsFirst(history, cert);
    ScoreIsAgreement(x.ep.reasoningSequence, y.ep.reasoningSequence);
    ContinuityAfter(cert, x.ep, y.ep);
  }

  lemma LastIsFirst(history: seq<Certificate>, cert: Certificate)
    ensures NewestFirst(history + [cert], COLLAPSE_HISTORY) != []
    ensures NewestFirst(history + [cert], COLLAPSE_HISTORY)[0] == cert
  {
  }

  lemma ContinuityAfter(cert: Certificate, x: Episode, y: Episode)
    requires cert.reasoningSequence == x.reasoningSequence
    requires cert.mainVariable == Watched(x) && cert.mainValue == Reading(x)
    requires 0.0 <= SequenceScore(x.reasoningSequence, y.reasoningSequence) <= 1.0
    ensures Continuity(Some(cert), y, None)
            == 0.6 * SequenceScore(x.reasoningSequence, y.reasoningSequence) + 0.4 * Left(Move(x, y))
  {
    assert MainVariable(y) == Watched(y) && LookupEntry(y.world, Watched(y)) == Reading(y);
  }

  // ----- promotion -----

  /** Nothing outside the episode stands against its promotion. */
  predicate Unopposed(tribunal: Option<Tribunal>) {
    tribunal.Some? ==>
      var t := tribunal.value;
      && !t.scope.BlockedCanonical? && !t.scope.QuarantineOnly? && !t.rollbackObligation
      && t.organismRisk < 0.60 && t.edgeRisk < 0.60 && t.modificationRisk < 0.60 && t.inheritanceRisk < 0.60
  }

  /** The episode came to a clean end. */
  predicate Clean(x: Input) {
    x.closure && x.trace && !x.declaredCollapse
  }

  /** What continuity an uncertainty asks for: by the index, and by the risk score, which does not clamp it. */
  predicate Enough(c: real, u: real) {
    var clamped := if u < 0.0 then 0.0 else if u > 1.0 then 1.0 else u;
    15.0 * c >= 9.0 + 2.0 * clamped && 685.0 * c >= 265.0 + 18.0 * clamped + 50.0 * u
  }

  lemma PromotedByContinuity(history: seq<Certificate>, x: Input, star: real)
    ensures CertificateFor(history, x, star).candidate <==>
              Clean(x) && Unopposed(x.tribunal) && Enough(MeasuredOf(history, x).continuity, x.ep.uncertainty)
  {
    PromotedExactly(history, x, star);
  }

  /** Promotion of an episode after another one, from the two episodes: it ends cleanly, nothing opposes it, and the share
      of steps that agree and what is left of the move make up for the uncertainty. */
  lemma PromotedAfter(history: seq<Certificate>, x: Input, p: real, y: Input, q: real)
    requires y.fallback.None?
    ensures CertificateFor(history + [CertificateFor(history, x, p)], y, q).candidate <==>
              && Clean(y) && Unopposed(y.tribunal)
              && Enough(0.6 * Agreement(x.ep.reasoningSequence, y.ep.reasoningSequence)
                        + 0.4 * Left(Move(x.ep, y.ep)), y.ep.uncertainty)
  {
    ContinuityOfEpisodes(history, x, p, y);
    PromotedByContinuity(history + [CertificateFor(history, x, p)], y, q);
  }

  lemma ShareOfLonger(m: nat, n: nat, k: real)
    requires n > 0
    ensures m as real / n as real >= k <==> m as real >= k * n as real
  {
    QuotientAtLeast(m as real, n as real, k);
  }

  /** Thirds of the steps that must agree, by the move. */
  predicate Suffices(agree: nat, all: nat, move: Option<real>) {
    match move
    case None => 3 * agree >= 2 * all
    case Some(d) =>
      if d >= 1.0 then agree == all
      else if d == 0.0 then 3 * agree >= all
      else 3.0 * agree as real >= (1.0 + 2.0 * d) * all as real
  }

  lemma SufficesMeans(agree: nat, all: nat, move: Option<real>)
    requires agree <= all
    ensures 3.0 * agree as real >= (3.0 - 2.0 * Left(move)) * all as real <==> Suffices(agree, all, move)
    ensures agree == all && (move.Some? ==> move.value >= 0.0) ==> Suffices(agree, all, move)
  {
    if move.Some? && 0.0 < move.value < 1.0 {
      MulMono(1.0 + 2.0 * move.value, 3.0, all as real);
      assert 3.0 - 2.0 * Left(move) == 1.0 + 2.0 * move.value;
    }
  }

  lemma MoveRange(x: Episode, y: Episode)
    ensures Move(x, y).Some? ==> Move(x, y).value >= 0.0
  {
  }

  lemma {:induction false} SameAgree(a: seq<string>)
    ensures |Agreeing(a, a)| == |a| == Longer(a, a)
  {
    MatchesCount(a, a);
    MatchesBound(a, a);
  }

  lemma AllAgree(a: seq<string>, b: seq<string>)
    ensures |Agreeing(a, b)| <= Longer(a, b)
  {
    MatchesCount(a, b);
    MatchesBound(a, b);
  }

  lemma EnoughWithoutUncertainty(a: seq<string>, b: seq<string>, left: real)
    requires 0.0 <= left <= 1.0
    ensures Enough(0.6 * Agreement(a, b) + 0.4 * left, 0.0) <==>
              3.0 * |Agreeing(a, b)| as real >= (3.0 - 2.0 * left) * Longer(a, b) as real
  {
    var agree, all, k := |Agreeing(a, b)|, Longer(a, b), (3.0 - 2.0 * left) / 3.0;
    assert Enough(0.6 * Agreement(a, b) + 0.4 * left, 0.0) <==> Agreement(a, b) >= k;
    AllAgree(a, b);
    if all > 0 {
      ShareOfLonger(agree, all, k);
      assert 3.0 * (k * all as real) == (3.0 - 2.0 * left) * all as real;
    }
  }

  lemma EnoughIfCertain(x: Episode, y: Episode)
    ensures var a, b := x.reasoningSequence, y.reasoningSequence;
            && (Enough(0.6 * Agreement(a, b) + 0.4 * Left(Move(x, y)), 0.0) <==>
                  Suffices(|Agreeing(a, b)|, Longer(a, b), Move(x, y)))
            && (a == b ==> Suffices(|Agreeing(a, b)|, Longer(a, b), Move(x, y)))
  {
    var a, b := x.reasoningSequence, y.reasoningSequence;
    EnoughWithoutUncertainty(a, b, Left(Move(x, y)));
    AllAgree(a, b);
    SufficesMeans(|Agreeing(a, b)|, Longer(a, b), Move(x, y));
    MoveRange(x, y);
    if a == b { SameAgree(a); }
  }

  /** Without uncertainty: an unmoved value leaves one third of the steps to agree, an unmeasured one two thirds, a value
      that moved by a unit or more all of them, and one that moved by less its share in between. With the same reasoning
      an episode is promoted however far the value moved. */
  lemma PromotedIfCertain(history: seq<Certificate>, x: Input, p: real, y: Input, q: real)
    requires y.fallback.None? && y.ep.uncertainty == 0.0 && y.tribunal.None?
    ensures var a, b := x.ep.reasoningSequence, y.ep.reasoningSequence;
            var promoted := CertificateFor(history + [CertificateFor(history, x, p)], y, q).candidate;
            && (promoted <==> Clean(y) && Suffices(|Agreeing(a, b)|, Longer(a, b), Move(x.ep, y.ep)))
            && (a == b ==> (promoted <==> Clean(y)))
  {
    PromotedAfter(history, x, p, y, q);
    EnoughIfCertain(x.ep, y.ep);
  }

  /** An episode without predecessor, or with a continuity from outside. */
  lemma PromotedAlone(history: seq<Certificate>, x: Input, star: real)
    ensures history == [] && x.fallback.None? ==>
              (CertificateFor(history, x, star).candidate <==>
                 Clean(x) && Unopposed(x.tribunal) && 25.0 * x.ep.uncertainty <= 201.0)
    ensures x.fallback.Some? && 0.0 <= x.fallback.value <= 1.0 ==>
              (CertificateFor(history, x, star).candidate <==>
                 Clean(x) && Unopposed(x.tribunal) && Enough(x.fallback.value, x.ep.uncertainty))
  {
    PromotedByContinuity(history, x, star);
  }

  // ----- certification -----

  /** The certificates of a history that are among the last three and whose continuity is low. */
  function LowOnes(history: seq<Certificate>): set<int> {
    set i | |history| - 3 <= i < |history| && 0 <= i && history[i].continuity < 0.35
  }

  lemma {:induction false} LowCountOf(recent: seq<Certificate>)
    ensures LowCount(recent) == |set i | 0 <= i < |recent| && recent[i].continuity < 0.35|
  {
    if recent != [] {
      var rest := set i | 0 <= i < |recent| - 1 && recent[1..][i].continuity < 0.35;
      LowCountOf(recent[1..]);
      var all := set i | 0 <= i < |recent| && recent[i].continuity < 0.35;
      forall i | i in all && i != 0 ensures i - 1 in rest { assert recent[1..][i - 1] == recent[i]; }
      ShiftedOnce(rest, all);
    }
  }

  lemma RecentLow(history: seq<Certificate>)
    ensures LowCount(NewestFirst(history, COLLAPSE_HISTORY)) == |LowOnes(history)|
  {
    var recent, n := NewestFirst(history, COLLAPSE_HISTORY), |history| - 1;
    LowCountOf(recent);
    var low := set i | 0 <= i < |recent| && recent[i].continuity < 0.35;
    var mirror := (i: int) => n - i;
    forall i | 0 <= i < |recent| ensures recent[i] == history[n - i] {}
    forall k | k in LowOnes(history) ensures exists i :: i in low && mirror(i) == k { assert mirror(n - k) == k; }
    ImageSize(low, LowOnes(history), mirror);
  }

  /** No tribunal blocks. */
  predicate Undisputed(tribunal: Option<Tribunal>) {
    tribunal.Some? ==>
      var t := tribunal.value;
      && !t.scope.BlockedCanonical? && !t.scope.QuarantineOnly? && !t.rollbackObligation
      && t.organismRisk < 0.85 && t.edgeRisk < 0.85 && t.modificationRisk < 0.85 && t.inheritanceRisk < 0.85
  }

  /** An episode is certified exactly when it ends cleanly, no tribunal blocks it, and its continuity is not the third low
      one within four episodes. */
  lemma CertifiedFromHistory(history: seq<Certificate>, x: Input, star: real)
    ensures CertificateFor(history, x, star).certified <==>
              && Clean(x) && Undisputed(x.tribunal)
              && (MeasuredOf(history, x).continuity >= 0.35 || |LowOnes(history)| < 2)
  {
    CertifiedExactly(history, x, star);
    RecentLow(history);
  }

  // ----- what a failure costs -----

  /** The same episode with one thing gone wrong. */
  function Unclosed(x: Input): Input { x.(closure := false) }

  function Untraced(x: Input): Input { x.(trace := false) }

  function Collapsed(x: Input): Input { x.(declaredCollapse := true) }

  function AtMostOne(r: real): real {
    if r > 1.0 then 1.0 else r
  }

  /** What goes wrong costs fixed amounts of the index and adds fixed amounts to the risk: an episode that does not close
      counts as collapsed, and so does one whose trace does not hold. */
  lemma CostOfFailure(history: seq<Certificate>, x: Input, star: real)
    requires Clean(x) && x.tribunal.None? && 0.0 <= x.ep.uncertainty <= 1.0
    requires MeasuredOf(history, x).continuity >= 0.35
    ensures var whole := CertificateFor(history, x, star);
            var open, lost, fallen := CertificateFor(history, Unclosed(x), star),
                                      CertificateFor(history, Untraced(x), star),
                                      CertificateFor(history, Collapsed(x), star);
            && whole.ioc == 0.45 * whole.continuity + 0.45 - 0.06 * x.ep.uncertainty
            && open.ioc == whole.ioc - 0.39 && lost.ioc == whole.ioc - 0.34 && fallen.ioc == whole.ioc - 0.14
            && open.risk == AtMostOne(whole.risk + 0.197) && lost.risk == AtMostOne(whole.risk + 0.282)
            && fallen.risk == AtMostOne(whole.risk + 0.122)
            && whole.risk == 0.55 * (1.0 - whole.continuity) + 0.30 * (1.0 - whole.ioc) + 0.05 * x.ep.uncertainty
  {
    var c := MeasuredOf(history, x).continuity;
    assert MeasuredOf(history, Unclosed(x)).continuity == c;
    assert MeasuredOf(history, Untraced(x)).continuity == c;
    assert MeasuredOf(history, Collapsed(x)).continuity == c;
  }

  // ----- over whole runs -----

  /** The second episode continues the first one well enough to be promoted. */
  predicate Continues(x: Input, y: Input) {
    && Clean(y) && Unopposed(y.tribunal)
    && Enough(0.6 * Agreement(x.ep.reasoningSequence, y.ep.reasoningSequence) + 0.4 * Left(Move(x.ep, y.ep)),
              y.ep.uncertainty)
  }

  lemma ReportAfter(s: Settings, history: seq<Certificate>, a: Live, x: Input, b: Live, y: Input)
    requires 0.0 <= s.cfg.cvarAlpha <= 1.0 && y.fallback.None?
    ensures var first := ReportOf(s, history, a, x).certificate;
            ReportOf(s, history + [first], b, y).certificate.candidate <==> Continues(x, y)
  {
    var p := ReportOf(s, history, a, x).omega.iocStar;
    var q := ReportOf(s, history + [CertificateFor(history, x, p)], b, y).omega.iocStar;
    PromotedAfter(history, x, p, y, q);
  }

  lemma {:induction false} PromotedInRun(
    s: Settings, history: seq<Certificate>, live: Option<Live>, events: seq<Event<Input>>, i: nat)
    requires 0.0 <= s.cfg.cvarAlpha <= 1.0 && 0 < i < |events| == |Reports(s, history, live, events)|
    requires events[i].item.fallback.None?
    ensures Reports(s, history, live, events)[i].certificate.candidate <==>
              Continues(events[i - 1].item, events[i].item)
    decreases |events|
  {
    var x, before := events[0].item, Before(s, history, live, events[0]);
    var longer := history + [ReportOf(s, history, before, x).certificate];
    var after := Some(Next(s, history, before, x));
    var rest := events[1..];
    ReportsLength(s, longer, after, rest);
    if i == 1 {
      ReportAfter(s, history, before, x, Before(s, longer, after, rest[0]), rest[0].item);
    } else {
      PromotedInRun(s, longer, after, rest, i - 1);
    }
  }

  /** In every run over any store, after any restarts, an episode whose continuity is measured is promoted exactly when it
      continues the one before it. */
  lemma EveryPromotion(s: Settings, stored: seq<Certificate>, events: seq<Event<Input>>)
    requires 0.0 <= s.cfg.cvarAlpha <= 1.0
    ensures var reports := Reports(s, stored, None, events);
            |reports| == |events| &&
            forall i :: 0 < i < |events| && events[i].item.fallback.None? ==>
              (reports[i].certificate.candidate <==> Continues(events[i - 1].item, events[i].item))
  {
    ReportsLength(s, stored, None, events);
    forall i | 0 < i < |events| && events[i].item.fallback.None?
      ensures Reports(s, stored, None, events)[i].certificate.candidate <==>
                Continues(events[i - 1].item, events[i].item)
    {
      PromotedInRun(s, stored, None, events, i);
    }
  }
}
