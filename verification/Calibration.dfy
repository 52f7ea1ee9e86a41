/** Thresholds suggested from the recorded runs, and how many of those runs they accept. */
module Calibration {
  import opened Contracts
  import opened RealArith
  import opened Statistics
  import opened AgrestiCoull
  import opened RiskEngine

  // ----- the script's percentiles -----

  /** Rank and weights as the script takes them: the truncated rank and its successor, if there is one. */
  function Interpolated(v: seq<real>, q: real): real
    requires v != [] && 0.0 <= q <= 100.0
  {
    RankInRange(|v|, q);
    var k := Rank(|v|, q);
    var f := k.Floor;
    var c := if f + 1 <= |v| - 1 then f + 1 else |v| - 1;
    v[f] + (v[c] - v[f]) * (k - f as real)
  }

  lemma LineBetween(a: real, b: real, k: real, f: real, c: real)
    requires c == f + 1.0
    ensures a + (b - a) * (k - f) == a * (c - k) + b * (k - f)
  {
  }

  /** The script's interpolation is the engine's, on every sample and rank. */
  lemma InterpolationsAgree(v: seq<real>, q: real)
    requires v != [] && 0.0 <= q <= 100.0
    ensures Interpolated(v, q) == Percentile(v, q)
  {
    RankInRange(|v|, q);
    var k := Rank(|v|, q);
    var f, c := k.Floor, Ceil(k);
    if f == c {
      assert k == f as real;
    } else {
      LineBetween(v[f], v[c], k, f as real, c as real);
    }
  }

  method Percentiles(values: seq<real>, qs: seq<int>) returns (out: map<int, Option<real>>)
    requires forall q :: q in qs ==> 0 <= q <= 100
    ensures forall q :: q in out <==> q in qs
    ensures forall q :: q in qs ==>
              out[q] == if values == [] then None else Some(Round6(Percentile(Sort(values), q as real)))
  {
    if values == [] { return map q | q in qs :: None; }
    var vs := Sort(values);
    out := map[];
    for i := 0 to |qs|
      invariant forall q :: q in out <==> q in qs[..i]
      invariant forall q :: q in out ==> 0 <= q <= 100 && out[q] == Some(Round6(Percentile(vs, q as real)))
    {
      assert qs[i] in qs;
      InterpolationsAgree(vs, qs[i] as real);
      assert qs[..i + 1] == qs[..i] + [qs[i]];
      out := out[qs[i] := Some(Round6(Interpolated(vs, qs[i] as real)))];
    }
    assert qs[..|qs|] == qs;
  }

  // ----- the analysed runs -----

  /** The index series of a run, with the square root that its bound takes. */
  datatype Run = Run(iocs: seq<real>, root: real)

  ghost predicate Rooted(run: Run) {
    var d := Deltas(run.iocs);
    d != [] ==> IsRoot(run.root, Variance(Proportion(NonNegative(d), |d|), |d|, Level95))
  }

  function CvarOf(run: Run, alpha: real): real
    requires 0.0 <= alpha <= 1.0
  {
    CVaR(Losses(Deltas(run.iocs)), alpha)
  }

  function LcbOf(run: Run): real {
    var d := Deltas(run.iocs);
    Lower(Proportion(NonNegative(d), |d|), |d|, Level95, run.root)
  }

  /** The runs with enough episodes, in order. */
  function Analysed(runs: seq<Run>, minEpisodes: int): seq<Run> {
    if runs == [] then []
    else
      var last := runs[|runs| - 1];
      Analysed(runs[..|runs| - 1], minEpisodes) + (if |last.iocs| < minEpisodes + 1 then [] else [last])
  }

  function RecordedCvars(runs: seq<Run>, alpha: real): (r: seq<real>)
    requires 0.0 <= alpha <= 1.0
    ensures |r| == |runs| && forall i :: 0 <= i < |runs| ==> r[i] == Round6(CvarOf(runs[i], alpha))
  {
    seq(|runs|, i requires 0 <= i < |runs| => Round6(CvarOf(runs[i], alpha)))
  }

  function RecordedLcbs(runs: seq<Run>): (r: seq<real>)
    ensures |r| == |runs| && forall i :: 0 <= i < |runs| ==> r[i] == Round4(LcbOf(runs[i]))
  {
    seq(|runs|, i requires 0 <= i < |runs| => Round4(LcbOf(runs[i])))
  }

  datatype Suggestion = Suggestion(tau: real, prob: real)

  /** A margin above the third quartile of the losses. */
  function Tau(p75: real): real {
    Ceil(p75 * 100.0) as real / 100.0 + 0.01
  }

  /** The first quartile of the bounds, down to a multiple of 0.05. */
  function Prob(p25: real): real {
    var floor := (p25 * 20.0).Floor as real / 20.0;
    if floor > 0.0 then floor else 0.0
  }

  /** The loss threshold is a whole hundredth, between one and two hundredths above the quartile. */
  lemma SuggestedLoss(p75: real) returns (hundredths: int)
    ensures 100.0 * Tau(p75) == hundredths as real
    ensures p75 + 0.01 <= Tau(p75) < p75 + 0.02
  {
    hundredths := Ceil(p75 * 100.0) + 1;
  }

  /** The probability threshold is the last twentieth at or below the quartile, and never negative. */
  lemma SuggestedBound(p25: real) returns (twentieths: nat)
    ensures 20.0 * Prob(p25) == twentieths as real
    ensures if p25 < 0.0 then Prob(p25) == 0.0 else Prob(p25) <= p25 < Prob(p25) + 0.05
  {
    twentieths := if p25 < 0.0 then 0 else (p25 * 20.0).Floor;
  }

  function SuggestionFor(cvars: seq<real>, lcbs: seq<real>): Option<Suggestion> {
    if cvars == [] || lcbs == [] then None
    else Some(Suggestion(Tau(Round6(Percentile(Sort(cvars), 75.0))), Prob(Round6(Percentile(Sort(lcbs), 25.0)))))
  }

  method Calibrate(runs: seq<Run>, alpha: real, minEpisodes: int) returns (suggestion: Option<Suggestion>)
    requires 0.0 <= alpha <= 1.0
    ensures var a := Analysed(runs, minEpisodes);
            suggestion == SuggestionFor(RecordedCvars(a, alpha), RecordedLcbs(a))
  {
    var cvars: seq<real>, lcbs: seq<real> := [], [];
    ghost var a: seq<Run> := [];
    for i := 0 to |runs|
      invariant a == Analysed(runs[..i], minEpisodes)
      invariant cvars == RecordedCvars(a, alpha) && lcbs == RecordedLcbs(a)
    {
      assert runs[..i + 1][..i] == runs[..i];
      if |runs[i].iocs| >= minEpisodes + 1 {
        a := a + [runs[i]];
        cvars := cvars + [Round6(CvarOf(runs[i], alpha))];
        lcbs := lcbs + [Round4(LcbOf(runs[i]))];
      }
    }
    assert runs[..|runs|] == runs;
    var upper := Percentiles(cvars, [25, 50, 75, 90, 95, 100]);
    var lower := Percentiles(lcbs, [5, 10, 25, 50, 75, 90]);
    if cvars == [] { return None; }
    assert 75 in [25, 50, 75, 90, 95, 100] && 25 in [5, 10, 25, 50, 75, 90];
    var p75, p25 := upper[75].value, lower[25].value;
    suggestion := Some(Suggestion(Tau(p75), Prob(p25)));
  }

  // ----- how much a quartile leaves out -----

  predicate Outside(x: real, t: real, above: bool) {
    if above then x > t else x < t
  }

  function CountOutside(v: seq<real>, t: real, above: bool): nat {
    if v == [] then 0 else (if Outside(v[0], t, above) then 1 else 0) + CountOutside(v[1..], t, above)
  }

  lemma {:induction false} CountInsert(v: seq<real>, x: real, t: real, above: bool)
    requires Sorted(v)
    ensures CountOutside(Insert(v, x), t, above)
            == CountOutside(v, t, above) + if Outside(x, t, above) then 1 else 0
  {
    if v != [] && x > v[0] { CountInsert(v[1..], x, t, above); }
  }

  lemma {:induction false} CountSort(v: seq<real>, t: real, above: bool)
    ensures CountOutside(Sort(v), t, above) == CountOutside(v, t, above)
  {
    if v != [] {
      CountSort(v[1..], t, above);
      CountInsert(Sort(v[1..]), v[0], t, above);
    }
  }

  lemma {:induction false} AtMostBelow(v: seq<real>, k: nat, t: real)
    requires Sorted(v) && k < |v| && v[k] >= t
    ensures CountOutside(v, t, false) <= k
  {
    if k > 0 {
      AtMostBelow(v[1..], k - 1, t);
    } else {
      NoneBelow(v, t);
    }
  }

  lemma {:induction false} NoneBelow(v: seq<real>, t: real)
    requires forall i :: 0 <= i < |v| ==> v[i] >= t
    ensures CountOutside(v, t, false) == 0
  {
    if v != [] { NoneBelow(v[1..], t); }
  }

  lemma {:induction false} AtMostAbove(v: seq<real>, k: nat, t: real)
    requires Sorted(v) && k < |v| && v[k] <= t
    ensures CountOutside(v, t, true) <= |v| - 1 - k
  {
    assert v[0] <= v[k];
    if k > 0 {
      AtMostAbove(v[1..], k - 1, t);
    } else {
      CountAtMostAll(v[1..], t);
    }
  }

  lemma {:induction false} CountAtMostAll(v: seq<real>, t: real)
    ensures CountOutside(v, t, true) <= |v|
  {
    if v != [] { CountAtMostAll(v[1..], t); }
  }

  /** A quarter of the gaps between n sorted values, rounded up: the values a quartile can leave out. */
  function Quarter(n: nat): nat {
    (n + 2) / 4
  }

  lemma QuartileRanks(n: nat, q25: real, q75: real)
    requires n >= 1 && q25 == 25.0 && q75 == 75.0
    ensures Ceil(Rank(n, q25)) == Quarter(n) && n - 1 - Rank(n, q75).Floor == Quarter(n)
  {
    var m := n - 1;
    assert Rank(n, q25) == m as real / 4.0;
    assert Rank(n, q75) == m as real - m as real / 4.0;
  }

  lemma QuartilesLeaveOut(v: seq<real>, q25: real, q75: real)
    requires v != [] && q25 == 25.0 && q75 == 75.0
    ensures CountOutside(v, Percentile(Sort(v), q25), false) <= Quarter(|v|)
    ensures CountOutside(v, Percentile(Sort(v), q75), true) <= Quarter(|v|)
  {
    var s, n := Sort(v), |v|;
    QuartileRanks(n, q25, q75);
    PercentileBetween(s, q25);
    PercentileBetween(s, q75);
    AtMostBelow(s, Ceil(Rank(n, q25)), Percentile(s, q25));
    AtMostAbove(s, Rank(n, q75).Floor, Percentile(s, q75));
    CountSort(v, Percentile(s, q25), false);
    CountSort(v, Percentile(s, q75), true);
  }

  // ----- what the margins absorb -----

  /** The margin of the loss threshold absorbs both roundings. */
  lemma MarginSuffices(exact: real, p75: real)
    requires Round6(exact) <= p75
    ensures exact <= Tau(Round6(p75))
  {
  }

  /** The bound was recorded above its value, and exactly at the threshold. */
  predicate RoundedUp(lcb: real, prob: real) {
    Round4(lcb) == prob && lcb < prob
  }

  /** The threshold of the bounds has no margin: it absorbs the rounding of the percentile, not that of a bound
      recorded exactly at the threshold. */
  lemma FloorSuffices(exact: real, p25: real)
    requires exact >= 0.0 && Round4(exact) >= p25
    ensures exact >= Prob(Round6(p25)) <==> !RoundedUp(exact, Prob(Round6(p25)))
  {
    var b := (Round6(p25) * 20.0).Floor;
    var a := RoundToInt(exact * 10000.0);
    FloorBelow(exact, p25, a, b);
    if a > 500 * b { assert a as real >= 500.0 * b as real + 1.0; }
  }

  lemma FloorBelow(exact: real, p25: real, a: int, b: int)
    requires Round4(exact) >= p25 && a == RoundToInt(exact * 10000.0) && b == (Round6(p25) * 20.0).Floor
    ensures 500 * b <= a
  {
    var r := Round6(p25);
    assert b as real <= r * 20.0 && r <= p25 + HALF_MICRO;
    assert 500.0 * b as real <= a as real + 0.005;
  }

  // ----- the guarantee -----

  predicate Accepted(run: Run, cfg: SieConfig)
    requires 0.0 <= cfg.cvarAlpha <= 1.0
  {
    SieRule(Deltas(run.iocs), cfg, 0, false).verdict == Accept
  }

  function CountAccepted(runs: seq<Run>, cfg: SieConfig): nat
    requires 0.0 <= cfg.cvarAlpha <= 1.0
  {
    if runs == [] then 0 else (if Accepted(runs[0], cfg) then 1 else 0) + CountAccepted(runs[1..], cfg)
  }

  function CountRoundedUp(runs: seq<Run>, prob: real): nat {
    if runs == [] then 0 else (if RoundedUp(LcbOf(runs[0]), prob) then 1 else 0) + CountRoundedUp(runs[1..], prob)
  }

  lemma AcceptedExactly(run: Run, cfg: SieConfig)
    requires 0.0 <= cfg.cvarAlpha <= 1.0 && Rooted(run) && |Deltas(run.iocs)| >= cfg.minHistory
    ensures Accepted(run, cfg) <==> LcbOf(run) >= cfg.probThreshold && CvarOf(run, cfg.cvarAlpha) <= cfg.cvarThreshold
  {
    var d := Deltas(run.iocs);
    AcceptanceTests(d, cfg, 0, false);
    LowerReaches(Proportion(NonNegative(d), |d|), |d|, Level95, run.root, cfg.probThreshold);
  }

  /** A run whose recorded statistics are inside both quartiles is accepted, unless its bound was rounded up. */
  lemma InsideIsAccepted(run: Run, cfg: SieConfig, p75: real, p25: real)
    requires 0.0 <= cfg.cvarAlpha <= 1.0 && Rooted(run) && |Deltas(run.iocs)| >= cfg.minHistory
    requires cfg.cvarThreshold == Tau(Round6(p75)) && cfg.probThreshold == Prob(Round6(p25))
    requires Round6(CvarOf(run, cfg.cvarAlpha)) <= p75 && Round4(LcbOf(run)) >= p25
    ensures Accepted(run, cfg) <==> !RoundedUp(LcbOf(run), cfg.probThreshold)
  {
    AcceptedExactly(run, cfg);
    MarginSuffices(CvarOf(run, cfg.cvarAlpha), p75);
    FloorSuffices(LcbOf(run), p25);
  }

  predicate Usable(runs: seq<Run>, cfg: SieConfig) {
    forall i :: 0 <= i < |runs| ==> |Deltas(runs[i].iocs)| >= cfg.minHistory
  }

  lemma {:induction false} CountsAddUp(runs: seq<Run>, cfg: SieConfig, p75: real, p25: real)
    requires 0.0 <= cfg.cvarAlpha <= 1.0 && Usable(runs, cfg)
    requires forall i :: 0 <= i < |runs| ==> Rooted(runs[i])
    requires cfg.cvarThreshold == Tau(Round6(p75)) && cfg.probThreshold == Prob(Round6(p25))
    ensures CountAccepted(runs, cfg) + CountRoundedUp(runs, cfg.probThreshold)
            + CountOutside(RecordedCvars(runs, cfg.cvarAlpha), p75, true)
            + CountOutside(RecordedLcbs(runs), p25, false) >= |runs|
  {
    if runs != [] {
      var rest := runs[1..];
      CountsAddUp(rest, cfg, p75, p25);
      var cvars, lcbs := RecordedCvars(runs, cfg.cvarAlpha), RecordedLcbs(runs);
      assert cvars[1..] == RecordedCvars(rest, cfg.cvarAlpha) && lcbs[1..] == RecordedLcbs(rest);
      if cvars[0] <= p75 && lcbs[0] >= p25 { InsideIsAccepted(runs[0], cfg, p75, p25); }
    }
  }

  /** The suggested thresholds reject at most two quarters of the runs that calibrated them, rounded up, and those
      whose bound was recorded at the threshold from just below it. */
  lemma CalibrationGuarantee(runs: seq<Run>, cfg: SieConfig)
    requires 0.0 <= cfg.cvarAlpha <= 1.0 && Usable(runs, cfg)
    requires forall i :: 0 <= i < |runs| ==> Rooted(runs[i])
    requires SuggestionFor(RecordedCvars(runs, cfg.cvarAlpha), RecordedLcbs(runs))
             == Some(Suggestion(cfg.cvarThreshold, cfg.probThreshold))
    ensures CountAccepted(runs, cfg) + CountRoundedUp(runs, cfg.probThreshold) >= |runs| - 2 * Quarter(|runs|)
  {
    var cvars, lcbs := RecordedCvars(runs, cfg.cvarAlpha), RecordedLcbs(runs);
    QuartilesLeaveOut(cvars, 25.0, 75.0);
    QuartilesLeaveOut(lcbs, 25.0, 75.0);
    CountsAddUp(runs, cfg, Percentile(Sort(cvars), 75.0), Percentile(Sort(lcbs), 25.0));
  }

  /** The analysis keeps enough episodes for the rule, when its minimum is at least the rule's. */
  lemma {:induction false} AnalysedIsUsable(runs: seq<Run>, minEpisodes: int, cfg: SieConfig)
    requires 0 <= minEpisodes && cfg.minHistory <= minEpisodes
    ensures Usable(Analysed(runs, minEpisodes), cfg)
  {
    if runs != [] { AnalysedIsUsable(runs[..|runs| - 1], minEpisodes, cfg); }
  }

  /** The last exception is real: 21 changes of 34 that are not drops have a bound just below 0.45, recorded as 0.45,
      and the threshold suggested from that run alone is 0.45, which it does not reach. */
  lemma RoundingRejectsItsOwnRun(run: Run, alpha: real)
    requires 0.0 <= alpha <= 1.0 && Rooted(run)
    requires |Deltas(run.iocs)| == 34 && NonNegative(Deltas(run.iocs)) == 21
    ensures var s := SuggestionFor(RecordedCvars([run], alpha), RecordedLcbs([run]));
            s.Some? && s.value.prob == 0.45 && RoundedUp(LcbOf(run), s.value.prob)
            && !Accepted(run, SieConfig(alpha, s.value.tau, s.value.prob, 4))
  {
    var d := Deltas(run.iocs);
    var p := Proportion(21, 34);
    LowerReaches(p, 34, Level95, run.root, 0.45);
    LowerReaches(p, 34, Level95, run.root, 0.44999);
    TwentyOneOfThirtyFour();
    assert Round4(LcbOf(run)) == 0.45;
    SingleQuartile(RecordedLcbs([run]));
    assert Prob(Round6(0.45)) == 0.45;
    var s := SuggestionFor(RecordedCvars([run], alpha), RecordedLcbs([run]));
    AcceptedExactly(run, SieConfig(alpha, s.value.tau, s.value.prob, 4));
  }

  lemma TwentyOneOfThirtyFour()
    ensures Reaches(Proportion(21, 34), 34, Level95, 0.44999) && !Reaches(Proportion(21, 34), 34, Level95, 0.45)
  {
  }

  lemma SingleQuartile(v: seq<real>)
    requires |v| == 1
    ensures Percentile(Sort(v), 25.0) == v[0]
  {
  }
}
