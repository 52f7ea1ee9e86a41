/** The accept / buffer / reject rule over the changes of an index, and the tracker of a run's index series. */
module RiskEngine {
  import opened Contracts
  import opened RealArith
  import opened Statistics
  import opened AgrestiCoull
  import opened Windows

  datatype SieVerdict = Accept | Buffer | Reject

  datatype SieConfig = SieConfig(cvarAlpha: real, cvarThreshold: real, probThreshold: real, minHistory: int)

  const DEFAULT_CONFIG := SieConfig(0.95, 0.10, 0.45, 4)

  function Losses(deltas: seq<real>): (r: seq<real>)
    ensures |r| == |deltas| && forall i :: 0 <= i < |deltas| ==> r[i] == -deltas[i]
  {
    seq(|deltas|, i requires 0 <= i < |deltas| => -deltas[i])
  }

  function NonNegative(deltas: seq<real>): (n: nat)
    ensures n <= |deltas|
  {
    if deltas == [] then 0 else (if deltas[0] >= 0.0 then 1 else 0) + NonNegative(deltas[1..])
  }

  function Proportion(successes: nat, n: nat): (p: real)
    requires successes <= n
    ensures 0.0 <= p <= 1.0
  {
    if n == 0 then 0.0
    else
      QuotientAtLeast(successes as real, n as real, 0.0);
      QuotientAtMost(successes as real, n as real, 1.0);
      successes as real / n as real
  }

  /** Whether the lower bound for a proportion of successes reaches a threshold. */
  predicate LcbReaches(successes: nat, n: nat, t: real)
    requires successes <= n
  {
    Reaches(Proportion(successes, n), n, Level95, t)
  }

  datatype SieResult = SieResult(verdict: SieVerdict, cvar: Option<real>)

  function SieRule(deltas: seq<real>, cfg: SieConfig, hardViolations: int, barrierViolated: bool): SieResult
    requires 0.0 <= cfg.cvarAlpha <= 1.0
  {
    if hardViolations > 0 || barrierViolated then SieResult(Reject, None)
    else if |deltas| < cfg.minHistory then SieResult(Buffer, None)
    else
      var cvar := CVaR(Losses(deltas), cfg.cvarAlpha);
      SieResult(if LcbReaches(NonNegative(deltas), |deltas|, cfg.probThreshold) && cvar <= cfg.cvarThreshold
                then Accept else Buffer, Some(Round6(cvar)))
  }

  /** The estimate is inside its interval: the lower bound never exceeds the observed proportion. */
  lemma LcbBelowProportion(successes: nat, n: nat, root: real)
    requires successes <= n && n > 0
    requires IsRoot(root, Variance(Proportion(successes, n), n, Level95))
    ensures Lower(Proportion(successes, n), n, Level95, root) <= Proportion(successes, n)
            <= Upper(Proportion(successes, n), n, Level95, root)
  {
    Bracket(Proportion(successes, n), n, Level95, root);
  }

  /** One more success never loses a threshold. */
  lemma LcbMonotone(s: nat, r: nat, n: nat, t: real)
    requires s <= r <= n && LcbReaches(s, n, t)
    ensures LcbReaches(r, n, t)
  {
    if n > 0 {
      QuotientAtMost(s as real, n as real, Proportion(r, n));
      Quotient(r as real, n as real);
    }
    ReachesMonotone(Proportion(s, n), Proportion(r, n), n, Level95, t);
  }

  /** Acceptance, condition by condition. */
  lemma AcceptanceTests(deltas: seq<real>, cfg: SieConfig, hard: int, barrier: bool)
    requires 0.0 <= cfg.cvarAlpha <= 1.0
    ensures SieRule(deltas, cfg, hard, barrier).verdict == Accept <==>
              && hard <= 0 && !barrier && |deltas| >= cfg.minHistory
              && LcbReaches(NonNegative(deltas), |deltas|, cfg.probThreshold)
              && CVaR(Losses(deltas), cfg.cvarAlpha) <= cfg.cvarThreshold
  {
  }

  lemma NoLargeDrop(deltas: seq<real>, alpha: real, tau: real)
    requires 0.0 <= alpha <= 1.0 && deltas != [] && TopRank(|deltas|, alpha)
    requires CVaR(Losses(deltas), alpha) <= tau
    ensures forall i :: 0 <= i < |deltas| ==> -deltas[i] <= tau
  {
    var losses := Losses(deltas);
    TopCVaR(losses, alpha);
    forall i | 0 <= i < |deltas| ensures -deltas[i] <= tau {
      assert losses[i] <= Max(losses);
    }
  }

  lemma ShareOfNonDrops(deltas: seq<real>, t: real)
    requires LcbReaches(NonNegative(deltas), |deltas|, t)
    ensures Proportion(NonNegative(deltas), |deltas|) >= t
  {
    ReachesBelow(Proportion(NonNegative(deltas), |deltas|), |deltas|, Level95, t);
  }

  /** Acceptance on a sample small enough for the level bounds every single drop by the threshold and
      guarantees the demanded share of changes that are not drops. */
  lemma AcceptanceIsPointwise(deltas: seq<real>, cfg: SieConfig, hard: int, barrier: bool)
    requires 0.0 <= cfg.cvarAlpha <= 1.0 && deltas != [] && TopRank(|deltas|, cfg.cvarAlpha)
    requires SieRule(deltas, cfg, hard, barrier).verdict == Accept
    ensures hard <= 0 && !barrier && |deltas| >= cfg.minHistory
    ensures forall i :: 0 <= i < |deltas| ==> -deltas[i] <= cfg.cvarThreshold
    ensures Proportion(NonNegative(deltas), |deltas|) >= cfg.probThreshold
  {
    AcceptanceTests(deltas, cfg, hard, barrier);
    NoLargeDrop(deltas, cfg.cvarAlpha, cfg.cvarThreshold);
    ShareOfNonDrops(deltas, cfg.probThreshold);
  }

  lemma TopAtDefaultLevel(n: nat, alpha: real)
    requires n >= 1 && alpha == 0.95
    ensures TopRank(n, alpha) <==> n <= 20
  {
    DefaultLevelTop(n);
  }

  /** At the default level that covers every accepted history of at most 20 changes. */
  lemma DefaultAcceptance(deltas: seq<real>, cfg: SieConfig, hard: int, barrier: bool)
    requires cfg.cvarAlpha == 0.95 && 1 <= |deltas| <= 20
    requires SieRule(deltas, cfg, hard, barrier).verdict == Accept
    ensures |deltas| >= cfg.minHistory
    ensures forall i :: 0 <= i < |deltas| ==> -deltas[i] <= cfg.cvarThreshold
    ensures Proportion(NonNegative(deltas), |deltas|) >= cfg.probThreshold
  {
    TopAtDefaultLevel(|deltas|, cfg.cvarAlpha);
    AcceptanceIsPointwise(deltas, cfg, hard, barrier);
  }

  // ----- the tracker -----

  datatype RiskBlock = RiskBlock(delta: Option<real>, historyLength: nat, sie: SieResult)

  function Deltas(series: seq<real>): seq<real> {
    if |series| <= 1 then []
    else seq(|series| - 1, i requires 0 <= i < |series| - 1 => series[i + 1] - series[i])
  }

  /** The block for an index value, from the series before it and the limited series after it. */
  function RiskBlockOf(
    before: seq<real>, after: seq<real>, ioc: real, cfg: SieConfig, hard: int, barrier: bool): RiskBlock
    requires 0.0 <= cfg.cvarAlpha <= 1.0
  {
    RiskBlock(if before == [] then None else Some(Round6(ioc - before[|before| - 1])), |Deltas(after)|,
              SieRule(Deltas(after), cfg, hard, barrier))
  }

  // ----- the verdict of a block, from the series -----

  predicate NoDropAt(series: seq<real>, i: int) {
    0 <= i < |series| - 1 && series[i] <= series[i + 1]
  }

  /** The positions of the series from which the index does not drop to the next. */
  function Kept(series: seq<real>): set<int> {
    set i | 0 <= i < |series| && NoDropAt(series, i)
  }

  lemma {:induction false} NonNegativeCounts(deltas: seq<real>)
    ensures NonNegative(deltas) == |set i | 0 <= i < |deltas| && deltas[i] >= 0.0|
  {
    if deltas != [] {
      var n := |deltas| - 1;
      NonNegativeSnoc(deltas[..n], deltas[n]);
      assert deltas == deltas[..n] + [deltas[n]];
      NonNegativeCounts(deltas[..n]);
      var front := set i | 0 <= i < n && deltas[..n][i] >= 0.0;
      assert (set i | 0 <= i < |deltas| && deltas[i] >= 0.0) == front + if deltas[n] >= 0.0 then {n} else {};
    }
  }

  lemma {:induction false} NonNegativeSnoc(front: seq<real>, last: real)
    ensures NonNegative(front + [last]) == NonNegative(front) + if last >= 0.0 then 1 else 0
  {
    if front != [] {
      assert (front + [last])[1..] == front[1..] + [last];
      NonNegativeSnoc(front[1..], last);
    }
  }

  lemma KeptShare(series: seq<real>)
    ensures NonNegative(Deltas(series)) == |Kept(series)|
  {
    NonNegativeCounts(Deltas(series));
    assert (set i | 0 <= i < |Deltas(series)| && Deltas(series)[i] >= 0.0) == Kept(series);
  }

  /** The share of changes that are not drops. */
  function KeptShareOf(series: seq<real>): real
    requires |series| > 1
  {
    |Kept(series)| as real / (|series| - 1) as real
  }

  /** The drops of a series, which are the losses. */
  function Drops(series: seq<real>): seq<real> {
    seq(if series == [] then 0 else |series| - 1, i requires 0 <= i < |series| - 1 => series[i] - series[i + 1])
  }

  lemma LossesAreDrops(series: seq<real>)
    ensures Losses(Deltas(series)) == Drops(series)
  {
  }

  /** The bound that the code computes for the share of a series without drops, by the square root that it takes. */
  ghost predicate BoundMisses(series: seq<real>, threshold: real, root: real)
    requires |series| > 1
  {
    Lower(KeptShareOf(series), |series| - 1, Level95, root) < threshold
  }

  ghost predicate RootFor(series: seq<real>, root: real) {
    |series| > 1 ==> IsRoot(root, Variance(KeptShareOf(series), |series| - 1, Level95))
  }

  /** The verdict of a block, on its arguments: it rejects exactly on a hard violation or a violated barrier, whatever the
      series; of the rest it buffers exactly what has too few changes, a bound that misses the threshold, or a CVaR of the
      drops above it; and it reports that CVaR exactly when it does not reject and the history is long enough. */
  lemma BlockExactly(
    before: seq<real>, after: seq<real>, ioc: real, cfg: SieConfig, hard: int, barrier: bool, root: real)
    requires 0.0 <= cfg.cvarAlpha <= 1.0 && RootFor(after, root)
    ensures var b := RiskBlockOf(before, after, ioc, cfg, hard, barrier);
            var changes := if after == [] then 0 else |after| - 1;
            && b.historyLength == changes
            && (b.sie.verdict == Reject <==> hard > 0 || barrier)
            && (b.sie.verdict == Buffer <==>
                  && hard <= 0 && !barrier
                  && (changes < cfg.minHistory
                      || (if changes == 0 then cfg.probThreshold > 0.0 else BoundMisses(after, cfg.probThreshold, root))
                      || CVaR(Drops(after), cfg.cvarAlpha) > cfg.cvarThreshold))
            && (b.sie.cvar.Some? <==> hard <= 0 && !barrier && changes >= cfg.minHistory)
            && (b.sie.cvar.Some? ==> b.sie.cvar.value == Round6(CVaR(Drops(after), cfg.cvarAlpha)))
            && b.delta == if before == [] then None else Some(Round6(ioc - before[|before| - 1]))
  {
    KeptShare(after);
    LossesAreDrops(after);
    if |after| > 1 {
      assert Proportion(NonNegative(Deltas(after)), |Deltas(after)|) == KeptShareOf(after);
      LowerReaches(KeptShareOf(after), |after| - 1, Level95, root, cfg.probThreshold);
    }
  }

  /** At the default configuration an accepted block of at most 20 changes has at least four of them, none a drop of more
      than a tenth, and at least nine in twenty no drops. */
  lemma AcceptedByDefault(before: seq<real>, after: seq<real>, ioc: real, hard: int, barrier: bool)
    requires 2 <= |after| <= 21
    requires RiskBlockOf(before, after, ioc, DEFAULT_CONFIG, hard, barrier).sie.verdict == Accept
    ensures hard <= 0 && !barrier && |after| > 4
    ensures forall i :: 0 <= i < |Drops(after)| ==> Drops(after)[i] <= 0.10
    ensures KeptShareOf(after) >= 0.45
  {
    var d := Deltas(after);
    KeptShare(after);
    LossesAreDrops(after);
    AcceptanceTests(d, DEFAULT_CONFIG, hard, barrier);
    DefaultAcceptance(d, DEFAULT_CONFIG, hard, barrier);
    forall i | 0 <= i < |d| ensures Drops(after)[i] <= 0.10 { assert Drops(after)[i] == -d[i]; }
  }

  lemma UnsafeBlock(before: seq<real>, after: seq<real>, ioc: real, cfg: SieConfig, hard: int, barrier: bool)
    requires 0.0 <= cfg.cvarAlpha <= 1.0
    ensures var b := RiskBlockOf(before, after, ioc, cfg, hard, barrier);
            && (b.sie.verdict == Reject <==> hard > 0 || barrier)
            && (b.sie.cvar.Some? <==> b.sie.verdict != Reject && b.historyLength >= cfg.minHistory)
  {
  }

  class EpisodeRiskTracker {
    const cfg: SieConfig
    const maxHistory: nat
    var series: map<string, seq<real>>

    constructor (cfg: SieConfig := DEFAULT_CONFIG, maxHistory: nat := 64)
      ensures this.cfg == cfg && this.maxHistory == maxHistory && series == map[]
    {
      this.cfg, this.maxHistory, series := cfg, maxHistory, map[];
    }

    /** The series of a run as the next assessment will find it; `listing` is the store's answer,
        newest first and limited, or None when there is no store or it fails. */
    ghost function SeriesFor(run: string, listing: Option<seq<real>>): seq<real>
      reads this
    {
      if run in series then series[run] else if listing.Some? then Reversed(listing.value) else []
    }

    method Assess(run: string, ioc: real, hard: int, barrier: bool, listing: Option<seq<real>>)
      returns (block: RiskBlock)
      requires 0.0 <= cfg.cvarAlpha <= 1.0
      modifies this
      ensures series == old(series)[run := LastN(old(SeriesFor(run, listing)) + [ioc], maxHistory)]
      ensures block == RiskBlockOf(old(SeriesFor(run, listing)), series[run], ioc, cfg, hard, barrier)
      ensures block.sie.verdict == Reject <==> hard > 0 || barrier
      ensures block.sie.cvar.Some? <==> block.sie.verdict != Reject && block.historyLength >= cfg.minHistory
    {
      if run !in series {
        var seed: seq<real> := [];
        if listing.Some? { seed := Reversed(listing.value); }
        series := series[run := seed];
      }
      var before := series[run];
      var current := before + [ioc];
      if |current| > maxHistory {
        current := current[|current| - maxHistory..];
      }
      series := series[run := current];
      UnsafeBlock(before, current, ioc, cfg, hard, barrier);
      block := RiskBlockOf(before, current, ioc, cfg, hard, barrier);
    }
  }
}
