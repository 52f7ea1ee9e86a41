/** Executing compensations: each step may recover evidence, tighten constraints or mark metadata. */
module Execution {
  import opened Contracts
  import opened RealArith

  datatype MemoryHit = MemoryHit(score: real, canonical: bool)

  datatype Checkpoint = Checkpoint(healthy: bool)

  /** What the memory, the scenario registry and the checkpoint store would answer at one step,
      and the identifier that a new evidence item would get. */
  datatype Reply = Reply(
    memory: Option<MemoryHit>,
    signature: Option<real>,
    checkpoint: Option<Checkpoint>,
    freshId: string)

  function NewEvidence(r: Reply, kind: Kind, confidence: real, canonical: bool): Evidence {
    Evidence(r.freshId, kind, Round4(Unit(confidence)), false, canonical)
  }

  function RecoveredEvidence(ctx: Context, kind: Kind, r: Reply): seq<Evidence> {
    if kind == OtherKind("") || ctx.HasEvidence(kind) then []
    else match kind
      case MemoryRag =>
        if ctx.runId != "" && r.memory.Some?
        then [NewEvidence(r, MemoryRag, r.memory.value.score, r.memory.value.canonical)] else []
      case CausalSignature =>
        if ctx.scenario != "" && r.signature.Some?
        then [NewEvidence(r, CausalSignature, r.signature.value, true)] else []
      case HealthyCheckpoint =>
        if ctx.runId != "" && r.checkpoint.Some? && r.checkpoint.value.healthy
        then [NewEvidence(r, HealthyCheckpoint, 0.80, true)] else []
      case RollbackPlan =>
        if ctx.runId != "" && r.checkpoint.Some?
        then var healthy := r.checkpoint.value.healthy;
             [NewEvidence(r, RollbackPlan, if healthy then 0.75 else 0.40, healthy)] else []
      case HumanApproval =>
        if ctx.metadata.humanApproved then [NewEvidence(r, HumanApproval, 0.95, true)] else []
      case _ => []
  }

  /** The items whose identifier and kind the context does not have yet. */
  function Additions(ctx: Context, items: seq<Evidence>): seq<Evidence> {
    if items == [] then []
    else (if ctx.HasId(items[0].id) || ctx.HasEvidence(items[0].kind) then [] else [items[0]])
         + Additions(ctx, items[1..])
  }

  function WithEvidence(ctx: Context, items: seq<Evidence>): Context {
    ctx.(available := ctx.available + Additions(ctx, items))
  }

  function Marked(ctx: Context, marks: set<Mark>): Context {
    ctx.(metadata := ctx.metadata.(marks := ctx.metadata.marks + marks))
  }

  function KindsOf(items: seq<Evidence>): seq<Kind> {
    seq(|items|, i requires 0 <= i < |items| => items[i].kind)
  }

  /** One recovery step: the evidence is added and the action's block is lifted only if something came back. */
  function Recovering(ctx: Context, a: Action, kind: Kind, r: Reply): (Context, Action) {
    var items := RecoveredEvidence(ctx, kind, r);
    if items == [] then (ctx, a.(executed := true))
    else (WithEvidence(ctx, items), a.(executed := true, status := Applied, recovered := KindsOf(items)))
  }

  function Execute(ctx: Context, a: Action, r: Reply): (Context, Action) {
    var done := a.(executed := true);
    match a.code
    case ExpandRetrieval =>
      Recovering(ctx, a, if a.missing.Some? then a.missing.value else OtherKind(""), r)
    case ResourceConservation => (Marked(ctx, {ContextReduced, CachePreferred, LargeModelsAvoided}), done)
    case DegradeComputeTier =>
      (Marked(ctx.(constraints := ctx.constraints.(allowExternal := false)), {ExternalReasonerDisabled}), done)
    case DegradeToLocal =>
      (Marked(ctx.(constraints := ctx.constraints.(maxTier := Tier1LocalLight, allowExternal := false)),
              {ExternalReasonerDisabled}), done)
    case RequireRollbackPlan => Recovering(ctx, a, RollbackPlan, r)
    case RequirePlanValidation => (WithEvidence(ctx, [NewEvidence(r, ExecutionPlan, 0.55, false)]), done)
    case DowngradeCausalClaim => (Marked(ctx, {CausalClaimDowngraded}), done)
    case MarkConflict => (Marked(ctx, {ConflictIsolated}), done)
    case RequireHumanApproval => Recovering(ctx, a, HumanApproval, r)
    case StopAgent => (Marked(ctx, {AgentStopped}), done)
    case DegradeAutonomyScope => (Marked(ctx, {AutonomyDegraded}), done)
    case _ => (Marked(ctx, {ScopeReduced}), done)
  }

  function ExecuteAll(ctx: Context, actions: seq<Action>, replies: nat -> Reply): (Context, seq<Action>) {
    if actions == [] then (ctx, [])
    else
      var n := |actions| - 1;
      var (before, executed) := ExecuteAll(ctx, actions[..n], replies);
      var (after, last) := Execute(before, actions[n], replies(n));
      (after, executed + [last])
  }

  method ExecuteCompensations(ctx: Context, actions: seq<Action>, replies: nat -> Reply)
    returns (current: Context, executed: seq<Action>)
    ensures (current, executed) == ExecuteAll(ctx, actions, replies)
  {
    current, executed := ctx, [];
    for i := 0 to |actions|
      invariant (current, executed) == ExecuteAll(ctx, actions[..i], replies)
    {
      assert actions[..i + 1][..i] == actions[..i];
      var (next, action) := Execute(current, actions[i], replies(i));
      current, executed := next, executed + [action];
    }
    assert actions[..|actions|] == actions;
  }

  // ----- what execution can and cannot change -----

  /** Evidence that a compensation is entitled to add. */
  predicate Grantable(ctx: Context, e: Evidence) {
    && e.kind in {MemoryRag, CausalSignature, HealthyCheckpoint, RollbackPlan, ExecutionPlan, HumanApproval}
    && !e.conflicting
    && (e.kind == HumanApproval ==> ctx.metadata.humanApproved)
  }

  /** `after` keeps everything of `before` except for new, grantable evidence of new kinds and identifiers, and metadata
      marks. */
  ghost predicate Extends(before: Context, after: Context) {
    && after == before.(available := after.available,
                        metadata := before.metadata.(marks := after.metadata.marks))
    && before.available <= after.available
    && before.metadata.marks <= after.metadata.marks
    && (forall i :: |before.available| <= i < |after.available| ==> Grantable(before, after.available[i]))
    && (forall i, j :: 0 <= i < j < |after.available| && |before.available| <= j ==>
          after.available[i].kind != after.available[j].kind && after.available[i].id != after.available[j].id)
  }

  predicate Degrades(a: Action) {
    a.code in {DegradeComputeTier, DegradeToLocal}
  }

  /** Execution keeps the action's identity and never turns an applied action into a blocked one. */
  predicate Outcome(before: Action, after: Action) {
    && after.executed && after.code == before.code && after.finding == before.finding
    && after.missing == before.missing
    && (after.status == Blocked ==> before.status == Blocked)
  }

  lemma RecoveringExtends(ctx: Context, a: Action, kind: Kind, r: Reply)
    ensures Extends(ctx, Recovering(ctx, a, kind, r).0)
    ensures Outcome(a, Recovering(ctx, a, kind, r).1)
  {
    var items := RecoveredEvidence(ctx, kind, r);
    if items != [] {
      assert items == [items[0]];
      assert Additions(ctx, items[1..]) == [];
    }
  }

  lemma PlanExtends(ctx: Context, r: Reply)
    ensures Extends(ctx, WithEvidence(ctx, [NewEvidence(r, ExecutionPlan, 0.55, false)]))
  {
    var items := [NewEvidence(r, ExecutionPlan, 0.55, false)];
    assert Additions(ctx, items[1..]) == [];
  }

  lemma MarksExtend(ctx: Context, marks: set<Mark>)
    ensures Extends(ctx, Marked(ctx, marks))
  {
  }

  predicate Recovers(a: Action) {
    a.code in {ExpandRetrieval, RequireRollbackPlan, RequireHumanApproval}
  }

  lemma MarkingExtends(ctx: Context, a: Action, r: Reply)
    requires !Recovers(a) && a.code != RequirePlanValidation
    ensures Outcome(a, Execute(ctx, a, r).1)
    ensures !Degrades(a) ==> Extends(ctx, Execute(ctx, a, r).0)
  {
    if !Degrades(a) {
      var marks := Execute(ctx, a, r).0.metadata.marks - ctx.metadata.marks;
      MarksExtend(ctx, marks);
      assert ctx.metadata.marks + marks == Execute(ctx, a, r).0.metadata.marks;
    }
  }

  lemma ExecuteExtends(ctx: Context, a: Action, r: Reply)
    ensures Outcome(a, Execute(ctx, a, r).1)
    ensures !Degrades(a) ==> Extends(ctx, Execute(ctx, a, r).0)
  {
    if a.code == ExpandRetrieval {
      RecoveringExtends(ctx, a, if a.missing.Some? then a.missing.value else OtherKind(""), r);
    } else if a.code == RequireRollbackPlan {
      RecoveringExtends(ctx, a, RollbackPlan, r);
    } else if a.code == RequireHumanApproval {
      RecoveringExtends(ctx, a, HumanApproval, r);
    } else if a.code == RequirePlanValidation {
      PlanExtends(ctx, r);
    } else {
      MarkingExtends(ctx, a, r);
    }
  }

  lemma ExtendsTransitive(a: Context, b: Context, c: Context)
    requires Extends(a, b) && Extends(b, c)
    ensures Extends(a, c)
  {
    forall i | |a.available| <= i < |c.available| ensures Grantable(a, c.available[i]) {
      if i < |b.available| { assert c.available[i] == b.available[i]; }
    }
    forall i, j | 0 <= i < j < |c.available| && |a.available| <= j
      ensures c.available[i].kind != c.available[j].kind && c.available[i].id != c.available[j].id
    {
      if j < |b.available| { assert c.available[i] == b.available[i] && c.available[j] == b.available[j]; }
    }
  }

  lemma {:induction false} ExecuteAllExtends(ctx: Context, actions: seq<Action>, replies: nat -> Reply)
    requires forall a :: a in actions ==> !Degrades(a)
    ensures Extends(ctx, ExecuteAll(ctx, actions, replies).0)
    ensures |ExecuteAll(ctx, actions, replies).1| == |actions|
    ensures forall i :: 0 <= i < |actions| ==> Outcome(actions[i], ExecuteAll(ctx, actions, replies).1[i])
  {
    if actions != [] {
      var n := |actions| - 1;
      ExecuteAllExtends(ctx, actions[..n], replies);
      var before := ExecuteAll(ctx, actions[..n], replies).0;
      ExecuteExtends(before, actions[n], replies(n));
      ExtendsTransitive(ctx, before, Execute(before, actions[n], replies(n)).0);
    }
  }

  /** Extension preserves what is present, and cannot supply what no compensation may grant. */
  lemma ExtendsEvidence(before: Context, after: Context, kind: Kind)
    requires Extends(before, after)
    ensures before.HasEvidence(kind) ==> after.HasEvidence(kind)
    ensures after.HasEvidence(kind) && !before.HasEvidence(kind) ==>
              && kind in {MemoryRag, CausalSignature, HealthyCheckpoint, RollbackPlan, ExecutionPlan, HumanApproval}
              && (kind == HumanApproval ==> before.metadata.humanApproved)
    ensures after.HasConflict() <==> before.HasConflict()
  {
    if before.HasEvidence(kind) {
      var i :| 0 <= i < |before.available| && before.available[i].kind == kind;
      assert after.available[i] == before.available[i];
    }
    if after.HasEvidence(kind) && !before.HasEvidence(kind) {
      var i :| 0 <= i < |after.available| && after.available[i].kind == kind;
    }
    if before.HasConflict() {
      var i :| 0 <= i < |before.available| && (before.available[i].kind == Conflict || before.available[i].conflicting);
      assert after.available[i] == before.available[i];
    }
    if after.HasConflict() {
      var i :| 0 <= i < |after.available| && (after.available[i].kind == Conflict || after.available[i].conflicting);
      if i < |before.available| { assert after.available[i] == before.available[i]; }
    }
  }

  /** Run by itself, the degrade-to-local step can raise the policy ceiling. */
  lemma DegradeToLocalCanRaiseTheCeiling(ctx: Context, a: Action, r: Reply)
    requires a.code == DegradeToLocal
    ensures TierRank(Execute(ctx, a, r).0.constraints.maxTier) > TierRank(ctx.constraints.maxTier)
            <==> ctx.constraints.maxTier == Tier0Deterministic
  {
  }
}
