/** When an operation goes through, as a condition on the context before the evaluation and on what the stores hold. */
module Deadlocks {
  import opened Contracts
  import opened Router
  import opened Validators
  import opened Compensations
  import opened Execution
  import opened Merging
  import opened Service

  // ----- single steps -----

  /** The reply would supply evidence of the kind, if it is missing. */
  predicate Gives(ctx: Context, r: Reply, kind: Kind) {
    match kind
    case MemoryRag => ctx.runId != "" && r.memory.Some?
    case CausalSignature => ctx.scenario != "" && r.signature.Some?
    case HealthyCheckpoint => ctx.runId != "" && r.checkpoint.Some? && r.checkpoint.value.healthy
    case RollbackPlan => ctx.runId != "" && r.checkpoint.Some?
    case HumanApproval => ctx.metadata.humanApproved
    case _ => false
  }

  /** The kind that a step tries to recover. */
  function Target(a: Action): Option<Kind> {
    match a.code
    case ExpandRetrieval => a.missing
    case RequireRollbackPlan => Some(RollbackPlan)
    case RequireHumanApproval => Some(HumanApproval)
    case _ => None
  }

  lemma RecoveringKinds(ctx: Context, a: Action, kind: Kind, r: Reply, k: Kind)
    requires !ctx.HasId(r.freshId)
    ensures Recovering(ctx, a, kind, r).0.HasEvidence(k) <==> ctx.HasEvidence(k) || (k == kind && Gives(ctx, r, kind))
    ensures Recovering(ctx, a, kind, r).1.status == Blocked
            <==> a.status == Blocked && (ctx.HasEvidence(kind) || !Gives(ctx, r, kind))
    ensures Recovering(ctx, a, kind, r).1.recovered
            == if ctx.HasEvidence(kind) || !Gives(ctx, r, kind) then a.recovered else [kind]
  {
    var items := RecoveredEvidence(ctx, kind, r);
    var after := Recovering(ctx, a, kind, r).0;
    if items != [] {
      assert items == [items[0]] && Additions(ctx, items[1..]) == [];
      assert after.available == ctx.available + [items[0]];
      forall i | 0 <= i < |ctx.available| ensures after.available[i] == ctx.available[i] {}
      assert after.available[|ctx.available|] == items[0];
    }
  }

  function TargetOrNone(a: Action): Kind {
    if a.missing.Some? then a.missing.value else OtherKind("")
  }

  /** A step adds its target if the stores give it, and nothing else but an execution plan. */
  lemma StepKinds(ctx: Context, a: Action, r: Reply, k: Kind)
    requires !ctx.HasId(r.freshId) && k != ExecutionPlan
    ensures Execute(ctx, a, r).0.HasEvidence(k) <==> ctx.HasEvidence(k) || (Target(a) == Some(k) && Gives(ctx, r, k))
  {
    match a.code
    case ExpandRetrieval => RecoveringKinds(ctx, a, TargetOrNone(a), r, k);
    case RequireRollbackPlan => RecoveringKinds(ctx, a, RollbackPlan, r, k);
    case RequireHumanApproval => RecoveringKinds(ctx, a, HumanApproval, r, k);
    case RequirePlanValidation => PlanStep(ctx, r, k);
    case _ => QuietStep(ctx, a, r);
  }

  lemma QuietStep(ctx: Context, a: Action, r: Reply)
    requires a.code !in {ExpandRetrieval, RequireRollbackPlan, RequireHumanApproval, RequirePlanValidation}
    ensures Execute(ctx, a, r).0.available == ctx.available && Target(a).None?
  {
  }

  /** A step loses its block only by recovering its target. */
  lemma StepStatus(ctx: Context, a: Action, r: Reply)
    requires !ctx.HasId(r.freshId)
    ensures Execute(ctx, a, r).1.status == Blocked <==>
              a.status == Blocked
              && (Target(a).None? || ctx.HasEvidence(Target(a).value) || !Gives(ctx, r, Target(a).value))
    ensures Execute(ctx, a, r).1.recovered
            == if Target(a).None? || ctx.HasEvidence(Target(a).value) || !Gives(ctx, r, Target(a).value)
               then a.recovered else [Target(a).value]
  {
    match a.code
    case ExpandRetrieval => RecoveringKinds(ctx, a, TargetOrNone(a), r, MemoryRag);
    case RequireRollbackPlan => RecoveringKinds(ctx, a, RollbackPlan, r, MemoryRag);
    case RequireHumanApproval => RecoveringKinds(ctx, a, HumanApproval, r, MemoryRag);
    case _ =>
  }

  lemma PlanStep(ctx: Context, r: Reply, k: Kind)
    requires k != ExecutionPlan
    ensures WithEvidence(ctx, [NewEvidence(r, ExecutionPlan, 0.55, false)]).HasEvidence(k) <==> ctx.HasEvidence(k)
  {
    var plan := [NewEvidence(r, ExecutionPlan, 0.55, false)];
    assert Additions(ctx, plan[1..]) == [];
    var after := WithEvidence(ctx, plan);
    forall i | 0 <= i < |ctx.available| ensures after.available[i] == ctx.available[i] {}
  }

  // ----- identifiers -----

  ghost predicate FreshIds(ctx: Context, replies: nat -> Reply) {
    && (forall i: nat :: !ctx.HasId(replies(i).freshId))
    && (forall i: nat, j: nat :: i < j ==> replies(i).freshId != replies(j).freshId)
  }

  lemma {:induction false} IdsComeFromReplies(ctx: Context, actions: seq<Action>, replies: nat -> Reply, n: nat)
    requires FreshIds(ctx, replies) && |actions| <= n
    ensures !ExecuteAll(ctx, actions, replies).0.HasId(replies(n).freshId)
  {
    if actions != [] {
      var m := |actions| - 1;
      IdsComeFromReplies(ctx, actions[..m], replies, n);
      StepId(ExecuteAll(ctx, actions[..m], replies).0, actions[m], replies(m), replies(n).freshId);
    }
  }

  lemma StepId(ctx: Context, a: Action, r: Reply, id: string)
    requires !ctx.HasId(id) && id != r.freshId
    ensures !Execute(ctx, a, r).0.HasId(id)
  {
    match a.code
    case ExpandRetrieval => RecoveringId(ctx, a, if a.missing.Some? then a.missing.value else OtherKind(""), r, id);
    case RequireRollbackPlan => RecoveringId(ctx, a, RollbackPlan, r, id);
    case RequireHumanApproval => RecoveringId(ctx, a, HumanApproval, r, id);
    case RequirePlanValidation =>
      var plan := [NewEvidence(r, ExecutionPlan, 0.55, false)];
      assert Additions(ctx, plan[1..]) == [];
    case _ =>
  }

  lemma RecoveringId(ctx: Context, a: Action, kind: Kind, r: Reply, id: string)
    requires !ctx.HasId(id) && id != r.freshId
    ensures !Recovering(ctx, a, kind, r).0.HasId(id)
  {
    var items := RecoveredEvidence(ctx, kind, r);
    if items != [] { assert items == [items[0]] && Additions(ctx, items[1..]) == []; }
  }

  // ----- lists of steps -----

  ghost predicate Plain(actions: seq<Action>) {
    forall a :: a in actions ==> !Degrades(a)
  }

  predicate Attempts(actions: seq<Action>, k: Kind) {
    exists a :: a in actions && Target(a) == Some(k)
  }

  /** Some step targets the kind at a moment when the stores give it. */
  predicate Recovered(ctx: Context, replies: nat -> Reply, actions: seq<Action>, k: Kind) {
    exists i :: 0 <= i < |actions| && Target(actions[i]) == Some(k) && Gives(ctx, replies(i), k)
  }

  lemma RecoveredSnoc(ctx: Context, replies: nat -> Reply, front: seq<Action>, last: Action, k: Kind)
    ensures Recovered(ctx, replies, front + [last], k) <==>
              Recovered(ctx, replies, front, k) || (Target(last) == Some(k) && Gives(ctx, replies(|front|), k))
  {
    var all := front + [last];
    assert all[|front|] == last;
    if Recovered(ctx, replies, front, k) {
      var i :| 0 <= i < |front| && Target(front[i]) == Some(k) && Gives(ctx, replies(i), k);
      assert all[i] == front[i];
    }
    if Recovered(ctx, replies, all, k) {
      var i :| 0 <= i < |all| && Target(all[i]) == Some(k) && Gives(ctx, replies(i), k);
      assert i < |front| ==> all[i] == front[i];
    }
  }

  /** After any list of steps a kind is there exactly if it was, or some step recovered it. */
  lemma {:induction false} KindsAfter(ctx: Context, actions: seq<Action>, replies: nat -> Reply, k: Kind)
    requires FreshIds(ctx, replies) && Plain(actions) && k != ExecutionPlan
    ensures ExecuteAll(ctx, actions, replies).0.HasEvidence(k) <==>
              ctx.HasEvidence(k) || Recovered(ctx, replies, actions, k)
  {
    if actions != [] {
      var n := |actions| - 1;
      var before := ExecuteAll(ctx, actions[..n], replies).0;
      assert actions == actions[..n] + [actions[n]];
      KindsAfter(ctx, actions[..n], replies, k);
      ExecuteAllExtends(ctx, actions[..n], replies);
      IdsComeFromReplies(ctx, actions[..n], replies, n);
      StepKinds(before, actions[n], replies(n), k);
      RecoveredSnoc(ctx, replies, actions[..n], actions[n], k);
    }
  }

  /** A step lifts its block: its target is missing, was not recovered by an earlier step, and is given now. */
  predicate Lifted(ctx: Context, replies: nat -> Reply, front: seq<Action>, a: Action) {
    && Target(a).Some? && !ctx.HasEvidence(Target(a).value)
    && !Recovered(ctx, replies, front, Target(a).value) && Gives(ctx, replies(|front|), Target(a).value)
  }

  /** The last action of the key keeps its block. */
  predicate Sticks(ctx: Context, replies: nat -> Reply, actions: seq<Action>, key: Key) {
    actions != [] &&
    var n := |actions| - 1;
    if KeyOf(actions[n]) == key
    then actions[n].status == Blocked && !Lifted(ctx, replies, actions[..n], actions[n])
    else Sticks(ctx, replies, actions[..n], key)
  }

  lemma {:induction false} SticksMeaning(ctx: Context, actions: seq<Action>, replies: nat -> Reply, key: Key)
    requires FreshIds(ctx, replies) && Plain(actions)
    ensures StaysBlocked(ExecuteAll(ctx, actions, replies).1, key) <==> Sticks(ctx, replies, actions, key)
  {
    if actions != [] {
      var n := |actions| - 1;
      var front, last := actions[..n], actions[n];
      var before := ExecuteAll(ctx, front, replies);
      SticksMeaning(ctx, front, replies, key);
      StaysBlockedSnoc(before.1, Execute(before.0, last, replies(n)).1, key);
      StatusAfter(ctx, front, last, replies);
    }
  }

  /** A step reports its target as recovered exactly when it lifts its block. */
  lemma StatusAfter(ctx: Context, front: seq<Action>, last: Action, replies: nat -> Reply)
    requires FreshIds(ctx, replies) && Plain(front) && !Degrades(last)
    ensures var outcome := Execute(ExecuteAll(ctx, front, replies).0, last, replies(|front|)).1;
            && KeyOf(outcome) == KeyOf(last)
            && (outcome.status == Blocked <==> last.status == Blocked && !Lifted(ctx, replies, front, last))
            && outcome.recovered == if Lifted(ctx, replies, front, last) then [Target(last).value] else last.recovered
  {
    var before := ExecuteAll(ctx, front, replies).0;
    ExecuteAllExtends(ctx, front, replies);
    IdsComeFromReplies(ctx, front, replies, |front|);
    StepStatus(before, last, replies(|front|));
    ExecuteExtends(before, last, replies(|front|));
    if Target(last).Some? && Target(last).value != ExecutionPlan {
      KindsAfter(ctx, front, replies, Target(last).value);
    }
  }

  lemma SticksSnoc(ctx: Context, replies: nat -> Reply, front: seq<Action>, last: Action, key: Key)
    ensures Sticks(ctx, replies, front + [last], key) <==>
              if KeyOf(last) == key then last.status == Blocked && !Lifted(ctx, replies, front, last)
              else Sticks(ctx, replies, front, key)
  {
    assert (front + [last])[..|front|] == front;
  }

  /** Later actions of other keys change nothing; later actions without a block cannot make a key stick. */
  lemma {:induction false} SticksAppend(
    ctx: Context, replies: nat -> Reply, front: seq<Action>, rest: seq<Action>, key: Key)
    ensures (forall a :: a in rest ==> KeyOf(a) != key) ==>
              (Sticks(ctx, replies, front + rest, key) <==> Sticks(ctx, replies, front, key))
    ensures (forall a :: a in rest ==> a.status != Blocked) ==>
              (Sticks(ctx, replies, front + rest, key) ==> Sticks(ctx, replies, front, key))
  {
    if rest == [] {
      assert front + rest == front;
    } else {
      var n := |rest| - 1;
      assert front + rest == (front + rest[..n]) + [rest[n]];
      SticksSnoc(ctx, replies, front + rest[..n], rest[n], key);
      SticksAppend(ctx, replies, front, rest[..n], key);
    }
  }

  // ----- the parts of the first round -----

  function PolicyBasics(ctx: Context, p: AgentPolicy): seq<Finding> {
    When(!p.Allows(ctx.action), AgentActionForbidden)
    + When(ctx.metadata.requestedTool != "" && !p.AllowsTool(ctx.metadata.requestedTool), AgentToolForbidden)
    + When(p.budgetUnits <= 0.0, AgentBudgetExhausted)
    + When(StepsExceeded(ctx, p), AgentStepLimitExceeded)
  }

  function AgentBasics(ctx: Context): seq<Finding> {
    match ctx.agentPolicy
    case None => When(ctx.IsCritical(), CriticalActionWithoutPolicy)
    case Some(p) => PolicyBasics(ctx, p)
  }

  function SchemaPart(ctx: Context): seq<Finding> {
    When(ctx.operationId == "" || ctx.userIntent == "", InvalidOperationContract)
  }

  function MissingPart(ctx: Context): seq<Finding> {
    MissingFindings(ctx, ctx.required)
  }

  /** Everything that names no evidence to recover. */
  function MiddlePart(ctx: Context, route: Route): seq<Finding> {
    When(ctx.HasConflict(), ContradictoryEvidence)
    + CausalFindings(ctx, ctx.assumptions) + ConstraintFindings(ctx, route) + RiskFindings(ctx) + AutonomyFindings(ctx)
    + AgentBasics(ctx)
  }

  predicate ApprovalMissing(ctx: Context) {
    ApprovalDemanded(ctx) && !ctx.HasEvidence(HumanApproval)
  }

  predicate PlanMissing(ctx: Context) {
    ctx.agentPolicy.Some? && PlanDue(ctx, ctx.agentPolicy.value) && !ctx.HasEvidence(ValidatedPlan)
  }

  predicate RollbackMissing(ctx: Context) {
    ctx.agentPolicy.Some? && RollbackDue(ctx, ctx.agentPolicy.value) && !ctx.HasEvidence(RollbackPlan)
  }

  function ApprovalPart(ctx: Context): seq<Finding> { When(ApprovalMissing(ctx), HumanApprovalRequired) }

  function PlanPart(ctx: Context): seq<Finding> { When(PlanMissing(ctx), CriticalActionWithoutValidatedPlan) }

  function RollbackPart(ctx: Context): seq<Finding> {
    When(RollbackMissing(ctx), CriticalActionWithoutRollbackPlan)
  }

  lemma AgentParts(ctx: Context)
    ensures AgentFindings(ctx) == AgentBasics(ctx) + ApprovalPart(ctx) + PlanPart(ctx) + RollbackPart(ctx)
  {
  }

  lemma Regroup<T>(
    s: seq<T>, m: seq<T>, c: seq<T>, x: seq<T>, y: seq<T>, z: seq<T>, w: seq<T>,
    b: seq<T>, p: seq<T>, q: seq<T>, r: seq<T>)
    ensures s + (m + c) + x + y + z + w + (b + p + q + r) == s + m + (c + x + y + z + w + b) + p + q + r
  {
  }

  lemma RaisedParts(ctx: Context, route: Route)
    ensures Raised(ctx, route)
            == SchemaPart(ctx) + MissingPart(ctx) + MiddlePart(ctx, route)
               + ApprovalPart(ctx) + PlanPart(ctx) + RollbackPart(ctx)
  {
    AgentParts(ctx);
    Regroup(SchemaPart(ctx), MissingPart(ctx), When(ctx.HasConflict(), ContradictoryEvidence),
            CausalFindings(ctx, ctx.assumptions), ConstraintFindings(ctx, route), RiskFindings(ctx),
            AutonomyFindings(ctx), AgentBasics(ctx), ApprovalPart(ctx), PlanPart(ctx), RollbackPart(ctx));
  }

  lemma {:induction false} ActionsConcat(ctx: Context, a: seq<Finding>, b: seq<Finding>)
    ensures ActionsFor(ctx, a + b) == ActionsFor(ctx, a) + ActionsFor(ctx, b)
  {
    if b == [] {
      assert a + b == a;
    } else {
      var n := |b| - 1;
      assert (a + b)[..|a| + n] == a + b[..n];
      ActionsConcat(ctx, a, b[..n]);
    }
  }

  /** The steps before the three dedicated ones. */
  function Opening(ctx: Context): seq<Action> {
    ActionsFor(ctx, SchemaPart(ctx)) + ActionsFor(ctx, MissingPart(ctx))
    + ActionsFor(ctx, MiddlePart(ctx, RouteOf(ctx)))
  }

  lemma FirstActionsParts(ctx: Context)
    ensures FirstActions(ctx) == Opening(ctx) + ActionsFor(ctx, ApprovalPart(ctx)) + ActionsFor(ctx, PlanPart(ctx))
                                 + ActionsFor(ctx, RollbackPart(ctx))
  {
    var route := RouteOf(ctx);
    RaisedParts(ctx, route);
    OnlyAlarms(ctx, Raised(ctx, route));
    var s, m, d := SchemaPart(ctx), MissingPart(ctx), MiddlePart(ctx, route);
    var a, p, r := ApprovalPart(ctx), PlanPart(ctx), RollbackPart(ctx);
    ActionsConcat(ctx, s + m + d + a + p, r);
    ActionsConcat(ctx, s + m + d + a, p);
    ActionsConcat(ctx, s + m + d, a);
    ActionsConcat(ctx, s + m, d);
    ActionsConcat(ctx, s, m);
  }

  lemma OnlyAlarms(ctx: Context, raised: seq<Finding>)
    ensures ActionsFor(ctx, if raised == [] then [Finding(ValidationPassed, Pass, None)] else raised)
            == ActionsFor(ctx, raised)
  {
    if raised == [] {
      var pass := [Finding(ValidationPassed, Pass, None)];
      assert pass[..0] == [];
    }
  }

  // ----- what the parts contain -----

  const MISSING_KEY := Key(ExpandRetrieval, MissingEvidence)
  const APPROVAL_KEY := Key(RequireHumanApproval, HumanApprovalRequired)
  const ROLLBACK_KEY := Key(RequireRollbackPlan, CriticalActionWithoutRollbackPlan)

  predicate Dedicated(code: FindingCode) {
    code in {MissingEvidence, HumanApprovalRequired, CriticalActionWithoutRollbackPlan,
             CriticalActionWithoutValidatedPlan}
  }

  lemma BasicCodes(ctx: Context, f: Finding)
    requires f in AgentBasics(ctx)
    ensures !Dedicated(f.code) && f.status == Fail
  {
  }

  lemma MiddleMembers(ctx: Context, route: Route, f: Finding)
    ensures f in MiddlePart(ctx, route) <==>
              || f in When(ctx.HasConflict(), ContradictoryEvidence)
              || f in CausalFindings(ctx, ctx.assumptions)
              || f in ConstraintFindings(ctx, route)
              || f in RiskFindings(ctx)
              || f in AutonomyFindings(ctx)
              || f in AgentBasics(ctx)
  {
  }

  lemma MiddleCodes(ctx: Context, route: Route, f: Finding)
    requires f in MiddlePart(ctx, route)
    ensures !Dedicated(f.code)
  {
    CausalFindingsMembers(ctx, ctx.assumptions);
    MiddleMembers(ctx, route, f);
    if f in AgentBasics(ctx) { BasicCodes(ctx, f); }
  }

  lemma MiddleActions(ctx: Context)
    ensures Undedicated(ActionsFor(ctx, MiddlePart(ctx, RouteOf(ctx))))
  {
    var middle := MiddlePart(ctx, RouteOf(ctx));
    forall f | f in middle ensures !Dedicated(f.code) { MiddleCodes(ctx, RouteOf(ctx), f); }
    UndedicatedActions(ctx, middle);
  }

  /** Steps that recover nothing and share no key with those that do. */
  ghost predicate Undedicated(actions: seq<Action>) {
    forall a :: a in actions ==> Target(a).None? && KeyOf(a) !in {MISSING_KEY, APPROVAL_KEY, ROLLBACK_KEY}
  }

  lemma UndedicatedActions(ctx: Context, findings: seq<Finding>)
    requires forall f :: f in findings ==> !Dedicated(f.code)
    ensures Undedicated(ActionsFor(ctx, findings))
  {
    ActionsMembers(ctx, findings);
    forall a | a in ActionsFor(ctx, findings)
      ensures Target(a).None? && KeyOf(a) !in {MISSING_KEY, APPROVAL_KEY, ROLLBACK_KEY}
    {
      var f :| f in findings && f.status != Pass && a == ActionFor(ctx, f);
    }
  }

  /** The expansion step for a missing kind. */
  function Expansion(ctx: Context, k: Kind): Action {
    ActionFor(ctx, Finding(MissingEvidence, if ctx.IsCritical() then Fail else Warn, Some(k)))
  }

  /** The expansions, one for every missing entry, in order. */
  function Expansions(ctx: Context, required: seq<Kind>): seq<Action> {
    ActionsFor(ctx, MissingFindings(ctx, required))
  }

  lemma ExpansionsSnoc(ctx: Context, front: seq<Kind>, k: Kind)
    ensures Expansions(ctx, front + [k])
            == Expansions(ctx, front) + if ctx.HasEvidence(k) then [] else [Expansion(ctx, k)]
  {
    assert (front + [k])[..|front|] == front;
    var f := Finding(MissingEvidence, if ctx.IsCritical() then Fail else Warn, Some(k));
    ActionsConcat(ctx, MissingFindings(ctx, front), if ctx.HasEvidence(k) then [] else [f]);
    SingleAction(ctx, f);
  }

  lemma SingleAction(ctx: Context, f: Finding)
    requires f.status != Pass
    ensures ActionsFor(ctx, [f]) == [ActionFor(ctx, f)]
  {
    assert [f][..0] == [];
  }

  predicate Expands(ctx: Context, required: seq<Kind>, a: Action) {
    a.missing.Some? && a.missing.value in required && !ctx.HasEvidence(a.missing.value)
    && a == Expansion(ctx, a.missing.value)
  }

  lemma {:induction false} ExpansionMember(ctx: Context, required: seq<Kind>, a: Action)
    ensures a in Expansions(ctx, required) <==> Expands(ctx, required, a)
  {
    if required != [] {
      var n := |required| - 1;
      var front, k := required[..n], required[n];
      assert required == front + [k];
      ExpansionMember(ctx, front, a);
      ExpansionsSnoc(ctx, front, k);
      assert Expansion(ctx, k).missing == Some(k);
    }
  }

  lemma AttemptedKinds(ctx: Context, required: seq<Kind>, k: Kind)
    ensures Attempts(Expansions(ctx, required), k) <==> k in required && !ctx.HasEvidence(k)
  {
    var e := Expansions(ctx, required);
    if a :| a in e && Target(a) == Some(k) { ExpansionMember(ctx, required, a); }
    if k in required && !ctx.HasEvidence(k) {
      ExpansionMember(ctx, required, Expansion(ctx, k));
      assert Target(Expansion(ctx, k)) == Some(k);
    }
  }

  lemma ExpansionKeys(ctx: Context, required: seq<Kind>)
    ensures forall a :: a in Expansions(ctx, required) ==> KeyOf(a) == MISSING_KEY
    ensures !ctx.IsCritical() ==> forall a :: a in Expansions(ctx, required) ==> a.status != Blocked
  {
    forall a | a in Expansions(ctx, required)
      ensures KeyOf(a) == MISSING_KEY && (!ctx.IsCritical() ==> a.status != Blocked)
    {
      ExpansionMember(ctx, required, a);
    }
  }

  // ----- the missing entries -----

  /** The entries of the requirement list without evidence, in order: those of the first expansions, one a step. */
  function MissingOf(ctx: Context, required: seq<Kind>): seq<Kind> {
    if required == [] then []
    else
      var last := required[|required| - 1];
      MissingOf(ctx, required[..|required| - 1]) + if ctx.HasEvidence(last) then [] else [last]
  }

  function Missing(ctx: Context): seq<Kind> {
    MissingOf(ctx, ctx.required)
  }

  lemma {:induction false} MissingMembers(ctx: Context, required: seq<Kind>, k: Kind)
    ensures k in MissingOf(ctx, required) <==> k in required && !ctx.HasEvidence(k)
  {
    if required != [] {
      var n := |required| - 1;
      assert required == required[..n] + [required[n]];
      MissingMembers(ctx, required[..n], k);
    }
  }

  predicate Expand(ctx: Context, actions: seq<Action>, missing: seq<Kind>) {
    |actions| == |missing| && forall i :: 0 <= i < |actions| ==> actions[i] == Expansion(ctx, missing[i])
  }

  lemma {:induction false} ExpansionsInOrder(ctx: Context, required: seq<Kind>)
    ensures Expand(ctx, Expansions(ctx, required), MissingOf(ctx, required))
  {
    if required != [] {
      var n := |required| - 1;
      assert required == required[..n] + [required[n]];
      ExpansionsInOrder(ctx, required[..n]);
      ExpansionsSnoc(ctx, required[..n], required[n]);
    }
  }

  /** One of the first `n` expansions recovers the kind, at its own step. */
  predicate Taken(ctx: Context, replies: nat -> Reply, missing: seq<Kind>, n: nat, k: Kind)
    requires n <= |missing|
  {
    exists i :: 0 <= i < n && missing[i] == k && Gives(ctx, replies(i), k)
  }

  lemma RecoveredIsTaken(
    ctx: Context, replies: nat -> Reply, actions: seq<Action>, missing: seq<Kind>, n: nat, k: Kind)
    requires Expand(ctx, actions, missing) && n <= |missing|
    ensures Recovered(ctx, replies, actions[..n], k) <==> Taken(ctx, replies, missing, n, k)
  {
    forall i | 0 <= i < n ensures Target(actions[..n][i]) == Some(missing[i]) {}
    if Taken(ctx, replies, missing, n, k) {
      var i :| 0 <= i < n && missing[i] == k && Gives(ctx, replies(i), k);
      assert Target(actions[..n][i]) == Some(k);
    }
  }

  /** Steps that do not target the kind do not recover it. */
  lemma RecoveredAppend(ctx: Context, replies: nat -> Reply, front: seq<Action>, rest: seq<Action>, k: Kind)
    requires forall a :: a in rest ==> Target(a) != Some(k)
    ensures Recovered(ctx, replies, front + rest, k) <==> Recovered(ctx, replies, front, k)
  {
    var all := front + rest;
    if Recovered(ctx, replies, front, k) {
      var i :| 0 <= i < |front| && Target(front[i]) == Some(k) && Gives(ctx, replies(i), k);
      assert all[i] == front[i];
    }
    if Recovered(ctx, replies, all, k) {
      var i :| 0 <= i < |all| && Target(all[i]) == Some(k) && Gives(ctx, replies(i), k);
      if i < |front| { assert all[i] == front[i]; } else { assert all[i] in rest; }
    }
  }

  lemma AttemptsRecover(ctx: Context, replies: nat -> Reply, actions: seq<Action>, k: Kind)
    requires forall i: nat :: Gives(ctx, replies(i), k)
    ensures Recovered(ctx, replies, actions, k) <==> Attempts(actions, k)
  {
    if Attempts(actions, k) {
      var a :| a in actions && Target(a) == Some(k);
      var i :| 0 <= i < |actions| && actions[i] == a;
      assert Target(actions[i]) == Some(k) && Gives(ctx, replies(i), k);
    }
    if Recovered(ctx, replies, actions, k) {
      var i :| 0 <= i < |actions| && Target(actions[i]) == Some(k) && Gives(ctx, replies(i), k);
      assert actions[i] in actions;
    }
  }

  /** A blocked step for a missing kind at the end: its key sticks exactly when the kind is not given at that step
      or was recovered before. */
  lemma LastStepSticks(ctx: Context, replies: nat -> Reply, front: seq<Action>, a: Action, k: Kind, key: Key)
    requires a.status == Blocked && Target(a) == Some(k) && !ctx.HasEvidence(k)
    ensures Sticks(ctx, replies, front + [a], key) <==>
              if KeyOf(a) == key then !Gives(ctx, replies(|front|), k) || Recovered(ctx, replies, front, k)
              else Sticks(ctx, replies, front, key)
  {
    SticksSnoc(ctx, replies, front, a, key);
  }

  /** The last missing entry is not given at its step, or an earlier expansion took it. */
  predicate LastEntrySticks(ctx: Context, replies: nat -> Reply, missing: seq<Kind>) {
    missing != [] &&
    var n := |missing| - 1;
    !Gives(ctx, replies(n), missing[n]) || Taken(ctx, replies, missing, n, missing[n])
  }

  lemma ExpansionsStick(ctx: Context, replies: nat -> Reply)
    requires ctx.IsCritical()
    ensures Sticks(ctx, replies, Expansions(ctx, ctx.required), MISSING_KEY) <==>
              LastEntrySticks(ctx, replies, Missing(ctx))
  {
    var e, m := Expansions(ctx, ctx.required), Missing(ctx);
    ExpansionsInOrder(ctx, ctx.required);
    if m != [] {
      var n := |m| - 1;
      assert e == e[..n] + [e[n]];
      MissingMembers(ctx, ctx.required, m[n]);
      LastStepSticks(ctx, replies, e[..n], e[n], m[n], MISSING_KEY);
      RecoveredIsTaken(ctx, replies, e, m, n, m[n]);
    }
  }

  lemma {:induction false} OtherKeysDoNotStick(ctx: Context, replies: nat -> Reply, actions: seq<Action>, key: Key)
    requires forall a :: a in actions ==> KeyOf(a) != key
    ensures !Sticks(ctx, replies, actions, key)
  {
    if actions != [] { OtherKeysDoNotStick(ctx, replies, actions[..|actions| - 1], key); }
  }

  // ----- the opening and the dedicated steps -----

  lemma SchemaActions(ctx: Context)
    ensures Undedicated(ActionsFor(ctx, SchemaPart(ctx)))
  {
    UndedicatedActions(ctx, SchemaPart(ctx));
  }

  lemma OpeningAttempts(ctx: Context, k: Kind)
    ensures Attempts(Opening(ctx), k) <==> k in ctx.required && !ctx.HasEvidence(k)
    ensures forall a :: a in Opening(ctx) ==> KeyOf(a) !in {APPROVAL_KEY, ROLLBACK_KEY}
  {
    SchemaActions(ctx);
    MiddleActions(ctx);
    AttemptedKinds(ctx, ctx.required, k);
    ExpansionKeys(ctx, ctx.required);
    var e := Expansions(ctx, ctx.required);
    assert forall a :: a in Opening(ctx) <==>
      a in ActionsFor(ctx, SchemaPart(ctx)) || a in e || a in ActionsFor(ctx, MiddlePart(ctx, RouteOf(ctx)));
    assert Attempts(Opening(ctx), k) <==> Attempts(e, k);
  }

  function ApprovalStep(ctx: Context): Action {
    ActionFor(ctx, Finding(HumanApprovalRequired, Fail, None))
  }

  function RollbackStep(ctx: Context): Action {
    ActionFor(ctx, Finding(CriticalActionWithoutRollbackPlan, Fail, None))
  }

  function ApprovalSteps(ctx: Context): seq<Action> {
    if ApprovalMissing(ctx) then [ApprovalStep(ctx)] else []
  }

  function RollbackSteps(ctx: Context): seq<Action> {
    if RollbackMissing(ctx) then [RollbackStep(ctx)] else []
  }

  /** The first round without a missing plan. */
  lemma FirstActionsInOrder(ctx: Context)
    requires !PlanMissing(ctx)
    ensures FirstActions(ctx) == Opening(ctx) + ApprovalSteps(ctx) + RollbackSteps(ctx)
  {
    FirstActionsParts(ctx);
    if ApprovalMissing(ctx) { SingleAction(ctx, Finding(HumanApprovalRequired, Fail, None)); }
    if RollbackMissing(ctx) { SingleAction(ctx, Finding(CriticalActionWithoutRollbackPlan, Fail, None)); }
  }

  /** The approval step sticks exactly when approval is not on record or was attempted before. */
  lemma ApprovalSticks(ctx: Context, replies: nat -> Reply, front: seq<Action>, key: Key)
    ensures Sticks(ctx, replies, front + ApprovalSteps(ctx), key) <==>
              if ApprovalMissing(ctx) && key == APPROVAL_KEY
              then !ctx.metadata.humanApproved || Attempts(front, HumanApproval)
              else Sticks(ctx, replies, front, key)
  {
    if ApprovalMissing(ctx) {
      LastStepSticks(ctx, replies, front, ApprovalStep(ctx), HumanApproval, key);
      if ctx.metadata.humanApproved { AttemptsRecover(ctx, replies, front, HumanApproval); }
    } else {
      assert front + ApprovalSteps(ctx) == front;
    }
  }

  /** The rollback step sticks exactly when there is no checkpoint at that step or a plan was recovered before. */
  lemma RollbackSticks(ctx: Context, replies: nat -> Reply, front: seq<Action>, key: Key)
    ensures Sticks(ctx, replies, front + RollbackSteps(ctx), key) <==>
              if RollbackMissing(ctx) && key == ROLLBACK_KEY
              then !Gives(ctx, replies(|front|), RollbackPlan) || Recovered(ctx, replies, front, RollbackPlan)
              else Sticks(ctx, replies, front, key)
  {
    if RollbackMissing(ctx) {
      LastStepSticks(ctx, replies, front, RollbackStep(ctx), RollbackPlan, key);
    } else {
      assert front + RollbackSteps(ctx) == front;
    }
  }

  lemma OpeningRecovers(ctx: Context, replies: nat -> Reply, k: Kind)
    requires SchemaPart(ctx) == []
    ensures Recovered(ctx, replies, Opening(ctx), k) <==> Taken(ctx, replies, Missing(ctx), |Missing(ctx)|, k)
  {
    var e, m := Expansions(ctx, ctx.required), ActionsFor(ctx, MiddlePart(ctx, RouteOf(ctx)));
    assert Opening(ctx) == e + m;
    MiddleActions(ctx);
    RecoveredAppend(ctx, replies, e, m, k);
    ExpansionsInOrder(ctx, ctx.required);
    RecoveredIsTaken(ctx, replies, e, Missing(ctx), |e|, k);
    assert e[..|e|] == e;
  }

  /** The index of the last step of the first round, which is the rollback step when there is one. */
  function LastStep(ctx: Context): nat {
    if FirstActions(ctx) == [] then 0 else |FirstActions(ctx)| - 1
  }

  lemma RollbackIsLastStep(ctx: Context)
    requires !PlanMissing(ctx) && RollbackMissing(ctx)
    ensures |Opening(ctx) + ApprovalSteps(ctx)| == LastStep(ctx)
  {
    FirstActionsInOrder(ctx);
  }

  lemma ApprovalIsNoPlan(ctx: Context)
    ensures forall a :: a in ApprovalSteps(ctx) ==> Target(a) != Some(RollbackPlan)
  {
  }

  // ----- critical operations -----

  /** In an admissible critical context nothing before the dedicated steps is blocked but the expansions. */
  lemma MiddleIsQuiet(ctx: Context, f: Finding)
    requires ctx.IsCritical() && Admissible(ctx) && f in MiddlePart(ctx, RouteOf(ctx))
    ensures !Blocks(ctx, f)
  {
    CausalFindingsMembers(ctx, ctx.assumptions);
    MiddleMembers(ctx, RouteOf(ctx), f);
  }

  lemma UnblockedActions(ctx: Context, findings: seq<Finding>)
    requires forall f :: f in findings ==> !Blocks(ctx, f)
    ensures forall a :: a in ActionsFor(ctx, findings) ==> a.status != Blocked
  {
    ActionsMembers(ctx, findings);
    forall a | a in ActionsFor(ctx, findings) ensures a.status != Blocked {
      var f :| f in findings && f.status != Pass && a == ActionFor(ctx, f);
    }
  }

  lemma OpeningOfAdmissible(ctx: Context)
    requires ctx.IsCritical() && Admissible(ctx)
    ensures Opening(ctx) == Expansions(ctx, ctx.required) + ActionsFor(ctx, MiddlePart(ctx, RouteOf(ctx)))
  {
    NamedSchema(ctx);
    var e, m := Expansions(ctx, ctx.required), ActionsFor(ctx, MiddlePart(ctx, RouteOf(ctx)));
    assert [] + e == e;
  }

  lemma NamedSchema(ctx: Context)
    requires ctx.operationId != "" && ctx.userIntent != ""
    ensures ActionsFor(ctx, SchemaPart(ctx)) == []
  {
  }

  lemma MiddleUnblocked(ctx: Context)
    requires ctx.IsCritical() && Admissible(ctx)
    ensures forall a :: a in ActionsFor(ctx, MiddlePart(ctx, RouteOf(ctx))) ==> a.status != Blocked
  {
    forall f | f in MiddlePart(ctx, RouteOf(ctx)) ensures !Blocks(ctx, f) { MiddleIsQuiet(ctx, f); }
    UnblockedActions(ctx, MiddlePart(ctx, RouteOf(ctx)));
  }

  lemma OpeningSticks(ctx: Context, replies: nat -> Reply, key: Key)
    requires ctx.IsCritical() && Admissible(ctx)
    ensures Sticks(ctx, replies, Opening(ctx), key) ==>
              key == MISSING_KEY && Sticks(ctx, replies, Expansions(ctx, ctx.required), key)
    ensures Sticks(ctx, replies, Expansions(ctx, ctx.required), MISSING_KEY) ==>
              Sticks(ctx, replies, Opening(ctx), MISSING_KEY)
  {
    var e, m := Expansions(ctx, ctx.required), ActionsFor(ctx, MiddlePart(ctx, RouteOf(ctx)));
    OpeningOfAdmissible(ctx);
    MiddleActions(ctx);
    MiddleUnblocked(ctx);
    SticksAppend(ctx, replies, e, m, key);
    SticksAppend(ctx, replies, e, m, MISSING_KEY);
    ExpansionKeys(ctx, ctx.required);
    if key != MISSING_KEY { OtherKeysDoNotStick(ctx, replies, e, key); }
  }

  /** No checkpoint at the rollback step, or an expansion took the plan before. */
  predicate RollbackStepLate(ctx: Context, replies: nat -> Reply) {
    !Gives(ctx, replies(LastStep(ctx)), RollbackPlan)
    || Taken(ctx, replies, Missing(ctx), |Missing(ctx)|, RollbackPlan)
  }

  lemma RollbackKey(ctx: Context, replies: nat -> Reply)
    requires ctx.IsCritical() && Admissible(ctx) && RollbackMissing(ctx)
    ensures var front := Opening(ctx) + ApprovalSteps(ctx);
            !Gives(ctx, replies(|front|), RollbackPlan) || Recovered(ctx, replies, front, RollbackPlan)
            <==> RollbackStepLate(ctx, replies)
  {
    RollbackIsLastStep(ctx);
    ApprovalIsNoPlan(ctx);
    RecoveredAppend(ctx, replies, Opening(ctx), ApprovalSteps(ctx), RollbackPlan);
    OpeningRecovers(ctx, replies, RollbackPlan);
  }

  /** In an admissible critical context only three keys can stick, each by the reply at its own step. */
  lemma CriticalKey(ctx: Context, replies: nat -> Reply, key: Key)
    requires ctx.IsCritical() && Admissible(ctx)
    ensures Sticks(ctx, replies, FirstActions(ctx), key) <==>
              || (key == APPROVAL_KEY && ApprovalMissing(ctx) && HumanApproval in Missing(ctx))
              || (key == ROLLBACK_KEY && RollbackMissing(ctx) && RollbackStepLate(ctx, replies))
              || (key == MISSING_KEY && LastEntrySticks(ctx, replies, Missing(ctx)))
  {
    var opening := Opening(ctx);
    FirstActionsInOrder(ctx);
    ExpansionsStick(ctx, replies);
    OpeningSticks(ctx, replies, key);
    OpeningAttempts(ctx, HumanApproval);
    MissingMembers(ctx, ctx.required, HumanApproval);
    ApprovalSticks(ctx, replies, opening, key);
    RollbackSticks(ctx, replies, opening + ApprovalSteps(ctx), key);
    if RollbackMissing(ctx) { RollbackKey(ctx, replies); }
  }

  /** For stores that may answer differently at every step: in an admissible critical context some step stays blocked
      exactly when its evidence is not to be had at that step or was recovered by an earlier one. */
  lemma CriticalStuck(ctx: Context, replies: nat -> Reply)
    requires ctx.IsCritical() && Admissible(ctx) && FreshIds(ctx, replies)
    ensures Stuck(ctx, replies) <==>
              || LastEntrySticks(ctx, replies, Missing(ctx))
              || (ApprovalMissing(ctx) && HumanApproval in Missing(ctx))
              || (RollbackMissing(ctx) && RollbackStepLate(ctx, replies))
  {
    CriticalKey(ctx, replies, MISSING_KEY);
    CriticalKey(ctx, replies, APPROVAL_KEY);
    CriticalKey(ctx, replies, ROLLBACK_KEY);
    if Stuck(ctx, replies) {
      var key := StuckKey(ctx, replies);
      CriticalKey(ctx, replies, key);
    } else {
      NothingSticks(ctx, replies);
    }
  }

  ghost predicate NoKeySticks(ctx: Context, replies: nat -> Reply) {
    forall key :: !Sticks(ctx, replies, FirstActions(ctx), key)
  }

  lemma StuckByKeys(ctx: Context, replies: nat -> Reply)
    requires FreshIds(ctx, replies)
    ensures Stuck(ctx, replies) <==> !NoKeySticks(ctx, replies)
  {
    if Stuck(ctx, replies) {
      var key := StuckKey(ctx, replies);
    } else {
      NothingSticks(ctx, replies);
    }
  }

  lemma NothingSticks(ctx: Context, replies: nat -> Reply)
    requires FreshIds(ctx, replies) && !Stuck(ctx, replies)
    ensures NoKeySticks(ctx, replies)
  {
    forall key ensures !Sticks(ctx, replies, FirstActions(ctx), key) {
      if Sticks(ctx, replies, FirstActions(ctx), key) { KeyMakesStuck(ctx, replies, key); }
    }
  }

  lemma StuckKey(ctx: Context, replies: nat -> Reply) returns (key: Key)
    requires FreshIds(ctx, replies) && Stuck(ctx, replies)
    ensures Sticks(ctx, replies, FirstActions(ctx), key)
  {
    key :| StaysBlocked(FirstExecuted(ctx, replies), key);
    FirstActionsNeverDegrade(ctx);
    SticksMeaning(ctx, FirstActions(ctx), replies, key);
  }

  lemma KeyMakesStuck(ctx: Context, replies: nat -> Reply, key: Key)
    requires FreshIds(ctx, replies) && Sticks(ctx, replies, FirstActions(ctx), key)
    ensures Stuck(ctx, replies)
  {
    FirstActionsNeverDegrade(ctx);
    SticksMeaning(ctx, FirstActions(ctx), replies, key);
    assert StaysBlocked(FirstExecuted(ctx, replies), key);
  }

  lemma AttemptsArrive(ctx: Context, actions: seq<Action>, replies: nat -> Reply, k: Kind)
    requires FreshIds(ctx, replies) && Plain(actions) && Attempts(actions, k)
    requires forall i: nat :: Gives(ctx, replies(i), k)
    ensures ExecuteAll(ctx, actions, replies).0.HasEvidence(k)
  {
    assert Gives(ctx, replies(0), k);
    KindsAfter(ctx, actions, replies, k);
    AttemptsRecover(ctx, replies, actions, k);
  }

  /** The missing kinds that the first round targets. */
  predicate Targeted(ctx: Context, k: Kind) {
    k in ctx.required || (ApprovalMissing(ctx) && k == HumanApproval) || (RollbackMissing(ctx) && k == RollbackPlan)
  }

  lemma SingleAttempt(a: Action, k: Kind)
    ensures Attempts([a], k) <==> Target(a) == Some(k)
  {
    assert a in [a];
  }

  lemma DedicatedAttempts(ctx: Context, k: Kind)
    ensures Attempts(ApprovalSteps(ctx), k) <==> ApprovalMissing(ctx) && k == HumanApproval
    ensures Attempts(RollbackSteps(ctx), k) <==> RollbackMissing(ctx) && k == RollbackPlan
  {
    SingleAttempt(ApprovalStep(ctx), k);
    SingleAttempt(RollbackStep(ctx), k);
  }

  lemma TargetsAttempted(ctx: Context, k: Kind)
    requires !PlanMissing(ctx) && !ctx.HasEvidence(k) && Targeted(ctx, k)
    ensures Attempts(FirstActions(ctx), k)
  {
    var opening := Opening(ctx);
    FirstActionsInOrder(ctx);
    OpeningAttempts(ctx, k);
    DedicatedAttempts(ctx, k);
    PartsAttempt(opening, ApprovalSteps(ctx), RollbackSteps(ctx), k);
  }

  lemma TargetsArrive(ctx: Context, replies: nat -> Reply, k: Kind)
    requires FreshIds(ctx, replies) && !PlanMissing(ctx) && !ctx.HasEvidence(k) && Targeted(ctx, k)
    requires forall i: nat :: Gives(ctx, replies(i), k)
    ensures FinalContext(ctx, replies).HasEvidence(k)
  {
    FirstActionsNeverDegrade(ctx);
    TargetsAttempted(ctx, k);
    AttemptsArrive(ctx, FirstActions(ctx), replies, k);
  }

  lemma PartsAttempt(a: seq<Action>, b: seq<Action>, c: seq<Action>, k: Kind)
    ensures Attempts(a + b + c, k) <==> Attempts(a, k) || Attempts(b, k) || Attempts(c, k)
  {
    assert forall x :: x in a + b + c <==> x in a || x in b || x in c;
  }

  lemma FinalExtends(ctx: Context, replies: nat -> Reply)
    ensures Extends(ctx, FinalContext(ctx, replies))
  {
    FirstActionsNeverDegrade(ctx);
    ExecuteAllExtends(ctx, FirstActions(ctx), replies);
  }

  lemma AdmissibleIsCleared(ctx: Context, final: Context)
    requires Admissible(ctx) && Extends(ctx, final) && final.HasConflict() == ctx.HasConflict()
    requires forall k :: k in ctx.required ==> final.HasEvidence(k)
    requires ctx.HasEvidence(ValidatedPlan) ==> final.HasEvidence(ValidatedPlan)
    requires ApprovalDemanded(ctx) ==> final.HasEvidence(HumanApproval)
    requires RollbackDue(ctx, ctx.agentPolicy.value) ==> final.HasEvidence(RollbackPlan)
    ensures Cleared(final)
  {
    assert SomeUnsupported(final) <==> SomeUnsupported(ctx);
  }

  predicate Arrives(ctx: Context, replies: nat -> Reply, k: Kind) {
    ctx.HasEvidence(k) || Recovered(ctx, replies, FirstActions(ctx), k)
  }

  /** Everything that a critical operation asks for is there, or some step of the first round recovers it. */
  predicate EverythingArrives(ctx: Context, replies: nat -> Reply) {
    && (forall k :: k in ctx.required ==> Arrives(ctx, replies, k))
    && (RollbackMissing(ctx) ==> Recovered(ctx, replies, FirstActions(ctx), RollbackPlan))
    && (ApprovalMissing(ctx) ==> Recovered(ctx, replies, FirstActions(ctx), HumanApproval))
  }

  lemma ArrivesExactly(ctx: Context, replies: nat -> Reply, k: Kind)
    requires FreshIds(ctx, replies) && k != ExecutionPlan
    ensures FinalContext(ctx, replies).HasEvidence(k) <==> Arrives(ctx, replies, k)
  {
    FirstActionsNeverDegrade(ctx);
    KindsAfter(ctx, FirstActions(ctx), replies, k);
  }

  lemma RequiredArrives(ctx: Context, replies: nat -> Reply, k: Kind)
    requires FreshIds(ctx, replies) && Admissible(ctx) && k in ctx.required
    ensures FinalContext(ctx, replies).HasEvidence(k) <==> Arrives(ctx, replies, k)
  {
    if k == ExecutionPlan {
      assert Obtainable(ctx, k);
      FinalExtends(ctx, replies);
      ExtendsEvidence(ctx, FinalContext(ctx, replies), k);
    } else {
      ArrivesExactly(ctx, replies, k);
    }
  }

  lemma ClearedExactly(ctx: Context, replies: nat -> Reply)
    requires FreshIds(ctx, replies) && Admissible(ctx)
    ensures Cleared(FinalContext(ctx, replies)) <==> EverythingArrives(ctx, replies)
  {
    var final := FinalContext(ctx, replies);
    FinalExtends(ctx, replies);
    forall k | k in ctx.required ensures final.HasEvidence(k) <==> Arrives(ctx, replies, k) {
      RequiredArrives(ctx, replies, k);
    }
    ArrivesExactly(ctx, replies, RollbackPlan);
    ArrivesExactly(ctx, replies, HumanApproval);
    ExtendsEvidence(ctx, final, ValidatedPlan);
    if EverythingArrives(ctx, replies) { AdmissibleIsCleared(ctx, final); }
  }

  lemma FinalDecision(ctx: Context, replies: nat -> Reply)
    requires ctx.IsCritical()
    ensures EvaluationOf(ctx, replies).decision != Block <==>
              Cleared(FinalContext(ctx, replies)) && !Stuck(ctx, replies)
  {
    CriticalDecision(ctx, replies);
    EvaluationParts(ctx, replies);
  }

  /** For stores that may answer differently at every step: a critical operation goes through exactly when it is
      admissible, everything it asks for is there or is recovered, and no key sticks. */
  lemma CriticalByKeys(ctx: Context, replies: nat -> Reply)
    requires ctx.IsCritical() && FreshIds(ctx, replies)
    ensures EvaluationOf(ctx, replies).decision != Block <==>
              Admissible(ctx) && EverythingArrives(ctx, replies) && NoKeySticks(ctx, replies)
  {
    FinalDecision(ctx, replies);
    StuckByKeys(ctx, replies);
    if Admissible(ctx) {
      ClearedExactly(ctx, replies);
    } else {
      InadmissibleIsBlocked(ctx, replies);
    }
  }

  /** What the replies must be, step by step, for an admissible critical context: every missing entry is given at one
      of its steps, the last one at the last of them and not before, approval is not asked for twice, and the rollback
      step finds a checkpoint and no plan recovered before. */
  predicate Scheduled(ctx: Context, replies: nat -> Reply) {
    var m := Missing(ctx);
    && (forall k :: k in m ==> Taken(ctx, replies, m, |m|, k) || (k == RollbackPlan && RollbackMissing(ctx)))
    && !LastEntrySticks(ctx, replies, m)
    && (ApprovalMissing(ctx) ==> HumanApproval !in m)
    && (RollbackMissing(ctx) ==> !RollbackStepLate(ctx, replies))
  }

  lemma ApprovalRecovers(ctx: Context, replies: nat -> Reply, front: seq<Action>, k: Kind)
    ensures Recovered(ctx, replies, front + ApprovalSteps(ctx), k) <==>
              || Recovered(ctx, replies, front, k)
              || (ApprovalMissing(ctx) && k == HumanApproval && ctx.metadata.humanApproved)
  {
    if ApprovalMissing(ctx) {
      RecoveredSnoc(ctx, replies, front, ApprovalStep(ctx), k);
    } else {
      assert front + ApprovalSteps(ctx) == front;
    }
  }

  lemma RollbackRecovers(ctx: Context, replies: nat -> Reply, front: seq<Action>, k: Kind)
    ensures Recovered(ctx, replies, front + RollbackSteps(ctx), k) <==>
              || Recovered(ctx, replies, front, k)
              || (RollbackMissing(ctx) && k == RollbackPlan && Gives(ctx, replies(|front|), RollbackPlan))
  {
    if RollbackMissing(ctx) {
      RecoveredSnoc(ctx, replies, front, RollbackStep(ctx), k);
    } else {
      assert front + RollbackSteps(ctx) == front;
    }
  }

  lemma RecoveredBy(ctx: Context, replies: nat -> Reply, k: Kind)
    requires ctx.IsCritical() && Admissible(ctx)
    ensures Recovered(ctx, replies, FirstActions(ctx), k) <==>
              || Taken(ctx, replies, Missing(ctx), |Missing(ctx)|, k)
              || (k == HumanApproval && ApprovalMissing(ctx))
              || (k == RollbackPlan && RollbackMissing(ctx) && Gives(ctx, replies(LastStep(ctx)), RollbackPlan))
  {
    var opening := Opening(ctx);
    FirstActionsInOrder(ctx);
    OpeningRecovers(ctx, replies, k);
    ApprovalRecovers(ctx, replies, opening, k);
    RollbackRecovers(ctx, replies, opening + ApprovalSteps(ctx), k);
    if RollbackMissing(ctx) { RollbackIsLastStep(ctx); }
  }

  lemma ScheduledExactly(ctx: Context, replies: nat -> Reply)
    requires ctx.IsCritical() && Admissible(ctx)
    ensures EverythingArrives(ctx, replies) && NoKeySticks(ctx, replies) <==> Scheduled(ctx, replies)
  {
    CriticalKey(ctx, replies, MISSING_KEY);
    CriticalKey(ctx, replies, APPROVAL_KEY);
    CriticalKey(ctx, replies, ROLLBACK_KEY);
    RecoveredBy(ctx, replies, RollbackPlan);
    RecoveredBy(ctx, replies, HumanApproval);
    if Scheduled(ctx, replies) {
      forall key ensures !Sticks(ctx, replies, FirstActions(ctx), key) { CriticalKey(ctx, replies, key); }
      forall k | k in ctx.required ensures Arrives(ctx, replies, k) {
        MissingMembers(ctx, ctx.required, k);
        RecoveredBy(ctx, replies, k);
      }
    } else if EverythingArrives(ctx, replies) {
      forall k | k in Missing(ctx) ensures Arrives(ctx, replies, k) && !ctx.HasEvidence(k) {
        MissingMembers(ctx, ctx.required, k);
      }
      forall k | k in Missing(ctx)
        ensures || Taken(ctx, replies, Missing(ctx), |Missing(ctx)|, k)
                || (k == HumanApproval && ApprovalMissing(ctx)) || (k == RollbackPlan && RollbackMissing(ctx))
      {
        RecoveredBy(ctx, replies, k);
      }
    }
  }

  /** With fresh identifiers and stores that may answer differently at every step, a critical operation goes through
      exactly when it is admissible and the replies come on schedule. */
  lemma CriticalExactly(ctx: Context, replies: nat -> Reply)
    requires ctx.IsCritical() && FreshIds(ctx, replies)
    ensures EvaluationOf(ctx, replies).decision != Block <==> Admissible(ctx) && Scheduled(ctx, replies)
  {
    CriticalByKeys(ctx, replies);
    if Admissible(ctx) { ScheduledExactly(ctx, replies); }
  }

  // ----- stores that do not change meanwhile -----

  /** What a store holds does not change during the evaluation. */
  ghost predicate Steady(ctx: Context, replies: nat -> Reply) {
    forall i: nat, k :: Gives(ctx, replies(i), k) == Gives(ctx, replies(0), k)
  }

  /** Admissible, and the stores hold what is missing. */
  predicate Workable(ctx: Context, r: Reply) {
    && Admissible(ctx)
    && (forall k :: k in Missing(ctx) ==> Gives(ctx, r, k))
    && (RollbackMissing(ctx) ==> Gives(ctx, r, RollbackPlan))
  }

  /** The last missing entry of the requirement list occurs in it before. */
  predicate LastMissingRepeats(ctx: Context) {
    var m := Missing(ctx);
    m != [] && m[|m| - 1] in m[..|m| - 1]
  }

  /** Evidence that two steps are to recover: the second finds nothing left and keeps its block. */
  predicate Deadlocked(ctx: Context) {
    || LastMissingRepeats(ctx)
    || (RollbackMissing(ctx) && RollbackPlan in ctx.required)
    || (ApprovalMissing(ctx) && HumanApproval in ctx.required)
  }

  lemma SteadyTaken(ctx: Context, replies: nat -> Reply, m: seq<Kind>, n: nat, k: Kind)
    requires Steady(ctx, replies) && n <= |m|
    ensures Taken(ctx, replies, m, n, k) <==> k in m[..n] && Gives(ctx, replies(0), k)
  {
    if k in m[..n] && Gives(ctx, replies(0), k) {
      var i :| 0 <= i < n && m[i] == k;
      assert Gives(ctx, replies(i), k);
    }
  }

  lemma SteadyLast(ctx: Context, replies: nat -> Reply, m: seq<Kind>)
    requires Steady(ctx, replies)
    ensures LastEntrySticks(ctx, replies, m) <==>
              m != [] && (!Gives(ctx, replies(0), m[|m| - 1]) || m[|m| - 1] in m[..|m| - 1])
  {
    if m != [] { SteadyTaken(ctx, replies, m, |m| - 1, m[|m| - 1]); }
  }

  lemma SteadyEntries(ctx: Context, replies: nat -> Reply, m: seq<Kind>, planned: bool)
    requires Steady(ctx, replies)
    ensures (forall k :: k in m ==> Taken(ctx, replies, m, |m|, k) || (k == RollbackPlan && planned))
            <==> forall k :: k in m ==> Gives(ctx, replies(0), k) || (k == RollbackPlan && planned)
  {
    assert m[..|m|] == m;
    forall k | k in m ensures Taken(ctx, replies, m, |m|, k) <==> Gives(ctx, replies(0), k) {
      SteadyTaken(ctx, replies, m, |m|, k);
    }
  }

  lemma SteadyRollback(ctx: Context, replies: nat -> Reply)
    requires Steady(ctx, replies)
    ensures RollbackStepLate(ctx, replies) <==> !Gives(ctx, replies(0), RollbackPlan) || RollbackPlan in Missing(ctx)
  {
    var m := Missing(ctx);
    assert m[..|m|] == m;
    SteadyTaken(ctx, replies, m, |m|, RollbackPlan);
    assert Gives(ctx, replies(LastStep(ctx)), RollbackPlan) == Gives(ctx, replies(0), RollbackPlan);
  }

  lemma SteadySchedule(ctx: Context, replies: nat -> Reply)
    requires Steady(ctx, replies) && Admissible(ctx)
    ensures Scheduled(ctx, replies) <==> Workable(ctx, replies(0)) && !Deadlocked(ctx)
  {
    SteadyEntries(ctx, replies, Missing(ctx), RollbackMissing(ctx));
    SteadyLast(ctx, replies, Missing(ctx));
    if RollbackMissing(ctx) { SteadyRollback(ctx, replies); }
    MissingMembers(ctx, ctx.required, RollbackPlan);
    MissingMembers(ctx, ctx.required, HumanApproval);
  }

  /** With stores that do not change meanwhile, a critical operation goes through exactly when it is admissible, the
      stores hold what is missing, and no two steps are to recover the same evidence. */
  lemma CriticalWithSteadyStores(ctx: Context, replies: nat -> Reply)
    requires ctx.IsCritical() && FreshIds(ctx, replies) && Steady(ctx, replies)
    ensures EvaluationOf(ctx, replies).decision != Block <==> Workable(ctx, replies(0)) && !Deadlocked(ctx)
  {
    CriticalExactly(ctx, replies);
    if Admissible(ctx) { SteadySchedule(ctx, replies); }
  }

  /** The stores answer everything, for a known run and scenario. */
  ghost predicate Answering(ctx: Context, replies: nat -> Reply) {
    && ctx.runId != "" && ctx.scenario != ""
    && forall i: nat :: var r := replies(i);
         r.memory.Some? && r.signature.Some? && r.checkpoint.Some? && r.checkpoint.value.healthy
  }

  lemma AnsweringHoldsAll(ctx: Context, replies: nat -> Reply)
    requires Answering(ctx, replies) && Admissible(ctx)
    ensures Steady(ctx, replies) && Workable(ctx, replies(0))
  {
    forall k | k in Missing(ctx) ensures Gives(ctx, replies(0), k) {
      MissingMembers(ctx, ctx.required, k);
      assert Obtainable(ctx, k);
    }
  }

  /** Stores that answer everything leave admissibility and the deadlocks to decide. */
  lemma CriticalWithAnsweringStores(ctx: Context, replies: nat -> Reply)
    requires ctx.IsCritical() && FreshIds(ctx, replies) && Answering(ctx, replies)
    ensures EvaluationOf(ctx, replies).decision != Block <==> Admissible(ctx) && !Deadlocked(ctx)
  {
    if Admissible(ctx) {
      AnsweringHoldsAll(ctx, replies);
      CriticalWithSteadyStores(ctx, replies);
    } else {
      InadmissibleIsBlocked(ctx, replies);
    }
  }

  // ----- other operations -----

  lemma MiddleIsSoft(ctx: Context, f: Finding)
    requires !ctx.IsCritical() && !FirmStop(ctx) && f in MiddlePart(ctx, RouteOf(ctx))
    ensures !Blocks(ctx, f)
  {
    CausalFindingsMembers(ctx, ctx.assumptions);
    MiddleMembers(ctx, RouteOf(ctx), f);
  }

  lemma OpeningIsSoft(ctx: Context)
    requires !ctx.IsCritical() && !FirmStop(ctx)
    ensures forall a :: a in Opening(ctx) ==> a.status != Blocked
  {
    forall f | f in MiddlePart(ctx, RouteOf(ctx)) ensures !Blocks(ctx, f) { MiddleIsSoft(ctx, f); }
    UnblockedActions(ctx, MiddlePart(ctx, RouteOf(ctx)));
    UnblockedActions(ctx, SchemaPart(ctx));
    ExpansionKeys(ctx, ctx.required);
  }

  lemma {:induction false} UnblockedDoNotStick(ctx: Context, replies: nat -> Reply, actions: seq<Action>, key: Key)
    requires forall a :: a in actions ==> a.status != Blocked
    ensures !Sticks(ctx, replies, actions, key)
  {
    if actions != [] { UnblockedDoNotStick(ctx, replies, actions[..|actions| - 1], key); }
  }

  lemma SoftKey(ctx: Context, replies: nat -> Reply, key: Key)
    requires !ctx.IsCritical() && !FirmStop(ctx)
    ensures Sticks(ctx, replies, FirstActions(ctx), key) <==>
              key == APPROVAL_KEY && ApprovalMissing(ctx)
              && (!ctx.metadata.humanApproved || HumanApproval in ctx.required)
  {
    FirstActionsInOrder(ctx);
    assert Opening(ctx) + ApprovalSteps(ctx) + RollbackSteps(ctx) == Opening(ctx) + ApprovalSteps(ctx);
    ApprovalSticks(ctx, replies, Opening(ctx), key);
    OpeningAttempts(ctx, HumanApproval);
    OpeningIsSoft(ctx);
    UnblockedDoNotStick(ctx, replies, Opening(ctx), key);
  }

  lemma SoftStuck(ctx: Context, replies: nat -> Reply)
    requires !ctx.IsCritical() && !FirmStop(ctx) && FreshIds(ctx, replies)
    ensures Stuck(ctx, replies) <==>
              ApprovalMissing(ctx) && (!ctx.metadata.humanApproved || HumanApproval in ctx.required)
  {
    SoftKey(ctx, replies, APPROVAL_KEY);
    if Stuck(ctx, replies) {
      var key := StuckKey(ctx, replies);
      SoftKey(ctx, replies, key);
    } else if Sticks(ctx, replies, FirstActions(ctx), APPROVAL_KEY) {
      KeyMakesStuck(ctx, replies, APPROVAL_KEY);
    }
  }

  lemma StopsStay(ctx: Context, final: Context)
    requires Extends(ctx, final)
    ensures FirmStop(final) <==> FirmStop(ctx)
    ensures ApprovalDemanded(final) <==> ApprovalDemanded(ctx)
    ensures ctx.HasEvidence(HumanApproval) ==> final.HasEvidence(HumanApproval)
  {
    ExtendsEvidence(ctx, final, HumanApproval);
  }

  lemma SoftDecision(ctx: Context, replies: nat -> Reply)
    requires !ctx.IsCritical()
    ensures EvaluationOf(ctx, replies).decision == Block <==>
              HardStop(FinalContext(ctx, replies)) || Stuck(ctx, replies)
  {
    NonCriticalDecision(ctx, replies);
    EvaluationParts(ctx, replies);
  }

  lemma SoftHardStop(ctx: Context, replies: nat -> Reply)
    requires !ctx.IsCritical() && FreshIds(ctx, replies) && !FirmStop(ctx)
    requires ApprovalMissing(ctx) ==> ctx.metadata.humanApproved
    ensures !HardStop(FinalContext(ctx, replies))
  {
    if ApprovalMissing(ctx) { TargetsArrive(ctx, replies, HumanApproval); }
    FinalExtends(ctx, replies);
    StopsStay(ctx, FinalContext(ctx, replies));
  }

  /** With fresh identifiers and whatever the stores answer, an operation that is not critical is blocked exactly by a
      firm stop, or by a demanded approval that is missing and is not on record or is listed as evidence too. */
  lemma NonCriticalExactly(ctx: Context, replies: nat -> Reply)
    requires !ctx.IsCritical() && FreshIds(ctx, replies)
    ensures EvaluationOf(ctx, replies).decision == Block <==>
              || FirmStop(ctx)
              || (ApprovalMissing(ctx) && (!ctx.metadata.humanApproved || HumanApproval in ctx.required))
  {
    SoftDecision(ctx, replies);
    if FirmStop(ctx) {
      FinalExtends(ctx, replies);
      StopsStay(ctx, FinalContext(ctx, replies));
    } else {
      SoftStuck(ctx, replies);
      if ApprovalMissing(ctx) ==> ctx.metadata.humanApproved { SoftHardStop(ctx, replies); }
    }
  }

  /** Degrading, as a condition on the initial context. */
  lemma DegradesFromTheStart(ctx: Context, replies: nat -> Reply)
    requires FreshIds(ctx, replies)
    ensures EvaluationOf(ctx, replies).decision == Degrade <==>
              && !ctx.IsCritical() && SoftFailure(ctx) && !FirmStop(ctx)
              && !(ApprovalMissing(ctx) && (!ctx.metadata.humanApproved || HumanApproval in ctx.required))
  {
    DegradesExactly(ctx, replies);
    if !ctx.IsCritical() { NonCriticalExactly(ctx, replies); }
  }

  // ----- the rollback plan -----

  /** Identifiers are fresh, the checkpoint store always has a checkpoint, and the run is known. */
  ghost predicate CheckpointAlways(ctx: Context, replies: nat -> Reply) {
    FreshIds(ctx, replies) && ctx.runId != "" && forall i: nat :: replies(i).checkpoint.Some?
  }

  lemma RollbackComesLast(ctx: Context) returns (front: seq<Action>)
    requires RollbackMissing(ctx)
    ensures FirstActions(ctx) == front + [RollbackStep(ctx)] && Plain(front + [RollbackStep(ctx)])
    ensures RollbackPlan in ctx.required ==> Attempts(front, RollbackPlan)
  {
    var o, a, p := Opening(ctx), ActionsFor(ctx, ApprovalPart(ctx)), ActionsFor(ctx, PlanPart(ctx));
    front := o + a + p;
    FirstActionsParts(ctx);
    SingleAction(ctx, Finding(CriticalActionWithoutRollbackPlan, Fail, None));
    OpeningAttempts(ctx, RollbackPlan);
    PartsAttempt(o, a, p, RollbackPlan);
    FirstActionsNeverDegrade(ctx);
  }

  lemma CheckpointsGivePlans(ctx: Context, replies: nat -> Reply)
    requires CheckpointAlways(ctx, replies)
    ensures forall i: nat :: Gives(ctx, replies(i), RollbackPlan)
  {
  }

  lemma RollbackStepIs(ctx: Context)
    requires ctx.IsCritical()
    ensures RollbackStep(ctx).status == Blocked && Target(RollbackStep(ctx)) == Some(RollbackPlan)
  {
  }

  /** A final, blocked step for a kind that was recovered before it stays blocked. */
  lemma LastStepDeadlock(ctx: Context, front: seq<Action>, a: Action, replies: nat -> Reply, k: Kind)
    requires FreshIds(ctx, replies) && Plain(front + [a])
    requires a.status == Blocked && Target(a) == Some(k) && !ctx.HasEvidence(k) && Attempts(front, k)
    requires forall i: nat :: Gives(ctx, replies(i), k)
    ensures StaysBlocked(ExecuteAll(ctx, front + [a], replies).1, KeyOf(a))
    ensures ExecuteAll(ctx, front + [a], replies).0.HasEvidence(k)
  {
    AttemptsRecover(ctx, replies, front, k);
    LastStepSticks(ctx, replies, front, a, k, KeyOf(a));
    SticksMeaning(ctx, front + [a], replies, KeyOf(a));
    assert a in front + [a];
    AttemptsArrive(ctx, front + [a], replies, k);
  }

  lemma StuckBlocks(ctx: Context, replies: nat -> Reply)
    requires ctx.IsCritical() && Stuck(ctx, replies)
    ensures EvaluationOf(ctx, replies).decision == Block
    ensures EvaluationOf(ctx, replies).context == FinalContext(ctx, replies)
  {
    CriticalDecision(ctx, replies);
    EvaluationParts(ctx, replies);
  }

  lemma RunAlong(ctx: Context, replies: nat -> Reply, actions: seq<Action>, key: Key)
    requires actions == FirstActions(ctx) && StaysBlocked(ExecuteAll(ctx, actions, replies).1, key)
    ensures Stuck(ctx, replies) && FinalContext(ctx, replies) == ExecuteAll(ctx, actions, replies).0
  {
    assert StaysBlocked(FirstExecuted(ctx, replies), key);
  }

  lemma RollbackStuck(ctx: Context, replies: nat -> Reply)
    requires CheckpointAlways(ctx, replies) && RollbackMissing(ctx) && RollbackPlan in ctx.required
    ensures Stuck(ctx, replies) && FinalContext(ctx, replies).HasEvidence(RollbackPlan)
  {
    var front := RollbackComesLast(ctx);
    var step := RollbackStep(ctx);
    RollbackStepIs(ctx);
    CheckpointsGivePlans(ctx, replies);
    LastStepDeadlock(ctx, front, step, replies, RollbackPlan);
    RunAlong(ctx, replies, front + [step], KeyOf(step));
  }

  /** When the rollback plan is both required evidence and demanded by the policy, the generic expansion recovers
      it first, the dedicated step then finds nothing to recover and keeps its block: the operation is blocked
      although every checkpoint is available, whatever else the stores answer. */
  lemma RollbackPlanDeadlock(ctx: Context, replies: nat -> Reply)
    requires CheckpointAlways(ctx, replies)
    requires RollbackPlan in ctx.required && !ctx.HasEvidence(RollbackPlan)
    requires ctx.agentPolicy.Some? && RollbackDue(ctx, ctx.agentPolicy.value)
    ensures EvaluationOf(ctx, replies).decision == Block
    ensures EvaluationOf(ctx, replies).context.HasEvidence(RollbackPlan)
  {
    RollbackStuck(ctx, replies);
    StuckBlocks(ctx, replies);
  }
}
