/** The conjunction layer: route, validate, compensate, execute; if anything was compensated, do it again
    on the resulting context and merge; then decide. */
module Service {
  import opened Contracts
  import opened Router
  import opened Validators
  import opened Compensations
  import opened Execution
  import opened Merging

  datatype CompensationStatus = NoneApplied | AppliedStatus | RequiredStatus | BlockedStatus

  datatype Confidence = High | Medium | Low | Conflicted

  datatype Decision = Allow | AllowWithCompensation | Degrade | Block

  datatype Result = Result(
    context: Context,
    route: Route,
    findings: seq<Finding>,
    actions: seq<Action>,
    validationStatus: Status,
    compensationStatus: CompensationStatus,
    confidence: Confidence,
    decision: Decision)

  predicate Any(findings: seq<Finding>, status: Status) {
    exists f :: f in findings && f.status == status
  }

  function ValidationStatusOf(findings: seq<Finding>): Status {
    if Any(findings, Fail) then Fail else if Any(findings, Warn) then Warn else Pass
  }

  function CompensationStatusOf(actions: seq<Action>, validation: Status): CompensationStatus {
    if exists a :: a in actions && a.status == Blocked then BlockedStatus
    else if actions == [] then NoneApplied
    else if validation == Fail then RequiredStatus
    else AppliedStatus
  }

  function ConfidenceOf(ctx: Context, findings: seq<Finding>): Confidence {
    if exists f :: f in findings && f.code == ContradictoryEvidence then Conflicted
    else if ctx.uncertainty >= 0.70 || Any(findings, Fail) then Low
    else if ctx.uncertainty >= 0.40 || Any(findings, Warn) then Medium
    else High
  }

  function DecisionOf(ctx: Context, findings: seq<Finding>, compensation: CompensationStatus): Decision {
    if compensation == BlockedStatus then Block
    else if Any(findings, Fail) then if ctx.IsCritical() then Block else Degrade
    else if compensation == AppliedStatus then AllowWithCompensation
    else if Any(findings, Warn) then AllowWithCompensation
    else Allow
  }

  function Conclude(ctx: Context, route: Route, findings: seq<Finding>, actions: seq<Action>): Result {
    var validation := ValidationStatusOf(findings);
    var compensation := CompensationStatusOf(actions, validation);
    Result(ctx, route, findings, actions, validation, compensation, ConfidenceOf(ctx, findings),
           DecisionOf(ctx, findings, compensation))
  }

  function FirstActions(ctx: Context): seq<Action> {
    ActionsFor(ctx, FindingsOf(ctx, RouteOf(ctx)))
  }

  function FinalContext(ctx: Context, replies: nat -> Reply): Context {
    ExecuteAll(ctx, FirstActions(ctx), replies).0
  }

  function FirstExecuted(ctx: Context, replies: nat -> Reply): seq<Action> {
    ExecuteAll(ctx, FirstActions(ctx), replies).1
  }

  function EvaluationOf(ctx: Context, replies: nat -> Reply): Result {
    if FirstActions(ctx) == [] then Conclude(ctx, RouteOf(ctx), FindingsOf(ctx, RouteOf(ctx)), [])
    else
      var final := FinalContext(ctx, replies);
      Conclude(final, RouteOf(final), FindingsOf(final, RouteOf(final)),
               MergeOf(FirstExecuted(ctx, replies), FirstActions(final)))
  }

  method Evaluate(context: Context, replies: nat -> Reply) returns (result: Result)
    ensures result == EvaluationOf(context, replies)
  {
    var ctx := context;
    var route := RouteOf(ctx);
    var findings := Validate(ctx, route);
    var actions := Compensate(ctx, findings);
    ctx, actions := ExecuteCompensations(ctx, actions, replies);
    SameLength(context, FirstActions(context), replies);
    if actions != [] {
      route := RouteOf(ctx);
      findings := Validate(ctx, route);
      var followups := Compensate(ctx, findings);
      actions := MergeCompensationActions(actions, followups);
    }
    result := Conclude(ctx, route, findings, actions);
  }

  lemma {:induction false} SameLength(ctx: Context, actions: seq<Action>, replies: nat -> Reply)
    ensures |ExecuteAll(ctx, actions, replies).1| == |actions|
    ensures actions == [] ==> ExecuteAll(ctx, actions, replies).0 == ctx
  {
    if actions != [] { SameLength(ctx, actions[..|actions| - 1], replies); }
  }

  // ----- tiers: the degrade steps are unreachable -----

  /** Under the router's route neither tier finding is raised and resource pressure only ever warns. */
  lemma RoutedFindings(ctx: Context, f: Finding)
    requires f in FindingsOf(ctx, RouteOf(ctx))
    ensures f.code !in {ComputeTierExceedsPolicy, ExternalNotAllowed, InvalidRouteContract}
    ensures f.code == ResourcePressureLimit ==> f.status == Warn
  {
    var route := RouteOf(ctx);
    if f in Raised(ctx, route) {
      RaisedMembers(ctx, route, f);
      if f in AgentFindings(ctx) {
        AgentFindingsFail(ctx, f);
      } else if f in ConstraintFindings(ctx, route) || f in RiskFindings(ctx) || f in AutonomyFindings(ctx) {
        OtherRoutedFindings(ctx, route, f);
      } else {
        MissingFindingsMembers(ctx, ctx.required);
        CausalFindingsMembers(ctx, ctx.assumptions);
      }
    }
  }

  lemma OtherRoutedFindings(ctx: Context, route: Route, f: Finding)
    requires WithinPolicy(ctx, route)
    requires f in ConstraintFindings(ctx, route) || f in RiskFindings(ctx) || f in AutonomyFindings(ctx)
    ensures f.code !in {ComputeTierExceedsPolicy, ExternalNotAllowed, InvalidRouteContract}
    ensures f.code == ResourcePressureLimit ==> f.status == Warn
  {
  }

  lemma NoTierFindingNoDegrade(ctx: Context, findings: seq<Finding>)
    requires forall f :: f in findings ==> f.code !in {ComputeTierExceedsPolicy, ExternalNotAllowed}
    ensures forall a :: a in ActionsFor(ctx, findings) ==> !Degrades(a)
  {
    ActionsMembers(ctx, findings);
    forall a | a in ActionsFor(ctx, findings) ensures !Degrades(a) {
      var f :| f in findings && f.status != Pass && a == ActionFor(ctx, f);
    }
  }

  lemma FirstActionsNeverDegrade(ctx: Context)
    ensures forall a :: a in FirstActions(ctx) ==> !Degrades(a)
  {
    var findings := FindingsOf(ctx, RouteOf(ctx));
    forall f | f in findings ensures f.code !in {ComputeTierExceedsPolicy, ExternalNotAllowed} {
      RoutedFindings(ctx, f);
    }
    NoTierFindingNoDegrade(ctx, findings);
  }

  /** Whatever the stores answer, the final context extends the initial one; constraints, policies,
      scores and the requested action are those of the initial context. */
  lemma NothingButEvidenceAndMarks(ctx: Context, replies: nat -> Reply)
    ensures Extends(ctx, EvaluationOf(ctx, replies).context)
  {
    FirstActionsNeverDegrade(ctx);
    ExecuteAllExtends(ctx, FirstActions(ctx), replies);
  }

  /** The selected tier obeys the initial context's ceiling, GPU limit and external permission. */
  lemma SelectedTierWithinInitialPolicy(ctx: Context, replies: nat -> Reply)
    ensures WithinPolicy(ctx, EvaluationOf(ctx, replies).route)
    ensures EvaluationOf(ctx, replies).context.constraints == ctx.constraints
    ensures forall f :: f in EvaluationOf(ctx, replies).findings ==>
              f.code !in {ComputeTierExceedsPolicy, ExternalNotAllowed, InvalidRouteContract}
  {
    NothingButEvidenceAndMarks(ctx, replies);
    var result := EvaluationOf(ctx, replies);
    forall f | f in result.findings
      ensures f.code !in {ComputeTierExceedsPolicy, ExternalNotAllowed, InvalidRouteContract}
    {
      RoutedFindings(result.context, f);
    }
  }

  // ----- decisions -----

  lemma NoActionsIffClean(ctx: Context)
    ensures FirstActions(ctx) == [] <==> Raised(ctx, RouteOf(ctx)) == []
  {
    var route := RouteOf(ctx);
    var findings := FindingsOf(ctx, route);
    ActionsMembers(ctx, findings);
    if Raised(ctx, route) != [] {
      RaisedIsAlarm(ctx, route, findings[0]);
    } else {
      assert |findings| == 1 && findings[..0] == [];
      assert ActionsFor(ctx, findings[..0]) == [];
    }
  }

  /** A failing finding of a critical action becomes a blocked action. */
  lemma CriticalFailBlocks(ctx: Context, f: Finding)
    requires f in FindingsOf(ctx, RouteOf(ctx)) && f.status != Pass && Blocks(ctx, f)
    ensures SomeBlocked(FirstActions(ctx))
  {
    ActionsMembers(ctx, FindingsOf(ctx, RouteOf(ctx)));
    assert ActionFor(ctx, f) in FirstActions(ctx);
  }

  lemma SomeBlockedStatus(actions: seq<Action>, validation: Status)
    ensures SomeBlocked(actions) <==> CompensationStatusOf(actions, validation) == BlockedStatus
  {
  }

  /** With or without a second round, the result is concluded from the final context and the merged actions. */
  lemma EvaluationParts(ctx: Context, replies: nat -> Reply)
    ensures var final := FinalContext(ctx, replies);
            EvaluationOf(ctx, replies) == Conclude(final, RouteOf(final), FindingsOf(final, RouteOf(final)),
                                                   MergeOf(FirstExecuted(ctx, replies), FirstActions(final)))
    ensures MergeOf(FirstExecuted(ctx, replies), FirstActions(FinalContext(ctx, replies))) == []
            <==> FirstActions(ctx) == []
  {
    SameLength(ctx, FirstActions(ctx), replies);
    MergeBlocks(FirstExecuted(ctx, replies), FirstActions(FinalContext(ctx, replies)));
  }

  lemma ConcludeMeaning(ctx: Context, route: Route, findings: seq<Finding>, actions: seq<Action>)
    requires SomeFail(findings) && ctx.IsCritical() ==> SomeBlocked(actions)
    ensures var r := Conclude(ctx, route, findings, actions);
            && (r.compensationStatus == BlockedStatus <==> SomeBlocked(actions))
            && (r.decision == Block <==> SomeBlocked(actions))
            && (r.decision == Allow ==> actions == [])
            && (actions == [] && (forall f :: f in findings ==> f.status == Pass) ==> r.decision == Allow)
            && (r.decision == Degrade <==> SomeFail(findings) && !SomeBlocked(actions))
  {
    SomeBlockedStatus(actions, ValidationStatusOf(findings));
    assert Any(findings, Fail) <==> SomeFail(findings);
  }

  lemma CriticalFailureBlocks(ctx: Context)
    requires ctx.IsCritical() && SomeFail(FindingsOf(ctx, RouteOf(ctx)))
    ensures SomeBlocked(FirstActions(ctx))
  {
    var f :| f in FindingsOf(ctx, RouteOf(ctx)) && f.status == Fail;
    CriticalFailBlocks(ctx, f);
  }

  /** Block is decided exactly when compensation is blocked, allow exactly when the first validation is clean,
      degrade exactly when a final finding fails without a block, which never happens to a critical action. */
  lemma DecisionMeaning(ctx: Context, replies: nat -> Reply)
    ensures var r := EvaluationOf(ctx, replies);
            && (r.decision == Block <==> r.compensationStatus == BlockedStatus)
            && (r.decision == Block <==> SomeBlocked(r.actions))
            && (r.decision == Allow <==> Raised(ctx, RouteOf(ctx)) == [])
            && (r.decision == Degrade <==> !ctx.IsCritical() && r.decision != Block && SomeFail(r.findings))
  {
    var final := FinalContext(ctx, replies);
    var followups := FirstActions(final);
    EvaluationParts(ctx, replies);
    NothingButEvidenceAndMarks(ctx, replies);
    NoActionsIffClean(ctx);
    MergeBlocks(FirstExecuted(ctx, replies), followups);
    if final.IsCritical() && SomeFail(FindingsOf(final, RouteOf(final))) { CriticalFailureBlocks(final); }
    ConcludeMeaning(final, RouteOf(final), FindingsOf(final, RouteOf(final)),
                    MergeOf(FirstExecuted(ctx, replies), followups));
    SameLength(ctx, FirstActions(ctx), replies);
  }

  /** Some first-round action keeps its block: nothing was recovered for the last action of its key. */
  ghost predicate Stuck(ctx: Context, replies: nat -> Reply) {
    exists k :: StaysBlocked(FirstExecuted(ctx, replies), k)
  }

  /** A critical operation goes through exactly when the FINAL context meets every requirement
      and no first-round action stays blocked. */
  lemma CriticalDecision(ctx: Context, replies: nat -> Reply)
    requires ctx.IsCritical()
    ensures EvaluationOf(ctx, replies).decision != Block
            <==> Cleared(EvaluationOf(ctx, replies).context) && !Stuck(ctx, replies)
  {
    var r := EvaluationOf(ctx, replies);
    DecisionMeaning(ctx, replies);
    NothingButEvidenceAndMarks(ctx, replies);
    EvaluationParts(ctx, replies);
    CriticalFailsUnlessCleared(r.context);
    MergeBlocks(FirstExecuted(ctx, replies), FirstActions(r.context));
    if Cleared(r.context) {
      NoFailNoBlock(r.context);
    } else {
      CriticalFailureBlocks(r.context);
    }
  }

  /** A critical context without failing findings produces no blocked action. */
  lemma NoFailNoBlock(ctx: Context)
    requires ctx.IsCritical() && Cleared(ctx)
    ensures !SomeBlocked(FirstActions(ctx))
  {
    var findings := FindingsOf(ctx, RouteOf(ctx));
    CriticalFailsUnlessCleared(ctx);
    ActionsMembers(ctx, findings);
    forall a | a in FirstActions(ctx) ensures a.status != Blocked {
      var f :| f in findings && f.status != Pass && a == ActionFor(ctx, f);
      WarningsAreMild(ctx, f);
    }
  }

  lemma OtherWarningsAreMild(ctx: Context, route: Route, f: Finding)
    requires f in ConstraintFindings(ctx, route) || f in RiskFindings(ctx) || f in AutonomyFindings(ctx)
    requires f.status == Warn
    ensures !AlwaysBlocks(f.code)
  {
  }

  lemma RaisedWarningsAreMild(ctx: Context, route: Route, f: Finding)
    requires f in Raised(ctx, route) && f.status == Warn
    ensures !AlwaysBlocks(f.code)
  {
    RaisedMembers(ctx, route, f);
    if f in AgentFindings(ctx) {
      AgentFindingsFail(ctx, f);
    } else if f in ConstraintFindings(ctx, route) || f in RiskFindings(ctx) || f in AutonomyFindings(ctx) {
      OtherWarningsAreMild(ctx, route, f);
    } else {
      MissingFindingsMembers(ctx, ctx.required);
      CausalFindingsMembers(ctx, ctx.assumptions);
    }
  }

  lemma WarningsAreMild(ctx: Context, f: Finding)
    requires f in FindingsOf(ctx, RouteOf(ctx)) && f.status == Warn
    ensures !AlwaysBlocks(f.code)
  {
    RaisedWarningsAreMild(ctx, RouteOf(ctx), f);
  }

  // ----- authority -----

  /** The evidence is there, or a compensation is entitled to recover it; an execution plan is only ever added
      together with a block. */
  predicate Obtainable(ctx: Context, kind: Kind) {
    || ctx.HasEvidence(kind)
    || kind in {MemoryRag, CausalSignature, HealthyCheckpoint, RollbackPlan}
    || (kind == HumanApproval && ctx.metadata.humanApproved)
  }

  /** What must already be true of a critical context BEFORE evaluation for it ever to go through. */
  predicate Admissible(ctx: Context) {
    && ctx.operationId != "" && ctx.userIntent != ""
    && (forall k :: k in ctx.required ==> Obtainable(ctx, k))
    && !ctx.HasConflict()
    && CausallyCleared(ctx)
    && Restrained(ctx)
    && ctx.action in ctx.constraints.permittedActions
    && AutonomyCleared(ctx)
    && ctx.agentPolicy.Some?
    && var policy := ctx.agentPolicy.value;
       && Obeys(ctx, policy)
       && (ctx.action in policy.approvalRequiredActions ==> Obtainable(ctx, HumanApproval))
       && (PlanDue(ctx, policy) ==> ctx.HasEvidence(ValidatedPlan))
  }

  predicate Validates(a: Action) {
    a.code == RequirePlanValidation
  }

  /** An execution plan comes from a plan validation step or not at all. */
  lemma {:induction false} PlanOnlyFromValidation(ctx: Context, actions: seq<Action>, replies: nat -> Reply)
    requires forall a :: a in actions ==> !Degrades(a) && !Validates(a)
    ensures ExecuteAll(ctx, actions, replies).0.HasEvidence(ExecutionPlan) ==> ctx.HasEvidence(ExecutionPlan)
  {
    if actions != [] {
      var n := |actions| - 1;
      PlanOnlyFromValidation(ctx, actions[..n], replies);
      StepWithoutPlan(ExecuteAll(ctx, actions[..n], replies).0, actions[n], replies(n));
    }
  }

  lemma StepWithoutPlan(ctx: Context, a: Action, r: Reply)
    requires !Degrades(a) && !Validates(a)
    ensures Execute(ctx, a, r).0.HasEvidence(ExecutionPlan) ==> ctx.HasEvidence(ExecutionPlan)
  {
    match a.code
    case ExpandRetrieval => RecoveringNoPlan(ctx, a, if a.missing.Some? then a.missing.value else OtherKind(""), r);
    case RequireRollbackPlan => RecoveringNoPlan(ctx, a, RollbackPlan, r);
    case RequireHumanApproval => RecoveringNoPlan(ctx, a, HumanApproval, r);
    case _ =>
  }

  lemma RecoveringNoPlan(ctx: Context, a: Action, kind: Kind, r: Reply)
    ensures Recovering(ctx, a, kind, r).0.HasEvidence(ExecutionPlan) ==> ctx.HasEvidence(ExecutionPlan)
  {
    var items := RecoveredEvidence(ctx, kind, r);
    if items != [] { assert items == [items[0]] && Additions(ctx, items[1..]) == []; }
  }

  /** With a validated plan where one is demanded, no plan validation step is planned. */
  lemma NoValidationStep(ctx: Context, p: AgentPolicy)
    requires ctx.agentPolicy == Some(p) && (PlanDue(ctx, p) ==> ctx.HasEvidence(ValidatedPlan))
    ensures forall a :: a in FirstActions(ctx) ==> !Validates(a)
  {
    var route := RouteOf(ctx);
    var findings := FindingsOf(ctx, route);
    MissingFindingsMembers(ctx, ctx.required);
    CausalFindingsMembers(ctx, ctx.assumptions);
    forall f | f in findings ensures f.code != CriticalActionWithoutValidatedPlan {
      RaisedMembers(ctx, route, f);
      if f in AgentFindings(ctx) { PolicyMembers(ctx, p, f); }
    }
    NoDemandNoStep(ctx, findings);
  }

  lemma NoDemandNoStep(ctx: Context, findings: seq<Finding>)
    requires forall f :: f in findings ==> f.code != CriticalActionWithoutValidatedPlan
    ensures forall a :: a in ActionsFor(ctx, findings) ==> !Validates(a)
  {
    ActionsMembers(ctx, findings);
    forall a | a in ActionsFor(ctx, findings) ensures !Validates(a) {
      var f :| f in findings && f.status != Pass && a == ActionFor(ctx, f);
    }
  }

  /** What a cleared final context says about the initial one. */
  lemma ClearedComesFromAdmissible(ctx: Context, final: Context)
    requires Extends(ctx, final) && Cleared(final)
    requires final.HasEvidence(ExecutionPlan) ==> ctx.HasEvidence(ExecutionPlan)
    ensures Admissible(ctx)
  {
    forall k | k in ctx.required ensures Obtainable(ctx, k) {
      ExtendsEvidence(ctx, final, k);
    }
    ExtendsEvidence(ctx, final, HumanApproval);
    ExtendsEvidence(ctx, final, ValidatedPlan);
    assert SomeUnsupported(final) <==> SomeUnsupported(ctx);
  }

  /** A critical operation that goes through was admissible, whatever the stores answer. */
  lemma OnlyAdmissibleGoesThrough(ctx: Context, replies: nat -> Reply)
    requires ctx.IsCritical() && EvaluationOf(ctx, replies).decision != Block
    ensures Admissible(ctx)
  {
    var final := EvaluationOf(ctx, replies).context;
    CriticalDecision(ctx, replies);
    NothingButEvidenceAndMarks(ctx, replies);
    ExtendsEvidence(ctx, final, ValidatedPlan);
    NoValidationStep(ctx, ctx.agentPolicy.value);
    FirstActionsNeverDegrade(ctx);
    PlanOnlyFromValidation(ctx, FirstActions(ctx), replies);
    EvaluationParts(ctx, replies);
    ClearedComesFromAdmissible(ctx, final);
  }

  /** Compensation fabricates no authority: an inadmissible critical operation is blocked
      whatever the stores answer. In particular a missing validated plan is never compensated. */
  lemma InadmissibleIsBlocked(ctx: Context, replies: nat -> Reply)
    requires ctx.IsCritical() && !Admissible(ctx)
    ensures EvaluationOf(ctx, replies).decision == Block
  {
    if EvaluationOf(ctx, replies).decision != Block { OnlyAdmissibleGoesThrough(ctx, replies); }
  }

  /** What blocks an operation outright, critical or not, and no compensation lifts. */
  predicate FirmStop(ctx: Context) {
    || ctx.HasConflict()
    || !Restrained(ctx)
    || ctx.action !in ctx.constraints.permittedActions
    || (ctx.agentPolicy.Some? && !Obeys(ctx, ctx.agentPolicy.value))
  }

  predicate ApprovalDemanded(ctx: Context) {
    ctx.agentPolicy.Some? && ctx.action in ctx.agentPolicy.value.approvalRequiredActions
  }

  predicate HardStop(ctx: Context) {
    FirmStop(ctx) || (ApprovalDemanded(ctx) && !ctx.HasEvidence(HumanApproval))
  }

  lemma HardStopWitness(ctx: Context) returns (f: Finding)
    requires HardStop(ctx)
    ensures f in FindingsOf(ctx, RouteOf(ctx)) && f.status == Fail && AlwaysBlocks(f.code)
  {
    if ctx.HasConflict() {
      f := Finding(ContradictoryEvidence, Fail, None);
    } else if HighRisk(ctx) {
      f := Finding(HighRiskAction, Fail, None);
    } else if ctx.action !in ctx.constraints.permittedActions {
      f := Finding(ActionNotPermitted, Fail, None);
    } else {
      var p := ctx.agentPolicy.value;
      f := Finding(
        if !p.Allows(ctx.action) then AgentActionForbidden
        else if !p.AllowsTool(ctx.metadata.requestedTool) then AgentToolForbidden
        else if p.budgetUnits <= 0.0 then AgentBudgetExhausted
        else if StepsExceeded(ctx, p) then AgentStepLimitExceeded
        else HumanApprovalRequired, Fail, None);
      assert f in PolicyFindings(ctx, p);
    }
    RaisedMembers(ctx, RouteOf(ctx), f);
  }

  lemma HardStopOnly(ctx: Context, f: Finding)
    requires f in FindingsOf(ctx, RouteOf(ctx)) && AlwaysBlocks(f.code)
    ensures HardStop(ctx)
  {
    var route := RouteOf(ctx);
    MissingFindingsMembers(ctx, ctx.required);
    CausalFindingsMembers(ctx, ctx.assumptions);
    RaisedMembers(ctx, route, f);
    if f in AgentFindings(ctx) { AgentHardStop(ctx, f); }
  }

  lemma AgentHardStop(ctx: Context, f: Finding)
    requires f in AgentFindings(ctx) && AlwaysBlocks(f.code)
    ensures HardStop(ctx)
  {
  }

  lemma NonCriticalBlocks(ctx: Context)
    requires !ctx.IsCritical()
    ensures SomeBlocked(FirstActions(ctx)) <==> HardStop(ctx)
  {
    var findings := FindingsOf(ctx, RouteOf(ctx));
    ActionsMembers(ctx, findings);
    if HardStop(ctx) {
      var f := HardStopWitness(ctx);
      CriticalFailBlocks(ctx, f);
    }
    if SomeBlocked(FirstActions(ctx)) {
      var a :| a in FirstActions(ctx) && a.status == Blocked;
      var f :| f in findings && f.status != Pass && a == ActionFor(ctx, f);
      HardStopOnly(ctx, f);
    }
  }

  /** An operation that is not critical is blocked exactly by a hard stop in the final context
      or by a first-round action that stays blocked. */
  lemma NonCriticalDecision(ctx: Context, replies: nat -> Reply)
    requires !ctx.IsCritical()
    ensures EvaluationOf(ctx, replies).decision == Block
            <==> HardStop(EvaluationOf(ctx, replies).context) || Stuck(ctx, replies)
  {
    var r := EvaluationOf(ctx, replies);
    DecisionMeaning(ctx, replies);
    NothingButEvidenceAndMarks(ctx, replies);
    EvaluationParts(ctx, replies);
    NonCriticalBlocks(r.context);
    MergeBlocks(FirstExecuted(ctx, replies), FirstActions(r.context));
  }

  /** The context as it would be with its approval on record. */
  function Approved(ctx: Context): Context {
    ctx.(available := ctx.available + [Evidence("", HumanApproval, 0.95, false, true)])
  }

  lemma HardStopPersists(ctx: Context, after: Context)
    requires Extends(ctx, after)
    requires HardStop(ctx) && (ctx.metadata.humanApproved ==> HardStop(Approved(ctx)))
    ensures HardStop(after)
  {
    ExtendsEvidence(ctx, after, HumanApproval);
    if !ctx.HasConflict() && ctx.metadata.humanApproved {
      assert !Approved(ctx).HasConflict();
      assert Approved(ctx).available[|ctx.available|].kind == HumanApproval;
      assert Approved(ctx).HasEvidence(HumanApproval);
    }
  }

  /** A hard stop that no approval on record can lift blocks every operation whatever the stores answer. */
  lemma HardStopIsFinal(ctx: Context, replies: nat -> Reply)
    requires HardStop(ctx) && (ctx.metadata.humanApproved ==> HardStop(Approved(ctx)))
    ensures EvaluationOf(ctx, replies).decision == Block
  {
    var r := EvaluationOf(ctx, replies);
    NothingButEvidenceAndMarks(ctx, replies);
    HardStopPersists(ctx, r.context);
    var f := HardStopWitness(r.context);
    CriticalFailBlocks(r.context, f);
    DecisionMeaning(ctx, replies);
    EvaluationParts(ctx, replies);
    MergeBlocks(FirstExecuted(ctx, replies), FirstActions(r.context));
  }

  // ----- degrading -----

  /** What fails without blocking an operation that is not critical; no compensation changes it. */
  predicate SoftFailure(ctx: Context) {
    ctx.operationId == "" || ctx.userIntent == "" || !CausallyCleared(ctx) || !AutonomyCleared(ctx)
  }

  lemma SoftFailureWitness(ctx: Context, route: Route) returns (f: Finding)
    requires SoftFailure(ctx)
    ensures f in FindingsOf(ctx, route) && f.status == Fail
  {
    if ctx.operationId == "" || ctx.userIntent == "" {
      f := Finding(InvalidOperationContract, Fail, None);
    } else if !CausallyCleared(ctx) {
      CausalFindingsMembers(ctx, ctx.assumptions);
      f := Finding(UnsupportedCausalAssumption, Fail, None);
    } else {
      f := Finding(if ctx.agentPolicy == None then UnboundedAutonomyWithoutAgentPolicy
                   else UnboundedAutonomyNotAuthorized, Fail, None);
      assert f in AutonomyFindings(ctx);
    }
    RaisedMembers(ctx, route, f);
  }

  /** Under the router's own route, whatever fails for an operation that is not critical is a hard stop
      or a soft failure. */
  lemma FailuresAreSoft(ctx: Context, f: Finding)
    requires !ctx.IsCritical() && !HardStop(ctx) && f in FindingsOf(ctx, RouteOf(ctx)) && f.status == Fail
    ensures SoftFailure(ctx)
  {
    var route := RouteOf(ctx);
    RaisedMembers(ctx, route, f);
    RoutedFindings(ctx, f);
    if f in AgentFindings(ctx) {
      AgentFailuresStop(ctx, f);
    } else {
      MissingFindingsMembers(ctx, ctx.required);
      CausalFindingsMembers(ctx, ctx.assumptions);
    }
  }

  lemma AgentFailuresStop(ctx: Context, f: Finding)
    requires !ctx.IsCritical() && f in AgentFindings(ctx)
    ensures HardStop(ctx)
  {
    if ctx.agentPolicy.Some? { PolicyMembers(ctx, ctx.agentPolicy.value, f); }
  }

  lemma SoftFailureStays(ctx: Context, final: Context)
    requires Extends(ctx, final)
    ensures SoftFailure(final) <==> SoftFailure(ctx)
  {
    assert SomeUnsupported(final) <==> SomeUnsupported(ctx);
  }

  /** Degraded is exactly an operation that is not critical, is not blocked, and fails softly from the start. */
  lemma DegradesExactly(ctx: Context, replies: nat -> Reply)
    ensures EvaluationOf(ctx, replies).decision == Degrade <==>
              !ctx.IsCritical() && EvaluationOf(ctx, replies).decision != Block && SoftFailure(ctx)
  {
    var r := EvaluationOf(ctx, replies);
    DecisionMeaning(ctx, replies);
    if !ctx.IsCritical() && r.decision != Block {
      NonCriticalDecision(ctx, replies);
      NothingButEvidenceAndMarks(ctx, replies);
      EvaluationParts(ctx, replies);
      SoftFailureStays(ctx, r.context);
      if SoftFailure(ctx) {
        var f := SoftFailureWitness(r.context, RouteOf(r.context));
      } else if SomeFail(r.findings) {
        var f :| f in r.findings && f.status == Fail;
        FailuresAreSoft(r.context, f);
      }
    }
  }
}
