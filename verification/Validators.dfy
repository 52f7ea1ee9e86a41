/** The validator stack: six validators that append their findings to one list. */
module Validators {
  import opened Contracts
  import opened Router

  function When(condition: bool, code: FindingCode, status: Status := Fail): seq<Finding> {
    if condition then [Finding(code, status, None)] else []
  }

  /** One finding for every required kind without evidence, in the order of the requirement list. */
  function MissingFindings(ctx: Context, required: seq<Kind>): seq<Finding> {
    if required == [] then []
    else
      var last := required[|required| - 1];
      MissingFindings(ctx, required[..|required| - 1])
      + if ctx.HasEvidence(last) then []
        else [Finding(MissingEvidence, if ctx.IsCritical() then Fail else Warn, Some(last))]
  }

  function EvidenceFindings(ctx: Context): seq<Finding> {
    MissingFindings(ctx, ctx.required) + When(ctx.HasConflict(), ContradictoryEvidence)
  }

  predicate NeedsCausalSupport(ctx: Context) {
    ctx.taskType in {CausalDecision, SelfModification}
  }

  function CausalFindings(ctx: Context, assumptions: seq<CausalAssumption>): seq<Finding> {
    if assumptions == [] then []
    else
      CausalFindings(ctx, assumptions[..|assumptions| - 1])
      + When(!assumptions[|assumptions| - 1].supported, UnsupportedCausalAssumption,
             if NeedsCausalSupport(ctx) then Fail else Warn)
  }

  function ConstraintFindings(ctx: Context, route: Route): seq<Finding> {
    When(TierRank(route.tier) > TierRank(ctx.constraints.maxTier), ComputeTierExceedsPolicy)
    + When(route.tier == Tier3External && !ctx.constraints.allowExternal, ExternalNotAllowed)
    + When(ctx.pressure >= ctx.constraints.pressureLimit, ResourcePressureLimit,
           if route.tier == Tier0Deterministic then Warn else Fail)
  }

  predicate HighRisk(ctx: Context) {
    ctx.risk >= RISK_LIMIT && ctx.action !in {Observe, Sleep, Rollback, Quarantine, Shutdown}
  }

  function RiskFindings(ctx: Context): seq<Finding> {
    When(HighRisk(ctx), HighRiskAction)
    + When(ctx.action !in ctx.constraints.permittedActions, ActionNotPermitted)
  }

  predicate PlanDemanded(ctx: Context, policy: AgentPolicy) {
    ctx.IsCritical() && policy.requiresPlanForCritical && ctx.action !in {Rollback, Shutdown}
  }

  predicate RollbackDemanded(ctx: Context, policy: AgentPolicy) {
    ctx.IsCritical() && policy.rollbackRequiredForCritical && ctx.action !in {Rollback, Shutdown}
  }

  predicate StepsExceeded(ctx: Context, policy: AgentPolicy) {
    policy.maxSteps > 0 && ctx.metadata.agentStepCount > policy.maxSteps
  }

  function PolicyFindings(ctx: Context, policy: AgentPolicy): seq<Finding> {
    When(!policy.Allows(ctx.action), AgentActionForbidden)
    + When(ctx.metadata.requestedTool != "" && !policy.AllowsTool(ctx.metadata.requestedTool), AgentToolForbidden)
    + When(policy.budgetUnits <= 0.0, AgentBudgetExhausted)
    + When(StepsExceeded(ctx, policy), AgentStepLimitExceeded)
    + When(ctx.action in policy.approvalRequiredActions && !ctx.HasEvidence(HumanApproval), HumanApprovalRequired)
    + When(PlanDemanded(ctx, policy) && !ctx.HasEvidence(ValidatedPlan), CriticalActionWithoutValidatedPlan)
    + When(RollbackDemanded(ctx, policy) && !ctx.HasEvidence(RollbackPlan), CriticalActionWithoutRollbackPlan)
  }

  function AgentFindings(ctx: Context): seq<Finding> {
    match ctx.agentPolicy
    case None => When(ctx.IsCritical(), CriticalActionWithoutPolicy)
    case Some(policy) => PolicyFindings(ctx, policy)
  }

  function AutonomyFindings(ctx: Context): seq<Finding> {
    match ctx.autonomyPolicy
    case None => []
    case Some(policy) =>
      var unbounded := policy.activeMode == GovernedUnbounded;
      When(unbounded && ctx.agentPolicy == None, UnboundedAutonomyWithoutAgentPolicy)
      + When(unbounded && !policy.authorized, UnboundedAutonomyNotAuthorized)
      + When(policy.wantsUnbounded && !unbounded, AutonomyDegradedByPolicy, Warn)
  }

  function Raised(ctx: Context, route: Route): seq<Finding> {
    When(ctx.operationId == "" || ctx.userIntent == "", InvalidOperationContract)
    + EvidenceFindings(ctx)
    + CausalFindings(ctx, ctx.assumptions)
    + ConstraintFindings(ctx, route)
    + RiskFindings(ctx)
    + AutonomyFindings(ctx)
    + AgentFindings(ctx)
  }

  function FindingsOf(ctx: Context, route: Route): seq<Finding> {
    var raised := Raised(ctx, route);
    if raised == [] then [Finding(ValidationPassed, Pass, None)] else raised
  }

  // ----- the validators, as they append -----

  method CheckEvidence(ctx: Context) returns (out: seq<Finding>)
    ensures out == EvidenceFindings(ctx)
  {
    out := [];
    for i := 0 to |ctx.required|
      invariant out == MissingFindings(ctx, ctx.required[..i])
    {
      assert ctx.required[..i + 1][..i] == ctx.required[..i];
      if !ctx.HasEvidence(ctx.required[i]) {
        out := out + [Finding(MissingEvidence, if ctx.IsCritical() then Fail else Warn, Some(ctx.required[i]))];
      }
    }
    assert ctx.required[..|ctx.required|] == ctx.required;
    if ctx.HasConflict() {
      out := out + [Finding(ContradictoryEvidence, Fail, None)];
    }
  }

  method CheckCausal(ctx: Context) returns (out: seq<Finding>)
    ensures out == CausalFindings(ctx, ctx.assumptions)
  {
    out := [];
    for i := 0 to |ctx.assumptions|
      invariant out == CausalFindings(ctx, ctx.assumptions[..i])
    {
      assert ctx.assumptions[..i + 1][..i] == ctx.assumptions[..i];
      if ctx.assumptions[i].supported { continue; }
      out := out + [Finding(UnsupportedCausalAssumption, if NeedsCausalSupport(ctx) then Fail else Warn, None)];
    }
    assert ctx.assumptions[..|ctx.assumptions|] == ctx.assumptions;
  }

  method Validate(ctx: Context, route: Route) returns (findings: seq<Finding>)
    ensures findings == FindingsOf(ctx, route)
  {
    findings := When(ctx.operationId == "" || ctx.userIntent == "", InvalidOperationContract);
    var evidence := CheckEvidence(ctx);
    findings := findings + evidence;
    var causal := CheckCausal(ctx);
    findings := findings + causal;
    findings := findings + ConstraintFindings(ctx, route);
    findings := findings + RiskFindings(ctx);
    findings := findings + AutonomyFindings(ctx);
    findings := findings + AgentFindings(ctx);
    if findings == [] {
      findings := [Finding(ValidationPassed, Pass, None)];
    }
  }

  // ----- what the findings mean -----

  ghost predicate SomeFail(findings: seq<Finding>) {
    exists f :: f in findings && f.status == Fail
  }

  // The requirements are written out in the fields of the context and share none of the validators' own tests.

  predicate CausallyCleared(ctx: Context) {
    ctx.taskType == CausalDecision || ctx.taskType == SelfModification ==> !SomeUnsupported(ctx)
  }

  /** Not too risky: only five actions may exceed the limit. */
  predicate Restrained(ctx: Context) {
    ctx.risk < 0.80 || ctx.action.Observe? || ctx.action.Sleep? || ctx.action.Rollback? || ctx.action.Quarantine?
    || ctx.action.Shutdown?
  }

  /** What the agent policy asks apart from evidence: the action, the tool, the budget and the number of steps. */
  predicate Obeys(ctx: Context, p: AgentPolicy) {
    && ctx.action in p.allowedActions && ctx.action !in p.prohibitedActions
    && (ctx.metadata.requestedTool == ""
        || (ctx.metadata.requestedTool !in p.prohibitedTools
            && (|p.allowedTools| > 0 ==> ctx.metadata.requestedTool in p.allowedTools)))
    && 0.0 < p.budgetUnits
    && (p.maxSteps <= 0 || ctx.metadata.agentStepCount <= p.maxSteps)
  }

  predicate PlanDue(ctx: Context, p: AgentPolicy) {
    && ctx.action in ctx.constraints.criticalActions && p.requiresPlanForCritical
    && !ctx.action.Rollback? && !ctx.action.Shutdown?
  }

  predicate RollbackDue(ctx: Context, p: AgentPolicy) {
    && ctx.action in ctx.constraints.criticalActions && p.rollbackRequiredForCritical
    && !ctx.action.Rollback? && !ctx.action.Shutdown?
  }

  predicate AutonomyCleared(ctx: Context) {
    ctx.autonomyPolicy.Some? && ctx.autonomyPolicy.value.activeMode == GovernedUnbounded ==>
      ctx.agentPolicy.Some? && ctx.autonomyPolicy.value.authorized
  }

  /** What the agent policy asks of the context, evidence included. */
  predicate PolicyCleared(ctx: Context, policy: AgentPolicy) {
    && Obeys(ctx, policy)
    && (ctx.action in policy.approvalRequiredActions ==> ctx.HasEvidence(HumanApproval))
    && (PlanDue(ctx, policy) ==> ctx.HasEvidence(ValidatedPlan))
    && (RollbackDue(ctx, policy) ==> ctx.HasEvidence(RollbackPlan))
  }

  /** Every requirement on a critical operation, stated without reference to any finding. */
  predicate Cleared(ctx: Context) {
    && ctx.operationId != "" && ctx.userIntent != ""
    && !SomeRequiredMissing(ctx)
    && !ctx.HasConflict()
    && CausallyCleared(ctx)
    && Restrained(ctx)
    && ctx.action in ctx.constraints.permittedActions
    && AutonomyCleared(ctx)
    && ctx.agentPolicy.Some?
    && PolicyCleared(ctx, ctx.agentPolicy.value)
  }

  lemma {:induction false} MissingFindingsMembers(ctx: Context, required: seq<Kind>)
    ensures forall f :: f in MissingFindings(ctx, required) <==>
                        && f.code == MissingEvidence && f.status == (if ctx.IsCritical() then Fail else Warn)
                        && f.missing.Some? && f.missing.value in required && !ctx.HasEvidence(f.missing.value)
  {
    if required != [] {
      var n := |required| - 1;
      assert required == required[..n] + [required[n]];
      MissingFindingsMembers(ctx, required[..n]);
    }
  }

  lemma {:induction false} CausalFindingsMembers(ctx: Context, assumptions: seq<CausalAssumption>)
    ensures forall f :: f in CausalFindings(ctx, assumptions) <==>
                        && (exists i :: 0 <= i < |assumptions| && !assumptions[i].supported)
                        && f == Finding(UnsupportedCausalAssumption, if NeedsCausalSupport(ctx) then Fail else Warn, None)
  {
    if assumptions != [] {
      var n := |assumptions| - 1;
      assert assumptions == assumptions[..n] + [assumptions[n]];
      CausalFindingsMembers(ctx, assumptions[..n]);
    }
  }

  /** Membership in the raised list, validator by validator. */
  lemma RaisedMembers(ctx: Context, route: Route, f: Finding)
    ensures f in Raised(ctx, route) <==>
            || f in When(ctx.operationId == "" || ctx.userIntent == "", InvalidOperationContract)
            || f in MissingFindings(ctx, ctx.required)
            || f in When(ctx.HasConflict(), ContradictoryEvidence)
            || f in CausalFindings(ctx, ctx.assumptions)
            || f in ConstraintFindings(ctx, route)
            || f in RiskFindings(ctx)
            || f in AutonomyFindings(ctx)
            || f in AgentFindings(ctx)
  {
  }

  /** The findings about the agent all fail. */
  lemma AgentFindingsFail(ctx: Context, f: Finding)
    requires f in AgentFindings(ctx)
    ensures f.status == Fail
    ensures f.code in {CriticalActionWithoutPolicy, AgentActionForbidden, AgentToolForbidden, AgentBudgetExhausted,
                       AgentStepLimitExceeded, HumanApprovalRequired, CriticalActionWithoutValidatedPlan,
                       CriticalActionWithoutRollbackPlan}
  {
    if ctx.agentPolicy.Some? { PolicyMembers(ctx, ctx.agentPolicy.value, f); }
  }

  /** Membership in the policy's findings, test by test. */
  lemma PolicyMembers(ctx: Context, p: AgentPolicy, f: Finding)
    ensures f in PolicyFindings(ctx, p) <==>
            || f in When(!p.Allows(ctx.action), AgentActionForbidden)
            || f in When(ctx.metadata.requestedTool != "" && !p.AllowsTool(ctx.metadata.requestedTool), AgentToolForbidden)
            || f in When(p.budgetUnits <= 0.0, AgentBudgetExhausted)
            || f in When(StepsExceeded(ctx, p), AgentStepLimitExceeded)
            || f in When(ctx.action in p.approvalRequiredActions && !ctx.HasEvidence(HumanApproval), HumanApprovalRequired)
            || f in When(PlanDemanded(ctx, p) && !ctx.HasEvidence(ValidatedPlan), CriticalActionWithoutValidatedPlan)
            || f in When(RollbackDemanded(ctx, p) && !ctx.HasEvidence(RollbackPlan), CriticalActionWithoutRollbackPlan)
  {
  }

  lemma OtherFindingsAlarm(ctx: Context, route: Route, f: Finding)
    requires f in ConstraintFindings(ctx, route) || f in RiskFindings(ctx) || f in AutonomyFindings(ctx)
    ensures f.status != Pass
  {
  }

  /** Everything a validator raises is a warning or a failure. */
  lemma RaisedIsAlarm(ctx: Context, route: Route, f: Finding)
    requires f in Raised(ctx, route)
    ensures f.status != Pass
  {
    RaisedMembers(ctx, route, f);
    MissingFindingsMembers(ctx, ctx.required);
    CausalFindingsMembers(ctx, ctx.assumptions);
    if f in AgentFindings(ctx) {
      AgentFindingsFail(ctx, f);
    } else if f in ConstraintFindings(ctx, route) || f in RiskFindings(ctx) || f in AutonomyFindings(ctx) {
      OtherFindingsAlarm(ctx, route, f);
    }
  }

  /** For a critical action under the router's own route, no finding fails exactly when every requirement holds. */
  lemma CriticalFailsUnlessCleared(ctx: Context)
    requires ctx.IsCritical()
    ensures SomeFail(FindingsOf(ctx, RouteOf(ctx))) <==> !Cleared(ctx)
  {
    var route := RouteOf(ctx);
    if Cleared(ctx) {
      forall f | f in FindingsOf(ctx, route) ensures f.status != Fail { ClearedRaisesNoFailure(ctx, route, f); }
    } else {
      var f := FailureWitness(ctx, route);
    }
  }

  lemma ClearedPolicyRaisesNothing(ctx: Context, f: Finding)
    requires ctx.agentPolicy.Some? && PolicyCleared(ctx, ctx.agentPolicy.value)
    ensures f !in AgentFindings(ctx)
  {
    PolicyMembers(ctx, ctx.agentPolicy.value, f);
  }

  lemma ClearedRaisesNoFailure(ctx: Context, route: Route, f: Finding)
    requires Cleared(ctx) && WithinPolicy(ctx, route) && f in FindingsOf(ctx, route)
    ensures f.status != Fail
  {
    RaisedMembers(ctx, route, f);
    ClearedPolicyRaisesNothing(ctx, f);
    MissingFindingsMembers(ctx, ctx.required);
    CausalFindingsMembers(ctx, ctx.assumptions);
  }

  lemma FailureWitness(ctx: Context, route: Route) returns (f: Finding)
    requires ctx.IsCritical() && !Cleared(ctx)
    ensures f in FindingsOf(ctx, route) && f.status == Fail
  {
    if SomeRequiredMissing(ctx) || ctx.HasConflict() {
      f := EvidenceFailureWitness(ctx);
    } else if ctx.operationId == "" || ctx.userIntent == "" {
      f := Finding(InvalidOperationContract, Fail, None);
    } else if !CausallyCleared(ctx) {
      CausalFindingsMembers(ctx, ctx.assumptions);
      f := Finding(UnsupportedCausalAssumption, Fail, None);
    } else if HighRisk(ctx) {
      f := Finding(HighRiskAction, Fail, None);
    } else if ctx.action !in ctx.constraints.permittedActions {
      f := Finding(ActionNotPermitted, Fail, None);
    } else if !AutonomyCleared(ctx) {
      f := Finding(if ctx.agentPolicy == None then UnboundedAutonomyWithoutAgentPolicy
                   else UnboundedAutonomyNotAuthorized, Fail, None);
      assert f in AutonomyFindings(ctx);
    } else {
      f := AgentFailureWitness(ctx);
    }
    RaisedMembers(ctx, route, f);
  }

  lemma EvidenceFailureWitness(ctx: Context) returns (f: Finding)
    requires ctx.IsCritical() && (SomeRequiredMissing(ctx) || ctx.HasConflict())
    ensures f.status == Fail
    ensures f in MissingFindings(ctx, ctx.required) || f in When(ctx.HasConflict(), ContradictoryEvidence)
  {
    if SomeRequiredMissing(ctx) {
      MissingFindingsMembers(ctx, ctx.required);
      var k :| k in ctx.required && !ctx.HasEvidence(k);
      f := Finding(MissingEvidence, Fail, Some(k));
    } else {
      f := Finding(ContradictoryEvidence, Fail, None);
    }
  }

  lemma AgentFailureWitness(ctx: Context) returns (f: Finding)
    requires ctx.IsCritical()
    requires ctx.agentPolicy.Some? ==> !PolicyCleared(ctx, ctx.agentPolicy.value)
    ensures f in AgentFindings(ctx) && f.status == Fail
  {
    if ctx.agentPolicy == None {
      f := Finding(CriticalActionWithoutPolicy, Fail, None);
    } else {
      var p := ctx.agentPolicy.value;
      var code :=
        if !p.Allows(ctx.action) then AgentActionForbidden
        else if !p.AllowsTool(ctx.metadata.requestedTool) then AgentToolForbidden
        else if p.budgetUnits <= 0.0 then AgentBudgetExhausted
        else if StepsExceeded(ctx, p) then AgentStepLimitExceeded
        else if ctx.action in p.approvalRequiredActions && !ctx.HasEvidence(HumanApproval) then HumanApprovalRequired
        else if PlanDemanded(ctx, p) && !ctx.HasEvidence(ValidatedPlan) then CriticalActionWithoutValidatedPlan
        else CriticalActionWithoutRollbackPlan;
      f := Finding(code, Fail, None);
      assert f in PolicyFindings(ctx, p);
    }
  }
}
