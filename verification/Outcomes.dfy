/** What an evaluation reports, does and decides, in the fields of the context before it.

    The conditions of this module are written in fields and literals only; they share no test with the validators. */
module Outcomes {
  import opened Contracts
  import opened RealArith
  import opened Router
  import opened Validators
  import opened Compensations
  import opened Execution
  import opened Merging
  import opened Service
  import opened Deadlocks

  ghost predicate Holds(items: seq<Evidence>, k: Kind) {
    exists e :: e in items && e.kind == k
  }

  ghost predicate Conflicting(ctx: Context) {
    exists e :: e in ctx.available && (e.kind == Conflict || e.conflicting)
  }

  ghost predicate Unsupported(ctx: Context) {
    exists a :: a in ctx.assumptions && !a.supported
  }

  predicate TooRisky(ctx: Context) {
    ctx.risk >= 0.80 && ctx.action != Observe && ctx.action != Sleep && ctx.action != Rollback
    && ctx.action != Quarantine && ctx.action != Shutdown
  }

  predicate ForbidsTool(p: AgentPolicy, tool: string) {
    tool != "" && (tool in p.prohibitedTools || (p.allowedTools != [] && tool !in p.allowedTools))
  }

  /** A critical action other than a rollback or a shutdown. */
  predicate Guarded(ctx: Context) {
    ctx.action in ctx.constraints.criticalActions && ctx.action != Rollback && ctx.action != Shutdown
  }

  predicate Unbounded(ctx: Context) {
    ctx.autonomyPolicy.Some? && ctx.autonomyPolicy.value.activeMode == GovernedUnbounded
  }

  /** When the agent policy raises a finding, the evidence at hand being `items`. */
  ghost predicate PolicyReports(ctx: Context, p: AgentPolicy, items: seq<Evidence>, code: FindingCode) {
    match code
    case AgentActionForbidden => ctx.action !in p.allowedActions || ctx.action in p.prohibitedActions
    case AgentToolForbidden => ForbidsTool(p, ctx.metadata.requestedTool)
    case AgentBudgetExhausted => p.budgetUnits <= 0.0
    case AgentStepLimitExceeded => 0 < p.maxSteps < ctx.metadata.agentStepCount
    case HumanApprovalRequired => ctx.action in p.approvalRequiredActions && !Holds(items, HumanApproval)
    case CriticalActionWithoutValidatedPlan =>
      Guarded(ctx) && p.requiresPlanForCritical && !Holds(items, ValidatedPlan)
    case CriticalActionWithoutRollbackPlan =>
      Guarded(ctx) && p.rollbackRequiredForCritical && !Holds(items, RollbackPlan)
    case _ => false
  }

  /** When a code is reported, the evidence at hand being `items`. */
  ghost predicate Warranted(ctx: Context, items: seq<Evidence>, code: FindingCode) {
    match code
    case InvalidOperationContract => ctx.operationId == "" || ctx.userIntent == ""
    case MissingEvidence => exists k :: k in ctx.required && !Holds(items, k)
    case ContradictoryEvidence => Conflicting(ctx)
    case UnsupportedCausalAssumption => Unsupported(ctx)
    case ResourcePressureLimit => ctx.pressure >= ctx.constraints.pressureLimit
    case HighRiskAction => TooRisky(ctx)
    case ActionNotPermitted => ctx.action !in ctx.constraints.permittedActions
    case CriticalActionWithoutPolicy => ctx.agentPolicy.None? && ctx.action in ctx.constraints.criticalActions
    case AutonomyDegradedByPolicy =>
      ctx.autonomyPolicy.Some? && ctx.autonomyPolicy.value.wantsUnbounded && !Unbounded(ctx)
    case UnboundedAutonomyWithoutAgentPolicy => Unbounded(ctx) && ctx.agentPolicy.None?
    case UnboundedAutonomyNotAuthorized => Unbounded(ctx) && !ctx.autonomyPolicy.value.authorized
    case ComputeTierExceedsPolicy | ExternalNotAllowed | InvalidRouteContract | ValidationPassed => false
    case _ => ctx.agentPolicy.Some? && PolicyReports(ctx, ctx.agentPolicy.value, items, code)
  }

  /** How severe a code is: most fail, some only warn. */
  predicate Graded(ctx: Context, code: FindingCode, status: Status) {
    match code
    case ResourcePressureLimit | AutonomyDegradedByPolicy => status == Warn
    case MissingEvidence => status == if ctx.action in ctx.constraints.criticalActions then Fail else Warn
    case UnsupportedCausalAssumption =>
      status == if ctx.taskType == CausalDecision || ctx.taskType == SelfModification then Fail else Warn
    case _ => status == Fail
  }

  ghost predicate Reported(ctx: Context, items: seq<Evidence>, f: Finding) {
    && Warranted(ctx, items, f.code) && Graded(ctx, f.code, f.status)
    && if f.code == MissingEvidence
       then f.missing.Some? && f.missing.value in ctx.required && !Holds(items, f.missing.value)
       else f.missing.None?
  }

  // ----- what is reported -----

  lemma HoldsEvidence(ctx: Context, k: Kind)
    ensures Holds(ctx.available, k) <==> ctx.HasEvidence(k)
  {
    if ctx.HasEvidence(k) {
      var i :| 0 <= i < |ctx.available| && ctx.available[i].kind == k;
      assert ctx.available[i] in ctx.available;
    }
  }

  lemma ConflictsMean(ctx: Context)
    ensures Conflicting(ctx) <==> ctx.HasConflict()
  {
    if ctx.HasConflict() {
      var i :| 0 <= i < |ctx.available| && (ctx.available[i].kind == Conflict || ctx.available[i].conflicting);
      assert ctx.available[i] in ctx.available;
    }
  }

  lemma MissingReported(ctx: Context, f: Finding)
    requires f.code == MissingEvidence
    ensures f in MissingFindings(ctx, ctx.required) <==> Reported(ctx, ctx.available, f)
  {
    MissingFindingsMembers(ctx, ctx.required);
    if f.missing.Some? { HoldsEvidence(ctx, f.missing.value); }
  }

  lemma CausalReported(ctx: Context, f: Finding)
    requires f.code == UnsupportedCausalAssumption
    ensures f in CausalFindings(ctx, ctx.assumptions) <==> Reported(ctx, ctx.available, f)
  {
    CausalFindingsMembers(ctx, ctx.assumptions);
    if i :| 0 <= i < |ctx.assumptions| && !ctx.assumptions[i].supported {
      assert ctx.assumptions[i] in ctx.assumptions;
    }
  }

  /** The policy's tests as the validator makes them. */
  predicate PolicyTest(ctx: Context, p: AgentPolicy, code: FindingCode) {
    match code
    case AgentActionForbidden => !p.Allows(ctx.action)
    case AgentToolForbidden => ctx.metadata.requestedTool != "" && !p.AllowsTool(ctx.metadata.requestedTool)
    case AgentBudgetExhausted => p.budgetUnits <= 0.0
    case AgentStepLimitExceeded => StepsExceeded(ctx, p)
    case HumanApprovalRequired => ctx.action in p.approvalRequiredActions && !ctx.HasEvidence(HumanApproval)
    case CriticalActionWithoutValidatedPlan => PlanDemanded(ctx, p) && !ctx.HasEvidence(ValidatedPlan)
    case CriticalActionWithoutRollbackPlan => RollbackDemanded(ctx, p) && !ctx.HasEvidence(RollbackPlan)
    case _ => false
  }

  lemma PolicyTests(ctx: Context, p: AgentPolicy, f: Finding)
    ensures f in PolicyFindings(ctx, p) <==> f.status == Fail && f.missing.None? && PolicyTest(ctx, p, f.code)
  {
    PolicyMembers(ctx, p, f);
  }

  lemma PolicyTestMeans(ctx: Context, p: AgentPolicy, code: FindingCode)
    ensures PolicyTest(ctx, p, code) <==> PolicyReports(ctx, p, ctx.available, code)
  {
    match code
    case HumanApprovalRequired => HoldsEvidence(ctx, HumanApproval);
    case CriticalActionWithoutValidatedPlan => HoldsEvidence(ctx, ValidatedPlan);
    case CriticalActionWithoutRollbackPlan => HoldsEvidence(ctx, RollbackPlan);
    case _ =>
  }

  predicate AboutAgent(code: FindingCode) {
    code in {CriticalActionWithoutPolicy, AgentActionForbidden, AgentToolForbidden, AgentBudgetExhausted,
             AgentStepLimitExceeded, HumanApprovalRequired, CriticalActionWithoutValidatedPlan,
             CriticalActionWithoutRollbackPlan}
  }

  lemma AgentReported(ctx: Context, f: Finding)
    requires AboutAgent(f.code)
    ensures f in AgentFindings(ctx) <==> Reported(ctx, ctx.available, f)
  {
    if ctx.agentPolicy.Some? {
      PolicyTests(ctx, ctx.agentPolicy.value, f);
      PolicyTestMeans(ctx, ctx.agentPolicy.value, f.code);
    }
  }

  predicate Plainly(code: FindingCode) {
    code in {ComputeTierExceedsPolicy, ExternalNotAllowed, ResourcePressureLimit, HighRiskAction, ActionNotPermitted,
             AutonomyDegradedByPolicy, UnboundedAutonomyWithoutAgentPolicy, UnboundedAutonomyNotAuthorized}
  }

  lemma PlainReported(ctx: Context, f: Finding)
    requires Plainly(f.code)
    ensures f in ConstraintFindings(ctx, RouteOf(ctx)) || f in RiskFindings(ctx) || f in AutonomyFindings(ctx)
            <==> Reported(ctx, ctx.available, f)
  {
  }

  lemma PlainCodes(ctx: Context, route: Route, f: Finding)
    requires f in ConstraintFindings(ctx, route) || f in RiskFindings(ctx) || f in AutonomyFindings(ctx)
    ensures Plainly(f.code)
  {
  }

  predicate Schematic(code: FindingCode) {
    code !in {MissingEvidence, UnsupportedCausalAssumption} && !Plainly(code) && !AboutAgent(code)
  }

  lemma AgentCodes(ctx: Context, f: Finding)
    requires f in AgentFindings(ctx)
    ensures AboutAgent(f.code)
  {
    AgentFindingsFail(ctx, f);
  }

  lemma MissingCodes(ctx: Context, f: Finding)
    ensures f in MissingFindings(ctx, ctx.required) ==> f.code == MissingEvidence
    ensures f in CausalFindings(ctx, ctx.assumptions) ==> f.code == UnsupportedCausalAssumption
  {
    MissingFindingsMembers(ctx, ctx.required);
    CausalFindingsMembers(ctx, ctx.assumptions);
  }

  /** Each code comes from one validator. */
  lemma RaisedListed(ctx: Context, route: Route, f: Finding)
    requires f.code in {MissingEvidence, UnsupportedCausalAssumption}
    ensures f in Raised(ctx, route) <==>
              f in MissingFindings(ctx, ctx.required) || f in CausalFindings(ctx, ctx.assumptions)
  {
    RaisedMembers(ctx, route, f);
    if f in AgentFindings(ctx) { AgentCodes(ctx, f); }
    if f in ConstraintFindings(ctx, route) || f in RiskFindings(ctx) || f in AutonomyFindings(ctx) {
      PlainCodes(ctx, route, f);
    }
  }

  lemma RaisedPlainly(ctx: Context, route: Route, f: Finding)
    requires Plainly(f.code)
    ensures f in Raised(ctx, route) <==>
              f in ConstraintFindings(ctx, route) || f in RiskFindings(ctx) || f in AutonomyFindings(ctx)
  {
    RaisedMembers(ctx, route, f);
    MissingCodes(ctx, f);
    if f in AgentFindings(ctx) { AgentCodes(ctx, f); }
  }

  lemma RaisedAboutAgent(ctx: Context, route: Route, f: Finding)
    requires AboutAgent(f.code)
    ensures f in Raised(ctx, route) <==> f in AgentFindings(ctx)
  {
    RaisedMembers(ctx, route, f);
    MissingCodes(ctx, f);
    if f in ConstraintFindings(ctx, route) || f in RiskFindings(ctx) || f in AutonomyFindings(ctx) {
      PlainCodes(ctx, route, f);
    }
  }

  lemma RaisedSchematically(ctx: Context, route: Route, f: Finding)
    requires Schematic(f.code)
    ensures f in Raised(ctx, route) <==>
              || f in When(ctx.operationId == "" || ctx.userIntent == "", InvalidOperationContract)
              || f in When(ctx.HasConflict(), ContradictoryEvidence)
  {
    RaisedMembers(ctx, route, f);
    MissingCodes(ctx, f);
    if f in AgentFindings(ctx) { AgentCodes(ctx, f); }
    if f in ConstraintFindings(ctx, route) || f in RiskFindings(ctx) || f in AutonomyFindings(ctx) {
      PlainCodes(ctx, route, f);
    }
  }

  lemma SchemaReported(ctx: Context, f: Finding)
    requires Schematic(f.code)
    ensures f in When(ctx.operationId == "" || ctx.userIntent == "", InvalidOperationContract)
            || f in When(ctx.HasConflict(), ContradictoryEvidence)
            <==> Reported(ctx, ctx.available, f)
  {
    ConflictsMean(ctx);
  }

  /** Under the router's route, the first validation raises exactly what is warranted. */
  lemma RaisedExactly(ctx: Context, f: Finding)
    ensures f in Raised(ctx, RouteOf(ctx)) <==> Reported(ctx, ctx.available, f)
  {
    var route := RouteOf(ctx);
    if f.code == MissingEvidence || f.code == UnsupportedCausalAssumption {
      RaisedListed(ctx, route, f);
      MissingCodes(ctx, f);
      if f.code == MissingEvidence { MissingReported(ctx, f); } else { CausalReported(ctx, f); }
    } else if Plainly(f.code) {
      RaisedPlainly(ctx, route, f);
      PlainReported(ctx, f);
    } else if AboutAgent(f.code) {
      RaisedAboutAgent(ctx, route, f);
      AgentReported(ctx, f);
    } else {
      RaisedSchematically(ctx, route, f);
      SchemaReported(ctx, f);
    }
  }

  lemma WarrantedStays(ctx: Context, after: Context, items: seq<Evidence>, f: Finding)
    requires Extends(ctx, after)
    ensures Reported(after, items, f) <==> Reported(ctx, items, f)
  {
    ExtendsEvidence(ctx, after, MemoryRag);
    ConflictsMean(ctx);
    ConflictsMean(after);
  }

  /** Whatever the stores answer, the result reports exactly what is warranted by the fields of the initial context and
      by the evidence at the end, and a pass exactly when nothing is. */
  lemma FindingsExactly(ctx: Context, replies: nat -> Reply, f: Finding)
    ensures var r := EvaluationOf(ctx, replies);
            && (f.code != ValidationPassed ==> (f in r.findings <==> Reported(ctx, r.context.available, f)))
            && (Finding(ValidationPassed, Pass, None) in r.findings <==>
                  forall g :: !Reported(ctx, r.context.available, g))
  {
    var r := EvaluationOf(ctx, replies);
    NothingButEvidenceAndMarks(ctx, replies);
    EvaluationParts(ctx, replies);
    PassedExactly(r.context);
    forall g ensures Reported(r.context, r.context.available, g) <==> Reported(ctx, r.context.available, g) {
      WarrantedStays(ctx, r.context, r.context.available, g);
    }
    RaisedExactly(r.context, f);
  }

  lemma PassedExactly(ctx: Context)
    ensures Finding(ValidationPassed, Pass, None) in FindingsOf(ctx, RouteOf(ctx)) <==>
              forall g :: !Reported(ctx, ctx.available, g)
  {
    var raised := Raised(ctx, RouteOf(ctx));
    forall g ensures g in raised <==> Reported(ctx, ctx.available, g) { RaisedExactly(ctx, g); }
    if raised != [] { assert raised[0] in raised; }
  }

  ghost predicate HasFinding(findings: seq<Finding>, code: FindingCode) {
    exists f :: f in findings && f.code == code
  }

  lemma WarrantedFinding(ctx: Context, items: seq<Evidence>, code: FindingCode) returns (f: Finding)
    requires Warranted(ctx, items, code)
    ensures Reported(ctx, items, f) && f.code == code
  {
    var status := if Graded(ctx, code, Fail) then Fail else Warn;
    if code == MissingEvidence {
      var k :| k in ctx.required && !Holds(items, k);
      f := Finding(code, status, Some(k));
    } else {
      f := Finding(code, status, None);
    }
  }

  lemma CodesExactly(ctx: Context, replies: nat -> Reply, code: FindingCode)
    requires code != ValidationPassed
    ensures var r := EvaluationOf(ctx, replies);
            HasFinding(r.findings, code) <==> Warranted(ctx, r.context.available, code)
  {
    var r := EvaluationOf(ctx, replies);
    if f :| f in r.findings && f.code == code { FindingsExactly(ctx, replies, f); }
    if Warranted(ctx, r.context.available, code) {
      var f := WarrantedFinding(ctx, r.context.available, code);
      FindingsExactly(ctx, replies, f);
    }
  }

  // ----- what is decided -----

  /** Nothing too risky ever goes through, five actions excepted. */
  lemma RiskGate(ctx: Context, replies: nat -> Reply)
    ensures EvaluationOf(ctx, replies).decision != Block ==>
              ctx.risk < 0.80 || ctx.action in {Observe, Sleep, Rollback, Quarantine, Shutdown}
  {
    if TooRisky(ctx) { HardStopIsFinal(ctx, replies); }
  }

  lemma RiskWarranted(ctx: Context, items: seq<Evidence>)
    ensures Warranted(ctx, items, HighRiskAction) <==>
              ctx.risk >= 0.80 && ctx.action !in {Observe, Sleep, Rollback, Quarantine, Shutdown}
  {
  }

  /** The result names the risk exactly then. */
  lemma RiskReported(ctx: Context, replies: nat -> Reply)
    ensures HasFinding(EvaluationOf(ctx, replies).findings, HighRiskAction) <==>
              ctx.risk >= 0.80 && ctx.action !in {Observe, Sleep, Rollback, Quarantine, Shutdown}
  {
    CodesExactly(ctx, replies, HighRiskAction);
    RiskWarranted(ctx, EvaluationOf(ctx, replies).context.available);
  }

  /** What blocks any action whatever the stores answer. */
  ghost predicate Halted(ctx: Context) {
    || Conflicting(ctx)
    || TooRisky(ctx)
    || ctx.action !in ctx.constraints.permittedActions
    || (ctx.agentPolicy.Some? &&
        var p := ctx.agentPolicy.value;
        || ctx.action !in p.allowedActions || ctx.action in p.prohibitedActions
        || ForbidsTool(p, ctx.metadata.requestedTool)
        || p.budgetUnits <= 0.0
        || 0 < p.maxSteps < ctx.metadata.agentStepCount)
  }

  lemma HaltedIsFirm(ctx: Context)
    ensures Halted(ctx) <==> FirmStop(ctx)
  {
    ConflictsMean(ctx);
  }

  ghost predicate LacksApproval(ctx: Context) {
    ctx.agentPolicy.Some? && ctx.action in ctx.agentPolicy.value.approvalRequiredActions
    && !Holds(ctx.available, HumanApproval)
  }

  /** For stores that may change at every step: an operation that is not critical is blocked exactly when it is halted, or
      lacks an approval that is not on record or that it also lists as evidence. */
  lemma BlockedExactly(ctx: Context, replies: nat -> Reply)
    requires ctx.action !in ctx.constraints.criticalActions && FreshIds(ctx, replies)
    ensures EvaluationOf(ctx, replies).decision == Block <==>
              Halted(ctx)
              || (LacksApproval(ctx) && (!ctx.metadata.humanApproved || HumanApproval in ctx.required))
  {
    NonCriticalExactly(ctx, replies);
    HaltedIsFirm(ctx);
    HoldsEvidence(ctx, HumanApproval);
  }

  /** What makes an operation that is neither critical nor blocked degrade: it names no identifier or intent, rests on an
      unsupported assumption where causes matter, or is unbounded without agent policy or authority. */
  ghost predicate Shaky(ctx: Context) {
    || ctx.operationId == "" || ctx.userIntent == ""
    || (ctx.taskType in {CausalDecision, SelfModification} && Unsupported(ctx))
    || (Unbounded(ctx) && (ctx.agentPolicy.None? || !ctx.autonomyPolicy.value.authorized))
  }

  lemma ShakyIsSoft(ctx: Context)
    ensures Shaky(ctx) <==> SoftFailure(ctx)
  {
    UnsupportedMeans(ctx);
  }

  lemma DegradedExactly(ctx: Context, replies: nat -> Reply)
    ensures EvaluationOf(ctx, replies).decision == Degrade <==>
              && ctx.action !in ctx.constraints.criticalActions && EvaluationOf(ctx, replies).decision != Block
              && Shaky(ctx)
  {
    DegradesExactly(ctx, replies);
    ShakyIsSoft(ctx);
  }

  lemma UnsupportedMeans(ctx: Context)
    ensures Unsupported(ctx) <==> SomeUnsupported(ctx)
  {
    if i :| 0 <= i < |ctx.assumptions| && !ctx.assumptions[i].supported {
      assert ctx.assumptions[i] in ctx.assumptions;
    }
  }

  /** Allowed without compensation is exactly an operation of which nothing is to be reported. */
  lemma AllowedExactly(ctx: Context, replies: nat -> Reply)
    ensures EvaluationOf(ctx, replies).decision == Allow <==> forall f :: !Reported(ctx, ctx.available, f)
  {
    DecisionMeaning(ctx, replies);
    RaisedNothing(ctx);
  }

  lemma RaisedNothing(ctx: Context)
    ensures Raised(ctx, RouteOf(ctx)) == [] <==> forall f :: !Reported(ctx, ctx.available, f)
  {
    var raised := Raised(ctx, RouteOf(ctx));
    forall f ensures f in raised <==> Reported(ctx, ctx.available, f) { RaisedExactly(ctx, f); }
    if raised != [] { assert raised[0] in raised; }
  }

  /** The kinds that some store or record may supply. */
  ghost predicate Within(ctx: Context, k: Kind) {
    || Holds(ctx.available, k)
    || k == MemoryRag || k == CausalSignature || k == HealthyCheckpoint || k == RollbackPlan
    || (k == HumanApproval && ctx.metadata.humanApproved)
  }

  /** What no store can make up for in a critical operation. */
  ghost predicate InOrder(ctx: Context) {
    && ctx.operationId != "" && ctx.userIntent != ""
    && (forall k :: k in ctx.required ==> Within(ctx, k))
    && !(ctx.taskType in {CausalDecision, SelfModification} && Unsupported(ctx))
    && !(Unbounded(ctx) && !ctx.autonomyPolicy.value.authorized)
    && !Halted(ctx)
    && ctx.agentPolicy.Some?
    && (LacksApproval(ctx) ==> ctx.metadata.humanApproved)
    && (Guarded(ctx) && ctx.agentPolicy.value.requiresPlanForCritical ==> Holds(ctx.available, ValidatedPlan))
  }

  lemma InOrderIsAdmissible(ctx: Context)
    requires ctx.IsCritical()
    ensures InOrder(ctx) <==> Admissible(ctx)
  {
    HaltedIsFirm(ctx);
    UnsupportedMeans(ctx);
    HoldsEvidence(ctx, HumanApproval);
    HoldsEvidence(ctx, ValidatedPlan);
    forall k ensures Within(ctx, k) <==> Obtainable(ctx, k) { HoldsEvidence(ctx, k); }
  }

  /** A critical operation goes through exactly when it is in order and the replies come on schedule. */
  lemma CriticalInFields(ctx: Context, replies: nat -> Reply)
    requires ctx.action in ctx.constraints.criticalActions && FreshIds(ctx, replies)
    ensures EvaluationOf(ctx, replies).decision != Block <==> InOrder(ctx) && Scheduled(ctx, replies)
    ensures EvaluationOf(ctx, replies).decision != Degrade
  {
    CriticalExactly(ctx, replies);
    InOrderIsAdmissible(ctx);
    DegradesExactly(ctx, replies);
  }

  /** The compensation status and the decision correspond one to one. */
  lemma StatusTellsDecision(ctx: Context, replies: nat -> Reply)
    ensures var r := EvaluationOf(ctx, replies);
            && (r.compensationStatus == NoneApplied <==> r.decision == Allow)
            && (r.compensationStatus == AppliedStatus <==> r.decision == AllowWithCompensation)
            && (r.compensationStatus == RequiredStatus <==> r.decision == Degrade)
            && (r.compensationStatus == BlockedStatus <==> r.decision == Block)
  {
    var final := FinalContext(ctx, replies);
    EvaluationParts(ctx, replies);
    FinalFailureBlocks(ctx, replies);
    CompensationTells(final, RouteOf(final), FindingsOf(final, RouteOf(final)),
                      MergeOf(FirstExecuted(ctx, replies), FirstActions(final)));
  }

  lemma FinalFailureBlocks(ctx: Context, replies: nat -> Reply)
    ensures var final := FinalContext(ctx, replies);
            var findings := FindingsOf(final, RouteOf(final));
            var merged := MergeOf(FirstExecuted(ctx, replies), FirstActions(final));
            && (SomeFail(findings) && final.IsCritical() ==> SomeBlocked(merged))
            && (merged == [] ==> forall f :: f in findings ==> f.status == Pass)
  {
    var final := FinalContext(ctx, replies);
    MergeBlocks(FirstExecuted(ctx, replies), FirstActions(final));
    SameLength(ctx, FirstActions(ctx), replies);
    NoActionsIffClean(final);
    if SomeFail(FindingsOf(final, RouteOf(final))) && final.IsCritical() { CriticalFailureBlocks(final); }
  }

  lemma CompensationTells(ctx: Context, route: Route, findings: seq<Finding>, actions: seq<Action>)
    requires SomeFail(findings) && ctx.IsCritical() ==> SomeBlocked(actions)
    requires actions == [] ==> forall f :: f in findings ==> f.status == Pass
    ensures var r := Conclude(ctx, route, findings, actions);
            && (r.compensationStatus == NoneApplied <==> actions == [])
            && (r.compensationStatus == AppliedStatus <==> r.decision == AllowWithCompensation)
            && (r.compensationStatus == RequiredStatus <==> r.decision == Degrade)
            && (r.compensationStatus == BlockedStatus <==> r.decision == Block)
            && (actions == [] ==> r.decision == Allow)
            && (r.decision == Allow ==> actions == [])
  {
    SomeBlockedStatus(actions, ValidationStatusOf(findings));
    assert Any(findings, Fail) <==> SomeFail(findings);
  }

  /** The validation status is that of the findings at the end; confidence is lowered by a conflict that was there from the
      start, by a failure, by a warning, and by the uncertainty. */
  lemma ConfidenceExactly(ctx: Context, replies: nat -> Reply)
    ensures var r := EvaluationOf(ctx, replies);
            && (r.validationStatus == Fail <==> exists f :: f in r.findings && f.status == Fail)
            && (r.validationStatus == Pass <==> r.findings == [Finding(ValidationPassed, Pass, None)])
            && (r.confidence == Conflicted <==> Conflicting(ctx))
            && (r.confidence == High <==>
                  !Conflicting(ctx) && ctx.uncertainty < 0.40 && r.validationStatus == Pass)
            && (r.confidence == Low <==>
                  !Conflicting(ctx) && (ctx.uncertainty >= 0.70 || r.validationStatus == Fail))
  {
    var r := EvaluationOf(ctx, replies);
    NothingButEvidenceAndMarks(ctx, replies);
    EvaluationParts(ctx, replies);
    ConflictReported(ctx, replies);
    StatusOfFindings(r.context);
    ConfidenceOfFindings(r.context, r.findings);
  }

  lemma ConfidenceOfFindings(ctx: Context, findings: seq<Finding>)
    ensures var c, status := ConfidenceOf(ctx, findings), ValidationStatusOf(findings);
            && (c == Conflicted <==> HasFinding(findings, ContradictoryEvidence))
            && (c == High <==>
                  !HasFinding(findings, ContradictoryEvidence) && ctx.uncertainty < 0.40 && status == Pass)
            && (c == Low <==>
                  !HasFinding(findings, ContradictoryEvidence) && (ctx.uncertainty >= 0.70 || status == Fail))
  {
  }

  lemma ConflictReported(ctx: Context, replies: nat -> Reply)
    ensures HasFinding(EvaluationOf(ctx, replies).findings, ContradictoryEvidence) <==> Conflicting(ctx)
  {
    CodesExactly(ctx, replies, ContradictoryEvidence);
  }

  lemma StatusOfFindings(ctx: Context)
    ensures var findings := FindingsOf(ctx, RouteOf(ctx));
            && (ValidationStatusOf(findings) == Fail <==> exists f :: f in findings && f.status == Fail)
            && (ValidationStatusOf(findings) == Pass <==> findings == [Finding(ValidationPassed, Pass, None)])
            && (ValidationStatusOf(findings) == Pass <==> Raised(ctx, RouteOf(ctx)) == [])
  {
    var raised := Raised(ctx, RouteOf(ctx));
    if raised != [] {
      RaisedIsAlarm(ctx, RouteOf(ctx), raised[0]);
      assert raised[0] in raised && raised[0].status in {Warn, Fail};
    }
  }

  // ----- what is done -----

  /** When a compensation of the code is called for. */
  ghost predicate Called(ctx: Context, code: ActionCode) {
    match code
    case ExpandRetrieval => exists k :: k in ctx.required && !Holds(ctx.available, k)
    case MarkConflict => Conflicting(ctx)
    case DowngradeCausalClaim => Unsupported(ctx)
    case DegradeComputeTier | DegradeToLocal => false
    case ResourceConservation => ctx.pressure >= ctx.constraints.pressureLimit
    case BlockHighRiskAction => TooRisky(ctx)
    case BlockAction => ctx.action !in ctx.constraints.permittedActions
    case RequireAgentPolicy => ctx.agentPolicy.None? && ctx.action in ctx.constraints.criticalActions
    case StopAgent =>
      ctx.agentPolicy.Some? &&
      var p := ctx.agentPolicy.value;
      || ctx.action !in p.allowedActions || ctx.action in p.prohibitedActions
      || ForbidsTool(p, ctx.metadata.requestedTool)
      || p.budgetUnits <= 0.0
      || 0 < p.maxSteps < ctx.metadata.agentStepCount
    case RequireHumanApproval => LacksApproval(ctx)
    case DegradeAutonomyScope =>
      || (Unbounded(ctx) && (ctx.agentPolicy.None? || !ctx.autonomyPolicy.value.authorized))
      || (!Unbounded(ctx) && ctx.autonomyPolicy.Some? && ctx.autonomyPolicy.value.wantsUnbounded)
    case RequirePlanValidation =>
      ctx.agentPolicy.Some? && Guarded(ctx) && ctx.agentPolicy.value.requiresPlanForCritical
      && !Holds(ctx.available, ValidatedPlan)
    case RequireRollbackPlan =>
      ctx.agentPolicy.Some? && Guarded(ctx) && ctx.agentPolicy.value.rollbackRequiredForCritical
      && !Holds(ctx.available, RollbackPlan)
    case ReduceScope => ctx.operationId == "" || ctx.userIntent == ""
  }

  /** The finding that calls for the code. */
  ghost function Reason(ctx: Context, code: ActionCode): FindingCode {
    match code
    case ExpandRetrieval => MissingEvidence
    case MarkConflict => ContradictoryEvidence
    case DowngradeCausalClaim => UnsupportedCausalAssumption
    case DegradeComputeTier => ComputeTierExceedsPolicy
    case DegradeToLocal => ExternalNotAllowed
    case ResourceConservation => ResourcePressureLimit
    case BlockHighRiskAction => HighRiskAction
    case BlockAction => ActionNotPermitted
    case RequireAgentPolicy => CriticalActionWithoutPolicy
    case StopAgent =>
      if Warranted(ctx, ctx.available, AgentActionForbidden) then AgentActionForbidden
      else if Warranted(ctx, ctx.available, AgentToolForbidden) then AgentToolForbidden
      else if Warranted(ctx, ctx.available, AgentBudgetExhausted) then AgentBudgetExhausted
      else AgentStepLimitExceeded
    case RequireHumanApproval => HumanApprovalRequired
    case DegradeAutonomyScope =>
      if !Unbounded(ctx) then AutonomyDegradedByPolicy
      else if ctx.agentPolicy.None? then UnboundedAutonomyWithoutAgentPolicy
      else UnboundedAutonomyNotAuthorized
    case RequirePlanValidation => CriticalActionWithoutValidatedPlan
    case RequireRollbackPlan => CriticalActionWithoutRollbackPlan
    case ReduceScope => InvalidOperationContract
  }

  lemma WarrantedCalls(ctx: Context, f: Finding)
    requires Reported(ctx, ctx.available, f)
    ensures f.status != Pass && Called(ctx, ActionFor(ctx, f).code)
  {
  }

  lemma CalledIsReported(ctx: Context, code: ActionCode) returns (f: Finding)
    requires Called(ctx, code)
    ensures Reported(ctx, ctx.available, f) && ActionFor(ctx, f).code == code
  {
    var reason := Reason(ctx, code);
    var status := if Graded(ctx, reason, Fail) then Fail else Warn;
    if code == ExpandRetrieval {
      var k :| k in ctx.required && !Holds(ctx.available, k);
      f := Finding(reason, status, Some(k));
    } else {
      f := Finding(reason, status, None);
    }
  }

  ghost predicate HasCode(actions: seq<Action>, code: ActionCode) {
    exists a :: a in actions && a.code == code
  }

  lemma FirstCodes(ctx: Context, code: ActionCode)
    ensures HasCode(FirstActions(ctx), code) <==> Called(ctx, code)
  {
    var findings := FindingsOf(ctx, RouteOf(ctx));
    ActionsMembers(ctx, findings);
    if HasCode(FirstActions(ctx), code) {
      var a :| a in FirstActions(ctx) && a.code == code;
      var f :| f in findings && f.status != Pass && a == ActionFor(ctx, f);
      RaisedExactly(ctx, f);
      WarrantedCalls(ctx, f);
    }
    if Called(ctx, code) {
      var f := CalledIsReported(ctx, code);
      RaisedExactly(ctx, f);
      WarrantedCalls(ctx, f);
      assert ActionFor(ctx, f) in FirstActions(ctx);
    }
  }

  lemma CalledLess(ctx: Context, after: Context, code: ActionCode)
    requires Extends(ctx, after)
    ensures Called(after, code) ==> Called(ctx, code)
  {
    ExtendsEvidence(ctx, after, MemoryRag);
    ConflictsMean(ctx);
    ConflictsMean(after);
    forall k ensures Holds(ctx.available, k) ==> Holds(after.available, k) {
      if e :| e in ctx.available && e.kind == k { assert e in after.available; }
    }
  }

  /** A code that was not called for at first is not called for later, and none is lost: the compensations of the
      result are those called for by the fields of the initial context. */
  lemma ActionsExactly(ctx: Context, replies: nat -> Reply, code: ActionCode)
    ensures HasCode(EvaluationOf(ctx, replies).actions, code) <==> Called(ctx, code)
  {
    var executed, final := FirstExecuted(ctx, replies), FinalContext(ctx, replies);
    EvaluationParts(ctx, replies);
    NothingButEvidenceAndMarks(ctx, replies);
    FirstCodes(ctx, code);
    FirstCodes(final, code);
    CalledLess(ctx, final, code);
    ExecutedCodes(ctx, FirstActions(ctx), replies, code);
    MergedCodes(executed, FirstActions(final), code);
  }

  lemma ExecutedCodes(ctx: Context, actions: seq<Action>, replies: nat -> Reply, code: ActionCode)
    requires actions == FirstActions(ctx)
    ensures HasCode(ExecuteAll(ctx, actions, replies).1, code) <==> HasCode(actions, code)
  {
    FirstActionsNeverDegrade(ctx);
    ExecuteAllExtends(ctx, actions, replies);
    SameCodes(actions, ExecuteAll(ctx, actions, replies).1, code);
  }

  lemma SameCodes(actions: seq<Action>, executed: seq<Action>, code: ActionCode)
    requires |actions| == |executed| && forall i :: 0 <= i < |actions| ==> Outcome(actions[i], executed[i])
    ensures HasCode(executed, code) <==> HasCode(actions, code)
  {
    if a :| a in actions && a.code == code {
      var i :| 0 <= i < |actions| && actions[i] == a;
      assert Outcome(actions[i], executed[i]) && executed[i] in executed;
    }
    if a :| a in executed && a.code == code {
      var i :| 0 <= i < |executed| && executed[i] == a;
      assert Outcome(actions[i], executed[i]) && actions[i] in actions;
    }
  }

  lemma MergedCodes(executed: seq<Action>, followups: seq<Action>, code: ActionCode)
    ensures HasCode(MergeOf(executed, followups), code) <==> HasCode(executed, code) || HasCode(followups, code)
  {
    MergeMeaning(executed, followups);
    CodesAreKeys(executed, code);
    CodesAreKeys(followups, code);
    CodesAreKeys(MergeOf(executed, followups), code);
  }

  lemma CodesAreKeys(actions: seq<Action>, code: ActionCode)
    ensures HasCode(actions, code) <==> exists k :: HasKey(actions, k) && k.code == code
  {
    if a :| a in actions && a.code == code { assert HasKey(actions, KeyOf(a)); }
  }

  // ----- what is left behind -----

  /** The marks that a step of the code sets. */
  function MarksOf(code: ActionCode): set<Mark> {
    match code
    case ResourceConservation => {ContextReduced, CachePreferred, LargeModelsAvoided}
    case DegradeComputeTier | DegradeToLocal => {ExternalReasonerDisabled}
    case DowngradeCausalClaim => {CausalClaimDowngraded}
    case MarkConflict => {ConflictIsolated}
    case StopAgent => {AgentStopped}
    case DegradeAutonomyScope => {AutonomyDegraded}
    case ExpandRetrieval | RequireRollbackPlan | RequirePlanValidation | RequireHumanApproval => {}
    case BlockHighRiskAction | BlockAction | RequireAgentPolicy | ReduceScope => {ScopeReduced}
  }

  lemma StepMarks(ctx: Context, a: Action, r: Reply)
    ensures Execute(ctx, a, r).0.metadata.marks == ctx.metadata.marks + MarksOf(a.code)
  {
  }

  lemma {:induction false} MarksAfter(ctx: Context, actions: seq<Action>, replies: nat -> Reply, m: Mark)
    ensures m in ExecuteAll(ctx, actions, replies).0.metadata.marks <==>
              m in ctx.metadata.marks || exists a :: a in actions && m in MarksOf(a.code)
  {
    if actions != [] {
      var n := |actions| - 1;
      assert actions == actions[..n] + [actions[n]];
      MarksAfter(ctx, actions[..n], replies, m);
      StepMarks(ExecuteAll(ctx, actions[..n], replies).0, actions[n], replies(n));
    }
  }

  /** When a mark is set. */
  ghost predicate Sets(ctx: Context, m: Mark) {
    match m
    case ContextReduced | CachePreferred | LargeModelsAvoided => ctx.pressure >= ctx.constraints.pressureLimit
    case ExternalReasonerDisabled => false
    case CausalClaimDowngraded => Unsupported(ctx)
    case ConflictIsolated => Conflicting(ctx)
    case AgentStopped => Called(ctx, StopAgent)
    case AutonomyDegraded => Called(ctx, DegradeAutonomyScope)
    case ScopeReduced =>
      || ctx.operationId == "" || ctx.userIntent == ""
      || TooRisky(ctx)
      || ctx.action !in ctx.constraints.permittedActions
      || (ctx.agentPolicy.None? && ctx.action in ctx.constraints.criticalActions)
  }

  lemma SetsByCalls(ctx: Context, m: Mark)
    ensures Sets(ctx, m) <==> exists code :: Called(ctx, code) && m in MarksOf(code)
  {
    if Sets(ctx, m) {
      var code :=
        match m
        case ContextReduced | CachePreferred | LargeModelsAvoided => ResourceConservation
        case ExternalReasonerDisabled => DegradeToLocal
        case CausalClaimDowngraded => DowngradeCausalClaim
        case ConflictIsolated => MarkConflict
        case AgentStopped => StopAgent
        case AutonomyDegraded => DegradeAutonomyScope
        case ScopeReduced =>
          if TooRisky(ctx) then BlockHighRiskAction
          else if ctx.action !in ctx.constraints.permittedActions then BlockAction
          else if ctx.operationId == "" || ctx.userIntent == "" then ReduceScope
          else RequireAgentPolicy;
      assert Called(ctx, code) && m in MarksOf(code);
    }
  }

  /** Whatever the stores answer, the marks at the end are those of the start and those that the fields of the initial
      context call for; the external reasoner is never disabled. */
  lemma MarksExactly(ctx: Context, replies: nat -> Reply, m: Mark)
    ensures m in EvaluationOf(ctx, replies).context.metadata.marks <==> m in ctx.metadata.marks || Sets(ctx, m)
  {
    EvaluationParts(ctx, replies);
    MarksAfter(ctx, FirstActions(ctx), replies, m);
    SetsByCalls(ctx, m);
    forall code ensures HasCode(FirstActions(ctx), code) <==> Called(ctx, code) { FirstCodes(ctx, code); }
    assert (exists a :: a in FirstActions(ctx) && m in MarksOf(a.code)) <==>
           exists code :: HasCode(FirstActions(ctx), code) && m in MarksOf(code) by {
      if a :| a in FirstActions(ctx) && m in MarksOf(a.code) { assert HasCode(FirstActions(ctx), a.code); }
    }
  }

  /** An evidence item that the stores supply. */
  predicate SuppliedBy(ctx: Context, e: Evidence, r: Reply) {
    && e.id == r.freshId && !e.conflicting
    && match e.kind
       case MemoryRag =>
         ctx.runId != "" && r.memory.Some? && e.canonical == r.memory.value.canonical
         && (0.0 <= r.memory.value.score <= 1.0 ==> e.confidence == Round4(r.memory.value.score))
       case CausalSignature =>
         ctx.scenario != "" && r.signature.Some? && e.canonical
         && (0.0 <= r.signature.value <= 1.0 ==> e.confidence == Round4(r.signature.value))
       case HealthyCheckpoint =>
         ctx.runId != "" && r.checkpoint == Some(Checkpoint(true)) && e.canonical && e.confidence == 0.80
       case RollbackPlan =>
         && ctx.runId != "" && r.checkpoint.Some? && e.canonical == r.checkpoint.value.healthy
         && e.confidence == if e.canonical then 0.75 else 0.40
       case HumanApproval => ctx.metadata.humanApproved && e.canonical && e.confidence == 0.95
       case ExecutionPlan => !e.canonical && e.confidence == 0.55
       case _ => false
  }

  lemma Confidences()
    ensures Round4(0.80) == 0.80 && Round4(0.75) == 0.75 && Round4(0.40) == 0.40 && Round4(0.95) == 0.95
    ensures Round4(0.55) == 0.55
  {
    RoundExact(0.80, 8000);
    RoundExact(0.75, 7500);
    RoundExact(0.40, 4000);
    RoundExact(0.95, 9500);
    RoundExact(0.55, 5500);
  }

  lemma RecoveringSupplies(ctx: Context, a: Action, kind: Kind, r: Reply, e: Evidence)
    requires e in Recovering(ctx, a, kind, r).0.available && e !in ctx.available
    ensures SuppliedBy(ctx, e, r)
  {
    Confidences();
    var items := RecoveredEvidence(ctx, kind, r);
    assert items == [items[0]] && Additions(ctx, items[1..]) == [];
  }

  lemma StepSupplies(ctx: Context, a: Action, r: Reply, e: Evidence)
    requires e in Execute(ctx, a, r).0.available && e !in ctx.available
    ensures SuppliedBy(ctx, e, r)
  {
    match a.code
    case ExpandRetrieval => RecoveringSupplies(ctx, a, TargetOrNone(a), r, e);
    case RequireRollbackPlan => RecoveringSupplies(ctx, a, RollbackPlan, r, e);
    case RequireHumanApproval => RecoveringSupplies(ctx, a, HumanApproval, r, e);
    case RequirePlanValidation =>
      Confidences();
      var plan := [NewEvidence(r, ExecutionPlan, 0.55, false)];
      assert Additions(ctx, plan[1..]) == [];
    case _ =>
  }

  lemma {:induction false} StepsSupply(ctx: Context, actions: seq<Action>, replies: nat -> Reply, e: Evidence)
    requires Plain(actions)
    requires e in ExecuteAll(ctx, actions, replies).0.available && e !in ctx.available
    ensures exists i :: 0 <= i < |actions| && SuppliedBy(ctx, e, replies(i))
  {
    if actions != [] {
      var n := |actions| - 1;
      var before := ExecuteAll(ctx, actions[..n], replies).0;
      ExecuteAllExtends(ctx, actions[..n], replies);
      if e in before.available {
        StepsSupply(ctx, actions[..n], replies, e);
      } else {
        StepSupplies(before, actions[n], replies(n), e);
      }
    }
  }

  /** Whatever is in evidence at the end and was not at the start was supplied at one of the steps, with the confidence
      and the standing that its source gives it. */
  lemma EvidenceIsSupplied(ctx: Context, replies: nat -> Reply, e: Evidence)
    requires e in EvaluationOf(ctx, replies).context.available && e !in ctx.available
    ensures exists i :: 0 <= i < |FirstActions(ctx)| && SuppliedBy(ctx, e, replies(i))
  {
    EvaluationParts(ctx, replies);
    FirstActionsNeverDegrade(ctx);
    StepsSupply(ctx, FirstActions(ctx), replies, e);
  }
}
