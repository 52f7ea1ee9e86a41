/** The compensation matrix: one action for every finding that is not a pass. */
module Compensations {
  import opened Contracts

  function Matrix(code: FindingCode): ActionCode {
    match code
    case MissingEvidence => ExpandRetrieval
    case ContradictoryEvidence => MarkConflict
    case UnsupportedCausalAssumption => DowngradeCausalClaim
    case ComputeTierExceedsPolicy => DegradeComputeTier
    case ExternalNotAllowed => DegradeToLocal
    case ResourcePressureLimit => ResourceConservation
    case HighRiskAction => BlockHighRiskAction
    case ActionNotPermitted => BlockAction
    case CriticalActionWithoutPolicy => RequireAgentPolicy
    case AgentActionForbidden | AgentToolForbidden | AgentBudgetExhausted | AgentStepLimitExceeded => StopAgent
    case HumanApprovalRequired => RequireHumanApproval
    case AutonomyDegradedByPolicy
       | UnboundedAutonomyWithoutAgentPolicy | UnboundedAutonomyNotAuthorized => DegradeAutonomyScope
    case CriticalActionWithoutValidatedPlan => RequirePlanValidation
    case CriticalActionWithoutRollbackPlan => RequireRollbackPlan
    case InvalidOperationContract | InvalidRouteContract | ValidationPassed => ReduceScope
  }

  /** Findings that block whether or not the action is critical. */
  predicate AlwaysBlocks(code: FindingCode) {
    code in {ContradictoryEvidence, HighRiskAction, ActionNotPermitted, AgentActionForbidden, AgentToolForbidden,
             AgentBudgetExhausted, AgentStepLimitExceeded, HumanApprovalRequired}
  }

  predicate Blocks(ctx: Context, f: Finding) {
    (f.status == Fail && ctx.IsCritical()) || AlwaysBlocks(f.code)
  }

  function ActionFor(ctx: Context, f: Finding): Action {
    Action(Matrix(f.code), if Blocks(ctx, f) then Blocked else Applied, f.code, f.missing, false, [])
  }

  function ActionsFor(ctx: Context, findings: seq<Finding>): seq<Action> {
    if findings == [] then []
    else
      var last := findings[|findings| - 1];
      ActionsFor(ctx, findings[..|findings| - 1]) + if last.status == Pass then [] else [ActionFor(ctx, last)]
  }

  method Compensate(ctx: Context, findings: seq<Finding>) returns (actions: seq<Action>)
    ensures actions == ActionsFor(ctx, findings)
  {
    actions := [];
    for i := 0 to |findings|
      invariant actions == ActionsFor(ctx, findings[..i])
    {
      assert findings[..i + 1][..i] == findings[..i];
      if findings[i].status == Pass { continue; }
      actions := actions + [ActionFor(ctx, findings[i])];
    }
    assert findings[..|findings|] == findings;
  }

  /** The actions are exactly those of the alarms, and there are none only when every finding passes. */
  lemma {:induction false} ActionsMembers(ctx: Context, findings: seq<Finding>)
    ensures forall a :: a in ActionsFor(ctx, findings) ==>
                        exists f :: f in findings && f.status != Pass && a == ActionFor(ctx, f)
    ensures forall f :: f in findings && f.status != Pass ==> ActionFor(ctx, f) in ActionsFor(ctx, findings)
  {
    if findings != [] {
      var n := |findings| - 1;
      assert findings == findings[..n] + [findings[n]];
      ActionsMembers(ctx, findings[..n]);
    }
  }
}
