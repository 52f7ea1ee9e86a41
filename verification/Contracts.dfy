/** The records of the operational conjunction: tiers, evidence, policies, contexts,
    findings and compensation actions.

    Names that the code compares with a literal are constructors; every other name
    is carried by an `Other...` constructor. */
module Contracts {

  datatype Option<+T> = None | Some(value: T)

  datatype Tier = Tier0Deterministic | Tier1LocalLight | Tier2Specialized | Tier3External

  function TierRank(tier: Tier): nat {
    match tier
    case Tier0Deterministic => 0
    case Tier1LocalLight => 1
    case Tier2Specialized => 2
    case Tier3External => 3
  }

  datatype TaskType =
    LifeCycle | CausalDecision | ExternalConsultation | SelfModification | AgentAction | Maintenance

  datatype ActionName = Observe | Sleep | Rollback | Quarantine | Shutdown | OtherAction(name: string)

  datatype Kind =
    | MemoryRag | CausalSignature | HealthyCheckpoint | RollbackPlan
    | ExecutionPlan | HumanApproval | ValidatedPlan | Conflict
    | OtherKind(name: string)

  /** `conflicting` is the truth value of the payload's own conflict entry. */
  datatype Evidence =
    Evidence(id: string, kind: Kind, confidence: real, conflicting: bool, canonical: bool)

  datatype CausalAssumption = CausalAssumption(name: string, supported: bool)

  datatype Constraints = Constraints(
    maxTier: Tier,
    allowExternal: bool,
    pressureLimit: real,
    criticalActions: seq<ActionName>,
    permittedActions: seq<ActionName>)

  datatype AgentPolicy = AgentPolicy(
    allowedActions: seq<ActionName>,
    prohibitedActions: seq<ActionName>,
    allowedTools: seq<string>,
    prohibitedTools: seq<string>,
    budgetUnits: real,
    maxSteps: int,
    requiresPlanForCritical: bool,
    rollbackRequiredForCritical: bool,
    approvalRequiredActions: seq<ActionName>)
  {
    predicate Allows(action: ActionName) {
      action in allowedActions && action !in prohibitedActions
    }

    /** An absent tool name is the empty string. */
    predicate AllowsTool(tool: string) {
      tool == "" || (tool !in prohibitedTools && (allowedTools == [] || tool in allowedTools))
    }
  }

  datatype AutonomyMode = Bounded | GovernedUnbounded

  /** `wantsUnbounded`: the requested mode, trimmed and lower-cased, is one of the four unbounded names. */
  datatype AutonomyPolicy =
    AutonomyPolicy(wantsUnbounded: bool, activeMode: AutonomyMode, authorized: bool)

  datatype Mark =
    | ContextReduced | CachePreferred | LargeModelsAvoided | ExternalReasonerDisabled
    | CausalClaimDowngraded | ConflictIsolated | AgentStopped | AutonomyDegraded | ScopeReduced

  /** The metadata entries that decisions read, and the flags that compensations write. */
  datatype Metadata =
    Metadata(requestedTool: string, agentStepCount: int, humanApproved: bool, marks: set<Mark>)

  datatype Context = Context(
    operationId: string,
    runId: string,
    userIntent: string,
    taskType: TaskType,
    action: ActionName,
    scenario: string,
    required: seq<Kind>,
    available: seq<Evidence>,
    assumptions: seq<CausalAssumption>,
    constraints: Constraints,
    agentPolicy: Option<AgentPolicy>,
    autonomyPolicy: Option<AutonomyPolicy>,
    risk: real,
    complexity: real,
    pressure: real,
    uncertainty: real,
    gpuAvailable: bool,
    vramPressure: real,
    metadata: Metadata)
  {
    predicate HasEvidence(kind: Kind) {
      exists i :: 0 <= i < |available| && available[i].kind == kind
    }

    predicate HasId(id: string) {
      exists i :: 0 <= i < |available| && available[i].id == id
    }

    predicate HasConflict() {
      exists i :: 0 <= i < |available| && (available[i].kind == Conflict || available[i].conflicting)
    }

    predicate IsCritical() {
      action in constraints.criticalActions
    }
  }

  /** The reasoning path literals of the router; none of them is empty. */
  datatype PathName =
    | ResourceConservationPath | EvidenceRecovery | PolicyGate | CausalFamilies
    | CausalHypothesisGuard | ExternalAdvisory | DeterministicRules | LocalLightFamilies

  datatype Route = Route(tier: Tier, path: PathName, degraded: bool, gpuBacked: bool)

  datatype Status = Pass | Warn | Fail

  datatype FindingCode =
    | ValidationPassed
    | InvalidOperationContract | InvalidRouteContract
    | MissingEvidence | ContradictoryEvidence
    | UnsupportedCausalAssumption
    | ComputeTierExceedsPolicy | ExternalNotAllowed | ResourcePressureLimit
    | HighRiskAction | ActionNotPermitted
    | CriticalActionWithoutPolicy
    | AgentActionForbidden | AgentToolForbidden | AgentBudgetExhausted | AgentStepLimitExceeded
    | HumanApprovalRequired
    | CriticalActionWithoutValidatedPlan | CriticalActionWithoutRollbackPlan
    | AutonomyDegradedByPolicy
    | UnboundedAutonomyWithoutAgentPolicy | UnboundedAutonomyNotAuthorized

  /** The only finding details that anything reads back is the missing kind. */
  datatype Finding = Finding(code: FindingCode, status: Status, missing: Option<Kind>)

  datatype ActionCode =
    | ExpandRetrieval | MarkConflict | DowngradeCausalClaim
    | DegradeComputeTier | DegradeToLocal | ResourceConservation
    | BlockHighRiskAction | BlockAction | RequireAgentPolicy | StopAgent
    | RequireHumanApproval | DegradeAutonomyScope
    | RequirePlanValidation | RequireRollbackPlan | ReduceScope

  datatype ActionStatus = Applied | Blocked

  /** A compensation action; `finding` and `missing` are its directive's finding code and details. */
  datatype Action = Action(
    code: ActionCode,
    status: ActionStatus,
    finding: FindingCode,
    missing: Option<Kind>,
    executed: bool,
    recovered: seq<Kind>)

  datatype Key = Key(code: ActionCode, finding: FindingCode)

  function KeyOf(a: Action): Key {
    Key(a.code, a.finding)
  }

  const RISK_LIMIT := 0.80
  const PRESSURE_LIMIT := 0.85
  const PURITY_FLOOR := 0.65

  /** Resolves the autonomy envelope; every condition that fails is collected as a blocker. */
  method ResolveAutonomy(
    wantsUnbounded: bool, risk: real, pressure: real, purity: real,
    agentPolicyPresent: bool, conjunctionEnabled: bool,
    riskLimit: real := RISK_LIMIT, pressureLimit: real := PRESSURE_LIMIT, purityFloor: real := PURITY_FLOOR)
    returns (policy: AutonomyPolicy)
    ensures policy.wantsUnbounded == wantsUnbounded
    ensures policy.authorized <==> policy.activeMode == GovernedUnbounded
    ensures policy.authorized <==>
            && wantsUnbounded && conjunctionEnabled && agentPolicyPresent
            && risk < riskLimit && pressure < pressureLimit && purity >= purityFloor
  {
    var blockers: seq<string> := [];
    if !conjunctionEnabled { blockers := blockers + ["operational_conjunction_required"]; }
    if !agentPolicyPresent { blockers := blockers + ["agent_policy_required"]; }
    if risk >= riskLimit { blockers := blockers + ["risk_limit"]; }
    if pressure >= pressureLimit { blockers := blockers + ["resource_pressure_limit"]; }
    if purity < purityFloor { blockers := blockers + ["memory_purity_floor"]; }
    if wantsUnbounded && blockers == [] {
      policy := AutonomyPolicy(wantsUnbounded, GovernedUnbounded, true);
    } else {
      policy := AutonomyPolicy(wantsUnbounded, Bounded, false);
    }
  }
}
