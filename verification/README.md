# A verified model of the operational conjunction and the episode certification

This project models the decision core of the runtime in Dafny and proves what it guarantees.

* **Conjunction** (`Contracts`, `Router`, `Validators`, `Compensations`, `Execution`, `Merging`, `Service`,
  `Deadlocks`, `Outcomes`): an operation is routed to a compute tier, validated, compensated and, if anything was compensated,
  routed, validated and compensated a second time on the context that the compensations left; both lists of actions are
  merged under a key, and a decision follows. What memory, registry and checkpoint store answer is an arbitrary function
  of the step, so every safety theorem holds for every behaviour of the stores; `Deadlocks` says what else it takes for
  an operation to go through, and `Outcomes` what an evaluation reports, does and decides, in the fields of the context
  before it.
* **Hooks** (`HookManager.dfy`): the depth-first dependency order, with the call stack as an explicit number of frames,
  and the run along that order. Resolution is proved to return exactly on acyclic requests.
* **Certification** (`Statistics`, `AgrestiCoull`, `RiskEngine`, `Sections`, `Coherence`, `FailureModes`,
  `TransferPosterior`, `PurityEffect`, `TransferAssessment`, `Certificates`, `PromotionGate`, `Promotions`, `TraceIntegrity`): order
  statistics and CVaR, confidence bounds, the accept / buffer / reject rule, the divergence of sections, abstaining detectors, the
  posterior and its scope, the certificate and the gate.
* **Restarts** (`Windows`, `Restarts`): trackers that live in memory and seed themselves from stored certificates,
  compared over whole streams of episodes with a process that is never replaced.
* **Calibration** (`Calibration`): the thresholds suggested from recorded runs, followed through to the verdict that
  the rule gives those very runs.

Numbers are real numbers. A square root enters as a witness `root` with `root >= 0` and `root * root` equal to the
radicand; `AgrestiCoull.LowerReaches` shows that comparing a bound with a threshold needs no root, and decisions use
the root-free form. Names that the code compares with a literal are constructors, all others are strings. Objects whose
fields the program updates are classes, loops are loops; each such method is tied to a function of its inputs or old
state, and the lemmas are about those functions.

## Findings

Statements that a reader of the code or of its comments might expect and that do not hold. Each has a lemma with the
exact condition or an input.

* **Recovering evidence twice blocks the operation.** When two steps are to recover the same evidence, the second finds
  nothing left and keeps its block, although everything required is there in the end. `Deadlocks.CriticalExactly` is the
  exact condition for a critical operation and for stores that may answer differently at every step, as the memory
  search does, which reads the events that the evaluation itself appends (`runtime/conjunction/service.py:393`,
  `:670-700`): every missing entry is found at one of its steps, the last one at its last step and not before, approval
  is not missing twice, and the rollback step finds a checkpoint and no plan recovered before. With stores that answer
  everything three deadlocks are left: the last missing entry of the requirement list occurs in it before, a missing
  rollback plan is both required and demanded by the policy, or a missing approval is (`CriticalWithAnsweringStores`;
  `CriticalWithSteadyStores` for stores that hold only part; `NonCriticalExactly` for other operations;
  `RollbackPlanDeadlock` as the case of the plan).
* **Neutral priors are not always silent.** The comment at `runtime/certification/transfer_assessment.py:463-465` says
  that the neutral numbers never raise a mode. They raise one causal inversion when polarity is inverted and causal
  support was not measured (`FailureModes.NeutralAgrees`); the verdict is not affected.
* **A calibrating run can be rejected by its own threshold.** The comment at `scripts/calibrate_risk_cvar.py:99-102`
  rounds the probability threshold down so that no run is rejected by the threshold it calibrates. Bounds are recorded
  with four decimals, to nearest: 21 changes of 34 that are not drops have a bound just below 0.45, recorded as 0.45,
  and the suggested threshold is 0.45 (`Calibration.RoundingRejectsItsOwnRun`; `CalibrationGuarantee` has the exact
  exception).
* **The certificate does not always read back as the live section**: a scenario name that differs from its metadata, or
  a main variable named by the empty text (`Certificates.SectionRoundTrip`, an equivalence).
* **A restarted process may report another change of the corrected index**, because the stored index has six decimals
  while the one in memory has all of them; the change is itself recorded with six. The report differs exactly when the
  window is empty, then no change is reported, or the change to the next index is recorded differently from the stored
  index (`Restarts.RestartShows`, and over streams `RestartsUnnoticedExactly`; an input in `RestartShowsAfter`: 0.0
  without the restart, 0.000001 with it). With a window it stays or moves by one unit of the sixth decimal
  (`RestartsDoNotMatter`). The change is stored with the certificate, inside the omega block
  (`runtime/certification/certificate_builder.py:106`); neither the gate nor its trackers read it back, but the reward and
  the vital signs do (`runtime/world/scenario_runner.py:1308`, `runtime/life/vitals.py:181`). Risk blocks, verdicts and
  promotions are the same after any restarts, however episodes are named (`RestartsNeverTouchRisk`).
* **The risk score does not clamp the uncertainty** that the index clamps. The risk ceiling is redundant exactly up to an
  uncertainty of 329/75 (`Certificates.RiskCeilingRedundant`); beyond it, it rejects candidates that the index accepts.
* **More purity can lower the posterior**: the aggregated risk is an average over the detected modes, so a mild second
  mode lowers it. The posterior is monotone in purity exactly when the recorded risk of a spotless memory is not above
  that of a memory at the brink of being reported (`PurityEffect.MonotoneExactly`); a spotless risk of at most 0.18 is
  enough and one of 0.1807 is too much (`PurityBoundary`). Beside a broken trace alone, leaving the reported range lowers
  the posterior exactly from a purity above 0.56448 (`TransferPosterior.PurityCanLower`).
* **CVaR is not monotone in the losses**: over the samples of a size it is, exactly at level zero and at the levels at
  which it is the maximum (`Statistics.CVaRMonotoneExactly`).
* **`degrade_to_local` run by itself can raise a ceiling** (`Execution.DegradeToLocalCanRaiseTheCeiling`); within an
  evaluation it never runs.

## Model

| member | source | states |
|---|---|---|
| Contracts.ResolveAutonomy | runtime/conjunction/contracts.py:180-249 | unbounded autonomy is granted exactly when it was asked for and every one of the five conditions holds; being authorised and being in that mode are the same |
| Router.RouteOf | runtime/conjunction/router.py:16-201 | whatever the context, the route stays under the policy ceiling, at tier 1 without GPU backing when a present GPU is saturated, is external only with permission and uncertainty of at least 0.75, and is deterministic under resource pressure |
| Router.TierExactly | runtime/conjunction/router.py:32-139 | which tier is chosen, as a condition on the context: tier 3, 2 and 0 each in one equivalence, tier 1 for the rest |
| Router.PathExactly | runtime/conjunction/router.py:32-169 | each path as a condition on the context, and when the route is degraded or GPU-backed |
| Validators.CheckEvidence | runtime/conjunction/validators.py:63-92 | the loop appends one finding for every missing required kind, in order, and then the conflict |
| Validators.CheckCausal | runtime/conjunction/validators.py:94-109 | the loop appends one finding for every unsupported assumption |
| Validators.Validate | runtime/conjunction/validators.py:11-61 | the accumulated findings are those of all validators in order, or the single pass |
| Validators.MissingFindingsMembers | runtime/conjunction/validators.py:63-81 | exactly the required kinds without evidence are reported, failing exactly for critical actions |
| Validators.CausalFindingsMembers | runtime/conjunction/validators.py:94-109 | a causal finding exists exactly when an assumption is unsupported, failing exactly for the two causal task types |
| Validators.AgentFindingsFail | runtime/conjunction/validators.py:182-286 | everything the agent check raises fails, and is one of its eight codes |
| Validators.RaisedIsAlarm | runtime/conjunction/validators.py:11-34 | nothing that a validator raises is a pass |
| Validators.CriticalFailsUnlessCleared | runtime/conjunction/validators.py:11-325 | under the router's own route, a critical action has a failing finding exactly when some requirement, stated without findings, does not hold |
| Compensations.Compensate | runtime/conjunction/compensations.py:101-129 | one action for each finding that is not a pass, in order |
| Compensations.ActionsMembers | runtime/conjunction/compensations.py:101-144 | the actions are exactly those of the alarms, both ways |
| Execution.ExecuteCompensations | runtime/conjunction/service.py:374-394 | the loop threads the context through the steps and collects the executed actions |
| Execution.ExecuteExtends | runtime/conjunction/service.py:396-539 | a step keeps the action's identity, never turns applied into blocked, and unless it degrades a tier only adds new, grantable evidence and marks |
| Execution.ExecuteAllExtends | runtime/conjunction/service.py:374-539 | so does every sequence of steps that degrade nothing, whatever the stores answer |
| Execution.ExtendsEvidence | runtime/conjunction/service.py:541-723 | nothing present is lost, conflicts are neither added nor removed, a validated plan is never supplied, and approval only if metadata approved it |
| Execution.DegradeToLocalCanRaiseTheCeiling | runtime/conjunction/service.py:429-444 | the step by itself raises the ceiling exactly when it was tier 0 |
| Merging.MergeCompensationActions | runtime/conjunction/service.py:725-747 | the two loops over an ordered dictionary compute the merged list |
| Merging.RecordedMeaning | runtime/conjunction/service.py:732-735 | a key is recorded exactly when it was executed, and blocked exactly when its last execution stayed blocked |
| Merging.FollowedMeaning | runtime/conjunction/service.py:736-747 | no key is lost or invented, and a key is blocked exactly when its last execution stayed blocked or some follow-up is blocked |
| Merging.FollowedDetails | runtime/conjunction/service.py:736-747 | the details of a merged action are those of the last follow-up of its key |
| Merging.MergeMeaning | runtime/conjunction/service.py:725-747 | one action a key; keys and blocks of the merged list in both directions |
| Merging.MergeBlocks | runtime/conjunction/service.py:725-747 | the merged list blocks exactly when a follow-up blocks or a key stays blocked from the first round |
| Service.Evaluate | runtime/conjunction/service.py:49-128 | the whole evaluation computes the function that the theorems below are about |
| Service.RoutedFindings | runtime/conjunction/validators.py:111-150 | under the router's route neither tier finding nor an empty path is ever raised, and pressure only warns |
| Service.FirstActionsNeverDegrade | runtime/conjunction/service.py:429-444 | the degrade steps are unreachable within an evaluation |
| Service.NothingButEvidenceAndMarks | runtime/conjunction/service.py:49-75 | the final context differs from the initial one only by new grantable evidence and marks |
| Service.SelectedTierWithinInitialPolicy | runtime/conjunction/service.py:49-64 | across both rounds the selected tier obeys the initial ceiling, GPU limit and external permission; constraints at the end are those at the start |
| Service.NoActionsIffClean | runtime/conjunction/service.py:50-57 | there is nothing to compensate exactly when no validator raised anything |
| Service.EvaluationParts | runtime/conjunction/service.py:49-75 | with or without a second round, the result is concluded from the final context and the merged actions |
| Service.DecisionMeaning | runtime/conjunction/service.py:878-926 | block exactly when compensation is blocked, allow exactly when the first validation is clean, degrade exactly when a finding fails at the end without a block, never for a critical action |
| Service.DegradesExactly | runtime/conjunction/service.py:878-926 | an operation degrades exactly when it is not critical, not blocked, and its initial context has an empty identifier or intent, an unsupported causal assumption of a causal task, or uncleared autonomy; no compensation changes that |
| Service.CriticalDecision | runtime/conjunction/service.py:49-128 | a critical action goes through exactly when the final context meets every requirement and no first-round action stays blocked |
| Service.InadmissibleIsBlocked | runtime/conjunction/service.py:374-632 | a critical action whose initial context lacks what no compensation may supply, an execution plan included, is blocked whatever the stores answer |
| Service.NonCriticalDecision | runtime/conjunction/service.py:49-128 | any other action is blocked exactly by a hard stop of the final context or a first-round action that stays blocked |
| Service.HardStopPersists | runtime/conjunction/service.py:374-723 | no execution lifts a hard stop that an approval on record would not lift |
| Service.HardStopIsFinal | runtime/conjunction/compensations.py:131-144 | such a hard stop blocks every action, critical or not |
| Deadlocks.KindsAfter | runtime/conjunction/service.py:374-632 | after any list of steps a kind of evidence is there exactly if it was, or some step targeted it when the stores gave it |
| Deadlocks.SticksMeaning | runtime/conjunction/service.py:396-539 | a key stays blocked exactly when its last step was blocked and its target was not to be had, already there or recovered by an earlier step |
| Deadlocks.StatusAfter | runtime/conjunction/service.py:396-539 | after any earlier steps, a step loses its block and reports its target as recovered exactly when that was missing, not recovered before, and given now |
| Deadlocks.FirstActionsParts | runtime/conjunction/validators.py:11-34 | the first round is the schema, missing and middle steps, then the approval, plan and rollback steps |
| Deadlocks.CriticalStuck | runtime/conjunction/service.py:396-747 | in an admissible critical context, and for stores that may change at every step, a step stays blocked exactly in one of three cases: the last missing entry, the second approval, the late rollback step |
| Deadlocks.CriticalByKeys | runtime/conjunction/service.py:49-128 | for such stores a critical action goes through exactly when it is admissible, everything it asks for is there or recovered, and no key sticks |
| Deadlocks.CriticalExactly | runtime/conjunction/service.py:49-128 | the same as a condition on the initial context and the reply at each step's own index |
| Deadlocks.CriticalWithSteadyStores | runtime/conjunction/service.py:49-128 | with stores that do not change meanwhile: admissible, the stores hold what is missing, and no two steps are to recover the same evidence |
| Deadlocks.CriticalWithAnsweringStores | runtime/conjunction/service.py:49-128 | with stores that answer everything, admissibility and the three deadlocks decide |
| Deadlocks.NonCriticalExactly | runtime/conjunction/service.py:49-128 | whatever the stores answer, any other action is blocked exactly by a firm stop or by a missing approval that is not on record or is listed as evidence too |
| Deadlocks.DegradesFromTheStart | runtime/conjunction/service.py:878-926 | degrading as a condition on the initial context alone |
| Deadlocks.RollbackPlanDeadlock | runtime/conjunction/service.py:396-632 | required and demanded rollback plan: block although the plan was recovered, whatever else the stores answer |
| Outcomes.FindingsExactly | runtime/conjunction/validators.py:11-325 | whatever the stores answer, which findings, with which status, the result reports: every validator as a condition on the fields of the initial context and the evidence at the end |
| Outcomes.RiskGate | runtime/conjunction/validators.py:152-169 | for every context, what is not blocked has a risk below 0.80 or is one of the five exempt actions |
| Outcomes.RiskReported | runtime/conjunction/validators.py:152-169 | the result reports a high risk exactly when it is at least 0.80 and the action is none of the five |
| Outcomes.BlockedExactly | runtime/conjunction/service.py:49-128 | an operation that is not critical is blocked exactly by a conflict, a risk, a missing permission or an agent policy, all in fields, or by a missing approval that is not on record or also listed as evidence |
| Outcomes.DegradedExactly | runtime/conjunction/service.py:911-926 | degrading in the fields of the initial context |
| Outcomes.AllowedExactly | runtime/conjunction/service.py:911-926 | allowed without compensation is exactly an operation of which nothing is to be reported |
| Outcomes.CriticalInFields | runtime/conjunction/service.py:49-128 | for stores that may change at every step, a critical operation goes through exactly when its initial fields are in order and the replies come on schedule |
| Outcomes.StatusTellsDecision | runtime/conjunction/service.py:887-926 | the compensation status and the decision correspond one to one |
| Outcomes.ConfidenceExactly | runtime/conjunction/service.py:879-909 | validation status and confidence from the findings at the end, the conflict at the start and the uncertainty |
| Outcomes.ActionsExactly | runtime/conjunction/compensations.py:7-144 | which compensations the result lists: exactly those that the initial fields call for, none lost and none added by the second round |
| Outcomes.MarksExactly | runtime/conjunction/service.py:396-539 | which marks the final context carries, whatever the stores answer |
| Outcomes.EvidenceIsSupplied | runtime/conjunction/service.py:541-723 | every new evidence item comes from one of the steps, with the confidence and the standing that its source gives |
| HookGraph.VisitGrows | runtime/core/hook_manager.py:66-72 | a visit keeps the walk duplicate-free and dependency-ordered, appends only what the hook reaches, and ends with the hook seen |
| HookGraph.ResolvedOrder | runtime/core/hook_manager.py:62-77 | every finished resolution is duplicate-free, puts every hook after all its dependencies, and holds exactly the reachable hooks |
| HookGraph.ResolvesIffAcyclic | runtime/core/hook_manager.py:62-77 | resolution returns for some stack depth exactly when no reachable hook lies on a cycle, and then a depth of one more than the number of names suffices |
| HookGraph.RegisterKeepsAcyclic | runtime/core/hook_manager.py:55-60 | a registration keeps an acyclic graph acyclic exactly when no required hook already depends on the name |
| Hooks.HookManager.RegisterAction | runtime/core/hook_manager.py:55-60 | the three tables are updated at the name only; acyclicity as above |
| Hooks.HookManager.VisitHook | runtime/core/hook_manager.py:66-72 | the recursive visit with its loop computes the specified walk |
| Hooks.HookManager.ResolveExecutionOrder | runtime/core/hook_manager.py:62-77 | on an acyclic request: a topological order of exactly the reachable hooks |
| Hooks.HookManager.Run | runtime/core/hook_manager.py:79-110 | the loop with its skips and its abort attempts the specified prefix of that order |
| Hooks.AttemptedMeaning | runtime/core/hook_manager.py:85-110 | only the last attempt can be an aborting failure, and without one every known hook of the order is attempted |
| Hooks.EarlierAttempted | runtime/core/hook_manager.py:85-110 | a known hook before an attempted one in the order was attempted before it |
| Hooks.DependenciesFirst | runtime/core/hook_manager.py:62-110 | no action is attempted before a known dependency was, nor after one failed under the abort policy |
| Statistics.SortedUnique | runtime/certification/risk_engine.py:62 | a sample has one sorted form, so the choice of sorting algorithm does not matter |
| Statistics.PercentileBetween | runtime/certification/risk_engine.py:43-54 | the percentile lies between the two ranks it interpolates, above the lower one when they differ |
| Statistics.CVaRBounds | runtime/certification/risk_engine.py:57-67 | the tail is never empty, VaR is at most CVaR, which is at most the maximum and at least the mean |
| Statistics.CVaRPermutationInvariant | runtime/certification/risk_engine.py:57-67 | the order of the losses does not matter |
| Statistics.CVaRMonotoneInAlpha | runtime/certification/risk_engine.py:57-67 | a higher level never gives a lower CVaR |
| Statistics.CVaRAffine | runtime/certification/risk_engine.py:57-67 | translation-equivariant and positively homogeneous |
| Statistics.CVaRNotMonotone | runtime/certification/risk_engine.py:57-67 | for every size and every level in between, two samples, one nowhere above the other, with the greater CVaR |
| Statistics.CVaRMonotoneExactly | runtime/certification/risk_engine.py:57-67 | over all samples of a size CVaR is monotone in the losses exactly at level zero and at the levels that pick the maximum |
| Statistics.CVaRIsMaxExactly | runtime/certification/risk_engine.py:43-67 | CVaR is the maximum for every sample of a size exactly when the rank of the level lies in the last gap |
| Statistics.DefaultLevelTop | runtime/certification/risk_engine.py:43-67 | at level 0.95 those sizes are exactly 1 to 20 |
| AgrestiCoull.Bracket | runtime/certification/transfer_posterior.py:143-177 | for an estimate in range and at least one observation, lower bound, estimate, upper bound |
| AgrestiCoull.ReachesMonotone | runtime/certification/transfer_posterior.py:143-166 | a larger estimate never loses a threshold |
| AgrestiCoull.ReachesBelow | runtime/certification/transfer_posterior.py:143-166 | a threshold that the bound reaches is not above the estimate |
| AgrestiCoull.LowerReaches | runtime/certification/transfer_posterior.py:143-166 | the root-free comparison is the comparison with the computed bound |
| AgrestiCoull.LowerMonotone | runtime/certification/transfer_posterior.py:143-166 | the computed bound is monotone in the estimate |
| RiskEngine.LcbBelowProportion | runtime/certification/risk_engine.py:72-82 | the bound for a share of successes is not above the share |
| RiskEngine.LcbMonotone | runtime/certification/risk_engine.py:72-82 | one more success never loses a threshold |
| RiskEngine.AcceptanceIsPointwise | runtime/certification/risk_engine.py:194-243 | acceptance on a sample small enough for the level bounds every single drop by the threshold and guarantees the demanded share of changes that are not drops |
| RiskEngine.DefaultAcceptance | runtime/certification/risk_engine.py:194-243 | at level 0.95 that covers every accepted history of up to 20 changes |
| RiskEngine.BlockExactly | runtime/certification/risk_engine.py:194-243 | the verdict of a block from the series: rejection exactly on a hard violation or a violated barrier, buffering exactly in the remaining cases of a short history, a missed bound or a CVaR above the threshold, and when a CVaR is reported |
| RiskEngine.AcceptedByDefault | runtime/certification/risk_engine.py:194-291 | what an accepted block guarantees at the default configuration: at least four changes, no drop above 0.10, at least 45 in 100 no drops |
| RiskEngine.EpisodeRiskTracker.Assess | runtime/certification/risk_engine.py:294-352 | the series of the run becomes the last items of the seeded or live series with the new index; the block is the rule applied to its changes, and rejects exactly on a hard violation or a violated barrier |
| Sections.JaccardTriangle | runtime/certification/coherence_obstruction.py:154-158 | the Jaccard distance of finite sets obeys the triangle inequality |
| Sections.JoinInjective | runtime/certification/coherence_obstruction.py:92-104 | joining words with a separator loses nothing, so equal normal forms have equal tokens |
| Sections.DivergenceRange | runtime/certification/coherence_obstruction.py:161-202 | with or without transport every component is between 0 and 1, the outer clamp never acts, a hostile transport costs at least 0.70 |
| Sections.DivergenceSymmetric | runtime/certification/coherence_obstruction.py:161-202 | symmetric without transport |
| Sections.DivergenceTriangle | runtime/certification/coherence_obstruction.py:161-202 | the triangle inequality without transport, unmeasured values included |
| Sections.ZeroDivergence | runtime/certification/coherence_obstruction.py:161-202 | zero exactly for the same symbols, relation, tokens and measured value |
| Sections.DivergenceExactly | runtime/certification/coherence_obstruction.py:161-202 | what each difference costs, in thirtieths: symbols 7, relation 3, tokens 10, value 10; an unmeasured value alone one sixth |
| Sections.TransportCosts | runtime/certification/coherence_obstruction.py:176-202 | a transport adds what it loses beyond the gap in the share that it does not carry, never makes the world look closer, and costs at least 0.70 when hostile |
| Sections.TransportRenames | runtime/certification/coherence_obstruction.py:170-186 | a transport renames the symbols and touches nothing else of meaning and form |
| Certificates.TrackedMetric | runtime/certification/coherence_obstruction.py:107-202 | on the sections read from episodes and certificates: triangle inequality, symmetry, and when the divergence is zero |
| Coherence.CycleCloses | runtime/certification/coherence_obstruction.py:216-266 | the gap is zero exactly when every leg was measured and closes; the recorded error is zero exactly when the gap is at most half a unit of its sixth decimal, which is the same for up to 600000 symbols |
| Coherence.CycleExactly | runtime/certification/coherence_obstruction.py:216-266 | the three legs in the signals: unmeasured one half, failed one, unknown symbols their share |
| Coherence.ObstructionOnlyLowers | runtime/certification/coherence_obstruction.py:338-379 | the obstruction is at most one plus the cycle weight and the corrected index never exceeds the index |
| Coherence.IndexFalls | runtime/certification/coherence_obstruction.py:350-379 | where no clamp acts the corrected index falls in proportion with the mean divergence and with the cycle error, at the default weights by 0.30 and 0.15 of them |
| Coherence.ChangeTells | runtime/certification/coherence_obstruction.py:354-379 | the recorded change is that of the corrected index up to half a unit of its sixth decimal, and there is none without an index before |
| Coherence.MeanOfParts | runtime/certification/coherence_obstruction.py:350-360 | the mean divergence of a window is that of its parts, of a single pair the recorded one |
| Coherence.PairAt | runtime/certification/coherence_obstruction.py:318-354 | each section of the window is compared with the current one, across scenarios along the engine's answer |
| Coherence.CoherenceTracker.MorphismFor | runtime/certification/coherence_obstruction.py:318-336 | the cache never changes an answer |
| Coherence.CoherenceTracker.ComparePairs | runtime/certification/coherence_obstruction.py:350-354 | the loop compares the current section with every section of the window, in order |
| Coherence.CoherenceTracker.Assess | runtime/certification/coherence_obstruction.py:299-379 | the block, with the change of the index as it is recorded, is a function of the seeded or live window and last index; window and index of this run are updated, those of other runs are not |
| FailureModes.DetectFailureModes | runtime/certification/failure_modes.py:132-288 | the six detectors, appended to three lists, and the accumulated risk compute the specified assessment |
| FailureModes.CheckedOrUnmeasured | runtime/certification/failure_modes.py:71-77 | in every scope each mode is checked or unmeasured, never both, never twice |
| FailureModes.ModesExactly | runtime/certification/failure_modes.py:165-268 | each mode is detected, with its severity and recorded evidence, exactly when it is in scope and the measured number says so |
| FailureModes.BlockingExactly | runtime/certification/failure_modes.py:165-288 | the assessment blocks exactly on a purity below 0.40, a shift above 0.60, an inverted polarity with support below 0.30 or a score below 0.15, in scope; these are counted |
| FailureModes.HighExactly | runtime/certification/failure_modes.py:165-288 | the modes of high severity are counted by the five measurements that make one |
| FailureModes.RiskIsMean | runtime/certification/failure_modes.py:270-274 | the aggregated risk is a mean in which evidence counts by severity, ten, six and three tenths |
| FailureModes.RiskInUnitInterval | runtime/certification/failure_modes.py:271-274 | the aggregated risk is between 0 and 1 when the evidence is |
| FailureModes.NeutralAgrees | runtime/certification/transfer_assessment.py:431-482 | neutral numbers raise exactly the modes of the abstaining assessment, with the one exception; blocking never differs |
| TransferPosterior.ScopeIsRootFree | runtime/certification/transfer_posterior.py:182-219 | the scope decided with the computed bound is the root-free one |
| TransferPosterior.ScopeMonotone | runtime/certification/transfer_posterior.py:182-219 | a larger posterior never lowers the scope |
| TransferPosterior.ComputeTransferPosterior | runtime/certification/transfer_posterior.py:224-358 | the posterior lies strictly between 0 and 1 for every input |
| TransferPosterior.BayesOrder | runtime/certification/transfer_posterior.py:294-297 | a larger likelihood gives a larger posterior, and only a larger one does |
| TransferPosterior.EvenEvidence | runtime/certification/transfer_posterior.py:294-297 | the posterior is above the prior exactly when the likelihood is above one half, and conversely |
| TransferPosterior.OddsMultiply | runtime/certification/transfer_posterior.py:292-297 | the odds of the posterior are those of the prior times those of the likelihood |
| TransferPosterior.SequentialPull | runtime/certification/transfer_posterior.py:299-319 | a sequential risk score pulls the posterior three tenths of the way to what it leaves |
| TransferPosterior.PriorExactly | runtime/certification/transfer_posterior.py:72-103 | the prior of each class, and how a history counts against it |
| TransferPosterior.ClassesInOrder | runtime/certification/transfer_posterior.py:72-103 | with the same evidence and history a more trusted class never has the lower posterior, and without history the higher one |
| TransferPosterior.LikelihoodExactly | runtime/certification/transfer_posterior.py:106-138 | the likelihood in hundredths of purity, stability, trace, concurrence and absent risk |
| TransferPosterior.TraceLikelihood | runtime/certification/transfer_posterior.py:106-138 | the likelihood of an episode whose trace is broken, as a function of its purity and the recorded risk |
| TransferPosterior.PurityCanLower | runtime/certification/failure_modes.py:271-274 | beside a broken trace, raising the purity to where it is no longer reported lowers the posterior exactly when it was above 0.56448 |
| PurityEffect.MonotoneExactly | runtime/certification/transfer_posterior.py:106-138 | for all evidence, the posterior never falls as purity rises exactly when the recorded risk at full purity is not above that at the brink of being reported |
| PurityEffect.PurityBoundary | runtime/certification/failure_modes.py:271-274 | with evidence in range it is monotone when the recorded risk that a spotless memory leaves is at most 0.18, and not when it is 0.1807 or more |
| TransferPosterior.CompatibleNeedsHistory | runtime/certification/transfer_posterior.py:321-336 | with fewer than three historical observations no input whatever is certified as compatible |
| TransferPosterior.CompatibleAttainable | runtime/certification/transfer_posterior.py:224-336 | compatible transfer is attainable exactly from three historical observations on |
| TransferAssessment.MeasurePurity | runtime/certification/transfer_assessment.py:153-238 | the three states of purity, and full measured purity exactly without cross-scenario memory |
| TransferAssessment.AssessTransfer | runtime/certification/transfer_assessment.py:243-545 | the loop over the hits and the two branches compute the specified transfer |
| TransferAssessment.SafeVerdict | runtime/certification/transfer_assessment.py:431-567 | a transfer certified as safe crosses scenarios along a close morphism, has history, and its own certificate lists no critical mode |
| TransferAssessment.CriticalModesReject | runtime/certification/transfer_assessment.py:431-567 | whenever the posterior is used a critical mode in the certificate goes with a rejection |
| TransferAssessment.VerdictExactly | runtime/certification/transfer_posterior.py:182-219 | exactly when each of the four verdicts is given, from what was measured, the posterior and the computed bound |
| TransferAssessment.ScopeTellsVerdict | runtime/certification/transfer_assessment.py:559-567 | the scope and the verdict correspond one to one, and the two flags say what was retrieved |
| TransferAssessment.FirstMetrics | runtime/certification/transfer_assessment.py:132-150 | the counts are those given or those of the first hit that carries any |
| TransferAssessment.UnmeasuredCounts | runtime/certification/transfer_assessment.py:431-446 | the number that stands for each unmeasured input: verdict and posterior are those of that number |
| TransferAssessment.HistoryCounts | runtime/certification/transfer_posterior.py:72-103 | nothing of an assessment but the class of its relation and its own history enters the prior |
| TransferAssessment.SequentialRiskCounts | runtime/certification/transfer_posterior.py:299-319 | how its sequential risk enters its posterior |
| TransferAssessment.CheckedInTransfer | runtime/certification/transfer_assessment.py:463-541 | what a certificate claims as checked and as not measured: never a mode whose evidence was not measured, and modes of a transfer only with a score |
| TransferAssessment.LocalModesOfTransfer | runtime/certification/transfer_assessment.py:463-510 | which local modes the certificate of an assessment lists, in the numbers of the episode |
| TransferAssessment.CrossModesOfTransfer | runtime/certification/transfer_assessment.py:463-510 | which modes of a transfer it lists, and that only where the posterior is used |
| TransferAssessment.PriorOfRelation | runtime/certification/transfer_assessment.py:548-556 | without a directed morphism and history, the compatibility class sets the prior |
| TransferAssessment.SpotlessLikelihood | runtime/certification/transfer_posterior.py:106-138 | the likelihood of a spotless transfer from the episode's own stability and concurrence |
| Certificates.CandidateCollapses | runtime/certification/certificate_builder.py:43-63 | which conjuncts of the candidacy are implied, and candidacy as two conditions on continuity and uncertainty, for every uncertainty |
| Certificates.RiskCeilingRedundant | runtime/certification/certificate_builder.py:43-63 | the index alone decides the candidacy for every continuity exactly up to an uncertainty of 329/75 |
| Certificates.SequenceScoreRange | runtime/certification/continuity_guard.py:51-59 | the score is between 0 and 1, and 1 exactly for equal sequences |
| Certificates.FullContinuity | runtime/certification/continuity_guard.py:14-68 | measured continuity is complete exactly when nothing moved |
| Certificates.SectionOfContents | runtime/certification/coherence_obstruction.py:92-125 | what the section of an episode holds, the six operators excluded from its symbols |
| Certificates.SectionRoundTrip | runtime/certification/coherence_obstruction.py:107-149 | the section read back from the certificate is that of the episode exactly under two conditions on its names |
| Certificates.AdjustOnlyTakesAway | runtime/certification/promotion_gate.py:302-345 | the tribunal upgrades no verdict and no candidacy, lowers no risk, and touches nothing that the trackers read |
| PromotionGate.CertifiedExactly | runtime/certification/promotion_gate.py:128-135 | certified as a condition on the inputs: a low continuity rejects only in a streak |
| PromotionGate.PromotedExactly | runtime/certification/promotion_gate.py:302-351 | promoted as a condition on the inputs, for every uncertainty: continuity against its floor and the risk ceiling; streak and index decide nothing more |
| Promotions.ContinuityOfEpisodes | runtime/certification/continuity_guard.py:14-68 | continuity from two episodes: six tenths for the share of steps that agree, four for what is left of the move of the watched value |
| Promotions.PromotedAfter | runtime/certification/certificate_builder.py:43-63 | promotion from the two episodes: it ends cleanly, no tribunal opposes it, and agreement and move make up for the uncertainty, unmeasured and changed variables included |
| Promotions.PromotedIfCertain | runtime/certification/continuity_guard.py:14-68 | without uncertainty an unmoved value leaves a third of the steps to agree, an unmeasured one two thirds, a move of one or more all; with the same reasoning every clean episode is promoted |
| Promotions.PromotedAlone | runtime/certification/certificate_builder.py:43-63 | promotion without a predecessor, and with a continuity from outside |
| Promotions.EveryPromotion | runtime/certification/promotion_gate.py:42-437 | in every run over any store, after any restarts, an episode is promoted exactly when it continues the one before it |
| Promotions.CertifiedFromHistory | runtime/certification/promotion_gate.py:128-135 | certified exactly when it ends cleanly, no tribunal blocks, and its continuity is not the third below 0.35 within four episodes |
| Promotions.CostOfFailure | runtime/certification/certificate_builder.py:43-55 | what a failed closure, a broken trace and a declared collapse cost in index and add to the risk |
| PromotionGate.RememberedSound | runtime/certification/promotion_gate.py:367-418 | only certified episodes enter memory, only promoted ones enter macro memory |
| PromotionGate.PromotionGate.constructor | runtime/certification/promotion_gate.py:27-40 | a new gate knows of a run exactly what it can read from the store, and has the default settings |
| PromotionGate.PromotionGate.ProcessEpisode | runtime/certification/promotion_gate.py:42-437 | report, stored certificate, decision, memory and tracker state are the specified functions of the old state; memory stays sound; other runs are untouched |
| Windows.SeededWindow | runtime/certification/coherence_obstruction.py:299-316 | a limited newest-first listing, reversed, is the window |
| Windows.SlidingWindow | runtime/certification/risk_engine.py:308-352 | sliding a window is windowing the longer history |
| Windows.WindowAt | runtime/certification/risk_engine.py:308-352 | after any number of observations the window is the last items of the whole stream |
| Windows.RestartEquivalence | runtime/certification/risk_engine.py:294-352 | whatever the pattern of restarts, the windows are those of one process |
| Restarts.StepKeeps | runtime/certification/promotion_gate.py:42-437 | what a step leaves in the trackers is what the store now holds |
| Restarts.RunsAgree | runtime/certification/promotion_gate.py:42-437 | two processes over one store that start in step stay in step, with recorded changes of the index that are equal or neighbours |
| Restarts.RestartsDoNotMatter | runtime/certification/coherence_obstruction.py:299-379 | over any store and any stream of episodes, restarts change no risk block, no obstruction, and of the certificates only the stored change of the corrected index, by at most one unit of its sixth decimal |
| Restarts.RestartsNeverTouchRisk | runtime/certification/risk_engine.py:294-352 | over any store and any stream, whatever the episodes are called, restarts change no risk block and of a certificate at most the corrected index |
| Restarts.RestartShows | runtime/certification/coherence_obstruction.py:299-379 | just after a restart the report is that of the uninterrupted process exactly when the window is not empty and the change to the next index is recorded alike from the stored index |
| Restarts.RestartsUnnoticedExactly | runtime/certification/coherence_obstruction.py:299-379 | over any store and stream, all reports agree exactly when that holds at every restart after the first episode |
| Restarts.RestartShowsAfter | runtime/certification/coherence_obstruction.py:299-379 | two episodes between which a restart shows |
| Restarts.EveryReportSound | runtime/certification/promotion_gate.py:302-351 | in every run, a promoted certificate is certified, with index at least 0.72, continuity at least 0.60 and risk below 0.60 |
| Restarts.EveryMemorySound | runtime/certification/promotion_gate.py:367-418 | in every run, memory holds certified episodes only and macro memory promoted ones |
| Restarts.EveryUnsafeEpisodeIsRejected | runtime/certification/risk_engine.py:194-243 | in every run, after any restarts, exactly the episodes with a hard violation or a violated barrier are rejected |
| TraceIntegrity.NormalIsIdempotent | runtime/certification/trace_integrity.py:186-253 | registering a normalised name is the same as registering it as it came |
| TraceIntegrity.NormalKeeps | runtime/certification/trace_integrity.py:186-253 | the normal form is a stretch of the text in capitals, and only blanks are left out around it |
| TraceIntegrity.NeighboursOrder | runtime/certification/trace_integrity.py:191-206 | comparing neighbours orders the whole trace |
| TraceIntegrity.ExpectedSequence | runtime/certification/trace_integrity.py:234-253 | the registered sequence, when there is one to verify against |
| TraceIntegrity.ReadSteps | runtime/certification/trace_integrity.py:155-189 | the families and timestamps of a well-formed trace, or its first malformed step |
| TraceIntegrity.AssessTraceIntegrity | runtime/certification/trace_integrity.py:101-231 | integral exactly as defined; otherwise the first failing check and the first step that fails it |
| TraceIntegrity.IntegralDetermined | runtime/certification/trace_integrity.py:208-224 | a registered sequence pins the families of every integral trace |
| TraceIntegrity.DeletionNoticed | runtime/certification/trace_integrity.py:191-224 | exactly when a deleted step is noticed |
| TraceIntegrity.InsertionNoticed | runtime/certification/trace_integrity.py:208-224 | with a registered sequence an added step is always noticed |
| TraceIntegrity.SwapNoticed | runtime/certification/trace_integrity.py:191-224 | exactly when an exchange of two steps is noticed |
| Calibration.InterpolationsAgree | scripts/calibrate_risk_cvar.py:28-37 | the script's interpolation is the engine's, on every sample and rank |
| Calibration.Percentiles | scripts/calibrate_risk_cvar.py:28-37 | the dictionary holds the engine's percentiles, rounded, for exactly the ranks asked for |
| Calibration.Calibrate | scripts/calibrate_risk_cvar.py:66-112 | the loop over the runs and the two quartiles give the specified suggestion |
| Calibration.SuggestedLoss | scripts/calibrate_risk_cvar.py:103-112 | the loss threshold is the whole hundredth between one and two hundredths above its quartile |
| Calibration.SuggestedBound | scripts/calibrate_risk_cvar.py:103-112 | the probability threshold is the last twentieth at or below its quartile, and never negative |
| Calibration.QuartilesLeaveOut | scripts/calibrate_risk_cvar.py:28-37 | each quartile leaves out at most a quarter of the gaps, rounded up |
| Calibration.AcceptedExactly | runtime/certification/risk_engine.py:194-243 | a run is accepted exactly when its exact bound and CVaR meet the thresholds |
| Calibration.FloorSuffices | scripts/calibrate_risk_cvar.py:73-112 | a bound recorded inside its quartile meets the threshold exactly unless it was rounded up onto it |
| Calibration.MarginSuffices | scripts/calibrate_risk_cvar.py:73-112 | the margin of the loss threshold absorbs both roundings |
| Calibration.CalibrationGuarantee | scripts/calibrate_risk_cvar.py:66-112 | the rule with the suggested thresholds accepts all but two quarters, rounded up, of the runs that calibrated them, and those rounded up |
| Calibration.AnalysedIsUsable | scripts/calibrate_risk_cvar.py:66-70 | every analysed run has enough changes for the rule |
| Calibration.RoundingRejectsItsOwnRun | scripts/calibrate_risk_cvar.py:73-112 | an input for which the last exception occurs |

## Left out

- CompatibleNeedsHistory: for the default threshold of 0.60, which is the one every caller uses; other thresholds move the number of observations.
- MonotoneExactly: for stability and concurrence in range and without a sequential risk process.
- PurityBoundary: between a spotless risk of 0.18 and one of 0.1807 the four decimals of the two risks decide, as `MonotoneExactly` says.
- CostOfFailure: for an uncertainty in range and a continuity that is not low; outside them a clamp or a streak of low continuities can add to the cost.
- LikelihoodExactly: for evidence in range, like `RiskIsMean`; the program caps the risk at 1 and the likelihood at 0.01 and 0.99.
- TransportCosts: for a score and a loss in range; the program clamps others.
- CriticalExactly: for fresh identifiers, which the program draws at random.
- RestartsDoNotMatter: what the reward and the vital signs make of a change that differs is not modelled; the statement is for episodes whose section survives the round trip, a condition that `SectionRoundTrip` proves exact; the certificate of the model carries the corrected index of its omega block, the change of it only appears in the report.
- DivergenceTriangle: for sections whose normal form joins words without blanks; `TrackedMetric` discharges this for every section that is read from an episode or a certificate, whose tokens are such words.
- HookManager.ResolveExecutionOrder: requires an acyclic request, because on any other the program recurses without end, which `ResolvesIffAcyclic` states.
- CoherenceTracker.MorphismFor: the engine that relates two scenarios is an arbitrary function of their names.
- DivergenceRange: with a transport only the range is proved, the divergence is then directional.
- Floating point: all arithmetic is over the reals; recorded values are rounded half to even, at the places and to the decimals of the code, wherever they are used again or compared. The report's omega block carries the obstruction, the components of a divergence and the corrected index before their six decimals; the stored index, the change of it, the mean of the divergences and the cycle error have them. The divergence laws are those of the value before its six decimals.
- Letter case and blanks are those of ASCII in trace integrity; other Unicode letters are left as they are.
- Storage, event ledger, identifiers, clocks: histories are sequences, fresh identifiers are part of a store's reply, and a store that fails answers nothing.
- The life-cycle wrapper that builds a context from vitals, its evidence and its task types; the theorems hold for every context.
- Episode closure, the constitutional court, memory condensation and macro support: their results are inputs of the gate.
- The cycle's collaborators (language, dynamics, agreement of families): their answers are inputs of the cycle error.
- Barrier telemetry, the barrier function and its sampler: a flag says whether the barrier was violated.
- Hook timeouts as signals, execution statistics and printing; an outcome is success, timeout or error. Composite hooks.
- Explanatory texts, trace entries, permission summaries and the persistence of results.
- Negative limits for windows and histories.
- The doubt whether an estimated information loss of 0.0 is meant to count as 1.0 (`runtime/certification/coherence_obstruction.py:191-193`): the model follows the code.
