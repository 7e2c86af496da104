# Verified model of the recommendation engine

This project models the decision logic of the Kubernetes recommendation engine in Dafny and proves what that logic
is meant to guarantee. The engine turns metrics into gated Git changes; the model covers the parts in which a mistake
would be hard to see in one place:

- **Persisted gates** (`OutcomeGates`, `BatchQueue`, `Limiters`, `Timestamps`, `Retention`, `StateStore`, `StoreRuns`,
  `StoreLimits`, `StoreHistory`). The store is a class whose tables are changed in place; each method is tied to a
  specification function. `StoreRuns.Drive` takes it through any sequence of recoveries and reconciles, and the theorems
  are about all such runs: the lockout after a bad outcome, the batch window, the sliding-window limits, and why pruning
  is invisible to them.
- **Pod recovery** (`PodRecovery`). A check, a reservation and a conditional delete against an API server that other
  writers change before every call, for every schedule of those writers.
- **Helm values** (`HelmTree`, `HelmMerge`, `HelmOwnership`, `HelmPlanner`). YAML documents are node lists with anchors,
  aliases, merge keys and duplicate keys; scalars are replaced in place. From the profile over the plans of its
  workloads to the proposal for a file.
- **Git proposals** (`GitProposal`). Commit, fetch, rebase and push with other writers and failures interleaved.
- **Line diff** (`LineDiff`). The table, the edit walk and the hunks.
- **Sizing and replay** (`Sizing`, `Optimizer`, `ReplicaDecision`, `LinearTrend`, `Replay`).

`Options`, `Numbers`, `TextOrder` and `PatchFields` hold shared definitions. `dafny verify dfyconfig.toml` checks
everything.

## How the source is modelled

- float64 is `real`. CPU is in milli-cores, memory in Mi or bytes, times are nanoseconds.
- Quantities that the source parses are strings, and the parser is a parameter. Where the source compares texts, so
  does the model: `1000m` and `1` differ there.
- SQL statements and transactions are atomic steps on sequences and maps. Timestamps are compared as text, in the two
  formats that the tables use; years have four digits and times are UTC.
- The API server assigns UIDs and resource versions, never an empty one, and never a version twice. It accepts a delete
  only if the given preconditions hold.
- Other Git writers add commits to the branch; they do not rewrite it.
- Methods and specifications share small functions. What these mean is stated once more from fields, names and numbers
  alone, in lemmas with names that end in `Means` or `Exactly`.
- Map iteration, clocks, forecasts, spike detection, health and anomaly states, and whether a plan was delivered are
  parameters.

## Where the code and its description differ

- README.md line 288 says that decreases never bypass the batch window. One increase is enough for a plan to bypass it,
  so a mixed plan takes its decreases along: `BatchQueue.MixedPlanBypasses`. `BatchQueue.DecreaseBypasses` says exactly
  when.
- A recommendation without any demand signal can still raise the replica count: the branch for wasted capacity starts
  from the counts that unmanaged resources need. `ReplicaDecision.ScaleUpWithoutDemand` gives the input and
  `ReplicaDecision.ScoredWithoutDemand` the exact condition.
- RFC3339Nano drops trailing zeros, so its text order is not chronological within a second (`Timestamps.NanoTextOrder`
  gives the exact pairs), and a time can be hidden from the window that another one looks back on. Up to twice the budget
  can then be admitted within one window, for every budget and every hidden time: `Limiters.TwiceTheBudgetIsReached`,
  with an instance in `Limiters.FullWindowCanOverflow`; `Limiters.AtMostTwiceTheBudget` shows that it is never more.
  `Limiters.BudgetsHoldExactly` says that the budgets hold at given times exactly if none of these is hidden from
  another one, and `Limiters.ProposalBudgetBound` what holds at all times.
- A profile that passes validation can have two workloads with one name. Both are then planned at the paths of the last
  one, and two different changes of one value make the proposal for the file fail: `HelmPlanner.TwinsCollide`.
  `HelmPlanner.CompatibleIffNamesakesWantAlike` gives the exact condition; with distinct names it always holds.
- Requests are rounded up to 10m or one Mi, so a decrease can raise a request that is no multiple of that: 25m becomes
  30m where 10m would do (`Sizing.DecreaseCanRaise`). `Sizing.DecreaseRaises` says exactly when.
- A request can rest under any pressure, as a raise below the threshold for changes is not made: at tenfold utilization
  one core stays one core with steps of 3% and a threshold of 5% (`Sizing.PressureCanStay`). `Sizing.RestsUnderPressure`
  says exactly when, and `Sizing.PressureGetsThrough` which thresholds exclude it.
- A delete of a pod whose answer is lost is recorded as failed although the pod is gone. `PodRecovery.Apply` promises
  that exactly the deletions that were answered are reported as successes, and that the limits hold in either case.
- The memory gate is blocked by a memory anomaly for increases as well, although its reason speaks of a decrease:
  `OutcomeGates.MemoryAnomalyBlocks`.
- A blank mode counts as a dry run when an outcome is classified, but not when an outcome is to block: with a blank
  mode a dry run that was not applied never locks the gates (`OutcomeGates.BlankDryRunBlocksNothing`).

## Model

| member | source | states |
|---|---|---|
| OutcomeGates.ClassifyOutcome | internal/state/sqlite.go:1009-1087 | the outcome of the previous run by the sets of fields that it offered and that are in place; OutcomeGates.OutcomeMeans says what each outcome means |
| OutcomeGates.OutcomeMeans | internal/state/sqlite.go:1009-1087 | each of the eight outcomes, both ways, from the fields of the two runs: which changed fields were offered, which of them are at the recommended value, whether the workload is unhealthy, and whether a field is drafted to move as it moved before |
| OutcomeGates.ConcerningExactly | internal/state/sqlite.go:1009-1087 | an outcome is concerning if and only if a change was offered, and a changed field is not at its recommended value, or the workload is unhealthy, or a field is to go on moving |
| OutcomeGates.CountApplied | internal/state/sqlite.go:1037-1067 | the two counters are the sizes of those sets |
| OutcomeGates.CheckMoving | internal/state/sqlite.go:1120-1155 | true exactly if some field is still recommended to move the way it moved before |
| OutcomeGates.CountStreak | internal/state/sqlite.go:1452-1468 | counts the newest runs that moved the field in one direction without a break |
| OutcomeGates.EvaluateReplicaGate | internal/state/sqlite.go:1421-1450 | the branches and the streak loop give the specified gate of the replica count |
| OutcomeGates.EvaluateResourceGate | internal/state/sqlite.go:1390-1419 | the same for a request: increases pass at once, decreases by the streak of their direction |
| OutcomeGates.EvaluateStability | internal/state/sqlite.go:1288-1299 | the three gates before outcomes are looked at, the memory gate blocked by an anomaly, and the summary flag |
| OutcomeGates.MemoryAnomalyBlocks | internal/state/sqlite.go:1294-1296 | before outcomes are looked at, memory is blocked if and only if its request is to change, up or down, during a memory anomaly |
| OutcomeGates.BlankDryRunBlocksNothing | internal/state/sqlite.go:1319-1325 | a dry run with a blank mode that was not applied is recorded as one, and blocks exactly in the mode that is written out |
| OutcomeGates.Stability.ApplyOutcomeSafetyGate | internal/state/sqlite.go:1319-1335 | all gates are blocked exactly if the detected outcome blocks in this mode |
| OutcomeGates.Stability.ApplyRecentOutcomeCooldownGate | internal/state/sqlite.go:1339-1364 | all gates are blocked exactly if some recent run has an outcome that blocks in this mode |
| OutcomeGates.Stability.ApplyAvailabilityRecoveryGate | internal/state/sqlite.go:1301-1317 | in a recovery exactly the increases are let through |
| OutcomeGates.Attach | internal/state/sqlite.go:133-164 | the gates in sequence decide as specified, from the three newest runs and the detected outcome |
| OutcomeGates.DecreaseIsThirdInARow | internal/state/sqlite.go:1390-1468 | a decrease passes exactly if the two newest runs decreased the field too and nothing blocks it |
| OutcomeGates.ReplicaGateMeans | internal/state/sqlite.go:1421-1450 | when the replica gate is open: nothing to do, an urgent increase, the third increase in a row, or the third decrease in a row of a healthy workload that is not held up |
| OutcomeGates.RequestGateMeans | internal/state/sqlite.go:1390-1419 | when the gate of a request is open: nothing to do, or an increase, or the third reconcile in a row that asks for less or for the same amount in other words; for memory, only without an anomaly |
| OutcomeGates.PendingMeans | internal/state/sqlite.go:1390-1468 | a pending gate counts the reconciles in a row that have asked for this move, the present one included, out of three |
| OutcomeGates.DecreaseNeedsTwoBefore | internal/state/sqlite.go:133-164 | with all gates applied, a decrease passes only after two runs that decreased the field |
| OutcomeGates.ThreeRowsSuffice | internal/state/sqlite.go:1288-1299 | three rows of history give the same gate statuses as the whole history |
| OutcomeGates.HistoryIsHistory | internal/state/sqlite.go:126-185 | every row of a run is what Attach and Record make of the rows before it |
| OutcomeGates.RowMeans | internal/state/sqlite.go:1645-1708 | what a reconcile records: its sizes and mode, and a field as offered if and only if it was delivered, not blocked, really changed and through its open gate |
| OutcomeGates.ConcernInRuns | internal/state/sqlite.go:133-164 | in every run, a row is concerned if and only if the row before it offered a change that was not carried out, did harm or is to go on |
| OutcomeGates.GatesAreExact | internal/state/sqlite.go:133-164 | at every point of every run the gates are locked by one of the last four outcomes, or evaluated afresh |
| OutcomeGates.LockedFields | internal/state/sqlite.go:1301-1364 | while locked, a field passes exactly if a recovery increases it |
| OutcomeGates.ConcerningFollowsAnOffer | internal/state/sqlite.go:1645-1708 | an outcome can only be concerning after a run that offered a change |
| OutcomeGates.LockoutIsExact | internal/state/sqlite.go:1319-1381 | the reconcile that detects a blocking outcome and the next three are blocked altogether, the next four detect nothing concerning, and the fourth is free |
| OutcomeGates.CleanSuccessLocksNothing | internal/state/sqlite.go:1319-1364 | a change that was carried out in full, did no harm and is not to go on locks neither this reconcile nor a later one |
| OutcomeGates.BlockingOutcomesAreFiveApart | internal/state/sqlite.go:1337-1364 | in one mode and without recoveries, blocking outcomes are at least five reconciles apart |
| BatchQueue.AvailabilityRecoveryPlan | internal/state/proposal_budget.go:687-706 | true exactly for a recovering workload whose plan has changes and only increases |
| BatchQueue.UrgentBypass | internal/state/proposal_budget.go:666-685 | true exactly if there is a traffic anomaly and some change is an increase |
| BatchQueue.BypassesExactly | internal/state/proposal_budget.go:666-730 | a plan need not wait if and only if all its changes ask for more during an enabled recovery, or one does during a traffic anomaly that may be urgent; fields by their names, amounts by their values |
| BatchQueue.DecreaseBypasses | internal/state/proposal_budget.go:351-363 | a plan with a decrease bypasses the window exactly if a traffic anomaly and another change that increases let it |
| BatchQueue.MixedPlanBypasses | internal/state/proposal_budget.go:666-685 | an applyable plan with a decrease that bypasses the window |
| BatchQueue.RowIsTheBatch | internal/state/proposal_budget.go:415-509 | after any sequence of steps the row is there exactly if a plan was offered since the last deletion, and its first_seen is where the offer started |
| BatchQueue.PassesExactlyAfterWindow | internal/state/proposal_budget.go:364-373 | a plan passes exactly if it has been offered, unchanged and undeleted, since a start that lies at least the window back |
| BatchQueue.TimerKept | internal/state/proposal_budget.go:376-383 | steps that are gated, bypass or repeat the plan never move first_seen |
| BatchQueue.WaitIsBounded | internal/state/proposal_budget.go:342-389 | without another plan or a deletion, the plan passes exactly from first_seen plus the window on |
| Timestamps.FixedTextIsChronological | internal/state/availability_recovery.go:10 | the nine-digit format orders like time |
| Timestamps.NanoTextOrder | internal/state/proposal_budget.go:544 | RFC3339Nano text is out of order exactly for two instants of one second of which one trimmed fraction is a prefix of the other |
| Timestamps.CutoffIsChronological | internal/state/proposal_budget.go:542-544 | comparing with a cutoff agrees with time exactly if the two are not such a pair |
| Timestamps.WholeSecondsAreChronological | internal/state/proposal_budget.go:542-544 | between whole seconds RFC3339Nano text is chronological |
| Timestamps.NanoTextIsNotChronological | internal/state/proposal_budget.go:544 | a pair that is out of order |
| Timestamps.MixedTextOrder | internal/state/retention.go:49-64 | comparing the two formats with each other is accurate to the second |
| Limiters.LatestIsMaximum | internal/state/availability_recovery.go:72-79 | the query for the latest attempt finds the greatest time of the workload, if it has rows |
| Limiters.IntervalBound | internal/state/availability_recovery.go:96-106 | a sliding window keeps every closed interval within the limit, in whatever order of time rows arrive |
| Limiters.GrantedExactly | internal/state/availability_recovery.go:58-124 | a recovery is granted if and only if each earlier one of the workload is the cooldown back, and the last 3600 seconds hold fewer than the limit, or than six without one |
| Limiters.ExhaustedExactly | internal/state/proposal_budget.go:511-549 | a budget is exhausted if and only if the last hour or day holds as many proposals of the workload, failed and blocked ones aside, as its positive limit |
| Limiters.HourlyRecoveryBound | internal/state/availability_recovery.go:58-124 | for any requests, even with the clock running backwards, no closed hour holds more granted recoveries of a workload than the limit |
| Limiters.CooldownBetweenRecoveries | internal/state/availability_recovery.go:83-94 | granted recoveries of a workload are in time order and at least the cooldown apart |
| Limiters.ProposalBudgetBound | internal/state/proposal_budget.go:511-549 | for a workload with a limit for the hour (or the day), whether or not it has the other one: no closed interval a second shorter than that window holds more proposals than the budget |
| Limiters.BudgetsHoldExactly | internal/state/proposal_budget.go:511-549 | for reconciles at given times: every run with a limit for this window keeps it in every closed hour (or day) if and only if none of the times is hidden from the window of another, that is, in it and out of order with its start |
| Limiters.FullWindowBudgetBound | internal/state/proposal_budget.go:511-549 | where no time is hidden, a run with a limit for this window keeps it in every closed hour (or day) |
| Limiters.TwiceTheBudgetIsReached | internal/state/proposal_budget.go:534-549 | for every hidden time and every budget n, a run with just this limit that stores 2n proposals within the window |
| Limiters.AtMostTwiceTheBudget | internal/state/proposal_budget.go:534-549 | whatever the times are, no closed hour (or day) holds more than twice its budget |
| Limiters.WholeSecondsAreWellOrdered | internal/state/proposal_budget.go:511-549 | no reconcile on a whole second is hidden from another |
| Limiters.FullWindowCanOverflow | internal/state/proposal_budget.go:534-549 | half past zero is hidden from the window of the full hour, so an hour can hold 2n proposals |
| Retention.ThinnedDecision | internal/state/availability_recovery.go:72-106 | a recovery decision does not change when rows from before both windows are missing |
| Retention.ThinnedLatest | internal/state/availability_recovery.go:72-79 | with old rows missing, the latest attempt is found unless it is older than all of the window |
| StateStore.Store.Reserve | internal/state/availability_recovery.go:58-124 | the decision of the limiter, and a row is added exactly if it is granted |
| StateStore.Store.BudgetReasons | internal/state/proposal_budget.go:511-532 | the exhausted budgets |
| StateStore.Store.ApplyProposalBudgets | internal/state/proposal_budget.go:306-340 | exactly the workloads over budget are held, nothing else changes: in mode propose, with limits and an unblocked, error-free plan with changes that is no enabled recovery of increases only, and as many proposals on record in the last hour or day as a positive limit |
| StateStore.BudgetedExactly | internal/state/proposal_budget.go:306-340 | the same for one workload |
| StateStore.Store.RecordProposalEvents | internal/state/proposal_budget.go:551-610 | a row for each applyable plan, in order, and after a success the batch rows of exactly these are gone |
| StateStore.EventRowsMean | internal/state/proposal_budget.go:551-614 | one row for each workload whose plan is still to be proposed, with the time and the status of the report, and no others |
| StateStore.StatusMeans | internal/state/proposal_budget.go:616-636 | the status by what the Git step came to; it is a failure or a block if and only if there were errors or a block |
| StateStore.UnsettledMeans | internal/state/proposal_budget.go:588-605 | a success ends the batches of exactly the recorded workloads |
| StateStore.Store.UpsertProposalBatchItem | internal/state/proposal_budget.go:415-497 | an equal plan keeps first_seen, any other restarts it |
| StateStore.Store.ApplyProposalBatch | internal/state/proposal_budget.go:342-389 | rows and plans after the step, workload by workload |
| StateStore.BatchStepMeans | internal/state/proposal_budget.go:342-389 | for one workload: a plan that has to wait is held until its window is over and its row says since when; one that need not wait leaves the row alone; with nothing to recommend the row goes |
| StateStore.ApplyProposalBatch | internal/state/proposal_budget.go:85-101 | without a window or for other kinds nothing happens; without a database every applyable plan is held |
| StateStore.Store.Attach | internal/state/sqlite.go:133-164 | gates and outcome from the workload's rows in the order of time and id |
| StateStore.RowsOfMean | internal/state/sqlite.go:569-591 | all rows of the workload and no others are read, in the order of their times |
| StoreHistory.EarlierOrders | internal/state/sqlite.go:569-591 | which is a strict order of the stored texts |
| StateStore.Store.PruneExpired | internal/state/retention.go:28-81 | the new contents of all tables, at most once an hour |
| StateStore.PruneNowMeans | internal/state/retention.go:28-47 | pruning is on, and there was none in the last 3600 seconds |
| StateStore.PruningMeans | internal/state/retention.go:49-81 | what is left of each table: the rows whose text does not sort before the cutoff, batches by when they were last seen |
| StateStore.RowsAreIndependent | internal/state/proposal_budget.go:342-389 | with distinct workloads each batch row and each plan evolves as if it were alone |
| StateStore.BudgetedIsCleared | internal/state/proposal_budget.go:328-337 | a plan that is still applyable after the budget step has no exhausted budget |
| StateStore.RecordingKeepsBudgets | internal/state/proposal_budget.go:306-340 | recording a report that went through the budgets keeps the table admissible for each window by its own limit, so that the interval bound applies to it |
| StateStore.CompletionChangesNoDecision | internal/state/availability_recovery.go:39-56 | completing a recovery, failed or not, changes no later decision |
| StoreRuns.Reconcile | internal/controller/processor.go:40-106 | the state steps of one reconcile in their order: gates, budgets, batch, recorded runs, pruning, recorded proposals |
| StoreRuns.GatedExactly | internal/state/proposal_budget.go:306-389 | in a report with distinct workloads a plan is held if and only if it is over budget, or has to wait in the batch window of a commit and has not been offered for so long |
| StoreRuns.Drive | internal/controller/processor.go:40-106 | a new store, taken through any sequence of reservations, completions and reports, has the tables and gives the answers of the specification |
| StoreRuns.IdentifiersAscend | internal/state/availability_recovery.go:108-124 | in every run the rows of recoveries and of proposals have ascending identifiers, before the next one, so a completion is of one recovery |
| StoreRuns.ReportsLeaveRecoveries | internal/controller/processor.go:56-70 | a report neither reads nor adds recoveries, so the reservations that a reconcile makes between gates and budgets might as well come before it |
| StoreRuns.StoredItems | internal/state/proposal_budget.go:342-389 | at any point of any run, a workload's batch row is what its offers, expiries and recorded successes make of it |
| StoreRuns.StoreWaitsExactly | internal/state/proposal_budget.go:364-373 | the store lets a plan through the window exactly if it has been offered, unchanged and undeleted, since an offer that lies the window back |
| StoreLimits.RunsAreRelated | internal/state/retention.go:28-81 | if no report prunes what a later step looks back on, the pruned store lacks only rows that no later decision looks at; the times of the steps may come in any order |
| StoreLimits.PruningIsInvisible | internal/state/retention.go:28-81 | under that condition every decision and every held plan is that of a store that keeps its recoveries, proposals and runs (batch items expire in both) |
| StoreLimits.DriftIsCovered | internal/recovery/recovery.go:33-36 | the condition holds if every retention exceeds the day and all cooldowns by a second and by how far a step can lie behind an earlier one, as a report does whose recoveries were reserved after it was generated |
| StoreLimits.KeptRecoveries | internal/state/availability_recovery.go:58-124 | the recoveries of a store that keeps its rows are those of the limiter run on its requests |
| StoreLimits.StoreKeepsHourlyLimit | internal/state/availability_recovery.go:96-106 | what the pruned store grants stays within the limit in every closed hour |
| StoreLimits.StoreKeepsCooldown | internal/state/availability_recovery.go:83-94 | what the pruned store grants is in order and a cooldown apart |
| StoreLimits.KeptEvents | internal/state/proposal_budget.go:551-610 | the proposals of a store that keeps its rows are those its answers let through, each admitted by the budget of the window |
| StoreLimits.StoreKeepsBudgets | internal/state/proposal_budget.go:511-549 | the proposals that were subject to budgets keep them in every closed interval a second shorter than the window |
| StoreLimits.StoreKeepsFullWindow | internal/state/proposal_budget.go:511-549 | and in full windows if no report is hidden from the window of another |
| StoreLimits.AllProposalsKeepTheLimit | internal/state/proposal_budget.go:306-340 | for a workload that every report has in propose mode, with a limit and without enabled recovery: of all its proposals that are ever stored, failed and blocked ones aside, no closed interval a second shorter than the hour (or day) holds more than the limit |
| StoreLimits.AllProposalsKeepFullWindow | internal/state/proposal_budget.go:306-340 | and none as long as the window, where no report is hidden from another |
| StoreLimits.EveryProposalIsStored | internal/state/proposal_budget.go:551-610 | every plan that is ready when its report is recorded is among them |
| StoreHistory.KeptRunsAreHistory | internal/state/sqlite.go:569-630 | the rows of each workload, as queried, form the history of its own reconciles, whatever the others do |
| StoreHistory.PrunedRunsEndAlike | internal/state/retention.go:49-64 | pruning leaves the three newest rows of a workload alone as long as none of them is too old |
| StoreHistory.StoredGates | internal/state/sqlite.go:133-164 | at any report of any run in which pruning spares the three newest runs, the gates are those that the workload's own history decides |
| StoreHistory.StoreLockout | internal/state/sqlite.go:1319-1381 | in the store a blocking outcome locks exactly that reconcile of the workload and the next three, as long as pruning spares the three newest runs |
| StoreHistory.GatesOfRemembered | internal/state/sqlite.go:133-164 | whatever is pruned, the gates are those decided by what the workload's own reconciles and the prunings have left of its history |
| StoreHistory.KeptIsEnd | internal/state/retention.go:49-64 | what a pruning leaves of an ordered history is its end, from the first run on that is not older than the cutoff |
| PodRecovery.CurrentPodFailure | internal/recovery/recovery.go:142-160 | exactly whether and since when the container of the pod has failed |
| PodRecovery.PodReady | internal/recovery/recovery.go:162-169 | the first Ready condition decides |
| PodRecovery.RecoveryCandidate | internal/recovery/recovery.go:171-179 | the first pod of the list that is overdue, or none if there is none |
| PodRecovery.Cluster.GetPod | internal/kube/client.go:113-115 | the pod as it is after other writers had their turn |
| PodRecovery.Cluster.DeletePod | internal/kube/client.go:117-130 | an accepted delete removes the pod with the given UID and resource version, so the very object that was read |
| PodRecovery.Recheck | internal/recovery/recovery.go:63-96 | a pod that is read back is named in the report, of the same UID, of a ReplicaSet, and overdue in its failure |
| PodRecovery.RecoverWorkload | internal/recovery/recovery.go:55-137 | at most one deletion, justified and reserved when it happens; without other writers it happens if and only if the workload is due, and the pods and rows are then those with the candidate gone and a success on record |
| PodRecovery.Inspect | internal/recovery/recovery.go:83-101 | a pod passes if and only if it is the reported one and failing still; otherwise the reason holds of it |
| PodRecovery.Recreate | internal/recovery/recovery.go:104-137 | reservation, conditional delete and record of the outcome; nothing happens without a grant |
| PodRecovery.AttemptedMeans | internal/recovery/recovery.go:123-137 | a granted attempt leaves one new row, with its outcome |
| PodRecovery.RecoversExactly | internal/recovery/recovery.go:50-120 | who is due: an emergency, enabled twice, with a candidate that may be recreated, the cooldown (five minutes by default) over and fewer than the limit (six by default) in the last hour |
| PodRecovery.RecreatedPodsQualify | internal/recovery/recovery.go:142-179 | a pod that may be recreated is of a ReplicaSet, neither going nor ready, and its container ended in failure at least the grace period ago, in a crash loop before it |
| PodRecovery.CrashingPodRecovers | internal/recovery/recovery.go:142-190 | a pod in a crash loop may be recreated from two minutes on under a policy without numbers, if and only if it is the one reported |
| PodRecovery.Apply | internal/recovery/recovery.go:29-140 | for every schedule: a workload gets a recovery report if and only if it is in an emergency and has a policy, exactly the answered deletions are reported as successes, each was justified and reserved, and the limits hold. Without other writers each workload succeeds if and only if its candidate is due in the pods, and granted on the rows, that the workloads before it left; the deletions are of exactly these pods, and cluster and store end as they leave them |
| HelmTree.UniqueMappingValue | internal/analyzer/patch_plan.go:404-426 | found exactly if the mapping is well-formed without merge or complex keys and has the key once; missing if it is not there; refused otherwise |
| HelmTree.Document.ScalarNodeAt | internal/analyzer/patch_plan.go:368-402 | the loop selects as the recursive specification over keys does |
| HelmTree.ScalarMeans | internal/analyzer/patch_plan.go:368-426 | a path finds a scalar if and only if each key leads on from a mapping without an anchor, with plain keys that merge nothing and this key exactly once, to a value without an anchor, and the last value is a scalar that is not null |
| HelmTree.Document.SetScalarAt | internal/analyzer/patch_plan.go:428-449 | succeeds exactly if the path selects a scalar, and then overwrites that one node |
| HelmTree.Int64Means | internal/analyzer/patch_plan.go:428-449 | the texts that are written as numbers: decimal numbers of 64 bits |
| HelmTree.StandsOnlyThere | internal/analyzer/patch_plan.go:373-396 | the selected node stands at one position of the alias-expanded document only, since no anchor is passed |
| HelmTree.ChangesOnlyTheSelected | internal/analyzer/patch_plan.go:428-449 | at every position of the alias-expanded document: the new scalar at the selected one, the old label everywhere else |
| HelmTree.SelectionIsInjective | internal/analyzer/patch_plan.go:368-402 | different key paths select different nodes |
| HelmTree.LookupsKept | internal/analyzer/patch_plan.go:428-449 | after a replacement every path selects, misses or is refused as before |
| HelmTree.OtherValuesKept | internal/analyzer/patch_plan.go:428-449 | the new value is read back, every other path reads what it read before |
| HelmMerge.ComparePaths | internal/analyzer/proposal.go:277-298 | the lexicographic order of paths |
| HelmMerge.CompareIsOrder | internal/analyzer/proposal.go:277-302 | it is a total order, with zero for equal paths only |
| HelmMerge.PathsOverlap | internal/analyzer/proposal.go:304-315 | true exactly if one path is a prefix of the other |
| HelmMerge.OverlapMeans | internal/analyzer/proposal.go:304-315 | paths overlap if and only if one goes on where the other ends |
| HelmMerge.StringFieldMeans | internal/analyzer/proposal.go:266-275 | the fields that can be changed, by their names: a count as a number, a request as a string |
| HelmMerge.MergedChanges | internal/analyzer/proposal.go:198-240 | succeeds exactly if all changes are valid and only equal ones overlap; the result has each change once, in strict path order |
| HelmMerge.MergeIgnoresOrder | internal/analyzer/proposal.go:198-240 | the merge depends only on which changes there are, not on the order of plans or changes |
| HelmMerge.ApplyChange | internal/analyzer/proposal.go:242-264 | fails exactly if the value is gone or differs from the planned one; otherwise the one replacement, or nothing if it is the same |
| HelmMerge.ApplyChanges | internal/analyzer/proposal.go:142-150 | changes made in turn equal one simultaneous update, checked against the document as it was |
| HelmMerge.BuildProposal | internal/analyzer/proposal.go:134-150 | the same for all plans of a file, in terms of the set of their changes |
| HelmOwnership.ValidateOwnership | internal/config/config.go:280-326 | accepts exactly the profiles with one format per file and no overlapping claims |
| HelmPlanner.OwnedExactly | internal/config/config.go:280-326 | a profile is accepted if and only if each of its files has one format, and no configured path goes on where another one of the same file ends |
| HelmOwnership.OverlapsOne | internal/config/config.go:312-316 | true exactly if a listed path overlaps |
| HelmPlanner.SelectedContainer | internal/analyzer/analyzer.go:985-998 | the first container with the selected name, or the only one |
| HelmPlanner.AnswerReplicas | internal/analyzer/patch_plan.go:193-242 | what is planned for the replicas: an error, nothing, a blocked change or a change, after the checks in their order; a change fits the document |
| HelmPlanner.AnswerRequest | internal/analyzer/patch_plan.go:244-303 | the same for a CPU or memory request; HelmPlanner.PlanIsWhatIsDue says which recommendation it carries |
| HelmPlanner.Enter | internal/analyzer/patch_plan.go:305-317 | a change enters the plan and the dry-run document, where setting it never fails |
| HelmPlanner.BuildPatchPlan | internal/analyzer/patch_plan.go:44-162 | the plan of a workload with Helm values; its dry run is the document with all its changes made |
| HelmPlanner.PlanIsWhatIsDue | internal/analyzer/patch_plan.go:193-317 | a plan contains exactly the changes that are due: of the replicas, the CPU and the memory request, where the field is scaled, the document shows what the cluster has, the gate or a recovery allows it and another amount is recommended; each change is from that text to the recommendation for its own field |
| HelmPlanner.AppliesExactly | internal/analyzer/patch_plan.go:100-162 | a plan goes into a proposal if and only if the document shows what the cluster has for everything that is scaled, and some change is due |
| HelmPlanner.BlockedExactly | internal/analyzer/patch_plan.go:96-145 | a plan is blocked if and only if the report is, nothing is known of the gates, the rollout is under way without a recovery, or nothing is due and a gate keeps a change back |
| HelmPlanner.AttachPatchPlans | internal/analyzer/patch_plan.go:24-42 | each report gets the plan of the last workload with its name |
| HelmPlanner.FieldsAreDisjoint | internal/config/config.go:304-323 | in a valid profile overlapping values of a file belong to one field of one workload |
| HelmPlanner.CompatibleIffNamesakesAgree | internal/analyzer/patch_plan.go:29-40 | for every valid profile, any reports and documents: the plans for a file can be merged if and only if reports with one name have no two different changes of a value |
| HelmPlanner.CompatibleIffNamesakesWantAlike | internal/analyzer/patch_plan.go:29-40 | which is so if and only if any two reports with one name that both change a field of their workload recommend the same text for a field of the same name |
| HelmPlanner.PlannedChangesAreCompatible | internal/analyzer/proposal.go:198-240 | with distinct names the plans for a file never overlap |
| HelmPlanner.PlannedChangesFit | internal/analyzer/patch_plan.go:193-303 | every planned change is valid, matches the document it was planned for, and changes it |
| HelmPlanner.ProposeFile | internal/analyzer/proposal.go:111-175 | planned and built on an unchanged file, the proposal of a valid profile with distinct names succeeds; at the path of every change that is due for some report the file then has the text that this report recommends for it, a request as a string and a count as a number unless it was a string before, and nothing else in the file is different |
| HelmPlanner.DryRunIsTheProposal | internal/analyzer/patch_plan.go:144-160 | the document that a plan shows is the one that the proposal of this plan produces |
| HelmPlanner.NamesakesCollide | internal/analyzer/patch_plan.go:29-40 | two reports of one name that want different counts make the merge fail |
| HelmPlanner.TwinsCollide | internal/config/config.go:280-326 | which happens for a profile that passes the check of its ownership |
| GitProposal.Repository.EnsureRemoteFresh | internal/analyzer/proposal.go:667-725 | if it succeeds, the local branch extends the head fetched in this call, and equals it unless unpushed commits are allowed; without interference it succeeds |
| GitProposal.Repository.WriteProposalCommit | internal/analyzer/proposal.go:376-478 | a commit is built from, and placed directly on, a head fetched in this call; without interference the remote is the old one and a proposal with the built files |
| GitProposal.Repository.PublishExisting | internal/analyzer/proposal.go:497-576 | no new commit; an earlier proposal is pushed if it still fits, and without interference the remote then equals the local branch |
| GitProposal.Repository.Push | internal/analyzer/proposal.go:755-772 | a reported success means that remote and local are equal |
| GitProposal.Repository.CreateProposal | internal/analyzer/proposal.go:28-55 | one reconcile keeps all invariants, for every schedule of other writers and failures. Without interference: with a clean worktree that is not ahead, and files to write for worktree and head, the remote grows by one proposal with these files, built on the old head; with nothing to write an unpushed proposal is pushed; a refusal changes nothing |
| GitProposal.Reconcile | internal/analyzer/proposal.go:28-55 | over any number of reconciles the remote history only grows and every proposal in it follows the files it was built from; undisturbed and from an up-to-date branch, it grows by exactly the proposals of the reports, in their order |
| GitProposal.UnpushedIsOneProposal | internal/analyzer/proposal.go:717-720 | at most one commit is unpushed; it is a proposal, directly on a head of the remote |
| LineDiff.FillTable | internal/analyzer/patch_plan.go:840-852 | the table holds the length of the longest common subsequence of every two tails |
| LineDiff.LcsIsLongest | internal/analyzer/patch_plan.go:840-852 | no common subsequence is longer than the table says |
| LineDiff.LineDiffOps | internal/analyzer/patch_plan.go:839-878 | the script turns the one text into the other, keeps a longest common subsequence, and no script has fewer edits |
| LineDiff.DeletionsComeFirst | internal/analyzer/patch_plan.go:854-877 | in a block of edits no deletion follows an addition |
| LineDiff.HunkRanges | internal/analyzer/patch_plan.go:788-820 | the ranges are the maximal runs of operations within three of a change: ordered, disjoint and not adjacent |
| LineDiff.RunsAreMaximal | internal/analyzer/patch_plan.go:799-820 | nothing shown outside a range is adjacent to it |
| LineDiff.OnlyUnchangedLinesLeftOut | internal/analyzer/patch_plan.go:788-820 | every change lies in a range |
| LineDiff.CompactLineDiff | internal/analyzer/patch_plan.go:786-832 | the rendered maximal runs of an optimal script; none exactly if the texts are equal |
| LineDiff.HunksShowTheDifference | internal/analyzer/patch_plan.go:786-832 | the lines that the hunks mark as removed and as added account for the whole difference of the two texts, and no edit script has fewer of them |
| LineDiff.HunkShows | internal/analyzer/patch_plan.go:822-830 | a hunk has a line for each operation of its range, with a blank, a minus or a plus sign in front |
| LinearTrend.BalancedIsLeastSquares | internal/analyzer/analyzer.go:1937-1968 | a line whose residuals sum to zero and are orthogonal to time has the least squared error of all lines |
| LinearTrend.LeastSquaresIsUnique | internal/analyzer/analyzer.go:1937-1968 | with two different times, no other line does as well |
| LinearTrend.FitLine | internal/analyzer/analyzer.go:1937-1968 | the fitted slope and the residuals are those of such a line; with equal times the slope is zero |
| LinearTrend.Means | internal/backtest/backtest.go:649-657 | the running sums give the means |
| LinearTrend.Moments | internal/backtest/backtest.go:658-663 | the running sums give the two moments |
| Sizing.LearnedPolicyIsSane | internal/analyzer/analyzer.go:2291-2318 | whatever the history and the operator's limits are, thresholds enclose the target and steps are positive and below 100% down |
| Sizing.VolatilityMeans | internal/analyzer/analyzer.go:2291-2318 | volatility is seven tenths of the relative distance from median to 95th percentile and three tenths of that to the maximum; 0.65 with fewer than twelve points |
| Sizing.VolatilityIsLimited | internal/analyzer/analyzer.go:2291-2318 | a median outside of its range counts as the end of it, and a maximum as one at most twice the 95th percentile |
| Sizing.VolatilityOrder | internal/analyzer/analyzer.go:2291-2318 | a lower median or a higher maximum is more volatile |
| Sizing.VolatilityMakesCautious | internal/analyzer/analyzer.go:2291-2345 | the more volatile a history, the lower the target, the larger the increases and the smaller the decreases |
| Sizing.GuardrailsCap | internal/analyzer/analyzer.go:2291-2318 | the limits of the operator cap the steps and change nothing else |
| Sizing.BuiltInPolicies | internal/analyzer/analyzer.go:2261-2318 | what the built-in profiles learn from steady, from bursting and from no history |
| Sizing.BuiltInProfilesAreSane | internal/analyzer/analyzer.go:2261-2289 | the two built-in profiles meet the assumption of that |
| Sizing.StepTowardsGoal | internal/analyzer/analyzer.go:723-800 | from any positive request, CPU or memory, one step keeps it or makes it a rounded one between the request, rounded up, and the goal, or the limit if that is lower |
| Sizing.ResizeMeans | internal/analyzer/analyzer.go:723-800 | above the one threshold the wanted amount, as far as an increase may go; below the other, if allowed, as far as a decrease may go; no change in between |
| Sizing.SmallMeans | internal/analyzer/analyzer.go:1004-1022 | a change is too small by its share of the request |
| Sizing.DecreaseRaises | internal/analyzer/analyzer.go:2349-2390 | a decreasing step raises the request if and only if this is no multiple of the quantum, the bounded amount is above the next lower one, and neither limit nor threshold stops it |
| Sizing.DecreaseCanRaise | internal/analyzer/analyzer.go:729-736 | 25m becomes 30m under a policy that the CPU profile learns, with 10m as the goal |
| Sizing.AlignedRequestConverges | internal/analyzer/analyzer.go:2349-2429 | under fixed demand, whatever limit and threshold are, a request that is rounded or at its limit is monotone, never overshoots, and rests after at most one step per quantum between it and the goal or the limit |
| Sizing.RequestConverges | internal/analyzer/analyzer.go:2349-2429 | from any positive request the same holds from the first new value on |
| Sizing.RequestRests | internal/analyzer/analyzer.go:2349-2429 | so every request rests, after one step more than that |
| Sizing.RestsUnderPressure | internal/analyzer/analyzer.go:917-932 | above the increase threshold a request rests if and only if it is at its limit, or the raise, as far as the limit lets it, changes it by less than the minimum percentage |
| Sizing.PressureGetsThrough | internal/analyzer/analyzer.go:1004-1022 | with a minimum percentage below the largest step and below the slack above target, every raise within the limit is made |
| Sizing.PressureCanStay | internal/analyzer/analyzer.go:1004-1022 | one core at tenfold utilization is requested at every reconcile, with steps of 3% and a minimum of 5% |
| Optimizer.KeptCountConverges | internal/analyzer/analyzer.go:1068-1106 | from any positive start the requests of the joint choice, which looks at no utilization thresholds and no limits, converge likewise as long as the replica count is kept |
| Optimizer.Fit | internal/analyzer/analyzer.go:1068-1106 | a request for one replica count, rejected exactly if it leaves more than a hundredth of the demand unserved |
| Optimizer.HeldRequestCovers | internal/analyzer/analyzer.go:1073-1074 | keeping a request that may not shrink always covers the demand |
| Optimizer.Candidate | internal/analyzer/analyzer.go:1064-1121 | a plan exactly for a feasible count, with its score |
| Optimizer.Optimize | internal/analyzer/analyzer.go:1040-1062 | succeeds exactly if a count in range is feasible, and returns the cheapest plan, with the fewest replicas among equals, that covers the demand |
| Optimizer.RangeMeans | internal/analyzer/analyzer.go:1040-1062 | the counts that are tried |
| Optimizer.FeasibleExactly | internal/analyzer/analyzer.go:1064-1112 | a count is feasible unless a resource with a known demand would be more than a hundredth short of it |
| Optimizer.CheaperExactly | internal/analyzer/analyzer.go:1098-1121 | a plan is cheaper if and only if it takes a smaller part of what is requested today, CPU and memory added, where another replica counts as two hundredths |
| Optimizer.PlanResizeMeans | internal/analyzer/analyzer.go:1068-1096 | a request is kept if it is not managed or may not shrink, and otherwise goes towards its share within the steps of the policy |
| ReplicaDecision.MultiSignalReplicaDecision | internal/analyzer/analyzer.go:1424-1503 | score and count from the components, never below the floor |
| ReplicaDecision.ScoreMeans | internal/analyzer/analyzer.go:1424-1591 | the score is the clamped sum of what traffic, the three anomaly signals and the two resources say |
| ReplicaDecision.ScoredMeans | internal/analyzer/analyzer.go:1470-1503 | with a score of 0.25 or more the count is the least one that is enough for every signal that asks for more; with -0.05 or less the least that floor and unmanaged resources allow; in between what is there |
| ReplicaDecision.CriticalMeansMore | internal/analyzer/analyzer.go:1528-1562 | one critical anomaly adds a replica unless something speaks for fewer |
| ReplicaDecision.WarningsKeepTheCount | internal/analyzer/analyzer.go:1528-1562 | warnings alone never change the count |
| ReplicaDecision.FloorMeans | internal/analyzer/analyzer.go:818-836 | the least count: at least one and all floors, and one more than there are in an emergency, as far as the maximum |
| ReplicaDecision.TrafficMeans | internal/analyzer/analyzer.go:1633-1666 | the traffic needs the least count that carries the forecast at three quarters of the peak load of a replica, capped unless scaling up is allowed |
| ReplicaDecision.QuietComponents | internal/analyzer/analyzer.go:1505-1591 | without a demand signal no component that scores asks for more than is there |
| ReplicaDecision.ScoredWithoutDemand | internal/analyzer/analyzer.go:1424-1503 | without a demand signal the count stays within current, one and floor exactly if not an unmanaged resource asks for more while the score says waste |
| ReplicaDecision.ScaleUpWithoutDemand | internal/analyzer/analyzer.go:1482-1497 | the exception happens |
| ReplicaDecision.CountWithinBounds | internal/analyzer/analyzer.go:818-901 | through scoring, maximum, optimiser and scale-down block the count stays between floor and maximum (or the current count), and without a demand signal it exceeds what is there exactly in that one case |
| ReplicaDecision.RecommendReplicas | internal/analyzer/analyzer.go:818-901 | the cheapest feasible count from the clamped score on, or the clamped score, unless a blocked scale-down restores the current count; with those bounds |
| Replay.ReplicaBounds | internal/backtest/backtest.go:389-423 | the bounds from the limits and the counts that were seen: a missing maximum is twice the highest of them, and without scaling the first is fixed |
| Replay.DemandReplicas | internal/backtest/backtest.go:555-577 | the least count in bounds that serves every known load, or the upper bound |
| Replay.ServedExactly | internal/backtest/backtest.go:555-577 | a count serves a point if and only if it carries each measured load: a slow latency counts for fifteen percent more requests and errors for ten, and concurrency has five times the capacity |
| Replay.DemandIsUnique | internal/backtest/backtest.go:555-577 | there is only one such count |
| Replay.Gate | internal/backtest/backtest.go:464-492 | the three loop variables follow the history of targets |
| Replay.CommitsAreRare | internal/backtest/backtest.go:464-492 | stability runs times commits do not exceed the points |
| Replay.CommittedIsLatestHeld | internal/backtest/backtest.go:464-492 | the committed count is the latest target that held for the stability runs, or the initial one |
| Replay.Classify | internal/backtest/backtest.go:494-527 | every spike is counted once, as proactive, covered or missed |
| Replay.ExcessiveMeans | internal/backtest/backtest.go:525-527 | excessive is a count two or more too high, by more than a quarter |
| Replay.CountedMeans | internal/backtest/backtest.go:494-527 | the counters are the numbers of the points that they are about |
| Replay.CommitsAreChanges | internal/backtest/backtest.go:464-492 | commits are the changes of the committed count |
| Replay.LastUpMeans | internal/backtest/backtest.go:464-492 | the latest raise is the latest point at which the committed count went up |
| Replay.ProactiveMeans | internal/backtest/backtest.go:494-512 | proactive are the spikes that were covered with more than the minimum, after a raise within the horizon and a step before them |
| Replay.ReplayDecisions | internal/backtest/backtest.go:442-538 | the whole loop: targets and required counts for every point, committed counts in bounds, and every counter of the report, proactive spikes by the latest raise before them |

## Left out

- OutcomeGates.Attach: the texts of reasons, forecast accuracy, seasonality and the smoothing of recommendations; the recommendation before and after that feedback is given.
- StateStore.Store.PruneExpired: the tables of signals, decisions, scores and observations, which no decision here reads.
- StoreHistory.StoredGates: a run counts as ordered if the texts of its times are; within one second that is more than being in time order. If pruning removes one of a workload's three newest runs, StoreHistory.GatesOfRemembered says what decides.
- StoreRuns.Drive: what lies between the state steps (analysis, pod deletion, Git) is given by the reports, and database errors do not occur.
- StateStore.Store.RecordProposalEvents: columns that are only reported.
- PodRecovery.Apply: errors of the database, which end the loop early.
- HelmMerge.BuildProposal: reading, decoding and encoding of files, and the check that a file has one format and one document; the root mapping is checked.
- HelmOwnership.ValidateOwnership: the cleaning of source paths, which are given clean.
- HelmPlanner.BuildPatchPlan: the base path and reading of files; a file that cannot be read as one document is a missing one. Whether a change is one of availability recovery is given.
- GitProposal.Repository.CreateProposal: proposals without push, for which freshness is not checked, missing remote branches, creating and switching branches, and the protection of the default branch.
- GitProposal.Repository.Commit: writing, staging and committing fail as one step.
- Sizing.RequestConverges: rounding of floating point. When replicas are managed and there is no emergency, the joint choice of count and requests replaces this step; for that see Optimizer.KeptCountConverges.
- Optimizer.KeptCountConverges: whether the count itself comes to rest.
- ReplicaDecision.RecommendReplicas: the clamping of the count by 32-bit integers, and reasons; the requests that accompany the count are in Optimizer.
- Replay.ReplayDecisions: replica-hours, events, and how forecasts and spikes are found; both are given for every point.
- LinearTrend.FitLine: rounding of floating point.
- Kubernetes manifests: editing them has no check for stale values and is not part of this model.
- Rollback: it does not check freshness and is not part of this model.
- Safety classification, seasonality rules, waste score and confidence: settled by reading one branch each; their results are inputs.
- Reports, command line, controller and custom resources: formatting and plumbing.
