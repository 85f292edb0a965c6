# Verified model of the audit stack's algorithms

This project models, in Dafny, the algorithms of the Lean-tactic audit stack in `lean_rgc/` and proves what
they are for. One module per source file; code that updates state is written as methods and classes, each
proved against a specification function whose own properties are then proved as lemmas.

| module | source file | subject |
|---|---|---|
| `Simplex`, `Coker` | `coker.py` | projection onto the capped nonnegative simplex; projected gradient descent onto the response cone |
| `Greedy`, `AuditScheduler`, `ActiveScheduler` | `audit_scheduler.py`, `active_scheduler.py` | greedy selection under budget, per-task and per-source caps |
| `UnionFind`, `Quotient` | `quotient.py` | path-halving union-find and the tolerance quotient |
| `Bivariate`, `TurnOrder`, `PairingConditions`, `CompletenessConditions` | `bivariate_contextual_quotient.py` | round-robin scheduling of probes paired with baselines; in which order buckets are served, when the pairing is kept and when every probe is scheduled |
| `AuditQueue`, `ResultCache` | `audit_job_queue.py`, `audit_result_cache.py` | the lease state machine and the result cache |
| `KernelCache` | `kernel_context_cache.py` | memoised pre/premise/post steps |
| `Gamma` | `action_geometry.py` | finite-horizon and stationary propagation values |
| `Staging` | `audit_staging.py` | the staged audit and its stopping rule |
| `Concepts` | `face_taxonomy.py` | closure operator and concept generation |
| `Crg` | `crg_optimizer.py`, `crg_hardening.py` | mixtures of repair atoms and the hardening gap |
| `Pruning` | `audit_pruning.py` | dominance pruning with pinned baselines |
| `Cocycle` | `arithmetic_teacher_cocycle.py` | composition audit of affine charts |
| `Options`, `Vectors`, `Sorting`, `Sums` | | shared vocabulary: options and slices, real vectors, stable sorting, finite sets and sums over them |

Conventions. Arithmetic is over `real`. A digest (`stable_hash`, a job id, a cache key) is the tuple of the
fields it is computed from. The clock, the Lean server, the auditor, the audit runner, the linear solver, matrix
and vector norms and `exp` are parameters; where a theorem needs a fact about one of them it is a stated
hypothesis. Each database call is one atomic step. Scores, costs, prune keys and other values that the program
derives from metadata are arbitrary inputs.

Results where the code does not do what its design suggests:

- Active scheduling with a budget of zero or less can still return one row: `ActiveScheduler.BudgetKeptIff`
  gives the exact condition and `ActiveScheduler.EmptyBudgetRun` what the loop does.
- Attempts stay within their limits throughout a run exactly when no job is started after a lease has picked it
  up expired, running and with its attempts used up (`AuditQueue.LimitsHoldIff`). Each such pickup can add one
  start (`AuditQueue.AttemptsBounded`), there is no bound on how many there are, and the overshoot is attained
  (`AuditQueue.BoundIsAttained`). The mark calls themselves check nothing: `AuditQueue.TerminalForeverIff` says
  when a finished job's row survives unguarded calls.
- A positive cokernel margin need not mean that the new response helps (`Coker.MarginMisleads`). It always does
  exactly when the support is at least the optimum's multiplier or the residual is zero
  (`Coker.MarginSufficesIff`), which is so whenever the optimum uses a response (`Coker.MarginDecides`).
- The result cache is invisible exactly for auditors whose successes depend on the key alone
  (`ResultCache.TransparentIff`), the kernel context cache exactly for servers that ignore the task and the
  unkeyed action fields (`KernelCache.TransparentIff`).
- Probe ids are clean when no two probes share one and none is a baseline's.
  With required pairs, scheduled baselines are always followed by a probe naming them exactly when no probe
  carries a baseline's id and no two probes share one; a shared id is harmless only if no baseline has a
  nonempty id (`PairingConditions.AlwaysFollowedIff`).
- With optional pairs and clean ids only the last entry of a full list can be a baseline without its probe
  (`Bivariate.OnlyTheLastDangles`). Over all inputs with given ids and budget this never happens exactly when
  the budget is zero, one kind of row is absent, or the ids are clean and there is room for every probe and for
  as many baselines as the probes can name (`PairingConditions.OptionalFollowedIff`).
- With clean ids, every probe that names no missing baseline is always scheduled, or at most one place is left,
  exactly when the budget is below two or probes with missing baselines and probes without do not both occur
  (`CompletenessConditions.AlwaysCompleteIff`). When only offered baselines are named, every id is always
  scheduled, or at most one place is left, exactly when the ids are clean or all probes share one id: a skipped
  duplicate ends the run early (`CompletenessConditions.AlwaysScheduledIff`).
- The matrix loop and the componentwise helper agree exactly when the discount is zero or the row's matrix is
  the diagonal the helper uses (`Gamma.AgreeIff`). The helper ignores `gamma_matrix`, and the two treat a
  diagonal of the wrong length differently (`Gamma.AgreeOnDiagonalIff`, `Gamma.SameDiagonalIff`).
- The staged-audit count matches the jobs spent for all scores and settings exactly when no action id is
  repeated (`Staging.ReportIsExactIff`), and the same holds of the identity between the pruning counters
  (`Pruning.CountsAgreeIff`).

## Model

| member | source | states |
|---|---|---|
| Simplex.CandidatesArePrefix | lean_rgc/coker.py:37-39 | the rho candidates form a prefix of the sorted entries |
| Simplex.FirstIsCandidate | lean_rgc/coker.py:39-41 | for a positive cap the first entry is a candidate, so the no-candidate branch is unreachable |
| Simplex.ThetaSeparates | lean_rgc/coker.py:37-42 | the threshold is nonnegative, some sorted entry is kept, and it separates the kept entries from the dropped ones |
| Simplex.ThetaBalances | lean_rgc/coker.py:35-42 | clipping at the threshold leaves exactly the cap as mass |
| Simplex.ProjectMass | lean_rgc/coker.py:29-43 | the result is nonnegative and within the cap exactly when the cap allows any point, and has the cap as its mass whenever the cap binds |
| Simplex.ProjectNearest | lean_rgc/coker.py:29-43 | no point of the capped simplex is nearer to the input |
| Simplex.ProjectUnique | lean_rgc/coker.py:29-43 | the result is the only nearest point |
| Simplex.VariationalIsProject | lean_rgc/coker.py:29-43 | any feasible point meeting the variational inequality is the result, an independent characterisation |
| Simplex.ProjectNonExpansive | lean_rgc/coker.py:29-43 | projecting never increases the distance between two inputs |
| Simplex.NegativeCap | lean_rgc/coker.py:34-36 | a negative cap allows no point, and the code returns zero |
| Coker.GradientIsDual | lean_rgc/coker.py:58-66 | the Gram-matrix gradient is minus twice the correlation of the rows with the residual, ridge included |
| Coker.ObjectiveExpansion | lean_rgc/coker.py:58-66 | the ridge objective along any step is its value, its dual slope and its curvature |
| Coker.StepDescent | lean_rgc/coker.py:66-71 | each step lowers the objective by at least half of L times the squared step |
| Coker.IterateFeasible | lean_rgc/coker.py:64-71 | every iterate is nonnegative and within the mass cap |
| Coker.RunBounds | lean_rgc/coker.py:46-75 | over a whole run the squared steps sum to at most 2 \|D\|^2 / L and the residual never exceeds the defect |
| Coker.RunRate | lean_rgc/coker.py:46-75 | after k steps the objective is within L \|z\|^2 / (2k) of that of any feasible z |
| Coker.FixedIffStationary | lean_rgc/coker.py:66-67 | a point is fixed by the step exactly when no feasible direction descends |
| Coker.StationaryIffOptimal | lean_rgc/coker.py:58-74 | stationary points are exactly the global minimisers over the capped cone |
| Coker.FixedPointMeaning | lean_rgc/coker.py:58-74 | fixed point, global minimiser and existence of one multiplier meeting the optimality conditions are equivalent |
| Coker.NewRowHelps | lean_rgc/coker.py:78-84 | at an optimum with its multiplier, the optimum stays optimal after adding a row exactly when the row's correlation with the residual is at most the multiplier |
| Coker.MarginSufficesIff | lean_rgc/coker.py:78-84 | for a certified optimum every response with positive cokernel margin improves it exactly when the largest correlation of a row is at least the multiplier, or the residual is zero |
| Coker.MarginNecessaryIff | lean_rgc/coker.py:78-84 | every response that improves it has a positive margin exactly when that correlation is at most the multiplier, or the residual is zero |
| Coker.MarginDecides | lean_rgc/coker.py:78-84 | at an optimum that uses some row a positive margin means the new response improves it, and with zero ridge the two are equivalent |
| Coker.MarginMisleads | lean_rgc/coker.py:78-84 | an optimum that uses no row and a response with margin one half that does not improve it |
| Coker.StepConstantFromNorm | lean_rgc/coker.py:60-61 | the source's constant, twice a bound on the operator norm of the Gram matrix plus 1e-9, is a valid step constant |
| Coker.StepConstantFromFrobenius | lean_rgc/coker.py:62-63 | so is its fallback, which uses the Frobenius norm |
| Coker.StepSizeIsConstant | lean_rgc/coker.py:60-63 | the step size the program computes, from either norm, is a valid step constant |
| Coker.SmallStepMeaning | lean_rgc/coker.py:68-70 | the stopping test on norms is a test on squared norms |
| Coker.ReportIsSound | lean_rgc/coker.py:64-75 | wherever the loop stops the reported weights are in the capped cone, the residual is no longer than the defect, and the relative residual is below one |
| Coker.ProjectOntoResponseCone | lean_rgc/coker.py:46-75 | malformed inputs are refused; otherwise the weights are the iterate after the first small step or the last allowed one, the projection is the weighted sum of the rows, residual and normal are what it leaves of the defect, each norm is that of its vector, the support value is the largest product of a row with the residual, the active count is the number of weights above 1e-8, and the relative residual times the defect norm plus 1e-9 is the residual norm |
| Greedy.ChargedTotals | lean_rgc/audit_scheduler.py:374-405 | if every prefix of a descending list is charged c to one, totals are too |
| Greedy.ChargedPositions | lean_rgc/active_scheduler.py:254-277 | if every prefix is charged one to one, the k-th pick comes no later than the k-th of any competitor |
| AuditScheduler.ScheduleAuditCandidates | lean_rgc/audit_scheduler.py:350-405 | rows are gone through by falling score, ties in input order, and a row is taken exactly when the budget is not used up and fewer rows than the caps of its own task, if it has one, and of its own source are taken before it; the counts per task and per source are exact |
| AuditScheduler.ChosenFeasible | lean_rgc/audit_scheduler.py:374-405 | the selection respects the budget and both caps |
| AuditScheduler.GreedyCharges | lean_rgc/audit_scheduler.py:374-405 | prefix by prefix, any feasible selection has at most one (one cap) or two (both caps) times as many rows |
| AuditScheduler.GreedyGuarantee | lean_rgc/audit_scheduler.py:350-405 | for any scores, no feasible total exceeds that factor times the positive part of the greedy total |
| AuditScheduler.GreedyHalfOptimal | lean_rgc/audit_scheduler.py:350-405 | for nonnegative scores the greedy total is at least half of any feasible one, and optimal when at most one cap kind is set |
| AuditScheduler.HalfIsTight | lean_rgc/audit_scheduler.py:350-405 | with both caps the factor two is attained |
| ActiveScheduler.ScheduleActions | lean_rgc/active_scheduler.py:235-277 | scored rows are gone through by falling score, then margin, ties in input order, and, with a usable budget, a row is taken exactly when the budget is not used up and fewer rows than the limit of its own task field are taken before it; rows without a task are bounded by the budget alone |
| ActiveScheduler.AfterFeasible | lean_rgc/active_scheduler.py:254-277 | with a usable budget the selection respects budget and per-task limit |
| ActiveScheduler.LeftOutMeans | lean_rgc/active_scheduler.py:262-272 | a scored row is left out only when the budget is full or its own task has its limit of rows |
| ActiveScheduler.SelectionDominates | lean_rgc/active_scheduler.py:254-277 | no feasible selection is larger, and the k-th chosen score is at least its k-th |
| ActiveScheduler.SelectionBeatsFitting | lean_rgc/active_scheduler.py:254-277 | against every set of scored rows within the budget that holds at most the limit of rows for each named task: none is larger, and the k-th selected score is at least its k-th best |
| ActiveScheduler.EmptyBudgetRun | lean_rgc/active_scheduler.py:260-275 | with no budget the loop takes the first task row, if any, and stops |
| ActiveScheduler.BudgetKeptIff | lean_rgc/active_scheduler.py:254-277 | exactly when the result stays within the budget |
| UnionFind.HalvedRoots | lean_rgc/quotient.py:35-39 | halving a path keeps every node's root |
| UnionFind.Partition.Find | lean_rgc/quotient.py:35-39 | find terminates, returns the root of its argument and changes no class |
| UnionFind.Partition.Union | lean_rgc/quotient.py:41-44 | union merges exactly the two classes |
| Quotient.Merge | lean_rgc/quotient.py:46-52 | after the double loop two rows share a class exactly when a chain of near pairs links them |
| Quotient.ComponentsAreQuotient | lean_rgc/quotient.py:53-60 | the emitted groups are disjoint, cover all actions, are ordered by first member, and are the connected components |
| Quotient.Discover | lean_rgc/quotient.py:24-60 | two actions share a component exactly when a chain links them in which, for a nonnegative tolerance, the weighted squared differences of consecutive rows add up to at most its square; absent weights are 1, a single weight is every column's, and a single column takes every weight; malformed shapes are refused, and weights that fit neither way once two rows are compared |
| Bivariate.PopKey | lean_rgc/bivariate_contextual_quotient.py:490-496 | the inner loop drops only keys of empty buckets and finds the first key with probes |
| Bivariate.VisitKeepsQueued | lean_rgc/bivariate_contextual_quotient.py:484-518 | every waiting bucket's key stays queued under its premise use, through push-back as well |
| Bivariate.RunKeepsInv | lean_rgc/bivariate_contextual_quotient.py:482-520 | order of service, safety, accounting and pairing hold in every state of every run |
| Bivariate.ScheduleIsPaired | lean_rgc/bivariate_contextual_quotient.py:482-520 | at most budget rows, no id twice, and every probe naming an offered baseline has that id earlier |
| Bivariate.PairIsTheBaseline | lean_rgc/bivariate_contextual_quotient.py:500-513 | with clean ids what precedes the probe is that very baseline |
| Bivariate.BaselinesIntroduceProbes | lean_rgc/bivariate_contextual_quotient.py:506-518 | with required pairs each baseline is directly followed by a probe naming it, when no probe carries a baseline's id and no id is repeated unless all baseline ids are empty |
| Bivariate.ScheduleConserves | lean_rgc/bivariate_contextual_quotient.py:462-520 | bucket by bucket served plus waiting probes are the input in order, and every served probe is accounted for |
| Bivariate.ScheduleIsComplete | lean_rgc/bivariate_contextual_quotient.py:482-520 | with clean ids and nothing reported missing, all probes are scheduled or at most one place is unused |
| Bivariate.NoneMissing | lean_rgc/bivariate_contextual_quotient.py:500-505 | if every named baseline is offered nothing is reported missing |
| Bivariate.OnlyTheLastDangles | lean_rgc/bivariate_contextual_quotient.py:506-518 | with clean ids, pairs required or not, every baseline but the last entry directly precedes a probe naming it, and the last entry is a baseline only when the list is full |
| TurnOrder.ServesInTurn | lean_rgc/bivariate_contextual_quotient.py:484-520 | every probe is served in turn: each other waiting bucket of its premise use has been served as often, or once more if it stands earlier; the same holds of the other premise uses that wait, unless their next probe does not fit; and every service extends the list as the budget and the probe's baseline say |
| TurnOrder.BucketsTakeTurns | lean_rgc/bivariate_contextual_quotient.py:489-518 | between two services of one bucket every other bucket of the same premise use that still waits is served |
| TurnOrder.UsesTakeTurns | lean_rgc/bivariate_contextual_quotient.py:484-520 | between two services of one premise use every other use that still waits is served, unless its next probe does not fit and is pushed back |
| PairingConditions.AlwaysFollowedIff | lean_rgc/bivariate_contextual_quotient.py:482-520 | over all inputs with required pairs, given probe ids and given baseline ids, pairing holds exactly when the two are disjoint and no probe id is repeated, or none of the baseline ids is nonempty |
| PairingConditions.AmpleBudgetFollowed | lean_rgc/bivariate_contextual_quotient.py:506-518 | with clean ids and a budget for all probes and all named baselines no baseline is left without its probe |
| PairingConditions.OptionalFollowedIff | lean_rgc/bivariate_contextual_quotient.py:482-520 | over all inputs with optional pairs, given probe ids, given baseline ids and a given budget, pairing holds exactly when the budget is zero, one of the two lists is empty, or no id occurs twice in them and the budget is at least the number of probes plus the smaller of the two numbers |
| CompletenessConditions.AlwaysCompleteIff | lean_rgc/bivariate_contextual_quotient.py:482-520 | with clean ids, over all ways the rows fall into buckets every probe that names no missing baseline is scheduled or at most one place is left, exactly when the budget is below two or missing-baseline probes and others do not both occur |
| CompletenessConditions.AlwaysScheduledIff | lean_rgc/bivariate_contextual_quotient.py:482-520 | over all inputs with given probe and baseline ids in which only offered baselines are named, every probe id is scheduled or at most one place is left, exactly when no id occurs twice or all probe ids are equal |
| Bivariate.Scheduler.Schedule | lean_rgc/bivariate_contextual_quotient.py:482-520 | the nested loops over the deques compute the specified run and terminate |
| Bivariate.ScheduleCandidates | lean_rgc/bivariate_contextual_quotient.py:452-520 | partition, bucketing and scheduling of candidate rows give the specified outcome |
| AuditQueue.Queue.Enqueue | lean_rgc/audit_job_queue.py:192-261 | task by task and action by action up to the per-task maximum, keys not in the table become fresh queued rows, known keys are left alone, and both are counted; a task without an action list leaves the table as it was |
| AuditQueue.Queue.LeaseNext | lean_rgc/audit_job_queue.py:268-313 | the lease goes to a highest-priority, oldest job among those in a requested lane that are queued, handed out with their term over, or failed with attempts left, for the term asked for, and to none only if there is no such job |
| AuditQueue.CancelIsFinal | lean_rgc/audit_job_queue.py:351-371 | after a cancellation no later lease hands out a job of the run that was in the table, and its row never changes again |
| AuditQueue.ReEnqueueIsNoOp | lean_rgc/audit_job_queue.py:212-259 | enqueueing the same jobs again changes nothing |
| AuditQueue.TerminalForever | lean_rgc/audit_job_queue.py:268-370 | over whole runs a finished or cancelled job never changes again |
| AuditQueue.TerminalForeverIff | lean_rgc/audit_job_queue.py:268-371 | in a run of any calls, guarded or not, a finished job's row never changes again exactly when no running mark on it and no result mark that brings anything new occurs |
| AuditQueue.NoDoubleHandout | lean_rgc/audit_job_queue.py:268-313 | no job is leased twice while its lease is live unless the first holder reported a result |
| AuditQueue.LimitsHoldIff | lean_rgc/audit_job_queue.py:268-349 | over a run that starts within the limits every job's attempts stay within its limit exactly when no job is started after a lease has picked it up expired, running and with its attempts used up |
| AuditQueue.AttemptsBounded | lean_rgc/audit_job_queue.py:268-349 | from an empty table no job is started more often than its limit plus the number of such pickups of that job |
| AuditQueue.BoundIsAttained | lean_rgc/audit_job_queue.py:268-327 | for every limit and every d a run from an empty table makes d such pickups of a job and starts it d times more than its limit |
| AuditQueue.ExecutionsBounded | lean_rgc/audit_job_queue.py:268-349 | from an empty table a run executes at most the sum of the attempt limits plus the number of such pickups |
| ResultCache.KeyMeaning | lean_rgc/audit_result_cache.py:280-328 | two requests share a cache entry exactly when the six task fields, the state, the tactic, the Lean version, workdir fingerprint, import mode, heartbeats, trace flag and lane agree, each with its default filled in |
| ResultCache.Cache.ApplyToQueue | lean_rgc/audit_result_cache.py:350-441 | exactly the waiting rows of the run for whose request, field by field, the table holds an entry are answered, with that entry; hit counts advance, and hits and misses sum to lookups |
| ResultCache.Cache.StoreResults | lean_rgc/audit_result_cache.py:444-532 | for every request, field by field, the table holds the last unflagged success of the run for it in the order they are read, else what it held before; the counts are those of stored, replaced and skipped rows |
| ResultCache.LastOfferWins | lean_rgc/audit_result_cache.py:487-509 | of several results offered for one key the last is kept, and the key's hit count survives |
| ResultCache.SecondRunAnswers | lean_rgc/audit_result_cache.py:350-532 | a waiting job of a later run is answered from the cache that one run has filled exactly when that run stored a success for a request with the same fields |
| ResultCache.RunTransparent | lean_rgc/audit_result_cache.py:350-532 | one run over a sound cache gives every job its uncached outcome |
| ResultCache.RunConsults | lean_rgc/audit_result_cache.py:350-441 | a run answers a job from the cache exactly when it may use the cache and an entry is kept for a request with its fields |
| ResultCache.RunKeepsSound | lean_rgc/audit_result_cache.py:469-532 | a run leaves only unflagged results the auditor vouches for |
| ResultCache.SessionSound | lean_rgc/audit_result_cache.py:350-532 | so does any sequence of runs from an empty cache |
| ResultCache.TransparentIff | lean_rgc/audit_result_cache.py:280-532 | the cache is invisible in every session exactly when successes depend on the key alone |
| KernelCache.PlanShape | lean_rgc/kernel_context_cache.py:241-302 | later steps start only from a successful, open state, and a plan succeeds exactly when its last step succeeded where a plan may end |
| KernelCache.KeyMeaning | lean_rgc/kernel_context_cache.py:125-135 | two requests share an entry exactly when parent state, action id, tactic and role agree |
| KernelCache.TransparentIff | lean_rgc/kernel_context_cache.py:125-178 | after every history every answer is the server's exactly when the server ignores what the key leaves out |
| KernelCache.ContextStateCache.ApplyCached | lean_rgc/kernel_context_cache.py:136-178 | for any server the answer is its answer to the first request with that key, one counter advances, and misses equal the cache size |
| KernelCache.ContextStateCache.Materialize | lean_rgc/kernel_context_cache.py:241-302 | in terms of the records: an identity step keeps its state; any other is the server's answer to the action sent at the step's parent; the next parent is the first nonempty of the record's persistent, after-state and kernel state ids, else the same; pre, premise and post run the candidate's own charts; and the plan stops early exactly at a record that does not succeed, is closed or lists no goals |
| KernelCache.ContextStateCache.MaterializeAll | lean_rgc/kernel_context_cache.py:303-400 | so does every plan of a list, in any order, and every call is counted once |
| Gamma.Telescopes | lean_rgc/action_geometry.py:459-464 | (I - G) Q_H = r - G^(H+1) r |
| Gamma.MatrixMeaning | lean_rgc/action_geometry.py:392-421 | the matrix of a row entry by entry: the given gamma_matrix, zero outside it, when its rows have one length; else the given diagonal, cut or padded with zeros; else the scalar on the diagonal |
| Gamma.StationaryRemainder | lean_rgc/action_geometry.py:449-464 | a stationary value exceeds the truncated one by exactly G^(H+1) times itself |
| Gamma.HorizonError | lean_rgc/action_geometry.py:449-464 | with row sums at most rho < 1 the error is at most rho^(H+1) times the bound on r over 1 - rho |
| Gamma.StationaryUnique | lean_rgc/action_geometry.py:449-453 | under that bound the solution is unique |
| Gamma.DiagonalPartial | lean_rgc/action_geometry.py:411-417 | on a diagonal the matrix series is the geometric series of each entry |
| Gamma.AgreeIff | lean_rgc/action_geometry.py:176-248 | the matrix loop and the componentwise helper agree on all responses and horizons exactly when the discount is zero or the row's matrix is the diagonal the helper uses |
| Gamma.AgreeOnDiagonalIff | lean_rgc/action_geometry.py:235-240 | for a row without a usable matrix that is when both read the same diagonal out of it |
| Gamma.SameDiagonalIff | lean_rgc/action_geometry.py:235-240 | when that is, in terms of the row's diagonal and scalar |
| Gamma.DiscountPow | lean_rgc/action_geometry.py:192-199 | discounting the powers is propagating with the discounted matrix |
| Gamma.FiniteHorizonValue | lean_rgc/action_geometry.py:189-199 | the discounted loop computes the series of the discounted matrix |
| Gamma.EffectiveResponse | lean_rgc/action_geometry.py:424-467 | which value each mode returns, including the stability gate and the fallback |
| Gamma.TailValueVector | lean_rgc/action_geometry.py:216-248 | the componentwise loop computes each entry's geometric series |
| Sorting.LexMeaning | lean_rgc/audit_staging.py:41 | identifiers are ordered by the first place where they differ, a prefix first |
| Staging.RankIgnoresInputOrder | lean_rgc/audit_staging.py:27-44 | the audit order does not depend on the order of the input |
| Staging.CapsAreOrdered | lean_rgc/audit_staging.py:164 | the stage caps are distinct and increasing, and exactly the positive inputs cut at the number of rows |
| Staging.AuditIsAccounted | lean_rgc/audit_staging.py:193-280 | spending is whole actions within max(0, budget), the audited ids are a prefix of the ranking, best is the largest audited score, and the stop reason is accurate |
| Staging.LaterStageAuditsIff | lean_rgc/audit_staging.py:203-280 | a stage after the first audits exactly when nothing stopped the audit before, its first prediction beats the best score by more than epsilon, the relaxed gap is open and the budget has room for an action; when it does not, nothing is audited from there on |
| Staging.NoRegret | lean_rgc/audit_staging.py:68-106 | stopping because predictions fell below the best leaves no action more than epsilon better |
| Staging.GapRegret | lean_rgc/audit_staging.py:100-103 | stopping on the relaxation gap leaves no action more than gap_min better |
| Staging.BestIsAttainedIff | lean_rgc/audit_staging.py:203-280 | the best bounds every audited score, and is one of them exactly when one is not negative; otherwise it is the starting 0 |
| Staging.FullAudit | lean_rgc/audit_staging.py:203-280 | without an early stop and with a covering cap the best bounds every action's true score |
| Staging.FullAuditFindsBestIff | lean_rgc/audit_staging.py:203-280 | if the audited scores are the true ones it is some action's score exactly when some score is not negative |
| Staging.ReportIsExactIff | lean_rgc/audit_staging.py:136-313 | for given ids the reported count matches the jobs spent, whatever the scores, caps and settings, exactly when no id is repeated |
| Staging.RunStages | lean_rgc/audit_staging.py:203-280 | stage by stage, in terms of settings and answers: whether it audits, how many actions, which scores are kept, the best, the counters of predictions that were too low, and the reason when it stops |
| Staging.RunStagedAudit | lean_rgc/audit_staging.py:136-280 | the same for rows ranked by falling score and then identifier, and the caps as above |
| Concepts.Galois | lean_rgc/face_taxonomy.py:196-208 | the two derivations form a Galois connection |
| Concepts.ClosureIsLeast | lean_rgc/face_taxonomy.py:196-208 | the closure contains its seed, is a fixed point, and is the least such extent |
| Concepts.ClosureMonotone | lean_rgc/face_taxonomy.py:196-208 | larger seeds have larger extents and smaller intents |
| Concepts.ClosureIdempotent | lean_rgc/face_taxonomy.py:196-208 | closing twice is closing once |
| Concepts.ClosureOf | lean_rgc/face_taxonomy.py:196-208 | the narrowing loop computes the closure in whatever order the rows come |
| Concepts.OrderIsAntitone | lean_rgc/face_taxonomy.py:365-383 | among concepts more rows means fewer properties, and conversely |
| Concepts.ConceptsAreFixedPoints | lean_rgc/face_taxonomy.py:331-383 | with a positive support threshold, as the only caller passes it, the concepts are exactly the fixed points with enough rows whose rows are those of a property, the common rows of a frequent pair, or all rows |
| Concepts.ConceptsAreFixedIff | lean_rgc/face_taxonomy.py:345-376 | the helper called on its own, before the cut: every concept is a fixed point exactly when the threshold is positive, the table is empty, or no two frequent properties are disjoint |
| Concepts.PropertyConcept | lean_rgc/face_taxonomy.py:343-346 | every supported property contributes the concept with exactly its own rows |
| Concepts.PairConcept | lean_rgc/face_taxonomy.py:348-356 | every supported pair contributes the concept with exactly their common rows |
| Concepts.PropertyIsEmitted | lean_rgc/face_taxonomy.py:378-383 | it is emitted unless the list is cut, and then only behind concepts with at least as many rows |
| Concepts.FrequentIsUnique | lean_rgc/face_taxonomy.py:348-351 | supported properties ordered by frequency and then name, cut as asked: that leaves one list |
| Concepts.BuildConcepts | lean_rgc/face_taxonomy.py:331-383 | the paired properties are that list; the list before the cut holds every concept once, by support, then intent size, then identifier; and with a positive threshold every emitted concept is a fixed point with enough rows |
| Crg.DotIsInner | lean_rgc/crg_optimizer.py:78-81 | the choice of the smaller map does not change the product |
| Crg.DotBlend | lean_rgc/crg_optimizer.py:160-169 | the product is linear in the blended response |
| Crg.NetIsWeightedSum | lean_rgc/crg_optimizer.py:160-177 | the mixture's net score is the weighted sum of its atoms' |
| Crg.MixtureWithinBudget | lean_rgc/crg_optimizer.py:60-70 | a mixture meets every budget its atoms meet |
| Crg.SoftmaxIsConvex | lean_rgc/crg_optimizer.py:84-94 | the weights are positive and sum to one, so the fallback is never taken |
| Crg.SoftmaxFollowsScores | lean_rgc/crg_optimizer.py:84-94 | better scores never get smaller weights |
| Crg.FirstIsBest | lean_rgc/crg_optimizer.py:132-149 | the first kept atom is the best of all within budget |
| Crg.MixtureNeverBeatsLinear | lean_rgc/crg_optimizer.py:149-177 | no convex mixture's net score exceeds the linear optimizer's |
| Crg.Optimize | lean_rgc/crg_optimizer.py:128-177 | empty exactly when no atom is within budget; else the first atoms, at least one, of those within budget by falling net score, product and identifier, weighed by the softmax of the net scores or all on the first, with the weighted sums of their responses and costs and the scores of those; with a positive exponential the weights are convex, the costs are within budget, and the net score is at most the best feasible atom's, which the linear optimizer attains |
| Crg.GapMeaning | lean_rgc/crg_hardening.py:107-109 | the gap is what the relaxed product exceeds the best product of a kept atom with a tactic and a weight above 1e-12, or 0, by |
| Crg.GapBound | lean_rgc/crg_hardening.py:107-109 | the hardening gap is at most what the lost atoms contributed above the best decoded one |
| Crg.GapCloses | lean_rgc/crg_hardening.py:107-109 | it is zero when every atom with weight is decoded |
| Crg.GapIsNegligible | lean_rgc/crg_hardening.py:107-109 | when only weights below the cut are lost it is at most their number times the cut times the spread |
| Cocycle.AcceptedMeaning | lean_rgc/arithmetic_teacher_cocycle.py:293-314 | a composition is accepted exactly when its defects in both charts, slope, offset and a quarter of the variable count add up to at most the threshold, all three transitions are verified often enough, and neither its radius nor the predicted slope exceeds the maximum |
| Pruning.EveryRowRepresented | lean_rgc/audit_pruning.py:130-154 | every input row has an output row with its key and a larger score, or the same score and no larger cost |
| Pruning.OutputIsJustified | lean_rgc/audit_pruning.py:146-154 | the output ids are exactly those of winners and of winners' offered baselines |
| Pruning.PruneIdempotent | lean_rgc/audit_pruning.py:124-154 | pruning twice is pruning once |
| Pruning.TallyCountsLosers | lean_rgc/audit_pruning.py:130-144 | the two loser counters and the winners add up to the input |
| Pruning.CountsAgreeIff | lean_rgc/audit_pruning.py:146-167 | the reported counters satisfy their identity for all rows with given ids exactly when the ids are distinct |
| Pruning.PruneRows | lean_rgc/audit_pruning.py:124-167 | in order, the rows whose id is a winner's or one a winner is compared against, a winner being the row that beats every other with its key by score, then cost, then position; and the counters |
| Cocycle.CompositionBound | lean_rgc/arithmetic_teacher_cocycle.py:293-314 | an accepted composition stays within threshold times max(1, \|x\|) of the composed factors for every x |
| Cocycle.ChainBound | lean_rgc/arithmetic_teacher_cocycle.py:293-314 | a left-nested chain stays within the accumulated bound |
| Cocycle.LinearAccumulation | lean_rgc/arithmetic_teacher_cocycle.py:293-314 | with later slopes at most one the error grows linearly |

## Left out

- Floating-point rounding, NaN and infinities: arithmetic is over the reals.
- Coker.ProjectOntoResponseCone: takes vector norms, the spectral norm and the Frobenius norm as functions of which `Exact` states what is assumed; the report's settings dictionary is not modelled.
- Coker.RunBounds: assumes a nonnegative ridge and a mass cap that allows points, as the default arguments do.
- `CarrierCokerAnalyzer.analyze`: builds matrices from named carriers and calls the projection.
- Quotient.Discover: does not model component centroids, and weights are a one-dimensional array.
- AuditScheduler.ScheduleAuditCandidates: takes scored rows; the score formula over history and metadata is an arbitrary input, and so is the one of `active_scheduler.py`.
- Bivariate.ScheduleCandidates: takes the order of the bucket keys as an argument and holds for every order, of which the sorted one is one; how bucket keys are read from metadata is not modelled.
- TurnOrder.ServesInTurn: assumes that the bucket keys are listed without repetition, as the keys of a dictionary are.
- AuditQueue.TerminalForever: assumes marks come from the live holder of the lease; the mark calls themselves check nothing, and `AuditQueue.TerminalForeverIff` covers runs of unguarded calls.
- AuditQueue.Queue.Enqueue: payloads, tactic hashes and the status report that the call returns are not modelled.
- Schema migration, connection handling, JSONL and CSV files, status reports and summaries.
- Interleaving inside one database call: each call is one atomic step.
- ResultCache.Cache.StoreResults: takes the order in which the database returns the rows, which the query leaves open, and holds for every order.
- Lean subprocesses and worker supervision: the auditor and the server are deterministic functions.
- KernelCache.PlanShape: covers steps, domain and status; the combined record's messages, heartbeats, stderr and elapsed time are not modelled, and blank stripping covers ASCII blanks only.
- Gamma.EffectiveResponse: takes the spectral radius and the solver's answer as arguments, the latter together with the equation it solves; clipping and the tail-risk functions are not modelled.
- The earlier definitions of `_gamma_matrix_from_row`, `_spectral_radius` and `_gamma_tail_risk` in `action_geometry.py`, which later ones in the same file replace.
- Staging.RunStages: responses carry their audited score; computing it from a response row, and the stage log and plan files, are not modelled.
- Concepts.BuildConcepts: breaks ties between equal support and size by an arbitrary name function in place of the digest.
- Face taxonomy stages after concept generation, which classify and name rows.
- Crg.Optimize: takes the exponential as an argument; candidate ids and report dictionaries are not modelled.
- Building beams and tactic sequences in `harden_crg_candidates`: text assembly around the modelled gap.
- Pruning.EveryRowRepresented: ids are strings; the program compares an id with its text form when it filters, so it drops a row whose `action_id` is not a string although it wins.
- Pruning.PruneRows: takes the prune key, score, cost and baseline ids of a row as given.
- Cocycle.CompositionBound: takes the Euclidean norm as any nonnegative function; rows with missing factors, predicted-only rows and missing coefficients carry no bound and are not modelled.
- The remaining miners, registries and promotion modules: per-row classification and averages.
