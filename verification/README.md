# CarbonShift: a verified model

CarbonShift places inference requests in time slots so that little carbon is
emitted and the average accuracy loss stays within a budget. A Rust engine
solves batches and commits them concurrently; a provider moves time for all
services, an executor runs the jobs and a client submits planned work. This
project models the five parts of it that carry unbounded state and proves what
they promise, for every input, run and interleaving.

## Layout

| files | models |
|---|---|
| Options, Tiers | missing values; the capacity-tier ladder and its validator |
| DpProblem, DpReference, DpWarmStart, DpSolver, GreedyFallback | the batch solver: problem and accounting, what a batch asks for read off its input, incumbent, layered DP with pruning and timeout, last-resort placement |
| DpBudget, DpWidth, DpExactness | what a caller can tell before the solve: error budgets, widths, and when an empty answer is right |
| Queues, Ledger, CheckedCommit, SharedState | the scheduler's shared state: pending queue, committed assignments and totals, the tier-checked commit, the object and its worker loop |
| RoundRobin, BatchQueue, Fairness, Dispatcher | the cyclic pick, the interleaved dispatcher and workers, fairness over their runs, and the dispatcher object |
| LadderGuard, TierPolicy | the tier ladder under readers and a writer, and the guarded object |
| Bandit, Aco, SwarmBudget, SwarmWorkers | online learners in their serialized and merging forms, the cumulative error budget, and the workers around them |
| CloseBarrier, CloseService | the slot-close barrier with its admission fence and one-time callbacks, and the service object |
| SlotGrid, Notifications, Provider | the provider's clock, its fan-outs and its advance |
| JobQueue | the executor's queue |
| ClientPlans, PlanStore | the client's plans: which slots are handed over, and the store and tick code |

`dafny verify dfyconfig.toml` checks everything.

## How the source is represented

- Costs, errors, means and pheromone are real numbers; basis points and
  milli-counts are integers, as in the solver's keys. Instants are integer
  microseconds.
- Code that updates variables in loops is written as methods with loops and
  proved against a function or predicate. The concurrent parts are state
  machines whose steps are the critical sections of the source's mutexes, and
  classes whose methods are proved to take exactly those steps.
- Hash-map order and unstable-sort ties are arbitrary: a loop picks any
  remaining entry, and the contract holds for every pick. The solver's timer is
  a parameter naming the layer in which it expires.
- The network is an arbitrary stream of answers. Random draws (slots sampled,
  ants walked), other workers' commits and the clock readings of the executor
  are parameters.
- Histories (arrivals, commits, re-plans, exchanged messages) are kept only to
  state properties.

## Where code and documentation differ

- `rust/src/engine/dp_solver.rs:215-219` says an empty answer means provably
  infeasible. As a setting, only solving without pruning and without a timer
  ensures that: every timer and every width has a batch with a feasible plan and
  an empty answer (`DpExactness.TimeoutHidesFeasiblePlan`,
  `PruningHidesFeasiblePlan`). For a given batch it is ensured, and optimality
  too, by a width of at least flavours times legal slots multiplied over the
  requests (`DpSolver.SolveBatch`, `UncutIsExact`). After a timeout, or with room
  for one state, an empty answer says that the warm start broke the threshold and
  no more (`DpExactness.TimedOutEmptyIff`, `NarrowIsWarm`); in between,
  `DpExactness.EmptyIff` names the crowded cuts that empty an answer wrongly.
  `DpBudget.HasPlanIff` decides feasibility by a small table over requests and
  counts, so a caller can tell a right empty answer from a wrong one.
- `rust/src/engine/dp_solver.rs:560-575` overstates the warm start likewise
  (`DpExactness.WarmStartCanMissFeasiblePlan`). It holds for every batch that
  starts in budget and offers each request a flavour within the threshold, no
  worse than the mock it may replace, and for no larger family of profiles
  (`DpBudget.SustainableIsWarmFeasible`, `AffordingIsExact`).
- The comment at `services/provider/app/main.py:392-396` and the latch promise
  that a clock that moved without every peer following is never advanced again.
  That holds for failed fan-outs, but a carbon source that raises after the move
  sets no latch (`Provider.Lifetime`, `SlotNobodyHears`). The source's contract,
  `services/provider/app/source.py:82-85`, forbids it to raise for unknown slots,
  and both adapters keep to it.
- `rust/src/service/handlers.rs:946` keeps the provider's slot offset in 32 bits.
  A provider whose first number is further away than that has every close refused
  (`CloseService.TranslatesIff`).
- The close barrier counts a claimed callback with a failed status as terminal.
  If the failure came from the dispatcher and the callback has not finished, the
  status still changes once after the close was acknowledged
  (`CloseBarrier.StatusIsFinalIff`, `AcknowledgedStatusCanChange`).
- The executor buckets by truncated second, so a job with a fractional due time
  may start up to a second early (`JobQueue.NeverEarlyIff`).
- A plan anchors at its first request: requests in earlier slots are never sent
  (`ClientPlans.GapFreeDeliversIff`, `EarlyRequestIsLost`); and a tick for an
  earlier slot after a later one is treated as already handled
  (`ClientPlans.HandedIff`).
- `services/provider/app/slots.py:5-6` defines the global slot by a floor; the
  code truncates (`SlotGrid.SlotOfIsFloorIff`). The provider only asks on the
  grid, where both agree.
- A serialized online worker trains its learner before the commit is tried, so a
  refusal would leave it trained on work that did not happen. The comment at
  `rust/src/engine/scheduler.rs:598-601` rules refusals out by running one worker;
  `SwarmWorkers.SerializedWorker` shows that this suffices as long as nobody else
  commits in between.
- The undersized put-back in `rust/src/engine/scheduler.rs:634-639` is never
  taken when one dispatcher claims under the scheduler mutex
  (`BatchQueue.ClaimIsFull`).

## Model

| member | source | states |
|---|---|---|
| Tiers.MultiplierIsFirstCover | rust/src/engine/types.rs:223-232 | the price multiplier of a position is that of the first tier whose bound reaches it |
| Tiers.MultiplierWithoutCover | rust/src/engine/types.rs:231 | a position beyond every bound pays the last tier; an empty ladder is neutral |
| Tiers.CleanRises | rust/src/service/handlers.rs:279-306 | tiers that each pass the comparison with their predecessor rise over any distance, multipliers and bounds alike |
| Tiers.CleanLaddersAreValid | rust/src/service/handlers.rs:264-315 | passing every tier's local checks is the same as being a ladder with baseline first, rising multipliers, rising positive bounds and one overflow tier at the end |
| Tiers.ValidateLadder | rust/src/service/handlers.rs:253-315 | the endpoint accepts exactly the valid ladders; a refusal names a real defect, of the first tier that has one |
| Tiers.LadderMonotone | rust/src/engine/types.rs:215-232 | under an accepted ladder no position is cheaper than an earlier one, and none is below baseline |
| DpProblem.ResolveWellFormed | rust/src/engine/dp_solver.rs:231-289 | the resolved batch stays inside the horizon for every input the caller may pass; what its fields say is stated by the DpReference lemmas |
| DpProblem.KeyAccounting | rust/src/engine/dp_solver.rs:376-421 | after any legal decisions the key holds baseline plus in-window errors minus mock error times mocks consumed, the matching count, and the placements per slot, so the threshold test speaks about the real assignments |
| DpProblem.ErrorsAccounted | rust/src/engine/dp_solver.rs:376-400 | the error component of the key, over every legal sequence |
| DpProblem.CountAccounted | rust/src/engine/dp_solver.rs:376-400 | the count component of the key, over every legal sequence |
| DpProblem.MocksConsumed | rust/src/engine/dp_solver.rs:380-392 | mocks are used up one per in-window placement until none is left |
| DpProblem.EqualKeysShareFutures | rust/src/engine/dp_solver.rs:345-424 | two partial plans with equal keys have the same continuations at the same added cost: merging them loses nothing |
| DpProblem.EmitFaithful | rust/src/engine/dp_solver.rs:401-421 | written prices add up to the sequential price, and each row answers its own request with its own choice |
| DpReference.SlotsMean | rust/src/engine/dp_solver.rs:243-271 | the resolved slot bounds and flavour lists allow a request exactly the choices its arrival, its deadline, the current slot, the horizon, the assignment bound and its own or the default flavours allow |
| DpReference.RateMeans | rust/src/engine/dp_solver.rs:231-239 | without tiers every place costs the flat multiplier, and with tiers its tier's |
| DpReference.FareMeans | rust/src/engine/dp_solver.rs:781-804 | the price of a row is its slot's carbon, times the tier of its place behind the slot's baseline count and the rows in front of it in the slot, times duration and scale |
| DpReference.CostMeans | rust/src/engine/dp_solver.rs:401-421 | each row of a plan pays that fare, and the plan all of them |
| DpReference.WindowMeans | rust/src/engine/dp_solver.rs:241-242 | an error counts exactly if its slot is within the configured distance of the current one |
| DpReference.TotalsMean | rust/src/engine/dp_solver.rs:284-288 | the window's errors and requests are the given baseline plus the counted rows, less the mocks they replace |
| DpReference.ThresholdMeans | rust/src/engine/dp_solver.rs:510-524 | the threshold test on a key is the test of that average |
| DpReference.FeasibleMeans | rust/src/engine/dp_solver.rs:215-219 | a feasible plan of the resolved problem is exactly a plan the caller's bounds, flavours and threshold admit, at the same price |
| DpReference.AnswersMean | rust/src/engine/dp_solver.rs:401-421 | what the solver writes for such a plan answers every request in order, within its bounds and at its fare |
| DpReference.RoundIsNearest | rust/src/engine/dp_solver.rs:284-288 | basis points are the nearest integer, halves away from zero |
| DpWarmStart.ScanSlotsFindsBest | rust/src/engine/dp_solver.rs:616-654 | the slot scan of one flavour ends at a least cost over the candidates it may count |
| DpWarmStart.ScanFlavoursFindsBest | rust/src/engine/dp_solver.rs:615-655 | the nested scan ends at a least cost over all admissible flavour and slot pairs |
| DpWarmStart.WarmChoiceIsGreedy | rust/src/engine/dp_solver.rs:600-670 | each warm decision is a cheapest admissible pair, or else the most accurate flavour in its cheapest slot |
| DpWarmStart.ScanOneFlavour | rust/src/engine/dp_solver.rs:616-654 | the inner loop computes the scan and, for the most accurate flavour, the last resort in the same pass |
| DpWarmStart.PickWarm | rust/src/engine/dp_solver.rs:600-670 | the nested loops make that decision |
| DpWarmStart.ComputeSequentialSolution | rust/src/engine/dp_solver.rs:576-712 | the pass returns the warm plan priced sequentially and the key before the first and after each request |
| DpWarmStart.WarmStaysWithin | rust/src/engine/dp_solver.rs:560-575 | started within the threshold and with an admissible candidate at each request, the warm plan ends within it |
| DpWarmStart.WarmStepWithinIff | rust/src/engine/dp_solver.rs:636-699 | after one request the threshold is met, inside the window, exactly if a candidate passed the check, and outside it exactly if it was met before |
| DpWarmStart.WarmWithinIff | rust/src/engine/dp_solver.rs:571-575 | the warm plan ends within the threshold exactly if the last request it placed inside the window had a candidate that passed the check |
| DpWarmStart.WarmOutsideIff | rust/src/engine/dp_solver.rs:571-575 | with none placed inside the window, exactly if the threshold was met at the start |
| DpBudget.SlackMeans | rust/src/engine/dp_solver.rs:510-524 | the window average is within the threshold exactly if threshold times count, less the errors, is not negative |
| DpBudget.StepSlack | rust/src/engine/dp_solver.rs:376-400 | what one choice adds to that slack: nothing outside the window, threshold less error inside, and with a mock left the mock's error less its own |
| DpBudget.WarmInBudget | rust/src/engine/dp_solver.rs:560-575 | if every request has an affordable flavour, every prefix of the warm plan keeps the budget, whatever cheaper flavours it picks and wherever it places them |
| DpBudget.SustainableIsWarmFeasible | rust/src/engine/dp_solver.rs:560-575 | so the warm plan meets the threshold for every batch that starts in budget and offers each request such a flavour: a test of the batch alone, before the call |
| DpBudget.TooDearEventually | rust/src/engine/dp_solver.rs:545-575 | with every flavour above the threshold some batch within budget has no feasible plan |
| DpBudget.WorseThanMocks | rust/src/engine/dp_solver.rs:380-392 | with every flavour worse than the mocks it replaces one request is enough for that |
| DpBudget.AffordingIsExact | rust/src/engine/dp_solver.rs:560-575 | over all batches of a profile the warm plan always meets the threshold, and a feasible plan always exists, if and only if the profile has an affordable flavour |
| DpBudget.LeastIsLeast | rust/src/engine/dp_solver.rs:376-400 | a plan with m requests in the window brings in no less error than the least sum for m, a table over requests and counts |
| DpBudget.LeastIsReached | rust/src/engine/dp_solver.rs:376-400 | and some legal plan brings in exactly that |
| DpBudget.HasPlanIff | rust/src/engine/dp_solver.rs:215-219 | a batch has a feasible plan if and only if the least sum for some number of in-window requests meets the threshold: feasibility decided by that table, for any baseline, mocks and window, without looking at plans |
| DpWidth.ReachableBound | rust/src/engine/dp_solver.rs:345-424 | at most flavours times legal slots, multiplied over the requests so far, states can be reached |
| DpWidth.PlansBound | rust/src/engine/dp_solver.rs:345-424 | hence the states of that many decisions are at most as many |
| DpWidth.WidthGrows | rust/src/engine/dp_solver.rs:442-445 | a width that suffices late sufficed before |
| DpWidth.WidthIsDecisions | rust/src/engine/dp_solver.rs:345-424 | the width is the number of offered flavours times open slots, multiplied over the requests, counted from the input |
| DpSolver.Relax | rust/src/engine/dp_solver.rs:403-421 | a layer keeps the cheaper path to each key and forgets nothing else |
| DpSolver.ExpandLayer | rust/src/engine/dp_solver.rs:345-424 | a new layer holds only legal priced plans, and for every old state all of its continuations at no more than their cost, in any visiting order |
| DpSolver.ExpansionComplete | rust/src/engine/dp_solver.rs:345-424 | expanding a layer that matches every legal plan gives one that does |
| DpSolver.ExpansionKeepsIncumbent | rust/src/engine/dp_solver.rs:330-345 | the warm plan's state survives expansion at no more than the warm cost |
| DpSolver.SortKeys | rust/src/engine/dp_solver.rs:446-470 | some arrangement ordered by cost, or by cost and average error for k-best; ties in any order |
| DpSolver.RankIsAverage | rust/src/engine/dp_solver.rs:452-466 | the second sort key of k-best is the window average |
| DpSolver.Prune | rust/src/engine/dp_solver.rs:442-490 | pruning keeps existing states unchanged, the incumbent's among them, exactly max(1, k) when it cuts; no dropped state is cheaper than a kept one other than the incumbent's, nor, for k-best and at equal cost, of a lower window average |
| DpSolver.LayerBound | rust/src/engine/dp_solver.rs:442-445 | a layer never holds more states than the decisions leading to it allow |
| DpSolver.NextLayer | rust/src/engine/dp_solver.rs:345-502 | one layer, expansion then pruning, keeps the incumbent for every strategy and width; a layer expanded from a complete one is complete before it is cut |
| DpSolver.RunLayers | rust/src/engine/dp_solver.rs:336-508 | the same over all layers, with a timeout at any layer; the last layer is complete before its cut if no earlier layer was cut, which is certain without pruning, for one request, or for a width of at least what the earlier requests allow |
| DpSolver.Cheapest | rust/src/engine/dp_solver.rs:525-541 | a state of least cost whatever the iteration order |
| DpSolver.Select | rust/src/engine/dp_solver.rs:496-542 | the final answer is a good one, empty exactly if no surviving state is within the threshold, and else as cheap as the cheapest of those |
| DpSolver.AnswersCoverWarm | rust/src/engine/dp_solver.rs:545-575 | so it is never empty beside a feasible warm plan, nor dearer than it |
| DpSolver.CompleteIsExact | rust/src/engine/dp_solver.rs:215-219 | from a complete last layer the answer is as cheap as brute force and empty exactly when no plan is feasible |
| DpSolver.UncutIsExact | rust/src/engine/dp_solver.rs:442-445 | the same for a pruned run whose width is at least the number of decisions |
| DpSolver.SolveBatch | rust/src/engine/dp_solver.rs:220-542 | in terms of configuration and input alone: a non-empty answer has one row per request in order, in a slot not before arrival or now and not past deadline, assignment bound or horizon, with one of the request's flavours, at the fare of its place, and meets the threshold; without a timeout, and without pruning or with a width of at least the number of decisions, it is empty exactly if no such plan exists and no dearer than any; a feasible warm plan, and so every sustainable batch, forces an answer, no dearer than that plan, under any pruning and timeout; a timed-out answer is the warm plan or nothing; otherwise the answer is a cheapest good state of the last layer |
| DpSolver.ReadBack | rust/src/engine/dp_solver.rs:215-219 | a good and an exact answer to the resolved problem are a good and a best answer to the caller |
| DpSolver.NothingPastTheHorizon | rust/src/engine/dp_solver.rs:225-227 | a batch past the horizon has no feasible plan, so its empty answer is right |
| DpSolver.NoPlanWithoutSlots | rust/src/engine/dp_solver.rs:262-271 | a batch with a request that has no legal slot has no feasible plan |
| DpExactness.WarmStartCanMissFeasiblePlan | rust/src/engine/dp_solver.rs:545-575 | for any number of requests and slots, a batch whose warm plan breaks the threshold although a feasible plan exists: out-of-window candidates are not examined |
| DpExactness.TimeoutHidesFeasiblePlan | rust/src/engine/dp_solver.rs:215-219 | for every pruning and every timer, a batch with a feasible plan that gets an empty answer when the timer expires |
| DpExactness.TimedOutEmptyIff | rust/src/engine/dp_solver.rs:492-502 | a timed-out answer is empty exactly if the warm plan breaks the threshold, and its being empty is right exactly if the warm plan meets the threshold or no number of in-window requests fits |
| DpExactness.CrowdedCutHides | rust/src/engine/dp_solver.rs:442-490 | if the states over the threshold that cost less than every good one, with the incumbent, fill the width, the cut leaves no good state |
| DpExactness.HiddenMeansCrowded | rust/src/engine/dp_solver.rs:442-490 | and if it leaves none, the states no dearer than any good one, with the incumbent, fill the width |
| DpExactness.EmptyIff | rust/src/engine/dp_solver.rs:215-219 | without a timeout, earlier layers whole, the answer is empty if and only if no plan is feasible or the last layer is crowded in that sense, ties between a bad and a cheapest good state apart |
| DpExactness.NarrowIsWarm | rust/src/engine/dp_solver.rs:474-490 | the same for a beam or k-best with room for one state, however many layers are cut |
| DpExactness.PruningHidesFeasiblePlan | rust/src/engine/dp_solver.rs:215-219 | for every beam or k-best width, a batch with a feasible plan that gets an empty answer without any timeout, however ties fall |
| GreedyFallback.Place | rust/src/engine/dp_solver.rs:721-778 | the fallback loop serves, in order, exactly the requests with a slot open to them, each with its longest flavour in the first open slot where it then costs least, at the price behind the base load and the earlier rows |
| GreedyFallback.CheapestSlot | rust/src/engine/dp_solver.rs:750-761 | the slot loop finds the first cheapest legal slot |
| GreedyFallback.KeptNext | rust/src/engine/dp_solver.rs:751-775 | a request without a legal slot is skipped and shifts nobody else |
| GreedyFallback.CostIsBySlots | rust/src/engine/dp_solver.rs:791-804 | with one duration the sequential price depends only on how many requests each slot receives |
| GreedyFallback.WarmBalanced | rust/src/engine/dp_solver.rs:751-775 | at every point of the greedy pass, what has been placed costs no more per request than any place still free |
| GreedyFallback.ExchangeInSlot | rust/src/engine/dp_solver.rs:791-804 | moving a slot from one load to another changes its price by at least the separating price per request |
| GreedyFallback.ExchangeAll | rust/src/engine/dp_solver.rs:791-804 | the exchange inequality summed over all slots |
| GreedyFallback.BalancedIsCheapest | rust/src/engine/dp_solver.rs:721-778 | a balanced placement costs no more than any other placement of as many requests |
| GreedyFallback.GreedyIsOptimal | rust/src/engine/dp_solver.rs:721-778 | with a common range and duration, non-negative carbon and never-falling tiers the greedy placement is a cheapest one |
| GreedyFallback.FallbackIsOptimal | rust/src/engine/dp_solver.rs:721-778 | so the fallback's reported prices sum to that minimum |
| GreedyFallback.ValidLaddersNeverCheaper | rust/src/service/handlers.rs:253-315 | every ladder an administrator can install meets the tier condition |
| GreedyFallback.UnevenIsBeatenIff | rust/src/engine/dp_solver.rs:721-778 | both uniformity conditions are needed: in a family of calls with one range and one duration varied, some placement is cheaper than the routine's as soon as ranges or durations differ, and only then |
| Queues.ClaimedIsOldest | rust/src/engine/shared_state.rs:441-458 | a claim takes the oldest requests of its profile, as many as asked or as there are |
| Queues.RemainingIsRest | rust/src/engine/shared_state.rs:441-458 | it leaves the profile's later requests and every other profile's, in order |
| Queues.ClaimThenRequeue | rust/src/engine/shared_state.rs:463-471 | a claim put back restores every profile's queue order |
| Queues.PendingProfileCounts | rust/src/engine/shared_state.rs:428-437 | the counting loop counts each profile's queued requests, no more and no fewer profiles |
| Ledger.RecordBalanced | rust/src/engine/shared_state.rs:195-224 | committing keeps counts exact and error sums exact up to what re-plans change, for new and known ids |
| Ledger.CorrectBalanced | rust/src/engine/shared_state.rs:711-729 | after a correction the totals agree with a recount as before |
| Ledger.CorrectCorrects | rust/src/engine/shared_state.rs:711-729 | a correction writes the measured error into the row and what it differs by into the global and the profile's sum; the rest of the row, all counts and everything else stay, and an unknown id changes nothing |
| Ledger.RecordRecords | rust/src/engine/shared_state.rs:195-224 | a commit writes its row; a new id is counted once and its error added, overall and in its profile; a known id keeps its first profile and all totals stay |
| Ledger.CountsAgree | rust/src/engine/shared_state.rs:195-224 | assignments, scheduled total, global count and the sum of profile counts agree |
| Ledger.Run | rust/src/engine/shared_state.rs:872-876 | every run of commits and corrections keeps the books, with a totals entry for every committed profile |
| Ledger.NoReplanNoDrift | rust/src/engine/shared_state.rs:199-213 | with no id committed twice the error sums equal a recount exactly |
| Ledger.BookFollowsRun | rust/src/engine/shared_state.rs:872-876 | after any run the book holds for every id exactly its latest commit under its first profile, with the error measured since |
| Ledger.MeasuredStays | rust/src/engine/shared_state.rs:711-729 | a measured error stays until the id is committed or measured again |
| CheckedCommit.ExpectedPerSlot | rust/src/engine/scheduler.rs:803-810 | the occupancy passed to the check is baseline plus the batch, on exactly the batch's slots |
| CheckedCommit.BreachesAre | rust/src/engine/shared_state.rs:844-870 | a breach is a slot of the batch in which the committed rows and the batch's would be more than expected and at a dearer tier |
| CheckedCommit.BreachIsDearerTier | rust/src/engine/shared_state.rs:844-870 | under an accepted ladder the check refuses exactly when a slot's last request would sit in a dearer tier than it was priced at |
| CheckedCommit.UncontendedNeverRollsBack | rust/src/engine/scheduler.rs:598-601 | a batch solved against an occupancy nobody has added to is never refused |
| CheckedCommit.RecordAllFresh | rust/src/engine/shared_state.rs:872-876 | committing a fresh batch enters exactly that batch, each row as proposed and every other row as before, and fills each slot by its share |
| CheckedCommit.CommitPricesHold | rust/src/engine/shared_state.rs:834-877 | an unforced commit puts no batch request above the multiplier assumed for its slot's last position, and prices that position truly where occupancy only grew |
| SharedState.State.AddRequest | rust/src/engine/shared_state.rs:405-409 | arrivals queue at the back |
| SharedState.State.ClaimPendingRequestsForProfile | rust/src/engine/shared_state.rs:441-458 | the draining loop performs the claim |
| SharedState.State.RequeuePendingRequestsFront | rust/src/engine/shared_state.rs:463-471 | a returned batch goes in front, in order |
| SharedState.State.RecordAssignment | rust/src/engine/shared_state.rs:195-224 | the in-place update writes the row and moves the totals by exactly what a new or a known id must; the totals entry it expects is always there |
| SharedState.State.AddAssignments | rust/src/engine/shared_state.rs:501-506 | a batch is committed whole and in order |
| SharedState.State.CorrectAssignmentError | rust/src/engine/shared_state.rs:711-729 | if the id is committed its row reads the measured error and is otherwise unchanged, both sums move by the difference and the average with them; an unknown id changes nothing |
| SharedState.State.TryAddAssignmentsChecked | rust/src/engine/shared_state.rs:834-877 | refuses exactly on an unforced breach, writing no assignment and counting the rollback; otherwise commits all |
| SharedState.State.MarkRequestsRolledBack | rust/src/engine/shared_state.rs:880-888 | flags accumulate |
| SharedState.BatchWorker | rust/src/engine/scheduler.rs:767-850 | the retry loop ends after at most the configured rollbacks; it commits its last proposal unbreached unless forced, or puts the batch back in front, whatever other workers commit meanwhile |
| RoundRobin.NextIsCyclic | rust/src/engine/scheduler.rs:528-562 | nothing is picked exactly when nothing is eligible; otherwise the cyclic successor of the cursor among the eligible |
| RoundRobin.PickIsNextReady | rust/src/engine/scheduler.rs:528-562 | the profiles to pick from are those with enough requests, no solve in flight, and not the very slot and count that failed last; nothing is picked exactly if there are none, else the cyclic successor |
| RoundRobin.SortSorted | rust/src/engine/scheduler.rs:548 | the sort orders by profile and keeps the entries |
| RoundRobin.DistanceShrinks | rust/src/engine/scheduler.rs:552-558 | serving another profile strictly shortens the cyclic way to a waiting one |
| RoundRobin.WaitIsBounded | rust/src/engine/scheduler.rs:528-562 | the profiles still ahead bound the number of dispatches a waiting profile sees |
| RoundRobin.NoStarvation | rust/src/engine/scheduler.rs:528-562 | in consecutive cyclic picks a profile eligible each time is chosen within as many as there are profiles |
| BatchQueue.ClaimIsFull | rust/src/engine/scheduler.rs:629-639 | a claim gets what was counted, so the undersized put-back is never taken |
| BatchQueue.StepOrder | rust/src/engine/scheduler.rs:609-682 | no step loses, duplicates or reorders a profile's requests |
| BatchQueue.StepWorkers | rust/src/engine/scheduler.rs:641-680 | reservations and worker count stay in step and within the cap |
| BatchQueue.StepBatches | rust/src/engine/scheduler.rs:629-631 | in-flight batches are non-empty, of one profile and within the batch size |
| BatchQueue.StepPick | rust/src/engine/scheduler.rs:614-630 | what a dispatcher counted under the mutex still stands when it claims |
| BatchQueue.StepKeeps | rust/src/engine/scheduler.rs:609-682 | all of these together are an inductive invariant |
| BatchQueue.RunsConserveRequests | rust/src/engine/scheduler.rs:609-682 | the invariant holds in every interleaving |
| BatchQueue.NothingLostOrReordered | rust/src/engine/scheduler.rs:796-800 | each profile's committed, in-flight and pending requests are its arrivals in order, and active workers equal active profiles within the cap |
| BatchQueue.CursorFollowsClaims | rust/src/engine/scheduler.rs:643 | only a claim moves the round-robin cursor, to the profile it serves |
| Fairness.EligibleAreSenders | rust/src/engine/scheduler.rs:535-547 | only a profile that has sent a request can be ready |
| Fairness.StepTraced | rust/src/engine/scheduler.rs:609-652 | every step of the machine keeps picks and claims in step: each pick is the cyclic successor, each claim the pick before it |
| Fairness.RunsTraced | rust/src/engine/scheduler.rs:609-652 | so over any interleaving the picks are consecutive cyclic ones and the claims are the picks in order |
| Fairness.EligibleIsClaimedInTime | rust/src/engine/scheduler.rs:528-562 | over any run of dispatcher and workers, with any arrivals, commits, returns and releases in between: a sender ready at every pick is among the next claims, as many as there are senders |
| Fairness.StepRemembers | rust/src/engine/scheduler.rs:665-680 | nothing but a commit or another pick makes a profile forget the slot and count it was last picked with |
| Fairness.NoHotRetry | rust/src/engine/scheduler.rs:665-680 | over any run: of two successive picks of a profile for the same slot with the same count the first one's batch was committed in between, so a failed solve is not repeated on an unchanged queue |
| Fairness.PlacedIsFree | rust/src/engine/scheduler.rs:671-679 | a placed batch leaves its profile free to be picked at once |
| LadderGuard.StepKeeps | rust/src/engine/shared_state.rs:317-346 | the read guard, the revision and the cached learners stay consistent over every step |
| LadderGuard.RunsInvariant | rust/src/engine/scheduler.rs:706-722 | hence over every interleaving of set-up, workers and replacements |
| LadderGuard.OneLadderPerBatch | rust/src/engine/scheduler.rs:1173-1218 | each batch is committed under the ladder it was solved with, and no solve reads a cost learned under another ladder |
| Bandit.AbsorbsUnique | rust/src/engine/online_swarm.rs:270-275 | count and cost sum determine the means |
| Bandit.ObserveAbsorbs | rust/src/engine/online_swarm.rs:270-275 | the incremental update is the exact running mean |
| Bandit.OnlineBanditState.LearnInPlace | rust/src/engine/online_swarm.rs:270-275 | the in-place loop leaves in every slot the mean of all costs seen there, the batch's included |
| Bandit.OnlineBanditState.DeltaOf | rust/src/engine/online_swarmerge.rs:296-324 | the returned delta is the batch's sample counts and cost sums per slot, whatever state it started from |
| Bandit.OnlineBanditState.MergeDelta | rust/src/engine/online_swarmerge.rs:342-352 | the merge loop adds counts and cost sums, and a slot without new samples keeps its mean |
| Bandit.MergeAbsorbs | rust/src/engine/online_swarmerge.rs:342-352 | merging a batch's delta into any later state equals learning the batch there in place |
| Bandit.SolveThenMerge | rust/src/engine/online_swarmerge.rs:296-352 | a single solve and merge equals the serialized update exactly |
| Bandit.MergeAllAbsorbs | rust/src/engine/online_swarmerge.rs:342-352 | after any merges n counts all samples and q times n sums all their costs |
| Bandit.MergeOrderIrrelevant | rust/src/engine/online_swarmerge.rs:342-352 | any merge order of any batches gives the same state |
| Aco.DepositLaysDown | rust/src/engine/online_swarm.rs:485-493 | a best ant of finite positive cost leaves on a slot the deposit constant over its cost for each time it used the slot, any other ant nothing |
| Aco.DepositTotal | rust/src/engine/online_swarm.rs:485-493 | all it leaves, times its cost, is the deposit constant times the number of its slots inside the vector |
| Aco.OnlineAcoState.SolveInPlace | rust/src/engine/online_swarm.rs:479-493 | from iteration to iteration each slot evaporates, is clamped at 1e-12 and receives what the best ant lays down; the ants see the pheromone of the iteration before |
| Aco.OnlineAcoState.SolveForDelta | rust/src/engine/online_swarmerge.rs:566-606 | on a working copy the same iterations, and beside them the deposits alone, discounted and never clamped, and the product of evaporations: the delta |
| Aco.OnlineAcoState.MergeDelta | rust/src/engine/online_swarmerge.rs:613-618 | each slot becomes its pheromone times the evaporation plus its deposit, or 1e-12 if that is more |
| Aco.SerialNearAffine | rust/src/engine/online_swarmerge.rs:566-590 | over any iterations the clamped trajectory stays between the affine one and the affine one plus the floor |
| Aco.MergeTracksSerial | rust/src/engine/online_swarmerge.rs:613-618 | solve and merge is at most the serialized pheromone and within 1e-12 of it, slot by slot, for any clamping pattern |
| Aco.ExactAboveFloor | rust/src/engine/online_swarmerge.rs:613-618 | and equal where the batch cannot evaporate a slot to the floor |
| Aco.SolveBoth | rust/src/engine/online_swarmerge.rs:566-618 | the same bound between the two classes run side by side |
| SwarmBudget.ChosenIsCheapestAdmitted | rust/src/engine/online_swarm.rs:87-127 | the flavour picked is a shortest one that keeps both averages, or the most accurate when none does |
| SwarmBudget.AdmitsIsKeeping | rust/src/engine/online_swarm.rs:103-124 | a flavour is admitted exactly if with it the errors committed in the slots around average within the threshold and, under a cumulative policy, all of the profile's |
| SwarmBudget.PlaceBatch | rust/src/engine/online_swarm.rs:243-283 | the placement loop gives each request a shortest flavour that keeps those averages behind the earlier placements, and a most accurate one if none does |
| SwarmBudget.BatchKeepsBudget | rust/src/engine/online_swarm.rs:105-126 | placing a batch keeps a cumulative budget that holds, wherever the slots are |
| SwarmBudget.SustainableIsExact | rust/src/engine/online_swarm.rs:105-126 | a cumulative policy keeps its budget over every batch exactly when its most accurate flavour is within the threshold |
| SwarmBudget.RecordAllTotals | rust/src/engine/shared_state.rs:195-224 | a profile's commit moves its own totals by its own errors only |
| SwarmBudget.CommitKeeps | rust/src/engine/scheduler.rs:1201-1219 | a commit keeps every profile's budget and every other worker's snapshot true |
| SwarmBudget.StepKeeps | rust/src/engine/scheduler.rs:1173-1221 | so does every other step, rollbacks included |
| SwarmBudget.CumulativeAverageHolds | rust/src/engine/shared_state.rs:537-566 | in every interleaving a sustainable profile's cumulative average is within its threshold |
| CloseBarrier.StepEvolves | rust/src/service/handlers.rs:1575-1612 | every step keeps arrivals, claims and claimed terminal statuses, and admits only beyond the fence |
| CloseBarrier.JudgeIsSound | rust/src/service/handlers.rs:816-884 | passing the drain check on two separately taken snapshots means the slot is drained in the live state |
| CloseBarrier.DrainedStays | rust/src/service/handlers.rs:800-812 | a drained slot behind the fence stays drained |
| CloseBarrier.StepKeeps | rust/src/service/handlers.rs:800-921 | acknowledged slots are fenced and drained, an invariant of every step |
| CloseBarrier.RunKeeps | rust/src/service/handlers.rs:800-921 | and of every run; acknowledgements are never withdrawn |
| CloseBarrier.AcknowledgedSlotStaysDrained | rust/src/service/handlers.rs:895-906 | after an acknowledged close, in every later state each arrival by the slot is assigned and each assignment due has a claimed callback and a terminal status |
| CloseBarrier.ClaimedIsFrozen | rust/src/service/dispatcher.rs:142-175 | no dispatcher, retry, submit-poll, duplicate-callback, admission or close step touches a claimed request |
| CloseBarrier.ClaimedHasTwoValues | rust/src/service/handlers.rs:1769-1779 | over any run a claimed request shows its status at the claim or the callback's outcome, nothing else |
| CloseBarrier.StatusIsFinalIff | rust/src/service/handlers.rs:1857-1866 | a due request's status in an acknowledged slot never changes again if and only if its claim is finished or will write what it already shows |
| CloseBarrier.AcknowledgedStatusCanChange | rust/src/service/handlers.rs:838-853 | a run in which an acknowledged slot's request turns from failed to completed afterwards |
| CloseService.FiguresMean | rust/src/service/handlers.rs:835-894 | a poll's counts are zero exactly when its drain conditions hold, and callbacks received and awaited make up the assignments due |
| CloseService.Service.AdmitRequest | rust/src/service/handlers.rs:1575-1612 | a request is installed exactly if its arrival is beyond the fence |
| CloseService.Service.SetStatus | rust/src/service/dispatcher.rs:142-149 | the status is written unless the request is claimed |
| CloseService.Service.RecordFailure | rust/src/service/dispatcher.rs:154-186 | failures count up and the last allowed one gives up, unless the callback has arrived |
| CloseService.Service.ClaimCallback | rust/src/service/handlers.rs:1765-1780 | of all callbacks for a known request only the first gets through |
| CloseService.Service.FinishCallback | rust/src/service/handlers.rs:1857-1866 | the claimed callback writes its outcome |
| CloseService.Service.PublishFence | rust/src/service/handlers.rs:804-813 | the fence rises to the slot unless it is already past it |
| CloseService.Service.JudgePoll | rust/src/service/handlers.rs:835-906 | a poll fails on a given-up dispatch, acknowledges a drained slot and reports as many callbacks as assignments due, or polls again |
| CloseService.StepLeavesCall | rust/src/service/handlers.rs:822-921 | no other party's step disturbs a close call in progress |
| CloseService.FiguresDecide | rust/src/service/handlers.rs:835-906 | a poll's figures find a job given up, or the slot done, exactly when the snapshot and the table say so, and count the assignments due |
| CloseService.Service.Poll | rust/src/service/handlers.rs:822-906 | one poll judges the table as others have left it against the assignments copied before |
| CloseService.Service.CloseSlot | rust/src/service/handlers.rs:788-921 | whatever others do between its steps and inside its polls, a call for the current slot is refused exactly if the fence is above the slot, ends at the first poll that finds a due job given up or everything done, with failure or with as many callbacks as assignments due, and times out only if no poll found either; another slot is refused |
| CloseService.QuietCallCloses | rust/src/service/handlers.rs:895-906 | undisturbed, a drained slot that is not behind the fence is closed at the first poll |
| CloseService.TranslatesIff | rust/src/service/handlers.rs:941-949 | the provider's slot number is translated to the slot it means exactly if the first difference fits 32 bits, and is refused otherwise |
| CloseService.Service.UpdateSlotEpochOffset | rust/src/service/handlers.rs:941-949 | the first message fixes the translation for good |
| CloseService.Service.HandleCloseSlot | rust/src/service/handlers.rs:747-921 | the handler with its checks in front: its answer is determined for every body, network and interleaving; a refusal in front changes nothing, a success is about the slot the provider's number translates to, now drained, and a drained slot is closed when nobody interferes |
| Dispatcher.SortedCounts | rust/src/engine/shared_state.rs:428-437 | the pending counts list every profile once with all its requests, in profile order |
| Dispatcher.PassDispatches | rust/src/engine/scheduler.rs:614-652 | a pass dispatches exactly when a worker is free and some profile is eligible; otherwise it does nothing |
| Dispatcher.Scheduler.DispatchOne | rust/src/engine/scheduler.rs:614-652 | counting, picking, claiming and reserving under the mutex is the machine's choose and claim: a started worker takes an idle profile's oldest requests, as many as it has or fit a batch, and at least as many as required, and nobody else's requests move |
| Dispatcher.OnePass | rust/src/engine/scheduler.rs:609-652 | a pass adds its two steps to the run and counts as a launch exactly if a worker was reserved |
| Dispatcher.Scheduler.DispatchBatchWorkers | rust/src/engine/scheduler.rs:585-683 | whatever others do between its passes, the loop is a run of the machine that reports a dispatch exactly if it launched a worker; unless told to stop it ends only with every worker busy or no eligible profile, and without a dispatch it changes nothing |
| Dispatcher.Scheduler.PutBatchBack | rust/src/engine/scheduler.rs:796-800 | a batch that was not scheduled returns to the front and its worker keeps the reservation until release |
| Dispatcher.Scheduler.Release | rust/src/engine/scheduler.rs:671-679 | the worker counter never underflows; the outcome sets or clears the retry suppression |
| TierPolicy.GuardFreezesLadder | rust/src/engine/shared_state.rs:311-328 | while a worker holds its guard, nothing others do changes ladder or revision, and whatever is solved meanwhile is priced with that ladder and has learned under that revision only |
| TierPolicy.LadderMovesWithRevision | rust/src/engine/shared_state.rs:301-321 | once a ladder is installed it changes only together with its revision, however often service and scheduler initialize |
| TierPolicy.Policy.InitializeCapacityTiers | rust/src/engine/shared_state.rs:304-309 | a ladder is installed only where none is |
| TierPolicy.Policy.ReplaceCapacityTiers | rust/src/engine/shared_state.rs:317-321 | a replacement is granted only when no worker reads, and bumps the revision |
| TierPolicy.Policy.SyncLearners | rust/src/engine/scheduler.rs:710-722 | learners of another revision are discarded before any solve, those of the same are kept |
| TierPolicy.Policy.MergeDelta | rust/src/engine/scheduler.rs:1201-1219 | a merge adds the worker's revision to what its profile's learner has learned under, unless that learner is gone |
| TierPolicy.Policy.BatchWorker | rust/src/engine/scheduler.rs:703-722 | a worker reads, solves, retries, commits and learns under one ladder and one revision, whatever others attempt meanwhile: every solve recorded from first to last prices with that ladder and has learned under that revision only, one more than the refusals at least, and every commit is made under that ladder |
| SwarmWorkers.SlotCounts | rust/src/engine/shared_state.rs:541-546 | the snapshot counts each slot's assignments over all profiles |
| SwarmWorkers.MergeWorker | rust/src/engine/scheduler.rs:1160-1233 | the merging worker ends after at most the configured rollbacks and its learner absorbs exactly the committed batch, none of the rejected candidates |
| SwarmWorkers.SerializedWorker | rust/src/engine/scheduler.rs:1097-1158 | the serialized worker learns before its one commit attempt; with nobody else committing every non-empty proposal is committed |
| SwarmWorkers.MergedTracks | rust/src/engine/online_swarmerge.rs:613-618 | a colony's merged pheromone is at most the serialized one and within 1e-12 of it, over the whole vector |
| SwarmWorkers.ColonyMergeWorker | rust/src/engine/scheduler.rs:1160-1233 | the merging worker of a colony: refused candidates leave no pheromone, the committed one leaves what replaying its iterations in place would, to within 1e-12 |
| SwarmWorkers.ColonySerializedWorker | rust/src/engine/scheduler.rs:1097-1158 | the serialized worker of a colony leaves its iterations' pheromone before its one commit attempt; with nobody else committing every non-empty proposal is committed |
| SlotGrid.SlotOfStart | services/provider/app/slots.py:79-88 | slot number and slot start are inverse on the grid, before the epoch too |
| SlotGrid.FloorIsOnGrid | services/provider/app/slots.py:65-83 | the floor of an instant is the last grid instant not after it |
| SlotGrid.SlotOfIsFloorIff | services/provider/app/slots.py:65-83 | the truncating slot number is the documented floor exactly from the epoch on and on the grid |
| SlotGrid.ProviderClock.constructor | services/provider/app/clock.py:50-65 | the frozen instant starts on the grid, in the floor slot of the start |
| SlotGrid.ProviderClock.Advance | services/provider/app/clock.py:100-125 | an advance moves exactly one slot and one step and stays on the grid; without the manual flag nothing moves |
| Notifications.PeersAre | services/provider/app/notifications.py:272-308 | the scheduler at its address comes first, the executor at its address is there exactly if that has a non-blank character, then one producer per client address in configured order, each to confirm its slot, and nobody else |
| Notifications.PeersIncrease | services/provider/app/notifications.py:272-308 | their order numbers strictly increase |
| Notifications.SortedStays | services/provider/app/notifications.py:191 | so sorting by order leaves the declared list as it is |
| Notifications.SortOrders | services/provider/app/notifications.py:191 | any list of peers is notified in order of its order numbers, each peer as often as listed |
| Notifications.ConsumersThenProducers | services/provider/app/main.py:149-160 | consumers followed by producers is the declared list |
| Notifications.TriesFacts | services/provider/app/notifications.py:215-269 | a delivery stops at the first acceptance or refusal and otherwise uses up its attempts |
| Notifications.Deliver | services/provider/app/notifications.py:205-269 | the attempt loop makes one to max(1, configured) requests, none after a 2xx answer that confirms what it must or after a 409, all of them otherwise, and reports success exactly if the last was such an answer |
| Notifications.NotifyPeers | services/provider/app/notifications.py:162-202 | the fan-out loop delivers peer by peer and stops at the first failure |
| Notifications.FanOutIsPrefix | services/provider/app/notifications.py:190-202 | acknowledgements form a prefix of the peer order, whole unless the last delivery failed |
| Notifications.FanOutServes | services/provider/app/notifications.py:190-202 | a fan-out without failure was acknowledged by every peer |
| Notifications.FanOutAddresses | services/provider/app/notifications.py:190-202 | a fan-out writes to nobody but its peers |
| Notifications.FanOutOutcome | services/provider/app/notifications.py:108-110 | a failed fan-out ends in an exchange that was not accepted |
| Notifications.FanOutInTurn | services/provider/app/notifications.py:174-177 | no peer hears anything before the peer declared in front of it has acknowledged |
| Notifications.FanOutConcat | services/provider/app/main.py:149-160 | a fan-out to one group and, if it succeeded, to the next is a fan-out to both |
| Notifications.FanOutAccepted | services/provider/app/notifications.py:190-202 | if every answer accepts, a fan-out takes one exchange per peer and nothing fails |
| Provider.CloseConfirms | services/provider/app/main.py:164-183 | a close call that did not fail leaves the scheduler's confirmation of exactly that slot |
| Provider.Service.AnnounceSlot | services/provider/app/main.py:127-162 | the two-group announcement is one fan-out in declared order; if the source raises nothing is sent |
| Provider.Service.CloseCurrentSlot | services/provider/app/main.py:164-183 | the close call goes to the scheduler and must be confirmed for the current slot |
| Provider.Service.RollOver | services/provider/app/main.py:185-231 | the clock moves one slot, then the source is asked, then the new slot is fanned out; if the source raises the clock has moved and nobody is told |
| Provider.RollingHeard | services/provider/app/main.py:221-231 | after entering a slot every peer has acknowledged it, unless the move was silent, the source raised or the fan-out failed; of a slot the source raised on nobody is told |
| Provider.Service.AdvanceSlot | services/provider/app/main.py:326-402 | an advance is refused without the manual clock, after a desync and for another expected slot, in this order and without effect; otherwise announcement (first time only), close and rollover run in turn, each only if the one before succeeded; the clock leaves the first slot only when every peer has acknowledged it, moves exactly with the rollover, a failure names the part the log ends in, the latch is set exactly by a failed fan-out after the move, and a source that raises ends the request without one |
| Provider.Lifetime | services/provider/app/main.py:88-101 | over any requests, network and source failures: if all advances notify, the scheduler's address confirmed closing every slot left behind, before any peer heard of the next; after every reported notifying advance the log holds a 2xx answer about the new slot from the scheduler's address, from the executor's if there is one, and a confirming one from every client's; after a failed post-advance fan-out, and only then, every later request is refused; of a slot the source raised on nobody is ever told |
| Provider.VerdictShows | services/provider/app/main.py:349-402 | a failed advance names the part that failed: the log ends in a message of that part that got no yes |
| Provider.SlotNobodyHears | services/provider/app/main.py:189-222 | whatever the configuration: the source raises once the clock has moved, no latch is set, and the next advance succeeds past a slot no peer was told of |
| JobQueue.AddedRefines | services/executor/app/queue_worker.py:149-150 | appending to the bucket of the truncated due second is stable insertion into one ordered queue |
| JobQueue.PoppedRefines | services/executor/app/queue_worker.py:180-187 | taking the head of the earliest bucket takes the head of that queue |
| JobQueue.FlatOrdered | services/executor/app/queue_worker.py:73-76 | the queue is always in order of due second |
| JobQueue.InsertIsStable | services/executor/app/queue_worker.py:149 | a new job stands behind everything due by its second and in front of everything due later |
| JobQueue.PositionIsPlace | services/executor/app/queue_worker.py:158-166 | the reported position is the number of jobs ahead, or the whole queue for a job no longer in it |
| JobQueue.PositionAfterInsert | services/executor/app/queue_worker.py:158-166 | a later submission delays a queued job by one exactly if it is due in an earlier second |
| JobQueue.NeverEarlyIff | services/executor/app/queue_worker.py:116-182 | a job is never taken a full second early, and never early at all exactly when its due time is a whole second |
| JobQueue.Queue.Submit | services/executor/app/queue_worker.py:113-152 | for a known id nothing changes, and the first job is returned exactly if task, flavour, input, callback and context agree and the due time is left out or agrees; a new id is queued |
| JobQueue.Queue.PopNextDue | services/executor/app/queue_worker.py:175-187 | the head is taken exactly when its due second has come |
| JobQueue.Queue.QueuePosition | services/executor/app/queue_worker.py:158-166 | the nested loops compute the position in the ordered queue |
| JobQueue.FlowStepOk | services/executor/app/queue_worker.py:149-187 | a step of the queue keeps ids distinct and jobs waiting in order of due second |
| JobQueue.StepMoves | services/executor/app/queue_worker.py:158-187 | one step takes a waiting job one place on if a job is run, one back if a submission is due in an earlier second, and not at all otherwise |
| JobQueue.ServedInTurn | services/executor/app/queue_worker.py:158-166 | over any run a job waiting at a position is taken after exactly as many others as that position plus the submissions since that are due in an earlier second |
| JobQueue.PositionIsTurn | services/executor/app/queue_worker.py:158-166 | so with no such submission the reported position is the number of jobs run before it |
| JobQueue.Serve | services/executor/app/queue_worker.py:189-196 | over any interleaving of submissions and worker turns each request id is accepted once and runs at most once, as first dispatched; jobs run, and the rest waits, exactly in the order of the one queue |
| ClientPlans.IndexIsDifference | services/client/app/timeslots.py:67-72 | the index relative to a reference is the difference of global slots, wherever in its slot the reference lies |
| ClientPlans.IndexedIff | services/client/app/state.py:90-96 | every request has a place among the plan's slots exactly when none is in a slot before the first request's |
| ClientPlans.HandedAscends | services/client/app/state.py:148-158 | the slots handed over for a plan strictly ascend, so none twice |
| ClientPlans.HandedIff | services/client/app/state.py:114-158 | for any tick sequence, a slot is handed over exactly when it is the plan's, not yet passed, and named before a later slot of the plan is |
| ClientPlans.GapFreeHandsAll | services/client/app/main.py:70-98 | gap-free ticks over the plan hand over every slot of it once |
| ClientPlans.GapFreeDeliversIff | services/client/app/state.py:83-109 | over such ticks every request is handed over exactly once if and only if none is in a slot before the first request's |
| ClientPlans.EarlyRequestIsLost | services/client/app/state.py:92-96 | a plan whose second request is never handed over, whatever the ticks |
| ClientPlans.BatchesConserve | services/client/app/plan_runner.py:35-44 | batches over indices that list each request's index once hold each request as often as the plan |
| PlanStore.GroupBySlot | services/client/app/plan_runner.py:103-112 | the grouping loop puts each request under its index, in order, and makes no empty group |
| PlanStore.GetBatchFromSlot | services/client/app/plan_runner.py:35-44 | the batch of an index, empty for an index nobody has |
| PlanStore.SendSlotBatch | services/client/app/plan_runner.py:47-100 | every request of the batch is tried and exactly the accepted ones are counted |
| PlanStore.LatestStart | services/client/app/state.py:94 | the latest start over all requests |
| PlanStore.Store.StorePlan | services/client/app/state.py:66-111 | an empty plan is refused; another gets a fresh id and runs from the grid slot of its first request to that of its latest |
| PlanStore.Store.GetPlanForSlot | services/client/app/state.py:114-127 | exactly the plans the slot falls in, with their indices |
| PlanStore.Store.MarkSlotProcessed | services/client/app/state.py:140-145 | an existing plan remembers the slot |
| PlanStore.Store.ProcessSlotTick | services/client/app/main.py:61-98 | the response names, by id and with their indices, exactly the plans that span the slot and have not got that far; each hands over its requests that start in the slot, in order, and remembers it; accepted ones are counted, and a plan past the slot makes the tick a duplicate |
| PlanStore.ServeTicks | services/client/app/main.py:70-98 | any tick sequence hands over, for every plan, the slots the per-plan specification says, and changes nothing else of a plan |
| PlanStore.PlanLife | services/client/app/state.py:140-158 | a stored plan under any ticks: no slot twice, exactly the slots named in time, and full delivery over gap-free ticks exactly under the first-is-earliest condition |

## Left out

- Fixed-width integers and floating point: no overflow, rounding, NaN or infinity; the validator's finiteness test has no counterpart over reals.
- QoS profile ids are natural numbers instead of strings; only equality and order are used.
- DpProblem.RequestAssignment: holds the whole flavour where the source copies its name and error.
- DpSolver.SolveBatch: elapsed time is a parameter; the layer in which the timer expires is arbitrary.
- GreedyFallback.Place: the source prices against an all-zero base array plus counts that start from the baseline; the model starts its counts from the baseline directly.
- GreedyFallback.FallbackIsOptimal: speaks about one common range and duration; without them the routine is not optimal (`UnevenIsBeatenIff`), and its documentation does not claim it.
- DpSolver.SolveBatch: what it says about averages, feasibility and optimality, like DpBudget.HasPlanIff, assumes that the baseline's request count is not negative, as a count is not.
- DpExactness.EmptyIff: assumes that no layer before the last was cut; `NarrowIsWarm` and the batches of `PruningHidesFeasiblePlan` need no such condition.
- Strategy selection, forecasts, recovery and the construction of the DP error baseline: solvers appear as proposals and baseline counts.
- SharedState.BatchWorker: the solver's proposals and other workers' commits are functions of the round; logging and metrics are not part of this model.
- SharedState.State.AddRequest: adding several requests at once is not modelled separately.
- Re-planning of committed assignments: in the ledger and the checked commit, not in SwarmBudget and CloseBarrier, whose claims assume none.
- SwarmBudget.CumulativeAverageHolds: measured-error corrections are excluded; they may raise an average past the threshold.
- Bandit and Aco: the sampled slots and ants are inputs, and the copied random generator state is dropped.
- SwarmWorkers: one commit by others per round stands for any number; which of a colony's solutions is proposed is a function of its iterations' best ants.
- Dispatcher.Scheduler.DispatchBatchWorkers: others act for finitely many pauses, as an endless stream of arrivals and releases may keep the loop busy for ever; the serialized strategies' cap of one worker is a value of the configuration.
- CloseBarrier: HTTP, authentication, flush wake-ups and backoff times are dropped; the dispatcher may act on any assigned or unassigned request at any time, which covers its due filter. Dry-run mode without an executor is not modelled.
- CloseBarrier.AcknowledgedSlotStaysDrained: assumes a solver never places a request before its arrival, which the batch solver's contract gives.
- CloseService.Service.HandleCloseSlot: whether the provider's slot length agrees is an input.
- Provider: observed readings, forecasts and payload bodies beyond the slot are dropped; that the source raises is an input, other exceptions outside the request library's own are not modelled, and a response body that is not an object or lacks the field confirms nothing.
- Peers' own clocks: a repeated advance message may move a peer twice; only the provider's side and the barrier are claimed.
- JobQueue.Queue.PopNextDue: job status fields, inference, metrics and the callback are dropped; two handles denote the same job when their ids agree.
- PlanStore.Store.ProcessSlotTick: deadlines, payloads, tracking and the wall-clock ticker are dropped; a submission either is accepted or fails with the scheduler error the source catches.
- PlanStore.Store.StorePlan: mode and executor address are dropped; times arrive already parsed.
- Slot detail pages, statistics, CSV metrics, the visualizer, datasets, calibration and emulation scripts: input, output and presentation.
