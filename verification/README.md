# appsim elastic-cluster control logic in Dafny

This project models the control logic of `appsim`, a discrete-event
simulator of a virtual computing lab. Customers arrive and each takes one
seat on a VM. An elastic cluster boots and retires VMs. A scaler runs every
`scale_rate` seconds and asks a provisioning policy how many VMs to start
and stop. The simulator then reports blocking, waiting, utilisation and
billable time. The project also models the offline tools around the
simulator: the Erlang-B capacity planners, the provisioning-schedule
solver, the trace segmentation and transformation scripts, the
autoregressive forecast stream, the Markov transition-table generator, and
the n-step predictor residual studies.

Every operation is a pure Dafny function, or a method where the original
is a loop with a non-obvious invariant. Python exceptions become
`Result.Err` values named after the exception (`Wrappers.Error`).
Randomness, file contents and external predictors are passed in as
parameters: draw sequences, oracles and step functions. Floating-point
values are modelled as exact reals. Python 2 integer division, `int()`
truncation, negative indexing and slice clamping are written out in
`Numeric`.

Modules follow the source files:

- `Cluster`: the cluster and its rank allocator.
- `Scaler`: one scaler tick.
- `ReservePolicy`, `FixedSizePolicy`, `ErlangPolicy`: the provisioning policies,
  with the older copies of the fixed-size and fixed Erlang-B policies under
  `scaler/` proved to decide as the current ones.
- `ErlangB`: the two Erlang-B loss formulas, and the older loop-based copy of
  the closed form.
- `CapacitySearch`, `ScheduleSolver`: the offline provisioning-schedule tools.
- `NStepPredictor`: the moving-average n-step predictor.
- `Users`, `Generators`, `StartupDelay`, `Departure`: the customer and VM processes.
- `Accounting`, `Billing`, `Statistics`: end-of-run accounting and reporting.
- `Segments`, `Traces`, `Autoregressive`: the trace tools.
- `Markov`: the Markov transition-table generator.
- `Residual`, `Windows`, `NStepModels`, `NStepData`: the residual studies.

Where the code and its documentation disagree, the model follows the code:

- The newer `BillablePolicy` and the strict `NoMinimumBillablePolicy` call an
  undefined name (`returnsum`) when computing the server cost, so their
  `run` ends in a `NameError`.
- The hour-minimum server cost sums `ceil(item[0])`, the observation time
  stamp, not the provision length.
- In `data/n_step_residuals.py` the halves are unpacked as
  `(pred, arrivals)` from a function that returns `(arrivals, pred)`. The
  arrivals therefore play the role of the predictions.
- The hourly wait-time statistics have 4380 buckets, covering only the
  first half-year. The simulator passes them the second half-year's waits
  shifted back by 15768000 seconds, so in a run that ends within the year
  they fail only for a wait stamped exactly at 31536000.
- The stop and retire scans remove VMs from the list they iterate, so the
  VM after each removed one is skipped.

## Model

| member | source | states |
|---|---|---|
| Cluster.FirstGap | appsim/cluster.py:112-117 | the scan over sorted ranks stops at the first position whose rank differs from the position, and every earlier position holds its own index |
| Cluster.NextPriorityIsLeastUnused | appsim/cluster.py:103-117 | the priority given to a new VM is used by no VM of the cluster, and every smaller non-negative rank is in use |
| Cluster.SortSorted | appsim/cluster.py:112-113 | sorting the ranks yields an ascending permutation of them |
| Cluster.CreatedVmIsFresh | appsim/cluster.py:52-61 | a created VM gets a rank no VM of a well-formed cluster has, `density` seats and no occupants |
| Cluster.NewCluster | appsim/cluster.py:33-41 | a new cluster has `initial_capacity` active VMs, nothing booting or shutting down, and counts them as provisioned |
| Cluster.NewClusterRanks | appsim/cluster.py:33-41 | the initial VMs get the ranks 0 .. k-1 in order, are empty, and the cluster starts well formed |
| Cluster.NextPriorityAfterPrefix | appsim/cluster.py:39-41 | while building the initial cluster, the k-th created VM gets rank k |
| Cluster.AppendFreshKeepsWellFormed | appsim/cluster.py:39-41 | appending a created VM to the active list keeps ranks unique and every VM well formed |
| Cluster.FindServer | appsim/cluster.py:63-79 | the chosen VM has a free seat and the lowest rank among active VMs with a free seat; none is returned exactly when no active VM has a free seat |
| Cluster.FindFrom | appsim/cluster.py:76-79 | the loop over active VMs keeps the lowest-ranked VM with a free seat seen so far, and ties keep the earliest |
| Cluster.CapacityFromCounts | appsim/cluster.py:82-90 | capacity moves by `density` seats for every VM added to booting or active |
| Cluster.SeatAccounting | appsim/cluster.py:93-101 | the free-seat count equals capacity minus the occupied seats and lies between 0 and the capacity |
| Cluster.SumFreeSplit | appsim/cluster.py:93-101 | summed free seats are summed capacity minus summed occupancy |
| Cluster.SumCapacityGood | appsim/cluster.py:82-101 | well-formed VMs have `density` seats each and never hold more users than seats |
| Scaler.BaseScalerLogic | appsim/scaler/scaler.py:112-118 | the base scaler has no policy and always raises NotImplementedError |
| Scaler.StartPhase | appsim/scaler/scaler.py:49-60 | the start loop reclaims the newest shutting-down VMs first, boots new VMs only for the remainder, and counts only booted VMs as provisioned |
| Scaler.StartPhaseNewVms | appsim/scaler/scaler.py:51-59 | reclaimed VMs reach the active list in pop order; each booted VM starts now, is empty, and is ready after the startup delay |
| Scaler.StartPhaseCapacity | appsim/scaler/scaler.py:49-60 | the start loop adds exactly max(start, 0) VMs of seats |
| Scaler.StartPhaseKeepsWellFormed | appsim/scaler/scaler.py:49-60 | starting VMs keeps ranks unique and every VM well formed |
| Scaler.SplitReadyMembers | appsim/scaler/scaler.py:63 | the booting VMs split into those whose ready time has come and the rest, with no VM lost or invented |
| Scaler.SplitReadyRanks | appsim/scaler/scaler.py:63-69 | the split preserves the multiset of ranks |
| Scaler.SplitReadyIsFilter | appsim/scaler/scaler.py:63 | the ready part is the order-preserving filter of booting by `now >= ready_time`: it distributes over concatenation and keeps a single VM exactly when it is ready |
| Scaler.Promote | appsim/scaler/scaler.py:63-69 | promotion appends to active exactly the ready booting VMs in booting order, keeps the earlier active VMs in place, and leaves the VMs that are not ready in booting in their order |
| Scaler.PromoteKeepsWellFormed | appsim/scaler/scaler.py:63-69 | promotion keeps the cluster invariant |
| Scaler.StopScan | appsim/scaler/scaler.py:72-79 | the stop loop stops at most max(stop, 0) VMs and, because it removes from the list it iterates, at most every other one |
| Scaler.StopScanSubset | appsim/scaler/scaler.py:72-79 | the VMs left active come from the scanned list |
| Scaler.StopScanKeeps | appsim/scaler/scaler.py:49-79 | no VM started this tick and no VM with a user is stopped |
| Scaler.StopScanStopped | appsim/scaler/scaler.py:75-78 | every stopped VM was an empty, unprotected active VM and now carries the power-off time |
| Scaler.StopScanRanks | appsim/scaler/scaler.py:72-79 | stopping moves VMs between lists without changing the multiset of ranks |
| Scaler.StopScanSkipsNeighbour | appsim/scaler/scaler.py:72-79 | with two empty VMs and a budget of two, the scan stops only one, because the removal skips the next element |
| Scaler.RetireScan | appsim/scaler/scaler.py:84-90 | retiring keeps every VM whose power-off time has not come, and a VM without a start time raises AttributeError |
| Scaler.RetireScanRecords | appsim/scaler/scaler.py:84-90 | each provision record is (start time, now - start time) of a VM due for retirement; an error means a due VM had no start time |
| Scaler.RetireScanRanks | appsim/scaler/scaler.py:84-90 | the VMs left shutting down are a sub-multiset of the scanned ones |
| Scaler.Tick | appsim/scaler/scaler.py:42-102 | one tick sleeps `scale_rate`, stops at most max(stop, 0) VMs, counts retired VMs as deleted, and samples the list lengths after the tick |
| Scaler.TickIs | appsim/scaler/scaler.py:42-98 | a tick is the start phase, then promotion, the stop scan and the retire scan, in that order |
| Scaler.TickCapacity | appsim/scaler/scaler.py:49-90 | capacity after a tick plus the stopped VMs' seats equals capacity before plus the started VMs' seats; only booted VMs count as provisioned |
| Scaler.StoppedCapacity | appsim/scaler/scaler.py:49-81 | the same balance holds before the retire scan |
| Scaler.GrownCapacity | appsim/scaler/scaler.py:49-69 | starting and promoting add exactly max(start, 0) VMs of seats |
| Scaler.StopCapacity | appsim/scaler/scaler.py:72-79 | each stopped VM removes `density` seats |
| Scaler.RetiredCapacity | appsim/scaler/scaler.py:84-90 | retiring shutting-down VMs changes neither capacity nor the provisioned count |
| Scaler.TickKeepsBusyAndNew | appsim/scaler/scaler.py:52-79 | after a tick, every active VM that had a user and every VM that became active this tick is still active |
| Scaler.StopKeepsBusyAndNew | appsim/scaler/scaler.py:52-79 | the same holds right after the stop scan |
| Scaler.StopKeepsAt | appsim/scaler/scaler.py:72-79 | a protected or occupied VM stays active |
| Scaler.TickKeepsWellFormed | appsim/scaler/scaler.py:42-98 | a tick keeps ranks unique and every VM well formed |
| Scaler.GrownKeepsWellFormed | appsim/scaler/scaler.py:49-69 | starting and promoting keep the cluster invariant |
| Scaler.StoppedKeepsWellFormed | appsim/scaler/scaler.py:72-79 | the stop scan keeps the cluster invariant |
| Scaler.RetiredKeepsWellFormed | appsim/scaler/scaler.py:84-90 | the retire scan keeps the cluster invariant |
| Scaler.StoppedRanks | appsim/scaler/scaler.py:72-79 | moving stopped VMs to shutting down preserves the multiset of ranks |
| Scaler.TickOccupancy | appsim/scaler/scaler.py:92-95 | the occupancy sample counts the users on booting and active VMs after the tick |
| ReservePolicy.SeatRule | appsim/scaler/reserve_policy.py:74-83 | the seat rule never both starts and stops VMs, holds when free seats equal the reserve, and divides by zero only for density 0 with a non-zero gap |
| ReservePolicy.SeatRulePlans | appsim/scaler/reserve_policy.py:74-83 | with density > 0 the rule starts the fewest VMs that lift free seats to the reserve, or stops the most VMs the surplus allows |
| ReservePolicy.PlansUnique | appsim/scaler/reserve_policy.py:49-57 | at most one decision meets that description, so the rule is the only one that does |
| ReservePolicy.FixedReserve | appsim/scaler/reserve_policy.py:45-83 | the fixed reserve R, less expected departures, plus waiting users, is planned by the seat rule |
| ReservePolicy.ArhmmReserve | appsim/scaler/reserve_policy.py:164-192 | the ARHMM policy plans the predicted reserve and records the prediction it used |
| ReservePolicy.DataDrivenReserve | appsim/scaler/reserve_policy.py:226-257 | the data-driven policy consumes one reserve value from its file, and an exhausted file raises StopIteration |
| ReservePolicy.Push | appsim/scaler/reserve_policy.py:325-327 | appending to the bounded deque keeps at most `maxlen` values, the newest last, dropping the oldest |
| ReservePolicy.PushAllKeepsSuffix | appsim/scaler/reserve_policy.py:315-327 | after any run of appends the deque holds the last `maxlen` values ever appended |
| ReservePolicy.TimeVaryReserve | appsim/scaler/reserve_policy.py:302-346 | the time-varying policy pushes the next count and plans the percentile of the window as its reserve, and an exhausted counts file raises StopIteration |
| FixedSizePolicy.Step | appsim/scaler/fixed_size_policy.py:35-45 | the first call starts `num_vms` VMs, every later call does nothing, and nothing is ever stopped |
| FixedSizePolicy.RunStartsOnce | appsim/scaler/fixed_size_policy.py:29-45 | over any number of ticks from a fresh policy, the policy starts `num_vms` VMs once and then idles |
| FixedSizePolicy.CalledStaysIdle | appsim/scaler/fixed_size_policy.py:43-45 | once called, the policy never starts or stops a VM again |
| FixedSizePolicy.LegacyAgrees | scaler/fixed_size_policy.py:28-44 | the older fixed-size policy makes the same decisions |
| ErlangB.ErlangBClosed | appsim/scaler/erlang_policy.py:115-123 | the closed-form blocking probability lies in [0, 1]; it is 1 with no servers and 0 with no traffic |
| ErlangB.LegacyLossEquation | scaler/erlang_b_formula_policy.py:5-17 | the older copy's loop over k = 0..m, adding E^k / k! before dividing E^m / m! by the sum, gives the same result as the closed form, errors included |
| ErlangB.ErlangBRecursive | appsim/scaler/erlang_policy.py:125-134 | the recursive form returns 0 for no traffic and otherwise a probability in (0, 1], which is 1 with no servers |
| ErlangB.TermIsPowOverFact | appsim/scaler/erlang_policy.py:119-122 | each term of the closed form equals E^k / k! |
| ErlangB.AccTimesTerm | appsim/scaler/erlang_policy.py:131-134 | the recursion's accumulator equals the closed form's denominator divided by its last term, less one |
| ErlangB.ClosedMatchesRecursive | appsim/scaler/erlang_policy.py:115-134 | for positive traffic the closed and recursive forms give the same blocking probability |
| ErlangB.BlockingAtMost | prov_schedules/__main__.py:17-24 | the blocking probability with c servers is at most E / (E + c) |
| ErlangB.BlockingDecreasing | prov_schedules/__main__.py:17-24 | for positive traffic, one more server strictly lowers the blocking probability |
| ErlangB.BlockingAntitone | prov_schedules/__main__.py:17-24 | more servers never raise the blocking probability |
| ErlangB.BlockingBelow | prov_schedules/__main__.py:17-24 | c servers with c * bp > E give blocking below bp, which bounds every search |
| ErlangB.AboveThresholdBelowBound | prov_schedules/__main__.py:26-41 | a server count whose blocking still exceeds bp is below the search bound |
| ErlangPolicy.ServersToStart | appsim/scaler/erlang_policy.py:189-204 | the search returns the fewest VMs whose seats give blocking below `worst_bp`, or -1 when `worst_bp` exceeds 1 |
| ErlangPolicy.ServersToStartUnique | appsim/scaler/erlang_policy.py:193-200 | any VM count that meets the threshold while every smaller count misses it is the search result |
| ErlangPolicy.NoTrafficServers | appsim/scaler/erlang_policy.py:115-134 | with no traffic the closed form asks for one VM (its zero-server value is 1) and the recursive form for none |
| ErlangPolicy.LeastServers | appsim/scaler/erlang_policy.py:197-200 | the counting loop ends at the first count below the threshold |
| ErlangPolicy.NewErlangFixed | appsim/scaler/erlang_policy.py:179-183 | the offered traffic is lamda / mu, and mu = 0 raises ZeroDivisionError |
| ErlangPolicy.FixedStep | appsim/scaler/erlang_policy.py:189-204 | the first call starts the least sufficient number of VMs, later calls do nothing, and nothing is stopped |
| ErlangPolicy.LegacyScalerLogic | scaler/erlang_b_formula_policy.py:67-82 | the older copy's search loop, adding a VM while the closed-form blocking of its seats is at least worst_bp, decides exactly as the current fixed policy |
| ErlangPolicy.FixedRunStartsOnce | appsim/scaler/erlang_policy.py:189-204 | over any number of ticks the fixed Erlang policy starts its VMs once and then idles |
| ErlangPolicy.FixedCalledIdle | appsim/scaler/erlang_policy.py:202-204 | once called, it never starts or stops a VM again |
| ErlangPolicy.PlanEntry | appsim/scaler/erlang_policy.py:295-301 | a plan entry is the least VM count whose recursive blocking for the predicted traffic is below `worst_bp`, -1 when `worst_bp` exceeds 1, and a zero scale rate or service rate raises ZeroDivisionError |
| ErlangPolicy.Unmemoised | appsim/scaler/erlang_policy.py:290-303 | the plan computed without the memo succeeds exactly when every entry does, and holds each entry's count |
| ErlangPolicy.MemoTransparent | appsim/scaler/erlang_policy.py:289-303 | memoising by predicted count never changes the plan |
| ErlangPolicy.PlanIsFresh | appsim/scaler/erlang_policy.py:282-304 | the memoised plan equals the entry-by-entry plan |
| ErlangPolicy.NewErlangData | appsim/scaler/erlang_policy.py:306-321 | the data policy starts at slot 0 with its lag and plan |
| ErlangPolicy.DataStep | appsim/scaler/erlang_policy.py:306-321 | while lagging the policy returns (0, 0); afterwards it moves booting plus active VMs to the next plan entry, never both starting and stopping, and raises once the plan is exhausted |
| CapacitySearch.FindCapacity | prov_schedules/__main__.py:26-41 | the doubling and bisection search returns the least capacity whose blocking is at most bp, 0 for no traffic and 1 for bp >= 1 |
| CapacitySearch.CapacityForUnique | prov_schedules/__main__.py:26-41 | at most one capacity meets that description |
| CapacitySearch.FindCt | prov_schedules/__main__.py:43-44 | each period's capacity is the search result for lambda / mu, and mu = 0 raises ZeroDivisionError |
| ScheduleSolver.TimeInSeconds | prov_schedules/solver.py:10-13 | a reservation spans whole 300-second slots from its start slot through its end slot |
| ScheduleSolver.Lowered | prov_schedules/solver.py:25-45 | a pass lowers by d exactly the slots whose requirement reaches the threshold |
| ScheduleSolver.ScanCounts | prov_schedules/solver.py:25-45 | every slot that reaches the threshold is covered by exactly one reservation and no other slot is covered |
| ScheduleSolver.ScanInRange | prov_schedules/solver.py:25-45 | reservations lie inside the curve and carry the density |
| ScheduleSolver.ScanSeparated | prov_schedules/solver.py:25-45 | reservations come in slot order with a gap between them |
| ScheduleSolver.Pass | prov_schedules/solver.py:25-67 | a pass reserves exactly the runs at or above its threshold and lowers each covered slot by d |
| ScheduleSolver.CoverLowersPeak | prov_schedules/solver.py:25-45 | a cover pass lowers the peak requirement by at least d |
| ScheduleSolver.CoverLoopAccounts | prov_schedules/solver.py:16-23 | the cover loop ends with every slot needing at most d and accounts for every reserved VM |
| ScheduleSolver.Solve | prov_schedules/solver.py:16-23 | solving an empty curve raises ValueError (max of an empty list); otherwise a residual requirement is returned for every slot |
| ScheduleSolver.SolveCovers | prov_schedules/solver.py:16-67 | each slot's requirement equals the leftover plus d times its covering reservations, slots needing nothing are never covered, and the leftover is below d |
| NStepPredictor.NewMovingAverage | appsim/n_step_predictors.py:3-5 | a new predictor has window k and no history |
| NStepPredictor.LastK | appsim/n_step_predictors.py:11-13 | the kept history is the k most recent values, or all of them for a window of 0 |
| NStepPredictor.Record | appsim/n_step_predictors.py:7-13 | a new observation is appended, the history is cut to its k most recent values, and no observation leaves it unchanged |
| NStepPredictor.ForecastTotal | appsim/n_step_predictors.py:10-22 | the total of n forecasts is 0 while fewer than k values exist, the sum of n moving-average forecasts otherwise (one step ahead is the mean of the last k), and the whole history's sum for n = 0 |
| NStepPredictor.OneForecast | appsim/n_step_predictors.py:14-19 | one forecast step is the mean of the k most recent values |
| NStepPredictor.PredictNSteps | appsim/n_step_predictors.py:7-22 | predict_n_steps records the observation and returns the forecast total over the updated history |
| Users.InitialUsers | appsim/user.py:8-24 | the shared user state starts with no users, no waiting queue and prev_id -1 |
| Users.Arrive | appsim/user.py:34-42 | each arrival takes the next id and joins the waiting queue exactly when no server has a free seat |
| Users.IdsConsecutive | appsim/user.py:34-36 | successive arrivals get consecutive ids |
| Users.Proceed | appsim/user.py:44-68 | a user is blocked exactly when no server is found, and its service time is then recorded as lost rather than accepted; warnings are raised for out-of-order service, reactivation without a server, and long waits |
| Users.Serve | appsim/user.py:65-71 | a granted request must be granted at the time it was made, or RuntimeError; the user becomes active |
| Users.Release | appsim/user.py:72-80 | a release removes the user and reactivates the head of the waiting queue, if any |
| Users.ServeThenRelease | appsim/user.py:65-80 | serving then releasing a user restores the set of active users |
| Users.DrainIsFifo | appsim/user.py:46-80 | releases reactivate waiting users in first-come, first-served order |
| Generators.Reset | appsim/user_generators.py:22-32 | resetting zeroes the arrival count and stamps the scale time |
| Generators.TimeSinceLastScale | appsim/user_generators.py:34-46 | the time since the last scale event is non-negative, and the counters before a reset raise TypeError |
| Generators.TimeUntilNextScale | appsim/user_generators.py:48-60 | the time until the next scale event is non-negative and reaches the next scale time |
| Generators.ResetTimes | appsim/user_generators.py:22-60 | just after a reset, elapsed plus remaining time is one scale period |
| Generators.GenerateFails | appsim/user_generators.py:80-92 | generation raises exactly when some drawn service time is negative |
| Generators.GenerateCreates | appsim/user_generators.py:80-92 | one user is created per draw, numbered consecutively, arriving after the drawn interarrival times, and the count grows by the number of users |
| StartupDelay.FixedStartupDelay | common.py:32-33 | the fixed delay function always returns its delay |
| StartupDelay.CheckStartup | common.py:10-19 | a negative startup time raises NegativeStartupTimeException; any other passes through unchanged |
| StartupDelay.TruncateAtZero | common.py:22-29 | truncation returns the first positive draw, and every earlier draw was not positive |
| StartupDelay.NormalStartupDelay | common.py:40-44 | the truncated normal delay is the first positive draw: it equals some draw, every draw before it is at most 0, and there is none exactly when no draw is positive |
| StartupDelay.TruncatedPassesCheck | common.py:10-29 | a truncated delay always passes the negativity check |
| Departure.TablesNonNegative | appsim/scaler/departure.py:7-122 | the three departure tables have 96 five-minute slots of non-negative probability |
| Departure.SlotIndex | appsim/scaler/departure.py:146-148 | the slot is the truncated time in system divided by 300; the first eight hours land in slots 0 .. 95 |
| Departure.Contribution | appsim/scaler/departure.py:148-150 | a user contributes its slot's probability, and a slot outside the table raises IndexError |
| Departure.AccumulateFails | appsim/scaler/departure.py:142-151 | the estimate fails exactly when some user's slot is outside the table |
| Departure.AccumulateNonNegative | appsim/scaler/departure.py:142-151 | a table of non-negative probabilities gives a non-negative estimate |
| Departure.SlottedEstimate | appsim/scaler/departure.py:142-239 | the estimate is 0 with no users in service and for NoDepartureEstimation |
| Departure.EstimateNonNegative | appsim/scaler/departure.py:142-229 | every slotted estimate is non-negative |
| Departure.EightHoursInTable | appsim/scaler/departure.py:142-229 | users in service for less than eight hours always find their slot |
| Departure.AccumulateAppend | appsim/scaler/departure.py:144-151 | the estimate over two groups of users combines the two estimates |
| Departure.AccumulateOrderFree | appsim/scaler/departure.py:145 | the estimate does not depend on the order of the users |
| Accounting.AdjustDurations | appsim/sim.py:123-144 | durations reaching past now are cut to end now; all other records stay as they are |
| Accounting.AdjustSettles | appsim/sim.py:123-144 | adjusting again at a later time changes nothing |
| Accounting.ProvisionRecords | appsim/sim.py:103-109 | each running VM records (start time, now - start time), and a VM without a start time raises AttributeError |
| Accounting.Emptied | appsim/sim.py:110 | finalising empties the three VM lists and keeps the counters |
| Accounting.FinalizeSimulation | appsim/sim.py:82-88 | finalising after one year raises; otherwise it cuts accepted and lost durations at now, appends one record per running VM, and empties the cluster |
| Accounting.FinalizedEndsByNow | appsim/sim.py:82-110 | after finalising, no accepted or lost service reaches past now and every new provision record ends now |
| Accounting.MeanUtilization | appsim/sim.py:146-151 | utilisation times the total seat time equals the used seat time, and zero seat time raises ZeroDivisionError |
| Accounting.UtilizationIsFraction | appsim/sim.py:146-151 | when used seat time is within the seat time, utilisation lies in [0, 1] |
| Accounting.AfterHalfYearMembers | appsim/sim.py:268-283 | the second-half filter keeps exactly the records stamped after the half-year, shifted back by it |
| Accounting.AfterHalfYearAppend | appsim/sim.py:268-283 | the filter works record by record |
| Billing.SumCeilBounds | billable_time.py:64-74 | rounding every item up adds less than one per item to the sum |
| Billing.ElapsedNow | billable_time.py:38-45 | every VM still running is recorded at now with now - start time, and a VM without a start time raises AttributeError |
| Billing.CustomerRecords | billable_time.py:47-51 | one record per user in service, stamped now |
| Billing.ObserveAndAdjust | billable_time.py:15-59 | observing appends running VMs and users in service as if they left now, and cuts lost service at now |
| Billing.HourTotalsOf | billable_time.py:61-74 | hour-minimum totals are at least the strict sums |
| Billing.HourTotalsClose | billable_time.py:64-70 | hour-minimum totals exceed the strict sums by less than one per record |
| Billing.BillableRun | billable_time.py:15-36 | the strict policy raises NameError at once; the no-minimum policy observes (a VM without a start time raises AttributeError) and then raises NameError; the old hour-minimum policy observes and then rounds up; the new one rounds up without observing |
| Billing.StrictBillable | appsim/billable_time.py:23-29 | strict billable and lost sums never exceed the hour-minimum ones |
| Billing.CostRun | cost.py:39-49 | total cost is lost profit plus server cost, and it fails exactly when observing fails |
| Billing.CostPricesBillable | cost.py:51-62 | the cost policy prices the hour-minimum billable totals at the profit and server rates |
| Billing.ServerCostCountsStamps | billable_time.py:72-74 | the hour-minimum server cost sums rounded-up time stamps, so each running VM adds ceil(now) |
| Statistics.BucketCountCovers | appsim/tools.py:34 | the ceil(span / interval) buckets cover the span, and the last one starts inside it |
| Statistics.BucketOf | appsim/tools.py:38-39 | an observation's bucket is its time floored by the interval, with Python's negative indexing |
| Statistics.GroupContents | appsim/tools.py:36-40 | grouping fails exactly when an observation has no bucket; otherwise each bucket holds, in order, the values of the observations in its interval |
| Statistics.Mean | appsim/tools.py:41-48 | a bucket's mean times its size is its sum, and an empty bucket reports 0 |
| Statistics.ByTime | appsim/tools.py:23-50 | a zero interval divides by zero; otherwise the result has one mean per bucket and succeeds exactly when every observation is placed |
| Statistics.BpByTime | appsim/tools.py:23-50 | blocking probabilities are grouped over the whole year: a zero interval divides by zero, and otherwise there is one mean per bucket of the year, with success exactly when every observation falls in a bucket |
| Statistics.WaitTimesByTime | appsim/tools.py:171-198 | wait times are grouped over the first half-year only: a zero interval divides by zero, and otherwise there is one mean per bucket of 15768000 seconds, with success exactly when every observation falls in a bucket |
| Statistics.ByTimeMeans | appsim/tools.py:41-48 | each reported value is the mean of the observations in its interval |
| Statistics.InSpanPlaced | appsim/tools.py:23-50 | observations inside the span always find their bucket |
| Statistics.PastSpanFails | appsim/tools.py:38-39 | an observation at or after the last bucket's end raises IndexError |
| Statistics.HourlyWaitsSecondHalfFail | appsim/tools.py:171-198 | hourly wait statistics cover only the first half-year, so a wait whose unshifted time is at or after 15768000 raises IndexError |
| Statistics.SecondHalfHourlyWaits | appsim/sim.py:280-286 | for the shifted second half-year waits of a run ending within the year, the hourly statistics succeed exactly when no wait is stamped at 31536000 |
| Statistics.MeansAreFractions | appsim/tools.py:41-48 | blocking indicators in [0, 1] give per-interval blocking probabilities in [0, 1] |
| Segments.ArrivalsPerPeriod | data/day_cluster/segment_traffic_by_day.py:43-62 | there are 31536000 // period counters, a zero period divides by zero, and an arrival outside them raises IndexError |
| Segments.CountFromCounts | data/day_cluster/segment_traffic_by_day.py:55-62 | counting succeeds exactly when every arrival has a period; then counter j grows by the arrivals in period j, and the total by the number of arrivals |
| Segments.ArrivalsPerPeriodTotal | data/day_cluster/segment_traffic_by_day.py:43-62 | with every arrival inside the year, the counters add up to the number of arrivals |
| Segments.DateRangeContents | data/day_cluster/segment_traffic_by_day.py:214-231 | with j the first arrival at or after the start, the range is arrival j, its interarrival measured from the start, followed by the later arrivals before the end; the remaining time runs from the last kept arrival to the end when an arrival reaches the end and is 0 when the trace runs out; with no arrival at or after the start the range is empty |
| Segments.ScanSkipsTo | data/day_cluster/segment_traffic_by_day.py:218-226 | the arrivals before the first one at or after the start are skipped, and that one is kept with its interarrival measured from the start |
| Segments.ScanKeepsUntilEnd | data/day_cluster/segment_traffic_by_day.py:227-230 | after the start is found, a clean trace is kept unchanged up to the first arrival at or after the end, which stops the scan with the time from the last kept arrival to the end; without such an arrival nothing stops the scan |
| Segments.ScanNoneFound | data/day_cluster/segment_traffic_by_day.py:214-221 | with every arrival before the start, the range is empty and the remaining time 0 |
| Segments.ScanFirstKept | data/day_cluster/segment_traffic_by_day.py:214-231 | arrivals before the start are dropped, and the range opens with the first arrival at or after the start, its interarrival measured from the start |
| Segments.ScanAccounts | data/day_cluster/segment_traffic_by_day.py:214-231 | when the scan reaches the end, the kept interarrivals plus the remaining time add up to end - start |
| Segments.DateRangeAccounts | data/day_cluster/segment_traffic_by_day.py:214-231 | a date range of a clean trace accounts for its whole length |
| Segments.Splice | data/day_cluster/segment_traffic_by_day.py:173-184 | splicing the ranges fails only with IndexError, raised when a non-zero remainder meets an empty range |
| Segments.TrafficForMultipleDates | data/day_cluster/segment_traffic_by_day.py:155-184 | the only failure is IndexError, and no ranges give no arrivals |
| Segments.SpliceAccounts | data/day_cluster/segment_traffic_by_day.py:173-184 | spliced ranges lose no time at the seams: interarrivals plus the last remainder add up to the ranges' total length |
| Traces.Clean | data/traffic_transforms/traffic_transforms.py:121-128 | cleaning keeps only observations with non-negative interarrival and service times |
| Traces.CleanMembers | data/traffic_transforms/traffic_transforms.py:121-128 | an observation survives cleaning exactly when it was in the data and is clean |
| Traces.CleanKeepsClean | data/traffic_transforms/traffic_transforms.py:121-128 | cleaning clean data changes nothing |
| Traces.TransformService | data/traffic_transforms/traffic_transforms.py:50-53 | every service time becomes int(service * scale) and interarrivals stay |
| Traces.TransformServiceScales | data/traffic_transforms/traffic_transforms.py:50-53 | a scale of 1 changes nothing, and a non-negative scale keeps data clean |
| Traces.ThinKeepsTimes | data/traffic_transforms/traffic_transforms.py:55-68 | thinning keeps exactly the selected arrivals at their original absolute times, with their service times |
| Traces.ThinFromKeepsClean | data/traffic_transforms/traffic_transforms.py:55-68 | thinning clean data gives clean data |
| Traces.AddThinsBack | data/traffic_transforms/traffic_transforms.py:73-101 | removing the inserted arrivals from a thickened trace restores the original trace |
| Traces.AddKeepsClean | data/traffic_transforms/traffic_transforms.py:73-101 | thickening clean data never fails and gives clean data |
| Traces.TransformArrivals | data/traffic_transforms/traffic_transforms.py:103-107 | a scale above 1 thickens the trace; otherwise it is thinned and never grows |
| Traces.TransformKeepsClean | data/traffic_transforms/traffic_transforms.py:103-107 | transforming clean data succeeds and gives clean data |
| Autoregressive.Stream | data/auto_regressive/autoregressive.py:4-18 | the stream repeats the first two inputs, then yields phi1 * x(t) + phi2 * x(t-1) for each further input |
| Autoregressive.StreamRest | data/auto_regressive/autoregressive.py:14-18 | after the first two values, each input yields one forecast from it and the previous input |
| Autoregressive.MixedAppend | data/auto_regressive/autoregressive.py:45-49 | the mixed forecast of two calendars is the concatenation of their forecasts |
| Autoregressive.MixedRestarts | data/auto_regressive/autoregressive.py:46-49 | each calendar segment restarts the stream with its own coefficients |
| Autoregressive.MixedLength | data/auto_regressive/autoregressive.py:45-49 | the mixed forecast has one value per input line |
| Autoregressive.MixedForecast | data/auto_regressive/autoregressive.py:30-49 | the seven-segment calendar forecast has one value per input line |
| Markov.QBound | markov_example_generator.py:74-79 | the q range ends at MAX_Q, or at MAX_SERVERS when MAX_Q is unset |
| Markov.AllStatesOrder | markov_example_generator.py:72-80 | the enumeration lists every valid (n, s, q) exactly once in lexicographic order, (C + 1) * S * (Q + 1) states in all |
| Markov.StateBalance | markov_example_generator.py:169-231 | in-service plus queue is n, in-service plus unused seats is s, and the queue and the unused seats are never both positive |
| Markov.StateUtilization | markov_example_generator.py:203-204 | a state's utilisation is in-service / s and lies in [0, 1] |
| Markov.NonZeroValue | markov_example_generator.py:142-153 | a negative in-service count raises RuntimeError |
| Markov.NonZeroValueShape | markov_example_generator.py:146-153 | a change needing a negative number of arrivals has value 0, and probabilities give non-negative values |
| Markov.RequiredNextQ | markov_example_generator.py:157-159 | the required inactive servers are max(s - (n + R), 0) |
| Markov.Entry | markov_example_generator.py:161-173 | an entry fails only on the target column and only for a negative in-service count |
| Markov.EntriesPointwise | markov_example_generator.py:155-175 | a row is computed entry by entry over all states |
| Markov.RowComplete | markov_example_generator.py:155-175 | every row of a valid state succeeds, has one entry per state and is non-negative |
| Markov.RowSparsity | markov_example_generator.py:161-167 | a non-zero entry's target has s = n + R and the required q |
| Markov.FullStateRowZero | markov_example_generator.py:157-167 | when n + R exceeds MAX_SERVERS the row of the full state is all zero |
| Markov.Table | markov_example_generator.py:90-93 | the table has one complete row per state |
| Markov.Normalize | markov_example_generator.py:104-109 | a zero row stays zero; otherwise scaling keeps exactly the zero pattern |
| Markov.NormalizedSumsToOne | markov_example_generator.py:104-109 | a normalised non-zero row sums to 1 |
| Residual.CeilAll | n_step_models.py:133 | predictions are rounded up to whole counts |
| Residual.CeilAllSettles | n_step_models.py:131-144 | rounding up twice is rounding up once |
| Residual.ComputeResidual | n_step_models.py:131-138 | over- and under-estimates have the right signs and add up to the total error; sse is non-negative and 0 exactly for exact rounded predictions; unequal lengths raise TypeError |
| Residual.SplitSums | n_step_models.py:135-136 | positive and negative errors split the total error |
| Residual.SquaresZero | n_step_models.py:137 | the squared error is 0 exactly when every error is 0 |
| Residual.DifferencesSum | n_step_models.py:134 | the errors sum to predictions minus arrivals |
| Residual.ExactPredictionsNoResidual | n_step_models.py:131-138 | exact rounded predictions give a zero residual |
| Residual.FirstHalf | n_step_models.py:127-128 | the first half is the prefix of length len / 2 |
| Windows.PeriodsPerBucket | n_step_models.py:150 | n = len / 52560 buckets the periods with less than one bucket left over |
| Windows.NonOverlapFits | n_step_models.py:148-157 | the non-overlapping pass succeeds exactly when its bucket index stays below 52560 and the predictions are long enough |
| Windows.NonOverlapFirst | n_step_models.py:152-155 | each bucket holds the sum of its n arrivals |
| Windows.NonOverlapSecond | n_step_models.py:146-157 | each bucket holds its n predictions summed plainly, or summed with a rounding up at every step |
| Windows.FitsWholeBuckets | n_step_models.py:148-150 | with n = len / 52560 the pass fits exactly when the length is a whole multiple of 52560 |
| Windows.Sliding | n_step_models.py:159-167 | each sliding window holds the sum of up to n values from its position; predictions are rounded up or averaged, and averaging over n = 0 divides by zero |
| Windows.WindowIsBucket | n_step_models.py:146-167 | a complete bucket total equals the window sum at the bucket's start |
| Windows.BucketPrefix | n_step_models.py:152-155 | after the loop has summed the first m entries, with m inside bucket j, bucket j holds the sum of entries j·n up to m |
| Windows.BucketBefore | n_step_models.py:152-155 | a bucket not yet reached is 0 |
| NStepModels.FeedPrefix | n_step_models.py:100-105 | feeding a prefix of the arrivals gives the same leading predictions |
| NStepModels.FeedTotal | n_step_models.py:100-105 | a predictor that never fails produces a prediction per arrival plus one |
| NStepModels.AlignedPredictions | n_step_models.py:100-105 | dropping the last prediction leaves one per arrival |
| NStepModels.AlignedIsCausal | n_step_models.py:100-105 | the prediction for period i depends only on the arrivals before i |
| NStepModels.SimpleResidual | n_step_models.py:140-144 | the explicit rounding in simple_residual changes nothing, since the residual rounds up anyway |
| NStepModels.NonOverlapResidual | n_step_models.py:146-157 | the non-overlapping residual fails exactly when the buckets do not fit |
| NStepModels.NonOverlapResidualOk | n_step_models.py:146-157 | it succeeds exactly when the first half is empty or a whole multiple of 52560 periods |
| NStepModels.NonOverlapResidualBuckets | n_step_models.py:146-157 | it is the residual of rounded-up bucket predictions against bucket arrival totals |
| NStepModels.SlidingResidual | n_step_models.py:159-167 | the sliding residual never fails, and its sse is 0 exactly when every rounded window prediction matches the window's arrivals |
| NStepModels.SlidingRounded | n_step_models.py:166 | the sliding prediction totals are already whole |
| NStepModels.BucketsAreSampledWindows | n_step_models.py:146-167 | the non-overlapping buckets are the sliding windows at the multiples of n |
| NStepModels.Winner | n_step_models.py:62-64 | the reduce picks the last candidate of least sse, and an empty list raises TypeError |
| NStepModels.LastMinimumUnique | n_step_models.py:62-64 | any last minimum is the one picked |
| NStepModels.FindMin | n_step_models.py:60-70 | each residual kind keeps its own winner's parameters and residual |
| NStepModels.FindMinIsMinimal | n_step_models.py:60-70 | no candidate has a smaller sse than the chosen one |
| NStepModels.TrainOne | n_step_models.py:72-91 | training one parameter keeps that parameter |
| NStepModels.TrainOneScores | n_step_models.py:72-91 | training one parameter scores its aligned predictions with the three residuals, and fails when they fail |
| NStepModels.TrainAll | n_step_models.py:54-57 | one candidate per parameter, in order |
| NStepModels.TrainAllOk | n_step_models.py:54-57 | training succeeds exactly when every parameter trains |
| NStepModels.Train | n_step_models.py:41-58 | train picks the minimising candidates, and with every parameter training it fails only for an empty range |
| NStepData.Clean | data/n_step_residuals.py:37-54 | predictions are shifted one step later with a leading 0, and NA values become 0 |
| NStepData.CleanSum | data/n_step_residuals.py:44-54 | shifting drops only the last prediction from the total |
| NStepData.SwappedHalves | data/n_step_residuals.py:56-79 | the unpacking gives the arrivals' half as predictions and the predictions' half as arrivals |
| NStepData.SimpleResidual | data/n_step_residuals.py:77-79 | because of the swap, the error sum is the rounded-up arrivals minus the cleaned predictions |
| NStepData.SwapNegates | data/n_step_residuals.py:68-75 | for whole counts, swapping the roles exchanges and negates the over- and under-estimates and keeps sse |
| NStepData.NonOverlapResidual | data/n_step_residuals.py:81-92 | it succeeds exactly when the half is empty or a whole multiple of 52560 periods and long enough |
| NStepData.NonOverlapResidualBuckets | data/n_step_residuals.py:81-92 | it is the residual of plain bucket sums, with the roles swapped |
| NStepData.SlidingResidual | data/n_step_residuals.py:94-102 | averaging over n = 0 divides by zero for a short non-empty half; sse is 0 exactly when every rounded window mean matches the window sum |
| NStepData.Evaluate | data/n_step_residuals.py:119-134 | mismatched lengths fail the assertion, and the scores are the three residuals of the cleaned predictions |

## Left out

- The SimPy process kernel, the simulation drivers and their wiring: the model takes the cluster, records and policies as values and steps them explicitly.
- Floating point: every float is an exact real, so rounding effects of the floating-point Erlang-B and mean computations are not modelled.
- Printing, plotting, CSV and Matlab output, file reading and writing: file contents are sequences passed in.
- Randomness: draws of random.random, randint, choice, normalvariate, gammavariate and the Poisson generator are sequences or oracle functions passed in.
- External computations: the ARHMM prediction, numpy's percentile and the Mathematica tables are parameters; the three departure tables are copied as constants.
- rpy2 and the fitting of autoregressive and SMA predictors: predictors are step functions passed in; only the moving average of appsim/n_step_predictors.py is modelled concretely.
- The exponential moving average, autoregressive and reserve n-step predictors are not part of this model.
- The `sum(arrivals) == 175481` assertions hold for one data file only and are not modelled.
- The inspection-time computation and the plotting-driven min-k selection in the data scripts' train() are not modelled.
- The Erlang-C formula and the Erlang-C capacity plan that the data-driven Erlang policy builds in its constructor: the plan is taken as input.
- The DataDriven reserve policy's predictor branch: only the reserve-file branch is modelled.
- Feature flags are fixed at their defaults: no loss assumption, and capacity is added for waiting users.
- Markov's MAX_CUSTOMERS, MAX_SERVERS and MAX_Q are a Limits parameter rather than the literal constants 25, 25 and 5.
- ReservePolicy.SeatRulePlans: requires density > 0; with density 0 the source divides by zero, which SeatRule models as an error.
- ErlangPolicy.ServersToStart: requires Searchable; for bp <= 1 with density 0 the source loop never ends.
- ErlangPolicy.LegacyScalerLogic: requires Searchable on the first call, for the same reason.
- The two prints of the older ErlangBLossEquation (scaler/erlang_b_formula_policy.py:14-15) are not modelled; apart from them it is the closed form.
- CapacitySearch.FindCapacity: requires Findable; positive traffic with bp = 0 makes the source search forever.
- ScheduleSolver.Solve: requires Solvable; with density 0 and a peak above it the source cover loop never ends.
- Markov.FullStateRowZero: requires that n + R exceeds MAX_SERVERS, the only case in which the full state's row is all zero.
- ReservePolicy.DataDrivenReserve: an exhausted reserve file gives Err(StopIteration). In the program this exception quietly ends the scaler's generator and the simulation runs on without scaling; that is not modelled, because the SimPy process loop is not part of the model.
- ReservePolicy.TimeVaryReserve: an exhausted counts file gives Err(StopIteration), which in the program quietly ends the scaler process in the same way; not modelled for the same reason.
- Scaler.StopScan: states bounds on what the skipping loop stops rather than which VMs it stops, because the skip makes that depend on positions in the list.
- Scaler.RetireScan: states which VMs it must keep and what it records, not exactly which due VMs it skips.
