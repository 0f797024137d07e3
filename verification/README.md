# The reservation engine of the QoS Planner, verified

The QoS Planner reserves throughput on the OSTs of a Lustre file system. It promises two things (README.md:3): to
check that a requested throughput is available, and to make sure that it is really given. The engine behind that
promise has four parts: admission control with its schedule, the monitor that starts and stops jobs, the monitor's
event queue, and the installation of rate rules on the OSSs. This project models all four and proves what they keep
together.

## How it is built

Every operation exists as a function on values; laws are lemmas about these functions. Where the source is an object
that changes its fields, there is a class with those fields, and its methods are proved to compute exactly those
functions. What the OSSs answer in each round of calls, what the clock reads, and what an uninitialised variable holds
are given from outside, not chosen by a method. The two threads of the running planner are a state machine over the
values (`Engine`), with one step per mutex-protected section. Theorems about it hold for every run: every sequence of
steps of the monitor thread, the server thread, the clock and the clients. `HandleStepByStep`, `DrainStepByStep`,
`ScheduleStepByStep` and `RemoveStepByStep` close the circle: when a thread is left alone, its steps amount to the
functions that the classes compute.

| file | content |
|---|---|
| `Jobs.dfy` | the values that are passed around |
| `EventQueue.dfy` | the binary heap, its laws as shipped and as put right, the queue object |
| `ScheduleState.dfy`, `ScheduleStore.dfy` | the schedule as a value with its reference (a stable sort), and as an object |
| `Admission.dfy` | the load sums in 32 bits and in full, and what the check on one OST decides |
| `Rules.dfy`, `RuleStore.dfy` | from OSTs to OSS rates, asynchronous fan-out, the rule manager object |
| `Engine.dfy` | the two threads as a state machine, runs |
| `Safety.dfy`, `Events.dfy` | mutual exclusion, life cycle, ACTIVE jobs, leaks, one event per job, removal |
| `InFlight.dfy` | the per-job lock for any number of callers |
| `Capacity.dfy` | admission under interleaving, exact admission, exact lists |
| `Drain.dfy` | the drain loop is complete and ends |
| `Delivery.dfy` | due reservations have their rules in place; the promise in full |
| `Stranded.dfy` | exactly which due reservations are served, and what becomes of the others |
| `EndToEnd.dfy` | rates at each OSS against the limits of its OSTs |
| `Removal.dfy` | exactly when the shipped order of removal is right |
| `Grants.dfy` | exactly when a granted reservation is kept |
| `Reuse.dfy` | runs that show what reusing an id too early does |
| `Stretches.dfy` | parts of a run with a known outcome |
| `Departures.dfy`, `Orphans.dfy`, `Overdue.dfy` | runs that show what the shipped statements break, and where the promise stops |
| `Monitor.dfy`, `Scheduler.dfy`, `Planner.dfy` | the three objects on top |
| `Floats.dfy` | the comparison with limits kept in single precision |

## Shipped and put right

The code departs from its meaning in five places. Each is a boolean of `Config` (or of the class concerned): `false`
is the shipped statement, `true` the same code with that one point put right. Every theorem names the booleans it needs
and leaves the others free, so that what needs no correction is proved of the code as shipped.

1. `queueFixed`: `Up` raises later events, `Down` sinks them and skips a lone left child, `Remove` never lets the
   filling item rise. The monitor (src/common/JobMonitor.cpp:178-181) and the test
   (test/basic_tests/JobPriorityQueueTest.cpp:61-68) want the earliest event first.
2. `loadStored`: `GetMaxLoadInTimeInterval` adds up the load and does not store it.
3. `listErased`: `RemoveJob` erases from a copy of the OST's list.
4. `cleanupFixed`: after a partial failure the clean-up goes to the OSSs where the install failed.
5. `removalSerialised`: `ServeJobRemove` takes the job off the schedule after the id is unblocked.

For each there are runs that show the shipped form failing, for all inputs of a described kind, and the exact condition
under which it is right:

- Push, Pop and Remove on a heap: `ShippedPushRightIff`, `ShippedPopRightIff`, `ShippedRemoveRightIff`, and
  `ShippedDownRightIff` below them;
- the load: `ShippedLoadRightIff` for the value, `UnstoredCheckSafeIff` and `UnstoredCheckRightIff` for the decision;
- the erase: `RollbackRestores` for the lists, `AdmissionAgreesIff` and `ExactForAllIffNothingStale` for the decision;
- the clean-up: `FailedSetRulesRestores`, with the run of `OrphanExceedsLimits`;
- the removal: `ShippedRemovalIsSafeIff`. Rules leaked by the race stay for ever (`LeakIsForEver`); without it nothing
  leaks (`NoLeaksWithoutRace`, `RemovalWithoutRace`).

Three more findings. The comparison in `AreEnoughResAvail` is fooled when the sum wraps to something within the limit,
which a negative throughput in a message brings about (`WordCheckAgreesIff`, `NegativeRequestOvercommits`); the capacity
theorems therefore ask that no check of the run is fooled, which ordinary requests never do (`FittingRequestsNeverFool`,
`OrdinaryRequestsFit`). Even with all five points put right, a job that is removed by request after its end can still
hold its rules, next to those of its successor, at the moment a drain ends (`OverdueRemovalExceeds`); `PromiseKept`
leaves out exactly that job. And the limits are kept in single precision, which is right for every limit below 2^24 and
misses the first overload of that one (`FloatCheckRightIff`, `FirstLimitMissed`).

Three guarantees are about one job id and ask nothing of any other:

- A grant is kept. A reservation that is about to be stored stays stored until its end, unless its removal is asked
  for, exactly if no stop event for its id is being handled or can be before that end (`GrantIsKeptIffSafe`, with the
  queue put right); if the id was submitted only while no event for it was pending, exactly if none is being handled at
  that moment (`GrantIsKeptIff`, for the queue in either form). `StopDropsSuccessor`, `EarlyReuseLeavesTwoStops` and
  `EarlierStopTakesJob` are runs in which it is not.
- A due reservation is served exactly if each SetRules for it was accepted (`DueServedIffAccepted`). A start event whose
  rules are refused is used up; the job is stranded for ever (`StrandedForEver`, `EverServedIffAccepted`), in a run with
  everything put right (`RefusalStrands`).
- A removal leaves nothing, exactly if the start event does not race it (`ShippedRemovalIsSafeIff`).

## Model

| member | source | states |
|---|---|---|
| EventQueue.PushConserves | src/common/JobPriorityQueue.cpp:48-51 | Push adds exactly one item to the multiset, in both forms |
| EventQueue.PopConserves | src/common/JobPriorityQueue.cpp:53-66 | Pop takes out exactly the item that Peek shows |
| EventQueue.RemoveConserves | src/common/JobPriorityQueue.cpp:96-113 | Remove takes out exactly the first item with that id, and finds one iff one is there |
| EventQueue.UpRestoresHeap | src/common/JobPriorityQueue.cpp:33-46 | with one slot out of order, the corrected Up gives a min-heap |
| EventQueue.DownRestoresHeap | src/common/JobPriorityQueue.cpp:69-94 | with one slot out of order, the corrected Down gives a min-heap |
| EventQueue.EveryRunIsAHeap | src/common/JobPriorityQueue.cpp:33-121 | after any sequence of Push, Pop and Remove the corrected array is a min-heap with a least event in front |
| EventQueue.PopsAreAscending | src/common/JobPriorityQueue.cpp:53-66 | popping until empty hands out every event once, in order of time |
| EventQueue.ReadyIffSomethingDue | src/common/JobMonitor.cpp:178-181 | the drain guard holds iff some queued event is earlier than the clock |
| EventQueue.TiesSink | src/common/JobPriorityQueue.cpp:33-94 | of events at the same time none rises above its parent, and one that sinks goes below its right child |
| EventQueue.ShippedPushesKeepLatestFirst | src/common/JobPriorityQueue.cpp:40 | as shipped, pushes alone keep the latest event at the root |
| EventQueue.ShippedPeekIsLeastIff | src/common/JobPriorityQueue.cpp:40 | after shipped pushes the root is a least event iff all times are equal |
| EventQueue.ShippedDownRightOnOddLength | src/common/JobPriorityQueue.cpp:75-78 | skipping a lone left child makes no difference in an array of odd length |
| EventQueue.ShippedDownMissesOneEdge | src/common/JobPriorityQueue.cpp:75-78 | the shipped Down leaves at worst the edge to the last slot out of order |
| EventQueue.ShippedPushRightIff | src/common/JobPriorityQueue.cpp:33-51 | the shipped Push keeps a min-heap iff the queue was empty or the new event is at the time of its parent |
| EventQueue.ShippedDownRightIff | src/common/JobPriorityQueue.cpp:69-94 | the shipped Down restores a heap disturbed at one slot iff the item there does not come to rest above an earlier lone left child |
| EventQueue.ShippedPopRightIff | src/common/JobPriorityQueue.cpp:53-66 | the same for the shipped Pop, for every length |
| EventQueue.ShippedRemoveRightIff | src/common/JobPriorityQueue.cpp:96-113 | the shipped Remove keeps a min-heap iff the filling item need not rise and does not come to rest above an earlier lone left child, for every length |
| EventQueue.JobPriorityQueue.Up | src/common/JobPriorityQueue.cpp:33-46 | the in-place method computes the function the laws are about |
| EventQueue.JobPriorityQueue.Down | src/common/JobPriorityQueue.cpp:69-94 | the in-place method computes the function the laws are about |
| EventQueue.JobPriorityQueue.Push | src/common/JobPriorityQueue.cpp:48-51 | new array, its multiset, and the heap order kept when put right |
| EventQueue.JobPriorityQueue.Pop | src/common/JobPriorityQueue.cpp:53-66 | the front item, nothing when empty; a least item when put right |
| EventQueue.JobPriorityQueue.Remove | src/common/JobPriorityQueue.cpp:96-113 | found iff an item with the id was there; exactly the first such item goes |
| EventQueue.JobPriorityQueue.Peek | src/common/JobPriorityQueue.cpp:115-121 | the front item, a least one when put right |
| ScheduleState.AddedList | src/common/MemoryScheduleState.cpp:83-97 | AddJob inserts into the list of each of its OSTs and touches no other |
| ScheduleState.RemovedList | src/common/MemoryScheduleState.cpp:118-128 | RemoveJob erases from the list of each of its OSTs, or as shipped from none |
| ScheduleState.SortByStartIsStable | src/common/MemoryScheduleState.cpp:88-96 | repeated insertion is a sort by start time that leaves ties in order of insertion |
| ScheduleState.AddRepresents | src/common/MemoryScheduleState.cpp:72-101 | after AddJob the lists are still the stable sorts of the live jobs per OST |
| ScheduleState.RemoveRepresents | src/common/MemoryScheduleState.cpp:104-131 | so they are after the corrected RemoveJob |
| ScheduleState.UpdateRepresents | src/common/MemoryScheduleState.cpp:133-145 | and after UpdateJob |
| ScheduleState.EntriesAfter | src/common/MemoryScheduleState.cpp:72-145 | what each operation does to the entry of every id; AddJob of a known id and RemoveJob and UpdateJob of an unknown one change nothing |
| ScheduleState.IndexAgreement | src/common/MemoryScheduleState.cpp:72-131 | each list is ordered, holds each live job of its OST once and nothing else, ties in insertion order |
| ScheduleState.RemoveCovered | src/common/MemoryScheduleState.cpp:104-131 | the shipped RemoveJob leaves every list as it was: ordered, and a superset of the live jobs |
| ScheduleState.RollbackRestores | src/common/JobSchedulerStaticWorkloads.cpp:57-65 | AddJob then RemoveJob restores jobs and lists up to empty lists, iff the erase is right or the job has no OSTs |
| ScheduleStore.MemoryScheduleState.AddJob | src/common/MemoryScheduleState.cpp:72-101 | refuses a known id and changes nothing; else stores a copy of the job everywhere |
| ScheduleStore.MemoryScheduleState.RemoveJob | src/common/MemoryScheduleState.cpp:104-131 | removes a known id from jobs and, when put right, from the lists |
| ScheduleStore.MemoryScheduleState.UpdateJob | src/common/MemoryScheduleState.cpp:133-145 | changes the state of the one job object, seen through map and lists |
| ScheduleStore.MemoryScheduleState.GetAllJobs | src/common/MemoryScheduleState.cpp:147-157 | a deep copy of all jobs |
| ScheduleStore.MemoryScheduleState.Reset | src/common/MemoryScheduleState.cpp:62-70 | an empty schedule |
| ScheduleStore.MemoryScheduleState.GetOSTState | src/common/MemoryScheduleState.cpp:53-60 | the OST's list, or nothing |
| ScheduleStore.MemoryScheduleState.GetJobStatus | src/common/MemoryScheduleState.cpp:170-180 | the stored state, or nothing |
| ScheduleStore.MemoryScheduleState.GetJobThroughput | src/common/MemoryScheduleState.cpp:159-168 | the stored throughput, or nothing |
| ScheduleStore.MemoryScheduleState.GetJobEnd | src/common/MemoryScheduleState.cpp:182-191 | the stored end, or nothing |
| ScheduleStore.MemoryScheduleState.GetJobOstIds | src/common/MemoryScheduleState.cpp:193-202 | the stored OSTs, or nothing |
| Admission.LoadWordIsOverlapMod | src/common/JobSchedulerStaticWorkloads.cpp:89-97 | the 32-bit accumulator holds the overlap sum modulo 2^32 |
| Admission.OverlapsIffShared | src/common/JobSchedulerStaticWorkloads.cpp:92 | a listed job is counted iff it shares an instant with the interval |
| Admission.OverlapIsLoadNow | src/common/JobSchedulerStaticWorkloads.cpp:77-98 | when everything listed has started, the overlap sum is the load now and no later instant carries more |
| Admission.WordCheckAgreesIff | src/common/JobSchedulerStaticWorkloads.cpp:77 | exactly when the 32-bit comparison decides as the comparison of real sums |
| Admission.NoWrapWhenStarted | src/common/JobSchedulerStaticWorkloads.cpp:77-97 | no partial sum passes the limit, nothing wraps, and the check is the real comparison |
| Admission.CheckIsExact | src/common/JobSchedulerStaticWorkloads.cpp:44-53 | against exact lists the check on an OST passes iff no instant would exceed the limit |
| Admission.AddKeepsLimits | src/common/JobSchedulerStaticWorkloads.cpp:43-59 | a job that found room on each of its OSTs can be added |
| Admission.ListsBoundLive | src/common/JobSchedulerStaticWorkloads.cpp:80-99 | lists within the limits bound what the live jobs take at every instant |
| Rules.AggregationConserves | src/common/RuleManager.cpp:69-81 | the OSS rates add up to throughput times number of OSTs, modulo 2^32 always and exactly when that fits |
| Rules.UniqueIsExact | src/common/RuleManager.cpp:69-81 | the list of unique IPs has no repetition and names exactly the IPs |
| Rules.RateExact | src/common/RuleManager.cpp:73-79 | an OSS rate is throughput times the number of OSTs behind it exactly when the product fits the word |
| Rules.FanOutOrderIrrelevant | src/common/RuleManager.cpp:95-120 | the final rules do not depend on the order in which the asynchronous calls complete |
| Rules.FanOutIsClosedForm | src/common/RuleManager.cpp:95-120 | any completion order ends in the accepted installs minus those cleaned up |
| Rules.SetRulesSucceedsIff | src/common/RuleManager.cpp:38-67 | success, and an entry for the job, iff the job is new, all IPs are known and all installs succeed |
| Rules.SetRulesInstalls | src/common/RuleManager.cpp:55-66 | after a success exactly the aggregated rates are in place at exactly the remembered OSSs |
| Rules.FailedSetRulesRestores | src/common/RuleManager.cpp:107-119 | a failed SetRules leaves all rules as they were iff the clean-up goes where installs succeeded, or none did |
| Rules.FailedSetRulesLeaves | src/common/RuleManager.cpp:38-120 | what a failed SetRules leaves, rule by rule, whatever was in place and whichever removals take effect; nothing at all changes without OSTs, for a job with rules, or with an unknown OST |
| Rules.RemovedRulesAre | src/common/RuleManager.cpp:122-133 | RemoveRules answers whether the job had rules, forgets them, and takes them away where the removals take effect; else nothing changes |
| Rules.SetThenRemoveRestores | src/common/RuleManager.cpp:122-133 | SetRules then RemoveRules is invisible, if removals take effect |
| Rules.OtherJobsUntouched | src/common/RuleManager.cpp:59 | neither touches a rule of another job, names being injective in the id |
| Rules.RuleIsNamedAfterJob | src/common/RuleManager.cpp:59 | the name of a rule is the fixed prefix and the job's id |
| Rules.SetRulesLeavesNoOrphans | src/common/RuleManager.cpp:95-120 | with the clean-up put right every rule in place stays one that the manager remembers |
| RuleStore.RuleManager.ComputeOssToMBsAndCountUnique | src/common/RuleManager.cpp:69-81 | the loop computes occurrence counts times throughput modulo 2^32, and the IPs without repetition |
| RuleStore.RuleManager.DetermineOstIps | src/common/RuleManager.cpp:83-93 | the IPs in order, or failure as soon as one is unknown |
| RuleStore.RuleManager.SetRulesAsync | src/common/RuleManager.cpp:95-120 | success iff every OSS asked takes its install; the remote rules afterwards, as the OSSs answer |
| RuleStore.RuleManager.SetRules | src/common/RuleManager.cpp:38-67 | the object's new state is that of the function the laws are about |
| RuleStore.RuleManager.RemoveRules | src/common/RuleManager.cpp:122-133 | the object's new state is that of the function the laws are about |
| Safety.StepKeepsLocked | src/common/JobMonitor.cpp:54-80 | the in-flight set is what the two threads hold, never the same id twice |
| Safety.StepKeepsActive | src/common/JobMonitor.cpp:184-268 | every step of either thread keeps the ACTIVE invariant, all five points as shipped or put right |
| Safety.ActiveJobsAreGuarded | src/common/JobMonitor.cpp:54-80 | in every run an ACTIVE job outside in-flight handling has its rules remembered and its stop event coming |
| Safety.StepMovesForward | src/common/JobMonitor.cpp:184-244 | no step moves a stored job's state backwards |
| Safety.LifeCycleOverRuns | src/common/JobMonitor.cpp:184-244 | over a whole run a stored job only moves along SCHEDULED, ACTIVE, DONE |
| Safety.StepAdvancesByOne | src/common/JobMonitor.cpp:184-244 | with the removal serialised no state is skipped |
| Safety.NoLeakedRules | src/common/JobMonitor.cpp:184-268 | with the removal serialised, rules are remembered for ACTIVE jobs and no others, and match the reservation |
| Events.StepNeverAddsEvents | src/common/JobMonitor.cpp:210-219 | only a submission makes an event; every step else passes it on or drops it |
| Events.ExactlyOneStop | src/common/JobMonitor.cpp:210-219 | an ACTIVE job outside in-flight handling has exactly one event, its stop at its end, if its id is submitted only while no event for it is pending |
| Events.EarlyReuseAddsOne | src/common/JobMonitor.cpp:47-53 | in every run the events of an id are at most one more than the times it was submitted while one was pending |
| Events.VanishedStays | src/common/Planner.cpp:144-160 | once nothing of a job is left, only a new submission changes that |
| Events.RemovalLeavesNothing | src/common/Planner.cpp:144-160 | when a serialised removal request is served, a requested id that was submitted only while no event for it was pending is out of schedule, queue and rules, whatever the monitor did meanwhile |
| Removal.UnblockedRemovalIsSafeIff | src/common/Planner.cpp:150-152 | right after the shipped removal unblocks an id: every continuation leaves nothing of it iff the monitor does not hold its start event for a job whose rules can be set |
| Removal.ShippedRemovalIsSafeIff | src/common/Planner.cpp:150-152 | the same over runs: at the unblocking of an id that was submitted with care and has not raced before, nothing will be left however the run goes on iff there is no race now |
| Removal.NoLeaksWithoutRace | src/common/JobMonitor.cpp:246-268 | with the shipped order, rules are remembered for an id exactly while its job is ACTIVE, if it was submitted with care and never raced |
| Removal.RemovalWithoutRace | src/common/Planner.cpp:144-160 | a removal request in either order: a requested id that did not race is in neither schedule nor rules, nor in the queue if it was submitted with care; the serialised order needs no care for the first part |
| Grants.LeavesByRequestOrAfterEnd | src/common/JobMonitor.cpp:66-69 | a stored reservation leaves only by request or by a stop event after its end, if its id was stored clear of stop events |
| Grants.RestIsClear | src/common/JobMonitor.cpp:47-80 | an id that is submitted only while no event for it is pending or being handled is always stored clear of stop events |
| Grants.GrantIsKept | src/common/JobMonitor.cpp:66-69 | a stored reservation whose id was stored clear of stop events stays stored and unchanged through any run until its end, unless its removal is asked for |
| Grants.SafeIsKept | src/common/JobMonitor.cpp:54-80 | from any state, with the queue in either form: a reservation stored when no stop event for its id is being handled or queued before its end is kept in every continuation |
| Grants.GrantIsKeptIff | src/common/JobMonitor.cpp:66-69 | for an id submitted only while no event for it was pending: a reservation about to be stored is kept in every continuation iff no stop event for the id is being handled at that moment |
| Grants.GrantIsKeptIffSafe | src/common/JobMonitor.cpp:54-80 | in every run, with the queue put right: a reservation about to be stored is kept in every continuation iff no stop event for the id is being handled or can be before its end |
| Reuse.StopDropsSuccessor | src/common/JobMonitor.cpp:66-69 | a run in which no event for the id is pending when it is submitted again, and a stop event being handled deletes the new reservation |
| Reuse.EarlyReuseLeavesTwoEvents | src/common/JobMonitor.cpp:196-219 | one early submission leaves an ACTIVE job with two events, so the bound of EarlyReuseAddsOne is met |
| Reuse.EarlyReuseLeavesTwoStops | src/common/JobMonitor.cpp:210-219 | with queue and erase put right, two early submissions with removals in between leave an ACTIVE job with two stop events |
| Reuse.EarlierStopTakesJob | src/common/JobMonitor.cpp:66-69 | from there the earlier one removes the job before its end, nobody having asked for it |
| InFlight.ForwardForAnyNumberOfCallers | src/common/JobMonitor.cpp:270-284 | for any number of callers an id is in flight exactly while one of them, and no other, is inside for it, and states only move forward |
| InFlight.MovesDoTheirWork | src/common/JobMonitor.cpp:184-284 | a free id can be blocked, a write moves the job that was seen one state on and no other, and unblocking leaves the id free |
| Capacity.StepKeepsCapacity | src/common/JobSchedulerStaticWorkloads.cpp:40-68 | checks already passed stay valid under any step of the monitor before the job is added |
| Capacity.NeverOverCapacity | src/common/JobSchedulerStaticWorkloads.cpp:40-99 | in every run in which no check is fooled by wrap-around, at every OST and every instant the live reservations stay within the limit |
| Capacity.FittingRequestsNeverFool | src/common/JobSchedulerStaticWorkloads.cpp:77 | requests that fit the word next to the limits never fool a check |
| Capacity.LoadNeverWraps | src/common/JobSchedulerStaticWorkloads.cpp:77-97 | in those runs no partial sum of the load loop wraps or passes the limit, and the final comparison decides as the real one iff it is not fooled |
| Capacity.ListsAlwaysExact | src/common/MemoryScheduleState.cpp:72-131 | with the erase put right the lists are exact in every run |
| Capacity.ListsAlwaysCover | src/common/MemoryScheduleState.cpp:72-131 | as shipped they are ordered and miss no live job in every run |
| Capacity.AdmissionIsExact | src/common/JobSchedulerStaticWorkloads.cpp:43-55 | in those runs, with exact lists, an unfooled check passes iff the OST has a limit that no instant would exceed |
| Capacity.AdmissionAgreesIff | src/common/MemoryScheduleState.cpp:118-128 | with the erase as shipped or put right, a check is right iff what the list carries leaves room or what the live jobs carry does not, and never lets an overload pass |
| Capacity.ExactForAllIffNothingStale | src/common/MemoryScheduleState.cpp:118-128 | in every reachable state the check on an OST is right for every request iff no stale entry with a positive throughput covers the clock |
| Capacity.ListedIsLiveAndStale | src/common/MemoryScheduleState.cpp:118-128 | what a list carries is the live load and the stale load together |
| Capacity.UnstoredCheckSafeIff | src/common/JobSchedulerStaticWorkloads.cpp:80-99 | with the load not stored, in every run: a check lets no overload pass, whatever the variable holds, iff the OST has no list, no limit, or real room |
| Capacity.UnstoredCheckRightIff | src/common/JobSchedulerStaticWorkloads.cpp:80-99 | and it is right, whatever the variable holds, iff the OST has no list or no limit, or the greatest limit there is and real room |
| Drain.DrainIsComplete | src/common/JobMonitor.cpp:156-181 | when a drain ends nothing queued is earlier than the clock, and ACTIVE jobs outside in-flight handling are running |
| Drain.DrainTerminates | src/common/JobMonitor.cpp:158-165 | without admissions a drain takes a bounded number of steps, whatever clock, OSSs and removals do |
| Drain.DrainNeverStuck | src/common/JobMonitor.cpp:54-60 | an unfinished drain can go on, or waits for a server that can go on |
| EndToEnd.ExchangeSums | src/common/RuleManager.cpp:50-57 | rates summed over jobs are bounded by loads summed over the OSTs behind the OSS |
| EndToEnd.PromiseKept | README.md:3 | the upper half: whenever a drain ends, the remembered rules at each OSS stay within the limits of its OSTs, but for an overdue job being removed |
| EndToEnd.OnlyRememberedRules | src/common/RuleManager.cpp:95-120 | in every run every rule in place is one that the manager remembers, if removals take effect |
| EndToEnd.AllRulesWithinLimits | src/common/RuleManager.cpp:50-66 | then all rules in place at an OSS, whoever set them, stay within the limits of its OSTs |
| Delivery.DueReservationsHaveTheirRules | README.md:3 | the lower half: whenever a drain ends, a stored reservation that has started is ACTIVE with its full rates in place, if each SetRules for it was accepted |
| Delivery.PromiseInFull | README.md:3 | both halves at once, at every end of a drain, the lower one for each job whose rules were accepted |
| Delivery.CooperatingOssAccept | src/common/RuleManager.cpp:38-67 | the rules of a job are always accepted if its own OSTs are known and its own OSSs accept |
| Stranded.StrandedForEver | src/common/JobMonitor.cpp:193-202 | a SCHEDULED job without an event stays so, resubmissions included, until its removal is asked for |
| Stranded.EverServedIffAccepted | src/common/JobMonitor.cpp:196-202 | at the SetRules of a job submitted with care: it can still become ACTIVE in some continuation iff its rules are accepted now |
| Stranded.DueServedIffAccepted | src/common/JobMonitor.cpp:184-222 | from a moment when the id is not stored, submitted with care and not asked to be removed: when a drain ends and it is due, it is served iff each SetRules for it was accepted, and stranded iff not |
| Stranded.RefusalStrands | src/common/JobMonitor.cpp:199-202 | whatever is put right, a run in which one refusal leaves an admitted job due and stranded at the end of a drain |
| Stretches.DueReservationIsServed | src/common/JobMonitor.cpp:184-222 | nine undisturbed steps turn a popped start into an ACTIVE job with rules in place and a stop queued |
| Stretches.DueStopIsHandled | src/common/JobMonitor.cpp:66-69 | six undisturbed steps turn a popped stop into a job that is gone with its rules |
| Departures.ShippedPushHidesDueEvent | src/common/JobPriorityQueue.cpp:40 | a later event pushed after an earlier one hides it from the drain guard |
| Departures.ShippedDownSkipsLoneChild | src/common/JobPriorityQueue.cpp:75-78 | the shipped Down leaves an earlier lone child below its parent |
| Departures.ShippedRemoveNeverRises | src/common/JobPriorityQueue.cpp:107 | a heap of six events that the shipped Remove breaks |
| Departures.ShippedLoadRightIff | src/common/JobSchedulerStaticWorkloads.cpp:89-98 | the value handed back without storing the load is right whatever the variable held iff the OST has no list |
| Departures.ShippedLoadOvercommits | src/common/JobSchedulerStaticWorkloads.cpp:89-98 | any two requests that fit alone but not together are both admitted in some run |
| Departures.ShippedEraseRefuses | src/common/MemoryScheduleState.cpp:120 | after a removal a request is refused although the schedule is empty |
| Departures.ShippedRemovalLeaks | src/common/Planner.cpp:150-152 | a run that ends idle with no job, no event, and the removed job's rules in place |
| Departures.WrappedSumOvercommits | src/common/JobSchedulerStaticWorkloads.cpp:77 | any two requests whose sum wraps to something within the limit are both admitted in some run, and the OST carries more |
| Departures.LeakIsForEver | src/common/Planner.cpp:150-152 | no later run takes such rules away or serves that id again |
| Orphans.ShippedCleanupLeavesOrphan | src/common/RuleManager.cpp:107-119 | a run that ends idle with a rule in place that the manager does not know, after one of two OSSs refused |
| Orphans.OrphanExceedsLimits | src/common/RuleManager.cpp:107-119 | a later job then ends a drain with more in place at that OSS than its OST has |
| Overdue.OverdueRemovalExceeds | src/common/Planner.cpp:144-160 | with all five points put right, a run that ends a drain above the limits because of an overdue job being removed |
| Monitor.TurnKeepsSettled | src/common/JobMonitor.cpp:158-165 | a turn of the drain loses no ACTIVE job's rules or stop event |
| Monitor.TurnLowersPending | src/common/JobMonitor.cpp:158-165 | a turn lowers twice the queued starts plus the queued stops |
| Monitor.DrainLeavesNothingDue | src/common/JobMonitor.cpp:156-181 | after a drain nothing queued is due and every ACTIVE job is within its time |
| Monitor.StartOutcome | src/common/JobMonitor.cpp:184-222 | StartJob says yes iff the job is SCHEDULED without rules and its OSTs are known and accepted; then it is ACTIVE with its stop queued at its end, else schedule, queue and remembered rules are unchanged |
| Monitor.StopOutcome | src/common/JobMonitor.cpp:224-244 | StopJob says yes iff the job is ACTIVE; then it is DONE and its rules are forgotten and gone where removals take effect, else nothing changes |
| Monitor.TurnServesDueStart | src/common/JobMonitor.cpp:156-165 | a turn of the drain with the due start of a SCHEDULED job that is accepted leaves it ACTIVE, its rates in place and its stop queued |
| Monitor.TurnFinishesDueStop | src/common/JobMonitor.cpp:66-69 | a turn with a due stop takes the job off the schedule and changes no other; rules go iff it was ACTIVE |
| Monitor.DrainServesWhatIsDue | src/common/JobMonitor.cpp:156-181 | after a drain no accepted job still waits for a due start, and an ACTIVE one is within its time with its rates in place |
| Monitor.RestoredEvents | src/common/JobMonitor.cpp:99-129 | what Init queues: each SCHEDULED job's start at its start, each ACTIVE job's stop at its end, each once, and nothing for any other job |
| Monitor.RestoredBooksAreSettled | src/common/JobMonitor.cpp:99-129 | so after Init the drains find what they rely on |
| Monitor.HandleStepByStep | src/common/JobMonitor.cpp:54-80 | left alone, the stepping monitor does exactly what Handle does |
| Monitor.TurnStepByStep | src/common/JobMonitor.cpp:158-165 | left alone at its guard, the stepping monitor does exactly what a turn of the drain does |
| Monitor.DrainStepByStep | src/common/JobMonitor.cpp:156-165 | and over a whole drain, the clock moving on, exactly what the drain does |
| Monitor.JobMonitor.Handle | src/common/JobMonitor.cpp:54-80 | blocks, starts or stops and removes the job, unblocks; waits and changes nothing while the id is in flight |
| Monitor.JobMonitor.StartJob | src/common/JobMonitor.cpp:184-222 | false and nothing but perhaps rules changed, or rules set, job ACTIVE, stop queued |
| Monitor.JobMonitor.StopJob | src/common/JobMonitor.cpp:224-244 | an ACTIVE job becomes DONE and its rules are removed; any other job is refused |
| Monitor.JobMonitor.SetNrsRules | src/common/JobMonitor.cpp:296-312 | SetRules with the stored throughput and OSTs |
| Monitor.JobMonitor.RegisterJob | src/common/JobMonitor.cpp:47-53 | queues the start event |
| Monitor.JobMonitor.BlockJob | src/common/JobMonitor.cpp:270-277 | a free id becomes in flight; for one in flight the caller waits |
| Monitor.JobMonitor.UnblockJob | src/common/JobMonitor.cpp:279-284 | the id is free again |
| Monitor.JobMonitor.RemoveJobFromPrioQueue | src/common/JobMonitor.cpp:286-294 | takes the id's first event out of the queue, if there is one |
| Monitor.JobMonitor.IsThereAReadyJob | src/common/JobMonitor.cpp:178-181 | whether the front event is earlier than the clock |
| Monitor.JobMonitor.UnregisterJob | src/common/JobMonitor.cpp:246-268 | dequeues, and stops the job if it is ACTIVE; no answer and no change while the id is in flight |
| Monitor.JobMonitor.FillWithExistingJobs | src/common/JobMonitor.cpp:99-129 | the events that RestoredEvents spells out are queued, each once, and nothing else; a min-heap stays one |
| Monitor.JobMonitor.Drain | src/common/JobMonitor.cpp:156-165 | terminates, turn by turn as its guard reads the clock and the OSSs answer, and leaves the guard false, or waits for the id of the event it has just popped |
| Scheduler.AdmittedIff | src/common/JobSchedulerStaticWorkloads.cpp:40-68 | a request is admitted iff its id is fresh and no OST would be overloaded at any instant |
| Scheduler.AdmittedKeepsLimits | src/common/JobSchedulerStaticWorkloads.cpp:40-68 | an admission keeps the live jobs within the limits, with exact or merely covering lists |
| Scheduler.AdmittedAnswersTruly | src/common/JobSchedulerStaticWorkloads.cpp:57-67 | in every configuration: yes iff the fresh job is stored; a no changes nothing, and a yes adds the job, its list entries and its start event, each once |
| Scheduler.ScheduleStepByStep | src/common/JobSchedulerStaticWorkloads.cpp:40-68 | left alone, the stepping server does exactly what ScheduleJob does, whatever the variables held before each check |
| Scheduler.JobSchedulerStaticWorkloads.CheckOsts | src/common/JobSchedulerStaticWorkloads.cpp:43-55 | true iff every OST passes; with the load stored, whatever the variables held |
| Scheduler.JobSchedulerStaticWorkloads.ScheduleJob | src/common/JobSchedulerStaticWorkloads.cpp:40-68 | refuses and changes nothing, or answers yes for a fresh id, adds the job and queues its start |
| Scheduler.JobSchedulerStaticWorkloads.GetMaxLoadInTimeInterval | src/common/JobSchedulerStaticWorkloads.cpp:80-99 | what is left in the caller's variable: zero, the 32-bit sum, or as shipped what was there |
| Scheduler.JobSchedulerStaticWorkloads.AreEnoughResAvail | src/common/JobSchedulerStaticWorkloads.cpp:70-78 | an OST without limit has no room; else the 32-bit comparison |
| Scheduler.JobSchedulerStaticWorkloads.RemoveJob | src/common/JobSchedulerStaticWorkloads.cpp:101-111 | unregisters and removes a known job, refuses an unknown one; no answer and no change while the id is in flight |
| Scheduler.JobSchedulerStaticWorkloads.UpdateLimits | src/common/JobSchedulerStaticWorkloads.cpp:115-118 | the limits are exactly the new ones |
| Planner.OstSetMembers | src/common/Planner.cpp:128-141 | the OST set holds exactly the OSTs of the files |
| Planner.AskedOsts | src/common/Planner.cpp:123-141 | the reservation names each OST of each file, and names it once |
| Planner.AskedInterval | src/common/Planner.cpp:105-109 | instant by instant: with a positive duration exactly the asked-for seconds from now on are covered, without one everything up to the clock's last instant |
| Planner.AskedSeconds | src/common/Planner.cpp:105-109 | second k is covered iff it is not past the duration, and the next instant is not covered |
| Planner.AskedThroughput | src/common/Planner.cpp:121 | the throughput reserved is the one asked for, or greater by 2^32 if that is negative |
| Planner.OrdinaryRequestsFit | src/common/Planner.cpp:121 | a non-negative throughput against limits up to 2^31 fits the word |
| Planner.NegativeThroughputWraps | src/common/Planner.cpp:121 | a negative throughput passes the check of an OST that carries at least its amount, which is thereby fooled |
| Planner.NegativeRequestOvercommits | src/common/Planner.cpp:121 | a run in which such a request is granted and the OST carries more than its limit |
| Planner.SubmissionGrantedIff | src/common/Planner.cpp:93-115 | a submission is granted iff its id is new and no OST of its files would be overloaded at any instant |
| Planner.OrdinarySubmissionGrantedIff | src/common/Planner.cpp:93-126 | so it is for every request with a throughput that is not negative, next to limits up to 2^31 |
| Planner.RemovedAllForgets | src/common/Planner.cpp:144-160 | a served removal request leaves nothing of any requested job |
| Planner.RemoveStepByStep | src/common/Planner.cpp:144-160 | left alone, the stepping server does exactly what ServeJobRemove does, whichever removals take effect and in either order of unblocking and erasing |
| Planner.Planner.TryComputeOstSetOfRequest | src/common/Planner.cpp:128-141 | fails iff some file is unknown, else the set of all OSTs |
| Planner.Planner.BuildJob | src/common/Planner.cpp:117-126 | a fresh job with the request's id, interval and throughput as a 32-bit word, and each OST once |
| Planner.Planner.ServeJobSubmission | src/common/Planner.cpp:93-115 | nothing for no files, failure without reply code for unknown files, else the scheduler's answer; reply code 0 only with the asked-for reservation stored under a new id, any other outcome changes nothing |
| Planner.Planner.ServeJobRemove | src/common/Planner.cpp:144-160 | ids are unregistered and removed in order, up to the first one in flight, for which it waits; success when all are done |
| Floats.FloatCheckAgreesIff | src/common/JobSchedulerStaticWorkloads.cpp:77 | the comparison in single precision decides as the numbers do, except when a sum beyond the limit is rounded to the same float; it never refuses what fits |
| Floats.FloatCheckRightIff | src/common/JobSchedulerStaticWorkloads.cpp:77 | it is right for every sum iff the successor of the limit is rounded to something greater |
| Floats.FloatCheckIsTheCheck | src/common/JobSchedulerStaticWorkloads.cpp:70-78 | for limits below 2^24 it is the check of the model, wrapped sums included |
| Floats.FirstLimitMissed | src/common/JobSchedulerStaticWorkloads.cpp:77 | with a limit of 2^24 a sum one greater passes |
| Floats.ToFloatIsNearest | src/common/JobSchedulerStaticWorkloads.cpp:77 | the rounding is the one of IEEE 754: to a number of 24 significant bits, no other being nearer, and the even one of two that are equally near |

## Left out

- The network server, message parsing, remote execution of `lctl` and `lfs`, logging and configuration files: the decoded request, Lustre's answers, the clock and the outcome of each rule call are parameters.
- `OstIdsConverter` and `OstIpsCache`: a fixed partial map from OST to IP stands for both.
- `ServeListJobs` with its regular expression and formatter, `JobSchedulerDynWorkloads` and the cluster state, which the planner does not wire in: they would only add easy members.
- Scheduler.JobSchedulerStaticWorkloads.AreEnoughResAvail: compares with the limits as 32-bit numbers, as `UpdateLimits` takes them; the source compares in single precision, which for limits below 2^24 is the same (FloatCheckIsTheCheck) and beyond is not part of the machine.
- Time is unbounded: adding a duration to the clock does not overflow.
- Interleavings are modelled on values (`Engine`), not on the classes: a method of a class runs with nobody else inside, and returns without an answer where it would have to wait for an id.
- Data races: a step reads an OST list or changes the rule map as a whole, and the list handed out by `GetOSTState` does not change while it is read.
- `SetRulesAsync`: the class makes its calls one after the other; that the order of completion is irrelevant is a lemma on values.
- The wait of the monitor between two drains, thread start and join, and the exit flag.
- The branch of `ScheduleJob` for a failing `RegisterJob` cannot be taken, since RegisterJob always succeeds; the rollback it would do is `RollbackRestores`.
- `GetClusterState`, which nothing in the engine calls.
- Indices of the heap and sizes of the lists do not overflow `int`.
- The memory of removed jobs and popped events, which the source partly leaks, is not modelled.
- DrainTerminates: is stated without admissions between two wake-ups, because a steady stream of due submissions can keep a drain going for ever.
- ExactlyOneStop: asks that the id is submitted only while no event for it is pending; EarlyReuseAddsOne says what early submissions add, and at least one stop is guaranteed by ActiveJobsAreGuarded.
- DueServedIffAccepted: asks that the id is submitted only while no event for it is pending; without that a second start event can serve a job that was refused.
- GrantIsKeptIffSafe: asks for the queue put right, because as shipped a stop event can stay hidden behind later ones; that safe means kept is proved without it, in SafeIsKept.
- NeverOverCapacity: asks that no check of the run is fooled by wrap-around; NegativeRequestOvercommits shows that it must.
- AdmissionIsExact: asks the same of the check in question.
- RemovalLeavesNothing: asks that the id is submitted with care; RemovalWithoutRace says what holds without it.
