# Core harvesting and its load harness: a verified model

The system lends idle cores of latency-critical containers (Primaries) to batch
containers (Secondaries). A *Balancer* process reads a mask of active CPUs,
adapts per Primary how many cores are to stay idle, picks the cores to lend, and
asks for a rebalance by raising a flag in a shared block. A *Monitor* in the
kernel publishes the mask and serves the flag by moving Secondary tasks
(`twopa`). A *Listener* fills container slots while both are running. A load
generator and server (`harness/`) measure request latencies, and two small
programs account for core time. This project models these parts and proves what
they keep.

| module | what it is |
|---|---|
| `Sets`, `Requests`, `MaskLog` | facts about sets and sequences; the request record; the log of idle-mask changes |
| `Selection`, `Controller`, `Rebalance` | one Primary: core selection, the target controller, what a rebalance does to it |
| `Harvester`, `Rounds`, `StaleSpare` | all Primaries: the polling loop as a transition system, its invariants over whole runs, one round seen from a Primary, a run with a stale spare count |
| `History` | the controller over whole runs as a function of the samples, without its counter, flag and running average |
| `BalancerSteps`, `Balancer` | the Balancer's functions as methods of a class over its globals, an array and its loops, each proved to compute a step of `Harvester` |
| `Handshake`, `LostStop` | Balancer, Monitor, Listener and stop signal, one shared access per step; what a lost stop request can break, and exactly when |
| `Publication`, `Listener` | container slots written field by field and published; the Listener's request handlers |
| `Placement`, `PidCache`, `Monitor` | the two-phase placement and the pid caches, on values and as the Monitor's loops |
| `Phases` | which requests make the Monitor place tasks one by one |
| `EndToEnd` | from the Balancer's state to the affinity of every Secondary task |
| `System`, `Causes` | `Handshake` and `Harvester` as one transition system, whose choices are made by registered Primaries; what a lost stop request leads to there |
| `Ledger`, `Threads`, `Measurements`, `Harness` | the integrated server: critical sections, all interleavings of its threads, what the samples measure, the object |
| `Framing`, `Sockets`, `RoundRobin`, `Networked` | request and response framing over partial reads and writes, the round-robin receiver |
| `ExecTime`, `LogParser` | time per core and time per number of active cores |

Where the source loops or updates in place there is a method with its loop, proved
against a function on values; the statements about all inputs and all runs are
lemmas about those functions.

## Standing assumptions

- A registration lists each CPU once, with ids below 64, shares no CPU with another
  Primary, and has `LOW_TIC <= targetIdleCores <= static_targetIdleCores <=
  totalEligibleCores`, where `totalEligibleCores` is the number of CPUs listed
  (`Controller.CtrOk`, `Harvester.RequestOk`). `Harvester.RegisterKeeps` shows that
  the invariant holds after a registration exactly when this is met. `LOW_TIC` is the
  Balancer's own; the one in a container's slot is not read by the Balancer.
- Memory is sequentially consistent. Elapsed times, clock readings, the idle mask,
  what the kernel shows of a task, the results of `select`, and how many bytes a
  system call moves are inputs.
- `float` and `double` are reals. CPU masks are sets of CPU ids.

## What does not hold

Each of these is stated with an input that shows it, or with the exact condition.

- A Primary short of idle cores can have more cores taken from it: a skipped
  harvest leaves the spare count of an earlier sample in place
  (`StaleSpare.ShortPrimaryLosesACore` is a run; `Rounds.RoundTakesFromShortExactly`
  says when).
- The Listener reads `balancerControl` and writes it in two steps, so a stop request
  that arrives in between is overwritten. If a request had been given up with its
  flag raised, the Balancer can then return from a later request that `twopa` never
  served, wherever the Monitor is (`LostStop.OverwriteLosesExactly`: if and only if;
  `LostStop.LosingReturnsUnserved` is a run), and, unless `twopa` had finished with the
  flag, rewrite the affinity list under a running `twopa`
  (`LostStop.OverwriteBreaksExactly`: if and only if;
  `LostStop.OverwritingBreaksTwopa` is a run). One registered Primary is enough for
  both (`Causes.OnePrimaryLosesRequest`, `Causes.OnePrimaryDisturbs`). All runs are free
  of both if and only if reading and writing are one step (`LostStop.ServedIffAtomic`,
  `LostStop.StableIffAtomic`).
- A round does not always leave a Primary with its idle target, or with all eligible
  cores where they are fewer: a skipped harvest, or lent cores that are idle, can
  prevent it (`Rounds.RoundRestoresTargetExactly` says when).
- `twopa` compares a stale word behind the live list before it wraps around, so a
  task can be sent off the list (`Placement.LeavesTheListExactly`,
  `Placement.SecondContainerLeavesTheList`), and it does not look where it wraps to,
  so a task can be sent to the CPU it is on (`Placement.SendsHomeExactly`,
  `Placement.SecondContainerSendsHome`). Phase 2 repairs both for live tasks.
- Phase 1 counts placements when it decides that every listed core has a task, also
  those of tasks left in place on other CPUs. The decision is right if and only if no
  placement was wasted (`Placement.StopsRightlyExactly`;
  `Placement.StopsBeforeEveryListedCoreHasATask` is a run).
- A container whose parent process is gone costs the next container its cache
  refresh (`PidCache.UpToDateExactly`; `PidCache.GoneParentCostsTheNext` is an input),
  and a cache of the right size is not looked at: a task that has taken another's place
  is not placed (`PidCache.ReplacedTaskStaysCached`).
- A request with an empty payload is read as a disconnect
  (`Framing.RoundTripExactly`, `Framing.SessionRoundTripExactly`). `recvfull` never
  returns -1, so a receive error before the first byte of a header or payload is read
  as one, too, and one after it ends the server (`Framing.ReadExactly`;
  `Framing.ErrorReadsAsDisconnect` is an input).
- A failed receive in the networked client returns with its lock held
  (`Sockets.NetworkedClient.Recv`).
- A pod starts the Balancer only if all of its containers can be looked through,
  although its launchers join in any case (`Listener.Process.HandleSecondary`).
- Without a warmup the measured region never begins and nothing is sampled
  (`Threads.NoWarmupNoSamples`); the assertion on the service time fails exactly
  when the clock has not advanced over a service (`Threads.FailsIffStalled`;
  `Threads.StandingClockFails` is a run).
- A rebalance can leave more cores lent than `maxSecondaryCores`
  (`StaleSpare.LentAboveMaximum` is a run; `Rounds.RoundExceedsMaximumExactly` says
  when); the bound that is kept is
  `totalEligibleCores - LOW_TIC` (`Harvester.ReserveKept`).

## Model

| member | source | states |
|---|---|---|
| Harvester.ReserveKept | Balancer/main.c:57-105 | in every reachable state LOW_TIC cores of each Primary are outside mask and published list; target between LOW_TIC and static, max + target = total, a stale spare count never above total - LOW_TIC |
| Harvester.RepresentationsAgree | Balancer/balancer.c:115-148 | in every reachable state the published list is the canonical, duplicate-free enumeration of the mask and the per-Primary counts are its shares |
| Harvester.ControllerHistory | Balancer/main.c:136-179 | over any run: `deficits` is the 0.85-weighted geometric sum of the windows and within their bound; `lowIdleFreq` within the elapsed time; ramp-up never past its first step, ACBF bounds at their initial values |
| History.RecordsFollowSamples | Balancer/main.c:136-218 | in every run both records of every Primary are functions of its registration, the idle counts sampled and the times between them: target, maximum, window in progress, smoothed deficit, hysteresis counter and flag |
| History.TargetMoves | Balancer/main.c:136-179 | every window: with the weighted sum of the windows over the length of this one above the threshold the target rises by one, up to the static one; otherwise it falls by one, down to LOW_TIC, if ten windows have been waited out since it fell (or it never has), or none and the rate is at most 0.66 of the threshold; else it stays. Nothing else in the registration changes but the maximum with it |
| History.WindowsAreSamples | Balancer/main.c:193-212 | which samples a window covers, up to the first with which it lasts a second, and that its `lowIdleFreq` is the time of those that follow a sample without an idle core, or of all if the target before the last move was one |
| History.HysteresisBound | Balancer/main.c:143-167 | over any run: 11 times the falls with ten windows waited out is at most the windows that did not exceed the threshold + 10 |
| Harvester.Reachable | Balancer/main.c:228-311 | registrations, samples and rebalances in any order keep the invariant |
| Harvester.RegisterKeeps | Listener/listener.cpp:147-157 | a registration keeps the invariant if and only if it is well-formed and its CPUs are nobody else's |
| Harvester.AllocateKeeps | Balancer/balancer.c:115-148 | a rebalance keeps mask, list and counts in step, also when the request is skipped |
| Harvester.AllocateKeepsLists | Balancer/balancer.c:142-145 | if the mask comes out unchanged the list already published is the new one, so skipping the request publishes nothing wrong |
| Harvester.EvaluateKeeps | Balancer/main.c:220-226 | evaluating a sample for all Primaries keeps the invariant |
| Harvester.TriggerExact | Balancer/main.c:298-309 | differences of opposite sign never cancel: a nonzero sum implies a nonzero count of requests |
| Harvester.LateArrivalLendsNothing | Balancer/balancer.c:125-127 | a Primary registered between evaluation and allocation contributes no core and changes nothing for the others |
| Harvester.HistoriesReachable | Balancer/main.c:181-218 | every Primary's account of its windows holds in every run, whatever is registered |
| Selection.PicksCount | Balancer/balancer.c:62-87 | as many cores are picked as are spare, or all eligible ones if fewer |
| Selection.PicksHighest | Balancer/balancer.c:69-86 | no eligible core above a picked one is passed over |
| Selection.PicksUnique | Balancer/balancer.c:69-86 | number, eligibility and highest-first leave no choice: they determine the set picked |
| Selection.PicksDescending | Balancer/balancer.c:69-86 | the order of the list is fixed by its set: descending position |
| Rebalance.RestoresTarget | Balancer/main.c:69-104 | after a harvest that is not skipped the eligible cores left are min(target, allocated + idle), short by at most the lent cores that were idle; the upper clamp does not bind if there are none |
| Rebalance.RestoresTargetExactly | Balancer/main.c:57-105 | every evaluation: min(target, eligible) cores are left if and only if, with the harvest skipped, the old spare count lends as many as eligible exceeds target, and, with it not skipped, no lent core was idle, allocated + idle is within the target, all CPUs are eligible, or the target is none or all of them. With no lent core idle only a deficit is skipped |
| Rebalance.OnTargetUndisturbed | Balancer/main.c:69-104 | a Primary on target lends as many cores as before |
| Rebalance.DeficitLendsMoreExactly | Balancer/main.c:61-67 | when a Primary short of idle cores lends more |
| Rebalance.CountIdleIsSize | Balancer/main.c:183-189 | the idle count is the number of the Primary's CPUs that are not active |
| Rounds.RoundRestoresTarget | Balancer/main.c:298-309 | one sample and rebalance restore the idle target of every Primary not skipped, whatever the others do |
| Rounds.RoundRestoresTargetExactly | Balancer/main.c:57-105 | the same over one sample and rebalance of all Primaries, in terms of the spare count before it |
| Rounds.RoundKeepsOnTarget | Balancer/main.c:298-309 | a Primary on target keeps its harvested count when another triggers |
| Rounds.RoundTakesFromShortExactly | Balancer/main.c:61-67 | a round takes more from a short Primary if and only if its harvest is skipped at the minimum, a larger spare count is left over, and an unlent core of it is idle |
| Rounds.RoundExceedsMaximumExactly | Balancer/main.c:61-74 | a round leaves more than the maximum lent if and only if the harvest is skipped, the spare count left over exceeds the maximum and enough cores are eligible |
| Rounds.ShareOfRound | Balancer/balancer.c:69-87 | what the new mask takes from a Primary is exactly what was picked from it |
| Rounds.RebalanceIffOffTarget | Balancer/main.c:57-105 | a sample leads to a rebalance if and only if for some Primary the number of its idle cores is not the target, and it is not above it with the maximum lent or below it with the minimum lent; counts of sets of cores, target and maximum after the window |
| Rounds.IterationExactly | Balancer/main.c:282-309 | an iteration on a new mask reallocates if and only if there is such a Primary, and otherwise only updates the records |
| Rounds.ShortPrimaryIsServed | Balancer/main.c:57-105 | a Primary short of idle cores and not at its minimum gets a reallocation with the next new mask, and with it its target, or all eligible cores, unless lent cores were idle |
| StaleSpare.LentAboveMaximum | Balancer/main.c:140-176 | a well-formed run in which a window raises the target and lowers the maximum to three while the harvest is skipped with a spare count of four: four cores are lent after it |
| StaleSpare.ShortPrimaryLosesACore | Balancer/main.c:61-67 | a well-formed run in which a Primary with one idle core and a target of two has a fourth core taken |
| Controller.AdjustKeepsHistory | Balancer/main.c:136-179 | closing a window keeps the geometric sum |
| Controller.DeficitsBounded | Balancer/main.c:138 | the smoothed deficit never leaves the range of the windows seen |
| Controller.EvaluateKeepsCtr | Balancer/main.c:181-218 | an evaluation keeps a registration's bounds and the bound on the spare count |
| Balancer.Process.constructor | Balancer/main.c:358-407 | the globals start as the initial state of the transition system |
| Balancer.Process.DoObserve | Balancer/main.c:107-134 | the ramp-up step |
| Balancer.Process.DoAdjust | Balancer/main.c:136-179 | the adjusted records, with the window and its move in the log |
| Balancer.Process.DoHarvest | Balancer/main.c:57-105 | the harvested record, the Primary's part in the sum, and its vote: for a surplus below the maximum or a deficit above the minimum |
| Balancer.Process.EvaluatePrimaryContainer | Balancer/main.c:181-218 | one evaluation |
| Balancer.Process.EvaluateContainers | Balancer/main.c:220-226 | the loop evaluates every registered Primary and adds up differences and votes |
| Balancer.Process.ComputeSecondaryAffinityMask | Balancer/balancer.c:57-89 | the scan appends exactly the picks to the list, the mask and the counts, and nothing else changes in the list |
| Balancer.Process.PickFromAll | Balancer/balancer.c:117-127 | list, mask and counts rebuilt from all Primaries, within the array |
| Balancer.Process.Publish | Balancer/balancer.c:129-147 | which action is asked for, by the lengths of the lists, and that nothing is asked for exactly when a nonempty mask is unchanged |
| Balancer.Process.AllocateCoresToSecondary | Balancer/balancer.c:115-148 | the live list is the canonical one and its length the published count, requested or not |
| Balancer.Process.InitialRebalance | Balancer/main.c:257-259 | the rebalance before the first sample asks for an empty list and changes nothing else |
| Balancer.Process.PollOnce | Balancer/main.c:270-310 | one iteration is one evaluation and one allocation of the transition system, the latter if and only if a Primary is off target as in `Rounds.IterationExactly`; makes at most one request, logs the mask change, and does nothing on an unchanged mask |
| Balancer.Process.LogMaskChange | Balancer/main.c:282-290 | the log stays chained: each old mask is the new mask before |
| Balancer.Process.RegisterPrimary | Listener/listener.cpp:147-157 | a well-formed registration is one step of the transition system and keeps the loop-head invariant |
| Handshake.AcknowledgedMeansServed | Balancer/balancer.c:31-49 | in every interleaving that overwrites no stop request while a request is given up: each request that returned without having seen -1 was served, between its flag raised and its return, by exactly one run of `twopa` over exactly its list; the waits are in order |
| Handshake.NothingMovesUnderTwopa | Monitor/monitor.c:304-310 | in these runs no step of any thread changes the list, its length or the flag while `twopa` runs |
| Handshake.Reachable | Balancer/main.c:233-274 | the protocol invariant over all these interleavings |
| Handshake.AheadByOneAtMost | Balancer/balancer.c:31-49 | if no stop request is overwritten at all, the runs of `twopa` are those acknowledged and at most one more |
| Handshake.AtomicIsCareful | Listener/listener.cpp:135-136 | with one step no run overwrites a stop request |
| Handshake.PausedWaits | Balancer/main.c:233-235 | in every run, until the control word is set the Balancer waits at its start: no flag raised, nothing listed, acknowledged or served |
| Handshake.HoldsBack | Balancer/balancer.c:33-36 | while `updatingPids` is up a request is not raised, whatever Balancer, Monitor and signals do |
| Handshake.StopStays | Listener/listener.cpp:135-136 | a stop that arrives while the Listener is not between its reading and its writing is never lost |
| Handshake.StartsOnce | Listener/listener.cpp:135-136 | in every run the Listener is never about to start a Balancer that it has started |
| Handshake.StopEnds | Balancer/balancer.c:31-49 | from wherever a stop finds the Balancer in a run, it ends within eight of its own steps once its scan lists no more cores, whatever the other threads do, unless the stop is overwritten |
| LostStop.OverwriteLosesExactly | Listener/listener.cpp:135-136 | no stop having been overwritten with a request given up before, the run can go on after one overwritten now to a request that returns with no run of `twopa` since its flag was raised if and only if a request is given up at that step, wherever the Monitor is |
| LostStop.LosingReturnsUnserved | Balancer/balancer.c:38-41 | a run, with the stop overwritten between `twopa` and the clearing of its flag, in which a request for core 6 returns and `twopa` has only run for the empty list |
| LostStop.ServedIffAtomic | Listener/listener.cpp:135-136 | in all runs every request that returns was served if and only if the control word is read and set in one step |
| LostStop.OverwriteBreaksExactly | Listener/listener.cpp:135-136 | likewise it can go on to a state in which the list has changed under `twopa` if and only if a request is given up at that step and `twopa` has not finished with it |
| LostStop.StableUnlessAbandoned | Balancer/balancer.c:31-49 | every run that overwrites no stop request in that situation keeps the list still under `twopa` |
| LostStop.OverwritingBreaksTwopa | Listener/listener.cpp:135-136 | a run in which a stop request is lost after the initial, empty request was given up, and the next sample rewrites the list under `twopa` |
| LostStop.StableIffAtomic | Listener/listener.cpp:135-136 | all runs keep the list still under `twopa` if and only if the control word is read and set in one step |
| Publication.PublishedWhole | Listener/listener.cpp:147-157 | in every interleaving a slot below the count is a whole registration, as the Balancer reads it (but for the maximum while the Balancer itself moves the target); pid counts stay within 128 |
| Publication.WritersApart | Listener/getpids.c:58-61 | the Listener writes no published slot, the Balancer and the Monitor no other, and publication is for good |
| Publication.Reachable | Listener/listener.cpp:31-46 | the slot invariants over all interleavings |
| Listener.Process.ParseCpuList | Listener/listener.cpp:31-46 | the CPUs land in the next slot in order, with their number |
| Listener.Process.HandlePrimary | Listener/listener.cpp:138-158 | the slot published is the whole request, with the maximum complementary to the target; no other slot changes |
| Listener.SearchExactly | Listener/getpids.c:30-73 | the first task that is not another program decides: the launcher is found, an unreadable one fails; with none there is no launcher |
| Listener.Process.GetContainerTasks | Listener/getpids.c:21-74 | the first launcher joins unless an entry before it cannot be read; `updatingPids` is down on every way out |
| Listener.Process.GetContainers | Listener/getpids.c:77-100 | the launchers of all containers join in order; the result counts the failures |
| Listener.Process.HandleSecondary | Listener/listener.cpp:128-137 | a paused Balancer is started exactly when no container fails |
| Placement.TwoPhaseGivesTheUnion | Monitor/monitor.c:143-240 | whatever phase 1 did, also with a pid in several caches: a task that phase 2 of a container finds alive ends with exactly dedicated + listed cores if there are any, unless phase 1 of a later container sees it running; a task in no cache is unchanged, and with no core and no phase 1 every task is |
| Placement.OneTaskInPlacePerCpu | Monitor/monitor.c:150-206 | over all containers at most one runnable task stays per CPU, and a task moves only off a CPU that an earlier placement gave a task |
| Placement.PlacesExactly | Monitor/monitor.c:149-172 | single placements are made if and only if the action is 1 and some task is seen running |
| Placement.StopsExactly | Monitor/monitor.c:151-204 | phase 1 places every task seen running until it stops, and stops exactly with the placement that makes as many as there are listed cores, if that is a move in this container |
| Placement.MovedIsPinned | Monitor/monitor.c:186-196 | phase 1 pins each task to the CPU of its last move and touches no other affinity |
| Placement.FirstLapSpreads | Monitor/monitor.c:180-205 | first container, before the cursor first reaches the end: targets on the live list, pairwise distinct, never a task's own CPU |
| Placement.LeavesTheListExactly | Monitor/monitor.c:182-188 | over a whole run some task is sent to a slot behind the live list if and only if a move is made with the cursor at the end and the stale word there naming the CPU the task is on |
| Placement.StopsRightlyExactly | Monitor/monitor.c:202-204 | whenever phase 1 has stopped, in whichever container: every listed core has a task if and only if every placement so far was on a listed core that no earlier one was on |
| Placement.StopsBeforeEveryListedCoreHasATask | Monitor/monitor.c:202-204 | a run of phase 1 that stops although a listed core has no task, against the source's comment |
| Placement.SendsHomeExactly | Monitor/monitor.c:180-188 | over a whole run, which moves send a task to the CPU it is on, for every place of the cursor |
| Placement.SecondContainerSendsHome | Monitor/monitor.c:182-188 | from the second container on a task on the first listed CPU can be sent to that CPU |
| Placement.SecondContainerLeavesTheList | Monitor/monitor.c:182-188 | from the second container on a stale word can send a task off the list |
| Placement.RunAccounted | Monitor/monitor.c:173-200 | marks, placement count and placements agree throughout a run |
| PidCache.CacheAfter | Monitor/monitor.c:72-141 | a cache is the first 128 pids of the control group after the first loop if the number of parentless containers directly before is even and the group is neither empty nor as large as the cache, and what it was otherwise |
| PidCache.UpToDateExactly | Monitor/monitor.c:114-141 | which caches have the right size after the first loop, and which the right pids; all within 128 |
| PidCache.GoneParentCostsTheNext | Monitor/monitor.c:114-141 | a container without its parent and one with a task: the second keeps its empty cache |
| PidCache.ReplacedTaskStaysCached | Monitor/monitor.c:133-136 | a container with one task, replaced by another: the cache keeps the old one |
| Monitor.Process.UpdatePidCache | Monitor/monitor.c:72-95 | the first 128 pids and their number, nothing without one |
| Monitor.Process.RefreshCaches | Monitor/monitor.c:114-141 | the loop refreshes exactly the containers it comes to |
| Monitor.Process.PhaseOne | Monitor/monitor.c:150-207 | the loop computes phase 1 for one container, early exit included |
| Monitor.Process.FullMask | Monitor/monitor.c:212-220 | dedicated and listed cores |
| Monitor.Process.PhaseTwo | Monitor/monitor.c:223-239 | the loop computes phase 2 for one container |
| Monitor.Process.Twopa | Monitor/monitor.c:97-243 | refreshed caches, then both phases for every container |
| Monitor.Process.ServeRequest | Monitor/monitor.c:304-310 | a raised flag is served once and cleared, otherwise nothing happens |
| EndToEnd.SecondaryStaysOffTheReserve | Monitor/monitor.c:209-239 | in every reachable state of the Balancer `twopa` leaves a Secondary task that it last finds alive, also one in several caches, with the dedicated cores and the mask in force, and LOW_TIC cores of every Primary out of its reach |
| EndToEnd.HandshakeCarriesRequests | Balancer/balancer.c:129-147 | with the list written, the step of the handshake at the end of a scan makes exactly the request, or none, that the allocation decides on |
| EndToEnd.LastRequestIsPublished | Balancer/balancer.c:142-147 | in every reachable state the published list is the one last asked for, so skipping the request never leaves the Monitor with another list; every list asked for fits the slots, with action 3 if it is empty, 2 if it is shorter than the one asked for before, 1 if not |
| EndToEnd.RequestIsNewList | Balancer/balancer.c:129-147 | an allocation asks for nothing if and only if its list is nonempty and the published one; otherwise for the list it publishes, with the action that the lengths of the two lists call for |
| EndToEnd.OffTheReserve | Monitor/monitor.c:209-239 | the same for any state of the Balancer that its invariant holds of |
| Phases.PlacesForListsNotShorter | Balancer/balancer.c:129-140 | in every interleaving that overwrites no stop request while a request is given up: the running `twopa` serves the last request made, every action is the one that the lengths of the lists call for, and tasks are placed one by one if and only if the list is nonempty, not shorter than the one asked for before, and some task is seen running |
| System.Reachable | Balancer/main.c:228-311 | all three threads with the Balancer's bookkeeping, any interleaving, registrations also in the middle of a scan: both invariants hold and the list written so far is the beginning of the list the allocation comes to |
| System.TwopaReadsTheBookkeeping | Monitor/monitor.c:304-310 | in every such run a running `twopa` has the list that the Balancer's mask stands for at that moment |
| System.PlacedOffTheReserve | Monitor/monitor.c:209-239 | in every such run a running `twopa` leaves a Secondary task that it last finds alive with the dedicated cores and the mask in force, and LOW_TIC cores of every Primary out of its reach |
| System.RunOfHandshake | Balancer/main.c:228-311 | the threads' part of every run is a run of `Handshake`, so what holds of those holds here |
| System.PausedLendsNothing | Balancer/main.c:233-235 | in every run, until the control word is set no sample is evaluated, no core lent and no flag raised |
| Causes.AbandonedDisturbs | Listener/listener.cpp:135-136 | whichever Primaries are registered: after a stop overwritten with a request given up that `twopa` has not finished with, any sample that changes the list goes on to change it under `twopa` |
| Causes.GivenUpLosesRequest | Listener/listener.cpp:135-136 | after a stop overwritten with a request given up, any sample that changes the list goes on to a request that returns unserved |
| Causes.OnePrimaryDisturbs | Listener/listener.cpp:135-136 | a run from the start with one Primary of one core in which the list changes under `twopa` |
| Causes.OnePrimaryLosesRequest | Balancer/balancer.c:38-41 | a run from the start with that Primary in which a request returns unserved |
| Threads.SamplesAtDump | TestFramework/Containers/xapian/xapian-src/harness/tbench_server_integrated.cpp:76-86 | n threads, any interleaving: the samples at the dump miss the number asked for by the change in requests finished but not counted, so by less than n, and by none with one thread; the region began once |
| Threads.NoWarmupNoSamples | TestFramework/Containers/xapian/xapian-src/harness/tbench_server_integrated.cpp:79-84 | the measured region begins at most once, exactly when the warmup is over, and never without one |
| Threads.AssertionsHold | TestFramework/Containers/xapian/xapian-src/harness/client.cpp:104-137 | with an advancing clock no assertion of `finiReq`, `sendResp` or `_startRoi` fails in any run |
| Threads.FailsIffStalled | TestFramework/Containers/xapian/xapian-src/harness/tbench_server_integrated.cpp:67-70 | an assertion fails in a run if and only if at some step a service is measured at the clock reading it started with |
| Threads.StandingClockFails | TestFramework/Containers/xapian/xapian-src/harness/tbench_server_integrated.cpp:67-68 | a run of one thread, with the clock standing over a service, in which that assertion fails |
| Threads.LedgerSound | TestFramework/Containers/xapian/xapian-src/harness/client.cpp:83-128 | in flight + finished = started, one id per thread at most and no id twice, rows of equal length with queue + service = sojourn |
| Threads.StartupGoesOn | TestFramework/Containers/xapian/xapian-src/harness/client.cpp:62-81 | until the startup barrier has been passed twice nobody issues a request and some thread can always go on |
| Threads.Reachable | TestFramework/Containers/xapian/xapian-src/harness/client.cpp:62-137 | the invariants over all interleavings |
| Measurements.SamplesAreTimes | TestFramework/Containers/xapian/xapian-src/harness/client.cpp:104-128 | in every interleaving each sample belongs to one finished request of its own: service is the clock at the end of its service less the clock at the beginning, sojourn the clock at its end less its generation time, queue their difference; its service began after it was generated, and after the minimum sleep if its thread had to sleep |
| Measurements.ArrivalsAreOpen | TestFramework/Containers/xapian/xapian-src/harness/client.cpp:62-93 | in every interleaving the generation time of a request is the set-up time plus the gaps drawn up to it, however long services take |
| Harness.IntegratedServer.constructor | TestFramework/Containers/xapian/xapian-src/harness/client.cpp:44-60 | the initial ledger |
| Harness.IntegratedServer.SetUpOnce | TestFramework/Containers/xapian/xapian-src/harness/client.cpp:66-78 | the first thread sets up, the others change nothing |
| Harness.IntegratedServer.NewReq | TestFramework/Containers/xapian/xapian-src/harness/client.cpp:83-93 | the next id and arrival time, entered as in flight |
| Harness.IntegratedServer.SleepUntil | TestFramework/Containers/xapian/xapian-src/harness/helpers.h:53-62 | the first clock reading not before the target is returned |
| Harness.IntegratedServer.BeginService | TestFramework/Containers/xapian/xapian-src/harness/tbench_server_integrated.cpp:50-56 | the thread's slot holds its request and start time, the step of a thread that begins a service |
| Harness.IntegratedServer.ServiceTime | TestFramework/Containers/xapian/xapian-src/harness/tbench_server_integrated.cpp:59-70 | the step of a thread that measures its service: id and time of the slot, and failure exactly when the step's assertion fails |
| Harness.IntegratedServer.FiniReq | TestFramework/Containers/xapian/xapian-src/harness/client.cpp:104-128 | the request leaves the ledger; in the measured region sojourn is the clock less the generation time, and service and queue make it up; which assertions must hold; a failed one changes nothing |
| Harness.IntegratedServer.CountReq | TestFramework/Containers/xapian/xapian-src/harness/tbench_server_integrated.cpp:76-86 | which count starts the region, fails or dumps |
| Harness.IntegratedServer.DumpStats | TestFramework/Containers/xapian/xapian-src/harness/client.cpp:145-158 | one row per sample, the three times side by side |
| Framing.RoundTripExactly | TestFramework/Containers/xapian/xapian-src/harness/tbench_server_networked.cpp:204-216 | a request is recovered with nothing of what follows, exactly when it has a payload |
| Framing.WireLayout | TestFramework/Containers/xapian/xapian-src/harness/msgs.h:28-33 | where each byte of a request is on the wire: id, generation time and length in eight bytes each, the lowest first, then the payload |
| Framing.SessionRoundTripExactly | TestFramework/Containers/xapian/xapian-src/harness/client.cpp:212-224 | the server reads exactly the requests a client sent if and only if all have a payload |
| Framing.SessionReceived | TestFramework/Containers/xapian/xapian-src/harness/tbench_server_networked.cpp:145-166 | otherwise it reads those before the first empty one |
| Framing.ReadExactly | TestFramework/Containers/xapian/xapian-src/harness/tbench_server_networked.cpp:145-166 | for any errors: a client counts as gone if and only if no byte of the header or none of the payload arrived, the server ends if and only if some but too few did, and a request that is read is the one sent |
| Framing.ErrorReadsAsDisconnect | TestFramework/Containers/xapian/xapian-src/harness/helpers.h:87-89 | an error on the first call loses a request that was sent |
| Framing.ReadIsParse | TestFramework/Containers/xapian/xapian-src/harness/helpers.h:82-95 | without errors, chunking does not matter |
| Framing.ResponseRoundTrip | TestFramework/Containers/xapian/xapian-src/harness/client.cpp:226-249 | responses and notices come through as sent, empty ones too |
| Framing.ReadResponseExactly | TestFramework/Containers/xapian/xapian-src/harness/client.cpp:226-249 | for any errors: a response that is received is the one sent, and without errors it is received |
| Sockets.SendFull | TestFramework/Containers/xapian/xapian-src/harness/helpers.h:64-80 | for any chunking and any error: exactly the bytes that the calls move before it are sent, in order |
| Sockets.RecvFull | TestFramework/Containers/xapian/xapian-src/harness/helpers.h:82-95 | for any chunking, end or error: the next bytes in order, exactly those that the calls move before it |
| Sockets.NetworkedClient.Send | TestFramework/Containers/xapian/xapian-src/harness/client.cpp:212-224 | the encoded request is what has been sent, or on failure the part of it before the error |
| Sockets.NetworkedClient.Recv | TestFramework/Containers/xapian/xapian-src/harness/client.cpp:226-249 | the next response, or failure with the lock left held |
| RoundRobin.ScanFindsExactly | TestFramework/Containers/xapian/xapian-src/harness/tbench_server_networked.cpp:192-202 | the scan finds a client if and only if one is ready, also with the head beyond the list |
| RoundRobin.BoundedFairness | TestFramework/Containers/xapian/xapian-src/harness/tbench_server_networked.cpp:192-200 | with a fixed list of n clients, one that is ready throughout is served within n rounds, from any head |
| RoundRobin.ServedWithinRound | TestFramework/Containers/xapian/xapian-src/harness/tbench_server_networked.cpp:168-233 | while no client leaves, one that every `select` finds ready is handed out within as many calls as there are clients |
| RoundRobin.SessionsNeverCrash | TestFramework/Containers/xapian/xapian-src/harness/tbench_server_networked.cpp:145-202 | if all clients send whole requests with payloads, no receive meets an error and every `select` finds a client ready, no assertion fails in any sequence of calls, and the server ends only when all clients have left |
| RoundRobin.NothingLost | TestFramework/Containers/xapian/xapian-src/harness/tbench_server_networked.cpp:168-233 | a call repeats or reorders no request of any client and loses none of a client that stays; one that is taken for gone had none left, unless a receive met an error |
| RoundRobin.EachClientInOrder | TestFramework/Containers/xapian/xapian-src/harness/tbench_server_networked.cpp:168-233 | over any number of calls, handed out and still to come make up what each client sent, or with errors a part of it from the start |
| RoundRobin.AllServed | TestFramework/Containers/xapian/xapian-src/harness/tbench_server_networked.cpp:218-220 | when all clients have left without errors, each has had exactly its requests |
| Networked.NetworkedServer.RemoveClient | TestFramework/Containers/xapian/xapian-src/harness/tbench_server_networked.cpp:140-143 | the first entry of that client is erased |
| Networked.NetworkedServer.CheckRecv | TestFramework/Containers/xapian/xapian-src/harness/tbench_server_networked.cpp:145-166 | gone, fatal or complete, by the byte count |
| Networked.NetworkedServer.FindReady | TestFramework/Containers/xapian/xapian-src/harness/tbench_server_networked.cpp:192-198 | the loop is the scan |
| Networked.NetworkedServer.ReadRequest | TestFramework/Containers/xapian/xapian-src/harness/tbench_server_networked.cpp:204-215 | for any chunking and any errors, what is read, who is removed and when the process ends |
| Networked.NetworkedServer.RecvReq | TestFramework/Containers/xapian/xapian-src/harness/tbench_server_networked.cpp:168-233 | one call, with the clients that leave on the way |
| ExecTime.AccumulatorsExact | Balancer/logger.c:98-114 | idle + active of every core is the total, the total telescopes to last - first timestamp, and active is the number of instants at which the recorded bit was set |
| ExecTime.ElapsedIsDifference | Balancer/logger.c:103-105 | the wrapped unsigned differences add up to the true one |
| ExecTime.ActiveIsIntegral | Balancer/logger.c:107-113 | the integral of the recorded bit |
| ExecTime.TimeIsConserved | Balancer/logger.c:98-114 | idle + active = total, telescoping |
| ExecTime.Accounting.CalculateExecTime | Balancer/logger.c:77-114 | the loops compute these sums in 64-bit arithmetic |
| LogParser.DoubleCounting | TestFramework/Tools/parse_cpulogger2.py:74-92 | the sum of k times the time at k active cores is the sum of the cores' active times |
| LogParser.KeysOrList | TestFramework/Tools/parse_cpulogger2.py:82-84 | summing the table over its keys, each core with its occurrences in the list, is summing over the list |
| LogParser.TimesMakeUpTheLog | TestFramework/Tools/parse_cpulogger2.py:74-92 | the times by count sum to last - first timestamp |
| LogParser.EventsMakeUpTheLog | TestFramework/Tools/parse_cpulogger2.py:86-88 | the events sum to the number of later lines |
| LogParser.GetActiveCount | TestFramework/Tools/parse_cpulogger2.py:55-61 | the number of listed cores that are active |
| LogParser.ParseLog | TestFramework/Tools/parse_cpulogger2.py:64-92 | the loop fills the three tables with these quantities, a core's time once per occurrence in the list, every count in range; an empty log has no first line |

## Left out

- Balancer.Process.SchedAllSecondary: one step here; its spin loops, the aborts on a stop and all interleavings are in `Handshake`.
- Balancer.Process.constructor: the private fields that nothing modelled reads (weights, surplus and deficit times) are not kept.
- In `Handshake` which cores a sample lists, and whether it leads to a rebalance, is left open; `System` makes these choices as the Balancer does. The scan before the first sample lists no core. A run of `twopa` is the span between two of its steps.
- Word encodings: CPU masks and the marks of `twopa` are sets, not 64-bit words and arrays, so shifts and out-of-range CPU ids are not covered.
- Records in the shared block are values in sequence fields; aliasing between slots is not modelled.
- `twopa` reads the number of Secondary containers once; one that joins while it runs has an empty cache then, and would be placed by the next run. The words behind the affinity list are readable values, whatever they are.
- The Monitor's computation of the idle mask, its event log, interrupt times and `set_irq_affinity`.
- Interrupt-driven core reordering (Balancer/interrupts.c), which the build does not define.
- More than 64 slots of a kind or CPUs in a list: the source does not check, and writes outside them are not modelled.
- A mask log without an entry: the unsigned count of entries wraps around there, so the accounting starts from one entry.
- Sockets, JSON, procfs, signals and memory mapping as mechanisms; parsing of the CPU list text; file descriptors and memory.
- Mutual exclusion through `updatingPids`: the Listener raises it without looking for a running rebalance, so it excludes nothing.
- The server's answering side (`NetworkedServer::sendResp`), which sends under one lock what `Framing` encodes, and the request generator's randomness.
- Floating-point rounding, wrap-around of clocks and of request counters.
- Log writing, statistics, plotting, launchers and result files.
