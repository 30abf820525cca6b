# nodepilot scheduling kernel: a verified model

nodepilot is a batch scheduler for one machine. It keeps a list of jobs with dependencies, priorities and
resource requests, and once per tick it reaps finished processes, skips jobs whose dependencies can no longer
succeed, launches what admission control and the NUMA allocator allow, and saves the job list to a state file.
This project models that kernel in Dafny and proves what it guarantees over whole runs, including runs that are
cut short by crashes.

## How the model is built

* `Text`, `CpuList` - CPU-list strings (`"0-3,8"`), character by character, and their round trip.
* `Numa` - the allocator and SMT sibling detection; `Mpi` - rank layout and rankfiles.
* `Jobs`, `Admission`, `Runner`, `StateFile` - the records, and the small stateful objects: `Job`, `Clock`,
  `AdmissionController`, `Runner` (the handle table) and `StateStore` (the state file).
* `Scheduler` - the scheduler as a transition system over values. `EventFor` is one turn of a pass, `Effect` what
  an event does, `Pass`, `SkipRounds`, `LaunchPass`, `Tick`, `Save`, `Loop` and `Startup` the passes and loops built
  from them. `ValidRun` is any sequence of enabled events, so a statement about every run also holds between any
  two steps of a tick.
* `Orchestrators` - the class `Orchestrator` over live `Job` objects. Each method runs the loops of the original and is
  proved to bring the abstract state to exactly what the corresponding pass says.
* `Runs`, `Safety`, `Lifecycle`, `FixedPoint`, `Maximal`, `Ticks`, `Priority`, `Confluence`, `CooldownRuns`,
  `HandleTable`, `Durability`, `Drain` - the theorems. Where one is about what a step does, it is stated on the job
  records and the readings taken, not on the functions that compute the step.

The outside world is a parameter. A `TickEnv` holds what one tick reads: exit statuses, liveness of processes,
sessions and scopes, the kernel log's OOM hint, the pause file, slice and free memory, and what starting a process
comes to. The clock is a list of readings taken one after the other. RAM and time are `real`.

Where code and documentation differ, the model follows the code:

* the allocator takes the first run that is long enough, not the largest one (`nodepilot/numa.py:265-276` against
  `nodepilot/numa.py:294-296`); `LargestExactly` says when the two are the same;
* a failed dependency does skip its dependents (`nodepilot/orchestrator.py:271-309`), contrary to
  `docs/architecture.md:292-295`;
* an exit code of 137 without an OOM hint is `killed_signal`, not `oom_killed` (`nodepilot/runner.py:287-296`);
* the `smt_oversubscribed` flag compares the request with the free primaries of the chosen node, not with all its
  physical cores (`nodepilot/numa.py:362` against `nodepilot/numa.py:234-237`); `OversubscribedFlagExactly` says
  when that makes a difference;
* an oversubscribed placement is never reported contiguous, even if its cores form a run
  (`nodepilot/numa.py:372-376` against `nodepilot/numa.py:231-233`; `ContiguousFlagExactly`), and oversubscription
  plays no part in the choice between nodes (`nodepilot/numa.py:384`).

What the model takes as given: job ids are unique (`load_queue` checks it, `ValidateUniqueIds`), the topology's
CPU lists are well formed, and a loaded state satisfies the invariants under the current configuration. Where a
theorem needs cores and RAM requests not to be negative, or the clock not to run backwards, it says so.

## Model

| member | source | states |
|---|---|---|
| Text.SplitUndoesJoin | nodepilot/numa.py:99 | splitting at a separator undoes joining with it, if no part contains it |
| Text.JoinUndoesSplit | nodepilot/numa.py:66 | joining always undoes splitting |
| Text.IntOfNatText | nodepilot/numa.py:72-77 | `int(str(n)) == n` for every natural number, digit by digit |
| Text.UnsignedIsNat | nodepilot/numa.py:71-77 | text without a minus sign never reads as a negative number, so parsed cores are naturals |
| CpuList.ParseCpuList | nodepilot/numa.py:51-78 | the parsing loop computes `Parse`, including which malformed part raises the error |
| CpuList.ParseMeaning | nodepilot/numa.py:52-62 | a list is accepted iff every part is, and then names exactly the cores some part names |
| CpuList.RangeReads | nodepilot/numa.py:67-75 | a range with any spaces around it names its cores, and an inverted one is an error |
| CpuList.BlankParses | nodepilot/numa.py:64-65 | blank text names no cores |
| CpuList.BlankPart | nodepilot/numa.py:67-69 | a blank part between commas names no cores |
| CpuList.LoneReads | nodepilot/numa.py:67-77 | a single core with any spaces around it names that core |
| CpuList.BlanksAreAccepted | nodepilot/numa.py:54-62 | `"0-3, 8"` names cores 0, 1, 2, 3 and 8; numbers are decimal |
| CpuList.OtherTextIsRefused | nodepilot/numa.py:58-62 | text with a character that belongs in no CPU list is an error |
| CpuList.FormatCpuList | nodepilot/numa.py:81-99 | the formatting loop prints the runs of the sorted cores |
| CpuList.PrintedForm | nodepilot/numa.py:81-103 | part by part, the text is the maximal runs in ascending order: a lone core as its number, a longer run as first and last core with a dash |
| CpuList.RoundTrip | nodepilot/numa.py:51-103 | printing any finite set of cores and reading it back gives the same set |
| CpuList.FormatInjective | nodepilot/numa.py:81-99 | different core sets print differently |
| CpuList.NormalForm | nodepilot/numa.py:81-99 | reformatting is an idempotent normal form: two accepted texts agree on it iff they name the same cores |
| CpuList.FewestParts | nodepilot/numa.py:81-99 | the printed runs are ascending, maximal, cover exactly the cores, and no list of ranges covering them is shorter |
| CpuList.FewestTextParts | nodepilot/numa.py:51-99 | no accepted text naming the same cores has fewer comma-separated parts than the printed one |
| Numa.LargestContiguousRun | nodepilot/numa.py:265-276 | the nested loops find the first run of at least `n` cores |
| Numa.FirstRunMeaning | nodepilot/numa.py:265-276 | that is the least `s` with `s .. s+n-1` all free, and none iff there is no such `s` |
| Numa.ChooseThreads | nodepilot/numa.py:360-376 | the choice of cores on one node from its free primaries and siblings |
| Numa.LeastNFacts | nodepilot/numa.py:370-375 | the scattered choice takes the `n` lowest ids |
| Numa.ChoiceFacts | nodepilot/numa.py:355-376 | a choice is exactly `n` free cores, contiguous iff some run of free primaries is long enough, and uses siblings only when primaries run out, after all of them |
| Numa.ConsiderNode | nodepilot/numa.py:341-379 | a node makes its offer iff it has enough free cores and passes the RAM gate |
| Numa.Allocate | nodepilot/numa.py:279-392 | the node loop and final choice compute `Allocation`; it raises only for a malformed node description, and only when cores are requested |
| Numa.AllocationOptimal | nodepilot/numa.py:294-326 | the answer is none iff no node is eligible, else the offer of the node that comes first by (not contiguous, -free count, used GB, node) |
| Numa.ChosenNodeExactly | nodepilot/numa.py:327-392 | on the inputs: none iff no node has enough free cores and memory, else the first by free count, memory held and id among the nodes with enough consecutive free primaries, or if there are none among all; interleaved iff the request reaches the threshold |
| Numa.PlacementTakesLowest | nodepilot/numa.py:355-376 | on the chosen node: the first long-enough run of free primaries, else the lowest free primaries, else all of them and the lowest free siblings |
| Numa.NoCoresAsked | nodepilot/numa.py:327-330 | a request for no cores gets none, on the first node |
| Numa.OrderOfNodesIrrelevant | nodepilot/numa.py:341-385 | the answer does not depend on the order in which the topology lists its nodes |
| Numa.ContiguousWhenPossible | nodepilot/numa.py:294-298 | the placement is contiguous iff some eligible node has `n` consecutive free primaries |
| Numa.PlacementSound | nodepilot/numa.py:386-392 | read back from its text, a placement is exactly the cores asked for, all free and on the recorded node |
| Numa.PlacementThreads | nodepilot/numa.py:355-379 | no sibling is used while the chosen node's free primaries suffice; otherwise all of them are used and the flag is set |
| Numa.LargestExactly | nodepilot/numa.py:265-276 | the first long-enough run is a largest one, as the docstring promises, iff no long-enough run starts before the first largest one |
| Numa.LongestExists | nodepilot/numa.py:265-276 | whenever a run of `n` cores is found, there is a length that is the largest |
| Numa.NotTheLargestRun | nodepilot/numa.py:294-296 | a free list on which that condition fails: a longer run than the one found exists |
| Numa.OnLargestRunExactly | nodepilot/numa.py:294-296 | a contiguous placement starts a largest run of the chosen node's free primaries under exactly that condition |
| Numa.OversubscribedFlagExactly | nodepilot/numa.py:234-237 | the flag means "more cores requested than the node has physical ones" except when no eligible node has enough consecutive free primaries and the roomiest one has enough physical cores but too few free ones |
| Numa.ContiguousFlagExactly | nodepilot/numa.py:231-233 | the flag means "the chosen cores form a single run" except when no eligible node has enough consecutive free primaries and the roomiest one has too few free primaries, which its least free siblings complete to an interval |
| Numa.ContiguousFlagMeaning | nodepilot/numa.py:355-392 | the flag is set iff the chosen cores are an interval and the placement is not oversubscribed |
| Numa.FlagsAgainstDocumentation | nodepilot/numa.py:231-237 | a node with as many physical cores as requested, one of them occupied: the oversubscribed flag is set, and the chosen cores are an interval not called contiguous |
| Numa.OversubscribedExactly | nodepilot/numa.py:355-385 | a placement is oversubscribed iff no eligible node has enough consecutive free primaries and the roomiest eligible node has too few free primaries |
| Numa.OversubscribedDespitePrimaries | nodepilot/numa.py:384 | the sort key ignores oversubscription: a topology on which siblings are used although another node has enough free primaries |
| Numa.RefusalIsMonotone | nodepilot/numa.py:341-345 | a request refused with some cores occupied is refused with more cores occupied |
| Numa.DetectSmtSecondary | nodepilot/numa.py:150-179 | for consistent sibling groups, in any directory order, exactly the members that are not the least of their group; in general only such members |
| Mpi.RankBindingPlan | nodepilot/mpi.py:68-128 | an error iff there are no ranks, the list is malformed or cores are fewer than ranks; otherwise rank `i` starts at `i` strides and has as many cores as threads were asked for (at least one), or a stride of them, clipped to the block, the last rank everything to its end; the ranks are disjoint, or cover the block, iff that number is at most, or at least, the stride |
| Mpi.DefaultPlanPartitions | nodepilot/mpi.py:76-83 | with the default width the chunks concatenate to the core block, all non-empty, the last one taking the remainder |
| Mpi.DisjointExactly | nodepilot/mpi.py:91-95 | the ranks' chunks are disjoint iff the width is at most the stride or there is one rank |
| Mpi.CoverageExactly | nodepilot/mpi.py:82-83 | the chunks cover the block iff the width is at least the stride or there is one rank |
| Mpi.LineReads | nodepilot/mpi.py:171-175 | a rankfile line reads back as its rank and its cores |
| Mpi.RankfileReadsBack | nodepilot/mpi.py:160-176 | the rankfile's lines read back as exactly the ranks that have cores, in order |
| Jobs.ValidateUniqueIds | nodepilot/config.py:355-360 | accepts iff all ids differ, else names the first id seen before |
| Jobs.TextLeMeaning | nodepilot/orchestrator.py:190 | ids compare character by character: a prefix first, else by the first difference |
| Jobs.SortKeysFacts | nodepilot/orchestrator.py:188-191 | sorting by (priority, id) is strictly ascending and keeps exactly the keys |
| Jobs.InOrderUnique | nodepilot/orchestrator.py:188-191 | the sorted list is determined by its keys alone |
| Runner.KnownExit | nodepilot/runner.py:268-302 | from a raw exit status: done iff 0, signal deaths named by their signal, SIGKILL told apart by the OOM hint, which matters in no other case; the recorded code is the status, or 128 plus the signal |
| Runner.UnknownExit | nodepilot/runner.py:286-296 | without an exit code: done iff the kernel log reports no kill, else `oom_killed`, and no code is recorded |
| Runner.AliveUnlessOver | nodepilot/runner.py:162-176 | a session is alive unless its tmux session is gone, its child has an exit status, or its pid is gone |
| Runner.SessionsDiffer | nodepilot/runner.py:122-160 | different jobs have different tmux sessions |
| Runner.Runner.Start | nodepilot/runner.py:108-159 | a start records session and handle, a failed start changes nothing |
| Runner.Runner.Reap | nodepilot/runner.py:268-302 | the outcome is classified from the exit code read before the handle is dropped |
| Admission.AdmissionController.CanLaunch | nodepilot/admission.py:140-196 | the guard chain with its clock reading computes `Decide` |
| Admission.AdmittedExactly | nodepilot/admission.py:1-21 | a job is admitted iff not paused, not cooling down, the running jobs with it are within cap, core budget and exclusive mutex, and there is memory for it |
| Admission.AdmittedBeside | nodepilot/admission.py:140-234 | the same over the running jobs themselves instead of the sums |
| Admission.DecisionReasons | nodepilot/admission.py:140-234 | a refusal names the first guard that objects; an admission means none does, and warns iff `maxcore` for all ranks with 30% to spare exceeds the memory request |
| Admission.TotalDescribes | nodepilot/admission.py:65-77 | the sums are the number, the cores, the memory and the presence of an exclusive one of the jobs that run |
| Admission.AdmittedStaysWithinBudget | nodepilot/admission.py:158-234 | an admitted job keeps the running set within every limit |
| Admission.RefusalGrowsWithLoad | nodepilot/admission.py:158-234 | what is refused beside a light load is refused beside a heavier one |
| Admission.TotalAgrees | nodepilot/admission.py:65-77 | the sums over running jobs do not depend on the list order or on jobs that do not run |
| Scheduler.BlockerMeaning | nodepilot/orchestrator.py:290-298 | a job is blocked iff some dependency is failed, skipped or unknown, and the reason names such a one |
| Scheduler.BlockerIsFirst | nodepilot/orchestrator.py:290-298 | the reason names the first dead dependency in the job's own order |
| Orchestrators.Orchestrator.FromQueue | nodepilot/orchestrator.py:50-78 | a new scheduler stands for the loaded job list, with no handles and no cooldown; it is an error iff a queue id is repeated, the reserved list is malformed, or the tmux backend has no tmux |
| Orchestrators.Orchestrator.ReapFinished | nodepilot/orchestrator.py:134-169 | the loop brings the state to what the reaping pass says |
| Orchestrators.Orchestrator.FindBlocker | nodepilot/orchestrator.py:290-298 | the inner loop finds the first dead dependency |
| Orchestrators.Orchestrator.MarkDeadDependents | nodepilot/orchestrator.py:271-309 | the fixed-point loop terminates in the state of `SkipRounds` |
| Orchestrators.Orchestrator.DepsDone | nodepilot/orchestrator.py:263-269 | true iff every dependency is known and done |
| Orchestrators.Orchestrator.OccupiedCores | nodepilot/orchestrator.py:255-261 | the union of reserved cores and the parsed lists of running jobs |
| Orchestrators.Orchestrator.LaunchNow | nodepilot/orchestrator.py:202-252 | placing and starting one job: nothing happens iff no block is free, else the job runs there or has failed to start |
| Orchestrators.Orchestrator.PendingInOrder | nodepilot/orchestrator.py:188-191 | the pending jobs in launch order |
| Orchestrators.Orchestrator.LaunchPending | nodepilot/orchestrator.py:186-200 | the loop brings the state to what the launch pass says |
| Orchestrators.Orchestrator.TickOnce | nodepilot/orchestrator.py:124-131 | a tick is reap, mark, launch, and reports whether anything changed |
| Orchestrators.Orchestrator.ReconcileZombies | nodepilot/orchestrator.py:311-337 | the startup sweep and its save |
| Orchestrators.Orchestrator.Drained | nodepilot/orchestrator.py:339-342 | true iff no job is pending or running |
| Orchestrators.Orchestrator.Run | nodepilot/orchestrator.py:87-122 | the loop stops at the first tick after which the queue is drained or the limit reached, in the state of that stage |
| Orchestrators.Orchestrator.Kill | nodepilot/orchestrator.py:378-389 | kills and saves iff the named job is running, else changes nothing |
| StateFile.StateStore.SaveState | nodepilot/state.py:26-40 | a save ends with the new list in place and goes through a torn and a whole temporary file |
| StateFile.SaveStepsAreEvents | nodepilot/state.py:38-40 | the steps of a save are the save events, and a crash between them leaves the whole old or the whole new list |
| Runs.PassTraces | nodepilot/orchestrator.py:134-200 | every pass is a run of enabled events |
| Runs.LaunchOrderFacts | nodepilot/orchestrator.py:188-191 | the launch order lists every pending job exactly once |
| Runs.LowerPriorityFirst | nodepilot/orchestrator.py:188-191 | in the launch order lower priority numbers come first, equal ones by id |
| Runs.LoopTraces | nodepilot/orchestrator.py:104-122 | any number of ticks with their saves is a run of enabled events |
| Safety.CoreExclusivity | nodepilot/orchestrator.py:202-261 | in every state of every run the cores of running jobs, read from their strings, are pairwise disjoint, unreserved, on their node and as many as requested |
| Safety.AdmissionSafety | nodepilot/admission.py:158-234 | in every state of every run the set of running jobs is no larger than the cap, an exclusive one runs alone, and the cores and, without a slice, the memory they ask for together are within budget |
| Safety.AdmissionOverJobs | nodepilot/admission.py:140-234 | a launch is admitted iff it is not paused or cooling down and cap, core budget, memory and exclusive mutex leave room beside the jobs that run |
| Safety.OccupiedExactly | nodepilot/orchestrator.py:255-261 | the occupied cores are the reserved ones and those in the CPU lists of running jobs |
| Lifecycle.EveryStepIsLegal | nodepilot/orchestrator.py:134-337 | every step of every run changes at most one record, and only from running to ended, from pending to skipped with a true blocker, or from pending to running or failed at its start; each with exactly the fields and the time the source assigns |
| Lifecycle.LaunchPassExactly | nodepilot/orchestrator.py:186-252 | a launch pass leaves a pending job unchanged, running under the session of the process started for it, or failed with the error of its start; started jobs were ready, admissible and placed in a state on the way; no other record changes, and the handles gained are those of the started children |
| Lifecycle.RunsOnlyIfStarted | nodepilot/orchestrator.py:229-239 | no job comes to run unless its process has been started |
| Lifecycle.InterleavesExactly | nodepilot/orchestrator.py:204-211 | a placed job's memory is interleaved iff it reaches the threshold |
| Safety.Causality | nodepilot/orchestrator.py:263-309 | in every state of every run a started job has all dependencies done, a skipped one has a chain to a failed or unknown dependency, and terminal records never change |
| Safety.AtMostOneStart | nodepilot/orchestrator.py:186-252 | no job is started twice in a run |
| Safety.FreshIsSound | nodepilot/orchestrator.py:50-56 | a queue of pending and dormant jobs satisfies all invariants |
| Safety.LoopIsSound | nodepilot/orchestrator.py:104-122 | all invariants hold at every event of the main loop |
| FixedPoint.DeadDependentsExactly | nodepilot/orchestrator.py:271-309 | exactly the pending jobs with a chain of pending jobs to a failed, skipped or unknown dependency become skipped, each with only its status, reason and end time changed and a reason that names a true blocker; every other record is untouched, in any list order, with cycles allowed |
| FixedPoint.QuietPass | nodepilot/orchestrator.py:134-200 | a pass that reports no change changed nothing but the clock and found nothing to do for any job |
| Ticks.TickSkipsExactly | nodepilot/orchestrator.py:124-131 | a tick skips exactly the pending jobs with a chain to a dead dependency once ended processes are reaped; a start that fails in the same tick does not count yet |
| Ticks.FailureSpreadsAtOnce | nodepilot/orchestrator.py:124-131 | what waits for a running job that a tick finds failed is skipped in the same tick |
| Ticks.TickIsMaximal | nodepilot/orchestrator.py:124-131 | launching comes last: a tick leaves no job that could still be started |
| Maximal.LaunchPassIsMaximal | nodepilot/orchestrator.py:186-200 | after a launch pass no pending job is ready, admissible and placeable, so a second pass under the same readings changes nothing, as long as no cooldown ends between the first and the last clock reading of the two passes |
| Maximal.StaysUnstartable | nodepilot/admission.py:140-234 | a job that cannot start beside some running jobs cannot start beside more |
| Priority.PriorityNonInterference | nodepilot/orchestrator.py:188-199 | deleting pending jobs with larger keys and reordering the list leaves the launch pass's effect on all other jobs, cores included, as it was |
| Confluence.ScheduleIndependence | nodepilot/orchestrator.py:186-309 | two drained runs over the same dependency graph with the same outcome per started job end with the same status for every job, whatever else differs |
| Confluence.SkippedExactly | nodepilot/orchestrator.py:271-309 | in a drained queue a job is skipped iff a dependency path from it reaches a failed job or an unknown id |
| CooldownRuns.NoStartWhileCooling | nodepilot/orchestrator.py:160-168 | after a step that records a running job as `oom_killed` with end time `t`, no start is attempted before `t` plus the cooldown, even in the same tick |
| CooldownRuns.KilledChildArms | nodepilot/orchestrator.py:134-169 | a child that died of SIGKILL or exited with 137 while the kernel log reports a kill is recorded as `oom_killed` and leaves a deadline of at least its end time plus the cooldown |
| CooldownRuns.KilledSessionArms | nodepilot/orchestrator.py:134-169 | the same for a tmux session or inherited process that is gone |
| CooldownRuns.DeadlineStays | nodepilot/orchestrator.py:160-168 | as long as no running job's record turns into `oom_killed`, the deadline stays |
| CooldownRuns.DeadlineOnlyMovesLater | nodepilot/admission.py:122-128 | with a clock that does not run backwards, further kills only move the deadline later |
| HandleTable.HandlesAreRunningJobs | nodepilot/runner.py:99-105 | with fresh pids and no inherited jobs, the handles held are at every moment exactly those of the running jobs |
| HandleTable.ReapKnowsExitCode | nodepilot/runner.py:178-207 | every reap then classifies the child's own exit status |
| HandleTable.ReapPassExactly | nodepilot/orchestrator.py:134-169 | a reaping pass ends exactly the running jobs whose child has exited, each by its own status, and touches no other |
| HandleTable.ReapPassUnheld | nodepilot/orchestrator.py:134-169 | a running job with a tmux session or a process of an earlier scheduler ends exactly if that is gone, as done or, if the kernel log reports a kill, as failed, and with no exit code |
| HandleTable.DrainedHoldsNothing | nodepilot/runner.py:178-187 | a drained queue holds no handles |
| Durability.QuietTick | nodepilot/orchestrator.py:105-109 | a tick that reports no change has changed no job, handle, deadline or file |
| Durability.DurableCoherence | nodepilot/orchestrator.py:105-109 | after startup and after every tick the durable view equals the job list in memory |
| Durability.CrashSeesABoundary | nodepilot/state.py:26-40 | a crash at any event leaves the job list of the stage boundary before or after it |
| Durability.ResumeRestores | nodepilot/state.py:43-61 | loading a saved list gives back the list that was saved |
| Durability.StartupChangesOnlyZombies | nodepilot/orchestrator.py:311-337 | startup changes only jobs recorded as running that are gone: they become failed and release their cores |
| Durability.QuietStartup | nodepilot/orchestrator.py:311-337 | if no running job is gone, startup changes and saves nothing |
| Durability.KillIsDurable | nodepilot/orchestrator.py:378-389 | a kill makes the job failed, forgets its handle, touches no other job, and is durable at once |
| Durability.LivesAreSound | nodepilot/orchestrator.py:62-78 | all invariants survive any number of crashes and restarts, wherever each process is cut off |
| Drain.FewChangedTicks | nodepilot/orchestrator.py:104-131 | whatever the world does, a queue of `k` jobs sees at most `2k` changed ticks |
| Drain.LiveTick | nodepilot/orchestrator.py:124-131 | with nothing running, something pending and no cooldown, a tick in which the first job in line fits always skips, launches or fails a job |
| Drain.QueueDrains | nodepilot/orchestrator.py:104-122 | with acyclic dependencies, exits within `d` ticks, and the first job in line fitting whenever a tick begins with nothing running, `k` jobs drain within `2k(d+1)` ticks, if either no job is killed for lack of memory or a wait of `d` ticks outlasts a cooldown; readings taken beside running jobs may refuse anything |
| Drain.QueueDrainsWithoutKills | nodepilot/orchestrator.py:160-168 | without out-of-memory hints the same bound holds whatever the cooldown and the clock |
| Drain.WaitingReads | nodepilot/orchestrator.py:186-200 | a tick in which jobs wait with nothing running takes a clock reading |
| Drain.TickingClockCoolsOff | nodepilot/admission.py:122-136 | so a wait of `d` ticks outlasts a cooldown if `d` clock readings do |
| Drain.RunReturns | nodepilot/orchestrator.py:87-122 | under the same hypotheses `run` without a tick limit returns |
| Drain.HealthyWorldExists | nodepilot/orchestrator.py:104-122 | those hypotheses can be met with the default slice and cooldown, a dependency, a job that the first tick refuses for live memory while another runs, and an out-of-memory kill found by the second |

## Left out

- System interfaces: sysfs, procfs, cgroup and meminfo reads, `systemd-run`, `numactl`, `taskset`, `journalctl`, tmux and real processes are readings of a `TickEnv`.
- Runner.Runner.Start: a tmux session that fails to start raises an exception `_launch` does not catch (`nodepilot/runner.py:154-158`) and ends the process; only the caught start errors are results. For the job list that end is one of the crashes of `Durability.LivesAreSound`.
- Runner.Runner.Kill: the signal to the process group and the wait for the child act on real processes; the dropped handle is modelled.
- Orchestrators.Orchestrator.FromQueue: reading and validating the YAML file, apart from the ids; and a state file is taken to have no repeated ids, which nothing checks.
- Command lines (`build_command`, `placement_prefix`, cgroup arguments, MPI and OpenMP environments) are fixed strings and would only add easy members.
- `enforce_pin` has no effect on job state.
- `reset` only deletes the state file.
- YAML and JSON syntax, logging, the command line and host probing: snapshots are lists of records, and `status` and `failure_reason` are datatypes instead of strings; the `pid:` and `tmux:` prefixes of `session` likewise.
- Job fields the scheduler never reads (`command`, `workdir`, `env`, `metadata`).
- Floating point: RAM and time are exact reals, so sums do not depend on the order of addition.
- CPU lists with non-ASCII digits or spaces, and Python's limit on the length of integer literals.
- The aggregate RAM bound while a memory slice is live: several jobs of one pass may be admitted against the same reading, so no such bound holds.
- At-most-once execution across crashes: a crash between a start and the save leaves the job pending on disk.
- A second process writing the same state file (`nodepilot/cli.py:70-76`), and the cooldown across restarts, which is only kept in memory.
- Physical-core exclusivity between jobs: the code does not provide it, since siblings of one core may go to two jobs.
- Draining with cyclic dependencies, dependencies on dormant jobs, launches paused for good, or a first job in line that does not fit the idle machine: the code may leave jobs pending for ever.
- A malformed CPU list in the topology or in a loaded running job raises from inside a tick; `Allocate` models that error, the scheduler above it requires well-formed lists.
