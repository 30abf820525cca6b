/** The queue drains, within a bound. */
module Drain {
  import opened Wrappers
  import opened CpuList
  import opened Numa
  import opened Jobs
  import opened Admission
  import opened Runner
  import opened Scheduler
  import opened Runs
  import opened FixedPoint
  import opened Safety
  import opened CooldownRuns
  import opened Durability

  // ---- the measure -------------------------------------------------------------------

  /** What is left to do: two events for a pending job, one for a running one. */
  ghost function Measure(jobs: map<string, JobRec>): nat {
    2 * |PendingIds(jobs)| + |RunningSet(jobs)|
  }

  lemma UpdatedSets(jobs: map<string, JobRec>, id: string, j: JobRec)
    requires id in jobs
    ensures PendingIds(jobs[id := j]) == PendingIds(jobs) - {id} + if j.status == Pending then {id} else {}
    ensures RunningSet(jobs[id := j]) == RunningSet(jobs) - {id} + if j.status == Running then {id} else {}
  {
  }

  lemma ActShrinks(jobs: map<string, JobRec>, id: string, j: JobRec)
    requires id in jobs && j.status != Pending
    requires jobs[id].status == Pending || (jobs[id].status == Running && j.status != Running)
    ensures Measure(jobs[id := j]) < Measure(jobs)
  {
    UpdatedSets(jobs, id, j);
    var p, r := PendingIds(jobs), RunningSet(jobs);
    assert jobs[id].status == Pending ==> id in p && id !in r;
    assert jobs[id].status == Running ==> id in r && id !in p;
    SizeWithout(p, id);
    SizeWithout(r, id);
    if j.status == Running { SizeWith(r - {id}, id); }
  }

  lemma SizeWithout(s: set<string>, x: string)
    ensures |s - {x}| == if x in s then |s| - 1 else |s|
  {
    if x !in s { assert s - {x} == s; }
  }

  lemma SizeWith(s: set<string>, x: string)
    requires x !in s
    ensures |s + {x}| == |s| + 1
  {
  }

  lemma MeasureBound(jobs: map<string, JobRec>)
    ensures Measure(jobs) <= 2 * |jobs|
  {
    var p, r := PendingIds(jobs), RunningSet(jobs);
    assert p !! r;
    assert p + r <= jobs.Keys;
    SubsetSize(p + r, jobs.Keys);
    assert |p + r| == |p| + |r|;
  }

  /** Every enabled event about a job uses up some of the measure; other events none. */
  lemma EventShrinks(c: Ctx, s: Sched, ev: Event)
    requires Enabled(c, s, ev)
    ensures ev.On? ==> Measure(Effect(c, s, ev).jobs) < Measure(s.jobs)
    ensures !ev.On? ==> Effect(c, s, ev).jobs == s.jobs
  {
    if ev.On? {
      ActShrinks(s.jobs, ev.id, NewRec(c, s.clk, s.jobs[ev.id], ev.act));
    }
  }

  ghost predicate Shrinks(a: Acc, t: Acc) {
    && Measure(t.s.jobs) <= Measure(a.s.jobs)
    && (t.changed && !a.changed ==> Measure(t.s.jobs) < Measure(a.s.jobs))
  }

  lemma {:induction false} PassShrinks(c: Ctx, e: TickEnv, ph: Phase, a: Acc, ids: seq<string>)
    requires ph == Launching ==> AllPending(a.s.jobs, ids)
    ensures Shrinks(a, Pass(c, e, ph, a, ids))
  {
    hide Measure, EventFor, Effect, Enabled;
    if ids != [] {
      var init, id := ids[..|ids| - 1], ids[|ids| - 1];
      assert forall x | x in init :: x in ids;
      assert id in ids;
      PassShrinks(c, e, ph, a, init);
      PassFrame(c, e, ph, a, init);
      var b := Pass(c, e, ph, a, init);
      if id in b.s.jobs && EventFor(c, e, ph, b.s, id).Some? {
        EventEnabled(c, e, ph, b.s, id);
        EventShrinks(c, b.s, EventFor(c, e, ph, b.s, id).value);
      }
    }
  }

  lemma {:induction false} RoundsShrink(c: Ctx, e: TickEnv, a: Acc)
    ensures Shrinks(a, SkipRounds(c, e, a))
    decreases |PendingIds(a.s.jobs)|
  {
    hide Measure;
    var b := a.(changed := false);
    var round := Pass(c, e, Skipping, b, a.s.order);
    PassShrinks(c, e, Skipping, b, a.s.order);
    if round.changed {
      SkipRoundShrinks(c, e, b, a.s.order);
      RoundsShrink(c, e, round);
    }
  }

  lemma TickShrinks(c: Ctx, e: TickEnv, a: Acc)
    requires WellKeyed(a.s)
    ensures Shrinks(a, Tick(c, e, a))
  {
    hide Measure;
    var r := Pass(c, e, Reaping, a, a.s.order);
    var m := SkipRounds(c, e, r);
    PassShrinks(c, e, Reaping, a, a.s.order);
    PassFrame(c, e, Reaping, a, a.s.order);
    RoundsShrink(c, e, r);
    SkipRoundsFrame(c, e, r);
    LaunchOrderFacts(m.s);
    PassShrinks(c, e, Launching, m, LaunchOrder(m.s));
  }

  // ---- the loop -----------------------------------------------------------------------

  ghost function From(s: Sched): Acc {
    Acc(s, false, [])
  }

  ghost function StateAfter(c: Ctx, world: nat -> TickEnv, s: Sched, n: nat): Sched {
    Loop(c, world, From(s), n).s
  }

  /** Whether tick `n` changes anything. */
  ghost predicate Changes(c: Ctx, world: nat -> TickEnv, s: Sched, n: nat) {
    Tick(c, world(n), Loop(c, world, From(s), n).(changed := false)).changed
  }

  lemma LoopStart(c: Ctx, world: nat -> TickEnv, s: Sched)
    ensures StateAfter(c, world, s, 0) == s
  {
  }

  lemma LoopStep(c: Ctx, world: nat -> TickEnv, s: Sched, n: nat)
    requires WellKeyed(s)
    ensures WellKeyed(StateAfter(c, world, s, n))
    ensures Changes(c, world, s, n) ==> Measure(StateAfter(c, world, s, n + 1).jobs) < Measure(StateAfter(c, world, s, n).jobs)
    ensures !Changes(c, world, s, n) ==> SameButClock(StateAfter(c, world, s, n), StateAfter(c, world, s, n + 1))
  {
    hide Measure, Tick;
    LoopTraces(c, world, s, From(s), n);
    var a := Loop(c, world, From(s), n).(changed := false);
    var t := Tick(c, world(n), a);
    TickShrinks(c, world(n), a);
    TickTraces(c, world(n), s, a);
    if t.changed {
      SaveTraces(c, s, t);
    } else {
      QuietTick(c, world(n), a);
    }
  }

  ghost function ChangedTicks(c: Ctx, world: nat -> TickEnv, s: Sched, n: nat): nat {
    if n == 0 then 0 else ChangedTicks(c, world, s, n - 1) + if Changes(c, world, s, n - 1) then 1 else 0
  }

  /** Whatever the world does, a queue of `k` jobs sees at most `2k` changed ticks. */
  lemma {:induction false} FewChangedTicks(c: Ctx, world: nat -> TickEnv, s: Sched, n: nat)
    requires WellKeyed(s)
    ensures ChangedTicks(c, world, s, n) + Measure(StateAfter(c, world, s, n).jobs) <= Measure(s.jobs)
    ensures ChangedTicks(c, world, s, n) <= 2 * |s.jobs|
  {
    hide Measure, Loop, Changes;
    MeasureBound(s.jobs);
    if n > 0 {
      FewChangedTicks(c, world, s, n - 1);
      LoopStep(c, world, s, n - 1);
    } else {
      LoopStart(c, world, s);
    }
  }

  // ---- a tick that cannot stall -----------------------------------------------------------

  /** On a machine with nothing running, the job passes admission (outside a cooldown) and finds a block. */
  ghost predicate FitsIdle(c: Ctx, e: TickEnv, id: string, spec: JobSpec) {
    && Decide(c.cfg, 0.0, 0.0, e.readings(id), NOTHING, spec).Go?
    && Allocation(RequestOf(c.cfg, spec), Machine(c.reserved, c.secondary, Unread), c.nodes).Some?
  }

  /** The first job in line, if there is one, fits. */
  ghost predicate FirstFits(c: Ctx, e: TickEnv, s: Sched) {
    forall id | FirstInLine(s, id) && id in s.jobs :: FitsIdle(c, e, id, s.jobs[id].spec)
  }

  /** Dependencies on other jobs of the queue only go down in rank. */
  ghost predicate Acyclic(jobs: map<string, JobRec>, rank: string -> nat) {
    forall id | id in jobs :: forall d | d in jobs[id].spec.dependsOn && d in jobs :: rank(d) < rank(id)
  }

  ghost predicate NoDormantDeps(jobs: map<string, JobRec>) {
    forall id | id in jobs && jobs[id].status == Pending ::
      forall d | d in jobs[id].spec.dependsOn && d in jobs :: jobs[d].status != Dormant
  }

  lemma {:induction false} LowestPending(jobs: map<string, JobRec>, rank: string -> nat, id: string) returns (low: string)
    requires Acyclic(jobs, rank) && id in jobs && jobs[id].status == Pending
    ensures low in jobs && jobs[low].status == Pending
    ensures forall d | d in jobs[low].spec.dependsOn && d in jobs :: jobs[d].status != Pending
    decreases rank(id)
  {
    if d :| d in jobs[id].spec.dependsOn && d in jobs && jobs[d].status == Pending {
      low := LowestPending(jobs, rank, d);
    } else {
      low := id;
    }
  }

  ghost predicate Idle(jobs: map<string, JobRec>) {
    forall id :: !IsRunning(jobs, id)
  }

  lemma {:induction false} IdleOccupies(reserved: set<nat>, order: seq<string>, jobs: map<string, JobRec>)
    requires Idle(jobs)
    ensures OccupiedBy(reserved, order, jobs) == reserved
  {
    if order != [] { IdleOccupies(reserved, order[..|order| - 1], jobs); }
  }

  lemma ReadyDeps(jobs: map<string, JobRec>, rank: string -> nat) returns (id: string)
    requires Acyclic(jobs, rank) && NoDormantDeps(jobs) && Idle(jobs) && Settled(jobs) && PendingIds(jobs) != {}
    ensures id in jobs && jobs[id].status == Pending && DepsSatisfied(jobs, jobs[id].spec.dependsOn)
  {
    var some :| some in PendingIds(jobs);
    id := LowestPending(jobs, rank, some);
    forall d | d in jobs[id].spec.dependsOn ensures IsDone(jobs, d) {
      assert !IsDead(jobs, d);
      assert !IsRunning(jobs, d);
    }
  }

  /** An idle scheduler that is not cooling down launches, or fails to start, any ready job that fits. */
  lemma ReadyActs(c: Ctx, e: TickEnv, s: Sched, id: string)
    requires id in s.jobs && Idle(s.jobs) && FitsIdle(c, e, id, s.jobs[id].spec)
    requires DepsSatisfied(s.jobs, s.jobs[id].spec.dependsOn)
    requires s.cooldownUntil <= c.clock(s.clk)
    ensures Acts(EventFor(c, e, Launching, s, id))
  {
    IdleOccupies(c.reserved, s.order, s.jobs);
    IdleMeansNothing(s.order, s.jobs);
  }

  /** The job that a launch pass can consider first: its dependencies are done, and those of no pending job
      with a smaller key are. */
  ghost predicate FirstInLine(s: Sched, id: string) {
    var ids := LaunchOrder(s);
    exists k :: 0 <= k < |ids| && ids[k] == id && IsReady(s.jobs, id) && forall i | 0 <= i < k :: !IsReady(s.jobs, ids[i])
  }

  ghost predicate IsReady(jobs: map<string, JobRec>, id: string) {
    id in jobs && DepsSatisfied(jobs, jobs[id].spec.dependsOn)
  }

  lemma {:induction false} FirstReady(jobs: map<string, JobRec>, ids: seq<string>, id: string) returns (k: nat)
    requires id in ids && IsReady(jobs, id)
    ensures k < |ids| && IsReady(jobs, ids[k]) && forall i | 0 <= i < k :: !IsReady(jobs, ids[i])
  {
    k :| k < |ids| && ids[k] == id;
    if i :| 0 <= i < k && IsReady(jobs, ids[i]) {
      k := FirstReady(jobs, ids[..i + 1], ids[i]);
    }
  }

  /** A tick that changes nothing while jobs wait and none runs comes to its launch pass with a job in line. */
  lemma ReadyToLaunch(c: Ctx, e: TickEnv, a: Acc, rank: string -> nat) returns (m: Acc, id: string)
    requires WellKeyed(a.s) && !Tick(c, e, a).changed && Idle(a.s.jobs) && PendingIds(a.s.jobs) != {}
    requires Acyclic(a.s.jobs, rank) && NoDormantDeps(a.s.jobs)
    ensures Tick(c, e, a) == LaunchPass(c, e, m) && !m.changed && WellKeyed(m.s) && SameButClock(a.s, m.s)
    ensures id in LaunchOrder(m.s) && id in PendingIds(m.s.jobs) && IsReady(m.s.jobs, id) && FirstInLine(a.s, id)
  {
    hide Acyclic, NoDormantDeps, Pass, SkipRounds, Settled, DepsSatisfied;
    var r := Pass(c, e, Reaping, a, a.s.order);
    m := SkipRounds(c, e, r);
    QuietPass(c, e, Launching, m, LaunchOrder(m.s));
    QuietRounds(c, e, r);
    QuietPass(c, e, Reaping, a, a.s.order);
    SameKeyed(a.s, r.s);
    SameKeyed(r.s, m.s);
    RoundsSettle(c, e, r.s.jobs, r);
    var some := ReadyDeps(m.s.jobs, rank);
    LaunchOrderFacts(m.s);
    var k := FirstReady(m.s.jobs, LaunchOrder(m.s), some);
    id := LaunchOrder(m.s)[k];
    assert LaunchOrder(a.s) == LaunchOrder(m.s);
  }

  /** With nothing running, something pending and no cooldown, a tick in which the first job in line fits
      always skips, launches or fails a job. */
  lemma LiveTick(c: Ctx, e: TickEnv, a: Acc, rank: string -> nat)
    requires WellKeyed(a.s) && !a.changed && Monotone(c.clock)
    requires Idle(a.s.jobs) && PendingIds(a.s.jobs) != {} && a.s.cooldownUntil <= c.clock(a.s.clk)
    requires Acyclic(a.s.jobs, rank) && NoDormantDeps(a.s.jobs)
    requires FirstFits(c, e, a.s)
    ensures Tick(c, e, a).changed
  {
    hide Acyclic, NoDormantDeps, FitsIdle, Pass, SkipRounds, LeavesAlone, DepsSatisfied, FirstInLine;
    if !Tick(c, e, a).changed {
      var m, id := ReadyToLaunch(c, e, a, rank);
      QuietPass(c, e, Launching, m, LaunchOrder(m.s));
      assert LeavesAlone(c, e, Launching, m.s, id);
      NotLeftAlone(c, e, m.s, id);
    }
  }

  /** A job that waits, for a cooldown say, has its admission checked, which takes a clock reading. */
  lemma WaitingReads(c: Ctx, e: TickEnv, a: Acc, rank: string -> nat)
    requires WellKeyed(a.s) && !Tick(c, e, a).changed && Idle(a.s.jobs) && PendingIds(a.s.jobs) != {}
    requires Acyclic(a.s.jobs, rank) && NoDormantDeps(a.s.jobs)
    requires FirstFits(c, e, a.s)
    ensures a.s.clk < Tick(c, e, a).s.clk
  {
    hide Acyclic, NoDormantDeps, Pass, SkipRounds, Tick, FitsIdle, EventFor, FirstInLine;
    var m, id := ReadyToLaunch(c, e, a, rank);
    PassFrame(c, e, Launching, m, LaunchOrder(m.s));
    if LaunchPass(c, e, m).s.clk == m.s.clk {
      NoReadingNoPass(c, e, Launching, m, LaunchOrder(m.s));
      FittingIsRead(c, e, m.s, id);
    }
  }

  lemma FittingIsRead(c: Ctx, e: TickEnv, s: Sched, id: string)
    requires id in s.jobs && FitsIdle(c, e, id, s.jobs[id].spec) && DepsSatisfied(s.jobs, s.jobs[id].spec.dependsOn)
    ensures EventFor(c, e, Launching, s, id).Some?
  {
  }

  lemma SameKeyed(s: Sched, t: Sched)
    requires WellKeyed(s) && SameButClock(s, t)
    ensures WellKeyed(t)
  {
  }

  lemma NotLeftAlone(c: Ctx, e: TickEnv, s: Sched, id: string)
    requires Monotone(c.clock) && id in s.jobs && Idle(s.jobs) && FitsIdle(c, e, id, s.jobs[id].spec)
    requires DepsSatisfied(s.jobs, s.jobs[id].spec.dependsOn)
    requires s.cooldownUntil <= c.clock(s.clk)
    ensures !LeavesAlone(c, e, Launching, s, id)
  {
    hide EventFor, FitsIdle;
    forall k: nat | s.clk <= k ensures Acts(EventFor(c, e, Launching, s.(clk := k), id)) {
      ReadyActs(c, e, s.(clk := k), id);
    }
  }

  // ---- the bound --------------------------------------------------------------------------

  /** Every running job's process is found dead by one of the next `d` ticks. */
  ghost predicate Exits(c: Ctx, world: nat -> TickEnv, s: Sched, d: nat) {
    forall n: nat, id ::
      var t := StateAfter(c, world, s, n);
      IsRunning(t.jobs, id) ==> exists i :: n <= i < n + d && !IsAlive(world(i), t.procs, t.jobs[id].session)
  }

  ghost predicate QuietFor(c: Ctx, world: nat -> TickEnv, s: Sched, n: nat, k: nat) {
    forall i | n <= i < n + k :: !Changes(c, world, s, i)
  }

  /** Jobs wait and none runs, and it stays like that for `d` ticks. */
  ghost predicate Waits(c: Ctx, world: nat -> TickEnv, s: Sched, n: nat, d: nat) {
    var jobs := StateAfter(c, world, s, n).jobs;
    Idle(jobs) && !IsDrained(jobs) && QuietFor(c, world, s, n, d)
  }

  /** Waiting for `d` ticks outlasts an OOM cooldown. */
  ghost predicate CoolsOff(c: Ctx, world: nat -> TickEnv, s: Sched, d: nat) {
    && DeadlineInReach(c, s)
    && forall n: nat | Waits(c, world, s, n, d) ::
         c.clock(StateAfter(c, world, s, n + d).clk) >= c.clock(StateAfter(c, world, s, n).clk) + c.cfg.oomCooldownSeconds
  }

  /** No cooldown is under way and no job is ever killed for lack of memory. */
  ghost predicate NeverHot(c: Ctx, world: nat -> TickEnv, s: Sched) {
    && s.cooldownUntil <= c.clock(s.clk)
    && forall n: nat :: NoKill(Loop(c, world, From(s), n).log)
  }

  /** Dependencies are acyclic and never on a dormant job; and in a tick that begins with nothing running,
      launches are not paused and the first job in line fits the machine.  Nothing is asked of the readings taken
      while a job runs, nor of those for jobs further back in line. */
  ghost predicate CanAllRun(c: Ctx, world: nat -> TickEnv, s: Sched, rank: string -> nat) {
    && WellKeyed(s) && Monotone(c.clock)
    && Acyclic(s.jobs, rank) && NoDormantDeps(s.jobs)
    && (forall n: nat | Idle(StateAfter(c, world, s, n).jobs) :: FirstFits(c, world(n), StateAfter(c, world, s, n)))
  }

  /** The hypotheses of the drain theorem. */
  ghost predicate Healthy(c: Ctx, world: nat -> TickEnv, s: Sched, rank: string -> nat, d: nat) {
    && CanAllRun(c, world, s, rank)
    && Exits(c, world, s, d)
    && (CoolsOff(c, world, s, d) || NeverHot(c, world, s))
  }

  lemma {:induction false} StaysTheSame(c: Ctx, world: nat -> TickEnv, s: Sched, n: nat, k: nat)
    requires WellKeyed(s) && QuietFor(c, world, s, n, k)
    ensures SameButClock(StateAfter(c, world, s, n), StateAfter(c, world, s, n + k))
  {
    hide StateAfter, Changes;
    if k > 0 {
      StaysTheSame(c, world, s, n, k - 1);
      LoopStep(c, world, s, n + k - 1);
    }
  }

  lemma QuietKeepsAlive(c: Ctx, e: TickEnv, a: Acc, id: string)
    requires WellKeyed(a.s) && !Tick(c, e, a).changed && IsRunning(a.s.jobs, id)
    ensures IsAlive(e, a.s.procs, a.s.jobs[id].session)
  {
    hide Pass, SkipRounds, LaunchOrder, IsAlive;
    var r := Pass(c, e, Reaping, a, a.s.order);
    var m := SkipRounds(c, e, r);
    QuietPass(c, e, Launching, m, LaunchOrder(m.s));
    QuietRounds(c, e, r);
    QuietPass(c, e, Reaping, a, a.s.order);
    assert LeavesAlone(c, e, Reaping, a.s, id);
  }

  lemma LoopDescends(c: Ctx, world: nat -> TickEnv, s: Sched, n: nat)
    requires WellKeyed(s)
    ensures WellKeyed(StateAfter(c, world, s, n)) && Descends(s.jobs, StateAfter(c, world, s, n).jobs)
  {
    hide Loop, Effect, Enabled;
    LoopTraces(c, world, s, From(s), n);
    RunDescends(c, s, Loop(c, world, From(s), n).log);
  }

  lemma LoopInReach(c: Ctx, world: nat -> TickEnv, s: Sched, n: nat)
    requires WellKeyed(s) && DeadlineInReach(c, s) && Monotone(c.clock)
    ensures DeadlineInReach(c, StateAfter(c, world, s, n))
  {
    hide Loop, Effect, Enabled;
    LoopTraces(c, world, s, From(s), n);
    DeadlineOnlyMovesLater(c, s, Loop(c, world, From(s), n).log);
  }

  /** By the end of a wait of `d` ticks no cooldown is under way. */
  lemma CooledDown(c: Ctx, world: nat -> TickEnv, s: Sched, n: nat, d: nat)
    requires WellKeyed(s) && Monotone(c.clock) && Waits(c, world, s, n, d)
    requires CoolsOff(c, world, s, d) || NeverHot(c, world, s)
    ensures var t := StateAfter(c, world, s, n + d); t.cooldownUntil <= c.clock(t.clk)
  {
    hide Loop, Effect, Enabled, Idle, IsDrained;
    if CoolsOff(c, world, s, d) {
      StaysTheSame(c, world, s, n, d);
      LoopInReach(c, world, s, n);
    } else {
      LoopTraces(c, world, s, From(s), n + d);
      NoKillNoCooldown(c, s, Loop(c, world, From(s), n + d).log);
    }
  }

  /** A dead process is noticed by the tick that looks. */
  lemma ExitIsNoticed(c: Ctx, world: nat -> TickEnv, s: Sched, n: nat, d: nat, id: string)
    requires WellKeyed(s) && Exits(c, world, s, d) && IsRunning(StateAfter(c, world, s, n).jobs, id)
    ensures !QuietFor(c, world, s, n, d)
  {
    hide Tick, Loop;
    var t := StateAfter(c, world, s, n);
    var i :| n <= i < n + d && !IsAlive(world(i), t.procs, t.jobs[id].session);
    if QuietFor(c, world, s, n, d) {
      assert QuietFor(c, world, s, n, i - n);
      StaysTheSame(c, world, s, n, i - n);
      LoopStep(c, world, s, i);
      QuietKeepsAlive(c, world(i), Loop(c, world, From(s), i).(changed := false), id);
    }
  }

  lemma DescendsKeepsHypotheses(before: map<string, JobRec>, now: map<string, JobRec>, rank: string -> nat)
    requires Descends(before, now) && Acyclic(before, rank) && NoDormantDeps(before)
    ensures Acyclic(now, rank) && NoDormantDeps(now) && PendingIds(now) <= PendingIds(before)
  {
  }

  /** The loop keeps what the liveness of a tick asks for. */
  lemma StillCanAllRun(c: Ctx, world: nat -> TickEnv, s: Sched, rank: string -> nat, n: nat)
    requires CanAllRun(c, world, s, rank)
    ensures var t := StateAfter(c, world, s, n);
            && WellKeyed(t) && Acyclic(t.jobs, rank) && NoDormantDeps(t.jobs)
            && (Idle(t.jobs) ==> FirstFits(c, world(n), t))
  {
    hide StateAfter, Acyclic, NoDormantDeps, FirstFits;
    LoopDescends(c, world, s, n);
    DescendsKeepsHypotheses(s.jobs, StateAfter(c, world, s, n).jobs, rank);
  }

  /** An idle, undrained queue cannot stay quiet once its cooldown is over. */
  lemma IdleGetsGoing(c: Ctx, world: nat -> TickEnv, s: Sched, rank: string -> nat, d: nat, n: nat)
    requires Healthy(c, world, s, rank, d)
    requires var t := StateAfter(c, world, s, n); Idle(t.jobs) && !IsDrained(t.jobs)
    ensures !QuietFor(c, world, s, n, d) || Changes(c, world, s, n + d)
  {
    hide Tick, Loop, Acyclic, NoDormantDeps, FirstFits, Exits, CoolsOff, NeverHot;
    if QuietFor(c, world, s, n, d) {
      StaysTheSame(c, world, s, n, d);
      StillCanAllRun(c, world, s, rank, n + d);
      CooledDown(c, world, s, n, d);
      UndrainedIdleIsPending(StateAfter(c, world, s, n).jobs);
      LiveTick(c, world(n + d), Loop(c, world, From(s), n + d).(changed := false), rank);
    }
  }

  lemma UndrainedIdleIsPending(jobs: map<string, JobRec>)
    requires Idle(jobs) && !IsDrained(jobs)
    ensures PendingIds(jobs) != {}
  {
    var id :| id in jobs && (jobs[id].status == Pending || jobs[id].status == Running);
    assert !IsRunning(jobs, id);
    assert id in PendingIds(jobs);
  }

  /** Within any `d + 1` ticks of an undrained queue something changes. */
  lemma SomethingChanges(c: Ctx, world: nat -> TickEnv, s: Sched, rank: string -> nat, d: nat, n: nat) returns (i: nat)
    requires Healthy(c, world, s, rank, d) && !IsDrained(StateAfter(c, world, s, n).jobs)
    ensures n <= i <= n + d && Changes(c, world, s, i)
  {
    hide StateAfter, Changes, Acyclic, NoDormantDeps, FirstFits, CoolsOff, NeverHot;
    if id :| IsRunning(StateAfter(c, world, s, n).jobs, id) {
      ExitIsNoticed(c, world, s, n, d, id);
      i :| n <= i < n + d && Changes(c, world, s, i);
    } else {
      IdleGetsGoing(c, world, s, rank, d, n);
      if !QuietFor(c, world, s, n, d) {
        i :| n <= i < n + d && Changes(c, world, s, i);
      } else {
        i := n + d;
      }
    }
  }

  lemma {:induction false} MeasureFalls(c: Ctx, world: nat -> TickEnv, s: Sched, n: nat, k: nat)
    requires WellKeyed(s)
    ensures Measure(StateAfter(c, world, s, n + k).jobs) <= Measure(StateAfter(c, world, s, n).jobs)
  {
    hide StateAfter, Changes, Measure;
    if k > 0 {
      MeasureFalls(c, world, s, n, k - 1);
      LoopStep(c, world, s, n + k - 1);
    }
  }

  lemma Distribute(i: nat, n: nat, d: nat, m: nat, m': nat)
    requires i <= n + d && m' < m
    ensures i + 1 + m' * (d + 1) <= n + m * (d + 1)
  {
    assert (m' + 1) * (d + 1) <= m * (d + 1);
  }

  lemma {:induction false} DrainsFrom(c: Ctx, world: nat -> TickEnv, s: Sched, rank: string -> nat, d: nat, n: nat) returns (end: nat)
    requires Healthy(c, world, s, rank, d)
    ensures end <= n + Measure(StateAfter(c, world, s, n).jobs) * (d + 1)
    ensures IsDrained(StateAfter(c, world, s, end).jobs)
    decreases Measure(StateAfter(c, world, s, n).jobs)
  {
    hide StateAfter, Changes, Measure, IsDrained, Acyclic, NoDormantDeps, FirstFits, CoolsOff, NeverHot, Exits;
    var m := Measure(StateAfter(c, world, s, n).jobs);
    if IsDrained(StateAfter(c, world, s, n).jobs) {
      end := n;
      assert m * (d + 1) >= 0;
    } else {
      var i := SomethingChanges(c, world, s, rank, d, n);
      MeasureFalls(c, world, s, n, i - n);
      LoopStep(c, world, s, i);
      Distribute(i, n, d, m, Measure(StateAfter(c, world, s, i + 1).jobs));
      end := DrainsFrom(c, world, s, rank, d, i + 1);
    }
  }

  /** Drain with a bound.  From any state of `k` jobs whose dependencies are acyclic and never on a dormant
      job, if every pending job fits the idle machine, launches are not paused, and `d` ticks are enough for
      any running process to end and for any cooldown to pass, the loop drains within `2k(d + 1)` ticks. */
  lemma QueueDrains(c: Ctx, world: nat -> TickEnv, s: Sched, rank: string -> nat, d: nat) returns (end: nat)
    requires Healthy(c, world, s, rank, d)
    ensures end <= 2 * |s.jobs| * (d + 1)
    ensures IsDrained(StateAfter(c, world, s, end).jobs)
  {
    hide StateAfter, Changes, Measure, IsDrained, Acyclic, NoDormantDeps, FirstFits, CoolsOff, NeverHot, Exits;
    end := DrainsFrom(c, world, s, rank, d, 0);
    LoopStart(c, world, s);
    MeasureBound(s.jobs);
    assert Measure(s.jobs) * (d + 1) <= 2 * |s.jobs| * (d + 1);
  }

  // ---- when cooldowns do not stand in the way ------------------------------------------------

  /** Every tick of a wait takes a clock reading. */
  lemma {:induction false} WaitingTakesReadings(c: Ctx, world: nat -> TickEnv, s: Sched, rank: string -> nat, n: nat, k: nat)
    requires CanAllRun(c, world, s, rank) && Waits(c, world, s, n, k)
    ensures StateAfter(c, world, s, n + k).clk >= StateAfter(c, world, s, n).clk + k
  {
    hide Tick, Loop, Acyclic, NoDormantDeps, FirstFits, WellKeyed, Monotone;
    if k > 0 {
      var last := n + k - 1;
      WaitingTakesReadings(c, world, s, rank, n, k - 1);
      StaysTheSame(c, world, s, n, k - 1);
      StillCanAllRun(c, world, s, rank, last);
      UndrainedIdleIsPending(StateAfter(c, world, s, n).jobs);
      assert !Changes(c, world, s, last);
      WaitingReads(c, world(last), Loop(c, world, From(s), last).(changed := false), rank);
      QuietStep(c, world, s, last);
    }
  }

  lemma QuietStep(c: Ctx, world: nat -> TickEnv, s: Sched, n: nat)
    requires !Changes(c, world, s, n)
    ensures StateAfter(c, world, s, n + 1) == Tick(c, world(n), Loop(c, world, From(s), n).(changed := false)).s
  {
    hide Tick;
  }

  /** A clock that moves on is enough: waiting for `d` ticks outlasts a cooldown if `d` clock readings do. */
  lemma TickingClockCoolsOff(c: Ctx, world: nat -> TickEnv, s: Sched, rank: string -> nat, d: nat)
    requires CanAllRun(c, world, s, rank) && DeadlineInReach(c, s)
    requires forall k: nat :: c.clock(k + d) >= c.clock(k) + c.cfg.oomCooldownSeconds
    ensures CoolsOff(c, world, s, d)
  {
    hide StateAfter, Acyclic, NoDormantDeps, FirstFits, Waits;
    forall n: nat | Waits(c, world, s, n, d)
      ensures c.clock(StateAfter(c, world, s, n + d).clk) >= c.clock(StateAfter(c, world, s, n).clk) + c.cfg.oomCooldownSeconds
    {
      WaitingTakesReadings(c, world, s, rank, n, d);
      assert c.clock(StateAfter(c, world, s, n).clk + d) <= c.clock(StateAfter(c, world, s, n + d).clk);
    }
  }

  lemma {:induction false} PassWithoutKill(c: Ctx, e: TickEnv, ph: Phase, a: Acc, ids: seq<string>)
    requires NoKill(a.log) && forall id :: !e.oomHint(id)
    ensures NoKill(Pass(c, e, ph, a, ids).log)
  {
    hide LaunchEvent, Effect;
    if ids != [] {
      var init, id := ids[..|ids| - 1], ids[|ids| - 1];
      PassWithoutKill(c, e, ph, a, init);
      var b := Pass(c, e, ph, a, init);
      if id in b.s.jobs && EventFor(c, e, ph, b.s, id).Some? {
        NoHintNoKill(c, e, ph, b.s, id);
      }
    }
  }

  lemma NoHintNoKill(c: Ctx, e: TickEnv, ph: Phase, s: Sched, id: string)
    requires id in s.jobs && EventFor(c, e, ph, s, id).Some? && !e.oomHint(id)
    ensures !ReapsKill(EventFor(c, e, ph, s, id).value)
  {
  }

  lemma {:induction false} RoundsWithoutKill(c: Ctx, e: TickEnv, a: Acc)
    requires NoKill(a.log) && forall id :: !e.oomHint(id)
    ensures NoKill(SkipRounds(c, e, a).log)
    decreases |PendingIds(a.s.jobs)|
  {
    var b := a.(changed := false);
    PassWithoutKill(c, e, Skipping, b, a.s.order);
    if Pass(c, e, Skipping, b, a.s.order).changed {
      SkipRoundShrinks(c, e, b, a.s.order);
      RoundsWithoutKill(c, e, Pass(c, e, Skipping, b, a.s.order));
    }
  }

  lemma {:induction false} LoopWithoutKill(c: Ctx, world: nat -> TickEnv, a: Acc, n: nat)
    requires NoKill(a.log) && forall i: nat, id :: !world(i).oomHint(id)
    ensures NoKill(Loop(c, world, a, n).log)
  {
    hide Pass, SkipRounds, LaunchOrder, Effect;
    if n > 0 {
      LoopWithoutKill(c, world, a, n - 1);
      var e, b := world(n - 1), Loop(c, world, a, n - 1).(changed := false);
      var r := Pass(c, e, Reaping, b, b.s.order);
      var m := SkipRounds(c, e, r);
      PassWithoutKill(c, e, Reaping, b, b.s.order);
      RoundsWithoutKill(c, e, r);
      PassWithoutKill(c, e, Launching, m, LaunchOrder(m.s));
    }
  }

  /** Without out-of-memory kills nothing need be known about the clock and the cooldown's length. */
  lemma QueueDrainsWithoutKills(c: Ctx, world: nat -> TickEnv, s: Sched, rank: string -> nat, d: nat) returns (end: nat)
    requires CanAllRun(c, world, s, rank) && Exits(c, world, s, d)
    requires s.cooldownUntil <= c.clock(s.clk) && forall n: nat, id :: !world(n).oomHint(id)
    ensures end <= 2 * |s.jobs| * (d + 1)
    ensures IsDrained(StateAfter(c, world, s, end).jobs)
  {
    hide StateAfter, IsDrained, CanAllRun, CoolsOff, Exits, Loop;
    forall n: nat ensures NoKill(Loop(c, world, From(s), n).log) {
      LoopWithoutKill(c, world, From(s), n);
    }
    end := QueueDrains(c, world, s, rank, d);
  }

  // ---- the run loop ends --------------------------------------------------------------------

  /** The same state and flag, whatever was logged on the way. */
  ghost predicate Twins(a: Acc, b: Acc) {
    a.s == b.s && a.changed == b.changed
  }

  lemma {:induction false} PassTwins(c: Ctx, e: TickEnv, ph: Phase, a: Acc, b: Acc, ids: seq<string>)
    requires Twins(a, b)
    ensures Twins(Pass(c, e, ph, a, ids), Pass(c, e, ph, b, ids))
  {
    hide EventFor, Effect;
    if ids != [] { PassTwins(c, e, ph, a, b, ids[..|ids| - 1]); }
  }

  lemma {:induction false} RoundsTwins(c: Ctx, e: TickEnv, a: Acc, b: Acc)
    requires Twins(a, b)
    ensures Twins(SkipRounds(c, e, a), SkipRounds(c, e, b))
    decreases |PendingIds(a.s.jobs)|
  {
    hide PendingIds;
    var a', b' := a.(changed := false), b.(changed := false);
    var u, v := Pass(c, e, Skipping, a', a.s.order), Pass(c, e, Skipping, b', b.s.order);
    PassTwins(c, e, Skipping, a', b', a.s.order);
    if u.changed {
      SkipRoundShrinks(c, e, a', a.s.order);
      RoundsTwins(c, e, u, v);
    }
  }

  lemma TickTwins(c: Ctx, e: TickEnv, a: Acc, b: Acc)
    requires Twins(a, b)
    ensures Twins(SaveIfChanged(c, Tick(c, e, a)), SaveIfChanged(c, Tick(c, e, b)))
  {
    hide Pass, SkipRounds, LaunchOrder;
    PassTwins(c, e, Reaping, a, b, a.s.order);
    var ra, rb := Pass(c, e, Reaping, a, a.s.order), Pass(c, e, Reaping, b, b.s.order);
    RoundsTwins(c, e, ra, rb);
    var ma, mb := SkipRounds(c, e, ra), SkipRounds(c, e, rb);
    PassTwins(c, e, Launching, ma, mb, LaunchOrder(ma.s));
  }

  lemma {:induction false} LoopTwins(c: Ctx, world: nat -> TickEnv, a: Acc, b: Acc, n: nat)
    requires a.s == b.s
    ensures Loop(c, world, a, n).s == Loop(c, world, b, n).s
  {
    hide Tick, SaveIfChanged;
    if n > 0 {
      LoopTwins(c, world, a, b, n - 1);
      TickTwins(c, world(n - 1), Loop(c, world, a, n - 1).(changed := false), Loop(c, world, b, n - 1).(changed := false));
    }
  }

  lemma DrainedHasNoMeasure(jobs: map<string, JobRec>)
    ensures IsDrained(jobs) <==> Measure(jobs) == 0
  {
    if !IsDrained(jobs) {
      var id :| id in jobs && (jobs[id].status == Pending || jobs[id].status == Running);
      assert id in PendingIds(jobs) || id in RunningSet(jobs);
    } else {
      assert PendingIds(jobs) == {} && RunningSet(jobs) == {};
    }
  }

  /** `run` without a tick limit returns: in a healthy world a process that has done its startup sweep is
      drained after some number of ticks, at least one and at most `2k(d + 1) + 1`. */
  lemma RunReturns(c: Ctx, p: Process, s: Sched, rank: string -> nat, d: nat) returns (bound: nat)
    requires Healthy(c, p.world, Startup(c, p.boot, s).s, rank, d) && WellKeyed(s)
    ensures 1 <= bound <= 2 * |s.jobs| * (d + 1) + 1
    ensures IsDrained(Stage(c, p, s, bound + 1).s.jobs)
  {
    hide StateAfter, Measure, IsDrained, Healthy, Startup, Stage;
    var start := Startup(c, p.boot, s);
    StartupTraces(c, p.boot, s);
    var end := QueueDrains(c, p.world, start.s, rank, d);
    SameSize(start.s.jobs, s.jobs);
    MeasureFalls(c, p.world, start.s, end, 1);
    DrainedHasNoMeasure(StateAfter(c, p.world, start.s, end).jobs);
    DrainedHasNoMeasure(StateAfter(c, p.world, start.s, end + 1).jobs);
    bound := end + 1;
    StageAfter(c, p, s, bound);
  }

  lemma SameSize(a: map<string, JobRec>, b: map<string, JobRec>)
    requires a.Keys == b.Keys
    ensures |a| == |b|
  {
    assert |a| == |a.Keys| && |b| == |b.Keys|;
  }

  lemma StageAfter(c: Ctx, p: Process, s: Sched, n: nat)
    ensures Stage(c, p, s, n + 1).s == StateAfter(c, p.world, Startup(c, p.boot, s).s, n)
  {
    hide Loop, Stage, Startup;
    StageIsLoop(c, p, s, n);
    LoopTwins(c, p.world, Startup(c, p.boot, s), From(Startup(c, p.boot, s).s), n);
  }

  // ---- a healthy world ------------------------------------------------------------------------

  function Small(id: string, deps: seq<string>): JobSpec {
    JobSpec(id, 1, 40.0, 0, 0, deps, 100, false)
  }

  /** A job whose process an earlier scheduler started. */
  const INHERITED := JobRec(Small("a", []), Running, Pid(1), "0", 0, 0.0, 0.0, NoReason, None)

  function Waiting(id: string, deps: seq<string>): JobRec {
    JobRec(Small(id, deps), Pending, Untracked, "", -1, 0.0, 0.0, NoReason, None)
  }

  /** Two jobs on two cores, the default slice, and the default cooldown of 300 seconds. */
  const TWO_CORE_CONFIG := Config(2, 100.0, 2, 4.0, 0.0, "nodepilot.slice", 300.0, false, "")

  /** Ten seconds from one reading to the next. */
  function TenSeconds(n: nat): real {
    10.0 * n as real
  }

  /** Job `a` has been killed for lack of memory and its share of the 64 GB slice is free again; every other
      process exits with status 0 at once. */
  const PROMPT_ENV := TickEnv(
    (pid: int) => Some(0), (pid: int) => false, (name: string) => false, (id: string) => false,
    (id: string) => id == "a", (id: string) => Readings(false, Some(0.0), Some(64.0), None),
    (id: string) => Started(if id == "b" then 2 else 3))

  /** Before that `a` is alive and uses 40 GB. */
  const BUSY_ENV := PROMPT_ENV.(
    pidAlive := (pid: int) => pid == 1, readings := (id: string) => Readings(false, Some(40.0), Some(64.0), None))

  function BusyThenPrompt(n: nat): TickEnv {
    if n == 0 then BUSY_ENV else PROMPT_ENV
  }

  function ChainRank(id: string): nat {
    if id == "c" then 1 else 0
  }

  function TwoCoreMachine(): Ctx {
    Ctx(TWO_CORE_CONFIG, [Node(0, Format({0, 1}))], {}, {}, TenSeconds, [])
  }

  /** `b` waits for the memory that `a` uses, and `c` for `b`. */
  function Resumed(): Sched {
    Sched(["a", "b", "c"], map["a" := INHERITED, "b" := Waiting("b", []), "c" := Waiting("c", ["b"])], map[], 0.0, 0, Disk(None, NoTmp))
  }

  lemma TwoCoresSuffice(id: string, deps: seq<string>)
    ensures FitsIdle(TwoCoreMachine(), PROMPT_ENV, id, Small(id, deps))
  {
    hide Allocation, Decide;
    RoomOnTwoCores(id, deps);
    MemoryWhenIdle(id, deps);
  }

  lemma RoomOnTwoCores(id: string, deps: seq<string>)
    ensures var req := RequestOf(TWO_CORE_CONFIG, Small(id, deps));
            Allocation(req, Machine({}, {}, Unread), TwoCoreMachine().nodes).Some?
  {
    hide Allocation, Format, NodeCores;
    var req, m, node := RequestOf(TWO_CORE_CONFIG, Small(id, deps)), Machine({}, {}, Unread), Node(0, Format({0, 1}));
    CoresOfTwo(node);
    assert node in [node];
    AllocationOptimal(req, m, [node]);
    assert Eligible(req, m, node);
  }

  lemma CoresOfTwo(node: Node)
    requires node.spec == Format({0, 1})
    ensures |NodeCores(node) - {}| == 2
  {
    hide Format, Parse;
    RoundTrip({0, 1});
    assert NodeCores(node) - {} == {0, 1};
  }

  lemma MemoryWhenIdle(id: string, deps: seq<string>)
    ensures Decide(TWO_CORE_CONFIG, 0.0, 0.0, PROMPT_ENV.readings(id), NOTHING, Small(id, deps)).Go?
  {
  }

  lemma PromptExits(c: Ctx, s: Sched, d: nat)
    requires d >= 2
    ensures Exits(c, BusyThenPrompt, s, d)
  {
    hide StateAfter;
    forall n: nat, id | IsRunning(StateAfter(c, BusyThenPrompt, s, n).jobs, id)
      ensures var t := StateAfter(c, BusyThenPrompt, s, n);
              exists i :: n <= i < n + d && !IsAlive(BusyThenPrompt(i), t.procs, t.jobs[id].session)
    {
      var t := StateAfter(c, BusyThenPrompt, s, n);
      assert !IsAlive(BusyThenPrompt(n + 1), t.procs, t.jobs[id].session);
    }
  }

  /** What the concrete state amounts to. */
  lemma ResumedFacts()
    ensures var s := Resumed();
            && s.order == ["a", "b", "c"] && s.jobs.Keys == {"a", "b", "c"}
            && s.jobs["a"] == INHERITED && s.jobs["b"] == Waiting("b", []) && s.jobs["c"] == Waiting("c", ["b"])
            && s.procs == map[] && s.cooldownUntil == 0.0 && s.clk == 0
            && WellKeyed(s) && PendingIds(s.jobs) == {"b", "c"}
  {
    var s := Resumed();
    assert s.order[0] == "a" && s.order[1] == "b" && s.order[2] == "c";
  }

  lemma ResumedIsAcyclic()
    ensures Acyclic(Resumed().jobs, ChainRank) && NoDormantDeps(Resumed().jobs)
  {
    hide Resumed, PendingIds, WellKeyed;
    ResumedFacts();
  }

  lemma FirstFitsLater(n: nat)
    requires Idle(StateAfter(TwoCoreMachine(), BusyThenPrompt, Resumed(), n).jobs)
    ensures FirstFits(TwoCoreMachine(), BusyThenPrompt(n), StateAfter(TwoCoreMachine(), BusyThenPrompt, Resumed(), n))
  {
    hide StateAfter, FitsIdle, WellKeyed, LaunchOrder, DepsSatisfied, Resumed, TwoCoreMachine, Acyclic, NoDormantDeps;
    var c, s := TwoCoreMachine(), Resumed();
    var t := StateAfter(c, BusyThenPrompt, s, n);
    LoopStart(c, BusyThenPrompt, s);
    ResumedFacts();
    assert IsRunning(s.jobs, "a");
    ResumedIsAcyclic();
    LoopDescends(c, BusyThenPrompt, s, n);
    DescendsKeepsHypotheses(s.jobs, t.jobs, ChainRank);
    TwoCoresSuffice("b", []);
    TwoCoresSuffice("c", ["b"]);
    LaunchOrderFacts(t);
    forall id | FirstInLine(t, id) && id in t.jobs ensures FitsIdle(c, BusyThenPrompt(n), id, t.jobs[id].spec) {
      assert id in PendingIds(t.jobs);
    }
  }

  lemma ResumedCanAllRun()
    ensures CanAllRun(TwoCoreMachine(), BusyThenPrompt, Resumed(), ChainRank)
  {
    hide FirstFits, WellKeyed, Acyclic, NoDormantDeps, StateAfter, Idle, Resumed;
    ResumedFacts();
    ResumedIsAcyclic();
    forall n: nat | Idle(StateAfter(TwoCoreMachine(), BusyThenPrompt, Resumed(), n).jobs)
      ensures FirstFits(TwoCoreMachine(), BusyThenPrompt(n), StateAfter(TwoCoreMachine(), BusyThenPrompt, Resumed(), n))
    {
      FirstFitsLater(n);
    }
  }

  lemma NothingToBury()
    ensures Startup(TwoCoreMachine(), BUSY_ENV, Resumed()).s == Resumed()
  {
    hide Resumed, TwoCoreMachine, WellKeyed, PendingIds, Startup;
    ResumedFacts();
    QuietStartup(TwoCoreMachine(), BUSY_ENV, Resumed());
  }

  lemma LoadOfThree(jobs: map<string, JobRec>)
    requires jobs.Keys == {"a", "b", "c"} && jobs["a"] == INHERITED
    requires jobs["b"].status == Pending && jobs["c"].status == Pending
    ensures Total(["a", "b", "c"], jobs) == Load(1, 1, 40.0, 0)
  {
    hide Total, Part;
    var one, two, three := ["a"], ["a", "b"], ["a", "b", "c"];
    assert [] + ["a"] == one && one + ["b"] == two && two + ["c"] == three;
    NoneListed(jobs);
    TotalSnoc([], "a", jobs);
    TotalSnoc(one, "b", jobs);
    TotalSnoc(two, "c", jobs);
    NoWeight(jobs, "b");
    NoWeight(jobs, "c");
    FirstWeight(jobs);
  }

  lemma NoneListed(jobs: map<string, JobRec>)
    ensures Total([], jobs) == NOTHING
  {
  }

  lemma FirstWeight(jobs: map<string, JobRec>)
    requires "a" in jobs && jobs["a"] == INHERITED
    ensures Part(jobs, "a") == Load(1, 1, 40.0, 0)
  {
  }

  /** Beside `a` there is no memory for another job. */
  lemma NoMemoryBeside(cooldownUntil: real, now: real, id: string, deps: seq<string>)
    requires cooldownUntil <= now
    ensures Decide(TWO_CORE_CONFIG, cooldownUntil, now, BUSY_ENV.readings(id), Load(1, 1, 40.0, 0), Small(id, deps)) == Wait(SliceRam)
  {
  }

  lemma RefusedForMemory(k: nat)
    ensures DecisionAt(TwoCoreMachine(), Resumed().(clk := k), BUSY_ENV.readings("b"), Small("b", [])) == Wait(SliceRam)
  {
    hide Total, Decide, Resumed, WellKeyed, PendingIds;
    ResumedFacts();
    LoadOfThree(Resumed().jobs);
    NoMemoryBeside(0.0, TenSeconds(k), "b", []);
  }

  lemma NothingToReapOrSkip(s: Sched, id: string)
    requires SameButClock(Resumed(), s) && id in s.jobs
    ensures NeverActs(TwoCoreMachine(), BUSY_ENV, Reaping, s, id) && NeverActs(TwoCoreMachine(), BUSY_ENV, Skipping, s, id)
  {
    hide Resumed, TwoCoreMachine, WellKeyed, PendingIds;
    ResumedFacts();
    BlockerMeaning(s.jobs, s.jobs[id].spec.dependsOn);
    assert !IsDead(s.jobs, "b");
  }

  lemma NothingToLaunch(s: Sched, id: string)
    requires SameButClock(Resumed(), s) && id in PendingIds(s.jobs)
    ensures NeverActs(TwoCoreMachine(), BUSY_ENV, Launching, s, id)
  {
    hide DecisionAt, Block, Resumed, TwoCoreMachine, WellKeyed;
    ResumedFacts();
    forall k: nat | s.clk <= k ensures !Acts(EventFor(TwoCoreMachine(), BUSY_ENV, Launching, s.(clk := k), id)) {
      RefusedForMemory(k);
      assert s.(clk := k) == Resumed().(clk := k);
      if id == "c" { assert !IsDone(s.jobs, "b") && "b" in s.jobs[id].spec.dependsOn; }
    }
  }

  /** The first tick changes nothing: `a` is alive, and `b` is refused. */
  lemma FirstTickIsQuiet()
    ensures !Changes(TwoCoreMachine(), BusyThenPrompt, Resumed(), 0)
  {
    hide Pass, WellKeyed, LaunchOrder, Resumed, TwoCoreMachine, PendingIds, NeverActs;
    var c, s := TwoCoreMachine(), Resumed();
    var a := From(s);
    ResumedFacts();
    forall id | id in s.order && id in s.jobs ensures NeverActs(c, BUSY_ENV, Reaping, s, id) { NothingToReapOrSkip(s, id); }
    NothingToAct(c, BUSY_ENV, Reaping, a, s.order);
    QuietPass(c, BUSY_ENV, Reaping, a, s.order);
    var r := Pass(c, BUSY_ENV, Reaping, a, s.order);
    forall id | id in s.order && id in s.jobs ensures NeverActs(c, BUSY_ENV, Skipping, r.s, id) { NothingToReapOrSkip(r.s, id); }
    NothingToAct(c, BUSY_ENV, Skipping, r, s.order);
    QuietPass(c, BUSY_ENV, Skipping, r, s.order);
    var m := SkipRounds(c, BUSY_ENV, r);
    SameKeyed(s, m.s);
    LaunchOrderFacts(m.s);
    forall id | id in LaunchOrder(m.s) && id in m.s.jobs ensures NeverActs(c, BUSY_ENV, Launching, m.s, id) {
      NothingToLaunch(m.s, id);
    }
    NothingToAct(c, BUSY_ENV, Launching, m, LaunchOrder(m.s));
    LoopStart(c, BusyThenPrompt, s);
  }

  /** The first tick refuses job `id` for the memory its slice has in use. */
  ghost predicate FirstRefusesForMemory(c: Ctx, world: nat -> TickEnv, s: Sched, id: string) {
    id in s.jobs && DecisionAt(c, s, world(0).readings(id), s.jobs[id].spec) == Wait(SliceRam)
  }

  /** The second tick finds that job `id` has been killed for lack of memory. */
  ghost predicate SecondFindsKill(c: Ctx, world: nat -> TickEnv, s: Sched, id: string) {
    var t := StateAfter(c, world, s, 1);
    id in t.jobs && EventFor(c, world(1), Reaping, t, id) == Some(On(id, Reap(Outcome(Failed, OomKilled, None))))
  }

  lemma KillIsFound()
    ensures SecondFindsKill(TwoCoreMachine(), BusyThenPrompt, Resumed(), "a")
  {
    hide StateAfter, Changes, WellKeyed, Resumed, PendingIds, TwoCoreMachine, Measure, EventFor;
    var c, s := TwoCoreMachine(), Resumed();
    ResumedFacts();
    FirstTickIsQuiet();
    LoopStart(c, BusyThenPrompt, s);
    LoopStep(c, BusyThenPrompt, s, 0);
    InheritedIsKilled(c, StateAfter(c, BusyThenPrompt, s, 1));
  }

  lemma InheritedIsKilled(c: Ctx, s: Sched)
    requires "a" in s.jobs && s.jobs["a"] == INHERITED && s.procs == map[]
    ensures EventFor(c, PROMPT_ENV, Reaping, s, "a") == Some(On("a", Reap(Outcome(Failed, OomKilled, None))))
  {
  }

  /** Some job waits for another one of the queue. */
  ghost predicate HasPendingDependency(jobs: map<string, JobRec>, id: string, d: string) {
    id in PendingIds(jobs) && d in PendingIds(jobs) && d in jobs[id].spec.dependsOn
  }

  /** The hypotheses of the drain theorem can be met with the default cooldown and slice, a dependency, a job
      that the first tick refuses for live memory while another one runs, and an out-of-memory kill found by the
      second. */
  lemma HealthyWorldExists()
    ensures Startup(TwoCoreMachine(), BUSY_ENV, Resumed()).s == Resumed()
    ensures Healthy(TwoCoreMachine(), BusyThenPrompt, Resumed(), ChainRank, 30)
    ensures IsRunning(Resumed().jobs, "a") && HasPendingDependency(Resumed().jobs, "c", "b")
    ensures FirstRefusesForMemory(TwoCoreMachine(), BusyThenPrompt, Resumed(), "b")
    ensures SecondFindsKill(TwoCoreMachine(), BusyThenPrompt, Resumed(), "a")
  {
    hide StateAfter, CanAllRun, Exits, CoolsOff, Startup, EventFor, DecisionAt, Resumed, WellKeyed, SecondFindsKill;
    ResumedFacts();
    ResumedCanAllRun();
    PromptExits(TwoCoreMachine(), Resumed(), 30);
    TickingClockCoolsOff(TwoCoreMachine(), BusyThenPrompt, Resumed(), ChainRank, 30);
    NothingToBury();
    RefusedForMemory(0);
    assert Resumed().(clk := 0) == Resumed();
    KillIsFound();
  }
}
