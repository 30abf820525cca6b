/** What one step of a run may do to a job's record, and how a launch pass leaves a pending job: in terms of the
    records and of what starting a process came to. */
module Lifecycle {
  import opened Wrappers
  import opened Numa
  import opened Jobs
  import opened Admission
  import opened Runner
  import opened Scheduler
  import opened Runs
  import opened Safety

  // ---- one step -----------------------------------------------------------------------

  /** A running job has ended: by itself, killed, or found gone at startup, when it gives its cores back. */
  ghost predicate EndedAt(now: real, j: JobRec, j': JobRec) {
    && j.status == Running
    && ((j'.status == Done && j'.reason == NoReason) || j'.status == Failed)
    && j' == j.(
         status := j'.status, reason := j'.reason, exitCode := j'.exitCode, endTime := now,
         cpuList := if j'.reason == ZombieAtRestart && j'.cpuList == "" then "" else j.cpuList)
  }

  /** A pending job has been skipped because of a dependency that is unknown, failed or skipped. */
  ghost predicate SkippedAt(now: real, jobs: map<string, JobRec>, j: JobRec, j': JobRec) {
    && j.status == Pending
    && j' == j.(status := Skipped, reason := j'.reason, endTime := now)
    && exists d :: && d in j.spec.dependsOn
                   && (d in jobs ==> jobs[d].status == Failed || jobs[d].status == Skipped)
                   && j'.reason == if d in jobs then DependencyFailed(d) else DependencyUnknown(d)
  }

  /** A pending job has been placed and started, or placed and its start has failed. */
  ghost predicate StartedAt(now: real, jobs: map<string, JobRec>, j: JobRec, j': JobRec) {
    && j.status == Pending
    && (forall d | d in j.spec.dependsOn :: d in jobs && jobs[d].status == Done)
    && (|| j' == j.(status := Running, session := j'.session, cpuList := j'.cpuList, numaNode := j'.numaNode, startTime := now)
        || (j'.reason.LaunchError?
            && j' == j.(status := Failed, reason := j'.reason, cpuList := j'.cpuList, numaNode := j'.numaNode, endTime := now)))
  }

  /** The ways in which a record may change. */
  ghost predicate LegalChange(c: Ctx, s: Sched, j: JobRec, j': JobRec) {
    || j' == j
    || EndedAt(c.clock(s.clk), j, j')
    || SkippedAt(c.clock(s.clk), s.jobs, j, j')
    || StartedAt(c.clock(s.clk + 1), s.jobs, j, j')
  }

  lemma EventIsLegal(c: Ctx, s: Sched, ev: Event)
    requires Enabled(c, s, ev)
    ensures forall id | id in s.jobs :: id in Effect(c, s, ev).jobs && LegalChange(c, s, s.jobs[id], Effect(c, s, ev).jobs[id])
  {
    hide Block, DecisionAt, Blocker;
    EffectFrame(c, s, ev);
    if ev.On? {
      var j := s.jobs[ev.id];
      var j' := NewRec(c, s.clk, j, ev.act);
      BlockerMeaning(s.jobs, j.spec.dependsOn);
      assert LegalChange(c, s, j, j');
    }
  }

  /** In every step of every run each record stays or changes in one of these ways, and no two records change. */
  lemma EveryStepIsLegal(c: Ctx, s: Sched, log: seq<Event>, k: nat)
    requires ValidRun(c, s, log) && k < |log|
    ensures var t, u := At(c, s, log, k), At(c, s, log, k + 1);
            && u.jobs.Keys == t.jobs.Keys
            && (forall id | id in t.jobs :: LegalChange(c, t, t.jobs[id], u.jobs[id]))
            && (forall a, b | a in t.jobs && b in t.jobs && u.jobs[a] != t.jobs[a] && u.jobs[b] != t.jobs[b] :: a == b)
  {
    hide At, Effect, Enabled, ValidRun, LegalChange;
    AtNext(c, s, log, k);
    EventIsLegal(c, At(c, s, log, k), log[k]);
    EffectFrame(c, At(c, s, log, k), log[k]);
  }

  // ---- the launch pass ---------------------------------------------------------------------

  /** In state `b` the job's dependencies are done, it is admissible, and `p` is the allocator's answer for its
      cores and memory, the cores of the running jobs and the reserved ones being occupied. */
  ghost predicate MayStart(c: Ctx, r: Readings, b: Sched, spec: JobSpec, p: Placement) {
    && (forall d | d in spec.dependsOn :: d in b.jobs && b.jobs[d].status == Done)
    && Admissible(c, b, r, spec)
    && Allocation(
         Request(spec.cores, spec.ramGb, c.cfg.interleaveThresholdGb, 0.0, 0.0),
         Machine(OccupiedBy(c.reserved, b.order, b.jobs), c.secondary, Unread), c.nodes) == Some(p)
  }

  /** Running jobs keep their records, no dependency has become done, and the clock has not gone back. */
  ghost predicate KeepsRunning(s: Sched, t: Sched) {
    && s.clk <= t.clk
    && (forall id | IsRunning(s.jobs, id) :: id in t.jobs && t.jobs[id] == s.jobs[id])
    && (forall id | id in t.jobs && t.jobs[id].status == Done :: id in s.jobs && s.jobs[id].status == Done)
  }

  /** The job got the cores and the node it was given in some state of the pass in which it might start. */
  ghost predicate PlacedIn(c: Ctx, r: Readings, s: Sched, j: JobRec, j': JobRec) {
    exists b, p :: KeepsRunning(s, b) && MayStart(c, r, b, j.spec, p) && j'.cpuList == p.cpuList && j'.numaNode == p.node
  }

  /** `time` is one of the clock readings from number `from` up to, but not including, number `until`. */
  ghost predicate ReadBetween(c: Ctx, from: nat, until: nat, time: real) {
    exists k: nat :: from <= k < until && c.clock(k) == time
  }

  /** The start succeeded: the job runs under the session of its new process. */
  ghost predicate NowRuns(c: Ctx, e: TickEnv, id: string, j: JobRec, j': JobRec) {
    && e.start(id).Started?
    && j' == j.(
         status := Running, session := if c.cfg.tmux then Tmux("nodepilot_" + id) else Pid(e.start(id).pid),
         cpuList := j'.cpuList, numaNode := j'.numaNode, startTime := j'.startTime)
  }

  /** The start failed: so has the job, and it names the error. */
  ghost predicate StartHasFailed(e: TickEnv, id: string, j: JobRec, j': JobRec) {
    && e.start(id).StartFailed?
    && j' == j.(
         status := Failed, reason := LaunchError(e.start(id).message),
         cpuList := j'.cpuList, numaNode := j'.numaNode, endTime := j'.endTime)
  }

  /** How a launch pass from `s` to `t` leaves a pending job. */
  ghost predicate LaunchedOrNot(c: Ctx, e: TickEnv, s: Sched, until: nat, id: string, j: JobRec, j': JobRec) {
    || j' == j
    || (NowRuns(c, e, id, j, j') && PlacedIn(c, e.readings(id), s, j, j') && ReadBetween(c, s.clk, until, j'.startTime))
    || (StartHasFailed(e, id, j, j') && PlacedIn(c, e.readings(id), s, j, j') && ReadBetween(c, s.clk, until, j'.endTime))
  }

  /** The handles after some launches: those held before, and those of the children started since. */
  ghost predicate HoldsNewChildren(c: Ctx, e: TickEnv, s: Sched, t: Sched) {
    && (forall pid | pid in s.procs :: pid in t.procs)
    && (forall id | IsRunning(t.jobs, id) && !IsRunning(s.jobs, id) && e.start(id).Started? && !c.cfg.tmux :: e.start(id).pid in t.procs)
    && (forall pid | pid in t.procs ::
          || (pid in s.procs && t.procs[pid] == s.procs[pid])
          || (var id := t.procs[pid];
              !c.cfg.tmux && IsRunning(t.jobs, id) && !IsRunning(s.jobs, id) && e.start(id) == Started(pid)))
  }

  lemma TurnMayStart(c: Ctx, e: TickEnv, b: Acc, id: string)
    requires WellKeyed(b.s) && id in b.s.jobs && b.s.jobs[id].status == Pending
    requires Turn(c, e, Launching, b, id).s.jobs[id] != b.s.jobs[id]
    ensures var t, j := Turn(c, e, Launching, b, id).s, b.s.jobs[id];
            exists p :: && MayStart(c, e.readings(id), b.s, j.spec, p)
                        && t == AfterAct(c, b.s, id, StartAct(c, e, id, p))
  {
    hide OccupiedBy, Allocation, Decide, Admissible, Total;
    var j := b.s.jobs[id];
    AdmissionOverJobs(c, b.s, e.readings(id), j.spec);
    var p := Block(c, b.s, j.spec).value;
    assert MayStart(c, e.readings(id), b.s, j.spec, p);
  }

  lemma TurnLaunches(c: Ctx, e: TickEnv, s: Sched, b: Acc, id: string)
    requires WellKeyed(b.s) && id in b.s.jobs && b.s.jobs[id].status == Pending && KeepsRunning(s, b.s)
    ensures var t := Turn(c, e, Launching, b, id).s;
            && id in t.jobs
            && LaunchedOrNot(c, e, s, t.clk, id, b.s.jobs[id], t.jobs[id])
  {
    hide Turn, MayStart, KeepsRunning;
    var t := Turn(c, e, Launching, b, id).s;
    TurnFrame(c, e, Launching, b, id);
    if t.jobs[id] != b.s.jobs[id] {
      TurnMayStart(c, e, b, id);
      var j := b.s.jobs[id];
      var p :| MayStart(c, e.readings(id), b.s, j.spec, p) && t == AfterAct(c, b.s, id, StartAct(c, e, id, p));
      StartedRecord(c, e, s, b.s, id, p);
      assert PlacedIn(c, e.readings(id), s, j, t.jobs[id]);
    }
  }

  lemma StartedRecord(c: Ctx, e: TickEnv, s: Sched, b: Sched, id: string, p: Placement)
    requires id in b.jobs && KeepsRunning(s, b)
    ensures var t := AfterAct(c, b, id, StartAct(c, e, id, p));
            && t.jobs[id].cpuList == p.cpuList && t.jobs[id].numaNode == p.node
            && (|| (NowRuns(c, e, id, b.jobs[id], t.jobs[id]) && ReadBetween(c, s.clk, t.clk, t.jobs[id].startTime))
                || (StartHasFailed(e, id, b.jobs[id], t.jobs[id]) && ReadBetween(c, s.clk, t.clk, t.jobs[id].endTime)))
  {
    var t := AfterAct(c, b, id, StartAct(c, e, id, p));
    assert t.clk == b.clk + 2;
    assert ReadBetween(c, s.clk, t.clk, c.clock(b.clk + 1));
  }

  lemma TurnKeepsRunning(c: Ctx, e: TickEnv, b: Acc, id: string)
    requires id in b.s.jobs && b.s.jobs[id].status == Pending
    ensures KeepsRunning(b.s, Turn(c, e, Launching, b, id).s)
  {
    hide Block, DecisionAt, DepsSatisfied;
    TurnFrame(c, e, Launching, b, id);
  }

  lemma TurnHandles(c: Ctx, e: TickEnv, b: Acc, id: string)
    requires id in b.s.jobs && b.s.jobs[id].status == Pending && b.s.jobs[id].spec.id == id
    ensures HoldsNewChildren(c, e, b.s, Turn(c, e, Launching, b, id).s)
  {
    hide Block, DecisionAt, DepsSatisfied;
  }

  lemma LaterReading(c: Ctx, e: TickEnv, s: Sched, k: nat, until: nat, id: string, j: JobRec, j': JobRec)
    requires LaunchedOrNot(c, e, s, k, id, j, j') && k <= until
    ensures LaunchedOrNot(c, e, s, until, id, j, j')
  {
    hide PlacedIn, NowRuns, StartHasFailed;
  }

  lemma NoNewChildren(c: Ctx, e: TickEnv, s: Sched)
    ensures HoldsNewChildren(c, e, s, s) && KeepsRunning(s, s)
  {
  }

  lemma ChildrenAdd(c: Ctx, e: TickEnv, s: Sched, b: Sched, t: Sched)
    requires HoldsNewChildren(c, e, s, b) && HoldsNewChildren(c, e, b, t) && KeepsRunning(s, b) && KeepsRunning(b, t)
    ensures HoldsNewChildren(c, e, s, t) && KeepsRunning(s, t)
  {
  }

  lemma {:induction false} PassLaunches(c: Ctx, e: TickEnv, a: Acc, ids: seq<string>)
    requires WellKeyed(a.s) && AllPending(a.s.jobs, ids) && forall id | id in ids :: id in a.s.jobs
    ensures var t := Pass(c, e, Launching, a, ids).s;
            && WellKeyed(t) && KeepsRunning(a.s, t) && HoldsNewChildren(c, e, a.s, t)
            && forall id | id in ids :: id in t.jobs && LaunchedOrNot(c, e, a.s, t.clk, id, a.s.jobs[id], t.jobs[id])
  {
    hide Turn, LaunchedOrNot, HoldsNewChildren, KeepsRunning;
    if ids == [] {
      NoNewChildren(c, e, a.s);
    } else {
      var init, id := ids[..|ids| - 1], ids[|ids| - 1];
      assert ids == init + [id];
      assert id in ids && forall x | x in init :: x in ids;
      PassLaunches(c, e, a, init);
      PassFrame(c, e, Launching, a, init);
      var b := Pass(c, e, Launching, a, init);
      var t := Turn(c, e, Launching, b, id);
      TurnFrame(c, e, Launching, b, id);
      TurnKeepsRunning(c, e, b, id);
      TurnLaunches(c, e, a.s, b, id);
      TurnHandles(c, e, b, id);
      ChildrenAdd(c, e, a.s, b.s, t.s);
      forall x | x in init ensures LaunchedOrNot(c, e, a.s, t.s.clk, x, a.s.jobs[x], t.s.jobs[x]) {
        LaterReading(c, e, a.s, b.s.clk, t.s.clk, x, a.s.jobs[x], t.s.jobs[x]);
      }
    }
  }

  /** A launch pass leaves every pending job as it was, running under the session of the process that was started
      for it, or failed with the error of the start; in the last two cases it might start in some state on the way,
      and has the cores and node the allocator gave it there.
      No other record changes, and the handles gained are those of the started children. */
  lemma LaunchPassExactly(c: Ctx, e: TickEnv, a: Acc)
    requires WellKeyed(a.s)
    ensures var t := LaunchPass(c, e, a).s;
            && t.jobs.Keys == a.s.jobs.Keys
            && (forall id | id in a.s.jobs ::
                  if a.s.jobs[id].status == Pending then LaunchedOrNot(c, e, a.s, t.clk, id, a.s.jobs[id], t.jobs[id])
                  else t.jobs[id] == a.s.jobs[id])
            && HoldsNewChildren(c, e, a.s, t)
  {
    hide Turn, LaunchedOrNot, HoldsNewChildren, LaunchOrder;
    LaunchOrderFacts(a.s);
    PassLaunches(c, e, a, LaunchOrder(a.s));
    PassFrame(c, e, Launching, a, LaunchOrder(a.s));
  }

  /** No job comes to run unless its process has been started. */
  lemma RunsOnlyIfStarted(c: Ctx, e: TickEnv, a: Acc, id: string)
    requires WellKeyed(a.s) && !IsRunning(a.s.jobs, id) && IsRunning(LaunchPass(c, e, a).s.jobs, id)
    ensures e.start(id).Started?
    ensures LaunchPass(c, e, a).s.jobs[id].session == if c.cfg.tmux then Tmux("nodepilot_" + id) else Pid(e.start(id).pid)
  {
    hide LaunchPass, HoldsNewChildren, PlacedIn;
    LaunchPassExactly(c, e, a);
  }

  /** Memory is interleaved for exactly the placed jobs that reach the threshold. */
  lemma InterleavesExactly(c: Ctx, s: Sched, spec: JobSpec)
    requires spec.cores >= 1 && Block(c, s, spec).Some?
    ensures Block(c, s, spec).value.interleave <==>
            c.cfg.interleaveThresholdGb > 0.0 && spec.ramGb >= c.cfg.interleaveThresholdGb
  {
    hide Allocation, OccupiedBy;
    ChosenNodeExactly(RequestOf(c.cfg, spec), Machine(OccupiedBy(c.reserved, s.order, s.jobs), c.secondary, Unread), c.nodes);
  }
}
