/** The scheduler as a transition system: nodepilot/orchestrator.py over values.

    `EventFor` says what one turn of a pass does to one job, `Effect` what an event does to the state, and
    `Pass` runs a pass over a list of jobs.  The class `Orchestrator` executes exactly these passes; the
    theorems are about them and about every sequence of enabled events (`ValidRun`). */
module Scheduler {
  import opened Wrappers
  import opened CpuList
  import opened Numa
  import opened Jobs
  import opened Admission
  import opened Runner

  // ---- state --------------------------------------------------------------------

  type Snapshot = seq<JobRec>

  /** The temporary file a state save goes through. */
  datatype TmpFile = NoTmp | Torn | Whole(snap: Snapshot)

  datatype Disk = Disk(target: Option<Snapshot>, tmp: TmpFile)

  /** The job list in file order, the jobs by id, the handle table, the OOM deadline, the number of clock
      readings taken so far, and the state file. */
  datatype Sched = Sched(
    order: seq<string>, jobs: map<string, JobRec>, procs: Handles, cooldownUntil: real, clk: nat, disk: Disk)

  /** What stays fixed while a scheduler runs: configuration, topology, clock and the jobs of the queue file. */
  datatype Ctx = Ctx(
    cfg: Config, nodes: seq<Node>, reserved: set<nat>, secondary: set<nat>, clock: nat -> real, queue: Snapshot)

  ghost predicate WellKeyed(s: Sched) {
    && NoDup(s.order)
    && (forall id :: id in s.order <==> id in s.jobs)
    && (forall id | id in s.jobs :: s.jobs[id].spec.id == id)
  }

  function SnapshotOf(order: seq<string>, jobs: map<string, JobRec>): Snapshot {
    if order == [] then
      []
    else
      var id := order[|order| - 1];
      SnapshotOf(order[..|order| - 1], jobs) + if id in jobs then [jobs[id]] else []
  }

  // ---- queries ------------------------------------------------------------------

  function CoresOf(j: JobRec): set<nat> {
    if Parse(j.cpuList).Ok? then Parse(j.cpuList).value else {}
  }

  function Held(jobs: map<string, JobRec>, id: string): set<nat> {
    if IsRunning(jobs, id) then CoresOf(jobs[id]) else {}
  }

  /** `_occupied_cores`: reserved cores, and those of the running jobs. */
  function OccupiedBy(reserved: set<nat>, order: seq<string>, jobs: map<string, JobRec>): set<nat> {
    if order == [] then reserved
    else OccupiedBy(reserved, order[..|order| - 1], jobs) + Held(jobs, order[|order| - 1])
  }

  predicate IsDone(jobs: map<string, JobRec>, dep: string) {
    dep in jobs && jobs[dep].status == Done
  }

  /** `_deps_satisfied` */
  predicate DepsSatisfied(jobs: map<string, JobRec>, deps: seq<string>) {
    forall d | d in deps :: IsDone(jobs, d)
  }

  predicate IsDead(jobs: map<string, JobRec>, dep: string) {
    dep !in jobs || jobs[dep].status == Failed || jobs[dep].status == Skipped
  }

  /** The first dependency that can never be done. */
  function Blocker(jobs: map<string, JobRec>, deps: seq<string>): Option<Reason> {
    if deps == [] then None
    else if deps[0] !in jobs then Some(DependencyUnknown(deps[0]))
    else if IsDead(jobs, deps[0]) then Some(DependencyFailed(deps[0]))
    else Blocker(jobs, deps[1..])
  }

  /** A job is blocked exactly when one of its dependencies is dead, and the reason names such a one. */
  lemma {:induction false} BlockerMeaning(jobs: map<string, JobRec>, deps: seq<string>)
    ensures Blocker(jobs, deps).None? <==> forall d | d in deps :: !IsDead(jobs, d)
    ensures Blocker(jobs, deps).Some? ==>
              exists d :: d in deps && IsDead(jobs, d)
                          && Blocker(jobs, deps).value == if d in jobs then DependencyFailed(d) else DependencyUnknown(d)
  {
    if deps != [] {
      assert deps[0] in deps;
      if !IsDead(jobs, deps[0]) {
        BlockerMeaning(jobs, deps[1..]);
        assert forall d :: d in deps <==> d == deps[0] || d in deps[1..];
      }
    }
  }

  /** The reason names the first dead dependency in the order in which the job lists them. */
  lemma {:induction false} BlockerIsFirst(jobs: map<string, JobRec>, deps: seq<string>)
    ensures Blocker(jobs, deps).Some? ==>
              exists k :: && 0 <= k < |deps| && IsDead(jobs, deps[k]) && (forall i | 0 <= i < k :: !IsDead(jobs, deps[i]))
                          && Blocker(jobs, deps).value == if deps[k] in jobs then DependencyFailed(deps[k]) else DependencyUnknown(deps[k])
  {
    if deps != [] && !IsDead(jobs, deps[0]) && Blocker(jobs, deps).Some? {
      var rest := deps[1..];
      BlockerIsFirst(jobs, rest);
      var k :| && 0 <= k < |rest| && IsDead(jobs, rest[k]) && (forall i | 0 <= i < k :: !IsDead(jobs, rest[i]))
               && Blocker(jobs, rest).value == if rest[k] in jobs then DependencyFailed(rest[k]) else DependencyUnknown(rest[k]);
      forall i | 0 <= i < k + 1 ensures !IsDead(jobs, deps[i]) {
        if i > 0 { assert deps[i] == rest[i - 1]; }
      }
      assert deps[k + 1] == rest[k];
    }
  }

  /** `_is_drained` */
  predicate IsDrained(jobs: map<string, JobRec>) {
    forall id | id in jobs :: jobs[id].status != Pending && jobs[id].status != Running
  }

  function RequestOf(cfg: Config, spec: JobSpec): Request {
    Request(spec.cores, spec.ramGb, cfg.interleaveThresholdGb, 0.0, 0.0)
  }

  /** The allocator's answer for a job in a state. */
  ghost function Block(c: Ctx, s: Sched, spec: JobSpec): Option<Placement> {
    Allocation(RequestOf(c.cfg, spec), Machine(OccupiedBy(c.reserved, s.order, s.jobs), c.secondary, Unread), c.nodes)
  }

  function DecisionAt(c: Ctx, s: Sched, r: Readings, spec: JobSpec): Decision {
    Decide(c.cfg, s.cooldownUntil, c.clock(s.clk), r, Total(s.order, s.jobs), spec)
  }

  // ---- events -------------------------------------------------------------------

  /** What can happen to a job. */
  datatype Act =
    | Reap(outcome: Outcome)
    | Bury
    | Kill
    | Skip(why: Reason)
    | Launch(r: Readings, block: Placement, session: Session)
    | FailLaunch(r: Readings, block: Placement, message: string)

  /** `Defer` is an admission check that leaves the job waiting; the last three are the steps of a save. */
  datatype Event = On(id: string, act: Act) | Defer(who: string) | OpenTmp | WriteTmp | Replace

  function NewRec(c: Ctx, clk: nat, j: JobRec, act: Act): JobRec {
    match act
    case Reap(o) => j.(status := o.status, reason := o.reason, exitCode := o.exitCode, endTime := c.clock(clk))
    case Bury => j.(status := Failed, reason := ZombieAtRestart, endTime := c.clock(clk), cpuList := "")
    case Kill => j.(status := Failed, reason := KilledByUser, endTime := c.clock(clk))
    case Skip(why) => j.(status := Skipped, reason := why, endTime := c.clock(clk))
    case Launch(_, b, session) =>
      j.(status := Running, cpuList := b.cpuList, numaNode := b.node, session := session, startTime := c.clock(clk + 1))
    case FailLaunch(_, b, message) =>
      j.(status := Failed, cpuList := b.cpuList, numaNode := b.node, reason := LaunchError(message), endTime := c.clock(clk + 1))
  }

  function NewProcs(procs: Handles, j: JobRec, act: Act): Handles {
    match act
    case Reap(_) => Forgotten(procs, j.session)
    case Kill => Forgotten(procs, j.session)
    case Launch(_, _, session) => Recorded(procs, session, j.spec.id)
    case _ => procs
  }

  predicate IsOom(act: Act) {
    act.Reap? && act.outcome.status != Done && act.outcome.reason == OomKilled
  }

  /** Clock readings an act takes; an OOM reading arms the cooldown. */
  function ReadsOf(act: Act): nat {
    if IsOom(act) || act.Launch? || act.FailLaunch? then 2 else 1
  }

  function AfterAct(c: Ctx, s: Sched, id: string, act: Act): Sched
    requires id in s.jobs
  {
    Sched(
      s.order,
      s.jobs[id := NewRec(c, s.clk, s.jobs[id], act)],
      NewProcs(s.procs, s.jobs[id], act),
      if IsOom(act) then c.clock(s.clk + 1) + c.cfg.oomCooldownSeconds else s.cooldownUntil,
      s.clk + ReadsOf(act),
      s.disk)
  }

  function Effect(c: Ctx, s: Sched, ev: Event): Sched {
    match ev
    case On(id, act) => if id in s.jobs then AfterAct(c, s, id, act) else s
    case Defer(_) => s.(clk := s.clk + 1)
    case OpenTmp => s.(clk := s.clk + 1, disk := s.disk.(tmp := Torn))
    case WriteTmp => s.(disk := s.disk.(tmp := Whole(SnapshotOf(s.order, s.jobs))))
    case Replace => if s.disk.tmp.Whole? then s.(disk := Disk(Some(s.disk.tmp.snap), NoTmp)) else s
  }

  /** When an act may happen. */
  ghost predicate CanAct(c: Ctx, s: Sched, j: JobRec, act: Act) {
    match act
    case Reap(o) => j.status == Running && ((o.status == Done && o.reason == NoReason) || o.status == Failed)
    case Bury => j.status == Running
    case Kill => j.status == Running
    case Skip(why) => j.status == Pending && Blocker(s.jobs, j.spec.dependsOn) == Some(why)
    case Launch(r, b, _) => CanStart(c, s, j, r, b)
    case FailLaunch(r, b, _) => CanStart(c, s, j, r, b)
  }

  /** The three gates of a launch: dependencies, admission, placement. */
  ghost predicate CanStart(c: Ctx, s: Sched, j: JobRec, r: Readings, b: Placement) {
    && j.status == Pending
    && DepsSatisfied(s.jobs, j.spec.dependsOn)
    && DecisionAt(c, s, r, j.spec).Go?
    && Block(c, s, j.spec) == Some(b)
  }

  ghost predicate Enabled(c: Ctx, s: Sched, ev: Event) {
    ev.On? ==> ev.id in s.jobs && CanAct(c, s, s.jobs[ev.id], ev.act)
  }

  // ---- runs: sequences of enabled events ------------------------------------------

  ghost function Exec(c: Ctx, s: Sched, log: seq<Event>): Sched {
    if log == [] then s else Effect(c, Exec(c, s, log[..|log| - 1]), log[|log| - 1])
  }

  ghost predicate ValidRun(c: Ctx, s: Sched, log: seq<Event>) {
    log != [] ==>
      && ValidRun(c, s, log[..|log| - 1])
      && Enabled(c, Exec(c, s, log[..|log| - 1]), log[|log| - 1])
  }

  lemma RunSnoc(c: Ctx, s: Sched, log: seq<Event>, ev: Event)
    ensures Exec(c, s, log + [ev]) == Effect(c, Exec(c, s, log), ev)
    ensures ValidRun(c, s, log + [ev]) <==> ValidRun(c, s, log) && Enabled(c, Exec(c, s, log), ev)
  {
    assert (log + [ev])[..|log|] == log;
  }

  lemma {:induction false} RunAppend(c: Ctx, s: Sched, a: seq<Event>, b: seq<Event>)
    ensures Exec(c, s, a + b) == Exec(c, Exec(c, s, a), b)
    ensures ValidRun(c, s, a + b) <==> ValidRun(c, s, a) && ValidRun(c, Exec(c, s, a), b)
  {
    if b == [] {
      assert a + b == a;
    } else {
      var init, last := b[..|b| - 1], b[|b| - 1];
      RunAppend(c, s, a, init);
      assert a + b == (a + init) + [last];
      RunSnoc(c, s, a + init, last);
    }
  }

  lemma {:induction false} RunPrefix(c: Ctx, s: Sched, log: seq<Event>, k: nat)
    requires ValidRun(c, s, log) && k <= |log|
    ensures ValidRun(c, s, log[..k])
  {
    if k < |log| {
      assert log[..|log| - 1][..k] == log[..k];
      RunPrefix(c, s, log[..|log| - 1], k);
    } else {
      assert log[..k] == log;
    }
  }

  // ---- passes ---------------------------------------------------------------------

  /** A state on the way, whether anything changed, and the events so far. */
  datatype Acc = Acc(s: Sched, changed: bool, log: seq<Event>)

  datatype Phase = Reaping | Burying | Skipping | Launching

  /** What a pass does when it comes to job `id`, if anything. */
  ghost function EventFor(c: Ctx, e: TickEnv, ph: Phase, s: Sched, id: string): Option<Event>
    requires id in s.jobs
  {
    var j := s.jobs[id];
    match ph
    case Reaping =>
      if j.status != Running || IsAlive(e, s.procs, j.session) then None
      else Some(On(id, Reap(Classify(ReturnCode(e, s.procs, j.session), e.oomHint(id)))))
    case Burying =>
      if j.status != Running || IsAlive(e, s.procs, j.session) || (c.cfg.memorySlice != "" && e.scopeActive(id)) then None
      else Some(On(id, Bury))
    case Skipping =>
      if j.status != Pending || Blocker(s.jobs, j.spec.dependsOn).None? then None
      else Some(On(id, Skip(Blocker(s.jobs, j.spec.dependsOn).value)))
    case Launching =>
      if !DepsSatisfied(s.jobs, j.spec.dependsOn) then None else LaunchEvent(c, e, s, id)
  }

  /** Admission, placement and start of a job whose dependencies are done. */
  ghost function LaunchEvent(c: Ctx, e: TickEnv, s: Sched, id: string): Option<Event>
    requires id in s.jobs
  {
    var j, r := s.jobs[id], e.readings(id);
    var d := DecisionAt(c, s, r, j.spec);
    if d == Wait(Paused) then None
    else if d.Wait? then Some(Defer(id))
    else
      match Block(c, s, j.spec)
      case None => Some(Defer(id))
      case Some(b) => Some(On(id, StartAct(c, e, id, b)))
  }

  /** What comes of trying to start a placed job. */
  function StartAct(c: Ctx, e: TickEnv, id: string, b: Placement): Act {
    match e.start(id)
    case Started(pid) => Launch(e.readings(id), b, NewSession(c.cfg.tmux, id, pid))
    case StartFailed(message) => FailLaunch(e.readings(id), b, message)
  }

  ghost function Add(c: Ctx, a: Acc, ev: Event): Acc {
    Acc(Effect(c, a.s, ev), a.changed || ev.On?, a.log + [ev])
  }

  ghost function Turn(c: Ctx, e: TickEnv, ph: Phase, a: Acc, id: string): Acc {
    if id !in a.s.jobs then a
    else
      match EventFor(c, e, ph, a.s, id)
      case None => a
      case Some(ev) => Add(c, a, ev)
  }

  ghost function Pass(c: Ctx, e: TickEnv, ph: Phase, a: Acc, ids: seq<string>): Acc {
    if ids == [] then a else Turn(c, e, ph, Pass(c, e, ph, a, ids[..|ids| - 1]), ids[|ids| - 1])
  }

  function PendingIds(jobs: map<string, JobRec>): set<string> {
    set id | id in jobs && jobs[id].status == Pending
  }

  /** `_mark_dead_dependents`: rounds over the job list until one of them skips nothing. */
  ghost function SkipRounds(c: Ctx, e: TickEnv, a: Acc): Acc
    decreases |PendingIds(a.s.jobs)|
  {
    var round := Pass(c, e, Skipping, a.(changed := false), a.s.order);
    if round.changed then
      SkipRoundShrinks(c, e, a.(changed := false), a.s.order);
      SkipRounds(c, e, round)
    else
      round.(changed := a.changed)
  }

  /** The keys `(priority, id)` of the pending jobs. */
  function PendingKeys(order: seq<string>, jobs: map<string, JobRec>): seq<Key> {
    if order == [] then
      []
    else
      var id := order[|order| - 1];
      PendingKeys(order[..|order| - 1], jobs)
        + if id in jobs && jobs[id].status == Pending then [Key(jobs[id].spec.priority, id)] else []
  }

  function IdsOf(keys: seq<Key>): (ids: seq<string>)
    ensures |ids| == |keys| && forall k | 0 <= k < |keys| :: ids[k] == keys[k].id
  {
    seq(|keys|, k requires 0 <= k < |keys| => keys[k].id)
  }

  /** The pending jobs in launch order. */
  function LaunchOrder(s: Sched): seq<string> {
    IdsOf(SortKeys(PendingKeys(s.order, s.jobs)))
  }

  ghost function LaunchPass(c: Ctx, e: TickEnv, a: Acc): Acc {
    Pass(c, e, Launching, a, LaunchOrder(a.s))
  }

  /** `_tick` */
  ghost function Tick(c: Ctx, e: TickEnv, a: Acc): Acc {
    LaunchPass(c, e, SkipRounds(c, e, Pass(c, e, Reaping, a, a.s.order)))
  }

  /** `save_state` */
  ghost function Save(c: Ctx, a: Acc): Acc {
    Add(c, Add(c, Add(c, a, OpenTmp), WriteTmp), Replace)
  }

  ghost function SaveIfChanged(c: Ctx, a: Acc): Acc {
    if a.changed then Save(c, a) else a
  }

  /** The main loop after `n` ticks, each followed by a save if it changed anything. */
  ghost function Loop(c: Ctx, world: nat -> TickEnv, a: Acc, n: nat): Acc {
    if n == 0 then a
    else SaveIfChanged(c, Tick(c, world(n - 1), Loop(c, world, a, n - 1).(changed := false)))
  }

  /** `_reconcile_zombies`, at startup. */
  ghost function Startup(c: Ctx, e: TickEnv, s: Sched): Acc {
    SaveIfChanged(c, Pass(c, e, Burying, Acc(s, false, []), s.order))
  }

  // ---- what every effect leaves alone ------------------------------------------------

  lemma EffectFrame(c: Ctx, s: Sched, ev: Event)
    ensures var t := Effect(c, s, ev);
            && t.order == s.order && t.jobs.Keys == s.jobs.Keys
            && (forall id | id in s.jobs :: t.jobs[id].spec == s.jobs[id].spec)
            && (forall id | id in s.jobs && !(ev.On? && ev.id == id) :: t.jobs[id] == s.jobs[id])
            && s.clk <= t.clk
    ensures WellKeyed(s) ==> WellKeyed(Effect(c, s, ev))
  {
  }

  /** A skipping event makes a pending job terminal. */
  lemma SkipShrinks(c: Ctx, e: TickEnv, s: Sched, id: string)
    requires id in s.jobs && EventFor(c, e, Skipping, s, id).Some?
    ensures PendingIds(Effect(c, s, EventFor(c, e, Skipping, s, id).value).jobs) == PendingIds(s.jobs) - {id}
    ensures id in PendingIds(s.jobs)
  {
  }

  lemma {:induction false} SkipRoundShrinks(c: Ctx, e: TickEnv, a: Acc, ids: seq<string>)
    requires !a.changed
    ensures var r := Pass(c, e, Skipping, a, ids);
            && PendingIds(r.s.jobs) <= PendingIds(a.s.jobs)
            && (r.changed ==> |PendingIds(r.s.jobs)| < |PendingIds(a.s.jobs)|)
  {
    if ids != [] {
      var init, id := ids[..|ids| - 1], ids[|ids| - 1];
      SkipRoundShrinks(c, e, a, init);
      var before := Pass(c, e, Skipping, a, init);
      if id in before.s.jobs && EventFor(c, e, Skipping, before.s, id).Some? {
        SkipShrinks(c, e, before.s, id);
        SubsetSize(PendingIds(before.s.jobs) - {id}, PendingIds(a.s.jobs));
      }
    }
  }
}
