/** The state file: what survives a crash, and what a restarted scheduler makes of it. */
module Durability {
  import opened Jobs
  import opened Admission
  import opened Runner
  import opened Scheduler
  import opened Runs
  import opened FixedPoint
  import opened Safety

  function Snap(s: Sched): Snapshot {
    SnapshotOf(s.order, s.jobs)
  }

  /** What a restart would load: the state file if there is one, else the jobs of the queue file. */
  function Durable(c: Ctx, d: Disk): Snapshot {
    if d.target.Some? then d.target.value else c.queue
  }

  ghost predicate Coherent(c: Ctx, s: Sched) {
    Durable(c, s.disk) == Snap(s)
  }

  // ---- unchanged ticks --------------------------------------------------------------

  lemma QuietRounds(c: Ctx, e: TickEnv, a: Acc)
    requires !SkipRounds(c, e, a).changed
    ensures !a.changed && SameButClock(a.s, SkipRounds(c, e, a).s)
  {
    var b := a.(changed := false);
    var round := Pass(c, e, Skipping, b, a.s.order);
    if round.changed {
      SkipRoundsFrame(c, e, round);
    } else {
      QuietPass(c, e, Skipping, b, a.s.order);
    }
  }

  /** A tick that reports no change has changed no job, no handle, no deadline and no file. */
  lemma QuietTick(c: Ctx, e: TickEnv, a: Acc)
    requires !Tick(c, e, a).changed
    ensures !a.changed && SameButClock(a.s, Tick(c, e, a).s)
  {
    var r := Pass(c, e, Reaping, a, a.s.order);
    var m := SkipRounds(c, e, r);
    QuietPass(c, e, Launching, m, LaunchOrder(m.s));
    QuietRounds(c, e, r);
    QuietPass(c, e, Reaping, a, a.s.order);
  }

  // ---- one process -------------------------------------------------------------------

  /** The readings of one scheduler process: at startup, and tick by tick. */
  datatype Process = Process(boot: TickEnv, world: nat -> TickEnv)

  /** The work between two points where the process looks at its state file: the zombie sweep at startup,
      then one tick after the other. */
  ghost function Work(c: Ctx, p: Process, a: Acc, m: nat): Acc {
    if m == 0 then Pass(c, p.boot, Burying, a, a.s.order) else Tick(c, p.world(m - 1), a)
  }

  /** The process after `m` such pieces of work, each saved if it changed anything. */
  ghost function Stage(c: Ctx, p: Process, s: Sched, m: nat): Acc {
    if m == 0 then Acc(s, false, [])
    else SaveIfChanged(c, Work(c, p, Stage(c, p, s, m - 1).(changed := false), m - 1))
  }

  /** Stages are startup followed by the main loop. */
  lemma {:induction false} StageIsLoop(c: Ctx, p: Process, s: Sched, n: nat)
    ensures Stage(c, p, s, n + 1) == Loop(c, p.world, Startup(c, p.boot, s), n)
  {
    hide Tick, Pass, SaveIfChanged;
    if n > 0 {
      StageIsLoop(c, p, s, n - 1);
    } else {
      assert Stage(c, p, s, 0) == Acc(s, false, []);
    }
  }

  lemma WorkTraces(c: Ctx, p: Process, s0: Sched, a: Acc, m: nat)
    requires Traces(c, s0, a) && WellKeyed(a.s)
    ensures Traces(c, s0, Work(c, p, a, m)) && WellKeyed(Work(c, p, a, m).s)
  {
    if m == 0 {
      PassTraces(c, p.boot, Burying, s0, a, a.s.order);
      PassFrame(c, p.boot, Burying, a, a.s.order);
    } else {
      TickTraces(c, p.world(m - 1), s0, a);
    }
  }

  lemma QuietWork(c: Ctx, p: Process, a: Acc, m: nat)
    requires !Work(c, p, a, m).changed
    ensures SameButClock(a.s, Work(c, p, a, m).s)
  {
    if m == 0 {
      QuietPass(c, p.boot, Burying, a, a.s.order);
    } else {
      QuietTick(c, p.world(m - 1), a);
    }
  }

  /** One piece of work and its save: still a run, and still coherent. */
  lemma NextStage(c: Ctx, p: Process, s0: Sched, a: Acc, m: nat)
    requires Traces(c, s0, a) && WellKeyed(a.s)
    ensures var t := SaveIfChanged(c, Work(c, p, a, m));
            Traces(c, s0, t) && WellKeyed(t.s) && (Coherent(c, a.s) ==> Coherent(c, t.s))
  {
    var w := Work(c, p, a, m);
    WorkTraces(c, p, s0, a, m);
    if w.changed {
      SaveTraces(c, s0, w);
    } else {
      QuietWork(c, p, a, m);
    }
  }

  lemma {:induction false} StageTraces(c: Ctx, p: Process, s: Sched, m: nat)
    requires WellKeyed(s)
    ensures Traces(c, s, Stage(c, p, s, m)) && WellKeyed(Stage(c, p, s, m).s)
  {
    hide Work, SaveIfChanged;
    if m > 0 {
      StageTraces(c, p, s, m - 1);
      NextStage(c, p, s, Stage(c, p, s, m - 1).(changed := false), m - 1);
    }
  }

  /** Durable coherence: at startup, after the zombie sweep and after every tick, the durable view is
      exactly the job list in memory. */
  lemma {:induction false} DurableCoherence(c: Ctx, p: Process, s: Sched, m: nat)
    requires WellKeyed(s) && Coherent(c, s)
    ensures Coherent(c, Stage(c, p, s, m).s)
  {
    hide Work, SaveIfChanged;
    if m > 0 {
      DurableCoherence(c, p, s, m - 1);
      StageTraces(c, p, s, m - 1);
      NextStage(c, p, s, Stage(c, p, s, m - 1).(changed := false), m - 1);
    }
  }

  // ---- crashes ------------------------------------------------------------------------

  /** `t`'s log continues `a`'s, and nothing was written over the state file since. */
  ghost predicate Continues(a: Acc, t: Acc) {
    && |a.log| <= |t.log| && t.log[..|a.log|] == a.log
    && forall k | |a.log| <= k < |t.log| :: t.log[k] != Replace
  }

  lemma ContinuesTransitive(a: Acc, t: Acc, u: Acc)
    requires Continues(a, t) && Continues(t, u)
    ensures Continues(a, u)
  {
    assert u.log[..|a.log|] == t.log[..|a.log|];
  }

  lemma {:induction false} PassContinues(c: Ctx, e: TickEnv, ph: Phase, a: Acc, ids: seq<string>)
    ensures Continues(a, Pass(c, e, ph, a, ids))
  {
    if ids != [] {
      var init, id := ids[..|ids| - 1], ids[|ids| - 1];
      PassContinues(c, e, ph, a, init);
      var b := Pass(c, e, ph, a, init);
      if id in b.s.jobs { EventKinds(c, e, ph, b.s, id); }
      assert Continues(b, Turn(c, e, ph, b, id));
      ContinuesTransitive(a, b, Turn(c, e, ph, b, id));
    }
  }

  lemma {:induction false} RoundsContinue(c: Ctx, e: TickEnv, a: Acc)
    ensures Continues(a, SkipRounds(c, e, a))
    decreases |PendingIds(a.s.jobs)|
  {
    var b := a.(changed := false);
    var round := Pass(c, e, Skipping, b, a.s.order);
    PassContinues(c, e, Skipping, b, a.s.order);
    if round.changed {
      SkipRoundShrinks(c, e, b, a.s.order);
      RoundsContinue(c, e, round);
      ContinuesTransitive(a, round, SkipRounds(c, e, round));
    }
  }

  lemma WorkContinues(c: Ctx, p: Process, a: Acc, m: nat)
    ensures Continues(a, Work(c, p, a, m))
  {
    if m == 0 {
      PassContinues(c, p.boot, Burying, a, a.s.order);
    } else {
      var e := p.world(m - 1);
      var r := Pass(c, e, Reaping, a, a.s.order);
      var k := SkipRounds(c, e, r);
      PassContinues(c, e, Reaping, a, a.s.order);
      RoundsContinue(c, e, r);
      PassContinues(c, e, Launching, k, LaunchOrder(k.s));
      ContinuesTransitive(a, r, k);
      ContinuesTransitive(a, k, LaunchPass(c, e, k));
    }
  }

  /** Only the final replacement changes what is durable. */
  lemma {:induction false} TargetKept(c: Ctx, s: Sched, log: seq<Event>, i: nat, k: nat)
    requires i <= k <= |log| && forall x | i <= x < k :: log[x] != Replace
    ensures At(c, s, log, k).disk.target == At(c, s, log, i).disk.target
  {
    if i < k {
      TargetKept(c, s, log, i, k - 1);
      AtNext(c, s, log, k - 1);
    }
  }

  lemma AtPrefix(c: Ctx, s: Sched, a: Acc, t: Acc, k: nat)
    requires |a.log| <= |t.log| && t.log[..|a.log|] == a.log && k <= |a.log|
    ensures At(c, s, t.log, k) == At(c, s, a.log, k)
  {
    assert t.log[..k] == a.log[..k];
  }

  lemma SaveLog(c: Ctx, w: Acc)
    ensures Save(c, w).log == w.log + [OpenTmp, WriteTmp, Replace]
  {
  }

  /** `t`'s log continues `a`'s, and only its last event may replace the state file. */
  ghost predicate OneSaveAtMost(a: Acc, t: Acc) {
    && |a.log| <= |t.log| && t.log[..|a.log|] == a.log
    && forall k | |a.log| <= k < |t.log| - 1 :: t.log[k] != Replace
  }

  lemma NextStageLog(c: Ctx, p: Process, a: Acc, m: nat)
    ensures OneSaveAtMost(a, SaveIfChanged(c, Work(c, p, a, m)))
  {
    var w := Work(c, p, a, m);
    WorkContinues(c, p, a, m);
    if w.changed {
      SaveLog(c, w);
      assert Save(c, w).log[..|a.log|] == w.log[..|a.log|];
    }
  }

  lemma CrashInStage(c: Ctx, s: Sched, a: Acc, t: Acc, k: nat)
    requires Traces(c, s, a) && OneSaveAtMost(a, t) && |a.log| <= k < |t.log|
    ensures At(c, s, t.log, k).disk.target == a.s.disk.target
  {
    TargetKept(c, s, t.log, |a.log|, k);
    AtPrefix(c, s, a, t, |a.log|);
    assert a.log[..|a.log|] == a.log;
  }

  /** A crash at any event of a process, including inside a save, leaves a durable view that is the job list
      at one of its stage boundaries: within a stage, the one before it or the one after it. */
  lemma {:induction false} CrashSeesABoundary(c: Ctx, p: Process, s: Sched, m: nat, k: nat) returns (b: nat)
    requires WellKeyed(s) && Coherent(c, s) && k <= |Stage(c, p, s, m).log|
    ensures b <= m && Durable(c, At(c, s, Stage(c, p, s, m).log, k).disk) == Snap(Stage(c, p, s, b).s)
    ensures m > 0 && k >= |Stage(c, p, s, m - 1).log| ==> b >= m - 1
  {
    hide Work, SaveIfChanged;
    var t := Stage(c, p, s, m);
    if k == |t.log| {
      b := m;
      StageTraces(c, p, s, m);
      DurableCoherence(c, p, s, m);
      assert t.log[..|t.log|] == t.log;
    } else {
      var a := Stage(c, p, s, m - 1);
      NextStageLog(c, p, a.(changed := false), m - 1);
      if k < |a.log| {
        b := CrashSeesABoundary(c, p, s, m - 1, k);
        AtPrefix(c, s, a, t, k);
      } else {
        b := m - 1;
        StageTraces(c, p, s, m - 1);
        DurableCoherence(c, p, s, m - 1);
        CrashInStage(c, s, a, t, k);
      }
    }
  }

  // ---- restarts -----------------------------------------------------------------------

  function OrderOf(snap: Snapshot): seq<string> {
    if snap == [] then [] else OrderOf(snap[..|snap| - 1]) + [snap[|snap| - 1].spec.id]
  }

  function JobsOf(snap: Snapshot): map<string, JobRec> {
    if snap == [] then map[] else JobsOf(snap[..|snap| - 1])[snap[|snap| - 1].spec.id := snap[|snap| - 1]]
  }

  /** `load_state`, or the queue file, into a new process: no handles, no cooldown. */
  function Resume(c: Ctx, d: Disk, clk: nat): Sched {
    Sched(OrderOf(Durable(c, d)), JobsOf(Durable(c, d)), map[], 0.0, clk, d)
  }

  lemma SnapshotSnoc(order: seq<string>, jobs: map<string, JobRec>)
    requires order != [] && order[|order| - 1] in jobs
    ensures var snap := SnapshotOf(order, jobs);
            snap != [] && snap[|snap| - 1] == jobs[order[|order| - 1]] && snap[..|snap| - 1] == SnapshotOf(order[..|order| - 1], jobs)
  {
  }

  lemma {:induction false} SnapshotOrder(order: seq<string>, jobs: map<string, JobRec>)
    requires forall id | id in order :: id in jobs && jobs[id].spec.id == id
    ensures OrderOf(SnapshotOf(order, jobs)) == order
  {
    if order != [] {
      var init, id := order[..|order| - 1], order[|order| - 1];
      assert id in order;
      SnapshotOrder(init, jobs);
      SnapshotSnoc(order, jobs);
      assert order == init + [id];
    }
  }

  lemma {:induction false} SnapshotJobs(order: seq<string>, jobs: map<string, JobRec>)
    requires NoDup(order) && forall id | id in order :: id in jobs && jobs[id].spec.id == id
    ensures forall id :: id in JobsOf(SnapshotOf(order, jobs)) <==> id in order
    ensures forall id | id in order :: JobsOf(SnapshotOf(order, jobs))[id] == jobs[id]
  {
    if order != [] {
      var init, id := order[..|order| - 1], order[|order| - 1];
      assert order == init + [id];
      SnapshotJobs(init, jobs);
      SnapshotSnoc(order, jobs);
    }
  }

  /** Loading what was saved gives back the job list that was saved. */
  lemma ResumeRestores(c: Ctx, d: Disk, clk: nat, b: Sched)
    requires WellKeyed(b) && Durable(c, d) == Snap(b)
    ensures Resume(c, d, clk).order == b.order && Resume(c, d, clk).jobs == b.jobs
    ensures Coherent(c, Resume(c, d, clk))
  {
    SnapshotOrder(b.order, b.jobs);
    SnapshotJobs(b.order, b.jobs);
  }

  lemma SoundByJobs(c: Ctx, s: Sched, t: Sched)
    requires Sound(c, s) && t.order == s.order && t.jobs == s.jobs
    ensures Sound(c, t)
  {
  }

  /** The zombie sweep: a job recorded as running whose process and scope are gone. */
  ghost predicate Zombie(c: Ctx, e: TickEnv, s: Sched, id: string)
    requires id in s.jobs
  {
    s.jobs[id].status == Running && SessionOver(e, s.procs, s.jobs[id].session) && (c.cfg.memorySlice == "" || !e.scopeActive(id))
  }

  lemma BuryTurn(c: Ctx, e: TickEnv, a: Acc, id: string)
    requires id in a.s.jobs
    ensures var t := Turn(c, e, Burying, a, id);
            && t.s.procs == a.s.procs
            && if Zombie(c, e, a.s, id)
               then t.s.jobs[id] == a.s.jobs[id].(status := Failed, reason := ZombieAtRestart, cpuList := "", endTime := c.clock(a.s.clk))
               else t.s.jobs[id] == a.s.jobs[id]
  {
  }

  lemma SameZombie(c: Ctx, e: TickEnv, s: Sched, t: Sched, id: string)
    requires id in s.jobs && id in t.jobs && s.procs == t.procs && s.jobs[id] == t.jobs[id]
    ensures Zombie(c, e, s, id) == Zombie(c, e, t, id)
  {
  }

  lemma {:induction false} BuryPass(c: Ctx, e: TickEnv, a: Acc, ids: seq<string>)
    requires NoDup(ids) && forall id | id in ids :: id in a.s.jobs
    ensures Pass(c, e, Burying, a, ids).s.procs == a.s.procs
    ensures forall id | id in ids ::
              var t := Pass(c, e, Burying, a, ids).s;
              id in t.jobs && if Zombie(c, e, a.s, id)
                then t.jobs[id] == a.s.jobs[id].(status := Failed, reason := ZombieAtRestart, cpuList := "", endTime := t.jobs[id].endTime)
                else t.jobs[id] == a.s.jobs[id]
  {
    hide Turn, Zombie;
    if ids != [] {
      var init, id := ids[..|ids| - 1], ids[|ids| - 1];
      assert ids == init + [id];
      BuryPass(c, e, a, init);
      PassFrame(c, e, Burying, a, init);
      var b := Pass(c, e, Burying, a, init);
      SameZombie(c, e, a.s, b.s, id);
      BuryTurn(c, e, b, id);
      TurnFrame(c, e, Burying, b, id);
    }
  }

  /** Startup changes only jobs that were running and are gone: those become failed and release their cores. */
  lemma StartupChangesOnlyZombies(c: Ctx, e: TickEnv, s: Sched)
    requires WellKeyed(s)
    ensures forall id | id in s.jobs ::
              var t := Startup(c, e, s).s;
              id in t.jobs && if Zombie(c, e, s, id)
                then s.jobs[id].status == Running
                     && t.jobs[id] == s.jobs[id].(status := Failed, reason := ZombieAtRestart, cpuList := "", endTime := t.jobs[id].endTime)
                else t.jobs[id] == s.jobs[id]
  {
    BuryPass(c, e, Acc(s, false, []), s.order);
  }

  /** If no running job is gone, startup changes nothing and saves nothing. */
  lemma QuietStartup(c: Ctx, e: TickEnv, s: Sched)
    requires WellKeyed(s) && forall id | id in s.jobs :: !Zombie(c, e, s, id)
    ensures Startup(c, e, s).s == s
  {
    NothingBuried(c, e, Acc(s, false, []), s.order);
  }

  lemma {:induction false} NothingBuried(c: Ctx, e: TickEnv, a: Acc, ids: seq<string>)
    requires forall id | id in a.s.jobs :: !Zombie(c, e, a.s, id)
    ensures Pass(c, e, Burying, a, ids) == a
  {
    if ids != [] {
      NothingBuried(c, e, a, ids[..|ids| - 1]);
      var id := ids[|ids| - 1];
      if id in a.s.jobs { assert !Zombie(c, e, a.s, id); }
    }
  }

  /** Killing a running job makes it failed, forgets its handle, touches no other job, and is durable at once. */
  lemma KillIsDurable(c: Ctx, a: Acc, id: string)
    requires WellKeyed(a.s) && IsRunning(a.s.jobs, id)
    ensures var j, t := a.s.jobs[id], Save(c, Add(c, a, On(id, Act.Kill))).s;
            && t.jobs == a.s.jobs[id := j.(status := Failed, reason := KilledByUser, endTime := c.clock(a.s.clk))]
            && t.procs == Forgotten(a.s.procs, j.session)
            && Coherent(c, t)
  {
    hide Forgotten;
  }

  // ---- many lives -----------------------------------------------------------------------

  /** A process that got through `cut` events (or all of them) before it crashed or stopped. */
  datatype Life = Life(p: Process, stages: nat, cut: nat)

  ghost function Cut(c: Ctx, s: Sched, life: Life): nat {
    var log := Stage(c, life.p, s, life.stages).log;
    if life.cut <= |log| then life.cut else |log|
  }

  /** The state in which the process of this life ends. */
  ghost function EndOf(c: Ctx, s: Sched, life: Life): Sched {
    At(c, s, Stage(c, life.p, s, life.stages).log, Cut(c, s, life))
  }

  ghost function AfterLives(c: Ctx, s: Sched, lives: seq<Life>): Sched {
    if lives == [] then s
    else
      var end := EndOf(c, AfterLives(c, s, lives[..|lives| - 1]), lives[|lives| - 1]);
      Resume(c, end.disk, end.clk)
  }

  lemma StageSound(c: Ctx, p: Process, s: Sched, m: nat)
    requires Sound(c, s)
    ensures Sound(c, Stage(c, p, s, m).s)
  {
    StageTraces(c, p, s, m);
    SoundRun(c, s, Stage(c, p, s, m).log);
  }

  lemma LifeIsSound(c: Ctx, s: Sched, life: Life)
    requires Sound(c, s) && Coherent(c, s)
    ensures Sound(c, EndOf(c, s, life))
    ensures var end := EndOf(c, s, life); Sound(c, Resume(c, end.disk, end.clk)) && Coherent(c, Resume(c, end.disk, end.clk))
  {
    var m, k := life.stages, Cut(c, s, life);
    var log := Stage(c, life.p, s, m).log;
    var end := EndOf(c, s, life);
    StageTraces(c, life.p, s, m);
    RunPrefix(c, s, log, k);
    SoundRun(c, s, log[..k]);
    var b := CrashSeesABoundary(c, life.p, s, m, k);
    StageSound(c, life.p, s, b);
    ResumeRestores(c, end.disk, end.clk, Stage(c, life.p, s, b).s);
    SoundByJobs(c, Stage(c, life.p, s, b).s, Resume(c, end.disk, end.clk));
  }

  /** Crash safety over any number of crashes and restarts: every invariant holds in the last state of every
      life, wherever it is cut off, and in every resumed state. */
  lemma {:induction false} LivesAreSound(c: Ctx, s: Sched, lives: seq<Life>, last: Life)
    requires Sound(c, s) && Coherent(c, s)
    ensures Sound(c, AfterLives(c, s, lives)) && Coherent(c, AfterLives(c, s, lives))
    ensures Sound(c, EndOf(c, AfterLives(c, s, lives), last))
    decreases |lives|
  {
    if lives != [] {
      LivesAreSound(c, s, lives[..|lives| - 1], lives[|lives| - 1]);
      LifeIsSound(c, AfterLives(c, s, lives[..|lives| - 1]), lives[|lives| - 1]);
    }
    LifeIsSound(c, AfterLives(c, s, lives), last);
  }
}
