/** The scheduling loop of nodepilot/orchestrator.py over live `Job` objects.  Every method is proved to do
    what the corresponding pass of `Scheduler` does to the state it abstracts to. */
module Orchestrators {
  import opened Wrappers
  import opened CpuList
  import opened Numa
  import opened Jobs
  import opened Admission
  import opened Runner
  import opened Scheduler
  import opened Runs
  import opened Durability
  import opened StateFile
  import opened Safety

  ghost predicate UniqueIds(jobs: seq<Job>) {
    forall i, j | 0 <= i < j < |jobs| :: jobs[i].spec.id != jobs[j].spec.id
  }

  function Ids(jobs: seq<Job>): (ids: seq<string>)
    ensures |ids| == |jobs| && forall i | 0 <= i < |jobs| :: ids[i] == jobs[i].spec.id
  {
    seq(|jobs|, i requires 0 <= i < |jobs| => jobs[i].spec.id)
  }

  /** The records of the jobs by id. */
  ghost function JobMap(jobs: seq<Job>): (m: map<string, JobRec>)
    requires UniqueIds(jobs)
    reads jobs
    ensures forall j | j in jobs :: j.spec.id in m && m[j.spec.id] == j.Rec()
    ensures forall id :: id in m <==> id in Ids(jobs)
  {
    map i | 0 <= i < |jobs| :: jobs[i].spec.id := jobs[i].Rec()
  }

  lemma OneKeyChanged(m: map<string, JobRec>, n: map<string, JobRec>, id: string)
    requires m.Keys == n.Keys && id in m && forall x | x in m && x != id :: n[x] == m[x]
    ensures n == m[id := n[id]]
  {
  }

  lemma JobOf(jobs: seq<Job>, id: string) returns (job: Job)
    requires id in Ids(jobs)
    ensures job in jobs && job.spec.id == id
  {
    var i :| 0 <= i < |jobs| && Ids(jobs)[i] == id;
    job := jobs[i];
  }

  /** Assigning to the fields of one job updates one record: `m` holds the records from before. */
  lemma Touched(jobs: seq<Job>, job: Job, m: map<string, JobRec>)
    requires UniqueIds(jobs) && job in jobs
    requires forall id :: id in m <==> id in Ids(jobs)
    requires forall j | j in jobs && j != job :: j.Rec() == m[j.spec.id]
    ensures JobMap(jobs) == m[job.spec.id := job.Rec()]
  {
    var n := JobMap(jobs);
    forall x | x in m && x != job.spec.id ensures n[x] == m[x] {
      var j := JobOf(jobs, x);
    }
    OneKeyChanged(m, n, job.spec.id);
  }

  /** A pass over a longer prefix is one more turn. */
  lemma PassStep(c: Ctx, e: TickEnv, ph: Phase, a: Acc, ids: seq<string>, i: nat)
    requires i < |ids|
    ensures Pass(c, e, ph, a, ids[..i + 1]) == Turn(c, e, ph, Pass(c, e, ph, a, ids[..i]), ids[i])
  {
    hide Turn;
    assert ids[..i + 1][..i] == ids[..i];
  }

  lemma PassStart(c: Ctx, e: TickEnv, ph: Phase, a: Acc, ids: seq<string>)
    ensures Pass(c, e, ph, a, ids[..0]) == a && ids[..|ids|] == ids
  {
    assert ids[..0] == [];
  }

  function ReapAct(e: TickEnv, procs: Handles, j: JobRec): Act {
    Reap(Classify(ReturnCode(e, procs, j.session), e.oomHint(j.spec.id)))
  }

  /** What a turn of the reaping pass comes to. */
  lemma ReapTurn(c: Ctx, e: TickEnv, a: Acc, id: string)
    requires id in a.s.jobs && a.s.jobs[id].spec.id == id
    ensures var j := a.s.jobs[id];
            var act := ReapAct(e, a.s.procs, j);
            Turn(c, e, Reaping, a, id) ==
            if j.status == Running && !IsAlive(e, a.s.procs, j.session)
            then Acc(AfterReap(c, a.s, id, act), true, a.log + [On(id, act)]) else a
  {
    hide Classify, ReturnCode, IsAlive, Forgotten;
  }

  ghost function AfterReap(c: Ctx, s: Sched, id: string, act: Act): Sched
    requires id in s.jobs && act.Reap?
  {
    Sched(s.order, s.jobs[id := NewRec(c, s.clk, s.jobs[id], act)], Forgotten(s.procs, s.jobs[id].session),
          if IsOom(act) then c.clock(s.clk + 1) + c.cfg.oomCooldownSeconds else s.cooldownUntil,
          s.clk + ReadsOf(act), s.disk)
  }

  /** What a turn of the skipping pass comes to. */
  lemma SkipTurnIs(c: Ctx, e: TickEnv, a: Acc, id: string)
    requires id in a.s.jobs
    ensures var j := a.s.jobs[id];
            var b := Blocker(a.s.jobs, j.spec.dependsOn);
            Turn(c, e, Skipping, a, id) ==
            if j.status == Pending && b.Some?
            then Acc(AfterAct(c, a.s, id, Skip(b.value)), true, a.log + [On(id, Skip(b.value))]) else a
  {
  }

  /** What a turn of the zombie sweep comes to. */
  lemma BuryTurnIs(c: Ctx, e: TickEnv, a: Acc, id: string)
    requires id in a.s.jobs
    ensures var j := a.s.jobs[id];
            Turn(c, e, Burying, a, id) ==
            if j.status == Running && !IsAlive(e, a.s.procs, j.session) && !(c.cfg.memorySlice != "" && e.scopeActive(id))
            then Acc(AfterAct(c, a.s, id, Bury), true, a.log + [On(id, Bury)]) else a
  {
  }

  /** What a turn of the launch pass comes to. */
  lemma LaunchTurnIs(c: Ctx, e: TickEnv, a: Acc, id: string)
    requires id in a.s.jobs
    ensures var j := a.s.jobs[id];
            var d := DecisionAt(c, a.s, e.readings(id), j.spec);
            var b := Block(c, a.s, j.spec);
            Turn(c, e, Launching, a, id) ==
            if !DepsSatisfied(a.s.jobs, j.spec.dependsOn) || d == Wait(Paused) then a
            else if d.Wait? || b.None? then Acc(a.s.(clk := a.s.clk + 1), a.changed, a.log + [Defer(id)])
            else Acc(AfterAct(c, a.s, id, StartAct(c, e, id, b.value)), true, a.log + [On(id, StartAct(c, e, id, b.value))])
  {
  }

  lemma StartEffect(c: Ctx, e: TickEnv, s: Sched, id: string, b: Placement)
    requires id in s.jobs
    ensures var act := StartAct(c, e, id, b);
            AfterAct(c, s, id, act) ==
            Sched(s.order, s.jobs[id := NewRec(c, s.clk, s.jobs[id], act)], NewProcs(s.procs, s.jobs[id], act),
                  s.cooldownUntil, s.clk + 2, s.disk)
  {
  }

  lemma BlockIgnoresClock(c: Ctx, s: Sched, t: Sched, spec: JobSpec)
    requires t.order == s.order && t.jobs == s.jobs
    ensures Block(c, t, spec) == Block(c, s, spec)
  {
  }

  /** The folds over the job list, before its first element and after its last. */
  lemma FoldStart(reserved: set<nat>, ids: seq<string>, m: map<string, JobRec>)
    ensures ids[..|ids|] == ids
    ensures OccupiedBy(reserved, ids[..0], m) == reserved && Total(ids[..0], m) == NOTHING
    ensures PendingKeys(ids[..0], m) == [] && SnapshotOf(ids[..0], m) == []
  {
    assert ids[..0] == [];
  }

  /** The folds over the job list, one element further. */
  lemma FoldStep(reserved: set<nat>, ids: seq<string>, m: map<string, JobRec>, i: nat)
    requires i < |ids|
    ensures OccupiedBy(reserved, ids[..i + 1], m) == OccupiedBy(reserved, ids[..i], m) + Held(m, ids[i])
    ensures Total(ids[..i + 1], m) == Plus(Total(ids[..i], m), Part(m, ids[i]))
    ensures PendingKeys(ids[..i + 1], m) ==
            PendingKeys(ids[..i], m) + if ids[i] in m && m[ids[i]].status == Pending then [Key(m[ids[i]].spec.priority, ids[i])] else []
    ensures SnapshotOf(ids[..i + 1], m) == SnapshotOf(ids[..i], m) + if ids[i] in m then [m[ids[i]]] else []
  {
    hide Held, Part, Plus;
    assert ids[..i + 1][..i] == ids[..i] && ids[..i + 1][i] == ids[i];
  }

  lemma SaveEffect(c: Ctx, a: Acc)
    ensures Save(c, a) ==
            Acc(a.s.(clk := a.s.clk + 1, disk := Disk(Some(SnapshotOf(a.s.order, a.s.jobs)), NoTmp)),
                a.changed, a.log + [OpenTmp] + [WriteTmp] + [Replace])
  {
  }

  lemma FirstStage(c: Ctx, p: Process, s: Sched)
    ensures Stage(c, p, s, 1) == Startup(c, p.boot, s)
  {
    StageIsLoop(c, p, s, 0);
  }

  /** Core exclusivity is kept by every stage, so recorded cores can always be read back. */
  lemma StageIsReadable(c: Ctx, p: Process, s: Sched, m: nat)
    requires WellKeyed(s) && Exclusive(c, s)
    ensures Readable(Stage(c, p, s, m).s.jobs)
  {
    hide Stage;
    StageTraces(c, p, s, m);
    CoreExclusivity(c, s, Stage(c, p, s, m).log);
  }

  /** The recorded cores of every running job can be read back. */
  ghost predicate Readable(jobs: map<string, JobRec>) {
    forall id | IsRunning(jobs, id) :: Parse(jobs[id].cpuList).Ok?
  }

  lemma StartedIsReadable(c: Ctx, e: TickEnv, s: Sched, id: string, b: Placement)
    requires id in s.jobs && Readable(s.jobs) && Block(c, s, s.jobs[id].spec) == Some(b)
    ensures Readable(AfterAct(c, s, id, StartAct(c, e, id, b)).jobs)
  {
    hide Parse, Allocation, NodeCores, OccupiedBy, NewProcs;
    PlacementSound(
      RequestOf(c.cfg, s.jobs[id].spec), Machine(OccupiedBy(c.reserved, s.order, s.jobs), c.secondary, Unread), c.nodes);
    assert Parse(b.cpuList).Ok?;
    StartedText(c, e, s, id, b);
  }

  lemma StartedText(c: Ctx, e: TickEnv, s: Sched, id: string, b: Placement)
    requires id in s.jobs
    ensures var j := s.jobs[id];
            var j' := NewRec(c, s.clk, j, StartAct(c, e, id, b));
            AfterAct(c, s, id, StartAct(c, e, id, b)).jobs == s.jobs[id := j'] && j'.cpuList == b.cpuList
  {
  }

  lemma TurnIsReadable(c: Ctx, e: TickEnv, ph: Phase, a: Acc, id: string)
    requires Readable(a.s.jobs) && ph != Launching
    ensures Readable(Turn(c, e, ph, a, id).s.jobs)
  {
  }

  lemma {:induction false} PassIsReadable(c: Ctx, e: TickEnv, ph: Phase, a: Acc, ids: seq<string>)
    requires Readable(a.s.jobs) && ph != Launching
    ensures Readable(Pass(c, e, ph, a, ids).s.jobs)
  {
    hide Turn, Readable;
    if ids != [] {
      PassIsReadable(c, e, ph, a, ids[..|ids| - 1]);
      TurnIsReadable(c, e, ph, Pass(c, e, ph, a, ids[..|ids| - 1]), ids[|ids| - 1]);
    }
  }

  lemma {:induction false} RoundsAreReadable(c: Ctx, e: TickEnv, a: Acc)
    requires Readable(a.s.jobs)
    ensures Readable(SkipRounds(c, e, a).s.jobs)
    decreases |PendingIds(a.s.jobs)|
  {
    hide Readable;
    var b := a.(changed := false);
    PassIsReadable(c, e, Skipping, b, a.s.order);
    if Pass(c, e, Skipping, b, a.s.order).changed {
      SkipRoundShrinks(c, e, b, a.s.order);
      RoundsAreReadable(c, e, Pass(c, e, Skipping, b, a.s.order));
    }
  }

  class Orchestrator {
    const c: Ctx
    const jobs: seq<Job>
    const admission: AdmissionController
    const runner: Runner
    const clock: Clock
    const store: StateStore

    ghost predicate Valid() {
      && UniqueIds(jobs)
      && admission.cfg == c.cfg && admission.clock == clock && clock.reading == c.clock
      && runner.tmux == c.cfg.tmux
      && WellFormed(c.nodes)
    }

    /** The state this object stands for. */
    ghost function State(): Sched
      requires Valid()
      reads jobs, admission, runner, clock, store
    {
      Sched(Ids(jobs), JobMap(jobs), runner.procs, admission.cooldownUntil, clock.taken, store.Contents())
    }

    lemma StateKeyed()
      requires Valid()
      ensures WellKeyed(State())
    {
      var s := State();
      forall id | id in s.jobs ensures s.jobs[id].spec.id == id {
        var j := JobOf(jobs, id);
      }
    }

    /** What the state says about one job. */
    lemma Abstracts(job: Job)
      requires Valid() && job in jobs
      ensures var s := State();
              && job.spec.id in s.jobs && s.jobs[job.spec.id] == job.Rec()
              && s.procs == runner.procs && s.cooldownUntil == admission.cooldownUntil
              && s.clk == clock.taken && s.disk == store.Contents() && s.order == Ids(jobs)
      ensures forall id :: id in State().jobs <==> id in Ids(jobs)
      ensures forall j | j in jobs :: State().jobs[j.spec.id] == j.Rec()
    {
    }

    /** The state once only `job` has been assigned to since `before`. */
    lemma Updated(job: Job, before: map<string, JobRec>)
      requires Valid() && job in jobs
      requires forall id :: id in before <==> id in Ids(jobs)
      requires forall j | j in jobs && j != job :: j.Rec() == before[j.spec.id]
      ensures State() ==
              Sched(Ids(jobs), before[job.spec.id := job.Rec()], runner.procs, admission.cooldownUntil, clock.taken, store.Contents())
    {
      Touched(jobs, job, before);
    }

    /** The state once at most the clock has been read since `before`. */
    lemma Ticked(job: Job, before: Sched)
      requires Valid() && job in jobs && before.order == Ids(jobs)
      requires forall id :: id in before.jobs <==> id in Ids(jobs)
      requires forall j | j in jobs :: j.Rec() == before.jobs[j.spec.id]
      requires before.procs == runner.procs && before.cooldownUntil == admission.cooldownUntil && before.disk == store.Contents()
      ensures State() == before.(clk := clock.taken)
    {
      Updated(job, before.jobs);
      assert before.jobs[job.spec.id := job.Rec()] == before.jobs;
    }

    /** A new scheduler holds no handles and is not cooling down. */
    constructor (c: Ctx, jobs: seq<Job>, clock: Clock, store: StateStore)
      requires UniqueIds(jobs) && clock.reading == c.clock && WellFormed(c.nodes)
      ensures Valid() && this.c == c && this.jobs == jobs && this.clock == clock && this.store == store
      ensures fresh(admission) && fresh(runner)
      ensures State() == Sched(Ids(jobs), JobMap(jobs), map[], 0.0, clock.taken, store.Contents())
    {
      this.c, this.jobs, this.clock, this.store := c, jobs, clock, store;
      admission := new AdmissionController(c.cfg, clock);
      runner := new Runner(c.cfg.tmux);
    }

    // ---- reaping -------------------------------------------------------------------

    /** Reaps a job's process, records how it ended, and arms the cooldown after an out-of-memory kill. */
    method FinishJob(job: Job, e: TickEnv)
      requires Valid()
      modifies job, runner, admission, clock
      ensures var act := ReapAct(e, old(runner.procs), old(job.Rec()));
              && job.Rec() == NewRec(c, old(clock.taken), old(job.Rec()), act)
              && runner.procs == Forgotten(old(runner.procs), old(job.session))
              && clock.taken == old(clock.taken) + ReadsOf(act)
              && admission.cooldownUntil ==
                 if IsOom(act) then c.clock(old(clock.taken) + 1) + c.cfg.oomCooldownSeconds else old(admission.cooldownUntil)
    {
      hide Classify, ReturnCode, Forgotten;
      var outcome := runner.Reap(job, e);
      job.status := outcome.status;
      job.reason := outcome.reason;
      job.exitCode := outcome.exitCode;
      job.endTime := clock.Now();
      if outcome.status != Done && outcome.reason == OomKilled {
        admission.TriggerOomCooldown();
      }
    }

    /** One turn of `_reap_finished`. */
    method ReapJob(job: Job, e: TickEnv, ghost a: Acc) returns (changed: bool, ghost t: Acc)
      requires Valid() && job in jobs && a.s == State()
      modifies job, runner, admission, clock
      ensures t == Turn(c, e, Reaping, a, job.spec.id) && t.s == State()
      ensures t.changed == (a.changed || changed)
    {
      hide Valid, Turn, NewRec, ReadsOf, IsOom, ReapAct, IsAlive, Forgotten, State, JobMap, Ids, UniqueIds, Classify, ReturnCode;
      changed := false;
      Abstracts(job);
      ReapTurn(c, e, a, job.spec.id);
      t := Turn(c, e, Reaping, a, job.spec.id);
      if job.status == Running {
        var alive := runner.Alive(job, e);
        if !alive {
          FinishJob(job, e);
          changed := true;
          Updated(job, a.s.jobs);
        }
      }
    }

    /** `_reap_finished` */
    method ReapFinished(e: TickEnv, ghost a: Acc) returns (changed: bool, ghost t: Acc)
      requires Valid() && a.s == State()
      modifies jobs, runner, admission, clock
      ensures t == Pass(c, e, Reaping, a, a.s.order) && t.s == State()
      ensures t.changed == (a.changed || changed)
    {
      hide Turn;
      changed := false;
      t := a;
      PassStart(c, e, Reaping, a, Ids(jobs));
      for i := 0 to |jobs|
        invariant t.s == State() && t == Pass(c, e, Reaping, a, Ids(jobs)[..i])
        invariant t.changed == (a.changed || changed)
      {
        PassStep(c, e, Reaping, a, Ids(jobs), i);
        var now;
        now, t := ReapJob(jobs[i], e, t);
        changed := changed || now;
      }
    }

    // ---- dead dependents -------------------------------------------------------------

    /** `{j.id: j for j in self.jobs}` */
    ghost predicate Indexes(byId: map<string, Job>) {
      && (forall id :: id in byId <==> id in Ids(jobs))
      && (forall id | id in byId :: byId[id] in jobs && byId[id].spec.id == id)
    }

    /** The search for a blocker among a job's dependencies. */
    method FindBlocker(job: Job, byId: map<string, Job>) returns (blocker: Option<Reason>)
      requires Valid() && job in jobs
      requires Indexes(byId)
      ensures blocker == Blocker(State().jobs, job.spec.dependsOn)
    {
      var deps := job.spec.dependsOn;
      blocker := None;
      assert deps[0..] == deps;
      for i := 0 to |deps|
        invariant blocker == None
        invariant Blocker(State().jobs, deps) == Blocker(State().jobs, deps[i..])
      {
        var dep := deps[i];
        assert deps[i..][0] == dep && deps[i..][1..] == deps[i + 1..];
        if dep !in byId {
          return Some(DependencyUnknown(dep));
        }
        var upstream := byId[dep];
        assert State().jobs[dep] == upstream.Rec();
        if upstream.status == Failed || upstream.status == Skipped {
          return Some(DependencyFailed(dep));
        }
      }
    }

    method RecordSkip(job: Job, why: Reason)
      requires Valid()
      modifies job, clock
      ensures job.Rec() == NewRec(c, old(clock.taken), old(job.Rec()), Skip(why))
      ensures clock.taken == old(clock.taken) + 1
    {
      job.status := Skipped;
      job.reason := why;
      job.endTime := clock.Now();
    }

    /** One turn of `_mark_dead_dependents`. */
    method SkipJob(job: Job, byId: map<string, Job>, e: TickEnv, ghost a: Acc) returns (changed: bool, ghost t: Acc)
      requires Valid() && job in jobs && a.s == State()
      requires Indexes(byId)
      modifies job, clock
      ensures t == Turn(c, e, Skipping, a, job.spec.id) && t.s == State()
      ensures t.changed == (a.changed || changed)
    {
      hide Valid, Turn, Blocker, NewRec, State, JobMap, Indexes;
      changed := false;
      Abstracts(job);
      SkipTurnIs(c, e, a, job.spec.id);
      t := Turn(c, e, Skipping, a, job.spec.id);
      if job.status == Pending {
        var blocker := FindBlocker(job, byId);
        if blocker.Some? {
          RecordSkip(job, blocker.value);
          changed := true;
          Updated(job, a.s.jobs);
        }
      }
    }

    /** One round of the fixed-point loop. */
    method SkipRound(byId: map<string, Job>, e: TickEnv, ghost a: Acc) returns (progressed: bool, ghost t: Acc)
      requires Valid() && a.s == State() && !a.changed
      requires Indexes(byId)
      modifies jobs, clock
      ensures t == Pass(c, e, Skipping, a, a.s.order) && t.s == State() && t.changed == progressed
    {
      hide Turn;
      progressed := false;
      t := a;
      PassStart(c, e, Skipping, a, Ids(jobs));
      for i := 0 to |jobs|
        invariant t.s == State() && t == Pass(c, e, Skipping, a, Ids(jobs)[..i])
        invariant t.changed == progressed
      {
        PassStep(c, e, Skipping, a, Ids(jobs), i);
        var now;
        now, t := SkipJob(jobs[i], byId, e, t);
        progressed := progressed || now;
      }
    }

    method IndexJobs() returns (byId: map<string, Job>)
      requires Valid()
      ensures Indexes(byId)
    {
      byId := map i | 0 <= i < |jobs| :: jobs[i].spec.id := jobs[i];
    }

    /** `_mark_dead_dependents` */
    method MarkDeadDependents(e: TickEnv, ghost a: Acc) returns (changed: bool, ghost t: Acc)
      requires Valid() && a.s == State()
      modifies jobs, clock
      ensures t == SkipRounds(c, e, a) && t.s == State()
      ensures t.changed == (a.changed || changed)
    {
      hide Pass, PendingIds;
      var byId := IndexJobs();
      changed := false;
      ghost var b := a;
      while true
        invariant b.s == State() && SkipRounds(c, e, b) == SkipRounds(c, e, a)
        invariant b.changed == (a.changed || changed)
        decreases |PendingIds(b.s.jobs)|
      {
        var progressed;
        ghost var round;
        ghost var start := b.(changed := false);
        progressed, round := SkipRound(byId, e, start);
        SkipRoundShrinks(c, e, start, start.s.order);
        if !progressed {
          t := round.(changed := b.changed);
          return;
        }
        changed := true;
        b := round;
      }
    }

    // ---- launching -------------------------------------------------------------------

    /** `_deps_satisfied` */
    method DepsDone(job: Job, byId: map<string, Job>) returns (ok: bool)
      requires Valid() && job in jobs && Indexes(byId)
      ensures ok == DepsSatisfied(State().jobs, job.spec.dependsOn)
    {
      hide JobMap;
      Abstracts(job);
      var deps := job.spec.dependsOn;
      for i := 0 to |deps|
        invariant forall k | 0 <= k < i :: IsDone(State().jobs, deps[k])
      {
        var dep := deps[i];
        assert dep in deps;
        if dep !in byId {
          return false;
        }
        var upstream := byId[dep];
        assert State().jobs[dep] == upstream.Rec();
        if upstream.status != Done {
          return false;
        }
      }
      ok := true;
    }

    /** The cores one job holds; a job without a CPU list holds none. */
    method CoresHeldBy(job: Job) returns (cores: set<nat>)
      requires Valid() && job in jobs && Readable(State().jobs)
      ensures cores == Held(State().jobs, job.spec.id)
    {
      Abstracts(job);
      cores := {};
      if job.status == Running && job.cpuList != "" {
        var parsed := ParseCpuList(job.cpuList);
        assert IsRunning(State().jobs, job.spec.id);
        cores := parsed.value;
      } else {
        BlankParses("");
      }
    }

    /** `_occupied_cores` */
    method OccupiedCores() returns (occupied: set<nat>)
      requires Valid() && Readable(State().jobs)
      ensures occupied == OccupiedBy(c.reserved, State().order, State().jobs)
    {
      hide Held, Readable, JobMap, OccupiedBy;
      occupied := c.reserved;
      FoldStart(c.reserved, Ids(jobs), State().jobs);
      for i := 0 to |jobs|
        invariant occupied == OccupiedBy(c.reserved, Ids(jobs)[..i], State().jobs)
      {
        FoldStep(c.reserved, Ids(jobs), State().jobs, i);
        var cores := CoresHeldBy(jobs[i]);
        occupied := occupied + cores;
      }
    }

    /** The sums over running jobs that admission control compares with its limits. */
    method RunningLoad() returns (load: Load)
      requires Valid()
      ensures load == Total(State().order, State().jobs)
    {
      hide JobMap, Total, Weight;
      load := NOTHING;
      FoldStart(c.reserved, Ids(jobs), State().jobs);
      for i := 0 to |jobs|
        invariant load == Total(Ids(jobs)[..i], State().jobs)
      {
        FoldStep(c.reserved, Ids(jobs), State().jobs, i);
        Abstracts(jobs[i]);
        load := Plus(load, Weight(jobs[i].Rec()));
      }
    }

    /** The part of `_launch` after a block has been found. */
    method Start(job: Job, b: Placement, e: TickEnv)
      requires Valid() && job in jobs && clock.taken >= 1
      modifies job, runner, clock
      ensures job.Rec() == NewRec(c, old(clock.taken) - 1, old(job.Rec()), StartAct(c, e, job.spec.id, b))
      ensures runner.procs == NewProcs(old(runner.procs), old(job.Rec()), StartAct(c, e, job.spec.id, b))
      ensures clock.taken == old(clock.taken) + 1
    {
      job.cpuList := b.cpuList;
      job.numaNode := b.node;
      var r := runner.Start(job, e);
      if r.StartFailed? {
        job.status := Failed;
        job.reason := LaunchError(r.message);
        job.endTime := clock.Now();
      } else {
        job.status := Running;
        job.startTime := clock.Now();
      }
    }

    /** The call to the allocator. */
    method FindBlock(job: Job) returns (b: Option<Placement>)
      requires Valid() && job in jobs && Readable(State().jobs)
      ensures b == Block(c, State(), job.spec)
    {
      hide JobMap, Allocation, Readable;
      var occupied := OccupiedCores();
      var r := Allocate(RequestOf(c.cfg, job.spec), Machine(occupied, c.secondary, Unread), c.nodes);
      b := r.value;
    }

    /** `_launch`, called once admission control has read the clock for this job: `before` is the state before
        that reading. */
    method LaunchNow(job: Job, e: TickEnv, ghost before: Sched) returns (changed: bool)
      requires Valid() && job in jobs && State() == before.(clk := before.clk + 1) && Readable(before.jobs)
      modifies job, runner, clock
      ensures changed == Block(c, before, job.spec).Some?
      ensures !changed ==> State() == before.(clk := before.clk + 1)
      ensures changed ==> job.spec.id in before.jobs
                          && State() == AfterAct(c, before, job.spec.id, StartAct(c, e, job.spec.id, Block(c, before, job.spec).value))
    {
      hide Valid, State, JobMap, NewRec, NewProcs, StartAct, AfterAct, Block, Readable, Ids, UniqueIds;
      Abstracts(job);
      BlockIgnoresClock(c, before, State(), job.spec);
      var b := FindBlock(job);
      changed := b.Some?;
      if changed {
        StartEffect(c, e, before, job.spec.id, b.value);
        Start(job, b.value, e);
        Updated(job, before.jobs);
      }
    }

    /** One turn of `_launch_pending`. */
    method LaunchJob(job: Job, byId: map<string, Job>, e: TickEnv, ghost a: Acc) returns (changed: bool, ghost t: Acc)
      requires Valid() && job in jobs && Indexes(byId) && a.s == State() && Readable(a.s.jobs)
      modifies job, runner, clock
      ensures t == Turn(c, e, Launching, a, job.spec.id) && t.s == State()
      ensures t.changed == (a.changed || changed) && Readable(t.s.jobs)
    {
      hide Turn, State, JobMap, Indexes, Readable, Block, AfterAct, Decide, Total, Ids, UniqueIds, StartAct, DepsSatisfied;
      changed := false;
      Abstracts(job);
      LaunchTurnIs(c, e, a, job.spec.id);
      t := Turn(c, e, Launching, a, job.spec.id);
      var ready := DepsDone(job, byId);
      if ready {
        var load := RunningLoad();
        var decision := admission.CanLaunch(job.spec, load, e.readings(job.spec.id));
        Ticked(job, a.s);
        if decision.Go? {
          changed := LaunchNow(job, e, a.s);
          if changed {
            StartedIsReadable(c, e, a.s, job.spec.id, Block(c, a.s, job.spec).value);
          }
        }
      }
    }

    /** `sorted((j for j in self.jobs if j.status == PENDING), key=lambda j: (j.priority, j.id))`, by id */
    method PendingInOrder() returns (ids: seq<string>)
      requires Valid()
      ensures ids == LaunchOrder(State())
    {
      hide JobMap, PendingKeys;
      var keys: seq<Key> := [];
      FoldStart(c.reserved, Ids(jobs), State().jobs);
      for i := 0 to |jobs|
        invariant keys == PendingKeys(Ids(jobs)[..i], State().jobs)
      {
        FoldStep(c.reserved, Ids(jobs), State().jobs, i);
        Abstracts(jobs[i]);
        if jobs[i].status == Pending {
          keys := keys + [Key(jobs[i].spec.priority, jobs[i].spec.id)];
        }
      }
      ids := IdsOf(SortKeys(keys));
    }

    lemma OrderIsKnown()
      requires Valid()
      ensures forall id | id in LaunchOrder(State()) :: id in Ids(jobs)
    {
      StateKeyed();
      LaunchOrderFacts(State());
      forall id | id in LaunchOrder(State()) ensures id in Ids(jobs) {
        assert id in PendingIds(State().jobs);
      }
    }

    /** `_launch_pending` */
    method LaunchPending(e: TickEnv, ghost a: Acc) returns (changed: bool, ghost t: Acc)
      requires Valid() && a.s == State() && Readable(a.s.jobs)
      modifies jobs, runner, clock
      ensures t == LaunchPass(c, e, a) && t.s == State()
      ensures t.changed == (a.changed || changed)
    {
      hide Turn, State, JobMap, Readable, LaunchOrder;
      var byId := IndexJobs();
      var ids := PendingInOrder();
      OrderIsKnown();
      changed := false;
      t := a;
      PassStart(c, e, Launching, a, ids);
      for i := 0 to |ids|
        invariant t.s == State() && t == Pass(c, e, Launching, a, ids[..i]) && Readable(t.s.jobs)
        invariant t.changed == (a.changed || changed)
      {
        PassStep(c, e, Launching, a, ids, i);
        assert ids[i] in byId;
        var now;
        now, t := LaunchJob(byId[ids[i]], byId, e, t);
        changed := changed || now;
      }
    }

    // ---- the loop ----------------------------------------------------------------------

    /** `_tick` */
    method TickOnce(e: TickEnv, ghost a: Acc) returns (changed: bool, ghost t: Acc)
      requires Valid() && a.s == State() && !a.changed && Readable(a.s.jobs)
      modifies jobs, runner, admission, clock
      ensures t == Tick(c, e, a) && t.s == State() && t.changed == changed
    {
      hide State, Pass, SkipRounds, LaunchPass, Readable;
      var reaped, skipped, launched;
      reaped, t := ReapFinished(e, a);
      PassIsReadable(c, e, Reaping, a, a.s.order);
      RoundsAreReadable(c, e, t);
      skipped, t := MarkDeadDependents(e, t);
      launched, t := LaunchPending(e, t);
      changed := reaped || skipped || launched;
    }

    /** `[job_to_dict(j) for j in jobs]` */
    method TakeSnapshot() returns (snap: Snapshot)
      requires Valid()
      ensures snap == SnapshotOf(State().order, State().jobs)
    {
      hide JobMap, SnapshotOf;
      snap := [];
      FoldStart(c.reserved, Ids(jobs), State().jobs);
      for i := 0 to |jobs|
        invariant snap == SnapshotOf(Ids(jobs)[..i], State().jobs)
      {
        FoldStep(c.reserved, Ids(jobs), State().jobs, i);
        Abstracts(jobs[i]);
        snap := snap + [jobs[i].Rec()];
      }
    }

    /** `save_state` of the job list. */
    method SaveJobs(ghost a: Acc) returns (ghost t: Acc)
      requires Valid() && a.s == State()
      modifies store, clock
      ensures t == Save(c, a) && t.s == State()
    {
      hide Save, JobMap;
      var snap := TakeSnapshot();
      ghost var steps := store.SaveState(snap, clock);
      SaveEffect(c, a);
      t := Save(c, a);
    }

    /** `_is_drained` */
    method Drained() returns (drained: bool)
      requires Valid()
      ensures drained == IsDrained(State().jobs)
    {
      for i := 0 to |jobs|
        invariant forall k | 0 <= k < i :: jobs[k].status != Pending && jobs[k].status != Running
      {
        if jobs[i].status == Pending || jobs[i].status == Running {
          Abstracts(jobs[i]);
          return false;
        }
      }
      forall id | id in State().jobs ensures State().jobs[id].status != Pending && State().jobs[id].status != Running {
        var j := JobOf(jobs, id);
        Abstracts(j);
      }
      drained := true;
    }

    // ---- startup -----------------------------------------------------------------------

    /** One turn of `_reconcile_zombies`. */
    method BuryJob(job: Job, e: TickEnv, ghost a: Acc) returns (buried: bool, ghost t: Acc)
      requires Valid() && job in jobs && a.s == State()
      modifies job, clock
      ensures t == Turn(c, e, Burying, a, job.spec.id) && t.s == State()
      ensures t.changed == (a.changed || buried)
    {
      hide Valid, Turn, State, JobMap, IsAlive;
      buried := false;
      Abstracts(job);
      BuryTurnIs(c, e, a, job.spec.id);
      t := Turn(c, e, Burying, a, job.spec.id);
      if job.status == Running {
        var aliveProc := runner.Alive(job, e);
        var aliveScope := c.cfg.memorySlice != "" && e.scopeActive(job.spec.id);
        if !aliveProc && !aliveScope {
          RecordZombie(job);
          buried := true;
          Updated(job, a.s.jobs);
        }
      }
    }

    method RecordZombie(job: Job)
      requires Valid()
      modifies job, clock
      ensures job.Rec() == NewRec(c, old(clock.taken), old(job.Rec()), Bury)
      ensures clock.taken == old(clock.taken) + 1
    {
      job.status := Failed;
      job.reason := ZombieAtRestart;
      job.endTime := clock.Now();
      job.cpuList := "";
    }

    /** `_reconcile_zombies` */
    method ReconcileZombies(e: TickEnv, ghost a: Acc) returns (ghost t: Acc)
      requires Valid() && a == Acc(State(), false, [])
      modifies jobs, clock, store
      ensures t == Startup(c, e, a.s) && t.s == State()
    {
      hide Turn, Save;
      var n := 0;
      t := a;
      PassStart(c, e, Burying, a, Ids(jobs));
      for i := 0 to |jobs|
        invariant t.s == State() && t == Pass(c, e, Burying, a, Ids(jobs)[..i])
        invariant t.changed == (n > 0) && n >= 0
      {
        PassStep(c, e, Burying, a, Ids(jobs), i);
        var buried;
        buried, t := BuryJob(jobs[i], e, t);
        if buried { n := n + 1; }
      }
      if n > 0 {
        t := SaveJobs(t);
      }
    }

    // ---- running -----------------------------------------------------------------------

    /** One iteration of the main loop: a tick, and a save if it changed anything. */
    method Iterate(p: Process, m: nat, ghost s0: Sched, ghost a: Acc) returns (ghost t: Acc)
      requires Valid() && a == Stage(c, p, s0, m) && m >= 1 && a.s == State() && Readable(a.s.jobs)
      modifies jobs, runner, admission, clock, store
      ensures t == Stage(c, p, s0, m + 1) && t.s == State()
    {
      hide Tick, Save, State, Readable;
      var changed;
      changed, t := TickOnce(p.world(m - 1), a.(changed := false));
      if changed {
        t := SaveJobs(t);
      }
    }

    /** `run`.  Without a tick limit the loop ends because the queue drains: `bound` is a number of ticks
        after which it has.  The object is left in the state of the stage it stopped at: the first one after
        at least one tick that is drained or at the limit. */
    method Run(p: Process, maxTicks: Option<int>, ghost bound: nat) returns (ticks: nat)
      requires Valid() && Exclusive(c, State())
      requires maxTicks.None? ==> bound >= 1 && IsDrained(Stage(c, p, State(), bound + 1).s.jobs)
      modifies jobs, runner, admission, clock, store
      ensures ticks >= 1 && State() == Stage(c, p, old(State()), ticks + 1).s
      ensures IsDrained(State().jobs) || (maxTicks.Some? && ticks >= maxTicks.value)
      ensures maxTicks.Some? && ticks > 1 ==> ticks <= maxTicks.value
      ensures forall k | 2 <= k <= ticks :: !IsDrained(Stage(c, p, old(State()), k).s.jobs)
    {
      hide Work, SaveIfChanged, State, IsDrained, Startup, Exclusive;
      StateKeyed();
      ghost var s0 := State();
      ghost var a := Acc(s0, false, []);
      a := ReconcileZombies(p.boot, a);
      FirstStage(c, p, s0);
      ticks := 0;
      while true
        invariant a.s == State() && a == Stage(c, p, s0, ticks + 1)
        invariant maxTicks.None? ==> ticks < bound
        invariant maxTicks.Some? && ticks > 0 ==> ticks < maxTicks.value
        invariant forall k | 2 <= k <= ticks + 1 :: !IsDrained(Stage(c, p, s0, k).s.jobs)
        decreases (if maxTicks.Some? then maxTicks.value else bound) - ticks
      {
        StageIsReadable(c, p, s0, ticks + 1);
        a := Iterate(p, ticks + 1, s0, a);
        ticks := ticks + 1;
        var drained := Drained();
        if drained {
          return;
        }
        if maxTicks.Some? && ticks >= maxTicks.value {
          return;
        }
      }
    }

    /** `kill` */
    method Kill(jobId: string, ghost a: Acc) returns (killed: bool, ghost t: Acc)
      requires Valid() && a.s == State()
      modifies jobs, runner, clock, store
      ensures killed == IsRunning(a.s.jobs, jobId) && t.s == State()
      ensures t == if killed then Scheduler.Save(c, Add(c, a, On(jobId, Act.Kill))) else a
    {
      hide Save, Add, JobMap;
      for i := 0 to |jobs|
        invariant a.s == State()
        invariant forall k | 0 <= k < i :: jobs[k].spec.id != jobId || jobs[k].status != Running
      {
        if jobs[i].spec.id == jobId && jobs[i].status == Running {
          t := KillJob(jobs[i], a);
          t := SaveJobs(t);
          return true, t;
        }
      }
      if IsRunning(State().jobs, jobId) {
        var j := JobOf(jobs, jobId);
        Abstracts(j);
      }
      killed, t := false, a;
    }

    method KillJob(job: Job, ghost a: Acc) returns (ghost t: Acc)
      requires Valid() && job in jobs && a.s == State() && job.status == Running
      modifies job, runner, clock
      ensures t == Add(c, a, On(job.spec.id, Act.Kill)) && t.s == State() && IsRunning(a.s.jobs, job.spec.id)
    {
      hide Valid, State, JobMap, NewRec, Forgotten;
      Abstracts(job);
      t := Add(c, a, On(job.spec.id, Act.Kill));
      RecordKill(job);
      Updated(job, a.s.jobs);
    }

    method RecordKill(job: Job)
      requires Valid()
      modifies job, runner, clock
      ensures job.Rec() == NewRec(c, old(clock.taken), old(job.Rec()), Act.Kill)
      ensures runner.procs == Forgotten(old(runner.procs), old(job.session))
      ensures clock.taken == old(clock.taken) + 1
    {
      runner.Kill(job);
      job.status := Failed;
      job.reason := KilledByUser;
      job.endTime := clock.Now();
    }

    // ---- construction ------------------------------------------------------------------

    /** `from_queue`: the state file's jobs if there is one, else the queue's.  `Err` is the `ValueError` of a
        repeated id in the queue file or of a malformed `reserved_cores`, or the `RuntimeError` of a tmux
        backend without tmux. */
    static method FromQueue(c: Ctx, reservedCores: string, hasTmux: bool, clock: Clock, store: StateStore)
      returns (r: Result<Orchestrator>)
      requires clock.reading == c.clock && WellFormed(c.nodes)
      requires store.target.Some? ==> NoDup(OrderOf(store.target.value))
      ensures r.Err? <==> !NoDup(OrderOf(c.queue)) || (c.cfg.tmux && !hasTmux) || Parse(reservedCores).Err?
      ensures r.Ok? ==> var o := r.value;
                        && fresh(o) && o.Valid() && o.c == c.(reserved := Parse(reservedCores).value)
                        && o.clock == clock && o.store == store
                        && o.State() == Resume(c, store.Contents(), clock.taken)
    {
      var duplicate := ValidateUniqueIds(OrderOf(c.queue));
      if duplicate.Some? {
        return Err("duplicate job id in queue: " + duplicate.value);
      }
      var snap := store.Load(c);
      var jobs := LoadJobs(snap);
      if c.cfg.tmux && !hasTmux {
        return Err("tmux is not on PATH");
      }
      var reserved := ParseCpuList(reservedCores);
      if reserved.Err? {
        return Err(reserved.error);
      }
      var o := new Orchestrator(c.(reserved := reserved.value), jobs, clock, store);
      r := Ok(o);
    }
  }

  /** Live jobs for a loaded list. */
  method LoadJobs(snap: Snapshot) returns (jobs: seq<Job>)
    requires NoDup(OrderOf(snap))
    ensures fresh(jobs) && UniqueIds(jobs)
    ensures Ids(jobs) == OrderOf(snap) && JobMap(jobs) == JobsOf(snap)
  {
    jobs := [];
    assert snap[..0] == [] && snap[..|snap|] == snap;
    for i := 0 to |snap|
      invariant |jobs| == i && fresh(jobs)
      invariant forall k | 0 <= k < i :: jobs[k].Rec() == snap[k]
    {
      var job := new Job(snap[i]);
      jobs := jobs + [job];
    }
    LoadedRecords(snap, jobs);
  }

  lemma {:induction false} OrderOfIndex(snap: Snapshot)
    ensures |OrderOf(snap)| == |snap| && forall k | 0 <= k < |snap| :: OrderOf(snap)[k] == snap[k].spec.id
  {
    if snap != [] { OrderOfIndex(snap[..|snap| - 1]); }
  }

  lemma {:induction false} JobsOfIndex(snap: Snapshot)
    requires NoDup(OrderOf(snap))
    ensures forall k | 0 <= k < |snap| :: snap[k].spec.id in JobsOf(snap) && JobsOf(snap)[snap[k].spec.id] == snap[k]
    ensures forall id :: id in JobsOf(snap) <==> id in OrderOf(snap)
  {
    OrderOfIndex(snap);
    if snap != [] {
      var init := snap[..|snap| - 1];
      OrderOfIndex(init);
      JobsOfIndex(init);
      assert OrderOf(snap) == OrderOf(init) + [snap[|snap| - 1].spec.id];
    }
  }

  lemma SameMaps(m: map<string, JobRec>, n: map<string, JobRec>)
    requires (forall id :: id in m <==> id in n) && forall id | id in m && id in n :: m[id] == n[id]
    ensures m == n
  {
  }

  lemma LoadedRecords(snap: Snapshot, jobs: seq<Job>)
    requires NoDup(OrderOf(snap)) && |jobs| == |snap|
    requires forall k | 0 <= k < |snap| :: jobs[k].Rec() == snap[k]
    ensures UniqueIds(jobs) && Ids(jobs) == OrderOf(snap) && JobMap(jobs) == JobsOf(snap)
  {
    hide OrderOf, JobsOf;
    LoadedIds(snap, jobs);
    JobsOfIndex(snap);
    var m, n := JobMap(jobs), JobsOf(snap);
    forall id | id in m && id in n ensures m[id] == n[id] {
      var k :| 0 <= k < |jobs| && Ids(jobs)[k] == id;
      assert jobs[k] in jobs;
    }
    SameMaps(m, n);
  }

  lemma LoadedIds(snap: Snapshot, jobs: seq<Job>)
    requires NoDup(OrderOf(snap)) && |jobs| == |snap|
    requires forall k | 0 <= k < |snap| :: jobs[k].Rec() == snap[k]
    ensures UniqueIds(jobs) && Ids(jobs) == OrderOf(snap)
    ensures forall k | 0 <= k < |snap| :: jobs[k].spec.id == snap[k].spec.id
  {
    hide OrderOf;
    OrderOfIndex(snap);
    forall k | 0 <= k < |snap| ensures jobs[k].spec.id == snap[k].spec.id {
      assert jobs[k].spec == jobs[k].Rec().spec;
    }
  }
}
