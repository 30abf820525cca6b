/** Invariants of every state a scheduler can reach, between any two events of any run. */
module Safety {
  import opened CpuList
  import opened Numa
  import opened Jobs
  import opened Admission
  import opened Runner
  import opened Scheduler
  import opened Runs

  /** An event either starts the job it names or leaves it not running. */
  lemma OnlyLaunchRuns(c: Ctx, s: Sched, ev: Event)
    requires Enabled(c, s, ev)
    ensures forall id | IsRunning(Effect(c, s, ev).jobs, id) :: IsRunning(s.jobs, id) || (ev.On? && ev.id == id && ev.act.Launch?)
    ensures ev.On? ==> (IsRunning(Effect(c, s, ev).jobs, ev.id) <==> ev.act.Launch?)
  {
  }

  // ---- core exclusivity --------------------------------------------------------------

  /** The recorded cores of a running job: as many as it asked for, none reserved, all on its node. */
  ghost predicate WellPlaced(c: Ctx, j: JobRec) {
    && Parse(j.cpuList).Ok?
    && |CoresOf(j)| == (if j.spec.cores >= 1 then j.spec.cores else 0)
    && CoresOf(j) !! c.reserved
    && (j.spec.cores >= 1 ==> exists node :: node in c.nodes && node.id == j.numaNode && CoresOf(j) <= NodeCores(node))
  }

  ghost predicate Exclusive(c: Ctx, s: Sched) {
    && (forall id | IsRunning(s.jobs, id) :: WellPlaced(c, s.jobs[id]))
    && (forall a, b | IsRunning(s.jobs, a) && IsRunning(s.jobs, b) && a != b :: CoresOf(s.jobs[a]) !! CoresOf(s.jobs[b]))
  }

  lemma {:induction false} OccupiedHas(reserved: set<nat>, order: seq<string>, jobs: map<string, JobRec>)
    ensures reserved <= OccupiedBy(reserved, order, jobs)
    ensures forall id | id in order :: Held(jobs, id) <= OccupiedBy(reserved, order, jobs)
  {
    if order != [] {
      var init, last := order[..|order| - 1], order[|order| - 1];
      OccupiedHas(reserved, init, jobs);
      assert order == init + [last];
    }
  }

  /** The occupied cores are the reserved ones and those in the CPU lists of the running jobs. */
  lemma OccupiedExactly(c: Ctx, s: Sched, x: nat)
    requires WellKeyed(s)
    ensures x in OccupiedBy(c.reserved, s.order, s.jobs) <==>
            || x in c.reserved
            || exists id :: id in s.jobs && s.jobs[id].status == Running
                            && Parse(s.jobs[id].cpuList).Ok? && x in Parse(s.jobs[id].cpuList).value
  {
    OccupiedMeaning(c.reserved, s.order, s.jobs, x);
    assert forall id | id in s.order :: x in Held(s.jobs, id) <==>
      s.jobs[id].status == Running && Parse(s.jobs[id].cpuList).Ok? && x in Parse(s.jobs[id].cpuList).value;
  }

  lemma {:induction false} OccupiedMeaning(reserved: set<nat>, order: seq<string>, jobs: map<string, JobRec>, x: nat)
    ensures x in OccupiedBy(reserved, order, jobs) <==> x in reserved || exists id :: id in order && x in Held(jobs, id)
  {
    if order != [] {
      var init, last := order[..|order| - 1], order[|order| - 1];
      OccupiedMeaning(reserved, init, jobs, x);
      assert order == init + [last];
    }
  }

  lemma OccupiedWithin(reserved: set<nat>, s: Sched, t: Sched)
    requires WellKeyed(s) && WellKeyed(t)
    requires forall id | IsRunning(s.jobs, id) :: IsRunning(t.jobs, id) && t.jobs[id] == s.jobs[id]
    ensures OccupiedBy(reserved, s.order, s.jobs) <= OccupiedBy(reserved, t.order, t.jobs)
  {
    forall x | x in OccupiedBy(reserved, s.order, s.jobs) ensures x in OccupiedBy(reserved, t.order, t.jobs) {
      OccupiedMeaning(reserved, s.order, s.jobs, x);
      OccupiedMeaning(reserved, t.order, t.jobs, x);
      if x !in reserved {
        var id :| id in s.order && x in Held(s.jobs, id);
        assert id in t.order && Held(t.jobs, id) == Held(s.jobs, id);
      }
    }
  }

  lemma LaunchedIsPlaced(c: Ctx, s: Sched, id: string, act: Act)
    requires WellKeyed(s) && id in s.jobs && CanAct(c, s, s.jobs[id], act) && act.Launch?
    ensures WellPlaced(c, NewRec(c, s.clk, s.jobs[id], act))
    ensures CoresOf(NewRec(c, s.clk, s.jobs[id], act)) !! OccupiedBy(c.reserved, s.order, s.jobs)
  {
    var j := s.jobs[id];
    var m := Machine(OccupiedBy(c.reserved, s.order, s.jobs), c.secondary, Unread);
    PlacementSound(RequestOf(c.cfg, j.spec), m, c.nodes);
    OccupiedHas(c.reserved, s.order, s.jobs);
    assert NewRec(c, s.clk, j, act).cpuList == act.block.cpuList;
  }

  lemma FewerExclusive(c: Ctx, s: Sched, t: Sched)
    requires Exclusive(c, s) && forall id | IsRunning(t.jobs, id) :: IsRunning(s.jobs, id) && t.jobs[id] == s.jobs[id]
    ensures Exclusive(c, t)
  {
    hide WellPlaced, CoresOf;
  }

  lemma OneMoreExclusive(c: Ctx, s: Sched, t: Sched, id: string)
    requires Exclusive(c, s) && IsRunning(t.jobs, id) && WellPlaced(c, t.jobs[id])
    requires forall x | IsRunning(t.jobs, x) && x != id :: IsRunning(s.jobs, x) && t.jobs[x] == s.jobs[x]
    requires forall x | IsRunning(s.jobs, x) :: CoresOf(s.jobs[x]) !! CoresOf(t.jobs[id])
    ensures Exclusive(c, t)
  {
    hide WellPlaced, CoresOf;
  }

  lemma StepKeepsExclusive(c: Ctx, s: Sched, ev: Event)
    requires WellKeyed(s) && Enabled(c, s, ev) && Exclusive(c, s)
    ensures Exclusive(c, Effect(c, s, ev))
  {
    hide WellPlaced, CoresOf, OccupiedBy, NewRec, CanAct, Exclusive;
    OnlyLaunchRuns(c, s, ev);
    EffectFrame(c, s, ev);
    if ev.On? && ev.act.Launch? {
      LaunchedIsPlaced(c, s, ev.id, ev.act);
      OccupiedHas(c.reserved, s.order, s.jobs);
      forall x | IsRunning(s.jobs, x) ensures CoresOf(s.jobs[x]) <= OccupiedBy(c.reserved, s.order, s.jobs) {
        assert CoresOf(s.jobs[x]) == Held(s.jobs, x);
      }
      OneMoreExclusive(c, s, Effect(c, s, ev), ev.id);
    } else {
      FewerExclusive(c, s, Effect(c, s, ev));
    }
  }

  /** Core exclusivity: in every state of every run, the cores recorded for running jobs, read back from
      their CPU-list strings, are pairwise disjoint, not reserved, on the recorded node, and exactly as
      many as requested. */
  lemma {:induction false} CoreExclusivity(c: Ctx, s: Sched, log: seq<Event>)
    requires WellKeyed(s) && Exclusive(c, s) && ValidRun(c, s, log)
    ensures WellKeyed(Exec(c, s, log)) && Exclusive(c, Exec(c, s, log))
  {
    if log != [] {
      var init := log[..|log| - 1];
      CoreExclusivity(c, s, init);
      EffectFrame(c, Exec(c, s, init), log[|log| - 1]);
      StepKeepsExclusive(c, Exec(c, s, init), log[|log| - 1]);
    }
  }

  // ---- admission ---------------------------------------------------------------------

  /** The limits on the running jobs themselves: how many they are, that an exclusive one runs alone, and the
      cores and, without a memory slice, the memory they ask for together. */
  ghost predicate RunsWithinLimits(cfg: Config, jobs: map<string, JobRec>) {
    var running := RunningSet(jobs);
    && (running != {} ==> |running| <= cfg.maxConcurrent)
    && (forall a, b | a in running && b in running && a != b :: !jobs[a].spec.exclusive)
    && CoreDemand(jobs, running) <= cfg.coreBudget
    && (cfg.memorySlice == "" ==> RamDemand(jobs, running) <= cfg.ramBudgetGb)
  }

  ghost predicate Budgeted(c: Ctx, s: Sched) {
    NonNegative(s.jobs) && RunsWithinLimits(c.cfg, s.jobs)
  }

  lemma RunningAreListed(s: Sched)
    requires WellKeyed(s)
    ensures RunningIds(s.order, s.jobs) == RunningSet(s.jobs)
  {
  }

  lemma OnlyMember(ids: set<string>, id: string)
    requires id in ids
    ensures |ids| == 1 <==> forall x | x in ids :: x == id
  {
    if forall x | x in ids :: x == id { assert ids == {id}; }
    if |ids| == 1 {
      SubsetSize({id}, ids);
    }
  }

  /** An exclusive job among the running ones is alone. */
  lemma ExclusiveIsAlone(jobs: map<string, JobRec>, ids: set<string>)
    requires ids <= jobs.Keys
    ensures (SomeExclusive(jobs, ids) ==> |ids| == 1) <==>
            forall a, b | a in ids && b in ids && a != b :: !jobs[a].spec.exclusive
  {
    forall a | a in ids && jobs[a].spec.exclusive ensures |ids| == 1 <==> forall x | x in ids :: x == a {
      OnlyMember(ids, a);
    }
  }

  /** The sums say the same as the running jobs themselves. */
  lemma BudgetMeaning(cfg: Config, s: Sched)
    requires WellKeyed(s)
    ensures WithinBudget(cfg, Total(s.order, s.jobs)) <==> RunsWithinLimits(cfg, s.jobs)
  {
    hide Total, RunningIds;
    TotalDescribes(s.order, s.jobs);
    RunningAreListed(s);
    ExclusiveIsAlone(s.jobs, RunningSet(s.jobs));
  }

  /** A launch is admissible: not paused, not cooling down, the cap, the core budget and the memory leave room
      beside the running jobs, and no exclusive job would run beside another. */
  ghost predicate Admissible(c: Ctx, s: Sched, r: Readings, spec: JobSpec) {
    var running := RunningSet(s.jobs);
    && !(c.cfg.pauseFile != "" && r.paused) && s.cooldownUntil <= c.clock(s.clk)
    && |running| < c.cfg.maxConcurrent
    && !SomeExclusive(s.jobs, running) && (spec.exclusive ==> running == {})
    && CoreDemand(s.jobs, running) + spec.cores <= c.cfg.coreBudget
    && RamRoomBeside(c.cfg, r, s.jobs, running, spec)
  }

  /** Admission control admits exactly the admissible. */
  lemma AdmissionOverJobs(c: Ctx, s: Sched, r: Readings, spec: JobSpec)
    requires WellKeyed(s)
    ensures DecisionAt(c, s, r, spec).Go? <==> Admissible(c, s, r, spec)
  {
    hide Total, RunningIds, RamRoomBeside, Decide, Describes;
    TotalDescribes(s.order, s.jobs);
    RunningAreListed(s);
    AdmittedBeside(c.cfg, s.cooldownUntil, c.clock(s.clk), r, Total(s.order, s.jobs), s.jobs, RunningSet(s.jobs), spec);
  }

  lemma LighterWithinBudget(cfg: Config, light: Load, heavy: Load)
    requires WithinBudget(cfg, heavy) && LighterOrEqual(light, heavy) && light.exclusive <= light.count
    ensures WithinBudget(cfg, light)
  {
  }

  lemma StopRunning(s: Sched, id: string, j: JobRec)
    requires WellKeyed(s) && NonNegative(s.jobs) && id in s.jobs && j.status != Running && j.spec == s.jobs[id].spec
    ensures LighterOrEqual(Total(s.order, s.jobs[id := j]), Total(s.order, s.jobs))
  {
    TotalUpdate(s.order, s.jobs, id, j);
    TotalBounds(s.order, s.jobs[id := j]);
  }

  lemma LaunchKeepsBudget(c: Ctx, s: Sched, id: string, r: Readings, j: JobRec)
    requires WellKeyed(s) && NonNegative(s.jobs) && WithinBudget(c.cfg, Total(s.order, s.jobs)) && id in s.jobs && s.jobs[id].status != Running
    requires j.spec == s.jobs[id].spec && j.status == Running && DecisionAt(c, s, r, j.spec).Go?
    ensures WithinBudget(c.cfg, Total(s.order, s.jobs[id := j]))
  {
    hide Decide, Total, WithinBudget;
    TotalBounds(s.order, s.jobs);
    AdmittedStaysWithinBudget(c.cfg, s.cooldownUntil, c.clock(s.clk), r, Total(s.order, s.jobs), j.spec);
    TotalUpdate(s.order, s.jobs, id, j);
    PlusNothing(Total(s.order, s.jobs[id := j]));
  }

  lemma StopKeepsBudget(c: Ctx, s: Sched, id: string, j: JobRec)
    requires WellKeyed(s) && NonNegative(s.jobs) && WithinBudget(c.cfg, Total(s.order, s.jobs))
    requires id in s.jobs && j.status != Running && j.spec == s.jobs[id].spec
    ensures WithinBudget(c.cfg, Total(s.order, s.jobs[id := j]))
  {
    hide Total, WithinBudget;
    StopRunning(s, id, j);
    TotalBounds(s.order, s.jobs[id := j]);
    LighterWithinBudget(c.cfg, Total(s.order, s.jobs[id := j]), Total(s.order, s.jobs));
  }

  lemma StepKeepsBudget(c: Ctx, s: Sched, ev: Event)
    requires WellKeyed(s) && Enabled(c, s, ev) && Budgeted(c, s)
    ensures Budgeted(c, Effect(c, s, ev))
  {
    hide Total, WithinBudget, DecisionAt, Block, RunsWithinLimits;
    EffectFrame(c, s, ev);
    BudgetMeaning(c.cfg, s);
    BudgetMeaning(c.cfg, Effect(c, s, ev));
    if ev.On? {
      var j := NewRec(c, s.clk, s.jobs[ev.id], ev.act);
      assert Effect(c, s, ev).jobs == s.jobs[ev.id := j];
      if ev.act.Launch? {
        LaunchKeepsBudget(c, s, ev.id, ev.act.r, j);
      } else {
        StopKeepsBudget(c, s, ev.id, j);
      }
    }
  }

  /** Admission safety: in every state of every run the running jobs respect the concurrency cap, the core
      budget, the exclusive mutex and, with no memory slice, the declared RAM budget. */
  lemma {:induction false} AdmissionSafety(c: Ctx, s: Sched, log: seq<Event>)
    requires WellKeyed(s) && Budgeted(c, s) && ValidRun(c, s, log)
    ensures WellKeyed(Exec(c, s, log)) && Budgeted(c, Exec(c, s, log))
  {
    if log != [] {
      var init := log[..|log| - 1];
      AdmissionSafety(c, s, init);
      EffectFrame(c, Exec(c, s, init), log[|log| - 1]);
      StepKeepsBudget(c, Exec(c, s, init), log[|log| - 1]);
    }
  }

  // ---- dependency causality --------------------------------------------------------------

  predicate WasStarted(j: JobRec) {
    j.status == Running || j.status == Done || j.status == Failed
  }

  /** Whatever has been started had all its dependencies done. */
  ghost predicate Causal(jobs: map<string, JobRec>) {
    forall id | id in jobs && WasStarted(jobs[id]) ::
      forall d | d in jobs[id].spec.dependsOn :: d in jobs && jobs[d].status == Done
  }

  /** A chain of skipped jobs, each depending on the next, that ends at a failed job or an unknown id. */
  ghost predicate Grounds(jobs: map<string, JobRec>, path: seq<string>) {
    && |path| >= 2
    && (forall k | 0 <= k < |path| - 1 :: path[k] in jobs && jobs[path[k]].status == Skipped)
    && (forall k | 0 <= k < |path| - 1 :: path[k + 1] in jobs[path[k]].spec.dependsOn)
    && var last := path[|path| - 1]; last in jobs ==> jobs[last].status == Failed
  }

  ghost predicate Grounded(jobs: map<string, JobRec>) {
    forall id | id in jobs && jobs[id].status == Skipped :: exists path :: Grounds(jobs, path) && path[0] == id
  }

  /** Terminal jobs are never touched again. */
  lemma TerminalStays(c: Ctx, s: Sched, ev: Event)
    requires Enabled(c, s, ev)
    ensures forall id | id in s.jobs && s.jobs[id].IsTerminal() :: Effect(c, s, ev).jobs[id] == s.jobs[id]
  {
  }

  lemma StepKeepsCausal(c: Ctx, s: Sched, ev: Event)
    requires Enabled(c, s, ev) && Causal(s.jobs)
    ensures Causal(Effect(c, s, ev).jobs)
  {
    EffectFrame(c, s, ev);
    TerminalStays(c, s, ev);
    var t := Effect(c, s, ev);
    forall id | id in t.jobs && WasStarted(t.jobs[id]) ensures DepsSatisfied(t.jobs, t.jobs[id].spec.dependsOn) {
      assert DepsSatisfied(s.jobs, s.jobs[id].spec.dependsOn);
      forall d | d in t.jobs[id].spec.dependsOn ensures IsDone(t.jobs, d) {
        assert IsDone(s.jobs, d);
      }
    }
  }

  lemma GroundsPersist(jobs: map<string, JobRec>, after: map<string, JobRec>, path: seq<string>)
    requires Grounds(jobs, path) && after.Keys == jobs.Keys
    requires forall id | id in jobs && jobs[id].IsTerminal() :: after[id] == jobs[id]
    ensures Grounds(after, path)
  {
  }

  lemma GroundsExtend(jobs: map<string, JobRec>, id: string, d: string, path: seq<string>)
    requires id in jobs && jobs[id].status == Skipped && d in jobs[id].spec.dependsOn
    requires Grounds(jobs, path) && path[0] == d
    ensures Grounds(jobs, [id] + path)
  {
    var p := [id] + path;
    forall k | 0 <= k < |p| - 1
      ensures p[k] in jobs && jobs[p[k]].status == Skipped && p[k + 1] in jobs[p[k]].spec.dependsOn
    {
      if k > 0 { assert p[k] == path[k - 1] && p[k + 1] == path[k]; }
    }
  }

  lemma NewlySkipped(c: Ctx, s: Sched, ev: Event, id: string)
    requires Enabled(c, s, ev) && id in s.jobs && s.jobs[id].status != Skipped && Effect(c, s, ev).jobs[id].status == Skipped
    ensures exists d :: d in s.jobs[id].spec.dependsOn && IsDead(s.jobs, d)
  {
    BlockerMeaning(s.jobs, s.jobs[id].spec.dependsOn);
  }

  lemma StepKeepsGrounded(c: Ctx, s: Sched, ev: Event)
    requires Enabled(c, s, ev) && Grounded(s.jobs)
    ensures Grounded(Effect(c, s, ev).jobs)
  {
    hide Effect, Enabled;
    EffectFrame(c, s, ev);
    TerminalStays(c, s, ev);
    var t := Effect(c, s, ev);
    forall id | id in t.jobs && t.jobs[id].status == Skipped ensures exists path :: Grounds(t.jobs, path) && path[0] == id {
      if s.jobs[id].status == Skipped {
        var path :| Grounds(s.jobs, path) && path[0] == id;
        GroundsPersist(s.jobs, t.jobs, path);
      } else {
        NewlySkipped(c, s, ev, id);
        var d :| d in s.jobs[id].spec.dependsOn && IsDead(s.jobs, d);
        if d in s.jobs && s.jobs[d].status == Skipped {
          var path :| Grounds(s.jobs, path) && path[0] == d;
          GroundsPersist(s.jobs, t.jobs, path);
          GroundsExtend(t.jobs, id, d, path);
          assert ([id] + path)[0] == id;
        } else {
          assert Grounds(t.jobs, [id, d]);
        }
      }
    }
  }

  /** Dependency causality: in every state of every run, a running, done or failed job has all its
      dependencies done, every skipped job has a chain down to a failed or unknown dependency, and no
      terminal record has changed since the start of the run. */
  lemma {:induction false} Causality(c: Ctx, s: Sched, log: seq<Event>)
    requires Causal(s.jobs) && Grounded(s.jobs) && ValidRun(c, s, log)
    ensures Causal(Exec(c, s, log).jobs) && Grounded(Exec(c, s, log).jobs)
    ensures Exec(c, s, log).jobs.Keys == s.jobs.Keys
    ensures forall id | id in s.jobs && s.jobs[id].IsTerminal() :: Exec(c, s, log).jobs[id] == s.jobs[id]
    ensures forall id | id in s.jobs :: Exec(c, s, log).jobs[id].spec == s.jobs[id].spec
  {
    if log != [] {
      var init, ev := log[..|log| - 1], log[|log| - 1];
      Causality(c, s, init);
      var t := Exec(c, s, init);
      EffectFrame(c, t, ev);
      TerminalStays(c, t, ev);
      StepKeepsCausal(c, t, ev);
      StepKeepsGrounded(c, t, ev);
    }
  }

  // ---- at most one start ---------------------------------------------------------------------

  /** Jobs keep their specs, are pending only if they always were, and dormant exactly if they always were. */
  ghost predicate Descends(before: map<string, JobRec>, now: map<string, JobRec>) {
    && now.Keys == before.Keys
    && forall id | id in now ::
         && now[id].spec == before[id].spec
         && (now[id].status == Pending ==> before[id].status == Pending)
         && (now[id].status == Dormant <==> before[id].status == Dormant)
  }

  lemma EventDescends(c: Ctx, s: Sched, ev: Event)
    requires Enabled(c, s, ev)
    ensures Descends(s.jobs, Effect(c, s, ev).jobs)
  {
    EffectFrame(c, s, ev);
  }

  lemma {:induction false} RunDescends(c: Ctx, s: Sched, log: seq<Event>)
    requires ValidRun(c, s, log)
    ensures Descends(s.jobs, Exec(c, s, log).jobs)
  {
    hide Effect, Enabled;
    if log != [] {
      RunDescends(c, s, log[..|log| - 1]);
      EventDescends(c, Exec(c, s, log[..|log| - 1]), log[|log| - 1]);
    }
  }

  lemma {:induction false} DescendsBetween(c: Ctx, s: Sched, log: seq<Event>, i: nat, j: nat)
    requires ValidRun(c, s, log) && i <= j <= |log|
    ensures Descends(At(c, s, log, i).jobs, At(c, s, log, j).jobs)
  {
    hide At, Effect, Enabled, ValidRun;
    if i < j {
      DescendsBetween(c, s, log, i, j - 1);
      AtNext(c, s, log, j - 1);
      EventDescends(c, At(c, s, log, j - 1), log[j - 1]);
    }
  }

  predicate Attempts(ev: Event) {
    ev.On? && (ev.act.Launch? || ev.act.FailLaunch?)
  }

  lemma AttemptsPending(c: Ctx, s: Sched, ev: Event)
    requires Enabled(c, s, ev) && Attempts(ev)
    ensures ev.id in s.jobs && s.jobs[ev.id].status == Pending
    ensures ev.id in Effect(c, s, ev).jobs && Effect(c, s, ev).jobs[ev.id].status != Pending
  {
  }

  /** No job is started twice in one run. */
  lemma AtMostOneStart(c: Ctx, s: Sched, log: seq<Event>, i: nat, j: nat)
    requires ValidRun(c, s, log) && i < j < |log| && Attempts(log[i]) && Attempts(log[j])
    ensures log[i].id != log[j].id
  {
    hide At, Effect, Enabled, ValidRun, Attempts;
    AtNext(c, s, log, i);
    AtNext(c, s, log, j);
    AttemptsPending(c, At(c, s, log, i), log[i]);
    AttemptsPending(c, At(c, s, log, j), log[j]);
    DescendsBetween(c, s, log, i + 1, j);
  }

  // ---- where runs start ---------------------------------------------------------------------

  /** The invariants together. */
  ghost predicate Sound(c: Ctx, s: Sched) {
    WellKeyed(s) && Exclusive(c, s) && Budgeted(c, s) && Causal(s.jobs) && Grounded(s.jobs)
  }

  ghost predicate Fresh(s: Sched) {
    forall id | id in s.jobs :: s.jobs[id].status == Pending || s.jobs[id].status == Dormant
  }

  /** A queue whose jobs are all pending or dormant satisfies every invariant. */
  lemma FreshIsSound(c: Ctx, s: Sched)
    requires WellKeyed(s) && Fresh(s) && NonNegative(s.jobs)
    requires c.cfg.coreBudget >= 0 && c.cfg.ramBudgetGb >= 0.0
    ensures Sound(c, s)
  {
    FreshIsIdle(s);
    FreshIsCausal(s);
    IdleMeansNothing(s.order, s.jobs);
    BudgetMeaning(c.cfg, s);
  }

  lemma FreshIsIdle(s: Sched)
    requires Fresh(s)
    ensures forall id :: !IsRunning(s.jobs, id)
  {
  }

  lemma FreshIsCausal(s: Sched)
    requires Fresh(s)
    ensures Causal(s.jobs) && Grounded(s.jobs)
  {
  }

  lemma SoundRun(c: Ctx, s: Sched, log: seq<Event>)
    requires Sound(c, s) && ValidRun(c, s, log)
    ensures Sound(c, Exec(c, s, log))
  {
    CoreExclusivity(c, s, log);
    AdmissionSafety(c, s, log);
    Causality(c, s, log);
  }

  /** The main loop: after startup and any number of ticks, and at every event on the way there, all
      invariants hold. */
  lemma LoopIsSound(c: Ctx, world: nat -> TickEnv, s: Sched, n: nat, k: nat)
    requires Sound(c, s) && k <= |Loop(c, world, Acc(s, false, []), n).log|
    ensures Sound(c, Exec(c, s, Loop(c, world, Acc(s, false, []), n).log[..k]))
    ensures Loop(c, world, Acc(s, false, []), n).s == Exec(c, s, Loop(c, world, Acc(s, false, []), n).log)
  {
    LoopTraces(c, world, s, Acc(s, false, []), n);
    var log := Loop(c, world, Acc(s, false, []), n).log;
    RunPrefix(c, s, log, k);
    SoundRun(c, s, log[..k]);
  }
}
