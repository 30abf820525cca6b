/** The greedy launch pass is maximal: it leaves behind no job that could still be started. */
module Maximal {
  import opened Numa
  import opened Jobs
  import opened Admission
  import opened Runner
  import opened Scheduler
  import opened Runs
  import opened FixedPoint

  /** All three gates are open for the job. */
  ghost predicate Startable(c: Ctx, e: TickEnv, s: Sched, id: string) {
    && id in s.jobs && s.jobs[id].status == Pending
    && (forall d | d in s.jobs[id].spec.dependsOn :: d in s.jobs && s.jobs[d].status == Done)
    && DecisionAt(c, s, e.readings(id), s.jobs[id].spec).Go?
    && Block(c, s, s.jobs[id].spec).Some?
  }

  predicate Cooling(c: Ctx, s: Sched, k: nat) {
    s.cooldownUntil - c.clock(k) > 0.0
  }

  /** The readings before number `until` do not carry the scheduler into or out of its cooldown. */
  ghost predicate Steady(c: Ctx, s: Sched, until: nat) {
    forall k: nat | s.clk <= k < until :: Cooling(c, s, k) == Cooling(c, s, s.clk)
  }

  /** `t` is `s` with more jobs running. */
  ghost predicate Grows(c: Ctx, s: Sched, t: Sched) {
    && t.order == s.order && t.jobs.Keys == s.jobs.Keys
    && t.cooldownUntil == s.cooldownUntil && s.clk <= t.clk
    && (forall id | id in s.jobs :: t.jobs[id].spec == s.jobs[id].spec)
    && (forall d | IsDone(t.jobs, d) :: IsDone(s.jobs, d))
    && LighterOrEqual(Total(s.order, s.jobs), Total(t.order, t.jobs))
    && OccupiedBy(c.reserved, s.order, s.jobs) <= OccupiedBy(c.reserved, t.order, t.jobs)
  }

  lemma GrowsTransitive(c: Ctx, s: Sched, t: Sched, u: Sched)
    requires Grows(c, s, t) && Grows(c, t, u)
    ensures Grows(c, s, u)
  {
  }

  lemma GrowsByClock(c: Ctx, s: Sched, t: Sched)
    requires SameButClock(s, t)
    ensures Grows(c, s, t)
  {
    TotalBounds(s.order, s.jobs);
  }

  lemma {:induction false} HeldGrows(reserved: set<nat>, order: seq<string>, jobs: map<string, JobRec>, after: map<string, JobRec>)
    requires forall id | id in order :: Held(jobs, id) <= Held(after, id)
    ensures OccupiedBy(reserved, order, jobs) <= OccupiedBy(reserved, order, after)
  {
    if order != [] {
      var init := order[..|order| - 1];
      assert order[|order| - 1] in order;
      HeldGrows(reserved, init, jobs, after);
    }
  }

  lemma LaunchGrows(c: Ctx, s: Sched, id: string, act: Act)
    requires WellKeyed(s) && NonNegative(s.jobs) && id in s.jobs && s.jobs[id].status == Pending
    requires act.Launch? || act.FailLaunch?
    ensures Grows(c, s, AfterAct(c, s, id, act))
  {
    var j' := NewRec(c, s.clk, s.jobs[id], act);
    LoadGrows(s, id, j');
    HeldGrows(c.reserved, s.order, s.jobs, s.jobs[id := j']);
    EffectFrame(c, s, On(id, act));
  }

  lemma LoadGrows(s: Sched, id: string, j: JobRec)
    requires WellKeyed(s) && NonNegative(s.jobs) && id in s.jobs && s.jobs[id].status != Running && j.spec == s.jobs[id].spec
    ensures LighterOrEqual(Total(s.order, s.jobs), Total(s.order, s.jobs[id := j]))
  {
    TotalUpdate(s.order, s.jobs, id, j);
    TotalBounds(s.order, s.jobs);
  }

  lemma LaunchTurn(c: Ctx, e: TickEnv, a: Acc, id: string)
    requires WellKeyed(a.s) && NonNegative(a.s.jobs) && id in a.s.jobs && a.s.jobs[id].status == Pending
    ensures var t := Turn(c, e, Launching, a, id);
            Grows(c, a.s, t.s) && (Startable(c, e, a.s, id) ==> t.s.jobs[id].status != Pending && t.changed)
            && (!Startable(c, e, a.s, id) ==> t.changed == a.changed)
  {
    hide Grows, Decide, Total, Allocation, OccupiedBy;
    match EventFor(c, e, Launching, a.s, id)
    case None => GrowsByClock(c, a.s, a.s);
    case Some(On(_, act)) => LaunchGrows(c, a.s, id, act);
    case Some(ev) => GrowsByClock(c, a.s, Effect(c, a.s, ev));
  }

  lemma DecisionBySteadyClock(c: Ctx, s: Sched, t: Sched, r: Readings, spec: JobSpec, until: nat)
    requires Steady(c, s, until) && t.clk < until && Grows(c, s, t) && DecisionAt(c, s, r, spec).Wait?
    ensures DecisionAt(c, t, r, spec).Wait?
  {
    assert Cooling(c, s, t.clk) == Cooling(c, s, s.clk);
    RefusalGrowsWithLoad(c.cfg, s.cooldownUntil, c.clock(t.clk), r, Total(s.order, s.jobs), Total(t.order, t.jobs), spec);
  }

  /** A job that cannot start beside fewer running jobs cannot start beside more. */
  lemma StaysUnstartable(c: Ctx, e: TickEnv, s: Sched, t: Sched, id: string, until: nat)
    requires Steady(c, s, until) && t.clk < until && Grows(c, s, t) && id in s.jobs && !Startable(c, e, s, id)
    requires s.jobs[id].status == Pending || t.jobs[id].status != Pending
    ensures !Startable(c, e, t, id)
  {
    var spec := s.jobs[id].spec;
    if Startable(c, e, t, id) {
      if DecisionAt(c, s, e.readings(id), spec).Wait? {
        DecisionBySteadyClock(c, s, t, e.readings(id), spec, until);
      } else {
        assert forall d | d in spec.dependsOn :: IsDone(s.jobs, d);
        RefusalIsMonotone(
          RequestOf(c.cfg, spec),
          Machine(OccupiedBy(c.reserved, s.order, s.jobs), c.secondary, Unread),
          Machine(OccupiedBy(c.reserved, t.order, t.jobs), c.secondary, Unread),
          c.nodes);
      }
    }
  }

  lemma SteadyLater(c: Ctx, s: Sched, t: Sched, until: nat)
    requires Steady(c, s, until) && t.cooldownUntil == s.cooldownUntil && s.clk <= t.clk
    ensures Steady(c, t, until)
  {
    assert t.clk < until ==> Cooling(c, s, t.clk) == Cooling(c, s, s.clk);
    forall k: nat | t.clk <= k < until ensures Cooling(c, t, k) == Cooling(c, t, t.clk) {
      assert Cooling(c, s, k) == Cooling(c, s, s.clk);
    }
  }

  lemma {:induction false} PassLeavesNothing(c: Ctx, e: TickEnv, a: Acc, ids: seq<string>, until: nat)
    requires WellKeyed(a.s) && NonNegative(a.s.jobs) && AllPending(a.s.jobs, ids)
    requires Steady(c, a.s, until) && Pass(c, e, Launching, a, ids).s.clk < until
    requires forall id | id in ids :: id in a.s.jobs
    ensures var t := Pass(c, e, Launching, a, ids); Grows(c, a.s, t.s) && forall id | id in ids :: !Startable(c, e, t.s, id)
  {
    hide Startable, Turn, Grows, Steady;
    if ids == [] {
      GrowsByClock(c, a.s, a.s);
    } else {
      var init, id := ids[..|ids| - 1], ids[|ids| - 1];
      assert ids == init + [id];
      var before := Pass(c, e, Launching, a, init);
      TurnFrame(c, e, Launching, before, id);
      PassLeavesNothing(c, e, a, init, until);
      PassFrame(c, e, Launching, a, init);
      LastTurn(c, e, a, before, init, id, until);
    }
  }

  lemma LastTurn(c: Ctx, e: TickEnv, a: Acc, before: Acc, init: seq<string>, id: string, until: nat)
    requires WellKeyed(before.s) && NonNegative(before.s.jobs) && Grows(c, a.s, before.s)
    requires Steady(c, a.s, until) && Turn(c, e, Launching, before, id).s.clk < until
    requires id in before.s.jobs && before.s.jobs[id].status == Pending
    requires forall x | x in init :: x in before.s.jobs && x != id && !Startable(c, e, before.s, x)
    ensures var t := Turn(c, e, Launching, before, id);
            Grows(c, a.s, t.s) && !Startable(c, e, t.s, id) && forall x | x in init :: !Startable(c, e, t.s, x)
  {
    var t := Turn(c, e, Launching, before, id);
    SteadyLater(c, a.s, before.s, until);
    LaunchTurn(c, e, before, id);
    TurnFrame(c, e, Launching, before, id);
    GrowsTransitive(c, a.s, before.s, t.s);
    forall x | x in init ensures !Startable(c, e, t.s, x) {
      StaysUnstartable(c, e, before.s, t.s, x, until);
    }
    if !Startable(c, e, before.s, id) {
      StaysUnstartable(c, e, before.s, t.s, id, until);
    }
  }

  /** A launch turn that does not even read the clock found a job that cannot be started. */
  lemma UnreadIsUnstartable(c: Ctx, e: TickEnv, s: Sched, id: string)
    requires id in s.jobs && EventFor(c, e, Launching, s, id).None?
    ensures !Startable(c, e, s, id)
  {
  }

  lemma {:induction false} NothingToDo(c: Ctx, e: TickEnv, a: Acc, ids: seq<string>, until: nat)
    requires WellKeyed(a.s) && NonNegative(a.s.jobs) && AllPending(a.s.jobs, ids) && !a.changed
    requires Steady(c, a.s, until) && Pass(c, e, Launching, a, ids).s.clk <= until
    requires forall id | id in ids :: id in a.s.jobs && !Startable(c, e, a.s, id)
    ensures !Pass(c, e, Launching, a, ids).changed
  {
    hide Startable, Turn, Steady, Grows;
    if ids != [] {
      var init, id := ids[..|ids| - 1], ids[|ids| - 1];
      assert ids == init + [id];
      var before := Pass(c, e, Launching, a, init);
      TurnFrame(c, e, Launching, before, id);
      NothingToDo(c, e, a, init, until);
      QuietPass(c, e, Launching, a, init);
      if Turn(c, e, Launching, before, id).s.clk == before.s.clk {
        NoReadingNoTurn(c, e, Launching, before, id);
      } else {
        GrowsByClock(c, a.s, before.s);
        StaysUnstartable(c, e, a.s, before.s, id, until);
        LaunchTurn(c, e, before, id);
      }
    }
  }

  lemma StartableIsPending(c: Ctx, e: TickEnv, s: Sched, id: string)
    ensures Startable(c, e, s, id) ==> id in PendingIds(s.jobs)
  {
  }

  /** A second launch pass, under the same readings as the first. */
  ghost function Again(c: Ctx, e: TickEnv, a: Acc): Acc {
    LaunchPass(c, e, Acc(LaunchPass(c, e, a).s, false, []))
  }

  lemma FirstPass(c: Ctx, e: TickEnv, a: Acc, until: nat)
    requires WellKeyed(a.s) && NonNegative(a.s.jobs) && Steady(c, a.s, until) && LaunchPass(c, e, a).s.clk < until
    ensures var t := LaunchPass(c, e, a).s;
            WellKeyed(t) && NonNegative(t.jobs) && Steady(c, t, until) && forall id :: !Startable(c, e, t, id)
  {
    hide LaunchOrder, Startable, Pass, Steady, Total, OccupiedBy;
    var ids := LaunchOrder(a.s);
    var t := LaunchPass(c, e, a).s;
    LaunchOrderFacts(a.s);
    PassFrame(c, e, Launching, a, ids);
    PassLeavesNothing(c, e, a, ids, until);
    SteadyLater(c, a.s, t, until);
    assert forall id | id in PendingIds(t.jobs) :: id in ids || t.jobs[id] == a.s.jobs[id];
    forall id ensures !Startable(c, e, t, id) {
      StartableIsPending(c, e, t, id);
    }
  }

  lemma UnreadPass(c: Ctx, e: TickEnv, t: Sched)
    requires WellKeyed(t) && LaunchPass(c, e, Acc(t, false, [])).s.clk == t.clk
    ensures forall id :: !Startable(c, e, t, id)
    ensures LaunchPass(c, e, Acc(t, false, [])) == Acc(t, false, [])
  {
    hide LaunchOrder, Startable, Pass;
    LaunchOrderFacts(t);
    NoReadingNoPass(c, e, Launching, Acc(t, false, []), LaunchOrder(t));
    forall id ensures !Startable(c, e, t, id) {
      StartableIsPending(c, e, t, id);
      if id in LaunchOrder(t) { UnreadIsUnstartable(c, e, t, id); }
    }
  }

  /** After one launch pass no pending job has its dependencies done, is admissible and has a free block,
      so a second pass under the same readings changes nothing.  The clock readings the two passes take are
      on the same side of the cooldown's end. */
  lemma LaunchPassIsMaximal(c: Ctx, e: TickEnv, a: Acc)
    requires WellKeyed(a.s) && NonNegative(a.s.jobs) && Steady(c, a.s, Again(c, e, a).s.clk)
    ensures var t := LaunchPass(c, e, a).s;
            && (forall id :: !Startable(c, e, t, id))
            && !Again(c, e, a).changed
            && SameButClock(t, Again(c, e, a).s)
  {
    hide LaunchOrder, Startable, Pass, Steady, NonNegative;
    var t := LaunchPass(c, e, a).s;
    var next, until := LaunchOrder(t), Again(c, e, a).s.clk;
    PassFrame(c, e, Launching, a, LaunchOrder(a.s));
    LaunchOrderFacts(t);
    PassFrame(c, e, Launching, Acc(t, false, []), next);
    if until == t.clk {
      UnreadPass(c, e, t);
    } else {
      FirstPass(c, e, a, until);
      NothingToDo(c, e, Acc(t, false, []), next, until);
    }
    QuietPass(c, e, Launching, Acc(t, false, []), next);
  }
}
