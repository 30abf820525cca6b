/** What the order of the passes in a tick means: deaths are seen, and spread, before anything is launched, and
    launching comes last. */
module Ticks {
  import opened Jobs
  import opened Admission
  import opened Runner
  import opened Scheduler
  import opened Runs
  import opened FixedPoint
  import opened Lifecycle
  import opened Maximal

  /** The state after the reaping pass of a tick. */
  ghost function Reaped(c: Ctx, e: TickEnv, a: Acc): Acc {
    Pass(c, e, Reaping, a, a.s.order)
  }

  lemma ReapTurnKeepsPending(c: Ctx, e: TickEnv, b: Acc, id: string)
    requires id in b.s.jobs
    ensures id in Turn(c, e, Reaping, b, id).s.jobs
    ensures var j, j' := b.s.jobs[id], Turn(c, e, Reaping, b, id).s.jobs[id];
            && (j.status != Running ==> j' == j)
            && (j.status == Running ==> j'.status == Running || j'.status == Done || j'.status == Failed)
  {
    hide ReturnCode, IsAlive;
  }

  /** Reaping leaves alone every job that does not run, and a running one runs on, is done or has failed. */
  lemma {:induction false} ReapingEnds(c: Ctx, e: TickEnv, a: Acc, ids: seq<string>)
    requires NoDup(ids)
    ensures var t := Pass(c, e, Reaping, a, ids).s;
            && t.jobs.Keys == a.s.jobs.Keys
            && forall id | id in a.s.jobs ::
                 if a.s.jobs[id].status != Running then t.jobs[id] == a.s.jobs[id]
                 else t.jobs[id].status == Running || t.jobs[id].status == Done || t.jobs[id].status == Failed
  {
    hide Turn;
    PassFrame(c, e, Reaping, a, ids);
    if ids != [] {
      var init, id := ids[..|ids| - 1], ids[|ids| - 1];
      assert ids == init + [id];
      ReapingEnds(c, e, a, init);
      PassFrame(c, e, Reaping, a, init);
      var b := Pass(c, e, Reaping, a, init);
      TurnFrame(c, e, Reaping, b, id);
      if id in a.s.jobs { ReapTurnKeepsPending(c, e, b, id); }
    }
  }

  lemma LaunchNeverSkips(c: Ctx, e: TickEnv, s: Sched, until: nat, id: string, j: JobRec, j': JobRec)
    requires LaunchedOrNot(c, e, s, until, id, j, j') && j.status == Pending
    ensures j'.status != Skipped
  {
  }

  /** By the end of a tick exactly those of its pending jobs are skipped that had, once the ended processes were
      reaped, a chain of pending jobs to a failed, skipped or unknown dependency: a start that fails later in the
      same tick does not count yet. */
  lemma TickSkipsExactly(c: Ctx, e: TickEnv, a: Acc)
    requires WellKeyed(a.s)
    ensures forall id | id in a.s.jobs && a.s.jobs[id].status == Pending ::
              id in Tick(c, e, a).s.jobs
              && (Tick(c, e, a).s.jobs[id].status == Skipped <==> Doomed(Reaped(c, e, a).s.jobs, id))
  {
    hide Pass, SkipRounds, LaunchedOrNot, HoldsNewChildren, Doomed, SkippedFor;
    var r := Reaped(c, e, a);
    var m := SkipRounds(c, e, r);
    ReapingEnds(c, e, a, a.s.order);
    PassFrame(c, e, Reaping, a, a.s.order);
    DeadDependentsExactly(c, e, r);
    SkipRoundsFrame(c, e, r);
    LaunchPassExactly(c, e, m);
    var t := LaunchPass(c, e, m).s;
    forall id | id in a.s.jobs && a.s.jobs[id].status == Pending
      ensures id in t.jobs && (t.jobs[id].status == Skipped <==> Doomed(r.s.jobs, id))
    {
      if Doomed(r.s.jobs, id) {
        SkippedForSkips(r.s.jobs, r.s.jobs[id], m.s.jobs[id]);
      } else {
        LaunchNeverSkips(c, e, m.s, t.clk, id, m.s.jobs[id], t.jobs[id]);
      }
    }
  }

  lemma SkippedForSkips(jobs: map<string, JobRec>, j: JobRec, now: JobRec)
    requires SkippedFor(jobs, j, now)
    ensures now.status == Skipped
  {
  }

  /** A failure spreads at once: what waits for a running job that is found failed is skipped in the same tick. */
  lemma FailureSpreadsAtOnce(c: Ctx, e: TickEnv, a: Acc, d: string, id: string)
    requires WellKeyed(a.s) && IsRunning(a.s.jobs, d) && id in a.s.jobs && a.s.jobs[id].status == Pending
    requires d in a.s.jobs[id].spec.dependsOn
    requires d in Tick(c, e, a).s.jobs && Tick(c, e, a).s.jobs[d].status == Failed
    ensures id in Tick(c, e, a).s.jobs && Tick(c, e, a).s.jobs[id].status == Skipped
  {
    hide Pass, SkipRounds, LaunchedOrNot, HoldsNewChildren, Doomed, SkippedFor;
    var r := Reaped(c, e, a);
    var m := SkipRounds(c, e, r);
    ReapingEnds(c, e, a, a.s.order);
    PassFrame(c, e, Reaping, a, a.s.order);
    DeadDependentsExactly(c, e, r);
    SkipRoundsFrame(c, e, r);
    LaunchPassExactly(c, e, m);
    assert r.s.jobs[d].status == Failed;
    ChainExtends(r.s.jobs, id, d);
    TickSkipsExactly(c, e, a);
  }

  /** Launching comes last: a tick leaves no pending job that could still be started, as long as no cooldown ends
      between its first clock reading and the last one of another launch pass. */
  lemma TickIsMaximal(c: Ctx, e: TickEnv, a: Acc)
    requires WellKeyed(a.s) && NonNegative(a.s.jobs)
    requires var t := Tick(c, e, a).s;
             forall k: nat | a.s.clk <= k < LaunchPass(c, e, Acc(t, false, [])).s.clk :: Cooling(c, t, k) == Cooling(c, t, a.s.clk)
    ensures forall id :: !Startable(c, e, Tick(c, e, a).s, id)
  {
    hide Pass, SkipRounds, Startable, LaunchOrder, Cooling;
    var r := Reaped(c, e, a);
    var m := SkipRounds(c, e, r);
    PassFrame(c, e, Reaping, a, a.s.order);
    SkipRoundsFrame(c, e, r);
    LaunchKeepsDeadline(c, e, m);
    var until := Again(c, e, m).s.clk;
    forall k: nat | m.s.clk <= k < until ensures Cooling(c, m.s, k) == Cooling(c, m.s, m.s.clk) {
      SameCooling(c, m.s, Tick(c, e, a).s, k);
      SameCooling(c, m.s, Tick(c, e, a).s, m.s.clk);
    }
    LaunchPassIsMaximal(c, e, m);
  }

  lemma SameCooling(c: Ctx, s: Sched, t: Sched, k: nat)
    requires s.cooldownUntil == t.cooldownUntil
    ensures Cooling(c, s, k) == Cooling(c, t, k)
  {
  }

  lemma {:induction false} PassKeepsDeadline(c: Ctx, e: TickEnv, a: Acc, ids: seq<string>)
    ensures Pass(c, e, Launching, a, ids).s.cooldownUntil == a.s.cooldownUntil
  {
    hide Block, DecisionAt, DepsSatisfied;
    if ids != [] { PassKeepsDeadline(c, e, a, ids[..|ids| - 1]); }
  }

  lemma LaunchKeepsDeadline(c: Ctx, e: TickEnv, a: Acc)
    ensures LaunchPass(c, e, a).s.cooldownUntil == a.s.cooldownUntil
  {
    hide Pass;
    PassKeepsDeadline(c, e, a, LaunchOrder(a.s));
  }
}
