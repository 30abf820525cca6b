/** `_mark_dead_dependents` computes a least fixed point: it skips exactly the jobs that can never run. */
module FixedPoint {
  import opened Wrappers
  import opened Jobs
  import opened Runner
  import opened Scheduler
  import opened Runs

  ghost predicate Acts(ev: Option<Event>) {
    ev.Some? && ev.value.On?
  }

  /** Two states that differ at most in the clock. */
  ghost predicate SameButClock(s: Sched, t: Sched) {
    t == s.(clk := t.clk) && s.clk <= t.clk
  }

  /** When it comes to `id`, at some clock reading from now on, the pass does nothing to it. */
  ghost predicate LeavesAlone(c: Ctx, e: TickEnv, ph: Phase, s: Sched, id: string)
    requires id in s.jobs
  {
    exists k: nat :: s.clk <= k && !Acts(EventFor(c, e, ph, s.(clk := k), id))
  }

  /** A pass that reports no change has changed nothing but the clock, and found nothing to do for any of
      the jobs it visited. */
  lemma {:induction false} QuietPass(c: Ctx, e: TickEnv, ph: Phase, a: Acc, ids: seq<string>)
    requires !Pass(c, e, ph, a, ids).changed
    ensures !a.changed && SameButClock(a.s, Pass(c, e, ph, a, ids).s)
    ensures forall id | id in ids && id in a.s.jobs :: LeavesAlone(c, e, ph, a.s, id)
  {
    if ids != [] {
      var init, id := ids[..|ids| - 1], ids[|ids| - 1];
      var before := Pass(c, e, ph, a, init);
      TurnFrame(c, e, ph, before, id);
      QuietPass(c, e, ph, a, init);
      assert ids == init + [id];
      QuietTurn(c, e, ph, a, before, id);
    }
  }

  lemma QuietTurn(c: Ctx, e: TickEnv, ph: Phase, a: Acc, before: Acc, id: string)
    requires SameButClock(a.s, before.s) && !Turn(c, e, ph, before, id).changed
    ensures SameButClock(a.s, Turn(c, e, ph, before, id).s)
    ensures id in a.s.jobs ==> LeavesAlone(c, e, ph, a.s, id)
  {
    if id in a.s.jobs {
      assert before.s == a.s.(clk := before.s.clk);
      var ev := EventFor(c, e, ph, before.s, id);
      assert !Acts(ev);
      EventKinds(c, e, ph, before.s, id);
    }
  }

  /** The pass does nothing to `id`, whatever the clock reading from now on. */
  ghost predicate NeverActs(c: Ctx, e: TickEnv, ph: Phase, s: Sched, id: string)
    requires id in s.jobs
  {
    forall k: nat | s.clk <= k :: !Acts(EventFor(c, e, ph, s.(clk := k), id))
  }

  /** Conversely, a pass that finds nothing to do for any of its jobs reports no change. */
  lemma {:induction false} NothingToAct(c: Ctx, e: TickEnv, ph: Phase, a: Acc, ids: seq<string>)
    requires !a.changed && forall id | id in ids && id in a.s.jobs :: NeverActs(c, e, ph, a.s, id)
    ensures !Pass(c, e, ph, a, ids).changed
  {
    if ids != [] {
      var init, id := ids[..|ids| - 1], ids[|ids| - 1];
      var before := Pass(c, e, ph, a, init);
      assert ids == init + [id];
      NothingToAct(c, e, ph, a, init);
      QuietPass(c, e, ph, a, init);
      if id in a.s.jobs {
        assert NeverActs(c, e, ph, a.s, id);
        assert before.s == a.s.(clk := before.s.clk);
      }
    }
  }

  /** A turn that takes no clock reading found nothing to do. */
  lemma NoReadingNoTurn(c: Ctx, e: TickEnv, ph: Phase, a: Acc, id: string)
    requires Turn(c, e, ph, a, id).s.clk == a.s.clk
    ensures Turn(c, e, ph, a, id) == a && (id in a.s.jobs ==> EventFor(c, e, ph, a.s, id).None?)
  {
    if id in a.s.jobs { EventKinds(c, e, ph, a.s, id); }
  }

  lemma {:induction false} NoReadingNoPass(c: Ctx, e: TickEnv, ph: Phase, a: Acc, ids: seq<string>)
    requires Pass(c, e, ph, a, ids).s.clk == a.s.clk
    ensures Pass(c, e, ph, a, ids) == a
    ensures forall id | id in ids && id in a.s.jobs :: EventFor(c, e, ph, a.s, id).None?
  {
    hide EventFor;
    if ids != [] {
      var init, id := ids[..|ids| - 1], ids[|ids| - 1];
      assert ids == init + [id];
      PassFrame(c, e, ph, a, init);
      TurnFrame(c, e, ph, Pass(c, e, ph, a, init), id);
      NoReadingNoPass(c, e, ph, a, init);
      NoReadingNoTurn(c, e, ph, a, id);
    }
  }

  // ---- dead chains --------------------------------------------------------------------

  /** A chain of pending jobs, each depending on the next, down to a failed, skipped or unknown one. */
  ghost predicate DeadChain(jobs: map<string, JobRec>, path: seq<string>) {
    && |path| >= 2
    && (forall k | 0 <= k < |path| - 1 :: path[k] in jobs && jobs[path[k]].status == Pending)
    && (forall k | 0 <= k < |path| - 1 :: path[k + 1] in jobs[path[k]].spec.dependsOn)
    && IsDead(jobs, path[|path| - 1])
  }

  ghost predicate Doomed(jobs: map<string, JobRec>, id: string) {
    exists path :: DeadChain(jobs, path) && path[0] == id
  }

  lemma ChainExtends(jobs: map<string, JobRec>, id: string, d: string)
    requires id in jobs && jobs[id].status == Pending && d in jobs[id].spec.dependsOn
    requires IsDead(jobs, d) || Doomed(jobs, d)
    ensures Doomed(jobs, id)
  {
    if IsDead(jobs, d) {
      assert DeadChain(jobs, [id, d]);
      assert [id, d][0] == id;
    } else {
      var path :| DeadChain(jobs, path) && path[0] == d;
      var p := [id] + path;
      forall k | 0 <= k < |p| - 1
        ensures p[k] in jobs && jobs[p[k]].status == Pending && p[k + 1] in jobs[p[k]].spec.dependsOn
      {
        if k > 0 { assert p[k] == path[k - 1] && p[k + 1] == path[k]; }
      }
      assert DeadChain(jobs, p) && p[0] == id;
    }
  }

  /** The reason is that dependency `d` of the job is unknown, or has failed or can never be done. */
  ghost predicate Blames(jobs: map<string, JobRec>, j: JobRec, why: Reason, d: string) {
    && d in j.spec.dependsOn
    && why == (if d in jobs then DependencyFailed(d) else DependencyUnknown(d))
    && (IsDead(jobs, d) || Doomed(jobs, d))
  }

  /** The job has been skipped: status, reason and end time are set, with a reason that names a true blocker. */
  ghost predicate SkippedFor(jobs: map<string, JobRec>, j: JobRec, now: JobRec) {
    && now == j.(status := Skipped, reason := now.reason, endTime := now.endTime)
    && exists d :: Blames(jobs, j, now.reason, d)
  }

  /** Only doomed jobs have been changed so far, and those are skipped now. */
  ghost predicate OnlyDoomedSkipped(before: map<string, JobRec>, now: map<string, JobRec>) {
    && now.Keys == before.Keys
    && forall id | id in now :: now[id] == before[id]
                                || (before[id].status == Pending && Doomed(before, id) && SkippedFor(before, before[id], now[id]))
  }

  ghost predicate Settled(jobs: map<string, JobRec>) {
    forall id | id in jobs && jobs[id].status == Pending :: forall d | d in jobs[id].spec.dependsOn :: !IsDead(jobs, d)
  }

  lemma SkippedIsDoomed(before: map<string, JobRec>, now: map<string, JobRec>, id: string)
    requires OnlyDoomedSkipped(before, now) && id in now && now[id].status == Pending
    requires Blocker(now, now[id].spec.dependsOn).Some?
    ensures before[id].status == Pending && Doomed(before, id) && now[id] == before[id]
    ensures exists d :: Blames(before, before[id], Blocker(now, now[id].spec.dependsOn).value, d)
  {
    BlockerMeaning(now, now[id].spec.dependsOn);
    var why := Blocker(now, now[id].spec.dependsOn).value;
    var d :| d in now[id].spec.dependsOn && IsDead(now, d) && why == if d in now then DependencyFailed(d) else DependencyUnknown(d);
    assert now[id] == before[id];
    assert IsDead(before, d) || Doomed(before, d);
    assert Blames(before, before[id], why, d);
    ChainExtends(before, id, d);
  }

  lemma {:induction false} RoundKeepsSound(c: Ctx, e: TickEnv, before: map<string, JobRec>, a: Acc, ids: seq<string>)
    requires OnlyDoomedSkipped(before, a.s.jobs)
    ensures OnlyDoomedSkipped(before, Pass(c, e, Skipping, a, ids).s.jobs)
  {
    if ids != [] {
      var init, id := ids[..|ids| - 1], ids[|ids| - 1];
      RoundKeepsSound(c, e, before, a, init);
      var s := Pass(c, e, Skipping, a, init).s;
      if id in s.jobs && EventFor(c, e, Skipping, s, id).Some? {
        SkippedIsDoomed(before, s.jobs, id);
        hide Doomed, Blames, Blocker;
        var now := Pass(c, e, Skipping, a, ids).s.jobs;
        assert now == s.jobs[id := now[id]];
        assert SkippedFor(before, before[id], now[id]);
      }
    }
  }

  lemma QuietRoundSettles(c: Ctx, e: TickEnv, a: Acc)
    requires WellKeyed(a.s) && !Pass(c, e, Skipping, a, a.s.order).changed
    ensures Settled(a.s.jobs) && SameButClock(a.s, Pass(c, e, Skipping, a, a.s.order).s)
  {
    QuietPass(c, e, Skipping, a, a.s.order);
    forall id | id in a.s.jobs && a.s.jobs[id].status == Pending
      ensures forall d | d in a.s.jobs[id].spec.dependsOn :: !IsDead(a.s.jobs, d)
    {
      assert LeavesAlone(c, e, Skipping, a.s, id);
      BlockerMeaning(a.s.jobs, a.s.jobs[id].spec.dependsOn);
    }
  }

  lemma {:induction false} RoundsSettle(c: Ctx, e: TickEnv, before: map<string, JobRec>, a: Acc)
    requires WellKeyed(a.s) && OnlyDoomedSkipped(before, a.s.jobs)
    ensures OnlyDoomedSkipped(before, SkipRounds(c, e, a).s.jobs) && Settled(SkipRounds(c, e, a).s.jobs)
    decreases |PendingIds(a.s.jobs)|
  {
    var b := a.(changed := false);
    var round := Pass(c, e, Skipping, b, a.s.order);
    RoundKeepsSound(c, e, before, b, a.s.order);
    if round.changed {
      SkipRoundShrinks(c, e, b, a.s.order);
      PassFrame(c, e, Skipping, b, a.s.order);
      RoundsSettle(c, e, before, round);
    } else {
      QuietRoundSettles(c, e, b);
    }
  }

  lemma {:induction false} DoomedAreSkipped(before: map<string, JobRec>, now: map<string, JobRec>, path: seq<string>)
    requires OnlyDoomedSkipped(before, now) && Settled(now) && DeadChain(before, path)
    ensures now[path[0]].status == Skipped
  {
    var id, d := path[0], path[1];
    if |path| > 2 {
      var rest := path[1..];
      assert DeadChain(before, rest);
      DoomedAreSkipped(before, now, rest);
    }
    assert IsDead(now, d);
    assert d in before[id].spec.dependsOn;
  }

  /** Marking skips exactly the doomed pending jobs, each for a reason that names a true blocker, and leaves
      every other record untouched: whatever the list order, cycles or not. */
  lemma DeadDependentsExactly(c: Ctx, e: TickEnv, a: Acc)
    requires WellKeyed(a.s)
    ensures var before, now := a.s.jobs, SkipRounds(c, e, a).s.jobs;
            && now.Keys == before.Keys
            && forall id | id in before ::
                 if before[id].status == Pending && Doomed(before, id) then SkippedFor(before, before[id], now[id])
                 else now[id] == before[id]
  {
    var before, now := a.s.jobs, SkipRounds(c, e, a).s.jobs;
    RoundsSettle(c, e, before, a);
    forall id | id in before && before[id].status == Pending && Doomed(before, id) ensures SkippedFor(before, before[id], now[id]) {
      var path :| DeadChain(before, path) && path[0] == id;
      DoomedAreSkipped(before, now, path);
    }
  }
}
