/** The OOM cooldown over a whole run of one process. */
module CooldownRuns {
  import opened Wrappers
  import opened Jobs
  import opened Admission
  import opened Runner
  import opened Scheduler
  import opened Runs
  import opened Safety
  import opened HandleTable

  ghost predicate Monotone(clock: nat -> real) {
    forall i: nat, j: nat | i <= j :: clock(i) <= clock(j)
  }

  /** The clock reading with which event `k` starts. */
  ghost function TimeOf(c: Ctx, s: Sched, log: seq<Event>, k: nat): real
    requires k <= |log|
  {
    c.clock(At(c, s, log, k).clk)
  }

  lemma StepDeadline(c: Ctx, s: Sched, ev: Event, bound: real)
    requires Monotone(c.clock)
    requires s.cooldownUntil >= bound && c.clock(s.clk) + c.cfg.oomCooldownSeconds >= bound
    ensures var t := Effect(c, s, ev); t.cooldownUntil >= bound && c.clock(t.clk) + c.cfg.oomCooldownSeconds >= bound
  {
    EffectFrame(c, s, ev);
  }

  /** The event reaps a job that the kernel has killed for lack of memory. */
  ghost predicate ReapsKill(ev: Event) {
    ev.On? && ev.act.Reap? && ev.act.outcome.reason == OomKilled
  }

  lemma ArmsDeadline(c: Ctx, s: Sched, ev: Event)
    requires Monotone(c.clock) && Enabled(c, s, ev) && ReapsKill(ev)
    ensures Effect(c, s, ev).cooldownUntil >= c.clock(s.clk) + c.cfg.oomCooldownSeconds
  {
    assert c.clock(s.clk) <= c.clock(s.clk + 1);
  }

  /** Once armed by event `i`, the deadline never falls below the time of that event plus the cooldown. */
  lemma {:induction false} DeadlineHolds(c: Ctx, s: Sched, log: seq<Event>, i: nat, k: nat)
    requires Monotone(c.clock) && ValidRun(c, s, log) && i < k <= |log| && ReapsKill(log[i])
    ensures At(c, s, log, k).cooldownUntil >= TimeOf(c, s, log, i) + c.cfg.oomCooldownSeconds
    ensures TimeOf(c, s, log, k) >= TimeOf(c, s, log, i)
  {
    hide At, Effect, Enabled, ValidRun;
    AtNext(c, s, log, k - 1);
    var t := At(c, s, log, k - 1);
    EffectFrame(c, t, log[k - 1]);
    if k == i + 1 {
      ArmsDeadline(c, t, log[i]);
    } else {
      DeadlineHolds(c, s, log, i, k - 1);
      StepDeadline(c, t, log[k - 1], TimeOf(c, s, log, i) + c.cfg.oomCooldownSeconds);
    }
  }

  /** The times an enabled event writes into the job it concerns. */
  lemma StampedTimes(c: Ctx, s: Sched, ev: Event)
    requires Monotone(c.clock) && Enabled(c, s, ev) && ev.On?
    ensures ev.id in s.jobs && ev.id in Effect(c, s, ev).jobs
    ensures ev.act.Reap? ==> Effect(c, s, ev).jobs[ev.id].endTime == c.clock(s.clk)
    ensures ev.act.Launch? ==> Effect(c, s, ev).jobs[ev.id].startTime >= c.clock(s.clk)
    ensures Attempts(ev) ==> c.clock(s.clk) >= s.cooldownUntil
  {
    assert c.clock(s.clk) <= c.clock(s.clk + 1);
  }

  /** The record shows that the kernel killed the job for lack of memory. */
  ghost predicate ShowsKill(jobs: map<string, JobRec>, id: string) {
    id in jobs && jobs[id].status == Failed && jobs[id].reason == OomKilled
  }

  /** A start of the job was attempted: it was pending, and now it runs or its start has failed. */
  ghost predicate WasAttempted(jobs: map<string, JobRec>, after: map<string, JobRec>, id: string) {
    && id in jobs && jobs[id].status == Pending && id in after
    && (after[id].status == Running || (after[id].status == Failed && after[id].reason.LaunchError?))
  }

  /** What the event was, seen from the records. */
  lemma SeenInRecords(c: Ctx, s: Sched, ev: Event, id: string)
    requires Monotone(c.clock) && Enabled(c, s, ev)
    ensures var t := Effect(c, s, ev);
            && (IsRunning(s.jobs, id) && ShowsKill(t.jobs, id) ==>
                  ev.On? && ev.id == id && ReapsKill(ev) && t.jobs[id].endTime == c.clock(s.clk))
            && (WasAttempted(s.jobs, t.jobs, id) ==>
                  && ev.On? && ev.id == id && Attempts(ev) && c.clock(s.clk) >= s.cooldownUntil
                  && (t.jobs[id].status == Running ==> t.jobs[id].startTime >= c.clock(s.clk)))
  {
    hide Block, Blocker;
    EffectFrame(c, s, ev);
    if ev.On? {
      StampedTimes(c, s, ev);
      BlockerMeaning(s.jobs, s.jobs[ev.id].spec.dependsOn);
    }
  }

  /** If step `i` of a run turns the record of a running job into an out-of-memory failure with end time `t`,
      every later attempt to start a job comes no earlier than `t` plus the cooldown: also in the same tick. */
  lemma NoStartWhileCooling(c: Ctx, s: Sched, log: seq<Event>, i: nat, killed: string, j: nat, id: string)
    requires Monotone(c.clock) && ValidRun(c, s, log) && i < j < |log|
    requires IsRunning(At(c, s, log, i).jobs, killed) && ShowsKill(At(c, s, log, i + 1).jobs, killed)
    requires WasAttempted(At(c, s, log, j).jobs, At(c, s, log, j + 1).jobs, id)
    ensures var t, started := At(c, s, log, i + 1).jobs[killed].endTime, At(c, s, log, j + 1).jobs[id];
            && TimeOf(c, s, log, j) >= t + c.cfg.oomCooldownSeconds
            && (started.status == Running ==> started.startTime >= t + c.cfg.oomCooldownSeconds)
  {
    hide At, Effect, Enabled, ValidRun;
    AtNext(c, s, log, i);
    AtNext(c, s, log, j);
    SeenInRecords(c, At(c, s, log, i), log[i], killed);
    SeenInRecords(c, At(c, s, log, j), log[j], id);
    DeadlineHolds(c, s, log, i, j);
  }

  /** No out-of-memory kill is reaped. */
  ghost predicate NoKill(log: seq<Event>) {
    forall ev | ev in log :: !ReapsKill(ev)
  }

  /** Only an out-of-memory kill arms the cooldown. */
  lemma {:induction false} NoKillNoCooldown(c: Ctx, s: Sched, log: seq<Event>)
    requires NoKill(log)
    ensures Exec(c, s, log).cooldownUntil == s.cooldownUntil && s.clk <= Exec(c, s, log).clk
  {
    if log != [] {
      var init, ev := log[..|log| - 1], log[|log| - 1];
      assert ev in log && forall x | x in init :: x in log;
      NoKillNoCooldown(c, s, init);
      EffectFrame(c, Exec(c, s, init), ev);
    }
  }

  /** As long as no running job's record turns into an out-of-memory failure, the deadline stays. */
  lemma DeadlineStays(c: Ctx, s: Sched, log: seq<Event>)
    requires ValidRun(c, s, log) && Monotone(c.clock)
    requires forall k, id | 0 <= k < |log| && IsRunning(At(c, s, log, k).jobs, id) :: !ShowsKill(At(c, s, log, k + 1).jobs, id)
    ensures Exec(c, s, log).cooldownUntil == s.cooldownUntil
  {
    hide At, Effect, Enabled, ValidRun, ShowsKill;
    forall k | 0 <= k < |log| ensures !ReapsKill(log[k]) {
      AtNext(c, s, log, k);
      if ReapsKill(log[k]) { KillShows(c, At(c, s, log, k), log[k]); }
    }
    NoKillNoCooldown(c, s, log);
  }

  lemma KillShows(c: Ctx, s: Sched, ev: Event)
    requires Enabled(c, s, ev) && ReapsKill(ev)
    ensures IsRunning(s.jobs, ev.id) && ShowsKill(Effect(c, s, ev).jobs, ev.id)
  {
  }

  // ---- one reaping pass -------------------------------------------------------------------

  /** Every kill the records show is covered by the deadline. */
  ghost predicate Covered(c: Ctx, t: Sched, killed: string) {
    killed in t.jobs
    && t.cooldownUntil >= t.jobs[killed].endTime + c.cfg.oomCooldownSeconds && c.clock(t.clk) >= t.jobs[killed].endTime
  }

  lemma ReapTurnCovers(c: Ctx, e: TickEnv, b: Acc, id: string, killed: string)
    requires Monotone(c.clock) && killed in b.s.jobs
    requires id == killed ==> IsRunning(b.s.jobs, id)
    requires id != killed ==> Covered(c, b.s, killed)
    ensures var t := Turn(c, e, Reaping, b, id).s;
            && killed in t.jobs && ((id == killed && !ShowsKill(t.jobs, killed)) || Covered(c, t, killed))
  {
    hide Classify, ReturnCode, IsAlive;
    assert c.clock(b.s.clk) <= c.clock(b.s.clk + 1) <= c.clock(b.s.clk + 2);
  }

  lemma {:induction false} ReapPassCovers(c: Ctx, e: TickEnv, a: Acc, ids: seq<string>, killed: string)
    requires Monotone(c.clock) && NoDup(ids) && killed in ids && IsRunning(a.s.jobs, killed)
    ensures var t := Pass(c, e, Reaping, a, ids).s;
            killed in t.jobs && (ShowsKill(t.jobs, killed) ==> Covered(c, t, killed))
  {
    hide Turn, Covered, ShowsKill;
    var init, id := ids[..|ids| - 1], ids[|ids| - 1];
    var b := Pass(c, e, Reaping, a, init);
    assert ids == init + [id];
    PassFrame(c, e, Reaping, a, init);
    if id == killed {
      ReapTurnCovers(c, e, b, id, killed);
    } else {
      ReapPassCovers(c, e, a, init, killed);
      TurnFrame(c, e, Reaping, b, id);
      if ShowsKill(b.s.jobs, killed) {
        ReapTurnCovers(c, e, b, id, killed);
      } else {
        SameKill(b.s.jobs, Turn(c, e, Reaping, b, id).s.jobs, killed);
      }
    }
  }

  lemma SameKill(jobs: map<string, JobRec>, after: map<string, JobRec>, id: string)
    requires id in jobs && id in after && after[id] == jobs[id]
    ensures ShowsKill(jobs, id) == ShowsKill(after, id)
  {
  }

  /** A child that died of SIGKILL, or exited with 137, while the kernel log reports a kill: the reaping pass
      records it as killed for lack of memory and leaves a deadline of at least its end time plus the cooldown. */
  lemma KilledChildArms(c: Ctx, e: TickEnv, a: Acc, id: string)
    requires WellKeyed(a.s) && Matches(a.s) && Monotone(c.clock) && IsRunning(a.s.jobs, id) && a.s.jobs[id].session.Pid?
    requires e.poll(a.s.jobs[id].session.pid) == Some(-9) || e.poll(a.s.jobs[id].session.pid) == Some(137)
    requires e.oomHint(id)
    ensures var t := Pass(c, e, Reaping, a, a.s.order).s;
            && ShowsKill(t.jobs, id) && t.jobs[id].exitCode == Some(137)
            && t.cooldownUntil >= t.jobs[id].endTime + c.cfg.oomCooldownSeconds
  {
    hide Pass, Matches;
    ReapPassExactly(c, e, a);
    KnownExit(e.poll(a.s.jobs[id].session.pid).value, true);
    ReapPassCovers(c, e, a, a.s.order, id);
  }

  /** Likewise for a job without a known exit code. */
  lemma KilledSessionArms(c: Ctx, e: TickEnv, a: Acc, id: string)
    requires WellKeyed(a.s) && Monotone(c.clock) && IsRunning(a.s.jobs, id) && Unheld(a.s, id)
    requires SessionOver(e, a.s.procs, a.s.jobs[id].session) && e.oomHint(id)
    ensures var t := Pass(c, e, Reaping, a, a.s.order).s;
            ShowsKill(t.jobs, id) && t.cooldownUntil >= t.jobs[id].endTime + c.cfg.oomCooldownSeconds
  {
    hide Pass;
    ReapPassUnheld(c, e, a);
    ReapPassCovers(c, e, a, a.s.order, id);
  }

  /** The deadline is never further away than one cooldown. */
  ghost predicate DeadlineInReach(c: Ctx, s: Sched) {
    s.cooldownUntil <= c.clock(s.clk) + c.cfg.oomCooldownSeconds
  }

  lemma StepDeadlineLater(c: Ctx, s: Sched, ev: Event)
    requires Monotone(c.clock) && DeadlineInReach(c, s)
    ensures DeadlineInReach(c, Effect(c, s, ev)) && s.cooldownUntil <= Effect(c, s, ev).cooldownUntil
  {
    assert c.clock(s.clk) <= c.clock(s.clk + 1) <= c.clock(s.clk + 2);
  }

  /** With a clock that does not run backwards the deadline only ever moves later. */
  lemma {:induction false} DeadlineOnlyMovesLater(c: Ctx, s: Sched, log: seq<Event>)
    requires Monotone(c.clock) && DeadlineInReach(c, s)
    ensures DeadlineInReach(c, Exec(c, s, log))
    ensures s.cooldownUntil <= Exec(c, s, log).cooldownUntil
  {
    hide Effect, DeadlineInReach;
    if log != [] {
      DeadlineOnlyMovesLater(c, s, log[..|log| - 1]);
      StepDeadlineLater(c, Exec(c, s, log[..|log| - 1]), log[|log| - 1]);
    }
  }
}
