/** The handle table over whole runs: no handle leaks, and every reap knows the exit code. */
module HandleTable {
  import opened Wrappers
  import opened Jobs
  import opened Admission
  import opened Runner
  import opened Scheduler
  import opened Runs

  /** The table maps exactly the pids of the running jobs, each to its job. */
  ghost predicate Matches(s: Sched) {
    && (forall id | IsRunning(s.jobs, id) ::
          s.jobs[id].session.Pid? && s.jobs[id].session.pid in s.procs && s.procs[s.jobs[id].session.pid] == id)
    && (forall pid | pid in s.procs ::
          IsRunning(s.jobs, s.procs[pid]) && s.jobs[s.procs[pid]].session == Pid(pid))
  }

  /** Only this process starts jobs: a child gets a pid that no unreaped child holds, and no job is buried. */
  ghost predicate OwnChild(s: Sched, ev: Event) {
    ev.On? ==> !ev.act.Bury? && (ev.act.Launch? ==> ev.act.session.Pid? && ev.act.session.pid !in s.procs)
  }

  lemma MatchAdded(s: Sched, id: string, j: JobRec)
    requires Matches(s) && id in s.jobs && s.jobs[id].status != Running
    requires j.status == Running && j.session.Pid? && j.session.pid !in s.procs
    ensures Matches(s.(jobs := s.jobs[id := j], procs := s.procs[j.session.pid := id]))
  {
  }

  lemma MatchRemoved(s: Sched, id: string, j: JobRec)
    requires Matches(s) && IsRunning(s.jobs, id) && j.status != Running
    ensures Matches(s.(jobs := s.jobs[id := j], procs := Forgotten(s.procs, s.jobs[id].session)))
  {
  }

  lemma StepKeepsMatch(c: Ctx, s: Sched, ev: Event)
    requires WellKeyed(s) && Enabled(c, s, ev) && OwnChild(s, ev) && Matches(s)
    ensures Matches(Effect(c, s, ev))
  {
    if ev.On? {
      match ev.act
      case Launch(_, _, session) => MatchAdded(s, ev.id, NewRec(c, s.clk, s.jobs[ev.id], ev.act));
      case Reap(_) => MatchRemoved(s, ev.id, NewRec(c, s.clk, s.jobs[ev.id], ev.act));
      case Kill => MatchRemoved(s, ev.id, NewRec(c, s.clk, s.jobs[ev.id], ev.act));
      case _ =>
    }
  }

  /** In a run with no inherited jobs and fresh pids, the handles held are those of the running jobs. */
  lemma {:induction false} HandlesAreRunningJobs(c: Ctx, s: Sched, log: seq<Event>, k: nat)
    requires WellKeyed(s) && Matches(s) && ValidRun(c, s, log) && k <= |log|
    requires forall i | 0 <= i < |log| :: OwnChild(At(c, s, log, i), log[i])
    ensures Matches(At(c, s, log, k)) && WellKeyed(At(c, s, log, k))
  {
    if k > 0 {
      HandlesAreRunningJobs(c, s, log, k - 1);
      AtNext(c, s, log, k - 1);
      EffectFrame(c, At(c, s, log, k - 1), log[k - 1]);
      StepKeepsMatch(c, At(c, s, log, k - 1), log[k - 1]);
    } else {
      assert log[..0] == [];
    }
  }

  /** A reap then classifies the child's own exit status, never an unknown one. */
  lemma ReapKnowsExitCode(c: Ctx, e: TickEnv, s: Sched, id: string)
    requires Matches(s) && id in s.jobs && EventFor(c, e, Reaping, s, id).Some?
    ensures s.jobs[id].session.Pid?
    ensures var rc := e.poll(s.jobs[id].session.pid);
            rc.Some? && EventFor(c, e, Reaping, s, id) == Some(On(id, Reap(Classify(Some(Normalised(rc.value)), e.oomHint(id)))))
  {
    assert IsRunning(s.jobs, id);
  }

  /** How a reaped job's record ends up. */
  ghost predicate Ended(e: TickEnv, before: JobRec, after: JobRec) {
    && before.session.Pid? && e.poll(before.session.pid).Some?
    && var o := Classify(Some(Normalised(e.poll(before.session.pid).value)), e.oomHint(before.spec.id));
       after == before.(status := o.status, reason := o.reason, exitCode := o.exitCode, endTime := after.endTime)
  }

  /** The child of a running job has exited. */
  ghost predicate Gone(e: TickEnv, s: Sched, id: string) {
    IsRunning(s.jobs, id) && s.jobs[id].session.Pid? && e.poll(s.jobs[id].session.pid).Some?
  }

  /** Handles of jobs not yet visited are still held. */
  ghost predicate KeepsOthers(s: Sched, t: Sched, ids: seq<string>) {
    forall pid | pid in s.procs && s.procs[pid] !in ids :: pid in t.procs && t.procs[pid] == s.procs[pid]
  }

  lemma ReapTurnExactly(c: Ctx, e: TickEnv, s: Sched, b: Acc, done: seq<string>, id: string)
    requires WellKeyed(s) && Matches(s) && KeepsOthers(s, b.s, done)
    requires id in s.jobs && id in b.s.jobs && id !in done && b.s.jobs[id] == s.jobs[id]
    ensures var t := Turn(c, e, Reaping, b, id);
            && id in t.s.jobs && KeepsOthers(s, t.s, done + [id])
            && if Gone(e, s, id) then Ended(e, s.jobs[id], t.s.jobs[id]) else t.s.jobs[id] == s.jobs[id]
  {
    hide Classify;
    if IsRunning(s.jobs, id) {
      var pid := s.jobs[id].session.pid;
      assert s.procs[pid] == id && pid in b.s.procs;
    }
  }

  lemma {:induction false} ReapPassOver(c: Ctx, e: TickEnv, a: Acc, ids: seq<string>)
    requires WellKeyed(a.s) && Matches(a.s) && NoDup(ids) && forall id | id in ids :: id in a.s.jobs
    ensures var t := Pass(c, e, Reaping, a, ids);
            && KeepsOthers(a.s, t.s, ids)
            && forall id | id in ids ::
                 id in t.s.jobs && if Gone(e, a.s, id) then Ended(e, a.s.jobs[id], t.s.jobs[id]) else t.s.jobs[id] == a.s.jobs[id]
  {
    hide Turn, Matches, Ended, Gone, KeepsOthers;
    if ids == [] {
      NothingVisited(a.s);
    } else {
      var init, id := ids[..|ids| - 1], ids[|ids| - 1];
      assert ids == init + [id];
      ReapPassOver(c, e, a, init);
      PassFrame(c, e, Reaping, a, init);
      var b := Pass(c, e, Reaping, a, init);
      ReapTurnExactly(c, e, a.s, b, init, id);
      TurnFrame(c, e, Reaping, b, id);
    }
  }

  lemma NothingVisited(s: Sched)
    ensures KeepsOthers(s, s, [])
  {
  }

  /** A reaping pass ends exactly the running jobs whose child has exited, each according to its own exit
      status, and leaves every other record alone. */
  lemma ReapPassExactly(c: Ctx, e: TickEnv, a: Acc)
    requires WellKeyed(a.s) && Matches(a.s)
    ensures forall id | id in a.s.jobs ::
              var t := Pass(c, e, Reaping, a, a.s.order).s;
              id in t.jobs && if Gone(e, a.s, id) then Ended(e, a.s.jobs[id], t.jobs[id]) else t.jobs[id] == a.s.jobs[id]
  {
    hide Turn, Matches, Ended, Gone, KeepsOthers;
    ReapPassOver(c, e, a, a.s.order);
  }

  /** No handle is held for the job's session. */
  ghost predicate Unheld(s: Sched, id: string) {
    id in s.jobs && (s.jobs[id].session.Pid? ==> s.jobs[id].session.pid !in s.procs)
  }

  /** The job has ended with an unknown exit code: failed if the kernel log reports a kill, done otherwise. */
  ghost predicate EndedUnknown(e: TickEnv, before: JobRec, after: JobRec) {
    var killed := e.oomHint(before.spec.id);
    after == before.(
      status := if killed then Failed else Done, reason := if killed then OomKilled else NoReason,
      exitCode := None, endTime := after.endTime)
  }

  /** How the reaping pass leaves a running job for whose session no handle is held. */
  ghost predicate UnheldReaped(e: TickEnv, s: Sched, id: string, after: JobRec)
    requires id in s.jobs
  {
    if SessionOver(e, s.procs, s.jobs[id].session) then EndedUnknown(e, s.jobs[id], after) else after == s.jobs[id]
  }

  lemma ReapTurnUnheld(c: Ctx, e: TickEnv, s: Sched, b: Acc, id: string)
    requires WellKeyed(s) && IsRunning(s.jobs, id) && Unheld(s, id) && b.s.procs.Keys <= s.procs.Keys
    requires id in b.s.jobs && b.s.jobs[id] == s.jobs[id]
    ensures id in Turn(c, e, Reaping, b, id).s.jobs && UnheldReaped(e, s, id, Turn(c, e, Reaping, b, id).s.jobs[id])
  {
    hide Classify;
    AliveUnlessOver(e, b.s.procs, s.jobs[id].session);
    UnknownExit(e.oomHint(id));
  }

  lemma ReapTurnShrinks(c: Ctx, e: TickEnv, b: Acc, id: string)
    ensures Turn(c, e, Reaping, b, id).s.procs.Keys <= b.s.procs.Keys
  {
    hide Classify, ReturnCode, IsAlive;
  }

  lemma {:induction false} ReapPassOverUnheld(c: Ctx, e: TickEnv, a: Acc, ids: seq<string>)
    requires WellKeyed(a.s) && NoDup(ids)
    ensures var t := Pass(c, e, Reaping, a, ids).s;
            && t.procs.Keys <= a.s.procs.Keys
            && forall id | id in ids && IsRunning(a.s.jobs, id) && Unheld(a.s, id) ::
                 id in t.jobs && UnheldReaped(e, a.s, id, t.jobs[id])
  {
    hide Turn, UnheldReaped, Unheld;
    if ids != [] {
      var init, id := ids[..|ids| - 1], ids[|ids| - 1];
      assert ids == init + [id];
      ReapPassOverUnheld(c, e, a, init);
      PassFrame(c, e, Reaping, a, init);
      var b := Pass(c, e, Reaping, a, init);
      ReapTurnShrinks(c, e, b, id);
      TurnFrame(c, e, Reaping, b, id);
      if IsRunning(a.s.jobs, id) && Unheld(a.s, id) { ReapTurnUnheld(c, e, a.s, b, id); }
    }
  }

  /** A reaping pass ends a running job with a tmux session, or with a process this scheduler did not start,
      exactly if that is gone: as done, unless the kernel log reports a kill, and with no exit code. */
  lemma ReapPassUnheld(c: Ctx, e: TickEnv, a: Acc)
    requires WellKeyed(a.s)
    ensures forall id | IsRunning(a.s.jobs, id) && Unheld(a.s, id) ::
              var t := Pass(c, e, Reaping, a, a.s.order).s;
              id in t.jobs && UnheldReaped(e, a.s, id, t.jobs[id])
  {
    hide Turn, UnheldReaped, Unheld;
    ReapPassOverUnheld(c, e, a, a.s.order);
  }

  /** A drained queue holds no handles. */
  lemma DrainedHoldsNothing(s: Sched)
    requires Matches(s)
    ensures IsDrained(s.jobs) ==> forall pid :: pid !in s.procs
  {
    if pid :| pid in s.procs {
      assert IsRunning(s.jobs, s.procs[pid]);
    }
  }
}
