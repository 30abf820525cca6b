/** Schedule independence: once every job's own outcome is fixed, the final status of every job is too. */
module Confluence {
  import opened Jobs
  import opened Scheduler
  import opened Safety

  /** `verdict(id)` says whether the job succeeds if it is ever started; the event agrees with it. */
  ghost predicate Obeys(verdict: string -> bool, ev: Event) {
    ev.On? ==>
      match ev.act
      case Reap(o) => (o.status == Done) == verdict(ev.id)
      case Bury => !verdict(ev.id)
      case Kill => !verdict(ev.id)
      case FailLaunch(_, _, _) => !verdict(ev.id)
      case _ => true
  }

  ghost predicate Follows(verdict: string -> bool, jobs: map<string, JobRec>) {
    forall id | id in jobs :: (jobs[id].status == Done ==> verdict(id)) && (jobs[id].status == Failed ==> !verdict(id))
  }

  ghost predicate NoneDormant(jobs: map<string, JobRec>) {
    forall id | id in jobs :: jobs[id].status != Dormant
  }

  lemma {:induction false} RunFollows(c: Ctx, s: Sched, log: seq<Event>, verdict: string -> bool)
    requires ValidRun(c, s, log) && NoneDormant(s.jobs) && Follows(verdict, s.jobs)
    requires forall ev | ev in log :: Obeys(verdict, ev)
    ensures Follows(verdict, Exec(c, s, log).jobs) && NoneDormant(Exec(c, s, log).jobs)
  {
    if log != [] {
      var init, ev := log[..|log| - 1], log[|log| - 1];
      assert ev in log && forall x | x in init :: x in log;
      RunFollows(c, s, init, verdict);
    }
  }

  ghost predicate SameGraph(a: map<string, JobRec>, b: map<string, JobRec>) {
    a.Keys == b.Keys && forall id | id in a :: a[id].spec.dependsOn == b[id].spec.dependsOn
  }

  /** A dependency path from its head down to a failed job or an unknown id. */
  ghost predicate LeadsToFailure(jobs: map<string, JobRec>, path: seq<string>) {
    && |path| >= 2
    && (forall k | 0 <= k < |path| - 1 :: path[k] in jobs && path[k + 1] in jobs[path[k]].spec.dependsOn)
    && var last := path[|path| - 1]; last in jobs ==> jobs[last].status == Failed
  }

  /** A job above a failure in one run is never started in another run over the same graph. */
  lemma {:induction false} NotStartedAboveFailure(
    a: map<string, JobRec>, b: map<string, JobRec>, verdict: string -> bool, path: seq<string>)
    requires SameGraph(a, b) && Causal(a) && Follows(verdict, a) && Follows(verdict, b)
    requires LeadsToFailure(b, path)
    ensures !WasStarted(a[path[0]])
  {
    if WasStarted(a[path[0]]) {
      assert DepsSatisfied(a, a[path[0]].spec.dependsOn);
      assert IsDone(a, path[1]);
      if |path| > 2 {
        assert LeadsToFailure(b, path[1..]);
        NotStartedAboveFailure(a, b, verdict, path[1..]);
      }
    }
  }

  lemma GroundsLeadToFailure(jobs: map<string, JobRec>, path: seq<string>)
    requires Grounds(jobs, path)
    ensures LeadsToFailure(jobs, path)
  {
  }

  ghost predicate Finished(jobs: map<string, JobRec>) {
    IsDrained(jobs) && NoneDormant(jobs) && Causal(jobs) && Grounded(jobs)
  }

  /** In a drained queue a job is skipped exactly if some dependency path from it reaches a failed job or an unknown id. */
  lemma SkippedExactly(jobs: map<string, JobRec>, verdict: string -> bool, id: string)
    requires Finished(jobs) && Follows(verdict, jobs) && id in jobs
    ensures jobs[id].status == Skipped <==> exists path :: LeadsToFailure(jobs, path) && path[0] == id
  {
    if jobs[id].status == Skipped {
      var path :| Grounds(jobs, path) && path[0] == id;
      GroundsLeadToFailure(jobs, path);
    }
    if path :| LeadsToFailure(jobs, path) && path[0] == id {
      NotStartedAboveFailure(jobs, jobs, verdict, path);
    }
  }

  lemma SameStatus(a: map<string, JobRec>, b: map<string, JobRec>, verdict: string -> bool, id: string)
    requires SameGraph(a, b) && Finished(a) && Finished(b) && Follows(verdict, a) && Follows(verdict, b) && id in a
    ensures a[id].status == b[id].status
  {
    if a[id].status == Skipped {
      var path :| Grounds(a, path) && path[0] == id;
      GroundsLeadToFailure(a, path);
      NotStartedAboveFailure(b, a, verdict, path);
    }
    if b[id].status == Skipped {
      var path :| Grounds(b, path) && path[0] == id;
      GroundsLeadToFailure(b, path);
      NotStartedAboveFailure(a, b, verdict, path);
    }
  }

  /** What a drained run from an all-pending queue leaves. */
  lemma RunFinishes(c: Ctx, s: Sched, log: seq<Event>, verdict: string -> bool)
    requires forall id | id in s.jobs :: s.jobs[id].status == Pending
    requires ValidRun(c, s, log) && IsDrained(Exec(c, s, log).jobs)
    requires forall ev | ev in log :: Obeys(verdict, ev)
    ensures var t := Exec(c, s, log); Finished(t.jobs) && Follows(verdict, t.jobs) && SameGraph(s.jobs, t.jobs)
  {
    hide ValidRun, Exec, Obeys, IsDrained, Effect;
    Causality(c, s, log);
    RunFollows(c, s, log, verdict);
  }

  /** Two runs over the same dependency graph, from all-pending queues, that both drain and in which every
      job that is started meets the same fate, end with the same status for every job.  Configuration,
      topology, clock, priorities, resource requests and list order may all differ, and the graph may have
      cycles. */
  lemma ScheduleIndependence(
    c: Ctx, s: Sched, log: seq<Event>, c': Ctx, s': Sched, log': seq<Event>, verdict: string -> bool)
    requires SameGraph(s.jobs, s'.jobs)
    requires forall id | id in s.jobs :: s.jobs[id].status == Pending && s'.jobs[id].status == Pending
    requires ValidRun(c, s, log) && ValidRun(c', s', log')
    requires forall ev | ev in log || ev in log' :: Obeys(verdict, ev)
    requires IsDrained(Exec(c, s, log).jobs) && IsDrained(Exec(c', s', log').jobs)
    ensures Exec(c, s, log).jobs.Keys == Exec(c', s', log').jobs.Keys == s.jobs.Keys
    ensures forall id | id in s.jobs :: Exec(c, s, log).jobs[id].status == Exec(c', s', log').jobs[id].status
  {
    hide ValidRun, Exec, Obeys, IsDrained, Follows, Finished;
    var a, b := Exec(c, s, log).jobs, Exec(c', s', log').jobs;
    RunFinishes(c, s, log, verdict);
    RunFinishes(c', s', log', verdict);
    assert SameGraph(a, b);
    forall id | id in s.jobs ensures a[id].status == b[id].status {
      SameStatus(a, b, verdict, id);
    }
  }
}
