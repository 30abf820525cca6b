/** The execution backend: the handle table and exit classification of nodepilot/runner.py.
    Processes themselves are outside; what the scheduler reads of them in one tick is a `TickEnv`. */
module Runner {
  import opened Wrappers
  import opened Jobs
  import opened Admission

  datatype StartResult = Started(pid: int) | StartFailed(message: string)

  /** The readings one tick takes of the outside world.  `poll` is the exit status of a child whose handle is
      held (`None` while it runs); the readings keyed by a string are those taken while handling that job. */
  datatype TickEnv = TickEnv(
    poll: int -> Option<int>,
    pidAlive: int -> bool,
    tmuxAlive: string -> bool,
    scopeActive: string -> bool,
    oomHint: string -> bool,
    readings: string -> Readings,
    start: string -> StartResult)

  /** The handle table: the child processes started by this scheduler and not yet forgotten, by pid, with
      the id of the job each one runs. */
  type Handles = map<int, string>

  function IsAlive(e: TickEnv, procs: Handles, session: Session): bool {
    match session
    case Tmux(name) => e.tmuxAlive(name)
    case Pid(pid) => if pid in procs then e.poll(pid).None? else e.pidAlive(pid)
    case Untracked => false
  }

  /** Signal deaths are reported as negative numbers; they become `128 + signo`. */
  function Normalised(rc: int): int {
    if rc >= 0 then rc else 128 - rc
  }

  function ReturnCode(e: TickEnv, procs: Handles, session: Session): Option<int> {
    if session.Pid? && session.pid in procs && e.poll(session.pid).Some? then
      Some(Normalised(e.poll(session.pid).value))
    else
      None
  }

  function Forgotten(procs: Handles, session: Session): Handles {
    if session.Pid? then procs - {session.pid} else procs
  }

  datatype Outcome = Outcome(status: Status, reason: Reason, exitCode: Option<int>)

  /** The classification in `reap`, from the normalised exit code and the kernel log's OOM hint. */
  function Classify(code: Option<int>, oomHint: bool): Outcome {
    if code == Some(137) || code == None then
      if code == Some(137) then Outcome(Failed, if oomHint then OomKilled else KilledSignal, code)
      else if oomHint then Outcome(Failed, OomKilled, None)
      else Outcome(Done, NoReason, None)
    else if code.value == 0 then Outcome(Done, NoReason, code)
    else if code.value > 128 then Outcome(Failed, SignalDeath(code.value - 128), code)
    else Outcome(Failed, ExitCode(code.value), code)
  }

  /** What the classification says about a child whose raw exit status is known: it is done exactly when it
      exited with 0; a death by signal is named by its signal, save that SIGKILL is told apart by the OOM
      hint; and the hint is consulted in no other case. */
  lemma KnownExit(rc: int, oomHint: bool)
    ensures var o := Classify(Some(Normalised(rc)), oomHint);
            && (o.status == Done <==> rc == 0)
            && (o.status == Failed <==> rc != 0)
            && (rc < 0 && rc != -9 ==> o.reason == SignalDeath(-rc))
            && (rc == -9 || rc == 137 ==> o.reason == if oomHint then OomKilled else KilledSignal)
            && (1 <= rc <= 128 ==> o.reason == ExitCode(rc))
            && (rc != -9 && rc != 137 ==> o == Classify(Some(Normalised(rc)), !oomHint))
            && (rc > 128 && rc != 137 ==> o.reason == SignalDeath(rc - 128))
            && (rc == 0 ==> o.reason == NoReason)
            && o.exitCode == Some(if rc >= 0 then rc else 128 - rc)
  {
  }

  /** Without an exit code the OOM hint alone decides: done unless the kernel log reports a kill. */
  lemma UnknownExit(oomHint: bool)
    ensures var o := Classify(None, oomHint);
            && (o.status == Done <==> !oomHint) && (o.status == Failed <==> oomHint)
            && o.reason == (if oomHint then OomKilled else NoReason)
            && o.exitCode == None
  {
  }

  /** When a session counts as over: a tmux session once it is gone, a child of this scheduler once it has an
      exit status, and any other process once its pid is gone; a job without a session at once. */
  ghost predicate SessionOver(e: TickEnv, procs: Handles, session: Session) {
    && (session.Tmux? ==> !e.tmuxAlive(session.name))
    && (session.Pid? && session.pid in procs ==> e.poll(session.pid).Some?)
    && (session.Pid? && session.pid !in procs ==> !e.pidAlive(session.pid))
  }

  lemma AliveUnlessOver(e: TickEnv, procs: Handles, session: Session)
    ensures IsAlive(e, procs, session) <==> !SessionOver(e, procs, session)
  {
  }

  /** Different jobs are tracked by different sessions: by name under tmux, by pid otherwise. */
  lemma SessionsDiffer(tmux: bool, a: string, b: string, p: int, q: int)
    requires a != b && (tmux || p != q)
    ensures NewSession(tmux, a, p) != NewSession(tmux, b, q)
  {
    var x, y := "nodepilot_" + a, "nodepilot_" + b;
    assert x[10..] == a && y[10..] == b;
  }

  class Runner {
    const tmux: bool
    var procs: Handles

    constructor (tmux: bool)
      ensures this.tmux == tmux && procs == map[]
    {
      this.tmux := tmux;
      this.procs := map[];
    }

    /** `start`; a failure to start is returned instead of raised. */
    method Start(job: Job, e: TickEnv) returns (r: StartResult)
      modifies this, job
      ensures r == e.start(job.spec.id)
      ensures r.StartFailed? ==> job.Rec() == old(job.Rec()) && procs == old(procs)
      ensures r.Started? ==> job.Rec() == old(job.Rec()).(session := NewSession(tmux, job.spec.id, r.pid))
      ensures r.Started? ==> procs == Recorded(old(procs), NewSession(tmux, job.spec.id, r.pid), job.spec.id)
    {
      r := e.start(job.spec.id);
      if r.Started? {
        if tmux {
          job.session := Tmux("nodepilot_" + job.spec.id);
        } else {
          job.session := Pid(r.pid);
          procs := procs[r.pid := job.spec.id];
        }
      }
    }

    /** `is_alive` */
    method Alive(job: Job, e: TickEnv) returns (alive: bool)
      ensures alive == IsAlive(e, procs, job.session)
    {
      match job.session
      case Tmux(name) => alive := e.tmuxAlive(name);
      case Pid(pid) =>
        if pid in procs {
          alive := e.poll(pid).None?;
        } else {
          alive := e.pidAlive(pid);
        }
      case Untracked => alive := false;
    }

    /** `_forget` */
    method Forget(job: Job)
      modifies this
      ensures procs == Forgotten(old(procs), job.session)
    {
      if job.session.Pid? {
        procs := procs - {job.session.pid};
      }
    }

    /** `reap`: the exit code is read before the handle is dropped. */
    method Reap(job: Job, e: TickEnv) returns (o: Outcome)
      modifies this
      ensures o == Classify(ReturnCode(e, old(procs), job.session), e.oomHint(job.spec.id))
      ensures !(job.session.Pid? && job.session.pid in old(procs)) ==>
                o == if e.oomHint(job.spec.id) then Outcome(Failed, OomKilled, None) else Outcome(Done, NoReason, None)
      ensures procs == Forgotten(old(procs), job.session)
    {
      var code: Option<int> := None;
      if job.session.Pid? && job.session.pid in procs {
        var rc := e.poll(job.session.pid);
        if rc.Some? {
          code := Some(if rc.value >= 0 then rc.value else 128 - rc.value);
        }
      }
      Forget(job);
      if code == Some(137) || code == None {
        var oomHint := e.oomHint(job.spec.id);
        if code == Some(137) {
          return Outcome(Failed, if oomHint then OomKilled else KilledSignal, code);
        }
        if oomHint {
          return Outcome(Failed, OomKilled, None);
        }
        return Outcome(Done, NoReason, None);
      }
      if code.value == 0 {
        return Outcome(Done, NoReason, code);
      }
      if code.value > 128 {
        return Outcome(Failed, SignalDeath(code.value - 128), code);
      }
      o := Outcome(Failed, ExitCode(code.value), code);
    }

    /** `kill`: the process group is signalled and the handle dropped. */
    method Kill(job: Job)
      modifies this
      ensures procs == Forgotten(old(procs), job.session)
    {
      if job.session.Pid? && job.session.pid in procs {
        procs := procs - {job.session.pid};
      }
    }
  }

  function NewSession(tmux: bool, id: string, pid: int): Session {
    if tmux then Tmux("nodepilot_" + id) else Pid(pid)
  }

  function Recorded(procs: Handles, session: Session, id: string): Handles {
    if session.Pid? then procs[session.pid := id] else procs
  }
}
