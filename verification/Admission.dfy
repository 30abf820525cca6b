/** Admission control: nodepilot/admission.py. */
module Admission {
  import opened Wrappers
  import opened Jobs

  // ---- what the running jobs hold -------------------------------------------

  datatype Load = Load(count: int, cores: int, ramGb: real, exclusive: int)

  const NOTHING := Load(0, 0, 0.0, 0)

  function Plus(a: Load, b: Load): Load {
    Load(a.count + b.count, a.cores + b.cores, a.ramGb + b.ramGb, a.exclusive + b.exclusive)
  }

  function Share(spec: JobSpec): Load {
    Load(1, spec.cores, spec.ramGb, if spec.exclusive then 1 else 0)
  }

  function Weight(j: JobRec): Load {
    if j.status == Running then Share(j.spec) else NOTHING
  }

  predicate IsRunning(jobs: map<string, JobRec>, id: string) {
    id in jobs && jobs[id].status == Running
  }

  function Part(jobs: map<string, JobRec>, id: string): Load {
    if id in jobs then Weight(jobs[id]) else NOTHING
  }

  /** `running_count`, `running_cores`, `running_ram_gb` and the number of running exclusive jobs. */
  function Total(order: seq<string>, jobs: map<string, JobRec>): Load {
    if order == [] then NOTHING
    else Plus(Total(order[..|order| - 1], jobs), Part(jobs, order[|order| - 1]))
  }

  ghost predicate NonNegative(jobs: map<string, JobRec>) {
    forall id | id in jobs :: jobs[id].spec.cores >= 0 && jobs[id].spec.ramGb >= 0.0
  }

  lemma {:induction false} TotalBounds(order: seq<string>, jobs: map<string, JobRec>)
    ensures 0 <= Total(order, jobs).exclusive <= Total(order, jobs).count
    ensures NonNegative(jobs) ==> Total(order, jobs).cores >= 0 && Total(order, jobs).ramGb >= 0.0
  {
    if order != [] { TotalBounds(order[..|order| - 1], jobs); }
  }

  /** Changing one job changes the total by the difference of its weights. */
  lemma {:induction false} TotalUpdate(order: seq<string>, jobs: map<string, JobRec>, id: string, j: JobRec)
    requires NoDup(order) && id in jobs
    ensures id in order ==> Plus(Total(order, jobs[id := j]), Weight(jobs[id])) == Plus(Total(order, jobs), Weight(j))
    ensures id !in order ==> Total(order, jobs[id := j]) == Total(order, jobs)
  {
    if order != [] {
      var init, last := order[..|order| - 1], order[|order| - 1];
      TotalUpdate(init, jobs, id, j);
      assert order == init + [last];
    }
  }

  lemma {:induction false} IdleMeansNothing(order: seq<string>, jobs: map<string, JobRec>)
    requires forall id | id in order :: !IsRunning(jobs, id)
    ensures Total(order, jobs) == NOTHING
  {
    if order != [] {
      assert order[|order| - 1] in order;
      IdleMeansNothing(order[..|order| - 1], jobs);
    }
  }

  lemma {:induction false} CountsRunning(order: seq<string>, jobs: map<string, JobRec>, id: string)
    requires id in order && IsRunning(jobs, id)
    ensures Total(order, jobs).count >= 1
  {
    var init := order[..|order| - 1];
    assert order == init + [order[|order| - 1]];
    TotalBounds(init, jobs);
    if id in init { CountsRunning(init, jobs, id); }
  }

  lemma TotalSnoc(init: seq<string>, last: string, jobs: map<string, JobRec>)
    ensures Total(init + [last], jobs) == Plus(Total(init, jobs), Part(jobs, last))
  {
    assert (init + [last])[..|init|] == init;
  }

  lemma Regroup(a: seq<string>, x: string, init: seq<string>, last: string)
    ensures a + [x] + (init + [last]) == (a + [x] + init) + [last]
    ensures a + (init + [last]) == (a + init) + [last]
  {
  }

  lemma {:induction false} TotalMiddle(a: seq<string>, x: string, b: seq<string>, jobs: map<string, JobRec>)
    ensures Total(a + [x] + b, jobs) == Plus(Total(a + b, jobs), Part(jobs, x))
  {
    if b == [] {
      assert a + [x] + b == a + [x] && a + b == a;
      TotalSnoc(a, x, jobs);
    } else {
      var init, last := b[..|b| - 1], b[|b| - 1];
      assert b == init + [last];
      TotalMiddle(a, x, init, jobs);
      Regroup(a, x, init, last);
      TotalSnoc(a + [x] + init, last, jobs);
      TotalSnoc(a + init, last, jobs);
    }
  }

  lemma CutOut(s: seq<string>, x: string) returns (a: seq<string>, b: seq<string>)
    requires NoDup(s) && x in s
    ensures s == a + [x] + b && NoDup(a + b)
    ensures forall y :: y in a + b <==> y in s && y != x
  {
    var k :| 0 <= k < |s| && s[k] == x;
    a, b := s[..k], s[k + 1..];
    assert s == a + [x] + b;
    forall i | 0 <= i < |a + b| ensures (a + b)[i] == s[if i < k then i else i + 1] {}
  }

  lemma TotalCut(order: seq<string>, x: string, jobs: map<string, JobRec>) returns (rest: seq<string>)
    requires NoDup(order) && x in order
    ensures NoDup(rest) && forall y :: y in rest <==> y in order && y != x
    ensures Total(order, jobs) == Plus(Total(rest, jobs), Part(jobs, x))
  {
    var a, b := CutOut(order, x);
    TotalMiddle(a, x, b, jobs);
    rest := a + b;
  }

  ghost function RunningIds(order: seq<string>, jobs: map<string, JobRec>): set<string> {
    set id | id in order && IsRunning(jobs, id)
  }

  lemma MinusAbsent(s: set<string>, x: string)
    requires x !in s
    ensures s - {x} == s
  {
  }

  lemma PlusNothing(a: Load)
    ensures Plus(a, NOTHING) == a
  {
  }

  lemma RunningCut(order: seq<string>, x: string, rest: seq<string>, jobs: map<string, JobRec>)
    requires forall y :: y in rest <==> y in order && y != x
    ensures RunningIds(rest, jobs) == RunningIds(order, jobs) - {x}
  {
  }

  lemma CutLast(order: seq<string>, jobs: map<string, JobRec>) returns (init: seq<string>, last: string)
    requires NoDup(order) && order != []
    ensures NoDup(init) && |init| < |order| && last in order
    ensures Total(order, jobs) == Plus(Total(init, jobs), Part(jobs, last))
    ensures RunningIds(init, jobs) == RunningIds(order, jobs) - {last}
  {
    init, last := order[..|order| - 1], order[|order| - 1];
    assert order == init + [last];
    RunningCut(order, last, init, jobs);
  }

  lemma NoneRunning(order: seq<string>, jobs: map<string, JobRec>)
    requires RunningIds(order, jobs) == {}
    ensures Total(order, jobs) == NOTHING
  {
    forall id | id in order ensures !IsRunning(jobs, id) {
      assert id !in RunningIds(order, jobs);
    }
    IdleMeansNothing(order, jobs);
  }

  /** The total depends only on which jobs run, not on the list they stand in. */
  lemma {:induction false} TotalAgrees(order: seq<string>, jobs: map<string, JobRec>, order': seq<string>, jobs': map<string, JobRec>)
    requires NoDup(order) && NoDup(order') && RunningIds(order, jobs) == RunningIds(order', jobs')
    requires forall id | id in RunningIds(order, jobs) :: jobs'[id] == jobs[id]
    ensures Total(order, jobs) == Total(order', jobs')
    decreases |order|
  {
    if RunningIds(order, jobs) == {} {
      NoneRunning(order, jobs);
      NoneRunning(order', jobs');
    } else {
      var init, last := CutLast(order, jobs);
      if IsRunning(jobs, last) {
        assert last in RunningIds(order, jobs);
        var rest := TotalCut(order', last, jobs');
        RunningCut(order', last, rest, jobs');
        TotalAgrees(init, jobs, rest, jobs');
      } else {
        MinusAbsent(RunningIds(order, jobs), last);
        TotalAgrees(init, jobs, order', jobs');
        PlusNothing(Total(init, jobs));
      }
    }
  }

  // ---- the running jobs themselves ----------------------------------------------

  ghost function RunningSet(jobs: map<string, JobRec>): set<string> {
    set id | id in jobs && jobs[id].status == Running
  }

  /** The cores that a set of jobs asks for together. */
  ghost function CoreDemand(jobs: map<string, JobRec>, ids: set<string>): int
    requires ids <= jobs.Keys
  {
    if ids == {} then 0
    else
      var id :| id in ids;
      jobs[id].spec.cores + CoreDemand(jobs, ids - {id})
  }

  /** The memory that a set of jobs asks for together. */
  ghost function RamDemand(jobs: map<string, JobRec>, ids: set<string>): real
    requires ids <= jobs.Keys
  {
    if ids == {} then 0.0
    else
      var id :| id in ids;
      jobs[id].spec.ramGb + RamDemand(jobs, ids - {id})
  }

  /** Any job of the set may be counted first. */
  lemma {:induction false} CoresWithout(jobs: map<string, JobRec>, ids: set<string>, id: string)
    requires ids <= jobs.Keys && id in ids
    ensures CoreDemand(jobs, ids) == jobs[id].spec.cores + CoreDemand(jobs, ids - {id})
    decreases |ids|
  {
    var x :| x in ids && CoreDemand(jobs, ids) == jobs[x].spec.cores + CoreDemand(jobs, ids - {x});
    if x != id {
      CoresWithout(jobs, ids - {x}, id);
      CoresWithout(jobs, ids - {id}, x);
      assert ids - {x} - {id} == ids - {id} - {x};
    }
  }

  lemma {:induction false} RamWithout(jobs: map<string, JobRec>, ids: set<string>, id: string)
    requires ids <= jobs.Keys && id in ids
    ensures RamDemand(jobs, ids) == jobs[id].spec.ramGb + RamDemand(jobs, ids - {id})
    decreases |ids|
  {
    var x :| x in ids && RamDemand(jobs, ids) == jobs[x].spec.ramGb + RamDemand(jobs, ids - {x});
    if x != id {
      RamWithout(jobs, ids - {x}, id);
      RamWithout(jobs, ids - {id}, x);
      assert ids - {x} - {id} == ids - {id} - {x};
    }
  }

  ghost predicate SomeExclusive(jobs: map<string, JobRec>, ids: set<string>)
    requires ids <= jobs.Keys
  {
    exists id :: id in ids && jobs[id].spec.exclusive
  }

  /** What a load says about a set of jobs: how many they are, what they ask for together, and whether one of
      them is exclusive. */
  ghost predicate Describes(load: Load, jobs: map<string, JobRec>, ids: set<string>)
    requires ids <= jobs.Keys
  {
    && load.count == |ids| && load.cores == CoreDemand(jobs, ids) && load.ramGb == RamDemand(jobs, ids)
    && load.exclusive >= 0 && (load.exclusive > 0 <==> SomeExclusive(jobs, ids))
  }

  lemma AddedDescribes(load: Load, jobs: map<string, JobRec>, ids: set<string>, id: string)
    requires ids <= jobs.Keys && id in jobs && id !in ids && jobs[id].status == Running && Describes(load, jobs, ids)
    ensures Describes(Plus(load, Weight(jobs[id])), jobs, ids + {id})
  {
    CoresWithout(jobs, ids + {id}, id);
    RamWithout(jobs, ids + {id}, id);
    assert ids + {id} - {id} == ids;
    assert |ids + {id}| == |ids| + 1;
    assert jobs[id].spec.exclusive ==> id in ids + {id};
    assert forall x | x in ids :: x in ids + {id};
  }

  /** The sums admission control works with are those over the running jobs themselves. */
  lemma {:induction false} TotalDescribes(order: seq<string>, jobs: map<string, JobRec>)
    requires NoDup(order)
    ensures RunningIds(order, jobs) <= jobs.Keys && Describes(Total(order, jobs), jobs, RunningIds(order, jobs))
    decreases |order|
  {
    if order == [] {
      assert RunningIds(order, jobs) == {};
    } else {
      hide Describes, Total, Weight;
      var init, last := CutLast(order, jobs);
      TotalDescribes(init, jobs);
      if IsRunning(jobs, last) {
        AddedDescribes(Total(init, jobs), jobs, RunningIds(init, jobs), last);
        assert RunningIds(order, jobs) == RunningIds(init, jobs) + {last};
      } else {
        MinusAbsent(RunningIds(order, jobs), last);
        PlusNothing(Total(init, jobs));
        NoWeight(jobs, last);
      }
    }
  }

  lemma NoWeight(jobs: map<string, JobRec>, id: string)
    requires !IsRunning(jobs, id)
    ensures Part(jobs, id) == NOTHING
  {
  }

  // ---- the decision -----------------------------------------------------------

  /** What `can_launch` reads from the machine: the pause file, the slice's current and maximum memory, and
      the available memory; `None` where it cannot be read. */
  datatype Readings = Readings(paused: bool, sliceUsed: Option<real>, sliceCap: Option<real>, freeRam: Option<real>)

  datatype Rule = Paused | Cooldown | ExclusiveRunning | MustRunAlone | ConcurrencyCap | CoreBudget | SliceRam | DeclaredRam | LiveRam

  /** `Go` may carry the advisory `maxcore` warning, which never blocks. */
  datatype Decision = Go(warned: bool) | Wait(rule: Rule)

  /** `maxcore_sane` */
  predicate MaxcoreSane(job: JobSpec) {
    job.maxcore <= 0 || job.ramGb >= job.maxcore as real * job.EffectiveNprocs() as real * 1.3 / 1024.0
  }

  /** `_check_ram`; `None` means the job passes. */
  function CheckRam(cfg: Config, r: Readings, load: Load, job: JobSpec): Option<Rule> {
    if cfg.memorySlice != "" && r.sliceUsed.Some? then
      var cap := if r.sliceCap.Some? then r.sliceCap.value else cfg.ramBudgetGb;
      if r.sliceUsed.value + job.ramGb > cap - cfg.ramSafetyGb then Some(SliceRam) else None
    else if load.ramGb + job.ramGb > cfg.ramBudgetGb then Some(DeclaredRam)
    else if r.freeRam.Some? && r.freeRam.value < job.ramGb + cfg.ramSafetyGb then Some(LiveRam)
    else None
  }

  predicate IsPaused(cfg: Config, r: Readings) {
    cfg.pauseFile != "" && r.paused
  }

  /** `can_launch`: the checks in order, the first one that fails decides. */
  function Decide(cfg: Config, cooldownUntil: real, now: real, r: Readings, load: Load, job: JobSpec): (d: Decision)
    ensures d.Wait? && d.rule == Paused <==> IsPaused(cfg, r)
  {
    if IsPaused(cfg, r) then Wait(Paused)
    else if cooldownUntil - now > 0.0 then Wait(Cooldown)
    else if load.exclusive > 0 then Wait(ExclusiveRunning)
    else if job.exclusive && load.count > 0 then Wait(MustRunAlone)
    else if load.count >= cfg.maxConcurrent then Wait(ConcurrencyCap)
    else if load.cores + job.cores > cfg.coreBudget then Wait(CoreBudget)
    else
      match CheckRam(cfg, r, load, job)
      case Some(rule) => Wait(rule)
      case None => Go(!MaxcoreSane(job))
  }

  /** The invariant admission control maintains. */
  ghost predicate WithinBudget(cfg: Config, load: Load) {
    && (load.count > 0 ==> load.count <= cfg.maxConcurrent)
    && load.cores <= cfg.coreBudget
    && (load.exclusive > 0 ==> load.count == 1)
    && (cfg.memorySlice == "" ==> load.ramGb <= cfg.ramBudgetGb)
  }

  /** There is memory for the job: below the safe cap of a live slice, else within the declared budget and,
      where it can be read, the memory available now. */
  ghost predicate RamRoom(cfg: Config, r: Readings, load: Load, job: JobSpec) {
    if cfg.memorySlice != "" && r.sliceUsed.Some? then
      r.sliceUsed.value + job.ramGb + cfg.ramSafetyGb <= if r.sliceCap.Some? then r.sliceCap.value else cfg.ramBudgetGb
    else
      && Plus(load, Share(job)).ramGb <= cfg.ramBudgetGb
      && (r.freeRam.None? || job.ramGb + cfg.ramSafetyGb <= r.freeRam.value)
  }

  /** The limits on counts, cores and exclusive jobs. */
  ghost predicate WithinLimits(cfg: Config, load: Load) {
    load.count <= cfg.maxConcurrent && load.cores <= cfg.coreBudget && (load.exclusive > 0 ==> load.count == 1)
  }

  /** A job is admitted exactly when launches are not paused, the cooldown is over, the running jobs together
      with it are within the limits, and there is memory for it. */
  lemma AdmittedExactly(cfg: Config, cooldownUntil: real, now: real, r: Readings, load: Load, job: JobSpec)
    requires 0 <= load.exclusive <= load.count
    ensures Decide(cfg, cooldownUntil, now, r, load, job).Go? <==>
            && !IsPaused(cfg, r) && cooldownUntil <= now
            && WithinLimits(cfg, Plus(load, Share(job)))
            && RamRoom(cfg, r, load, job)
  {
    assert Plus(load, Share(job)).count == load.count + 1;
  }

  /** An admitted job keeps the running set within budget; and a job is only admitted when not paused and
      not cooling down. */
  lemma AdmittedStaysWithinBudget(cfg: Config, cooldownUntil: real, now: real, r: Readings, load: Load, job: JobSpec)
    requires WithinBudget(cfg, load) && 0 <= load.exclusive && 0 <= load.count
    requires Decide(cfg, cooldownUntil, now, r, load, job).Go?
    ensures WithinBudget(cfg, Plus(load, Share(job)))
    ensures !IsPaused(cfg, r) && cooldownUntil <= now
  {
  }

  /** There is memory for the job beside the jobs of the set. */
  ghost predicate RamRoomBeside(cfg: Config, r: Readings, jobs: map<string, JobRec>, ids: set<string>, job: JobSpec)
    requires ids <= jobs.Keys
  {
    if cfg.memorySlice != "" && r.sliceUsed.Some? then
      r.sliceUsed.value + job.ramGb + cfg.ramSafetyGb <= if r.sliceCap.Some? then r.sliceCap.value else cfg.ramBudgetGb
    else
      && RamDemand(jobs, ids) + job.ramGb <= cfg.ramBudgetGb
      && (r.freeRam.None? || job.ramGb + cfg.ramSafetyGb <= r.freeRam.value)
  }

  /** The decision over the running jobs themselves. */
  lemma AdmittedBeside(
    cfg: Config, cooldownUntil: real, now: real, r: Readings, load: Load, jobs: map<string, JobRec>, ids: set<string>, job: JobSpec)
    requires ids <= jobs.Keys && Describes(load, jobs, ids)
    ensures Decide(cfg, cooldownUntil, now, r, load, job).Go? <==>
            && !(cfg.pauseFile != "" && r.paused) && cooldownUntil <= now
            && |ids| < cfg.maxConcurrent
            && !SomeExclusive(jobs, ids) && (job.exclusive ==> ids == {})
            && CoreDemand(jobs, ids) + job.cores <= cfg.coreBudget
            && RamRoomBeside(cfg, r, jobs, ids, job)
  {
    assert |ids| == 0 <==> ids == {};
  }

  /** What each reason for a refusal objects to. */
  ghost predicate Objects(rule: Rule, cfg: Config, cooldownUntil: real, now: real, r: Readings, load: Load, job: JobSpec) {
    var live := cfg.memorySlice != "" && r.sliceUsed.Some?;
    match rule
    case Paused => cfg.pauseFile != "" && r.paused
    case Cooldown => now < cooldownUntil
    case ExclusiveRunning => load.exclusive > 0
    case MustRunAlone => job.exclusive && load.count > 0
    case ConcurrencyCap => load.count + 1 > cfg.maxConcurrent
    case CoreBudget => load.cores + job.cores > cfg.coreBudget
    case SliceRam => live && !RamRoom(cfg, r, load, job)
    case DeclaredRam => !live && load.ramGb + job.ramGb > cfg.ramBudgetGb
    case LiveRam => !live && r.freeRam.Some? && r.freeRam.value - job.ramGb < cfg.ramSafetyGb
  }

  /** The order in which the reasons are considered. */
  function Rank(rule: Rule): nat {
    match rule
    case Paused => 0
    case Cooldown => 1
    case ExclusiveRunning => 2
    case MustRunAlone => 3
    case ConcurrencyCap => 4
    case CoreBudget => 5
    case SliceRam => 6
    case DeclaredRam => 7
    case LiveRam => 8
  }

  /** A refusal names the first reason that objects; an admission means that none does, and it carries a warning
      if the memory hint for all ranks, with 30% to spare, exceeds the job's request. */
  lemma DecisionReasons(cfg: Config, cooldownUntil: real, now: real, r: Readings, load: Load, job: JobSpec)
    ensures match Decide(cfg, cooldownUntil, now, r, load, job)
      case Wait(rule) =>
        && Objects(rule, cfg, cooldownUntil, now, r, load, job)
        && forall q | Rank(q) < Rank(rule) :: !Objects(q, cfg, cooldownUntil, now, r, load, job)
      case Go(warned) =>
        && (forall q :: !Objects(q, cfg, cooldownUntil, now, r, load, job))
        && var ranks := if job.nprocs > 0 then job.nprocs else job.cores;
           warned <==> job.maxcore > 0 && job.ramGb * 1024.0 < job.maxcore as real * ranks as real * 1.3
  {
  }

  ghost predicate LighterOrEqual(a: Load, b: Load) {
    0 <= a.count <= b.count && a.cores <= b.cores && a.ramGb <= b.ramGb && 0 <= a.exclusive <= b.exclusive
  }

  /** What is refused beside a light load is refused beside a heavier one. */
  lemma RefusalGrowsWithLoad(cfg: Config, cooldownUntil: real, now: real, r: Readings, light: Load, heavy: Load, job: JobSpec)
    requires LighterOrEqual(light, heavy)
    requires Decide(cfg, cooldownUntil, now, r, light, job).Wait?
    ensures Decide(cfg, cooldownUntil, now, r, heavy, job).Wait?
  {
  }

  // ---- the controller -----------------------------------------------------------

  class AdmissionController {
    const cfg: Config
    const clock: Clock
    var cooldownUntil: real

    constructor (cfg: Config, clock: Clock)
      ensures this.cfg == cfg && this.clock == clock && cooldownUntil == 0.0
    {
      this.cfg, this.clock, this.cooldownUntil := cfg, clock, 0.0;
    }

    /** `trigger_oom_cooldown` */
    method TriggerOomCooldown()
      modifies this`cooldownUntil, clock
      ensures cooldownUntil == clock.reading(old(clock.taken)) + cfg.oomCooldownSeconds
      ensures clock.taken == old(clock.taken) + 1
    {
      var t := clock.Now();
      cooldownUntil := t + cfg.oomCooldownSeconds;
    }

    /** `in_cooldown` */
    method InCooldown() returns (remaining: real)
      modifies clock
      ensures var left := cooldownUntil - clock.reading(old(clock.taken)); remaining == if left > 0.0 then left else 0.0
      ensures clock.taken == old(clock.taken) + 1
    {
      var t := clock.Now();
      remaining := if cooldownUntil - t > 0.0 then cooldownUntil - t else 0.0;
    }

    /** `can_launch`, given what the running jobs hold.  The clock is read unless launches are paused. */
    method CanLaunch(job: JobSpec, running: Load, r: Readings) returns (d: Decision)
      modifies clock
      ensures d == Decide(cfg, cooldownUntil, clock.reading(old(clock.taken)), r, running, job)
      ensures clock.taken == old(clock.taken) + if IsPaused(cfg, r) then 0 else 1
    {
      if IsPaused(cfg, r) {
        return Wait(Paused);
      }
      var remaining := InCooldown();
      if remaining > 0.0 {
        return Wait(Cooldown);
      }
      if running.exclusive > 0 {
        return Wait(ExclusiveRunning);
      }
      if job.exclusive && running.count > 0 {
        return Wait(MustRunAlone);
      }
      if running.count >= cfg.maxConcurrent {
        return Wait(ConcurrencyCap);
      }
      if running.cores + job.cores > cfg.coreBudget {
        return Wait(CoreBudget);
      }
      var ram := CheckRam(cfg, r, running, job);
      if ram.Some? {
        return Wait(ram.value);
      }
      d := Go(!MaxcoreSane(job));
    }
  }
}
