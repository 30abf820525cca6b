/** Every pass of the scheduler, and so every tick and every loop of ticks, is a run of enabled events. */
module Runs {
  import opened Wrappers
  import opened Jobs
  import opened Runner
  import opened Scheduler

  /** `a` was reached from `s0` by the run it records. */
  ghost predicate Traces(c: Ctx, s0: Sched, a: Acc) {
    a.s == Exec(c, s0, a.log) && ValidRun(c, s0, a.log)
  }

  /** The state before event `k` of a run. */
  ghost function At(c: Ctx, s: Sched, log: seq<Event>, k: nat): Sched
    requires k <= |log|
  {
    Exec(c, s, log[..k])
  }

  lemma AtNext(c: Ctx, s: Sched, log: seq<Event>, k: nat)
    requires k < |log|
    ensures At(c, s, log, k + 1) == Effect(c, At(c, s, log, k), log[k])
    ensures ValidRun(c, s, log) ==> Enabled(c, At(c, s, log, k), log[k])
  {
    assert log[..k + 1][..k] == log[..k];
    if ValidRun(c, s, log) { RunPrefix(c, s, log, k + 1); }
  }

  lemma AddTraces(c: Ctx, s0: Sched, a: Acc, ev: Event)
    requires Traces(c, s0, a) && Enabled(c, a.s, ev)
    ensures Traces(c, s0, Add(c, a, ev))
  {
    RunSnoc(c, s0, a.log, ev);
  }

  lemma EventEnabled(c: Ctx, e: TickEnv, ph: Phase, s: Sched, id: string)
    requires id in s.jobs && (ph == Launching ==> s.jobs[id].status == Pending)
    ensures EventFor(c, e, ph, s, id).Some? ==> Enabled(c, s, EventFor(c, e, ph, s, id).value)
    ensures EventFor(c, e, ph, s, id).Some? ==>
              var ev := EventFor(c, e, ph, s, id).value; (ev.On? ==> ev.id == id) && (ev.On? || ev.Defer?)
    ensures ph != Launching && EventFor(c, e, ph, s, id).Some? ==> EventFor(c, e, ph, s, id).value.On?
  {
  }

  lemma EventKinds(c: Ctx, e: TickEnv, ph: Phase, s: Sched, id: string)
    requires id in s.jobs
    ensures EventFor(c, e, ph, s, id).Some? ==> EventFor(c, e, ph, s, id).value == Defer(id) || EventFor(c, e, ph, s, id).value.On?
    ensures EventFor(c, e, ph, s, id).Some? && EventFor(c, e, ph, s, id).value.On? ==> EventFor(c, e, ph, s, id).value.id == id
  {
  }

  lemma TurnFrame(c: Ctx, e: TickEnv, ph: Phase, a: Acc, id: string)
    ensures var t := Turn(c, e, ph, a, id);
            && t.s.order == a.s.order && t.s.jobs.Keys == a.s.jobs.Keys && a.s.clk <= t.s.clk
            && (forall x | x in a.s.jobs :: t.s.jobs[x].spec == a.s.jobs[x].spec)
            && (forall x | x in a.s.jobs && x != id :: t.s.jobs[x] == a.s.jobs[x])
            && (WellKeyed(a.s) ==> WellKeyed(t.s))
            && (a.changed ==> t.changed)
  {
    hide EventFor, Effect;
    if id in a.s.jobs && EventFor(c, e, ph, a.s, id).Some? {
      EventKinds(c, e, ph, a.s, id);
      EffectFrame(c, a.s, EventFor(c, e, ph, a.s, id).value);
    }
  }

  /** A pass touches only the jobs it visits, and of those only the runtime fields. */
  lemma {:induction false} PassFrame(c: Ctx, e: TickEnv, ph: Phase, a: Acc, ids: seq<string>)
    ensures var t := Pass(c, e, ph, a, ids);
            && t.s.order == a.s.order && t.s.jobs.Keys == a.s.jobs.Keys && a.s.clk <= t.s.clk
            && (forall x | x in a.s.jobs :: t.s.jobs[x].spec == a.s.jobs[x].spec)
            && (forall x | x in a.s.jobs && x !in ids :: t.s.jobs[x] == a.s.jobs[x])
            && (WellKeyed(a.s) ==> WellKeyed(t.s))
            && (a.changed ==> t.changed)
  {
    if ids != [] {
      var init := ids[..|ids| - 1];
      PassFrame(c, e, ph, a, init);
      TurnFrame(c, e, ph, Pass(c, e, ph, a, init), ids[|ids| - 1]);
    }
  }

  ghost predicate AllPending(jobs: map<string, JobRec>, ids: seq<string>) {
    NoDup(ids) && forall id | id in ids && id in jobs :: jobs[id].status == Pending
  }

  lemma {:induction false} PassTraces(c: Ctx, e: TickEnv, ph: Phase, s0: Sched, a: Acc, ids: seq<string>)
    requires Traces(c, s0, a) && (ph == Launching ==> AllPending(a.s.jobs, ids))
    ensures Traces(c, s0, Pass(c, e, ph, a, ids))
  {
    hide EventFor, Effect, Enabled, Traces;
    if ids != [] {
      var init, id := ids[..|ids| - 1], ids[|ids| - 1];
      assert forall x | x in init :: x in ids;
      PassTraces(c, e, ph, s0, a, init);
      PassFrame(c, e, ph, a, init);
      var before := Pass(c, e, ph, a, init);
      if id in before.s.jobs && EventFor(c, e, ph, before.s, id).Some? {
        assert id in ids;
        EventEnabled(c, e, ph, before.s, id);
        AddTraces(c, s0, before, EventFor(c, e, ph, before.s, id).value);
      }
    }
  }

  lemma {:induction false} SkipRoundsTrace(c: Ctx, e: TickEnv, s0: Sched, a: Acc)
    requires Traces(c, s0, a)
    ensures Traces(c, s0, SkipRounds(c, e, a))
    decreases |PendingIds(a.s.jobs)|
  {
    var round := Pass(c, e, Skipping, a.(changed := false), a.s.order);
    PassTraces(c, e, Skipping, s0, a.(changed := false), a.s.order);
    if round.changed {
      SkipRoundShrinks(c, e, a.(changed := false), a.s.order);
      SkipRoundsTrace(c, e, s0, round);
    }
  }

  lemma {:induction false} SkipRoundsFrame(c: Ctx, e: TickEnv, a: Acc)
    ensures var t := SkipRounds(c, e, a);
            && t.s.order == a.s.order && t.s.jobs.Keys == a.s.jobs.Keys && a.s.clk <= t.s.clk
            && (forall x | x in a.s.jobs :: t.s.jobs[x].spec == a.s.jobs[x].spec)
            && (WellKeyed(a.s) ==> WellKeyed(t.s))
            && (a.changed ==> t.changed)
    decreases |PendingIds(a.s.jobs)|
  {
    var round := Pass(c, e, Skipping, a.(changed := false), a.s.order);
    PassFrame(c, e, Skipping, a.(changed := false), a.s.order);
    if round.changed {
      SkipRoundShrinks(c, e, a.(changed := false), a.s.order);
      SkipRoundsFrame(c, e, round);
    }
  }

  // ---- launch order -----------------------------------------------------------------

  lemma {:induction false} PendingKeysIn(order: seq<string>, jobs: map<string, JobRec>)
    requires NoDup(order)
    ensures forall k :: k in PendingKeys(order, jobs) <==>
                        k.id in order && k.id in jobs && jobs[k.id].status == Pending && k.priority == jobs[k.id].spec.priority
    ensures NoDup(PendingKeys(order, jobs))
  {
    if order != [] {
      var init, id := order[..|order| - 1], order[|order| - 1];
      PendingKeysIn(init, jobs);
      assert order == init + [id];
      var before := PendingKeys(init, jobs);
      forall k | 0 <= k < |before| ensures before[k].id != id {
        assert before[k] in before;
      }
    }
  }

  lemma KeysOfPending(s: Sched)
    requires WellKeyed(s)
    ensures InOrder(SortKeys(PendingKeys(s.order, s.jobs)))
    ensures forall k :: k in SortKeys(PendingKeys(s.order, s.jobs)) <==>
                        k.id in s.jobs && s.jobs[k.id].status == Pending && k.priority == s.jobs[k.id].spec.priority
  {
    PendingKeysIn(s.order, s.jobs);
    SortKeysFacts(PendingKeys(s.order, s.jobs));
  }

  /** The launch order lists every pending job once. */
  lemma LaunchOrderFacts(s: Sched)
    requires WellKeyed(s)
    ensures AllPending(s.jobs, LaunchOrder(s))
    ensures forall id :: id in LaunchOrder(s) <==> id in PendingIds(s.jobs)
  {
    KeysOfPending(s);
    var keys := SortKeys(PendingKeys(s.order, s.jobs));
    var ids := LaunchOrder(s);
    forall i, j | 0 <= i < j < |ids| ensures ids[i] != ids[j] {
      assert keys[i] in keys && keys[j] in keys;
    }
    forall id ensures id in ids <==> id in PendingIds(s.jobs) {
      if id in ids {
        var k :| 0 <= k < |ids| && ids[k] == id;
        assert keys[k] in keys;
      }
      if id in PendingIds(s.jobs) {
        var key := Key(s.jobs[id].spec.priority, id);
        assert key in keys;
        var k :| 0 <= k < |keys| && keys[k] == key;
        assert ids[k] == id;
      }
    }
  }

  /** Lower priority numbers come first, and equal ones by id. */
  lemma LowerPriorityFirst(s: Sched, i: nat, j: nat)
    requires WellKeyed(s) && i < j < |LaunchOrder(s)|
    ensures var a, b := LaunchOrder(s)[i], LaunchOrder(s)[j];
            && a in s.jobs && b in s.jobs && a != b
            && s.jobs[a].spec.priority <= s.jobs[b].spec.priority
            && (s.jobs[a].spec.priority == s.jobs[b].spec.priority ==> a <= b || exists k :: SmallerAt(a, b, k))
  {
    hide SortKeys, PendingKeys;
    KeysOfPending(s);
    LaunchOrderFacts(s);
    var keys := SortKeys(PendingKeys(s.order, s.jobs));
    assert keys[i] in keys && keys[j] in keys;
    TextLeMeaning(keys[i].id, keys[j].id);
  }

  // ---- ticks --------------------------------------------------------------------------

  lemma TickTraces(c: Ctx, e: TickEnv, s0: Sched, a: Acc)
    requires Traces(c, s0, a) && WellKeyed(a.s)
    ensures Traces(c, s0, Tick(c, e, a)) && WellKeyed(Tick(c, e, a).s)
    ensures Tick(c, e, a).s.order == a.s.order && Tick(c, e, a).s.jobs.Keys == a.s.jobs.Keys
  {
    var r := Pass(c, e, Reaping, a, a.s.order);
    PassTraces(c, e, Reaping, s0, a, a.s.order);
    PassFrame(c, e, Reaping, a, a.s.order);
    var m := SkipRounds(c, e, r);
    SkipRoundsTrace(c, e, s0, r);
    SkipRoundsFrame(c, e, r);
    LaunchOrderFacts(m.s);
    PassTraces(c, e, Launching, s0, m, LaunchOrder(m.s));
    PassFrame(c, e, Launching, m, LaunchOrder(m.s));
  }

  lemma SaveTraces(c: Ctx, s0: Sched, a: Acc)
    requires Traces(c, s0, a)
    ensures Traces(c, s0, Save(c, a)) && (WellKeyed(a.s) ==> WellKeyed(Save(c, a).s))
    ensures Save(c, a).s == a.s.(clk := a.s.clk + 1, disk := Disk(Some(SnapshotOf(a.s.order, a.s.jobs)), NoTmp))
  {
    AddTraces(c, s0, a, OpenTmp);
    AddTraces(c, s0, Add(c, a, OpenTmp), WriteTmp);
    AddTraces(c, s0, Add(c, Add(c, a, OpenTmp), WriteTmp), Replace);
  }

  /** Any number of iterations of the main loop is a run. */
  lemma {:induction false} LoopTraces(c: Ctx, world: nat -> TickEnv, s0: Sched, a: Acc, n: nat)
    requires Traces(c, s0, a) && WellKeyed(a.s)
    ensures Traces(c, s0, Loop(c, world, a, n)) && WellKeyed(Loop(c, world, a, n).s)
    ensures Loop(c, world, a, n).s.order == a.s.order && Loop(c, world, a, n).s.jobs.Keys == a.s.jobs.Keys
  {
    hide Tick, Save, ValidRun, Exec, WellKeyed;
    if n > 0 {
      LoopTraces(c, world, s0, a, n - 1);
      var b := Loop(c, world, a, n - 1).(changed := false);
      TickTraces(c, world(n - 1), s0, b);
      SaveTraces(c, s0, Tick(c, world(n - 1), b));
    }
  }

  lemma StartupTraces(c: Ctx, e: TickEnv, s: Sched)
    requires WellKeyed(s)
    ensures Traces(c, s, Startup(c, e, s)) && WellKeyed(Startup(c, e, s).s)
    ensures Startup(c, e, s).s.order == s.order && Startup(c, e, s).s.jobs.Keys == s.jobs.Keys
  {
    var a := Acc(s, false, []);
    PassTraces(c, e, Burying, s, a, s.order);
    PassFrame(c, e, Burying, a, s.order);
    SaveTraces(c, s, Pass(c, e, Burying, a, s.order));
  }
}
