/** Priority non-interference: in a launch pass, jobs with larger keys and the order of the job list have no
    influence on which jobs with smaller keys start, nor on which cores. */
module Priority {
  import opened Jobs
  import opened Admission
  import opened Runner
  import opened Scheduler
  import opened Runs
  import opened Safety

  ghost predicate FewerJobs(s: map<string, JobRec>, t: map<string, JobRec>) {
    && (forall id | id in t :: id in s && t[id] == s[id])
    && (forall id | id in s && id !in t :: s[id].status == Pending)
  }

  /** `t` is `s` with some pending jobs deleted and the list in any order. */
  ghost predicate Fewer(s: Sched, t: Sched) {
    && WellKeyed(s) && WellKeyed(t)
    && FewerJobs(s.jobs, t.jobs)
    && t.procs == s.procs && t.cooldownUntil == s.cooldownUntil && t.clk == s.clk
  }

  lemma SameLoad(s: Sched, t: Sched)
    requires Fewer(s, t)
    ensures Total(s.order, s.jobs) == Total(t.order, t.jobs)
  {
    var a, b := RunningIds(s.order, s.jobs), RunningIds(t.order, t.jobs);
    forall id ensures id in a <==> id in b {
      assert id in a <==> IsRunning(s.jobs, id);
      assert id in b <==> IsRunning(t.jobs, id);
    }
    SameSets(a, b);
    TotalAgrees(s.order, s.jobs, t.order, t.jobs);
  }

  lemma SameSets<T>(a: set<T>, b: set<T>)
    requires forall x :: x in a <==> x in b
    ensures a == b
  {
  }

  lemma SameOccupied(reserved: set<nat>, s: Sched, t: Sched)
    requires Fewer(s, t)
    ensures OccupiedBy(reserved, s.order, s.jobs) == OccupiedBy(reserved, t.order, t.jobs)
  {
    OccupiedWithin(reserved, s, t);
    OccupiedWithin(reserved, t, s);
  }

  lemma SameDeps(s: Sched, t: Sched, deps: seq<string>)
    requires Fewer(s, t)
    ensures DepsSatisfied(s.jobs, deps) == DepsSatisfied(t.jobs, deps)
  {
    assert forall d :: IsDone(s.jobs, d) == IsDone(t.jobs, d);
  }

  lemma SameEvent(c: Ctx, e: TickEnv, s: Sched, t: Sched, id: string)
    requires Fewer(s, t) && id in t.jobs
    ensures EventFor(c, e, Launching, s, id) == EventFor(c, e, Launching, t, id)
  {
    SameLoad(s, t);
    SameOccupied(c.reserved, s, t);
    SameDeps(s, t, t.jobs[id].spec.dependsOn);
  }

  lemma EffectTogether(c: Ctx, s: Sched, t: Sched, ev: Event)
    requires Fewer(s, t) && (ev.Defer? || (ev.On? && ev.id in t.jobs))
    ensures Fewer(Effect(c, s, ev), Effect(c, t, ev))
  {
    if ev.On? {
      StaysKeyed(c, s, ev);
      StaysKeyed(c, t, ev);
      UpdateTogether(s.jobs, t.jobs, ev.id, NewRec(c, s.clk, t.jobs[ev.id], ev.act));
      ActTogether(c, s, t, ev.id, ev.act);
    }
  }

  lemma ActTogether(c: Ctx, s: Sched, t: Sched, id: string, act: Act)
    requires id in s.jobs && id in t.jobs && s.jobs[id] == t.jobs[id]
    requires t.procs == s.procs && t.cooldownUntil == s.cooldownUntil && t.clk == s.clk
    ensures var u, v := AfterAct(c, s, id, act), AfterAct(c, t, id, act);
            v.procs == u.procs && v.cooldownUntil == u.cooldownUntil && v.clk == u.clk
  {
  }

  lemma StaysKeyed(c: Ctx, s: Sched, ev: Event)
    requires WellKeyed(s)
    ensures WellKeyed(Effect(c, s, ev))
  {
    EffectFrame(c, s, ev);
  }

  lemma UpdateTogether(s: map<string, JobRec>, t: map<string, JobRec>, id: string, j: JobRec)
    requires FewerJobs(s, t) && id in t
    ensures FewerJobs(s[id := j], t[id := j])
  {
  }

  lemma StepTogether(c: Ctx, e: TickEnv, a: Acc, b: Acc, id: string)
    requires Fewer(a.s, b.s) && id in b.s.jobs
    ensures Fewer(Turn(c, e, Launching, a, id).s, Turn(c, e, Launching, b, id).s)
  {
    SameEvent(c, e, a.s, b.s, id);
    var ev := EventFor(c, e, Launching, a.s, id);
    if ev.Some? {
      EventKinds(c, e, Launching, a.s, id);
      EffectTogether(c, a.s, b.s, ev.value);
    }
  }

  lemma {:induction false} PassTogether(c: Ctx, e: TickEnv, a: Acc, b: Acc, ids: seq<string>)
    requires Fewer(a.s, b.s) && forall id | id in ids :: id in b.s.jobs
    ensures Fewer(Pass(c, e, Launching, a, ids).s, Pass(c, e, Launching, b, ids).s)
  {
    if ids != [] {
      var init, id := ids[..|ids| - 1], ids[|ids| - 1];
      assert ids == init + [id];
      PassTogether(c, e, a, b, init);
      PassFrame(c, e, Launching, b, init);
      StepTogether(c, e, Pass(c, e, Launching, a, init), Pass(c, e, Launching, b, init), id);
    }
  }

  lemma {:induction false} PassAppend(c: Ctx, e: TickEnv, ph: Phase, a: Acc, x: seq<string>, y: seq<string>)
    ensures Pass(c, e, ph, a, x + y) == Pass(c, e, ph, Pass(c, e, ph, a, x), y)
  {
    if y == [] {
      assert x + y == x;
    } else {
      assert (x + y)[..|x + y| - 1] == x + y[..|y| - 1];
      PassAppend(c, e, ph, a, x, y[..|y| - 1]);
    }
  }

  // ---- the common prefix of the launch orders -----------------------------------------

  lemma {:induction false} CutAt(keys: seq<Key>, bound: Key) returns (m: nat)
    requires InOrder(keys)
    ensures m <= |keys|
    ensures forall k | k in keys[..m] :: KeyLe(k, bound)
    ensures forall k | k in keys[m..] :: !KeyLe(k, bound)
  {
    m := 0;
    while m < |keys| && KeyLe(keys[m], bound)
      invariant m <= |keys|
      invariant forall j | 0 <= j < m :: KeyLe(keys[j], bound)
    {
      m := m + 1;
    }
    if m < |keys| {
      forall j | m <= j < |keys| ensures !KeyLe(keys[j], bound) {
        KeyLeOrder(keys[m], keys[j], bound);
      }
    }
  }

  ghost function KeyOf(s: Sched, id: string): Key
    requires id in s.jobs
  {
    Key(s.jobs[id].spec.priority, id)
  }

  lemma LowKeys(s: Sched, t: Sched, bound: Key, ks: seq<Key>, kt: seq<Key>)
    requires Fewer(s, t) && forall id | id in s.jobs && id !in t.jobs :: !KeyLe(KeyOf(s, id), bound)
    requires ks == SortKeys(PendingKeys(s.order, s.jobs)) && kt == SortKeys(PendingKeys(t.order, t.jobs))
    ensures InOrder(ks) && InOrder(kt)
    ensures forall k :: k in ks ==> k.id in s.jobs && s.jobs[k.id].status == Pending && KeyOf(s, k.id) == k
    ensures forall k :: k in kt ==> k.id in t.jobs && t.jobs[k.id].status == Pending && KeyOf(t, k.id) == k
    ensures forall k | KeyLe(k, bound) :: k in ks <==> k in kt
  {
    KeysOfPending(s);
    KeysOfPending(t);
  }

  lemma SameHead(ks: seq<Key>, kt: seq<Key>, bound: Key, m: nat, n: nat)
    requires InOrder(ks) && InOrder(kt) && m <= |ks| && n <= |kt|
    requires forall k | KeyLe(k, bound) :: k in ks <==> k in kt
    requires forall k | k in ks[..m] :: KeyLe(k, bound)
    requires forall k | k in kt[..n] :: KeyLe(k, bound)
    requires forall k | k in ks[m..] :: !KeyLe(k, bound)
    requires forall k | k in kt[n..] :: !KeyLe(k, bound)
    ensures ks[..m] == kt[..n]
  {
    SplitMember(ks, m);
    SplitMember(kt, n);
    InOrderUnique(ks[..m], kt[..n]);
  }

  ghost predicate AllAbove(s: Sched, ids: seq<string>, bound: Key) {
    forall id | id in ids && id in s.jobs :: s.jobs[id].status == Pending && !KeyLe(KeyOf(s, id), bound)
  }

  lemma HighIds(s: Sched, keys: seq<Key>, m: nat, bound: Key)
    requires m <= |keys| && forall k | k in keys[m..] :: !KeyLe(k, bound)
    requires forall k :: k in keys ==> k.id in s.jobs && s.jobs[k.id].status == Pending && KeyOf(s, k.id) == k
    ensures AllAbove(s, IdsOf(keys[m..]), bound)
    ensures forall id | id in IdsOf(keys[..m]) :: id in s.jobs
  {
    SplitMember(keys, m);
    IdsMembers(keys[m..]);
    IdsMembers(keys[..m]);
  }

  /** The launch orders of a queue and of one with some later-keyed jobs deleted start alike, with exactly
      the jobs up to the bound. */
  lemma CommonPrefix(s: Sched, t: Sched, bound: Key) returns (low: seq<string>, highS: seq<string>, highT: seq<string>)
    requires Fewer(s, t) && forall id | id in s.jobs && id !in t.jobs :: !KeyLe(KeyOf(s, id), bound)
    ensures LaunchOrder(s) == low + highS && LaunchOrder(t) == low + highT
    ensures forall id | id in low :: id in t.jobs
    ensures AllAbove(s, highS, bound) && AllAbove(t, highT, bound)
  {
    var ks, kt := SortKeys(PendingKeys(s.order, s.jobs)), SortKeys(PendingKeys(t.order, t.jobs));
    LowKeys(s, t, bound, ks, kt);
    var m := CutAt(ks, bound);
    var n := CutAt(kt, bound);
    SameHead(ks, kt, bound, m, n);
    low, highS, highT := IdsOf(ks[..m]), IdsOf(ks[m..]), IdsOf(kt[n..]);
    IdsSplit(ks, m);
    IdsSplit(kt, n);
    HighIds(s, ks, m, bound);
    HighIds(t, kt, n, bound);
  }

  lemma SplitMember(keys: seq<Key>, m: nat)
    requires m <= |keys|
    ensures forall k :: k in keys <==> k in keys[..m] || k in keys[m..]
  {
    assert keys == keys[..m] + keys[m..];
  }

  lemma IdsSplit(keys: seq<Key>, m: nat)
    requires m <= |keys|
    ensures IdsOf(keys) == IdsOf(keys[..m]) + IdsOf(keys[m..])
  {
  }

  lemma IdsMembers(keys: seq<Key>)
    ensures forall id | id in IdsOf(keys) :: exists k :: k in keys && k.id == id
  {
    forall id | id in IdsOf(keys) ensures exists k :: k in keys && k.id == id {
      var i :| 0 <= i < |keys| && IdsOf(keys)[i] == id;
      assert keys[i] in keys;
    }
  }

  /** Delete any pending jobs with keys above a bound and list the rest in any order: one launch pass, with
      the same readings, treats every job up to the bound exactly as before, down to its cores and times. */
  lemma PriorityNonInterference(c: Ctx, e: TickEnv, a: Acc, b: Acc, bound: Key)
    requires Fewer(a.s, b.s) && forall id | id in a.s.jobs && id !in b.s.jobs :: !KeyLe(KeyOf(a.s, id), bound)
    ensures forall id | id in b.s.jobs && (b.s.jobs[id].status != Pending || KeyLe(KeyOf(b.s, id), bound)) ::
              && id in LaunchPass(c, e, a).s.jobs && id in LaunchPass(c, e, b).s.jobs
              && LaunchPass(c, e, a).s.jobs[id] == LaunchPass(c, e, b).s.jobs[id]
  {
    var low, highA, highB := CommonPrefix(a.s, b.s, bound);
    PassAppend(c, e, Launching, a, low, highA);
    PassAppend(c, e, Launching, b, low, highB);
    var a1, b1 := Pass(c, e, Launching, a, low), Pass(c, e, Launching, b, low);
    PassTogether(c, e, a, b, low);
    PassFrame(c, e, Launching, a, low);
    PassFrame(c, e, Launching, b, low);
    PassFrame(c, e, Launching, a1, highA);
    PassFrame(c, e, Launching, b1, highB);
    forall id | id in b.s.jobs && (b.s.jobs[id].status != Pending || KeyLe(KeyOf(b.s, id), bound))
      ensures id !in highA && id !in highB
    {
    }
  }
}
