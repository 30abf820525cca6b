/** The records of nodepilot/config.py: jobs, their states, and the scheduler's tunables. */
module Jobs {
  import opened Wrappers

  datatype Status = Pending | Running | Done | Failed | Skipped | Dormant

  /** How a started job is tracked: `pid:<n>`, `tmux:<name>`, or not at all. */
  datatype Session = Untracked | Pid(pid: int) | Tmux(name: string)

  datatype Reason =
    | NoReason
    | OomKilled
    | KilledSignal
    | SignalDeath(signo: int)
    | ExitCode(code: int)
    | LaunchError(message: string)
    | DependencyFailed(dep: string)
    | DependencyUnknown(dep: string)
    | ZombieAtRestart
    | KilledByUser

  /** The fields the scheduler only reads. */
  datatype JobSpec = JobSpec(
    id: string, cores: int, ramGb: real, maxcore: int, nprocs: int,
    dependsOn: seq<string>, priority: int, exclusive: bool)
  {
    function EffectiveNprocs(): int {
      if nprocs > 0 then nprocs else cores
    }
  }

  /** A job as it is written to a state file. */
  datatype JobRec = JobRec(
    spec: JobSpec, status: Status, session: Session, cpuList: string, numaNode: int,
    startTime: real, endTime: real, reason: Reason, exitCode: Option<int>)
  {
    predicate IsTerminal() {
      status == Done || status == Failed || status == Skipped
    }
  }

  datatype Config = Config(
    maxConcurrent: int, ramBudgetGb: real, coreBudget: int, ramSafetyGb: real,
    interleaveThresholdGb: real, memorySlice: string, oomCooldownSeconds: real,
    tmux: bool, pauseFile: string)

  ghost predicate NoDup<T>(s: seq<T>) {
    forall i, j | 0 <= i < j < |s| :: s[i] != s[j]
  }

  /** `_validate_unique_ids`; the result is the id its `ValueError` names, if it raises one. */
  method ValidateUniqueIds(ids: seq<string>) returns (duplicate: Option<string>)
    ensures duplicate.None? <==> NoDup(ids)
    ensures duplicate.Some? ==>
              exists k :: 0 <= k < |ids| && ids[k] == duplicate.value && duplicate.value in ids[..k] && NoDup(ids[..k])
  {
    var seen: set<string> := {};
    for k := 0 to |ids|
      invariant NoDup(ids[..k])
      invariant forall id :: id in seen <==> id in ids[..k]
    {
      if ids[k] in seen {
        return Some(ids[k]);
      }
      assert ids[..k + 1] == ids[..k] + [ids[k]];
      seen := seen + {ids[k]};
    }
    assert ids[..|ids|] == ids;
    duplicate := None;
  }

  /** A live job: the request is fixed, the runtime fields are assigned in place. */
  class Job {
    const spec: JobSpec
    var status: Status
    var session: Session
    var cpuList: string
    var numaNode: int
    var startTime: real
    var endTime: real
    var reason: Reason
    var exitCode: Option<int>

    constructor (r: JobRec)
      ensures Rec() == r
    {
      spec := r.spec;
      status, session, cpuList, numaNode := r.status, r.session, r.cpuList, r.numaNode;
      startTime, endTime, reason, exitCode := r.startTime, r.endTime, r.reason, r.exitCode;
    }

    function Rec(): JobRec
      reads this
    {
      JobRec(spec, status, session, cpuList, numaNode, startTime, endTime, reason, exitCode)
    }
  }

  /** The wall clock: an unbounded list of readings, taken one after the other. */
  class Clock {
    const reading: nat -> real
    var taken: nat

    constructor (reading: nat -> real, taken: nat)
      ensures this.reading == reading && this.taken == taken
    {
      this.reading, this.taken := reading, taken;
    }

    method Now() returns (t: real)
      modifies this
      ensures t == reading(old(taken)) && taken == old(taken) + 1
    {
      t := reading(taken);
      taken := taken + 1;
    }
  }

  // ---- launch order: (priority, id) ---------------------------------------

  predicate TextLe(a: string, b: string) {
    a == "" || (b != "" && (a[0] < b[0] || (a[0] == b[0] && TextLe(a[1..], b[1..]))))
  }

  /** `k` is the first position at which the texts differ, and `a` has the smaller character there. */
  ghost predicate SmallerAt(a: string, b: string, k: nat) {
    k < |a| && k < |b| && a[..k] == b[..k] && a[k] < b[k]
  }

  /** Text is compared character by character: a prefix comes first, else the first difference decides. */
  lemma {:induction false} TextLeMeaning(a: string, b: string)
    ensures TextLe(a, b) <==> a <= b || exists k :: SmallerAt(a, b, k)
  {
    if a != "" && b != "" {
      var a', b' := a[1..], b[1..];
      assert a == [a[0]] + a' && b == [b[0]] + b';
      if a[0] < b[0] {
        assert SmallerAt(a, b, 0);
      } else if a[0] == b[0] {
        TextLeMeaning(a', b');
        forall k: nat ensures SmallerAt(a', b', k) <==> SmallerAt(a, b, k + 1) {
          PrefixTail(a, b, k);
        }
        assert !SmallerAt(a, b, 0);
        if k: nat :| SmallerAt(a, b, k) { assert SmallerAt(a', b', k - 1); }
        assert a <= b <==> a' <= b';
      } else {
        forall k: nat ensures !SmallerAt(a, b, k) {
          if k > 0 && k <= |a| && k <= |b| { assert a[..k][0] == a[0] && b[..k][0] == b[0]; }
        }
      }
    }
  }

  lemma PrefixTail(a: string, b: string, k: nat)
    requires a != "" && b != "" && a[0] == b[0]
    ensures k < |a| - 1 && k < |b| - 1 ==> (a[1..][..k] == b[1..][..k] <==> a[..k + 1] == b[..k + 1])
  {
    if k < |a| - 1 && k < |b| - 1 {
      assert a[..k + 1] == [a[0]] + a[1..][..k] && b[..k + 1] == [b[0]] + b[1..][..k];
      assert a[..k + 1][1..] == a[1..][..k] && b[..k + 1][1..] == b[1..][..k];
    }
  }

  lemma {:induction false} TextLeTotal(a: string, b: string)
    ensures TextLe(a, b) || TextLe(b, a)
    ensures TextLe(a, b) && TextLe(b, a) ==> a == b
  {
    if a != "" && b != "" && a[0] == b[0] {
      TextLeTotal(a[1..], b[1..]);
      assert a == [a[0]] + a[1..] && b == [b[0]] + b[1..];
    }
  }

  lemma {:induction false} TextLeTransitive(a: string, b: string, c: string)
    requires TextLe(a, b) && TextLe(b, c)
    ensures TextLe(a, c)
  {
    if a != "" && a[0] == b[0] == c[0] { TextLeTransitive(a[1..], b[1..], c[1..]); }
  }

  datatype Key = Key(priority: int, id: string)

  predicate KeyLe(a: Key, b: Key) {
    a.priority < b.priority || (a.priority == b.priority && TextLe(a.id, b.id))
  }

  lemma KeyLeOrder(a: Key, b: Key, c: Key)
    ensures KeyLe(a, b) || KeyLe(b, a)
    ensures KeyLe(a, b) && KeyLe(b, a) ==> a == b
    ensures KeyLe(a, b) && KeyLe(b, c) ==> KeyLe(a, c)
  {
    TextLeTotal(a.id, b.id);
    if KeyLe(a, b) && KeyLe(b, c) && a.priority == b.priority == c.priority { TextLeTransitive(a.id, b.id, c.id); }
  }

  function InsertKey(keys: seq<Key>, k: Key): seq<Key> {
    if keys == [] || KeyLe(k, keys[0]) then [k] + keys else [keys[0]] + InsertKey(keys[1..], k)
  }

  /** `sorted(..., key=lambda j: (j.priority, j.id))` */
  function SortKeys(keys: seq<Key>): seq<Key> {
    if keys == [] then [] else InsertKey(SortKeys(keys[..|keys| - 1]), keys[|keys| - 1])
  }

  /** Strictly ascending. */
  ghost predicate InOrder(keys: seq<Key>) {
    forall i, j | 0 <= i < j < |keys| :: KeyLe(keys[i], keys[j]) && keys[i] != keys[j]
  }

  lemma {:induction false} InsertKeyFacts(keys: seq<Key>, k: Key)
    requires InOrder(keys) && k !in keys
    ensures InOrder(InsertKey(keys, k))
    ensures forall x :: x in InsertKey(keys, k) <==> x in keys || x == k
  {
    if keys != [] {
      KeyLeOrder(k, keys[0], keys[0]);
      if KeyLe(k, keys[0]) {
        forall j | 0 <= j < |keys| ensures KeyLe(k, keys[j]) {
          KeyLeOrder(k, keys[0], keys[j]);
        }
      } else {
        InsertKeyFacts(keys[1..], k);
        var rest := InsertKey(keys[1..], k);
        forall j | 0 <= j < |rest| ensures KeyLe(keys[0], rest[j]) && keys[0] != rest[j] {
          assert rest[j] in rest;
        }
      }
    }
  }

  lemma {:induction false} SortKeysFacts(keys: seq<Key>)
    requires NoDup(keys)
    ensures InOrder(SortKeys(keys))
    ensures forall x :: x in SortKeys(keys) <==> x in keys
  {
    if keys != [] {
      var init, k := keys[..|keys| - 1], keys[|keys| - 1];
      SortKeysFacts(init);
      assert keys == init + [k];
      InsertKeyFacts(SortKeys(init), k);
    }
  }

  /** Two ascending key lists with the same elements are the same list. */
  lemma {:induction false} InOrderUnique(a: seq<Key>, b: seq<Key>)
    requires InOrder(a) && InOrder(b)
    requires forall k :: k in a <==> k in b
    ensures a == b
    decreases |a|
  {
    assert a != [] ==> a[0] in a;
    assert b != [] ==> b[0] in b;
    if a != [] && b != [] {
      assert a[0] in b && b[0] in a;
      KeyLeOrder(a[0], b[0], b[0]);
      assert a == [a[0]] + a[1..] && b == [b[0]] + b[1..];
      forall k ensures k in a[1..] <==> k in b[1..] {
        assert k in a[1..] ==> k in a && k != a[0];
        assert k in b[1..] ==> k in b && k != b[0];
      }
      InOrderUnique(a[1..], b[1..]);
    }
  }
}
