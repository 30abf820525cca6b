/** The JSON state file as a durable store: nodepilot/state.py. */
module StateFile {
  import opened Wrappers
  import opened Jobs
  import opened Scheduler
  import opened Durability

  class StateStore {
    var target: Option<Snapshot>
    var tmp: TmpFile

    constructor (d: Disk)
      ensures Contents() == d
    {
      target, tmp := d.target, d.tmp;
    }

    function Contents(): Disk
      reads this
    {
      Disk(target, tmp)
    }

    /** `save_state`: the temporary file is created, filled, and then renamed over the target in one step.
        `steps` lists what the disk holds after each of them. */
    method SaveState(snap: Snapshot, clock: Clock) returns (ghost steps: seq<Disk>)
      modifies this, clock
      ensures Contents() == Disk(Some(snap), NoTmp)
      ensures clock.taken == old(clock.taken) + 1
      ensures steps == [Disk(old(target), Torn), Disk(old(target), Whole(snap)), Contents()]
    {
      var savedAt := clock.Now();
      tmp := Torn;
      steps := [Contents()];
      tmp := Whole(snap);
      steps := steps + [Contents()];
      target, tmp := Some(snap), NoTmp;
      steps := steps + [Contents()];
    }

    /** `state_exists`, then `load_state` or the queue file. */
    method Load(c: Ctx) returns (snap: Snapshot)
      ensures snap == Durable(c, Contents())
    {
      if target.Some? {
        snap := target.value;
      } else {
        snap := c.queue;
      }
    }
  }

  /** The disk states `SaveState` goes through are those of the three save events, and every crash between
      them leaves the whole old or the whole new list. */
  lemma SaveStepsAreEvents(c: Ctx, a: Acc, k: nat)
    requires k < 3
    ensures var d, snap := a.s.disk, SnapshotOf(a.s.order, a.s.jobs);
            var steps := [Disk(d.target, Torn), Disk(d.target, Whole(snap)), Disk(Some(snap), NoTmp)];
            && Exec(c, a.s, [OpenTmp, WriteTmp, Replace][..k + 1]).disk == steps[k]
            && Durable(c, steps[k]) == if k == 2 then snap else Durable(c, d)
  {
    hide SnapshotOf;
    var one, two, log := [OpenTmp], [OpenTmp, WriteTmp], [OpenTmp, WriteTmp, Replace];
    assert log[..1] == one && log[..2] == two && log[..3] == log;
    RunSnoc(c, a.s, [], OpenTmp);
    RunSnoc(c, a.s, one, WriteTmp);
    RunSnoc(c, a.s, two, Replace);
    assert [] + [OpenTmp] == one && one + [WriteTmp] == two && two + [Replace] == log;
  }
}
