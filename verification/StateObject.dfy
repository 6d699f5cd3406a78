/**
 * The published state as an object: its setters, the change callback and the file the
 * callback writes.  Every method runs here without interruption; the step machine cuts the
 * same methods into their locked sections.
 */
module StateObject {
  import opened Basics
  import opened Slots
  import opened Machine

  /** The state file; a missing or unreadable file is None and loads as the zero intent. */
  class StateFile {
    var content: Option<Intent>

    constructor (content: Option<Intent>)
      ensures this.content == content
    {
      this.content := content;
    }

    method SaveIntent(intent: Intent, outcome: Outcome)
      modifies this
      ensures content == DiskAfter(old(content), intent, outcome)
      ensures outcome == Saved ==> content == Some(intent)
      ensures outcome == Kept ==> content == old(content)
      ensures outcome == Torn ==> content == None
    {
      match outcome {
        case Saved => content := Some(intent);
        case Kept =>
        case Torn => content := None;
      }
    }

    method LoadIntent() returns (intent: Intent)
      ensures intent == Load(content)
      ensures content == None ==> intent == Intent(false, false)
      ensures content.Some? ==> intent == content.value
    {
      if content.Some? {
        intent := content.value;
      } else {
        intent := Intent(false, false);
      }
    }
  }

  class State {
    const dryRun: bool
    var restartScheduleOn: bool
    var restartNextAt: Option<int>
    var restartPendingOnce: bool
    var restartOnceAt: Option<int>
    var lockScheduleOn: bool
    var lockNextAt: Option<int>
    var lockPendingOnce: bool
    var lockOnceAt: Option<int>
    var onChange: StateFile?   // the callback saves every intent it is given to this file

    constructor (dryRun: bool)
      ensures this.dryRun == dryRun && Board() == Four(OFF, OFF, OFF, OFF) && onChange == null
    {
      this.dryRun := dryRun;
      restartScheduleOn, restartPendingOnce, lockScheduleOn, lockPendingOnce := false, false, false, false;
      restartNextAt, restartOnceAt, lockNextAt, lockOnceAt := None, None, None, None;
      onChange := null;
    }

    ghost function Board(): Four<Cell>
      reads this
    {
      Four(Cell(restartScheduleOn, restartNextAt), Cell(restartPendingOnce, restartOnceAt),
           Cell(lockScheduleOn, lockNextAt), Cell(lockPendingOnce, lockOnceAt))
    }

    function CurrentIntent(): Intent
      reads this
    {
      Intent(restartScheduleOn, lockScheduleOn)
    }

    method SetOnChange(fn: StateFile?)
      modifies this
      ensures onChange == fn && Board() == old(Board())
    {
      onChange := fn;
    }

    method NotifyChange(outcome: Outcome)
      modifies onChange
      ensures onChange != null ==>
                onChange.content
                == DiskAfter(old(onChange.content), Intent(Board().restartSchedule.on, Board().lockSchedule.on), outcome)
    {
      var fn := onChange;
      var intent := CurrentIntent();
      if fn != null {
        fn.SaveIntent(intent, outcome);
      }
    }

    method Status() returns (board: Four<Cell>)
      ensures board == Board()
    {
      board := Four(Cell(restartScheduleOn, restartNextAt), Cell(restartPendingOnce, restartOnceAt),
                    Cell(lockScheduleOn, lockNextAt), Cell(lockPendingOnce, lockOnceAt));
    }

    method SetRestartSchedule(on: bool, next: Option<int>, outcome: Outcome)
      modifies this, onChange
      ensures Board() == old(Board()).Put(RestartSchedule, Cell(on, next)) && onChange == old(onChange)
      ensures onChange != null ==>
                onChange.content == if on != old(restartScheduleOn)
                                    then DiskAfter(old(onChange.content), Intent(on, old(lockScheduleOn)), outcome)
                                    else old(onChange.content)
    {
      var prev := restartScheduleOn;
      restartScheduleOn := on;
      restartNextAt := next;
      if on != prev {
        NotifyChange(outcome);
      }
    }

    method SetRestartOnce(pending: bool, at: Option<int>)
      modifies this
      ensures Board() == old(Board()).Put(RestartOnce, Cell(pending, at)) && onChange == old(onChange)
    {
      restartPendingOnce := pending;
      restartOnceAt := at;
    }

    method SetLockSchedule(on: bool, next: Option<int>, outcome: Outcome)
      modifies this, onChange
      ensures Board() == old(Board()).Put(LockSchedule, Cell(on, next)) && onChange == old(onChange)
      ensures onChange != null ==>
                onChange.content == if on != old(lockScheduleOn)
                                    then DiskAfter(old(onChange.content), Intent(old(restartScheduleOn), on), outcome)
                                    else old(onChange.content)
    {
      var prev := lockScheduleOn;
      lockScheduleOn := on;
      lockNextAt := next;
      if on != prev {
        NotifyChange(outcome);
      }
    }

    method SetLockOnce(pending: bool, at: Option<int>)
      modifies this
      ensures Board() == old(Board()).Put(LockOnce, Cell(pending, at)) && onChange == old(onChange)
    {
      lockPendingOnce := pending;
      lockOnceAt := at;
    }

    method Reset(outcome: Outcome)
      modifies this, onChange
      ensures Board() == Four(OFF, OFF, OFF, OFF) && onChange == old(onChange)
      ensures onChange != null ==>
                onChange.content == if old(restartScheduleOn || lockScheduleOn)
                                    then DiskAfter(old(onChange.content), Intent(false, false), outcome)
                                    else old(onChange.content)
    {
      var hadSchedules := restartScheduleOn || lockScheduleOn;
      restartScheduleOn, restartNextAt := false, None;
      restartPendingOnce, restartOnceAt := false, None;
      lockScheduleOn, lockNextAt := false, None;
      lockPendingOnce, lockOnceAt := false, None;
      if hadSchedules {
        NotifyChange(outcome);
      }
    }
  }

  /** What an uninterrupted schedule setter does to status and disk. */
  function SetterEffect(s: System, id: SlotId, cell: Cell, outcome: Outcome): (Four<Cell>, Option<Intent>) {
    var status := s.status.Put(id, cell);
    (status,
     if cell.on != s.status.Get(id).on && s.connected
     then DiskAfter(s.disk, Intent(status.restartSchedule.on, status.lockSchedule.on), outcome)
     else s.disk)
  }

  lemma PublishSection(s: System, id: SlotId, k: nat, on: bool)
    requires s.Wf() && id.Kind() == Schedule
    requires Enabled(s, Do(id, k, if on then PublishOn else PublishOff))
    ensures var t := Step(s, Do(id, k, if on then PublishOn else PublishOff));
            && t.status == s.status.Put(id, if on then Cell(true, Some(s.slots.Get(id).workers[k].next)) else OFF)
            && t.disk == s.disk && t.connected == s.connected
            && k < |t.slots.Get(id).workers|
            && t.slots.Get(id).workers[k].note == if on != s.status.Get(id).on then Pending else Idle
  {
  }

  lemma NotifySection(t: System, id: SlotId, k: nat)
    requires t.Wf() && k < |t.slots.Get(id).workers| && !t.slots.Get(id).workers[k].note.Writing?
    ensures var u := Step(t, Do(id, k, Notify));
            && u.status == t.status && u.disk == t.disk
            && k < |u.slots.Get(id).workers|
            && u.slots.Get(id).workers[k].note == if t.slots.Get(id).workers[k].note == Pending then Snapshot(t) else Idle
  {
  }

  lemma WriteSection(u: System, id: SlotId, k: nat, outcome: Outcome)
    requires u.Wf() && k < |u.slots.Get(id).workers| && !u.slots.Get(id).workers[k].note.Pending?
    ensures var r := Step(u, Do(id, k, Write(outcome)));
            var note := u.slots.Get(id).workers[k].note;
            && r.status == u.status && r.disk == (if note.Writing? then DiskAfter(u.disk, note.intent, outcome) else u.disk)
            && k < |r.slots.Get(id).workers| && r.slots.Get(id).workers[k].note == Idle
  {
  }

  /**
   * The machine's sections of a worker's setter call, run back to back, have exactly the effect
   * of the whole method.
   */
  lemma SectionsMakeTheSetter(s: System, id: SlotId, k: nat, on: bool, outcome: Outcome, t: System, u: System, r: System)
    requires s.Wf() && id.Kind() == Schedule
    requires Enabled(s, Do(id, k, if on then PublishOn else PublishOff))
    requires t == Step(s, Do(id, k, if on then PublishOn else PublishOff))
    requires u == Step(t, Do(id, k, Notify)) && r == Step(u, Do(id, k, Write(outcome)))
    ensures var cell := if on then Cell(true, Some(s.slots.Get(id).workers[k].next)) else OFF;
            (r.status, r.disk) == SetterEffect(s, id, cell, outcome)
  {
    PublishSection(s, id, k, on);
    NotifySection(t, id, k);
    WriteSection(u, id, k, outcome);
  }

  // ---- the calls of several sections

  /** A call's cancel sections, run back to back. */
  ghost function CancelAll(s: System, t: nat, n: nat): (r: System)
    requires s.Wf()
    ensures r.Wf()
  {
    if n == 0 then s else Step(CancelAll(s, t, n - 1), CancelNext(t))
  }

  lemma {:induction false} CancelAllDone(s: System, t: nat, n: nat)
    requires s.Wf() && t < |s.apis| && n <= |s.apis[t].todo|
    ensures var r := CancelAll(s, t, n);
            && |r.apis| == |s.apis| && r.apis[t] == s.apis[t].(todo := s.apis[t].todo[n..])
            && r.status == s.status && r.disk == s.disk && r.connected == s.connected && r.stopped == s.stopped
            && (forall id: SlotId :: r.slots.Get(id)
                  == if id in s.apis[t].todo[..n] then Slots.Cancel(s.slots.Get(id)) else s.slots.Get(id))
    decreases n
  {
    if n > 0 {
      CancelAllDone(s, t, n - 1);
      CancelOneMore(s, CancelAll(s, t, n - 1), t, n - 1);
    }
  }

  lemma CancelTwice(slot: Slot)
    requires slot.Wf()
    ensures Slots.Cancel(Slots.Cancel(slot)) == Slots.Cancel(slot)
  {
  }

  lemma CancelOneMore(s: System, r: System, t: nat, n: nat)
    requires s.Wf() && t < |s.apis| && n < |s.apis[t].todo|
    requires r.Wf() && |r.apis| == |s.apis| && r.apis[t] == s.apis[t].(todo := s.apis[t].todo[n..])
    requires forall id: SlotId :: r.slots.Get(id)
               == if id in s.apis[t].todo[..n] then Slots.Cancel(s.slots.Get(id)) else s.slots.Get(id)
    ensures var u := Step(r, CancelNext(t));
            && |u.apis| == |r.apis| && u.apis[t] == s.apis[t].(todo := s.apis[t].todo[n + 1..])
            && u.status == r.status && u.disk == r.disk && u.connected == r.connected && u.stopped == r.stopped
            && (forall id: SlotId :: u.slots.Get(id)
                  == if id in s.apis[t].todo[..n + 1] then Slots.Cancel(s.slots.Get(id)) else s.slots.Get(id))
  {
    var todo := s.apis[t].todo;
    assert todo[..n + 1] == todo[..n] + [todo[n]];
    assert todo[n..][0] == todo[n] && todo[n..][1..] == todo[n + 1..];
    forall id: SlotId
      ensures Step(r, CancelNext(t)).slots.Get(id)
              == if id in todo[..n + 1] then Slots.Cancel(s.slots.Get(id)) else s.slots.Get(id)
    {
      StepSlot(r, CancelNext(t), id);
      CancelTwice(s.slots.Get(id));
    }
  }

  /** An uninterrupted Cancel or Stop call cancels exactly the slots it names, and publishes nothing itself. */
  lemma SectionsMakeTheCancel(s: System, todo: seq<SlotId>, t: System, r: System)
    requires s.Wf() && t == Step(s, BeginCancel(todo)) && r == CancelAll(t, |s.apis|, |todo|)
    ensures |r.apis| == |s.apis| + 1 && r.apis[|s.apis|] == Api([], false, Idle)
    ensures r.status == s.status && r.disk == s.disk
    ensures forall id: SlotId :: r.slots.Get(id) == if id in todo then Slots.Cancel(s.slots.Get(id)) else s.slots.Get(id)
  {
    assert t.apis[|s.apis|] == Api(todo, false, Idle) && t.slots == s.slots;
    CancelAllDone(t, |s.apis|, |todo|);
    assert todo[..|todo|] == todo && todo[|todo|..] == [];
  }

  /**
   * An uninterrupted ResetAll cancels every slot and turns every flag off, and the disk gets the
   * empty intent exactly if a schedule flag had been on and the callback is installed.
   */
  lemma SectionsMakeTheReset(s: System, outcome: Outcome, t: System, u: System, v: System, r: System)
    requires s.Wf() && t == CancelAll(Step(s, BeginReset), |s.apis|, 4)
    requires u == Step(t, ResetStatus(|s.apis|)) && v == Step(u, ApiNotify(|s.apis|)) && r == Step(v, ApiWrite(|s.apis|, outcome))
    ensures forall id: SlotId :: t.slots.Get(id) == Slots.Cancel(s.slots.Get(id))
    ensures u.slots == t.slots && u.status == Four(OFF, OFF, OFF, OFF)
    ensures r.slots == t.slots && r.status == u.status
    ensures r.disk == if s.connected && (s.status.restartSchedule.on || s.status.lockSchedule.on)
                      then DiskAfter(s.disk, Intent(false, false), outcome) else s.disk
  {
    CancelAllDone(Step(s, BeginReset), |s.apis|, 4);
    assert RESET_ORDER[..4] == RESET_ORDER && RESET_ORDER[4..] == [];
    forall id: SlotId ensures t.slots.Get(id) == Slots.Cancel(s.slots.Get(id)) {
      assert id in RESET_ORDER;
    }
  }
}
