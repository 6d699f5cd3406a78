/**
 * The running program as a step machine: a clock, the four scheduler slots, the published
 * status, the persistence callback, the intent on disk, and any number of API calls that
 * take several sections to complete.
 *
 * A label names one atomic step.  A label that is not enabled leaves the state as it is, so
 * every sequence of labels is a run and every interleaving is a sequence of labels.
 */
module Machine {
  import opened Basics
  import opened Slots

  /** The published flag and time of one slot. */
  datatype Cell = Cell(on: bool, at: Option<int>)
  const OFF := Cell(false, None)

  /** A call of Cancel or ResetAll: slots still to cancel, then perhaps a reset of the status. */
  datatype Api = Api(todo: seq<SlotId>, reset: bool, note: Note)

  datatype System = System(
    now: int, stopped: bool, restartIvl: Range, lockIvl: Range,
    slots: Four<Slot>, status: Four<Cell>, connected: bool, disk: Option<Intent>,
    apis: seq<Api>)
  {
    ghost predicate Wf() {
      forall id: SlotId :: slots.Get(id).Wf()
    }

    function Ivl(id: SlotId): Range {
      if id == RestartSchedule || id == RestartOnce then restartIvl else lockIvl
    }

    function Flags(): Intent {
      Intent(status.restartSchedule.on, status.lockSchedule.on)
    }
  }

  datatype Label =
    | Tick(d: nat)
    | Ask(id: SlotId)                                 // Start*Schedule, *Once
    | BeginCancel(todo: seq<SlotId>)                  // Stop*, Cancel*, Cancel
    | BeginReset                                      // ResetAll
    | CancelNext(t: nat)
    | ResetStatus(t: nat)
    | ApiNotify(t: nat)
    | ApiWrite(t: nat, outcome: Outcome)
    | SetIntervals(restart: Range, lock: Range)
    | Disconnect                                      // SetOnChange(nil)
    | StopAll                                         // Scheduler.Stop
    | Do(id: SlotId, k: nat, act: Act)

  const RESET_ORDER: seq<SlotId> := [RestartSchedule, LockSchedule, RestartOnce, LockOnce]

  function Load(disk: Option<Intent>): Intent {
    if disk.Some? then disk.value else Intent(false, false)
  }

  function Boot(now: int, restartIvl: Range, lockIvl: Range, disk: Option<Intent>): (s: System)
    ensures s.Wf()
  {
    System(now, false, restartIvl, lockIvl,
           Four(EMPTY_SLOT, EMPTY_SLOT, EMPTY_SLOT, EMPTY_SLOT), Four(OFF, OFF, OFF, OFF),
           true, disk, [])
  }

  ghost predicate Enabled(s: System, l: Label) {
    match l
    case CancelNext(t) => t < |s.apis| && s.apis[t].todo != []
    case ResetStatus(t) => t < |s.apis| && s.apis[t].todo == [] && s.apis[t].reset && s.apis[t].note == Idle
    case ApiNotify(t) => t < |s.apis| && s.apis[t].note.Pending?
    case ApiWrite(t, _) => t < |s.apis| && s.apis[t].note.Writing?
    case Do(id, k, act) =>
      k < |s.slots.Get(id).workers| && CanAct(s.slots.Get(id).workers[k], s.now, s.stopped, act)
    case _ => true
  }

  function Snapshot(s: System): Note {
    if s.connected then Writing(s.Flags()) else Idle
  }

  function DiskAfter(disk: Option<Intent>, intent: Intent, outcome: Outcome): Option<Intent> {
    match outcome
    case Saved => Some(intent)
    case Kept => disk
    case Torn => None   // an interrupted write leaves a file that loads as the zero intent
  }

  /** The note a worker holds after a step. */
  function NoteAfter(s: System, id: SlotId, w: Worker, act: Act): (note: Note)
    ensures NoteFits(w, act, note)
  {
    match act
    case PublishOn => if id.Kind() == Schedule && !s.status.Get(id).on then Pending else Idle
    case PublishOff => if id.Kind() == Schedule && s.status.Get(id).on then Pending else Idle
    case Notify => Snapshot(s)
    case Write(_) => Idle
    case _ => w.note
  }

  function StepWorker(s: System, id: SlotId, k: nat, act: Act): (r: System)
    requires s.Wf() && k < |s.slots.Get(id).workers|
    ensures r.Wf()
  {
    var slot := s.slots.Get(id);
    var w := slot.workers[k];
    s.(slots := s.slots.Put(id, Work(slot, id.Kind(), s.now, s.stopped, s.Ivl(id), k, act, NoteAfter(s, id, w, act))),
       status := match act
                 case PublishOn => s.status.Put(id, Cell(true, Some(w.next)))
                 case PublishOff => s.status.Put(id, OFF)
                 case _ => s.status,
       disk := if act.Write? && w.note.Writing? then DiskAfter(s.disk, w.note.intent, act.outcome) else s.disk)
  }

  /** RestartOnce and LockOnce publish inside the section that sets the handle. */
  function StepAsk(s: System, id: SlotId): (r: System)
    requires s.Wf()
    ensures r.Wf()
  {
    var slot := s.slots.Get(id);
    s.(slots := s.slots.Put(id, Request(slot, id.Kind(), s.now)),
       status := if id.Kind() == OneShot && slot.handle.None?
                 then s.status.Put(id, Cell(true, Some(s.now + MINUTE))) else s.status)
  }

  function StepCancel(s: System, t: nat): (r: System)
    requires s.Wf() && t < |s.apis| && s.apis[t].todo != []
    ensures r.Wf()
  {
    var id := s.apis[t].todo[0];
    s.(slots := s.slots.Put(id, Cancel(s.slots.Get(id))),
       apis := s.apis[t := s.apis[t].(todo := s.apis[t].todo[1..])])
  }

  function StepReset(s: System, t: nat): (r: System)
    requires s.Wf() && t < |s.apis|
    ensures r.Wf()
  {
    var had := s.status.restartSchedule.on || s.status.lockSchedule.on;
    s.(status := Four(OFF, OFF, OFF, OFF),
       apis := s.apis[t := s.apis[t].(reset := false, note := if had then Pending else Idle)])
  }

  ghost function Step(s: System, l: Label): (r: System)
    requires s.Wf()
    ensures r.Wf()
  {
    if !Enabled(s, l) then s else
    match l
    case Tick(d) => s.(now := s.now + d)
    case Ask(id) => StepAsk(s, id)
    case BeginCancel(todo) => s.(apis := s.apis + [Api(todo, false, Idle)])
    case BeginReset => s.(apis := s.apis + [Api(RESET_ORDER, true, Idle)])
    case CancelNext(t) => StepCancel(s, t)
    case ResetStatus(t) => StepReset(s, t)
    case ApiNotify(t) => s.(apis := s.apis[t := s.apis[t].(note := Snapshot(s))])
    case ApiWrite(t, outcome) =>
      s.(apis := s.apis[t := s.apis[t].(note := Idle)],
         disk := DiskAfter(s.disk, s.apis[t].note.intent, outcome))
    case SetIntervals(restart, lock) => s.(restartIvl := restart, lockIvl := lock)
    case Disconnect => s.(connected := false)
    case StopAll => s.(stopped := true)
    case Do(id, k, act) => StepWorker(s, id, k, act)
  }

  ghost function Exec(s: System, ls: seq<Label>): (r: System)
    requires s.Wf()
    ensures r.Wf()
  {
    if ls == [] then s else Step(Exec(s, ls[..|ls| - 1]), ls[|ls| - 1])
  }

  lemma {:induction false} ExecConcat(s: System, a: seq<Label>, b: seq<Label>)
    requires s.Wf()
    ensures Exec(s, a + b) == Exec(Exec(s, a), b)
  {
    if b == [] {
      assert a + b == a;
    } else {
      var n := |b| - 1;
      assert (a + b)[..|a + b| - 1] == a + b[..n];
      ExecConcat(s, a, b[..n]);
    }
  }

  ghost predicate Reaches(s: System, r: System)
    requires s.Wf()
  {
    exists ls :: r == Exec(s, ls)
  }

  lemma ReachesStep(s: System, l: Label)
    requires s.Wf()
    ensures Reaches(s, Step(s, l))
  {
    assert [l][..0] == [];
    assert Step(s, l) == Exec(s, [l]);
  }

  lemma ReachesTransitive(s: System, t: System, r: System)
    requires s.Wf() && Reaches(s, t) && t.Wf() && Reaches(t, r)
    ensures Reaches(s, r)
  {
    var a :| t == Exec(s, a);
    var b :| r == Exec(t, b);
    ExecConcat(s, a, b);
  }

  /** What a step does to one slot. */
  ghost function SlotAfter(s: System, l: Label, id: SlotId): Slot
    requires s.Wf()
  {
    var slot := s.slots.Get(id);
    if !Enabled(s, l) then slot
    else if l.Do? && l.id == id then
      Work(slot, id.Kind(), s.now, s.stopped, s.Ivl(id), l.k, l.act, NoteAfter(s, id, slot.workers[l.k], l.act))
    else if l == Ask(id) then Request(slot, id.Kind(), s.now)
    else if l.CancelNext? && s.apis[l.t].todo[0] == id then Cancel(slot)
    else slot
  }

  lemma StepSlot(s: System, l: Label, id: SlotId)
    requires s.Wf()
    ensures Step(s, l).slots.Get(id) == SlotAfter(s, l, id)
  {
  }

  /** What a step does to the published cell of one slot. */
  ghost function CellAfter(s: System, l: Label, id: SlotId): Cell
    requires s.Wf()
  {
    var cell := s.status.Get(id);
    if !Enabled(s, l) then cell
    else if l.Do? && l.id == id then
      match l.act
      case PublishOn => Cell(true, Some(s.slots.Get(id).workers[l.k].next))
      case PublishOff => OFF
      case _ => cell
    else if l == Ask(id) && id.Kind() == OneShot && s.slots.Get(id).handle.None? then Cell(true, Some(s.now + MINUTE))
    else if l.ResetStatus? then OFF
    else cell
  }

  lemma StepCell(s: System, l: Label, id: SlotId)
    requires s.Wf()
    ensures Step(s, l).status.Get(id) == CellAfter(s, l, id)
  {
    if Enabled(s, l) && l.Do? {
      WorkerCell(s, l.id, l.k, l.act, id);
    }
  }

  lemma WorkerCell(s: System, i: SlotId, k: nat, act: Act, id: SlotId)
    requires s.Wf() && k < |s.slots.Get(i).workers|
    ensures StepWorker(s, i, k, act).status.Get(id)
            == if id == i && act.PublishOn? then Cell(true, Some(s.slots.Get(i).workers[k].next))
               else if id == i && act.PublishOff? then OFF else s.status.Get(id)
  {
  }
}
