/**
 * Which intents reach the disk.  Shutdown first removes the callback and then cancels the
 * scheduler, so that the flags the dying workers clear are never persisted.
 */
module IntentOnDisk {
  import opened Basics
  import opened Slots
  import opened Machine

  /** The order both entry points follow: the scheduler is stopped only once the callback is gone. */
  ghost predicate ShutdownOrder(s: System, ls: seq<Label>)
    requires s.Wf()
  {
    ls != [] ==>
      && ShutdownOrder(s, ls[..|ls| - 1])
      && (ls[|ls| - 1] == StopAll ==> !Exec(s, ls[..|ls| - 1]).connected)
  }

  /** Both flags as they stood together at a moment of the run before any shutdown. */
  ghost predicate HeldBefore(s: System, ls: seq<Label>, intent: Intent)
    requires s.Wf()
  {
    exists j :: 0 <= j <= |ls| && FlagsWhileConnected(Exec(s, ls[..j]), intent)
  }

  ghost predicate FlagsWhileConnected(t: System, intent: Intent) {
    t.connected && !t.stopped && intent == t.Flags()
  }

  /** The goroutines that can owe a notification: workers and callers. */
  datatype Owner = OfWorker(id: SlotId, k: nat) | OfCall(t: nat)

  function NoteAt(s: System, o: Owner): Note {
    match o
    case OfWorker(id, k) => if k < |s.slots.Get(id).workers| then s.slots.Get(id).workers[k].note else Idle
    case OfCall(t) => if t < |s.apis| then s.apis[t].note else Idle
  }

  /** The goroutine that takes a step. */
  function Actor(l: Label): Option<Owner> {
    match l
    case Do(id, k, _) => Some(OfWorker(id, k))
    case CancelNext(t) => Some(OfCall(t))
    case ResetStatus(t) => Some(OfCall(t))
    case ApiNotify(t) => Some(OfCall(t))
    case ApiWrite(t, _) => Some(OfCall(t))
    case _ => None
  }

  /** Some goroutine is about to write this intent. */
  ghost predicate InFlight(s: System, intent: Intent) {
    exists o: Owner :: NoteAt(s, o) == Writing(intent)
  }

  ghost predicate Quiet(s: System) {
    forall o: Owner :: !NoteAt(s, o).Writing?
  }

  lemma HeldLonger(s: System, ls: seq<Label>, intent: Intent)
    requires s.Wf() && ls != [] && HeldBefore(s, ls[..|ls| - 1], intent)
    ensures HeldBefore(s, ls, intent)
  {
    var front := ls[..|ls| - 1];
    var j :| 0 <= j <= |front| && FlagsWhileConnected(Exec(s, front[..j]), intent);
    assert ls[..j] == front[..j];
  }

  lemma HeldNow(s: System, ls: seq<Label>)
    requires s.Wf() && Exec(s, ls).connected && !Exec(s, ls).stopped
    ensures HeldBefore(s, ls, Exec(s, ls).Flags())
  {
    assert ls[..|ls|] == ls;
    assert FlagsWhileConnected(Exec(s, ls[..|ls|]), Exec(s, ls).Flags());
  }

  lemma WorkerNotes(s: System, l: Label, id: SlotId, k: nat)
    requires s.Wf() && Actor(l) != Some(OfWorker(id, k))
    ensures NoteAt(Step(s, l), OfWorker(id, k)) == NoteAt(s, OfWorker(id, k))
  {
    StepSlot(s, l, id);
  }

  lemma CallNotes(s: System, l: Label, t: nat)
    requires s.Wf() && Actor(l) != Some(OfCall(t))
    ensures NoteAt(Step(s, l), OfCall(t)) == NoteAt(s, OfCall(t))
  {
  }

  lemma OtherNotes(s: System, l: Label, o: Owner)
    requires s.Wf() && Actor(l) != Some(o)
    ensures NoteAt(Step(s, l), o) == NoteAt(s, o)
  {
    match o
    case OfWorker(id, k) => WorkerNotes(s, l, id, k);
    case OfCall(t) => CallNotes(s, l, t);
  }

  /** The step by which its actor takes its snapshot, or writes it. */
  predicate Notifies(l: Label) { (l.Do? && l.act.Notify?) || l.ApiNotify? }
  predicate Writes(l: Label) { (l.Do? && l.act.Write?) || l.ApiWrite? }

  function OutcomeOf(l: Label): Outcome
    requires Writes(l)
  {
    if l.Do? then l.act.outcome else l.outcome
  }

  lemma WorkerActs(s: System, id: SlotId, k: nat, act: Act, r: System)
    requires s.Wf() && Enabled(s, Do(id, k, act)) && r == Step(s, Do(id, k, act))
    ensures var note, note' := s.slots.Get(id).workers[k].note, NoteAt(r, OfWorker(id, k));
            && (act.Notify? ==> note == Pending && note' == Snapshot(s))
            && (act.Write? ==> note.Writing? && note' == Idle)
            && (!act.Notify? && !act.Write? ==> note == Idle && note' == if r.Flags() != s.Flags() then Pending else Idle)
  {
    StepSlot(s, Do(id, k, act), id);
  }

  /**
   * A goroutine turns a notification it owes into a snapshot of both flags, writes the snapshot
   * it holds, and comes to owe a notification exactly if its step changed a flag.
   */
  lemma ActorNotes(s: System, l: Label, o: Owner, r: System)
    requires s.Wf() && Enabled(s, l) && Actor(l) == Some(o) && r == Step(s, l)
    ensures Notifies(l) ==> NoteAt(s, o) == Pending && NoteAt(r, o) == Snapshot(s)
    ensures Writes(l) ==> NoteAt(s, o).Writing? && NoteAt(r, o) == Idle
    ensures !Notifies(l) && !Writes(l) ==>
              NoteAt(r, o) == if r.Flags() != s.Flags() then Pending else NoteAt(s, o)
  {
    if l.Do? {
      WorkerActs(s, l.id, l.k, l.act, r);
    }
  }

  lemma OnlyActorsChangeFlags(s: System, l: Label, r: System)
    requires s.Wf() && r == Step(s, l) && r.Flags() != s.Flags()
    ensures Enabled(s, l) && Actor(l).Some? && !Notifies(l) && !Writes(l) && r.disk == s.disk
  {
  }

  lemma StepWrites(s: System, l: Label, r: System)
    requires s.Wf() && r == Step(s, l)
    ensures Enabled(s, l) && Writes(l) ==>
              var note := NoteAt(s, Actor(l).value);
              note.Writing? && r.disk == DiskAfter(s.disk, note.intent, OutcomeOf(l))
    ensures !(Enabled(s, l) && Writes(l)) ==> r.disk == s.disk
  {
  }

  /** An intent comes into flight only as a snapshot, and onto the disk only out of flight. */
  lemma StepFlight(s: System, l: Label, intent: Intent)
    requires s.Wf()
    ensures InFlight(Step(s, l), intent) ==> InFlight(s, intent) || (s.connected && intent == s.Flags())
  {
    var r := Step(s, l);
    if o :| NoteAt(r, o) == Writing(intent) {
      if Enabled(s, l) && Actor(l) == Some(o) {
        ActorNotes(s, l, o, r);
      } else if Actor(l) != Some(o) {
        OtherNotes(s, l, o);
      }
    }
  }

  lemma StepDisk(s: System, l: Label)
    requires s.Wf()
    ensures var d := Step(s, l).disk;
            d == s.disk || exists intent: Intent :: InFlight(s, intent) && (d == None || d == Some(intent))
  {
    StepWrites(s, l, Step(s, l));
    if Enabled(s, l) && Writes(l) {
      assert InFlight(s, NoteAt(s, Actor(l).value).intent);
    }
  }

  lemma StepConnection(s: System, l: Label)
    requires s.Wf()
    ensures Step(s, l).connected ==> s.connected
    ensures Step(s, l).stopped ==> s.stopped || l == StopAll
    ensures l == StopAll ==> Step(s, l).connected == s.connected
  {
  }

  /**
   * Along any run that respects the shutdown order, every intent on its way to disk, and the
   * disk itself if it was written, is a snapshot of both flags taken while the callback was
   * installed and the scheduler was running; a write that lands after the callback was removed
   * is no exception.  (The disk holds nothing readable after a torn write.)
   */
  lemma {:induction false} OnlyLiveSnapshotsReachDisk(s: System, ls: seq<Label>)
    requires s.Wf() && ShutdownOrder(s, ls) && !s.stopped
    requires Quiet(s)
    ensures var r := Exec(s, ls);
            && (r.connected ==> !r.stopped)
            && (forall intent: Intent :: InFlight(r, intent) ==> HeldBefore(s, ls, intent))
            && (r.disk == s.disk || r.disk == None || HeldBefore(s, ls, r.disk.value))
  {
    if ls != [] {
      var front := ls[..|ls| - 1];
      var l := ls[|ls| - 1];
      OnlyLiveSnapshotsReachDisk(s, front);
      var t := Exec(s, front);
      StepConnection(t, l);
      StepDisk(t, l);
      if t.connected {
        HeldNow(s, front);
      }
      forall intent: Intent | HeldBefore(s, front, intent) ensures HeldBefore(s, ls, intent) {
        HeldLonger(s, ls, intent);
      }
      forall intent: Intent | InFlight(Step(t, l), intent) ensures HeldBefore(s, ls, intent) {
        StepFlight(t, l, intent);
      }
    }
  }

  lemma QuietStays(s: System, l: Label)
    requires s.Wf() && Quiet(s) && !s.connected
    ensures Quiet(Step(s, l))
  {
    forall o: Owner ensures !NoteAt(Step(s, l), o).Writing? {
      if NoteAt(Step(s, l), o).Writing? {
        StepFlight(s, l, NoteAt(Step(s, l), o).intent);
      }
    }
  }

  /** Once the callback is gone and no write is in flight, nothing whatsoever changes the disk. */
  lemma {:induction false} DisconnectedDiskStays(s: System, ls: seq<Label>)
    requires s.Wf() && !s.connected && Quiet(s)
    ensures Exec(s, ls).disk == s.disk && !Exec(s, ls).connected && Quiet(Exec(s, ls))
  {
    if ls != [] {
      var t := Exec(s, ls[..|ls| - 1]);
      var l := ls[|ls| - 1];
      DisconnectedDiskStays(s, ls[..|ls| - 1]);
      StepConnection(t, l);
      StepDisk(t, l);
      QuietStays(t, l);
    }
  }
}
