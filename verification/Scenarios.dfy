/**
 * Concrete runs that show why the hypotheses of the main results are needed: without polite
 * callers the status can lie, with the shutdown order reversed the intent is lost, with
 * overlapping notifications a stale intent can stay on disk, and with a zero interval a
 * cancelled worker can go on firing.
 */
module Scenarios {
  import opened Basics
  import opened Slots
  import opened Machine
  import opened Safety
  import opened PublishedStatus
  import opened IntentOnDisk
  import opened DiskSettles
  import opened BootCycles

  /** Everything of a state that no step of slot `id` touches. */
  ghost predicate SameElsewhere(s: System, r: System, id: SlotId) {
    && r.now == s.now && r.stopped == s.stopped && r.connected == s.connected && r.apis == s.apis
    && r.restartIvl == s.restartIvl && r.lockIvl == s.lockIvl
    && forall j: SlotId :: j != id ==> r.slots.Get(j) == s.slots.Get(j) && r.status.Get(j) == s.status.Get(j)
  }

  /** A step of worker `k`, told by what it leaves behind. */
  lemma Acts(s: System, id: SlotId, k: nat, act: Act) returns (r: System)
    requires s.Wf() && k < |s.slots.Get(id).workers| && CanAct(s.slots.Get(id).workers[k], s.now, s.stopped, act)
    ensures r.Wf() && Reaches(s, r) && SameElsewhere(s, r, id)
    ensures r.slots.Get(id) == Work(s.slots.Get(id), id.Kind(), s.now, s.stopped, s.Ivl(id), k, act,
                                    NoteAfter(s, id, s.slots.Get(id).workers[k], act))
    ensures r.status.Get(id) == match act
                                case PublishOn => Cell(true, Some(s.slots.Get(id).workers[k].next))
                                case PublishOff => OFF
                                case _ => s.status.Get(id)
    ensures r.disk == if act.Write? then DiskAfter(s.disk, s.slots.Get(id).workers[k].note.intent, act.outcome) else s.disk
  {
    r := Step(s, Do(id, k, act));
    ReachesStep(s, Do(id, k, act));
  }

  /** The first worker of a schedule reads the range, draws its minimum and announces itself. */
  lemma DrawsAndPublishes(s: System, id: SlotId) returns (r: System)
    requires s.Wf() && id.Kind() == Schedule && |s.slots.Get(id).workers| > 0
    requires s.slots.Get(id).workers[0].pc == Loop && s.slots.Get(id).workers[0].note == Idle
    ensures r.Wf() && Reaches(s, r) && SameElsewhere(s, r, id) && r.disk == s.disk && r.status.Get(id).on
    ensures r.slots.Get(id).handle == s.slots.Get(id).handle && |r.slots.Get(id).workers| == |s.slots.Get(id).workers|
    ensures var w := s.slots.Get(id).workers[0];
            var w' := r.slots.Get(id).workers[0];
            && w'.pc == Arm && w'.wait == s.Ivl(id).min * MINUTE && w'.shots == w.shots && w'.cancelled == w.cancelled
            && w'.note == if s.status.Get(id).on then Idle else Pending
  {
    var t := Draws(s, id);
    r := Acts(t, id, 0, PublishOn);
    ReachesTransitive(s, t, r);
  }

  lemma Draws(s: System, id: SlotId) returns (r: System)
    requires s.Wf() && |s.slots.Get(id).workers| > 0
    requires s.slots.Get(id).workers[0].pc == Loop && s.slots.Get(id).workers[0].note == Idle
    ensures r.Wf() && Reaches(s, r) && SameElsewhere(s, r, id) && r.disk == s.disk && r.status.Get(id) == s.status.Get(id)
    ensures r.slots.Get(id).handle == s.slots.Get(id).handle && |r.slots.Get(id).workers| == |s.slots.Get(id).workers|
    ensures var w := s.slots.Get(id).workers[0];
            var w' := r.slots.Get(id).workers[0];
            && w'.pc == Publish && w'.wait == s.Ivl(id).min * MINUTE && w'.shots == w.shots && w'.cancelled == w.cancelled
            && w'.note == Idle
  {
    var t := Acts(s, id, 0, ReadInterval);
    assert t.slots.Get(id).workers[0] == s.slots.Get(id).workers[0].(ivl := s.Ivl(id), pc := Rolling);
    r := Acts(t, id, 0, Roll(0));
    ReachesTransitive(s, t, r);
  }

  lemma Starts(s: System, id: SlotId) returns (r: System)
    requires s.Wf()
    ensures r.Wf() && Reaches(s, r) && SameElsewhere(s, r, id) && r.disk == s.disk
    ensures r.slots.Get(id) == Request(s.slots.Get(id), id.Kind(), s.now)
    ensures r.status.Get(id) == if id.Kind() == OneShot && s.slots.Get(id).handle.None?
                                then Cell(true, Some(s.now + MINUTE)) else s.status.Get(id)
  {
    r := Step(s, Ask(id));
    ReachesStep(s, Ask(id));
  }

  lemma Cancels(s: System, id: SlotId) returns (r: System)
    requires s.Wf()
    ensures r.Wf() && Reaches(s, r) && r.status == s.status && r.disk == s.disk
    ensures r.now == s.now && r.stopped == s.stopped && r.connected == s.connected
    ensures r.restartIvl == s.restartIvl && r.lockIvl == s.lockIvl
    ensures r.slots.Get(id) == Slots.Cancel(s.slots.Get(id))
  {
    var t := Step(s, BeginCancel([id]));
    ReachesStep(s, BeginCancel([id]));
    r := Step(t, CancelNext(|s.apis|));
    ReachesStep(t, CancelNext(|s.apis|));
    ReachesTransitive(s, t, r);
  }

  /** A one-shot is cancelled and its worker has passed its exit section. */
  lemma CancelledOneShot(b: System) returns (s: System)
    requires b == Boot(0, Range(5, 15), Range(5, 15), None)
    ensures Reaches(b, s) && s.Wf() && !s.stopped && s.now == 0
    ensures var slot := s.slots.Get(RestartOnce);
            |slot.workers| == 1 && slot.handle == None
            && slot.workers[0].pc == Leaving && slot.workers[0].note == Idle
  {
    var s1 := Starts(b, RestartOnce);
    var s2 := Acts(s1, RestartOnce, 0, EnterSelect);
    ReachesTransitive(b, s1, s2);
    var s3 := Cancels(s2, RestartOnce);
    ReachesTransitive(b, s2, s3);
    var s4 := Acts(s3, RestartOnce, 0, Quit);
    ReachesTransitive(b, s3, s4);
    s := Acts(s4, RestartOnce, 0, CancelSelf);
    ReachesTransitive(b, s4, s);
  }

  /** Before the cancelled worker has cleared the status, a new one-shot is accepted. */
  lemma ImpoliteStart(b: System) returns (s: System)
    requires b == Boot(0, Range(5, 15), Range(5, 15), None)
    ensures Reaches(b, s) && s.Wf() && !s.stopped && s.now == 0
    ensures var slot := s.slots.Get(RestartOnce);
            |slot.workers| == 2 && slot.handle == Some(2)
            && slot.workers[0].pc == Unpublish && slot.workers[0].note == Idle
            && slot.workers[1] == Spawn(OneShot, 2, 0)
  {
    var t := CancelledOneShot(b);
    var t1 := Acts(t, RestartOnce, 0, Leave);
    ReachesTransitive(b, t, t1);
    s := Starts(t1, RestartOnce);
    ReachesTransitive(b, t1, s);
  }

  /**
   * Without polite callers the status can lie for good: a one-shot restart is waiting and every
   * other worker has exited, yet the published flag is off.
   */
  lemma StatusCanLie() returns (s: System)
    ensures Reaches(Boot(0, Range(5, 15), Range(5, 15), None), s)
    ensures Quiescent(s.slots.Get(RestartOnce), s.stopped)
    ensures !ReportsTruth(s.slots.Get(RestartOnce), s.status.Get(RestartOnce), s.stopped)
  {
    var b := Boot(0, Range(5, 15), Range(5, 15), None);
    var t := ImpoliteStart(b);
    s := OldOneTurnsOff(t);
    ReachesTransitive(b, t, s);
  }

  lemma OldOneTurnsOff(t: System) returns (s: System)
    requires t.Wf() && !t.stopped && |t.slots.Get(RestartOnce).workers| == 2
    requires var w := t.slots.Get(RestartOnce).workers[0]; w.pc == Unpublish && w.note == Idle
    requires t.slots.Get(RestartOnce).workers[1] == Spawn(OneShot, 2, 0)
    ensures Reaches(t, s) && Quiescent(s.slots.Get(RestartOnce), s.stopped)
    ensures !ReportsTruth(s.slots.Get(RestartOnce), s.status.Get(RestartOnce), s.stopped)
  {
    var t1 := Acts(t, RestartOnce, 0, PublishOff);
    s := Acts(t1, RestartOnce, 1, EnterSelect);
    ReachesTransitive(t, t1, s);
    assert Live(s.slots.Get(RestartOnce).workers[1], s.stopped);
  }

  // ---- a schedule that was stopped twice and stays on

  /** Worker `k` of the restart schedule has a done context, owes nothing and is at `pc`. */
  ghost predicate At(s: System, k: nat, pc: Pc) {
    && s.Wf() && s.slots.restartSchedule.Wf() && s.connected && s.restartIvl == Range(5, 15)
    && k < |s.slots.restartSchedule.workers|
    && var w := s.slots.restartSchedule.workers[k]; Cancelled(w, s.stopped) && w.pc == pc && w.note == Idle
  }

  /** Only worker `k` of the restart schedule has moved. */
  ghost predicate Alone(s: System, r: System, k: nat) {
    && r.Wf() && r.slots.restartSchedule.Wf()
    && r.connected == s.connected && r.restartIvl == s.restartIvl && r.stopped == s.stopped
    && |r.slots.restartSchedule.workers| == |s.slots.restartSchedule.workers|
    && forall j :: 0 <= j < |s.slots.restartSchedule.workers| && j != k ==>
         r.slots.restartSchedule.workers[j] == s.slots.restartSchedule.workers[j]
  }

  lemma AloneOn(s: System, t: System, r: System, k: nat)
    requires s.Wf() && t.Wf() && Reaches(s, t) && Reaches(t, r) && Alone(s, t, k) && Alone(t, r, k)
    ensures Reaches(s, r) && Alone(s, r, k)
  {
    ReachesTransitive(s, t, r);
  }

  function FlagsAfter(flags: Intent, act: Act): Intent {
    match act
    case PublishOn => flags.(restart := true)
    case PublishOff => flags.(restart := false)
    case _ => flags
  }

  lemma RestartActs(s: System, k: nat, act: Act) returns (r: System)
    requires s.Wf() && k < |s.slots.restartSchedule.workers|
    requires CanAct(s.slots.restartSchedule.workers[k], s.now, s.stopped, act)
    ensures Reaches(s, r) && Alone(s, r, k) && r.now == s.now && r.Flags() == FlagsAfter(s.Flags(), act)
    ensures var w := s.slots.restartSchedule.workers[k];
            && r.slots.restartSchedule.workers[k]
               == Advance(w, Schedule, s.now, s.stopped, s.restartIvl, s.slots.restartSchedule.gen == w.gen, act)
                  .(note := NoteAfter(s, RestartSchedule, w, act))
            && r.disk == if act.Write? then DiskAfter(s.disk, w.note.intent, act.outcome) else s.disk
  {
    r := Acts(s, RestartSchedule, k, act);
    assert r.slots.Get(RestartSchedule) == r.slots.restartSchedule;
    assert r.status.Get(RestartSchedule) == r.status.restartSchedule;
    assert r.status.Get(LockSchedule) == s.status.Get(LockSchedule);
  }

  /** A worker that owes a notification takes its snapshot and saves it. */
  lemma Saves(s: System, k: nat) returns (r: System)
    requires s.Wf() && s.connected && k < |s.slots.restartSchedule.workers| && s.slots.restartSchedule.workers[k].note.Pending?
    ensures Reaches(s, r) && Alone(s, r, k) && r.Flags() == s.Flags() && r.disk == Some(s.Flags())
    ensures r.slots.restartSchedule.workers[k] == s.slots.restartSchedule.workers[k].(note := Idle)
  {
    var t := RestartActs(s, k, Notify);
    r := RestartActs(t, k, Write(Saved));
    AloneOn(s, t, r, k);
  }

  lemma AnnouncesLate(s: System, k: nat) returns (r: System)
    requires At(s, k, Loop) && !s.Flags().restart
    ensures Reaches(s, r) && Alone(s, r, k) && r.Flags() == s.Flags().(restart := true)
    ensures var w := r.slots.restartSchedule.workers[k];
            Cancelled(w, r.stopped) && w.pc == Arm && w.wait == 5 * MINUTE && w.note == Pending
  {
    var t := RestartActs(s, k, ReadInterval);
    var u := RestartActs(t, k, Roll(0));
    AloneOn(s, t, u, k);
    r := RestartActs(u, k, PublishOn);
    AloneOn(s, u, r, k);
  }

  lemma SavesAndLeaves(s: System, k: nat) returns (r: System)
    requires At(s, k, Loop) && !s.Flags().restart
    ensures Reaches(s, r) && Alone(s, r, k) && At(r, k, Leaving)
    ensures r.Flags() == s.Flags().(restart := true) && r.disk == Some(r.Flags())
  {
    var t := AnnouncesLate(s, k);
    var u := Saves(t, k);
    AloneOn(s, t, u, k);
    r := RestartActs(u, k, EnterSelect);
    AloneOn(s, u, r, k);
  }

  /** The latest worker also publishes its end and saves it. */
  lemma LeavesAsLatest(s: System, k: nat) returns (r: System)
    requires At(s, k, Leaving) && k + 1 == |s.slots.restartSchedule.workers| && s.Flags().restart
    ensures Reaches(s, r) && Alone(s, r, k) && At(r, k, Done)
    ensures r.Flags() == s.Flags().(restart := false) && r.disk == Some(r.Flags())
  {
    var t := RestartActs(s, k, Leave);
    var u := RestartActs(t, k, PublishOff);
    AloneOn(s, t, u, k);
    r := Saves(u, k);
    AloneOn(s, u, r, k);
  }

  lemma StartedAndStoppedTwice(b: System) returns (s: System)
    requires b == Boot(0, Range(5, 15), Range(5, 15), None)
    ensures Reaches(b, s) && |s.slots.restartSchedule.workers| == 2 && At(s, 0, Loop) && At(s, 1, Loop)
    ensures s.Flags() == NOTHING
  {
    var s1 := Starts(b, RestartSchedule);
    SameCells(s1.status, b.status);
    var s2 := Cancels(s1, RestartSchedule);
    ReachesTransitive(b, s1, s2);
    var s3 := Starts(s2, RestartSchedule);
    ReachesTransitive(b, s2, s3);
    SameCells(s3.status, s2.status);
    s := Cancels(s3, RestartSchedule);
    ReachesTransitive(b, s3, s);
    assert s.slots.Get(RestartSchedule) == s.slots.restartSchedule;
  }

  /**
   * Starting, stopping, starting and stopping the restart schedule, one call after the other,
   * with the first goroutine delayed: every worker has exited and nothing is under way, yet the
   * flag is on and the disk asks the next boot to start the schedule.
   */
  lemma StoppedScheduleComesBack() returns (s: System)
    ensures Reaches(Boot(0, Range(5, 15), Range(5, 15), None), s)
    ensures |s.slots.restartSchedule.workers| == 2 && At(s, 0, Done) && At(s, 1, Done)
    ensures s.Flags() == Intent(true, false) && s.disk == Some(Intent(true, false))
  {
    var b := Boot(0, Range(5, 15), Range(5, 15), None);
    var t := StartedAndStoppedTwice(b);
    var u := SavesAndLeaves(t, 1);
    ReachesTransitive(b, t, u);
    var v := LeavesAsLatest(u, 1);
    ReachesTransitive(b, u, v);
    s := SupersededSaves(v);
    ReachesTransitive(b, v, s);
  }

  /** A superseded worker announces itself, saves the intent and leaves without taking it back. */
  lemma SupersededSaves(s: System) returns (r: System)
    requires At(s, 0, Loop) && |s.slots.restartSchedule.workers| == 2 && s.Flags() == NOTHING
    ensures Reaches(s, r) && Alone(s, r, 0) && At(r, 0, Done)
    ensures r.Flags() == Intent(true, false) && r.disk == Some(Intent(true, false))
  {
    var t := SavesAndLeaves(s, 0);
    r := RestartActs(t, 0, Leave);
    AloneOn(s, t, r, 0);
  }

  /** The only worker of schedule `id` is at the top of its loop and has announced nothing yet. */
  ghost predicate Fresh(s: System, id: SlotId) {
    && s.Wf() && id.Kind() == Schedule && s.connected && s.status.Get(id) == OFF
    && var slot := s.slots.Get(id);
       |slot.workers| == 1 && slot.handle == Some(1) && slot.workers[0].pc == Loop && slot.workers[0].note == Idle
       && !slot.workers[0].cancelled
  }

  /** The only worker of schedule `id` has announced itself and is about to enter select. */
  ghost predicate Announced(s: System, id: SlotId, note: Note) {
    && s.Wf() && id.Kind() == Schedule && s.status.Get(id).on
    && var slot := s.slots.Get(id);
       |slot.workers| == 1 && slot.handle == Some(1) && slot.workers[0].pc == Arm && slot.workers[0].note == note
       && slot.workers[0].wait > 0 && !slot.workers[0].cancelled
  }

  /** The worker announces itself and takes its snapshot, but does not write it yet. */
  lemma Announces(s: System, id: SlotId) returns (r: System)
    requires Fresh(s, id) && s.Ivl(id).min == 5
    ensures Reaches(s, r) && SameElsewhere(s, r, id) && r.disk == s.disk
    ensures Announced(r, id, Writing(r.Flags()))
  {
    var t := DrawsAndPublishes(s, id);
    r := TakesSnapshot(t, id);
    ReachesTransitive(s, t, r);
  }

  lemma TakesSnapshot(s: System, id: SlotId) returns (r: System)
    requires Announced(s, id, Pending) && s.connected
    ensures Reaches(s, r) && SameElsewhere(s, r, id) && r.disk == s.disk
    ensures Announced(r, id, Writing(r.Flags()))
  {
    r := Acts(s, id, 0, Notify);
    SameCells(r.status, s.status);
  }

  lemma SameCells(a: Four<Cell>, b: Four<Cell>)
    requires forall j: SlotId :: a.Get(j) == b.Get(j)
    ensures a == b
  {
    assert a.Get(RestartSchedule) == b.Get(RestartSchedule) && a.Get(RestartOnce) == b.Get(RestartOnce);
    assert a.Get(LockSchedule) == b.Get(LockSchedule) && a.Get(LockOnce) == b.Get(LockOnce);
  }

  /** With the callback still installed, stopping the scheduler erases the saved intent. */
  lemma ReversedOrderLosesIntent() returns (t: System, s: System)
    ensures var b := Boot(0, Range(5, 15), Range(5, 15), None);
            && Reaches(b, t) && t.Wf() && NoNotes(t) && t.disk == Some(Intent(true, false))
            && Reaches(Step(t, StopAll), s) && s.disk == Some(NOTHING)
  {
    var b := Boot(0, Range(5, 15), Range(5, 15), None);
    var s1 := Starts(b, RestartSchedule);
    var s2 := Announces(s1, RestartSchedule);
    ReachesTransitive(b, s1, s2);
    t := Acts(s2, RestartSchedule, 0, Write(Saved));
    ReachesTransitive(b, s2, t);
    assert t.status.Get(LockSchedule) == OFF;
    NotesGone(t);
    s := DyingWorkerWrites(t);
  }

  lemma NotesGone(t: System)
    requires t.apis == []
    requires forall k :: 0 <= k < |t.slots.Get(RestartSchedule).workers| ==> t.slots.Get(RestartSchedule).workers[k].note == Idle
    requires forall id: SlotId :: id != RestartSchedule ==> t.slots.Get(id).workers == []
    ensures NoNotes(t)
  {
  }

  lemma DyingWorkerWrites(t: System) returns (s: System)
    requires Announced(t, RestartSchedule, Idle) && t.connected && t.status.Get(LockSchedule) == OFF
    requires t.restartIvl == Range(5, 15)
    ensures Reaches(Step(t, StopAll), s) && s.disk == Some(NOTHING)
  {
    var a := Step(t, StopAll);
    assert a.slots.Get(RestartSchedule) == a.slots.restartSchedule;
    assert a.status.Get(RestartSchedule) == a.status.restartSchedule && a.status.Get(LockSchedule) == a.status.lockSchedule;
    var u := RestartActs(a, 0, EnterSelect);
    s := LeavesAsLatest(u, 0);
    ReachesTransitive(a, u, s);
  }

  /**
   * When the notifications of two restored schedules overlap, the older snapshot can be written
   * last: both schedules run, nothing is under way, and the disk has lost one of them.
   */
  lemma OverlapLeavesStaleIntent() returns (s: System)
    ensures var both := Intent(true, true);
            Reaches(Restore(0, Range(5, 15), Range(5, 15), Some(both)), s) && s.Wf()
            && Settled(s) && s.Flags() == both && Load(s.disk) == Intent(true, false)
  {
    var b := Restore(0, Range(5, 15), Range(5, 15), Some(Intent(true, true)));
    var s1 := Announces(b, RestartSchedule);
    assert s1.status.Get(LockSchedule) == OFF;
    var s2 := Announces(s1, LockSchedule);
    ReachesTransitive(b, s1, s2);
    assert s2.status.Get(RestartSchedule).on && s2.Flags() == Intent(true, true);
    s := WritesOutOfOrder(b, s2);
  }

  lemma WritesOutOfOrder(b: System, t: System) returns (s: System)
    requires b.Wf() && Reaches(b, t) && t.apis == [] && !t.stopped
    requires Announced(t, RestartSchedule, Writing(Intent(true, false)))
    requires Announced(t, LockSchedule, Writing(Intent(true, true)))
    requires t.slots.Get(RestartOnce).workers == [] && t.slots.Get(LockOnce).workers == []
    ensures Reaches(b, s) && s.Wf() && Settled(s) && s.Flags() == Intent(true, true)
    ensures Load(s.disk) == Intent(true, false)
  {
    var u := Acts(t, LockSchedule, 0, Write(Saved));
    ReachesTransitive(b, t, u);
    var v := Acts(u, RestartSchedule, 0, Write(Saved));
    ReachesTransitive(b, u, v);
    s := BothSelect(v);
    ReachesTransitive(b, v, s);
  }

  lemma BothSelect(s: System) returns (r: System)
    requires Announced(s, RestartSchedule, Idle) && Announced(s, LockSchedule, Idle) && s.apis == [] && !s.stopped
    requires s.slots.Get(RestartOnce).workers == [] && s.slots.Get(LockOnce).workers == []
    ensures r.Wf() && Reaches(s, r) && Settled(r) && r.Flags() == Intent(true, true) && r.disk == s.disk
  {
    var t := Acts(s, LockSchedule, 0, EnterSelect);
    r := Acts(t, RestartSchedule, 0, EnterSelect);
    ReachesTransitive(s, t, r);
    assert r.slots.Get(RestartOnce).workers == [] && r.slots.Get(LockOnce).workers == [];
    assert r.status.Get(LockSchedule).on && r.status.Get(RestartSchedule).on;
    OneEachSettled(r);
  }

  lemma OneEachSettled(s: System)
    requires s.apis == [] && s.slots.Get(RestartOnce).workers == [] && s.slots.Get(LockOnce).workers == []
    requires |s.slots.Get(RestartSchedule).workers| == 1 && Live(s.slots.Get(RestartSchedule).workers[0], s.stopped)
    requires |s.slots.Get(LockSchedule).workers| == 1 && Live(s.slots.Get(LockSchedule).workers[0], s.stopped)
    ensures Settled(s)
  {
    forall o: Owner ensures NoteAt(s, o) == Idle {
      if o.OfWorker? {
        assert o.id == RestartSchedule || o.id == LockSchedule || s.slots.Get(o.id).workers == [];
      }
    }
  }

  /** The first restart worker is cancelled and waits on an expired timer; the range is zero. */
  ghost predicate Spinning(s: System) {
    && s.Wf() && s.stopped && s.restartIvl == Range(0, 0) && s.status.Get(RestartSchedule).on
    && var ws := s.slots.Get(RestartSchedule).workers;
       |ws| > 0 && ws[0].pc == Waiting && ws[0].note == Idle && ws[0].expiry <= s.now
  }

  ghost function FirstShots(s: System): nat
    requires |s.slots.Get(RestartSchedule).workers| > 0
  {
    s.slots.Get(RestartSchedule).workers[0].shots
  }

  /** With the zero range in force, a schedule worker draws a zero wait and announces it. */
  lemma ZeroPass(s: System) returns (r: System)
    requires s.Wf() && |s.slots.Get(RestartSchedule).workers| > 0 && s.restartIvl == Range(0, 0)
    requires s.slots.Get(RestartSchedule).workers[0].pc == Loop && s.slots.Get(RestartSchedule).workers[0].note == Idle
    ensures Reaches(s, r) && SameElsewhere(s, r, RestartSchedule) && r.Wf() && r.status.Get(RestartSchedule).on
    ensures |r.slots.Get(RestartSchedule).workers| > 0
    ensures var w := r.slots.Get(RestartSchedule).workers[0];
            && w.pc == Arm && w.wait == 0 && w.shots == s.slots.Get(RestartSchedule).workers[0].shots
            && w.note == if s.status.Get(RestartSchedule).on then Idle else Pending
  {
    r := DrawsAndPublishes(s, RestartSchedule);
  }

  lemma SpinOnce(s: System) returns (r: System)
    requires Spinning(s)
    ensures Reaches(s, r) && Spinning(r) && FirstShots(r) == FirstShots(s) + 1
  {
    var t1 := Acts(s, RestartSchedule, 0, Fire);
    var t2 := ZeroPass(t1);
    ReachesTransitive(s, t1, t2);
    r := Acts(t2, RestartSchedule, 0, EnterSelect);
    ReachesTransitive(s, t2, r);
  }

  /**
   * With a zero interval, which only an unvalidated range can hold, a worker whose context is
   * done can still fire any number of times: every spinning state leads on to n more firings.
   */
  lemma {:induction false} ZeroIntervalSpins(s: System, n: nat) returns (r: System)
    requires Spinning(s)
    ensures Reaches(s, r) && Spinning(r) && FirstShots(r) == FirstShots(s) + n
    decreases n
  {
    if n == 0 {
      r := s;
      assert s == Exec(s, []);
    } else {
      var t := ZeroIntervalSpins(s, n - 1);
      r := SpinOnce(t);
      ReachesTransitive(s, t, r);
    }
  }

  /** A spinning state is reached from a boot with the zero range. */
  lemma SpinningIsReachable() returns (r: System)
    ensures Reaches(Boot(0, Range(0, 0), Range(0, 0), None), r) && Spinning(r)
  {
    var b := Boot(0, Range(0, 0), Range(0, 0), None);
    var t0 := Starts(b, RestartSchedule);
    var t1 := ZeroPass(t0);
    ReachesTransitive(b, t0, t1);
    r := SpinFromPublished(b, t1);
  }

  lemma SpinFromPublished(b: System, s: System) returns (r: System)
    requires b.Wf() && Reaches(b, s) && s.Wf() && s.restartIvl == Range(0, 0) && s.status.Get(RestartSchedule).on
    requires s.connected && |s.slots.Get(RestartSchedule).workers| > 0
    requires var w := s.slots.Get(RestartSchedule).workers[0]; w.pc == Arm && w.wait == 0 && w.note == Pending
    ensures Reaches(b, r) && Spinning(r)
  {
    assert s.slots.Get(RestartSchedule) == s.slots.restartSchedule && s.Flags().restart;
    var t := Saves(s, 0);
    ReachesTransitive(b, s, t);
    r := SelectsAndStops(t);
    ReachesTransitive(b, t, r);
  }

  lemma SelectsAndStops(s: System) returns (r: System)
    requires s.Wf() && s.restartIvl == Range(0, 0) && s.Flags().restart && |s.slots.restartSchedule.workers| > 0
    requires var w := s.slots.restartSchedule.workers[0]; w.pc == Arm && w.wait == 0 && w.note == Idle
    ensures Reaches(s, r) && Spinning(r)
  {
    var t := RestartActs(s, 0, EnterSelect);
    r := Step(t, StopAll);
    ReachesStep(t, StopAll);
    ReachesTransitive(s, t, r);
    assert r.slots.Get(RestartSchedule) == t.slots.restartSchedule && r.status.Get(RestartSchedule) == t.status.restartSchedule;
  }
}
