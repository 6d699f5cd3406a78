/**
 * What a shutdown saves and the next boot restores, over uptimes in which schedules may be started,
 * stopped and reset at will.
 */
module BootCycles {
  import opened Basics
  import opened Slots
  import opened Machine
  import opened Safety
  import opened Firings
  import opened PublishedStatus
  import opened IntentOnDisk
  import opened DiskSettles

  const NOTHING := Intent(false, false)

  /** Both entry points: install the callback, load the intent, start what it asks for. */
  function Restore(now: int, restartIvl: Range, lockIvl: Range, disk: Option<Intent>): (s: System)
    ensures s.Wf()
  {
    var b := Boot(now, restartIvl, lockIvl, disk);
    var r := if Load(disk).restart then StepAsk(b, RestartSchedule) else b;
    if Load(disk).lock then StepAsk(r, LockSchedule) else r
  }

  predicate Wants(intent: Intent, id: SlotId) {
    (id == RestartSchedule && intent.restart) || (id == LockSchedule && intent.lock)
  }

  /** A life of the program: restore, an uptime, and whatever follows the disconnection. */
  datatype Session = Session(now: int, restartIvl: Range, lockIvl: Range, up: seq<Label>, down: seq<Label>)

  function Restored(disk: Option<Intent>, c: Session): (s: System)
    ensures s.Wf()
  {
    Restore(c.now, c.restartIvl, c.lockIvl, disk)
  }

  ghost function AtShutdown(disk: Option<Intent>, c: Session): (s: System)
    ensures s.Wf()
  {
    Exec(Restored(disk, c), c.up)
  }

  ghost function AfterSession(disk: Option<Intent>, c: Session): Option<Intent> {
    Exec(Step(AtShutdown(disk, c), Disconnect), c.down).disk
  }

  lemma RestoredIsFresh(disk: Option<Intent>, c: Session)
    ensures var s := Restored(disk, c); s.connected && NoNotes(s) && s.Flags() == NOTHING && s.disk == disk
  {
    var s := Restored(disk, c);
    forall o: Owner ensures NoteAt(s, o) == Idle {
      if o.OfWorker? {
        assert forall k :: 0 <= k < |s.slots.Get(o.id).workers| ==> s.slots.Get(o.id).workers[k].note == Idle;
      }
    }
  }

  // ---- what a boot starts

  ghost predicate NothingStarted(s: System) {
    forall id: SlotId :: s.slots.Get(id).workers == []
  }

  /** Without a readable state file, as at the very first boot, nothing is started. */
  lemma FirstBootStartsNothing(c: Session)
    ensures NothingStarted(Restored(None, c))
  {
  }

  /** A saved intent starts exactly the schedules it names, with one worker each. */
  lemma BootStartsWhatWasSaved(restart: bool, lock: bool, c: Session)
    ensures var slots := Restored(Some(Intent(restart, lock)), c).slots;
            && |slots.restartSchedule.workers| == (if restart then 1 else 0)
            && |slots.lockSchedule.workers| == (if lock then 1 else 0)
            && slots.restartOnce.workers == [] && slots.lockOnce.workers == []
  {
  }

  /** The last write of the run was interrupted. */
  ghost predicate LastWriteTorn(s: System, ls: seq<Label>)
    requires s.Wf()
  {
    ls != []
    && var t, l := Exec(s, ls[..|ls| - 1]), ls[|ls| - 1];
       if Enabled(t, l) && Writes(l) then OutcomeOf(l) == Torn else LastWriteTorn(s, ls[..|ls| - 1])
  }

  lemma {:induction false} TornLeavesNothing(s: System, ls: seq<Label>)
    requires s.Wf() && LastWriteTorn(s, ls)
    ensures Exec(s, ls).disk == None
  {
    var t, l := Exec(s, ls[..|ls| - 1]), ls[|ls| - 1];
    StepWrites(t, l, Exec(s, ls));
    if !(Enabled(t, l) && Writes(l)) {
      TornLeavesNothing(s, ls[..|ls| - 1]);
    }
  }

  /** A boot after a session whose last write was torn starts nothing. */
  lemma TornSessionStartsNothing(disk: Option<Intent>, c: Session, next: Session)
    requires LastWriteTorn(Restored(disk, c), c.up + [Disconnect] + c.down)
    ensures NothingStarted(Restored(AfterSession(disk, c), next))
  {
    TornLeavesNothing(Restored(disk, c), c.up + [Disconnect] + c.down);
    ExecConcat(Restored(disk, c), c.up + [Disconnect], c.down);
    assert (c.up + [Disconnect])[..|c.up|] == c.up;
    assert AfterSession(disk, c) == None;
    FirstBootStartsNothing(next);
  }

  // ---- what a shutdown saves

  /** The flags change only while no snapshot is in flight, and the shutdown finds none owed. */
  ghost predicate OrderlySession(disk: Option<Intent>, c: Session) {
    OrderlyRun(Restored(disk, c), c.up) && NoNotes(AtShutdown(disk, c))
  }

  lemma NothingAfterDisconnect(s: System, ls: seq<Label>)
    requires s.Wf() && NoNotes(s)
    ensures Exec(Step(s, Disconnect), ls).disk == s.disk
  {
    var t := Step(s, Disconnect);
    forall o: Owner ensures NoteAt(t, o) == Idle {
      OtherNotes(s, Disconnect, o);
    }
    DisconnectedDiskStays(t, ls);
  }

  /** The flags at the shutdown if any of them changed since the boot, else what was saved before. */
  lemma WhatIsSaved(disk: Option<Intent>, c: Session)
    requires OrderlySession(disk, c)
    ensures Load(AfterSession(disk, c))
            == if Changed(Restored(disk, c), c.up) then AtShutdown(disk, c).Flags() else Load(disk)
  {
    RestoredIsFresh(disk, c);
    DiskFollowsFlags(Restored(disk, c), c.up);
    NothingAfterDisconnect(AtShutdown(disk, c), c.down);
  }

  /**
   * Shutting down at any moment without a notification under way: the intent survives exactly
   * if nothing had been announced since the boot, or the flags are those of the intent.
   */
  lemma IntentSurvivesIff(disk: Option<Intent>, c: Session)
    requires OrderlySession(disk, c)
    ensures Load(AfterSession(disk, c)) == Load(disk)
            <==> !Changed(Restored(disk, c), c.up) || AtShutdown(disk, c).Flags() == Load(disk)
  {
    WhatIsSaved(disk, c);
  }

  // ---- a schedule worker that waits or has ended has announced itself

  ghost predicate Announced(slot: Slot, changed: bool) {
    forall k :: 0 <= k < |slot.workers| ==>
      changed || slot.workers[k].pc == Loop || slot.workers[k].pc == Rolling || slot.workers[k].pc == Publish
  }

  lemma WorkAnnounced(slot: Slot, changed: bool, now: int, stopped: bool, ivl: Range, k: nat, act: Act, note: Note)
    requires slot.Wf() && k < |slot.workers| && CanAct(slot.workers[k], now, stopped, act) && Announced(slot, changed)
    ensures Announced(Work(slot, Schedule, now, stopped, ivl, k, act, note), changed || act.PublishOn?)
  {
  }

  lemma SlotAnnounced(s: System, l: Label, id: SlotId, changed: bool)
    requires s.Wf() && id.Kind() == Schedule && Announced(s.slots.Get(id), changed)
    ensures var on := Enabled(s, l) && l.Do? && l.id == id && l.act.PublishOn?;
            Announced(SlotAfter(s, l, id), changed || on)
    ensures |SlotAfter(s, l, id).workers| >= |s.slots.Get(id).workers|
  {
    var slot := s.slots.Get(id);
    if Enabled(s, l) && l.Do? && l.id == id {
      WorkAnnounced(slot, changed, s.now, s.stopped, s.Ivl(id), l.k, l.act, NoteAfter(s, id, slot.workers[l.k], l.act));
    }
  }

  lemma OnShows(s: System, id: SlotId, k: nat)
    requires s.Wf() && id.Kind() == Schedule && Enabled(s, Do(id, k, PublishOn))
    ensures Step(s, Do(id, k, PublishOn)).Flags() != NOTHING
  {
    StepCell(s, Do(id, k, PublishOn), id);
  }

  lemma StepAnnounced(s: System, l: Label, id: SlotId, changed: bool, r: System)
    requires s.Wf() && id.Kind() == Schedule && r == Step(s, l)
    requires Announced(s.slots.Get(id), changed) && (!changed ==> s.Flags() == NOTHING)
    ensures Announced(r.slots.Get(id), changed || r.Flags() != s.Flags())
    ensures |r.slots.Get(id).workers| >= |s.slots.Get(id).workers|
  {
    StepSlot(s, l, id);
    SlotAnnounced(s, l, id, changed);
    if Enabled(s, l) && l.Do? && l.id == id && l.act.PublishOn? {
      OnShows(s, id, l.k);
    }
  }

  lemma {:induction false} RunAnnounced(s: System, ls: seq<Label>, id: SlotId)
    requires s.Wf() && id.Kind() == Schedule && Announced(s.slots.Get(id), false) && s.Flags() == NOTHING
    ensures var r := Exec(s, ls);
            && Announced(r.slots.Get(id), Changed(s, ls))
            && (!Changed(s, ls) ==> r.Flags() == NOTHING)
            && |r.slots.Get(id).workers| >= |s.slots.Get(id).workers|
  {
    if ls != [] {
      var front := ls[..|ls| - 1];
      RunAnnounced(s, front, id);
      StepAnnounced(Exec(s, front), ls[|ls| - 1], id, Changed(s, front), Exec(s, ls));
    }
  }

  lemma AtRestHasAnnounced(slot: Slot, changed: bool, stopped: bool)
    requires Announced(slot, changed) && Quiescent(slot, stopped) && slot.workers != []
    ensures changed
  {
    assert slot.workers[0].Exited() || Live(slot.workers[0], stopped);
  }

  // ---- the status is true at a settled shutdown

  /** Both schedules are at rest and nothing is owed. */
  ghost predicate Settled(s: System) {
    && NoNotes(s)
    && Quiescent(s.slots.Get(RestartSchedule), s.stopped) && Quiescent(s.slots.Get(LockSchedule), s.stopped)
  }

  ghost predicate Runs(s: System, id: SlotId) {
    exists k :: 0 <= k < |s.slots.Get(id).workers| && Live(s.slots.Get(id).workers[k], s.stopped)
  }

  ghost function Running(s: System): Intent {
    Intent(Runs(s, RestartSchedule), Runs(s, LockSchedule))
  }

  /** An orderly uptime with polite requests of the schedules that ends settled. */
  ghost predicate CleanUptime(disk: Option<Intent>, c: Session) {
    && OrderlySession(disk, c) && Settled(AtShutdown(disk, c))
    && PoliteRun(Restored(disk, c), c.up, RestartSchedule) && PoliteRun(Restored(disk, c), c.up, LockSchedule)
  }

  lemma AskFits(s: System, i: SlotId, id: SlotId)
    requires StatusFits(s, id) && AllSpaced(s) && s.slots.Get(i).gen == 0 && s.apis == []
    ensures StatusFits(StepAsk(s, i), id) && AllSpaced(StepAsk(s, i))
  {
    assert Step(s, Ask(i)) == StepAsk(s, i);
    StepFits(s, Ask(i), id, StepAsk(s, i));
    StepSpaced(s, Ask(i), StepAsk(s, i));
  }

  lemma RestoredFits(disk: Option<Intent>, c: Session, id: SlotId)
    ensures StatusFits(Restored(disk, c), id) && AllSpaced(Restored(disk, c))
  {
    var b := Boot(c.now, c.restartIvl, c.lockIvl, disk);
    BootFits(c.now, c.restartIvl, c.lockIvl, disk, id);
    var r := if Load(disk).restart then StepAsk(b, RestartSchedule) else b;
    if Load(disk).restart {
      AskFits(b, RestartSchedule, id);
    }
    assert r.slots.Get(LockSchedule).gen == 0;
    if Load(disk).lock {
      AskFits(r, LockSchedule, id);
    }
  }

  lemma RestoredStarts(disk: Option<Intent>, c: Session, id: SlotId)
    requires id.Kind() == Schedule
    ensures var slot := Restored(disk, c).slots.Get(id);
            && Announced(slot, false)
            && |slot.workers| == (if Wants(Load(disk), id) then 1 else 0)
            && slot.handle == (if Wants(Load(disk), id) then Some(1) else None)
            && forall k :: 0 <= k < |slot.workers| ==> Spared(slot.workers[k])
  {
  }

  lemma FlagIsTrue(disk: Option<Intent>, c: Session, id: SlotId)
    requires CleanUptime(disk, c) && id.Kind() == Schedule
    ensures Wants(AtShutdown(disk, c).Flags(), id) <==> Runs(AtShutdown(disk, c), id)
  {
    var s := AtShutdown(disk, c);
    RestoredFits(disk, c, id);
    RunFits(Restored(disk, c), c.up, id);
    RunSpaced(Restored(disk, c), c.up);
    TruthWhenQuiet(s, id);
    assert s.status.Get(id).on == Wants(s.Flags(), id);
  }

  lemma SavedIffRuns(disk: Option<Intent>, c: Session, id: SlotId)
    requires CleanUptime(disk, c) && id.Kind() == Schedule
    ensures Wants(Load(AfterSession(disk, c)), id) <==> Runs(AtShutdown(disk, c), id)
  {
    var b := Restored(disk, c);
    var s := AtShutdown(disk, c);
    WhatIsSaved(disk, c);
    FlagIsTrue(disk, c, id);
    RestoredIsFresh(disk, c);
    RestoredStarts(disk, c, id);
    RunAnnounced(b, c.up, id);
    if Wants(Load(disk), id) {
      AtRestHasAnnounced(s.slots.Get(id), Changed(b, c.up), s.stopped);
    }
  }

  /**
   * A shutdown from a settled state saves exactly which schedules are running, whatever calls
   * were made since the boot and whatever happens afterwards.
   */
  lemma ShutdownSavesWhatRuns(disk: Option<Intent>, c: Session)
    requires CleanUptime(disk, c)
    ensures Load(AfterSession(disk, c)) == Running(AtShutdown(disk, c))
  {
    SavedIffRuns(disk, c, RestartSchedule);
    SavedIffRuns(disk, c, LockSchedule);
  }

  // ---- any number of sessions

  ghost function AfterSessions(disk: Option<Intent>, cs: seq<Session>): Option<Intent> {
    if cs == [] then disk else AfterSession(AfterSessions(disk, cs[..|cs| - 1]), cs[|cs| - 1])
  }

  /**
   * Whatever came before, once a session has ended cleanly, the next boot starts exactly the
   * schedules that were running when it ended.
   */
  lemma NextBootStartsWhatRan(disk: Option<Intent>, cs: seq<Session>, next: Session, id: SlotId)
    requires cs != [] && id.Kind() == Schedule
    requires CleanUptime(AfterSessions(disk, cs[..|cs| - 1]), cs[|cs| - 1])
    ensures var last := AtShutdown(AfterSessions(disk, cs[..|cs| - 1]), cs[|cs| - 1]);
            |Restored(AfterSessions(disk, cs), next).slots.Get(id).workers| == if Runs(last, id) then 1 else 0
  {
    SavedIffRuns(AfterSessions(disk, cs[..|cs| - 1]), cs[|cs| - 1], id);
    RestoredStarts(AfterSessions(disk, cs), next, id);
  }

  // ---- sessions that leave the schedules alone

  predicate OnlyOneShots(todo: seq<SlotId>) {
    forall id :: id in todo ==> id.Kind() == OneShot
  }

  /** No call touches the schedules. */
  predicate Untouched(l: Label) {
    match l
    case Ask(id) => id.Kind() == OneShot
    case BeginCancel(todo) => OnlyOneShots(todo)
    case BeginReset => false
    case StopAll => false
    case _ => true
  }

  predicate Spared(w: Worker) { !w.cancelled && w.pc != Finish }

  /** The slot's only worker, if it has one, is the restored one, and nobody is about to cancel it. */
  ghost predicate Unharmed(s: System, id: SlotId, wanted: bool) {
    && !s.stopped
    && (forall t :: 0 <= t < |s.apis| ==> !s.apis[t].reset && OnlyOneShots(s.apis[t].todo))
    && |s.slots.Get(id).workers| == (if wanted then 1 else 0)
    && (forall k :: 0 <= k < |s.slots.Get(id).workers| ==> Spared(s.slots.Get(id).workers[k]))
  }

  lemma StepUnharmed(s: System, l: Label, id: SlotId, wanted: bool, r: System)
    requires s.Wf() && id.Kind() == Schedule && Unharmed(s, id, wanted) && Untouched(l) && r == Step(s, l)
    requires SlotSafe(s.slots.Get(id), s.stopped)
    ensures Unharmed(r, id, wanted)
  {
    StepSlot(s, l, id);
    SlotSpared(s, l, id, wanted);
    CallsSpareSchedules(s, l, r);
  }

  lemma SlotSpared(s: System, l: Label, id: SlotId, wanted: bool)
    requires s.Wf() && id.Kind() == Schedule && Unharmed(s, id, wanted) && Untouched(l)
    requires SlotSafe(s.slots.Get(id), s.stopped)
    ensures |SlotAfter(s, l, id).workers| == |s.slots.Get(id).workers|
    ensures forall k :: 0 <= k < |SlotAfter(s, l, id).workers| ==> Spared(SlotAfter(s, l, id).workers[k])
  {
    if Enabled(s, l) && l.CancelNext? {
      assert s.apis[l.t].todo[0] in s.apis[l.t].todo;
    }
  }

  lemma CallsSpareSchedules(s: System, l: Label, r: System)
    requires s.Wf() && Untouched(l) && r == Step(s, l)
    requires forall t :: 0 <= t < |s.apis| ==> !s.apis[t].reset && OnlyOneShots(s.apis[t].todo)
    ensures forall t :: 0 <= t < |r.apis| ==> !r.apis[t].reset && OnlyOneShots(r.apis[t].todo)
  {
  }

  lemma {:induction false} RunUnharmed(s: System, ls: seq<Label>, id: SlotId, wanted: bool)
    requires s.Wf() && id.Kind() == Schedule && Unharmed(s, id, wanted) && Safe(s)
    requires forall i :: 0 <= i < |ls| ==> Untouched(ls[i])
    ensures Unharmed(Exec(s, ls), id, wanted) && Safe(Exec(s, ls))
  {
    RunSafe(s, ls);
    if ls != [] {
      var t := Exec(s, ls[..|ls| - 1]);
      RunUnharmed(s, ls[..|ls| - 1], id, wanted);
      assert SlotSafe(t.slots.Get(id), t.stopped);
      StepUnharmed(t, ls[|ls| - 1], id, wanted, Exec(s, ls));
    }
  }

  /** An orderly uptime that leaves the schedules alone and ends settled. */
  ghost predicate CalmUptime(disk: Option<Intent>, c: Session) {
    && OrderlySession(disk, c) && Settled(AtShutdown(disk, c))
    && forall i :: 0 <= i < |c.up| ==> Untouched(c.up[i])
  }

  lemma CalmIsClean(disk: Option<Intent>, c: Session)
    requires CalmUptime(disk, c)
    ensures CleanUptime(disk, c)
  {
    UnaskedIsPolite(Restored(disk, c), c.up, RestartSchedule);
    UnaskedIsPolite(Restored(disk, c), c.up, LockSchedule);
  }

  lemma RestoredRuns(disk: Option<Intent>, c: Session, id: SlotId)
    requires CalmUptime(disk, c) && id.Kind() == Schedule
    ensures Runs(AtShutdown(disk, c), id) <==> Wants(Load(disk), id)
  {
    var s := AtShutdown(disk, c);
    RestoredStarts(disk, c, id);
    RestoredIsSafe(disk, c);
    RunUnharmed(Restored(disk, c), c.up, id, Wants(Load(disk), id));
    assert SlotSafe(s.slots.Get(id), s.stopped);
    if Wants(Load(disk), id) {
      var w := s.slots.Get(id).workers[0];
      assert w.Exited() || Live(w, s.stopped);
    }
  }

  lemma RestoredIsSafe(disk: Option<Intent>, c: Session)
    ensures Safe(Restored(disk, c))
  {
    forall id: SlotId ensures SlotSafe(Restored(disk, c).slots.Get(id), false) {
      RestoredFits(disk, c, id);
    }
  }

  ghost predicate CalmSessions(disk: Option<Intent>, cs: seq<Session>) {
    cs != [] ==> CalmSessions(disk, cs[..|cs| - 1]) && CalmUptime(AfterSessions(disk, cs[..|cs| - 1]), cs[|cs| - 1])
  }

  /** Any number of shutdowns and boots that leave the schedules alone preserve the intent. */
  lemma {:induction false} CyclesKeepIntent(disk: Option<Intent>, cs: seq<Session>)
    requires CalmSessions(disk, cs)
    ensures Load(AfterSessions(disk, cs)) == Load(disk)
  {
    if cs != [] {
      var d := AfterSessions(disk, cs[..|cs| - 1]);
      var c := cs[|cs| - 1];
      CyclesKeepIntent(disk, cs[..|cs| - 1]);
      CalmIsClean(d, c);
      ShutdownSavesWhatRuns(d, c);
      RestoredRuns(d, c, RestartSchedule);
      RestoredRuns(d, c, LockSchedule);
    }
  }
}
