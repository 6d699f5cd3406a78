/**
 * When the published status of a slot tells the truth.  Calls may overlap one another and the
 * workers' steps may interleave freely, even inside ResetAll; the one thing asked is that an
 * accepted request of the slot finds no earlier worker that can still publish, and no reset under
 * way that has passed the slot.
 */
module PublishedStatus {
  import opened Basics
  import opened Slots
  import opened Machine
  import opened Safety
  import opened Firings
  import opened Timing

  /** A worker that can still turn its slot's flag on, even with its context done. */
  predicate MayTurnOn(w: Worker, kind: Kind) {
    || w.pc == Loop || w.pc == Rolling || w.pc == Publish
    || (kind == Schedule && (w.pc == Waiting || (w.pc == Arm && w.wait <= 0)))
  }

  /** A superseded worker that can still publish something a newer one does not expect. */
  predicate StillPublishes(w: Worker, kind: Kind, stopped: bool) {
    MayTurnOn(w, kind) || (w.pc == Unpublish && !stopped)
  }

  ghost predicate NonePublishes(slot: Slot, kind: Kind, stopped: bool, n: nat)
    requires n <= |slot.workers|
  {
    forall k :: 0 <= k < n ==> !StillPublishes(slot.workers[k], kind, stopped)
  }

  /** If the call still has to reset the status, it still has to cancel the slot. */
  predicate Ahead(api: Api, id: SlotId) {
    api.reset ==> id in api.todo
  }

  /** No reset under way has passed the slot; once the scheduler is stopped that no longer matters. */
  ghost predicate NoResetPassed(s: System, id: SlotId) {
    s.stopped || forall t :: 0 <= t < |s.apis| ==> Ahead(s.apis[t], id)
  }

  /** A request that is ignored, or that cannot make the status lie. */
  ghost predicate Harmless(s: System, id: SlotId)
    requires s.Wf()
  {
    var slot := s.slots.Get(id);
    || slot.handle.Some?
    || (NonePublishes(slot, id.Kind(), s.stopped, slot.gen) && NoResetPassed(s, id))
  }

  /** Every request of the slot is harmless; nothing is asked of the workers or of other slots. */
  ghost predicate PoliteRun(s: System, ls: seq<Label>, id: SlotId)
    requires s.Wf()
  {
    ls != [] ==>
      && PoliteRun(s, ls[..|ls| - 1], id)
      && (ls[|ls| - 1] == Ask(id) ==> Harmless(Exec(s, ls[..|ls| - 1]), id))
  }

  lemma {:induction false} UnaskedIsPolite(s: System, ls: seq<Label>, id: SlotId)
    requires s.Wf() && forall i :: 0 <= i < |ls| ==> ls[i] != Ask(id)
    ensures PoliteRun(s, ls, id)
  {
    if ls != [] {
      UnaskedIsPolite(s, ls[..|ls| - 1], id);
    }
  }

  predicate Live(w: Worker, stopped: bool) {
    w.pc == Waiting && w.note == Idle && !Cancelled(w, stopped)
  }

  /** Every worker of the slot has exited or waits for its timer with a live context. */
  ghost predicate Quiescent(slot: Slot, stopped: bool) {
    forall k :: 0 <= k < |slot.workers| ==> slot.workers[k].Exited() || Live(slot.workers[k], stopped)
  }

  /** What the published cell says about the last worker of its slot, at every moment. */
  predicate CellFits(w: Worker, cell: Cell, stopped: bool) {
    && (w.pc == Done ==> cell == OFF)
    && ((w.pc == Arm || w.pc == Waiting) && !Cancelled(w, stopped) ==> cell == Cell(true, Some(w.next)))
  }

  ghost predicate Truthful(slot: Slot, kind: Kind, cell: Cell, stopped: bool) {
    && SlotSafe(slot, stopped)
    && (slot.gen == 0 ==> cell == OFF)
    && (slot.gen > 0 ==>
          NonePublishes(slot, kind, stopped, slot.gen - 1) && CellFits(slot.workers[slot.gen - 1], cell, stopped))
  }

  ghost predicate AllCancelled(slot: Slot, stopped: bool) {
    forall k :: 0 <= k < |slot.workers| ==> Cancelled(slot.workers[k], stopped)
  }

  /** A reset has cancelled every slot it has passed. */
  ghost predicate ResetCancels(s: System, id: SlotId) {
    NoResetPassed(s, id) || AllCancelled(s.slots.Get(id), s.stopped)
  }

  ghost predicate StatusFits(s: System, id: SlotId) {
    s.Wf() && Truthful(s.slots.Get(id), id.Kind(), s.status.Get(id), s.stopped) && ResetCancels(s, id)
  }

  /** What a worker's step makes of its slot's cell. */
  function CellWorked(w: Worker, act: Act, cell: Cell): Cell {
    match act
    case PublishOn => Cell(true, Some(w.next))
    case PublishOff => OFF
    case _ => cell
  }

  /** A superseded worker that publishes nothing any more keeps to that. */
  lemma SilentStays(w: Worker, kind: Kind, now: int, stopped: bool, ivl: Range, act: Act)
    requires Cancelled(w, stopped) && !StillPublishes(w, kind, stopped) && CanAct(w, now, stopped, act)
    ensures !StillPublishes(Advance(w, kind, now, stopped, ivl, false, act), kind, stopped)
    ensures !act.PublishOn? && (act.PublishOff? ==> stopped)
  {
  }

  lemma LastFits(w: Worker, kind: Kind, cell: Cell, now: int, stopped: bool, ivl: Range, act: Act)
    requires CellFits(w, cell, stopped) && CanAct(w, now, stopped, act)
    ensures CellFits(Advance(w, kind, now, stopped, ivl, true, act), CellWorked(w, act, cell), stopped)
  {
  }

  lemma WorkTruthful(slot: Slot, kind: Kind, cell: Cell, now: int, stopped: bool, ivl: Range, k: nat, act: Act, note: Note)
    requires Truthful(slot, kind, cell, stopped) && k < |slot.workers| && CanAct(slot.workers[k], now, stopped, act)
    ensures Truthful(Work(slot, kind, now, stopped, ivl, k, act, note), kind,
                     CellWorked(slot.workers[k], act, cell), stopped)
  {
    WorkSafe(slot, kind, now, stopped, ivl, k, act, note);
    if k == slot.gen - 1 {
      LastFits(slot.workers[k], kind, cell, now, stopped, ivl, act);
    } else {
      SilentStays(slot.workers[k], kind, now, stopped, ivl, act);
    }
  }

  lemma RequestTruthful(slot: Slot, kind: Kind, cell: Cell, now: int, stopped: bool)
    requires Truthful(slot, kind, cell, stopped)
    requires slot.handle.Some? || NonePublishes(slot, kind, stopped, slot.gen)
    ensures Truthful(Request(slot, kind, now), kind,
                     if kind == OneShot && slot.handle.None? then Cell(true, Some(now + MINUTE)) else cell, stopped)
  {
  }

  lemma CancelTruthful(slot: Slot, kind: Kind, cell: Cell, stopped: bool)
    requires Truthful(slot, kind, cell, stopped)
    ensures Truthful(Slots.Cancel(slot), kind, cell, stopped) && AllCancelled(Slots.Cancel(slot), stopped)
  {
  }

  lemma ClearedTruthful(slot: Slot, kind: Kind, cell: Cell, stopped: bool)
    requires Truthful(slot, kind, cell, stopped) && AllCancelled(slot, stopped)
    ensures Truthful(slot, kind, OFF, stopped)
  {
  }

  lemma StopTruthful(slot: Slot, kind: Kind, cell: Cell, stopped: bool)
    requires Truthful(slot, kind, cell, stopped)
    ensures Truthful(slot, kind, cell, true)
  {
  }

  lemma WorkerTruthful(s: System, id: SlotId, k: nat, act: Act)
    requires s.Wf() && Truthful(s.slots.Get(id), id.Kind(), s.status.Get(id), s.stopped) && Enabled(s, Do(id, k, act))
    ensures Truthful(SlotAfter(s, Do(id, k, act), id), id.Kind(), CellAfter(s, Do(id, k, act), id), s.stopped)
  {
    var slot := s.slots.Get(id);
    WorkTruthful(slot, id.Kind(), s.status.Get(id), s.now, s.stopped, s.Ivl(id), k, act, NoteAfter(s, id, slot.workers[k], act));
  }

  lemma AskTruthful(s: System, id: SlotId)
    requires s.Wf() && Truthful(s.slots.Get(id), id.Kind(), s.status.Get(id), s.stopped) && Harmless(s, id)
    ensures Truthful(SlotAfter(s, Ask(id), id), id.Kind(), CellAfter(s, Ask(id), id), s.stopped)
  {
    RequestTruthful(s.slots.Get(id), id.Kind(), s.status.Get(id), s.now, s.stopped);
  }

  /** Steps of other slots and of the callers. */
  lemma OthersTruthful(s: System, l: Label, id: SlotId)
    requires s.Wf() && Truthful(s.slots.Get(id), id.Kind(), s.status.Get(id), s.stopped) && ResetCancels(s, id)
    requires l != Ask(id) && !(l.Do? && l.id == id)
    ensures Truthful(SlotAfter(s, l, id), id.Kind(), CellAfter(s, l, id), s.stopped)
  {
    var slot := s.slots.Get(id);
    var cell := s.status.Get(id);
    if Enabled(s, l) && l.ResetStatus? {
      ClearedTruthful(slot, id.Kind(), cell, s.stopped);
    } else {
      CancelTruthful(slot, id.Kind(), cell, s.stopped);
    }
  }

  lemma StepTruthful(s: System, l: Label, id: SlotId)
    requires StatusFits(s, id) && (l == Ask(id) ==> Harmless(s, id))
    ensures Truthful(SlotAfter(s, l, id), id.Kind(), CellAfter(s, l, id), s.stopped)
  {
    if l.Do? && l.id == id {
      if Enabled(s, l) {
        WorkerTruthful(s, id, l.k, l.act);
      }
    } else if l == Ask(id) {
      AskTruthful(s, id);
    } else {
      OthersTruthful(s, l, id);
    }
  }

  /** Cancelled workers stay cancelled; only a request adds one that is not. */
  lemma CancelledStay(s: System, l: Label, id: SlotId)
    requires s.Wf() && AllCancelled(s.slots.Get(id), s.stopped)
    requires l == Ask(id) ==> s.slots.Get(id).handle.Some? || s.stopped
    ensures AllCancelled(SlotAfter(s, l, id), s.stopped)
  {
  }

  lemma StaysAhead(s: System, l: Label, id: SlotId, t: nat)
    requires s.Wf() && forall u :: 0 <= u < |s.apis| ==> Ahead(s.apis[u], id)
    requires Enabled(s, l) && l.CancelNext? ==> s.apis[l.t].todo[0] != id
    ensures t < |Step(s, l).apis| ==> Ahead(Step(s, l).apis[t], id)
  {
    if Enabled(s, l) {
      match l
      case CancelNext(u) => assert id in s.apis[u].todo ==> id in s.apis[u].todo[1..];
      case BeginReset => assert id in RESET_ORDER;
      case _ =>
    }
  }

  /** A reset passes a slot only by cancelling it. */
  lemma ResetPasses(s: System, l: Label, id: SlotId)
    requires s.Wf() && SlotSafe(s.slots.Get(id), s.stopped) && NoResetPassed(s, id) && !s.stopped
    ensures NoResetPassed(Step(s, l), id) || AllCancelled(SlotAfter(s, l, id), s.stopped)
  {
    if Enabled(s, l) && l.CancelNext? && s.apis[l.t].todo[0] == id {
      assert SlotSafe(Slots.Cancel(s.slots.Get(id)), s.stopped);
    } else {
      forall t | 0 <= t < |Step(s, l).apis| ensures Ahead(Step(s, l).apis[t], id) {
        StaysAhead(s, l, id, t);
      }
    }
  }

  lemma StepResets(s: System, l: Label, id: SlotId, r: System)
    requires StatusFits(s, id) && (l == Ask(id) ==> Harmless(s, id)) && r == Step(s, l)
    ensures ResetCancels(r, id)
  {
    StepSlot(s, l, id);
    StopStays(s, l);
    if NoResetPassed(s, id) && !s.stopped {
      ResetPasses(s, l, id);
    } else {
      CancelledStay(s, l, id);
    }
  }

  lemma StepFits(s: System, l: Label, id: SlotId, r: System)
    requires StatusFits(s, id) && (l == Ask(id) ==> Harmless(s, id)) && r == Step(s, l)
    ensures StatusFits(r, id)
  {
    StopStays(s, l);
    StepTruthful(s, l, id);
    StepSlot(s, l, id);
    StepCell(s, l, id);
    StepResets(s, l, id, r);
    StopTruthful(SlotAfter(s, l, id), id.Kind(), CellAfter(s, l, id), s.stopped);
  }

  lemma {:induction false} RunFits(s: System, ls: seq<Label>, id: SlotId)
    requires StatusFits(s, id) && PoliteRun(s, ls, id)
    ensures StatusFits(Exec(s, ls), id)
  {
    if ls != [] {
      RunFits(s, ls[..|ls| - 1], id);
      StepFits(Exec(s, ls[..|ls| - 1]), ls[|ls| - 1], id, Exec(s, ls));
    }
  }

  /**
   * The flag is set exactly when a worker waits for its timer, and the published time is that
   * worker's announced deadline, which its timer does not undercut.
   */
  ghost predicate ReportsTruth(slot: Slot, cell: Cell, stopped: bool) {
    && (cell.on <==> exists k :: 0 <= k < |slot.workers| && Live(slot.workers[k], stopped))
    && (!cell.on ==> cell.at == None)
    && (forall k :: 0 <= k < |slot.workers| && Live(slot.workers[k], stopped) ==>
          cell.at == Some(slot.workers[k].next) && slot.workers[k].next <= slot.workers[k].expiry)
  }

  lemma TruthWhenQuiet(s: System, id: SlotId)
    requires StatusFits(s, id) && AllSpaced(s) && Quiescent(s.slots.Get(id), s.stopped)
    ensures ReportsTruth(s.slots.Get(id), s.status.Get(id), s.stopped)
  {
    var slot := s.slots.Get(id);
    assert Spaced(slot, s.now);
    if slot.gen > 0 {
      var w := slot.workers[slot.gen - 1];
      assert w.Exited() || Live(w, s.stopped);
    }
  }

  lemma BootFits(now: int, restartIvl: Range, lockIvl: Range, disk: Option<Intent>, id: SlotId)
    ensures StatusFits(Boot(now, restartIvl, lockIvl, disk), id) && AllSpaced(Boot(now, restartIvl, lockIvl, disk))
  {
  }

  /**
   * After any run from boot with polite requests of a slot, whatever else happens, the published
   * status is true of the slot once its workers have all exited or wait with a live context; and
   * the timer of a waiting worker expires exactly as long after the published time as the worker
   * took from its roll (a one-shot from its request) to its select.
   */
  lemma StatusIsTrue(now: int, restartIvl: Range, lockIvl: Range, disk: Option<Intent>, ls: seq<Label>, id: SlotId)
    requires PoliteRun(Boot(now, restartIvl, lockIvl, disk), ls, id)
    ensures var s := Exec(Boot(now, restartIvl, lockIvl, disk), ls);
            Quiescent(s.slots.Get(id), s.stopped) ==>
              && ReportsTruth(s.slots.Get(id), s.status.Get(id), s.stopped)
              && forall k :: 0 <= k < |s.slots.Get(id).workers| && Live(s.slots.Get(id).workers[k], s.stopped) ==>
                   s.slots.Get(id).workers[k].expiry
                   == s.slots.Get(id).workers[k].next + SelectDelay(Boot(now, restartIvl, lockIvl, disk), ls, id, k)
  {
    var b := Boot(now, restartIvl, lockIvl, disk);
    BootFits(now, restartIvl, lockIvl, disk, id);
    RunFits(b, ls, id);
    RunSpaced(b, ls);
    var s := Exec(b, ls);
    if Quiescent(s.slots.Get(id), s.stopped) {
      TruthWhenQuiet(s, id);
      forall k | 0 <= k < |s.slots.Get(id).workers| && Live(s.slots.Get(id).workers[k], s.stopped)
        ensures s.slots.Get(id).workers[k].expiry == s.slots.Get(id).workers[k].next + SelectDelay(b, ls, id, k)
      {
        TimerRunsAsAnnounced(now, restartIvl, lockIvl, disk, ls, id, k);
      }
    }
  }
}
