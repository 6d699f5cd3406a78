/**
 * Under arbitrary interleaving a slot never has two uncancelled workers, and the exit code
 * of an old worker never clears the handle of a newer one.
 */
module Safety {
  import opened Basics
  import opened Slots
  import opened Machine

  /** The worker's context is done: cancelled itself, or through the scheduler's root context. */
  predicate Cancelled(w: Worker, stopped: bool) {
    w.cancelled || stopped
  }

  predicate PastExit(w: Worker) {
    w.pc == Leaving || w.pc == Unpublish || w.pc == Done
  }

  ghost predicate SlotSafe(slot: Slot, stopped: bool) {
    && slot.Wf()
    && (forall k :: 0 <= k < slot.gen - 1 ==> Cancelled(slot.workers[k], stopped))
    && (slot.handle.None? ==> forall k :: 0 <= k < slot.gen ==> Cancelled(slot.workers[k], stopped))
    && (slot.handle.Some? ==> slot.handle.value == slot.gen)
    && (forall k :: 0 <= k < slot.gen && PastExit(slot.workers[k]) ==> Cancelled(slot.workers[k], stopped))
  }

  ghost predicate Safe(s: System) {
    s.Wf() && forall id: SlotId :: SlotSafe(s.slots.Get(id), s.stopped)
  }

  lemma WorkSafe(slot: Slot, kind: Kind, now: int, stopped: bool, ivl: Range, k: nat, act: Act, note: Note)
    requires SlotSafe(slot, stopped) && k < |slot.workers| && CanAct(slot.workers[k], now, stopped, act)
    ensures SlotSafe(Work(slot, kind, now, stopped, ivl, k, act, note), stopped)
  {
  }

  lemma SlotStaysSafe(s: System, l: Label, id: SlotId)
    requires s.Wf() && SlotSafe(s.slots.Get(id), s.stopped)
    ensures SlotSafe(SlotAfter(s, l, id), s.stopped)
  {
    var slot := s.slots.Get(id);
    if l.Do? && l.id == id && Enabled(s, l) {
      WorkSafe(slot, id.Kind(), s.now, s.stopped, s.Ivl(id), l.k, l.act, NoteAfter(s, id, slot.workers[l.k], l.act));
    }
  }

  lemma StopStays(s: System, l: Label)
    requires s.Wf()
    ensures s.stopped ==> Step(s, l).stopped
  {
  }

  lemma StepSafe(s: System, l: Label, r: System)
    requires Safe(s) && r == Step(s, l)
    ensures Safe(r)
  {
    StopStays(s, l);
    forall id: SlotId ensures SlotSafe(r.slots.Get(id), r.stopped) {
      StepSlot(s, l, id);
      SlotStaysSafe(s, l, id);
    }
  }

  lemma {:induction false} RunSafe(s: System, ls: seq<Label>)
    requires Safe(s)
    ensures Safe(Exec(s, ls))
  {
    if ls != [] {
      RunSafe(s, ls[..|ls| - 1]);
      StepSafe(Exec(s, ls[..|ls| - 1]), ls[|ls| - 1], Exec(s, ls));
    }
  }

  /**
   * After any run from boot, in every slot: two workers are never both uncancelled, a nil
   * handle means that every worker is cancelled, and a handle that is set belongs to the
   * latest generation.
   */
  lemma OneUncancelledWorker(now: int, restartIvl: Range, lockIvl: Range, disk: Option<Intent>,
                             ls: seq<Label>, id: SlotId)
    ensures var s := Exec(Boot(now, restartIvl, lockIvl, disk), ls);
            var slot := s.slots.Get(id);
            && (forall i, j :: 0 <= i < j < |slot.workers| ==>
                  Cancelled(slot.workers[i], s.stopped) || Cancelled(slot.workers[j], s.stopped))
            && (slot.handle.None? ==> forall k :: 0 <= k < |slot.workers| ==> Cancelled(slot.workers[k], s.stopped))
            && (slot.handle.Some? ==> slot.handle.value == slot.gen == |slot.workers|)
  {
    RunSafe(Boot(now, restartIvl, lockIvl, disk), ls);
    assert SlotSafe(Exec(Boot(now, restartIvl, lockIvl, disk), ls).slots.Get(id),
                    Exec(Boot(now, restartIvl, lockIvl, disk), ls).stopped);
  }

  /** The step clears the slot's handle, which names the worker itself, whose context is done. */
  ghost predicate ClearsOwn(s: System, id: SlotId, k: nat, act: Act)
    requires s.Wf()
  {
    && k < |s.slots.Get(id).workers|
    && Step(s, Do(id, k, act)).slots.Get(id).handle == None
    && s.slots.Get(id).handle == Some(s.slots.Get(id).workers[k].gen)
    && Cancelled(s.slots.Get(id).workers[k], s.stopped)
  }

  lemma HandleAfter(s: System, id: SlotId, k: nat, act: Act, j: SlotId)
    requires s.Wf() && SlotSafe(s.slots.Get(id), s.stopped)
    ensures Step(s, Do(id, k, act)).slots.Get(j).handle == s.slots.Get(j).handle || (j == id && ClearsOwn(s, id, k, act))
  {
    StepSlot(s, Do(id, k, act), j);
  }

  /**
   * No step of a worker touches another generation's handle: a step can only clear the handle
   * that names the worker itself, and only once that worker's context is done.
   */
  lemma OnlyOwnHandleCleared(now: int, restartIvl: Range, lockIvl: Range, disk: Option<Intent>,
                             ls: seq<Label>, id: SlotId, k: nat, act: Act)
    ensures var s := Exec(Boot(now, restartIvl, lockIvl, disk), ls);
            forall j: SlotId ::
              Step(s, Do(id, k, act)).slots.Get(j).handle == s.slots.Get(j).handle || (j == id && ClearsOwn(s, id, k, act))
  {
    var s := Exec(Boot(now, restartIvl, lockIvl, disk), ls);
    RunSafe(Boot(now, restartIvl, lockIvl, disk), ls);
    assert SlotSafe(s.slots.Get(id), s.stopped);
    forall j: SlotId
      ensures Step(s, Do(id, k, act)).slots.Get(j).handle == s.slots.Get(j).handle || (j == id && ClearsOwn(s, id, k, act))
    {
      HandleAfter(s, id, k, act, j);
    }
  }

  /** Stopping a slot, at any moment of any run, cancels every worker the slot ever had. */
  lemma StopReachesEveryWorker(now: int, restartIvl: Range, lockIvl: Range, disk: Option<Intent>,
                               ls: seq<Label>, id: SlotId)
    ensures var s := Exec(Boot(now, restartIvl, lockIvl, disk), ls);
            var slot := Slots.Cancel(s.slots.Get(id));
            slot.handle == None && forall k :: 0 <= k < |slot.workers| ==> Cancelled(slot.workers[k], s.stopped)
  {
    RunSafe(Boot(now, restartIvl, lockIvl, disk), ls);
    var s := Exec(Boot(now, restartIvl, lockIvl, disk), ls);
    assert SlotSafe(s.slots.Get(id), s.stopped);
  }

  // ---- a slot that has come to rest accepts again

  /** A handle that is set names the latest worker, which has not passed its exit section. */
  ghost predicate HandleFits(slot: Slot) {
    slot.handle.Some? ==>
      && slot.handle.value == slot.gen == |slot.workers| && slot.gen > 0
      && slot.workers[slot.gen - 1].pc != Unpublish && slot.workers[slot.gen - 1].pc != Done
  }

  lemma WorkHandleFits(slot: Slot, kind: Kind, now: int, stopped: bool, ivl: Range, k: nat, act: Act, note: Note)
    requires slot.Wf() && HandleFits(slot) && k < |slot.workers| && CanAct(slot.workers[k], now, stopped, act)
    ensures HandleFits(Work(slot, kind, now, stopped, ivl, k, act, note))
  {
  }

  lemma StepHandleFits(s: System, l: Label, id: SlotId)
    requires s.Wf() && HandleFits(s.slots.Get(id))
    ensures HandleFits(SlotAfter(s, l, id))
  {
    var slot := s.slots.Get(id);
    if l.Do? && l.id == id && Enabled(s, l) {
      WorkHandleFits(slot, id.Kind(), s.now, s.stopped, s.Ivl(id), l.k, l.act, NoteAfter(s, id, slot.workers[l.k], l.act));
    }
  }

  lemma {:induction false} RunHandleFits(s: System, ls: seq<Label>, id: SlotId)
    requires s.Wf() && HandleFits(s.slots.Get(id))
    ensures HandleFits(Exec(s, ls).slots.Get(id))
  {
    if ls != [] {
      RunHandleFits(s, ls[..|ls| - 1], id);
      StepHandleFits(Exec(s, ls[..|ls| - 1]), ls[|ls| - 1], id);
      StepSlot(Exec(s, ls[..|ls| - 1]), ls[|ls| - 1], id);
    }
  }

  /**
   * After any run: once the latest worker of a slot has passed its exit section, whether it fired
   * or was cancelled, the handle is nil and the next request is accepted with a new worker.
   */
  lemma FinishedSlotAcceptsAgain(now: int, restartIvl: Range, lockIvl: Range, disk: Option<Intent>, ls: seq<Label>, id: SlotId)
    ensures var s := Exec(Boot(now, restartIvl, lockIvl, disk), ls);
            var slot := s.slots.Get(id);
            slot.workers == [] || slot.workers[|slot.workers| - 1].pc == Unpublish || slot.workers[|slot.workers| - 1].pc == Done ==>
              && slot.handle == None
              && |Step(s, Ask(id)).slots.Get(id).workers| == |slot.workers| + 1
              && Step(s, Ask(id)).slots.Get(id).handle == Some(|slot.workers| + 1)
  {
    var s := Exec(Boot(now, restartIvl, lockIvl, disk), ls);
    RunHandleFits(Boot(now, restartIvl, lockIvl, disk), ls, id);
    StepSlot(s, Ask(id), id);
  }
}
