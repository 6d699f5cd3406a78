/**
 * What happens to a worker whose context is done: it executes its action at most once more
 * and leaves after a bounded number of its own steps.  Summed over all workers, this shows
 * that everything the scheduler ever spawned ends after Scheduler.Stop.
 */
module Draining {
  import opened Basics
  import opened Slots
  import opened Machine
  import opened Safety

  /** How many own steps a worker with a done context can still take. */
  function Rank(w: Worker): nat {
    (match w.note case Idle => 0 case Writing(_) => 1 case Pending => 2)
    + match w.pc
      case Done => 0
      case Unpublish => 3
      case Leaving => 4
      case Finish => 5
      case Arm => 6
      case Publish => 9
      case Rolling => 10
      case Loop => 11
      case Waiting => 12
  }

  /** How many executions a worker with a done context may still perform. */
  function Fuel(w: Worker): nat { if w.pc == Waiting then 1 else 0 }

  /** Every wait about to begin is longer than zero. */
  predicate WaitsLong(w: Worker) {
    && (w.pc == Rolling ==> w.ivl.min >= 1)
    && (w.pc == Publish || w.pc == Arm ==> w.wait > 0)
  }

  lemma AdvanceWaitsLong(w: Worker, kind: Kind, now: int, stopped: bool, ivl: Range, latest: bool, act: Act)
    requires WaitsLong(w) && ivl.min >= 1 && CanAct(w, now, stopped, act)
    ensures WaitsLong(Advance(w, kind, now, stopped, ivl, latest, act))
  {
    if act.Roll? {
      assert (w.ivl.min + act.extra) * MINUTE >= MINUTE;
    }
  }

  lemma AdvanceDrains(w: Worker, kind: Kind, now: int, stopped: bool, ivl: Range, latest: bool, act: Act, note: Note)
    requires Cancelled(w, stopped) && WaitsLong(w) && CanAct(w, now, stopped, act) && NoteFits(w, act, note)
    ensures var w' := Advance(w, kind, now, stopped, ivl, latest, act).(note := note);
            && Cancelled(w', stopped)
            && Rank(w') < Rank(w)
            && w'.shots + Fuel(w') <= w.shots + Fuel(w)
  {
  }

  ghost predicate AllLong(s: System) {
    && s.Wf() && s.restartIvl.min >= 1 && s.lockIvl.min >= 1
    && forall id: SlotId, k :: 0 <= k < |s.slots.Get(id).workers| ==> WaitsLong(s.slots.Get(id).workers[k])
  }

  /** Interval updates that allow no zero wait. */
  predicate Positive(l: Label) {
    l.SetIntervals? ==> l.restart.min >= 1 && l.lock.min >= 1
  }

  lemma StepLong(s: System, l: Label)
    requires AllLong(s) && Positive(l)
    ensures AllLong(Step(s, l))
  {
    var r := Step(s, l);
    forall id: SlotId, k | 0 <= k < |r.slots.Get(id).workers| ensures WaitsLong(r.slots.Get(id).workers[k]) {
      SlotLong(s, l, id, k);
      StepSlot(s, l, id);
    }
  }

  lemma SlotLong(s: System, l: Label, id: SlotId, k: nat)
    requires AllLong(s)
    ensures k < |SlotAfter(s, l, id).workers| ==> WaitsLong(SlotAfter(s, l, id).workers[k])
  {
    var slot := s.slots.Get(id);
    if k < |slot.workers| {
      var w := slot.workers[k];
      if Enabled(s, l) && l.Do? && l.id == id && l.k == k {
        AdvanceWaitsLong(w, id.Kind(), s.now, s.stopped, s.Ivl(id), slot.gen == w.gen, l.act);
      }
    }
  }

  lemma {:induction false} RunLong(s: System, ls: seq<Label>)
    requires AllLong(s) && forall i :: 0 <= i < |ls| ==> Positive(ls[i])
    ensures AllLong(Exec(s, ls))
  {
    if ls != [] {
      RunLong(s, ls[..|ls| - 1]);
      StepLong(Exec(s, ls[..|ls| - 1]), ls[|ls| - 1]);
    }
  }

  // ---- one cancelled worker

  /** A step that a worker with a done context can always take until it has exited. */
  function NextAct(w: Worker): Act {
    match w.note
    case Pending => Notify
    case Writing(_) => Write(Saved)
    case Idle =>
      match w.pc
      case Loop => ReadInterval
      case Rolling => Roll(0)
      case Publish => PublishOn
      case Arm => EnterSelect
      case Waiting => Quit
      case Finish => CancelSelf
      case Leaving => Leave
      case _ => PublishOff
  }

  /** A worker with a done context is never stuck: it has exited, or can take that step. */
  lemma CancelledCanGo(w: Worker, now: int, stopped: bool)
    requires Cancelled(w, stopped)
    ensures w.Exited() || CanAct(w, now, stopped, NextAct(w))
    ensures w.Exited() <==> Rank(w) == 0
  {
  }

  /** The number of steps worker `k` of slot `id` takes along a run. */
  ghost function OwnSteps(s: System, ls: seq<Label>, id: SlotId, k: nat): nat
    requires s.Wf()
  {
    if ls == [] then 0
    else
      var l := ls[|ls| - 1];
      OwnSteps(s, ls[..|ls| - 1], id, k)
      + if l.Do? && l.id == id && l.k == k && Enabled(Exec(s, ls[..|ls| - 1]), l) then 1 else 0
  }

  lemma StepOfCancelled(s: System, l: Label, id: SlotId, k: nat)
    requires AllLong(s) && k < |s.slots.Get(id).workers| && Cancelled(s.slots.Get(id).workers[k], s.stopped)
    ensures var slot := SlotAfter(s, l, id);
            var own := l.Do? && l.id == id && l.k == k && Enabled(s, l);
            var w := s.slots.Get(id).workers[k];
            k < |slot.workers|
            && var w' := slot.workers[k];
               && Cancelled(w', s.stopped)
               && Rank(w') + (if own then 1 else 0) <= Rank(w)
               && w'.shots + Fuel(w') <= w.shots + Fuel(w)
  {
    var slot := s.slots.Get(id);
    var w := slot.workers[k];
    if l.Do? && l.id == id && l.k == k && Enabled(s, l) {
      AdvanceDrains(w, id.Kind(), s.now, s.stopped, s.Ivl(id), slot.gen == w.gen, l.act, NoteAfter(s, id, w, l.act));
    }
  }

  lemma {:induction false} CancelledWorkerDrains(s: System, ls: seq<Label>, id: SlotId, k: nat)
    requires AllLong(s) && forall i :: 0 <= i < |ls| ==> Positive(ls[i])
    requires k < |s.slots.Get(id).workers| && Cancelled(s.slots.Get(id).workers[k], s.stopped)
    ensures var r := Exec(s, ls);
            var w := s.slots.Get(id).workers[k];
            k < |r.slots.Get(id).workers|
            && var w' := r.slots.Get(id).workers[k];
               && Cancelled(w', r.stopped)
               && OwnSteps(s, ls, id, k) + Rank(w') <= Rank(w) <= 14
               && w'.shots + Fuel(w') <= w.shots + Fuel(w) <= w.shots + 1
  {
    if ls != [] {
      var front := ls[..|ls| - 1];
      var l := ls[|ls| - 1];
      CancelledWorkerDrains(s, front, id, k);
      RunLong(s, front);
      var t := Exec(s, front);
      StepOfCancelled(t, l, id, k);
      StepSlot(t, l, id);
      StopStays(t, l);
    }
  }

  /**
   * From any state of any run with positive minimum intervals, in a stopped or a running
   * scheduler: a worker whose context is done executes at most once more, and not at all unless
   * it is already waiting on its timer.  As long as it has not exited it can take a step, and
   * after `Rank` (never more than 14) steps of its own it has exited, whatever else happens.
   */
  lemma CancelledWorkerLeaves(s: System, ls: seq<Label>, id: SlotId, k: nat)
    requires AllLong(s) && forall i :: 0 <= i < |ls| ==> Positive(ls[i])
    requires k < |s.slots.Get(id).workers| && Cancelled(s.slots.Get(id).workers[k], s.stopped)
    ensures var r := Exec(s, ls);
            var w := s.slots.Get(id).workers[k];
            k < |r.slots.Get(id).workers|
            && var w' := r.slots.Get(id).workers[k];
               && w'.shots <= w.shots + Fuel(w) <= w.shots + 1
               && OwnSteps(s, ls, id, k) <= Rank(w) <= 14
               && (OwnSteps(s, ls, id, k) == Rank(w) ==> w'.Exited())
               && (w'.Exited() || Enabled(r, Do(id, k, NextAct(w'))))
  {
    CancelledWorkerDrains(s, ls, id, k);
    var r := Exec(s, ls);
    CancelledCanGo(r.slots.Get(id).workers[k], r.now, r.stopped);
  }

  // ---- all workers

  ghost function SlotRank(slot: Slot): nat { Sum(slot.workers, Rank) }

  ghost function TotalRank(s: System): nat {
    SlotRank(s.slots.restartSchedule) + SlotRank(s.slots.restartOnce)
    + SlotRank(s.slots.lockSchedule) + SlotRank(s.slots.lockOnce)
  }

  /** The number of steps all workers together take along a run. */
  ghost function WorkerSteps(s: System, ls: seq<Label>): nat
    requires s.Wf()
  {
    if ls == [] then 0
    else
      WorkerSteps(s, ls[..|ls| - 1])
      + if ls[|ls| - 1].Do? && Enabled(Exec(s, ls[..|ls| - 1]), ls[|ls| - 1]) then 1 else 0
  }

  lemma WorkDrains(slot: Slot, kind: Kind, now: int, stopped: bool, ivl: Range, k: nat, act: Act, note: Note)
    requires slot.Wf() && k < |slot.workers| && stopped && WaitsLong(slot.workers[k])
    requires CanAct(slot.workers[k], now, stopped, act) && NoteFits(slot.workers[k], act, note)
    ensures SlotRank(Work(slot, kind, now, stopped, ivl, k, act, note)) < SlotRank(slot)
  {
    var w := slot.workers[k];
    AdvanceDrains(w, kind, now, stopped, ivl, slot.gen == w.gen, act, note);
    SumUpdate(slot.workers, k, Advance(w, kind, now, stopped, ivl, slot.gen == w.gen, act).(note := note), Rank);
  }

  lemma CancelKeepsRank(slot: Slot)
    requires slot.Wf()
    ensures SlotRank(Slots.Cancel(slot)) == SlotRank(slot)
  {
    if slot.handle.Some? {
      var k := slot.handle.value - 1;
      SumUpdate(slot.workers, k, slot.workers[k].(cancelled := true), Rank);
    }
  }

  lemma SlotDrains(s: System, l: Label, id: SlotId)
    requires AllLong(s) && s.stopped && !l.Ask?
    ensures SlotRank(SlotAfter(s, l, id)) <= SlotRank(s.slots.Get(id))
    ensures l.Do? && l.id == id && Enabled(s, l) ==> SlotRank(SlotAfter(s, l, id)) < SlotRank(s.slots.Get(id))
  {
    var slot := s.slots.Get(id);
    CancelKeepsRank(slot);
    if Enabled(s, l) && l.Do? && l.id == id {
      WorkDrains(slot, id.Kind(), s.now, s.stopped, s.Ivl(id), l.k, l.act, NoteAfter(s, id, slot.workers[l.k], l.act));
    }
  }

  lemma StepDrains(s: System, l: Label)
    requires AllLong(s) && s.stopped && !l.Ask?
    ensures TotalRank(Step(s, l)) + (if l.Do? && Enabled(s, l) then 1 else 0) <= TotalRank(s)
  {
    forall id: SlotId
      ensures SlotRank(Step(s, l).slots.Get(id)) <= SlotRank(s.slots.Get(id))
      ensures l.Do? && l.id == id && Enabled(s, l) ==> SlotRank(Step(s, l).slots.Get(id)) < SlotRank(s.slots.Get(id))
    {
      SlotDrains(s, l, id);
      StepSlot(s, l, id);
    }
    var r := Step(s, l).slots;
    assert r.restartSchedule == r.Get(RestartSchedule) && r.restartOnce == r.Get(RestartOnce)
        && r.lockSchedule == r.Get(LockSchedule) && r.lockOnce == r.Get(LockOnce);
    assert s.slots.restartSchedule == s.slots.Get(RestartSchedule) && s.slots.restartOnce == s.slots.Get(RestartOnce)
        && s.slots.lockSchedule == s.slots.Get(LockSchedule) && s.slots.lockOnce == s.slots.Get(LockOnce);
  }

  ghost predicate AllExited(s: System) {
    forall id: SlotId, k :: 0 <= k < |s.slots.Get(id).workers| ==> s.slots.Get(id).workers[k].Exited()
  }

  /** No worker has a step to take. */
  ghost predicate NoWorkerStep(s: System) {
    forall id: SlotId, k: nat, act: Act :: !Enabled(s, Do(id, k, act))
  }

  lemma {:induction false} StoppedRun(s: System, ls: seq<Label>)
    requires AllLong(s) && s.stopped && forall i :: 0 <= i < |ls| ==> Positive(ls[i]) && !ls[i].Ask?
    ensures Exec(s, ls).stopped && WorkerSteps(s, ls) + TotalRank(Exec(s, ls)) <= TotalRank(s)
  {
    if ls != [] {
      var front := ls[..|ls| - 1];
      StoppedRun(s, front);
      RunLong(s, front);
      StepDrains(Exec(s, front), ls[|ls| - 1]);
      StopStays(Exec(s, front), ls[|ls| - 1]);
    }
  }

  lemma StuckMeansExited(r: System)
    requires r.Wf() && r.stopped
    ensures NoWorkerStep(r) <==> AllExited(r)
  {
    if NoWorkerStep(r) {
      forall id: SlotId, k | 0 <= k < |r.slots.Get(id).workers| ensures r.slots.Get(id).workers[k].Exited() {
        assert !Enabled(r, Do(id, k, NextAct(r.slots.Get(id).workers[k])));
      }
    }
    if AllExited(r) {
      forall id: SlotId, k: nat, act: Act ensures !Enabled(r, Do(id, k, act)) {
        if k < |r.slots.Get(id).workers| {
          assert r.slots.Get(id).workers[k].Exited();
        }
      }
    }
  }

  /**
   * After Scheduler.Stop and without new starts, all the workers ever spawned together take at
   * most `TotalRank` steps, and when none of them can take a step all have exited.
   */
  lemma EverythingEndsAfterStop(now: int, restartIvl: Range, lockIvl: Range, disk: Option<Intent>,
                                before: seq<Label>, after: seq<Label>)
    requires restartIvl.min >= 1 && lockIvl.min >= 1
    requires forall i :: 0 <= i < |before| ==> Positive(before[i])
    requires forall i :: 0 <= i < |after| ==> Positive(after[i]) && !after[i].Ask?
    ensures var s := Exec(Boot(now, restartIvl, lockIvl, disk), before + [StopAll]);
            && WorkerSteps(s, after) + TotalRank(Exec(s, after)) <= TotalRank(s)
            && (NoWorkerStep(Exec(s, after)) <==> AllExited(Exec(s, after)))
  {
    var b := Boot(now, restartIvl, lockIvl, disk);
    var s := Exec(b, before + [StopAll]);
    assert (before + [StopAll])[..|before|] == before;
    RunLong(b, before);
    StepLong(Exec(b, before), StopAll);
    StoppedRun(s, after);
    StuckMeansExited(Exec(s, after));
  }
}
