/**
 * When exactly a worker's timer fires, told by the moments of the run at which it read its range,
 * rolled its wait and entered select.
 */
module Timing {
  import opened Basics
  import opened Slots
  import opened Machine

  datatype Moment = Spawned | Read | Rolled | Entered

  /** The step is this moment in the life of worker `k` of the slot. */
  predicate Marks(s: System, l: Label, id: SlotId, k: nat, m: Moment) {
    match m
    case Spawned => l == Ask(id) && s.slots.Get(id).handle.None? && s.slots.Get(id).gen == k
    case Read => l == Do(id, k, ReadInterval)
    case Rolled => l.Do? && l.id == id && l.k == k && l.act.Roll?
    case Entered => l == Do(id, k, EnterSelect)
  }

  /** The state of the run just before the last such moment. */
  ghost function Last(s: System, ls: seq<Label>, id: SlotId, k: nat, m: Moment): (r: Option<System>)
    requires s.Wf()
  {
    if ls == [] then None
    else Latest(Exec(s, ls[..|ls| - 1]), ls[|ls| - 1], id, k, m, Last(s, ls[..|ls| - 1], id, k, m))
  }

  ghost function Latest(t: System, l: Label, id: SlotId, k: nat, m: Moment, before: Option<System>): Option<System> {
    if Enabled(t, l) && Marks(t, l, id, k, m) then Some(t) else before
  }

  /** The range in force for the slot. */
  function RangeInForce(s: System, id: SlotId): Range {
    if id == RestartSchedule || id == RestartOnce then s.restartIvl else s.lockIvl
  }

  /** The wait is a whole number of minutes in the range; an empty range stands for its minimum. */
  ghost predicate WholeMinutes(wait: int, ivl: Range) {
    exists m :: wait == m * MINUTE && ivl.min <= m && (m <= ivl.max || m == ivl.min)
  }

  /** The states at a worker's moments. */
  datatype Moments = Moments(spawned: Option<System>, read: Option<System>, rolled: Option<System>, entered: Option<System>)

  ghost function MomentsOf(s: System, ls: seq<Label>, id: SlotId, k: nat): Moments
    requires s.Wf()
  {
    Moments(Last(s, ls, id, k, Spawned), Last(s, ls, id, k, Read), Last(s, ls, id, k, Rolled), Last(s, ls, id, k, Entered))
  }

  predicate Past(pc: Pc, m: Moment) {
    match m
    case Spawned => true
    case Read => pc == Rolling || pc == Publish || pc == Arm || pc == Waiting
    case Rolled => pc == Publish || pc == Arm || pc == Waiting
    case Entered => pc == Waiting
  }

  /** What the moments say about a worker's times. */
  ghost predicate TimedBy(w: Worker, id: SlotId, ms: Moments) {
    && ms.spawned.Some? && w.born == ms.spawned.value.now
    && (Past(w.pc, Entered) ==> ms.entered.Some? && w.expiry == ms.entered.value.now + w.wait)
    && (id.Kind() == OneShot ==>
          && (w.pc == Arm || w.pc == Waiting || w.pc == Finish || w.pc == Leaving || w.pc == Unpublish || w.pc == Done)
          && w.wait == MINUTE && w.next == ms.spawned.value.now + MINUTE)
    && (id.Kind() == Schedule ==>
          && (Past(w.pc, Read) ==> ms.read.Some? && w.ivl == RangeInForce(ms.read.value, id))
          && (Past(w.pc, Rolled) ==>
                ms.rolled.Some? && w.next == ms.rolled.value.now + w.wait && WholeMinutes(w.wait, w.ivl)))
  }

  ghost function MomentsNext(t: System, l: Label, id: SlotId, k: nat, ms: Moments): Moments {
    Moments(Latest(t, l, id, k, Spawned, ms.spawned), Latest(t, l, id, k, Read, ms.read),
            Latest(t, l, id, k, Rolled, ms.rolled), Latest(t, l, id, k, Entered, ms.entered))
  }

  /** A worker's own step is at most one moment of its. */
  function MomentsActed(ms: Moments, act: Act, t: System): Moments {
    match act
    case ReadInterval => ms.(read := Some(t))
    case Roll(_) => ms.(rolled := Some(t))
    case EnterSelect => ms.(entered := Some(t))
    case _ => ms
  }

  lemma OwnMoments(t: System, id: SlotId, k: nat, act: Act, ms: Moments)
    requires Enabled(t, Do(id, k, act))
    ensures MomentsNext(t, Do(id, k, act), id, k, ms) == MomentsActed(ms, act, t)
  {
  }

  lemma AdvanceTimedBy(w: Worker, id: SlotId, t: System, latest: bool, act: Act, ms: Moments)
    requires CanAct(w, t.now, t.stopped, act) && TimedBy(w, id, ms)
    ensures TimedBy(Advance(w, id.Kind(), t.now, t.stopped, RangeInForce(t, id), latest, act), id, MomentsActed(ms, act, t))
  {
    if act.Roll? {
      assert WaitOf(w.ivl, act.extra) == (w.ivl.min + act.extra) * MINUTE;
    }
  }

  /** A spawn is the first moment of its worker. */
  lemma SpawnTimedBy(t: System, id: SlotId, ms: Moments)
    requires t.Wf() && t.slots.Get(id).handle.None?
    ensures var k := t.slots.Get(id).gen;
            TimedBy(Spawn(id.Kind(), k + 1, t.now), id, MomentsNext(t, Ask(id), id, k, ms))
  {
  }

  /** What others do is no moment of the worker's, and changes none of its times. */
  lemma OthersMoments(t: System, l: Label, id: SlotId, k: nat, ms: Moments)
    requires t.Wf() && k < |t.slots.Get(id).workers| && !(l.Do? && l.id == id && l.k == k && Enabled(t, l))
    ensures MomentsNext(t, l, id, k, ms) == ms
  {
  }

  lemma OthersLeave(t: System, l: Label, id: SlotId, k: nat)
    requires t.Wf() && k < |t.slots.Get(id).workers| && !(l.Do? && l.id == id && l.k == k && Enabled(t, l))
    ensures k < |SlotAfter(t, l, id).workers|
    ensures SlotAfter(t, l, id).workers[k] == t.slots.Get(id).workers[k].(cancelled := SlotAfter(t, l, id).workers[k].cancelled)
  {
  }

  lemma StepTimedBy(t: System, l: Label, id: SlotId, k: nat, ms: Moments)
    requires t.Wf() && k < |SlotAfter(t, l, id).workers|
    requires k < |t.slots.Get(id).workers| ==> TimedBy(t.slots.Get(id).workers[k], id, ms)
    ensures TimedBy(SlotAfter(t, l, id).workers[k], id, MomentsNext(t, l, id, k, ms))
  {
    if k >= |t.slots.Get(id).workers| {
      SpawnTimedBy(t, id, ms);
    } else if l.Do? && l.id == id && l.k == k && Enabled(t, l) {
      OwnStepTimedBy(t, id, k, l.act, ms);
    } else {
      OthersMoments(t, l, id, k, ms);
      OthersLeave(t, l, id, k);
    }
  }

  lemma OwnStepTimedBy(t: System, id: SlotId, k: nat, act: Act, ms: Moments)
    requires t.Wf() && Enabled(t, Do(id, k, act)) && TimedBy(t.slots.Get(id).workers[k], id, ms)
    ensures var slot := SlotAfter(t, Do(id, k, act), id);
            k < |slot.workers| && TimedBy(slot.workers[k], id, MomentsNext(t, Do(id, k, act), id, k, ms))
  {
    var slot := t.slots.Get(id);
    AdvanceTimedBy(slot.workers[k], id, t, slot.gen == slot.workers[k].gen, act, ms);
    OwnMoments(t, id, k, act, ms);
  }

  lemma {:induction false} RunTimedBy(s: System, ls: seq<Label>, id: SlotId, k: nat)
    requires s.Wf() && s.slots.Get(id).workers == []
    ensures k < |Exec(s, ls).slots.Get(id).workers| ==>
              TimedBy(Exec(s, ls).slots.Get(id).workers[k], id, MomentsOf(s, ls, id, k))
  {
    if ls != [] {
      var t := Exec(s, ls[..|ls| - 1]);
      var l := ls[|ls| - 1];
      RunTimedBy(s, ls[..|ls| - 1], id, k);
      StepSlot(t, l, id);
      if k < |SlotAfter(t, l, id).workers| {
        StepTimedBy(t, l, id, k, MomentsOf(s, ls[..|ls| - 1], id, k));
      }
    }
  }

  // ---- the timer

  /** Where the announced wait began: at the request of a one-shot, at the roll of a schedule. */
  ghost function AnnouncedFrom(s: System, ls: seq<Label>, id: SlotId, k: nat): Option<System>
    requires s.Wf()
  {
    if id.Kind() == OneShot then Last(s, ls, id, k, Spawned) else Last(s, ls, id, k, Rolled)
  }

  /** How long after its announced wait began a worker came to start its timer. */
  ghost function SelectDelay(s: System, ls: seq<Label>, id: SlotId, k: nat): int
    requires s.Wf()
  {
    var from := AnnouncedFrom(s, ls, id, k);
    var entered := Last(s, ls, id, k, Entered);
    if from.Some? && entered.Some? then entered.value.now - from.value.now else 0
  }

  /**
   * Along any run from boot, the timer of a waiting worker expires exactly as long after the
   * announced time as the worker took from its roll (a one-shot from its request) to its select.
   */
  lemma TimerRunsAsAnnounced(now: int, restartIvl: Range, lockIvl: Range, disk: Option<Intent>, ls: seq<Label>, id: SlotId, k: nat)
    ensures var b := Boot(now, restartIvl, lockIvl, disk);
            var slot := Exec(b, ls).slots.Get(id);
            k < |slot.workers| && slot.workers[k].pc == Waiting ==>
              slot.workers[k].expiry == slot.workers[k].next + SelectDelay(b, ls, id, k)
  {
    RunTimedBy(Boot(now, restartIvl, lockIvl, disk), ls, id, k);
  }

  /** The time a schedule announces: whole minutes of the range in force when it read it, counted from its roll. */
  lemma AnnouncedIsRolled(now: int, restartIvl: Range, lockIvl: Range, disk: Option<Intent>, ls: seq<Label>, id: SlotId, k: nat)
    requires id.Kind() == Schedule
    ensures var b := Boot(now, restartIvl, lockIvl, disk);
            var slot := Exec(b, ls).slots.Get(id);
            k < |slot.workers| && (slot.workers[k].pc == Arm || slot.workers[k].pc == Waiting) ==>
              var read, rolled := Last(b, ls, id, k, Read), Last(b, ls, id, k, Rolled);
              && read.Some? && rolled.Some?
              && WholeMinutes(slot.workers[k].next - rolled.value.now, RangeInForce(read.value, id))
  {
    RunTimedBy(Boot(now, restartIvl, lockIvl, disk), ls, id, k);
  }

  /**
   * In its select, a worker that owes nothing can fire exactly from the moment on when the
   * announced wait has passed since it entered: sixty seconds for a one-shot, what it rolled for
   * a schedule.
   */
  lemma FiresExactlyWhenDue(now: int, restartIvl: Range, lockIvl: Range, disk: Option<Intent>, ls: seq<Label>, id: SlotId, k: nat)
    requires var r := Exec(Boot(now, restartIvl, lockIvl, disk), ls);
             k < |r.slots.Get(id).workers| && r.slots.Get(id).workers[k].pc == Waiting && r.slots.Get(id).workers[k].note == Idle
    ensures var b := Boot(now, restartIvl, lockIvl, disk);
            var r := Exec(b, ls);
            var from, entered := AnnouncedFrom(b, ls, id, k), Last(b, ls, id, k, Entered);
            && from.Some? && entered.Some?
            && (Enabled(r, Do(id, k, Fire)) <==>
                  r.now >= entered.value.now + (r.slots.Get(id).workers[k].next - from.value.now))
            && (id.Kind() == OneShot ==> r.slots.Get(id).workers[k].next == from.value.now + 60 * SECOND)
  {
    var b := Boot(now, restartIvl, lockIvl, disk);
    var r := Exec(b, ls);
    RunTimedBy(b, ls, id, k);
    DueIff(r.slots.Get(id).workers[k], id, MomentsOf(b, ls, id, k), r.now, r.stopped);
    FireIffCan(r, id, k);
  }

  lemma FireIffCan(s: System, id: SlotId, k: nat)
    requires k < |s.slots.Get(id).workers|
    ensures Enabled(s, Do(id, k, Fire)) == CanAct(s.slots.Get(id).workers[k], s.now, s.stopped, Fire)
  {
  }

  lemma DueIff(w: Worker, id: SlotId, ms: Moments, now: int, stopped: bool)
    requires TimedBy(w, id, ms)
    ensures w.pc == Waiting && w.note == Idle ==>
              var from := if id.Kind() == OneShot then ms.spawned else ms.rolled;
              && from.Some? && ms.entered.Some?
              && (CanAct(w, now, stopped, Fire) <==> now >= ms.entered.value.now + (w.next - from.value.now))
              && (id.Kind() == OneShot ==> w.next == from.value.now + 60 * SECOND)
  {
  }

  lemma RollAnnounces(s: System, id: SlotId, k: nat, extra: nat)
    requires s.Wf() && Enabled(s, Do(id, k, Roll(extra)))
    ensures k < |Step(s, Do(id, k, Roll(extra))).slots.Get(id).workers|
    ensures Step(s, Do(id, k, Roll(extra))).slots.Get(id).workers[k].next
            == s.now + (s.slots.Get(id).workers[k].ivl.min + extra) * MINUTE
  {
    StepSlot(s, Do(id, k, Roll(extra)), id);
  }

  /** A worker that is rolling can draw every minute of its range, and its minimum if the range is empty. */
  lemma EveryMinuteCanBeRolled(s: System, id: SlotId, k: nat, m: int) returns (extra: nat)
    requires s.Wf() && k < |s.slots.Get(id).workers|
    requires s.slots.Get(id).workers[k].pc == Rolling && s.slots.Get(id).workers[k].note == Idle
    requires var ivl := s.slots.Get(id).workers[k].ivl; ivl.min <= m <= ivl.max || m == ivl.min
    ensures Enabled(s, Do(id, k, Roll(extra))) && k < |Step(s, Do(id, k, Roll(extra))).slots.Get(id).workers|
    ensures Step(s, Do(id, k, Roll(extra))).slots.Get(id).workers[k].next == s.now + m * MINUTE
  {
    extra := m - s.slots.Get(id).workers[k].ivl.min;
    RollAnnounces(s, id, k, extra);
  }

  // ---- the log

  /** The log grows by the executing worker's entry exactly when a worker fires. */
  lemma LogGrowsIff(s: System, l: Label, id: SlotId)
    requires s.Wf()
    ensures var log, log' := s.slots.Get(id).log, Step(s, l).slots.Get(id).log;
            if l.Do? && l.id == id && l.act.Fire? && Enabled(s, l) then
              |log'| == |log| + 1 && log' == log + [Firing(l.k + 1, s.now, log'[|log|].mins)]
            else log' == log
  {
    StepSlot(s, l, id);
    if l.Do? && l.id == id && Enabled(s, l) {
      assert s.slots.Get(id).workers[l.k].gen == l.k + 1;
    }
  }

  /** An entry tells the minimum of the range that was in force when the worker last read it. */
  lemma EntryTellsMinimum(now: int, restartIvl: Range, lockIvl: Range, disk: Option<Intent>, ls: seq<Label>, id: SlotId, k: nat)
    requires id.Kind() == Schedule
    requires Enabled(Exec(Boot(now, restartIvl, lockIvl, disk), ls), Do(id, k, Fire))
    ensures var b := Boot(now, restartIvl, lockIvl, disk);
            var r := Exec(b, ls);
            var read := Last(b, ls, id, k, Read);
            var log := Step(r, Do(id, k, Fire)).slots.Get(id).log;
            read.Some? && log != [] && log[|log| - 1].mins == RangeInForce(read.value, id).min
  {
    var b := Boot(now, restartIvl, lockIvl, disk);
    RunTimedBy(b, ls, id, k);
    StepSlot(Exec(b, ls), Do(id, k, Fire), id);
  }

  /**
   * A one-shot accepted by a running scheduler, whose worker enters select at once: it can fire
   * exactly from sixty seconds after the request on, and then the action has been executed once.
   */
  lemma OneShotOnTime(s: System, id: SlotId, d: nat, r: System)
    requires s.Wf() && !s.stopped && id.Kind() == OneShot && s.slots.Get(id).handle.None?
    requires r == Step(Step(Step(s, Ask(id)), Do(id, s.slots.Get(id).gen, EnterSelect)), Tick(d))
    ensures var k := s.slots.Get(id).gen;
            && (Enabled(r, Do(id, k, Fire)) <==> d >= 60 * SECOND)
            && (d >= 60 * SECOND ==>
                  var log := Step(r, Do(id, k, Fire)).slots.Get(id).log;
                  |log| == |s.slots.Get(id).log| + 1 && log[|log| - 1].gen == k + 1 && log[|log| - 1].at == s.now + d)
  {
    var k := s.slots.Get(id).gen;
    var a := Step(s, Ask(id));
    StepSlot(s, Ask(id), id);
    var b := Step(a, Do(id, k, EnterSelect));
    StepSlot(a, Do(id, k, EnterSelect), id);
    assert r.slots.Get(id) == b.slots.Get(id);
    LogGrowsIff(r, Do(id, k, Fire), id);
  }
}
