/**
 * How often a slot fires: the gap between the firings of one worker, the time n firings
 * take, and the conservation of one-shot requests.
 */
module Firings {
  import opened Basics
  import opened Slots
  import opened Machine

  predicate PastSelect(w: Worker) {
    w.pc == Finish || w.pc == Leaving || w.pc == Unpublish || w.pc == Done
  }

  /** Times a worker carries from one step to the next. */
  ghost predicate Timed(w: Worker, now: int) {
    && w.born <= now && w.since <= now
    && (w.pc == Publish || w.pc == Arm || w.pc == Waiting ==>
          w.next >= w.since + w.wait && w.wait >= w.ivl.min * MINUTE && w.next <= now + w.wait)
    && (w.pc == Waiting ==> w.expiry >= w.next)
  }

  /** The log lists each firing once, no later than the worker's last firing, with the due gaps. */
  ghost predicate Spaced(slot: Slot, now: int) {
    && slot.Wf()
    && (forall k :: 0 <= k < slot.gen ==> Timed(slot.workers[k], now))
    && (forall i :: 0 <= i < |slot.log| ==> 1 <= slot.log[i].gen <= slot.gen)
    && (forall i :: 0 <= i < |slot.log| ==> slot.log[i].at <= slot.workers[slot.log[i].gen - 1].since)
    && Gaps(slot.log)
  }

  lemma AdvanceTimed(w: Worker, kind: Kind, now: int, stopped: bool, ivl: Range, latest: bool, act: Act)
    requires Timed(w, now) && CanAct(w, now, stopped, act)
    ensures var w' := Advance(w, kind, now, stopped, ivl, latest, act);
            Timed(w', now) && w'.since >= w.since && w'.born == w.born
    ensures act.Fire? ==> now >= w.since + w.ivl.min * MINUTE
  {
    if act.Roll? {
      assert (w.ivl.min + act.extra) * MINUTE >= w.ivl.min * MINUTE;
    }
  }

  /** The executions of each worker are spaced by the minimum in force when the later wait was drawn. */
  ghost predicate Gaps(log: seq<Firing>) {
    forall i, j :: 0 <= i < j < |log| && log[i].gen == log[j].gen ==> log[j].at >= log[i].at + log[j].mins * MINUTE
  }

  lemma GapsPush(log: seq<Firing>, f: Firing)
    requires Gaps(log) && forall i :: 0 <= i < |log| && log[i].gen == f.gen ==> f.at >= log[i].at + f.mins * MINUTE
    ensures Gaps(log + [f])
  {
    var r := log + [f];
    forall i, j | 0 <= i < j < |r| && r[i].gen == r[j].gen ensures r[j].at >= r[i].at + r[j].mins * MINUTE {
      assert r[i] == log[i];
    }
  }

  lemma WorkSpaced(slot: Slot, kind: Kind, now: int, stopped: bool, ivl: Range, k: nat, act: Act, note: Note)
    requires Spaced(slot, now) && k < |slot.workers| && CanAct(slot.workers[k], now, stopped, act)
    ensures Spaced(Work(slot, kind, now, stopped, ivl, k, act, note), now)
  {
    var w := slot.workers[k];
    AdvanceTimed(w, kind, now, stopped, ivl, slot.gen == w.gen, act);
    if act.Fire? {
      GapsPush(slot.log, Firing(w.gen, now, w.ivl.min));
    }
    var r := Work(slot, kind, now, stopped, ivl, k, act, note);
    forall i | 0 <= i < |r.log|
      ensures 1 <= r.log[i].gen <= r.gen && r.log[i].at <= r.workers[r.log[i].gen - 1].since
    {
      if i < |slot.log| {
        assert r.log[i] == slot.log[i];
      }
    }
  }

  lemma RequestSpaced(slot: Slot, kind: Kind, now: int)
    requires Spaced(slot, now)
    ensures Spaced(Request(slot, kind, now), now)
  {
  }

  lemma CancelSpaced(slot: Slot, now: int)
    requires Spaced(slot, now)
    ensures Spaced(Slots.Cancel(slot), now)
  {
    var r := Slots.Cancel(slot);
    assert forall k :: 0 <= k < slot.gen ==> Timed(slot.workers[k], now);
  }

  ghost predicate AllSpaced(s: System) {
    s.Wf() && forall id: SlotId :: Spaced(s.slots.Get(id), s.now)
  }

  lemma SlotStaysSpaced(s: System, l: Label, id: SlotId)
    requires s.Wf() && Spaced(s.slots.Get(id), s.now)
    ensures Spaced(SlotAfter(s, l, id), s.now)
  {
    var slot := s.slots.Get(id);
    if Enabled(s, l) {
      match l
      case Do(i, k, act) =>
        if i == id {
          WorkSpaced(slot, id.Kind(), s.now, s.stopped, s.Ivl(id), k, act, NoteAfter(s, id, slot.workers[k], act));
        }
      case Ask(i) => RequestSpaced(slot, id.Kind(), s.now);
      case CancelNext(t) => CancelSpaced(slot, s.now);
      case _ =>
    }
  }

  lemma ClockAdvances(s: System, l: Label)
    requires s.Wf()
    ensures s.now <= Step(s, l).now
  {
  }

  lemma SpacedLater(slot: Slot, now: int, later: int)
    requires Spaced(slot, now) && now <= later
    ensures Spaced(slot, later)
  {
    assert forall k :: 0 <= k < slot.gen ==> Timed(slot.workers[k], now);
  }

  lemma StepSpaced(s: System, l: Label, r: System)
    requires AllSpaced(s) && r == Step(s, l)
    ensures AllSpaced(r)
  {
    ClockAdvances(s, l);
    forall id: SlotId ensures Spaced(r.slots.Get(id), r.now) {
      StepSlot(s, l, id);
      SlotStaysSpaced(s, l, id);
      SpacedLater(SlotAfter(s, l, id), s.now, r.now);
    }
  }

  lemma {:induction false} RunSpaced(s: System, ls: seq<Label>)
    requires AllSpaced(s)
    ensures AllSpaced(Exec(s, ls))
  {
    if ls != [] {
      RunSpaced(s, ls[..|ls| - 1]);
      StepSpaced(Exec(s, ls[..|ls| - 1]), ls[|ls| - 1], Exec(s, ls));
    }
  }

  /**
   * After any run, whatever intervals were set along the way: between two executions by the
   * same worker lie at least the minutes that were the minimum in force when the later wait
   * was drawn.
   */
  lemma FiringGap(now: int, restartIvl: Range, lockIvl: Range, disk: Option<Intent>, ls: seq<Label>, id: SlotId)
    ensures var log := Exec(Boot(now, restartIvl, lockIvl, disk), ls).slots.Get(id).log;
            forall i, j :: 0 <= i < j < |log| && log[i].gen == log[j].gen ==>
              log[j].at - log[i].at >= log[j].mins * MINUTE
  {
    RunSpaced(Boot(now, restartIvl, lockIvl, disk), ls);
    var s := Exec(Boot(now, restartIvl, lockIvl, disk), ls);
    assert Spaced(s.slots.Get(id), s.now);
  }

  // ---- n firings of one worker

  ghost function FiringsOf(log: seq<Firing>, gen: nat): seq<Firing> {
    if log == [] then []
    else
      var rest := FiringsOf(log[..|log| - 1], gen);
      if log[|log| - 1].gen == gen then rest + [log[|log| - 1]] else rest
  }

  /** The worker's counters agree with the log, and n firings took n times the floor. */
  ghost predicate Paced(w: Worker, log: seq<Firing>, floor: int) {
    var fs := FiringsOf(log, w.gen);
    && |fs| == w.shots
    && (fs != [] ==> fs[|fs| - 1].at == w.since)
    && (w.pc == Rolling || w.pc == Publish || w.pc == Arm || w.pc == Waiting ==> w.ivl.min >= floor)
    && w.since >= w.born + w.shots * floor * MINUTE
  }

  ghost predicate AllPaced(slot: Slot, floor: int) {
    slot.Wf() && forall k :: 0 <= k < slot.gen ==> Paced(slot.workers[k], slot.log, floor)
  }

  lemma FiringsOfPush(log: seq<Firing>, f: Firing, gen: nat)
    ensures FiringsOf(log + [f], gen) == FiringsOf(log, gen) + if f.gen == gen then [f] else []
  {
    assert (log + [f])[..|log|] == log;
  }

  lemma AdvancePaced(w: Worker, log: seq<Firing>, floor: int, now: int, stopped: bool, ivl: Range, latest: bool,
                     act: Act, note: Note)
    requires Paced(w, log, floor) && Timed(w, now) && ivl.min >= floor && CanAct(w, now, stopped, act)
    ensures Paced(Advance(w, Schedule, now, stopped, ivl, latest, act).(note := note),
                  if act.Fire? then log + [Firing(w.gen, now, w.ivl.min)] else log, floor)
  {
    if act.Fire? {
      FiringsOfPush(log, Firing(w.gen, now, w.ivl.min), w.gen);
      AdvanceTimed(w, Schedule, now, stopped, ivl, latest, act);
      assert (w.shots + 1) * floor * MINUTE == w.shots * floor * MINUTE + floor * MINUTE;
      assert w.ivl.min * MINUTE >= floor * MINUTE;
    }
  }

  lemma WorkPaced(slot: Slot, floor: int, now: int, stopped: bool, ivl: Range, k: nat, act: Act, note: Note)
    requires AllPaced(slot, floor) && Spaced(slot, now) && ivl.min >= floor
    requires k < |slot.workers| && CanAct(slot.workers[k], now, stopped, act)
    ensures AllPaced(Work(slot, Schedule, now, stopped, ivl, k, act, note), floor)
  {
    var r := Work(slot, Schedule, now, stopped, ivl, k, act, note);
    var w := slot.workers[k];
    AdvancePaced(w, slot.log, floor, now, stopped, ivl, slot.gen == w.gen, act, note);
    forall j | 0 <= j < slot.gen && j != k ensures Paced(r.workers[j], r.log, floor) {
      FiringsOfPush(slot.log, Firing(w.gen, now, w.ivl.min), j + 1);
    }
  }

  /** The minimum of the range that a label puts in force for the slot is at least `floor`. */
  predicate KeepsFloor(l: Label, id: SlotId, floor: int) {
    l.SetIntervals? ==> (if id == RestartSchedule || id == RestartOnce then l.restart else l.lock).min >= floor
  }

  lemma RequestPaced(slot: Slot, floor: int, now: int)
    requires AllPaced(slot, floor) && Spaced(slot, now)
    ensures AllPaced(Request(slot, Schedule, now), floor)
  {
    if slot.handle.None? {
      NothingFiredYet(slot.log, slot.gen, slot.gen + 1);
    }
  }

  lemma CancelPaced(slot: Slot, floor: int)
    requires AllPaced(slot, floor)
    ensures AllPaced(Slots.Cancel(slot), floor)
  {
    assert forall k :: 0 <= k < slot.gen ==> Paced(slot.workers[k], slot.log, floor);
  }

  lemma StepPaced(s: System, l: Label, id: SlotId, floor: int)
    requires s.Wf() && Spaced(s.slots.Get(id), s.now) && id.Kind() == Schedule && s.Ivl(id).min >= floor
    requires AllPaced(s.slots.Get(id), floor)
    ensures AllPaced(SlotAfter(s, l, id), floor)
  {
    var slot := s.slots.Get(id);
    if Enabled(s, l) {
      match l
      case Do(i, k, act) =>
        if i == id {
          WorkPaced(slot, floor, s.now, s.stopped, s.Ivl(id), k, act, NoteAfter(s, id, slot.workers[k], act));
        }
      case Ask(i) => RequestPaced(slot, floor, s.now);
      case CancelNext(t) => CancelPaced(slot, floor);
      case _ =>
    }
  }

  lemma StepKeepsFloor(s: System, l: Label, id: SlotId, floor: int)
    requires s.Wf() && s.Ivl(id).min >= floor && KeepsFloor(l, id, floor)
    ensures Step(s, l).Ivl(id).min >= floor
  {
  }

  lemma {:induction false} NothingFiredYet(log: seq<Firing>, gens: nat, gen: nat)
    requires gen > gens && forall i :: 0 <= i < |log| ==> log[i].gen <= gens
    ensures FiringsOf(log, gen) == []
  {
    if log != [] {
      NothingFiredYet(log[..|log| - 1], gens, gen);
    }
  }

  lemma {:induction false} RunPaced(s: System, ls: seq<Label>, id: SlotId, floor: int)
    requires AllSpaced(s) && id.Kind() == Schedule && s.Ivl(id).min >= floor
    requires forall i :: 0 <= i < |ls| ==> KeepsFloor(ls[i], id, floor)
    requires AllPaced(s.slots.Get(id), floor)
    ensures Exec(s, ls).Ivl(id).min >= floor && AllPaced(Exec(s, ls).slots.Get(id), floor)
  {
    if ls != [] {
      RunPaced(s, ls[..|ls| - 1], id, floor);
      RunSpaced(s, ls[..|ls| - 1]);
      var t := Exec(s, ls[..|ls| - 1]);
      var l := ls[|ls| - 1];
      StepPaced(t, l, id, floor);
      StepKeepsFloor(t, l, id, floor);
      StepSlot(t, l, id);
    }
  }

  lemma BootPaced(s: System, now: int, restartIvl: Range, lockIvl: Range, disk: Option<Intent>, id: SlotId, floor: int)
    requires s == Boot(now, restartIvl, lockIvl, disk)
    ensures AllSpaced(s) && AllPaced(s.slots.Get(id), floor)
  {
  }

  lemma LastFiringOf(slot: Slot, floor: int, k: nat)
    requires AllPaced(slot, floor) && k < |slot.workers|
    ensures var fs := FiringsOf(slot.log, k + 1);
            fs != [] ==> fs[|fs| - 1].at - slot.workers[k].born >= |fs| * floor * MINUTE
  {
    assert Paced(slot.workers[k], slot.log, floor);
  }

  /**
   * If no minimum below `floor` minutes was ever in force, the last of n firings of a worker
   * comes at least n times `floor` minutes after the worker was spawned.
   */
  lemma NFiringsTakeNWaits(now: int, restartIvl: Range, lockIvl: Range, disk: Option<Intent>, ls: seq<Label>,
                           id: SlotId, floor: int, k: nat)
    requires id.Kind() == Schedule && Boot(now, restartIvl, lockIvl, disk).Ivl(id).min >= floor
    requires forall i :: 0 <= i < |ls| ==> KeepsFloor(ls[i], id, floor)
    ensures var slot := Exec(Boot(now, restartIvl, lockIvl, disk), ls).slots.Get(id);
            k < |slot.workers| ==>
              var fs := FiringsOf(slot.log, k + 1);
              fs != [] ==> fs[|fs| - 1].at - slot.workers[k].born >= |fs| * floor * MINUTE
  {
    var s := Boot(now, restartIvl, lockIvl, disk);
    BootPaced(s, now, restartIvl, lockIvl, disk, id, floor);
    RunPaced(s, ls, id, floor);
    if k < |Exec(s, ls).slots.Get(id).workers| {
      LastFiringOf(Exec(s, ls).slots.Get(id), floor, k);
    }
  }

  // ---- one-shots

  function Undecided(w: Worker): nat { if w.pc == Arm || w.pc == Waiting then 1 else 0 }
  function EndedUnfired(w: Worker): nat { if PastSelect(w) && w.shots == 0 then 1 else 0 }
  function Shots(w: Worker): nat { w.shots }

  ghost predicate OnceWorker(w: Worker) {
    && (w.pc == Arm || w.pc == Waiting || PastSelect(w))
    && w.shots <= 1
    && (w.pc == Arm || w.pc == Waiting ==>
          w.shots == 0 && w.since == w.born && w.wait == MINUTE && w.next == w.born + MINUTE)
  }

  /** Every entry of the log is the one execution of a worker, at least a minute after its spawn. */
  ghost predicate Logged(ws: seq<Worker>, log: seq<Firing>) {
    && (forall i :: 0 <= i < |log| ==>
          1 <= log[i].gen <= |ws| && ws[log[i].gen - 1].shots == 1 && log[i].at >= ws[log[i].gen - 1].born + MINUTE)
    && (forall i, j :: 0 <= i < j < |log| ==> log[i].gen != log[j].gen)
  }

  ghost predicate AllOnce(ws: seq<Worker>) {
    forall k :: 0 <= k < |ws| ==> OnceWorker(ws[k])
  }

  lemma AllOnceUpdate(ws: seq<Worker>, k: nat, w: Worker)
    requires AllOnce(ws) && k < |ws| && OnceWorker(w)
    ensures AllOnce(ws[k := w])
  {
  }

  ghost predicate OnceSlot(slot: Slot) {
    && slot.Wf()
    && AllOnce(slot.workers)
    && |slot.log| == Sum(slot.workers, Shots)
    && Logged(slot.workers, slot.log)
  }

  lemma AdvanceOnce(w: Worker, now: int, stopped: bool, ivl: Range, latest: bool, act: Act)
    requires OnceWorker(w) && Timed(w, now) && CanAct(w, now, stopped, act)
    ensures var w' := Advance(w, OneShot, now, stopped, ivl, latest, act);
            OnceWorker(w') && w'.born == w.born && w'.shots == w.shots + if act.Fire? then 1 else 0
    ensures act.Fire? ==> w.shots == 0 && now >= w.born + MINUTE
  {
  }

  lemma LoggedUpdate(ws: seq<Worker>, log: seq<Firing>, k: nat, w: Worker)
    requires Logged(ws, log) && k < |ws| && w.born == ws[k].born
    requires w.shots == ws[k].shots || ws[k].shots == 0
    ensures Logged(ws[k := w], log)
    ensures ws[k].shots == 0 ==> forall i :: 0 <= i < |log| ==> log[i].gen != k + 1
  {
  }

  lemma LoggedPush(ws: seq<Worker>, log: seq<Firing>, f: Firing)
    requires Logged(ws, log) && 1 <= f.gen <= |ws| && ws[f.gen - 1].shots == 1
    requires f.at >= ws[f.gen - 1].born + MINUTE
    requires forall i :: 0 <= i < |log| ==> log[i].gen != f.gen
    ensures Logged(ws, log + [f])
  {
    var r := log + [f];
    forall i, j | 0 <= i < j < |r| ensures r[i].gen != r[j].gen {
      assert r[i] == log[i];
    }
  }

  lemma WorkOnce(slot: Slot, now: int, stopped: bool, ivl: Range, k: nat, act: Act, note: Note)
    requires OnceSlot(slot) && k < |slot.workers| && Timed(slot.workers[k], now)
    requires CanAct(slot.workers[k], now, stopped, act)
    ensures OnceSlot(Work(slot, OneShot, now, stopped, ivl, k, act, note))
  {
    var w := slot.workers[k];
    AdvanceOnce(w, now, stopped, ivl, slot.gen == w.gen, act);
    var w' := Advance(w, OneShot, now, stopped, ivl, slot.gen == w.gen, act).(note := note);
    AllOnceUpdate(slot.workers, k, w');
    SumUpdate(slot.workers, k, w', Shots);
    LoggedUpdate(slot.workers, slot.log, k, w');
    if act.Fire? {
      LoggedPush(slot.workers[k := w'], slot.log, Firing(w.gen, now, w.ivl.min));
    }
  }

  lemma LoggedSpawn(ws: seq<Worker>, log: seq<Firing>, w: Worker)
    requires Logged(ws, log) && AllOnce(ws) && OnceWorker(w)
    ensures Logged(ws + [w], log) && AllOnce(ws + [w])
  {
  }

  lemma RequestOnce(slot: Slot, now: int)
    requires OnceSlot(slot)
    ensures OnceSlot(Request(slot, OneShot, now))
  {
    var w := Spawn(OneShot, slot.gen + 1, now);
    SumPush(slot.workers, w, Shots);
    LoggedSpawn(slot.workers, slot.log, w);
  }

  lemma CancelOnce(slot: Slot)
    requires OnceSlot(slot)
    ensures OnceSlot(Slots.Cancel(slot))
  {
    if slot.handle.Some? {
      var k := slot.handle.value - 1;
      var w := slot.workers[k].(cancelled := true);
      assert OnceWorker(slot.workers[k]);
      AllOnceUpdate(slot.workers, k, w);
      SumUpdate(slot.workers, k, w, Shots);
      LoggedUpdate(slot.workers, slot.log, k, w);
      var r := Slots.Cancel(slot);
      assert r.workers == slot.workers[k := w] && r.log == slot.log && r.gen == slot.gen;
    }
  }

  lemma StepOnce(s: System, l: Label, id: SlotId)
    requires s.Wf() && Spaced(s.slots.Get(id), s.now) && id.Kind() == OneShot && OnceSlot(s.slots.Get(id))
    ensures OnceSlot(SlotAfter(s, l, id))
  {
    var slot := s.slots.Get(id);
    if Enabled(s, l) {
      match l
      case Do(i, k, act) =>
        if i == id {
          WorkOnce(slot, s.now, s.stopped, s.Ivl(id), k, act, NoteAfter(s, id, slot.workers[k], act));
        }
      case Ask(i) => RequestOnce(slot, s.now);
      case CancelNext(t) => CancelOnce(slot);
      case _ =>
    }
  }

  lemma {:induction false} RunOnce(s: System, ls: seq<Label>, id: SlotId)
    requires AllSpaced(s) && id.Kind() == OneShot && OnceSlot(s.slots.Get(id))
    ensures OnceSlot(Exec(s, ls).slots.Get(id))
  {
    if ls != [] {
      RunOnce(s, ls[..|ls| - 1], id);
      RunSpaced(s, ls[..|ls| - 1]);
      StepOnce(Exec(s, ls[..|ls| - 1]), ls[|ls| - 1], id);
      StepSlot(Exec(s, ls[..|ls| - 1]), ls[|ls| - 1], id);
    }
  }

  /** The number of requests along a run that found the slot's handle unset. */
  ghost function Accepted(s: System, ls: seq<Label>, id: SlotId): nat
    requires s.Wf()
  {
    if ls == [] then 0
    else
      Accepted(s, ls[..|ls| - 1], id)
      + if ls[|ls| - 1] == Ask(id) && Exec(s, ls[..|ls| - 1]).slots.Get(id).handle.None? then 1 else 0
  }

  lemma OnlyRequestsCount(s: System, l: Label, id: SlotId)
    requires s.Wf()
    ensures SlotAfter(s, l, id).gen
            == s.slots.Get(id).gen + if l == Ask(id) && s.slots.Get(id).handle.None? then 1 else 0
  {
  }

  lemma {:induction false} GenerationCountsAccepted(s: System, ls: seq<Label>, id: SlotId)
    requires s.Wf()
    ensures Exec(s, ls).slots.Get(id).gen == s.slots.Get(id).gen + Accepted(s, ls, id)
  {
    if ls != [] {
      GenerationCountsAccepted(s, ls[..|ls| - 1], id);
      StepSlot(Exec(s, ls[..|ls| - 1]), ls[|ls| - 1], id);
      OnlyRequestsCount(Exec(s, ls[..|ls| - 1]), ls[|ls| - 1], id);
    }
  }

  lemma {:induction false} Partition(ws: seq<Worker>)
    requires AllOnce(ws)
    ensures Sum(ws, Shots) + Sum(ws, EndedUnfired) + Sum(ws, Undecided) == |ws|
  {
    if ws != [] {
      assert OnceWorker(ws[|ws| - 1]);
      Partition(ws[..|ws| - 1]);
    }
  }

  lemma BootOnce(s: System, now: int, restartIvl: Range, lockIvl: Range, disk: Option<Intent>, id: SlotId)
    requires s == Boot(now, restartIvl, lockIvl, disk)
    ensures AllSpaced(s) && OnceSlot(s.slots.Get(id)) && s.slots.Get(id).gen == 0
  {
  }

  /** No request is executed twice, and none before its sixty seconds are over. */
  ghost predicate ExecutedOnceAndLate(slot: Slot) {
    && (forall i, j :: 0 <= i < j < |slot.log| ==> slot.log[i].gen != slot.log[j].gen)
    && (forall i :: 0 <= i < |slot.log| ==>
          1 <= slot.log[i].gen <= |slot.workers|
          && slot.log[i].at >= slot.workers[slot.log[i].gen - 1].born + 60 * SECOND)
  }

  lemma OnceReport(slot: Slot)
    requires OnceSlot(slot)
    ensures slot.gen == |slot.log| + Sum(slot.workers, EndedUnfired) + Sum(slot.workers, Undecided)
    ensures ExecutedOnceAndLate(slot)
  {
    Partition(slot.workers);
  }

  /**
   * After any run, the accepted one-shot requests are exactly the executions, the workers
   * that ended without executing and the workers still undecided; no request is executed
   * twice, and none before its sixty seconds are over.
   */
  lemma OneShotConservation(now: int, restartIvl: Range, lockIvl: Range, disk: Option<Intent>, ls: seq<Label>,
                            id: SlotId)
    requires id.Kind() == OneShot
    ensures var b := Boot(now, restartIvl, lockIvl, disk);
            var slot := Exec(b, ls).slots.Get(id);
            && Accepted(b, ls, id) == |slot.log| + Sum(slot.workers, EndedUnfired) + Sum(slot.workers, Undecided)
            && ExecutedOnceAndLate(slot)
  {
    var b := Boot(now, restartIvl, lockIvl, disk);
    BootOnce(b, now, restartIvl, lockIvl, disk, id);
    RunOnce(b, ls, id);
    GenerationCountsAccepted(b, ls, id);
    OnceReport(Exec(b, ls).slots.Get(id));
  }
}
