/**
 * Configuration calls and the scheduler in one run: every configuration call that hands ranges on
 * becomes an interval update of the running scheduler.
 */
module WholeProgram {
  import opened Basics
  import opened Slots
  import opened Machine
  import opened Firings
  import opened Draining
  import Configuration
  import C = ConfigHandlers

  type Decoder = Configuration.Decoder

  datatype Program = Program(held: C.Held, sys: System)

  datatype Event = Configure(e: C.Event) | Run(l: Label)

  /** The scheduler boots with the ranges of the configuration that was loaded. */
  function Start(c: Configuration.Cfg, file: Configuration.File, now: int, disk: Option<Intent>): (p: Program)
    ensures p.sys.Wf()
  {
    var held := C.HandOn(C.Held(c, file, Range(1, 1), Range(1, 1), MINUTE));
    Program(held, Boot(now, held.restartIvl, held.lockIvl, disk))
  }

  /** What an event means for the scheduler. */
  function LabelOf(decode: Decoder, h: C.Held, e: Event): Label {
    match e
    case Configure(ce) => var h' := C.Next(decode, h, ce).0; SetIntervals(h'.restartIvl, h'.lockIvl)
    case Run(l) => if l.SetIntervals? then Tick(0) else l   // only the configuration sets intervals
  }

  ghost function Next(decode: Decoder, p: Program, e: Event): (r: Program)
    requires p.sys.Wf()
    ensures r.sys.Wf()
  {
    Program(if e.Configure? then C.Next(decode, p.held, e.e).0 else p.held, Step(p.sys, LabelOf(decode, p.held, e)))
  }

  ghost function After(decode: Decoder, p: Program, es: seq<Event>): (r: Program)
    requires p.sys.Wf()
    ensures r.sys.Wf()
  {
    if es == [] then p else Next(decode, After(decode, p, es[..|es| - 1]), es[|es| - 1])
  }

  /** The run of the scheduler that the events amount to. */
  ghost function Labels(decode: Decoder, p: Program, es: seq<Event>): seq<Label>
    requires p.sys.Wf()
  {
    if es == [] then []
    else Labels(decode, p, es[..|es| - 1]) + [LabelOf(decode, After(decode, p, es[..|es| - 1]).held, es[|es| - 1])]
  }

  // ---- the waits of the scheduler's workers

  predicate WaitInBounds(wait: int) { MINUTE <= wait <= Configuration.MAX_INTERVAL_MINUTES * MINUTE }

  /** The range a worker has read and the wait it has rolled from it. */
  predicate Bounded(w: Worker) {
    && (w.pc != Loop ==> C.RangeInBounds(w.ivl))
    && (w.pc == Publish || w.pc == Arm || w.pc == Waiting ==> WaitInBounds(w.wait))
  }

  ghost predicate AllBounded(slot: Slot) {
    && (forall k :: 0 <= k < |slot.workers| ==> Bounded(slot.workers[k]))
    && (forall i :: 0 <= i < |slot.log| ==> slot.log[i].mins >= 1)
  }

  lemma AdvanceBounded(w: Worker, kind: Kind, now: int, stopped: bool, ivl: Range, latest: bool, act: Act)
    requires Bounded(w) && C.RangeInBounds(ivl) && CanAct(w, now, stopped, act)
    ensures Bounded(Advance(w, kind, now, stopped, ivl, latest, act))
  {
    if act.Roll? {
      C.RollInBounds(w.ivl, act.extra);
    }
  }

  lemma WorkBounded(slot: Slot, kind: Kind, now: int, stopped: bool, ivl: Range, k: nat, act: Act, note: Note)
    requires slot.Wf() && AllBounded(slot) && C.RangeInBounds(ivl)
    requires k < |slot.workers| && CanAct(slot.workers[k], now, stopped, act)
    ensures AllBounded(Work(slot, kind, now, stopped, ivl, k, act, note))
  {
    var w := slot.workers[k];
    AdvanceBounded(w, kind, now, stopped, ivl, slot.gen == w.gen, act);
  }

  lemma SlotBounded(s: System, l: Label, id: SlotId)
    requires s.Wf() && C.RangeInBounds(s.Ivl(id)) && AllBounded(s.slots.Get(id))
    ensures AllBounded(SlotAfter(s, l, id))
  {
    var slot := s.slots.Get(id);
    if Enabled(s, l) && l.Do? && l.id == id {
      WorkBounded(slot, id.Kind(), s.now, s.stopped, s.Ivl(id), l.k, l.act, NoteAfter(s, id, slot.workers[l.k], l.act));
    }
  }

  // ---- every run of the program

  ghost predicate Sound(decode: Decoder, p: Program) {
    && p.sys.Wf() && C.HeldValid(decode, p.held)
    && p.sys.restartIvl == p.held.restartIvl && p.sys.lockIvl == p.held.lockIvl
    && forall id: SlotId :: AllBounded(p.sys.slots.Get(id))
  }

  lemma IntervalsAfter(s: System, l: Label)
    requires s.Wf()
    ensures var r := Step(s, l);
            if l.SetIntervals? then r.restartIvl == l.restart && r.lockIvl == l.lock
            else r.restartIvl == s.restartIvl && r.lockIvl == s.lockIvl
  {
  }

  lemma NextSound(decode: Decoder, p: Program, e: Event)
    requires C.DefaultDecodes(decode) && Sound(decode, p)
    ensures Sound(decode, Next(decode, p, e))
  {
    var l := LabelOf(decode, p.held, e);
    if e.Configure? {
      C.NextValid(decode, p.held, e.e);
    }
    IntervalsAfter(p.sys, l);
    forall id: SlotId ensures AllBounded(Step(p.sys, l).slots.Get(id)) {
      SlotBounded(p.sys, l, id);
      StepSlot(p.sys, l, id);
    }
  }

  lemma {:induction false} RunSound(decode: Decoder, p: Program, es: seq<Event>)
    requires C.DefaultDecodes(decode) && Sound(decode, p)
    ensures Sound(decode, After(decode, p, es))
  {
    if es != [] {
      RunSound(decode, p, es[..|es| - 1]);
      NextSound(decode, After(decode, p, es[..|es| - 1]), es[|es| - 1]);
    }
  }

  lemma StartSound(decode: Decoder, c: Configuration.Cfg, file: Configuration.File, now: int, disk: Option<Intent>)
    requires Configuration.Valid(decode, c)
    ensures Sound(decode, Start(c, file, now, disk))
  {
  }

  lemma {:induction false} ProgramIsRun(decode: Decoder, p: Program, es: seq<Event>)
    requires p.sys.Wf()
    ensures After(decode, p, es).sys == Exec(p.sys, Labels(decode, p, es))
  {
    if es != [] {
      ProgramIsRun(decode, p, es[..|es| - 1]);
      var ls := Labels(decode, p, es);
      assert ls[..|ls| - 1] == Labels(decode, p, es[..|es| - 1]);
    }
  }

  /** Every interval update of the run keeps to at least a minute. */
  lemma {:induction false} LabelsArePositive(decode: Decoder, p: Program, es: seq<Event>, id: SlotId)
    requires C.DefaultDecodes(decode) && Sound(decode, p)
    ensures forall i :: 0 <= i < |Labels(decode, p, es)| ==>
              Positive(Labels(decode, p, es)[i]) && KeepsFloor(Labels(decode, p, es)[i], id, 1)
  {
    if es != [] {
      var front := es[..|es| - 1];
      LabelsArePositive(decode, p, front, id);
      RunSound(decode, p, front);
      RunSound(decode, p, es);
    }
  }

  lemma WaitIsBounded(decode: Decoder, p: Program, id: SlotId, k: nat)
    requires Sound(decode, p)
    ensures var slot := p.sys.slots.Get(id);
            k < |slot.workers| && (slot.workers[k].pc == Publish || slot.workers[k].pc == Arm || slot.workers[k].pc == Waiting) ==>
              MINUTE <= slot.workers[k].wait <= 24 * 60 * MINUTE < MAX_INT64
  {
    var slot := p.sys.slots.Get(id);
    assert AllBounded(slot);
    if k < |slot.workers| {
      assert Bounded(slot.workers[k]);
    }
  }

  lemma MinutesApart(decode: Decoder, p: Program, id: SlotId)
    requires Sound(decode, p)
    requires var log := p.sys.slots.Get(id).log;
             forall i, j :: 0 <= i < j < |log| && log[i].gen == log[j].gen ==> log[j].at - log[i].at >= log[j].mins * MINUTE
    ensures var log := p.sys.slots.Get(id).log;
            forall i, j :: 0 <= i < j < |log| && log[i].gen == log[j].gen ==> log[j].at - log[i].at >= MINUTE
  {
    var log := p.sys.slots.Get(id).log;
    assert AllBounded(p.sys.slots.Get(id));
    forall i, j | 0 <= i < j < |log| && log[i].gen == log[j].gen ensures log[j].at - log[i].at >= MINUTE {
      assert log[j].mins >= 1;
    }
  }

  /**
   * For the whole program, whatever configuration calls are made and whichever of their writes
   * fail: every wait a worker rolls lies between a minute and a day, without 64-bit overflow.
   */
  lemma EveryWaitIsBounded(decode: Decoder, c: Configuration.Cfg, file: Configuration.File, now: int, disk: Option<Intent>,
                           es: seq<Event>, id: SlotId, k: nat)
    requires C.DefaultDecodes(decode) && Configuration.Valid(decode, c)
    ensures var slot := After(decode, Start(c, file, now, disk), es).sys.slots.Get(id);
            k < |slot.workers| && (slot.workers[k].pc == Publish || slot.workers[k].pc == Arm || slot.workers[k].pc == Waiting) ==>
              MINUTE <= slot.workers[k].wait <= 24 * 60 * MINUTE < MAX_INT64
  {
    StartSound(decode, c, file, now, disk);
    RunSound(decode, Start(c, file, now, disk), es);
    WaitIsBounded(decode, After(decode, Start(c, file, now, disk), es), id, k);
  }

  /** Likewise any two executions by the same worker are at least a minute apart. */
  lemma FiringsAMinuteApart(decode: Decoder, c: Configuration.Cfg, file: Configuration.File, now: int, disk: Option<Intent>,
                            es: seq<Event>, id: SlotId)
    requires C.DefaultDecodes(decode) && Configuration.Valid(decode, c)
    ensures var log := After(decode, Start(c, file, now, disk), es).sys.slots.Get(id).log;
            forall i, j :: 0 <= i < j < |log| && log[i].gen == log[j].gen ==> log[j].at - log[i].at >= MINUTE
  {
    var p := Start(c, file, now, disk);
    StartSound(decode, c, file, now, disk);
    RunSound(decode, p, es);
    ProgramIsRun(decode, p, es);
    FiringGap(now, p.held.restartIvl, p.held.lockIvl, disk, Labels(decode, p, es), id);
    MinutesApart(decode, After(decode, p, es), id);
  }

  /** And the n-th execution of a schedule worker comes at least n minutes after it was spawned. */
  lemma NFiringsTakeNMinutes(decode: Decoder, c: Configuration.Cfg, file: Configuration.File, now: int, disk: Option<Intent>,
                             es: seq<Event>, id: SlotId, k: nat)
    requires C.DefaultDecodes(decode) && Configuration.Valid(decode, c) && id.Kind() == Schedule
    ensures var slot := After(decode, Start(c, file, now, disk), es).sys.slots.Get(id);
            k < |slot.workers| ==>
              var fs := FiringsOf(slot.log, k + 1);
              fs != [] ==> fs[|fs| - 1].at - slot.workers[k].born >= |fs| * MINUTE
  {
    var p := Start(c, file, now, disk);
    StartSound(decode, c, file, now, disk);
    LabelsArePositive(decode, p, es, id);
    ProgramIsRun(decode, p, es);
    NFiringsTakeNWaits(now, p.held.restartIvl, p.held.lockIvl, disk, Labels(decode, p, es), id, 1, k);
  }

  /** So every state of the program is one in which cancelled workers leave as the scheduler promises. */
  lemma WaitsStayLong(decode: Decoder, c: Configuration.Cfg, file: Configuration.File, now: int,
                      disk: Option<Intent>, es: seq<Event>)
    requires C.DefaultDecodes(decode) && Configuration.Valid(decode, c)
    ensures AllLong(After(decode, Start(c, file, now, disk), es).sys)
  {
    var p := Start(c, file, now, disk);
    StartSound(decode, c, file, now, disk);
    LabelsArePositive(decode, p, es, RestartSchedule);
    ProgramIsRun(decode, p, es);
    RunLong(p.sys, Labels(decode, p, es));
  }
}
