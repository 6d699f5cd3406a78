/**
 * One scheduler slot: the cancel handle, the generation counter and every worker
 * goroutine the slot has ever spawned.  The four slots of the scheduler
 * (restart/lock, schedule/one-shot) are four values of this type.
 *
 * A worker is a program counter over the goroutine's code, cut where other
 * goroutines can interleave: every section under `s.mu`, every section under the
 * lock of the published state, and entry to and exit from `select`.
 */
module Slots {
  import opened Basics

  datatype Kind = Schedule | OneShot

  datatype SlotId = RestartSchedule | RestartOnce | LockSchedule | LockOnce {
    function Kind(): Kind {
      if this == RestartSchedule || this == LockSchedule then Schedule else OneShot
    }
  }

  /** A value for each of the four slots. */
  datatype Four<T> = Four(restartSchedule: T, restartOnce: T, lockSchedule: T, lockOnce: T) {
    function Get(id: SlotId): T {
      match id
      case RestartSchedule => restartSchedule
      case RestartOnce => restartOnce
      case LockSchedule => lockSchedule
      case LockOnce => lockOnce
    }

    function Put(id: SlotId, x: T): (r: Four<T>)
      ensures r.Get(id) == x
      ensures forall j: SlotId :: j != id ==> r.Get(j) == Get(j)
    {
      match id
      case RestartSchedule => this.(restartSchedule := x)
      case RestartOnce => this.(restartOnce := x)
      case LockSchedule => this.(lockSchedule := x)
      case LockOnce => this.(lockOnce := x)
    }
  }

  /** Which schedules should be active across restarts of the program. */
  datatype Intent = Intent(restart: bool, lock: bool)

  /**
   * What a goroutine still owes after it changed a schedule flag: `Pending` means it
   * must read callback and flags, `Writing` that it holds an intent to be written.
   */
  datatype Note = Idle | Pending | Writing(intent: Intent)

  datatype Pc =
    | Loop       // schedule: about to lock s.mu and read the interval range
    | Rolling    // schedule: range read, about to draw the interval and read the clock
    | Publish    // schedule: about to publish "on" with the next firing time
    | Arm        // about to create the timer and enter select
    | Waiting    // inside select
    | Finish     // one-shot: past select, about to call its own cancel function
    | Leaving    // about to take s.mu in the exit code
    | Unpublish  // exit code found its own generation, about to publish "off"
    | Done

  /**
   * `since` is the time of the last firing (of the spawn before the first one), `ivl` the
   * range last read, `next` the firing time announced, `expiry` the timer's expiry and
   * `shots` the number of times the action was executed.
   */
  datatype Worker = Worker(
    gen: nat, born: int, since: int, ivl: Range, wait: int, next: int, expiry: int,
    cancelled: bool, shots: nat, pc: Pc, note: Note)
  {
    predicate Exited() { pc == Done && note == Idle }
  }

  /** An execution of the slot's action, with the minimum in force when the wait was drawn. */
  datatype Firing = Firing(gen: nat, at: int, mins: int)

  datatype Slot = Slot(handle: Option<nat>, gen: nat, workers: seq<Worker>, log: seq<Firing>) {
    /** Generations number the workers in spawn order; the handle names one of them. */
    ghost predicate Wf() {
      && gen == |workers|
      && (forall k :: 0 <= k < |workers| ==> workers[k].gen == k + 1)
      && (handle.Some? ==> 1 <= handle.value <= gen)
    }
  }

  const EMPTY_SLOT := Slot(None, 0, [], [])

  function Spread(ivl: Range): nat {
    if ivl.max - ivl.min <= 0 then 0 else ivl.max - ivl.min
  }

  /** The wait that a random draw of `extra` minutes above the minimum makes. */
  function WaitOf(ivl: Range, extra: nat): int {
    (ivl.min + extra) * MINUTE
  }

  function Spawn(kind: Kind, gen: nat, now: int): Worker {
    match kind
    case Schedule => Worker(gen, now, now, Range(0, 0), 0, now, now, false, 0, Loop, Idle)
    // A one-shot waits sixty seconds, recorded as the range "one minute".
    case OneShot => Worker(gen, now, now, Range(1, 1), MINUTE, now + MINUTE, now, false, 0, Arm, Idle)
  }

  /** StartRestartSchedule, StartLockSchedule, RestartOnce, LockOnce: ignored while the handle is set. */
  function Request(slot: Slot, kind: Kind, now: int): (r: Slot)
    requires slot.Wf()
    ensures r.Wf()
  {
    if slot.handle.Some? then slot
    else slot.(handle := Some(slot.gen + 1), gen := slot.gen + 1,
               workers := slot.workers + [Spawn(kind, slot.gen + 1, now)])
  }

  /** StopRestartSchedule, StopLockSchedule, CancelRestartOnce, CancelLockOnce. */
  function Cancel(slot: Slot): (r: Slot)
    requires slot.Wf()
    ensures r.Wf()
  {
    if slot.handle.None? then slot
    else
      var k := slot.handle.value - 1;
      slot.(handle := None, workers := slot.workers[k := slot.workers[k].(cancelled := true)])
  }

  /** The steps of a worker; `Roll` carries the random draw, `Write` the outcome of the write. */
  datatype Outcome = Saved | Kept | Torn
  datatype Act =
    | ReadInterval | Roll(extra: nat) | PublishOn | EnterSelect | Fire | Quit | CancelSelf
    | Leave | PublishOff | Notify | Write(outcome: Outcome)

  predicate CanAct(w: Worker, now: int, stopped: bool, act: Act) {
    match act
    case Notify => w.note.Pending?
    case Write(_) => w.note.Writing?
    case _ =>
      w.note.Idle? &&
      match act
      case ReadInterval => w.pc == Loop
      case Roll(extra) => w.pc == Rolling && extra <= Spread(w.ivl)
      case PublishOn => w.pc == Publish
      case EnterSelect => w.pc == Arm
      case Fire => w.pc == Waiting && now >= w.expiry
      case Quit => w.pc == Waiting && (w.cancelled || stopped)
      case CancelSelf => w.pc == Finish
      case Leave => w.pc == Leaving
      case PublishOff => w.pc == Unpublish
      case _ => false
  }

  /** Where a worker goes after the cancel branch of select. */
  function AfterQuit(kind: Kind): Pc {
    if kind == Schedule then Leaving else Finish
  }

  /** The worker's own part of a step; `latest` says whether its generation is the slot's. */
  function Advance(w: Worker, kind: Kind, now: int, stopped: bool, ivl: Range, latest: bool, act: Act): Worker {
    match act
    case ReadInterval => w.(ivl := ivl, pc := Rolling)
    case Roll(extra) =>
      var wait := WaitOf(w.ivl, extra);
      w.(wait := wait, next := now + wait, pc := Publish)
    case PublishOn => w.(pc := Arm)
    case EnterSelect =>
      // A context that is already done wins against a timer that has not expired.
      if (w.cancelled || stopped) && w.wait > 0 then w.(pc := AfterQuit(kind))
      else w.(expiry := now + w.wait, pc := Waiting)
    case Fire => w.(shots := w.shots + 1, since := now, pc := if kind == Schedule then Loop else Finish)
    case Quit => w.(pc := AfterQuit(kind))
    case CancelSelf => w.(cancelled := true, pc := Leaving)
    case Leave => w.(pc := if latest then Unpublish else Done)
    case PublishOff => w.(pc := Done)
    case _ => w
  }

  /** The notes a step may leave behind. */
  predicate NoteFits(w: Worker, act: Act, note: Note) {
    match act
    case PublishOn => !note.Writing?
    case PublishOff => !note.Writing?
    case Notify => !note.Pending?
    case Write(_) => note.Idle?
    case _ => note == w.note
  }

  /** A step of worker number `k` (generation `k + 1`), leaving `note` behind. */
  function Work(slot: Slot, kind: Kind, now: int, stopped: bool, ivl: Range, k: nat, act: Act, note: Note): (r: Slot)
    requires slot.Wf() && k < |slot.workers|
    ensures r.Wf()
  {
    var w := slot.workers[k];
    var latest := slot.gen == w.gen;
    var w' := Advance(w, kind, now, stopped, ivl, latest, act).(note := note);
    Slot(if act.Leave? && latest then None else slot.handle,
         slot.gen,
         slot.workers[k := w'],
         if act.Fire? then slot.log + [Firing(w.gen, now, w.ivl.min)] else slot.log)
  }
}
