/**
 * The scheduler as an object.  Each method is a section under `s.mu` (or a call made of such
 * sections); its contract names the step of the slot machine that it performs.
 */
module SchedulerObject {
  import opened Basics
  import opened Slots
  import opened Machine
  import opened StateObject

  /** A spawned goroutine with its own cancellable context. */
  class Goroutine {
    var w: Worker

    constructor (w: Worker)
      ensures this.w == w
    {
      this.w := w;
    }
  }

  datatype CancelRequest = CancelRequest(
    restartOnce: bool, restartSchedule: bool, lockOnce: bool, lockSchedule: bool)

  /** A slot with its Stop or Cancel method applied if, and only if, the request asks for it. */
  function CancelIf(asked: bool, slot: Slot): (r: Slot)
    requires slot.Wf()
    ensures asked ==> r == Slots.Cancel(slot)
    ensures !asked ==> r == slot
  {
    if asked then Slots.Cancel(slot) else slot
  }

  class SlotObject {
    const id: SlotId
    var cancel: Goroutine?   // the cancel function of the goroutine it names, or nil
    var gen: nat
    var spawned: seq<Goroutine>
    var log: seq<Firing>
    ghost var own: set<Goroutine>   // the objects in `spawned`
    ghost var view: Slot            // the slot of the step machine that the fields stand for

    constructor (id: SlotId)
      ensures this.id == id && Valid() && view == EMPTY_SLOT && own == {}
    {
      this.id := id;
      cancel, gen, spawned, log := null, 0, [], [];
      own, view := {}, EMPTY_SLOT;
    }

    ghost predicate Valid()
      reads this, own
    {
      && |spawned| == gen
      && (forall k :: 0 <= k < gen ==> spawned[k] in own)
      && (forall i, j :: 0 <= i < j < gen ==> spawned[i] != spawned[j])
      && (cancel != null ==> cancel in spawned)
      && view.Wf() && view.gen == gen && view.log == log
      && (forall k :: 0 <= k < gen ==> view.workers[k] == spawned[k].w)
      && view.handle == (if cancel == null then None else Some(cancel.w.gen))
    }

    /** The common part of StartRestartSchedule, StartLockSchedule, RestartOnce and LockOnce. */
    method Start(now: int) returns (started: bool)
      requires Valid()
      modifies this, own
      ensures Valid() && fresh(own - old(own))
      ensures view == Request(old(view), id.Kind(), now)
      ensures started == (old(cancel) == null)
    {
      if cancel != null {
        return false;
      }
      var g := new Goroutine(Spawn(id.Kind(), gen + 1, now));
      cancel := g;
      gen := gen + 1;
      spawned := spawned + [g];
      own := own + {g};
      view := Request(view, id.Kind(), now);
      started := true;
    }

    /** The common part of the Stop and Cancel methods. */
    method StopRunning()
      requires Valid()
      modifies this, own
      ensures Valid() && own == old(own)
      ensures view == Slots.Cancel(old(view))
    {
      if cancel != null {
        view := Slots.Cancel(view);
        cancel.w := cancel.w.(cancelled := true);
        cancel := null;
      }
    }

    /** The exit code's section: only the latest generation clears the handle. */
    method Leave(g: Goroutine) returns (latest: bool)
      requires Valid() && g in spawned && g.w.pc == Leaving && g.w.note == Idle
      modifies this, own
      ensures Valid() && own == old(own) && latest == (gen == old(g.w.gen))
      ensures view == Work(old(view), id.Kind(), 0, false, Range(0, 0), old(g.w.gen) - 1, Act.Leave, Idle)
    {
      view := Work(view, id.Kind(), 0, false, Range(0, 0), g.w.gen - 1, Act.Leave, Idle);
      latest := gen == g.w.gen;
      if latest {
        cancel := null;
      }
      g.w := g.w.(pc := if latest then Unpublish else Done);
    }
  }

  class Scheduler {
    const state: State
    const restartSchedule: SlotObject
    const restartOnce: SlotObject
    const lockSchedule: SlotObject
    const lockOnce: SlotObject
    var restartInterval: Range
    var lockInterval: Range
    var stopped: bool

    ghost predicate Valid()
      reads this, restartSchedule, restartOnce, lockSchedule, lockOnce
      reads restartSchedule.own, restartOnce.own, lockSchedule.own, lockOnce.own
    {
      && restartSchedule.Valid() && restartOnce.Valid() && lockSchedule.Valid() && lockOnce.Valid()
      && restartSchedule.id == RestartSchedule && restartOnce.id == SlotId.RestartOnce
      && lockSchedule.id == LockSchedule && lockOnce.id == SlotId.LockOnce
      && restartSchedule.own !! restartOnce.own !! lockSchedule.own !! lockOnce.own
    }

    constructor (state: State, restartInterval: Range, lockInterval: Range)
      ensures Valid() && this.state == state && !stopped
      ensures this.restartInterval == restartInterval && this.lockInterval == lockInterval
      ensures restartSchedule.view == restartOnce.view == lockSchedule.view == lockOnce.view == EMPTY_SLOT
    {
      this.state := state;
      this.restartInterval, this.lockInterval, stopped := restartInterval, lockInterval, false;
      restartSchedule := new SlotObject(RestartSchedule);
      restartOnce := new SlotObject(SlotId.RestartOnce);
      lockSchedule := new SlotObject(LockSchedule);
      lockOnce := new SlotObject(SlotId.LockOnce);
    }

    /** A schedule publishes nothing until its goroutine runs. */
    method StartRestartSchedule(now: int)
      requires Valid()
      modifies restartSchedule, restartSchedule.own
      ensures Valid()
      ensures restartSchedule.view == Request(old(restartSchedule.view), Schedule, now)
    {
      var _ := restartSchedule.Start(now);
    }

    method StartLockSchedule(now: int)
      requires Valid()
      modifies lockSchedule, lockSchedule.own
      ensures Valid()
      ensures lockSchedule.view == Request(old(lockSchedule.view), Schedule, now)
    {
      var _ := lockSchedule.Start(now);
    }

    method RestartOnce(now: int)
      requires Valid()
      modifies restartOnce, restartOnce.own, state
      ensures Valid()
      ensures restartOnce.view == Request(old(restartOnce.view), OneShot, now)
      ensures old(restartOnce.cancel) == null ==>
                state.Board() == old(state.Board()).Put(SlotId.RestartOnce, Cell(true, Some(now + MINUTE)))
      ensures old(restartOnce.cancel) != null ==> state.Board() == old(state.Board())
      ensures state.onChange == old(state.onChange)
    {
      var started := restartOnce.Start(now);
      assert Valid();
      if started {
        state.SetRestartOnce(true, Some(now + MINUTE));
      }
    }

    method LockOnce(now: int)
      requires Valid()
      modifies lockOnce, lockOnce.own, state
      ensures Valid()
      ensures lockOnce.view == Request(old(lockOnce.view), OneShot, now)
      ensures old(lockOnce.cancel) == null ==>
                state.Board() == old(state.Board()).Put(SlotId.LockOnce, Cell(true, Some(now + MINUTE)))
      ensures old(lockOnce.cancel) != null ==> state.Board() == old(state.Board())
      ensures state.onChange == old(state.onChange)
    {
      var started := lockOnce.Start(now);
      assert Valid();
      if started {
        state.SetLockOnce(true, Some(now + MINUTE));
      }
    }

    method StopRestartSchedule()
      requires Valid()
      modifies restartSchedule, restartSchedule.own
      ensures Valid() && restartSchedule.view == Slots.Cancel(old(restartSchedule.view)) && restartSchedule.own == old(restartSchedule.own)
    {
      restartSchedule.StopRunning();
    }

    method StopLockSchedule()
      requires Valid()
      modifies lockSchedule, lockSchedule.own
      ensures Valid() && lockSchedule.view == Slots.Cancel(old(lockSchedule.view)) && lockSchedule.own == old(lockSchedule.own)
    {
      lockSchedule.StopRunning();
    }

    method CancelRestartOnce()
      requires Valid()
      modifies restartOnce, restartOnce.own
      ensures Valid() && restartOnce.view == Slots.Cancel(old(restartOnce.view)) && restartOnce.own == old(restartOnce.own)
    {
      restartOnce.StopRunning();
    }

    method CancelLockOnce()
      requires Valid()
      modifies lockOnce, lockOnce.own
      ensures Valid() && lockOnce.view == Slots.Cancel(old(lockOnce.view)) && lockOnce.own == old(lockOnce.own)
    {
      lockOnce.StopRunning();
    }

    /** Cancel applies the request in the order schedules first, then one-shots. */
    method Cancel(req: CancelRequest)
      requires Valid()
      modifies restartSchedule, restartSchedule.own, restartOnce, restartOnce.own
      modifies lockSchedule, lockSchedule.own, lockOnce, lockOnce.own
      ensures Valid()
      ensures restartSchedule.view == CancelIf(req.restartSchedule, old(restartSchedule.view))
      ensures restartOnce.view == CancelIf(req.restartOnce, old(restartOnce.view))
      ensures lockSchedule.view == CancelIf(req.lockSchedule, old(lockSchedule.view))
      ensures lockOnce.view == CancelIf(req.lockOnce, old(lockOnce.view))
    {
      CancelSchedules(req);
      CancelOneShots(req);
    }

    method CancelSchedules(req: CancelRequest)
      requires Valid()
      modifies restartSchedule, restartSchedule.own, lockSchedule, lockSchedule.own
      ensures Valid() && restartSchedule.own == old(restartSchedule.own) && lockSchedule.own == old(lockSchedule.own)
      ensures restartSchedule.view == CancelIf(req.restartSchedule, old(restartSchedule.view))
      ensures lockSchedule.view == CancelIf(req.lockSchedule, old(lockSchedule.view))
    {
      if req.restartSchedule {
        StopRestartSchedule();
      }
      if req.lockSchedule {
        StopLockSchedule();
      }
    }

    method CancelOneShots(req: CancelRequest)
      requires Valid()
      modifies restartOnce, restartOnce.own, lockOnce, lockOnce.own
      ensures Valid() && restartOnce.own == old(restartOnce.own) && lockOnce.own == old(lockOnce.own)
      ensures restartOnce.view == CancelIf(req.restartOnce, old(restartOnce.view))
      ensures lockOnce.view == CancelIf(req.lockOnce, old(lockOnce.view))
    {
      if req.restartOnce {
        CancelRestartOnce();
      }
      if req.lockOnce {
        CancelLockOnce();
      }
    }

    method ResetAll(outcome: Outcome)
      requires Valid()
      modifies restartSchedule, restartSchedule.own, restartOnce, restartOnce.own
      modifies lockSchedule, lockSchedule.own, lockOnce, lockOnce.own
      modifies state, state.onChange
      ensures Valid()
      ensures restartSchedule.view == Slots.Cancel(old(restartSchedule.view))
      ensures restartOnce.view == Slots.Cancel(old(restartOnce.view))
      ensures lockSchedule.view == Slots.Cancel(old(lockSchedule.view))
      ensures lockOnce.view == Slots.Cancel(old(lockOnce.view))
      ensures state.Board() == Four(OFF, OFF, OFF, OFF) && state.onChange == old(state.onChange)
      ensures state.onChange != null ==>
                state.onChange.content == if old(state.restartScheduleOn || state.lockScheduleOn)
                                          then DiskAfter(old(state.onChange.content), Intent(false, false), outcome)
                                          else old(state.onChange.content)
    {
      Cancel(CancelRequest(true, true, true, true));
      assert Valid();
      state.Reset(outcome);
    }

    method UpdateIntervals(restart: Range, lock: Range)
      modifies `restartInterval, `lockInterval
      ensures restartInterval == restart && lockInterval == lock
    {
      restartInterval, lockInterval := restart, lock;
    }

    method Stop()
      modifies `stopped
      ensures stopped
    {
      stopped := true;
    }
  }

  /**
   * A draw is any value of rand.IntN(spread + 1).  The result is a wait that the machine's roll
   * can make of the range: a whole number of minutes, at least the minimum, and within the range
   * whenever the range is not empty.
   */
  method RandomInterval(ir: Range, draw: nat) returns (d: int)
    requires draw <= (if ir.max > ir.min then ir.max - ir.min else 0)
    ensures ir.max > ir.min ==> d == (ir.min + draw) * MINUTE
    ensures exists extra: nat :: extra <= Spread(ir) && d == WaitOf(ir, extra)
    ensures exists m :: d == m * MINUTE && ir.min <= m && (ir.min <= ir.max ==> m <= ir.max)
                        && (ir.max <= ir.min ==> m == ir.min)
  {
    var spread := ir.max - ir.min;
    if spread <= 0 {
      d := ir.min * MINUTE;
      assert d == WaitOf(ir, 0);
      return;
    }
    var minutes := draw + ir.min;
    d := minutes * MINUTE;
    assert d == WaitOf(ir, draw);
  }
}
