/**
 * Runs that are steered: any step that is enabled can be chosen.  A worker whose context is done
 * can be driven to its exit, a new one to its select, a delayed one to publish once more.
 */
module Steering {
  import opened Basics
  import opened Slots
  import opened Machine
  import opened Safety
  import opened Draining
  import opened PublishedStatus

  /** A run in which no request is made. */
  predicate Unasked(ls: seq<Label>) {
    forall i :: 0 <= i < |ls| ==> !ls[i].Ask?
  }

  ghost predicate Leads(s: System, r: System)
    requires s.Wf()
  {
    exists ls :: Unasked(ls) && r == Exec(s, ls)
  }

  lemma LeadsBy(s: System, l: Label)
    requires s.Wf() && !l.Ask?
    ensures Leads(s, Step(s, l))
  {
    assert [l][..0] == [];
    assert Unasked([l]) && Step(s, l) == Exec(s, [l]);
  }

  lemma LeadsNowhere(s: System)
    requires s.Wf()
    ensures Leads(s, s)
  {
    assert Unasked([]) && s == Exec(s, []);
  }

  lemma LeadsOn(s: System, t: System, r: System)
    requires s.Wf() && Leads(s, t) && t.Wf() && Leads(t, r)
    ensures Leads(s, r)
  {
    var a :| Unasked(a) && t == Exec(s, a);
    var b :| Unasked(b) && r == Exec(t, b);
    ExecConcat(s, a, b);
    assert Unasked(a + b);
  }

  /** Everything of a state that no step of worker `k` of slot `id` touches. */
  ghost predicate SameBut(s: System, r: System, id: SlotId, k: nat) {
    && r.Wf() && s.Wf()
    && r.stopped == s.stopped && r.apis == s.apis && r.slots.Get(id).gen == s.slots.Get(id).gen
    && (forall j :: 0 <= j < s.slots.Get(id).gen && j != k ==>
          r.slots.Get(id).workers[j] == s.slots.Get(id).workers[j])
  }

  lemma SameButOn(s: System, t: System, r: System, id: SlotId, k: nat)
    requires SameBut(s, t, id, k) && SameBut(t, r, id, k)
    ensures SameBut(s, r, id, k)
  {
  }

  /** A step of worker `k`, told by what it leaves behind. */
  lemma Moves(s: System, id: SlotId, k: nat, act: Act) returns (r: System)
    requires s.Wf() && k < |s.slots.Get(id).workers| && CanAct(s.slots.Get(id).workers[k], s.now, s.stopped, act)
    ensures Leads(s, r) && SameBut(s, r, id, k) && r.now == s.now
    ensures var w := s.slots.Get(id).workers[k];
            r.slots.Get(id).workers[k]
            == Advance(w, id.Kind(), s.now, s.stopped, s.Ivl(id), s.slots.Get(id).gen == w.gen, act).(note := NoteAfter(s, id, w, act))
    ensures r.status.Get(id) == CellWorked(s.slots.Get(id).workers[k], act, s.status.Get(id))
  {
    r := Step(s, Do(id, k, act));
    LeadsBy(s, Do(id, k, act));
    StepSlot(s, Do(id, k, act), id);
    StepCell(s, Do(id, k, act), id);
  }

  // ---- to the exit

  /** How many of the steps that lead to its exit a worker still has to take at most. */
  function Way(w: Worker): nat {
    (match w.note case Idle => 0 case Writing(_) => 1 case Pending => 2)
    + match w.pc
      case Done => 0
      case Unpublish => 3
      case Leaving => 4
      case Finish => 5
      case Waiting => 6
      case Arm => 7
      case Publish => 10
      case Rolling => 11
      case Loop => 12
  }

  lemma NextActNears(w: Worker, kind: Kind, now: int, stopped: bool, ivl: Range, latest: bool, note: Note)
    requires Cancelled(w, stopped) && !w.Exited() && NoteFits(w, NextAct(w), note)
    ensures CanAct(w, now, stopped, NextAct(w))
    ensures var w' := Advance(w, kind, now, stopped, ivl, latest, NextAct(w)).(note := note);
            && Way(w') < Way(w) && Cancelled(w', stopped)
            && (!latest && Superseded(w) ==> Superseded(w') && !NextAct(w).PublishOn? && !NextAct(w).PublishOff?)
  {
  }

  /** Past its last announcement, and superseded: it leaves without a trace. */
  predicate Superseded(w: Worker) {
    w.pc == Arm || w.pc == Waiting || w.pc == Finish || w.pc == Leaving || w.pc == Done
  }

  lemma {:induction false} Drains(s: System, id: SlotId, k: nat) returns (r: System)
    requires s.Wf() && k < s.slots.Get(id).gen && Cancelled(s.slots.Get(id).workers[k], s.stopped)
    ensures Leads(s, r) && SameBut(s, r, id, k) && r.slots.Get(id).workers[k].Exited()
    ensures Superseded(s.slots.Get(id).workers[k]) && k + 1 < s.slots.Get(id).gen ==> r.status.Get(id) == s.status.Get(id)
    decreases Way(s.slots.Get(id).workers[k])
  {
    var w := s.slots.Get(id).workers[k];
    if w.Exited() {
      r := s;
      LeadsNowhere(s);
    } else {
      NextActNears(w, id.Kind(), s.now, s.stopped, s.Ivl(id), s.slots.Get(id).gen == w.gen, NoteAfter(s, id, w, NextAct(w)));
      var t := Moves(s, id, k, NextAct(w));
      r := Drains(t, id, k);
      LeadsOn(s, t, r);
      SameButOn(s, t, r, id, k);
    }
  }

  /** The first `n` workers, without worker `o`. */
  ghost predicate OthersCancelled(s: System, id: SlotId, n: nat, o: nat)
    requires s.Wf() && n <= s.slots.Get(id).gen
  {
    forall k :: 0 <= k < n && k != o ==> Cancelled(s.slots.Get(id).workers[k], s.stopped)
  }

  ghost predicate OthersGone(s: System, id: SlotId, n: nat, o: nat)
    requires s.Wf() && n <= s.slots.Get(id).gen
  {
    forall k :: 0 <= k < n && k != o ==> s.slots.Get(id).workers[k].Exited()
  }

  /** All but the first `n` workers, and worker `o`, are as they were. */
  ghost predicate RestSame(s: System, r: System, id: SlotId, n: nat, o: nat) {
    && r.Wf() && s.Wf()
    && r.stopped == s.stopped && r.apis == s.apis && r.slots.Get(id).gen == s.slots.Get(id).gen
    && (forall k :: 0 <= k < s.slots.Get(id).gen && (n <= k || k == o) ==>
          r.slots.Get(id).workers[k] == s.slots.Get(id).workers[k])
  }

  lemma {:induction false} DrainOthers(s: System, id: SlotId, n: nat, o: nat) returns (r: System)
    requires s.Wf() && n <= s.slots.Get(id).gen && OthersCancelled(s, id, n, o)
    ensures Leads(s, r) && RestSame(s, r, id, n, o) && OthersGone(r, id, n, o)
    decreases n
  {
    if n == 0 {
      r := s;
      LeadsNowhere(s);
    } else if n - 1 == o {
      r := DrainOthers(s, id, n - 1, o);
    } else {
      var t := DrainOthers(s, id, n - 1, o);
      r := Drains(t, id, n - 1);
      LeadsOn(s, t, r);
    }
  }

  // ---- to the select

  lemma {:induction false} ClearsNote(s: System, id: SlotId, k: nat) returns (r: System)
    requires s.Wf() && k < s.slots.Get(id).gen
    ensures Leads(s, r) && SameBut(s, r, id, k) && r.status.Get(id) == s.status.Get(id)
    ensures r.slots.Get(id).workers[k] == s.slots.Get(id).workers[k].(note := Idle)
    decreases match s.slots.Get(id).workers[k].note case Idle => 0 case Writing(_) => 1 case Pending => 2
  {
    var w := s.slots.Get(id).workers[k];
    if w.note == Idle {
      r := s;
      LeadsNowhere(s);
    } else {
      var t := Moves(s, id, k, if w.note.Pending? then Notify else Write(Saved));
      r := ClearsNote(t, id, k);
      LeadsOn(s, t, r);
      SameButOn(s, t, r, id, k);
    }
  }

  /** From the top of its loop, a worker comes to announce itself. */
  lemma Announces(s: System, id: SlotId, k: nat) returns (r: System)
    requires s.Wf() && k < s.slots.Get(id).gen
    requires var w := s.slots.Get(id).workers[k];
             w.note == Idle && (w.pc == Loop || w.pc == Rolling || w.pc == Publish)
    ensures Leads(s, r) && SameBut(s, r, id, k)
    ensures var w := s.slots.Get(id).workers[k];
            var w' := r.slots.Get(id).workers[k];
            w'.pc == Arm && w'.cancelled == w.cancelled && r.status.Get(id) == Cell(true, Some(w'.next))
    decreases Way(s.slots.Get(id).workers[k])
  {
    var t := Moves(s, id, k, NextAct(s.slots.Get(id).workers[k]));
    if s.slots.Get(id).workers[k].pc == Publish {
      r := t;
    } else {
      r := Announces(t, id, k);
      LeadsOn(s, t, r);
      SameButOn(s, t, r, id, k);
    }
  }

  /** A worker that was just spawned comes to wait for its timer. */
  lemma Settles(s: System, id: SlotId, k: nat) returns (r: System)
    requires s.Wf() && k < s.slots.Get(id).gen && !s.stopped
    requires var w := s.slots.Get(id).workers[k]; w.note == Idle && !w.cancelled && (w.pc == Loop || w.pc == Arm)
    ensures Leads(s, r) && SameBut(s, r, id, k) && Live(r.slots.Get(id).workers[k], r.stopped)
  {
    if s.slots.Get(id).workers[k].pc == Arm {
      r := Moves(s, id, k, EnterSelect);
    } else {
      var t := Announces(s, id, k);
      var u := ClearsNote(t, id, k);
      LeadsOn(s, t, u);
      SameButOn(s, t, u, id, k);
      r := Moves(u, id, k, EnterSelect);
      LeadsOn(s, u, r);
      SameButOn(s, u, r, id, k);
    }
  }

  // ---- to publish once more

  lemma TimePasses(s: System, until: int) returns (r: System)
    requires s.Wf()
    ensures r.Wf() && Leads(s, r) && r == s.(now := r.now) && r.now >= until
  {
    var d := if until > s.now then until - s.now else 0;
    r := Step(s, Tick(d));
    LeadsBy(s, Tick(d));
  }

  /** A schedule worker in its select sees its timer expire, even with its context done. */
  lemma Fires(s: System, id: SlotId, k: nat) returns (r: System)
    requires s.Wf() && k < s.slots.Get(id).gen && id.Kind() == Schedule
    requires var w := s.slots.Get(id).workers[k]; w.note == Idle && w.pc == Waiting
    ensures Leads(s, r) && SameBut(s, r, id, k)
    ensures var w := s.slots.Get(id).workers[k];
            var w' := r.slots.Get(id).workers[k];
            w'.pc == Loop && w'.note == Idle && w'.cancelled == w.cancelled
  {
    var t := TimePasses(s, s.slots.Get(id).workers[k].expiry);
    r := Moves(t, id, k, Fire);
    LeadsOn(s, t, r);
    SameButOn(s, t, r, id, k);
  }

  lemma {:induction false} TurnsOn(s: System, id: SlotId, k: nat) returns (r: System)
    requires s.Wf() && k < s.slots.Get(id).gen && MayTurnOn(s.slots.Get(id).workers[k], id.Kind())
    requires s.slots.Get(id).workers[k].note == Idle
    ensures Leads(s, r) && SameBut(s, r, id, k) && r.status.Get(id).on
    ensures r.slots.Get(id).workers[k].pc == Arm
    ensures r.slots.Get(id).workers[k].cancelled == s.slots.Get(id).workers[k].cancelled
    decreases match s.slots.Get(id).workers[k].pc case Arm => 2 case Waiting => 1 case _ => 0
  {
    var w := s.slots.Get(id).workers[k];
    if w.pc == Arm || w.pc == Waiting {
      var t: System;
      if w.pc == Arm {
        t := Moves(s, id, k, EnterSelect);
      } else {
        t := Fires(s, id, k);
      }
      r := TurnsOn(t, id, k);
      LeadsOn(s, t, r);
      SameButOn(s, t, r, id, k);
    } else {
      r := Announces(s, id, k);
    }
  }
}
