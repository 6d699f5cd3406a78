/**
 * The politeness asked of requests is exact: an accepted request that violates it can lead, with
 * nobody doing anything impolite afterwards, to a quiescent slot whose published status is wrong.
 */
module StatusExactly {
  import opened Basics
  import opened Slots
  import opened Machine
  import opened Safety
  import opened Firings
  import opened PublishedStatus
  import opened Steering

  /** The slot has come to rest and its published status is wrong. */
  ghost predicate Lies(s: System, id: SlotId) {
    Quiescent(s.slots.Get(id), s.stopped) && !ReportsTruth(s.slots.Get(id), s.status.Get(id), s.stopped)
  }

  ghost predicate CanComeToLie(s: System, id: SlotId)
    requires s.Wf()
  {
    exists ls :: PoliteRun(s, ls, id) && Lies(Exec(s, ls), id)
  }

  lemma LeadsToLie(s: System, r: System, id: SlotId)
    requires s.Wf() && Leads(s, r) && Lies(r, id)
    ensures CanComeToLie(s, id)
  {
    var ls :| Unasked(ls) && r == Exec(s, ls);
    UnaskedIsPolite(s, ls, id);
  }

  /** What an accepted request leaves behind: a new worker, with every earlier one cancelled. */
  ghost predicate JustAccepted(s: System, id: SlotId) {
    && s.Wf()
    && var slot := s.slots.Get(id);
       && slot.gen > 0 && slot.handle == Some(slot.gen)
       && OthersCancelled(s, id, slot.gen - 1, slot.gen)
       && var w := slot.workers[slot.gen - 1];
          !w.cancelled && w.note == Idle && (w.pc == Loop || w.pc == Arm)
  }

  lemma AskAccepted(s: System, id: SlotId, r: System)
    requires s.Wf() && SlotSafe(s.slots.Get(id), s.stopped) && s.slots.Get(id).handle.None? && r == Step(s, Ask(id))
    ensures JustAccepted(r, id)
  {
    var slot := s.slots.Get(id);
    StepSlot(s, Ask(id), id);
    assert r.slots.Get(id) == Request(slot, id.Kind(), s.now);
    assert forall k :: 0 <= k < slot.gen ==> r.slots.Get(id).workers[k] == slot.workers[k];
  }

  // ---- a delayed worker turns the flag on after everybody else has gone

  lemma CancelsLast(s: System, id: SlotId) returns (r: System)
    requires JustAccepted(s, id)
    ensures r.Wf() && Leads(s, r) && r.slots.Get(id) == Slots.Cancel(s.slots.Get(id)) && r.stopped == s.stopped
  {
    var t := Step(s, BeginCancel([id]));
    LeadsBy(s, BeginCancel([id]));
    r := Step(t, CancelNext(|s.apis|));
    LeadsBy(t, CancelNext(|s.apis|));
    LeadsOn(s, t, r);
  }

  lemma AllButOneGone(s: System, id: SlotId, o: nat) returns (r: System)
    requires JustAccepted(s, id) && o + 1 < s.slots.Get(id).gen
    ensures Leads(s, r) && r.Wf() && r.stopped == s.stopped && r.slots.Get(id).gen == s.slots.Get(id).gen
    ensures OthersGone(r, id, r.slots.Get(id).gen, o)
    ensures r.slots.Get(id).workers[o] == s.slots.Get(id).workers[o]
  {
    var t := CancelsLast(s, id);
    r := DrainOthers(t, id, t.slots.Get(id).gen, o);
    LeadsOn(s, t, r);
  }

  lemma OnWithNobodyLeft(s: System, id: SlotId, o: nat) returns (r: System)
    requires s.Wf() && o + 1 < s.slots.Get(id).gen && OthersGone(s, id, s.slots.Get(id).gen, o)
    requires var w := s.slots.Get(id).workers[o]; MayTurnOn(w, id.Kind()) && Cancelled(w, s.stopped)
    ensures Leads(s, r) && Lies(r, id)
  {
    var t := ClearsNote(s, id, o);
    var u := TurnsOn(t, id, o);
    LeadsOn(s, t, u);
    SameButOn(s, t, u, id, o);
    r := Drains(u, id, o);
    LeadsOn(s, u, r);
    SameButOn(s, u, r, id, o);
    NobodyLive(r, id);
  }

  lemma NobodyLive(s: System, id: SlotId)
    requires s.Wf() && s.status.Get(id).on
    requires forall k :: 0 <= k < s.slots.Get(id).gen ==> s.slots.Get(id).workers[k].Exited()
    ensures Lies(s, id)
  {
  }

  lemma DelayedTurnsOn(s: System, id: SlotId, o: nat)
    requires JustAccepted(s, id) && o + 1 < s.slots.Get(id).gen && MayTurnOn(s.slots.Get(id).workers[o], id.Kind())
    ensures CanComeToLie(s, id)
  {
    var t := AllButOneGone(s, id, o);
    var r := OnWithNobodyLeft(t, id, o);
    LeadsOn(s, t, r);
    LeadsToLie(s, r, id);
  }

  // ---- the flag goes off although the new worker waits

  /** The new worker waits, and the earlier ones are gone, but for `o`. */
  ghost predicate NewOneWaits(s: System, id: SlotId, o: nat) {
    && s.Wf() && s.slots.Get(id).gen > 0
    && OthersGone(s, id, s.slots.Get(id).gen - 1, o)
    && Live(s.slots.Get(id).workers[s.slots.Get(id).gen - 1], s.stopped)
  }

  lemma NewOneSettles(s: System, id: SlotId, o: nat) returns (r: System)
    requires JustAccepted(s, id) && !s.stopped && o + 1 != s.slots.Get(id).gen
    ensures Leads(s, r) && NewOneWaits(r, id, o) && r.stopped == s.stopped && r.apis == s.apis
    ensures r.slots.Get(id).gen == s.slots.Get(id).gen
    ensures o < s.slots.Get(id).gen ==> r.slots.Get(id).workers[o] == s.slots.Get(id).workers[o]
  {
    var last := s.slots.Get(id).gen - 1;
    var t := DrainOthers(s, id, last, o);
    r := Settles(t, id, last);
    LeadsOn(s, t, r);
  }

  lemma OffWhileWaiting(s: System, id: SlotId, o: nat)
    requires NewOneWaits(s, id, o) && s.status.Get(id) == OFF
    requires o + 1 < s.slots.Get(id).gen ==> s.slots.Get(id).workers[o].Exited()
    ensures Lies(s, id)
  {
    assert Live(s.slots.Get(id).workers[s.slots.Get(id).gen - 1], s.stopped);
  }

  lemma DelayedTurnsOff(s: System, id: SlotId, o: nat)
    requires JustAccepted(s, id) && !s.stopped && o + 1 < s.slots.Get(id).gen
    requires s.slots.Get(id).workers[o].pc == Unpublish
    ensures CanComeToLie(s, id)
  {
    var t := NewOneSettles(s, id, o);
    var r := PublishesOff(t, id, o);
    LeadsOn(s, t, r);
    StillWaits(t, r, id, o);
    OffWhileWaiting(r, id, o);
    LeadsToLie(s, r, id);
  }

  lemma StillWaits(s: System, r: System, id: SlotId, o: nat)
    requires NewOneWaits(s, id, o) && SameBut(s, r, id, o) && o + 1 != s.slots.Get(id).gen
    ensures NewOneWaits(r, id, o)
  {
  }

  lemma PublishesOff(s: System, id: SlotId, o: nat) returns (r: System)
    requires s.Wf() && o < s.slots.Get(id).gen && s.slots.Get(id).workers[o].pc == Unpublish
    ensures Leads(s, r) && SameBut(s, r, id, o) && r.status.Get(id) == OFF && r.slots.Get(id).workers[o].Exited()
  {
    var t := ClearsNote(s, id, o);
    var u := Moves(t, id, o, PublishOff);
    LeadsOn(s, t, u);
    SameButOn(s, t, u, id, o);
    r := ClearsNote(u, id, o);
    LeadsOn(s, u, r);
    SameButOn(s, u, r, id, o);
  }

  /** The next step of a call. */
  function NextOfCall(api: Api, t: nat): Label {
    match api.note
    case Pending => ApiNotify(t)
    case Writing(_) => ApiWrite(t, Saved)
    case Idle => if api.todo != [] then CancelNext(t) else ResetStatus(t)
  }

  lemma CallGoesOn(s: System, id: SlotId, t: nat) returns (r: System)
    requires s.Wf() && t < |s.apis| && s.apis[t].reset && id !in s.apis[t].todo
    ensures r.Wf() && Leads(s, r) && r.slots.Get(id) == s.slots.Get(id) && r.stopped == s.stopped && |r.apis| == |s.apis|
    ensures var api := s.apis[t];
            if api.note == Idle && api.todo == [] then r.status.Get(id) == OFF
            else
              && r.apis[t].reset && id !in r.apis[t].todo
              && if api.note == Idle then r.apis[t] == api.(todo := api.todo[1..])
                 else r.apis[t] == api.(note := r.apis[t].note) && (r.apis[t].note.Writing? ==> api.note.Pending?)
                      && !r.apis[t].note.Pending?
  {
    var l := NextOfCall(s.apis[t], t);
    r := Step(s, l);
    LeadsBy(s, l);
    StepSlot(s, l, id);
    StepCell(s, l, id);
  }

  /** A reset that has passed the slot goes on to its end. */
  lemma {:induction false} ResetEnds(s: System, id: SlotId, t: nat) returns (r: System)
    requires s.Wf() && t < |s.apis| && s.apis[t].reset && id !in s.apis[t].todo
    ensures Leads(s, r) && r.Wf() && r.slots.Get(id) == s.slots.Get(id) && r.stopped == s.stopped && r.status.Get(id) == OFF
    decreases |s.apis[t].todo|, match s.apis[t].note case Idle => 0 case Writing(_) => 1 case Pending => 2
  {
    var u := CallGoesOn(s, id, t);
    if s.apis[t].todo == [] && s.apis[t].note == Idle {
      r := u;
    } else {
      r := ResetEnds(u, id, t);
      LeadsOn(s, u, r);
    }
  }

  lemma StillWaitsToo(s: System, r: System, id: SlotId)
    requires NewOneWaits(s, id, s.slots.Get(id).gen)
    requires r.Wf() && r.slots.Get(id) == s.slots.Get(id) && r.stopped == s.stopped
    ensures NewOneWaits(r, id, r.slots.Get(id).gen)
  {
  }

  lemma ResetTurnsOff(s: System, id: SlotId, t: nat)
    requires JustAccepted(s, id) && !s.stopped && t < |s.apis| && !Ahead(s.apis[t], id)
    ensures CanComeToLie(s, id)
  {
    var u := NewOneSettles(s, id, s.slots.Get(id).gen);
    var r := ResetEnds(u, id, t);
    LeadsOn(s, u, r);
    StillWaitsToo(u, r, id);
    OffWhileWaiting(r, id, s.slots.Get(id).gen);
    LeadsToLie(s, r, id);
  }

  // ---- exactly

  lemma HarmlessKeepsTruth(s: System, id: SlotId)
    requires StatusFits(s, id) && AllSpaced(s) && Harmless(s, id)
    ensures !CanComeToLie(Step(s, Ask(id)), id)
  {
    var r := Step(s, Ask(id));
    StepFits(s, Ask(id), id, r);
    StepSpaced(s, Ask(id), r);
    forall ls | PoliteRun(r, ls, id) ensures !Lies(Exec(r, ls), id) {
      RunFits(r, ls, id);
      RunSpaced(r, ls);
      if Quiescent(Exec(r, ls).slots.Get(id), Exec(r, ls).stopped) {
        TruthWhenQuiet(Exec(r, ls), id);
      }
    }
  }

  lemma HarmfulCanLie(s: System, id: SlotId)
    requires StatusFits(s, id) && !Harmless(s, id)
    ensures CanComeToLie(Step(s, Ask(id)), id)
  {
    var slot := s.slots.Get(id);
    var r := Step(s, Ask(id));
    AskAccepted(s, id, r);
    StepSlot(s, Ask(id), id);
    if !NonePublishes(slot, id.Kind(), s.stopped, slot.gen) {
      var o :| 0 <= o < slot.gen && StillPublishes(slot.workers[o], id.Kind(), s.stopped);
      if MayTurnOn(slot.workers[o], id.Kind()) {
        DelayedTurnsOn(r, id, o);
      } else {
        DelayedTurnsOff(r, id, o);
      }
    } else {
      var t :| 0 <= t < |s.apis| && !Ahead(s.apis[t], id);
      ResetTurnsOff(r, id, t);
    }
  }

  /**
   * In every state in which the status still fits, a request can lead through polite
   * continuations to a quiescent slot with a wrong status if and only if it is accepted while
   * an earlier worker of the slot may still publish or a reset under way has passed the slot.
   */
  lemma StatusLiesIff(s: System, id: SlotId)
    requires StatusFits(s, id) && AllSpaced(s)
    ensures CanComeToLie(Step(s, Ask(id)), id) <==> !Harmless(s, id)
  {
    if Harmless(s, id) {
      HarmlessKeepsTruth(s, id);
    } else {
      HarmfulCanLie(s, id);
    }
  }

  /** The same for every state that a polite run reaches from boot. */
  lemma PoliteRunsAreExactlySafe(now: int, restartIvl: Range, lockIvl: Range, disk: Option<Intent>, ls: seq<Label>, id: SlotId)
    requires PoliteRun(Boot(now, restartIvl, lockIvl, disk), ls, id)
    ensures var s := Exec(Boot(now, restartIvl, lockIvl, disk), ls);
            CanComeToLie(Step(s, Ask(id)), id) <==> !Harmless(s, id)
  {
    var b := Boot(now, restartIvl, lockIvl, disk);
    BootFits(now, restartIvl, lockIvl, disk, id);
    RunFits(b, ls, id);
    RunSpaced(b, ls);
    StatusLiesIff(Exec(b, ls), id);
  }
}
