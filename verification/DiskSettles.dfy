/**
 * When the disk ends up equal to the published schedule flags.  A notification that is merely owed
 * does no harm, since it reads both flags afresh; only a snapshot already taken can go stale.
 */
module DiskSettles {
  import opened Basics
  import opened Slots
  import opened Machine
  import opened IntentOnDisk

  /** No goroutine owes a notification or a write. */
  ghost predicate NoNotes(s: System) {
    forall o: Owner :: NoteAt(s, o) == Idle
  }

  ghost predicate Owed(s: System) {
    exists o: Owner :: NoteAt(s, o) == Pending
  }

  /** Every snapshot in flight is of the flags as they are. */
  ghost predicate NoneStale(s: System) {
    forall o: Owner :: NoteAt(s, o).Writing? ==> NoteAt(s, o).intent == s.Flags()
  }

  /** The disk shows the flags, or somebody is still going to see to it. */
  ghost predicate SeenTo(s: System) {
    Owed(s) || !Quiet(s) || Load(s.disk) == s.Flags()
  }

  /** The callback stays installed and writes succeed. */
  predicate Persists(l: Label) {
    l != Disconnect && (Writes(l) ==> OutcomeOf(l) == Saved)
  }

  /** The flags change only while no snapshot is in flight. */
  ghost predicate Orderly(s: System, l: Label)
    requires s.Wf()
  {
    Persists(l) && (Step(s, l).Flags() != s.Flags() ==> Quiet(s))
  }

  ghost predicate OrderlyRun(s: System, ls: seq<Label>)
    requires s.Wf()
  {
    ls != [] ==> OrderlyRun(s, ls[..|ls| - 1]) && Orderly(Exec(s, ls[..|ls| - 1]), ls[|ls| - 1])
  }

  /** Some step of the run changed a flag. */
  ghost predicate Changed(s: System, ls: seq<Label>)
    requires s.Wf()
  {
    ls != [] && (Changed(s, ls[..|ls| - 1]) || Exec(s, ls).Flags() != Exec(s, ls[..|ls| - 1]).Flags())
  }

  /** Nothing has been announced since `disk`, or the disk is being brought up to date. */
  ghost predicate Follows(s: System, changed: bool, flags: Intent, disk: Option<Intent>) {
    && s.connected && NoneStale(s)
    && if changed then SeenTo(s) else NoNotes(s) && s.Flags() == flags && s.disk == disk
  }

  // ---- one step

  lemma ChangeIsSeenTo(s: System, l: Label, r: System)
    requires s.Wf() && Quiet(s) && r == Step(s, l) && r.Flags() != s.Flags()
    ensures NoneStale(r) && SeenTo(r)
  {
    OnlyActorsChangeFlags(s, l, r);
    var o := Actor(l).value;
    ActorNotes(s, l, o, r);
    assert NoteAt(r, o) == Pending;
    forall p: Owner ensures !NoteAt(r, p).Writing? {
      if p != o {
        OtherNotes(s, l, p);
      }
    }
  }

  /** With the flags as they were, a step moves at most its actor's note one place on. */
  lemma NoteMoves(s: System, l: Label, o: Owner, r: System)
    requires s.Wf() && r == Step(s, l) && r.Flags() == s.Flags()
    ensures if Enabled(s, l) && Actor(l) == Some(o) && Notifies(l) then
              NoteAt(s, o) == Pending && NoteAt(r, o) == Snapshot(s)
            else if Enabled(s, l) && Actor(l) == Some(o) && Writes(l) then
              NoteAt(s, o).Writing? && NoteAt(r, o) == Idle
            else NoteAt(r, o) == NoteAt(s, o)
  {
    if !Enabled(s, l) {
      assert r == s;
    } else if Actor(l) == Some(o) {
      ActorNotes(s, l, o, r);
    } else {
      OtherNotes(s, l, o);
    }
  }

  lemma NoneGoesStale(s: System, l: Label, r: System)
    requires s.Wf() && NoneStale(s) && r == Step(s, l) && r.Flags() == s.Flags()
    ensures NoneStale(r)
  {
    forall o: Owner | NoteAt(r, o).Writing? ensures NoteAt(r, o).intent == r.Flags() {
      NoteMoves(s, l, o, r);
    }
  }

  lemma StaysSeenTo(s: System, l: Label, r: System)
    requires s.Wf() && s.connected && NoneStale(s) && SeenTo(s)
    requires r == Step(s, l) && Persists(l) && r.Flags() == s.Flags()
    ensures SeenTo(r)
  {
    StepWrites(s, l, r);
    if !(Enabled(s, l) && Writes(l)) && (Owed(s) || !Quiet(s)) {
      var o: Owner :| NoteAt(s, o) != Idle;
      NoteMoves(s, l, o, r);
      assert NoteAt(r, o) != Idle;
    }
  }

  lemma NoNotesStay(s: System, l: Label, r: System)
    requires s.Wf() && NoNotes(s) && r == Step(s, l) && r.Flags() == s.Flags()
    ensures NoNotes(r) && r.disk == s.disk
  {
    StepWrites(s, l, r);
    forall o: Owner ensures NoteAt(r, o) == Idle {
      NoteMoves(s, l, o, r);
    }
  }

  lemma StaysConnected(s: System, l: Label)
    requires s.Wf() && s.connected && Persists(l)
    ensures Step(s, l).connected
  {
  }

  lemma StepFollows(s: System, l: Label, r: System, changed: bool, flags: Intent, disk: Option<Intent>)
    requires s.Wf() && Follows(s, changed, flags, disk) && Orderly(s, l) && r == Step(s, l)
    ensures Follows(r, changed || r.Flags() != s.Flags(), flags, disk)
  {
    StaysConnected(s, l);
    if r.Flags() != s.Flags() {
      ChangeIsSeenTo(s, l, r);
    } else {
      NoneGoesStale(s, l, r);
      if changed {
        StaysSeenTo(s, l, r);
      } else {
        NoNotesStay(s, l, r);
      }
    }
  }

  // ---- every run

  lemma {:induction false} RunFollows(s: System, ls: seq<Label>)
    requires s.Wf() && s.connected && NoNotes(s) && OrderlyRun(s, ls)
    ensures Follows(Exec(s, ls), Changed(s, ls), s.Flags(), s.disk)
  {
    if ls != [] {
      var t := Exec(s, ls[..|ls| - 1]);
      RunFollows(s, ls[..|ls| - 1]);
      StepFollows(t, ls[|ls| - 1], Exec(s, ls), Changed(s, ls[..|ls| - 1]), s.Flags(), s.disk);
    }
  }

  /**
   * Along any run, with any calls, in which the flags change only while no snapshot is in flight:
   * whenever no notification is under way, the disk shows the flags if anything was announced,
   * and is untouched otherwise.
   */
  lemma DiskFollowsFlags(s: System, ls: seq<Label>)
    requires s.Wf() && s.connected && NoNotes(s) && OrderlyRun(s, ls) && NoNotes(Exec(s, ls))
    ensures var r := Exec(s, ls);
            if Changed(s, ls) then Load(r.disk) == r.Flags() else r.disk == s.disk && r.Flags() == s.Flags()
  {
    RunFollows(s, ls);
  }

  // ---- exactly

  /** The flags stay as they are. */
  ghost predicate Frozen(s: System, l: Label)
    requires s.Wf()
  {
    Persists(l) && Step(s, l).Flags() == s.Flags()
  }

  ghost predicate FrozenRun(s: System, ls: seq<Label>)
    requires s.Wf()
  {
    ls != [] ==> FrozenRun(s, ls[..|ls| - 1]) && Frozen(Exec(s, ls[..|ls| - 1]), ls[|ls| - 1])
  }

  /** However the owed notifications are worked off, the disk comes to show the flags. */
  ghost predicate AlwaysEndsRight(s: System)
    requires s.Wf()
  {
    forall ls :: FrozenRun(s, ls) && NoNotes(Exec(s, ls)) ==> Load(Exec(s, ls).disk) == s.Flags()
  }

  lemma {:induction false} FrozenStaysSeenTo(s: System, ls: seq<Label>)
    requires s.Wf() && s.connected && NoneStale(s) && SeenTo(s) && FrozenRun(s, ls)
    ensures var r := Exec(s, ls); r.connected && NoneStale(r) && SeenTo(r) && r.Flags() == s.Flags()
  {
    if ls != [] {
      var t := Exec(s, ls[..|ls| - 1]);
      FrozenStaysSeenTo(s, ls[..|ls| - 1]);
      StaysConnected(t, ls[|ls| - 1]);
      NoneGoesStale(t, ls[|ls| - 1], Exec(s, ls));
      StaysSeenTo(t, ls[|ls| - 1], Exec(s, ls));
    }
  }

  ghost predicate FrozenLeads(s: System, r: System)
    requires s.Wf()
  {
    exists ls :: FrozenRun(s, ls) && r == Exec(s, ls)
  }

  lemma FrozenNowhere(s: System)
    requires s.Wf()
    ensures FrozenLeads(s, s)
  {
    assert FrozenRun(s, []) && s == Exec(s, []);
  }

  lemma FrozenOn(s: System, t: System, l: Label)
    requires s.Wf() && t.Wf() && FrozenLeads(s, t) && Frozen(t, l)
    ensures FrozenLeads(s, Step(t, l))
  {
    var ls :| FrozenRun(s, ls) && t == Exec(s, ls);
    assert (ls + [l])[..|ls|] == ls;
    assert FrozenRun(s, ls + [l]) && Step(t, l) == Exec(s, ls + [l]);
  }

  /** The step with which a goroutine works off what it owes. */
  function WorkOff(o: Owner, note: Note): Label {
    match o
    case OfWorker(id, k) => Do(id, k, if note.Pending? then Notify else Write(Saved))
    case OfCall(t) => if note.Pending? then ApiNotify(t) else ApiWrite(t, Saved)
  }

  lemma WorksOff(s: System, o: Owner) returns (r: System)
    requires s.Wf() && NoteAt(s, o) != Idle
    ensures r == Step(s, WorkOff(o, NoteAt(s, o))) && Frozen(s, WorkOff(o, NoteAt(s, o)))
    ensures r.Wf() && r.connected == s.connected && r.Flags() == s.Flags()
    ensures NoteAt(r, o) == if NoteAt(s, o).Pending? then Snapshot(s) else Idle
    ensures forall p: Owner :: p != o ==> NoteAt(r, p) == NoteAt(s, p)
    ensures NoteAt(s, o).Writing? ==> r.disk == Some(NoteAt(s, o).intent)
  {
    var l := WorkOff(o, NoteAt(s, o));
    r := Step(s, l);
    assert Enabled(s, l) && Actor(l) == Some(o);
    FlagsOnlyByPublishing(s, l, r);
    StepWrites(s, l, r);
    ActorNotes(s, l, o, r);
    forall p: Owner | p != o ensures NoteAt(r, p) == NoteAt(s, p) {
      OtherNotes(s, l, p);
    }
  }

  lemma FlagsOnlyByPublishing(s: System, l: Label, r: System)
    requires s.Wf() && r == Step(s, l) && (Notifies(l) || Writes(l))
    ensures r.Flags() == s.Flags() && r.connected == s.connected
  {
  }

  function WorkersOf(s: System, id: SlotId): seq<Owner> {
    seq(|s.slots.Get(id).workers|, k requires k >= 0 => OfWorker(id, k))
  }

  function Owners(s: System): seq<Owner> {
    WorkersOf(s, RestartSchedule) + WorkersOf(s, SlotId.RestartOnce)
    + WorkersOf(s, LockSchedule) + WorkersOf(s, SlotId.LockOnce) + seq(|s.apis|, t requires t >= 0 => OfCall(t))
  }

  lemma OwnersComplete(s: System, o: Owner)
    requires NoteAt(s, o) != Idle
    ensures o in Owners(s)
  {
    match o
    case OfWorker(id, k) =>
      assert WorkersOf(s, id)[k] == o;
      assert o in WorkersOf(s, id);
    case OfCall(t) => assert seq(|s.apis|, t requires t >= 0 => OfCall(t))[t] == o;
  }

  /** Some of what was owed has been worked off, and nothing else has happened. */
  ghost predicate Settling(s: System, r: System, o: Owner) {
    && s.Wf() && r.Wf() && FrozenLeads(s, r) && r.connected == s.connected && r.Flags() == s.Flags()
    && NoteAt(r, o) == NoteAt(s, o)
    && forall p: Owner :: NoteAt(s, p) == Idle ==> NoteAt(r, p) == Idle
  }

  lemma {:induction false} SettleOne(s: System, t: System, o: Owner, p: Owner) returns (r: System)
    requires Settling(s, t, o) && p != o
    ensures Settling(s, r, o) && NoteAt(r, p) == Idle
    ensures forall q: Owner :: NoteAt(t, q) == Idle ==> NoteAt(r, q) == Idle
    decreases match NoteAt(t, p) case Idle => 0 case Writing(_) => 1 case Pending => 2
  {
    if NoteAt(t, p) == Idle {
      r := t;
    } else {
      var u := WorksOff(t, p);
      FrozenOn(s, t, WorkOff(p, NoteAt(t, p)));
      r := SettleOne(s, u, o, p);
    }
  }

  /** Every goroutine of a list, but for `o`, works off what it owes. */
  lemma {:induction false} SettleAll(s: System, o: Owner, ps: seq<Owner>) returns (r: System)
    requires s.Wf()
    ensures Settling(s, r, o) && forall p: Owner :: p in ps && p != o ==> NoteAt(r, p) == Idle
  {
    if ps == [] {
      r := s;
      FrozenNowhere(s);
    } else {
      var front, p := ps[..|ps| - 1], ps[|ps| - 1];
      assert ps == front + [p];
      r := SettleAll(s, o, front);
      if p != o {
        r := SettleOne(s, r, o, p);
      }
    }
  }

  lemma SettleAllBut(s: System, o: Owner) returns (r: System)
    requires s.Wf()
    ensures Settling(s, r, o) && forall p: Owner :: p != o ==> NoteAt(r, p) == Idle
  {
    r := SettleAll(s, o, Owners(s));
    forall p: Owner | p != o ensures NoteAt(r, p) == Idle {
      if NoteAt(s, p) != Idle {
        OwnersComplete(s, p);
      }
    }
  }

  lemma StaleCanLandLast(s: System, o: Owner)
    requires s.Wf() && NoteAt(s, o).Writing? && NoteAt(s, o).intent != s.Flags()
    ensures !AlwaysEndsRight(s)
  {
    var t := SettleAllBut(s, o);
    var r := WorksOff(t, o);
    FrozenOn(s, t, WorkOff(o, NoteAt(t, o)));
    var ls :| FrozenRun(s, ls) && r == Exec(s, ls);
    assert NoNotes(r) && Load(r.disk) != s.Flags();
  }

  /**
   * From any state with the callback installed, however what is owed gets worked off while the
   * flags stay as they are, the disk ends up showing them: this holds exactly if no snapshot in
   * flight is stale and either something is still to be worked off or the disk is right already.
   */
  lemma DiskEndsRightIff(s: System)
    requires s.Wf() && s.connected
    ensures AlwaysEndsRight(s) <==> NoneStale(s) && SeenTo(s)
  {
    if NoneStale(s) && SeenTo(s) {
      forall ls | FrozenRun(s, ls) && NoNotes(Exec(s, ls)) ensures Load(Exec(s, ls).disk) == s.Flags() {
        FrozenStaysSeenTo(s, ls);
      }
    } else if !NoneStale(s) {
      var o: Owner :| NoteAt(s, o).Writing? && NoteAt(s, o).intent != s.Flags();
      StaleCanLandLast(s, o);
    } else {
      NothingOwed(s);
    }
  }

  lemma NothingOwed(s: System)
    requires s.Wf() && !SeenTo(s)
    ensures !AlwaysEndsRight(s)
  {
    forall o: Owner ensures NoteAt(s, o) == Idle {
      assert NoteAt(s, o) != Pending && !NoteAt(s, o).Writing?;
    }
    assert FrozenRun(s, []) && s == Exec(s, []);
  }

  /**
   * The discipline of orderly runs is exact: when a step changes a flag, the disk is sure to
   * follow if and only if no snapshot was in flight at that moment.
   */
  lemma ChangeIsFollowedIff(s: System, l: Label)
    requires s.Wf() && s.connected && NoneStale(s) && l != Disconnect && Step(s, l).Flags() != s.Flags()
    ensures AlwaysEndsRight(Step(s, l)) <==> Quiet(s)
  {
    var r := Step(s, l);
    OnlyActorsChangeFlags(s, l, r);
    assert r.connected;
    DiskEndsRightIff(r);
    if Quiet(s) {
      ChangeIsSeenTo(s, l, r);
    } else {
      var o: Owner :| NoteAt(s, o).Writing?;
      if Actor(l) == Some(o) {
        ActorIsFree(s, l);
      } else {
        OtherNotes(s, l, o);
        assert NoteAt(r, o).intent != r.Flags();
      }
    }
  }

  /** A goroutine that holds a snapshot does nothing else until it has written it. */
  lemma ActorIsFree(s: System, l: Label)
    requires s.Wf() && Step(s, l).Flags() != s.Flags()
    ensures Actor(l).Some? && NoteAt(s, Actor(l).value) == Idle
  {
  }
}
