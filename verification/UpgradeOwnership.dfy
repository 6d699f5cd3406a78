/**
 * The single-upgrade flag under any number of concurrent apply requests.  A request is followed
 * from its arrival through the handler, the apply goroutine it starts and the watchdog that
 * goroutine starts; whoever currently has to give the flag back is its owner.
 */
module UpgradeOwnership {
  import opened Basics

  datatype Phase =
    | Arrived          // about to swap the flag
    | Rejected         // found it taken
    | Preflight | CheckCached | Downloading | Responding                  // the handler
    | Connecting | Opening | ReadingConfig | BackingUp
    | WritingScript | CreatingTask | RunningTask                          // the apply goroutine
    | Cleaning         // the goroutine has failed and removes the download
    | Releasing        // about to store false
    | Watching         // the watchdog, asleep before its swap back
    | Released

  predicate Owner(p: Phase) { !p.Arrived? && !p.Rejected? && !p.Released? }

  function Weight(p: Phase): nat { if Owner(p) then 1 else 0 }

  /** How many own steps a request still takes. */
  function Rank(p: Phase): nat {
    match p
    case Arrived => 14
    case Preflight => 13
    case CheckCached => 12
    case Downloading => 11
    case Responding => 10
    case Connecting => 9
    case Opening => 8
    case ReadingConfig => 7
    case BackingUp => 6
    case WritingScript => 5
    case CreatingTask => 4
    case RunningTask => 3
    case Cleaning => 2
    case Releasing => 1
    case Watching => 1
    case Rejected => 0
    case Released => 0
  }

  datatype Server = Server(inProgress: bool, requests: seq<Phase>)

  datatype Label = Arrive | Act(t: nat, ok: bool)

  predicate Enabled(s: Server, l: Label) {
    l.Act? ==> l.t < |s.requests| && !s.requests[l.t].Rejected? && !s.requests[l.t].Released?
  }

  /** Where a request goes; a handler that fails stores false, the goroutine cleans up first. */
  function Advance(p: Phase, ok: bool, taken: bool): Phase {
    match p
    case Arrived => if taken then Rejected else Preflight
    case Preflight => if ok then CheckCached else Releasing
    case CheckCached => if ok then Downloading else Releasing
    case Downloading => if ok then Responding else Releasing
    case Responding => Connecting
    case Connecting => if ok then Opening else Cleaning
    case Opening => if ok then ReadingConfig else Cleaning
    case ReadingConfig => if ok then BackingUp else Cleaning
    case BackingUp => if ok then WritingScript else Cleaning
    case WritingScript => if ok then CreatingTask else Cleaning
    case CreatingTask => if ok then RunningTask else Cleaning
    case RunningTask => if ok then Watching else Cleaning
    case Cleaning => Releasing
    case _ => Released
  }

  /** The swap sets the flag if it is clear; the store and the watchdog's swap back clear it. */
  function FlagAfter(p: Phase, taken: bool): bool {
    match p
    case Arrived => true
    case Releasing => false
    case Watching => false
    case _ => taken
  }

  function Step(s: Server, l: Label): Server {
    if !Enabled(s, l) then s
    else
      match l
      case Arrive => s.(requests := s.requests + [Arrived])
      case Act(t, ok) =>
        var p := s.requests[t];
        Server(FlagAfter(p, s.inProgress), s.requests[t := Advance(p, ok, s.inProgress)])
  }

  function Exec(s: Server, ls: seq<Label>): Server {
    if ls == [] then s else Step(Exec(s, ls[..|ls| - 1]), ls[|ls| - 1])
  }

  const IDLE := Server(false, [])

  // ---- exactly one owner

  ghost predicate Accounted(s: Server) {
    Sum(s.requests, Weight) == if s.inProgress then 1 else 0
  }

  lemma {:induction false} OwnersCounted(ps: seq<Phase>, i: nat)
    requires i < |ps| && Owner(ps[i])
    ensures Sum(ps, Weight) >= 1
  {
    if i < |ps| - 1 {
      OwnersCounted(ps[..|ps| - 1], i);
    }
  }

  lemma {:induction false} TwoOwnersCounted(ps: seq<Phase>, i: nat, j: nat)
    requires i < j < |ps| && Owner(ps[i]) && Owner(ps[j])
    ensures Sum(ps, Weight) >= 2
  {
    if j == |ps| - 1 {
      OwnersCounted(ps[..j], i);
    } else {
      TwoOwnersCounted(ps[..|ps| - 1], i, j);
    }
  }

  lemma {:induction false} SomeOwner(ps: seq<Phase>) returns (i: nat)
    requires Sum(ps, Weight) >= 1
    ensures i < |ps| && Owner(ps[i])
  {
    if Owner(ps[|ps| - 1]) {
      i := |ps| - 1;
    } else {
      i := SomeOwner(ps[..|ps| - 1]);
    }
  }

  lemma StepAccounted(s: Server, l: Label)
    requires Accounted(s)
    ensures Accounted(Step(s, l))
  {
    if Enabled(s, l) {
      match l
      case Arrive => SumPush(s.requests, Arrived, Weight);
      case Act(t, ok) =>
        var p := s.requests[t];
        SumUpdate(s.requests, t, Advance(p, ok, s.inProgress), Weight);
        if Owner(p) {
          OwnersCounted(s.requests, t);
        }
    }
  }

  lemma {:induction false} RunAccounted(ls: seq<Label>)
    ensures Accounted(Exec(IDLE, ls))
  {
    if ls != [] {
      RunAccounted(ls[..|ls| - 1]);
      StepAccounted(Exec(IDLE, ls[..|ls| - 1]), ls[|ls| - 1]);
    }
  }

  /**
   * After any interleaving of any number of apply requests: the flag is set exactly when some
   * request owns it, and no two ever own it together, so that downloads and applies never
   * overlap.
   */
  lemma FlagHasOneOwner(ls: seq<Label>)
    ensures var s := Exec(IDLE, ls);
            && (s.inProgress <==> exists i :: 0 <= i < |s.requests| && Owner(s.requests[i]))
            && (forall i, j :: 0 <= i < j < |s.requests| ==> !(Owner(s.requests[i]) && Owner(s.requests[j])))
  {
    var s := Exec(IDLE, ls);
    RunAccounted(ls);
    if s.inProgress {
      var i := SomeOwner(s.requests);
    }
    forall i, j | 0 <= i < j < |s.requests| ensures !(Owner(s.requests[i]) && Owner(s.requests[j])) {
      if Owner(s.requests[i]) && Owner(s.requests[j]) {
        TwoOwnersCounted(s.requests, i, j);
      }
    }
    forall i | 0 <= i < |s.requests| && Owner(s.requests[i]) ensures s.inProgress {
      OwnersCounted(s.requests, i);
    }
  }

  // ---- the flag always comes back

  ghost function TotalRank(s: Server): nat { Sum(s.requests, Rank) }

  /** The number of steps taken by requests along a run. */
  function Acts(s: Server, ls: seq<Label>): nat {
    if ls == [] then 0
    else
      Acts(s, ls[..|ls| - 1])
      + if ls[|ls| - 1].Act? && Enabled(Exec(s, ls[..|ls| - 1]), ls[|ls| - 1]) then 1 else 0
  }

  lemma StepRanks(s: Server, l: Label)
    requires l.Act?
    ensures TotalRank(Step(s, l)) + (if Enabled(s, l) then 1 else 0) <= TotalRank(s)
  {
    if Enabled(s, l) {
      SumUpdate(s.requests, l.t, Advance(s.requests[l.t], l.ok, s.inProgress), Rank);
    }
  }

  lemma {:induction false} RunRanks(s: Server, ls: seq<Label>)
    requires forall i :: 0 <= i < |ls| ==> ls[i].Act?
    ensures Acts(s, ls) + TotalRank(Exec(s, ls)) <= TotalRank(s)
  {
    if ls != [] {
      RunRanks(s, ls[..|ls| - 1]);
      StepRanks(Exec(s, ls[..|ls| - 1]), ls[|ls| - 1]);
    }
  }

  lemma {:induction false} ExecConcat(s: Server, a: seq<Label>, b: seq<Label>)
    ensures Exec(s, a + b) == Exec(Exec(s, a), b)
  {
    if b == [] {
      assert a + b == a;
    } else {
      assert (a + b)[..|a + b| - 1] == a + b[..|b| - 1];
      ExecConcat(s, a, b[..|b| - 1]);
    }
  }

  /**
   * From any reachable state, without new arrivals, the requests together take at most
   * `TotalRank` more steps, whichever of them fail; and once none can take a step, the flag is
   * clear again.
   */
  lemma FlagComesBack(before: seq<Label>, after: seq<Label>)
    requires forall i :: 0 <= i < |after| ==> after[i].Act?
    ensures var s := Exec(IDLE, before);
            var r := Exec(s, after);
            && Acts(s, after) + TotalRank(r) <= TotalRank(s)
            && ((forall t: nat, ok: bool :: !Enabled(r, Act(t, ok))) ==> !r.inProgress)
  {
    var s := Exec(IDLE, before);
    var r := Exec(s, after);
    RunRanks(s, after);
    ExecConcat(IDLE, before, after);
    RunAccounted(before + after);
    if r.inProgress {
      var i := SomeOwner(r.requests);
      assert Enabled(r, Act(i, true));
    }
  }

  // ---- every stage in its order

  /** The stages between the swap and the watchdog. */
  function Stage(i: nat): Phase {
    match i
    case 0 => Preflight
    case 1 => CheckCached
    case 2 => Downloading
    case 3 => Responding
    case 4 => Connecting
    case 5 => Opening
    case 6 => ReadingConfig
    case 7 => BackingUp
    case 8 => WritingScript
    case 9 => CreatingTask
    case 10 => RunningTask
    case _ => Watching
  }

  datatype Taken = Taken(phase: Phase, ok: bool)

  /** The steps request `t` has taken along a run, with their outcomes. */
  function StepsOf(s: Server, ls: seq<Label>, t: nat): seq<Taken> {
    if ls == [] then []
    else
      var front := Exec(s, ls[..|ls| - 1]);
      var l := ls[|ls| - 1];
      StepsOf(s, ls[..|ls| - 1], t)
      + if l.Act? && l.t == t && Enabled(front, l) then [Taken(front.requests[t], l.ok)] else []
  }

  /** The request took the flag and then passed the first `i` stages, one after the other. */
  ghost predicate Passed(h: seq<Taken>, i: nat) {
    && |h| == i + 1 && h[0].phase == Arrived
    && forall j :: 0 <= j < i ==> h[j + 1].phase == Stage(j) && (h[j + 1].ok || Stage(j) == Responding)
  }

  /** It passed the first `i` stages and failed in the next one. */
  ghost predicate FailedIn(h: seq<Taken>, i: nat) {
    h != [] && Passed(h[..|h| - 1], i) && h[|h| - 1] == Taken(Stage(i), false)
  }

  ghost predicate FailedBetween(h: seq<Taken>, first: nat, last: nat) {
    exists i :: first <= i <= last && FailedIn(h, i)
  }

  /** What a request's phase says about its steps. */
  ghost predicate Explains(h: seq<Taken>, p: Phase) {
    && (p == Arrived ==> h == [])
    && (forall i :: 0 <= i <= 11 && p == Stage(i) ==> Passed(h, i))
    && (p == Cleaning ==> FailedBetween(h, 4, 10))
    && (p == Releasing ==>
          FailedBetween(h, 0, 2) || (h != [] && h[|h| - 1].phase == Cleaning && FailedBetween(h[..|h| - 1], 4, 10)))
  }

  lemma PassedOn(h: seq<Taken>, i: nat, ok: bool)
    requires Passed(h, i) && i <= 10 && (ok || Stage(i) == Responding)
    ensures Passed(h + [Taken(Stage(i), ok)], i + 1)
  {
  }

  lemma FailsIn(h: seq<Taken>, i: nat)
    requires Passed(h, i)
    ensures FailedIn(h + [Taken(Stage(i), false)], i)
  {
    assert (h + [Taken(Stage(i), false)])[..|h|] == h;
  }

  lemma StagesDiffer(i: nat, j: nat)
    requires i < j <= 11
    ensures Stage(i) != Stage(j)
  {
  }

  lemma AdvanceExplains(h: seq<Taken>, p: Phase, ok: bool, taken: bool, i: nat)
    requires i <= 10 && p == Stage(i) && Explains(h, p)
    ensures Explains(h + [Taken(p, ok)], Advance(p, ok, taken))
  {
    var p' := Advance(p, ok, taken);
    if ok || p == Responding {
      assert p' == Stage(i + 1);
      PassedOn(h, i, ok);
      forall j | 0 <= j <= 11 && p' == Stage(j) ensures j == i + 1 {
        if j < i + 1 {
          StagesDiffer(j, i + 1);
        } else if j > i + 1 {
          StagesDiffer(i + 1, j);
        }
      }
    } else {
      FailsIn(h, i);
    }
  }

  lemma OthersExplain(h: seq<Taken>, p: Phase, ok: bool, taken: bool)
    requires Explains(h, p) && (p == Arrived || p == Cleaning || p == Releasing || p == Watching)
    ensures Explains(h + [Taken(p, ok)], Advance(p, ok, taken))
  {
    var h' := h + [Taken(p, ok)];
    assert h'[..|h|] == h;
    if p == Arrived {
      assert Passed(h', 0);
      forall j | 0 <= j <= 11 && Preflight == Stage(j) ensures j == 0 {
        if j > 0 {
          StagesDiffer(0, j);
        }
      }
    }
  }

  lemma StepExplains(h: seq<Taken>, p: Phase, ok: bool, taken: bool)
    requires Explains(h, p) && !p.Rejected? && !p.Released?
    ensures Explains(h + [Taken(p, ok)], Advance(p, ok, taken))
  {
    if p == Arrived || p == Cleaning || p == Releasing || p == Watching {
      OthersExplain(h, p, ok, taken);
    } else {
      var i := IndexOf(p);
      AdvanceExplains(h, p, ok, taken, i);
    }
  }

  lemma IndexOf(p: Phase) returns (i: nat)
    requires Owner(p) && p != Cleaning && p != Releasing && p != Watching
    ensures i <= 10 && Stage(i) == p
  {
    i := if p == Preflight then 0 else if p == CheckCached then 1 else if p == Downloading then 2
         else if p == Responding then 3 else if p == Connecting then 4 else if p == Opening then 5
         else if p == ReadingConfig then 6 else if p == BackingUp then 7 else if p == WritingScript then 8
         else if p == CreatingTask then 9 else 10;
  }

  ghost predicate Explained(s: Server, t: nat, h: seq<Taken>) {
    if t < |s.requests| then Explains(h, s.requests[t]) else h == []
  }

  /**
   * After any interleaving of any number of requests: a request that is in a stage has passed
   * every earlier one, in order, from the pre-flight check over the cached update and the
   * download to the running task; it cleans up or gives the flag back only after a stage failed.
   */
  lemma {:induction false} StagesInOrder(ls: seq<Label>, t: nat)
    ensures Explained(Exec(IDLE, ls), t, StepsOf(IDLE, ls, t))
  {
    if ls != [] {
      var front := Exec(IDLE, ls[..|ls| - 1]);
      var l := ls[|ls| - 1];
      StagesInOrder(ls[..|ls| - 1], t);
      StagesOn(front, l, t, StepsOf(IDLE, ls[..|ls| - 1], t));
    }
  }

  lemma StagesOn(s: Server, l: Label, t: nat, h: seq<Taken>)
    requires Explained(s, t, h)
    ensures Explained(Step(s, l), t, h + if l.Act? && l.t == t && Enabled(s, l) then [Taken(s.requests[t], l.ok)] else [])
  {
    if l.Act? && l.t == t && Enabled(s, l) {
      StepExplains(h, s.requests[t], l.ok, s.inProgress);
    } else {
      assert h + [] == h;
      ArrivalExplained();
    }
  }

  lemma ArrivalExplained()
    ensures Explains([], Arrived)
  {
    assert forall i :: 0 <= i <= 11 ==> Stage(i) != Arrived;
  }

  /** Only a request whose every stage succeeded comes to its watchdog, and so to a launched script. */
  lemma LaunchedAfterEverything(ls: seq<Label>, t: nat)
    requires t < |Exec(IDLE, ls).requests| && Exec(IDLE, ls).requests[t] == Watching
    ensures var h := StepsOf(IDLE, ls, t);
            && |h| == 12
            && h[1] == Taken(Preflight, true) && h[2] == Taken(CheckCached, true) && h[3] == Taken(Downloading, true)
            && h[4].phase == Responding && h[5] == Taken(Connecting, true) && h[6] == Taken(Opening, true)
            && h[7] == Taken(ReadingConfig, true) && h[8] == Taken(BackingUp, true) && h[9] == Taken(WritingScript, true)
            && h[10] == Taken(CreatingTask, true) && h[11] == Taken(RunningTask, true)
  {
    StagesInOrder(ls, t);
    var h := StepsOf(IDLE, ls, t);
    assert Watching == Stage(11) && Passed(h, 11);
    assert forall j :: 0 <= j < 11 ==> h[j + 1].phase == Stage(j) && (h[j + 1].ok || Stage(j) == Responding);
    assert h[0 + 1].phase == Stage(0) && h[1 + 1].phase == Stage(1) && h[2 + 1].phase == Stage(2) && h[3 + 1].phase == Stage(3);
    assert h[4 + 1].phase == Stage(4) && h[5 + 1].phase == Stage(5) && h[6 + 1].phase == Stage(6) && h[7 + 1].phase == Stage(7);
    assert h[8 + 1].phase == Stage(8) && h[9 + 1].phase == Stage(9) && h[10 + 1].phase == Stage(10);
  }
}
