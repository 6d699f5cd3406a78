/**
 * The gate under overlapping requests.  Each section under a lock of the tracker, the session
 * store or the configuration is one step, and the sections of any number of requests interleave
 * freely; the ration of failures and the lockout then hold exactly under a stated condition.
 */
module GateOverlap {
  import opened Basics
  import opened LoginTracker
  import opened FailureWindow
  import opened Gate
  import Sessions
  import G = GateHistory

  datatype Phase =
    | Arrived                       // about to ask whether its address is locked
    | Asking(token: string)         // about to ask for its session
    | AtLogin                       // about to compare its credentials
    | Mismatched                    // about to record a failure
    | Matched                       // about to record a success
    | Creating                      // about to create a session
    | Handling(newSession: bool)    // let through to the handler
    | Ended(outcome: Outcome)

  datatype Visitor = Visitor(r: Request, phase: Phase)

  datatype Server = Server(gate: GateState, now: int, visitors: seq<Visitor>)

  datatype Label = Tick(d: nat) | Arrive(r: Request) | Advance(t: nat) | Reconfigure(config: Creds, timeoutMinutes: int)

  function Open(now: int, config: Creds, timeoutMinutes: int): Server {
    Server(G.Start(config, timeoutMinutes), now, [])
  }

  /** What a visitor's next section does to the gate, and where it leads. */
  function Section(g: GateState, r: Request, phase: Phase, now: int): (GateState, Phase) {
    match phase
    case Arrived =>
      (g.(ips := AfterCheck(g.ips, r.ip, now)),
       if LockedAt(g.ips, r.ip, now) then Ended(Locked)
       else if r.loggedOut then Ended(LoggedOut)
       else if r.token.Some? then Asking(r.token.value) else AtLogin)
    case Asking(token) =>
      (g.(store := Sessions.AfterCheck(g.store, token, now)),
       if Sessions.IsValid(g.store, token, now) then Handling(false) else AtLogin)
    case AtLogin => (g, if CredsMatch(g.config, r) then Matched else Mismatched)
    case Mismatched => (g.(ips := RecordFailed(g.ips, r.ip, now)), Ended(Unauthorized))
    case Matched => (g.(ips := g.ips - {r.ip}), Creating)
    case Creating =>
      if r.draw.None? then (g, Ended(NoToken))
      else (g.(store := Sessions.Created(g.store, r.draw.value, now)), Handling(true))
    case Handling(new_) => (g.(store := AfterHandler(g.store, r)), Ended(Served(new_)))
    case Ended(_) => (g, phase)
  }

  function Step(s: Server, l: Label): Server {
    match l
    case Tick(d) => s.(now := s.now + d)
    case Arrive(r) => s.(visitors := s.visitors + [Visitor(r, Arrived)])
    case Reconfigure(config, minutes) =>
      s.(gate := s.gate.(config := config, store := s.gate.store.(timeout := minutes * MINUTE)))
    case Advance(t) =>
      if t >= |s.visitors| then s
      else
        var v := s.visitors[t];
        var (g, phase) := Section(s.gate, v.r, v.phase, s.now);
        Server(g, s.now, s.visitors[t := v.(phase := phase)])
  }

  function Exec(s: Server, ls: seq<Label>): Server {
    if ls == [] then s else Step(Exec(s, ls[..|ls| - 1]), ls[|ls| - 1])
  }

  // ---- without overlap this is the gate

  /** A visitor whose sections follow one another without interruption. */
  function Through(g: GateState, r: Request, phase: Phase, n: nat): (GateState, Phase)
    decreases n
  {
    if n == 0 then (g, phase)
    else
      var (g', phase') := Section(g, r, phase, r.at);
      Through(g', r, phase', n - 1)
  }

  /** A request that nothing interrupts passes the gate as the sequential gate describes it. */
  lemma UninterruptedIsVisit(g: GateState, r: Request)
    ensures Through(g, r, Arrived, 6) == (Visit(g, r).0, Ended(Visit(g, r).1))
  {
    var a := Section(g, r, Arrived, r.at);
    assert Through(g, r, Arrived, 6) == Through(a.0, r, a.1, 5);
    if a.1.Asking? {
      var b := Section(a.0, r, a.1, r.at);
      assert Through(a.0, r, a.1, 5) == Through(b.0, r, b.1, 4);
      if b.1 == AtLogin {
        UninterruptedLogin(b.0, r, 4);
      } else {
        EndedStays(Section(b.0, r, b.1, r.at).0, r, Ended(Served(false)), 3);
      }
    } else if a.1 == AtLogin {
      UninterruptedLogin(a.0, r, 5);
    } else {
      EndedStays(a.0, r, a.1, 5);
    }
  }

  lemma UninterruptedLogin(g: GateState, r: Request, n: nat)
    requires n >= 4
    ensures Through(g, r, AtLogin, n) == (Login(g, r).0, Ended(Login(g, r).1))
  {
    var a := Section(g, r, AtLogin, r.at);
    var b := Section(a.0, r, a.1, r.at);
    assert Through(g, r, AtLogin, n) == Through(b.0, r, b.1, n - 2);
    if b.1.Ended? {
      EndedStays(b.0, r, b.1, n - 2);
    } else {
      var c := Section(b.0, r, b.1, r.at);
      var d := Section(c.0, r, c.1, r.at);
      assert Through(b.0, r, b.1, n - 2) == Through(d.0, r, d.1, n - 4);
      EndedStays(d.0, r, d.1, n - 4);
    }
  }

  lemma {:induction false} EndedStays(g: GateState, r: Request, phase: Phase, n: nat)
    requires phase.Ended?
    ensures Through(g, r, phase, n) == (g, phase)
    decreases n
  {
    if n > 0 {
      EndedStays(g, r, phase, n - 1);
    }
  }

  // ---- the failures of one address

  /** The next section of a visitor of the address is in this phase. */
  predicate Acts(s: Server, l: Label, ip: string, phase: Phase) {
    l.Advance? && l.t < |s.visitors| && s.visitors[l.t].r.ip == ip && s.visitors[l.t].phase == phase
  }

  function FailuresNext(s: Server, l: Label, ip: string, f: seq<int>): seq<int> {
    if Acts(s, l, ip, Mismatched) then f + [s.now]
    else if Acts(s, l, ip, Matched) then []
    else f
  }

  /** The recorded failures of an address since its last recorded success. */
  function Failures(s: Server, ls: seq<Label>, ip: string): seq<int> {
    if ls == [] then []
    else FailuresNext(Exec(s, ls[..|ls| - 1]), ls[|ls| - 1], ip, Failures(s, ls[..|ls| - 1], ip))
  }

  /** The attempts of an address that a failure recorded now would find in the window. */
  function RecentOf(s: Server, ip: string): seq<int> {
    Recent(G.Attempts(s.gate.ips, ip), s.now - 5 * MINUTE)
  }

  /** Each of these failures, when recorded, found fewer than three recent ones. */
  predicate Guarded(s: Server, ls: seq<Label>, ip: string) {
    ls != [] ==>
      var t, l := Exec(s, ls[..|ls| - 1]), ls[|ls| - 1];
      if Acts(t, l, ip, Matched) then true
      else
        Guarded(s, ls[..|ls| - 1], ip)
        && (Acts(t, l, ip, Mismatched) ==> |RecentOf(t, ip)| < 3)
  }

  // ---- the record fits the history, whatever the overlap

  ghost predicate Fits(s: Server, ip: string, f: seq<int>) {
    G.HistoryFits(s.gate.ips, ip, f, s.now)
  }

  lemma OthersTracked(ips: map<string, Rec>, ip: string, other: string, f: seq<int>, now: int)
    requires G.HistoryFits(ips, ip, f, now) && other != ip
    ensures G.HistoryFits(AfterCheck(ips, other, now), ip, f, now)
    ensures G.HistoryFits(RecordFailed(ips, other, now), ip, f, now)
    ensures G.HistoryFits(ips - {other}, ip, f, now)
  {
  }

  lemma SectionFits(g: GateState, v: Visitor, now: int, ip: string, f: seq<int>)
    requires G.HistoryFits(g.ips, ip, f, now)
    ensures var own := v.r.ip == ip;
            G.HistoryFits(Section(g, v.r, v.phase, now).0.ips, ip,
                          if own && v.phase == Mismatched then f + [now] else if own && v.phase == Matched then [] else f, now)
  {
    if v.r.ip != ip {
      OthersTracked(g.ips, ip, v.r.ip, f, now);
    } else {
      match v.phase
      case Arrived => G.CheckKeepsHistory(g.ips, ip, ip, f, now);
      case Mismatched => G.FailureKeepsHistory(g.ips, ip, f, now);
      case Matched => G.ClearedFits(g.ips, ip, now);
      case _ =>
    }
  }

  lemma StepFits(s: Server, l: Label, ip: string, f: seq<int>)
    requires Fits(s, ip, f)
    ensures Fits(Step(s, l), ip, FailuresNext(s, l, ip, f))
  {
    if l.Advance? && l.t < |s.visitors| {
      SectionFits(s.gate, s.visitors[l.t], s.now, ip, f);
    } else {
      Later(s, l, ip, f);
    }
  }

  lemma Later(s: Server, l: Label, ip: string, f: seq<int>)
    requires Fits(s, ip, f) && !(l.Advance? && l.t < |s.visitors|)
    ensures Fits(Step(s, l), ip, f)
  {
  }

  lemma {:induction false} RunFits(s: Server, ls: seq<Label>, ip: string)
    requires s.gate.ips == map[]
    ensures Fits(Exec(s, ls), ip, Failures(s, ls, ip))
  {
    if ls != [] {
      RunFits(s, ls[..|ls| - 1], ip);
      StepFits(Exec(s, ls[..|ls| - 1]), ls[|ls| - 1], ip, Failures(s, ls[..|ls| - 1], ip));
    }
  }

  /**
   * However requests overlap, an address is locked exactly if the last three failures recorded
   * since its last success lie within the window and the last is at most fifteen minutes old.
   */
  lemma LockedIffHistorySays(config: Creds, minutes: int, now: int, ls: seq<Label>, ip: string)
    ensures var s := Open(now, config, minutes);
            var r := Exec(s, ls);
            LockedAt(r.gate.ips, ip, r.now) <==> G.Barred(Failures(s, ls, ip), r.now)
  {
    var s := Open(now, config, minutes);
    RunFits(s, ls, ip);
    G.LockedIffBarred(Exec(s, ls).gate.ips, ip, Failures(s, ls, ip), Exec(s, ls).now);
  }

  // ---- when the ration holds

  lemma OneMoreRationedIff(ips: map<string, Rec>, ip: string, f: seq<int>, now: int)
    requires G.HistoryFits(ips, ip, f, now)
    ensures FourSpanWindow(f + [now]) <==>
              FourSpanWindow(f) && |Recent(G.Attempts(ips, ip), now - 5 * MINUTE)| < 3
  {
    G.RecentAttempts(ips, ip, f, now);
    SpacedIffFewRecent(f, now);
  }

  /** The three ways in which a step continues a history. */
  lemma ContinuesRationed(f: seq<int>, next: seq<int>, now: int, fails: bool, succeeds: bool, few: bool)
    requires next == if fails then f + [now] else if succeeds then [] else f
    requires FourSpanWindow(f + [now]) <==> FourSpanWindow(f) && few
    ensures FourSpanWindow(next) <==> (!fails && succeeds) || (FourSpanWindow(f) && (fails ==> few))
  {
    if fails {
      assert next == f + [now];
    } else if succeeds {
      assert FourSpanWindow([]);
    }
  }

  lemma StepRationed(s: Server, l: Label, ip: string, f: seq<int>)
    requires Fits(s, ip, f)
    ensures FourSpanWindow(FailuresNext(s, l, ip, f)) <==>
              Acts(s, l, ip, Matched)
              || (FourSpanWindow(f) && (Acts(s, l, ip, Mismatched) ==> |RecentOf(s, ip)| < 3))
  {
    OneMoreRationedIff(s.gate.ips, ip, f, s.now);
    ContinuesRationed(f, FailuresNext(s, l, ip, f), s.now, Acts(s, l, ip, Mismatched), Acts(s, l, ip, Matched),
                      |RecentOf(s, ip)| < 3);
  }

  /**
   * For any overlap of requests, no four failures of an address without a success in between lie
   * within five minutes if and only if each of them, when it was recorded, found fewer than
   * three recorded within the five minutes before.
   */
  lemma {:induction false} RationHoldsIff(config: Creds, minutes: int, now: int, ls: seq<Label>, ip: string)
    ensures var s := Open(now, config, minutes);
            FourSpanWindow(Failures(s, ls, ip)) <==> Guarded(s, ls, ip)
  {
    if ls != [] {
      var s := Open(now, config, minutes);
      var front := ls[..|ls| - 1];
      RationHoldsIff(config, minutes, now, front, ip);
      RunFits(s, front, ip);
      StepRationed(Exec(s, front), ls[|ls| - 1], ip, Failures(s, front, ip));
    }
  }

  /** A failure that breaks the ration is one recorded for an address that has been locked meanwhile. */
  lemma OnlyLockedBreaksRation(config: Creds, minutes: int, now: int, ls: seq<Label>, ip: string)
    ensures var s := Exec(Open(now, config, minutes), ls);
            |RecentOf(s, ip)| >= 3 ==> LockedAt(s.gate.ips, ip, s.now)
  {
    var s := Open(now, config, minutes);
    var r := Exec(s, ls);
    var f := Failures(s, ls, ip);
    RunFits(s, ls, ip);
    G.RecentAttempts(r.gate.ips, ip, f, r.now);
    if |RecentOf(r, ip)| >= 3 {
      RecentIsSuffix(f, r.now - 5 * MINUTE);
      G.LockedIffBarred(r.gate.ips, ip, f, r.now);
    }
  }

  // ---- what a late section does to a lockout

  /**
   * Which step ends a lockout before its time: a recorded success, or a recorded failure that
   * finds fewer than two recent ones.  No other step does.
   */
  lemma LockoutEndsIff(s: Server, l: Label, ip: string)
    requires LockedAt(s.gate.ips, ip, s.now) && !l.Tick?
    ensures !LockedAt(Step(s, l).gate.ips, ip, s.now) <==>
              Acts(s, l, ip, Matched) || (Acts(s, l, ip, Mismatched) && |RecentOf(s, ip)| < 2)
    ensures LockedAt(Step(s, l).gate.ips, ip, s.now) ==>
              Step(s, l).gate.ips[ip].lockedAt == if Acts(s, l, ip, Mismatched) then s.now else s.gate.ips[ip].lockedAt
  {
  }

  // ---- runs in which the ration fails

  lemma Push(s: Server, ls: seq<Label>, l: Label, ip: string)
    ensures Exec(s, ls + [l]) == Step(Exec(s, ls), l)
    ensures Failures(s, ls + [l], ip) == FailuresNext(Exec(s, ls), l, ip, Failures(s, ls, ip))
  {
    assert (ls + [l])[..|ls|] == ls;
  }

  predicate WrongGuess(config: Creds, r: Request) {
    r.creds != Some(config) && r.token.None? && !r.loggedOut
  }

  /** All of `n` requests have passed the lock check; the first `k` have recorded their failure. */
  ghost predicate Crowd(s: Server, r: Request, n: nat, k: nat) {
    && s.now == 0 && |s.visitors| == n
    && forall i :: 0 <= i < n ==> s.visitors[i] == Visitor(r, if i < k then Ended(Unauthorized) else Mismatched)
  }

  lemma OneMoreComes(s: Server, r: Request, n: nat) returns (t: Server)
    requires WrongGuess(s.gate.config, r) && s.gate.ips == map[] && Crowd(s, r, n, 0)
    ensures t == Step(Step(Step(s, Arrive(r)), Advance(n)), Advance(n))
    ensures Crowd(t, r, n + 1, 0) && t.gate == s.gate
  {
    var a := Step(s, Arrive(r));
    var b := Step(a, Advance(n));
    t := Step(b, Advance(n));
  }

  lemma {:induction false} CrowdGathers(config: Creds, r: Request, n: nat) returns (ls: seq<Label>)
    requires WrongGuess(config, r)
    ensures var s := Open(0, config, 30);
            Crowd(Exec(s, ls), r, n, 0) && Exec(s, ls).gate == s.gate && Failures(s, ls, r.ip) == []
    decreases n
  {
    ls := [];
    if n > 0 {
      var s := Open(0, config, 30);
      ls := CrowdGathers(config, r, n - 1);
      var t := OneMoreComes(Exec(s, ls), r, n - 1);
      Push(s, ls, Arrive(r), r.ip);
      Push(s, ls + [Arrive(r)], Advance(n - 1), r.ip);
      Push(s, ls + [Arrive(r)] + [Advance(n - 1)], Advance(n - 1), r.ip);
      ls := ls + [Arrive(r)] + [Advance(n - 1)] + [Advance(n - 1)];
    }
  }

  /**
   * Without the guard there is no ration at all: for every n there is an overlap of requests in
   * which n failures of one address are recorded at the same moment.
   */
  lemma {:induction false} AnyNumberFailAtOnce(config: Creds, r: Request, n: nat, k: nat) returns (ls: seq<Label>)
    requires WrongGuess(config, r) && k <= n
    ensures var s := Open(0, config, 30);
            Crowd(Exec(s, ls), r, n, k) && Failures(s, ls, r.ip) == seq(k, _ => 0)
    decreases k
  {
    var s := Open(0, config, 30);
    if k == 0 {
      ls := CrowdGathers(config, r, n);
    } else {
      var front := AnyNumberFailAtOnce(config, r, n, k - 1);
      Push(s, front, Advance(k - 1), r.ip);
      ls := front + [Advance(k - 1)];
    }
  }

  /**
   * A late failure can also end a lockout early: of four overlapping requests three lock the
   * address, the fourth records its failure six minutes later, and the address is free at once.
   */
  lemma LateFailureFreesAddress(config: Creds, r: Request) returns (ls: seq<Label>)
    requires WrongGuess(config, r)
    ensures var s := Exec(Open(0, config, 30), ls);
            LockedAt(s.gate.ips, r.ip, s.now) && LockedAt(s.gate.ips, r.ip, 15 * MINUTE)
            && !LockedAt(Step(s, Advance(3)).gate.ips, r.ip, s.now)
  {
    var s := Open(0, config, 30);
    var front := AnyNumberFailAtOnce(config, r, 4, 3);
    ls := front + [Tick(6 * MINUTE)];
    Push(s, front, Tick(6 * MINUTE), r.ip);
    var t := Exec(s, ls);
    RunFits(s, ls, r.ip);
    RunFits(s, ls + [Advance(3)], r.ip);
    Push(s, ls, Advance(3), r.ip);
    var f := Failures(s, ls, r.ip);
    G.LockedIffBarred(t.gate.ips, r.ip, f, t.now);
    G.LockedIffBarred(Step(t, Advance(3)).gate.ips, r.ip, f + [t.now], t.now);
  }
}
