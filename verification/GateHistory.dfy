/**
 * The gate over whole request sequences: who is let through, how long a lockout lasts, how
 * many failures fit into a span of time, and what a logout does to its token.
 */
module GateHistory {
  import opened Basics
  import opened LoginTracker
  import opened FailureWindow
  import opened Gate
  import Sessions

  datatype Event = Visited(r: Request) | Reconfigure(config: Creds, timeoutMinutes: int)

  function Start(config: Creds, timeoutMinutes: int): GateState {
    GateState(map[], Sessions.Store(map[], timeoutMinutes * MINUTE), config)
  }

  function Next(g: GateState, e: Event): GateState {
    match e
    case Visited(r) => Visit(g, r).0
    case Reconfigure(config, timeoutMinutes) =>
      g.(config := config, store := g.store.(timeout := timeoutMinutes * MINUTE))
  }

  function After(g: GateState, es: seq<Event>): GateState {
    if es == [] then g else Next(After(g, es[..|es| - 1]), es[|es| - 1])
  }

  function OutcomeOf(g: GateState, r: Request): Outcome { Visit(g, r).1 }

  ghost predicate NotAfter(es: seq<Event>, now: int) {
    forall i :: 0 <= i < |es| && es[i].Visited? ==> es[i].r.at <= now
  }

  /** Requests are processed one at a time and the clock does not go back. */
  ghost predicate Ordered(es: seq<Event>) {
    es != [] ==>
      && Ordered(es[..|es| - 1])
      && (es[|es| - 1].Visited? ==> NotAfter(es[..|es| - 1], es[|es| - 1].r.at))
  }

  // ---- failures of one address

  /** The recorded failures of an address since its last successful login. */
  function Failures(g: GateState, es: seq<Event>, ip: string): seq<int> {
    if es == [] then []
    else
      var front := es[..|es| - 1];
      FailuresNext(After(g, front), es[|es| - 1], ip, Failures(g, front, ip))
  }

  function FailuresNext(g: GateState, e: Event, ip: string, f: seq<int>): seq<int> {
    if e.Reconfigure? || e.r.ip != ip then f else FailuresBy(e.r, OutcomeOf(g, e.r), f)
  }

  function FailuresBy(r: Request, outcome: Outcome, f: seq<int>): seq<int> {
    match outcome
    case Unauthorized => f + [r.at]
    case NoToken => []
    case Served(true) => []
    case _ => f
  }

  /** Locked out by the history alone: the last three failures lie within the window, recently. */
  predicate Barred(f: seq<int>, now: int) {
    |f| >= 3 && f[|f| - 3] > f[|f| - 1] - 5 * MINUTE && now <= f[|f| - 1] + 15 * MINUTE
  }

  function Attempts(ips: map<string, Rec>, ip: string): seq<int> {
    if ip in ips then ips[ip].attempts else []
  }

  /** The record of an address is its recent failures, unless a lockout has been forgotten. */
  ghost predicate HistoryFits(ips: map<string, Rec>, ip: string, f: seq<int>, now: int) {
    && Sorted(f) && (f != [] ==> f[|f| - 1] <= now)
    && (Full(ips, ip) ==> f != [] && ips[ip].lockedAt == f[|f| - 1])
    && (if f == [] then Attempts(ips, ip) == []
        else
          || Attempts(ips, ip) == InWindow(f)
          || (Attempts(ips, ip) == [] && now > f[|f| - 1] + LOCKOUT))
  }

  /** In addition no four failures lie within the window. */
  ghost predicate RecFits(ips: map<string, Rec>, ip: string, f: seq<int>, now: int) {
    HistoryFits(ips, ip, f, now) && FourSpanWindow(f) && |Attempts(ips, ip)| <= MAX_FAILED_ATTEMPTS
  }

  lemma LockedIffBarred(ips: map<string, Rec>, ip: string, f: seq<int>, now: int)
    requires HistoryFits(ips, ip, f, now)
    ensures LockedAt(ips, ip, now) <==> Barred(f, now)
  {
    if f != [] {
      RecentIsSuffix(f, f[|f| - 1] - FAILURE_WINDOW);
    }
  }

  lemma CheckKeepsHistory(ips: map<string, Rec>, ip: string, other: string, f: seq<int>, now: int)
    requires HistoryFits(ips, ip, f, now)
    ensures HistoryFits(AfterCheck(ips, other, now), ip, f, now)
  {
  }

  lemma CheckFits(ips: map<string, Rec>, ip: string, other: string, f: seq<int>, now: int)
    requires RecFits(ips, ip, f, now)
    ensures RecFits(AfterCheck(ips, other, now), ip, f, now)
    ensures other == ip ==> Full(AfterCheck(ips, other, now), ip) == LockedAt(ips, ip, now)
  {
    CheckKeepsHistory(ips, ip, other, f, now);
  }

  /** The part of the record that still lies in the window is that of the whole history. */
  lemma RecentAttempts(ips: map<string, Rec>, ip: string, f: seq<int>, now: int)
    requires HistoryFits(ips, ip, f, now)
    ensures Recent(Attempts(ips, ip), now - FAILURE_WINDOW) == Recent(f, now - FAILURE_WINDOW)
  {
    if f != [] && Attempts(ips, ip) != InWindow(f) {
      NoneRecent(f, now - FAILURE_WINDOW);
    } else {
      StillRecent(f, Attempts(ips, ip), now - FAILURE_WINDOW);
    }
  }

  /** What the tracker stores after one more failure: the recent part of the longer history. */
  lemma FailureStored(ips: map<string, Rec>, ip: string, f: seq<int>, now: int)
    requires HistoryFits(ips, ip, f, now)
    ensures Attempts(RecordFailed(ips, ip, now), ip) == InWindow(f + [now])
  {
    RecentAttempts(ips, ip, f, now);
    RecentPush(f, now, now - FAILURE_WINDOW);
    WindowAfter(f, now);
  }

  lemma FailureKeepsHistory(ips: map<string, Rec>, ip: string, f: seq<int>, now: int)
    requires HistoryFits(ips, ip, f, now)
    ensures HistoryFits(RecordFailed(ips, ip, now), ip, f + [now], now)
  {
    FailureStored(ips, ip, f, now);
  }

  lemma AtMostOneMore(ts: seq<int>, cutoff: int, now: int)
    ensures |Recent(ts, cutoff) + [now]| <= |ts| + 1
  {
  }

  lemma FailureFits(ips: map<string, Rec>, ip: string, f: seq<int>, now: int)
    requires RecFits(ips, ip, f, now) && !Full(ips, ip)
    ensures RecFits(RecordFailed(ips, ip, now), ip, f + [now], now)
  {
    FourStillSpan(ips, ip, f, now);
    FailureKeepsHistory(ips, ip, f, now);
    AtMostOneMore(Attempts(ips, ip), now - FAILURE_WINDOW, now);
  }

  lemma FourStillSpan(ips: map<string, Rec>, ip: string, f: seq<int>, now: int)
    requires RecFits(ips, ip, f, now) && !Full(ips, ip)
    ensures FourSpanWindow(f + [now])
  {
    LockedIffBarred(ips, ip, f, now);
    SpacedPush(f, now);
  }

  /** What a request does to the tracker, told by its outcome. */
  function TrackerAfter(ips: map<string, Rec>, r: Request, outcome: Outcome): map<string, Rec> {
    Recorded(AfterCheck(ips, r.ip, r.at), r, outcome)
  }

  function Recorded(checked: map<string, Rec>, r: Request, outcome: Outcome): map<string, Rec> {
    match outcome
    case Unauthorized => RecordFailed(checked, r.ip, r.at)
    case NoToken => checked - {r.ip}
    case Served(true) => checked - {r.ip}
    case _ => checked
  }

  lemma VisitTracks(g: GateState, r: Request)
    ensures Visit(g, r).0.ips == TrackerAfter(g.ips, r, OutcomeOf(g, r))
    ensures OutcomeOf(g, r) == Locked <==> LockedAt(g.ips, r.ip, r.at)
  {
  }

  lemma OtherAddressFits(ips: map<string, Rec>, r: Request, outcome: Outcome, ip: string, f: seq<int>)
    requires RecFits(ips, ip, f, r.at) && r.ip != ip
    ensures RecFits(TrackerAfter(ips, r, outcome), ip, f, r.at)
  {
    CheckFits(ips, ip, r.ip, f, r.at);
  }

  /** A success forgets the address. */
  lemma ClearedFits(ips: map<string, Rec>, ip: string, now: int)
    ensures RecFits(ips - {ip}, ip, [], now) && HistoryFits(ips - {ip}, ip, [], now)
  {
  }

  lemma RecordedFits(checked: map<string, Rec>, r: Request, outcome: Outcome, f: seq<int>)
    requires RecFits(checked, r.ip, f, r.at) && (outcome == Unauthorized ==> !Full(checked, r.ip))
    ensures RecFits(Recorded(checked, r, outcome), r.ip, FailuresBy(r, outcome, f), r.at)
  {
    match outcome
    case Unauthorized => FailureFits(checked, r.ip, f, r.at);
    case NoToken => ClearedFits(checked, r.ip, r.at);
    case Served(true) => ClearedFits(checked, r.ip, r.at);
    case _ =>
  }

  lemma OwnAddressFits(ips: map<string, Rec>, r: Request, outcome: Outcome, f: seq<int>)
    requires RecFits(ips, r.ip, f, r.at) && (outcome == Locked <==> LockedAt(ips, r.ip, r.at))
    ensures RecFits(TrackerAfter(ips, r, outcome), r.ip, FailuresBy(r, outcome, f), r.at)
  {
    CheckFits(ips, r.ip, r.ip, f, r.at);
    RecordedFits(AfterCheck(ips, r.ip, r.at), r, outcome, f);
  }

  lemma VisitFits(g: GateState, r: Request, ip: string, f: seq<int>)
    requires RecFits(g.ips, ip, f, r.at)
    ensures RecFits(Visit(g, r).0.ips, ip, FailuresNext(g, Visited(r), ip, f), r.at)
  {
    VisitTracks(g, r);
    if r.ip == ip {
      OwnAddressFits(g.ips, r, OutcomeOf(g, r), f);
    } else {
      OtherAddressFits(g.ips, r, OutcomeOf(g, r), ip, f);
    }
  }

  lemma RecFitsLater(ips: map<string, Rec>, ip: string, f: seq<int>, now: int, later: int)
    requires RecFits(ips, ip, f, now) && now <= later
    ensures RecFits(ips, ip, f, later)
  {
  }

  lemma {:induction false} RunFits(config: Creds, minutes: int, es: seq<Event>, ip: string, now: int)
    requires Ordered(es) && NotAfter(es, now)
    ensures var g := Start(config, minutes);
            RecFits(After(g, es).ips, ip, Failures(g, es, ip), now)
  {
    if es != [] {
      var front := es[..|es| - 1];
      var e := es[|es| - 1];
      var g := Start(config, minutes);
      if e.Visited? {
        RunFits(config, minutes, front, ip, e.r.at);
        VisitFits(After(g, front), e.r, ip, Failures(g, front, ip));
        RecFitsLater(After(g, es).ips, ip, Failures(g, es, ip), e.r.at, now);
      } else {
        assert NotAfter(front, now);
        RunFits(config, minutes, front, ip, now);
      }
    }
  }

  lemma RunHistory(config: Creds, minutes: int, es: seq<Event>, ip: string, now: int)
    requires Ordered(es) && NotAfter(es, now)
    ensures HistoryFits(After(Start(config, minutes), es).ips, ip, Failures(Start(config, minutes), es, ip), now)
  {
    RunFits(config, minutes, es, ip, now);
  }

  lemma FourAlwaysSpan(config: Creds, minutes: int, es: seq<Event>, ip: string, now: int)
    requires Ordered(es) && NotAfter(es, now)
    ensures FourSpanWindow(Failures(Start(config, minutes), es, ip))
  {
    RunFits(config, minutes, es, ip, now);
  }

  /**
   * For requests processed one at a time: no half-open window of five minutes holds more than
   * three failures of an address with no success in between, and a span of length d holds at
   * most 3 * (d / 5 minutes + 1) of them.
   */
  lemma FailuresAreRationed(config: Creds, minutes: int, es: seq<Event>, ip: string, now: int, i: nat, j: nat)
    requires Ordered(es) && NotAfter(es, now)
    requires i <= j < |Failures(Start(config, minutes), es, ip)|
    ensures var f := Failures(Start(config, minutes), es, ip);
            && (f[j] - f[i] < 5 * MINUTE ==> j - i + 1 <= 3)
            && j - i + 1 <= 3 * ((f[j] - f[i]) / (5 * MINUTE) + 1)
  {
    FourAlwaysSpan(config, minutes, es, ip, now);
    Rationed(Failures(Start(config, minutes), es, ip), i, j);
  }

  lemma Rationed(f: seq<int>, i: nat, j: nat)
    requires FourSpanWindow(f) && i <= j < |f|
    ensures f[j] - f[i] < 5 * MINUTE ==> j - i + 1 <= 3
    ensures j - i + 1 <= 3 * ((f[j] - f[i]) / (5 * MINUTE) + 1)
  {
    if f[j] - f[i] < 5 * MINUTE {
      AtMostThreeInWindow(f, f[i], i, j);
    }
    FailuresInSpan(f, i, j);
  }

  // ---- the lockout

  /**
   * Once an address is locked out at `last`, every request it makes up to fifteen minutes later
   * is refused, whatever other addresses do, and the lockout neither moves nor grows.
   */
  lemma LockoutHolds(config: Creds, minutes: int, es: seq<Event>, ip: string, last: int, more: seq<Event>)
    requires LockedOut(Start(config, minutes), es, ip, last)
    requires Ordered(es + more) && NotAfter(es + more, last + 15 * MINUTE)
    ensures Failures(Start(config, minutes), es + more, ip) == Failures(Start(config, minutes), es, ip)
    ensures AllRefused(Start(config, minutes), es, ip, more)
    ensures var ips := After(Start(config, minutes), es + more).ips;
            LockedAt(ips, ip, last + 15 * MINUTE) && ips[ip].lockedAt == last
  {
    AllAreRefused(config, minutes, es, ip, last, more);
    LockTime(config, minutes, es + more, ip, last);
  }

  lemma {:induction false} AllAreRefused(config: Creds, minutes: int, es: seq<Event>, ip: string, last: int, more: seq<Event>)
    requires LockedOut(Start(config, minutes), es, ip, last)
    requires Ordered(es + more) && NotAfter(es + more, last + 15 * MINUTE)
    ensures Failures(Start(config, minutes), es + more, ip) == Failures(Start(config, minutes), es, ip)
    ensures AllRefused(Start(config, minutes), es, ip, more)
  {
    var g := Start(config, minutes);
    if more == [] {
      assert es + more == es;
    } else {
      var n := |more| - 1;
      assert (es + more)[..|es + more| - 1] == es + more[..n];
      AllAreRefused(config, minutes, es, ip, last, more[..n]);
      if more[n].Visited? && more[n].r.ip == ip {
        StillLocked(config, minutes, es + more[..n], more[n].r, last);
      }
      RefusedToo(g, es, ip, more);
    }
  }

  /** The address has just been locked out: its last recorded failure was the third in the window. */
  ghost predicate LockedOut(g: GateState, es: seq<Event>, ip: string, last: int) {
    var f := Failures(g, es, ip);
    f != [] && f[|f| - 1] == last && Barred(f, last)
  }

  ghost predicate AllRefused(g: GateState, es: seq<Event>, ip: string, more: seq<Event>) {
    forall i :: 0 <= i < |more| && more[i].Visited? && more[i].r.ip == ip ==>
      OutcomeOf(After(g, es + more[..i]), more[i].r) == Locked
  }

  lemma RefusedToo(g: GateState, es: seq<Event>, ip: string, more: seq<Event>)
    requires more != [] && AllRefused(g, es, ip, more[..|more| - 1])
    requires var e := more[|more| - 1];
             e.Visited? && e.r.ip == ip ==> OutcomeOf(After(g, es + more[..|more| - 1]), e.r) == Locked
    ensures AllRefused(g, es, ip, more)
  {
    var front := more[..|more| - 1];
    forall i | 0 <= i < |more| && more[i].Visited? && more[i].r.ip == ip
      ensures OutcomeOf(After(g, es + more[..i]), more[i].r) == Locked
    {
      if i < |front| {
        assert front[i] == more[i] && front[..i] == more[..i];
      }
    }
  }

  lemma RefusedWhenBarred(g: GateState, r: Request, f: seq<int>, last: int)
    requires HistoryFits(g.ips, r.ip, f, r.at) && f != [] && f[|f| - 1] == last
    requires Barred(f, last) && r.at <= last + 15 * MINUTE
    ensures OutcomeOf(g, r) == Locked
  {
    LockedIffBarred(g.ips, r.ip, f, r.at);
  }

  lemma StillLocked(config: Creds, minutes: int, es: seq<Event>, r: Request, last: int)
    requires Ordered(es) && NotAfter(es, r.at) && r.at <= last + 15 * MINUTE
    requires LockedOut(Start(config, minutes), es, r.ip, last)
    ensures OutcomeOf(After(Start(config, minutes), es), r) == Locked
  {
    var g := Start(config, minutes);
    RunHistory(config, minutes, es, r.ip, r.at);
    RefusedWhenBarred(After(g, es), r, Failures(g, es, r.ip), last);
  }

  lemma LockTime(config: Creds, minutes: int, es: seq<Event>, ip: string, last: int)
    requires Ordered(es) && NotAfter(es, last + 15 * MINUTE)
    requires LockedOut(Start(config, minutes), es, ip, last)
    ensures var ips := After(Start(config, minutes), es).ips;
            LockedAt(ips, ip, last + 15 * MINUTE) && ips[ip].lockedAt == last
  {
    var g := Start(config, minutes);
    RunHistory(config, minutes, es, ip, last + 15 * MINUTE);
    LockedIffBarred(After(g, es).ips, ip, Failures(g, es, ip), last + 15 * MINUTE);
  }

  // ---- sessions

  function CheckCalls(r: Request): seq<Sessions.Call> {
    if r.token.Some? then [Sessions.Check(r.token.value, r.at)] else []
  }

  function CreateCalls(r: Request, outcome: Outcome): seq<Sessions.Call> {
    if outcome == Served(true) && r.draw.Some? then [Sessions.Create(r.draw.value, r.at)] else []
  }

  function RemoveCalls(r: Request, outcome: Outcome): seq<Sessions.Call> {
    if outcome.Served? && r.logout && r.token.Some? then [Sessions.Remove(r.token.value)] else []
  }

  /** The calls a request makes on the session store, told by its outcome. */
  function StoreCalls(r: Request, outcome: Outcome): seq<Sessions.Call> {
    if outcome == Locked || outcome == LoggedOut then []
    else CheckCalls(r) + CreateCalls(r, outcome) + RemoveCalls(r, outcome)
  }

  function CallsOf(g: GateState, e: Event): seq<Sessions.Call> {
    match e
    case Visited(r) => StoreCalls(r, OutcomeOf(g, r))
    case Reconfigure(_, minutes) => [Sessions.SetTimeout(minutes)]
  }

  function Calls(g: GateState, es: seq<Event>): seq<Sessions.Call> {
    if es == [] then [] else Calls(g, es[..|es| - 1]) + CallsOf(After(g, es[..|es| - 1]), es[|es| - 1])
  }

  lemma {:induction false} ReplayConcat(s: Sessions.Store, a: seq<Sessions.Call>, b: seq<Sessions.Call>)
    ensures Sessions.Replay(s, a + b) == Sessions.Replay(Sessions.Replay(s, a), b)
  {
    if b == [] {
      assert a + b == a;
    } else {
      assert (a + b)[..|a + b| - 1] == a + b[..|b| - 1];
      ReplayConcat(s, a, b[..|b| - 1]);
    }
  }

  lemma ReplayOne(s: Sessions.Store, c: Sessions.Call)
    ensures Sessions.Replay(s, [c]) == Sessions.Apply(s, c)
  {
    assert [c][..0] == [];
    assert Sessions.Replay(s, [c][..0]) == s;
  }

  lemma NextStore(g: GateState, e: Event)
    ensures Next(g, e).store == Sessions.Replay(g.store, CallsOf(g, e))
  {
    match e
    case Reconfigure(_, minutes) => ReplayOne(g.store, Sessions.SetTimeout(minutes));
    case Visited(r) => VisitStore(g, r);
  }

  lemma ReplayPush(s: Sessions.Store, h: seq<Sessions.Call>, c: Sessions.Call)
    ensures Sessions.Replay(s, h + [c]) == Sessions.Apply(Sessions.Replay(s, h), c)
  {
    assert (h + [c])[..|h|] == h;
  }

  /** What a request does to the store, told by its outcome. */
  function StoreAfter(s: Sessions.Store, r: Request, outcome: Outcome): Sessions.Store {
    if outcome == Locked || outcome == LoggedOut then s
    else
      var checked := if r.token.Some? then Sessions.AfterCheck(s, r.token.value, r.at) else s;
      var created := if CreateCalls(r, outcome) != [] then Sessions.Created(checked, r.draw.value, r.at) else checked;
      if RemoveCalls(r, outcome) != [] then Sessions.Removed(created, r.token.value) else created
  }

  lemma VisitStores(g: GateState, r: Request)
    ensures Visit(g, r).0.store == StoreAfter(g.store, r, OutcomeOf(g, r))
  {
  }

  lemma StoreReplays(s: Sessions.Store, r: Request, outcome: Outcome)
    ensures StoreAfter(s, r, outcome) == Sessions.Replay(s, StoreCalls(r, outcome))
  {
    if outcome != Locked && outcome != LoggedOut {
      var a := CheckCalls(r);
      var b := CreateCalls(r, outcome);
      CheckedStore(s, r);
      if b != [] {
        ReplayPush(s, a, b[0]);
        assert a + b == a + [b[0]];
      } else {
        assert a + b == a;
      }
      if RemoveCalls(r, outcome) != [] {
        ReplayPush(s, a + b, Sessions.Remove(r.token.value));
      } else {
        assert StoreCalls(r, outcome) == a + b;
      }
    }
  }

  lemma VisitStore(g: GateState, r: Request)
    ensures Visit(g, r).0.store == Sessions.Replay(g.store, StoreCalls(r, OutcomeOf(g, r)))
  {
    VisitStores(g, r);
    StoreReplays(g.store, r, OutcomeOf(g, r));
  }

  lemma CheckedStore(s: Sessions.Store, r: Request)
    ensures Sessions.Replay(s, CheckCalls(r)) == if r.token.Some? then Sessions.AfterCheck(s, r.token.value, r.at) else s
  {
    if r.token.Some? {
      ReplayOne(s, Sessions.Check(r.token.value, r.at));
    }
  }

  lemma {:induction false} RunStore(g: GateState, es: seq<Event>)
    ensures After(g, es).store == Sessions.Replay(g.store, Calls(g, es))
  {
    if es != [] {
      var front := es[..|es| - 1];
      RunStore(g, front);
      NextStore(After(g, front), es[|es| - 1]);
      ReplayConcat(g.store, Calls(g, front), CallsOf(After(g, front), es[|es| - 1]));
    }
  }

  lemma {:induction false} OrderedConcat(a: seq<Sessions.Call>, b: seq<Sessions.Call>, at: int)
    requires Sessions.Ordered(a) && Sessions.NotAfter(a, at)
    requires forall i :: 0 <= i < |b| && (b[i].Create? || b[i].Check?) ==> b[i].at == at
    ensures Sessions.Ordered(a + b) && Sessions.NotAfter(a + b, at)
  {
    if b == [] {
      assert a + b == a;
    } else {
      assert (a + b)[..|a + b| - 1] == a + b[..|b| - 1];
      OrderedConcat(a, b[..|b| - 1], at);
    }
  }

  lemma {:induction false} CallsOrdered(g: GateState, es: seq<Event>, now: int)
    requires Ordered(es) && NotAfter(es, now)
    ensures Sessions.Ordered(Calls(g, es)) && Sessions.NotAfter(Calls(g, es), now)
  {
    if es != [] {
      var front := es[..|es| - 1];
      var e := es[|es| - 1];
      var at := if e.Visited? then e.r.at else now;
      assert NotAfter(front, at);
      CallsOrdered(g, front, at);
      CallsTell(After(g, front), e);
      OrderedConcat(Calls(g, front), CallsOf(After(g, front), e), at);
    }
  }

  /** A session the history says is open: created, not logged out since, and not past its deadline. */
  predicate SessionOpen(g: GateState, es: seq<Event>, token: Option<string>, now: int) {
    token.Some?
    && var deadline := Sessions.Deadline(g.store.timeout, Calls(g, es), token.value);
       deadline.Some? && now <= deadline.value
  }

  lemma SessionOpenIffValid(config: Creds, minutes: int, es: seq<Event>, token: string, now: int)
    requires Ordered(es) && NotAfter(es, now)
    ensures var g := Start(config, minutes);
            Sessions.IsValid(After(g, es).store, token, now) <==> SessionOpen(g, es, Some(token), now)
  {
    var g := Start(config, minutes);
    RunStore(g, es);
    CallsOrdered(g, es, now);
    Sessions.LazyExpiryIsInvisible(minutes, Calls(g, es), token, now);
  }

  /** The credentials in force: those of the last reconfiguration. */
  function InForce(config: Creds, es: seq<Event>): Creds {
    if es == [] then config
    else if es[|es| - 1].Reconfigure? then es[|es| - 1].config
    else InForce(config, es[..|es| - 1])
  }

  lemma {:induction false} ConfigIsInForce(config: Creds, minutes: int, es: seq<Event>)
    ensures After(Start(config, minutes), es).config == InForce(config, es)
  {
    if es != [] {
      ConfigIsInForce(config, minutes, es[..|es| - 1]);
    }
  }

  lemma VisitDecides(g: GateState, r: Request)
    ensures OutcomeOf(g, r)
            == if LockedAt(g.ips, r.ip, r.at) then Locked
               else if r.loggedOut then LoggedOut
               else if r.token.Some? && Sessions.IsValid(g.store, r.token.value, r.at) then Served(false)
               else if r.creds != Some(g.config) then Unauthorized
               else if r.draw.None? then NoToken
               else Served(true)
  {
  }

  /**
   * After any ordered sequence of requests and reconfigurations, the history alone decides what
   * becomes of a request: its lockout, its logged-out cookie, its session, its credentials and the
   * random source, in this order.
   */
  lemma GateDecides(config: Creds, minutes: int, es: seq<Event>, r: Request)
    requires Ordered(es) && NotAfter(es, r.at)
    ensures var g := Start(config, minutes);
            OutcomeOf(After(g, es), r)
            == if Barred(Failures(g, es, r.ip), r.at) then Locked
               else if r.loggedOut then LoggedOut
               else if SessionOpen(g, es, r.token, r.at) then Served(false)
               else if r.creds != Some(InForce(config, es)) then Unauthorized
               else if r.draw.None? then NoToken
               else Served(true)
  {
    var g := Start(config, minutes);
    RunHistory(config, minutes, es, r.ip, r.at);
    LockedIffBarred(After(g, es).ips, r.ip, Failures(g, es, r.ip), r.at);
    if r.token.Some? {
      SessionOpenIffValid(config, minutes, es, r.token.value, r.at);
    }
    ConfigIsInForce(config, minutes, es);
    VisitDecides(After(g, es), r);
  }

  /**
   * The protected handler runs for a request exactly when, by the history alone, its address is
   * not locked out, it carries no logged-out cookie, and either its session is open or its user
   * and password are those in force and a token can be generated.
   */
  lemma HandlerRunsIff(config: Creds, minutes: int, es: seq<Event>, r: Request)
    requires Ordered(es) && NotAfter(es, r.at)
    ensures var g := Start(config, minutes);
            OutcomeOf(After(g, es), r).Served? <==>
              && !Barred(Failures(g, es, r.ip), r.at)
              && !r.loggedOut
              && (SessionOpen(g, es, r.token, r.at) || (r.creds == Some(InForce(config, es)) && r.draw.Some?))
  {
    GateDecides(config, minutes, es, r);
  }

  /**
   * A request that gets as far as its credentials, with a wrong user, a wrong password or none,
   * is unauthorized; it adds exactly one failure to its own address, and opens no session.
   */
  lemma WrongCredentialsFail(config: Creds, minutes: int, es: seq<Event>, r: Request, ip: string, token: string, t: int)
    requires Ordered(es) && NotAfter(es, r.at)
    requires var g := Start(config, minutes);
             !Barred(Failures(g, es, r.ip), r.at) && !r.loggedOut && !SessionOpen(g, es, r.token, r.at)
    requires r.creds.None? || r.creds.value.user != InForce(config, es).user || r.creds.value.pass != InForce(config, es).pass
    ensures var g := Start(config, minutes);
            && OutcomeOf(After(g, es), r) == Unauthorized
            && Failures(g, es + [Visited(r)], ip) == Failures(g, es, ip) + (if ip == r.ip then [r.at] else [])
            && (SessionOpen(g, es + [Visited(r)], Some(token), t) <==> SessionOpen(g, es, Some(token), t))
  {
    GateDecides(config, minutes, es, r);
    UnauthorizedAddsFailure(Start(config, minutes), es, r, ip, token, t);
  }

  lemma UnauthorizedAddsFailure(g: GateState, es: seq<Event>, r: Request, ip: string, token: string, t: int)
    requires OutcomeOf(After(g, es), r) == Unauthorized
    ensures Failures(g, es + [Visited(r)], ip) == Failures(g, es, ip) + (if ip == r.ip then [r.at] else [])
    ensures SessionOpen(g, es + [Visited(r)], Some(token), t) <==> SessionOpen(g, es, Some(token), t)
  {
    assert (es + [Visited(r)])[..|es|] == es;
    CallsPush(g, es, Visited(r));
    assert StoreCalls(r, Unauthorized) == CheckCalls(r);
    ChecksOpenNothing(g.store.timeout, Calls(g, es), CheckCalls(r), token);
  }

  lemma ChecksOpenNothing(initial: int, h: seq<Sessions.Call>, checks: seq<Sessions.Call>, token: string)
    requires |checks| <= 1 && forall i :: 0 <= i < |checks| ==> checks[i].Check?
    ensures Sessions.Deadline(initial, h + checks, token) == Sessions.Deadline(initial, h, token)
  {
    if checks == [] {
      assert h + checks == h;
    } else {
      assert (h + checks)[..|h|] == h && (h + checks)[|h|] == checks[0];
    }
  }

  /** A lockout is over once fifteen minutes have passed since the last failure. */
  lemma LockoutIsOver(config: Creds, minutes: int, es: seq<Event>, r: Request)
    requires Ordered(es) && NotAfter(es, r.at)
    requires var f := Failures(Start(config, minutes), es, r.ip); f == [] || r.at > f[|f| - 1] + 15 * MINUTE
    ensures OutcomeOf(After(Start(config, minutes), es), r) != Locked
  {
    GateDecides(config, minutes, es, r);
  }

  /** The session timeout in force, in minutes: that of the last reconfiguration. */
  function TimeoutInForce(minutes: int, es: seq<Event>): int {
    if es == [] then minutes
    else if es[|es| - 1].Reconfigure? then es[|es| - 1].timeoutMinutes
    else TimeoutInForce(minutes, es[..|es| - 1])
  }

  lemma VisitKeepsTimeout(g: GateState, r: Request)
    ensures Visit(g, r).0.store.timeout == g.store.timeout
  {
  }

  lemma {:induction false} TimeoutIsInForce(config: Creds, minutes: int, es: seq<Event>)
    ensures After(Start(config, minutes), es).store.timeout == TimeoutInForce(minutes, es) * MINUTE
  {
    if es != [] {
      TimeoutIsInForce(config, minutes, es[..|es| - 1]);
      if es[|es| - 1].Visited? {
        VisitKeepsTimeout(After(Start(config, minutes), es[..|es| - 1]), es[|es| - 1].r);
      }
    }
  }

  lemma ServedNewStores(g: GateState, r: Request, token: string)
    requires OutcomeOf(g, r) == Served(true) && r.draw == Some(token) && !(r.logout && r.token == Some(token))
    ensures var s := Visit(g, r).0.store;
            token in s.sessions && s.sessions[token] == r.at + g.store.timeout
  {
  }

  /**
   * A login opens a session: until the timeout then in force is over, a request that brings the
   * drawn token is served without credentials.
   */
  lemma LoginOpensSession(config: Creds, minutes: int, es: seq<Event>, r: Request, q: Request, token: string)
    requires OutcomeOf(After(Start(config, minutes), es), r) == Served(true)
    requires r.draw == Some(token) && !(r.logout && r.token == Some(token))
    requires q.token == Some(token) && !q.loggedOut && q.at <= r.at + TimeoutInForce(minutes, es) * MINUTE
    requires !LockedAt(After(Start(config, minutes), es + [Visited(r)]).ips, q.ip, q.at)
    ensures OutcomeOf(After(Start(config, minutes), es + [Visited(r)]), q) == Served(false)
  {
    var g := After(Start(config, minutes), es);
    assert (es + [Visited(r)])[..|es|] == es;
    ServedNewStores(g, r, token);
    TimeoutIsInForce(config, minutes, es);
    VisitDecides(After(Start(config, minutes), es + [Visited(r)]), q);
  }

  // ---- logout

  lemma {:induction false} NotCreatedAgain(initial: int, a: seq<Sessions.Call>, b: seq<Sessions.Call>, token: string)
    requires Sessions.Deadline(initial, a, token).None?
    requires forall i :: 0 <= i < |b| && b[i].Create? ==> b[i].token != token
    ensures Sessions.Deadline(initial, a + b, token).None?
  {
    if b == [] {
      assert a + b == a;
    } else {
      assert (a + b)[..|a + b| - 1] == a + b[..|b| - 1];
      NotCreatedAgain(initial, a, b[..|b| - 1], token);
    }
  }

  lemma CallsTell(g: GateState, e: Event)
    ensures forall i :: 0 <= i < |CallsOf(g, e)| && CallsOf(g, e)[i].Create? ==>
              e.Visited? && e.r.draw == Some(CallsOf(g, e)[i].token)
    ensures forall i :: 0 <= i < |CallsOf(g, e)| && (CallsOf(g, e)[i].Create? || CallsOf(g, e)[i].Check?) ==>
              e.Visited? && CallsOf(g, e)[i].at == e.r.at
  {
  }

  lemma {:induction false} StaysClosed(g: GateState, es: seq<Event>, more: seq<Event>, token: string)
    requires Sessions.Deadline(g.store.timeout, Calls(g, es), token).None?
    requires forall i :: 0 <= i < |more| && more[i].Visited? ==> more[i].r.draw != Some(token)
    ensures Sessions.Deadline(g.store.timeout, Calls(g, es + more), token).None?
  {
    if more == [] {
      assert es + more == es;
    } else {
      var front := more[..|more| - 1];
      assert (es + more)[..|es + more| - 1] == es + front;
      StaysClosed(g, es, front, token);
      var e := more[|more| - 1];
      CallsTell(After(g, es + front), e);
      NotCreatedAgain(g.store.timeout, Calls(g, es + front), CallsOf(After(g, es + front), e), token);
    }
  }

  lemma LogoutCloses(g: GateState, es: seq<Event>, r: Request, token: string)
    requires OutcomeOf(After(g, es), r).Served? && r.logout && r.token == Some(token)
    ensures Sessions.Deadline(g.store.timeout, Calls(g, es + [Visited(r)]), token).None?
  {
    CallsPush(g, es, Visited(r));
    var outcome := OutcomeOf(After(g, es), r);
    var rest := CheckCalls(r) + CreateCalls(r, outcome);
    assert StoreCalls(r, outcome) == rest + [Sessions.Remove(token)];
    RemovedHasNoDeadline(g.store.timeout, Calls(g, es), rest, token);
  }

  lemma CallsPush(g: GateState, es: seq<Event>, e: Event)
    ensures Calls(g, es + [e]) == Calls(g, es) + CallsOf(After(g, es), e)
  {
    assert (es + [e])[..|es|] == es;
  }

  lemma RemovedHasNoDeadline(initial: int, a: seq<Sessions.Call>, b: seq<Sessions.Call>, token: string)
    ensures Sessions.Deadline(initial, a + (b + [Sessions.Remove(token)]), token).None?
  {
    var h := a + (b + [Sessions.Remove(token)]);
    assert h[|h| - 1] == Sessions.Remove(token);
  }

  /**
   * After a served logout with a token, no later request that relies on that token alone is
   * ever let through, as long as the random source does not draw the same token again.
   */
  lemma LoggedOutTokenIsDead(config: Creds, minutes: int, es: seq<Event>, logout: Request, more: seq<Event>,
                             token: string, r: Request)
    requires var g := Start(config, minutes);
             OutcomeOf(After(g, es), logout).Served? && logout.logout && logout.token == Some(token)
    requires forall i :: 0 <= i < |more| && more[i].Visited? ==> more[i].r.draw != Some(token)
    requires Ordered(es + [Visited(logout)] + more) && NotAfter(es + [Visited(logout)] + more, r.at)
    requires r.token == Some(token)
    requires r.creds != Some(InForce(config, es + [Visited(logout)] + more))
    ensures !OutcomeOf(After(Start(config, minutes), es + [Visited(logout)] + more), r).Served?
  {
    var g := Start(config, minutes);
    LogoutCloses(g, es, logout, token);
    StaysClosed(g, es + [Visited(logout)], more, token);
    HandlerRunsIff(config, minutes, es + [Visited(logout)] + more, r);
  }

  /** A refusal for the logged-out cookie changes neither failures nor sessions, whatever the request carries. */
  lemma LoggedOutCookieIsFree(config: Creds, minutes: int, es: seq<Event>, r: Request, ip: string)
    requires Ordered(es) && NotAfter(es, r.at) && r.loggedOut
    ensures var g := Start(config, minutes);
            && !OutcomeOf(After(g, es), r).Served?
            && Failures(g, es + [Visited(r)], ip) == Failures(g, es, ip)
            && After(g, es + [Visited(r)]).store == After(g, es).store
  {
    assert (es + [Visited(r)])[..|es|] == es;
  }
}
