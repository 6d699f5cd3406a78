/** The authentication middleware in front of every handler: tracker, session store and credentials. */
module Gate {
  import opened Basics
  import opened LoginTracker
  import Sessions

  datatype Creds = Creds(user: string, pass: string)

  /** `draw` is what the random source yields if a token is generated; `logout` asks for /api/logout. */
  datatype Request = Request(
    ip: string, at: int, loggedOut: bool, token: Option<string>, creds: Option<Creds>,
    draw: Option<string>, logout: bool)

  datatype Outcome = Locked | LoggedOut | Unauthorized | NoToken | Served(newSession: bool)

  datatype GateState = GateState(ips: map<string, Rec>, store: Sessions.Store, config: Creds)

  predicate CredsMatch(config: Creds, r: Request) {
    r.creds.Some? && r.creds.value.user == config.user && r.creds.value.pass == config.pass
  }

  /** The logout handler removes the token that came with the request. */
  function AfterHandler(store: Sessions.Store, r: Request): Sessions.Store {
    if r.logout && r.token.Some? then Sessions.Removed(store, r.token.value) else store
  }

  /** Without a valid session: Basic Auth, and on success a new session. */
  function Login(g: GateState, r: Request): (GateState, Outcome) {
    if !CredsMatch(g.config, r) then (g.(ips := RecordFailed(g.ips, r.ip, r.at)), Unauthorized)
    else
      var ips := g.ips - {r.ip};
      if r.draw.None? then (g.(ips := ips), NoToken)
      else (g.(ips := ips, store := AfterHandler(Sessions.Created(g.store, r.draw.value, r.at), r)), Served(true))
  }

  /** Past the lock and the logged-out cookie: a valid session, or else Basic Auth. */
  function Enter(g: GateState, r: Request): (GateState, Outcome) {
    if r.token.None? then Login(g, r)
    else if Sessions.IsValid(g.store, r.token.value, r.at) then (g.(store := AfterHandler(g.store, r)), Served(false))
    else Login(g.(store := Sessions.AfterCheck(g.store, r.token.value, r.at)), r)
  }

  function Visit(g: GateState, r: Request): (GateState, Outcome) {
    var h := g.(ips := AfterCheck(g.ips, r.ip, r.at));
    if LockedAt(g.ips, r.ip, r.at) then (h, Locked)
    else if r.loggedOut then (h, LoggedOut)
    else Enter(h, r)
  }

  class AuthGate {
    const tracker: Tracker
    const store: Sessions.SessionStore
    var config: Creds

    ghost predicate Valid()
      reads this, tracker, tracker.records, tracker.homes.Keys
    {
      tracker.Valid()
    }

    ghost function View(): GateState
      reads this, tracker, store
    {
      GateState(tracker.view, store.View(), config)
    }

    constructor (timeoutMinutes: int, config: Creds)
      ensures Valid()
      ensures View() == GateState(map[], Sessions.Store(map[], timeoutMinutes * MINUTE), config)
    {
      tracker := new Tracker();
      store := new Sessions.SessionStore(timeoutMinutes);
      this.config := config;
    }

    /** The middleware followed by the handler behind it, for one request at a time. */
    method Handle(r: Request) returns (outcome: Outcome)
      requires Valid()
      modifies tracker, tracker.records, tracker.homes.Keys, store
      ensures Valid() && (View(), outcome) == Visit(old(View()), r)
    {
      var locked := tracker.IsLocked(r.ip, r.at);
      if locked {
        return Locked;
      }
      if r.loggedOut {
        return LoggedOut;
      }
      outcome := ComeIn(r);
    }

    method ComeIn(r: Request) returns (outcome: Outcome)
      requires Valid()
      modifies tracker, tracker.records, tracker.homes.Keys, store
      ensures Valid() && (View(), outcome) == Enter(old(View()), r)
    {
      if r.token.Some? {
        var known := store.Valid(r.token.value, r.at);
        if known {
          Next(r);
          return Served(false);
        }
      }
      outcome := LogIn(r);
    }

    method LogIn(r: Request) returns (outcome: Outcome)
      requires Valid()
      modifies tracker, tracker.records, tracker.homes.Keys, store
      ensures Valid() && (View(), outcome) == Login(old(View()), r)
    {
      if !CredsMatch(config, r) {
        tracker.RecordFailure(r.ip, r.at);
        return Unauthorized;
      }
      tracker.RecordSuccess(r.ip);
      var created := store.Create(r.draw, r.at);
      if created.Err? {
        return NoToken;
      }
      Next(r);
      return Served(true);
    }

    /** The protected handler; only logout touches the gate's state. */
    method Next(r: Request)
      modifies store
      ensures store.View() == AfterHandler(old(store.View()), r)
    {
      if r.logout && r.token.Some? {
        store.Remove(r.token.value);
      }
    }
  }
}
