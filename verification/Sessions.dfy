/** The session store: tokens with a deadline, swept lazily, against the history of its calls. */
module Sessions {
  import opened Basics

  datatype Store = Store(sessions: map<string, int>, timeout: int)

  predicate Expired(deadline: int, now: int) { now > deadline }

  function Live(sessions: map<string, int>, now: int): map<string, int> {
    map token | token in sessions && !Expired(sessions[token], now) :: sessions[token]
  }

  function Created(s: Store, token: string, now: int): Store {
    Store(Live(s.sessions, now)[token := now + s.timeout], s.timeout)
  }

  predicate IsValid(s: Store, token: string, now: int) {
    token in s.sessions && !Expired(s.sessions[token], now)
  }

  /** Asking for an expired token forgets it. */
  function AfterCheck(s: Store, token: string, now: int): Store {
    if token in s.sessions && Expired(s.sessions[token], now) then s.(sessions := s.sessions - {token}) else s
  }

  function Removed(s: Store, token: string): Store {
    s.(sessions := s.sessions - {token})
  }

  class SessionStore {
    var sessions: map<string, int>
    var timeout: int

    constructor (timeoutMinutes: int)
      ensures View() == Store(map[], timeoutMinutes * MINUTE)
    {
      sessions, timeout := map[], timeoutMinutes * MINUTE;
    }

    function View(): Store
      reads this
    {
      Store(sessions, timeout)
    }

    method UpdateTimeout(minutes: int)
      modifies this
      ensures View() == Store(old(sessions), minutes * MINUTE)
    {
      timeout := minutes * MINUTE;
    }

    /** `draw` is the random token, None when the random source fails. */
    method Create(draw: Option<string>, now: int) returns (r: Result<string, string>)
      modifies this
      ensures draw.None? ==> r.Err? && View() == old(View())
      ensures draw.Some? ==> r == Ok(draw.value) && View() == Created(old(View()), draw.value, now)
      ensures draw.Some? ==> forall k :: k in sessions && k != draw.value ==> !Expired(sessions[k], now)
    {
      if draw.None? {
        return Err("failed to generate session token");
      }
      var left := sessions.Keys;
      while left != {}
        invariant timeout == old(timeout) && left <= old(sessions).Keys
        invariant sessions.Keys == left + Live(old(sessions), now).Keys
        invariant forall k :: k in sessions ==> sessions[k] == old(sessions)[k]
        decreases |left|
      {
        var k :| k in left;
        if Expired(sessions[k], now) {
          sessions := sessions - {k};
        }
        left := left - {k};
      }
      assert sessions == Live(old(sessions), now);
      sessions := sessions[draw.value := now + timeout];
      return Ok(draw.value);
    }

    method Valid(token: string, now: int) returns (valid: bool)
      modifies this
      ensures valid == IsValid(old(View()), token, now) && View() == AfterCheck(old(View()), token, now)
    {
      if token !in sessions {
        return false;
      }
      if Expired(sessions[token], now) {
        sessions := sessions - {token};
        return false;
      }
      return true;
    }

    method Remove(token: string)
      modifies this
      ensures View() == Removed(old(View()), token)
    {
      sessions := sessions - {token};
    }
  }

  // ---- histories

  datatype Call =
    | Create(token: string, at: int)
    | Check(token: string, at: int)
    | Remove(token: string)
    | SetTimeout(minutes: int)

  function Apply(s: Store, c: Call): Store {
    match c
    case Create(token, at) => Created(s, token, at)
    case Check(token, at) => AfterCheck(s, token, at)
    case Remove(token) => Removed(s, token)
    case SetTimeout(minutes) => s.(timeout := minutes * MINUTE)
  }

  function Replay(s: Store, h: seq<Call>): Store {
    if h == [] then s else Apply(Replay(s, h[..|h| - 1]), h[|h| - 1])
  }

  /** The timeout in force after the history: the last one set. */
  function TimeoutAfter(initial: int, h: seq<Call>): int {
    if h == [] then initial
    else if h[|h| - 1].SetTimeout? then h[|h| - 1].minutes * MINUTE
    else TimeoutAfter(initial, h[..|h| - 1])
  }

  /** The deadline of a token created and not removed since, by the timeout in force at its creation. */
  function Deadline(initial: int, h: seq<Call>, token: string): Option<int> {
    if h == [] then None
    else
      var front := h[..|h| - 1];
      match h[|h| - 1]
      case Create(k, at) => if k == token then Some(at + TimeoutAfter(initial, front)) else Deadline(initial, front, token)
      case Remove(k) => if k == token then None else Deadline(initial, front, token)
      case _ => Deadline(initial, front, token)
  }

  ghost predicate NotAfter(h: seq<Call>, now: int) {
    forall i :: 0 <= i < |h| && (h[i].Create? || h[i].Check?) ==> h[i].at <= now
  }

  ghost predicate Ordered(h: seq<Call>) {
    h != [] ==>
      && Ordered(h[..|h| - 1])
      && (h[|h| - 1].Create? || h[|h| - 1].Check? ==> NotAfter(h[..|h| - 1], h[|h| - 1].at))
  }

  /** The store holds deadlines of the history, and what it has dropped of them is expired. */
  ghost predicate Agrees(s: Store, initial: int, h: seq<Call>, now: int) {
    && s.timeout == TimeoutAfter(initial, h)
    && forall token: string ::
         if token in s.sessions then Deadline(initial, h, token) == Some(s.sessions[token])
         else Deadline(initial, h, token).Some? ==> Expired(Deadline(initial, h, token).value, now)
  }

  lemma {:induction false} ReplayAgrees(initial: int, h: seq<Call>, now: int)
    requires Ordered(h) && NotAfter(h, now)
    ensures Agrees(Replay(Store(map[], initial), h), initial, h, now)
  {
    if h != [] {
      var front := h[..|h| - 1];
      var last := h[|h| - 1];
      var earlier := if last.Create? || last.Check? then last.at else now;
      assert NotAfter(front, earlier);
      ReplayAgrees(initial, front, earlier);
    }
  }

  /**
   * Lazy expiry is invisible: whatever was swept along the way, a token is valid at a time
   * exactly when it was created, not removed since, and the time is not past the creation time
   * plus the timeout then in force.
   */
  lemma LazyExpiryIsInvisible(timeoutMinutes: int, h: seq<Call>, token: string, now: int)
    requires Ordered(h) && NotAfter(h, now)
    ensures var initial := timeoutMinutes * MINUTE;
            IsValid(Replay(Store(map[], initial), h), token, now)
            <==> Deadline(initial, h, token).Some? && now <= Deadline(initial, h, token).value
  {
    ReplayAgrees(timeoutMinutes * MINUTE, h, now);
  }
}
