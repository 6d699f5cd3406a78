/**
 * The failed-login tracker: a sliding window of failures per address, compacted in place,
 * and a lockout once the window holds three.
 */
module LoginTracker {
  import opened Basics

  const MAX_FAILED_ATTEMPTS := 3
  const FAILURE_WINDOW := 5 * MINUTE
  const LOCKOUT := 15 * MINUTE

  // ---- what the tracker means

  /** The times strictly after the cutoff, in order. */
  function Recent(ts: seq<int>, cutoff: int): (r: seq<int>)
    ensures |r| <= |ts|
  {
    if ts == [] then []
    else if ts[|ts| - 1] > cutoff then Recent(ts[..|ts| - 1], cutoff) + [ts[|ts| - 1]]
    else Recent(ts[..|ts| - 1], cutoff)
  }

  lemma RecentPush(ts: seq<int>, t: int, cutoff: int)
    ensures Recent(ts + [t], cutoff) == if t > cutoff then Recent(ts, cutoff) + [t] else Recent(ts, cutoff)
  {
    assert (ts + [t])[..|ts|] == ts;
  }

  datatype Rec = Rec(attempts: seq<int>, lockedAt: int)

  const NEW_REC := Rec([], 0)

  function Failed(rec: Rec, now: int): Rec {
    var attempts := Recent(rec.attempts, now - FAILURE_WINDOW) + [now];
    Rec(attempts, if |attempts| >= MAX_FAILED_ATTEMPTS then now else rec.lockedAt)
  }

  function RecordFailed(ips: map<string, Rec>, ip: string, now: int): map<string, Rec> {
    ips[ip := Failed(if ip in ips then ips[ip] else NEW_REC, now)]
  }

  predicate Full(ips: map<string, Rec>, ip: string) {
    ip in ips && |ips[ip].attempts| >= MAX_FAILED_ATTEMPTS
  }

  predicate LockedAt(ips: map<string, Rec>, ip: string, now: int) {
    Full(ips, ip) && now - ips[ip].lockedAt <= LOCKOUT
  }

  /** Asking whether an address is locked forgets a lockout that is over. */
  function AfterCheck(ips: map<string, Rec>, ip: string, now: int): map<string, Rec> {
    if Full(ips, ip) && !LockedAt(ips, ip, now) then ips - {ip} else ips
  }

  // ---- the record, whose slice is reused

  class IpRecord {
    var attempts: array<int>   // the slice's backing array
    var len: nat
    var lockedAt: int
    ghost const owner: string  // the address whose record this is

    constructor (ghost owner: string)
      ensures this.owner == owner && Fits() && Rec(Contents(), lockedAt) == NEW_REC && fresh(attempts)
    {
      this.owner := owner;
      attempts, len, lockedAt := new int[0], 0, 0;
    }

    predicate Fits()
      reads this
    {
      len <= attempts.Length
    }

    function Contents(): seq<int>
      requires Fits()
      reads this, attempts
    {
      attempts[..len]
    }

    /** Go's append: in place while the capacity lasts, otherwise into a larger array. */
    method Append(x: int)
      requires Fits()
      modifies this, attempts
      ensures Fits() && Contents() == old(Contents()) + [x] && lockedAt == old(lockedAt)
      ensures attempts == old(attempts) || fresh(attempts)
    {
      if len == attempts.Length {
        var bigger := new int[2 * len + 1];
        for i := 0 to len
          invariant len == old(len) && lockedAt == old(lockedAt) && attempts == old(attempts) && len == attempts.Length
          invariant bigger[..i] == attempts[..i] && attempts[..] == old(attempts[..])
        {
          bigger[i] := attempts[i];
        }
        attempts := bigger;
      }
      attempts[len] := x;
      len := len + 1;
    }

    /**
     * Drops the attempts outside the window by writing the others back into the same array.
     * The writing position never passes the reading position, so that no element is
     * overwritten before it is read.
     */
    method Compact(cutoff: int)
      requires Fits()
      modifies this`len, attempts
      ensures Fits() && Contents() == Recent(old(Contents()), cutoff)
    {
      var kept := 0;
      ghost var before := Contents();
      for i := 0 to len
        invariant kept <= i && len == old(len) == |before|
        invariant forall j :: i <= j < len ==> attempts[j] == before[j]
        invariant attempts[..kept] == Recent(before[..i], cutoff)
      {
        var t := attempts[i];
        assert before[..i + 1] == before[..i] + [t];
        RecentPush(before[..i], t, cutoff);
        ghost var sofar := attempts[..kept];
        if t > cutoff {
          attempts[kept] := t;
          assert attempts[..kept] == sofar;
          kept := kept + 1;
          assert attempts[..kept] == attempts[..kept - 1] + [t];
        }
      }
      assert before[..len] == before;
      len := kept;
    }

    method RecordFailure(now: int)
      requires Fits()
      modifies this, attempts
      ensures Fits() && Rec(Contents(), lockedAt) == Failed(Rec(old(Contents()), old(lockedAt)), now)
      ensures attempts == old(attempts) || fresh(attempts)
    {
      Compact(now - FAILURE_WINDOW);
      Append(now);
      if len >= MAX_FAILED_ATTEMPTS {
        lockedAt := now;
      }
    }
  }

  /** A new record that holds one failure. */
  method FailedRecord(ghost ip: string, now: int) returns (rec: IpRecord)
    ensures fresh(rec) && fresh(rec.attempts) && rec.owner == ip
    ensures rec.Fits() && Rec(rec.Contents(), rec.lockedAt) == Failed(NEW_REC, now)
  {
    rec := new IpRecord(ip);
    rec.RecordFailure(now);
  }

  // ---- the tracker

  class Tracker {
    var ips: map<string, IpRecord>
    ghost var records: set<IpRecord>
    ghost var homes: map<array<int>, string>   // whose record uses an array
    ghost var view: map<string, Rec>

    ghost predicate Valid()
      reads this, records, homes.Keys
    {
      view.Keys == ips.Keys && forall ip :: ip in ips ==> Keeps(ip)
    }

    ghost predicate Keeps(ip: string)
      requires ip in ips && ip in view
      reads this, records, homes.Keys
    {
      var rec := ips[ip];
      && rec in records && rec.owner == ip
      && rec.attempts in homes && homes[rec.attempts] == ip
      && rec.Fits() && view[ip] == Rec(rec.Contents(), rec.lockedAt)
    }

    /** A record that nothing has touched is still in order. */
    twostate lemma StillKeeps(ip: string)
      requires ip in old(ips) && ip in old(view) && old(Keeps(ip))
      requires ip in ips && ip in view && ips[ip] == old(ips[ip]) && view[ip] == old(view[ip])
      requires unchanged(ips[ip]) && unchanged(ips[ip].attempts)
      requires ips[ip] in records && ips[ip].attempts in homes && homes[ips[ip].attempts] == ip
      ensures Keeps(ip)
    {
    }

    constructor ()
      ensures Valid() && view == map[] && records == {} && homes == map[]
    {
      ips, records, homes, view := map[], {}, map[], map[];
    }

    method RecordFailure(ip: string, now: int)
      requires Valid()
      modifies this, records, homes.Keys
      ensures Valid() && view == RecordFailed(old(view), ip, now)
      ensures fresh(records - old(records)) && fresh(homes.Keys - old(homes).Keys)
    {
      if ip in ips {
        assert Keeps(ip);
        Fail(ip, now);
      } else {
        FailFirst(ip, now);
      }
    }

    /** The first failure of an address that has no record. */
    method FailFirst(ip: string, now: int)
      requires Valid() && ip !in ips
      modifies this
      ensures Valid() && view == old(view)[ip := Failed(NEW_REC, now)]
      ensures fresh(records - old(records)) && fresh(homes.Keys - old(homes).Keys)
    {
      var rec := FailedRecord(ip, now);
      Keep(ip, rec);
    }

    /** Takes in the record of an address that had none. */
    method Keep(ip: string, rec: IpRecord)
      requires Valid() && ip !in ips && rec.owner == ip && rec.Fits()
      requires rec !in records && rec.attempts !in homes
      modifies this
      ensures Valid() && view == old(view)[ip := Rec(rec.Contents(), rec.lockedAt)]
      ensures records == old(records) + {rec} && homes == old(homes)[rec.attempts := ip]
    {
      ips := ips[ip := rec];
      records := records + {rec};
      homes := homes[rec.attempts := ip];
      view := view[ip := Rec(rec.Contents(), rec.lockedAt)];
      forall a | a in ips ensures Keeps(a) {
        if a != ip {
          StillKeeps(a);
        }
      }
    }

    method Fail(ip: string, now: int)
      requires Valid() && ip in ips
      modifies this, ips[ip], ips[ip].attempts
      ensures Valid() && view == old(view)[ip := Failed(old(view)[ip], now)]
      ensures records == old(records) && fresh(homes.Keys - old(homes).Keys)
    {
      var rec := ips[ip];
      assert Keeps(ip);
      rec.RecordFailure(now);
      homes := homes[rec.attempts := ip];
      view := view[ip := Failed(view[ip], now)];
      forall a | a in ips ensures Keeps(a) {
        if a != ip {
          StillKeeps(a);
        }
      }
    }

    method RecordSuccess(ip: string)
      requires Valid()
      modifies this
      ensures Valid() && view == old(view) - {ip} && records == old(records) && homes == old(homes)
    {
      ips := ips - {ip};
      view := view - {ip};
      forall a | a in ips ensures Keeps(a) {
        StillKeeps(a);
      }
    }

    method IsLocked(ip: string, now: int) returns (locked: bool)
      requires Valid()
      modifies this
      ensures Valid() && records == old(records) && homes == old(homes)
      ensures locked == LockedAt(old(view), ip, now) && view == AfterCheck(old(view), ip, now)
    {
      if ip !in ips {
        return false;
      }
      var rec := ips[ip];
      assert Keeps(ip);
      if rec.len < MAX_FAILED_ATTEMPTS {
        return false;
      }
      if now - rec.lockedAt > LOCKOUT {
        RecordSuccess(ip);
        return false;
      }
      return true;
    }
  }
}
