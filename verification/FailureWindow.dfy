/** The compacted slice of the tracker against the full history of an address's failures. */
module FailureWindow {
  import opened Basics
  import opened LoginTracker

  ghost predicate Sorted(ts: seq<int>) {
    forall i, j :: 0 <= i < j < |ts| ==> ts[i] <= ts[j]
  }

  lemma {:induction false} RecentTwice(ts: seq<int>, c: int, d: int)
    requires c <= d
    ensures Recent(Recent(ts, c), d) == Recent(ts, d)
  {
    if ts != [] {
      var front := ts[..|ts| - 1];
      RecentTwice(front, c, d);
      RecentPush(Recent(front, c), ts[|ts| - 1], d);
    }
  }

  /** Nothing of an ordered history is recent if its last entry is not. */
  lemma {:induction false} NoneRecent(ts: seq<int>, cutoff: int)
    requires Sorted(ts) && (ts != [] ==> ts[|ts| - 1] <= cutoff)
    ensures Recent(ts, cutoff) == []
  {
    if |ts| > 1 {
      NoneRecent(ts[..|ts| - 1], cutoff);
    }
  }

  /** The recent part of an ordered history is a suffix of it: the entries past the cutoff. */
  lemma {:induction false} RecentIsSuffix(ts: seq<int>, cutoff: int)
    requires Sorted(ts)
    ensures var k := |ts| - |Recent(ts, cutoff)|;
            && Recent(ts, cutoff) == ts[k..]
            && (k > 0 ==> ts[k - 1] <= cutoff)
            && (k < |ts| ==> ts[k] > cutoff)
  {
    if ts != [] {
      var last := |ts| - 1;
      if ts[last] > cutoff {
        RecentIsSuffix(ts[..last], cutoff);
        var k := last - |Recent(ts[..last], cutoff)|;
        assert Recent(ts, cutoff) == ts[..last][k..] + [ts[last]] == ts[k..];
      } else {
        NoneRecent(ts, cutoff);
      }
    }
  }

  // ---- any sequence of failures and clears

  datatype Entry = Failure(at: int) | Clear

  /** What the tracker stores for one address after a history of failures and clears. */
  function Replay(h: seq<Entry>): Rec {
    if h == [] then NEW_REC
    else
      match h[|h| - 1]
      case Failure(at) => Failed(Replay(h[..|h| - 1]), at)
      case Clear => NEW_REC
  }

  function SinceClear(h: seq<Entry>): seq<int> {
    if h == [] then []
    else
      match h[|h| - 1]
      case Failure(at) => SinceClear(h[..|h| - 1]) + [at]
      case Clear => []
  }

  ghost predicate NoFailureAfter(h: seq<Entry>, at: int) {
    forall i :: 0 <= i < |h| && h[i].Failure? ==> h[i].at <= at
  }

  ghost predicate TimesOrdered(h: seq<Entry>) {
    h != [] ==>
      && TimesOrdered(h[..|h| - 1])
      && (h[|h| - 1].Failure? ==> NoFailureAfter(h[..|h| - 1], h[|h| - 1].at))
  }

  lemma {:induction false} SinceClearBefore(h: seq<Entry>, at: int)
    requires NoFailureAfter(h, at)
    ensures forall t :: t in SinceClear(h) ==> t <= at
  {
    if h != [] {
      SinceClearBefore(h[..|h| - 1], at);
    }
  }

  /** The failures of an ordered history that lie less than the window before its last one. */
  function InWindow(f: seq<int>): seq<int> {
    if f == [] then [] else Recent(f, f[|f| - 1] - 5 * MINUTE)
  }

  /**
   * For any failures and clears at non-decreasing times, the stored attempts are exactly the
   * failures since the last clear that lie less than the window before the last of them.
   */
  lemma {:induction false} StoredAreTheRecentFailures(h: seq<Entry>)
    requires TimesOrdered(h)
    ensures Replay(h).attempts == InWindow(SinceClear(h))
  {
    if h != [] && h[|h| - 1].Failure? {
      var front := h[..|h| - 1];
      var at := h[|h| - 1].at;
      StoredAreTheRecentFailures(front);
      SinceClearBefore(front, at);
      PushFailure(SinceClear(front), Replay(front), at);
    }
  }

  /** Compacting the stored attempts loses nothing that the window of the new failure would keep. */
  lemma PushFailure(f: seq<int>, rec: Rec, at: int)
    requires rec.attempts == InWindow(f) && (f != [] ==> f[|f| - 1] <= at)
    ensures Failed(rec, at).attempts == InWindow(f + [at])
  {
    var cutoff := at - FAILURE_WINDOW;
    StillRecent(f, rec.attempts, cutoff);
    RecentPush(f, at, cutoff);
    WindowAfter(f, at);
  }

  lemma StillRecent(f: seq<int>, stored: seq<int>, cutoff: int)
    requires stored == InWindow(f) && (f != [] ==> f[|f| - 1] - FAILURE_WINDOW <= cutoff)
    ensures Recent(stored, cutoff) == Recent(f, cutoff)
  {
    if f != [] {
      RecentTwice(f, f[|f| - 1] - FAILURE_WINDOW, cutoff);
    }
  }

  lemma WindowAfter(f: seq<int>, at: int)
    ensures InWindow(f + [at]) == Recent(f + [at], at - FAILURE_WINDOW)
  {
  }

  // ---- how many failures fit into a span of time

  /** Any four consecutive failures span at least the window. */
  ghost predicate FourSpanWindow(f: seq<int>) {
    Sorted(f) && forall i :: 0 <= i < |f| - 3 ==> f[i + 3] - f[i] >= 5 * MINUTE
  }

  lemma SpacedPush(f: seq<int>, now: int)
    requires FourSpanWindow(f) && (f != [] ==> f[|f| - 1] <= now)
    requires |f| >= 3 ==> f[|f| - 3] <= now - FAILURE_WINDOW
    ensures FourSpanWindow(f + [now])
  {
    var g := f + [now];
    forall i | 0 <= i < |g| - 3 ensures g[i + 3] - g[i] >= FAILURE_WINDOW {
      if i + 3 < |f| {
        assert f[i + 3] - f[i] >= FAILURE_WINDOW;
      }
    }
  }

  lemma SpacedFront(f: seq<int>, now: int)
    requires FourSpanWindow(f + [now])
    ensures FourSpanWindow(f) && (|f| >= 3 ==> f[|f| - 3] <= now - FAILURE_WINDOW)
  {
    var g := f + [now];
    assert forall i :: 0 <= i < |f| ==> f[i] == g[i];
    if |f| >= 3 {
      assert g[|f| - 3 + 3] - g[|f| - 3] >= FAILURE_WINDOW;
    }
  }

  /** One more failure keeps the spacing exactly if fewer than three recent ones precede it. */
  lemma SpacedIffFewRecent(f: seq<int>, now: int)
    requires Sorted(f) && (f != [] ==> f[|f| - 1] <= now)
    ensures FourSpanWindow(f + [now]) <==> FourSpanWindow(f) && |Recent(f, now - 5 * MINUTE)| < 3
  {
    RecentIsSuffix(f, now - FAILURE_WINDOW);
    if FourSpanWindow(f + [now]) {
      SpacedFront(f, now);
    } else if FourSpanWindow(f) && (|f| >= 3 ==> f[|f| - 3] <= now - FAILURE_WINDOW) {
      SpacedPush(f, now);
    }
  }

  lemma {:induction false} WindowsAddUp(f: seq<int>, i: nat, k: nat)
    requires FourSpanWindow(f) && i + 3 * k < |f|
    ensures f[i + 3 * k] - f[i] >= k * (5 * MINUTE)
  {
    if k > 0 {
      WindowsAddUp(f, i, k - 1);
      assert f[i + 3 * (k - 1) + 3] - f[i + 3 * (k - 1)] >= FAILURE_WINDOW;
    }
  }

  /** No half-open window holds four failures. */
  lemma AtMostThreeInWindow(f: seq<int>, a: int, i: nat, j: nat)
    requires FourSpanWindow(f) && i <= j < |f|
    requires a <= f[i] && f[j] < a + 5 * MINUTE
    ensures j - i + 1 <= 3
  {
    var k := (j - i) / 3;
    WindowsAddUp(f, i, k);
    assert f[i + 3 * k] <= f[j];
  }

  /** Over a span of length d there are at most 3 * (d / window + 1) failures. */
  lemma FailuresInSpan(f: seq<int>, i: nat, j: nat)
    requires FourSpanWindow(f) && i <= j < |f|
    ensures j - i + 1 <= 3 * ((f[j] - f[i]) / (5 * MINUTE) + 1)
  {
    var k := (j - i) / 3;
    WindowsAddUp(f, i, k);
    assert f[i + 3 * k] <= f[j];
    var d := f[j] - f[i];
    assert d >= k * (5 * MINUTE);
    DivideAtLeast(d, k);
  }

  lemma DivideAtLeast(d: int, k: nat)
    requires d >= k * (5 * MINUTE)
    ensures d / (5 * MINUTE) >= k
  {
    assert 5 * MINUTE == 300_000_000_000;
  }
}
