/** The sliding-window rate limiter: a slice of admission times that every call compacts in place. */
module RateLimiters {
  import opened Common

  /** The times of `log` after `cutoff`, in order. */
  function Recent(log: seq<int>, cutoff: int): seq<int> {
    if log == [] then []
    else Recent(log[..|log| - 1], cutoff) + (if log[|log| - 1] > cutoff then [log[|log| - 1]] else [])
  }

  // The simple specification: remember every admission and count those in the window.

  /** The log after one more call. */
  function Admit(log: seq<int>, now: int, window: int, max: nat): seq<int> {
    if |Recent(log, now - window)| < max then log + [now] else log
  }

  /** The admissions of a limiter that is called at the given times. */
  function Admissions(calls: seq<int>, window: int, max: nat): seq<int> {
    if calls == [] then []
    else Admit(Admissions(calls[..|calls| - 1], window, max), calls[|calls| - 1], window, max)
  }

  /** Fewer than `max` admissions lie in (now - window, now]. */
  predicate HasRoom(calls: seq<int>, window: int, max: nat, now: int) {
    |Recent(Admissions(calls, window, max), now - window)| < max
  }

  lemma {:induction false} RecentSnoc(log: seq<int>, t: int, cutoff: int)
    ensures Recent(log + [t], cutoff) == Recent(log, cutoff) + if t > cutoff then [t] else []
  {
    assert (log + [t])[..|log|] == log;
  }

  lemma {:induction false} RecentPrefix(log: seq<int>, i: nat, cutoff: int)
    requires i < |log|
    ensures Recent(log[..i + 1], cutoff) == Recent(log[..i], cutoff) + if log[i] > cutoff then [log[i]] else []
    ensures |Recent(log[..i], cutoff)| <= i
    decreases i
  {
    assert log[..i + 1][..i] == log[..i];
    if i > 0 { RecentPrefix(log, i - 1, cutoff); }
  }

  /** Filtering twice, with the window moving forward, is filtering once. */
  lemma {:induction false} RecentAgain(log: seq<int>, c: int, d: int)
    requires c <= d
    ensures Recent(Recent(log, c), d) == Recent(log, d)
  {
    if log != [] {
      var n := |log| - 1;
      RecentAgain(log[..n], c, d);
      assert Recent(log, c) == if log[n] > c then Recent(log[..n], c) + [log[n]] else Recent(log[..n], c);
      if log[n] > c { RecentSnoc(Recent(log[..n], c), log[n], d); }
    }
  }

  /** Of a sorted log, the recent times are a suffix. */
  lemma {:induction false} RecentIsSuffix(log: seq<int>, cutoff: int) returns (k: nat)
    requires Sorted(log)
    ensures k <= |log| && Recent(log, cutoff) == log[k..]
    ensures forall i | 0 <= i < k :: log[i] <= cutoff
    ensures forall i | k <= i < |log| :: log[i] > cutoff
  {
    if log == [] {
      k := 0;
    } else if log[|log| - 1] <= cutoff {
      k := |log|;
      NothingRecent(log, cutoff);
    } else {
      var n := |log| - 1;
      k := RecentIsSuffix(log[..n], cutoff);
      LastIsRecent(log, cutoff, k);
    }
  }

  lemma {:induction false} NothingRecent(log: seq<int>, cutoff: int)
    requires forall i | 0 <= i < |log| :: log[i] <= cutoff
    ensures Recent(log, cutoff) == []
  {
    if log != [] { NothingRecent(log[..|log| - 1], cutoff); }
  }

  lemma {:induction false} LastIsRecent(log: seq<int>, cutoff: int, k: nat)
    requires log != [] && log[|log| - 1] > cutoff && k <= |log| - 1
    requires Recent(log[..|log| - 1], cutoff) == log[..|log| - 1][k..]
    ensures Recent(log, cutoff) == log[k..]
  {
    var n := |log| - 1;
    assert log[..n][k..] + [log[n]] == log[k..];
  }

  lemma {:induction false} AdmissionsAreSorted(calls: seq<int>, window: int, max: nat)
    requires Sorted(calls)
    ensures var log := Admissions(calls, window, max);
            Sorted(log) && (log != [] ==> calls != [] && log[|log| - 1] <= calls[|calls| - 1])
  {
    if calls != [] { AdmissionsAreSorted(calls[..|calls| - 1], window, max); }
  }

  /** `max` admissions after the i-th at least one whole window has passed. */
  predicate SpacedAt(log: seq<int>, i: nat, window: int, max: nat)
    requires i + max < |log|
  {
    log[i + max] - log[i] >= window
  }

  ghost predicate Spaced(log: seq<int>, window: int, max: nat) {
    forall i | 0 <= i < |log| - max :: SpacedAt(log, i, window, max)
  }

  lemma {:induction false} SpacedSnoc(log: seq<int>, now: int, window: int, max: nat)
    requires Sorted(log) && Spaced(log, window, max) && |Recent(log, now - window)| < max
    ensures Spaced(log + [now], window, max)
  {
    var more := log + [now];
    forall i | 0 <= i < |more| - max ensures SpacedAt(more, i, window, max) {
      if i < |log| - max {
        assert SpacedAt(log, i, window, max);
      } else {
        LastIsSpaced(log, now, window, max);
      }
    }
  }

  lemma {:induction false} LastIsSpaced(log: seq<int>, now: int, window: int, max: nat)
    requires Sorted(log) && |Recent(log, now - window)| < max <= |log|
    ensures now - log[|log| - max] >= window
  {
    var k := RecentIsSuffix(log, now - window);
    assert |log| - max < k;
  }

  lemma {:induction false} AdmitSpaced(log: seq<int>, now: int, window: int, max: nat)
    requires Sorted(log) && Spaced(log, window, max)
    ensures Spaced(Admit(log, now, window, max), window, max)
  {
    if |Recent(log, now - window)| < max { SpacedSnoc(log, now, window, max); }
  }

  /** The log of admissions gets the time of a call that has room, and nothing else. */
  lemma {:induction false} AdmissionsGrow(calls: seq<int>, now: int, window: int, max: nat)
    ensures var log := Admissions(calls, window, max);
      Admissions(calls + [now], window, max) == if HasRoom(calls, window, max, now) then log + [now] else log
  {
    assert (calls + [now])[..|calls|] == calls;
  }

  /** The rule, on the log alone: a call has room exactly if the `max`-th admission from the end, if there are so
      many, lies a whole window back. */
  lemma {:induction false} HasRoomExactly(calls: seq<int>, now: int, window: int, max: nat)
    requires Sorted(calls)
    ensures var log := Admissions(calls, window, max);
      HasRoom(calls, window, max, now) <==> max > 0 && (|log| < max || now - log[|log| - max] >= window)
  {
    AdmissionsAreSorted(calls, window, max);
    var log := Admissions(calls, window, max);
    var k := RecentIsSuffix(log, now - window);
    assert |log[k..]| == |log| - k;
  }

  /** Under a monotone clock the admissions are spaced, whatever the calls. */
  lemma {:induction false} AdmissionsAreSpaced(calls: seq<int>, window: int, max: nat)
    requires Sorted(calls)
    ensures Spaced(Admissions(calls, window, max), window, max)
  {
    if calls != [] {
      var front, now := calls[..|calls| - 1], calls[|calls| - 1];
      AdmissionsAreSpaced(front, window, max);
      AdmissionsAreSorted(front, window, max);
      AdmitSpaced(Admissions(front, window, max), now, window, max);
    }
  }

  /** The window of a log never holds more than `max`, and a refusal means it holds exactly `max`. */
  lemma {:induction false} RefusedOnlyWhenFull(calls: seq<int>, window: int, max: nat, now: int)
    requires Sorted(calls + [now])
    ensures |Recent(Admissions(calls, window, max), now - window)| <= max
    ensures !HasRoom(calls, window, max, now) <==>
            |Recent(Admissions(calls, window, max), now - window)| == max
  {
    assert (calls + [now])[..|calls|] == calls;
    WindowBounded(calls, window, max, now);
  }

  lemma {:induction false} AdmitBounded(log: seq<int>, last: int, window: int, max: nat, now: int)
    requires last <= now && |Recent(log, last - window)| <= max
    ensures |Recent(Admit(log, last, window, max), now - window)| <= max
  {
    RecentMonotone(log, last - window, now - window);
    RecentSnoc(log, last, now - window);
  }

  lemma {:induction false} WindowBounded(calls: seq<int>, window: int, max: nat, now: int)
    requires Sorted(calls + [now])
    ensures |Recent(Admissions(calls, window, max), now - window)| <= max
  {
    if calls != [] {
      var front, last := calls[..|calls| - 1], calls[|calls| - 1];
      assert front + [last] + [now] == calls + [now];
      SortedFront(front, last, now);
      WindowBounded(front, window, max, last);
      AdmitBounded(Admissions(front, window, max), last, window, max, now);
    }
  }

  lemma {:induction false} SortedFront(front: seq<int>, last: int, now: int)
    requires Sorted(front + [last] + [now])
    ensures Sorted(front + [last]) && last <= now
  {
    var all := front + [last] + [now];
    assert all[|front|] == last && all[|front| + 1] == now;
    forall i, j | 0 <= i <= j < |front + [last]| ensures (front + [last])[i] <= (front + [last])[j] {
      assert all[i] <= all[j];
    }
  }

  lemma {:induction false} RecentMonotone(log: seq<int>, c: int, d: int)
    requires c <= d
    ensures |Recent(log, d)| <= |Recent(log, c)|
  {
    if log != [] { RecentMonotone(log[..|log| - 1], c, d); }
  }

  // The limiter itself.

  /** What one call at `now` leaves in the slice: the admissions in the window, and `now` if admitted. */
  function Slice(log: seq<int>, now: int, window: int, max: nat): seq<int> {
    var recent := Recent(log, now - window);
    if |recent| < max then recent + [now] else recent
  }

  /** What the slice holds after these calls. */
  function Stored(calls: seq<int>, window: int, max: nat): seq<int> {
    if calls == [] then []
    else Slice(Admissions(calls[..|calls| - 1], window, max), calls[|calls| - 1], window, max)
  }

  lemma {:induction false} SliceIsEnough(log: seq<int>, now: int, window: int, max: nat, cutoff: int)
    requires now - window <= cutoff
    ensures Recent(Slice(log, now, window, max), cutoff) == Recent(Admit(log, now, window, max), cutoff)
  {
    var recent := Recent(log, now - window);
    RecentAgain(log, now - window, cutoff);
    if |recent| < max {
      RecentSnoc(recent, now, cutoff);
      RecentSnoc(log, now, cutoff);
    }
  }

  lemma {:induction false} SliceIsRecent(log: seq<int>, now: int, window: int, max: nat)
    requires window > 0
    ensures Slice(log, now, window, max) == Recent(Admit(log, now, window, max), now - window)
  {
    if |Recent(log, now - window)| < max { RecentSnoc(log, now, now - window); }
  }

  /** For every later window the slice is as good as the full log; for a positive window it is the log
      filtered to the window. */
  lemma {:induction false} StoredIsEnough(calls: seq<int>, window: int, max: nat, cutoff: int)
    requires calls != [] ==> calls[|calls| - 1] - window <= cutoff
    ensures Recent(Stored(calls, window, max), cutoff) == Recent(Admissions(calls, window, max), cutoff)
    ensures calls != [] && window > 0 ==>
              Stored(calls, window, max) == Recent(Admissions(calls, window, max), calls[|calls| - 1] - window)
  {
    if calls != [] {
      var log, now := Admissions(calls[..|calls| - 1], window, max), calls[|calls| - 1];
      SliceIsEnough(log, now, window, max, cutoff);
      if window > 0 { SliceIsRecent(log, now, window, max); }
    }
  }

  lemma {:induction false} StoredSnoc(calls: seq<int>, now: int, window: int, max: nat)
    ensures Stored(calls + [now], window, max) == Slice(Admissions(calls, window, max), now, window, max)
  {
    assert (calls + [now])[..|calls|] == calls;
  }

  class RateLimiter {
    const requests: array<int>   // the slice's storage; its first `count` elements are the slice
    var count: nat
    const window: int
    const maxRequests: nat
    ghost var calls: seq<int>    // when it was called

    ghost predicate Valid()
      reads this, requests
    {
      && requests.Length == maxRequests && count <= maxRequests
      && Sorted(calls)
      && requests[..count] == Stored(calls, window, maxRequests)
    }

    constructor (window: int, maxRequests: nat)
      ensures Valid() && this.window == window && this.maxRequests == maxRequests && calls == []
      ensures fresh(requests)
    {
      this.window, this.maxRequests := window, maxRequests;
      requests := new int[maxRequests];
      count, calls := 0, [];
    }

    /** Moves the times after `cutoff` to the front of the slice and cuts it off behind them. */
    method Compact(cutoff: int, ghost was: seq<int>)
      requires count <= requests.Length && requests[..count] == was
      modifies this`count, requests
      ensures count <= old(count) && requests[..count] == Recent(was, cutoff)
    {
      var n, validCount := count, 0;
      for i := 0 to n
        invariant validCount <= i
        invariant requests[..validCount] == Recent(was[..i], cutoff)
        invariant requests[i..n] == was[i..]
      {
        var t := requests[i];
        assert t == requests[i..n][0] == was[i];
        RecentPrefix(was, i, cutoff);
        if t > cutoff {
          if i != validCount {
            requests[validCount] := t;
          }
          validCount := validCount + 1;
          assert requests[..validCount] == Recent(was[..i], cutoff) + [t];
        }
        assert was[i..][1..] == was[i + 1..];
      }
      assert was[..n] == was;
      count := validCount;
    }

    /** Appends `now`; there is room, so the slice keeps its storage. */
    method Append(now: int)
      requires count < requests.Length
      modifies this`count, requests
      ensures count == old(count) + 1
      ensures requests[..count] == old(requests[..count]) + [now]
    {
      requests[count] := now;
      count := count + 1;
    }

    /** Admits the call exactly when fewer than `maxRequests` admissions lie in (now - window, now]. */
    method Allow(now: int) returns (ok: bool)
      requires Valid() && (calls != [] ==> calls[|calls| - 1] <= now)
      modifies this, requests
      ensures Valid() && calls == old(calls) + [now]
      ensures ok <==> HasRoom(old(calls), window, maxRequests, now)
    {
      ghost var log := Admissions(calls, window, maxRequests);
      NextCall(calls, now, window, maxRequests);
      ok := CompactAndAdmit(now, log, Stored(calls, window, maxRequests));
      calls := calls + [now];
    }

    method CompactAndAdmit(now: int, ghost log: seq<int>, ghost was: seq<int>) returns (ok: bool)
      requires requests.Length == maxRequests && count <= maxRequests
      requires requests[..count] == was && Recent(was, now - window) == Recent(log, now - window)
      modifies this`count, requests
      ensures count <= maxRequests && requests[..count] == Slice(log, now, window, maxRequests)
      ensures ok <==> |Recent(log, now - window)| < maxRequests
    {
      Compact(now - window, was);
      ok := count < maxRequests;
      if ok {
        Append(now);
      }
    }
  }

  /** What one more call finds in the slice, and what it leaves there. */
  lemma {:induction false} NextCall(calls: seq<int>, now: int, window: int, max: nat)
    requires Sorted(calls) && (calls != [] ==> calls[|calls| - 1] <= now)
    ensures Sorted(calls + [now])
    ensures var log := Admissions(calls, window, max);
      && Recent(Stored(calls, window, max), now - window) == Recent(log, now - window)
      && Stored(calls + [now], window, max) == Slice(log, now, window, max)
      && (HasRoom(calls, window, max, now) <==> |Recent(log, now - window)| < max)
  {
    var log := Admissions(calls, window, max);
    assert Recent(Stored(calls, window, max), now - window) == Recent(log, now - window) by {
      StoredIsEnough(calls, window, max, now - window);
    }
    assert Sorted(calls + [now]) by { SortedSnoc(calls, now); }
    assert Stored(calls + [now], window, max) == Slice(log, now, window, max) by {
      StoredSnoc(calls, now, window, max);
    }
  }

  lemma {:induction false} SortedSnoc(calls: seq<int>, now: int)
    requires Sorted(calls) && (calls != [] ==> calls[|calls| - 1] <= now)
    ensures Sorted(calls + [now])
  {
  }
}
