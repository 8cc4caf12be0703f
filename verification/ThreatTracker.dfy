/** The brute-force tracker: it keeps the recent attempts of every source, raises an alarm when there
    are enough of them, and starts afresh for that source. */
module ThreatTrackers {
  import opened Common

  /** The attempts that lie in the window that ends at `now`. */
  function Within(times: seq<int>, now: int, window: int): seq<int> {
    if times == [] then []
    else
      Within(times[..|times| - 1], now, window)
      + (if now - times[|times| - 1] <= window then [times[|times| - 1]] else [])
  }

  // The simple specification for one source: remember every attempt since its last alarm.

  /** The next attempt, at `now`, makes an alarm: with it, `limit` unused attempts lie in the window. */
  predicate Rings(unused: seq<int>, now: int, limit: int, window: int) {
    |Within(unused, now, window)| + 1 >= limit
  }

  function Use(unused: seq<int>, now: int, limit: int, window: int): seq<int> {
    if Rings(unused, now, limit, window) then [] else unused + [now]
  }

  /** The attempts of a source that no alarm has used up yet. */
  function Unused(times: seq<int>, limit: int, window: int): seq<int> {
    if times == [] then []
    else Use(Unused(times[..|times| - 1], limit, window), times[|times| - 1], limit, window)
  }

  function Alarms(times: seq<int>, limit: int, window: int): nat {
    if times == [] then 0
    else
      var front := times[..|times| - 1];
      Alarms(front, limit, window)
      + if Rings(Unused(front, limit, window), times[|times| - 1], limit, window) then 1 else 0
  }

  // What the tracker keeps instead.

  function Keep(stored: seq<int>, now: int, limit: int, window: int): seq<int> {
    var valid := Within(stored, now, window) + [now];
    if |valid| >= limit then [] else valid
  }

  function Stored(times: seq<int>, limit: int, window: int): seq<int> {
    if times == [] then []
    else Keep(Stored(times[..|times| - 1], limit, window), times[|times| - 1], limit, window)
  }

  lemma {:induction false} WithinSnoc(times: seq<int>, t: int, now: int, window: int)
    ensures Within(times + [t], now, window) == Within(times, now, window) + if now - t <= window then [t] else []
  {
    assert (times + [t])[..|times|] == times;
  }

  lemma {:induction false} WithinAgain(times: seq<int>, now: int, later: int, window: int)
    requires now <= later
    ensures Within(Within(times, now, window), later, window) == Within(times, later, window)
  {
    if times != [] {
      var n := |times| - 1;
      WithinAgain(times[..n], now, later, window);
      if now - times[n] <= window {
        WithinSnoc(Within(times[..n], now, window), times[n], later, window);
      } else {
        assert Within(times, now, window) == Within(times[..n], now, window);
      }
    }
  }

  lemma {:induction false} WithinShrinks(times: seq<int>, now: int, window: int)
    ensures |Within(times, now, window)| <= |times|
  {
    if times != [] { WithinShrinks(times[..|times| - 1], now, window); }
  }

  lemma {:induction false} KeepIsEnough(stored: seq<int>, unused: seq<int>, now: int, limit: int, window: int,
                                        later: int)
    requires now <= later && Within(stored, now, window) == Within(unused, now, window)
    ensures Within(Keep(stored, now, limit, window), later, window)
            == Within(Use(unused, now, limit, window), later, window)
  {
    WithinAgain(unused, now, later, window);
    if !Rings(unused, now, limit, window) {
      WithinSnoc(Within(unused, now, window), now, later, window);
      WithinSnoc(unused, now, later, window);
    }
  }

  lemma {:induction false} SortedFront(times: seq<int>)
    requires Sorted(times) && times != []
    ensures Sorted(times[..|times| - 1])
    ensures |times| > 1 ==> times[|times| - 2] <= times[|times| - 1]
  {
  }

  /** Forgetting what falls out of the window changes no decision: from now on the stored attempts are as
      good as all unused ones. */
  lemma {:induction false} StoredIsEnough(times: seq<int>, limit: int, window: int, later: int)
    requires Sorted(times) && (times != [] ==> times[|times| - 1] <= later)
    ensures Within(Stored(times, limit, window), later, window) == Within(Unused(times, limit, window), later, window)
  {
    if times != [] {
      var front, now := times[..|times| - 1], times[|times| - 1];
      SortedFront(times);
      StoredIsEnough(front, limit, window, now);
      KeepIsEnough(Stored(front, limit, window), Unused(front, limit, window), now, limit, window, later);
    }
  }

  /** Between calls fewer than `limit` attempts are stored. */
  lemma {:induction false} StoredBelowLimit(times: seq<int>, limit: int, window: int)
    requires limit >= 1
    ensures |Stored(times, limit, window)| < limit
  {
  }

  /** An alarm fires exactly when `limit` unused attempts lie in the window, no more and no less. */
  lemma {:induction false} AlarmUsesExactlyLimit(times: seq<int>, now: int, limit: int, window: int)
    requires limit >= 1 && Sorted(times) && (times != [] ==> times[|times| - 1] <= now)
    ensures Rings(Unused(times, limit, window), now, limit, window) <==>
            |Within(Unused(times, limit, window), now, window)| + 1 == limit
  {
    StoredIsEnough(times, limit, window, now);
    StoredBelowLimit(times, limit, window);
    WithinShrinks(Stored(times, limit, window), now, window);
  }

  /** The `n`-th attempt of a source made an alarm. */
  predicate RangAt(times: seq<int>, n: nat, limit: int, window: int)
    requires n < |times|
  {
    Rings(Unused(times[..n], limit, window), times[n], limit, window)
  }

  /** The attempt before the `n`-th at position `i` counts for it: it is recent and made no alarm. */
  predicate CountsFor(times: seq<int>, i: nat, n: nat, limit: int, window: int)
    requires i < n < |times|
  {
    times[n] - times[i] <= window && !RangAt(times, i, limit, window)
  }

  /** Of the times exactly those from position `k` on lie in the window. */
  ghost predicate RecentFrom(times: seq<int>, k: nat, now: int, window: int) {
    && (forall i | 0 <= i < k && i < |times| :: now - times[i] > window)
    && (forall i | k <= i < |times| :: now - times[i] <= window)
  }

  lemma {:induction false} WithinIsSuffix(times: seq<int>, now: int, window: int) returns (k: nat)
    requires Sorted(times)
    ensures k <= |times| && |Within(times, now, window)| == |times| - k && RecentFrom(times, k, now, window)
  {
    if times == [] {
      k := 0;
    } else {
      var n := |times| - 1;
      k := WithinIsSuffix(times[..n], now, window);
      if now - times[n] > window { k := n + 1; }
    }
  }

  /** The unused attempts are those behind the last one that made an alarm. */
  lemma {:induction false} UnusedSinceAlarm(times: seq<int>, limit: int, window: int) returns (m: nat)
    ensures LastAlarm(times, |times|, m, limit, window) && Unused(times, limit, window) == times[m..]
  {
    m := 0;
    if times != [] {
      var n := |times| - 1;
      if RangAt(times, n, limit, window) {
        m := n + 1;
      } else {
        m := UnusedSinceAlarm(times[..n], limit, window);
        QuietFrom(times, n, m, limit, window);
        OneMoreUnused(times, n, m, limit, window);
      }
    }
  }

  lemma {:induction false} OneMoreUnused(times: seq<int>, n: nat, m: nat, limit: int, window: int)
    requires m <= n == |times| - 1 && Unused(times[..n], limit, window) == times[..n][m..]
    requires !RangAt(times, n, limit, window)
    ensures Unused(times, limit, window) == times[m..]
  {
    assert times[..n][m..] + [times[n]] == times[m..];
  }

  /** What the front of the times makes of its alarms, all of them do. */
  lemma {:induction false} RangInFront(times: seq<int>, n: nat, i: nat, limit: int, window: int)
    requires i < n <= |times|
    ensures RangAt(times[..n], i, limit, window) == RangAt(times, i, limit, window)
  {
    assert times[..n][..i] == times[..i];
  }

  /** The last alarm before position `n` is at `m - 1`, or there is none and `m` is 0. */
  ghost predicate LastAlarm(times: seq<int>, n: nat, m: nat, limit: int, window: int)
    requires n <= |times|
  {
    && m <= n && (m > 0 ==> RangAt(times, m - 1, limit, window))
    && forall i | m <= i < n :: !RangAt(times, i, limit, window)
  }

  lemma {:induction false} QuietFrom(times: seq<int>, n: nat, m: nat, limit: int, window: int)
    requires n <= |times| && LastAlarm(times[..n], n, m, limit, window)
    ensures LastAlarm(times, n, m, limit, window)
  {
    if m > 0 { RangInFront(times, n, m - 1, limit, window); }
    forall i | m <= i < n ensures !RangAt(times, i, limit, window) {
      RangInFront(times, n, i, limit, window);
    }
  }

  /** The rule, on the times alone: an attempt makes an alarm exactly if the `limit - 1` attempts before it are
      there, lie in its window and made no alarm themselves. */
  lemma {:induction false} AlarmsExactly(times: seq<int>, n: nat, limit: int, window: int)
    requires Sorted(times) && n < |times|
    ensures RangAt(times, n, limit, window) <==>
      n + 1 >= limit && forall i: nat | n + 1 - limit <= i < n :: CountsFor(times, i, n, limit, window)
  {
    var k := CountedFrom(times, n, limit, window);
    if k > 0 && n + 1 - k < limit <= n + 1 {
      assert !CountsFor(times, k - 1, n, limit, window);
    }
  }

  /** The attempts that count for the `n`-th are those from `k` on. */
  lemma {:induction false} CountedFrom(times: seq<int>, n: nat, limit: int, window: int) returns (k: nat)
    requires Sorted(times) && n < |times|
    ensures k <= n && (RangAt(times, n, limit, window) <==> n - k + 1 >= limit) && Counted(times, k, n, limit, window)
  {
    var m := UnusedSinceAlarm(times[..n], limit, window);
    QuietFrom(times, n, m, limit, window);
    assert times[..n][m..] == times[m..n];
    var d := WithinIsSuffix(times[m..n], times[n], window);
    k := m + d;
    CountsBehind(times, m, d, n, limit, window);
  }

  ghost predicate Counted(times: seq<int>, k: nat, n: nat, limit: int, window: int)
    requires k <= n < |times|
  {
    && (k > 0 ==> !CountsFor(times, k - 1, n, limit, window))
    && forall i | k <= i < n :: CountsFor(times, i, n, limit, window)
  }

  lemma {:induction false} CountsBehind(times: seq<int>, m: nat, d: nat, n: nat, limit: int, window: int)
    requires m + d <= n < |times| && LastAlarm(times, n, m, limit, window)
    requires RecentFrom(times[m..n], d, times[n], window)
    ensures Counted(times, m + d, n, limit, window)
  {
    var unused := times[m..n];
    if d > 0 {
      assert times[n] - unused[d - 1] > window && unused[d - 1] == times[m + d - 1];
    }
    forall i | m + d <= i < n ensures CountsFor(times, i, n, limit, window) {
      assert times[n] - unused[i - m] <= window && unused[i - m] == times[i];
    }
  }

  /** `limit` for every alarm. */
  ghost function Consumed(times: seq<int>, limit: int, window: int): int {
    if times == [] then 0
    else
      var front := times[..|times| - 1];
      Consumed(front, limit, window)
      + if Rings(Unused(front, limit, window), times[|times| - 1], limit, window) then limit else 0
  }

  lemma {:induction false} ConsumedIsProduct(times: seq<int>, limit: int, window: int)
    ensures Consumed(times, limit, window) == limit * Alarms(times, limit, window)
  {
    if times != [] {
      var front := times[..|times| - 1];
      ConsumedIsProduct(front, limit, window);
      var k, n := Alarms(front, limit, window), Alarms(times, limit, window);
      if Rings(Unused(front, limit, window), times[|times| - 1], limit, window) {
        assert n == k + 1;
        OneMore(limit, k);
      } else {
        assert n == k;
      }
    }
  }

  lemma {:induction false} OneMore(d: int, n: int)
    ensures d * (n + 1) == d * n + d
  {
  }

  lemma {:induction false} ConsumedIsBacked(times: seq<int>, limit: int, window: int)
    ensures Consumed(times, limit, window) + |Unused(times, limit, window)| <= |times|
  {
    if times != [] {
      var front, now := times[..|times| - 1], times[|times| - 1];
      ConsumedIsBacked(front, limit, window);
      WithinShrinks(Unused(front, limit, window), now, window);
    }
  }

  /** Over any run of a source, alarms times limit never exceed the attempts. */
  lemma {:induction false} AlarmsAreBacked(times: seq<int>, limit: int, window: int)
    ensures limit * Alarms(times, limit, window) <= |times|
  {
    ConsumedIsProduct(times, limit, window);
    ConsumedIsBacked(times, limit, window);
  }

  // The tracker itself.

  datatype Attempt = Attempt(source: string, at: int)

  /** The times at which `source` tried. */
  function Of(attempts: seq<Attempt>, source: string): seq<int> {
    if attempts == [] then []
    else
      var a := attempts[|attempts| - 1];
      Of(attempts[..|attempts| - 1], source) + (if a.source == source then [a.at] else [])
  }

  lemma {:induction false} OfSnoc(attempts: seq<Attempt>, a: Attempt, source: string)
    ensures Of(attempts + [a], source) == Of(attempts, source) + if a.source == source then [a.at] else []
  {
    assert (attempts + [a])[..|attempts|] == attempts;
  }

  lemma {:induction false} StoredSnoc(log: seq<Attempt>, a: Attempt, source: string, limit: int, window: int)
    ensures Stored(Of(log + [a], source), limit, window) ==
            var stored := Stored(Of(log, source), limit, window);
            if a.source == source then Keep(stored, a.at, limit, window) else stored
  {
    OfSnoc(log, a, source);
    assert Of(log, source) + [] == Of(log, source);
    if a.source == source {
      assert (Of(log, source) + [a.at])[..|Of(log, source)|] == Of(log, source);
    }
  }

  ghost predicate Chronological(attempts: seq<Attempt>) {
    forall i, j | 0 <= i <= j < |attempts| :: attempts[i].at <= attempts[j].at
  }

  ghost predicate Before(attempts: seq<Attempt>, clock: int) {
    forall i | 0 <= i < |attempts| :: attempts[i].at <= clock
  }

  lemma {:induction false} ChronologicalSnoc(attempts: seq<Attempt>, a: Attempt)
    requires Chronological(attempts) && Before(attempts, a.at)
    ensures Chronological(attempts + [a])
  {
  }

  lemma {:induction false} OfIsSorted(attempts: seq<Attempt>, source: string, clock: int)
    requires Chronological(attempts) && Before(attempts, clock)
    ensures Sorted(Of(attempts, source))
    ensures forall i | 0 <= i < |Of(attempts, source)| :: Of(attempts, source)[i] <= clock
  {
    if attempts != [] {
      OfIsSorted(attempts[..|attempts| - 1], source, attempts[|attempts| - 1].at);
    }
  }

  /** Whether each of the attempts, of whatever source, makes an alarm. */
  function Alarmed(attempts: seq<Attempt>, limit: int, window: int): seq<bool> {
    if attempts == [] then []
    else
      var front, a := attempts[..|attempts| - 1], attempts[|attempts| - 1];
      Alarmed(front, limit, window) + [RingsNext(front, a, limit, window)]
  }

  function Count(alarms: seq<bool>): nat {
    if alarms == [] then 0 else Count(alarms[..|alarms| - 1]) + if alarms[|alarms| - 1] then 1 else 0
  }

  function Drop(attempts: seq<Attempt>, a: Attempt, source: string): seq<Attempt> {
    if a.source == source then attempts else attempts + [a]
  }

  /** The attempts of all sources but one. */
  function Others(attempts: seq<Attempt>, source: string): seq<Attempt> {
    if attempts == [] then []
    else Drop(Others(attempts[..|attempts| - 1], source), attempts[|attempts| - 1], source)
  }

  /** The next attempt joins the spare ones, unless it makes an alarm and uses up those of its source. */
  function Spend(spare: seq<Attempt>, a: Attempt, rings: bool): seq<Attempt> {
    if rings then Others(spare, a.source) else spare + [a]
  }

  predicate RingsNext(attempts: seq<Attempt>, a: Attempt, limit: int, window: int) {
    Rings(Unused(Of(attempts, a.source), limit, window), a.at, limit, window)
  }

  /** The attempts of all sources that no alarm has used up yet. */
  function Spare(attempts: seq<Attempt>, limit: int, window: int): seq<Attempt> {
    if attempts == [] then []
    else
      var front, a := attempts[..|attempts| - 1], attempts[|attempts| - 1];
      Spend(Spare(front, limit, window), a, RingsNext(front, a, limit, window))
  }

  lemma {:induction false} OthersSplit(attempts: seq<Attempt>, source: string)
    ensures |Others(attempts, source)| + |Of(attempts, source)| == |attempts|
  {
    if attempts != [] { OthersSplit(attempts[..|attempts| - 1], source); }
  }

  lemma {:induction false} DropOf(attempts: seq<Attempt>, a: Attempt, source: string, s: string)
    ensures Of(Drop(attempts, a, source), s) ==
      if a.source == s != source then Of(attempts, s) + [a.at] else Of(attempts, s)
  {
    OfSnoc(attempts, a, s);
    assert Of(attempts, s) + [] == Of(attempts, s);
  }

  lemma {:induction false} OfLast(attempts: seq<Attempt>, s: string)
    requires attempts != []
    ensures var a := attempts[|attempts| - 1]; var front := attempts[..|attempts| - 1];
      Of(attempts, s) == if a.source == s then Of(front, s) + [a.at] else Of(front, s)
  {
  }

  lemma {:induction false} OthersOf(attempts: seq<Attempt>, source: string, s: string)
    ensures Of(Others(attempts, source), s) == if s == source then [] else Of(attempts, s)
  {
    if attempts != [] {
      var front, a := attempts[..|attempts| - 1], attempts[|attempts| - 1];
      OthersOf(front, source, s);
      DropOf(Others(front, source), a, source, s);
      OfLast(attempts, s);
    }
  }

  /** The spare attempts of a source are those its own history leaves unused. */
  lemma {:induction false} SpareOf(attempts: seq<Attempt>, source: string, limit: int, window: int)
    ensures Of(Spare(attempts, limit, window), source) == Unused(Of(attempts, source), limit, window)
  {
    if attempts != [] {
      var front, a := attempts[..|attempts| - 1], attempts[|attempts| - 1];
      SpareOf(front, source, limit, window);
      SpendOf(Spare(front, limit, window), a, RingsNext(front, a, limit, window), source);
      OfLast(attempts, source);
      UnusedSnoc(Of(front, source), a.at, limit, window);
    }
  }

  lemma {:induction false} SpendOf(spare: seq<Attempt>, a: Attempt, rings: bool, source: string)
    ensures Of(Spend(spare, a, rings), source) ==
      if a.source != source then Of(spare, source) else if rings then [] else Of(spare, source) + [a.at]
  {
    OthersOf(spare, a.source, source);
    OfSnoc(spare, a, source);
    assert Of(spare, source) + [] == Of(spare, source);
  }

  lemma {:induction false} UnusedSnoc(times: seq<int>, now: int, limit: int, window: int)
    ensures Unused(times + [now], limit, window) == Use(Unused(times, limit, window), now, limit, window)
  {
    assert (times + [now])[..|times|] == times;
  }

  /** `limit` for every alarm. */
  function Price(alarms: seq<bool>, limit: int): int {
    if alarms == [] then 0 else Price(alarms[..|alarms| - 1], limit) + if alarms[|alarms| - 1] then limit else 0
  }

  lemma {:induction false} PriceIsProduct(alarms: seq<bool>, limit: int)
    ensures Price(alarms, limit) == limit * Count(alarms)
  {
    if alarms != [] {
      var front := alarms[..|alarms| - 1];
      PriceIsProduct(front, limit);
      OneMore(limit, Count(front));
    }
  }

  lemma {:induction false} PriceSnoc(alarms: seq<bool>, alarm: bool, limit: int)
    ensures Price(alarms + [alarm], limit) == Price(alarms, limit) + if alarm then limit else 0
  {
    assert (alarms + [alarm])[..|alarms|] == alarms;
  }

  lemma {:induction false} AlarmsAndSpare(attempts: seq<Attempt>, limit: int, window: int)
    ensures Price(Alarmed(attempts, limit, window), limit) + |Spare(attempts, limit, window)| <= |attempts|
  {
    if attempts != [] {
      var front, a := attempts[..|attempts| - 1], attempts[|attempts| - 1];
      AlarmsAndSpare(front, limit, window);
      AttemptIsBacked(front, a, limit, window);
      PriceSnoc(Alarmed(front, limit, window), RingsNext(front, a, limit, window), limit);
    }
  }

  /** An alarm frees at least all but one of the attempts it counts. */
  lemma {:induction false} AttemptIsBacked(front: seq<Attempt>, a: Attempt, limit: int, window: int)
    ensures var spare := Spare(front, limit, window);
      RingsNext(front, a, limit, window) ==> |Others(spare, a.source)| + limit <= |spare| + 1
  {
    var spare := Spare(front, limit, window);
    SpareOf(front, a.source, limit, window);
    OthersSplit(spare, a.source);
    WithinShrinks(Unused(Of(front, a.source), limit, window), a.at, window);
  }

  /** Over any run, for all sources together, alarms times limit never exceed the attempts. */
  lemma {:induction false} AllAlarmsAreBacked(attempts: seq<Attempt>, limit: int, window: int)
    ensures limit * Count(Alarmed(attempts, limit, window)) <= |attempts|
  {
    AlarmsAndSpare(attempts, limit, window);
    PriceIsProduct(Alarmed(attempts, limit, window), limit);
  }

  lemma {:induction false} AlarmedSnoc(attempts: seq<Attempt>, a: Attempt, limit: int, window: int)
    ensures Alarmed(attempts + [a], limit, window) == Alarmed(attempts, limit, window)
      + [RingsNext(attempts, a, limit, window)]
  {
    assert (attempts + [a])[..|attempts|] == attempts;
  }

  lemma {:induction false} EarlierInRun(run: seq<Attempt>, i: nat)
    requires Chronological(run) && i < |run|
    ensures Before(run[..i], run[i].at) && run[..i + 1] == run[..i] + [Attempt(run[i].source, run[i].at)]
  {
  }

  class ThreatTracker {
    var attempts: map<string, seq<int>>
    const limit: int
    const window: int
    ghost var log: seq<Attempt>   // every attempt there ever was

    function Entry(source: string): seq<int>
      reads this
    {
      if source in attempts then attempts[source] else []
    }

    ghost predicate EntryOk(source: string)
      reads this
    {
      Entry(source) == Stored(Of(log, source), limit, window)
    }

    ghost predicate Valid()
      reads this
    {
      Chronological(log) && forall source :: EntryOk(source)
    }

    constructor (limit: int, window: int)
      ensures Valid() && log == [] && this.limit == limit && this.window == window
    {
      this.limit, this.window := limit, window;
      attempts, log := map[], [];
    }

    /** An attempt under a clock that does not run backwards. The answer depends on this source's own
        attempts alone, and no other source's entry changes. */
    method AddAttempt(source: string, now: int) returns (alarm: bool)
      requires Valid() && Before(log, now)
      modifies this
      ensures Valid() && log == old(log) + [Attempt(source, now)]
      ensures alarm <==> Rings(Unused(Of(old(log), source), limit, window), now, limit, window)
      ensures forall other | other != source :: Entry(other) == old(Entry(other))
    {
      OfIsSorted(log, source, now);
      StoredIsEnough(Of(log, source), limit, window, now);
      assert EntryOk(source);
      alarm := CountAttempt(source, now);
      ghost var was, a := log, Attempt(source, now);
      ChronologicalSnoc(was, a);
      log := log + [a];
      forall s ensures EntryOk(s) {
        assert old(EntryOk(s));
        StoredSnoc(was, a, s, limit, window);
      }
    }

    /** A whole life of the tracker: the alarms are those of the specification, and backed by attempts. */
    method AddAll(run: seq<Attempt>) returns (alarms: seq<bool>)
      requires Valid() && log == [] && Chronological(run)
      modifies this
      ensures Valid() && log == run
      ensures alarms == Alarmed(run, limit, window)
      ensures limit * Count(alarms) <= |run|
    {
      alarms := [];
      for i := 0 to |run|
        invariant Valid() && log == run[..i]
        invariant alarms == Alarmed(run[..i], limit, window)
      {
        EarlierInRun(run, i);
        AlarmedSnoc(run[..i], run[i], limit, window);
        var alarm := AddAttempt(run[i].source, run[i].at);
        alarms := alarms + [alarm];
      }
      assert run[..|run|] == run;
      AllAlarmsAreBacked(run, limit, window);
    }

    /** The table's part of an attempt. */
    method CountAttempt(source: string, now: int) returns (alarm: bool)
      modifies this`attempts
      ensures alarm <==> Rings(old(Entry(source)), now, limit, window)
      ensures Entry(source) == Keep(old(Entry(source)), now, limit, window)
      ensures forall other | other != source :: Entry(other) == old(Entry(other))
    {
      var validTimes := FilterValid(Entry(source), now);
      validTimes := validTimes + [now];
      attempts := attempts[source := validTimes];
      alarm := |validTimes| >= limit;
      if alarm {
        attempts := attempts - {source};
      }
    }

    method FilterValid(times: seq<int>, now: int) returns (valid: seq<int>)
      ensures valid == Within(times, now, window)
    {
      valid := [];
      for i := 0 to |times|
        invariant valid == Within(times[..i], now, window)
      {
        assert times[..i + 1][..i] == times[..i];
        if now - times[i] <= window {
          valid := valid + [times[i]];
        }
      }
      assert times[..|times|] == times;
    }
  }
}
