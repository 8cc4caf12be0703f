/** How often the heartbeat launches a recurring task, over every run of the scheduler, and exactly for
    which intervals that is no more often than the interval says. */
module LaunchBounds {
  import opened Common
  import opened Scheduler

  /** The longest interval, in minutes, whose nanoseconds fit an int64. */
  const MAX_EXACT_INTERVAL: int := 153_722_867

  /** The k-th launch of `id` comes no earlier than k intervals after its creation. */
  ghost predicate Paced(s: State, id: nat)
    requires id in s.births
  {
    var born := s.births[id];
    forall k | 0 <= k < |Times(s.launches, id)| ::
      Times(s.launches, id)[k] >= born.createdAt + 60 * born.interval * (k + 1)
  }

  predicate Exact(interval: int) { 1 <= interval <= MAX_EXACT_INTERVAL }

  /** As `Paced`, and the row's `last_run` has moved on by one interval per launch. */
  ghost predicate PaceOk(s: State, id: nat)
    requires id in s.births
  {
    && Paced(s, id)
    && (id in s.table ==>
          s.table[id].lastRun >= s.births[id].createdAt + 60 * s.births[id].interval * |Times(s.launches, id)|)
  }

  ghost predicate LaunchesOk(s: State) {
    forall i | 0 <= i < |s.launches| :: s.launches[i].id in s.births && s.launches[i].at <= s.now
  }

  ghost predicate PacesOk(s: State) {
    s.layoutOk && LaunchesOk(s) && forall id | id in s.births && Exact(s.births[id].interval) :: PaceOk(s, id)
  }

  lemma {:induction false} TimesOf(launches: seq<Launch>, id: nat)
    ensures forall k | 0 <= k < |Times(launches, id)| ::
              exists i | 0 <= i < |launches| :: launches[i] == Launch(id, Times(launches, id)[k])
  {
    if launches != [] {
      var front := launches[..|launches| - 1];
      TimesOf(front, id);
      forall k | 0 <= k < |Times(launches, id)|
        ensures exists i | 0 <= i < |launches| :: launches[i] == Launch(id, Times(launches, id)[k])
      {
        if k < |Times(front, id)| {
          var i :| 0 <= i < |front| && front[i] == Launch(id, Times(front, id)[k]);
          assert launches[i] == front[i];
        } else {
          assert launches[|launches| - 1] == Launch(id, Times(launches, id)[k]);
        }
      }
    } else {
      assert Times(launches, id) == [];
    }
  }

  lemma {:induction false} UnbornHasNoTimes(s: State, id: nat)
    requires LaunchesOk(s) && id !in s.births
    ensures Times(s.launches, id) == []
  {
    TimesOf(s.launches, id);
    if Times(s.launches, id) != [] {
      var i :| 0 <= i < |s.launches| && s.launches[i] == Launch(id, Times(s.launches, id)[0]);
    }
  }

  /** For an interval in range, due means that a whole interval has passed. */
  lemma {:induction false} DueMeansElapsed(now: int, row: Row)
    requires Exact(row.interval)
    ensures Due(true, now, row) <==> now - row.lastRun >= 60 * row.interval
  {
    var n := row.interval * NANOS_PER_MINUTE;
    assert 0 <= n < TWO63;
    assert Wrap64(n) == n;
  }

  lemma {:induction false} LaunchKeepsPaces(s: State, id: nat)
    requires TableOk(s) && PacesOk(s)
    ensures PacesOk(LaunchIfDue(s, id))
  {
    var t := LaunchIfDue(s, id);
    if t != s {
      assert RowOk(s, id);
      forall i | i in t.births && Exact(t.births[i].interval) ensures PaceOk(t, i) {
        assert PaceOk(s, i);
        TimesSnoc(s.launches, Launch(id, s.now), i);
        if i == id {
          DueMeansElapsed(s.now, s.table[id]);
          LaunchPaces(s, t, id);
        }
      }
    }
  }

  lemma {:induction false} LaunchPaces(s: State, t: State, id: nat)
    requires id in s.births && id in s.table && PaceOk(s, id)
    requires t.births == s.births && id in t.table && t.table[id].lastRun == s.now
    requires Times(t.launches, id) == Times(s.launches, id) + [s.now]
    requires s.now >= s.table[id].lastRun + 60 * s.births[id].interval
    ensures PaceOk(t, id)
  {
    var m, n := s.births[id].interval, |Times(s.launches, id)|;
    assert 60 * m * (n + 1) == 60 * m * n + 60 * m;
  }

  lemma {:induction false} LaunchAllKeepsPaces(s: State, order: seq<nat>)
    requires TableOk(s) && PacesOk(s)
    ensures PacesOk(LaunchAll(s, order))
    decreases order
  {
    if order != [] {
      LaunchKeepsTable(s, order[0]);
      LaunchKeepsPaces(s, order[0]);
      LaunchAllKeepsPaces(LaunchIfDue(s, order[0]), order[1..]);
    }
  }

  lemma {:induction false} StepKeepsPaces(s: State, a: Step)
    requires TableOk(s) && PacesOk(s) && Enabled(s, a)
    ensures PacesOk(Apply(s, a))
  {
    if a.Pulse? {
      LaunchAllKeepsPaces(s, a.order);
    } else {
      var t := Apply(s, a);
      StepFrame(s, a);
      forall id | id in t.births && Exact(t.births[id].interval) ensures PaceOk(t, id) {
        if id in s.births {
          assert PaceOk(s, id);
        } else {
          UnbornHasNoTimes(s, id);
        }
      }
    }
  }

  /** Outside a pulse nothing is launched, no birth is rewritten and no row's `last_run` moves. */
  lemma {:induction false} StepFrame(s: State, a: Step)
    requires TableOk(s) && Enabled(s, a) && !a.Pulse?
    ensures var t := Apply(s, a);
      && t.launches == s.launches && t.now >= s.now && t.layoutOk == s.layoutOk
      && (forall id | id in s.births :: id in t.births && t.births[id] == s.births[id])
      && (forall id | id in s.births && id in t.table :: id in s.table && t.table[id].lastRun == s.table[id].lastRun)
      && (forall id | id in t.births && id !in s.births ::
            id in t.table ==> t.table[id].lastRun == t.births[id].createdAt)
  {
    LogFrame(s, a);
    RowFrame(s, a);
  }

  lemma {:induction false} LogFrame(s: State, a: Step)
    requires Enabled(s, a) && !a.Pulse?
    ensures var t := Apply(s, a); t.launches == s.launches && t.now >= s.now && t.layoutOk == s.layoutOk
  {
  }

  lemma {:induction false} RowFrame(s: State, a: Step)
    requires TableOk(s) && Enabled(s, a) && !a.Pulse?
    ensures var t := Apply(s, a);
      && (forall id | id in s.births :: id in t.births && t.births[id] == s.births[id])
      && (forall id | id in s.births && id in t.table :: id in s.table && t.table[id].lastRun == s.table[id].lastRun)
      && (forall id | id in t.births && id !in s.births ::
            id in t.table ==> t.table[id].lastRun == t.births[id].createdAt)
  {
  }

  lemma {:induction false} AfterKeepsPaces(s: State, schedule: seq<Step>)
    requires TableOk(s) && RunnersOk(s) && PacesOk(s)
    ensures PacesOk(After(s, schedule))
    decreases schedule
  {
    if schedule != [] {
      if Enabled(s, schedule[0]) {
        StepKeepsInv(s, schedule[0]);
        StepKeepsPaces(s, schedule[0]);
        AfterKeepsPaces(Apply(s, schedule[0]), schedule[1..]);
      } else {
        AfterKeepsPaces(s, schedule[1..]);
      }
    }
  }

  /** In every run, no task of that interval is ever launched ahead of its pace. */
  ghost predicate KeepsPace(layoutOk: bool, interval: int) {
    forall start: int, schedule: seq<Step>, id: nat ::
      RunIsPaced(After(Init(layoutOk, start), schedule), id, interval)
  }

  ghost predicate RunIsPaced(s: State, id: nat, interval: int) {
    id in s.births && s.births[id].interval == interval ==> Paced(s, id)
  }

  /** Create a task at time 0, wait, pulse. */
  function EarlyRun(interval: int, wait: nat): seq<Step> {
    [Create("task", "prompt", UserTask, 0, interval), Tick(wait), Pulse([0])]
  }

  lemma {:induction false} AfterThree(s: State, a: Step, b: Step, c: Step)
    requires Enabled(s, a) && Enabled(Apply(s, a), b) && Enabled(Apply(Apply(s, a), b), c)
    ensures After(s, [a, b, c]) == Apply(Apply(Apply(s, a), b), c)
  {
    assert [a, b, c][1..] == [b, c] && [b, c][1..] == [c] && [c][1..] == [];
    assert After(Apply(Apply(s, a), b), [c]) == Apply(Apply(Apply(s, a), b), c);
    assert After(Apply(s, a), [b, c]) == After(Apply(Apply(s, a), b), [c]);
  }

  /** A first launch that comes too early. */
  lemma {:induction false} EarlyLaunch(layoutOk: bool, interval: int, wait: nat)
    requires interval != 0
    requires Clamp64((wait - (if layoutOk then 0 else ZERO_TIME)) * NANOS_PER_SECOND)
             >= Wrap64(interval * NANOS_PER_MINUTE)
    requires wait < 60 * interval
    ensures !KeepsPace(layoutOk, interval)
  {
    var run := EarlyRun(interval, wait);
    var s2 := EarlyState(layoutOk, interval, wait);
    var row := NewRow(UserTask, 0, interval, 0);
    assert Due(layoutOk, wait, row);
    var s3 := LaunchIfDue(s2, 0);
    assert Apply(s2, run[2]) == s3 by {
      assert [0][1..] == [];
      assert LaunchAll(s2, [0]) == LaunchAll(s3, []);
    }
    AfterThree(Init(layoutOk, 0), run[0], run[1], run[2]);
    assert After(Init(layoutOk, 0), run) == s3;
    EarlyTimes(s3, interval, wait);
  }

  lemma {:induction false} EarlyState(layoutOk: bool, interval: int, wait: nat) returns (s: State)
    ensures var run := EarlyRun(interval, wait); var row := NewRow(UserTask, 0, interval, 0);
      && s == Apply(Apply(Init(layoutOk, 0), run[0]), run[1])
      && s.table == map[0 := row] && s.births == map[0 := row] && s.now == wait && s.layoutOk == layoutOk
      && s.launches == [] && s.running == {} && Enabled(s, run[2])
  {
    var run := EarlyRun(interval, wait);
    s := Apply(Apply(Init(layoutOk, 0), run[0]), run[1]);
  }

  lemma {:induction false} EarlyTimes(s: State, interval: int, wait: nat)
    requires 0 in s.births && s.births[0] == NewRow(UserTask, 0, interval, 0) && wait < 60 * interval
    requires s.launches == [Launch(0, wait)]
    ensures !RunIsPaced(s, 0, interval)
  {
    TimesSnoc([], Launch(0, wait), 0);
    assert s.launches == [] + [Launch(0, wait)];
    assert Times(s.launches, 0)[0] == wait;
  }

  /** The exact condition: a recurring task keeps its pace in every run if and only if the driver yields
      the layout the pulse parses and the interval in nanoseconds fits an int64. */
  lemma {:induction false} KeepsPaceExactly(layoutOk: bool, interval: int)
    requires interval >= 1
    ensures KeepsPace(layoutOk, interval) <==> layoutOk && interval <= MAX_EXACT_INTERVAL
  {
    if !layoutOk {
      EarlyLaunch(false, interval, 0);
    } else if interval > MAX_EXACT_INTERVAL {
      EarlyLaunch(true, interval, 9_223_372_037);
    } else {
      forall start: int, schedule: seq<Step>, id: nat
        ensures RunIsPaced(After(Init(true, start), schedule), id, interval)
      {
        AfterKeepsPaces(Init(true, start), schedule);
        var s := After(Init(true, start), schedule);
        if id in s.births && s.births[id].interval == interval {
          assert PaceOk(s, id);
        }
      }
    }
  }

  /** By any time T such a task has been launched at most (T - created) / interval times. */
  lemma {:induction false} LaunchCountBound(start: int, schedule: seq<Step>, id: nat)
    requires var s := After(Init(true, start), schedule);
             id in s.births && Exact(s.births[id].interval)
    ensures var s := After(Init(true, start), schedule);
            |Times(s.launches, id)| <= (s.now - s.births[id].createdAt) / (60 * s.births[id].interval)
  {
    AfterKeepsPaces(Init(true, start), schedule);
    AfterKeepsInv(Init(true, start), schedule);
    var s := After(Init(true, start), schedule);
    assert PaceOk(s, id);
    var n := |Times(s.launches, id)|;
    if n > 0 {
      TimesOf(s.launches, id);
      var i :| 0 <= i < |s.launches| && s.launches[i] == Launch(id, Times(s.launches, id)[n - 1]);
      assert s.launches[i].at <= s.now;
    }
    AtMostQuotient(n, 60 * s.births[id].interval, s.now - s.births[id].createdAt);
  }

  lemma {:induction false} AtMostQuotient(n: nat, d: int, x: int)
    requires d > 0 && n * d <= x
    ensures n <= x / d
  {
    var q := x / d;
    assert n * d < (q + 1) * d;
  }

  // The real pace, whatever the interval: int64 nanoseconds that may have wrapped.

  /** The interval as the pulse computes it. */
  function Wrapped(interval: int): int { Wrap64(interval * NANOS_PER_MINUTE) }

  /** The launch before launch `k`, or the creation. */
  function Previous(times: seq<int>, createdAt: int, k: nat): int
    requires k <= |times|
  {
    if k == 0 then createdAt else times[k - 1]
  }

  /** Launch `k` came no sooner after the one before than the wrapped interval. */
  ghost predicate GapAt(times: seq<int>, born: Row, k: nat)
    requires k < |times|
  {
    (times[k] - Previous(times, born.createdAt, k)) * NANOS_PER_SECOND >= Wrapped(born.interval)
  }

  ghost predicate GapOk(s: State, id: nat)
    requires id in s.births
  {
    var times, born := Times(s.launches, id), s.births[id];
    && (forall k | 0 <= k < |times| :: GapAt(times, born, k))
    && (id in s.table ==> s.table[id].lastRun == Previous(times, born.createdAt, |times|))
  }

  ghost predicate GapsOk(s: State) {
    s.layoutOk && LaunchesOk(s) && forall id | id in s.births && s.births[id].interval != 0 :: GapOk(s, id)
  }

  /** A recurring row is due exactly when the wrapped interval has passed, as the clock does not run back. */
  lemma {:induction false} DueMeansWrapped(now: int, row: Row)
    requires row.interval != 0 && row.lastRun <= now
    ensures Due(true, now, row) <==> (now - row.lastRun) * NANOS_PER_SECOND >= Wrapped(row.interval)
  {
    WrapInRange(row.interval * NANOS_PER_MINUTE);
    ClampKeepsOrder((now - row.lastRun) * NANOS_PER_SECOND, Wrapped(row.interval));
  }

  lemma {:induction false} WrapInRange(x: int)
    ensures -TWO63 <= Wrap64(x) < TWO63
  {
  }

  lemma {:induction false} ClampKeepsOrder(x: int, w: int)
    requires x >= 0 && -TWO63 <= w < TWO63
    ensures Clamp64(x) >= w <==> x >= w
  {
  }

  lemma {:induction false} GapSnoc(times: seq<int>, born: Row, now: int)
    requires forall k | 0 <= k < |times| :: GapAt(times, born, k)
    requires (now - Previous(times, born.createdAt, |times|)) * NANOS_PER_SECOND >= Wrapped(born.interval)
    ensures forall k | 0 <= k <= |times| :: GapAt(times + [now], born, k)
  {
    var more := times + [now];
    forall k | 0 <= k <= |times| ensures GapAt(more, born, k) {
      assert k < |times| ==> GapAt(times, born, k);
      assert Previous(more, born.createdAt, k) == Previous(times, born.createdAt, k);
    }
  }

  lemma {:induction false} LaunchKeepsGaps(s: State, id: nat)
    requires TableOk(s) && GapsOk(s)
    ensures GapsOk(LaunchIfDue(s, id))
  {
    var t := LaunchIfDue(s, id);
    if t != s {
      assert RowOk(s, id);
      forall i | i in t.births && t.births[i].interval != 0 ensures GapOk(t, i) {
        assert GapOk(s, i);
        TimesSnoc(s.launches, Launch(id, s.now), i);
        if i == id {
          DueMeansWrapped(s.now, s.table[id]);
          GapSnoc(Times(s.launches, id), s.births[id], s.now);
        } else {
          assert Times(s.launches, i) + [] == Times(s.launches, i);
        }
      }
    }
  }

  lemma {:induction false} LaunchAllKeepsGaps(s: State, order: seq<nat>)
    requires TableOk(s) && GapsOk(s)
    ensures GapsOk(LaunchAll(s, order))
    decreases order
  {
    if order != [] {
      LaunchKeepsTable(s, order[0]);
      LaunchKeepsGaps(s, order[0]);
      LaunchAllKeepsGaps(LaunchIfDue(s, order[0]), order[1..]);
    }
  }

  lemma {:induction false} StepKeepsGaps(s: State, a: Step)
    requires TableOk(s) && GapsOk(s) && Enabled(s, a)
    ensures GapsOk(Apply(s, a))
  {
    if a.Pulse? {
      LaunchAllKeepsGaps(s, a.order);
    } else {
      var t := Apply(s, a);
      StepFrame(s, a);
      forall id | id in t.births && t.births[id].interval != 0 ensures GapOk(t, id) {
        if id in s.births {
          assert GapOk(s, id);
        } else {
          UnbornHasNoTimes(s, id);
        }
      }
    }
  }

  lemma {:induction false} AfterKeepsGaps(s: State, schedule: seq<Step>)
    requires TableOk(s) && RunnersOk(s) && GapsOk(s)
    ensures GapsOk(After(s, schedule))
    decreases schedule
  {
    if schedule != [] {
      if Enabled(s, schedule[0]) {
        StepKeepsInv(s, schedule[0]);
        StepKeepsGaps(s, schedule[0]);
        AfterKeepsGaps(Apply(s, schedule[0]), schedule[1..]);
      } else {
        AfterKeepsGaps(s, schedule[1..]);
      }
    }
  }

  /** In every run with a parsed layout, two launches of a recurring task are at least its wrapped interval
      apart, and the first is so far from its creation. */
  lemma {:induction false} LaunchesAreApart(start: int, schedule: seq<Step>, id: nat, k: nat)
    requires var s := After(Init(true, start), schedule);
      id in s.births && s.births[id].interval != 0 && k < |Times(s.launches, id)|
    ensures var s := After(Init(true, start), schedule); GapAt(Times(s.launches, id), s.births[id], k)
  {
    AfterKeepsGaps(Init(true, start), schedule);
    assert GapOk(After(Init(true, start), schedule), id);
  }

  // When a pulse launches.

  lemma {:induction false} LaunchAllLaunches(s: State, order: seq<nat>, id: nat)
    requires NoDuplicates(order) && id in order && id in s.table && id !in s.running
    ensures Times(LaunchAll(s, order).launches, id) == Times(s.launches, id) + Launched(s, id)
    decreases order
  {
    if order[0] == id {
      FirstLaunches(s, order, id);
    } else {
      OtherLaunches(s, order[0], id);
      LaunchAllLaunches(LaunchIfDue(s, order[0]), order[1..], id);
    }
  }

  /** The launch a pulse gives an idle row. */
  function Launched(s: State, id: nat): seq<int>
    requires id in s.table
  {
    if Due(s.layoutOk, s.now, s.table[id]) then [s.now] else []
  }

  lemma {:induction false} FirstLaunches(s: State, order: seq<nat>, id: nat)
    requires NoDuplicates(order) && order != [] && order[0] == id && id in s.table && id !in s.running
    ensures Times(LaunchAll(s, order).launches, id) == Times(s.launches, id) + Launched(s, id)
  {
    TimesSnoc(s.launches, Launch(id, s.now), id);
    NotListedNotLaunched(LaunchIfDue(s, id), order[1..], id);
  }

  lemma {:induction false} OtherLaunches(s: State, other: nat, id: nat)
    requires other != id && id in s.table && id !in s.running
    ensures var t := LaunchIfDue(s, other);
      && id in t.table && id !in t.running && Launched(t, id) == Launched(s, id)
      && Times(t.launches, id) == Times(s.launches, id)
  {
    TimesSnoc(s.launches, Launch(other, s.now), id);
  }

  lemma {:induction false} NotListedNotLaunched(s: State, order: seq<nat>, id: nat)
    requires id !in order
    ensures Times(LaunchAll(s, order).launches, id) == Times(s.launches, id)
    decreases order
  {
    if order != [] {
      TimesSnoc(s.launches, Launch(order[0], s.now), id);
      NotListedNotLaunched(LaunchIfDue(s, order[0]), order[1..], id);
    }
  }

  /** With a parsed layout, a pulse launches a selected recurring row that is not running exactly when its
      wrapped interval has passed. */
  lemma {:induction false} PulseLaunchesWhenApart(s: State, order: seq<nat>, id: nat)
    requires TableOk(s) && s.layoutOk && Enabled(s, Pulse(order)) && id in order && id !in s.running
    requires s.table[id].interval != 0
    ensures Times(Apply(s, Pulse(order)).launches, id) == Times(s.launches, id)
      + if (s.now - s.table[id].lastRun) * NANOS_PER_SECOND >= Wrapped(s.table[id].interval) then [s.now] else []
  {
    assert RowOk(s, id);
    DueMeansWrapped(s.now, s.table[id]);
    LaunchAllLaunches(s, order, id);
  }

  /** One minute past the limit the wrapped interval is negative: such a task is launched by every pulse that
      finds it idle. */
  lemma {:induction false} OneMinuteTooLong(s: State, order: seq<nat>, id: nat)
    requires TableOk(s) && s.layoutOk && Enabled(s, Pulse(order)) && id in order && id !in s.running
    requires s.table[id].interval == MAX_EXACT_INTERVAL + 1
    ensures Times(Apply(s, Pulse(order)).launches, id) == Times(s.launches, id) + [s.now]
  {
    assert RowOk(s, id);
    assert Wrapped(MAX_EXACT_INTERVAL + 1) < 0;
    PulseLaunchesWhenApart(s, order, id);
  }

  // The other case: the driver hands `last_run` back in a layout the pulse does not parse.

  /** Any recurring row whose interval is in range is due once that interval has passed since the year 1. */
  lemma {:induction false} UnparsedIsDue(now: int, row: Row)
    requires Exact(row.interval)
    ensures Due(false, now, row) <==> now - ZERO_TIME >= 60 * row.interval
  {
    var n := row.interval * NANOS_PER_MINUTE;
    assert 0 <= n < TWO63;
    assert Wrap64(n) == n;
  }

  /** Then every pulse launches each recurring row that it selects and that is not running, whenever it last
      ran. */
  lemma {:induction false} UnparsedLaunchesAlways(s: State, order: seq<nat>, id: nat)
    requires !s.layoutOk && Enabled(s, Pulse(order)) && id in order && id !in s.running
    requires Exact(s.table[id].interval) && s.now - ZERO_TIME >= 60 * s.table[id].interval
    ensures Times(Apply(s, Pulse(order)).launches, id) == Times(s.launches, id) + [s.now]
  {
    UnparsedIsDue(s.now, s.table[id]);
    LaunchAllLaunches(s, order, id);
  }
}
