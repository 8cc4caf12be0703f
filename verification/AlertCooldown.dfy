/** Alert cooldowns: the tracker remembers when each alert key was last let through, and an hourly
    cleanup evicts old entries. Times are clock readings in nanoseconds. */
module AlertCooldown {

  const MINUTE: int := 60_000_000_000
  const HOUR: int := 60 * MINUTE

  type Tracker = map<string, int>

  function Cooldown(priority: string): int {
    if priority == "critical" then MINUTE
    else if priority == "warning" then 5 * MINUTE
    else 10 * MINUTE
  }

  /** The decision about an alert, given when its key was last let through. */
  predicate Accepts(tracker: Tracker, key: string, priority: string, now: int) {
    key !in tracker || now - tracker[key] >= Cooldown(priority)
  }

  function Evict(tracker: Tracker, now: int): Tracker {
    map key | key in tracker && now - tracker[key] <= HOUR :: tracker[key]
  }

  /** One locked operation on the tracker. An alert reads the clock twice: to decide and to stamp. */
  datatype Op = Alert(key: string, priority: string, now: int, stamp: int) | Cleanup(now: int)
  {
    function End(): int { if Alert? then stamp else now }
  }

  /** The clock of a run starting at `clock` never goes backwards. */
  predicate Monotone(ops: seq<Op>, clock: int)
    decreases ops
  {
    ops == []
    || (clock <= ops[0].now <= ops[0].End() && Monotone(ops[1..], ops[0].End()))
  }

  function Step(tracker: Tracker, op: Op): Tracker {
    match op
    case Alert(key, priority, now, stamp) =>
      if Accepts(tracker, key, priority, now) then tracker[key := stamp] else tracker
    case Cleanup(now) => Evict(tracker, now)
  }

  /** The specification: the same tracker, but cleanups do nothing. */
  function StepForever(tracker: Tracker, op: Op): Tracker {
    if op.Cleanup? then tracker else Step(tracker, op)
  }

  predicate Decision(tracker: Tracker, op: Op) {
    op.Alert? && Accepts(tracker, op.key, op.priority, op.now)
  }

  function Decisions(tracker: Tracker, ops: seq<Op>): (r: seq<bool>)
    ensures |r| == |ops|
    decreases ops
  {
    if ops == [] then [] else [Decision(tracker, ops[0])] + Decisions(Step(tracker, ops[0]), ops[1..])
  }

  function DecisionsForever(tracker: Tracker, ops: seq<Op>): (r: seq<bool>)
    ensures |r| == |ops|
    decreases ops
  {
    if ops == [] then []
    else [Decision(tracker, ops[0])] + DecisionsForever(StepForever(tracker, ops[0]), ops[1..])
  }

  /** `small` is `full` less some entries that are over an hour old at `clock`. */
  ghost predicate Evicted(small: Tracker, full: Tracker, clock: int) {
    && (forall k | k in small :: k in full && small[k] == full[k])
    && (forall k | k in full :: full[k] <= clock && (k in small || clock - full[k] > HOUR))
  }

  lemma {:induction false} StepKeepsEvicted(small: Tracker, full: Tracker, clock: int, op: Op)
    requires Evicted(small, full, clock) && clock <= op.now <= op.End()
    ensures Decision(small, op) == Decision(full, op)
    ensures Evicted(Step(small, op), StepForever(full, op), op.End())
  {
  }

  lemma {:induction false} DecisionsAgree(small: Tracker, full: Tracker, clock: int, ops: seq<Op>)
    requires Evicted(small, full, clock) && Monotone(ops, clock)
    ensures Decisions(small, ops) == DecisionsForever(full, ops)
    decreases ops
  {
    if ops != [] {
      StepKeepsEvicted(small, full, clock, ops[0]);
      DecisionsAgree(Step(small, ops[0]), StepForever(full, ops[0]), ops[0].End(), ops[1..]);
    }
  }

  /** Eviction is invisible: whatever alerts and cleanups come in whatever order, every decision is that
      of a tracker that never forgets. */
  lemma {:induction false} EvictionIsInvisible(ops: seq<Op>, clock: int)
    requires Monotone(ops, clock)
    ensures Decisions(map[], ops) == DecisionsForever(map[], ops)
  {
    DecisionsAgree(map[], map[], clock, ops);
  }

  /** Once `key` is stamped, the next time it is let through a whole cooldown has passed. */
  lemma {:induction false} SpacedFromStamp(full: Tracker, clock: int, ops: seq<Op>, key: string, stamp: int, j: nat)
    requires Monotone(ops, clock) && key in full && stamp <= full[key] <= clock
    requires j < |ops|
    requires DecisionsForever(full, ops)[j] && ops[j].Alert? && ops[j].key == key
    ensures ops[j].now - stamp >= Cooldown(ops[j].priority)
    decreases ops
  {
    if j > 0 {
      var next := StepForever(full, ops[0]);
      assert DecisionsForever(next, ops[1..])[j - 1];
      SpacedFromStamp(next, ops[0].End(), ops[1..], key, stamp, j - 1);
    }
  }

  lemma {:induction false} SpacedForever(full: Tracker, clock: int, ops: seq<Op>, i: nat, j: nat)
    requires Monotone(ops, clock) && i < j < |ops|
    requires DecisionsForever(full, ops)[i] && DecisionsForever(full, ops)[j]
    requires ops[i].Alert? && ops[j].Alert? && ops[i].key == ops[j].key
    ensures ops[j].now - ops[i].stamp >= Cooldown(ops[j].priority)
    decreases ops
  {
    var next := StepForever(full, ops[0]);
    assert DecisionsForever(next, ops[1..])[j - 1];
    if i == 0 {
      SpacedFromStamp(next, ops[0].End(), ops[1..], ops[0].key, ops[0].stamp, j - 1);
    } else {
      assert DecisionsForever(next, ops[1..])[i - 1];
      SpacedForever(next, ops[0].End(), ops[1..], i - 1, j - 1);
    }
  }

  /** Two accepted alerts of one key are at least the later one's cooldown apart, evictions or not. */
  lemma {:induction false} AcceptedAlertsAreSpaced(ops: seq<Op>, clock: int, i: nat, j: nat)
    requires Monotone(ops, clock) && i < j < |ops|
    requires Decisions(map[], ops)[i] && Decisions(map[], ops)[j]
    requires ops[i].Alert? && ops[j].Alert? && ops[i].key == ops[j].key
    ensures ops[j].now - ops[i].stamp >= Cooldown(ops[j].priority)
  {
    EvictionIsInvisible(ops, clock);
    SpacedForever(map[], clock, ops, i, j);
  }

  // The rule, on the alerts alone.

  /** A minute, five or ten, in nanoseconds. */
  predicate Cooled(priority: string, elapsed: int) {
    elapsed >= (if priority == "critical" then 60_000_000_000
                else if priority == "warning" then 300_000_000_000 else 600_000_000_000)
  }

  /** If alert `i` was accepted for the key of alert `j`, the cooldown of `j` has passed since. */
  predicate CooledSince(ops: seq<Op>, accepted: seq<bool>, i: nat, j: nat)
    requires i < j < |ops| && |accepted| == |ops| && ops[j].Alert?
  {
    accepted[i] && ops[i].Alert? && ops[i].key == ops[j].key ==> Cooled(ops[j].priority, ops[j].now - ops[i].stamp)
  }

  lemma {:induction false} AcceptedFrom(full: Tracker, clock: int, ops: seq<Op>, j: nat)
    requires Monotone(ops, clock) && (forall k | k in full :: full[k] <= clock)
    requires j < |ops| && ops[j].Alert?
    ensures var accepted := DecisionsForever(full, ops);
      accepted[j] <==> && (ops[j].key in full ==> Cooled(ops[j].priority, ops[j].now - full[ops[j].key]))
                       && forall i: nat | i < j :: CooledSince(ops, accepted, i, j)
    decreases ops
  {
    if j > 0 {
      var accepted, next, behind := DecisionsForever(full, ops), StepForever(full, ops[0]), ops[1..];
      var later := DecisionsForever(next, behind);
      assert accepted == [Decision(full, ops[0])] + later;
      AcceptedFrom(next, ops[0].End(), behind, j - 1);
      forall i: nat | 0 < i < j ensures CooledSince(ops, accepted, i, j) == CooledSince(behind, later, i - 1, j - 1) {
        assert accepted[i] == later[i - 1];
      }
      TimesGrow(behind, ops[0].End(), j - 1);
      FirstCools(full, clock, ops, accepted, j);
      var last := j - 1;
      forall i: nat | i < last ensures CooledSince(behind, later, i, last) == CooledSince(ops, accepted, i + 1, j) {
        assert accepted[i + 1] == later[i];
      }
    }
  }

  lemma {:induction false} TimesGrow(ops: seq<Op>, clock: int, j: nat)
    requires Monotone(ops, clock) && j < |ops|
    ensures clock <= ops[j].now
    decreases ops
  {
    if j > 0 { TimesGrow(ops[1..], ops[0].End(), j - 1); }
  }

  /** What the first operation leaves for the key of alert `j`. */
  lemma {:induction false} FirstCools(full: Tracker, clock: int, ops: seq<Op>, accepted: seq<bool>, j: nat)
    requires 0 < j < |ops| == |accepted| && ops[j].Alert? && Monotone(ops, clock)
    requires (forall k | k in full :: full[k] <= clock) && accepted[0] == Decision(full, ops[0])
    ensures var next, key, a := StepForever(full, ops[0]), ops[j].key, ops[j];
      (key in next ==> Cooled(a.priority, a.now - next[key])) <==>
      (key in full ==> Cooled(a.priority, a.now - full[key])) && CooledSince(ops, accepted, 0, j)
  {
  }

  /** Evictions or not: an alert is accepted exactly if no earlier accepted alert of its key lies within its
      cooldown. */
  lemma {:induction false} AcceptedExactly(ops: seq<Op>, clock: int, j: nat)
    requires Monotone(ops, clock) && j < |ops| && ops[j].Alert?
    ensures Decisions(map[], ops)[j] <==> forall i: nat | i < j :: CooledSince(ops, Decisions(map[], ops), i, j)
  {
    EvictionIsInvisible(ops, clock);
    AcceptedFrom(map[], clock, ops, j);
  }

  /** A cleanup forgets exactly the keys last let through over an hour ago. */
  lemma {:induction false} CleanupForgetsOld(tracker: Tracker, now: int)
    ensures var t := Step(tracker, Cleanup(now));
      && (forall key :: key in t <==> key in tracker && now - tracker[key] <= 3_600_000_000_000)
      && (forall key | key in t :: t[key] == tracker[key])
  {
  }

  // The engine's tracker as an object.

  class NotificationEngine {
    var alertTracker: Tracker

    constructor ()
      ensures alertTracker == map[]
    {
      alertTracker := map[];
    }

    method CanSendAlert(key: string, priority: string, now: int, stamp: int) returns (ok: bool)
      modifies this
      ensures ok == Decision(old(alertTracker), Alert(key, priority, now, stamp))
      ensures alertTracker == Step(old(alertTracker), Alert(key, priority, now, stamp))
    {
      var cooldown := 10 * MINUTE;
      if priority == "critical" {
        cooldown := 1 * MINUTE;
      } else if priority == "warning" {
        cooldown := 5 * MINUTE;
      }
      if key in alertTracker && now - alertTracker[key] < cooldown {
        return false;
      }
      alertTracker := alertTracker[key := stamp];
      ok := true;
    }

    /** One tick of the cleanup loop; the map is visited in any order. */
    method RateLimitCleanup(now: int)
      modifies this
      ensures alertTracker == Step(old(alertTracker), Cleanup(now))
    {
      ghost var was := alertTracker;
      var keys := alertTracker.Keys;
      while keys != {}
        invariant keys <= was.Keys
        invariant alertTracker == map k | k in was && (k in keys || now - was[k] <= HOUR) :: was[k]
        decreases keys
      {
        var key :| key in keys;
        if now - alertTracker[key] > HOUR {
          alertTracker := alertTracker - {key};
        }
        keys := keys - {key};
      }
    }

    /** Sending alerts and cleaning up in any order, the decisions are those of `Decisions`; from the start
        and under a monotone clock they are those of a tracker that never forgets. */
    method Handle(ops: seq<Op>) returns (decisions: seq<bool>)
      modifies this
      ensures decisions == Decisions(old(alertTracker), ops)
      ensures old(alertTracker) == map[] ==>
        forall clock | Monotone(ops, clock) :: decisions == DecisionsForever(map[], ops)
    {
      decisions := [];
      for i := 0 to |ops|
        invariant Decisions(old(alertTracker), ops) == decisions + Decisions(alertTracker, ops[i..])
      {
        match ops[i]
        case Alert(key, priority, now, stamp) =>
          var ok := CanSendAlert(key, priority, now, stamp);
          decisions := decisions + [ok];
        case Cleanup(now) =>
          RateLimitCleanup(now);
          decisions := decisions + [false];
      }
      assert ops[|ops|..] == [];
      forall clock | Monotone(ops, clock) ensures Decisions(map[], ops) == DecisionsForever(map[], ops) {
        EvictionIsInvisible(ops, clock);
      }
    }
  }
}
