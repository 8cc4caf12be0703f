/** The heartbeat's task table, its pulses, runners and cleanup sweeps as a state machine. Each SQL
    statement, one whole pulse and each of a runner's two closing actions is one atomic step; time runs
    in whole seconds and never backwards. `births`, `launches` and `writes` only remember. */
module Scheduler {
  import opened Common

  datatype TaskType = Unset | UserTask | AgentTask | OtherType(name: string)

  datatype Status = Pending | Running | Completed | Failed | Stale | OtherStatus(name: string)
  {
    /** A pulse selects only rows that are not in one of these. */
    predicate Terminal() { Completed? || Failed? || Stale? }
  }

  datatype Row = Row(kind: TaskType, ttl: int, interval: int, status: Status,
                     createdAt: int, lastRun: int, completedAt: Option<int>)

  /** A launched goroutine; `written` once it has passed its closing status write. */
  datatype Runner = Runner(id: nat, oneOff: bool, written: bool)

  datatype Launch = Launch(id: nat, at: int)

  /** `layoutOk` says whether the driver hands `last_run` back in the layout the pulse parses. */
  datatype State = State(
    layoutOk: bool, now: int, nextId: nat, table: map<nat, Row>, running: set<nat>,
    inFlight: seq<Runner>, doomed: set<nat>,
    births: map<nat, Row>, launches: seq<Launch>, writes: seq<nat>)

  datatype Step =
    | Create(name: string, prompt: string, kind: TaskType, ttl: int, interval: int)
    | Update(id: nat, status: Status)   // a status write from outside
    | Delete(id: nat)
    | Pulse(order: seq<nat>)            // the selected ids in the order the query yields them
    | RunnerWrite(k: nat)
    | RunnerRemove(k: nat)
    | SweepSelect(picks: set<nat>)
    | SweepDelete(id: nat)
    | Tick(seconds: nat)

  const AGENT_DEFAULT_TTL: int := 30
  const MAX_TTL: int := 24 * 60
  const SWEEP_LIMIT: nat := 100
  const ZERO_TIME: int := -62135596800
  const TWO63: int := 0x8000_0000_0000_0000
  const NANOS_PER_SECOND: int := 1_000_000_000
  const NANOS_PER_MINUTE: int := 60_000_000_000

  function Init(layoutOk: bool, now: int): State {
    State(layoutOk, now, 0, map[], {}, [], {}, map[], [], [])
  }

  // Creating a row.

  function NormalKind(kind: TaskType): TaskType { if kind.Unset? then UserTask else kind }

  function NormalTtl(kind: TaskType, ttl: int): int {
    var t := if kind.AgentTask? && ttl <= 0 then AGENT_DEFAULT_TTL else ttl;
    var u := if kind.UserTask? then 0 else t;
    if u > MAX_TTL then MAX_TTL else u
  }

  function NewRow(kind: TaskType, ttl: int, interval: int, now: int): Row {
    Row(NormalKind(kind), NormalTtl(NormalKind(kind), ttl), interval, Pending, now, now, None)
  }

  // When a task is due. Durations are int64 nanoseconds: a product wraps, a difference saturates.

  function Wrap64(x: int): int { (x + TWO63) % (2 * TWO63) - TWO63 }

  function Clamp64(x: int): int { if x >= TWO63 then TWO63 - 1 else if x < -TWO63 then -TWO63 else x }

  function LastSeen(layoutOk: bool, row: Row): int { if layoutOk then row.lastRun else ZERO_TIME }

  predicate Due(layoutOk: bool, now: int, row: Row) {
    row.interval == 0
    || Clamp64((now - LastSeen(layoutOk, row)) * NANOS_PER_SECOND) >= Wrap64(row.interval * NANOS_PER_MINUTE)
  }

  /** Rows the sweep's query may select. */
  predicate Expired(now: int, row: Row) {
    && row.kind.AgentTask? && row.ttl > 0
    && (|| (row.completedAt.Some? && row.completedAt.value + row.ttl * 60 < now)
        || (row.status.Running? && row.createdAt + row.ttl * 60 < now))
  }

  function ExpiredIds(table: map<nat, Row>, now: int): set<nat> {
    set id | id in table && Expired(now, table[id])
  }

  function Min(a: int, b: int): int { if a < b then a else b }

  /** `picks` is an answer the sweep's `LIMIT 100` query can give. */
  ghost predicate IsSelection(picks: set<nat>, expired: set<nat>) {
    picks <= expired && |picks| == Min(SWEEP_LIMIT, |expired|)
  }

  /** `order` lists the selected rows, each once. */
  ghost predicate IsOrder(order: seq<nat>, table: map<nat, Row>) {
    && NoDuplicates(order)
    && forall id: nat :: id in order <==> id in table && !table[id].status.Terminal()
  }

  // The steps.

  function LaunchIfDue(s: State, id: nat): State {
    if id !in s.table || id in s.running || !Due(s.layoutOk, s.now, s.table[id]) then s
    else s.(table := s.table[id := s.table[id].(status := Running, lastRun := s.now)],
            running := s.running + {id},
            inFlight := s.inFlight + [Runner(id, s.table[id].interval == 0, false)],
            launches := s.launches + [Launch(id, s.now)])
  }

  function LaunchAll(s: State, order: seq<nat>): State
    decreases order
  {
    if order == [] then s else LaunchAll(LaunchIfDue(s, order[0]), order[1..])
  }

  function SetStatus(s: State, id: nat, status: Status): State {
    if id !in s.table then s
    else if status.Completed? then
      s.(table := s.table[id := s.table[id].(status := status, completedAt := Some(s.now))])
    else s.(table := s.table[id := s.table[id].(status := status)])
  }

  function Without<T>(s: seq<T>, k: nat): seq<T>
    requires k < |s|
  {
    s[..k] + s[k + 1..]
  }

  ghost predicate Enabled(s: State, a: Step) {
    match a
    case Pulse(order) => IsOrder(order, s.table)
    case RunnerWrite(k) => k < |s.inFlight| && !s.inFlight[k].written
    case RunnerRemove(k) => k < |s.inFlight| && s.inFlight[k].written
    case SweepSelect(picks) => s.doomed == {} && IsSelection(picks, ExpiredIds(s.table, s.now))
    case SweepDelete(id) => id in s.doomed
    case _ => true
  }

  ghost function Apply(s: State, a: Step): State
    requires Enabled(s, a)
  {
    match a
    case Create(name, prompt, kind, ttl, interval) =>
      if name == "" || prompt == "" then s
      else
        var row := NewRow(kind, ttl, interval, s.now);
        s.(nextId := s.nextId + 1, table := s.table[s.nextId := row], births := s.births[s.nextId := row])
    case Update(id, status) =>
      SetStatus(s, id, status).(writes := if status.Terminal() then s.writes else s.writes + [id])
    case Delete(id) =>
      if id in s.table && !s.table[id].kind.AgentTask? then s.(table := s.table - {id}) else s
    case Pulse(order) => LaunchAll(s, order)
    case RunnerWrite(k) =>
      var r := s.inFlight[k];
      (if r.oneOff then SetStatus(s, r.id, Completed) else s).(inFlight := s.inFlight[k := r.(written := true)])
    case RunnerRemove(k) =>
      s.(running := s.running - {s.inFlight[k].id}, inFlight := Without(s.inFlight, k))
    case SweepSelect(picks) => s.(doomed := picks)
    case SweepDelete(id) =>
      s.(doomed := s.doomed - {id},
         table := if id in s.table && s.table[id].kind.AgentTask? then s.table - {id} else s.table)
    case Tick(seconds) => s.(now := s.now + seconds)
  }

  /** The state after a schedule; steps that are not enabled in their turn are not taken. */
  ghost function After(s: State, schedule: seq<Step>): State
    decreases schedule
  {
    if schedule == [] then s
    else After(if Enabled(s, schedule[0]) then Apply(s, schedule[0]) else s, schedule[1..])
  }

  // Invariant 1: the table agrees with what was inserted, and its times lie in the past.

  ghost predicate RowOk(s: State, id: nat)
    requires id in s.table && id in s.births
  {
    var row, born := s.table[id], s.births[id];
    && row.kind == born.kind && row.ttl == born.ttl && row.interval == born.interval
    && row.createdAt == born.createdAt
    && row.createdAt <= row.lastRun <= s.now
    && (row.completedAt.Some? ==> row.createdAt <= row.completedAt.value <= s.now)
  }

  ghost predicate TableOk(s: State) {
    && (forall id | id in s.births :: id < s.nextId && s.births[id].createdAt <= s.now)
    && (forall id | id in s.table :: id in s.births)
    && (forall id | id in s.table :: RowOk(s, id))
  }

  // Invariant 2: the in-flight runners are exactly the running tasks.

  ghost predicate HasRunner(s: State, id: nat) {
    exists i | 0 <= i < |s.inFlight| :: s.inFlight[i].id == id
  }

  ghost predicate RunnersOk(s: State) {
    && (forall i, j | 0 <= i < j < |s.inFlight| :: s.inFlight[i].id != s.inFlight[j].id)
    && (forall i | 0 <= i < |s.inFlight| :: s.inFlight[i].id in s.running)
    && (forall id | id in s.running :: HasRunner(s, id))
    && (forall i | 0 <= i < |s.inFlight| ::
          s.inFlight[i].id in s.births && (s.inFlight[i].oneOff <==> s.births[s.inFlight[i].id].interval == 0))
  }

  lemma {:induction false} LaunchKeepsTable(s: State, id: nat)
    requires TableOk(s)
    ensures TableOk(LaunchIfDue(s, id))
  {
    var t := LaunchIfDue(s, id);
    forall i | i in t.table ensures i in t.births && RowOk(t, i) {
      assert RowOk(s, i);
    }
  }

  lemma {:induction false} LaunchKeepsRunners(s: State, id: nat)
    requires TableOk(s) && RunnersOk(s)
    ensures RunnersOk(LaunchIfDue(s, id))
  {
    var t := LaunchIfDue(s, id);
    if t != s {
      assert RowOk(s, id);
      var n := |s.inFlight|;
      assert t.inFlight[n].id == id;
      forall i | i in t.running ensures HasRunner(t, i) {
        if i != id {
          assert HasRunner(s, i);
          var k :| 0 <= k < |s.inFlight| && s.inFlight[k].id == i;
          assert t.inFlight[k].id == i;
        }
      }
    }
  }

  lemma {:induction false} LaunchAllKeepsInv(s: State, order: seq<nat>)
    requires TableOk(s) && RunnersOk(s)
    ensures TableOk(LaunchAll(s, order)) && RunnersOk(LaunchAll(s, order))
    decreases order
  {
    if order != [] {
      LaunchKeepsTable(s, order[0]);
      LaunchKeepsRunners(s, order[0]);
      LaunchAllKeepsInv(LaunchIfDue(s, order[0]), order[1..]);
    }
  }

  lemma {:induction false} StepKeepsTable(s: State, a: Step)
    requires TableOk(s) && Enabled(s, a) && !a.Pulse?
    ensures TableOk(Apply(s, a))
  {
    if a.Update? {
      SetStatusKeepsTable(s, a.id, a.status);
      SameRowsKeepTable(SetStatus(s, a.id, a.status), Apply(s, a));
    } else if a.RunnerWrite? {
      RunnerWriteKeepsTable(s, a.k);
    } else if a.Create? {
      CreateKeepsTable(s, a);
    } else if a.Delete? {
      RemovalKeepsTable(s, a.id, Apply(s, a));
    } else if a.SweepDelete? {
      RemovalKeepsTable(s, a.id, Apply(s, a));
    } else {
      SameRowsKeepTable(s, Apply(s, a));
    }
  }

  lemma {:induction false} RunnerWriteKeepsTable(s: State, k: nat)
    requires TableOk(s) && Enabled(s, RunnerWrite(k))
    ensures TableOk(Apply(s, RunnerWrite(k)))
  {
    var r := s.inFlight[k];
    if r.oneOff {
      SetStatusKeepsTable(s, r.id, Completed);
      SameRowsKeepTable(SetStatus(s, r.id, Completed), Apply(s, RunnerWrite(k)));
    } else {
      SameRowsKeepTable(s, Apply(s, RunnerWrite(k)));
    }
  }

  lemma {:induction false} CreateKeepsTable(s: State, a: Step)
    requires TableOk(s) && a.Create?
    ensures TableOk(Apply(s, a))
  {
    var t := Apply(s, a);
    forall id | id in t.table ensures id in t.births && RowOk(t, id) {
      if id in s.table { assert RowOk(s, id); }
    }
  }

  lemma {:induction false} RemovalKeepsTable(s: State, id: nat, t: State)
    requires TableOk(s) && t.births == s.births && t.nextId == s.nextId && t.now == s.now
    requires t.table == s.table || t.table == s.table - {id}
    ensures TableOk(t)
  {
    forall i | i in t.table ensures RowOk(t, i) {
      assert RowOk(s, i);
    }
  }

  lemma {:induction false} SameRowsKeepTable(s: State, t: State)
    requires TableOk(s) && t.table == s.table && t.births == s.births && t.nextId == s.nextId && t.now >= s.now
    ensures TableOk(t)
  {
    forall id | id in t.table ensures RowOk(t, id) {
      assert RowOk(s, id);
    }
  }

  lemma {:induction false} SetStatusKeepsTable(s: State, id: nat, status: Status)
    requires TableOk(s)
    ensures TableOk(SetStatus(s, id, status))
  {
    var t := SetStatus(s, id, status);
    forall i | i in t.table ensures i in t.births && RowOk(t, i) {
      assert RowOk(s, i);
    }
  }

  lemma {:induction false} RemoveKeepsRunners(s: State, k: nat)
    requires RunnersOk(s) && k < |s.inFlight|
    ensures RunnersOk(s.(running := s.running - {s.inFlight[k].id}, inFlight := Without(s.inFlight, k)))
  {
    var t := s.(running := s.running - {s.inFlight[k].id}, inFlight := Without(s.inFlight, k));
    forall i | 0 <= i < |t.inFlight| ensures t.inFlight[i] == s.inFlight[if i < k then i else i + 1] {}
    forall id | id in t.running ensures HasRunner(t, id) {
      assert HasRunner(s, id);
      var j :| 0 <= j < |s.inFlight| && s.inFlight[j].id == id;
      assert t.inFlight[if j < k then j else j - 1] == s.inFlight[j];
    }
  }

  lemma {:induction false} WriteKeepsRunners(s: State, k: nat)
    requires RunnersOk(s) && k < |s.inFlight|
    ensures RunnersOk(s.(inFlight := s.inFlight[k := s.inFlight[k].(written := true)]))
  {
    var t := s.(inFlight := s.inFlight[k := s.inFlight[k].(written := true)]);
    forall id | id in t.running ensures HasRunner(t, id) {
      assert HasRunner(s, id);
      var j :| 0 <= j < |s.inFlight| && s.inFlight[j].id == id;
      assert t.inFlight[j].id == id;
    }
  }

  lemma {:induction false} StepKeepsRunners(s: State, a: Step)
    requires TableOk(s) && RunnersOk(s) && Enabled(s, a) && !a.Pulse?
    ensures RunnersOk(Apply(s, a))
  {
    if a.RunnerRemove? {
      RemoveKeepsRunners(s, a.k);
    } else if a.RunnerWrite? {
      WriteKeepsRunners(s, a.k);
    } else {
      var t := Apply(s, a);
      assert t.running == s.running && t.inFlight == s.inFlight;
      assert forall id | id in s.running :: HasRunner(s, id) ==> HasRunner(t, id);
      assert forall id | id in s.births :: id in t.births && t.births[id] == s.births[id];
    }
  }

  lemma {:induction false} StepKeepsInv(s: State, a: Step)
    requires TableOk(s) && RunnersOk(s) && Enabled(s, a)
    ensures TableOk(Apply(s, a)) && RunnersOk(Apply(s, a))
  {
    if a.Pulse? {
      LaunchAllKeepsInv(s, a.order);
    } else {
      StepKeepsTable(s, a);
      StepKeepsRunners(s, a);
    }
  }

  lemma {:induction false} AfterKeepsInv(s: State, schedule: seq<Step>)
    requires TableOk(s) && RunnersOk(s)
    ensures TableOk(After(s, schedule)) && RunnersOk(After(s, schedule))
    decreases schedule
  {
    if schedule != [] {
      if Enabled(s, schedule[0]) {
        StepKeepsInv(s, schedule[0]);
        AfterKeepsInv(Apply(s, schedule[0]), schedule[1..]);
      } else {
        AfterKeepsInv(s, schedule[1..]);
      }
    }
  }

  /** Safety, in every reachable state: no task has two runners in flight, and the running set is
      exactly the set of tasks in flight. */
  lemma {:induction false} NoTaskRunsTwiceAtOnce(layoutOk: bool, start: int, schedule: seq<Step>)
    ensures var s := After(Init(layoutOk, start), schedule);
            && (forall i, j | 0 <= i < j < |s.inFlight| :: s.inFlight[i].id != s.inFlight[j].id)
            && s.running == set r | r in s.inFlight :: r.id
  {
    AfterKeepsInv(Init(layoutOk, start), schedule);
    var s := After(Init(layoutOk, start), schedule);
    forall id | id in s.running ensures id in set r | r in s.inFlight :: r.id {
      assert HasRunner(s, id);
      var i :| 0 <= i < |s.inFlight| && s.inFlight[i].id == id;
      assert s.inFlight[i] in s.inFlight;
    }
  }

  // One-off tasks.

  function Count<T(==)>(s: seq<T>, x: T): nat {
    if s == [] then 0 else Count(s[..|s| - 1], x) + if s[|s| - 1] == x then 1 else 0
  }

  lemma {:induction false} CountSnoc<T>(s: seq<T>, y: T, x: T)
    ensures Count(s + [y], x) == Count(s, x) + if y == x then 1 else 0
  {
    assert (s + [y])[..|s|] == s;
  }

  /** The times at which `id` was launched, in order. */
  function Times(launches: seq<Launch>, id: nat): seq<int> {
    if launches == [] then []
    else
      var l := launches[|launches| - 1];
      Times(launches[..|launches| - 1], id) + (if l.id == id then [l.at] else [])
  }

  lemma {:induction false} TimesSnoc(launches: seq<Launch>, l: Launch, id: nat)
    ensures Times(launches + [l], id) == Times(launches, id) + (if l.id == id then [l.at] else [])
  {
    assert (launches + [l])[..|launches|] == launches;
  }

  /** A runner of `id` has yet to pass its closing write. */
  ghost predicate Unwritten(s: State, id: nat) {
    exists i | 0 <= i < |s.inFlight| :: s.inFlight[i].id == id && !s.inFlight[i].written
  }

  /** The row of `id` could be launched again without another write from outside. */
  ghost predicate Armed(s: State, id: nat) {
    id in s.table && !s.table[id].status.Terminal() && !Unwritten(s, id)
  }

  ghost predicate OneOffOk(s: State, id: nat) {
    && |Times(s.launches, id)| <= 1 + Count(s.writes, id)
    && (Armed(s, id) ==> |Times(s.launches, id)| <= Count(s.writes, id))
  }

  ghost predicate OneOffsOk(s: State) {
    && (forall id | id in s.births && s.births[id].interval == 0 :: OneOffOk(s, id))
    && (forall id: nat | id !in s.births :: Times(s.launches, id) == [])
  }

  /** A task that is selected and not running is launched from an armed row. */
  lemma {:induction false} NotRunningIsArmed(s: State, id: nat)
    requires RunnersOk(s) && id in s.table && id !in s.running && !s.table[id].status.Terminal()
    ensures Armed(s, id)
  {
  }

  lemma {:induction false} LaunchKeepsOneOffs(s: State, id: nat)
    requires TableOk(s) && RunnersOk(s) && OneOffsOk(s)
    requires id in s.table && !s.table[id].status.Terminal()
    ensures OneOffsOk(LaunchIfDue(s, id))
  {
    var t := LaunchIfDue(s, id);
    if t != s {
      assert RowOk(s, id);
      NotRunningIsArmed(s, id);
      assert t.inFlight[|s.inFlight|] == Runner(id, s.table[id].interval == 0, false);
      forall i: nat ensures Times(t.launches, i) == Times(s.launches, i) + (if i == id then [s.now] else []) {
        TimesSnoc(s.launches, Launch(id, s.now), i);
      }
      forall i | i in t.births && t.births[i].interval == 0 ensures OneOffOk(t, i) {
        assert OneOffOk(s, i);
        if i != id && Armed(t, i) {
          assert forall k | 0 <= k < |s.inFlight| :: t.inFlight[k] == s.inFlight[k];
          assert Armed(s, i);
        }
      }
    }
  }

  /** Launching one row leaves every other row alone. */
  lemma {:induction false} LaunchLeavesOthers(s: State, id: nat, other: nat)
    requires other != id && other in s.table
    ensures other in LaunchIfDue(s, id).table && LaunchIfDue(s, id).table[other] == s.table[other]
  {
  }

  lemma {:induction false} LaunchAllKeepsOneOffs(s: State, order: seq<nat>)
    requires TableOk(s) && RunnersOk(s) && OneOffsOk(s) && NoDuplicates(order)
    requires forall id | id in order :: id in s.table && !s.table[id].status.Terminal()
    ensures OneOffsOk(LaunchAll(s, order))
    decreases order
  {
    if order != [] {
      var t := LaunchIfDue(s, order[0]);
      assert order[0] in order;
      LaunchKeepsTable(s, order[0]);
      LaunchKeepsRunners(s, order[0]);
      LaunchKeepsOneOffs(s, order[0]);
      forall id | id in order[1..] ensures id in t.table && !t.table[id].status.Terminal() {
        assert id in order && id != order[0];
        LaunchLeavesOthers(s, order[0], id);
      }
      LaunchAllKeepsOneOffs(t, order[1..]);
    }
  }

  lemma {:induction false} WriteKeepsOneOffs(s: State, k: nat)
    requires TableOk(s) && RunnersOk(s) && OneOffsOk(s) && Enabled(s, RunnerWrite(k))
    ensures OneOffsOk(Apply(s, RunnerWrite(k)))
  {
    var t := Apply(s, RunnerWrite(k));
    forall i | i in t.births && t.births[i].interval == 0 ensures OneOffOk(t, i) {
      assert OneOffOk(s, i);
      if Armed(t, i) {
        assert i != s.inFlight[k].id;
        assert forall j | 0 <= j < |s.inFlight| && j != k :: t.inFlight[j] == s.inFlight[j];
        assert Armed(s, i);
      }
    }
  }

  lemma {:induction false} UpdateKeepsOneOffs(s: State, id: nat, status: Status)
    requires OneOffsOk(s)
    ensures OneOffsOk(Apply(s, Update(id, status)))
  {
    var t := Apply(s, Update(id, status));
    forall i | i in t.births && t.births[i].interval == 0 ensures OneOffOk(t, i) {
      assert OneOffOk(s, i);
      CountSnoc(s.writes, id, i);
      if Armed(t, i) && i != id {
        assert Armed(s, i);
      }
    }
  }

  lemma {:induction false} RemoveKeepsOneOffs(s: State, k: nat)
    requires OneOffsOk(s) && Enabled(s, RunnerRemove(k))
    ensures OneOffsOk(Apply(s, RunnerRemove(k)))
  {
    var t := Apply(s, RunnerRemove(k));
    forall i | i in t.births && t.births[i].interval == 0 ensures OneOffOk(t, i) {
      assert OneOffOk(s, i);
      if Unwritten(s, i) {
        var j :| 0 <= j < |s.inFlight| && s.inFlight[j].id == i && !s.inFlight[j].written;
        assert t.inFlight[if j < k then j else j - 1] == s.inFlight[j];
      }
    }
  }

  lemma {:induction false} StepKeepsOneOffs(s: State, a: Step)
    requires TableOk(s) && RunnersOk(s) && OneOffsOk(s) && Enabled(s, a)
    ensures OneOffsOk(Apply(s, a))
  {
    if a.Pulse? {
      LaunchAllKeepsOneOffs(s, a.order);
    } else if a.RunnerWrite? {
      WriteKeepsOneOffs(s, a.k);
    } else if a.RunnerRemove? {
      RemoveKeepsOneOffs(s, a.k);
    } else if a.Update? {
      UpdateKeepsOneOffs(s, a.id, a.status);
    } else {
      var t := Apply(s, a);
      assert t.inFlight == s.inFlight && t.launches == s.launches && t.writes == s.writes;
      forall i | i in t.births && t.births[i].interval == 0 ensures OneOffOk(t, i) {
        if i in s.births {
          assert OneOffOk(s, i);
          assert Armed(t, i) ==> Armed(s, i);
        }
      }
    }
  }

  lemma {:induction false} AfterKeepsOneOffs(s: State, schedule: seq<Step>)
    requires TableOk(s) && RunnersOk(s) && OneOffsOk(s)
    ensures OneOffsOk(After(s, schedule))
    decreases schedule
  {
    if schedule != [] {
      if Enabled(s, schedule[0]) {
        StepKeepsInv(s, schedule[0]);
        StepKeepsOneOffs(s, schedule[0]);
        AfterKeepsOneOffs(Apply(s, schedule[0]), schedule[1..]);
      } else {
        AfterKeepsOneOffs(s, schedule[1..]);
      }
    }
  }

  /** Over every run, a one-off task is launched at most once, plus once for each status write from
      outside that made it selectable again. */
  lemma {:induction false} OneOffLaunchBound(layoutOk: bool, start: int, schedule: seq<Step>, id: nat)
    requires var s := After(Init(layoutOk, start), schedule); id in s.births && s.births[id].interval == 0
    ensures var s := After(Init(layoutOk, start), schedule);
            |Times(s.launches, id)| <= 1 + Count(s.writes, id)
  {
    AfterKeepsOneOffs(Init(layoutOk, start), schedule);
    assert OneOffOk(After(Init(layoutOk, start), schedule), id);
  }
}
