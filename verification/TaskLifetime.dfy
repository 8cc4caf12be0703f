/** How long rows live in the task table: which steps can remove a row, when, and how many sweeps an
    amount of expired rows takes. */
module TaskLifetime {
  import opened Common
  import opened Scheduler

  /** Created rows keep their time-to-live in bounds. */
  ghost predicate BirthsOk(s: State) {
    forall id | id in s.births ::
      && !s.births[id].kind.Unset?
      && (s.births[id].kind.AgentTask? ==> 1 <= s.births[id].ttl <= MAX_TTL)
      && (s.births[id].kind.UserTask? ==> s.births[id].ttl == 0)
  }

  /** An agent row whose time to live, counted from its creation, is over. */
  ghost predicate Overdue(s: State, id: nat) {
    && id in s.births && s.births[id].kind.AgentTask?
    && s.births[id].createdAt + s.births[id].ttl * 60 < s.now
  }

  ghost predicate DoomedOk(s: State) {
    forall id | id in s.doomed :: Overdue(s, id)
  }

  ghost predicate LifetimeOk(s: State) {
    TableOk(s) && RunnersOk(s) && BirthsOk(s) && DoomedOk(s)
  }

  lemma {:induction false} LaunchKeepsLifetimes(s: State, order: seq<nat>)
    ensures var t := LaunchAll(s, order);
            && t.births == s.births && t.doomed == s.doomed && t.now == s.now
            && t.table.Keys == s.table.Keys
    decreases order
  {
    if order != [] { LaunchKeepsLifetimes(LaunchIfDue(s, order[0]), order[1..]); }
  }

  lemma {:induction false} StepKeepsLifetimes(s: State, a: Step)
    requires LifetimeOk(s) && Enabled(s, a)
    ensures LifetimeOk(Apply(s, a))
  {
    StepKeepsInv(s, a);
    StepKeepsBirths(s, a);
    StepKeepsDoomed(s, a);
  }

  lemma {:induction false} StepKeepsBirths(s: State, a: Step)
    requires BirthsOk(s) && Enabled(s, a)
    ensures BirthsOk(Apply(s, a))
  {
    if a.Pulse? { LaunchKeepsLifetimes(s, a.order); }
  }

  lemma {:induction false} StepKeepsDoomed(s: State, a: Step)
    requires TableOk(s) && DoomedOk(s) && Enabled(s, a)
    ensures DoomedOk(Apply(s, a))
  {
    var t := Apply(s, a);
    if a.Pulse? { LaunchKeepsLifetimes(s, a.order); }
    forall id | id in t.doomed ensures Overdue(t, id) {
      if a.SweepSelect? {
        assert id in ExpiredIds(s.table, s.now);
        assert RowOk(s, id);
      } else {
        assert Overdue(s, id);
      }
    }
  }

  lemma {:induction false} AfterKeepsLifetimes(s: State, schedule: seq<Step>)
    requires LifetimeOk(s)
    ensures LifetimeOk(After(s, schedule))
    decreases schedule
  {
    if schedule != [] {
      if Enabled(s, schedule[0]) {
        StepKeepsLifetimes(s, schedule[0]);
        AfterKeepsLifetimes(Apply(s, schedule[0]), schedule[1..]);
      } else {
        AfterKeepsLifetimes(s, schedule[1..]);
      }
    }
  }

  /** Every agent row ever created has a time to live of 1 to 1440 minutes, every user row 0, and a row
      keeps it for as long as it is in the table. */
  lemma {:induction false} TtlBounds(layoutOk: bool, start: int, schedule: seq<Step>, id: nat)
    requires id in After(Init(layoutOk, start), schedule).table
    ensures var row := After(Init(layoutOk, start), schedule).table[id];
            && (row.kind.AgentTask? ==> 1 <= row.ttl <= 1440)
            && (row.kind.UserTask? ==> row.ttl == 0)
  {
    AfterKeepsLifetimes(Init(layoutOk, start), schedule);
    assert RowOk(After(Init(layoutOk, start), schedule), id);
  }

  /** The step `a` removes the row `id`, as it may: a row that is no agent's on request, an agent's row
      only in a sweep and after its time. */
  ghost predicate RemovesDuly(s: State, a: Step, id: nat) {
    && id in s.table && Enabled(s, a)
    && if s.table[id].kind.AgentTask? then a == SweepDelete(id) && Overdue(s, id) else a == Delete(id)
  }

  lemma {:induction false} StepRemovesDuly(s: State, a: Step, id: nat)
    requires LifetimeOk(s) && Enabled(s, a)
    requires id in s.table && id !in Apply(s, a).table
    ensures RemovesDuly(s, a, id)
  {
    if a.Pulse? { LaunchKeepsLifetimes(s, a.order); }
    if a.SweepDelete? { assert Overdue(s, a.id); }
  }

  lemma {:induction false} AfterSnoc(s: State, schedule: seq<Step>, a: Step)
    ensures var t := After(s, schedule);
            After(s, schedule + [a]) == if Enabled(t, a) then Apply(t, a) else t
    decreases schedule
  {
    if schedule == [] {
      assert ([] + [a])[1..] == [];
      var t := if Enabled(s, a) then Apply(s, a) else s;
      assert After(s, [a]) == After(t, []);
    } else {
      assert (schedule + [a])[1..] == schedule[1..] + [a];
      AfterSnoc(if Enabled(s, schedule[0]) then Apply(s, schedule[0]) else s, schedule[1..], a);
    }
  }

  lemma {:induction false} NewIdsAreFresh(s: State, a: Step, id: nat)
    requires TableOk(s) && Enabled(s, a) && id in Apply(s, a).births && id !in s.births
    ensures id in Apply(s, a).table
  {
    if a.Pulse? { LaunchKeepsLifetimes(s, a.order); }
  }

  /** Over every run: a row that was created and is gone was removed by one step that was due. */
  lemma {:induction false} RowsLeaveDuly(layoutOk: bool, start: int, schedule: seq<Step>, id: nat)
    requires var s := After(Init(layoutOk, start), schedule); id in s.births && id !in s.table
    ensures exists k | 0 <= k < |schedule| ::
              RemovesDuly(After(Init(layoutOk, start), schedule[..k]), schedule[k], id)
    decreases schedule
  {
    if schedule != [] {
      var n := |schedule| - 1;
      var front, a := schedule[..n], schedule[n];
      assert schedule == front + [a];
      var s := After(Init(layoutOk, start), front);
      AfterSnoc(Init(layoutOk, start), front, a);
      AfterKeepsLifetimes(Init(layoutOk, start), front);
      if id in s.table {
        StepRemovesDuly(s, a, id);
        assert RemovesDuly(After(Init(layoutOk, start), schedule[..n]), schedule[n], id);
      } else {
        if id !in s.births { NewIdsAreFresh(s, a, id); }
        RowsLeaveDuly(layoutOk, start, front, id);
        var k :| 0 <= k < |front| && RemovesDuly(After(Init(layoutOk, start), front[..k]), front[k], id);
        assert front[..k] == schedule[..k] && front[k] == schedule[k];
      }
    }
  }

  // Sweeps.

  function Deletes(order: seq<nat>): seq<Step> {
    seq(|order|, i requires 0 <= i < |order| => SweepDelete(order[i]))
  }

  /** One whole sweep: select, then delete the selected rows one by one. */
  function Sweep(picks: set<nat>, order: seq<nat>): seq<Step> {
    [SweepSelect(picks)] + Deletes(order)
  }

  ghost predicate Lists(order: seq<nat>, picks: set<nat>) {
    NoDuplicates(order) && forall id: nat :: id in order <==> id in picks
  }

  lemma {:induction false} DeletesRemove(s: State, order: seq<nat>)
    requires Lists(order, s.doomed)
    requires forall id | id in order :: id in s.table && s.table[id].kind.AgentTask?
    ensures After(s, Deletes(order)) == s.(doomed := {}, table := s.table - s.doomed)
    decreases order
  {
    if order == [] {
      assert s.doomed == {};
      assert s.table - {} == s.table;
    } else {
      var id := order[0];
      assert id in order;
      assert Deletes(order)[1..] == Deletes(order[1..]);
      var t := Apply(s, SweepDelete(id));
      assert t.table == s.table - {id};
      assert Lists(order[1..], t.doomed) by {
        forall i: nat ensures i in order[1..] <==> i in t.doomed {
          assert i in order <==> i == id || i in order[1..];
          if i in order[1..] { var k :| 0 <= k < |order[1..]| && order[1..][k] == i; assert order[k + 1] != order[0]; }
        }
      }
      DeletesRemove(t, order[1..]);
      assert t.table - t.doomed == s.table - s.doomed;
    }
  }

  /** A whole sweep removes just the rows its query selected. */
  lemma {:induction false} SweepRemovesPicks(s: State, picks: set<nat>, order: seq<nat>)
    requires s.doomed == {} && IsSelection(picks, ExpiredIds(s.table, s.now)) && Lists(order, picks)
    ensures After(s, Sweep(picks, order)) == s.(table := s.table - picks)
  {
    var t := Apply(s, SweepSelect(picks));
    assert Sweep(picks, order)[1..] == Deletes(order);
    forall id | id in order ensures id in s.table && s.table[id].kind.AgentTask? {
      assert id in ExpiredIds(s.table, s.now);
    }
    DeletesRemove(t, order);
  }

  lemma {:induction false} DisjointCard(a: set<nat>, b: set<nat>)
    requires b <= a
    ensures |a - b| == |a| - |b|
  {
    assert (a - b) + b == a && (a - b) * b == {};
  }

  /** What a series of sweeps with a frozen clock makes of a table. */
  function Swept(table: map<nat, Row>, sweeps: seq<set<nat>>): map<nat, Row>
    decreases sweeps
  {
    if sweeps == [] then table else Swept(table - sweeps[0], sweeps[1..])
  }

  ghost predicate AreSelections(table: map<nat, Row>, now: int, sweeps: seq<set<nat>>)
    decreases sweeps
  {
    sweeps == []
    || (IsSelection(sweeps[0], ExpiredIds(table, now)) && AreSelections(table - sweeps[0], now, sweeps[1..]))
  }

  lemma {:induction false} ExpiredAfterSweep(table: map<nat, Row>, now: int, picks: set<nat>)
    ensures ExpiredIds(table - picks, now) == ExpiredIds(table, now) - picks
  {
  }

  /** With the clock standing still, each sweep clears a hundred expired rows or the rest, and touches
      no other row. */
  lemma {:induction false} SweepsClear(table: map<nat, Row>, now: int, sweeps: seq<set<nat>>)
    requires AreSelections(table, now, sweeps)
    ensures var n, m := |ExpiredIds(table, now)|, |ExpiredIds(Swept(table, sweeps), now)|;
            m == if n > SWEEP_LIMIT * |sweeps| then n - SWEEP_LIMIT * |sweeps| else 0
    ensures forall id | id in table && !Expired(now, table[id]) ::
              id in Swept(table, sweeps) && Swept(table, sweeps)[id] == table[id]
    decreases sweeps
  {
    if sweeps != [] {
      var rest := table - sweeps[0];
      DisjointCard(ExpiredIds(table, now), sweeps[0]);
      ExpiredAfterSweep(table, now, sweeps[0]);
      SweepsClear(rest, now, sweeps[1..]);
      forall id | id in table && !Expired(now, table[id])
        ensures id in Swept(table, sweeps) && Swept(table, sweeps)[id] == table[id]
      {
        assert id !in ExpiredIds(table, now);
        assert id in rest && rest[id] == table[id];
      }
    }
  }

  /** So n expired rows are gone after ceil(n / 100) sweeps, and not before. */
  lemma {:induction false} SweepsNeeded(table: map<nat, Row>, now: int, sweeps: seq<set<nat>>)
    requires AreSelections(table, now, sweeps)
    ensures ExpiredIds(Swept(table, sweeps), now) == {} <==>
            |sweeps| >= (|ExpiredIds(table, now)| + SWEEP_LIMIT - 1) / SWEEP_LIMIT
  {
    SweepsClear(table, now, sweeps);
    var left := ExpiredIds(Swept(table, sweeps), now);
    assert left == {} <==> |left| == 0;
  }
}
