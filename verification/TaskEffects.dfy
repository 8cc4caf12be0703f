/** What the scheduler's steps bring about: the rows that are created, written and deleted, the launches a pulse
    makes, a one-off task's one launch, and the end of an agent's row. */
module TaskEffects {
  import opened Common
  import opened Scheduler
  import opened LaunchBounds
  import opened TaskLifetime

  // Rows.

  /** A created row is pending, unrun and as asked for; an agent's time to live is 30 minutes if none is given and
      a day at most, a user's task has none. */
  lemma {:induction false} CreatedAsAsked(s: State, name: string, prompt: string, kind: TaskType, ttl: int,
                                          interval: int)
    requires name != "" && prompt != ""
    ensures var t := Apply(s, Create(name, prompt, kind, ttl, interval));
      && t.nextId == s.nextId + 1
      && t.table.Keys == s.table.Keys + {s.nextId}
      && (forall id | id in s.table && id != s.nextId :: t.table[id] == s.table[id])
      && var row := t.table[s.nextId];
      && row.status == Pending && row.interval == interval && row.completedAt == None
      && row.createdAt == s.now && row.lastRun == s.now
      && (kind == UserTask || kind == Unset ==> row.kind == UserTask && row.ttl == 0)
      && (kind == AgentTask && ttl <= 0 ==> row.kind == AgentTask && row.ttl == 30)
      && (kind == AgentTask && 1 <= ttl <= 1440 ==> row.kind == AgentTask && row.ttl == ttl)
      && (kind == AgentTask && ttl > 1440 ==> row.kind == AgentTask && row.ttl == 1440)
  {
  }

  /** Nothing is created without a name or a prompt. */
  lemma {:induction false} NamelessIsRefused(s: State, name: string, prompt: string, kind: TaskType, ttl: int,
                                             interval: int)
    requires name == "" || prompt == ""
    ensures Apply(s, Create(name, prompt, kind, ttl, interval)) == s
  {
  }

  /** A status write puts the status into its row, with the time if it is a completion, and into no other. */
  lemma {:induction false} StatusIsWritten(s: State, id: nat, status: Status)
    requires id in s.table
    ensures var t := Apply(s, Update(id, status));
      && t.table.Keys == s.table.Keys && (forall i | i in s.table && i != id :: t.table[i] == s.table[i])
      && t.table[id].status == status
      && t.table[id].completedAt == (if status == Completed then Some(s.now) else s.table[id].completedAt)
      && t.table[id].lastRun == s.table[id].lastRun
  {
  }

  /** A delete takes away the row it names, unless it is an agent's, and no other. */
  lemma {:induction false} DeletedIsGone(s: State, id: nat)
    ensures var t := Apply(s, Delete(id));
      && (id in t.table <==> id in s.table && s.table[id].kind == AgentTask)
      && (forall i | i != id :: i in t.table <==> i in s.table)
      && (forall i | i in t.table :: t.table[i] == s.table[i])
  {
  }

  /** A runner's closing write completes a one-off task's row, stamped with the time, and leaves every other row. */
  lemma {:induction false} RunnerCompletes(s: State, k: nat)
    requires Enabled(s, RunnerWrite(k))
    ensures var t, r := Apply(s, RunnerWrite(k)), s.inFlight[k];
      && t.table.Keys == s.table.Keys && (forall i | i in s.table && i != r.id :: t.table[i] == s.table[i])
      && (r.id in s.table && r.oneOff ==> t.table[r.id].status == Completed && t.table[r.id].completedAt == Some(s.now))
      && (r.id in s.table && !r.oneOff ==> t.table[r.id] == s.table[r.id])
  {
  }

  // Launches.

  /** A row a pulse looks at: there, and neither completed nor failed nor stale. */
  predicate Selected(s: State, id: nat) {
    id in s.table && s.table[id].status != Completed && s.table[id].status != Failed && s.table[id].status != Stale
  }

  predicate Idle(s: State, id: nat) { Selected(s, id) && id !in s.running }

  /** The row of `id` was launched at the time of `s`, once more than it was. */
  ghost predicate JustLaunched(s: State, t: State, id: nat) {
    && Times(t.launches, id) == Times(s.launches, id) + [s.now]
    && id in t.running && id in t.table && t.table[id].status == Running && t.table[id].lastRun == s.now
  }

  lemma {:induction false} LaunchLeavesLaunched(s: State, t: State, order: seq<nat>, id: nat)
    requires JustLaunched(s, t, id) && id !in order
    ensures JustLaunched(s, LaunchAll(t, order), id)
    decreases order
  {
    if order != [] {
      TimesSnoc(t.launches, Launch(order[0], t.now), id);
      LaunchLeavesLaunched(s, LaunchIfDue(t, order[0]), order[1..], id);
    }
  }

  lemma {:induction false} LaunchAllJustLaunches(s: State, order: seq<nat>, id: nat)
    requires NoDuplicates(order) && id in order && id in s.table && id !in s.running
    requires Due(s.layoutOk, s.now, s.table[id])
    ensures JustLaunched(s, LaunchAll(s, order), id)
    decreases order
  {
    if order[0] == id {
      TimesSnoc(s.launches, Launch(id, s.now), id);
      LaunchLeavesLaunched(s, LaunchIfDue(s, id), order[1..], id);
    } else {
      OtherLaunches(s, order[0], id);
      LaunchLeavesOthers(s, order[0], id);
      LaunchAllJustLaunches(LaunchIfDue(s, order[0]), order[1..], id);
    }
  }

  /** In either layout, a pulse launches every idle one-off task, once. */
  lemma {:induction false} PulseLaunchesOneOffs(s: State, order: seq<nat>, id: nat)
    requires Enabled(s, Pulse(order)) && Idle(s, id) && s.table[id].interval == 0
    ensures JustLaunched(s, Apply(s, Pulse(order)), id)
  {
    LaunchAllJustLaunches(s, order, id);
  }

  /** With a parsed layout, it launches every idle recurring task whose wrapped interval has passed, once. */
  lemma {:induction false} PulseLaunchesRecurring(s: State, order: seq<nat>, id: nat)
    requires TableOk(s) && s.layoutOk && Enabled(s, Pulse(order)) && Idle(s, id) && s.table[id].interval != 0
    requires (s.now - s.table[id].lastRun) * NANOS_PER_SECOND >= Wrapped(s.table[id].interval)
    ensures JustLaunched(s, Apply(s, Pulse(order)), id)
  {
    assert RowOk(s, id);
    DueMeansWrapped(s.now, s.table[id]);
    LaunchAllJustLaunches(s, order, id);
  }

  /** It launches nothing that is running or not selected. */
  lemma {:induction false} PulseLaunchesNoOthers(s: State, order: seq<nat>, id: nat)
    requires Enabled(s, Pulse(order)) && !Idle(s, id)
    ensures Times(Apply(s, Pulse(order)).launches, id) == Times(s.launches, id)
  {
    if id in order {
      RunningNotLaunched(s, order, id);
    } else {
      NotListedNotLaunched(s, order, id);
    }
  }

  lemma {:induction false} RunningNotLaunched(s: State, order: seq<nat>, id: nat)
    requires id in s.running
    ensures Times(LaunchAll(s, order).launches, id) == Times(s.launches, id)
    decreases order
  {
    if order != [] {
      TimesSnoc(s.launches, Launch(order[0], s.now), id);
      RunningNotLaunched(LaunchIfDue(s, order[0]), order[1..], id);
    }
  }

  // A one-off task's one launch.

  /** Nobody writes the row's status or deletes it from outside. */
  ghost predicate LeftAlone(schedule: seq<Step>, id: nat) {
    forall k | 0 <= k < |schedule| :: !Touches(schedule[k], id)
  }

  predicate Touches(a: Step, id: nat) { a == Delete(id) || (a.Update? && a.id == id) }

  /** A pulse is taken on the way. */
  ghost predicate Pulsed(s: State, schedule: seq<Step>)
    decreases schedule
  {
    schedule != []
    && if Enabled(s, schedule[0]) then schedule[0].Pulse? || Pulsed(Apply(s, schedule[0]), schedule[1..])
       else Pulsed(s, schedule[1..])
  }

  /** Waiting for its launch. */
  ghost predicate Waiting(s: State, id: nat) {
    && id in s.births && s.births[id].interval == 0 && id in s.table && id !in s.doomed && id !in s.running
    && s.table[id].status == Pending && s.table[id].completedAt == None && s.table[id].interval == 0
    && Times(s.launches, id) == []
  }

  /** Launched, and not to be launched again without a write from outside. */
  ghost predicate Spent(s: State, id: nat) {
    && id in s.births && s.births[id].interval == 0
    && |Times(s.launches, id)| == 1 && !Armed(s, id)
  }

  lemma {:induction false} RunnerIsRunning(s: State, k: nat)
    requires RunnersOk(s) && k < |s.inFlight|
    ensures s.inFlight[k].id in s.running
  {
  }

  lemma {:induction false} WaitingWaits(s: State, a: Step, id: nat)
    requires TableOk(s) && RunnersOk(s) && Waiting(s, id) && Enabled(s, a) && !a.Pulse? && !Touches(a, id)
    ensures Waiting(Apply(s, a), id)
  {
    if a.RunnerWrite? {
      RunnerIsRunning(s, a.k);
    } else if a.SweepSelect? {
      assert id !in ExpiredIds(s.table, s.now);
    } else if a.Create? {
      assert id < s.nextId;
    }
  }

  lemma {:induction false} WaitingIsLaunched(s: State, order: seq<nat>, id: nat)
    requires TableOk(s) && RunnersOk(s) && Waiting(s, id) && Enabled(s, Pulse(order))
    ensures Spent(Apply(s, Pulse(order)), id)
  {
    var t := Apply(s, Pulse(order));
    PulseLaunchesOneOffs(s, order, id);
    LaunchKeepsLifetimes(s, order);
    LaunchAllRuns(s, order, id);
  }

  /** A runner of `id` is on its way and has not passed its closing write. */
  lemma {:induction false} LaunchAllRuns(s: State, order: seq<nat>, id: nat)
    requires NoDuplicates(order) && (Unwritten(s, id) || (id in order && Idle(s, id) && s.table[id].interval == 0))
    ensures Unwritten(LaunchAll(s, order), id)
    decreases order
  {
    if order != [] {
      var t := LaunchIfDue(s, order[0]);
      if Unwritten(s, id) {
        var i :| 0 <= i < |s.inFlight| && s.inFlight[i].id == id && !s.inFlight[i].written;
        assert t.inFlight[i] == s.inFlight[i];
      } else if order[0] == id {
        assert t.inFlight[|s.inFlight|] == Runner(id, true, false);
      } else {
        OtherLaunches(s, order[0], id);
        LaunchLeavesOthers(s, order[0], id);
      }
      LaunchAllRuns(t, order[1..], id);
    }
  }

  lemma {:induction false} SpentIsNotIdle(s: State, id: nat)
    requires RunnersOk(s) && !Armed(s, id)
    ensures !Idle(s, id)
  {
    if Unwritten(s, id) {
      var i :| 0 <= i < |s.inFlight| && s.inFlight[i].id == id && !s.inFlight[i].written;
      assert s.inFlight[i].id in s.running;
    }
  }

  lemma {:induction false} SpentStaysInPulse(s: State, order: seq<nat>, id: nat)
    requires RunnersOk(s) && Spent(s, id) && Enabled(s, Pulse(order))
    ensures Spent(Apply(s, Pulse(order)), id)
  {
    LaunchKeepsLifetimes(s, order);
    SpentIsNotIdle(s, id);
    PulseLaunchesNoOthers(s, order, id);
    if Unwritten(s, id) {
      LaunchAllRuns(s, order, id);
    } else {
      LaunchAllLeavesTerminal(s, order, id);
    }
  }

  /** A row that is not selected stays as it is. */
  lemma {:induction false} LaunchAllLeavesTerminal(s: State, order: seq<nat>, id: nat)
    requires id !in order
    ensures id in LaunchAll(s, order).table <==> id in s.table
    ensures id in s.table ==> LaunchAll(s, order).table[id] == s.table[id]
    decreases order
  {
    if order != [] { LaunchAllLeavesTerminal(LaunchIfDue(s, order[0]), order[1..], id); }
  }

  lemma {:induction false} SpentStays(s: State, a: Step, id: nat)
    requires TableOk(s) && RunnersOk(s) && Spent(s, id) && Enabled(s, a) && !Touches(a, id)
    ensures Spent(Apply(s, a), id)
  {
    var t := Apply(s, a);
    if a.Pulse? {
      SpentStaysInPulse(s, a.order, id);
    } else if a.RunnerWrite? {
      SpentStaysInWrite(s, a.k, id);
    } else if a.RunnerRemove? {
      SpentStaysInRemove(s, a.k, id);
    } else {
      assert t.inFlight == s.inFlight && t.launches == s.launches;
      assert Unwritten(s, id) ==> Unwritten(t, id);
      assert Armed(t, id) ==> Armed(s, id);
    }
  }

  lemma {:induction false} SpentStaysInWrite(s: State, k: nat, id: nat)
    requires TableOk(s) && RunnersOk(s) && Spent(s, id) && Enabled(s, RunnerWrite(k))
    ensures Spent(Apply(s, RunnerWrite(k)), id)
  {
    var t := Apply(s, RunnerWrite(k));
    if s.inFlight[k].id != id && Unwritten(s, id) {
      var i :| 0 <= i < |s.inFlight| && s.inFlight[i].id == id && !s.inFlight[i].written;
      assert t.inFlight[i] == s.inFlight[i];
    }
  }

  lemma {:induction false} SpentStaysInRemove(s: State, k: nat, id: nat)
    requires Spent(s, id) && Enabled(s, RunnerRemove(k))
    ensures Spent(Apply(s, RunnerRemove(k)), id)
  {
    var t := Apply(s, RunnerRemove(k));
    if Unwritten(s, id) {
      var j :| 0 <= j < |s.inFlight| && s.inFlight[j].id == id && !s.inFlight[j].written;
      assert t.inFlight[if j < k then j else j - 1] == s.inFlight[j];
    }
  }

  lemma {:induction false} SpentForGood(s: State, schedule: seq<Step>, id: nat)
    requires TableOk(s) && RunnersOk(s) && Spent(s, id) && LeftAlone(schedule, id)
    ensures Spent(After(s, schedule), id)
    decreases schedule
  {
    if schedule != [] {
      assert !Touches(schedule[0], id);
      assert LeftAlone(schedule[1..], id);
      if Enabled(s, schedule[0]) {
        StepKeepsInv(s, schedule[0]);
        SpentStays(s, schedule[0], id);
        SpentForGood(Apply(s, schedule[0]), schedule[1..], id);
      } else {
        SpentForGood(s, schedule[1..], id);
      }
    }
  }

  lemma {:induction false} WaitsForPulse(s: State, schedule: seq<Step>, id: nat)
    requires TableOk(s) && RunnersOk(s) && Waiting(s, id) && LeftAlone(schedule, id)
    ensures |Times(After(s, schedule).launches, id)| == if Pulsed(s, schedule) then 1 else 0
    decreases schedule
  {
    if schedule != [] {
      var a := schedule[0];
      assert !Touches(a, id);
      assert LeftAlone(schedule[1..], id);
      if !Enabled(s, a) {
        WaitsForPulse(s, schedule[1..], id);
      } else {
        StepKeepsInv(s, a);
        if a.Pulse? {
          WaitingIsLaunched(s, a.order, id);
          SpentForGood(Apply(s, a), schedule[1..], id);
        } else {
          WaitingWaits(s, a, id);
          WaitsForPulse(Apply(s, a), schedule[1..], id);
        }
      }
    }
  }

  /** Over every run: a one-off task that nobody writes to or deletes is launched exactly once as soon as one pulse
      has passed since its creation, and not before. */
  lemma {:induction false} OneOffLaunchedOnce(layoutOk: bool, start: int, before: seq<Step>, name: string,
                                              prompt: string, kind: TaskType, ttl: int, later: seq<Step>)
    requires name != "" && prompt != ""
    requires LeftAlone(later, After(Init(layoutOk, start), before).nextId)
    ensures var s := After(Init(layoutOk, start), before); var created := Apply(s, Create(name, prompt, kind, ttl, 0));
      |Times(After(created, later).launches, s.nextId)| == if Pulsed(created, later) then 1 else 0
  {
    AfterKeepsLifetimes(Init(layoutOk, start), before);
    AfterKeepsOneOffs(Init(layoutOk, start), before);
    var s := After(Init(layoutOk, start), before);
    var a := Create(name, prompt, kind, ttl, 0);
    StepKeepsInv(s, a);
    FreshIsWaiting(s, a);
    WaitsForPulse(Apply(s, a), later, s.nextId);
  }

  lemma {:induction false} FreshIsWaiting(s: State, a: Step)
    requires LifetimeOk(s) && OneOffsOk(s) && a.Create? && a.name != "" && a.prompt != "" && a.interval == 0
    ensures Waiting(Apply(s, a), s.nextId)
  {
    assert s.nextId !in s.births;
    assert s.nextId in s.doomed ==> Overdue(s, s.nextId);
    RunningIsBorn(s, s.nextId);
  }

  lemma {:induction false} RunningIsBorn(s: State, id: nat)
    requires RunnersOk(s)
    ensures id in s.running ==> id in s.births
  {
    if id in s.running {
      assert HasRunner(s, id);
      var i :| 0 <= i < |s.inFlight| && s.inFlight[i].id == id;
      assert s.inFlight[i].id in s.births;
    }
  }

  // The end of an agent's row.

  /** In every reachable state: an agent's row that was completed longer ago than its time to live, or is running
      and was created longer ago than that, is gone after as many sweeps as clear what has expired. */
  lemma {:induction false} OverdueRowsLeave(layoutOk: bool, start: int, schedule: seq<Step>, id: nat,
                                            sweeps: seq<set<nat>>)
    requires var s := After(Init(layoutOk, start), schedule);
      && id in s.table && s.table[id].kind == AgentTask
      && ((s.table[id].completedAt.Some? && s.now > s.table[id].completedAt.value + 60 * s.table[id].ttl)
          || (s.table[id].status == Running && s.now > s.table[id].createdAt + 60 * s.table[id].ttl))
      && AreSelections(s.table, s.now, sweeps)
      && |sweeps| >= (|ExpiredIds(s.table, s.now)| + SWEEP_LIMIT - 1) / SWEEP_LIMIT
    ensures id !in Swept(After(Init(layoutOk, start), schedule).table, sweeps)
  {
    var s := After(Init(layoutOk, start), schedule);
    TtlBounds(layoutOk, start, schedule, id);
    assert id in ExpiredIds(s.table, s.now);
    SweepsNeeded(s.table, s.now, sweeps);
    SweptKeepsRows(s.table, sweeps);
    assert id in Swept(s.table, sweeps) ==> id in ExpiredIds(Swept(s.table, sweeps), s.now);
  }

  lemma {:induction false} SweptKeepsRows(table: map<nat, Row>, sweeps: seq<set<nat>>)
    ensures forall id | id in Swept(table, sweeps) :: id in table && Swept(table, sweeps)[id] == table[id]
    decreases sweeps
  {
    if sweeps != [] { SweptKeepsRows(table - sweeps[0], sweeps[1..]); }
  }
}
