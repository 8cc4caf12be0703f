/** The heartbeat service as an object: its table and running set are fields that the methods update
    statement by statement. Each method is proved to take the scheduler's step of the same name. */
module Heartbeat {
  import opened Common
  import S = Scheduler
  import TaskLifetime

  class HeartbeatService {
    var table: map<nat, S.Row>
    var nextId: nat
    var runningTasks: set<nat>
    const layoutOk: bool
    ghost var inFlight: seq<S.Runner>
    ghost var births: map<nat, S.Row>
    ghost var launches: seq<S.Launch>
    ghost var writes: seq<nat>

    /** The service as a state of the scheduler, between sweeps. */
    ghost function Snapshot(now: int): S.State
      reads this
    {
      S.State(layoutOk, now, nextId, table, runningTasks, inFlight, {}, births, launches, writes)
    }

    constructor (layoutOk: bool)
      ensures this.layoutOk == layoutOk
      ensures forall now :: Snapshot(now) == S.Init(layoutOk, now)
    {
      this.layoutOk := layoutOk;
      table, nextId, runningTasks := map[], 0, {};
      inFlight, births, launches, writes := [], map[], [], [];
    }

    /** Creating a task, through the service or the agent's tool. `None` is the refusal of an empty name
        or prompt. */
    method CreateTask(now: int, name: string, prompt: string, kind: S.TaskType, ttl: int, interval: int)
      returns (id: Option<nat>)
      modifies this
      ensures Snapshot(now) == S.Apply(old(Snapshot(now)), S.Create(name, prompt, kind, ttl, interval))
      ensures id == if name == "" || prompt == "" then None else Some(old(nextId))
    {
      if name == "" || prompt == "" {
        return None;
      }
      var taskType, ttlMinutes := kind, ttl;
      if taskType.Unset? {
        taskType := S.UserTask;
      }
      if taskType.AgentTask? && ttlMinutes <= 0 {
        ttlMinutes := S.AGENT_DEFAULT_TTL;
      }
      if taskType.UserTask? {
        ttlMinutes := 0;
      }
      if ttlMinutes > S.MAX_TTL {
        ttlMinutes := S.MAX_TTL;
      }
      var row := S.Row(taskType, ttlMinutes, interval, S.Pending, now, now, None);
      id := Some(nextId);
      table, births := table[nextId := row], births[nextId := row];
      nextId := nextId + 1;
    }

    /** The one UPDATE statement behind every status write. */
    method WriteStatus(now: int, id: nat, status: S.Status)
      modifies this`table
      ensures Snapshot(now) == S.SetStatus(old(Snapshot(now)), id, status)
    {
      if id in table {
        if status.Completed? {
          table := table[id := table[id].(status := status, completedAt := Some(now))];
        } else {
          table := table[id := table[id].(status := status)];
        }
      }
    }

    method UpdateTaskStatus(now: int, id: nat, status: S.Status)
      modifies this
      ensures Snapshot(now) == S.Apply(old(Snapshot(now)), S.Update(id, status))
    {
      WriteStatus(now, id, status);
      if !status.Terminal() {
        writes := writes + [id];
      }
    }

    method DeleteTask(now: int, id: nat) returns (deleted: bool)
      modifies this`table
      ensures Snapshot(now) == S.Apply(old(Snapshot(now)), S.Delete(id))
      ensures deleted <==> id in old(table) && !old(table)[id].kind.AgentTask?
    {
      if id !in table || table[id].kind.AgentTask? {
        return false;
      }
      table := table - {id};
      deleted := true;
    }

    /** One row of a pulse: launch it unless it is running or not due. */
    method LaunchTask(now: int, id: nat)
      requires id in table
      modifies this
      ensures Snapshot(now) == S.LaunchIfDue(old(Snapshot(now)), id)
      ensures table.Keys == old(table).Keys
    {
      var row := table[id];
      var lastRun := if layoutOk then row.lastRun else S.ZERO_TIME;
      if id in runningTasks {
        return;
      }
      var shouldRun := false;
      var isOneOff := row.interval == 0;
      if isOneOff {
        shouldRun := true;
      } else if S.Clamp64((now - lastRun) * S.NANOS_PER_SECOND) >= S.Wrap64(row.interval * S.NANOS_PER_MINUTE) {
        shouldRun := true;
      }
      if shouldRun {
        WriteStatus(now, id, S.Running);
        runningTasks := runningTasks + {id};
        table := table[id := table[id].(lastRun := now)];
        inFlight := inFlight + [S.Runner(id, isOneOff, false)];
        launches := launches + [S.Launch(id, now)];
      }
    }

    method Pulse(now: int, pending: seq<nat>)
      requires S.IsOrder(pending, table)
      modifies this
      ensures Snapshot(now) == S.Apply(old(Snapshot(now)), S.Pulse(pending))
    {
      assert forall id | id in pending :: id in table;
      ghost var start := Snapshot(now);
      for i := 0 to |pending|
        invariant S.LaunchAll(start, pending) == S.LaunchAll(Snapshot(now), pending[i..])
        invariant table.Keys == start.table.Keys
      {
        assert pending[i] in pending;
        LaunchTask(now, pending[i]);
      }
    }

    /** The goroutine of the k-th runner, first its closing write, then its removal. */
    method RunnerWrites(now: int, ghost k: nat, id: nat, oneOff: bool)
      requires k < |inFlight| && inFlight[k] == S.Runner(id, oneOff, false)
      modifies this
      ensures Snapshot(now) == S.Apply(old(Snapshot(now)), S.RunnerWrite(k))
    {
      if oneOff {
        WriteStatus(now, id, S.Completed);
      }
      inFlight := inFlight[k := inFlight[k].(written := true)];
    }

    method RunnerLeaves(now: int, ghost k: nat, id: nat)
      requires k < |inFlight| && inFlight[k].id == id && inFlight[k].written
      modifies this
      ensures Snapshot(now) == S.Apply(old(Snapshot(now)), S.RunnerRemove(k))
    {
      runningTasks := runningTasks - {id};
      inFlight := S.Without(inFlight, k);
    }

    /** One uninterrupted cleanup; `doomed` is what the query selected, in its order. */
    method CleanupStaleTasks(now: int, doomed: seq<nat>, ghost picks: set<nat>)
      requires S.IsSelection(picks, S.ExpiredIds(table, now)) && TaskLifetime.Lists(doomed, picks)
      modifies this`table
      ensures table == old(table) - picks
      ensures Snapshot(now) == S.After(old(Snapshot(now)), TaskLifetime.Sweep(picks, doomed))
    {
      TaskLifetime.SweepRemovesPicks(Snapshot(now), picks, doomed);
      ghost var before := table;
      for i := 0 to |doomed|
        invariant table == before - (set k | 0 <= k < i :: doomed[k])
      {
        var id := doomed[i];
        assert id in picks && id in S.ExpiredIds(before, now);
        if id in table && table[id].kind.AgentTask? {
          table := table - {id};
        }
      }
      assert (set k | 0 <= k < |doomed| :: doomed[k]) == picks by {
        forall id ensures id in picks <==> id in set k | 0 <= k < |doomed| :: doomed[k] {
          if id in picks { assert id in doomed; }
          if id in set k | 0 <= k < |doomed| :: doomed[k] { assert id in doomed; }
        }
      }
    }
  }
}
