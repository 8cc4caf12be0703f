/** Who can cancel a run: each session has one slot for the cancel function of its latest run, which a
    later run replaces (cancelling the earlier one) and which a control call takes under the lock and
    fires outside it. Every locked region is one atomic step. Sessions are never deleted. */
module CancelOwnership {
  import opened Common

  type SessionId = string
  type RunId = nat
  type CallId = nat

  /** `slots` is the `Cancel` field of every session, `owner` the session each run was started for;
      `live` are the started runs whose context is not cancelled; `pending` holds the cancel function a
      control call has taken and not yet fired. */
  datatype State = State(slots: map<SessionId, Option<RunId>>, nextRun: RunId, owner: map<RunId, SessionId>,
                         live: set<RunId>, pending: map<CallId, RunId>, nextCall: CallId)

  datatype Step =
    | Start(client: SessionId, generated: SessionId)  // `generated` is used when the client gives no id
    | End(run: RunId)                                 // the deferred cancel of a finished run
    | Expire(run: RunId)                              // the parent context is cancelled
    | Take(session: SessionId)
    | Fire(call: CallId)

  function Init(): State { State(map[], 0, map[], {}, map[], 0) }

  /** The session a run is started for. */
  function Target(s: State, client: SessionId, generated: SessionId): SessionId {
    if client in s.slots then client else if client == "" then generated else client
  }

  predicate Enabled(s: State, a: Step) {
    match a
    case Start(client, generated) => generated != "" && (client in s.slots || client != "" || generated !in s.slots)
    case End(run) => run in s.live
    case Expire(run) => run in s.live
    case Take(session) => session in s.slots
    case Fire(call) => call in s.pending
  }

  function Held(slot: Option<RunId>): set<RunId> { if slot.Some? then {slot.value} else {} }

  function Apply(s: State, a: Step): State
    requires Enabled(s, a)
  {
    match a
    case Start(client, generated) =>
      var id := Target(s, client, generated);
      var previous := if id in s.slots then s.slots[id] else None;
      s.(slots := s.slots[id := Some(s.nextRun)],
         owner := s.owner[s.nextRun := id],
         live := s.live - Held(previous) + {s.nextRun},
         nextRun := s.nextRun + 1)
    case End(run) => s.(live := s.live - {run})
    case Expire(run) => s.(live := s.live - {run})
    case Take(session) =>
      if s.slots[session].Some? then
        s.(slots := s.slots[session := None],
           pending := s.pending[s.nextCall := s.slots[session].value],
           nextCall := s.nextCall + 1)
      else s
    case Fire(call) => s.(live := s.live - {s.pending[call]}, pending := s.pending - {call})
  }

  function After(s: State, schedule: seq<Step>): State
    decreases schedule
  {
    if schedule == [] then s
    else After(if Enabled(s, schedule[0]) then Apply(s, schedule[0]) else s, schedule[1..])
  }

  ghost predicate InSlot(s: State, r: RunId) {
    exists id | id in s.slots :: s.slots[id] == Some(r)
  }

  ghost predicate InPending(s: State, r: RunId) {
    exists c | c in s.pending :: s.pending[c] == r
  }

  /** Every cancel function is in one place at most: its own session's slot or one control call. */
  ghost predicate HeldOnce(s: State) {
    && (forall id | id in s.slots && s.slots[id].Some? ::
          s.slots[id].value in s.owner && s.owner[s.slots[id].value] == id)
    && (forall c | c in s.pending :: c < s.nextCall && s.pending[c] in s.owner && !InSlot(s, s.pending[c]))
    && (forall c, d | c in s.pending && d in s.pending && s.pending[c] == s.pending[d] :: c == d)
  }

  ghost predicate Known(s: State) {
    && (forall r | r in s.owner :: r < s.nextRun && s.owner[r] in s.slots)
    && (forall r | r in s.live :: r in s.owner)
  }

  /** A live run's cancel function is somewhere. */
  ghost predicate Reachable(s: State, r: RunId)
    requires r in s.owner
  {
    InPending(s, r) || (s.owner[r] in s.slots && s.slots[s.owner[r]] == Some(r))
  }

  ghost predicate Inv(s: State) {
    HeldOnce(s) && Known(s) && forall r | r in s.live :: Reachable(s, r)
  }

  lemma {:induction false} StartKeepsInv(s: State, a: Step)
    requires Inv(s) && a.Start? && Enabled(s, a)
    ensures Inv(Apply(s, a))
  {
    var t := Apply(s, a);
    var id := Target(s, a.client, a.generated);
    forall c | c in t.pending ensures !InSlot(t, t.pending[c]) {
      assert !InSlot(s, s.pending[c]);
      forall i | i in t.slots ensures t.slots[i] != Some(t.pending[c]) {
        if i != id { assert s.slots[i] != Some(s.pending[c]); }
      }
    }
    forall r | r in t.live ensures Reachable(t, r) {
      if r != s.nextRun {
        assert Reachable(s, r);
        if InPending(s, r) {
          var c :| c in s.pending && s.pending[c] == r;
          assert t.pending[c] == r;
        }
      }
    }
  }

  lemma {:induction false} TakeKeepsInv(s: State, session: SessionId)
    requires Inv(s) && session in s.slots && s.slots[session].Some?
    ensures Inv(Apply(s, Take(session)))
  {
    var t := Apply(s, Take(session));
    var taken := s.slots[session].value;
    assert InSlot(s, taken);
    forall c | c in t.pending ensures !InSlot(t, t.pending[c]) {
      if c != s.nextCall { assert !InSlot(s, s.pending[c]); }
    }
    forall r | r in t.live ensures Reachable(t, r) {
      assert Reachable(s, r);
      if r == taken {
        assert t.pending[s.nextCall] == r;
      } else if InPending(s, r) {
        var c :| c in s.pending && s.pending[c] == r;
        assert t.pending[c] == r;
      }
    }
  }

  lemma {:induction false} StepKeepsInv(s: State, a: Step)
    requires Inv(s) && Enabled(s, a)
    ensures Inv(Apply(s, a))
  {
    if a.Start? {
      StartKeepsInv(s, a);
    } else if a.Take? && s.slots[a.session].Some? {
      TakeKeepsInv(s, a.session);
    } else {
      var t := Apply(s, a);
      assert t.slots == s.slots;
      forall c | c in t.pending ensures !InSlot(t, t.pending[c]) {
        assert !InSlot(s, s.pending[c]);
      }
      forall r | r in t.live ensures Reachable(t, r) {
        assert Reachable(s, r);
        if InPending(s, r) {
          var c :| c in s.pending && s.pending[c] == r;
          assert t.pending[c] == r;
        }
      }
    }
  }

  lemma {:induction false} AfterKeepsInv(s: State, schedule: seq<Step>)
    requires Inv(s)
    ensures Inv(After(s, schedule))
    decreases schedule
  {
    if schedule != [] {
      if Enabled(s, schedule[0]) {
        StepKeepsInv(s, schedule[0]);
        AfterKeepsInv(Apply(s, schedule[0]), schedule[1..]);
      } else {
        AfterKeepsInv(s, schedule[1..]);
      }
    }
  }

  /** In every interleaving, a live run's cancel function is held by its session's slot or by exactly one
      control call about to fire it, and never by both. */
  lemma {:induction false} EveryLiveRunIsOwned(schedule: seq<Step>, r: RunId)
    requires r in After(Init(), schedule).live
    ensures var s := After(Init(), schedule);
            && r in s.owner && s.owner[r] in s.slots
            && (InPending(s, r) <==> s.slots[s.owner[r]] != Some(r))
            && (forall id | id in s.slots && s.slots[id] == Some(r) :: id == s.owner[r])
            && (forall c, d | c in s.pending && d in s.pending && s.pending[c] == r && s.pending[d] == r :: c == d)
  {
    AfterKeepsInv(Init(), schedule);
    var s := After(Init(), schedule);
    assert Reachable(s, r);
    if s.slots[s.owner[r]] == Some(r) { assert InSlot(s, r); }
  }

  /** With no control call pending on a session, at most one of its runs is live. */
  lemma {:induction false} OneLiveRunPerSession(schedule: seq<Step>, q: RunId, r: RunId)
    requires var s := After(Init(), schedule);
             && q in s.live && r in s.live && q in s.owner && r in s.owner && s.owner[q] == s.owner[r]
             && forall c | c in s.pending :: s.pending[c] != q && s.pending[c] != r
    ensures q == r
  {
    EveryLiveRunIsOwned(schedule, q);
    EveryLiveRunIsOwned(schedule, r);
  }

  /** A control call that finds the slot empty and answers that the task is already stopped is right, up
      to calls that have taken a run and are about to fire. */
  lemma {:induction false} EmptySlotMeansStopped(schedule: seq<Step>, session: SessionId, r: RunId)
    requires var s := After(Init(), schedule);
             session in s.slots && s.slots[session] == None && r in s.live && r in s.owner && s.owner[r] == session
    ensures InPending(After(Init(), schedule), r)
  {
    EveryLiveRunIsOwned(schedule, r);
  }

  /** A control call holds `r` until it fires, whatever happens meanwhile. */
  lemma {:induction false} HeldUntilFired(s: State, schedule: seq<Step>, c: CallId, r: RunId)
    requires c in s.pending && s.pending[c] == r && c < s.nextCall
    requires Fire(c) !in schedule
    ensures var t := After(s, schedule); c in t.pending && t.pending[c] == r
    decreases schedule
  {
    if schedule != [] {
      assert schedule[0] != Fire(c);
      HeldUntilFired(if Enabled(s, schedule[0]) then Apply(s, schedule[0]) else s, schedule[1..], c, r);
    }
  }

  /** A run that was started and is not live never gets live again. */
  lemma {:induction false} StoppedForGood(s: State, schedule: seq<Step>, r: RunId)
    requires r < s.nextRun && r !in s.live
    ensures r !in After(s, schedule).live
    decreases schedule
  {
    if schedule != [] {
      StoppedForGood(if Enabled(s, schedule[0]) then Apply(s, schedule[0]) else s, schedule[1..], r);
    }
  }

  lemma {:induction false} AfterGrows(s: State, schedule: seq<Step>)
    ensures s.nextRun <= After(s, schedule).nextRun
    decreases schedule
  {
    if schedule != [] {
      AfterGrows(if Enabled(s, schedule[0]) then Apply(s, schedule[0]) else s, schedule[1..]);
    }
  }

  /** A control call takes the run in a session's slot, anything else happens, the call fires, anything else
      happens: the fire stops that run and no other, and the run is stopped for good. */
  lemma {:induction false} TakeThenFireStops(before: seq<Step>, session: SessionId, between: seq<Step>,
                                             later: seq<Step>)
    requires var s := After(Init(), before); session in s.slots && s.slots[session].Some?
    requires Fire(After(Init(), before).nextCall) !in between
    ensures var s := After(Init(), before); var c, r := s.nextCall, s.slots[session].value;
      var t := After(Apply(s, Take(session)), between);
      && Enabled(t, Fire(c)) && Apply(t, Fire(c)).live == t.live - {r}
      && r !in After(Apply(t, Fire(c)), later).live
  {
    var s := After(Init(), before);
    var c, r := s.nextCall, s.slots[session].value;
    AfterKeepsInv(Init(), before);
    HeldUntilFired(Apply(s, Take(session)), between, c, r);
    var t := After(Apply(s, Take(session)), between);
    AfterGrows(Apply(s, Take(session)), between);
    StoppedForGood(Apply(t, Fire(c)), later, r);
  }

  lemma {:induction false} NamelessHasNoSlot(s: State, schedule: seq<Step>)
    requires "" !in s.slots
    ensures "" !in After(s, schedule).slots
    decreases schedule
  {
    if schedule != [] {
      NamelessHasNoSlot(if Enabled(s, schedule[0]) then Apply(s, schedule[0]) else s, schedule[1..]);
    }
  }

  /** A start on session `id` makes a new run that takes over the session's slot; the run that was there stops,
      and no other run, slot or control call is touched. */
  ghost predicate TakesOver(s: State, t: State, id: SessionId, r: RunId) {
    && r !in s.live && r in t.live && t.slots.Keys == s.slots.Keys + {id} && t.slots[id] == Some(r)
    && r in t.owner && t.owner[r] == id
    && (forall q | q != r :: q in t.live <==> q in s.live && !(id in s.slots && s.slots[id] == Some(q)))
    && (forall i | i in s.slots && i != id :: i in t.slots && t.slots[i] == s.slots[i])
    && t.pending == s.pending
  }

  /** A run started with an id takes over the session of that id, be it there or new; one started without an id
      gets a session of its own. A run of the session that was live before stays live only if a control call is
      about to stop it, and what the start stops is stopped for good. */
  lemma {:induction false} StartTakesOver(before: seq<Step>, client: SessionId, generated: SessionId, later: seq<Step>,
                                          q: RunId)
    requires Enabled(After(Init(), before), Start(client, generated))
    ensures var s := After(Init(), before); var t := Apply(s, Start(client, generated));
      var id := if client == "" then generated else client;
      && TakesOver(s, t, id, s.nextRun)
      && (client == "" ==> id !in s.slots)
      && (q in t.live && q != s.nextRun ==> q in t.owner && (t.owner[q] == id ==> InPending(t, q)))
      && (id in s.slots && s.slots[id] == Some(q) ==> q !in After(t, later).live)
  {
    var s := After(Init(), before);
    var t := Apply(s, Start(client, generated));
    NamelessHasNoSlot(Init(), before);
    AfterKeepsInv(Init(), before);
    StartKeepsInv(s, Start(client, generated));
    var id := if client == "" then generated else client;
    assert Target(s, client, generated) == id;
    if q in t.live && q != s.nextRun && t.owner[q] == id { assert Reachable(t, q); }
    if id in s.slots && s.slots[id] == Some(q) {
      assert InSlot(s, q);
      StoppedForGood(t, later, q);
    }
  }
}
