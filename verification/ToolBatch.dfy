/** One batch of tool calls running in parallel: a worker per named call, a semaphore of four slots,
    a wait group and a shared result list, as interleaved atomic steps. A schedule is any list of
    steps; a step that is not enabled when its turn comes is not taken. */
module ToolBatch {
  import opened Common
  import opened Messages

  const MAX_PARALLEL_TOOLS: nat := 4

  /** Where the worker of one call is. `Skipped` is a call without a function name, which gets no worker.
      `Leaving` has finished its body but still holds its slot; `Released` has yet to tell the wait group. */
  datatype Phase = NotSpawned | Skipped | Waiting | Holding | Executing | Leaving | Released | Done
  {
    predicate Holds() { Holding? || Executing? || Leaving? }
    predicate Live() { Waiting? || Released? || Holds() }
    predicate Over() { Leaving? || Released? || Done? }
    function Weight(): nat {
      match this
      case NotSpawned => 6
      case Waiting => 5
      case Holding => 4
      case Executing => 3
      case Leaving => 2
      case Released => 1
      case Skipped => 0
      case Done => 0
    }
  }

  datatype Result = Result(index: nat, message: Message)

  datatype Batch = Batch(calls: seq<ToolCall>, next: nat, phase: seq<Phase>, sem: nat, wg: nat,
                         cancelled: bool, results: seq<Result>)

  datatype Step =
    | Spawn
    | Acquire(i: nat)   // the worker gets a slot
    | Abort(i: nat)     // it sees the cancellation while waiting for one
    | Start(i: nat)     // it checks for a cancellation and starts the tool
    | GiveUp(i: nat)    // or it checks, and gives up
    | Report(i: nat, output: string, images: seq<string>)
    | Release(i: nat)
    | Finish(i: nat)
    | Cancel            // the batch's time is over or the session is cancelled

  function Init(calls: seq<ToolCall>): Batch {
    Batch(calls, 0, seq(|calls|, _ => NotSpawned), 0, 0, false, [])
  }

  predicate At(s: Batch, i: nat, p: Phase) {
    i < |s.phase| && i < |s.calls| && s.phase[i] == p
  }

  predicate Enabled(s: Batch, a: Step) {
    match a
    case Spawn => s.next < |s.calls| && s.next < |s.phase|
    case Acquire(i) => At(s, i, Waiting) && s.sem < MAX_PARALLEL_TOOLS
    case Abort(i) => At(s, i, Waiting) && s.cancelled && s.wg > 0
    case Start(i) => At(s, i, Holding) && !s.cancelled
    case GiveUp(i) => At(s, i, Holding) && s.cancelled
    case Report(i, _, _) => At(s, i, Executing)
    case Release(i) => At(s, i, Leaving) && s.sem > 0
    case Finish(i) => At(s, i, Released) && s.wg > 0
    case Cancel => !s.cancelled
  }

  function Apply(s: Batch, a: Step): Batch
    requires Enabled(s, a)
  {
    match a
    case Spawn =>
      if s.calls[s.next].name == "" then s.(next := s.next + 1, phase := s.phase[s.next := Skipped])
      else s.(next := s.next + 1, phase := s.phase[s.next := Waiting], wg := s.wg + 1)
    case Acquire(i) => s.(phase := s.phase[i := Holding], sem := s.sem + 1)
    case Abort(i) => s.(phase := s.phase[i := Done], wg := s.wg - 1)
    case Start(i) => s.(phase := s.phase[i := Executing])
    case GiveUp(i) => s.(phase := s.phase[i := Leaving])
    case Report(i, output, images) =>
      s.(phase := s.phase[i := Leaving],
         results := s.results + [Result(i, ToolMessage(s.calls[i], output, images))])
    case Release(i) => s.(phase := s.phase[i := Released], sem := s.sem - 1)
    case Finish(i) => s.(phase := s.phase[i := Done], wg := s.wg - 1)
    case Cancel => s.(cancelled := true)
  }

  function After(s: Batch, schedule: seq<Step>): Batch
    decreases schedule
  {
    if schedule == [] then s
    else After(if Enabled(s, schedule[0]) then Apply(s, schedule[0]) else s, schedule[1..])
  }

  /** All calls are spawned and the wait group is down to zero: the batch reports `done`. */
  predicate Finished(s: Batch) { s.next == |s.calls| && s.wg == 0 }

  // Counting workers.

  function Count(ps: seq<Phase>, f: Phase -> bool): nat {
    if ps == [] then 0 else (if f(ps[0]) then 1 else 0) + Count(ps[1..], f)
  }

  const HOLDS: Phase -> bool := (p: Phase) => p.Holds()
  const LIVE: Phase -> bool := (p: Phase) => p.Live()
  const EXECUTES: Phase -> bool := (p: Phase) => p.Executing?

  lemma {:induction false} CountUpdate(ps: seq<Phase>, i: nat, p: Phase, f: Phase -> bool)
    requires i < |ps|
    ensures Count(ps[i := p], f) == Count(ps, f) - (if f(ps[i]) then 1 else 0) + (if f(p) then 1 else 0)
  {
    if i > 0 {
      assert ps[i := p][1..] == ps[1..][i - 1 := p];
      CountUpdate(ps[1..], i - 1, p, f);
    } else {
      assert ps[0 := p][1..] == ps[1..];
    }
  }

  lemma {:induction false} CountPositive(ps: seq<Phase>, f: Phase -> bool) returns (i: nat)
    requires Count(ps, f) > 0
    ensures i < |ps| && f(ps[i])
  {
    if f(ps[0]) { i := 0; } else { i := CountPositive(ps[1..], f); i := i + 1; }
  }

  lemma {:induction false} CountNone(ps: seq<Phase>, f: Phase -> bool)
    requires Count(ps, f) == 0
    ensures forall i | 0 <= i < |ps| :: !f(ps[i])
  {
    if ps != [] {
      CountNone(ps[1..], f);
      forall i | 0 <= i < |ps| ensures !f(ps[i]) {
        if i > 0 { assert ps[i] == ps[1..][i - 1]; }
      }
    }
  }

  lemma {:induction false} CountMonotone(ps: seq<Phase>, f: Phase -> bool, g: Phase -> bool)
    requires forall p :: f(p) ==> g(p)
    ensures Count(ps, f) <= Count(ps, g)
  {
    if ps != [] { CountMonotone(ps[1..], f, g); }
  }

  lemma {:induction false} CountFresh(n: nat, f: Phase -> bool)
    requires !f(NotSpawned)
    ensures Count(seq(n, _ => NotSpawned), f) == 0
  {
    if n > 0 {
      assert seq(n, _ => NotSpawned)[1..] == seq(n - 1, _ => NotSpawned);
      CountFresh(n - 1, f);
    }
  }

  // The invariant.

  ghost predicate HasResult(s: Batch, i: nat) {
    exists k | 0 <= k < |s.results| :: s.results[k].index == i
  }

  ghost predicate WorkersOk(s: Batch) {
    && |s.phase| == |s.calls| && s.next <= |s.calls|
    && (forall i | 0 <= i < |s.calls| :: s.phase[i].NotSpawned? <==> s.next <= i)
    && (forall i | 0 <= i < s.next :: s.phase[i].Skipped? <==> s.calls[i].name == "")
  }

  ghost predicate CountsOk(s: Batch) {
    s.sem == Count(s.phase, HOLDS) && s.wg == Count(s.phase, LIVE) && s.sem <= MAX_PARALLEL_TOOLS
  }

  /** `r` is the answer to the call it names. */
  predicate Genuine(calls: seq<ToolCall>, r: Result) {
    && r.index < |calls| && calls[r.index].name != ""
    && r.message == ToolMessage(calls[r.index], r.message.content, r.message.images)
  }

  /** Results belong to distinct workers that are over. */
  ghost predicate ResultsOk(s: Batch) {
    && |s.phase| == |s.calls|
    && (forall k | 0 <= k < |s.results| :: Genuine(s.calls, s.results[k]) && s.phase[s.results[k].index].Over())
    && (forall k, l | 0 <= k < l < |s.results| :: s.results[k].index != s.results[l].index)
  }

  /** Unless cancelled, every worker that is over left a result. */
  ghost predicate Complete(s: Batch) {
    !s.cancelled ==> forall i | 0 <= i < |s.phase| && s.phase[i].Over() :: HasResult(s, i)
  }

  ghost predicate Inv(s: Batch) { WorkersOk(s) && CountsOk(s) && ResultsOk(s) && Complete(s) }

  lemma {:induction false} InitInv(calls: seq<ToolCall>)
    ensures Inv(Init(calls))
  {
    CountFresh(|calls|, HOLDS);
    CountFresh(|calls|, LIVE);
  }

  lemma {:induction false} StepKeepsCounts(s: Batch, a: Step)
    requires Inv(s) && Enabled(s, a)
    ensures CountsOk(Apply(s, a))
  {
    if !a.Cancel? {
      var i := if a.Spawn? then s.next else a.i;
      var p := Apply(s, a).phase[i];
      StepCounts(s, a, i);
      CountUpdate(s.phase, i, p, HOLDS);
      CountUpdate(s.phase, i, p, LIVE);
    }
  }

  /** A step moves one worker on, and the semaphore and the wait group with it. */
  lemma {:induction false} StepCounts(s: Batch, a: Step, i: nat)
    requires WorkersOk(s) && Enabled(s, a) && !a.Cancel? && i == if a.Spawn? then s.next else a.i
    requires s.sem <= MAX_PARALLEL_TOOLS
    ensures var t := Apply(s, a);
      && i < |s.phase| == |t.phase| && t.phase == s.phase[i := t.phase[i]]
      && t.sem == s.sem - One(s.phase[i].Holds()) + One(t.phase[i].Holds()) && t.sem <= MAX_PARALLEL_TOOLS
      && t.wg == s.wg - One(s.phase[i].Live()) + One(t.phase[i].Live())
  {
  }

  function One(b: bool): nat { if b then 1 else 0 }

  lemma {:induction false} StepKeepsResults(s: Batch, a: Step)
    requires WorkersOk(s) && ResultsOk(s) && Enabled(s, a)
    ensures ResultsOk(Apply(s, a))
  {
    var t := Apply(s, a);
    forall k | 0 <= k < |s.results|
      ensures Genuine(t.calls, s.results[k]) && t.phase[s.results[k].index].Over()
      ensures a.Report? ==> s.results[k].index != a.i
    {
      assert Genuine(s.calls, s.results[k]) && s.phase[s.results[k].index].Over();
    }
    if a.Report? {
      assert t.results == s.results + [t.results[|s.results|]];
    } else {
      assert t.results == s.results;
    }
  }

  lemma {:induction false} StepKeepsComplete(s: Batch, a: Step)
    requires |s.phase| == |s.calls| && Complete(s) && Enabled(s, a)
    ensures Complete(Apply(s, a))
  {
    var t := Apply(s, a);
    if !t.cancelled {
      forall i | 0 <= i < |t.phase| && t.phase[i].Over() ensures HasResult(t, i) {
        if a.Report? && a.i == i {
          assert t.results[|s.results|].index == i;
        } else {
          assert HasResult(s, i);
          var k :| 0 <= k < |s.results| && s.results[k].index == i;
          assert t.results[k].index == i;
        }
      }
    }
  }

  lemma {:induction false} StepKeepsWorkers(s: Batch, a: Step)
    requires WorkersOk(s) && Enabled(s, a)
    ensures WorkersOk(Apply(s, a))
  {
  }

  lemma {:induction false} StepKeepsInv(s: Batch, a: Step)
    requires Inv(s) && Enabled(s, a)
    ensures Inv(Apply(s, a))
  {
    StepKeepsWorkers(s, a);
    StepKeepsCounts(s, a);
    StepKeepsResults(s, a);
    StepKeepsComplete(s, a);
  }

  lemma {:induction false} AfterKeepsInv(s: Batch, schedule: seq<Step>)
    requires Inv(s)
    ensures Inv(After(s, schedule)) && After(s, schedule).calls == s.calls
    decreases schedule
  {
    if schedule != [] {
      if Enabled(s, schedule[0]) {
        StepKeepsInv(s, schedule[0]);
        AfterKeepsInv(Apply(s, schedule[0]), schedule[1..]);
      } else {
        AfterKeepsInv(s, schedule[1..]);
      }
    }
  }

  // Results, for every batch and every schedule.

  /** At most four tools execute at once; the semaphore's occupancy is the number of workers between
      acquire and release, the wait group's the number of unfinished workers. */
  lemma {:induction false} AtMostFourExecute(calls: seq<ToolCall>, schedule: seq<Step>)
    ensures var s := After(Init(calls), schedule);
            && s.sem == Count(s.phase, HOLDS) && s.wg == Count(s.phase, LIVE)
            && Count(s.phase, EXECUTES) <= s.sem <= MAX_PARALLEL_TOOLS
  {
    InitInv(calls);
    AfterKeepsInv(Init(calls), schedule);
    CountMonotone(After(Init(calls), schedule).phase, EXECUTES, HOLDS);
  }

  ghost predicate AllGenuine(calls: seq<ToolCall>, results: seq<Result>) {
    && (forall k | 0 <= k < |results| :: Genuine(calls, results[k]))
    && (forall k, l | 0 <= k < l < |results| :: results[k].index != results[l].index)
  }

  /** At any time the results come from distinct named calls and carry their name and id. */
  lemma {:induction false} ResultsAreGenuine(calls: seq<ToolCall>, schedule: seq<Step>)
    ensures AllGenuine(calls, After(Init(calls), schedule).results)
  {
    InitInv(calls);
    AfterKeepsInv(Init(calls), schedule);
  }

  function Indices(rs: seq<Result>): seq<nat> {
    seq(|rs|, k requires 0 <= k < |rs| => rs[k].index)
  }

  /** The positions below `n` whose call names a function. */
  function Named(calls: seq<ToolCall>, n: nat): seq<nat>
    requires n <= |calls|
  {
    if n == 0 then [] else Named(calls, n - 1) + (if calls[n - 1].name == "" then [] else [n - 1])
  }

  lemma {:induction false} NamedIsExact(calls: seq<ToolCall>, n: nat)
    requires n <= |calls|
    ensures NoDuplicates(Named(calls, n))
    ensures forall i: nat :: i in Named(calls, n) <==> i < n && calls[i].name != ""
  {
    if n > 0 {
      NamedIsExact(calls, n - 1);
      forall k, l | 0 <= k < l < |Named(calls, n)| ensures Named(calls, n)[k] != Named(calls, n)[l] {
        assert Named(calls, n)[k] == Named(calls, n - 1)[k];
        assert Named(calls, n)[k] in Named(calls, n - 1);
      }
    }
  }

  lemma {:induction false} MultisetOfDistinct(s: seq<nat>, x: nat)
    requires NoDuplicates(s)
    ensures multiset(s)[x] == if x in s then 1 else 0
  {
    if s != [] {
      var front, last := s[..|s| - 1], s[|s| - 1];
      assert s == front + [last];
      MultisetOfDistinct(front, x);
      assert last !in front;
    }
  }

  lemma {:induction false} SameElementsSameMultiset(s: seq<nat>, t: seq<nat>)
    requires NoDuplicates(s) && NoDuplicates(t)
    requires forall x: nat :: x in s <==> x in t
    ensures multiset(s) == multiset(t)
  {
    forall x: nat ensures multiset(s)[x] == multiset(t)[x] {
      MultisetOfDistinct(s, x);
      MultisetOfDistinct(t, x);
    }
  }

  lemma {:induction false} IndexWhenResult(s: Batch, i: nat)
    ensures i in Indices(s.results) <==> HasResult(s, i)
  {
    var found := Indices(s.results);
    if i in found {
      var k :| 0 <= k < |found| && found[k] == i;
      assert s.results[k].index == i;
    }
    if HasResult(s, i) {
      var k :| 0 <= k < |s.results| && s.results[k].index == i;
      assert found[k] == i;
    }
  }

  lemma {:induction false} ResultWhenNamed(s: Batch, i: nat)
    requires Inv(s) && Finished(s) && !s.cancelled
    requires forall j | 0 <= j < |s.phase| :: !LIVE(s.phase[j])
    ensures HasResult(s, i) <==> i < |s.calls| && s.calls[i].name != ""
  {
    if HasResult(s, i) {
      var k :| 0 <= k < |s.results| && s.results[k].index == i;
      assert Genuine(s.calls, s.results[k]);
    }
    if i < |s.calls| && s.calls[i].name != "" {
      assert s.phase[i].Over();
    }
  }

  /** A batch that finishes uncancelled has exactly one result for each named call, in some order. */
  lemma {:induction false} FinishedIsPermutation(calls: seq<ToolCall>, schedule: seq<Step>)
    requires Finished(After(Init(calls), schedule)) && !After(Init(calls), schedule).cancelled
    ensures multiset(Indices(After(Init(calls), schedule).results)) == multiset(Named(calls, |calls|))
  {
    var s := After(Init(calls), schedule);
    InitInv(calls);
    AfterKeepsInv(Init(calls), schedule);
    CountNone(s.phase, LIVE);
    NamedIsExact(calls, |calls|);
    var found := Indices(s.results);
    forall i: nat ensures i in found <==> i in Named(calls, |calls|) {
      IndexWhenResult(s, i);
      ResultWhenNamed(s, i);
    }
    SameElementsSameMultiset(found, Named(calls, |calls|));
  }

  // Termination: every step taken brings the batch closer to its end, and until then one can be taken.

  function Weights(ps: seq<Phase>): nat {
    if ps == [] then 0 else ps[0].Weight() + Weights(ps[1..])
  }

  function Measure(s: Batch): nat { Weights(s.phase) + if s.cancelled then 0 else 1 }

  lemma {:induction false} WeightsUpdate(ps: seq<Phase>, i: nat, p: Phase)
    requires i < |ps|
    ensures Weights(ps[i := p]) == Weights(ps) - ps[i].Weight() + p.Weight()
  {
    if i > 0 {
      assert ps[i := p][1..] == ps[1..][i - 1 := p];
      WeightsUpdate(ps[1..], i - 1, p);
    } else {
      assert ps[0 := p][1..] == ps[1..];
    }
  }

  lemma {:induction false} PhaseGetsLighter(s: Batch, a: Step, i: nat)
    requires WorkersOk(s) && Enabled(s, a) && !a.Cancel? && i == if a.Spawn? then s.next else a.i
    ensures var t := Apply(s, a); i < |s.phase| && t.phase == s.phase[i := t.phase[i]] && t.cancelled == s.cancelled
    ensures Apply(s, a).phase[i].Weight() < s.phase[i].Weight()
  {
  }

  lemma {:induction false} StepDecreases(s: Batch, a: Step)
    requires WorkersOk(s) && Enabled(s, a)
    ensures Measure(Apply(s, a)) < Measure(s)
  {
    if !a.Cancel? {
      var i := if a.Spawn? then s.next else a.i;
      PhaseGetsLighter(s, a, i);
      WeightsUpdate(s.phase, i, Apply(s, a).phase[i]);
    }
  }

  function Taken(s: Batch, schedule: seq<Step>): nat
    decreases schedule
  {
    if schedule == [] then 0
    else if Enabled(s, schedule[0]) then 1 + Taken(Apply(s, schedule[0]), schedule[1..])
    else Taken(s, schedule[1..])
  }

  lemma {:induction false} TakenAtMostMeasure(s: Batch, schedule: seq<Step>)
    requires Inv(s)
    ensures Taken(s, schedule) + Measure(After(s, schedule)) <= Measure(s)
    decreases schedule
  {
    if schedule != [] {
      if Enabled(s, schedule[0]) {
        StepKeepsInv(s, schedule[0]);
        StepDecreases(s, schedule[0]);
        TakenAtMostMeasure(Apply(s, schedule[0]), schedule[1..]);
      } else {
        TakenAtMostMeasure(s, schedule[1..]);
      }
    }
  }

  lemma {:induction false} InitWeights(n: nat)
    ensures Weights(seq(n, _ => NotSpawned)) == 6 * n
  {
    if n > 0 {
      assert seq(n, _ => NotSpawned)[1..] == seq(n - 1, _ => NotSpawned);
      InitWeights(n - 1);
    }
  }

  /** No schedule takes more than six steps per call plus one, and a batch that is not finished always
      has a step to take that is no cancellation: there is no deadlock and no endless run. */
  lemma {:induction false} BatchTerminates(calls: seq<ToolCall>, schedule: seq<Step>)
    ensures Taken(Init(calls), schedule) <= 6 * |calls| + 1
    ensures var s := After(Init(calls), schedule);
            !Finished(s) ==> exists a: Step :: !a.Cancel? && Enabled(s, a)
  {
    InitInv(calls);
    InitWeights(|calls|);
    TakenAtMostMeasure(Init(calls), schedule);
    AfterKeepsInv(Init(calls), schedule);
    var s := After(Init(calls), schedule);
    if !Finished(s) {
      var a := NextStep(s);
    }
  }

  lemma {:induction false} NextStep(s: Batch) returns (a: Step)
    requires Inv(s) && !Finished(s)
    ensures !a.Cancel? && Enabled(s, a)
  {
    if s.next < |s.calls| { return Spawn; }
    if s.sem > 0 {
      var i := CountPositive(s.phase, HOLDS);
      match s.phase[i] {
        case Holding => a := if s.cancelled then GiveUp(i) else Start(i);
        case Executing => a := Report(i, "", []);
        case Leaving => a := Release(i);
      }
    } else {
      var i := CountPositive(s.phase, LIVE);
      if s.phase[i].Holds() {
        CountNone(s.phase, HOLDS);
        assert false;
      }
      a := if s.phase[i].Waiting? then Acquire(i) else Finish(i);
    }
  }

  /** The messages the batch appends to the history. */
  function Outputs(s: Batch): seq<Message> {
    seq(|s.results|, k requires 0 <= k < |s.results| => s.results[k].message)
  }

  /** Every tool message of a batch answers the assistant message whose calls the batch ran. */
  lemma {:induction false} OutputsAnswer(calls: seq<ToolCall>, schedule: seq<Step>, content: string)
    ensures AllAnswer(Outputs(After(Init(calls), schedule)), AssistantMessage(content, calls))
  {
    ResultsAreGenuine(calls, schedule);
    var s := After(Init(calls), schedule);
    forall k | 0 <= k < |s.results|
      ensures Outputs(s)[k].role.Tool? && Outputs(s)[k].toolCalls == []
              && Answers(Outputs(s)[k], AssistantMessage(content, calls))
    {
      assert Genuine(calls, s.results[k]);
      var i := s.results[k].index;
      assert AssistantMessage(content, calls).toolCalls[i].name == Outputs(s)[k].name;
    }
  }

  // What the results say.

  lemma {:induction false} AfterSnoc(s: Batch, schedule: seq<Step>, n: nat)
    requires n < |schedule|
    ensures var t := After(s, schedule[..n]);
      After(s, schedule[..n + 1]) == if Enabled(t, schedule[n]) then Apply(t, schedule[n]) else t
    decreases n
  {
    if n == 0 {
      assert schedule[..1] == [schedule[0]] && [schedule[0]][1..] == [];
    } else {
      assert schedule[..n + 1][1..] == schedule[1..][..n] && schedule[..n][1..] == schedule[1..][..n - 1];
      AfterSnoc(if Enabled(s, schedule[0]) then Apply(s, schedule[0]) else s, schedule[1..], n - 1);
    }
  }

  /** At step `n` a running tool hands in its output. */
  predicate ReportsAt(calls: seq<ToolCall>, schedule: seq<Step>, n: nat)
    requires n < |schedule|
  {
    schedule[n].Report? && Enabled(After(Init(calls), schedule[..n]), schedule[n])
  }

  /** The steps below `n` at which a tool hands in its output, in order. */
  function ReportSteps(calls: seq<ToolCall>, schedule: seq<Step>, n: nat): (r: seq<nat>)
    requires n <= |schedule|
    ensures forall k | 0 <= k < |r| :: r[k] < n && ReportsAt(calls, schedule, r[k])
    ensures forall k, l | 0 <= k < l < |r| :: r[k] < r[l]
  {
    if n == 0 then []
    else ReportSteps(calls, schedule, n - 1) + (if ReportsAt(calls, schedule, n - 1) then [n - 1] else [])
  }

  /** The result is the output handed in at step `n`, under the name and id of its call. */
  predicate Hands(calls: seq<ToolCall>, schedule: seq<Step>, n: nat, r: Result)
    requires n < |schedule|
  {
    && schedule[n] == Report(r.index, r.message.content, r.message.images)
    && r.index < |calls|
    && r.message.role == Tool && r.message.name == calls[r.index].name && r.message.toolCallId == calls[r.index].id
    && r.message.toolCalls == []
  }

  ghost predicate AllHand(calls: seq<ToolCall>, schedule: seq<Step>, steps: seq<nat>, results: seq<Result>) {
    && |steps| == |results|
    && forall k | 0 <= k < |steps| :: steps[k] < |schedule| && Hands(calls, schedule, steps[k], results[k])
  }

  /** For every schedule, the results are what the tools handed in, one for each such step and in that order. */
  lemma {:induction false} ResultsAreReports(calls: seq<ToolCall>, schedule: seq<Step>, n: nat)
    requires n <= |schedule|
    ensures var s := After(Init(calls), schedule[..n]);
      s.calls == calls && AllHand(calls, schedule, ReportSteps(calls, schedule, n), s.results)
  {
    if n > 0 {
      ResultsAreReports(calls, schedule, n - 1);
      AfterSnoc(Init(calls), schedule, n - 1);
      StepReports(After(Init(calls), schedule[..n - 1]), schedule, n - 1, ReportSteps(calls, schedule, n - 1));
    } else {
      assert schedule[..0] == [];
    }
  }

  lemma {:induction false} StepReports(s: Batch, schedule: seq<Step>, n: nat, steps: seq<nat>)
    requires n < |schedule| && AllHand(s.calls, schedule, steps, s.results)
    ensures var t := if Enabled(s, schedule[n]) then Apply(s, schedule[n]) else s;
      var more := if Enabled(s, schedule[n]) && schedule[n].Report? then [n] else [];
      t.calls == s.calls && AllHand(s.calls, schedule, steps + more, t.results)
  {
    if Enabled(s, schedule[n]) && schedule[n].Report? {
      var t := Apply(s, schedule[n]);
      forall k | 0 <= k < |steps + [n]| ensures Hands(s.calls, schedule, (steps + [n])[k], t.results[k]) {
        assert k < |steps| ==> Hands(s.calls, schedule, steps[k], s.results[k]);
      }
    } else {
      assert steps + [] == steps;
    }
  }

  /** What the tools handed in at these steps, as messages. */
  function Reported(calls: seq<ToolCall>, schedule: seq<Step>): seq<Message> {
    var steps := ReportSteps(calls, schedule, |schedule|);
    seq(|steps|, k requires 0 <= k < |steps| => HandedIn(calls, schedule[steps[k]]))
  }

  function HandedIn(calls: seq<ToolCall>, a: Step): Message {
    if a.Report? && a.i < |calls| then Message(Tool, a.output, a.images, calls[a.i].name, [], calls[a.i].id)
    else SystemMessage("")
  }

  /** So the messages of a batch carry the tools' outputs and images, in the order they came in. */
  lemma {:induction false} OutputsAreReports(calls: seq<ToolCall>, schedule: seq<Step>)
    ensures Outputs(After(Init(calls), schedule)) == Reported(calls, schedule)
  {
    ResultsAreReports(calls, schedule, |schedule|);
    assert schedule[..|schedule|] == schedule;
    var s, steps := After(Init(calls), schedule), ReportSteps(calls, schedule, |schedule|);
    forall k | 0 <= k < |steps| ensures Outputs(s)[k] == HandedIn(calls, schedule[steps[k]]) {
      assert Hands(calls, schedule, steps[k], s.results[k]);
    }
  }

  /** Running a schedule step by step, as the goroutines do. */
  method RunBatch(calls: seq<ToolCall>, schedule: seq<Step>) returns (results: seq<Message>)
    ensures results == Outputs(After(Init(calls), schedule))
  {
    var s := Init(calls);
    for n := 0 to |schedule|
      invariant After(Init(calls), schedule) == After(s, schedule[n..])
    {
      if Enabled(s, schedule[n]) {
        s := Apply(s, schedule[n]);
      }
    }
    results := Outputs(s);
  }
}
