/** The simple form of a run, from its input alone: which round is the last, what is recorded, what the log is
    whenever the provider is asked, and how the run ends; without history, limits or compactions. Every run of
    `Conversations` refines it. */
module Talks {
  import opened Common
  import opened Messages
  import opened ContextWindow
  import opened Conversations
  import ToolBatch

  // The rounds.

  /** Only the first round can be a chat: it ends the run, or calls a tool and makes it a task. */
  predicate IsChat(env: RunInput, n: nat) { n == 0 && env.chatMode }

  /** The calls of round `n`: the reply's own, or what the text fallbacks find in a task's reply without any. */
  function CallsAt(env: RunInput, n: nat): seq<ToolCall> {
    match env.steps(n).reply
    case Failure(_, _) => []
    case Reply(_, calls, fallback, _) => if |calls| > 0 || IsChat(env, n) then calls else fallback
  }

  /** Round `n` is the last: it is cancelled, fails, or has no calls and is a chat or not the first. */
  predicate Over(env: RunInput, n: nat) {
    || env.steps(n).cancelled || env.steps(n).reply.Failure?
    || (CallsAt(env, n) == [] && (IsChat(env, n) || n > 0))
  }

  /** How a run whose last round is `n` ends. */
  function EndAt(env: RunInput, n: nat): Outcome {
    var e := env.steps(n);
    match e.reply
    case Failure(cancelled, _) => if e.cancelled || cancelled then Cancelled else ChatFailed
    case Reply(content, _, _, _) =>
      if e.cancelled then Cancelled
      else Answered(ANSWER_HEAD + env.id + "]\n" + AnswerText(env, n, content))
  }

  /** The reply's text; an empty one is replaced by the input in a chat and by a fixed text in a task. */
  function AnswerText(env: RunInput, n: nat, content: string): string {
    if content != "" then content else if IsChat(env, n) then env.input else DONE_TEXT
  }

  /** The log after system events and compactions; only events are recorded. */
  function Hear(log: Log, steps: seq<Interference>): Log
    decreases steps
  {
    if steps == [] then log
    else
      match steps[0]
      case Event(text) => Hear(Happened(log, Message(User, EVENT_PREFIX + text, [], "", [], "")), steps[1..])
      case Compaction => Hear(log, steps[1..])
  }

  /** The log when the provider is asked in round `n`. */
  function Asked(log: Log, env: RunInput, n: nat): Log {
    Hear(Hear(log, env.steps(n).beforeStep), env.steps(n).beforeChat)
  }

  /** One entry for every time the provider is asked. */
  function Asks(log: Log, env: RunInput, n: nat): seq<Log> {
    if env.steps(n).cancelled then []
    else if env.steps(n).reply.retried then [Asked(log, env, n), Asked(log, env, n)]
    else [Asked(log, env, n)]
  }

  /** What follows a reply: the tools' outputs, or the order to use them. */
  function Follow(log: Log, env: RunInput, n: nat): Log {
    var e := env.steps(n);
    if CallsAt(env, n) != [] then
      var results := ToolBatch.Reported(CallsAt(env, n), e.schedule);
      if results == [] then Hear(log, e.duringTools) else Said(Hear(log, e.duringTools), results)
    else if n == 0 && !env.chatMode && e.reply.Reply? && e.reply.content != "" then
      Said(Hear(log, e.beforeNudge), [Message(User, env.nudge, [], "", [], "")])
    else log
  }

  /** The log after round `n`. */
  function RoundLog(log: Log, env: RunInput, n: nat): Log {
    var e := env.steps(n);
    if e.cancelled then Hear(log, e.beforeStep)
    else
      var later := Hear(Asked(log, env, n), e.duringChat);
      match e.reply
      case Failure(_, _) => later
      case Reply(content, _, _, _) =>
        Follow(Said(later, [Message(Assistant, content, [], "", CallsAt(env, n), "")]), env, n)
  }

  /** What a round makes of the log, the log whenever it asks, and how it ends the run if it is the last. */
  datatype TalkRound = TalkRound(log: Log, asks: seq<Log>, end: Option<Outcome>)

  type TalkRounds = (Log, nat) -> TalkRound

  function TalkRoundsOf(env: RunInput): TalkRounds {
    (log: Log, n: nat) =>
      TalkRound(RoundLog(log, env, n), Asks(log, env, n), if Over(env, n) then Some(EndAt(env, n)) else None)
  }

  datatype Talk = Talk(log: Log, asked: seq<Log>, outcome: Outcome)

  function TalkFrom(rounds: TalkRounds, log: Log, asked: seq<Log>, n: nat, maxSteps: nat): Talk
    decreases maxSteps - n
  {
    if n >= maxSteps then Talk(log, asked, StepLimit)
    else
      var r := rounds(log, n);
      match r.end
      case Some(outcome) => Talk(r.log, asked + r.asks, outcome)
      case None => TalkFrom(rounds, r.log, asked + r.asks, n + 1, maxSteps)
  }

  /** The log once the user's input is recorded. */
  function Greeting(log: Log, env: RunInput): Log {
    var input := Message(User, env.input, env.images, "", [], "");
    Hear(Said(Hear(log, env.atStart), [input]), env.duringPlanning)
  }

  /** The user's input, then the rounds. */
  function TalkOf(log: Log, env: RunInput): Talk {
    TalkFrom(TalkRoundsOf(env), Greeting(log, env), [], 0, StepsOf(env))
  }

  // The refinement.

  function LogsAt(chats: seq<Memory>): (r: seq<Log>)
    ensures |r| == |chats|
    ensures forall k | 0 <= k < |chats| :: r[k] == chats[k].log
  {
    if chats == [] then [] else [chats[0].log] + LogsAt(chats[1..])
  }

  lemma {:induction false} LogsAtConcat(a: seq<Memory>, b: seq<Memory>)
    ensures LogsAt(a + b) == LogsAt(a) + LogsAt(b)
  {
    if a == [] {
      assert a + b == b;
    } else {
      assert (a + b)[1..] == a[1..] + b;
      LogsAtConcat(a[1..], b);
    }
  }

  lemma {:induction false} HearSnoc(log: Log, steps: seq<Interference>, a: Interference)
    ensures Hear(log, steps + [a]) ==
      match a
      case Event(text) => Happened(Hear(log, steps), EventMessage(text))
      case Compaction => Hear(log, steps)
    decreases steps
  {
    if steps == [] {
      assert [a][1..] == [];
      assert [] + [a] == [a];
    } else {
      assert (steps + [a])[1..] == steps[1..] + [a];
      match steps[0] {
        case Event(text) => HearSnoc(Happened(log, EventMessage(text)), steps[1..], a);
        case Compaction => HearSnoc(log, steps[1..], a);
      }
    }
  }

  lemma {:induction false} DisturbedHears(m: Memory, steps: seq<Interference>, limit: nat)
    ensures Disturbed(m, steps, limit).log == Hear(m.log, steps)
  {
    if steps != [] {
      var n := |steps| - 1;
      assert steps == steps[..n] + [steps[n]];
      DisturbedHears(m, steps[..n], limit);
      HearSnoc(m.log, steps[..n], steps[n]);
    }
  }

  lemma {:induction false} AtChatHears(m: Memory, env: RunInput, n: nat, limit: nat)
    ensures AtChat(m, env.steps(n), limit).log == Asked(m.log, env, n)
  {
    var e := env.steps(n);
    DisturbedHears(m, e.beforeStep, limit);
    DisturbedHears(Tidied(Disturbed(m, e.beforeStep, limit), limit), e.beforeChat, limit);
  }

  lemma {:induction false} ReactionFollows(m: Memory, env: RunInput, n: nat, limit: nat)
    requires env.steps(n).reply.Reply?
    ensures Effective(IsChat(env, n), env.steps(n).reply) == CallsAt(env, n)
    ensures Reaction(m, n, IsChat(env, n), env.nudge, env.steps(n), limit).log == Follow(m.log, env, n)
  {
    var e := env.steps(n);
    ToolBatch.OutputsAreReports(CallsAt(env, n), e.schedule);
    DisturbedHears(m, e.duringTools, limit);
    DisturbedHears(m, e.beforeNudge, limit);
  }

  lemma {:induction false} RoundHears(m: Memory, env: RunInput, n: nat, limit: nat)
    requires !Crashes(m, env.steps(n), limit)
    ensures RoundMemory(m, n, IsChat(env, n), env.nudge, env.steps(n), limit).log == RoundLog(m.log, env, n)
    ensures LogsAt(RoundChats(m, env.steps(n), limit)) == Asks(m.log, env, n)
  {
    var e := env.steps(n);
    var c := AtChat(m, e, limit);
    DisturbedHears(m, e.beforeStep, limit);
    AtChatHears(m, env, n, limit);
    DisturbedHears(c, e.duringChat, limit);
    if e.reply.Reply? {
      var later := Disturbed(c, e.duringChat, limit);
      ReactionFollows(Recorded(later, [ReplyMessage(IsChat(env, n), e)]), env, n, limit);
    }
  }

  /** The run's own way of ending a round is the simple one, and a task stays a task. */
  lemma {:induction false} VerdictIsEnd(env: RunInput, n: nat)
    ensures Verdict(env, n, IsChat(env, n)) == if Over(env, n) then Some(EndAt(env, n)) else None
    ensures !Over(env, n) ==> StaysChat(IsChat(env, n), env.steps(n)) == IsChat(env, n + 1)
  {
  }

  /** A round that records, asks and decides what the simple form does, and keeps to `mode`. */
  ghost predicate Follows(r: Round, t: TalkRound, still: bool) {
    && r.memory.log == t.log && LogsAt(r.chats) == t.asks && r.outcome == t.end
    && (t.end.None? ==> r.stillChat == still)
  }

  ghost predicate AllFollow(rounds: Rounds, talk: TalkRounds, good: Memory -> bool, mode: nat -> bool) {
    forall m, n: nat | good(m) ::
      good(rounds(m, n, mode(n)).memory) && Follows(rounds(m, n, mode(n)), talk(m.log, n), mode(n + 1))
  }

  lemma {:induction false} ConverseRefines(rounds: Rounds, talk: TalkRounds, good: Memory -> bool, mode: nat -> bool,
                                           m: Memory, chats: seq<Memory>, n: nat, maxSteps: nat)
    requires AllFollow(rounds, talk, good, mode) && good(m)
    ensures var c := Converse(rounds, m, chats, n, mode(n), maxSteps);
      Talk(c.memory.log, LogsAt(c.chats), c.outcome) == TalkFrom(talk, m.log, LogsAt(chats), n, maxSteps)
    decreases maxSteps - n
  {
    if n < maxSteps {
      var r := rounds(m, n, mode(n));
      assert good(r.memory) && Follows(r, talk(m.log, n), mode(n + 1));
      LogsAtConcat(chats, r.chats);
      if r.outcome.None? {
        ConverseRefines(rounds, talk, good, mode, r.memory, chats + r.chats, n + 1, maxSteps);
      }
    }
  }

  function Mode(env: RunInput): nat -> bool { (n: nat) => IsChat(env, n) }

  lemma {:induction false} RoundsFollow(env: RunInput, limit: nat)
    ensures AllFollow(RoundsOf(env, limit), TalkRoundsOf(env), m => Ready(m, env.prompt), Mode(env))
  {
    var rounds, talk, mode := RoundsOf(env, limit), TalkRoundsOf(env), Mode(env);
    forall m, n: nat | Ready(m, env.prompt)
      ensures Ready(rounds(m, n, mode(n)).memory, env.prompt)
        && Follows(rounds(m, n, mode(n)), talk(m.log, n), mode(n + 1))
    {
      RoundFollows(m, env, n, limit);
    }
  }

  lemma {:induction false} RoundFollows(m: Memory, env: RunInput, n: nat, limit: nat)
    requires Ready(m, env.prompt)
    ensures var r := RoundsOf(env, limit)(m, n, IsChat(env, n));
      Ready(r.memory, env.prompt) && Follows(r, TalkRoundsOf(env)(m.log, n), IsChat(env, n + 1))
  {
    RoundIsReady(m, n, IsChat(env, n), env.nudge, env.steps(n), limit, env.prompt);
    RoundHears(m, env, n, limit);
    VerdictIsEnd(env, n);
  }

  /** Whatever the history, the limit and the compactions: a run's log, the log whenever it asks, and how it
      ends are those of the simple form. */
  lemma {:induction false} RunRefinesTalk(m: Memory, env: RunInput, limit: nat)
    requires Sound(m)
    ensures var c := RunOf(m, env, limit);
      Talk(c.memory.log, LogsAt(c.chats), c.outcome) == TalkOf(m.log, env)
  {
    BegunIsReady(m, env, limit);
    RoundsFollow(env, limit);
    BegunHears(m, env, limit);
    ConverseRefines(RoundsOf(env, limit), TalkRoundsOf(env), m => Ready(m, env.prompt), Mode(env),
                    Begun(m, env, limit), [], 0, StepsOf(env));
  }

  lemma {:induction false} BegunHears(m: Memory, env: RunInput, limit: nat)
    ensures Begun(m, env, limit).log == Greeting(m.log, env)
  {
    var a := Disturbed(m, env.atStart, limit);
    DisturbedHears(m, env.atStart, limit);
    DisturbedHears(Recorded(a, [UserMessage(env.input, env.images)]), env.duringPlanning, limit);
  }

  // Where a run ends, and what it answers.

  /** `n` is the first round that is the last. */
  ghost predicate Last(env: RunInput, n: nat) {
    n < StepsOf(env) && Over(env, n) && forall i | 0 <= i < n :: !Over(env, i)
  }

  /** The rounds before `n` go on. */
  ghost predicate GoesOn(ends: nat -> Option<Outcome>, n: nat) { forall i | 0 <= i < n :: ends(i).None? }

  /** Rounds whose ends do not depend on the log. */
  ghost predicate EndsAs(rounds: TalkRounds, ends: nat -> Option<Outcome>) {
    forall log: Log, n: nat :: rounds(log, n).end == ends(n)
  }

  lemma {:induction false} TalkEnds(rounds: TalkRounds, ends: nat -> Option<Outcome>, log: Log, asked: seq<Log>, i: nat,
                                    n: nat, maxSteps: nat)
    requires EndsAs(rounds, ends) && i <= n <= maxSteps && GoesOn(ends, n) && (n < maxSteps ==> ends(n).Some?)
    ensures TalkFrom(rounds, log, asked, i, maxSteps).outcome == if n < maxSteps then ends(n).value else StepLimit
    decreases maxSteps - i
  {
    if i < maxSteps {
      var r := rounds(log, i);
      assert r.end == ends(i);
      if i < n { TalkEnds(rounds, ends, r.log, asked + r.asks, i + 1, n, maxSteps); }
    }
  }

  function EndsOf(env: RunInput): nat -> Option<Outcome> {
    (n: nat) => if Over(env, n) then Some(EndAt(env, n)) else None
  }

  lemma {:induction false} RunEndsAt(m: Memory, env: RunInput, limit: nat, n: nat)
    requires Sound(m) && n <= StepsOf(env) && (forall i | 0 <= i < n :: !Over(env, i))
    requires n < StepsOf(env) ==> Over(env, n)
    ensures RunOf(m, env, limit).outcome == if n < StepsOf(env) then EndAt(env, n) else StepLimit
  {
    RunRefinesTalk(m, env, limit);
    TalkEnds(TalkRoundsOf(env), EndsOf(env), Greeting(m.log, env), [], 0, n, StepsOf(env));
  }

  /** From the replies alone: a run ends in its first last round, as that round says, and reaches the step limit
      exactly if it has none. */
  lemma {:induction false} RunEnds(m: Memory, env: RunInput, limit: nat)
    requires Sound(m)
    ensures forall n | Last(env, n) :: RunOf(m, env, limit).outcome == EndAt(env, n)
    ensures RunOf(m, env, limit).outcome == StepLimit <==> forall n | 0 <= n < StepsOf(env) :: !Over(env, n)
  {
    forall n | Last(env, n) ensures RunOf(m, env, limit).outcome == EndAt(env, n) != StepLimit {
      RunEndsAt(m, env, limit, n);
    }
    if exists n :: 0 <= n < StepsOf(env) && Over(env, n) {
      var k :| 0 <= k < StepsOf(env) && Over(env, k);
      var n := FirstOver(env, k);
    } else {
      RunEndsAt(m, env, limit, StepsOf(env));
    }
  }

  lemma {:induction false} FirstOver(env: RunInput, k: nat) returns (n: nat)
    requires k < StepsOf(env) && Over(env, k)
    ensures Last(env, n)
    decreases k
  {
    if i :| 0 <= i < k && Over(env, i) {
      n := FirstOver(env, i);
    } else {
      n := k;
    }
  }

  /** The answer is the last assistant message's text, which calls no tool; if that is empty, it is the input
      when the run was a chat to its end and a fixed text when it was a task. */
  ghost predicate AnswersLast(env: RunInput, log: Log, answer: string) {
    match LastAssistant(All(log))
    case None => false
    case Some(last) =>
      && last.toolCalls == []
      && answer == ANSWER_HEAD + env.id + "]\n" + (
           if last.content != "" then last.content
           else if env.chatMode && Over(env, 0) then env.input
           else DONE_TEXT)
  }

  lemma {:induction false} AnswerIsLast(m: Memory, env: RunInput, limit: nat)
    requires Sound(m)
    ensures var c := RunOf(m, env, limit); c.outcome.Answered? ==> AnswersLast(env, c.memory.log, c.outcome.content)
  {
    RunRefinesTalk(m, env, limit);
    TalkAnswersLast(Greeting(m.log, env), [], env, 0);
  }

  lemma {:induction false} TalkAnswersLast(log: Log, asked: seq<Log>, env: RunInput, n: nat)
    requires forall j | 0 <= j < n :: !Over(env, j)
    ensures var t := TalkFrom(TalkRoundsOf(env), log, asked, n, StepsOf(env));
      t.outcome.Answered? ==> AnswersLast(env, t.log, t.outcome.content)
    decreases StepsOf(env) - n
  {
    if n < StepsOf(env) {
      if Over(env, n) {
        LastRoundAnswers(log, env, n);
      } else {
        TalkAnswersLast(RoundLog(log, env, n), asked + Asks(log, env, n), env, n + 1);
      }
    }
  }

  lemma {:induction false} LastRoundAnswers(log: Log, env: RunInput, n: nat)
    requires Over(env, n) && forall j | 0 <= j < n :: !Over(env, j)
    ensures EndAt(env, n).Answered? ==> AnswersLast(env, RoundLog(log, env, n), EndAt(env, n).content)
  {
    var e := env.steps(n);
    if EndAt(env, n).Answered? {
      var reply := Message(Assistant, e.reply.content, [], "", CallsAt(env, n), "");
      var said := Said(Hear(Asked(log, env, n), e.duringChat), [reply]);
      assert RoundLog(log, env, n) == Follow(said, env, n) == said;
      assert All(said)[|All(said)| - 1] == reply;
    }
  }

  // Events make no difference to what is said.

  /** Everything about a round that is not interference. */
  function Quiet(e: StepInput): StepInput {
    e.(beforeStep := [], beforeChat := [], duringChat := [], beforeNudge := [], duringTools := [])
  }

  /** Two runs that differ at most in their prompt and in what other goroutines do. */
  ghost predicate Alike(env: RunInput, other: RunInput) {
    && env.id == other.id && env.input == other.input && env.images == other.images && env.nudge == other.nudge
    && env.chatMode == other.chatMode && env.maxSteps == other.maxSteps
    && forall n :: Quiet(env.steps(n)) == Quiet(other.steps(n))
  }

  lemma {:induction false} HearSaysNothing(log: Log, steps: seq<Interference>)
    ensures Spoken(Hear(log, steps)) == Spoken(log)
    decreases steps
  {
    if steps != [] {
      match steps[0] {
        case Event(text) => HearSaysNothing(Happened(log, EventMessage(text)), steps[1..]);
        case Compaction => HearSaysNothing(log, steps[1..]);
      }
    }
  }

  function SpokenOf(logs: seq<Log>): seq<Log> {
    if logs == [] then [] else [Spoken(logs[0])] + SpokenOf(logs[1..])
  }

  lemma {:induction false} SpokenOfConcat(a: seq<Log>, b: seq<Log>)
    ensures SpokenOf(a + b) == SpokenOf(a) + SpokenOf(b)
  {
    if a == [] {
      assert a + b == b;
    } else {
      assert (a + b)[1..] == a[1..] + b;
      SpokenOfConcat(a[1..], b);
    }
  }

  lemma {:induction false} RoundsAlike(a: Log, b: Log, env: RunInput, other: RunInput, n: nat)
    requires Spoken(a) == Spoken(b) && Alike(env, other)
    ensures CallsAt(env, n) == CallsAt(other, n) && (Over(env, n) <==> Over(other, n))
    ensures EndAt(env, n) == EndAt(other, n)
  {
    assert Quiet(env.steps(n)) == Quiet(other.steps(n));
  }

  lemma {:induction false} AsksAlike(a: Log, b: Log, env: RunInput, other: RunInput, n: nat)
    requires Spoken(a) == Spoken(b) && Alike(env, other)
    ensures Spoken(Asked(a, env, n)) == Spoken(Asked(b, other, n)) == Spoken(a)
    ensures SpokenOf(Asks(a, env, n)) == SpokenOf(Asks(b, other, n))
  {
    var e, f := env.steps(n), other.steps(n);
    assert Quiet(e) == Quiet(f);
    HearSaysNothing(a, e.beforeStep);
    HearSaysNothing(Hear(a, e.beforeStep), e.beforeChat);
    HearSaysNothing(b, f.beforeStep);
    HearSaysNothing(Hear(b, f.beforeStep), f.beforeChat);
    var x, y := Asked(a, env, n), Asked(b, other, n);
    assert [x, x][1..] == [x] && [y, y][1..] == [y] && [x][1..] == [] && [y][1..] == [];
  }

  lemma {:induction false} FollowAlike(a: Log, b: Log, env: RunInput, other: RunInput, n: nat)
    requires Spoken(a) == Spoken(b) && Alike(env, other)
    ensures Spoken(Follow(a, env, n)) == Spoken(Follow(b, other, n))
  {
    var e, f := env.steps(n), other.steps(n);
    assert Quiet(e) == Quiet(f);
    RoundsAlike(a, b, env, other, n);
    HearSaysNothing(a, e.duringTools);
    HearSaysNothing(b, f.duringTools);
    HearSaysNothing(a, e.beforeNudge);
    HearSaysNothing(b, f.beforeNudge);
  }

  lemma {:induction false} LogsAlike(a: Log, b: Log, env: RunInput, other: RunInput, n: nat)
    requires Spoken(a) == Spoken(b) && Alike(env, other)
    ensures Spoken(RoundLog(a, env, n)) == Spoken(RoundLog(b, other, n))
  {
    var e, f := env.steps(n), other.steps(n);
    assert Quiet(e) == Quiet(f);
    RoundsAlike(a, b, env, other, n);
    AsksAlike(a, b, env, other, n);
    HearSaysNothing(a, e.beforeStep);
    HearSaysNothing(b, f.beforeStep);
    HearSaysNothing(Asked(a, env, n), e.duringChat);
    HearSaysNothing(Asked(b, other, n), f.duringChat);
    if !e.cancelled && e.reply.Reply? {
      var reply := Message(Assistant, e.reply.content, [], "", CallsAt(env, n), "");
      FollowAlike(Said(Hear(Asked(a, env, n), e.duringChat), [reply]),
                  Said(Hear(Asked(b, other, n), f.duringChat), [reply]), env, other, n);
    }
  }

  /** Rounds that, on logs that say the same, say and ask the same and end alike. */
  ghost predicate AlwaysAlike(rounds: TalkRounds, others: TalkRounds) {
    forall a: Log, b: Log, n: nat | Spoken(a) == Spoken(b) :: SameRound(rounds(a, n), others(b, n))
  }

  ghost predicate SameRound(r: TalkRound, u: TalkRound) {
    Spoken(r.log) == Spoken(u.log) && SpokenOf(r.asks) == SpokenOf(u.asks) && r.end == u.end
  }

  lemma {:induction false} TalksAlike(rounds: TalkRounds, a: Log, asked: seq<Log>,
                                      others: TalkRounds, b: Log, asked': seq<Log>, n: nat, maxSteps: nat)
    requires Spoken(a) == Spoken(b) && SpokenOf(asked) == SpokenOf(asked') && AlwaysAlike(rounds, others)
    ensures SameTalk(TalkFrom(rounds, a, asked, n, maxSteps), TalkFrom(others, b, asked', n, maxSteps))
    decreases maxSteps - n
  {
    if n < maxSteps {
      var r, u := rounds(a, n), others(b, n);
      assert SameRound(r, u);
      SpokenOfConcat(asked, r.asks);
      SpokenOfConcat(asked', u.asks);
      if r.end.None? {
        TalksAlike(rounds, r.log, asked + r.asks, others, u.log, asked' + u.asks, n + 1, maxSteps);
      }
    }
  }

  lemma {:induction false} RoundIsAlike(a: Log, b: Log, env: RunInput, other: RunInput, n: nat)
    requires Spoken(a) == Spoken(b) && Alike(env, other)
    ensures SameRound(TalkRoundsOf(env)(a, n), TalkRoundsOf(other)(b, n))
  {
    RoundsAlike(a, b, env, other, n);
    AsksAlike(a, b, env, other, n);
    LogsAlike(a, b, env, other, n);
  }

  /** The same is said, at the same times, and with the same end. */
  ghost predicate SameTalk(t: Talk, u: Talk) {
    Spoken(t.log) == Spoken(u.log) && SpokenOf(t.asked) == SpokenOf(u.asked) && t.outcome == u.outcome
  }

  /** Two runs on the same conversation, with the same input, replies and tool schedules, say the same and end
      alike: events, compactions, limits and histories make no difference. */
  lemma {:induction false} InterferenceIsSilent(m: Memory, env: RunInput, limit: nat,
                                                n: Memory, other: RunInput, limit': nat)
    requires Sound(m) && Sound(n) && Spoken(m.log) == Spoken(n.log) && Alike(env, other)
    ensures var c, d := RunOf(m, env, limit), RunOf(n, other, limit');
      SameTalk(Talk(c.memory.log, LogsAt(c.chats), c.outcome), Talk(d.memory.log, LogsAt(d.chats), d.outcome))
  {
    RunRefinesTalk(m, env, limit);
    RunRefinesTalk(n, other, limit');
    GreetingsAlike(m.log, env, n.log, other);
    RoundsAreAlike(env, other);
    TalksAlike(TalkRoundsOf(env), Greeting(m.log, env), [], TalkRoundsOf(other), Greeting(n.log, other), [], 0,
               StepsOf(env));
  }

  lemma {:induction false} RoundsAreAlike(env: RunInput, other: RunInput)
    requires Alike(env, other)
    ensures AlwaysAlike(TalkRoundsOf(env), TalkRoundsOf(other))
  {
    var rounds, others := TalkRoundsOf(env), TalkRoundsOf(other);
    forall a: Log, b: Log, n: nat | Spoken(a) == Spoken(b) ensures SameRound(rounds(a, n), others(b, n)) {
      RoundIsAlike(a, b, env, other, n);
    }
  }

  lemma {:induction false} GreetingsAlike(a: Log, env: RunInput, b: Log, other: RunInput)
    requires Spoken(a) == Spoken(b) && Alike(env, other)
    ensures Spoken(Greeting(a, env)) == Spoken(Greeting(b, other))
  {
    var input := Message(User, env.input, env.images, "", [], "");
    HearSaysNothing(a, env.atStart);
    HearSaysNothing(b, other.atStart);
    HearSaysNothing(Said(Hear(a, env.atStart), [input]), env.duringPlanning);
    HearSaysNothing(Said(Hear(b, other.atStart), [input]), other.duringPlanning);
  }
}
