/** What a run of the agent does to a session's memory, as a function of everything that comes in: replies,
    tool schedules, and the system events and compactions of other goroutines. The memory is the history the
    session keeps and the log of everything recorded in it; the session's methods are proved against this. */
module Conversations {
  import opened Common
  import opened Messages
  import opened ContextWindow
  import G = Gemini
  import ToolBatch

  const DEFAULT_MAX_STEPS: nat := 25

  const EVENT_PREFIX: string := "[S\U{C4}\U{B0}STEM UYARISI]: "
  const ANSWER_HEAD: string := "[G\U{C3}\U{B6}rev ID: "
  const DONE_TEXT: string := "G\U{C3}\U{B6}rev ba\U{C5}\U{9F}ar\U{C4}\U{B1}yla tamamland\U{C4}\U{B1}."

  // What comes in.

  /** What another goroutine may do while the lock is free. */
  datatype Interference = Event(text: string) | Compaction

  /** The outcome of one `Chat`: a reply (`fallback` is what the text fallbacks recover when it carries
      no calls) or an error; `retried` is the second attempt without native tools. */
  datatype Reply =
    | Reply(content: string, calls: seq<ToolCall>, fallback: seq<ToolCall>, retried: bool)
    | Failure(cancelled: bool, retried: bool)

  datatype StepInput = StepInput(
    cancelled: bool,
    beforeStep: seq<Interference>, beforeChat: seq<Interference>, duringChat: seq<Interference>,
    reply: Reply,
    beforeNudge: seq<Interference>,
    schedule: seq<ToolBatch.Step>, duringTools: seq<Interference>)

  /** `id` is the session's; `nudge` is the order to use a tool; its wording plays no part. */
  datatype RunInput = RunInput(
    id: string, input: string, images: seq<string>, prompt: string, nudge: string, chatMode: bool, maxSteps: int,
    atStart: seq<Interference>, duringPlanning: seq<Interference>, steps: nat -> StepInput)

  datatype Outcome = Cancelled | ChatFailed | Answered(content: string) | StepLimit | Panicked

  // The memory.

  /** Everything ever recorded: by runs, a batch of messages at a time, and by system events. */
  datatype Log = Empty | Said(before: Log, said: seq<Message>) | Happened(before: Log, event: Message)

  function All(log: Log): seq<Message> {
    match log
    case Empty => []
    case Said(before, said) => All(before) + said
    case Happened(before, event) => All(before) + [event]
  }

  /** The log without the events. */
  function Spoken(log: Log): Log {
    match log
    case Empty => Empty
    case Said(before, said) => Said(Spoken(before), said)
    case Happened(before, _) => Spoken(before)
  }

  /** The events since a run last recorded something, and with that trimmed. */
  function Trailing(log: Log): nat {
    if log.Happened? then Trailing(log.before) + 1 else 0
  }

  predicate Extends(log: Log, base: Log) {
    log == base || (!log.Empty? && Extends(log.before, base))
  }

  datatype Memory = Memory(history: seq<Message>, log: Log)

  /** Appending under the lock, then trimming. */
  function Recorded(m: Memory, said: seq<Message>): Memory {
    Memory(Trimmed(m.history + said), Said(m.log, said))
  }

  function EventMessage(text: string): Message { UserMessage(EVENT_PREFIX + text, []) }

  function Alerted(m: Memory, text: string): Memory {
    Memory(m.history + [EventMessage(text)], Happened(m.log, EventMessage(text)))
  }

  predicate Panics(m: Memory, limit: nat) { Compacted(m.history, limit).None? }

  /** A compaction; one that panics leaves the history alone. */
  function Tidied(m: Memory, limit: nat): Memory {
    if Panics(m, limit) then m else m.(history := Compacted(m.history, limit).value)
  }

  function Pinned(m: Memory, prompt: string): Memory { m.(history := Refreshed(m.history, prompt)) }

  function Disturb(m: Memory, step: Interference, limit: nat): Memory {
    match step
    case Event(text) => Alerted(m, text)
    case Compaction => Tidied(m, limit)
  }

  function Disturbed(m: Memory, steps: seq<Interference>, limit: nat): Memory {
    if steps == [] then m else Disturb(Disturbed(m, steps[..|steps| - 1], limit), steps[|steps| - 1], limit)
  }

  // One run.

  /** Everything before the loop: the input is recorded, a plan is made, the prompt is pinned. */
  function Begun(m: Memory, env: RunInput, limit: nat): Memory {
    var greeted := Recorded(Disturbed(m, env.atStart, limit), [UserMessage(env.input, env.images)]);
    Pinned(Disturbed(greeted, env.duringPlanning, limit), env.prompt)
  }

  /** The calls a reply counts for: in task mode the text fallbacks make up for missing ones. */
  function Effective(chatMode: bool, r: Reply): seq<ToolCall>
    requires r.Reply?
  {
    if !chatMode && r.calls == [] then r.fallback else r.calls
  }

  /** A chat turns into a task as soon as the model calls a tool, and never back. */
  predicate StaysChat(chatMode: bool, e: StepInput) {
    chatMode && e.reply.Reply? && Effective(chatMode, e.reply) == []
  }

  /** What `finalizeTask` hands to the caller: an empty output gives the input back. */
  function Finalized(id: string, input: string, output: string): string {
    ANSWER_HEAD + id + "]\n" + if output == "" then input else output
  }

  /** How a round ends the run; `None` means another round. */
  function Verdict(env: RunInput, step: nat, chatMode: bool): Option<Outcome> {
    var e := env.steps(step);
    if e.cancelled then Some(Cancelled)
    else if e.reply.Failure? then Some(if e.reply.cancelled then Cancelled else ChatFailed)
    else if StaysChat(chatMode, e) then Some(Answered(Finalized(env.id, env.input, e.reply.content)))
    else if Effective(chatMode, e.reply) != [] || step == 0 then None
    else
      var content := if e.reply.content == "" then DONE_TEXT else e.reply.content;
      Some(Answered(Finalized(env.id, env.input, content)))
  }

  /** The compaction before the `Chat` brings the run down. */
  predicate Crashes(m: Memory, e: StepInput, limit: nat) {
    !e.cancelled && Panics(Disturbed(m, e.beforeStep, limit), limit)
  }

  function RoundOutcome(m: Memory, env: RunInput, step: nat, chatMode: bool, limit: nat): Option<Outcome> {
    if Crashes(m, env.steps(step), limit) then Some(Panicked) else Verdict(env, step, chatMode)
  }

  /** The memory whose history a `Chat` is handed. */
  function AtChat(m: Memory, e: StepInput, limit: nat): Memory {
    Disturbed(Tidied(Disturbed(m, e.beforeStep, limit), limit), e.beforeChat, limit)
  }

  /** What follows a reply: the tools' results, or the order to use them. */
  function Reaction(m: Memory, step: nat, chatMode: bool, nudge: string, e: StepInput, limit: nat): Memory
    requires e.reply.Reply?
  {
    var calls := Effective(chatMode, e.reply);
    if calls != [] then
      var results := ToolBatch.Outputs(ToolBatch.After(ToolBatch.Init(calls), e.schedule));
      var later := Disturbed(m, e.duringTools, limit);
      if results == [] then later else Recorded(later, results)
    else if !chatMode && step == 0 && e.reply.content != "" then
      Recorded(Disturbed(m, e.beforeNudge, limit), [UserMessage(nudge, [])])
    else m
  }

  function ReplyMessage(chatMode: bool, e: StepInput): Message
    requires e.reply.Reply?
  {
    AssistantMessage(e.reply.content, Effective(chatMode, e.reply))
  }

  /** The memory after a `Chat`. */
  function Answer(m: Memory, step: nat, chatMode: bool, nudge: string, e: StepInput, limit: nat): Memory {
    var later := Disturbed(m, e.duringChat, limit);
    if e.reply.Failure? then later
    else Reaction(Recorded(later, [ReplyMessage(chatMode, e)]), step, chatMode, nudge, e, limit)
  }

  function RoundMemory(m: Memory, step: nat, chatMode: bool, nudge: string, e: StepInput, limit: nat): Memory {
    if e.cancelled || Crashes(m, e, limit) then Disturbed(m, e.beforeStep, limit)
    else Answer(AtChat(m, e, limit), step, chatMode, nudge, e, limit)
  }

  /** The memory at every `Chat` of a round: none, one, or two for the retry. */
  function RoundChats(m: Memory, e: StepInput, limit: nat): seq<Memory> {
    if e.cancelled || Crashes(m, e, limit) then []
    else if e.reply.retried then [AtChat(m, e, limit), AtChat(m, e, limit)]
    else [AtChat(m, e, limit)]
  }

  /** What a round makes of a memory, the memory at each of its chats, how it ends the run if it does, and
      whether the run is still a chat. */
  datatype Round = Round(memory: Memory, chats: seq<Memory>, outcome: Option<Outcome>, stillChat: bool)

  type Rounds = (Memory, nat, bool) -> Round

  function RoundsOf(env: RunInput, limit: nat): Rounds {
    (m: Memory, step: nat, chatMode: bool) =>
      var e := env.steps(step);
      Round(RoundMemory(m, step, chatMode, env.nudge, e, limit), RoundChats(m, e, limit),
            RoundOutcome(m, env, step, chatMode, limit), StaysChat(chatMode, e))
  }

  /** Where a run gets: its memory, the memory at each of its `Chat` calls, and its outcome. */
  datatype Course = Course(memory: Memory, chats: seq<Memory>, outcome: Outcome)

  /** The course of the rounds from `step` on, with the given chats behind it. */
  function Converse(rounds: Rounds, m: Memory, chats: seq<Memory>, step: nat, chatMode: bool, maxSteps: nat): Course
    decreases maxSteps - step
  {
    if step >= maxSteps then Course(m, chats, StepLimit)
    else
      var r := rounds(m, step, chatMode);
      match r.outcome
      case Some(outcome) => Course(r.memory, chats + r.chats, outcome)
      case None => Converse(rounds, r.memory, chats + r.chats, step + 1, r.stillChat, maxSteps)
  }

  function StepsOf(env: RunInput): nat { if env.maxSteps <= 0 then DEFAULT_MAX_STEPS else env.maxSteps }

  function RunOf(m: Memory, env: RunInput, limit: nat): Course {
    Converse(RoundsOf(env, limit), Begun(m, env, limit), [], 0, env.chatMode, StepsOf(env))
  }

  // What every memory keeps.

  /** No system prompt is ever recorded, answers find their calls, and the history is the prompt, at most
      one notice and a suffix of the log, or just a suffix before a prompt was pinned. */
  ghost predicate Sound(m: Memory) {
    && NoSystem(All(m.log)) && Paired(All(m.log))
    && (Headed(m.history, All(m.log)) || IsSuffix(m.history, All(m.log)))
    && |m.history| <= MAX_HISTORY_MESSAGES + (if Headed(m.history, All(m.log)) then 1 else 0) + Trailing(m.log)
  }

  /** Sound, and with this prompt pinned. */
  ghost predicate Ready(m: Memory, prompt: string) {
    Sound(m) && Headed(m.history, All(m.log)) && m.history[0] == SystemMessage(prompt)
  }

  /** What a `Chat` must be handed: the prompt, at most one notice, a non-empty suffix of the log; no more
      than 41 messages plus the events since the last trim; and well-paired Gemini contents. */
  ghost predicate ChatOk(m: Memory, prompt: string) {
    && Headed(m.history, All(m.log)) && m.history[0] == SystemMessage(prompt)
    && |m.history| <= MAX_HISTORY_MESSAGES + 1 + Trailing(m.log)
    && forall found :: G.WellPaired(G.Contents(m.history, found))
  }

  ghost predicate ChatsOk(chats: seq<Memory>, prompt: string) {
    forall k | 0 <= k < |chats| :: ChatOk(chats[k], prompt)
  }

  /** From `m` to `n` a pinned prompt stays, and a history does not get empty. */
  ghost predicate KeepsHead(m: Memory, n: Memory) {
    && (m.history != [] ==> n.history != [])
    && forall prompt :: Ready(m, prompt) ==> Ready(n, prompt)
  }

  /** Messages a run may record: no system prompts, and calls only from the assistant. */
  ghost predicate Sayable(m: Message) {
    !m.role.System? && (!m.role.Assistant? ==> m.toolCalls == [])
  }

  lemma {:induction false} PairedWithUser(h: seq<Message>, m: Message)
    requires Paired(h) && Sayable(m) && !m.role.Tool?
    ensures Paired(h + [m])
    ensures LastAssistant(h + [m]) == if m.role.Assistant? then Some(m) else LastAssistant(h)
  {
    assert (h + [m])[..|h|] == h;
    assert PairedAt(h + [m], |h|);
    PairedSnoc(h, m);
  }

  lemma {:induction false} PairedWithTools(h: seq<Message>, tools: seq<Message>, a: Message)
    requires Paired(h) && LastAssistant(h) == Some(a)
    requires AllAnswer(tools, a)
    ensures Paired(h + tools)
  {
    if tools == [] {
      assert h + tools == h;
    } else {
      var n := |tools| - 1;
      PairedWithTools(h, tools[..n], a);
      LastAssistantOfSuffix(h, tools[..n]);
      NoAssistant(tools[..n]);
      var front := h + tools[..n];
      assert h + tools == front + [tools[n]];
      assert (front + [tools[n]])[..|front|] == front;
      assert PairedAt(front + [tools[n]], |front|);
      PairedSnoc(front, tools[n]);
    }
  }

  /** Recording keeps a pinned prompt pinned, and the history a suffix of the log before that. */
  lemma {:induction false} RecordRefines(h: seq<Message>, log: seq<Message>, said: seq<Message>)
    requires NoSystem(log) && NoSystem(said) && said != [] && (Headed(h, log) || IsSuffix(h, log))
    ensures NoSystem(log + said) && Trimmed(h + said) != []
    ensures Headed(h, log) ==> Headed(Trimmed(h + said), log + said) && Trimmed(h + said)[0] == h[0]
    ensures Headed(Trimmed(h + said), log + said) || IsSuffix(Trimmed(h + said), log + said)
    ensures |Trimmed(h + said)| <= MAX_HISTORY_MESSAGES
  {
    if Headed(h, log) {
      AppendRefines(h, log, said);
      TrimRefines(h + said, log + said);
    } else {
      SuffixAppend(h, log, said);
      UnheadedTrim(h + said, log + said);
    }
  }

  lemma {:induction false} UnheadedTrim(h: seq<Message>, log: seq<Message>)
    requires NoSystem(log) && IsSuffix(h, log) && h != []
    ensures IsSuffix(Trimmed(h), log) && |Trimmed(h)| <= MAX_HISTORY_MESSAGES && Trimmed(h) != []
    ensures !Headed(Trimmed(h), log)
  {
    SuffixHasNoSystem(h, log);
    if |h| > MAX_HISTORY_MESSAGES {
      SuffixDrop(h, log, |h| - MAX_HISTORY_MESSAGES);
    }
    SuffixHasNoSystem(Trimmed(h), log);
  }

  lemma {:induction false} RecordedIsSound(m: Memory, said: seq<Message>)
    requires Sound(m) && said != [] && NoSystem(said) && Paired(All(m.log) + said)
    ensures Sound(Recorded(m, said)) && KeepsHead(m, Recorded(m, said)) && Recorded(m, said).history != []
  {
    RecordRefines(m.history, All(m.log), said);
  }

  /** The same for one message of the user or the assistant. */
  lemma {:induction false} SaidIsSound(m: Memory, said: Message)
    requires Sound(m) && Sayable(said) && !said.role.Tool?
    ensures var n := Recorded(m, [said]);
      Sound(n) && KeepsHead(m, n) && n.history != []
      && LastAssistant(All(n.log)) == if said.role.Assistant? then Some(said) else LastAssistant(All(m.log))
  {
    PairedWithUser(All(m.log), said);
    RecordedIsSound(m, [said]);
  }

  lemma {:induction false} EventRefines(h: seq<Message>, log: seq<Message>, m: Message)
    requires NoSystem(log) && !m.role.System? && (Headed(h, log) || IsSuffix(h, log))
    ensures NoSystem(log + [m])
    ensures Headed(h, log) ==> Headed(h + [m], log + [m])
    ensures Headed(h + [m], log + [m]) || IsSuffix(h + [m], log + [m])
  {
    if Headed(h, log) {
      AppendRefines(h, log, [m]);
    } else {
      SuffixAppend(h, log, [m]);
    }
  }

  lemma {:induction false} AlertedIsSound(m: Memory, text: string)
    requires Sound(m)
    ensures var n := Alerted(m, text);
      Sound(n) && KeepsHead(m, n) && LastAssistant(All(n.log)) == LastAssistant(All(m.log))
  {
    PairedWithUser(All(m.log), EventMessage(text));
    EventRefines(m.history, All(m.log), EventMessage(text));
  }

  /** A compaction cannot panic once the prompt is pinned. */
  lemma {:induction false} TidiedIsSound(m: Memory, limit: nat)
    requires Sound(m)
    ensures var n := Tidied(m, limit);
      Sound(n) && KeepsHead(m, n) && n.log == m.log
    ensures Headed(m.history, All(m.log)) ==> !Panics(m, limit)
  {
    if Headed(m.history, All(m.log)) {
      CompactionRefines(m.history, All(m.log), limit);
      CompactionIsBounded(m.history, limit);
    } else {
      SuffixHasNoSystem(m.history, All(m.log));
    }
  }

  lemma {:induction false} KeepsHeadTrans(a: Memory, b: Memory, c: Memory)
    requires KeepsHead(a, b) && KeepsHead(b, c)
    ensures KeepsHead(a, c)
  {
  }

  lemma {:induction false} DisturbedIsSound(m: Memory, steps: seq<Interference>, limit: nat)
    requires Sound(m)
    ensures var n := Disturbed(m, steps, limit);
      Sound(n) && KeepsHead(m, n) && LastAssistant(All(n.log)) == LastAssistant(All(m.log))
  {
    if steps != [] {
      var p := Disturbed(m, steps[..|steps| - 1], limit);
      DisturbedIsSound(m, steps[..|steps| - 1], limit);
      match steps[|steps| - 1] {
        case Event(text) => AlertedIsSound(p, text);
        case Compaction => TidiedIsSound(p, limit);
      }
      KeepsHeadTrans(m, p, Disturbed(m, steps, limit));
    }
  }

  lemma {:induction false} BegunIsReady(m: Memory, env: RunInput, limit: nat)
    requires Sound(m)
    ensures Ready(Begun(m, env, limit), env.prompt)
  {
    var a := Disturbed(m, env.atStart, limit);
    DisturbedIsSound(m, env.atStart, limit);
    SaidIsSound(a, UserMessage(env.input, env.images));
    var b := Recorded(a, [UserMessage(env.input, env.images)]);
    DisturbedIsSound(b, env.duringPlanning, limit);
    PinnedIsReady(Disturbed(b, env.duringPlanning, limit), env.prompt);
  }

  lemma {:induction false} PinnedIsReady(m: Memory, prompt: string)
    requires Sound(m) && m.history != []
    ensures Ready(Pinned(m, prompt), prompt)
  {
    RefreshRefines(m.history, All(m.log), prompt);
    if IsSuffix(m.history, All(m.log)) && !Headed(m.history, All(m.log)) {
      SuffixHasNoSystem(m.history, All(m.log));
    }
  }

  lemma {:induction false} AtChatIsOk(m: Memory, e: StepInput, limit: nat, prompt: string)
    requires Ready(m, prompt)
    ensures !Crashes(m, e, limit)
    ensures Ready(AtChat(m, e, limit), prompt) && ChatOk(AtChat(m, e, limit), prompt)
  {
    var a := Disturbed(m, e.beforeStep, limit);
    DisturbedIsSound(m, e.beforeStep, limit);
    TidiedIsSound(a, limit);
    DisturbedIsSound(Tidied(a, limit), e.beforeChat, limit);
    assert Ready(a, prompt) && Ready(Tidied(a, limit), prompt);
    ReadyIsOk(AtChat(m, e, limit), prompt);
  }

  lemma {:induction false} ReadyIsOk(m: Memory, prompt: string)
    requires Ready(m, prompt)
    ensures ChatOk(m, prompt)
  {
    HeadedIsPaired(m.history, All(m.log));
    forall found ensures G.WellPaired(G.Contents(m.history, found)) {
      G.ContentsAreWellPaired(m.history, found);
    }
  }

  lemma {:induction false} ReactionIsReady(m: Memory, step: nat, chatMode: bool, nudge: string, e: StepInput,
                                           limit: nat, prompt: string)
    requires Ready(m, prompt) && e.reply.Reply?
    requires LastAssistant(All(m.log)) == Some(ReplyMessage(chatMode, e))
    ensures Ready(Reaction(m, step, chatMode, nudge, e, limit), prompt)
  {
    var calls := Effective(chatMode, e.reply);
    if calls != [] {
      DisturbedIsSound(m, e.duringTools, limit);
      ResultsAreReady(Disturbed(m, e.duringTools, limit), e.reply.content, calls, e.schedule, prompt);
    } else {
      var later := Disturbed(m, e.beforeNudge, limit);
      DisturbedIsSound(m, e.beforeNudge, limit);
      assert Ready(later, prompt);
      SaidIsSound(later, UserMessage(nudge, []));
    }
  }

  lemma {:induction false} ResultsAreReady(m: Memory, content: string, calls: seq<ToolCall>,
                                           schedule: seq<ToolBatch.Step>, prompt: string)
    requires Ready(m, prompt) && LastAssistant(All(m.log)) == Some(AssistantMessage(content, calls))
    ensures var results := ToolBatch.Outputs(ToolBatch.After(ToolBatch.Init(calls), schedule));
      results != [] ==> Ready(Recorded(m, results), prompt)
  {
    var results := ToolBatch.Outputs(ToolBatch.After(ToolBatch.Init(calls), schedule));
    ToolBatch.OutputsAnswer(calls, schedule, content);
    if results != [] {
      PairedWithTools(All(m.log), results, AssistantMessage(content, calls));
      RecordedIsSound(m, results);
    }
  }

  lemma {:induction false} AnswerIsReady(m: Memory, step: nat, chatMode: bool, nudge: string, e: StepInput, limit: nat,
                                         prompt: string)
    requires Ready(m, prompt)
    ensures Ready(Answer(m, step, chatMode, nudge, e, limit), prompt)
  {
    var later := Disturbed(m, e.duringChat, limit);
    DisturbedIsSound(m, e.duringChat, limit);
    assert Ready(later, prompt);
    if e.reply.Reply? {
      SaidIsSound(later, ReplyMessage(chatMode, e));
      ReactionIsReady(Recorded(later, [ReplyMessage(chatMode, e)]), step, chatMode, nudge, e, limit, prompt);
    }
  }

  lemma {:induction false} RoundIsReady(m: Memory, step: nat, chatMode: bool, nudge: string, e: StepInput, limit: nat,
                                        prompt: string)
    requires Ready(m, prompt)
    ensures Ready(RoundMemory(m, step, chatMode, nudge, e, limit), prompt)
    ensures ChatsOk(RoundChats(m, e, limit), prompt)
    ensures !Crashes(m, e, limit)
  {
    AtChatIsOk(m, e, limit, prompt);
    if e.cancelled {
      DisturbedIsSound(m, e.beforeStep, limit);
    } else {
      AnswerIsReady(AtChat(m, e, limit), step, chatMode, nudge, e, limit, prompt);
    }
  }

  /** `good` survives every round, whose chats are all `ok`, and no round panics. */
  ghost predicate Invariant(rounds: Rounds, good: Memory -> bool, ok: Memory -> bool) {
    forall m, step, chatMode | good(m) :: RoundGoesOn(rounds(m, step, chatMode), good, ok)
  }

  ghost predicate RoundGoesOn(r: Round, good: Memory -> bool, ok: Memory -> bool) {
    good(r.memory) && (forall k | 0 <= k < |r.chats| :: ok(r.chats[k])) && r.outcome != Some(Panicked)
  }

  lemma {:induction false} ConverseKeeps(rounds: Rounds, m: Memory, chats: seq<Memory>, step: nat, chatMode: bool,
                                         maxSteps: nat, good: Memory -> bool, ok: Memory -> bool)
    requires Invariant(rounds, good, ok) && good(m) && forall k | 0 <= k < |chats| :: ok(chats[k])
    ensures var c := Converse(rounds, m, chats, step, chatMode, maxSteps);
      good(c.memory) && (forall k | 0 <= k < |c.chats| :: ok(c.chats[k])) && c.outcome != Panicked
    decreases maxSteps - step
  {
    if step < maxSteps {
      var r := rounds(m, step, chatMode);
      assert RoundGoesOn(r, good, ok);
      if r.outcome.None? {
        ConverseKeeps(rounds, r.memory, chats + r.chats, step + 1, r.stillChat, maxSteps, good, ok);
      }
    }
  }

  lemma {:induction false} VerdictIsNoPanic(env: RunInput, step: nat, chatMode: bool)
    ensures Verdict(env, step, chatMode) != Some(Panicked)
  {
  }

  lemma {:induction false} RoundsAreOk(env: RunInput, limit: nat)
    ensures Invariant(RoundsOf(env, limit), m => Ready(m, env.prompt), m => ChatOk(m, env.prompt))
  {
    var good, ok := (m: Memory) => Ready(m, env.prompt), (m: Memory) => ChatOk(m, env.prompt);
    forall m, step, chatMode | good(m) ensures RoundGoesOn(RoundsOf(env, limit)(m, step, chatMode), good, ok)
    {
      RoundIsReady(m, step, chatMode, env.nudge, env.steps(step), limit, env.prompt);
      VerdictIsNoPanic(env, step, chatMode);
    }
  }

  /** A run on a sound memory leaves it sound with the prompt pinned, hands every `Chat` what it must be
      handed, and never panics. */
  lemma {:induction false} RunIsOk(m: Memory, env: RunInput, limit: nat)
    requires Sound(m)
    ensures var c := RunOf(m, env, limit);
      Ready(c.memory, env.prompt) && ChatsOk(c.chats, env.prompt) && c.outcome != Panicked
  {
    BegunIsReady(m, env, limit);
    RoundsAreOk(env, limit);
    ConverseKeeps(RoundsOf(env, limit), Begun(m, env, limit), [], 0, env.chatMode, StepsOf(env),
                  m => Ready(m, env.prompt), m => ChatOk(m, env.prompt));
  }

  // Whole sessions.

  /** The memory of a session after these runs. */
  function After(m: Memory, runs: seq<RunInput>, limit: nat): Memory {
    if runs == [] then m
    else RunOf(After(m, runs[..|runs| - 1], limit), runs[|runs| - 1], limit).memory
  }

  /** Where run `k` of a session gets. */
  function CourseOf(m: Memory, runs: seq<RunInput>, k: nat, limit: nat): Course
    requires k < |runs|
  {
    RunOf(After(m, runs[..k], limit), runs[k], limit)
  }

  lemma {:induction false} SoundAfter(runs: seq<RunInput>, limit: nat)
    ensures Sound(After(Memory([], Empty), runs, limit))
  {
    if runs != [] {
      SoundAfter(runs[..|runs| - 1], limit);
      RunIsOk(After(Memory([], Empty), runs[..|runs| - 1], limit), runs[|runs| - 1], limit);
    }
  }

  /** However many runs a session sees, with whatever input: its memory stays sound, every `Chat` of every run
      is handed what it must be handed, and no run panics. */
  lemma {:induction false} SessionIsOk(runs: seq<RunInput>, limit: nat)
    ensures Sound(After(Memory([], Empty), runs, limit))
    ensures forall k | 0 <= k < |runs| :: CourseIsOk(CourseOf(Memory([], Empty), runs, k, limit), runs[k].prompt)
  {
    SoundAfter(runs, limit);
    forall k | 0 <= k < |runs| ensures CourseIsOk(CourseOf(Memory([], Empty), runs, k, limit), runs[k].prompt) {
      SoundAfter(runs[..k], limit);
      RunIsOk(After(Memory([], Empty), runs[..k], limit), runs[k], limit);
    }
  }

  ghost predicate CourseIsOk(c: Course, prompt: string) {
    Ready(c.memory, prompt) && ChatsOk(c.chats, prompt) && c.outcome != Panicked
  }

  // The log only grows.

  lemma {:induction false} ExtendsTrans(a: Log, b: Log, c: Log)
    requires Extends(a, b) && Extends(b, c)
    ensures Extends(a, c)
  {
    if a != b { ExtendsTrans(a.before, b, c); }
  }

  /** What extends a log carries on from the same messages. */
  lemma {:induction false} ExtendsIsPrefix(log: Log, base: Log)
    requires Extends(log, base)
    ensures All(base) <= All(log)
  {
    if log != base { ExtendsIsPrefix(log.before, base); }
  }

  lemma {:induction false} DisturbedExtends(m: Memory, steps: seq<Interference>, limit: nat)
    ensures Extends(Disturbed(m, steps, limit).log, m.log)
  {
    if steps != [] { DisturbedExtends(m, steps[..|steps| - 1], limit); }
  }

  lemma {:induction false} AtChatExtends(m: Memory, e: StepInput, limit: nat)
    ensures Extends(AtChat(m, e, limit).log, m.log)
  {
    var a := Tidied(Disturbed(m, e.beforeStep, limit), limit);
    DisturbedExtends(m, e.beforeStep, limit);
    DisturbedExtends(a, e.beforeChat, limit);
    ExtendsTrans(AtChat(m, e, limit).log, a.log, m.log);
  }

  lemma {:induction false} AnswerExtends(m: Memory, step: nat, chatMode: bool, nudge: string, e: StepInput, limit: nat)
    ensures Extends(Answer(m, step, chatMode, nudge, e, limit).log, m.log)
  {
    var later := Disturbed(m, e.duringChat, limit);
    DisturbedExtends(m, e.duringChat, limit);
    if e.reply.Reply? {
      var replied := Recorded(later, [ReplyMessage(chatMode, e)]);
      DisturbedExtends(replied, e.duringTools, limit);
      DisturbedExtends(replied, e.beforeNudge, limit);
      ExtendsTrans(replied.log, later.log, m.log);
      var last := Reaction(replied, step, chatMode, nudge, e, limit);
      assert Extends(last.log, replied.log);
      ExtendsTrans(last.log, replied.log, m.log);
    }
  }

  /** The chats follow each other on a growing log between `base` and `last`. */
  ghost predicate InOrder(base: Log, chats: seq<Memory>, last: Log) {
    && Extends(last, base)
    && (forall k | 0 <= k < |chats| :: Extends(chats[k].log, base) && Extends(last, chats[k].log))
    && (forall j, k | 0 <= j < k < |chats| :: Extends(chats[k].log, chats[j].log))
  }

  lemma {:induction false} RoundInOrder(m: Memory, step: nat, chatMode: bool, nudge: string, e: StepInput, limit: nat)
    ensures InOrder(m.log, RoundChats(m, e, limit), RoundMemory(m, step, chatMode, nudge, e, limit).log)
  {
    var c := AtChat(m, e, limit);
    DisturbedExtends(m, e.beforeStep, limit);
    AtChatExtends(m, e, limit);
    AnswerExtends(c, step, chatMode, nudge, e, limit);
    ExtendsTrans(Answer(c, step, chatMode, nudge, e, limit).log, c.log, m.log);
  }

  lemma {:induction false} InOrderJoin(base: Log, a: seq<Memory>, mid: Log, b: seq<Memory>, last: Log)
    requires InOrder(base, a, mid) && InOrder(mid, b, last)
    ensures InOrder(base, a + b, last)
  {
    ExtendsTrans(last, mid, base);
    var all := a + b;
    forall k | 0 <= k < |all| ensures Extends(all[k].log, base) && Extends(last, all[k].log) {
      if k < |a| { ExtendsTrans(last, mid, a[k].log); } else { ExtendsTrans(b[k - |a|].log, mid, base); }
    }
    forall j, k | 0 <= j < k < |all| ensures Extends(all[k].log, all[j].log) {
      if j < |a| <= k { ExtendsTrans(b[k - |a|].log, mid, a[j].log); }
    }
  }

  lemma {:induction false} ConverseInOrder(rounds: Rounds, base: Log, m: Memory, chats: seq<Memory>, step: nat,
                                           chatMode: bool, maxSteps: nat)
    requires InOrder(base, chats, m.log)
    requires forall n: Memory, i: nat, b: bool :: InOrder(n.log, rounds(n, i, b).chats, rounds(n, i, b).memory.log)
    ensures var c := Converse(rounds, m, chats, step, chatMode, maxSteps); InOrder(base, c.chats, c.memory.log)
    decreases maxSteps - step
  {
    if step < maxSteps {
      var r := rounds(m, step, chatMode);
      InOrderJoin(base, chats, m.log, r.chats, r.memory.log);
      if r.outcome.None? {
        ConverseInOrder(rounds, base, r.memory, chats + r.chats, step + 1, r.stillChat, maxSteps);
      }
    }
  }

  /** Every `Chat` of a run is handed what came of the log that the one before was handed, and more. */
  lemma {:induction false} ChatsGrow(m: Memory, env: RunInput, limit: nat)
    ensures var c := RunOf(m, env, limit); InOrder(Begun(m, env, limit).log, c.chats, c.memory.log)
  {
    var rounds, start := RoundsOf(env, limit), Begun(m, env, limit);
    forall n: Memory, i: nat, b: bool ensures InOrder(n.log, rounds(n, i, b).chats, rounds(n, i, b).memory.log) {
      RoundInOrder(n, i, b, env.nudge, env.steps(i), limit);
    }
    ConverseInOrder(rounds, start.log, start, [], 0, env.chatMode, StepsOf(env));
  }

  // The displaced prompt, where the provider really gets it.

  /** A compaction before a `Chat` that has something to drop puts a notice at index 1, and then the prompt is
      not the instruction that Gemini is sent. */
  lemma {:induction false} NoticeDisplacesPrompt(m: Memory, e: StepInput, limit: nat, prompt: string)
    requires Ready(m, prompt) && |m.history| >= 3 && Chars(m.history) > limit
    requires e.beforeStep == e.beforeChat == []
    ensures var h := AtChat(m, e, limit).history;
      && |h| >= 2 && IsNotice(h[1])
      && (G.Instruction(G.HalfCut(h)) == Some(h[1].content) || G.Instruction(G.HalfCut(h)) == None)
  {
    CompactionIsOptimal(m.history, limit);
    var n := AtChat(m, e, limit);
    TidiedIsSound(m, limit);
    assert n == Tidied(m, limit);
    G.InstructionOfHistory(n.history, All(n.log));
  }

  /** Two messages are enough: a first session that has seen one event, with the smallest token budget. */
  lemma {:induction false} PromptIsDisplaced() returns (env: RunInput)
    ensures var c := RunOf(Memory([], Empty), env, CharLimit(1));
      && c.chats != [] && c.chats[0].history != []
      && c.chats[0].history[0] == SystemMessage(env.prompt)
      && G.Instruction(G.HalfCut(c.chats[0].history)) != Some(env.prompt)
  {
    var e := StepInput(false, [], [], [], Failure(false, false), [], [], []);
    env := RunInput("TSK-1", "help", [], "You are", "", false, 1, [Event("disk full")], [], i => e);
    var limit := CharLimit(1);
    var m := Begun(Memory([], Empty), env, limit);
    BegunIsReady(Memory([], Empty), env, limit);
    OneEventBegun(env, limit);
    AtChatIsOk(m, e, limit, env.prompt);
    ShortPromptIsDisplaced(m, e, limit, env.prompt);
    OneFailure(m, env, e, limit);
  }

  lemma {:induction false} ShortPromptIsDisplaced(m: Memory, e: StepInput, limit: nat, prompt: string)
    requires Ready(m, prompt) && |m.history| >= 3 && Chars(m.history) > limit && |prompt| < |NOTICE_HEAD|
    requires e.beforeStep == e.beforeChat == []
    ensures G.Instruction(G.HalfCut(AtChat(m, e, limit).history)) != Some(prompt)
  {
    NoticeDisplacesPrompt(m, e, limit, prompt);
    var n :| AtChat(m, e, limit).history[1] == Notice(n);
    assert |Notice(n).content| >= |NOTICE_HEAD|;
  }

  lemma {:induction false} OneFailure(m: Memory, env: RunInput, e: StepInput, limit: nat)
    requires env.maxSteps == 1 && env.steps(0) == e && !e.cancelled && e.reply == Failure(false, false)
    requires !Crashes(m, e, limit)
    ensures Converse(RoundsOf(env, limit), m, [], 0, env.chatMode, StepsOf(env)).chats == [AtChat(m, e, limit)]
  {
    var rounds := RoundsOf(env, limit);
    var r := rounds(m, 0, env.chatMode);
    assert RoundChats(m, e, limit) == [AtChat(m, e, limit)];
    assert r.chats == RoundChats(m, e, limit);
    assert r.outcome == RoundOutcome(m, env, 0, env.chatMode, limit) == Some(ChatFailed);
    assert Converse(rounds, m, [], 0, env.chatMode, 1) == Course(r.memory, [] + r.chats, ChatFailed);
  }

  /** One input over twice Gemini's content limit is enough for the half-cut to lose the prompt: a first run that
      nothing interferes with, under the default limit, asks with no instruction at all. */
  lemma {:induction false} PromptIsLost(input: string) returns (env: RunInput)
    requires |input| > G.LLM_MAX_CONTENT_LENGTH * 2
    ensures var c := RunOf(Memory([], Empty), env, CharLimit(0));
      && env.input == input && c.chats != []
      && c.chats[0].history == [SystemMessage(env.prompt), UserMessage(input, [])]
      && G.Instruction(G.HalfCut(c.chats[0].history)) == None
  {
    var e := StepInput(false, [], [], [], Failure(false, false), [], [], []);
    env := RunInput("TSK-1", input, [], "You are", "", false, 1, [], [], i => e);
    var start, limit := Memory([], Empty), CharLimit(0);
    var m, h := Begun(start, env, limit), [SystemMessage(env.prompt), UserMessage(input, [])];
    BegunIsReady(start, env, limit);
    AtChatIsOk(m, e, limit, env.prompt);
    QuietBegun(env, limit);
    LastIsKept(h, limit);
    OneFailure(m, env, e, limit);
    G.InstructionOfHistory(h, [UserMessage(input, [])]);
  }

  lemma {:induction false} QuietBegun(env: RunInput, limit: nat)
    requires env.atStart == [] && env.duringPlanning == []
    ensures Begun(Memory([], Empty), env, limit).history ==
      [SystemMessage(env.prompt), UserMessage(env.input, env.images)]
  {
    assert [] + [UserMessage(env.input, env.images)] == [UserMessage(env.input, env.images)];
  }

  /** Of a prompt and one message a compaction drops nothing. */
  lemma {:induction false} LastIsKept(h: seq<Message>, limit: nat)
    requires |h| == 2 && h[0].role.System?
    ensures Compacted(h, limit) == Some(h)
  {
    assert [h[0]] + [] + h[1..][0..] == h;
  }

  lemma {:induction false} OneEventBegun(env: RunInput, limit: nat)
    requires env.atStart == [Event("disk full")] && env.duringPlanning == [] && |env.prompt| > limit
    ensures var h := Begun(Memory([], Empty), env, limit).history; |h| == 3 && Chars(h) > limit
  {
    var start := Memory([], Empty);
    assert [Event("disk full")][..0] == [];
    var a := Disturbed(start, env.atStart, limit);
    assert a == Alerted(start, "disk full") by {
      assert Disturbed(start, [], limit) == start;
    }
    var h := Begun(start, env, limit).history;
    assert h[0] == SystemMessage(env.prompt);
  }
}
