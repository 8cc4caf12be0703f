/** A session and the agent's `Run` on it. System events and the compactions they trigger come in from
    another goroutine whenever the session's lock is free; `log` is the ghost record of everything recorded.
    Each method is proved to do to the memory what the function of `Conversations` says. */
module Sessions {
  import opened Common
  import opened Messages
  import opened ContextWindow
  import opened Conversations
  import opened Talks
  import ToolBatch

  /** The copies of the history a run hands to the provider. */
  function Histories(chats: seq<Memory>): seq<seq<Message>> {
    if chats == [] then [] else Histories(chats[..|chats| - 1]) + [chats[|chats| - 1].history]
  }

  lemma {:induction false} HistoriesConcat(a: seq<Memory>, b: seq<Memory>)
    ensures Histories(a + b) == Histories(a) + Histories(b)
  {
    if b == [] {
      assert a + b == a;
    } else {
      assert (a + b)[..|a + b| - 1] == a + b[..|b| - 1];
      HistoriesConcat(a, b[..|b| - 1]);
    }
  }

  lemma {:induction false} HistoriesIndex(chats: seq<Memory>, k: nat)
    requires k < |chats|
    ensures |Histories(chats)| == |chats| && Histories(chats)[k] == chats[k].history
  {
    var n := |chats| - 1;
    if k < n { HistoriesIndex(chats[..n], k); } else if n > 0 { HistoriesIndex(chats[..n], 0); }
  }

  class Session {
    var history: seq<Message>
    const charLimit: nat
    ghost var log: Log

    ghost function Now(): Memory
      reads this
    {
      Memory(history, log)
    }

    ghost predicate Valid()
      reads this
    {
      Sound(Now())
    }

    constructor (maxContextTokens: int)
      ensures Valid() && Now() == Memory([], Empty) && charLimit == CharLimit(maxContextTokens)
    {
      charLimit := CharLimit(maxContextTokens);
      history, log := [], Empty;
    }

    method TrimHistory()
      modifies this`history
      ensures history == Trimmed(old(history))
    {
      if |history| <= MAX_HISTORY_MESSAGES {
        return;
      }
      var hasSystem := |history| > 0 && history[0].role.System?;
      if hasSystem {
        var startIdx := |history| - (MAX_HISTORY_MESSAGES - 1);
        if startIdx < 1 {
          startIdx := 1;
        }
        history := [history[0]] + history[startIdx..];
      } else {
        history := history[|history| - MAX_HISTORY_MESSAGES..];
      }
    }

    /** Appending under the lock, then trimming, as `Run` does with whatever it has to say. */
    method Record(said: seq<Message>)
      modifies this
      ensures Now() == Recorded(old(Now()), said)
    {
      history, log := history + said, Said(log, said);
      TrimHistory();
    }

    method ManageContextWindow() returns (panicked: bool)
      modifies this`history
      ensures panicked <==> Compacted(old(history), charLimit).None?
      ensures history == if panicked then old(history) else Compacted(old(history), charLimit).value
    {
      panicked := false;
      var h := history;
      if |h| == 0 {
        return;
      }
      var totalChars := 0;
      for i := 0 to |h|
        invariant totalChars == Chars(h[..i]) && history == h
      {
        CharsSnoc(h, i);
        totalChars := totalChars + |h[i].content|;
      }
      assert h[..|h|] == h;
      if totalChars <= charLimit || !h[0].role.System? {
        return;
      }
      var systemMsg, rest := h[0], h[1..];
      if |rest| == 0 {
        panicked := true;  // slicing the empty list from -1
        return;
      }
      var currentChars := |systemMsg.content|;
      var safeIndex := -1;
      var i := |rest| - 1;
      while i >= 0
        invariant -1 <= i < |rest| && -1 <= safeIndex
        invariant safeIndex == if i == |rest| - 1 then -1 else i + 1
        invariant currentChars == |systemMsg.content| + Chars(rest[i + 1..])
        invariant safeIndex >= 0 ==> Fits(|systemMsg.content|, rest, safeIndex, charLimit)
        invariant i == |rest| - 1 ==> rest[i + 1..] == []
      {
        CharsDrop(rest, i);
        if currentChars + |rest[i].content| > charLimit {
          break;
        }
        currentChars := currentChars + |rest[i].content|;
        safeIndex := i;
        i := i - 1;
      }
      if safeIndex == -1 {
        safeIndex := |rest| - 1;
      }
      KeepFromByScan(|systemMsg.content|, rest, charLimit, safeIndex);
      var kept := [systemMsg];
      if safeIndex > 0 {
        kept := kept + [Notice(safeIndex)];
      }
      history := kept + rest[safeIndex..];
    }

    method RefreshSystemPrompt(prompt: string)
      modifies this`history
      ensures Now() == Pinned(old(Now()), prompt)
    {
      if |history| == 0 || !history[0].role.System? {
        history := [SystemMessage(prompt)] + history;
      } else {
        history := history[0 := SystemMessage(prompt)];
      }
    }

    method HandleSystemEvent(text: string)
      modifies this
      ensures Now() == Alerted(old(Now()), text)
    {
      history, log := history + [EventMessage(text)], Happened(log, EventMessage(text));
    }

    /** What other goroutines do; the one that compacts recovers from a panic. */
    method Interfere(steps: seq<Interference>)
      modifies this
      ensures Now() == Disturbed(old(Now()), steps, charLimit)
    {
      ghost var start := Now();
      for i := 0 to |steps|
        invariant Now() == Disturbed(start, steps[..i], charLimit)
      {
        assert steps[..i + 1][..i] == steps[..i];
        match steps[i]
        case Event(text) => HandleSystemEvent(text);
        case Compaction => var _ := ManageContextWindow();
      }
      assert steps[..|steps|] == steps;
    }

    /** The compaction before a `Chat` and the copies of the history that it, and a retry, are handed. */
    method Show(e: StepInput) returns (panicked: bool, shown: seq<seq<Message>>)
      modifies this
      ensures panicked == Panics(old(Now()), charLimit)
      ensures panicked ==> Now() == old(Now())
      ensures !panicked ==> Now() == Disturbed(Tidied(old(Now()), charLimit), e.beforeChat, charLimit)
      ensures shown == if panicked then [] else if e.reply.retried then [history, history] else [history]
    {
      panicked := ManageContextWindow();
      shown := [];
      if panicked { return; }
      Interfere(e.beforeChat);
      var currentHistory := history;
      shown := [currentHistory];
      if e.reply.retried {
        shown := shown + [currentHistory];
      }
    }

    /** The tool calls of one step, run in parallel, and their results. */
    method Act(calls: seq<ToolCall>, e: StepInput)
      modifies this
      ensures var results := ToolBatch.Outputs(ToolBatch.After(ToolBatch.Init(calls), e.schedule));
        var later := Disturbed(old(Now()), e.duringTools, charLimit);
        Now() == if results == [] then later else Recorded(later, results)
    {
      var results := ToolBatch.RunBatch(calls, e.schedule);
      Interfere(e.duringTools);
      if |results| > 0 {
        Record(results);
      }
    }

    method FinalizeTask(id: string, input: string, output: string) returns (finalOutput: string)
      ensures finalOutput == Finalized(id, input, output)
    {
      if output == "" {
        finalOutput := ANSWER_HEAD + id + "]\n" + input;
      } else {
        finalOutput := ANSWER_HEAD + id + "]\n" + output;
      }
    }

    /** What follows a reply: `None` means the loop goes on. */
    method React(env: RunInput, step: nat, chatMode: bool) returns (outcome: Option<Outcome>, stillChat: bool)
      requires env.steps(step).reply.Reply? && !env.steps(step).cancelled
      modifies this
      ensures var e := env.steps(step); var replied := Recorded(old(Now()), [ReplyMessage(chatMode, e)]);
        Now() == Reaction(replied, step, chatMode, env.nudge, e, charLimit)
      ensures outcome == Verdict(env, step, chatMode) && stillChat == StaysChat(chatMode, env.steps(step))
    {
      var e := env.steps(step);
      var content, calls := e.reply.content, e.reply.calls;
      if !chatMode && calls == [] {
        calls := e.reply.fallback;
      }
      Record([AssistantMessage(content, calls)]);
      outcome, stillChat := None, chatMode;
      if calls != [] && stillChat {
        stillChat := false;
      }
      if stillChat {
        var answer := FinalizeTask(env.id, env.input, content);
        outcome := Some(Answered(answer));
      } else if calls != [] {
        Act(calls, e);
      } else if step > 0 {
        if content == "" { content := DONE_TEXT; }
        var answer := FinalizeTask(env.id, env.input, content);
        outcome := Some(Answered(answer));
      } else if content != "" {
        Interfere(e.beforeNudge);
        Record([UserMessage(env.nudge, [])]);
      }
    }

    /** Everything before the loop: the input is recorded, a plan is made, the prompt is pinned. */
    method Begin(env: RunInput)
      modifies this
      ensures Now() == Begun(old(Now()), env, charLimit)
    {
      Interfere(env.atStart);
      Record([UserMessage(env.input, env.images)]);
      Interfere(env.duringPlanning);
      RefreshSystemPrompt(env.prompt);
    }

    /** One round of the loop: what it showed the provider, and whether the run is over. */
    method NextRound(env: RunInput, step: nat, chatMode: bool)
      returns (outcome: Option<Outcome>, stillChat: bool, shown: seq<seq<Message>>)
      modifies this
      ensures Now() == RoundMemory(old(Now()), step, chatMode, env.nudge, env.steps(step), charLimit)
      ensures outcome == RoundOutcome(old(Now()), env, step, chatMode, charLimit)
      ensures outcome.None? ==> stillChat == StaysChat(chatMode, env.steps(step))
      ensures shown == Histories(RoundChats(old(Now()), env.steps(step), charLimit))
    {
      var e := env.steps(step);
      stillChat, shown := chatMode, [];
      ghost var start := Now();
      Interfere(e.beforeStep);
      if e.cancelled {
        outcome := Some(Cancelled);
        return;
      }
      var panicked;
      panicked, shown := Show(e);
      if panicked {
        outcome := Some(Panicked);
        return;
      }
      OneHistory(Now());
      Interfere(e.duringChat);
      if e.reply.Failure? {
        outcome := Some(if e.reply.cancelled then Cancelled else ChatFailed);
      } else {
        outcome, stillChat := React(env, step, chatMode);
      }
    }

    /** One whole run, for any input, replies, tool schedules, events and compactions. It does what the
        functions of `Conversations` say: what it hands to the provider, at each chat, is the history of that
        chat's memory, which is as `ChatOk` says; and it leaves the session valid for the next run. */
    method Run(env: RunInput) returns (outcome: Outcome, sent: seq<seq<Message>>)
      requires Valid()
      modifies this
      ensures var c := RunOf(old(Now()), env, charLimit);
        && Now() == c.memory && outcome == c.outcome
        && |sent| == |c.chats|
        && (forall k | 0 <= k < |sent| :: sent[k] == c.chats[k].history && ChatOk(c.chats[k], env.prompt))
        && InOrder(Begun(old(Now()), env, charLimit).log, c.chats, log)
        && Talk(log, LogsAt(c.chats), outcome) == TalkOf(old(log), env)
      ensures |sent| == |TalkOf(old(log), env).asked|
      ensures forall n | Last(env, n) :: outcome == EndAt(env, n)
      ensures outcome.Answered? ==> AnswersLast(env, log, outcome.content)
      ensures Ready(Now(), env.prompt) && outcome != Panicked
    {
      ghost var start := Now();
      RunIsOk(start, env, charLimit);
      RunRefinesTalk(start, env, charLimit);
      RunEnds(start, env, charLimit);
      AnswerIsLast(start, env, charLimit);
      ChatsGrow(start, env, charLimit);
      outcome, sent := Rounds(env);
      ghost var c := RunOf(start, env, charLimit);
      forall k | 0 <= k < |c.chats| ensures |sent| == |c.chats| && sent[k] == c.chats[k].history {
        HistoriesIndex(c.chats, k);
      }
    }

    method Rounds(env: RunInput) returns (outcome: Outcome, sent: seq<seq<Message>>)
      modifies this
      ensures var c := RunOf(old(Now()), env, charLimit);
        Now() == c.memory && outcome == c.outcome && sent == Histories(c.chats)
    {
      ghost var rounds, whole, chats := RoundsOf(env, charLimit), RunOf(Now(), env, charLimit), [];
      sent := [];
      Begin(env);
      var maxSteps := if env.maxSteps <= 0 then DEFAULT_MAX_STEPS else env.maxSteps;
      var chatMode := env.chatMode;
      for step := 0 to maxSteps
        invariant Converse(rounds, Now(), chats, step, chatMode, maxSteps) == whole
        invariant sent == Histories(chats)
      {
        ghost var r := rounds(Now(), step, chatMode);
        var over, shown;
        over, chatMode, shown := NextRound(env, step, chatMode);
        HistoriesConcat(chats, r.chats);
        sent, chats := sent + shown, chats + r.chats;
        if over.Some? {
          return over.value, sent;
        }
      }
      outcome := StepLimit;
    }
  }

  lemma {:induction false} OneHistory(m: Memory)
    ensures Histories([m]) == [m.history] && Histories([m, m]) == [m.history, m.history]
  {
    assert [m, m] == [m] + [m];
    assert Histories([]) == [];
    assert [m][..0] == [];
    HistoriesConcat([m], [m]);
  }
}
