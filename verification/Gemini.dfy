/** How the Gemini provider turns a history into request contents: drop the older half of a huge
    history, merge adjacent messages of one role into turns, then drop orphan calls and responses.
    Images found on disk are inputs: `found(i)` lists those that the text of message `i` names and
    that could be read. */
module Gemini {
  import opened Common
  import opened Messages
  import opened ContextWindow

  const MAX_IMAGES_PER_MESSAGE: nat := 5
  const LLM_MAX_CONTENT_LENGTH: nat := 500 * 1024

  datatype Part =
    | Text(text: string)
    | Inline(data: string)
    | FunctionCall(name: string, arguments: string)
    | FunctionResponse(name: string, response: string)

  datatype Speaker = ModelSide | UserSide

  datatype Turn = Turn(speaker: Speaker, parts: seq<Part>)

  /** A history over twice the content limit loses its first half. */
  function HalfCut(h: seq<Message>): seq<Message> {
    if Chars(h) > LLM_MAX_CONTENT_LENGTH * 2 then h[|h| / 2..] else h
  }

  function SpeakerOf(role: Role): Speaker { if role.Assistant? then ModelSide else UserSide }

  function Take<T>(s: seq<T>, n: nat): seq<T> { if |s| <= n then s else s[..n] }

  function Images(data: seq<string>): seq<Part> {
    seq(|data|, k requires 0 <= k < |data| => Inline(data[k]))
  }

  function Calls(calls: seq<ToolCall>): seq<Part> {
    seq(|calls|, k requires 0 <= k < |calls| => FunctionCall(calls[k].name, calls[k].arguments))
  }

  /** The parts one message contributes; at most five of them are images. */
  function Parts(m: Message, found: seq<string>): seq<Part> {
    var shown := if m.role.Tool? || m.content != "" then Take(found, MAX_IMAGES_PER_MESSAGE) else [];
    var attached := Take(m.images, MAX_IMAGES_PER_MESSAGE - |shown|);
    Images(shown)
    + (if m.role.Tool? then [FunctionResponse(m.name, m.content)]
       else (if m.content != "" then [Text(m.content)] else []) + Calls(m.toolCalls))
    + Images(attached)
  }

  /** One round of the merge loop. */
  function Merge(raw: seq<Turn>, m: Message, found: seq<string>): seq<Turn> {
    if m.role.System? then raw
    else if raw != [] && raw[|raw| - 1].speaker == SpeakerOf(m.role) then
      raw[|raw| - 1 := Turn(SpeakerOf(m.role), raw[|raw| - 1].parts + Parts(m, found))]
    else raw + [Turn(SpeakerOf(m.role), Parts(m, found))]
  }

  function Merged(h: seq<Message>, found: nat -> seq<string>): seq<Turn> {
    if h == [] then [] else Merge(Merged(h[..|h| - 1], found), h[|h| - 1], found(|h| - 1))
  }

  /** The system instruction is the last system message seen. */
  function Instruction(h: seq<Message>): Option<string> {
    if h == [] then None
    else if h[|h| - 1].role.System? then Some(h[|h| - 1].content)
    else Instruction(h[..|h| - 1])
  }

  predicate HasCall(t: Turn) {
    exists k | 0 <= k < |t.parts| :: t.parts[k].FunctionCall?
  }

  predicate HasResponse(t: Turn) {
    exists k | 0 <= k < |t.parts| :: t.parts[k].FunctionResponse?
  }

  /** The decision of the sanitizing loop about turn `i`, which looks at the last turn kept so far. */
  predicate Keeps(raw: seq<Turn>, kept: seq<Turn>, i: nat)
    requires i < |raw|
  {
    && (HasResponse(raw[i]) ==> kept != [] && kept[|kept| - 1].speaker.ModelSide?)
    && (HasCall(raw[i]) ==> i + 1 < |raw| && HasResponse(raw[i + 1]))
  }

  /** What the sanitizing loop has kept of the first `n` turns. */
  function Sanitized(raw: seq<Turn>, n: nat): seq<Turn>
    requires n <= |raw|
  {
    if n == 0 then []
    else
      var kept := Sanitized(raw, n - 1);
      if Keeps(raw, kept, n - 1) then kept + [raw[n - 1]] else kept
  }

  /** The contents of the request for the history `h`. */
  function Contents(h: seq<Message>, found: nat -> seq<string>): seq<Turn> {
    var raw := Merged(HalfCut(h), found);
    Sanitized(raw, |raw|)
  }

  // Merging: roles alternate, calls stay with the model, and each response has its call next door.

  ghost predicate Alternating(raw: seq<Turn>) {
    forall j | 0 < j < |raw| :: raw[j].speaker != raw[j - 1].speaker
  }

  ghost predicate Sided(t: Turn) {
    (HasCall(t) ==> t.speaker.ModelSide?) && (HasResponse(t) ==> t.speaker.UserSide?)
  }

  ghost predicate AllSided(raw: seq<Turn>) {
    forall j | 0 <= j < |raw| :: Sided(raw[j])
  }

  predicate Calling(t: Turn, name: string) {
    exists k | 0 <= k < |t.parts| :: t.parts[k].FunctionCall? && t.parts[k].name == name
  }

  /** Every response of `t` names a call of `before`. */
  ghost predicate AnsweredBy(before: Turn, t: Turn) { PartsAnswered(before, t.parts) }

  ghost predicate PartsAnswered(before: Turn, parts: seq<Part>) {
    forall k | 0 <= k < |parts| :: PartAnswered(before, parts[k])
  }

  predicate PartAnswered(before: Turn, p: Part) { p.FunctionResponse? ==> Calling(before, p.name) }

  ghost predicate Linked(raw: seq<Turn>) {
    forall j | 0 < j < |raw| :: AnsweredBy(raw[j - 1], raw[j])
  }

  /** The calls of the last assistant message stand in the last model turn. */
  ghost predicate HoldsLast(raw: seq<Turn>, last: Option<Message>) {
    match last
    case None => |raw| <= 1 && forall j | 0 <= j < |raw| :: raw[j].speaker.UserSide?
    case Some(a) =>
      var j := if raw != [] && raw[|raw| - 1].speaker.ModelSide? then |raw| - 1 else |raw| - 2;
      0 <= j && raw[j].speaker.ModelSide?
      && forall k | 0 <= k < |a.toolCalls| :: Calling(raw[j], a.toolCalls[k].name)
  }

  lemma {:induction false} CallsInParts(m: Message, found: seq<string>)
    requires !m.role.Tool?
    ensures forall k | 0 <= k < |m.toolCalls| ::
              Calling(Turn(ModelSide, Parts(m, found)), m.toolCalls[k].name)
  {
    var p := Parts(m, found);
    var shown := if m.content != "" then Take(found, MAX_IMAGES_PER_MESSAGE) else [];
    var front := Images(shown) + (if m.content != "" then [Text(m.content)] else []);
    var back := Images(Take(m.images, MAX_IMAGES_PER_MESSAGE - |shown|));
    assert p == front + Calls(m.toolCalls) + back;
    forall k | 0 <= k < |m.toolCalls| ensures Calling(Turn(ModelSide, p), m.toolCalls[k].name) {
      CallBetween(front, m.toolCalls, back, k);
    }
  }

  lemma {:induction false} CallBetween(front: seq<Part>, calls: seq<ToolCall>, back: seq<Part>, k: nat)
    requires k < |calls|
    ensures Calling(Turn(ModelSide, front + Calls(calls) + back), calls[k].name)
  {
    var p := front + Calls(calls) + back;
    assert p[|front| + k] == Calls(calls)[k];
  }

  lemma {:induction false} NoResponseInParts(m: Message, found: seq<string>)
    requires !m.role.Tool?
    ensures forall k | 0 <= k < |Parts(m, found)| :: !Parts(m, found)[k].FunctionResponse?
  {
  }

  lemma {:induction false} ToolParts(m: Message, found: seq<string>)
    requires m.role.Tool?
    ensures forall k | 0 <= k < |Parts(m, found)| ::
              !Parts(m, found)[k].FunctionCall?
              && (Parts(m, found)[k].FunctionResponse? ==> Parts(m, found)[k].name == m.name)
  {
  }

  lemma {:induction false} MergeAlternates(h: seq<Message>, found: nat -> seq<string>)
    ensures Alternating(Merged(h, found))
  {
    if h != [] { MergeAlternates(h[..|h| - 1], found); }
  }

  lemma {:induction false} SidedParts(m: Message, found: seq<string>)
    requires !m.role.System? && (!m.role.Assistant? ==> m.toolCalls == [])
    ensures Sided(Turn(SpeakerOf(m.role), Parts(m, found)))
  {
    if m.role.Tool? { ToolParts(m, found); } else { CallsInParts(m, found); }
  }

  lemma {:induction false} SidedTogether(s: Speaker, a: seq<Part>, b: seq<Part>)
    requires Sided(Turn(s, a)) && Sided(Turn(s, b))
    ensures Sided(Turn(s, a + b))
  {
    forall k | 0 <= k < |a + b| ensures (a + b)[k].FunctionCall? ==> s.ModelSide? {
      if k >= |a| { assert (a + b)[k] == b[k - |a|]; } else { assert (a + b)[k] == a[k]; }
    }
    forall k | 0 <= k < |a + b| ensures (a + b)[k].FunctionResponse? ==> s.UserSide? {
      if k >= |a| { assert (a + b)[k] == b[k - |a|]; } else { assert (a + b)[k] == a[k]; }
    }
  }

  lemma {:induction false} MergeSides(h: seq<Message>, found: nat -> seq<string>)
    requires Paired(h)
    ensures AllSided(Merged(h, found))
  {
    if h != [] {
      var n := |h| - 1;
      assert h == h[..n] + [h[n]];
      PairedPrefix(h, n);
      MergeSides(h[..n], found);
      assert PairedAt(h, n);
      MergeSided(Merged(h[..n], found), h[n], found(n));
    }
  }

  lemma {:induction false} MergeSided(raw: seq<Turn>, m: Message, found: seq<string>)
    requires AllSided(raw) && (!m.role.Assistant? ==> m.toolCalls == [])
    ensures AllSided(Merge(raw, m, found))
  {
    if !m.role.System? {
      SidedParts(m, found);
      if raw != [] && raw[|raw| - 1].speaker == SpeakerOf(m.role) {
        assert Sided(raw[|raw| - 1]);
        SidedTogether(SpeakerOf(m.role), raw[|raw| - 1].parts, Parts(m, found));
      }
    }
  }

  lemma {:induction false} PairedPrefix(h: seq<Message>, n: nat)
    requires Paired(h) && n <= |h|
    ensures Paired(h[..n])
  {
    forall i | 0 <= i < n ensures PairedAt(h[..n], i) {
      assert PairedAt(h, i);
      assert h[..n][..i] == h[..i];
    }
  }

  lemma {:induction false} CallingBehind(speaker: Speaker, before: seq<Part>, p: seq<Part>, name: string)
    requires Calling(Turn(speaker, p), name)
    ensures Calling(Turn(speaker, before + p), name)
  {
    var k :| 0 <= k < |p| && p[k].FunctionCall? && p[k].name == name;
    assert (before + p)[|before| + k] == p[k];
  }

  /** One merge round keeps the last assistant's calls in the last model turn. */
  lemma {:induction false} MergeHoldsLast(raw: seq<Turn>, h: seq<Message>, m: Message, found: seq<string>)
    requires Alternating(raw) && HoldsLast(raw, LastAssistant(h))
    ensures HoldsLast(Merge(raw, m, found), LastAssistant(h + [m]))
  {
    assert (h + [m])[..|h|] == h;
    if m.role.Assistant? {
      assert LastAssistant(h + [m]) == Some(m);
      MergeHoldsCalls(raw, m, found);
    } else {
      assert LastAssistant(h + [m]) == LastAssistant(h);
      MergeHoldsOlder(raw, LastAssistant(h), m, found);
    }
  }

  lemma {:induction false} MergeHoldsCalls(raw: seq<Turn>, m: Message, found: seq<string>)
    requires m.role.Assistant?
    ensures HoldsLast(Merge(raw, m, found), Some(m))
  {
    var r, p := Merge(raw, m, found), Parts(m, found);
    var before := if raw != [] && raw[|raw| - 1].speaker.ModelSide? then raw[|raw| - 1].parts else [];
    CallsInParts(m, found);
    assert [] + p == p;
    assert r[|r| - 1] == Turn(ModelSide, before + p);
    forall k | 0 <= k < |m.toolCalls| ensures Calling(r[|r| - 1], m.toolCalls[k].name) {
      CallingBehind(ModelSide, before, p, m.toolCalls[k].name);
    }
  }

  lemma {:induction false} MergeHoldsOlder(raw: seq<Turn>, last: Option<Message>, m: Message, found: seq<string>)
    requires Alternating(raw) && HoldsLast(raw, last) && !m.role.Assistant?
    ensures HoldsLast(Merge(raw, m, found), last)
  {
  }

  /** One merge round keeps every response next to its call. */
  lemma {:induction false} MergeLinks(raw: seq<Turn>, h: seq<Message>, m: Message, found: seq<string>)
    requires Linked(raw) && HoldsLast(raw, LastAssistant(h))
    requires PairedAt(h + [m], |h|)
    ensures Linked(Merge(raw, m, found))
  {
    var r := Merge(raw, m, found);
    forall j | 0 < j < |r| ensures AnsweredBy(r[j - 1], r[j]) {
      if j < |raw| { assert AnsweredBy(raw[j - 1], raw[j]); }
      if j == |r| - 1 && !m.role.System? {
        assert r[j - 1] == raw[j - 1];
        MergedTurnIsAnswered(raw, h, m, found, j);
      } else if j < |raw| {
        assert r[j] == raw[j] && r[j - 1] == raw[j - 1];
      }
    }
  }

  /** The parts that stood in turn `j` before this round. */
  function PartsBefore(raw: seq<Turn>, j: nat): seq<Part> { if j < |raw| then raw[j].parts else [] }

  lemma {:induction false} AnsweredTogether(before: Turn, a: seq<Part>, b: seq<Part>)
    requires PartsAnswered(before, a) && PartsAnswered(before, b)
    ensures PartsAnswered(before, a + b)
  {
    forall k | 0 <= k < |a + b| ensures PartAnswered(before, (a + b)[k]) {
      assert if k < |a| then PartAnswered(before, a[k]) else PartAnswered(before, b[k - |a|]);
    }
  }

  /** A message's own parts have their calls in the turn before, if its tool's call is there. */
  lemma {:induction false} OwnPartsAnswered(before: Turn, m: Message, found: seq<string>)
    requires m.role.Tool? ==> Calling(before, m.name)
    ensures PartsAnswered(before, Parts(m, found))
  {
    var p := Parts(m, found);
    if m.role.Tool? {
      ToolParts(m, found);
    } else {
      NoResponseInParts(m, found);
    }
    forall k | 0 <= k < |p| ensures PartAnswered(before, p[k]) {}
  }

  /** The last turn after this round, when it is not the first. */
  lemma {:induction false} MergedTurnIsAnswered(raw: seq<Turn>, h: seq<Message>, m: Message, found: seq<string>, j: nat)
    requires HoldsLast(raw, LastAssistant(h)) && PairedAt(h + [m], |h|) && !m.role.System?
    requires 0 < j == |Merge(raw, m, found)| - 1
    requires j < |raw| ==> AnsweredBy(raw[j - 1], raw[j])
    ensures j <= |raw| && AnsweredBy(raw[j - 1], Merge(raw, m, found)[j])
  {
    var was := PartsBefore(raw, j);
    assert Merge(raw, m, found)[j].parts == was + Parts(m, found);
    if m.role.Tool? { CallStandsBefore(raw, h, m, found, j); }
    OwnPartsAnswered(raw[j - 1], m, found);
    AnsweredTogether(raw[j - 1], was, Parts(m, found));
  }

  lemma {:induction false} CallStandsBefore(raw: seq<Turn>, h: seq<Message>, m: Message, found: seq<string>, j: nat)
    requires HoldsLast(raw, LastAssistant(h)) && PairedAt(h + [m], |h|) && m.role.Tool?
    requires 0 < j == |Merge(raw, m, found)| - 1
    ensures j <= |raw| && Calling(raw[j - 1], m.name)
  {
    assert (h + [m])[..|h|] == h;
    ToolLinks(raw, h, m);
  }

  /** A tool message finds its call in the last model turn. */
  lemma {:induction false} ToolLinks(raw: seq<Turn>, h: seq<Message>, m: Message)
    requires HoldsLast(raw, LastAssistant(h)) && m.role.Tool?
    requires LastAssistant(h).Some? ==> Answers(m, LastAssistant(h).value)
    ensures var j := if raw != [] && raw[|raw| - 1].speaker.ModelSide? then |raw| - 1 else |raw| - 2;
            if LastAssistant(h).None? then |raw| <= 1 && j < 0 else 0 <= j && Calling(raw[j], m.name)
  {
  }

  lemma {:induction false} MergeIsLinked(h: seq<Message>, found: nat -> seq<string>)
    requires Paired(h)
    ensures Linked(Merged(h, found)) && HoldsLast(Merged(h, found), LastAssistant(h))
  {
    if h != [] {
      var n := |h| - 1;
      assert h == h[..n] + [h[n]];
      PairedPrefix(h, n);
      MergeIsLinked(h[..n], found);
      MergeAlternates(h[..n], found);
      MergeSides(h[..n], found);
      assert PairedAt(h, n);
      MergeHoldsLast(Merged(h[..n], found), h[..n], h[n], found(n));
      MergeLinks(Merged(h[..n], found), h[..n], h[n], found(n));
    }
  }

  // Sanitizing: on alternating turns the loop's memory does not matter.

  /** The turn is dropped for being a leading response turn or a call turn nobody answers. */
  predicate Orphan(raw: seq<Turn>, i: nat)
    requires i < |raw|
  {
    || (HasResponse(raw[i]) && i == 0)
    || (HasCall(raw[i]) && !(i + 1 < |raw| && HasResponse(raw[i + 1])))
  }

  /** The turns of the first `n` that are no orphans. */
  function WithoutOrphans(raw: seq<Turn>, n: nat): seq<Turn>
    requires n <= |raw|
  {
    if n == 0 then []
    else WithoutOrphans(raw, n - 1) + (if Orphan(raw, n - 1) then [] else [raw[n - 1]])
  }

  /** The sanitizing loop, which looks back at the last turn it kept, is a filter that looks only at a
      turn and its neighbours. */
  lemma {:induction false} SanitizeIsFilter(raw: seq<Turn>, n: nat)
    requires n <= |raw| && Alternating(raw) && AllSided(raw)
    ensures Sanitized(raw, n) == WithoutOrphans(raw, n)
  {
    if n > 0 {
      SanitizeIsFilter(raw, n - 1);
      var i := n - 1;
      assert Sided(raw[i]);
      if HasResponse(raw[i]) && i > 0 {
        assert raw[i].speaker != raw[i - 1].speaker;
        assert Sided(raw[i - 1]);
        assert !Orphan(raw, i - 1);
        assert WithoutOrphans(raw, i) == WithoutOrphans(raw, i - 1) + [raw[i - 1]];
      }
    }
  }

  /** Each call turn is directly followed by a response turn; only the last turn may still wait for its
      responses, if `open`. */
  ghost predicate CallsAnswered(c: seq<Turn>, open: bool) {
    forall j | 0 <= j < |c| :: AnsweredAt(c, j, open)
  }

  predicate AnsweredAt(c: seq<Turn>, j: nat, open: bool)
    requires j < |c|
  {
    HasCall(c[j]) ==> if j == |c| - 1 then open else HasResponse(c[j + 1])
  }

  /** Each response turn is directly preceded by a turn that calls every function it answers. */
  ghost predicate ResponsesCalled(c: seq<Turn>) {
    forall j | 0 <= j < |c| && HasResponse(c[j]) :: j > 0 && HasCall(c[j - 1]) && AnsweredBy(c[j - 1], c[j])
  }

  /** What the provider must be sent. */
  ghost predicate WellPaired(c: seq<Turn>) {
    CallsAnswered(c, false) && ResponsesCalled(c)
  }

  lemma {:induction false} BeforeResponseIsKept(raw: seq<Turn>, n: nat)
    requires 0 < n < |raw| && Alternating(raw) && AllSided(raw) && HasResponse(raw[n])
    ensures var c := WithoutOrphans(raw, n); c != [] && c[|c| - 1] == raw[n - 1]
  {
    assert Sided(raw[n]) && raw[n].speaker != raw[n - 1].speaker;
    assert Sided(raw[n - 1]);
    assert !Orphan(raw, n - 1);
  }

  lemma {:induction false} FilterAnswersCalls(raw: seq<Turn>, n: nat)
    requires n <= |raw| && Alternating(raw) && AllSided(raw)
    ensures CallsAnswered(WithoutOrphans(raw, n), n < |raw| && HasResponse(raw[n]))
  {
    if n > 0 {
      var i := n - 1;
      FilterAnswersCalls(raw, i);
      assert Sided(raw[i]);
      var before, c := WithoutOrphans(raw, i), WithoutOrphans(raw, n);
      var open := n < |raw| && HasResponse(raw[n]);
      assert before == [] || i > 0;
      forall j | 0 <= j < |c| ensures AnsweredAt(c, j, open) {
        if j < |before| { assert AnsweredAt(before, j, HasResponse(raw[i])); }
      }
    }
  }

  lemma {:induction false} ResponseHasCall(before: Turn, t: Turn)
    requires AnsweredBy(before, t) && HasResponse(t)
    ensures HasCall(before)
  {
    var k :| 0 <= k < |t.parts| && t.parts[k].FunctionResponse?;
    assert Calling(before, t.parts[k].name);
  }

  lemma {:induction false} FilterCallsResponses(raw: seq<Turn>, n: nat)
    requires n <= |raw| && Alternating(raw) && AllSided(raw) && Linked(raw)
    ensures ResponsesCalled(WithoutOrphans(raw, n))
  {
    if n > 0 {
      var i := n - 1;
      FilterCallsResponses(raw, i);
      var before, c := WithoutOrphans(raw, i), WithoutOrphans(raw, n);
      if !Orphan(raw, i) && HasResponse(raw[i]) {
        BeforeResponseIsKept(raw, i);
        assert AnsweredBy(raw[i - 1], raw[i]);
        ResponseHasCall(raw[i - 1], raw[i]);
      }
      forall j | 0 <= j < |c| && HasResponse(c[j])
        ensures j > 0 && HasCall(c[j - 1]) && AnsweredBy(c[j - 1], c[j])
      {
        if j < |before| { assert c[j] == before[j]; }
      }
    }
  }

  /** End to end, on every paired history and whatever images are found: what is sent is well paired. */
  lemma {:induction false} ContentsAreWellPaired(h: seq<Message>, found: nat -> seq<string>)
    requires Paired(h)
    ensures WellPaired(Contents(h, found))
  {
    var cut := HalfCut(h);
    PairedDrop(h, |h| / 2);
    MergeAlternates(cut, found);
    MergeSides(cut, found);
    MergeIsLinked(cut, found);
    var raw := Merged(cut, found);
    SanitizeIsFilter(raw, |raw|);
    FilterAnswersCalls(raw, |raw|);
    FilterCallsResponses(raw, |raw|);
  }

  // The system instruction.

  lemma {:induction false} InstructionBehind(a: seq<Message>, b: seq<Message>)
    requires NoSystem(b)
    ensures Instruction(a + b) == Instruction(a)
  {
    if b == [] {
      assert a + b == a;
    } else {
      assert (a + b)[..|a + b| - 1] == a + b[..|b| - 1];
      InstructionBehind(a, b[..|b| - 1]);
    }
  }

  /** What becomes of the system prompt: it is the instruction as long as the history carries no notice
      and is not cut in half; a notice displaces it, and a half-cut loses both, except that a history
      of a prompt, a notice and one message keeps the notice. */
  lemma {:induction false} InstructionOfHistory(h: seq<Message>, log: seq<Message>)
    requires Headed(h, log) && NoSystem(log)
    ensures var noticed := h[1].role.System?;
            Instruction(HalfCut(h)) ==
            if Chars(h) <= LLM_MAX_CONTENT_LENGTH * 2 then Some(h[if noticed then 1 else 0].content)
            else if noticed && |h| == 3 then Some(h[1].content)
            else None
  {
    if Chars(h) <= LLM_MAX_CONTENT_LENGTH * 2 {
      InstructionUncut(h, log);
    } else {
      InstructionOfHalf(h, log);
    }
  }

  lemma {:induction false} InstructionUncut(h: seq<Message>, log: seq<Message>)
    requires Headed(h, log) && NoSystem(log)
    ensures Instruction(h) == Some(h[if h[1].role.System? then 1 else 0].content)
  {
    SuffixHasNoSystem(Body(h), log);
    LastSystemInstructs(h, if h[1].role.System? then 1 else 0);
  }

  lemma {:induction false} LastSystemInstructs(h: seq<Message>, i: nat)
    requires i < |h| && h[i].role.System? && NoSystem(h[i + 1..])
    ensures Instruction(h) == Some(h[i].content)
  {
    assert h == h[..i + 1] + h[i + 1..];
    InstructionBehind(h[..i + 1], h[i + 1..]);
    LastIsInstruction(h[..i + 1]);
  }

  lemma {:induction false} InstructionOfHalf(h: seq<Message>, log: seq<Message>)
    requires Headed(h, log) && NoSystem(log)
    ensures Instruction(h[|h| / 2..]) == if h[1].role.System? && |h| == 3 then Some(h[1].content) else None
  {
    var b := Body(h);
    SuffixHasNoSystem(b, log);
    var front, n := |h| - |b|, |h| / 2;
    if n < front {
      assert h[n..] == [h[1]] + b;
      InstructionBehind([h[1]], b);
      LastIsInstruction([h[1]]);
    } else {
      forall i | 0 <= i < |h| - n ensures !h[n..][i].role.System? {
        assert h[n..][i] == b[n - front + i];
      }
      NoInstruction(h[n..]);
    }
  }

  lemma {:induction false} LastIsInstruction(a: seq<Message>)
    requires a != [] && a[|a| - 1].role.System?
    ensures Instruction(a) == Some(a[|a| - 1].content)
  {
  }

  lemma {:induction false} NoInstruction(b: seq<Message>)
    requires NoSystem(b)
    ensures Instruction(b) == None
  {
    assert [] + b == b;
    InstructionBehind([], b);
  }

  // The request builder as the provider runs it.

  method BuildRequest(history: seq<Message>, found: nat -> seq<string>)
    returns (instruction: Option<string>, contents: seq<Turn>)
    ensures instruction == Instruction(HalfCut(history))
    ensures contents == Contents(history, found)
  {
    var totalChars := 0;
    for i := 0 to |history|
      invariant totalChars == Chars(history[..i])
    {
      CharsSnoc(history, i);
      totalChars := totalChars + |history[i].content|;
    }
    assert history[..|history|] == history;
    var h := history;
    if totalChars > LLM_MAX_CONTENT_LENGTH * 2 {
      h := h[|h| / 2..];
    }
    var raw;
    instruction, raw := MergeTurns(h, found);
    contents := Sanitize(raw);
  }

  method MergeTurns(h: seq<Message>, found: nat -> seq<string>)
    returns (instruction: Option<string>, raw: seq<Turn>)
    ensures instruction == Instruction(h) && raw == Merged(h, found)
  {
    instruction, raw := None, [];
    for i := 0 to |h|
      invariant raw == Merged(h[..i], found) && instruction == Instruction(h[..i])
    {
      assert h[..i + 1][..i] == h[..i];
      var m := h[i];
      if m.role.System? {
        instruction := Some(m.content);
        continue;
      }
      var speaker := if m.role.Assistant? then ModelSide else UserSide;
      var parts := Parts(m, found(i));
      if |raw| > 0 && raw[|raw| - 1].speaker == speaker {
        raw := raw[|raw| - 1 := Turn(speaker, raw[|raw| - 1].parts + parts)];
      } else {
        raw := raw + [Turn(speaker, parts)];
      }
    }
    assert h[..|h|] == h;
  }

  method Sanitize(raw: seq<Turn>) returns (contents: seq<Turn>)
    ensures contents == Sanitized(raw, |raw|)
  {
    contents := [];
    for i := 0 to |raw|
      invariant contents == Sanitized(raw, i)
    {
      var hasCall, hasResponse := Inspect(raw[i].parts);
      if hasResponse && (|contents| == 0 || contents[|contents| - 1].speaker != ModelSide) {
        continue;
      }
      if hasCall {
        if i + 1 >= |raw| { continue; }
        var _, nextHasResponse := Inspect(raw[i + 1].parts);
        if !nextHasResponse { continue; }
      }
      contents := contents + [raw[i]];
    }
  }

  method Inspect(parts: seq<Part>) returns (hasCall: bool, hasResponse: bool)
    ensures forall s :: hasCall == HasCall(Turn(s, parts)) && hasResponse == HasResponse(Turn(s, parts))
  {
    hasCall, hasResponse := false, false;
    for k := 0 to |parts|
      invariant hasCall <==> exists j | 0 <= j < k :: parts[j].FunctionCall?
      invariant hasResponse <==> exists j | 0 <= j < k :: parts[j].FunctionResponse?
    {
      if parts[k].FunctionCall? { hasCall := true; }
      if parts[k].FunctionResponse? { hasResponse := true; }
    }
  }
}
