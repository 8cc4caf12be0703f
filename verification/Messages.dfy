/** The chat messages the agent stores in a session and hands to a provider.
    A text is a sequence of bytes, one character each. */
module Messages {
  import opened Common

  datatype Role = System | User | Assistant | Tool

  datatype ToolCall = ToolCall(id: string, name: string, arguments: string)

  datatype Message = Message(role: Role, content: string, images: seq<string>,
                             name: string, toolCalls: seq<ToolCall>, toolCallId: string)

  function SystemMessage(content: string): Message {
    Message(System, content, [], "", [], "")
  }

  function UserMessage(content: string, images: seq<string>): Message {
    Message(User, content, images, "", [], "")
  }

  function AssistantMessage(content: string, calls: seq<ToolCall>): Message {
    Message(Assistant, content, [], "", calls, "")
  }

  function ToolMessage(call: ToolCall, content: string, images: seq<string>): Message {
    Message(Tool, content, images, call.name, [], call.id)
  }

  /** The number of characters of all contents together. */
  function Chars(h: seq<Message>): nat {
    if h == [] then 0 else |h[0].content| + Chars(h[1..])
  }

  lemma {:induction false} CharsConcat(a: seq<Message>, b: seq<Message>)
    ensures Chars(a + b) == Chars(a) + Chars(b)
  {
    if a == [] {
      assert a + b == b;
    } else {
      assert (a + b)[1..] == a[1..] + b;
      CharsConcat(a[1..], b);
    }
  }

  lemma {:induction false} CharsDrop(h: seq<Message>, i: nat)
    requires i < |h|
    ensures Chars(h[i..]) == |h[i].content| + Chars(h[i + 1..])
  {
    assert h[i..][1..] == h[i + 1..];
  }

  lemma {:induction false} CharsSnoc(h: seq<Message>, i: nat)
    requires i < |h|
    ensures Chars(h[..i + 1]) == Chars(h[..i]) + |h[i].content|
  {
    assert h[..i + 1] == h[..i] + [h[i]];
    CharsConcat(h[..i], [h[i]]);
  }

  ghost predicate IsSuffix<T>(s: seq<T>, t: seq<T>) {
    |s| <= |t| && s == t[|t| - |s|..]
  }

  // Pairing of tool messages with the assistant message that asked for them.

  /** The last assistant message of `h`, if there is one. */
  function LastAssistant(h: seq<Message>): Option<Message> {
    if h == [] then None
    else if h[|h| - 1].role.Assistant? then Some(h[|h| - 1])
    else LastAssistant(h[..|h| - 1])
  }

  /** `a` carries the call that the tool message `t` answers. */
  predicate Answers(t: Message, a: Message) {
    exists k | 0 <= k < |a.toolCalls| :: a.toolCalls[k].name == t.name && a.toolCalls[k].id == t.toolCallId
  }

  /** Tool messages that all answer calls of `a`. */
  ghost predicate AllAnswer(tools: seq<Message>, a: Message) {
    forall k | 0 <= k < |tools| :: tools[k].role.Tool? && tools[k].toolCalls == [] && Answers(tools[k], a)
  }

  /** The message at `i` is no tool message, or the nearest assistant message before it (if `h` still
      holds one) carries its call; only assistant messages carry calls. */
  predicate PairedAt(h: seq<Message>, i: nat)
    requires i < |h|
  {
    && (!h[i].role.Assistant? ==> h[i].toolCalls == [])
    && (h[i].role.Tool? ==>
          match LastAssistant(h[..i])
          case None => true
          case Some(a) => Answers(h[i], a))
  }

  ghost predicate Paired(h: seq<Message>) {
    forall i | 0 <= i < |h| :: PairedAt(h, i)
  }

  /** Cutting messages off the front either keeps the last assistant message or leaves none. */
  lemma {:induction false} LastAssistantOfSuffix(a: seq<Message>, b: seq<Message>)
    ensures LastAssistant(b).Some? ==> LastAssistant(a + b) == LastAssistant(b)
    ensures LastAssistant(b).None? ==> LastAssistant(a + b) == LastAssistant(a)
  {
    if b == [] {
      assert a + b == a;
    } else {
      assert (a + b)[..|a + b| - 1] == a + b[..|b| - 1];
      if !b[|b| - 1].role.Assistant? {
        LastAssistantOfSuffix(a, b[..|b| - 1]);
      }
    }
  }

  lemma {:induction false} PairedSuffix(a: seq<Message>, b: seq<Message>)
    requires Paired(a + b)
    ensures Paired(b)
  {
    forall i | 0 <= i < |b| ensures PairedAt(b, i) {
      assert PairedAt(a + b, |a| + i);
      assert (a + b)[..|a| + i] == a + b[..i];
      LastAssistantOfSuffix(a, b[..i]);
    }
  }

  lemma {:induction false} PairedDrop(h: seq<Message>, k: nat)
    requires Paired(h) && k <= |h|
    ensures Paired(h[k..])
  {
    assert h == h[..k] + h[k..];
    PairedSuffix(h[..k], h[k..]);
  }

  /** System messages in front leave the pairing alone. */
  lemma {:induction false} PairedBehindSystem(s: seq<Message>, b: seq<Message>)
    requires Paired(b)
    requires forall i | 0 <= i < |s| :: s[i].role.System? && s[i].toolCalls == []
    ensures Paired(s + b)
  {
    NoAssistant(s);
    forall i | 0 <= i < |s + b| ensures PairedAt(s + b, i) {
      if i >= |s| {
        assert PairedAt(b, i - |s|);
        assert (s + b)[..i] == s + b[..i - |s|];
        LastAssistantOfSuffix(s, b[..i - |s|]);
      }
    }
  }

  lemma {:induction false} NoAssistant(s: seq<Message>)
    requires forall i | 0 <= i < |s| :: !s[i].role.Assistant?
    ensures LastAssistant(s).None?
  {
    if s != [] { NoAssistant(s[..|s| - 1]); }
  }

  lemma {:induction false} PairedSnoc(h: seq<Message>, m: Message)
    requires Paired(h) && PairedAt(h + [m], |h|)
    ensures Paired(h + [m])
  {
    forall i | 0 <= i < |h + [m]| ensures PairedAt(h + [m], i) {
      if i < |h| {
        assert PairedAt(h, i);
        assert (h + [m])[..i] == h[..i];
      }
    }
  }
}
