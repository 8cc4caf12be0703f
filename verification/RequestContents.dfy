/** What of a history reaches Gemini: every text, call, response and image of the messages, in order and on
    the right side; and which turns the sanitizing takes out again. */
module RequestContents {
  import opened Common
  import opened Messages
  import opened Gemini

  // Reading one kind of part out of the turns.

  /** What `read` finds in the parts, in order. */
  function Each<T>(read: Part -> seq<T>, parts: seq<Part>): seq<T> {
    if parts == [] then [] else read(parts[0]) + Each(read, parts[1..])
  }

  function Tagged<T>(speaker: Speaker, xs: seq<T>): seq<(Speaker, T)> {
    seq(|xs|, k requires 0 <= k < |xs| => (speaker, xs[k]))
  }

  /** What `read` finds in the turns, with the side that says it. */
  function Told<T>(read: Part -> seq<T>, turns: seq<Turn>): seq<(Speaker, T)> {
    if turns == [] then []
    else Told(read, turns[..|turns| - 1]) + Tagged(turns[|turns| - 1].speaker, Each(read, turns[|turns| - 1].parts))
  }

  function TextOf(p: Part): seq<string> { if p.Text? then [p.text] else [] }

  function ImageOf(p: Part): seq<string> { if p.Inline? then [p.data] else [] }

  function CallOf(p: Part): seq<(string, string)> { if p.FunctionCall? then [(p.name, p.arguments)] else [] }

  function ResponseOf(p: Part): seq<(string, string)> { if p.FunctionResponse? then [(p.name, p.response)] else [] }

  // What the messages mean to say.

  /** What `meant` gives for the messages, assistant messages on the model's side; system messages say nothing. */
  function Meant<T>(meant: (nat, Message) -> seq<T>, h: seq<Message>): seq<(Speaker, T)> {
    if h == [] then []
    else
      var n := |h| - 1;
      var side := if h[n].role == Assistant then ModelSide else UserSide;
      Meant(meant, h[..n]) + (if h[n].role == System then [] else Tagged(side, meant(n, h[n])))
  }

  /** A non-empty content that is no tool's. */
  function TextMeant(i: nat, m: Message): seq<string> { if m.role == Tool || m.content == "" then [] else [m.content] }

  function CallPair(c: ToolCall): (string, string) { (c.name, c.arguments) }

  /** The names and arguments of a message's calls. */
  function CallsMeant(i: nat, m: Message): seq<(string, string)> {
    if m.role == Tool then [] else seq(|m.toolCalls|, k requires 0 <= k < |m.toolCalls| => CallPair(m.toolCalls[k]))
  }

  /** A tool's name and output. */
  function ResponseMeant(i: nat, m: Message): seq<(string, string)> {
    if m.role == Tool then [(m.name, m.content)] else []
  }

  /** The images a message's text names and those attached to it, as many as five allow. */
  function ImagesMeant(found: nat -> seq<string>): (nat, Message) -> seq<string> {
    (i: nat, m: Message) =>
      var all := (if m.role == Tool || m.content != "" then found(i) else []) + m.images;
      if |all| <= 5 then all else all[..5]
  }

  // Reading commutes with building.

  lemma {:induction false} EachConcat<T>(read: Part -> seq<T>, a: seq<Part>, b: seq<Part>)
    ensures Each(read, a + b) == Each(read, a) + Each(read, b)
  {
    if a == [] {
      assert a + b == b;
    } else {
      assert (a + b)[1..] == a[1..] + b;
      EachConcat(read, a[1..], b);
    }
  }

  lemma {:induction false} TaggedConcat<T>(speaker: Speaker, a: seq<T>, b: seq<T>)
    ensures Tagged(speaker, a + b) == Tagged(speaker, a) + Tagged(speaker, b)
  {
  }

  lemma {:induction false} ToldSnoc<T>(read: Part -> seq<T>, turns: seq<Turn>, t: Turn)
    ensures Told(read, turns + [t]) == Told(read, turns) + Tagged(t.speaker, Each(read, t.parts))
  {
    assert (turns + [t])[..|turns|] == turns;
  }

  /** One merge round adds a message's own parts at the end, on its side. */
  lemma {:induction false} MergeTells<T>(read: Part -> seq<T>, raw: seq<Turn>, m: Message, found: seq<string>)
    requires !m.role.System?
    ensures Told(read, Merge(raw, m, found)) ==
      Told(read, raw) + Tagged(if m.role == Assistant then ModelSide else UserSide, Each(read, Parts(m, found)))
  {
    var side, p := SpeakerOf(m.role), Parts(m, found);
    if raw != [] && raw[|raw| - 1].speaker == side {
      var front, last := raw[..|raw| - 1], raw[|raw| - 1];
      assert Merge(raw, m, found) == front + [Turn(side, last.parts + p)];
      ToldSnoc(read, front, Turn(side, last.parts + p));
      EachConcat(read, last.parts, p);
      TaggedConcat(side, Each(read, last.parts), Each(read, p));
    } else {
      ToldSnoc(read, raw, Turn(side, p));
    }
  }

  /** A message's parts hold what the message means. */
  ghost predicate ReadsRight<T>(read: Part -> seq<T>, meant: (nat, Message) -> seq<T>, found: nat -> seq<string>) {
    forall i: nat, m: Message | !m.role.System? :: Each(read, Parts(m, found(i))) == meant(i, m)
  }

  lemma {:induction false} MergedTells<T>(read: Part -> seq<T>, meant: (nat, Message) -> seq<T>, h: seq<Message>,
                                          found: nat -> seq<string>)
    requires ReadsRight(read, meant, found)
    ensures Told(read, Merged(h, found)) == Meant(meant, h)
  {
    if h != [] {
      var n := |h| - 1;
      MergedTells(read, meant, h[..n], found);
      if !h[n].role.System? {
        MergeTells(read, Merged(h[..n], found), h[n], found(n));
        assert Each(read, Parts(h[n], found(n))) == meant(n, h[n]);
      }
    }
  }

  // The parts of one message.

  lemma {:induction false} NothingInImages<T>(read: Part -> seq<T>, data: seq<string>)
    requires forall s: string :: read(Inline(s)) == []
    ensures Each(read, Images(data)) == []
  {
    if data != [] {
      assert Images(data)[1..] == Images(data[1..]);
      NothingInImages(read, data[1..]);
    }
  }

  lemma {:induction false} ImagesInImages(data: seq<string>)
    ensures Each(ImageOf, Images(data)) == data
  {
    if data != [] {
      assert Images(data)[1..] == Images(data[1..]);
      ImagesInImages(data[1..]);
    }
  }

  lemma {:induction false} NothingInCalls<T>(read: Part -> seq<T>, calls: seq<ToolCall>)
    requires forall n, a :: read(FunctionCall(n, a)) == []
    ensures Each(read, Calls(calls)) == []
  {
    if calls != [] {
      assert Calls(calls)[1..] == Calls(calls[1..]);
      NothingInCalls(read, calls[1..]);
    }
  }

  lemma {:induction false} CallsInCalls(calls: seq<ToolCall>)
    ensures Each(CallOf, Calls(calls)) == seq(|calls|, k requires 0 <= k < |calls| => CallPair(calls[k]))
  {
    if calls != [] {
      assert Calls(calls)[1..] == Calls(calls[1..]);
      CallsInCalls(calls[1..]);
    }
  }

  /** What a message says besides images: an output under its tool's name, or the text and then the calls. */
  function Core(m: Message): seq<Part> {
    if m.role.Tool? then [FunctionResponse(m.name, m.content)]
    else (if m.content != "" then [Text(m.content)] else []) + Calls(m.toolCalls)
  }

  function Shown(m: Message, found: seq<string>): seq<string> {
    if m.role.Tool? || m.content != "" then Take(found, MAX_IMAGES_PER_MESSAGE) else []
  }

  lemma {:induction false} PartsAre(m: Message, found: seq<string>)
    ensures var shown := Shown(m, found);
      Parts(m, found) == Images(shown) + Core(m) + Images(Take(m.images, MAX_IMAGES_PER_MESSAGE - |shown|))
  {
  }

  /** A reader that looks past images finds what it finds in the core. */
  lemma {:induction false} EachPastImages<T>(read: Part -> seq<T>, m: Message, found: seq<string>)
    requires forall s: string :: read(Inline(s)) == []
    ensures Each(read, Parts(m, found)) == Each(read, Core(m))
  {
    var shown := Images(Shown(m, found));
    var rest := Images(Take(m.images, MAX_IMAGES_PER_MESSAGE - |Shown(m, found)|));
    PartsAre(m, found);
    EachConcat(read, shown + Core(m), rest);
    EachConcat(read, shown, Core(m));
    NothingInImages(read, Shown(m, found));
    NothingInImages(read, Take(m.images, MAX_IMAGES_PER_MESSAGE - |Shown(m, found)|));
  }

  lemma {:induction false} EachOne<T>(read: Part -> seq<T>, p: Part)
    ensures Each(read, [p]) == read(p)
  {
    assert [p][1..] == [];
    assert read(p) + [] == read(p);
  }

  lemma {:induction false} TextsReadRight(found: nat -> seq<string>)
    ensures ReadsRight(TextOf, TextMeant, found)
  {
    forall i: nat, m: Message | !m.role.System? ensures Each(TextOf, Parts(m, found(i))) == TextMeant(i, m) {
      EachPastImages(TextOf, m, found(i));
      if m.role.Tool? {
        EachOne(TextOf, FunctionResponse(m.name, m.content));
      } else {
        NothingInCalls(TextOf, m.toolCalls);
        EachOne(TextOf, Text(m.content));
        EachConcat(TextOf, if m.content != "" then [Text(m.content)] else [], Calls(m.toolCalls));
      }
    }
  }

  lemma {:induction false} CallsReadRight(found: nat -> seq<string>)
    ensures ReadsRight(CallOf, CallsMeant, found)
  {
    forall i: nat, m: Message | !m.role.System? ensures Each(CallOf, Parts(m, found(i))) == CallsMeant(i, m) {
      EachPastImages(CallOf, m, found(i));
      if m.role.Tool? {
        EachOne(CallOf, FunctionResponse(m.name, m.content));
      } else {
        CallsInCalls(m.toolCalls);
        EachOne(CallOf, Text(m.content));
        EachConcat(CallOf, if m.content != "" then [Text(m.content)] else [], Calls(m.toolCalls));
      }
    }
  }

  lemma {:induction false} ResponsesReadRight(found: nat -> seq<string>)
    ensures ReadsRight(ResponseOf, ResponseMeant, found)
  {
    forall i: nat, m: Message | !m.role.System? ensures Each(ResponseOf, Parts(m, found(i))) == ResponseMeant(i, m) {
      EachPastImages(ResponseOf, m, found(i));
      if m.role.Tool? {
        EachOne(ResponseOf, FunctionResponse(m.name, m.content));
      } else {
        NothingInCalls(ResponseOf, m.toolCalls);
        EachOne(ResponseOf, Text(m.content));
        EachConcat(ResponseOf, if m.content != "" then [Text(m.content)] else [], Calls(m.toolCalls));
      }
    }
  }

  lemma {:induction false} NoImageInCore(m: Message)
    ensures Each(ImageOf, Core(m)) == []
  {
    if m.role.Tool? {
      EachOne(ImageOf, FunctionResponse(m.name, m.content));
    } else {
      NothingInCalls(ImageOf, m.toolCalls);
      EachOne(ImageOf, Text(m.content));
      EachConcat(ImageOf, if m.content != "" then [Text(m.content)] else [], Calls(m.toolCalls));
    }
  }

  lemma {:induction false} TakeRest(a: seq<string>, b: seq<string>)
    ensures Take(a, 5) + Take(b, 5 - |Take(a, 5)|) == Take(a + b, 5)
  {
  }

  lemma {:induction false} ImagesReadRight(found: nat -> seq<string>)
    ensures ReadsRight(ImageOf, ImagesMeant(found), found)
  {
    forall i: nat, m: Message | !m.role.System? ensures Each(ImageOf, Parts(m, found(i))) == ImagesMeant(found)(i, m) {
      ImagesOfMessage(m, found(i));
    }
  }

  lemma {:induction false} ImagesAround(shown: seq<string>, core: seq<Part>, rest: seq<string>)
    requires Each(ImageOf, core) == []
    ensures Each(ImageOf, Images(shown) + core + Images(rest)) == shown + rest
  {
    EachConcat(ImageOf, Images(shown) + core, Images(rest));
    EachConcat(ImageOf, Images(shown), core);
    ImagesInImages(shown);
    ImagesInImages(rest);
    assert shown + [] == shown;
  }

  lemma {:induction false} ImagesOfMessage(m: Message, found: seq<string>)
    ensures Each(ImageOf, Parts(m, found)) ==
      Take((if m.role == Tool || m.content != "" then found else []) + m.images, 5)
  {
    var shown := Shown(m, found);
    var rest := Take(m.images, MAX_IMAGES_PER_MESSAGE - |shown|);
    PartsAre(m, found);
    NoImageInCore(m);
    ImagesAround(shown, Core(m), rest);
    TakeRest(if m.role == Tool || m.content != "" then found else [], m.images);
  }

  /** Everything but the images. */
  function SayingOf(p: Part): seq<Part> { if p.Inline? then [] else [p] }

  lemma {:induction false} AllSayings(parts: seq<Part>)
    requires forall k | 0 <= k < |parts| :: !parts[k].Inline?
    ensures Each(SayingOf, parts) == parts
  {
    if parts != [] { AllSayings(parts[1..]); }
  }

  lemma {:induction false} SayingsReadRight(found: nat -> seq<string>)
    ensures ReadsRight(SayingOf, (i, m) => Core(m), found)
  {
    forall i: nat, m: Message | !m.role.System? ensures Each(SayingOf, Parts(m, found(i))) == Core(m) {
      EachPastImages(SayingOf, m, found(i));
      AllSayings(Core(m));
    }
  }

  // Results, for every history and whatever images are found.

  /** Read in order, the merged turns say exactly what the messages say: the texts of users and assistants, the
      calls with their arguments, the tools' outputs, and the images that five a message allow, each on the
      model's side if it is an assistant's and on the user's otherwise; a message's text before its calls. */
  lemma {:induction false} TurnsSayWhatMessagesSay(h: seq<Message>, found: nat -> seq<string>)
    ensures Told(TextOf, Merged(h, found)) == Meant(TextMeant, h)
    ensures Told(CallOf, Merged(h, found)) == Meant(CallsMeant, h)
    ensures Told(ResponseOf, Merged(h, found)) == Meant(ResponseMeant, h)
    ensures Told(ImageOf, Merged(h, found)) == Meant(ImagesMeant(found), h)
    ensures Told(SayingOf, Merged(h, found)) == Meant((i, m) => Core(m), h)
  {
    SayingsReadRight(found);
    MergedTells(SayingOf, (i, m) => Core(m), h, found);
    TextsReadRight(found);
    CallsReadRight(found);
    ResponsesReadRight(found);
    ImagesReadRight(found);
    MergedTells(TextOf, TextMeant, h, found);
    MergedTells(CallOf, CallsMeant, h, found);
    MergedTells(ResponseOf, ResponseMeant, h, found);
    MergedTells(ImageOf, ImagesMeant(found), h, found);
  }

  /** The half of a history the provider keeps: all of it, or the newer half when it is over 1,024,000 bytes. */
  lemma {:induction false} HalfIsNewer(h: seq<Message>)
    ensures Chars(h) <= 1_024_000 ==> HalfCut(h) == h
    ensures Chars(h) > 1_024_000 ==> IsSuffix(HalfCut(h), h) && |HalfCut(h)| == (|h| + 1) / 2
  {
  }

  /** `kept` are the turns at the given positions of `raw`. */
  ghost predicate TurnsAt(raw: seq<Turn>, at: seq<nat>, kept: seq<Turn>) {
    && |at| == |kept|
    && (forall k | 0 <= k < |at| :: at[k] < |raw| && kept[k] == raw[at[k]])
    && (forall k, l | 0 <= k < l < |at| :: at[k] < at[l])
  }

  /** Turn `i` is a first turn that answers, or calls and the turn behind it does not answer. */
  predicate Unheard(raw: seq<Turn>, i: nat)
    requires i < |raw|
  {
    if HasCall(raw[i]) && (i + 1 == |raw| || !HasResponse(raw[i + 1])) then true else i == 0 && HasResponse(raw[i])
  }

  /** The positions below `n` of the turns that are heard. */
  function KeptAt(raw: seq<Turn>, n: nat): (at: seq<nat>)
    requires n <= |raw|
    ensures forall i: nat :: i in at <==> i < n && !Unheard(raw, i)
    ensures forall k | 0 <= k < |at| :: at[k] < n
    ensures forall k, l | 0 <= k < l < |at| :: at[k] < at[l]
  {
    if n == 0 then [] else KeptAt(raw, n - 1) + (if Unheard(raw, n - 1) then [] else [n - 1])
  }

  lemma {:induction false} FilterKeepsAt(raw: seq<Turn>, n: nat)
    requires n <= |raw|
    ensures TurnsAt(raw, KeptAt(raw, n), WithoutOrphans(raw, n))
  {
    if n > 0 { FilterKeepsAt(raw, n - 1); }
  }

  /** Of the merged turns, the request carries just those that are heard, each of them whole, in order. */
  lemma {:induction false} ContentsAreWholeTurns(h: seq<Message>, found: nat -> seq<string>)
    requires Paired(h)
    ensures var raw := Merged(HalfCut(h), found); TurnsAt(raw, KeptAt(raw, |raw|), Contents(h, found))
  {
    var cut := HalfCut(h);
    PairedDrop(h, |h| / 2);
    MergeAlternates(cut, found);
    MergeSides(cut, found);
    MergeIsLinked(cut, found);
    var raw := Merged(cut, found);
    SanitizeIsFilter(raw, |raw|);
    FilterKeepsAt(raw, |raw|);
  }

  // When nothing is lost.

  /** An assistant message has called tools and none has answered yet. */
  predicate Waiting(h: seq<Message>) {
    h != [] && match h[|h| - 1].role
               case Assistant => h[|h| - 1].toolCalls != []
               case Tool => false
               case _ => Waiting(h[..|h| - 1])
  }

  /** Message `i` is no assistant's while tools are still to answer, and no tool's before the first assistant's. */
  predicate InTurn(h: seq<Message>, i: nat)
    requires i < |h|
  {
    (h[i].role.Assistant? ==> !Waiting(h[..i])) && (h[i].role.Tool? ==> LastAssistant(h[..i]).Some?)
  }

  ghost predicate AllInTurn(h: seq<Message>) { forall i | 0 <= i < |h| :: InTurn(h, i) }

  /** The last model turn. */
  function ModelAt(raw: seq<Turn>): int {
    if raw != [] && raw[|raw| - 1].speaker.ModelSide? then |raw| - 1 else |raw| - 2
  }

  /** Every call turn has a response turn behind it, but for the last model turn if tools are still to answer. */
  ghost predicate Settled(raw: seq<Turn>, waiting: bool) {
    forall j | 0 <= j < |raw| :: SettledAt(raw, j, waiting)
  }

  predicate SettledAt(raw: seq<Turn>, j: nat, waiting: bool)
    requires j < |raw|
  {
    HasCall(raw[j]) ==> (j + 1 < |raw| && HasResponse(raw[j + 1])) || (waiting && j == ModelAt(raw))
  }

  ghost predicate Opens(raw: seq<Turn>) { raw != [] ==> !HasResponse(raw[0]) }

  lemma {:induction false} HasBoth(a: seq<Part>, b: seq<Part>, s: Speaker)
    ensures HasCall(Turn(s, a + b)) <==> HasCall(Turn(s, a)) || HasCall(Turn(s, b))
    ensures HasResponse(Turn(s, a + b)) <==> HasResponse(Turn(s, a)) || HasResponse(Turn(s, b))
  {
    assert forall k | 0 <= k < |a| :: (a + b)[k] == a[k];
    assert forall k | 0 <= k < |b| :: (a + b)[|a| + k] == b[k];
  }

  lemma {:induction false} OwnCalls(m: Message, found: seq<string>, s: Speaker)
    ensures HasCall(Turn(s, Parts(m, found))) ==> m.toolCalls != []
    ensures HasResponse(Turn(s, Parts(m, found))) <==> m.role.Tool?
  {
    if m.role.Tool? {
      var p := Parts(m, found);
      var shown := Take(found, MAX_IMAGES_PER_MESSAGE);
      assert p[|shown|] == FunctionResponse(m.name, m.content);
      ToolParts(m, found);
    } else {
      NoResponseInParts(m, found);
    }
  }

  lemma {:induction false} MergeOpens(raw: seq<Turn>, h: seq<Message>, m: Message, found: seq<string>)
    requires Opens(raw) && HoldsLast(raw, LastAssistant(h)) && (m.role.Tool? ==> LastAssistant(h).Some?)
    ensures Opens(Merge(raw, m, found))
  {
    OwnCalls(m, found, SpeakerOf(m.role));
    if |raw| == 1 { HasBoth(raw[0].parts, Parts(m, found), raw[0].speaker); }
  }

  /** The turns before the last stay settled when the last one gains parts. */
  lemma {:induction false} JoinedSettles(raw: seq<Turn>, t: Turn, waiting: bool, still: bool)
    requires Settled(raw, waiting) && raw != [] && t.speaker == raw[|raw| - 1].speaker
    requires HasResponse(raw[|raw| - 1]) ==> HasResponse(t)
    requires HasCall(t) ==> still && t.speaker.ModelSide?
    requires waiting && !still && t.speaker.UserSide? ==> HasResponse(t)
    requires t.speaker.ModelSide? ==> !waiting
    ensures Settled(raw[|raw| - 1 := t], still)
  {
    var r := raw[|raw| - 1 := t];
    forall j | 0 <= j < |r| ensures SettledAt(r, j, still) {
      if j < |raw| - 1 { assert SettledAt(raw, j, waiting); }
    }
  }

  lemma {:induction false} AddedSettles(raw: seq<Turn>, t: Turn, waiting: bool, still: bool)
    requires Settled(raw, waiting) && (raw != [] ==> t.speaker != raw[|raw| - 1].speaker)
    requires HasCall(t) ==> still && t.speaker.ModelSide?
    requires waiting && !still ==> HasResponse(t)
    requires t.speaker.ModelSide? ==> !waiting
    ensures Settled(raw + [t], still)
  {
    var r := raw + [t];
    forall j | 0 <= j < |r| ensures SettledAt(r, j, still) {
      if j < |raw| { assert SettledAt(raw, j, waiting); }
    }
  }

  /** A message that is no assistant's and calls nothing. */
  lemma {:induction false} ListenerSettles(raw: seq<Turn>, m: Message, found: seq<string>, waiting: bool)
    requires Settled(raw, waiting) && AllSided(raw) && (m.role.User? || m.role.Tool?) && m.toolCalls == []
    ensures Settled(Merge(raw, m, found), waiting && !m.role.Tool?)
  {
    var p := Parts(m, found);
    OwnCalls(m, found, UserSide);
    if raw != [] && raw[|raw| - 1].speaker.UserSide? {
      var last := raw[|raw| - 1];
      assert Sided(last);
      HasBoth(last.parts, p, UserSide);
      JoinedSettles(raw, Turn(UserSide, last.parts + p), waiting, waiting && !m.role.Tool?);
    } else {
      AddedSettles(raw, Turn(UserSide, p), waiting, waiting && !m.role.Tool?);
    }
  }

  lemma {:induction false} SpeakerSettles(raw: seq<Turn>, m: Message, found: seq<string>)
    requires Settled(raw, false) && m.role.Assistant?
    ensures Settled(Merge(raw, m, found), m.toolCalls != [])
  {
    var p := Parts(m, found);
    OwnCalls(m, found, ModelSide);
    if raw != [] && raw[|raw| - 1].speaker.ModelSide? {
      var last := raw[|raw| - 1];
      assert SettledAt(raw, |raw| - 1, false);
      assert last == Turn(ModelSide, last.parts);
      HasBoth(last.parts, p, ModelSide);
      JoinedSettles(raw, Turn(ModelSide, last.parts + p), false, m.toolCalls != []);
    } else {
      AddedSettles(raw, Turn(ModelSide, p), false, m.toolCalls != []);
    }
  }

  lemma {:induction false} MergedIsSettled(h: seq<Message>, found: nat -> seq<string>)
    requires Paired(h) && AllInTurn(h)
    ensures Settled(Merged(h, found), Waiting(h)) && Opens(Merged(h, found))
  {
    if h != [] {
      var n := |h| - 1;
      var front, m, raw := h[..n], h[n], Merged(h[..n], found);
      assert forall i | 0 <= i < n :: front[..i] == h[..i];
      forall i | 0 <= i < n ensures InTurn(front, i) { assert InTurn(h, i); }
      PairedPrefix(h, n);
      MergedIsSettled(front, found);
      MergeIsLinked(front, found);
      assert InTurn(h, n) && PairedAt(h, n);
      MergeOpens(raw, front, m, found(n));
      if m.role.Assistant? {
        SpeakerSettles(raw, m, found(n));
      } else if !m.role.System? {
        MergeSides(front, found);
        ListenerSettles(raw, m, found(n), Waiting(front));
      }
    }
  }

  /** A paired history in which every assistant message with calls is answered before the next assistant message
      and before the end, and no tool answers before the first, reaches the provider as a whole: what the request
      says is what the kept half of the messages says. */
  lemma {:induction false} NothingIsLost(h: seq<Message>, found: nat -> seq<string>)
    requires Paired(h) && AllInTurn(HalfCut(h)) && !Waiting(HalfCut(h))
    ensures Contents(h, found) == Merged(HalfCut(h), found)
  {
    var raw := Merged(HalfCut(h), found);
    PairedDrop(h, |h| / 2);
    MergedIsSettled(HalfCut(h), found);
    ContentsAreWholeTurns(h, found);
    SettledIsHeard(raw);
    AllKept(raw, |raw|);
  }

  lemma {:induction false} SettledIsHeard(raw: seq<Turn>)
    requires Settled(raw, false) && Opens(raw)
    ensures forall i | 0 <= i < |raw| :: !Unheard(raw, i)
  {
    forall i | 0 <= i < |raw| ensures !Unheard(raw, i) {
      assert SettledAt(raw, i, false);
    }
  }

  lemma {:induction false} AllKept(raw: seq<Turn>, n: nat)
    requires n <= |raw| && forall i | 0 <= i < n :: !Unheard(raw, i)
    ensures |KeptAt(raw, n)| == n && forall k | 0 <= k < n :: KeptAt(raw, n)[k] == k
  {
    if n > 0 { AllKept(raw, n - 1); }
  }
}
