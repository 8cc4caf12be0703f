/** The event stream between the daemon and the console: how a message is framed, how the reader cuts the
    byte stream into blocks whatever pieces the network delivers, and how a block is turned back into a
    message. A character is one byte. */
module SseStream {
  import opened Common
  import opened Text

  /** The scanner's buffer; a block that does not end within it stops the reader. */
  const MAX_BLOCK: nat := 1024 * 1024

  // The writer.

  function Frame(m: string): string { "data: " + m + "\n\n" }

  function Stream(ms: seq<string>): string {
    if ms == [] then "" else Frame(ms[0]) + Stream(ms[1..])
  }

  // The reader.

  predicate SepAt(data: string, i: int) {
    0 <= i <= |data| - 2 && data[i] == '\n' && data[i + 1] == '\n'
  }

  /** The first blank line. */
  function FindSep(data: string): (r: Option<nat>)
    ensures r.Some? ==> SepAt(data, r.value) && forall j | 0 <= j < r.value :: !SepAt(data, j)
    ensures r.None? ==> forall j :: !SepAt(data, j)
  {
    assert forall i: nat :: OccursAt(data, "\n\n", i) <==> SepAt(data, i) by {
      forall i: nat ensures OccursAt(data, "\n\n", i) <==> SepAt(data, i) {
        if i + 2 <= |data| { assert data[i..][..2] == [data[i], data[i + 1]]; }
      }
    }
    Find(data, "\n\n")
  }

  datatype Cut = Cut(advance: nat, token: Option<string>)

  /** What the scanner's split function answers for the bytes at hand. */
  function SplitFunc(data: string, atEOF: bool): Cut {
    if atEOF && data == "" then Cut(0, None)
    else
      match FindSep(data)
      case Some(i) => Cut(i + 2, Some(data[..i]))
      case None => if atEOF then Cut(|data|, Some(data)) else Cut(0, None)
  }

  datatype Outcome = Outcome(tokens: seq<string>, ok: bool)

  /** The blocks of a whole byte stream, and whether the reader gets to its end. */
  function Blocks(data: string): Outcome
    decreases |data|
  {
    var sep := FindSep(data);
    if sep.Some? && sep.value + 2 <= MAX_BLOCK then
      var rest := Blocks(data[sep.value + 2..]);
      Outcome([data[..sep.value]] + rest.tokens, rest.ok)
    else if |data| >= MAX_BLOCK then Outcome([], false)
    else Outcome(if data == "" then [] else [data], true)
  }

  /** What a line of a block contributes: the text of a data line with a newline behind it. */
  function LineText(line: string): string {
    if HasPrefix(line, "data: ") then TrimPrefix(line, "data: ") + "\n" else ""
  }

  function Payload(lines: seq<string>): string {
    if lines == [] then "" else LineText(lines[0]) + Payload(lines[1..])
  }

  function Message(block: string): string { TrimSpace(Payload(Split(block, '\n'))) }

  /** A block without text yields no message. */
  function Heard(m: string): seq<string> { if m == "" then [] else [m] }

  /** How a block becomes a message; the reader's own way is `Message`. */
  type Decoder = string -> string

  function Decoded(decode: Decoder, blocks: seq<string>): seq<string> {
    if blocks == [] then [] else Heard(decode(blocks[0])) + Decoded(decode, blocks[1..])
  }

  function ReceivedBy(decode: Decoder, data: string): seq<string> { Decoded(decode, Blocks(data).tokens) }

  /** What the console receives from a byte stream. */
  function Received(data: string): seq<string> { ReceivedBy(Message, data) }

  // The reader under any fragmentation.

  function Concat(fragments: seq<string>): string {
    if fragments == [] then "" else fragments[0] + Concat(fragments[1..])
  }

  lemma {:induction false} DecodedCons(decode: Decoder, b: string, blocks: seq<string>)
    ensures Decoded(decode, [b] + blocks) == Heard(decode(b)) + Decoded(decode, blocks)
  {
    assert ([b] + blocks)[1..] == blocks;
  }

  /** A block that ends within the bytes at hand ends there whatever follows. */
  lemma {:induction false} BlockEndsEarly(pending: string, ahead: string)
    requires |pending| <= MAX_BLOCK && FindSep(pending).Some?
    ensures var i := FindSep(pending).value;
      && Blocks(pending + ahead).tokens == [pending[..i]] + Blocks(pending[i + 2..] + ahead).tokens
      && Blocks(pending + ahead).ok == Blocks(pending[i + 2..] + ahead).ok
  {
    var i := FindSep(pending).value;
    var all := pending + ahead;
    SameFirstSep(pending, ahead);
    assert all[..i] == pending[..i] && all[i + 2..] == pending[i + 2..] + ahead;
    BlocksSplit(all);
  }

  lemma {:induction false} SameFirstSep(pending: string, ahead: string)
    requires FindSep(pending).Some?
    ensures FindSep(pending + ahead) == FindSep(pending)
  {
    var all, i := pending + ahead, FindSep(pending).value;
    forall j | 0 <= j <= i ensures SepAt(all, j) <==> SepAt(pending, j) {}
  }

  lemma {:induction false} FullBufferStops(pending: string, ahead: string)
    requires |pending| == MAX_BLOCK && FindSep(pending).None?
    ensures Blocks(pending + ahead) == Outcome([], false)
  {
    var all := pending + ahead;
    forall j | j + 2 <= MAX_BLOCK ensures !SepAt(all, j) {
      assert SepAt(all, j) ==> SepAt(pending, j);
    }
  }

  /** The scanner over the response body; `rest` is what the network still delivers. */
  class Scanner {
    var pending: string
    var rest: seq<string>
    var eof: bool
    var failed: bool

    ghost predicate Valid() reads this {
      |pending| <= MAX_BLOCK && (eof ==> rest == [] && |pending| < MAX_BLOCK)
    }

    /** The blocks still to come. */
    ghost function Left(): Outcome reads this {
      if failed then Outcome([], false) else Blocks(pending + Concat(rest))
    }

    constructor (fragments: seq<string>)
      ensures Valid() && Left() == Blocks(Concat(fragments))
    {
      pending, rest, eof, failed := "", fragments, false, false;
      new;
      assert pending + Concat(rest) == Concat(fragments);
    }

    method Scan() returns (token: Option<string>)
      requires Valid()
      modifies this
      ensures Valid()
      ensures token.Some? ==>
        old(Left().tokens) == [token.value] + Left().tokens && old(Left().ok) == Left().ok
      ensures token.None? ==> old(Left()) == Left() == Outcome([], !failed)
    {
      token := None;
      while !failed
        invariant Valid()
        invariant Left() == old(Left()) && token.None?
        decreases |Concat(rest)| + |rest|, !eof, !failed
      {
        if pending != "" || eof {
          token := TakeToken();
          if token.Some? { return; }
        }
        if eof {
          assert pending + Concat(rest) == "";
          return;
        }
        if |pending| == MAX_BLOCK {
          FullBufferStops(pending, Concat(rest));
          failed := true;
        } else if rest == [] {
          eof := true;
        } else {
          ReadMore();
        }
      }
    }

    /** Takes the first block off the bytes at hand, if it is there. */
    method TakeToken() returns (token: Option<string>)
      requires Valid() && !failed
      modifies this`pending
      ensures Valid() && token == SplitFunc(old(pending), eof).token
      ensures token.Some? ==>
        old(Left().tokens) == [token.value] + Left().tokens && old(Left().ok) == Left().ok
      ensures token.None? ==> pending == old(pending)
    {
      var c := SplitFunc(pending, eof);
      token := c.token;
      if token.Some? {
        TokenIsFirstBlock(pending, Concat(rest), eof);
        pending := pending[c.advance..];
      }
    }

    method ReadMore()
      requires Valid() && rest != [] && |pending| < MAX_BLOCK && !eof
      modifies this`pending, this`rest
      ensures Valid() && pending + Concat(rest) == old(pending + Concat(rest))
      ensures |Concat(rest)| + |rest| < old(|Concat(rest)| + |rest|)
    {
      var room := MAX_BLOCK - |pending|;
      var f, behind := rest[0], rest[1..];
      if |f| <= room {
        pending, rest := pending + f, behind;
      } else {
        pending, rest := pending + f[..room], [f[room..]] + behind;
        assert rest[1..] == behind;
        assert f[..room] + f[room..] == f;
      }
    }
  }

  lemma {:induction false} TokenIsFirstBlock(pending: string, ahead: string, eof: bool)
    requires |pending| <= MAX_BLOCK && (eof ==> ahead == "" && |pending| < MAX_BLOCK)
    requires SplitFunc(pending, eof).token.Some?
    ensures var c := SplitFunc(pending, eof);
      && Blocks(pending + ahead).tokens == [c.token.value] + Blocks(pending[c.advance..] + ahead).tokens
      && Blocks(pending + ahead).ok == Blocks(pending[c.advance..] + ahead).ok
  {
    if FindSep(pending).Some? {
      BlockEndsEarly(pending, ahead);
    } else {
      assert pending + ahead == pending;
      assert pending[|pending|..] + ahead == "";
    }
  }

  method DecodeBlock(block: string) returns (msg: string)
    ensures msg == Message(block)
  {
    var text := CollectData(Split(block, '\n'));
    msg := TrimSpace(text);
  }

  method CollectData(lines: seq<string>) returns (text: string)
    ensures text == Payload(lines)
  {
    text := "";
    var rest := lines;
    while rest != []
      invariant text + Payload(rest) == Payload(lines)
    {
      var added := DataOf(rest[0]);
      Assoc(text, added, Payload(rest[1..]));
      text := text + added;
      rest := rest[1..];
    }
  }

  method DataOf(line: string) returns (text: string)
    ensures text == LineText(line)
  {
    text := "";
    if HasPrefix(line, "data: ") {
      text := TrimPrefix(line, "data: ");
      text := text + "\n";
    }
  }

  /** The console's loop over the stream, which arrives in the given fragments. What it receives depends
      only on the bytes, never on where they were cut. */
  method Receive(fragments: seq<string>) returns (messages: seq<string>, ok: bool)
    ensures messages == Received(Concat(fragments))
    ensures ok == Blocks(Concat(fragments)).ok
  {
    var scanner := new Scanner(fragments);
    ghost var left := scanner.Left();
    messages := [];
    var token := scanner.Scan();
    FirstHeard(Message, token, scanner.Left().tokens, left.tokens);
    while token.Some?
      invariant scanner.Valid() && fresh(scanner)
      invariant Pending(Message, messages, token, scanner.Left().tokens, Received(Concat(fragments)))
      invariant scanner.Left().ok == Blocks(Concat(fragments)).ok
      invariant token.None? ==> scanner.Left() == Outcome([], !scanner.failed)
      decreases |scanner.Left().tokens|, token.Some?
    {
      var msg := DecodeBlock(token.value);
      ghost var before, was := messages, token;
      if msg != "" {
        messages := messages + [msg];
      }
      assert messages == before + Heard(msg);
      left := scanner.Left();
      token := scanner.Scan();
      NextHeard(Message, before, was.value, left.tokens, token, scanner.Left().tokens, Received(Concat(fragments)));
    }
    ok := !scanner.failed;
  }

  function HeardIn(decode: Decoder, token: Option<string>): seq<string> {
    if token.Some? then Heard(decode(token.value)) else []
  }

  /** The messages heard so far, the block at hand and the blocks behind it make up `all`. */
  ghost predicate Pending(decode: Decoder, messages: seq<string>, token: Option<string>, behind: seq<string>,
                          all: seq<string>) {
    all == messages + (HeardIn(decode, token) + Decoded(decode, behind))
  }

  lemma {:induction false} FirstHeard(decode: Decoder, token: Option<string>, behind: seq<string>, tokens: seq<string>)
    requires if token.Some? then tokens == [token.value] + behind else tokens == behind == []
    ensures Decoded(decode, tokens) == HeardIn(decode, token) + Decoded(decode, behind)
    ensures Pending(decode, [], token, behind, Decoded(decode, tokens))
  {
    if token.Some? {
      DecodedCons(decode, token.value, behind);
    }
  }

  lemma {:induction false} Assoc<T>(a: seq<T>, b: seq<T>, c: seq<T>)
    ensures a + (b + c) == a + b + c
  {
  }

  lemma {:induction false} NextHeard(decode: Decoder, before: seq<string>, t: string, left: seq<string>,
      next: Option<string>, behind: seq<string>, all: seq<string>)
    requires if next.Some? then left == [next.value] + behind else left == behind == []
    requires Pending(decode, before, Some(t), left, all)
    ensures Pending(decode, before + Heard(decode(t)), next, behind, all)
  {
    FirstHeard(decode, next, behind, left);
    Assoc(before, Heard(decode(t)), Decoded(decode, left));
  }

  // What survives the trip.

  /** A message the console receives as it was sent. */
  predicate Faithful(m: string) {
    m != "" && '\n' !in m && TrimSpace(m) == m && |m| + 8 <= MAX_BLOCK
  }

  /** The bytes a list of messages takes once framed. */
  function Weight(ms: seq<string>): nat {
    if ms == [] then 0 else |ms[0]| + 8 + Weight(ms[1..])
  }

  lemma {:induction false} StreamWeight(ms: seq<string>)
    ensures |Stream(ms)| == Weight(ms)
  {
    if ms != [] { StreamWeight(ms[1..]); }
  }

  /** The text of a block is shorter than its data lines by the six bytes of each prefix. */
  lemma {:induction false} PayloadLength(lines: seq<string>)
    ensures var p := Payload(lines); p == "" || (p[|p| - 1] == '\n' && |p| + 5 <= Total(lines))
  {
    if lines != [] {
      PayloadLength(lines[1..]);
      var tail := Payload(lines[1..]);
      if HasPrefix(lines[0], "data: ") && tail != "" {
        assert Payload(lines)[|Payload(lines)| - 1] == tail[|tail| - 1];
      }
    }
  }

  lemma {:induction false} MessageLength(block: string)
    ensures Message(block) == "" || |Message(block)| + 6 + (if '\n' in block then 1 else 0) <= |block|
  {
    var lines := Split(block, '\n');
    var p := Payload(lines);
    JoinSplit(block, '\n');
    JoinLength(lines, '\n');
    PayloadLength(lines);
    if p != "" {
      assert p == p[..|p| - 1] + "\n";
      TrimDropsNewline(p[..|p| - 1]);
      SplitIsFree(block, '\n');
      if |lines| == 1 { assert block == lines[0]; }
    }
  }

  /** One data line without a newline decodes to its trimmed text. */
  lemma {:induction false} MessageOfLine(m: string)
    requires '\n' !in m
    ensures Message("data: " + m) == TrimSpace(m)
  {
    var line := "data: " + m;
    assert '\n' !in line;
    SplitJoin([line], '\n');
    assert Split(line, '\n') == [line];
    assert |[line]| == 1;
    assert line[..6] == "data: " && line[6..] == m;
    assert Payload([line]) == m + "\n" + "";
    assert m + "\n" + "" == m + "\n";
    TrimDropsNewline(m);
  }

  // Blocks of several lines.

  /** A line of a block: a data line with its text, or any other line. */
  datatype Line = Data(text: string) | Noise(line: string)

  predicate IsLine(l: Line) {
    if l.Data? then '\n' !in l.text else '\n' !in l.line && !HasPrefix(l.line, "data: ")
  }

  predicate AreLines(lines: seq<Line>) { forall i | 0 <= i < |lines| :: IsLine(lines[i]) }

  function Written(lines: seq<Line>): seq<string> {
    if lines == [] then []
    else [if lines[0].Data? then "data: " + lines[0].text else lines[0].line] + Written(lines[1..])
  }

  function Texts(lines: seq<Line>): seq<string> {
    if lines == [] then []
    else (if lines[0].Data? then [lines[0].text] else []) + Texts(lines[1..])
  }

  /** A block says the texts of its data lines, one under the other and trimmed; other lines say nothing. */
  lemma {:induction false} BlockSaysItsData(lines: seq<Line>)
    requires lines != [] && AreLines(lines)
    ensures Message(Join(Written(lines), '\n')) == TrimSpace(Join(Texts(lines), '\n'))
  {
    WrittenIsFree(lines);
    SplitJoin(Written(lines), '\n');
    PayloadIsTexts(lines);
    var texts := Join(Texts(lines), '\n');
    if Texts(lines) != [] { TrimDropsNewline(texts); }
  }

  lemma {:induction false} WrittenIsFree(lines: seq<Line>)
    requires AreLines(lines)
    ensures |Written(lines)| == |lines| && Free(Written(lines), '\n')
  {
    if lines != [] {
      WrittenIsFree(lines[1..]);
      assert IsLine(lines[0]) && '\n' !in "data: ";
    }
  }

  lemma {:induction false} PayloadIsTexts(lines: seq<Line>)
    requires AreLines(lines)
    ensures Payload(Written(lines)) == if Texts(lines) == [] then "" else Join(Texts(lines), '\n') + "\n"
  {
    if lines != [] {
      var rest := Texts(lines[1..]);
      PayloadIsTexts(lines[1..]);
      assert IsLine(lines[0]);
      if lines[0].Data? {
        var line, text := "data: " + lines[0].text, lines[0].text;
        assert line[..6] == "data: " && line[6..] == text;
        assert LineText(line) == text + "\n";
        if rest == [] {
          assert text + "\n" + "" == text + "\n";
        } else {
          assert ([text] + rest)[1..] == rest;
          assert text + "\n" + (Join(rest, '\n') + "\n") == text + ['\n'] + Join(rest, '\n') + "\n";
        }
      } else {
        assert [] + rest == rest;
      }
    }
  }

  // Streams of any blocks.

  /** A block that ends at the blank line put behind it. */
  predicate IsBlock(block: string) {
    |block| + 2 <= MAX_BLOCK && forall j | 0 <= j < |block| :: !SepAt(block + "\n", j)
  }

  lemma {:induction false} BlockIsFirst(block: string, tail: string)
    requires IsBlock(block)
    ensures FindSep(block + "\n\n" + tail) == Some(|block|)
  {
    var s := block + "\n\n" + tail;
    assert SepAt(s, |block|);
    forall j | 0 <= j < |block| ensures !SepAt(s, j) {
      assert !SepAt(block + "\n", j);
      assert s[j] == (block + "\n")[j] && s[j + 1] == (block + "\n")[j + 1];
    }
  }

  /** A block in the stream is heard as what it says, and the rest of the stream is read behind it. */
  lemma {:induction false} BlockIsHeard(block: string, tail: string)
    requires IsBlock(block)
    ensures Received(block + "\n\n" + tail) == Heard(Message(block)) + Received(tail)
    ensures Blocks(block + "\n\n" + tail).ok == Blocks(tail).ok
  {
    var s := block + "\n\n" + tail;
    BlockIsFirst(block, tail);
    assert s[..|block|] == block && s[|block| + 2..] == tail;
    FirstBlock(Message, s);
    BlocksSplit(s);
  }

  /** A block that does not end within the buffer ends the reading; nothing of it and behind it is heard. */
  lemma {:induction false} LongBlockEnds(data: string)
    requires |data| >= MAX_BLOCK && forall j | 0 <= j && j + 2 <= MAX_BLOCK :: !SepAt(data, j)
    ensures Received(data) == [] && !Blocks(data).ok
  {
  }

  /** A last block without its blank line is heard all the same. */
  lemma {:induction false} LastBlockIsHeard(data: string)
    requires 0 < |data| < MAX_BLOCK && forall j :: !SepAt(data, j)
    ensures Received(data) == Heard(Message(data)) && Blocks(data).ok
  {
    DecodedCons(Message, data, []);
    assert Blocks(data).tokens == [data] == [data] + [];
    assert Heard(Message(data)) + [] == Heard(Message(data));
  }

  /** Streams made of frames, and what a reader may still have before it in one. */
  predicate Closed(data: string) {
    data == "" || data == "\n" || HasSuffix(data, "\n\n")
  }

  lemma {:induction false} StreamIsClosed(ms: seq<string>)
    ensures Stream(ms) == "" || HasSuffix(Stream(ms), "\n\n")
  {
    if ms != [] {
      StreamIsClosed(ms[1..]);
      var head, tail := Frame(ms[0]), Stream(ms[1..]);
      assert head[|head| - 2..] == "\n\n";
      if tail == "" {
        assert head + tail == head;
      } else {
        assert (head + tail)[|head + tail| - 2..] == tail[|tail| - 2..];
      }
    }
  }

  lemma {:induction false} ClosedBehind(data: string, k: nat)
    requires Closed(data) && k <= |data|
    ensures Closed(data[k..])
  {
    var s := data[k..];
    if |s| >= 2 {
      assert s[|s| - 2..] == data[|data| - 2..];
    } else if |s| == 1 {
      assert s[0] == data[|data| - 1] == '\n';
    }
  }

  lemma {:induction false} HeardWeight(m: string, rest: seq<string>)
    ensures Weight(Heard(m) + rest) == Weight(rest) + if m == "" then 0 else |m| + 8
  {
    if m == "" {
      assert Heard(m) + rest == rest;
    } else {
      assert (Heard(m) + rest)[1..] == rest;
    }
  }

  /** What a last block may lack: its blank line. */
  function Slack(data: string): nat { if Closed(data) then 0 else 2 }

  /** For any bytes: what is received would, framed again, fit into the stream. Only the blank line that a
      last block may lack comes on top. */
  lemma {:induction false} ReceivedFits(data: string)
    ensures Weight(Received(data)) <= |data| + Slack(data)
  {
    MessagesAreShort();
    ReceivedByFits(Message, data);
  }

  /** A decoder whose messages are shorter than their blocks by a prefix. */
  ghost predicate Shortens(decode: Decoder) {
    forall block: string :: ShortFor(decode(block), block)
  }

  predicate ShortFor(m: string, block: string) { m == "" || |m| + 6 <= |block| }

  lemma {:induction false} MessagesAreShort()
    ensures Shortens(Message)
  {
    forall block: string ensures ShortFor(Message(block), block) {
      MessageLength(block);
    }
  }

  lemma {:induction false} ReceivedByFits(decode: Decoder, data: string)
    requires Shortens(decode)
    ensures Weight(ReceivedBy(decode, data)) <= |data| + Slack(data)
  {
    DecodedFits(decode, Blocks(data).tokens);
    BlocksFit(data);
  }

  /** The bytes of a block and its blank line; a block too short for a data line does not count. */
  function Room(block: string): nat { if |block| < 6 then 0 else |block| + 2 }

  function Rooms(blocks: seq<string>): nat {
    if blocks == [] then 0 else Room(blocks[0]) + Rooms(blocks[1..])
  }

  lemma {:induction false} DecodedFits(decode: Decoder, blocks: seq<string>)
    requires Shortens(decode)
    ensures Weight(Decoded(decode, blocks)) <= Rooms(blocks)
  {
    if blocks != [] {
      DecodedFits(decode, blocks[1..]);
      BlockFits(decode(blocks[0]), blocks[0], Decoded(decode, blocks[1..]));
    }
  }

  lemma {:induction false} BlockFits(m: string, block: string, rest: seq<string>)
    requires ShortFor(m, block)
    ensures Weight(Heard(m) + rest) <= Room(block) + Weight(rest)
  {
    HeardWeight(m, rest);
  }

  lemma {:induction false} BlocksFit(data: string)
    ensures Rooms(Blocks(data).tokens) <= |data| + Slack(data)
    decreases |data|
  {
    if EndsInTime(data) {
      var i := FindSep(data).value;
      BlocksFit(data[i + 2..]);
      SlackBehind(data, i + 2);
      assert Blocks(data).tokens[1..] == Blocks(data[i + 2..]).tokens;
    } else if 0 < |data| < MAX_BLOCK {
      LastBlock(data);
    }
  }

  /** The first block ends within the buffer. */
  predicate EndsInTime(data: string) { FindSep(data).Some? && FindSep(data).value + 2 <= MAX_BLOCK }

  lemma {:induction false} SlackBehind(data: string, k: nat)
    requires k <= |data|
    ensures Slack(data[k..]) <= Slack(data)
  {
    if Closed(data) { ClosedBehind(data, k); }
  }

  lemma {:induction false} LastBlock(data: string)
    requires FindSep(data).None? && 0 < |data| < MAX_BLOCK
    ensures Rooms(Blocks(data).tokens) <= |data| + Slack(data)
  {
    assert HasSuffix(data, "\n\n") ==> SepAt(data, |data| - 2);
    assert Closed(data) ==> data == "\n";
    assert Blocks(data).tokens == [data];
    assert Rooms([data][1..]) == 0;
  }

  lemma {:induction false} FirstBlock(decode: Decoder, data: string)
    requires EndsInTime(data)
    ensures var i := FindSep(data).value;
      ReceivedBy(decode, data) == Heard(decode(data[..i])) + ReceivedBy(decode, data[i + 2..])
  {
    var i := FindSep(data).value;
    BlocksSplit(data);
    DecodedCons(decode, data[..i], Blocks(data[i + 2..]).tokens);
  }

  lemma {:induction false} BlocksSplit(data: string)
    requires EndsInTime(data)
    ensures var i := FindSep(data).value;
      && Blocks(data).tokens == [data[..i]] + Blocks(data[i + 2..]).tokens
      && Blocks(data).ok == Blocks(data[i + 2..]).ok
  {
  }

  /** Where the first block of a stream of frames ends. */
  lemma {:induction false} FirstSep(m: string, tail: string)
    ensures FindSep(Frame(m) + tail).Some? && FindSep(Frame(m) + tail).value <= |m| + 6
    ensures '\n' !in m ==> FindSep(Frame(m) + tail).value == |m| + 6
  {
    var s := Frame(m) + tail;
    assert SepAt(s, |m| + 6);
    assert SepAt(s, FindSep(s).value);
    if '\n' !in m {
      forall j | 0 <= j < |m| + 6 ensures !SepAt(s, j) {
        assert s[j] == ("data: " + m)[j];
        assert '\n' !in "data: " + m;
      }
    }
  }

  /** A list of messages arrives as it was sent exactly when each of them is non-empty, free of
      newlines, without white space around it and short enough for the reader's buffer. */
  lemma {:induction false} RoundTripExactly(ms: seq<string>)
    ensures Received(Stream(ms)) == ms <==> AllFaithful(ms)
  {
    if AllFaithful(ms) { RoundTrip(ms); }
    if Received(Stream(ms)) == ms { OnlyFaithfulArrives(ms); }
  }

  predicate AllFaithful(ms: seq<string>) {
    forall i | 0 <= i < |ms| :: Faithful(ms[i])
  }

  lemma {:induction false} AllFaithfulCons(ms: seq<string>)
    requires ms != []
    ensures AllFaithful(ms) <==> Faithful(ms[0]) && AllFaithful(ms[1..])
  {
    assert forall i | 1 <= i < |ms| :: ms[i] == ms[1..][i - 1];
  }

  /** A short message without newlines arrives trimmed, and the rest of the stream is read behind it. */
  lemma {:induction false} FramedHead(m: string, tail: string)
    requires '\n' !in m && |m| + 8 <= MAX_BLOCK
    ensures Received(Frame(m) + tail) == Heard(TrimSpace(m)) + Received(tail)
    ensures Blocks(Frame(m) + tail).ok == Blocks(tail).ok
  {
    var s := Frame(m) + tail;
    FirstSep(m, tail);
    assert s[..|m| + 6] == "data: " + m && s[|m| + 8..] == tail;
    FirstBlock(Message, s);
    MessageOfLine(m);
  }

  lemma {:induction false} RoundTrip(ms: seq<string>)
    requires AllFaithful(ms)
    ensures Received(Stream(ms)) == ms && Blocks(Stream(ms)).ok
  {
    if ms != [] {
      AllFaithfulCons(ms);
      RoundTrip(ms[1..]);
      FramedHead(ms[0], Stream(ms[1..]));
    }
  }

  lemma {:induction false} OnlyFaithfulArrives(ms: seq<string>)
    requires Received(Stream(ms)) == ms
    ensures AllFaithful(ms)
  {
    if ms != [] {
      HeadArrives(ms);
      OnlyFaithfulArrives(ms[1..]);
      AllFaithfulCons(ms);
    }
  }

  /** A first block that decodes to the first message is exactly its frame. */
  lemma {:induction false} HeadIsWhole(m: string, tail: string, i: nat)
    requires FindSep(Frame(m) + tail) == Some(i) && Message((Frame(m) + tail)[..i]) == m != ""
    ensures i == |m| + 6 && '\n' !in m && TrimSpace(m) == m
  {
    var block := (Frame(m) + tail)[..i];
    FirstSep(m, tail);
    MessageLength(block);
    assert block == "data: " + m;
    assert forall k | 0 <= k < |m| :: m[k] == block[k + 6];
    MessageOfLine(m);
  }

  lemma {:induction false} HeadArrives(ms: seq<string>)
    requires ms != [] && Received(Stream(ms)) == ms
    ensures Faithful(ms[0]) && Received(Stream(ms[1..])) == ms[1..]
  {
    var m, rest := ms[0], ms[1..];
    assert ms == [m] + rest;
    var s := Frame(m) + Stream(rest);
    FirstSep(m, Stream(rest));
    StreamIsClosed(ms);
    StreamWeight(ms);
    MessagesAreShort();
    var i := FirstIsHeard(Message, s, m, rest);
    HeadIsWhole(m, Stream(rest), i);
    assert s[i + 2..] == Stream(rest);
  }

  /** When as much arrives as the stream can carry, its first block cannot be silent. */
  lemma {:induction false} FirstIsHeard(decode: Decoder, s: string, m: string, rest: seq<string>) returns (i: nat)
    requires Shortens(decode) && Closed(s) && FindSep(s).Some?
    requires ReceivedBy(decode, s) == [m] + rest && Weight([m] + rest) == |s|
    ensures FindSep(s) == Some(i) && i + 2 <= MAX_BLOCK
    ensures decode(s[..i]) == m != "" && ReceivedBy(decode, s[i + 2..]) == rest
  {
    i := FindSep(s).value;
    HeardInTime(decode, s);
    FirstBlock(decode, s);
    ClosedBehind(s, i + 2);
    ReceivedByFits(decode, s[i + 2..]);
    HeardTells(decode(s[..i]), ReceivedBy(decode, s[i + 2..]), m, rest, |s| - i - 2);
  }

  lemma {:induction false} HeardInTime(decode: Decoder, s: string)
    requires FindSep(s).Some? && ReceivedBy(decode, s) != []
    ensures EndsInTime(s)
  {
  }

  lemma {:induction false} HeardTells(first: string, others: seq<string>, m: string, rest: seq<string>, room: nat)
    requires Heard(first) + others == [m] + rest
    requires Weight(others) <= room < Weight([m] + rest)
    ensures first == m != "" && others == rest
  {
    assert first == "" ==> Heard(first) + others == others;
    if first != "" {
      assert (Heard(first) + others)[0] == first && (Heard(first) + others)[1..] == others;
      assert ([m] + rest)[0] == m && ([m] + rest)[1..] == rest;
    }
  }
}
