/** Keeping a session's history small: `trimHistory` cuts by message count, `manageContextWindow` by
    characters. This module says what each leaves of a history; the session's methods are proved
    against it. */
module ContextWindow {
  import opened Common
  import opened Messages

  const MAX_HISTORY_MESSAGES: nat := 40
  const DEFAULT_CHAR_LIMIT: nat := 320000

  /** The character limit for a configured token budget; a budget of 0 or less means the default. */
  function CharLimit(maxContextTokens: int): nat {
    if maxContextTokens > 0 then maxContextTokens * 4 else DEFAULT_CHAR_LIMIT
  }

  /** What `trimHistory` leaves: at most 40 messages, the system head among them if there is one. */
  function Trimmed(h: seq<Message>): seq<Message> {
    if |h| <= MAX_HISTORY_MESSAGES then h
    else if h[0].role.System? then [h[0]] + h[|h| - (MAX_HISTORY_MESSAGES - 1)..]
    else h[|h| - MAX_HISTORY_MESSAGES..]
  }

  /** Past forty messages exactly forty stay: the system head and the last 39, or the last 40. */
  lemma {:induction false} TrimKeepsLatest(h: seq<Message>)
    ensures |h| <= 40 ==> Trimmed(h) == h
    ensures |h| > 40 ==> |Trimmed(h)| == 40 && forall i | 1 <= i < 40 :: Trimmed(h)[i] == h[|h| - 40 + i]
    ensures |h| > 40 ==> Trimmed(h)[0] == if h[0].role.System? then h[0] else h[|h| - 40]
  {
  }

  // The compaction notice. Its text is UTF-8; each character below is one byte.

  const NOTICE_HEAD: string :=
    "\n[S\U{C4}\U{B0}STEM B\U{C4}\U{B0}LG\U{C4}\U{B0}S\U{C4}\U{B0}: "
    + "Limitleri korumak i\U{C3}\U{A7}in \U{C3}\U{B6}nceki "
  const NOTICE_TAIL: string :=
    " mesaj ar\U{C5}\U{9F}ive kald\U{C4}\U{B1}r\U{C4}\U{B1}ld\U{C4}\U{B1}. "
    + "G\U{C3}\U{BC}ncel ba\U{C4}\U{9F}lama odaklan.]\n"

  function Decimal(n: nat): string {
    if n < 10 then [(n + '0' as int) as char] else Decimal(n / 10) + [(n % 10 + '0' as int) as char]
  }

  /** The number some digits stand for. */
  function ReadBack(digits: string): int {
    if digits == "" then 0 else ReadBack(digits[..|digits| - 1]) * 10 + (digits[|digits| - 1] as int - '0' as int)
  }

  lemma {:induction false} DecimalReadsBack(n: nat)
    ensures ReadBack(Decimal(n)) == n
    ensures forall i | 0 <= i < |Decimal(n)| :: '0' <= Decimal(n)[i] <= '9'
  {
    if n >= 10 {
      DecimalReadsBack(n / 10);
      assert Decimal(n)[..|Decimal(n)| - 1] == Decimal(n / 10);
    } else {
      assert ReadBack(Decimal(n)[..0]) == 0;
    }
  }

  /** A notice tells how many messages went. */
  lemma {:induction false} NoticeTells(m: nat, n: nat)
    requires Notice(m) == Notice(n)
    ensures m == n
  {
    var a, b := NOTICE_HEAD, NOTICE_TAIL;
    Inner(a, Decimal(m), b);
    Inner(a, Decimal(n), b);
    DecimalReadsBack(m);
    DecimalReadsBack(n);
  }

  lemma {:induction false} Inner(a: string, s: string, b: string)
    ensures (a + s + b)[|a|..|a + s + b| - |b|] == s
  {
  }

  function Notice(dropped: nat): Message {
    SystemMessage(NOTICE_HEAD + Decimal(dropped) + NOTICE_TAIL)
  }

  ghost predicate IsNotice(m: Message) {
    exists n: nat :: m == Notice(n)
  }

  /** The suffix starting at `k` fits beside a system prompt of `sys` characters. */
  predicate Fits(sys: nat, msgs: seq<Message>, k: nat, limit: nat)
    requires k <= |msgs|
  {
    sys + Chars(msgs[k..]) <= limit
  }

  /** Where the kept suffix starts: the first position from which everything fits, or the last message. */
  function KeepFrom(sys: nat, msgs: seq<Message>, limit: nat): (k: nat)
    requires msgs != []
    ensures k < |msgs|
  {
    if |msgs| == 1 || sys + Chars(msgs) <= limit then 0
    else 1 + KeepFrom(sys, msgs[1..], limit)
  }

  /** `KeepFrom` is the longest suffix that fits; only when not even the last message fits is that one
      kept all the same. */
  lemma {:induction false} KeepFromIsLongest(sys: nat, msgs: seq<Message>, limit: nat)
    requires msgs != []
    ensures var k := KeepFrom(sys, msgs, limit);
            && (Fits(sys, msgs, k, limit) || k == |msgs| - 1)
            && forall j | 0 <= j < k :: !Fits(sys, msgs, j, limit)
  {
    assert msgs[0..] == msgs;
    if |msgs| > 1 && sys + Chars(msgs) > limit {
      KeepFromIsLongest(sys, msgs[1..], limit);
      var k := KeepFrom(sys, msgs[1..], limit);
      assert msgs[1..][k..] == msgs[k + 1..];
      forall j | 0 <= j < k + 1 ensures !Fits(sys, msgs, j, limit) {
        if j > 0 {
          assert !Fits(sys, msgs[1..], j - 1, limit);
          assert msgs[1..][j - 1..] == msgs[j..];
        }
      }
    }
  }

  /** The backward scan may stop at the first message that does not fit: nothing longer fits either. */
  lemma {:induction false} KeepFromByScan(sys: nat, msgs: seq<Message>, limit: nat, k: nat)
    requires k < |msgs|
    requires Fits(sys, msgs, k, limit) || k == |msgs| - 1
    requires k > 0 ==> !Fits(sys, msgs, k - 1, limit)
    ensures KeepFrom(sys, msgs, limit) == k
  {
    KeepFromIsLongest(sys, msgs, limit);
    var r := KeepFrom(sys, msgs, limit);
    if r < k {
      FitsShrinks(sys, msgs, r, k - 1, limit);
    }
  }

  lemma {:induction false} FitsShrinks(sys: nat, msgs: seq<Message>, i: nat, j: nat, limit: nat)
    requires i <= j <= |msgs|
    requires Fits(sys, msgs, i, limit)
    ensures Fits(sys, msgs, j, limit)
  {
    assert msgs[i..] == msgs[i..j] + msgs[j..];
    CharsConcat(msgs[i..j], msgs[j..]);
  }

  /** What `manageContextWindow` leaves of `h`. `None` is the slice panic: only the system prompt is
      there and it alone is over the limit. */
  function Compacted(h: seq<Message>, limit: nat): Option<seq<Message>> {
    if h == [] || Chars(h) <= limit || !h[0].role.System? then Some(h)
    else if |h| == 1 then None
    else
      var k := KeepFrom(|h[0].content|, h[1..], limit);
      Some([h[0]] + (if k > 0 then [Notice(k)] else []) + h[1..][k..])
  }

  // Results about compaction.

  /** A compaction panics exactly when the history is one over-long system prompt. */
  lemma {:induction false} CompactionIsSafe(h: seq<Message>, limit: nat)
    ensures Compacted(h, limit).None? <==> |h| == 1 && h[0].role.System? && |h[0].content| > limit
  {
    if |h| == 1 { assert Chars(h) == |h[0].content| + Chars(h[1..]); }
  }

  function Max(a: int, b: int): int { if a < b then b else a }

  /** The history never grows in messages, and its characters stay within the limit unless the prompt
      and the last message alone break it; the notice comes on top. */
  lemma {:induction false} CompactionIsBounded(h: seq<Message>, limit: nat)
    requires |h| >= 2 && h[0].role.System?
    ensures Compacted(h, limit).Some?
    ensures var r := Compacted(h, limit).value;
            && 2 <= |r| <= |h|
            && r[0] == h[0] && r[|r| - 1] == h[|h| - 1]
            && (Chars(r) <= Max(limit, |h[0].content| + |h[|h| - 1].content|)
                || (|h| > 2 && exists k: nat | 0 < k < |h| - 1 ::
                      && r[1] == Notice(k)
                      && Chars(r) <= Max(limit, |h[0].content| + |h[|h| - 1].content|) + |Notice(k).content|))
  {
    if Chars(h) > limit {
      var sys, msgs := |h[0].content|, h[1..];
      var k := KeepFrom(sys, msgs, limit);
      KeptIsBounded(sys, msgs, limit);
      CharsOfKept(h[0], k, msgs[k..]);
      EndsOfKept(h, k);
      var r := Compacted(h, limit).value;
      assert r == Kept(h, k);
      assert Chars(r) == sys + Chars(msgs[k..]) + if k > 0 then |Notice(k).content| else 0;
    }
  }

  /** The prompt, a notice if something is dropped, and the messages from `k` on behind the prompt. */
  function Kept(h: seq<Message>, k: nat): seq<Message>
    requires k < |h|
  {
    [h[0]] + (if k > 0 then [Notice(k)] else []) + h[1..][k..]
  }

  lemma {:induction false} EndsOfKept(h: seq<Message>, k: nat)
    requires k < |h| - 1
    ensures var r := Kept(h, k);
      && 2 <= |r| <= |h| && r[0] == h[0] && r[|r| - 1] == h[|h| - 1]
      && (k > 0 ==> |h| > 2 && r[1] == Notice(k))
  {
  }

  /** What is kept fits beside the prompt, or is the last message. */
  lemma {:induction false} KeptIsBounded(sys: nat, msgs: seq<Message>, limit: nat)
    requires msgs != []
    ensures sys + Chars(msgs[KeepFrom(sys, msgs, limit)..]) <= Max(limit, sys + |msgs[|msgs| - 1].content|)
  {
    KeepFromIsLongest(sys, msgs, limit);
    var k := KeepFrom(sys, msgs, limit);
    if k == |msgs| - 1 {
      assert msgs[k..] == [msgs[k]];
      assert Chars([msgs[k]]) == |msgs[k].content|;
    }
  }

  lemma {:induction false} CharsOfKept(system: Message, k: nat, kept: seq<Message>)
    ensures Chars([system] + [] + kept) == |system.content| + Chars(kept)
    ensures Chars([system] + [Notice(k)] + kept) == |system.content| + |Notice(k).content| + Chars(kept)
  {
    assert [system] + [] + kept == [system] + kept;
    CharsConcat([system], kept);
    CharsConcat([system] + [Notice(k)], kept);
    CharsConcat([system], [Notice(k)]);
    assert Chars([system]) == |system.content| && Chars([Notice(k)]) == |Notice(k).content|;
  }

  /** Optimality: over the limit, everything kept behind the notice is the longest suffix that fits
      beside the system prompt, and the notice counts exactly the messages that went. */
  lemma {:induction false} CompactionIsOptimal(h: seq<Message>, limit: nat)
    requires |h| >= 3 && h[0].role.System? && Chars(h) > limit
    ensures exists k: nat | 0 < k < |h| - 1 ::
              && Compacted(h, limit) == Some([h[0], Notice(k)] + h[1 + k..])
              && (Fits(|h[0].content|, h, 1 + k, limit) || k == |h| - 2)
              && forall j | 1 <= j < 1 + k :: !Fits(|h[0].content|, h, j, limit)
  {
    var sys := |h[0].content|;
    var msgs := h[1..];
    var k := KeepFrom(sys, msgs, limit);
    KeepFromIsLongest(sys, msgs, limit);
    assert h == [h[0]] + msgs;
    assert k > 0;
    assert msgs[k..] == h[1 + k..];
    forall j | 1 <= j < 1 + k ensures !Fits(sys, h, j, limit) {
      assert h[j..] == msgs[j - 1..];
      assert !Fits(sys, msgs, j - 1, limit);
    }
    assert [h[0]] + [Notice(k)] == [h[0], Notice(k)];
    assert Compacted(h, limit) == Some([h[0], Notice(k)] + h[1 + k..]);
  }

  // How a history refines the log of everything ever said in the session.

  ghost predicate NoSystem(log: seq<Message>) {
    forall i | 0 <= i < |log| :: !log[i].role.System?
  }

  /** The messages behind the system prompt and the notice, if one stands at index 1. */
  function Body(h: seq<Message>): seq<Message>
    requires |h| >= 1
  {
    if |h| >= 2 && h[1].role.System? then h[2..] else h[1..]
  }

  /** A history with its system prompt pinned: the prompt, at most one notice at index 1, then a
      non-empty contiguous suffix of the log. */
  ghost predicate Headed(h: seq<Message>, log: seq<Message>) {
    && |h| >= 2
    && h[0].role.System? && h[0].toolCalls == []
    && (h[1].role.System? ==> IsNotice(h[1]))
    && Body(h) != []
    && IsSuffix(Body(h), log)
  }

  lemma {:induction false} SuffixHasNoSystem(s: seq<Message>, log: seq<Message>)
    requires NoSystem(log) && IsSuffix(s, log)
    ensures NoSystem(s)
  {
    forall i | 0 <= i < |s| ensures !s[i].role.System? {
      assert s[i] == log[|log| - |s| + i];
    }
  }

  lemma {:induction false} SuffixDrop<T>(s: seq<T>, log: seq<T>, k: nat)
    requires IsSuffix(s, log) && k <= |s|
    ensures IsSuffix(s[k..], log)
  {
    assert log[|log| - |s|..][k..] == log[|log| - |s| + k..];
  }

  lemma {:induction false} SuffixAppend<T>(s: seq<T>, log: seq<T>, more: seq<T>)
    requires IsSuffix(s, log)
    ensures IsSuffix(s + more, log + more)
  {
    assert (log + more)[|log| - |s|..] == log[|log| - |s|..] + more;
  }

  lemma {:induction false} AppendRefines(h: seq<Message>, log: seq<Message>, more: seq<Message>)
    requires Headed(h, log)
    ensures Headed(h + more, log + more)
  {
    SuffixAppend(Body(h), log, more);
    BodyAppend(h, more);
  }

  lemma {:induction false} BodyAppend(h: seq<Message>, more: seq<Message>)
    requires |h| >= 2
    ensures Body(h + more) == Body(h) + more
  {
  }

  lemma {:induction false} TrimRefines(h: seq<Message>, log: seq<Message>)
    requires Headed(h, log) && NoSystem(log)
    ensures Headed(Trimmed(h), log)
  {
    SuffixHasNoSystem(Body(h), log);
    if |h| > MAX_HISTORY_MESSAGES {
      var cut := |h| - (MAX_HISTORY_MESSAGES - 1);
      var gone := |h| - |Body(h)|;
      assert h[cut..] == Body(h)[cut - gone..];
      SuffixDrop(Body(h), log, cut - gone);
      assert Body(Trimmed(h)) == h[cut..] by {
        assert Trimmed(h)[1] == Body(h)[cut - gone];
        assert Trimmed(h)[1..] == h[cut..];
      }
    }
  }

  lemma {:induction false} CompactionRefines(h: seq<Message>, log: seq<Message>, limit: nat)
    requires Headed(h, log) && NoSystem(log)
    ensures Compacted(h, limit).Some? && Headed(Compacted(h, limit).value, log)
  {
    if Chars(h) > limit {
      var k := KeepFrom(|h[0].content|, h[1..], limit);
      if |h| > 2 {
        assert k > 0;
        assert h[1..][k..] == h[1 + k..];
        assert [h[0]] + [Notice(k)] == [h[0], Notice(k)];
        NoticeRefines(h, log, k);
      } else {
        assert [h[0]] + [] + h[1..][k..] == h;
      }
    }
  }

  lemma {:induction false} NoticeRefines(h: seq<Message>, log: seq<Message>, k: nat)
    requires Headed(h, log) && NoSystem(log) && 0 < k < |h| - 1
    ensures Headed([h[0], Notice(k)] + h[1 + k..], log)
  {
    SuffixHasNoSystem(Body(h), log);
    var gone := |h| - |Body(h)|;
    assert h[1 + k..] == Body(h)[k + 1 - gone..];
    SuffixDrop(Body(h), log, k + 1 - gone);
    var r := [h[0], Notice(k)] + h[1 + k..];
    assert Body(r) == r[2..] == h[1 + k..];
  }

  /** Pinning a new prompt in front (or over the old one). */
  function Refreshed(h: seq<Message>, prompt: string): seq<Message> {
    if h == [] || !h[0].role.System? then [SystemMessage(prompt)] + h
    else h[0 := SystemMessage(prompt)]
  }

  lemma {:induction false} RefreshRefines(h: seq<Message>, log: seq<Message>, prompt: string)
    requires NoSystem(log)
    requires Headed(h, log) || (h != [] && IsSuffix(h, log))
    ensures Headed(Refreshed(h, prompt), log)
  {
    if Headed(h, log) {
      assert Body(Refreshed(h, prompt)) == Body(h);
    } else {
      SuffixHasNoSystem(h, log);
      assert Refreshed(h, prompt)[1..] == h;
    }
  }

  /** Whatever the provider is shown is paired when the log is. */
  lemma {:induction false} HeadedIsPaired(h: seq<Message>, log: seq<Message>)
    requires Headed(h, log) && Paired(log)
    ensures Paired(h)
  {
    var n := |h| - |Body(h)|;
    PairedDrop(log, |log| - |Body(h)|);
    assert h == h[..n] + Body(h);
    PairedBehindSystem(h[..n], Body(h));
  }
}
