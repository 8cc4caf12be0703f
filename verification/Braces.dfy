/** The brace scanner that looks for JSON objects in a model's answer, and the filter that removes them
    from the text shown to the user. */
module Braces {
  import opened Text

  function Weight(c: char): int { if c == '{' then 1 else if c == '}' then -1 else 0 }

  predicate IsBrace(c: char) { c == '{' || c == '}' }

  /** Opening minus closing braces among the first `k` characters. */
  function Depth(s: string, k: nat): int
    requires k <= |s|
  {
    if k == 0 then 0 else Depth(s, k - 1) + Weight(s[k - 1])
  }

  datatype Span = Span(start: nat, end: nat)

  /** The characters from `start` to `end` form a top-level group. */
  predicate IsTopBlock(s: string, b: Span) {
    && b.start < b.end <= |s| && s[b.start] == '{'
    && Depth(s, b.start) == 0 && Depth(s, b.end) == 0
    && forall k | b.start < k < b.end :: Depth(s, k) > 0
  }

  /** The blocks of `s` that end within its first `k` characters, in order. */
  ghost predicate Lists(blocks: seq<Span>, s: string, k: nat) {
    && (forall b: Span :: b in blocks <==> IsTopBlock(s, b) && b.end <= k)
    && (forall i, j | 0 <= i < j < |blocks| :: blocks[i].end <= blocks[j].start)
  }

  // The scanner.

  /** A block opened at `start` is still open after `k` characters. */
  ghost predicate Open(s: string, start: int, k: nat)
    requires k <= |s|
  {
    && 0 <= start < k && s[start] == '{' && Depth(s, start) == 0
    && forall j | start < j <= k :: Depth(s, j) > 0
  }

  lemma {:induction false} SameEndSameStart(s: string, a: Span, b: Span)
    requires IsTopBlock(s, a) && IsTopBlock(s, b) && a.end == b.end
    ensures a == b
  {
  }

  /** Reading one more character completes a block exactly when it closes the open one. */
  lemma {:induction false} BlockCompletes(s: string, start: int, k: nat, b: Span)
    requires k < |s|
    requires start == -1 ==> Depth(s, k) <= 0
    requires start != -1 ==> Open(s, start, k)
    ensures IsTopBlock(s, b) && b.end == k + 1 <==>
      start != -1 && s[k] == '}' && Depth(s, k + 1) == 0 && b == Span(start, k + 1)
  {
    if start != -1 && s[k] == '}' && Depth(s, k + 1) == 0 {
      assert IsTopBlock(s, Span(start, k + 1));
    }
    if IsTopBlock(s, b) && b.end == k + 1 {
      BlockCloses(s, b);
      SameEndSameStart(s, b, Span(start, k + 1));
    }
  }

  lemma {:induction false} BlockCloses(s: string, b: Span)
    requires IsTopBlock(s, b)
    ensures b.start < b.end - 1 && s[b.end - 1] == '}' && Depth(s, b.end - 1) == 1
  {
    assert Depth(s, b.end) == Depth(s, b.end - 1) + Weight(s[b.end - 1]);
    assert Depth(s, b.start + 1) == 1;
  }

  method FindBlocks(content: string) returns (blocks: seq<Span>)
    ensures Lists(blocks, content, |content|)
  {
    blocks := [];
    var start, depth := -1, 0;
    for i := 0 to |content|
      invariant depth == Depth(content, i)
      invariant start == -1 ==> depth <= 0
      invariant start != -1 ==> Open(content, start, i)
      invariant Lists(blocks, content, i)
      invariant forall b | b in blocks :: b.end <= i && (start != -1 ==> b.end <= start)
    {
      ghost var was, from := blocks, start;
      forall b: Span ensures IsTopBlock(content, b) && b.end == i + 1 <==>
        from != -1 && content[i] == '}' && Depth(content, i + 1) == 0 && b == Span(from, i + 1)
      {
        BlockCompletes(content, from, i, b);
      }
      if content[i] == '{' {
        if depth == 0 { start := i; }
        depth := depth + 1;
      } else if content[i] == '}' {
        depth := depth - 1;
        if depth == 0 && start != -1 {
          blocks := blocks + [Span(start, i + 1)];
          start := -1;
        }
      }
    }
  }

  /** No block of `s` is longer, and those before it are shorter. */
  ghost predicate FirstLongest(s: string, b: Span) {
    && IsTopBlock(s, b)
    && forall c | IsTopBlock(s, c) :: Size(c) <= Size(b) && (c.start < b.start ==> Size(c) < Size(b))
  }

  function Size(b: Span): int { b.end - b.start }

  method ExtractAllBalancedBraces(content: string) returns (r: seq<string>)
    ensures r == [] <==> forall b: Span :: !IsTopBlock(content, b)
    ensures r != [] ==> exists b :: FirstLongest(content, b) && r == [content[b.start..b.end]]
  {
    var blocks := FindBlocks(content);
    if blocks == [] { return []; }
    assert IsTopBlock(content, blocks[0]);
    var largest := PickLargest(blocks);
    LargestIsFirstLongest(content, blocks, largest);
    return [content[blocks[largest].start..blocks[largest].end]];
  }

  method PickLargest(blocks: seq<Span>) returns (largest: nat)
    requires blocks != []
    ensures largest < |blocks|
    ensures forall j | 0 <= j < |blocks| :: Size(blocks[j]) <= Size(blocks[largest])
    ensures forall j | 0 <= j < largest :: Size(blocks[j]) < Size(blocks[largest])
  {
    largest := 0;
    for i := 0 to |blocks|
      invariant largest < |blocks| && (largest < i || largest == i == 0)
      invariant forall j | 0 <= j < i :: Size(blocks[j]) <= Size(blocks[largest])
      invariant forall j | 0 <= j < largest :: Size(blocks[j]) < Size(blocks[largest])
    {
      if Size(blocks[i]) > Size(blocks[largest]) { largest := i; }
    }
  }

  lemma {:induction false} LargestIsFirstLongest(s: string, blocks: seq<Span>, k: nat)
    requires Lists(blocks, s, |s|) && k < |blocks|
    requires forall j | 0 <= j < |blocks| :: Size(blocks[j]) <= Size(blocks[k])
    requires forall j | 0 <= j < k :: Size(blocks[j]) < Size(blocks[k])
    ensures FirstLongest(s, blocks[k])
  {
    assert blocks[k] in blocks;
    forall c | IsTopBlock(s, c)
      ensures Size(c) <= Size(blocks[k]) && (c.start < blocks[k].start ==> Size(c) < Size(blocks[k]))
    {
      assert c in blocks;
      var j :| 0 <= j < |blocks| && blocks[j] == c;
    }
  }

  lemma {:induction false} DepthWithin(s: string, a: nat, b: nat, k: nat)
    requires a + k <= b <= |s|
    ensures Depth(s[a..b], k) == Depth(s, a + k) - Depth(s, a)
  {
    if k > 0 { DepthWithin(s, a, b, k - 1); }
  }

  /** A found block, read alone, is balanced and closes no sooner than at its end. */
  lemma {:induction false} BlockIsBalanced(s: string, b: Span)
    requires IsTopBlock(s, b)
    ensures var text := s[b.start..b.end];
      && Depth(text, |text|) == 0
      && forall k | 0 < k < |text| :: Depth(text, k) > 0
  {
    var text := s[b.start..b.end];
    forall k: nat | k <= |text| ensures Depth(text, k) == Depth(s, b.start + k) {
      DepthWithin(s, b.start, b.end, k);
    }
  }

  // The filter.

  function IndexOf(s: string, c: char): (i: nat)
    ensures i <= |s| && (i < |s| ==> s[i] == c)
    ensures forall j | 0 <= j < i :: s[j] != c
  {
    if s == "" || s[0] == c then 0 else IndexOf(s[1..], c) + 1
  }

  /** Whether the filter, started at `from`, is inside an object after `k` characters. */
  predicate InJson(s: string, from: nat, k: nat)
    requires from <= k <= |s|
  {
    if k == from then false
    else if s[k - 1] == '{' then true
    else if s[k - 1] == '}' && Depth(s, k) == Depth(s, from) then false
    else InJson(s, from, k - 1)
  }

  /** What the filter has kept of the characters from `from` to `k`. */
  function Kept(s: string, from: nat, k: nat): string
    requires from <= k <= |s|
  {
    if k == from then ""
    else Kept(s, from, k - 1) + if IsBrace(s[k - 1]) || InJson(s, from, k - 1) then "" else [s[k - 1]]
  }

  method CleanJSONFromBuffer(buffer: string) returns (r: string)
    ensures var first := IndexOf(buffer, '{');
      r == if first == |buffer| then buffer else TrimSpace(Kept(buffer, first, |buffer|))
  {
    var startIdx := IndexOf(buffer, '{');
    if startIdx == |buffer| { return buffer; }
    var depth, inJSON, result := 0, false, "";
    for i := startIdx to |buffer|
      invariant depth == Depth(buffer, i) - Depth(buffer, startIdx)
      invariant inJSON == InJson(buffer, startIdx, i)
      invariant result == Kept(buffer, startIdx, i)
    {
      if buffer[i] == '{' {
        if !inJSON { inJSON := true; }
        depth := depth + 1;
      } else if buffer[i] == '}' {
        depth := depth - 1;
        if depth == 0 && inJSON { inJSON := false; }
      } else {
        if !inJSON { result := result + [buffer[i]]; }
      }
    }
    return TrimSpace(result);
  }

  // What the scanner finds and what the filter keeps.

  ghost predicate Covered(s: string, k: nat) {
    exists b: Span :: IsTopBlock(s, b) && b.start <= k < b.end
  }

  /** The characters between `from` and `k` that lie in no block. */
  ghost function Outside(s: string, from: nat, k: nat): string
    requires from <= k <= |s|
  {
    if k == from then "" else Outside(s, from, k - 1) + if Covered(s, k - 1) then "" else [s[k - 1]]
  }

  /** Braces match: no prefix closes more than it opens, and everything opened is closed. */
  ghost predicate Matched(s: string) {
    Depth(s, |s|) == 0 && forall k | 0 <= k <= |s| :: Depth(s, k) >= 0
  }

  /** From the first brace on, the blocks the scanner finds and the text the filter keeps are together the
      whole text, nothing twice and nothing lost, exactly when the braces of the text match. */
  lemma {:induction false} PartitionExactly(s: string)
    requires '{' in s
    ensures var first := IndexOf(s, '{');
      Kept(s, first, |s|) == Outside(s, first, |s|) <==> Matched(s)
  {
    var first := IndexOf(s, '{');
    if Matched(s) {
      FlatBefore(s, first, first);
      KeptIsOutside(s, first, |s|);
    }
    if Kept(s, first, |s|) == Outside(s, first, |s|) {
      KeptHasNoBrace(s, first, |s|);
      forall k | first <= k < |s| && IsBrace(s[k]) ensures Covered(s, k) {
        if !Covered(s, k) { OutsideHas(s, first, |s|, k); }
      }
      CoveredMatches(s, first);
    }
  }

  /** Blocks do not overlap. */
  lemma {:induction false} BlocksAreDisjoint(s: string, a: Span, b: Span)
    requires IsTopBlock(s, a) && IsTopBlock(s, b)
    ensures a == b || a.end <= b.start || b.end <= a.start
  {
  }

  lemma {:induction false} FlatBefore(s: string, first: nat, k: nat)
    requires k <= first <= |s| && (forall j | 0 <= j < first :: s[j] != '{')
    ensures Depth(s, k) <= 0
    ensures Depth(s, k) == 0 ==> forall j | 0 <= j <= k :: Depth(s, j) == 0
  {
    if k > 0 { FlatBefore(s, first, k - 1); }
  }

  lemma {:induction false} StartBefore(s: string, k: nat) returns (a: nat)
    requires k <= |s| && Depth(s, k) > 0 && forall j | 0 <= j <= |s| :: Depth(s, j) >= 0
    ensures Open(s, a, k)
  {
    if Depth(s, k - 1) == 0 {
      a := k - 1;
    } else {
      a := StartBefore(s, k - 1);
    }
  }

  lemma {:induction false} EndAfter(s: string, k: nat) returns (e: nat)
    requires k <= |s| && Depth(s, k) > 0 && Matched(s)
    ensures k < e <= |s| && Depth(s, e) == 0 && forall j | k <= j < e :: Depth(s, j) > 0
    decreases |s| - k
  {
    if Depth(s, k + 1) == 0 {
      e := k + 1;
    } else {
      e := EndAfter(s, k + 1);
    }
  }

  /** With matched braces the blocks hold exactly the braces and what is between them. */
  lemma {:induction false} CoveredWhen(s: string, k: nat)
    requires Matched(s) && k < |s|
    ensures Covered(s, k) <==> IsBrace(s[k]) || Depth(s, k) > 0
  {
    assert Depth(s, k + 1) == Depth(s, k) + Weight(s[k]);
    if Depth(s, k) > 0 {
      var a := StartBefore(s, k);
      var e := EndAfter(s, k);
      assert IsTopBlock(s, Span(a, e));
    } else if s[k] == '{' {
      var e := EndAfter(s, k + 1);
      assert IsTopBlock(s, Span(k, e));
    }
  }

  lemma {:induction false} InJsonWhen(s: string, from: nat, k: nat)
    requires Matched(s) && from <= k <= |s| && Depth(s, from) == 0
    ensures InJson(s, from, k) <==> Depth(s, k) > 0
  {
    if k > from { InJsonWhen(s, from, k - 1); }
  }

  lemma {:induction false} KeptIsOutside(s: string, from: nat, k: nat)
    requires Matched(s) && from <= k <= |s| && Depth(s, from) == 0
    ensures Kept(s, from, k) == Outside(s, from, k)
  {
    if k > from {
      KeptIsOutside(s, from, k - 1);
      CoveredWhen(s, k - 1);
      InJsonWhen(s, from, k - 1);
    }
  }

  /** The filter never lets a brace through. */
  lemma {:induction false} KeptHasNoBrace(s: string, from: nat, k: nat)
    requires from <= k <= |s|
    ensures '{' !in Kept(s, from, k) && '}' !in Kept(s, from, k)
  {
    if k > from { KeptHasNoBrace(s, from, k - 1); }
  }

  lemma {:induction false} OutsideHas(s: string, from: nat, k: nat, i: nat)
    requires from <= i < k <= |s| && !Covered(s, i)
    ensures s[i] in Outside(s, from, k)
  {
    if i < k - 1 { OutsideHas(s, from, k - 1, i); }
  }

  lemma {:induction false} CoveredMatches(s: string, first: nat)
    requires first < |s| && s[first] == '{' && (forall j | 0 <= j < first :: s[j] != '{')
    requires forall k | first <= k < |s| && IsBrace(s[k]) :: Covered(s, k)
    ensures Matched(s)
  {
    var b: Span :| IsTopBlock(s, b) && b.start <= first < b.end;
    assert b.start == first;
    FlatBefore(s, first, first);
    forall k | 0 <= k <= |s| ensures Depth(s, k) >= 0 && (k == |s| ==> Depth(s, k) == 0) {
      if k >= first { FlatOrInside(s, first, k); }
    }
  }

  ghost predicate Inside(s: string, k: nat) {
    exists b: Span :: IsTopBlock(s, b) && b.start < k < b.end
  }

  lemma {:induction false} FlatOrInside(s: string, first: nat, k: nat)
    requires first <= k <= |s| && Depth(s, first) == 0
    requires forall j | first <= j < |s| && IsBrace(s[j]) :: Covered(s, j)
    ensures Depth(s, k) == 0 || (Inside(s, k) && Depth(s, k) > 0)
  {
    if k > first {
      FlatOrInside(s, first, k - 1);
      if IsBrace(s[k - 1]) || Depth(s, k - 1) != 0 {
        assert Covered(s, k - 1);
        StillInside(s, k);
      }
    }
  }

  lemma {:induction false} StillInside(s: string, k: nat)
    requires 0 < k <= |s| && Covered(s, k - 1)
    ensures Depth(s, k) == 0 || (Inside(s, k) && Depth(s, k) > 0)
  {
    var b: Span :| IsTopBlock(s, b) && b.start <= k - 1 < b.end;
    if k < b.end {
      assert b.start < k < b.end;
    }
  }
}
