/** The text functions of the Go library the modelled code relies on. A character is one byte. */
module Text {
  import opened Common

  /** The pieces of `s` between the separators; there is always at least one. */
  function Split(s: string, c: char): (r: seq<string>)
    ensures |r| >= 1
  {
    if s == "" then [""]
    else
      var rest := Split(s[1..], c);
      if s[0] == c then [""] + rest else [[s[0]] + rest[0]] + rest[1..]
  }

  function Join(pieces: seq<string>, c: char): string {
    if pieces == [] then ""
    else if |pieces| == 1 then pieces[0]
    else pieces[0] + [c] + Join(pieces[1..], c)
  }

  predicate Free(pieces: seq<string>, c: char) {
    forall i | 0 <= i < |pieces| :: c !in pieces[i]
  }

  lemma {:induction false} SplitIsFree(s: string, c: char)
    ensures Free(Split(s, c), c)
  {
    if s != "" { SplitIsFree(s[1..], c); }
  }

  lemma {:induction false} JoinSplit(s: string, c: char)
    ensures Join(Split(s, c), c) == s
  {
    if s != "" {
      var rest := Split(s[1..], c);
      JoinSplit(s[1..], c);
      if s[0] == c {
        assert ([""] + rest)[1..] == rest;
        assert s == [c] + s[1..];
      } else {
        JoinHead([s[0]], rest, c);
        assert [[s[0]] + rest[0]] + rest[1..] == [[s[0]] + rest[0]] + rest[1..];
      }
    }
  }

  lemma {:induction false} JoinHead(p: string, pieces: seq<string>, c: char)
    requires pieces != []
    ensures Join([p + pieces[0]] + pieces[1..], c) == p + Join(pieces, c)
  {
    var r := [p + pieces[0]] + pieces[1..];
    if |pieces| > 1 {
      assert r[1..] == pieces[1..];
      assert (p + pieces[0]) + [c] + Join(pieces[1..], c) == p + (pieces[0] + [c] + Join(pieces[1..], c));
    }
  }

  /** Putting `p`, free of separators, in front of a text puts it in front of the first piece. */
  lemma {:induction false} SplitHead(p: string, s: string, c: char)
    requires c !in p
    ensures Split(p + s, c) == [p + Split(s, c)[0]] + Split(s, c)[1..]
  {
    if p == "" {
      assert p + s == s;
      assert "" + Split(s, c)[0] == Split(s, c)[0];
    } else {
      assert (p + s)[1..] == p[1..] + s;
      SplitHead(p[1..], s, c);
      assert [p[0]] + (p[1..] + Split(s, c)[0]) == p + Split(s, c)[0];
    }
  }

  lemma {:induction false} SplitJoin(pieces: seq<string>, c: char)
    requires pieces != [] && Free(pieces, c)
    ensures Split(Join(pieces, c), c) == pieces
  {
    var p := pieces[0];
    if |pieces| == 1 {
      assert p + "" == p;
      SplitHead(p, "", c);
      assert [p + ""] + [] == pieces;
    } else {
      var rest := Join(pieces[1..], c);
      SplitJoin(pieces[1..], c);
      assert Join(pieces, c) == p + ([c] + rest);
      assert ([c] + rest)[1..] == rest;
      assert Split([c] + rest, c) == [""] + pieces[1..];
      SplitHead(p, [c] + rest, c);
      assert [p + ""] + pieces[1..] == pieces;
    }
  }

  lemma {:induction false} JoinConcat(a: seq<string>, b: seq<string>, c: char)
    requires a != [] && b != []
    ensures Join(a + b, c) == Join(a, c) + [c] + Join(b, c)
  {
    if |a| == 1 {
      assert (a + b)[1..] == b;
    } else {
      assert (a + b)[1..] == a[1..] + b;
      JoinConcat(a[1..], b, c);
      assert a[0] + [c] + (Join(a[1..], c) + [c] + Join(b, c)) == (a[0] + [c] + Join(a[1..], c)) + [c] + Join(b, c);
    }
  }

  /** A piece that is itself a joined text may be replaced by its own pieces. */
  lemma {:induction false} JoinNested(a: seq<string>, m: seq<string>, b: seq<string>, c: char)
    requires m != []
    ensures Join(a + [Join(m, c)] + b, c) == Join(a + m + b, c)
  {
    if b != [] {
      JoinConcat(a + m, b, c);
      JoinConcat(a + [Join(m, c)], b, c);
    } else {
      assert a + m + b == a + m && a + [Join(m, c)] + b == a + [Join(m, c)];
    }
    if a != [] {
      JoinConcat(a, m, c);
      JoinConcat(a, [Join(m, c)], c);
    } else {
      assert [] + m == m && [] + [Join(m, c)] == [Join(m, c)];
    }
  }

  function Total(pieces: seq<string>): nat {
    if pieces == [] then 0 else |pieces[0]| + Total(pieces[1..])
  }

  lemma {:induction false} JoinLength(pieces: seq<string>, c: char)
    ensures |Join(pieces, c)| == Total(pieces) + if pieces == [] then 0 else |pieces| - 1
  {
    if |pieces| > 1 { JoinLength(pieces[1..], c); }
  }

  // White space.

  predicate IsSpace(a: char) { '\t' <= a <= '\r' || a == ' ' }

  /** The white space characters whose UTF-8 encoding takes two or three bytes. */
  predicate IsSpace2(a: char, b: char) { a == '\U{C2}' && (b == '\U{85}' || b == '\U{A0}') }

  predicate IsSpace3(a: char, b: char, c: char) {
    || (a == '\U{E1}' && b == '\U{9A}' && c == '\U{80}')
    || (a == '\U{E2}' && b == '\U{80}'
        && ('\U{80}' <= c <= '\U{8A}' || c == '\U{A8}' || c == '\U{A9}' || c == '\U{AF}'))
    || (a == '\U{E2}' && b == '\U{81}' && c == '\U{9F}')
    || (a == '\U{E3}' && b == '\U{80}' && c == '\U{80}')
  }

  /** How many bytes the white space at position `i` takes; 0 if there is none. */
  function SpaceAt(s: string, i: nat): (k: nat)
    requires i <= |s|
    ensures i + k <= |s|
  {
    if i + 1 <= |s| && IsSpace(s[i]) then 1
    else if i + 2 <= |s| && IsSpace2(s[i], s[i + 1]) then 2
    else if i + 3 <= |s| && IsSpace3(s[i], s[i + 1], s[i + 2]) then 3
    else 0
  }

  /** How many bytes the white space that ends before position `j` takes. */
  function SpaceBefore(s: string, j: nat): (k: nat)
    requires j <= |s|
    ensures k <= j
  {
    if j >= 1 && IsSpace(s[j - 1]) then 1
    else if j >= 2 && IsSpace2(s[j - 2], s[j - 1]) then 2
    else if j >= 3 && IsSpace3(s[j - 3], s[j - 2], s[j - 1]) then 3
    else 0
  }

  /** Where the white space from `i` on ends. */
  function SpaceEnd(s: string, i: nat): (e: nat)
    requires i <= |s|
    ensures i <= e <= |s|
    ensures e == i <==> SpaceAt(s, i) == 0
    decreases |s| - i
  {
    if SpaceAt(s, i) == 0 then i else SpaceEnd(s, i + SpaceAt(s, i))
  }

  /** Where the white space that ends before `j` begins. */
  function SpaceStart(s: string, j: nat): (b: nat)
    requires j <= |s|
    ensures b <= j
    ensures b == j <==> SpaceBefore(s, j) == 0
  {
    if SpaceBefore(s, j) == 0 then j else SpaceStart(s, j - SpaceBefore(s, j))
  }

  function TrimLeft(s: string): string { s[SpaceEnd(s, 0)..] }

  function TrimRight(s: string): string { s[..SpaceStart(s, |s|)] }

  function TrimSpace(s: string): (r: string)
    ensures |r| <= |s|
  {
    TrimRight(TrimLeft(s))
  }

  /** No white space at either end. */
  predicate Trim(s: string) { SpaceAt(s, 0) == 0 && SpaceBefore(s, |s|) == 0 }

  lemma {:induction false} TrimIsKept(s: string)
    requires Trim(s)
    ensures TrimSpace(s) == s
  {
    assert s[0..] == s && s[..|s|] == s;
  }

  /** A newline on either side of a trimmed text is all that trimming takes away. */
  lemma {:induction false} TrimBetweenNewlines(s: string)
    requires s != "" && Trim(s)
    ensures TrimSpace("\n" + s + "\n") == s
  {
    TrimDropsNewline("\n" + s);
    assert TrimSpace("\n" + s) == s by { TrimAfterNewline(s); }
  }

  lemma {:induction false} TrimAfterNewline(s: string)
    requires s != "" && Trim(s)
    ensures TrimSpace("\n" + s) == s
  {
    var t := "\n" + s;
    assert t[0] == '\n' && t[1..] == s;
    SpaceAtBehind(s);
    assert SpaceAt(t, 0) == 1 && SpaceAt(t, 1) == 0;
    assert SpaceEnd(t, 1) == 1 && SpaceEnd(t, 0) == 1;
    assert TrimLeft(t) == s;
    assert s[..|s|] == s;
  }

  lemma {:induction false} SpaceAtBehind(s: string)
    ensures SpaceAt("\n" + s, 1) == SpaceAt(s, 0)
  {
    var t := "\n" + s;
    assert forall i | 0 <= i < |s| :: t[i + 1] == s[i];
  }

  /** What trimming leaves is a piece of the text, with nothing but white space in front and none at its end. */
  lemma {:induction false} TrimmedIsPiece(s: string) returns (i: nat, j: nat)
    ensures i <= j <= |s| && TrimSpace(s) == s[i..j]
    ensures i == SpaceEnd(s, 0) && SpaceBefore(TrimSpace(s), |TrimSpace(s)|) == 0
    ensures SpaceAt(s, i) == 0
  {
    i := SpaceEnd(s, 0);
    var t := s[i..];
    j := i + SpaceStart(t, |t|);
    assert t[..j - i] == s[i..j];
    SpaceEndIsEnd(s, 0);
    SpaceStartIsStart(t, |t|);
    SpaceBeforeWithin(t, j - i);
  }

  lemma {:induction false} SpaceEndIsEnd(s: string, i: nat)
    requires i <= |s|
    ensures SpaceAt(s, SpaceEnd(s, i)) == 0
    decreases |s| - i
  {
    if SpaceAt(s, i) > 0 { SpaceEndIsEnd(s, i + SpaceAt(s, i)); }
  }

  lemma {:induction false} SpaceStartIsStart(s: string, j: nat)
    requires j <= |s|
    ensures SpaceBefore(s, SpaceStart(s, j)) == 0
  {
    if SpaceBefore(s, j) > 0 { SpaceStartIsStart(s, j - SpaceBefore(s, j)); }
  }

  lemma {:induction false} SpaceBeforeWithin(s: string, j: nat)
    requires j <= |s|
    ensures SpaceBefore(s[..j], j) == SpaceBefore(s, j)
  {
  }

  /** A trailing newline does not survive trimming. */
  lemma {:induction false} TrimDropsNewline(s: string)
    ensures TrimSpace(s + "\n") == TrimSpace(s)
  {
    var t := s + "\n";
    SpaceEndBeforeNewline(s, 0);
    var e := SpaceEnd(s, 0);
    if e == |s| {
      assert TrimLeft(t) == "" == TrimLeft(s);
    } else {
      assert TrimLeft(t) == TrimLeft(s) + "\n";
      TrimRightDropsNewline(TrimLeft(s));
    }
  }

  lemma {:induction false} SpaceEndBeforeNewline(s: string, i: nat)
    requires i <= |s|
    ensures SpaceEnd(s + "\n", i) == if SpaceEnd(s, i) == |s| then |s| + 1 else SpaceEnd(s, i)
    decreases |s| - i
  {
    var t := s + "\n";
    assert t[|s|] == '\n' && forall k | 0 <= k < |s| :: t[k] == s[k];
    if i == |s| {
      assert SpaceAt(t, |s|) == 1;
    } else {
      assert SpaceAt(t, i) == SpaceAt(s, i);
      if SpaceAt(s, i) > 0 { SpaceEndBeforeNewline(s, i + SpaceAt(s, i)); }
    }
  }

  lemma {:induction false} TrimRightDropsNewline(s: string)
    ensures TrimRight(s + "\n") == TrimRight(s)
  {
    var t := s + "\n";
    assert t[|s|] == '\n' && SpaceBefore(t, |t|) == 1;
    SpaceStartWithin(s, t, |s|);
  }

  lemma {:induction false} SpaceStartWithin(s: string, t: string, j: nat)
    requires j <= |s| <= |t| && forall k | 0 <= k < j :: s[k] == t[k]
    ensures SpaceStart(s, j) == SpaceStart(t, j)
  {
    if SpaceBefore(s, j) > 0 { SpaceStartWithin(s, t, j - SpaceBefore(s, j)); }
  }

  /** How many bytes the white space at the front of `s` takes. */
  function LeadSpace(s: string): (k: nat)
    ensures k <= |s|
  {
    SpaceAt(s, 0)
  }

  /** The bytes of `s` before its first white space. */
  function WordLength(s: string): (k: nat)
    ensures k <= |s|
    ensures k == 0 <==> s == "" || LeadSpace(s) > 0
    ensures k < |s| ==> LeadSpace(s[k..]) > 0
  {
    if s == "" || LeadSpace(s) > 0 then
      assert s[0..] == s;
      0
    else
      assert forall k: nat | k <= |s| - 1 :: s[1..][k..] == s[k + 1..];
      WordLength(s[1..]) + 1
  }

  /** The words of `s` between runs of white space. */
  function Fields(s: string): seq<string>
    decreases |s|
  {
    if s == "" then []
    else if LeadSpace(s) > 0 then Fields(s[LeadSpace(s)..])
    else [s[..WordLength(s)]] + Fields(s[WordLength(s)..])
  }

  // Prefixes, suffixes and substrings.

  predicate HasPrefix(s: string, p: string) { p <= s }

  predicate HasSuffix(s: string, p: string) { |p| <= |s| && s[|s| - |p|..] == p }

  function TrimPrefix(s: string, p: string): string { if HasPrefix(s, p) then s[|p|..] else s }

  function TrimSuffix(s: string, p: string): string { if HasSuffix(s, p) then s[..|s| - |p|] else s }

  predicate OccursAt(s: string, p: string, k: nat) { k <= |s| && HasPrefix(s[k..], p) }

  predicate FirstAt(s: string, p: string, k: nat) {
    OccursAt(s, p, k) && forall j | 0 <= j < k :: !OccursAt(s, p, j)
  }

  /** The first occurrence of `p` in `s`. */
  function Find(s: string, p: string): (r: Option<nat>)
    ensures r.Some? ==> FirstAt(s, p, r.value)
    ensures r.None? ==> forall k :: !OccursAt(s, p, k)
  {
    assert s[0..] == s;
    if HasPrefix(s, p) then Some(0)
    else if s == "" then None
    else
      assert forall k: nat | k > 0 :: OccursAt(s, p, k) <==> OccursAt(s[1..], p, k - 1) by {
        forall k: nat | k > 0 ensures OccursAt(s, p, k) <==> OccursAt(s[1..], p, k - 1) {
          if k <= |s| { assert s[k..] == s[1..][k - 1..]; }
        }
      }
      match Find(s[1..], p)
      case None => None
      case Some(k) => Some(k + 1)
  }

  predicate Contains(s: string, p: string) { Find(s, p).Some? }

  /** `s` with the first occurrence of `p`, if there is one, replaced. */
  function ReplaceFirst(s: string, p: string, replacement: string): string {
    match Find(s, p)
    case None => s
    case Some(k) => s[..k] + replacement + s[k + |p|..]
  }

  /** `s` with every "\r\n" replaced by "\n". */
  function Unix(s: string): string {
    if s == "" then ""
    else if HasPrefix(s, "\r\n") then "\n" + Unix(s[2..])
    else [s[0]] + Unix(s[1..])
  }

  // Words.

  predicate IsWord(w: string) { w != "" && forall i | 0 <= i < |w| :: SpaceAt(w, i) == 0 }

  /** Words with one space between them. */
  function Spaced(words: seq<string>): string { Join(words, ' ') }

  lemma {:induction false} WordEnds(w: string, rest: string)
    requires (forall i | 0 <= i < |w| :: SpaceAt(w, i) == 0) && (rest == "" || rest[0] == ' ')
    ensures WordLength(w + rest) == |w|
  {
    var s := w + rest;
    if w == "" {
      assert s == rest;
      if rest != "" { assert SpaceAt(rest, 0) == 1; }
    } else {
      NoSpaceAtFront(w, rest);
      assert s[1..] == w[1..] + rest;
      forall i | 0 <= i < |w[1..]| ensures SpaceAt(w[1..], i) == 0 {
        SpaceAtShift(w, i);
      }
      WordEnds(w[1..], rest);
    }
  }

  lemma {:induction false} SpaceAtShift(w: string, i: nat)
    requires w != "" && i < |w| - 1
    ensures SpaceAt(w[1..], i) == SpaceAt(w, i + 1)
  {
  }

  /** A space behind a word does not make its first byte white space. */
  lemma {:induction false} NoSpaceAtFront(w: string, rest: string)
    requires w != "" && SpaceAt(w, 0) == 0 && (rest == "" || rest[0] == ' ')
    ensures SpaceAt(w + rest, 0) == 0
  {
    var s := w + rest;
    assert forall i | 0 <= i < |w| :: s[i] == w[i];
    assert rest != "" ==> s[|w|] == ' ';
  }

  /** Splitting spaced words at white space gives the words back. */
  lemma {:induction false} FieldsOfWords(words: seq<string>)
    requires forall i | 0 <= i < |words| :: IsWord(words[i])
    ensures Fields(Spaced(words)) == words
  {
    if words != [] {
      var w, behind := words[0], words[1..];
      FieldsOfWords(behind);
      assert IsWord(w);
      if behind == [] {
        assert Spaced(words) == w + "";
        FirstField(w, "");
      } else {
        var rest := " " + Spaced(behind);
        assert Spaced(words) == w + rest;
        FirstField(w, rest);
        assert rest[1..] == Spaced(behind);
      }
    }
  }

  lemma {:induction false} FirstField(w: string, rest: string)
    requires IsWord(w) && (rest == "" || rest[0] == ' ')
    ensures Fields(w + rest) == [w] + if rest == "" then [] else Fields(rest[1..])
  {
    var s := w + rest;
    assert SpaceAt(w, 0) == 0;
    NoSpaceAtFront(w, rest);
    WordEnds(w, rest);
    assert s[..|w|] == w && s[|w|..] == rest;
    if rest != "" { assert SpaceAt(rest, 0) == 1; }
  }
}
