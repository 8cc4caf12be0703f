/** The two line editors, insert and edit, and when one undoes the other. Lines are numbered from 1. */
module LineEdits {
  import opened Common
  import opened Text

  function Lines(file: string): (r: seq<string>)
    ensures |r| >= 1
  {
    Split(file, '\n')
  }

  function Unlines(lines: seq<string>): string { Join(lines, '\n') }

  function Clamp(line: int, lines: seq<string>): (p: nat)
    ensures 1 <= p <= |lines| + 1
    ensures if line < 1 then p == 1 else if line > |lines| + 1 then p == |lines| + 1 else p == line
  {
    if line < 1 then 1 else if line > |lines| + 1 then |lines| + 1 else line
  }

  /** The file with `content` as a new line before line `line`, or behind the last one. */
  function Inserted(file: string, content: string, line: int): string {
    var lines := Lines(file);
    var p := Clamp(line, lines);
    Unlines(lines[..p - 1] + [content] + lines[p - 1..])
  }

  /** The lines some new code stands for; empty code stands for none. */
  function NewLines(code: string): seq<string> {
    if code == "" then [] else Lines(Unix(code))
  }

  /** The file with lines start..end replaced, or None for an empty range. */
  function LineEdited(file: string, start: int, end: int, code: string): Option<string> {
    var lines := Lines(Unix(file));
    var first := if start < 1 then 1 else start;
    var last := if end > |lines| then |lines| else end;
    if first > last then None
    else Some(Unlines(Edited(lines, first, last, NewLines(code))))
  }

  /** Lines first..last replaced by `added`. */
  function Edited<T>(lines: seq<T>, first: nat, last: nat, added: seq<T>): seq<T>
    requires 1 <= first <= last <= |lines|
  {
    lines[..first - 1] + added + lines[last..]
  }

  /** A text file on disk; None if it cannot be read. */
  class TextFile {
    var text: Option<string>

    constructor (text: Option<string>)
      ensures this.text == text
    {
      this.text := text;
    }

    method InsertFile(content: string, line: int) returns (ok: bool)
      modifies this
      ensures ok == old(text).Some?
      ensures text == if ok then Some(Inserted(old(text).value, content, line)) else old(text)
    {
      if text.None? { return false; }
      var lines, at := Lines(text.value), line;
      if at < 1 { at := 1; }
      if at > |lines| + 1 { at := |lines| + 1; }
      var newLines := lines[..at - 1];
      newLines := newLines + [content];
      newLines := newLines + lines[at - 1..];
      text := Some(Unlines(newLines));
      return true;
    }

    method LineEdit(start: int, end: int, newCode: string) returns (ok: bool)
      modifies this
      ensures ok == (old(text).Some? && LineEdited(old(text).value, start, end, newCode).Some?)
      ensures text == if ok then LineEdited(old(text).value, start, end, newCode) else old(text)
    {
      if text.None? { return false; }
      var first, last := start, end;
      if first < 1 { first := 1; }
      var lines := Lines(Unix(text.value));
      if last > |lines| { last := |lines|; }
      if first > last { return false; }
      var newLines := lines[..first - 1];
      if newCode != "" {
        newLines := newLines + Lines(Unix(newCode));
      }
      assert newLines == lines[..first - 1] + NewLines(newCode);
      newLines := newLines + lines[last..];
      text := Some(Unlines(newLines));
      return true;
    }
  }

  // Carriage returns.

  function DropCR(line: string): string {
    if line != "" && line[|line| - 1] == '\r' then line[..|line| - 1] else line
  }

  /** Every line but the last loses a carriage return at its end. */
  function Unixed(lines: seq<string>): (r: seq<string>)
    ensures |r| == |lines|
  {
    if |lines| <= 1 then lines else [DropCR(lines[0])] + Unixed(lines[1..])
  }

  lemma {:induction false} UnixedAt(lines: seq<string>, i: nat)
    requires i < |lines|
    ensures Unixed(lines)[i] == if i == |lines| - 1 then lines[i] else DropCR(lines[i])
  {
    if i > 0 { UnixedAt(lines[1..], i - 1); }
  }

  lemma {:induction false} UnixLines(s: string)
    ensures Lines(Unix(s)) == Unixed(Lines(s))
    decreases |s|
  {
    if s == "" {
    } else if HasPrefix(s, "\r\n") {
      UnixLines(s[2..]);
      UnixLinesAtBreak(s);
    } else if s[0] == '\n' {
      UnixLines(s[1..]);
      assert Lines(s)[1..] == Lines(s[1..]);
      assert ([s[0]] + Unix(s[1..]))[1..] == Unix(s[1..]);
    } else {
      UnixLines(s[1..]);
      UnixLinesInside(s);
    }
  }

  lemma {:induction false} UnixLinesAtBreak(s: string)
    requires HasPrefix(s, "\r\n")
    requires Lines(Unix(s[2..])) == Unixed(Lines(s[2..]))
    ensures Lines(Unix(s)) == Unixed(Lines(s))
  {
    var t := s[1..];
    assert s[0] == '\r' && t[0] == '\n' && t[1..] == s[2..];
    assert Lines(t) == [""] + Lines(s[2..]);
    assert Lines(s) == [['\r'] + ""] + Lines(s[2..]);
    assert Lines(s)[1..] == Lines(s[2..]);
    assert DropCR(['\r'] + "") == "";
    assert ("\n" + Unix(s[2..]))[1..] == Unix(s[2..]);
  }

  lemma {:induction false} UnixLinesInside(s: string)
    requires s != "" && !HasPrefix(s, "\r\n") && s[0] != '\n'
    requires Lines(Unix(s[1..])) == Unixed(Lines(s[1..]))
    ensures Lines(Unix(s)) == Unixed(Lines(s))
  {
    var c, t := s[0], s[1..];
    assert ([c] + Unix(t))[1..] == Unix(t);
    if |Lines(t)| > 1 && Lines(t)[0] == "" {
      assert t != "" && t[0] == '\n';
      assert s[..2] == [c, '\n'];
    }
    UnixedHead(c, Lines(t));
  }

  lemma {:induction false} UnixedHead(c: char, rest: seq<string>)
    requires rest != [] && (|rest| > 1 && rest[0] == "" ==> c != '\r')
    ensures Unixed([[c] + rest[0]] + rest[1..]) == [[c] + Unixed(rest)[0]] + Unixed(rest)[1..]
  {
    var line := [c] + rest[0];
    if rest[0] == "" {
      assert line == [c];
    } else {
      assert line[..|line| - 1] == [c] + rest[0][..|rest[0]| - 1];
    }
    if |rest| > 1 {
      assert ([line] + rest[1..])[1..] == rest[1..];
      assert Unixed(rest)[1..] == Unixed(rest[1..]);
    }
  }

  // What an edit touches.

  lemma {:induction false} SplitUnlines(lines: seq<string>)
    requires lines != [] && Free(lines, '\n')
    ensures Lines(Unlines(lines)) == lines
  {
    SplitJoin(lines, '\n');
  }

  /** Inserting puts the lines of `content` in one place and keeps every other line. */
  lemma {:induction false} InsertedLines(file: string, content: string, line: int)
    ensures var p := Clamp(line, Lines(file));
      Lines(Inserted(file, content, line)) == Lines(file)[..p - 1] + Lines(content) + Lines(file)[p - 1..]
  {
    var lines := Lines(file);
    var p := Clamp(line, lines);
    SplitIsFree(file, '\n');
    PlacedLines(lines[..p - 1], content, lines[p - 1..]);
  }

  lemma {:induction false} PlacedLines(above: seq<string>, content: string, below: seq<string>)
    requires Free(above, '\n') && Free(below, '\n')
    ensures Lines(Unlines(above + [content] + below)) == above + Lines(content) + below
  {
    JoinSplit(content, '\n');
    JoinNested(above, Lines(content), below, '\n');
    SplitIsFree(content, '\n');
    SplitUnlines(above + Lines(content) + below);
  }

  /** A range an edit accepts once clamped, as it falls on the lines. */
  predicate Falls(lines: seq<string>, start: int, end: int, first: nat, last: nat) {
    && first == (if start < 1 then 1 else start)
    && last == (if end > |lines| then |lines| else end)
    && first <= last
  }

  lemma {:induction false} EditedLines(file: string, start: int, end: int, code: string, first: nat, last: nat)
    requires Falls(Lines(file), start, end, first, last)
    ensures var edited := Edited(Unixed(Lines(file)), first, last, NewLines(code));
      && LineEdited(file, start, end, code) == Some(Unlines(edited))
      && Lines(Unlines(edited)) == if edited == [] then [""] else edited
  {
    UnixLines(file);
    SplitIsFree(Unix(file), '\n');
    SplitIsFree(Unix(code), '\n');
    var edited := Edited(Unixed(Lines(file)), first, last, NewLines(code));
    if edited != [] {
      SplitUnlines(edited);
    }
  }

  /** An edit is refused exactly when no line of the file lies in the range. */
  lemma {:induction false} RefusedOnlyWhenEmpty(file: string, start: int, end: int, code: string)
    ensures LineEdited(file, start, end, code).None? <==>
      forall i: int | 1 <= i <= |Lines(file)| :: !InRange(i, start, end)
  {
    UnixLines(file);
    var n := |Lines(file)|;
    var first := if start < 1 then 1 else start;
    if first <= end && first <= n {
      assert InRange(first, start, end);
    }
  }

  predicate InRange(i: int, start: int, end: int) { start <= i <= end }

  // Undoing.

  /** The line does not end in a carriage return. */
  predicate Plain(line: string) { line == "" || line[|line| - 1] != '\r' }

  /** Inserting a text and then deleting the lines it took gives the file back exactly when no line that
      had a newline behind it at some time ends in a carriage return, whatever the text and the line. */
  lemma {:induction false} InsertThenDelete(file: string, content: string, line: int)
    ensures var lines := Lines(file); var p := Clamp(line, lines);
      LineEdited(Inserted(file, content, line), p, p + |Lines(content)| - 1, "") == Some(file)
      <==> forall i | 0 <= i < |lines| :: KeepsEnd(lines, p, i)
  {
    InsertedLines(file, content, line);
    DeletesBack(file, Inserted(file, content, line), Lines(content), Clamp(line, Lines(file)));
  }

  lemma {:induction false} DeletesBack(file: string, grown: string, mid: seq<string>, p: nat)
    requires mid != [] && 1 <= p <= |Lines(file)| + 1
    requires Lines(grown) == Lines(file)[..p - 1] + mid + Lines(file)[p - 1..]
    ensures var lines := Lines(file);
      LineEdited(grown, p, p + |mid| - 1, "") == Some(file) <==> forall i | 0 <= i < |lines| :: KeepsEnd(lines, p, i)
  {
    Deleted(grown, p, p + |mid| - 1);
    LeftIsFile(file, Lines(grown), mid, p);
  }

  lemma {:induction false} LeftIsFile(file: string, grown: seq<string>, mid: seq<string>, p: nat)
    requires mid != [] && 1 <= p <= |Lines(file)| + 1
    requires grown == Lines(file)[..p - 1] + mid + Lines(file)[p - 1..]
    requires var left := Edited(Unixed(grown), p, p + |mid| - 1, []); Lines(Unlines(left)) == left
    ensures var lines, left := Lines(file), Edited(Unixed(grown), p, p + |mid| - 1, []);
      Unlines(left) == file <==> forall i | 0 <= i < |lines| :: KeepsEnd(lines, p, i)
  {
    LinesLeft(grown, Lines(file), mid, p);
    SameText(Edited(Unixed(grown), p, p + |mid| - 1, []), file);
  }

  lemma {:induction false} Deleted(file: string, first: nat, last: nat)
    requires 1 <= first <= last <= |Lines(file)| && (first > 1 || last < |Lines(file)|)
    ensures var left := Edited(Unixed(Lines(file)), first, last, []);
      LineEdited(file, first, last, "") == Some(Unlines(left)) && Lines(Unlines(left)) == left
  {
    EditedLines(file, first, last, "", first, last);
  }

  /** A text equals the file exactly when its lines do. */
  lemma {:induction false} SameText(lines: seq<string>, file: string)
    requires Lines(Unlines(lines)) == lines
    ensures Unlines(lines) == file <==> lines == Lines(file)
  {
    JoinSplit(file, '\n');
  }

  /** Line `i` does not lose a carriage return to an insertion before line `p`. */
  predicate KeepsEnd(lines: seq<string>, p: nat, i: nat)
    requires i < |lines|
  {
    (i == |lines| - 1 && p <= |lines|) || Plain(lines[i])
  }

  lemma {:induction false} LinesLeft(grown: seq<string>, lines: seq<string>, mid: seq<string>, p: nat)
    requires lines != [] && mid != [] && 1 <= p <= |lines| + 1
    requires grown == lines[..p - 1] + mid + lines[p - 1..]
    ensures var left := Edited(Unixed(grown), p, p + |mid| - 1, []);
      |left| == |lines| && (left == lines <==> forall i | 0 <= i < |lines| :: KeepsEnd(lines, p, i))
  {
    var left := Edited(Unixed(grown), p, p + |mid| - 1, []);
    forall i | 0 <= i < |lines| ensures left[i] == lines[i] <==> KeepsEnd(lines, p, i) {
      LineLeft(grown, lines, mid, p, i);
    }
  }

  lemma {:induction false} LineLeft(grown: seq<string>, lines: seq<string>, mid: seq<string>, p: nat, i: nat)
    requires mid != [] && 1 <= p <= |lines| + 1 && i < |lines|
    requires grown == lines[..p - 1] + mid + lines[p - 1..]
    ensures Edited(Unixed(grown), p, p + |mid| - 1, [])[i] == lines[i] <==> KeepsEnd(lines, p, i)
  {
    MiddleRemoved(Unixed(grown), p, |mid|, i);
    var j := if i < p - 1 then i else i + |mid|;
    UnixedAt(grown, j);
    assert grown[j] == lines[i];
    assert j == |grown| - 1 <==> i == |lines| - 1 && p <= |lines|;
  }

  lemma {:induction false} MiddleRemoved<T>(s: seq<T>, p: nat, k: nat, i: nat)
    requires 1 <= p && 1 <= k && p + k - 1 <= |s| && i + k < |s|
    ensures |Edited(s, p, p + k - 1, [])| == |s| - k
    ensures Edited(s, p, p + k - 1, [])[i] == s[if i < p - 1 then i else i + k]
  {
  }

  /** Free of carriage returns, the round trip always works. */
  lemma {:induction false} InsertThenDeleteRestores(file: string, content: string, line: int)
    requires '\r' !in file
    ensures var p := Clamp(line, Lines(file));
      LineEdited(Inserted(file, content, line), p, p + |Lines(content)| - 1, "") == Some(file)
  {
    InsertThenDelete(file, content, line);
    LinesArePlain(file);
  }

  lemma {:induction false} LinesArePlain(file: string)
    requires '\r' !in file
    ensures AllPlain(Lines(file))
  {
    SplitWithin(file);
  }

  predicate AllPlain(lines: seq<string>) {
    forall i | 0 <= i < |lines| :: Plain(lines[i])
  }

  lemma {:induction false} SplitWithin(s: string)
    requires '\r' !in s
    ensures Free(Lines(s), '\r')
  {
    if s != "" { SplitWithin(s[1..]); }
  }

  // Replacing and putting back.

  /** Editing the old block into the `k` lines from `first` on gives the file back. */
  ghost predicate PutsBack(file: string, edited: string, first: nat, last: nat, k: nat)
    requires 1 <= first <= last <= |Lines(file)|
  {
    LineEdited(edited, first, first + k - 1, Unlines(Lines(file)[first - 1..last])) == Some(file)
  }

  /** The block is not one empty line among others, and no line loses a carriage return. */
  ghost predicate Restorable(lines: seq<string>, first: nat, last: nat)
    requires 1 <= first <= last <= |lines|
  {
    (Unlines(lines[first - 1..last]) != "" || |lines| == 1) && OthersPlain(lines, last)
  }

  /** Replacing lines start..end by some code, and then the lines of the code by the text of the old block,
      gives the file back exactly when the code is not empty, no line outside the block but the file's last
      ends in a carriage return, nor one inside but the block's last, and the block is not one empty line
      among others: empty code means deletion. */
  lemma {:induction false} ReplaceThenRestore(file: string, start: int, end: int, code: string, edited: string,
                                              first: nat, last: nat)
    requires LineEdited(file, start, end, code) == Some(edited) && Falls(Lines(file), start, end, first, last)
    ensures first <= last <= |Lines(file)|
    ensures PutsBack(file, edited, first, last, |NewLines(code)|) <==>
      code != "" && Restorable(Lines(file), first, last)
  {
    if code == "" {
      EmptyRangeRefused(edited, first, Unlines(Lines(file)[first - 1..last]));
    } else {
      EditedAndBack(file, start, end, code, edited, first, last);
    }
  }

  /** Free of carriage returns, only the empty block and the empty code stand in the way. */
  lemma {:induction false} ReplaceThenRestorePlain(file: string, start: int, end: int, code: string, edited: string,
                                                   first: nat, last: nat)
    requires LineEdited(file, start, end, code) == Some(edited) && Falls(Lines(file), start, end, first, last)
    requires '\r' !in file
    ensures first <= last <= |Lines(file)|
    ensures PutsBack(file, edited, first, last, |NewLines(code)|) <==>
      code != "" && (Unlines(Lines(file)[first - 1..last]) != "" || |Lines(file)| == 1)
  {
    LinesArePlain(file);
    assert OthersPlain(Lines(file), last);
    ReplaceThenRestore(file, start, end, code, edited, first, last);
  }

  lemma {:induction false} EditedAndBack(file: string, start: int, end: int, code: string, edited: string,
                                         first: nat, last: nat)
    requires LineEdited(file, start, end, code) == Some(edited) && Falls(Lines(file), start, end, first, last)
    requires code != ""
    ensures first <= last <= |Lines(file)|
    ensures PutsBack(file, edited, first, last, |NewLines(code)|) <==> Restorable(Lines(file), first, last)
  {
    FirstEdit(file, start, end, code, edited, first, last);
    AndBack(file, NewLines(code), edited, first, last);
  }

  /** The text `edited` is the file with `added` in place of the lines first..last. */
  ghost predicate Replaced(file: string, added: seq<string>, edited: string, first: nat, last: nat) {
    && 1 <= first <= last <= |Lines(file)| && added != []
    && edited == Unlines(Edited(Unixed(Lines(file)), first, last, added))
    && Lines(edited) == Edited(Unixed(Lines(file)), first, last, added)
  }

  lemma {:induction false} AndBack(file: string, added: seq<string>, edited: string, first: nat, last: nat)
    requires Replaced(file, added, edited, first, last)
    ensures PutsBack(file, edited, first, last, |added|) <==> Restorable(Lines(file), first, last)
  {
    LinesOfFile(file);
    PutBack(file, Lines(file), first, last, added, edited);
  }

  lemma {:induction false} LinesOfFile(file: string)
    ensures Free(Lines(file), '\n') && Unlines(Lines(file)) == file
  {
    SplitIsFree(file, '\n');
    JoinSplit(file, '\n');
  }

  lemma {:induction false} FirstEdit(file: string, start: int, end: int, code: string, edited: string,
                                     first: nat, last: nat)
    requires LineEdited(file, start, end, code) == Some(edited) && Falls(Lines(file), start, end, first, last)
    requires code != ""
    ensures Replaced(file, NewLines(code), edited, first, last)
  {
    EditedLines(file, start, end, code, first, last);
  }

  lemma {:induction false} EmptyRangeRefused(file: string, first: nat, code: string)
    requires first >= 1
    ensures LineEdited(file, first, first - 1, code) == None
  {
  }

  /** Every line is plain, save perhaps line `last` and the last of all. */
  predicate OthersPlain(lines: seq<string>, last: nat) {
    forall i | 0 <= i < |lines| :: i == last - 1 || i == |lines| - 1 || Plain(lines[i])
  }

  lemma {:induction false} PutBack(file: string, lines: seq<string>, first: nat, last: nat, code: seq<string>,
                                   edited: string)
    requires 1 <= first <= last <= |lines| && Free(lines, '\n') && code != [] && file == Unlines(lines)
    requires edited == Unlines(Edited(Unixed(lines), first, last, code))
    requires Lines(edited) == Edited(Unixed(lines), first, last, code)
    ensures var block := Unlines(lines[first - 1..last]);
      LineEdited(edited, first, first + |code| - 1, block) == Some(file)
      <==> (block != "" || |lines| == 1) && OthersPlain(lines, last)
  {
    if Unlines(lines[first - 1..last]) == "" {
      PutBackNothing(file, lines, first, last, code, edited);
    } else {
      PutBackBlock(file, lines, first, last, code, edited);
    }
  }

  lemma {:induction false} PutBackBlock(file: string, lines: seq<string>, first: nat, last: nat, code: seq<string>,
                                        edited: string)
    requires 1 <= first <= last <= |lines| && Free(lines, '\n') && code != [] && file == Unlines(lines)
    requires Lines(edited) == Edited(Unixed(lines), first, last, code) && Unlines(lines[first - 1..last]) != ""
    ensures var block := Unlines(lines[first - 1..last]);
      LineEdited(edited, first, first + |code| - 1, block) == Some(file) <==> OthersPlain(lines, last)
  {
    BlockEdited(lines, first, last, code, edited);
    BlockBack(lines, first, last, code);
    SplitUnlines(lines);
    SameText(BackAgain(lines, first, last, code), file);
  }

  lemma {:induction false} BlockEdited(lines: seq<string>, first: nat, last: nat, code: seq<string>, edited: string)
    requires 1 <= first <= last <= |lines| && Free(lines, '\n') && code != []
    requires Lines(edited) == Edited(Unixed(lines), first, last, code) && Unlines(lines[first - 1..last]) != ""
    ensures var block, back := Unlines(lines[first - 1..last]), BackAgain(lines, first, last, code);
      && LineEdited(edited, first, first + |code| - 1, block) == Some(Unlines(back))
      && Lines(Unlines(back)) == back
  {
    var removed := lines[first - 1..last];
    var grown := Edited(Unixed(lines), first, last, code);
    BlockLines(removed);
    EditedAs(edited, first, first + |code| - 1, Unlines(removed), Unixed(grown), Unixed(removed));
  }

  lemma {:induction false} EditedAs(file: string, first: nat, last: nat, code: string, lines: seq<string>,
                                    added: seq<string>)
    requires 1 <= first <= last <= |Lines(file)| && Unixed(Lines(file)) == lines && NewLines(code) == added != []
    ensures var edited := Edited(lines, first, last, added);
      LineEdited(file, first, last, code) == Some(Unlines(edited)) && Lines(Unlines(edited)) == edited
  {
    EditedLines(file, first, last, code, first, last);
    assert |Edited(lines, first, last, added)| >= |added|;
  }

  lemma {:induction false} PutBackNothing(file: string, lines: seq<string>, first: nat, last: nat, code: seq<string>,
                                          edited: string)
    requires 1 <= first <= last <= |lines| && Free(lines, '\n') && code != [] && file == Unlines(lines)
    requires Lines(edited) == Edited(Unixed(lines), first, last, code) && Unlines(lines[first - 1..last]) == ""
    ensures LineEdited(edited, first, first + |code| - 1, "") == Some(file) <==> |lines| == 1
    ensures |lines| == 1 ==> OthersPlain(lines, last)
  {
    var until := first + |code| - 1;
    EditedLines(edited, first, until, "", first, until);
    BlockLines(lines[first - 1..last]);
    SplitUnlines(lines);
    BlockMissing(lines, first, last, Edited(Unixed(Lines(edited)), first, until, []), file);
  }

  /** The lines after both edits, with the block put back in the place of the code. */
  function BackAgain(lines: seq<string>, first: nat, last: nat, code: seq<string>): seq<string>
    requires 1 <= first <= last <= |lines| && code != []
  {
    var grown := Edited(Unixed(lines), first, last, code);
    Edited(Unixed(grown), first, first + |code| - 1, Unixed(lines[first - 1..last]))
  }

  lemma {:induction false} BlockLines(removed: seq<string>)
    requires removed != [] && Free(removed, '\n')
    ensures NewLines(Unlines(removed)) == if Unlines(removed) == "" then [] else Unixed(removed)
    ensures Unlines(removed) == "" <==> removed == [""]
  {
    SplitUnlines(removed);
    UnixLines(Unlines(removed));
    assert Split("", '\n') == [""];
  }

  /** Without its one empty line the file is the same only if it had no other. */
  lemma {:induction false} BlockMissing(lines: seq<string>, first: nat, last: nat, back: seq<string>, file: string)
    requires 1 <= first <= last <= |lines| && lines[first - 1..last] == [""] && |back| == |lines| - 1
    requires Lines(Unlines(lines)) == lines && file == Unlines(lines)
    requires Lines(Unlines(back)) == if back == [] then [""] else back
    ensures Unlines(back) == file <==> |lines| == 1
    ensures |lines| == 1 ==> OthersPlain(lines, last)
  {
    if |lines| == 1 {
      OnlyLineMissing(lines, first, last);
    }
  }

  lemma {:induction false} OnlyLineMissing(lines: seq<string>, first: nat, last: nat)
    requires 1 <= first <= last <= |lines| == 1 && lines[first - 1..last] == [""]
    ensures Unlines(lines) == ""
  {
    assert lines == lines[first - 1..last];
  }

  lemma {:induction false} BlockBack(lines: seq<string>, first: nat, last: nat, code: seq<string>)
    requires 1 <= first <= last <= |lines| && code != []
    ensures BackAgain(lines, first, last, code) == lines <==> OthersPlain(lines, last)
  {
    var back := BackAgain(lines, first, last, code);
    assert |back| == |lines|;
    forall i | 0 <= i < |lines|
      ensures back[i] == lines[i] <==> i == last - 1 || i == |lines| - 1 || Plain(lines[i])
    {
      if first - 1 <= i < last {
        InsideBack(lines, first, last, code, i);
      } else {
        OutsideBack(lines, first, last, code, i);
      }
    }
  }

  lemma {:induction false} InsideBack(lines: seq<string>, first: nat, last: nat, code: seq<string>, i: nat)
    requires 1 <= first <= last <= |lines| && code != [] && first - 1 <= i < last
    ensures var back := BackAgain(lines, first, last, code);
      |back| == |lines| && (back[i] == lines[i] <==> i == last - 1 || Plain(lines[i]))
  {
    UnixedAt(lines[first - 1..last], i - (first - 1));
  }

  lemma {:induction false} OutsideBack(lines: seq<string>, first: nat, last: nat, code: seq<string>, i: nat)
    requires 1 <= first <= last <= |lines| && code != [] && i < |lines| && !(first - 1 <= i < last)
    ensures var back := BackAgain(lines, first, last, code);
      |back| == |lines| && (back[i] == lines[i] <==> i == |lines| - 1 || Plain(lines[i]))
  {
    var grown := Edited(Unixed(lines), first, last, code);
    var j := if i < first then i else i - (last - first + 1) + |code|;
    UnixedAt(lines, i);
    UnixedAt(grown, j);
    assert grown[j] == Unixed(lines)[i];
  }
}
