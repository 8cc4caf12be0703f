/** What an edit's steps put on disk and into the registry, said of the code, the texts and the packages as they
    were sent. */
module EditEffects {
  import opened Common
  import opened Text
  import opened ToolEditors

  // The code inside what the model sends.

  const FENCE := "```"
  const PYTHON_FENCE := "```python"

  /** `sent` is, up to white space around it, `body` with an opening and a closing fence, or without them. */
  predicate Framed(sent: string, opening: string, body: string, closing: string) {
    && TrimSpace(sent) == opening + (body + closing)
    && (opening == "" || opening == FENCE || opening == PYTHON_FENCE) && (closing == "" || closing == FENCE)
    && !HasPrefix(body + closing, FENCE) && (closing == "" ==> !HasSuffix(body, FENCE))
    && (opening == FENCE ==> !HasPrefix(body + closing, "python"))
  }

  /** The code `c`, without white space around it, is what `sent` says. */
  ghost predicate Carries(sent: string, c: string) {
    exists opening, body, closing :: Framed(sent, opening, body, closing) && TrimSpace(body) == c
  }

  lemma {:induction false} CarriedIsClean(sent: string, c: string)
    requires Carries(sent, c)
    ensures CleanMarkdown(sent) == c
  {
    var opening, body, closing :| Framed(sent, opening, body, closing) && TrimSpace(body) == c;
    FrameIsTaken(sent, opening, body, closing);
  }

  lemma {:induction false} FrameIsTaken(sent: string, opening: string, body: string, closing: string)
    requires Framed(sent, opening, body, closing)
    ensures CleanMarkdown(sent) == TrimSpace(body)
  {
    var inner := body + closing;
    OpeningIsTaken(opening, inner);
    if closing == "" {
      assert inner == body;
    } else {
      assert inner[|body|..] == FENCE && inner[..|body|] == body;
    }
  }

  lemma {:induction false} OpeningIsTaken(opening: string, inner: string)
    requires opening == "" || opening == FENCE || opening == PYTHON_FENCE
    requires !HasPrefix(inner, FENCE) && (opening == FENCE ==> !HasPrefix(inner, "python"))
    ensures TrimPrefix(TrimPrefix(opening + inner, PYTHON_FENCE), FENCE) == inner
  {
    assert PYTHON_FENCE == FENCE + "python";
    if opening == "" {
      assert opening + inner == inner;
      assert HasPrefix(inner, PYTHON_FENCE) ==> HasPrefix(inner, FENCE);
    } else {
      assert (opening + inner)[|opening|..] == inner;
      PrefixBehind(FENCE, inner, "python");
    }
  }

  lemma {:induction false} PrefixBehind(front: string, text: string, p: string)
    ensures HasPrefix(front + text, front + p) <==> HasPrefix(text, p)
  {
    assert (front + text)[|front|..] == text && (front + p)[|front|..] == p;
    assert HasPrefix(text, p) ==> front + text == (front + p) + text[|p|..];
  }

  /** The code between fences on lines of their own. */
  function Fenced(opening: string, c: string): string { opening + "\n" + c + "\n" + FENCE }

  /** Trimmed code that is not itself fenced arrives as sent, bare or between fences of either kind on lines of
      their own. */
  lemma {:induction false} CodeIsCarried(c: string)
    requires c != "" && Trim(c) && !HasPrefix(c, FENCE) && !HasSuffix(c, FENCE)
    ensures Carries(c, c)
    ensures Carries(Fenced(PYTHON_FENCE, c), c) && Carries(Fenced(FENCE, c), c)
  {
    BareIsCarried(c);
    FencedIsCarried(PYTHON_FENCE, c);
    FencedIsCarried(FENCE, c);
  }

  lemma {:induction false} BareIsCarried(c: string)
    requires Trim(c) && !HasPrefix(c, FENCE) && !HasSuffix(c, FENCE)
    ensures Carries(c, c)
  {
    TrimIsKept(c);
    assert c == "" + (c + "") && c + "" == c;
    assert Framed(c, "", c, "");
  }

  lemma {:induction false} FencedIsCarried(opening: string, c: string)
    requires (opening == FENCE || opening == PYTHON_FENCE) && c != "" && Trim(c)
    ensures Carries(Fenced(opening, c), c)
  {
    var body := "\n" + c + "\n";
    TrimBetweenNewlines(c);
    FencedIsFramed(opening, body);
    assert Fenced(opening, c) == opening + (body + FENCE);
  }

  lemma {:induction false} FencedIsFramed(opening: string, body: string)
    requires (opening == FENCE || opening == PYTHON_FENCE) && body != "" && body[0] == '\n'
    ensures Framed(opening + (body + FENCE), opening, body, FENCE)
  {
    var sent := opening + (body + FENCE);
    assert sent[0] == '`' && sent[|sent| - 1] == '`';
    TrimIsKept(sent);
    assert (body + FENCE)[0] == '\n';
  }

  // Steps.

  /** The steps up to `i` can be done on the script `before` and leave `was`. */
  predicate Reaches(w: World, actions: seq<Action>, i: nat, before: string, was: Script) {
    i < |actions| && Replay(w, actions, i, before) == Some(was)
  }

  /** Step `i` can be done, too, and leaves `now`. */
  predicate Makes(w: World, actions: seq<Action>, i: nat, before: string, now: Script) {
    Replay(w, actions, i + 1, before) == Some(now)
  }

  predicate Fails(w: World, actions: seq<Action>, i: nat, before: string) {
    Replay(w, actions, i + 1, before) == None
  }

  /** A write is done exactly if there is code, it passes the checker and the disk takes it; what is stored is the
      code that was sent, as it was checked, in its wrapper. */
  lemma {:induction false} WrittenAsSent(w: World, actions: seq<Action>, i: nat, before: string, was: Script, c: string)
    requires Reaches(w, actions, i, before, was) && actions[i].Write? && Carries(actions[i].code, c)
    ensures if actions[i].code != "" && w.check(i, c) && w.write(i).Written?
            then Makes(w, actions, i, before, Some(w.wrap(c)))
            else Fails(w, actions, i, before)
  {
    CarriedIsClean(actions[i].code, c);
    ReplayNext(w, actions, i, before, was);
  }

  /** `text` with `c` in place of the `n` characters from `at` on. */
  function Spliced(text: string, at: nat, n: nat, c: string): string
    requires at + n <= |text|
  {
    text[..at] + c + text[at + n..]
  }

  /** A replacement is done exactly if the searched text occurs, the new text passes the checker and the disk
      takes it; the replacement that was sent then stands where the searched text first stood. */
  lemma {:induction false} ReplacedAsSent(w: World, actions: seq<Action>, i: nat, before: string, was: Script,
                                          c: string, at: nat)
    requires Reaches(w, actions, i, before, was) && actions[i].Replace? && Carries(actions[i].replacement, c)
    requires FirstAt(TextOf(was), actions[i].search, at)
    ensures var now := Spliced(TextOf(was), at, |actions[i].search|, c);
      if actions[i].search != "" && w.readable(i) && w.check(i, now) && w.write(i).Written?
      then Makes(w, actions, i, before, Some(now))
      else Fails(w, actions, i, before)
  {
    CarriedIsClean(actions[i].replacement, c);
    FoundFirst(TextOf(was), actions[i].search, at, c);
    ReplayNext(w, actions, i, before, was);
  }

  lemma {:induction false} FoundFirst(text: string, search: string, at: nat, c: string)
    requires FirstAt(text, search, at)
    ensures Contains(text, search) && ReplaceFirst(text, search, c) == Spliced(text, at, |search|, c)
  {
    var found := Find(text, search);
    assert found.Some? && FirstAt(text, search, found.value);
    assert !(found.value < at) && !(at < found.value);
  }

  /** A text that does not occur cannot be replaced. */
  lemma {:induction false} NothingToReplace(w: World, actions: seq<Action>, i: nat, before: string, was: Script)
    requires Reaches(w, actions, i, before, was) && actions[i].Replace?
    requires forall at :: !OccursAt(TextOf(was), actions[i].search, at)
    ensures Fails(w, actions, i, before)
  {
    ReplayNext(w, actions, i, before, was);
  }

  predicate IsSystemTool(name: string) {
    || name == "browser" || name == "sys_exec" || name == "dev_studio" || name == "edit_python_tool"
    || name == "delete_python_tool" || name == "pars_control"
  }

  predicate AreWords(words: seq<string>) { forall n | 0 <= n < |words| :: IsWord(words[n]) }

  /** Packages are accepted exactly if none of them is a system tool; the script stays as it is. */
  lemma {:induction false} InstalledUnlessSystem(w: World, actions: seq<Action>, i: nat, before: string, was: Script,
                                                 words: seq<string>)
    requires Reaches(w, actions, i, before, was) && actions[i].Install?
    requires AreWords(words) && actions[i].packages == Spaced(words)
    ensures if exists n | 0 <= n < |words| :: IsSystemTool(words[n])
            then Fails(w, actions, i, before)
            else Makes(w, actions, i, before, was)
  {
    FieldsOfWords(words);
    ReplayNext(w, actions, i, before, was);
    forall name | true ensures IsSystemTool(name) <==> name in SYSTEM_TOOLS {
      ToolIsListed(name);
    }
  }

  lemma {:induction false} ToolIsListed(name: string)
    ensures IsSystemTool(name) <==> name in SYSTEM_TOOLS
  {
    var s := SYSTEM_TOOLS;
    assert |s| == 6;
    assert s[0] == "browser" && s[1] == "sys_exec" && s[2] == "dev_studio" && s[3] == "edit_python_tool"
      && s[4] == "delete_python_tool" && s[5] == "pars_control";
  }

  /** A test run is done exactly if its command succeeds; the script is then what the command left of it. */
  lemma {:induction false} RunLeavesItsTrace(w: World, actions: seq<Action>, i: nat, before: string, was: Script)
    requires Reaches(w, actions, i, before, was) && actions[i].Run? && actions[i].command != ""
    ensures !w.run(i).ok ==> Fails(w, actions, i, before)
    ensures w.run(i).ok && w.run(i).trace.Untouched? ==> Makes(w, actions, i, before, was)
    ensures w.run(i).ok && w.run(i).trace.Removed? ==> Makes(w, actions, i, before, None)
    ensures w.run(i).ok && w.run(i).trace.Rewritten? ==> Makes(w, actions, i, before, Some(w.run(i).trace.text))
  {
    ReplayNext(w, actions, i, before, was);
  }

  /** A run without a command and a step of an unknown kind do nothing and cannot fail. */
  lemma {:induction false} OthersDoNothing(w: World, actions: seq<Action>, i: nat, before: string, was: Script)
    requires Reaches(w, actions, i, before, was) && (actions[i].Other? || (actions[i].Run? && actions[i].command == ""))
    ensures Makes(w, actions, i, before, was)
  {
    ReplayNext(w, actions, i, before, was);
  }

  // The registry.

  /** The tool parameters an action brings, if it brings any. */
  function ParamsOf(a: Action): Option<string> { if a.Replace? || a.Write? then a.params else None }

  /** The packages an action names; "" if none. */
  function PackagesOf(a: Action): string { if a.Install? then a.packages else "" }

  /** `params` is what the last of the first `k` actions that brings parameters brings; None if none of them does. */
  ghost predicate LastParams(actions: seq<Action>, k: nat, params: Option<string>)
    requires k <= |actions|
  {
    if params == None then forall j | 0 <= j < k :: ParamsOf(actions[j]) == None
    else exists i :: 0 <= i < k && ParamsOf(actions[i]) == params
                     && forall j | i < j < k :: ParamsOf(actions[j]) == None
  }

  ghost predicate LastPackages(actions: seq<Action>, k: nat, packages: string)
    requires k <= |actions|
  {
    if packages == "" then forall j | 0 <= j < k :: PackagesOf(actions[j]) == ""
    else exists i :: 0 <= i < k && PackagesOf(actions[i]) == packages
                     && forall j | i < j < k :: PackagesOf(actions[j]) == ""
  }

  /** The parameters and packages that the first `k` actions name last. */
  ghost predicate NamedLast(actions: seq<Action>, k: nat, r: Registration)
    requires k <= |actions|
  {
    LastParams(actions, k, r.params) && LastPackages(actions, k, r.packages)
  }

  lemma {:induction false} MemoIsLast(actions: seq<Action>, k: nat)
    requires k <= |actions|
    ensures NamedLast(actions, k, Memo(actions, k))
  {
    if k > 0 {
      MemoIsLast(actions, k - 1);
      NotedParts(Memo(actions, k - 1), actions[k - 1]);
      ParamsNext(actions, k - 1, Memo(actions, k - 1).params);
      PackagesNext(actions, k - 1, Memo(actions, k - 1).packages);
    }
  }

  lemma {:induction false} NotedParts(memo: Registration, a: Action)
    ensures Noted(memo, a).params == if ParamsOf(a).Some? then ParamsOf(a) else memo.params
    ensures Noted(memo, a).packages == if PackagesOf(a) != "" then PackagesOf(a) else memo.packages
  {
  }

  lemma {:induction false} ParamsNext(actions: seq<Action>, k: nat, params: Option<string>)
    requires k < |actions| && LastParams(actions, k, params)
    ensures LastParams(actions, k + 1, if ParamsOf(actions[k]).Some? then ParamsOf(actions[k]) else params)
  {
  }

  lemma {:induction false} PackagesNext(actions: seq<Action>, k: nat, packages: string)
    requires k < |actions| && LastPackages(actions, k, packages)
    ensures LastPackages(actions, k + 1, if PackagesOf(actions[k]) != "" then PackagesOf(actions[k]) else packages)
  {
  }

  /** How many of the first `k` actions are test runs after which the registry takes the tool. */
  function Tests(w: World, actions: seq<Action>, k: nat): nat
    requires k <= |actions|
  {
    if k == 0 then 0
    else Tests(w, actions, k - 1)
         + if actions[k - 1].Run? && actions[k - 1].command != "" && w.register(k - 1) then 1 else 0
  }

  /** Each test run among the first `k` actions after which the registry takes the tool puts one entry there, in
      order: the parameters and packages named last before it. */
  lemma {:induction false} RegisteredAsNamed(w: World, actions: seq<Action>, k: nat, i: nat)
    requires i < k <= |actions|
    requires actions[i].Run? && actions[i].command != "" && w.register(i)
    ensures var entries, n := Registered(w, actions, k), Tests(w, actions, i);
      n < |entries| == Tests(w, actions, k) && NamedLast(actions, i, entries[n])
  {
    RegisteredCount(w, actions, k);
    EntryIsMemo(w, actions, k, i);
    MemoIsLast(actions, i);
  }

  /** The entry of test run `i` is the memo at that time. */
  lemma {:induction false} EntryIsMemo(w: World, actions: seq<Action>, k: nat, i: nat)
    requires i < k <= |actions| && Registers(w, actions, i)
    ensures Tests(w, actions, i) < |Registered(w, actions, k)|
    ensures Registered(w, actions, k)[Tests(w, actions, i)] == Memo(actions, i)
  {
    if i + 1 < k {
      EntryIsMemo(w, actions, k - 1, i);
      EntriesStay(w, actions, k - 1, Tests(w, actions, i));
    } else {
      RegisteredCount(w, actions, i);
      LastEntry(w, actions, i);
    }
  }

  lemma {:induction false} EntriesStay(w: World, actions: seq<Action>, k: nat, n: nat)
    requires k < |actions| && n < |Registered(w, actions, k)|
    ensures n < |Registered(w, actions, k + 1)|
    ensures Registered(w, actions, k + 1)[n] == Registered(w, actions, k)[n]
  {
  }

  lemma {:induction false} LastEntry(w: World, actions: seq<Action>, i: nat)
    requires i < |actions| && Registers(w, actions, i)
    ensures Registered(w, actions, i + 1) == Registered(w, actions, i) + [Memo(actions, i)]
  {
  }

  lemma {:induction false} RegisteredCount(w: World, actions: seq<Action>, k: nat)
    requires k <= |actions|
    ensures |Registered(w, actions, k)| == Tests(w, actions, k)
  {
    if k > 0 { RegisteredCount(w, actions, k - 1); }
  }
}
