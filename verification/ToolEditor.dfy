/** The editor of generated tools: a list of actions on one script, each checked before it is written, and a
    rollback to the backup as soon as one of them fails. */
module ToolEditors {
  import opened Common
  import opened Text

  /** One action as the model sends it; `Other` is an unknown step or not an action at all. */
  datatype Action =
    | Replace(search: string, replacement: string, params: Option<string>)
    | Write(code: string, params: Option<string>)
    | Install(packages: string)
    | Run(command: string)
    | Other

  /** What a disk write does: a failed one may leave anything behind. */
  datatype WriteOutcome = Written | Failed(left: string)

  /** What a test run does to the script: the command may itself change or remove it. */
  datatype Trace = Untouched | Rewritten(text: string) | Removed

  datatype RunOutcome = RunOutcome(ok: bool, trace: Trace)

  /** The script on disk; None once a test run has removed it. */
  type Script = Option<string>

  /** Everything the editor does not decide, step by step: the checker, the wrapper put around new code, the
      disk, the test runs and the tool registry. */
  datatype World = World(
    check: (nat, string) -> bool,
    wrap: string -> string,
    readable: nat -> bool,
    write: nat -> WriteOutcome,
    run: nat -> RunOutcome,
    register: nat -> bool)

  const SYSTEM_TOOLS: seq<string> :=
    ["browser", "sys_exec", "dev_studio", "edit_python_tool", "delete_python_tool", "pars_control"]

  /** Code without the Markdown fence around it. */
  function CleanMarkdown(code: string): string {
    TrimSpace(TrimSuffix(TrimPrefix(TrimPrefix(TrimSpace(code), "```python"), "```"), "```"))
  }

  // What the actions mean.

  predicate NoSystemTool(pkgs: seq<string>) { forall n | 0 <= n < |pkgs| :: pkgs[n] !in SYSTEM_TOOLS }

  function TextOf(script: Script): string { if script.Some? then script.value else "" }

  function Traced(trace: Trace, before: Script): Script {
    match trace
    case Untouched => before
    case Rewritten(text) => Some(text)
    case Removed => None
  }

  /** What step `i` makes of the script `before` with action `a`; None if it cannot be done. */
  function Effect(w: World, i: nat, a: Action, before: Script): Option<Script> {
    match a
    case Replace(search, replacement, _) =>
      var after := ReplaceFirst(TextOf(before), search, CleanMarkdown(replacement));
      if search != "" && w.readable(i) && Contains(TextOf(before), search) && w.check(i, after) && w.write(i).Written?
      then Some(Some(after)) else None
    case Write(code, _) =>
      if code != "" && w.check(i, CleanMarkdown(code)) && w.write(i).Written?
      then Some(Some(w.wrap(CleanMarkdown(code)))) else None
    case Install(packages) => if NoSystemTool(Fields(packages)) then Some(before) else None
    case Run(command) =>
      if command == "" then Some(before)
      else if w.run(i).ok then Some(Traced(w.run(i).trace, before))
      else None
    case Other => Some(before)
  }

  /** What the first `k` steps, one after the other, make of something; None once one cannot be done. */
  function Fold<T>(effect: (nat, T) -> Option<T>, k: nat, before: T): Option<T> {
    if k == 0 then Some(before)
    else
      match Fold(effect, k - 1, before)
      case None => None
      case Some(t) => effect(k - 1, t)
  }

  function Effects(w: World, actions: seq<Action>): (nat, Script) -> Option<Script> {
    (i: nat, script: Script) => if i < |actions| then Effect(w, i, actions[i], script) else None
  }

  /** What the first `k` actions make of a script that holds the text `before`. */
  function Replay(w: World, actions: seq<Action>, k: nat, before: string): Option<Script> {
    Fold(Effects(w, actions), k, Some(before))
  }

  /** The first `k` actions can be done and the next one cannot. */
  predicate FailsAt(w: World, actions: seq<Action>, k: nat, before: string) {
    k < |actions| && Replay(w, actions, k, before).Some? && Replay(w, actions, k + 1, before).None?
  }

  // What reaches the registry.

  datatype Registration = Registration(params: Option<string>, packages: string)

  /** The memo for the registry after one more action: the parameters and packages named last. */
  function Noted(memo: Registration, a: Action): Registration {
    match a
    case Replace(_, _, params) => if params.Some? then memo.(params := params) else memo
    case Write(_, params) => if params.Some? then memo.(params := params) else memo
    case Install(packages) => if packages != "" then memo.(packages := packages) else memo
    case _ => memo
  }

  function Memo(actions: seq<Action>, k: nat): Registration
    requires k <= |actions|
  {
    if k == 0 then Registration(None, "") else Noted(Memo(actions, k - 1), actions[k - 1])
  }

  predicate Registers(w: World, actions: seq<Action>, i: nat)
    requires i < |actions|
  {
    actions[i].Run? && actions[i].command != "" && w.register(i)
  }

  /** What action `i` puts into the registry. */
  function Entry(w: World, actions: seq<Action>, i: nat): seq<Registration>
    requires i < |actions|
  {
    if Registers(w, actions, i) then [Memo(actions, i + 1)] else []
  }

  /** What the first `k` actions put into the registry. */
  function Registered(w: World, actions: seq<Action>, k: nat): seq<Registration>
    requires k <= |actions|
  {
    if k == 0 then [] else Registered(w, actions, k - 1) + Entry(w, actions, k - 1)
  }

  // The editor.

  datatype Outcome = Refused | Finished | Aborted(step: nat)

  class ToolEditor {
    var file: Script
    var registry: seq<Registration>

    constructor (file: Script)
      ensures this.file == file && registry == []
    {
      this.file, registry := file, [];
    }

    method Rollback(backup: string)
      modifies this`file
      ensures file == Some(backup)
    {
      file := Some(backup);
    }

    method WriteFile(text: string, outcome: WriteOutcome) returns (ok: bool)
      modifies this`file
      ensures ok == outcome.Written?
      ensures file == Some(if ok then text else outcome.left)
    {
      ok := outcome.Written?;
      file := Some(if ok then text else outcome.left);
    }

    method ReplaceStep(w: World, i: nat, a: Action, backup: string) returns (ok: bool)
      requires a.Replace?
      modifies this`file
      ensures ok <==> Effect(w, i, a, old(file)).Some?
      ensures file == if ok then Effect(w, i, a, old(file)).value else Some(backup)
    {
      if a.search == "" {
        Rollback(backup);
        return false;
      }
      var content := if w.readable(i) && file.Some? then file.value else "";
      if !Contains(content, a.search) {
        Rollback(backup);
        return false;
      }
      NotInEmpty(a.search);
      var newContent := ReplaceFirst(content, a.search, CleanMarkdown(a.replacement));
      if !w.check(i, newContent) {
        Rollback(backup);
        return false;
      }
      ok := WriteFile(newContent, w.write(i));
      if !ok {
        Rollback(backup);
      }
    }

    method WriteStep(w: World, i: nat, a: Action, backup: string) returns (ok: bool)
      requires a.Write?
      modifies this`file
      ensures ok <==> Effect(w, i, a, old(file)).Some?
      ensures file == if ok then Effect(w, i, a, old(file)).value else Some(backup)
    {
      if a.code == "" {
        Rollback(backup);
        return false;
      }
      var code := CleanMarkdown(a.code);
      if !w.check(i, code) {
        Rollback(backup);
        return false;
      }
      ok := WriteFile(w.wrap(code), w.write(i));
      if !ok {
        Rollback(backup);
      }
    }

    method InstallStep(w: World, i: nat, a: Action, backup: string) returns (ok: bool)
      requires a.Install?
      modifies this`file
      ensures ok <==> Effect(w, i, a, old(file)).Some?
      ensures file == if ok then Effect(w, i, a, old(file)).value else Some(backup)
    {
      var pkgs := Fields(a.packages);
      for n := 0 to |pkgs|
        invariant forall m | 0 <= m < n :: pkgs[m] !in SYSTEM_TOOLS
        invariant file == old(file)
      {
        if pkgs[n] in SYSTEM_TOOLS {
          Rollback(backup);
          return false;
        }
      }
      ok := true;
    }

    method RunStep(w: World, i: nat, a: Action, backup: string, memo: Registration) returns (ok: bool)
      requires a.Run?
      modifies this
      ensures ok <==> Effect(w, i, a, old(file)).Some?
      ensures file == if ok then Effect(w, i, a, old(file)).value else Some(backup)
      ensures registry == old(registry) + if ok && a.command != "" && w.register(i) then [memo] else []
    {
      if a.command == "" { return true; }
      var outcome := w.run(i);
      file := Traced(outcome.trace, file);
      if !outcome.ok {
        Rollback(backup);
        return false;
      }
      if w.register(i) { registry := registry + [memo]; }
      ok := true;
    }

    method Step(w: World, actions: seq<Action>, i: nat, backup: string, memo: Registration)
      returns (ok: bool)
      requires i < |actions| && memo == Memo(actions, i + 1)
      requires Replay(w, actions, i, backup) == Some(file)
      modifies this
      ensures ok <==> Replay(w, actions, i + 1, backup).Some?
      ensures file == if ok then Replay(w, actions, i + 1, backup).value else Some(backup)
      ensures registry == old(registry) + if ok then Entry(w, actions, i) else []
    {
      ReplayNext(w, actions, i, backup, file);
      match actions[i] {
        case Replace(_, _, _) => ok := ReplaceStep(w, i, actions[i], backup);
        case Write(_, _) => ok := WriteStep(w, i, actions[i], backup);
        case Install(_) => ok := InstallStep(w, i, actions[i], backup);
        case Run(_) => ok := RunStep(w, i, actions[i], backup, memo);
        case Other => ok := true;
      }
    }

    /** Carries the actions out. Either every one succeeds and the script is what they make of it, or the
        script is the one that was there before; what successful test runs registered stays registered. */
    method Execute(filename: string, request: Option<seq<Action>>, w: World) returns (outcome: Outcome)
      modifies this
      ensures outcome.Refused? <==> filename == "" || request.None? || old(file).None?
      ensures outcome.Refused? ==> file == old(file) && registry == old(registry)
      ensures outcome.Finished? ==> (
        && Replay(w, request.value, |request.value|, old(file).value) == Some(file)
        && registry == old(registry) + Registered(w, request.value, |request.value|))
      ensures outcome.Aborted? ==> (
        && file == old(file)
        && FailsAt(w, request.value, outcome.step, old(file).value)
        && registry == old(registry) + Registered(w, request.value, outcome.step)
        && (!Leaky(request.value) ==> registry == old(registry)))
      ensures !outcome.Refused? ==>
        forall k | FailsAt(w, request.value, k, old(file).value) :: outcome == Aborted(k)
    {
      if filename == "" || request.None? || file.None? { return Refused; }
      ghost var before := file.value;
      outcome := Perform(request.value, w);
      forall k | FailsAt(w, request.value, k, before) ensures outcome == Aborted(k) {
        FailsOnce(w, request.value, if outcome.Finished? then |request.value| else outcome.step, k, before);
      }
      if outcome.Aborted? && !Leaky(request.value) {
        OnlyLeakyEditsLeak(w, request.value, outcome.step, before);
      }
    }

    /** The loop over the actions, with the backup in memory. */
    method Perform(actions: seq<Action>, w: World) returns (outcome: Outcome)
      requires file.Some?
      modifies this
      ensures !outcome.Refused?
      ensures outcome.Finished? ==> (
        && Replay(w, actions, |actions|, old(file).value) == Some(file)
        && registry == old(registry) + Registered(w, actions, |actions|))
      ensures outcome.Aborted? ==> (
        && file == old(file) && FailsAt(w, actions, outcome.step, old(file).value)
        && registry == old(registry) + Registered(w, actions, outcome.step))
    {
      var backup := file.value;
      var updatedToolParams, finalInstallPackages := None, "";
      ghost var start := registry;
      for i := 0 to |actions|
        invariant Replay(w, actions, i, backup) == Some(file)
        invariant Registration(updatedToolParams, finalInstallPackages) == Memo(actions, i)
        invariant registry == start + Registered(w, actions, i)
      {
        updatedToolParams, finalInstallPackages := Note(actions[i], updatedToolParams, finalInstallPackages);
        var ok := Step(w, actions, i, backup, Registration(updatedToolParams, finalInstallPackages));
        if !ok { return Aborted(i); }
        RegisteredNext(w, actions, i, start);
      }
      outcome := Finished;
    }
  }

  /** What the loop remembers of an action for the registry. */
  method Note(a: Action, params: Option<string>, packages: string)
    returns (params': Option<string>, packages': string)
    ensures Registration(params', packages') == Noted(Registration(params, packages), a)
  {
    params', packages' := params, packages;
    if (a.Replace? || a.Write?) && a.params.Some? { params' := a.params; }
    if a.Install? && a.packages != "" { packages' := a.packages; }
  }

  lemma {:induction false} RegisteredNext(w: World, actions: seq<Action>, i: nat, start: seq<Registration>)
    requires i < |actions|
    ensures start + Registered(w, actions, i + 1) == start + Registered(w, actions, i) + Entry(w, actions, i)
  {
  }

  lemma {:induction false} ReplayNext(w: World, actions: seq<Action>, i: nat, before: string, script: Script)
    requires i < |actions| && Replay(w, actions, i, before) == Some(script)
    ensures Replay(w, actions, i + 1, before) == Effect(w, i, actions[i], script)
  {
  }

  lemma {:induction false} NotInEmpty(p: string)
    requires p != ""
    ensures !Contains("", p)
  {
  }

  // All or nothing.

  lemma {:induction false} FoldStep<T>(effect: (nat, T) -> Option<T>, i: nat, k: nat, before: T) returns (t: T)
    requires i < k && Fold(effect, k, before).Some?
    ensures Fold(effect, i, before) == Some(t)
    ensures Fold(effect, i + 1, before) == effect(i, t) != None
  {
    if i + 1 < k {
      t := FoldStep(effect, i, k - 1, before);
    } else {
      t := Fold(effect, i, before).value;
    }
  }

  /** What can be done up to step `n` has no failing step before, and there is just one failing step. */
  lemma {:induction false} FailsOnce(w: World, actions: seq<Action>, n: nat, k: nat, before: string)
    requires n <= |actions| && Replay(w, actions, n, before).Some? && FailsAt(w, actions, k, before)
    ensures n <= k && (n < |actions| && FailsAt(w, actions, n, before) ==> n == k)
  {
    if k < n {
      var script := StepWasDone(w, actions, k, n, before);
      assert false;
    }
    if n < k && FailsAt(w, actions, n, before) {
      var script := StepWasDone(w, actions, n, k, before);
      assert false;
    }
  }

  lemma {:induction false} StepWasDone(w: World, actions: seq<Action>, i: nat, k: nat, before: string)
      returns (script: Script)
    requires i < k <= |actions| && Replay(w, actions, k, before).Some?
    ensures Replay(w, actions, i, before) == Some(script)
    ensures Replay(w, actions, i + 1, before) == Effect(w, i, actions[i], script) != None
  {
    script := FoldStep(Effects(w, actions), i, k, Some(before));
  }

  /** The script with `text` in place of the first occurrence of `search`. */
  ghost predicate ReplacedAt(was: string, search: string, text: string, now: string, at: nat) {
    FirstAt(was, search, at) && now == was[..at] + text + was[at + |search|..]
  }

  /** Every text the actions put on disk passed the checker: a replacement, which changes one place of the
      text before it, as it is stored, a new script before the wrapper is put around it. */
  lemma {:induction false} StoredTextsWereChecked(w: World, actions: seq<Action>, k: nat, before: string, i: nat)
    requires i < k <= |actions| && Replay(w, actions, k, before).Some?
    ensures var a, was, now := actions[i], Replay(w, actions, i, before), Replay(w, actions, i + 1, before);
      && was.Some? && now.Some?
      && (a.Replace? || a.Write? ==> now.value.Some?)
      && (a.Replace? ==> w.check(i, now.value.value))
      && (a.Replace? ==> exists at ::
            ReplacedAt(TextOf(was.value), a.search, CleanMarkdown(a.replacement), now.value.value, at))
      && (a.Write? ==> exists code :: w.check(i, code) && now.value.value == w.wrap(code))
  {
    var was := StepWasDone(w, actions, i, k, before);
    if actions[i].Replace? {
      ReplaceIsChecked(w, i, actions[i], was);
    } else if actions[i].Write? {
      WriteIsChecked(w, i, actions[i], was);
    }
  }

  lemma {:induction false} ReplaceIsChecked(w: World, i: nat, a: Action, was: Script)
    requires a.Replace? && Effect(w, i, a, was).Some?
    ensures var now := Effect(w, i, a, was).value;
      && now.Some? && w.check(i, now.value)
      && exists at :: ReplacedAt(TextOf(was), a.search, CleanMarkdown(a.replacement), now.value, at)
  {
    var text, r := TextOf(was), CleanMarkdown(a.replacement);
    var at := FirstReplaced(text, a.search, r);
    assert Effect(w, i, a, was) == Some(Some(ReplaceFirst(text, a.search, r)));
  }

  lemma {:induction false} FirstReplaced(was: string, search: string, text: string) returns (at: nat)
    requires Contains(was, search)
    ensures ReplacedAt(was, search, text, ReplaceFirst(was, search, text), at)
  {
    at := Find(was, search).value;
  }

  lemma {:induction false} WriteIsChecked(w: World, i: nat, a: Action, was: Script)
    requires a.Write? && Effect(w, i, a, was).Some?
    ensures var now := Effect(w, i, a, was).value;
      now.Some? && exists code :: w.check(i, code) && now.value == w.wrap(code)
  {
    assert w.check(i, CleanMarkdown(a.code));
  }

  // The rollback does not reach the registry: which lists of actions can fail and leave something there.

  /** No world and no script lets the action succeed. */
  predicate Hopeless(a: Action) {
    || (a.Replace? && a.search == "") || (a.Write? && a.code == "")
    || (a.Install? && !NoSystemTool(Fields(a.packages)))
  }

  /** Some world makes the action fail on every script. */
  predicate CanFail(a: Action) {
    a.Replace? || a.Write? || (a.Install? && !NoSystemTool(Fields(a.packages))) || IsTest(a)
  }

  predicate IsTest(a: Action) { a.Run? && a.command != "" }

  /** A test run that can be reached stands before an action that can be reached and can fail. */
  predicate LeaksAt(actions: seq<Action>, i: nat, k: nat) {
    && i < k < |actions| && IsTest(actions[i]) && CanFail(actions[k])
    && forall j | 0 <= j < k :: !Hopeless(actions[j])
  }

  ghost predicate Leaky(actions: seq<Action>) { exists i, k :: LeaksAt(actions, i, k) }

  /** In every world, on every script, a failing edit leaves the registry as it was. */
  ghost predicate KeepsRegistry(actions: seq<Action>) {
    forall w, k, before | FailsAt(w, actions, k, before) :: Registered(w, actions, k) == []
  }

  lemma {:induction false} NothingRegistered(w: World, actions: seq<Action>, k: nat)
    requires k <= |actions| && forall i | 0 <= i < k :: !Registers(w, actions, i)
    ensures Registered(w, actions, k) == []
  {
    if k > 0 { NothingRegistered(w, actions, k - 1); }
  }

  lemma {:induction false} SomethingRegistered(w: World, actions: seq<Action>, k: nat, i: nat)
    requires i < k <= |actions| && Registers(w, actions, i)
    ensures Registered(w, actions, k) != []
  {
    if i + 1 < k { SomethingRegistered(w, actions, k - 1, i); }
  }

  lemma {:induction false} OnlyLeakyEditsLeak(w: World, actions: seq<Action>, k: nat, before: string)
    requires FailsAt(w, actions, k, before) && !Leaky(actions)
    ensures Registered(w, actions, k) == []
  {
    forall i | 0 <= i < k ensures !Registers(w, actions, i) {
      forall j | 0 <= j < k ensures !Hopeless(actions[j]) {
        var script := StepWasDone(w, actions, j, k, before);
      }
      assert CanFail(actions[k]);
      assert !LeaksAt(actions, i, k);
    }
    NothingRegistered(w, actions, k);
  }

  /** The searched texts of the actions from `i` on, one after the other. */
  function Searches(actions: seq<Action>, i: nat): string
    requires i <= |actions|
    decreases |actions| - i
  {
    if i == |actions| then ""
    else (if actions[i].Replace? then actions[i].search else "") + Searches(actions, i + 1)
  }

  /** The world in which everything goes well up to step `k`, which does not. */
  function FailingWorld(actions: seq<Action>, k: nat): World {
    World((i, t) => i != k, t => Searches(actions, 0), i => true,
          i => if i == k then Failed("") else Written, i => RunOutcome(i != k, Untouched), i => true)
  }

  lemma {:induction false} SuffixTrans(s: string, t: string, u: string)
    requires HasSuffix(s, t) && HasSuffix(t, u)
    ensures HasSuffix(s, u)
  {
    assert s[|s| - |u|..] == s[|s| - |t|..][|t| - |u|..];
  }

  lemma {:induction false} SearchesEnd(actions: seq<Action>, i: nat)
    requires i <= |actions|
    ensures HasSuffix(Searches(actions, 0), Searches(actions, i))
    decreases i
  {
    if i == 0 {
      assert Searches(actions, 0)[0..] == Searches(actions, 0);
    } else {
      SearchesEnd(actions, i - 1);
      SearchesStep(actions, i - 1);
      SuffixTrans(Searches(actions, 0), Searches(actions, i - 1), Searches(actions, i));
    }
  }

  lemma {:induction false} SearchesStep(actions: seq<Action>, i: nat)
    requires i < |actions|
    ensures HasSuffix(Searches(actions, i), Searches(actions, i + 1))
  {
    var rest := Searches(actions, i + 1);
    var first := if actions[i].Replace? then actions[i].search else "";
    assert (first + rest)[|first|..] == rest;
  }

  /** A text that ends in `p` and then `rest` contains `p`, and still ends in `rest` when `p` is replaced. */
  lemma {:induction false} ReplaceKeepsEnd(text: string, p: string, rest: string, replacement: string)
    requires HasSuffix(text, p + rest)
    ensures Contains(text, p) && HasSuffix(ReplaceFirst(text, p, replacement), rest)
  {
    var at := |text| - |p + rest|;
    assert text[at..] == p + rest && text[at..][..|p|] == p;
    assert OccursAt(text, p, at);
    var k := Find(text, p).value;
    SuffixBehind(text, p + rest, k + |p|, rest);
    SuffixWithFront(text[..k] + replacement, text[k + |p|..], rest);
  }

  lemma {:induction false} SuffixBehind(text: string, end: string, k: nat, rest: string)
    requires HasSuffix(text, end) && HasSuffix(end, rest) && k + |rest| <= |text|
    ensures HasSuffix(text[k..], rest)
  {
    SuffixTrans(text, end, rest);
    assert text[k..][|text| - k - |rest|..] == text[|text| - |rest|..];
  }

  lemma {:induction false} SuffixWithFront(front: string, text: string, rest: string)
    requires HasSuffix(text, rest)
    ensures HasSuffix(front + text, rest)
  {
    assert (front + text)[|front + text| - |rest|..] == text[|text| - |rest|..];
  }

  /** Each of the first `k` steps succeeds where `inv` holds and keeps it. */
  ghost predicate Preserves<T(!new)>(effect: (nat, T) -> Option<T>, inv: (nat, T) -> bool, k: nat) {
    forall i: nat, t: T | i < k && inv(i, t) :: effect(i, t).Some? && inv(i + 1, effect(i, t).value)
  }

  lemma {:induction false} FoldKeeps<T(!new)>(effect: (nat, T) -> Option<T>, inv: (nat, T) -> bool, k: nat, n: nat,
                                              before: T)
    requires n <= k && inv(0, before) && Preserves(effect, inv, k)
    ensures Fold(effect, n, before).Some? && inv(n, Fold(effect, n, before).value)
  {
    if n > 0 { FoldKeeps(effect, inv, k, n - 1, before); }
  }

  /** The texts still to be searched for stand at the end. */
  predicate EndsWell(actions: seq<Action>, i: nat, script: Script) {
    i <= |actions| && script.Some? && HasSuffix(script.value, Searches(actions, i))
  }

  lemma {:induction false} StepsGoWell(actions: seq<Action>, k: nat)
    requires k <= |actions| && forall j | 0 <= j < k :: !Hopeless(actions[j])
    ensures Preserves(Effects(FailingWorld(actions, k), actions), (i, t) => EndsWell(actions, i, t), k)
  {
    var effect := Effects(FailingWorld(actions, k), actions);
    forall i: nat, t: Script | i < k && EndsWell(actions, i, t)
      ensures effect(i, t).Some? && EndsWell(actions, i + 1, effect(i, t).value)
    {
      StepGoesWell(actions, k, i, t);
    }
  }

  /** Up to step `k` everything succeeds. */
  lemma {:induction false} GoesWellUntil(actions: seq<Action>, k: nat)
    requires k <= |actions| && forall j | 0 <= j < k :: !Hopeless(actions[j])
    ensures Replay(FailingWorld(actions, k), actions, k, Searches(actions, 0)).Some?
  {
    StepsGoWell(actions, k);
    SearchesEnd(actions, 0);
    FoldKeeps(Effects(FailingWorld(actions, k), actions), (i, t) => EndsWell(actions, i, t), k, k,
              Some(Searches(actions, 0)));
  }

  lemma {:induction false} StepGoesWell(actions: seq<Action>, k: nat, i: nat, script: Script)
    requires i < k <= |actions| && !Hopeless(actions[i]) && EndsWell(actions, i, script)
    ensures var after := Effects(FailingWorld(actions, k), actions)(i, script);
      after.Some? && EndsWell(actions, i + 1, after.value)
  {
    var a, rest := actions[i], Searches(actions, i + 1);
    if a.Replace? {
      ReplaceKeepsEnd(script.value, a.search, rest, CleanMarkdown(a.replacement));
    } else if a.Write? {
      SearchesEnd(actions, i + 1);
    } else {
      assert Searches(actions, i) == "" + rest == rest;
    }
  }

  lemma {:induction false} LeakyEditsLeak(actions: seq<Action>, i: nat, k: nat) returns (w: World, before: string)
    requires LeaksAt(actions, i, k)
    ensures FailsAt(w, actions, k, before) && Registered(w, actions, k) != []
  {
    w, before := FailingWorld(actions, k), Searches(actions, 0);
    GoesWellUntil(actions, k);
    SomethingRegistered(w, actions, k, i);
  }

  /** The exact condition, on the actions alone: a failing edit leaves the registry as it was in every world
      and on every script, if and only if no test run that can be reached stands before an action that can be
      reached and can fail. */
  lemma {:induction false} RegistryKeptWhen(actions: seq<Action>)
    ensures KeepsRegistry(actions) <==> !Leaky(actions)
  {
    if !Leaky(actions) {
      forall w, k, before | FailsAt(w, actions, k, before) ensures Registered(w, actions, k) == [] {
        OnlyLeakyEditsLeak(w, actions, k, before);
      }
    } else {
      var i, k :| LeaksAt(actions, i, k);
      var w, before := LeakyEditsLeak(actions, i, k);
    }
  }

  /** The shortest leak, on any script: a test run that succeeds, then an empty search. */
  lemma {:induction false} RegistrationSurvivesRollback(script: string) returns (w: World, actions: seq<Action>)
    ensures FailsAt(w, actions, 1, script) && Registered(w, actions, 1) != []
  {
    w := World((i, t) => true, t => t, i => true, i => Written, i => RunOutcome(true, Untouched), i => true);
    actions := [Run("python tool.py"), Replace("", "", None)];
    ReplayNext(w, actions, 0, script, Some(script));
    ReplayNext(w, actions, 1, script, Some(script));
    assert Registered(w, actions, 0) == [];
  }
}
