/** When a Codex hook runs: the script that its command hands to a second shell
    (internal/agenthooks/provider.go), read and executed under any environment. */
module HookGuard {
  import opened Text
  import HC = HookCommand

  /** The variables a script sees. */
  type Environment = map<string, string>

  /** What joins a command to the one in front of it: `;`, `&&` or `||`. */
  datatype Link = Always | IfOk | IfFailed

  datatype Command = Command(link: Link, words: seq<string>)

  /** The start of something longer than a character: an operator, a word `[`, an expansion `${name:-}`. */
  datatype Begun = Nothing | Bar | Ampersand | Bracket | Dollar | Name(name: string) | Colon(name: string) |
    Default(name: string)

  /** What a shell has read of a script: the commands complete, how the next one is joined, and its words. */
  datatype Script = Script(words: HC.Reading, begun: Begun, link: Link, done: seq<Command>) | Stuck

  const START := Script(HC.Reading(HC.Unquoted, None, []), Nothing, Always, [])

  function Closed(s: Script, next: Link): Script
    requires s.Script? && s.words.Reading?
  {
    Script(HC.Reading(HC.Unquoted, None, []), Nothing, next,
           s.done + [Command(s.link, s.words.done + HC.WordOf(s.words.cur))])
  }

  /** `${name:-}` in double quotes: the variable's value, nothing when it is not set. */
  function Expanded(s: Script, env: Environment, name: string): Script
    requires s.Script? && s.words.Reading?
  {
    var value := if name in env then env[name] else "";
    s.(words := s.words.(cur := Some(HC.TextOf(s.words.cur) + value)), begun := Nothing)
  }

  /** The script after one more character. Where the reading of words ends, operators and expansions begin. */
  function Step(env: Environment, s: Script, c: char): Script {
    if s.Stuck? || s.words.Refused? then Stuck
    else
      match s.begun
      case Nothing =>
        var r := HC.Step(s.words, c);
        if r.Reading? then s.(words := r)
        else if s.words.mode.Double? then if c == '$' then s.(begun := Dollar) else Stuck
        else if c == ';' then Closed(s, Always)
        else if c == '|' then s.(begun := Bar)
        else if c == '&' then s.(begun := Ampersand)
        else if c == '[' && s.words.cur.None? then s.(begun := Bracket)
        else Stuck
      case Bar => if c == '|' then Closed(s, IfFailed) else Stuck
      case Ampersand => if c == '&' then Closed(s, IfOk) else Stuck
      case Bracket =>
        if c == ' ' then s.(words := s.words.(done := s.words.done + ["["]), begun := Nothing) else Stuck
      case Dollar => if c == '{' then s.(begun := Name([])) else Stuck
      case Name(name) =>
        if c == ':' then s.(begun := Colon(name))
        else if c in {'}', '"', '$', '`', '\\'} then Stuck
        else s.(begun := Name(name + [c]))
      case Colon(name) => if c == '-' then s.(begun := Default(name)) else Stuck
      case Default(name) => if c == '}' then Expanded(s, env, name) else Stuck
  }

  function Read(env: Environment, s: Script, text: string): Script
    decreases |text|
  {
    if text == [] then s else Read(env, Step(env, s, text[0]), text[1..])
  }

  // ---- execution ----

  /** How a script ends: by becoming another program, by exit, or at its end. */
  datatype Ending = Becomes(words: seq<string>) | Exits(code: string) | Ends(ok: bool) | Unknown

  /** One simple command; Ends means that the script goes on. */
  function Perform(words: seq<string>): Ending {
    if |words| == 5 && words[0] == "[" && words[2] == "=" && words[4] == "]" then Ends(words[1] == words[3])
    else if |words| == 2 && words[0] == "exit" then Exits(words[1])
    else if |words| > 1 && words[0] == "exec" then Becomes(words[1..])
    else Unknown
  }

  predicate Due(link: Link, ok: bool) {
    match link
    case Always => true
    case IfOk => ok
    case IfFailed => !ok
  }

  /** The commands in order; ok is the status of the last one performed. */
  function Execute(commands: seq<Command>, ok: bool): Ending
    decreases |commands|
  {
    if commands == [] then Ends(ok)
    else if !Due(commands[0].link, ok) then Execute(commands[1..], ok)
    else
      match Perform(commands[0].words)
      case Ends(status) => Execute(commands[1..], status)
      case ending => ending
  }

  function RunScript(env: Environment, text: string): Ending {
    var s := Read(env, START, text);
    if s.Script? && s.words.Reading? && s.words.mode.Unquoted? && s.begun.Nothing?
    then Execute(Closed(s, Always).done, true)
    else Unknown
  }

  // ---- reading the guard ----

  lemma {:induction false} ReadConcat(env: Environment, s: Script, a: string, b: string)
    ensures Read(env, s, a + b) == Read(env, Read(env, s, a), b)
    decreases |a|
  {
    if a == [] {
      assert a + b == b;
    } else {
      assert (a + b)[1..] == a[1..] + b;
      ReadConcat(env, Step(env, s, a[0]), a[1..], b);
    }
  }

  lemma ReadOne(env: Environment, s: Script, c: char)
    ensures Read(env, s, [c]) == Step(env, s, c)
  {
    assert [c][1..] == [];
  }

  lemma {:induction false} RefusedStays(r: HC.Reading, text: string)
    requires r.Refused?
    ensures HC.Read(r, text).Refused?
    decreases |text|
  {
    if text != [] {
      RefusedStays(HC.Step(r, text[0]), text[1..]);
    }
  }

  /** Text that is words only reads as those words. */
  lemma {:induction false} ReadWords(env: Environment, s: Script, text: string)
    requires s.Script? && s.begun.Nothing? && s.words.Reading? && HC.Read(s.words, text).Reading?
    ensures Read(env, s, text) == s.(words := HC.Read(s.words, text))
    decreases |text|
  {
    if text != [] {
      var r := HC.Step(s.words, text[0]);
      if r.Refused? {
        RefusedStays(r, text[1..]);
      }
      ReadWords(env, s.(words := r), text[1..]);
    }
  }

  lemma ReadPlainWord(env: Environment, s: Script, w: string)
    requires s.Script? && s.begun.Nothing? && s.words.Reading? && s.words.mode.Unquoted? && s.words.cur.None?
    requires HC.Plain(w)
    ensures Read(env, s, w + [' ']) == s.(words := HC.Reading(HC.Unquoted, None, s.words.done + [w]))
  {
    HC.ReadConcat(s.words, w, [' ']);
    HC.ReadWord(w, s.words.done);
    HC.ReadSpace(w, s.words.done);
    ReadWords(env, s, w + [' ']);
  }

  /** Between two words. */
  predicate AtWord(s: Script) {
    s.Script? && s.begun.Nothing? && s.words == HC.Reading(HC.Unquoted, None, WordsOf(s))
  }

  function WordsOf(s: Script): seq<string> {
    if s.Script? && s.words.Reading? then s.words.done else []
  }

  function WithWord(s: Script, w: string): Script
    requires AtWord(s)
  {
    s.(words := HC.Reading(HC.Unquoted, None, s.words.done + [w]))
  }

  lemma ReadTwo(env: Environment, s: Script, c: char, d: char)
    ensures Read(env, s, [c, d]) == Step(env, Step(env, s, c), d)
  {
    assert [c, d] == [c] + [d];
    ReadConcat(env, s, [c], [d]);
    ReadOne(env, s, c);
    ReadOne(env, Step(env, s, c), d);
  }

  lemma ReadBracket(env: Environment, s: Script)
    requires AtWord(s)
    ensures Read(env, s, "[" + [' ']) == WithWord(s, "[")
  {
    assert "[" + [' '] == ['[', ' '];
    ReadTwo(env, s, '[', ' ');
  }

  predicate NameLike(name: string) {
    forall i :: 0 <= i < |name| ==> name[i] !in {':', '}', '"', '$', '`', '\\'}
  }

  lemma {:induction false} ReadName(env: Environment, s: Script, name: string, rest: string)
    requires s.Script? && s.words.Reading? && s.begun.Name? && NameLike(rest)
    ensures Read(env, s, rest) == s.(begun := Name(s.begun.name + rest))
    decreases |rest|
  {
    if rest == [] {
      assert s.begun.name + rest == s.begun.name;
    } else {
      var next := s.(begun := Name(s.begun.name + [rest[0]]));
      ReadName(env, next, name, rest[1..]);
      assert s.begun.name + [rest[0]] + rest[1..] == s.begun.name + rest;
    }
  }

  /** What a quoted expansion puts in the place of a name. */
  function ValueOf(env: Environment, name: string): string {
    if name in env then env[name] else ""
  }

  /** A quoted expansion is one word, whatever the variable holds. */
  lemma ReadExpansion(env: Environment, s: Script, name: string)
    requires AtWord(s) && NameLike(name)
    ensures Read(env, s, "\"${" + name + ":-}\"" + [' ']) == WithWord(s, ValueOf(env, name))
  {
    var quoted := s.(words := HC.Reading(HC.Double, Some([]), s.words.done));
    var named := quoted.(begun := Name(name));
    ReadConcat(env, s, "\"${" + name + ":-}\"", [' ']);
    ReadConcat(env, s, "\"${" + name, ":-}\"");
    ReadConcat(env, s, "\"${", name);
    OpenExpansion(env, s);
    ReadName(env, quoted.(begun := Name([])), name, name);
    assert [] + name == name;
    CloseExpansion(env, named);
    assert [] + ValueOf(env, name) == ValueOf(env, name);
    ReadOne(env, s.(words := HC.Reading(HC.Unquoted, Some(ValueOf(env, name)), s.words.done)), ' ');
  }

  lemma OpenExpansion(env: Environment, s: Script)
    requires AtWord(s)
    ensures Read(env, s, "\"${")
         == s.(words := HC.Reading(HC.Double, Some([]), s.words.done), begun := Name([]))
  {
    assert "\"${" == ['"'] + ['$', '{'];
    ReadConcat(env, s, ['"'], ['$', '{']);
    ReadOne(env, s, '"');
    ReadTwo(env, Step(env, s, '"'), '$', '{');
  }

  lemma CloseExpansion(env: Environment, s: Script)
    requires s.Script? && s.words.Reading? && s.words.mode.Double? && s.words.cur == Some([]) && s.begun.Name?
    ensures Read(env, s, ":-}\"")
         == s.(words := HC.Reading(HC.Unquoted, Some([] + ValueOf(env, s.begun.name)), s.words.done), begun := Nothing)
  {
    assert ":-}\"" == [':', '-'] + ['}', '"'];
    ReadConcat(env, s, [':', '-'], ['}', '"']);
    ReadTwo(env, s, ':', '-');
    ReadTwo(env, s.(begun := Default(s.begun.name)), '}', '"');
  }

  lemma ReadQuotedOne(env: Environment, s: Script)
    requires AtWord(s)
    ensures Read(env, s, "\"1\"" + [' ']) == WithWord(s, "1")
  {
    assert "\"1\"" + [' '] == ['"', '1'] + ['"', ' '];
    ReadConcat(env, s, ['"', '1'], ['"', ' ']);
    ReadTwo(env, s, '"', '1');
    assert [] + ['1'] == "1";
    ReadTwo(env, s.(words := HC.Reading(HC.Double, Some(['1']), s.words.done)), '"', ' ');
  }

  lemma ReadOr(env: Environment, s: Script)
    requires AtWord(s)
    ensures Read(env, s, "||" + [' ']) == Closed(s, IfFailed)
  {
    assert "||" + [' '] == ['|', '|'] + [' '];
    ReadConcat(env, s, ['|', '|'], [' ']);
    ReadTwo(env, s, '|', '|');
    assert s.words.done + [] == s.words.done;
    ReadOne(env, Closed(s, IfFailed), ' ');
  }

  lemma ReadZeroAndEnd(env: Environment, s: Script)
    requires AtWord(s)
    ensures Read(env, s, "0;" + [' ']) == Closed(WithWord(s, "0"), Always)
  {
    assert "0;" + [' '] == ['0', ';'] + [' '];
    ReadConcat(env, s, ['0', ';'], [' ']);
    ReadTwo(env, s, '0', ';');
    assert [] + ['0'] == "0";
    assert s.words.done + ["0"] + [] == s.words.done + ["0"];
    ReadOne(env, Closed(WithWord(s, "0"), Always), ' ');
  }

  lemma NextWord(env: Environment, s: Script, words: seq<string>)
    requires words != []
    ensures Read(env, s, HC.Each(words)) == Read(env, Read(env, s, words[0] + [' ']), HC.Each(words[1..]))
  {
    ReadConcat(env, s, words[0] + [' '], HC.Each(words[1..]));
  }

  const OWNED := "FLOW_HOOK_OWNED"

  /** The guard's test, as the shell sees it. */
  function Test(value: string): Command {
    Command(Always, ["[", value, "=", "1", "]"])
  }

  lemma OwnedIsName()
    ensures NameLike(OWNED)
  {
  }

  lemma GuardWords()
    ensures HC.Plain("=") && HC.Plain("]") && HC.Plain("exit") && HC.Plain("exec")
  {
  }

  ghost predicate IsGuard(words: seq<string>) {
    && |words| == 9
    && words[0] == "[" && words[1] == "\"${" + OWNED + ":-}\""
    && words[2] == "=" && words[3] == "\"1\"" && words[4] == "]"
    && words[5] == "||" && words[6] == "exit" && words[7] == "0;" && words[8] == "exec"
  }

  lemma GuardIs()
    ensures IsGuard(HC.GUARD)
  {
  }

  /** The test, up to its closing bracket. */
  lemma ReadTest(env: Environment, guard: seq<string>)
    requires IsGuard(guard)
    ensures Read(env, START, HC.Each(guard)) == Read(env, AfterTest(env), HC.Each(guard[5..]))
  {
    var v := ValueOf(env, OWNED);
    var s1 := WithWord(START, "[");
    var s2 := WithWord(s1, v);
    NextWord(env, START, guard);
    ReadBracket(env, START);
    NextWord(env, s1, guard[1..]);
    OwnedIsName();
    ReadExpansion(env, s1, OWNED);
    ReadComparison(env, s2, guard[2..]);
    assert guard[2..][3..] == guard[5..];
    assert s2.words.done + ["=", "1", "]"] == Test(v).words;
  }

  function AfterTest(env: Environment): Script {
    START.(words := HC.Reading(HC.Unquoted, None, Test(ValueOf(env, OWNED)).words))
  }

  lemma ReadComparison(env: Environment, s: Script, words: seq<string>)
    requires AtWord(s) && |words| > 2 && words[0] == "=" && words[1] == "\"1\"" && words[2] == "]"
    ensures Read(env, s, HC.Each(words))
         == Read(env, s.(words := HC.Reading(HC.Unquoted, None, s.words.done + ["=", "1", "]"])), HC.Each(words[3..]))
  {
    var s3 := WithWord(s, "=");
    var s4 := WithWord(s3, "1");
    NextWord(env, s, words);
    GuardWords();
    ReadPlainWord(env, s, "=");
    NextWord(env, s3, words[1..]);
    ReadQuotedOne(env, s3);
    NextWord(env, s4, words[2..]);
    ReadPlainWord(env, s4, "]");
    assert s.words.done + ["="] + ["1"] + ["]"] == s.words.done + ["=", "1", "]"];
  }

  /** What is in front of exec. */
  function Guarded(env: Environment): seq<Command> {
    [Test(ValueOf(env, OWNED)), Command(IfFailed, ["exit", "0"])]
  }

  /** The rest of the guard. */
  lemma ReadExit(env: Environment, s: Script, words: seq<string>)
    requires s == AfterTest(env)
    requires |words| == 4 && words[0] == "||" && words[1] == "exit" && words[2] == "0;" && words[3] == "exec"
    ensures Read(env, s, HC.Each(words))
         == Script(HC.Reading(HC.Unquoted, None, ["exec"]), Nothing, Always, Guarded(env))
  {
    var failed := Closed(s, IfFailed);
    NextWord(env, s, words);
    ReadOr(env, s);
    var test := Test(ValueOf(env, OWNED)).words;
    assert test + [] == test;
    assert failed.done == [Test(ValueOf(env, OWNED))];
    NextWord(env, failed, words[1..]);
    GuardWords();
    ReadPlainWord(env, failed, "exit");
    var exiting := WithWord(failed, "exit");
    NextWord(env, exiting, words[2..]);
    ReadZeroAndEnd(env, exiting);
    var next := Closed(WithWord(exiting, "0"), Always);
    assert [] + ["exit"] + ["0"] + [] == ["exit", "0"];
    assert next.done == Guarded(env);
    NextWord(env, next, words[3..]);
    ReadPlainWord(env, next, "exec");
    assert [] + ["exec"] == ["exec"] && words[3..][1..] == [];
  }

  lemma ReadGuard(env: Environment, guard: seq<string>)
    requires IsGuard(guard)
    ensures Read(env, START, HC.Each(guard))
         == Script(HC.Reading(HC.Unquoted, None, ["exec"]), Nothing, Always, Guarded(env))
  {
    ReadTest(env, guard);
    ReadExit(env, AfterTest(env), guard[5..]);
  }

  // ---- when the command runs ----

  /** A command behind the guard is executed exactly when the variable is 1; else the script exits with 0. */
  lemma GuardedRuns(env: Environment, guard: seq<string>, command: string, words: seq<string>)
    requires IsGuard(guard) && HC.ShellSplit(command) == Some(words) && words != []
    ensures RunScript(env, HC.Each(guard) + command)
         == if OWNED in env && env[OWNED] == "1" then Becomes(words) else Exits("0")
  {
    var before := Script(HC.Reading(HC.Unquoted, None, ["exec"]), Nothing, Always, Guarded(env));
    ReadConcat(env, START, HC.Each(guard), command);
    ReadGuard(env, guard);
    ReadBehind(["exec"], command);
    ReadWords(env, before, command);
    ExecuteGuarded(env, words);
  }

  /** Words behind others read as by themselves. */
  lemma {:induction false} ReadOn(mode: HC.Mode, cur: Option<string>, before: seq<string>, done: seq<string>,
      text: string)
    ensures var r := HC.Read(HC.Reading(mode, cur, done), text);
      HC.Read(HC.Reading(mode, cur, before + done), text)
      == if r.Reading? then r.(done := before + r.done) else HC.Refused
    decreases |text|
  {
    if text != [] {
      var r := HC.Step(HC.Reading(mode, cur, done), text[0]);
      if r.Refused? {
        RefusedStays(r, text[1..]);
        RefusedStays(HC.Refused, text[1..]);
      } else {
        assert before + (done + HC.WordOf(cur)) == before + done + HC.WordOf(cur);
        ReadOn(r.mode, r.cur, before, r.done, text[1..]);
      }
    }
  }

  lemma ReadBehind(before: seq<string>, text: string)
    requires HC.ShellSplit(text).Some?
    ensures var r := HC.Read(HC.Reading(HC.Unquoted, None, before), text);
      && r.Reading? && r.mode.Unquoted? && r.done + HC.WordOf(r.cur) == before + HC.ShellSplit(text).value
  {
    ReadOn(HC.Unquoted, None, before, [], text);
    assert before + [] == before;
  }

  lemma ExecuteGuarded(env: Environment, words: seq<string>)
    requires words != []
    ensures Execute(Guarded(env) + [Command(Always, ["exec"] + words)], true)
         == if OWNED in env && env[OWNED] == "1" then Becomes(words) else Exits("0")
  {
    var v, run := ValueOf(env, OWNED), Command(Always, ["exec"] + words);
    var commands := Guarded(env) + [run];
    assert (["exec"] + words)[1..] == words;
    assert Perform(commands[0].words) == Ends(v == "1");
    assert Perform(commands[1].words) == Exits("0");
    assert Perform(run.words) == Becomes(words);
    assert commands[1..] == [Command(IfFailed, ["exit", "0"]), run] && commands[1..][1..] == [run];
    assert Execute([run], true) == Becomes(words);
    assert Execute(commands[1..], v == "1") == if v == "1" then Becomes(words) else Exits("0");
  }

  lemma CodexGuarded(version: string, url: string, env: Environment, words: seq<string>)
    requires HC.Digits(version) && words == HC.Head("codex") + [version] + HC.UrlWords(HC.URL_FLAG, url)
    ensures RunScript(env, HC.Each(HC.GUARD) + HC.BuildHookCommand("codex", version, url))
         == if OWNED in env && env[OWNED] == "1" then Becomes(words) else Exits("0")
  {
    HC.CodexInnerSplits(version, url);
    GuardIs();
    GuardedRuns(env, HC.GUARD, HC.BuildHookCommand("codex", version, url), words);
  }

  lemma OuterIs(script: string)
    ensures HC.OUTER + [script] == ["sh", "-c", script]
  {
  }

  predicate Owned(env: Environment) {
    "FLOW_HOOK_OWNED" in env && env["FLOW_HOOK_OWNED"] == "1"
  }

  lemma CodexEnds(version: string, url: string, env: Environment, words: seq<string>)
    requires HC.Digits(version) && words == HC.Head("codex") + [version] + HC.UrlWords(HC.URL_FLAG, url)
    ensures RunScript(env, HC.Each(HC.GUARD) + HC.BuildHookCommand("codex", version, url))
         == if Owned(env) then Becomes(words) else Exits("0")
  {
    CodexGuarded(version, url, env, words);
  }

  /** The installed Codex hook, in every environment: sh gets one script, which becomes flow's hook command
      exactly when FLOW_HOOK_OWNED is 1, and otherwise exits with 0. */
  lemma CodexRunsWhenOwned(version: string, url: string, env: Environment) returns (script: string, words: seq<string>)
    requires HC.Digits(version)
    ensures HC.ShellSplit(HC.CodexCommand(version, url)) == Some(["sh", "-c", script])
    ensures RunScript(env, script) == if Owned(env) then Becomes(words) else Exits("0")
    ensures words == ["flow", "hook", "agent-event", "--provider", "codex", "--hook-version", version]
                     + if TrimSpace(url) == [] then [] else ["--url", TrimSpace(url)]
  {
    words := HC.Head("codex") + [version] + HC.UrlWords(HC.URL_FLAG, url);
    script := CodexScript(version, url);
    HC.HeadWords("codex", version, url);
    CodexEnds(version, url, env, words);
  }

  lemma CodexScript(version: string, url: string) returns (script: string)
    requires HC.Digits(version)
    ensures script == HC.Each(HC.GUARD) + HC.BuildHookCommand("codex", version, url)
    ensures HC.ShellSplit(HC.CodexCommand(version, url)) == Some(["sh", "-c", script])
  {
    script := HC.Each(HC.GUARD) + HC.BuildHookCommand("codex", version, url);
    HC.CodexOuterSplits(version, url);
    OuterIs(script);
  }
}
