/** The status-line command flow installs for a root, and how it is recognized (internal/app/skill.go). */
module StatusLineCommand {
  import opened Text
  import opened Json
  import HC = HookCommand
  import CS = ClaudeSettings

  const ROOT_PREFIX := "FLOW_ROOT="

  const WORDS: seq<string> := ["flow", "hook", "claude-statusline"]

  /** Words separated by single spaces. */
  function Spaced(words: seq<string>): string {
    if words == [] then []
    else if |words| == 1 then words[0]
    else words[0] + [' '] + Spaced(words[1..])
  }

  function ShellQuote(s: string): string {
    ['\''] + HC.Escape(s) + ['\'']
  }

  function Command(prefix: string, root: string, tail: string): string {
    prefix + ShellQuote(root) + [' '] + tail
  }

  /** claudeStatusLineInstallCommand, for an absolute root. */
  function InstallCommand(root: string): string {
    Command(ROOT_PREFIX, root, Spaced(WORDS))
  }

  predicate Recognizes(cmd: string, prefix: string, tail: string) {
    var trimmed := TrimSpace(cmd);
    trimmed == tail || (HC.HasPrefix(trimmed, prefix) && HasSuffix(trimmed, [' '] + tail))
  }

  predicate IsClaudeStatusLineCommand(cmd: string) {
    Recognizes(cmd, ROOT_PREFIX, Spaced(WORDS))
  }

  lemma CommandIsTidy(prefix: string, root: string, tail: string)
    requires prefix != [] && tail != [] && !IsSpace(prefix[0]) && !IsSpace(tail[|tail| - 1])
    ensures Tidy(Command(prefix, root, tail))
  {
    var c := Command(prefix, root, tail);
    assert c[0] == prefix[0] && c[|c| - 1] == tail[|tail| - 1];
  }

  lemma CommandEnds(prefix: string, root: string, tail: string)
    ensures HC.HasPrefix(Command(prefix, root, tail), prefix) && HasSuffix(Command(prefix, root, tail), [' '] + tail)
  {
    var q := ShellQuote(root);
    assert Command(prefix, root, tail) == prefix + (q + [' '] + tail) == prefix + q + ([' '] + tail);
    HC.DropPrefix(prefix + q, [' '] + tail);
  }

  lemma RecognizesOwn(prefix: string, root: string, tail: string)
    requires prefix != [] && tail != [] && !IsSpace(prefix[0]) && !IsSpace(tail[|tail| - 1])
    ensures Recognizes(Command(prefix, root, tail), prefix, tail)
  {
    CommandIsTidy(prefix, root, tail);
    CommandEnds(prefix, root, tail);
  }

  lemma TailEnds()
    ensures Spaced(WORDS) != [] && !IsSpace(Spaced(WORDS)[|Spaced(WORDS)| - 1])
  {
    SpacedEnds(WORDS);
  }

  lemma {:induction false} SpacedEnds(words: seq<string>)
    requires words != [] && words[|words| - 1] != []
    ensures var s, w := Spaced(words), words[|words| - 1];
      s != [] && s[|s| - 1] == w[|w| - 1]
  {
    if |words| > 1 {
      SpacedEnds(words[1..]);
    }
  }

  /** What install writes for any root, install and uninstall recognize. */
  lemma InstallCommandIsOwn(root: string)
    ensures IsClaudeStatusLineCommand(InstallCommand(root))
  {
    TailEnds();
    RecognizesOwn(ROOT_PREFIX, root, Spaced(WORDS));
  }

  lemma TailText()
    ensures Spaced(WORDS) == "flow hook claude-statusline"
  {
    var rest := WORDS[1..];
    assert rest[1..] == [WORDS[2]];
    assert Spaced(rest[1..]) == WORDS[2];
    assert Spaced(rest) == WORDS[1] + [' '] + WORDS[2];
    assert Spaced(WORDS) == WORDS[0] + [' '] + (WORDS[1] + [' '] + WORDS[2]);
  }

  /** A prefix and a suffix that cannot overlap leave a middle between them. */
  lemma Between(t: string, prefix: string, suffix: string) returns (mid: string)
    requires HC.HasPrefix(t, prefix) && HasSuffix(t, suffix)
    requires suffix != [] && suffix[0] !in prefix
    ensures t == prefix + mid + suffix
  {
    var at := |t| - |suffix|;
    assert t[at] == suffix[0];
    assert forall i :: 0 <= i < |prefix| ==> t[i] == prefix[i];
    mid := t[|prefix|..at];
    assert t == t[..|prefix|] + mid + t[at..];
  }

  lemma RecognizedIff(cmd: string, prefix: string, tail: string)
    requires ' ' !in prefix
    ensures Recognizes(cmd, prefix, tail) <==>
      TrimSpace(cmd) == tail || exists mid: string :: TrimSpace(cmd) == prefix + mid + ([' '] + tail)
  {
    var t := TrimSpace(cmd);
    if HC.HasPrefix(t, prefix) && HasSuffix(t, [' '] + tail) {
      var mid := Between(t, prefix, [' '] + tail);
    }
    forall mid: string | t == prefix + mid + ([' '] + tail)
      ensures HC.HasPrefix(t, prefix) && HasSuffix(t, [' '] + tail) {
      assert t[..|prefix|] == prefix;
      HC.DropPrefix(prefix + mid, [' '] + tail);
    }
  }

  lemma RootPrefixHasNoSpace()
    ensures ROOT_PREFIX == "FLOW_ROOT=" && ' ' !in ROOT_PREFIX
  {
  }

  /** A status line is taken for flow's own exactly when its trimmed command is flow's three words, with or
      without an assignment of the root in front. */
  lemma OwnExactly(cmd: string)
    ensures IsClaudeStatusLineCommand(cmd) <==>
      (|| TrimSpace(cmd) == "flow hook claude-statusline"
       || exists mid: string :: TrimSpace(cmd) == "FLOW_ROOT=" + mid + ([' '] + "flow hook claude-statusline"))
  {
    TailText();
    RootPrefixHasNoSpace();
    RecognizedIff(cmd, ROOT_PREFIX, Spaced(WORDS));
  }

  // ---- the shell's reading of it ----

  lemma ReadQuotedOn(s: string, t: string, done: seq<string>)
    ensures HC.Read(HC.Reading(HC.Unquoted, Some(t), done), ShellQuote(s)) == HC.Reading(HC.Unquoted, Some(t + s), done)
  {
    var r := HC.Reading(HC.Unquoted, Some(t), done);
    HC.ReadConcat(r, ['\''] + HC.Escape(s), ['\'']);
    HC.ReadConcat(r, ['\''], HC.Escape(s));
    HC.ReadOne(r, '\'');
    HC.ReadEscaped(s, t, done);
    HC.ReadOne(HC.Reading(HC.Single, Some(t + s), done), '\'');
  }

  lemma {:induction false} ReadSpaced(words: seq<string>, done: seq<string>)
    requires words != [] && HC.AllPlain(words)
    ensures HC.Read(HC.Reading(HC.Unquoted, None, done), Spaced(words))
         == HC.Reading(HC.Unquoted, Some(words[|words| - 1]), done + words[..|words| - 1])
  {
    var w, r := words[0], HC.Reading(HC.Unquoted, None, done);
    HC.ReadWord(w, done);
    if |words| == 1 {
      assert done + words[..0] == done;
    } else {
      HC.ReadConcat(r, w + [' '], Spaced(words[1..]));
      HC.ReadConcat(r, w, [' ']);
      HC.ReadSpace(w, done);
      ReadSpaced(words[1..], done + [w]);
      assert done + [w] + words[1..][..|words| - 2] == done + words[..|words| - 1];
    }
  }

  lemma ReadRoot(prefix: string, root: string)
    requires HC.Plain(prefix)
    ensures HC.Read(HC.Reading(HC.Unquoted, None, []), prefix + ShellQuote(root) + [' '])
         == HC.Reading(HC.Unquoted, None, [prefix + root])
  {
    var r := HC.Reading(HC.Unquoted, None, []);
    HC.ReadConcat(r, prefix + ShellQuote(root), [' ']);
    HC.ReadConcat(r, prefix, ShellQuote(root));
    HC.ReadWord(prefix, []);
    ReadQuotedOn(root, prefix, []);
    HC.ReadSpace(prefix + root, []);
  }

  lemma CommandSplits(prefix: string, root: string, words: seq<string>)
    requires HC.Plain(prefix) && words != [] && HC.AllPlain(words)
    ensures HC.ShellSplit(Command(prefix, root, Spaced(words))) == Some([prefix + root] + words)
  {
    HC.ReadConcat(HC.Reading(HC.Unquoted, None, []), prefix + ShellQuote(root) + [' '], Spaced(words));
    ReadRoot(prefix, root);
    ReadSpaced(words, [prefix + root]);
    assert [prefix + root] + words[..|words| - 1] + [words[|words| - 1]] == [prefix + root] + words;
  }

  lemma TextsArePlain()
    ensures HC.Plain(ROOT_PREFIX) && HC.AllPlain(WORDS)
  {
    assert HC.Plain(WORDS[0]) && HC.Plain(WORDS[1]) && HC.Plain(WORDS[2]);
  }

  /** A shell reads the installed command as an assignment of the root, whatever characters it has, and
      flow's three words. */
  lemma InstallCommandSplits(root: string)
    ensures HC.ShellSplit(InstallCommand(root)) == Some([ROOT_PREFIX + root] + WORDS)
  {
    TextsArePlain();
    CommandSplits(ROOT_PREFIX, root, WORDS);
  }

  // ---- the settings installer on these texts ----

  function DialectOf(): CS.Dialect<string> {
    CS.Dialect("statusLine", "flowStatusLinePrevious", "hooks", "matcher", "command", "type", "command", [],
               TrimSpace, IsClaudeStatusLineCommand)
  }

  lemma EmptyIsForeign(prefix: string, tail: string)
    requires prefix != [] && tail != []
    ensures !Recognizes([], prefix, tail)
  {
  }

  lemma NamesDiffer()
    ensures "statusLine" != "flowStatusLinePrevious" && "command" != "type" && "matcher" != "hooks"
    ensures "hooks" != "statusLine" && "hooks" != "flowStatusLinePrevious"
  {
    assert |"statusLine"| != |"flowStatusLinePrevious"| && |"command"| != |"type"| && |"matcher"| != |"hooks"|;
    assert |"hooks"| < |"statusLine"|;
  }

  lemma DialectIsSound()
    ensures CS.Sound(DialectOf())
  {
    TailEnds();
    EmptyIsForeign(ROOT_PREFIX, Spaced(WORDS));
    NamesDiffer();
  }

  lemma OwnCommands(roots: seq<string>)
    ensures forall i :: 0 <= i < |roots| ==> CS.Own(DialectOf(), Commands(roots)[i])
  {
    forall i | 0 <= i < |roots| ensures CS.Own(DialectOf(), Commands(roots)[i]) {
      InstallCommandIsOwn(roots[i]);
    }
  }

  function Commands(roots: seq<string>): seq<string> {
    seq(|roots|, i requires 0 <= i < |roots| => InstallCommand(roots[i]))
  }

  /** One uninstall undoes any number of installs, whatever flow's roots were, exactly when the user had
      no saved status line and either none or one that is not flow's. */
  lemma StatusLineUndone(s: Fields<string>, roots: seq<string>)
    requires roots != []
    ensures var d := DialectOf();
      CS.LineUninstalled(d, CS.Installs(d, s, Commands(roots))) == s <==> CS.LineClean(d, s)
  {
    DialectIsSound();
    OwnCommands(roots);
    CS.InstallsThenUninstall(DialectOf(), s, Commands(roots));
  }

  const SESSION_START_HOOK := "flow hook session-start"
  const USER_PROMPT_HOOK := "flow hook user-prompt-submit"

  lemma HookCommandsAreTidy()
    ensures TrimSpace(SESSION_START_HOOK) == SESSION_START_HOOK && TrimSpace(USER_PROMPT_HOOK) == USER_PROMPT_HOOK
  {
    assert Tidy(SESSION_START_HOOK) && Tidy(USER_PROMPT_HOOK);
  }

  /** The same for any number of installs of either of flow's hooks, under any event and matcher. */
  lemma HookUndone(s: Fields<string>, event: string, matcher: string, command: string, n: nat)
    requires n > 0 && (command == SESSION_START_HOOK || command == USER_PROMPT_HOOK)
    ensures var d := DialectOf();
      CS.HookUninstalled(d, CS.HookInstalls(d, s, event, matcher, command, n), event, command) == s
      <==> CS.Clean(d, s, event, command)
  {
    DialectIsSound();
    HookCommandsAreTidy();
    CS.HookInstallsAreOne(DialectOf(), s, event, matcher, command, n);
    CS.HookRoundTrip(DialectOf(), s, event, matcher, command);
  }

  /** The hook that `flow skill install` installs, and the one that it removes. */
  function SessionStart(): CS.Hook<string> {
    CS.Hook("SessionStart", "startup|resume", SESSION_START_HOOK)
  }

  function UserPromptSubmit(): CS.Hook<string> {
    CS.Hook("UserPromptSubmit", [], USER_PROMPT_HOOK)
  }

  lemma HooksAreApart()
    ensures CS.Hooks(DialectOf(), SessionStart(), UserPromptSubmit())
  {
    HookCommandsAreTidy();
    assert |"SessionStart"| != |"UserPromptSubmit"|;
  }

  /** `flow skill install` any number of times, for any roots, and then `flow skill uninstall` once gives the
      user's settings back exactly when there was no saved status line and none of flow's own, no trace
      or empty group or container around the SessionStart hook, and none around the stale one. */
  lemma SkillUndone(s: Fields<string>, roots: seq<string>)
    requires roots != []
    ensures var d, start, prompt := DialectOf(), SessionStart(), UserPromptSubmit();
      CS.SkillUninstalled(d, CS.SkillInstalls(d, s, Commands(roots), start, prompt), start, prompt) == s <==>
      CS.LineClean(d, s) && CS.Clean(d, s, start.event, start.command)
      && !CS.AnyAffected(d, prompt.command, CS.Entries(d, s, prompt.event))
  {
    DialectIsSound();
    HooksAreApart();
    OwnCommands(roots);
    CS.SkillRoundTrip(DialectOf(), s, Commands(roots), SessionStart(), UserPromptSubmit());
  }

  lemma InstallCommandIsTidy(root: string)
    ensures TrimSpace(InstallCommand(root)) == InstallCommand(root)
  {
    TailEnds();
    CommandIsTidy(ROOT_PREFIX, root, Spaced(WORDS));
  }

  /** After `flow skill install` for a root, from any settings: the session-start hook is under SessionStart,
      no user-prompt-submit hook is left under UserPromptSubmit, and the status line's command is one that a
      shell reads as flow's three words with that root. */
  lemma SkillInstallShows(s: Fields<string>, root: string, event: string) returns (line: string)
    ensures HC.ShellSplit(line) == Some(["FLOW_ROOT=" + root] + WORDS)
    ensures var d := DialectOf();
      var t := CS.SkillInstalled(d, s, line, SessionStart(), UserPromptSubmit());
      && CS.Installed(d, SESSION_START_HOOK, CS.Entries(d, t, "SessionStart"))
      && !CS.AnyAffected(d, USER_PROMPT_HOOK, CS.Entries(d, t, "UserPromptSubmit"))
      && CS.HasLine(d, t) && TrimSpace(StringField(t[d.statusLine].fields, d.command, d.empty)) == line
      && (event != "SessionStart" && event != "UserPromptSubmit" ==> CS.Entries(d, t, event) == CS.Entries(d, s, event))
  {
    line := InstallCommand(root);
    InstallCommandSplits(root);
    InstallCommandIsOwn(root);
    InstallCommandIsTidy(root);
    DialectIsSound();
    HooksAreApart();
    CS.SkillInstallEffect(DialectOf(), s, line, SessionStart(), UserPromptSubmit(), event);
  }
}
