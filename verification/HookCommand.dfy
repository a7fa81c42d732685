/** The hook command lines flow registers (internal/agenthooks/provider.go), their shell quoting, and
    the functions that read provider and version back from them (internal/agenthooks/local.go). */
module HookCommand {
  import opened Text

  // ---- quoting ----

  /** strings.ReplaceAll(s, "'", `'\''`). */
  function Escape(s: string): string {
    if s == [] then [] else (if s[0] == '\'' then ['\'', '\\', '\'', '\''] else [s[0]]) + Escape(s[1..])
  }

  /** shellQuoteArg. */
  function ShellQuoteArg(arg: string): string {
    var s := TrimSpace(arg);
    if s == [] then ['\'', '\''] else ['\''] + Escape(s) + ['\'']
  }

  // ---- command lines, word by word ----

  /** Words, each followed by a space. */
  function Each(words: seq<string>): string {
    if words == [] then [] else words[0] + [' '] + Each(words[1..])
  }

  /** What buildHookCommand prints before the version number. */
  function Head(provider: string): seq<string> {
    MANAGED + [PROVIDER_FLAG, provider, VERSION_FLAG]
  }

  const MANAGED: seq<string> := ["flow", "hook", "agent-event"]
  const PROVIDER_FLAG := "--provider"
  const VERSION_FLAG := "--hook-version"

  /** The version stamped at this commit; the results are about every number. */
  const CURRENT_VERSION := "4"
  const URL_FLAG := "--url"

  /** The guard in front of a Codex hook: `[ "${FLOW_HOOK_OWNED:-}" = "1" ] || exit 0; exec `. */
  const GUARD: seq<string> := ["[", "\"${FLOW_HOOK_OWNED:-}\"", "=", "\"1\"", "]", "||", "exit", "0;", "exec"]

  function UrlPart(flag: string, url: string): string {
    var u := TrimSpace(url);
    if u == [] then [] else [' '] + flag + [' '] + ShellQuoteArg(u)
  }

  function Built(head: seq<string>, version: string, flag: string, url: string): string {
    Each(head) + version + UrlPart(flag, url)
  }

  function BuildHookCommand(provider: string, version: string, url: string): string {
    Built(Head(provider), version, URL_FLAG, url)
  }

  function Wrapped(outer: seq<string>, guard: seq<string>, command: string): string {
    Each(outer) + ShellQuoteArg(Each(guard) + command)
  }

  const OUTER: seq<string> := ["sh", "-c"]

  function FlowOwnedOnlyCommand(command: string): string {
    Wrapped(OUTER, GUARD, command)
  }

  function ClaudeCommand(version: string, url: string): string {
    BuildHookCommand("claude", version, url)
  }

  function CodexCommand(version: string, url: string): string {
    FlowOwnedOnlyCommand(BuildHookCommand("codex", version, url))
  }

  // ---- the shell's reading (section 2.2 of the POSIX.1-2017 Shell Command Language) ----

  datatype Mode = Unquoted | Backslash | Single | Double | DoubleBackslash

  /** What a shell has read so far: the word begun, if any, and the words complete. Refused stands for
      an expansion or an operator, which end this reading. */
  datatype Reading = Reading(mode: Mode, cur: Option<string>, done: seq<string>) | Refused

  /** Characters that mean more than themselves outside quotes and that this reading refuses. */
  predicate Special(c: char) {
    c in {'|', '&', ';', '<', '>', '(', ')', '$', '`', '\n', '*', '?', '[', '#', '~'}
  }

  function TextOf(cur: Option<string>): string {
    if cur.Some? then cur.value else []
  }

  function WordOf(cur: Option<string>): seq<string> {
    if cur.Some? then [cur.value] else []
  }

  /** The reading after one more character. */
  function Step(r: Reading, c: char): Reading {
    if r.Refused? then Refused
    else
      var more := Some(TextOf(r.cur) + [c]);
      match r.mode
      case Unquoted =>
        if c == ' ' || c == '\t' then Reading(Unquoted, None, r.done + WordOf(r.cur))
        else if c == '\'' then Reading(Single, Some(TextOf(r.cur)), r.done)
        else if c == '"' then Reading(Double, Some(TextOf(r.cur)), r.done)
        else if c == '\\' then Reading(Backslash, r.cur, r.done)
        else if Special(c) then Refused
        else Reading(Unquoted, more, r.done)
      case Backslash =>
        if c == '\n' then Reading(Unquoted, r.cur, r.done) else Reading(Unquoted, more, r.done)
      case Single =>
        if c == '\'' then Reading(Unquoted, r.cur, r.done) else Reading(Single, more, r.done)
      case Double =>
        if c == '"' then Reading(Unquoted, r.cur, r.done)
        else if c == '\\' then Reading(DoubleBackslash, r.cur, r.done)
        else if c == '$' || c == '`' then Refused
        else Reading(Double, more, r.done)
      case DoubleBackslash =>
        if c == '\n' then Reading(Double, r.cur, r.done)
        else if c in {'$', '`', '"', '\\'} then Reading(Double, more, r.done)
        else Reading(Double, Some(TextOf(r.cur) + ['\\', c]), r.done)
  }

  function Read(r: Reading, s: string): Reading
    decreases |s|
  {
    if s == [] then r else Read(Step(r, s[0]), s[1..])
  }

  /** The words of a simple command; None for an open quote, an expansion or an operator. */
  function ShellSplit(s: string): Option<seq<string>> {
    var r := Read(Reading(Unquoted, None, []), s);
    if r.Reading? && r.mode.Unquoted? then Some(r.done + WordOf(r.cur)) else None
  }

  /** A word the shell reads as itself. */
  predicate Plain(w: string) {
    w != [] && forall i :: 0 <= i < |w| ==> !Special(w[i]) && w[i] !in {' ', '\t', '\'', '"', '\\'}
  }

  ghost predicate AllPlain(words: seq<string>) {
    forall i :: 0 <= i < |words| ==> Plain(words[i])
  }

  // ---- reading words back ----

  lemma {:induction false} ReadConcat(r: Reading, a: string, b: string)
    ensures Read(r, a + b) == Read(Read(r, a), b)
    decreases |a|
  {
    if a == [] {
      assert a + b == b;
    } else {
      assert (a + b)[1..] == a[1..] + b;
      ReadConcat(Step(r, a[0]), a[1..], b);
    }
  }

  lemma ReadOne(r: Reading, c: char)
    ensures Read(r, [c]) == Step(r, c)
  {
    assert [c][1..] == [];
  }

  /** Inside quotes, an escaped text reads as the text. */
  lemma {:induction false} ReadEscaped(s: string, t: string, done: seq<string>)
    ensures Read(Reading(Single, Some(t), done), Escape(s)) == Reading(Single, Some(t + s), done)
  {
    var r := Reading(Single, Some(t), done);
    if s == [] {
      assert t + s == t;
    } else {
      var first := if s[0] == '\'' then ['\'', '\\', '\'', '\''] else [s[0]];
      ReadConcat(r, first, Escape(s[1..]));
      if s[0] == '\'' {
        ReadQuoteInQuote(t, done);
      } else {
        ReadOne(r, s[0]);
      }
      ReadEscaped(s[1..], t + [s[0]], done);
      assert t + [s[0]] + s[1..] == t + s;
    }
  }

  /** Closing the quote, an escaped quote, and opening it again adds one quote to the word. */
  lemma ReadQuoteInQuote(t: string, done: seq<string>)
    ensures Read(Reading(Single, Some(t), done), ['\'', '\\', '\'', '\'']) == Reading(Single, Some(t + ['\'']), done)
  {
    var r := Reading(Single, Some(t), done);
    ReadConcat(r, ['\'', '\\'], ['\'', '\'']);
    ReadConcat(r, ['\''], ['\\']);
    ReadOne(r, '\'');
    ReadOne(Reading(Unquoted, Some(t), done), '\\');
    ReadConcat(Reading(Backslash, Some(t), done), ['\''], ['\'']);
    ReadOne(Reading(Backslash, Some(t), done), '\'');
    ReadOne(Reading(Unquoted, Some(t + ['\'']), done), '\'');
    assert ['\'', '\\'] == ['\''] + ['\\'] && ['\'', '\''] == ['\''] + ['\''];
    assert ['\'', '\\', '\'', '\''] == ['\'', '\\'] + ['\'', '\''];
  }

  /** A quoted argument reads as one word: its trimmed text. */
  lemma ReadQuoted(arg: string, done: seq<string>)
    ensures Read(Reading(Unquoted, None, done), ShellQuoteArg(arg)) == Reading(Unquoted, Some(TrimSpace(arg)), done)
  {
    var s, r := TrimSpace(arg), Reading(Unquoted, None, done);
    assert ShellQuoteArg(arg) == ['\''] + Escape(s) + ['\''];
    ReadConcat(r, ['\''] + Escape(s), ['\'']);
    ReadConcat(r, ['\''], Escape(s));
    ReadOne(r, '\'');
    ReadEscaped(s, [], done);
    assert [] + s == s;
    ReadOne(Reading(Single, Some(s), done), '\'');
  }

  lemma ReadQuotedTidy(s: string, done: seq<string>)
    requires Tidy(s)
    ensures Read(Reading(Unquoted, None, done), ShellQuoteArg(s)) == Reading(Unquoted, Some(s), done)
  {
    ReadQuoted(s, done);
  }

  lemma {:induction false} ReadPlain(w: string, cur: Option<string>, done: seq<string>)
    requires Plain(w)
    ensures Read(Reading(Unquoted, cur, done), w) == Reading(Unquoted, Some(TextOf(cur) + w), done)
  {
    var next := Some(TextOf(cur) + [w[0]]);
    if |w| == 1 {
      assert w == [w[0]];
    } else {
      ReadPlain(w[1..], next, done);
      assert TextOf(next) + w[1..] == TextOf(cur) + w;
    }
  }

  lemma ReadWord(w: string, done: seq<string>)
    requires Plain(w)
    ensures Read(Reading(Unquoted, None, done), w) == Reading(Unquoted, Some(w), done)
  {
    ReadPlain(w, None, done);
    assert [] + w == w;
  }

  lemma ReadSpace(w: string, done: seq<string>)
    ensures Read(Reading(Unquoted, Some(w), done), [' ']) == Reading(Unquoted, None, done + [w])
  {
    ReadOne(Reading(Unquoted, Some(w), done), ' ');
  }

  lemma {:induction false} ReadEach(words: seq<string>, done: seq<string>)
    requires AllPlain(words)
    ensures Read(Reading(Unquoted, None, done), Each(words)) == Reading(Unquoted, None, done + words)
  {
    if words == [] {
      assert done + words == done;
    } else {
      var w, r := words[0], Reading(Unquoted, None, done);
      ReadConcat(r, w + [' '], Each(words[1..]));
      ReadConcat(r, w, [' ']);
      ReadWord(w, done);
      ReadSpace(w, done);
      ReadEach(words[1..], done + [w]);
      assert done + [w] + words[1..] == done + words;
    }
  }

  // ---- the commands ----

  lemma {:induction false} EachConcat(a: seq<string>, b: seq<string>)
    ensures Each(a + b) == Each(a) + Each(b)
  {
    if a == [] {
      assert a + b == b;
    } else {
      assert (a + b)[1..] == a[1..] + b;
      EachConcat(a[1..], b);
    }
  }

  lemma WordsArePlain()
    ensures Plain(MANAGED[0]) && Plain(MANAGED[1]) && Plain(MANAGED[2]) && Plain(OUTER[0]) && Plain(OUTER[1])
  {
  }

  lemma FlagsArePlain()
    ensures Plain(PROVIDER_FLAG) && Plain(VERSION_FLAG) && Plain(URL_FLAG)
  {
  }

  /** A version number as %d prints it. */
  predicate Digits(s: string) {
    s != [] && forall i :: 0 <= i < |s| ==> '0' <= s[i] <= '9'
  }

  lemma VersionIsPlain(version: string)
    requires Digits(version)
    ensures Plain(version) && !IsSpace(version[|version| - 1])
  {
  }

  lemma HeadIsPlain(provider: string)
    requires Plain(provider)
    ensures AllPlain(Head(provider)) && AllPlain(OUTER)
  {
    WordsArePlain();
    FlagsArePlain();
  }

  function UrlWords(flag: string, url: string): seq<string> {
    if TrimSpace(url) == [] then [] else [flag, TrimSpace(url)]
  }

  lemma ReadUrlPart(flag: string, url: string, w: string, done: seq<string>)
    requires Plain(flag) && TrimSpace(url) != []
    ensures Read(Reading(Unquoted, Some(w), done), UrlPart(flag, url))
         == Reading(Unquoted, Some(TrimSpace(url)), done + [w, flag])
  {
    var r, u := Reading(Unquoted, Some(w), done), TrimSpace(url);
    ReadConcat(r, [' '] + flag + [' '], ShellQuoteArg(u));
    ReadConcat(r, [' '] + flag, [' ']);
    ReadConcat(r, [' '], flag);
    ReadSpace(w, done);
    ReadWord(flag, done + [w]);
    ReadSpace(flag, done + [w]);
    assert done + [w] + [flag] == done + [w, flag];
    ReadQuoted(u, done + [w, flag]);
  }

  lemma ReadVersion(head: seq<string>, version: string)
    requires AllPlain(head) && Plain(version)
    ensures Read(Reading(Unquoted, None, []), Each(head) + version) == Reading(Unquoted, Some(version), head)
  {
    ReadConcat(Reading(Unquoted, None, []), Each(head), version);
    ReadEach(head, []);
    assert [] + head == head;
    ReadWord(version, head);
  }

  lemma BuiltReads(head: seq<string>, version: string, part: string, last: Reading)
    requires AllPlain(head) && Plain(version) && Read(Reading(Unquoted, Some(version), head), part) == last
    ensures Read(Reading(Unquoted, None, []), Each(head) + version + part) == last
  {
    ReadVersion(head, version);
    ReadConcat(Reading(Unquoted, None, []), Each(head) + version, part);
  }

  lemma AppendTwo(head: seq<string>, a: string, b: string, c: string)
    ensures head + [a, b] + [c] == head + [a] + [b, c]
  {
  }

  lemma BuiltSplits(head: seq<string>, version: string, flag: string, url: string)
    requires AllPlain(head) && Plain(version) && Plain(flag)
    ensures ShellSplit(Built(head, version, flag, url)) == Some(head + [version] + UrlWords(flag, url))
  {
    var u := TrimSpace(url);
    if u != [] {
      ReadUrlPart(flag, url, version, head);
      BuiltReads(head, version, UrlPart(flag, url), Reading(Unquoted, Some(u), head + [version, flag]));
      AppendTwo(head, version, flag, u);
    } else {
      BuiltReads(head, version, [], Reading(Unquoted, Some(version), head));
      assert head + [version] + [] == head + [version];
    }
  }

  /** What buildHookCommand prints splits into its words; a URL is one word, trimmed, whatever it contains. */
  lemma BuiltCommandSplits(provider: string, version: string, url: string)
    requires Plain(provider)
    requires Digits(version)
    ensures ShellSplit(BuildHookCommand(provider, version, url))
         == Some(Head(provider) + [version] + UrlWords(URL_FLAG, url))
  {
    HeadIsPlain(provider);
    FlagsArePlain();
    VersionIsPlain(version);
    BuiltSplits(Head(provider), version, URL_FLAG, url);
  }

  /** A command that starts with a non-space and ends in its version or in a quote is not changed by trimming. */
  lemma BuiltIsTidy(head: seq<string>, version: string, flag: string, url: string)
    requires head != [] && head[0] != [] && !IsSpace(head[0][0])
    requires version != [] && !IsSpace(version[|version| - 1])
    ensures Built(head, version, flag, url) != [] && Tidy(Built(head, version, flag, url))
  {
    var c, part := Built(head, version, flag, url), UrlPart(flag, url);
    assert Each(head)[0] == head[0][0] && c[0] == Each(head)[0];
    if part == [] {
      assert c[|c| - 1] == version[|version| - 1];
    } else {
      assert part[|part| - 1] == '\'';
      assert c[|c| - 1] == part[|part| - 1];
    }
  }

  lemma BuiltConcat(guard: seq<string>, head: seq<string>, version: string, flag: string, url: string)
    ensures Each(guard) + Built(head, version, flag, url) == Built(guard + head, version, flag, url)
  {
    EachConcat(guard, head);
    Associate3(Each(guard), Each(head), version, UrlPart(flag, url));
  }

  lemma Associate3(a: string, b: string, c: string, d: string)
    ensures a + (b + c + d) == a + b + c + d
  {
  }

  lemma ScriptIsTidy(guard: seq<string>, head: seq<string>, version: string, flag: string, url: string)
    requires guard != [] && guard[0] != [] && !IsSpace(guard[0][0])
    requires version != [] && !IsSpace(version[|version| - 1])
    ensures var script := Each(guard) + Built(head, version, flag, url);
      script != [] && Tidy(script)
  {
    BuiltConcat(guard, head, version, flag, url);
    BuiltIsTidy(guard + head, version, flag, url);
  }

  lemma WordsThenOne(outer: seq<string>, q: string, s: string)
    requires AllPlain(outer) && Read(Reading(Unquoted, None, outer), q) == Reading(Unquoted, Some(s), outer)
    ensures ShellSplit(Each(outer) + q) == Some(outer + [s])
  {
    ReadConcat(Reading(Unquoted, None, []), Each(outer), q);
    ReadEach(outer, []);
    assert [] + outer == outer;
  }

  lemma QuotedSplits(outer: seq<string>, s: string)
    requires AllPlain(outer) && Tidy(s)
    ensures ShellSplit(Each(outer) + ShellQuoteArg(s)) == Some(outer + [s])
  {
    ReadQuotedTidy(s, outer);
    WordsThenOne(outer, ShellQuoteArg(s), s);
  }

  lemma WrappedSplits(outer: seq<string>, guard: seq<string>, command: string)
    requires AllPlain(outer) && Tidy(Each(guard) + command)
    ensures ShellSplit(Wrapped(outer, guard, command)) == Some(outer + [Each(guard) + command])
  {
    QuotedSplits(outer, Each(guard) + command);
  }

  lemma DropPrefix(a: string, b: string)
    ensures (a + b)[|a|..] == b
  {
  }

  lemma WrappedBuiltSplits(outer: seq<string>, guard: seq<string>, head: seq<string>, version: string, flag: string,
      url: string)
    requires AllPlain(outer) && guard != [] && guard[0] != [] && !IsSpace(guard[0][0])
    requires version != [] && !IsSpace(version[|version| - 1])
    ensures ShellSplit(Wrapped(outer, guard, Built(head, version, flag, url)))
         == Some(outer + [Each(guard) + Built(head, version, flag, url)])
  {
    ScriptIsTidy(guard, head, version, flag, url);
    WrappedSplits(outer, guard, Built(head, version, flag, url));
  }

  lemma OuterIsPlain()
    ensures AllPlain(OUTER)
  {
    WordsArePlain();
  }

  lemma CodexOuterSplits(version: string, url: string)
    requires Digits(version)
    ensures ShellSplit(CodexCommand(version, url))
         == Some(OUTER + [Each(GUARD) + BuildHookCommand("codex", version, url)])
  {
    OuterIsPlain();
    VersionIsPlain(version);
    WrappedBuiltSplits(OUTER, GUARD, Head("codex"), version, URL_FLAG, url);
  }

  lemma CodexInnerSplits(version: string, url: string)
    requires Digits(version)
    ensures ShellSplit(BuildHookCommand("codex", version, url))
         == Some(Head("codex") + [version] + UrlWords(URL_FLAG, url))
  {
    assert Plain("codex");
    BuiltCommandSplits("codex", version, url);
  }

  /** Both shells' readings of the Codex hook: the outer command is sh, -c and the script; the command
      that the script executes splits as built, so the trimmed URL is its last word. */
  lemma CodexCommandSplits(version: string, url: string)
    requires Digits(version)
    ensures var script := Each(GUARD) + BuildHookCommand("codex", version, url);
      && ShellSplit(CodexCommand(version, url)) == Some(OUTER + [script])
      && ShellSplit(script[|Each(GUARD)|..]) == Some(Head("codex") + [version] + UrlWords(URL_FLAG, url))
  {
    CodexOuterSplits(version, url);
    CodexInnerSplits(version, url);
    DropPrefix(Each(GUARD), BuildHookCommand("codex", version, url));
  }

  /** The words of a built command, and so of the Claude hook, spelled out. */
  lemma ClaudeCommandSplits(version: string, url: string)
    requires Digits(version)
    ensures ShellSplit(ClaudeCommand(version, url)) ==
      Some(["flow", "hook", "agent-event", "--provider", "claude", "--hook-version", version]
           + if TrimSpace(url) == [] then [] else ["--url", TrimSpace(url)])
  {
    ClaudeIsPlain();
    BuiltCommandSplits("claude", version, url);
    HeadWords("claude", version, url);
  }

  lemma ClaudeIsPlain()
    ensures Plain("claude")
  {
  }

  lemma HeadWords(provider: string, version: string, url: string)
    ensures Head(provider) + [version] + UrlWords(URL_FLAG, url)
         == ["flow", "hook", "agent-event", "--provider", provider, "--hook-version", version]
            + if TrimSpace(url) == [] then [] else ["--url", TrimSpace(url)]
  {
  }

  // ---- reading provider and version back ----

  /** strings.Fields in progress: the field begun and the fields complete. */
  datatype Fielding = Fielding(cur: string, done: seq<string>)

  function FieldStep(f: Fielding, c: char): Fielding {
    if !IsSpace(c) then Fielding(f.cur + [c], f.done)
    else Fielding([], Finished(f))
  }

  function Finished(f: Fielding): seq<string> {
    if f.cur == [] then f.done else f.done + [f.cur]
  }

  function ReadFields(f: Fielding, s: string): Fielding
    decreases |s|
  {
    if s == [] then f else ReadFields(FieldStep(f, s[0]), s[1..])
  }

  /** strings.Fields. */
  function Fields(s: string): seq<string> {
    Finished(ReadFields(Fielding([], []), s))
  }

  predicate IsQuote(c: char) {
    c == '"' || c == '\''
  }

  /** strings.Trim(s, `"'`). */
  function TrimQuotes(s: string): string
    decreases |s|
  {
    if s == [] then []
    else if IsQuote(s[0]) then TrimQuotes(s[1..])
    else if IsQuote(s[|s| - 1]) then TrimQuotes(s[..|s| - 1])
    else s
  }

  predicate HasPrefix(s: string, prefix: string) {
    |prefix| <= |s| && s[..|prefix|] == prefix
  }

  /** The value of a flag, given as the next field or after an equals sign. */
  function FlagArg(fields: seq<string>, flag: string): Option<string> {
    if fields == [] then None
    else
      var field := TrimQuotes(fields[0]);
      if field == flag && |fields| > 1 then Some(TrimQuotes(fields[1]))
      else if HasPrefix(field, flag + ['=']) then Some(TrimQuotes(field[|flag| + 1..]))
      else FlagArg(fields[1..], flag)
  }

  /** The field carries the flag's value: the next field, or what follows its own equals sign. */
  function ValueAt(fields: seq<string>, flag: string, i: nat): Option<string>
    requires i < |fields|
  {
    var field := TrimQuotes(fields[i]);
    if field == flag && i + 1 < |fields| then Some(TrimQuotes(fields[i + 1]))
    else if HasPrefix(field, flag + ['=']) then Some(TrimQuotes(field[|flag| + 1..]))
    else None
  }

  /** The first field that carries a value decides. */
  lemma {:induction false} FirstFlagDecides(fields: seq<string>, flag: string, i: nat)
    requires i < |fields| && forall j: nat :: j < i ==> ValueAt(fields, flag, j).None?
    ensures ValueAt(fields, flag, i).Some? ==> FlagArg(fields, flag) == ValueAt(fields, flag, i)
    ensures ValueAt(fields, flag, i).None? && i == |fields| - 1 ==> FlagArg(fields, flag) == None
  {
    if i > 0 {
      assert ValueAt(fields, flag, 0).None?;
      forall j: nat | j < i ensures ValueAt(fields[1..], flag, j) == ValueAt(fields, flag, j + 1) {
      }
      assert ValueAt(fields[1..], flag, i - 1) == ValueAt(fields, flag, i);
      FirstFlagDecides(fields[1..], flag, i - 1);
    }
  }

  function HookProvider(command: string): string {
    var arg := FlagArg(Fields(command), PROVIDER_FLAG);
    if arg.Some? then arg.value else []
  }

  const MAX_INT64: int := 0x7FFF_FFFF_FFFF_FFFF

  function Decimal(s: string): nat
    requires Digits(s)
  {
    var last := s[|s| - 1] as int - '0' as int;
    if |s| == 1 then last else 10 * Decimal(s[..|s| - 1]) + last
  }

  /** strconv.Atoi on a 64-bit machine; None stands for its error. */
  function Atoi(s: string): Option<int> {
    var negative := s != [] && s[0] == '-';
    var digits := if s != [] && s[0] in {'-', '+'} then s[1..] else s;
    if !Digits(digits) then None
    else
      var n: int := Decimal(digits);
      if negative then if n <= MAX_INT64 + 1 then Some(-n) else None
      else if n <= MAX_INT64 then Some(n) else None
  }

  function HookVersionFromCommand(command: string): int {
    var arg := FlagArg(Fields(command), VERSION_FLAG);
    if arg.None? then 0
    else
      var n := Atoi(arg.value);
      if n.Some? then n.value else 0
  }

  const MANAGED_TEXT := "hook agent-event"

  function SameManagedAgentHookCommand(existing: string, desired: string): bool {
    var e, d := TrimSpace(existing), TrimSpace(desired);
    && e != [] && d != []
    && Contains(e, MANAGED_TEXT) && Contains(d, MANAGED_TEXT)
    && HookProvider(e) != [] && HookProvider(e) == HookProvider(d)
  }

  /** A nonempty word without white space. */
  predicate Solid(w: string) {
    w != [] && forall i :: 0 <= i < |w| ==> !IsSpace(w[i])
  }

  ghost predicate AllSolid(words: seq<string>) {
    forall i :: 0 <= i < |words| ==> Solid(words[i])
  }

  lemma {:induction false} FieldsConcat(f: Fielding, a: string, b: string)
    ensures ReadFields(f, a + b) == ReadFields(ReadFields(f, a), b)
    decreases |a|
  {
    if a == [] {
      assert a + b == b;
    } else {
      assert (a + b)[1..] == a[1..] + b;
      FieldsConcat(FieldStep(f, a[0]), a[1..], b);
    }
  }

  lemma {:induction false} FieldsWord(w: string, cur: string, done: seq<string>)
    requires Solid(w)
    ensures ReadFields(Fielding(cur, done), w) == Fielding(cur + w, done)
    decreases |w|
  {
    if |w| == 1 {
      assert cur + w == cur + [w[0]];
    } else {
      FieldsWord(w[1..], cur + [w[0]], done);
      assert cur + [w[0]] + w[1..] == cur + w;
    }
  }

  lemma FieldsOneWord(w: string, done: seq<string>)
    requires Solid(w)
    ensures ReadFields(Fielding([], done), w) == Fielding(w, done)
  {
    FieldsWord(w, [], done);
    assert [] + w == w;
  }

  lemma FieldsSpace(f: Fielding)
    ensures ReadFields(f, [' ']) == Fielding([], Finished(f))
  {
  }

  lemma {:induction false} FieldsEach(words: seq<string>, done: seq<string>)
    requires AllSolid(words)
    ensures ReadFields(Fielding([], done), Each(words)) == Fielding([], done + words)
  {
    if words == [] {
      assert done + words == done;
    } else {
      var w, f := words[0], Fielding([], done);
      FieldsConcat(f, w + [' '], Each(words[1..]));
      FieldsConcat(f, w, [' ']);
      FieldsOneWord(w, done);
      FieldsSpace(Fielding(w, done));
      FieldsEach(words[1..], done + [w]);
      assert done + [w] + words[1..] == done + words;
    }
  }

  /** Reading on never changes the fields complete. */
  lemma {:induction false} FieldsKeep(f: Fielding, s: string)
    ensures f.done <= ReadFields(f, s).done
    decreases |s|
  {
    if s != [] {
      FieldsKeep(FieldStep(f, s[0]), s[1..]);
    }
  }

  /** The first fields of a text that starts with words and one more word, up to its end or a space. */
  lemma FieldsStart(words: seq<string>, w: string, more: string)
    requires AllSolid(words) && Solid(w) && (more == [] || IsSpace(more[0]))
    ensures words + [w] <= Fields(Each(words) + w + more)
  {
    var f := Fielding([], []);
    FieldsConcat(f, Each(words) + w, more);
    FieldsConcat(f, Each(words), w);
    FieldsEach(words, []);
    assert [] + words == words;
    FieldsOneWord(w, words);
    if more != [] {
      FieldsKeep(FieldStep(Fielding(w, words), more[0]), more[1..]);
    }
  }

  /** A word no flag is read from. */
  predicate Quiet(w: string) {
    !HasPrefix(TrimQuotes(w), ['-', '-'])
  }

  ghost predicate AllQuiet(words: seq<string>) {
    forall i :: 0 <= i < |words| ==> Quiet(words[i])
  }

  lemma {:induction false} FlagArgSkips(quiet: seq<string>, rest: seq<string>, flag: string)
    requires AllQuiet(quiet) && HasPrefix(flag, ['-', '-'])
    ensures FlagArg(quiet + rest, flag) == FlagArg(rest, flag)
  {
    if quiet == [] {
      assert quiet + rest == rest;
    } else {
      var field := TrimQuotes(quiet[0]);
      assert (quiet + rest)[1..] == quiet[1..] + rest && (quiet + rest)[0] == quiet[0];
      assert field != flag && !HasPrefix(field, flag + ['=']);
      FlagArgSkips(quiet[1..], rest, flag);
    }
  }

  /** Past its leading quotes, a word's first character is what trimming quotes leaves first. */
  lemma {:induction false} TrimStart(w: string, i: nat)
    requires i < |w| && !IsQuote(w[i]) && forall k :: 0 <= k < i ==> IsQuote(w[k])
    ensures TrimQuotes(w) != [] && TrimQuotes(w)[0] == w[i]
    decreases |w|
  {
    if i > 0 {
      TrimStart(w[1..], i - 1);
    } else if IsQuote(w[|w| - 1]) {
      TrimStart(w[..|w| - 1], 0);
    }
  }

  lemma TrimNothing(w: string)
    requires w != [] && !IsQuote(w[0]) && !IsQuote(w[|w| - 1])
    ensures TrimQuotes(w) == w
  {
  }

  lemma QuietByStart(w: string, i: nat)
    requires i < |w| && !IsQuote(w[i]) && w[i] != '-' && forall k :: 0 <= k < i ==> IsQuote(w[k])
    ensures Quiet(w)
  {
    TrimStart(w, i);
  }

  /** A pair of flags and a version word that read back as themselves. */
  ghost predicate Readable(pf: string, provider: string, vf: string) {
    && HasPrefix(pf, ['-', '-']) && HasPrefix(vf, ['-', '-'])
    && TrimQuotes(pf) == pf && TrimQuotes(vf) == vf && TrimQuotes(provider) == provider
    && Quiet(provider) && pf != vf && !HasPrefix(pf, vf + ['='])
  }

  lemma FlagArgHere(flag: string, w: string, rest: seq<string>)
    requires TrimQuotes(flag) == flag
    ensures FlagArg([flag, w] + rest, flag) == Some(TrimQuotes(w))
  {
  }

  lemma FlagArgNext(pf: string, provider: string, vf: string, rest: seq<string>)
    requires Readable(pf, provider, vf)
    ensures FlagArg([pf, provider] + rest, vf) == FlagArg(rest, vf)
  {
    assert ([pf, provider] + rest)[1..] == [provider] + rest;
    FlagArgSkips([provider], rest, vf);
  }

  /** A command whose flags come after quiet words reads back as its provider and its version word. */
  lemma FlagsReadBack(quiet: seq<string>, pf: string, provider: string, vf: string, v: string, fields: seq<string>)
    requires AllQuiet(quiet) && Readable(pf, provider, vf)
    requires quiet + [pf, provider, vf] + [v] <= fields
    ensures FlagArg(fields, pf) == Some(provider)
    ensures FlagArg(fields, vf) == Some(TrimQuotes(v))
  {
    var rest := fields[|quiet| + 4..];
    assert fields == quiet + ([pf, provider] + ([vf, v] + rest));
    FlagArgSkips(quiet, [pf, provider] + ([vf, v] + rest), pf);
    FlagArgHere(pf, provider, [vf, v] + rest);
    FlagArgSkips(quiet, [pf, provider] + ([vf, v] + rest), vf);
    FlagArgNext(pf, provider, vf, [vf, v] + rest);
    FlagArgHere(vf, v, rest);
  }

  // ---- the installed commands read back ----

  lemma {:induction false} EscapeConcat(a: string, b: string)
    ensures Escape(a + b) == Escape(a) + Escape(b)
  {
    if a == [] {
      assert a + b == b;
    } else {
      assert (a + b)[1..] == a[1..] + b;
      EscapeConcat(a[1..], b);
    }
  }

  predicate NoSingle(s: string) {
    forall i :: 0 <= i < |s| ==> s[i] != '\''
  }

  ghost predicate AllNoSingle(words: seq<string>) {
    forall i :: 0 <= i < |words| ==> NoSingle(words[i])
  }

  lemma {:induction false} EscapeNothing(s: string)
    requires NoSingle(s)
    ensures Escape(s) == s
  {
    if s != [] {
      EscapeNothing(s[1..]);
    }
  }

  lemma {:induction false} EscapeEach(words: seq<string>)
    requires AllNoSingle(words)
    ensures Escape(Each(words)) == Each(words)
  {
    if words != [] {
      EscapeConcat(words[0] + [' '], Each(words[1..]));
      EscapeNothing(words[0] + [' ']);
      EscapeEach(words[1..]);
    }
  }

  /** The guard with its opening quote. */
  function Opened(guard: seq<string>): seq<string>
    requires guard != []
  {
    [['\''] + guard[0]] + guard[1..]
  }

  lemma EscapeScript(guard: seq<string>, head: seq<string>, version: string, part: string)
    requires AllNoSingle(guard) && AllNoSingle(head) && NoSingle(version)
    ensures Escape(Each(guard) + (Each(head) + version + part)) == Each(guard) + (Each(head) + version + Escape(part))
  {
    EscapeConcat(Each(guard), Each(head) + version + part);
    EscapeConcat(Each(head) + version, part);
    EscapeConcat(Each(head), version);
    EscapeEach(guard);
    EscapeEach(head);
    EscapeNothing(version);
  }

  lemma EachOpened(outer: seq<string>, guard: seq<string>, head: seq<string>)
    requires guard != []
    ensures Each(outer + Opened(guard) + head) == Each(outer) + ['\''] + Each(guard) + Each(head)
  {
    EachConcat(outer + Opened(guard), head);
    EachConcat(outer, Opened(guard));
    assert Opened(guard)[1..] == guard[1..];
    assert Each(Opened(guard)) == ['\''] + Each(guard);
  }

  lemma Regroup(a: string, q: string, g: string, h: string, v: string, p: string)
    ensures a + (q + (g + (h + v + p)) + q) == a + q + g + h + v + (p + q)
  {
  }

  /** The wrapped command as the words in front of the version and what follows it. */
  lemma WrappedText(outer: seq<string>, guard: seq<string>, head: seq<string>, version: string, part: string)
    requires guard != [] && AllNoSingle(guard) && AllNoSingle(head) && NoSingle(version)
    requires var script := Each(guard) + (Each(head) + version + part);
      script != [] && Tidy(script)
    ensures Wrapped(outer, guard, Each(head) + version + part)
         == Each(outer + Opened(guard) + head) + version + (Escape(part) + ['\''])
  {
    EscapeScript(guard, head, version, part);
    EachOpened(outer, guard, head);
    Regroup(Each(outer), ['\''], Each(guard), Each(head), version, Escape(part));
  }

  lemma TrimClosingQuote(w: string)
    requires w != [] && !IsQuote(w[0]) && !IsQuote(w[|w| - 1])
    ensures TrimQuotes(w + ['\'']) == w
  {
    assert (w + ['\''])[..|w|] == w;
  }

  lemma {:induction false} EscapeStart(part: string)
    requires part != [] && part[0] == ' '
    ensures Escape(part) != [] && Escape(part)[0] == ' '
  {
  }

  /** The leading fields of a wrapped command. */
  lemma WrappedFields(words: seq<string>, version: string, part: string) returns (v: string)
    requires AllSolid(words) && Solid(version) && !IsQuote(version[0]) && !IsQuote(version[|version| - 1])
    requires part == [] || part[0] == ' '
    ensures words + [v] <= Fields(Each(words) + version + (Escape(part) + ['\''])) && TrimQuotes(v) == version
  {
    if part == [] {
      v := version + ['\''];
      TrimClosingQuote(version);
      FieldsStart(words, v, []);
      assert Each(words) + version + (Escape(part) + ['\'']) == Each(words) + v + [];
    } else {
      v := version;
      TrimNothing(version);
      EscapeStart(part);
      FieldsStart(words, v, Escape(part) + ['\'']);
    }
  }

  lemma FlagsRead(provider: string)
    requires provider != [] && !IsQuote(provider[0]) && !IsQuote(provider[|provider| - 1]) && provider[0] != '-'
    ensures Readable(PROVIDER_FLAG, provider, VERSION_FLAG)
  {
    TrimNothing(PROVIDER_FLAG);
    TrimNothing(VERSION_FLAG);
    TrimNothing(provider);
    QuietByStart(provider, 0);
  }

  lemma ManagedIsQuiet()
    ensures AllQuiet(MANAGED)
  {
    QuietByStart(MANAGED[0], 0);
    QuietByStart(MANAGED[1], 0);
    QuietByStart(MANAGED[2], 0);
  }

  lemma ManagedWords()
    ensures AllSolid(MANAGED) && AllNoSingle(MANAGED)
  {
    assert Solid(MANAGED[0]) && Solid(MANAGED[1]) && Solid(MANAGED[2]);
    assert NoSingle(MANAGED[0]) && NoSingle(MANAGED[1]) && NoSingle(MANAGED[2]);
  }

  lemma FlagWords()
    ensures Solid(PROVIDER_FLAG) && Solid(VERSION_FLAG) && NoSingle(PROVIDER_FLAG) && NoSingle(VERSION_FLAG)
  {
  }

  lemma VersionWord(version: string)
    requires Digits(version)
    ensures Solid(version) && NoSingle(version) && !IsQuote(version[0]) && !IsQuote(version[|version| - 1])
  {
  }

  lemma OuterWords()
    ensures AllQuiet(OUTER) && AllSolid(OUTER)
  {
    QuietByStart(OUTER[0], 0);
    TrimNothing(OUTER[1]);
  }

  lemma GuardIsSolid()
    ensures AllSolid(Opened(GUARD))
  {
  }

  lemma GuardHasNoSingle()
    ensures AllNoSingle(GUARD)
  {
  }

  lemma GuardIsQuiet()
    ensures AllQuiet(Opened(GUARD))
  {
    var g := Opened(GUARD);
    QuietByStart(g[0], 1);
    QuietByStart(g[1], 1);
    QuietByStart(g[2], 0);
    QuietByStart(g[3], 1);
    QuietByStart(g[4], 0);
    QuietByStart(g[5], 0);
    QuietByStart(g[6], 0);
    QuietByStart(g[7], 0);
    QuietByStart(g[8], 0);
  }

  lemma VersionReads(version: string)
    requires Digits(version)
    ensures Atoi(version) == if Decimal(version) <= MAX_INT64 then Some(Decimal(version) as int) else None
  {
    assert version[0] != '-' && version[0] != '+';
  }

  /** The number that a version reads back as: 0 when it does not fit. */
  function ReadVersionNumber(version: string): int
    requires Digits(version)
  {
    if Decimal(version) <= MAX_INT64 then Decimal(version) else 0
  }

  lemma CurrentVersionReads()
    ensures Digits(CURRENT_VERSION) && ReadVersionNumber(CURRENT_VERSION) == 4
  {
  }

  lemma UrlPartStart(url: string)
    ensures UrlPart(URL_FLAG, url) == [] || UrlPart(URL_FLAG, url)[0] == ' '
  {
  }

  lemma ClaudeFields(version: string, url: string)
    requires Digits(version)
    ensures MANAGED + [PROVIDER_FLAG, "claude", VERSION_FLAG] + [version] <= Fields(ClaudeCommand(version, url))
  {
    ManagedWords();
    FlagWords();
    VersionWord(version);
    UrlPartStart(url);
    FieldsStart(Head("claude"), version, UrlPart(URL_FLAG, url));
  }

  /** An installed Claude command reads back as provider claude and its version, whatever its URL. */
  lemma ClaudeReadsBack(version: string, url: string)
    requires Digits(version)
    ensures HookProvider(ClaudeCommand(version, url)) == "claude"
    ensures HookVersionFromCommand(ClaudeCommand(version, url)) == ReadVersionNumber(version)
  {
    ClaudeFields(version, url);
    ManagedIsQuiet();
    FlagsRead("claude");
    FlagsReadBack(MANAGED, PROVIDER_FLAG, "claude", VERSION_FLAG, version, Fields(ClaudeCommand(version, url)));
    VersionWord(version);
    TrimNothing(version);
    VersionReads(version);
  }

  lemma CodexText(version: string, url: string)
    requires Digits(version)
    ensures CodexCommand(version, url)
         == Each(OUTER + Opened(GUARD) + Head("codex")) + version + (Escape(UrlPart(URL_FLAG, url)) + ['\''])
  {
    GuardHasNoSingle();
    ManagedWords();
    FlagWords();
    VersionWord(version);
    VersionIsPlain(version);
    assert NoSingle("codex");
    assert AllNoSingle(Head("codex"));
    ScriptIsTidy(GUARD, Head("codex"), version, URL_FLAG, url);
    WrappedText(OUTER, GUARD, Head("codex"), version, UrlPart(URL_FLAG, url));
  }

  lemma CodexWords()
    ensures AllSolid(OUTER + Opened(GUARD) + Head("codex")) && AllQuiet(OUTER + Opened(GUARD) + MANAGED)
  {
    OuterWords();
    GuardIsSolid();
    GuardIsQuiet();
    ManagedIsQuiet();
    ManagedWords();
    FlagWords();
    assert Solid("codex");
  }

  lemma CodexFields(version: string, url: string) returns (v: string)
    requires Digits(version)
    ensures OUTER + Opened(GUARD) + Head("codex") + [v] <= Fields(CodexCommand(version, url))
    ensures TrimQuotes(v) == version
  {
    CodexText(version, url);
    CodexWords();
    FlagWords();
    VersionWord(version);
    UrlPartStart(url);
    v := WrappedFields(OUTER + Opened(GUARD) + Head("codex"), version, UrlPart(URL_FLAG, url));
  }

  lemma FlagsReadBackWithin(a: seq<string>, b: seq<string>, pf: string, provider: string, vf: string, v: string,
      fields: seq<string>)
    requires AllQuiet(a + b) && Readable(pf, provider, vf)
    requires a + (b + [pf, provider, vf]) + [v] <= fields
    ensures FlagArg(fields, pf) == Some(provider)
    ensures FlagArg(fields, vf) == Some(TrimQuotes(v))
  {
    assert a + (b + [pf, provider, vf]) == a + b + [pf, provider, vf];
    FlagsReadBack(a + b, pf, provider, vf, v, fields);
  }

  /** An installed Codex command, quoted twice, reads back as provider codex and its
      version, whatever its URL. */
  lemma CodexReadsBack(version: string, url: string)
    requires Digits(version)
    ensures HookProvider(CodexCommand(version, url)) == "codex"
    ensures HookVersionFromCommand(CodexCommand(version, url)) == ReadVersionNumber(version)
  {
    var v := CodexFields(version, url);
    CodexWords();
    FlagsRead("codex");
    FlagsReadBackWithin(OUTER + Opened(GUARD), MANAGED, PROVIDER_FLAG, "codex", VERSION_FLAG, v,
                        Fields(CodexCommand(version, url)));
    VersionReads(version);
  }

  // ---- which commands replace which ----

  lemma OccursWithin(a: string, t: string, b: string)
    ensures Occurs(a + t + b, t)
  {
    assert OccursAt(a + t + b, t, |a|);
  }

  lemma ManagedTextIs()
    ensures Each(MANAGED) == MANAGED[0] + [' '] + MANAGED_TEXT + [' ']
  {
    assert MANAGED[1..] == [MANAGED[1], MANAGED[2]] && MANAGED[2..] == [MANAGED[2]];
    assert MANAGED_TEXT == MANAGED[1] + [' '] + MANAGED[2];
  }

  /** A text that contains the managed words contains the text the installer looks for. */
  lemma ContainsManaged(a: seq<string>, b: seq<string>, rest: string)
    ensures Occurs(Each(a + (MANAGED + b)) + rest, MANAGED_TEXT)
  {
    ManagedTextIs();
    EachConcat(a, MANAGED + b);
    EachConcat(MANAGED, b);
    var before, after := Each(a) + (MANAGED[0] + [' ']), [' '] + Each(b) + rest;
    OccursWithin(before, MANAGED_TEXT, after);
    RegroupAround(Each(a), MANAGED[0] + [' '], MANAGED_TEXT, [' '], Each(b), rest);
  }

  lemma RegroupAround(a: string, w: string, t: string, q: string, b: string, rest: string)
    ensures a + w + t + (q + b + rest) == a + (w + t + q + b) + rest
  {
  }

  lemma ClaudeIsManaged(version: string, url: string)
    requires Digits(version)
    ensures Occurs(ClaudeCommand(version, url), MANAGED_TEXT)
  {
    var part := UrlPart(URL_FLAG, url);
    ContainsManaged([], [PROVIDER_FLAG, "claude", VERSION_FLAG], version + part);
    assert [] + Head("claude") == Head("claude");
    Associate(Each(Head("claude")), version, part);
  }

  lemma Associate(a: string, b: string, c: string)
    ensures a + b + c == a + (b + c)
  {
  }

  lemma CodexIsManaged(version: string, url: string)
    requires Digits(version)
    ensures Occurs(CodexCommand(version, url), MANAGED_TEXT)
  {
    var part := Escape(UrlPart(URL_FLAG, url)) + ['\''];
    CodexText(version, url);
    ContainsManaged(OUTER + Opened(GUARD), [PROVIDER_FLAG, "codex", VERSION_FLAG], version + part);
    Associate(Each(OUTER + Opened(GUARD) + Head("codex")), version, part);
  }

  lemma WrappedIsTidy(outer: seq<string>, guard: seq<string>, command: string)
    requires outer != [] && outer[0] != [] && !IsSpace(outer[0][0])
    ensures Wrapped(outer, guard, command) != [] && Tidy(Wrapped(outer, guard, command))
  {
    var c, q := Wrapped(outer, guard, command), ShellQuoteArg(Each(guard) + command);
    assert Each(outer)[0] == outer[0][0] && c[0] == Each(outer)[0];
    assert q[|q| - 1] == '\'' && c[|c| - 1] == q[|q| - 1];
  }

  datatype Host = Claude | Codex

  function HostName(h: Host): string {
    if h.Claude? then "claude" else "codex"
  }

  /** What varies between the commands of a host. */
  datatype Stamp = Stamp(version: string, url: string)

  function HostCommand(h: Host, stamp: Stamp): string {
    if h.Claude? then ClaudeCommand(stamp.version, stamp.url) else CodexCommand(stamp.version, stamp.url)
  }

  lemma HostIsTidy(h: Host, stamp: Stamp)
    requires Digits(stamp.version)
    ensures HostCommand(h, stamp) != [] && Tidy(HostCommand(h, stamp))
  {
    if h.Claude? {
      VersionIsPlain(stamp.version);
      BuiltIsTidy(Head("claude"), stamp.version, URL_FLAG, stamp.url);
    } else {
      WrappedIsTidy(OUTER, GUARD, BuildHookCommand("codex", stamp.version, stamp.url));
    }
  }

  lemma HostIsManaged(h: Host, stamp: Stamp)
    requires Digits(stamp.version)
    ensures Occurs(HostCommand(h, stamp), MANAGED_TEXT)
  {
    if h.Claude? {
      ClaudeIsManaged(stamp.version, stamp.url);
    } else {
      CodexIsManaged(stamp.version, stamp.url);
    }
  }

  lemma HostReads(h: Host, stamp: Stamp)
    requires Digits(stamp.version)
    ensures HookProvider(HostCommand(h, stamp)) == HostName(h)
  {
    if h.Claude? {
      ClaudeReadsBack(stamp.version, stamp.url);
    } else {
      CodexReadsBack(stamp.version, stamp.url);
    }
  }

  lemma SameManagedByProvider(e: string, d: string)
    requires e != [] && Tidy(e) && Occurs(e, MANAGED_TEXT) && HookProvider(e) != []
    requires d != [] && Tidy(d) && Occurs(d, MANAGED_TEXT)
    ensures SameManagedAgentHookCommand(e, d) <==> HookProvider(e) == HookProvider(d)
  {
  }

  lemma HostNamesDiffer(h1: Host, h2: Host)
    ensures HostName(h1) != [] && (HostName(h1) == HostName(h2) <==> h1 == h2)
  {
    assert |"claude"| != |"codex"|;
  }

  /** A command of one host replaces an installed one, of any version and URL, exactly when both are for the
      same host. */
  lemma ManagedIffSameHost(h1: Host, stamp1: Stamp, h2: Host, stamp2: Stamp)
    requires Digits(stamp1.version) && Digits(stamp2.version)
    ensures SameManagedAgentHookCommand(HostCommand(h1, stamp1), HostCommand(h2, stamp2)) <==> h1 == h2
  {
    HostIsTidy(h1, stamp1);
    HostIsTidy(h2, stamp2);
    HostIsManaged(h1, stamp1);
    HostIsManaged(h2, stamp2);
    HostReads(h1, stamp1);
    HostReads(h2, stamp2);
    HostNamesDiffer(h1, h2);
    SameManagedByProvider(HostCommand(h1, stamp1), HostCommand(h2, stamp2));
  }
}
