/** Installing and uninstalling flow's status line and hooks in Claude's user settings
    (internal/app/skill.go). The module is generic in S, the text of keys and strings. */
module ClaudeSettings {
  import opened Json

  /** The texts the installer knows, and what it does with a text: trim it, and recognize a status-line
      command of flow's own. */
  datatype Dialect<!S> = Dialect(
    statusLine: S, previous: S, hooks: S, matcher: S, command: S, type_: S, commandType: S, empty: S,
    trim: S -> S, isFlow: S -> bool)

  ghost predicate Sound<S(!new)>(d: Dialect<S>) {
    && d.statusLine != d.previous && d.command != d.type_ && d.matcher != d.hooks
    && d.hooks != d.statusLine && d.hooks != d.previous
    && !d.isFlow(d.empty)
  }

  /** copyJSONMap without the two keys install sets itself. */
  function Others<S(==)>(d: Dialect<S>, m: Fields<S>): Fields<S> {
    m - {d.type_, d.command}
  }

  /** A map-valued status line, as the type assertion reads it. */
  predicate HasLine<S(==)>(d: Dialect<S>, s: Fields<S>) {
    d.statusLine in s && s[d.statusLine].Obj?
  }

  predicate LineIsFlow<S(==)>(d: Dialect<S>, s: Fields<S>) {
    HasLine(d, s) && d.isFlow(StringField(s[d.statusLine].fields, d.command, d.empty))
  }

  function FlowLine<S(==)>(d: Dialect<S>, current: Fields<S>, command: S): Fields<S> {
    map[d.type_ := Str(d.commandType), d.command := Str(command)] + Others(d, current)
  }

  function LineInstalled<S(==)>(d: Dialect<S>, s: Fields<S>, command: S): Fields<S> {
    if !HasLine(d, s) then s[d.statusLine := Obj(FlowLine(d, map[], command))]
    else
      var current := s[d.statusLine].fields;
      if !LineIsFlow(d, s) then
        s[d.previous := Obj(current)][d.statusLine := Obj(FlowLine(d, current, command))]
      else if d.trim(StringField(current, d.command, d.empty)) == command then s
      else s[d.statusLine := Obj(current[d.command := Str(command)])]
  }

  function LineUninstalled<S(==)>(d: Dialect<S>, s: Fields<S>): Fields<S> {
    if !LineIsFlow(d, s) then s
    else if d.previous in s && s[d.previous].Obj? then s[d.statusLine := s[d.previous]] - {d.previous}
    else s - {d.statusLine, d.previous}
  }

  /** A hook an uninstall removes: its command matches once trimmed. */
  predicate Removes<S(==)>(d: Dialect<S>, command: S, h: Value<S>) {
    h.Obj? && d.trim(StringField(h.fields, d.command, d.empty)) == command
  }

  function Remaining<S(==)>(d: Dialect<S>, command: S, inner: seq<Value<S>>): seq<Value<S>> {
    if inner == [] then []
    else
      var last := inner[|inner| - 1];
      Remaining(d, command, inner[..|inner| - 1]) + if Removes(d, command, last) then [] else [last]
  }

  function RemainingEntry<S(==)>(d: Dialect<S>, command: S, e: Value<S>): seq<Value<S>> {
    if !e.Obj? then [e]
    else
      var left := Remaining(d, command, ArrayField(e.fields, d.hooks));
      if left == [] then [] else [Obj(e.fields[d.hooks := Arr(left)])]
  }

  function RemainingEntries<S(==)>(d: Dialect<S>, command: S, entries: seq<Value<S>>): seq<Value<S>> {
    if entries == [] then []
    else RemainingEntries(d, command, entries[..|entries| - 1]) + RemainingEntry(d, command, entries[|entries| - 1])
  }

  /** The exact command is among the hooks of some entry. */
  predicate Installed<S(==)>(d: Dialect<S>, command: S, entries: seq<Value<S>>) {
    exists i :: 0 <= i < |entries| && HoldsCommand(d, command, entries[i])
  }

  predicate HoldsCommand<S(==)>(d: Dialect<S>, command: S, e: Value<S>) {
    e.Obj? && CommandIn(d, command, ArrayField(e.fields, d.hooks))
  }

  predicate CommandIn<S(==)>(d: Dialect<S>, command: S, inner: seq<Value<S>>) {
    AnyHas(inner, d.command, command, d.empty)
  }

  function NewEntry<S(==)>(d: Dialect<S>, matcher: S, command: S): Value<S> {
    var hook := map[d.type_ := Str(d.commandType), d.command := Str(command)];
    var group := map[d.hooks := Arr([Obj(hook)])];
    Obj(if matcher != d.empty then group[d.matcher := Str(matcher)] else group)
  }

  function Entries<S(==)>(d: Dialect<S>, s: Fields<S>, event: S): seq<Value<S>> {
    ArrayField(ObjectField(s, d.hooks), event)
  }

  function HookInstalled<S(==)>(d: Dialect<S>, s: Fields<S>, event: S, matcher: S, command: S): Fields<S> {
    var entries := Entries(d, s, event);
    if Installed(d, command, entries) then s
    else s[d.hooks := Obj(ObjectField(s, d.hooks)[event := Arr(entries + [NewEntry(d, matcher, command)])])]
  }

  /** The settings with an event's remaining entries: an empty list and an empty hooks object go. */
  function WithRemaining<S(==)>(d: Dialect<S>, s: Fields<S>, event: S, kept: seq<Value<S>>): Fields<S> {
    var hooks := if kept == [] then ObjectField(s, d.hooks) - {event} else ObjectField(s, d.hooks)[event := Arr(kept)];
    if hooks == map[] then s - {d.hooks} else s[d.hooks := Obj(hooks)]
  }

  /** Some hook is removed or some group was already empty. */
  predicate Affected<S(==)>(d: Dialect<S>, command: S, e: Value<S>) {
    e.Obj? &&
    var inner := ArrayField(e.fields, d.hooks);
    Remaining(d, command, inner) == [] || |Remaining(d, command, inner)| != |inner|
  }

  predicate AnyAffected<S(==)>(d: Dialect<S>, command: S, entries: seq<Value<S>>) {
    entries != [] &&
    (AnyAffected(d, command, entries[..|entries| - 1]) || Affected(d, command, entries[|entries| - 1]))
  }

  function HookUninstalled<S(==)>(d: Dialect<S>, s: Fields<S>, event: S, command: S): Fields<S> {
    var entries := Entries(d, s, event);
    if AnyAffected(d, command, entries) then WithRemaining(d, s, event, RemainingEntries(d, command, entries)) else s
  }

  /** What `flow skill install` and `flow skill uninstall` do to the settings, besides the root's status
      line: start is the hook they install, prompt the stale one they remove. */
  datatype Hook<S> = Hook(event: S, matcher: S, command: S)

  ghost predicate Hooks<S(!new)>(d: Dialect<S>, start: Hook<S>, prompt: Hook<S>) {
    start.event != prompt.event && d.trim(start.command) == start.command
  }

  function SkillInstalled<S(==)>(d: Dialect<S>, s: Fields<S>, line: S, start: Hook<S>, prompt: Hook<S>): Fields<S> {
    var hooked := HookInstalled(d, s, start.event, start.matcher, start.command);
    HookUninstalled(d, LineInstalled(d, hooked, line), prompt.event, prompt.command)
  }

  function SkillUninstalled<S(==)>(d: Dialect<S>, s: Fields<S>, start: Hook<S>, prompt: Hook<S>): Fields<S> {
    var unhooked := HookUninstalled(d, s, start.event, start.command);
    LineUninstalled(d, HookUninstalled(d, unhooked, prompt.event, prompt.command))
  }

  class Settings<S(==,!new)> {
    var settings: Fields<S>
    const d: Dialect<S>

    constructor (d: Dialect<S>, settings: Fields<S>)
      ensures this.d == d && this.settings == settings
    {
      this.d := d;
      this.settings := settings;
    }

    method InstallClaudeStatusLine(command: S) returns (changed: bool)
      modifies this`settings
      ensures settings == LineInstalled(d, old(settings), command)
      ensures !changed ==> settings == old(settings)
    {
      var current: Fields<S> := map[];
      if d.statusLine in settings && settings[d.statusLine].Obj? {
        current := settings[d.statusLine].fields;
        var cmd := StringField(current, d.command, d.empty);
        if d.isFlow(cmd) {
          if d.trim(cmd) == command {
            return false;
          }
          settings := settings[d.statusLine := Obj(current[d.command := Str(command)])];
          return true;
        }
        settings := settings[d.previous := Obj(current)];
      }
      var next: Fields<S> := map[d.type_ := Str(d.commandType), d.command := Str(command)];
      var todo := current.Keys;
      while todo != {}
        invariant todo <= current.Keys
        invariant next == map[d.type_ := Str(d.commandType), d.command := Str(command)]
                          + (Others(d, current) - todo)
      {
        var k :| k in todo;
        todo := todo - {k};
        if k != d.type_ && k != d.command {
          next := next[k := current[k]];
        }
      }
      assert Others(d, current) - {} == Others(d, current);
      settings := settings[d.statusLine := Obj(next)];
      changed := true;
    }

    method UninstallClaudeStatusLine() returns (changed: bool)
      modifies this`settings
      ensures settings == LineUninstalled(d, old(settings))
      ensures changed <==> LineIsFlow(d, old(settings))
    {
      if d.statusLine !in settings || !settings[d.statusLine].Obj? {
        return false;
      }
      if !d.isFlow(StringField(settings[d.statusLine].fields, d.command, d.empty)) {
        return false;
      }
      if d.previous in settings && settings[d.previous].Obj? {
        settings := settings[d.statusLine := settings[d.previous]];
      } else {
        settings := settings - {d.statusLine};
      }
      settings := settings - {d.previous};
      changed := true;
    }

    method InstallClaudeHook(event: S, matcher: S, command: S) returns (added: bool)
      modifies this`settings
      ensures settings == HookInstalled(d, old(settings), event, matcher, command)
      ensures added <==> !Installed(d, command, Entries(d, old(settings), event))
      ensures Entries(d, settings, event)
           == Entries(d, old(settings), event) + if added then [NewEntry(d, matcher, command)] else []
    {
      var hooks := ObjectField(settings, d.hooks);
      var entries := ArrayField(hooks, event);
      for i := 0 to |entries|
        invariant forall k :: 0 <= k < i ==> !HoldsCommand(d, command, entries[k])
      {
        if !entries[i].Obj? {
          continue;
        }
        var inner := ArrayField(entries[i].fields, d.hooks);
        for j := 0 to |inner|
          invariant forall k :: 0 <= k < j ==>
            !(inner[k].Obj? && StringField(inner[k].fields, d.command, d.empty) == command)
        {
          if inner[j].Obj? && StringField(inner[j].fields, d.command, d.empty) == command {
            assert HoldsCommand(d, command, entries[i]);
            return false;
          }
        }
      }
      entries := entries + [NewEntry(d, matcher, command)];
      settings := settings[d.hooks := Obj(hooks[event := Arr(entries)])];
      added := true;
    }

    method FilterInner(command: S, inner: seq<Value<S>>) returns (left: seq<Value<S>>, removed: bool)
      ensures left == Remaining(d, command, inner)
      ensures removed <==> |left| != |inner|
    {
      left, removed := [], false;
      for i := 0 to |inner|
        invariant |left| <= i && left == Remaining(d, command, inner[..i])
        invariant removed <==> |left| != i
      {
        assert inner[..i + 1][..i] == inner[..i];
        var h := inner[i];
        if !h.Obj? {
          left := left + [h];
          continue;
        }
        if d.trim(StringField(h.fields, d.command, d.empty)) == command {
          removed := true;
          continue;
        }
        left := left + [h];
      }
      assert inner[..|inner|] == inner;
    }

    method FilterEntries(command: S, entries: seq<Value<S>>) returns (kept: seq<Value<S>>, changed: bool)
      ensures kept == RemainingEntries(d, command, entries)
      ensures changed <==> AnyAffected(d, command, entries)
    {
      kept, changed := [], false;
      for i := 0 to |entries|
        invariant kept == RemainingEntries(d, command, entries[..i])
        invariant changed <==> AnyAffected(d, command, entries[..i])
      {
        AffectedNext(d, command, entries, i);
        if !entries[i].Obj? {
          kept := kept + [entries[i]];
          continue;
        }
        var m := entries[i].fields;
        var left, removed := FilterInner(command, ArrayField(m, d.hooks));
        changed := changed || removed;
        if |left| == 0 {
          changed := true;
          continue;
        }
        kept := kept + [Obj(m[d.hooks := Arr(left)])];
      }
      assert entries[..|entries|] == entries;
    }

    method UninstallClaudeHook(event: S, command: S) returns (changed: bool)
      modifies this`settings
      ensures settings == HookUninstalled(d, old(settings), event, command)
      ensures changed <==> AnyAffected(d, command, Entries(d, old(settings), event))
    {
      var hooks := ObjectField(settings, d.hooks);
      var kept: seq<Value<S>>;
      kept, changed := FilterEntries(command, ArrayField(hooks, event));
      if !changed {
        return;
      }
      hooks := if |kept| == 0 then hooks - {event} else hooks[event := Arr(kept)];
      settings := if |hooks| == 0 then settings - {d.hooks} else settings[d.hooks := Obj(hooks)];
    }

    /** The settings part of `flow skill install`; line is the status-line command of its root. */
    method SkillInstall(line: S, start: Hook<S>, prompt: Hook<S>)
      modifies this`settings
      ensures settings == SkillInstalled(d, old(settings), line, start, prompt)
    {
      var _ := InstallClaudeHook(start.event, start.matcher, start.command);
      var _ := InstallClaudeStatusLine(line);
      var _ := UninstallClaudeHook(prompt.event, prompt.command);
    }

    /** The settings part of `flow skill uninstall`. */
    method SkillUninstall(start: Hook<S>, prompt: Hook<S>)
      modifies this`settings
      ensures settings == SkillUninstalled(d, old(settings), start, prompt)
    {
      var _ := UninstallClaudeHook(start.event, start.command);
      var _ := UninstallClaudeHook(prompt.event, prompt.command);
      var _ := UninstallClaudeStatusLine();
    }
  }

  lemma AffectedNext<S(!new)>(d: Dialect<S>, command: S, entries: seq<Value<S>>, i: nat)
    requires i < |entries|
    ensures AnyAffected(d, command, entries[..i + 1])
       <==> AnyAffected(d, command, entries[..i]) || Affected(d, command, entries[i])
    ensures RemainingEntries(d, command, entries[..i + 1])
         == RemainingEntries(d, command, entries[..i]) + RemainingEntry(d, command, entries[i])
  {
    var a := entries[..i + 1];
    assert a[..i] == entries[..i] && a[i] == entries[i];
  }

  // ---- the status line: install and uninstall ----

  /** An install's own command is one it recognizes again. */
  ghost predicate Own<S(!new)>(d: Dialect<S>, command: S) {
    d.isFlow(command)
  }

  function Installs<S(==)>(d: Dialect<S>, s: Fields<S>, commands: seq<S>): Fields<S> {
    if commands == [] then s else LineInstalled(d, Installs(d, s, commands[..|commands| - 1]), commands[|commands| - 1])
  }

  /** What any number of installs, of whatever roots, makes of the settings: flow's status line, and a
      foreign one saved. */
  ghost predicate Between<S(!new)>(d: Dialect<S>, s: Fields<S>, t: Fields<S>) {
    && LineIsFlow(d, t)
    && t - {d.statusLine} ==
       (if HasLine(d, s) && !LineIsFlow(d, s) then s[d.previous := s[d.statusLine]] else s) - {d.statusLine}
  }

  /** An install shows the command for its root and keeps every other field of the status line it finds. */
  lemma InstallShowsCommand<S(!new)>(d: Dialect<S>, s: Fields<S>, command: S)
    requires Sound(d) && Own(d, command) && d.trim(command) == command
    ensures var t := LineInstalled(d, s, command);
      && HasLine(d, t) && d.trim(StringField(t[d.statusLine].fields, d.command, d.empty)) == command
      && (forall k :: k != d.type_ && k != d.command && HasLine(d, s) && k in s[d.statusLine].fields ==>
            k in t[d.statusLine].fields && t[d.statusLine].fields[k] == s[d.statusLine].fields[k])
      && t[d.statusLine].fields.Keys
         <= {d.type_, d.command} + (if HasLine(d, s) then s[d.statusLine].fields.Keys else {})
      && (!LineIsFlow(d, s) ==> StringField(t[d.statusLine].fields, d.type_, d.empty) == d.commandType)
  {
  }

  /** No saved status line, and none at all or a foreign one. */
  ghost predicate LineClean<S(!new)>(d: Dialect<S>, s: Fields<S>) {
    d.previous !in s && (d.statusLine !in s || (HasLine(d, s) && !LineIsFlow(d, s)))
  }

  lemma OneInstall<S(!new)>(d: Dialect<S>, s: Fields<S>, command: S)
    requires Sound(d) && Own(d, command)
    ensures Between(d, s, LineInstalled(d, s, command))
  {
  }

  lemma AnotherInstall<S(!new)>(d: Dialect<S>, s: Fields<S>, t: Fields<S>, command: S)
    requires Sound(d) && Own(d, command) && Between(d, s, t)
    ensures Between(d, s, LineInstalled(d, t, command))
  {
  }

  lemma {:induction false} InstallsBetween<S(!new)>(d: Dialect<S>, s: Fields<S>, commands: seq<S>)
    requires Sound(d) && commands != [] && forall i :: 0 <= i < |commands| ==> Own(d, commands[i])
    ensures Between(d, s, Installs(d, s, commands))
  {
    var init, last := commands[..|commands| - 1], commands[|commands| - 1];
    if init == [] {
      OneInstall(d, s, last);
    } else {
      InstallsBetween(d, s, init);
      AnotherInstall(d, s, Installs(d, s, init), last);
    }
  }

  lemma Agree<S(!new)>(t: Fields<S>, b: Fields<S>, l: S, k: S)
    requires t - {l} == b - {l} && k != l
    ensures k in t <==> k in b
    ensures k in t ==> t[k] == b[k]
  {
    assert k in t <==> k in t - {l};
    assert k in b <==> k in b - {l};
    assert k in t ==> (t - {l})[k] == t[k] && (b - {l})[k] == b[k];
  }

  lemma RestoresForeign<S(!new)>(d: Dialect<S>, s: Fields<S>, t: Fields<S>)
    requires Sound(d) && Between(d, s, t)
    requires d.previous !in s && HasLine(d, s) && !LineIsFlow(d, s)
    ensures LineUninstalled(d, t) == s
  {
    var b, u := s[d.previous := s[d.statusLine]], LineUninstalled(d, t);
    Agree(t, b, d.statusLine, d.previous);
    assert u == t[d.statusLine := s[d.statusLine]] - {d.previous};
    forall k ensures (k in u <==> k in s) && (k in u ==> u[k] == s[k]) {
      if k != d.statusLine {
        Agree(t, b, d.statusLine, k);
      }
    }
  }

  lemma RestoresNone<S(!new)>(d: Dialect<S>, s: Fields<S>, t: Fields<S>)
    requires Sound(d) && Between(d, s, t)
    requires d.previous !in s && d.statusLine !in s
    ensures LineUninstalled(d, t) == s
  {
    var u := LineUninstalled(d, t);
    Agree(t, s, d.statusLine, d.previous);
    assert u == t - {d.statusLine, d.previous};
    forall k ensures (k in u <==> k in s) && (k in u ==> u[k] == s[k]) {
      if k != d.statusLine {
        Agree(t, s, d.statusLine, k);
      }
    }
  }

  /** A status line that no install saved is gone after an uninstall, or replaced by one saved before. */
  lemma LosesLine<S(!new)>(d: Dialect<S>, s: Fields<S>, t: Fields<S>)
    requires Sound(d) && Between(d, s, t)
    requires d.previous !in s && d.statusLine in s && (!HasLine(d, s) || LineIsFlow(d, s))
    ensures d.statusLine !in LineUninstalled(d, t)
  {
    Agree(t, s, d.statusLine, d.previous);
  }

  lemma UninstallBetween<S(!new)>(d: Dialect<S>, s: Fields<S>, t: Fields<S>)
    requires Sound(d) && Between(d, s, t)
    ensures LineUninstalled(d, t) == s <==> LineClean(d, s)
  {
    assert d.previous !in LineUninstalled(d, t);
    if d.previous !in s {
      if d.statusLine !in s {
        RestoresNone(d, s, t);
      } else if HasLine(d, s) && !LineIsFlow(d, s) {
        RestoresForeign(d, s, t);
      } else {
        LosesLine(d, s, t);
      }
    }
  }

  /** One uninstall undoes any number of installs, of whatever roots, exactly when the settings had no
      saved status line and either none at all or a foreign one. */
  lemma {:induction false} InstallsThenUninstall<S(!new)>(d: Dialect<S>, s: Fields<S>, commands: seq<S>)
    requires Sound(d) && commands != [] && forall i :: 0 <= i < |commands| ==> Own(d, commands[i])
    ensures LineUninstalled(d, Installs(d, s, commands)) == s <==> LineClean(d, s)
  {
    InstallsBetween(d, s, commands);
    UninstallBetween(d, s, Installs(d, s, commands));
  }

  /** The saved status line, if any, is not flow's own. */
  ghost predicate SavedIsForeign<S(!new)>(d: Dialect<S>, s: Fields<S>) {
    d.previous in s && s[d.previous].Obj? ==> !d.isFlow(StringField(s[d.previous].fields, d.command, d.empty))
  }

  datatype Step<S> = Install(command: S) | Uninstall

  function Next<S(==)>(d: Dialect<S>, s: Fields<S>, step: Step<S>): Fields<S> {
    match step
    case Install(command) => LineInstalled(d, s, command)
    case Uninstall => LineUninstalled(d, s)
  }

  function Run<S(==)>(d: Dialect<S>, s: Fields<S>, steps: seq<Step<S>>): Fields<S> {
    if steps == [] then s else Next(d, Run(d, s, steps[..|steps| - 1]), steps[|steps| - 1])
  }

  /** Over every run of installs and uninstalls, what is saved is never flow's own status line. */
  lemma {:induction false} SavedStaysForeign<S(!new)>(d: Dialect<S>, s: Fields<S>, steps: seq<Step<S>>)
    requires Sound(d) && SavedIsForeign(d, s)
    ensures SavedIsForeign(d, Run(d, s, steps))
  {
    if steps != [] {
      SavedStaysForeign(d, s, steps[..|steps| - 1]);
      NextSavesForeign(d, Run(d, s, steps[..|steps| - 1]), steps[|steps| - 1]);
    }
  }

  lemma NextSavesForeign<S(!new)>(d: Dialect<S>, s: Fields<S>, step: Step<S>)
    requires Sound(d) && SavedIsForeign(d, s)
    ensures SavedIsForeign(d, Next(d, s, step))
  {
  }

  // ---- hooks: install and uninstall ----

  lemma RemainingAppend<S(!new)>(d: Dialect<S>, command: S, entries: seq<Value<S>>, e: Value<S>)
    ensures RemainingEntries(d, command, entries + [e])
         == RemainingEntries(d, command, entries) + RemainingEntry(d, command, e)
    ensures AnyAffected(d, command, entries + [e]) <==> AnyAffected(d, command, entries) || Affected(d, command, e)
  {
    assert (entries + [e])[..|entries|] == entries;
  }

  lemma NewEntryGoes<S(!new)>(d: Dialect<S>, matcher: S, command: S)
    requires Sound(d) && d.trim(command) == command
    ensures RemainingEntry(d, command, NewEntry(d, matcher, command)) == []
    ensures Affected(d, command, NewEntry(d, matcher, command))
  {
    var inner := ArrayField(NewEntry(d, matcher, command).fields, d.hooks);
    assert |inner| == 1 && Removes(d, command, inner[0]) && inner[..0] == [];
    assert Remaining(d, command, inner) == [];
  }

  /** An exact match is a match once trimmed. */
  lemma {:induction false} ExactIsRemoved<S(!new)>(d: Dialect<S>, command: S, inner: seq<Value<S>>)
    requires d.trim(command) == command
    ensures |Remaining(d, command, inner)| <= |inner|
    ensures CommandIn(d, command, inner) ==> |Remaining(d, command, inner)| < |inner|
  {
    if inner != [] {
      var init, last := inner[..|inner| - 1], inner[|inner| - 1];
      ExactIsRemoved(d, command, init);
      AnyHasAppend(init, last, d.command, command, d.empty);
      assert inner == init + [last];
    }
  }

  /** The entry an install appends: one command hook, under the matcher if there is one. */
  lemma EntryShows<S(!new)>(d: Dialect<S>, matcher: S, command: S)
    requires Sound(d)
    ensures var e := NewEntry(d, matcher, command);
      && e.Obj? && e.fields.Keys == {d.hooks} + (if matcher == d.empty then {} else {d.matcher})
      && (matcher != d.empty ==> e.fields[d.matcher] == Str(matcher))
      && |ArrayField(e.fields, d.hooks)| == 1 && ArrayField(e.fields, d.hooks)[0].Obj?
      && var hook := ArrayField(e.fields, d.hooks)[0].fields;
         && hook.Keys == {d.type_, d.command}
         && hook[d.type_] == Str(d.commandType) && hook[d.command] == Str(command)
  {
  }

  /** The hooks an uninstall leaves in a group: all but those whose trimmed command matches, in order. */
  lemma {:induction false} RemainingIsFiltered<S(!new)>(d: Dialect<S>, command: S, inner: seq<Value<S>>)
    ensures Remaining(d, command, inner)
         == Filtered(inner, (h: Value<S>) => !(h.Obj? && d.trim(StringField(h.fields, d.command, d.empty)) == command))
  {
    if inner != [] {
      RemainingIsFiltered(d, command, inner[..|inner| - 1]);
    }
  }

  /** What an uninstall makes of an entry: a group with other hooks keeps them and all its other fields, a
      group without any goes, and what is no group stays. */
  lemma EntryAfterUninstall<S(!new)>(d: Dialect<S>, command: S, e: Value<S>)
    ensures var left := if e.Obj? then
        Filtered(ArrayField(e.fields, d.hooks),
                 (h: Value<S>) => !(h.Obj? && d.trim(StringField(h.fields, d.command, d.empty)) == command))
      else [];
      RemainingEntry(d, command, e) ==
        if !e.Obj? then [e] else if left == [] then [] else [Obj(e.fields[d.hooks := Arr(left)])]
  {
    if e.Obj? {
      RemainingIsFiltered(d, command, ArrayField(e.fields, d.hooks));
    }
  }

  /** An uninstall leaves an entry alone exactly when it does not affect it. */
  lemma RemainingKeeps<S(!new)>(d: Dialect<S>, command: S, e: Value<S>)
    ensures RemainingEntry(d, command, e) == [e] <==> !Affected(d, command, e)
  {
    if e.Obj? {
      var m := e.fields;
      RemainingAll(d, command, ArrayField(m, d.hooks));
      if !Affected(d, command, e) {
        assert m[d.hooks := m[d.hooks]] == m;
      }
    }
  }

  lemma {:induction false} RemainingAll<S(!new)>(d: Dialect<S>, command: S, inner: seq<Value<S>>)
    ensures |Remaining(d, command, inner)| <= |inner|
    ensures |Remaining(d, command, inner)| == |inner| <==> Remaining(d, command, inner) == inner
  {
    if inner != [] {
      RemainingAll(d, command, inner[..|inner| - 1]);
      assert inner == inner[..|inner| - 1] + [inner[|inner| - 1]];
    }
  }

  /** An uninstall leaves the entries as they are exactly when it affects none. */
  lemma {:induction false} RemainingSame<S(!new)>(d: Dialect<S>, command: S, entries: seq<Value<S>>)
    ensures |RemainingEntries(d, command, entries)| <= |entries|
    ensures RemainingEntries(d, command, entries) == entries <==> !AnyAffected(d, command, entries)
  {
    if entries != [] {
      var init, last := entries[..|entries| - 1], entries[|entries| - 1];
      RemainingSame(d, command, init);
      RemainingKeeps(d, command, last);
      assert entries == init + [last];
      KeptGrows(init, RemainingEntries(d, command, init), last, RemainingEntry(d, command, last));
    }
  }

  /** The hook was in no entry, even untrimmed, no group was empty, and no empty container was left lying about. */
  ghost predicate Clean<S(!new)>(d: Dialect<S>, s: Fields<S>, event: S, command: S) {
    || d.hooks !in s
    || (s[d.hooks].Obj? && s[d.hooks].fields != map[] && event !in s[d.hooks].fields)
    || (Entries(d, s, event) != [] && !AnyAffected(d, command, Entries(d, s, event)))
  }

  lemma InstallSkips<S(!new)>(d: Dialect<S>, s: Fields<S>, event: S, command: S)
    requires d.trim(command) == command && Installed(d, command, Entries(d, s, event))
    ensures AnyAffected(d, command, Entries(d, s, event))
  {
    var entries := Entries(d, s, event);
    var i :| 0 <= i < |entries| && HoldsCommand(d, command, entries[i]);
    ExactIsRemoved(d, command, ArrayField(entries[i].fields, d.hooks));
    AffectedAt(d, command, entries, i);
  }

  lemma {:induction false} AffectedAt<S(!new)>(d: Dialect<S>, command: S, entries: seq<Value<S>>, i: nat)
    requires i < |entries| && Affected(d, command, entries[i])
    ensures AnyAffected(d, command, entries)
  {
    if i < |entries| - 1 {
      AffectedAt(d, command, entries[..|entries| - 1], i);
    }
  }

  lemma UninstallAfterInstall<S(!new)>(d: Dialect<S>, s: Fields<S>, event: S, matcher: S, command: S)
    requires Sound(d) && d.trim(command) == command && !Installed(d, command, Entries(d, s, event))
    ensures var t := HookInstalled(d, s, event, matcher, command);
      HookUninstalled(d, t, event, command)
      == WithRemaining(d, t, event, RemainingEntries(d, command, Entries(d, s, event)))
  {
    var t, entries := HookInstalled(d, s, event, matcher, command), Entries(d, s, event);
    var e := NewEntry(d, matcher, command);
    assert Entries(d, t, event) == entries + [e];
    RemainingAppend(d, command, entries, e);
    NewEntryGoes(d, matcher, command);
    assert RemainingEntries(d, command, entries) + [] == RemainingEntries(d, command, entries);
  }

  /** Putting the remaining entries back gives the settings before the install. */
  lemma RemainingRestores<S(!new)>(d: Dialect<S>, s: Fields<S>, event: S, added: seq<Value<S>>, kept: seq<Value<S>>)
    ensures var t := s[d.hooks := Obj(ObjectField(s, d.hooks)[event := Arr(added)])];
      WithRemaining(d, t, event, kept) == s <==>
        (|| (d.hooks !in s && kept == [])
         || (d.hooks in s && s[d.hooks].Obj? && s[d.hooks].fields != map[] && event !in s[d.hooks].fields && kept == [])
         || (kept != [] && Entries(d, s, event) == kept))
  {
    var h := ObjectField(s, d.hooks);
    var t := s[d.hooks := Obj(h[event := Arr(added)])];
    var u := WithRemaining(d, t, event, kept);
    if kept == [] {
      assert h[event := Arr(added)] - {event} == h - {event};
      assert event !in h ==> h - {event} == h;
      if h - {event} == map[] {
        assert u == t - {d.hooks} == s - {d.hooks};
        assert d.hooks !in s ==> s - {d.hooks} == s;
      } else {
        assert u == s[d.hooks := Obj(h - {event})];
      }
    } else {
      assert h[event := Arr(added)][event := Arr(kept)] == h[event := Arr(kept)];
      assert event in h[event := Arr(kept)];
      assert u == t[d.hooks := Obj(h[event := Arr(kept)])] == s[d.hooks := Obj(h[event := Arr(kept)])];
      if Entries(d, s, event) == kept {
        assert h[event := Arr(kept)] == h && s[d.hooks := Obj(h)] == s;
      }
    }
  }

  /** Uninstalling a hook undoes installing it exactly when the settings were clean of it. */
  lemma HookRoundTrip<S(!new)>(d: Dialect<S>, s: Fields<S>, event: S, matcher: S, command: S)
    requires Sound(d) && d.trim(command) == command
    ensures HookUninstalled(d, HookInstalled(d, s, event, matcher, command), event, command) == s
       <==> Clean(d, s, event, command)
  {
    var entries := Entries(d, s, event);
    var kept := RemainingEntries(d, command, entries);
    RemainingSame(d, command, entries);
    if Installed(d, command, entries) {
      InstallSkips(d, s, event, command);
      WithRemainingEntries(d, s, event, kept);
    } else {
      UninstallAfterInstall(d, s, event, matcher, command);
      RemainingRestores(d, s, event, entries + [NewEntry(d, matcher, command)], kept);
    }
  }

  lemma WithRemainingEntries<S(!new)>(d: Dialect<S>, s: Fields<S>, event: S, kept: seq<Value<S>>)
    ensures Entries(d, WithRemaining(d, s, event, kept), event) == kept
  {
  }

  /** After an install the hook is in place. */
  lemma HookIsThere<S(!new)>(d: Dialect<S>, s: Fields<S>, event: S, matcher: S, command: S)
    requires Sound(d)
    ensures Installed(d, command, Entries(d, HookInstalled(d, s, event, matcher, command), event))
  {
    var t, entries := HookInstalled(d, s, event, matcher, command), Entries(d, s, event);
    var e := NewEntry(d, matcher, command);
    if !Installed(d, command, entries) {
      assert Entries(d, t, event) == entries + [e] && (entries + [e])[|entries|] == e;
      var inner := ArrayField(e.fields, d.hooks);
      assert inner[0].Obj? && StringField(inner[0].fields, d.command, d.empty) == command;
      assert HoldsCommand(d, command, e);
    }
  }

  /** A second install of a hook changes nothing. */
  lemma HookInstallTwice<S(!new)>(d: Dialect<S>, s: Fields<S>, event: S, matcher: S, command: S)
    requires Sound(d)
    ensures var t := HookInstalled(d, s, event, matcher, command);
      HookInstalled(d, t, event, matcher, command) == t
  {
    HookIsThere(d, s, event, matcher, command);
  }

  function HookInstalls<S(==)>(d: Dialect<S>, s: Fields<S>, event: S, matcher: S, command: S, n: nat): Fields<S> {
    if n == 0 then s else HookInstalled(d, HookInstalls(d, s, event, matcher, command, n - 1), event, matcher, command)
  }

  /** Any number of installs is one. */
  lemma {:induction false} HookInstallsAreOne<S(!new)>(d: Dialect<S>, s: Fields<S>, event: S, matcher: S, command: S,
      n: nat)
    requires Sound(d) && n > 0
    ensures HookInstalls(d, s, event, matcher, command, n) == HookInstalled(d, s, event, matcher, command)
  {
    if n > 1 {
      HookInstallsAreOne(d, s, event, matcher, command, n - 1);
      HookInstallTwice(d, s, event, matcher, command);
    }
  }

  /** Neither direction touches another event or another setting. */
  lemma HookFrame<S(!new)>(d: Dialect<S>, s: Fields<S>, event: S, matcher: S, command: S)
    ensures HookInstalled(d, s, event, matcher, command) - {d.hooks} == s - {d.hooks}
    ensures HookUninstalled(d, s, event, command) - {d.hooks} == s - {d.hooks}
    ensures ObjectField(HookInstalled(d, s, event, matcher, command), d.hooks) - {event}
         == ObjectField(s, d.hooks) - {event}
    ensures ObjectField(HookUninstalled(d, s, event, command), d.hooks) - {event} == ObjectField(s, d.hooks) - {event}
  {
  }

  // ---- the whole command: hooks and status line together ----

  function SkillInstalls<S(==)>(d: Dialect<S>, s: Fields<S>, lines: seq<S>, start: Hook<S>,
      prompt: Hook<S>): Fields<S> {
    if lines == [] then s
    else
      var n := |lines| - 1;
      SkillInstalled(d, SkillInstalls(d, s, lines[..n], start, prompt), lines[n], start, prompt)
  }

  /** The hook half of an install. */
  function HooksSet<S(==)>(d: Dialect<S>, s: Fields<S>, start: Hook<S>, prompt: Hook<S>): Fields<S> {
    HookUninstalled(d, HookInstalled(d, s, start.event, start.matcher, start.command), prompt.event, prompt.command)
  }

  /** The status line and the hooks live under different keys. */
  lemma LineAside<S(!new)>(d: Dialect<S>, s: Fields<S>, line: S, v: Value<S>)
    requires Sound(d)
    ensures LineInstalled(d, s[d.hooks := v], line) == LineInstalled(d, s, line)[d.hooks := v]
    ensures d.hooks in LineInstalled(d, s, line) <==> d.hooks in s
    ensures d.hooks in s ==> LineInstalled(d, s, line)[d.hooks] == s[d.hooks]
  {
  }

  lemma LineAsideOfNone<S(!new)>(d: Dialect<S>, s: Fields<S>, line: S)
    requires Sound(d)
    ensures LineInstalled(d, s - {d.hooks}, line) == LineInstalled(d, s, line) - {d.hooks}
  {
  }

  lemma InstallCommutes<S(!new)>(d: Dialect<S>, s: Fields<S>, line: S, h: Hook<S>)
    requires Sound(d)
    ensures HookInstalled(d, LineInstalled(d, s, line), h.event, h.matcher, h.command)
         == LineInstalled(d, HookInstalled(d, s, h.event, h.matcher, h.command), line)
  {
    var entries := Entries(d, s, h.event);
    var hooks := ObjectField(s, d.hooks)[h.event := Arr(entries + [NewEntry(d, h.matcher, h.command)])];
    LineAside(d, s, line, Obj(hooks));
  }

  lemma UninstallCommutes<S(!new)>(d: Dialect<S>, s: Fields<S>, line: S, h: Hook<S>)
    requires Sound(d)
    ensures HookUninstalled(d, LineInstalled(d, s, line), h.event, h.command)
         == LineInstalled(d, HookUninstalled(d, s, h.event, h.command), line)
  {
    RemainderCommutes(d, s, line, h.event, RemainingEntries(d, h.command, Entries(d, s, h.event)));
  }

  lemma RemainderCommutes<S(!new)>(d: Dialect<S>, s: Fields<S>, line: S, event: S, kept: seq<Value<S>>)
    requires Sound(d)
    ensures WithRemaining(d, LineInstalled(d, s, line), event, kept)
         == LineInstalled(d, WithRemaining(d, s, event, kept), line)
    ensures Entries(d, LineInstalled(d, s, line), event) == Entries(d, s, event)
  {
    var h := ObjectField(s, d.hooks);
    var left := if kept == [] then h - {event} else h[event := Arr(kept)];
    LineAside(d, s, line, Obj(left));
    LineAsideOfNone(d, s, line);
  }

  lemma {:induction false} InstallCommutesWithAll<S(!new)>(d: Dialect<S>, s: Fields<S>, lines: seq<S>, h: Hook<S>)
    requires Sound(d)
    ensures HookInstalled(d, Installs(d, s, lines), h.event, h.matcher, h.command)
         == Installs(d, HookInstalled(d, s, h.event, h.matcher, h.command), lines)
  {
    if lines != [] {
      InstallCommutesWithAll(d, s, lines[..|lines| - 1], h);
      InstallCommutes(d, Installs(d, s, lines[..|lines| - 1]), lines[|lines| - 1], h);
    }
  }

  lemma {:induction false} UninstallCommutesWithAll<S(!new)>(d: Dialect<S>, s: Fields<S>, lines: seq<S>, h: Hook<S>)
    requires Sound(d)
    ensures HookUninstalled(d, Installs(d, s, lines), h.event, h.command)
         == Installs(d, HookUninstalled(d, s, h.event, h.command), lines)
  {
    if lines != [] {
      UninstallCommutesWithAll(d, s, lines[..|lines| - 1], h);
      UninstallCommutes(d, Installs(d, s, lines[..|lines| - 1]), lines[|lines| - 1], h);
    }
  }

  // ---- the hook half by itself ----

  lemma {:induction false} RemainingTwice<S(!new)>(d: Dialect<S>, command: S, inner: seq<Value<S>>)
    ensures Remaining(d, command, Remaining(d, command, inner)) == Remaining(d, command, inner)
  {
    if inner != [] {
      var init, last := inner[..|inner| - 1], inner[|inner| - 1];
      RemainingTwice(d, command, init);
      var left := Remaining(d, command, init);
      assert (left + [last])[..|left|] == left && left + [] == left;
    }
  }

  lemma {:induction false} NothingLeftAffected<S(!new)>(d: Dialect<S>, command: S, entries: seq<Value<S>>)
    ensures !AnyAffected(d, command, RemainingEntries(d, command, entries))
  {
    if entries != [] {
      var init, last := entries[..|entries| - 1], entries[|entries| - 1];
      NothingLeftAffected(d, command, init);
      var kept := RemainingEntries(d, command, init);
      if last.Obj? {
        var left := Remaining(d, command, ArrayField(last.fields, d.hooks));
        RemainingTwice(d, command, ArrayField(last.fields, d.hooks));
        RemainingAppend(d, command, kept, Obj(last.fields[d.hooks := Arr(left)]));
      } else {
        RemainingAppend(d, command, kept, last);
      }
      assert kept + [] == kept;
    }
  }

  lemma OtherEvent<S(!new)>(d: Dialect<S>, s: Fields<S>, h: Hook<S>, event: S)
    requires h.event != event
    ensures Entries(d, HookInstalled(d, s, h.event, h.matcher, h.command), event) == Entries(d, s, event)
    ensures Entries(d, HookUninstalled(d, s, h.event, h.command), event) == Entries(d, s, event)
  {
    var a, b := HookInstalled(d, s, h.event, h.matcher, h.command), HookUninstalled(d, s, h.event, h.command);
    HookFrame(d, s, h.event, h.matcher, h.command);
    SameElsewhere(ObjectField(a, d.hooks), ObjectField(s, d.hooks), h.event, event);
    SameElsewhere(ObjectField(b, d.hooks), ObjectField(s, d.hooks), h.event, event);
  }

  lemma SameElsewhere<S(!new)>(a: Fields<S>, b: Fields<S>, gone: S, key: S)
    requires a - {gone} == b - {gone} && key != gone
    ensures ArrayField(a, key) == ArrayField(b, key)
  {
    Agree(a, b, gone, key);
  }

  /** Removing one event's remainder and setting another event can be done in either order. */
  lemma WithRemainingCommutes<S(!new)>(d: Dialect<S>, s: Fields<S>, e1: S, v: Value<S>, e2: S, kept: seq<Value<S>>)
    requires e1 != e2
    ensures WithRemaining(d, s[d.hooks := Obj(ObjectField(s, d.hooks)[e1 := v])], e2, kept) ==
      var u := WithRemaining(d, s, e2, kept);
      u[d.hooks := Obj(ObjectField(u, d.hooks)[e1 := v])]
  {
    var h := ObjectField(s, d.hooks);
    var hu := if kept == [] then h - {e2} else h[e2 := Arr(kept)];
    var hi := if kept == [] then h[e1 := v] - {e2} else h[e1 := v][e2 := Arr(kept)];
    var u := WithRemaining(d, s, e2, kept);
    assert hi == hu[e1 := v] && e1 in hi;
    assert ObjectField(u, d.hooks) == hu;
    assert u[d.hooks := Obj(hi)] == s[d.hooks := Obj(hi)];
  }

  /** Installing one event's hook and removing another's can be done in either order. */
  lemma EventsCommute<S(!new)>(d: Dialect<S>, s: Fields<S>, start: Hook<S>, prompt: Hook<S>)
    requires Hooks(d, start, prompt)
    ensures HooksSet(d, s, start, prompt)
         == HookInstalled(d, HookUninstalled(d, s, prompt.event, prompt.command),
                          start.event, start.matcher, start.command)
  {
    OtherEvent(d, s, start, prompt.event);
    OtherEvent(d, s, prompt, start.event);
    var mine, others := Entries(d, s, start.event), Entries(d, s, prompt.event);
    if AnyAffected(d, prompt.command, others) && !Installed(d, start.command, mine) {
      WithRemainingCommutes(d, s, start.event, Arr(mine + [NewEntry(d, start.matcher, start.command)]),
                            prompt.event, RemainingEntries(d, prompt.command, others));
    }
  }

  /** Removing the stale hook leaves nothing of it, so removing it again changes nothing. */
  lemma UninstallTwice<S(!new)>(d: Dialect<S>, s: Fields<S>, event: S, command: S)
    ensures !AnyAffected(d, command, Entries(d, HookUninstalled(d, s, event, command), event))
  {
    NothingLeftAffected(d, command, Entries(d, s, event));
    WithRemainingEntries(d, s, event, RemainingEntries(d, command, Entries(d, s, event)));
  }

  /** A second install's hook half changes nothing. */
  lemma HooksSetTwice<S(!new)>(d: Dialect<S>, s: Fields<S>, start: Hook<S>, prompt: Hook<S>)
    requires Sound(d) && Hooks(d, start, prompt)
    ensures HooksSet(d, HooksSet(d, s, start, prompt), start, prompt) == HooksSet(d, s, start, prompt)
  {
    var once := HooksSet(d, s, start, prompt);
    EventsCommute(d, s, start, prompt);
    HookInstallTwice(d, HookUninstalled(d, s, prompt.event, prompt.command), start.event, start.matcher, start.command);
    UninstallTwice(d, HookInstalled(d, s, start.event, start.matcher, start.command), prompt.event, prompt.command);
  }

  /** The hook half of any number of installs is that of one. */
  lemma {:induction false} InstallsAreOne<S(!new)>(d: Dialect<S>, s: Fields<S>, lines: seq<S>, start: Hook<S>,
      prompt: Hook<S>)
    requires Sound(d) && Hooks(d, start, prompt) && lines != []
    ensures SkillInstalls(d, s, lines, start, prompt) == Installs(d, HooksSet(d, s, start, prompt), lines)
  {
    var init, last := lines[..|lines| - 1], lines[|lines| - 1];
    var set_ := HooksSet(d, s, start, prompt);
    if init == [] {
      assert Installs(d, set_, init) == set_;
      var hooked := HookInstalled(d, s, start.event, start.matcher, start.command);
      UninstallCommutes(d, hooked, last, prompt);
    } else {
      InstallsAreOne(d, s, init, start, prompt);
      InstallCommutesWithAll(d, set_, init, start);
      var hooked := HookInstalled(d, set_, start.event, start.matcher, start.command);
      UninstallCommutes(d, Installs(d, hooked, init), last, prompt);
      UninstallCommutesWithAll(d, hooked, init, prompt);
      HooksSetTwice(d, s, start, prompt);
    }
  }

  /** The hook half of installs and one uninstall is undone exactly when the settings were clean of the
      hook and had nothing of the stale one. */
  lemma HooksUndone<S(!new)>(d: Dialect<S>, s: Fields<S>, start: Hook<S>, prompt: Hook<S>)
    requires Sound(d) && Hooks(d, start, prompt)
    ensures var unhooked := HookUninstalled(d, HooksSet(d, s, start, prompt), start.event, start.command);
      HookUninstalled(d, unhooked, prompt.event, prompt.command) == unhooked &&
      (unhooked == s <==>
        Clean(d, s, start.event, start.command) && !AnyAffected(d, prompt.command, Entries(d, s, prompt.event)))
  {
    var u := HookUninstalled(d, s, prompt.event, prompt.command);
    var set_ := HooksSet(d, s, start, prompt);
    EventsCommute(d, s, start, prompt);
    HookRoundTrip(d, u, start.event, start.matcher, start.command);
    UninstallTwice(d, s, prompt.event, prompt.command);
    OtherEvent(d, u, start, prompt.event);
    OtherEvent(d, set_, start, prompt.event);
    RemainingSame(d, prompt.command, Entries(d, s, prompt.event));
    WithRemainingEntries(d, s, prompt.event, RemainingEntries(d, prompt.command, Entries(d, s, prompt.event)));
  }

  lemma LineKeepsHooks<S(!new)>(d: Dialect<S>, s: Fields<S>, lines: seq<S>)
    requires Sound(d)
    ensures var t := LineUninstalled(d, Installs(d, s, lines));
      (d.hooks in t <==> d.hooks in s) && (d.hooks in t ==> t[d.hooks] == s[d.hooks])
  {
    if lines != [] {
      LineKeepsHooks(d, s, lines[..|lines| - 1]);
    }
  }

  lemma SameApartFrom<S(!new)>(a: Fields<S>, b: Fields<S>, key: S)
    requires a - {key} == b - {key} && (key in a <==> key in b) && (key in a ==> a[key] == b[key])
    ensures a == b
  {
    forall k ensures (k in a <==> k in b) && (k in a ==> a[k] == b[k]) {
      if k != key {
        Agree(a, b, key, k);
      }
    }
  }

  lemma HooksOnly<S(!new)>(d: Dialect<S>, s: Fields<S>, start: Hook<S>, prompt: Hook<S>)
    ensures HookUninstalled(d, HooksSet(d, s, start, prompt), start.event, start.command) - {d.hooks} == s - {d.hooks}
  {
    var hooked := HookInstalled(d, s, start.event, start.matcher, start.command);
    HookFrame(d, s, start.event, start.matcher, start.command);
    HookFrame(d, hooked, prompt.event, prompt.matcher, prompt.command);
    HookFrame(d, HooksSet(d, s, start, prompt), start.event, start.matcher, start.command);
  }

  lemma LineStaysAside<S(!new)>(d: Dialect<S>, s: Fields<S>, line: S, event: S)
    requires Sound(d)
    ensures Entries(d, LineInstalled(d, s, line), event) == Entries(d, s, event)
  {
    LineAside(d, s, line, Null);
  }

  /** After `flow skill install` the start hook is in place, nothing of the stale one is left, the status
      line shows the command, and the hooks of every other event are as before. */
  lemma SkillInstallEffect<S(!new)>(d: Dialect<S>, s: Fields<S>, line: S, start: Hook<S>, prompt: Hook<S>, event: S)
    requires Sound(d) && Hooks(d, start, prompt) && Own(d, line) && d.trim(line) == line
    ensures var t := SkillInstalled(d, s, line, start, prompt);
      && Installed(d, start.command, Entries(d, t, start.event))
      && !AnyAffected(d, prompt.command, Entries(d, t, prompt.event))
      && HasLine(d, t) && d.trim(StringField(t[d.statusLine].fields, d.command, d.empty)) == line
      && (event != start.event && event != prompt.event ==> Entries(d, t, event) == Entries(d, s, event))
  {
    var hooked := HookInstalled(d, s, start.event, start.matcher, start.command);
    var lined := LineInstalled(d, hooked, line);
    HookIsThere(d, s, start.event, start.matcher, start.command);
    LineStaysAside(d, hooked, line, start.event);
    LineStaysAside(d, hooked, line, event);
    OtherEvent(d, lined, prompt, start.event);
    UninstallTwice(d, lined, prompt.event, prompt.command);
    InstallShowsCommand(d, hooked, line);
    LineAfterHook(d, lined, prompt);
    if event != start.event && event != prompt.event {
      OtherEvent(d, s, start, event);
      OtherEvent(d, lined, prompt, event);
    }
  }

  /** Removing a hook does not touch the status line or the saved one. */
  lemma LineAfterHook<S(!new)>(d: Dialect<S>, s: Fields<S>, h: Hook<S>)
    requires Sound(d)
    ensures var t := HookUninstalled(d, s, h.event, h.command);
      forall k :: k == d.statusLine || k == d.previous ==> (k in t <==> k in s) && (k in t ==> t[k] == s[k])
  {
    HookFrame(d, s, h.event, h.matcher, h.command);
    var t := HookUninstalled(d, s, h.event, h.command);
    Agree(t, s, d.hooks, d.statusLine);
    Agree(t, s, d.hooks, d.previous);
  }

  /** After `flow skill uninstall` nothing of either hook is left, the status line is not flow's, unless
      flow's own had been saved, and the hooks of every other event are as before. */
  lemma SkillUninstallEffect<S(!new)>(d: Dialect<S>, s: Fields<S>, start: Hook<S>, prompt: Hook<S>, event: S)
    requires Sound(d) && Hooks(d, start, prompt)
    ensures var t := SkillUninstalled(d, s, start, prompt);
      && !AnyAffected(d, start.command, Entries(d, t, start.event))
      && !AnyAffected(d, prompt.command, Entries(d, t, prompt.event))
      && (SavedIsForeign(d, s) ==> !LineIsFlow(d, t))
      && (event != start.event && event != prompt.event ==> Entries(d, t, event) == Entries(d, s, event))
  {
    var one := HookUninstalled(d, s, start.event, start.command);
    var two := HookUninstalled(d, one, prompt.event, prompt.command);
    UninstallTwice(d, s, start.event, start.command);
    UninstallTwice(d, one, prompt.event, prompt.command);
    OtherEvent(d, one, prompt, start.event);
    LineAfterHook(d, s, start);
    LineAfterHook(d, one, prompt);
    HooksAfterLine(d, two);
    if event != start.event && event != prompt.event {
      OtherEvent(d, s, start, event);
      OtherEvent(d, one, prompt, event);
    }
  }

  lemma HooksAfterLine<S(!new)>(d: Dialect<S>, s: Fields<S>)
    requires Sound(d)
    ensures ObjectField(LineUninstalled(d, s), d.hooks) == ObjectField(s, d.hooks)
    ensures SavedIsForeign(d, s) ==> !LineIsFlow(d, LineUninstalled(d, s))
  {
  }

  /** One `flow skill uninstall` undoes any number of `flow skill install`, whatever the roots, exactly when
      the settings were clean of flow's status line and hook and held nothing of the stale one. */
  lemma SkillRoundTrip<S(!new)>(d: Dialect<S>, s: Fields<S>, lines: seq<S>, start: Hook<S>, prompt: Hook<S>)
    requires Sound(d) && Hooks(d, start, prompt)
    requires lines != [] && forall i :: 0 <= i < |lines| ==> Own(d, lines[i])
    ensures SkillUninstalled(d, SkillInstalls(d, s, lines, start, prompt), start, prompt) == s <==>
      LineClean(d, s) && Clean(d, s, start.event, start.command)
      && !AnyAffected(d, prompt.command, Entries(d, s, prompt.event))
  {
    var set_ := HooksSet(d, s, start, prompt);
    var unhooked := HookUninstalled(d, set_, start.event, start.command);
    InstallsAreOne(d, s, lines, start, prompt);
    UninstallCommutesWithAll(d, set_, lines, start);
    UninstallCommutesWithAll(d, unhooked, lines, prompt);
    HooksUndone(d, s, start, prompt);
    if unhooked == s {
      InstallsThenUninstall(d, s, lines);
    } else {
      LineKeepsHooks(d, unhooked, lines);
      HooksOnly(d, s, start, prompt);
      if (d.hooks in unhooked <==> d.hooks in s) && (d.hooks in s ==> unhooked[d.hooks] == s[d.hooks]) {
        SameApartFrom(unhooked, s, d.hooks);
      }
    }
  }
}
