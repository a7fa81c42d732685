/** Installing flow's hook entries into an agent's settings file (internal/agenthooks/local.go). The
    module is generic in S, the text of keys and strings; Dialect holds the few texts the installer
    knows and what it does with a text: trim it, and recognize a command managed for the provider. */
module HookInstall {
  import opened Json

  datatype Dialect<!S> = Dialect(
    hooks: S, matcher: S, command: S, type_: S, commandType: S, empty: S,
    trim: S -> S, managed: S -> bool)

  ghost predicate Sound<S(!new)>(d: Dialect<S>) {
    && d.matcher != d.hooks && d.command != d.type_
    && d.trim(d.empty) == d.empty && !d.managed(d.empty)
  }

  /** One row of a provider's event table. */
  datatype HookSpec<S> = HookSpec(event: S, matcher: S)

  /** What an install asks for; the provider's command is one it manages. */
  datatype Wish<S> = Wish(event: S, matcher: S, command: S, extras: Fields<S>)

  ghost predicate Proper<S(!new)>(d: Dialect<S>, w: Wish<S>) {
    d.managed(w.command) && d.command !in w.extras
  }

  function CommandOf<S(==)>(d: Dialect<S>, h: Value<S>): S {
    if h.Obj? then StringField(h.fields, d.command, d.empty) else d.empty
  }

  function MatcherOf<S(==)>(d: Dialect<S>, m: Fields<S>): S {
    d.trim(StringField(m, d.matcher, d.empty))
  }

  /** Whether a hook stays; here says that its group has the wanted matcher. */
  predicate Keeps<S(==)>(d: Dialect<S>, w: Wish<S>, here: bool, h: Value<S>) {
    if !h.Obj? then true
    else if CommandOf(d, h) == w.command then here
    else !d.managed(CommandOf(d, h))
  }

  function KeptHooks<S(==)>(d: Dialect<S>, w: Wish<S>, here: bool, inner: seq<Value<S>>): seq<Value<S>> {
    if inner == [] then []
    else
      var last := inner[|inner| - 1];
      KeptHooks(d, w, here, inner[..|inner| - 1]) + if Keeps(d, w, here, last) then [last] else []
  }

  function KeptEntry<S(==)>(d: Dialect<S>, w: Wish<S>, e: Value<S>): seq<Value<S>> {
    if !e.Obj? then [e]
    else
      var m := e.fields;
      var inner := ArrayField(m, d.hooks);
      var filtered := KeptHooks(d, w, MatcherOf(d, m) == d.trim(w.matcher), inner);
      if filtered == [] then []
      else if |filtered| != |inner| then [Obj(m[d.hooks := Arr(filtered)])]
      else [e]
  }

  function KeptEntries<S(==)>(d: Dialect<S>, w: Wish<S>, entries: seq<Value<S>>): seq<Value<S>> {
    if entries == [] then []
    else KeptEntries(d, w, entries[..|entries| - 1]) + KeptEntry(d, w, entries[|entries| - 1])
  }

  predicate HasCommand<S(==)>(d: Dialect<S>, command: S, inner: seq<Value<S>>) {
    AnyHas(inner, d.command, command, d.empty)
  }

  predicate AnyHasCommand<S(==)>(d: Dialect<S>, command: S, entries: seq<Value<S>>) {
    exists i :: 0 <= i < |entries| && entries[i].Obj? && HasCommand(d, command, ArrayField(entries[i].fields, d.hooks))
  }

  function Group<S(==)>(d: Dialect<S>, w: Wish<S>): Value<S> {
    var hook := map[d.type_ := Str(d.commandType), d.command := Str(w.command)] + w.extras;
    var group := map[d.hooks := Arr([Obj(hook)])];
    Obj(if d.trim(w.matcher) != d.empty then group[d.matcher := Str(w.matcher)] else group)
  }

  function Entries<S(==)>(d: Dialect<S>, cfg: Fields<S>, event: S): seq<Value<S>> {
    ArrayField(ObjectField(cfg, d.hooks), event)
  }

  function WithEntries<S(==)>(d: Dialect<S>, cfg: Fields<S>, event: S, entries: seq<Value<S>>): Fields<S> {
    cfg[d.hooks := Obj(ObjectField(cfg, d.hooks)[event := Arr(entries)])]
  }

  /** The entries under the event after an install. */
  function NewEntries<S(==)>(d: Dialect<S>, w: Wish<S>, entries: seq<Value<S>>): seq<Value<S>> {
    var kept := KeptEntries(d, w, entries);
    if AnyHasCommand(d, w.command, kept) then kept else kept + [Group(d, w)]
  }

  /** The settings after an install: written only when the entries change. */
  function Installed<S(==)>(d: Dialect<S>, cfg: Fields<S>, w: Wish<S>): Fields<S> {
    var entries := Entries(d, cfg, w.event);
    var new_ := NewEntries(d, w, entries);
    if new_ == entries then cfg else WithEntries(d, cfg, w.event, new_)
  }

  class HookFile<S(==,!new)> {
    var cfg: Fields<S>
    const d: Dialect<S>

    constructor (d: Dialect<S>, cfg: Fields<S>)
      ensures this.d == d && this.cfg == cfg
    {
      this.d := d;
      this.cfg := cfg;
    }

    method FilterHooks(w: Wish<S>, here: bool, inner: seq<Value<S>>)
      returns (filtered: seq<Value<S>>, dropped: bool, desired: bool)
      ensures filtered == KeptHooks(d, w, here, inner)
      ensures dropped <==> |filtered| != |inner|
      ensures |filtered| <= |inner| && (!dropped ==> filtered == inner)
      ensures desired <==> HasCommand(d, w.command, filtered)
    {
      filtered, dropped, desired := [], false, false;
      var i := 0;
      while i < |inner|
        invariant 0 <= i <= |inner| && |filtered| <= i
        invariant filtered == KeptHooks(d, w, here, inner[..i])
        invariant dropped <==> |filtered| != i
        invariant !dropped ==> filtered == inner[..i]
        invariant desired <==> HasCommand(d, w.command, filtered)
      {
        assert inner[..i + 1][..i] == inner[..i];
        var h := inner[i];
        AnyHasAppend(filtered, h, d.command, w.command, d.empty);
        i := i + 1;
        if !h.Obj? {
          filtered := filtered + [h];
          continue;
        }
        var cmd := StringField(h.fields, d.command, d.empty);
        if cmd == w.command {
          if !here {
            dropped := true;
            continue;
          }
          desired := true;
          filtered := filtered + [h];
          continue;
        }
        if d.managed(cmd) {
          dropped := true;
          continue;
        }
        filtered := filtered + [h];
      }
      assert inner[..|inner|] == inner;
    }

    /** One entry of the outer loop: nothing is left of a group without hooks. */
    method FilterEntry(w: Wish<S>, entry: Value<S>) returns (kept: seq<Value<S>>, changed: bool, desired: bool)
      ensures kept == KeptEntry(d, w, entry)
      ensures changed <==> kept != [entry]
      ensures desired <==> AnyHasCommand(d, w.command, kept)
    {
      if !entry.Obj? {
        return [entry], false, false;
      }
      var m := entry.fields;
      var inner := ArrayField(m, d.hooks);
      var filtered, dropped, found := FilterHooks(w, MatcherOf(d, m) == d.trim(w.matcher), inner);
      changed, desired := dropped, found;
      if |filtered| != |inner| {
        m := m[d.hooks := Arr(filtered)];
      }
      if |filtered| == 0 {
        return [], true, desired;
      }
      kept := [Obj(m)];
      assert kept[0] == Obj(m) && ArrayField(m, d.hooks) == filtered;
    }

    method FilterEntries(w: Wish<S>, entries: seq<Value<S>>) returns (kept: seq<Value<S>>, changed: bool, desired: bool)
      ensures kept == KeptEntries(d, w, entries)
      ensures changed <==> kept != entries
      ensures desired <==> AnyHasCommand(d, w.command, kept)
    {
      kept, changed, desired := [], false, false;
      var i := 0;
      while i < |entries|
        invariant 0 <= i <= |entries| && |kept| <= i
        invariant kept == KeptEntries(d, w, entries[..i])
        invariant changed <==> kept != entries[..i]
        invariant desired <==> AnyHasCommand(d, w.command, kept)
      {
        var one, c, found := FilterEntry(w, entries[i]);
        KeptNext(d, w, entries, i);
        AnyHasCommandConcat(d, w.command, kept, one);
        kept, changed, desired := kept + one, changed || c, desired || found;
        i := i + 1;
      }
      assert entries[..|entries|] == entries;
    }

    /** installHook: the return value says whether the file was written. */
    method InstallHook(w: Wish<S>) returns (written: bool)
      requires Sound(d) && Proper(d, w)
      modifies this`cfg
      ensures cfg == Installed(d, old(cfg), w)
      ensures written <==> cfg != old(cfg)
    {
      var hooks := ObjectField(cfg, d.hooks);
      var entries := ArrayField(hooks, w.event);
      var kept, changed, hasDesired := FilterEntries(w, entries);
      if hasDesired {
        if changed {
          WrittenDiffers(d, cfg, w.event, kept);
          cfg := cfg[d.hooks := Obj(hooks[w.event := Arr(kept)])];
        }
        return changed;
      }
      kept := kept + [Group(d, w)];
      GroupIsNew(d, w, entries);
      WrittenDiffers(d, cfg, w.event, kept);
      cfg := cfg[d.hooks := Obj(hooks[w.event := Arr(kept)])];
      written := true;
    }

    /** The provider's part of InstallLocalWithOptions: every event of its table, in order. */
    method InstallEvents(specs: seq<HookSpec<S>>, command: S, extras: Fields<S>) returns (changed: bool)
      requires Sound(d) && d.managed(command) && d.command !in extras
      modifies this`cfg
      ensures cfg == Run(d, old(cfg), Wishes(specs, command, extras))
      ensures changed <==> AnyWritten(d, old(cfg), Wishes(specs, command, extras))
    {
      changed := false;
      ghost var ws := Wishes(specs, command, extras);
      for i := 0 to |specs|
        invariant cfg == Run(d, old(cfg), ws[..i])
        invariant changed <==> AnyWritten(d, old(cfg), ws[..i])
      {
        RunNext(d, old(cfg), ws, i);
        var added := InstallHook(Wish(specs[i].event, specs[i].matcher, command, extras));
        changed := changed || added;
      }
      assert ws[..|specs|] == ws;
    }
  }

  function Wishes<S>(specs: seq<HookSpec<S>>, command: S, extras: Fields<S>): seq<Wish<S>> {
    seq(|specs|, i requires 0 <= i < |specs| => Wish(specs[i].event, specs[i].matcher, command, extras))
  }

  function Run<S(==)>(d: Dialect<S>, cfg: Fields<S>, ws: seq<Wish<S>>): Fields<S> {
    if ws == [] then cfg else Installed(d, Run(d, cfg, ws[..|ws| - 1]), ws[|ws| - 1])
  }

  /** Some install of the run writes the file. */
  ghost predicate AnyWritten<S(!new)>(d: Dialect<S>, cfg: Fields<S>, ws: seq<Wish<S>>) {
    ws != [] &&
    (AnyWritten(d, cfg, ws[..|ws| - 1]) || Run(d, cfg, ws) != Run(d, cfg, ws[..|ws| - 1]))
  }

  lemma RunNext<S(!new)>(d: Dialect<S>, cfg: Fields<S>, ws: seq<Wish<S>>, i: nat)
    requires i < |ws|
    ensures var before, after := Run(d, cfg, ws[..i]), Run(d, cfg, ws[..i + 1]);
      && after == Installed(d, before, ws[i])
      && (AnyWritten(d, cfg, ws[..i + 1]) <==> AnyWritten(d, cfg, ws[..i]) || after != before)
  {
    assert ws[..i + 1][..i] == ws[..i];
  }

  lemma KeptNext<S(!new)>(d: Dialect<S>, w: Wish<S>, entries: seq<Value<S>>, i: nat)
    requires i < |entries| && |KeptEntries(d, w, entries[..i])| <= i
    ensures var kept, one := KeptEntries(d, w, entries[..i]), KeptEntry(d, w, entries[i]);
      && KeptEntries(d, w, entries[..i + 1]) == kept + one
      && (kept + one == entries[..i + 1] <==> kept == entries[..i] && one == [entries[i]])
      && |kept + one| <= i + 1
  {
    assert entries[..i + 1] == entries[..i] + [entries[i]] && entries[..i + 1][..i] == entries[..i];
    KeptGrows(entries[..i], KeptEntries(d, w, entries[..i]), entries[i], KeptEntry(d, w, entries[i]));
  }

  lemma AnyHasCommandConcat<S(!new)>(d: Dialect<S>, command: S, a: seq<Value<S>>, b: seq<Value<S>>)
    ensures AnyHasCommand(d, command, a + b) <==> AnyHasCommand(d, command, a) || AnyHasCommand(d, command, b)
  {
    if AnyHasCommand(d, command, a) {
      var i :| 0 <= i < |a| && a[i].Obj? && HasCommand(d, command, ArrayField(a[i].fields, d.hooks));
      assert (a + b)[i] == a[i];
    }
    if AnyHasCommand(d, command, b) {
      var i :| 0 <= i < |b| && b[i].Obj? && HasCommand(d, command, ArrayField(b[i].fields, d.hooks));
      assert (a + b)[|a| + i] == b[i];
    }
  }

  /** Entries that end in the group an install appends already had the command. */
  lemma GroupHasCommand<S(!new)>(d: Dialect<S>, w: Wish<S>, entries: seq<Value<S>>)
    requires Sound(d) && Proper(d, w) && entries != [] && entries[|entries| - 1] == Group(d, w)
    ensures AnyHasCommand(d, w.command, KeptEntries(d, w, entries))
  {
    GroupIsKept(d, w);
    assert AnyHasCommand(d, w.command, [Group(d, w)]) by {
      assert [Group(d, w)][0] == Group(d, w);
    }
    AnyHasCommandConcat(d, w.command, KeptEntries(d, w, entries[..|entries| - 1]), [Group(d, w)]);
  }

  lemma GroupIsNew<S(!new)>(d: Dialect<S>, w: Wish<S>, entries: seq<Value<S>>)
    requires Sound(d) && Proper(d, w) && !AnyHasCommand(d, w.command, KeptEntries(d, w, entries))
    ensures KeptEntries(d, w, entries) + [Group(d, w)] != entries
  {
    if entries != [] && entries[|entries| - 1] == Group(d, w) {
      GroupHasCommand(d, w, entries);
    }
  }

  lemma WrittenDiffers<S(!new)>(d: Dialect<S>, cfg: Fields<S>, event: S, entries: seq<Value<S>>)
    requires entries != Entries(d, cfg, event)
    ensures WithEntries(d, cfg, event, entries) != cfg
  {
    var after := WithEntries(d, cfg, event, entries);
    assert Entries(d, after, event) == entries;
  }

  /** The appended entry holds the command under the wanted matcher. */
  lemma GroupIsKept<S(!new)>(d: Dialect<S>, w: Wish<S>)
    requires Sound(d) && Proper(d, w)
    ensures Group(d, w).Obj? && MatcherOf(d, Group(d, w).fields) == d.trim(w.matcher)
    ensures HasCommand(d, w.command, ArrayField(Group(d, w).fields, d.hooks))
    ensures KeptEntry(d, w, Group(d, w)) == [Group(d, w)]
  {
    var inner := ArrayField(Group(d, w).fields, d.hooks);
    assert |inner| == 1 && inner[0].Obj? && CommandOf(d, inner[0]) == w.command;
    assert inner[..0] == [];
    assert KeptHooks(d, w, true, inner) == [inner[0]];
  }

  /** The appended entry is one command hook with the provider's extra fields, under the wanted matcher. */
  lemma GroupShowsExtras<S(!new)>(d: Dialect<S>, w: Wish<S>)
    requires Sound(d) && Proper(d, w)
    ensures Group(d, w).fields.Keys == {d.hooks} + if d.trim(w.matcher) == d.empty then {} else {d.matcher}
    ensures d.trim(w.matcher) != d.empty ==> Group(d, w).fields[d.matcher] == Str(w.matcher)
    ensures var inner := ArrayField(Group(d, w).fields, d.hooks);
      && |inner| == 1 && inner[0].Obj?
      && inner[0].fields.Keys == {d.type_, d.command} + w.extras.Keys
      && inner[0].fields[d.command] == Str(w.command)
      && (d.type_ !in w.extras ==> inner[0].fields[d.type_] == Str(d.commandType))
      && (forall k :: k in w.extras ==> inner[0].fields[k] == w.extras[k])
  {
  }

  // ---- a settings file as a flat list of hooks ----

  /** One hook with its group's other fields, or an entry that is no group. */
  datatype Item<S> = Loose(e: Value<S>) | Hook(group: Fields<S>, h: Value<S>)

  function FlatInner<S>(group: Fields<S>, inner: seq<Value<S>>): seq<Item<S>> {
    if inner == [] then [] else FlatInner(group, inner[..|inner| - 1]) + [Hook(group, inner[|inner| - 1])]
  }

  function FlatEntry<S(==)>(d: Dialect<S>, e: Value<S>): seq<Item<S>> {
    if e.Obj? then FlatInner(e.fields - {d.hooks}, ArrayField(e.fields, d.hooks)) else [Loose(e)]
  }

  function Flat<S(==)>(d: Dialect<S>, entries: seq<Value<S>>): seq<Item<S>> {
    if entries == [] then []
    else Flat(d, entries[..|entries| - 1]) + FlatEntry(d, entries[|entries| - 1])
  }

  predicate KeepsItem<S(==)>(d: Dialect<S>, w: Wish<S>, it: Item<S>) {
    it.Hook? ==> Keeps(d, w, MatcherOf(d, it.group) == d.trim(w.matcher), it.h)
  }

  function KeptItems<S(==)>(d: Dialect<S>, w: Wish<S>, items: seq<Item<S>>): seq<Item<S>> {
    if items == [] then []
    else
      var last := items[|items| - 1];
      KeptItems(d, w, items[..|items| - 1]) + if KeepsItem(d, w, last) then [last] else []
  }

  /** A hook managed for the provider. */
  predicate IsOurs<S(==)>(d: Dialect<S>, it: Item<S>) {
    it.Hook? && it.h.Obj? && d.managed(CommandOf(d, it.h))
  }

  /** Everything else, in order, each with its group's other fields. */
  function Foreign<S(==)>(d: Dialect<S>, items: seq<Item<S>>): seq<Item<S>> {
    if items == [] then []
    else
      var last := items[|items| - 1];
      Foreign(d, items[..|items| - 1]) + if IsOurs(d, last) then [] else [last]
  }

  /** Exactly the hooks the last install asked for, and at least one of them. */
  ghost predicate Converged<S(!new)>(d: Dialect<S>, w: Wish<S>, items: seq<Item<S>>) {
    && (forall i :: 0 <= i < |items| && IsOurs(d, items[i]) ==>
          CommandOf(d, items[i].h) == w.command && MatcherOf(d, items[i].group) == d.trim(w.matcher))
    && (exists i :: 0 <= i < |items| && IsOurs(d, items[i]))
  }

  lemma {:induction false} KeptItemsConcat<S(!new)>(d: Dialect<S>, w: Wish<S>, a: seq<Item<S>>, b: seq<Item<S>>)
    ensures KeptItems(d, w, a + b) == KeptItems(d, w, a) + KeptItems(d, w, b)
  {
    if b == [] {
      assert a + b == a;
    } else {
      KeptItemsConcat(d, w, a, b[..|b| - 1]);
      assert (a + b)[..|a + b| - 1] == a + b[..|b| - 1];
      assert (a + b)[|a + b| - 1] == b[|b| - 1];
    }
  }

  lemma {:induction false} FlatConcat<S(!new)>(d: Dialect<S>, a: seq<Value<S>>, b: seq<Value<S>>)
    ensures Flat(d, a + b) == Flat(d, a) + Flat(d, b)
  {
    if b == [] {
      assert a + b == a;
    } else {
      FlatConcat(d, a, b[..|b| - 1]);
      assert (a + b)[..|a + b| - 1] == a + b[..|b| - 1];
      assert (a + b)[|a + b| - 1] == b[|b| - 1];
    }
  }

  lemma FlatOne<S(!new)>(d: Dialect<S>, e: Value<S>)
    ensures Flat(d, [e]) == FlatEntry(d, e)
  {
    assert [e][..0] == [];
    assert Flat(d, [e]) == [] + FlatEntry(d, e);
  }

  lemma {:induction false} FlatKeptInner<S(!new)>(d: Dialect<S>, w: Wish<S>, group: Fields<S>, inner: seq<Value<S>>)
    ensures var here := MatcherOf(d, group) == d.trim(w.matcher);
      FlatInner(group, KeptHooks(d, w, here, inner)) == KeptItems(d, w, FlatInner(group, inner))
  {
    if inner != [] {
      var init, last := inner[..|inner| - 1], inner[|inner| - 1];
      var here := MatcherOf(d, group) == d.trim(w.matcher);
      FlatKeptInner(d, w, group, init);
      var items := FlatInner(group, inner);
      assert items[..|items| - 1] == FlatInner(group, init) && items[|items| - 1] == Hook(group, last);
      var kept := KeptHooks(d, w, here, init);
      assert (kept + [last])[..|kept|] == kept && kept + [] == kept;
      assert KeptItems(d, w, items[..|items| - 1]) + [] == KeptItems(d, w, items[..|items| - 1]);
    }
  }

  /** The group's other fields decide its matcher and survive a rewrite of its hooks. */
  lemma OtherFields<S(!new)>(d: Dialect<S>, m: Fields<S>, inner: seq<Value<S>>)
    requires Sound(d)
    ensures MatcherOf(d, m) == MatcherOf(d, m - {d.hooks})
    ensures m[d.hooks := Arr(inner)] - {d.hooks} == m - {d.hooks}
    ensures ArrayField(m[d.hooks := Arr(inner)], d.hooks) == inner
    ensures MatcherOf(d, m[d.hooks := Arr(inner)]) == MatcherOf(d, m)
  {
  }

  lemma {:induction false} KeptAll<S(!new)>(d: Dialect<S>, w: Wish<S>, here: bool, inner: seq<Value<S>>)
    ensures |KeptHooks(d, w, here, inner)| <= |inner|
    ensures |KeptHooks(d, w, here, inner)| == |inner| ==> KeptHooks(d, w, here, inner) == inner
  {
    if inner != [] {
      KeptAll(d, w, here, inner[..|inner| - 1]);
      assert inner == inner[..|inner| - 1] + [inner[|inner| - 1]];
    }
  }

  lemma FlatGroup<S(!new)>(d: Dialect<S>, m: Fields<S>, inner: seq<Value<S>>)
    requires Sound(d)
    ensures Flat(d, [Obj(m[d.hooks := Arr(inner)])]) == FlatInner(m - {d.hooks}, inner)
  {
    OtherFields(d, m, inner);
    FlatOne(d, Obj(m[d.hooks := Arr(inner)]));
  }

  lemma FlatKeptGroup<S(!new)>(d: Dialect<S>, w: Wish<S>, m: Fields<S>)
    requires Sound(d)
    ensures Flat(d, KeptEntry(d, w, Obj(m))) == KeptItems(d, w, FlatEntry(d, Obj(m)))
  {
    var inner, here := ArrayField(m, d.hooks), MatcherOf(d, m) == d.trim(w.matcher);
    var filtered := KeptHooks(d, w, here, inner);
    OtherFields(d, m, filtered);
    FlatKeptInner(d, w, m - {d.hooks}, inner);
    KeptAll(d, w, here, inner);
    FlatGroup(d, m, filtered);
    FlatOne(d, Obj(m));
  }

  lemma FlatKeptEntry<S(!new)>(d: Dialect<S>, w: Wish<S>, e: Value<S>)
    requires Sound(d)
    ensures Flat(d, KeptEntry(d, w, e)) == KeptItems(d, w, FlatEntry(d, e))
  {
    if e.Obj? {
      FlatKeptGroup(d, w, e.fields);
    } else {
      FlatOne(d, e);
      assert [Loose(e)][..0] == [];
      assert KeptItems(d, w, [Loose(e)]) == [] + [Loose(e)];
    }
  }

  /** Filtering a settings file filters its flat list. */
  lemma {:induction false} FlatKept<S(!new)>(d: Dialect<S>, w: Wish<S>, entries: seq<Value<S>>)
    requires Sound(d)
    ensures Flat(d, KeptEntries(d, w, entries)) == KeptItems(d, w, Flat(d, entries))
  {
    if entries != [] {
      var init, last := entries[..|entries| - 1], entries[|entries| - 1];
      FlatKept(d, w, init);
      FlatKeptEntry(d, w, last);
      FlatConcat(d, KeptEntries(d, w, init), KeptEntry(d, w, last));
      KeptItemsConcat(d, w, Flat(d, init), FlatEntry(d, last));
    }
  }

  // ---- what one install leaves ----

  lemma {:induction false} ForeignConcat<S(!new)>(d: Dialect<S>, a: seq<Item<S>>, b: seq<Item<S>>)
    ensures Foreign(d, a + b) == Foreign(d, a) + Foreign(d, b)
  {
    if b == [] {
      assert a + b == a;
    } else {
      ForeignConcat(d, a, b[..|b| - 1]);
      assert (a + b)[..|a + b| - 1] == a + b[..|b| - 1];
      assert (a + b)[|a + b| - 1] == b[|b| - 1];
    }
  }

  lemma {:induction false} ForeignKept<S(!new)>(d: Dialect<S>, w: Wish<S>, items: seq<Item<S>>)
    requires Proper(d, w)
    ensures Foreign(d, KeptItems(d, w, items)) == Foreign(d, items)
  {
    if items != [] {
      var init, last := items[..|items| - 1], items[|items| - 1];
      ForeignKept(d, w, init);
      var kept := KeptItems(d, w, init);
      assert (kept + [last])[..|kept|] == kept && kept + [] == kept;
      assert Foreign(d, kept) + [] == Foreign(d, kept);
    }
  }

  /** A kept hook of ours is the wanted one. */
  lemma {:induction false} OursKept<S(!new)>(d: Dialect<S>, w: Wish<S>, items: seq<Item<S>>, i: nat)
    requires i < |KeptItems(d, w, items)| && IsOurs(d, KeptItems(d, w, items)[i])
    ensures var it := KeptItems(d, w, items)[i];
      CommandOf(d, it.h) == w.command && MatcherOf(d, it.group) == d.trim(w.matcher)
  {
    if items != [] {
      var init := items[..|items| - 1];
      if i < |KeptItems(d, w, init)| {
        OursKept(d, w, init, i);
      }
    }
  }

  lemma FlatOfGroup<S(!new)>(d: Dialect<S>, w: Wish<S>) returns (it: Item<S>)
    requires Sound(d) && Proper(d, w)
    ensures Flat(d, [Group(d, w)]) == [it]
    ensures IsOurs(d, it) && CommandOf(d, it.h) == w.command && MatcherOf(d, it.group) == d.trim(w.matcher)
  {
    GroupIsKept(d, w);
    var m := Group(d, w).fields;
    var inner := ArrayField(m, d.hooks);
    FlatOne(d, Group(d, w));
    OtherFields(d, m, inner);
    it := Hook(m - {d.hooks}, inner[0]);
    assert |inner| == 1 && inner[..0] == [];
    assert FlatInner(m - {d.hooks}, inner) == [] + [it];
  }

  /** A group with the command puts it in the flat list. */
  lemma {:induction false} InnerPresent<S(!new)>(group: Fields<S>, inner: seq<Value<S>>, j: nat)
    requires j < |inner|
    ensures |FlatInner(group, inner)| == |inner| && FlatInner(group, inner)[j] == Hook(group, inner[j])
  {
    var init := inner[..|inner| - 1];
    if init != [] {
      InnerPresent(group, init, if j < |init| then j else 0);
    }
  }

  lemma PresentInGroup<S(!new)>(d: Dialect<S>, w: Wish<S>, m: Fields<S>) returns (it: Item<S>)
    requires Proper(d, w) && HasCommand(d, w.command, ArrayField(m, d.hooks))
    ensures it in FlatEntry(d, Obj(m)) && IsOurs(d, it)
  {
    var inner := ArrayField(m, d.hooks);
    var j :| 0 <= j < |inner| && inner[j].Obj? && CommandOf(d, inner[j]) == w.command;
    InnerPresent(m - {d.hooks}, inner, j);
    it := Hook(m - {d.hooks}, inner[j]);
  }

  lemma {:induction false} FlatContains<S(!new)>(d: Dialect<S>, entries: seq<Value<S>>, i: nat, it: Item<S>)
    requires i < |entries| && it in FlatEntry(d, entries[i])
    ensures it in Flat(d, entries)
  {
    if i < |entries| - 1 {
      FlatContains(d, entries[..|entries| - 1], i, it);
    }
  }

  lemma Present<S(!new)>(d: Dialect<S>, w: Wish<S>, entries: seq<Value<S>>) returns (it: Item<S>)
    requires Proper(d, w) && AnyHasCommand(d, w.command, entries)
    ensures it in Flat(d, entries) && IsOurs(d, it)
  {
    var i :| 0 <= i < |entries| && entries[i].Obj? && HasCommand(d, w.command, ArrayField(entries[i].fields, d.hooks));
    it := PresentInGroup(d, w, entries[i].fields);
    FlatContains(d, entries, i, it);
  }

  lemma NewEntriesForeign<S(!new)>(d: Dialect<S>, w: Wish<S>, entries: seq<Value<S>>)
    requires Sound(d) && Proper(d, w)
    ensures Foreign(d, Flat(d, NewEntries(d, w, entries))) == Foreign(d, Flat(d, entries))
  {
    var kept := KeptEntries(d, w, entries);
    FlatKept(d, w, entries);
    ForeignKept(d, w, Flat(d, entries));
    if !AnyHasCommand(d, w.command, kept) {
      var it := FlatOfGroup(d, w);
      FlatConcat(d, kept, [Group(d, w)]);
      ForeignConcat(d, Flat(d, kept), [it]);
      assert [it][..0] == [];
      assert Foreign(d, [it]) == [];
    }
  }

  lemma NewEntriesConverged<S(!new)>(d: Dialect<S>, w: Wish<S>, entries: seq<Value<S>>)
    requires Sound(d) && Proper(d, w)
    ensures Converged(d, w, Flat(d, NewEntries(d, w, entries)))
  {
    var kept := KeptEntries(d, w, entries);
    var items := Flat(d, kept);
    FlatKept(d, w, entries);
    forall i | 0 <= i < |items| && IsOurs(d, items[i])
      ensures CommandOf(d, items[i].h) == w.command && MatcherOf(d, items[i].group) == d.trim(w.matcher)
    {
      OursKept(d, w, Flat(d, entries), i);
    }
    if AnyHasCommand(d, w.command, kept) {
      var it := Present(d, w, kept);
    } else {
      var it := FlatOfGroup(d, w);
      FlatConcat(d, kept, [Group(d, w)]);
      assert (items + [it])[|items|] == it;
    }
  }

  // ---- installing again ----

  lemma {:induction false} KeptHooksTwice<S(!new)>(d: Dialect<S>, w: Wish<S>, here: bool, inner: seq<Value<S>>)
    ensures KeptHooks(d, w, here, KeptHooks(d, w, here, inner)) == KeptHooks(d, w, here, inner)
  {
    if inner != [] {
      var init, last := inner[..|inner| - 1], inner[|inner| - 1];
      KeptHooksTwice(d, w, here, init);
      var kept := KeptHooks(d, w, here, init);
      assert (kept + [last])[..|kept|] == kept && kept + [] == kept;
    }
  }

  lemma KeptGroupTwice<S(!new)>(d: Dialect<S>, w: Wish<S>, m: Fields<S>)
    requires Sound(d)
    ensures KeptEntry(d, w, Obj(m)) == [] || KeptEntry(d, w, KeptEntry(d, w, Obj(m))[0]) == KeptEntry(d, w, Obj(m))
  {
    var inner, here := ArrayField(m, d.hooks), MatcherOf(d, m) == d.trim(w.matcher);
    var filtered := KeptHooks(d, w, here, inner);
    KeptHooksTwice(d, w, here, inner);
    OtherFields(d, m, filtered);
  }

  lemma {:induction false} KeptTwice<S(!new)>(d: Dialect<S>, w: Wish<S>, entries: seq<Value<S>>)
    requires Sound(d)
    ensures KeptEntries(d, w, KeptEntries(d, w, entries)) == KeptEntries(d, w, entries)
  {
    if entries != [] {
      var init, last := entries[..|entries| - 1], entries[|entries| - 1];
      KeptTwice(d, w, init);
      if last.Obj? {
        KeptGroupTwice(d, w, last.fields);
      }
      KeptAppend(d, w, KeptEntries(d, w, init), KeptEntry(d, w, last));
    }
  }

  lemma KeptAppend<S(!new)>(d: Dialect<S>, w: Wish<S>, kept: seq<Value<S>>, one: seq<Value<S>>)
    requires KeptEntries(d, w, kept) == kept && (one == [] || (|one| == 1 && KeptEntry(d, w, one[0]) == one))
    ensures KeptEntries(d, w, kept + one) == kept + one
  {
    if one != [] {
      assert (kept + one)[..|kept|] == kept;
    } else {
      assert kept + one == kept;
    }
  }

  lemma NewEntriesSettled<S(!new)>(d: Dialect<S>, w: Wish<S>, entries: seq<Value<S>>)
    requires Sound(d) && Proper(d, w)
    ensures var new_ := NewEntries(d, w, entries);
      NewEntries(d, w, new_) == new_
  {
    var kept := KeptEntries(d, w, entries);
    KeptTwice(d, w, entries);
    if !AnyHasCommand(d, w.command, kept) {
      GroupIsKept(d, w);
      KeptAppend(d, w, kept, [Group(d, w)]);
      GroupHasCommand(d, w, kept + [Group(d, w)]);
    }
  }

  // ---- runs of installs ----

  function Items<S(==)>(d: Dialect<S>, cfg: Fields<S>, event: S): seq<Item<S>> {
    Flat(d, Entries(d, cfg, event))
  }

  ghost predicate AllProper<S(!new)>(d: Dialect<S>, ws: seq<Wish<S>>) {
    forall i :: 0 <= i < |ws| ==> Proper(d, ws[i])
  }

  /** The last install of an event in a run. */
  function LastFor<S(==)>(ws: seq<Wish<S>>, event: S): seq<Wish<S>> {
    if ws == [] then []
    else if ws[|ws| - 1].event == event then [ws[|ws| - 1]]
    else LastFor(ws[..|ws| - 1], event)
  }

  lemma InstalledEntries<S(!new)>(d: Dialect<S>, cfg: Fields<S>, w: Wish<S>, event: S)
    ensures Entries(d, Installed(d, cfg, w), event)
         == if event == w.event then NewEntries(d, w, Entries(d, cfg, event)) else Entries(d, cfg, event)
  {
  }

  /** An install touches nothing but its own event's list: neither other top-level settings, nor, when
      there is a hooks object, anything else in it. */
  lemma InstallFrame<S(!new)>(d: Dialect<S>, cfg: Fields<S>, w: Wish<S>)
    ensures Installed(d, cfg, w) - {d.hooks} == cfg - {d.hooks}
    ensures ObjectField(Installed(d, cfg, w), d.hooks) - {w.event} == ObjectField(cfg, d.hooks) - {w.event}
  {
  }

  /** Over every run of installs the other hooks of every event, with their groups' other fields, stay
      in order, and so do all other settings. */
  lemma {:induction false} ForeignSurvives<S(!new)>(d: Dialect<S>, cfg: Fields<S>, ws: seq<Wish<S>>, event: S)
    requires Sound(d) && AllProper(d, ws)
    ensures Foreign(d, Items(d, Run(d, cfg, ws), event)) == Foreign(d, Items(d, cfg, event))
    ensures Run(d, cfg, ws) - {d.hooks} == cfg - {d.hooks}
  {
    if ws != [] {
      var init, w := ws[..|ws| - 1], ws[|ws| - 1];
      ForeignSurvives(d, cfg, init, event);
      var before := Run(d, cfg, init);
      InstalledEntries(d, before, w, event);
      NewEntriesForeign(d, w, Entries(d, before, event));
      InstallFrame(d, before, w);
    }
  }

  lemma InstallSettles<S(!new)>(d: Dialect<S>, cfg: Fields<S>, w: Wish<S>)
    requires Sound(d) && Proper(d, w)
    ensures NewEntries(d, w, Entries(d, Installed(d, cfg, w), w.event)) == Entries(d, Installed(d, cfg, w), w.event)
    ensures Converged(d, w, Items(d, Installed(d, cfg, w), w.event))
  {
    InstalledEntries(d, cfg, w, w.event);
    NewEntriesSettled(d, w, Entries(d, cfg, w.event));
    NewEntriesConverged(d, w, Entries(d, cfg, w.event));
  }

  /** Whether an install changes anything depends on its event's list only. */
  lemma SameEntriesSettled<S(!new)>(d: Dialect<S>, a: Fields<S>, b: Fields<S>, w: Wish<S>)
    requires Entries(d, a, w.event) == Entries(d, b, w.event) && Installed(d, a, w) == a
    ensures Installed(d, b, w) == b
  {
    InstalledEntries(d, a, w, w.event);
  }

  /** After any run that installed an event, its managed hooks are exactly the last install's, at least
      one is there, and that install would change nothing; an event no install named is as it was. */
  lemma {:induction false} RunConverges<S(!new)>(d: Dialect<S>, cfg: Fields<S>, ws: seq<Wish<S>>, event: S)
    requires Sound(d) && AllProper(d, ws)
    ensures var last, after := LastFor(ws, event), Run(d, cfg, ws);
      if last == [] then Entries(d, after, event) == Entries(d, cfg, event)
      else
        && last[0].event == event && Converged(d, last[0], Items(d, after, event))
        && Installed(d, after, last[0]) == after
  {
    if ws != [] {
      var init, w := ws[..|ws| - 1], ws[|ws| - 1];
      var before := Run(d, cfg, init);
      InstalledEntries(d, before, w, event);
      if w.event == event {
        InstallSettles(d, before, w);
      } else {
        RunConverges(d, cfg, init, event);
        var last := LastFor(ws, event);
        if last != [] {
          SameEntriesSettled(d, before, Run(d, cfg, ws), last[0]);
        }
      }
    }
  }

  ghost predicate DistinctEvents<S(!new)>(ws: seq<Wish<S>>) {
    forall i, j :: 0 <= i < j < |ws| ==> ws[i].event != ws[j].event
  }

  lemma {:induction false} LastIsOnly<S(!new)>(ws: seq<Wish<S>>, i: nat)
    requires i < |ws| && DistinctEvents(ws)
    ensures LastFor(ws, ws[i].event) == [ws[i]]
  {
    if i < |ws| - 1 {
      LastIsOnly(ws[..|ws| - 1], i);
    }
  }

  lemma {:induction false} FixedRun<S(!new)>(d: Dialect<S>, cfg: Fields<S>, ws: seq<Wish<S>>)
    requires forall i :: 0 <= i < |ws| ==> Installed(d, cfg, ws[i]) == cfg
    ensures Run(d, cfg, ws) == cfg && !AnyWritten(d, cfg, ws)
  {
    if ws != [] {
      FixedRun(d, cfg, ws[..|ws| - 1]);
    }
  }

  /** Installing a whole event table leaves every event of it converged, and doing so again writes nothing. */
  lemma InstallEventsSettles<S(!new)>(d: Dialect<S>, cfg: Fields<S>, ws: seq<Wish<S>>)
    requires Sound(d) && AllProper(d, ws) && DistinctEvents(ws)
    ensures var after := Run(d, cfg, ws);
      && (forall i :: 0 <= i < |ws| ==> Converged(d, ws[i], Items(d, after, ws[i].event)))
      && Run(d, after, ws) == after && !AnyWritten(d, after, ws)
  {
    var after := Run(d, cfg, ws);
    forall i | 0 <= i < |ws|
      ensures Converged(d, ws[i], Items(d, after, ws[i].event)) && Installed(d, after, ws[i]) == after
    {
      LastIsOnly(ws, i);
      RunConverges(d, cfg, ws, ws[i].event);
    }
    FixedRun(d, after, ws);
  }
}
