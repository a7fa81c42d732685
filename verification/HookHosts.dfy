/** The two hosts' hook tables and commands (internal/agenthooks/provider.go) meet what the installer's
    properties ask for. */
module HookHosts {
  import opened Text
  import opened Json
  import HC = HookCommand
  import HI = HookInstall

  function Spec(event: string): HI.HookSpec<string> {
    HI.HookSpec(event, [])
  }

  const CLAUDE_PROMPTS: seq<HI.HookSpec<string>> := [
    HI.HookSpec("SessionStart", "startup|resume"), Spec("UserPromptSubmit"), Spec("PermissionRequest"),
    Spec("PermissionDenied"), Spec("Notification")]

  const CLAUDE_TOOLS: seq<HI.HookSpec<string>> := [
    Spec("Elicitation"), Spec("ElicitationResult"), HI.HookSpec("PreToolUse", "AskUserQuestion|ExitPlanMode"),
    Spec("PostToolUse"), Spec("PostToolUseFailure")]

  const CLAUDE_STOPS: seq<HI.HookSpec<string>> := [
    Spec("PostToolBatch"), Spec("Stop"), Spec("StopFailure"),
    Spec("SessionEnd"), Spec("TeammateIdle")]

  const CLAUDE_TASKS: seq<HI.HookSpec<string>> := [
    Spec("SubagentStart"), Spec("SubagentStop"), Spec("TaskCreated"),
    Spec("TaskCompleted")]

  const CODEX_EVENTS: seq<HI.HookSpec<string>> := [
    HI.HookSpec("SessionStart", "startup|resume|clear"), Spec("UserPromptSubmit"), Spec("PreToolUse"),
    Spec("PermissionRequest"), Spec("PostToolUse"), Spec("Stop")]

  function Events(h: HC.Host): seq<HI.HookSpec<string>> {
    if h.Claude? then CLAUDE_PROMPTS + CLAUDE_TOOLS + CLAUDE_STOPS + CLAUDE_TASKS else CODEX_EVENTS
  }

  const CURRENT := HC.Stamp(HC.CURRENT_VERSION, [])

  function Extras(h: HC.Host): Fields<string> {
    if h.Claude? then map[] else map["timeout" := Number(3.0), "statusMessage" := Str("Syncing flow status")]
  }

  /** What the installer knows when it installs for a host, whatever version and URL the command
      carries. */
  function DialectOf(h: HC.Host): HI.Dialect<string> {
    DialectFor(HC.HostCommand(h, CURRENT))
  }

  function DialectFor(desired: string): HI.Dialect<string> {
    HI.Dialect("hooks", "matcher", "command", "type", "command", [], TrimSpace,
               existing => HC.SameManagedAgentHookCommand(existing, desired))
  }

  /** Whether a command is managed does not depend on version and URL of the command to be installed. */
  lemma ManagedByHost(h: HC.Host, existing: string, stamp: HC.Stamp)
    requires HC.Digits(stamp.version)
    ensures HC.SameManagedAgentHookCommand(existing, HC.HostCommand(h, stamp)) == DialectOf(h).managed(existing)
  {
    HostFacts(h, stamp);
    HC.CurrentVersionReads();
    HostFacts(h, CURRENT);
    SameByProvider(existing, HC.HostCommand(h, stamp), HC.HostCommand(h, CURRENT));
  }

  /** And exactly which: those that call flow's hook and name the host's provider. */
  lemma ManagedExactly(h: HC.Host, existing: string, stamp: HC.Stamp)
    requires HC.Digits(stamp.version)
    ensures HC.SameManagedAgentHookCommand(existing, HC.HostCommand(h, stamp)) <==>
      Occurs(TrimSpace(existing), "hook agent-event") && HC.HookProvider(TrimSpace(existing)) == HC.HostName(h)
  {
    HostFacts(h, stamp);
    HC.HostNamesDiffer(h, h);
    ManagedByProvider(existing, HC.HostCommand(h, stamp));
  }

  lemma ManagedByProvider(e: string, c: string)
    requires c != [] && Tidy(c) && Occurs(c, HC.MANAGED_TEXT) && HC.HookProvider(c) != []
    ensures HC.SameManagedAgentHookCommand(e, c) <==>
      Occurs(TrimSpace(e), HC.MANAGED_TEXT) && HC.HookProvider(TrimSpace(e)) == HC.HookProvider(c)
  {
    if Occurs(TrimSpace(e), HC.MANAGED_TEXT) {
      var i :| OccursAt(TrimSpace(e), HC.MANAGED_TEXT, i);
      assert TrimSpace(e) != [];
    }
  }

  lemma HostFacts(h: HC.Host, stamp: HC.Stamp)
    requires HC.Digits(stamp.version)
    ensures var c := HC.HostCommand(h, stamp);
      c != [] && Tidy(c) && Occurs(c, HC.MANAGED_TEXT) && HC.HookProvider(c) == HC.HostName(h)
  {
    HC.HostIsTidy(h, stamp);
    HC.HostIsManaged(h, stamp);
    HC.HostReads(h, stamp);
  }

  lemma SameByProvider(e: string, c1: string, c2: string)
    requires c1 != [] && Tidy(c1) && Occurs(c1, HC.MANAGED_TEXT)
    requires c2 != [] && Tidy(c2) && Occurs(c2, HC.MANAGED_TEXT)
    requires HC.HookProvider(c1) == HC.HookProvider(c2)
    ensures HC.SameManagedAgentHookCommand(e, c1) == HC.SameManagedAgentHookCommand(e, c2)
  {
  }

  lemma EmptyIsNotManaged(desired: string)
    ensures TrimSpace([]) == [] && !HC.SameManagedAgentHookCommand([], desired)
  {
  }

  lemma NamesDiffer()
    ensures "matcher" != "hooks" && "command" != "type"
  {
    assert |"matcher"| != |"hooks"| && |"command"| != |"type"|;
  }

  lemma DialectForIsSound(desired: string)
    ensures HI.Sound(DialectFor(desired))
  {
    EmptyIsNotManaged(desired);
    NamesDiffer();
  }

  lemma DialectIsSound(h: HC.Host)
    ensures HI.Sound(DialectOf(h))
  {
    DialectForIsSound(HC.HostCommand(h, CURRENT));
  }

  lemma CommandIsManaged(h: HC.Host, stamp: HC.Stamp)
    requires HC.Digits(stamp.version)
    ensures DialectOf(h).managed(HC.HostCommand(h, stamp))
  {
    HC.CurrentVersionReads();
    HC.ManagedIffSameHost(h, stamp, h, CURRENT);
  }

  lemma OtherKeys(key: string, a: string, b: string, x: Value<string>, y: Value<string>)
    requires key != a && key != b
    ensures key !in map[a := x, b := y]
  {
  }

  lemma ExtraNamesDiffer()
    ensures "command" != "timeout" && "command" != "statusMessage"
  {
    assert "command"[0] != "timeout"[0] && |"command"| != |"statusMessage"|;
  }

  lemma ExtrasLackCommand(h: HC.Host)
    ensures DialectOf(h).command !in Extras(h)
  {
    ExtraNamesDiffer();
    if h.Codex? {
      OtherKeys("command", "timeout", "statusMessage", Number(3.0), Str("Syncing flow status"));
    }
  }

  function EventWishes(h: HC.Host, stamp: HC.Stamp): seq<HI.Wish<string>> {
    HI.Wishes(Events(h), HC.HostCommand(h, stamp), Extras(h))
  }

  lemma WishesAreProper(h: HC.Host, stamp: HC.Stamp)
    requires HC.Digits(stamp.version)
    ensures HI.AllProper(DialectOf(h), EventWishes(h, stamp))
  {
    CommandIsManaged(h, stamp);
    ExtrasLackCommand(h);
  }

  /** A number that tells the event names apart. */
  function Rank(e: string): int {
    if |e| < 3 then 0 else 1000 * |e| + 2 * (e[0] as int) + e[2] as int
  }

  function RanksOf(specs: seq<HI.HookSpec<string>>): seq<int> {
    seq(|specs|, i requires 0 <= i < |specs| => Rank(specs[i].event))
  }

  lemma RanksConcat(a: seq<HI.HookSpec<string>>, b: seq<HI.HookSpec<string>>)
    ensures RanksOf(a + b) == RanksOf(a) + RanksOf(b)
  {
  }

  lemma ClaudePromptsRanks()
    ensures RanksOf(CLAUDE_PROMPTS) == [12281, 16271, 17274, 16274, 12272]
  {
  }

  lemma ClaudeToolsRanks()
    ensures RanksOf(CLAUDE_TOOLS) == [11243, 17243, 10261, 11275, 18275]
  {
  }

  lemma ClaudeStopsRanks()
    ensures RanksOf(CLAUDE_STOPS) == [13275, 4277, 11277, 10281, 12265]
  {
  }

  lemma ClaudeTasksRanks()
    ensures RanksOf(CLAUDE_TASKS) == [13264, 12264, 11283, 13283]
  {
  }

  lemma CodexEventsRanks()
    ensures RanksOf(CODEX_EVENTS) == [12281, 16271, 10261, 17274, 11275, 4277]
  {
  }

  function Ranks(h: HC.Host): seq<int> {
    if h.Claude? then
      [12281, 16271, 17274, 16274, 12272, 11243, 17243, 10261,
       11275, 18275, 13275, 4277, 11277, 10281, 12265, 13264, 12264, 11283, 13283]
    else
      [12281, 16271, 10261, 17274, 11275, 4277]
  }

  lemma EventRanks(h: HC.Host)
    ensures RanksOf(Events(h)) == Ranks(h)
  {
    if h.Claude? {
      RanksConcat(CLAUDE_PROMPTS + CLAUDE_TOOLS + CLAUDE_STOPS, CLAUDE_TASKS);
      RanksConcat(CLAUDE_PROMPTS + CLAUDE_TOOLS, CLAUDE_STOPS);
      RanksConcat(CLAUDE_PROMPTS, CLAUDE_TOOLS);
      ClaudePromptsRanks();
      ClaudeToolsRanks();
      ClaudeStopsRanks();
      ClaudeTasksRanks();
    } else {
      CodexEventsRanks();
    }
  }

  lemma RanksDiffer(h: HC.Host)
    ensures forall i, j :: 0 <= i < j < |Ranks(h)| ==> Ranks(h)[i] != Ranks(h)[j]
  {
  }

  lemma DistinctByRank(specs: seq<HI.HookSpec<string>>, command: string, extras: Fields<string>)
    requires forall i, j :: 0 <= i < j < |specs| ==> RanksOf(specs)[i] != RanksOf(specs)[j]
    ensures HI.DistinctEvents(HI.Wishes(specs, command, extras))
  {
    forall i, j | 0 <= i < j < |specs| ensures specs[i].event != specs[j].event {
      assert RanksOf(specs)[i] != RanksOf(specs)[j];
    }
  }

  /** The matchers of the tables: session starts, and for Claude the tools that ask; every other event
      matches anything. */
  lemma MatchersAre(h: HC.Host, i: nat)
    requires i < |Events(h)|
    ensures Events(h)[i].matcher ==
      if i == 0 then if h.Claude? then "startup|resume" else "startup|resume|clear"
      else if h.Claude? && i == 7 then "AskUserQuestion|ExitPlanMode"
      else []
  {
  }

  lemma EventsAreDistinct(h: HC.Host, stamp: HC.Stamp)
    requires HC.Digits(stamp.version)
    ensures HI.DistinctEvents(EventWishes(h, stamp))
  {
    EventRanks(h);
    RanksDiffer(h);
    DistinctByRank(Events(h), HC.HostCommand(h, stamp), Extras(h));
  }

  /** Full installs for a host with a history of versions and hook URLs. */
  function InstalledAll(h: HC.Host, cfg: Fields<string>, stamps: seq<HC.Stamp>): Fields<string> {
    if stamps == [] then cfg
    else HI.Run(DialectOf(h), InstalledAll(h, cfg, stamps[..|stamps| - 1]), EventWishes(h, stamps[|stamps| - 1]))
  }

  /** Whatever versions and URLs earlier installs used, the other hooks of every event stay in order. */
  lemma {:induction false} InstallsKeepForeign(h: HC.Host, cfg: Fields<string>, stamps: seq<HC.Stamp>, event: string)
    requires forall i :: 0 <= i < |stamps| ==> HC.Digits(stamps[i].version)
    ensures HI.Foreign(DialectOf(h), HI.Items(DialectOf(h), InstalledAll(h, cfg, stamps), event))
         == HI.Foreign(DialectOf(h), HI.Items(DialectOf(h), cfg, event))
  {
    if stamps != [] {
      var init, last := stamps[..|stamps| - 1], stamps[|stamps| - 1];
      InstallsKeepForeign(h, cfg, init, event);
      DialectIsSound(h);
      WishesAreProper(h, last);
      HI.ForeignSurvives(DialectOf(h), InstalledAll(h, cfg, init), EventWishes(h, last), event);
    }
  }

  /** Whatever versions and URLs earlier installs used, after the last one every event of the table holds
      exactly its hook under the table's matcher, and installing once more writes nothing. */
  lemma InstallsConverge(h: HC.Host, cfg: Fields<string>, stamps: seq<HC.Stamp>)
    requires stamps != [] && HC.Digits(stamps[|stamps| - 1].version)
    ensures var d, ws, after := DialectOf(h), EventWishes(h, stamps[|stamps| - 1]), InstalledAll(h, cfg, stamps);
      && (forall i :: 0 <= i < |ws| ==> HI.Converged(d, ws[i], HI.Items(d, after, ws[i].event)))
      && HI.Run(d, after, ws) == after && !HI.AnyWritten(d, after, ws)
  {
    var last := stamps[|stamps| - 1];
    DialectIsSound(h);
    WishesAreProper(h, last);
    EventsAreDistinct(h, last);
    HI.InstallEventsSettles(DialectOf(h), InstalledAll(h, cfg, stamps[..|stamps| - 1]), EventWishes(h, last));
  }
}
