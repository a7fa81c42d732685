# A verified model of flow's state machines

This project models, in Dafny 4.11, the parts of flow that decide who owns what: the session-claim
protocol around `flow do`, the attention stores, the text and JSON rewrites that must be idempotent or
undo each other, task families, and two small stateful pieces (the output tail of an autonomous run and
the reversible backup restore). `dafny verify dfyconfig.toml` checks everything.

How the source is read:

- A SQL statement, or an IMMEDIATE transaction, is one atomic step on maps and sequences. A command whose
  check and write are separate statements is taken as one step unless a row below says otherwise.
- Code that changes rows, files, buffers or settings in place is a class whose methods are proved equal to
  a function of the old state; the properties are lemmas about runs of those functions.
- Clocks, generated ids, process and terminal outcomes are arguments of the steps. The only failure after a
  committed claim is a failed spawn.
- Text is a sequence of characters. Modules whose proofs do not depend on what a text says are generic in
  its type and are instantiated with strings.
- Times, rates and Slack timestamps are exact ordered values.

| file | what it models |
|---|---|
| `SessionClaim.dfy` | `flow do`, its rollbacks, `--here`, Codex capture, provider retry, `flow done`, `flow update task` on task rows |
| `FeedStore.dfy` | coalescing feed cards with sticky dismissal |
| `Workstreams.dfy` | workstream identity and aliases |
| `Handoff.dfy` | read-then-write verdicts against expiry sweeps |
| `RuntimeState.dfy` | the conditional upsert of session states |
| `FeedbackPolicy.dfy` | the learned policy and the feedback report over grouped counts |
| `PausedQueue.dfy` | the hand-over of queued input |
| `BriefState.dfy` | the marker block of a brief |
| `HookCommand.dfy`, `HookGuard.dfy` | hook command lines, their quoting and reading, and when a Codex hook runs |
| `HookInstall.dfy`, `HookHosts.dfy` | the hook installer, and the two hosts' tables and commands |
| `ClaudeSettings.dfy`, `StatusLineCommand.dfy` | status line and hooks in the user settings, and their commands |
| `TaskFamily.dfy` | the family walk and the family closure |
| `Backup.dfy`, `BackupPaths.dfy` | checkpoint, log and restore over an append-only history, and the three readings of the restored path |
| `BoundedTail.dfy` | the bounded output buffer |
| `Text.dfy`, `Json.dfy` | Go's string functions and JSON values |

Where the code and its comments or promises part, the model follows the code and says exactly when:

- `TaskFamilyRoot` returns the slug of a missing parent row; its comment promises the last known task.
- The surfaced flag means "the thread now has a live card" exactly for items of status new; for other
  statuses it is the opposite (`FeedStore.SurfacedMeansLive`).
- A second brief refresh does not absorb a first whose body or date carries the end marker, nor one on a
  brief with stray markers (`BriefState.RefreshAbsorbs`).
- The family query joins on the stored parent text, the walk trims it: they agree exactly when no parent on
  the way is padded (`TaskFamily.WalkAgreesWithFamily`, with a table that diverges in
  `TaskFamily.PaddedParentDiverges`). Where the schema's reference constraint holds no such row can be
  stored and they agree on every root (`TaskFamily.ReferencedTablesAgree`).
- Two events of one session do not commute exactly when both are news to the row, show different things and
  have the same number, or one no number and the other a positive one (`RuntimeState.SwapCondition`).
- The default restore, run twice, does not bring back a file's absence. It reads its argument in three ways:
  the current content is read at the argument joined to the root untrimmed, the file written is that of the
  normalized argument, and the restored content is that of the argument normalized twice. Where these name
  one file every existing file comes back, elsewhere an uncommitted change is lost
  (`BackupPaths.AlwaysReturnedIff`, `BackupPaths.OddArgumentLosesChange`): with space around the argument,
  or behind its leading slash (`BackupPaths.OddArguments`).
- A bootstrap whose spawn fails, with nothing else writing the task in between, leaves it never started, so it
  gives the row back exactly when it found it so (`SessionClaim.FailedBootstrapRestoresIff`): a failed
  `--fresh` run loses the earlier session. After a late capture or another fresh claim the guards leave the
  row alone.
- A bootstrap never undoes another bootstrap, whatever comes after its claim, exactly when it is Claude's and
  found none up or coming up (`SessionClaim.NeverUndoesIff`); Codex runs undo each other
  (`SessionClaim.CodexRollbackUndoesPeer`). A run that resumed the session can always be undone
  (`SessionClaim.ResumedPeerUndone`), also where `SessionClaim.NoPeerUndone` keeps bootstraps from each other.
- The unguarded write of `flow done` can leave a task done without a session
  (`SessionClaim.LateFinishBreaksTable`). As long as no new command on the same task comes between check and
  write it is safe exactly when the session id its check saw belongs to no attempt still in flight
  (`SessionClaim.LateFinishSafeIff`); with any command in between it never is
  (`SessionClaim.LateFinishNeverSafe`).
- The feed upsert looks and writes in two statements: two writers that both looked first leave a thread with
  two live cards (`FeedStore.RacingUpserts`). Whatever others do in between, a planned insert is safe exactly
  when its id was taken or its item is not open (`FeedStore.InsertSafeIff`), a planned update exactly when its
  item is not new (`FeedStore.CoalesceSafeIff`); `FeedStore.LateInsertIff` and `FeedStore.LateCoalesceIff` say
  which interleavings spoil the others.

## Model

| member | source | states |
|---|---|---|
| SessionClaim.TaskDb.ClaimTask | internal/app/do.go:244-370 | the transaction decides refuse, resume or bootstrap on the row it re-reads and commits exactly the row and the process-local outcome of that decision |
| SessionClaim.ClaimHandsOver | internal/app/do.go:266-370 | a run is refused exactly on a done task or another provider's session without --fresh, and bootstraps exactly without a session, on a released one or with --fresh; a refused run changes nothing, any other leaves the task in progress under the run's provider, with the run's session id if Claude; a resume changes only the status and never takes a released session |
| SessionClaim.TaskDb.Spawned | internal/app/do.go:619-661 | a spawn outcome changes no row, and the attempt is then launched or failing |
| SessionClaim.TaskDb.RollbackClaim | internal/app/do.go:632-658 | the rollback of a failed bootstrap touches only the attempt's own row, and that exactly while it holds the attempt's id or, for Codex, no id yet; it is then in backlog and never started; the rollback of an autonomous launch writes the same columns |
| SessionClaim.RollbackClearsOnlyOwn | internal/app/do.go:630-643 | a Claude rollback changes no row but one still holding the id that this very attempt allocated, and leaves it unclaimed in backlog |
| SessionClaim.NextKeepsInv | internal/app/do.go:36-42 | every step of every process keeps: rows not in backlog have a session, ids are unique across rows, allocating attempts are unique, and a held id belongs to a launched attempt or one in flight on that row |
| SessionClaim.RunKeepsInv | internal/app/do.go:36-42 | the same over all interleavings |
| SessionClaim.NoLeakedClaim | internal/app/do.go:293-357 | in every interleaving a row never holds an id of an attempt whose rollback has run, so with nothing in flight every held id that an attempt allocated was launched |
| SessionClaim.ClaimAgreement | internal/app/do.go:244-370 | any number of Claude runs without --fresh on one unbound task, interleaved with anything on other tasks: one bootstraps and all others resume the session id it wrote, which the row still holds |
| SessionClaim.TableInvariant | internal/flowdb/schema.go:119 | over all runs of all commands, a task not in backlog has a session id or is a Codex task whose session has started |
| SessionClaim.NextKeepsUnique | internal/app/do.go:1204-1212 | no step makes two rows hold one session id |
| SessionClaim.WhoMovesASession | internal/app/do.go:1214-1257 | a row's session id goes only by a fresh claim or one of a released session, a retry, a forced binding, or its allocator's rollback; its provider only by a fresh claim that asks for it or a retry, never by `--here` |
| SessionClaim.TaskDb.BindHere | internal/app/do.go:1166-1262 | `--here` is refused exactly for another requested provider, a done task, an id bound elsewhere, another provider's session or an unforced rebinding; it is a no-op on the same session and otherwise the task is in progress, started and bound; a refusal changes nothing |
| SessionClaim.TaskDb.CaptureCodex | internal/agents/codex.go:46-77 | capture writes exactly an unbound Codex row, or one that already has the id, unless another row has it, and only its session columns |
| SessionClaim.TaskDb.RetryProvider | internal/app/auto.go:636-656 | a retry switches provider, takes the new id for Claude and none for Codex, and marks the session started; the status stays |
| SessionClaim.TaskDb.FinishTask | internal/app/done.go:79-155 | where the check passes `flow done` succeeds and only the status changes, to done; an unbound Codex task is closed exactly when the current session, else one captured since it started, is there and bound to no other task, and is then bound to it; a refusal changes nothing |
| SessionClaim.FinishFlips | internal/app/done.go:144-155 | whatever sessions are around, the step of `flow done` on a row that passes the check is that flip |
| SessionClaim.StartedTaskCloses | internal/app/done.go:79-155 | every bootstrap that launches, its session captured if it is Codex's, can be followed by `flow done`, which leaves the task done and bound to that session |
| SessionClaim.FinishNeedsSession | internal/app/done.go:75-128 | taken as one step, what `flow done` newly marks done has a session id |
| SessionClaim.TaskDb.UpdateStatus | internal/app/update.go:347-370 | a status is set exactly when it is backlog or the task has a session id, and nothing else changes |
| SessionClaim.TaskDb.UpdateAgent | internal/app/update.go:384-410 | the agent changes exactly on a never-started backlog task, and nothing else does |
| SessionClaim.ReleasedIsNotResumed | internal/app/do.go:292-303 | after its session is released the next plain run of a task bootstraps, until the session shows up again |
| SessionClaim.CodexRunsBothBootstrap | internal/app/do.go:318-342 | after a Codex bootstrap a second run, before capture, bootstraps too |
| SessionClaim.CodexRollbackUndoesPeer | internal/app/do.go:644-657 | on every never-started Codex task, a second run whose spawn fails after the first launched sends the running task back to backlog |
| SessionClaim.FailedBootstrapRestoresIff | internal/app/do.go:624-658 | with any steps in between that leave the task alone, a bootstrap whose spawn fails ends in backlog, never started and unbound, and so gives the row back exactly when it found it that way |
| SessionClaim.NextKeepsAlone | internal/app/do.go:284-342 | every step of any command keeps: while a Claude bootstrap is in flight and the row holds its id, no other bootstrap of the task is up or coming up |
| SessionClaim.NeverUndoesIff | internal/app/do.go:624-658 | over all runs of all commands after its claim, a bootstrap's rollback never changes a row under another live bootstrap of the task exactly when it is Claude's and found none live |
| SessionClaim.ResumedPeerUndone | internal/app/do.go:266-357 | after every Claude bootstrap a plain second run can resume its id and launch before the first one's spawn fails, and its row is then sent back to backlog |
| SessionClaim.NextKeepsOneBoot | internal/app/do.go:284-342 | when bootstraps find the task never started, every step of any command keeps at most one bootstrap of it up or coming up, with session_started set |
| SessionClaim.NoPeerUndone | internal/app/do.go:624-658 | over all such runs no rollback, of either provider, changes a row while another bootstrap of it is up or coming up; runs that resumed are not covered |
| SessionClaim.LateFinishBreaksTable | internal/app/done.go:79-147 | on every unbound Claude task a run whose spawn fails makes the check of `flow done` pass, and with its rollback before the write the task ends done without a session |
| SessionClaim.LiveRowStays | internal/app/done.go:79-147 | a row whose session no attempt in flight allocated stays as it is while runs under way go on and other tasks change |
| SessionClaim.LateFinishSafeIff | internal/app/done.go:79-147 | for a row that passes the check, and with no new command on the task between check and write, the unguarded write is safe whatever runs under way and steps on other tasks come between exactly when the session id belongs to no attempt still in flight |
| SessionClaim.LateFinishNeverSafe | internal/app/done.go:79-147 | with any command allowed in between, some run makes the late write leave the task done without a session, whatever row the check saw |
| FeedStore.Best | internal/flowdb/attention.go:231-246 | the lookup finds a card to coalesce onto exactly when one exists, and a dismissed one only when the thread has no live card |
| FeedStore.PrecedesOrders | internal/flowdb/attention.go:231-239 | the ORDER BY is a strict order in which only cards of one id, class and creation time tie |
| FeedStore.BestIsFirst | internal/flowdb/attention.go:231-239 | the card found is the first in that order: no candidate precedes it |
| FeedStore.FeedTable.Lookup | internal/flowdb/attention.go:231-246 | the one-row query finds a candidate that none precedes, when there is one |
| FeedStore.FeedTable.UpsertSurfaced | internal/flowdb/attention.go:223-300 | the upsert with its refusals, its suppressed case and its surfaced flag |
| FeedStore.FeedTable.SetStatus | internal/flowdb/attention.go:468-485 | every row with the id gets exactly the status and time asked for and keeps the rest, every other row stays; an unknown id is reported |
| FeedStore.FeedTable.SetActed | internal/flowdb/attention.go:487-500 | every row with the id is acted, with the time and the linked task, and keeps the rest; every other row stays |
| FeedStore.FeedTable.ResolveThread | internal/flowdb/attention.go:423-441 | exactly the live cards of the thread become acted, and the count is theirs |
| FeedStore.UpsertEffect | internal/flowdb/attention.go:247-299 | an accepted write puts the item on exactly one row of its thread, whose id it returns, and touches no other; a new item makes a found card live again and clears its old times, any other only refreshes ts and content, and a covered dismissal leaves its row alone |
| FeedStore.BestIsNewest | internal/flowdb/attention.go:231-239 | a live card is found before a dismissed one, then the newest, then the one with the larger id |
| FeedStore.StringLessAt | internal/flowdb/attention.go:231-239 | ids are compared at the first place where they differ, or by which ends first |
| FeedStore.NextKeepsOneOpenCard | internal/flowdb/attention.go:223-300 | no write gives a thread a second card that is new or dismissed |
| FeedStore.RunKeepsOneOpenCard | internal/flowdb/attention.go:223-500 | the same over runs |
| FeedStore.SurfacedMeansLive | internal/flowdb/attention.go:218-300 | the flag says whether the thread then has a live card exactly for new items |
| FeedStore.NextKeepsDismissal | internal/flowdb/attention.go:223-314 | a step that is not newer activity leaves the dismissed card untouched and the thread without a live one |
| FeedStore.DismissalSticks | internal/flowdb/attention.go:223-314 | the same over runs |
| FeedStore.DismissedStaysDismissed | internal/flowdb/attention.go:223-485 | dismissing the live card of a thread leaves the thread without a live one, and so it stays through every quiet run, with that card as the dismissal left it |
| FeedStore.NewerItemReopens | internal/flowdb/attention.go:223-314 | a new item revives a dismissed thread exactly when its timestamp is larger or not a number, on the same card |
| FeedStore.WrittenAtOnce | internal/flowdb/attention.go:231-299 | lookup and write, with nothing between, are the upsert |
| FeedStore.InsertSafeIff | internal/flowdb/attention.go:231-299 | an insert planned at the lookup keeps one open card per thread, whatever other writers do before it, exactly when its id was already taken or the item is not open |
| FeedStore.CoalesceSafeIff | internal/flowdb/attention.go:231-280 | an update planned at the lookup does exactly when the item is not new |
| FeedStore.LateInsertIff | internal/flowdb/attention.go:241-299 | after given steps of other writers a planned insert keeps one open card per thread exactly when the id is taken, the item is not open, or the thread has no open card by then |
| FeedStore.LateCoalesceIff | internal/flowdb/attention.go:241-280 | after given steps a planned update does exactly when the item is not new or no other card of the thread is open by then |
| FeedStore.RacingUpserts | internal/flowdb/attention.go:231-299 | two writers that both looked before either wrote, on a thread without an open card, leave two live ones |
| Workstreams.Store.EnsureForFeed | internal/flowdb/attention.go:61-128 | without a thread key nothing happens; else the trimmed thread and the trimmed raw key, if not blank, resolve to the result and every other key as before; the result is the thread's workstream, else the raw key's, else a new one, and shows the item |
| Workstreams.CallFilesKeys | internal/flowdb/attention.go:66-126 | the part about the keys, for every item and raw key, on every table whose aliases target existing rows |
| Workstreams.CallFilesItem | internal/flowdb/attention.go:86-95 | the part about the row: it shows the item, and its owner is the trimmed matched task, else the linked one, else the owner so far; other rows stay |
| Workstreams.Store.Ensure | internal/flowdb/attention.go:73-152 | the canonical key's workstream, else the raw key's, else a new one; both keys are then aliased to it |
| Workstreams.Lookup | internal/flowdb/attention.go:154-180 | a key resolves only through its alias to an existing workstream |
| Workstreams.MintingNeverOverwrites | internal/flowdb/attention.go:73-128 | a workstream is created exactly when neither key resolves, and never over an existing row |
| Workstreams.StreamsAfter | internal/flowdb/attention.go:86-128 | the chosen row shows the canonical key and card, its owner is kept unless one is given, every other row is as it was |
| Workstreams.AliasesAfter | internal/flowdb/attention.go:130-152 | both keys are repointed, every other alias is kept |
| Workstreams.EnsureEffect | internal/flowdb/attention.go:61-180 | afterwards both keys resolve to the chosen workstream and every other key as before; no alias is lost |
| Workstreams.RunKeepsInv | internal/flowdb/attention.go:61-152 | over all runs every alias targets an existing workstream |
| Workstreams.LookupFollowsHistory | internal/flowdb/attention.go:61-180 | the tables answer every lookup as a definition on the call history alone does |
| Workstreams.TargetFollowsHistory | internal/flowdb/attention.go:61-128 | so is the workstream an ensure chooses |
| Workstreams.StreamsFollowHistory | internal/flowdb/attention.go:61-128 | each workstream shows key and card of the last call that chose it and the last owner ever given |
| Handoff.HandoffTable.Create | internal/flowdb/attention_handoff.go:28-66 | a handoff is created exactly when complete after trimming, of a known or no status, and its id, given or generated, is new; it holds the trimmed texts and the status named; each refusal has its cause |
| Handoff.HandoffTable.Respond | internal/flowdb/attention_handoff.go:133-200 | a response succeeds exactly with a verdict, a reason and a pending row, and then only status, reason and time of that row change: accepted exactly for accept or accepted, declined exactly for decline or declined, after trimming and lowering; every other text is refused |
| Handoff.VerdictMeans | internal/flowdb/attention_handoff.go:195-200 | which texts accept, which decline, and that no other does either |
| Handoff.RespondedAtOnce | internal/flowdb/attention_handoff.go:133-171 | a response with nothing in between is a read and a write of the interleaved runs, for every text |
| Handoff.HandoffTable.Update | internal/flowdb/attention_handoff.go:157-169 | the guarded update changes a pending row or nothing |
| Handoff.HandoffTable.Expire | internal/flowdb/attention_handoff.go:173-193 | exactly the due pending rows time out, at the time of the sweep, and the count is theirs |
| Handoff.SettledIsFinal | internal/flowdb/attention_handoff.go:133-193 | in every interleaving a settled handoff never changes again |
| Handoff.NextKeepsInv | internal/flowdb/attention_handoff.go:133-193 | each step of readers, writers and sweeps keeps: a winner's verdict is recorded as its text names it, winners are unique, timeouts are due |
| Handoff.OneVerdict | internal/flowdb/attention_handoff.go:133-200 | at most one responder succeeds per handoff and the row is that responder's, accepted or declined as the text it gave says; a handoff created pending carries a verdict exactly when one succeeded |
| RuntimeState.RuntimeStates.Upsert | internal/flowdb/agent_runtime.go:32-71 | each refusal has its cause and changes nothing; a valid input older than the session's row changes nothing, any other is recorded: status and event kind in lower case, the kind being the status when none is given, the texts trimmed, and a work context kept unless one is given |
| RuntimeState.InputRecorded | internal/flowdb/agent_runtime.go:32-71 | the last part, for every input and table |
| RuntimeState.RuntimeStates.Store | internal/flowdb/agent_runtime.go:54-71 | the conditional upsert, with its sticky work context and largest last_seq |
| RuntimeState.HighestWins | internal/flowdb/agent_runtime.go:54-71 | from any table and in any order, a session shows the highest-numbered event delivered for it if one of them is not older than its row, and its row is unchanged otherwise |
| RuntimeState.OrderIndependent | internal/flowdb/agent_runtime.go:54-71 | from any table, two deliveries of the same numbered events, in any order and with any repeats, end in the same visible table |
| RuntimeState.NothingForgotten | internal/flowdb/agent_runtime.go:54-71 | with any events, numbered or not, last_seq never decreases and no row or work context disappears |
| RuntimeState.SwapCondition | internal/flowdb/agent_runtime.go:54-71 | on any table two events of a session commute unless both are news to the row, differ in what they show, and have one number, or one none and the other a positive one |
| FeedbackPolicy.LearnSuppressions | internal/flowdb/attention_feedback.go:380-415 | exactly the groups with enough rows and a reached dismissal rate are suppressed |
| FeedbackPolicy.LearnThresholdAdjustments | internal/flowdb/attention_feedback.go:417-450 | an action's threshold is lowered, raised or left by its rates, approvals first |
| FeedbackPolicy.LearnPolicy | internal/flowdb/attention_feedback.go:308-336 | the whole policy, with its default options |
| FeedbackPolicy.WithDefaults | internal/flowdb/attention_feedback.go:309-317 | positive options are kept, others become 3, 0.8 and 0.05 |
| FeedbackPolicy.ThreadsMeaning | internal/flowdb/attention_feedback.go:308-415 | a thread is suppressed exactly when, counting the history directly, enough of its rows outside direct conversations, and the given part of them, were dismissed or muted |
| FeedbackPolicy.AuthorsMeaning | internal/flowdb/attention_feedback.go:308-415 | the same for authors |
| FeedbackPolicy.AdjustmentsMeaning | internal/flowdb/attention_feedback.go:417-450 | an action's threshold goes down by the step exactly when enough of its rows were approved or sent, up exactly when not so and enough were dismissed or muted |
| FeedbackPolicy.ReportMeaning | internal/flowdb/attention_feedback.go:270-303 | a line of the report counts the rows of the history that show its value in the dimension: all, approved or sent, dismissed, muted |
| FeedbackPolicy.GroupHasRows | internal/flowdb/attention_feedback.go:393-402 | a group is in the result exactly when it counts a row, and never more dismissals than rows |
| FeedbackPolicy.TallyInsert | internal/flowdb/attention_feedback.go:393-402 | a row counts the same wherever in the history it was inserted |
| FeedbackPolicy.SuppressionHasEvidence | internal/flowdb/attention_feedback.go:385-413 | a suppressed thread or author was itself dismissed or muted outside direct conversations |
| FeedbackPolicy.OperatorHandledInvisible | internal/flowdb/attention_feedback.go:74-84 | an operator_handled row, inserted anywhere, leaves the whole policy unchanged |
| FeedbackPolicy.DirectRowsNeverSuppress | internal/flowdb/attention_feedback.go:385-401 | a row of a direct conversation, inserted anywhere, leaves both suppression sets unchanged |
| FeedbackPolicy.ImRowsNeverSuppress | internal/flowdb/attention_feedback.go:385-401 | the same with the queries' own constants: a row of type im or mpim |
| FeedbackPolicy.NegativeNeverUnsuppresses | internal/flowdb/attention_feedback.go:409-411 | one more dismissed or muted row never un-suppresses a thread or an author |
| FeedbackPolicy.OtherRowSuppressesOnlyAtMinimum | internal/flowdb/attention_feedback.go:409-411 | a row of any other outcome suppresses its group exactly when it completes the minimum and dismissals already reach the rate |
| FeedbackPolicy.AdjustmentsAreStable | internal/flowdb/attention_feedback.go:436-448 | one more approval never takes back a lowered threshold, one more dismissal never a raised one |
| FeedbackPolicy.SumTakeOut | internal/flowdb/attention_feedback.go:275-284 | column sums do not depend on the order of the groups |
| FeedbackPolicy.ReportSumsAgree | internal/flowdb/attention_feedback.go:270-303 | whatever the report groups by, each column sums to that of the whole history |
| PausedQueue.SessionStore.EnqueueAfter | internal/flowdb/paused_sessions.go:56-66 | an input goes to the end of the queue under the trimmed slug |
| PausedQueue.MoveTransaction | internal/flowdb/paused_sessions.go:98-150 | the row-by-row insert and delete moves exactly the slug's rows, or, when any statement or the commit fails, yields nothing |
| PausedQueue.SessionStore.MoveToPendingWakes | internal/flowdb/paused_sessions.go:98-150 | an aborted move changes no table, a committed one moves and counts them all |
| PausedQueue.SessionStore.ClearPausedTaskResume | internal/app/do.go:904-915 | the paused mark goes only after the move committed |
| PausedQueue.MoveEffect | internal/flowdb/paused_sessions.go:98-150 | one slug's inputs go behind its wakes in order and intact, every other slug is untouched |
| PausedQueue.InputsConserved | internal/flowdb/paused_sessions.go:56-150 | over every run, moved inputs followed by queued inputs are everything enqueued for the slug, in order |
| BriefState.BriefFile.WriteCurrentState | internal/app/briefstatus.go:36-73 | the file's new content in all six cases |
| BriefState.SplicedCases | internal/app/briefstatus.go:49-67 | the branches are one splice between kept text in front and behind |
| BriefState.FlowBlockText | internal/app/briefstatus.go:14-29 | the block is the two markers around the dated header and the body without its last newlines |
| BriefState.AppendedAfterBlankLine | internal/app/briefstatus.go:54-66 | a block appended to a brief stands after an empty line, with no newline more than that takes |
| BriefState.StraddleNeedsOpenSeam | internal/app/briefstatus.go:14-29 | no marker crosses a seam that falls at a newline, before a '<' or after a '>' |
| BriefState.BlockIndices | internal/app/briefstatus.go:22-29 | where the markers of a written block are found, and that the end marker is its last exactly for end-free body and date |
| BriefState.AbsorbsIffEndFree | internal/app/briefstatus.go:49-67 | on a brief without stray markers writing b1 then b2 equals writing b2 alone exactly when b1 carries no end marker |
| BriefState.AbsorbsIffReady | internal/app/briefstatus.go:49-67 | for an end-free b1 exactly when the brief has no stray marker |
| BriefState.RefreshAbsorbs | internal/app/briefstatus.go:14-67 | both, for flow's own markers |
| BriefState.OutsideTextKept | internal/app/briefstatus.go:49-67 | any number of refreshes keeps all text outside the block and leaves the last body in it |
| HookCommand.ReadEscaped | internal/agenthooks/local.go:261-267 | inside single quotes a shell reads an escaped text as the text |
| HookCommand.ReadQuoted | internal/agenthooks/local.go:261-267 | a quoted argument reads as one word, its trimmed text, for every text |
| HookCommand.BuiltCommandSplits | internal/agenthooks/provider.go:143-150 | a built command splits into its words, the URL as one last word |
| HookCommand.CodexCommandSplits | internal/agenthooks/provider.go:121-154 | for every URL the doubly quoted Codex hook splits into sh, -c and the script, and the part of the script behind its guard into the built words |
| HookCommand.ClaudeCommandSplits | internal/agenthooks/provider.go:143-150 | the words of the Claude hook, spelled out |
| HookGuard.GuardedRuns | internal/agenthooks/provider.go:152-154 | in every environment a command behind the guard is executed, with its words as read, exactly when FLOW_HOOK_OWNED is 1; otherwise the script exits with 0 |
| HookGuard.CodexRunsWhenOwned | internal/agenthooks/provider.go:121-154 | for every version, URL and environment: sh gets one script, which becomes flow's hook command, word by word, exactly when FLOW_HOOK_OWNED is 1, and otherwise exits with 0 |
| HookCommand.FirstFlagDecides | internal/agenthooks/local.go:136-154 | a flag's value is that of the first field that carries one, as the next field or behind an equals sign |
| HookCommand.CurrentVersionReads | internal/agenthooks/local.go:23 | the version stamped now reads as 4 |
| HookCommand.ClaudeReadsBack | internal/agenthooks/local.go:136-154 | provider claude and the stamped version are read back for every version number and URL |
| HookCommand.CodexReadsBack | internal/agenthooks/local.go:136-259 | provider codex and the stamped version are read back through both quotings for every version number and URL |
| HookCommand.ManagedIffSameHost | internal/agenthooks/local.go:235-259 | an installed command is replaced by another exactly when both are for the same host, whatever their versions and URLs |
| HookInstall.HookFile.FilterHooks | internal/agenthooks/local.go:178-202 | the inner loop keeps exactly the hooks that stay, and says whether it dropped any and found the wanted one |
| HookInstall.HookFile.FilterEntries | internal/agenthooks/local.go:168-212 | the outer loop keeps exactly the entries that stay and notices every change |
| HookInstall.HookFile.InstallHook | internal/agenthooks/local.go:156-233 | the settings after an install; the file is written exactly when they change |
| HookInstall.HookFile.InstallEvents | internal/agenthooks/local.go:57-68 | installing a whole event table in order |
| HookInstall.GroupShowsExtras | internal/agenthooks/local.go:221-228 | the entry an install appends is one command hook with exactly the provider's extra fields, under the wanted matcher if it is not blank |
| HookInstall.FlatKept | internal/agenthooks/local.go:168-212 | filtering the nested lists filters the flat list of hooks with their groups' other fields |
| HookInstall.NewEntriesForeign | internal/agenthooks/local.go:156-233 | an install leaves the flat list of foreign hooks unchanged in order |
| HookInstall.NewEntriesConverged | internal/agenthooks/local.go:156-233 | every managed hook of the event is then the wanted command under the wanted matcher, with at least one present |
| HookInstall.NewEntriesSettled | internal/agenthooks/local.go:213-219 | installing the same again changes nothing |
| HookInstall.InstallFrame | internal/agenthooks/local.go:213-232 | other events and other settings are untouched |
| HookInstall.ForeignSurvives | internal/agenthooks/local.go:156-233 | over every run of installs foreign hooks of every event and all other settings stay |
| HookInstall.RunConverges | internal/agenthooks/local.go:156-233 | after any run each installed event holds exactly its last install, which would change nothing |
| HookInstall.InstallEventsSettles | internal/agenthooks/local.go:57-68 | after a table with distinct events every event has converged and a second pass writes nothing |
| HookHosts.ManagedByHost | internal/agenthooks/local.go:235-245 | which commands count as managed depends on the host, not on the version or URL to be installed |
| HookHosts.ManagedExactly | internal/agenthooks/local.go:235-259 | exactly those that call the agent-event hook and read as the host's provider |
| HookHosts.MatchersAre | internal/agenthooks/provider.go:84-134 | the matchers of the two tables |
| HookHosts.EventsAreDistinct | internal/agenthooks/provider.go:84-134 | neither host's table names an event twice |
| HookHosts.InstallsKeepForeign | internal/agenthooks/local.go:41-73 | whatever versions and URLs earlier installs used, foreign hooks stay in order |
| HookHosts.InstallsConverge | internal/agenthooks/local.go:41-73 | after any history of versions and URLs every event of the host's table holds exactly the last command and a further install writes nothing |
| ClaudeSettings.Settings.InstallClaudeStatusLine | internal/app/skill.go:386-426 | a foreign status line is saved and its other fields kept; flow's own is only re-rooted |
| ClaudeSettings.Settings.UninstallClaudeStatusLine | internal/app/skill.go:428-462 | only flow's own status line is removed, and a saved one restored |
| ClaudeSettings.InstallShowsCommand | internal/app/skill.go:400-420 | an install shows its root's command and keeps every other field of the status line |
| ClaudeSettings.InstallsThenUninstall | internal/app/skill.go:386-462 | one uninstall undoes any number of installs exactly when nothing was saved and the status line was absent or foreign |
| ClaudeSettings.SavedStaysForeign | internal/app/skill.go:386-462 | over every run the saved status line is never flow's own |
| ClaudeSettings.Settings.InstallClaudeHook | internal/app/skill.go:495-544 | one entry is added exactly when the command is in no entry of the event |
| ClaudeSettings.EntryShows | internal/app/skill.go:526-538 | the entry is one command hook, under the matcher if there is one |
| ClaudeSettings.EntryAfterUninstall | internal/app/skill.go:574-608 | a group keeps its other hooks in order and its other fields, a group with none left goes, and what is no group stays |
| ClaudeSettings.Settings.UninstallClaudeHook | internal/app/skill.go:549-623 | hooks whose trimmed command matches go, with groups, events and objects left empty |
| ClaudeSettings.RemainingSame | internal/app/skill.go:574-608 | an uninstall leaves the entries as they are exactly when it affects none |
| ClaudeSettings.HookRoundTrip | internal/app/skill.go:495-623 | uninstalling undoes installing exactly when the settings were clean of the hook, of empty groups and of empty containers |
| ClaudeSettings.HookInstallTwice | internal/app/skill.go:512-527 | a second install changes nothing |
| ClaudeSettings.HookInstallsAreOne | internal/app/skill.go:512-527 | any number of installs is one |
| ClaudeSettings.HookFrame | internal/app/skill.go:495-623 | neither direction touches another event or setting |
| ClaudeSettings.Settings.SkillInstall | internal/app/skill.go:272-299 | the command installs its hook, then its status line, then removes the stale hook |
| ClaudeSettings.Settings.SkillUninstall | internal/app/skill.go:341-360 | the command removes both hooks, then the status line |
| ClaudeSettings.InstallCommutes | internal/app/skill.go:386-544 | installing a hook and the status line can be done in either order |
| ClaudeSettings.UninstallCommutes | internal/app/skill.go:386-623 | so can removing a hook and installing the status line |
| ClaudeSettings.EventsCommute | internal/app/skill.go:495-623 | so can installing one event's hook and removing another's |
| ClaudeSettings.SkillRoundTrip | internal/app/skill.go:237-362 | any number of installs, of whatever roots, then one uninstall return the settings exactly when they were clean of flow's status line, of its hook and of the stale one |
| ClaudeSettings.SkillInstallEffect | internal/app/skill.go:272-299 | after an install the start hook is there, nothing of the stale one, the status line shows the command, and every other event is as before |
| ClaudeSettings.SkillUninstallEffect | internal/app/skill.go:341-360 | after an uninstall nothing of either hook is left, the status line is not flow's unless flow's was the saved one, and every other event is as before |
| StatusLineCommand.InstallCommandIsOwn | internal/app/skill.go:464-479 | what install writes for any root is recognized as flow's own |
| StatusLineCommand.OwnExactly | internal/app/skill.go:464-479 | exactly the trimmed commands that are flow's three words, with or without an assignment of the root in front, are |
| StatusLineCommand.InstallCommandSplits | internal/app/skill.go:464-483 | a shell reads the command as an assignment of the root, whatever its characters, and flow's three words |
| StatusLineCommand.StatusLineUndone | internal/app/skill.go:386-483 | the status-line round trip for any list of roots |
| StatusLineCommand.HookUndone | internal/app/skill.go:23-32 | the hook round trip for any number of installs of either of flow's hooks |
| StatusLineCommand.SkillUndone | internal/app/skill.go:237-384 | the command-level round trip with flow's own texts, for any list of roots |
| StatusLineCommand.SkillInstallShows | internal/app/skill.go:272-299 | an install from any settings, at flow's own texts: both events, and a status line that a shell reads as flow's three words with the root |
| TaskFamily.LinksOf | internal/flowdb/brain_runs.go:175-186 | the walk follows trimmed, nonblank parents |
| TaskFamily.TaskFamilyRoot | internal/flowdb/brain_runs.go:162-192 | the walk ends on every finite table, reports a cycle exactly when it revisits a slug, and otherwise the slug it ends at |
| TaskFamily.EndExcludesRevisit | internal/flowdb/brain_runs.go:168-191 | a walk that ends never revisits |
| TaskFamily.WalkIsTotal | internal/flowdb/brain_runs.go:168-191 | every walk ends or revisits |
| TaskFamily.Closure | internal/flowdb/brain_runs.go:194-224 | the recursive query's result contains its start and is closed under children |
| TaskFamily.ClosureLeast | internal/flowdb/brain_runs.go:194-224 | and is the least such set |
| TaskFamily.FamilyWalksToRoot | internal/flowdb/brain_runs.go:162-224 | from every listed task the walk ends at the root |
| TaskFamily.WalkAgreesWithFamily | internal/flowdb/brain_runs.go:162-224 | for an existing parentless root, the tasks whose walk ends there are exactly the listed ones exactly when none of them stores a padded parent |
| TaskFamily.FamiliesPartition | internal/flowdb/brain_runs.go:162-224 | without padded parents every task is in one root's family unless its walk meets a missing row or a cycle |
| TaskFamily.ReferencedTablesAgree | internal/flowdb/schema.go:92 | on tables that meet the reference constraint walk and closure agree for every root |
| TaskFamily.ReferencedFamiliesPartition | internal/flowdb/schema.go:92 | and every task is in exactly one root's family unless its walk meets a cycle |
| TaskFamily.PaddedParentDiverges | internal/flowdb/brain_runs.go:185-206 | every table of two tasks whose second stores the first as a padded parent, which the walk follows and the query does not |
| TaskFamily.PaddedParentExists | internal/flowdb/brain_runs.go:185-206 | there is such a table |
| Backup.BackupStore.Checkpoint | internal/flowbackup/flowbackup.go:184-214 | a commit is made exactly when the tracked files changed, after a baseline if there was none |
| Backup.BackupStore.Log | internal/flowbackup/flowbackup.go:231-265 | exactly the commits that touch the file, newest first |
| Backup.BackupStore.Restore | internal/flowbackup/flowbackup.go:271-347 | checkpoint, rewrite with the content of the file the path names when normalized again, checkpoint; a version without that file fails after the first checkpoint |
| Backup.NewestDiffering | internal/app/backup.go:274-283 | the default revision is the newest logged version that differs from the current content |
| Backup.BackupStore.RestoreDefault | internal/app/backup.go:250-294 | the loop over the log finds it, and restores it, fails when it has no such content, or reports that there is none |
| Backup.RestoreTwice | internal/app/backup.go:250-294 | where the content is taken from the file itself, two default restores return the whole disk exactly when there was nothing to restore, or the file existed and both other readings of the argument name it or the version was already on disk |
| BackupPaths.ReadingsAgree | internal/flowbackup/flowbackup.go:415-418 | the joined and the normalized path name one file exactly when the argument has no space around it, with or without a leading slash |
| BackupPaths.UpCancels | internal/app/backup.go:273 | joining cleans the path: a name and the way back up cancel out |
| BackupPaths.RestoreTwiceAsTyped | internal/app/backup.go:250-294 | the same round trip for every argument as typed whose normalized form is not changed by normalizing: nothing to restore, or the file existed and the argument had no space around it or the version was already on disk |
| BackupPaths.AlwaysReturnedIff | internal/flowbackup/flowbackup.go:271-347 | for every argument: two default restores give the disk back in every repository where the file exists exactly when the argument has no space around it and normalizing it again changes nothing, or no version can be restored under it |
| BackupPaths.OddArgumentLosesChange | internal/app/backup.go:273-283 | under every other argument a repository where two restores end in the committed version and lose an uncommitted change |
| BackupPaths.OddArguments | internal/flowbackup/flowbackup.go:415-418 | every file name with a space in front is such an argument, and so is one with a space behind a leading slash, which normalizing turns into the spaced name and normalizing again into the bare one |
| Backup.HistoryOnlyGrows | internal/flowbackup/flowbackup.go:184-214 | over every run of edits, checkpoints and restores the history is only extended and never by an empty commit |
| Backup.RestoreRecordsBefore | internal/flowbackup/flowbackup.go:312-330 | what a restore overwrote stays in the history for good |
| BoundedTail.LastBytes | internal/app/auto.go:149-172 | the last min(max, length) bytes |
| BoundedTail.LastOfLast | internal/app/auto.go:154-168 | forgetting early bytes before appending never matters |
| BoundedTail.Tail.Append | internal/app/auto.go:158-162 | appending to a truncated slice, in place or into a larger array, keeps the kept bytes in front of the new ones |
| BoundedTail.Tail.ShiftLeft | internal/app/auto.go:163-166 | the overlapping copy moves the suffix to the front |
| BoundedTail.Tail.Write | internal/app/auto.go:154-168 | each write keeps the buffer at the last bytes of everything written |
| BoundedTail.Tail.WriteAll | internal/app/auto.go:149-172 | after any writes of any sizes the buffer is the tail of their concatenation |

## Left out

- Background launches (`cmdDoBackground`): not transactional, and can rewrite the provider of a bound task.
- Terminals, agent processes, git worktrees, live-session detection and focusing: only the spawn outcome is modelled.
- The early returns between the committed claim and the spawn, which keep the claim.
- Concurrent Codex bootstraps in the claim agreement: a Codex claim leaves no session id to agree on.
- SessionClaim.TaskDb.BindHere: session ids are well formed and tasks startable; the refusals for other ones are not modelled.
- SessionClaim.NextKeepsInv: `--here`, capture and `flow done` bind only ids of running sessions, that is ids no attempt allocated or whose attempt launched; a new UUID is none ever seen.
- Startability of tasks (dependencies), task lookup, flags, archived and deleted rows, session paths, harness names, resume times and the auto_run columns of task rows.
- Session ids that are empty text instead of NULL.
- The SQL engine, schema migrations, storage and commit errors other than those named in a row above.
- The work event appended after a runtime-state upsert.
- `DeleteAttentionHandoff`, feed listings, club candidates, retriage marks and workstream listings.
- Collisions of hashed workstream ids: an id stands for the key it hashes.
- Timestamps that parse to infinities or NaN, and rounding of rates and thresholds.
- Case folding of letters outside ASCII; bytes that are not valid text.
- Order of the family query, of the report's groups and of brain-run lists, and the sorting, limits and legacy rows of `ListBrainRunsForFamily`.
- PausedQueue: inputs written directly to pending wakes, their acknowledgement and delivery.
- RuntimeState.OrderIndependent: leaves out the clock column and the sticky work context, which depend on the order of applied events.
- Writing the feedback rows, confidence bands and draft deltas: a history of rows is given.
- Reading and writing settings files: a missing file is an empty object, formatting is not modelled.
- HookInstall: groups without any hook are dropped by the code; they have no place in the flat list of hooks.
- HookGuard: of the shell's language the scripts have quoting, word splitting, `;`, `&&`, `||`, one form of expansion, `[`, `exit` and `exec`; anything else is not read.
- Git remotes, database snapshots, .gitignore rules, locks and the disabled state of backups: the disk is the set of tracked files.
- `--skip-hook`, `--keep-hook` and the skill files themselves; a step of the two commands whose settings file cannot be read or written.
- File writes are atomic replacements; partial writes are not modelled.
