/** The session-claim protocol: many `flow do` processes race on task rows (internal/app/do.go), with
    Codex capture (internal/agents/codex.go), provider retry (internal/app/auto.go), `flow done` and
    `flow update task` around them. A committed transaction or a guarded statement is one step; so is
    every command's check together with its write. */
module SessionClaim {
  import opened Text

  type Slug = nat
  type Pid = nat
  type Sid = nat

  datatype Provider = Claude | Codex

  datatype Status = Backlog | InProgress | Done

  /** The columns of a task row the protocol reads and writes; started stands for session_started. */
  datatype Task = Task(status: Status, provider: Provider, sid: Option<Sid>, started: bool)

  /** Spawning: claimed, the terminal not up yet. Failing: the spawn failed, the rollback still to come. */
  datatype Phase = Spawning | Launched | Failing | RolledBack | Refused

  /** What one `flow do` process keeps after its transaction. */
  datatype Attempt = Attempt(slug: Slug, provider: Provider, boot: bool, sid: Option<Sid>, phase: Phase)

  /** used holds every session id there has ever been; a new UUID is none of them. */
  datatype Db = Db(tasks: map<Slug, Task>, attempts: map<Pid, Attempt>, used: set<Sid>, released: set<Sid>)

  datatype Step =
    | Claim(pid: Pid, slug: Slug, requested: Option<Provider>, afresh: bool, id: Sid)
    | SpawnOk(pid: Pid)
    | SpawnFails(pid: Pid)
    | Rollback(pid: Pid)
    | Here(slug: Slug, requested: Option<Provider>, provider: Provider, sid: Sid, force: bool)
    | Capture(slug: Slug, sid: Sid)
    | Retry(slug: Slug, provider: Provider, id: Sid)
    | Finish(slug: Slug, current: Option<Sid>, captured: Option<Sid>)
    | SetStatus(slug: Slug, status: Status)
    | SetAgent(slug: Slug, provider: Provider)
    | Release(sid: Sid)
    | Reopen(sid: Sid)

  // ---- what each step does ----

  /** The attempt allocated the id. */
  predicate Owns(a: Attempt, x: Sid) {
    a.boot && a.provider.Claude? && a.sid == Some(x)
  }

  /** The partial unique index on session_id would refuse the id for this row. */
  predicate BoundElsewhere(tasks: map<Slug, Task>, slug: Slug, x: Sid) {
    exists s :: s in tasks && s != slug && tasks[s].sid == Some(x)
  }

  datatype Decision = Refuse | Resume | Bootstrap(provider: Provider)

  /** The choice inside the transaction, on the row re-read there. */
  function Decide(t: Task, requested: Option<Provider>, afresh: bool, released: set<Sid>): Decision {
    var provider := if requested.Some? then requested.value else t.provider;
    if t.status.Done? then Refuse
    else if t.sid.Some? && t.provider != provider && !afresh then Refuse
    else if t.sid.None? || afresh || t.provider != provider || t.sid.value in released then Bootstrap(provider)
    else Resume
  }

  function ClaimedRow(t: Task, decision: Decision, id: Sid): Task {
    match decision
    case Refuse => t
    case Resume => t.(status := InProgress)
    case Bootstrap(provider) => Task(InProgress, provider, if provider.Claude? then Some(id) else None, true)
  }

  function ClaimedAttempt(slug: Slug, t: Task, decision: Decision, id: Sid): Attempt {
    match decision
    case Refuse => Attempt(slug, t.provider, false, None, Refused)
    case Resume => Attempt(slug, t.provider, false, t.sid, Spawning)
    case Bootstrap(provider) => Attempt(slug, provider, true, if provider.Claude? then Some(id) else t.sid, Spawning)
  }

  /** The guarded rollback of a failed bootstrap. */
  function RolledBackRow(t: Task, a: Attempt): Task {
    if !a.boot then t
    else if a.provider.Claude? then
      if t.sid.Some? && t.sid == a.sid then Task(Backlog, t.provider, None, false) else t
    else
      if t.provider.Codex? && t.sid.None? then Task(Backlog, t.provider, None, false) else t
  }

  /** The late capture of a Codex session id. */
  function CapturedRow(tasks: map<Slug, Task>, slug: Slug, x: Sid): Task
    requires slug in tasks
  {
    var t := tasks[slug];
    if t.provider.Codex? && (t.sid.None? || t.sid == Some(x)) && !BoundElsewhere(tasks, slug, x) then
      t.(sid := Some(x), started := true)
    else t
  }

  function HereRow(tasks: map<Slug, Task>, slug: Slug, requested: Option<Provider>, provider: Provider, x: Sid,
      force: bool): Task
    requires slug in tasks
  {
    var t := tasks[slug];
    if requested.Some? && requested.value != provider then t
    else if t.status.Done? || BoundElsewhere(tasks, slug, x) then t
    else if t.sid.Some? && t.sid.value == x && t.provider == provider then t
    else if t.sid.Some? && (t.provider != provider || !force) then t
    else Task(InProgress, provider, Some(x), true)
  }

  function RetriedRow(t: Task, provider: Provider, id: Sid): Task {
    Task(t.status, provider, if provider.Claude? then Some(id) else None, true)
  }

  /** `flow done`: a Codex task without a session id first takes the current session's or a captured one. */
  function FinishedRow(tasks: map<Slug, Task>, slug: Slug, current: Option<Sid>, captured: Option<Sid>): Task
    requires slug in tasks
  {
    var t := tasks[slug];
    if t.status.Backlog? && t.sid.None? then t
    else if t.provider.Claude? || t.sid.Some? then t.(status := Done)
    else if current.Some? && BoundElsewhere(tasks, slug, current.value) then t
    else
      var bound := if current.Some? then t.(sid := current, started := true) else t;
      if bound.started && captured.Some? && bound.sid in {None, captured}
         && BoundElsewhere(tasks, slug, captured.value) then bound
      else
        var full := if bound.started && captured.Some? && bound.sid.None? then bound.(sid := captured) else bound;
        if full.sid.None? then full else full.(status := Done)
  }

  function StatusRow(t: Task, status: Status): Task {
    if !status.Backlog? && t.sid.None? then t else t.(status := status)
  }

  function AgentRow(t: Task, provider: Provider): Task {
    if !t.status.Backlog? || t.sid.Some? || t.started then t else t.(provider := provider)
  }

  /** The row a step writes, for a step that names a task. */
  function RowAfter(db: Db, slug: Slug, step: Step): Task
    requires slug in db.tasks
  {
    var t := db.tasks[slug];
    match step
    case Claim(_, s, requested, afresh, id) =>
      if s == slug then ClaimedRow(t, Decide(t, requested, afresh, db.released), id) else t
    case Rollback(pid) =>
      if pid in db.attempts && db.attempts[pid].slug == slug then RolledBackRow(t, db.attempts[pid]) else t
    case Here(s, requested, provider, x, force) =>
      if s == slug then HereRow(db.tasks, slug, requested, provider, x, force) else t
    case Capture(s, x) => if s == slug then CapturedRow(db.tasks, slug, x) else t
    case Retry(s, provider, id) => if s == slug then RetriedRow(t, provider, id) else t
    case Finish(s, current, captured) => if s == slug then FinishedRow(db.tasks, slug, current, captured) else t
    case SetStatus(s, status) => if s == slug then StatusRow(t, status) else t
    case SetAgent(s, provider) => if s == slug then AgentRow(t, provider) else t
    case _ => t
  }

  function InPhase(attempts: map<Pid, Attempt>, pid: Pid, phase: Phase): map<Pid, Attempt> {
    if pid in attempts then attempts[pid := attempts[pid].(phase := phase)] else attempts
  }

  function AttemptsAfter(db: Db, step: Step): map<Pid, Attempt> {
    match step
    case Claim(pid, slug, requested, afresh, id) =>
      if slug in db.tasks then
        var t := db.tasks[slug];
        db.attempts[pid := ClaimedAttempt(slug, t, Decide(t, requested, afresh, db.released), id)]
      else db.attempts
    case SpawnOk(pid) => InPhase(db.attempts, pid, Launched)
    case SpawnFails(pid) => InPhase(db.attempts, pid, Failing)
    case Rollback(pid) => InPhase(db.attempts, pid, RolledBack)
    case _ => db.attempts
  }

  /** The ids a step brings in. */
  function IdsOf(step: Step): set<Sid> {
    match step
    case Claim(_, _, _, _, id) => {id}
    case Here(_, _, _, x, _) => {x}
    case Capture(_, x) => {x}
    case Retry(_, _, id) => {id}
    case Finish(_, current, captured) =>
      (if current.Some? then {current.value} else {}) + (if captured.Some? then {captured.value} else {})
    case _ => {}
  }

  /** A session end releases its id; a later event of the session takes that back. */
  function ReleasedAfter(released: set<Sid>, step: Step): set<Sid> {
    match step
    case Release(x) => released + {x}
    case Reopen(x) => released - {x}
    case _ => released
  }

  function Next(db: Db, step: Step): Db {
    Db(map slug | slug in db.tasks :: RowAfter(db, slug, step),
       AttemptsAfter(db, step),
       db.used + IdsOf(step),
       ReleasedAfter(db.released, step))
  }

  // ---- which steps can happen ----

  /** A running session's id: no attempt allocated it, or the one that did got its terminal up. */
  predicate Live(db: Db, x: Sid) {
    forall pid :: pid in db.attempts && Owns(db.attempts[pid], x) ==> db.attempts[pid].phase.Launched?
  }

  predicate Allowed(db: Db, step: Step) {
    match step
    case Claim(pid, _, _, _, id) => pid !in db.attempts && id !in db.used
    case SpawnOk(pid) => pid in db.attempts && db.attempts[pid].phase.Spawning?
    case SpawnFails(pid) => pid in db.attempts && db.attempts[pid].phase.Spawning?
    case Rollback(pid) => pid in db.attempts && db.attempts[pid].phase.Failing?
    case Here(_, _, _, x, _) => Live(db, x)
    case Capture(_, x) => Live(db, x)
    case Retry(_, _, id) => id !in db.used
    case Release(x) => x in db.used
    case Finish(_, current, captured) =>
      (current.Some? ==> Live(db, current.value)) && (captured.Some? ==> Live(db, captured.value))
    case _ => true
  }

  function Run(db: Db, steps: seq<Step>): Db
    decreases |steps|
  {
    if steps == [] then db else Run(Next(db, steps[0]), steps[1..])
  }

  predicate CanRun(db: Db, steps: seq<Step>)
    decreases |steps|
  {
    steps == [] || (Allowed(db, steps[0]) && CanRun(Next(db, steps[0]), steps[1..]))
  }

  // ---- the invariant ----

  /** A task not in backlog has a session id, or is a Codex task whose session has started. */
  predicate RowOk(t: Task) {
    t.status.Backlog? || t.sid.Some? || (t.provider.Codex? && t.started)
  }

  ghost predicate TableOk(db: Db) {
    forall s :: s in db.tasks ==> RowOk(db.tasks[s])
  }

  /** No two rows hold the same session id. */
  ghost predicate Unique(db: Db) {
    forall s, r :: s in db.tasks && r in db.tasks && s != r && db.tasks[s].sid.Some? ==>
      db.tasks[s].sid != db.tasks[r].sid
  }

  ghost predicate Known(db: Db) {
    && db.released <= db.used
    && (forall s :: s in db.tasks && db.tasks[s].sid.Some? ==> db.tasks[s].sid.value in db.used)
    && (forall p :: p in db.attempts && db.attempts[p].sid.Some? ==> db.attempts[p].sid.value in db.used)
  }

  /** Different attempts allocate different ids. */
  ghost predicate OneOwner(db: Db) {
    forall p, q, x :: p in db.attempts && q in db.attempts && Owns(db.attempts[p], x) && Owns(db.attempts[q], x) ==>
      p == q
  }

  predicate InFlight(a: Attempt) {
    a.phase.Spawning? || a.phase.Failing?
  }

  /** An id in a row is its allocating attempt's: launched, or still in flight on that very row. */
  ghost predicate Held(db: Db) {
    forall s, p, x :: s in db.tasks && p in db.attempts && db.tasks[s].sid == Some(x) && Owns(db.attempts[p], x) ==>
      db.attempts[p].phase.Launched? || (InFlight(db.attempts[p]) && db.attempts[p].slug == s)
  }

  ghost predicate Inv(db: Db) {
    TableOk(db) && Unique(db) && Known(db) && OneOwner(db) && Held(db)
  }

  // ---- every step keeps the invariant ----

  /** The task a step names. */
  function Target(db: Db, step: Step): Option<Slug> {
    match step
    case Claim(_, slug, _, _, _) => Some(slug)
    case Rollback(pid) => if pid in db.attempts then Some(db.attempts[pid].slug) else None
    case Here(slug, _, _, _, _) => Some(slug)
    case Capture(slug, _) => Some(slug)
    case Retry(slug, _, _) => Some(slug)
    case Finish(slug, _, _) => Some(slug)
    case SetStatus(slug, _) => Some(slug)
    case SetAgent(slug, _) => Some(slug)
    case _ => None
  }

  lemma OthersUnchanged(db: Db, slug: Slug, step: Step)
    requires slug in db.tasks && Target(db, step) != Some(slug)
    ensures RowAfter(db, slug, step) == db.tasks[slug]
  {
  }

  lemma RowStaysOk(db: Db, slug: Slug, step: Step)
    requires slug in db.tasks && RowOk(db.tasks[slug])
    ensures RowOk(RowAfter(db, slug, step))
  {
  }

  /** The id is new to the row: no other row has it, and it is brand new or a running session's. */
  ghost predicate Acquires(db: Db, slug: Slug, step: Step, x: Sid) {
    && Target(db, step) == Some(slug) && x in IdsOf(step)
    && (x in db.used ==> Live(db, x) && !BoundElsewhere(db.tasks, slug, x))
  }

  lemma RowSid(db: Db, slug: Slug, step: Step, x: Sid)
    requires slug in db.tasks && Allowed(db, step) && RowAfter(db, slug, step).sid == Some(x)
    ensures db.tasks[slug].sid == Some(x) || Acquires(db, slug, step, x)
  {
  }

  lemma NextKeepsTable(db: Db, step: Step)
    requires TableOk(db)
    ensures TableOk(Next(db, step))
  {
    forall s | s in db.tasks ensures RowOk(RowAfter(db, s, step)) {
      RowStaysOk(db, s, step);
    }
  }

  lemma NextKeepsUnique(db: Db, step: Step)
    requires Inv(db) && Allowed(db, step)
    ensures Unique(Next(db, step))
  {
    forall s, r | s in db.tasks && r in db.tasks && s != r && RowAfter(db, s, step).sid.Some?
      ensures RowAfter(db, s, step).sid != RowAfter(db, r, step).sid
    {
      var x := RowAfter(db, s, step).sid.value;
      RowSid(db, s, step, x);
      if RowAfter(db, r, step).sid == Some(x) {
        RowSid(db, r, step, x);
      }
    }
  }

  lemma NextKeepsKnown(db: Db, step: Step)
    requires Inv(db) && Allowed(db, step)
    ensures Known(Next(db, step))
  {
    forall s | s in db.tasks && RowAfter(db, s, step).sid.Some?
      ensures RowAfter(db, s, step).sid.value in Next(db, step).used
    {
      RowSid(db, s, step, RowAfter(db, s, step).sid.value);
    }
  }

  lemma NextKeepsOneOwner(db: Db, step: Step)
    requires Inv(db) && Allowed(db, step)
    ensures OneOwner(Next(db, step))
  {
  }

  lemma NextKeepsHeld(db: Db, step: Step)
    requires Inv(db) && Allowed(db, step)
    ensures Held(Next(db, step))
  {
    var after := Next(db, step);
    forall s, p, x |
      s in after.tasks && p in after.attempts && after.tasks[s].sid == Some(x) && Owns(after.attempts[p], x)
      ensures after.attempts[p].phase.Launched? || (InFlight(after.attempts[p]) && after.attempts[p].slug == s)
    {
      RowSid(db, s, step, x);
      HeldAt(db, step, s, p, x);
    }
  }

  lemma HeldAt(db: Db, step: Step, s: Slug, p: Pid, x: Sid)
    requires Inv(db) && Allowed(db, step) && s in db.tasks && p in AttemptsAfter(db, step)
    requires RowAfter(db, s, step).sid == Some(x) && Owns(AttemptsAfter(db, step)[p], x)
    requires db.tasks[s].sid == Some(x) || Acquires(db, s, step, x)
    ensures var a := AttemptsAfter(db, step)[p];
      a.phase.Launched? || (InFlight(a) && a.slug == s)
  {
  }

  /** Every command, at any moment any process reaches it, keeps the invariant. */
  lemma NextKeepsInv(db: Db, step: Step)
    requires Inv(db) && Allowed(db, step)
    ensures Inv(Next(db, step))
  {
    NextKeepsTable(db, step);
    NextKeepsUnique(db, step);
    NextKeepsKnown(db, step);
    NextKeepsOneOwner(db, step);
    NextKeepsHeld(db, step);
  }

  lemma {:induction false} RunKeepsInv(db: Db, steps: seq<Step>)
    requires Inv(db) && CanRun(db, steps)
    ensures Inv(Run(db, steps))
    decreases |steps|
  {
    if steps != [] {
      NextKeepsInv(db, steps[0]);
      RunKeepsInv(Next(db, steps[0]), steps[1..]);
    }
  }

  /** Every run of commands, whatever ids they are given, keeps the table invariant. */
  lemma {:induction false} TableInvariant(db: Db, steps: seq<Step>)
    requires TableOk(db)
    ensures TableOk(Run(db, steps))
    decreases |steps|
  {
    if steps != [] {
      NextKeepsTable(db, steps[0]);
      TableInvariant(Next(db, steps[0]), steps[1..]);
    }
  }

  /** What the transaction hands the process is what it committed. A run is refused exactly on a done task
      or on another provider's session without --fresh, and bootstraps exactly when there is no session,
      or a released one, or --fresh is given; a refused run changes nothing, any other leaves the task in
      progress under the run's provider and, for Claude, its session id. */
  lemma ClaimHandsOver(t: Task, slug: Slug, requested: Option<Provider>, afresh: bool, released: set<Sid>, id: Sid)
    ensures var decision := Decide(t, requested, afresh, released);
      var row, a := ClaimedRow(t, decision, id), ClaimedAttempt(slug, t, decision, id);
      && (a.phase.Refused? <==>
            t.status.Done? || (t.sid.Some? && !afresh && requested.Some? && requested.value != t.provider))
      && (a.boot <==> !a.phase.Refused? && (t.sid.None? || afresh || t.sid.value in released))
      && (a.phase.Refused? ==> row == t)
      && (!a.phase.Refused? ==> row.status.InProgress? && row.provider == a.provider)
      && (!a.phase.Refused? && requested.Some? ==> row.provider == requested.value)
      && (!a.phase.Refused? && a.provider.Claude? ==> a.sid.Some? && row.sid == a.sid)
      && (!a.phase.Refused? && !a.boot ==>
            row == t.(status := InProgress) && t.sid.Some? && t.sid.value !in released && a.sid == t.sid)
      && (a.boot ==> row.started && row.sid == (if row.provider.Claude? then Some(id) else None))
      && a.slug == slug && (!a.phase.Refused? ==> a.phase.Spawning?)
      && (!a.phase.Refused? && requested.None? ==> row.provider == t.provider)
  {
  }

  /** Who can take a session id off a row, or switch the provider of a row that has one: a fresh claim or
      one of a released session, a provider retry, a forced binding (never across providers), and the
      rollback of the attempt that allocated it. */
  lemma WhoMovesASession(db: Db, slug: Slug, step: Step)
    requires slug in db.tasks && db.tasks[slug].sid.Some?
    ensures var t, after := db.tasks[slug], RowAfter(db, slug, step);
      && (after.sid != t.sid ==>
            || (step.Claim? && (step.afresh || t.sid.value in db.released))
            || step.Retry?
            || (step.Here? && step.force && after.provider == t.provider)
            || (step.Rollback? && after.sid.None? && Owns(db.attempts[step.pid], t.sid.value)))
      && (after.provider != t.provider ==>
            || (step.Claim? && step.afresh && step.requested == Some(after.provider))
            || (step.Retry? && step.provider == after.provider))
  {
  }

  /** A released session is not resumed: the next plain run bootstraps, until the session shows up again. */
  lemma ReleasedIsNotResumed(db: Db, slug: Slug, x: Sid)
    requires slug in db.tasks && db.tasks[slug].sid == Some(x) && !db.tasks[slug].status.Done?
    ensures Decide(Next(db, Release(x)).tasks[slug], None, false, Next(db, Release(x)).released)
         == Bootstrap(db.tasks[slug].provider)
    ensures var back := Next(Next(db, Release(x)), Reopen(x));
      Decide(back.tasks[slug], None, false, back.released) == Resume
  {
  }

  // ---- no leaked claim ----

  /** At any moment: an id in a row that some attempt allocated is of an attempt that launched or is
      still in flight on that row. So once nothing is in flight, no row holds a failed attempt's id. */
  lemma NoLeakedClaim(db: Db, steps: seq<Step>, s: Slug, p: Pid, x: Sid)
    requires Inv(db) && CanRun(db, steps)
    requires var after := Run(db, steps);
      s in after.tasks && p in after.attempts && after.tasks[s].sid == Some(x) && Owns(after.attempts[p], x)
    ensures var a := Run(db, steps).attempts[p];
      a.phase.Launched? || (InFlight(a) && a.slug == s)
  {
    RunKeepsInv(db, steps);
  }

  /** A rollback of a Claude attempt changes no row but one that still holds the id it allocated itself,
      and then leaves that row unclaimed. */
  lemma RollbackClearsOnlyOwn(db: Db, pid: Pid, s: Slug)
    requires Inv(db) && Allowed(db, Rollback(pid)) && s in db.tasks
    requires db.attempts[pid].provider.Claude? && RowAfter(db, s, Rollback(pid)) != db.tasks[s]
    ensures s == db.attempts[pid].slug && db.tasks[s].sid.Some? && Owns(db.attempts[pid], db.tasks[s].sid.value)
    ensures forall q :: q in db.attempts && Owns(db.attempts[q], db.tasks[s].sid.value) ==> q == pid
    ensures RowAfter(db, s, Rollback(pid)) == Task(Backlog, db.tasks[s].provider, None, false)
  {
  }

  // ---- claim agreement ----

  /** The runs the agreement is about: on task t, Claude runs without --fresh, none of whose spawns fail,
      no release of t's session, and no other command; anything on other tasks. */
  predicate AgreedStep(start: Db, db: Db, t: Slug, step: Step)
    requires t in start.tasks && t in db.tasks
  {
    match step
    case Claim(_, slug, requested, afresh, _) =>
      slug == t ==> !afresh && (requested == Some(Claude) || (requested.None? && start.tasks[t].provider.Claude?))
    case SpawnFails(pid) => pid in db.attempts ==> db.attempts[pid].slug != t
    case Release(x) => db.tasks[t].sid != Some(x)
    case SpawnOk(_) => true
    case _ => Target(db, step) != Some(t)
  }

  predicate AgreedRun(start: Db, db: Db, t: Slug, steps: seq<Step>)
    requires t in start.tasks && t in db.tasks
    decreases |steps|
  {
    steps == [] || (Allowed(db, steps[0]) && AgreedStep(start, db, t, steps[0])
                    && AgreedRun(start, Next(db, steps[0]), t, steps[1..]))
  }

  /** An attempt of the run on task t. */
  predicate Ours(start: Db, db: Db, t: Slug, p: Pid) {
    p in db.attempts && p !in start.attempts && db.attempts[p].slug == t
  }

  /** Attempt p bootstraps and every other run resumes the session it wrote, which the row holds. */
  ghost predicate Leads(start: Db, db: Db, t: Slug, p: Pid)
    requires t in db.tasks
  {
    && Ours(start, db, t, p) && db.attempts[p].boot && db.attempts[p].provider.Claude? && db.attempts[p].sid.Some?
    && db.tasks[t] == Task(InProgress, Claude, db.attempts[p].sid, true)
    && db.attempts[p].sid.value !in db.released
    && forall q :: Ours(start, db, t, q) && q != p ==>
         !db.attempts[q].boot && db.attempts[q].sid == db.attempts[p].sid && !db.attempts[q].phase.Refused?
  }

  ghost predicate Agreed(start: Db, db: Db, t: Slug)
    requires t in start.tasks && t in db.tasks
  {
    || (db.tasks[t] == start.tasks[t] && forall p :: !Ours(start, db, t, p))
    || exists p :: Leads(start, db, t, p)
  }

  lemma FirstClaimLeads(start: Db, db: Db, t: Slug, step: Step)
    requires Inv(db) && t in start.tasks && t in db.tasks && start.attempts.Keys <= db.attempts.Keys
    requires start.tasks[t].sid.None? && !start.tasks[t].status.Done?
    requires Allowed(db, step) && AgreedStep(start, db, t, step) && step.Claim? && step.slug == t
    requires db.tasks[t] == start.tasks[t] && forall p :: !Ours(start, db, t, p)
    ensures Leads(start, Next(db, step), t, step.pid)
  {
    var after := Next(db, step);
    forall q | Ours(start, after, t, q) && q != step.pid ensures false {
      assert Ours(start, db, t, q);
    }
  }

  lemma LaterClaimFollows(start: Db, db: Db, t: Slug, step: Step, p: Pid)
    requires Inv(db) && t in start.tasks && t in db.tasks
    requires Allowed(db, step) && AgreedStep(start, db, t, step) && Leads(start, db, t, p)
    requires step.Claim? && step.slug == t
    ensures Leads(start, Next(db, step), t, p)
  {
    var after := Next(db, step);
    assert Decide(db.tasks[t], step.requested, step.afresh, db.released) == Resume;
    forall q | Ours(start, after, t, q) && q != p
      ensures !after.attempts[q].boot && after.attempts[q].sid == after.attempts[p].sid
      ensures !after.attempts[q].phase.Refused?
    {
      if q != step.pid {
        assert Ours(start, db, t, q);
      }
    }
  }

  lemma OtherStepKeepsLead(start: Db, db: Db, t: Slug, step: Step, p: Pid)
    requires Inv(db) && t in start.tasks && t in db.tasks
    requires Allowed(db, step) && AgreedStep(start, db, t, step) && Leads(start, db, t, p)
    requires !(step.Claim? && step.slug == t)
    ensures Leads(start, Next(db, step), t, p)
  {
    var after := Next(db, step);
    OthersUnchanged(db, t, step);
    forall q | Ours(start, after, t, q) && q != p
      ensures !after.attempts[q].boot && after.attempts[q].sid == after.attempts[p].sid
      ensures !after.attempts[q].phase.Refused?
    {
      assert Ours(start, db, t, q);
    }
  }

  lemma OtherStepKeepsUnbound(start: Db, db: Db, t: Slug, step: Step)
    requires t in start.tasks && t in db.tasks
    requires Allowed(db, step) && AgreedStep(start, db, t, step) && !(step.Claim? && step.slug == t)
    requires db.tasks[t] == start.tasks[t] && forall p :: !Ours(start, db, t, p)
    ensures Next(db, step).tasks[t] == start.tasks[t] && forall p :: !Ours(start, Next(db, step), t, p)
  {
    OthersUnchanged(db, t, step);
    forall p | Ours(start, Next(db, step), t, p) ensures false {
      assert Ours(start, db, t, p);
    }
  }

  lemma NextAgrees(start: Db, db: Db, t: Slug, step: Step)
    requires Inv(db) && t in start.tasks && t in db.tasks && start.attempts.Keys <= db.attempts.Keys
    requires start.tasks[t].sid.None? && !start.tasks[t].status.Done?
    requires Allowed(db, step) && AgreedStep(start, db, t, step) && Agreed(start, db, t)
    ensures Agreed(start, Next(db, step), t)
  {
    var claim := step.Claim? && step.slug == t;
    if p :| Leads(start, db, t, p) {
      if claim {
        LaterClaimFollows(start, db, t, step, p);
      } else {
        OtherStepKeepsLead(start, db, t, step, p);
      }
    } else if claim {
      FirstClaimLeads(start, db, t, step);
    } else {
      OtherStepKeepsUnbound(start, db, t, step);
    }
  }

  lemma {:induction false} RunAgrees(start: Db, db: Db, t: Slug, steps: seq<Step>)
    requires Inv(db) && t in start.tasks && t in db.tasks && start.attempts.Keys <= db.attempts.Keys
    requires start.tasks[t].sid.None? && !start.tasks[t].status.Done?
    requires AgreedRun(start, db, t, steps) && Agreed(start, db, t)
    ensures t in Run(db, steps).tasks && Agreed(start, Run(db, steps), t)
    decreases |steps|
  {
    if steps != [] {
      NextKeepsInv(db, steps[0]);
      NextAgrees(start, db, t, steps[0]);
      RunAgrees(start, Next(db, steps[0]), t, steps[1..]);
    }
  }

  /** Any number of concurrent Claude runs on one unbound task, interleaved with anything on other
      tasks: either none has claimed it and the row is untouched, or exactly one bootstraps and all
      others resume the session id it wrote. */
  lemma ClaimAgreement(start: Db, t: Slug, steps: seq<Step>)
    requires Inv(start) && t in start.tasks && start.tasks[t].sid.None? && !start.tasks[t].status.Done?
    requires AgreedRun(start, start, t, steps)
    ensures t in Run(start, steps).tasks && Agreed(start, Run(start, steps), t)
  {
    RunAgrees(start, start, t, steps);
  }

  // ---- failed bootstraps ----

  lemma RunTwo(db: Db, a: Step, b: Step)
    ensures Run(db, [a, b]) == Next(Next(db, a), b)
    ensures CanRun(db, [a, b]) <==> Allowed(db, a) && Allowed(Next(db, a), b)
  {
    assert [a, b][1..] == [b] && [b][1..] == [];
    assert Run(Next(db, a), [b]) == Run(Next(Next(db, a), b), []);
    assert CanRun(Next(db, a), [b]) <==> Allowed(Next(db, a), b) && CanRun(Next(Next(db, a), b), []);
  }

  lemma {:induction false} RunConcat(db: Db, a: seq<Step>, b: seq<Step>)
    ensures Run(db, a + b) == Run(Run(db, a), b)
    ensures CanRun(db, a + b) <==> CanRun(db, a) && CanRun(Run(db, a), b)
    decreases |a|
  {
    if a == [] {
      assert a + b == b;
    } else {
      assert (a + b)[0] == a[0] && (a + b)[1..] == a[1..] + b;
      RunConcat(Next(db, a[0]), a[1..], b);
    }
  }

  /** The steps do not write the task's row. */
  predicate AsideRun(db: Db, slug: Slug, steps: seq<Step>)
    decreases |steps|
  {
    steps == [] || (Allowed(db, steps[0]) && Target(db, steps[0]) != Some(slug)
                    && AsideRun(Next(db, steps[0]), slug, steps[1..]))
  }

  lemma {:induction false} AsideKeepsRow(db: Db, slug: Slug, steps: seq<Step>)
    requires slug in db.tasks && AsideRun(db, slug, steps)
    ensures CanRun(db, steps) && slug in Run(db, steps).tasks && Run(db, steps).tasks[slug] == db.tasks[slug]
    decreases |steps|
  {
    if steps != [] {
      OthersUnchanged(db, slug, steps[0]);
      AsideKeepsRow(Next(db, steps[0]), slug, steps[1..]);
    }
  }

  /** An attempt only changes its phase. */
  lemma {:induction false} AttemptStays(db: Db, steps: seq<Step>, p: Pid)
    requires p in db.attempts && CanRun(db, steps)
    ensures p in Run(db, steps).attempts
    ensures Run(db, steps).attempts[p] == db.attempts[p].(phase := Run(db, steps).attempts[p].phase)
    decreases |steps|
  {
    if steps != [] {
      AttemptStays(Next(db, steps[0]), steps[1..], p);
    }
  }

  /** The claim bootstraps the task. */
  predicate Bootstraps(db: Db, claim: Step) {
    claim.Claim? && claim.slug in db.tasks && Allowed(db, claim)
    && Decide(db.tasks[claim.slug], claim.requested, claim.afresh, db.released).Bootstrap?
  }

  function BootProvider(db: Db, claim: Step): Provider
    requires Bootstraps(db, claim)
  {
    Decide(db.tasks[claim.slug], claim.requested, claim.afresh, db.released).provider
  }

  /** When nothing else writes the task in between, a failed bootstrap leaves it in backlog, never started,
      whatever it was. So it gives the row back exactly when the run found it that way: a failed --fresh
      run, say, loses the earlier session. */
  lemma FailedBootstrapRestoresIff(db: Db, claim: Step, steps: seq<Step>)
    requires Bootstraps(db, claim) && AsideRun(Next(db, claim), claim.slug, steps)
    requires Allowed(Run(Next(db, claim), steps), Rollback(claim.pid))
    ensures var after, never := Run(Next(db, claim), steps), Task(Backlog, BootProvider(db, claim), None, false);
      && claim.slug in after.tasks && RowAfter(after, claim.slug, Rollback(claim.pid)) == never
      && (RowAfter(after, claim.slug, Rollback(claim.pid)) == db.tasks[claim.slug] <==> db.tasks[claim.slug] == never)
  {
    var claimed := Next(db, claim);
    AsideKeepsRow(claimed, claim.slug, steps);
    AttemptStays(claimed, steps, claim.pid);
  }

  /** A bootstrap of the task that launched or may still launch. */
  predicate LiveBoot(a: Attempt, slug: Slug) {
    a.slug == slug && a.boot && (a.phase.Launched? || InFlight(a))
  }

  predicate HasLiveBoot(db: Db, slug: Slug, p: Pid) {
    p in db.attempts && LiveBoot(db.attempts[p], slug)
  }

  /** At this moment the attempt's rollback would change a row under another live bootstrap of the task. */
  ghost predicate WouldUndo(db: Db, slug: Slug, p: Pid) {
    && slug in db.tasks && Allowed(db, Rollback(p)) && RowAfter(db, slug, Rollback(p)) != db.tasks[slug]
    && exists q :: q != p && HasLiveBoot(db, slug, q)
  }

  /** While p is in flight and the row holds its id, no other bootstrap of the task is live. */
  ghost predicate Alone(db: Db, slug: Slug, p: Pid, x: Sid) {
    && slug in db.tasks && p in db.attempts && Owns(db.attempts[p], x) && db.attempts[p].slug == slug
    && (InFlight(db.attempts[p]) && db.tasks[slug].sid == Some(x) ==> forall q :: HasLiveBoot(db, slug, q) ==> q == p)
  }

  /** A new bootstrap takes the row from the id that it held. */
  lemma NewBootTakesRow(db: Db, slug: Slug, step: Step, q: Pid, x: Sid)
    requires slug in db.tasks && Allowed(db, step) && x in db.used
    requires HasLiveBoot(Next(db, step), slug, q) && !HasLiveBoot(db, slug, q)
    ensures RowAfter(db, slug, step).sid != Some(x)
  {
  }

  lemma NextKeepsAlone(db: Db, slug: Slug, p: Pid, x: Sid, step: Step)
    requires Inv(db) && Alone(db, slug, p, x) && Allowed(db, step)
    ensures Alone(Next(db, step), slug, p, x)
  {
    var after := Next(db, step);
    if InFlight(after.attempts[p]) && after.tasks[slug].sid == Some(x) {
      RowSid(db, slug, step, x);
      assert InFlight(db.attempts[p]) && x in db.used;
      forall q | HasLiveBoot(after, slug, q) ensures q == p {
        if !HasLiveBoot(db, slug, q) {
          NewBootTakesRow(db, slug, step, q, x);
        }
      }
    }
  }

  lemma {:induction false} RunKeepsAlone(db: Db, slug: Slug, p: Pid, x: Sid, steps: seq<Step>)
    requires Inv(db) && Alone(db, slug, p, x) && CanRun(db, steps)
    ensures Inv(Run(db, steps)) && Alone(Run(db, steps), slug, p, x)
    decreases |steps|
  {
    if steps != [] {
      NextKeepsInv(db, steps[0]);
      NextKeepsAlone(db, slug, p, x, steps[0]);
      RunKeepsAlone(Next(db, steps[0]), slug, p, x, steps[1..]);
    }
  }

  lemma {:induction false} Above(s: set<nat>) returns (n: nat)
    ensures forall x :: x in s ==> x < n
  {
    if s == {} {
      n := 0;
    } else {
      var x :| x in s;
      var m := Above(s - {x});
      n := if m > x then m else x + 1;
      assert forall y :: y in s ==> y == x || y in s - {x};
    }
  }

  /** A plain run of the task by a process and with an id there have never been. */
  lemma PlainClaim(db: Db, slug: Slug) returns (claim: Step)
    ensures claim.Claim? && claim.slug == slug && claim.requested.None? && !claim.afresh && Allowed(db, claim)
  {
    var pid := Above(db.attempts.Keys);
    var id := Above(db.used);
    claim := Claim(pid, slug, None, false, id);
  }

  lemma LivePeerUndone(db: Db, claim: Step, peer: Pid)
    requires Bootstraps(db, claim) && HasLiveBoot(db, claim.slug, peer)
    ensures CanRun(Next(db, claim), [SpawnFails(claim.pid)])
    ensures WouldUndo(Run(Next(db, claim), [SpawnFails(claim.pid)]), claim.slug, claim.pid)
  {
    var claimed, fails := Next(db, claim), [SpawnFails(claim.pid)];
    RunOne(claimed, SpawnFails(claim.pid));
    FailedBootstrapRestoresIff(db, claim, fails);
    AsideKeepsRow(claimed, claim.slug, fails);
    assert HasLiveBoot(Run(claimed, fails), claim.slug, peer);
  }

  lemma RunOne(db: Db, step: Step)
    ensures Run(db, [step]) == Next(db, step) && (CanRun(db, [step]) <==> Allowed(db, step))
    ensures forall slug: Slug :: AsideRun(db, slug, [step]) <==> Allowed(db, step) && Target(db, step) != Some(slug)
  {
    assert [step][1..] == [];
  }

  lemma LaterCodexUndone(db: Db, claim: Step, second: Step)
    requires Bootstraps(db, claim) && BootProvider(db, claim).Codex?
    requires second.Claim? && second.slug == claim.slug && second.requested.None? && Allowed(Next(db, claim), second)
    ensures CanRun(Next(db, claim), [second, SpawnFails(claim.pid)])
    ensures WouldUndo(Run(Next(db, claim), [second, SpawnFails(claim.pid)]), claim.slug, claim.pid)
  {
    var claimed := Next(db, claim);
    RunTwo(claimed, second, SpawnFails(claim.pid));
    var both := Next(claimed, second);
    OthersUnchanged(both, claim.slug, SpawnFails(claim.pid));
    assert both.tasks[claim.slug] == Task(InProgress, Codex, None, true);
    assert HasLiveBoot(Next(both, SpawnFails(claim.pid)), claim.slug, second.pid);
  }

  /** Over every run of commands from here. */
  ghost predicate NeverUndoes(db: Db, slug: Slug, p: Pid) {
    forall steps :: CanRun(db, steps) ==> !WouldUndo(Run(db, steps), slug, p)
  }

  lemma UndoneBy(db: Db, slug: Slug, p: Pid, steps: seq<Step>)
    requires CanRun(db, steps) && WouldUndo(Run(db, steps), slug, p)
    ensures !NeverUndoes(db, slug, p)
  {
  }

  /** Whatever any process does after it, a bootstrap never undoes another bootstrap of its task exactly
      when it is Claude's and no other was up or coming up at its claim. */
  lemma NeverUndoesIff(db: Db, claim: Step)
    requires Inv(db) && Bootstraps(db, claim)
    ensures NeverUndoes(Next(db, claim), claim.slug, claim.pid)
       <==> (BootProvider(db, claim).Claude? && !exists q :: HasLiveBoot(db, claim.slug, q))
  {
    var claimed, slug, p := Next(db, claim), claim.slug, claim.pid;
    if q :| HasLiveBoot(db, slug, q) {
      LivePeerUndone(db, claim, q);
      UndoneBy(claimed, slug, p, [SpawnFails(p)]);
    } else if BootProvider(db, claim).Codex? {
      var second := PlainClaim(claimed, slug);
      LaterCodexUndone(db, claim, second);
      UndoneBy(claimed, slug, p, [second, SpawnFails(p)]);
    } else {
      NextKeepsInv(db, claim);
      assert Alone(claimed, slug, p, claim.id) by {
        forall q | HasLiveBoot(claimed, slug, q) ensures q == p {
          assert q != p ==> HasLiveBoot(db, slug, q);
        }
      }
      forall steps | CanRun(claimed, steps) ensures !WouldUndo(Run(claimed, steps), slug, p) {
        RunKeepsAlone(claimed, slug, p, claim.id, steps);
      }
    }
  }

  /** A run that resumed the session is never safe from it: after every Claude bootstrap, a plain second run
      can resume its id and launch before the first one's spawn fails, and is then back in backlog. */
  lemma ResumedPeerUndone(db: Db, claim: Step, second: Step)
    requires Inv(db) && Bootstraps(db, claim) && BootProvider(db, claim).Claude?
    requires second.Claim? && second.slug == claim.slug && second.requested.None? && !second.afresh
    requires Allowed(Next(db, claim), second)
    ensures var steps := [second, SpawnOk(second.pid)] + [SpawnFails(claim.pid)];
      var after := Run(Next(db, claim), steps);
      && CanRun(Next(db, claim), steps) && Allowed(after, Rollback(claim.pid)) && claim.slug in after.tasks
      && second.pid in after.attempts
      && after.attempts[second.pid] == Attempt(claim.slug, Claude, false, Some(claim.id), Launched)
      && after.tasks[claim.slug] == Task(InProgress, Claude, Some(claim.id), true)
      && RowAfter(after, claim.slug, Rollback(claim.pid)) == Task(Backlog, Claude, None, false)
  {
    var claimed, slug := Next(db, claim), claim.slug;
    var resumed := Next(claimed, second);
    var up := Next(resumed, SpawnOk(second.pid));
    assert Decide(claimed.tasks[slug], None, false, claimed.released) == Resume;
    OthersUnchanged(resumed, slug, SpawnOk(second.pid));
    OthersUnchanged(up, slug, SpawnFails(claim.pid));
    RunTwo(claimed, second, SpawnOk(second.pid));
    RunConcat(claimed, [second, SpawnOk(second.pid)], [SpawnFails(claim.pid)]);
    RunOne(up, SpawnFails(claim.pid));
  }

  /** At most one of them, and then the row says that its session has started. */
  ghost predicate OneBoot(db: Db, slug: Slug) {
    && slug in db.tasks
    && (forall p, q :: HasLiveBoot(db, slug, p) && HasLiveBoot(db, slug, q) ==> p == q)
    && (forall p :: HasLiveBoot(db, slug, p) ==> db.tasks[slug].started)
  }

  /** A step that bootstraps the task finds it never started. */
  predicate FindsUnstarted(db: Db, slug: Slug, step: Step) {
    step.Claim? && step.slug == slug && slug in db.tasks
    && Decide(db.tasks[slug], step.requested, step.afresh, db.released).Bootstrap?
    ==> !db.tasks[slug].started
  }

  predicate UnstartedRun(db: Db, slug: Slug, steps: seq<Step>)
    decreases |steps|
  {
    steps == [] || (Allowed(db, steps[0]) && FindsUnstarted(db, slug, steps[0])
                    && UnstartedRun(Next(db, steps[0]), slug, steps[1..]))
  }

  lemma StartedStays(db: Db, slug: Slug, step: Step, p: Pid)
    requires OneBoot(db, slug) && Allowed(db, step)
    requires HasLiveBoot(db, slug, p) && HasLiveBoot(Next(db, step), slug, p)
    ensures RowAfter(db, slug, step).started
  {
    if step.Rollback? {
      var pid := step.pid;
      assert pid != p;
      assert !HasLiveBoot(db, slug, pid);
    }
  }

  lemma NextKeepsOneBoot(db: Db, slug: Slug, step: Step)
    requires OneBoot(db, slug) && Allowed(db, step) && FindsUnstarted(db, slug, step)
    ensures OneBoot(Next(db, step), slug)
  {
    var after := Next(db, step);
    forall p | HasLiveBoot(after, slug, p)
      ensures HasLiveBoot(db, slug, p) || (step.Claim? && step.pid == p && step.slug == slug)
      ensures after.tasks[slug].started
    {
      if HasLiveBoot(db, slug, p) {
        StartedStays(db, slug, step, p);
      }
    }
    forall p, q | HasLiveBoot(after, slug, p) && HasLiveBoot(after, slug, q) ensures p == q {
      assert HasLiveBoot(db, slug, p) ==> db.tasks[slug].started;
      assert HasLiveBoot(db, slug, q) ==> db.tasks[slug].started;
    }
  }

  /** When every bootstrap of a task finds it never started, no rollback, of either provider, changes its
      row while another bootstrap of it is up or coming up; whatever else happens to the task. */
  lemma {:induction false} NoPeerUndone(db: Db, slug: Slug, steps: seq<Step>, pid: Pid, peer: Pid)
    requires OneBoot(db, slug) && UnstartedRun(db, slug, steps)
    requires var after := Run(db, steps);
      && Allowed(after, Rollback(pid)) && slug in after.tasks
      && peer != pid && HasLiveBoot(after, slug, peer)
    ensures RowAfter(Run(db, steps), slug, Rollback(pid)) == Run(db, steps).tasks[slug]
    decreases |steps|
  {
    if steps != [] {
      NextKeepsOneBoot(db, slug, steps[0]);
      NoPeerUndone(Next(db, steps[0]), slug, steps[1..], pid, peer);
    } else {
      assert db.attempts[pid].slug == slug && db.attempts[pid].boot ==> HasLiveBoot(db, slug, pid);
    }
  }

  // ---- where the code does not meet the promises ----

  /** A Codex bootstrap leaves no session id, so the next run on the task, not yet captured, bootstraps too. */
  lemma CodexRunsBothBootstrap(t: Task, requested: Option<Provider>, released: set<Sid>, id: Sid)
    requires Decide(t, requested, false, released) == Bootstrap(Codex)
    ensures var row := ClaimedRow(t, Bootstrap(Codex), id);
      Decide(row, requested, false, released) == Bootstrap(Codex)
  {
  }

  /** So a failed Codex bootstrap can undo a peer's: on every never-started Codex task, a second run
      whose spawn fails after the first launched sends the running task back to backlog. */
  lemma CodexRollbackUndoesPeer(db: Db, first: Step, second: Step)
    requires first.Claim? && second.Claim? && first.slug == second.slug && first.slug in db.tasks
    requires db.tasks[first.slug] == Task(Backlog, Codex, None, false)
    requires first.requested.None? && second.requested.None? && !second.afresh
    requires Allowed(db, first) && Allowed(db, second) && first.pid != second.pid && first.id != second.id
    ensures var steps := [first, SpawnOk(first.pid)] + [second, SpawnFails(second.pid)];
      var after := Run(db, steps);
      && CanRun(db, steps) && HasLiveBoot(after, first.slug, first.pid)
      && after.attempts[first.pid].phase.Launched? && Allowed(after, Rollback(second.pid)) && first.slug in after.tasks
      && after.tasks[first.slug] == Task(InProgress, Codex, None, true)
      && RowAfter(after, first.slug, Rollback(second.pid)) == Task(Backlog, Codex, None, false)
  {
    var up := Run(db, [first, SpawnOk(first.pid)]);
    RunTwo(db, first, SpawnOk(first.pid));
    OthersUnchanged(Next(db, first), first.slug, SpawnOk(first.pid));
    RunConcat(db, [first, SpawnOk(first.pid)], [second, SpawnFails(second.pid)]);
    RunTwo(up, second, SpawnFails(second.pid));
    RunOne(Next(up, second), SpawnFails(second.pid));
    FailedBootstrapRestoresIff(up, second, [SpawnFails(second.pid)]);
    AsideKeepsRow(Next(up, second), first.slug, [SpawnFails(second.pid)]);
  }

  /** The checks of `flow done`, on the row it reads first. */
  predicate FinishPasses(t: Task) {
    t.sid.Some? || (!t.status.Backlog? && t.provider.Claude?)
  }

  /** The write of `flow done` is the flip of the status, wherever its check passes. */
  lemma FinishFlips(db: Db, slug: Slug, current: Option<Sid>, captured: Option<Sid>)
    requires slug in db.tasks && FinishPasses(db.tasks[slug])
    ensures RowAfter(db, slug, Finish(slug, current, captured)) == db.tasks[slug].(status := Done)
  {
  }

  lemma LaunchedRow(db: Db, claim: Step)
    requires Bootstraps(db, claim)
    ensures var up := Next(Next(db, claim), SpawnOk(claim.pid));
      && CanRun(db, [claim, SpawnOk(claim.pid)]) && Run(db, [claim, SpawnOk(claim.pid)]) == up
      && up.tasks.Keys == db.tasks.Keys
      && (forall s :: s in db.tasks && s != claim.slug ==> up.tasks[s] == db.tasks[s])
      && up.tasks[claim.slug] == Task(InProgress, BootProvider(db, claim),
                                      if BootProvider(db, claim).Claude? then Some(claim.id) else None, true)
  {
    RunTwo(db, claim, SpawnOk(claim.pid));
    OthersUnchanged(Next(db, claim), claim.slug, SpawnOk(claim.pid));
  }

  lemma StillLive(db: Db, claim: Step, x: Sid)
    requires Bootstraps(db, claim) && x != claim.id && Live(db, x)
    ensures Live(Next(Next(db, claim), SpawnOk(claim.pid)), x)
  {
  }

  lemma CapturedCloses(db: Db, slug: Slug, x: Sid)
    requires slug in db.tasks && Live(db, x) && !BoundElsewhere(db.tasks, slug, x)
    requires db.tasks[slug].status.InProgress? && (db.tasks[slug].provider.Claude? <==> db.tasks[slug].sid.Some?)
    ensures var steps, t := [Capture(slug, x), Finish(slug, None, None)], db.tasks[slug];
      && CanRun(db, steps) && slug in Run(db, steps).tasks
      && Run(db, steps).tasks[slug]
         == if t.provider.Claude? then t.(status := Done) else Task(Done, Codex, Some(x), true)
  {
    RunTwo(db, Capture(slug, x), Finish(slug, None, None));
    FinishFlips(Next(db, Capture(slug, x)), slug, None, None);
  }

  /** From a claim to a close: on every task a bootstrap that launches, whose session is captured if it is
      Codex's, can be closed, and the task stays bound to that session. */
  lemma StartedTaskCloses(db: Db, claim: Step, x: Sid)
    requires Bootstraps(db, claim) && x != claim.id && Live(db, x)
    requires forall s :: s in db.tasks ==> db.tasks[s].sid != Some(x)
    ensures var steps := [claim, SpawnOk(claim.pid)] + [Capture(claim.slug, x), Finish(claim.slug, None, None)];
      && CanRun(db, steps) && claim.slug in Run(db, steps).tasks
      && Run(db, steps).tasks[claim.slug]
         == Task(Done, BootProvider(db, claim), Some(if BootProvider(db, claim).Claude? then claim.id else x), true)
  {
    var up := Next(Next(db, claim), SpawnOk(claim.pid));
    LaunchedRow(db, claim);
    StillLive(db, claim, x);
    assert !BoundElsewhere(up.tasks, claim.slug, x);
    RunConcat(db, [claim, SpawnOk(claim.pid)], [Capture(claim.slug, x), Finish(claim.slug, None, None)]);
    CapturedCloses(up, claim.slug, x);
  }

  /** `flow done` writes without a guard. On every unbound Claude task, a run whose spawn fails makes the
      check pass, and with its rollback before the write the task ends done without a session. */
  lemma LateFinishBreaksTable(db: Db, claim: Step)
    requires claim.Claim? && claim.slug in db.tasks && Allowed(db, claim) && claim.requested.None?
    requires var t := db.tasks[claim.slug];
      t.provider.Claude? && t.sid.None? && !t.status.Done?
    ensures var steps := [claim, SpawnFails(claim.pid)];
      var after := Run(db, steps);
      && CanRun(db, steps) && Allowed(after, Rollback(claim.pid)) && claim.slug in after.tasks
      && FinishPasses(after.tasks[claim.slug])
      && !RowOk(RowAfter(after, claim.slug, Rollback(claim.pid)).(status := Done))
  {
    RunTwo(db, claim, SpawnFails(claim.pid));
    RunOne(Next(db, claim), SpawnFails(claim.pid));
    FailedBootstrapRestoresIff(db, claim, [SpawnFails(claim.pid)]);
    AsideKeepsRow(Next(db, claim), claim.slug, [SpawnFails(claim.pid)]);
  }

  /** What may happen on a task between the two statements: the runs under way go on, and anything is
      done to other tasks. */
  predicate UnderWay(db: Db, slug: Slug, step: Step) {
    step.Rollback? || Target(db, step) != Some(slug)
  }

  predicate UnderWayRun(db: Db, slug: Slug, steps: seq<Step>)
    decreases |steps|
  {
    steps == [] || (Allowed(db, steps[0]) && UnderWay(db, slug, steps[0])
                    && UnderWayRun(Next(db, steps[0]), slug, steps[1..]))
  }

  /** The write of `flow done`, after these steps, leaves the row sound. */
  predicate LateFinishOk(db: Db, slug: Slug, steps: seq<Step>) {
    slug in Run(db, steps).tasks && RowOk(Run(db, steps).tasks[slug].(status := Done))
  }

  lemma {:induction false} LiveRowStays(db: Db, slug: Slug, x: Sid, steps: seq<Step>)
    requires Inv(db) && slug in db.tasks && db.tasks[slug].sid == Some(x) && Live(db, x)
    requires UnderWayRun(db, slug, steps)
    ensures slug in Run(db, steps).tasks && Run(db, steps).tasks[slug] == db.tasks[slug]
    decreases |steps|
  {
    if steps != [] {
      NextKeepsInv(db, steps[0]);
      LiveRowStep(db, slug, x, steps[0]);
      LiveRowStays(Next(db, steps[0]), slug, x, steps[1..]);
    }
  }

  lemma LiveRowStep(db: Db, slug: Slug, x: Sid, step: Step)
    requires Inv(db) && slug in db.tasks && db.tasks[slug].sid == Some(x) && Live(db, x)
    requires Allowed(db, step) && UnderWay(db, slug, step)
    ensures RowAfter(db, slug, step) == db.tasks[slug] && Live(Next(db, step), x)
  {
    if !step.Rollback? {
      OthersUnchanged(db, slug, step);
    }
  }

  /** The run that undoes the row an attempt in flight still holds. */
  function UndoingRun(a: Attempt, pid: Pid): seq<Step> {
    if a.phase.Spawning? then [SpawnFails(pid), Rollback(pid)] else [Rollback(pid)]
  }

  lemma UndoneInFlight(db: Db, slug: Slug, pid: Pid)
    requires Inv(db) && slug in db.tasks && db.tasks[slug].sid.Some? && pid in db.attempts
    requires Owns(db.attempts[pid], db.tasks[slug].sid.value) && InFlight(db.attempts[pid])
    ensures UnderWayRun(db, slug, UndoingRun(db.attempts[pid], pid))
    ensures !LateFinishOk(db, slug, UndoingRun(db.attempts[pid], pid))
  {
    assert db.attempts[pid].slug == slug;
    if db.attempts[pid].phase.Spawning? {
      var mid := Next(db, SpawnFails(pid));
      OthersUnchanged(db, slug, SpawnFails(pid));
      assert [SpawnFails(pid), Rollback(pid)][1..] == [Rollback(pid)] && [Rollback(pid)][1..] == [];
      assert mid.tasks[slug] == db.tasks[slug] && mid.attempts[pid].phase.Failing?;
      assert Run(mid, [Rollback(pid)]) == Next(mid, Rollback(pid));
      assert UnderWayRun(mid, slug, [Rollback(pid)]);
    } else {
      assert [Rollback(pid)][1..] == [];
      assert Run(db, [Rollback(pid)]) == Next(db, Rollback(pid));
    }
  }

  /** The unguarded write is safe, whatever happens in between, exactly when the session id that the check
      saw belongs to no attempt still in flight. */
  lemma LateFinishSafeIff(db: Db, slug: Slug)
    requires Inv(db) && slug in db.tasks && FinishPasses(db.tasks[slug])
    ensures db.tasks[slug].sid.Some?
    ensures (forall steps :: UnderWayRun(db, slug, steps) ==> LateFinishOk(db, slug, steps))
       <==> Live(db, db.tasks[slug].sid.value)
  {
    var x := db.tasks[slug].sid.value;
    if Live(db, x) {
      forall steps | UnderWayRun(db, slug, steps) ensures LateFinishOk(db, slug, steps) {
        LiveRowStays(db, slug, x, steps);
      }
    } else {
      var pid :| pid in db.attempts && Owns(db.attempts[pid], x) && !db.attempts[pid].phase.Launched?;
      UndoneInFlight(db, slug, pid);
    }
  }

  lemma AfreshClaimUndone(db: Db, claim: Step)
    requires claim.Claim? && claim.slug in db.tasks && Allowed(db, claim) && claim.requested.None? && claim.afresh
    requires !db.tasks[claim.slug].status.Done?
    ensures var steps := [claim, SpawnFails(claim.pid)] + [Rollback(claim.pid)];
      && CanRun(db, steps) && claim.slug in Run(db, steps).tasks
      && Run(db, steps).tasks[claim.slug] == Task(Backlog, db.tasks[claim.slug].provider, None, false)
  {
    var claimed := Next(db, claim);
    var failed := Next(claimed, SpawnFails(claim.pid));
    RunOne(claimed, SpawnFails(claim.pid));
    FailedBootstrapRestoresIff(db, claim, [SpawnFails(claim.pid)]);
    RunTwo(db, claim, SpawnFails(claim.pid));
    RunConcat(db, [claim, SpawnFails(claim.pid)], [Rollback(claim.pid)]);
    RunOne(failed, Rollback(claim.pid));
  }

  /** With any command allowed in between the write is never safe: the task may be reopened, claimed
      afresh, and that claim fail and be rolled back. */
  lemma LateFinishNeverSafe(db: Db, slug: Slug)
    requires Inv(db) && slug in db.tasks && FinishPasses(db.tasks[slug])
    ensures exists steps :: CanRun(db, steps) && !LateFinishOk(db, slug, steps)
  {
    var reopen := SetStatus(slug, InProgress);
    var open := Next(db, reopen);
    var plain := PlainClaim(open, slug);
    var claim := plain.(afresh := true);
    var rest := [claim, SpawnFails(claim.pid)] + [Rollback(claim.pid)];
    assert open.tasks[slug] == db.tasks[slug].(status := InProgress);
    AfreshClaimUndone(open, claim);
    RunOne(db, reopen);
    RunConcat(db, [reopen], rest);
    assert CanRun(db, [reopen] + rest) && !LateFinishOk(db, slug, [reopen] + rest);
  }

  /** Taken as one step the check is enough: what `flow done` marks done has a session id. */
  lemma FinishNeedsSession(db: Db, slug: Slug, current: Option<Sid>, captured: Option<Sid>)
    requires TableOk(db) && slug in db.tasks && !db.tasks[slug].status.Done?
    ensures var t := FinishedRow(db.tasks, slug, current, captured);
      t.status.Done? ==> t.sid.Some?
  {
  }

  // ---- the commands, statement by statement ----

  lemma OneRow(db: Db, slug: Slug, step: Step, row: Task)
    requires slug in db.tasks && Target(db, step) == Some(slug) && RowAfter(db, slug, step) == row
    ensures Next(db, step).tasks == db.tasks[slug := row]
  {
    forall s | s in db.tasks && s != slug ensures RowAfter(db, s, step) == db.tasks[s] {
      OthersUnchanged(db, s, step);
    }
  }

  lemma NoRow(db: Db, step: Step)
    requires Target(db, step).None?
    ensures Next(db, step).tasks == db.tasks
  {
  }

  class TaskDb {
    var tasks: map<Slug, Task>
    var released: set<Sid>
    var attempts: map<Pid, Attempt>
    ghost var used: set<Sid>

    constructor (tasks: map<Slug, Task>)
      ensures Value() == Db(tasks, map[], set s | s in tasks && tasks[s].sid.Some? :: tasks[s].sid.value, {})
    {
      this.tasks := tasks;
      attempts, released := map[], {};
      used := set s | s in tasks && tasks[s].sid.Some? :: tasks[s].sid.value;
    }

    ghost function Value(): Db
      reads this
    {
      Db(tasks, attempts, used, released)
    }

    /** The transaction of cmdDo: row is its working copy, written back at commit. */
    method ClaimTask(pid: Pid, slug: Slug, requested: Option<Provider>, afresh: bool, id: Sid) returns (a: Attempt)
      requires slug in tasks && Allowed(Value(), Claim(pid, slug, requested, afresh, id))
      modifies this
      ensures Value() == Next(old(Value()), Claim(pid, slug, requested, afresh, id))
      ensures pid in attempts && a == attempts[pid]
    {
      ghost var db, step := Value(), Claim(pid, slug, requested, afresh, id);
      used := used + {id};
      var row := tasks[slug];
      var provider := row.provider;
      if requested.Some? {
        provider := requested.value;
      }
      if row.status.Done? || (row.sid.Some? && row.provider != provider && !afresh) {
        a := Attempt(slug, row.provider, false, None, Refused);
        attempts := attempts[pid := a];
        OneRow(db, slug, step, row);
        assert tasks[slug := row] == tasks;
        return;
      }
      var needsBootstrap := row.sid.None? || afresh || row.provider != provider;
      if !needsBootstrap && row.sid.value in released {
        needsBootstrap := true;
      }
      var sessionId := row.sid;
      if needsBootstrap && provider.Claude? {
        sessionId := Some(id);
      }
      if needsBootstrap {
        row := Task(InProgress, provider, if provider.Claude? then sessionId else None, true);
      } else {
        row := row.(status := InProgress);
      }
      OneRow(db, slug, step, row);
      tasks := tasks[slug := row];
      a := Attempt(slug, provider, needsBootstrap, sessionId, Spawning);
      attempts := attempts[pid := a];
    }

    method Spawned(pid: Pid, ok: bool)
      requires pid in attempts && attempts[pid].phase.Spawning?
      modifies this
      ensures Value() == Next(old(Value()), if ok then SpawnOk(pid) else SpawnFails(pid))
      ensures tasks == old(tasks)
      ensures attempts == old(attempts)[pid := old(attempts)[pid].(phase := if ok then Launched else Failing)]
    {
      NoRow(Value(), if ok then SpawnOk(pid) else SpawnFails(pid));
      attempts := attempts[pid := attempts[pid].(phase := if ok then Launched else Failing)];
    }

    /** The guarded rollback of cmdDo and of rollbackAutoLaunchSession. */
    method RollbackClaim(pid: Pid)
      requires pid in attempts && attempts[pid].phase.Failing? && attempts[pid].slug in tasks
      modifies this
      ensures Value() == Next(old(Value()), Rollback(pid))
      ensures var a, t := old(attempts)[pid], old(tasks)[old(attempts)[pid].slug];
        if a.boot && (if a.provider.Claude? then t.sid.Some? && t.sid == a.sid else t.provider.Codex? && t.sid.None?)
        then tasks == old(tasks)[a.slug := Task(Backlog, t.provider, None, false)]
        else tasks == old(tasks)
      ensures attempts == old(attempts)[pid := old(attempts)[pid].(phase := RolledBack)]
    {
      var a := attempts[pid];
      var row := tasks[a.slug];
      if a.boot {
        if a.provider.Claude? {
          if row.sid.Some? && row.sid == a.sid {
            row := row.(sid := None, started := false, status := Backlog);
          }
        } else if row.provider.Codex? && row.sid.None? {
          row := row.(sid := None, started := false, status := Backlog);
        }
      }
      OneRow(Value(), a.slug, Rollback(pid), row);
      tasks := tasks[a.slug := row];
      attempts := attempts[pid := a.(phase := RolledBack)];
    }

    /** TaskBySessionID, or the partial unique index. */
    method BoundToOther(slug: Slug, x: Sid) returns (bound: bool)
      ensures bound <==> BoundElsewhere(tasks, slug, x)
      ensures !bound <==> forall s :: s in tasks && s != slug ==> tasks[s].sid != Some(x)
    {
      bound := false;
      var todo := tasks.Keys;
      while todo != {}
        invariant todo <= tasks.Keys
        invariant bound <==> exists s :: s in tasks.Keys - todo && s != slug && tasks[s].sid == Some(x)
      {
        var s :| s in todo;
        todo := todo - {s};
        if s != slug && tasks[s].sid == Some(x) {
          bound := true;
        }
      }
    }

    method BindHere(slug: Slug, requested: Option<Provider>, provider: Provider, x: Sid, force: bool) returns (ok: bool)
      requires slug in tasks
      modifies this
      ensures Value() == Next(old(Value()), Here(slug, requested, provider, x, force))
      ensures var t := old(tasks)[slug];
        && (ok <==> (requested.Some? ==> requested.value == provider) && !t.status.Done?
                    && (forall s :: s in old(tasks) && s != slug ==> old(tasks)[s].sid != Some(x))
                    && (t.sid.Some? ==> t.provider == provider && (t.sid == Some(x) || force)))
        && tasks == (if ok && !(t.sid == Some(x) && t.provider == provider)
                     then old(tasks)[slug := Task(InProgress, provider, Some(x), true)]
                     else old(tasks))
    {
      ghost var db, step := Value(), Here(slug, requested, provider, x, force);
      used := used + {x};
      var row := tasks[slug];
      OneRow(db, slug, step, HereRow(tasks, slug, requested, provider, x, force));
      assert tasks[slug := row] == tasks;
      if requested.Some? && requested.value != provider {
        return false;
      }
      if row.status.Done? {
        return false;
      }
      var bound := BoundToOther(slug, x);
      if bound {
        return false;
      }
      if row.sid.Some? {
        if row.sid.value == x && row.provider == provider {
          return true;
        }
        if row.provider != provider {
          return false;
        }
        if !force {
          return false;
        }
      }
      tasks := tasks[slug := Task(InProgress, provider, Some(x), true)];
      ok := true;
    }

    /** CaptureCodexSessionForTaskSince, for the session found. */
    method CaptureCodex(slug: Slug, x: Sid) returns (captured: bool)
      requires slug in tasks
      modifies this
      ensures Value() == Next(old(Value()), Capture(slug, x))
      ensures var t := old(tasks)[slug];
        && (captured <==> t.provider.Codex? && (t.sid.None? || t.sid == Some(x))
                          && forall s :: s in old(tasks) && s != slug ==> old(tasks)[s].sid != Some(x))
        && tasks == (if captured then old(tasks)[slug := Task(t.status, Codex, Some(x), true)] else old(tasks))
    {
      OneRow(Value(), slug, Capture(slug, x), CapturedRow(tasks, slug, x));
      used := used + {x};
      var row := tasks[slug];
      assert tasks[slug := row] == tasks;
      var bound := BoundToOther(slug, x);
      captured := row.provider.Codex? && (row.sid.None? || row.sid == Some(x)) && !bound;
      if captured {
        tasks := tasks[slug := row.(sid := Some(x), started := true)];
      }
    }

    /** prepareAutoProviderRetry. */
    method RetryProvider(slug: Slug, provider: Provider, id: Sid)
      requires slug in tasks
      modifies this
      ensures Value() == Next(old(Value()), Retry(slug, provider, id))
      ensures tasks == old(tasks)[slug := tasks[slug]] && tasks[slug].status == old(tasks)[slug].status
      ensures tasks[slug].provider == provider && tasks[slug].started
      ensures tasks[slug].sid == match provider case Claude => Some(id) case Codex => None
    {
      var sessionId: Option<Sid> := None;
      if provider.Claude? {
        sessionId := Some(id);
      }
      var row := tasks[slug].(provider := provider, sid := sessionId, started := true);
      OneRow(Value(), slug, Retry(slug, provider, id), row);
      used := used + {id};
      tasks := tasks[slug := row];
    }

    /** cmdDone. */
    method FinishTask(slug: Slug, current: Option<Sid>, captured: Option<Sid>) returns (ok: bool)
      requires slug in tasks
      modifies this
      ensures Value() == Next(old(Value()), Finish(slug, current, captured))
      ensures FinishPasses(old(tasks)[slug]) ==>
        ok && tasks == old(tasks)[slug := old(tasks)[slug].(status := Done)]
      ensures !FinishPasses(old(tasks)[slug]) ==>
        var t := old(tasks)[slug];
        var x := if current.Some? then current else if t.started then captured else None;
        && (ok <==> !t.status.Backlog? && x.Some?
                    && forall s :: s in old(tasks) && s != slug ==> old(tasks)[s].sid != x)
        && tasks == (if ok then old(tasks)[slug := Task(Done, Codex, x, true)] else old(tasks))
    {
      ghost var db, step := Value(), Finish(slug, current, captured);
      OneRow(db, slug, step, FinishedRow(tasks, slug, current, captured));
      used := used + IdsOf(step);
      var row := tasks[slug];
      assert tasks[slug := row] == tasks;
      if row.status.Backlog? && row.sid.None? {
        return false;
      }
      if row.provider.Codex? && row.sid.None? {
        if current.Some? {
          var taken := BoundToOther(slug, current.value);
          if taken {
            return false;
          }
          row := row.(sid := current, started := true);
          tasks := tasks[slug := row];
        }
        if row.started && captured.Some? && (row.sid.None? || row.sid == captured) {
          var taken := BoundToOther(slug, captured.value);
          if taken {
            return false;
          }
          row := row.(sid := captured);
          tasks := tasks[slug := row];
        }
        if row.sid.None? {
          return false;
        }
      }
      tasks := tasks[slug := row.(status := Done)];
      ok := true;
    }

    /** `flow update task --status`. */
    method UpdateStatus(slug: Slug, status: Status) returns (ok: bool)
      requires slug in tasks
      modifies this
      ensures Value() == Next(old(Value()), SetStatus(slug, status))
      ensures ok <==> status.Backlog? || old(tasks)[slug].sid.Some?
      ensures tasks == if ok then old(tasks)[slug := old(tasks)[slug].(status := status)] else old(tasks)
    {
      OneRow(Value(), slug, SetStatus(slug, status), StatusRow(tasks[slug], status));
      assert tasks[slug := tasks[slug]] == tasks;
      if !status.Backlog? && tasks[slug].sid.None? {
        return false;
      }
      tasks := tasks[slug := tasks[slug].(status := status)];
      ok := true;
    }

    /** `flow update task --agent`. */
    method UpdateAgent(slug: Slug, provider: Provider) returns (ok: bool)
      requires slug in tasks
      modifies this
      ensures Value() == Next(old(Value()), SetAgent(slug, provider))
      ensures var t := old(tasks)[slug];
        && (ok <==> t.status.Backlog? && t.sid.None? && !t.started)
        && tasks == (if ok then old(tasks)[slug := Task(Backlog, provider, None, false)] else old(tasks))
    {
      OneRow(Value(), slug, SetAgent(slug, provider), AgentRow(tasks[slug], provider));
      var row := tasks[slug];
      assert tasks[slug := row] == tasks;
      if !row.status.Backlog? || row.sid.Some? || row.started {
        return false;
      }
      tasks := tasks[slug := row.(provider := provider)];
      ok := true;
    }
  }
}
