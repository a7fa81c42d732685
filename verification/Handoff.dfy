/** Confirmed-routing handoffs (internal/flowdb/attention_handoff.go): responders read a row and
    then write it under a guard, while expiry sweeps run in between. */
module Handoff {
  import opened Text

  datatype Status = Pending | Accepted | Declined | TimedOut

  datatype Row = Row(feedItem: string, sender: string, receiver: string, context: string, requested: string,
                     status: Status, reason: Option<string>, requestedAt: int, expiresAt: int, respondedAt: Option<int>)

  type Table = map<string, Row>

  datatype Error =
    | Incomplete | BadStatus | DuplicateId | BadVerdict | NoReason | NotFound | NotPending | NoLongerPending

  datatype Reply = Ok(row: Row) | Refused(error: Error)

  /** handoffVerdictStatus. */
  function VerdictStatus(verdict: string): Option<Status> {
    var v := DashToUnderscore(ToLower(TrimSpace(verdict)));
    if v in {"accept", "accepted"} then Some(Accepted)
    else if v in {"decline", "declined"} then Some(Declined)
    else None
  }

  /** A verdict as the responder typed it, once normalized. */
  function Word(verdict: string): string {
    DashToUnderscore(ToLower(TrimSpace(verdict)))
  }

  /** The texts that accept, those that decline, and no other. */
  lemma VerdictMeans(verdict: string)
    ensures VerdictStatus(verdict) == Some(Accepted) <==> Word(verdict) == "accept" || Word(verdict) == "accepted"
    ensures VerdictStatus(verdict) == Some(Declined) <==> Word(verdict) == "decline" || Word(verdict) == "declined"
    ensures VerdictStatus(verdict) in {None, Some(Accepted), Some(Declined)}
  {
    assert |"accept"| == 6 && |"decline"| == 7 && |"accepted"| == |"declined"| == 8 && "accepted"[0] != "declined"[0];
  }

  /** A row whose status is the one that the text names. */
  predicate RowSays(row: Row, verdict: string) {
    && (row.status.Accepted? <==> Word(verdict) == "accept" || Word(verdict) == "accepted")
    && (row.status.Declined? <==> Word(verdict) == "decline" || Word(verdict) == "declined")
    && (row.status.Accepted? || row.status.Declined?)
  }

  /** The guarded UPDATE of a response. */
  function Responded(t: Table, id: string, status: Status, reason: string, at: int): Table {
    if id in t && t[id].status.Pending?
    then t[id := t[id].(status := status, reason := Some(reason), respondedAt := Some(at))]
    else t
  }

  /** The expiry sweep. */
  function Expired(t: Table, now: int): Table {
    map id | id in t ::
      if t[id].status.Pending? && t[id].expiresAt <= now
      then t[id].(status := TimedOut, respondedAt := Some(now))
      else t[id]
  }

  /** What a caller asks to create; blank times are None. */
  datatype Draft = Draft(feedItem: string, sender: string, receiver: string, context: string, requested: string,
                         status: string, reason: string,
                         requestedAt: Option<int>, expiresAt: Option<int>, respondedAt: Option<int>)

  /** normalizeHandoffStatus and validHandoffStatus; no status means pending. */
  function StoredStatus(text: string): Option<Status> {
    var v := DashToUnderscore(ToLower(TrimSpace(text)));
    if v in {"", "pending"} then Some(Pending)
    else if v == "accepted" then Some(Accepted)
    else if v == "declined" then Some(Declined)
    else if v == "timeout" then Some(TimedOut)
    else None
  }

  lemma StatusMeans(text: string)
    ensures StoredStatus(text) == Some(Pending) <==> Word(text) == "" || Word(text) == "pending"
    ensures StoredStatus(text) == Some(Accepted) <==> Word(text) == "accepted"
    ensures StoredStatus(text) == Some(Declined) <==> Word(text) == "declined"
    ensures StoredStatus(text) == Some(TimedOut) <==> Word(text) == "timeout"
  {
    assert |"pending"| == |"timeout"| == 7 && "pending"[0] != "timeout"[0];
    assert |"accepted"| == |"declined"| == 8 && "accepted"[0] != "declined"[0];
  }

  function NonBlank(s: string): Option<string> {
    if TrimSpace(s) == "" then None else Some(TrimSpace(s))
  }

  predicate Complete(d: Draft) {
    && NonBlank(d.feedItem).Some? && NonBlank(d.sender).Some? && NonBlank(d.receiver).Some?
    && NonBlank(d.context).Some? && NonBlank(d.requested).Some?
    && d.requestedAt.Some? && d.expiresAt.Some?
  }

  /** The row that a draft stands for, once it passes the checks. */
  function RowOf(d: Draft): Row
    requires Complete(d) && StoredStatus(d.status).Some?
  {
    Row(TrimSpace(d.feedItem), TrimSpace(d.sender), TrimSpace(d.receiver), TrimSpace(d.context),
        TrimSpace(d.requested), StoredStatus(d.status).value, NonBlank(d.reason),
        d.requestedAt.value, d.expiresAt.value, d.respondedAt)
  }

  /** The INSERT: the primary key refuses a second row. */
  function Inserted(t: Table, id: string, row: Row): Table {
    if id in t then t else t[id := row]
  }

  class HandoffTable {
    var rows: Table

    /** random is the generated id, for a draft that comes without one. */
    method Create(id: string, random: string, d: Draft) returns (r: Reply)
      modifies this
      ensures var key := if id == "" then random else id;
        && (r.Ok? <==> Complete(d) && StoredStatus(d.status).Some? && key !in old(rows))
        && rows == (if r.Ok? then old(rows)[key := RowOf(d)] else old(rows))
        && (r.Ok? ==> r.row == RowOf(d))
      ensures r.Ok? ==>
        && r.row.feedItem == TrimSpace(d.feedItem) && r.row.sender == TrimSpace(d.sender)
        && r.row.receiver == TrimSpace(d.receiver) && r.row.context == TrimSpace(d.context)
        && r.row.requested == TrimSpace(d.requested)
        && Some(r.row.requestedAt) == d.requestedAt && Some(r.row.expiresAt) == d.expiresAt
        && r.row.respondedAt == d.respondedAt
        && r.row.reason == (if TrimSpace(d.reason) == "" then None else Some(TrimSpace(d.reason)))
        && (r.row.status.Pending? <==> Word(d.status) == "" || Word(d.status) == "pending")
        && (r.row.status.Accepted? <==> Word(d.status) == "accepted")
        && (r.row.status.Declined? <==> Word(d.status) == "declined")
        && (r.row.status.TimedOut? <==> Word(d.status) == "timeout")
      ensures r == Refused(Incomplete) <==>
        (|| TrimSpace(d.feedItem) == "" || TrimSpace(d.sender) == "" || TrimSpace(d.receiver) == ""
         || TrimSpace(d.context) == "" || TrimSpace(d.requested) == "" || d.requestedAt.None? || d.expiresAt.None?)
      ensures r == Refused(BadStatus) <==> Complete(d) && StoredStatus(d.status).None?
    {
      StatusMeans(d.status);
      var key := if id == "" then random else id;
      if !Complete(d) {
        return Refused(Incomplete);
      }
      if StoredStatus(d.status).None? {
        return Refused(BadStatus);
      }
      r := Insert(key, RowOf(d));
    }

    method Insert(id: string, row: Row) returns (r: Reply)
      modifies this
      ensures rows == Inserted(old(rows), id, row)
      ensures r == if id in old(rows) then Refused(DuplicateId) else Ok(row)
    {
      if id in rows {
        return Refused(DuplicateId);
      }
      rows := rows[id := row];
      return Ok(row);
    }

    /** RespondAttentionHandoff with nothing running in between. */
    method Respond(id: string, verdict: string, reason: string, at: int) returns (r: Reply)
      modifies this
      ensures var key, why := TrimSpace(id), TrimSpace(reason);
        && (r.Ok? <==> VerdictStatus(verdict).Some? && why != "" && key in old(rows) && old(rows)[key].status.Pending?)
        && rows == (if r.Ok? then Responded(old(rows), key, VerdictStatus(verdict).value, why, at) else old(rows))
        && (r.Ok? ==> key in rows && r.row == rows[key])
      ensures r.Ok? ==>
        && RowSays(r.row, verdict) && r.row.reason == Some(TrimSpace(reason)) && r.row.respondedAt == Some(at)
        && r.row == old(rows)[TrimSpace(id)].(status := r.row.status, reason := r.row.reason, respondedAt := Some(at))
        && rows == old(rows)[TrimSpace(id) := r.row]
      ensures r == Refused(BadVerdict) <==>
        (&& Word(verdict) != "accept" && Word(verdict) != "accepted"
         && Word(verdict) != "decline" && Word(verdict) != "declined")
    {
      VerdictMeans(verdict);
      var key := TrimSpace(id);
      var status := VerdictStatus(verdict);
      if status.None? {
        return Refused(BadVerdict);
      }
      var why := TrimSpace(reason);
      if why == "" {
        return Refused(NoReason);
      }
      if key !in rows {
        return Refused(NotFound);
      }
      if !rows[key].status.Pending? {
        return Refused(NotPending);
      }
      var affected := Update(key, status.value, why, at);
      if affected == 0 {
        return Refused(NoLongerPending);
      }
      return Ok(rows[key]);
    }

    method Update(id: string, status: Status, reason: string, at: int) returns (affected: nat)
      modifies this
      ensures rows == Responded(old(rows), id, status, reason, at)
      ensures affected == if id in old(rows) && old(rows)[id].status.Pending? then 1 else 0
    {
      affected := 0;
      if id in rows && rows[id].status.Pending? {
        rows := rows[id := rows[id].(status := status, reason := Some(reason), respondedAt := Some(at))];
        affected := 1;
      }
    }

    method Expire(now: int) returns (affected: nat)
      modifies this
      ensures rows == Expired(old(rows), now)
      ensures affected == |set id | id in old(rows) && old(rows)[id] != rows[id]|
      ensures rows.Keys == old(rows).Keys
      ensures forall id :: id in old(rows) && (!old(rows)[id].status.Pending? || now < old(rows)[id].expiresAt) ==>
        rows[id] == old(rows)[id]
      ensures forall id :: id in old(rows) && old(rows)[id].status.Pending? && old(rows)[id].expiresAt <= now ==>
        rows[id] == old(rows)[id].(status := TimedOut, respondedAt := Some(now))
    {
      var due := set id | id in rows && rows[id].status.Pending? && rows[id].expiresAt <= now;
      rows := map id | id in rows ::
        if id in due then rows[id].(status := TimedOut, respondedAt := Some(now)) else rows[id];
      affected := |due|;
      assert due == set id | id in old(rows) && old(rows)[id] != rows[id];
    }
  }

  // ---- interleaved responders ----

  /** One call of RespondAttentionHandoff, between its read and its write, or finished. */
  datatype Call =
    | Writing(id: string, verdict: string, status: Status, reason: string, at: int)
    | Succeeded(id: string, verdict: string, status: Status, reason: string, at: int)
    | Failed

  /** The rows, the calls made so far, and the ids whose row was created pending. */
  datatype State = State(rows: Table, calls: map<nat, Call>, bornPending: set<string>)

  /** What a responder's text stands for, if anything: VerdictStatus. The runs only ask that it never be a
      status of the system's own. */
  type Meaning = string -> Option<Status>

  ghost predicate Verdicts(m: Meaning) {
    forall v :: m(v).Some? ==> IsVerdict(m(v).value)
  }

  /** Responders give their arguments as typed. */
  datatype Step =
    | Create(id: string, row: Row)
    | Read(call: nat, id: string, verdict: string, reason: string, at: int)
    | Write(call: nat)
    | Sweep(now: int)

  const INIT := State(map[], map[], {})

  predicate IsPending(t: Table, id: string) {
    id in t && t[id].status.Pending?
  }

  /** A call up to its read: the checks of its arguments, and of the row. */
  function Begun(m: Meaning, t: Table, id: string, verdict: string, reason: string, at: int): Call {
    var key, status, why := TrimSpace(id), m(verdict), TrimSpace(reason);
    if status.None? || why == "" || !IsPending(t, key) then Failed else Writing(key, verdict, status.value, why, at)
  }

  function Next(m: Meaning, s: State, step: Step): State {
    match step
    case Create(id, row) =>
      var born := if id !in s.rows && row.status.Pending? then {id} else {};
      s.(rows := Inserted(s.rows, id, row), bornPending := s.bornPending + born)
    case Read(call, id, verdict, reason, at) =>
      if call in s.calls then s else s.(calls := s.calls[call := Begun(m, s.rows, id, verdict, reason, at)])
    case Write(call) =>
      if call !in s.calls || !s.calls[call].Writing? then s
      else
        var w := s.calls[call];
        s.(rows := Responded(s.rows, w.id, w.status, w.reason, w.at),
           calls := s.calls[call :=
             if IsPending(s.rows, w.id) then Succeeded(w.id, w.verdict, w.status, w.reason, w.at) else Failed])
    case Sweep(now) => s.(rows := Expired(s.rows, now))
  }

  function Run(m: Meaning, s: State, steps: seq<Step>): State {
    if steps == [] then s else Next(m, Run(m, s, steps[..|steps| - 1]), steps[|steps| - 1])
  }

  /** A settled handoff never changes again: status, reason and response time are final. */
  lemma {:induction false} SettledIsFinal(m: Meaning, s: State, steps: seq<Step>, id: string)
    requires id in s.rows && !s.rows[id].status.Pending?
    ensures id in Run(m, s, steps).rows && Run(m, s, steps).rows[id] == s.rows[id]
  {
    if steps != [] {
      SettledIsFinal(m, s, steps[..|steps| - 1], id);
    }
  }

  predicate IsVerdict(status: Status) {
    status.Accepted? || status.Declined?
  }

  predicate Won(s: State, id: string, call: nat) {
    call in s.calls && s.calls[call].Succeeded? && s.calls[call].id == id
  }

  /** The row says what the winning call wrote. */
  predicate Recorded(m: Meaning, s: State, call: nat)
    requires call in s.calls && s.calls[call].Succeeded?
  {
    var c := s.calls[call];
    && c.id in s.rows && IsVerdict(c.status) && m(c.verdict) == Some(c.status)
    && s.rows[c.id].status == c.status && s.rows[c.id].reason == Some(c.reason)
    && s.rows[c.id].respondedAt == Some(c.at)
  }

  predicate TimeoutJustified(row: Row) {
    row.status.TimedOut? ==> row.respondedAt.Some? && row.expiresAt <= row.respondedAt.value
  }

  /** Calls under way write the verdict that their text names; finished ones wrote the row. */
  ghost predicate Faithful(m: Meaning, s: State) {
    && (forall c :: c in s.calls && s.calls[c].Writing? ==>
          IsVerdict(s.calls[c].status) && m(s.calls[c].verdict) == Some(s.calls[c].status))
    && (forall c :: c in s.calls && s.calls[c].Succeeded? ==> Recorded(m, s, c))
  }

  ghost predicate OneWinner(s: State) {
    forall id, c, d :: Won(s, id, c) && Won(s, id, d) ==> c == d
  }

  /** A handoff created pending has a verdict from a winner, and times out only when due. */
  ghost predicate Earned(s: State) {
    && s.bornPending <= s.rows.Keys
    && (forall id :: id in s.bornPending && IsVerdict(s.rows[id].status) ==> exists c :: Won(s, id, c))
    && (forall id :: id in s.bornPending ==> TimeoutJustified(s.rows[id]))
  }

  /** What every interleaving keeps. */
  ghost predicate Inv(m: Meaning, s: State) {
    Faithful(m, s) && OneWinner(s) && Earned(s)
  }

  lemma WinnerIsNew(m: Meaning, s: State, step: Step, id: string, c: nat)
    requires Won(Next(m, s, step), id, c)
    ensures Won(s, id, c) || (step.Write? && c == step.call && IsPending(s.rows, id))
  {
  }

  lemma WriterIsFaithful(m: Meaning, s: State, step: Step, c: nat)
    requires Verdicts(m) && Faithful(m, s) && c in Next(m, s, step).calls && Next(m, s, step).calls[c].Writing?
    ensures var w := Next(m, s, step).calls[c];
      IsVerdict(w.status) && m(w.verdict) == Some(w.status)
  {
  }

  lemma WinnerIsRecorded(m: Meaning, s: State, step: Step, c: nat)
    requires Faithful(m, s) && c in Next(m, s, step).calls && Next(m, s, step).calls[c].Succeeded?
    ensures Recorded(m, Next(m, s, step), c)
  {
    if c in s.calls && s.calls[c].Succeeded? {
      assert Recorded(m, s, c);
    }
  }

  lemma NextKeepsFaithful(m: Meaning, s: State, step: Step)
    requires Verdicts(m) && Faithful(m, s)
    ensures Faithful(m, Next(m, s, step))
  {
    var n := Next(m, s, step);
    forall c | c in n.calls && n.calls[c].Writing?
      ensures IsVerdict(n.calls[c].status) && m(n.calls[c].verdict) == Some(n.calls[c].status) {
      WriterIsFaithful(m, s, step, c);
    }
    forall c | c in n.calls && n.calls[c].Succeeded? ensures Recorded(m, n, c) {
      WinnerIsRecorded(m, s, step, c);
    }
  }

  lemma NextKeepsOneWinner(m: Meaning, s: State, step: Step)
    requires Faithful(m, s) && OneWinner(s)
    ensures OneWinner(Next(m, s, step))
  {
    forall id, c, d | Won(Next(m, s, step), id, c) && Won(Next(m, s, step), id, d) ensures c == d {
      WinnerIsNew(m, s, step, id, c);
      WinnerIsNew(m, s, step, id, d);
      if Won(s, id, c) {
        assert Recorded(m, s, c);
      }
      if Won(s, id, d) {
        assert Recorded(m, s, d);
      }
    }
  }

  lemma WinnersStay(m: Meaning, s: State, step: Step, id: string, c: nat)
    requires Won(s, id, c)
    ensures Won(Next(m, s, step), id, c)
  {
  }

  lemma NextKeepsEarned(m: Meaning, s: State, step: Step)
    requires Faithful(m, s) && Earned(s)
    ensures Earned(Next(m, s, step))
  {
    var n := Next(m, s, step);
    forall id | id in n.bornPending && IsVerdict(n.rows[id].status) ensures exists c :: Won(n, id, c) {
      if id in s.bornPending && IsVerdict(s.rows[id].status) {
        var c :| Won(s, id, c);
        WinnersStay(m, s, step, id, c);
      } else {
        assert Won(n, id, step.call);
      }
    }
  }

  lemma NextKeepsInv(m: Meaning, s: State, step: Step)
    requires Verdicts(m) && Inv(m, s)
    ensures Inv(m, Next(m, s, step))
  {
    NextKeepsFaithful(m, s, step);
    NextKeepsOneWinner(m, s, step);
    NextKeepsEarned(m, s, step);
  }

  lemma {:induction false} RunKeepsInv(m: Meaning, steps: seq<Step>)
    requires Verdicts(m)
    ensures Inv(m, Run(m, INIT, steps))
  {
    if steps != [] {
      RunKeepsInv(m, steps[..|steps| - 1]);
      NextKeepsInv(m, Run(m, INIT, steps[..|steps| - 1]), steps[|steps| - 1]);
    }
  }

  lemma TextsAreVerdicts()
    ensures Verdicts(VerdictStatus)
  {
    forall v ensures VerdictStatus(v).Some? ==> IsVerdict(VerdictStatus(v).value) {
      VerdictMeans(v);
    }
  }

  /** The row is the winner's: the status its text names, its reason and its time. */
  ghost predicate WinnersRow(s: State, call: nat)
    requires call in s.calls && s.calls[call].Succeeded?
  {
    var c := s.calls[call];
    && c.id in s.rows && RowSays(s.rows[c.id], c.verdict)
    && s.rows[c.id].reason == Some(c.reason) && s.rows[c.id].respondedAt == Some(c.at)
  }

  /** In every interleaving at most one responder succeeds per handoff, and the row is that
      responder's: accepted or declined as the text it gave says. A handoff created pending carries a
      verdict exactly when one did; it times out only at or after its deadline. */
  lemma OneVerdict(steps: seq<Step>, id: string)
    ensures var s := Run(VerdictStatus, INIT, steps);
      && (forall c, d :: Won(s, id, c) && Won(s, id, d) ==> c == d)
      && (forall c :: Won(s, id, c) ==> WinnersRow(s, c))
      && (id in s.bornPending ==>
            && id in s.rows
            && (IsVerdict(s.rows[id].status) <==> exists c :: Won(s, id, c))
            && TimeoutJustified(s.rows[id]))
  {
    var s := Run(VerdictStatus, INIT, steps);
    TextsAreVerdicts();
    RunKeepsInv(VerdictStatus, steps);
    forall c | Won(s, id, c) ensures WinnersRow(s, c) {
      NamedIsSaid(VerdictStatus, s, c);
    }
  }

  lemma NamedIsSaid(m: Meaning, s: State, c: nat)
    requires m == VerdictStatus && c in s.calls && s.calls[c].Succeeded? && Recorded(m, s, c)
    ensures WinnersRow(s, c)
  {
    VerdictMeans(s.calls[c].verdict);
  }

  lemma WriteAlone(m: Meaning, s: State, call: nat)
    requires call in s.calls && !s.calls[call].Succeeded?
    ensures var after, w := Next(m, s, Write(call)), s.calls[call];
      if w.Writing? then
        && (forall id :: Won(after, id, call) <==> id == w.id && IsPending(s.rows, id))
        && after.rows == Responded(s.rows, w.id, w.status, w.reason, w.at)
      else after.rows == s.rows && forall id :: !Won(after, id, call)
  {
  }

  lemma ReadAlone(m: Meaning, s: State, call: nat, id: string, verdict: string, reason: string, at: int)
    requires call !in s.calls
    ensures var read := Next(m, s, Read(call, id, verdict, reason, at));
      read.rows == s.rows && call in read.calls && read.calls[call] == Begun(m, s.rows, id, verdict, reason, at)
  {
  }

  lemma ReadThenWrite(m: Meaning, s: State, call: nat, id: string, verdict: string, reason: string, at: int)
    requires call !in s.calls
    ensures var key, why := TrimSpace(id), TrimSpace(reason);
      var after := Next(m, Next(m, s, Read(call, id, verdict, reason, at)), Write(call));
      var ok := m(verdict).Some? && why != "" && IsPending(s.rows, key);
      && (Won(after, key, call) <==> ok)
      && after.rows == if ok then Responded(s.rows, key, m(verdict).value, why, at) else s.rows
  {
    ReadAlone(m, s, call, id, verdict, reason, at);
    WriteAlone(m, Next(m, s, Read(call, id, verdict, reason, at)), call);
  }

  /** A response with nothing in between is a read and a write: the same rows, and a success exactly when
      the text is a verdict, the reason is not blank and the handoff is pending. */
  lemma RespondedAtOnce(s: State, call: nat, id: string, verdict: string, reason: string, at: int)
    requires call !in s.calls
    ensures var key, why := TrimSpace(id), TrimSpace(reason);
      var after := Next(VerdictStatus, Next(VerdictStatus, s, Read(call, id, verdict, reason, at)), Write(call));
      var ok := VerdictStatus(verdict).Some? && why != "" && IsPending(s.rows, key);
      && (Won(after, key, call) <==> ok)
      && after.rows == if ok then Responded(s.rows, key, VerdictStatus(verdict).value, why, at) else s.rows
  {
    ReadThenWrite(VerdictStatus, s, call, id, verdict, reason, at);
  }
}
