/** Session runtime states fed by agent hooks (internal/flowdb/agent_runtime.go):
    a conditional upsert that must converge whatever order the events arrive in. */
module RuntimeState {
  import opened Text

  /** (provider, session_id), the primary key. */
  type Key = (string, string)

  /** The columns an applied event overwrites. */
  datatype View = View(task: Option<string>, status: string, eventKind: string, message: Option<string>,
      raw: Option<string>)

  datatype Event = Event(key: Key, view: View, workContext: Option<string>, number: int, at: int)

  datatype Row = Row(view: View, workContext: Option<string>, updatedAt: int, lastSeq: int)

  type Rows = map<Key, Row>

  datatype Input = Input(provider: string, sessionId: string, task: string, workContext: string,
                         status: string, eventKind: string, message: string, number: int, raw: string)

  datatype Outcome = Accepted | BadProvider | NoSession | BadStatus

  const STATUSES := {"running", "waiting", "idle", "dead", "released"}

  /** nullStringOrTrimmed. */
  function NullIfBlank(s: string): Option<string> {
    if TrimSpace(s) == "" then None else Some(TrimSpace(s))
  }

  function Check(input: Input): Outcome {
    if ToLower(TrimSpace(input.provider)) !in {"claude", "codex"} then BadProvider
    else if TrimSpace(input.sessionId) == "" then NoSession
    else if ToLower(TrimSpace(input.status)) !in STATUSES then BadStatus
    else Accepted
  }

  /** The event a valid input stands for. */
  function Normalize(input: Input, now: int): Event {
    var status := ToLower(TrimSpace(input.status));
    var kind := DashToUnderscore(ToLower(TrimSpace(input.eventKind)));
    Event((ToLower(TrimSpace(input.provider)), TrimSpace(input.sessionId)),
          View(NullIfBlank(input.task), status, if kind == "" then status else kind,
               NullIfBlank(input.message), NullIfBlank(input.raw)),
          NullIfBlank(input.workContext), input.number, now)
  }

  /** An event is stale when it is numbered and older than what the row has seen. */
  predicate Stale(rows: Rows, e: Event) {
    e.key in rows && e.number != 0 && e.number < rows[e.key].lastSeq
  }

  /** The conditional upsert. */
  function Apply(rows: Rows, e: Event): Rows {
    if Stale(rows, e) then rows
    else if e.key !in rows then rows[e.key := Row(e.view, e.workContext, e.at, e.number)]
    else
      var row := rows[e.key];
      rows[e.key := Row(e.view,
                        if e.workContext.Some? then e.workContext else row.workContext,
                        e.at,
                        if e.number > row.lastSeq then e.number else row.lastSeq)]
  }

  class RuntimeStates {
    var rows: Rows

    method Upsert(input: Input, now: int) returns (r: Outcome)
      modifies this
      ensures r == Check(input)
      ensures rows == if r.Accepted? then Apply(old(rows), Normalize(input, now)) else old(rows)
      ensures r.Accepted? ==> Recorded(old(rows), rows, input, now)
      ensures r.BadProvider? <==>
        ToLower(TrimSpace(input.provider)) != "claude" && ToLower(TrimSpace(input.provider)) != "codex"
      ensures r.NoSession? <==> !r.BadProvider? && TrimSpace(input.sessionId) == ""
      ensures r.BadStatus? <==> !r.BadProvider? && !r.NoSession? && ToLower(TrimSpace(input.status)) !in STATUSES
    {
      CheckMeans(input);
      InputRecorded(rows, input, now);
      r := Check(input);
      if r != Accepted {
        return;
      }
      Store(Normalize(input, now));
    }

    /** The INSERT ... ON CONFLICT DO UPDATE ... WHERE statement. */
    method Store(e: Event)
      modifies this
      ensures rows == Apply(old(rows), e)
    {
      if e.key !in rows {
        rows := rows[e.key := Row(e.view, e.workContext, e.at, e.number)];
      } else if e.number == 0 || e.number >= rows[e.key].lastSeq {
        var row := rows[e.key].(view := e.view, updatedAt := e.at);
        if e.workContext.Some? {
          row := row.(workContext := e.workContext);
        }
        if e.number > row.lastSeq {
          row := row.(lastSeq := e.number);
        }
        rows := rows[e.key := row];
      }
    }
  }

  lemma CheckMeans(input: Input)
    ensures Check(input).BadProvider? <==>
      ToLower(TrimSpace(input.provider)) != "claude" && ToLower(TrimSpace(input.provider)) != "codex"
    ensures Check(input).NoSession? <==> !Check(input).BadProvider? && TrimSpace(input.sessionId) == ""
    ensures Check(input).BadStatus? <==>
      !Check(input).BadProvider? && !Check(input).NoSession? && ToLower(TrimSpace(input.status)) !in STATUSES
  {
  }

  function KeyOf(input: Input): Key {
    (ToLower(TrimSpace(input.provider)), TrimSpace(input.sessionId))
  }

  /** The row says what the input said: its status in lower case, its event kind, or the status when it
      names none, and the texts it gives. */
  predicate SaysInput(view: View, input: Input) {
    && view.status == ToLower(TrimSpace(input.status))
    && (TrimSpace(input.eventKind) != "" ==> view.eventKind == DashToUnderscore(ToLower(TrimSpace(input.eventKind))))
    && (TrimSpace(input.eventKind) == "" ==> view.eventKind == view.status)
    && Holds(view.task, input.task) && Holds(view.message, input.message) && Holds(view.raw, input.raw)
  }

  /** An event older than the row changes nothing; any other is the row's from then on, where a work
      context stays unless one is given. */
  ghost predicate Took(before: Rows, after: Rows, key: Key, number: int, at: int, view: View, context: Option<string>) {
    if key in before && number != 0 && number < before[key].lastSeq then after == before
    else
      && after.Keys == before.Keys + {key} && (forall k :: k in before && k != key ==> after[k] == before[k])
      && after[key].view == view && after[key].updatedAt == at
      && after[key].workContext == (if context.None? && key in before then before[key].workContext else context)
      && after[key].lastSeq == if key in before && before[key].lastSeq > number then before[key].lastSeq else number
  }

  /** The session's row takes what the input says. */
  ghost predicate Recorded(before: Rows, after: Rows, input: Input, now: int) {
    exists view, context ::
      && SaysInput(view, input) && Holds(context, input.workContext)
      && Took(before, after, KeyOf(input), input.number, now, view, context)
  }

  lemma InputRecorded(rows: Rows, input: Input, now: int)
    ensures Recorded(rows, Apply(rows, Normalize(input, now)), input, now)
  {
    NormalizedSays(input, now);
    AppliedTakes(rows, Normalize(input, now));
  }

  lemma NormalizedSays(input: Input, now: int)
    ensures var e := Normalize(input, now);
      && e.key == KeyOf(input) && SaysInput(e.view, input) && Holds(e.workContext, input.workContext)
      && e.number == input.number && e.at == now
  {
  }

  lemma AppliedTakes(rows: Rows, e: Event)
    ensures Took(rows, Apply(rows, e), e.key, e.number, e.at, e.view, e.workContext)
  {
  }

  /** A nullable column holds a text: trimmed, NULL when blank. */
  predicate Holds(column: Option<string>, text: string) {
    if TrimSpace(text) == "" then column.None? else column == Some(TrimSpace(text))
  }

  /** The table after a delivery order, repeats included; sessions may be interleaved. */
  function Deliver(rows: Rows, es: seq<Event>): Rows {
    if es == [] then rows else Apply(Deliver(rows, es[..|es| - 1]), es[|es| - 1])
  }

  /** Equal positive numbers of one session mean equal events. */
  ghost predicate Numbered(es: seq<Event>) {
    && (forall e :: e in es ==> e.number > 0)
    && (forall e, f :: e in es && f in es && e.key == f.key && e.number == f.number ==> e.view == f.view)
  }

  /** What convergence speaks about: everything but the clock and the sticky work context. */
  function Visible(rows: Rows): map<Key, (View, int)> {
    map k | k in rows :: (rows[k].view, rows[k].lastSeq)
  }

  /** Some event of session k among es is news to the table. */
  ghost predicate HasNews(rows: Rows, es: seq<Event>, k: Key) {
    exists e :: e in es && e.key == k && !Stale(rows, e)
  }

  /** Row k shows the highest-numbered event of its session among es. */
  ghost predicate ShowsHighest(rows: Rows, es: seq<Event>, k: Key) {
    && k in rows
    && (exists e :: e in es && e.key == k && e.view == rows[k].view && e.number == rows[k].lastSeq)
    && (forall e :: e in es && e.key == k ==> e.number <= rows[k].lastSeq)
  }

  ghost predicate SameRow(a: Rows, b: Rows, k: Key) {
    (k in a <==> k in b) && (k in a ==> a[k] == b[k])
  }

  /** From any table, in any order: where an event of the session is news, the highest-numbered one
      decides the row; else the row stays as it was. */
  lemma {:induction false} HighestWins(rows: Rows, es: seq<Event>, k: Key)
    requires Numbered(es)
    ensures if HasNews(rows, es, k) then ShowsHighest(Deliver(rows, es), es, k)
            else SameRow(Deliver(rows, es), rows, k)
  {
    if es != [] {
      var init, last := es[..|es| - 1], es[|es| - 1];
      assert es == init + [last];
      HighestWins(rows, init, k);
      HighestStep(rows, init, last, k);
    }
  }

  lemma HighestStep(rows: Rows, init: seq<Event>, last: Event, k: Key)
    requires Numbered(init + [last])
    requires if HasNews(rows, init, k) then ShowsHighest(Deliver(rows, init), init, k)
             else SameRow(Deliver(rows, init), rows, k)
    ensures var es, after := init + [last], Apply(Deliver(rows, init), last);
      if HasNews(rows, es, k) then ShowsHighest(after, es, k) else SameRow(after, rows, k)
  {
    var es, before := init + [last], Deliver(rows, init);
    assert forall e :: e in es <==> e in init || e == last;
    if last.key == k && !Stale(before, last) {
      assert last in es;
      if HasNews(rows, init, k) {
        assert last.number >= before[k].lastSeq;
      } else {
        assert forall e :: e in init && e.key == k ==> Stale(rows, e);
      }
    }
  }

  /** Which numbered events were delivered, forgetting order and repeats. */
  function Numbers(es: seq<Event>): set<(Key, int)> {
    set e | e in es :: (e.key, e.number)
  }

  lemma HighestNumber(rows: Rows, es: seq<Event>, k: Key)
    requires Numbered(es) && HasNews(rows, es, k)
    ensures var after := Deliver(rows, es);
      && k in after && (k, after[k].lastSeq) in Numbers(es)
      && (forall n :: (k, n) in Numbers(es) ==> n <= after[k].lastSeq)
  {
    HighestWins(rows, es, k);
  }

  /** The visible row is the view of the event with its number. */
  lemma ViewByNumber(rows: Rows, es: seq<Event>, k: Key, e: Event)
    requires Numbered(es) && HasNews(rows, es, k) && k in Deliver(rows, es)
    requires e in es && e.key == k && e.number == Deliver(rows, es)[k].lastSeq
    ensures e.view == Deliver(rows, es)[k].view
  {
    HighestWins(rows, es, k);
  }

  lemma NewsByNumber(rows: Rows, es: seq<Event>, fs: seq<Event>, k: Key)
    requires Numbers(es) <= Numbers(fs) && HasNews(rows, es, k)
    ensures HasNews(rows, fs, k)
  {
    var e :| e in es && e.key == k && !Stale(rows, e);
    assert (e.key, e.number) in Numbers(es);
    var f :| f in fs && (f.key, f.number) == (e.key, e.number);
    assert f.key == k && !Stale(rows, f);
  }

  /** Whatever the table was, the same numbered events end in the same visible table, whatever the
      order and the repeats. */
  lemma OrderIndependent(rows: Rows, es: seq<Event>, fs: seq<Event>)
    requires Numbered(es + fs) && Numbers(es) == Numbers(fs)
    ensures Visible(Deliver(rows, es)) == Visible(Deliver(rows, fs))
  {
    var rs, qs := Deliver(rows, es), Deliver(rows, fs);
    assert forall e :: e in es || e in fs ==> e in es + fs;
    forall k ensures k in rs <==> k in qs
             ensures k in rs ==> rs[k].view == qs[k].view && rs[k].lastSeq == qs[k].lastSeq {
      SameShown(rows, es, fs, k);
    }
  }

  lemma SameShown(rows: Rows, es: seq<Event>, fs: seq<Event>, k: Key)
    requires Numbered(es + fs) && Numbered(es) && Numbered(fs) && Numbers(es) == Numbers(fs)
    ensures var rs, qs := Deliver(rows, es), Deliver(rows, fs);
      && (k in rs <==> k in qs)
      && (k in rs ==> rs[k].view == qs[k].view && rs[k].lastSeq == qs[k].lastSeq)
  {
    if HasNews(rows, es, k) {
      NewsByNumber(rows, es, fs, k);
      HighestNumber(rows, es, k);
      HighestNumber(rows, fs, k);
      var n := Deliver(rows, es)[k].lastSeq;
      var e :| e in es && (e.key, e.number) == (k, n);
      var f :| f in fs && (f.key, f.number) == (k, n);
      ViewByNumber(rows, es, k, e);
      ViewByNumber(rows, fs, k, f);
      assert e in es + fs && f in es + fs;
    } else {
      if HasNews(rows, fs, k) {
        NewsByNumber(rows, fs, es, k);
      }
      HighestWins(rows, es, k);
      HighestWins(rows, fs, k);
    }
  }

  /** With any events at all, unnumbered ones included, no row's last_seq ever decreases, no row
      disappears and no work context is cleared. */
  lemma {:induction false} NothingForgotten(rows: Rows, es: seq<Event>, k: Key)
    requires k in rows
    ensures k in Deliver(rows, es)
    ensures Deliver(rows, es)[k].lastSeq >= rows[k].lastSeq
    ensures rows[k].workContext.Some? ==> Deliver(rows, es)[k].workContext.Some?
  {
    if es != [] {
      NothingForgotten(rows, es[..|es| - 1], k);
    }
  }

  /** Two events that are both news to the session, show different things, and have the same number, or
      one of them none and the other a positive one. */
  predicate Clash(rows: Rows, e: Event, f: Event) {
    && !Stale(rows, e) && !Stale(rows, f) && e.view != f.view
    && (e.number == f.number || (e.number == 0 && f.number > 0) || (f.number == 0 && e.number > 0))
  }

  /** Exactly which pairs of events of one session may be swapped, on any table. */
  lemma SwapCondition(rows: Rows, e: Event, f: Event)
    requires e.key == f.key
    ensures Visible(Deliver(rows, [e, f])) == Visible(Deliver(rows, [f, e])) <==> !Clash(rows, e, f)
  {
    DeliverTwo(rows, e, f);
    DeliverTwo(rows, f, e);
    SameVisible(rows, Deliver(rows, [e, f]), Deliver(rows, [f, e]), e.key);
  }

  /** Tables that differ from a third in one row only look the same exactly when that row does. */
  lemma SameVisible(rows: Rows, a: Rows, b: Rows, key: Key)
    requires key in a && key in b && a - {key} == rows - {key} && b - {key} == rows - {key}
    ensures Visible(a) == Visible(b) <==> a[key].view == b[key].view && a[key].lastSeq == b[key].lastSeq
  {
    forall k | k != key ensures k in a <==> k in b ensures k in a ==> a[k] == b[k] {
      assert k in a <==> k in a - {key};
      assert k in b <==> k in b - {key};
      assert k in a ==> (a - {key})[k] == a[k] && (b - {key})[k] == b[k];
    }
    if a[key].view == b[key].view && a[key].lastSeq == b[key].lastSeq {
      assert Visible(a).Keys == Visible(b).Keys;
    } else {
      assert Visible(a)[key] != Visible(b)[key];
    }
  }

  lemma DeliverTwo(rows: Rows, e: Event, f: Event)
    ensures Deliver(rows, [e, f]) == Apply(Apply(rows, e), f)
  {
    assert [e, f][..1] == [e];
    assert [e][..0] == [];
    assert Deliver(rows, [e]) == Apply(Deliver(rows, []), e);
  }
}
