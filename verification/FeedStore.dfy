/** The attention feed (internal/flowdb/attention.go): cards coalesce per thread, and a dismissal
    sticks until genuinely newer activity arrives. */
module FeedStore {
  import opened Text

  datatype Status = New | Acted | Dismissed | Snoozed | Deferred

  /** A source message timestamp, as strconv.ParseFloat sees it. */
  datatype Ts = Number(value: real) | NotNumber(text: string)

  datatype Content = Content(source: string, summary: string, action: string, linkedTask: string, other: map<string,
      string>)

  datatype Card = Card(id: string, thread: string, status: Status, ts: Ts, createdAt: Option<int>, content: Content,
                       snoozeUntil: Option<int>, actedAt: Option<int>, retriagingAt: Option<int>)

  type Rows = seq<Card>

  datatype Result = Written(id: string, surfaced: bool) | Incomplete | DuplicateId | NoSuchItem | Done(affected: nat)

  /** feedTSSameOrOlder. */
  predicate SameOrOlder(incoming: Ts, existing: Ts) {
    incoming.Number? && existing.Number? && incoming.value <= existing.value
  }

  // ---- the lookup: ORDER BY status, created_at DESC, id DESC LIMIT 1 ----

  predicate StringLess(a: string, b: string) {
    b != "" && (a == "" || a[0] < b[0] || (a[0] == b[0] && StringLess(a[1..], b[1..])))
  }

  predicate Later(a: Option<int>, b: Option<int>) {
    a.Some? && (b.None? || a.value > b.value)
  }

  predicate Precedes(a: Card, b: Card) {
    if a.status.New? != b.status.New? then a.status.New?
    else Later(a.createdAt, b.createdAt) || (a.createdAt == b.createdAt && StringLess(b.id, a.id))
  }

  /** Cards a write to the thread may coalesce onto. */
  predicate Candidate(c: Card, thread: string, forNew: bool) {
    c.thread == thread && (c.status.New? || (forNew && c.status.Dismissed?))
  }

  function Best(rows: Rows, thread: string, forNew: bool): (b: Option<nat>)
    ensures b.Some? ==> b.value < |rows| && Candidate(rows[b.value], thread, forNew)
    ensures b.None? <==> forall i :: 0 <= i < |rows| ==> !Candidate(rows[i], thread, forNew)
    ensures b.Some? && rows[b.value].status.Dismissed? ==> !HasLive(rows, thread)
  {
    if rows == [] then None
    else
      var n := |rows| - 1;
      var b := Best(rows[..n], thread, forNew);
      assert forall i :: 0 <= i < n ==> rows[..n][i] == rows[i];
      if !Candidate(rows[n], thread, forNew) then b
      else if b.None? || Precedes(rows[n], rows[b.value]) then Some(n)
      else b
  }

  lemma {:induction false} StringLessTotal(a: string, b: string)
    ensures a == b || StringLess(a, b) || StringLess(b, a)
    ensures !(StringLess(a, b) && StringLess(b, a)) && !StringLess(a, a)
  {
    if a != "" && b != "" {
      StringLessTotal(a[1..], b[1..]);
      assert a[0] == b[0] && a[1..] == b[1..] ==> a == b by {
        assert a == [a[0]] + a[1..] && b == [b[0]] + b[1..];
      }
    }
    if a != "" {
      StringLessTotal(a[1..], a[1..]);
    }
  }

  lemma {:induction false} StringLessTransitive(a: string, b: string, c: string)
    requires StringLess(a, b) && StringLess(b, c)
    ensures StringLess(a, c)
  {
    if a != "" && b != "" && c != "" && a[0] == b[0] && b[0] == c[0] {
      StringLessTransitive(a[1..], b[1..], c[1..]);
    }
  }

  /** ORDER BY is a strict order, and only cards of one id, class and creation time tie. */
  lemma PrecedesOrders(a: Card, b: Card, c: Card)
    ensures !Precedes(a, a)
    ensures Precedes(a, b) && Precedes(b, c) ==> Precedes(a, c)
    ensures Precedes(a, b) || Precedes(b, a)
         || (a.id == b.id && a.createdAt == b.createdAt && a.status.New? == b.status.New?)
  {
    StringLessTotal(a.id, b.id);
    StringLessTotal(a.id, a.id);
    if StringLess(c.id, b.id) && StringLess(b.id, a.id) {
      StringLessTransitive(c.id, b.id, a.id);
    }
  }

  /** The row that the lookup finds is the first of the ORDER BY: no candidate precedes it. */
  lemma {:induction false} BestIsFirst(rows: Rows, thread: string, forNew: bool, i: nat)
    requires i < |rows| && Candidate(rows[i], thread, forNew)
    ensures Best(rows, thread, forNew).Some? && !Precedes(rows[i], rows[Best(rows, thread, forNew).value])
  {
    var n := |rows| - 1;
    var old_, b := Best(rows[..n], thread, forNew), Best(rows, thread, forNew);
    if i < n {
      BestIsFirst(rows[..n], thread, forNew, i);
      PrecedesOrders(rows[i], rows[n], rows[old_.value]);
    } else {
      PrecedesOrders(rows[n], rows[n], rows[n]);
    }
  }

  /** What the order means: a live card comes first, then the newest, then the one with the larger id. */
  lemma BestIsNewest(rows: Rows, thread: string, forNew: bool, i: nat)
    requires i < |rows| && Candidate(rows[i], thread, forNew)
    ensures var b := Best(rows, thread, forNew);
      && b.Some?
      && (rows[i].status.New? ==> rows[b.value].status.New?)
      && (rows[i].status == rows[b.value].status && rows[i].createdAt.Some? ==>
            rows[b.value].createdAt.Some? && rows[b.value].createdAt.value >= rows[i].createdAt.value)
      && (rows[i].status == rows[b.value].status && rows[i].createdAt == rows[b.value].createdAt ==>
            !StringLess(rows[b.value].id, rows[i].id))
  {
    BestIsFirst(rows, thread, forNew, i);
  }

  /** The order of texts: at the first place where they differ, or at the end of the shorter one. */
  lemma {:induction false} StringLessAt(a: string, b: string, k: nat)
    requires k <= |a| && k < |b| && a[..k] == b[..k]
    requires k < |a| ==> a[k] != b[k]
    ensures StringLess(a, b) <==> k == |a| || a[k] < b[k]
  {
    if k > 0 {
      assert a[0] == a[..k][0] == b[..k][0] == b[0];
      assert a[1..][..k - 1] == a[..k][1..] == b[..k][1..] == b[1..][..k - 1];
      StringLessAt(a[1..], b[1..], k - 1);
    }
  }

  predicate HasLive(rows: Rows, thread: string) {
    exists i :: 0 <= i < |rows| && rows[i].thread == thread && rows[i].status.New?
  }

  predicate HasId(rows: Rows, id: string) {
    exists i :: 0 <= i < |rows| && rows[i].id == id
  }

  // ---- the writes ----

  function Coalesced(old_: Card, item: Card): Card {
    var c := old_.(ts := item.ts, content := item.content);
    if item.status.New? then
      c.(status := New, snoozeUntil := None, actedAt := None, retriagingAt := None,
         createdAt := if item.createdAt.Some? then item.createdAt else old_.createdAt)
    else c
  }

  predicate Acceptable(item: Card) {
    item.id != "" && item.thread != "" && item.content.action != ""
  }

  function Upserted(rows: Rows, item: Card): (r: (Rows, Result)) {
    if !Acceptable(item) then (rows, Incomplete)
    else
      match Best(rows, item.thread, item.status.New?)
      case Some(i) =>
        if item.status.New? && rows[i].status.Dismissed? && SameOrOlder(item.ts, rows[i].ts) then
          (rows, Written(rows[i].id, false))
        else
          (rows[i := Coalesced(rows[i], item)], Written(rows[i].id, item.status.New?))
      case None =>
        if HasId(rows, item.id) then (rows, DuplicateId)
        else (rows + [item.(retriagingAt := None)], Written(item.id, true))
  }

  function Mapped(rows: Rows, f: Card -> Card): (r: Rows)
    ensures |r| == |rows| && forall i :: 0 <= i < |rows| ==> r[i] == f(rows[i])
  {
    seq(|rows|, i requires 0 <= i < |rows| => f(rows[i]))
  }

  function StatusSet(rows: Rows, id: string, status: Status, at: Option<int>): Rows {
    Mapped(rows, (c: Card) => if c.id == id then c.(status := status, actedAt := at) else c)
  }

  function ActedSet(rows: Rows, id: string, task: string, at: Option<int>): Rows {
    Mapped(rows, (c: Card) =>
      if c.id == id then c.(status := Acted, actedAt := at, content := c.content.(linkedTask := task)) else c)
  }

  function Resolved(rows: Rows, thread: string, at: Option<int>): Rows {
    if thread == "" then rows
    else
      Mapped(rows, (c: Card) =>
        if c.thread == thread && c.status.New? then c.(status := Acted, actedAt := at) else c)
  }

  class FeedTable {
    var rows: Rows

    /** The coalescing lookup, as a scan that keeps the best row so far. */
    method Lookup(thread: string, forNew: bool) returns (b: Option<nat>)
      ensures b == Best(rows, thread, forNew)
      ensures forall i :: 0 <= i < |rows| && Candidate(rows[i], thread, forNew) ==>
        b.Some? && Candidate(rows[b.value], thread, forNew) && !Precedes(rows[i], rows[b.value])
    {
      b := None;
      for i := 0 to |rows|
        invariant b == Best(rows[..i], thread, forNew)
      {
        assert rows[..i + 1][..i] == rows[..i];
        if Candidate(rows[i], thread, forNew) && (b.None? || Precedes(rows[i], rows[b.value])) {
          b := Some(i);
        }
      }
      assert rows[..|rows|] == rows;
      forall i | 0 <= i < |rows| && Candidate(rows[i], thread, forNew)
        ensures b.Some? && !Precedes(rows[i], rows[b.value])
      {
        BestIsFirst(rows, thread, forNew, i);
      }
    }

    method UpsertSurfaced(item: Card) returns (r: Result)
      modifies this
      ensures (rows, r) == Upserted(old(rows), item)
      ensures r.Incomplete? <==> item.id == "" || item.thread == "" || item.content.action == ""
      ensures r.DuplicateId? <==>
        (&& !r.Incomplete? && HasId(old(rows), item.id)
         && forall i :: 0 <= i < |old(rows)| && old(rows)[i].thread == item.thread ==>
              !old(rows)[i].status.New? && !(item.status.New? && old(rows)[i].status.Dismissed?))
      ensures !r.Written? ==> rows == old(rows)
    {
      if item.id == "" || item.thread == "" || item.content.action == "" {
        return Incomplete;
      }
      var found := Lookup(item.thread, item.status.New?);
      if found.Some? {
        var existing := rows[found.value];
        if item.status.New? && existing.status.Dismissed? && SameOrOlder(item.ts, existing.ts) {
          return Written(existing.id, false);
        }
        var updated := existing.(ts := item.ts, content := item.content);
        if item.status.New? {
          updated := updated.(status := New, snoozeUntil := None, actedAt := None, retriagingAt := None);
          if item.createdAt.Some? {
            updated := updated.(createdAt := item.createdAt);
          }
        }
        rows := rows[found.value := updated];
        return Written(existing.id, item.status.New?);
      }
      if HasId(rows, item.id) {
        return DuplicateId;
      }
      rows := rows + [item.(retriagingAt := None)];
      return Written(item.id, true);
    }

    method SetStatus(id: string, status: Status, at: Option<int>) returns (r: Result)
      modifies this
      ensures rows == StatusSet(old(rows), id, status, at) && |rows| == |old(rows)|
      ensures forall i :: 0 <= i < |rows| && old(rows)[i].id == id ==>
        rows[i] == old(rows)[i].(status := status, actedAt := at)
      ensures forall i :: 0 <= i < |rows| && old(rows)[i].id != id ==> rows[i] == old(rows)[i]
      ensures r.NoSuchItem? <==> forall i :: 0 <= i < |old(rows)| ==> old(rows)[i].id != id
    {
      r := if HasId(rows, id) then Done(1) else NoSuchItem;
      rows := StatusSet(rows, id, status, at);
    }

    method SetActed(id: string, task: string, at: Option<int>) returns (r: Result)
      modifies this
      ensures rows == ActedSet(old(rows), id, task, at) && |rows| == |old(rows)|
      ensures forall i :: 0 <= i < |rows| && old(rows)[i].id == id ==>
        && rows[i].status.Acted? && rows[i].actedAt == at && rows[i].content.linkedTask == task
        && rows[i] == old(rows)[i].(status := rows[i].status, actedAt := at,
                                    content := old(rows)[i].content.(linkedTask := task))
      ensures forall i :: 0 <= i < |rows| && old(rows)[i].id != id ==> rows[i] == old(rows)[i]
      ensures r.NoSuchItem? <==> forall i :: 0 <= i < |old(rows)| ==> old(rows)[i].id != id
    {
      r := if HasId(rows, id) then Done(1) else NoSuchItem;
      rows := ActedSet(rows, id, task, at);
    }

    method ResolveThread(thread: string, at: Option<int>) returns (affected: nat)
      modifies this
      ensures rows == Resolved(old(rows), thread, at)
      ensures affected == |set i | 0 <= i < |old(rows)| && old(rows)[i] != rows[i]|
      ensures |rows| == |old(rows)|
      ensures forall i :: 0 <= i < |rows| ==>
        rows[i] == if thread != "" && old(rows)[i].thread == thread && old(rows)[i].status.New?
                   then old(rows)[i].(status := Acted, actedAt := at) else old(rows)[i]
      ensures thread != "" ==> !HasLive(rows, thread)
    {
      if thread == "" {
        assert (set i | 0 <= i < |rows| && rows[i] != rows[i]) == {};
        return 0;
      }
      var open := set i | 0 <= i < |rows| && rows[i].thread == thread && rows[i].status.New?;
      rows := Mapped(rows, (c: Card) =>
        if c.thread == thread && c.status.New? then c.(status := Acted, actedAt := at) else c);
      affected := |open|;
      assert open == set i | 0 <= i < |old(rows)| && old(rows)[i] != rows[i];
    }
  }

  // ---- runs ----

  datatype Step =
    | Upsert(item: Card)
    | SetStatus(id: string, status: Status, at: Option<int>)
    | SetActed(id: string, task: string, at: Option<int>)
    | Resolve(thread: string, at: Option<int>)

  function Next(rows: Rows, step: Step): Rows {
    match step
    case Upsert(item) => Upserted(rows, item).0
    case SetStatus(id, status, at) => StatusSet(rows, id, status, at)
    case SetActed(id, task, at) => ActedSet(rows, id, task, at)
    case Resolve(thread, at) => Resolved(rows, thread, at)
  }

  function Run(rows: Rows, steps: seq<Step>): Rows
    decreases |steps|
  {
    if steps == [] then rows else Run(Next(rows, steps[0]), steps[1..])
  }

  predicate Open(c: Card) {
    c.status.New? || c.status.Dismissed?
  }

  /** No card is written as dismissed directly, and no settled card is put back to new or dismissed. */
  predicate Admissible(rows: Rows, step: Step) {
    match step
    case Upsert(item) => !item.status.Dismissed?
    case SetStatus(id, status, _) =>
      status.New? || status.Dismissed? ==> forall i :: 0 <= i < |rows| && rows[i].id == id ==> Open(rows[i])
    case SetActed(_, _, _) => true
    case Resolve(_, _) => true
  }

  predicate AllAdmissible(rows: Rows, steps: seq<Step>)
    decreases |steps|
  {
    steps == [] || (Admissible(rows, steps[0]) && AllAdmissible(Next(rows, steps[0]), steps[1..]))
  }

  /** A thread has at most one card that is new or dismissed. */
  ghost predicate OneOpenCard(rows: Rows) {
    forall i, j :: 0 <= i < j < |rows| && rows[i].thread == rows[j].thread ==> !Open(rows[i]) || !Open(rows[j])
  }

  lemma NextKeepsOneOpenCard(rows: Rows, step: Step)
    requires OneOpenCard(rows) && Admissible(rows, step)
    ensures OneOpenCard(Next(rows, step))
  {
  }

  lemma {:induction false} RunKeepsOneOpenCard(rows: Rows, steps: seq<Step>)
    requires OneOpenCard(rows) && AllAdmissible(rows, steps)
    ensures OneOpenCard(Run(rows, steps))
    decreases |steps|
  {
    if steps != [] {
      NextKeepsOneOpenCard(rows, steps[0]);
      RunKeepsOneOpenCard(Next(rows, steps[0]), steps[1..]);
    }
  }

  /** An accepted write leaves the item on exactly one row of its thread, the one whose id it returns, and
      every other row alone; only a new item that a dismissal covers leaves that row alone too. A new item
      that coalesces makes its card live again, without its old times; any other only refreshes it. */
  lemma UpsertEffect(rows: Rows, item: Card) returns (k: nat)
    requires Upserted(rows, item).1.Written?
    ensures var (after, r) := Upserted(rows, item);
      && k < |after| && |rows| <= |after| <= |rows| + 1 && (k < |rows| || k == |rows| == |after| - 1)
      && after[k].id == r.id && after[k].thread == item.thread
      && (forall i :: 0 <= i < |rows| && i != k ==> after[i] == rows[i])
      && (k < |rows| ==> Candidate(rows[k], item.thread, item.status.New?))
      && (r.surfaced <==> k == |rows| || (item.status.New? && after[k].status.New?))
      && after[k] ==
         if k == |rows| then item.(retriagingAt := None)
         else if !item.status.New? then rows[k].(ts := item.ts, content := item.content)
         else if rows[k].status.Dismissed? && SameOrOlder(item.ts, rows[k].ts) then rows[k]
         else Card(rows[k].id, item.thread, New, item.ts,
                   if item.createdAt.Some? then item.createdAt else rows[k].createdAt, item.content, None, None, None)
  {
    var b := Best(rows, item.thread, item.status.New?);
    k := if b.Some? then b.value else |rows|;
  }

  /** The surfaced flag says whether the thread then has a live card exactly for new items: for any
      other status the flag is the opposite. */
  lemma SurfacedMeansLive(rows: Rows, item: Card)
    requires Upserted(rows, item).1.Written?
    ensures var (after, r) := Upserted(rows, item);
      (r.surfaced <==> HasLive(after, item.thread)) <==> item.status.New?
  {
    var (after, r) := Upserted(rows, item);
    match Best(rows, item.thread, item.status.New?)
    case Some(i) =>
      assert after[i].thread == item.thread;
    case None =>
      assert after[|rows|].thread == item.thread;
      assert forall i :: 0 <= i < |rows| ==> after[i] == rows[i];
  }

  /** The id is not a settled or dismissed card's of thread k. */
  predicate OnlyLive(rows: Rows, id: string, k: string) {
    forall i :: 0 <= i < |rows| && rows[i].id == id && rows[i].thread == k ==> rows[i].status.New?
  }

  /** Steps that leave thread k to its dismissal at ts t: no newer or unnumbered new item, and only
      live cards are dismissed or resolved. */
  predicate Quiet(rows: Rows, step: Step, k: string, t: real) {
    match step
    case Upsert(item) => item.thread == k && item.status.New? ==> item.ts.Number? && item.ts.value <= t
    case SetStatus(id, _, _) => OnlyLive(rows, id, k)
    case SetActed(id, _, _) => OnlyLive(rows, id, k)
    case Resolve(_, _) => true
  }

  predicate AllQuiet(rows: Rows, steps: seq<Step>, k: string, t: real)
    decreases |steps|
  {
    steps == [] || (Quiet(rows, steps[0], k, t) && AllQuiet(Next(rows, steps[0]), steps[1..], k, t))
  }

  /** Thread k is dismissed at t by the card at index i. */
  ghost predicate DismissedAt(rows: Rows, k: string, i: nat, t: real) {
    i < |rows| && rows[i].thread == k && rows[i].status.Dismissed? && rows[i].ts == Number(t)
  }

  lemma NextKeepsDismissal(rows: Rows, step: Step, k: string, i: nat, t: real)
    requires OneOpenCard(rows) && DismissedAt(rows, k, i, t)
    requires Admissible(rows, step) && Quiet(rows, step, k, t)
    ensures i < |Next(rows, step)| && Next(rows, step)[i] == rows[i] && !HasLive(Next(rows, step), k)
  {
    NextKeepsOneOpenCard(rows, step);
    assert Open(rows[i]);
    if step.Upsert? && step.item.thread == k && Acceptable(step.item) && step.item.status.New? {
      assert Candidate(rows[i], k, true);
      assert Best(rows, k, true) == Some(i);
    }
  }

  /** A dismissed thread stays without a live card, and its card stays as it was dismissed, through any quiet run. */
  lemma {:induction false} DismissalSticks(rows: Rows, steps: seq<Step>, k: string, i: nat, t: real)
    requires OneOpenCard(rows) && DismissedAt(rows, k, i, t)
    requires AllAdmissible(rows, steps) && AllQuiet(rows, steps, k, t)
    ensures i < |Run(rows, steps)| && Run(rows, steps)[i] == rows[i] && !HasLive(Run(rows, steps), k)
    decreases |steps|
  {
    if steps == [] {
      assert Open(rows[i]);
    } else {
      NextKeepsDismissal(rows, steps[0], k, i, t);
      NextKeepsOneOpenCard(rows, steps[0]);
      DismissalSticks(Next(rows, steps[0]), steps[1..], k, i, t);
    }
  }

  /** Dismissing dismisses: the live card of a thread becomes its dismissed one, and through any quiet run
      the thread has no live card and that card stays as the dismissal left it. */
  lemma DismissedStaysDismissed(rows: Rows, i: nat, at: Option<int>, steps: seq<Step>)
    requires OneOpenCard(rows) && i < |rows| && rows[i].status.New? && rows[i].ts.Number?
    requires Admissible(rows, SetStatus(rows[i].id, Dismissed, at))
    requires var after := Next(rows, SetStatus(rows[i].id, Dismissed, at));
      AllAdmissible(after, steps) && AllQuiet(after, steps, rows[i].thread, rows[i].ts.value)
    ensures var after := Next(rows, SetStatus(rows[i].id, Dismissed, at));
      && DismissedAt(after, rows[i].thread, i, rows[i].ts.value) && !HasLive(after, rows[i].thread)
      && i < |Run(after, steps)| && !HasLive(Run(after, steps), rows[i].thread)
      && Run(after, steps)[i] == rows[i].(status := Dismissed, actedAt := at)
  {
    var dismiss := SetStatus(rows[i].id, Dismissed, at);
    var after := Next(rows, dismiss);
    NextKeepsOneOpenCard(rows, dismiss);
    DismissalSticks(after, [], rows[i].thread, i, rows[i].ts.value);
    DismissalSticks(after, steps, rows[i].thread, i, rows[i].ts.value);
  }

  /** And exactly a newer or unnumbered new item brings it back. */
  lemma NewerItemReopens(rows: Rows, item: Card, i: nat, t: real)
    requires OneOpenCard(rows) && DismissedAt(rows, item.thread, i, t)
    requires Acceptable(item) && item.status.New?
    ensures HasLive(Upserted(rows, item).0, item.thread) <==> item.ts.NotNumber? || item.ts.value > t
    ensures Upserted(rows, item).1.Written? && Upserted(rows, item).1.id == rows[i].id
  {
    assert Open(rows[i]);
    assert Candidate(rows[i], item.thread, true);
    assert Best(rows, item.thread, true) == Some(i);
    var after := Upserted(rows, item).0;
    assert after[i].thread == item.thread;
  }

  // ---- two writers between lookup and write ----

  /** What an upsert remembers from its lookup. */
  datatype Plan = Insert(item: Card) | Coalesce(item: Card, id: string) | Nothing

  /** The SELECT. */
  function Planned(rows: Rows, item: Card): Plan {
    if !Acceptable(item) then Nothing
    else
      match Best(rows, item.thread, item.status.New?)
      case Some(i) =>
        if item.status.New? && rows[i].status.Dismissed? && SameOrOlder(item.ts, rows[i].ts) then Nothing
        else Coalesce(item, rows[i].id)
      case None => Insert(item)
  }

  /** The INSERT, which the primary key may refuse, or the UPDATE ... WHERE id. */
  function WrittenLate(rows: Rows, plan: Plan): Rows {
    match plan
    case Nothing => rows
    case Insert(item) => if HasId(rows, item.id) then rows else rows + [item.(retriagingAt := None)]
    case Coalesce(item, id) => Mapped(rows, (c: Card) => if c.id == id then Coalesced(c, item) else c)
  }

  ghost predicate UniqueIds(rows: Rows) {
    forall i, j :: 0 <= i < j < |rows| ==> rows[i].id != rows[j].id
  }

  /** Written at once, the two statements are the upsert. */
  lemma WrittenAtOnce(rows: Rows, item: Card)
    requires UniqueIds(rows)
    ensures WrittenLate(rows, Planned(rows, item)) == Upserted(rows, item).0
  {
    if Acceptable(item) && Best(rows, item.thread, item.status.New?).Some? {
      var i := Best(rows, item.thread, item.status.New?).value;
      assert Upserted(rows, item).0 == rows || Upserted(rows, item).0 == rows[i := Coalesced(rows[i], item)];
    }
  }

  predicate HasOpen(rows: Rows, thread: string) {
    exists i :: 0 <= i < |rows| && rows[i].thread == thread && Open(rows[i])
  }

  /** An insert planned on an earlier table keeps one open card per thread exactly when the id is taken, the
      item is not open, or the thread has still no open card: that is, unless in between another writer
      opened one that is still open. */
  lemma LateInsertIff(before: Rows, steps: seq<Step>, item: Card)
    requires OneOpenCard(before) && AllAdmissible(before, steps) && Planned(before, item) == Insert(item)
    ensures var now := Run(before, steps);
      OneOpenCard(WrittenLate(now, Insert(item))) <==>
      HasId(now, item.id) || !Open(item) || !HasOpen(now, item.thread)
  {
    var now := Run(before, steps);
    RunKeepsOneOpenCard(before, steps);
    var after := WrittenLate(now, Insert(item));
    if !HasId(now, item.id) {
      assert after[|now|].thread == item.thread && Open(after[|now|]) == Open(item);
      if HasOpen(now, item.thread) && Open(item) {
        var i :| 0 <= i < |now| && now[i].thread == item.thread && Open(now[i]);
        assert after[i] == now[i] && i < |now|;
        assert !OneOpenCard(after);
      } else {
        forall i, j | 0 <= i < j < |after| && after[i].thread == after[j].thread
          ensures !Open(after[i]) || !Open(after[j])
        {
          assert after[i] == now[i] && (j < |now| ==> after[j] == now[j]);
        }
      }
    }
  }

  /** No step changes a row's id or thread, or reuses an id. */
  lemma NextKeepsRows(rows: Rows, step: Step, k: nat)
    requires UniqueIds(rows) && k < |rows|
    ensures UniqueIds(Next(rows, step)) && k < |Next(rows, step)|
    ensures Next(rows, step)[k].id == rows[k].id && Next(rows, step)[k].thread == rows[k].thread
  {
    var after := Next(rows, step);
    assert forall i :: 0 <= i < |rows| ==> after[i].id == rows[i].id;
  }

  lemma {:induction false} RunKeepsRows(rows: Rows, steps: seq<Step>, k: nat)
    requires UniqueIds(rows) && k < |rows|
    ensures UniqueIds(Run(rows, steps)) && k < |Run(rows, steps)|
    ensures Run(rows, steps)[k].id == rows[k].id && Run(rows, steps)[k].thread == rows[k].thread
    decreases |steps|
  {
    if steps != [] {
      NextKeepsRows(rows, steps[0], k);
      RunKeepsRows(Next(rows, steps[0]), steps[1..], k);
    }
  }

  predicate OtherOpen(rows: Rows, k: nat) {
    exists i :: 0 <= i < |rows| && i != k && k < |rows| && rows[i].thread == rows[k].thread && Open(rows[i])
  }

  /** An update planned on an earlier table keeps one open card per thread exactly when the item is not new
      or no other card of the thread is open by now: that is, unless the found card was settled in between
      and another one opened that is still open. */
  lemma LateCoalesceIff(before: Rows, steps: seq<Step>, item: Card, k: nat)
    requires OneOpenCard(before) && UniqueIds(before) && AllAdmissible(before, steps)
    requires k < |before| && Planned(before, item) == Coalesce(item, before[k].id)
    ensures var now := Run(before, steps);
      OneOpenCard(WrittenLate(now, Coalesce(item, before[k].id))) <==> !item.status.New? || !OtherOpen(now, k)
  {
    var now := Run(before, steps);
    RunKeepsOneOpenCard(before, steps);
    RunKeepsRows(before, steps, k);
    var after := WrittenLate(now, Coalesce(item, before[k].id));
    assert forall i :: 0 <= i < |now| && i != k ==> after[i] == now[i];
    assert after[k] == Coalesced(now[k], item) && after[k].thread == now[k].thread;
    if item.status.New? && OtherOpen(now, k) {
      var i :| 0 <= i < |now| && i != k && now[i].thread == now[k].thread && Open(now[i]);
      assert Open(after[k]) && Open(after[i]);
    } else {
      forall i, j | 0 <= i < j < |after| && after[i].thread == after[j].thread
        ensures !Open(after[i]) || !Open(after[j])
      {
        assert i != k ==> after[i] == now[i];
        assert j != k ==> after[j] == now[j];
      }
    }
  }

  // ---- what a writer can know at its lookup ----

  lemma {:induction false} RunKeepsId(rows: Rows, steps: seq<Step>, id: string)
    requires HasId(rows, id)
    ensures HasId(Run(rows, steps), id)
    decreases |steps|
  {
    if steps != [] {
      var i :| 0 <= i < |rows| && rows[i].id == id;
      var after := Next(rows, steps[0]);
      assert i < |after| && after[i].id == id;
      RunKeepsId(after, steps[1..], id);
    }
  }

  lemma {:induction false} LongerId(rows: Rows) returns (id: string)
    ensures id != "" && forall i :: 0 <= i < |rows| ==> |rows[i].id| < |id|
  {
    if rows == [] {
      id := "x";
    } else {
      var n := |rows| - 1;
      var shorter := LongerId(rows[..n]);
      id := if |rows[n].id| < |shorter| then shorter else rows[n].id + "x";
      assert forall i :: 0 <= i < n ==> rows[..n][i] == rows[i];
    }
  }

  /** Another writer's new item for the thread, under an id of its own. */
  lemma Rival(rows: Rows, item: Card) returns (rival: Card)
    requires Acceptable(item)
    ensures Acceptable(rival) && rival.thread == item.thread && rival.status.New?
    ensures rival.id != item.id && !HasId(rows, rival.id)
  {
    var id := LongerId(rows + [item]);
    rival := item.(id := id, status := New);
    assert (rows + [item])[|rows|] == item;
    assert forall i :: 0 <= i < |rows| ==> (rows + [item])[i] == rows[i];
  }

  lemma RivalOpens(rows: Rows, rival: Card)
    requires Acceptable(rival) && rival.status.New? && !HasId(rows, rival.id) && !HasOpen(rows, rival.thread)
    ensures Next(rows, Upsert(rival)) == rows + [rival.(retriagingAt := None)]
    ensures HasOpen(Next(rows, Upsert(rival)), rival.thread)
  {
    assert Best(rows, rival.thread, true).None?;
    var after := rows + [rival.(retriagingAt := None)];
    assert after[|rows|].thread == rival.thread && Open(after[|rows|]);
  }

  lemma RunStep(rows: Rows, last: Step)
    ensures Run(rows, [last]) == Next(rows, last)
    ensures AllAdmissible(rows, [last]) <==> Admissible(rows, last)
  {
    assert [last][1..] == [];
  }

  /** Whatever other writers do in between, the planned write keeps one open card per thread. */
  ghost predicate AlwaysSafe(before: Rows, plan: Plan) {
    forall steps :: AllAdmissible(before, steps) ==> OneOpenCard(WrittenLate(Run(before, steps), plan))
  }

  lemma NotSafe(before: Rows, plan: Plan, steps: seq<Step>)
    requires AllAdmissible(before, steps) && !OneOpenCard(WrittenLate(Run(before, steps), plan))
    ensures !AlwaysSafe(before, plan)
  {
  }

  /** A planned insert is safe under every interleaving exactly when its id is already taken, and it will be
      refused, or the item is not open. */
  lemma InsertSafeIff(before: Rows, item: Card)
    requires OneOpenCard(before) && Planned(before, item) == Insert(item)
    ensures AlwaysSafe(before, Insert(item)) <==> HasId(before, item.id) || !Open(item)
  {
    if HasId(before, item.id) || !Open(item) {
      forall steps | AllAdmissible(before, steps) ensures OneOpenCard(WrittenLate(Run(before, steps), Insert(item))) {
        if HasId(before, item.id) {
          RunKeepsId(before, steps, item.id);
        }
        LateInsertIff(before, steps, item);
      }
    } else if HasOpen(before, item.thread) {
      LateInsertIff(before, [], item);
      NotSafe(before, Insert(item), []);
    } else {
      var rival := Rival(before, item);
      RivalOpens(before, rival);
      RunStep(before, Upsert(rival));
      LateInsertIff(before, [Upsert(rival)], item);
      assert !HasId(Run(before, [Upsert(rival)]), item.id);
      NotSafe(before, Insert(item), [Upsert(rival)]);
    }
  }

  /** The run that spoils a planned update of a new item: the found card is settled, and another opened. */
  function Spoiling(id: string, rival: Card): seq<Step> {
    [SetStatus(id, Acted, None), Upsert(rival)]
  }

  lemma SettledThenOpened(before: Rows, k: nat, rival: Card)
    requires OneOpenCard(before) && UniqueIds(before) && k < |before| && Open(before[k])
    requires Acceptable(rival) && rival.status.New? && rival.thread == before[k].thread && !HasId(before, rival.id)
    ensures AllAdmissible(before, Spoiling(before[k].id, rival))
    ensures OtherOpen(Run(before, Spoiling(before[k].id, rival)), k)
  {
    var settle := SetStatus(before[k].id, Acted, None);
    var settled := Next(before, settle);
    assert |settled| == |before| && settled[k].status.Acted?;
    assert forall i :: 0 <= i < |before| && i != k ==> settled[i] == before[i];
    assert !HasOpen(settled, rival.thread);
    assert !HasId(settled, rival.id) by {
      assert forall i :: 0 <= i < |before| ==> settled[i].id == before[i].id;
    }
    RivalOpens(settled, rival);
    var steps := Spoiling(before[k].id, rival);
    assert steps[1..] == [Upsert(rival)];
    RunStep(settled, Upsert(rival));
    var after := Run(before, steps);
    assert after == settled + [rival.(retriagingAt := None)];
    assert after[|settled|].thread == after[k].thread && Open(after[|settled|]);
  }

  /** A planned update is safe under every interleaving exactly when the item is not new. */
  lemma CoalesceSafeIff(before: Rows, item: Card, k: nat)
    requires OneOpenCard(before) && UniqueIds(before)
    requires k < |before| && Planned(before, item) == Coalesce(item, before[k].id)
    ensures AlwaysSafe(before, Coalesce(item, before[k].id)) <==> !item.status.New?
  {
    if !item.status.New? {
      forall steps | AllAdmissible(before, steps)
        ensures OneOpenCard(WrittenLate(Run(before, steps), Coalesce(item, before[k].id)))
      {
        LateCoalesceIff(before, steps, item, k);
      }
    } else {
      assert Best(before, item.thread, true) == Some(k);
      var rival := Rival(before, item);
      var steps := Spoiling(before[k].id, rival);
      SettledThenOpened(before, k, rival);
      LateCoalesceIff(before, steps, item, k);
      NotSafe(before, Coalesce(item, before[k].id), steps);
    }
  }

  /** Two writers that both looked before either wrote, on a thread without an open card, leave it with two
      live ones, whichever writes first. */
  lemma RacingUpserts(rows: Rows, a: Card, b: Card)
    requires a.thread == b.thread && a.id != b.id && Acceptable(a) && Acceptable(b) && a.status.New? && b.status.New?
    requires !HasId(rows, a.id) && !HasId(rows, b.id) && !HasOpen(rows, a.thread)
    ensures Planned(rows, a) == Insert(a) && Planned(rows, b) == Insert(b)
    ensures !OneOpenCard(WrittenLate(WrittenLate(rows, Planned(rows, a)), Planned(rows, b)))
  {
    assert Best(rows, a.thread, true).None?;
    var one := WrittenLate(rows, Insert(a));
    var two := WrittenLate(one, Insert(b));
    assert !HasId(one, b.id);
    assert two[|rows|].thread == two[|rows| + 1].thread && Open(two[|rows|]) && Open(two[|rows| + 1]);
  }
}
