/** Input queued for a paused session and its hand-over to the wake queue
    (internal/flowdb/paused_sessions.go, internal/app/do.go). The tables are generic in the slug and
    the payload of a row; the store at the end instantiates them. */
module PausedQueue {
  import opened Text

  /** A row of paused_session_queue or pending_wakes: S is the slug, I what the session is owed. */
  datatype Row<S, I> = Row(id: nat, slug: S, input: I)

  /** Both queues with their autoincrement counters, and the paused marks. */
  datatype State<S(==), I> = State(queue: seq<Row<S, I>>, nextQueueId: nat, wakes: seq<Row<S, I>>, nextWakeId: nat,
      paused: set<S>)

  /** The rows of one slug, in id order. */
  function Of<S(==,!new), I(!new)>(rows: seq<Row<S, I>>, slug: S): seq<Row<S, I>> {
    if rows == [] then []
    else if rows[0].slug == slug then [rows[0]] + Of(rows[1..], slug)
    else Of(rows[1..], slug)
  }

  /** What the rows of one slug owe it, in order. */
  function Inputs<S(==,!new), I(!new)>(rows: seq<Row<S, I>>, slug: S): seq<I> {
    if rows == [] then []
    else if rows[0].slug == slug then [rows[0].input] + Inputs(rows[1..], slug)
    else Inputs(rows[1..], slug)
  }

  /** DELETE of the rows with the given ids. */
  function Without<S(!new), I(!new)>(rows: seq<Row<S, I>>, ids: set<nat>): seq<Row<S, I>> {
    if rows == [] then []
    else if rows[0].id in ids then Without(rows[1..], ids)
    else [rows[0]] + Without(rows[1..], ids)
  }

  ghost function Ids<S(!new), I(!new)>(rows: seq<Row<S, I>>): set<nat> {
    set r | r in rows :: r.id
  }

  /** The wake rows a hand-over appends. */
  function AsWakes<S(!new), I(!new)>(items: seq<Row<S, I>>, firstId: nat): (r: seq<Row<S, I>>)
    ensures |r| == |items|
    ensures forall i :: 0 <= i < |r| ==> r[i] == Row(firstId + i, items[i].slug, items[i].input)
  {
    seq(|items|, i requires 0 <= i < |items| => Row(firstId + i, items[i].slug, items[i].input))
  }

  function Enqueued<S(!new), I(!new)>(s: State<S, I>, slug: S, input: I): State<S, I> {
    s.(queue := s.queue + [Row(s.nextQueueId, slug, input)], nextQueueId := s.nextQueueId + 1)
  }

  ghost function Moved<S(!new), I(!new)>(s: State<S, I>, slug: S): State<S, I> {
    var items := Of(s.queue, slug);
    s.(queue := Without(s.queue, Ids(items)),
       wakes := s.wakes + AsWakes(items, s.nextWakeId), nextWakeId := s.nextWakeId + |items|)
  }

  /** Autoincrement: ids ascend and stay below the counter. */
  ghost predicate Ascending<S(!new), I(!new)>(rows: seq<Row<S, I>>, next: nat) {
    rows == [] ||
    (rows[0].id < next && (forall x :: x in rows[1..] ==> rows[0].id < x.id) && Ascending(rows[1..], next))
  }

  lemma {:induction false} AppendAscending<S(!new), I(!new)>(rows: seq<Row<S, I>>, r: Row<S, I>, next: nat)
    requires Ascending(rows, next) && r.id == next
    ensures Ascending(rows + [r], next + 1)
  {
    if rows != [] {
      AppendAscending(rows[1..], r, next);
      assert (rows + [r])[1..] == rows[1..] + [r];
    }
  }

  lemma {:induction false} IdIsKey<S(!new), I(!new)>(rows: seq<Row<S, I>>, r: Row<S, I>, x: Row<S, I>, next: nat)
    requires Ascending(rows, next) && r in rows && x in rows && r.id == x.id
    ensures r == x
  {
    if r in rows[1..] && x in rows[1..] {
      IdIsKey(rows[1..], r, x, next);
    }
  }

  lemma {:induction false} OfMembers<S(!new), I(!new)>(rows: seq<Row<S, I>>, slug: S)
    ensures forall x :: x in Of(rows, slug) <==> x in rows && x.slug == slug
  {
    if rows != [] {
      OfMembers(rows[1..], slug);
      assert rows == [rows[0]] + rows[1..];
    }
  }

  lemma {:induction false} WithoutMembers<S(!new), I(!new)>(rows: seq<Row<S, I>>, ids: set<nat>)
    ensures forall x :: x in Without(rows, ids) <==> x in rows && x.id !in ids
  {
    if rows != [] {
      WithoutMembers(rows[1..], ids);
      assert rows == [rows[0]] + rows[1..];
    }
  }

  lemma {:induction false} WithoutTwice<S(!new), I(!new)>(rows: seq<Row<S, I>>, a: set<nat>, b: set<nat>)
    ensures Without(Without(rows, a), b) == Without(rows, a + b)
  {
    if rows != [] {
      WithoutTwice(rows[1..], a, b);
      if rows[0].id !in a {
        assert Without(rows, a)[1..] == Without(rows[1..], a);
      }
    }
  }

  lemma {:induction false} WithoutNone<S(!new), I(!new)>(rows: seq<Row<S, I>>)
    ensures Without(rows, {}) == rows
  {
    if rows != [] {
      WithoutNone(rows[1..]);
    }
  }

  lemma {:induction false} WithoutAscending<S(!new), I(!new)>(rows: seq<Row<S, I>>, ids: set<nat>, next: nat)
    requires Ascending(rows, next)
    ensures Ascending(Without(rows, ids), next)
  {
    if rows != [] {
      WithoutAscending(rows[1..], ids, next);
      WithoutMembers(rows[1..], ids);
    }
  }

  lemma {:induction false} InputsConcat<S(!new), I(!new)>(a: seq<Row<S, I>>, b: seq<Row<S, I>>, slug: S)
    ensures Inputs(a + b, slug) == Inputs(a, slug) + Inputs(b, slug)
  {
    if a == [] {
      assert a + b == b;
    } else {
      InputsConcat(a[1..], b, slug);
      assert (a + b)[1..] == a[1..] + b;
    }
  }

  /** Deleting exactly one slug's rows removes its inputs and no other's. */
  lemma {:induction false} InputsWithout<S(!new), I(!new)>(rows: seq<Row<S, I>>, ids: set<nat>, slug: S, k: S)
    requires forall r :: r in rows ==> (r.id in ids <==> r.slug == slug)
    ensures Inputs(Without(rows, ids), k) == if k == slug then [] else Inputs(rows, k)
  {
    if rows != [] {
      assert rows[0] in rows;
      InputsWithout(rows[1..], ids, slug, k);
      if rows[0].id !in ids {
        assert Without(rows, ids)[1..] == Without(rows[1..], ids);
      }
    }
  }

  lemma {:induction false} InputsOf<S(!new), I(!new)>(rows: seq<Row<S, I>>, slug: S, k: S, firstId: nat)
    ensures Inputs(AsWakes(Of(rows, slug), firstId), k) == if k == slug then Inputs(rows, k) else []
    decreases rows
  {
    if rows != [] {
      if rows[0].slug == slug {
        InputsOf(rows[1..], slug, k, firstId + 1);
        assert AsWakes(Of(rows, slug), firstId)[1..] == AsWakes(Of(rows[1..], slug), firstId + 1);
      } else {
        InputsOf(rows[1..], slug, k, firstId);
      }
    }
  }

  lemma OwnIds<S(!new), I(!new)>(rows: seq<Row<S, I>>, slug: S, next: nat)
    requires Ascending(rows, next)
    ensures forall r :: r in rows ==> (r.id in Ids(Of(rows, slug)) <==> r.slug == slug)
  {
    OfMembers(rows, slug);
    forall r, x | r in rows && x in rows && r.id == x.id ensures r == x {
      IdIsKey(rows, r, x, next);
    }
  }

  /** A hand-over moves all of one slug's queued inputs behind its wakes, in order and intact. */
  lemma MoveEffect<S(!new), I(!new)>(s: State<S, I>, slug: S, k: S)
    requires Ascending(s.queue, s.nextQueueId)
    ensures var t := Moved(s, slug);
      && Inputs(t.queue, k) == (if k == slug then [] else Inputs(s.queue, k))
      && Inputs(t.wakes, k) == Inputs(s.wakes, k) + (if k == slug then Inputs(s.queue, k) else [])
      && Ascending(t.queue, t.nextQueueId)
  {
    var items := Of(s.queue, slug);
    OwnIds(s.queue, slug, s.nextQueueId);
    InputsWithout(s.queue, Ids(items), slug, k);
    InputsOf(s.queue, slug, k, s.nextWakeId);
    InputsConcat(s.wakes, AsWakes(items, s.nextWakeId), k);
    WithoutAscending(s.queue, Ids(items), s.nextQueueId);
  }

  // ---- runs ----

  datatype Step<S, I> = Enqueue(slug: S, input: I) | Move(slug: S) | AbortedMove(slug: S)

  ghost function Next<S(!new), I(!new)>(s: State<S, I>, step: Step<S, I>): State<S, I> {
    match step
    case Enqueue(slug, input) => Enqueued(s, slug, input)
    case Move(slug) => Moved(s, slug)
    case AbortedMove(_) => s
  }

  ghost function Run<S(!new), I(!new)>(steps: seq<Step<S, I>>): State<S, I> {
    if steps == [] then State([], 0, [], 0, {}) else Next(Run(steps[..|steps| - 1]), steps[|steps| - 1])
  }

  /** Everything ever enqueued for a slug, in order. */
  function History<S(==,!new), I(!new)>(steps: seq<Step<S, I>>, slug: S): seq<I> {
    if steps == [] then []
    else History(steps[..|steps| - 1], slug) + Contribution(steps[|steps| - 1], slug)
  }

  function Contribution<S(==,!new), I(!new)>(step: Step<S, I>, slug: S): seq<I> {
    if step.Enqueue? && step.slug == slug then [step.input] else []
  }

  lemma NextEffect<S(!new), I(!new)>(s: State<S, I>, step: Step<S, I>, slug: S)
    requires Ascending(s.queue, s.nextQueueId)
    ensures var t := Next(s, step);
      && Ascending(t.queue, t.nextQueueId)
      && Inputs(t.wakes, slug) + Inputs(t.queue, slug)
         == Inputs(s.wakes, slug) + Inputs(s.queue, slug) + Contribution(step, slug)
  {
    match step
    case Enqueue(k, input) =>
      AppendAscending(s.queue, Row(s.nextQueueId, k, input), s.nextQueueId);
      InputsConcat(s.queue, [Row(s.nextQueueId, k, input)], slug);
      assert Inputs([Row(s.nextQueueId, k, input)], slug) == Contribution(step, slug);
    case Move(k) =>
      MoveEffect(s, k, slug);
    case AbortedMove(_) =>
  }

  /** Nothing is lost, duplicated or reordered in any run: a slug's moved inputs followed by its
      queued ones are everything enqueued for it. */
  lemma {:induction false} InputsConserved<S(!new), I(!new)>(steps: seq<Step<S, I>>, slug: S)
    ensures Inputs(Run(steps).wakes, slug) + Inputs(Run(steps).queue, slug) == History(steps, slug)
    ensures Ascending(Run(steps).queue, Run(steps).nextQueueId)
  {
    if steps != [] {
      InputsConserved(steps[..|steps| - 1], slug);
      NextEffect(Run(steps[..|steps| - 1]), steps[|steps| - 1], slug);
    }
  }

  // ---- the store ----

  datatype Input = Input(prompt: string, notBefore: string)

  ghost predicate TidyHolds(rows: seq<Row<string, Input>>) {
    forall r :: r in rows ==> Tidy(r.input.notBefore)
  }

  method WakeFor(rows: seq<Row<string, Input>>, it: Row<string, Input>, slug: string, id: nat)
    returns (r: Row<string, Input>)
    requires TidyHolds(rows) && it in Of(rows, slug)
    ensures r == Row(id, it.slug, it.input)
  {
    OfMembers(rows, slug);
    r := Row(id, slug, Input(it.input.prompt, TrimSpace(it.input.notBefore)));
  }

  /** The statements of the hand-over transaction, on copies of the tables: the query, two per row, and
      the commit. None when statement failAt fails (there are none of a negative or a larger number). */
  method MoveTransaction(s: State<string, Input>, slug: string, failAt: int) returns (r: Option<State<string, Input>>)
    requires TidyHolds(s.queue)
    ensures r == if 0 <= failAt <= 2 * |Of(s.queue, slug)| + 1 then None else Some(Moved(s, slug))
  {
    if failAt == 0 {
      return None;
    }
    var items := Of(s.queue, slug);
    var q, w, next := s.queue, s.wakes, s.nextWakeId;
    HandNone(s, items);
    for i := 0 to |items|
      invariant Handed(s, items, i, q, w, next)
      invariant failAt < 0 || 2 * i < failAt
    {
      var it := items[i];
      if failAt == 2 * i + 1 {
        return None;
      }
      var wake := WakeFor(s.queue, it, slug, next);
      HandOne(s, items, i, q, w, next);
      w := w + [wake];
      next := next + 1;
      if failAt == 2 * i + 2 {
        return None;
      }
      q := Without(q, {it.id});
    }
    if failAt == 2 * |items| + 1 {
      return None;
    }
    assert items[..|items|] == items;
    r := Some(State(q, s.nextQueueId, w, next, s.paused));
  }

  class SessionStore {
    var queue: seq<Row<string, Input>>
    var nextQueueId: nat
    var wakes: seq<Row<string, Input>>
    var nextWakeId: nat
    var paused: set<string>

    function Now(): State<string, Input>
      reads this
    {
      State(queue, nextQueueId, wakes, nextWakeId, paused)
    }

    /** Queue ids ascend; holds are stored trimmed. */
    ghost predicate Valid()
      reads this
    {
      Ascending(queue, nextQueueId) && TidyHolds(queue)
    }

    method EnqueueAfter(slug: string, prompt: string, notBefore: string) returns (id: nat)
      requires Valid()
      modifies this
      ensures Valid() && id == old(nextQueueId)
      ensures Now() == Enqueued(old(Now()), TrimSpace(slug), Input(prompt, TrimSpace(notBefore)))
    {
      id := nextQueueId;
      var input := Input(prompt, TrimSpace(notBefore));
      var row := Row(id, TrimSpace(slug), input);
      AppendAscending(queue, row, nextQueueId);
      queue := queue + [row];
      nextQueueId := nextQueueId + 1;
    }

    /** MovePausedSessionInputsToPendingWakes; failAt is the statement of the transaction that fails,
        the commit being the last.
        An aborted transaction leaves every table as it was. */
    method MoveToPendingWakes(slug: string, failAt: int) returns (moved: Option<nat>)
      requires Valid()
      modifies this
      ensures Valid()
      ensures var items := Of(old(queue), TrimSpace(slug));
        if 0 <= failAt <= 2 * |items| + 1 then moved == None && Now() == old(Now())
        else moved == Some(|items|) && Now() == Moved(old(Now()), TrimSpace(slug))
    {
      var key := TrimSpace(slug);
      var r := MoveTransaction(Now(), key, failAt);
      if r.None? {
        return None;
      }
      moved := Some(|Of(queue, key)|);
      WithoutAscending(queue, Ids(Of(queue, key)), nextQueueId);
      WithoutMembers(queue, Ids(Of(queue, key)));
      queue, wakes, nextWakeId := r.value.queue, r.value.wakes, r.value.nextWakeId;
    }

    /** clearPausedTaskResume: the paused mark goes only after the hand-over committed. */
    method ClearPausedTaskResume(slug: string, failAt: int)
      requires Valid()
      modifies this
      ensures Valid()
      ensures if 0 <= failAt <= 2 * |Of(old(queue), TrimSpace(slug))| + 1 then Now() == old(Now())
              else Now() == Moved(old(Now()), TrimSpace(slug)).(paused := old(paused) - {TrimSpace(slug)})
    {
      var moved := MoveToPendingWakes(slug, failAt);
      if moved.None? {
        return;
      }
      paused := paused - {TrimSpace(slug)};
    }
  }

  /** The transaction's copies after i rows. */
  ghost predicate Handed<S(!new), I(!new)>(s: State<S, I>, items: seq<Row<S, I>>, i: nat,
                               q: seq<Row<S, I>>, w: seq<Row<S, I>>, next: nat) {
    && i <= |items| && q == Without(s.queue, Ids(items[..i]))
    && w == s.wakes + AsWakes(items[..i], s.nextWakeId) && next == s.nextWakeId + i
  }

  lemma HandNone<S(!new), I(!new)>(s: State<S, I>, items: seq<Row<S, I>>)
    ensures Handed(s, items, 0, s.queue, s.wakes, s.nextWakeId)
  {
    WithoutNone(s.queue);
    assert Ids(items[..0]) == {};
    assert AsWakes(items[..0], s.nextWakeId) == [];
  }

  lemma HandOne<S(!new), I(!new)>(s: State<S, I>, items: seq<Row<S, I>>, i: nat, q: seq<Row<S, I>>, w: seq<Row<S, I>>,
      next: nat)
    requires i < |items| && Handed(s, items, i, q, w, next)
    ensures Handed(s, items, i + 1, Without(q, {items[i].id}), w + [Row(next, items[i].slug, items[i].input)], next + 1)
  {
    var sofar, now := items[..i], items[..i + 1];
    assert now == sofar + [items[i]];
    IdsAppend(sofar, items[i]);
    WithoutTwice(s.queue, Ids(sofar), {items[i].id});
    WakesAppend(sofar, items[i], s.nextWakeId);
  }

  lemma IdsAppend<S(!new), I(!new)>(rows: seq<Row<S, I>>, r: Row<S, I>)
    ensures Ids(rows + [r]) == Ids(rows) + {r.id}
  {
  }

  lemma WakesAppend<S(!new), I(!new)>(items: seq<Row<S, I>>, r: Row<S, I>, firstId: nat)
    ensures AsWakes(items + [r], firstId) == AsWakes(items, firstId) + [Row(firstId + |items|, r.slug, r.input)]
  {
  }
}
