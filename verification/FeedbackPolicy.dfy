/** The learned attention policy and the feedback report (internal/flowdb/attention_feedback.go):
    both are read off grouped counts of the operator's outcomes. Rates are exact numbers here. The
    module is generic in K, the text of a column, which the policy only compares. */
module FeedbackPolicy {
  import opened Text

  datatype Outcome = Approved | Sent | Dismissed | Muted | OperatorHandled | Other

  /** One feedback row. None stands for NULL or the empty string in a column the queries normalize. */
  datatype Feedback<K> = Feedback(source: K, channel: Option<K>, author: Option<K>, threadType: Option<K>,
                                  thread: K, action: K, band: K, outcome: Outcome)

  /** The constants the queries compare with: the empty text, the label of a group without a value,
      and the thread types of direct conversations. */
  datatype Labels<K(==)> = Labels(empty: K, none: K, direct: set<K>)

  const FLOW_LABELS: Labels<string> := Labels("", "(none)", {"im", "mpim"})

  datatype Dimension = Source | Channel | Author | Thread | ThreadType | Action | Band

  datatype Query = SuppressThreads | SuppressAuthors | Thresholds | Report(dim: Dimension)

  /** The aggregate columns of the queries. */
  datatype Column = Total | Approvals | Dismissals | Mutes | Negatives

  /** What a row of the outcome adds to a column: COUNT(*) or one of the CASE sums. */
  function Adds(o: Outcome, col: Column): nat {
    match col
    case Total => 1
    case Approvals => if o.Approved? || o.Sent? then 1 else 0
    case Dismissals => if o.Dismissed? then 1 else 0
    case Mutes => if o.Muted? then 1 else 0
    case Negatives => if o.Dismissed? || o.Muted? then 1 else 0
  }

  function GroupOf<K>(r: Feedback<K>, dim: Dimension, none: K): K {
    match dim
    case Source => r.source
    case Channel => OrNone(r.channel, none)
    case Author => OrNone(r.author, none)
    case Thread => r.thread
    case ThreadType => OrNone(r.threadType, none)
    case Action => r.action
    case Band => r.band
  }

  function OrNone<K>(c: Option<K>, none: K): K {
    if c.Some? then c.value else none
  }

  /** The group a query counts a row in; None when its WHERE clause drops the row. */
  function KeyOf<K(==)>(r: Feedback<K>, q: Query, l: Labels<K>): Option<K> {
    if r.outcome.OperatorHandled? then None
    else
      match q
      case SuppressThreads => if IsDirect(r, l) || r.thread == l.empty then None else Some(r.thread)
      case SuppressAuthors => if IsDirect(r, l) then None else r.author
      case Thresholds => if r.action == l.empty then None else Some(r.action)
      case Report(dim) => Some(GroupOf(r, dim, l.none))
  }

  predicate IsDirect<K(==)>(r: Feedback<K>, l: Labels<K>) {
    r.threadType.Some? && r.threadType.value in l.direct
  }

  /** A row as a query sees it: the group it counts in, if any, and its outcome. */
  datatype Counted<K> = Counted(key: Option<K>, outcome: Outcome)

  function Selected<K(==)>(rows: seq<Feedback<K>>, q: Query, l: Labels<K>): seq<Counted<K>> {
    if rows == [] then []
    else
      var last := rows[|rows| - 1];
      Selected(rows[..|rows| - 1], q, l) + [Counted(KeyOf(last, q, l), last.outcome)]
  }

  /** What a row adds to a column of group v. */
  function Share<K(==)>(c: Counted<K>, v: K, col: Column): nat {
    if c.key == Some(v) then Adds(c.outcome, col) else 0
  }

  /** A column of group v. */
  function Tally<K(==)>(cs: seq<Counted<K>>, v: K, col: Column): nat {
    if cs == [] then 0
    else Tally(cs[..|cs| - 1], v, col) + Share(cs[|cs| - 1], v, col)
  }

  /** The groups of the result set. */
  function Groups<K(==)>(cs: seq<Counted<K>>): set<K> {
    if cs == [] then {}
    else
      var last := cs[|cs| - 1];
      Groups(cs[..|cs| - 1]) + if last.key.Some? then {last.key.value} else {}
  }

  datatype Options = Options(minFeedback: int, suppressRate: real, step: real)

  function WithDefaults(o: Options): (d: Options)
    ensures d.minFeedback > 0 && d.suppressRate > 0.0 && d.step > 0.0
    ensures d.minFeedback == o.minFeedback || (o.minFeedback <= 0 && d.minFeedback == 3)
    ensures d.suppressRate == o.suppressRate || (o.suppressRate <= 0.0 && d.suppressRate == 0.8)
    ensures d.step == o.step || (o.step <= 0.0 && d.step == 0.05)
  {
    Options(if o.minFeedback <= 0 then 3 else o.minFeedback,
            if o.suppressRate <= 0.0 then 0.8 else o.suppressRate,
            if o.step <= 0.0 then 0.05 else o.step)
  }

  function Rate(part: nat, total: nat): real
    requires total > 0
  {
    part as real / total as real
  }

  predicate Suppresses(total: nat, negative: nat, o: Options)
    requires o.minFeedback > 0
  {
    total >= o.minFeedback && Rate(negative, total) >= o.suppressRate
  }

  function Adjustment(total: nat, approved: nat, negative: nat, o: Options): Option<real>
    requires o.minFeedback > 0
  {
    if total < o.minFeedback then None
    else if Rate(approved, total) >= o.suppressRate then Some(-o.step)
    else if Rate(negative, total) >= o.suppressRate then Some(o.step)
    else None
  }

  predicate GroupSuppressed<K(==)>(cs: seq<Counted<K>>, v: K, o: Options)
    requires o.minFeedback > 0
  {
    Suppresses(Tally(cs, v, Total), Tally(cs, v, Negatives), o)
  }

  function GroupAdjustment<K(==)>(cs: seq<Counted<K>>, v: K, o: Options): Option<real>
    requires o.minFeedback > 0
  {
    Adjustment(Tally(cs, v, Total), Tally(cs, v, Approvals), Tally(cs, v, Negatives), o)
  }

  datatype Policy<K(==)> = Policy(threads: set<K>, authors: set<K>, adjustments: map<K, real>)

  ghost function Suppressed<K(!new)>(cs: seq<Counted<K>>, o: Options): set<K>
    requires o.minFeedback > 0
  {
    set v | v in Groups(cs) && GroupSuppressed(cs, v, o)
  }

  ghost function Adjustments<K(!new)>(cs: seq<Counted<K>>, o: Options): map<K, real>
    requires o.minFeedback > 0
  {
    map v | v in Groups(cs) && GroupAdjustment(cs, v, o).Some? :: GroupAdjustment(cs, v, o).value
  }

  ghost function Learned<K(!new)>(rows: seq<Feedback<K>>, l: Labels<K>, opts: Options): Policy<K> {
    var o := WithDefaults(opts);
    Policy(Suppressed(Selected(rows, SuppressThreads, l), o),
           Suppressed(Selected(rows, SuppressAuthors, l), o),
           Adjustments(Selected(rows, Thresholds, l), o))
  }

  method LearnSuppressions<K(==,!new)>(cs: seq<Counted<K>>, o: Options) returns (target: set<K>)
    requires o.minFeedback > 0
    ensures target == Suppressed(cs, o)
  {
    target := {};
    var todo := Groups(cs);
    while todo != {}
      invariant todo <= Groups(cs)
      invariant target == set v | v in Groups(cs) - todo && GroupSuppressed(cs, v, o)
      decreases todo
    {
      var value :| value in todo;
      var total, negative := Tally(cs, value, Total), Tally(cs, value, Negatives);
      if total >= o.minFeedback && Rate(negative, total) >= o.suppressRate {
        target := target + {value};
      }
      todo := todo - {value};
    }
  }

  method LearnThresholdAdjustments<K(==,!new)>(cs: seq<Counted<K>>, o: Options) returns (target: map<K, real>)
    requires o.minFeedback > 0
    ensures target == Adjustments(cs, o)
  {
    target := map[];
    var todo := Groups(cs);
    while todo != {}
      invariant todo <= Groups(cs)
      invariant forall v :: v in target <==> v in Groups(cs) - todo && GroupAdjustment(cs, v, o).Some?
      invariant forall v :: v in target ==> target[v] == GroupAdjustment(cs, v, o).value
      decreases todo
    {
      var action :| action in todo;
      todo := todo - {action};
      var total := Tally(cs, action, Total);
      if total < o.minFeedback {
        continue;
      }
      if Rate(Tally(cs, action, Approvals), total) >= o.suppressRate {
        target := target[action := -o.step];
      } else if Rate(Tally(cs, action, Negatives), total) >= o.suppressRate {
        target := target[action := o.step];
      }
    }
  }

  method LearnPolicy<K(==,!new)>(rows: seq<Feedback<K>>, l: Labels<K>, opts: Options) returns (p: Policy<K>)
    ensures p == Learned(rows, l, opts)
  {
    var o := WithDefaults(opts);
    var threads := LearnSuppressions(Selected(rows, SuppressThreads, l), o);
    var authors := LearnSuppressions(Selected(rows, SuppressAuthors, l), o);
    var adjustments := LearnThresholdAdjustments(Selected(rows, Thresholds, l), o);
    p := Policy(threads, authors, adjustments);
  }

  // ---- rows and groups ----

  lemma {:induction false} SelectedConcat<K(!new)>(a: seq<Feedback<K>>, b: seq<Feedback<K>>, q: Query, l: Labels<K>)
    ensures Selected(a + b, q, l) == Selected(a, q, l) + Selected(b, q, l)
  {
    if b == [] {
      assert a + b == a;
    } else {
      SelectedConcat(a, b[..|b| - 1], q, l);
      assert (a + b)[..|a + b| - 1] == a + b[..|b| - 1];
      assert (a + b)[|a + b| - 1] == b[|b| - 1];
    }
  }

  lemma SelectedInsert<K(!new)>(a: seq<Feedback<K>>, r: Feedback<K>, b: seq<Feedback<K>>, q: Query, l: Labels<K>)
    ensures Selected(a + [r] + b, q, l) == Selected(a, q, l) + [Counted(KeyOf(r, q, l), r.outcome)] + Selected(b, q, l)
  {
    SelectedConcat(a + [r], b, q, l);
    SelectedConcat(a, [r], q, l);
    assert Selected([r], q, l) == [Counted(KeyOf(r, q, l), r.outcome)] by {
      assert [r][..0] == [] && [r][0] == r;
    }
  }

  lemma {:induction false} TallySplit<K(!new)>(a: seq<Counted<K>>, b: seq<Counted<K>>, v: K, col: Column)
    ensures Tally(a + b, v, col) == Tally(a, v, col) + Tally(b, v, col)
  {
    if b == [] {
      assert a + b == a;
    } else {
      TallySplit(a, b[..|b| - 1], v, col);
      assert (a + b)[..|a + b| - 1] == a + b[..|b| - 1];
    }
  }

  /** A row counts the same wherever it is inserted. */
  lemma TallyInsert<K(!new)>(a: seq<Counted<K>>, c: Counted<K>, b: seq<Counted<K>>, v: K, col: Column)
    ensures Tally(a + [c] + b, v, col) == Tally(a + b, v, col) + Share(c, v, col)
  {
    TallySplit(a + [c], b, v, col);
    TallySplit(a, b, v, col);
    assert (a + [c])[..|a|] == a;
  }

  lemma {:induction false} GroupsSplit<K(!new)>(a: seq<Counted<K>>, b: seq<Counted<K>>)
    ensures Groups(a + b) == Groups(a) + Groups(b)
  {
    if b == [] {
      assert a + b == a;
    } else {
      GroupsSplit(a, b[..|b| - 1]);
      assert (a + b)[..|a + b| - 1] == a + b[..|b| - 1];
      assert (a + b)[|a + b| - 1] == b[|b| - 1];
    }
  }

  /** A group is in the result set exactly when it counts a row, and never more dismissals than rows. */
  lemma {:induction false} GroupHasRows<K(!new)>(cs: seq<Counted<K>>, v: K)
    ensures v in Groups(cs) <==> Tally(cs, v, Total) > 0
    ensures Tally(cs, v, Negatives) <= Tally(cs, v, Total)
  {
    if cs != [] {
      GroupHasRows(cs[..|cs| - 1], v);
    }
  }

  lemma SuppressedByTally<K(!new)>(cs: seq<Counted<K>>, o: Options, v: K)
    requires o.minFeedback > 0
    ensures v in Suppressed(cs, o) <==> GroupSuppressed(cs, v, o)
  {
    GroupHasRows(cs, v);
  }

  /** A column of a group that is not zero has a row behind it. */
  lemma {:induction false} RowBehind<K(!new)>(rows: seq<Feedback<K>>, q: Query, l: Labels<K>, v: K,
      col: Column) returns (r: Feedback<K>)
    requires Tally(Selected(rows, q, l), v, col) > 0
    ensures r in rows && KeyOf(r, q, l) == Some(v) && Adds(r.outcome, col) == 1
  {
    var init, last := rows[..|rows| - 1], rows[|rows| - 1];
    var cs := Selected(rows, q, l);
    assert cs[..|cs| - 1] == Selected(init, q, l);
    if Tally(Selected(init, q, l), v, col) > 0 {
      r := RowBehind(init, q, l, v, col);
    } else {
      r := last;
    }
  }

  lemma SuppressedHasNegative<K(!new)>(rows: seq<Feedback<K>>, q: Query, l: Labels<K>, o: Options, v: K)
    returns (r: Feedback<K>)
    requires o.minFeedback > 0 && o.suppressRate > 0.0 && v in Suppressed(Selected(rows, q, l), o)
    ensures r in rows && KeyOf(r, q, l) == Some(v) && (r.outcome.Dismissed? || r.outcome.Muted?)
  {
    RateAtLeast(Tally(Selected(rows, q, l), v, Negatives), Tally(Selected(rows, q, l), v, Total), o.suppressRate);
    r := RowBehind(rows, q, l, v, Negatives);
  }

  /** Nothing is suppressed without evidence: a suppressed thread or author has itself been dismissed or
      muted, outside direct conversations. */
  lemma SuppressionHasEvidence<K(!new)>(rows: seq<Feedback<K>>, l: Labels<K>, opts: Options, v: K)
    ensures v in Learned(rows, l, opts).threads ==>
      exists r :: r in rows && r.thread == v && !IsDirect(r, l) && (r.outcome.Dismissed? || r.outcome.Muted?)
    ensures v in Learned(rows, l, opts).authors ==>
      exists r :: r in rows && r.author == Some(v) && !IsDirect(r, l) && (r.outcome.Dismissed? || r.outcome.Muted?)
  {
    var o := WithDefaults(opts);
    if v in Learned(rows, l, opts).threads {
      var r := SuppressedHasNegative(rows, SuppressThreads, l, o, v);
    }
    if v in Learned(rows, l, opts).authors {
      var r := SuppressedHasNegative(rows, SuppressAuthors, l, o, v);
    }
  }

  // ---- the policy without queries: counting rows of the history ----

  /** How many rows of the history meet p. */
  ghost function CountWhere<K(!new)>(rows: seq<Feedback<K>>, p: Feedback<K> -> bool): nat {
    |set i | 0 <= i < |rows| && p(rows[i])|
  }

  lemma CountLast<K(!new)>(rows: seq<Feedback<K>>, p: Feedback<K> -> bool)
    requires rows != []
    ensures var n := |rows| - 1;
      CountWhere(rows, p) == CountWhere(rows[..n], p) + if p(rows[n]) then 1 else 0
  {
    var n := |rows| - 1;
    var all, init := set i | 0 <= i < |rows| && p(rows[i]), set i | 0 <= i < n && p(rows[..n][i]);
    assert all == if p(rows[n]) then init + {n} else init;
  }

  /** A column of a group counts the rows of the history that fall in the group and add to the column. */
  lemma {:induction false} TallyCounts<K(!new)>(rows: seq<Feedback<K>>, q: Query, l: Labels<K>, v: K, col: Column,
      p: Feedback<K> -> bool)
    requires forall r :: p(r) <==> KeyOf(r, q, l) == Some(v) && Adds(r.outcome, col) == 1
    ensures Tally(Selected(rows, q, l), v, col) == CountWhere(rows, p)
  {
    if rows != [] {
      var init, last := rows[..|rows| - 1], rows[|rows| - 1];
      TallyCounts(init, q, l, v, col, p);
      CountLast(rows, p);
      var cs := Selected(rows, q, l);
      assert cs[..|cs| - 1] == Selected(init, q, l) && cs[|cs| - 1] == Counted(KeyOf(last, q, l), last.outcome);
    }
  }

  /** At least min rows, and the rate is reached. */
  predicate Reached(part: nat, total: nat, min: int, rate: real) {
    total >= min && part as real >= rate * total as real
  }

  predicate Negative(o: Outcome) {
    o.Dismissed? || o.Muted?
  }

  predicate Positive(o: Outcome) {
    o.Approved? || o.Sent?
  }

  lemma SuppressesIff(total: nat, negative: nat, o: Options)
    requires o.minFeedback > 0
    ensures Suppresses(total, negative, o) <==> Reached(negative, total, o.minFeedback, o.suppressRate)
  {
    if total > 0 {
      RateAtLeast(negative, total, o.suppressRate);
    }
  }

  lemma AdjustmentIs(total: nat, positive: nat, negative: nat, o: Options)
    requires o.minFeedback > 0
    ensures Adjustment(total, positive, negative, o) ==
      if Reached(positive, total, o.minFeedback, o.suppressRate) then Some(-o.step)
      else if Reached(negative, total, o.minFeedback, o.suppressRate) then Some(o.step)
      else None
  {
    if total > 0 {
      RateAtLeast(positive, total, o.suppressRate);
      RateAtLeast(negative, total, o.suppressRate);
    }
  }

  lemma AdjustmentAt<K(!new)>(cs: seq<Counted<K>>, o: Options, v: K)
    requires o.minFeedback > 0
    ensures v in Adjustments(cs, o) <==> GroupAdjustment(cs, v, o).Some?
    ensures v in Adjustments(cs, o) ==> Adjustments(cs, o)[v] == GroupAdjustment(cs, v, o).value
  {
    GroupHasRows(cs, v);
  }

  lemma SuppressedCounts<K(!new)>(rows: seq<Feedback<K>>, q: Query, l: Labels<K>, o: Options, v: K,
      all: Feedback<K> -> bool, negative: Feedback<K> -> bool)
    requires o.minFeedback > 0
    requires forall r :: all(r) <==> KeyOf(r, q, l) == Some(v)
    requires forall r :: negative(r) <==> KeyOf(r, q, l) == Some(v) && Negative(r.outcome)
    ensures v in Suppressed(Selected(rows, q, l), o) <==>
      Reached(CountWhere(rows, negative), CountWhere(rows, all), o.minFeedback, o.suppressRate)
  {
    TallyCounts(rows, q, l, v, Total, all);
    TallyCounts(rows, q, l, v, Negatives, negative);
    SuppressedByTally(Selected(rows, q, l), o, v);
    SuppressesIff(CountWhere(rows, all), CountWhere(rows, negative), o);
  }

  lemma {:induction false} NoGroup<K(!new)>(rows: seq<Feedback<K>>, q: Query, l: Labels<K>, v: K)
    requires forall r :: KeyOf(r, q, l) != Some(v)
    ensures v !in Groups(Selected(rows, q, l))
  {
    if rows != [] {
      NoGroup(rows[..|rows| - 1], q, l, v);
      var cs := Selected(rows, q, l);
      assert cs[..|cs| - 1] == Selected(rows[..|rows| - 1], q, l);
    }
  }

  /** A thread is suppressed exactly when enough of its rows outside direct conversations, and a large enough
      part of them, were dismissed or muted; operator_handled rows do not count. */
  lemma ThreadsMeaning<K(!new)>(rows: seq<Feedback<K>>, l: Labels<K>, opts: Options, v: K)
    ensures var all := (r: Feedback<K>) => r.thread == v && !IsDirect(r, l) && !r.outcome.OperatorHandled?;
      var negative := (r: Feedback<K>) => r.thread == v && !IsDirect(r, l) && Negative(r.outcome);
      v in Learned(rows, l, opts).threads <==>
        (&& v != l.empty
         && Reached(CountWhere(rows, negative), CountWhere(rows, all),
                    WithDefaults(opts).minFeedback, WithDefaults(opts).suppressRate))
  {
    var all := (r: Feedback<K>) => r.thread == v && !IsDirect(r, l) && !r.outcome.OperatorHandled?;
    var negative := (r: Feedback<K>) => r.thread == v && !IsDirect(r, l) && Negative(r.outcome);
    if v != l.empty {
      SuppressedCounts(rows, SuppressThreads, l, WithDefaults(opts), v, all, negative);
    } else {
      NoGroup(rows, SuppressThreads, l, v);
    }
  }

  /** The same for authors. */
  lemma AuthorsMeaning<K(!new)>(rows: seq<Feedback<K>>, l: Labels<K>, opts: Options, v: K)
    ensures var all := (r: Feedback<K>) => r.author == Some(v) && !IsDirect(r, l) && !r.outcome.OperatorHandled?;
      var negative := (r: Feedback<K>) => r.author == Some(v) && !IsDirect(r, l) && Negative(r.outcome);
      v in Learned(rows, l, opts).authors <==>
        Reached(CountWhere(rows, negative), CountWhere(rows, all),
                WithDefaults(opts).minFeedback, WithDefaults(opts).suppressRate)
  {
    var all := (r: Feedback<K>) => r.author == Some(v) && !IsDirect(r, l) && !r.outcome.OperatorHandled?;
    var negative := (r: Feedback<K>) => r.author == Some(v) && !IsDirect(r, l) && Negative(r.outcome);
    SuppressedCounts(rows, SuppressAuthors, l, WithDefaults(opts), v, all, negative);
  }

  /** An action's threshold is lowered by the step when enough of its rows were approved or sent, and else
      raised by it when enough were dismissed or muted. */
  lemma AdjustmentsMeaning<K(!new)>(rows: seq<Feedback<K>>, l: Labels<K>, opts: Options, v: K)
    ensures v == l.empty ==> v !in Learned(rows, l, opts).adjustments
    ensures v != l.empty ==>
      var o, adjusted := WithDefaults(opts), Learned(rows, l, opts).adjustments;
      var all := CountWhere(rows, (r: Feedback<K>) => r.action == v && !r.outcome.OperatorHandled?);
      var positive := CountWhere(rows, (r: Feedback<K>) => r.action == v && Positive(r.outcome));
      var negative := CountWhere(rows, (r: Feedback<K>) => r.action == v && Negative(r.outcome));
      if Reached(positive, all, o.minFeedback, o.suppressRate) then v in adjusted && adjusted[v] == -o.step
      else if Reached(negative, all, o.minFeedback, o.suppressRate) then v in adjusted && adjusted[v] == o.step
      else v !in adjusted
  {
    var o, cs := WithDefaults(opts), Selected(rows, Thresholds, l);
    var all := (r: Feedback<K>) => r.action == v && !r.outcome.OperatorHandled?;
    var positive := (r: Feedback<K>) => r.action == v && Positive(r.outcome);
    var negative := (r: Feedback<K>) => r.action == v && Negative(r.outcome);
    AdjustmentAt(cs, o, v);
    if v == l.empty {
      NoGroup(rows, Thresholds, l, v);
      return;
    }
    TallyCounts(rows, Thresholds, l, v, Total, all);
    TallyCounts(rows, Thresholds, l, v, Approvals, positive);
    TallyCounts(rows, Thresholds, l, v, Negatives, negative);
    AdjustmentIs(Tally(cs, v, Total), Tally(cs, v, Approvals), Tally(cs, v, Negatives), o);
  }

  // ---- what never moves the policy ----

  /** A row a query's WHERE clause drops changes none of its groups and none of their columns. */
  lemma DroppedRow<K(!new)>(a: seq<Counted<K>>, c: Counted<K>, b: seq<Counted<K>>)
    requires c.key.None?
    ensures Groups(a + [c] + b) == Groups(a + b)
    ensures forall v, col :: Tally(a + [c] + b, v, col) == Tally(a + b, v, col)
  {
    GroupsSplit(a + [c], b);
    GroupsSplit(a, b);
    assert (a + [c])[..|a|] == a;
    forall v, col ensures Tally(a + [c] + b, v, col) == Tally(a + b, v, col) {
      TallyInsert(a, c, b, v, col);
    }
  }

  lemma DroppedBySuppression<K(!new)>(a: seq<Feedback<K>>, r: Feedback<K>, b: seq<Feedback<K>>, q: Query,
      l: Labels<K>, o: Options)
    requires KeyOf(r, q, l).None? && o.minFeedback > 0
    ensures Suppressed(Selected(a + [r] + b, q, l), o) == Suppressed(Selected(a + b, q, l), o)
    ensures Adjustments(Selected(a + [r] + b, q, l), o) == Adjustments(Selected(a + b, q, l), o)
  {
    SelectedInsert(a, r, b, q, l);
    SelectedConcat(a, b, q, l);
    DroppedRow(Selected(a, q, l), Counted(KeyOf(r, q, l), r.outcome), Selected(b, q, l));
  }

  /** Calibration rows, inserted anywhere, leave the whole policy unchanged. */
  lemma OperatorHandledInvisible<K(!new)>(a: seq<Feedback<K>>, r: Feedback<K>, b: seq<Feedback<K>>, l: Labels<K>,
      opts: Options)
    requires r.outcome.OperatorHandled?
    ensures Learned(a + [r] + b, l, opts) == Learned(a + b, l, opts)
  {
    var o := WithDefaults(opts);
    DroppedBySuppression(a, r, b, SuppressThreads, l, o);
    DroppedBySuppression(a, r, b, SuppressAuthors, l, o);
    DroppedBySuppression(a, r, b, Thresholds, l, o);
  }

  /** Rows of direct conversations, inserted anywhere, leave both suppression sets unchanged. */
  lemma DirectRowsNeverSuppress<K(!new)>(a: seq<Feedback<K>>, r: Feedback<K>, b: seq<Feedback<K>>, l: Labels<K>,
      opts: Options)
    requires IsDirect(r, l)
    ensures Learned(a + [r] + b, l, opts).threads == Learned(a + b, l, opts).threads
    ensures Learned(a + [r] + b, l, opts).authors == Learned(a + b, l, opts).authors
  {
    DroppedBySuppression(a, r, b, SuppressThreads, l, WithDefaults(opts));
    DroppedBySuppression(a, r, b, SuppressAuthors, l, WithDefaults(opts));
  }

  /** In flow's own terms: rows of threads of type im or mpim. */
  lemma ImRowsNeverSuppress(a: seq<Feedback<string>>, r: Feedback<string>, b: seq<Feedback<string>>, opts: Options)
    requires r.threadType == Some("im") || r.threadType == Some("mpim")
    ensures Learned(a + [r] + b, FLOW_LABELS, opts).threads == Learned(a + b, FLOW_LABELS, opts).threads
    ensures Learned(a + [r] + b, FLOW_LABELS, opts).authors == Learned(a + b, FLOW_LABELS, opts).authors
  {
    DirectRowsNeverSuppress(a, r, b, FLOW_LABELS, opts);
  }

  // ---- monotonicity ----

  /** Dividing is comparing products. */
  lemma RateAtLeast(part: nat, total: nat, r: real)
    requires total > 0
    ensures Rate(part, total) >= r <==> part as real >= r * total as real
  {
  }

  /** A rate that part of a total reaches cannot exceed one. */
  lemma RateWithinOne(part: nat, total: nat, r: real)
    requires 0 < total && part <= total && part as real >= r * total as real
    ensures r <= 1.0
  {
    assert (1.0 - r) * total as real == total as real - r * total as real;
  }

  lemma RateGrows(part: nat, total: nat, r: real)
    requires 0 < total && part <= total && Rate(part, total) >= r
    ensures Rate(part + 1, total + 1) >= r
  {
    RateAtLeast(part, total, r);
    RateAtLeast(part + 1, total + 1, r);
    RateWithinOne(part, total, r);
    assert r * (total + 1) as real == r * total as real + r;
  }

  lemma RateFalls(part: nat, total: nat, r: real)
    requires 0 < total && r > 0.0 && Rate(part, total) < r
    ensures Rate(part, total + 1) < r
  {
    RateAtLeast(part, total, r);
    RateAtLeast(part, total + 1, r);
    assert r * (total + 1) as real == r * total as real + r;
  }

  lemma MoreNegativeKeeps(total: nat, negative: nat, o: Options)
    requires o.minFeedback > 0 && negative <= total && Suppresses(total, negative, o)
    ensures Suppresses(total + 1, negative + 1, o)
  {
    RateGrows(negative, total, o.suppressRate);
  }

  /** The next row completes the minimum and the dismissals reach the rate. */
  predicate Completes(total: nat, negative: nat, o: Options)
    requires o.minFeedback > 0
  {
    total + 1 == o.minFeedback && Rate(negative, o.minFeedback) >= o.suppressRate
  }

  lemma MoreOtherAdds(total: nat, negative: nat, o: Options)
    requires o.minFeedback > 0 && o.suppressRate > 0.0
    ensures (Suppresses(total + 1, negative, o) && !Suppresses(total, negative, o)) <==> Completes(total, negative, o)
  {
    if total >= o.minFeedback && Rate(negative, total) < o.suppressRate {
      RateFalls(negative, total, o.suppressRate);
    }
  }

  /** One more dismissed or muted row, wherever inserted and whatever group it counts in, never
      un-suppresses a thread or an author. */
  lemma NegativeNeverUnsuppresses<K(!new)>(a: seq<Feedback<K>>, r: Feedback<K>, b: seq<Feedback<K>>, q: Query,
      l: Labels<K>, o: Options)
    requires r.outcome.Dismissed? || r.outcome.Muted?
    requires o.minFeedback > 0
    ensures Suppressed(Selected(a + b, q, l), o) <= Suppressed(Selected(a + [r] + b, q, l), o)
  {
    SelectedInsert(a, r, b, q, l);
    SelectedConcat(a, b, q, l);
    NegativeKeeps(Selected(a, q, l), Counted(KeyOf(r, q, l), r.outcome), Selected(b, q, l), o);
  }

  lemma NegativeKeeps<K(!new)>(a: seq<Counted<K>>, c: Counted<K>, b: seq<Counted<K>>, o: Options)
    requires o.minFeedback > 0 && (c.outcome.Dismissed? || c.outcome.Muted?)
    ensures Suppressed(a + b, o) <= Suppressed(a + [c] + b, o)
  {
    forall v | v in Suppressed(a + b, o) ensures v in Suppressed(a + [c] + b, o) {
      SuppressedByTally(a + b, o, v);
      SuppressedByTally(a + [c] + b, o, v);
      GroupHasRows(a + b, v);
      TallyInsert(a, c, b, v, Total);
      TallyInsert(a, c, b, v, Negatives);
      if c.key == Some(v) {
        MoreNegativeKeeps(Tally(a + b, v, Total), Tally(a + b, v, Negatives), o);
      }
    }
  }

  /** One more row of any other outcome can suppress, but only by completing the minimum: exactly
      when it does and the dismissals already reach the rate. */
  lemma OtherRowSuppressesOnlyAtMinimum<K(!new)>(a: seq<Feedback<K>>, r: Feedback<K>, b: seq<Feedback<K>>, q: Query,
      l: Labels<K>, o: Options, v: K)
    requires KeyOf(r, q, l) == Some(v) && !r.outcome.Dismissed? && !r.outcome.Muted?
    requires o.minFeedback > 0 && o.suppressRate > 0.0
    ensures var before := Selected(a + b, q, l);
      (v in Suppressed(Selected(a + [r] + b, q, l), o) && v !in Suppressed(before, o)) <==>
      Completes(Tally(before, v, Total), Tally(before, v, Negatives), o)
  {
    SelectedInsert(a, r, b, q, l);
    SelectedConcat(a, b, q, l);
    OtherAdds(Selected(a, q, l), Counted(Some(v), r.outcome), Selected(b, q, l), o, v);
  }

  lemma SuppressedAfterOther<K(!new)>(a: seq<Counted<K>>, c: Counted<K>, b: seq<Counted<K>>, o: Options, v: K)
    requires c.key == Some(v) && !c.outcome.Dismissed? && !c.outcome.Muted? && o.minFeedback > 0
    ensures v in Suppressed(a + b, o) <==> Suppresses(Tally(a + b, v, Total), Tally(a + b, v, Negatives), o)
    ensures v in Suppressed(a + [c] + b, o) <==> Suppresses(Tally(a + b, v, Total) + 1, Tally(a + b, v, Negatives), o)
  {
    SuppressedByTally(a + b, o, v);
    SuppressedByTally(a + [c] + b, o, v);
    TallyInsert(a, c, b, v, Total);
    TallyInsert(a, c, b, v, Negatives);
  }

  lemma OtherAdds<K(!new)>(a: seq<Counted<K>>, c: Counted<K>, b: seq<Counted<K>>, o: Options, v: K)
    requires c.key == Some(v) && !c.outcome.Dismissed? && !c.outcome.Muted?
    requires o.minFeedback > 0 && o.suppressRate > 0.0
    ensures (v in Suppressed(a + [c] + b, o) && v !in Suppressed(a + b, o)) <==>
            Completes(Tally(a + b, v, Total), Tally(a + b, v, Negatives), o)
  {
    SuppressedAfterOther(a, c, b, o, v);
    MoreOtherAdds(Tally(a + b, v, Total), Tally(a + b, v, Negatives), o);
  }

  /** An approval never takes back a lowered threshold. */
  lemma MoreApprovedKeepsLowered(total: nat, approved: nat, negative: nat, o: Options)
    requires o.minFeedback > 0 && o.step > 0.0 && approved <= total
    requires Adjustment(total, approved, negative, o) == Some(-o.step)
    ensures Adjustment(total + 1, approved + 1, negative, o) == Some(-o.step)
  {
    RateGrows(approved, total, o.suppressRate);
  }

  /** A dismissal never takes back a raised one. */
  lemma MoreNegativeKeepsRaised(total: nat, approved: nat, negative: nat, o: Options)
    requires o.minFeedback > 0 && o.step > 0.0 && o.suppressRate > 0.0 && negative <= total
    requires Adjustment(total, approved, negative, o) == Some(o.step)
    ensures Adjustment(total + 1, approved, negative + 1, o) == Some(o.step)
  {
    RateFalls(approved, total, o.suppressRate);
    RateGrows(negative, total, o.suppressRate);
  }

  lemma {:induction false} ApprovedWithinTotal<K(!new)>(cs: seq<Counted<K>>, v: K)
    ensures Tally(cs, v, Approvals) <= Tally(cs, v, Total)
  {
    if cs != [] {
      ApprovedWithinTotal(cs[..|cs| - 1], v);
    }
  }

  /** One more approval, wherever inserted, never takes back an action's lowered threshold, and one more
      dismissal never takes back a raised one. */
  lemma AdjustmentsAreStable<K(!new)>(a: seq<Feedback<K>>, r: Feedback<K>, b: seq<Feedback<K>>, l: Labels<K>,
      o: Options, v: K)
    requires KeyOf(r, Thresholds, l) == Some(v)
    requires o.minFeedback > 0 && o.step > 0.0 && o.suppressRate > 0.0
    ensures var before, after := Selected(a + b, Thresholds, l), Selected(a + [r] + b, Thresholds, l);
      && (Adds(r.outcome, Approvals) == 1 && GroupAdjustment(before, v, o) == Some(-o.step) ==>
            GroupAdjustment(after, v, o) == Some(-o.step))
      && (Adds(r.outcome, Negatives) == 1 && GroupAdjustment(before, v, o) == Some(o.step) ==>
            GroupAdjustment(after, v, o) == Some(o.step))
  {
    SelectedInsert(a, r, b, Thresholds, l);
    SelectedConcat(a, b, Thresholds, l);
    AdjustmentAfter(Selected(a, Thresholds, l), Counted(Some(v), r.outcome), Selected(b, Thresholds, l), o, v);
  }

  lemma AdjustmentAfter<K(!new)>(a: seq<Counted<K>>, c: Counted<K>, b: seq<Counted<K>>, o: Options, v: K)
    requires c.key == Some(v) && o.minFeedback > 0 && o.step > 0.0 && o.suppressRate > 0.0
    ensures Adds(c.outcome, Approvals) == 1 && GroupAdjustment(a + b, v, o) == Some(-o.step) ==>
      GroupAdjustment(a + [c] + b, v, o) == Some(-o.step)
    ensures Adds(c.outcome, Negatives) == 1 && GroupAdjustment(a + b, v, o) == Some(o.step) ==>
      GroupAdjustment(a + [c] + b, v, o) == Some(o.step)
  {
    var total, approved, negative := Tally(a + b, v, Total), Tally(a + b, v, Approvals), Tally(a + b, v, Negatives);
    TallyInsert(a, c, b, v, Total);
    TallyInsert(a, c, b, v, Approvals);
    TallyInsert(a, c, b, v, Negatives);
    ApprovedWithinTotal(a + b, v);
    GroupHasRows(a + b, v);
    if Adds(c.outcome, Approvals) == 1 && Adjustment(total, approved, negative, o) == Some(-o.step) {
      MoreApprovedKeepsLowered(total, approved, negative, o);
    }
    if Adds(c.outcome, Negatives) == 1 && Adjustment(total, approved, negative, o) == Some(o.step) {
      MoreNegativeKeepsRaised(total, approved, negative, o);
    }
  }

  // ---- the report ----

  /** A column summed over a set of groups. */
  ghost function SumOver<K(!new)>(s: set<K>, cs: seq<Counted<K>>, col: Column): nat {
    if s == {} then 0
    else
      var v :| v in s;
      Tally(cs, v, col) + SumOver(s - {v}, cs, col)
  }

  /** The sum does not depend on the order in which groups are taken. */
  lemma {:induction false} SumTakeOut<K(!new)>(s: set<K>, cs: seq<Counted<K>>, col: Column, x: K)
    requires x in s
    ensures SumOver(s, cs, col) == Tally(cs, x, col) + SumOver(s - {x}, cs, col)
    decreases s
  {
    var v :| v in s && SumOver(s, cs, col) == Tally(cs, v, col) + SumOver(s - {v}, cs, col);
    if v != x {
      SumTakeOut(s - {v}, cs, col, x);
      SumTakeOut(s - {x}, cs, col, v);
      assert s - {v} - {x} == s - {x} - {v};
    }
  }

  /** One more row adds its own counts to the sum over any groups that contain its key. */
  lemma {:induction false} SumWithRow<K(!new)>(s: set<K>, init: seq<Counted<K>>, c: Counted<K>, col: Column)
    ensures SumOver(s, init + [c], col)
         == SumOver(s, init, col) + if c.key.Some? && c.key.value in s then Adds(c.outcome, col) else 0
    decreases s
  {
    if s != {} {
      var v :| v in s;
      SumTakeOut(s, init + [c], col, v);
      SumTakeOut(s, init, col, v);
      SumWithRow(s - {v}, init, c, col);
      assert (init + [c])[..|init|] == init;
    }
  }

  lemma {:induction false} NoRowsNoTally<K(!new)>(cs: seq<Counted<K>>, v: K, col: Column)
    requires v !in Groups(cs)
    ensures Tally(cs, v, col) == 0
  {
    if cs != [] {
      NoRowsNoTally(cs[..|cs| - 1], v, col);
    }
  }

  /** A group without rows adds nothing. */
  lemma SumWithEmptyGroup<K(!new)>(s: set<K>, cs: seq<Counted<K>>, col: Column, v: K)
    requires v !in Groups(cs) && v !in s
    ensures SumOver(s + {v}, cs, col) == SumOver(s, cs, col)
  {
    NoRowsNoTally(cs, v, col);
    SumTakeOut(s + {v}, cs, col, v);
    assert s + {v} - {v} == s;
  }

  /** The row shows v in the dimension; a value it lacks is shown as the label for none. */
  predicate ShownAs<K(==)>(r: Feedback<K>, dim: Dimension, v: K, none: K) {
    match dim
    case Source => r.source == v
    case Thread => r.thread == v
    case Action => r.action == v
    case Band => r.band == v
    case Channel => r.channel == Some(v) || (r.channel.None? && v == none)
    case Author => r.author == Some(v) || (r.author.None? && v == none)
    case ThreadType => r.threadType == Some(v) || (r.threadType.None? && v == none)
  }

  /** A line of the report counts the rows shown as its value: all of them, the approved or sent, the
      dismissed, the muted. */
  lemma ReportMeaning<K(!new)>(rows: seq<Feedback<K>>, dim: Dimension, l: Labels<K>, v: K)
    ensures var cs := Selected(rows, Report(dim), l);
      && Tally(cs, v, Total) ==
         CountWhere(rows, (r: Feedback<K>) => ShownAs(r, dim, v, l.none) && !r.outcome.OperatorHandled?)
      && Tally(cs, v, Approvals) ==
         CountWhere(rows, (r: Feedback<K>) => ShownAs(r, dim, v, l.none) && Positive(r.outcome))
      && Tally(cs, v, Dismissals) ==
         CountWhere(rows, (r: Feedback<K>) => ShownAs(r, dim, v, l.none) && r.outcome.Dismissed?)
      && Tally(cs, v, Mutes) ==
         CountWhere(rows, (r: Feedback<K>) => ShownAs(r, dim, v, l.none) && r.outcome.Muted?)
  {
    forall r: Feedback<K> ensures GroupOf(r, dim, l.none) == v <==> ShownAs(r, dim, v, l.none) {
    }
    TallyCounts(rows, Report(dim), l, v, Total,
                (r: Feedback<K>) => ShownAs(r, dim, v, l.none) && !r.outcome.OperatorHandled?);
    TallyCounts(rows, Report(dim), l, v, Approvals,
                (r: Feedback<K>) => ShownAs(r, dim, v, l.none) && Positive(r.outcome));
    TallyCounts(rows, Report(dim), l, v, Dismissals,
                (r: Feedback<K>) => ShownAs(r, dim, v, l.none) && r.outcome.Dismissed?);
    TallyCounts(rows, Report(dim), l, v, Mutes,
                (r: Feedback<K>) => ShownAs(r, dim, v, l.none) && r.outcome.Muted?);
  }

  /** A column of the whole history, without any grouping. */
  function Overall<K>(rows: seq<Feedback<K>>, col: Column): nat {
    if rows == [] then 0
    else
      var last := rows[|rows| - 1].outcome;
      Overall(rows[..|rows| - 1], col) + if last.OperatorHandled? then 0 else Adds(last, col)
  }

  /** Whatever the report groups by, each column sums to the same total: that of the history itself. */
  lemma {:induction false} ReportSumsAgree<K(!new)>(rows: seq<Feedback<K>>, dim: Dimension, l: Labels<K>, col: Column)
    ensures var cs := Selected(rows, Report(dim), l);
      SumOver(Groups(cs), cs, col) == Overall(rows, col)
  {
    if rows != [] {
      var before, last := rows[..|rows| - 1], rows[|rows| - 1];
      ReportSumsAgree(before, dim, l, col);
      var init, c := Selected(before, Report(dim), l), Counted(KeyOf(last, Report(dim), l), last.outcome);
      ReportStep(init, c, col);
      assert c.key.None? <==> last.outcome.OperatorHandled?;
    }
  }

  lemma ReportStep<K(!new)>(init: seq<Counted<K>>, c: Counted<K>, col: Column)
    ensures SumOver(Groups(init + [c]), init + [c], col)
         == SumOver(Groups(init), init, col) + if c.key.Some? then Adds(c.outcome, col) else 0
  {
    var cs := init + [c];
    assert cs[..|init|] == init && cs[|init|] == c;
    SumWithRow(Groups(cs), init, c, col);
    if c.key.Some? && c.key.value !in Groups(init) {
      assert Groups(cs) == Groups(init) + {c.key.value};
      SumWithEmptyGroup(Groups(init), init, col, c.key.value);
    } else {
      assert Groups(cs) == Groups(init);
    }
  }
}
