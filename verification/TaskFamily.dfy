/** Task families (internal/flowdb/brain_runs.go): the upward walk along parent_slug,
    with its cycle detection, against the downward recursive closure of a root. */
module TaskFamily {
  import opened Text

  /** The tasks table: each slug's stored parent_slug (None for NULL). */
  type Parents = map<string, Option<string>>

  /** The parent the walk follows from each slug; slugs without a row or with a blank parent have none. */
  type Links = map<string, string>

  function LinksOf(t: Parents): (m: Links)
    ensures forall s :: s in m <==> s in t && t[s].Some? && TrimSpace(t[s].value) != ""
    ensures forall s :: s in m ==> m[s] == TrimSpace(t[s].value)
  {
    map s | s in t && t[s].Some? && TrimSpace(t[s].value) != "" :: TrimSpace(t[s].value)
  }

  /** The row's parent_slug as the walk reads it. */
  method ReadParent(t: Parents, s: string) returns (p: Option<string>)
    requires s in t
    ensures p == if s in LinksOf(t) then Some(LinksOf(t)[s]) else None
  {
    match t[s]
    case None => return None;
    case Some(raw) =>
      var parent := TrimSpace(raw);
      return if parent == "" then None else Some(parent);
  }

  datatype WalkResult = Root(slug: string) | Cycle(at: string) | NotFound | NoSlug

  /** The slug reached from s in n steps. */
  function Ancestor(m: Links, s: string, n: nat): Option<string> {
    if n == 0 then Some(s)
    else
      match Ancestor(m, s, n - 1)
      case Some(a) => if a in m then Some(m[a]) else None
      case None => None
  }

  ghost predicate EndsAt(m: Links, s: string, root: string) {
    root !in m && exists n: nat :: Ancestor(m, s, n) == Some(root)
  }

  /** x is the first slug the walk from s visits twice. */
  ghost predicate RevisitsAt(m: Links, s: string, x: string) {
    exists j: nat :: RevisitsAtStep(m, s, x, j)
  }

  ghost predicate RevisitsAtStep(m: Links, s: string, x: string, j: nat) {
    && Ancestor(m, s, j) == Some(x)
    && (exists i: nat :: i < j && Ancestor(m, s, i) == Some(x))
    && forall k: nat, l: nat :: k < l < j ==> Ancestor(m, s, k) != Ancestor(m, s, l)
  }

  ghost predicate Revisits(m: Links, s: string) {
    exists x :: RevisitsAt(m, s, x)
  }

  /** Once the chain has stopped it stays stopped. */
  lemma {:induction false} ChainStops(m: Links, s: string, i: nat, n: nat)
    requires i <= n && Ancestor(m, s, i).None?
    ensures Ancestor(m, s, n).None?
  {
    if i < n {
      ChainStops(m, s, i, n - 1);
    }
  }

  lemma {:induction false} ChainRepeats(m: Links, s: string, i: nat, j: nat, k: nat)
    requires Ancestor(m, s, i) == Ancestor(m, s, j)
    ensures Ancestor(m, s, i + k) == Ancestor(m, s, j + k)
  {
    if k > 0 {
      ChainRepeats(m, s, i, j, k - 1);
      assert Ancestor(m, s, i + k) == match Ancestor(m, s, i + (k - 1))
                                      case Some(a) => if a in m then Some(m[a]) else None
                                      case None => None;
      assert Ancestor(m, s, j + k) == match Ancestor(m, s, j + (k - 1))
                                      case Some(a) => if a in m then Some(m[a]) else None
                                      case None => None;
    }
  }

  /** A chain that stops after n steps visits no slug twice. */
  lemma StopExcludesRepeat(m: Links, s: string, n: nat, i: nat, j: nat)
    requires Ancestor(m, s, n).Some? && Ancestor(m, s, n + 1).None? && i < j
    ensures Ancestor(m, s, j).None? || Ancestor(m, s, i) != Ancestor(m, s, j)
  {
    if j > n {
      ChainStops(m, s, n + 1, j);
    } else if Ancestor(m, s, i) == Ancestor(m, s, j) {
      var k := n + 1 - j;
      ChainRepeats(m, s, i, j, k);
      assert Ancestor(m, s, i + k).None?;
      ChainStops(m, s, i + k, n);
    }
  }

  /** A walk that ends never revisits, so the two outcomes exclude each other. */
  lemma EndExcludesRevisit(m: Links, s: string, root: string)
    requires EndsAt(m, s, root)
    ensures !Revisits(m, s)
  {
    var n: nat :| Ancestor(m, s, n) == Some(root);
    forall x, j: nat ensures !RevisitsAtStep(m, s, x, j) {
      forall i: nat | i < j ensures Ancestor(m, s, j).None? || Ancestor(m, s, i) != Ancestor(m, s, j) {
        StopExcludesRepeat(m, s, n, i, j);
      }
    }
  }

  lemma EndIsUnique(m: Links, s: string, a: string, b: string)
    requires EndsAt(m, s, a) && EndsAt(m, s, b)
    ensures a == b
  {
    var i: nat :| Ancestor(m, s, i) == Some(a);
    var j: nat :| Ancestor(m, s, j) == Some(b);
    StopsAfter(m, s, a, i, j);
    StopsAfter(m, s, b, j, i);
  }

  lemma StopsAfter(m: Links, s: string, root: string, i: nat, j: nat)
    requires Ancestor(m, s, i) == Some(root) && root !in m
    ensures i < j ==> Ancestor(m, s, j).None?
  {
    assert Ancestor(m, s, i + 1).None?;
    if i < j {
      ChainStops(m, s, i + 1, j);
    }
  }

  /** TaskFamilyRoot. The walk ends on every finite table; it reports a cycle exactly when it
      revisits a slug, and otherwise the slug it ends at, which need not have a row. */
  method TaskFamilyRoot(t: Parents, taskSlug: string) returns (r: WalkResult)
    ensures var s := TrimSpace(taskSlug);
      && (r.NoSlug? <==> s == "")
      && (r.NotFound? <==> s != "" && s !in t)
      && (r.Root? ==> EndsAt(LinksOf(t), s, r.slug))
      && (r.Cycle? ==> RevisitsAt(LinksOf(t), s, r.at))
      && (r.Cycle? <==> s != "" && s in t && Revisits(LinksOf(t), s))
  {
    var s := TrimSpace(taskSlug);
    if s == "" {
      return NoSlug;
    }
    r := WalkUp(t, s);
  }

  /** What the walk from a nonblank slug may report. */
  ghost predicate Describes(m: Links, s: string, r: WalkResult) {
    && (r.Root? ==> EndsAt(m, s, r.slug) && !Revisits(m, s))
    && (r.Cycle? ==> RevisitsAt(m, s, r.at))
  }

  method WalkUp(t: Parents, s: string) returns (r: WalkResult)
    ensures !r.NoSlug? && (r.NotFound? <==> s !in t)
    ensures Describes(LinksOf(t), s, r)
  {
    var current := s;
    var seen: set<string> := {};
    ghost var m := LinksOf(t);
    ghost var path: seq<string> := [];
    var first := true;
    while true
      invariant Walked(m, s, path, current, seen)
      invariant seen <= t.Keys
      invariant if first then current == s else s in t
      invariant s in seen ==> !first
      decreases t.Keys - seen
    {
      if current in seen {
        PathRevisits(m, s, path, current);
        return Cycle(current);
      }
      if current !in t {
        if first {
          return NotFound;
        }
        PathEnds(m, s, path, current);
        return Root(current);
      }
      first := false;
      var parent := ReadParent(t, current);
      if parent.None? {
        PathEnds(m, s, path, current);
        return Root(current);
      }
      ExtendPath(m, s, path, current, seen);
      path, seen := path + [current], seen + {current};
      current := parent.value;
    }
  }

  /** path lists the distinct slugs seen before current, in the order of the walk. */
  ghost predicate Walked(m: Links, s: string, path: seq<string>, current: string, seen: set<string>) {
    && IsPath(m, s, path + [current])
    && (forall k, l :: 0 <= k < l < |path| ==> path[k] != path[l])
    && forall x :: x in seen <==> x in path
  }

  /** path lists the slugs of the first |path| steps. */
  ghost predicate IsPath(m: Links, s: string, path: seq<string>) {
    forall k: nat :: k < |path| ==> Ancestor(m, s, k) == Some(path[k])
  }

  lemma PathRevisits(m: Links, s: string, path: seq<string>, current: string)
    requires IsPath(m, s, path + [current]) && current in path
    requires forall k, l :: 0 <= k < l < |path| ==> path[k] != path[l]
    ensures RevisitsAt(m, s, current) && Revisits(m, s)
  {
    var longer := path + [current];
    var i: nat :| i < |path| && path[i] == current;
    assert Ancestor(m, s, i) == Some(longer[i]);
    assert Ancestor(m, s, |path|) == Some(longer[|path|]);
    forall k: nat, l: nat | k < l < |path| ensures Ancestor(m, s, k) != Ancestor(m, s, l) {
      assert Ancestor(m, s, k) == Some(longer[k]) && Ancestor(m, s, l) == Some(longer[l]);
    }
    assert RevisitsAtStep(m, s, current, |path|);
    assert RevisitsAt(m, s, current);
  }

  lemma PathEnds(m: Links, s: string, path: seq<string>, current: string)
    requires IsPath(m, s, path + [current]) && current !in m
    ensures EndsAt(m, s, current) && !Revisits(m, s)
  {
    assert Ancestor(m, s, |path|) == Some((path + [current])[|path|]);
    EndExcludesRevisit(m, s, current);
  }

  // ---- the downward closure ----

  /** One round of the recursive join: rows whose stored parent is a known slug. */
  function Children(t: Parents, known: set<string>): set<string> {
    set s | s in t && t[s].Some? && t[s].value in known
  }

  function Closure(t: Parents, known: set<string>): (r: set<string>)
    requires known <= t.Keys
    ensures known <= r <= t.Keys && Children(t, r) <= r
    decreases t.Keys - known
  {
    if Children(t, known) <= known then known else Closure(t, known + Children(t, known))
  }

  /** listTaskFamily: the slugs of the recursive query (their order is not modelled). */
  function Family(t: Parents, root: string): (r: set<string>)
    ensures root in t ==> root in r
  {
    if root in t then Closure(t, {root}) else {}
  }

  /** The closure is the smallest closed set: every property closed under "child of" holds on it. */
  lemma {:induction false} ClosureLeast(t: Parents, known: set<string>, closed: set<string>)
    requires known <= t.Keys && known <= closed && Children(t, closed) <= closed
    ensures Closure(t, known) <= closed
    decreases t.Keys - known
  {
    if !(Children(t, known) <= known) {
      ClosureLeast(t, known + Children(t, known), closed);
    }
  }

  /** Slugs are stored without surrounding space and are not blank. */
  ghost predicate TidySlugs(t: Parents) {
    forall s :: s in t ==> s != "" && TrimSpace(s) == s
  }

  /** A stored parent with surrounding space: the walk trims it, the join does not. */
  predicate PaddedParent(t: Parents, s: string) {
    s in LinksOf(t) && t[s].value != LinksOf(t)[s]
  }

  predicate IsRoot(t: Parents, r: string) {
    r in t && r !in LinksOf(t)
  }

  lemma {:induction false} AncestorShift(m: Links, s: string, n: nat)
    requires s in m
    ensures Ancestor(m, s, n + 1) == Ancestor(m, m[s], n)
  {
    if n > 0 {
      AncestorShift(m, s, n - 1);
    }
  }

  lemma ChildEndsWithParent(m: Links, s: string, root: string)
    requires s in m && EndsAt(m, m[s], root)
    ensures EndsAt(m, s, root)
  {
    var n: nat :| Ancestor(m, m[s], n) == Some(root);
    AncestorShift(m, s, n);
  }

  /** Whatever the closure of a root lists, the walk from it ends at that root. */
  lemma FamilyWalksToRoot(t: Parents, root: string)
    requires TidySlugs(t) && IsRoot(t, root)
    ensures forall s :: s in Family(t, root) ==> EndsAt(LinksOf(t), s, root)
  {
    var m := LinksOf(t);
    var ends := set s | s in t && EndsAt(m, s, root);
    assert Ancestor(m, root, 0) == Some(root);
    forall s | s in Children(t, ends) ensures s in ends {
      ChildEndsWithParent(m, s, root);
    }
    ClosureLeast(t, {root}, ends);
  }

  /** A walk through unpadded parents only stays inside the closure of the root it ends at. */
  lemma {:induction false} WalkStaysInFamily(t: Parents, s: string, root: string, n: nat)
    requires IsRoot(t, root) && s in t && Ancestor(LinksOf(t), s, n) == Some(root)
    requires forall x :: EndsAt(LinksOf(t), x, root) ==> !PaddedParent(t, x)
    ensures s in Family(t, root)
    decreases n
  {
    var m := LinksOf(t);
    if n > 0 {
      assert EndsAt(m, s, root);
      assert s in m by {
        if s !in m { StopsAfter(m, s, s, 0, n); }
      }
      AncestorShift(m, s, n - 1);
      if n == 1 { assert m[s] == root; }
      else if m[s] !in t { StopsAfter(m, m[s], m[s], 0, n - 1); }
      WalkStaysInFamily(t, m[s], root, n - 1);
      assert s in Children(t, Family(t, root));
    }
  }

  /** Walk and closure agree on an existing parentless root, for every task of the table, exactly
      when no task whose walk ends at that root stores a padded parent. */
  lemma WalkAgreesWithFamily(t: Parents, root: string)
    requires TidySlugs(t) && IsRoot(t, root)
    ensures (forall s :: s in t ==> (s in Family(t, root) <==> EndsAt(LinksOf(t), s, root)))
       <==> (forall s :: EndsAt(LinksOf(t), s, root) ==> !PaddedParent(t, s))
  {
    var m := LinksOf(t);
    FamilyWalksToRoot(t, root);
    if forall s :: EndsAt(m, s, root) ==> !PaddedParent(t, s) {
      forall s | s in t && EndsAt(m, s, root) ensures s in Family(t, root) {
        var n: nat :| Ancestor(m, s, n) == Some(root);
        WalkStaysInFamily(t, s, root, n);
      }
    }
    forall s | PaddedParent(t, s) ensures s !in Family(t, root) {
      PaddedIsNoChild(t, s, root);
    }
  }

  /** The join never finds a task with a padded parent: no slug equals the padded text. */
  lemma PaddedIsNoChild(t: Parents, s: string, root: string)
    requires TidySlugs(t) && IsRoot(t, root) && PaddedParent(t, s)
    ensures s !in Family(t, root)
  {
    assert s !in Children(t, t.Keys);
    ClosureLeast(t, {root}, t.Keys - {s});
  }

  /** On a table without padded parents every task is in exactly one root's family, unless its
      walk meets a missing row or a cycle. */
  lemma FamiliesPartition(t: Parents, s: string)
    requires TidySlugs(t) && s in t && forall x :: !PaddedParent(t, x)
    ensures forall a, b :: IsRoot(t, a) && IsRoot(t, b) && s in Family(t, a) && s in Family(t, b) ==> a == b
    ensures (exists r :: IsRoot(t, r) && s in Family(t, r))
       <==> !Revisits(LinksOf(t), s) && !exists x :: x !in t && EndsAt(LinksOf(t), s, x)
  {
    var m := LinksOf(t);
    forall a | IsRoot(t, a) ensures s in Family(t, a) <==> EndsAt(m, s, a) {
      WalkAgreesWithFamily(t, a);
    }
    forall a, b | EndsAt(m, s, a) && EndsAt(m, s, b) ensures a == b {
      EndIsUnique(m, s, a, b);
    }
    WalkIsTotal(m, s);
    if root :| EndsAt(m, s, root) {
      EndExcludesRevisit(m, s, root);
    }
  }

  // ---- tables that meet the reference constraint ----

  /** parent_slug REFERENCES tasks(slug). */
  ghost predicate References(t: Parents) {
    forall s :: s in t && t[s].Some? ==> t[s].value in t
  }

  lemma {:induction false} WalkStaysIn(m: Links, slugs: set<string>, s: string, n: nat)
    requires s in slugs && forall x :: x in m ==> m[x] in slugs
    ensures Ancestor(m, s, n).Some? ==> Ancestor(m, s, n).value in slugs
  {
    if n > 0 {
      WalkStaysIn(m, slugs, s, n - 1);
    }
  }

  lemma LinksStayInTable(t: Parents)
    requires References(t) && TidySlugs(t)
    ensures forall x :: x in LinksOf(t) ==> LinksOf(t)[x] in t
    ensures forall x :: !PaddedParent(t, x)
  {
    forall x | x in LinksOf(t) ensures LinksOf(t)[x] == t[x].value && t[x].value in t {
      assert TrimSpace(t[x].value) == t[x].value;
    }
  }

  /** Where the constraint holds no parent is padded, and walk and closure agree on every root. */
  lemma ReferencedTablesAgree(t: Parents, root: string)
    requires TidySlugs(t) && References(t) && IsRoot(t, root)
    ensures forall s :: s in t ==> (s in Family(t, root) <==> EndsAt(LinksOf(t), s, root))
  {
    LinksStayInTable(t);
    WalkAgreesWithFamily(t, root);
  }

  /** And every task is in exactly one root's family, unless its walk meets a cycle. */
  lemma ReferencedFamiliesPartition(t: Parents, s: string)
    requires TidySlugs(t) && References(t) && s in t
    ensures forall a, b :: IsRoot(t, a) && IsRoot(t, b) && s in Family(t, a) && s in Family(t, b) ==> a == b
    ensures (exists r :: IsRoot(t, r) && s in Family(t, r)) <==> !Revisits(LinksOf(t), s)
  {
    LinksStayInTable(t);
    forall x | EndsAt(LinksOf(t), s, x) ensures x in t {
      var n: nat :| Ancestor(LinksOf(t), s, n) == Some(x);
      WalkStaysIn(LinksOf(t), t.Keys, s, n);
    }
    FamiliesPartition(t, s);
  }

  /** A table that breaks the constraint: the stored parent of b is a with space around it. The walk from b
      ends at a, whose family does not list b. */
  lemma PaddedParentDiverges(a: string, b: string, padded: string)
    requires a != "" && a != b && TrimSpace(padded) == a && padded != a
    ensures var t: Parents := map[a := None, b := Some(padded)];
      IsRoot(t, a) && EndsAt(LinksOf(t), b, a) && b !in Family(t, a)
  {
    TwoLinks(a, b, padded);
    OneStepEnds(map[b := a], a, b);
    AloneInFamily(a, b, padded);
  }

  lemma TwoLinks(a: string, b: string, padded: string)
    requires a != "" && a != b && TrimSpace(padded) == a
    ensures var t: Parents := map[a := None, b := Some(padded)];
      LinksOf(t) == map[b := a]
  {
  }

  lemma OneStepEnds(m: Links, a: string, b: string)
    requires b in m && m[b] == a && a !in m
    ensures EndsAt(m, b, a)
  {
    assert Ancestor(m, a, 0) == Some(a);
    ChildEndsWithParent(m, b, a);
  }

  lemma AloneInFamily(a: string, b: string, padded: string)
    requires a != b && padded != a
    ensures var t: Parents := map[a := None, b := Some(padded)];
      Family(t, a) == {a}
  {
    var t: Parents := map[a := None, b := Some(padded)];
    assert Children(t, {a}) == {};
  }

  /** With a the letter a, b the letter b and padded " a". */
  lemma PaddedSlug() returns (a: string, b: string, padded: string)
    ensures a != "" && a != b && TrimSpace(padded) == a && padded != a
  {
    a, b, padded := "a", "b", " a";
    assert a[0] != b[0] && |padded| != |a|;
    assert TrimLeftSpace(" a") == "a";
  }

  /** Such tables exist. */
  lemma PaddedParentExists() returns (t: Parents, a: string, b: string)
    ensures IsRoot(t, a) && EndsAt(LinksOf(t), b, a) && b in t && b !in Family(t, a)
  {
    var padded: string;
    a, b, padded := PaddedSlug();
    t := map[a := None, b := Some(padded)];
    PaddedParentDiverges(a, b, padded);
  }

  /** Every walk ends or revisits. */
  lemma WalkIsTotal(m: Links, s: string)
    ensures Revisits(m, s) || exists root :: EndsAt(m, s, root)
  {
    WalkOn(m, s, [], s, {});
  }

  lemma {:induction false} WalkOn(m: Links, s: string, path: seq<string>, current: string, seen: set<string>)
    requires Walked(m, s, path, current, seen) && seen <= m.Keys
    ensures Revisits(m, s) || exists root :: EndsAt(m, s, root)
    decreases m.Keys - seen
  {
    if current in seen {
      PathRevisits(m, s, path, current);
    } else if current !in m {
      PathEnds(m, s, path, current);
    } else {
      ExtendPath(m, s, path, current, seen);
      WalkOn(m, s, path + [current], m[current], seen + {current});
    }
  }

  lemma ExtendPath(m: Links, s: string, path: seq<string>, current: string, seen: set<string>)
    requires Walked(m, s, path, current, seen) && current in m && current !in seen
    ensures Walked(m, s, path + [current], m[current], seen + {current})
  {
    var p, longer := path + [current], path + [current] + [m[current]];
    assert Ancestor(m, s, |path|) == Some(p[|path|]);
    assert Ancestor(m, s, |p|) == Some(m[current]);
    assert forall k: nat :: k < |p| ==> longer[k] == p[k];
  }
}
