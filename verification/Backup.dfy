/** Restoring a tracked file from the append-only backup history (internal/app/backup.go,
    internal/flowbackup/flowbackup.go). A commit is the tree of tracked files it records; the module
    is generic in file names P and contents C. */
module Backup {
  import opened Text

  type Tree<P, C> = map<P, C>

  /** The history, oldest commit first ([] before the repository exists), and the tracked files on disk. */
  datatype Repo<P, C> = Repo(history: seq<Tree<P, C>>, disk: Tree<P, C>)

  datatype Outcome = NoHistory | NothingToRestore | RestoreFailed | Restored(rev: nat)

  /** What reading a file gives: nothing when it is missing, since the read error is ignored. */
  function ReadFile<P(==), C>(disk: Tree<P, C>, p: P, empty: C): C {
    if p in disk then disk[p] else empty
  }

  /** Commit i changes file p: it adds, rewrites or deletes it. */
  predicate Touches<P(==), C(==)>(h: seq<Tree<P, C>>, p: P, i: nat)
    requires i < |h|
  {
    if i == 0 then p in h[0]
    else (p in h[i]) != (p in h[i - 1]) || (p in h[i] && h[i][p] != h[i - 1][p])
  }

  /** A version of p that the default restore would take when the file reads cur. */
  predicate Differing<P(==), C(==)>(h: seq<Tree<P, C>>, p: P, cur: C, i: nat) {
    i < |h| && Touches(h, p, i) && p in h[i] && h[i][p] != cur
  }

  /** The newest such version among the first n commits. */
  function NewestDiffering<P(==), C(==)>(h: seq<Tree<P, C>>, n: nat, p: P, cur: C): (r: Option<nat>)
    requires n <= |h|
    ensures r.Some? ==> r.value < n && Differing(h, p, cur, r.value)
    ensures forall i: nat :: i < n && Differing(h, p, cur, i) ==> r.Some? && i <= r.value
  {
    if n == 0 then None
    else if Differing(h, p, cur, n - 1) then Some(n - 1)
    else NewestDiffering(h, n - 1, p, cur)
  }

  function WithRepo<P, C>(h: seq<Tree<P, C>>): (r: seq<Tree<P, C>>)
    ensures r != []
  {
    if h == [] then [map[]] else h
  }

  /** The repository after a checkpoint: no commit when nothing changed. */
  function Checkpointed<P(==), C(==)>(s: Repo<P, C>): Repo<P, C> {
    var h := WithRepo(s.history);
    if s.disk == h[|h| - 1] then Repo(h, s.disk) else Repo(h + [s.disk], s.disk)
  }

  /** The commit can be shown, and records the file. */
  predicate Shows<P(==), C>(h: seq<Tree<P, C>>, src: Option<P>, rev: nat) {
    rev < |h| && src.Some? && src.value in h[rev]
  }

  /** The repository after restoring p from commit rev. The content is taken from the file src, which the
      source finds by normalizing the path once more (None when no file can have that path). */
  function RestoredAt<P(==), C(==)>(s: Repo<P, C>, p: P, src: Option<P>, rev: nat): Repo<P, C> {
    if s.history == [] then s
    else
      var before := Checkpointed(s);
      if Shows(before.history, src, rev) then
        Checkpointed(Repo(before.history, before.disk[p := before.history[rev][src.value]]))
      else before
  }

  /** The revision the default restore takes. The current content is read from the file that the argument
      names when joined to the root (raw); the history and the restore use the one that its normalized
      form names (rel). */
  function DefaultRev<P(==), C(==)>(s: Repo<P, C>, raw: P, rel: P, empty: C): Option<nat> {
    NewestDiffering(s.history, |s.history|, rel, ReadFile(s.disk, raw, empty))
  }

  function DefaultRestored<P(==), C(==)>(s: Repo<P, C>, raw: P, rel: P, src: Option<P>, empty: C): Repo<P, C> {
    var rev := DefaultRev(s, raw, rel, empty);
    if rev.None? then s else RestoredAt(s, rel, src, rev.value)
  }

  /** Newest first. */
  predicate Descending(commits: seq<nat>) {
    forall j, k :: 0 <= j < k < |commits| ==> commits[k] < commits[j]
  }

  class BackupStore<P(==,!new), C(==,!new)> {
    var history: seq<Tree<P, C>>
    var disk: Tree<P, C>
    const empty: C

    constructor (disk: Tree<P, C>, empty: C)
      ensures this.history == [] && this.disk == disk && this.empty == empty
    {
      this.history := [];
      this.disk := disk;
      this.empty := empty;
    }

    function Value(): Repo<P, C>
      reads this
    {
      Repo(history, disk)
    }

    method Checkpoint() returns (committed: bool)
      modifies this`history
      ensures Value() == Checkpointed(old(Value()))
      ensures committed <==> disk != (if old(history) == [] then map[] else old(history)[|old(history)| - 1])
    {
      if history == [] {
        history := [map[]];
      }
      committed := disk != history[|history| - 1];
      if committed {
        history := history + [disk];
      }
    }

    /** The commits that touch p, newest first. */
    method Log(p: P) returns (commits: seq<nat>)
      ensures Descending(commits)
      ensures forall i: nat :: i in commits <==> i < |history| && Touches(history, p, i)
    {
      commits := [];
      var n := |history|;
      while n > 0
        invariant n <= |history| && Descending(commits)
        invariant forall j :: 0 <= j < |commits| ==> n <= commits[j]
        invariant forall i: nat :: i in commits <==> n <= i < |history| && Touches(history, p, i)
      {
        n := n - 1;
        if Touches(history, p, n) {
          commits := commits + [n];
        }
      }
    }

    method Restore(rel: P, src: Option<P>, rev: nat) returns (ok: bool)
      modifies this
      ensures Value() == RestoredAt(old(Value()), rel, src, rev)
      ensures ok <==> old(history) != [] && Shows(Checkpointed(old(Value())).history, src, rev)
    {
      if history == [] {
        return false;
      }
      var _ := Checkpoint();
      if rev >= |history| || src.None? || src.value !in history[rev] {
        return false;
      }
      disk := disk[rel := history[rev][src.value]];
      var _ := Checkpoint();
      ok := true;
    }

    /** `flow backup restore <relpath>` without --at. */
    method RestoreDefault(raw: P, rel: P, src: Option<P>) returns (outcome: Outcome)
      modifies this
      ensures Value() == DefaultRestored(old(Value()), raw, rel, src, empty)
      ensures var rev := DefaultRev(old(Value()), raw, rel, empty);
        if rev.Some? then
          outcome == if Shows(old(history), src, rev.value) then Restored(rev.value) else RestoreFailed
        else
          outcome == if exists i: nat :: i < |old(history)| && Touches(old(history), rel, i) then NothingToRestore
                     else NoHistory
    {
      ghost var s := Value();
      var commits := Log(rel);
      if |commits| == 0 {
        return NoHistory;
      }
      assert commits[0] in commits;
      var cur := ReadFile(disk, raw, empty);
      var k := 0;
      while k < |commits|
        invariant 0 <= k <= |commits| && Value() == s
        invariant forall j :: 0 <= j < k ==> !Differing(history, rel, cur, commits[j])
      {
        var c := commits[k];
        assert c in commits;
        if rel in history[c] && history[c][rel] != cur {
          NewestIs(history, rel, cur, commits, k);
          RevStays(s, c);
          var ok := Restore(rel, src, c);
          return if ok then Restored(c) else RestoreFailed;
        }
        k := k + 1;
      }
      outcome := NothingToRestore;
    }
  }

  /** Scanning the log newest first finds the newest differing version. */
  lemma NewestIs<P(!new), C(!new)>(h: seq<Tree<P, C>>, p: P, cur: C, commits: seq<nat>, k: nat)
    requires k < |commits| && Descending(commits)
    requires forall i: nat :: i in commits <==> i < |h| && Touches(h, p, i)
    requires forall j :: 0 <= j < k ==> !Differing(h, p, cur, commits[j])
    requires Differing(h, p, cur, commits[k])
    ensures NewestDiffering(h, |h|, p, cur) == Some(commits[k])
  {
    var r := NewestDiffering(h, |h|, p, cur).value;
    assert r in commits;
    var j :| 0 <= j < |commits| && commits[j] == r;
    assert j >= k;
  }

  /** A recorded version is the same after the pre-restore checkpoint. */
  lemma RevStays<P(!new), C(!new)>(s: Repo<P, C>, rev: nat)
    requires rev < |s.history|
    ensures var h := Checkpointed(s).history;
      rev < |h| && h[rev] == s.history[rev]
  {
  }

  // ---- restoring twice ----

  /** The last commit that touched a file the newest tree has recorded the content it has there. */
  lemma {:induction false} LastTouch<P(!new), C(!new)>(h: seq<Tree<P, C>>, n: nat, p: P) returns (j: nat)
    requires n < |h| && p in h[n]
    ensures j <= n && Touches(h, p, j) && p in h[j] && h[j][p] == h[n][p]
    ensures forall i: nat :: j < i <= n ==> !Touches(h, p, i)
  {
    if Touches(h, p, n) {
      j := n;
    } else {
      j := LastTouch(h, n - 1, p);
    }
  }

  /** The newest version that differs from cur, when the newest tree's own version does. */
  lemma NewestIsLast<P(!new), C(!new)>(h: seq<Tree<P, C>>, n: nat, p: P, cur: C)
    requires n < |h| && p in h[n] && h[n][p] != cur
    ensures var r := NewestDiffering(h, n + 1, p, cur);
      r.Some? && h[r.value][p] == h[n][p]
  {
    var j := LastTouch(h, n, p);
    assert Differing(h, p, cur, j);
  }

  /** The tree a restore leaves, and the history it leaves behind it. */
  lemma RestoreEffect<P(!new), C(!new)>(s: Repo<P, C>, p: P, src: P, rev: nat)
    requires Shows(s.history, Some(src), rev)
    ensures var after := RestoredAt(s, p, Some(src), rev);
      && after.disk == s.disk[p := s.history[rev][src]]
      && Checkpointed(s).history <= after.history && after.history[|after.history| - 1] == after.disk
      && (s.disk != after.disk ==> after.history == Checkpointed(s).history + [after.disk])
  {
  }

  lemma CheckpointRecords<P(!new), C(!new)>(s: Repo<P, C>)
    ensures var h := Checkpointed(s).history;
      h != [] && h[|h| - 1] == s.disk
  {
  }

  /** Restoring a file that reads back what it held: the second restore takes the first back. */
  lemma RestoreTwiceExisting<P(!new), C(!new)>(s: Repo<P, C>, p: P, empty: C)
    requires p in s.disk
    ensures DefaultRestored(DefaultRestored(s, p, p, Some(p), empty), p, p, Some(p), empty).disk == s.disk
  {
    var rev := DefaultRev(s, p, p, empty);
    if rev.Some? {
      var once := DefaultRestored(s, p, p, Some(p), empty);
      var h, n := once.history, |Checkpointed(s).history|;
      RestoreEffect(s, p, p, rev.value);
      CheckpointRecords(s);
      assert h[n - 1] == s.disk && h[n] == once.disk;
      NewestIsLast(h, n - 1, p, once.disk[p]);
      assert !Differing(h, p, once.disk[p], n);
      assert NewestDiffering(h, n + 1, p, once.disk[p]) == NewestDiffering(h, n, p, once.disk[p]);
      RestoreEffect(once, p, p, DefaultRev(once, p, p, empty).value);
      assert once.disk[p := s.disk[p]] == s.disk;
    }
  }

  /** When the two readings name different files, the second restore repeats the first. */
  lemma RestoreTwiceOther<P(!new), C(!new)>(s: Repo<P, C>, raw: P, rel: P, empty: C)
    requires raw != rel && DefaultRev(s, raw, rel, empty).Some?
    ensures var v := s.history[DefaultRev(s, raw, rel, empty).value][rel];
      DefaultRestored(DefaultRestored(s, raw, rel, Some(rel), empty), raw, rel, Some(rel), empty).disk
      == s.disk[rel := v]
  {
    var rev := DefaultRev(s, raw, rel, empty).value;
    var once := DefaultRestored(s, raw, rel, Some(rel), empty);
    RestoreEffect(s, rel, rel, rev);
    NewestIsLast(once.history, |once.history| - 1, rel, ReadFile(s.disk, raw, empty));
    RestoreEffect(once, rel, rel, DefaultRev(once, raw, rel, empty).value);
  }

  /** A restore never removes a file. */
  lemma RestoreKeepsFile<P(!new), C(!new)>(s: Repo<P, C>, raw: P, rel: P, empty: C)
    ensures rel in s.disk || DefaultRev(s, raw, rel, empty).Some? ==>
      rel in DefaultRestored(s, raw, rel, Some(rel), empty).disk
  {
    var rev := DefaultRev(s, raw, rel, empty);
    if rev.Some? {
      RestoreEffect(s, rel, rel, rev.value);
    }
  }

  /** Running the default restore twice returns the whole disk to its starting state exactly when it
      had nothing to restore, or the file existed and either both readings name it or the version
      restored is the one already on disk. */
  lemma RestoreTwice<P(!new), C(!new)>(s: Repo<P, C>, raw: P, rel: P, empty: C)
    ensures var rev := DefaultRev(s, raw, rel, empty);
      DefaultRestored(DefaultRestored(s, raw, rel, Some(rel), empty), raw, rel, Some(rel), empty).disk == s.disk <==>
      (rev.None? || (rel in s.disk && (raw == rel || s.history[rev.value][rel] == s.disk[rel])))
  {
    var rev := DefaultRev(s, raw, rel, empty);
    var once := DefaultRestored(s, raw, rel, Some(rel), empty);
    if rev.Some? {
      RestoreKeepsFile(s, raw, rel, empty);
      RestoreKeepsFile(once, raw, rel, empty);
      if raw != rel {
        RestoreTwiceOther(s, raw, rel, empty);
        var v := s.history[rev.value][rel];
        assert rel in s.disk && v == s.disk[rel] ==> s.disk[rel := v] == s.disk;
      } else if rel in s.disk {
        RestoreTwiceExisting(s, rel, empty);
      }
    }
  }

  /** A file with an uncommitted change, in a repository whose last commit has one content for it and for
      the file that the content is taken from. When these differ, or the current content is read elsewhere,
      two restores leave the committed content. */
  lemma TwiceTakesCommitted<P(!new), C(!new)>(raw: P, rel: P, src: P, committed: C, changed: C, empty: C)
    requires (raw != rel || src != rel) && committed != changed && committed != empty
    ensures var s := Repo([map[], map[rel := committed, src := committed]], map[rel := changed]);
      DefaultRestored(DefaultRestored(s, raw, rel, Some(src), empty), raw, rel, Some(src), empty).disk
      == map[rel := committed]
  {
    var base, disk, after := map[rel := committed, src := committed], map[rel := changed], map[rel := committed];
    var s := Repo([map[], base], disk);
    assert Differing(s.history, rel, ReadFile(disk, raw, empty), 1);
    assert disk[rel := committed] == after;
    var once := DefaultRestored(s, raw, rel, Some(src), empty);
    assert once == Repo([map[], base, disk, after], after);
    var h := once.history;
    if raw == rel {
      assert Differing(h, rel, committed, 2) && !Differing(h, rel, committed, 3);
      assert NewestDiffering(h, 4, rel, committed) == NewestDiffering(h, 3, rel, committed) == Some(2);
    } else {
      assert Differing(h, rel, empty, 3);
    }
    assert after[rel := committed] == after;
  }

  // ---- the history over whole runs ----

  datatype Step<P, C> =
    | Edit(disk: Tree<P, C>)
    | Checkpoint
    | RestoreAt(rel: P, src: Option<P>, rev: nat)
    | RestoreDefault(raw: P, rel: P, src: Option<P>)

  function Next<P(==), C(==)>(s: Repo<P, C>, step: Step<P, C>, empty: C): Repo<P, C> {
    match step
    case Edit(disk) => Repo(s.history, disk)
    case Checkpoint => Checkpointed(s)
    case RestoreAt(rel, src, rev) => RestoredAt(s, rel, src, rev)
    case RestoreDefault(raw, rel, src) => DefaultRestored(s, raw, rel, src, empty)
  }

  function Run<P(==), C(==)>(s: Repo<P, C>, steps: seq<Step<P, C>>, empty: C): Repo<P, C>
    decreases |steps|
  {
    if steps == [] then s else Run(Next(s, steps[0], empty), steps[1..], empty)
  }

  /** No commit records the same tree as the commit before it. */
  ghost predicate NoEmptyCommit<P(!new), C(!new)>(h: seq<Tree<P, C>>) {
    forall i :: 0 < i < |h| ==> h[i] != h[i - 1]
  }

  lemma CheckpointGrows<P(!new), C(!new)>(s: Repo<P, C>)
    requires NoEmptyCommit(s.history)
    ensures NoEmptyCommit(Checkpointed(s).history) && s.history <= Checkpointed(s).history
  {
  }

  lemma NextGrows<P(!new), C(!new)>(s: Repo<P, C>, step: Step<P, C>, empty: C)
    requires NoEmptyCommit(s.history)
    ensures NoEmptyCommit(Next(s, step, empty).history) && s.history <= Next(s, step, empty).history
  {
    match step {
      case Edit(_) =>
      case Checkpoint => CheckpointGrows(s);
      case RestoreAt(rel, src, rev) => RestoreGrows(s, rel, src, rev);
      case RestoreDefault(raw, rel, src) =>
        var rev := DefaultRev(s, raw, rel, empty);
        if rev.Some? {
          RestoreGrows(s, rel, src, rev.value);
        }
    }
  }

  lemma RestoreGrows<P(!new), C(!new)>(s: Repo<P, C>, p: P, src: Option<P>, rev: nat)
    requires NoEmptyCommit(s.history)
    ensures NoEmptyCommit(RestoredAt(s, p, src, rev).history) && s.history <= RestoredAt(s, p, src, rev).history
  {
    var before := Checkpointed(s);
    CheckpointGrows(s);
    if s.history != [] && Shows(before.history, src, rev) {
      CheckpointGrows(Repo(before.history, before.disk[p := before.history[rev][src.value]]));
    }
  }

  /** Over every run of edits, checkpoints and restores, the history only grows and never gains an
      empty commit. */
  lemma {:induction false} HistoryOnlyGrows<P(!new), C(!new)>(s: Repo<P, C>, steps: seq<Step<P, C>>, empty: C)
    requires NoEmptyCommit(s.history)
    ensures NoEmptyCommit(Run(s, steps, empty).history) && s.history <= Run(s, steps, empty).history
    decreases |steps|
  {
    if steps != [] {
      NextGrows(s, steps[0], empty);
      HistoryOnlyGrows(Next(s, steps[0], empty), steps[1..], empty);
    }
  }

  /** A restore can always be taken back: what it overwrote is the newest commit before its own. */
  lemma RestoreRecordsBefore<P(!new), C(!new)>(s: Repo<P, C>, steps: seq<Step<P, C>>, p: P, src: Option<P>, rev: nat,
      empty: C)
    requires s.history != [] && NoEmptyCommit(s.history)
    ensures s.disk in Run(RestoredAt(s, p, src, rev), steps, empty).history
  {
    CheckpointRecords(s);
    var before := Checkpointed(s);
    RestoreGrows(s, p, src, rev);
    HistoryOnlyGrows(RestoredAt(s, p, src, rev), steps, empty);
    var h := Run(RestoredAt(s, p, src, rev), steps, empty).history;
    assert h[|before.history| - 1] == s.disk;
  }
}
