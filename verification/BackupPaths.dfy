/** The readings of the argument of `flow backup restore`: internal/app/backup.go joins it to the root
    as it is, internal/flowbackup/flowbackup.go trims it first. */
module BackupPaths {
  import opened Text
  import B = Backup

  /** A file's place, as the names on the way from the file system's root. */
  type Place = seq<string>

  /** strings.Split(s, "/"). */
  function Split(s: string): (parts: seq<string>)
    ensures parts != []
  {
    if s == [] then [[]]
    else if s[0] == '/' then [[]] + Split(s[1..])
    else [[s[0]] + Split(s[1..])[0]] + Split(s[1..])[1..]
  }

  /** One element of path.Clean's way from a place. */
  function Enter(at: Place, part: string): Place {
    if part == [] || part == ['.'] then at
    else if part == ['.', '.'] then if at == [] then [] else at[..|at| - 1]
    else at + [part]
  }

  function Walk(at: Place, parts: seq<string>): Place
    decreases |parts|
  {
    if parts == [] then at else Walk(Enter(at, parts[0]), parts[1..])
  }

  /** filepath.Join(root, arg): the cleaned path. */
  function Joined(root: Place, arg: string): Place {
    Walk(root, Split(arg))
  }

  /** normalizeRel: trimmed, without one leading slash. */
  function NormalizeRel(arg: string): string {
    var p := TrimSpace(arg);
    if p != [] && p[0] == '/' then p[1..] else p
  }

  predicate Named(part: string) {
    part != [] && part != ['.'] && part != ['.', '.']
  }

  predicate AllNamed(parts: seq<string>) {
    forall i :: 0 <= i < |parts| ==> Named(parts[i])
  }

  /** A path as the history stores it: only proper names between slashes. */
  predicate Tracked(rel: string) {
    AllNamed(Split(rel))
  }

  function PlaceOf(root: Place, rel: string): Option<Place> {
    if Tracked(rel) then Some(root + Split(rel)) else None
  }

  /** The default restore on the argument as typed: the current content is read at the joined path, the
      versions are those of the normalized path, which is also written, and Show, inside Restore,
      normalizes once more to find the content. A path the history cannot store has no version in it. */
  function Restored<C(==)>(s: B.Repo<Place, C>, root: Place, arg: string, empty: C): B.Repo<Place, C> {
    var rel := NormalizeRel(arg);
    if Tracked(rel) then
      B.DefaultRestored(s, Joined(root, arg), root + Split(rel), PlaceOf(root, NormalizeRel(rel)), empty)
    else s
  }

  /** A name and the way back up cancel out. */
  lemma UpCancels(root: Place, name: string, rest: string)
    requires NoSlash(name) && Named(name)
    ensures Joined(root, name + ['/', '.', '.', '/'] + rest) == Joined(root, rest)
  {
    var tail := ['.', '.'] + (['/'] + rest);
    assert name + ['/', '.', '.', '/'] + rest == name + (['/'] + tail);
    SplitNameSlash(name, tail);
    SplitNameSlash(['.', '.'], rest);
    assert ([name] + Split(tail))[1..] == Split(tail);
    assert ([['.', '.']] + Split(rest))[1..] == Split(rest);
    assert Joined(root, name + (['/'] + tail)) == Walk(root + [name], Split(tail));
    assert Enter(root + [name], ['.', '.']) == (root + [name])[..|root|] == root;
  }

  // ---- which arguments both readings take alike ----

  predicate NoSlash(s: string) {
    forall i :: 0 <= i < |s| ==> s[i] != '/'
  }

  predicate Blank(s: string) {
    forall i :: 0 <= i < |s| ==> IsSpace(s[i])
  }

  lemma {:induction false} SplitPrefixed(l: string, s: string)
    requires NoSlash(l)
    ensures Split(l + s) == [l + Split(s)[0]] + Split(s)[1..]
  {
    if l == [] {
      assert l + s == s && l + Split(s)[0] == Split(s)[0];
    } else {
      SplitPrefixed(l[1..], s);
      assert (l + s)[1..] == l[1..] + s && (l + s)[0] == l[0];
      assert [l[0]] + (l[1..] + Split(s)[0]) == l + Split(s)[0];
    }
  }

  function OnLast(parts: seq<string>, t: string): seq<string>
    requires parts != []
  {
    parts[..|parts| - 1] + [parts[|parts| - 1] + t]
  }

  lemma OnLastTail(x: string, more: seq<string>, t: string)
    requires more != []
    ensures OnLast([x] + more, t) == [x] + OnLast(more, t)
  {
  }

  lemma OnLastHead(c: string, more: seq<string>, t: string)
    requires more != []
    ensures [c + OnLast(more, t)[0]] + OnLast(more, t)[1..] == OnLast([c + more[0]] + more[1..], t)
  {
    if |more| == 1 {
      assert c + (more[0] + t) == c + more[0] + t;
    }
  }

  lemma {:induction false} SplitSuffixed(s: string, t: string)
    requires NoSlash(t)
    ensures Split(s + t) == OnLast(Split(s), t)
  {
    if s == [] {
      SplitPrefixed(t, []);
      assert s + t == t + [] && [] + t == t && t + [] == t;
    } else {
      var c, more := s[0], Split(s[1..]);
      SplitSuffixed(s[1..], t);
      assert (s + t)[1..] == s[1..] + t && (s + t)[0] == c;
      if c == '/' {
        OnLastTail([], more, t);
      } else {
        OnLastHead([c], more, t);
      }
    }
  }

  /** Joining the parts again. */
  function Unsplit(parts: seq<string>): string
    requires parts != []
  {
    if |parts| == 1 then parts[0] else parts[0] + ['/'] + Unsplit(parts[1..])
  }

  lemma {:induction false} UnsplitSplit(s: string)
    ensures Unsplit(Split(s)) == s
  {
    if s != [] {
      UnsplitSplit(s[1..]);
      var more := Split(s[1..]);
      if s[0] == '/' {
        assert ([[]] + more)[1..] == more && [] + ['/'] + s[1..] == s;
      } else {
        assert Split(s)[1..] == more[1..];
        assert [s[0]] + s[1..] == s;
      }
    }
  }

  lemma {:induction false} WalkNamed(at: Place, parts: seq<string>)
    requires AllNamed(parts)
    ensures Walk(at, parts) == at + parts
    decreases |parts|
  {
    if parts != [] {
      WalkNamed(at + [parts[0]], parts[1..]);
      assert at + [parts[0]] + parts[1..] == at + parts;
    }
  }

  lemma SpaceIsNoSlash(w: string)
    requires Blank(w)
    ensures NoSlash(w)
  {
  }

  lemma StillNamed(l: string, part: string, t: string)
    requires Blank(l) && Blank(t) && Named(part)
    ensures Named(l + part) && Named(part + t)
  {
    assert l != [] ==> (l + part)[0] == l[0];
    assert t != [] ==> (part + t)[|part + t| - 1] == t[|t| - 1];
  }

  /** Space around a tracked path gives another one. */
  lemma StillTracked(l: string, rel: string, t: string)
    requires Blank(l) && Blank(t) && Tracked(rel)
    ensures Tracked(l + rel + t)
  {
    SpaceIsNoSlash(l);
    SpaceIsNoSlash(t);
    SplitPrefixed(l, rel);
    SplitSuffixed(l + rel, t);
    var parts, mid := Split(rel), Split(l + rel);
    StillNamed(l, parts[0], []);
    assert Tracked(l + rel);
    StillNamed([], mid[|mid| - 1], t);
  }

  lemma JoinedTracked(root: Place, rel: string)
    requires Tracked(rel)
    ensures Joined(root, rel) == root + Split(rel)
  {
    WalkNamed(root, Split(rel));
  }

  /** Different tracked paths name different files. */
  lemma JoinedInjective(root: Place, a: string, b: string)
    requires Tracked(a) && Tracked(b) && Joined(root, a) == Joined(root, b)
    ensures a == b
  {
    JoinedTracked(root, a);
    JoinedTracked(root, b);
    assert Split(a) == (root + Split(a))[|root|..] == Split(b);
    UnsplitSplit(a);
    UnsplitSplit(b);
  }

  lemma CutFront(s: string, r: string)
    requires |r| <= |s| && r == s[|s| - |r|..]
    ensures s == s[..|s| - |r|] + r
  {
  }

  lemma LeftTrimmed(s: string) returns (l: string)
    ensures Blank(l) && s == l + TrimLeftSpace(s)
  {
    var r := TrimLeftSpace(s);
    l := s[..|s| - |r|];
    CutFront(s, r);
    forall i | 0 <= i < |l| ensures IsSpace(l[i]) {
      assert l[i] == s[i];
    }
  }

  lemma {:induction false} RightTrimmed(s: string) returns (t: string)
    ensures Blank(t) && s == TrimRightSpace(s) + t
  {
    if s == [] || !IsSpace(s[|s| - 1]) {
      t := [];
    } else {
      var more := RightTrimmed(s[..|s| - 1]);
      t := more + [s[|s| - 1]];
      assert s == s[..|s| - 1] + [s[|s| - 1]];
    }
  }

  /** What TrimSpace takes off. */
  lemma TrimmedParts(arg: string) returns (l: string, t: string)
    ensures Blank(l) && Blank(t) && arg == l + TrimSpace(arg) + t
  {
    l := LeftTrimmed(arg);
    t := RightTrimmed(TrimLeftSpace(arg));
    Associate(l, TrimSpace(arg), t);
  }

  lemma Associate(a: string, b: string, c: string)
    ensures a + (b + c) == a + b + c
  {
  }

  lemma SplitSlash(s: string)
    ensures Split(['/'] + s) == [[]] + Split(s)
  {
    assert (['/'] + s)[1..] == s;
  }

  lemma SlashDropped(root: Place, s: string)
    ensures Joined(root, ['/'] + s) == Joined(root, s)
  {
    SplitSlash(s);
    assert ([[]] + Split(s))[1..] == Split(s);
  }

  lemma SplitNameSlash(l: string, s: string)
    requires NoSlash(l)
    ensures Split(l + (['/'] + s)) == [l] + Split(s)
  {
    SplitPrefixed(l, ['/'] + s);
    SplitSlash(s);
    assert l + [] == l && ([[]] + Split(s))[1..] == Split(s);
  }

  lemma BlankIsNamed(l: string)
    requires Blank(l) && l != []
    ensures Named(l)
  {
    assert IsSpace(l[0]);
  }

  /** Space before a leading slash is a directory of its own. */
  lemma SpaceBeforeSlash(root: Place, l: string, s: string)
    requires Blank(l) && l != [] && Tracked(s)
    ensures Joined(root, l + (['/'] + s)) == root + ([l] + Split(s))
  {
    SpaceIsNoSlash(l);
    SplitNameSlash(l, s);
    BlankIsNamed(l);
    WalkNamed(root, [l] + Split(s));
  }

  lemma PlainAgrees(root: Place, l: string, rel: string, t: string)
    requires Blank(l) && Blank(t) && Tracked(rel)
    ensures Joined(root, l + rel + t) == Joined(root, rel) <==> l == [] && t == []
  {
    StillTracked(l, rel, t);
    if Joined(root, l + rel + t) == Joined(root, rel) {
      JoinedInjective(root, l + rel + t, rel);
      assert |l + rel + t| == |rel|;
    }
    assert l == [] && t == [] ==> l + rel + t == rel;
  }

  lemma SlashedAgrees(root: Place, l: string, rel: string, t: string)
    requires Blank(l) && Blank(t) && Tracked(rel)
    ensures Joined(root, l + (['/'] + rel) + t) == Joined(root, rel) <==> l == [] && t == []
  {
    StillTracked([], rel, t);
    assert [] + rel + t == rel + t;
    assert l + (['/'] + rel) + t == l + (['/'] + (rel + t));
    if l == [] {
      assert l + (['/'] + (rel + t)) == ['/'] + (rel + t);
      SlashDropped(root, rel + t);
      PlainAgrees(root, [], rel, t);
    } else {
      SpaceBeforeSlash(root, l, rel + t);
      JoinedTracked(root, rel);
      SplitSuffixed(rel, t);
      assert |root + ([l] + Split(rel + t))| != |root + Split(rel)|;
    }
  }

  lemma NothingAround(l: string, p: string, t: string)
    ensures l + p + t == p <==> l == [] && t == []
  {
    assert |l + p + t| == |l| + |p| + |t|;
    assert l == [] && t == [] ==> l + p + t == p;
  }

  lemma SlashOrNot(p: string, rel: string)
    requires rel == if p != [] && p[0] == '/' then p[1..] else p
    ensures p == rel || p == ['/'] + rel
  {
  }

  /** The two readings name the same file exactly when the argument has no space around it. */
  lemma ReadingsAgree(root: Place, arg: string)
    requires Tracked(NormalizeRel(arg))
    ensures Joined(root, arg) == root + Split(NormalizeRel(arg)) <==> TrimSpace(arg) == arg
  {
    var rel, p := NormalizeRel(arg), TrimSpace(arg);
    var l, t := TrimmedParts(arg);
    JoinedTracked(root, rel);
    NothingAround(l, p, t);
    if p == rel {
      PlainAgrees(root, l, rel, t);
    } else {
      SlashOrNot(p, rel);
      SlashedAgrees(root, l, rel, t);
    }
  }

  /** All readings name one file: no space around the argument, and normalizing twice is normalizing once. */
  predicate Plain(arg: string) {
    TrimSpace(arg) == arg && NormalizeRel(NormalizeRel(arg)) == NormalizeRel(arg)
  }

  /** For a path that normalizing again does not change: two default restores give the whole disk back
      exactly when there was nothing to restore, or the file existed and the argument had no space around
      it or the version restored was the one on disk. */
  lemma RestoreTwiceAsTyped<C(!new)>(s: B.Repo<Place, C>, root: Place, arg: string, empty: C)
    ensures var rel := NormalizeRel(arg);
      var at := root + Split(rel);
      var rev := B.DefaultRev(s, Joined(root, arg), at, empty);
      NormalizeRel(rel) == rel ==>
        (Restored(Restored(s, root, arg, empty), root, arg, empty).disk == s.disk <==>
         (!Tracked(rel) || rev.None? ||
          (at in s.disk && (TrimSpace(arg) == arg || s.history[rev.value][at] == s.disk[at]))))
  {
    if Tracked(NormalizeRel(arg)) {
      ReadingsAgree(root, arg);
      B.RestoreTwice(s, Joined(root, arg), root + Split(NormalizeRel(arg)), empty);
    }
  }

  /** If the file exists, two restores give the whole disk back. */
  ghost predicate Returned<C(!new)>(s: B.Repo<Place, C>, root: Place, arg: string, empty: C) {
    root + Split(NormalizeRel(arg)) in s.disk ==>
      Restored(Restored(s, root, arg, empty), root, arg, empty).disk == s.disk
  }

  /** Whatever the repository. */
  ghost predicate AlwaysReturned<C(!new)>(root: Place, arg: string, empty: C) {
    forall s: B.Repo<Place, C> :: Returned(s, root, arg, empty)
  }

  /** A file with an uncommitted change, and a commit that records it and the file its content is taken from. */
  function Changed<C>(root: Place, arg: string, committed: C, changed: C): B.Repo<Place, C> {
    var at, src := root + Split(NormalizeRel(arg)), root + Split(NormalizeRel(NormalizeRel(arg)));
    B.Repo([map[], map[at := committed, src := committed]], map[at := changed])
  }

  /** The failing inputs: an argument that is not plain, on a file with an uncommitted change. Both restores
      end in the committed version, and the change is gone from disk. */
  lemma OddArgumentLosesChange<C(!new)>(root: Place, arg: string, committed: C, changed: C, empty: C)
    requires Tracked(NormalizeRel(arg)) && Tracked(NormalizeRel(NormalizeRel(arg))) && !Plain(arg)
    requires committed != changed && committed != empty
    ensures Restored(Restored(Changed(root, arg, committed, changed), root, arg, empty), root, arg, empty).disk
         == map[root + Split(NormalizeRel(arg)) := committed]
  {
    var rel := NormalizeRel(arg);
    ReadingsAgree(root, arg);
    JoinedTracked(root, rel);
    JoinedTracked(root, NormalizeRel(rel));
    if NormalizeRel(rel) != rel && root + Split(rel) == root + Split(NormalizeRel(rel)) {
      JoinedInjective(root, rel, NormalizeRel(rel));
    }
    var at, src := root + Split(rel), root + Split(NormalizeRel(rel));
    B.TwiceTakesCommitted(Joined(root, arg), at, src, committed, changed, empty);
  }

  lemma OddNotReturned<C(!new)>(root: Place, arg: string, committed: C, changed: C, empty: C)
    requires Tracked(NormalizeRel(arg)) && Tracked(NormalizeRel(NormalizeRel(arg))) && !Plain(arg)
    requires committed != changed && committed != empty
    ensures !Returned(Changed(root, arg, committed, changed), root, arg, empty)
  {
    var at := root + Split(NormalizeRel(arg));
    OddArgumentLosesChange(root, arg, committed, changed, empty);
    MapsDiffer(at, committed, changed);
  }

  lemma MapsDiffer<C(!new)>(at: Place, a: C, b: C)
    requires a != b
    ensures map[at := a] != map[at := b]
  {
    assert map[at := a][at] != map[at := b][at];
  }

  lemma NothingRestored<C(!new)>(s: B.Repo<Place, C>, root: Place, arg: string, empty: C)
    requires !Tracked(NormalizeRel(arg)) || !Tracked(NormalizeRel(NormalizeRel(arg)))
    ensures Restored(s, root, arg, empty).disk == s.disk
  {
  }

  lemma NothingRestoredTwice<C(!new)>(root: Place, arg: string, empty: C)
    requires !Tracked(NormalizeRel(arg)) || !Tracked(NormalizeRel(NormalizeRel(arg)))
    ensures AlwaysReturned<C>(root, arg, empty)
  {
    forall s: B.Repo<Place, C> ensures Returned(s, root, arg, empty) {
      NothingRestored(s, root, arg, empty);
      NothingRestored(Restored(s, root, arg, empty), root, arg, empty);
    }
  }

  lemma PlainReturned<C(!new)>(root: Place, arg: string, empty: C)
    requires Plain(arg)
    ensures AlwaysReturned<C>(root, arg, empty)
  {
    forall s: B.Repo<Place, C> ensures Returned(s, root, arg, empty) {
      RestoreTwiceAsTyped(s, root, arg, empty);
    }
  }

  /** Two restores give every existing file back exactly for plain arguments, and for those under which
      nothing can be restored at all. */
  lemma AlwaysReturnedIff<C(!new)>(root: Place, arg: string, committed: C, changed: C, empty: C)
    requires committed != changed && committed != empty
    ensures AlwaysReturned<C>(root, arg, empty) <==>
      Plain(arg) || !Tracked(NormalizeRel(arg)) || !Tracked(NormalizeRel(NormalizeRel(arg)))
  {
    if Plain(arg) {
      PlainReturned<C>(root, arg, empty);
    } else if Tracked(NormalizeRel(arg)) && Tracked(NormalizeRel(NormalizeRel(arg))) {
      OddNotReturned(root, arg, committed, changed, empty);
    } else {
      NothingRestoredTwice<C>(root, arg, empty);
    }
  }

  lemma SpaceTrimmed(w: string)
    requires w != [] && Tidy(w)
    ensures TrimSpace([' '] + w) == w
  {
    assert ([' '] + w)[1..] == w;
    assert TrimLeftSpace([' '] + w) == TrimLeftSpace(w);
  }

  lemma NameTracked(w: string)
    requires NoSlash(w) && Named(w)
    ensures Tracked(w)
  {
    SplitPrefixed(w, []);
    assert w + [] == w;
  }

  lemma SpacedNamed(w: string)
    requires w != [] && NoSlash(w)
    ensures NoSlash([' '] + w) && Named([' '] + w)
  {
    assert ([' '] + w)[0] == ' ';
  }

  lemma NoLeadingSlash(p: string)
    requires p != [] && p[0] != '/' && Tidy(p)
    ensures NormalizeRel(p) == p
  {
  }

  lemma SpaceInFront(w: string)
    requires w != [] && Tidy(w) && NoSlash(w)
    ensures TrimSpace([' '] + w) != [' '] + w && NormalizeRel([' '] + w) == w
  {
    SpaceTrimmed(w);
    NoLeadingSlash(w);
    assert |[' '] + w| != |w|;
  }

  lemma SpaceBehindSlash(w: string)
    requires w != [] && Tidy(w)
    ensures NormalizeRel(['/', ' '] + w) == [' '] + w
  {
    var slashed := ['/', ' '] + w;
    assert slashed[|slashed| - 1] == w[|w| - 1] && slashed[1..] == [' '] + w;
    assert Tidy(slashed);
  }

  /** The two kinds of argument that are not plain, for any file name at the root: space in front is read as
      another file's name, and behind a leading slash it is trimmed the second time only. */
  lemma OddArguments(w: string)
    requires w != [] && Tidy(w) && NoSlash(w) && Named(w)
    ensures !Plain([' '] + w) && NormalizeRel([' '] + w) == w
    ensures !Plain(['/', ' '] + w) && NormalizeRel(['/', ' '] + w) == [' '] + w
    ensures Tracked(w) && Tracked([' '] + w)
  {
    SpaceInFront(w);
    SpaceBehindSlash(w);
    NameTracked(w);
    SpacedNamed(w);
    NameTracked([' '] + w);
  }
}
