/** The marker-delimited "Current state" block of a task brief (internal/app/briefstatus.go). */
module BriefState {
  import opened Text

  /** The fixed texts of a block: its two markers, and the header the date is stamped on. */
  datatype Layout = Layout(start: string, header: string, end: string)

  const FLOW_STATE := Layout(
    "<!-- flow:state:start -->",
    "\n**Current state** · updated ",
    "<!-- flow:state:end -->")

  /** What makes a marker safe to search for: '<' only in front, '>' only at the end, no newline. */
  predicate Bracketed(m: string) {
    && |m| > 0 && m[0] == '<' && m[|m| - 1] == '>'
    && (forall i :: 0 < i < |m| ==> m[i] != '<')
    && (forall i :: 0 <= i < |m| - 1 ==> m[i] != '>')
    && (forall i :: 0 <= i < |m| ==> m[i] != '\n')
  }

  ghost predicate Proper(l: Layout) {
    Bracketed(l.start) && Bracketed(l.end) && !Occurs(l.start, l.end) && '<' !in l.header
  }

  lemma StartBracketed()
    ensures Bracketed(FLOW_STATE.start)
  {
  }

  lemma EndBracketed()
    ensures Bracketed(FLOW_STATE.end)
  {
  }

  lemma HeaderPlain()
    ensures FLOW_STATE.header != "" && FLOW_STATE.header[0] == '\n' && '<' !in FLOW_STATE.header
  {
  }

  /** Two bracketed markers that differ at one place do not contain each other. */
  lemma NotInside(s: string, e: string, k: nat)
    requires Bracketed(s) && Bracketed(e) && k < |e| <= |s| && s[k] != e[k]
    ensures !Occurs(s, e)
  {
    forall i ensures !OccursAt(s, e, i) {
      MarkerHead(s, e, i);
      assert s[0..|e|][k] != e[k];
    }
  }

  lemma MarkersDiffer(l: Layout)
    requires l == FLOW_STATE
    ensures |l.start| == 25 && |l.end| == 23 && l.start[16] != l.end[16]
  {
  }

  lemma FlowStateUsable(l: Layout)
    requires l == FLOW_STATE
    ensures Usable(l)
  {
    MarkersDiffer(l);
    StartBracketed();
    EndBracketed();
    HeaderPlain();
    NotInside(l.start, l.end, 16);
  }

  /** renderBriefStateBlock: the four parts joined by newlines. */
  function Block(l: Layout, body: string, date: string): string {
    l.start + Middle(l, body, date) + l.end
  }

  function Middle(l: Layout, body: string, date: string): string {
    l.header + date + ("\n" + TrimRightNewlines(body) + "\n")
  }

  /** The text between a block's markers: the header with the date, and the body on lines of its own,
      without the newlines it ends in. */
  lemma BlockText(l: Layout, body: string, date: string, kept: string)
    requires kept <= body && (forall i :: |kept| <= i < |body| ==> body[i] == '\n')
    requires kept == "" || kept[|kept| - 1] != '\n'
    ensures Block(l, body, date) == l.start + l.header + date + "\n" + kept + "\n" + l.end
  {
    var t := TrimRightNewlines(body);
    assert |t| == |kept|;
    assert t == kept;
  }

  /** The block flow writes, spelled out. */
  lemma FlowBlockText(body: string, date: string, kept: string)
    requires kept <= body && (forall i :: |kept| <= i < |body| ==> body[i] == '\n')
    requires kept == "" || kept[|kept| - 1] != '\n'
    ensures Block(FLOW_STATE, body, date)
         == "<!-- flow:state:start -->" + "\n**Current state** · updated " + date + "\n" + kept + "\n"
            + "<!-- flow:state:end -->"
  {
    BlockText(FLOW_STATE, body, date, kept);
  }

  /** The brief has a block the writer will find: the first start marker precedes the first end marker. */
  predicate HasBlock(l: Layout, cur: string) {
    0 <= Index(cur, l.start) < Index(cur, l.end)
  }

  /** What a refresh keeps in front of the block. */
  function Before(l: Layout, cur: string): string {
    if HasBlock(l, cur) then cur[..Index(cur, l.start)] else cur + Separator(cur)
  }

  /** What a refresh keeps behind the block. */
  function After(l: Layout, cur: string): string {
    if HasBlock(l, cur) then cur[Index(cur, l.end) + |l.end|..] else "\n"
  }

  function Separator(cur: string): string {
    if cur == "" || HasSuffix(cur, "\n\n") then ""
    else if HasSuffix(cur, "\n") then "\n"
    else "\n\n"
  }

  function Spliced(l: Layout, cur: string, block: string): string {
    Before(l, cur) + block + After(l, cur)
  }

  /** A brief after one refresh. */
  function Refreshed(l: Layout, cur: string, body: string, date: string): string {
    Spliced(l, cur, Block(l, body, date))
  }

  /** A block appended to a brief with text stands after an empty line, and nothing else is added. */
  lemma AppendedAfterBlankLine(l: Layout, cur: string)
    requires !HasBlock(l, cur) && cur != ""
    ensures cur <= Before(l, cur) && HasSuffix(Before(l, cur), "\n\n") && After(l, cur) == "\n"
    ensures HasSuffix(cur, "\n\n") ==> Before(l, cur) == cur
    ensures |Before(l, cur)| <= |cur| + 2 && (HasSuffix(cur, "\n") ==> |Before(l, cur)| <= |cur| + 1)
  {
  }

  lemma SplicedCases(l: Layout, cur: string, block: string)
    ensures var start, end := Index(cur, l.start), Index(cur, l.end);
      Spliced(l, cur, block) ==
      if start >= 0 && end > start then cur[..start] + block + cur[end + |l.end|..]
      else if cur == "" then block + "\n"
      else if HasSuffix(cur, "\n\n") then cur + block + "\n"
      else if HasSuffix(cur, "\n") then cur + "\n" + block + "\n"
      else cur + "\n\n" + block + "\n"
  {
    assert "" + block + "\n" == block + "\n";
    assert cur + "" == cur;
  }

  /** brief.md on disk; None when the file does not exist. */
  class BriefFile {
    const layout: Layout
    var content: Option<string>

    constructor (content: Option<string>)
      ensures this.content == content && layout == FLOW_STATE
    {
      layout := FLOW_STATE;
      this.content := content;
    }

    method WriteCurrentState(body: string, date: string)
      modifies this`content
      ensures content == Some(Refreshed(layout, if old(content).None? then "" else old(content).value, body, date))
    {
      var block := Block(layout, body, date);
      var cur := if content.None? then "" else content.value;
      var start := Index(cur, layout.start);
      var end := Index(cur, layout.end);
      SplicedCases(layout, cur, block);
      var out;
      if content.None? {
        out := block + "\n";
      } else if start >= 0 && end > start {
        out := cur[..start] + block + cur[end + |layout.end|..];
      } else if cur == "" {
        out := block + "\n";
      } else if HasSuffix(cur, "\n\n") {
        out := cur + block + "\n";
      } else if HasSuffix(cur, "\n") {
        out := cur + "\n" + block + "\n";
      } else {
        out := cur + "\n\n" + block + "\n";
      }
      content := Some(out);
    }
  }

  // ---- why no marker can straddle a seam ----

  lemma MarkerHead(t: string, m: string, i: int)
    requires Bracketed(m)
    ensures OccursAt(t, m, i) ==> t[i] == '<'
  {
    if OccursAt(t, m, i) {
      assert t[i] == t[i..i + |m|][0];
    }
  }

  lemma NoMarkerIn(t: string, m: string)
    requires Bracketed(m) && '<' !in t
    ensures !Occurs(t, m)
  {
    forall i ensures !OccursAt(t, m, i) {
      MarkerHead(t, m, i);
    }
  }

  /** A seam no marker crosses: it falls at a newline, before a '<', after a '>', or behind text without '<'. */
  predicate Seam(a: string, b: string) {
    || a == "" || b == ""
    || b[0] == '<' || b[0] == '\n'
    || a[|a| - 1] == '>' || a[|a| - 1] == '\n'
    || '<' !in a
  }

  lemma StraddleNeedsOpenSeam(a: string, b: string, m: string, i: nat)
    requires Bracketed(m) && OccursAt(a + b, m, i) && i < |a| < i + |m|
    ensures !Seam(a, b)
  {
    var w := (a + b)[i..i + |m|];
    assert a[i] == w[0];
    assert b[0] == w[|a| - i];
    assert a[|a| - 1] == w[|a| - 1 - i];
  }

  lemma OccursInConcat(a: string, b: string, m: string, i: int)
    requires Bracketed(m) && Seam(a, b)
    ensures OccursAt(a + b, m, i) <==> OccursAt(a, m, i) || OccursAt(b, m, i - |a|)
  {
    var ab := a + b;
    if 0 <= i && i + |m| <= |a| {
      assert ab[i..i + |m|] == a[i..i + |m|];
    } else if |a| <= i <= |ab| - |m| {
      assert ab[i..i + |m|] == b[i - |a|..i - |a| + |m|];
    } else if OccursAt(ab, m, i) {
      StraddleNeedsOpenSeam(a, b, m, i);
    }
  }

  lemma OccursInEither(a: string, b: string, m: string)
    requires Bracketed(m) && Seam(a, b)
    ensures Occurs(a + b, m) <==> Occurs(a, m) || Occurs(b, m)
  {
    forall i ensures OccursAt(a + b, m, i) <==> OccursAt(a, m, i) || OccursAt(b, m, i - |a|) {
      OccursInConcat(a, b, m, i);
    }
    if j :| OccursAt(b, m, j) {
      OccursInConcat(a, b, m, j + |a|);
      assert OccursAt(b, m, (j + |a|) - |a|);
    }
  }

  /** Behind marker-free text, the first occurrence only shifts. */
  lemma IndexShifts(a: string, b: string, m: string)
    requires Bracketed(m) && Seam(a, b) && !Occurs(a, m) && Occurs(b, m)
    ensures Index(a + b, m) == |a| + Index(b, m)
  {
    var k := Index(b, m);
    OccursInConcat(a, b, m, |a| + k);
    assert OccursAt(b, m, (|a| + k) - |a|);
    var j := Index(a + b, m);
    OccursInConcat(a, b, m, j);
  }

  /** In front of other text, the first occurrence stays. */
  lemma IndexStays(a: string, b: string, m: string)
    requires Bracketed(m) && Seam(a, b) && Occurs(a, m)
    ensures Index(a + b, m) == Index(a, m)
  {
    OccursInConcat(a, b, m, Index(a, m));
    OccursInConcat(a, b, m, Index(a + b, m));
  }

  /** Body and date carry no end marker. */
  ghost predicate EndFree(l: Layout, body: string, date: string) {
    !Occurs(body, l.end) && !Occurs(date, l.end)
  }

  lemma MiddleEndFree(l: Layout, body: string, date: string)
    requires Proper(l)
    ensures Occurs(Middle(l, body, date), l.end) <==> !EndFree(l, body, date)
  {
    var t := TrimRightNewlines(body);
    assert body == t + body[|t|..];
    NoMarkerIn(body[|t|..], l.end);
    OccursInEither(t, body[|t|..], l.end);
    NoMarkerIn("\n", l.end);
    NoMarkerIn(l.header, l.end);
    OccursInEither("\n", t, l.end);
    OccursInEither("\n" + t, "\n", l.end);
    OccursInEither(l.header, date, l.end);
    OccursInEither(l.header + date, "\n" + t + "\n", l.end);
  }

  predicate BlockShaped(block: string) {
    block != "" && block[0] == '<' && block[|block| - 1] == '>'
  }

  /** Where the writer will find the markers of a block it wrote. */
  lemma BlockIndices(l: Layout, body: string, date: string)
    requires Proper(l) && l.header != "" && l.header[0] == '\n'
    ensures var block := Block(l, body, date);
      && BlockShaped(block)
      && Index(block, l.start) == 0 < Index(block, l.end) <= |block| - |l.end|
      && (Index(block, l.end) == |block| - |l.end| <==> EndFree(l, body, date))
  {
    var mid := Middle(l, body, date);
    var block := Block(l, body, date);
    MiddleEndFree(l, body, date);
    assert OccursAt(block, l.start, 0);
    assert OccursAt(l.end, l.end, 0);
    OccursInEither(l.start, mid, l.end);
    if EndFree(l, body, date) {
      IndexShifts(l.start + mid, l.end, l.end);
    } else {
      IndexShifts(l.start, mid, l.end);
      IndexStays(l.start + mid, l.end, l.end);
    }
  }

  // ---- absorption ----

  /** A brief with no stray marker: it has a block to find, or no marker at all. */
  ghost predicate Ready(l: Layout, cur: string) {
    HasBlock(l, cur) || (!Occurs(cur, l.start) && !Occurs(cur, l.end))
  }

  lemma SeparatorSeam(cur: string, block: string, m: string)
    requires block != "" && block[0] == '<' && Bracketed(m)
    ensures Seam(cur, Separator(cur)) && Seam(cur + Separator(cur), block)
    ensures !Occurs(Separator(cur), m)
  {
    NoMarkerIn(Separator(cur), m);
  }

  lemma PrefixFree(cur: string, n: nat, m: string)
    requires n <= |cur| && m != "" && forall i :: OccursAt(cur, m, i) ==> n <= i
    ensures !Occurs(cur[..n], m)
  {
    forall j ensures OccursAt(cur[..n], m, j) ==> OccursAt(cur, m, j) {
      if OccursAt(cur[..n], m, j) {
        assert cur[j..j + |m|] == cur[..n][j..j + |m|];
      }
    }
  }

  lemma BeforeFree(l: Layout, cur: string, m: string)
    requires Proper(l) && Ready(l, cur) && (m == l.start || m == l.end)
    ensures !Occurs(Before(l, cur), m)
  {
    if HasBlock(l, cur) {
      PrefixFree(cur, Index(cur, l.start), m);
    } else {
      SeparatorSeam(cur, l.start, m);
      OccursInEither(cur, Separator(cur), m);
    }
  }

  /** Between marker-free text and anything, a block's first markers are the first markers. */
  lemma IndexAroundBlock(pre: string, block: string, post: string, m: string)
    requires Bracketed(m) && !Occurs(pre, m) && Occurs(block, m) && BlockShaped(block)
    ensures Index(pre + block + post, m) == |pre| + Index(block, m)
  {
    IndexShifts(pre, block, m);
    OccursInEither(pre, block, m);
    assert (pre + block)[|pre + block| - 1] == '>';
    IndexStays(pre + block, post, m);
  }

  /** Where the next refresh finds the markers of a spliced block. */
  lemma SplicedIndices(l: Layout, cur: string, block: string)
    requires Proper(l) && Ready(l, cur) && BlockShaped(block)
    requires Index(block, l.start) == 0 < Index(block, l.end)
    ensures var out := Spliced(l, cur, block);
      && Index(out, l.start) == |Before(l, cur)|
      && Index(out, l.end) == |Before(l, cur)| + Index(block, l.end)
  {
    BeforeFree(l, cur, l.start);
    IndexAroundBlock(Before(l, cur), block, After(l, cur), l.start);
    BeforeFree(l, cur, l.end);
    IndexAroundBlock(Before(l, cur), block, After(l, cur), l.end);
  }

  lemma CutAround(pre: string, block: string, post: string, e: nat)
    requires e <= |block|
    ensures (pre + block + post)[..|pre|] == pre
    ensures (pre + block + post)[|pre| + e..] == block[e..] + post
  {
  }

  /** The parts of a brief with a block spliced in, as the next refresh will see them. */
  lemma SplicedParts(l: Layout, cur: string, block: string)
    requires Proper(l) && Ready(l, cur) && BlockShaped(block)
    requires Index(block, l.start) == 0 < Index(block, l.end)
    ensures var out := Spliced(l, cur, block);
      && HasBlock(l, out) && Before(l, out) == Before(l, cur)
      && After(l, out) == block[Index(block, l.end) + |l.end|..] + After(l, cur)
  {
    SplicedIndices(l, cur, block);
    CutAround(Before(l, cur), block, After(l, cur), Index(block, l.end) + |l.end|);
  }

  ghost predicate Usable(l: Layout) {
    Proper(l) && l.header != "" && l.header[0] == '\n'
  }

  lemma RefreshedParts(l: Layout, cur: string, body: string, date: string)
    requires Usable(l) && Ready(l, cur)
    ensures var out := Refreshed(l, cur, body, date);
      && HasBlock(l, out) && Before(l, out) == Before(l, cur)
      && (|After(l, out)| == |After(l, cur)| <==> EndFree(l, body, date))
      && (EndFree(l, body, date) ==> After(l, out) == After(l, cur))
  {
    var block := Block(l, body, date);
    BlockIndices(l, body, date);
    SplicedParts(l, cur, block);
    var e := Index(block, l.end) + |l.end|;
    assert e == |block| ==> block[e..] + After(l, cur) == After(l, cur);
  }

  /** A marker of a brief without a block stays the first one of its kind after the append. */
  lemma IndexAfterAppend(cur: string, block: string, m: string)
    requires Bracketed(m) && Occurs(block, m) && BlockShaped(block)
    ensures Index(cur + Separator(cur) + block + "\n", m)
         == if Occurs(cur, m) then Index(cur, m) else |cur + Separator(cur)| + Index(block, m)
  {
    var pre := cur + Separator(cur);
    SeparatorSeam(cur, block, m);
    OccursInEither(cur, Separator(cur), m);
    if Occurs(cur, m) {
      IndexStays(cur, Separator(cur), m);
      IndexStays(pre, block, m);
      OccursInEither(pre, block, m);
      IndexStays(pre + block, "\n", m);
    } else {
      IndexAroundBlock(pre, block, "\n", m);
    }
  }

  /** For any layout: writing b1 then b2 equals writing b2 alone, on every brief without stray
      markers, exactly when b1 and its date carry no end marker. */
  lemma AbsorbsIffEndFree(l: Layout, cur: string, b1: string, d1: string, b2: string, d2: string)
    requires Usable(l) && Ready(l, cur)
    ensures Refreshed(l, Refreshed(l, cur, b1, d1), b2, d2) == Refreshed(l, cur, b2, d2) <==> EndFree(l, b1, d1)
  {
    RefreshedParts(l, cur, b1, d1);
  }

  /** And for an end-free b1, exactly when the brief has no stray marker. */
  lemma AbsorbsIffReady(l: Layout, cur: string, b1: string, d1: string, b2: string, d2: string)
    requires Usable(l) && EndFree(l, b1, d1)
    ensures Refreshed(l, Refreshed(l, cur, b1, d1), b2, d2) == Refreshed(l, cur, b2, d2) <==> Ready(l, cur)
  {
    if Ready(l, cur) {
      AbsorbsIffEndFree(l, cur, b1, d1, b2, d2);
    } else {
      var block := Block(l, b1, d1);
      var out := Refreshed(l, cur, b1, d1);
      BlockIndices(l, b1, d1);
      IndexAfterAppend(cur, block, l.start);
      IndexAfterAppend(cur, block, l.end);
      if Occurs(cur, l.end) {
        assert !HasBlock(l, out);
        assert |Refreshed(l, out, b2, d2)| > |Refreshed(l, cur, b2, d2)|;
      } else {
        assert HasBlock(l, out) && Index(out, l.start) < |cur|;
        assert |After(l, out)| == 1;
      }
    }
  }

  /** The two characterisations, for the markers flow writes. */
  lemma RefreshAbsorbs(cur: string, b1: string, d1: string, b2: string, d2: string)
    ensures var once, twice := Refreshed(FLOW_STATE, cur, b2, d2),
                               Refreshed(FLOW_STATE, Refreshed(FLOW_STATE, cur, b1, d1), b2, d2);
      && (Ready(FLOW_STATE, cur) ==> (twice == once <==> EndFree(FLOW_STATE, b1, d1)))
      && (EndFree(FLOW_STATE, b1, d1) ==> (twice == once <==> Ready(FLOW_STATE, cur)))
  {
    FlowStateUsable(FLOW_STATE);
    if Ready(FLOW_STATE, cur) {
      AbsorbsIffEndFree(FLOW_STATE, cur, b1, d1, b2, d2);
    }
    if EndFree(FLOW_STATE, b1, d1) {
      AbsorbsIffReady(FLOW_STATE, cur, b1, d1, b2, d2);
    }
  }

  /** A brief after a list of (body, date) refreshes. */
  function RunRefreshes(l: Layout, cur: string, states: seq<(string, string)>): string {
    if states == [] then cur
    else
      var last := states[|states| - 1];
      Refreshed(l, RunRefreshes(l, cur, states[..|states| - 1]), last.0, last.1)
  }

  /** Any number of refreshes: the text outside the block is the original's, the block the last one's. */
  lemma {:induction false} OutsideTextKept(l: Layout, cur: string, states: seq<(string, string)>)
    requires Usable(l) && Ready(l, cur) && states != []
    requires forall s :: s in states ==> EndFree(l, s.0, s.1)
    ensures var last, out := states[|states| - 1], RunRefreshes(l, cur, states);
      && out == Before(l, cur) + Block(l, last.0, last.1) + After(l, cur)
      && HasBlock(l, out) && Before(l, out) == Before(l, cur) && After(l, out) == After(l, cur)
  {
    var init, last := states[..|states| - 1], states[|states| - 1];
    if init == [] {
      assert RunRefreshes(l, cur, init) == cur;
      RefreshedParts(l, cur, last.0, last.1);
    } else {
      OutsideTextKept(l, cur, init);
      RefreshedParts(l, RunRefreshes(l, cur, init), last.0, last.1);
    }
  }
}
