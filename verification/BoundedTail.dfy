/** The bounded output tail of an autonomous run (internal/app/auto.go): a byte
    buffer, rewritten in place, that must hold the last `max` bytes ever written. */
module BoundedTail {

  /** The last min(max, |w|) bytes of w. */
  function LastBytes(w: seq<bv8>, max: int): (r: seq<bv8>)
    ensures |r| == if max <= 0 then 0 else if |w| <= max then |w| else max
    ensures r == w[|w| - |r|..]
  {
    if max <= 0 then [] else if |w| <= max then w else w[|w| - max..]
  }

  /** Forgetting early bytes first never matters: this is why a bounded buffer is enough. */
  lemma LastOfLast(a: seq<bv8>, p: seq<bv8>, max: int)
    ensures LastBytes(LastBytes(a, max) + p, max) == LastBytes(a + p, max)
  {
    if max <= 0 {
    } else if |a| <= max {
      assert LastBytes(a, max) == a;
    } else {
      var cut := |a| - max;
      assert LastBytes(a, max) == a[cut..];
      DropThenAppend(a, p, cut);
      LastOfSuffix(a + p, cut, max);
    }
  }

  lemma DropThenAppend(a: seq<bv8>, p: seq<bv8>, cut: nat)
    requires cut <= |a|
    ensures a[cut..] + p == (a + p)[cut..]
  {
  }

  lemma LastOfSuffix(w: seq<bv8>, cut: nat, max: nat)
    requires cut <= |w| && |w| - cut >= max
    ensures LastBytes(w[cut..], max) == LastBytes(w, max)
  {
    if max > 0 {
      assert w[cut..][|w| - cut - max..] == w[|w| - max..];
    }
  }

  /** What a write has to leave behind, case by case. */
  lemma LastCases(before: seq<bv8>, p: seq<bv8>, max: int)
    requires max > 0
    ensures LastBytes(before + p, max) ==
      if |p| >= max then [] + p[|p| - max..]
      else if |before| + |p| <= max then before + p
      else (before + p)[|before| + |p| - max..]
  {
    if |p| >= max {
      assert (before + p)[|before| + |p| - max..] == [] + p[|p| - max..];
    }
  }

  class Tail {
    const max: int
    var data: array<bv8>  // the slice's backing array
    var len: nat          // the slice's length
    ghost var written: seq<bv8>  // every byte written so far

    ghost predicate Fits()
      reads this
    {
      len <= data.Length
    }

    function Contents(): (s: seq<bv8>)
      requires Fits()
      reads this, data
      ensures |s| == len
    {
      data[..len]
    }

    ghost predicate Valid()
      reads this, data
    {
      Fits() && Contents() == LastBytes(written, max)
    }

    constructor (max: int)
      ensures Valid() && fresh(data)
      ensures this.max == max && written == []
    {
      this.max := max;
      data := new bv8[0];
      len, written := 0, [];
    }

    /** A new backing array with the first keep bytes. */
    method Grow(keep: nat, capacity: nat)
      requires keep <= data.Length && keep <= capacity
      modifies this`data
      ensures fresh(data) && data.Length == capacity && data[..keep] == old(data[..keep])
    {
      var grown := new bv8[capacity](_ => 0);
      for i := 0 to keep
        invariant data == old(data) && data[..] == old(data[..])
        invariant forall j :: 0 <= j < i ==> grown[j] == data[j]
      {
        grown[i] := data[i];
      }
      data := grown;
    }

    method CopyIn(at: nat, bytes: seq<bv8>)
      requires at + |bytes| <= data.Length
      modifies data
      ensures data[..at] == old(data[..at]) && data[at..at + |bytes|] == bytes
    {
      for i := 0 to |bytes|
        invariant data[..at] == old(data[..at])
        invariant data[at..at + i] == bytes[..i]
      {
        data[at + i] := bytes[i];
      }
    }

    /** Go's append(buf[:keep], bytes...): in place when the capacity allows it,
        into a new array otherwise. */
    method Append(keep: nat, bytes: seq<bv8>)
      requires Fits() && keep <= len
      modifies this`data, this`len, data
      ensures Fits() && (data == old(data) || fresh(data))
      ensures Contents() == old(Contents())[..keep] + bytes
    {
      assert Contents()[..keep] == data[..keep];
      if keep + |bytes| > data.Length {
        Grow(keep, 2 * (keep + |bytes|));
      }
      CopyIn(keep, bytes);
      len := keep + |bytes|;
      assert data[..len] == data[..keep] + data[keep..len];
    }

    /** The overlapping copy(buf, buf[shift:]) followed by buf = buf[:len-shift]. */
    method ShiftLeft(shift: nat)
      requires Fits() && shift <= len
      modifies this`len, data
      ensures Fits()
      ensures Contents() == old(Contents())[shift..]
    {
      for i := 0 to len - shift
        invariant len == old(len) && Fits()
        invariant forall j :: 0 <= j < i ==> data[j] == old(data[j + shift])
        invariant forall j :: i <= j < len ==> data[j] == old(data[j])
      {
        data[i] := data[i + shift];
      }
      len := len - shift;
    }

    method Write(p: seq<bv8>) returns (n: nat)
      requires Valid()
      modifies this, data
      ensures Valid() && (data == old(data) || fresh(data))
      ensures n == |p| && written == old(written) + p
    {
      n := |p|;
      written := written + p;
      LastOfLast(old(written), p, max);
      ghost var before := Contents();
      if max <= 0 {
        return;
      }
      LastCases(before, p, max);
      assert before[..0] == [] && before[..|before|] == before;
      if |p| >= max {
        Append(0, p[|p| - max..]);
        return;
      }
      Append(len, p);
      if len > max {
        ShiftLeft(len - max);
      }
    }

    /** After any sequence of writes of any sizes the buffer is the tail of their concatenation. */
    method WriteAll(chunks: seq<seq<bv8>>)
      requires Valid()
      modifies this, data
      ensures Valid() && written == old(written) + Concat(chunks)
      ensures Contents() == LastBytes(old(written) + Concat(chunks), max)
    {
      for i := 0 to |chunks|
        invariant Valid() && (data == old(data) || fresh(data))
        invariant written == old(written) + Concat(chunks[..i])
      {
        var _ := Write(chunks[i]);
        assert chunks[..i + 1][..i] == chunks[..i];
      }
      assert chunks[..|chunks|] == chunks;
    }
  }

  function Concat(chunks: seq<seq<bv8>>): seq<bv8> {
    if chunks == [] then [] else Concat(chunks[..|chunks| - 1]) + chunks[|chunks| - 1]
  }
}
