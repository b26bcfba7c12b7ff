/** Positions in a buffer, and searching for a pattern whatever the chain layout. */
module EvBufferSearch {
  import opened Chains
  import opened EvBuffers
  import opened EvBufferBasic

  /** The pattern stands in `s` at position `p`. */
  predicate OccursAt(s: seq<byte>, what: seq<byte>, p: nat) {
    p + |what| <= |s| && s[p..p + |what|] == what
  }

  /** The byte at offset `k` of chain `i`, in the buffer. */
  lemma ByteAt(buf: EvBuffer, i: nat, k: nat)
    requires buf.Structure() && i < |buf.chains| && k < buf.chains[i].off
    ensures |buf.Before(i)| + k < |buf.Contents()|
    ensures buf.Contents()[|buf.Before(i)| + k] == buf.chains[i].Data()[k]
  {
    hide Flat;
    FlatSlice(buf.chains, i, k, k + 1);
    assert buf.chains[i].Data()[k..k + 1][0] == buf.Contents()[|buf.Before(i)| + k..|buf.Before(i)| + k + 1][0];
  }

  /** Where chain `i` ends is where chain `i + 1` begins. */
  lemma ChainEnd(buf: EvBuffer, i: nat)
    requires buf.Structure() && i < |buf.chains|
    ensures |buf.Before(i + 1)| == |buf.Before(i)| + buf.chains[i].off <= |buf.Contents()|
    ensures i + 1 == |buf.chains| ==> buf.Before(i + 1) == buf.Contents()
  {
    hide Flat;
    FlatStep(buf.chains, i);
    FlatCut(buf.chains, i + 1);
    if i + 1 == |buf.chains| {
      assert buf.chains[..i + 1] == buf.chains;
    }
  }

  /** The position in the next chain, or the end. */
  function NextChain(buf: EvBuffer, p: Ptr): (q: Ptr)
    requires buf.Structure() && PtrOk(buf, p) && p.chain >= 0
    reads buf
    ensures PtrOk(buf, q) && q.pos == p.pos + buf.chains[p.chain].off - p.posInChain
    ensures q.chain >= 0 ==> q.chain == p.chain + 1 && q.posInChain == 0
  {
    ChainEnd(buf, p.chain);
    Ptr(p.pos + buf.chains[p.chain].off - p.posInChain,
        if p.chain + 1 < |buf.chains| then p.chain + 1 else -1,
        0)
  }

  /** `memchr`: the index of the first `c` in `s`, or -1. */
  function Memchr(s: seq<byte>, c: byte): (r: int)
    ensures -1 <= r < |s|
    ensures r >= 0 ==> s[r] == c
    ensures forall k | 0 <= k < (if r < 0 then |s| else r) :: s[k] != c
  {
    if s == [] then -1
    else if s[0] == c then 0
    else
      var r := Memchr(s[1..], c);
      if r < 0 then -1 else r + 1
  }

  /** `memchr` over the bytes of a chain from offset `from` on; the result counts from there. */
  function FindInChain(chain: Chain, from: nat, c: byte): (r: int)
    requires chain.Ok() && from <= chain.off
    ensures -1 <= r < chain.off - from
  {
    Memchr(chain.Data()[from..], c)
  }

  /** The walk of `evbuffer_ptr_set`: `n` bytes on from `start`. */
  method Walk(buf: EvBuffer, start: Ptr, n: nat) returns (found: bool, p: Ptr)
    requires buf.Structure() && PtrOk(buf, start)
    ensures found <==> start.pos + n <= |buf.Contents()|
    ensures found ==> PtrOk(buf, p) && p.pos == start.pos + n
    ensures found && p.chain >= 0 ==> p.posInChain < buf.chains[p.chain].off
    ensures !found ==> p == NOT_FOUND
  {
    hide Flat;
    PosInRange(buf, start);
    var left, q := n, start;
    while q.chain >= 0 && q.posInChain + left >= buf.chains[q.chain].off
      invariant PtrOk(buf, q) && left >= 0 && q.pos + left == start.pos + n
      decreases if q.chain < 0 then 0 else |buf.chains| - q.chain
    {
      left := left - (buf.chains[q.chain].off - q.posInChain);
      q := NextChain(buf, q);
    }
    PosInRange(buf, q);
    if q.chain >= 0 {
      ChainEnd(buf, q.chain);
      p := Ptr(q.pos + left, q.chain, q.posInChain + left);
      found := true;
    } else if left == 0 {
      p := q;
      found := true;
    } else {
      p := NOT_FOUND;
      found := false;
    }
  }

  datatype PtrHow = FromStart | FromPtr

  /** The start of the buffer. */
  function StartPtr(buf: EvBuffer): (p: Ptr)
    requires buf.Structure()
    reads buf
    ensures PtrOk(buf, p) && p.pos == 0
  {
    assert buf.chains != [] ==> buf.chains[..0] == [];
    Ptr(0, if buf.chains == [] then -1 else 0, 0)
  }

  /** `evbuffer_ptr_set`. */
  method PtrSet(buf: EvBuffer, p: Ptr, position: nat, how: PtrHow) returns (result: int, q: Ptr)
    requires buf.Structure() && (how.FromPtr? && p.pos >= 0 ==> PtrOk(buf, p))
    ensures var from := if how.FromStart? then 0 else p.pos;
      && (result == 0 <==> from >= 0 && from + position <= buf.totalLen && (how.FromPtr? ==> from + position <= SIZE_MAX))
      && (result == 0 ==>
            && PtrOk(buf, q) && q.pos == from + position
            && (q.chain >= 0 ==> q.posInChain < buf.chains[q.chain].off))
    ensures result != 0 ==> result == -1 && (q == NOT_FOUND || q == p)
  {
    var start := p;
    match how {
      case FromStart =>
        start := StartPtr(buf);
      case FromPtr =>
        if p.pos < 0 || SIZE_MAX - position < p.pos {
          return -1, p;
        }
    }
    var found: bool;
    found, q := Walk(buf, start, position);
    result := if found then 0 else -1;
  }

  /** The first `n` bytes of `mem` stand in `s` at `p`. */
  ghost predicate Agree(s: seq<byte>, p: nat, mem: seq<byte>, n: nat) {
    p + n <= |s| && n <= |mem| && s[p..p + n] == mem[..n]
  }

  lemma AgreeEnds(s: seq<byte>, p: nat, mem: seq<byte>)
    requires p <= |s|
    ensures Agree(s, p, mem, 0)
    ensures Agree(s, p, mem, |mem|) <==> OccursAt(s, mem, p)
  {
    assert mem[..|mem|] == mem;
  }

  /** `memcmp` of `n` bytes of a chain with a piece of `mem`. */
  predicate SamePiece(chain: Chain, at: nat, mem: seq<byte>, done: nat, n: nat)
    requires chain.Ok() && at + n <= chain.off && done + n <= |mem|
  {
    chain.Data()[at..at + n] == mem[done..done + n]
  }

  /** Comparing one more piece of `n` bytes. */
  lemma CompareStep(buf: EvBuffer, p: nat, mem: seq<byte>, done: nat, n: nat, i: nat, at: nat)
    requires buf.Structure() && p + |mem| <= |buf.Contents()| && done + n <= |mem|
    requires Agree(buf.Contents(), p, mem, done)
    requires i < |buf.chains| && at + n <= buf.chains[i].off && p + done == |buf.Before(i)| + at
    ensures SamePiece(buf.chains[i], at, mem, done, n) <==> Agree(buf.Contents(), p, mem, done + n)
    ensures !SamePiece(buf.chains[i], at, mem, done, n) ==> !Agree(buf.Contents(), p, mem, |mem|)
  {
    hide Flat;
    var s := buf.Contents();
    FlatSlice(buf.chains, i, at, at + n);
    assert s[p..p + done] + s[p + done..p + done + n] == s[p..p + (done + n)];
    assert mem[..done] + mem[done..done + n] == mem[..done + n];
    assert s[p..p + (done + n)][done..] == s[p + done..p + done + n];
    assert mem[..done + n][done..] == mem[done..done + n];
    assert s[p..p + |mem|][..done + n] == s[p..p + (done + n)];
    assert mem[..|mem|][..done + n] == mem[..done + n];
  }

  /** `evbuffer_ptr_memcmp`, as far as whether the bytes are equal. */
  method PtrMatches(buf: EvBuffer, p: Ptr, mem: seq<byte>) returns (equal: bool)
    requires buf.Structure() && PtrOk(buf, p) && |mem| + p.pos <= SIZE_MAX
    ensures equal <==> OccursAt(buf.Contents(), mem, p.pos)
  {
    hide Flat;
    hide Agree;
    hide SamePiece;
    PosInRange(buf, p);
    if p.pos + |mem| > buf.totalLen {
      return false;
    }
    AgreeEnds(buf.Contents(), p.pos, mem);
    var q, done: nat := p, 0;
    while done < |mem| && q.chain >= 0
      invariant PtrOk(buf, q) && done <= |mem|
      invariant done < |mem| ==> q.pos == p.pos + done
      invariant Agree(buf.Contents(), p.pos, mem, done)
      decreases if q.chain < 0 then 0 else |buf.chains| - q.chain
    {
      var chain := buf.chains[q.chain];
      var n := if |mem| - done + q.posInChain > chain.off then chain.off - q.posInChain else |mem| - done;
      CompareStep(buf, p.pos, mem, done, n, q.chain, q.posInChain);
      if !SamePiece(chain, q.posInChain, mem, done, n) {
        return false;
      }
      done := done + n;
      q := NextChain(buf, q);
    }
    equal := true;
  }

  /** The pattern stands nowhere from `from` up to (not including) `to`. */
  ghost predicate Absent(s: seq<byte>, what: seq<byte>, from: int, to: int) {
    forall p: nat | from <= p < to :: !OccursAt(s, what, p)
  }

  /** A stretch of a chain without the first byte of the pattern has no occurrence. */
  lemma NoFirstByte(buf: EvBuffer, what: seq<byte>, i: nat, a: nat, b: nat)
    requires buf.Structure() && i < |buf.chains| && a <= b <= buf.chains[i].off && what != []
    requires forall k | a <= k < b :: buf.chains[i].Data()[k] != what[0]
    ensures Absent(buf.Contents(), what, |buf.Before(i)| + a, |buf.Before(i)| + b)
  {
    hide Flat;
    forall p: nat | |buf.Before(i)| + a <= p < |buf.Before(i)| + b
      ensures !OccursAt(buf.Contents(), what, p)
    {
      ByteAt(buf, i, p - |buf.Before(i)|);
      FirstByteOf(buf.Contents(), what, p);
    }
  }

  lemma FirstByteOf(s: seq<byte>, what: seq<byte>, p: nat)
    ensures what != [] && OccursAt(s, what, p) ==> p < |s| && s[p] == what[0]
  {
    assert what != [] && OccursAt(s, what, p) ==> s[p..p + |what|][0] == what[0];
  }

  lemma InChain(c: Chain, from: nat, b: byte)
    requires c.Ok() && from <= c.off
    ensures var k := FindInChain(c, from, b);
      forall j | from <= j < (if k < 0 then c.off else from + k) :: c.Data()[j] != b
  {
    assert forall j | from <= j < c.off :: c.Data()[j] == c.Data()[from..][j - from];
  }

  /** What one `memchr` in a chain tells about the pattern. */
  lemma ScanStep(buf: EvBuffer, what: seq<byte>, pos: Ptr, k: int)
    requires buf.Structure() && PtrOk(buf, pos) && pos.chain >= 0 && what != []
    requires k == FindInChain(buf.chains[pos.chain], pos.posInChain, what[0])
    ensures Absent(buf.Contents(), what, pos.pos,
                   pos.pos + if k >= 0 then k else buf.chains[pos.chain].off - pos.posInChain)
  {
    hide OccursAt;
    hide Flat;
    var chain := buf.chains[pos.chain];
    var at := if k >= 0 then pos.posInChain + k else chain.off;
    InChain(chain, pos.posInChain, what[0]);
    NoFirstByte(buf, what, pos.chain, pos.posInChain, at);
  }

  /** One byte further, and to the next chain when this one has been passed. */
  method NextByte(buf: EvBuffer, pos: Ptr) returns (next: Ptr)
    requires buf.Structure() && PtrOk(buf, pos) && pos.chain >= 0 && pos.posInChain < buf.chains[pos.chain].off
    ensures PtrOk(buf, next) && next.pos == pos.pos + 1
    ensures next.chain == -1 || next.chain == pos.chain + 1 || (next.chain == pos.chain && next.posInChain == pos.posInChain + 1)
  {
    hide Flat;
    next := Ptr(pos.pos + 1, pos.chain, pos.posInChain + 1);
    if next.posInChain == buf.chains[pos.chain].off {
      next := NextChain(buf, next);
    }
  }

  /** What a search for `what` from `start`, ending by `end` if given, may return. */
  ghost predicate SearchResult(buf: EvBuffer, what: seq<byte>, start: Ptr, bounded: bool, end: Ptr, r: Ptr)
    requires buf.Structure()
    reads buf
  {
    if what == [] || |what| > SSIZE_MAX then r == start
    else if r.pos >= 0 then
      && PtrOk(buf, r) && start.pos <= r.pos && OccursAt(buf.Contents(), what, r.pos)
      && (bounded ==> r.pos + |what| <= end.pos)
      && Absent(buf.Contents(), what, start.pos, r.pos)
    else
      && r == NOT_FOUND
      && forall p: nat | start.pos <= p && OccursAt(buf.Contents(), what, p) :: bounded && p + |what| > end.pos
  }

  /** `evbuffer_search_range`: the first occurrence at or after `start` that ends by `end`. */
  method SearchRange(buf: EvBuffer, what: seq<byte>, start: Ptr, bounded: bool, end: Ptr) returns (r: Ptr)
    requires buf.Structure() && buf.totalLen + |what| <= SIZE_MAX
    requires PtrOk(buf, start) && (bounded ==> PtrOk(buf, end))
    ensures SearchResult(buf, what, start, bounded, end, r)
  {
    hide Flat;
    hide OccursAt;
    hide FindInChain;
    var pos := start;
    var lastChain := if bounded then end.chain else -1;
    if what == [] || |what| > SSIZE_MAX {
      return pos;
    }
    PosInRange(buf, start);
    while pos.chain >= 0
      invariant PtrOk(buf, pos) && pos.pos >= start.pos
      invariant Absent(buf.Contents(), what, start.pos, pos.pos)
      decreases if pos.chain < 0 then 0 else |buf.chains| - pos.chain,
                if pos.chain < 0 then 0 else buf.chains[pos.chain].off - pos.posInChain
    {
      var chain := buf.chains[pos.chain];
      var k := FindInChain(chain, pos.posInChain, what[0]);
      ScanStep(buf, what, pos, k);
      if k >= 0 {
        pos := Ptr(pos.pos + k, pos.chain, pos.posInChain + k);
        PosInRange(buf, pos);
        var equal := PtrMatches(buf, pos, what);
        if equal {
          if bounded && pos.pos + |what| > end.pos {
            FirstTooLate(buf, what, start, end, pos);
            return NOT_FOUND;
          }
          return pos;
        }
        pos := NextByte(buf, pos);
      } else {
        if pos.chain == lastChain {
          BeyondLastChain(buf, what, start, end, pos);
          return NOT_FOUND;
        }
        pos := NextChain(buf, pos);
      }
    }
    NoneAtAll(buf, what, start);
    r := NOT_FOUND;
  }

  lemma FirstTooLate(buf: EvBuffer, what: seq<byte>, start: Ptr, end: Ptr, pos: Ptr)
    requires buf.Structure() && 0 <= start.pos <= pos.pos && what != []
    requires Absent(buf.Contents(), what, start.pos, pos.pos) && pos.pos + |what| > end.pos
    ensures forall p: nat | start.pos <= p && OccursAt(buf.Contents(), what, p) :: p + |what| > end.pos
  {
  }

  lemma BeyondLastChain(buf: EvBuffer, what: seq<byte>, start: Ptr, end: Ptr, pos: Ptr)
    requires buf.Structure() && PtrOk(buf, end) && PtrOk(buf, pos) && 0 <= start.pos && what != []
    requires pos.chain >= 0 && pos.chain == end.chain
    requires Absent(buf.Contents(), what, start.pos, |buf.Before(pos.chain)| + buf.chains[pos.chain].off)
    ensures forall p: nat | start.pos <= p && OccursAt(buf.Contents(), what, p) :: p + |what| > end.pos
  {
  }

  lemma NoneAtAll(buf: EvBuffer, what: seq<byte>, start: Ptr)
    requires buf.Structure() && 0 <= start.pos && what != []
    requires Absent(buf.Contents(), what, start.pos, |buf.Contents()|)
    ensures forall p: nat | start.pos <= p :: !OccursAt(buf.Contents(), what, p)
  {
  }
}
