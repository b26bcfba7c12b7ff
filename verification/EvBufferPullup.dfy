/** `evbuffer_pullup`: making the first bytes of a buffer contiguous. */
module EvBufferPullup {
  import opened Chains
  import opened EvBuffers
  import opened EvBufferBasic

  /** The copying loop: empties whole chains from chain `from` on into `tmp`, and notes whether
      the last chain with data, or the chain whose `next` field is the link to it, was freed. */
  method PullChains(buf: EvBuffer, from: nat, tmp: Chain, size: nat)
    returns (t: Chain, i: nat, left: nat, removedLast: bool, removedLink: bool)
    requires buf.Structure() && from <= |buf.chains|
    requires tmp.Ok() && !tmp.immutable && tmp.SpaceLen() >= size
    requires tmp.Data() + Flat(buf.chains[from..]) == buf.Contents()
    requires tmp.off + size <= |buf.Contents()|
    ensures from <= i <= |buf.chains| && left <= size
    ensures i < |buf.chains| ==> left < buf.chains[i].off
    ensures i == |buf.chains| ==> left == 0
    ensures t.Ok() && !t.immutable && t.SpaceLen() >= left
    ensures t.off + left == tmp.off + size
    ensures t.Data() + Flat(buf.chains[i..]) == buf.Contents()
    ensures removedLast <==> from <= buf.lastWithDatap < i
    ensures removedLink <==> from < buf.lastWithDatap <= i
  {
    hide Flat;
    FlatNil();
    t, i, left := tmp, from, size;
    removedLast, removedLink := false, false;
    while i < |buf.chains| && left >= buf.chains[i].off
      invariant from <= i <= |buf.chains| && left <= size
      invariant t.Ok() && !t.immutable && t.SpaceLen() >= left
      invariant t.off + left == tmp.off + size
      invariant t.Data() + Flat(buf.chains[i..]) == buf.Contents()
      invariant removedLast <==> from <= buf.lastWithDatap < i
      invariant removedLink <==> from < buf.lastWithDatap <= i
    {
      var chain := buf.chains[i];
      FlatStep(buf.chains, i);
      Assoc(t.Data(), chain.Data(), Flat(buf.chains[i + 1..]));
      t := t.WriteTail(chain.Data());
      left := left - chain.off;
      if i == buf.lastWithDatap {
        removedLast := true;
      }
      if i + 1 == buf.lastWithDatap {
        removedLink := true;
      }
      i := i + 1;
    }
    if i == |buf.chains| {
      assert buf.chains[i..] == [];
    }
  }

  /** `&first->next` if the second chain has data, else `&first`. */
  function SlotOfSecond(hasData: bool): nat {
    if hasData then 1 else 0
  }

  /** The end of `evbuffer_pullup`: takes `left` more bytes from chain `i`, puts `tmp` in front of
      what remains, and repairs `lastWithDatap`. */
  method PutFront(buf: EvBuffer, tmp: Chain, i: nat, left: nat, removedLast: bool, removedLink: bool)
    requires buf.Structure() && 0 < buf.lastWithDatap && i <= |buf.chains|
    requires i < |buf.chains| ==> left < buf.chains[i].off
    requires i == |buf.chains| ==> left == 0
    requires tmp.Ok() && !tmp.immutable && tmp.SpaceLen() >= left && tmp.off + left > 0
    requires tmp.Data() + Flat(buf.chains[i..]) == buf.Contents()
    requires removedLast <==> buf.lastWithDatap < i
    requires removedLink ==> buf.lastWithDatap <= i
    requires buf.lastWithDatap == i ==> removedLink || i == 1
    modifies buf`chains, buf`last, buf`lastWithDatap
    ensures buf.Structure() && buf.Contents() == old(buf.Contents())
    ensures buf.chains != [] && buf.chains[0].off == tmp.off + left
  {
    hide Flat;
    ghost var was, slot := buf.chains, buf.lastWithDatap;
    assert i < |was| ==> was[i].off > 0 && !removedLast;
    assert i == |was| ==> removedLast;
    var t := tmp;
    if i < |buf.chains| {
      var chain := buf.chains[i];
      FlatStep(buf.chains, i);
      var rest := chain.Drop(left);
      SplitJoin(t.Data(), chain.Data(), left, Flat(buf.chains[i + 1..]));
      t := t.WriteTail(chain.Data()[..left]);
      FlatConcat([t], [rest] + buf.chains[i + 1..]);
      FlatConcat([rest], buf.chains[i + 1..]);
      FlatOne(t);
      FlatOne(rest);
      buf.chains := [t] + ([rest] + buf.chains[i + 1..]);
      buf.last := buf.last - i + 1;
      assert forall j | 1 < j < |buf.chains| :: buf.chains[j] == was[j + i - 1];
    } else {
      FlatOne(t);
      FlatNil();
      assert was[i..] == [];
      buf.chains := [t];
      buf.last := 0;
    }
    if removedLast {
      buf.lastWithDatap := 0;
    } else if removedLink {
      buf.lastWithDatap := SlotOfSecond(|buf.chains| > 1 && buf.chains[1].off > 0);
    } else {
      // The link lies in a chain that stays; it keeps its place in the list.
      buf.lastWithDatap := buf.lastWithDatap - i + 1;
    }
  }

  lemma SplitJoin<T>(a: seq<T>, b: seq<T>, n: nat, c: seq<T>)
    requires n <= |b|
    ensures a + (b + c) == (a + b[..n]) + (b[n..] + c)
  {
    assert b == b[..n] + b[n..];
  }

  /** `evbuffer_pullup`; `ok` is false where the original returns NULL. */
  method Pullup(buf: EvBuffer, size: int) returns (ok: bool)
    requires buf.Valid()
    modifies buf`chains, buf`last, buf`lastWithDatap
    ensures buf.Valid() && buf.Contents() == old(buf.Contents())
    ensures var n := if size < 0 then buf.totalLen else size;
      && (ok <==> 0 < n <= buf.totalLen)
      && (ok ==> buf.chains != [] && buf.chains[0].off >= n && buf.chains[0].Data()[..n] == buf.Contents()[..n])
      && (!ok ==> buf.chains == old(buf.chains))
  {
    hide Flat;
    var n := if size < 0 then buf.totalLen else size;
    if n == 0 || n > buf.totalLen {
      return false;
    }
    LastDataHolds(buf);
    PullupSome(buf, n);
    FirstBytes(buf.chains, n);
    ok := true;
  }

  /** The first chain holds the first bytes of the buffer. */
  lemma FirstBytes(cs: seq<Chain>, n: nat)
    requires cs != [] && n <= |cs[0].Data()|
    ensures n <= |Flat(cs)| && Flat(cs)[..n] == cs[0].Data()[..n]
  {
  }

  method PullupSome(buf: EvBuffer, n: nat)
    requires buf.Structure() && 0 < n <= buf.totalLen && !buf.NoLastWithData()
    modifies buf`chains, buf`last, buf`lastWithDatap
    ensures buf.Structure() && buf.Contents() == old(buf.Contents())
    ensures buf.chains != [] && buf.chains[0].off >= n
  {
    hide Flat;
    var chain := buf.chains[0];
    if chain.off >= n {
      return;
    }
    FlatStep(buf.chains, 0);
    assert buf.chains[0..] == buf.chains;
    if buf.lastWithDatap == 0 {
      NoBytes(buf.chains[1..]);
    }
    if |chain.mem| - chain.misalign >= n {
      // Enough space in the first chain: copy the following bytes behind its own.
      var t, i, left, removedLast, removedLink := PullChains(buf, 1, chain, n - chain.off);
      PutFront(buf, t, i, left, removedLast, removedLink);
    } else {
      var tmp := NewChain(n);
      assert tmp.Data() + Flat(buf.chains[0..]) == buf.Contents();
      var t, i, left, removedLast, removedLink := PullChains(buf, 0, tmp, n);
      PutFront(buf, t, i, left, removedLast, removedLink);
    }
  }
}
