/** Adding, prepending, draining and copying out bytes. */
module EvBufferBasic {
  import opened Basics
  import opened Chains
  import opened CallbackCounters
  import opened EvBuffers

  const CHAIN_MAX_AUTO_SIZE: nat := 4096

  /** Copies `data` to the free space of the last chain with data. */
  method FillLast(buf: EvBuffer, data: seq<byte>)
    requires buf.Valid() && !buf.NoLastWithData()
    requires |data| <= buf.chains[buf.lastWithDatap].SpaceLen()
    modifies buf`chains, buf`totalLen, buf.cb`nAdd
    ensures buf.Valid()
    ensures buf.chains == old(buf.chains[buf.lastWithDatap := buf.chains[buf.lastWithDatap].WriteTail(data)])
    ensures buf.Contents() == old(buf.Contents()) + data
    ensures buf.totalLen == old(buf.totalLen) + |data|
    ensures buf.cb.nAdd == old(buf.cb.nAdd) + |data|
  {
    hide Flat;
    var i := buf.lastWithDatap;
    var chain := buf.chains[i].WriteTail(data);
    FlatGrow(buf.chains, i, chain, data);
    buf.chains := buf.chains[i := chain];
    buf.cb.Added(buf.totalLen, |data|);
    buf.totalLen := buf.totalLen + |data|;
  }

  /** Appends a chain and accounts for its bytes. */
  method InsertCounted(buf: EvBuffer, chain: Chain)
    requires buf.Valid() && chain.Ok()
    modifies buf`chains, buf`last, buf`lastWithDatap, buf`totalLen, buf.cb`nAdd
    ensures buf.Valid()
    ensures buf.chains != [] && buf.chains[|buf.chains| - 1] == chain
    ensures buf.Contents() == old(buf.Contents()) + chain.Data()
    ensures buf.cb.nAdd == old(buf.cb.nAdd) + chain.off
    ensures old(buf.chains) == [] ==> buf.chains == [chain]
  {
    buf.cb.Added(buf.totalLen, chain.off);
    ChainInsert(buf, chain);
  }

  /** What `evbuffer_add` does: append, unless the end is frozen or the length would overflow. */
  method Add(buf: EvBuffer, data: seq<byte>) returns (result: int)
    requires buf.Valid()
    modifies buf, buf.cb
    ensures buf.Valid()
    ensures buf.freezeStart == old(buf.freezeStart) && buf.freezeEnd == old(buf.freezeEnd)
    ensures result == 0 <==> !buf.freezeEnd && |data| + old(buf.totalLen) <= SIZE_MAX
    ensures result == 0 ==> buf.Contents() == old(buf.Contents()) + data
    ensures result != 0 ==> result == -1 && buf.chains == old(buf.chains)
    ensures result == 0 && old(buf.chains) == [] && |data| <= SMALLEST ==>
              |buf.chains| == 1 && Small(buf.chains[0], |data|)
    ensures if result == 0 then buf.cb.Told(|data|, 0) else unchanged(buf.cb)
  {
    hide Flat;
    result := -1;
    if buf.freezeEnd {
      return;
    }
    if |data| > SIZE_MAX - buf.totalLen {
      return;
    }
    EnsureChain(buf, |data|);
    AddAll(buf, data);
    buf.cb.Invoke(buf.totalLen);
    result := 0;
  }

  /** Gives a buffer without chains an empty one. */
  method EnsureChain(buf: EvBuffer, size: nat)
    requires buf.Valid()
    modifies buf`chains, buf`last, buf`lastWithDatap, buf`totalLen, buf.cb`nAdd
    ensures buf.Valid() && buf.chains != []
    ensures buf.Contents() == old(buf.Contents()) && buf.cb.nAdd == old(buf.cb.nAdd)
    ensures old(buf.chains) == [] && size <= SMALLEST ==> |buf.chains| == 1 && Small(buf.chains[0], 0)
  {
    hide Flat;
    if buf.chains == [] {
      var added := NewChain(size);
      InsertCounted(buf, added);
    }
  }

  /** The part of `evbuffer_add` that moves bytes. */
  method AddAll(buf: EvBuffer, data: seq<byte>)
    requires buf.Valid() && !buf.NoLastWithData()
    modifies buf`chains, buf`last, buf`lastWithDatap, buf`totalLen, buf.cb`nAdd
    ensures buf.Valid()
    ensures buf.Contents() == old(buf.Contents()) + data
    ensures old(|buf.chains| == 1 && Small(buf.chains[0], 0)) && |data| <= SMALLEST ==>
              |buf.chains| == 1 && Small(buf.chains[0], |data|)
    ensures buf.cb.nAdd == old(buf.cb.nAdd) + |data|
    ensures var i, c := old(buf.lastWithDatap), old(buf.chains[buf.lastWithDatap]);
      && (c.SpaceLen() >= |data| && !c.immutable ==> buf.chains == old(buf.chains)[i := c.WriteTail(data)])
      && (c.SpaceLen() < |data| && !c.immutable && c.ShouldRealign(|data|) ==>
            buf.chains == old(buf.chains)[i := c.Align().WriteTail(data)])
      && (c.immutable || (c.SpaceLen() < |data| && !c.ShouldRealign(|data|)) ==>
            buf.chains != [] && NewTail(c, buf.chains[|buf.chains| - 1], data))
  {
    hide Flat;
    hide Chain.Data;
    var chain := buf.chains[buf.lastWithDatap];
    var remain := if chain.immutable then 0 else |chain.mem| - chain.misalign - chain.off;
    if !chain.immutable && remain >= |data| {
      FillLast(buf, data);
    } else if !chain.immutable && chain.ShouldRealign(|data|) {
      Realign(buf, buf.lastWithDatap);
      FillLast(buf, data);
    } else {
      AddWithNewChain(buf, data, remain);
    }
  }

  /** Moves the bytes of a chain to the start of its block. */
  method Realign(buf: EvBuffer, i: nat)
    requires buf.Structure() && i < |buf.chains| && !buf.chains[i].immutable
    modifies buf`chains
    ensures buf.Structure() && buf.chains == old(buf.chains[i := buf.chains[i].Align()])
    ensures buf.Contents() == old(buf.Contents())
  {
    hide Flat;
    FlatUpdate(buf.chains, i, buf.chains[i].Align());
    buf.chains := buf.chains[i := buf.chains[i].Align()];
  }

  /** A new chain with these bytes. */
  method FilledChain(size: nat, data: seq<byte>) returns (chain: Chain)
    requires |data| <= size
    ensures chain.Ok() && chain.off == |data| && chain.Data() == data && !chain.immutable && |chain.mem| >= size
  {
    chain := NewChain(size);
    chain := chain.WriteTail(data);
  }

  /** The new last chain holds what does not fit behind the old one; while blocks are small, its block is at least twice
      as large. */
  predicate NewTail(old': Chain, tail: Chain, data: seq<byte>)
    requires old'.Ok()
  {
    && tail.off == |data| - old'.SpaceLen() && !tail.immutable && |tail.mem| >= |data|
    && |tail.mem| >= |old'.mem| * if |old'.mem| <= CHAIN_MAX_AUTO_SIZE / 2 then 2 else 1
  }

  /** The last part of `evbuffer_add`: fill what remains of the last chain and put the rest into
      a new one. */
  method AddWithNewChain(buf: EvBuffer, data: seq<byte>, remain: nat)
    requires buf.Valid() && !buf.NoLastWithData()
    requires remain == buf.chains[buf.lastWithDatap].SpaceLen() && remain <= |data|
    modifies buf`chains, buf`last, buf`lastWithDatap, buf`totalLen, buf.cb`nAdd
    ensures buf.Valid()
    ensures buf.Contents() == old(buf.Contents()) + data
    ensures buf.cb.nAdd == old(buf.cb.nAdd) + |data|
    ensures buf.chains != [] && NewTail(old(buf.chains[buf.lastWithDatap]), buf.chains[|buf.chains| - 1], data)
  {
    hide Flat;
    hide Chain.Data;
    hide Chain.WriteTail;
    var toAlloc := |buf.chains[buf.lastWithDatap].mem|;
    if toAlloc <= CHAIN_MAX_AUTO_SIZE / 2 {
      toAlloc := toAlloc * 2;
    }
    if |data| > toAlloc {
      toAlloc := |data|;
    }
    var tmp := FilledChain(toAlloc, data[remain..]);
    if remain > 0 {
      FillLast(buf, data[..remain]);
    }
    InsertCounted(buf, tmp);
    Assoc(old(buf.Contents()), data[..remain], data[remain..]);
    assert data[..remain] + data[remain..] == data;
  }

  /** The chain that is left when the first `n` bytes go to the free space before it. */
  method FillFirst(buf: EvBuffer, data: seq<byte>)
    requires buf.Valid() && buf.chains != [] && !buf.chains[0].immutable
    requires |data| <= buf.chains[0].misalign
    modifies buf`chains, buf`totalLen, buf.cb`nAdd
    ensures buf.Valid()
    ensures buf.chains == old(buf.chains[0 := buf.chains[0].WriteHead(data)])
    ensures buf.Contents() == data + old(buf.Contents())
    ensures buf.totalLen == old(buf.totalLen) + |data|
    ensures buf.cb.nAdd == old(buf.cb.nAdd) + |data|
  {
    hide Flat;
    var chain := buf.chains[0].WriteHead(data);
    FlatUpdate(buf.chains, 0, chain);
    FlatNil();
    Assoc(data, buf.chains[0].Data(), Flat(buf.chains[1..]));
    buf.chains := buf.chains[0 := chain];
    buf.cb.Added(buf.totalLen, |data|);
    buf.totalLen := buf.totalLen + |data|;
  }

  /** A chain, and if it is empty all its space counts as in front. */
  function Shifted(c: Chain): Chain {
    if c.off == 0 && !c.immutable then c.(misalign := |c.mem|) else c
  }

  /** The space in front of the bytes of a chain. */
  function FrontRoom(c: Chain): nat
    requires c.Ok()
  {
    if c.immutable then 0 else Shifted(c).misalign
  }

  /** The bytes are in front of the first chain if there is room, and a new chain holds those for which there is none. */
  predicate NewHead(was: seq<Chain>, chains: seq<Chain>, data: seq<byte>)
    requires was != [] && was[0].Ok()
  {
    var c := was[0];
    if !c.immutable && FrontRoom(c) >= |data| then chains == was[0 := Shifted(c).WriteHead(data)]
    else
      && |chains| == |was| + 1 && chains[0].off == |data| - FrontRoom(c)
      && chains[1].off == c.off + FrontRoom(c) && chains[2..] == was[1..]
  }

  /** An empty first chain counts as empty at its beginning: all its space is in front. */
  method ShiftFirst(buf: EvBuffer)
    requires buf.Structure() && buf.chains != [] && !buf.chains[0].immutable
    modifies buf`chains
    ensures buf.Structure() && buf.Contents() == old(buf.Contents())
    ensures buf.chains == old(buf.chains[0 := Shifted(buf.chains[0])])
  {
    hide Flat;
    var chain := buf.chains[0];
    if chain.off == 0 {
      chain := chain.(misalign := |chain.mem|);
      FlatUpdate(buf.chains, 0, chain);
      buf.chains := buf.chains[0 := chain];
    } else {
      assert buf.chains == buf.chains[0 := chain];
    }
  }

  /** A new chain with these bytes at the end of its block. */
  method FlushChain(data: seq<byte>) returns (chain: Chain)
    requires data != []
    ensures chain.Ok() && chain.off == |data| && chain.Data() == data
  {
    chain := NewChain(|data|);
    chain := chain.(misalign := |chain.mem|);
    chain := chain.WriteHead(data);
  }

  /** Puts `data` in a new chain before all others, flush with the end of its block. */
  method PushChain(buf: EvBuffer, data: seq<byte>)
    requires buf.Valid() && buf.chains != [] && data != []
    modifies buf`chains, buf`last, buf`lastWithDatap, buf`totalLen, buf.cb`nAdd
    ensures buf.Valid()
    ensures buf.Contents() == data + old(buf.Contents())
    ensures buf.cb.nAdd == old(buf.cb.nAdd) + |data|
    ensures buf.chains != [] && buf.chains[0].off == |data| && buf.chains[1..] == old(buf.chains)
  {
    hide Flat;
    hide Chain.Data;
    var chain := buf.chains[0];
    var tmp := FlushChain(data);
    // Slot i of the old list becomes slot i + 1, except that &buf->first stays what it is.
    if buf.lastWithDatap == 0 {
      if chain.off != 0 {
        buf.lastWithDatap := 1;
      }
    } else {
      buf.lastWithDatap := buf.lastWithDatap + 1;
    }
    FlatConcat([tmp], buf.chains);
    FlatOne(tmp);
    buf.chains := [tmp] + buf.chains;
    buf.last := buf.last + 1;
    buf.cb.Added(buf.totalLen, |data|);
    buf.totalLen := buf.totalLen + |data|;
  }

  /** `evbuffer_prepend`. */
  method Prepend(buf: EvBuffer, data: seq<byte>) returns (result: int)
    requires buf.Valid()
    modifies buf, buf.cb
    ensures buf.Valid()
    ensures buf.freezeStart == old(buf.freezeStart) && buf.freezeEnd == old(buf.freezeEnd)
    ensures result == 0 <==> data == [] || (!buf.freezeStart && |data| + old(buf.totalLen) <= SIZE_MAX)
    ensures result == 0 ==> buf.Contents() == data + old(buf.Contents())
    ensures result != 0 ==> result == -1 && buf.chains == old(buf.chains)
    ensures if result == 0 && data != [] then buf.cb.Told(|data|, 0) else unchanged(buf.cb)
  {
    hide Flat;
    hide NewHead;
    result := -1;
    if data == [] {
      return 0;
    }
    if buf.freezeStart {
      return;
    }
    if |data| > SIZE_MAX - buf.totalLen {
      return;
    }
    EnsureChain(buf, |data|);
    PrependAll(buf, data);
    buf.cb.Invoke(buf.totalLen);
    result := 0;
  }

  /** The part of `evbuffer_prepend` that moves bytes. */
  method PrependAll(buf: EvBuffer, data: seq<byte>)
    requires buf.Valid() && buf.chains != [] && data != []
    modifies buf`chains, buf`last, buf`lastWithDatap, buf`totalLen, buf.cb`nAdd
    ensures buf.Valid()
    ensures buf.Contents() == data + old(buf.Contents())
    ensures buf.cb.nAdd == old(buf.cb.nAdd) + |data|
    ensures NewHead(old(buf.chains), buf.chains, data)
  {
    hide Flat;
    hide Chain.Data;
    var datlen := |data|;
    if !buf.chains[0].immutable {
      ShiftFirst(buf);
      assert buf.chains == old(buf.chains)[0 := Shifted(old(buf.chains[0]))];
      var room := buf.chains[0].misalign;
      if room >= datlen {
        FillFirst(buf, data);
        return;
      } else if room > 0 {
        FillFirst(buf, data[datlen - room..]);
        datlen := datlen - room;
      }
    }
    assert data[..datlen] + data[datlen..] == data;
    assert datlen == |data| ==> data[..datlen] == data && data[datlen..] == [];
    ghost var rest := buf.chains[1..];
    PushChain(buf, data[..datlen]);
    assert buf.chains[2..] == buf.chains[1..][1..] == rest;
    Assoc(data[..datlen], data[datlen..], old(buf.Contents()));
  }

  /** `evbuffer_add_reference`: the memory is lent, so the new chain is read-only. */
  method AddReference(buf: EvBuffer, data: seq<byte>) returns (result: int)
    requires buf.Valid()
    modifies buf, buf.cb
    ensures buf.Valid()
    ensures buf.freezeStart == old(buf.freezeStart) && buf.freezeEnd == old(buf.freezeEnd)
    ensures result == if buf.freezeEnd then -1 else 0
    ensures result == 0 ==> buf.Contents() == old(buf.Contents()) + data
    ensures result != 0 ==> buf.chains == old(buf.chains)
    ensures if result == 0 then buf.cb.Told(|data|, 0) else unchanged(buf.cb)
  {
    hide Flat;
    var chain := Chain(data, 0, |data|, true);
    assert chain.Data() == data;
    if buf.freezeEnd {
      return -1;
    }
    InsertCounted(buf, chain);
    buf.cb.Invoke(buf.totalLen);
    result := 0;
  }

  /** The loop of `evbuffer_drain` when some bytes stay: frees every chain that is used up and
      shortens the next one. */
  method DrainSome(buf: EvBuffer, len: nat)
    requires buf.Structure() && len < buf.totalLen
    modifies buf`chains, buf`last, buf`lastWithDatap, buf`totalLen
    ensures buf.Structure()
    ensures buf.Contents() == old(buf.Contents())[len..]
    ensures buf.totalLen == old(buf.totalLen) - len
  {
    hide Flat;
    ghost var was := buf.chains;
    ghost var slot := buf.lastWithDatap;
    LastDataHolds(buf);
    FlatNil();
    buf.totalLen := buf.totalLen - len;
    var remaining: nat := len;
    var i := 0;
    while remaining >= buf.chains[i].off
      invariant buf.chains == was && buf.last == |was| - 1 && buf.totalLen + len == |Flat(was)|
      invariant i <= slot && slot < |was|
      invariant remaining + |Flat(was[..i])| == len
      invariant buf.lastWithDatap == if slot <= i then 0 else slot
      decreases |was| - i
    {
      FlatStep(was, i);
      FlatCut(was, i + 1);
      assert i != slot by {
        if i == slot {
          NoBytes(was[i + 1..]);
        }
      }
      remaining := remaining - buf.chains[i].off;
      // Freeing the chain that the link leads to, or the chain that the link is in.
      buf.lastWithDatap := if buf.lastWithDatap == i || buf.lastWithDatap == i + 1 then 0 else buf.lastWithDatap;
      i := i + 1;
    }
    CutFront(buf, i, remaining, slot);
  }

  /** Makes chain `i` the first one and takes `n` bytes off it; `lastWithDatap` was `slot` in the
      old list and has been reset if its link went away. */
  method CutFront(buf: EvBuffer, i: nat, n: nat, ghost slot: nat)
    requires buf.ChainsOk() && buf.last == |buf.chains| - 1
    requires i < |buf.chains| && n < buf.chains[i].off
    requires i <= slot < |buf.chains| && buf.chains[slot].off > 0
    requires forall j | slot < j < |buf.chains| :: buf.chains[j].off == 0
    requires buf.lastWithDatap == if slot <= i then 0 else slot
    requires buf.totalLen + |buf.Before(i)| + n == |buf.Contents()|
    modifies buf`chains, buf`last, buf`lastWithDatap
    ensures buf.Structure()
    ensures old(|buf.Before(i)| + n <= |buf.Contents()|)
    ensures buf.Contents() == old(buf.Contents()[|buf.Before(i)| + n..])
  {
    hide Flat;
    hide CutList;
    DropPrefix(buf.chains, i, n);
    var chain := if n == 0 then buf.chains[i] else buf.chains[i].Drop(n);
    CutListAt(buf.chains, i, chain);
    if buf.lastWithDatap > 0 {
      buf.lastWithDatap := buf.lastWithDatap - i;
    }
    buf.last := buf.last - i;
    buf.chains := CutList(buf.chains, i, chain);
  }

  /** The list from chain `i` on, with another first chain. */
  function CutList(cs: seq<Chain>, i: nat, c: Chain): seq<Chain>
    requires i < |cs|
  {
    [c] + cs[i + 1..]
  }

  lemma CutListAt(cs: seq<Chain>, i: nat, c: Chain)
    requires i < |cs|
    ensures var ds := CutList(cs, i, c);
      |ds| == |cs| - i && ds[0] == c && forall j | 0 < j < |ds| :: ds[j] == cs[i + j]
  {
  }

  /** When there are bytes, the chain at `lastWithDatap` has some. */
  lemma LastDataHolds(buf: EvBuffer)
    requires buf.Structure() && buf.totalLen > 0
    ensures !buf.NoLastWithData() && buf.chains[buf.lastWithDatap].off > 0
  {
    if buf.chains == [] {
      FlatNil();
    } else if buf.lastWithDatap == 0 && buf.chains[0].off == 0 {
      NoBytes(buf.chains);
    }
  }

  /** The list without its first `i` chains and `n` more bytes. */
  lemma DropPrefix(cs: seq<Chain>, i: nat, n: nat)
    requires i < |cs| && cs[i].Ok() && n < cs[i].off
    ensures var c := if n == 0 then cs[i] else cs[i].Drop(n);
      var len := |Flat(cs[..i])| + n;
      len < |Flat(cs)| && Flat(CutList(cs, i, c)) == Flat(cs)[len..]
  {
    hide Flat;
    var c := if n == 0 then cs[i] else cs[i].Drop(n);
    FlatConcat([c], cs[i + 1..]);
    FlatOne(c);
    FlatSplit(cs, i);
    assert c.Data() == cs[i].Data()[n..];
  }

  /** `evbuffer_drain`. */
  method Drain(buf: EvBuffer, len: nat) returns (result: int)
    requires buf.Valid()
    modifies buf, buf.cb
    ensures buf.Valid()
    ensures buf.freezeStart == old(buf.freezeStart) && buf.freezeEnd == old(buf.freezeEnd)
    ensures result == if old(buf.totalLen) > 0 && buf.freezeStart then -1 else 0
    ensures result == 0 && len >= old(buf.totalLen) ==> buf.Contents() == []
    ensures result == 0 && len < old(buf.totalLen) ==> buf.Contents() == old(buf.Contents())[len..]
    ensures result != 0 || old(buf.totalLen) == 0 ==> buf.chains == old(buf.chains)
    ensures if result == 0 && old(buf.totalLen) > 0
            then buf.cb.Told(0, if len < old(buf.totalLen) then len else old(buf.totalLen))
            else unchanged(buf.cb)
  {
    hide Flat;
    hide EvBuffer.ChainsOk;
    hide EvBuffer.LastDataOk;
    hide Counters.Ok;
    hide Telescopes;
    var oldLen := buf.totalLen;
    if oldLen == 0 {
      return 0;
    }
    if buf.freezeStart {
      return -1;
    }
    var n := len;
    if len >= oldLen {
      n := oldLen;
      ZeroChain(buf);
    } else {
      DrainSome(buf, len);
    }
    buf.cb.Deleted(oldLen, n);
    buf.cb.Invoke(buf.totalLen);
    result := 0;
  }

  /** `ZERO_CHAIN`. */
  method ZeroChain(buf: EvBuffer)
    modifies buf`chains, buf`last, buf`lastWithDatap, buf`totalLen
    ensures buf.Structure() && buf.chains == [] && buf.Contents() == [] && buf.totalLen == 0
  {
    buf.chains, buf.last, buf.lastWithDatap, buf.totalLen := [], -1, 0, 0;
  }

  /** Where copying starts that is told a position or none. */
  function StartPos(start: Option<Ptr>): int {
    if start.Some? then start.value.pos else 0
  }

  /** `evbuffer_copyout_from`.  Only with a start position is a length refused for its size; without one
      it is cut to the length of the buffer, however large it is. */
  method CopyoutFrom(buf: EvBuffer, start: Option<Ptr>, datlen: nat) returns (result: int, data: seq<byte>)
    requires buf.Valid() && (start.Some? ==> PtrOk(buf, start.value))
    ensures 0 <= StartPos(start) <= |buf.Contents()| == buf.totalLen
    ensures result == -1 <==>
              (start.Some? && datlen > SSIZE_MAX - start.value.pos) ||
              (buf.freezeStart && datlen > 0 && StartPos(start) < buf.totalLen)
    ensures result >= 0 ==>
              result == (if StartPos(start) + datlen > buf.totalLen then buf.totalLen - StartPos(start) else datlen) &&
              data == buf.Contents()[StartPos(start)..StartPos(start) + result]
    ensures result >= -1
  {
    hide Flat;
    data := [];
    var left, chain, posInChain := datlen, 0, 0;
    if start.Some? {
      PosInRange(buf, start.value);
      if datlen > SSIZE_MAX - start.value.pos {
        return -1, data;
      }
      chain, posInChain := start.value.chain, start.value.posInChain;
      if datlen + start.value.pos > buf.totalLen {
        left := buf.totalLen - start.value.pos;
      }
    } else if datlen > buf.totalLen {
      left := buf.totalLen;
    }
    if left == 0 {
      return 0, data;
    }
    if buf.freezeStart {
      return -1, data;
    }
    FirstPos(buf);
    data := CopyChains(buf, chain, posInChain, left);
    result := left;
  }

  lemma FirstPos(buf: EvBuffer)
    requires buf.Structure()
    ensures buf.totalLen > 0 ==> buf.chains != [] && buf.Before(0) == []
  {
    FlatNil();
    assert buf.chains[..0] == [];
  }

  lemma PosInRange(buf: EvBuffer, p: Ptr)
    requires buf.Structure() && PtrOk(buf, p)
    ensures 0 <= p.pos <= |buf.Contents()|
  {
    if p.chain >= 0 {
      FlatSlice(buf.chains, p.chain, 0, p.posInChain);
    }
  }

  /** One `memcpy`: `n` bytes of chain `i` go behind what has been copied from position `at` on. */
  method CopyPiece(buf: EvBuffer, ghost at: nat, i: nat, pos: nat, n: nat, data: seq<byte>) returns (data': seq<byte>)
    requires buf.Structure() && i < |buf.chains| && pos + n <= buf.chains[i].off
    requires at + |data| == |buf.Before(i)| + pos <= |buf.Contents()| && data == buf.Contents()[at..at + |data|]
    ensures |data'| == |data| + n && at + |data'| <= |buf.Contents()|
    ensures data' == buf.Contents()[at..at + |data'|]
  {
    hide Flat;
    FlatSlice(buf.chains, i, pos, pos + n);
    var piece := buf.chains[i].Data()[pos..pos + n];
    JoinSlices(buf.Contents(), at, data, piece);
    data' := data + piece;
  }

  /** The copying loop: `n` bytes from offset `pos` of chain `from` on. */
  method CopyChains(buf: EvBuffer, from: nat, pos: nat, n: nat) returns (data: seq<byte>)
    requires buf.Structure() && from < |buf.chains| && pos <= buf.chains[from].off
    requires |buf.Before(from)| + pos + n <= |buf.Contents()|
    ensures data == buf.Contents()[|buf.Before(from)| + pos..|buf.Before(from)| + pos + n]
  {
    hide Flat;
    hide EvBuffer.Structure;
    ghost var at := |buf.Before(from)| + pos;
    data := [];
    var i: nat, posInChain: nat, left: nat := from, pos, n;
    while left > 0 && left >= buf.chains[i].off - posInChain
      invariant left + |data| == n && at + |data| <= |buf.Contents()|
      invariant i <= |buf.chains| && (i == |buf.chains| ==> left == 0)
      invariant i < |buf.chains| ==> posInChain <= buf.chains[i].off
      invariant i < |buf.chains| ==> |buf.Before(i)| + posInChain == at + |data|
      invariant data == buf.Contents()[at..at + |data|]
      decreases |buf.chains| - i
    {
      var copylen := buf.chains[i].off - posInChain;
      data := CopyPiece(buf, at, i, posInChain, copylen, data);
      left := left - copylen;
      AfterChain(buf, i);
      i := i + 1;
      posInChain := 0;
    }
    if left > 0 {
      data := CopyPiece(buf, at, i, posInChain, left, data);
    }
  }

  lemma AfterChain(buf: EvBuffer, i: nat)
    requires buf.Structure() && i < |buf.chains|
    ensures |buf.Before(i + 1)| == |buf.Before(i)| + buf.chains[i].off
    ensures i + 1 == |buf.chains| ==> buf.Before(i + 1) == buf.Contents()
  {
    FlatStep(buf.chains, i);
    assert i + 1 == |buf.chains| ==> buf.chains[..i + 1] == buf.chains;
  }

  lemma JoinSlices<T>(s: seq<T>, at: nat, d: seq<T>, piece: seq<T>)
    requires at + |d| + |piece| <= |s|
    requires d == s[at..at + |d|] && piece == s[at + |d|..at + |d| + |piece|]
    ensures d + piece == s[at..at + |d + piece|]
  {
  }

  /** `evbuffer_remove`: copy out from the front, then drain what was copied; however many bytes are
      asked for, there are no more than those of the buffer. */
  method Remove(buf: EvBuffer, datlen: nat) returns (n: int, data: seq<byte>)
    requires buf.Valid()
    modifies buf, buf.cb
    ensures buf.Valid()
    ensures buf.freezeStart == old(buf.freezeStart) && buf.freezeEnd == old(buf.freezeEnd)
    ensures n == -1 <==> buf.freezeStart && datlen > 0 && old(buf.totalLen) > 0
    ensures n >= 0 ==> n == (if datlen > old(buf.totalLen) then old(buf.totalLen) else datlen)
    ensures n >= 0 ==> data == old(buf.Contents())[..n] && buf.Contents() == old(buf.Contents())[n..]
    ensures n < 0 ==> n == -1 && buf.chains == old(buf.chains)
    ensures if n > 0 then buf.cb.Told(0, n) else unchanged(buf.cb)
  {
    hide Flat;
    n, data := CopyoutFrom(buf, None, datlen);
    if n > 0 {
      var r := Drain(buf, n);
    }
  }
}
