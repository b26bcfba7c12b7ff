/** Moving bytes between two buffers, by relinking chains where that is possible. */
module EvBufferMove {
  import opened Chains
  import opened CallbackCounters
  import opened EvBuffers
  import opened EvBufferBasic

  /** Two different buffers share nothing. */
  ghost predicate Apart(a: EvBuffer, b: EvBuffer) {
    a != b ==> a.cb != b.cb
  }

  /** `COPY_CHAIN`: the chains of `src` replace those of `dst`.  A link that is `&src->first`
      becomes `&dst->first`; all others lie in the chains and stay what they are. */
  method CopyChain(dst: EvBuffer, src: EvBuffer)
    requires dst != src && src.Structure()
    modifies dst`chains, dst`last, dst`lastWithDatap, dst`totalLen
    ensures dst.Structure() && dst.chains == src.chains && dst.totalLen == src.totalLen
  {
    dst.chains := src.chains;
    dst.lastWithDatap := src.lastWithDatap;
    dst.last := src.last;
    dst.totalLen := src.totalLen;
  }

  /** `APPEND_CHAIN`. */
  method AppendChain(dst: EvBuffer, src: EvBuffer)
    requires dst != src && dst.Structure() && src.Structure() && src.totalLen > 0
    modifies dst`chains, dst`last, dst`lastWithDatap, dst`totalLen
    ensures dst.Structure()
    ensures dst.Contents() == old(dst.Contents()) + src.Contents()
    ensures dst.totalLen == old(dst.totalLen) + src.totalLen
  {
    hide Flat;
    LastDataHolds(src);
    var chp := FreeTrailingEmptyChains(dst);
    FlatConcat(dst.chains, src.chains);
    dst.chains := dst.chains + src.chains;
    dst.lastWithDatap := if src.lastWithDatap == 0 then chp else chp + src.lastWithDatap;
    dst.last := chp + src.last;
    dst.totalLen := dst.totalLen + src.totalLen;
  }

  /** `PREPEND_CHAIN`.  When `lastWithDatap` is `&dst->first`, that link now is the `next` field
      of the last chain of `src`. */
  method PrependChain(dst: EvBuffer, src: EvBuffer)
    requires dst != src && dst.Structure() && src.Structure() && src.totalLen > 0 && dst.totalLen > 0
    modifies dst`chains, dst`last, dst`lastWithDatap, dst`totalLen
    ensures dst.Structure()
    ensures dst.Contents() == src.Contents() + old(dst.Contents())
    ensures dst.totalLen == old(dst.totalLen) + src.totalLen
  {
    hide Flat;
    LastDataHolds(dst);
    FlatConcat(src.chains, dst.chains);
    dst.chains := src.chains + dst.chains;
    dst.totalLen := dst.totalLen + src.totalLen;
    dst.lastWithDatap := if dst.lastWithDatap == 0 then src.last + 1 else |src.chains| + dst.lastWithDatap;
    dst.last := |src.chains| + dst.last;
  }

  /** The two buffers after all bytes went from `inbuf` to `outbuf`. */
  twostate predicate MovedAll(inbuf: EvBuffer, outbuf: EvBuffer)
    reads inbuf, outbuf, inbuf.cb, outbuf.cb
  {
    var n := old(inbuf.totalLen);
    inbuf.Contents() == [] && inbuf.cb.Told(0, n) && outbuf.cb.Told(n, 0)
  }

  /** Counts the moved bytes and tells both sides. */
  method TellBoth(inbuf: EvBuffer, outbuf: EvBuffer, n: nat)
    requires inbuf != outbuf && Apart(inbuf, outbuf)
    requires inbuf.Structure() && inbuf.cb.Ok(inbuf.totalLen + n)
    requires outbuf.Structure() && outbuf.totalLen >= n && outbuf.cb.Ok(outbuf.totalLen - n)
    modifies inbuf.cb, outbuf.cb
    ensures inbuf.Valid() && outbuf.Valid()
    ensures inbuf.cb.Told(0, n) && outbuf.cb.Told(n, 0)
  {
    hide Flat;
    inbuf.cb.Deleted(inbuf.totalLen + n, n);
    outbuf.cb.Added(outbuf.totalLen - n, n);
    inbuf.cb.Invoke(inbuf.totalLen);
    outbuf.cb.Invoke(outbuf.totalLen);
  }

  /** `evbuffer_add_buffer`. */
  method AddBuffer(outbuf: EvBuffer, inbuf: EvBuffer) returns (result: int)
    requires outbuf.Valid() && inbuf.Valid() && Apart(outbuf, inbuf)
    modifies outbuf, inbuf, outbuf.cb, inbuf.cb
    ensures outbuf.Valid() && inbuf.Valid()
    ensures outbuf.freezeStart == old(outbuf.freezeStart) && outbuf.freezeEnd == old(outbuf.freezeEnd)
    ensures inbuf.freezeStart == old(inbuf.freezeStart) && inbuf.freezeEnd == old(inbuf.freezeEnd)
    ensures result == if old(inbuf.totalLen) > 0 && outbuf != inbuf &&
                         (outbuf.freezeEnd || inbuf.freezeStart) then -1 else 0
    ensures result == 0 && outbuf != inbuf ==> outbuf.Contents() == old(outbuf.Contents() + inbuf.Contents())
    ensures result == 0 && outbuf != inbuf ==> inbuf.Contents() == []
    ensures result == 0 && outbuf != inbuf && old(inbuf.totalLen) > 0 ==> MovedAll(inbuf, outbuf)
    ensures result != 0 || outbuf == inbuf || old(inbuf.totalLen) == 0 ==>
              outbuf.chains == old(outbuf.chains) && inbuf.chains == old(inbuf.chains)
              && unchanged(outbuf.cb) && unchanged(inbuf.cb)
  {
    hide Flat;
    hide Telescopes;
    hide EvBuffer.ChainsOk;
    hide EvBuffer.LastDataOk;
    var inTotal, outTotal := inbuf.totalLen, outbuf.totalLen;
    if inTotal == 0 || outbuf == inbuf {
      return 0;
    }
    if outbuf.freezeEnd || inbuf.freezeStart {
      return -1;
    }
    if outTotal == 0 {
      CopyChain(outbuf, inbuf);
    } else {
      AppendChain(outbuf, inbuf);
    }
    ZeroChain(inbuf);
    TellBoth(inbuf, outbuf, inTotal);
    result := 0;
  }

  /** `evbuffer_prepend_buffer`. */
  method PrependBuffer(outbuf: EvBuffer, inbuf: EvBuffer) returns (result: int)
    requires outbuf.Valid() && inbuf.Valid() && Apart(outbuf, inbuf)
    modifies outbuf, inbuf, outbuf.cb, inbuf.cb
    ensures outbuf.Valid() && inbuf.Valid()
    ensures outbuf.freezeStart == old(outbuf.freezeStart) && outbuf.freezeEnd == old(outbuf.freezeEnd)
    ensures inbuf.freezeStart == old(inbuf.freezeStart) && inbuf.freezeEnd == old(inbuf.freezeEnd)
    ensures result == if old(inbuf.totalLen) > 0 && outbuf != inbuf &&
                         (outbuf.freezeStart || inbuf.freezeStart) then -1 else 0
    ensures result == 0 && outbuf != inbuf ==> outbuf.Contents() == old(inbuf.Contents() + outbuf.Contents())
    ensures result == 0 && outbuf != inbuf ==> inbuf.Contents() == []
    ensures result == 0 && outbuf != inbuf && old(inbuf.totalLen) > 0 ==> MovedAll(inbuf, outbuf)
    ensures result != 0 || outbuf == inbuf || old(inbuf.totalLen) == 0 ==>
              outbuf.chains == old(outbuf.chains) && inbuf.chains == old(inbuf.chains)
              && unchanged(outbuf.cb) && unchanged(inbuf.cb)
  {
    hide Flat;
    hide Telescopes;
    hide EvBuffer.ChainsOk;
    hide EvBuffer.LastDataOk;
    var inTotal, outTotal := inbuf.totalLen, outbuf.totalLen;
    if inTotal == 0 || inbuf == outbuf {
      return 0;
    }
    if outbuf.freezeStart || inbuf.freezeStart {
      return -1;
    }
    if outTotal == 0 {
      CopyChain(outbuf, inbuf);
    } else {
      PrependChain(outbuf, inbuf);
    }
    ZeroChain(inbuf);
    TellBoth(inbuf, outbuf, inTotal);
    result := 0;
  }

  /** The first loop of `evbuffer_remove_buffer`: how many chains fit whole into `datlen`, and
      where `src->last_with_datap` goes meanwhile. */
  method CountWholeChains(src: EvBuffer, datlen: nat) returns (i: nat, nread: nat)
    requires src.Structure() && datlen < src.totalLen
    modifies src`lastWithDatap
    ensures i <= old(src.lastWithDatap) < |src.chains| && src.chains[old(src.lastWithDatap)].off > 0
    ensures src.lastWithDatap == if old(src.lastWithDatap) <= i then 0 else old(src.lastWithDatap)
    ensures nread == |src.Before(i)| <= datlen && datlen - nread < src.chains[i].off
  {
    hide Flat;
    LastDataHolds(src);
    FlatNil();
    i, nread := 0, 0;
    var left: nat := datlen;
    ghost var slot := src.lastWithDatap;
    while src.chains[i].off <= left
      invariant i <= slot
      invariant nread == |src.Before(i)| && nread + left == datlen
      invariant src.lastWithDatap == if slot <= i then 0 else slot
      decreases |src.chains| - i
    {
      FlatStep(src.chains, i);
      FlatCut(src.chains, i + 1);
      assert i != slot by {
        if i == slot {
          NoBytes(src.chains[i + 1..]);
        }
      }
      nread := nread + src.chains[i].off;
      left := left - src.chains[i].off;
      if src.lastWithDatap == i + 1 {
        src.lastWithDatap := 0;
      }
      i := i + 1;
    }
  }

  /** Puts the first `i` chains of `src` at the end of `dst`. */
  method LinkWholeChains(dst: EvBuffer, cs: seq<Chain>)
    requires dst.Valid() && cs != [] && forall j | 0 <= j < |cs| :: cs[j].Ok()
    modifies dst`chains, dst`last, dst`lastWithDatap, dst`totalLen, dst.cb`nAdd
    ensures dst.Valid()
    ensures dst.Contents() == old(dst.Contents()) + Flat(cs)
    ensures dst.totalLen == old(dst.totalLen) + |Flat(cs)|
    ensures dst.cb.nAdd == old(dst.cb.nAdd) + |Flat(cs)|
  {
    hide Flat;
    var chp := FreeTrailingEmptyChains(dst);
    FlatConcat(dst.chains, cs);
    dst.chains := dst.chains + cs;
    dst.last := chp + |cs| - 1;
    var n := AdvanceLastWithData(dst);
    dst.cb.Added(dst.totalLen, |Flat(cs)|);
    dst.totalLen := dst.totalLen + |Flat(cs)|;
  }

  /** What `evbuffer_remove_buffer` does to the receiving side: link the whole chains `cs`, then
      add the bytes `piece`. */
  method Receive(dst: EvBuffer, cs: seq<Chain>, piece: seq<byte>)
    requires dst.Valid() && !dst.freezeEnd && forall j | 0 <= j < |cs| :: cs[j].Ok()
    requires dst.totalLen + |Flat(cs)| + |piece| <= SIZE_MAX
    modifies dst, dst.cb
    ensures dst.Valid()
    ensures dst.freezeStart == old(dst.freezeStart) && dst.freezeEnd == old(dst.freezeEnd)
    ensures dst.Contents() == old(dst.Contents()) + (Flat(cs) + piece)
    ensures dst.cb.Told(|Flat(cs)| + |piece|, 0)
  {
    hide Flat;
    FlatNil();
    Assoc(dst.Contents(), Flat(cs), piece);
    if cs != [] {
      LinkWholeChains(dst, cs);
    }
    var r := Add(dst, piece);
    // By now Add has told the callbacks everything, so this call finds nothing to report.
    dst.cb.Invoke(dst.totalLen);
  }

  /** What `evbuffer_remove_buffer` does to the giving side once the bytes are in the other. */
  method Release(src: EvBuffer, i: nat, rest: nat, n: nat, ghost slot: nat)
    requires src.ChainsOk() && src.last == |src.chains| - 1
    requires i < |src.chains| && rest < src.chains[i].off
    requires i <= slot < |src.chains| && src.chains[slot].off > 0
    requires forall j | slot < j < |src.chains| :: src.chains[j].off == 0
    requires src.lastWithDatap == if slot <= i then 0 else slot
    requires src.totalLen == |src.Contents()| && n == |src.Before(i)| + rest < src.totalLen
    requires src.cb.Ok(src.totalLen)
    modifies src`chains, src`last, src`lastWithDatap, src`totalLen, src.cb
    ensures src.Valid() && src.cb.Told(0, n)
    ensures old(n <= |src.Contents()|)
    ensures src.Contents() == old(src.Contents()[n..])
  {
    hide Flat;
    src.totalLen := src.totalLen - n;
    CutFront(src, i, rest, slot);
    src.cb.Deleted(src.totalLen + n, n);
    src.cb.Invoke(src.totalLen);
  }

  /** The part of `evbuffer_remove_buffer` for fewer bytes than there are: whole chains are
      relinked and the rest is copied. */
  method RemoveSome(src: EvBuffer, dst: EvBuffer, datlen: nat)
    requires src.Valid() && dst.Valid() && src != dst && Apart(src, dst)
    requires 0 < datlen < src.totalLen && !dst.freezeEnd && dst.totalLen + src.totalLen <= SIZE_MAX
    modifies src, dst, src.cb, dst.cb
    ensures src.Valid() && dst.Valid()
    ensures src.freezeStart == old(src.freezeStart) && src.freezeEnd == old(src.freezeEnd)
    ensures dst.freezeStart == old(dst.freezeStart) && dst.freezeEnd == old(dst.freezeEnd)
    ensures dst.Contents() == old(dst.Contents() + src.Contents()[..datlen])
    ensures src.Contents() == old(src.Contents()[datlen..])
    ensures src.cb.Told(0, datlen) && dst.cb.Told(datlen, 0)
  {
    hide Flat;
    hide Telescopes;
    hide Counters.Ok;
    ghost var slot := src.lastWithDatap;
    var i, nread := CountWholeChains(src, datlen);
    var rest := datlen - nread;
    var piece := src.chains[i].Data()[..rest];
    TakePrefix(src.chains, i, rest);
    Receive(dst, src.chains[..i], piece);
    Release(src, i, rest, datlen, slot);
  }

  lemma TakePrefix(cs: seq<Chain>, i: nat, n: nat)
    requires i < |cs| && n <= |cs[i].Data()|
    ensures |Flat(cs[..i])| + n <= |Flat(cs)|
    ensures Flat(cs)[..|Flat(cs[..i])| + n] == Flat(cs[..i]) + cs[i].Data()[..n]
  {
    hide Flat;
    FlatSplit(cs, i);
  }

  /** `evbuffer_remove_buffer`; both buffers are in memory, so their lengths add up to a size. */
  method RemoveBuffer(src: EvBuffer, dst: EvBuffer, datlen: nat) returns (result: int)
    requires src.Valid() && dst.Valid() && Apart(src, dst)
    requires src != dst ==> dst.totalLen + src.totalLen <= SIZE_MAX
    modifies src, dst, src.cb, dst.cb
    ensures src.Valid() && dst.Valid()
    ensures src.freezeStart == old(src.freezeStart) && src.freezeEnd == old(src.freezeEnd)
    ensures dst.freezeStart == old(dst.freezeStart) && dst.freezeEnd == old(dst.freezeEnd)
    ensures var n := old(if datlen < src.totalLen then datlen else src.totalLen);
      && result == (if datlen == 0 || src == dst then 0
                    else if dst.freezeEnd || src.freezeStart then -1 else n)
      && (result > 0 ==>
            && src.cb.Told(0, n) && dst.cb.Told(n, 0)
            && dst.Contents() == old(dst.Contents()) + old(src.Contents())[..n]
            && src.Contents() == old(src.Contents())[n..])
    ensures result <= 0 ==>
              src.chains == old(src.chains) && dst.chains == old(dst.chains)
              && unchanged(src.cb) && unchanged(dst.cb)
  {
    hide Flat;
    if datlen == 0 || dst == src {
      return 0;
    }
    if dst.freezeEnd || src.freezeStart {
      return -1;
    }
    if datlen >= src.totalLen {
      var n := src.totalLen;
      var r := AddBuffer(dst, src);
      return n;
    }
    RemoveSome(src, dst, datlen);
    result := datlen;
  }
}
