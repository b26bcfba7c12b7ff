/** `struct evbuffer`: a byte queue kept as a list of chains.

    The singly linked list is the sequence `chains`.  A link is named by its slot: slot 0 is
    `&buf->first`, slot `i + 1` is the `next` field of chain `i`, so that slot `i` is the link
    that leads to chain `i`.  `lastWithDatap` is such a slot, `last` the index of the chain that
    `buf->last` points at (-1 for none).  */
module EvBuffers {
  import opened Chains
  import opened CallbackCounters

  const SIZE_MAX: nat := 0xffff_ffff_ffff_ffff
  const SSIZE_MAX: nat := 0x7fff_ffff_ffff_ffff

  class EvBuffer {
    var chains: seq<Chain>
    var last: int
    var lastWithDatap: nat
    var totalLen: nat
    var freezeStart: bool
    var freezeEnd: bool
    const cb: Counters

    ghost predicate ChainsOk()
      reads this
    {
      forall i | 0 <= i < |chains| :: chains[i].Ok()
    }

    /** `lastWithDatap` is the link to the last chain that stores bytes, or `&first` when there
        is none. */
    ghost predicate LastDataOk()
      reads this
    {
      && (chains == [] ==> lastWithDatap == 0)
      && (chains != [] ==> lastWithDatap < |chains|)
      && (lastWithDatap > 0 ==> chains[lastWithDatap].off > 0)
      && (forall i | lastWithDatap < i < |chains| :: chains[i].off == 0)
    }

    /** The invariant written at `struct evbuffer`. */
    ghost predicate Structure()
      reads this
    {
      && ChainsOk()
      && LastDataOk()
      && last == |chains| - 1
      && totalLen == |Flat(chains)|
    }

    ghost predicate Valid()
      reads this, cb
    {
      Structure() && cb.Ok(totalLen)
    }

    /** The bytes in the buffer. */
    ghost function Contents(): seq<byte>
      reads this
    {
      Flat(chains)
    }

    constructor ()
      ensures Valid() && cb.Settled() && fresh(cb)
      ensures chains == [] && Contents() == [] && !freezeStart && !freezeEnd
      ensures !cb.registered && !cb.deferred && cb.reports == []
    {
      chains, last, lastWithDatap, totalLen := [], -1, 0, 0;
      freezeStart, freezeEnd := false, false;
      cb := new Counters();
    }

    /** Whether the link `lastWithDatap` leads nowhere: `*buf->last_with_datap == NULL`. */
    predicate NoLastWithData()
      reads this
    {
      lastWithDatap >= |chains|
    }

    /** How many chains survive when the trailing empty ones are freed. */
    ghost function KeptLen(): (k: nat)
      requires LastDataOk()
      reads this
      ensures k <= |chains|
    {
      if chains != [] && chains[lastWithDatap].off > 0 then lastWithDatap + 1 else 0
    }

    /** The bytes before the link `slot`. */
    ghost function Before(slot: nat): seq<byte>
      requires slot <= |chains|
      reads this
    {
      Flat(chains[..slot])
    }
  }

  /** `struct evbuffer_ptr`; `chain` is the index of a chain, or -1 for a null pointer. */
  datatype Ptr = Ptr(pos: int, chain: int, posInChain: nat)

  const NOT_FOUND: Ptr := Ptr(-1, -1, 0)

  /** The chain and the offset in it denote the position `pos` of the buffer. */
  ghost predicate PtrOk(buf: EvBuffer, p: Ptr)
    reads buf
  {
    if p.chain == -1 then
      p.pos == |buf.Contents()| && p.posInChain == 0
    else
      && 0 <= p.chain < |buf.chains|
      && p.posInChain <= buf.chains[p.chain].off
      && p.pos == |buf.Before(p.chain)| + p.posInChain
  }

  /** Chains without bytes. */
  lemma NoBytes(cs: seq<Chain>)
    requires forall i | 0 <= i < |cs| :: cs[i].Ok() && cs[i].off == 0
    ensures AllEmpty(cs) && Flat(cs) == []
  {
    FlatEmpty(cs);
  }

  /** Growing the last chain with data, or the first one, appends to the whole. */
  lemma FlatGrow(cs: seq<Chain>, i: nat, c: Chain, d: seq<byte>)
    requires i < |cs| && c.Data() == cs[i].Data() + d
    requires forall j | i < j < |cs| :: cs[j].Ok() && cs[j].off == 0
    ensures Flat(cs[i := c]) == Flat(cs) + d
    ensures |Flat(cs[i := c])| == |Flat(cs)| + |d|
  {
    hide Flat;
    FlatUpdate(cs, i, c);
    NoBytes(cs[i + 1..]);
    Assoc(Flat(cs[..i]), cs[i].Data(), d);
  }

  /** `evbuffer_free_trailing_empty_chains`: ends the list after the last chain with data and
      returns the link where the next chain goes. */
  method FreeTrailingEmptyChains(buf: EvBuffer) returns (chp: nat)
    requires buf.ChainsOk() && buf.LastDataOk()
    modifies buf`chains
    ensures chp == old(buf.KeptLen())
    ensures buf.chains == old(buf.chains)[..chp]
    ensures buf.Contents() == old(buf.Contents())
  {
    chp := buf.lastWithDatap;
    while chp < |buf.chains| && buf.chains[chp].off != 0
      invariant chp == buf.lastWithDatap || chp == buf.KeptLen()
      invariant chp <= |buf.chains|
    {
      chp := chp + 1;
    }
    NoBytes(buf.chains[chp..]);
    FlatTrim(buf.chains, chp);
    buf.chains := buf.chains[..chp];
  }

  /** `evbuffer_chain_insert`: adds a chain at the end, after freeing the empty chains there. */
  method ChainInsert(buf: EvBuffer, chain: Chain)
    requires buf.Structure() && chain.Ok()
    modifies buf`chains, buf`last, buf`lastWithDatap, buf`totalLen
    ensures buf.Structure()
    ensures buf.chains == old(buf.chains[..buf.KeptLen()]) + [chain]
    ensures buf.Contents() == old(buf.Contents()) + chain.Data()
    ensures buf.totalLen == old(buf.totalLen) + chain.off
    ensures chain.off > 0 ==> buf.lastWithDatap == |buf.chains| - 1
    ensures |buf.chains| <= buf.lastWithDatap + 2
  {
    hide Flat;
    FlatNil();
    ghost var kept := buf.chains[..buf.KeptLen()];
    if buf.NoLastWithData() {
      buf.chains := [chain];
      buf.last := 0;
    } else {
      var chp := FreeTrailingEmptyChains(buf);
      buf.chains := buf.chains + [chain];
      if chain.off > 0 {
        buf.lastWithDatap := chp;
      }
      buf.last := chp;
    }
    buf.totalLen := buf.totalLen + chain.off;
    FlatConcat(kept, [chain]);
    FlatOne(chain);
  }

  /** `advance_last_with_data`: moves `lastWithDatap` over chains that now hold data. */
  method AdvanceLastWithData(buf: EvBuffer) returns (n: nat)
    requires buf.ChainsOk()
    requires buf.chains == [] ==> buf.lastWithDatap == 0
    requires buf.chains != [] ==> buf.lastWithDatap < |buf.chains|
    requires buf.lastWithDatap > 0 ==> buf.chains[buf.lastWithDatap].off > 0
    modifies buf`lastWithDatap
    ensures buf.LastDataOk() && buf.lastWithDatap >= old(buf.lastWithDatap)
    ensures buf.chains != [] ==> n == |buf.chains| - 1 - old(buf.lastWithDatap)
  {
    n := 0;
    var chainp := buf.lastWithDatap;
    if chainp >= |buf.chains| {
      return;
    }
    while chainp + 1 < |buf.chains|
      invariant old(buf.lastWithDatap) <= buf.lastWithDatap <= chainp < |buf.chains|
      invariant n == chainp - old(buf.lastWithDatap)
      invariant buf.lastWithDatap > 0 ==> buf.chains[buf.lastWithDatap].off > 0
      invariant forall i | buf.lastWithDatap < i <= chainp :: buf.chains[i].off == 0
    {
      chainp := chainp + 1;
      if buf.chains[chainp].off != 0 {
        buf.lastWithDatap := chainp;
      }
      n := n + 1;
    }
  }
}
