/** Reserving free space at the end of a buffer, and committing what was written there. */
module EvBufferSpace {
  import opened Chains
  import CallbackCounters
  import opened EvBuffers
  import opened EvBufferBasic

  const MAX_TO_COPY_IN_EXPAND: nat := 4096

  /** Adds an empty chain with room for `datlen` bytes: the label `insert_new`. */
  method InsertNew(buf: EvBuffer, datlen: nat) returns (result: nat)
    requires buf.Structure()
    modifies buf`chains, buf`last, buf`lastWithDatap, buf`totalLen
    ensures buf.Structure() && buf.Contents() == old(buf.Contents()) && buf.totalLen == old(buf.totalLen)
    ensures result == |buf.chains| - 1 <= buf.lastWithDatap + 1
    ensures buf.chains[result].SpaceLen() >= datlen && buf.chains[result].SpaceLen() > 0
  {
    hide Flat;
    var chain := NewChain(datlen);
    ChainInsert(buf, chain);
    result := |buf.chains| - 1;
  }

  /** Copies the chain with data into a larger one that takes its place. */
  method Resize(buf: EvBuffer, i: nat, datlen: nat)
    requires buf.Structure() && i < |buf.chains|
    modifies buf`chains
    ensures buf.Structure() && buf.Contents() == old(buf.Contents())
    ensures |buf.chains| == old(|buf.chains|) && buf.chains[i].SpaceLen() >= datlen
    ensures datlen > 0 && i == buf.lastWithDatap ==> FirstWithSpace(buf) == i
  {
    hide Flat;
    var chain := buf.chains[i];
    var tmp := NewChain(chain.off + datlen);
    tmp := tmp.WriteTail(chain.Data());
    FlatUpdate(buf.chains, i, tmp);
    buf.chains := buf.chains[i := tmp];
  }

  /** The first chain with free space at or after the last one with data. */
  function FirstWithSpace(buf: EvBuffer): nat
    requires buf.Structure()
    reads buf
  {
    if !buf.NoLastWithData() && buf.chains[buf.lastWithDatap].SpaceLen() == 0
    then buf.lastWithDatap + 1 else buf.lastWithDatap
  }

  /** The first chain with space cannot serve `datlen` bytes and is not worth resizing, but the
      empty chain after it can, and is not the last one. */
  predicate Stranded(buf: EvBuffer, datlen: nat)
    requires buf.Structure()
    reads buf
  {
    var i := FirstWithSpace(buf);
    && i + 2 < |buf.chains|
    && var c := buf.chains[i];
      && !c.immutable && c.off > 0 && c.SpaceLen() < datlen && !c.ShouldRealign(datlen)
      && (c.SpaceLen() < |c.mem| / 8 || c.off > MAX_TO_COPY_IN_EXPAND || datlen >= CHAIN_MAX - c.off)
      && buf.chains[i + 1].SpaceLen() >= datlen
  }

  /** `evbuffer_expand_singlechain`: the index of a chain with room for `datlen` bytes. */
  method ExpandSinglechain(buf: EvBuffer, datlen: nat) returns (result: nat)
    requires buf.Structure()
    modifies buf`chains, buf`last, buf`lastWithDatap, buf`totalLen
    ensures buf.Structure() && buf.Contents() == old(buf.Contents()) && buf.totalLen == old(buf.totalLen)
    ensures result < |buf.chains| && buf.chains[result].SpaceLen() >= datlen
    ensures !old(Stranded(buf, datlen)) ==> result == buf.last || result == FirstWithSpace(buf)
    ensures old(Stranded(buf, datlen)) ==> result == FirstWithSpace(buf) + 1 < buf.last
  {
    hide Flat;
    var chainp := buf.lastWithDatap;
    if chainp < |buf.chains| && buf.chains[chainp].SpaceLen() == 0 {
      chainp := chainp + 1;
    }
    if chainp >= |buf.chains| || buf.chains[chainp].immutable {
      result := InsertNew(buf, datlen);
      return;
    }
    var chain := buf.chains[chainp];
    if chain.SpaceLen() >= datlen {
      return chainp;
    }
    if chain.off == 0 {
      result := InsertNew(buf, datlen);
      return;
    }
    if chain.ShouldRealign(datlen) {
      Realign(buf, chainp);
      return chainp;
    }
    if chain.SpaceLen() < |chain.mem| / 8 || chain.off > MAX_TO_COPY_IN_EXPAND || datlen >= CHAIN_MAX - chain.off {
      if chainp + 1 < |buf.chains| && buf.chains[chainp + 1].SpaceLen() >= datlen {
        return chainp + 1;
      }
      result := InsertNew(buf, datlen);
    } else {
      Resize(buf, chainp, datlen);
      result := chainp;
    }
  }

  /** The free space of up to `n` chains from chain `i` on. */
  ghost function Space(cs: seq<Chain>, i: nat, n: nat): int
    requires forall j | 0 <= j < |cs| :: cs[j].Ok()
    decreases n
  {
    if n == 0 || i >= |cs| then 0 else cs[i].SpaceLen() + Space(cs, i + 1, n - 1)
  }

  lemma {:induction false} SpaceMonotone(cs: seq<Chain>, i: nat, m: nat, n: nat)
    requires forall j | 0 <= j < |cs| :: cs[j].Ok()
    requires m <= n
    ensures 0 <= Space(cs, i, m) <= Space(cs, i, n)
    decreases m, n
  {
    if m > 0 && i < |cs| {
      SpaceMonotone(cs, i + 1, m - 1, n - 1);
    } else if n > 0 && i < |cs| {
      SpaceMonotone(cs, i + 1, 0, n - 1);
    }
  }

  lemma {:induction false} SpaceSnoc(cs: seq<Chain>, i: nat, n: nat)
    requires forall j | 0 <= j < |cs| :: cs[j].Ok()
    requires i + n < |cs|
    ensures Space(cs, i, n + 1) == Space(cs, i, n) + cs[i + n].SpaceLen()
    decreases n
  {
    if n > 0 {
      SpaceSnoc(cs, i + 1, n - 1);
    }
  }

  /** Chains that agree where the sum looks have the same space. */
  lemma {:induction false} SpaceSame(cs: seq<Chain>, ds: seq<Chain>, i: nat, n: nat)
    requires forall j | 0 <= j < |cs| :: cs[j].Ok()
    requires forall j | 0 <= j < |ds| :: ds[j].Ok()
    requires i + n <= |cs| && i + n <= |ds| && forall j | i <= j < i + n :: cs[j] == ds[j]
    ensures Space(cs, i, n) == Space(ds, i, n)
    decreases n
  {
    if n > 0 {
      SpaceSame(cs, ds, i + 1, n - 1);
    }
  }

  /** Makes all space of an empty chain lie behind its (no) bytes. */
  method Unshift(buf: EvBuffer, i: nat)
    requires buf.Structure() && i < |buf.chains| && buf.chains[i].off == 0
    modifies buf`chains
    ensures buf.Structure() && buf.Contents() == old(buf.Contents())
    ensures buf.chains == old(buf.chains[i := buf.chains[i].(misalign := 0)])
    ensures buf.chains[i].SpaceLen() == |buf.chains[i].mem|
  {
    hide Flat;
    FlatUpdate(buf.chains, i, buf.chains[i].(misalign := 0));
    buf.chains := buf.chains[i := buf.chains[i].(misalign := 0)];
  }

  /** One round of the counting loop of `evbuffer_expand_fast_`. */
  method CountOne(buf: EvBuffer, j: nat, used: nat, avail: nat) returns (used': nat, avail': nat)
    requires buf.Structure() && buf.lastWithDatap <= j < |buf.chains|
    requires j == buf.lastWithDatap ==> used == 0 && avail == 0
    requires j > buf.lastWithDatap ==>
               FirstWithSpace(buf) <= j && j - FirstWithSpace(buf) <= used &&
               (!buf.chains[buf.lastWithDatap].immutable ==> used == j - FirstWithSpace(buf)) &&
               avail == Space(buf.chains, FirstWithSpace(buf), j - FirstWithSpace(buf))
    modifies buf`chains
    ensures buf.Structure() && buf.Contents() == old(buf.Contents())
    ensures buf.chains == old(buf.chains) ||
            (old(buf.chains[j]).off == 0 && buf.chains == old(buf.chains[j := buf.chains[j].(misalign := 0)]))
    ensures buf.chains[j].off == 0 ==> buf.chains[j].misalign == 0
    ensures FirstWithSpace(buf) <= j + 1 && j + 1 - FirstWithSpace(buf) <= used' <= used + 1
    ensures !buf.chains[buf.lastWithDatap].immutable ==> used' == j + 1 - FirstWithSpace(buf)
    ensures avail' == Space(buf.chains, FirstWithSpace(buf), j + 1 - FirstWithSpace(buf))
    ensures avail' >= avail && (j == buf.lastWithDatap ==> buf.chains[j].SpaceLen() <= avail')
  {
    hide Flat;
    used', avail' := used, avail;
    ghost var was, first := buf.chains, FirstWithSpace(buf);
    if buf.chains[j].off > 0 {
      var space := buf.chains[j].SpaceLen();
      if space > 0 {
        avail' := avail + space;
        used' := used + 1;
      }
    } else {
      Unshift(buf, j);
      if j > buf.lastWithDatap {
        SpaceSame(was, buf.chains, first, j - first);
      }
      avail' := avail + |buf.chains[j].mem|;
      used' := used + 1;
    }
    first := FirstWithSpace(buf);
    if first <= j {
      SpaceSnoc(buf.chains, first, j - first);
    }
  }

  /** The counting loop of `evbuffer_expand_fast_`: stops at chain `j`, having found `avail` free
      bytes in `used` chains. */
  method CountSpace(buf: EvBuffer, datlen: nat, n: nat) returns (j: nat, used: nat, avail: nat)
    requires buf.Structure() && buf.chains != [] && n >= 2
    modifies buf`chains
    ensures buf.Structure() && buf.Contents() == old(buf.Contents())
    ensures |buf.chains| == old(|buf.chains|)
    ensures FirstWithSpace(buf) <= j <= |buf.chains| && j - FirstWithSpace(buf) <= used <= n
    ensures !buf.chains[buf.lastWithDatap].immutable ==> used == j - FirstWithSpace(buf)
    ensures avail == Space(buf.chains, FirstWithSpace(buf), j - FirstWithSpace(buf))
    ensures avail < datlen ==> used == n || j == |buf.chains|
    ensures forall i | 0 <= i < |buf.chains| ::
              buf.chains[i] == old(buf.chains)[i] ||
              (buf.chains[i].off == 0 && buf.chains[i] == old(buf.chains)[i].(misalign := 0))
    ensures buf.chains[buf.lastWithDatap].off == 0 ==> buf.chains[buf.lastWithDatap].misalign == 0
    ensures avail < datlen ==> buf.chains[buf.lastWithDatap].SpaceLen() <= avail
  {
    hide Flat;
    hide Space;
    j, used, avail := buf.lastWithDatap, 0, 0;
    var stop := false;
    while !stop && j < |buf.chains|
      invariant buf.Structure() && buf.Contents() == old(buf.Contents())
      invariant |buf.chains| == old(|buf.chains|)
      invariant buf.lastWithDatap <= j <= |buf.chains|
      invariant j == buf.lastWithDatap ==> used == 0 && avail == 0 && !stop
      invariant j > buf.lastWithDatap ==>
                  FirstWithSpace(buf) <= j && j - FirstWithSpace(buf) <= used <= n &&
                  (!buf.chains[buf.lastWithDatap].immutable ==> used == j - FirstWithSpace(buf)) &&
                  avail == Space(buf.chains, FirstWithSpace(buf), j - FirstWithSpace(buf)) &&
                  buf.chains[buf.lastWithDatap].SpaceLen() <= avail
      invariant stop ==> avail >= datlen || used == n
      invariant forall i | 0 <= i < |buf.chains| ::
                  buf.chains[i] == old(buf.chains)[i] ||
                  (buf.chains[i].off == 0 && buf.chains[i] == old(buf.chains)[i].(misalign := 0))
      invariant j > buf.lastWithDatap && buf.chains[buf.lastWithDatap].off == 0 ==>
                  buf.chains[buf.lastWithDatap].misalign == 0
      invariant !stop ==> used < n
      decreases |buf.chains| - j, !stop
    {
      used, avail := CountOne(buf, j, used, avail);
      if avail >= datlen || used == n {
        stop := true;
      }
      j := j + 1;
    }
  }

  /** Adds a chain after the last one, keeping the empty chains there. */
  method AppendEmpty(buf: EvBuffer, size: nat)
    requires buf.Structure() && buf.chains != []
    modifies buf`chains, buf`last
    ensures buf.Structure() && buf.Contents() == old(buf.Contents())
    ensures |buf.chains| == old(|buf.chains|) + 1 && buf.chains[..|buf.chains| - 1] == old(buf.chains)
    ensures buf.chains[|buf.chains| - 1].SpaceLen() >= size
    ensures size <= SMALLEST ==> Small(buf.chains[|buf.chains| - 1], 0)
  {
    hide Flat;
    var tmp := NewChain(size);
    FlatConcat(buf.chains, [tmp]);
    FlatOne(tmp);
    buf.chains := buf.chains + [tmp];
    buf.last := buf.last + 1;
  }

  /** Frees every empty chain at the end and puts one with enough space there instead. */
  method ReplaceEmpty(buf: EvBuffer, datlen: nat)
    requires buf.Structure() && buf.chains != []
    requires buf.chains[buf.lastWithDatap].off > 0 ==> buf.chains[buf.lastWithDatap].SpaceLen() <= datlen
    modifies buf`chains, buf`last, buf`lastWithDatap
    ensures buf.Structure() && buf.Contents() == old(buf.Contents())
    ensures FirstWithSpace(buf) < |buf.chains| && Space(buf.chains, FirstWithSpace(buf), 2) >= datlen
  {
    hide Flat;
    var slot := buf.lastWithDatap;
    if buf.chains[slot].off == 0 {
      NoBytes(buf.chains);
      var tmp := NewChain(datlen);
      FlatOne(tmp);
      buf.chains := [tmp];
      buf.last := 0;
      buf.lastWithDatap := 0;
    } else {
      var avail := buf.chains[slot].SpaceLen();
      NoBytes(buf.chains[slot + 1..]);
      FlatTrim(buf.chains, slot + 1);
      var tmp := NewChain(datlen - avail);
      FlatConcat(buf.chains[..slot + 1], [tmp]);
      FlatOne(tmp);
      buf.chains := buf.chains[..slot + 1] + [tmp];
      buf.last := slot + 1;
    }
  }

  /** The last chain is writable, stores the last bytes and has no space left. */
  predicate EndsFull(buf: EvBuffer)
    requires buf.Structure()
    reads buf
  {
    && buf.chains != [] && buf.lastWithDatap == buf.last
    && var c := buf.chains[buf.last]; !c.immutable && c.off > 0 && c.SpaceLen() == 0
  }

  /** There is room for one more chain, and need for it: those that are there are counted from their first
      byte on, and have not enough space. */
  ghost predicate NeedsChain(buf: EvBuffer, datlen: nat, n: nat)
    requires buf.Structure()
    reads buf
  {
    && buf.chains != [] && !buf.chains[buf.last].immutable && !buf.chains[buf.lastWithDatap].immutable
    && |buf.chains| < FirstWithSpace(buf) + n
    && (forall i | 0 <= i < |buf.chains| && buf.chains[i].off == 0 :: buf.chains[i].misalign == 0)
    && Space(buf.chains, FirstWithSpace(buf), n) < datlen
  }

  /** An empty chain has been put behind the others. */
  twostate predicate OneMoreChain(buf: EvBuffer, datlen: nat)
    reads buf
  {
    && |buf.chains| == |old(buf.chains)| + 1 && buf.chains[..|old(buf.chains)|] == old(buf.chains)
    && buf.lastWithDatap == old(buf.lastWithDatap)
    && (datlen <= SMALLEST ==> Small(buf.chains[|old(buf.chains)|], 0))
  }

  /** The branch of `evbuffer_expand_fast_` for less chains than are allowed: one more makes up for what is
      missing. */
  method ExpandByOne(buf: EvBuffer, datlen: nat, n: nat, avail: nat)
    requires buf.Structure() && buf.chains != [] && FirstWithSpace(buf) <= |buf.chains| < FirstWithSpace(buf) + n
    requires avail == Space(buf.chains, FirstWithSpace(buf), |buf.chains| - FirstWithSpace(buf)) < datlen
    modifies buf`chains, buf`last
    ensures buf.Structure() && buf.Contents() == old(buf.Contents())
    ensures Space(buf.chains, FirstWithSpace(buf), n) >= datlen && FirstWithSpace(buf) < |buf.chains|
    ensures avail == old(Space(buf.chains, FirstWithSpace(buf), n)) && OneMoreChain(buf, datlen - avail)
  {
    hide Flat;
    ghost var was, first, j := buf.chains, FirstWithSpace(buf), |buf.chains|;
    SpaceRunsOut(was, first, j - first, n);
    AppendEmpty(buf, datlen - avail);
    SpaceSame(was, buf.chains, first, j - first);
    SpaceSnoc(buf.chains, first, j - first);
    SpaceMonotone(buf.chains, first, j - first + 1, n);
  }

  /** What follows the counting loop of `evbuffer_expand_fast_`. */
  method ExpandCounted(buf: EvBuffer, datlen: nat, n: nat, j: nat, used: nat, avail: nat)
    requires buf.Structure() && buf.chains != [] && n >= 2
    requires FirstWithSpace(buf) <= j <= |buf.chains| && j - FirstWithSpace(buf) <= used <= n
    requires avail == Space(buf.chains, FirstWithSpace(buf), j - FirstWithSpace(buf))
    requires avail < datlen ==> used == n || j == |buf.chains|
    requires avail < datlen ==> buf.chains[buf.lastWithDatap].SpaceLen() <= avail
    modifies buf`chains, buf`last, buf`lastWithDatap
    ensures buf.Structure() && buf.Contents() == old(buf.Contents())
    ensures Space(buf.chains, FirstWithSpace(buf), n) >= datlen
    ensures FirstWithSpace(buf) >= |buf.chains| <==> avail >= datlen && old(FirstWithSpace(buf) >= |buf.chains|)
    ensures avail < datlen && used < n ==> OneMoreChain(buf, datlen - avail)
  {
    hide Flat;
    ghost var first := FirstWithSpace(buf);
    if avail >= datlen {
      SpaceMonotone(buf.chains, first, j - first, n);
    } else if used < n {
      ExpandByOne(buf, datlen, n, avail);
    } else {
      ReplaceEmpty(buf, datlen);
      SpaceMonotone(buf.chains, FirstWithSpace(buf), 2, n);
    }
  }

  /** The counting loop has found all space there is, and not enough. */
  lemma CountedAll(cs: seq<Chain>, first: nat, j: nat, n: nat, datlen: nat)
    requires forall i | 0 <= i < |cs| :: cs[i].Ok()
    requires first <= j <= |cs| < first + n && Space(cs, first, n) < datlen
    ensures Space(cs, first, j - first) < datlen
    ensures j == |cs| ==> Space(cs, first, j - first) == Space(cs, first, n)
  {
    SpaceMonotone(cs, first, j - first, n);
    SpaceRunsOut(cs, first, j - first, n);
  }

  /** `evbuffer_expand_fast_`: afterwards the first `n` chains with space hold `datlen` bytes. */
  method ExpandFast(buf: EvBuffer, datlen: nat, n: nat)
    requires buf.Structure() && n >= 2
    modifies buf`chains, buf`last, buf`lastWithDatap, buf`totalLen
    ensures buf.Structure() && buf.Contents() == old(buf.Contents()) && buf.totalLen == old(buf.totalLen)
    ensures Space(buf.chains, FirstWithSpace(buf), n) >= datlen
    ensures FirstWithSpace(buf) >= |buf.chains| <==> datlen == 0 && old(EndsFull(buf))
    ensures old(NeedsChain(buf, datlen, n)) ==>
              OneMoreChain(buf, datlen - old(Space(buf.chains, FirstWithSpace(buf), n)))
  {
    hide Flat;
    if buf.chains == [] || buf.chains[buf.last].immutable {
      var i := InsertNew(buf, datlen);
      LastChainSpace(buf, i, datlen);
      SpaceMonotone(buf.chains, FirstWithSpace(buf), 2, n);
      return;
    }
    var j, used, avail := CountSpace(buf, datlen, n);
    if old(NeedsChain(buf, datlen, n)) {
      assert buf.chains == old(buf.chains);
      CountedAll(buf.chains, FirstWithSpace(buf), j, n, datlen);
    }
    ExpandCounted(buf, datlen, n, j, used, avail);
  }

  /** A last chain that is, or directly follows, the last one with data. */
  lemma LastChainSpace(buf: EvBuffer, i: nat, datlen: nat)
    requires buf.Structure() && i == |buf.chains| - 1 && i <= buf.lastWithDatap + 1
    requires buf.chains[i].SpaceLen() >= datlen
    ensures Space(buf.chains, FirstWithSpace(buf), 2) >= datlen
  {
  }

  /** `struct evbuffer_iovec`: a region of a chain's memory. */
  datatype Iovec = Iovec(chain: nat, base: nat, len: nat)

  /** How many bytes the regions hold together. */
  function TotalLen(vecs: seq<Iovec>): nat {
    if vecs == [] then 0 else vecs[0].len + TotalLen(vecs[1..])
  }

  lemma {:induction false} TotalLenSnoc(vecs: seq<Iovec>, v: Iovec)
    ensures TotalLen(vecs + [v]) == TotalLen(vecs) + v.len
  {
    if vecs == [] {
      assert vecs + [v] == [v];
    } else {
      TotalLenSnoc(vecs[1..], v);
      assert (vecs + [v])[1..] == vecs[1..] + [v];
    }
  }

  /** The region is the free space (or the start of it) behind the bytes of its chain. */
  predicate IsSpace(cs: seq<Chain>, v: Iovec)
    requires forall j | 0 <= j < |cs| :: cs[j].Ok()
  {
    && v.chain < |cs|
    && v.base == cs[v.chain].misalign + cs[v.chain].off
    && v.len <= cs[v.chain].SpaceLen()
  }

  /** `evbuffer_read_setup_vecs_`: the free space of the first chains that have any. */
  method ReadSetupVecs(buf: EvBuffer, howmuch: nat, n: nat, exact: bool) returns (vecs: seq<Iovec>)
    requires buf.Structure()
    requires FirstWithSpace(buf) < |buf.chains|
    requires Space(buf.chains, FirstWithSpace(buf), n) >= howmuch
    ensures |vecs| <= n
    ensures forall i | 0 <= i < |vecs| ::
              && IsSpace(buf.chains, vecs[i]) && vecs[i].chain == FirstWithSpace(buf) + i
              && (!exact ==> vecs[i].len == buf.chains[vecs[i].chain].SpaceLen())
    ensures TotalLen(vecs) >= howmuch
    ensures exact ==> TotalLen(vecs) == howmuch
  {
    hide Flat;
    var soFar := 0;
    var first := FirstWithSpace(buf);
    var i := 0;
    vecs := [];
    while i < n && soFar < howmuch
      invariant i == |vecs| <= n
      invariant soFar == TotalLen(vecs)
      invariant first + i <= |buf.chains|
      invariant soFar < howmuch ==> soFar == Space(buf.chains, first, i)
      invariant exact ==> soFar <= howmuch
      invariant forall k | 0 <= k < i ::
                  && IsSpace(buf.chains, vecs[k]) && vecs[k].chain == first + k
                  && (!exact ==> vecs[k].len == buf.chains[vecs[k].chain].SpaceLen())
      decreases n - i
    {
      SpaceRunsOut(buf.chains, first, i, n);
      SpaceSnoc(buf.chains, first, i);
      var chain := buf.chains[first + i];
      var avail := chain.SpaceLen();
      if avail > howmuch - soFar && exact {
        avail := howmuch - soFar;
      }
      var v := Iovec(first + i, chain.misalign + chain.off, avail);
      TotalLenSnoc(vecs, v);
      vecs := vecs + [v];
      soFar := soFar + avail;
      i := i + 1;
    }
  }

  /** When the chains end after `i` of them, no more space is to be found. */
  lemma {:induction false} SpaceRunsOut(cs: seq<Chain>, first: nat, i: nat, n: nat)
    requires forall j | 0 <= j < |cs| :: cs[j].Ok()
    requires first + i <= |cs| && i <= n
    ensures first + i == |cs| ==> Space(cs, first, n) == Space(cs, first, i)
    decreases i
  {
    if i > 0 {
      SpaceRunsOut(cs, first + 1, i - 1, n - 1);
    }
  }

  /** What `evbuffer_reserve_space` does: refuse, stop at a failed assertion, or offer regions. */
  datatype Reservation = Refused | Aborted | Regions(vecs: seq<Iovec>)

  /** Where a single region is: in the last chain or the first one with space, or in between. */
  ghost predicate ReservedAt(buf: EvBuffer, chain: nat, stranded: bool)
    requires buf.Structure()
    reads buf
  {
    if stranded then chain == FirstWithSpace(buf) + 1 < buf.last
    else chain == buf.last || chain == FirstWithSpace(buf)
  }

  /** `evbuffer_reserve_space`.  Asking for no bytes in two or more regions stops at an assertion
      exactly when the last chain is its own, has data and is full. */
  method Reserve(buf: EvBuffer, size: nat, n: nat) returns (r: Reservation)
    requires buf.Structure()
    modifies buf`chains, buf`last, buf`lastWithDatap, buf`totalLen
    ensures buf.Structure() && buf.Contents() == old(buf.Contents()) && buf.totalLen == old(buf.totalLen)
    ensures r.Refused? <==> buf.freezeEnd || n < 1
    ensures r.Aborted? <==>
              !buf.freezeEnd && n >= 2 && size == 0 && old(EndsFull(buf))
    ensures r.Regions? ==>
              && |r.vecs| <= n && TotalLen(r.vecs) >= size
              && (forall i | 0 <= i < |r.vecs| :: IsSpace(buf.chains, r.vecs[i]))
              && (n > 1 ==> InBounds(buf, FirstWithSpace(buf), r.vecs))
              && (n > 1 && old(NeedsChain(buf, size, n)) ==>
                    OneMoreChain(buf, size - old(Space(buf.chains, FirstWithSpace(buf), n))))
              && (n == 1 ==> |r.vecs| == 1 && ReservedAt(buf, r.vecs[0].chain, old(Stranded(buf, size))))
  {
    hide Flat;
    if buf.freezeEnd || n < 1 {
      return Refused;
    }
    if n == 1 {
      var i := ExpandSinglechain(buf, size);
      var chain := buf.chains[i];
      return Regions([Iovec(i, chain.misalign + chain.off, chain.SpaceLen())]);
    }
    ExpandFast(buf, size, n);
    if FirstWithSpace(buf) >= |buf.chains| {
      return Aborted;
    }
    var vecs := ReadSetupVecs(buf, size, n, false);
    r := Regions(vecs);
  }

  /** The bytes that now lie in the regions. */
  function Written(cs: seq<Chain>, vecs: seq<Iovec>): seq<byte> {
    if vecs == [] then []
    else
      var v := vecs[0];
      (if v.chain < |cs| && v.base + v.len <= |cs[v.chain].mem| then cs[v.chain].mem[v.base..v.base + v.len] else [])
      + Written(cs, vecs[1..])
  }

  lemma {:induction false} WrittenSnoc(cs: seq<Chain>, vecs: seq<Iovec>, v: Iovec)
    ensures Written(cs, vecs + [v]) == Written(cs, vecs) + Written(cs, [v])
  {
    assert [v][1..] == [];
    if vecs == [] {
      assert vecs + [v] == [v];
    } else {
      WrittenSnoc(cs, vecs[1..], v);
      assert (vecs + [v])[1..] == vecs[1..] + [v];
      Assoc(Written(cs, [vecs[0]]), Written(cs, vecs[1..]), Written(cs, [v]));
      assert [vecs[0]][1..] == [];
    }
  }

  /** Writing into a region: memory that stores no bytes of the buffer yet. */
  method WriteRegion(buf: EvBuffer, v: Iovec, data: seq<byte>)
    requires buf.Structure() && IsSpace(buf.chains, v) && |data| <= v.len
    modifies buf`chains
    ensures buf.Structure() && buf.Contents() == old(buf.Contents())
    ensures |buf.chains| == old(|buf.chains|)
    ensures forall i | 0 <= i < |buf.chains| && i != v.chain :: buf.chains[i] == old(buf.chains[i])
    ensures IsSpace(buf.chains, v) && buf.chains[v.chain].mem[v.base..v.base + |data|] == data
    ensures buf.chains[v.chain].SpaceLen() == old(buf.chains[v.chain].SpaceLen())
    ensures FirstWithSpace(buf) == old(FirstWithSpace(buf))
  {
    hide Flat;
    var d := buf.chains[v.chain].Scribble(v.base, data);
    FlatUpdate(buf.chains, v.chain, d);
    buf.chains := buf.chains[v.chain := d];
  }

  /** Counts the first `n` free bytes of chain `i` as stored. */
  method GrowChain(buf: EvBuffer, i: nat, n: nat)
    requires buf.ChainsOk() && i < |buf.chains| && n <= buf.chains[i].SpaceLen()
    requires forall j | i < j < |buf.chains| :: buf.chains[j].off == 0
    modifies buf`chains
    ensures buf.ChainsOk()
    ensures buf.chains == old(buf.chains[i := buf.chains[i].(off := buf.chains[i].off + n)])
    ensures var c := old(buf.chains)[i];
      && |c.mem| >= c.misalign + c.off + n
      && buf.Contents() == old(buf.Contents()) + c.mem[c.misalign + c.off..c.misalign + c.off + n]
  {
    hide Flat;
    var c := buf.chains[i];
    var d := c.(off := c.off + n);
    FlatGrow(buf.chains, i, d, c.mem[c.misalign + c.off..c.misalign + c.off + n]);
    buf.chains := buf.chains[i := d];
  }

  /** The regions a commit accepts: consecutive chains from the first one with space on. */
  ghost predicate InBounds(buf: EvBuffer, first: nat, vecs: seq<Iovec>)
    requires buf.Structure()
    reads buf
  {
    forall i | 0 <= i < |vecs| :: IsSpace(buf.chains, vecs[i]) && vecs[i].chain == first + i
  }

  /** When `evbuffer_commit_space` commits. */
  ghost predicate Committable(buf: EvBuffer, vecs: seq<Iovec>)
    requires buf.Structure()
    reads buf
  {
    !buf.freezeEnd &&
    if vecs == [] then true
    else if |vecs| == 1 && AtLast(buf, vecs[0]) then IsSpace(buf.chains, vecs[0])
    else buf.chains != [] && InBounds(buf, FirstWithSpace(buf), vecs)
  }

  /** The region starts at the free space of the last chain. */
  predicate AtLast(buf: EvBuffer, v: Iovec)
    requires buf.Structure()
    reads buf
  {
    && buf.chains != [] && v.chain == buf.last
    && v.base == buf.chains[buf.last].misalign + buf.chains[buf.last].off
  }

  /** Regions reserved two or more at a time are accepted by a commit, shortened in any way and in any
      number from the front. */
  lemma ReservedCommittable(buf: EvBuffer, vecs: seq<Iovec>, used: seq<Iovec>)
    requires buf.Structure() && !buf.freezeEnd && InBounds(buf, FirstWithSpace(buf), vecs) && |used| <= |vecs|
    requires forall i | 0 <= i < |used| ::
               used[i].chain == vecs[i].chain && used[i].base == vecs[i].base && used[i].len <= vecs[i].len
    ensures Committable(buf, used)
  {
    forall i | 0 <= i < |used|
      ensures IsSpace(buf.chains, used[i]) && used[i].chain == FirstWithSpace(buf) + i
    {
      assert IsSpace(buf.chains, vecs[i]);
    }
    assert used != [] ==> IsSpace(buf.chains, used[0]);
  }

  /** The check of all regions, before any of them is committed. */
  method CheckVecs(buf: EvBuffer, first: nat, vecs: seq<Iovec>) returns (ok: bool)
    requires buf.Structure()
    ensures ok <==> InBounds(buf, first, vecs)
  {
    var i := 0;
    while i < |vecs|
      invariant 0 <= i <= |vecs|
      invariant forall k | 0 <= k < i :: IsSpace(buf.chains, vecs[k]) && vecs[k].chain == first + k
    {
      if first + i >= |buf.chains| {
        assert !(IsSpace(buf.chains, vecs[i]) && vecs[i].chain == first + i);
        return false;
      }
      if vecs[i].chain != first + i || !IsSpace(buf.chains, vecs[i]) {
        return false;
      }
      i := i + 1;
    }
    ok := true;
  }

  /** The second pass of `evbuffer_commit_space`. */
  method CommitVecs(buf: EvBuffer, first: nat, vecs: seq<Iovec>) returns (added: nat)
    requires buf.Structure() && first >= buf.lastWithDatap && InBounds(buf, first, vecs)
    requires forall j | first < j < |buf.chains| :: buf.chains[j].off == 0
    modifies buf`chains, buf`lastWithDatap
    ensures buf.ChainsOk() && buf.LastDataOk() && |buf.chains| == old(|buf.chains|)
    ensures added == TotalLen(vecs)
    ensures buf.Contents() == old(buf.Contents() + Written(buf.chains, vecs))
    ensures |buf.Contents()| == old(buf.totalLen) + added
  {
    hide Flat;
    hide Written;
    added := 0;
    var i := 0;
    ghost var was, start := buf.chains, buf.Contents();
    WrittenNil(was);
    while i < |vecs|
      invariant 0 <= i <= |vecs|
      invariant buf.ChainsOk() && buf.LastDataOk() && |buf.chains| == |was|
      invariant buf.lastWithDatap < first + i || buf.lastWithDatap == old(buf.lastWithDatap)
      invariant forall j | first + i <= j < |was| :: buf.chains[j] == was[j]
      invariant added == TotalLen(vecs[..i])
      invariant buf.Contents() == start + Written(was, vecs[..i])
      invariant |buf.Contents()| == |start| + added
    {
      var v := vecs[i];
      WrittenStep(was, vecs, i, start);
      CommitOne(buf, first + i, v.len);
      added := added + v.len;
      i := i + 1;
    }
    assert vecs[..i] == vecs;
  }

  /** Commits bytes in chain `i` and makes it the last one with data, if there are any. */
  method CommitOne(buf: EvBuffer, i: nat, n: nat)
    requires buf.ChainsOk() && buf.LastDataOk() && buf.lastWithDatap <= i < |buf.chains|
    requires n <= buf.chains[i].SpaceLen()
    modifies buf`chains, buf`lastWithDatap
    ensures buf.ChainsOk() && buf.LastDataOk()
    ensures buf.lastWithDatap == if n > 0 then i else old(buf.lastWithDatap)
    ensures buf.chains == old(buf.chains[i := buf.chains[i].(off := buf.chains[i].off + n)])
    ensures var c := old(buf.chains)[i];
      && |c.mem| >= c.misalign + c.off + n
      && buf.Contents() == old(buf.Contents()) + c.mem[c.misalign + c.off..c.misalign + c.off + n]
  {
    hide Flat;
    GrowChain(buf, i, n);
    if n > 0 {
      buf.lastWithDatap := i;
    }
  }

  lemma WrittenStep(cs: seq<Chain>, vecs: seq<Iovec>, i: nat, start: seq<byte>)
    requires i < |vecs|
    requires var v := vecs[i]; v.chain < |cs| && v.base + v.len <= |cs[v.chain].mem|
    ensures var v := vecs[i];
      && start + Written(cs, vecs[..i + 1]) ==
           (start + Written(cs, vecs[..i])) + cs[v.chain].mem[v.base..v.base + v.len]
      && TotalLen(vecs[..i + 1]) == TotalLen(vecs[..i]) + v.len
  {
    hide Written;
    hide TotalLen;
    var v := vecs[i];
    assert vecs[..i + 1] == vecs[..i] + [v];
    TotalLenSnoc(vecs[..i], v);
    WrittenSnoc(cs, vecs[..i], v);
    WrittenOne(cs, v);
    Assoc(start, Written(cs, vecs[..i]), Written(cs, [v]));
  }

  lemma WrittenNil(cs: seq<Chain>)
    ensures Written(cs, []) == []
  {
  }

  lemma WrittenOne(cs: seq<Chain>, v: Iovec)
    requires v.chain < |cs| && v.base + v.len <= |cs[v.chain].mem|
    ensures Written(cs, [v]) == cs[v.chain].mem[v.base..v.base + v.len]
  {
    assert [v][1..] == [];
  }

  /** `evbuffer_commit_space`. */
  method Commit(buf: EvBuffer, vecs: seq<Iovec>) returns (result: int)
    requires buf.Valid()
    modifies buf, buf.cb
    ensures buf.Valid()
    ensures buf.freezeStart == old(buf.freezeStart) && buf.freezeEnd == old(buf.freezeEnd)
    ensures result == if old(Committable(buf, vecs)) then 0 else -1
    ensures result == 0 ==> buf.Contents() == old(buf.Contents() + Written(buf.chains, vecs))
    ensures if result == 0 && vecs != [] then buf.cb.Told(TotalLen(vecs), 0)
            else unchanged(buf.cb) && unchanged(buf)
  {
    hide Flat;
    hide Written;
    WrittenNil(buf.chains);
    if buf.freezeEnd {
      return -1;
    }
    if vecs == [] {
      return 0;
    }
    var ok, added := CommitRegions(buf, vecs);
    if !ok {
      return -1;
    }
    buf.cb.Added(buf.totalLen, added);
    buf.totalLen := buf.totalLen + added;
    buf.cb.Invoke(buf.totalLen);
    result := 0;
  }

  /** The checks and changes of `evbuffer_commit_space` to the chains. */
  method CommitRegions(buf: EvBuffer, vecs: seq<Iovec>) returns (ok: bool, added: nat)
    requires buf.Structure() && !buf.freezeEnd && vecs != []
    modifies buf`chains, buf`lastWithDatap
    ensures ok <==> old(Committable(buf, vecs))
    ensures ok ==> buf.ChainsOk() && buf.LastDataOk() && |buf.chains| == old(|buf.chains|)
    ensures ok ==> buf.Contents() == old(buf.Contents() + Written(buf.chains, vecs))
    ensures ok ==> added == TotalLen(vecs) && |buf.Contents()| == old(buf.totalLen) + added
    ensures !ok ==> unchanged(buf)
  {
    hide Flat;
    hide Written;
    added := 0;
    if |vecs| == 1 && AtLast(buf, vecs[0]) {
      if vecs[0].len > buf.chains[buf.last].SpaceLen() {
        return false, 0;
      }
      WrittenOne(buf.chains, vecs[0]);
      TotalLenOne(vecs);
      assert vecs == [vecs[0]];
      added := CommitLast(buf, vecs[0].len);
    } else {
      if buf.NoLastWithData() {
        return false, 0;
      }
      var first := FirstWithSpace(buf);
      ok := CheckVecs(buf, first, vecs);
      if !ok {
        return;
      }
      added := CommitVecs(buf, first, vecs);
    }
    ok := true;
  }

  lemma TotalLenOne(vecs: seq<Iovec>)
    ensures |vecs| == 1 ==> TotalLen(vecs) == vecs[0].len
  {
    if |vecs| == 1 {
      assert vecs[1..] == [];
    }
  }

  /** Committing bytes in the last chain, which need not be the first one with space. */
  method CommitLast(buf: EvBuffer, n: nat) returns (added: nat)
    requires buf.Structure() && buf.chains != [] && n <= buf.chains[buf.last].SpaceLen()
    modifies buf`chains, buf`lastWithDatap
    ensures buf.ChainsOk() && buf.LastDataOk() && |buf.chains| == old(|buf.chains|)
    ensures added == n
    ensures var c := old(buf.chains[buf.last]);
      && |c.mem| >= c.misalign + c.off + n
      && buf.Contents() == old(buf.Contents()) + c.mem[c.misalign + c.off..c.misalign + c.off + n]
    ensures |buf.Contents()| == old(buf.totalLen) + n
  {
    hide Flat;
    added := n;
    GrowChain(buf, buf.last, n);
    if added > 0 {
      var k := AdvanceLastWithData(buf);
    }
  }

  /** Reserve, write and commit together append, as `evbuffer_add` does, unless the reserved chain
      is one that a commit does not look at: then the commit is turned down. */
  method WriteThrough(buf: EvBuffer, data: seq<byte>) returns (result: int)
    requires buf.Valid()
    modifies buf, buf.cb
    ensures buf.Valid()
    ensures buf.freezeStart == old(buf.freezeStart) && buf.freezeEnd == old(buf.freezeEnd)
    ensures result == if buf.freezeEnd || old(Stranded(buf, |data|)) then -1 else 0
    ensures buf.Contents() == old(buf.Contents()) + if result == 0 then data else []
  {
    hide Flat;
    hide Written;
    var r := Reserve(buf, |data|, 1);
    if r.Refused? {
      return -1;
    }
    TotalLenOne(r.vecs);
    var v := r.vecs[0].(len := |data|);
    WriteRegion(buf, v, data);
    WrittenOne(buf.chains, v);
    result := Commit(buf, [v]);
  }

  // ---- two or more regions

  /** What lies in the regions does not depend on other chains. */
  lemma {:induction false} WrittenElsewhere(cs: seq<Chain>, ds: seq<Chain>, vecs: seq<Iovec>)
    requires |cs| == |ds| && forall k | 0 <= k < |vecs| :: vecs[k].chain < |cs| && cs[vecs[k].chain] == ds[vecs[k].chain]
    ensures Written(cs, vecs) == Written(ds, vecs)
  {
    if vecs != [] {
      assert forall k | 0 <= k < |vecs[1..]| :: vecs[1..][k] == vecs[k + 1];
      WrittenElsewhere(cs, ds, vecs[1..]);
    }
  }

  /** The first `|used|` regions, shortened, hold the first bytes of `data`. */
  ghost predicate Filled(buf: EvBuffer, vecs: seq<Iovec>, used: seq<Iovec>, data: seq<byte>)
    requires buf.Structure()
    reads buf
  {
    && |used| <= |vecs| && TotalLen(used) <= |data|
    && (forall k | 0 <= k < |used| ::
          used[k].chain == vecs[k].chain && used[k].base == vecs[k].base && used[k].len <= vecs[k].len)
    && Written(buf.chains, used) == data[..TotalLen(used)]
    && (TotalLen(used) < |data| ==> TotalLen(used) == TotalLen(vecs[..|used|]))
  }

  /** Writing the next piece of `data` to the next region. */
  method FillOne(buf: EvBuffer, vecs: seq<Iovec>, used: seq<Iovec>, data: seq<byte>) returns (used': seq<Iovec>)
    requires buf.Structure() && InBounds(buf, FirstWithSpace(buf), vecs)
    requires |used| < |vecs| && Filled(buf, vecs, used, data)
    modifies buf`chains
    ensures buf.Structure() && buf.Contents() == old(buf.Contents()) && FirstWithSpace(buf) == old(FirstWithSpace(buf))
    ensures InBounds(buf, FirstWithSpace(buf), vecs) && |used'| == |used| + 1 && Filled(buf, vecs, used', data)
  {
    hide Flat;
    hide Written;
    hide TotalLen;
    var i, done := |used|, TotalLen(used);
    var v := vecs[i];
    var n := if |data| - done < v.len then |data| - done else v.len;
    var u := v.(len := n);
    ghost var was, first := buf.chains, FirstWithSpace(buf);
    assert IsSpace(was, v) && v.chain == first + i;
    WriteRegion(buf, u, data[done..done + n]);
    used' := used + [u];
    forall k | 0 <= k < |vecs|
      ensures IsSpace(buf.chains, vecs[k]) && vecs[k].chain == first + k
    {
      assert IsSpace(was, vecs[k]);
    }
    WrittenElsewhere(was, buf.chains, used);
    WrittenSnoc(buf.chains, used, u);
    WrittenOne(buf.chains, u);
    TotalLenSnoc(used, u);
    TotalLenSnoc(vecs[..i], v);
    assert vecs[..i + 1] == vecs[..i] + [v];
    assert data[..done] + data[done..done + n] == data[..done + n];
  }

  /** Writing `data` to regions that have room for it. */
  method FillAll(buf: EvBuffer, vecs: seq<Iovec>, data: seq<byte>) returns (used: seq<Iovec>)
    requires buf.Structure() && InBounds(buf, FirstWithSpace(buf), vecs) && |data| <= TotalLen(vecs)
    modifies buf`chains
    ensures buf.Structure() && buf.Contents() == old(buf.Contents()) && InBounds(buf, FirstWithSpace(buf), vecs)
    ensures Filled(buf, vecs, used, data) && TotalLen(used) == |data| && Written(buf.chains, used) == data
  {
    hide Flat;
    hide Written;
    hide TotalLen;
    used := [];
    NothingUsed(buf, vecs, data);
    while |used| < |vecs|
      invariant |used| <= |vecs| && buf.Structure() && buf.Contents() == old(buf.Contents())
      invariant InBounds(buf, FirstWithSpace(buf), vecs) && Filled(buf, vecs, used, data)
    {
      used := FillOne(buf, vecs, used, data);
    }
    assert vecs[..|used|] == vecs;
    assert data[..|data|] == data;
  }

  /** Reserve in two or more regions, write, and commit what was written, as reading from a file does: the bytes
      are appended, whatever the regions are. */
  method ReadInto(buf: EvBuffer, data: seq<byte>, n: nat) returns (result: int)
    requires buf.Valid() && data != [] && n >= 2
    modifies buf, buf.cb
    ensures buf.Valid()
    ensures buf.freezeStart == old(buf.freezeStart) && buf.freezeEnd == old(buf.freezeEnd)
    ensures result == if buf.freezeEnd then -1 else 0
    ensures buf.Contents() == old(buf.Contents()) + if result == 0 then data else []
    ensures if result == 0 then buf.cb.Told(|data|, 0) else unchanged(buf.cb)
  {
    hide Flat;
    hide Written;
    hide TotalLen;
    hide InBounds;
    hide CallbackCounters.Telescopes;
    var r := Reserve(buf, |data|, n);
    if r.Refused? {
      return -1;
    }
    var used := FillAll(buf, r.vecs, data);
    ReservedCommittable(buf, r.vecs, used);
    SomeUsed(used);
    result := Commit(buf, used);
  }

  lemma NothingUsed(buf: EvBuffer, vecs: seq<Iovec>, data: seq<byte>)
    requires buf.Structure()
    ensures Filled(buf, vecs, [], data)
  {
    assert vecs[..0] == [];
  }

  lemma SomeUsed(used: seq<Iovec>)
    ensures TotalLen(used) > 0 ==> used != []
  {
  }

  /** A nearly full chain and two empty ones: 971 bytes have been added, and room for 20 bytes in two regions
      and for 1000 in three has been reserved and not used. */
  method StrandedLayout() returns (buf: EvBuffer)
    ensures fresh(buf) && fresh(buf.cb) && buf.Valid() && !buf.freezeEnd && |buf.Contents()| == 971
    ensures |buf.chains| == 3 && buf.lastWithDatap == 0
    ensures Small(buf.chains[0], 971) && Small(buf.chains[1], 0) && Small(buf.chains[2], 0)
  {
    hide Flat;
    hide Space;
    FlatNil();
    buf := new EvBuffer();
    var added := Add(buf, seq(971, _ => 0));
    SpaceOf(buf, 2);
    var first := Reserve(buf, 20, 2);
    SpaceOf(buf, 3);
    var second := Reserve(buf, 1000, 3);
  }

  /** There, reserving 20 bytes in one region cannot be followed by a commit. */
  method StrandedExample() returns (buf: EvBuffer, result: int)
    ensures buf.Valid() && result == -1 && !buf.freezeEnd && |buf.Contents()| == 971
  {
    hide Flat;
    hide Space;
    buf := StrandedLayout();
    result := WriteThrough(buf, seq(20, _ => 1));
  }

  /** The space behind the bytes of all chains. */
  lemma SpaceOf(buf: EvBuffer, n: nat)
    requires buf.Structure() && n > 0
    ensures Space(buf.chains, 0, n) == if buf.chains == [] then 0 else buf.chains[0].SpaceLen() + Space(buf.chains, 1, n - 1)
    ensures |buf.chains| == 1 ==> Space(buf.chains, 1, n - 1) == 0
    ensures |buf.chains| == 2 && n > 1 ==> Space(buf.chains, 1, n - 1) == buf.chains[1].SpaceLen()
  {
    if |buf.chains| == 2 && n > 1 {
      assert Space(buf.chains, 2, n - 2) == 0;
    }
  }

  /** A buffer on which reserving no bytes in two regions stops at an assertion: its one chain is full. */
  method AbortExample() returns (buf: EvBuffer, r: Reservation)
    ensures buf.Valid() && r.Aborted? && |buf.Contents()| == 976
  {
    hide Flat;
    FlatNil();
    buf := new EvBuffer();
    var added := Add(buf, seq(976, _ => 0));
    r := Reserve(buf, 0, 2);
  }
}
