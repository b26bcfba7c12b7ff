/** One memory block of an evbuffer: `struct evbuffer_chain`.

    The bytes of a chain are `mem[misalign..misalign + off]`; the space before them and after
    them is free.  A read-only chain stands for memory that was only lent to the buffer: it
    never has free space at its end.  */
module Chains {

  type byte = b: int | 0 <= b < 256

  const CHAIN_HEADER: nat := 48
  const MIN_BUFFER_SIZE: nat := 1024
  const CHAIN_MAX: nat := 0x7fff_ffff_ffff_ffff
  /** The bytes that the smallest block has room for. */
  const SMALLEST: nat := MIN_BUFFER_SIZE - CHAIN_HEADER

  /** `from` doubled some number of times. */
  ghost predicate IsDoubling(n: nat, from: nat)
    requires from > 0
    decreases n
  {
    n == from || (n > from && n % 2 == 0 && IsDoubling(n / 2, from))
  }

  /** The size of the memory block that holds a chain header and `size` bytes. */
  method AllocationSize(size: nat) returns (toAlloc: nat)
    ensures toAlloc >= size + CHAIN_HEADER
    ensures size + CHAIN_HEADER < CHAIN_MAX / 2 ==>
              IsDoubling(toAlloc, MIN_BUFFER_SIZE) &&
              (toAlloc == MIN_BUFFER_SIZE || toAlloc / 2 < size + CHAIN_HEADER)
    ensures size + CHAIN_HEADER >= CHAIN_MAX / 2 ==> toAlloc == size + CHAIN_HEADER
  {
    var total := size + CHAIN_HEADER;
    if total < CHAIN_MAX / 2 {
      toAlloc := MIN_BUFFER_SIZE;
      while toAlloc < total
        invariant IsDoubling(toAlloc, MIN_BUFFER_SIZE)
        invariant toAlloc >= MIN_BUFFER_SIZE
        invariant toAlloc == MIN_BUFFER_SIZE || toAlloc / 2 < total
        decreases total - toAlloc
      {
        toAlloc := toAlloc * 2;
      }
    } else {
      toAlloc := total;
    }
  }

  datatype Chain = Chain(mem: seq<byte>, misalign: nat, off: nat, immutable: bool)
  {
    ghost predicate Ok() {
      && misalign + off <= |mem|
      && (immutable ==> misalign + off == |mem|)
      && (immutable && off == 0 ==> mem == [])
      && (!immutable ==> mem != [])
    }

    /** The bytes stored in this chain. */
    function Data(): (d: seq<byte>)
      ensures Ok() ==> |d| == off
    {
      if misalign + off <= |mem| then mem[misalign..misalign + off] else []
    }

    /** Free space after the stored bytes (none in a read-only chain): `CHAIN_SPACE_LEN`. */
    function SpaceLen(): int {
      if immutable then 0 else |mem| - (misalign + off)
    }

    /** Copies `d` to the free space after the stored bytes. */
    function WriteTail(d: seq<byte>): (c: Chain)
      requires Ok() && |d| <= SpaceLen()
      ensures c.Ok() && c.Data() == Data() + d
      ensures c.SpaceLen() == SpaceLen() - |d| && c.off == off + |d|
      ensures |c.mem| == |mem| && c.misalign == misalign && c.immutable == immutable
    {
      var at := misalign + off;
      var c := this.(mem := mem[..at] + d + mem[at + |d|..], off := off + |d|);
      assert c.mem[misalign..at] == mem[misalign..at];
      c
    }

    /** Writes `d` to memory behind the stored bytes without storing it. */
    function Scribble(at: nat, d: seq<byte>): (c: Chain)
      requires Ok() && misalign + off <= at && at + |d| <= |mem|
      ensures c.Ok() && c.Data() == Data() && c.SpaceLen() == SpaceLen() && c.off == off
      ensures c.misalign == misalign && |c.mem| == |mem| && c.immutable == immutable
      ensures c.mem[at..at + |d|] == d
    {
      var c := this.(mem := mem[..at] + d + mem[at + |d|..]);
      assert c.mem[misalign..misalign + off] == mem[misalign..misalign + off];
      c
    }

    /** Copies `d` to the free space before the stored bytes. */
    function WriteHead(d: seq<byte>): (c: Chain)
      requires Ok() && !immutable && |d| <= misalign
      ensures c.Ok() && c.Data() == d + Data() && c.misalign == misalign - |d|
    {
      var at := misalign - |d|;
      var c := this.(mem := mem[..at] + d + mem[misalign..], misalign := at, off := off + |d|);
      assert c.mem[misalign..misalign + off] == mem[misalign..misalign + off];
      c
    }

    /** Moves the stored bytes to the start of the block: `evbuffer_chain_align`. */
    function Align(): (c: Chain)
      requires Ok() && !immutable
      ensures c.Ok() && c.misalign == 0 && c.Data() == Data()
      ensures c.off == off && |c.mem| == |mem| && c.immutable == immutable
    {
      this.(mem := mem[misalign..misalign + off] + mem[off..], misalign := 0)
    }

    /** Forgets the first `n` stored bytes, but not all of them. */
    function Drop(n: nat): (c: Chain)
      requires Ok() && n < off
      ensures c.Ok() && c.Data() == Data()[n..] && c.off == off - n
      ensures c.SpaceLen() == SpaceLen()
    {
      this.(misalign := misalign + n, off := off - n)
    }

    /** Whether moving the stored bytes to the start is worth it to fit `datlen` more. */
    predicate ShouldRealign(datlen: nat) {
      && |mem| - off >= datlen
      && off < |mem| / 2
      && off <= MAX_TO_REALIGN_IN_EXPAND
    }
  }

  const MAX_TO_REALIGN_IN_EXPAND: nat := 2048

  /** A chain in the smallest block, with its first `n` bytes stored. */
  predicate Small(c: Chain, n: nat) {
    |c.mem| == SMALLEST && c.misalign == 0 && c.off == n && !c.immutable
  }

  /** `evbuffer_chain_new`: an empty chain with room for at least `size` bytes. */
  method NewChain(size: nat) returns (c: Chain)
    ensures c.Ok() && !c.immutable && c.misalign == 0 && c.off == 0 && c.Data() == []
    ensures |c.mem| >= size && |c.mem| > 0
    ensures size <= SMALLEST ==> |c.mem| == SMALLEST
    ensures |c.mem| == SMALLEST || |c.mem| < 2 * (size + CHAIN_HEADER)
  {
    var toAlloc := AllocationSize(size);
    c := Chain(seq(toAlloc - CHAIN_HEADER, i => 0), 0, 0, false);
  }

  /** The bytes of a list of chains, end to end. */
  function Flat(cs: seq<Chain>): seq<byte>
  {
    if cs == [] then [] else cs[0].Data() + Flat(cs[1..])
  }

  lemma {:induction false} FlatConcat(p: seq<Chain>, q: seq<Chain>)
    ensures Flat(p + q) == Flat(p) + Flat(q)
  {
    if p == [] {
      assert p + q == q;
    } else {
      assert Flat(p + q) == p[0].Data() + Flat(p[1..] + q) by {
        assert (p + q)[1..] == p[1..] + q;
      }
      FlatConcat(p[1..], q);
      Assoc(p[0].Data(), Flat(p[1..]), Flat(q));
    }
  }

  lemma Assoc<T>(a: seq<T>, b: seq<T>, c: seq<T>)
    ensures (a + b) + c == a + (b + c)
  {
  }

  lemma FlatOne(c: Chain)
    ensures Flat([c]) == c.Data()
  {
  }

  lemma FlatNil()
    ensures Flat([]) == []
  {
  }

  ghost predicate AllEmpty(cs: seq<Chain>) {
    forall i | 0 <= i < |cs| :: cs[i].Data() == []
  }

  lemma {:induction false} FlatEmpty(p: seq<Chain>)
    requires AllEmpty(p)
    ensures Flat(p) == []
  {
    if p != [] {
      FlatEmpty(p[1..]);
    }
  }

  /** The flattening, cut before chain `i`. */
  lemma FlatCut(p: seq<Chain>, i: nat)
    requires i <= |p|
    ensures Flat(p) == Flat(p[..i]) + Flat(p[i..])
  {
    hide Flat;
    FlatConcat(p[..i], p[i..]);
    assert p[..i] + p[i..] == p;
  }

  /** The flattening, cut around chain `i`. */
  lemma FlatSplit(p: seq<Chain>, i: nat)
    requires i < |p|
    ensures Flat(p) == Flat(p[..i]) + p[i].Data() + Flat(p[i + 1..])
  {
    hide Flat;
    FlatCut(p, i);
    FlatStep(p, i);
    Assoc(Flat(p[..i]), p[i].Data(), Flat(p[i + 1..]));
  }

  lemma FlatStep(p: seq<Chain>, i: nat)
    requires i < |p|
    ensures Flat(p[i..]) == p[i].Data() + Flat(p[i + 1..])
    ensures Flat(p[..i + 1]) == Flat(p[..i]) + p[i].Data()
  {
    assert Flat(p[i..]) == p[i].Data() + Flat(p[i + 1..]) by {
      assert p[i..][1..] == p[i + 1..];
    }
    hide Flat;
    FlatConcat(p[..i], [p[i]]);
    FlatOne(p[i]);
    assert p[..i + 1] == p[..i] + [p[i]];
  }

  /** Replacing chain `i` changes only its own bytes. */
  lemma FlatUpdate(p: seq<Chain>, i: nat, c: Chain)
    requires i < |p|
    ensures Flat(p[i := c]) == Flat(p[..i]) + c.Data() + Flat(p[i + 1..])
    ensures Flat(p) == Flat(p[..i]) + p[i].Data() + Flat(p[i + 1..])
  {
    var q := p[i := c];
    FlatSplit(q, i);
    FlatSplit(p, i);
    assert q[..i] == p[..i] && q[i + 1..] == p[i + 1..];
  }

  /** Dropping trailing chains without bytes. */
  lemma FlatTrim(p: seq<Chain>, i: nat)
    requires i <= |p| && AllEmpty(p[i..])
    ensures Flat(p) == Flat(p[..i])
  {
    FlatCut(p, i);
    FlatEmpty(p[i..]);
  }

  /** The bytes of chain `i` inside the flattening. */
  lemma FlatSlice(p: seq<Chain>, i: nat, a: nat, b: nat)
    requires i < |p| && a <= b <= |p[i].Data()|
    ensures |Flat(p[..i])| + b <= |Flat(p[..i])| + |p[i].Data()| <= |Flat(p)|
    ensures Flat(p)[|Flat(p[..i])| + a..|Flat(p[..i])| + b] == p[i].Data()[a..b]
  {
    hide Flat;
    FlatSplit(p, i);
  }
}
