/** `event_tagging.c`: integers as nibbles and tags as groups of seven bits, the least significant ones
    first. */
module TagCodec {
  import opened Basics
  import Chains

  type byte = Chains.byte

  const TWO_31: nat := 0x8000_0000
  const TWO_32: nat := 0x1_0000_0000

  /** A number shifted right by `i` nibbles. */
  function Shifted(n: nat, i: nat): nat {
    if i == 0 then n else Shifted(n, i - 1) / 16
  }

  /** How many nibbles a number has. */
  function Nibbles(n: nat): nat {
    if n == 0 then 0 else 1 + Nibbles(n / 16)
  }

  lemma {:induction false} ShiftedInside(n: nat, i: nat)
    ensures Shifted(n, i + 1) == Shifted(n / 16, i)
  {
    if i > 0 {
      ShiftedInside(n, i - 1);
    }
  }

  /** Nothing is left exactly when all nibbles have gone. */
  lemma {:induction false} ShiftedOut(n: nat, i: nat)
    ensures Shifted(n, i) == 0 <==> i >= Nibbles(n)
    decreases i
  {
    if i > 0 {
      ShiftedInside(n, i - 1);
      ShiftedOut(n / 16, i - 1);
    }
  }

  /** Numbers of at most `k` nibbles. */
  function Limit(k: nat): nat {
    if k == 0 then 1 else 16 * Limit(k - 1)
  }

  lemma {:induction false} LimitPositive(k: nat)
    ensures Limit(k) > 0
  {
    if k > 0 {
      LimitPositive(k - 1);
    }
  }

  lemma {:induction false} NibblesBelow(n: nat, k: nat)
    ensures n < Limit(k) <==> Nibbles(n) <= k
    decreases k
  {
    LimitPositive(k);
    if k > 0 && n > 0 {
      NibblesBelow(n / 16, k - 1);
    }
  }

  lemma Limits()
    ensures Limit(8) == TWO_32 && Limit(16) == TWO_32 * TWO_32
  {
    assert Limit(8) == 16 * Limit(7) && Limit(7) == 16 * Limit(6) && Limit(6) == 16 * Limit(5) && Limit(5) == 16 * Limit(4);
    assert Limit(4) == 16 * Limit(3) && Limit(3) == 16 * Limit(2) && Limit(2) == 16 * Limit(1) && Limit(1) == 16;
    assert Limit(16) == 16 * Limit(15) && Limit(15) == 16 * Limit(14) && Limit(14) == 16 * Limit(13);
    assert Limit(13) == 16 * Limit(12) && Limit(12) == 16 * Limit(11) && Limit(11) == 16 * Limit(10);
    assert Limit(10) == 16 * Limit(9) && Limit(9) == 16 * Limit(8);
  }

  // ---- integers

  /** The nibble at place `p` of an encoded integer: first one less than the number of nibbles, then the
      nibbles of the number. */
  function NibbleOf(n: nat, p: nat): nat {
    if p == 0 then (if Nibbles(n) > 0 then Nibbles(n) - 1 else 0) else Shifted(n, p - 1) % 16
  }

  function IntLength(n: nat): nat {
    1 + Nibbles(n) / 2
  }

  /** The bytes of an encoded integer; two nibbles make a byte. */
  function IntBytes(n: nat): seq<byte>
    requires Nibbles(n) <= 16
  {
    seq(IntLength(n), k requires 0 <= k < IntLength(n) => NibbleOf(n, 2 * k) * 16 + NibbleOf(n, 2 * k + 1))
  }

  /** The nibble at place `p` of some bytes. */
  function NibbleAt(data: seq<byte>, p: nat): nat
    requires p / 2 < |data|
  {
    if p % 2 == 1 then data[p / 2] % 16 else data[p / 2] / 16
  }

  function SetNibble(data: seq<byte>, p: nat, v: nat): seq<byte>
    requires p / 2 < |data| && v < 16
  {
    if p % 2 == 1 then data[p / 2 := data[p / 2] / 16 * 16 + v] else data[p / 2 := data[p / 2] % 16 + v * 16]
  }

  lemma SetNibbleAt(data: seq<byte>, p: nat, v: nat, q: nat)
    requires p / 2 < |data| && v < 16 && q / 2 < |data|
    ensures |SetNibble(data, p, v)| == |data|
    ensures NibbleAt(SetNibble(data, p, v), q) == if q == p then v else NibbleAt(data, q)
  {
  }

  /** `encode_int_internal` for 32 bits (`size` 4) and for 64 bits (`size` 8). */
  method EncodeInt(number0: nat, size: nat) returns (r: seq<byte>)
    requires size == 4 || size == 8
    requires number0 < Limit(2 * size)
    ensures Nibbles(number0) <= 2 * size && r == IntBytes(number0)
  {
    NibblesBelow(number0, 2 * size);
    var off, nibbles, number := 1, 0, number0;
    var data: seq<byte> := seq(size + 1, _ => 0);
    ShiftedOut(number0, 0);
    while number != 0
      invariant 1 <= off <= Nibbles(number0) + 1 && number == Shifted(number0, off - 1) && |data| == size + 1
      invariant forall p: nat | p / 2 < |data| :: NibbleAt(data, p) == if 1 <= p < off then NibbleOf(number0, p) else 0
      decreases number
    {
      ShiftedOut(number0, off - 1);
      ghost var was := data;
      data := SetNibble(data, off, number % 16);
      forall p: nat | p / 2 < |data|
        ensures NibbleAt(data, p) == if 1 <= p < off + 1 then NibbleOf(number0, p) else 0
      {
        SetNibbleAt(was, off, number % 16, p);
      }
      number := number / 16;
      off := off + 1;
    }
    ShiftedOut(number0, off - 1);
    if off > 2 {
      nibbles := off - 2;
    }
    ghost var was := data;
    data := SetNibble(data, 0, nibbles);
    r := data[..(off + 1) / 2];
    Filled(number0, was, data, off);
  }

  lemma FilledByte(n: nat, was: seq<byte>, off: nat, k: nat)
    requires NibbleOf(n, 0) < 16 && k < (off + 1) / 2
    requires off == Nibbles(n) + 1 && |was| >= (off + 1) / 2
    requires forall p: nat | p / 2 < |was| :: NibbleAt(was, p) == if 1 <= p < off then NibbleOf(n, p) else 0
    ensures |SetNibble(was, 0, NibbleOf(n, 0))| == |was|
    ensures SetNibble(was, 0, NibbleOf(n, 0))[k] == NibbleOf(n, 2 * k) * 16 + NibbleOf(n, 2 * k + 1)
  {
    hide NibbleOf;
    hide SetNibble;
    hide NibbleAt;
    SetNibbleAt(was, 0, NibbleOf(n, 0), 2 * k);
    SetNibbleAt(was, 0, NibbleOf(n, 0), 2 * k + 1);
    if 2 * k + 1 >= off { NoNibble(n, 2 * k + 1); }
    ByteAt(SetNibble(was, 0, NibbleOf(n, 0)), k);
  }

  /** When every nibble is set, the bytes are those of the integer. */
  lemma Filled(n: nat, was: seq<byte>, data: seq<byte>, off: nat)
    requires NibbleOf(n, 0) < 16
    requires off == Nibbles(n) + 1 <= 17 && |was| >= (off + 1) / 2
    requires forall p: nat | p / 2 < |was| :: NibbleAt(was, p) == if 1 <= p < off then NibbleOf(n, p) else 0
    requires data == SetNibble(was, 0, NibbleOf(n, 0))
    ensures |data| == |was| && data[..(off + 1) / 2] == IntBytes(n)
  {
    hide NibbleOf;
    hide SetNibble;
    hide NibbleAt;
    hide Nibbles;
    FilledByte(n, was, off, 0);
    forall k | 0 <= k < (off + 1) / 2
      ensures data[k] == NibbleOf(n, 2 * k) * 16 + NibbleOf(n, 2 * k + 1)
    {
      FilledByte(n, was, off, k);
    }
  }

  /** Behind the nibbles of a number there is a zero. */
  lemma NoNibble(n: nat, p: nat)
    requires p > Nibbles(n)
    ensures p > 0 && NibbleOf(n, p) == 0
  {
    ShiftedOut(n, p - 1);
  }

  lemma ByteAt(data: seq<byte>, k: nat)
    requires k < |data|
    ensures data[k] == NibbleAt(data, 2 * k) * 16 + NibbleAt(data, 2 * k + 1)
  {
  }

  /** The number in the nibbles from place `i` to place `k`. */
  function Number(data: seq<byte>, i: nat, k: nat): nat
    requires k / 2 < |data|
    decreases k + 1 - i
  {
    if i > k then 0 else NibbleAt(data, i) + 16 * Number(data, i + 1, k)
  }

  /** What an encoded integer at the front of some bytes is, and how long it is. */
  function DecodeInt(s: seq<byte>, maxNibbles: nat): Option<(nat, nat)> {
    if s == [] then None
    else
      var nibbles := s[0] as int / 16 + 1;
      if nibbles > maxNibbles || nibbles / 2 + 1 > |s| then None
      else Some((Number(s, 1, nibbles), nibbles / 2 + 1))
  }

  lemma {:induction false} NumberBelow(data: seq<byte>, i: nat, k: nat)
    requires k / 2 < |data| && i <= k + 1
    ensures Number(data, i, k) < Limit(k + 1 - i)
    decreases k + 1 - i
  {
    if i <= k {
      NumberBelow(data, i + 1, k);
    }
  }

  lemma NibbleSmall(n: nat, p: nat)
    requires p > 0
    ensures NibbleOf(n, p) < 16
  {
  }

  lemma IntByte(n: nat, rest: seq<byte>, k: nat)
    requires Nibbles(n) <= 16 && k < IntLength(n)
    ensures |IntBytes(n)| == IntLength(n)
    ensures (IntBytes(n) + rest)[k] == NibbleOf(n, 2 * k) * 16 + NibbleOf(n, 2 * k + 1)
  {
    assert (IntBytes(n) + rest)[k] == IntBytes(n)[k];
  }

  lemma Halves(hi: nat, lo: nat)
    requires lo < 16
    ensures (hi * 16 + lo) / 16 == hi && (hi * 16 + lo) % 16 == lo
  {
  }

  lemma NibbleOfBytes(n: nat, rest: seq<byte>, p: nat)
    requires Nibbles(n) <= 16 && p / 2 < IntLength(n)
    ensures |IntBytes(n)| == IntLength(n) && NibbleAt(IntBytes(n) + rest, p) == NibbleOf(n, p)
  {
    hide NibbleOf;
    hide IntBytes;
    var k := p / 2;
    IntByte(n, rest, k);
    NibbleSmall(n, 2 * k + 1);
    Halves(NibbleOf(n, 2 * k), NibbleOf(n, 2 * k + 1));
    assert p == 2 * k + p % 2;
  }

  lemma {:induction false} NumberIs(n: nat, rest: seq<byte>, i: nat, k: nat)
    requires Nibbles(n) <= 16 && 1 <= i <= k + 1 && k >= Nibbles(n) && k / 2 < IntLength(n)
    ensures Number(IntBytes(n) + rest, i, k) == Shifted(n, i - 1)
    decreases k + 1 - i
  {
    if i <= k {
      NumberIs(n, rest, i + 1, k);
      NibbleOfBytes(n, rest, i);
    } else {
      ShiftedOut(n, i - 1);
    }
  }

  /** An integer that was encoded is decoded, with its length, whatever follows. */
  lemma IntRoundTrip(n: nat, rest: seq<byte>, maxNibbles: nat)
    requires Nibbles(n) <= maxNibbles <= 16 && maxNibbles >= 1
    ensures DecodeInt(IntBytes(n) + rest, maxNibbles) == Some((n, |IntBytes(n)|))
  {
    var nibbles := if Nibbles(n) > 0 then Nibbles(n) else 1;
    NibbleOfBytes(n, rest, 0);
    NumberIs(n, rest, 1, nibbles);
  }

  lemma Times(a: nat, c: nat, n: nat)
    requires a <= c
    ensures a * n <= c * n
  {
  }

  /** Shifting by `i` nibbles is dividing by what `i` nibbles can hold. */
  lemma {:induction false} ShiftedIs(n: nat, i: nat)
    ensures Shifted(n, i) * Limit(i) <= n < (Shifted(n, i) + 1) * Limit(i)
  {
    if i > 0 {
      ShiftedIs(n, i - 1);
      Sixteenth(n, Shifted(n, i - 1), Shifted(n, i), Limit(i - 1), Limit(i));
    }
  }

  lemma Sixteenth(n: nat, a: nat, q: nat, l: nat, m: nat)
    requires a * l <= n < (a + 1) * l && m == 16 * l && 16 * q <= a < 16 * q + 16
    ensures q * m <= n < (q + 1) * m
  {
    Times(16 * q, a, l);
    Times(a + 1, 16 * q + 16, l);
    assert q * m == 16 * q * l && (q + 1) * m == (16 * q + 16) * l by { Regroup(q, l, m); }
  }

  lemma Regroup(q: nat, l: nat, m: nat)
    requires m == 16 * l
    ensures q * m == 16 * q * l && (q + 1) * m == (16 * q + 16) * l
  {
    assert q * m == q * l * 16;
    assert (16 * q + 16) * l == 16 * (q * l) + 16 * l;
  }

  lemma NibbleIs(n: nat, i: nat)
    ensures NibbleOf(n, i + 1) == Shifted(n, i) % 16 && IntLength(n) == 1 + Nibbles(n) / 2
    ensures Nibbles(n) > 0 ==> NibbleOf(n, 0) == Nibbles(n) - 1
  {
  }

  /** The format: one less than the number of nibbles comes first, and then the hexadecimal digits of the number, the
      last one first: the number shifted, which is the number divided (`ShiftedIs`). */
  lemma IntFormat(n: nat, i: nat)
    requires Nibbles(n) <= 16 && i < Nibbles(n)
    ensures |IntBytes(n)| == 1 + Nibbles(n) / 2 && NibbleAt(IntBytes(n), 0) == Nibbles(n) - 1
    ensures NibbleAt(IntBytes(n), i + 1) == Shifted(n, i) % 16
  {
    hide *;
    NibbleIs(n, i);
    assert IntBytes(n) + [] == IntBytes(n);
    NibbleOfBytes(n, [], 0);
    NibbleOfBytes(n, [], i + 1);
  }

  lemma FormatExamples()
    ensures Nibbles(0) == 0 && IntBytes(0) == [0x00]
    ensures Nibbles(0xaf0) == 3 && IntBytes(0xaf0) == [0x20, 0xfa]
    ensures TagBytes(0x12c) == [0xac, 0x02]
  {
    assert Nibbles(0xaf) == 2 && Nibbles(0xa) == 1;
    assert Shifted(0xaf0, 1) == 0xaf && Shifted(0xaf0, 2) == 0xa;
    assert TagBytes(2) == [2];
  }

  // ---- tags

  /** `evtag_encode_tag`, as a function of the tag. */
  function TagBytes(tag: nat): (r: seq<byte>)
    ensures |r| >= 1
  {
    if tag / 128 == 0 then [tag % 128] else [tag % 128 + 128] + TagBytes(tag / 128)
  }

  /** The loop of `evtag_encode_tag`. */
  method EncodeTag(tag0: nat) returns (r: seq<byte>)
    requires tag0 < TWO_32
    ensures r == TagBytes(tag0)
  {
    r := [];
    var tag := tag0;
    while true
      invariant TagBytes(tag0) == r + TagBytes(tag)
      decreases tag
    {
      var lower := tag % 128;
      ghost var was := tag;
      tag := tag / 128;
      if tag != 0 {
        lower := lower + 128;
      }
      ghost var before := r;
      r := r + [lower];
      if tag == 0 {
        break;
      }
      assert TagBytes(was) == [lower] + TagBytes(tag);
      assert before + ([lower] + TagBytes(tag)) == r + TagBytes(tag);
    }
  }

  /** What the group at place `i` is worth. */
  function Weight(i: nat): nat {
    if i == 0 then 1 else if i == 1 then 0x80 else if i == 2 then 0x4000 else if i == 3 then 0x20_0000 else 0x1000_0000
  }

  /** What a tag at the front of some bytes is, when `i` groups worth `number` have been read, and how
      many groups it has.  A fifth group has four bits; there is no sixth. */
  function DecodeTagFrom(s: seq<byte>, i: nat, number: nat): Option<(nat, nat)>
    decreases |s|
  {
    if s == [] || i > 4 then None
    else
      var lower := s[0] as int % 128;
      if i == 4 && lower > 15 then None
      else
        var n := number + lower * Weight(i);
        if s[0] < 128 then Some((n, i + 1)) else DecodeTagFrom(s[1..], i + 1, n)
  }

  function DecodeTag(s: seq<byte>): Option<(nat, nat)> {
    DecodeTagFrom(s, 0, 0)
  }

  lemma {:induction false} DecodeTagLength(s: seq<byte>, i: nat, number: nat)
    requires DecodeTagFrom(s, i, number).Some? && number < Weight(i) && i <= 4
    ensures i < DecodeTagFrom(s, i, number).value.1 <= i + |s| && DecodeTagFrom(s, i, number).value.1 <= 5
    ensures DecodeTagFrom(s, i, number).value.0 < TWO_32
    decreases |s|
  {
    if s[0] >= 128 {
      DecodeTagLength(s[1..], i + 1, number + s[0] as int % 128 * Weight(i));
    }
  }

  lemma WeightStep(tag: nat, i: nat)
    requires i <= 4 && tag >= 128 && tag * Weight(i) < TWO_32
    ensures i < 4 && tag * Weight(i) == tag / 128 * Weight(i + 1) + tag % 128 * Weight(i)
  {
  }

  lemma {:induction false} TagRoundTripFrom(tag: nat, rest: seq<byte>, i: nat, number: nat)
    requires i <= 4 && tag * Weight(i) < TWO_32
    ensures DecodeTagFrom(TagBytes(tag) + rest, i, number) == Some((number + tag * Weight(i), i + |TagBytes(tag)|))
    decreases 4 - i
  {
    hide Weight;
    var s := TagBytes(tag) + rest;
    if tag / 128 == 0 {
      assert s[0] == tag;
      SmallTag(tag, i);
    } else {
      assert s[0] == tag % 128 + 128 && s[1..] == TagBytes(tag / 128) + rest;
      WeightStep(tag, i);
      TagRoundTripFrom(tag / 128, rest, i + 1, number + tag % 128 * Weight(i));
    }
  }

  lemma SmallTag(tag: nat, i: nat)
    requires i <= 4 && tag * Weight(i) < TWO_32
    ensures i == 4 ==> tag <= 15
  {
  }

  /** The format: groups of seven bits, the least significant one first, each but the last one with its top bit set. */
  lemma {:induction false} TagFormat(tag: nat, i: nat)
    requires i < |TagBytes(tag)|
    ensures TagBytes(tag)[i] as int % 128 == Groups(tag, i) % 128
    ensures TagBytes(tag)[i] >= 128 <==> i < |TagBytes(tag)| - 1
    ensures i == |TagBytes(tag)| - 1 ==> Groups(tag, i) < 128
    decreases i
  {
    if i > 0 {
      assert TagBytes(tag)[i] == TagBytes(tag / 128)[i - 1];
      TagFormat(tag / 128, i - 1);
    }
  }

  /** A tag shifted right by `i` groups. */
  function Groups(tag: nat, i: nat): nat {
    if i == 0 then tag else Groups(tag / 128, i - 1)
  }

  /** A tag that was encoded is decoded, with its length, whatever follows. */
  lemma TagRoundTrip(tag: nat, rest: seq<byte>)
    requires tag < TWO_32
    ensures DecodeTag(TagBytes(tag) + rest) == Some((tag, |TagBytes(tag)|))
  {
    TagRoundTripFrom(tag, rest, 0, 0);
  }
}
