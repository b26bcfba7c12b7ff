/** `event_tagging.c`: reading tagged records from a buffer. */
module TagRead {
  import opened Basics
  import opened TagCodec
  import opened TagStream
  import opened EvBuffers
  import opened EvBufferBasic
  import opened EvBufferMove
  import opened EvBufferPullup

  /** The first `n` bytes, pulled up into one piece; there are none to pull up when `n` is 0. */
  method Front(buf: EvBuffer, n: nat) returns (ok: bool, data: seq<byte>)
    requires buf.Valid()
    modifies buf`chains, buf`last, buf`lastWithDatap
    ensures buf.Valid() && buf.Contents() == old(buf.Contents())
    ensures ok <==> 0 < n <= |buf.Contents()|
    ensures data == if ok then buf.Contents()[..n] else []
  {
    data := [];
    ok := Pullup(buf, n);
    if ok {
      data := buf.chains[0].Data()[..n];
    }
  }

  /** `evbuffer_drain`, of bytes that are there. */
  method Discard(buf: EvBuffer, n: nat)
    requires buf.Valid() && !buf.freezeStart && n <= |buf.Contents()|
    modifies buf, buf.cb
    ensures buf.Valid() && !buf.freezeStart && buf.freezeEnd == old(buf.freezeEnd)
    ensures buf.Contents() == old(buf.Contents())[n..]
  {
    hide EvBuffer.Valid;
    Lengths(buf);
    var res := Drain(buf, n);
    if old(buf.totalLen) == 0 {
      assert old(buf.Contents()) == [];
    }
  }

  /** `evbuffer_drain`, of as many bytes as are there. */
  method DiscardAny(buf: EvBuffer, n: nat)
    requires buf.Valid() && !buf.freezeStart
    modifies buf, buf.cb
    ensures buf.Valid() && !buf.freezeStart && buf.freezeEnd == old(buf.freezeEnd)
    ensures buf.Contents() == if n >= |old(buf.Contents())| then [] else old(buf.Contents())[n..]
  {
    hide EvBuffer.Valid;
    Lengths(buf);
    var res := Drain(buf, n);
    if old(buf.totalLen) == 0 {
      assert old(buf.Contents()) == [];
    }
  }

  lemma Lengths(buf: EvBuffer)
    requires buf.Valid()
    ensures |buf.Contents()| == buf.totalLen
  {
  }

  /** `decode_tag_internal`: the number of bytes of the tag, or -1. */
  method DecodeTagInternal(buf: EvBuffer, drain: bool) returns (res: int, tag: nat)
    requires buf.Valid() && !buf.freezeStart
    modifies buf, buf.cb
    ensures buf.Valid() && !buf.freezeStart && buf.freezeEnd == old(buf.freezeEnd)
    ensures DecodeTag(old(buf.Contents())).None? ==> res == -1 && buf.Contents() == old(buf.Contents())
    ensures DecodeTag(old(buf.Contents())).Some? ==>
      && (tag, res) == DecodeTag(old(buf.Contents())).value && 1 <= res <= |old(buf.Contents())| && tag < TWO_32
      && buf.Contents() == if drain then old(buf.Contents())[res..] else old(buf.Contents())
  {
    hide EvBuffer.Valid;
    hide EvBuffer.Contents;
    Lengths(buf);
    var len := buf.totalLen;
    ghost var s := buf.Contents();
    var ok, data := Front(buf, if len < 5 then len else 5);
    if !ok {
      return -1, 0;
    }
    var number;
    res, number := ReadTag(data, len, s);
    tag := number;
    if res == -1 {
      return;
    }
    if drain {
      Discard(buf, res);
    }
  }

  /** The loop of `decode_tag_internal` over the first bytes of a buffer of `len` bytes. */
  method ReadTag(data: seq<byte>, len: nat, ghost s: seq<byte>) returns (res: int, number: nat)
    requires |s| == len && data == s[..if len < 5 then len else 5]
    ensures res == -1 <==> DecodeTag(s).None?
    ensures res != -1 ==> (number, res) == DecodeTag(s).value && 1 <= res <= len && number < TWO_32
  {
    number := 0;
    var count, shift, done := 0, 0, false;
    assert s[0..] == s;
    while count < len
      invariant 0 <= count <= len && shift == 7 * count && count <= 5 && !done
      invariant DecodeTag(s) == DecodeTagFrom(s[count..], count, number)
      decreases len - count
    {
      if shift > 28 {
        return -1, number;
      }
      var lower := data[count];
      assert s[count..][0] == lower && s[count..][1..] == s[count + 1..];
      if shift >= 28 && lower as int % 128 > 15 {
        return -1, number;
      }
      number := number + lower as int % 128 * Weight(count);
      shift := shift + 7;
      count := count + 1;
      if lower < 128 {
        done := true;
        break;
      }
    }
    if !done {
      return -1, number;
    }
    DecodeTagLength(s, 0, 0);
    res := count;
  }

  /** `decode_int_internal` (`maxNibbles` 8) and `decode_int64_internal` (`maxNibbles` 16). */
  method DecodeIntInternal(buf: EvBuffer, offset: nat, maxNibbles: nat) returns (res: int, number: nat)
    requires buf.Valid() && offset <= |buf.Contents()|
    modifies buf`chains, buf`last, buf`lastWithDatap
    ensures buf.Valid() && buf.Contents() == old(buf.Contents())
    ensures res == -1 <==> DecodeInt(buf.Contents()[offset..], maxNibbles).None?
    ensures res != -1 ==> (number, res) == DecodeInt(buf.Contents()[offset..], maxNibbles).value
    ensures res != -1 ==> 1 <= res <= |buf.Contents()| - offset && number < Limit(maxNibbles)
  {
    hide EvBuffer.Valid;
    hide EvBuffer.Contents;
    Lengths(buf);
    number := 0;
    ghost var s := buf.Contents();
    var len := buf.totalLen - offset;
    if len <= 0 {
      return -1, 0;
    }
    var ok, data := Front(buf, offset + 1);
    assert data[offset] == s[offset..][0];
    var nibbles := data[offset] as int / 16 + 1;
    if nibbles > maxNibbles || nibbles / 2 + 1 > len {
      return -1, 0;
    }
    len := nibbles / 2 + 1;
    ok, data := Front(buf, offset + len);
    SliceNumber(s, data, offset, nibbles);
    NumberBelow(s[offset..], 1, nibbles);
    LimitMonotone(nibbles, maxNibbles);
    number := ReadNumber(data[offset..], nibbles);
    res := len;
  }

  lemma {:induction false} LimitMonotone(a: nat, c: nat)
    requires a <= c
    ensures Limit(a) <= Limit(c)
    decreases c
  {
    if a < c {
      LimitMonotone(a, c - 1);
      LimitPositive(c - 1);
    }
  }

  /** The loop of `DECODE_INT_INTERNAL`. */
  method ReadNumber(data: seq<byte>, nibbles0: nat) returns (number: nat)
    requires nibbles0 / 2 < |data|
    ensures number == Number(data, 1, nibbles0)
  {
    number := 0;
    var nibbles := nibbles0;
    while nibbles > 0
      invariant 0 <= nibbles <= nibbles0 && number == Number(data, nibbles + 1, nibbles0)
    {
      number := number * 16;
      if nibbles % 2 == 1 {
        number := number + data[nibbles / 2] as int % 16;
      } else {
        number := number + data[nibbles / 2] as int / 16;
      }
      nibbles := nibbles - 1;
    }
  }

  lemma {:induction false} NumberPrefix(data: seq<byte>, more: seq<byte>, i: nat, k: nat)
    requires k / 2 < |data|
    ensures Number(data + more, i, k) == Number(data, i, k)
    decreases k + 1 - i
  {
    if i <= k {
      NumberPrefix(data, more, i + 1, k);
      assert (data + more)[i / 2] == data[i / 2];
    }
  }

  lemma SliceNumber(s: seq<byte>, data: seq<byte>, offset: nat, nibbles: nat)
    requires offset + nibbles / 2 + 1 <= |s| && data == s[..offset + nibbles / 2 + 1]
    ensures |data| >= offset && nibbles / 2 < |data[offset..]|
    ensures Number(data[offset..], 1, nibbles) == Number(s[offset..], 1, nibbles)
  {
    var d, more := data[offset..], s[offset + nibbles / 2 + 1..];
    assert s[offset..] == d + more;
    NumberPrefix(d, more, 1, nibbles);
  }
}
