/** `event_tagging.c`: tagged records in a buffer. */
module TagStream {
  import opened Basics
  import Chains
  import opened TagCodec
  import opened EvBuffers
  import opened EvBufferBasic
  import opened EvBufferMove
  import opened EvBufferPullup

  // ---- records

  /** One record: tag, length, payload. */
  function RecordBytes(tag: nat, payload: seq<byte>): seq<byte>
    requires |payload| < TWO_32
  {
    LengthOk(|payload|);
    TagBytes(tag) + IntBytes(|payload|) + payload
  }

  lemma LengthOk(n: nat)
    requires n < TWO_32
    ensures Nibbles(n) <= 8 && n < Limit(8)
  {
    Limits();
    NibblesBelow(n, 8);
  }

  /** What stands in front of a payload: its tag, its length, and how long these two are. */
  datatype Header = Header(tag: nat, tagLen: nat, length: nat, intLen: nat)
  {
    function Size(): nat {
      tagLen + intLen
    }
  }

  function HeaderOf(s: seq<byte>): Option<Header> {
    match DecodeTag(s)
    case None => None
    case Some((tag, tagLen)) =>
      if tagLen > |s| then None
      else
        match DecodeInt(s[tagLen..], 8)
        case None => None
        case Some((length, intLen)) => Some(Header(tag, tagLen, length, intLen))
  }

  /** The header of a record is what was written, whatever follows. */
  lemma HeaderRoundTrip(tag: nat, payload: seq<byte>, rest: seq<byte>)
    requires tag < TWO_32 && |payload| < TWO_32
    ensures var s := RecordBytes(tag, payload) + rest;
      && HeaderOf(s).Some? && HeaderOf(s).value.tag == tag && HeaderOf(s).value.length == |payload|
      && var n := HeaderOf(s).value.Size();
         n + |payload| == |RecordBytes(tag, payload)| && s[n..n + |payload|] == payload && s[n + |payload|..] == rest
  {
    LengthOk(|payload|);
    var t, i := TagBytes(tag), IntBytes(|payload|);
    var s := RecordBytes(tag, payload) + rest;
    assert s == t + (i + (payload + rest));
    TagRoundTrip(tag, i + (payload + rest));
    assert s[|t|..] == i + (payload + rest);
    IntRoundTrip(|payload|, payload + rest, 8);
    assert s[|t| + |i|..] == payload + rest;
  }

  // ---- writing

  ghost predicate Room(buf: EvBuffer, n: nat)
    reads buf
  {
    !buf.freezeEnd && |buf.Contents()| + n <= SIZE_MAX
  }

  /** Some bytes and `d` behind them, unless the end is frozen or the length would overflow. */
  function Appended(s: seq<byte>, frozen: bool, d: seq<byte>): seq<byte> {
    if frozen || |s| + |d| > SIZE_MAX then s else s + d
  }

  /** The same with a tag and a length. */
  function WithHeader(s: seq<byte>, frozen: bool, tag: nat, length: nat): seq<byte>
    requires length < TWO_32
  {
    LengthOk(length);
    Appended(Appended(s, frozen, TagBytes(tag)), frozen, IntBytes(length))
  }

  /** `evbuffer_add`; the functions that write do not look at its result. */
  method Put(buf: EvBuffer, data: seq<byte>) returns (res: int)
    requires buf.Valid()
    modifies buf, buf.cb
    ensures res == if old(Room(buf, |data|)) then 0 else -1
    ensures buf.Valid() && buf.Contents() == Appended(old(buf.Contents()), buf.freezeEnd, data)
    ensures buf.freezeStart == old(buf.freezeStart) && buf.freezeEnd == old(buf.freezeEnd)
  {
    hide Chains.Flat;
    ghost var total := buf.totalLen;
    assert total == |buf.Contents()|;
    res := Add(buf, data);
  }

  /** `evtag_encode_tag` and `evtag_encode_int`: a tag and a length. */
  method PutHeader(buf: EvBuffer, tag: nat, length: nat)
    requires buf.Valid() && tag < TWO_32 && length < TWO_32
    modifies buf, buf.cb
    ensures buf.Valid() && buf.Contents() == WithHeader(old(buf.Contents()), buf.freezeEnd, tag, length)
    ensures buf.freezeStart == old(buf.freezeStart) && buf.freezeEnd == old(buf.freezeEnd)
  {
    hide Appended;
    hide EvBuffer.Contents;
    LengthOk(length);
    TagLength(tag);
    var t := EncodeTag(tag);
    var _ := Put(buf, t);
    var i := EncodeInt(length, 4);
    var _ := Put(buf, i);
  }

  lemma TagLength(tag: nat)
    requires tag < TWO_32
    ensures |TagBytes(tag)| <= 5
  {
    TagRoundTrip(tag, []);
    assert TagBytes(tag) + [] == TagBytes(tag);
    DecodeTagLength(TagBytes(tag), 0, 0);
  }

  /** `evtag_marshal`: a record, if there is room for it. */
  method Marshal(buf: EvBuffer, tag: nat, data: seq<byte>)
    requires buf.Valid() && tag < TWO_32 && |data| < TWO_32
    modifies buf, buf.cb
    ensures buf.Valid()
    ensures buf.Contents() == Appended(WithHeader(old(buf.Contents()), buf.freezeEnd, tag, |data|), buf.freezeEnd, data)
    ensures old(Room(buf, 10 + |data|)) ==> buf.Contents() == old(buf.Contents()) + RecordBytes(tag, data)
    ensures buf.freezeStart == old(buf.freezeStart) && buf.freezeEnd == old(buf.freezeEnd)
  {
    hide EvBuffer.Valid;
    hide EvBuffer.Contents;
    HeaderLength(tag, |data|);
    PutHeader(buf, tag, |data|);
    var _ := Put(buf, data);
    Assoc4(old(buf.Contents()), TagBytes(tag), IntBytes(|data|), data);
  }

  lemma HeaderLength(tag: nat, length: nat)
    requires tag < TWO_32 && length < TWO_32
    ensures Nibbles(length) <= 8 && |TagBytes(tag)| + |IntBytes(length)| <= 10
  {
    TagLength(tag);
    LengthOk(length);
  }

  lemma Assoc4(a: seq<byte>, t: seq<byte>, i: seq<byte>, d: seq<byte>)
    ensures a + t + i + d == a + (t + i + d)
  {
  }

  /** `evtag_marshal_buffer`: the payload moves out of another buffer, and its length is cut to 32 bits. */
  method MarshalBuffer(buf: EvBuffer, tag: nat, data: EvBuffer)
    requires buf.Valid() && data.Valid() && Apart(buf, data) && buf != data && tag < TWO_32
    modifies buf, buf.cb, data, data.cb
    ensures buf.Valid() && data.Valid()
    ensures var was, payload := old(buf.Contents()), old(data.Contents());
      var s := WithHeader(was, buf.freezeEnd, tag, |payload| % TWO_32);
      if buf.freezeEnd || old(data.freezeStart) then buf.Contents() == s && data.Contents() == payload
      else buf.Contents() == s + payload && data.Contents() == []
    ensures old(Room(buf, 10) && |data.Contents()| < TWO_32 && !data.freezeStart) ==>
              buf.Contents() == old(buf.Contents()) + RecordBytes(tag, old(data.Contents()))
  {
    hide EvBuffer.Valid;
    hide Chains.Flat;
    LengthIs(data);
    ghost var payload := data.Contents();
    var length := data.totalLen % TWO_32;
    HeaderLength(tag, length);
    PutHeader(buf, tag, length);
    var res := AddBuffer(buf, data);
    Assoc4(old(buf.Contents()), TagBytes(tag), IntBytes(length), payload);
  }

  lemma LengthIs(buf: EvBuffer)
    requires buf.Valid()
    ensures |buf.Contents()| == buf.totalLen
  {
  }

  /** `evtag_marshal_int` (`size` 4) and `evtag_marshal_int64` (`size` 8). */
  method MarshalInt(buf: EvBuffer, tag: nat, integer: nat, size: nat)
    requires buf.Valid() && tag < TWO_32
    requires size == 4 || size == 8
    requires integer < Limit(2 * size)
    modifies buf, buf.cb
    ensures buf.Valid() && Nibbles(integer) <= 2 * size && |IntBytes(integer)| <= 9
    ensures buf.Contents() == Appended(WithHeader(old(buf.Contents()), buf.freezeEnd, tag, |IntBytes(integer)|),
                                       buf.freezeEnd, IntBytes(integer))
    ensures old(Room(buf, 20)) ==> buf.Contents() == old(buf.Contents()) + RecordBytes(tag, IntBytes(integer))
  {
    hide EvBuffer.Valid;
    hide EvBuffer.Contents;
    NibblesBelow(integer, 2 * size);
    var data := EncodeInt(integer, size);
    HeaderLength(tag, |data|);
    PutHeader(buf, tag, |data|);
    var _ := Put(buf, data);
    Assoc4(old(buf.Contents()), TagBytes(tag), IntBytes(|data|), data);
  }
}
