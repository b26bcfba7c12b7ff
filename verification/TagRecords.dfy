/** `event_tagging.c`: whole records, and streams of them. */
module TagRecords {
  import opened Basics
  import opened TagCodec
  import opened TagStream
  import opened TagRead
  import opened EvBuffers
  import opened EvBufferBasic
  import opened EvBufferMove
  import opened EvBufferPullup

  /** What is left of some bytes when a header has been read, or as much of it as could be. */
  function AfterHeader(s: seq<byte>): seq<byte> {
    match DecodeTag(s)
    case None => s
    case Some((tag, tagLen)) =>
      if tagLen > |s| then s
      else
        match DecodeInt(s[tagLen..], 8)
        case None => s[tagLen..]
        case Some((length, intLen)) => if intLen > |s| - tagLen then s[tagLen..] else s[tagLen..][intLen..]
  }

  /** A whole record stands at the front. */
  predicate Whole(s: seq<byte>) {
    match HeaderOf(s)
    case None => false
    case Some(h) => h.Size() + h.length <= |s|
  }

  /** A whole record stands at the front, and its length can be a signed integer. */
  predicate Readable(s: seq<byte>) {
    Whole(s) && HeaderOf(s).value.length < TWO_31
  }

  /** A whole record stands at the front, but its length is negative as a signed integer. */
  predicate Huge(s: seq<byte>) {
    Whole(s) && HeaderOf(s).value.length >= TWO_31
  }

  /** An unsigned number as a signed one. */
  function Signed(n: nat): int {
    if n < TWO_31 then n else n - TWO_32
  }

  lemma HeaderFits(s: seq<byte>)
    requires HeaderOf(s).Some?
    ensures var h := HeaderOf(s).value;
      && 1 <= h.tagLen && 1 <= h.intLen && h.Size() <= |s| && h.tag < TWO_32 && h.length < TWO_32
      && AfterHeader(s) == s[h.Size()..]
  {
    DecodeTagLength(s, 0, 0);
    var h := HeaderOf(s).value;
    var rest := s[h.tagLen..];
    NumberBelow(rest, 1, rest[0] as int / 16 + 1);
    LimitMonotone(rest[0] as int / 16 + 1, 8);
    Limits();
    assert s[h.tagLen..][h.intLen..] == s[h.Size()..];
  }

  /** `evtag_unmarshal_header`: the length of the payload, or -1. */
  method UnmarshalHeader(buf: EvBuffer) returns (res: int, tag: nat)
    requires buf.Valid() && !buf.freezeStart
    modifies buf, buf.cb
    ensures buf.Valid() && !buf.freezeStart && buf.freezeEnd == old(buf.freezeEnd)
    ensures buf.Contents() == AfterHeader(old(buf.Contents()))
    ensures var s := old(buf.Contents());
      && (HeaderOf(s).Some? ==> buf.Contents() == s[HeaderOf(s).value.Size()..])
      && (HeaderOf(s).None? && DecodeTag(s).Some? && DecodeTag(s).value.1 <= |s| ==> buf.Contents() == s[DecodeTag(s).value.1..])
      && (DecodeTag(s).None? ==> buf.Contents() == s)
    ensures HeaderOf(old(buf.Contents())).Some? ==> tag == HeaderOf(old(buf.Contents())).value.tag
    ensures Readable(old(buf.Contents())) || Huge(old(buf.Contents())) ==>
              res == Signed(HeaderOf(old(buf.Contents())).value.length)
    ensures !Readable(old(buf.Contents())) && !Huge(old(buf.Contents())) ==> res == -1
  {
    hide EvBuffer.Valid;
    hide EvBuffer.Contents;
    hide DecodeTag;
    hide DecodeInt;
    ghost var s := buf.Contents();
    if HeaderOf(s).Some? { HeaderFits(s); }
    res, tag := DecodeTagInternal(buf, true);
    if res == -1 {
      return;
    }
    assert buf.Contents()[0..] == buf.Contents();
    var intLen, length := DecodeIntInternal(buf, 0, 8);
    if intLen == -1 {
      return -1, tag;
    }
    Discard(buf, intLen);
    Lengths(buf);
    if buf.totalLen < length {
      return -1, tag;
    }
    res := if length < TWO_31 then length else length - TWO_32;
  }

  /** `evtag_peek_length`: how long the whole record is, in 32 bits. */
  method PeekLength(buf: EvBuffer) returns (res: int, length: nat)
    requires buf.Valid() && !buf.freezeStart
    modifies buf, buf.cb
    ensures buf.Valid() && buf.Contents() == old(buf.Contents()) && !buf.freezeStart
    ensures res == if HeaderOf(buf.Contents()).Some? then 0 else -1
    ensures res == 0 ==> var h := HeaderOf(buf.Contents()).value; length == (h.Size() + h.length) % TWO_32
  {
    hide EvBuffer.Valid;
    hide EvBuffer.Contents;
    hide DecodeTag;
    hide DecodeInt;
    var len, tag := DecodeTagInternal(buf, false);
    if len == -1 {
      return -1, 0;
    }
    res, length := DecodeIntInternal(buf, len, 8);
    if res == -1 {
      return -1, 0;
    }
    length := (length + res + len) % TWO_32;
    res := 0;
  }

  /** `evtag_payload_length`. */
  method PayloadLength(buf: EvBuffer) returns (res: int, length: nat)
    requires buf.Valid() && !buf.freezeStart
    modifies buf, buf.cb
    ensures buf.Valid() && buf.Contents() == old(buf.Contents()) && !buf.freezeStart
    ensures res == if HeaderOf(buf.Contents()).Some? then 0 else -1
    ensures res == 0 ==> length == HeaderOf(buf.Contents()).value.length
  {
    hide EvBuffer.Valid;
    hide EvBuffer.Contents;
    hide DecodeTag;
    hide DecodeInt;
    var len, tag := DecodeTagInternal(buf, false);
    if len == -1 {
      return -1, 0;
    }
    res, length := DecodeIntInternal(buf, len, 8);
    res := if res == -1 then -1 else 0;
  }

  /** The bytes of a buffer behind its first record. */
  function Behind(s: seq<byte>): seq<byte>
    requires Whole(s)
  {
    s[HeaderOf(s).value.Size() + HeaderOf(s).value.length..]
  }

  function PayloadOf(s: seq<byte>): seq<byte>
    requires Whole(s)
  {
    var h := HeaderOf(s).value;
    s[h.Size()..h.Size() + h.length]
  }

  /** What is left of some bytes when up to `n` of them have been drained. */
  function Drained(s: seq<byte>, n: nat): seq<byte> {
    if n >= |s| then [] else s[n..]
  }

  /** A whole record whose length is -1 as a signed integer. */
  predicate MinusOne(s: seq<byte>) {
    Whole(s) && HeaderOf(s).value.length == TWO_32 - 1
  }

  /** `evtag_consume`: takes away what `evtag_peek_length` says.  The length is an `int` in between: if it is
      negative, it is a very large number of bytes to drain, unless it is -1, which means failure. */
  method Consume(buf: EvBuffer) returns (res: int)
    requires buf.Valid() && !buf.freezeStart
    modifies buf, buf.cb
    ensures buf.Valid() && !buf.freezeStart
    ensures res == if Whole(old(buf.Contents())) && !MinusOne(old(buf.Contents())) then 0 else -1
    ensures Readable(old(buf.Contents())) ==> buf.Contents() == Behind(old(buf.Contents()))
    ensures res == 0 && Huge(old(buf.Contents())) ==>
              buf.Contents() == Drained(AfterHeader(old(buf.Contents())),
                                        SIZE_MAX + 1 + Signed(HeaderOf(old(buf.Contents())).value.length))
    ensures res == 0 && |old(buf.Contents())| <= SSIZE_MAX ==>
              (buf.Contents() == Behind(old(buf.Contents())) <==>
                 Readable(old(buf.Contents())) || Behind(old(buf.Contents())) == [])
    ensures res == -1 ==> buf.Contents() == AfterHeader(old(buf.Contents()))
  {
    hide EvBuffer.Valid;
    hide EvBuffer.Contents;
    hide HeaderOf;
    hide AfterHeader;
    ghost var s := buf.Contents();
    if HeaderOf(s).Some? { HeaderFits(s); }
    var len, tag := UnmarshalHeader(buf);
    if len == -1 {
      return -1;
    }
    if len < 0 {
      DiscardAny(buf, SIZE_MAX + 1 + len);
    } else {
      Discard(buf, len);
    }
    res := 0;
  }

  /** A record with a payload of 2^31 bytes and one byte behind it: consuming the record takes the byte along. */
  method ConsumeExample() returns (buf: EvBuffer, res: int, ghost before: seq<byte>)
    ensures before == RecordBytes(1, seq(TWO_31, _ => 0)) + [7] && Huge(before) && Behind(before) == [7]
    ensures buf.Valid() && res == 0 && buf.Contents() == []
  {
    hide EvBuffer.Valid;
    hide EvBuffer.Contents;
    hide HeaderOf;
    hide AfterHeader;
    hide RecordBytes;
    buf := new EvBuffer();
    var payload := seq(TWO_31, _ => 0);
    Marshal(buf, 1, payload);
    RecordLength(1, payload);
    assert [] + RecordBytes(1, payload) == RecordBytes(1, payload);
    var put := Put(buf, [7]);
    before := buf.Contents();
    HeaderRoundTrip(1, payload, [7]);
    HeaderFits(before);
    res := Consume(buf);
  }

  /** `evtag_unmarshal`: the payload of the first record goes to the end of `dst`, if there is room for it. */
  method Unmarshal(src: EvBuffer, dst: EvBuffer) returns (res: int, tag: nat)
    requires src.Valid() && dst.Valid() && Apart(src, dst) && src != dst && !src.freezeStart
    modifies src, src.cb, dst, dst.cb
    ensures src.Valid() && dst.Valid() && !src.freezeStart
    ensures dst.freezeEnd == old(dst.freezeEnd) && dst.freezeStart == old(dst.freezeStart)
    ensures Readable(old(src.Contents())) && old(Room(dst, |PayloadOf(src.Contents())|)) ==>
      && res == |PayloadOf(old(src.Contents()))| && tag == HeaderOf(old(src.Contents())).value.tag
      && dst.Contents() == old(dst.Contents()) + PayloadOf(old(src.Contents()))
      && src.Contents() == Behind(old(src.Contents()))
    ensures !(Readable(old(src.Contents())) && old(Room(dst, |PayloadOf(src.Contents())|))) ==>
      res == -1 && dst.Contents() == old(dst.Contents()) && src.Contents() == AfterHeader(old(src.Contents()))
  {
    hide EvBuffer.Valid;
    hide EvBuffer.Contents;
    hide HeaderOf;
    hide AfterHeader;
    ghost var s := src.Contents();
    if HeaderOf(s).Some? { HeaderFits(s); }
    res, tag := UnmarshalHeader(src);
    if res == -1 {
      return;
    }
    if res < 0 {
      // All is pulled up, and then so many bytes are to be added that no chain can hold them.
      var all := Pullup(src, res);
      return -1, tag;
    }
    var ok, data := Front(src, res);
    PayloadIs(s, res, data, ok);
    var added := Put(dst, data);
    if added == -1 {
      return -1, tag;
    }
    Discard(src, res);
  }

  /** The bytes behind a header are the payload. */
  lemma PayloadIs(s: seq<byte>, len: nat, data: seq<byte>, ok: bool)
    requires Readable(s) && len == HeaderOf(s).value.length && (ok <==> 0 < len <= |AfterHeader(s)|)
    requires data == if ok then AfterHeader(s)[..len] else []
    ensures data == PayloadOf(s) && len <= |AfterHeader(s)| && AfterHeader(s)[len..] == Behind(s) && |data| <= |s|
  {
    hide HeaderOf;
    hide AfterHeader;
    HeaderFits(s);
  }

  // ---- streams

  datatype Record = Record(tag: nat, payload: seq<byte>)

  ghost predicate RecordsOk(rs: seq<Record>) {
    forall i | 0 <= i < |rs| :: rs[i].tag < TWO_32 && |rs[i].payload| < TWO_31
  }

  function Stream(rs: seq<Record>): seq<byte>
    requires forall i | 0 <= i < |rs| :: |rs[i].payload| < TWO_31
  {
    if rs == [] then [] else RecordBytes(rs[0].tag, rs[0].payload) + Stream(rs[1..])
  }

  /** Records written one after the other. */
  method MarshalAll(buf: EvBuffer, rs: seq<Record>)
    requires buf.Valid() && RecordsOk(rs) && !buf.freezeEnd && |buf.Contents()| + Bound(rs) <= SIZE_MAX
    modifies buf, buf.cb
    ensures buf.Valid() && buf.Contents() == old(buf.Contents()) + Stream(rs)
    ensures buf.freezeStart == old(buf.freezeStart)
  {
    hide EvBuffer.Valid;
    hide EvBuffer.Contents;
    hide RecordBytes;
    var i := 0;
    ghost var s := buf.Contents();
    assert rs[0..] == rs;
    while i < |rs|
      invariant 0 <= i <= |rs| && buf.Valid() && !buf.freezeEnd && buf.freezeStart == old(buf.freezeStart)
      invariant buf.Contents() + Stream(rs[i..]) == s + Stream(rs)
      invariant |buf.Contents()| + Bound(rs[i..]) <= SIZE_MAX
    {
      RecordLength(rs[i].tag, rs[i].payload);
      ghost var before := buf.Contents();
      Marshal(buf, rs[i].tag, rs[i].payload);
      assert rs[i..][1..] == rs[i + 1..];
      assert before + (RecordBytes(rs[i].tag, rs[i].payload) + Stream(rs[i + 1..])) ==
             buf.Contents() + Stream(rs[i + 1..]);
      i := i + 1;
    }
    assert buf.Contents() + Stream(rs[i..]) == buf.Contents();
  }

  function Bound(rs: seq<Record>): nat {
    if rs == [] then 0 else 10 + |rs[0].payload| + Bound(rs[1..])
  }

  lemma RecordLength(tag: nat, payload: seq<byte>)
    requires tag < TWO_32 && |payload| < TWO_32
    ensures |RecordBytes(tag, payload)| <= 10 + |payload|
  {
    HeaderLength(tag, |payload|);
  }

  /** The first record of a stream. */
  lemma StreamHead(rs: seq<Record>, rest: seq<byte>)
    requires RecordsOk(rs) && rs != []
    ensures var s := Stream(rs) + rest;
      && Readable(s) && HeaderOf(s).value.tag == rs[0].tag && PayloadOf(s) == rs[0].payload
      && Behind(s) == Stream(rs[1..]) + rest
  {
    hide HeaderOf;
    hide RecordBytes;
    var r := rs[0];
    assert Stream(rs) + rest == RecordBytes(r.tag, r.payload) + (Stream(rs[1..]) + rest);
    HeaderRoundTrip(r.tag, r.payload, Stream(rs[1..]) + rest);
  }

  /** Any list of records with payloads under 2^31 bytes is read back in order, whatever follows, and
      exactly what follows is left. */
  method UnmarshalAll(src: EvBuffer, n: nat, ghost rs: seq<Record>, ghost rest: seq<byte>)
    returns (tags: seq<nat>, payloads: seq<seq<byte>>)
    requires src.Valid() && !src.freezeStart && RecordsOk(rs) && |rs| == n && |src.Contents()| <= SIZE_MAX
    requires src.Contents() == Stream(rs) + rest
    modifies src, src.cb
    ensures src.Valid() && src.Contents() == rest
    ensures |tags| == |payloads| == n
    ensures forall i | 0 <= i < n :: tags[i] == rs[i].tag && payloads[i] == rs[i].payload
  {
    hide EvBuffer.Valid;
    hide EvBuffer.Contents;
    hide HeaderOf;
    hide Stream;
    tags, payloads := [], [];
    var i := 0;
    assert rs[0..] == rs;
    while i < n
      invariant 0 <= i <= n == |rs| && src.Valid() && !src.freezeStart
      invariant src.Contents() == Stream(rs[i..]) + rest && |src.Contents()| <= SIZE_MAX
      invariant |tags| == |payloads| == i
      invariant forall j | 0 <= j < i :: tags[j] == rs[j].tag && payloads[j] == rs[j].payload
    {
      StreamHead(rs[i..], rest);
      assert rs[i..][1..] == rs[i + 1..];
      var tag, payload := UnmarshalOne(src);
      tags, payloads := tags + [tag], payloads + [payload];
      i := i + 1;
    }
    NoStream(rs[i..], rest);
  }

  lemma NoStream(rs: seq<Record>, rest: seq<byte>)
    requires rs == []
    ensures Stream(rs) + rest == rest
  {
  }

  /** `evtag_unmarshal` into an empty buffer. */
  method UnmarshalOne(src: EvBuffer) returns (tag: nat, payload: seq<byte>)
    requires src.Valid() && !src.freezeStart && Readable(src.Contents()) && |src.Contents()| <= SIZE_MAX
    modifies src, src.cb
    ensures src.Valid() && !src.freezeStart && src.Contents() == Behind(old(src.Contents()))
    ensures |src.Contents()| <= |old(src.Contents())|
    ensures tag == HeaderOf(old(src.Contents())).value.tag && payload == PayloadOf(old(src.Contents()))
  {
    hide HeaderOf;
    hide AfterHeader;
    hide EvBuffer.Valid;
    hide EvBuffer.Contents;
    ghost var s := src.Contents();
    HeaderFits(s);
    var dst := new EvBuffer();
    var res;
    res, tag := Unmarshal(src, dst);
    assert dst.Contents() == PayloadOf(s);
    Lengths(dst);
    var n;
    n, payload := Remove(dst, dst.totalLen);
  }

  // ---- integers in records

  /** What `evtag_unmarshal_int` takes: a record with this tag whose payload starts with an integer. */
  predicate HoldsInt(s: seq<byte>, needTag: nat, maxNibbles: nat) {
    Whole(s) && HeaderOf(s).value.tag == needTag &&
    match DecodeInt(s[HeaderOf(s).value.Size()..], maxNibbles)
    case None => false
    case Some((v, l)) => l <= HeaderOf(s).value.length
  }

  /** What is left when an integer with this tag has been read or looked for: what follows the record, if it has the
      tag and is whole, whatever its payload is. */
  function AfterInt(s: seq<byte>, needTag: nat): seq<byte> {
    match HeaderOf(s)
    case None => AfterHeader(s)
    case Some(h) =>
      if h.tagLen > |s| then s
      else if h.tag != needTag then s[h.tagLen..]
      else if !Whole(s) then AfterHeader(s)
      else Behind(s)
  }

  /** What it means when no tag can be read, it is another one, no length can be read, or not all of the payload is
      there. */
  lemma NoIntRecord(s: seq<byte>, needTag: nat, maxNibbles: nat)
    ensures DecodeTag(s).None? ==> !HoldsInt(s, needTag, maxNibbles) && AfterInt(s, needTag) == s
    ensures DecodeTag(s).Some? && DecodeTag(s).value.1 <= |s| ==>
      var (tag, tagLen) := DecodeTag(s).value;
      var d := DecodeInt(s[tagLen..], 8);
      && (tag != needTag || d.None? ==> !HoldsInt(s, needTag, maxNibbles) && AfterInt(s, needTag) == s[tagLen..])
      && (tag == needTag && d.Some? && d.value.1 <= |s| - tagLen && |s| - tagLen - d.value.1 < d.value.0 ==>
            !HoldsInt(s, needTag, maxNibbles) && AfterInt(s, needTag) == s[tagLen..][d.value.1..])
  {
  }

  /** What it means when a whole record with this tag is there. */
  lemma IntRecord(s: seq<byte>, needTag: nat, maxNibbles: nat, tagLen: nat, len: nat, intLen: nat)
    requires DecodeTag(s) == Some((needTag, tagLen)) && tagLen <= |s|
    requires DecodeInt(s[tagLen..], 8) == Some((len, intLen)) && intLen <= |s| - tagLen && len <= |s| - tagLen - intLen
    ensures HeaderOf(s).Some? && Whole(s)
    ensures var payload := s[tagLen..][intLen..]; var d := DecodeInt(payload, maxNibbles);
      && payload == s[HeaderOf(s).value.Size()..] && AfterInt(s, needTag) == payload[len..] == Behind(s)
      && (HoldsInt(s, needTag, maxNibbles) <==> d.Some? && d.value.1 <= len)
  {
    assert s[tagLen..][intLen..] == s[tagLen + intLen..];
  }

  /** `evtag_unmarshal_int` (`maxNibbles` 8) and `evtag_unmarshal_int64` (`maxNibbles` 16). */
  method UnmarshalInt(buf: EvBuffer, needTag: nat, maxNibbles: nat) returns (res: int, integer: nat)
    requires buf.Valid() && !buf.freezeStart
    modifies buf, buf.cb
    ensures buf.Valid() && !buf.freezeStart
    ensures HoldsInt(old(buf.Contents()), needTag, maxNibbles) ==>
      && (integer, res) == DecodeInt(old(buf.Contents())[HeaderOf(old(buf.Contents())).value.Size()..], maxNibbles).value
      && buf.Contents() == Behind(old(buf.Contents()))
    ensures !HoldsInt(old(buf.Contents()), needTag, maxNibbles) ==> res == -1
    ensures buf.Contents() == AfterInt(old(buf.Contents()), needTag)
  {
    hide EvBuffer.Valid;
    hide EvBuffer.Contents;
    hide DecodeTag;
    hide DecodeInt;
    ghost var s := buf.Contents();
    NoIntRecord(s, needTag, maxNibbles);
    if HoldsInt(s, needTag, maxNibbles) { HoldsWhole(s, needTag, maxNibbles); }
    hide HoldsInt;
    hide AfterInt;
    hide HeaderOf;
    hide Behind;
    hide Whole;
    integer := 0;
    var tag, len;
    res, tag := DecodeTagInternal(buf, true);
    if res == -1 {
      return;
    }
    ghost var tagLen: nat := res;
    if needTag != tag {
      return -1, 0;
    }
    assert buf.Contents()[0..] == buf.Contents();
    var intLen;
    intLen, len := DecodeIntInternal(buf, 0, 8);
    if intLen == -1 {
      return -1, 0;
    }
    Discard(buf, intLen);
    Lengths(buf);
    if buf.totalLen < len {
      return -1, 0;
    }
    IntRecord(s, needTag, maxNibbles, tagLen, len, intLen);
    res, integer := TakeInt(buf, len, maxNibbles);
  }

  lemma HoldsWhole(s: seq<byte>, needTag: nat, maxNibbles: nat)
    requires HoldsInt(s, needTag, maxNibbles)
    ensures Whole(s) && HeaderOf(s).Some? && HeaderOf(s).value.Size() <= |s|
  {
  }

  /** The last part of it: the integer at the front of a payload of this length, which is taken away. */
  method TakeInt(buf: EvBuffer, len: nat, maxNibbles: nat) returns (res: int, integer: nat)
    requires buf.Valid() && !buf.freezeStart && len <= |buf.Contents()|
    modifies buf, buf.cb
    ensures buf.Valid() && !buf.freezeStart && buf.Contents() == old(buf.Contents())[len..]
    ensures var d := DecodeInt(old(buf.Contents()), maxNibbles);
      if d.Some? && d.value.1 <= len then (integer, res) == d.value else res == -1
  {
    hide EvBuffer.Valid;
    hide EvBuffer.Contents;
    hide DecodeInt;
    assert buf.Contents()[0..] == buf.Contents();
    res, integer := DecodeIntInternal(buf, 0, maxNibbles);
    Discard(buf, len);
    if res < 0 || res > len {
      return -1, integer;
    }
  }

  /** An integer of 32 or 64 bits that was marshalled is unmarshalled, whatever follows, and also when its payload goes on
      behind it. */
  lemma IntRecordRoundTrip(tag: nat, integer: nat, extra: seq<byte>, rest: seq<byte>, maxNibbles: nat)
    requires tag < TWO_32 && (maxNibbles == 8 || maxNibbles == 16) && Nibbles(integer) <= maxNibbles
    requires |extra| < TWO_31
    ensures |IntBytes(integer)| <= 9
    ensures var s := RecordBytes(tag, IntBytes(integer) + extra) + rest;
      && HoldsInt(s, tag, maxNibbles) && Behind(s) == rest
      && DecodeInt(s[HeaderOf(s).value.Size()..], maxNibbles) == Some((integer, |IntBytes(integer)|))
  {
    hide HeaderOf;
    hide DecodeInt;
    hide RecordBytes;
    assert |IntBytes(integer)| <= 9;
    var payload := IntBytes(integer) + extra;
    var s := RecordBytes(tag, payload) + rest;
    HeaderRoundTrip(tag, payload, rest);
    var n := HeaderOf(s).value.Size();
    IntRoundTrip(integer, extra + rest, maxNibbles);
    assert s[n..] == payload + rest;
    assert payload + rest == IntBytes(integer) + (extra + rest);
  }

  /** A payload that is shorter than its integer says is not taken for one. */
  lemma IntCutShort(tag: nat, payload: seq<byte>, rest: seq<byte>, maxNibbles: nat)
    requires tag < TWO_32 && |payload| < TWO_31
    requires payload != [] ==> (payload[0] as int / 16 + 1) / 2 + 1 > |payload|
    ensures !HoldsInt(RecordBytes(tag, payload) + rest, tag, maxNibbles)
  {
    hide HeaderOf;
    hide RecordBytes;
    var s := RecordBytes(tag, payload) + rest;
    HeaderRoundTrip(tag, payload, rest);
    var n := HeaderOf(s).value.Size();
    assert s[n..] == payload + rest;
    if payload != [] {
      assert s[n..][0] == payload[0];
    }
  }

  /** `evtag_unmarshal_fixed`: only a payload of exactly this length. */
  method UnmarshalFixed(src: EvBuffer, needTag: nat, len: nat) returns (res: int, data: seq<byte>)
    requires src.Valid() && !src.freezeStart
    modifies src, src.cb
    ensures src.Valid() && !src.freezeStart
    ensures var s := old(src.Contents());
      res == if Readable(s) && HeaderOf(s).value.tag == needTag && HeaderOf(s).value.length == len then 0 else -1
    ensures res == 0 ==> data == PayloadOf(old(src.Contents())) && src.Contents() == Behind(old(src.Contents()))
    ensures res == -1 ==> src.Contents() == AfterHeader(old(src.Contents()))
  {
    hide EvBuffer.Valid;
    hide EvBuffer.Contents;
    hide HeaderOf;
    hide AfterHeader;
    data := [];
    ghost var s := src.Contents();
    if HeaderOf(s).Some? { HeaderFits(s); }
    var tagLen, tag := UnmarshalHeader(src);
    if tagLen < 0 || tag != needTag {
      return -1, data;
    }
    if tagLen != len {
      return -1, data;
    }
    var n;
    Lengths(src);
    n, data := Remove(src, len);
    res := 0;
  }
}
