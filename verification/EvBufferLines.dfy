/** Finding ends of lines and reading lines. */
module EvBufferLines {
  import opened Chains
  import opened EvBuffers
  import opened EvBufferBasic
  import opened EvBufferSearch

  const CR: byte := 13
  const LF: byte := 10
  const NUL: byte := 0
  const CHUNK_SZ: nat := 128

  /** No byte of `s` from `from` up to `to` is in `stops`. */
  ghost predicate NoneOf(s: seq<byte>, stops: set<byte>, from: int, to: int) {
    forall k: nat | from <= k < to && k < |s| :: s[k] !in stops
  }

  /** `r` is the first position at or after `from` of a byte in `stops`. */
  ghost predicate FirstOf(s: seq<byte>, stops: set<byte>, from: int, r: int) {
    from <= r && 0 <= r < |s| && s[r] in stops && NoneOf(s, stops, from, r)
  }

  /** `find_eol_char`: scans in chunks for the first CR or LF; -1 if there is none. */
  method FindEolChar(s: seq<byte>) returns (r: int)
    ensures -1 <= r < |s|
    ensures if r < 0 then NoneOf(s, {CR, LF}, 0, |s|) else FirstOf(s, {CR, LF}, 0, r)
  {
    var at := 0;
    while at < |s|
      invariant 0 <= at
      invariant NoneOf(s, {CR, LF}, 0, at)
    {
      var chunk := if at + CHUNK_SZ < |s| then CHUNK_SZ else |s| - at;
      var cr, lf := Memchr(s[at..at + chunk], CR), Memchr(s[at..at + chunk], LF);
      Chunk(s, at, chunk, cr, lf);
      if cr >= 0 {
        if lf >= 0 && lf < cr {
          return at + lf;
        }
        return at + cr;
      } else if lf >= 0 {
        return at + lf;
      }
      at := at + CHUNK_SZ;
    }
    r := -1;
  }

  /** What two `memchr`s tell about a chunk. */
  lemma Chunk(s: seq<byte>, at: nat, chunk: nat, cr: int, lf: int)
    requires at + chunk <= |s|
    requires cr == Memchr(s[at..at + chunk], CR) && lf == Memchr(s[at..at + chunk], LF)
    ensures cr >= 0 ==> s[at + cr] == CR && cr < chunk
    ensures lf >= 0 ==> s[at + lf] == LF && lf < chunk
    ensures var stop := if cr < 0 && lf < 0 then chunk else if cr < 0 then lf else if lf < 0 || cr < lf then cr else lf;
      NoneOf(s, {CR, LF}, at, at + stop)
  {
    assert forall k | at <= k < at + chunk :: s[k] == s[at..at + chunk][k - at];
  }

  /** The bytes of a chain, as a stretch of the buffer. */
  lemma StretchOf(buf: EvBuffer, p: Ptr)
    requires buf.Structure() && PtrOk(buf, p) && p.chain >= 0
    ensures var d := buf.chains[p.chain].Data()[p.posInChain..];
      && p.pos + |d| <= |buf.Contents()|
      && forall k | 0 <= k < |d| :: buf.Contents()[p.pos + k] == d[k]
  {
    var c := buf.chains[p.chain];
    ChainEnd(buf, p.chain);
    forall k | 0 <= k < c.off - p.posInChain
      ensures buf.Contents()[p.pos + k] == c.Data()[p.posInChain..][k]
    {
      ByteAt(buf, p.chain, p.posInChain + k);
    }
  }

  /** A search of the rest of one chain, seen from the buffer. */
  lemma ScanChain(buf: EvBuffer, stops: set<byte>, p: Ptr, k: int)
    requires buf.Structure() && PtrOk(buf, p) && p.chain >= 0
    requires var d := buf.chains[p.chain].Data()[p.posInChain..];
      if k < 0 then NoneOf(d, stops, 0, |d|) else FirstOf(d, stops, 0, k)
    ensures if k < 0 then NoneOf(buf.Contents(), stops, p.pos, p.pos + buf.chains[p.chain].off - p.posInChain)
            else FirstOf(buf.Contents(), stops, p.pos, p.pos + k)
  {
    hide Flat;
    StretchOf(buf, p);
    var d := buf.chains[p.chain].Data()[p.posInChain..];
    var s := buf.Contents();
    var n := if k < 0 then |d| else k;
    forall j: nat | p.pos <= j < p.pos + n && j < |s|
      ensures s[j] !in stops
    {
      assert s[p.pos + (j - p.pos)] == d[j - p.pos];
    }
  }

  /** What a search for a byte in `stops` from `start` on may return. */
  ghost predicate Scanned(buf: EvBuffer, stops: set<byte>, start: Ptr, found: bool, it: Ptr)
    requires buf.Structure()
    reads buf
  {
    if found then
      && PtrOk(buf, it) && it.chain >= 0 && it.posInChain < buf.chains[it.chain].off
      && FirstOf(buf.Contents(), stops, start.pos, it.pos)
    else NoneOf(buf.Contents(), stops, start.pos, |buf.Contents()|)
  }

  /** `evbuffer_strchr`. */
  method StrChr(buf: EvBuffer, start: Ptr, chr: byte) returns (found: bool, it: Ptr)
    requires buf.Structure() && PtrOk(buf, start)
    ensures Scanned(buf, {chr}, start, found, it)
  {
    hide Flat;
    hide FindInChain;
    it := start;
    while it.chain >= 0
      invariant PtrOk(buf, it) && it.pos >= start.pos
      invariant NoneOf(buf.Contents(), {chr}, start.pos, it.pos)
      decreases if it.chain < 0 then 0 else |buf.chains| - it.chain
    {
      var k := FindInChain(buf.chains[it.chain], it.posInChain, chr);
      FoundInChain(buf.chains[it.chain], it.posInChain, chr);
      ScanChain(buf, {chr}, it, k);
      if k >= 0 {
        it := Ptr(it.pos + k, it.chain, it.posInChain + k);
        return true, it;
      }
      it := NextChain(buf, it);
    }
    found := false;
  }

  lemma FoundInChain(c: Chain, from: nat, chr: byte)
    requires c.Ok() && from <= c.off
    ensures var d, k := c.Data()[from..], FindInChain(c, from, chr);
      if k < 0 then NoneOf(d, {chr}, 0, |d|) else FirstOf(d, {chr}, 0, k)
  {
  }

  /** `evbuffer_find_eol_char`. */
  method FindEol(buf: EvBuffer, start: Ptr) returns (found: bool, it: Ptr)
    requires buf.Structure() && PtrOk(buf, start)
    ensures Scanned(buf, {CR, LF}, start, found, it)
  {
    hide Flat;
    hide Chain.Data;
    it := start;
    while it.chain >= 0
      invariant PtrOk(buf, it) && it.pos >= start.pos
      invariant NoneOf(buf.Contents(), {CR, LF}, start.pos, it.pos)
      decreases if it.chain < 0 then 0 else |buf.chains| - it.chain
    {
      var k := FindEolChar(buf.chains[it.chain].Data()[it.posInChain..]);
      ScanChain(buf, {CR, LF}, it, k);
      if k >= 0 {
        it := Ptr(it.pos + k, it.chain, it.posInChain + k);
        return true, it;
      }
      it := NextChain(buf, it);
    }
    found := false;
  }

  /** `count` bytes from `from` on are in `chars`, and no more. */
  ghost predicate Span(s: seq<byte>, chars: set<byte>, from: int, count: nat) {
    && 0 <= from && from + count <= |s|
    && (forall k | from <= k < from + count :: s[k] in chars)
    && (from + count < |s| ==> s[from + count] !in chars)
  }

  /** `evbuffer_strspn`: the length of the run of bytes in `chars`. */
  method StrSpn(buf: EvBuffer, start: Ptr, chars: set<byte>) returns (count: nat)
    requires buf.Structure() && PtrOk(buf, start)
    ensures Span(buf.Contents(), chars, start.pos, count)
  {
    hide Flat;
    count := 0;
    var it := start;
    PosInRange(buf, start);
    while it.chain >= 0
      invariant PtrOk(buf, it) && it.pos == start.pos + count <= |buf.Contents()|
      invariant forall k | start.pos <= k < it.pos :: buf.Contents()[k] in chars
      decreases if it.chain < 0 then 0 else |buf.chains| - it.chain,
                if it.chain < 0 then 0 else buf.chains[it.chain].off - it.posInChain
    {
      if it.posInChain < buf.chains[it.chain].off {
        ByteAt(buf, it.chain, it.posInChain);
        if buf.chains[it.chain].Data()[it.posInChain] !in chars {
          return;
        }
        count := count + 1;
        it := Ptr(it.pos + 1, it.chain, it.posInChain + 1);
      } else {
        it := NextChain(buf, it);
        PosInRange(buf, it);
      }
    }
  }

  datatype EolStyle = Any | Crlf | CrlfStrict | Lf | Nul

  /** The first end of line at or after `from` is the `len` bytes at `pos`. */
  ghost predicate IsEol(s: seq<byte>, style: EolStyle, from: nat, pos: int, len: nat) {
    match style
    case Any => FirstOf(s, {CR, LF}, from, pos) && Span(s, {CR, LF}, pos, len)
    case CrlfStrict => len == 2 && from <= pos && OccursAt(s, [CR, LF], pos) && Absent(s, [CR, LF], from, pos)
    case Lf => len == 1 && FirstOf(s, {LF}, from, pos)
    case Nul => len == 1 && FirstOf(s, {NUL}, from, pos)
    case Crlf =>
      var lf := pos + len - 1;
      && FirstOf(s, {LF}, from, lf)
      && len == if lf > from && s[lf - 1] == CR then 2 else 1
  }

  /** There is no end of line at or after `from`. */
  ghost predicate NoEol(s: seq<byte>, style: EolStyle, from: nat) {
    match style
    case Any => NoneOf(s, {CR, LF}, from, |s|)
    case CrlfStrict => Absent(s, [CR, LF], from, |s|)
    case Lf => NoneOf(s, {LF}, from, |s|)
    case Nul => NoneOf(s, {NUL}, from, |s|)
    case Crlf => NoneOf(s, {LF}, from, |s|)
  }

  /** Every style names at most one end of line, and it lies inside the bytes. */
  lemma EolUnique(s: seq<byte>, style: EolStyle, from: nat, p: int, m: nat, q: int, n: nat)
    requires IsEol(s, style, from, p, m) && IsEol(s, style, from, q, n)
    ensures p == q && m == n
    ensures from <= p && p + m <= |s| && m >= 1
    ensures !NoEol(s, style, from)
  {
    match style {
      case Any =>
        assert p == q;
      case CrlfStrict =>
        assert p == q;
      case Lf =>
      case Nul =>
      case Crlf =>
        assert p + m - 1 == q + n - 1;
    }
  }

  /** `evbuffer_ptr_subtract`. */
  method PtrSubtract(buf: EvBuffer, p: Ptr, howfar: nat) returns (result: int, q: Ptr)
    requires buf.Structure() && (p.pos >= 0 ==> PtrOk(buf, p))
    ensures result == if p.pos < 0 || howfar > p.pos then -1 else 0
    ensures result == 0 ==> PtrOk(buf, q) && q.pos == p.pos - howfar
    ensures result == 0 && q.chain >= 0 && howfar > 0 ==> q.posInChain < buf.chains[q.chain].off
    ensures result != 0 ==> q == p
  {
    hide Flat;
    if p.pos < 0 || howfar > p.pos {
      return -1, p;
    }
    if p.chain >= 0 && howfar <= p.posInChain {
      return 0, Ptr(p.pos - howfar, p.chain, p.posInChain - howfar);
    }
    PosInRange(buf, p);
    result, q := PtrSet(buf, p, p.pos - howfar, FromStart);
  }

  /** `evbuffer_getchr` at a position before the end. */
  method GetChr(buf: EvBuffer, p: Ptr) returns (c: byte)
    requires buf.Structure() && PtrOk(buf, p) && p.chain >= 0 && p.posInChain < buf.chains[p.chain].off
    ensures p.pos < |buf.Contents()| && c == buf.Contents()[p.pos]
  {
    ByteAt(buf, p.chain, p.posInChain);
    c := buf.chains[p.chain].Data()[p.posInChain];
  }

  /** The CRLF style: a LF, and the CR before it if the search did not start at the LF. */
  method BackUpOverCr(buf: EvBuffer, lf: Ptr) returns (back: bool, it: Ptr)
    requires buf.Structure() && PtrOk(buf, lf) && lf.pos > 0
    ensures PtrOk(buf, it) && lf.pos <= |buf.Contents()|
    ensures back <==> buf.Contents()[lf.pos - 1] == CR
    ensures it.pos == if back then lf.pos - 1 else lf.pos
  {
    hide Flat;
    PosInRange(buf, lf);
    var result, it2 := PtrSubtract(buf, lf, 1);
    var c := GetChr(buf, it2);
    if c == CR {
      return true, it2;
    }
    return false, lf;
  }

  /** What `evbuffer_search_eol` may return. */
  ghost predicate EolFound(buf: EvBuffer, style: EolStyle, start: Ptr, it: Ptr, eolLen: nat)
    requires buf.Structure()
    reads buf
  {
    if it.pos >= 0 then
      PtrOk(buf, it) && start.pos >= 0 && IsEol(buf.Contents(), style, start.pos, it.pos, eolLen)
    else
      it == NOT_FOUND && eolLen == 0 && start.pos >= 0 && NoEol(buf.Contents(), style, start.pos)
  }

  /** `evbuffer_search_eol`. */
  method SearchEol(buf: EvBuffer, start: Ptr, style: EolStyle) returns (it: Ptr, eolLen: nat)
    requires buf.Structure() && PtrOk(buf, start) && buf.totalLen + 2 <= SSIZE_MAX
    ensures EolFound(buf, style, start, it, eolLen)
  {
    hide Flat;
    hide OccursAt;
    PosInRange(buf, start);
    if start.chain == -1 {
      AtEnd(buf, start, style);
      return NOT_FOUND, 0;
    }
    it, eolLen := NOT_FOUND, 0;
    match style {
      case Any =>
        var found, p := FindEol(buf, start);
        if found {
          it := p;
          eolLen := StrSpn(buf, it, {CR, LF});
        }
      case CrlfStrict =>
        it := SearchRange(buf, [CR, LF], start, false, NOT_FOUND);
        if it.pos >= 0 {
          eolLen := 2;
        }
      case Crlf =>
        it, eolLen := SearchCrlf(buf, start);
      case Lf =>
        var found, p := StrChr(buf, start, LF);
        if found {
          it, eolLen := p, 1;
        }
      case Nul =>
        var found, p := StrChr(buf, start, NUL);
        if found {
          it, eolLen := p, 1;
        }
    }
  }

  method SearchCrlf(buf: EvBuffer, start: Ptr) returns (it: Ptr, eolLen: nat)
    requires buf.Structure() && PtrOk(buf, start)
    ensures EolFound(buf, Crlf, start, it, eolLen)
  {
    hide Flat;
    PosInRange(buf, start);
    var found, lf := StrChr(buf, start, LF);
    if !found {
      return NOT_FOUND, 0;
    }
    if lf.pos == start.pos {
      return lf, 1;
    }
    var back, p := BackUpOverCr(buf, lf);
    return p, if back then 2 else 1;
  }

  lemma AtEnd(buf: EvBuffer, start: Ptr, style: EolStyle)
    requires buf.Structure() && PtrOk(buf, start) && start.chain == -1
    ensures NoEol(buf.Contents(), style, start.pos)
  {
  }

  datatype Line = NoLine | Line(text: seq<byte>)

  /** `evbuffer_readln`: takes the first line and its terminator off the buffer. */
  method Readln(buf: EvBuffer, style: EolStyle) returns (line: Line, nRead: nat)
    requires buf.Valid() && buf.totalLen + 2 <= SSIZE_MAX
    modifies buf, buf.cb
    ensures buf.Valid()
    ensures buf.freezeStart == old(buf.freezeStart) && buf.freezeEnd == old(buf.freezeEnd)
    ensures line.NoLine? ==>
              nRead == 0 && unchanged(buf) && (buf.freezeStart || NoEol(buf.Contents(), style, 0))
    ensures line.Line? ==>
              exists eolLen: nat ::
                && nRead + eolLen <= old(|buf.Contents()|)
                && IsEol(old(buf.Contents()), style, 0, nRead, eolLen)
                && line.text == old(buf.Contents())[..nRead]
                && buf.Contents() == old(buf.Contents())[nRead + eolLen..]
    ensures line.Line? ==> !buf.freezeStart
    ensures buf.cb.registered == old(buf.cb.registered) && buf.cb.deferred == old(buf.cb.deferred)
    ensures buf.cb.base == old(buf.cb.base)
    ensures old(buf.cb.Settled()) && !(buf.cb.registered && buf.cb.deferred) ==> buf.cb.Settled()
  {
    hide Flat;
    hide IsEol;
    nRead := 0;
    if buf.freezeStart {
      return NoLine, 0;
    }
    var it, extraDrain := SearchEol(buf, StartPtr(buf), style);
    if it.pos < 0 {
      return NoLine, 0;
    }
    ghost var was := buf.Contents();
    EolUnique(was, style, 0, it.pos, extraDrain, it.pos, extraDrain);
    nRead := it.pos;
    var n, text := Remove(buf, nRead);
    line := Line(text);
    var r := Drain(buf, extraDrain);
    LineSplit(was, nRead, extraDrain, buf.Contents());
  }

  lemma LineSplit(s: seq<byte>, n: nat, m: nat, rest: seq<byte>)
    requires n + m <= |s|
    requires m >= |s[n..]| ==> rest == []
    requires m < |s[n..]| ==> rest == s[n..][m..]
    ensures rest == s[n + m..]
  {
  }

  /** The lines of `s` ended by LF, in order, and what follows the last LF. */
  function LfLines(s: seq<byte>): (r: (seq<seq<byte>>, seq<byte>))
    decreases |s|
  {
    var k := Memchr(s, LF);
    if k < 0 then ([], s)
    else
      var (lines, rest) := LfLines(s[k + 1..]);
      ([s[..k]] + lines, rest)
  }

  /** Every line followed by a LF. */
  function JoinLf(lines: seq<seq<byte>>): seq<byte> {
    if lines == [] then [] else lines[0] + [LF] + JoinLf(lines[1..])
  }

  /** Unfolding `LfLines` and `JoinLf` once. */
  lemma LfLinesStep(s: seq<byte>, k: nat)
    requires k == Memchr(s, LF)
    ensures LfLines(s) == ([s[..k]] + LfLines(s[k + 1..]).0, LfLines(s[k + 1..]).1)
  {
  }

  lemma JoinLfStep(line: seq<byte>, lines: seq<seq<byte>>)
    ensures JoinLf([line] + lines) == line + [LF] + JoinLf(lines)
  {
    assert ([line] + lines)[1..] == lines;
  }

  /** Reading lines loses nothing: rejoined with LF, with the rest appended, they are the input,
      and neither a line nor the rest holds a LF. */
  lemma {:induction false} LfLinesRejoin(s: seq<byte>)
    ensures JoinLf(LfLines(s).0) + LfLines(s).1 == s
    ensures LF !in LfLines(s).1 && forall i | 0 <= i < |LfLines(s).0| :: LF !in LfLines(s).0[i]
    decreases |s|
  {
    hide LfLines;
    hide JoinLf;
    var k := Memchr(s, LF);
    if k < 0 {
      LfLinesNone(s);
    } else {
      var tail := s[k + 1..];
      LfLinesStep(s, k);
      LfLinesRejoin(tail);
      JoinLfStep(s[..k], LfLines(tail).0);
      Assoc(s[..k] + [LF], JoinLf(LfLines(tail).0), LfLines(tail).1);
    }
  }

  lemma LfLinesNone(s: seq<byte>)
    requires Memchr(s, LF) < 0
    ensures LfLines(s) == ([], s) && JoinLf([]) == [] && LF !in s
  {
  }

  lemma FirstLf(line: seq<byte>, tail: seq<byte>)
    requires LF !in line
    ensures var s := line + [LF] + tail;
      Memchr(s, LF) == |line| && s[..|line|] == line && s[|line| + 1..] == tail
  {
    var s := line + [LF] + tail;
    assert s[|line|] == LF;
    assert forall j | 0 <= j < |line| :: s[j] == line[j];
  }

  /** Lines without LF, joined with LF and followed by a rest without LF, are read back. */
  lemma {:induction false} LfLinesOfJoin(lines: seq<seq<byte>>, rest: seq<byte>)
    requires LF !in rest && forall i | 0 <= i < |lines| :: LF !in lines[i]
    ensures LfLines(JoinLf(lines) + rest) == (lines, rest)
  {
    if lines == [] {
      assert JoinLf(lines) + rest == rest;
      assert Memchr(rest, LF) < 0;
    } else {
      hide LfLines;
      hide JoinLf;
      assert lines == [lines[0]] + lines[1..];
      JoinLfStep(lines[0], lines[1..]);
      Assoc(lines[0] + [LF], JoinLf(lines[1..]), rest);
      FirstLf(lines[0], JoinLf(lines[1..]) + rest);
      LfLinesStep(JoinLf(lines) + rest, |lines[0]|);
      LfLinesOfJoin(lines[1..], rest);
    }
  }

  /** One LF line read is the first of `LfLines`, and leaves the others. */
  lemma ReadlnIsLfLine(s: seq<byte>, n: nat, eolLen: nat)
    requires n + eolLen <= |s| && IsEol(s, Lf, 0, n, eolLen)
    ensures var (lines, rest) := LfLines(s);
      lines != [] && lines[0] == s[..n] && LfLines(s[n + eolLen..]) == (lines[1..], rest)
  {
    var k := Memchr(s, LF);
    assert k == n;
    assert s[n + eolLen..] == s[k + 1..];
    var (lines, rest) := LfLines(s[k + 1..]);
    assert ([s[..k]] + lines)[1..] == lines;
  }

  /** Reading lines until there are no more gives all lines, and leaves what follows the last one. */
  method ReadLines(buf: EvBuffer) returns (lines: seq<seq<byte>>)
    requires buf.Valid() && buf.totalLen + 2 <= SSIZE_MAX && !buf.freezeStart
    modifies buf, buf.cb
    ensures buf.Valid() && (lines, buf.Contents()) == LfLines(old(buf.Contents()))
  {
    hide EvBuffer.Valid;
    hide EvBuffer.Contents;
    hide IsEol;
    hide LfLines;
    lines := [];
    ghost var s := buf.Contents();
    var more := true;
    assert [] + LfLines(s).0 == LfLines(s).0;
    while more
      invariant buf.Valid() && buf.totalLen + 2 <= SSIZE_MAX && !buf.freezeStart
      invariant lines + LfLines(buf.Contents()).0 == LfLines(s).0 && LfLines(buf.Contents()).1 == LfLines(s).1
      invariant !more ==> LfLines(buf.Contents()) == ([], buf.Contents())
      decreases more, |buf.Contents()|
    {
      lines, more := ReadOneLine(buf, lines);
    }
    assert lines + [] == lines;
  }

  /** One round of reading lines. */
  method ReadOneLine(buf: EvBuffer, lines: seq<seq<byte>>) returns (lines': seq<seq<byte>>, more: bool)
    requires buf.Valid() && buf.totalLen + 2 <= SSIZE_MAX && !buf.freezeStart
    modifies buf, buf.cb
    ensures buf.Valid() && buf.totalLen + 2 <= SSIZE_MAX && !buf.freezeStart
    ensures var (was, rest) := LfLines(old(buf.Contents()));
      && lines' + LfLines(buf.Contents()).0 == lines + was && LfLines(buf.Contents()).1 == rest
    ensures if more then |buf.Contents()| < |old(buf.Contents())| else LfLines(buf.Contents()) == ([], buf.Contents())
  {
    hide Flat;
    hide LfLines;
    ghost var s := buf.Contents();
    var line, n := Readln(buf, Lf);
    if line.NoLine? {
      NoLf(s);
      return lines, false;
    }
    ghost var eolLen: nat :|
      n + eolLen <= |s| && IsEol(s, Lf, 0, n, eolLen) && line.text == s[..n] && buf.Contents() == s[n + eolLen..];
    ReadlnIsLfLine(s, n, eolLen);
    lines' := lines + [line.text];
    more := true;
    assert LfLines(s).0 == [s[..n]] + LfLines(s).0[1..];
  }

  lemma NoLf(s: seq<byte>)
    requires NoEol(s, Lf, 0)
    ensures LfLines(s) == ([], s)
  {
  }
}
