/** `evdns.c`: domain names in packets, with the compression of section 4.1.4 of RFC 1035. */
module DnsNames {
  import Chains

  type byte = Chains.byte
  type Name = seq<byte>

  const DOT: byte := 46
  const MAX_LABELS: nat := 128
  const MAX_LABEL: nat := 63
  const MAX_NAME: nat := 255
  /** Pointers have fourteen bits. */
  const POINTERS: nat := 0x4000

  // ---- names and labels

  /** `strchr(name, '.')`: the place of the first dot, or the length if there is none. */
  function FirstDot(name: Name): (k: nat)
    ensures k <= |name| && (forall i | 0 <= i < k :: name[i] != DOT) && (k < |name| ==> name[k] == DOT)
  {
    if name == [] || name[0] == DOT then 0 else 1 + FirstDot(name[1..])
  }

  /** The labels of a name; a dot at the end has no label behind it. */
  function Labels(name: Name): seq<Name> {
    if name == [] then []
    else
      var k := FirstDot(name);
      if k == |name| then [name] else [name[..k]] + Labels(name[k + 1..])
  }

  /** A label behind what has been written already, with a dot between them. */
  function Glue(out: Name, l: Name): Name {
    if out == [] then l else out + [DOT] + l
  }

  function Join(out: Name, labels: seq<Name>): Name
    decreases |labels|
  {
    if labels == [] then out else Join(Glue(out, labels[0]), labels[1..])
  }

  predicate NoneEmpty(labels: seq<Name>) {
    labels == [] || (labels[0] != [] && NoneEmpty(labels[1..]))
  }

  /** No label is empty, and no byte is zero. */
  ghost predicate WellFormed(name: Name) {
    (forall i | 0 <= i < |name| :: name[i] != 0) && NoneEmpty(Labels(name))
  }

  lemma Glued(out: Name, a: Name, c: Name)
    requires a != []
    ensures Glue(Glue(out, a), c) == Glue(out, a + [DOT] + c)
  {
    assert out + [DOT] + a + [DOT] + c == out + [DOT] + (a + [DOT] + c);
  }

  /** A name without a dot at its end is its labels with dots between them. */
  lemma {:induction false} JoinLabels(name: Name, out: Name)
    requires NoneEmpty(Labels(name)) && name != [] && name[|name| - 1] != DOT
    ensures Join(out, Labels(name)) == Glue(out, name)
    decreases |name|
  {
    var k := FirstDot(name);
    if k == |name| {
      assert Labels(name)[1..] == [];
    } else {
      var head, rest := name[..k], name[k + 1..];
      assert Labels(name)[1..] == Labels(rest);
      JoinLabels(rest, Glue(out, head));
      Glued(out, head, rest);
      assert head + [DOT] + rest == name;
    }
  }

  // ---- what bytes in a packet mean

  function PointerTarget(hi: byte, lo: byte): nat {
    (hi % 64) * 256 + lo
  }

  /** The bytes at `pos` spell these labels as RFC 1035 has it: a pointer leads to a place before the
      start of the labels it ends. */
  ghost predicate Spells(packet: seq<byte>, start: nat, pos: nat, labels: seq<Name>)
    decreases |labels|, start
  {
    && start <= pos < |packet|
    && var b := packet[pos];
       if b == 0 then labels == []
       else if b >= 192 then
         && pos + 1 < |packet|
         && var t := PointerTarget(b, packet[pos + 1]);
            t < start && Spells(packet, t, t, labels)
       else
         && b <= 63 && labels != [] && pos + 1 + b <= |packet|
         && labels[0] == packet[pos + 1..pos + 1 + b]
         && Spells(packet, start, pos + 1 + b, labels[1..])
  }

  /** Where the bytes of a name end. */
  function WireEnd(packet: seq<byte>, pos: nat): nat
    decreases |packet| - pos
  {
    if pos >= |packet| then pos
    else if packet[pos] == 0 then pos + 1
    else if packet[pos] >= 64 then pos + 2
    else WireEnd(packet, pos + 1 + packet[pos])
  }

  /** Bytes behind do not matter. */
  lemma {:induction false} SpellsMore(packet: seq<byte>, more: seq<byte>, start: nat, pos: nat, labels: seq<Name>)
    requires Spells(packet, start, pos, labels)
    ensures Spells(packet + more, start, pos, labels)
    ensures WireEnd(packet + more, pos) == WireEnd(packet, pos) <= |packet|
    decreases |labels|, start
  {
    var b := packet[pos];
    assert (packet + more)[pos] == b;
    if b >= 192 {
      assert (packet + more)[pos + 1] == packet[pos + 1];
      var t := PointerTarget(b, packet[pos + 1]);
      SpellsMore(packet, more, t, t, labels);
    } else if b != 0 {
      assert (packet + more)[pos + 1..pos + 1 + b] == packet[pos + 1..pos + 1 + b];
      SpellsMore(packet, more, start, pos + 1 + b, labels[1..]);
    }
  }

  // ---- name_parse

  datatype Parsed = Bad | Good(name: Name, next: nat)

  /** What `name_parse` makes of the bytes at `j` when it has written `out` and followed `jumps`
      pointers; `end` is the end of the name if a pointer has been seen. */
  function ParseFrom(packet: seq<byte>, j: nat, jumps: nat, outLen: nat, out: Name, end: int): Parsed
    requires jumps <= |packet| && j <= |packet|
    decreases |packet| - jumps, |packet| - j
  {
    if j >= |packet| then Bad
    else
      var b, j' := packet[j], j + 1;
      if b == 0 then
        if |out| >= outLen then Bad else Good(out, if end < 0 then j' else end)
      else if b >= 64 then
        if j' >= |packet| then Bad
        else
          var t := PointerTarget(b, packet[j']);
          if t >= |packet| || jumps + 1 > |packet| then Bad
          else ParseFrom(packet, t, jumps + 1, outLen, out, if end < 0 then j' + 1 else end)
      else if out != [] && |out| + 1 >= outLen then Bad
      else
        var dotted := if out != [] then out + [DOT] else out;
        if |dotted| + b >= outLen || j' + b > |packet| then Bad
        else ParseFrom(packet, j' + b, jumps, outLen, dotted + packet[j'..j' + b], end)
  }

  function Parse(packet: seq<byte>, j: nat, outLen: nat): Parsed
    requires j <= |packet|
  {
    ParseFrom(packet, j, 0, outLen, [], -1)
  }

  /** `name_parse`.  It ends on every packet: between two pointers the index grows, and the number of
      pointers is limited. */
  method NameParse(packet: seq<byte>, idx: nat, outLen: nat) returns (r: int, name: Name, next: nat)
    requires idx <= |packet|
    ensures r == 0 || r == -1
    ensures Parse(packet, idx, outLen) == if r == 0 then Good(name, next) else Bad
    ensures r == 0 ==> |name| < outLen && next <= |packet|
    ensures r == -1 ==> next == idx
  {
    name, next := [], idx;
    var nameEnd, j, ptrCount := -1, idx, 0;
    while true
      invariant 0 <= j <= |packet| && 0 <= ptrCount <= |packet| && nameEnd <= |packet| && next == idx
      invariant Parse(packet, idx, outLen) == ParseFrom(packet, j, ptrCount, outLen, name, nameEnd)
      decreases |packet| - ptrCount, |packet| - j
    {
      if j >= |packet| {
        return -1, name, next;
      }
      var labelLen := packet[j];
      j := j + 1;
      if labelLen == 0 {
        break;
      }
      if labelLen >= 64 {
        if j >= |packet| {
          return -1, name, next;
        }
        var ptrLow := packet[j];
        j := j + 1;
        if nameEnd < 0 {
          nameEnd := j;
        }
        j := PointerTarget(labelLen, ptrLow);
        if j >= |packet| {
          return -1, name, next;
        }
        ptrCount := ptrCount + 1;
        if ptrCount > |packet| {
          return -1, name, next;
        }
        continue;
      }
      if name != [] {
        if |name| + 1 >= outLen {
          return -1, name, next;
        }
        name := name + [DOT];
      }
      if |name| + labelLen >= outLen {
        return -1, name, next;
      }
      if j + labelLen > |packet| {
        return -1, name, next;
      }
      name := name + packet[j..j + labelLen];
      j := j + labelLen;
    }
    if |name| >= outLen {
      return -1, name, next;
    }
    next := if nameEnd < 0 then j else nameEnd;
    r := 0;
  }

  /** The joined name is no shorter than what was written before. */
  lemma {:induction false} JoinLonger(out: Name, labels: seq<Name>)
    requires NoneEmpty(labels)
    ensures |Join(out, labels)| >= |out| && (labels != [] && out != [] ==> |Join(out, labels)| >= |out| + 2)
    decreases |labels|
  {
    if labels != [] {
      JoinLonger(Glue(out, labels[0]), labels[1..]);
    }
  }

  /** The parser reads one label, or stops because it does not fit. */
  lemma ParseLabel(packet: seq<byte>, j: nat, jumps: nat, outLen: nat, out: Name, end: int)
    requires jumps <= |packet| && j < |packet| && 0 < packet[j] < 64 && j + 1 + packet[j] <= |packet|
    ensures var out' := Glue(out, packet[j + 1..j + 1 + packet[j]]);
      ParseFrom(packet, j, jumps, outLen, out, end) ==
      if |out'| >= outLen then Bad else ParseFrom(packet, j + 1 + packet[j], jumps, outLen, out', end)
  {
    var l := packet[j + 1..j + 1 + packet[j]];
    assert Glue(out, l) == (if out != [] then out + [DOT] else out) + l;
  }

  /** The parser reads what the bytes spell, if it fits, and finds the end of the name. */
  lemma {:induction false} ParseSpelled(packet: seq<byte>, start: nat, j: nat, jumps: nat, outLen: nat, out: Name,
                                        end: int, labels: seq<Name>)
    requires Spells(packet, start, j, labels) && jumps + start <= |packet| && NoneEmpty(labels)
    ensures ParseFrom(packet, j, jumps, outLen, out, end) ==
            if |Join(out, labels)| < outLen then Good(Join(out, labels), if end < 0 then WireEnd(packet, j) else end)
            else Bad
    decreases |labels|, start
  {
    var b := packet[j];
    if 0 < b < 64 {
      hide ParseFrom;
      var out' := Glue(out, labels[0]);
      ParseLabel(packet, j, jumps, outLen, out, end);
      JoinLonger(out', labels[1..]);
      ParseSpelled(packet, start, j + 1 + b, jumps, outLen, out', end, labels[1..]);
    } else if b != 0 {
      var t := PointerTarget(b, packet[j + 1]);
      ParseSpelled(packet, t, t, jumps + 1, outLen, out, if end < 0 then j + 2 else end, labels);
    }
  }
}
