/** `evdns.c`: writing domain names into a packet through a table of names already written. */
module DnsEncode {
  import opened DnsNames

  /** `struct dnslabel_entry`. */
  datatype Entry = Entry(v: Name, pos: nat)

  /** `struct dnslabel_table`. */
  class LabelTable {
    var labels: seq<Entry>

    constructor ()
      ensures labels == []
    {
      labels := [];
    }

    /** `dnslabel_table_get_pos`. */
    method GetPos(name: Name) returns (pos: int)
      ensures pos >= 0 ==> exists i | 0 <= i < |labels| :: labels[i] == Entry(name, pos)
      ensures pos < 0 ==> pos == -1 && forall i | 0 <= i < |labels| :: labels[i].v != name
      ensures pos >= 0 <==> Remembered(labels, name)
    {
      var i := 0;
      while i < |labels|
        invariant 0 <= i <= |labels| && forall k | 0 <= k < i :: labels[k].v != name
      {
        if labels[i].v == name {
          return labels[i].pos;
        }
        i := i + 1;
      }
      pos := -1;
    }

    /** `dnslabel_table_add`; a full table stays as it is. */
    method Add(name: Name, pos: nat) returns (r: int)
      modifies this
      ensures |old(labels)| == MAX_LABELS ==> r == -1 && labels == old(labels)
      ensures |old(labels)| != MAX_LABELS ==> r == 0 && labels == old(labels) + [Entry(name, pos)]
    {
      if |labels| == MAX_LABELS {
        return -1;
      }
      labels := labels + [Entry(name, pos)];
      r := 0;
    }
  }

  /** The two bytes of `ref | 0xc000` in network order. */
  function PointerBytes(ref: nat): seq<byte> {
    [192 + ref / 256 % 64, ref % 256]
  }

  /** A pointer leads where it should exactly when fourteen bits can hold the place; beyond that the
      encoder writes a pointer to somewhere else. */
  lemma PointerMeaning(ref: nat)
    ensures PointerTarget(PointerBytes(ref)[0], PointerBytes(ref)[1]) == ref % POINTERS
    ensures PointerTarget(PointerBytes(ref)[0], PointerBytes(ref)[1]) == ref <==> ref < POINTERS
  {
    assert ref % POINTERS == ref / 256 % 64 * 256 + ref % 256;
  }

  /** From `pos` to their end the bytes are plain labels, the first of `ls`, and `rest` is left. */
  ghost predicate Runs(p: seq<byte>, pos: nat, ls: seq<Name>, rest: seq<Name>)
    decreases |ls|
  {
    if pos == |p| then ls == rest
    else
      && pos < |p| && 0 < p[pos] <= 63 && pos + 1 + p[pos] <= |p| && ls != []
      && ls[0] == p[pos + 1..pos + 1 + p[pos]]
      && Runs(p, pos + 1 + p[pos], ls[1..], rest)
  }

  function Plain(l: Name): seq<byte>
    requires |l| <= MAX_LABEL
  {
    [|l|] + l
  }

  /** One more label. */
  lemma {:induction false} RunsAppend(p: seq<byte>, pos: nat, ls: seq<Name>, rest: seq<Name>)
    requires Runs(p, pos, ls, rest) && rest != [] && 0 < |rest[0]| <= MAX_LABEL
    ensures Runs(p + Plain(rest[0]), pos, ls, rest[1..])
    decreases |ls|
  {
    var p' := p + Plain(rest[0]);
    if pos == |p| {
      assert p'[pos] == |rest[0]| && p'[pos + 1..pos + 1 + |rest[0]|] == rest[0];
    } else {
      assert p'[pos] == p[pos];
      assert p'[pos + 1..pos + 1 + p[pos]] == p[pos + 1..pos + 1 + p[pos]];
      RunsAppend(p, pos + 1 + p[pos], ls[1..], rest);
    }
  }

  /** When the bytes behind the plain labels spell the rest, all is spelled. */
  lemma {:induction false} RunsSpells(p: seq<byte>, more: seq<byte>, start: nat, pos: nat, ls: seq<Name>, rest: seq<Name>)
    requires Runs(p, pos, ls, rest) && start <= pos && Spells(p + more, start, |p|, rest)
    ensures Spells(p + more, start, pos, ls) && WireEnd(p + more, pos) == WireEnd(p + more, |p|)
    decreases |ls|
  {
    if pos != |p| {
      var p' := p + more;
      assert p'[pos] == p[pos];
      assert p'[pos + 1..pos + 1 + p[pos]] == p[pos + 1..pos + 1 + p[pos]];
      RunsSpells(p, more, start, pos + 1 + p[pos], ls[1..], rest);
    }
  }

  lemma {:induction false} LaterStart(p: seq<byte>, start: nat, start': nat, pos: nat, ls: seq<Name>)
    requires Spells(p, start, pos, ls) && start <= start' <= pos
    ensures Spells(p, start', pos, ls)
    decreases |ls|
  {
    if 0 < p[pos] <= 63 {
      LaterStart(p, start, start', pos + 1 + p[pos], ls[1..]);
    }
  }

  /** Every entry spells its name in these bytes. */
  ghost predicate TableOk(labels: seq<Entry>, p: seq<byte>) {
    |labels| <= MAX_LABELS && forall i | 0 <= i < |labels| :: Spells(p, labels[i].pos, labels[i].pos, Labels(labels[i].v))
  }

  lemma TableMore(labels: seq<Entry>, p: seq<byte>, more: seq<byte>)
    requires TableOk(labels, p)
    ensures TableOk(labels, p + more)
  {
    forall i | 0 <= i < |labels|
      ensures Spells(p + more, labels[i].pos, labels[i].pos, Labels(labels[i].v))
    {
      SpellsMore(p, more, labels[i].pos, labels[i].pos, Labels(labels[i].v));
    }
  }

  /** New entries since the start of a name: they will spell what they should when the rest has been
      written. */
  ghost predicate Pending(labels: seq<Entry>, t: nat, start: nat, p: seq<byte>, name: Name) {
    && t <= |labels| <= MAX_LABELS
    && forall i | t <= i < |labels| ::
         && start <= labels[i].pos <= |p|
         && Runs(p, labels[i].pos, Labels(labels[i].v), Labels(name))
  }

  /** Once bytes that spell the rest are there, all entries are in order. */
  lemma Close(labels: seq<Entry>, t: nat, start: nat, p: seq<byte>, tail: seq<byte>, rest: Name)
    requires Pending(labels, t, start, p, rest) && start <= |p| && TableOk(labels[..t], p[..start])
    requires Spells(p + tail, start, |p|, Labels(rest))
    ensures TableOk(labels, p + tail)
  {
    hide Spells;
    hide Runs;
    assert p + tail == p[..start] + (p[start..] + tail);
    TableMore(labels[..t], p[..start], p[start..] + tail);
    forall i | 0 <= i < |labels|
      ensures Spells(p + tail, labels[i].pos, labels[i].pos, Labels(labels[i].v))
    {
      if i < t {
        assert labels[..t][i] == labels[i];
      } else {
        RunsSpells(p, tail, start, labels[i].pos, Labels(labels[i].v), Labels(rest));
        LaterStart(p + tail, start, labels[i].pos, labels[i].pos, Labels(labels[i].v));
      }
    }
  }

  /** A pointer to an entry from before the name spells the name of that entry. */
  lemma PointerSpells(labels: seq<Entry>, start: nat, p: seq<byte>, i: nat)
    requires start <= |p| && start <= POINTERS && TableOk(labels, p[..start]) && i < |labels|
    ensures Spells(p + PointerBytes(labels[i].pos), start, |p|, Labels(labels[i].v))
    ensures WireEnd(p + PointerBytes(labels[i].pos), |p|) == |p| + 2
  {
    var e, tail := labels[i], PointerBytes(labels[i].pos);
    assert Spells(p[..start], e.pos, e.pos, Labels(e.v));
    PointerMeaning(e.pos);
    SpellsMore(p[..start], p[start..] + tail, e.pos, e.pos, Labels(e.v));
    assert p[..start] + (p[start..] + tail) == p + tail;
  }

  /** What is left of a name behind its first label. */
  function Rest(name: Name): Name {
    if FirstDot(name) == |name| then [] else name[FirstDot(name) + 1..]
  }

  lemma RunsLabel(p: seq<byte>, pos: nat, ls: seq<Name>, name: Name)
    requires Runs(p, pos, ls, Labels(name)) && 0 < FirstDot(name) <= MAX_LABEL
    ensures Runs(p + Plain(name[..FirstDot(name)]), pos, ls, Labels(Rest(name)))
  {
    var k := FirstDot(name);
    assert name[..|name|] == name;
    assert Labels(name)[0] == name[..k] && Labels(name)[1..] == Labels(Rest(name));
    RunsAppend(p, pos, ls, Labels(name));
  }

  /** A new entry for the rest of a name, and one more label. */
  lemma PendingStep(labels: seq<Entry>, labels': seq<Entry>, t: nat, start: nat, p: seq<byte>, name: Name)
    requires Pending(labels, t, start, p, name) && start <= |p| && 0 < FirstDot(name) <= MAX_LABEL
    requires labels' == labels || (labels' == labels + [Entry(name, |p|)] && |labels'| <= MAX_LABELS)
    ensures Pending(labels', t, start, p + Plain(name[..FirstDot(name)]), Rest(name))
  {
    hide Runs;
    hide Labels;
    hide Rest;
    hide Plain;
    var k := FirstDot(name);
    assert |p + Plain(name[..k])| >= |p|;
    forall i | t <= i < |labels'|
      ensures start <= labels'[i].pos <= |p|
      ensures Runs(p + Plain(name[..k]), labels'[i].pos, Labels(labels'[i].v), Labels(Rest(name)))
    {
      if i == |labels| { RunsHere(p, Labels(name)); }
      RunsLabel(p, labels'[i].pos, Labels(labels'[i].v), name);
    }
  }

  lemma RunsHere(p: seq<byte>, ls: seq<Name>)
    ensures Runs(p, |p|, ls, ls)
  {
  }

  /** `memcpy` into the packet, behind `j` bytes of it. */
  method Append(buf: array<byte>, ghost start: nat, j: nat, bytes: seq<byte>)
    requires start <= j && j + |bytes| <= buf.Length
    modifies buf
    ensures buf[..j + |bytes|] == old(buf[..j]) + bytes && buf[..start] == old(buf[..start])
  {
    forall k | 0 <= k < |bytes| {
      buf[j + k] := bytes[k];
    }
  }

  /** The entries of a table, if there is one. */
  function Known(table: LabelTable?): seq<Entry>
    reads table
  {
    if table == null then [] else table.labels
  }

  // ---- what is remembered, and how long a written name is

  /** A table has so much room. */
  function Clipped(l: seq<Entry>): seq<Entry> {
    if |l| <= MAX_LABELS then l else l[..MAX_LABELS]
  }

  /** A label starts here: at the beginning, or behind a dot. */
  predicate LabelStart(name: Name, o: nat) {
    o <= |name| && (o == 0 || name[o - 1] == DOT)
  }

  ghost predicate Remembered(labels: seq<Entry>, rest: Name) {
    exists i | 0 <= i < |labels| :: labels[i].v == rest
  }

  /** A label starts here, from which on the rest of the name is remembered. */
  ghost predicate RestKnown(labels: seq<Entry>, name: Name, o: nat) {
    LabelStart(name, o) && Remembered(labels, name[o..])
  }

  /** Where the first rest that is remembered starts, from `o` on; behind the end if there is none. */
  ghost function StopAt(labels: seq<Entry>, name: Name, o: nat): (stop: nat)
    ensures stop <= |name| ==> o <= stop && RestKnown(labels, name, stop)
    ensures forall p: nat | o <= p < stop :: !RestKnown(labels, name, p)
    ensures stop <= |name| + 1
    decreases |name| + 1 - o
  {
    if o > |name| then |name| + 1 else if RestKnown(labels, name, o) then o else StopAt(labels, name, o + 1)
  }

  /** The entries for the rests of a name that start before `stop`, when the name is written at `start`. */
  ghost function NewEntries(name: Name, start: nat, stop: nat): seq<Entry> {
    if stop == 0 then []
    else if LabelStart(name, stop - 1) then NewEntries(name, start, stop - 1) + [RestOf(name, start, stop - 1)]
    else NewEntries(name, start, stop - 1)
  }

  function RestOf(name: Name, start: nat, o: nat): Entry
    requires o <= |name|
  {
    Entry(name[o..], start + o)
  }

  lemma {:induction false} EntriesAre(name: Name, start: nat, stop: nat)
    ensures forall o: nat | o < stop && LabelStart(name, o) :: RestOf(name, start, o) in NewEntries(name, start, stop)
    ensures forall e | e in NewEntries(name, start, stop) ::
              exists o: nat :: o < stop && LabelStart(name, o) && e == RestOf(name, start, o)
  {
    if stop > 0 {
      EntriesAre(name, start, stop - 1);
    }
  }

  /** How many bytes a name takes: its labels up to the first rest that is remembered, and a pointer; or all of them, and
      a zero, unless it is there already because the name is empty or ends in a dot. */
  ghost function SizeOf(labels: seq<Entry>, name: Name): nat {
    var stop := StopAt(labels, name, 0);
    if stop <= |name| then stop + 2
    else if name == [] || name[|name| - 1] == DOT || name[|name| - 1] == 0 then |name| + 1
    else |name| + 2
  }

  /** The table when a name has been written: every rest before the first that was remembered is remembered as well, as
      long as there is room. */
  ghost function TableAfter(labels: seq<Entry>, name: Name, start: nat): seq<Entry> {
    Clipped(labels + NewEntries(name, start, StopAt(labels, name, 0)))
  }

  lemma {:induction false} StopSkips(labels: seq<Entry>, name: Name, o: nat, p: nat)
    requires o <= p <= |name| + 1 && forall i | o <= i < p :: !RestKnown(labels, name, i)
    ensures StopAt(labels, name, o) == StopAt(labels, name, p)
    decreases p - o
  {
    if o < p {
      StopSkips(labels, name, o + 1, p);
    }
  }

  lemma {:induction false} EntriesSkip(name: Name, start: nat, o: nat, p: nat)
    requires o < p && LabelStart(name, o) && forall i | o < i < p :: !LabelStart(name, i)
    ensures NewEntries(name, start, p) == NewEntries(name, start, o) + [RestOf(name, start, o)]
    decreases p
  {
    if o + 1 < p {
      EntriesSkip(name, start, o, p - 1);
    }
  }

  /** The label at `o` ends at the next dot, behind which the next label starts. */
  lemma NextLabel(name: Name, o: nat)
    requires LabelStart(name, o)
    ensures var k := FirstDot(name[o..]);
      && o + k <= |name| && (forall i | o < i <= o + k :: !LabelStart(name, i))
      && (o + k < |name| ==> LabelStart(name, o + k + 1) && name[o..][k + 1..] == name[o + k + 1..])
  {
    var rest := name[o..];
    var k := FirstDot(rest);
    assert forall i | o <= i < o + k :: name[i] == rest[i - o];
    assert o + k < |name| ==> name[o + k] == rest[k];
  }

  lemma ClippedMore(labels: seq<Entry>, l: seq<Entry>, e: Entry)
    requires |labels| <= MAX_LABELS
    ensures Clipped(Clipped(labels + l) + [e]) == Clipped(labels + (l + [e]))
  {
    assert labels + (l + [e]) == labels + l + [e];
  }

  /** No rest of a name is found among longer ones, and so it is found exactly if it was there before. */
  lemma FoundBefore(labels: seq<Entry>, name: Name, start: nat, o: nat)
    requires |labels| <= MAX_LABELS && LabelStart(name, o)
    ensures Remembered(Clipped(labels + NewEntries(name, start, o)), name[o..]) <==> RestKnown(labels, name, o)
  {
    var l := NewEntries(name, start, o);
    var known := Clipped(labels + l);
    EntriesAre(name, start, o);
    hide NewEntries;
    forall i | |labels| <= i < |known|
      ensures known[i].v != name[o..]
    {
      assert known[i] == l[i - |labels|] && known[i] in l;
    }
    if RestKnown(labels, name, o) {
      var i :| 0 <= i < |labels| && labels[i].v == name[o..];
      assert known[i] == labels[i];
    }
  }

  /** One more label has been written: nothing before the next one stops the name. */
  lemma LabelDone(labels: seq<Entry>, name: Name, start: nat, o: nat)
    requires |labels| <= MAX_LABELS && LabelStart(name, o) && StopAt(labels, name, 0) == StopAt(labels, name, o)
    requires !RestKnown(labels, name, o)
    ensures var next := o + FirstDot(name[o..]) + 1;
      && next <= |name| + 1 && StopAt(labels, name, 0) == StopAt(labels, name, next)
      && Clipped(Clipped(labels + NewEntries(name, start, o)) + [RestOf(name, start, o)])
         == Clipped(labels + NewEntries(name, start, next))
  {
    var next := o + FirstDot(name[o..]) + 1;
    NextLabel(name, o);
    assert forall i | o < i < next :: !RestKnown(labels, name, i);
    hide RestKnown;
    hide LabelStart;
    StopSkips(labels, name, o, next);
    EntriesSkip(name, start, o, next);
    hide NewEntries;
    hide StopAt;
    ClippedMore(labels, NewEntries(name, start, o), RestOf(name, start, o));
  }

  /** With a name every rest of it is remembered that starts with a label. */
  ghost predicate Closed(labels: seq<Entry>) {
    forall i, o: nat | 0 <= i < |labels| && LabelStart(labels[i].v, o) :: Remembered(labels, labels[i].v[o..])
  }

  lemma EntryThere(labels: seq<Entry>, l: seq<Entry>, e: Entry)
    requires e in labels || e in l
    ensures Remembered(labels + l, e.v)
  {
    var all := labels + l;
    assert e in all;
    var i :| 0 <= i < |all| && all[i] == e;
  }

  lemma Tail(name: Name, stop: nat, o: nat)
    requires stop + o <= |name| && LabelStart(name[stop..], o)
    ensures name[stop..][o..] == name[stop + o..] && (LabelStart(name, stop) ==> LabelStart(name, stop + o))
  {
    assert o > 0 ==> name[stop..][o - 1] == name[stop + o - 1];
  }

  /** Every rest of a name is remembered when it has been written, if there was room. */
  lemma AllRests(labels: seq<Entry>, name: Name, start: nat, o: nat)
    requires Closed(labels) && LabelStart(name, o) && Roomy(labels, name, start)
    ensures Remembered(TableAfter(labels, name, start), name[o..])
  {
    var stop := StopAt(labels, name, 0);
    var l := NewEntries(name, start, stop);
    EntriesAre(name, start, stop);
    hide NewEntries;
    if o < stop {
      EntryThere(labels, l, RestOf(name, start, o));
    } else {
      assert Remembered(labels, name[stop..]);
      var i :| 0 <= i < |labels| && labels[i].v == name[stop..];
      assert o > stop ==> name[stop..][o - stop - 1] == name[o - 1];
      assert LabelStart(labels[i].v, o - stop);
      Tail(name, stop, o - stop);
      assert Remembered(labels, name[o..]);
      var j :| 0 <= j < |labels| && labels[j].v == name[o..];
      EntryThere(labels, l, labels[j]);
    }
  }

  /** The table has room for all that writing a name adds. */
  ghost predicate Roomy(labels: seq<Entry>, name: Name, start: nat) {
    |labels + NewEntries(name, start, StopAt(labels, name, 0))| <= MAX_LABELS
  }

  /** Writing a name keeps it so. */
  lemma ClosedAfter(labels: seq<Entry>, name: Name, start: nat)
    requires Closed(labels) && Roomy(labels, name, start)
    ensures Closed(TableAfter(labels, name, start))
  {
    var stop := StopAt(labels, name, 0);
    var l, after := NewEntries(name, start, stop), TableAfter(labels, name, start);
    EntriesAre(name, start, stop);
    assert after == labels + l;
    forall i, o: nat | 0 <= i < |after| && LabelStart(after[i].v, o)
      ensures Remembered(after, after[i].v[o..])
    {
      if i < |labels| {
        assert Remembered(labels, labels[i].v[o..]);
        var j :| 0 <= j < |labels| && labels[j].v == labels[i].v[o..];
        EntryThere(labels, l, labels[j]);
      } else {
        RestOfRest(labels, name, start, after[i], o);
      }
    }
  }

  lemma EntryIs(name: Name, start: nat, stop: nat, e: Entry) returns (p: nat)
    requires e in NewEntries(name, start, stop)
    ensures p < stop && LabelStart(name, p) && e.v == name[p..]
  {
    EntriesAre(name, start, stop);
    hide NewEntries;
    p :| p < stop && LabelStart(name, p) && e == RestOf(name, start, p);
  }

  lemma RestOfRest(labels: seq<Entry>, name: Name, start: nat, e: Entry, o: nat)
    requires Closed(labels) && Roomy(labels, name, start)
    requires e in NewEntries(name, start, StopAt(labels, name, 0)) && LabelStart(e.v, o)
    ensures Remembered(TableAfter(labels, name, start), e.v[o..])
  {
    var p := EntryIs(name, start, StopAt(labels, name, 0), e);
    hide *;
    Tail(name, p, o);
    AllRests(labels, name, start, p + o);
  }

  /** A name that ends, from a label on, as one that has been written takes no more than its own bytes and a pointer;
      the same name once more is a pointer. */
  lemma RestShared(labels: seq<Entry>, name: Name, start: nat, o: nat, own: Name, other: Name)
    requires Closed(labels) && LabelStart(name, o) && Roomy(labels, name, start)
    requires other == own + name[o..] && LabelStart(other, |own|)
    ensures SizeOf(TableAfter(labels, name, start), other) <= |own| + 2
    ensures own == [] ==> SizeOf(TableAfter(labels, name, start), other) == 2
  {
    AllRests(labels, name, start, o);
    var after := TableAfter(labels, name, start);
    hide TableAfter;
    assert other[|own|..] == name[o..];
    assert RestKnown(after, other, |own|);
  }

  predicate SomeTooLong(labels: seq<Name>) {
    labels != [] && (|labels[0]| > MAX_LABEL || SomeTooLong(labels[1..]))
  }

  /** Some label is too long. */
  predicate TooLong(name: Name) {
    SomeTooLong(Labels(name))
  }

  /** One round of the loop: remembers the rest of the name and writes its first label. */
  method PutLabel(buf: array<byte>, bufLen: nat, ghost start: nat, j: nat, name: Name, table: LabelTable?) returns (r: int)
    requires start <= j <= bufLen < buf.Length && |Known(table)| <= MAX_LABELS
    modifies buf, if table == null then {} else {table}
    ensures buf[..start] == old(buf[..start])
    ensures var k := FirstDot(name);
      && (k > MAX_LABEL ==> r == -1)
      && (k <= MAX_LABEL && j + k + 1 > bufLen ==> r == -2)
      && (k <= MAX_LABEL && j + k + 1 <= bufLen ==>
            && r == j + k + 1 && buf[..r] == old(buf[..j]) + Plain(name[..k])
            && (table != null ==> Known(table) == Clipped(old(Known(table)) + [Entry(name, j)]))
            && |Known(table)| <= MAX_LABELS)
    ensures r < 0 ==> Known(table) == old(Known(table))
  {
    var k := FirstDot(name);
    if k > MAX_LABEL {
      return -1;
    }
    if j + k + 1 > bufLen {
      return -2;
    }
    if table != null {
      var added := table.Add(name, j);
    }
    Append(buf, start, j, [k] + name[..k]);
    r := j + k + 1;
  }

  /** Where the encoder stands: the bytes up to here are the first labels of the name, and what is
      left is shorter than every name remembered on the way. */
  ghost predicate Partway(labels: seq<Entry>, t: nat, start: nat, p: seq<byte>, name0: Name, name: Name) {
    && start <= |p| && TableOk(if t <= |labels| then labels[..t] else [], p[..start])
    && Pending(labels, t, start, p, name) && Runs(p, start, Labels(name0), Labels(name)) && WellFormed(name)
    && forall i | t <= i < |labels| :: |labels[i].v| > |name|
  }

  /** What a written name is. */
  ghost predicate Written(labels: seq<Entry>, start: nat, q: seq<byte>, name: Name) {
    TableOk(labels, q) && Spells(q, start, start, Labels(name)) && WireEnd(q, start) == |q|
  }

  lemma WellFormedRest(name: Name)
    requires WellFormed(name) && name != []
    ensures WellFormed(Rest(name)) && |Rest(name)| < |name|
    ensures 0 < FirstDot(name) && name[FirstDot(name) - 1] != 0
  {
    assert Labels(name)[1..] == Labels(Rest(name));
  }

  lemma PartwayStep(labels: seq<Entry>, labels': seq<Entry>, t: nat, start: nat, p: seq<byte>, name0: Name, name: Name)
    requires Partway(labels, t, start, p, name0, name) && name != [] && FirstDot(name) <= MAX_LABEL
    requires labels' == labels || (labels' == labels + [Entry(name, |p|)] && |labels'| <= MAX_LABELS)
    ensures Partway(labels', t, start, p + Plain(name[..FirstDot(name)]), name0, Rest(name))
  {
    hide TableOk;
    hide Runs;
    hide Labels;
    hide WellFormed;
    hide Pending;
    WellFormedRest(name);
    var q := p + Plain(name[..FirstDot(name)]);
    PendingStep(labels, labels', t, start, p, name);
    RunsLabel(p, start, Labels(name0), name);
    PendingBound(labels, t, start, p, name);
    assert labels'[..t] == labels[..t];
    assert q[..start] == p[..start];
  }

  lemma PendingBound(labels: seq<Entry>, t: nat, start: nat, p: seq<byte>, name: Name)
    requires Pending(labels, t, start, p, name)
    ensures t <= |labels|
  {
  }

  /** The name is finished by a pointer. */
  lemma FinishPointer(labels: seq<Entry>, t: nat, start: nat, p: seq<byte>, name0: Name, name: Name, ref: nat)
    requires Partway(labels, t, start, p, name0, name) && start <= POINTERS
    requires exists i | 0 <= i < |labels| :: labels[i] == Entry(name, ref)
    ensures Written(labels, start, p + PointerBytes(ref), name0)
  {
    hide Spells;
    hide WireEnd;
    hide Runs;
    hide Labels;
    hide PointerBytes;
    var i :| 0 <= i < |labels| && labels[i] == Entry(name, ref);
    assert i < t;
    PointerSpells(labels[..t], start, p, i);
    Close(labels, t, start, p, PointerBytes(ref), name);
    RunsSpells(p, PointerBytes(ref), start, start, Labels(name0), Labels(name));
    assert |PointerBytes(ref)| == 2 by { PointerLength(ref); }
  }

  lemma PointerLength(ref: nat)
    ensures |PointerBytes(ref)| == 2
  {
  }

  /** The name is finished by a zero; when the name ends in a dot, that zero is also what its empty
      rest is remembered as. */
  lemma FinishZero(labels: seq<Entry>, labels': seq<Entry>, t: nat, start: nat, p: seq<byte>, name0: Name)
    requires Partway(labels, t, start, p, name0, [])
    requires labels' == labels || (labels' == labels + [Entry([], |p|)] && |labels'| <= MAX_LABELS)
    ensures Written(labels', start, p + [0], name0)
  {
    hide Runs;
    RunsHere(p, Labels([]));
    assert labels'[..t] == labels[..t];
    Close(labels', t, start, p, [0], []);
    RunsSpells(p, [0], start, start, Labels(name0), Labels([]));
  }

  /** `APPEND16` of a pointer. */
  method PutPointer(buf: array<byte>, bufLen: nat, ghost start: nat, j: nat, ref: nat) returns (r: int)
    requires start <= j <= bufLen < buf.Length
    modifies buf
    ensures buf[..start] == old(buf[..start])
    ensures if j + 2 > bufLen then r == -2 else r == j + 2 && buf[..r] == old(buf[..j]) + PointerBytes(ref)
  {
    if j + 2 > bufLen {
      return -2;
    }
    Append(buf, start, j, PointerBytes(ref));
    r := j + 2;
  }

  /** The terminating zero, unless it is there already. */
  method Terminate(buf: array<byte>, ghost start: nat, j: nat) returns (r: nat)
    requires start < j < buf.Length
    modifies buf
    ensures buf[..start] == old(buf[..start])
    ensures var q := old(buf[..j]);
      r == (if q[j - 1] == 0 then j else j + 1) && buf[..r] == if q[j - 1] == 0 then q else q + [0]
  {
    r := j;
    if j == 0 || buf[j - 1] != 0 {
      Append(buf, start, j, [0]);
      r := j + 1;
    }
  }

  lemma Begin(labels: seq<Entry>, p: seq<byte>, name: Name)
    requires TableOk(labels, p)
    ensures |labels| <= MAX_LABELS
    ensures WellFormed(name) ==> Partway(labels, |labels|, |p|, p, name, name)
  {
    assert p[..|p|] == p && labels[..|labels|] == labels;
  }

  lemma FirstLabel(name: Name)
    ensures FirstDot(name) > MAX_LABEL ==> TooLong(name)
    ensures TooLong(Rest(name)) ==> TooLong(name)
  {
    if name != [] {
      assert Labels(name)[1..] == Labels(Rest(name));
    }
  }

  /** The last label has been written. */
  lemma Terminated(labels: seq<Entry>, labels': seq<Entry>, t: nat, start: nat, p: seq<byte>, q: seq<byte>,
                   name0: Name, name: Name)
    requires Partway(labels, t, start, p, name0, name) && FirstDot(name) == |name| <= MAX_LABEL
    requires labels' == labels || (labels' == labels + [Entry(name, |p|)] && |labels'| <= MAX_LABELS)
    requires q == p + Plain(name[..FirstDot(name)])
    ensures q != [] && Written(labels', start, if q[|q| - 1] == 0 then q else q + [0], name0)
  {
    hide TableOk;
    hide Runs;
    hide Pending;
    hide Written;
    assert name[..|name|] == name;
    if name == [] {
      assert q == p + [0];
      FinishZero(labels, labels', t, start, p, name0);
    } else {
      PartwayStep(labels, labels', t, start, p, name0, name);
      FinishZero(labels', labels', t, start, q, name0);
    }
  }

  /** Before `o` no label is too long. */
  predicate ShortBefore(name: Name, o: nat) {
    forall p: nat | p < o && LabelStart(name, p) :: FirstDot(name[p..]) <= MAX_LABEL
  }

  /** Where the encoder stands in the name, and what it has remembered since it began with the table `labels`. */
  ghost predicate Halfway(labels: seq<Entry>, known: seq<Entry>, tabled: bool, name0: Name, name: Name, start: nat, o: nat) {
    && |labels| <= MAX_LABELS && LabelStart(name0, o) && name == name0[o..]
    && StopAt(labels, name0, 0) == StopAt(labels, name0, o) && ShortBefore(name0, o)
    && if tabled then known == Clipped(labels + NewEntries(name0, start, o)) else known == labels == []
  }

  lemma HalfwayBegin(labels: seq<Entry>, tabled: bool, name0: Name, start: nat)
    requires |labels| <= MAX_LABELS && (!tabled ==> labels == [])
    ensures Halfway(labels, labels, tabled, name0, name0, start, 0)
  {
    assert labels + [] == labels && name0[0..] == name0;
  }

  /** The rest of the name is remembered. */
  lemma HalfwayFound(labels: seq<Entry>, known: seq<Entry>, tabled: bool, name0: Name, name: Name, start: nat, o: nat)
    requires Halfway(labels, known, tabled, name0, name, start, o) && Remembered(known, name)
    ensures StopAt(labels, name0, 0) == o && SizeOf(labels, name0) == o + 2 && known == TableAfter(labels, name0, start)
    ensures ShortBefore(name0, StopAt(labels, name0, 0))
  {
    FoundBefore(labels, name0, start, o);
  }

  lemma NotKnownHere(labels: seq<Entry>, known: seq<Entry>, tabled: bool, name0: Name, name: Name, start: nat, o: nat)
    requires Halfway(labels, known, tabled, name0, name, start, o) && !Remembered(known, name)
    ensures !RestKnown(labels, name0, o)
  {
    FoundBefore(labels, name0, start, o);
  }

  /** The rest of the name is not remembered, and its first label fits or not. */
  lemma HalfwayLabel(labels: seq<Entry>, known: seq<Entry>, tabled: bool, name0: Name, name: Name, start: nat, o: nat)
    requires Halfway(labels, known, tabled, name0, name, start, o) && !Remembered(known, name)
    ensures var next := o + FirstDot(name) + 1;
      && next <= StopAt(labels, name0, 0) == StopAt(labels, name0, next) && next <= SizeOf(labels, name0) && next <= |name0| + 1
      && (tabled ==> Clipped(known + [Entry(name, start + o)]) == Clipped(labels + NewEntries(name0, start, next)))
  {
    hide FirstDot;
    NotKnownHere(labels, known, tabled, name0, name, start, o);
    LabelDone(labels, name0, start, o);
    hide NewEntries;
    hide LabelStart;
    hide Remembered;
    hide RestKnown;
    hide Clipped;
  }

  lemma HalfwayNext(labels: seq<Entry>, known: seq<Entry>, tabled: bool, name0: Name, name: Name, start: nat, o: nat)
    requires Halfway(labels, known, tabled, name0, name, start, o) && !Remembered(known, name) && FirstDot(name) <= MAX_LABEL
    ensures var next := o + FirstDot(name) + 1;
      var known' := if tabled then Clipped(known + [Entry(name, start + o)]) else known;
      && (FirstDot(name) < |name| ==> Halfway(labels, known', tabled, name0, name[FirstDot(name) + 1..], start, next))
      && |name| <= |name0| && name == name0[|name0| - |name|..] && LabelStart(name0, |name0| - |name|)
      && (FirstDot(name) == |name| ==>
            && StopAt(labels, name0, 0) == next == |name0| + 1 && ShortBefore(name0, next)
            && (tabled ==> known' == TableAfter(labels, name0, start)))
  {
    hide FirstDot;
    HalfwayLabel(labels, known, tabled, name0, name, start, o);
    NextLabel(name0, o);
    ShortMore(name0, o);
    hide ShortBefore;
    hide StopAt;
    hide NewEntries;
    hide Remembered;
    hide Clipped;
    hide LabelStart;
  }

  lemma ShortMore(name: Name, o: nat)
    requires LabelStart(name, o) && ShortBefore(name, o) && FirstDot(name[o..]) <= MAX_LABEL
    ensures ShortBefore(name, o + FirstDot(name[o..]) + 1)
  {
    NextLabel(name, o);
  }

  lemma ClippedOne(known: seq<Entry>, e: Entry)
    requires |known| <= MAX_LABELS
    ensures var k := Clipped(known + [e]); |k| <= MAX_LABELS && (k == known || k == known + [e])
  {
  }

  lemma LabelTooLong(labels: seq<Entry>, known: seq<Entry>, tabled: bool, name0: Name, name: Name, start: nat, o: nat)
    requires Halfway(labels, known, tabled, name0, name, start, o) && FirstDot(name) > MAX_LABEL
    requires o < StopAt(labels, name0, 0)
    ensures !ShortBefore(name0, StopAt(labels, name0, 0))
  {
  }

  /** When the last label has been written, its last byte says whether a zero is still missing. */
  lemma LastByte(labels: seq<Entry>, name0: Name, name: Name, p: seq<byte>, q: seq<byte>)
    requires |name| <= |name0| && name == name0[|name0| - |name|..] && LabelStart(name0, |name0| - |name|)
    requires FirstDot(name) == |name| <= MAX_LABEL && q == p + Plain(name[..FirstDot(name)])
    requires StopAt(labels, name0, 0) == |name0| + 1
    ensures q != [] && SizeOf(labels, name0) == |name0| + if q[|q| - 1] == 0 then 1 else 2
  {
    assert name[..|name|] == name;
    if name != [] {
      assert q[|q| - 1] == name[|name| - 1] == name0[|name0| - 1];
    }
  }

  /** Both together: where the encoder stands. */
  ghost predicate InName(labels: seq<Entry>, known: seq<Entry>, tabled: bool, start: nat, p: seq<byte>, name0: Name, name: Name) {
    && start <= |p| && |p| - start + |name| == |name0| && |known| <= MAX_LABELS
    && (WellFormed(name0) ==> Partway(known, |labels|, start, p, name0, name))
    && (TooLong(name) ==> TooLong(name0))
    && Halfway(labels, known, tabled, name0, name, start, |p| - start)
  }

  lemma InNameBegin(labels: seq<Entry>, tabled: bool, p: seq<byte>, name: Name)
    requires TableOk(labels, p) && (!tabled ==> labels == [])
    ensures InName(labels, labels, tabled, |p|, p, name, name)
  {
    hide TableOk;
    hide Partway;
    hide Halfway;
    Begin(labels, p, name);
    HalfwayBegin(labels, tabled, name, |p|);
  }

  lemma InNameFound(labels: seq<Entry>, known: seq<Entry>, tabled: bool, start: nat, p: seq<byte>, name0: Name, name: Name, ref: nat)
    requires InName(labels, known, tabled, start, p, name0, name)
    requires exists i | 0 <= i < |known| :: known[i] == Entry(name, ref)
    ensures WellFormed(name0) && start <= POINTERS ==> Written(known, start, p + PointerBytes(ref), name0)
    ensures StopAt(labels, name0, 0) == |p| - start && SizeOf(labels, name0) == |p| - start + 2
    ensures known == TableAfter(labels, name0, start) && ShortBefore(name0, StopAt(labels, name0, 0))
  {
    hide Partway;
    hide Halfway;
    hide Written;
    if WellFormed(name0) && start <= POINTERS { FinishPointer(known, |labels|, start, p, name0, name, ref); }
    HalfwayFound(labels, known, tabled, name0, name, start, |p| - start);
  }

  /** The label that comes next may not fit. */
  lemma InNameStuck(labels: seq<Entry>, known: seq<Entry>, tabled: bool, start: nat, p: seq<byte>, name0: Name, name: Name)
    requires InName(labels, known, tabled, start, p, name0, name) && !Remembered(known, name)
    ensures |p| + FirstDot(name) + 1 <= start + SizeOf(labels, name0)
    ensures FirstDot(name) > MAX_LABEL ==> TooLong(name0) && !ShortBefore(name0, StopAt(labels, name0, 0))
  {
    hide Partway;
    hide Halfway;
    FirstLabel(name);
    HalfwayLabel(labels, known, tabled, name0, name, start, |p| - start);
    if FirstDot(name) > MAX_LABEL { LabelTooLong(labels, known, tabled, name0, name, start, |p| - start); }
  }

  lemma InNameNext(labels: seq<Entry>, known: seq<Entry>, tabled: bool, start: nat, p: seq<byte>, name0: Name, name: Name,
                   known': seq<Entry>, q: seq<byte>)
    requires InName(labels, known, tabled, start, p, name0, name) && !Remembered(known, name)
    requires FirstDot(name) < |name| && FirstDot(name) <= MAX_LABEL && q == p + Plain(name[..FirstDot(name)])
    requires known' == if tabled then Clipped(known + [Entry(name, |p|)]) else known
    ensures InName(labels, known', tabled, start, q, name0, name[FirstDot(name) + 1..])
  {
    hide FirstDot;
    hide Partway;
    hide Halfway;
    hide Labels;
    FirstLabel(name);
    ClippedOne(known, Entry(name, |p|));
    hide Clipped;
    hide WellFormed;
    hide TooLong;
    if WellFormed(name0) { PartwayStep(known, known', |labels|, start, p, name0, name); }
    HalfwayNext(labels, known, tabled, name0, name, start, |p| - start);
  }

  lemma InNameLast(labels: seq<Entry>, known: seq<Entry>, tabled: bool, start: nat, p: seq<byte>, name0: Name, name: Name,
                   known': seq<Entry>, q: seq<byte>)
    requires InName(labels, known, tabled, start, p, name0, name) && !Remembered(known, name)
    requires FirstDot(name) == |name| <= MAX_LABEL && q == p + Plain(name[..FirstDot(name)])
    requires known' == if tabled then Clipped(known + [Entry(name, |p|)]) else known
    ensures q != [] && (WellFormed(name0) ==> Written(known', start, if q[|q| - 1] == 0 then q else q + [0], name0))
    ensures SizeOf(labels, name0) == |q| - start + if q[|q| - 1] == 0 then 0 else 1
    ensures (tabled ==> known' == TableAfter(labels, name0, start)) && ShortBefore(name0, StopAt(labels, name0, 0))
  {
    hide Partway;
    hide Halfway;
    hide Written;
    ClippedOne(known, Entry(name, |p|));
    hide Clipped;
    if WellFormed(name0) { Terminated(known, known', |labels|, start, p, q, name0, name); }
    HalfwayNext(labels, known, tabled, name0, name, start, |p| - start);
    LastByte(labels, name0, name, p, q);
  }

  /** `dnsname_to_labels`: -1 for a label that is too long, -2 when there is not enough space, else the
      end of the name.  The byte behind the space is there for a terminating zero. */
  method NameToLabels(buf: array<byte>, bufLen: nat, start: nat, name0: Name, table: LabelTable?) returns (r: int)
    requires start <= bufLen < buf.Length && TableOk(Known(table), buf[..start])
    modifies buf, if table == null then {} else {table}
    ensures r >= 0 ==> start + 1 <= r <= bufLen + 1 && r <= start + |name0| + 2 && buf[..start] == old(buf[..start])
    ensures r >= 0 && WellFormed(name0) && start <= POINTERS ==> Written(Known(table), start, buf[..r], name0)
    ensures r < 0 ==> (r == -1 && TooLong(name0)) || (r == -2 && (|name0| > MAX_NAME || start + |name0| + 2 > bufLen))
    ensures |name0| > MAX_NAME ==> r == -2
    ensures r >= 0 ==> r == start + SizeOf(old(Known(table)), name0)
    ensures r >= 0 && table != null ==> Known(table) == TableAfter(old(Known(table)), name0, start)
    ensures r >= 0 ==> ShortBefore(name0, StopAt(old(Known(table)), name0, 0))
    ensures r == -1 ==> !ShortBefore(name0, StopAt(old(Known(table)), name0, 0))
    ensures r == -2 ==> |name0| > MAX_NAME || start + SizeOf(old(Known(table)), name0) > bufLen
  {
    hide TableOk;
    hide Written;
    hide WellFormed;
    hide TooLong;
    hide PointerBytes;
    hide Plain;
    hide InName;
    hide StopAt;
    hide SizeOf;
    hide TableAfter;
    hide Clipped;
    hide ShortBefore;
    hide Remembered;
    if |name0| > MAX_NAME {
      return -2;
    }
    var name, j := name0, start;
    ghost var labels, tabled := Known(table), table != null;
    InNameBegin(labels, tabled, buf[..start], name0);
    SizeBound(labels, name0);
    while true
      invariant start <= j <= bufLen && buf[..start] == old(buf[..start])
      invariant InName(labels, Known(table), tabled, start, buf[..j], name0, name)
      decreases |name|
    {
      ghost var p, known := buf[..j], Known(table);
      KnownRoom(labels, known, tabled, start, p, name0, name);
      if table != null {
        var ref := table.GetPos(name);
        if ref >= 0 {
          InNameFound(labels, known, tabled, start, p, name0, name, ref);
          r := PutPointer(buf, bufLen, start, j, ref);
          return;
        }
      }
      InNameStuck(labels, known, tabled, start, p, name0, name);
      var k := FirstDot(name);
      r := PutLabel(buf, bufLen, start, j, name, table);
      if r < 0 {
        return;
      }
      j := r;
      if k == |name| {
        InNameLast(labels, known, tabled, start, p, name0, name, Known(table), buf[..j]);
        break;
      }
      InNameNext(labels, known, tabled, start, p, name0, name, Known(table), buf[..j]);
      name := name[k + 1..];
    }
    r := Terminate(buf, start, j);
  }

  lemma SizeBound(labels: seq<Entry>, name: Name)
    ensures 1 <= SizeOf(labels, name) <= |name| + 2
  {
  }

  lemma KnownRoom(labels: seq<Entry>, known: seq<Entry>, tabled: bool, start: nat, p: seq<byte>, name0: Name, name: Name)
    requires InName(labels, known, tabled, start, p, name0, name)
    ensures |known| <= MAX_LABELS && |p| - start + |name| == |name0| && (!tabled ==> !Remembered(known, name))
  {
  }
}
