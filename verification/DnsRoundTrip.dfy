/** Names written into one packet, with other data between them, are read back. */
module DnsRoundTrip {
  import opened DnsNames
  import opened DnsEncode

  /** A name without the dot it may end in. */
  function Undotted(name: Name): Name {
    if name != [] && name[|name| - 1] == DOT then name[..|name| - 1] else name
  }

  lemma LabelsCut(name: Name, k: nat)
    requires k < |name| && (forall i | 0 <= i < k :: name[i] != DOT) && name[k] == DOT
    ensures Labels(name) == [name[..k]] + Labels(name[k + 1..])
  {
    assert FirstDot(name) == k;
  }

  lemma OneLabel(name: Name)
    requires name != [] && forall i | 0 <= i < |name| :: name[i] != DOT
    ensures Labels(name) == [name]
  {
  }

  lemma {:induction false} LabelsUndotted(name: Name)
    requires NoneEmpty(Labels(name)) && name != [] && name[|name| - 1] == DOT
    ensures Undotted(name) != [] && Undotted(name)[|name| - 2] != DOT && Labels(Undotted(name)) == Labels(name)
    decreases |name|
  {
    hide Labels;
    var k, u := FirstDot(name), Undotted(name);
    var rest := name[k + 1..];
    LabelsCut(name, k);
    assert ([name[..k]] + Labels(rest))[1..] == Labels(rest);
    assert u[..k] == name[..k];
    if rest != [] {
      LabelsUndotted(rest);
      LabelsCut(u, k);
      assert u[k + 1..] == Undotted(rest);
    } else {
      assert u[..k] == u;
      OneLabel(u);
      NoLabels();
    }
  }

  lemma NoLabels()
    ensures Labels([]) == []
  {
  }

  /** Labels with dots between them are the name, but for a dot at its end. */
  lemma JoinIs(name: Name)
    requires WellFormed(name)
    ensures Join([], Labels(name)) == Undotted(name)
  {
    if name != [] {
      if name[|name| - 1] == DOT { LabelsUndotted(name); }
      JoinLabels(Undotted(name), []);
    }
  }

  /** What has been written is read, by a reader with enough space, whatever follows; the reader
      goes on behind it.  A reader without enough space fails. */
  lemma ReadBack(q: seq<byte>, more: seq<byte>, pos: nat, name: Name, outLen: nat)
    requires Spells(q, pos, pos, Labels(name)) && WellFormed(name)
    ensures pos < |q|
    ensures Parse(q + more, pos, outLen) ==
            if |Undotted(name)| < outLen then Good(Undotted(name), WireEnd(q, pos)) else Bad
  {
    SpellsMore(q, more, pos, pos, Labels(name));
    ParseSpelled(q + more, pos, pos, 0, outLen, [], -1, Labels(name));
    JoinIs(name);
  }

  /** A name and the bytes behind it. */
  datatype Item = Item(name: Name, data: seq<byte>)

  /** The bytes of a packet read as these items, from `pos` on to the end; `more` may follow. */
  ghost predicate ReadsAs(packet: seq<byte>, pos: nat, items: seq<Item>, outLen: nat, stop: nat)
    decreases |items|
  {
    if items == [] then pos == stop <= |packet|
    else
      pos <= |packet| &&
      var name := Undotted(items[0].name);
      if |name| >= outLen then Parse(packet, pos, outLen) == Bad
      else
        match Parse(packet, pos, outLen)
        case Bad => false
        case Good(n, next) =>
          && n == name && next + |items[0].data| <= |packet|
          && packet[next..next + |items[0].data|] == items[0].data
          && ReadsAs(packet, next + |items[0].data|, items[1..], outLen, stop)
  }

  /** The bytes spell these items, from `pos` on to their end. */
  ghost predicate Holds(q: seq<byte>, pos: nat, items: seq<Item>)
    decreases |items|
  {
    if items == [] then pos == |q|
    else
      && Spells(q, pos, pos, Labels(items[0].name))
      && var next := WireEnd(q, pos);
         next + |items[0].data| <= |q| && q[next..next + |items[0].data|] == items[0].data
         && Holds(q, next + |items[0].data|, items[1..])
  }

  lemma HoldsFirst(p: seq<byte>, pos: nat, item: Item, rest: seq<Item>)
    requires Spells(p, pos, pos, Labels(item.name))
    requires var next := WireEnd(p, pos);
      next + |item.data| <= |p| && p[next..next + |item.data|] == item.data && Holds(p, next + |item.data|, rest)
    ensures Holds(p, pos, [item] + rest)
  {
    assert ([item] + rest)[1..] == rest;
  }

  lemma PrefixSlice(q: seq<byte>, more: seq<byte>, a: nat, b: nat)
    requires a <= b <= |q|
    ensures (q + more)[a..b] == q[a..b]
  {
  }

  /** One more item behind those that are there. */
  lemma {:induction false} HoldsMore(q: seq<byte>, more: seq<byte>, pos: nat, items: seq<Item>, last: Item)
    requires Holds(q, pos, items) && Holds(q + more, |q|, [last])
    ensures Holds(q + more, pos, items + [last])
    decreases |items|
  {
    hide Spells;
    hide WireEnd;
    if items == [] {
      assert items + [last] == [last];
    } else {
      var item, next := items[0], WireEnd(q, pos);
      SpellsMore(q, more, pos, pos, Labels(item.name));
      PrefixSlice(q, more, next, next + |item.data|);
      HoldsMore(q, more, next + |item.data|, items[1..], last);
      HoldsFirst(q + more, pos, item, items[1..] + [last]);
      assert [item] + (items[1..] + [last]) == items + [last];
    }
  }

  /** The item that has just been written. */
  lemma HoldsLast(q: seq<byte>, data: seq<byte>, pos: nat, name: Name)
    requires Spells(q, pos, pos, Labels(name)) && WireEnd(q, pos) == |q|
    ensures Holds(q + data, pos, [Item(name, data)])
  {
    SpellsMore(q, data, pos, pos, Labels(name));
    assert (q + data)[|q|..|q| + |data|] == data;
    HoldsFirst(q + data, pos, Item(name, data), []);
    assert [Item(name, data)] + [] == [Item(name, data)];
  }

  /** The parser reads back what a packet holds, whatever follows. */
  lemma {:induction false} ReadAll(q: seq<byte>, more: seq<byte>, pos: nat, items: seq<Item>, outLen: nat)
    requires Holds(q, pos, items) && forall i | 0 <= i < |items| :: WellFormed(items[i].name)
    ensures ReadsAs(q + more, pos, items, outLen, |q|)
    decreases |items|
  {
    hide Spells;
    hide WireEnd;
    hide Undotted;
    hide Parse;
    hide WellFormed;
    hide Labels;
    if items == [] {
      assert pos == |q|;
    } else {
      var item, next := items[0], WireEnd(q, pos);
      var p, after := q + more, next + |item.data|;
      ReadBack(q, more, pos, item.name, outLen);
      PrefixSlice(q, more, next, after);
      ReadAll(q, more, after, items[1..], outLen);
      assert p[next..after] == item.data;
    }
  }

  /** A name has been written behind the items that are there, and bytes behind the name. */
  lemma ItemWritten(q: seq<byte>, w: seq<byte>, start: nat, items: seq<Item>, item: Item)
    requires Holds(q, start, items) && |q| <= |w| && w[..|q|] == q
    requires Spells(w, |q|, |q|, Labels(item.name)) && WireEnd(w, |q|) == |w|
    ensures Holds(w + item.data, start, items + [item])
  {
    hide Spells;
    hide WireEnd;
    hide Holds;
    var tail := w[|q|..];
    assert w == q + tail;
    HoldsLast(w, item.data, |q|, item.name);
    assert w + item.data == q + (tail + item.data);
    HoldsMore(q, tail + item.data, start, items, item);
  }

  /** A name that can be sent: not too long, and no label too long. */
  predicate Sendable(name: Name) {
    |name| <= MAX_NAME && !TooLong(name)
  }

  /** The most space that an item takes. */
  function Need(item: Item): nat {
    |item.name| + 2 + |item.data|
  }

  function NeedAll(items: seq<Item>): nat {
    if items == [] then 0 else NeedAll(items[..|items| - 1]) + Need(items[|items| - 1])
  }

  lemma {:induction false} NeedPrefix(items: seq<Item>, i: nat)
    requires i <= |items|
    ensures NeedAll(items[..i]) <= NeedAll(items)
  {
    if i < |items| {
      NeedPrefix(items[..|items| - 1], i);
      assert items[..|items| - 1][..i] == items[..i];
    } else {
      assert items[..i] == items;
    }
  }

  /** Where items end that are written from `start` on, and what is remembered then. */
  ghost function PacketAfter(start: nat, items: seq<Item>): (nat, seq<Entry>) {
    if items == [] then (start, [])
    else
      var n := |items| - 1;
      var (j, labels) := PacketAfter(start, items[..n]);
      (j + SizeOf(labels, items[n].name) + |items[n].data|, TableAfter(labels, items[n].name, j))
  }

  lemma {:induction false} PacketGrows(start: nat, items: seq<Item>, i: nat)
    requires i <= |items|
    ensures PacketAfter(start, items[..i]).0 <= PacketAfter(start, items).0
    decreases |items|
  {
    hide SizeOf;
    hide TableAfter;
    if i == |items| {
      assert items[..i] == items;
    } else {
      PacketGrows(start, items[..|items| - 1], i);
      assert items[..|items| - 1][..i] == items[..i];
    }
  }

  /** One more item. */
  lemma PacketStep(start: nat, items: seq<Item>, i: nat)
    requires i < |items|
    ensures items[..i + 1] == items[..i] + [items[i]]
    ensures var (j, labels) := PacketAfter(start, items[..i]);
      && PacketAfter(start, items[..i + 1]) ==
           (j + SizeOf(labels, items[i].name) + |items[i].data|, TableAfter(labels, items[i].name, j))
      && j + SizeOf(labels, items[i].name) + |items[i].data| <= PacketAfter(start, items).0
    ensures NeedAll(items[..i + 1]) == NeedAll(items[..i]) + Need(items[i]) <= NeedAll(items)
  {
    hide SizeOf;
    hide TableAfter;
    assert items[..i + 1][..i] == items[..i];
    PacketGrows(start, items, i + 1);
    NeedPrefix(items, i + 1);
  }

  /** A name that is written a second time takes two bytes. */
  lemma TwiceWritten(start: nat, name: Name, d: seq<byte>, e: seq<byte>)
    requires Roomy([], name, start)
    ensures PacketAfter(start, [Item(name, d), Item(name, e)]).0 == start + SizeOf([], name) + |d| + 2 + |e|
  {
    var items := [Item(name, d), Item(name, e)];
    assert items[..1] == [Item(name, d)] && items[..1][..0] == [];
    assert PacketAfter(start, []) == (start, []);
    assert PacketAfter(start, items[..1]) == (start + SizeOf([], name) + |d|, TableAfter([], name, start));
    assert name == [] + name[0..];
    RestShared([], name, start, 0, [], name);
  }

  /** What has been written of these items. */
  ghost predicate SoFar(q: seq<byte>, labels: seq<Entry>, start: nat, items: seq<Item>) {
    && TableOk(labels, q) && Holds(q, start, items) && start <= |q| <= start + NeedAll(items)
    && (|q|, labels) == PacketAfter(start, items)
  }

  /** Writes one item behind others. */
  method WriteItem(buf: array<byte>, bufLen: nat, start: nat, j: nat, item: Item, table: LabelTable,
                   ghost items: seq<Item>) returns (r: int)
    requires start <= j <= bufLen < buf.Length && bufLen <= POINTERS && WellFormed(item.name)
    requires SoFar(buf[..j], table.labels, start, items)
    modifies buf, table
    ensures r < 0 || j <= r <= bufLen
    ensures r >= 0 ==> buf[..j] == old(buf[..j])
    ensures r >= 0 ==> SoFar(buf[..r], table.labels, start, items + [item])
    ensures r >= 0 ==> r == j + SizeOf(old(table.labels), item.name) + |item.data|
    ensures r >= 0 ==> table.labels == TableAfter(old(table.labels), item.name, j)
    ensures r < 0 ==> !Sendable(item.name) || j + SizeOf(old(table.labels), item.name) + |item.data| > bufLen
    ensures r < 0 ==> !Sendable(item.name) || j + Need(item) > bufLen
  {
    hide SizeOf;
    hide TableAfter;
    hide StopAt;
    hide ShortBefore;
    hide Holds;
    hide WellFormed;
    hide Spells;
    hide WireEnd;
    hide TableOk;
    hide TooLong;
    hide PacketAfter;
    hide NeedAll;
    var n := NameToLabels(buf, bufLen, j, item.name, table);
    if n < 0 || n + |item.data| > bufLen {
      return -1;
    }
    ghost var w := buf[..n];
    assert w[..j] == buf[..j];
    ItemWritten(old(buf[..j]), w, start, items, item);
    TableMore(table.labels, w, item.data);
    Append(buf, j, n, item.data);
    r := n + |item.data|;
    PacketStep(start, items + [item], |items|);
    assert (items + [item])[..|items|] == items && (items + [item])[..|items| + 1] == items + [item];
  }

  /** Writes items as `evdns_server_request_format_response` does: each name through one table, then
      the bytes that follow it.  It fails exactly when a name can not be sent or there is not enough space. */
  method WriteItems(buf: array<byte>, bufLen: nat, start: nat, items: seq<Item>, table: LabelTable) returns (r: int)
    requires start <= bufLen < buf.Length && bufLen <= POINTERS && table.labels == []
    requires forall i | 0 <= i < |items| :: WellFormed(items[i].name)
    modifies buf, table
    ensures r < 0 || (start <= r <= bufLen && buf[..start] == old(buf[..start]))
    ensures r >= 0 ==> Holds(buf[..r], start, items)
    ensures r >= 0 ==> (r, table.labels) == PacketAfter(start, items)
    ensures r < 0 ==> (exists i | 0 <= i < |items| :: !Sendable(items[i].name)) || PacketAfter(start, items).0 > bufLen
    ensures r < 0 ==> (exists i | 0 <= i < |items| :: !Sendable(items[i].name)) || start + NeedAll(items) > bufLen
  {
    hide WellFormed;
    r := start;
    var i := 0;
    NothingHeld(buf[..start]);
    assert items[..0] == [];
    hide SoFar;
    hide PacketAfter;
    hide NeedAll;
    hide Need;
    hide SizeOf;
    hide TableAfter;
    hide Holds;
    hide Sendable;
    while i < |items|
      invariant 0 <= i <= |items| && start <= r <= bufLen && buf[..start] == old(buf[..start])
      invariant SoFar(buf[..r], table.labels, start, items[..i])
    {
      ghost var j, labels := r, table.labels;
      Beginning(buf[..j], labels, start, items[..i]);
      PacketStep(start, items, i);
      r := WriteItem(buf, bufLen, start, r, items[i], table, items[..i]);
      if r < 0 {
        return;
      }
      assert buf[..start] == buf[..j][..start];
      i := i + 1;
    }
    assert items[..i] == items;
    Beginning(buf[..r], table.labels, start, items);
  }

  lemma Beginning(q: seq<byte>, labels: seq<Entry>, start: nat, items: seq<Item>)
    requires SoFar(q, labels, start, items)
    ensures (|q|, labels) == PacketAfter(start, items) && |q| <= start + NeedAll(items) && Holds(q, start, items)
  {
  }

  lemma NothingHeld(q: seq<byte>)
    ensures SoFar(q, [], |q|, [])
  {
  }

  /** Writing items and reading them: every name comes back, and the reader ends where the writer did,
      whatever follows in the packet. */
  method WriteThenRead(buf: array<byte>, bufLen: nat, start: nat, items: seq<Item>, table: LabelTable,
                       ghost more: seq<byte>, ghost outLen: nat) returns (r: int)
    requires start <= bufLen < buf.Length && bufLen <= POINTERS && table.labels == []
    requires forall i | 0 <= i < |items| :: WellFormed(items[i].name)
    modifies buf, table
    ensures r < 0 || (start <= r <= buf.Length && ReadsAs(buf[..r] + more, start, items, outLen, r))
    ensures r >= 0 ==> r == PacketAfter(start, items).0 <= bufLen
    ensures r < 0 ==> (exists i | 0 <= i < |items| :: !Sendable(items[i].name)) || PacketAfter(start, items).0 > bufLen
    ensures r < 0 ==> (exists i | 0 <= i < |items| :: !Sendable(items[i].name)) || start + NeedAll(items) > bufLen
  {
    hide Holds;
    hide ReadsAs;
    hide WellFormed;
    r := WriteItems(buf, bufLen, start, items, table);
    if r >= 0 {
      ReadAll(buf[..r], more, start, items, outLen);
    }
  }
}
