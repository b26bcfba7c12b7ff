/** `evmap.c`: how many events wait on each descriptor, and the list of changes to make to the
    kernel's interest sets at the next dispatch. */
module EvMap {
  import opened Basics
  import opened EpollTable

  const INT_MAX: nat := 0x7fff_ffff
  const POINTER_SIZE: nat := 8
  const COUNT_MAX: nat := 0xffff

  /** An event, as far as the map looks at it. */
  datatype Event = Event(id: nat, fd: int, kinds: Kinds)

  /** `struct evmap_io`, followed by its `event_changelist_fdinfo`. */
  datatype Slot = NoSlot | Slot(nread: nat, nwrite: nat, nclose: nat, events: seq<Event>, idxplus1: nat)
  {
    /** The interests with a count that is not zero. */
    function Wanted(): Kinds {
      if NoSlot? then O else Kinds(nread > 0, nwrite > 0, nclose > 0)
    }

    /** Every count is the number of events with that interest. */
    ghost predicate CountsOk() {
      Slot? ==> nread == CountRead(events) && nwrite == CountWrite(events) && nclose == CountClosed(events)
    }
  }

  function CountRead(evs: seq<Event>): nat {
    if evs == [] then 0 else One(evs[0].kinds.read) + CountRead(evs[1..])
  }

  function CountWrite(evs: seq<Event>): nat {
    if evs == [] then 0 else One(evs[0].kinds.write) + CountWrite(evs[1..])
  }

  function CountClosed(evs: seq<Event>): nat {
    if evs == [] then 0 else One(evs[0].kinds.closed) + CountClosed(evs[1..])
  }

  /** The interests that some of these events have. */
  ghost function KindsOf(evs: seq<Event>): Kinds {
    Kinds(CountRead(evs) > 0, CountWrite(evs) > 0, CountClosed(evs) > 0)
  }

  /** More events with one interest than a count can hold. */
  ghost predicate TooMany(evs: seq<Event>) {
    CountRead(evs) > COUNT_MAX || CountWrite(evs) > COUNT_MAX || CountClosed(evs) > COUNT_MAX
  }

  /** Removing one event takes its interests off the counts. */
  lemma {:induction false} CountRemove(evs: seq<Event>, k: nat)
    requires k < |evs|
    ensures var rest := evs[..k] + evs[k + 1..];
      && CountRead(evs) == CountRead(rest) + One(evs[k].kinds.read)
      && CountWrite(evs) == CountWrite(rest) + One(evs[k].kinds.write)
      && CountClosed(evs) == CountClosed(rest) + One(evs[k].kinds.closed)
  {
    var rest := evs[..k] + evs[k + 1..];
    if k == 0 {
      assert rest == evs[1..];
    } else {
      CountRemove(evs[1..], k - 1);
      assert rest[0] == evs[0];
      assert rest[1..] == evs[1..][..k - 1] + evs[1..][k..];
    }
  }

  /** Adding an event in front. */
  lemma CountCons(ev: Event, evs: seq<Event>)
    ensures CountRead([ev] + evs) == CountRead(evs) + One(ev.kinds.read)
    ensures CountWrite([ev] + evs) == CountWrite(evs) + One(ev.kinds.write)
    ensures CountClosed([ev] + evs) == CountClosed(evs) + One(ev.kinds.closed)
  {
    assert ([ev] + evs)[1..] == evs;
  }

  /** A count is positive exactly when some event has the interest. */
  lemma {:induction false} CountPositive(evs: seq<Event>)
    ensures CountRead(evs) > 0 <==> exists i | 0 <= i < |evs| :: evs[i].kinds.read
    ensures CountWrite(evs) > 0 <==> exists i | 0 <= i < |evs| :: evs[i].kinds.write
    ensures CountClosed(evs) > 0 <==> exists i | 0 <= i < |evs| :: evs[i].kinds.closed
  {
    if evs != [] {
      var t := evs[1..];
      CountPositive(t);
      assert forall i | 0 < i < |evs| :: evs[i] == t[i - 1];
      assert forall i | 0 <= i < |t| :: t[i] == evs[i + 1];
    }
  }

  /** The interest set of a descriptor in a kernel that knows these. */
  ghost function SetOf(kernel: map<int, Kinds>, fd: int): Kinds {
    if fd in kernel then kernel[fd] else O
  }

  /** A change starts from what the kernel has and leads to what is wanted. */
  ghost predicate ChangeOk(c: Change, fd: int, has: Kinds, wanted: Kinds) {
    c.fd == fd && c.Sensible() && c.DeletesOld() && c.had == has && c.Effect() == wanted
  }

  /** All events of a slot are on the descriptor `fd`. */
  ghost predicate OwnEvents(s: Slot, fd: int) {
    s.Slot? ==> forall i | 0 <= i < |s.events| :: s.events[i].fd == fd
  }

  /** The entry of a descriptor agrees with its events, its change and the kernel. */
  ghost predicate EntryOk(entries: seq<Slot>, changes: seq<Change>, has: Kinds, fd: nat)
    requires fd < |entries|
  {
    var s := entries[fd];
    && s.CountsOk() && OwnEvents(s, fd)
    && (s.NoSlot? || s.idxplus1 == 0 ==> has == s.Wanted())
    && (s.Slot? && s.idxplus1 > 0 ==>
          s.idxplus1 <= |changes| && ChangeOk(changes[s.idxplus1 - 1], fd, has, s.Wanted()))
  }

  /** The change at index `i` is the one its descriptor points back to. */
  ghost predicate BackOk(entries: seq<Slot>, changes: seq<Change>, i: nat)
    requires i < |changes|
  {
    var fd := changes[i].fd;
    0 <= fd < |entries| && entries[fd].Slot? && entries[fd].idxplus1 == i + 1
  }

  /** All entries are in order, but perhaps that of `except`. */
  ghost predicate MapOk(entries: seq<Slot>, changes: seq<Change>, kernel: map<int, Kinds>, except: int) {
    && (forall fd | 0 <= fd < |entries| && fd != except :: EntryOk(entries, changes, SetOf(kernel, fd), fd))
    && (forall i | 0 <= i < |changes| :: BackOk(entries, changes, i))
    && (forall fd | fd in kernel && kernel[fd] != O :: 0 <= fd < |entries|)
  }

  const NOBODY: int := -1

  const TABLE_MIN: nat := 32
  const TABLE_MAX: nat := 0x800_0000

  /** The least size of a table, doubled some number of times. */
  predicate Doubled(n: nat) {
    n == TABLE_MIN || (n > TABLE_MIN && n % 2 == 0 && Doubled(n / 2))
  }

  predicate TableSize(n: nat) {
    n == 0 || (Doubled(n) && n <= TABLE_MAX)
  }

  /** There is no size of a table between one and its double. */
  lemma {:induction false} DoubledGap(n: nat, p: nat)
    requires Doubled(n) && Doubled(p) && n > p
    ensures n >= 2 * p
  {
    if p > TABLE_MIN {
      DoubledGap(n / 2, p / 2);
    }
  }

  lemma LargestTable()
    ensures Doubled(TABLE_MAX)
  {
    assert Doubled(0x400) && Doubled(0x8000);
    assert Doubled(0x10_0000);
  }

  /** The parts of `struct event_base` that belong to descriptors. */
  class IoMap {
    var entries: seq<Slot>
    var changes: seq<Change>
    var changesSize: nat
    /** The kernel's interest set of every descriptor that has one. */
    ghost var kernel: map<int, Kinds>
    /** The interest sets of a backend that makes every change at once. */
    ghost var direct: map<int, Kinds>

    /** The interests that the events on a descriptor ask for. */
    function Wanted(fd: int): Kinds
      reads this
    {
      if 0 <= fd < |entries| then entries[fd].Wanted() else O
    }

    /** The events that wait on a descriptor. */
    function Events(fd: int): seq<Event>
      reads this
    {
      if 0 <= fd < |entries| && entries[fd].Slot? then entries[fd].events else []
    }

    ghost predicate ValidExcept(fd: int)
      reads this
    {
      && |changes| <= changesSize && TableSize(|entries|)
      && MapOk(entries, changes, kernel, fd)
      && (forall g | 0 <= g && g != fd :: SetOf(direct, g) == Wanted(g))
    }

    ghost predicate Valid()
      reads this
    {
      ValidExcept(NOBODY)
    }

    constructor ()
      ensures Valid() && forall fd :: Events(fd) == [] && SetOf(kernel, fd) == O
    {
      entries, changes, changesSize := [], [], 0;
      kernel, direct := map[], map[];
    }
  }

  /** `evmap_make_space`: there are never more than 2^27 entries, so that it fails exactly for the
      descriptors from there on. */
  method MakeSpace(m: IoMap, slot: nat) returns (result: int)
    requires m.Valid()
    modifies m`entries
    ensures m.Valid()
    ensures result == if slot >= TABLE_MAX then -1 else 0
    ensures result == 0 ==> slot < |m.entries|
    ensures if slot < |old(m.entries)| || result == -1 then m.entries == old(m.entries)
            else |m.entries| == TABLE_MIN || |m.entries| <= 2 * slot
    ensures forall fd :: m.Events(fd) == old(m.Events(fd)) && m.Wanted(fd) == old(m.Wanted(fd))
  {
    if |m.entries| <= slot {
      var nentries := if m.entries != [] then |m.entries| else 32;
      if slot > INT_MAX / 2 {
        return -1;
      }
      while nentries <= slot
        invariant Doubled(nentries) && nentries >= |m.entries|
        invariant nentries == |m.entries| || nentries <= 32 || nentries <= 2 * slot
        decreases slot - nentries
      {
        nentries := nentries * 2;
      }
      LargestTable();
      if nentries > TABLE_MAX {
        DoubledGap(nentries, TABLE_MAX);
      }
      if nentries > INT_MAX / POINTER_SIZE {
        return -1;
      }
      ghost var was := m.entries;
      m.entries := m.entries + seq(nentries - |m.entries|, i => NoSlot);
      Extended(was, m.entries, m.changes, m.kernel);
    }
    result := 0;
  }

  /** New entries without slot are in order. */
  lemma Extended(was: seq<Slot>, entries: seq<Slot>, changes: seq<Change>, kernel: map<int, Kinds>)
    requires MapOk(was, changes, kernel, NOBODY)
    requires |was| <= |entries| && forall fd | 0 <= fd < |was| :: entries[fd] == was[fd]
    requires forall fd | |was| <= fd < |entries| :: entries[fd] == NoSlot
    ensures MapOk(entries, changes, kernel, NOBODY)
  {
    forall fd | 0 <= fd < |entries|
      ensures EntryOk(entries, changes, SetOf(kernel, fd), fd)
    {
      assert fd < |was| ==> EntryOk(was, changes, SetOf(kernel, fd), fd);
    }
    forall i | 0 <= i < |changes|
      ensures BackOk(entries, changes, i)
    {
      assert BackOk(was, changes, i);
    }
  }

  /** When only the entry and the change of `fd` are different, all others stay in order. */
  lemma Reframe(was: seq<Slot>, chs: seq<Change>, entries: seq<Slot>, changes: seq<Change>,
                kernel: map<int, Kinds>, fd: nat)
    requires MapOk(was, chs, kernel, NOBODY) || MapOk(was, chs, kernel, fd)
    requires |entries| == |was| && fd < |was| && |changes| == |chs|
    requires forall g | 0 <= g < |was| && g != fd :: entries[g] == was[g]
    requires forall i | 0 <= i < |chs| :: changes[i].fd == chs[i].fd
    requires forall i | 0 <= i < |chs| && chs[i].fd != fd :: changes[i] == chs[i]
    requires was[fd].Slot? ==> entries[fd].Slot? && entries[fd].idxplus1 == was[fd].idxplus1
    ensures MapOk(entries, changes, kernel, fd)
  {
    forall g | 0 <= g < |entries| && g != fd
      ensures EntryOk(entries, changes, SetOf(kernel, g), g)
    {
      assert EntryOk(was, chs, SetOf(kernel, g), g);
    }
    forall i | 0 <= i < |changes|
      ensures BackOk(entries, changes, i)
    {
      assert BackOk(was, chs, i);
    }
  }

  function Union(a: Kinds, b: Kinds): Kinds {
    Kinds(a.read || b.read, a.write || b.write, a.closed || b.closed)
  }

  function Minus(a: Kinds, b: Kinds): Kinds {
    Kinds(a.read && !b.read, a.write && !b.write, a.closed && !b.closed)
  }

  /** The change that adds, or deletes, these interests and nothing else. */
  ghost function Single(fd: int, had: Kinds, kinds: Kinds, flags: Flags): Change {
    Change(fd, had, if kinds.read then flags else NO_CHANGE, if kinds.write then flags else NO_CHANGE,
           if kinds.closed then flags else NO_CHANGE)
  }

  lemma SingleMeaning(fd: int, had: Kinds, kinds: Kinds)
    ensures var c := Single(fd, had, kinds, ADD); c.had == had && c.Sensible() && c.Effect() == Union(had, kinds)
    ensures var c := Single(fd, had, kinds, DEL); c.had == had && c.Sensible() && c.Effect() == Minus(had, kinds)
  {
  }

  /** `GET_IO_SLOT_AND_CTOR`. */
  method GetSlot(m: IoMap, fd: nat)
    requires m.Valid() && fd < |m.entries|
    modifies m`entries
    ensures m.Valid() && |m.entries| == |old(m.entries)| && m.entries[fd].Slot?
    ensures forall g :: m.Events(g) == old(m.Events(g)) && m.Wanted(g) == old(m.Wanted(g))
  {
    if m.entries[fd].NoSlot? {
      ghost var was := m.entries;
      m.entries := m.entries[fd := Slot(0, 0, 0, [], 0)];
      Reframe(was, m.changes, m.entries, m.changes, m.kernel, fd);
      assert EntryOk(was, m.changes, SetOf(m.kernel, fd), fd);
    }
  }

  /** `event_changelist_grow`. */
  method Grow(m: IoMap)
    requires m.Valid()
    modifies m`changesSize
    ensures m.Valid() && m.changesSize == if old(m.changesSize) < 64 then 64 else 2 * old(m.changesSize)
  {
    m.changesSize := if m.changesSize < 64 then 64 else m.changesSize * 2;
  }

  /** `event_changelist_get_or_construct`: the index of the change for `fd`. */
  method GetOrConstruct(m: IoMap, fd: nat, had: Kinds) returns (idx: nat)
    requires m.Valid() && fd < |m.entries| && m.entries[fd].Slot? && had == m.Wanted(fd)
    modifies m`entries, m`changes, m`changesSize
    ensures m.Valid()
    ensures m.entries == old(m.entries)[fd := old(m.entries)[fd].(idxplus1 := idx + 1)]
    ensures idx < |m.changes| && m.changes[idx].fd == fd
    ensures if old(m.entries)[fd].idxplus1 > 0 then m.changes == old(m.changes)
            else m.changes == old(m.changes) + [Change(fd, had, NO_CHANGE, NO_CHANGE, NO_CHANGE)]
    ensures m.changesSize > old(m.changesSize) ==> |old(m.changes)| == old(m.changesSize)
  {
    if m.entries[fd].idxplus1 == 0 {
      if |m.changes| == m.changesSize {
        Grow(m);
      }
      idx := |m.changes|;
      Construct(m, fd, had);
    } else {
      idx := m.entries[fd].idxplus1 - 1;
      assert EntryOk(m.entries, m.changes, SetOf(m.kernel, fd), fd);
    }
  }

  /** Adds an empty change for a descriptor without one. */
  method Construct(m: IoMap, fd: nat, had: Kinds)
    requires m.Valid() && fd < |m.entries| && m.entries[fd].Slot? && had == m.Wanted(fd)
    requires m.entries[fd].idxplus1 == 0 && |m.changes| < m.changesSize
    modifies m`entries, m`changes
    ensures m.Valid()
    ensures m.entries == old(m.entries)[fd := old(m.entries)[fd].(idxplus1 := |old(m.changes)| + 1)]
    ensures m.changes == old(m.changes) + [Change(fd, had, NO_CHANGE, NO_CHANGE, NO_CHANGE)]
  {
    ghost var was, chs := m.entries, m.changes;
    m.changes := m.changes + [Change(fd, had, NO_CHANGE, NO_CHANGE, NO_CHANGE)];
    m.entries := m.entries[fd := m.entries[fd].(idxplus1 := |m.changes|)];
    forall g | 0 <= g < |m.entries|
      ensures EntryOk(m.entries, m.changes, SetOf(m.kernel, g), g)
    {
      assert EntryOk(was, chs, SetOf(m.kernel, g), g);
    }
    forall i | 0 <= i < |m.changes|
      ensures BackOk(m.entries, m.changes, i)
    {
      assert i < |chs| ==> BackOk(was, chs, i);
    }
  }

  /** A slot with this place in the list of changes may ask for `wanted`. */
  ghost predicate Agreed(m: IoMap, fd: nat, idxplus1: nat, wanted: Kinds)
    reads m
  {
    && SetOf(m.direct, fd) == wanted
    && (idxplus1 == 0 ==> SetOf(m.kernel, fd) == wanted)
    && (idxplus1 > 0 ==> idxplus1 <= |m.changes| &&
                         ChangeOk(m.changes[idxplus1 - 1], fd, SetOf(m.kernel, fd), wanted))
  }

  /** What queueing an addition or a deletion leaves: a change for `fd` with this effect. */
  twostate predicate Queued(m: IoMap, fd: nat, effect: Kinds)
    reads m
  {
    && m.ValidExcept(fd)
    && fd < |old(m.entries)| && old(m.entries)[fd].Slot? && |m.entries| == |old(m.entries)|
    && m.entries[fd].Slot? && m.entries == old(m.entries)[fd := old(m.entries)[fd].(idxplus1 := m.entries[fd].idxplus1)]
    && Agreed(m, fd, m.entries[fd].idxplus1, effect)
  }

  /** Replaces the change of `fd`.  A direct backend makes the single change at once, through the same
      table; both come to the same. */
  method PutChange(m: IoMap, fd: nat, idx: nat, c: Change, ghost single: Change)
    requires m.Valid() && fd < |m.entries| && m.entries[fd].Slot? && m.entries[fd].idxplus1 == idx + 1
    requires idx < |m.changes| && m.changes[idx].fd == fd
    requires single.had == m.Wanted(fd) && single.Sensible()
    requires ChangeOk(c, fd, SetOf(m.kernel, fd), single.Effect())
    modifies m`changes, m`direct
    ensures m.ValidExcept(fd) && SetOf(m.direct, fd) == single.Effect()
    ensures m.changes == old(m.changes)[idx := c]
  {
    hide TableEntry, TableIndex;
    ghost var chs, dir := m.changes, m.direct;
    m.changes := m.changes[idx := c];
    TableMeaning(single);
    m.direct := m.direct[fd := TableEntry(TableIndex(single)).Result(SetOf(m.direct, fd))];
    assert forall i | 0 <= i < |chs| :: BackOk(m.entries, chs, i);
    Reframe(m.entries, chs, m.entries, m.changes, m.kernel, fd);
    forall g | 0 <= g && g != fd
      ensures SetOf(m.direct, g) == m.Wanted(g)
    {
      assert SetOf(dir, g) == m.Wanted(g);
    }
  }

  /** `event_changelist_add_`. */
  method ChangelistAdd(m: IoMap, fd: nat, had: Kinds, kinds: Kinds)
    requires m.Valid() && fd < |m.entries| && m.entries[fd].Slot? && had == m.Wanted(fd)
    modifies m`entries, m`changes, m`changesSize, m`direct
    ensures Queued(m, fd, Union(had, kinds))
  {
    hide Single;
    hide MapOk;
    SingleMeaning(fd, had, kinds);
    var idx := GetOrConstruct(m, fd, had);
    EntryFacts(m, fd);
    var change := m.changes[idx];
    if kinds.read {
      change := change.(read := ADD);
    }
    if kinds.write {
      change := change.(write := ADD);
    }
    if kinds.closed {
      change := change.(close := ADD);
    }
    PutChange(m, fd, idx, change, Single(fd, had, kinds, ADD));
  }

  /** `event_changelist_del_`: deleting what was not there before drops the change instead. */
  method ChangelistDel(m: IoMap, fd: nat, had: Kinds, kinds: Kinds)
    requires m.Valid() && fd < |m.entries| && m.entries[fd].Slot? && had == m.Wanted(fd)
    modifies m`entries, m`changes, m`changesSize, m`direct
    ensures Queued(m, fd, Minus(had, kinds))
  {
    hide Single;
    hide MapOk;
    SingleMeaning(fd, had, kinds);
    var idx := GetOrConstruct(m, fd, had);
    EntryFacts(m, fd);
    var change := m.changes[idx];
    if kinds.read {
      change := change.(read := if change.had.read then DEL else NO_CHANGE);
    }
    if kinds.write {
      change := change.(write := if change.had.write then DEL else NO_CHANGE);
    }
    if kinds.closed {
      change := change.(close := if change.had.closed then DEL else NO_CHANGE);
    }
    PutChange(m, fd, idx, change, Single(fd, had, kinds, DEL));
  }

  /** Stores new counts and events for `fd`, which make its entry agree with its change. */
  method PutEntry(m: IoMap, fd: nat, s: Slot)
    requires m.ValidExcept(fd) && fd < |m.entries| && m.entries[fd].Slot?
    requires s.Slot? && s.idxplus1 == m.entries[fd].idxplus1 && s.CountsOk()
    requires OwnEvents(s, fd)
    requires Agreed(m, fd, s.idxplus1, s.Wanted())
    modifies m`entries
    ensures m.Valid() && m.entries == old(m.entries)[fd := s]
  {
    ghost var was := m.entries;
    m.entries := m.entries[fd := s];
    Reframe(was, m.changes, m.entries, m.changes, m.kernel, fd);
    forall g | 0 <= g && g != fd
      ensures SetOf(m.direct, g) == m.Wanted(g)
    {
      assert m.Wanted(g) == if g < |was| then was[g].Wanted() else O;
    }
  }

  /** What an entry in order says. */
  lemma EntryFacts(m: IoMap, fd: nat)
    requires m.Valid() && fd < |m.entries| && m.entries[fd].Slot?
    ensures var s := m.entries[fd];
      && m.ValidExcept(fd) && s.CountsOk() && OwnEvents(s, fd) && Agreed(m, fd, s.idxplus1, s.Wanted())
  {
    assert EntryOk(m.entries, m.changes, SetOf(m.kernel, fd), fd);
    assert SetOf(m.direct, fd) == m.Wanted(fd);
  }

  /** What a descriptor wants is what its events want. */
  lemma WantedIs(m: IoMap, fd: int)
    requires m.Valid()
    ensures m.Wanted(fd) == KindsOf(m.Events(fd))
  {
    if 0 <= fd < |m.entries| && m.entries[fd].Slot? {
      EntryFacts(m, fd);
    }
  }

  /** An event on a descriptor where these wait is refused: there is no entry for the descriptor, or a
      count would be too large. */
  ghost predicate Refused(ev: Event, evs: seq<Event>) {
    ev.fd >= 0 && (ev.fd >= TABLE_MAX || TooMany([ev] + evs))
  }

  /** `evmap_io_add_`: -1 for an error, 1 if the backend was told, 0 if not. */
  method IoAdd(m: IoMap, ev: Event) returns (retval: int)
    requires m.Valid()
    modifies m
    ensures m.Valid() && m.kernel == old(m.kernel)
    ensures retval != -1 && ev.fd >= 0 ==> m.Events(ev.fd) == [ev] + old(m.Events(ev.fd))
    ensures retval == -1 || ev.fd < 0 ==> m.Events(ev.fd) == old(m.Events(ev.fd))
    ensures forall g | g != ev.fd :: m.Events(g) == old(m.Events(g))
    ensures retval == -1 <==> Refused(ev, old(m.Events(ev.fd)))
    ensures retval == 1 <==> retval != -1 && ev.fd >= 0 && m.Wanted(ev.fd) != old(m.Wanted(ev.fd))
    ensures -1 <= retval <= 1
  {
    if ev.fd < 0 {
      return 0;
    }
    var result := MakeSpace(m, ev.fd);
    if result == -1 {
      return -1;
    }
    GetSlot(m, ev.fd);
    retval := AddToSlot(m, ev);
  }

  /** The part of `evmap_io_add_` that counts, tells the backend and links the event. */
  method AddToSlot(m: IoMap, ev: Event) returns (retval: int)
    requires m.Valid() && 0 <= ev.fd < |m.entries| && m.entries[ev.fd].Slot?
    modifies m`entries, m`changes, m`changesSize, m`direct
    ensures m.Valid()
    ensures retval != -1 ==> m.Events(ev.fd) == [ev] + old(m.Events(ev.fd))
    ensures retval == -1 ==> m.entries == old(m.entries)
    ensures retval == -1 <==> TooMany([ev] + old(m.Events(ev.fd)))
    ensures forall g | g != ev.fd :: m.Events(g) == old(m.Events(g))
    ensures retval == 1 <==> retval != -1 && m.Wanted(ev.fd) != old(m.Wanted(ev.fd))
    ensures -1 <= retval <= 1
  {
    hide MapOk;
    hide Agreed;
    hide CountRead;
    hide CountWrite;
    hide CountClosed;
    hide IoMap.ValidExcept;
    var fd, ctx := ev.fd, m.entries[ev.fd];
    EntryFacts(m, fd);
    CountCons(ev, ctx.events);
    var nread, nwrite, nclose := ctx.nread, ctx.nwrite, ctx.nclose;
    var had := Kinds(nread > 0, nwrite > 0, nclose > 0);
    var res := O;
    if ev.kinds.read {
      nread := nread + 1;
      res := res.(read := nread == 1);
    }
    if ev.kinds.write {
      nwrite := nwrite + 1;
      res := res.(write := nwrite == 1);
    }
    if ev.kinds.closed {
      nclose := nclose + 1;
      res := res.(closed := nclose == 1);
    }
    if nread > COUNT_MAX || nwrite > COUNT_MAX || nclose > COUNT_MAX {
      return -1;
    }
    retval := 0;
    if res != O {
      ChangelistAdd(m, fd, had, res);
      retval := 1;
    }
    PutEntry(m, fd, Slot(nread, nwrite, nclose, [ev] + ctx.events, m.entries[fd].idxplus1));
  }

  /** `evmap_io_del_`; `k` is where the event is on the list of its descriptor. */
  method IoDel(m: IoMap, ev: Event, k: nat) returns (retval: int)
    requires m.Valid()
    requires 0 <= ev.fd < |m.entries| ==> k < |m.Events(ev.fd)| && m.Events(ev.fd)[k] == ev
    modifies m
    ensures m.Valid() && m.kernel == old(m.kernel)
    ensures 0 <= ev.fd < |old(m.entries)| ==>
              m.Events(ev.fd) == old(m.Events(ev.fd)[..k] + m.Events(ev.fd)[k + 1..])
    ensures forall g | g != ev.fd :: m.Events(g) == old(m.Events(g))
    ensures retval == -1 <==> ev.fd >= |old(m.entries)|
    ensures retval == 1 <==> 0 <= ev.fd < |old(m.entries)| && m.Wanted(ev.fd) != old(m.Wanted(ev.fd))
    ensures -1 <= retval <= 1
  {
    if ev.fd < 0 {
      return 0;
    }
    if ev.fd >= |m.entries| {
      return -1;
    }
    retval := DelFromSlot(m, ev, k);
  }

  /** The part of `evmap_io_del_` that counts, tells the backend and unlinks the event. */
  method DelFromSlot(m: IoMap, ev: Event, k: nat) returns (retval: int)
    requires m.Valid() && 0 <= ev.fd < |m.entries|
    requires k < |m.Events(ev.fd)| && m.Events(ev.fd)[k] == ev
    modifies m`entries, m`changes, m`changesSize, m`direct
    ensures m.Valid()
    ensures m.Events(ev.fd) == old(m.Events(ev.fd)[..k] + m.Events(ev.fd)[k + 1..])
    ensures forall g | g != ev.fd :: m.Events(g) == old(m.Events(g))
    ensures retval == if m.Wanted(ev.fd) != old(m.Wanted(ev.fd)) then 1 else 0
  {
    hide MapOk;
    hide Agreed;
    hide CountRead;
    hide CountWrite;
    hide CountClosed;
    hide IoMap.ValidExcept;
    var fd, ctx := ev.fd, m.entries[ev.fd];
    EntryFacts(m, fd);
    CountRemove(ctx.events, k);
    var nread: nat, nwrite: nat, nclose: nat := ctx.nread, ctx.nwrite, ctx.nclose;
    var had := Kinds(nread > 0, nwrite > 0, nclose > 0);
    var res := O;
    if ev.kinds.read {
      nread := nread - 1;
      res := res.(read := nread == 0);
    }
    if ev.kinds.write {
      nwrite := nwrite - 1;
      res := res.(write := nwrite == 0);
    }
    if ev.kinds.closed {
      nclose := nclose - 1;
      res := res.(closed := nclose == 0);
    }
    retval := 0;
    if res != O {
      ChangelistDel(m, fd, had, res);
      retval := 1;
    }
    PutEntry(m, fd, Slot(nread, nwrite, nclose, ctx.events[..k] + ctx.events[k + 1..], m.entries[fd].idxplus1));
  }

  /** The kernel's sets are what the events on every descriptor ask for. */
  ghost predicate Synchronised(m: IoMap)
    reads m
  {
    && m.changes == []
    && forall fd | 0 <= fd ::
         && SetOf(m.kernel, fd) == SetOf(m.direct, fd)
         && (SetOf(m.kernel, fd).read <==> exists i | 0 <= i < |m.Events(fd)| :: m.Events(fd)[i].kinds.read)
         && (SetOf(m.kernel, fd).write <==> exists i | 0 <= i < |m.Events(fd)| :: m.Events(fd)[i].kinds.write)
         && (SetOf(m.kernel, fd).closed <==> exists i | 0 <= i < |m.Events(fd)| :: m.Events(fd)[i].kinds.closed)
  }

  /** The kernel's set of `fd` when the first `i` changes have been made. */
  ghost function Halfway(entries: seq<Slot>, before: map<int, Kinds>, i: nat, fd: int): Kinds {
    if 0 <= fd < |entries| && entries[fd].Slot? && 0 < entries[fd].idxplus1 <= i
    then entries[fd].Wanted() else SetOf(before, fd)
  }

  lemma HalfwayStep(entries: seq<Slot>, changes: seq<Change>, kernel: map<int, Kinds>, before: map<int, Kinds>,
                    i: nat, r: Kinds, after: map<int, Kinds>)
    requires i < |changes| && after == kernel[changes[i].fd := r]
    requires BackOk(entries, changes, i) && r == entries[changes[i].fd].Wanted()
    requires forall j | 0 <= j < |changes| :: BackOk(entries, changes, j)
    requires forall fd | 0 <= fd < |entries| :: EntryOk(entries, changes, SetOf(before, fd), fd)
    requires forall fd :: SetOf(kernel, fd) == Halfway(entries, before, i, fd)
    ensures forall fd :: SetOf(after, fd) == Halfway(entries, before, i + 1, fd)
  {
    forall fd: int
      ensures SetOf(after, fd) == Halfway(entries, before, i + 1, fd)
    {
      assert SetOf(kernel, fd) == Halfway(entries, before, i, fd);
      if 0 <= fd < |entries| {
        assert EntryOk(entries, changes, SetOf(before, fd), fd);
      }
    }
  }

  /** After all changes the kernel has what is wanted. */
  lemma AllDone(m: IoMap, before: map<int, Kinds>)
    requires MapOk(m.entries, m.changes, before, NOBODY)
    requires forall fd :: SetOf(m.kernel, fd) == Halfway(m.entries, before, |m.changes|, fd)
    ensures forall fd | 0 <= fd :: SetOf(m.kernel, fd) == m.Wanted(fd)
  {
    forall fd | 0 <= fd
      ensures SetOf(m.kernel, fd) == m.Wanted(fd)
    {
      assert SetOf(m.kernel, fd) == Halfway(m.entries, before, |m.changes|, fd);
      if fd < |m.entries| {
        assert EntryOk(m.entries, m.changes, SetOf(before, fd), fd);
      }
    }
  }

  /** The entry once the first `i` changes have been taken off the list. */
  function Cleared(s: Slot, i: nat): Slot {
    if s.Slot? && s.idxplus1 <= i then s.(idxplus1 := 0) else s
  }

  /** `event_changelist_remove_all_`. */
  method RemoveAll(m: IoMap, ghost before: map<int, Kinds>)
    requires |m.changes| <= m.changesSize && TableSize(|m.entries|)
    requires MapOk(m.entries, m.changes, before, NOBODY)
    requires forall fd | 0 <= fd :: SetOf(m.kernel, fd) == m.Wanted(fd)
    requires forall fd | 0 <= fd :: SetOf(m.direct, fd) == m.Wanted(fd)
    requires forall fd | fd in m.kernel && m.kernel[fd] != O :: 0 <= fd < |m.entries|
    modifies m`entries, m`changes
    ensures m.Valid() && m.changes == []
    ensures forall fd :: m.Events(fd) == old(m.Events(fd)) && m.Wanted(fd) == old(m.Wanted(fd))
  {
    ghost var was := m.entries;
    var i := 0;
    while i < |m.changes|
      invariant 0 <= i <= |m.changes| && |m.entries| == |was|
      invariant m.changes == old(m.changes)
      invariant forall fd | 0 <= fd < |was| :: m.entries[fd] == Cleared(was[fd], i)
    {
      var fd := m.changes[i].fd;
      assert BackOk(was, m.changes, i);
      forall g | 0 <= g < |was| && was[g].Slot? && was[g].idxplus1 == i + 1
        ensures g == fd
      {
        assert EntryOk(was, m.changes, SetOf(before, g), g);
      }
      m.entries := m.entries[fd := m.entries[fd].(idxplus1 := 0)];
      i := i + 1;
    }
    m.changes := [];
    forall fd | 0 <= fd < |m.entries|
      ensures EntryOk(m.entries, m.changes, SetOf(m.kernel, fd), fd)
    {
      assert EntryOk(was, old(m.changes), SetOf(before, fd), fd);
      assert m.entries[fd] == Cleared(was[fd], i);
      assert SetOf(m.kernel, fd) == old(m.Wanted(fd));
    }
    forall g | 0 <= g
      ensures SetOf(m.direct, g) == m.Wanted(g)
    {
      assert SetOf(m.direct, g) == old(m.Wanted(g));
    }
  }

  /** Counts that are not zero mean events that are there. */
  lemma Counted(m: IoMap)
    requires m.Valid() && m.changes == []
    ensures Synchronised(m)
  {
    forall fd | 0 <= fd
      ensures SetOf(m.kernel, fd) == SetOf(m.direct, fd) == m.Wanted(fd)
      ensures m.Wanted(fd).read <==> exists i | 0 <= i < |m.Events(fd)| :: m.Events(fd)[i].kinds.read
      ensures m.Wanted(fd).write <==> exists i | 0 <= i < |m.Events(fd)| :: m.Events(fd)[i].kinds.write
      ensures m.Wanted(fd).closed <==> exists i | 0 <= i < |m.Events(fd)| :: m.Events(fd)[i].kinds.closed
    {
      CountPositive(m.Events(fd));
      if fd < |m.entries| {
        assert EntryOk(m.entries, m.changes, SetOf(m.kernel, fd), fd);
      }
    }
  }

  /** `epoll_ctl`: the kernel does only what it accepts. */
  method EpollCtl(m: IoMap, fd: int, op: Operation)
    requires op.Accepted(SetOf(m.kernel, fd))
    modifies m`kernel
    ensures m.kernel == old(m.kernel)[fd := op.Result(old(SetOf(m.kernel, fd)))]
  {
    m.kernel := m.kernel[fd := op.Result(SetOf(m.kernel, fd))];
  }

  /** The loop of a dispatch: every change goes through the table to the kernel, which accepts it. */
  method ApplyChanges(m: IoMap)
    requires m.Valid()
    modifies m`kernel
    ensures forall fd | 0 <= fd :: SetOf(m.kernel, fd) == m.Wanted(fd)
    ensures forall fd | fd in m.kernel && m.kernel[fd] != O :: 0 <= fd < |m.entries|
  {
    hide TableEntry, TableIndex;
    ghost var kernel := m.kernel;
    var i := 0;
    while i < |m.changes|
      invariant 0 <= i <= |m.changes|
      invariant forall fd :: SetOf(m.kernel, fd) == Halfway(m.entries, kernel, i, fd)
      invariant forall fd | fd in m.kernel && m.kernel[fd] != O :: 0 <= fd < |m.entries|
    {
      var c := m.changes[i];
      assert BackOk(m.entries, m.changes, i);
      assert EntryOk(m.entries, m.changes, SetOf(kernel, c.fd), c.fd);
      assert SetOf(m.kernel, c.fd) == Halfway(m.entries, kernel, i, c.fd) == c.had;
      TableMeaning(c);
      var op := TableEntry(TableIndex(c));
      ghost var was, r := m.kernel, op.Result(SetOf(m.kernel, c.fd));
      EpollCtl(m, c.fd, op);
      HalfwayStep(m.entries, m.changes, was, kernel, i, r, m.kernel);
      i := i + 1;
    }
    AllDone(m, kernel);
  }

  /** One dispatch: all changes reach the kernel, which accepts every operation, and the list is emptied. */
  method Dispatch(m: IoMap)
    requires m.Valid()
    modifies m`entries, m`changes, m`kernel
    ensures m.Valid() && Synchronised(m)
    ensures forall fd :: m.Events(fd) == old(m.Events(fd))
  {
    ghost var kernel := m.kernel;
    assert forall fd | 0 <= fd :: SetOf(m.direct, fd) == m.Wanted(fd);
    ApplyChanges(m);
    RemoveAll(m, kernel);
    Counted(m);
  }

  /** The same events and counts, whatever the place in the list of changes. */
  ghost predicate SameEvents(s: Slot, t: Slot) {
    s.Slot? == t.Slot? && (s.Slot? ==> s == t.(idxplus1 := s.idxplus1))
  }

  /** Where a loop over the descriptors stands that queues all they want for an empty kernel. */
  ghost predicate ReinitUpTo(m: IoMap, was: seq<Slot>, fd: nat)
    reads m
  {
    && fd <= |m.entries| == |was| && |m.changes| <= m.changesSize
    && (forall g | 0 <= g < fd :: EntryOk(m.entries, m.changes, O, g) && SameEvents(m.entries[g], was[g]))
    && (forall g | fd <= g < |was| :: m.entries[g] == was[g])
    && (forall i | 0 <= i < |m.changes| :: m.changes[i].fd < fd && BackOk(m.entries, m.changes, i))
  }

  /** `evmap_io_reinit_iter_fn`: queues everything that the events on `fd` want. */
  method ReinitOne(m: IoMap, fd: nat, ghost was: seq<Slot>)
    requires ReinitUpTo(m, was, fd) && fd < |was|
    requires was[fd].CountsOk() && OwnEvents(was[fd], fd)
    modifies m`entries, m`changes, m`changesSize
    ensures ReinitUpTo(m, was, fd + 1)
  {
    ghost var es, chs := m.entries, m.changes;
    if m.entries[fd].Slot? {
      var s := m.entries[fd].(idxplus1 := 0);
      var events := s.Wanted();
      if |m.changes| == m.changesSize {
        m.changesSize := if m.changesSize < 64 then 64 else m.changesSize * 2;
      }
      var change := Change(fd, O,
                           if events.read then ADD else NO_CHANGE,
                           if events.write then ADD else NO_CHANGE,
                           if events.closed then ADD else NO_CHANGE);
      m.changes := m.changes + [change];
      m.entries := m.entries[fd := s.(idxplus1 := |m.changes|)];
    }
    forall g | 0 <= g <= fd
      ensures EntryOk(m.entries, m.changes, O, g) && SameEvents(m.entries[g], was[g])
    {
      assert g < fd ==> EntryOk(es, chs, O, g);
    }
    forall i | 0 <= i < |m.changes|
      ensures m.changes[i].fd < fd + 1 && BackOk(m.entries, m.changes, i)
    {
      assert i < |chs| ==> BackOk(es, chs, i);
    }
  }

  /** When the loop is done, the map is in order for a kernel that knows nothing. */
  lemma ReinitDone(m: IoMap, was: seq<Slot>)
    requires ReinitUpTo(m, was, |was|) && m.kernel == map[]
    ensures MapOk(m.entries, m.changes, m.kernel, NOBODY)
    ensures forall fd | 0 <= fd < |was| :: SameEvents(m.entries[fd], was[fd])
  {
  }

  /** `evmap_reinit_`: queues everything again for a kernel that knows nothing. */
  method Requeue(m: IoMap)
    requires m.kernel == map[] && m.changes == []
    requires forall fd | 0 <= fd < |m.entries| ::
               m.entries[fd].CountsOk() && OwnEvents(m.entries[fd], fd)
    modifies m`entries, m`changes, m`changesSize
    ensures |m.changes| <= m.changesSize && MapOk(m.entries, m.changes, m.kernel, NOBODY)
    ensures |m.entries| == |old(m.entries)|
    ensures forall fd | 0 <= fd < |m.entries| :: SameEvents(m.entries[fd], old(m.entries)[fd])
  {
    hide MapOk;
    ghost var was := m.entries;
    var fd := 0;
    while fd < |m.entries|
      invariant ReinitUpTo(m, was, fd)
    {
      ReinitOne(m, fd, was);
      fd := fd + 1;
    }
    ReinitDone(m, was);
  }

  /** What `event_reinit` does to this state after a fork: the kernel knows nothing, the list of
      changes starts empty, and everything is queued; the next dispatch restores every set. */
  method Reinit(m: IoMap)
    requires m.Valid()
    modifies m
    ensures m.Valid() && m.kernel == map[]
    ensures forall fd :: m.Events(fd) == old(m.Events(fd))
  {
    ghost var was := m.entries;
    forall fd | 0 <= fd < |was|
      ensures was[fd].CountsOk() && OwnEvents(was[fd], fd) && SetOf(m.direct, fd) == was[fd].Wanted()
    {
      assert EntryOk(was, m.changes, SetOf(m.kernel, fd), fd);
      assert SetOf(m.direct, fd) == m.Wanted(fd);
    }
    assert forall fd | |was| <= fd :: SetOf(m.direct, fd) == m.Wanted(fd);
    m.kernel, m.changes, m.changesSize := map[], [], 0;
    Requeue(m);
    forall g | 0 <= g
      ensures SetOf(m.direct, g) == m.Wanted(g)
    {
      assert g < |was| ==> SameEvents(m.entries[g], was[g]);
    }
  }
}
