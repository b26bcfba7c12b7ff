/** `event.c` and `evmap.c` together: events on descriptors, from the calls that add them to what the kernel
    waits for. */
module EventMap {
  import opened Basics
  import opened EventQueues
  import opened EventOps
  import opened EventLoop
  import opened EventFinal
  import opened EventRun
  import EpollTable
  import M = EvMap
  import R = EvMapRun

  /** No event is twice in a list, and each is one that belongs there. */
  ghost predicate ListOk(l: seq<M.Event>, fd: int, ios: seq<Option<M.Event>>) {
    && (forall i, j | 0 <= i < j < |l| :: l[i] != l[j])
    && (forall i | 0 <= i < |l| :: l[i].fd == fd && l[i].id < |ios| && ios[l[i].id] == Some(l[i]))
  }

  /** Exactly the events that are flagged are in the map of descriptors; `ios` says what each event waits for. */
  ghost predicate Linked(flags: seq<bool>, ios: seq<Option<M.Event>>, m: M.IoMap)
    reads m
  {
    && |flags| == |ios|
    && (forall id | 0 <= id < |ios| && ios[id].Some? ::
          var e := ios[id].value; e.id == id && (e in m.Events(e.fd) <==> flags[id] && e.fd >= 0))
    && (forall fd :: ListOk(m.Events(fd), fd, ios))
  }

  /** The flags that say which events are in the maps. */
  ghost function Flags(evs: seq<Event>): (flags: seq<bool>)
    ensures |flags| == |evs|
  {
    seq(|evs|, i requires 0 <= i < |evs| => evs[i].inserted)
  }

  /** `struct event_base`: the queues and the map of descriptors. */
  class Base {
    const queues: EventBase
    const io: M.IoMap
    /** What each event waits for, if it is one on a descriptor. */
    var ios: seq<Option<M.Event>>

    ghost predicate Valid()
      reads this, queues, io
    {
      && queues.Valid() && io.Valid() && Linked(Flags(queues.evs), ios, io)
      && forall id | 0 <= id < |ios| && ios[id].Some? :: id !in queues.masters
    }

    constructor (npriorities: nat)
      ensures Valid() && fresh(queues) && fresh(io) && ios == [] && StateOf(queues) == Start(npriorities)
    {
      queues := new EventBase(npriorities);
      io := new M.IoMap();
      ios := [];
    }
  }

  lemma {:induction false} WithoutOk(l: seq<M.Event>, e: M.Event, fd: int, ios: seq<Option<M.Event>>)
    requires ListOk(l, fd, ios)
    ensures ListOk(R.Without(l, e), fd, ios)
    ensures forall x :: x in R.Without(l, e) <==> x in l && x != e
  {
    if l != [] {
      var rest := l[1..];
      assert forall i | 0 <= i < |rest| :: rest[i] == l[i + 1];
      WithoutOk(rest, e, fd, ios);
      assert l == [l[0]] + rest;
      assert l[0] !in rest;
    }
  }

  /** `evmap_io_del_` for an event whose flag has been taken away. */
  method Unlink(m: M.IoMap, ghost flags: seq<bool>, ghost ios: seq<Option<M.Event>>, e: M.Event)
    requires m.Valid() && Linked(flags, ios, m) && e.id < |ios| && ios[e.id] == Some(e)
    modifies m
    ensures m.Valid() && Linked(flags[e.id := false], ios, m)
  {
    hide M.IoMap.Valid;
    hide M.IoMap.Events;
    hide ListOk;
    WithoutOk(m.Events(e.fd), e, e.fd, ios);
    var r := R.Delete(m, e);
  }

  lemma AddedOk(l: seq<M.Event>, e: M.Event, fd: int, ios: seq<Option<M.Event>>)
    requires ListOk(l, fd, ios) && e !in l && e.fd == fd && e.id < |ios| && ios[e.id] == Some(e)
    ensures ListOk([e] + l, fd, ios)
  {
  }

  /** `evmap_io_add_` for an event that gets its flag. */
  method Link(m: M.IoMap, ghost flags: seq<bool>, ghost ios: seq<Option<M.Event>>, e: M.Event) returns (res: int)
    requires m.Valid() && Linked(flags, ios, m) && e.id < |ios| && ios[e.id] == Some(e) && !flags[e.id]
    modifies m
    ensures m.Valid() && Linked(flags[e.id := res != -1], ios, m) && -1 <= res <= 1
    ensures res == R.Answer(R.OpAdd(e), old(m.Events(e.fd)))
  {
    hide M.IoMap.Valid;
    hide M.IoMap.Events;
    hide M.TooMany;
    hide ListOk;
    AddedOk(m.Events(e.fd), e, e.fd, ios);
    res := R.Do(m, R.OpAdd(e));
  }

  // ---- what the map answers, said of the flags

  /** The events below `n` that wait on a descriptor: those that have their flag. */
  ghost function Waiters(evs: seq<Event>, ios: seq<Option<M.Event>>, fd: int, n: nat): seq<M.Event>
    requires n <= |ios| == |evs|
  {
    if n == 0 then []
    else
      Waiters(evs, ios, fd, n - 1) +
      if ios[n - 1].Some? && ios[n - 1].value.fd == fd && evs[n - 1].inserted then [ios[n - 1].value] else []
  }

  /** The answer of the map to an operation of the queues: that of an addition, if an event on a descriptor is
      added, when those events wait that have their flag. */
  ghost function MapAnswer(s: Snapshot, ios: seq<Option<M.Event>>, op: Op): int
    requires |ios| == |s.evs|
  {
    var id := Subject(s, op);
    if 0 <= id < |ios| && ios[id].Some? && Adding(s.evs[id], op)
    then R.Answer(R.OpAdd(ios[id].value), Waiters(s.evs, ios, ios[id].value.fd, |ios|))
    else 0
  }

  /** The operation puts the event into a map, if the map takes it. */
  predicate Adding(e: Event, op: Op) {
    AddsToMap(e) && !e.finalizing && (op.OpPersist? ==> e.ioTimeout.NonZero())
  }

  /** An event that has its flag waits on its descriptor. */
  predicate Flagged(evs: seq<Event>, ios: seq<Option<M.Event>>, fd: int, e: M.Event) {
    e.id < |ios| && ios[e.id] == Some(e) && e.fd == fd && e.id < |evs| && evs[e.id].inserted
  }

  lemma {:induction false} WaitersAre(evs: seq<Event>, ios: seq<Option<M.Event>>, fd: int, n: nat)
    requires n <= |ios| == |evs| && forall id | 0 <= id < |ios| && ios[id].Some? :: ios[id].value.id == id
    ensures forall e :: e in Waiters(evs, ios, fd, n) <==> e.id < n && Flagged(evs, ios, fd, e)
    ensures Once(Waiters(evs, ios, fd, n))
  {
    if n > 0 {
      WaitersAre(evs, ios, fd, n - 1);
    }
  }

  ghost predicate Once(l: seq<M.Event>) {
    forall i, j | 0 <= i < j < |l| :: l[i] != l[j]
  }

  /** The list without its entry `k`. */
  function Dropped(l: seq<M.Event>, k: nat): (rest: seq<M.Event>)
    requires k < |l|
    ensures |rest| == |l| - 1 && forall i | 0 <= i < |rest| :: rest[i] == l[if i < k then i else i + 1]
  {
    l[..k] + l[k + 1..]
  }

  lemma WithoutOne(l: seq<M.Event>, k: nat)
    requires Once(l) && k < |l|
    ensures Once(Dropped(l, k)) && forall e :: e in Dropped(l, k) <==> e in l && e != l[k]
  {
    var rest := Dropped(l, k);
    hide Dropped;
    forall e
      ensures e in rest <==> e in l && e != l[k]
    {
      if e in l && e != l[k] {
        var i :| 0 <= i < |l| && l[i] == e;
        assert rest[if i < k then i else i - 1] == e;
      }
    }
  }

  ghost predicate SameCounts(a: seq<M.Event>, c: seq<M.Event>) {
    M.CountRead(a) == M.CountRead(c) && M.CountWrite(a) == M.CountWrite(c) && M.CountClosed(a) == M.CountClosed(c)
  }

  /** Lists of the same events, once each, have the same counts. */
  lemma {:induction false} Recounted(a: seq<M.Event>, c: seq<M.Event>)
    requires Once(a) && Once(c) && forall e :: e in a <==> e in c
    ensures SameCounts(a, c)
    decreases |a|
  {
    assert c != [] ==> c[0] in c;
    if a != [] {
      assert a[0] in c;
      var k :| 0 <= k < |c| && c[k] == a[0];
      hide Once;
      WithoutOne(c, k);
      WithoutOne(a, 0);
      Recounted(Dropped(a, 0), Dropped(c, k));
      M.CountRemove(a, 0);
      M.CountRemove(c, k);
    }
  }

  lemma AnswerSame(e: M.Event, a: seq<M.Event>, c: seq<M.Event>)
    requires SameCounts(a, c)
    ensures R.Answer(R.OpAdd(e), a) == R.Answer(R.OpAdd(e), c)
  {
    hide M.CountRead;
    hide M.CountWrite;
    hide M.CountClosed;
    M.CountCons(e, a);
    M.CountCons(e, c);
  }

  lemma LinkedList(evs: seq<Event>, ios: seq<Option<M.Event>>, m: M.IoMap, fd: int)
    requires Linked(Flags(evs), ios, m) && fd >= 0
    ensures Once(m.Events(fd))
    ensures forall e :: e in m.Events(fd) <==> e.id < |ios| && Flagged(evs, ios, fd, e)
    ensures forall id | 0 <= id < |ios| && ios[id].Some? :: ios[id].value.id == id
  {
    assert ListOk(m.Events(fd), fd, ios);
  }

  /** The events in the map of descriptors are those that have their flag, so that both give the same answer. */
  lemma SameAnswer(evs: seq<Event>, ios: seq<Option<M.Event>>, m: M.IoMap, e: M.Event)
    requires Linked(Flags(evs), ios, m) && |ios| == |evs|
    ensures R.Answer(R.OpAdd(e), m.Events(e.fd)) == R.Answer(R.OpAdd(e), Waiters(evs, ios, e.fd, |ios|))
  {
    if e.fd >= 0 {
      hide Linked;
      hide R.Answer;
      hide SameCounts;
      hide Once;
      hide Waiters;
      hide M.IoMap.Events;
      hide Flagged;
      var a, c := m.Events(e.fd), Waiters(evs, ios, e.fd, |ios|);
      LinkedList(evs, ios, m, e.fd);
      WaitersAre(evs, ios, e.fd, |ios|);
      Recounted(a, c);
      AnswerSame(e, a, c);
    }
  }

  // ---- what a step of the queues does to the flags

  /** The event that an operation may put into a map. */
  function Subject(s: Snapshot, op: Op): int {
    match op
    case OpAdd(id, _, _, _) => id
    case OpPersist(_, _) => s.current
    case _ => NOBODY
  }

  /** The operation, with this answer of the map. */
  function Answered(op: Op, mapRes: int): Op {
    match op
    case OpAdd(id, tv, now, _) => OpAdd(id, tv, now, mapRes)
    case OpPersist(now, _) => OpPersist(now, mapRes)
    case _ => op
  }

  /** No other event gets its flag. */
  lemma OthersFall(s: Snapshot, op: Op, s': Snapshot, id: nat)
    requires StepOk(s, op, s') && id < |s.evs| && id !in s.masters && id != Subject(s, op)
    ensures |s.evs| <= |s'.evs| && (s'.evs[id].inserted ==> s.evs[id].inserted)
  {
    match op
    case OpAssign(_, _, _, _) => assert s'.evs[..|s.evs|][id] == s'.evs[id];
    case OpCommon(_, _) => assert s'.evs[..|s.evs|][id] == s'.evs[id];
    case OpCommonCallback(now) =>
      var k: nat :| CallbackOk(s, s', s.due, now, k);
    case _ =>
  }

  /** Only the flags of events on descriptors matter. */
  lemma LinkedSame(flags: seq<bool>, flags': seq<bool>, ios: seq<Option<M.Event>>, m: M.IoMap)
    requires Linked(flags, ios, m) && |flags'| == |flags|
    requires forall id | 0 <= id < |ios| && ios[id].Some? :: flags'[id] == flags[id]
    ensures Linked(flags', ios, m)
  {
    hide ListOk;
  }

  lemma Sizes(b: Base)
    requires b.Valid()
    ensures |b.ios| == |b.queues.evs|
  {
  }

  /** The flag of the event that is added. */
  lemma AddedFlag(e: Event, tv: Option<Tv>, absolute: bool, now: int, mapRes: int)
    ensures Added(e, tv, absolute, now, mapRes).inserted == (e.inserted || (AddsToMap(e) && !AddFails(e, mapRes)))
  {
  }

  /** `event_add_nolock_`, or its call in `event_persist_closure`, with the answer of the map. */
  method AddWithMap(b: Base, op: Op, id: nat) returns (mapRes: int)
    requires b.Valid() && (op.OpAdd? || op.OpPersist?) && Subject(StateOf(b.queues), op) == id
    requires forall r | -1 <= r <= 1 :: Allowed(b.queues, Answered(op, r))
    modifies b.queues, b.io
    ensures b.Valid() && -1 <= mapRes <= 1 && id < |old(b.ios)| && |b.queues.evs| == |old(b.queues.evs)|
    ensures StepOk(old(StateOf(b.queues)), Answered(op, mapRes), StateOf(b.queues))
    ensures |old(b.ios)| == |old(b.queues.evs)| && mapRes == MapAnswer(old(StateOf(b.queues)), old(b.ios), op)
  {
    hide M.IoMap.Valid;
    hide M.IoMap.Events;
    hide EventBase.ValidExcept;
    hide M.TooMany;
    hide Linked;
    Sizes(b);
    mapRes := 0;
    ghost var s := StateOf(b.queues);
    ghost var flags := Flags(b.queues.evs);
    assert Allowed(b.queues, Answered(op, 0));
    if Adding(b.queues.evs[id], op) && b.ios[id].Some? {
      IsItself(b, id);
      LinkedIs(b);
      SameAnswer(b.queues.evs, b.ios, b.io, b.ios[id].value);
      mapRes := Link(b.io, flags, b.ios, b.ios[id].value);
      flags := flags[id := mapRes != -1];
    }
    assert Allowed(b.queues, Answered(op, mapRes));
    EventRun.Do(b.queues, Answered(op, mapRes));
    AddStep(s, Answered(op, mapRes), StateOf(b.queues), b.ios, flags);
    LinkedSame(flags, Flags(b.queues.evs), b.ios, b.io);
  }

  lemma IsItself(b: Base, id: nat)
    requires b.Valid() && id < |b.ios| && b.ios[id].Some?
    ensures b.ios[id].value.id == id
  {
  }

  lemma LinkedIs(b: Base)
    requires b.Valid()
    ensures Linked(Flags(b.queues.evs), b.ios, b.io) && |b.ios| == |b.queues.evs|
  {
  }

  /** The flags after an addition. */
  lemma AddStep(s: Snapshot, op: Op, s': Snapshot, ios: seq<Option<M.Event>>, flags: seq<bool>)
    requires StepOk(s, op, s') && (op.OpAdd? || op.OpPersist?) && |ios| == |s.evs| == |flags|
    requires 0 <= Subject(s, op) < |s.evs|
    requires forall j | 0 <= j < |ios| && ios[j].Some? :: j !in s.masters
    requires var id, e := Subject(s, op), s.evs[Subject(s, op)];
      var adds := Adding(e, op) && ios[id].Some?;
      flags == if adds then Flags(s.evs)[id := op.mapRes != -1] else Flags(s.evs)
    ensures |s'.evs| == |s.evs| && s'.masters == s.masters
    ensures forall j | 0 <= j < |ios| && ios[j].Some? :: Flags(s'.evs)[j] == flags[j]
  {
    hide Added;
    var id := Subject(s, op);
    var e := s.evs[id];
    if op.OpAdd? {
      AddedFlag(e, op.tv, false, op.now, op.mapRes);
    } else if e.ioTimeout.NonZero() {
      AddedFlag(e, Some(NextRun(e, op.now)), true, op.now, op.mapRes);
    }
  }

  /** One more event, which is in no map. */
  lemma LinkedMore(flags: seq<bool>, ios: seq<Option<M.Event>>, m: M.IoMap, io: Option<M.Event>)
    requires Linked(flags, ios, m) && (io.Some? ==> io.value.id == |ios|)
    ensures Linked(flags + [false], ios + [io], m)
  {
    var ios' := ios + [io];
    forall fd: int
      ensures ListOk(m.Events(fd), fd, ios')
    {
      assert ListOk(m.Events(fd), fd, ios);
    }
    if io.Some? {
      assert ListOk(m.Events(io.value.fd), io.value.fd, ios);
      assert io.value !in m.Events(io.value.fd);
    }
  }

  /** `event_assign`, for an event on a descriptor, a signal, or neither. */
  method NewEvent(b: Base, fd: int, kinds: EpollTable.Kinds, signal: bool, persist: bool, internal: bool)
    requires b.Valid() && b.queues.active != []
    modifies b, b.queues
    ensures b.Valid()
    ensures var io := kinds != EpollTable.O;
      b.ios == if io && signal then old(b.ios)
               else old(b.ios) + [if io then Some(M.Event(|old(b.ios)|, fd, kinds)) else None]
    ensures |b.ios| - |old(b.ios)| == |b.queues.evs| - |old(b.queues.evs)|
    ensures StepOk(old(StateOf(b.queues)), OpAssign(kinds != EpollTable.O, signal, persist, internal), StateOf(b.queues))
  {
    hide Linked;
    hide EventBase.ValidExcept;
    hide M.IoMap.Valid;
    Sizes(b);
    var io := kinds != EpollTable.O;
    ghost var flags := Flags(b.queues.evs);
    ghost var masters := b.queues.masters;
    MastersIn(b.queues);
    EventRun.Do(b.queues, OpAssign(io, signal, persist, internal));
    if !(io && signal) {
      var e := if io then Some(M.Event(|b.ios|, fd, kinds)) else None;
      LinkedMore(flags, b.ios, b.io, e);
      b.ios := b.ios + [e];
      assert Flags(b.queues.evs) == flags + [false];
    }
  }

  lemma MastersIn(q: EventBase)
    requires q.Valid()
    ensures forall i | 0 <= i < |q.masters| :: q.masters[i] < |q.evs|
  {
  }

  /** Where the loop stands that takes out of the map of descriptors what has lost its flag. */
  ghost function Partly(was: seq<Event>, evs: seq<Event>, n: nat): (flags: seq<bool>)
    requires n <= |was| <= |evs|
    ensures |flags| == |was|
  {
    seq(|was|, i requires 0 <= i < |was| => if i < n then evs[i].inserted else was[i].inserted)
  }

  /** The calls of `evmap_io_del_` in a step, one for each event on a descriptor that has lost its flag. */
  method UnlinkAll(m: M.IoMap, was: seq<Event>, evs: seq<Event>, ios: seq<Option<M.Event>>)
    requires m.Valid() && |was| <= |evs| && |ios| == |was| && Linked(Flags(was), ios, m)
    requires forall id | 0 <= id < |ios| && ios[id].Some? :: evs[id].inserted ==> was[id].inserted
    modifies m
    ensures m.Valid() && Linked(Partly(was, evs, |was|), ios, m)
  {
    hide Linked;
    hide M.IoMap.Valid;
    var i := 0;
    assert Partly(was, evs, 0) == Flags(was);
    while i < |ios|
      invariant i <= |ios| && m.Valid() && Linked(Partly(was, evs, i), ios, m)
    {
      ghost var before, after := Partly(was, evs, i), Partly(was, evs, i + 1);
      if ios[i].Some? && was[i].inserted && !evs[i].inserted {
        OwnId(before, ios, m, i);
        Unlink(m, before, ios, ios[i].value);
        before := before[i := false];
      }
      LinkedSame(before, after, ios, m);
      i := i + 1;
    }
  }

  lemma OwnId(flags: seq<bool>, ios: seq<Option<M.Event>>, m: M.IoMap, id: nat)
    requires Linked(flags, ios, m) && id < |ios| && ios[id].Some?
    ensures ios[id].value.id == id
  {
  }

  /** Any other step of the queues: events may leave the map, and none comes in. */
  method Other(b: Base, op: Op)
    requires b.Valid() && Allowed(b.queues, op) && !op.OpAssign? && !op.OpAdd? && !op.OpPersist?
    modifies b, b.queues, b.io
    ensures b.Valid()
    ensures b.ios == if |b.queues.evs| > |old(b.queues.evs)| then old(b.ios) + [None] else old(b.ios)
    ensures StepOk(old(StateOf(b.queues)), op, StateOf(b.queues))
  {
    hide Linked;
    hide M.IoMap.Valid;
    hide EventBase.ValidExcept;
    hide StepOk;
    Sizes(b);
    MastersIn(b.queues);
    var was := b.queues.evs;
    ghost var s, ios := StateOf(b.queues), b.ios;
    EventRun.Do(b.queues, op);
    Shape(s, op, StateOf(b.queues), ios);
    UnlinkAll(b.io, was, b.queues.evs, b.ios);
    ghost var flags := Partly(was, b.queues.evs, |was|);
    if |b.queues.evs| > |b.ios| {
      LinkedMore(flags, b.ios, b.io, None);
      b.ios := b.ios + [None];
      flags := flags + [false];
    }
    LinkedSame(flags, Flags(b.queues.evs), b.ios, b.io);
  }

  /** What a step does to the events that there were, and to those that stand for common timeouts. */
  lemma Shape(s: Snapshot, op: Op, s': Snapshot, ios: seq<Option<M.Event>>)
    requires StepOk(s, op, s') && !op.OpAssign? && !op.OpAdd? && !op.OpPersist? && |ios| == |s.evs|
    requires forall id | 0 <= id < |ios| && ios[id].Some? :: id !in s.masters
    ensures |s.evs| <= |s'.evs| <= |s.evs| + 1
    ensures forall id | 0 <= id < |ios| && ios[id].Some? :: id !in s'.masters && (s'.evs[id].inserted ==> s.evs[id].inserted)
  {
    hide StepOk;
    forall id | 0 <= id < |ios| && ios[id].Some?
      ensures |s.evs| <= |s'.evs| && (s'.evs[id].inserted ==> s.evs[id].inserted)
    {
      OthersFall(s, op, s', id);
    }
    MastersStep(s, op, s');
  }

  lemma MastersStep(s: Snapshot, op: Op, s': Snapshot)
    requires StepOk(s, op, s') && !op.OpAssign?
    ensures |s.evs| <= |s'.evs| <= |s.evs| + 1
    ensures s'.masters == s.masters || s'.masters == s.masters + [|s.evs|]
  {
    match op
    case OpCommonCallback(now) =>
      var k: nat :| CallbackOk(s, s', s.due, now, k);
    case _ =>
  }

  // ---- the kernel

  /** Event `id` waits on `fd`: it has been added and not deleted. */
  predicate Waits(b: Base, id: nat, fd: int)
    reads b, b.queues
  {
    id < |b.ios| && id < |b.queues.evs| && b.ios[id].Some? && b.ios[id].value.fd == fd && b.queues.evs[id].inserted
  }

  /** The kernel waits on a descriptor for exactly what the events want that are flagged as added. */
  ghost predicate KernelAgrees(b: Base)
    reads b, b.queues, b.io
  {
    forall fd | 0 <= fd ::
      var k := M.SetOf(b.io.kernel, fd);
      && (k.read <==> exists id: nat :: Waits(b, id, fd) && b.ios[id].value.kinds.read)
      && (k.write <==> exists id: nat :: Waits(b, id, fd) && b.ios[id].value.kinds.write)
      && (k.closed <==> exists id: nat :: Waits(b, id, fd) && b.ios[id].value.kinds.closed)
  }

  lemma WaitsIs(b: Base, fd: int)
    requires b.Valid() && fd >= 0
    ensures forall id: nat | Waits(b, id, fd) :: b.ios[id].value in b.io.Events(fd)
    ensures forall e | e in b.io.Events(fd) :: Waits(b, e.id, fd) && b.ios[e.id].value == e
  {
    assert ListOk(b.io.Events(fd), fd, b.ios);
  }

  lemma Agreement(b: Base)
    requires b.Valid() && M.Synchronised(b.io)
    ensures KernelAgrees(b)
  {
    hide M.IoMap.Valid;
    hide M.IoMap.Events;
    hide Base.Valid;
    forall fd | 0 <= fd
      ensures var k := M.SetOf(b.io.kernel, fd);
        && (k.read <==> exists id: nat :: Waits(b, id, fd) && b.ios[id].value.kinds.read)
        && (k.write <==> exists id: nat :: Waits(b, id, fd) && b.ios[id].value.kinds.write)
        && (k.closed <==> exists id: nat :: Waits(b, id, fd) && b.ios[id].value.kinds.closed)
    {
      WaitsIs(b, fd);
    }
  }

  /** One dispatch. */
  method Dispatch(b: Base)
    requires b.Valid()
    modifies b.io
    ensures b.Valid() && KernelAgrees(b)
  {
    hide M.IoMap.Valid;
    hide M.IoMap.Events;
    hide ListOk;
    hide M.Synchronised;
    M.Dispatch(b.io);
    Agreement(b);
  }

  // ---- runs

  /** A call at a base, or a step of its loop. */
  datatype Call =
    | CallNew(fd: int, kinds: EpollTable.Kinds, signal: bool, persist: bool, internal: bool)
    | CallAdd(id: nat, tv: Option<Tv>, now: int)
    | CallPersist(now: int)
    | CallOther(op: Op)
    | CallDispatch

  /** What it is for the queues, when the map of descriptors has given this answer. */
  function OpOf(call: Call, mapRes: int): (op: Op)
    ensures call.CallAdd? ==>
      op.OpAdd? && op.id == call.id && op.tv == call.tv && op.now == call.now && op.mapRes == mapRes
    ensures call.CallPersist? ==> op.OpPersist? && op.now == call.now && op.mapRes == mapRes
    ensures call.CallNew? ==> op.OpAssign? && op.persist == call.persist && op.signal == call.signal && op.internal == call.internal
    ensures call.CallOther? ==> op == call.op
  {
    match call
    case CallNew(_, kinds, signal, persist, internal) => OpAssign(kinds != EpollTable.O, signal, persist, internal)
    case CallAdd(id, tv, now) => OpAdd(id, tv, now, mapRes)
    case CallPersist(now) => OpPersist(now, mapRes)
    case CallOther(op) => op
    case CallDispatch => OpMakeLaterActive
  }

  predicate CallAllowed(b: Base, call: Call)
    reads b, b.queues
  {
    && (call.CallOther? ==> !call.op.OpAssign? && !call.op.OpAdd? && !call.op.OpPersist?)
    && (!call.CallDispatch? ==> Allowed(b.queues, OpOf(call, 0)))
  }

  ghost predicate CallOk(s: Snapshot, call: Call, mapRes: int, s': Snapshot) {
    if call.CallDispatch? then s' == s else StepOk(s, OpOf(call, mapRes), s')
  }

  /** What the events wait for after a call: a new one for what it was made for. */
  function NextIos(ios: seq<Option<M.Event>>, call: Call, more: bool): seq<Option<M.Event>> {
    if !more then ios
    else if call.CallNew? && call.kinds != EpollTable.O then ios + [Some(M.Event(|ios|, call.fd, call.kinds))]
    else ios + [None]
  }

  /** The same after a run. */
  function IosAfter(states: seq<Snapshot>, calls: seq<Call>): seq<Option<M.Event>>
    requires |states| == |calls| + 1
  {
    if calls == [] then []
    else
      var n := |calls| - 1;
      NextIos(IosAfter(states[..n + 1], calls[..n]), calls[n], |states[n + 1].evs| > |states[n].evs|)
  }

  method Do(b: Base, call: Call) returns (mapRes: int)
    requires b.Valid() && CallAllowed(b, call)
    modifies b, b.queues, b.io
    ensures b.Valid() && CallOk(old(StateOf(b.queues)), call, mapRes, StateOf(b.queues))
    ensures b.ios == NextIos(old(b.ios), call, |b.queues.evs| > |old(b.queues.evs)|)
    ensures call.CallDispatch? ==> KernelAgrees(b)
    ensures |old(b.ios)| == |old(b.queues.evs)| && mapRes == MapAnswer(old(StateOf(b.queues)), old(b.ios), OpOf(call, 0))
  {
    hide Base.Valid;
    hide StepOk;
    hide R.Answer;
    hide Waiters;
    Sizes(b);
    mapRes := 0;
    match call
    case CallNew(fd, kinds, signal, persist, internal) => NewEvent(b, fd, kinds, signal, persist, internal);
    case CallAdd(id, tv, now) => mapRes := AddWithMap(b, OpAdd(id, tv, now, 0), id);
    case CallPersist(now) => mapRes := AddWithMap(b, OpPersist(now, 0), b.queues.current);
    case CallOther(op) => Other(b, op);
    case CallDispatch => Dispatch(b);
  }

  /** The answer to call `i` is the one for the flags and descriptors of that moment. */
  ghost predicate AnswerOk(states: seq<Snapshot>, calls: seq<Call>, answers: seq<int>, i: nat) {
    && i < |states| && i < |calls| && i < |answers|
    && var ios := IosAfter(states[..i + 1], calls[..i]);
       |ios| == |states[i].evs| && answers[i] == MapAnswer(states[i], ios, OpOf(calls[i], 0))
  }

  /** What a run has been: each call has done what it should, with the answer that the map really gives. */
  ghost predicate CallTrace(states: seq<Snapshot>, calls: seq<Call>, answers: seq<int>) {
    && |states| == |calls| + 1 && |answers| == |calls|
    && forall i | 0 <= i < |calls| ::
         CallOk(states[i], calls[i], answers[i], states[i + 1]) && AnswerOk(states, calls, answers, i)
  }

  lemma CallTraceMore(states: seq<Snapshot>, calls: seq<Call>, answers: seq<int>, ios: seq<Option<M.Event>>,
                      call: Call, r: int, s: Snapshot)
    requires CallTrace(states, calls, answers) && ios == IosAfter(states, calls)
    requires |ios| == |states[|calls|].evs| && r == MapAnswer(states[|calls|], ios, OpOf(call, 0))
    requires CallOk(states[|calls|], call, r, s)
    ensures CallTrace(states + [s], calls + [call], answers + [r])
    ensures IosAfter(states + [s], calls + [call]) == NextIos(ios, call, |s.evs| > |states[|calls|].evs|)
  {
    hide CallOk;
    hide MapAnswer;
    hide NextIos;
    var n := |calls|;
    var states', calls', answers' := states + [s], calls + [call], answers + [r];
    assert states'[..n + 1] == states && calls'[..n] == calls;
    forall i | 0 <= i < n + 1
      ensures CallOk(states'[i], calls'[i], answers'[i], states'[i + 1]) && AnswerOk(states', calls', answers', i)
    {
      if i < n {
        assert AnswerOk(states, calls, answers, i);
        assert states'[..i + 1] == states[..i + 1] && calls'[..i] == calls[..i];
      }
    }
  }

  /** Over any run each step does to the queues what it should, with the answers that the map really gives;
      and when a run ends with a dispatch, the kernel waits for exactly what the events want that are added. */
  method Run(npriorities: nat, calls: seq<Call>)
    returns (b: Base, n: nat, answers: seq<int>, ghost states: seq<Snapshot>)
    ensures b.Valid() && n <= |calls| && (n < |calls| ==> !CallAllowed(b, calls[n]))
    ensures CallTrace(states, calls[..n], answers) && states[0] == Start(npriorities) && states[n] == StateOf(b.queues)
    ensures b.ios == IosAfter(states, calls[..n])
    ensures n > 0 && calls[n - 1].CallDispatch? ==> KernelAgrees(b)
  {
    hide Base.Valid;
    hide CallOk;
    hide AnswerOk;
    hide MapAnswer;
    hide NextIos;
    hide KernelAgrees;
    b := new Base(npriorities);
    n, answers := 0, [];
    states := [StateOf(b.queues)];
    while n < |calls| && CallAllowed(b, calls[n])
      invariant n <= |calls| && fresh(b) && fresh(b.queues) && fresh(b.io) && b.Valid()
      invariant CallTrace(states, calls[..n], answers)
      invariant states[0] == Start(npriorities) && states[n] == StateOf(b.queues)
      invariant b.ios == IosAfter(states, calls[..n])
      invariant n > 0 && calls[n - 1].CallDispatch? ==> KernelAgrees(b)
    {
      ghost var ios := b.ios;
      var r := Do(b, calls[n]);
      CallTraceMore(states, calls[..n], answers, ios, calls[n], r, StateOf(b.queues));
      assert calls[..n + 1] == calls[..n] + [calls[n]];
      answers := answers + [r];
      states := states + [StateOf(b.queues)];
      n := n + 1;
    }
  }
}
