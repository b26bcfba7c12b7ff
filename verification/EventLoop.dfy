/** `event.c`: the steps of the loop that move events along. */
module EventLoop {
  import opened Basics
  import opened EventQueues
  import opened NatLists
  import opened EventLists
  import opened EventTimeouts
  import opened EventOps

  /** What becomes of an event whose timeout has passed. */
  function Fired(e: Event): Event {
    Activated(Deleted(e, false), {Timeout})
  }

  /** The list that an event stands for. */
  function ListOf(masters: seq<nat>, id: nat): (x: int)
    ensures x == NOBODY ==> id !in masters
    ensures x != NOBODY ==> 0 <= x < |masters| && masters[x] == id
  {
    if masters == [] then NOBODY
    else
      var n := |masters| - 1;
      if masters[n] == id then n else
        assert masters == masters[..n] + [masters[n]];
        ListOf(masters[..n], id)
  }

  /** The queues when an event, which may be in one of them, has gone to the end of it. */
  function Requeued(active: seq<seq<nat>>, p: int, id: nat): (r: seq<seq<nat>>)
    ensures |r| == |active| && forall q | 0 <= q < |r| ::
              r[q] == if q == p then WithoutAny(active[q], id) + [id] else active[q]
  {
    ListsWithLast(ListsWithout(active, p, id), p, id)
  }

  lemma NotQueued(b: EventBase, id: nat, x: int)
    requires b.ValidExcept(x) && id < |b.evs|
    ensures b.evs[id].active || ListsWithout(b.active, b.evs[id].pri, id) == b.active
  {
    EventFacts(b.evs, b.inMap, b.heap, b.common, b.active, b.later, id);
  }

  /** Takes an event off all lists because its timeout has passed, and activates it. */
  method Fire(b: EventBase, id: nat)
    requires b.Valid() && id < |b.evs| && b.evs[id].timeout
    modifies b`evs, b`inMap, b`heap, b`common, b`active, b`later, b`count, b`countActive
    ensures b.Valid() && b.Same()
    ensures b.evs == old(b.evs)[id := Fired(old(b.evs)[id])]
    ensures b.common == ListsWithout(old(b.common), old(b.evs)[id].when.tag, id)
    ensures b.evs[id] == old(b.evs)[id].(inserted := false, timeout := false, active := true, later := false, res := {Timeout})
    ensures b.active == Requeued(old(b.active), b.evs[id].pri, id)
  {
    hide EventBase.ValidExcept;
    hide ListsWithout;
    hide ListsWithLast;
    Facts(b, id, NOBODY);
    ghost var x := ListOf(b.masters, id);
    Weaken(b, x);
    MasterOnce(b, id, x);
    NotQueued(b, id, x);
    var res := EventDel(b, id, false, 0, x);
    EventActive(b, id, {Timeout}, x);
    ActiveInTime(b, x);
  }

  lemma MasterOnce(b: EventBase, id: nat, x: int)
    requires b.Valid() && id < |b.evs| && x == ListOf(b.masters, id)
    ensures b.Free(id, x)
  {
  }

  lemma ActiveInTime(b: EventBase, x: int)
    requires b.ValidExcept(x) && (0 <= x < |b.masters| ==> b.masters[x] < |b.evs| && b.evs[b.masters[x]].active)
    ensures b.Valid()
  {
    NoException(b, x);
  }

  lemma {:induction false} MinExists(s: set<nat>, evs: seq<Event>)
    requires s != {}
    ensures exists id :: id in s && forall j | j in s :: Time(evs, id) <= Time(evs, j)
    decreases |s|
  {
    var k :| k in s;
    var rest := s - {k};
    if rest == {} {
      assert s == {k};
    } else {
      MinExists(rest, evs);
      var id :| id in rest && forall j | j in rest :: Time(evs, id) <= Time(evs, j);
      var m := if Time(evs, k) <= Time(evs, id) then k else id;
      assert m in s && forall j | j in s :: Time(evs, m) <= Time(evs, j);
    }
  }

  lemma HeapIs(b: EventBase)
    requires b.Valid()
    ensures forall id: nat :: id in b.heap <==> id < |b.evs| && At(b.evs[id], Heap)
  {
  }

  /** The deadline in the heap has passed. */
  predicate Passed(e: Event, now: int) {
    At(e, Heap) && e.when.us <= now
  }

  /** What firing these events one after the other does to the order of callbacks: those that are not concerned keep
      theirs, and those that fire come behind them, in their order. */
  ghost predicate FiredInOrder(evs: seq<Event>, was: seq<seq<nat>>, active: seq<seq<nat>>, out: seq<nat>) {
    && |was| == |active|
    && (forall q, a: nat | 0 <= q < |was| && a in was[q] && a !in out :: a in active[q])
    && (forall q, a: nat, c: nat | 0 <= q < |was| && AheadOf(was[q], a, c) && a !in out && c !in out :: AheadOf(active[q], a, c))
    && (forall c: nat | c in out && c < |evs| && evs[c].pri < |was| ::
          && c in active[evs[c].pri]
          && (forall a: nat | a in was[evs[c].pri] && a !in out :: AheadOf(active[evs[c].pri], a, c)))
    && (forall i, j | 0 <= i < j < |out| && out[i] < |evs| && out[j] < |evs| && evs[out[i]].pri == evs[out[j]].pri < |was| ::
          AheadOf(active[evs[out[i]].pri], out[i], out[j]))
  }

  lemma RequeuedOrder(active: seq<seq<nat>>, p: nat, id: nat)
    requires p < |active| && Distinct(active[p])
    ensures var r := Requeued(active, p, id);
      && (forall a: nat | a in active[p] && a != id :: AheadOf(r[p], a, id))
      && (forall q, a: nat, c: nat | 0 <= q < |active| && AheadOf(active[q], a, c) && a != id && c != id :: AheadOf(r[q], a, c))
      && (forall q, a: nat | 0 <= q < |active| && a in active[q] :: a in r[q])
  {
    hide AheadOf;
    var l := active[p];
    var w := WithoutAny(l, id);
    if id in l {
      RemovedFacts(l, IndexOf(l, id));
    }
    AheadLast(w, id);
    forall a: nat, c: nat | AheadOf(l, a, c) && a != id && c != id
      ensures AheadOf(w + [id], a, c)
    {
      AheadWithout(l, id, a, c);
    }
  }

  lemma FiredNext(evs: seq<Event>, was: seq<seq<nat>>, active: seq<seq<nat>>, out: seq<nat>, id: nat)
    requires FiredInOrder(evs, was, active, out) && id < |evs| && id !in out
    requires evs[id].pri < |active| && Distinct(active[evs[id].pri])
    ensures FiredInOrder(evs, was, Requeued(active, evs[id].pri, id), out + [id])
  {
    hide AheadOf;
    RequeuedOrder(active, evs[id].pri, id);
    hide Requeued;
  }

  lemma NoneFired(evs: seq<Event>, active: seq<seq<nat>>)
    ensures FiredInOrder(evs, active, active, [])
  {
    hide AheadOf;
  }

  /** Where `timeout_process` stands when these events have fired, the earliest deadlines first. */
  ghost predicate Processing(b: EventBase, evs: seq<Event>, was: seq<seq<nat>>, now: int, out: seq<nat>)
    reads b
  {
    && |b.evs| == |evs| && FiredInOrder(evs, was, b.active, out) && Sorted(out, evs)
    && (forall id | 0 <= id < |evs| :: id in out ==> Passed(evs[id], now) && b.evs[id] == Fired(evs[id]) && id !in b.heap)
    && (forall id | 0 <= id < |evs| :: id !in out ==> b.evs[id] == evs[id])
    && (forall i, c | 0 <= i < |out| && c in b.heap :: Time(evs, out[i]) <= Time(b.evs, c))
    && (forall i | 0 <= i < |out| :: out[i] < |evs|)
  }

  /** One round of `timeout_process`. */
  method FireEarliest(b: EventBase, id: nat, ghost evs: seq<Event>, ghost was: seq<seq<nat>>, now: int, ghost out: seq<nat>)
    requires b.Valid() && Processing(b, evs, was, now, out) && id in b.heap && Time(b.evs, id) <= now
    requires forall j | j in b.heap :: Time(b.evs, id) <= Time(b.evs, j)
    modifies b`evs, b`inMap, b`heap, b`common, b`active, b`later, b`count, b`countActive
    ensures b.Valid() && b.Same() && Processing(b, evs, was, now, out + [id]) && b.heap == old(b.heap) - {id}
  {
    hide EventBase.Valid;
    hide ListsWithout;
    hide FiredInOrder;
    hide Requeued;
    hide Fired;
    HeapIs(b);
    QueueOf(b, id);
    ghost var heap := b.heap;
    FiredNext(evs, was, b.active, out, id);
    Fire(b, id);
    HeapIs(b);
    assert b.heap == heap - {id};
  }

  /** `timeout_process`: afterwards no deadline in the heap has passed, and exactly the events whose
      deadline had passed have fired, the earlier ones first. */
  method TimeoutProcess(b: EventBase, now: int) returns (ghost out: seq<nat>)
    requires b.Valid()
    modifies b`evs, b`inMap, b`heap, b`common, b`active, b`later, b`count, b`countActive
    ensures b.Valid() && b.Same()
    ensures forall id | id in b.heap :: Time(b.evs, id) > now
    ensures forall id | 0 <= id < |b.evs| ::
              b.evs[id] == if At(old(b.evs)[id], Heap) && old(b.evs)[id].when.us <= now
                           then Fired(old(b.evs)[id]) else old(b.evs)[id]
    ensures forall id: nat :: id in out <==> id < |b.evs| && Passed(old(b.evs)[id], now)
    ensures Sorted(out, old(b.evs)) && FiredInOrder(old(b.evs), old(b.active), b.active, out)
  {
    hide EventBase.Valid;
    hide FiredInOrder;
    hide Fired;
    ghost var evs, was := b.evs, b.active;
    out := [];
    NoneFired(evs, was);
    while b.heap != {}
      invariant b.Valid() && b.Same() && Processing(b, evs, was, now, out)
      decreases |b.heap|
    {
      MinExists(b.heap, b.evs);
      HeapIs(b);
      var id :| id in b.heap && forall j | j in b.heap :: Time(b.evs, id) <= Time(b.evs, j);
      if b.evs[id].when.us > now {
        break;
      }
      FireEarliest(b, id, evs, was, now, out);
      out := out + [id];
    }
    HeapIs(b);
  }

  lemma QueueOf(b: EventBase, id: nat)
    requires b.Valid() && id < |b.evs|
    ensures b.evs[id].pri < |b.active| && Distinct(b.active[b.evs[id].pri])
  {
    EventFacts(b.evs, b.inMap, b.heap, b.common, b.active, b.later, id);
    assert Lists(b.active[b.evs[id].pri], b.evs, Active(b.evs[id].pri));
  }

  /** No timeout is lost: once the heap has been processed, an event whose deadline has passed and that
      has not fired is on a common list whose callback is waiting to run or about to look at the list. */
  lemma NothingLost(b: EventBase, now: int, id: nat)
    requires b.Valid() && forall j | j in b.heap :: Time(b.evs, j) > now
    requires id < |b.evs| && b.evs[id].timeout && b.evs[id].when.us <= now
    ensures 0 <= b.evs[id].when.tag < |b.masters|
    ensures b.due == b.evs[id].when.tag || b.evs[b.masters[b.evs[id].when.tag]].active
  {
    EventFacts(b.evs, b.inMap, b.heap, b.common, b.active, b.later, id);
    var q := b.evs[id].when.tag;
    assert id !in b.heap;
    if q != b.due {
      var l := b.common[q];
      assert Sorted(l, b.evs) && id in l;
      var k :| 0 <= k < |l| && l[k] == id;
      assert Time(b.evs, l[0]) <= Time(b.evs, l[k]);
      assert InTime(b.evs, b.masters[q], l);
      HeapIs(b);
      assert MasterOk(b.evs[b.masters[q]]);
    }
  }

  lemma HeadFacts(b: EventBase, q: nat)
    requires b.Valid() && q < |b.common| && b.common[q] != []
    ensures var l := b.common[q];
      && l[0] < |b.evs| && At(b.evs[l[0]], Common(q)) && ListsWithout(b.common, q, l[0]) == b.common[q := l[1..]]
      && l[0] !in b.masters && !b.evs[l[0]].finalizing && |b.masters| == |b.common|
  {
    var l := b.common[q];
    assert Lists(l, b.evs, Common(q)) && l[0] in l;
    assert Removed(l, 0) == l[1..];
  }

  /** The event has fired, as it should have by `now`. */
  ghost predicate FiredBy(before: Event, after: Event, now: int) {
    before.when.us <= now && after == Fired(before)
  }

  /** The loop of `common_timeout_callback`. */
  method FireExpired(b: EventBase, q: nat, now: int) returns (ghost k: nat)
    requires b.Valid() && q < |b.common|
    modifies b`evs, b`inMap, b`heap, b`common, b`active, b`later, b`count, b`countActive
    ensures b.Valid() && b.Same()
    ensures k <= |old(b.common)[q]| && b.common[q] == old(b.common)[q][k..]
    ensures b.common[q] != [] ==> Time(b.evs, b.common[q][0]) > now
    ensures forall id: nat | id < |b.evs| ::
              if id in old(b.common)[q][..k] then FiredBy(old(b.evs)[id], b.evs[id], now)
              else b.evs[id] == old(b.evs)[id]
    ensures FiredInOrder(old(b.evs), old(b.active), b.active, old(b.common)[q][..k])
    ensures forall i | 0 <= i < k :: old(b.common)[q][i] < |b.evs| && old(b.evs)[old(b.common)[q][i]].timeout
  {
    hide EventBase.Valid;
    hide ListsWithout;
    hide Fired;
    hide Distinct;
    hide FiredInOrder;
    hide Requeued;
    ghost var l := b.common[q];
    OnceEach(b, q);
    NoneFired(b.evs, b.active);
    assert l[..0] == [];
    k := 0;
    while b.common[q] != [] && Time(b.evs, b.common[q][0]) <= now
      invariant b.Valid() && b.Same()
      invariant k <= |l| && b.common[q] == l[k..]
      invariant forall id: nat | id < |b.evs| ::
                  if id in l[..k] then FiredBy(old(b.evs)[id], b.evs[id], now)
                  else b.evs[id] == old(b.evs)[id]
      invariant FiredInOrder(old(b.evs), old(b.active), b.active, l[..k])
      invariant forall i | 0 <= i < k :: l[i] < |b.evs| && old(b.evs)[l[i]].timeout
      decreases |b.common[q]|
    {
      HeadFacts(b, q);
      HeadOnce(b, q, l, k);
      QueueOf(b, l[k]);
      FiredNext(old(b.evs), old(b.active), b.active, l[..k], l[k]);
      Fire(b, b.common[q][0]);
      k := k + 1;
    }
  }

  lemma OnceEach(b: EventBase, q: nat)
    requires b.Valid() && q < |b.common|
    ensures Distinct(b.common[q])
  {
    assert Lists(b.common[q], b.evs, Common(q));
  }

  lemma HeadOnce(b: EventBase, q: nat, l: seq<nat>, k: nat)
    requires q < |b.common| && b.common[q] != [] && k < |l| && b.common[q] == l[k..] && Distinct(l)
    ensures l[k] !in l[..k] && l[..k + 1] == l[..k] + [l[k]] && b.common[q][0] == l[k] && b.common[q][1..] == l[k + 1..]
  {
  }

  /** `common_timeout_callback`: every event of the list whose deadline has passed fires, and the
      event of the list is scheduled for those that remain. */
  method CommonTimeoutCallback(b: EventBase, q: nat, now: int) returns (ghost k: nat)
    requires b.Valid() && q < |b.common| && b.due == q
    modifies b
    ensures b.Valid() && b.due == NOBODY && b.current == old(b.current)
    ensures |b.common| == |old(b.common)| && |b.evs| == |old(b.evs)| && |b.active| == |old(b.active)|
    ensures b.masters == old(b.masters) && b.durations == old(b.durations)
    ensures k <= |old(b.common)[q]| && b.common[q] == old(b.common)[q][k..]
    ensures b.common[q] != [] ==> Time(b.evs, b.common[q][0]) > now
    ensures forall id: nat | id < |b.evs| && id != b.masters[q] ::
              if id in old(b.common)[q][..k] then FiredBy(old(b.evs)[id], b.evs[id], now)
              else b.evs[id] == old(b.evs)[id]
    ensures forall i | 0 <= i < k :: old(b.common)[q][i] < |b.evs| && old(b.evs)[old(b.common)[q][i]].timeout
    ensures exists active :: FiredInOrder(old(b.evs), old(b.active), active, old(b.common)[q][..k])
                             && MasterAside(active, b.active, b.masters, q)
  {
    hide Fired;
    hide FiredInOrder;
    hide MasterAside;
    k := FireExpired(b, q, now);
    ghost var active := b.active;
    assert FiredInOrder(old(b.evs), old(b.active), active, old(b.common)[q][..k]);
    AsideNone(active, b.masters, q);
    b.due := NOBODY;
    if b.common[q] != [] {
      assert b.ValidExcept(q);
      Schedule(b, q, now);
    }
  }

  lemma AsideNone(active: seq<seq<nat>>, masters: seq<nat>, q: int)
    ensures MasterAside(active, active, masters, q)
  {
  }

  /** When the event of a list is taken off its queue, the list is looked at before anything else is
      lost: the list takes its place as the one that is due. */
  lemma MakeDue(b: EventBase, x: int)
    requires b.ValidExcept(x) && b.due == NOBODY
    ensures b.Core() && InTimeExcept(b.evs, b.common, b.masters, NOBODY, x)
  {
  }

  lemma HeadOfActive(b: EventBase, p: nat)
    requires b.Valid() && p < |b.active| && b.active[p] != []
    ensures var l := b.active[p];
      && l[0] < |b.evs| && b.evs[l[0]].active && b.evs[l[0]].pri == p && ListsWithout(b.active, p, l[0]) == b.active[p := l[1..]]
  {
    var l := b.active[p];
    assert Lists(l, b.evs, Active(p)) && l[0] in l;
    assert Removed(l, 0) == l[1..];
  }

  /** The event that `event_process_active_single_queue` has taken off its queue. */
  function Taken(e: Event): Event {
    if e.init && !e.persist && !e.finalizing then Deleted(e, false) else e.(active := false)
  }

  /** The part of `event_process_active_single_queue` that takes the first event off a queue; its
      callback runs next. */
  method TakeActive(b: EventBase, p: nat, mapRes: int) returns (id: nat)
    requires b.Valid() && p < |b.active| && b.active[p] != []
    requires b.current == NOBODY && b.due == NOBODY && -1 <= mapRes <= 1
    modifies b
    ensures b.Valid() && b.current == id && id == old(b.active)[p][0]
    ensures id < |old(b.evs)| && b.evs == old(b.evs)[id := Taken(old(b.evs)[id])] && !b.evs[id].active
    ensures b.evs[id] == if old(b.evs)[id].init && !old(b.evs)[id].persist && !old(b.evs)[id].finalizing
                         then old(b.evs)[id].(inserted := false, timeout := false, active := false, later := false)
                         else old(b.evs)[id].(active := false)
    ensures b.active == old(b.active)[p := old(b.active)[p][1..]]
    ensures b.later == old(b.later)
    ensures b.due == ListOf(b.masters, id) && b.masters == old(b.masters)
  {
    hide ListsWithout;
    hide QueuesOk;
    hide MastersOk;
    hide Total;
    hide Lengths;
    hide InTimeExcept;
    id := b.active[p][0];
    HeadOfActive(b, p);
    Facts(b, id, NOBODY);
    var x := ListOf(b.masters, id);
    Weaken(b, x);
    MasterOnce(b, id, x);
    if b.evs[id].init && !(b.evs[id].persist || b.evs[id].finalizing) {
      var res := EventDel(b, id, false, mapRes, x);
    } else {
      RemoveActive(b, id, x);
    }
    b.current := id;
    MakeDue(b, x);
    b.due := x;
  }

  /** The callback has returned. */
  method EndCallback(b: EventBase)
    requires b.Valid() && b.due == NOBODY
    modifies b`current
    ensures b.Valid() && b.current == NOBODY
  {
    b.current := NOBODY;
  }

  /** When a persistent event runs again: one interval after it was scheduled for, or after now if
      it fired for another reason or that time has passed. */
  function NextRun(e: Event, now: int): (r: Tv)
    ensures r.tag == e.when.tag && (e.ioTimeout.us >= 0 ==> r.us >= now)
    ensures Timeout in e.res && e.when.us + e.ioTimeout.us >= now ==> r.us == e.when.us + e.ioTimeout.us
    ensures Timeout !in e.res || e.when.us + e.ioTimeout.us < now ==> r.us == now + e.ioTimeout.us
  {
    var from := if Timeout in e.res then e.when.us else now;
    var at := from + e.ioTimeout.us;
    Tv(if at < now then now + e.ioTimeout.us else at, e.when.tag)
  }

  /** `event_persist_closure`, up to the callback. */
  method PersistClosure(b: EventBase, id: nat, now: int, mapRes: int)
    requires b.Valid() && b.Free(id, NOBODY) && b.evs[id].init && b.evs[id].closure.RunPersist? && -1 <= mapRes <= 1
    modifies b`evs, b`inMap, b`heap, b`common, b`active, b`count, b`countActive
    ensures b.Valid() && b.Same()
    ensures b.evs[id] == if old(b.evs)[id].ioTimeout.NonZero()
                         then Added(old(b.evs)[id], Some(NextRun(old(b.evs)[id], now)), true, now, mapRes)
                         else old(b.evs)[id]
    ensures var e := old(b.evs)[id];
      (mapRes >= 0 || e.inserted || !e.watches) && !e.finalizing && e.ioTimeout.NonZero() ==>
        TimeoutSetTo(e, b.evs[id], NextRun(e, now), true, now)
    ensures var e := old(b.evs)[id]; var s := old(b.active); var anew := e.ioTimeout.NonZero() && !AddFails(e, mapRes);
      MasterAside(if anew then QueuesCleared(s, e, id) else s, b.active, b.masters, e.when.tag)
    ensures forall j | 0 <= j < |b.evs| && j != id && j !in b.masters :: b.evs[j] == old(b.evs)[j]
  {
    hide Added;
    hide EventBase.Core;
    hide InTimeExcept;
    if b.evs[id].ioTimeout.NonZero() {
      Facts(b, id, NOBODY);
      assert b.evs[id].when.tag == b.evs[id].ioTimeout.tag;
      var delay := b.evs[id].ioTimeout.us;
      var relativeTo := if Timeout in b.evs[id].res then b.evs[id].when.us else now;
      var runAt := relativeTo + delay;
      if runAt < now {
        runAt := now + delay;
      }
      var res := EventAdd(b, id, Some(Tv(runAt, b.evs[id].ioTimeout.tag)), true, now, mapRes, NOBODY);
    }
  }
}
