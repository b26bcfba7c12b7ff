/** `event.c`: the functions that put an event in the heap or on the list of a common timeout. */
module EventTimeouts {
  import opened Basics
  import opened EventQueues
  import opened NatLists

  /** The sets and lists after a timeout has been taken away. */
  lemma TimeoutOff(evs: seq<Event>, inMap: set<nat>, heap: set<nat>, common: seq<seq<nat>>,
                   active: seq<seq<nat>>, later: seq<nat>, id: nat, common': seq<seq<nat>>)
    requires QueuesOk(evs, inMap, heap, common, active, later) && id < |evs| && evs[id].timeout
    requires -1 <= evs[id].when.tag < |common|
    requires var t := evs[id].when.tag;
      if t < 0 then common' == common
      else id in common[t] && common' == common[t := Without(common[t], id)]
    ensures QueuesOk(evs[id := evs[id].(timeout := false)], inMap,
                     if evs[id].when.tag < 0 then heap - {id} else heap, common', active, later)
  {
    hide Step;
    var e, t := evs[id].(timeout := false), evs[id].when.tag;
    forall q | 0 <= q < |common|
      ensures Step(common[q], common'[q], At(evs[id], Common(q)), At(e, Common(q)), id)
    {
      Unchanged(common[q], id);
      if q == t { Unlinked(common[q], id); }
    }
    forall p | 0 <= p < |active|
      ensures Step(active[p], active[p], At(evs[id], Active(p)), At(e, Active(p)), id)
    {
      Unchanged(active[p], id);
    }
    Unchanged(later, id);
    QueuesStep(evs, inMap, heap, common, active, later, id, e,
               inMap, if t < 0 then heap - {id} else heap, common', active, later);
  }

  /** The sets and lists after a timeout has been set. */
  lemma TimeoutOn(evs: seq<Event>, inMap: set<nat>, heap: set<nat>, common: seq<seq<nat>>,
                  active: seq<seq<nat>>, later: seq<nat>, id: nat, e: Event, i: nat, common': seq<seq<nat>>)
    requires QueuesOk(evs, inMap, heap, common, active, later) && id < |evs| && !evs[id].timeout
    requires e == evs[id].(timeout := true, when := e.when, ioTimeout := e.ioTimeout)
    requires EventOk(e, |active|, |common|)
    requires var t := e.when.tag;
      if t < 0 then common' == common
      else i <= |common[t]| && common' == common[t := Inserted(common[t], i, id)] && Sorted(common'[t], evs[id := e])
    ensures QueuesOk(evs[id := e], inMap, if e.when.tag < 0 then heap + {id} else heap, common', active, later)
  {
    hide Step;
    var t := e.when.tag;
    forall q | 0 <= q < |common|
      ensures Step(common[q], common'[q], At(evs[id], Common(q)), At(e, Common(q)), id)
    {
      Unchanged(common[q], id);
      if q == t { Linked(common[q], i, id); }
    }
    forall p | 0 <= p < |active|
      ensures Step(active[p], active[p], At(evs[id], Active(p)), At(e, Active(p)), id)
    {
      Unchanged(active[p], id);
    }
    Unchanged(later, id);
    QueuesStep(evs, inMap, heap, common, active, later, id, e,
               inMap, if t < 0 then heap + {id} else heap, common', active, later);
  }

  lemma Linked(l: seq<nat>, i: nat, id: nat)
    requires i <= |l|
    ensures Step(l, Inserted(l, i, id), false, true, id)
  {
  }

  /** `insert_common_timeout_inorder`: looks from the end for the last event that is not later. */
  method FindPosition(l: seq<nat>, evs: seq<Event>, us: int) returns (i: nat)
    requires Sorted(l, evs)
    ensures i <= |l|
    ensures forall j | 0 <= j < i :: Time(evs, l[j]) <= us
    ensures forall j | i <= j < |l| :: us < Time(evs, l[j])
  {
    i := |l|;
    while i > 0 && Time(evs, l[i - 1]) > us
      invariant i <= |l|
      invariant forall j | i <= j < |l| :: us < Time(evs, l[j])
    {
      i := i - 1;
    }
  }

  lemma InsertedSorted(l: seq<nat>, evs: seq<Event>, id: nat, e: Event, i: nat)
    requires Sorted(l, evs) && id !in l && id < |evs| && i <= |l|
    requires forall j | 0 <= j < i :: Time(evs, l[j]) <= e.when.us
    requires forall j | i <= j < |l| :: e.when.us < Time(evs, l[j])
    ensures Sorted(Inserted(l, i, id), evs[id := e])
  {
    var l', evs' := Inserted(l, i, id), evs[id := e];
    forall j, k | 0 <= j < k < |l'|
      ensures Time(evs', l'[j]) <= Time(evs', l'[k])
    {
      InsertedTime(l, evs, id, e, i, j);
      InsertedTime(l, evs, id, e, i, k);
    }
  }

  lemma InsertedTime(l: seq<nat>, evs: seq<Event>, id: nat, e: Event, i: nat, j: nat)
    requires id !in l && id < |evs| && i <= |l| && j <= |l|
    ensures |Inserted(l, i, id)| == |l| + 1
    ensures Time(evs[id := e], Inserted(l, i, id)[j]) ==
            if j < i then Time(evs, l[j]) else if j == i then e.when.us else Time(evs, l[j - 1])
  {
    var y := if j < i then l[j] else if j == i then id else l[j - 1];
    assert Inserted(l, i, id)[j] == y;
    assert j != i ==> y in l;
  }

  /** When an event leaves a list, the new head is not earlier. */
  lemma WithoutHead(l: seq<nat>, evs: seq<Event>, id: nat)
    requires id in l && Sorted(l, evs)
    ensures Without(l, id) != [] ==> Time(evs, Without(l, id)[0]) >= Time(evs, l[0])
  {
  }

  /** `event_queue_remove_timeout`. */
  method RemoveTimeout(b: EventBase, id: nat, ghost x: int)
    requires b.ValidExcept(x) && b.Free(id, x) && b.evs[id].timeout
    modifies b`evs, b`heap, b`common, b`count
    ensures b.ValidExcept(x) && b.Same()
    ensures b.evs == old(b.evs)[id := old(b.evs)[id].(timeout := false)]
    ensures b.common == ListsWithout(old(b.common), b.evs[id].when.tag, id)
  {
    hide QueuesOk;
    hide Total;
    hide Lengths;
    hide InTimeExcept;
    hide Without;
    EventFacts(b.evs, b.inMap, b.heap, b.common, b.active, b.later, id);
    ghost var evs, heap, common := b.evs, b.heap, b.common;
    b.count := b.count - One(!b.evs[id].internal);
    b.evs := b.evs[id := b.evs[id].(timeout := false)];
    var t := b.evs[id].when.tag;
    if t >= 0 {
      ListFacts(evs, b.inMap, heap, common, b.active, b.later, t);
      WithoutHead(common[t], evs, id);
      b.common := b.common[t := Without(b.common[t], id)];
    } else {
      b.heap := b.heap - {id};
    }
    TimeoutOff(evs, b.inMap, heap, common, b.active, b.later, id, b.common);
    TotalStep(evs, id, b.evs[id]);
    SameTimes(evs, id, b.evs[id]);
    InTimeStep(evs, common, b.masters, x, b.due, id, b.evs[id], b.common);
  }

  lemma SameTimes(evs: seq<Event>, id: nat, e: Event)
    requires id < |evs| && e.when == evs[id].when
    ensures forall j: nat :: Time(evs[id := e], j) == Time(evs, j)
  {
  }

  lemma ListFacts(evs: seq<Event>, inMap: set<nat>, heap: set<nat>, common: seq<seq<nat>>,
                  active: seq<seq<nat>>, later: seq<nat>, t: nat)
    requires QueuesOk(evs, inMap, heap, common, active, later) && t < |common|
    ensures Sorted(common[t], evs) && forall id: nat | id in common[t] :: id < |evs| && At(evs[id], Common(t))
  {
    assert Lists(common[t], evs, Common(t));
  }

  /** A head that has not left or got a new time is where it was. */
  lemma HeadsElsewhere(evs: seq<Event>, inMap: set<nat>, heap: set<nat>, common: seq<seq<nat>>,
                       active: seq<seq<nat>>, later: seq<nat>, id: nat, e: Event)
    requires QueuesOk(evs, inMap, heap, common, active, later) && id < |evs| && !evs[id].timeout
    ensures forall q | 0 <= q < |common| && common[q] != [] ::
              Time(evs[id := e], common[q][0]) == Time(evs, common[q][0])
  {
    forall q | 0 <= q < |common| && common[q] != []
      ensures common[q][0] != id
    {
      assert Lists(common[q], evs, Common(q)) && common[q][0] in common[q];
    }
  }

  /** The lists and their events after a timeout has been set. */
  lemma TimeoutSet(evs: seq<Event>, inMap: set<nat>, heap: set<nat>, common: seq<seq<nat>>,
                   active: seq<seq<nat>>, later: seq<nat>, masters: seq<nat>, due: int, x: int,
                   id: nat, e: Event, i: nat, common': seq<seq<nat>>)
    requires QueuesOk(evs, inMap, heap, common, active, later) && InTimeExcept(evs, common, masters, x, due)
    requires id < |evs| && !evs[id].timeout && forall q | 0 <= q < |masters| && masters[q] == id :: q == x
    requires e == evs[id].(timeout := true, when := e.when, ioTimeout := e.ioTimeout)
    requires EventOk(e, |active|, |common|) && (e.when.tag >= 0 ==> x == NOBODY)
    requires var t := e.when.tag;
      if t < 0 then common' == common && i == 0
      else
        && i <= |common[t]| && common' == common[t := Inserted(common[t], i, id)]
        && (forall j | 0 <= j < i :: Time(evs, common[t][j]) <= e.when.us)
        && (forall j | i <= j < |common[t]| :: e.when.us < Time(evs, common[t][j]))
    ensures QueuesOk(evs[id := e], inMap, if e.when.tag < 0 then heap + {id} else heap, common', active, later)
    ensures InTimeExcept(evs[id := e], common', masters, if e.when.tag >= 0 && i == 0 then e.when.tag else x, due)
  {
    hide QueuesOk;
    hide Inserted;
    hide InTimeExcept;
    HeadsElsewhere(evs, inMap, heap, common, active, later, id, e);
    var t := e.when.tag;
    if t >= 0 {
      ListFacts(evs, inMap, heap, common, active, later, t);
      InsertedSorted(common[t], evs, id, e, i);
      InsertedHead(common[t], i, id);
    }
    TimeoutOn(evs, inMap, heap, common, active, later, id, e, i, common');
    var y := if t >= 0 && i == 0 then t else x;
    Weaker(evs, common, masters, x, y, due);
    InTimeStep(evs, common, masters, y, due, id, e, common');
  }

  /** Where a new timeout goes in its list; the heap has no places. */
  method PlaceFor(b: EventBase, when: Tv) returns (i: nat)
    requires QueuesOk(b.evs, b.inMap, b.heap, b.common, b.active, b.later) && -1 <= when.tag < |b.common|
    ensures when.tag < 0 ==> i == 0
    ensures when.tag >= 0 ==> var l := b.common[when.tag];
      && i <= |l|
      && (forall j | 0 <= j < i :: Time(b.evs, l[j]) <= when.us)
      && (forall j | i <= j < |l| :: when.us < Time(b.evs, l[j]))
  {
    hide QueuesOk;
    i := 0;
    if when.tag >= 0 {
      ListFacts(b.evs, b.inMap, b.heap, b.common, b.active, b.later, when.tag);
      i := FindPosition(b.common[when.tag], b.evs, when.us);
    }
  }

  /** `ev_timeout` is set and `event_queue_insert_timeout` called.  A list with a new head is not
      watched until its event has been scheduled. */
  method InsertTimeout(b: EventBase, id: nat, when: Tv, io: Tv, ghost x: int) returns (i: nat)
    requires b.ValidExcept(x) && b.Free(id, x) && !b.evs[id].timeout
    requires b.evs[id].init && !b.evs[id].finalizing
    requires -1 <= when.tag < |b.common| && -1 <= io.tag < |b.common|
    requires b.evs[id].closure.RunPersist? && io.NonZero() ==> when.tag == io.tag
    requires when.tag >= 0 ==> x == NOBODY
    requires x != NOBODY ==> io == ZERO
    modifies b`evs, b`heap, b`common, b`count
    ensures b.evs == old(b.evs)[id := old(b.evs)[id].(timeout := true, when := when, ioTimeout := io)]
    ensures b.Same()
    ensures b.ValidExcept(if when.tag >= 0 && i == 0 then when.tag else x)
    ensures b.common == ListsWith(old(b.common), when.tag, i, id)
    ensures when.tag >= 0 ==> i <= |old(b.common)[when.tag]|
  {
    hide QueuesOk;
    hide Lists;
    hide Without;
    hide Total;
    hide Lengths;
    hide InTimeExcept;
    hide Inserted;
    hide Sorted;
    hide MastersOk;
    hide At;
    EventFacts(b.evs, b.inMap, b.heap, b.common, b.active, b.later, id);
    ghost var evs, heap, common := b.evs, b.heap, b.common;
    TimeoutOk(evs[id], when, io, |b.active|, |common|);
    hide EventOk;
    var t := when.tag;
    i := PlaceFor(b, when);
    b.count := b.count + One(!b.evs[id].internal);
    b.evs := b.evs[id := b.evs[id].(timeout := true, when := when, ioTimeout := io)];
    if t >= 0 {
      b.common := b.common[t := Inserted(b.common[t], i, id)];
    } else {
      b.heap := b.heap + {id};
    }
    TimeoutSet(evs, b.inMap, heap, common, b.active, b.later, b.masters, b.due, x, id, b.evs[id], i, b.common);
    TotalStep(evs, id, b.evs[id]);
    MastersStep(evs, b.masters, id, b.evs[id]);
  }

  lemma TimeoutOk(e: Event, when: Tv, io: Tv, nactive: nat, ncommon: nat)
    requires EventOk(e, nactive, ncommon) && e.init && !e.finalizing
    requires -1 <= when.tag < ncommon && -1 <= io.tag < ncommon && (e.closure.RunPersist? && io.NonZero() ==> when.tag == io.tag)
    ensures EventOk(e.(timeout := true, when := when, ioTimeout := io), nactive, ncommon)
  {
  }

  lemma MastersStep(evs: seq<Event>, masters: seq<nat>, id: nat, e: Event)
    requires MastersOk(evs, masters) && id < |evs| && (id in masters && MasterOk(evs[id]) ==> MasterOk(e))
    ensures MastersOk(evs[id := e], masters)
  {
  }

  lemma InsertedHead(l: seq<nat>, i: nat, id: nat)
    requires i <= |l|
    ensures Inserted(l, i, id) != [] && (i > 0 ==> Inserted(l, i, id)[0] == l[0])
    ensures i == 0 ==> Inserted(l, i, id)[0] == id
  {
  }

  lemma Weaker(evs: seq<Event>, common: seq<seq<nat>>, masters: seq<nat>, x: int, y: int, due: int)
    requires InTimeExcept(evs, common, masters, x, due) && (x == y || x == NOBODY)
    ensures InTimeExcept(evs, common, masters, y, due)
  {
  }
}
