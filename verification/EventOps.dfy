/** `event.c`: adding, deleting and activating events. */
module EventOps {
  import opened Basics
  import opened EventQueues
  import opened NatLists
  import opened EventLists
  import opened EventTimeouts

  /** What `EventAdd` makes of an event whose descriptor the map accepts or not. */
  function Added(e: Event, tv: Option<Tv>, absolute: bool, now: int, mapRes: int): Event {
    if AddFails(e, mapRes) then e
    else
      var e1 := if AddsToMap(e) then e.(inserted := true) else e;
      if tv.None? then e1 else SetTo(e1, tv.value, absolute, now)
  }

  predicate AddsToMap(e: Event) {
    e.watches && !e.inserted && !e.active && !e.later
  }

  predicate AddFails(e: Event, mapRes: int) {
    e.finalizing || (AddsToMap(e) && mapRes == -1)
  }

  function Deleted(e: Event, evenIfFinalizing: bool): Event {
    if e.finalizing && !evenIfFinalizing then e
    else e.(timeout := false, active := false, later := false, inserted := false)
  }

  function Activated(e: Event, why: set<Why>): Event {
    if e.finalizing then e
    else if e.active then e.(res := e.res + why)
    else if e.later then e.(res := e.res + why, later := false, active := true)
    else e.(res := why, active := true)
  }

  lemma Facts(b: EventBase, id: nat, x: int)
    requires b.ValidExcept(x) && id < |b.evs|
    ensures EventOk(b.evs[id], |b.active|, |b.common|)
    ensures |b.masters| == |b.common| && forall q | 0 <= q < |b.masters| && b.masters[q] == id :: MasterOk(b.evs[id])
  {
    EventFacts(b.evs, b.inMap, b.heap, b.common, b.active, b.later, id);
  }

  /** `event_add_nolock_`.  The result of the map is a parameter, and so is the time. */
  method EventAdd(b: EventBase, id: nat, tv: Option<Tv>, absolute: bool, now: int, mapRes: int, ghost x: int)
    returns (res: int)
    requires b.ValidExcept(x) && b.Free(id, x) && b.evs[id].init && -1 <= mapRes <= 1
    requires tv.Some? ==> -1 <= tv.value.tag < |b.common|
    requires x != NOBODY ==> 0 <= x < |b.masters| && b.masters[x] == id && absolute && tv.Some? && tv.value.tag == -1
    requires absolute && tv.Some? && b.evs[id].closure.RunPersist? && b.evs[id].ioTimeout.NonZero() ==>
               tv.value.tag == b.evs[id].ioTimeout.tag
    modifies b`evs, b`inMap, b`heap, b`common, b`active, b`count, b`countActive
    ensures b.ValidExcept(x) && b.Same()
    ensures res == if AddFails(old(b.evs)[id], mapRes) then -1 else 0
    ensures b.evs[id] == Added(old(b.evs)[id], tv, absolute, now, mapRes)
    ensures var e := old(b.evs)[id]; var a := b.evs[id];
      && (res == -1 <==> e.finalizing || (e.watches && !e.inserted && !e.active && !e.later && mapRes == -1))
      && (res == -1 ==> a == e)
      && (res == 0 ==> a.inserted == (e.inserted || (e.watches && !e.active && !e.later)))
      && (res == 0 && tv.None? ==> a == e.(inserted := a.inserted))
      && (res == 0 && tv.Some? ==> TimeoutSetTo(e, a, tv.value, absolute, now))
    ensures var s := if res == 0 && tv.Some? then QueuesCleared(old(b.active), old(b.evs)[id], id) else old(b.active);
      MasterAside(s, b.active, b.masters, if tv.Some? then tv.value.tag else -1)
    ensures old(b.evs)[id].when.tag < 0 && (tv.None? || tv.value.tag < 0) ==> b.common == old(b.common)
    ensures forall j | 0 <= j < |b.evs| && j != id &&
              !(tv.Some? && tv.value.tag >= 0 && b.masters[tv.value.tag] == j) :: b.evs[j] == old(b.evs)[j]
    decreases if tv.Some? && tv.value.tag >= 0 then 2 else 0
  {
    hide EventBase.ValidExcept;
    hide ListsWith;
    hide ListsWithout;
    hide ListsWithLast;
    Facts(b, id, x);
    if b.evs[id].finalizing {
      return -1;
    }
    res := 0;
    if b.evs[id].watches && !(b.evs[id].inserted || b.evs[id].active || b.evs[id].later) {
      res := mapRes;
      if res != -1 {
        InsertInserted(b, id, x);
      }
      if res == 1 {
        res := 0;
      }
    }
    if res != -1 && tv.Some? {
      SetTimeout(b, id, tv.value, absolute, now, x);
    }
  }

  /** The part of `event_add_nolock_` that takes back an earlier timeout: an event that is active
      because of it has not run, and is taken off its queue. */
  method ClearTimeout(b: EventBase, id: nat, ghost x: int)
    requires b.ValidExcept(x) && b.Free(id, x)
    modifies b`evs, b`heap, b`common, b`active, b`count, b`countActive
    ensures b.ValidExcept(x) && b.Same()
    ensures b.evs == old(b.evs)[id := Cleared(old(b.evs)[id])]
    ensures b.active == QueuesCleared(old(b.active), old(b.evs)[id], id)
    ensures old(b.evs)[id].when.tag < 0 ==> b.common == old(b.common)
  {
    hide EventBase.ValidExcept;
    hide ListsWith;
    hide ListsWithout;
    hide ListsWithLast;
    NoSuchList(b.common, b.evs[id].when.tag, id);
    if b.evs[id].timeout {
      RemoveTimeout(b, id, x);
    }
    TakeBack(b, id, x);
  }

  /** An event that is active because of its timeout is not any more. */
  method TakeBack(b: EventBase, id: nat, ghost x: int)
    requires b.ValidExcept(x) && b.Free(id, x)
    modifies b`evs, b`active, b`count, b`countActive
    ensures b.ValidExcept(x) && b.Same()
    ensures b.evs == old(b.evs)[id := old(b.evs)[id].(active := old(b.evs)[id].active && Timeout !in old(b.evs)[id].res)]
    ensures b.active == QueuesCleared(old(b.active), old(b.evs)[id], id)
  {
    hide EventBase.ValidExcept;
    hide ListsWithout;
    if b.evs[id].active && Timeout in b.evs[id].res {
      RemoveActive(b, id, x);
    }
  }

  /** The queues when an activation by an earlier timeout has been taken back. */
  function QueuesCleared(active: seq<seq<nat>>, e: Event, id: nat): seq<seq<nat>> {
    if e.active && Timeout in e.res then ListsWithout(active, e.pri, id) else active
  }

  /** At most the event that stands for common timeout `q` has left its queue, in which its callback waited. */
  ghost predicate MasterAside(active: seq<seq<nat>>, active': seq<seq<nat>>, masters: seq<nat>, q: int) {
    || active' == active
    || (0 <= q < |masters| && exists p :: active' == ListsWithout(active, p, masters[q]))
  }

  lemma NoSuchList(ls: seq<seq<nat>>, q: int, id: nat)
    ensures q < 0 ==> ListsWithout(ls, q, id) == ls
  {
  }

  lemma NewLists(ls: seq<seq<nat>>, q: int, id: nat)
    ensures forall i: nat | q < 0 :: ListsWith(ls, q, i, id) == ls
    ensures forall i: nat | 0 <= q < |ls| && i <= |ls[q]| ::
              |ListsWith(ls, q, i, id)| == |ls| && ListsWith(ls, q, i, id)[q] != []
  {
  }

  function Cleared(e: Event): Event {
    e.(timeout := false, active := e.active && Timeout !in e.res)
  }

  /** The event has this timeout and nothing is left of an earlier one: the deadline is an interval after now, or the
      time itself if it is absolute; a persistent event remembers its interval. */
  predicate TimeoutSetTo(e: Event, a: Event, tv: Tv, absolute: bool, now: int) {
    && a.timeout && a.when.tag == tv.tag && (absolute ==> a.when.us == tv.us) && (!absolute ==> a.when.us - now == tv.us)
    && a.ioTimeout == (if e.closure == RunPersist && !absolute then tv else e.ioTimeout)
    && a.active == (e.active && Timeout !in e.res)
    && a == e.(inserted := a.inserted, timeout := a.timeout, when := a.when, ioTimeout := a.ioTimeout, active := a.active)
  }

  function SetTo(e: Event, tv: Tv, absolute: bool, now: int): Event {
    Cleared(e).(timeout := true,
                when := Tv(if absolute then tv.us else now + tv.us, tv.tag),
                ioTimeout := if e.closure.RunPersist? && !absolute then tv else e.ioTimeout)
  }

  lemma SetToMeans(e: Event, tv: Tv, absolute: bool, now: int)
    ensures var a := SetTo(e, tv, absolute, now);
      && TimeoutSetTo(e, a, tv, absolute, now) && a.inserted == e.inserted
      && a == Cleared(e).(timeout := true, when := Tv(if absolute then tv.us else now + tv.us, tv.tag),
                          ioTimeout := if e.closure.RunPersist? && !absolute then tv else e.ioTimeout)
  {
  }

  lemma ClearedFacts(e: Event)
    ensures var c := Cleared(e);
      && !c.timeout && c.init == e.init && c.finalizing == e.finalizing && c.closure == e.closure
  {
  }

  /** The part of `event_add_nolock_` that deals with the timeout. */
  method SetTimeout(b: EventBase, id: nat, tv: Tv, absolute: bool, now: int, ghost x: int)
    requires b.ValidExcept(x) && b.Free(id, x) && b.evs[id].init && !b.evs[id].finalizing
    requires -1 <= tv.tag < |b.common|
    requires x != NOBODY ==> 0 <= x < |b.masters| && b.masters[x] == id && absolute && tv.tag == -1
    requires absolute && b.evs[id].closure.RunPersist? && b.evs[id].ioTimeout.NonZero() ==>
               tv.tag == b.evs[id].ioTimeout.tag
    modifies b`evs, b`inMap, b`heap, b`common, b`active, b`count, b`countActive
    ensures b.ValidExcept(x) && b.Same()
    ensures b.evs[id] == SetTo(old(b.evs)[id], tv, absolute, now)
    ensures TimeoutSetTo(old(b.evs)[id], b.evs[id], tv, absolute, now) && b.evs[id].inserted == old(b.evs)[id].inserted
    ensures MasterAside(QueuesCleared(old(b.active), old(b.evs)[id], id), b.active, b.masters, tv.tag)
    ensures old(b.evs)[id].when.tag < 0 && tv.tag < 0 ==> b.common == old(b.common)
    ensures forall j | 0 <= j < |b.evs| && j != id && !(tv.tag >= 0 && b.masters[tv.tag] == j) :: b.evs[j] == old(b.evs)[j]
    decreases if tv.tag >= 0 then 2 else 0, 1
  {
    hide EventBase.ValidExcept;
    hide Cleared;
    hide TimeoutSetTo;
    hide QueuesCleared;
    hide MasterAside;
    hide ListsWithout;
    hide SetTo;
    Facts(b, id, x);
    ClearedFacts(b.evs[id]);
    SetToMeans(b.evs[id], tv, absolute, now);
    var io := if b.evs[id].closure.RunPersist? && !absolute then tv else b.evs[id].ioTimeout;
    ClearTimeout(b, id, x);
    StartTimeout(b, id, Tv(if absolute then tv.us else now + tv.us, tv.tag), io, now, x);
  }

  /** The part of `event_add_nolock_` that sets the new timeout; when the event is the first on the
      list of a common timeout, the event of that list is scheduled. */
  method StartTimeout(b: EventBase, id: nat, when: Tv, io: Tv, now: int, ghost x: int)
    requires b.ValidExcept(x) && b.Free(id, x) && b.evs[id].init && !b.evs[id].finalizing && !b.evs[id].timeout
    requires -1 <= when.tag < |b.common| && -1 <= io.tag < |b.common|
    requires x != NOBODY ==> 0 <= x < |b.masters| && b.masters[x] == id && io == ZERO && when.tag == -1
    requires b.evs[id].closure.RunPersist? && io.NonZero() ==> when.tag == io.tag
    modifies b`evs, b`inMap, b`heap, b`common, b`active, b`count, b`countActive
    ensures b.ValidExcept(x) && b.Same()
    ensures b.evs[id] == old(b.evs)[id].(timeout := true, when := when, ioTimeout := io)
    ensures when.tag < 0 ==> b.common == old(b.common)
    ensures MasterAside(old(b.active), b.active, b.masters, when.tag)
    ensures forall j | 0 <= j < |b.evs| && j != id && !(when.tag >= 0 && b.masters[when.tag] == j) :: b.evs[j] == old(b.evs)[j]
    decreases if when.tag >= 0 then 2 else 0, 0
  {
    hide EventBase.ValidExcept;
    hide ListsWith;
    NewLists(b.common, when.tag, id);
    Facts(b, id, x);
    var i := InsertTimeout(b, id, when, io, x);
    if when.tag >= 0 && i == 0 {
      Schedule(b, when.tag, now);
    }
  }

  /** `common_timeout_schedule`. */
  method Schedule(b: EventBase, q: nat, now: int)
    requires b.ValidExcept(q) && q < |b.common| && b.common[q] != []
    modifies b`evs, b`inMap, b`heap, b`common, b`active, b`count, b`countActive
    ensures b.Valid() && b.Same() && InTime(b.evs, b.masters[q], b.common[q])
    ensures b.common == old(b.common)
    ensures MasterAside(old(b.active), b.active, b.masters, q)
    ensures forall j | 0 <= j < |b.evs| && j != b.masters[q] :: b.evs[j] == old(b.evs)[j]
    decreases 1
  {
    var res := EventAdd(b, b.masters[q], Some(Tv(Time(b.evs, b.common[q][0]), -1)), true, now, 0, q);
  }

  /** `event_del_nolock_`.  Whether the maps report a failure is a parameter. */
  method EventDel(b: EventBase, id: nat, evenIfFinalizing: bool, mapRes: int, ghost x: int) returns (res: int)
    requires b.ValidExcept(x) && b.Free(id, x) && -1 <= mapRes <= 1
    modifies b`evs, b`inMap, b`heap, b`common, b`active, b`later, b`count, b`countActive
    ensures b.ValidExcept(x) && b.Same()
    ensures b.evs == old(b.evs)[id := Deleted(old(b.evs)[id], evenIfFinalizing)]
    ensures var e := old(b.evs)[id]; var a := b.evs[id];
      && (e.finalizing && !evenIfFinalizing ==> a == e && res == 0)
      && (!e.finalizing || evenIfFinalizing ==> !a.inserted && !a.timeout && !a.active && !a.later)
      && a == e.(inserted := a.inserted, timeout := a.timeout, active := a.active, later := a.later)
      && res == if e.inserted && (!e.finalizing || evenIfFinalizing) && mapRes != 1 then mapRes else 0
    ensures old(b.evs)[id].timeout && !old(b.evs)[id].finalizing ==>
              b.common == ListsWithout(old(b.common), b.evs[id].when.tag, id)
    ensures !old(b.evs)[id].timeout ==> b.common == old(b.common)
    ensures var e := old(b.evs)[id]; var stays := e.finalizing && !evenIfFinalizing;
      && b.active == (if e.active && !stays then ListsWithout(old(b.active), e.pri, id) else old(b.active))
      && b.later == if e.later && !stays then WithoutAny(old(b.later), id) else old(b.later)
  {
    hide EventBase.ValidExcept;
    hide ListsWithout;
    hide Without;
    if !evenIfFinalizing && b.evs[id].finalizing {
      return 0;
    }
    res := 0;
    Withdraw(b, id, x);
    if b.evs[id].inserted {
      RemoveInserted(b, id, x);
      res := if mapRes == 1 then 0 else mapRes;
    }
  }

  /** The part of `event_del_nolock_` that takes an event off all lists but the maps. */
  method Withdraw(b: EventBase, id: nat, ghost x: int)
    requires b.ValidExcept(x) && b.Free(id, x)
    modifies b`evs, b`heap, b`common, b`active, b`later, b`count, b`countActive
    ensures b.ValidExcept(x) && b.Same()
    ensures b.evs == old(b.evs)[id := old(b.evs)[id].(timeout := false, active := false, later := false)]
    ensures b.common == if old(b.evs)[id].timeout then ListsWithout(old(b.common), b.evs[id].when.tag, id)
                        else old(b.common)
    ensures b.active == if old(b.evs)[id].active then ListsWithout(old(b.active), old(b.evs)[id].pri, id) else old(b.active)
    ensures b.later == if old(b.evs)[id].later then WithoutAny(old(b.later), id) else old(b.later)
  {
    hide EventBase.ValidExcept;
    hide ListsWithout;
    if b.evs[id].timeout {
      RemoveTimeout(b, id, x);
    }
    Deactivate(b, id, x);
  }

  /** The part of `event_del_nolock_` and `event_callback_cancel_nolock_` that takes an event off the
      queues of active events. */
  method Deactivate(b: EventBase, id: nat, ghost x: int)
    requires b.ValidExcept(x) && b.Free(id, x)
    modifies b`evs, b`active, b`later, b`count, b`countActive
    ensures b.ValidExcept(x) && b.Same()
    ensures b.evs == old(b.evs)[id := old(b.evs)[id].(active := false, later := false)]
    ensures b.active == if old(b.evs)[id].active then ListsWithout(old(b.active), old(b.evs)[id].pri, id) else old(b.active)
    ensures b.later == if old(b.evs)[id].later then WithoutAny(old(b.later), id) else old(b.later)
  {
    hide EventBase.ValidExcept;
    hide ListsWithout;
    hide Without;
    Facts(b, id, x);
    if b.evs[id].active {
      RemoveActive(b, id, x);
    } else if b.evs[id].later {
      RemoveLater(b, id, x);
    }
  }

  /** Sets `ev_res`. */
  method SetRes(b: EventBase, id: nat, res: set<Why>, ghost x: int)
    requires b.ValidExcept(x) && id < |b.evs|
    modifies b`evs
    ensures b.ValidExcept(x) && b.Same()
    ensures b.evs == old(b.evs)[id := old(b.evs)[id].(res := res)]
  {
    ghost var evs := b.evs;
    b.evs := b.evs[id := b.evs[id].(res := res)];
    FieldChange(evs, b.inMap, b.heap, b.common, b.active, b.later, b.masters, x, b.due, id, b.evs[id]);
    TotalStep(evs, id, b.evs[id]);
  }

  /** `event_active_nolock_`. */
  method EventActive(b: EventBase, id: nat, why: set<Why>, ghost x: int)
    requires b.ValidExcept(x) && b.Free(id, x)
    modifies b`evs, b`active, b`later, b`count, b`countActive
    ensures b.ValidExcept(x) && b.Same()
    ensures b.evs == old(b.evs)[id := Activated(old(b.evs)[id], why)]
    ensures var e := old(b.evs)[id]; var a := b.evs[id];
      && (e.finalizing ==> a == e)
      && (!e.finalizing ==> a.active && !a.later && a.res == if e.active || e.later then e.res + why else why)
      && a == e.(active := a.active, later := a.later, res := a.res)
    ensures b.active == if old(b.evs)[id].finalizing || old(b.evs)[id].active then old(b.active)
                        else ListsWithLast(old(b.active), b.evs[id].pri, id)
    ensures b.later == if old(b.evs)[id].finalizing || !old(b.evs)[id].later then old(b.later)
                       else WithoutAny(old(b.later), id)
  {
    hide EventBase.ValidExcept;
    hide ListsWithLast;
    Facts(b, id, x);
    if b.evs[id].finalizing {
      return;
    }
    if b.evs[id].active {
      SetRes(b, id, b.evs[id].res + why, x);
      return;
    }
    SetRes(b, id, if b.evs[id].later then b.evs[id].res + why else why, x);
    var r := CallbackActivate(b, id, x);
  }

  /** `event_callback_activate_nolock_`. */
  method CallbackActivate(b: EventBase, id: nat, ghost x: int) returns (r: int)
    requires b.ValidExcept(x) && b.Free(id, x)
    modifies b`evs, b`active, b`later, b`count, b`countActive
    ensures b.ValidExcept(x) && b.Same()
    ensures var e := old(b.evs)[id];
            b.evs == if e.finalizing then old(b.evs) else old(b.evs)[id := e.(active := true, later := false)]
    ensures b.active == if old(b.evs)[id].finalizing || old(b.evs)[id].active then old(b.active)
                        else ListsWithLast(old(b.active), b.evs[id].pri, id)
    ensures b.later == if old(b.evs)[id].finalizing || !old(b.evs)[id].later then old(b.later)
                       else WithoutAny(old(b.later), id)
    ensures r == if old(b.evs)[id].finalizing || old(b.evs)[id].active || old(b.evs)[id].later then 0 else 1
  {
    hide EventBase.ValidExcept;
    hide ListsWithLast;
    Facts(b, id, x);
    r := 1;
    if b.evs[id].finalizing {
      return 0;
    }
    if b.evs[id].later {
      RemoveLater(b, id, x);
      r := 0;
    } else if b.evs[id].active {
      return 0;
    }
    InsertActive(b, id, x);
  }
}
