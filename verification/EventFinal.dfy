/** `event.c`: activation for later, priorities, cancelling and finalizing, new events, and runs. */
module EventFinal {
  import opened EventQueues
  import opened NatLists
  import opened EventLists
  import opened EventTimeouts
  import opened EventOps
  import opened EventLoop

  /** `event_active_later_nolock_`. */
  method EventActiveLater(b: EventBase, id: nat, why: set<Why>)
    requires b.Valid() && b.Free(id, NOBODY)
    modifies b`evs, b`later, b`count, b`countActive
    ensures b.Valid() && b.Same()
    ensures var e := old(b.evs)[id];
            b.evs == old(b.evs)[id := if e.active || e.later then e.(res := e.res + why) else e.(res := why, later := true)]
    ensures b.later == if old(b.evs)[id].active || old(b.evs)[id].later then old(b.later) else old(b.later) + [id]
  {
    hide EventBase.ValidExcept;
    Facts(b, id, NOBODY);
    if b.evs[id].active || b.evs[id].later {
      SetRes(b, id, b.evs[id].res + why, NOBODY);
      return;
    }
    SetRes(b, id, why, NOBODY);
    InsertLater(b, id);
  }

  /** `event_callback_activate_later_nolock_`. */
  method CallbackActivateLater(b: EventBase, id: nat) returns (r: int)
    requires b.Valid() && b.Free(id, NOBODY)
    modifies b`evs, b`later, b`count, b`countActive
    ensures b.Valid() && b.Same()
    ensures r == if old(b.evs)[id].active || old(b.evs)[id].later then 0 else 1
    ensures b.evs == old(b.evs)[id := old(b.evs)[id].(later := !old(b.evs)[id].active)]
    ensures b.later == if r == 1 then old(b.later) + [id] else old(b.later)
  {
    hide EventBase.ValidExcept;
    Facts(b, id, NOBODY);
    if b.evs[id].active || b.evs[id].later {
      return 0;
    }
    InsertLater(b, id);
    return 1;
  }

  /** `event_priority_set`: not while the event is active. */
  method PrioritySet(b: EventBase, id: nat, pri: int) returns (r: int)
    requires b.Valid() && b.Free(id, NOBODY)
    modifies b`evs
    ensures b.Valid() && b.Same()
    ensures r == if old(b.evs)[id].active || pri < 0 || pri >= |b.active| then -1 else 0
    ensures b.evs == if r == 0 then old(b.evs)[id := old(b.evs)[id].(pri := pri)] else old(b.evs)
  {
    if b.evs[id].active || pri < 0 || pri >= |b.active| {
      return -1;
    }
    ghost var evs := b.evs;
    b.evs := b.evs[id := b.evs[id].(pri := pri)];
    FieldChange(evs, b.inMap, b.heap, b.common, b.active, b.later, b.masters, NOBODY, b.due, id, b.evs[id]);
    TotalStep(evs, id, b.evs[id]);
    r := 0;
  }

  /** The event is on no list any more, unless it is finalizing. */
  predicate Cancelled(e: Event, a: Event) {
    a == if e.finalizing then e else e.(inserted := false, timeout := false, active := false, later := false)
  }

  /** The event runs its finalizer next, and nothing else; one that is finalizing already gets another finalizer. */
  predicate Finalized(e: Event, a: Event) {
    && a.closure == RunFinalizer && a.finalizing
    && a == if e.finalizing then e.(closure := a.closure)
            else e.(inserted := false, timeout := false, later := false, active := true, finalizing := true, closure := a.closure)
  }

  /** `event_callback_cancel_nolock_`: an event is deleted, another callback leaves its queue. */
  method CallbackCancel(b: EventBase, id: nat, evenIfFinalizing: bool, mapRes: int) returns (res: int)
    requires b.Valid() && b.Free(id, NOBODY) && -1 <= mapRes <= 1
    modifies b`evs, b`inMap, b`heap, b`common, b`active, b`later, b`count, b`countActive
    ensures b.Valid() && b.Same()
    ensures b.evs == old(b.evs)[id := Deleted(old(b.evs)[id], evenIfFinalizing)]
    ensures evenIfFinalizing || Cancelled(old(b.evs)[id], b.evs[id])
    ensures var e := old(b.evs)[id]; var stays := e.finalizing && !evenIfFinalizing;
      && b.active == (if e.active && !stays then ListsWithout(old(b.active), e.pri, id) else old(b.active))
      && b.later == if e.later && !stays then WithoutAny(old(b.later), id) else old(b.later)
  {
    hide EventBase.ValidExcept;
    hide ListsWithout;
    hide WithoutAny;
    Facts(b, id, NOBODY);
    res := 0;
    if b.evs[id].finalizing && !evenIfFinalizing {
      return;
    }
    if b.evs[id].init {
      res := EventDel(b, id, evenIfFinalizing, mapRes, NOBODY);
    } else {
      Deactivate(b, id, NOBODY);
    }
  }

  /** Sets what runs when the event does, and whether it can be used again. */
  method SetFinal(b: EventBase, id: nat, closure: Closure, finalizing: bool)
    requires b.Valid() && b.Free(id, NOBODY) && closure != RunPersist
    requires finalizing ==> !b.evs[id].inserted && !b.evs[id].timeout
    modifies b`evs
    ensures b.Valid() && b.Same()
    ensures b.evs == old(b.evs)[id := old(b.evs)[id].(closure := closure, finalizing := finalizing)]
  {
    ghost var evs := b.evs;
    b.evs := b.evs[id := b.evs[id].(closure := closure, finalizing := finalizing)];
    FieldChange(evs, b.inMap, b.heap, b.common, b.active, b.later, b.masters, NOBODY, b.due, id, b.evs[id]);
    TotalStep(evs, id, b.evs[id]);
  }

  /** `event_finalize_nolock_`. */
  method Finalize(b: EventBase, id: nat, mapRes: int)
    requires b.Valid() && b.Free(id, NOBODY) && -1 <= mapRes <= 1
    modifies b`evs, b`inMap, b`heap, b`common, b`active, b`later, b`count, b`countActive
    ensures b.Valid() && b.Same()
    ensures var e := old(b.evs)[id];
      Finalized(if e.finalizing then e else e.(res := {EventQueues.Finalize}), b.evs[id])
    ensures b.active == if old(b.evs)[id].finalizing then old(b.active) else Requeued(old(b.active), b.evs[id].pri, id)
    ensures forall j | 0 <= j < |b.evs| && j != id :: b.evs[j] == old(b.evs)[j]
  {
    hide EventBase.ValidExcept;
    hide ListsWithout;
    hide ListsWithLast;
    hide WithoutAny;
    Facts(b, id, NOBODY);
    NotQueued(b, id, NOBODY);
    var res := EventDel(b, id, false, mapRes, NOBODY);
    SetFinal(b, id, RunFinalizer, b.evs[id].finalizing);
    EventActive(b, id, {EventQueues.Finalize}, NOBODY);
    SetFinal(b, id, b.evs[id].closure, true);
  }

  /** `event_callback_finalize_nolock_`. */
  method CallbackFinalize(b: EventBase, id: nat, mapRes: int)
    requires b.Valid() && b.Free(id, NOBODY) && -1 <= mapRes <= 1
    modifies b`evs, b`inMap, b`heap, b`common, b`active, b`later, b`count, b`countActive
    ensures b.Valid() && b.Same()
    ensures Finalized(old(b.evs)[id], b.evs[id])
    ensures b.active == if old(b.evs)[id].finalizing then old(b.active) else Requeued(old(b.active), b.evs[id].pri, id)
    ensures forall j | 0 <= j < |b.evs| && j != id :: b.evs[j] == old(b.evs)[j]
  {
    hide EventBase.ValidExcept;
    hide ListsWithout;
    hide ListsWithLast;
    hide WithoutAny;
    Facts(b, id, NOBODY);
    NotQueued(b, id, NOBODY);
    var res := CallbackCancel(b, id, false, mapRes);
    SetFinal(b, id, RunFinalizer, b.evs[id].finalizing);
    var r := CallbackActivate(b, id, NOBODY);
    SetFinal(b, id, b.evs[id].closure, true);
  }

  /** One round of `event_callback_finalize_many_`: the callback that is running gets its finalizer, any other is
      cancelled. */
  method EndOne(b: EventBase, id: nat) returns (ran: bool)
    requires b.Valid() && b.Free(id, NOBODY)
    modifies b`evs, b`inMap, b`heap, b`common, b`active, b`later, b`count, b`countActive
    ensures b.Valid() && b.Same() && ran == (id == b.current)
    ensures if ran then Finalized(old(b.evs)[id], b.evs[id]) else Cancelled(old(b.evs)[id], b.evs[id])
    ensures forall j | 0 <= j < |b.evs| && j != id :: b.evs[j] == old(b.evs)[j]
  {
    hide EventBase.ValidExcept;
    Facts(b, id, NOBODY);
    ran := id == b.current;
    if ran {
      CallbackFinalize(b, id, 0);
    } else {
      var res := CallbackCancel(b, id, false, 0);
    }
  }

  lemma EndedTwice(e: Event, a: Event, c: Event)
    ensures Cancelled(e, a) && Cancelled(a, c) ==> Cancelled(e, c)
    ensures Cancelled(e, a) && Finalized(a, c) ==> Finalized(e, c)
    ensures Finalized(e, a) && Finalized(a, c) ==> Finalized(e, c)
  {
  }

  /** `event_callback_finalize_many_`: all callbacks end; the one that is running, if it is among them, or else the
      first one runs the finalizer, and no other does. */
  method FinalizeMany(b: EventBase, ids: seq<nat>)
    requires b.Valid() && ids != [] && forall i | 0 <= i < |ids| :: b.Free(ids[i], NOBODY)
    modifies b`evs, b`inMap, b`heap, b`common, b`active, b`later, b`count, b`countActive
    ensures b.Valid() && b.Same()
    ensures forall j | 0 <= j < |b.evs| ::
              if j !in ids then b.evs[j] == old(b.evs)[j]
              else if j == b.current || (b.current !in ids && j == ids[0]) then Finalized(old(b.evs)[j], b.evs[j])
              else Cancelled(old(b.evs)[j], b.evs[j])
  {
    hide EventBase.ValidExcept;
    hide Cancelled;
    hide Finalized;
    var pending, i := 0, 0;
    ghost var evs := b.evs;
    while i < |ids|
      invariant 0 <= i <= |ids| && b.Valid() && b.Same() && pending >= 0 && (pending == 0 <==> b.current !in ids[..i])
      invariant forall j | 0 <= j < |evs| ::
                  if j !in ids[..i] then b.evs[j] == evs[j]
                  else if j == b.current then Finalized(evs[j], b.evs[j])
                  else Cancelled(evs[j], b.evs[j])
    {
      var id := ids[i];
      ghost var was := b.evs[id];
      var ran := EndOne(b, id);
      EndedTwice(evs[id], was, b.evs[id]);
      assert ids[..i + 1] == ids[..i] + [id];
      pending := pending + if ran then 1 else 0;
      i := i + 1;
    }
    assert ids[..i] == ids;
    if pending == 0 {
      ghost var was := b.evs[ids[0]];
      CallbackFinalize(b, ids[0], 0);
      EndedTwice(evs[ids[0]], was, b.evs[ids[0]]);
    }
  }
}
