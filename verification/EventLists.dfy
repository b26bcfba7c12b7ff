/** `event.c`: the functions that put an event on one list or take it off. */
module EventLists {
  import opened Basics
  import opened EventQueues
  import opened NatLists

  /** `event_queue_insert_inserted`, after the event has gone into the map. */
  method InsertInserted(b: EventBase, id: nat, ghost x: int)
    requires b.ValidExcept(x) && b.Free(id, x)
    requires !b.evs[id].inserted && b.evs[id].watches && b.evs[id].init && !b.evs[id].finalizing
    modifies b`evs, b`inMap, b`count
    ensures b.ValidExcept(x) && b.Same()
    ensures b.evs == old(b.evs)[id := old(b.evs)[id].(inserted := true)]
  {
    hide QueuesOk;
    hide Step;
    hide Without;
    hide Total;
    hide Lengths;
    hide InTimeExcept;
    EventFacts(b.evs, b.inMap, b.heap, b.common, b.active, b.later, id);
    ghost var evs, inMap := b.evs, b.inMap;
    b.inMap := b.inMap + {id};
    b.count := b.count + One(!b.evs[id].internal);
    b.evs := b.evs[id := b.evs[id].(inserted := true)];
    MapChange(evs, inMap, b.heap, b.common, b.active, b.later, id, b.evs[id], b.inMap);
    TotalStep(evs, id, b.evs[id]);
    InTimeStep(evs, b.common, b.masters, x, b.due, id, b.evs[id], b.common);
  }

  /** `event_queue_remove_inserted`, before the event leaves the map. */
  method RemoveInserted(b: EventBase, id: nat, ghost x: int)
    requires b.ValidExcept(x) && b.Free(id, x) && b.evs[id].inserted
    modifies b`evs, b`inMap, b`count
    ensures b.ValidExcept(x) && b.Same()
    ensures b.evs == old(b.evs)[id := old(b.evs)[id].(inserted := false)]
  {
    hide QueuesOk;
    hide Step;
    hide Without;
    hide Total;
    hide Lengths;
    hide InTimeExcept;
    EventFacts(b.evs, b.inMap, b.heap, b.common, b.active, b.later, id);
    ghost var evs, inMap := b.evs, b.inMap;
    b.inMap := b.inMap - {id};
    b.count := b.count - One(!b.evs[id].internal);
    b.evs := b.evs[id := b.evs[id].(inserted := false)];
    MapChange(evs, inMap, b.heap, b.common, b.active, b.later, id, b.evs[id], b.inMap);
    TotalStep(evs, id, b.evs[id]);
    InTimeStep(evs, b.common, b.masters, x, b.due, id, b.evs[id], b.common);
  }

  /** `event_queue_insert_active`. */
  method InsertActive(b: EventBase, id: nat, ghost x: int)
    requires b.ValidExcept(x) && b.Free(id, x) && !b.evs[id].later
    modifies b`evs, b`active, b`count, b`countActive
    ensures b.ValidExcept(x) && b.Same()
    ensures b.evs == old(b.evs)[id := old(b.evs)[id].(active := true)]
    ensures b.active == if old(b.evs)[id].active then old(b.active)
                        else ListsWithLast(old(b.active), b.evs[id].pri, id)
  {
    hide QueuesOk;
    hide Step;
    hide Without;
    hide Total;
    hide Lengths;
    hide InTimeExcept;
    EventFacts(b.evs, b.inMap, b.heap, b.common, b.active, b.later, id);
    if b.evs[id].active {
      return;
    }
    ghost var evs, active := b.evs, b.active;
    var p := b.evs[id].pri;
    b.count := b.count + One(!b.evs[id].internal);
    b.evs := b.evs[id := b.evs[id].(active := true)];
    b.countActive := b.countActive + 1;
    b.active := b.active[p := b.active[p] + [id]];
    Appended(active[p], id);
    ActiveChange(evs, b.inMap, b.heap, b.common, active, b.later, id, b.evs[id], b.active[p]);
    TotalStep(evs, id, b.evs[id]);
    LengthsStep(active, p, b.active[p]);
    InTimeStep(evs, b.common, b.masters, x, b.due, id, b.evs[id], b.common);
  }

  /** `event_queue_remove_active`. */
  method RemoveActive(b: EventBase, id: nat, ghost x: int)
    requires b.ValidExcept(x) && b.Free(id, x) && b.evs[id].active
    modifies b`evs, b`active, b`count, b`countActive
    ensures b.ValidExcept(x) && b.Same()
    ensures b.evs == old(b.evs)[id := old(b.evs)[id].(active := false)]
    ensures b.active == ListsWithout(old(b.active), b.evs[id].pri, id)
  {
    hide QueuesOk;
    hide Step;
    hide Without;
    hide Total;
    hide Lengths;
    hide InTimeExcept;
    EventFacts(b.evs, b.inMap, b.heap, b.common, b.active, b.later, id);
    ghost var evs, active := b.evs, b.active;
    var p := b.evs[id].pri;
    Unlinked(active[p], id);
    b.count := b.count - One(!b.evs[id].internal);
    b.evs := b.evs[id := b.evs[id].(active := false)];
    b.countActive := b.countActive - 1;
    b.active := b.active[p := Without(b.active[p], id)];
    ActiveChange(evs, b.inMap, b.heap, b.common, active, b.later, id, b.evs[id], b.active[p]);
    TotalStep(evs, id, b.evs[id]);
    LengthsStep(active, p, b.active[p]);
    InTimeStep(evs, b.common, b.masters, x, b.due, id, b.evs[id], b.common);
  }

  /** `event_queue_insert_active_later`. */
  method InsertLater(b: EventBase, id: nat)
    requires b.Valid() && b.Free(id, NOBODY)
    modifies b`evs, b`later, b`count, b`countActive
    ensures b.Valid() && b.Same()
    ensures b.evs == old(b.evs)[id := old(b.evs)[id].(later := !old(b.evs)[id].active)]
    ensures b.later == if old(b.evs)[id].active || old(b.evs)[id].later then old(b.later) else old(b.later) + [id]
  {
    hide QueuesOk;
    hide Step;
    hide Without;
    hide Total;
    hide Lengths;
    hide InTimeExcept;
    EventFacts(b.evs, b.inMap, b.heap, b.common, b.active, b.later, id);
    if b.evs[id].later || b.evs[id].active {
      return;
    }
    ghost var evs, later := b.evs, b.later;
    b.count := b.count + One(!b.evs[id].internal);
    b.evs := b.evs[id := b.evs[id].(later := true)];
    b.countActive := b.countActive + 1;
    b.later := b.later + [id];
    Appended(later, id);
    LaterChange(evs, b.inMap, b.heap, b.common, b.active, later, id, b.evs[id], b.later);
    TotalStep(evs, id, b.evs[id]);
    InTimeStep(evs, b.common, b.masters, NOBODY, b.due, id, b.evs[id], b.common);
  }

  /** `event_queue_remove_active_later`. */
  method RemoveLater(b: EventBase, id: nat, ghost x: int)
    requires b.ValidExcept(x) && b.Free(id, x) && b.evs[id].later
    modifies b`evs, b`later, b`count, b`countActive
    ensures b.ValidExcept(x) && b.Same()
    ensures b.evs == old(b.evs)[id := old(b.evs)[id].(later := false)]
    ensures id in old(b.later) && b.later == Without(old(b.later), id)
  {
    hide QueuesOk;
    hide Step;
    hide Without;
    hide Total;
    hide Lengths;
    hide InTimeExcept;
    EventFacts(b.evs, b.inMap, b.heap, b.common, b.active, b.later, id);
    ghost var evs, later := b.evs, b.later;
    b.count := b.count - One(!b.evs[id].internal);
    b.evs := b.evs[id := b.evs[id].(later := false)];
    b.countActive := b.countActive - 1;
    Unlinked(later, id);
    b.later := Without(b.later, id);
    LaterChange(evs, b.inMap, b.heap, b.common, b.active, later, id, b.evs[id], b.later);
    TotalStep(evs, id, b.evs[id]);
    InTimeStep(evs, b.common, b.masters, x, b.due, id, b.evs[id], b.common);
  }
}
