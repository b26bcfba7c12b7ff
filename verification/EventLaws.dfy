/** `event.c`: what holds over whole runs of an event base: intervals are waited for, events stay what they were
    assigned for, and callbacks run in the order in which they were activated. */
module EventLaws {
  import opened Basics
  import opened EventQueues
  import opened NatLists
  import opened EventOps
  import opened EventLoop
  import opened EventFinal
  import opened EventRun

  /** Time passes for an operation of the loop that may fire events. */
  predicate TimeIsBefore(op: Op, when: int) {
    (op.OpTimeouts? ==> op.now < when) && (op.OpCommonCallback? ==> op.now < when)
  }

  /** An event that is added with an interval waits for all of it: as long as nothing is done to it and the time has
      not come, its timeout is pending. */
  lemma WaitsItsTime(states: seq<Snapshot>, ops: seq<Op>, i: nat, j: nat, id: nat, tv: Tv, now: int, mapRes: int)
    requires Trace(states, ops) && i < j <= |ops| && ops[i] == OpAdd(id, Some(tv), now, mapRes)
    requires id < |states[i].evs| && id !in states[i].masters
    requires var e := states[i].evs[id];
      !e.finalizing && (mapRes >= 0 || !e.watches || e.inserted || e.active || e.later)
    requires forall k | i < k < j :: !Concerns(states[k], ops[k], id) && TimeIsBefore(ops[k], now + tv.us)
    ensures Pending(states[j], id, Tv(now + tv.us, tv.tag))
  {
    var when := Tv(now + tv.us, tv.tag);
    assert StepOk(states[i], ops[i], states[i + 1]) && Pending(states[i + 1], id, when);
    PendingUntilFired(states, ops, i + 1, j, id, when);
    if k :| i < k < j && Pending(states[k], id, when) && FiredIn(states[k], ops[k], states[k + 1], id) {
      assert false;
    }
  }

  /** When the heap is processed, a pending event fires exactly if its time has come; it is active then because of
      its timeout, and added no more. */
  lemma FiresInTime(s: Snapshot, now: int, s': Snapshot, id: nat, us: int)
    requires StepOk(s, OpTimeouts(now), s') && Pending(s, id, Tv(us, -1)) && !s.evs[id].finalizing
    requires s.evs[id].pri < |s.active|
    ensures id < |s'.evs| && var a := s'.evs[id];
      if us <= now then
        && a.active && a.res == {Timeout} && !a.timeout && !a.inserted && !a.later
        && a.pri < |s'.active| && id in s'.active[a.pri]
      else a == s.evs[id]
  {
    hide AheadOf;
    assert Passed(s.evs[id], now) <==> us <= now;
    if us <= now {
      assert s'.evs[id] == Fired(s.evs[id]);
    }
  }

  // ---- what an event was assigned for

  lemma {:induction false} MastersBelow(states: seq<Snapshot>, ops: seq<Op>, npriorities: nat, i: nat)
    requires Trace(states, ops) && states[0] == Start(npriorities) && i <= |ops|
    ensures forall m | m in states[i].masters :: m < |states[i].evs|
  {
    if i > 0 {
      MastersBelow(states, ops, npriorities, i - 1);
      assert StepOk(states[i - 1], ops[i - 1], states[i]);
      MastersGrow(states[i - 1], ops[i - 1], states[i]);
    }
  }

  lemma MastersGrow(s: Snapshot, op: Op, s': Snapshot)
    requires StepOk(s, op, s')
    ensures |s.evs| <= |s'.evs| && s.masters <= s'.masters
    ensures forall m | m in s'.masters :: m in s.masters || |s.evs| <= m < |s'.evs|
  {
    match op
    case OpCommonCallback(now) =>
      var k: nat :| CallbackOk(s, s', s.due, now, k) && CallbackOrder(s, s', s.due, k);
    case _ =>
  }

  /** What `event_assign` has made of an event, whatever has become of it since. */
  predicate AssignedFor(e: Event, io: bool, signal: bool, persist: bool, internal: bool) {
    && e.init && e.watches == (io || signal) && e.persist == persist && e.internal == internal
    && (e.closure == RunFinalizer || e.closure == if signal then RunSignal else if persist then RunPersist else RunEvent)
  }

  /** The event is for the same as before. */
  predicate SameKind(e: Event, a: Event) {
    && a.init == e.init && a.watches == e.watches && a.persist == e.persist && a.internal == e.internal
    && (a.closure == e.closure || a.closure == RunFinalizer)
  }

  lemma AddedKind(e: Event, tv: Option<Tv>, absolute: bool, now: int, mapRes: int)
    ensures SameKind(e, Added(e, tv, absolute, now, mapRes))
  {
  }

  lemma DeletedKind(e: Event)
    ensures forall even :: SameKind(e, Deleted(e, even))
    ensures SameKind(e, Taken(e)) && SameKind(e, MadeActive(e))
  {
  }

  lemma ActivatedKind(e: Event)
    ensures forall why :: SameKind(e, Activated(e, why))
    ensures SameKind(e, Fired(e))
  {
  }

  lemma FinalizedKind(e: Event, a: Event)
    requires Finalized(if e.finalizing then e else e.(res := {EventQueues.Finalize}), a)
    ensures SameKind(e, a)
  {
  }

  /** What callers ask for does not change what an event is for. */
  lemma NewKind(s: Snapshot, op: Op, s': Snapshot, id: nat)
    requires StepOk(s, op, s') && id < |s.evs| && id !in s.masters && op.Adds()
    ensures id < |s'.evs| && SameKind(s.evs[id], s'.evs[id])
  {
    hide Added;
    hide AddQueues;
    match op
    case OpAssign(_, _, _, _) => assert s'.evs[..|s.evs|][id] == s'.evs[id];
    case OpCommon(_, _) => assert s'.evs[..|s.evs|][id] == s'.evs[id];
    case OpAdd(_, tv, now, mapRes) => AddedKind(s.evs[id], tv, false, now, mapRes);
  }

  lemma CallKind(s: Snapshot, op: Op, s': Snapshot, id: nat)
    requires StepOk(s, op, s') && id < |s.evs| && id !in s.masters && op.IsCall()
    ensures id < |s'.evs| && SameKind(s.evs[id], s'.evs[id])
  {
    DeletedKind(s.evs[id]);
    ActivatedKind(s.evs[id]);
    hide Deleted;
    hide Activated;
    hide Finalized;
    hide Withdrawn;
    match op
    case OpFinalize(i) => FinalizedKind(s.evs[i], s'.evs[i]);
    case _ =>
  }

  /** Nor does the loop. */
  lemma LoopKind(s: Snapshot, op: Op, s': Snapshot, id: nat)
    requires StepOk(s, op, s') && id < |s.evs| && id !in s.masters && !op.Adds() && !op.IsCall()
    ensures id < |s'.evs| && SameKind(s.evs[id], s'.evs[id])
  {
    DeletedKind(s.evs[id]);
    ActivatedKind(s.evs[id]);
    hide Added;
    hide Fired;
    hide Taken;
    hide MadeActive;
    hide AddQueues;
    hide FiredInOrder;
    match op
    case OpPersist(now, mapRes) => AddedKind(s.evs[id], Some(NextRun(s.evs[id], now)), true, now, mapRes);
    case OpCommonCallback(now) =>
      var k: nat :| CallbackOk(s, s', s.due, now, k) && CallbackOrder(s, s', s.due, k);
    case _ =>
  }

  lemma AssignedStep(s: Snapshot, op: Op, s': Snapshot, id: nat, io: bool, signal: bool, persist: bool, internal: bool)
    requires StepOk(s, op, s') && id < |s.evs| && id !in s.masters && AssignedFor(s.evs[id], io, signal, persist, internal)
    ensures id < |s'.evs| && id !in s'.masters && AssignedFor(s'.evs[id], io, signal, persist, internal)
  {
    MastersGrow(s, op, s');
    if op.Adds() {
      NewKind(s, op, s', id);
    } else if op.IsCall() {
      CallKind(s, op, s', id);
    } else {
      LoopKind(s, op, s', id);
    }
  }

  /** Over any run an event stays what it was assigned for: persistent or not, internal or not, with its closure. */
  lemma {:induction false} AssignedStays(states: seq<Snapshot>, ops: seq<Op>, npriorities: nat, i: nat, j: nat,
                                         io: bool, signal: bool, persist: bool, internal: bool)
    requires Trace(states, ops) && states[0] == Start(npriorities) && i < j <= |ops|
    requires ops[i] == OpAssign(io, signal, persist, internal) && !(io && signal)
    ensures var id := |states[i].evs|;
      id < |states[j].evs| && id !in states[j].masters && AssignedFor(states[j].evs[id], io, signal, persist, internal)
    decreases j
  {
    hide StepOk;
    var id := |states[i].evs|;
    if i + 1 < j {
      AssignedStays(states, ops, npriorities, i, j - 1, io, signal, persist, internal);
      AssignedStep(states[j - 1], ops[j - 1], states[j], id, io, signal, persist, internal);
    } else {
      MastersBelow(states, ops, npriorities, i);
      AssignedFirst(states[i], ops[i], states[j]);
    }
  }

  lemma AssignedFirst(s: Snapshot, op: Op, s': Snapshot)
    requires StepOk(s, op, s') && op.OpAssign? && !(op.io && op.signal) && forall m | m in s.masters :: m < |s.evs|
    ensures var id := |s.evs|;
      id < |s'.evs| && id !in s'.masters && AssignedFor(s'.evs[id], op.io, op.signal, op.persist, op.internal)
  {
  }

  /** When its callback runs, an event that was assigned to be persistent stays added with its timeout, and one that
      was not is deleted. */
  lemma TakenByKind(states: seq<Snapshot>, ops: seq<Op>, npriorities: nat, i: nat, j: nat, p: nat,
                    io: bool, signal: bool, persist: bool, internal: bool)
    requires Trace(states, ops) && states[0] == Start(npriorities) && i < j < |ops|
    requires ops[i] == OpAssign(io, signal, persist, internal) && !(io && signal) && ops[j] == OpTake(p)
    requires p < |states[j].active| && states[j].active[p] != [] && states[j].active[p][0] == |states[i].evs|
    ensures |states[i].evs| < |states[j].evs| == |states[j + 1].evs|
    ensures var e, a := states[j].evs[|states[i].evs|], states[j + 1].evs[|states[i].evs|];
      && !a.active && (!e.finalizing ==> a.inserted == (e.inserted && persist) && a.timeout == (e.timeout && persist))
      && a.when == e.when && a.ioTimeout == e.ioTimeout && a.res == e.res
  {
    AssignedStays(states, ops, npriorities, i, j, io, signal, persist, internal);
    assert StepOk(states[j], ops[j], states[j + 1]);
  }

  // ---- callbacks run in the order in which they were activated

  /** The event may lose its place: it is concerned, or its timeout passes. */
  predicate Disturbs(s: Snapshot, op: Op, id: nat) {
    || Concerns(s, op, id)
    || ((op.OpTimeouts? || op.OpCommonCallback?) && id < |s.evs| && s.evs[id].timeout && s.evs[id].when.us <= op.now)
  }

  lemma AsideOrder(active: seq<seq<nat>>, active': seq<seq<nat>>, masters: seq<nat>, q: int, p: nat, a: nat, c: nat)
    requires MasterAside(active, active', masters, q) && p < |active| && AheadOf(active[p], a, c)
    requires a !in masters && c !in masters
    ensures p < |active'| && AheadOf(active'[p], a, c)
  {
    hide AheadOf;
    if active' != active {
      var r :| active' == ListsWithout(active, r, masters[q]);
      WithoutOrder(active, r, masters[q], p, a, c);
    }
  }

  lemma WithoutOrder(active: seq<seq<nat>>, r: int, id: nat, p: nat, a: nat, c: nat)
    requires p < |active| && AheadOf(active[p], a, c) && a != id && c != id
    ensures var active' := ListsWithout(active, r, id); p < |active'| && AheadOf(active'[p], a, c)
  {
    hide AheadOf;
    AheadWithout(active[p], id, a, c);
  }

  lemma LastOrder(active: seq<seq<nat>>, r: int, id: nat, p: nat, a: nat, c: nat)
    requires p < |active| && AheadOf(active[p], a, c)
    ensures var active' := ListsWithLast(active, r, id); p < |active'| && AheadOf(active'[p], a, c)
  {
    AheadLast(active[p], id);
  }

  lemma LaterOrder(l: seq<nat>, more: seq<nat>, a: nat, c: nat)
    requires AheadOf(l, a, c)
    ensures AheadOf(l + more, a, c)
  {
    var i :| 0 <= i < |l| && l[i] == a && c !in l[..i + 1];
    assert (l + more)[..i + 1] == l[..i + 1] && (l + more)[i] == a;
  }

  lemma TailOrder(l: seq<nat>, a: nat, c: nat)
    requires AheadOf(l, a, c) && a != l[0] && c != l[0]
    ensures AheadOf(l[1..], a, c)
  {
    var i :| 0 <= i < |l| && l[i] == a && c !in l[..i + 1];
    assert l[1..][i - 1] == a && forall k | 0 <= k < i :: l[1..][..i][k] == l[..i + 1][k + 1];
    var n :| 0 <= n < |l| && l[n] == c;
    assert l[1..][n - 1] == c;
  }

  /** One step that disturbs neither of two callbacks leaves them in their order. */
  lemma OrderStep(s: Snapshot, op: Op, s': Snapshot, p: nat, a: nat, c: nat)
    requires StepOk(s, op, s') && p < |s.active| && AheadOf(s.active[p], a, c)
    requires a < |s.evs| && c < |s.evs| && a !in s.masters && c !in s.masters
    requires !Disturbs(s, op, a) && !Disturbs(s, op, c)
    ensures p < |s'.active| && AheadOf(s'.active[p], a, c)
  {
    hide AheadOf;
    hide MasterAside;
    hide Added;
    hide Deleted;
    hide Activated;
    match op
    case OpAssign(_, _, _, _) =>
    case OpCommon(_, _) =>
    case OpAdd(id, tv, now, mapRes) =>
      AddOrder(s, s', id, tv.Some? && !AddFails(s.evs[id], mapRes), if tv.Some? then tv.value.tag else -1, p, a, c);
    case OpDel(id, _) => WithoutOrder(s.active, s.evs[id].pri, id, p, a, c);
    case OpActive(id, _) => LastOrder(s.active, s'.evs[id].pri, id, p, a, c);
    case OpActiveLater(_, _) =>
    case OpCancel(id, _) => WithoutOrder(s.active, s.evs[id].pri, id, p, a, c);
    case OpPriority(_, _) =>
    case OpFinalize(id) =>
      WithoutOrder(s.active, s'.evs[id].pri, id, p, a, c);
      LastOrder(ListsWithout(s.active, s'.evs[id].pri, id), s'.evs[id].pri, id, p, a, c);
    case OpTimeouts(now) => TimeoutsOrder(s, now, s', p, a, c);
    case OpMakeLaterActive => LaterOrder(s.active[p], OfPriority(s.later, s.evs, p), a, c);
    case OpTake(_) => TakeOrder(s, op, s', p, a, c);
    case OpPersist(now, mapRes) =>
      var e := s.evs[s.current];
      AddOrder(s, s', s.current, e.ioTimeout.NonZero() && !AddFails(e, mapRes), e.when.tag, p, a, c);
    case OpCommonCallback(now) => CommonOrder(s, now, s', p, a, c);
    case OpEnd =>
  }

  lemma AddOrder(s: Snapshot, s': Snapshot, id: nat, anew: bool, q: int, p: nat, a: nat, c: nat)
    requires id < |s.evs| && AddQueues(s, s', id, anew, q) && p < |s.active| && AheadOf(s.active[p], a, c)
    requires a !in s.masters && c !in s.masters && a != id && c != id
    ensures p < |s'.active| && AheadOf(s'.active[p], a, c)
  {
    hide AheadOf;
    hide MasterAside;
    WithoutOrder(s.active, s.evs[id].pri, id, p, a, c);
    AsideOrder(if anew then QueuesCleared(s.active, s.evs[id], id) else s.active, s'.active, s.masters, q, p, a, c);
  }

  lemma TakeOrder(s: Snapshot, op: Op, s': Snapshot, p: nat, a: nat, c: nat)
    requires StepOk(s, op, s') && op.OpTake? && p < |s.active| && AheadOf(s.active[p], a, c)
    requires !Concerns(s, op, a) && !Concerns(s, op, c)
    ensures p < |s'.active| && AheadOf(s'.active[p], a, c)
  {
    if op.p == p {
      TailOrder(s.active[p], a, c);
    }
  }

  lemma TimeoutsOrder(s: Snapshot, now: int, s': Snapshot, p: nat, a: nat, c: nat)
    requires TimeoutsOk(s, s', now) && p < |s.active| && AheadOf(s.active[p], a, c)
    requires !Disturbs(s, OpTimeouts(now), a) && !Disturbs(s, OpTimeouts(now), c)
    ensures p < |s'.active| && AheadOf(s'.active[p], a, c)
  {
    hide AheadOf;
    var out :| Sorted(out, s.evs) && FiredInOrder(s.evs, s.active, s'.active, out)
               && forall id: nat :: id in out <==> id < |s.evs| && Passed(s.evs[id], now);
    assert a !in out && c !in out;
  }

  lemma CommonOrder(s: Snapshot, now: int, s': Snapshot, p: nat, a: nat, c: nat)
    requires StepOk(s, OpCommonCallback(now), s') && p < |s.active| && AheadOf(s.active[p], a, c)
    requires a < |s.evs| && c < |s.evs| && a !in s.masters && c !in s.masters
    requires !Disturbs(s, OpCommonCallback(now), a) && !Disturbs(s, OpCommonCallback(now), c)
    ensures p < |s'.active| && AheadOf(s'.active[p], a, c)
  {
    hide AheadOf;
    hide MasterAside;
    hide Fired;
    var k: nat :| CallbackOk(s, s', s.due, now, k) && CallbackOrder(s, s', s.due, k);
    var active :| FiredInOrder(s.evs, s.active, active, s.common[s.due][..k]) && MasterAside(active, s'.active, s.masters, s.due);
    assert a !in s.common[s.due][..k] && c !in s.common[s.due][..k];
    AsideOrder(active, s'.active, s.masters, s.due, p, a, c);
  }

  /** Callbacks of one priority run in the order in which they were activated: while nothing disturbs two of them, the
      one behind is not taken before the one ahead. */
  lemma {:induction false} FirstComeFirstServed(states: seq<Snapshot>, ops: seq<Op>, i: nat, j: nat, p: nat, a: nat, c: nat)
    requires Trace(states, ops) && i <= j <= |ops| && p < |states[i].active| && AheadOf(states[i].active[p], a, c)
    requires a < |states[i].evs| && c < |states[i].evs|
    requires a !in states[j].masters && c !in states[j].masters
    requires forall k | i <= k < j :: !Disturbs(states[k], ops[k], a) && !Disturbs(states[k], ops[k], c)
    ensures a < |states[j].evs| && c < |states[j].evs| && p < |states[j].active| && AheadOf(states[j].active[p], a, c)
    ensures states[j].active[p][0] != c
    decreases j
  {
    hide StepOk;
    if i < j {
      MastersGrow(states[j - 1], ops[j - 1], states[j]);
      FirstComeFirstServed(states, ops, i, j - 1, p, a, c);
      OrderStep(states[j - 1], ops[j - 1], states[j], p, a, c);
    }
    NotFirst(states[j].active[p], a, c);
  }

  lemma NotFirst(l: seq<nat>, a: nat, c: nat)
    requires AheadOf(l, a, c)
    ensures l != [] && l[0] != c
  {
    var i :| 0 <= i < |l| && l[i] == a && c !in l[..i + 1];
    assert l[0] in l[..i + 1];
  }
}
