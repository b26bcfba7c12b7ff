/** `event.c`: an event base from its creation, and runs of any length. */
module EventRun {
  import opened Basics
  import opened EventQueues
  import opened NatLists
  import opened EventLists
  import opened EventTimeouts
  import opened EventOps
  import opened EventLoop
  import opened EventFinal

  const MAX_COMMON_TIMEOUTS: nat := 256

  /** The events of one priority, in their order. */
  function OfPriority(l: seq<nat>, evs: seq<Event>, p: nat): seq<nat> {
    if l == [] then []
    else (if l[0] < |evs| && evs[l[0]].pri == p then [l[0]] else []) + OfPriority(l[1..], evs, p)
  }

  lemma HeadOfLater(b: EventBase)
    requires b.Valid() && b.later != []
    ensures var id := b.later[0]; b.Free(id, NOBODY) && b.evs[id].later && !b.evs[id].active && b.evs[id].pri < |b.active|
  {
    assert b.later[0] in b.later;
    EventFacts(b.evs, b.inMap, b.heap, b.common, b.active, b.later, b.later[0]);
  }

  lemma LaterToActive(evs: seq<Event>, inMap: set<nat>, heap: set<nat>, common: seq<seq<nat>>,
                      active: seq<seq<nat>>, later: seq<nat>, id: nat, e: Event)
    requires QueuesOk(evs, inMap, heap, common, active, later) && later != [] && later[0] == id < |evs|
    requires evs[id].later && !evs[id].active && e == evs[id].(later := false, active := true)
    requires e.pri < |active|
    ensures QueuesOk(evs[id := e], inMap, heap, common, active[e.pri := active[e.pri] + [id]], later[1..])
  {
    hide Step;
    hide Lists;
    hide Sorted;
    var active' := active[e.pri := active[e.pri] + [id]];
    Appended(active[e.pri], id);
    forall p | 0 <= p < |active|
      ensures Step(active[p], active'[p], At(evs[id], Active(p)), At(e, Active(p)), id)
    {
      if p != e.pri { Unchanged(active[p], id); }
    }
    forall q | 0 <= q < |common|
      ensures Step(common[q], common[q], At(evs[id], Common(q)), At(e, Common(q)), id)
    {
      Unchanged(common[q], id);
    }
    HeadRemoved(later);
    QueuesStep(evs, inMap, heap, common, active, later, id, e, inMap, heap, common, active', later[1..]);
  }

  lemma HeadRemoved(l: seq<nat>)
    requires l != []
    ensures Step(l, l[1..], true, false, l[0])
  {
    assert Removed(l, 0) == l[1..];
  }

  /** The loop body of `event_queue_make_later_events_active`; no counter changes. */
  method MoveFirstLater(b: EventBase)
    requires b.Valid() && b.later != []
    modifies b`evs, b`active, b`later
    ensures b.Valid() && b.Same()
    ensures b.later == old(b.later)[1..] && old(b.later)[0] < |b.evs|
    ensures var id := old(b.later)[0];
      && b.evs == old(b.evs)[id := old(b.evs)[id].(later := false, active := true)]
      && b.active == ListsWithLast(old(b.active), b.evs[id].pri, id)
  {
    hide QueuesOk;
    hide Total;
    hide Lengths;
    hide InTimeExcept;
    HeadOfLater(b);
    ghost var evs, active, later := b.evs, b.active, b.later;
    var id := b.later[0];
    var p := b.evs[id].pri;
    b.later := b.later[1..];
    b.evs := b.evs[id := b.evs[id].(later := false, active := true)];
    b.active := b.active[p := b.active[p] + [id]];
    LaterToActive(evs, b.inMap, b.heap, b.common, active, later, id, b.evs[id]);
    TotalStep(evs, id, b.evs[id]);
    LengthsStep(active, p, b.active[p]);
    InTimeStep(evs, b.common, b.masters, NOBODY, b.due, id, b.evs[id], b.common);
  }

  lemma OfPriorityStep(active: seq<seq<nat>>, later: seq<nat>, evs: seq<Event>, p: nat)
    requires later != [] && later[0] < |evs| && evs[later[0]].pri < |active| && p < |active|
    ensures var active' := ListsWithLast(active, evs[later[0]].pri, later[0]);
      && |active'| == |active|
      && active'[p] + OfPriority(later[1..], evs, p) == active[p] + OfPriority(later, evs, p)
  {
  }

  function MadeActive(e: Event): Event {
    e.(active := e.active || e.later, later := false)
  }

  lemma NobodyLater(b: EventBase)
    requires b.Valid() && b.later == []
    ensures forall j | 0 <= j < |b.evs| :: MadeActive(b.evs[j]) == b.evs[j]
  {
    forall j | 0 <= j < |b.evs|
      ensures !b.evs[j].later
    {
      EventFacts(b.evs, b.inMap, b.heap, b.common, b.active, b.later, j);
    }
  }

  /** `event_queue_make_later_events_active`: every waiting event goes to the end of the queue of its
      priority, in order. */
  method MakeLaterActive(b: EventBase)
    requires b.Valid()
    modifies b`evs, b`active, b`later
    ensures b.Valid() && b.Same() && b.later == []
    ensures forall p: nat | p < |b.active| ::
              b.active[p] == old(b.active)[p] + OfPriority(old(b.later), old(b.evs), p)
    ensures forall j | 0 <= j < |b.evs| :: b.evs[j] == MadeActive(old(b.evs)[j])
    ensures forall j | 0 <= j < |b.evs| ::
              var e := old(b.evs)[j]; b.evs[j] == if e.later then e.(later := false, active := true) else e
  {
    hide EventBase.Valid;
    hide ListsWithLast;
    ghost var evs := b.evs;
    while b.later != []
      invariant b.Valid() && b.Same()
      invariant forall j | 0 <= j < |evs| :: MadeActive(b.evs[j]) == MadeActive(evs[j])
      invariant forall p: nat | p < |b.active| ::
                  b.active[p] + OfPriority(b.later, evs, p) == old(b.active)[p] + OfPriority(old(b.later), evs, p)
      decreases |b.later|
    {
      HeadOfLater(b);
      forall p: nat | p < |b.active| {
        OfPriorityStep(b.active, b.later, evs, p);
      }
      MoveFirstLater(b);
    }
    NobodyLater(b);
  }

  /** An event that is on no list. */
  predicate Idle(e: Event) {
    !e.inserted && !e.timeout && !e.active && !e.later && !e.finalizing
  }

  /** One more event, and one more list or not. */
  lemma OneMore(evs: seq<Event>, inMap: set<nat>, heap: set<nat>, common: seq<seq<nat>>,
                active: seq<seq<nat>>, later: seq<nat>, e: Event, common': seq<seq<nat>>)
    requires QueuesOk(evs, inMap, heap, common, active, later)
    requires Idle(e) && e.pri < |active| && e.when == ZERO && e.ioTimeout == ZERO
    requires common' == common || common' == common + [[]]
    ensures QueuesOk(evs + [e], inMap, heap, common', active, later)
  {
    var evs' := evs + [e];
    forall q | 0 <= q < |common'|
      ensures Lists(common'[q], evs', Common(q)) && Sorted(common'[q], evs')
    {
      if q < |common| { ListKept(common[q], evs, Common(q), e); }
      assert q < |common| ==> Sorted(common[q], evs);
    }
    forall p | 0 <= p < |active|
      ensures Lists(active[p], evs', Active(p))
    {
      ListKept(active[p], evs, Active(p), e);
    }
    ListKept(later, evs, Later, e);
  }

  lemma ListKept(l: seq<nat>, evs: seq<Event>, place: Place, e: Event)
    requires Lists(l, evs, place) && Idle(e)
    ensures Lists(l, evs + [e], place) && (Sorted(l, evs) ==> Sorted(l, evs + [e]))
  {
    forall i | 0 <= i < |l|
      ensures Time(evs + [e], l[i]) == Time(evs, l[i])
    {
      assert l[i] in l;
    }
  }

  lemma {:induction false} TotalMore(evs: seq<Event>, e: Event)
    ensures Total(evs + [e]) == Total(evs) + e.Weight()
  {
    if evs == [] {
      assert evs + [e] == [e];
    } else {
      TotalMore(evs[1..], e);
      assert (evs + [e])[1..] == evs[1..] + [e];
    }
  }

  /** A new event that has never been added. */
  predicate Fresh(e: Event, pri: nat) {
    e.init && e.pri == pri && e.res == {} && e.when == ZERO && e.ioTimeout == ZERO
  }

  /** `event_assign`: a new event in the middle priority; signals exclude other interests. */
  method Assign(b: EventBase, io: bool, signal: bool, persist: bool, internal: bool) returns (id: int)
    requires b.Valid() && b.active != []
    modifies b`evs
    ensures b.Valid() && |b.common| == |old(b.common)|
    ensures id == if io && signal then -1 else |old(b.evs)|
    ensures id == -1 ==> b.evs == old(b.evs)
    ensures id >= 0 ==>
      && |b.evs| == id + 1 && b.evs[..id] == old(b.evs) && Idle(b.evs[id]) && b.Free(id, NOBODY)
      && Fresh(b.evs[id], |b.active| / 2) && b.evs[id].watches == (io || signal)
      && b.evs[id].persist == persist && b.evs[id].internal == internal
      && (b.evs[id].closure == RunSignal <==> signal) && (b.evs[id].closure == RunPersist <==> persist && !signal)
      && (b.evs[id].closure == RunEvent <==> !persist && !signal)
  {
    hide QueuesOk;
    hide Total;
    hide Lengths;
    if io && signal {
      return -1;
    }
    var closure := if signal then RunSignal else if persist then RunPersist else RunEvent;
    var e := Event(true, internal, false, false, false, false, false,
                   io || signal, persist, |b.active| / 2, {}, ZERO, ZERO, closure);
    id := |b.evs|;
    ghost var evs := b.evs;
    b.evs := b.evs + [e];
    OneMore(evs, b.inMap, b.heap, b.common, b.active, b.later, e, b.common);
    TotalMore(evs, e);
    InTimeKept(evs, b.inMap, b.heap, b.common, b.active, b.later, b.masters, b.due, e);
  }

  lemma InTimeKept(evs: seq<Event>, inMap: set<nat>, heap: set<nat>, common: seq<seq<nat>>, active: seq<seq<nat>>,
                   later: seq<nat>, masters: seq<nat>, due: int, e: Event)
    requires QueuesOk(evs, inMap, heap, common, active, later) && MastersOk(evs, masters)
    requires InTimeExcept(evs, common, masters, NOBODY, due)
    ensures InTimeExcept(evs + [e], common, masters, NOBODY, due)
  {
    forall q | 0 <= q < |common| && q < |masters| && q != NOBODY && q != due
      ensures InTime(evs + [e], masters[q], common[q])
    {
      assert InTime(evs, masters[q], common[q]) && Lists(common[q], evs, Common(q));
      assert common[q] != [] ==> common[q][0] in common[q];
    }
  }

  /** The duration that is looked for: microseconds are carried over to the seconds when there are more than a
      million of them, or when the duration is that of a common timeout, whose microseconds carry its number. */
  function Carried(d: Duration, common: bool): Duration {
    if common || d.usec > 1000000 then Duration(d.sec + d.usec / 1000000, d.usec % 1000000) else d
  }

  /** Two durations are taken for the same exactly when they are as long, and both are given with a million
      microseconds or none is. */
  lemma CarriedSame(d: Duration, e: Duration)
    ensures Carried(d, false) == Carried(e, false) <==>
              d.Microseconds() == e.Microseconds() && (d.usec == 1000000 <==> e.usec == 1000000)
    ensures Carried(Carried(d, false), true) == Carried(d, false) <==> d.usec != 1000000
  {
    CarriedForm(d);
    CarriedForm(e);
  }

  lemma CarriedForm(d: Duration)
    ensures var c := Carried(d, false);
      && c.Microseconds() == d.Microseconds() && c.usec <= 1000000 && (c.usec == 1000000 <==> d.usec == 1000000)
  {
  }

  /** A second that is given as a million microseconds gets a list of its own. */
  lemma MillionExample()
    ensures Duration(1, 0).Microseconds() == Duration(0, 1000000).Microseconds()
    ensures Carried(Duration(1, 0), false) != Carried(Duration(0, 1000000), false)
  {
    CarriedSame(Duration(1, 0), Duration(0, 1000000));
  }

  /** `event_base_init_common_timeout`: the number of the common timeout with this duration, a new one
      if there is none; -1 when there are too many. */
  method InitCommonTimeout(b: EventBase, given: Duration, common: bool) returns (q: int)
    requires b.Valid() && b.active != []
    modifies b`evs, b`common, b`durations, b`masters
    ensures b.Valid()
    ensures var duration := Carried(given, common);
      && (duration in old(b.durations) ==> 0 <= q < |b.durations|)
      && (duration !in old(b.durations) && |old(b.durations)| == MAX_COMMON_TIMEOUTS ==> q == -1)
    ensures Carried(given, common) in old(b.durations) || |old(b.durations)| == MAX_COMMON_TIMEOUTS ==>
      b.evs == old(b.evs) && b.durations == old(b.durations) && b.common == old(b.common) && b.masters == old(b.masters)
    ensures Carried(given, common) !in old(b.durations) && |old(b.durations)| != MAX_COMMON_TIMEOUTS ==>
      && q == |old(b.durations)| && b.durations == old(b.durations) + [Carried(given, common)]
      && b.common == old(b.common) + [[]] && |b.evs| == |old(b.evs)| + 1 && b.evs[..|old(b.evs)|] == old(b.evs)
      && b.masters == old(b.masters) + [|old(b.evs)|] && IsMaster(b.evs[|old(b.evs)|])
    ensures q >= 0 ==> q < |b.durations| && b.durations[q] == Carried(given, common)
  {
    hide QueuesOk;
    hide Total;
    hide Lengths;
    var duration := given;
    if common || duration.usec > 1000000 {
      duration := Duration(duration.sec + duration.usec / 1000000, duration.usec % 1000000);
    }
    q := 0;
    while q < |b.durations|
      invariant 0 <= q <= |b.durations| && duration !in b.durations[..q]
    {
      if b.durations[q] == duration {
        return;
      }
      q := q + 1;
    }
    assert b.durations[..q] == b.durations;
    if |b.durations| == MAX_COMMON_TIMEOUTS {
      return -1;
    }
    AddCommon(b, duration);
  }

  /** The new event that stands for a common timeout: an internal one, first in priority. */
  predicate IsMaster(e: Event) {
    Fresh(e, 0) && Idle(e) && e.internal && !e.watches && !e.persist && e.closure == RunEvent
  }

  method AddCommon(b: EventBase, duration: Duration)
    requires b.Valid() && b.active != []
    modifies b`evs, b`common, b`durations, b`masters
    ensures b.Valid()
    ensures b.durations == old(b.durations) + [duration]
    ensures b.common == old(b.common) + [[]] && |b.evs| == |old(b.evs)| + 1 && b.evs[..|old(b.evs)|] == old(b.evs)
    ensures b.masters == old(b.masters) + [|old(b.evs)|]
    ensures IsMaster(b.evs[|old(b.evs)|])
  {
    hide QueuesOk;
    hide Total;
    hide Lengths;
    var e := Event(true, true, false, false, false, false, false, false, false, 0, {}, ZERO, ZERO, RunEvent);
    ghost var evs, common := b.evs, b.common;
    b.masters := b.masters + [|b.evs|];
    b.evs := b.evs + [e];
    b.common := b.common + [[]];
    b.durations := b.durations + [duration];
    OneMore(evs, b.inMap, b.heap, common, b.active, b.later, e, b.common);
    TotalMore(evs, e);
    InTimeKept(evs, b.inMap, b.heap, common, b.active, b.later, old(b.masters), b.due, e);
  }

  /** What `event_base_assert_ok_nolock_` checks of timeouts and queues, and what it says in words of
      the counters. */
  ghost predicate AssertOk(b: EventBase)
    reads b
  {
    && (forall id | id in b.heap :: id < |b.evs| && b.evs[id].timeout)
    && (forall q, i | 0 <= q < |b.common| && 0 <= i < |b.common[q]| ::
          && b.common[q][i] < |b.evs| && b.evs[b.common[q][i]].timeout && b.evs[b.common[q][i]].when.tag == q
          && (i > 0 ==> Time(b.evs, b.common[q][i - 1]) <= Time(b.evs, b.common[q][i])))
    && (forall p, i | 0 <= p < |b.active| && 0 <= i < |b.active[p]| ::
          var id := b.active[p][i]; id < |b.evs| && b.evs[id].active && !b.evs[id].later && b.evs[id].pri == p)
    && (forall i | 0 <= i < |b.later| ::
          b.later[i] < |b.evs| && b.evs[b.later[i]].later && !b.evs[b.later[i]].active)
    && b.countActive == Lengths(b.active) + |b.later|
  }

  lemma ValidMeansOk(b: EventBase)
    requires b.Valid()
    ensures AssertOk(b)
  {
    forall q, i | 0 <= q < |b.common| && 0 <= i < |b.common[q]|
      ensures b.common[q][i] < |b.evs| && At(b.evs[b.common[q][i]], Common(q))
      ensures i > 0 ==> Time(b.evs, b.common[q][i - 1]) <= Time(b.evs, b.common[q][i])
    {
      assert Lists(b.common[q], b.evs, Common(q)) && Sorted(b.common[q], b.evs) && b.common[q][i] in b.common[q];
    }
    forall p, i | 0 <= p < |b.active| && 0 <= i < |b.active[p]|
      ensures b.active[p][i] < |b.evs| && At(b.evs[b.active[p][i]], Active(p)) && !b.evs[b.active[p][i]].later
    {
      assert Lists(b.active[p], b.evs, Active(p)) && b.active[p][i] in b.active[p];
    }
    forall i | 0 <= i < |b.later|
      ensures b.later[i] < |b.evs| && b.evs[b.later[i]].later && !b.evs[b.later[i]].active
    {
      assert b.later[i] in b.later;
    }
  }

  datatype Op =
    | OpAssign(io: bool, signal: bool, persist: bool, internal: bool)
    | OpCommon(duration: Duration, common: bool)
    | OpAdd(id: nat, tv: Option<Tv>, now: int, mapRes: int)
    | OpDel(id: nat, mapRes: int)
    | OpActive(id: nat, why: set<Why>)
    | OpActiveLater(id: nat, why: set<Why>)
    | OpCancel(id: nat, evenIfFinalizing: bool)
    | OpPriority(id: nat, pri: int)
    | OpFinalize(id: nat)
    | OpTimeouts(now: int)
    | OpMakeLaterActive
    | OpTake(p: nat)
    | OpPersist(now: int, mapRes: int)
    | OpCommonCallback(now: int)
    | OpEnd
  {
    predicate Adds() {
      OpAssign? || OpCommon? || OpAdd?
    }

    predicate IsCall() {
      OpDel? || OpActive? || OpActiveLater? || OpCancel? || OpPriority? || OpFinalize?
    }
  }

  /** What the callers of the library see to: events exist and belong to them, times are times, and the
      loop runs one callback after the other. */
  predicate Allowed(b: EventBase, op: Op)
    reads b
  {
    match op
    case OpAssign(_, _, _, _) => b.active != []
    case OpCommon(_, _) => b.active != []
    case OpAdd(id, tv, _, mapRes) =>
      Mine(b, id) && b.evs[id].init && -1 <= mapRes <= 1 && (tv.Some? ==> -1 <= tv.value.tag < |b.common|)
    case OpDel(id, mapRes) => Mine(b, id) && -1 <= mapRes <= 1
    case OpActive(id, _) => Mine(b, id)
    case OpActiveLater(id, _) => Mine(b, id)
    case OpCancel(id, _) => Mine(b, id)
    case OpPriority(id, _) => Mine(b, id)
    case OpFinalize(id) => Mine(b, id)
    case OpTimeouts(_) => true
    case OpMakeLaterActive => true
    case OpTake(p) => p < |b.active| && b.active[p] != [] && b.current == NOBODY && b.due == NOBODY
    case OpPersist(_, mapRes) =>
      0 <= b.current && Mine(b, b.current) && b.evs[b.current].init && b.evs[b.current].closure.RunPersist? && -1 <= mapRes <= 1
    case OpCommonCallback(_) => 0 <= b.due < |b.common|
    case OpEnd => b.due == NOBODY
  }

  predicate Mine(b: EventBase, id: nat)
    reads b
  {
    id < |b.evs| && id !in b.masters
  }

  // ---- what the operations do

  /** An event base at one moment. */
  datatype Snapshot = Snapshot(
    evs: seq<Event>, common: seq<seq<nat>>, durations: seq<Duration>, masters: seq<nat>,
    active: seq<seq<nat>>, later: seq<nat>, current: int, due: int)

  function StateOf(b: EventBase): Snapshot
    reads b
  {
    Snapshot(b.evs, b.common, b.durations, b.masters, b.active, b.later, b.current, b.due)
  }

  /** Events may change and move, but there are no new ones and no new lists. */
  predicate SameShape(s: Snapshot, s': Snapshot) {
    && |s'.evs| == |s.evs| && |s'.common| == |s.common| && |s'.active| == |s.active|
    && s'.durations == s.durations && s'.masters == s.masters
  }

  /** No callback starts or ends. */
  predicate SameCallback(s: Snapshot, s': Snapshot) {
    s'.current == s.current && s'.due == s.due
  }

  /** Event `id` has become `e`; but for the events that stand for common timeouts all others are as before. */
  predicate OneChanged(s: Snapshot, s': Snapshot, id: nat, e: Event) {
    && SameShape(s, s') && SameCallback(s, s') && id < |s.evs| && s'.evs[id] == e
    && forall j | 0 <= j < |s.evs| && j != id && j !in s.masters :: s'.evs[j] == s.evs[j]
  }

  predicate AssignOk(s: Snapshot, s': Snapshot, io: bool, signal: bool, persist: bool, internal: bool) {
    if io && signal then s' == s
    else
      && |s'.evs| == |s.evs| + 1 && s' == s.(evs := s'.evs) && s'.evs[..|s.evs|] == s.evs
      && var e := s'.evs[|s.evs|];
        && Idle(e) && Fresh(e, |s.active| / 2) && e.watches == (io || signal)
        && e.persist == persist && e.internal == internal
        && e.closure == if signal then RunSignal else if persist then RunPersist else RunEvent
  }

  predicate CommonOk(s: Snapshot, s': Snapshot, duration: Duration) {
    if duration in s.durations || |s.durations| == MAX_COMMON_TIMEOUTS then s' == s
    else
      && |s'.evs| == |s.evs| + 1 && s'.evs[..|s.evs|] == s.evs
      && s' == s.(evs := s'.evs, common := s.common + [[]], durations := s.durations + [duration],
                  masters := s.masters + [|s.evs|])
      && IsMaster(s'.evs[|s.evs|])
  }

  /** The first `k` events of the list `q` have fired, and the others are not due. */
  ghost predicate CallbackOk(s: Snapshot, s': Snapshot, q: nat, now: int, k: nat)
    requires q < |s.common|
  {
    && SameShape(s, s') && s'.current == s.current && s'.due == NOBODY
    && k <= |s.common[q]| && s'.common[q] == s.common[q][k..]
    && (s'.common[q] != [] ==> Time(s'.evs, s'.common[q][0]) > now)
    && forall id: nat | id < |s.evs| && id !in s.masters ::
         if id in s.common[q][..k] then FiredBy(s.evs[id], s'.evs[id], now) else s'.evs[id] == s.evs[id]
  }

  /** Their callbacks come behind those that wait, in the order of the list. */
  ghost predicate CallbackOrder(s: Snapshot, s': Snapshot, q: nat, k: nat)
    requires q < |s.common| && k <= |s.common[q]|
  {
    && (forall i | 0 <= i < k :: s.common[q][i] < |s.evs| && s.evs[s.common[q][i]].timeout)
    && exists active :: FiredInOrder(s.evs, s.active, active, s.common[q][..k]) && MasterAside(active, s'.active, s.masters, q)
  }

  predicate FinalizeOk(s: Snapshot, s': Snapshot, id: nat)
    requires id < |s.evs|
  {
    && |s'.evs| == |s.evs| && OneChanged(s, s', id, s'.evs[id])
    && Finalized(if s.evs[id].finalizing then s.evs[id] else s.evs[id].(res := {EventQueues.Finalize}), s'.evs[id])
    && s'.active == if s.evs[id].finalizing then s.active else Requeued(s.active, s'.evs[id].pri, id)
  }

  /** Exactly those in the heap whose deadline has passed have fired, the earlier ones first. */
  ghost predicate TimeoutsOk(s: Snapshot, s': Snapshot, now: int) {
    && SameShape(s, s') && SameCallback(s, s')
    && (forall id | 0 <= id < |s.evs| :: s'.evs[id] == if Passed(s.evs[id], now) then Fired(s.evs[id]) else s.evs[id])
    && exists out :: Sorted(out, s.evs) && FiredInOrder(s.evs, s.active, s'.active, out)
                     && forall id: nat :: id in out <==> id < |s.evs| && Passed(s.evs[id], now)
  }

  predicate LaterOk(s: Snapshot, s': Snapshot) {
    && SameShape(s, s') && SameCallback(s, s') && s'.later == []
    && (forall j | 0 <= j < |s.evs| :: s'.evs[j] == MadeActive(s.evs[j]))
    && (forall p: nat | p < |s.active| :: s'.active[p] == s.active[p] + OfPriority(s.later, s.evs, p))
  }

  /** The first of the queue has left it; it stays added if it is persistent or finalizing, and is deleted if not. */
  predicate TakeOk(s: Snapshot, s': Snapshot, p: nat) {
    && p < |s.active| && s.active[p] != [] && s.active[p][0] < |s.evs|
    && var id, e := s.active[p][0], s.evs[s.active[p][0]];
       && s'.evs == s.evs[id := Taken(e)] && s'.masters == s.masters
       && s'.active == s.active[p := s.active[p][1..]] && s'.later == s.later
       && s'.current == id && s'.due == ListOf(s.masters, id)
  }

  /** The queues without an event, unless it stays. */
  predicate Withdrawn(s: Snapshot, s': Snapshot, id: nat, stays: bool)
    requires id < |s.evs|
  {
    && s'.active == (if s.evs[id].active && !stays then ListsWithout(s.active, s.evs[id].pri, id) else s.active)
    && s'.later == if s.evs[id].later && !stays then WithoutAny(s.later, id) else s.later
  }

  /** The queues after an addition: an activation by an earlier timeout has been taken back, if there is a new one. */
  ghost predicate AddQueues(s: Snapshot, s': Snapshot, id: nat, anew: bool, q: int)
    requires id < |s.evs|
  {
    && s'.later == s.later
    && MasterAside(if anew then QueuesCleared(s.active, s.evs[id], id) else s.active, s'.active, s.masters, q)
  }

  /** What an operation makes of a base. */
  ghost predicate StepOk(s: Snapshot, op: Op, s': Snapshot) {
    match op
    case OpAssign(io, signal, persist, internal) => AssignOk(s, s', io, signal, persist, internal)
    case OpCommon(duration, common) => CommonOk(s, s', Carried(duration, common))
    case OpAdd(id, tv, now, mapRes) =>
      && id < |s.evs| && OneChanged(s, s', id, Added(s.evs[id], tv, false, now, mapRes))
      && AddQueues(s, s', id, tv.Some? && !AddFails(s.evs[id], mapRes), if tv.Some? then tv.value.tag else -1)
    case OpDel(id, _) =>
      id < |s.evs| && OneChanged(s, s', id, Deleted(s.evs[id], false)) && Withdrawn(s, s', id, s.evs[id].finalizing)
    case OpActive(id, why) =>
      && id < |s.evs| && OneChanged(s, s', id, Activated(s.evs[id], why))
      && s'.active == (if s.evs[id].finalizing || s.evs[id].active then s.active
                       else ListsWithLast(s.active, s'.evs[id].pri, id))
      && s'.later == if s.evs[id].finalizing || !s.evs[id].later then s.later else WithoutAny(s.later, id)
    case OpActiveLater(id, why) =>
      && id < |s.evs|
      && var e, already := s.evs[id], s.evs[id].active || s.evs[id].later;
         && OneChanged(s, s', id, if already then e.(res := e.res + why) else e.(res := why, later := true))
         && s'.later == (if already then s.later else s.later + [id]) && s'.active == s.active
    case OpCancel(id, evenIfFinalizing) =>
      && id < |s.evs| && OneChanged(s, s', id, Deleted(s.evs[id], evenIfFinalizing))
      && Withdrawn(s, s', id, s.evs[id].finalizing && !evenIfFinalizing)
    case OpPriority(id, pri) =>
      && id < |s.evs| && s'.active == s.active && s'.later == s.later
      && OneChanged(s, s', id, if s.evs[id].active || pri < 0 || pri >= |s.active| then s.evs[id]
                               else s.evs[id].(pri := pri))
    case OpFinalize(id) => id < |s.evs| && FinalizeOk(s, s', id)
    case OpTimeouts(now) => TimeoutsOk(s, s', now)
    case OpMakeLaterActive => LaterOk(s, s')
    case OpTake(p) => TakeOk(s, s', p)
    case OpPersist(now, mapRes) =>
      && 0 <= s.current < |s.evs|
      && var e := s.evs[s.current];
         && OneChanged(s, s', s.current, if e.ioTimeout.NonZero() then Added(e, Some(NextRun(e, now)), true, now, mapRes) else e)
         && AddQueues(s, s', s.current, e.ioTimeout.NonZero() && !AddFails(e, mapRes), e.when.tag)
    case OpCommonCallback(now) =>
      0 <= s.due < |s.common| && exists k: nat :: CallbackOk(s, s', s.due, now, k) && CallbackOrder(s, s', s.due, k)
    case OpEnd => s' == s.(current := NOBODY)
  }

  lemma MasterEach(b: EventBase)
    requires b.Valid()
    ensures |b.masters| == |b.common|
  {
  }

  /** Callers ask for a new event or a new common timeout, or add an event. */
  method DoNew(b: EventBase, op: Op)
    requires b.Valid() && Allowed(b, op) && op.Adds()
    modifies b
    ensures b.Valid() && StepOk(old(StateOf(b)), op, StateOf(b))
  {
    hide EventBase.ValidExcept;
    hide EventBase.Core;
    hide Added;
    hide MasterAside;
    hide QueuesCleared;
    hide TimeoutSetTo;
    MasterEach(b);
    match op
    case OpAssign(io, signal, persist, internal) => var id := Assign(b, io, signal, persist, internal);
    case OpCommon(duration, common) => var q := InitCommonTimeout(b, duration, common);
    case OpAdd(id, tv, now, mapRes) => var res := EventAdd(b, id, tv, false, now, mapRes, NOBODY);
  }

  /** What callers ask for an event that is there. */
  method DoCall(b: EventBase, op: Op)
    requires b.Valid() && Allowed(b, op) && op.IsCall()
    modifies b
    ensures b.Valid() && StepOk(old(StateOf(b)), op, StateOf(b))
  {
    hide EventBase.ValidExcept;
    hide EventBase.Core;
    hide Deleted;
    hide Activated;
    hide ListsWithLast;
    hide ListsWithout;
    hide WithoutAny;
    hide Finalized;
    hide Cancelled;
    hide Requeued;
    MasterEach(b);
    match op
    case OpDel(id, mapRes) => var res := EventDel(b, id, false, mapRes, NOBODY);
    case OpActive(id, why) => EventActive(b, id, why, NOBODY);
    case OpActiveLater(id, why) => EventActiveLater(b, id, why);
    case OpCancel(id, evenIfFinalizing) => var res := CallbackCancel(b, id, evenIfFinalizing, 0);
    case OpPriority(id, pri) => var r := PrioritySet(b, id, pri);
    case OpFinalize(id) => EventFinal.Finalize(b, id, 0);
  }

  /** What the loop does. */
  method DoLoop(b: EventBase, op: Op)
    requires b.Valid() && Allowed(b, op) && !op.Adds() && !op.IsCall()
    modifies b
    ensures b.Valid() && StepOk(old(StateOf(b)), op, StateOf(b))
  {
    hide EventBase.ValidExcept;
    hide EventBase.Core;
    hide Added;
    hide Fired;
    hide Taken;
    hide ListOf;
    hide OfPriority;
    hide NextRun;
    MasterEach(b);
    match op
    case OpTimeouts(now) => var out := TimeoutProcess(b, now);
    case OpMakeLaterActive => MakeLaterActive(b);
    case OpTake(p) => var id := TakeActive(b, p, 0);
    case OpPersist(now, mapRes) => PersistClosure(b, b.current, now, mapRes);
    case OpCommonCallback(now) =>
      var k := CommonTimeoutCallback(b, b.due, now);
      assert CallbackOk(old(StateOf(b)), StateOf(b), old(b.due), now, k);
      assert CallbackOrder(old(StateOf(b)), StateOf(b), old(b.due), k);
    case OpEnd => EndCallback(b);
  }

  method Do(b: EventBase, op: Op)
    requires b.Valid() && Allowed(b, op)
    modifies b
    ensures b.Valid() && StepOk(old(StateOf(b)), op, StateOf(b))
  {
    hide EventBase.Valid;
    hide StepOk;
    if op.Adds() {
      DoNew(b, op);
    } else if op.IsCall() {
      DoCall(b, op);
    } else {
      DoLoop(b, op);
    }
  }

  /** What a run has been: the base before the first operation and after each. */
  ghost predicate Trace(states: seq<Snapshot>, ops: seq<Op>) {
    |states| == |ops| + 1 && forall i | 0 <= i < |ops| :: StepOk(states[i], ops[i], states[i + 1])
  }

  /** A base with no events. */
  function Start(npriorities: nat): Snapshot {
    Snapshot([], [], [], [], seq(npriorities, _ => []), [], NOBODY, NOBODY)
  }

  /** The operation is about event `id`: a caller names it, or its callback starts or runs. */
  predicate Concerns(s: Snapshot, op: Op, id: nat) {
    match op
    case OpAdd(i, _, _, _) => i == id
    case OpDel(i, _) => i == id
    case OpActive(i, _) => i == id
    case OpActiveLater(i, _) => i == id
    case OpCancel(i, _) => i == id
    case OpPriority(i, _) => i == id
    case OpFinalize(i) => i == id
    case OpTake(p) => p < |s.active| && s.active[p] != [] && s.active[p][0] == id
    case OpPersist(_, _) => s.current == id
    case _ => false
  }

  /** The event has fired in this step, and not before its time. */
  ghost predicate FiredIn(s: Snapshot, op: Op, s': Snapshot, id: nat) {
    && (op.OpTimeouts? || op.OpCommonCallback?)
    && id < |s.evs| && id < |s'.evs| && FiredBy(s.evs[id], s'.evs[id], op.now)
  }

  ghost predicate Pending(s: Snapshot, id: nat, when: Tv) {
    id < |s.evs| && id !in s.masters && s.evs[id].timeout && s.evs[id].when == when
  }

  /** One step leaves a timeout pending, or the event fires. */
  lemma PendingStep(s: Snapshot, op: Op, s': Snapshot, id: nat, when: Tv)
    requires StepOk(s, op, s') && Pending(s, id, when) && !Concerns(s, op, id)
    ensures Pending(s', id, when) || FiredIn(s, op, s', id)
  {
    hide Fired;
    match op
    case OpAssign(_, _, _, _) => assert id < |s.evs| <= |s'.evs| && s'.evs[..|s.evs|][id] == s'.evs[id];
    case OpCommon(_, _) => assert id < |s.evs| <= |s'.evs| && s'.evs[..|s.evs|][id] == s'.evs[id];
    case OpCommonCallback(now) =>
      var k: nat :| CallbackOk(s, s', s.due, now, k) && CallbackOrder(s, s', s.due, k);
    case _ =>
  }

  /** No timeout is lost, over any part of a run: an event with a timeout still has it with the same deadline
      when nothing was done to it, unless it has fired, and not before its time. */
  lemma {:induction false} PendingUntilFired(states: seq<Snapshot>, ops: seq<Op>, i: nat, j: nat, id: nat, when: Tv)
    requires Trace(states, ops) && i <= j <= |ops| && Pending(states[i], id, when)
    requires forall k | i <= k < j :: !Concerns(states[k], ops[k], id)
    ensures Pending(states[j], id, when) ||
            exists k | i <= k < j :: Pending(states[k], id, when) && FiredIn(states[k], ops[k], states[k + 1], id)
    decreases j
  {
    hide StepOk;
    hide Pending;
    hide Concerns;
    hide FiredIn;
    if i < j {
      PendingUntilFired(states, ops, i, j - 1, id, when);
      if Pending(states[j - 1], id, when) {
        PendingStep(states[j - 1], ops[j - 1], states[j], id, when);
      }
    }
  }

  /** Whatever the callers and the loop do, in any order, every operation does what it should, and lists,
      flags and counters stay in agreement. */
  method Run(npriorities: nat, ops: seq<Op>) returns (b: EventBase, n: nat, ghost states: seq<Snapshot>)
    ensures b.Valid() && AssertOk(b) && b.count == Total(b.evs)
    ensures n <= |ops| && (n < |ops| ==> !Allowed(b, ops[n]))
    ensures Trace(states, ops[..n]) && states[0] == Start(npriorities) && states[n] == StateOf(b)
  {
    hide EventBase.Valid;
    hide EventBase.ValidExcept;
    hide StepOk;
    b := new EventBase(npriorities);
    n := 0;
    states := [StateOf(b)];
    while n < |ops| && Allowed(b, ops[n])
      invariant n <= |ops| && fresh(b) && b.Valid()
      invariant Trace(states, ops[..n]) && states[0] == Start(npriorities) && states[n] == StateOf(b)
    {
      Do(b, ops[n]);
      TraceMore(states, ops[..n], ops[n], StateOf(b));
      states := states + [StateOf(b)];
      assert ops[..n + 1] == ops[..n] + [ops[n]];
      n := n + 1;
    }
    ValidMeansOk(b);
    CountIs(b);
  }

  lemma TraceMore(states: seq<Snapshot>, ops: seq<Op>, op: Op, s: Snapshot)
    requires Trace(states, ops) && StepOk(states[|ops|], op, s)
    ensures Trace(states + [s], ops + [op])
  {
  }

  lemma CountIs(b: EventBase)
    requires b.Valid()
    ensures b.count == Total(b.evs)
  {
  }
}
