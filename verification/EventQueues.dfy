/** `event.c`: the lists an event can be on, and the counters that go with them. */
module EventQueues {
  import opened Basics
  import opened NatLists

  /** Why an event is active: the bits of `ev_res`. */
  datatype Why = Timeout | Read | Write | Closed | Signal | Finalize

  datatype Closure = RunEvent | RunSignal | RunPersist | RunSelf | RunFinalizer

  /** A time in microseconds; `tag` is the number of a common timeout, or -1 for an ordinary time. */
  datatype Tv = Tv(us: int, tag: int)
  {
    predicate NonZero() { us != 0 || tag >= 0 }
  }

  const ZERO: Tv := Tv(0, -1)

  /** The duration of a common timeout: a `struct timeval` without the bits that make it one. */
  datatype Duration = Duration(sec: nat, usec: nat)
  {
    function Microseconds(): nat { sec * 1000000 + usec }
  }

  /** `struct event` with its flags. */
  datatype Event = Event(
    init: bool, internal: bool, inserted: bool, timeout: bool, active: bool, later: bool, finalizing: bool,
    watches: bool, persist: bool, pri: nat, res: set<Why>, when: Tv, ioTimeout: Tv, closure: Closure)
  {
    /** The lists that are counted in `event_count`. */
    function Weight(): nat {
      if internal then 0 else One(inserted) + One(timeout) + One(active) + One(later)
    }
  }

  datatype Place = Heap | Common(q: nat) | Active(p: nat) | Later

  /** Whether the flags of an event put it there. */
  predicate At(e: Event, place: Place) {
    match place
    case Heap => e.timeout && e.when.tag == -1
    case Common(q) => e.timeout && e.when.tag == q
    case Active(p) => e.active && e.pri == p
    case Later => e.later
  }

  /** What always holds of one event. */
  ghost predicate EventOk(e: Event, nactive: nat, ncommon: nat) {
    && e.pri < nactive
    && -1 <= e.when.tag < ncommon && -1 <= e.ioTimeout.tag < ncommon
    && !(e.active && e.later)
    && (e.finalizing ==> !e.inserted && !e.timeout)
    && (!e.init ==> !e.inserted && !e.timeout)
    && (e.inserted ==> e.watches)
    && (e.closure.RunPersist? && e.ioTimeout.NonZero() ==> e.when.tag == e.ioTimeout.tag)
  }

  /** The list holds exactly the events that are at this place, once each. */
  ghost predicate Lists(l: seq<nat>, evs: seq<Event>, place: Place) {
    && Distinct(l)
    && (forall id: nat :: id in l <==> id < |evs| && At(evs[id], place))
  }

  /** The deadline of an event. */
  function Time(evs: seq<Event>, id: nat): int {
    if id < |evs| then evs[id].when.us else 0
  }

  ghost predicate Sorted(l: seq<nat>, evs: seq<Event>) {
    forall i, j | 0 <= i < j < |l| :: Time(evs, l[i]) <= Time(evs, l[j])
  }

  /** One of the lists, if there is such a list, with an event at its place `i`. */
  function ListsWith(ls: seq<seq<nat>>, q: int, i: nat, id: nat): seq<seq<nat>> {
    if 0 <= q < |ls| && i <= |ls[q]| then ls[q := Inserted(ls[q], i, id)] else ls
  }

  /** One of the lists, if there is such a list, with an event at its end. */
  function ListsWithLast(ls: seq<seq<nat>>, q: int, id: nat): (r: seq<seq<nat>>)
    ensures |r| == |ls| && forall p | 0 <= p < |ls| :: r[p] == if p == q then ls[p] + [id] else ls[p]
  {
    if 0 <= q < |ls| then ls[q := ls[q] + [id]] else ls
  }

  /** One of the lists without an event. */
  function ListsWithout(ls: seq<seq<nat>>, q: int, id: nat): (r: seq<seq<nat>>)
    ensures |r| == |ls| && forall p | 0 <= p < |ls| && (p != q || id !in ls[p]) :: r[p] == ls[p]
  {
    if 0 <= q < |ls| && id in ls[q] then ls[q := Without(ls[q], id)] else ls
  }

  /** Every list and set agrees with the flags. */
  ghost predicate QueuesOk(evs: seq<Event>, inMap: set<nat>, heap: set<nat>, common: seq<seq<nat>>,
                           active: seq<seq<nat>>, later: seq<nat>) {
    && (forall id: nat :: id in inMap <==> id < |evs| && evs[id].inserted)
    && (forall id: nat :: id in heap <==> id < |evs| && At(evs[id], Heap))
    && (forall q | 0 <= q < |common| :: Lists(common[q], evs, Common(q)) && Sorted(common[q], evs))
    && (forall p | 0 <= p < |active| :: Lists(active[p], evs, Active(p)))
    && Lists(later, evs, Later)
    && (forall id | 0 <= id < |evs| :: EventOk(evs[id], |active|, |common|))
  }

  /** The list when event `id`, which was or was not in it, is now in it or not. */
  ghost predicate Step(l: seq<nat>, l': seq<nat>, before: bool, after: bool, id: nat) {
    || (before == after && l' == l)
    || (!before && after && exists i | 0 <= i <= |l| :: l' == Inserted(l, i, id))
    || (before && !after && exists k | 0 <= k < |l| && l[k] == id :: l' == Removed(l, k))
  }

  ghost predicate SetStep(s: set<nat>, s': set<nat>, before: bool, after: bool, id: nat) {
    || (before == after && s' == s)
    || (after && s' == s + {id})
    || (!after && s' == s - {id})
  }

  lemma RemovedSorted(l: seq<nat>, k: nat, evs: seq<Event>)
    requires Sorted(l, evs) && k < |l|
    ensures Sorted(Removed(l, k), evs)
  {
    var l' := Removed(l, k);
    assert forall j | 0 <= j < |l'| :: l'[j] == l[if j < k then j else j + 1];
  }

  lemma SortedElsewhere(l: seq<nat>, evs: seq<Event>, id: nat, e: Event)
    requires Sorted(l, evs) && id < |evs| && (id !in l || e.when == evs[id].when)
    ensures Sorted(l, evs[id := e])
  {
    forall i | 0 <= i < |l|
      ensures Time(evs[id := e], l[i]) == Time(evs, l[i])
    {
      assert l[i] in l;
    }
  }

  lemma ListStep(l: seq<nat>, l': seq<nat>, evs: seq<Event>, place: Place, id: nat, e: Event)
    requires Lists(l, evs, place) && id < |evs| && Step(l, l', At(evs[id], place), At(e, place), id)
    ensures Lists(l', evs[id := e], place)
  {
    hide Distinct;
    hide Inserted;
    hide Removed;
    var before, after := At(evs[id], place), At(e, place);
    if !before && after {
      var i :| 0 <= i <= |l| && l' == Inserted(l, i, id);
      InsertedFacts(l, i, id);
    } else if before && !after {
      var k :| 0 <= k < |l| && l[k] == id && l' == Removed(l, k);
      RemovedFacts(l, k);
    }
  }

  lemma SortedStep(l: seq<nat>, l': seq<nat>, evs: seq<Event>, q: nat, id: nat, e: Event)
    requires Lists(l, evs, Common(q)) && id < |evs| && Step(l, l', At(evs[id], Common(q)), At(e, Common(q)), id)
    requires Sorted(l, evs) && (e.when == evs[id].when || !evs[id].timeout || !e.timeout)
    requires !At(evs[id], Common(q)) && At(e, Common(q)) ==> Sorted(l', evs[id := e])
    ensures Sorted(l', evs[id := e])
  {
    hide Distinct;
    hide Inserted;
    hide Removed;
    hide Sorted;
    var before, after := At(evs[id], Common(q)), At(e, Common(q));
    if before && !after {
      var k :| 0 <= k < |l| && l[k] == id && l' == Removed(l, k);
      RemovedFacts(l, k);
      RemovedSorted(l, k, evs);
      SortedElsewhere(l', evs, id, e);
    } else if before == after {
      SortedElsewhere(l, evs, id, e);
    }
  }

  /** One event has changed, and the lists accordingly. */
  lemma QueuesStep(evs: seq<Event>, inMap: set<nat>, heap: set<nat>, common: seq<seq<nat>>,
                   active: seq<seq<nat>>, later: seq<nat>, id: nat, e: Event,
                   inMap': set<nat>, heap': set<nat>, common': seq<seq<nat>>,
                   active': seq<seq<nat>>, later': seq<nat>)
    requires QueuesOk(evs, inMap, heap, common, active, later)
    requires id < |evs| && EventOk(e, |active|, |common|)
    requires e.when == evs[id].when || !evs[id].timeout || !e.timeout
    requires |active'| == |active| && |common'| == |common|
    requires SetStep(inMap, inMap', evs[id].inserted, e.inserted, id)
    requires SetStep(heap, heap', At(evs[id], Heap), At(e, Heap), id)
    requires forall q | 0 <= q < |common| :: Step(common[q], common'[q], At(evs[id], Common(q)), At(e, Common(q)), id)
    requires forall q | 0 <= q < |common| && !At(evs[id], Common(q)) && At(e, Common(q)) ::
               Sorted(common'[q], evs[id := e])
    requires forall p | 0 <= p < |active| :: Step(active[p], active'[p], At(evs[id], Active(p)), At(e, Active(p)), id)
    requires Step(later, later', At(evs[id], Later), At(e, Later), id)
    ensures QueuesOk(evs[id := e], inMap', heap', common', active', later')
  {
    hide Lists;
    hide Step;
    forall q | 0 <= q < |common|
      ensures Lists(common'[q], evs[id := e], Common(q)) && Sorted(common'[q], evs[id := e])
    {
      ListStep(common[q], common'[q], evs, Common(q), id, e);
      SortedStep(common[q], common'[q], evs, q, id, e);
    }
    forall p | 0 <= p < |active|
      ensures Lists(active'[p], evs[id := e], Active(p))
    {
      ListStep(active[p], active'[p], evs, Active(p), id, e);
    }
    ListStep(later, later', evs, Later, id, e);
  }

  lemma Appended(l: seq<nat>, id: nat)
    ensures Step(l, l + [id], false, true, id)
  {
    assert l + [id] == Inserted(l, |l|, id);
  }

  lemma Unlinked(l: seq<nat>, id: nat)
    requires id in l
    ensures Step(l, Without(l, id), true, false, id) && |Without(l, id)| == |l| - 1
  {
  }

  /** Only the place of an event in the maps has changed. */
  lemma MapChange(evs: seq<Event>, inMap: set<nat>, heap: set<nat>, common: seq<seq<nat>>,
                  active: seq<seq<nat>>, later: seq<nat>, id: nat, e: Event, inMap': set<nat>)
    requires QueuesOk(evs, inMap, heap, common, active, later) && id < |evs|
    requires e == evs[id].(inserted := e.inserted) && EventOk(e, |active|, |common|)
    requires SetStep(inMap, inMap', evs[id].inserted, e.inserted, id)
    ensures QueuesOk(evs[id := e], inMap', heap, common, active, later)
  {
    QueuesStep(evs, inMap, heap, common, active, later, id, e, inMap', heap, common, active, later);
  }

  /** Only the place of an event in the queue of its priority has changed. */
  lemma ActiveChange(evs: seq<Event>, inMap: set<nat>, heap: set<nat>, common: seq<seq<nat>>,
                     active: seq<seq<nat>>, later: seq<nat>, id: nat, e: Event, l': seq<nat>)
    requires QueuesOk(evs, inMap, heap, common, active, later) && id < |evs|
    requires e == evs[id].(active := e.active) && EventOk(e, |active|, |common|)
    requires Step(active[e.pri], l', evs[id].active, e.active, id)
    ensures QueuesOk(evs[id := e], inMap, heap, common, active[e.pri := l'], later)
  {
    hide Step;
    var active' := active[e.pri := l'];
    forall p | 0 <= p < |active|
      ensures Step(active[p], active'[p], At(evs[id], Active(p)), At(e, Active(p)), id)
    {
      if p != e.pri { Unchanged(active[p], id); }
    }
    forall q | 0 <= q < |common|
      ensures Step(common[q], common[q], At(evs[id], Common(q)), At(e, Common(q)), id)
    {
      Unchanged(common[q], id);
    }
    Unchanged(later, id);
    QueuesStep(evs, inMap, heap, common, active, later, id, e, inMap, heap, common, active', later);
  }

  lemma Unchanged(l: seq<nat>, id: nat)
    ensures Step(l, l, false, false, id) && Step(l, l, true, true, id)
  {
  }

  /** Only the place of an event in the queue for later has changed. */
  lemma LaterChange(evs: seq<Event>, inMap: set<nat>, heap: set<nat>, common: seq<seq<nat>>,
                    active: seq<seq<nat>>, later: seq<nat>, id: nat, e: Event, l': seq<nat>)
    requires QueuesOk(evs, inMap, heap, common, active, later) && id < |evs|
    requires e == evs[id].(later := e.later) && EventOk(e, |active|, |common|)
    requires Step(later, l', evs[id].later, e.later, id)
    ensures QueuesOk(evs[id := e], inMap, heap, common, active, l')
  {
    QueuesStep(evs, inMap, heap, common, active, later, id, e, inMap, heap, common, active, l');
  }

  /** What the lists say of one event. */
  lemma EventFacts(evs: seq<Event>, inMap: set<nat>, heap: set<nat>, common: seq<seq<nat>>,
                   active: seq<seq<nat>>, later: seq<nat>, id: nat)
    requires QueuesOk(evs, inMap, heap, common, active, later) && id < |evs|
    ensures EventOk(evs[id], |active|, |common|)
    ensures id in active[evs[id].pri] <==> evs[id].active
    ensures id in later <==> evs[id].later
    ensures id in heap <==> At(evs[id], Heap)
    ensures evs[id].when.tag >= 0 ==> (id in common[evs[id].when.tag] <==> evs[id].timeout)
  {
    var e := evs[id];
    assert Lists(active[e.pri], evs, Active(e.pri));
    assert e.when.tag >= 0 ==> Lists(common[e.when.tag], evs, Common(e.when.tag));
  }

  /** `event_count`, as it should be. */
  function Total(evs: seq<Event>): nat {
    if evs == [] then 0 else evs[0].Weight() + Total(evs[1..])
  }

  lemma {:induction false} TotalStep(evs: seq<Event>, id: nat, e: Event)
    requires id < |evs|
    ensures Total(evs[id := e]) == Total(evs) - evs[id].Weight() + e.Weight()
  {
    var new' := evs[id := e];
    if id == 0 {
      assert new'[1..] == evs[1..];
    } else {
      TotalStep(evs[1..], id - 1, e);
      assert new'[1..] == evs[1..][id - 1 := e];
    }
  }

  const NOBODY: int := -1

  /** The event that stands for a common timeout in the heap. */
  ghost predicate MasterOk(e: Event) {
    && e.init && e.internal && !e.watches && !e.persist && !e.later && !e.finalizing
    && e.when.tag == -1 && e.ioTimeout == ZERO && e.closure.RunEvent?
  }

  /** Every common timeout has an event of its own. */
  ghost predicate MastersOk(evs: seq<Event>, masters: seq<nat>) {
    && (forall q | 0 <= q < |masters| :: masters[q] < |evs| && MasterOk(evs[masters[q]]))
    && (forall q, r | 0 <= q < r < |masters| :: masters[q] != masters[r])
  }

  /** The event `master` comes in time for the head of its list: it is active already, or it is in
      the heap with a deadline that is no later. */
  ghost predicate InTime(evs: seq<Event>, master: nat, list: seq<nat>) {
    list == [] ||
    (master < |evs| && (evs[master].active || (evs[master].timeout && Time(evs, master) <= Time(evs, list[0]))))
  }

  /** No timeout is lost, but perhaps in the lists `x` and `due`. */
  ghost predicate InTimeExcept(evs: seq<Event>, common: seq<seq<nat>>, masters: seq<nat>, x: int, due: int) {
    forall q | 0 <= q < |common| && q < |masters| && q != x && q != due :: InTime(evs, masters[q], common[q])
  }

  /** An event has changed that stands for no list but `x`, and no list has a new head that is earlier. */
  lemma InTimeStep(evs: seq<Event>, common: seq<seq<nat>>, masters: seq<nat>, x: int, due: int,
                   id: nat, e: Event, common': seq<seq<nat>>)
    requires InTimeExcept(evs, common, masters, x, due) && id < |evs| && |common'| == |common|
    requires forall q | 0 <= q < |masters| && masters[q] == id :: q == x
    requires forall q | 0 <= q < |common| && q != x && common'[q] != [] ::
               common[q] != [] && Time(evs[id := e], common'[q][0]) >= Time(evs, common[q][0])
    ensures InTimeExcept(evs[id := e], common', masters, x, due)
  {
    forall q | 0 <= q < |common| && q < |masters| && q != x && q != due
      ensures InTime(evs[id := e], masters[q], common'[q])
    {
      assert InTime(evs, masters[q], common[q]);
    }
  }

  /** Fields have changed that say nothing about lists and times. */
  lemma FieldChange(evs: seq<Event>, inMap: set<nat>, heap: set<nat>, common: seq<seq<nat>>, active: seq<seq<nat>>,
                    later: seq<nat>, masters: seq<nat>, x: int, due: int, id: nat, e: Event)
    requires QueuesOk(evs, inMap, heap, common, active, later)
    requires MastersOk(evs, masters) && InTimeExcept(evs, common, masters, x, due)
    requires id < |evs| && EventOk(e, |active|, |common|)
    requires e == evs[id].(res := e.res, pri := e.pri, closure := e.closure, finalizing := e.finalizing)
    requires e.pri == evs[id].pri || !e.active
    requires MasterOk(evs[id]) && id in masters ==> MasterOk(e)
    ensures QueuesOk(evs[id := e], inMap, heap, common, active, later)
    ensures MastersOk(evs[id := e], masters) && InTimeExcept(evs[id := e], common, masters, x, due)
  {
    hide Lists;
    hide Sorted;
    QueuesStep(evs, inMap, heap, common, active, later, id, e, inMap, heap, common, active, later);
    assert forall q | 0 <= q < |common| && q < |masters| && q != x && q != due :: InTime(evs, masters[q], common[q]);
    assert forall j: nat :: Time(evs[id := e], j) == Time(evs, j);
  }

  /** `struct event_base`, with the events that belong to it. */
  class EventBase {
    var evs: seq<Event>
    /** The events in the maps of descriptors and signals. */
    var inMap: set<nat>
    /** The events in `timeheap`. */
    var heap: set<nat>
    /** The lists of common timeouts, their durations, and the events that stand for them in the heap. */
    var common: seq<seq<nat>>
    var durations: seq<Duration>
    var masters: seq<nat>
    var active: seq<seq<nat>>
    var later: seq<nat>
    var count: int
    var countActive: int
    /** The event whose callback is running. */
    var current: int
    /** The common timeout whose callback has been taken off its queue and has yet to look at its list. */
    var due: int

    constructor (npriorities: nat)
      ensures Valid() && evs == [] && active == seq(npriorities, _ => []) && later == []
      ensures common == [] && durations == [] && masters == [] && current == NOBODY && due == NOBODY
    {
      evs, inMap, heap, common, durations, masters, later := [], {}, {}, [], [], [], [];
      active := seq(npriorities, _ => []);
      count, countActive, current, due := 0, 0, NOBODY, NOBODY;
      new;
      NoLengths(active);
    }

    /** Lists, flags and counters agree. */
    ghost predicate Core()
      reads this
    {
      && QueuesOk(evs, inMap, heap, common, active, later)
      && count == Total(evs)
      && countActive == Lengths(active) + |later|
      && |masters| == |common| == |durations| && NOBODY <= due < |masters|
      && MastersOk(evs, masters)
    }

    ghost predicate ValidExcept(x: int)
      reads this
    {
      Core() && InTimeExcept(evs, common, masters, x, due)
    }

    ghost predicate Valid()
      reads this
    {
      ValidExcept(NOBODY)
    }

    /** The event stands for no common timeout but `x`. */
    ghost predicate Free(id: nat, x: int)
      reads this
    {
      id < |evs| && forall q | 0 <= q < |masters| && masters[q] == id :: q == x
    }

    /** Nothing but the events and their lists has changed. */
    twostate predicate Same()
      reads this
    {
      masters == old(masters) && durations == old(durations) && current == old(current) && due == old(due) &&
      |common| == |old(common)| && |active| == |old(active)| && |evs| == |old(evs)|
    }
  }

  /** The exception is not needed when its list is in time. */
  lemma NoException(b: EventBase, x: int)
    requires b.ValidExcept(x)
    requires 0 <= x < |b.common| ==> InTime(b.evs, b.masters[x], b.common[x])
    ensures b.Valid()
  {
  }

  lemma Weaken(b: EventBase, x: int)
    requires b.Valid()
    ensures b.ValidExcept(x)
  {
  }
}
