/** Whole runs of the descriptor map: additions and deletions on any descriptors, with dispatches
    and restarts after a fork in between. */
module EvMapRun {
  import opened EpollTable
  import opened EvMap

  datatype Op = OpAdd(ev: Event) | OpDel(ev: Event) | OpDispatch | OpReinit

  /** The list without an event, if it is there. */
  function Without(evs: seq<Event>, ev: Event): seq<Event> {
    if evs == [] then []
    else if evs[0] == ev then evs[1..]
    else [evs[0]] + Without(evs[1..], ev)
  }

  lemma {:induction false} WithoutAt(evs: seq<Event>, ev: Event, k: nat)
    requires k < |evs| && evs[k] == ev && ev !in evs[..k]
    ensures Without(evs, ev) == evs[..k] + evs[k + 1..]
  {
    if k > 0 {
      assert evs[0] in evs[..k] && evs[1..][..k - 1] == evs[..k][1..];
      WithoutAt(evs[1..], ev, k - 1);
    }
  }

  lemma {:induction false} NotThere(evs: seq<Event>, ev: Event)
    requires ev !in evs
    ensures Without(evs, ev) == evs
  {
    if evs != [] {
      NotThere(evs[1..], ev);
    }
  }

  /** `event_del_nolock_` for an event that may be in the map: only one that is there is deleted. */
  method Delete(m: IoMap, ev: Event) returns (result: int)
    requires m.Valid()
    modifies m
    ensures m.Valid()
    ensures m.Events(ev.fd) == Without(old(m.Events(ev.fd)), ev)
    ensures forall g | g != ev.fd :: m.Events(g) == old(m.Events(g))
    ensures result == if m.Wanted(ev.fd) != old(m.Wanted(ev.fd)) then 1 else 0
    ensures m.kernel == old(m.kernel)
  {
    hide IoMap.Valid;
    var evs := m.Events(ev.fd);
    var k := 0;
    while k < |evs| && evs[k] != ev
      invariant k <= |evs| && ev !in evs[..k]
    {
      k := k + 1;
    }
    if k == |evs| {
      assert evs[..k] == evs;
      NotThere(evs, ev);
      return 0;
    }
    WithoutAt(evs, ev, k);
    result := IoDel(m, ev, k);
  }

  /** The descriptor that a call is about. */
  function FdOf(op: Op): int {
    match op
    case OpAdd(ev) => ev.fd
    case OpDel(ev) => ev.fd
    case OpDispatch => NOBODY
    case OpReinit => NOBODY
  }

  /** The events that wait on `fd` after one call, when `evs` waited before. */
  ghost function After(op: Op, evs: seq<Event>, fd: int): seq<Event> {
    match op
    case OpAdd(ev) => if ev.fd == fd >= 0 && !Refused(ev, evs) then [ev] + evs else evs
    case OpDel(ev) => if ev.fd == fd then Without(evs, ev) else evs
    case OpDispatch => evs
    case OpReinit => evs
  }

  /** The events that wait on `fd` after these calls. */
  ghost function Waiting(ops: seq<Op>, fd: int): seq<Event> {
    if ops == [] then []
    else
      var n := |ops| - 1;
      After(ops[n], Waiting(ops[..n], fd), fd)
  }

  /** What a call returns when `evs` waited on its descriptor: -1 for an addition that is refused, and 1
      exactly when the interests of the descriptor become others. */
  ghost function Answer(op: Op, evs: seq<Event>): int {
    if op.OpAdd? && Refused(op.ev, evs) then -1
    else if KindsOf(After(op, evs, FdOf(op))) != KindsOf(evs) then 1
    else 0
  }

  lemma NothingWaits()
    ensures forall fd :: Waiting([], fd) == []
  {
  }

  lemma WaitingStep(ops: seq<Op>, op: Op, fd: int)
    ensures Waiting(ops + [op], fd) == After(op, Waiting(ops, fd), fd)
  {
    assert (ops + [op])[..|ops|] == ops;
  }

  /** One call. */
  method Do(m: IoMap, op: Op) returns (result: int)
    requires m.Valid()
    modifies m
    ensures m.Valid()
    ensures forall fd :: m.Events(fd) == After(op, old(m.Events(fd)), fd)
    ensures result == Answer(op, old(m.Events(FdOf(op))))
    ensures op.OpDispatch? ==> Synchronised(m)
    ensures op.OpAdd? && result != -1 && op.ev.fd >= 0 ==> m.Events(op.ev.fd) == [op.ev] + old(m.Events(op.ev.fd))
    ensures op.OpAdd? && result == -1 ==> m.Events(op.ev.fd) == old(m.Events(op.ev.fd))
    ensures op.OpDel? ==> m.Events(op.ev.fd) == Without(old(m.Events(op.ev.fd)), op.ev)
    ensures op.OpDispatch? || op.OpReinit? ==> forall fd :: m.Events(fd) == old(m.Events(fd))
    ensures op.OpReinit? ==> m.kernel == map[]
    ensures op.OpAdd? || op.OpDel? ==> m.kernel == old(m.kernel)
  {
    hide IoMap.Valid;
    hide IoMap.Wanted;
    hide KindsOf;
    hide TooMany;
    result := 0;
    WantedIs(m, FdOf(op));
    match op
    case OpAdd(ev) =>
      result := IoAdd(m, ev);
      WantedIs(m, ev.fd);
    case OpDel(ev) =>
      result := Delete(m, ev);
      WantedIs(m, ev.fd);
    case OpDispatch =>
      Dispatch(m);
    case OpReinit =>
      Reinit(m);
  }

  /** After any run from an empty map the events are the ones that were added, not refused, and not
      deleted, and every call has answered as it should; when the run ends with a dispatch, the kernel
      waits on every descriptor for exactly what they ask. */
  method Run(ops: seq<Op>) returns (m: IoMap, results: seq<int>)
    ensures m.Valid() && |results| == |ops|
    ensures forall fd :: m.Events(fd) == Waiting(ops, fd)
    ensures forall i | 0 <= i < |ops| :: results[i] == Answer(ops[i], Waiting(ops[..i], FdOf(ops[i])))
    ensures ops != [] && ops[|ops| - 1].OpDispatch? ==> Synchronised(m)
    ensures ops != [] && ops[|ops| - 1].OpReinit? ==> m.kernel == map[]
  {
    hide After;
    hide Answer;
    hide Waiting;
    hide Synchronised;
    hide IoMap.Valid;
    hide IoMap.Events;
    m := new IoMap();
    results := [];
    NothingWaits();
    assert forall fd :: m.Events(fd) == [];
    var i := 0;
    while i < |ops|
      invariant 0 <= i <= |ops| && |results| == i
      invariant m.Valid() && fresh(m)
      invariant forall fd :: m.Events(fd) == Waiting(ops[..i], fd)
      invariant forall j | 0 <= j < i :: results[j] == Answer(ops[j], Waiting(ops[..j], FdOf(ops[j])))
      invariant i > 0 && ops[i - 1].OpDispatch? ==> Synchronised(m)
      invariant i > 0 && ops[i - 1].OpReinit? ==> m.kernel == map[]
    {
      label before:
      var r := Do(m, ops[i]);
      results := results + [r];
      assert ops[..i + 1] == ops[..i] + [ops[i]];
      forall fd: int
        ensures m.Events(fd) == Waiting(ops[..i + 1], fd)
      {
        WaitingStep(ops[..i], ops[i], fd);
        assert old@before(m.Events(fd)) == Waiting(ops[..i], fd);
      }
      i := i + 1;
    }
    assert ops[..i] == ops;
  }
}
