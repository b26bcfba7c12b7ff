/** `bufferevent_pair.c` and `bufferevent.c`: both directions of a pair, and runs of any length. */
module PairRun {
  import opened Chains
  import opened EvBuffers
  import opened BufferPair
  import opened PairFlow

  /** The two ends share nothing. */
  ghost predicate Separate(a: End, b: End)
  {
    && a != b && a.input != a.output && a.input != b.input && a.input != b.output
    && a.output != b.input && a.output != b.output && b.input != b.output
    && a.input.cb != a.output.cb && a.input.cb != b.input.cb && a.input.cb != b.output.cb
    && a.output.cb != b.input.cb && a.output.cb != b.output.cb && b.input.cb != b.output.cb
  }

  /** A pair between calls: in both directions nothing is lost, nothing waits that could be handed over,
      and reading is suspended at the watermark. */
  ghost predicate PairOk(a: End, b: End)
    reads a, b, a.input, a.output, b.input, b.output, a.input.cb, a.output.cb, b.input.cb, b.output.cb
  {
    WaysOk(a, b) && Settled(a, b) && Settled(b, a)
  }

  /** All of this but that something may wait to be handed over. */
  ghost predicate WaysOk(a: End, b: End)
    reads a`partner, a`written, a`taken, a`readSuspended, a`high, b`partner, b`written, b`taken, b`readSuspended, b`high
    reads a.input, a.output, b.input, b.output, a.input.cb, a.output.cb, b.input.cb, b.output.cb
  {
    Separate(a, b) && Partners(a, b) && Partners(b, a) && WayOk(a, b) && WayOk(b, a)
  }

  // ---- a pair as two values

  datatype Op =
    | OpWrite(data: seq<byte>)
    | OpRead(n: nat)
    | OpEnable(read: bool, write: bool)
    | OpDisable(read: bool, write: bool)
    | OpSuspendRead(what: Reason)
    | OpUnsuspendRead(what: Reason)
    | OpSuspendWrite(what: Reason)
    | OpUnsuspendWrite(what: Reason)
    | OpSetWatermark(high: nat)
    | OpFlush(read: bool, write: bool, normal: bool)
    | OpUnlink

  /** One end: its bytes, what has been read from it, and its switches. */
  datatype Side = Side(input: seq<byte>, output: seq<byte>, taken: seq<byte>, enabledRead: bool, enabledWrite: bool,
                       readSuspended: set<Reason>, writeSuspended: set<Reason>, high: nat)

  /** Both ends, seen from `x`. */
  datatype PairState = PairState(x: Side, y: Side, linked: bool)
  {
    /** The same, seen from the other end. */
    function Turned(): PairState {
      PairState(y, x, linked)
    }
  }

  ghost function SideOf(e: End): Side
    reads e, e.input, e.output
  {
    Side(e.input.Contents(), e.output.Contents(), e.taken, e.enabledRead, e.enabledWrite,
         e.readSuspended, e.writeSuspended, e.high)
  }

  ghost function StateOf(x: End, y: End): PairState
    reads x, y, x.input, x.output, y.input, y.output
  {
    PairState(SideOf(x), SideOf(y), x.partner == y)
  }

  /** Why reading is suspended with so many bytes in the input. */
  function Marked(suspended: set<Reason>, inp: nat, high: nat): set<Reason> {
    if high > 0 && inp >= high then suspended + {Watermark} else suspended - {Watermark}
  }

  /** All but the last `stay` bytes of the output of `x` have gone to the input of `y`. */
  function Delivered(p: PairState, stay: nat): PairState
    requires stay <= |p.x.output|
  {
    var k := |p.x.output| - stay;
    var inp := p.y.input + p.x.output[..k];
    p.(x := p.x.(output := p.x.output[k..]),
       y := p.y.(input := inp, readSuspended := Marked(p.y.readSuspended, |inp|, p.y.high)))
  }

  predicate TakesFrom(p: PairState, suspended: set<Reason>) {
    p.linked && p.x.enabledWrite && p.y.enabledRead && suspended == {}
  }

  /** The output of `x` is offered to `y`, which takes what it may, or not. */
  function Offered(p: PairState, takes: bool): PairState {
    Delivered(p, Stays(takes, |p.y.input|, |p.x.output|, p.y.high))
  }

  /** The same, for what `y` has. */
  function Fetched(p: PairState, takes: bool): PairState {
    Offered(p.Turned(), takes).Turned()
  }

  /** `x` has written `d`. */
  function AfterWrite(p: PairState, d: seq<byte>): PairState {
    var q := p.(x := p.x.(output := p.x.output + d));
    Offered(q, d != [] && TakesFrom(q, q.y.readSuspended))
  }

  /** `x` has read up to `n` bytes. */
  function AfterRead(p: PairState, n: nat): PairState {
    var k := Least(n, |p.x.input|);
    var q := p.(x := p.x.(input := p.x.input[k..], taken := p.x.taken + p.x.input[..k]));
    Fetched(q, k > 0 && |q.x.input| < q.x.high && TakesFrom(q.Turned(), q.x.readSuspended - {Watermark}))
  }

  /** `x` has been enabled. */
  function AfterEnable(p: PairState, read: bool, write: bool): PairState {
    var q := Enabled(p, read, write);
    var r := Fetched(q, read && TakesFrom(q.Turned(), q.x.readSuspended));
    Offered(r, write && p.x.writeSuspended == {} && TakesFrom(r, r.y.readSuspended))
  }

  function AfterUnsuspendRead(p: PairState, what: Reason): PairState {
    var q := p.(x := p.x.(readSuspended := p.x.readSuspended - {what}));
    Fetched(q, TakesFrom(q.Turned(), q.x.readSuspended))
  }

  function AfterUnsuspendWrite(p: PairState, what: Reason): PairState {
    var q := p.(x := p.x.(writeSuspended := p.x.writeSuspended - {what}));
    Offered(q, q.x.writeSuspended == {} && TakesFrom(q, q.y.readSuspended))
  }

  function AfterSetWatermark(p: PairState, high: nat): PairState {
    var q := p.(x := p.x.(high := high));
    Fetched(q, (high == 0 || |q.x.input| < high) && TakesFrom(q.Turned(), q.x.readSuspended - {Watermark}))
  }

  /** The output of `x` has gone to `y`, with no regard to a watermark that has been reached. */
  function Flushed(p: PairState, normal: bool): PairState {
    if !p.linked || normal then p else Delivered(p, LeftOver(|p.y.input|, |p.x.output|, p.y.high, true))
  }

  /** What a call at `x` does. */
  function Next(p: PairState, op: Op): PairState {
    match op
    case OpWrite(d) => AfterWrite(p, d)
    case OpRead(n) => AfterRead(p, n)
    case OpEnable(read, write) => AfterEnable(p, read, write)
    case OpDisable(read, write) =>
      p.(x := p.x.(enabledRead := p.x.enabledRead && !read, enabledWrite := p.x.enabledWrite && !write))
    case OpSuspendRead(what) => p.(x := p.x.(readSuspended := p.x.readSuspended + {what}))
    case OpUnsuspendRead(what) => AfterUnsuspendRead(p, what)
    case OpSuspendWrite(what) => p.(x := p.x.(writeSuspended := p.x.writeSuspended + {what}))
    case OpUnsuspendWrite(what) => AfterUnsuspendWrite(p, what)
    case OpSetWatermark(high) => AfterSetWatermark(p, high)
    case OpFlush(read, write, normal) =>
      var q := if read then Flushed(p.Turned(), normal).Turned() else p;
      if write then Flushed(q, normal) else q
    case OpUnlink => p.(linked := false)
  }

  lemma MarkedIs(was: set<Reason>, suspended: set<Reason>, inp: nat, high: nat)
    requires suspended - {Watermark} == was - {Watermark}
    requires Watermark in suspended <==> high > 0 && inp >= high
    ensures suspended == Marked(was, inp, high)
  {
    forall e: Reason
      ensures e in suspended <==> e in Marked(was, inp, high)
    {
      assert e in suspended - {Watermark} <==> e in was - {Watermark};
    }
  }

  /** What is known of the bytes after a delivery says what they are. */
  lemma DeliveredIs(p: PairState, inp: seq<byte>, out: seq<byte>, suspended: set<Reason>)
    requires inp + out == p.y.input + p.x.output && |out| <= |p.x.output|
    requires suspended - {Watermark} == p.y.readSuspended - {Watermark}
    requires Watermark in suspended <==> p.y.high > 0 && |inp| >= p.y.high
    ensures Delivered(p, |out|) == p.(x := p.x.(output := out), y := p.y.(input := inp, readSuspended := suspended))
  {
    var k := |p.x.output| - |out|;
    var all := p.y.input + p.x.output;
    assert inp == all[..|inp|] && out == all[|inp|..];
    assert p.y.input + p.x.output[..k] == all[..|inp|] && p.x.output[k..] == all[|inp|..];
    MarkedIs(p.y.readSuspended, suspended, |inp|, p.y.high);
  }

  /** The marks of `r` are right. */
  lemma MarksOk(w: End, r: End)
    requires WayOk(w, r)
    ensures Watermark in r.readSuspended <==> r.high > 0 && |r.input.Contents()| >= r.high
  {
  }

  /** Nothing changes for a reader who takes nothing. */
  lemma NothingTaken(p: PairState)
    requires Watermark in p.y.readSuspended <==> p.y.high > 0 && |p.y.input| >= p.y.high
    ensures Offered(p, false) == p
  {
    DeliveredIs(p, p.y.input, p.x.output, p.y.readSuspended);
  }

  lemma NewWay(w: End, r: End)
    requires w.output.Valid() && r.input.Valid() && w.output != r.input && w.output.cb != r.input.cb
    requires w.output.freezeStart && !w.output.freezeEnd && r.input.freezeEnd && !r.input.freezeStart
    requires w.output.Contents() == [] && r.input.Contents() == [] && w.written == [] && r.taken == []
    requires r.readSuspended == {} && r.high == 0
    ensures WayOk(w, r) && Settled(w, r)
  {
  }

  /** `bufferevent_pair_new`. */
  method PairNew() returns (a: End, b: End)
    ensures PairOk(a, b) && a.partner == b && b.partner == a
    ensures fresh(a) && fresh(b) && fresh(a.input) && fresh(a.output) && fresh(b.input) && fresh(b.output)
    ensures fresh(a.input.cb) && fresh(a.output.cb) && fresh(b.input.cb) && fresh(b.output.cb)
    ensures a.written == [] && b.written == [] && a.taken == [] && b.taken == []
    ensures !a.enabledRead && a.enabledWrite && !b.enabledRead && b.enabledWrite
    ensures a.readSuspended == {} && b.readSuspended == {} && a.writeSuspended == {} && b.writeSuspended == {}
    ensures a.high == 0 && b.high == 0
  {
    hide WayOk;
    hide Settled;
    hide EvBuffer.Contents;
    hide EvBuffer.Valid;
    a := new End();
    b := new End();
    a.partner := b;
    b.partner := a;
    NewWay(a, b);
    NewWay(b, a);
  }

  /** The output of `x` is offered to `y`, or not. */
  method Hand(x: End, y: End, offer: bool)
    requires WaysOk(x, y) && (!offer ==> Settled(x, y))
    modifies y`readSuspended, x.output, y.input, x.output.cb, y.input.cb
    ensures WaysOk(x, y) && Settled(x, y) && (old(Settled(y, x)) ==> Settled(y, x))
    ensures StateOf(x, y) == Offered(old(StateOf(x, y)), offer && TakesFrom(old(StateOf(x, y)), old(y.readSuspended)))
  {
    hide EvBuffer.Valid;
    hide EvBuffer.Contents;
    hide WayOk;
    hide Delivered;
    hide Stays;
    MarksOk(x, y);
    ghost var p := StateOf(x, y);
    NothingTaken(p);
    if offer {
      Offer(x, y);
      MarksOk(x, y);
      DeliveredIs(p, y.input.Contents(), x.output.Contents(), y.readSuspended);
    }
  }

  /** The same in the other direction. */
  method Fetch(x: End, y: End, offer: bool)
    requires WaysOk(x, y) && (!offer ==> Settled(y, x))
    modifies x`readSuspended, y.output, x.input, y.output.cb, x.input.cb
    ensures WaysOk(x, y) && Settled(y, x) && (old(Settled(x, y)) ==> Settled(x, y))
    ensures StateOf(x, y) == Fetched(old(StateOf(x, y)), offer && TakesFrom(old(StateOf(y, x)), old(x.readSuspended)))
    ensures StateOf(x, y) == StateOf(y, x).Turned() && old(StateOf(x, y)) == old(StateOf(y, x)).Turned()
  {
    hide Offered;
    hide WayOk;
    Hand(y, x, offer);
  }

  lemma Apart(x: End, y: End)
    requires WaysOk(x, y)
    ensures x != y && Partners(x, y) && Partners(y, x)
    ensures x.input != y.output && x.output != y.input && x.input != y.input && x.output != y.output
    ensures x.input != x.output && y.input != y.output
  {
  }

  /** `x` is enabled, and nothing has been handed over yet. */
  function Enabled(p: PairState, read: bool, write: bool): PairState {
    p.(x := p.x.(enabledRead := p.x.enabledRead || read, enabledWrite := p.x.enabledWrite || write))
  }

  method SetEnabled(x: End, y: End, read: bool, write: bool)
    requires PairOk(x, y)
    modifies x`enabledRead, x`enabledWrite
    ensures WaysOk(x, y) && StateOf(x, y) == Enabled(old(StateOf(x, y)), read, write)
    ensures x.enabledRead == (old(x.enabledRead) || read) && x.enabledWrite == (old(x.enabledWrite) || write)
    ensures !(read && x.readSuspended == {}) ==> Settled(y, x)
    ensures !(write && x.writeSuspended == {}) ==> Settled(x, y)
  {
    hide EvBuffer.Contents;
    hide WaysOk;
    Apart(x, y);
    x.enabledRead := x.enabledRead || read;
    x.enabledWrite := x.enabledWrite || write;
  }

  /** `bufferevent_enable` and `be_pair_enable`: an end that may read, or write, looks whether there is
      something to hand over. */
  method Enable(x: End, y: End, read: bool, write: bool)
    requires PairOk(x, y)
    modifies x, y`readSuspended, x.input, x.output, y.input, y.output
    modifies x.input.cb, x.output.cb, y.input.cb, y.output.cb
    ensures PairOk(x, y)
    ensures x.written == old(x.written) && StateOf(x, y) == AfterEnable(old(StateOf(x, y)), read, write)
    ensures x.enabledRead == (old(x.enabledRead) || read) && x.enabledWrite == (old(x.enabledWrite) || write)
    ensures y.enabledRead == old(y.enabledRead) && y.enabledWrite == old(y.enabledWrite) && x.high == old(x.high)
  {
    hide EvBuffer.Contents;
    hide WaysOk;
    hide Settled;
    hide Fetched;
    hide Offered;
    var implRead := read && x.readSuspended == {};
    var implWrite := write && x.writeSuspended == {};
    SetEnabled(x, y, read, write);
    Fetch(x, y, implRead);
    Hand(x, y, implWrite);
  }

  // ---- the other calls, at the end `x`

  method WriteAt(x: End, y: End, d: seq<byte>)
    requires PairOk(x, y) && x.output.totalLen + y.input.totalLen + |d| <= SIZE_MAX
    modifies y`readSuspended, x`written, x.output, y.input, x.output.cb, y.input.cb
    ensures PairOk(x, y) && StateOf(x, y) == AfterWrite(old(StateOf(x, y)), d) && x.written == old(x.written) + d
  {
    hide EvBuffer.Valid;
    hide EvBuffer.Contents;
    hide WayOk;
    hide Delivered;
    hide Stays;
    WaySizes(x, y);
    ghost var p := StateOf(x, y);
    var res := Write(x, y, d);
    MarksOk(x, y);
    assert p.y.input + (p.x.output + d) == p.y.input + p.x.output + d;
    DeliveredIs(p.(x := p.x.(output := p.x.output + d)), y.input.Contents(), x.output.Contents(), y.readSuspended);
  }

  method ReadAt(x: End, y: End, n: nat) returns (data: seq<byte>)
    requires PairOk(x, y)
    modifies x`readSuspended, x`taken, y.output, x.input, y.output.cb, x.input.cb
    ensures PairOk(x, y) && StateOf(x, y) == AfterRead(old(StateOf(x, y)), n)
    ensures data == old(x.input.Contents())[..Least(n, |old(x.input.Contents())|)] && x.taken == old(x.taken) + data
  {
    hide EvBuffer.Valid;
    hide EvBuffer.Contents;
    hide WayOk;
    hide Delivered;
    hide Stays;
    ghost var p := StateOf(x, y);
    data := Read(y, x, n);
    MarksOk(y, x);
    ghost var q := p.(x := p.x.(input := p.x.input[|data|..], taken := p.x.taken + data));
    DeliveredIs(q.Turned(), x.input.Contents(), y.output.Contents(), x.readSuspended);
  }

  method UnsuspendReadAt(x: End, y: End, what: Reason)
    requires PairOk(x, y) && what != Watermark
    modifies x`readSuspended, y.output, x.input, y.output.cb, x.input.cb
    ensures PairOk(x, y) && StateOf(x, y) == AfterUnsuspendRead(old(StateOf(x, y)), what) && what !in x.readSuspended
  {
    hide EvBuffer.Valid;
    hide EvBuffer.Contents;
    hide WayOk;
    hide Delivered;
    hide Stays;
    ghost var p := StateOf(x, y);
    ResumeRead(y, x, what);
    assert what !in x.readSuspended - {Watermark};
    MarksOk(y, x);
    ghost var q := p.(x := p.x.(readSuspended := p.x.readSuspended - {what}));
    DeliveredIs(q.Turned(), x.input.Contents(), y.output.Contents(), x.readSuspended);
  }

  method UnsuspendWriteAt(x: End, y: End, what: Reason)
    requires PairOk(x, y)
    modifies x`writeSuspended, y`readSuspended, x.output, y.input, x.output.cb, y.input.cb
    ensures PairOk(x, y) && StateOf(x, y) == AfterUnsuspendWrite(old(StateOf(x, y)), what) && what !in x.writeSuspended
  {
    hide EvBuffer.Valid;
    hide EvBuffer.Contents;
    hide WayOk;
    hide Delivered;
    hide Stays;
    ghost var p := StateOf(x, y);
    UnsuspendWrite(x, y, what);
    MarksOk(x, y);
    ghost var q := p.(x := p.x.(writeSuspended := p.x.writeSuspended - {what}));
    DeliveredIs(q, y.input.Contents(), x.output.Contents(), y.readSuspended);
  }

  method SetWatermarkAt(x: End, y: End, high: nat)
    requires PairOk(x, y)
    modifies x`high, x`readSuspended, y.output, x.input, y.output.cb, x.input.cb
    ensures PairOk(x, y) && StateOf(x, y) == AfterSetWatermark(old(StateOf(x, y)), high) && x.high == high
  {
    hide EvBuffer.Valid;
    hide EvBuffer.Contents;
    hide WayOk;
    hide Delivered;
    hide Stays;
    ghost var p := StateOf(x, y);
    SetWatermark(y, x, high);
    MarksOk(y, x);
    ghost var q := p.(x := p.x.(high := high));
    DeliveredIs(q.Turned(), x.input.Contents(), y.output.Contents(), x.readSuspended);
  }

  method FlushAt(x: End, y: End, normal: bool)
    requires PairOk(x, y)
    modifies y`readSuspended, x.output, y.input, x.output.cb, y.input.cb
    ensures PairOk(x, y) && StateOf(x, y) == Flushed(old(StateOf(x, y)), normal)
    ensures |x.output.Contents()| == if x.partner == y && !normal
                                     then LeftOver(|old(y.input.Contents())|, |old(x.output.Contents())|, y.high, true)
                                     else |old(x.output.Contents())|
  {
    hide EvBuffer.Valid;
    hide EvBuffer.Contents;
    hide WayOk;
    hide Delivered;
    ghost var p := StateOf(x, y);
    MarksOk(x, y);
    NothingTaken(p);
    var res := Flush(x, y, normal);
    MarksOk(x, y);
    DeliveredIs(p, y.input.Contents(), x.output.Contents(), y.readSuspended);
  }

  /** `bufferevent_disable`. */
  method Disable(x: End, y: End, read: bool, write: bool)
    requires PairOk(x, y)
    modifies x`enabledRead, x`enabledWrite
    ensures PairOk(x, y)
    ensures x.enabledRead == (old(x.enabledRead) && !read) && x.enabledWrite == (old(x.enabledWrite) && !write)
  {
    hide WayOk;
    hide EvBuffer.Contents;
    x.enabledRead := x.enabledRead && !read;
    x.enabledWrite := x.enabledWrite && !write;
  }

  /** `bufferevent_suspend_write_`. */
  method SuspendWrite(x: End, y: End, what: Reason)
    requires PairOk(x, y)
    modifies x`writeSuspended
    ensures PairOk(x, y) && x.writeSuspended == old(x.writeSuspended) + {what}
  {
    hide WayOk;
    hide EvBuffer.Contents;
    x.writeSuspended := x.writeSuspended + {what};
  }

  /** `be_pair_unlink`. */
  method Unlink(x: End, y: End)
    requires PairOk(x, y)
    modifies x`partner, y`partner
    ensures PairOk(x, y) && x.partner == null && y.partner == null
  {
    hide WayOk;
    hide EvBuffer.Contents;
    if x.partner != null {
      y.partner := null;
      x.partner := null;
    }
  }

  /** Flushing ten bytes to a reader with a watermark of four, whose input is empty, leaves six of them in
      the output. */
  method FlushExample() returns (a: End, b: End, res: int)
    ensures PairOk(a, b) && res == 0
    ensures |b.input.Contents()| == 4 && |a.output.Contents()| == 6
  {
    hide WayOk;
    hide Settled;
    hide EvBuffer.Contents;
    hide EvBuffer.Valid;
    a, b := PairNew();
    ReadyToWrite(a, b);
    SetWatermark(a, b, 4);
    ReadyToWrite(a, b);
    var written := Write(a, b, seq(10, _ => 0));
    res := Flush(a, b, false);
  }

  lemma ReadyToWrite(w: End, r: End)
    requires WayOk(w, r)
    ensures w.written == r.taken + r.input.Contents() + w.output.Contents()
  {
  }

  // ---- runs

  /** A buffer fits the address space, and callers leave the watermark's reason alone. */
  predicate Allowed(x: End, y: End, op: Op)
    reads x, y, x.output, y.input
  {
    match op
    case OpWrite(data) => x.output.totalLen + y.input.totalLen + |data| <= SIZE_MAX
    case OpSuspendRead(what) => what != Watermark
    case OpUnsuspendRead(what) => what != Watermark
    case _ => true
  }

  lemma WaySizes(w: End, r: End)
    requires WayOk(w, r)
    ensures |w.output.Contents()| == w.output.totalLen && |r.input.Contents()| == r.input.totalLen
  {
  }

  /** Calls that hand nothing over. */
  method DoSwitch(x: End, y: End, op: Op)
    requires PairOk(x, y) && Allowed(x, y, op)
    requires op.OpDisable? || op.OpSuspendRead? || op.OpSuspendWrite? || op.OpUnlink?
    modifies x`enabledRead, x`enabledWrite, x`readSuspended, x`writeSuspended, x`partner, y`partner
    ensures PairOk(x, y) && StateOf(x, y) == Next(old(StateOf(x, y)), op)
    ensures op.OpUnlink? ==> x.partner == null && y.partner == null
  {
    hide EvBuffer.Valid;
    hide EvBuffer.Contents;
    hide WayOk;
    match op
    case OpDisable(read, write) => Disable(x, y, read, write);
    case OpSuspendRead(what) => SuspendRead(y, x, what);
    case OpSuspendWrite(what) => SuspendWrite(x, y, what);
    case OpUnlink => Unlink(x, y);
  }

  /** `bufferevent_flush`, for what comes in and what goes out. */
  method FlushBoth(x: End, y: End, read: bool, write: bool, normal: bool)
    requires PairOk(x, y)
    modifies x`readSuspended, y`readSuspended, x.input, x.output, y.input, y.output
    modifies x.input.cb, x.output.cb, y.input.cb, y.output.cb
    ensures PairOk(x, y) && StateOf(x, y) == Next(old(StateOf(x, y)), OpFlush(read, write, normal))
    ensures var goes := x.partner == y && !normal;
      && |y.output.Contents()| == (if read && goes then LeftOver(|old(x.input.Contents())|, |old(y.output.Contents())|, x.high, true)
                                   else |old(y.output.Contents())|)
      && |x.output.Contents()| == if write && goes then LeftOver(|old(y.input.Contents())|, |old(x.output.Contents())|, y.high, true)
                                  else |old(x.output.Contents())|
  {
    hide PairOk;
    hide Flushed;
    hide EvBuffer.Contents;
    Mirrored(x, y);
    BothLinked(x, y);
    if read {
      FlushAt(y, x, normal);
      Mirrored(y, x);
      BothLinked(x, y);
    }
    if write {
      FlushAt(x, y, normal);
    }
  }

  lemma BothLinked(x: End, y: End)
    requires PairOk(x, y)
    ensures x != y && (x.partner == y <==> y.partner == x) && Separate(x, y)
  {
  }

  /** One call at the end `x`, whose partner is or was `y`. */
  method Do(x: End, y: End, op: Op) returns (data: seq<byte>)
    requires PairOk(x, y) && Allowed(x, y, op)
    modifies x, y, x.input, x.output, y.input, y.output
    modifies x.input.cb, x.output.cb, y.input.cb, y.output.cb
    ensures PairOk(x, y) && StateOf(x, y) == Next(old(StateOf(x, y)), op)
    ensures x.written == if op.OpWrite? then old(x.written) + op.data else old(x.written)
    ensures y.written == old(y.written)
    ensures x.enabledRead == (if op.OpEnable? then old(x.enabledRead) || op.read
                              else if op.OpDisable? then old(x.enabledRead) && !op.read else old(x.enabledRead))
    ensures x.enabledWrite == (if op.OpEnable? then old(x.enabledWrite) || op.write
                               else if op.OpDisable? then old(x.enabledWrite) && !op.write else old(x.enabledWrite))
    ensures x.high == (if op.OpSetWatermark? then op.high else old(x.high)) && y.high == old(y.high)
    ensures op.OpSuspendRead? ==> op.what in x.readSuspended
    ensures op.OpUnsuspendRead? ==> op.what !in x.readSuspended
    ensures op.OpSuspendWrite? ==> op.what in x.writeSuspended
    ensures op.OpUnsuspendWrite? ==> op.what !in x.writeSuspended
    ensures op.OpUnlink? ==> x.partner == null && y.partner == null
    ensures data == if op.OpRead? then old(x.input.Contents())[..Least(op.n, |old(x.input.Contents())|)] else []
  {
    hide PairOk;
    hide EvBuffer.Contents;
    hide AfterWrite;
    hide AfterRead;
    hide AfterEnable;
    hide AfterUnsuspendRead;
    hide AfterUnsuspendWrite;
    hide AfterSetWatermark;
    BothLinked(x, y);
    data := [];
    match op
    case OpWrite(d) => WriteAt(x, y, d);
    case OpRead(n) => data := ReadAt(x, y, n);
    case OpEnable(read, write) => Enable(x, y, read, write);
    case OpUnsuspendRead(what) => UnsuspendReadAt(x, y, what);
    case OpUnsuspendWrite(what) => UnsuspendWriteAt(x, y, what);
    case OpSetWatermark(high) => SetWatermarkAt(x, y, high);
    case OpFlush(read, write, normal) => FlushBoth(x, y, read, write, normal);
    case _ => DoSwitch(x, y, op);
  }

  /** A call at one end or at the other. */
  datatype Call = Call(first: bool, op: Op)

  /** What has been written at one end, call by call. */
  function WrittenBy(calls: seq<Call>, first: bool): seq<byte> {
    if calls == [] then []
    else
      var c := calls[|calls| - 1];
      WrittenBy(calls[..|calls| - 1], first) + if c.first == first && c.op.OpWrite? then c.op.data else []
  }

  /** A new pair. */
  function NewPair(): PairState {
    var e := Side([], [], [], false, true, {}, {}, 0);
    PairState(e, e, true)
  }

  /** A pair after these calls, seen from the first end. */
  function PairAfter(calls: seq<Call>): PairState {
    if calls == [] then NewPair()
    else
      var c, p := calls[|calls| - 1], PairAfter(calls[..|calls| - 1]);
      if c.first then Next(p, c.op) else Next(p.Turned(), c.op).Turned()
  }

  /** What a run does is what its calls do, one after the other. */
  lemma PairAfterMore(calls: seq<Call>, c: Call)
    ensures PairAfter(calls + [c]) ==
            if c.first then Next(PairAfter(calls), c.op) else Next(PairAfter(calls).Turned(), c.op).Turned()
  {
    assert (calls + [c])[..|calls|] == calls;
  }

  /** Whatever is done at both ends, in any order, the pair does what the calls say: what was written at one end
      is what was read at the other, then what is in its input, then what is still in the output; and when the
      writer may write and the reader may read, nothing is left in the output. */
  method Run(calls: seq<Call>) returns (a: End, b: End, n: nat)
    ensures n <= |calls| && PairOk(a, b) && StateOf(a, b) == PairAfter(calls[..n])
    ensures n < |calls| ==>
      !Allowed(if calls[n].first then a else b, if calls[n].first then b else a, calls[n].op)
    ensures WrittenBy(calls[..n], true) == b.taken + b.input.Contents() + a.output.Contents()
    ensures WrittenBy(calls[..n], false) == a.taken + a.input.Contents() + b.output.Contents()
  {
    hide PairOk;
    hide Next;
    hide EvBuffer.Contents;
    a, b := PairNew();
    n := 0;
    NewIs(a, b);
    while n < |calls| && Allowed(if calls[n].first then a else b, if calls[n].first then b else a, calls[n].op)
      invariant n <= |calls| && PairOk(a, b) && StateOf(a, b) == PairAfter(calls[..n])
      invariant fresh(a) && fresh(b) && fresh(a.input) && fresh(a.output) && fresh(b.input) && fresh(b.output)
      invariant fresh(a.input.cb) && fresh(a.output.cb) && fresh(b.input.cb) && fresh(b.output.cb)
      invariant a.written == WrittenBy(calls[..n], true) && b.written == WrittenBy(calls[..n], false)
    {
      var c := calls[n];
      assert calls[..n + 1][..n] == calls[..n];
      Mirrored(a, b);
      BothLinked(a, b);
      if c.first {
        var data := Do(a, b, c.op);
      } else {
        var data := Do(b, a, c.op);
        Mirrored(b, a);
        BothLinked(a, b);
      }
      n := n + 1;
    }
    Kept(a, b);
  }

  lemma NewIs(a: End, b: End)
    requires PairOk(a, b) && a.partner == b && a.written == [] && b.written == [] && a.taken == [] && b.taken == []
    requires !a.enabledRead && a.enabledWrite && !b.enabledRead && b.enabledWrite
    requires a.readSuspended == {} && b.readSuspended == {} && a.writeSuspended == {} && b.writeSuspended == {}
    requires a.high == 0 && b.high == 0
    ensures StateOf(a, b) == NewPair()
  {
    Kept(a, b);
  }

  lemma Mirrored(a: End, b: End)
    requires PairOk(a, b)
    ensures PairOk(b, a)
  {
  }

  lemma Kept(a: End, b: End)
    requires PairOk(a, b)
    ensures a.written == b.taken + b.input.Contents() + a.output.Contents()
    ensures b.written == a.taken + a.input.Contents() + b.output.Contents()
  {
  }
}
