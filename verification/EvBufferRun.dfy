/** Whole runs of buffer operations on two buffers, against two byte sequences. */
module EvBufferRun {
  import opened Basics
  import opened Chains
  import opened CallbackCounters
  import opened EvBuffers
  import opened EvBufferBasic
  import opened EvBufferLines
  import opened EvBufferMove
  import opened EvBufferPullup
  import opened EvBufferSpace

  datatype Op =
    | AddOp(data: seq<byte>)
    | AddReferenceOp(data: seq<byte>)
    | PrependOp(data: seq<byte>)
    | DrainOp(n: nat)
    | RemoveOp(n: nat)
    | ReadlnOp(style: EolStyle)
    | PullupOp(size: int)
    | ExpandOp(n: nat)
    | ExpandFastOp(n: nat, chains: nat)
    | ReadIntoOp(data: seq<byte>, regions: nat)
    | AddCbOp

  /** Moves from the other buffer into this one. */
  datatype Move = AddBufferOp | PrependBufferOp | RemoveBufferOp(n: nat)

  /** A buffer as a value: its bytes, and how many there were when a callback was put on its list, if one was. */
  datatype Bytes = Bytes(s: seq<byte>, base: Option<nat>)

  ghost function BytesOf(buf: EvBuffer): Bytes
    reads buf, buf.cb
  {
    Bytes(buf.Contents(), if buf.cb.registered then Some(buf.cb.base) else None)
  }

  /** What is left when the first line has been taken off with its terminator. */
  ghost function AfterLine(s: seq<byte>, style: EolStyle): seq<byte> {
    if n: nat, m: nat :| n + m <= |s| && IsEol(s, style, 0, n, m) then s[n + m..] else s
  }

  lemma AfterLineIs(s: seq<byte>, style: EolStyle, n: nat, m: nat)
    requires n + m <= |s| && IsEol(s, style, 0, n, m)
    ensures AfterLine(s, style) == s[n + m..]
  {
    forall p: nat, q: nat | p + q <= |s| && IsEol(s, style, 0, p, q)
      ensures p == n && q == m
    {
      EolUnique(s, style, 0, n, m, p, q);
    }
  }

  lemma NoLineLeft(s: seq<byte>, style: EolStyle)
    requires NoEol(s, style, 0)
    ensures AfterLine(s, style) == s
  {
    forall p: nat, q: nat | p + q <= |s| && IsEol(s, style, 0, p, q)
      ensures false
    {
      EolUnique(s, style, 0, p, q, p, q);
    }
  }

  /** What an operation does to the bytes, whatever the chains. */
  ghost function Step(b: Bytes, op: Op): Bytes {
    match op
    case AddOp(d) => if |b.s| + |d| <= SIZE_MAX then b.(s := b.s + d) else b
    case AddReferenceOp(d) => b.(s := b.s + d)
    case PrependOp(d) => if |b.s| + |d| <= SIZE_MAX then b.(s := d + b.s) else b
    case DrainOp(n) => b.(s := if n >= |b.s| then [] else b.s[n..])
    case RemoveOp(n) => b.(s := if n >= |b.s| then [] else b.s[n..])
    case ReadlnOp(style) => b.(s := AfterLine(b.s, style))
    case PullupOp(_) => b
    case ExpandOp(_) => b
    case ExpandFastOp(_, _) => b
    case ReadIntoOp(d, _) => b.(s := b.s + d)
    case AddCbOp => if b.base.Some? then b else b.(base := Some(|b.s|))
  }

  /** What a move does to the bytes of both buffers: first the one that gets them. */
  function MoveStep(to: Bytes, from: Bytes, move: Move): (Bytes, Bytes) {
    match move
    case AddBufferOp => (to.(s := to.s + from.s), from.(s := []))
    case PrependBufferOp => (to.(s := from.s + to.s), from.(s := []))
    case RemoveBufferOp(n) =>
      var k := if n >= |from.s| then |from.s| else n;
      (to.(s := to.s + from.s[..k]), from.(s := from.s[k..]))
  }

  /** A call on the first buffer or on the second. */
  datatype Call = OnOne(first: bool, op: Op) | Between(first: bool, move: Move)

  ghost function Next(p: (Bytes, Bytes), c: Call): (Bytes, Bytes) {
    match c
    case OnOne(first, op) => if first then (Step(p.0, op), p.1) else (p.0, Step(p.1, op))
    case Between(first, move) =>
      if first then MoveStep(p.0, p.1, move)
      else var (to, from) := MoveStep(p.1, p.0, move); (from, to)
  }

  ghost function Steps(p: (Bytes, Bytes), calls: seq<Call>): (Bytes, Bytes)
    decreases |calls|
  {
    if calls == [] then p else Next(Steps(p, calls[..|calls| - 1]), calls[|calls| - 1])
  }

  /** Buffers are in memory: their lengths are sizes, alone and together. */
  predicate Allowed(a: EvBuffer, b: EvBuffer, c: Call)
    reads a, b
  {
    match c
    case OnOne(first, op) => op.ReadlnOp? ==> (if first then a else b).totalLen + 2 <= SSIZE_MAX
    case Between(_, _) => a.totalLen + b.totalLen <= SIZE_MAX
  }

  /** A buffer that anything can be done to, and that has told its callbacks everything. */
  ghost predicate Ready(buf: EvBuffer)
    reads buf, buf.cb
  {
    buf.Valid() && !buf.freezeStart && !buf.freezeEnd && buf.cb.Settled() && !buf.cb.deferred
  }

  /** There is room for `n` bytes in one chain, or in the first of several that have any. */
  ghost predicate HasSpace(buf: EvBuffer, n: nat, chains: nat)
    reads buf
  {
    if chains == 1 then exists i | 0 <= i < |buf.chains| :: buf.chains[i].SpaceLen() >= n
    else buf.Structure() && Space(buf.chains, FirstWithSpace(buf), chains) >= n
  }

  /** Room for `n` bytes in one chain or in several. */
  method Expand(buf: EvBuffer, n: nat, chains: nat)
    requires buf.Valid() && chains >= 1
    modifies buf`chains, buf`last, buf`lastWithDatap, buf`totalLen
    ensures buf.Valid() && buf.Contents() == old(buf.Contents()) && HasSpace(buf, n, chains)
  {
    hide Flat;
    if chains == 1 {
      var i := ExpandSinglechain(buf, n);
      assert buf.chains[i].SpaceLen() >= n;
    } else {
      ExpandFast(buf, n, chains);
    }
  }

  /** `evbuffer_add_cb`: the first callback on the list. */
  method AddCb(buf: EvBuffer)
    requires Ready(buf)
    modifies buf.cb
    ensures Ready(buf) && BytesOf(buf) == Step(old(BytesOf(buf)), AddCbOp)
  {
    hide Flat;
    if !buf.cb.registered {
      buf.cb.Register(buf.totalLen);
    }
  }

  method TakeLine(buf: EvBuffer, style: EolStyle)
    requires Ready(buf) && buf.totalLen + 2 <= SSIZE_MAX
    modifies buf, buf.cb
    ensures Ready(buf) && BytesOf(buf) == Step(old(BytesOf(buf)), ReadlnOp(style))
  {
    hide Flat;
    hide IsEol;
    hide NoEol;
    hide AfterLine;
    ghost var s := buf.Contents();
    var line, n := Readln(buf, style);
    if line.NoLine? {
      NoLineLeft(s, style);
    } else {
      ghost var m: nat :| n + m <= |s| && IsEol(s, style, 0, n, m) && buf.Contents() == s[n + m..];
      AfterLineIs(s, style, n, m);
    }
  }

  lemma LengthIs(buf: EvBuffer)
    requires buf.Valid()
    ensures |buf.Contents()| == buf.totalLen
  {
  }

  /** One operation on a buffer. */
  method Do(buf: EvBuffer, op: Op)
    requires Ready(buf) && (op.ReadlnOp? ==> buf.totalLen + 2 <= SSIZE_MAX)
    modifies buf, buf.cb
    ensures Ready(buf) && BytesOf(buf) == Step(old(BytesOf(buf)), op)
    ensures op.AddOp? && |old(buf.Contents())| + |op.data| <= SIZE_MAX ==> buf.Contents() == old(buf.Contents()) + op.data
    ensures op.PrependOp? && |old(buf.Contents())| + |op.data| <= SIZE_MAX ==> buf.Contents() == op.data + old(buf.Contents())
    ensures op.AddReferenceOp? || op.ReadIntoOp? ==> buf.Contents() == old(buf.Contents()) + op.data
    ensures op.DrainOp? || op.RemoveOp? ==>
      buf.Contents() == if op.n >= |old(buf.Contents())| then [] else old(buf.Contents())[op.n..]
    ensures op.AddCbOp? ==> buf.cb.registered
    ensures op.ExpandOp? ==> HasSpace(buf, op.n, 1)
    ensures op.ExpandFastOp? ==> HasSpace(buf, op.n, if op.chains < 2 then 2 else op.chains)
    ensures op.PullupOp? && 0 < op.size <= buf.totalLen ==> buf.chains != [] && buf.chains[0].off >= op.size
  {
    hide EvBuffer.Valid;
    hide EvBuffer.Structure;
    hide Flat;
    hide Telescopes;
    hide Small;
    hide AfterLine;
    LengthIs(buf);
    match op {
      case AddOp(d) => var _ := Add(buf, d);
      case AddReferenceOp(d) => var _ := AddReference(buf, d);
      case PrependOp(d) => var _ := Prepend(buf, d);
      case DrainOp(n) => var _ := Drain(buf, n);
      case RemoveOp(n) => var _, _ := Remove(buf, n);
      case ReadlnOp(style) => TakeLine(buf, style);
      case PullupOp(size) => var _ := Pullup(buf, size);
      case ExpandOp(n) => Expand(buf, n, 1);
      case ExpandFastOp(n, k) => Expand(buf, n, if k < 2 then 2 else k);
      case ReadIntoOp(d, k) =>
        if d != [] {
          var _ := ReadInto(buf, d, if k < 2 then 2 else k);
        }
      case AddCbOp => AddCb(buf);
    }
  }

  /** One move between two buffers. */
  method DoMove(to: EvBuffer, from: EvBuffer, move: Move)
    requires Ready(to) && Ready(from) && to != from && Apart(to, from) && to.totalLen + from.totalLen <= SIZE_MAX
    modifies to, from, to.cb, from.cb
    ensures Ready(to) && Ready(from)
    ensures (BytesOf(to), BytesOf(from)) == MoveStep(old(BytesOf(to)), old(BytesOf(from)), move)
    ensures !move.RemoveBufferOp? ==> from.Contents() == []
    ensures move.AddBufferOp? ==> to.Contents() == old(to.Contents()) + old(from.Contents())
    ensures move.PrependBufferOp? ==> to.Contents() == old(from.Contents()) + old(to.Contents())
    ensures move.RemoveBufferOp? ==>
      && to.Contents() + from.Contents() == old(to.Contents()) + old(from.Contents())
      && |from.Contents()| == if move.n >= |old(from.Contents())| then 0 else |old(from.Contents())| - move.n
  {
    hide EvBuffer.Valid;
    hide EvBuffer.Structure;
    hide Flat;
    hide Telescopes;
    LengthIs(to);
    LengthIs(from);
    match move {
      case AddBufferOp => var _ := AddBuffer(to, from);
      case PrependBufferOp => var _ := PrependBuffer(to, from);
      case RemoveBufferOp(n) => MoveSome(to, from, n);
    }
  }

  /** The first `n` bytes go from one buffer to the other, or all. */
  method MoveSome(to: EvBuffer, from: EvBuffer, n: nat)
    requires Ready(to) && Ready(from) && to != from && Apart(to, from) && to.totalLen + from.totalLen <= SIZE_MAX
    modifies to, from, to.cb, from.cb
    ensures Ready(to) && Ready(from)
    ensures (BytesOf(to), BytesOf(from)) == MoveStep(old(BytesOf(to)), old(BytesOf(from)), RemoveBufferOp(n))
  {
    hide EvBuffer.Valid;
    hide EvBuffer.Structure;
    hide Flat;
    hide Telescopes;
    LengthIs(to);
    LengthIs(from);
    ghost var s, t := from.Contents(), to.Contents();
    NothingMoved(s, t);
    var _ := RemoveBuffer(from, to, n);
  }

  /** What a run does is what its calls do, one after the other. */
  lemma StepsMore(p: (Bytes, Bytes), calls: seq<Call>, c: Call)
    ensures Steps(p, calls + [c]) == Next(Steps(p, calls), c)
  {
    assert (calls + [c])[..|calls|] == calls;
  }

  lemma NothingMoved(s: seq<byte>, t: seq<byte>)
    ensures s[..0] == [] && s[0..] == s && t + [] == t
  {
  }

  method DoCall(a: EvBuffer, b: EvBuffer, c: Call)
    requires Ready(a) && Ready(b) && a != b && Apart(a, b) && Allowed(a, b, c)
    modifies a, b, a.cb, b.cb
    ensures Ready(a) && Ready(b)
    ensures (BytesOf(a), BytesOf(b)) == Next(old((BytesOf(a), BytesOf(b))), c)
  {
    hide EvBuffer.Valid;
    hide EvBuffer.Contents;
    hide Step;
    hide MoveStep;
    match c
    case OnOne(first, op) =>
      if first {
        Do(a, op);
      } else {
        Do(b, op);
      }
    case Between(first, move) =>
      if first {
        DoMove(a, b, move);
      } else {
        DoMove(b, a, move);
      }
  }

  /** Every run keeps the invariant of both buffers and does to them what the same run does to two byte sequences;
      a callback that adds up its reports knows the length of its buffer at the end. */
  method Run(a: EvBuffer, b: EvBuffer, calls: seq<Call>) returns (n: nat)
    requires Ready(a) && Ready(b) && a != b && Apart(a, b)
    modifies a, b, a.cb, b.cb
    ensures Ready(a) && Ready(b) && n <= |calls| && (n < |calls| ==> !Allowed(a, b, calls[n]))
    ensures (BytesOf(a), BytesOf(b)) == Steps(old((BytesOf(a), BytesOf(b))), calls[..n])
    ensures KnowsLength(a) && KnowsLength(b)
  {
    hide Next;
    hide Ready;
    hide BytesOf;
    n := 0;
    while n < |calls| && Allowed(a, b, calls[n])
      invariant n <= |calls| && Ready(a) && Ready(b)
      invariant (BytesOf(a), BytesOf(b)) == Steps(old((BytesOf(a), BytesOf(b))), calls[..n])
    {
      DoCall(a, b, calls[n]);
      assert calls[..n + 1][..n] == calls[..n];
      n := n + 1;
    }
    LengthKnown(a);
    LengthKnown(b);
  }

  /** The reports, added up, lead from the length when the callback was added to the length now. */
  ghost predicate KnowsLength(buf: EvBuffer)
    reads buf, buf.cb
  {
    buf.cb.registered ==> buf.cb.base + NetChange(buf.cb.reports) == |buf.Contents()|
  }

  lemma LengthKnown(buf: EvBuffer)
    requires Ready(buf)
    ensures KnowsLength(buf)
  {
    if buf.cb.registered {
      ReportsAddUp(buf.cb.reports, buf.cb.base, buf.cb.sizeAtClear);
    }
  }
}
