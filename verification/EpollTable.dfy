/** `epolltable-internal.h`: which kernel operation makes a coalesced change. */
module EpollTable {

  /** Sets of the interests read, write and closed. */
  datatype Kinds = Kinds(read: bool, write: bool, closed: bool)

  const O := Kinds(false, false, false)
  const R := Kinds(true, false, false)
  const W := Kinds(false, true, false)
  const C := Kinds(false, false, true)
  const RW := Kinds(true, true, false)
  const RC := Kinds(true, false, true)
  const WC := Kinds(false, true, true)
  const RWC := Kinds(true, true, true)

  /** One change byte: the bits `EV_CHANGE_ADD` and `EV_CHANGE_DEL`. */
  datatype Flags = Flags(add: bool, del: bool)
  {
    function Bits(): nat {
      (if add then 1 else 0) + (if del then 2 else 0)
    }

    /** Whether the interest is wanted after the change, given whether it was there before. */
    function After(before: bool): bool {
      if add then true else if del then false else before
    }
  }

  const NO_CHANGE := Flags(false, false)
  const ADD := Flags(true, false)
  const DEL := Flags(false, true)

  /** `struct event_change`. */
  datatype Change = Change(fd: int, had: Kinds, read: Flags, write: Flags, close: Flags)
  {
    /** No interest is both added and deleted. */
    predicate Sensible() {
      !(read.add && read.del) && !(write.add && write.del) && !(close.add && close.del)
    }

    /** Only interests that were there are deleted. */
    predicate DeletesOld() {
      && (read.del ==> had.read) && (write.del ==> had.write) && (close.del ==> had.closed)
    }

    /** The interests that the change asks for. */
    function Effect(): Kinds {
      Kinds(read.After(had.read), write.After(had.write), close.After(had.closed))
    }
  }

  /** `struct operation`: the operation and the events passed along. */
  datatype Operation = Nothing | Bad | Add(events: Kinds) | Mod(events: Kinds) | Del(events: Kinds)
  {
    /** The interest set of a descriptor whose set was `before`, once the kernel has done this. */
    function Result(before: Kinds): Kinds {
      match this
      case Nothing => before
      case Bad => before
      case Add(e) => e
      case Mod(e) => e
      case Del(_) => O
    }

    /** The kernel adds only new descriptors, and modifies or deletes only known ones. */
    predicate Accepted(before: Kinds) {
      match this
      case Nothing => true
      case Bad => false
      case Add(_) => before == O
      case Mod(_) => before != O
      case Del(_) => before != O
    }
  }

  const ALL_BAD: seq<Operation> :=
    [Bad, Bad, Bad, Bad, Bad, Bad, Bad, Bad, Bad, Bad, Bad, Bad, Bad, Bad, Bad, Bad]

  /** The rows for old events none: one line for each write change, then read, then close. */
  function Rows0(write: nat): seq<Operation>
    requires write < 4
  {
    match write
    case 0 => [Nothing, Add(C), Del(C), Bad,
               Add(R), Add(RC), Add(R), Bad,
               Del(R), Add(C), Del(RC), Bad,
               Bad, Bad, Bad, Bad]
    case 1 => [Add(W), Add(WC), Add(W), Bad,
               Add(RW), Add(RWC), Add(RW), Bad,
               Add(W), Add(WC), Add(W), Bad,
               Bad, Bad, Bad, Bad]
    case 2 => [Del(W), Add(C), Del(WC), Bad,
               Add(R), Add(RC), Add(R), Bad,
               Del(RW), Add(C), Del(RWC), Bad,
               Bad, Bad, Bad, Bad]
    case _ => ALL_BAD
  }

  /** The rows for old events r: one line for each write change, then read, then close. */
  function Rows1(write: nat): seq<Operation>
    requires write < 4
  {
    match write
    case 0 => [Nothing, Mod(RC), Mod(R), Bad,
               Mod(R), Mod(RC), Mod(R), Bad,
               Del(R), Mod(C), Del(RC), Bad,
               Bad, Bad, Bad, Bad]
    case 1 => [Mod(RW), Mod(RWC), Mod(RW), Bad,
               Mod(RW), Mod(RWC), Mod(RW), Bad,
               Mod(W), Mod(WC), Mod(W), Bad,
               Bad, Bad, Bad, Bad]
    case 2 => [Mod(R), Mod(RC), Mod(R), Bad,
               Mod(R), Mod(RC), Mod(R), Bad,
               Del(RW), Mod(C), Del(RWC), Bad,
               Bad, Bad, Bad, Bad]
    case _ => ALL_BAD
  }

  /** The rows for old events w: one line for each write change, then read, then close. */
  function Rows2(write: nat): seq<Operation>
    requires write < 4
  {
    match write
    case 0 => [Nothing, Mod(WC), Mod(W), Bad,
               Mod(RW), Mod(RWC), Mod(RW), Bad,
               Mod(W), Mod(WC), Mod(W), Bad,
               Bad, Bad, Bad, Bad]
    case 1 => [Mod(W), Mod(WC), Mod(W), Bad,
               Mod(RW), Mod(RWC), Mod(RW), Bad,
               Mod(W), Mod(WC), Mod(W), Bad,
               Bad, Bad, Bad, Bad]
    case 2 => [Del(W), Mod(C), Del(WC), Bad,
               Mod(R), Mod(RC), Mod(R), Bad,
               Del(RW), Mod(C), Del(RWC), Bad,
               Bad, Bad, Bad, Bad]
    case _ => ALL_BAD
  }

  /** The rows for old events rw: one line for each write change, then read, then close. */
  function Rows3(write: nat): seq<Operation>
    requires write < 4
  {
    match write
    case 0 => [Nothing, Mod(RWC), Mod(RW), Bad,
               Mod(RW), Mod(RWC), Mod(RW), Bad,
               Mod(W), Mod(WC), Mod(W), Bad,
               Bad, Bad, Bad, Bad]
    case 1 => [Mod(RW), Mod(RWC), Mod(RW), Bad,
               Mod(RW), Mod(RWC), Mod(RW), Bad,
               Mod(W), Mod(WC), Mod(W), Bad,
               Bad, Bad, Bad, Bad]
    case 2 => [Mod(R), Mod(RC), Mod(R), Bad,
               Mod(R), Mod(RC), Mod(R), Bad,
               Del(RW), Mod(C), Del(RWC), Bad,
               Bad, Bad, Bad, Bad]
    case _ => ALL_BAD
  }

  /** The rows for old events c: one line for each write change, then read, then close. */
  function Rows4(write: nat): seq<Operation>
    requires write < 4
  {
    match write
    case 0 => [Nothing, Mod(C), Del(C), Bad,
               Mod(RC), Mod(RC), Mod(R), Bad,
               Mod(C), Mod(C), Del(RC), Bad,
               Bad, Bad, Bad, Bad]
    case 1 => [Mod(WC), Mod(WC), Mod(W), Bad,
               Mod(RWC), Mod(RWC), Mod(RW), Bad,
               Mod(WC), Mod(WC), Mod(W), Bad,
               Bad, Bad, Bad, Bad]
    case 2 => [Mod(C), Mod(C), Del(WC), Bad,
               Mod(RC), Mod(RC), Mod(R), Bad,
               Mod(C), Mod(C), Del(RWC), Bad,
               Bad, Bad, Bad, Bad]
    case _ => ALL_BAD
  }

  /** The rows for old events cr: one line for each write change, then read, then close. */
  function Rows5(write: nat): seq<Operation>
    requires write < 4
  {
    match write
    case 0 => [Nothing, Mod(RC), Mod(R), Bad,
               Mod(RC), Mod(RC), Mod(R), Bad,
               Mod(C), Mod(C), Del(RC), Bad,
               Bad, Bad, Bad, Bad]
    case 1 => [Mod(RWC), Mod(RWC), Mod(RW), Bad,
               Mod(RWC), Mod(RWC), Mod(RW), Bad,
               Mod(WC), Mod(WC), Mod(W), Bad,
               Bad, Bad, Bad, Bad]
    case 2 => [Mod(RC), Mod(RC), Mod(R), Bad,
               Mod(RC), Mod(RC), Mod(R), Bad,
               Mod(C), Mod(C), Del(RWC), Bad,
               Bad, Bad, Bad, Bad]
    case _ => ALL_BAD
  }

  /** The rows for old events cw: one line for each write change, then read, then close. */
  function Rows6(write: nat): seq<Operation>
    requires write < 4
  {
    match write
    case 0 => [Nothing, Mod(WC), Mod(W), Bad,
               Mod(RWC), Mod(RWC), Mod(RW), Bad,
               Mod(WC), Mod(WC), Mod(W), Bad,
               Bad, Bad, Bad, Bad]
    case 1 => [Mod(WC), Mod(WC), Mod(W), Bad,
               Mod(RWC), Mod(RWC), Mod(RW), Bad,
               Mod(WC), Mod(WC), Mod(W), Bad,
               Bad, Bad, Bad, Bad]
    case 2 => [Mod(C), Mod(C), Del(WC), Bad,
               Mod(RC), Mod(RC), Mod(R), Bad,
               Mod(C), Mod(C), Del(RWC), Bad,
               Bad, Bad, Bad, Bad]
    case _ => ALL_BAD
  }

  /** The rows for old events crw: one line for each write change, then read, then close. */
  function Rows7(write: nat): seq<Operation>
    requires write < 4
  {
    match write
    case 0 => [Nothing, Mod(RWC), Mod(RW), Bad,
               Mod(RWC), Mod(RWC), Mod(RW), Bad,
               Mod(WC), Mod(WC), Mod(W), Bad,
               Bad, Bad, Bad, Bad]
    case 1 => [Mod(RWC), Mod(RWC), Mod(RW), Bad,
               Mod(RWC), Mod(RWC), Mod(RW), Bad,
               Mod(WC), Mod(WC), Mod(W), Bad,
               Bad, Bad, Bad, Bad]
    case 2 => [Mod(RC), Mod(RC), Mod(R), Bad,
               Mod(RC), Mod(RC), Mod(R), Bad,
               Mod(C), Mod(C), Del(RWC), Bad,
               Bad, Bad, Bad, Bad]
    case _ => ALL_BAD
  }
  /** `EPOLL_OP_TABLE_INDEX`. */
  function TableIndex(c: Change): (i: nat)
    ensures i < 512
  {
    c.close.Bits() + 4 * c.read.Bits() + 16 * c.write.Bits()
    + (if c.had.read then 64 else 0) + (if c.had.write then 128 else 0) + (if c.had.closed then 256 else 0)
  }

  /** The row of 16 entries that share their old events and write change. */
  function TableRow(o: nat, write: nat): seq<Operation>
    requires o < 8 && write < 4
  {
    match o
    case 0 => Rows0(write)
    case 1 => Rows1(write)
    case 2 => Rows2(write)
    case 3 => Rows3(write)
    case 4 => Rows4(write)
    case 5 => Rows5(write)
    case 6 => Rows6(write)
    case _ => Rows7(write)
  }

  lemma RowLength(o: nat, write: nat)
    requires o < 8 && write < 4
    ensures |TableRow(o, write)| == 16
  {
  }

  /** `epoll_op_table[index]`. */
  function TableEntry(index: nat): Operation
    requires index < 512
  {
    RowLength(index / 64, index % 64 / 16);
    TableRow(index / 64, index % 64 / 16)[index % 16]
  }

  /** What the table promises about the entry for a change. */
  ghost predicate EntryOk(c: Change, op: Operation) {
    && (op.Bad? <==> !c.Sensible())
    && (c.Sensible() ==> op.Result(c.had) == c.Effect())
    && (c.Sensible() && c.DeletesOld() ==> op.Accepted(c.had))
  }

  lemma Rows0Ok(c: Change)
    requires c.had == O
    ensures EntryOk(c, TableRow(0, c.write.Bits())[c.close.Bits() + 4 * c.read.Bits()])
  {
    RowLength(0, c.write.Bits());
    match c.read.Bits() { case 0 => case 1 => case 2 => case _ => }
  }

  lemma Rows1Ok(c: Change)
    requires c.had == R
    ensures EntryOk(c, TableRow(1, c.write.Bits())[c.close.Bits() + 4 * c.read.Bits()])
  {
    RowLength(1, c.write.Bits());
    match c.read.Bits() { case 0 => case 1 => case 2 => case _ => }
  }

  lemma Rows2Ok(c: Change)
    requires c.had == W
    ensures EntryOk(c, TableRow(2, c.write.Bits())[c.close.Bits() + 4 * c.read.Bits()])
  {
    RowLength(2, c.write.Bits());
    match c.read.Bits() { case 0 => case 1 => case 2 => case _ => }
  }

  lemma Rows3Ok(c: Change)
    requires c.had == RW
    ensures EntryOk(c, TableRow(3, c.write.Bits())[c.close.Bits() + 4 * c.read.Bits()])
  {
    RowLength(3, c.write.Bits());
    match c.read.Bits() { case 0 => case 1 => case 2 => case _ => }
  }

  lemma Rows4Ok(c: Change)
    requires c.had == C
    ensures EntryOk(c, TableRow(4, c.write.Bits())[c.close.Bits() + 4 * c.read.Bits()])
  {
    RowLength(4, c.write.Bits());
    match c.read.Bits() { case 0 => case 1 => case 2 => case _ => }
  }

  lemma Rows5Ok(c: Change)
    requires c.had == RC
    ensures EntryOk(c, TableRow(5, c.write.Bits())[c.close.Bits() + 4 * c.read.Bits()])
  {
    RowLength(5, c.write.Bits());
    match c.read.Bits() { case 0 => case 1 => case 2 => case _ => }
  }

  lemma Rows6Ok(c: Change)
    requires c.had == WC
    ensures EntryOk(c, TableRow(6, c.write.Bits())[c.close.Bits() + 4 * c.read.Bits()])
  {
    RowLength(6, c.write.Bits());
    match c.read.Bits() { case 0 => case 1 => case 2 => case _ => }
  }

  lemma Rows7Ok(c: Change)
    requires c.had == RWC
    ensures EntryOk(c, TableRow(7, c.write.Bits())[c.close.Bits() + 4 * c.read.Bits()])
  {
    RowLength(7, c.write.Bits());
    match c.read.Bits() { case 0 => case 1 => case 2 => case _ => }
  }

  /** The number of the old events: bits 6, 7 and 8 of the index. */
  function OldBits(had: Kinds): (o: nat)
    ensures o < 8
  {
    (if had.read then 1 else 0) + (if had.write then 2 else 0) + (if had.closed then 4 else 0)
  }

  lemma IndexParts(c: Change)
    ensures TableIndex(c) / 64 == OldBits(c.had)
    ensures TableIndex(c) % 64 / 16 == c.write.Bits()
    ensures TableIndex(c) % 16 == c.close.Bits() + 4 * c.read.Bits()
  {
    var b, w, o := c.close.Bits() + 4 * c.read.Bits(), c.write.Bits(), OldBits(c.had);
    assert TableIndex(c) == (b + 16 * w) + 64 * o;
    assert TableIndex(c) == b + 16 * (w + 4 * o);
  }

  lemma RowsOk(c: Change)
    ensures |TableRow(OldBits(c.had), c.write.Bits())| == 16
    ensures EntryOk(c, TableRow(OldBits(c.had), c.write.Bits())[c.close.Bits() + 4 * c.read.Bits()])
  {
    hide TableRow;
    hide EntryOk;
    RowLength(OldBits(c.had), c.write.Bits());
    match c.had {
      case Kinds(false, false, false) => Rows0Ok(c);
      case Kinds(true, false, false) => Rows1Ok(c);
      case Kinds(false, true, false) => Rows2Ok(c);
      case Kinds(true, true, false) => Rows3Ok(c);
      case Kinds(false, false, true) => Rows4Ok(c);
      case Kinds(true, false, true) => Rows5Ok(c);
      case Kinds(false, true, true) => Rows6Ok(c);
      case Kinds(true, true, true) => Rows7Ok(c);
    }
  }

  /** The table does what its comment says: an entry turns the old interests into the ones asked
      for, and it is an impossible one exactly when some interest is both added and deleted. */
  lemma TableMeaning(c: Change)
    ensures EntryOk(c, TableEntry(TableIndex(c)))
  {
    hide TableRow;
    hide EntryOk;
    hide TableIndex;
    IndexParts(c);
    RowsOk(c);
  }
}
