/** `bufferevent_pair.c` and `bufferevent.c`: two bufferevents that read what the other one writes, and
    stop reading above a high watermark. */
module BufferPair {
  import opened Chains
  import opened EvBuffers
  import opened EvBufferBasic
  import opened EvBufferMove

  /** Why reading or writing is suspended: the bits of `bufferevent_suspend_flags`. */
  datatype Reason = Watermark | Bandwidth | BandwidthGroup | Lookup

  /** `struct bufferevent_pair`: one end of the pair. */
  class End {
    const input: EvBuffer
    const output: EvBuffer
    var enabledRead: bool
    var enabledWrite: bool
    var readSuspended: set<Reason>
    var writeSuspended: set<Reason>
    /** `wm_read.high`; 0 for none.  The callback that watches it is enabled when it is not 0. */
    var high: nat
    var partner: End?
    /** Everything that has been written to the output, and everything that has been read from the input. */
    ghost var written: seq<byte>
    ghost var taken: seq<byte>

    constructor ()
      ensures fresh(input) && fresh(output) && fresh(input.cb) && fresh(output.cb)
      ensures input != output && input.cb != output.cb && input.Valid() && output.Valid()
      ensures input.Contents() == [] && output.Contents() == [] && written == [] && taken == []
      ensures partner == null && high == 0 && readSuspended == {} && writeSuspended == {}
      ensures !enabledRead && enabledWrite
      ensures input.freezeEnd && !input.freezeStart && output.freezeStart && !output.freezeEnd
    {
      input := new EvBuffer();
      output := new EvBuffer();
      enabledRead, enabledWrite := false, true;
      readSuspended, writeSuspended, high, partner := {}, {}, 0, null;
      written, taken := [], [];
      new;
      input.freezeEnd := true;
      output.freezeStart := true;
    }
  }

  /** The output of `w` and the input of `r`. */
  ghost predicate Buffers(w: End, r: End)
    reads w.output, r.input, w.output.cb, r.input.cb
  {
    && w.output.Valid() && r.input.Valid() && w.output != r.input && w.output.cb != r.input.cb
    && !w.output.freezeEnd && !r.input.freezeStart
    && |w.output.Contents()| + |r.input.Contents()| <= SIZE_MAX
  }

  ghost predicate Frozen(w: End, r: End)
    reads w.output, r.input
  {
    w.output.freezeStart && r.input.freezeEnd
  }

  /** What was written is what was taken, then the input, then the output. */
  ghost predicate Conserved(w: End, r: End)
    reads w`written, r`taken, w.output, r.input
  {
    w.written == r.taken + r.input.Contents() + w.output.Contents()
  }

  /** Reading is suspended for the watermark exactly when the input has reached it. */
  ghost predicate WatermarkOk(r: End)
    reads r`readSuspended, r`high, r.input
  {
    Watermark in r.readSuspended <==> r.high > 0 && |r.input.Contents()| >= r.high
  }

  /** One direction of a pair. */
  ghost predicate WayOk(w: End, r: End)
    reads w`written, r`taken, r`readSuspended, r`high, w.output, r.input, w.output.cb, r.input.cb
  {
    Buffers(w, r) && Frozen(w, r) && Conserved(w, r) && WatermarkOk(r)
  }

  /** Nothing is left to hand over. */
  ghost predicate Settled(w: End, r: End)
    reads w`partner, w`enabledWrite, w`writeSuspended, r`enabledRead, r`readSuspended, w.output
  {
    w.partner == r && w.enabledWrite && w.writeSuspended == {} && r.enabledRead && r.readSuspended == {} ==>
      w.output.Contents() == []
  }

  /** Bytes have gone from the output of `w` to the input of `r`, and nothing else has changed but what
      reading is suspended for. */
  twostate predicate HandedOver(w: End, r: End)
    reads w, r, w.output, r.input
  {
    && r.input.Contents() + w.output.Contents() == old(r.input.Contents() + w.output.Contents())
    && |r.input.Contents()| >= |old(r.input.Contents())|
    && r.readSuspended - {Watermark} == old(r.readSuspended) - {Watermark}
  }

  /** No more than the watermark allows has been added. */
  twostate predicate Bounded(r: End)
    reads r, r.input
  {
    r.high > 0 && |r.input.Contents()| > r.high ==> |r.input.Contents()| == |old(r.input.Contents())|
  }

  /** `evbuffer_freeze` and `evbuffer_unfreeze`, at the start or at the end. */
  method SetFreeze(b: EvBuffer, atFront: bool, frozen: bool)
    requires b.Valid()
    modifies b`freezeStart, b`freezeEnd
    ensures b.Valid() && b.Contents() == old(b.Contents())
    ensures b.freezeStart == (if atFront then frozen else old(b.freezeStart))
    ensures b.freezeEnd == (if atFront then old(b.freezeEnd) else frozen)
  {
    if atFront {
      b.freezeStart := frozen;
    } else {
      b.freezeEnd := frozen;
    }
  }

  lemma Sizes(b: EvBuffer)
    requires b.Valid()
    ensures |b.Contents()| == b.totalLen
  {
  }

  /** `evbuffer_add_buffer` between two buffers that are not frozen. */
  method AppendAll(dst: EvBuffer, src: EvBuffer)
    requires src.Valid() && dst.Valid() && src != dst && src.cb != dst.cb && !dst.freezeEnd && !src.freezeStart
    modifies src, dst, src.cb, dst.cb
    ensures src.Valid() && dst.Valid()
    ensures dst.Contents() == old(dst.Contents()) + old(src.Contents()) && src.Contents() == []
    ensures src.freezeStart == old(src.freezeStart) && src.freezeEnd == old(src.freezeEnd)
    ensures dst.freezeStart == old(dst.freezeStart) && dst.freezeEnd == old(dst.freezeEnd)
  {
    hide Flat;
    Sizes(src);
    var res := AddBuffer(dst, src);
  }

  /** `evbuffer_remove_buffer` between two buffers that are not frozen. */
  method AppendSome(dst: EvBuffer, src: EvBuffer, n: nat)
    requires src.Valid() && dst.Valid() && src != dst && src.cb != dst.cb && !dst.freezeEnd && !src.freezeStart
    requires |src.Contents()| + |dst.Contents()| <= SIZE_MAX
    modifies src, dst, src.cb, dst.cb
    ensures src.Valid() && dst.Valid()
    ensures var k := Least(n, |old(src.Contents())|);
      && dst.Contents() == old(dst.Contents()) + old(src.Contents())[..k]
      && src.Contents() == old(src.Contents())[k..]
    ensures src.freezeStart == old(src.freezeStart) && src.freezeEnd == old(src.freezeEnd)
    ensures dst.freezeStart == old(dst.freezeStart) && dst.freezeEnd == old(dst.freezeEnd)
  {
    hide Flat;
    Sizes(src);
    Sizes(dst);
    ghost var s := src.Contents();
    var res := RemoveBuffer(src, dst, n);
    assert s[0..] == s && s[..0] == [];
  }

  function Least(a: nat, c: nat): nat {
    if a < c then a else c
  }

  /** The moves of `be_pair_transfer`: `n` bytes, or as many as there are. */
  method MoveBytes(w: End, r: End, all: bool, n: nat) returns (moved: nat)
    requires Buffers(w, r) && Conserved(w, r)
    modifies w.output, r.input, w.output.cb, r.input.cb
    ensures Buffers(w, r) && Conserved(w, r)
    ensures moved == Least(if all then |old(w.output.Contents())| else n, |old(w.output.Contents())|)
    ensures r.input.Contents() == old(r.input.Contents()) + old(w.output.Contents())[..moved]
    ensures w.output.Contents() == old(w.output.Contents())[moved..]
    ensures !w.output.freezeStart && !r.input.freezeEnd
  {
    hide EvBuffer.Valid;
    hide EvBuffer.Contents;
    Sizes(w.output);
    Sizes(r.input);
    ghost var out, inp := w.output.Contents(), r.input.Contents();
    SetFreeze(w.output, true, false);
    SetFreeze(r.input, false, false);
    moved := w.output.totalLen;
    if all {
      AppendAll(r.input, w.output);
    } else {
      moved := Least(n, moved);
      AppendSome(r.input, w.output, n);
    }
    Cut(inp, out, moved, w.written, r.taken);
  }

  lemma Cut(inp: seq<byte>, out: seq<byte>, n: nat, written: seq<byte>, taken: seq<byte>)
    requires n <= |out| && written == taken + inp + out
    ensures inp + out[..n] + out[n..] == inp + out && written == taken + (inp + out[..n]) + out[n..]
    ensures out[..|out|] == out && out[|out|..] == [] && out[..0] == [] && out[0..] == out
  {
  }
}
