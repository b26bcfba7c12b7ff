/** `bufferevent_pair.c` and `bufferevent.c`: handing bytes over, and everything that makes it happen. */
module PairFlow {
  import opened Chains
  import opened EvBuffers
  import opened EvBufferBasic
  import opened BufferPair

  /** `be_pair_wants_to_talk`. */
  predicate WantsToTalk(w: End, r: End)
    reads w`enabledWrite, r`enabledRead, r`readSuspended, w.output
  {
    w.enabledWrite && r.enabledRead && r.readSuspended == {} && w.output.totalLen > 0
  }

  /** Each end has the other one as its partner, or none has a partner any more. */
  predicate Partners(w: End, r: End)
    reads w`partner, r`partner
  {
    (r.partner == w && w.partner == r) || (r.partner == null && w.partner == null)
  }

  /** Nothing is left for a partner who can read, or nothing can be handed over. */
  ghost predicate Quiet(w: End, r: End)
    reads r`partner, w`enabledWrite, r`enabledRead, r`readSuspended, w.output
  {
    r.partner == w && w.enabledWrite && r.enabledRead && r.readSuspended == {} ==> w.output.Contents() == []
  }

  ghost predicate StaysFrozen(frozen: bool, w: End, r: End)
    reads w.output, r.input
  {
    frozen ==> Frozen(w, r)
  }

  /** How many of `out` bytes stay in the output when they are offered to an input of `inp` bytes with this
      watermark.  Ignoring the watermark makes a difference only when it has been reached already. */
  function LeftOver(inp: nat, out: nat, high: nat, ignoreWatermark: bool): (k: nat)
    ensures k <= out
  {
    if high == 0 then 0
    else if inp >= high then (if ignoreWatermark then 0 else out)
    else if out <= high - inp then 0 else out - (high - inp)
  }

  /** `r` takes what `w` has, if reading is suspended for these reasons. */
  predicate Takes(w: End, r: End, suspended: set<Reason>)
    reads r`partner, w`enabledWrite, r`enabledRead
  {
    r.partner == w && w.enabledWrite && r.enabledRead && suspended == {}
  }

  /** How many bytes stay in an output whose reader takes them or not. */
  function Stays(takes: bool, inp: nat, out: nat, high: nat): (k: nat)
    ensures k <= out
  {
    if takes then LeftOver(inp, out, high, false) else out
  }

  /** `be_pair_transfer`. */
  method Transfer(w: End, r: End, ignoreWatermark: bool)
    requires Buffers(w, r) && Conserved(w, r) && WatermarkOk(r) && Partners(w, r) && r.partner == w
    modifies r`readSuspended, w.output, r.input, w.output.cb, r.input.cb
    ensures WayOk(w, r) && HandedOver(w, r) && (!ignoreWatermark ==> Bounded(r))
    ensures |w.output.Contents()| ==
              LeftOver(|old(r.input.Contents())|, |old(w.output.Contents())|, r.high, ignoreWatermark)
    ensures w.output.Contents() == [] || Watermark in r.readSuspended
    decreases |w.output.Contents()|, 0
  {
    hide EvBuffer.Valid;
    hide EvBuffer.Contents;
    Sizes(r.input);
    Sizes(w.output);
    var dstSize := r.input.totalLen;
    if r.high == 0 || dstSize < r.high || ignoreWatermark {
      var limited := r.high > 0 && dstSize < r.high;
      var moved := MoveBytes(w, r, !limited, if limited then r.high - dstSize else 0);
      if moved > 0 && r.high > 0 {
        InputChanged(w, r);
      }
    }
    SetFreeze(w.output, true, true);
    SetFreeze(r.input, false, true);
  }

  /** `bufferevent_inbuf_wm_cb`: the callback on an input with a watermark. */
  method InputChanged(w: End, r: End)
    requires Buffers(w, r) && Conserved(w, r) && r.high > 0 && Partners(w, r)
    modifies r`readSuspended, w.output, r.input, w.output.cb, r.input.cb
    ensures Buffers(w, r) && Conserved(w, r) && WatermarkOk(r) && HandedOver(w, r) && Bounded(r)
    ensures StaysFrozen(old(Frozen(w, r)), w, r)
    ensures |old(r.input.Contents())| < r.high ==> Quiet(w, r)
    ensures |w.output.Contents()| ==
              Stays(|old(r.input.Contents())| < r.high && old(Takes(w, r, r.readSuspended - {Watermark})),
                    |old(r.input.Contents())|, |old(w.output.Contents())|, r.high)
    decreases |w.output.Contents()|, 3
  {
    hide EvBuffer.Valid;
    hide EvBuffer.Contents;
    Sizes(r.input);
    if r.input.totalLen >= r.high {
      r.readSuspended := r.readSuspended + {Watermark};
    } else {
      UnsuspendRead(w, r, Watermark);
    }
  }

  /** `bufferevent_unsuspend_read_`. */
  method UnsuspendRead(w: End, r: End, what: Reason)
    requires Buffers(w, r) && Conserved(w, r) && Partners(w, r)
    requires if what == Watermark then r.high == 0 || |r.input.Contents()| < r.high else WatermarkOk(r)
    modifies r`readSuspended, w.output, r.input, w.output.cb, r.input.cb
    ensures Buffers(w, r) && Conserved(w, r) && WatermarkOk(r) && Bounded(r)
    ensures r.input.Contents() + w.output.Contents() == old(r.input.Contents() + w.output.Contents())
    ensures |r.input.Contents()| >= |old(r.input.Contents())|
    ensures r.readSuspended - {Watermark} == old(r.readSuspended) - {what} - {Watermark}
    ensures StaysFrozen(old(Frozen(w, r)), w, r)
    ensures Quiet(w, r)
    ensures |w.output.Contents()| == Stays(old(Takes(w, r, r.readSuspended - {what})), |old(r.input.Contents())|,
                                           |old(w.output.Contents())|, r.high)
    decreases |w.output.Contents()|, 2
  {
    hide EvBuffer.Valid;
    hide EvBuffer.Contents;
    r.readSuspended := r.readSuspended - {what};
    if r.readSuspended == {} && r.enabledRead {
      HandOver(w, r);
    }
  }

  /** The tests of `be_pair_enable`, for an end that starts to read and for one that starts to write. */
  method HandOver(w: End, r: End)
    requires Buffers(w, r) && Conserved(w, r) && WatermarkOk(r) && Partners(w, r)
    modifies r`readSuspended, w.output, r.input, w.output.cb, r.input.cb
    ensures Buffers(w, r) && Conserved(w, r) && WatermarkOk(r) && HandedOver(w, r) && Bounded(r)
    ensures StaysFrozen(old(Frozen(w, r)), w, r)
    ensures Quiet(w, r)
    ensures |w.output.Contents()| == Stays(old(Takes(w, r, r.readSuspended)), |old(r.input.Contents())|,
                                           |old(w.output.Contents())|, r.high)
    decreases |w.output.Contents()|, 1
  {
    hide EvBuffer.Valid;
    hide EvBuffer.Contents;
    Sizes(w.output);
    if r.partner != null && WantsToTalk(w, r) {
      Transfer(w, r, false);
    }
  }

  /** Hands over what can be handed over in one direction. */
  method Offer(w: End, r: End)
    requires WayOk(w, r) && Partners(w, r)
    modifies r`readSuspended, w.output, r.input, w.output.cb, r.input.cb
    ensures WayOk(w, r) && Settled(w, r) && HandedOver(w, r) && Bounded(r)
    ensures |w.output.Contents()| == Stays(old(Takes(w, r, r.readSuspended)), |old(r.input.Contents())|,
                                           |old(w.output.Contents())|, r.high)
  {
    HandOver(w, r);
  }

  // ---- what callers do; one direction

  /** `bufferevent_write`, and `be_pair_outbuf_cb` after it. */
  method Write(w: End, r: End, data: seq<byte>) returns (res: int)
    requires WayOk(w, r) && Settled(w, r) && Partners(w, r)
    requires |w.output.Contents()| + |r.input.Contents()| + |data| <= SIZE_MAX
    modifies r`readSuspended, w`written, w.output, r.input, w.output.cb, r.input.cb
    ensures WayOk(w, r) && Settled(w, r) && Bounded(r)
    ensures res == 0 && w.written == old(w.written) + data
    ensures r.input.Contents() + w.output.Contents() == old(r.input.Contents() + w.output.Contents()) + data
    ensures |w.output.Contents()| ==
              Stays(data != [] && old(Takes(w, r, r.readSuspended)), |old(r.input.Contents())|,
                    |old(w.output.Contents())| + |data|, r.high)
    ensures r.readSuspended - {Watermark} == old(r.readSuspended) - {Watermark}
  {
    hide EvBuffer.Valid;
    hide EvBuffer.Contents;
    Sizes(w.output);
    res := Add(w.output, data);
    w.written := w.written + data;
    assert r.taken + r.input.Contents() + old(w.output.Contents()) + data ==
           r.taken + r.input.Contents() + (old(w.output.Contents()) + data);
    Sizes(w.output);
    if |data| > 0 && w.partner != null && WantsToTalk(w, r) {
      Transfer(w, r, false);
    }
  }

  /** `bufferevent_read`, and the callback on the input after it. */
  method Read(w: End, r: End, n: nat) returns (data: seq<byte>)
    requires WayOk(w, r) && Settled(w, r) && Partners(w, r)
    modifies r`readSuspended, r`taken, w.output, r.input, w.output.cb, r.input.cb
    ensures WayOk(w, r) && Settled(w, r)
    ensures data == old(r.input.Contents())[..Least(n, |old(r.input.Contents())|)]
    ensures r.taken == old(r.taken) + data
    ensures r.input.Contents() + w.output.Contents() == old(r.input.Contents())[|data|..] + old(w.output.Contents())
    ensures var left := |old(r.input.Contents())| - |data|;
      |w.output.Contents()| == Stays(data != [] && left < r.high && old(Takes(w, r, r.readSuspended - {Watermark})),
                                     left, |old(w.output.Contents())|, r.high)
    ensures r.high > 0 && |r.input.Contents()| > r.high ==> |r.input.Contents()| <= |old(r.input.Contents())|
    ensures r.readSuspended - {Watermark} == old(r.readSuspended) - {Watermark}
  {
    hide EvBuffer.Valid;
    hide EvBuffer.Contents;
    Sizes(r.input);
    ghost var inp := r.input.Contents();
    var k;
    k, data := Remove(r.input, n);
    r.taken := r.taken + data;
    TakenOff(old(r.taken), inp, k, w.output.Contents());
    if k > 0 && r.high > 0 {
      InputChanged(w, r);
    }
  }

  lemma TakenOff(taken: seq<byte>, inp: seq<byte>, k: nat, out: seq<byte>)
    requires k <= |inp|
    ensures taken + inp[..k] + inp[k..] + out == taken + inp + out
    ensures k == 0 ==> inp[k..] == inp
  {
    assert inp == inp[..k] + inp[k..];
  }

  /** `bufferevent_suspend_read_`, for other reasons than the watermark. */
  method SuspendRead(w: End, r: End, what: Reason)
    requires WayOk(w, r) && Settled(w, r) && what != Watermark
    modifies r`readSuspended
    ensures WayOk(w, r) && Settled(w, r) && r.readSuspended == old(r.readSuspended) + {what}
  {
    r.readSuspended := r.readSuspended + {what};
  }

  /** `bufferevent_unsuspend_read_`, for other reasons than the watermark. */
  method ResumeRead(w: End, r: End, what: Reason)
    requires WayOk(w, r) && Partners(w, r) && what != Watermark
    modifies r`readSuspended, w.output, r.input, w.output.cb, r.input.cb
    ensures WayOk(w, r) && Settled(w, r) && Bounded(r)
    ensures r.input.Contents() + w.output.Contents() == old(r.input.Contents() + w.output.Contents())
    ensures |w.output.Contents()| == Stays(old(Takes(w, r, r.readSuspended - {what})), |old(r.input.Contents())|,
                                           |old(w.output.Contents())|, r.high)
    ensures r.readSuspended - {Watermark} == old(r.readSuspended) - {what} - {Watermark}
  {
    hide EvBuffer.Valid;
    hide EvBuffer.Contents;
    UnsuspendRead(w, r, what);
  }

  /** `bufferevent_unsuspend_write_`: `be_pair_enable` looks whether the partner wants to read. */
  method UnsuspendWrite(w: End, r: End, what: Reason)
    requires WayOk(w, r) && Settled(w, r) && Partners(w, r)
    modifies w`writeSuspended, r`readSuspended, w.output, r.input, w.output.cb, r.input.cb
    ensures WayOk(w, r) && Settled(w, r) && HandedOver(w, r) && Bounded(r)
    ensures w.writeSuspended == old(w.writeSuspended) - {what}
    ensures |w.output.Contents()| ==
              Stays(w.writeSuspended == {} && old(Takes(w, r, r.readSuspended)), |old(r.input.Contents())|,
                    |old(w.output.Contents())|, r.high)
  {
    w.writeSuspended := w.writeSuspended - {what};
    if w.writeSuspended == {} && w.enabledWrite {
      HandOver(w, r);
    }
  }

  /** `bufferevent_setwatermark`, for reading. */
  method SetWatermark(w: End, r: End, high: nat)
    requires WayOk(w, r) && Settled(w, r) && Partners(w, r)
    modifies r`high, r`readSuspended, w.output, r.input, w.output.cb, r.input.cb
    ensures WayOk(w, r) && Settled(w, r) && Bounded(r) && r.high == high
    ensures r.input.Contents() + w.output.Contents() == old(r.input.Contents() + w.output.Contents())
    ensures r.readSuspended - {Watermark} == old(r.readSuspended) - {Watermark}
    ensures |w.output.Contents()| ==
              Stays((high == 0 || |old(r.input.Contents())| < high) && old(Takes(w, r, r.readSuspended - {Watermark})),
                    |old(r.input.Contents())|, |old(w.output.Contents())|, high)
  {
    hide EvBuffer.Valid;
    hide EvBuffer.Contents;
    Sizes(r.input);
    r.high := high;
    if high > 0 && r.input.totalLen >= high {
      r.readSuspended := r.readSuspended + {Watermark};
    } else {
      UnsuspendRead(w, r, Watermark);
    }
  }

  /** `be_pair_flush` for what `w` has written: the watermark is ignored when it has been reached, and
      kept when it has not.  So the output is emptied exactly when there is no watermark, or it has been
      reached, or all of the output fits below it. */
  method Flush(w: End, r: End, normal: bool) returns (res: int)
    requires WayOk(w, r) && Settled(w, r) && Partners(w, r)
    modifies r`readSuspended, w.output, r.input, w.output.cb, r.input.cb
    ensures WayOk(w, r) && Settled(w, r) && HandedOver(w, r)
    ensures res == if w.partner == null then -1 else 0
    ensures res != 0 || normal ==> w.output.Contents() == old(w.output.Contents())
    ensures res == 0 && !normal ==>
              |w.output.Contents()| == LeftOver(|old(r.input.Contents())|, |old(w.output.Contents())|, r.high, true)
    ensures res == 0 && !normal ==>
              (w.output.Contents() == [] <==>
                 r.high == 0 || |old(r.input.Contents())| >= r.high ||
                 |old(w.output.Contents())| <= r.high - |old(r.input.Contents())|)
  {
    if w.partner == null {
      return -1;
    }
    if normal {
      return 0;
    }
    Transfer(w, r, true);
    res := 0;
  }
}
