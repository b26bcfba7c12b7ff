/** `bufferevent_ratelim.c`: a bufferevent with a rate limit of its own. */
module RateOwn {
  import opened Basics
  import opened TokenBucket
  import F = RateFlow
  import G = RateGroup

  /** The parts of `struct bufferevent_private` and its `struct bufferevent_rate_limit` that matter here. */
  class Limited {
    const cfg: Cfg
    var limit: Bucket
    /** `max_single_read` and `max_single_write`. */
    const maxRead: nat
    const maxWrite: nat
    /** `BEV_SUSPEND_BW` in `read_suspended` and in `write_suspended`. */
    var readHeld: bool
    var writeHeld: bool
    /** `refill_bucket_event` has been added. */
    var pending: bool
    /** Everything that has been read and written. */
    ghost var readTotal: nat
    ghost var writeTotal: nat

    function MaxSingle(d: Dir): nat {
      if d.Read? then maxRead else maxWrite
    }

    function Held(d: Dir): bool
      reads this
    {
      if d.Read? then readHeld else writeHeld
    }

    /** Whoever has nothing left is held up, and whoever is held up will be looked at again. */
    ghost predicate Valid()
      reads this
    {
      && cfg.Ok() && limit.Ok(cfg)
      && (limit.readLimit <= 0 ==> readHeld) && (limit.writeLimit <= 0 ==> writeHeld)
      && (readHeld || writeHeld ==> pending)
    }

    /** `bufferevent_set_rate_limit`, for a bufferevent without one. */
    constructor (cfg: Cfg, tick: nat, maxRead: nat, maxWrite: nat)
      requires cfg.Ok() && tick < TWO_32
      ensures Valid() && this.cfg == cfg && PurseOf(this) == Full(cfg, tick)
    {
      this.cfg, this.maxRead, this.maxWrite := cfg, maxRead, maxWrite;
      limit := Bucket(cfg.readRate, cfg.writeRate, tick);
      readHeld, writeHeld, pending, readTotal, writeTotal := false, false, false, 0, 0;
    }
  }

  /** A limited bufferevent as a value. */
  datatype Purse = Purse(bucket: Bucket, readHeld: bool, writeHeld: bool, pending: bool, readTotal: nat, writeTotal: nat)
  {
    function Held(d: Dir): bool {
      if d.Read? then readHeld else writeHeld
    }

    function Total(d: Dir): nat {
      if d.Read? then readTotal else writeTotal
    }

    function Hold(d: Dir, held: bool): Purse {
      if d.Read? then this.(readHeld := held) else this.(writeHeld := held)
    }

    function Count(d: Dir, bytes: nat): Purse {
      if d.Read? then this.(readTotal := readTotal + bytes) else this.(writeTotal := writeTotal + bytes)
    }
  }

  ghost function PurseOf(b: Limited): Purse
    reads b
  {
    Purse(b.limit, b.readHeld, b.writeHeld, b.pending, b.readTotal, b.writeTotal)
  }

  function Full(cfg: Cfg, tick: nat): Purse {
    Purse(Bucket(cfg.readRate, cfg.writeRate, tick), false, false, false, 0, 0)
  }

  /** What may be used at a tick: nothing while held up, and else what the updated bucket holds, whatever may be
      read or written at once. */
  function Allowed(p: Purse, d: Dir, cfg: Cfg, tick: nat): int {
    if p.Held(d) then 0 else F.Max(Updated(p.bucket, cfg, tick).Limit(d), 0)
  }

  /** The purse after `bytes` have been used at a tick: who has nothing left is held up until the next refill, and
      the refill is called off when nobody waits for it any more. */
  function Used(p: Purse, d: Dir, bytes: nat, cfg: Cfg, tick: nat): Purse {
    var q := p.(bucket := Updated(p.bucket, cfg, tick));
    if bytes == 0 then q
    else
      var r := q.(bucket := q.bucket.Spend(d, bytes)).Count(d, bytes);
      if r.bucket.Limit(d) <= 0 then r.Hold(d, true).(pending := true) else r
  }

  /** The purse after the refill of a tick: held up are those who were and still have nothing. */
  function Refilled(p: Purse, cfg: Cfg, tick: nat): Purse {
    var b := Updated(p.bucket, cfg, tick);
    var readHeld, writeHeld := p.readHeld && b.readLimit <= 0, p.writeHeld && b.writeLimit <= 0;
    p.(bucket := b, readHeld := readHeld, writeHeld := writeHeld, pending := readHeld || writeHeld)
  }

  /** `bufferevent_update_buckets` and the rest of `bufferevent_get_rlim_max_`, without a group. */
  method GetMax(b: Limited, d: Dir, tick: nat) returns (m: int)
    requires b.Valid() && tick < TWO_32
    modifies b`limit
    ensures b.Valid() && b.limit == Updated(old(b.limit), b.cfg, tick) && m == F.Max(b.limit.Limit(d), 0)
  {
    F.UpdatedNoLess(b.limit, b.cfg, tick, Read);
    F.UpdatedNoLess(b.limit, b.cfg, tick, Write);
    if tick != b.limit.lastUpdated {
      var r;
      b.limit, r := Update(b.limit, b.cfg, tick);
    }
    m := F.RlimMax(b.MaxSingle(d), true, Some(b.limit.Limit(d)), None);
  }

  method SetHeld(b: Limited, d: Dir, held: bool)
    modifies b`readHeld, b`writeHeld
    ensures b.Held(d) == held && (if d.Read? then b.writeHeld == old(b.writeHeld) else b.readHeld == old(b.readHeld))
  {
    if d.Read? {
      b.readHeld := held;
    } else {
      b.writeHeld := held;
    }
  }

  /** The part of `bufferevent_decrement_read_buckets_` and `bufferevent_decrement_write_buckets_` that is about
      the bufferevent's own bucket. */
  method Decrement(b: Limited, d: Dir, bytes: nat)
    requires b.Valid() && b.limit.Limit(d) - bytes >= SSIZE_MIN
    modifies b`limit, b`readHeld, b`writeHeld, b`pending
    ensures b.Valid() && b.limit == old(b.limit).Spend(d, bytes)
    ensures b.Held(d) == (b.limit.Limit(d) <= 0)
    ensures if d.Read? then b.writeHeld == old(b.writeHeld) else b.readHeld == old(b.readHeld)
    ensures b.pending == if b.Held(d) then true else if old(b.Held(d)) then b.Held(G.Other(d)) else old(b.pending)
  {
    b.limit := b.limit.Spend(d, bytes);
    if b.limit.Limit(d) <= 0 {
      SetHeld(b, d, true);
      b.pending := true;
    } else if b.Held(d) {
      if !b.Held(G.Other(d)) {
        b.pending := false;
      }
      SetHeld(b, d, false);
    }
  }

  /** Up to `wish` bytes are used at a tick, and no more than is allowed. */
  method Transfer(b: Limited, d: Dir, tick: nat, wish: nat) returns (bytes: nat)
    requires b.Valid() && tick < TWO_32
    modifies b
    ensures b.Valid() && bytes == Min(wish, Allowed(old(PurseOf(b)), d, b.cfg, tick))
    ensures PurseOf(b) == Used(old(PurseOf(b)), d, bytes, b.cfg, tick)
    ensures bytes <= wish && (old(b.Held(d)) ==> bytes == 0)
    ensures !old(b.Held(d)) ==> bytes == wish || b.limit.Limit(d) <= 0
    ensures forall e :: b.limit.Limit(e) == Updated(old(b.limit), b.cfg, tick).Limit(e) - if e == d then bytes else 0
    ensures bytes > 0 ==> b.limit.Limit(d) >= 0 && (b.Held(d) <==> b.limit.Limit(d) == 0)
    ensures bytes == 0 ==> b.Held(d) == old(b.Held(d)) && b.pending == old(b.pending)
    ensures b.Held(G.Other(d)) == old(b.Held(G.Other(d))) && (b.Held(d) ==> b.pending)
    ensures if d.Read? then b.readTotal == old(b.readTotal) + bytes && b.writeTotal == old(b.writeTotal)
            else b.writeTotal == old(b.writeTotal) + bytes && b.readTotal == old(b.readTotal)
  {
    hide Updated;
    var m := GetMax(b, d, tick);
    bytes := if b.Held(d) then 0 else if wish <= m then wish else m;
    if bytes > 0 {
      Decrement(b, d, bytes);
      if d.Read? {
        b.readTotal := b.readTotal + bytes;
      } else {
        b.writeTotal := b.writeTotal + bytes;
      }
    }
  }

  /** `bev_refill_callback_`: the event that was added has fired, and is added again if it is needed. */
  method RefillCallback(b: Limited, tick: nat)
    requires b.Valid() && tick < TWO_32
    modifies b`limit, b`readHeld, b`writeHeld, b`pending
    ensures b.Valid() && PurseOf(b) == Refilled(old(PurseOf(b)), b.cfg, tick)
    ensures b.limit == Updated(old(b.limit), b.cfg, tick)
    ensures forall d :: b.Held(d) <==> old(b.Held(d)) && b.limit.Limit(d) <= 0
    ensures b.pending <==> exists d :: b.Held(d)
  {
    F.UpdatedNoLess(b.limit, b.cfg, tick, Read);
    F.UpdatedNoLess(b.limit, b.cfg, tick, Write);
    hide Updated;
    var again, r := false, 0;
    b.pending := false;
    b.limit, r := Update(b.limit, b.cfg, tick);
    if b.readHeld {
      if b.limit.readLimit > 0 {
        b.readHeld := false;
      } else {
        again := true;
      }
    }
    if b.writeHeld {
      if b.limit.writeLimit > 0 {
        b.writeHeld := false;
      } else {
        again := true;
      }
    }
    if again {
      b.pending := true;
    }
  }

  // ---- runs

  datatype Op = OpTransfer(d: Dir, tick: nat, wish: nat) | OpRefill(tick: nat)

  function Next(p: Purse, op: Op, cfg: Cfg): Purse {
    match op
    case OpTransfer(d, tick, wish) => Used(p, d, Min(wish, Allowed(p, d, cfg, tick)), cfg, tick)
    case OpRefill(tick) => Refilled(p, cfg, tick)
  }

  function After(p: Purse, ops: seq<Op>, cfg: Cfg): Purse
    decreases |ops|
  {
    if ops == [] then p else After(Next(p, ops[0], cfg), ops[1..], cfg)
  }

  /** The ticks that go by, beginning when the bucket was last updated. */
  function TicksOf(last: nat, ops: seq<Op>): nat
    decreases |ops|
  {
    if ops == [] then 0
    else
      var n := F.Elapsed(last, ops[0].tick);
      n + TicksOf(if n > 0 then ops[0].tick else last, ops[1..])
  }

  /** What a run is for the bucket of one direction: time goes by, and bytes are spent. */
  function StepsOf(p: Purse, ops: seq<Op>, d: Dir, cfg: Cfg): seq<Step>
    decreases |ops|
  {
    if ops == [] then []
    else
      var bytes := Next(p, ops[0], cfg).Total(d) - p.Total(d);
      [Ticks(F.Elapsed(p.bucket.lastUpdated, ops[0].tick)), Spent(if bytes > 0 then bytes else 0)] +
      StepsOf(Next(p, ops[0], cfg), ops[1..], d, cfg)
  }

  lemma NextPart(p: Purse, op: Op, d: Dir, cfg: Cfg)
    requires Updated(p.bucket, cfg, op.tick).Limit(d) >= 0
    ensures var q, u := Next(p, op, cfg), Updated(p.bucket, cfg, op.tick);
      && 0 <= q.Total(d) - p.Total(d) <= u.Limit(d)
      && q.bucket.Limit(d) == u.Limit(d) - (q.Total(d) - p.Total(d)) && q.bucket.lastUpdated == u.lastUpdated
  {
    hide Updated;
  }

  /** One operation, for one direction: at most what the updated bucket holds is spent. */
  lemma NextStep(p: Purse, op: Op, d: Dir, cfg: Cfg)
    requires 0 <= p.bucket.Limit(d) <= cfg.Maximum(d)
    ensures var q, n := Next(p, op, cfg), F.Elapsed(p.bucket.lastUpdated, op.tick);
      && 0 <= q.Total(d) - p.Total(d) <= Min(cfg.Maximum(d), p.bucket.Limit(d) + n * cfg.Rate(d))
      && q.bucket.Limit(d) == Min(cfg.Maximum(d), p.bucket.Limit(d) + n * cfg.Rate(d)) - (q.Total(d) - p.Total(d))
      && q.bucket.lastUpdated == if n > 0 then op.tick else p.bucket.lastUpdated
  {
    UpdatedIs(p.bucket, cfg, op.tick, d);
    NextPart(p, op, d, cfg);
    hide Next;
    hide Updated;
    hide F.Elapsed;
  }

  /** Updating is refilling for the ticks that are counted, also when these are none. */
  lemma UpdatedIs(b: Bucket, cfg: Cfg, tick: nat, d: Dir)
    requires b.Limit(d) <= cfg.Maximum(d)
    ensures var n := F.Elapsed(b.lastUpdated, tick);
      && Updated(b, cfg, tick).Limit(d) == Min(cfg.Maximum(d), b.Limit(d) + n * cfg.Rate(d))
      && Updated(b, cfg, tick).lastUpdated == if n > 0 then tick else b.lastUpdated
  {
  }

  lemma TwoSteps(limit: int, maximum: int, rate: nat, n: nat, bytes: nat, rest: seq<Step>)
    ensures var steps, l := [Ticks(n), Spent(bytes)] + rest, Min(maximum, limit + n * rate);
      && (Modest(limit, maximum, rate, steps) <==> bytes <= l && Modest(l - bytes, maximum, rate, rest))
      && SpentIn(steps) == bytes + SpentIn(rest) && TicksIn(steps) == n + TicksIn(rest)
  {
    var steps := [Ticks(n), Spent(bytes)] + rest;
    assert steps[1..] == [Spent(bytes)] + rest && steps[1..][1..] == rest;
  }

  /** A run spends modestly, as much as it uses, in the ticks that go by. */
  lemma {:induction false} RunSteps(p: Purse, ops: seq<Op>, d: Dir, cfg: Cfg)
    requires 0 <= p.bucket.Limit(d) <= cfg.Maximum(d)
    ensures var steps := StepsOf(p, ops, d, cfg);
      && Modest(p.bucket.Limit(d), cfg.Maximum(d), cfg.Rate(d), steps)
      && SpentIn(steps) == After(p, ops, cfg).Total(d) - p.Total(d)
      && TicksIn(steps) == TicksOf(p.bucket.lastUpdated, ops)
    decreases |ops|
  {
    if ops != [] {
      hide Next;
      hide F.Elapsed;
      hide Modest;
      hide SpentIn;
      hide TicksIn;
      hide Min;
      var q := Next(p, ops[0], cfg);
      NextStep(p, ops[0], d, cfg);
      RunSteps(q, ops[1..], d, cfg);
      TwoSteps(p.bucket.Limit(d), cfg.Maximum(d), cfg.Rate(d), F.Elapsed(p.bucket.lastUpdated, ops[0].tick),
               q.Total(d) - p.Total(d), StepsOf(q, ops[1..], d, cfg));
    }
  }

  /** Over `T` ticks a bufferevent with a limit of its own uses no more than its maximum and `T` times its rate. */
  lemma UsedBound(cfg: Cfg, tick: nat, ops: seq<Op>, d: Dir)
    requires cfg.Ok()
    ensures After(Full(cfg, tick), ops, cfg).Total(d) <= cfg.Maximum(d) + TicksOf(tick, ops) * cfg.Rate(d)
  {
    var p := Full(cfg, tick);
    RunSteps(p, ops, d, cfg);
    SpentBound(p.bucket.Limit(d), cfg.Maximum(d), cfg.Rate(d), StepsOf(p, ops, d, cfg));
  }

  // ---- nobody is held up for ever

  /** While a direction is held up it uses nothing, so that its bucket gets all that comes in. */
  lemma HeldStep(p: Purse, op: Op, d: Dir, cfg: Cfg)
    requires p.Held(d) && p.bucket.Limit(d) <= cfg.Maximum(d)
    ensures var q, n := Next(p, op, cfg), F.Elapsed(p.bucket.lastUpdated, op.tick);
      && q.bucket.Limit(d) == Min(cfg.Maximum(d), p.bucket.Limit(d) + n * cfg.Rate(d))
      && q.bucket.lastUpdated == (if n > 0 then op.tick else p.bucket.lastUpdated) && q.Total(d) == p.Total(d)
      && (op.OpRefill? ==> (q.Held(d) <==> q.bucket.Limit(d) <= 0))
  {
    UpdatedIs(p.bucket, cfg, op.tick, d);
    hide Updated;
    hide F.Elapsed;
  }

  lemma HeldSum(limit: int, maximum: nat, rate: nat, n: nat, rest: nat)
    requires limit <= maximum
    ensures Min(maximum, Min(maximum, limit + n * rate) + rest * rate) == Min(maximum, limit + (n + rest) * rate)
  {
    assert (n + rest) * rate == n * rate + rest * rate;
  }

  /** Over any run that holds a direction up all the time its bucket has got the rate for each tick that went by. */
  lemma {:induction false} HeldFor(p: Purse, ops: seq<Op>, d: Dir, cfg: Cfg)
    requires p.bucket.Limit(d) <= cfg.Maximum(d) && forall i | 0 <= i < |ops| :: After(p, ops[..i], cfg).Held(d)
    ensures After(p, ops, cfg).bucket.Limit(d) ==
            Min(cfg.Maximum(d), p.bucket.Limit(d) + TicksOf(p.bucket.lastUpdated, ops) * cfg.Rate(d))
    decreases |ops|
  {
    if ops != [] {
      hide Next;
      hide F.Elapsed;
      hide Min;
      var q, rest := Next(p, ops[0], cfg), ops[1..];
      assert After(p, ops[..0], cfg) == p;
      HeldStep(p, ops[0], d, cfg);
      forall i | 0 <= i < |rest|
        ensures After(q, rest[..i], cfg).Held(d)
      {
        assert ops[..i + 1][0] == ops[0] && ops[..i + 1][1..] == rest[..i];
        assert After(p, ops[..i + 1], cfg).Held(d);
      }
      AtMost(p.bucket.Limit(d) + F.Elapsed(p.bucket.lastUpdated, ops[0].tick) * cfg.Rate(d), cfg.Maximum(d));
      HeldFor(q, rest, d, cfg);
      HeldSum(p.bucket.Limit(d), cfg.Maximum(d), cfg.Rate(d), F.Elapsed(p.bucket.lastUpdated, ops[0].tick),
              TicksOf(q.bucket.lastUpdated, rest));
    }
  }

  lemma AtMost(x: int, maximum: int)
    ensures Min(maximum, x) <= maximum
  {
  }

  lemma {:induction false} AfterLast(p: Purse, ops: seq<Op>, op: Op, cfg: Cfg)
    ensures After(p, ops + [op], cfg) == Next(After(p, ops, cfg), op, cfg)
    decreases |ops|
  {
    hide Next;
    if ops == [] {
      assert ops + [op] == [op];
      assert After(p, [op], cfg) == After(Next(p, op, cfg), [op][1..], cfg);
    } else {
      AfterLast(Next(p, ops[0], cfg), ops[1..], op, cfg);
      assert (ops + [op])[0] == ops[0] && (ops + [op])[1..] == ops[1..] + [op];
    }
  }

  /** Nobody is held up for ever: when the ticks that go by bring a bucket above zero, its direction has been resumed
      by the refill that follows. */
  lemma ResumedInTime(p: Purse, ops: seq<Op>, tick: nat, d: Dir, cfg: Cfg)
    requires cfg.Ok() && p.bucket.Limit(d) <= cfg.Maximum(d)
    requires p.bucket.Limit(d) + TicksOf(p.bucket.lastUpdated, ops + [OpRefill(tick)]) * cfg.Rate(d) > 0
    ensures exists i | 0 <= i <= |ops| + 1 :: !After(p, (ops + [OpRefill(tick)])[..i], cfg).Held(d)
  {
    hide Next;
    hide After;
    hide TicksOf;
    var all := ops + [OpRefill(tick)];
    assert all[..|ops|] == ops && all[..|ops| + 1] == all;
    if forall i | 0 <= i < |all| :: After(p, all[..i], cfg).Held(d) {
      HeldFor(p, all, d, cfg);
      HeldBefore(p, ops, all, d, cfg);
      AfterLast(p, ops, OpRefill(tick), cfg);
      HeldStep(After(p, ops, cfg), OpRefill(tick), d, cfg);
      assert !After(p, all[..|ops| + 1], cfg).Held(d);
    }
  }

  lemma HeldBefore(p: Purse, ops: seq<Op>, all: seq<Op>, d: Dir, cfg: Cfg)
    requires p.bucket.Limit(d) <= cfg.Maximum(d) && |ops| < |all| && all[..|ops|] == ops
    requires forall i | 0 <= i < |all| :: After(p, all[..i], cfg).Held(d)
    ensures After(p, ops, cfg).Held(d) && After(p, ops, cfg).bucket.Limit(d) <= cfg.Maximum(d)
  {
    forall i | 0 <= i < |ops|
      ensures After(p, ops[..i], cfg).Held(d)
    {
      assert ops[..i] == all[..i];
    }
    HeldFor(p, ops, d, cfg);
  }

  /** What counts as a tick that goes by is one: when the tick numbers are those of a clock that does not go back, they
      add up to the time from the start to the end. */
  lemma {:induction false} TicksAreTrue(start: nat, times: seq<nat>, ops: seq<Op>)
    requires |times| == |ops| && forall i | 0 <= i < |ops| :: ops[i].tick == times[i] % TWO_32
    requires forall i | 0 <= i < |ops| ::
               F.Before(start, times, i) <= times[i] <= F.Before(start, times, i) + INT_MAX
    ensures F.Before(start, times, |ops|) >= start
    ensures TicksOf(start % TWO_32, ops) == F.Before(start, times, |ops|) - start
    decreases |ops|
  {
    if ops != [] {
      assert forall i | 0 <= i < |ops| :: F.Before(times[0], times[1..], i) == F.Before(start, times, i + 1);
      F.TicksOnce(F.Before(start, times, 0), times[0]);
      hide F.Elapsed;
      TicksAreTrue(times[0], times[1..], ops[1..]);
    }
  }

  /** A run of transfers and refills, with whatever tick numbers, does what the operations say, and so keeps within
      the bound, however much may be read or written at once; who is held up has a refill to wait for. */
  method Run(cfg: Cfg, tick: nat, maxRead: nat, maxWrite: nat, ops: seq<Op>) returns (b: Limited)
    requires cfg.Ok() && tick < TWO_32 && forall i | 0 <= i < |ops| :: ops[i].tick < TWO_32
    ensures b.Valid() && PurseOf(b) == After(Full(cfg, tick), ops, cfg)
    ensures b.readTotal <= cfg.readMaximum + TicksOf(tick, ops) * cfg.readRate
    ensures b.writeTotal <= cfg.writeMaximum + TicksOf(tick, ops) * cfg.writeRate
  {
    hide Next;
    b := new Limited(cfg, tick, maxRead, maxWrite);
    var i := 0;
    assert ops[0..] == ops;
    while i < |ops|
      invariant 0 <= i <= |ops| && fresh(b) && b.Valid() && b.cfg == cfg
      invariant After(PurseOf(b), ops[i..], cfg) == After(Full(cfg, tick), ops, cfg)
    {
      Do(b, ops[i]);
      assert ops[i..][1..] == ops[i + 1..];
      i := i + 1;
    }
    UsedBound(cfg, tick, ops, Read);
    UsedBound(cfg, tick, ops, Write);
  }

  method Do(b: Limited, op: Op)
    requires b.Valid() && op.tick < TWO_32
    modifies b
    ensures b.Valid() && PurseOf(b) == Next(old(PurseOf(b)), op, b.cfg)
    ensures forall e :: b.limit.Limit(e) <= Updated(old(b.limit), b.cfg, op.tick).Limit(e)
    ensures op.OpRefill? ==> b.limit == Updated(old(b.limit), b.cfg, op.tick)
    ensures op.OpTransfer? && !old(b.Held(op.d)) ==>
      PurseOf(b).Total(op.d) == old(PurseOf(b)).Total(op.d) + op.wish || b.limit.Limit(op.d) <= 0
    ensures op.OpRefill? ==> forall d :: b.Held(d) <==> old(b.Held(d)) && b.limit.Limit(d) <= 0
  {
    hide Used;
    hide Refilled;
    match op
    case OpTransfer(d, tick, wish) => var bytes := Transfer(b, d, tick, wish);
    case OpRefill(tick) => RefillCallback(b, tick);
  }
}
