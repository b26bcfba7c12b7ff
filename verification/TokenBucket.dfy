/** `bufferevent_ratelim.c`: token buckets, in 64-bit and 32-bit arithmetic. */
module TokenBucket {
  import opened Basics

  const TWO_32: nat := 0x1_0000_0000
  const TWO_64: nat := 0x1_0000_0000_0000_0000
  const INT_MAX: nat := 0x7fff_ffff
  const SSIZE_MAX: nat := 0x7fff_ffff_ffff_ffff
  const SSIZE_MIN: int := -0x8000_0000_0000_0000
  /** The numbers that `COMMON_TIMEOUT_MICROSECONDS_MASK` lets through. */
  const MICROSECONDS: nat := 0x10_0000

  datatype Dir = Read | Write

  /** `struct ev_token_bucket_cfg`. */
  datatype Cfg = Cfg(readRate: nat, readMaximum: nat, writeRate: nat, writeMaximum: nat, msecPerTick: nat)
  {
    function Rate(d: Dir): nat {
      if d.Read? then readRate else writeRate
    }

    function Maximum(d: Dir): nat {
      if d.Read? then readMaximum else writeMaximum
    }

    /** What `ev_token_bucket_cfg_new` accepts. */
    predicate Ok() {
      1 <= readRate <= readMaximum <= SSIZE_MAX && 1 <= writeRate <= writeMaximum <= SSIZE_MAX
    }
  }

  /** `struct timeval`. */
  datatype Time = Time(sec: nat, usec: nat)

  /** `ev_token_bucket_cfg_new`; a tick is a second if nothing else is said. */
  function CfgNew(readRate: nat, readBurst: nat, writeRate: nat, writeBurst: nat, tickLen: Option<Time>): (r: Option<Cfg>)
    ensures r.Some? <==> 1 <= readRate <= readBurst <= SSIZE_MAX && 1 <= writeRate <= writeBurst <= SSIZE_MAX
    ensures r.Some? ==> r.value.Ok()
    ensures r.Some? ==> r.value.Rate(Read) == readRate && r.value.Maximum(Read) == readBurst
    ensures r.Some? ==> r.value.Rate(Write) == writeRate && r.value.Maximum(Write) == writeBurst
    ensures r.Some? && tickLen.None? ==> r.value.msecPerTick == 1000
    ensures r.Some? && tickLen.Some? && tickLen.value.sec < 4_000_000 && tickLen.value.usec < 1_000_000 ==>
              r.value.msecPerTick == (tickLen.value.sec * 1_000_000 + tickLen.value.usec) / 1000
  {
    if readRate > readBurst || writeRate > writeBurst || readRate < 1 || writeRate < 1 then None
    else if readRate > SSIZE_MAX || writeRate > SSIZE_MAX || readBurst > SSIZE_MAX || writeBurst > SSIZE_MAX then None
    else
      var tick := if tickLen.Some? then tickLen.value else Time(1, 0);
      Some(Cfg(readRate, readBurst, writeRate, writeBurst,
               (tick.sec * 1000 + tick.usec % MICROSECONDS / 1000) % TWO_32))
  }

  /** `struct ev_token_bucket`. */
  datatype Bucket = Bucket(readLimit: int, writeLimit: int, lastUpdated: nat)
  {
    function Limit(d: Dir): int {
      if d.Read? then readLimit else writeLimit
    }

    function Spend(d: Dir, bytes: int): Bucket {
      if d.Read? then this.(readLimit := readLimit - bytes) else this.(writeLimit := writeLimit - bytes)
    }

    /** Limits are words, and the tick number is one of 32 bits. */
    predicate Words() {
      && SSIZE_MIN <= readLimit <= SSIZE_MAX && SSIZE_MIN <= writeLimit <= SSIZE_MAX
      && lastUpdated < TWO_32
    }

    /** No limit is above its maximum. */
    predicate Ok(cfg: Cfg) {
      Words() && readLimit <= cfg.readMaximum && writeLimit <= cfg.writeMaximum
    }
  }

  function Min(a: int, b: int): int {
    if a < b then a else b
  }

  /** A number as an unsigned word, and an unsigned word as a signed one. */
  function Unsigned(x: int): nat {
    x % TWO_64
  }

  function Signed(x: nat): int {
    if x % TWO_64 <= SSIZE_MAX then x % TWO_64 else x % TWO_64 - TWO_64
  }

  /** The limit after `n` ticks, as it is computed: in words, and without the product when that could be
      too large. */
  function Refill(limit: int, maximum: nat, rate: nat, n: nat): int
    requires n > 0
  {
    if Unsigned(maximum - limit) / n < rate then maximum
    else Signed(Unsigned(limit) + Unsigned(n * rate))
  }

  lemma QuotientBelow(u: nat, n: nat, rate: nat)
    requires n > 0
    ensures u / n < rate <==> u < n * rate
  {
    assert u == n * (u / n) + u % n;
    if u / n < rate {
      assert n * (u / n + 1) <= n * rate;
    } else {
      assert n * rate <= n * (u / n);
    }
  }

  lemma WordSum(limit: int, product: nat)
    requires SSIZE_MIN <= limit && limit + product <= SSIZE_MAX && product < TWO_64
    ensures Signed(Unsigned(limit) + Unsigned(product)) == limit + product
  {
  }

  /** A refill makes of the limit what it should: the limit is not above the maximum, or what comes in is
      so much that the distance to the maximum, which has wrapped around, is passed. */
  predicate RefillsRight(limit: int, maximum: nat, product: nat) {
    limit <= maximum || product >= TWO_64 - (limit - maximum)
  }

  /** While the limit is not above the maximum, nothing overflows and the limit becomes what it should
      be.  Above the maximum it does only if the product is large enough; else even more comes in. */
  lemma RefillMeaning(limit: int, maximum: nat, rate: nat, n: nat)
    requires SSIZE_MIN <= limit <= SSIZE_MAX && maximum <= SSIZE_MAX && rate <= SSIZE_MAX && 0 < n <= INT_MAX
    ensures limit <= maximum ==> Refill(limit, maximum, rate, n) == Min(maximum, limit + n * rate)
    ensures limit <= maximum && Refill(limit, maximum, rate, n) != maximum ==> n * rate < maximum - limit
    ensures Refill(limit, maximum, rate, n) == Min(maximum, limit + n * rate) <==> RefillsRight(limit, maximum, n * rate)
    ensures !RefillsRight(limit, maximum, n * rate) ==> Refill(limit, maximum, rate, n) == Signed(limit + n * rate)
  {
    var u := Unsigned(maximum - limit);
    QuotientBelow(u, n, rate);
    if limit <= maximum {
      assert u == maximum - limit;
      if n * rate <= u { WordSum(limit, n * rate); }
    } else {
      assert u == TWO_64 - (limit - maximum);
      if n * rate <= u { AboveMaximum(limit, maximum, n * rate); }
    }
  }

  lemma AboveMaximum(limit: int, maximum: nat, product: nat)
    requires maximum < limit <= SSIZE_MAX && product <= TWO_64 - (limit - maximum)
    ensures Signed(Unsigned(limit) + Unsigned(product)) == maximum <==> product == TWO_64 - (limit - maximum)
    ensures Signed(Unsigned(limit) + Unsigned(product)) == Signed(limit + product)
  {
    assert Unsigned(limit) == limit && Unsigned(product) == product;
  }

  /** A bucket that is full and then refilled by hand, by `bufferevent_decrement_read_limit` with -1: the
      next tick does not take it back to its maximum but adds one more rate. */
  lemma AboveMaximumExample(maximum: nat, rate: nat)
    requires 1 <= rate <= maximum && maximum + 1 + rate <= SSIZE_MAX
    ensures Refill(maximum - -1, maximum, rate, 1) == maximum + 1 + rate
  {
    RefillMeaning(maximum + 1, maximum, rate, 1);
  }

  /** `bufferevent_decrement_read_limit` and `bufferevent_decrement_write_limit`: the number may be negative,
      and nothing keeps the limit at its maximum.  `suspended` is `BEV_SUSPEND_BW`. */
  method DecrementLimit(b: Bucket, d: Dir, decr: int, suspended: bool) returns (b': Bucket, suspended': bool)
    requires b.Words() && SSIZE_MIN <= b.Limit(d) - decr <= SSIZE_MAX
    ensures b'.Words() && b'.lastUpdated == b.lastUpdated
    ensures forall e :: b'.Limit(e) == if e == d then b.Limit(d) - decr else b.Limit(e)
    ensures (suspended <==> b.Limit(d) <= 0) ==> (suspended' <==> b'.Limit(d) <= 0)
    ensures (b.Limit(d) <= 0) == (b'.Limit(d) <= 0) ==> suspended' == suspended
  {
    b', suspended' := b.Spend(d, decr), suspended;
    if b.Limit(d) > 0 && b'.Limit(d) <= 0 {
      suspended' := true;
    } else if b.Limit(d) <= 0 && b'.Limit(d) > 0 {
      suspended' := false;
    }
  }

  /** The ticks from one tick number to another: numbers wrap around. */
  function TicksBetween(last: nat, tick: nat): nat {
    (tick - last) % TWO_32
  }

  /** What a bucket should be at a tick: nothing happens when no time has passed or time has gone back. */
  function Updated(b: Bucket, cfg: Cfg, tick: nat): Bucket {
    var n := TicksBetween(b.lastUpdated, tick);
    if n == 0 || n > INT_MAX then b
    else Bucket(Min(cfg.readMaximum, b.readLimit + n * cfg.readRate),
                Min(cfg.writeMaximum, b.writeLimit + n * cfg.writeRate), tick)
  }

  /** One half of `ev_token_bucket_update_`. */
  method RefillOne(limit: int, maximum: nat, rate: nat, n: nat) returns (limit': int)
    requires SSIZE_MIN <= limit <= SSIZE_MAX && maximum <= SSIZE_MAX && rate <= SSIZE_MAX && 0 < n <= INT_MAX
    ensures SSIZE_MIN <= limit' <= SSIZE_MAX
    ensures limit' == if RefillsRight(limit, maximum, n * rate) then Min(maximum, limit + n * rate)
                      else Signed(limit + n * rate)
  {
    RefillMeaning(limit, maximum, rate, n);
    if Unsigned(maximum - limit) / n < rate {
      limit' := maximum;
    } else {
      limit' := Signed(Unsigned(limit) + Unsigned(n * rate));
    }
  }

  /** `ev_token_bucket_update_`: a bucket that is not above its maximum is updated rightly.  One that is
      above it gets what comes in as well, until the product wraps. */
  method Update(b: Bucket, cfg: Cfg, tick: nat) returns (b': Bucket, r: int)
    requires cfg.Ok() && b.Words() && tick < TWO_32
    ensures b'.Words() && (b.Ok(cfg) ==> b' == Updated(b, cfg, tick) && b'.Ok(cfg))
    ensures r == 1 ==> b'.lastUpdated == tick && forall d ::
              var n := TicksBetween(b.lastUpdated, tick);
              b'.Limit(d) == if RefillsRight(b.Limit(d), cfg.Maximum(d), n * cfg.Rate(d))
                             then Min(cfg.Maximum(d), b.Limit(d) + n * cfg.Rate(d))
                             else Signed(b.Limit(d) + n * cfg.Rate(d))
    ensures r == 0 ==> b' == b
    ensures r == if 0 < TicksBetween(b.lastUpdated, tick) <= INT_MAX then 1 else 0
  {
    hide Signed;
    b' := b;
    var nTicks := (tick - b.lastUpdated) % TWO_32;
    if nTicks == 0 || nTicks > INT_MAX {
      return b', 0;
    }
    var readLimit := RefillOne(b.readLimit, cfg.readMaximum, cfg.readRate, nTicks);
    var writeLimit := RefillOne(b.writeLimit, cfg.writeMaximum, cfg.writeRate, nTicks);
    b' := b'.(readLimit := readLimit, writeLimit := writeLimit);
    b' := b'.(lastUpdated := tick);
    r := 1;
  }

  /** `ev_token_bucket_init_`. */
  method Init(b: Bucket, cfg: Cfg, tick: nat, reinitialize: bool) returns (b': Bucket)
    requires cfg.Ok() && tick < TWO_32 && b.lastUpdated < TWO_32
    requires SSIZE_MIN <= b.readLimit && SSIZE_MIN <= b.writeLimit
    ensures b'.Ok(cfg)
    ensures forall d :: b'.Limit(d) == if reinitialize then Min(b.Limit(d), cfg.Maximum(d)) else cfg.Rate(d)
    ensures b'.lastUpdated == if reinitialize then b.lastUpdated else tick
  {
    b' := b;
    if reinitialize {
      if b'.readLimit > cfg.readMaximum {
        b' := b'.(readLimit := cfg.readMaximum);
      }
      if b'.writeLimit > cfg.writeMaximum {
        b' := b'.(writeLimit := cfg.writeMaximum);
      }
    } else {
      b' := Bucket(cfg.readRate, cfg.writeRate, tick);
    }
  }

  lemma MinTwice(maximum: int, limit: int, rate: nat, k: nat, m: nat)
    ensures Min(maximum, Min(maximum, limit + k * rate) + m * rate) == Min(maximum, limit + (k + m) * rate)
  {
    assert (k + m) * rate == k * rate + m * rate;
  }

  /** The tick number after `k` more ticks. */
  function Later(last: nat, k: nat): nat {
    (last + k) % TWO_32
  }

  /** Whole turns of the counter do not matter. */
  lemma Turns(x: int, k: int)
    ensures (x + k * TWO_32) % TWO_32 == x % TWO_32
  {
  }

  lemma LaterTicks(last: nat, k: nat, m: nat)
    requires m < TWO_32
    ensures TicksBetween(Later(last, k), Later(last, k + m)) == m
  {
    var i, j := (last + k) / TWO_32, (last + k + m) / TWO_32;
    assert Later(last, k) == last + k - i * TWO_32;
    assert Later(last, k + m) == last + k + m - j * TWO_32;
    Turns(m, i as int - j);
  }

  /** Updating after `k` ticks and again `m` ticks later is updating once after `k + m` ticks, whether or
      not the tick number wraps around on the way. */
  lemma UpdateTwice(b: Bucket, cfg: Cfg, k: nat, m: nat)
    requires b.Ok(cfg) && k + m <= INT_MAX
    ensures Updated(Updated(b, cfg, Later(b.lastUpdated, k)), cfg, Later(b.lastUpdated, k + m)) ==
            Updated(b, cfg, Later(b.lastUpdated, k + m))
  {
    var last := b.lastUpdated;
    assert Later(last, 0) == last;
    LaterTicks(last, 0, k);
    LaterTicks(last, 0, k + m);
    LaterTicks(last, k, m);
    hide Later;
    hide TicksBetween;
    hide Min;
    MinTwice(cfg.readMaximum, b.readLimit, cfg.readRate, k, m);
    MinTwice(cfg.writeMaximum, b.writeLimit, cfg.writeRate, k, m);
    MinTwice(cfg.readMaximum, b.readLimit, cfg.readRate, k, 0);
    MinTwice(cfg.writeMaximum, b.writeLimit, cfg.writeRate, k, 0);
  }

  /** `ev_token_bucket_get_tick_`. */
  function GetTick(t: Time, cfg: Cfg): nat
    requires cfg.msecPerTick >= 1
  {
    (Unsigned(t.sec * 1000 + t.usec / 1000) / cfg.msecPerTick) % TWO_32
  }

  /** How many ticks are over at a time. */
  function TicksAt(t: Time, cfg: Cfg): nat
    requires cfg.msecPerTick >= 1
  {
    (t.sec * 1_000_000 + t.usec) / 1000 / cfg.msecPerTick
  }

  /** The ticks between two times are counted rightly, whatever has been cut off their numbers, as long
      as they are less than 2^32. */
  lemma TicksOfTimes(t1: Time, t2: Time, cfg: Cfg)
    requires cfg.msecPerTick >= 1 && t1.sec * 1000 + t1.usec / 1000 < TWO_64 && t2.sec * 1000 + t2.usec / 1000 < TWO_64
    requires TicksAt(t1, cfg) <= TicksAt(t2, cfg) < TicksAt(t1, cfg) + TWO_32
    ensures TicksBetween(GetTick(t1, cfg), GetTick(t2, cfg)) == TicksAt(t2, cfg) - TicksAt(t1, cfg)
  {
    TickNumber(t1, cfg);
    TickNumber(t2, cfg);
    LaterTicks(TicksAt(t1, cfg), 0, TicksAt(t2, cfg) - TicksAt(t1, cfg));
  }

  lemma TickNumber(t: Time, cfg: Cfg)
    requires cfg.msecPerTick >= 1 && t.sec * 1000 + t.usec / 1000 < TWO_64
    ensures GetTick(t, cfg) == TicksAt(t, cfg) % TWO_32
  {
    assert (t.sec * 1_000_000 + t.usec) / 1000 == t.sec * 1000 + t.usec / 1000;
  }

  // ---- one bucket over time

  datatype Step = Ticks(n: nat) | Spent(bytes: nat)

  /** Each time no more is spent than the bucket holds. */
  predicate Modest(limit: int, maximum: int, rate: nat, steps: seq<Step>)
    decreases |steps|
  {
    steps == [] ||
    match steps[0]
    case Ticks(n) => Modest(Min(maximum, limit + n * rate), maximum, rate, steps[1..])
    case Spent(bytes) => bytes <= limit && Modest(limit - bytes, maximum, rate, steps[1..])
  }

  function TicksIn(steps: seq<Step>): nat {
    if steps == [] then 0 else (if steps[0].Ticks? then steps[0].n else 0) + TicksIn(steps[1..])
  }

  function SpentIn(steps: seq<Step>): nat {
    if steps == [] then 0 else (if steps[0].Spent? then steps[0].bytes else 0) + SpentIn(steps[1..])
  }

  /** Over `T` ticks no more than the limit at the start and `T` times the rate is spent, so no more than
      the maximum and `T` times the rate. */
  lemma {:induction false} SpentBound(limit: int, maximum: int, rate: nat, steps: seq<Step>)
    requires 0 <= limit <= maximum && Modest(limit, maximum, rate, steps)
    ensures SpentIn(steps) <= limit + TicksIn(steps) * rate <= maximum + TicksIn(steps) * rate
    decreases |steps|
  {
    if steps != [] {
      match steps[0]
      case Ticks(n) =>
        SpentBound(Min(maximum, limit + n * rate), maximum, rate, steps[1..]);
        assert (n + TicksIn(steps[1..])) * rate == n * rate + TicksIn(steps[1..]) * rate;
      case Spent(bytes) =>
        SpentBound(limit - bytes, maximum, rate, steps[1..]);
    }
  }
}
