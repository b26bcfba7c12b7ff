/** `bufferevent_ratelim.c`: spending, refilling, members that come and go, and runs of them. */
module RateFlow {
  import opened Basics
  import opened TokenBucket
  import opened RateGroup

  function Max(a: int, b: int): int {
    if a < b then b else a
  }

  /** What one of `n` members may use of a limit: its part of it, but no less than the minimum share. */
  function Share(limit: int, n: nat, minShare: nat): int
    requires n > 0
  {
    Max(limit / n, minShare)
  }

  /** The part of one of `n` members, rounded down, or the minimum share if that is more. */
  predicate IsShare(share: int, limit: int, n: nat, minShare: nat) {
    share >= minShare && (share == minShare || share * n <= limit) && limit < (share + 1) * n
  }

  lemma ShareMeans(limit: nat, n: nat, minShare: nat)
    requires n > 0
    ensures IsShare(Share(limit, n, minShare), limit, n, minShare)
  {
    QuotientIs(limit, n);
    if limit / n < minShare {
      Times(limit / n + 1, minShare + 1, n);
    }
  }

  /** The group part of `bufferevent_get_rlim_max_`, for member `i`. */
  method GroupShare(g: Group, i: nat, d: Dir) returns (share: int)
    requires g.Valid() && i < |g.members|
    modifies g`members
    ensures g.Valid() && |g.members| == |old(g.members)|
    ensures share == if g.On(d).suspended then 0 else Share(g.Limit(d), |g.members|, g.minShare)
    ensures !g.On(d).suspended ==> IsShare(share, g.Limit(d), |g.members|, g.minShare)
    ensures g.On(d).suspended ==> g.members[i].On(d).suspended
    ensures !g.On(d).suspended ==> g.members == old(g.members)
    ensures forall j | 0 <= j < |g.members| && j != i :: g.members[j] == old(g.members)[j]
    ensures g.members[i].locked == old(g.members)[i].locked && g.members[i].id == old(g.members)[i].id
  {
    hide IsShare;
    ghost var was := g.members;
    if g.On(d).suspended {
      SetMember(g, d, i, true);
      OtherSide(g.On(Other(d)), Other(d), g.Limit(Other(d)), was, g.members);
      share := 0;
    } else {
      share := g.Limit(d) / g.nMembers;
      if share < g.minShare {
        share := g.minShare;
      }
      ShareMeans(g.Limit(d), |g.members|, g.minShare);
    }
  }

  /** `bufferevent_get_rlim_max_` for a bufferevent with a limit of its own or without, and with the share
      of its group if it has one. */
  function RlimMax(maxSingle: int, rateLimited: bool, own: Option<int>, share: Option<int>): int {
    if !rateLimited then maxSingle
    else
      var m := if own.Some? then own.value else maxSingle;
      var m' := if share.Some? && m > share.value then share.value else m;
      if m' < 0 then 0 else m'
  }

  /** The most to read at once is kept exactly when there is no limit of one's own that is larger, or the
      share of the group is not: a limit of one's own takes the place of it. */
  lemma MaxSingleKept(maxSingle: nat, own: Option<int>, share: Option<int>)
    ensures RlimMax(maxSingle, true, own, share) <= maxSingle <==>
            own.None? || own.value <= maxSingle || (share.Some? && share.value <= maxSingle)
    ensures RlimMax(maxSingle, true, own, share) >= 0 && RlimMax(maxSingle, false, own, share) == maxSingle
    ensures own.None? && share.None? ==> RlimMax(maxSingle, true, own, share) == maxSingle
    ensures share.Some? ==> RlimMax(maxSingle, true, own, share) ==
                            Min(RlimMax(maxSingle, true, own, None), Max(share.value, 0))
    ensures own.Some? ==> RlimMax(maxSingle, true, own, share) <= Max(own.value, 0)
    ensures share.Some? ==> RlimMax(maxSingle, true, own, share) <= Max(share.value, 0)
  {
  }

  /** A bufferevent that may read 16384 bytes at once, with a limit of its own of 20000, reads 20000 at once. */
  lemma MaxSingleExample()
    ensures RlimMax(16384, false, None, None) == 16384 && RlimMax(16384, true, Some(20000), None) == 20000
  {
    MaxSingleKept(16384, Some(20000), None);
  }

  /** The group part of `bufferevent_decrement_read_buckets_` and `bufferevent_decrement_write_buckets_`:
      afterwards the group is suspended exactly when nothing is left. */
  method Decrement(g: Group, d: Dir, bytes: nat)
    requires g.Valid() && g.Limit(d) - bytes >= SSIZE_MIN
    modifies g`bucket, g`read, g`write, g`members
    ensures g.Valid() && g.bucket == old(g.bucket).Spend(d, bytes)
    ensures g.On(d).total == old(g.On(d)).total + bytes && g.On(d).suspended == (g.Limit(d) <= 0)
    ensures g.On(Other(d)) == old(g.On(Other(d))) && |g.members| == |old(g.members)|
    ensures forall i | 0 <= i < |g.members| :: g.members[i].locked == old(g.members)[i].locked
    ensures g.Limit(d) <= 0 ==> forall i | 0 <= i < |g.members| ::
              g.members[i].On(d).suspended == (old(g.members)[i].On(d).suspended || !old(g.members)[i].locked)
    ensures g.Limit(d) > 0 && old(g.On(d)).suspended ==> forall i | 0 <= i < |g.members| ::
              g.members[i].On(d).suspended == (old(g.members)[i].On(d).suspended && old(g.members)[i].locked)
  {
    g.bucket := g.bucket.Spend(d, bytes);
    SetSide(g, d, g.On(d).(total := g.On(d).total + bytes));
    if g.Limit(d) <= 0 {
      Suspend(g, d);
    } else if g.On(d).suspended {
      Unsuspend(g, d);
    }
  }

  lemma QuotientIs(a: nat, n: nat)
    requires n > 0
    ensures a / n * n <= a < (a / n + 1) * n
  {
  }

  lemma QuotientLess(a: nat, n: nat)
    requires n > 0
    ensures a / n <= a
  {
    QuotientBelow(a, n, a + 1);
    assert (n - 1) * (a + 1) >= 0;
    assert n * (a + 1) == (n - 1) * (a + 1) + (a + 1);
  }

  /** A member that uses at most its share leaves something, or takes no more than the minimum share. */
  lemma ShareBound(limit: int, n: nat, minShare: nat, bytes: int)
    requires limit >= 0 && n > 0 && bytes <= Share(limit, n, minShare)
    ensures limit - bytes >= Min(0, limit - minShare)
  {
    QuotientLess(limit, n);
  }

  // ---- a group without its members: what happens to its numbers, whatever the locks

  datatype Standing = Standing(bucket: Bucket, readHeld: bool, writeHeld: bool, readTotal: int, writeTotal: int,
                               members: nat)
  {
    function Held(d: Dir): bool {
      if d.Read? then readHeld else writeHeld
    }

    function Total(d: Dir): int {
      if d.Read? then readTotal else writeTotal
    }

    /** Nobody is held up, and there is something to give out; or everybody is held up. */
    predicate Up(d: Dir) {
      Held(d) || bucket.Limit(d) > 0
    }
  }

  function StandingOf(g: Group): Standing
    reads g
  {
    Standing(g.bucket, g.read.suspended, g.write.suspended, g.read.total, g.write.total, |g.members|)
  }

  /** What a member may use that wishes to use so much. */
  function Given(s: Standing, d: Dir, wish: nat, minShare: nat): nat {
    if s.Held(d) || s.members == 0 then 0
    else
      var share := Share(s.bucket.Limit(d), s.members, minShare);
      if wish <= share then wish else Max(share, 0)
  }

  /** The group after `n` bytes have been used: held up exactly when nothing is left. */
  function Spent(s: Standing, d: Dir, n: nat): Standing {
    if n == 0 then s
    else
      var b := s.bucket.Spend(d, n);
      if d.Read? then s.(bucket := b, readHeld := b.readLimit <= 0, readTotal := s.readTotal + n)
      else s.(bucket := b, writeHeld := b.writeLimit <= 0, writeTotal := s.writeTotal + n)
  }

  /** The group at a tick: held up no longer when the minimum share is there. */
  function Refilled(s: Standing, tick: nat, cfg: Cfg, minShare: nat): Standing {
    var b := Updated(s.bucket, cfg, tick);
    s.(bucket := b, readHeld := s.readHeld && b.readLimit < minShare, writeHeld := s.writeHeld && b.writeLimit < minShare)
  }

  /** A refill keeps a group so that it is held up or has something to give out, exactly when the minimum
      share is not zero. */
  lemma ShareNotZero(minShare: nat)
    ensures minShare >= 1 <==>
              forall s: Standing, tick: nat, cfg: Cfg, d: Dir ::
                s.bucket.Ok(cfg) && s.Up(d) ==> Refilled(s, tick, cfg, minShare).Up(d)
  {
    if minShare >= 1 {
      forall s: Standing, tick: nat, cfg: Cfg, d: Dir | s.bucket.Ok(cfg) && s.Up(d)
        ensures Refilled(s, tick, cfg, minShare).Up(d)
      {
        UpdatedNoLess(s.bucket, cfg, tick, d);
      }
    } else {
      var s, cfg := Standing(Bucket(0, 0, 0), true, true, 0, 0, 0), Cfg(1, 1, 1, 1, 1000);
      assert s.bucket.Ok(cfg) && s.Up(Read) && !Refilled(s, 0, cfg, 0).Up(Read);
    }
  }

  /** A member gets what it wishes or all of its share, which is its part of the limit or the minimum share. */
  lemma GivenMeans(s: Standing, d: Dir, wish: nat, minShare: nat)
    requires !s.Held(d) ==> s.bucket.Limit(d) >= 0 && s.members > 0
    ensures var bytes, limit := Given(s, d, wish, minShare), s.bucket.Limit(d);
      && bytes <= wish && (s.Held(d) ==> bytes == 0)
      && (!s.Held(d) && bytes < wish ==> bytes >= minShare && limit < (bytes + 1) * s.members)
      && (bytes <= minShare || bytes * s.members <= limit)
  {
    if !s.Held(d) {
      var q := s.bucket.Limit(d) / s.members;
      var bytes := Given(s, d, wish, minShare);
      assert q * s.members <= s.bucket.Limit(d) < (q + 1) * s.members;
      if bytes <= q { Times(bytes, q, s.members); }
      if q <= bytes { Times(q + 1, bytes + 1, s.members); }
    }
  }

  lemma Times(a: nat, c: nat, n: nat)
    requires a <= c
    ensures a * n <= c * n
  {
  }

  /** A member asks for its share, and uses no more of it: one locked region after the other. */
  method Transfer(g: Group, i: nat, d: Dir, wish: nat) returns (bytes: nat)
    requires g.Valid() && i < |g.members|
    modifies g`bucket, g`read, g`write, g`members
    ensures g.Valid() && bytes == Given(old(StandingOf(g)), d, wish, g.minShare)
    ensures StandingOf(g) == Spent(old(StandingOf(g)), d, bytes) && |g.members| == |old(g.members)|
    ensures !old(g.On(d)).suspended ==> g.Limit(d) >= Min(0, old(g.Limit(d)) - g.minShare)
    ensures bytes <= wish && (old(g.On(d)).suspended ==> bytes == 0)
    ensures !old(g.On(d)).suspended && bytes < wish ==>
      bytes >= g.minShare && old(g.Limit(d)) < (bytes + 1) * |old(g.members)|
    ensures bytes <= g.minShare || bytes * |old(g.members)| <= old(g.Limit(d))
    ensures g.Limit(d) == old(g.Limit(d)) - bytes && g.On(d).total == old(g.On(d)).total + bytes
    ensures bytes > 0 ==> (g.On(d).suspended <==> g.Limit(d) <= 0)
    ensures bytes > 0 && g.On(d).suspended ==> |g.members| == |old(g.members)| && forall j | 0 <= j < |g.members| ::
              g.members[j].On(d).suspended || old(g.members)[j].locked
    ensures old(g.On(d)).suspended ==> |g.members| == |old(g.members)| && g.members[i].On(d).suspended
  {
    GivenMeans(StandingOf(g), d, wish, g.minShare);
    var share := GroupShare(g, i, d);
    bytes := if wish <= share then wish else Max(share, 0);
    if bytes > 0 {
      ShareBound(g.Limit(d), |g.members|, g.minShare, bytes);
      Decrement(g, d, bytes);
    }
  }

  lemma UpdatedNoLess(b: Bucket, cfg: Cfg, tick: nat, d: Dir)
    requires b.Limit(d) <= cfg.Maximum(d)
    ensures b.Limit(d) <= Updated(b, cfg, tick).Limit(d) <= cfg.Maximum(d)
    ensures Updated(b, cfg, tick).Limit(d) <= b.Limit(d) + Elapsed(b.lastUpdated, tick) * cfg.Rate(d)
  {
  }

  /** The ticks that an update counts. */
  function Elapsed(last: nat, tick: nat): nat {
    var n := TicksBetween(last, tick);
    if n > INT_MAX then 0 else n
  }

  /** `bev_group_refill_callback_`: a suspended group is resumed exactly when the minimum share is there, and
      it is left running with nothing to give out exactly when that share is zero and so is the limit. */
  method RefillGroup(g: Group, tick: nat)
    requires g.Valid() && tick < TWO_32
    modifies g`bucket, g`read, g`write, g`members
    ensures g.Valid() && StandingOf(g) == Refilled(old(StandingOf(g)), tick, g.cfg, g.minShare)
    ensures forall d :: old(StandingOf(g)).Up(d) ==>
              (StandingOf(g).Up(d) <==> !(old(g.On(d)).suspended && g.minShare == 0 && g.Limit(d) == 0))
    ensures g.bucket == Updated(old(g.bucket), g.cfg, tick) && |g.members| == |old(g.members)|
    ensures forall d :: g.On(d).suspended <==> old(g.On(d)).suspended && g.Limit(d) < g.minShare
    ensures forall d :: Told(old(g.On(d)), g.On(d), d, old(g.members), g.members)
  {
    hide Updated;
    hide Told;
    ghost var s := StandingOf(g);
    UpdatedNoLess(g.bucket, g.cfg, tick, Read);
    UpdatedNoLess(g.bucket, g.cfg, tick, Write);
    var r;
    g.bucket, r := Update(g.bucket, g.cfg, tick);
    ResumeBoth(g);
    forall d: Dir | s.Up(d)
      ensures StandingOf(g).Up(d) <==> !(s.Held(d) && g.minShare == 0 && g.Limit(d) == 0)
    {
      RefillUp(s, tick, g.cfg, g.minShare, d);
    }
  }

  /** The part of `bev_group_refill_callback_` behind the update. */
  method ResumeBoth(g: Group)
    requires g.Valid()
    modifies g`read, g`write, g`members
    ensures g.Valid() && |g.members| == |old(g.members)|
    ensures forall d :: g.On(d).total == old(g.On(d)).total
    ensures forall d :: g.On(d).suspended <==> old(g.On(d)).suspended && g.Limit(d) < g.minShare
    ensures forall d :: Told(old(g.On(d)), g.On(d), d, old(g.members), g.members)
  {
    hide Told;
    ghost var members := g.members;
    Resume(g, Read);
    ghost var members1 := g.members;
    Resume(g, Write);
    ToldStill(old(g.read), g.read, Read, members, members1, g.members);
    ToldSince(old(g.write), g.write, Write, members, members1, g.members);
  }

  lemma RefillUp(s: Standing, tick: nat, cfg: Cfg, minShare: nat, d: Dir)
    requires s.bucket.Limit(d) <= cfg.Maximum(d) && s.Up(d)
    ensures var s' := Refilled(s, tick, cfg, minShare);
      s'.Up(d) <==> !(s.Held(d) && minShare == 0 && s'.bucket.Limit(d) == 0)
  {
    UpdatedNoLess(s.bucket, cfg, tick, d);
  }

  /** Unless the group stays held up, whoever could be locked has been resumed if there was anything to do, and
      something is pending exactly when there are others. */
  ghost predicate Told(s: Side, s': Side, d: Dir, was: seq<Member>, members: seq<Member>) {
    && |members| == |was|
    && (!s'.suspended && (s.suspended || s.pending) ==>
          && (s'.pending <==> exists i | 0 <= i < |was| :: was[i].locked)
          && forall i | 0 <= i < |was| :: members[i].On(d).suspended == (was[i].On(d).suspended && was[i].locked))
    && (s'.suspended || !(s.suspended || s.pending) ==>
          s'.pending == s.pending && forall i | 0 <= i < |was| :: members[i].On(d) == was[i].On(d))
  }

  lemma ToldStill(s: Side, s': Side, d: Dir, was: seq<Member>, members: seq<Member>, later: seq<Member>)
    requires Told(s, s', d, was, members) && |later| == |members|
    requires forall i | 0 <= i < |members| :: later[i].On(d) == members[i].On(d)
    ensures Told(s, s', d, was, later)
  {
  }

  lemma ToldSince(s: Side, s': Side, d: Dir, was: seq<Member>, members: seq<Member>, later: seq<Member>)
    requires Told(s, s', d, members, later) && |was| == |members|
    requires forall i | 0 <= i < |members| :: members[i].On(d) == was[i].On(d) && members[i].locked == was[i].locked
    ensures Told(s, s', d, was, later)
  {
  }

  /** The part of `bev_group_refill_callback_` for one direction. */
  method Resume(g: Group, d: Dir)
    requires g.Valid()
    modifies g`read, g`write, g`members
    ensures g.Valid() && Only(g, d)
    ensures g.On(d).suspended <==> old(g.On(d)).suspended && g.Limit(d) < g.minShare
    ensures Told(old(g.On(d)), g.On(d), d, old(g.members), g.members)
  {
    if g.On(d).pending || (g.On(d).suspended && g.Limit(d) >= g.minShare) {
      Unsuspend(g, d);
    }
  }

  /** With a minimum share of zero a group that has overdrawn its limit by one tick's rate runs again at the
      next tick, with nothing to give out. */
  method ZeroShareExample() returns (g: Group)
    ensures g.Valid() && g.minShare == 0 && !g.read.suspended && g.Limit(Read) == 0
  {
    g := new Group(Cfg(10, 10, 10, 10, 1000), 0);
    var r := SetMinShare(g, 0);
    Decrement(g, Read, 20);
    assert TicksBetween(0, 1) == 1;
    RefillGroup(g, 1);
  }

  /** `bufferevent_rate_limit_group_set_min_share`: no more than either rate. */
  method SetMinShare(g: Group, share: nat) returns (r: int)
    requires g.Valid()
    modifies g`configuredMinShare, g`minShare
    ensures g.Valid() && r == if share > SSIZE_MAX then -1 else 0
    ensures r == 0 ==> g.configuredMinShare == share && g.minShare == Smallest(share, g.cfg.readRate, g.cfg.writeRate)
    ensures r == 0 ==> g.minShare <= share && g.minShare <= g.cfg.readRate && g.minShare <= g.cfg.writeRate
    ensures r == 0 ==> g.minShare == share || g.minShare == g.cfg.readRate || g.minShare == g.cfg.writeRate
    ensures r == -1 ==> g.minShare == old(g.minShare) && g.configuredMinShare == old(g.configuredMinShare)
  {
    if share > SSIZE_MAX {
      return -1;
    }
    g.configuredMinShare := share;
    var s := share;
    if s > g.cfg.readRate {
      s := g.cfg.readRate;
    }
    if s > g.cfg.writeRate {
      s := g.cfg.writeRate;
    }
    g.minShare := s;
    r := 0;
  }

  /** `bufferevent_rate_limit_group_set_cfg`. */
  method SetCfg(g: Group, cfg: Cfg)
    requires g.Valid() && cfg.Ok()
    modifies g`cfg, g`bucket, g`configuredMinShare, g`minShare
    ensures g.Valid() && g.cfg == cfg && g.configuredMinShare == old(g.configuredMinShare)
    ensures forall d :: g.Limit(d) == Min(old(g.Limit(d)), cfg.Maximum(d))
    ensures forall d :: g.minShare <= cfg.Rate(d)
    ensures g.minShare == Smallest(g.configuredMinShare, cfg.readRate, cfg.writeRate)
  {
    g.cfg := cfg;
    if g.bucket.readLimit > cfg.readMaximum {
      g.bucket := g.bucket.(readLimit := cfg.readMaximum);
    }
    if g.bucket.writeLimit > cfg.writeMaximum {
      g.bucket := g.bucket.(writeLimit := cfg.writeMaximum);
    }
    var r := SetMinShare(g, g.configuredMinShare);
  }

  // ---- members that come and go

  /** `bufferevent_add_to_rate_limit_group` up to where it lets the group go: the new member, whose lock
      is held, remembers whether it has to be suspended. */
  method Join(g: Group, id: nat)
    requires g.Valid()
    modifies g`members, g`nMembers
    ensures g.Valid() && |g.members| == |old(g.members)| + 1 && g.members[1..] == old(g.members)
    ensures g.members[0] == Member(id, true, Hold(false, g.read.suspended), Hold(false, g.write.suspended))
  {
    ghost var was := g.members;
    g.nMembers := g.nMembers + 1;
    g.members := [Member(id, true, Hold(false, g.read.suspended), Hold(false, g.write.suspended))] + g.members;
    assert forall i | 0 < i < |g.members| :: g.members[i] == was[i - 1];
  }

  /** The rest of it: the member does what it was told, even if the group has changed its mind since, and
      its lock is released. */
  method FinishJoin(g: Group, i: nat)
    requires g.Valid() && i < |g.members|
    modifies g`members
    ensures g.Valid() && |g.members| == |old(g.members)|
    ensures var m := old(g.members)[i];
      g.members == old(g.members)[i := m.(locked := false, read := Hold(m.read.suspended || m.read.due, false),
                                            write := Hold(m.write.suspended || m.write.due, false))]
  {
    var m := g.members[i];
    g.members := g.members[i := m.(locked := false, read := Hold(m.read.suspended || m.read.due, false),
                                   write := Hold(m.write.suspended || m.write.due, false))];
  }

  /** `bufferevent_remove_from_rate_limit_group_internal_`: who leaves is resumed, if that is asked for, whatever
      the group is. */
  method Leave(g: Group, i: nat, unsuspend: bool) returns (gone: Member)
    requires g.Valid() && i < |g.members|
    modifies g`members, g`nMembers
    ensures g.Valid() && g.members == old(g.members)[..i] + old(g.members)[i + 1..]
    ensures gone.id == old(g.members)[i].id
    ensures forall d :: gone.On(d).suspended == (old(g.members)[i].On(d).suspended && !unsuspend)
  {
    ghost var was := g.members;
    gone := g.members[i];
    if unsuspend {
      gone := gone.(read := gone.read.(suspended := false), write := gone.write.(suspended := false));
    }
    g.nMembers := g.nMembers - 1;
    g.members := g.members[..i] + g.members[i + 1..];
    assert forall j | 0 <= j < |g.members| :: g.members[j] == was[if j < i then j else j + 1];
  }

  /** Another thread takes the lock of a member, or releases it. */
  method SetLocked(g: Group, i: nat, locked: bool)
    requires g.Valid() && i < |g.members| && !g.members[i].read.due && !g.members[i].write.due
    modifies g`members
    ensures g.Valid() && g.members == old(g.members)[i := old(g.members)[i].(locked := locked)]
  {
    g.members := g.members[i := g.members[i].(locked := locked)];
  }

  // ---- runs with fixed settings

  datatype Op =
    | OpTransfer(i: nat, d: Dir, wish: nat)
    | OpRefill(tick: nat)
    | OpJoin(id: nat)
    | OpFinishJoin(i: nat)
    | OpLeave(i: nat, unsuspend: bool)
    | OpSetLocked(i: nat, locked: bool)

  predicate Allowed(g: Group, op: Op)
    reads g
  {
    match op
    case OpTransfer(i, _, _) => i < |g.members|
    case OpRefill(tick) => tick < TWO_32
    case OpJoin(_) => true
    case OpFinishJoin(i) => i < |g.members|
    case OpLeave(i, _) => i < |g.members|
    case OpSetLocked(i, _) => i < |g.members| && !g.members[i].read.due && !g.members[i].write.due
  }

  /** What an operation does to the numbers of a group. */
  function Next(s: Standing, op: Op, cfg: Cfg, minShare: nat): Standing {
    match op
    case OpTransfer(_, d, wish) => Spent(s, d, Given(s, d, wish, minShare))
    case OpRefill(tick) => Refilled(s, tick, cfg, minShare)
    case OpJoin(_) => s.(members := s.members + 1)
    case OpFinishJoin(_) => s
    case OpLeave(_, _) => if s.members > 0 then s.(members := s.members - 1) else s
    case OpSetLocked(_, _) => s
  }

  /** A new group. */
  function Start(cfg: Cfg, tick: nat): Standing {
    Standing(Bucket(cfg.readRate, cfg.writeRate, tick), false, false, 0, 0, 0)
  }

  /** The numbers of a group that started at `tick`, after these operations. */
  function Standings(cfg: Cfg, tick: nat, minShare: nat, ops: seq<Op>): Standing {
    if ops == [] then Start(cfg, tick)
    else Next(Standings(cfg, tick, minShare, ops[..|ops| - 1]), ops[|ops| - 1], cfg, minShare)
  }

  /** What a run does is what its operations do, one after the other. */
  lemma StandingsMore(cfg: Cfg, tick: nat, minShare: nat, ops: seq<Op>, op: Op)
    ensures Standings(cfg, tick, minShare, ops + [op]) == Next(Standings(cfg, tick, minShare, ops), op, cfg, minShare)
  {
    assert (ops + [op])[..|ops|] == ops;
  }

  /** The tick that a group was last updated at, and how many ticks have gone by until then. */
  function LastTick(tick: nat, ops: seq<Op>): nat {
    if ops == [] then tick
    else
      var op, last := ops[|ops| - 1], LastTick(tick, ops[..|ops| - 1]);
      if op.OpRefill? && Elapsed(last, op.tick) > 0 then op.tick else last
  }

  function TicksIn(tick: nat, ops: seq<Op>): nat {
    if ops == [] then 0
    else
      var op, rest := ops[|ops| - 1], ops[..|ops| - 1];
      TicksIn(tick, rest) + if op.OpRefill? then Elapsed(LastTick(tick, rest), op.tick) else 0
  }

  /** What counts as a tick that goes by is one: when refills come with the tick numbers of a clock that does not go
      back, they add up to the time from the start to the last of them. */
  lemma {:induction false} TicksAreTrue(start: nat, times: seq<nat>, ops: seq<Op>)
    requires |times| == |ops| && forall i | 0 <= i < |ops| && ops[i].OpRefill? :: ops[i].tick == times[i] % TWO_32
    requires forall i | 0 <= i < |ops| ::
               && Before(start, times, i) <= times[i] <= Before(start, times, i) + INT_MAX
               && (ops[i].OpRefill? || times[i] == Before(start, times, i))
    ensures Before(start, times, |ops|) >= start
    ensures TicksIn(start % TWO_32, ops) == Before(start, times, |ops|) - start
    ensures LastTick(start % TWO_32, ops) == Before(start, times, |ops|) % TWO_32
  {
    if ops != [] {
      var n := |ops| - 1;
      assert forall i | 0 <= i <= n :: Before(start, times[..n], i) == Before(start, times, i);
      TicksAreTrue(start, times[..n], ops[..n]);
      TicksOnce(Before(start, times, n), times[n]);
      hide Elapsed;
    }
  }

  /** The time before operation `i`. */
  function Before(start: nat, times: seq<nat>, i: nat): nat {
    if 0 < i <= |times| then times[i - 1] else start
  }

  /** Two tick numbers of a clock say how many ticks have gone by. */
  lemma TicksOnce(last: nat, now: nat)
    requires last <= now <= last + INT_MAX
    ensures Elapsed(last % TWO_32, now % TWO_32) == now - last
    ensures now == last ==> now % TWO_32 == last % TWO_32
  {
    LaterTicks(last, 0, now - last);
  }

  /** What may be used over some ticks: the maximum and the rate for each of them. */
  function Allowance(cfg: Cfg, d: Dir, ticks: nat): int {
    cfg.Maximum(d) + ticks * cfg.Rate(d)
  }

  lemma AllowanceMore(cfg: Cfg, d: Dir, ticks: nat, n: nat)
    ensures Allowance(cfg, d, ticks + n) == Allowance(cfg, d, ticks) + n * cfg.Rate(d)
  {
    assert (ticks + n) * cfg.Rate(d) == ticks * cfg.Rate(d) + n * cfg.Rate(d);
  }

  /** How far a group may have gone in one direction: what was used and what is left are covered by what
      there was at the start and what came in, and the limit is not below one minus the minimum share. */
  ghost predicate Covered(s: Standing, cfg: Cfg, minShare: nat, d: Dir, ticks: nat) {
    && s.bucket.Limit(d) <= cfg.Maximum(d)
    && s.bucket.Limit(d) >= Min(0, 1 - minShare)
    && (!s.Held(d) ==> s.bucket.Limit(d) >= Min(1, minShare))
    && s.Total(d) + s.bucket.Limit(d) <= Allowance(cfg, d, ticks)
  }

  lemma SpentCovered(s: Standing, cfg: Cfg, minShare: nat, e: Dir, wish: nat, d: Dir, ticks: nat)
    requires Covered(s, cfg, minShare, d, ticks)
    ensures Covered(Spent(s, e, Given(s, e, wish, minShare)), cfg, minShare, d, ticks)
  {
    if d == e && !s.Held(d) && s.members > 0 {
      ShareBound(s.bucket.Limit(d), s.members, minShare, Given(s, d, wish, minShare));
    }
  }

  lemma SpentTick(s: Standing, d: Dir, n: nat)
    ensures Spent(s, d, n).bucket.lastUpdated == s.bucket.lastUpdated
  {
  }

  lemma RefilledCovered(s: Standing, cfg: Cfg, minShare: nat, tick: nat, d: Dir, ticks: nat)
    requires Covered(s, cfg, minShare, d, ticks)
    ensures Covered(Refilled(s, tick, cfg, minShare), cfg, minShare, d, ticks + Elapsed(s.bucket.lastUpdated, tick))
  {
    hide Updated;
    hide Elapsed;
    hide Allowance;
    UpdatedNoLess(s.bucket, cfg, tick, d);
    AllowanceMore(cfg, d, ticks, Elapsed(s.bucket.lastUpdated, tick));
  }

  /** Over any run with fixed settings in which no member uses more than its share, a group that is not
      suspended has something to give out if the minimum share is not zero, the limit stays above minus that
      share, and over `T` ticks no more than the maximum, `T` times the rate and the minimum share less one is
      used. */
  lemma {:induction false} UsedBound(cfg: Cfg, tick: nat, minShare: nat, ops: seq<Op>, d: Dir)
    requires cfg.Ok()
    ensures var s, ticks := Standings(cfg, tick, minShare, ops), TicksIn(tick, ops);
      && Covered(s, cfg, minShare, d, ticks) && s.bucket.lastUpdated == LastTick(tick, ops)
      && s.Total(d) <= cfg.Maximum(d) + ticks * cfg.Rate(d) + Max(minShare - 1, 0)
      && s.bucket.Limit(d) >= Min(0, 1 - minShare)
      && (minShare >= 1 ==> s.Up(d))
  {
    hide Spent;
    hide Given;
    if ops != [] {
      var op, rest := ops[|ops| - 1], ops[..|ops| - 1];
      UsedBound(cfg, tick, minShare, rest, d);
      var s, ticks := Standings(cfg, tick, minShare, rest), TicksIn(tick, rest);
      match op {
        case OpTransfer(_, e, wish) =>
          SpentCovered(s, cfg, minShare, e, wish, d, ticks);
          SpentTick(s, e, Given(s, e, wish, minShare));
        case OpRefill(t) => RefilledCovered(s, cfg, minShare, t, d, ticks);
        case _ =>
      }
    }
  }

  method Do(g: Group, op: Op)
    requires g.Valid() && Allowed(g, op)
    modifies g
    ensures g.Valid() && g.cfg == old(g.cfg) && g.minShare == old(g.minShare)
    ensures StandingOf(g) == Next(old(StandingOf(g)), op, g.cfg, g.minShare)
    ensures op.OpTransfer? ==>
      var bytes := g.On(op.d).total - old(g.On(op.d)).total;
      && 0 <= bytes <= op.wish && g.Limit(op.d) == old(g.Limit(op.d)) - bytes
      && (!old(g.On(op.d)).suspended && bytes < op.wish ==> bytes >= g.minShare)
    ensures op.OpRefill? ==> g.bucket == Updated(old(g.bucket), g.cfg, op.tick)
    ensures |g.members| == |old(g.members)| + if op.OpJoin? then 1 else if op.OpLeave? then -1 else 0
  {
    hide Group.Valid;
    hide Spent;
    hide Given;
    hide Refilled;
    match op
    case OpTransfer(i, d, wish) => var bytes := Transfer(g, i, d, wish);
    case OpRefill(tick) => RefillGroup(g, tick);
    case OpJoin(id) => Join(g, id);
    case OpFinishJoin(i) => FinishJoin(g, i);
    case OpLeave(i, unsuspend) => var gone := Leave(g, i, unsuspend);
    case OpSetLocked(i, locked) => SetLocked(g, i, locked);
  }

  /** A run of a group, whatever locks other threads hold, does to its numbers what the operations say, so
      that they are within their bounds; and when nobody has to be told any more, nobody is held up. */
  method Run(cfg: Cfg, tick: nat, share: nat, ops: seq<Op>) returns (g: Group, n: nat)
    requires cfg.Ok() && tick < TWO_32
    ensures g.Valid() && n <= |ops| && (n < |ops| ==> !Allowed(g, ops[n]))
    ensures g.minShare == Smallest(if share > SSIZE_MAX then 64 else share, cfg.readRate, cfg.writeRate)
    ensures StandingOf(g) == Standings(cfg, tick, g.minShare, ops[..n])
    ensures forall d :: g.On(d).total <= cfg.Maximum(d) + TicksIn(tick, ops[..n]) * cfg.Rate(d) + Max(g.minShare - 1, 0)
    ensures forall d :: g.Limit(d) >= Min(0, 1 - g.minShare)
    ensures forall d :: share >= 1 && !g.On(d).suspended ==> g.Limit(d) > 0
    ensures forall d :: g.On(d).pending ==> !g.On(d).suspended
    ensures forall d, i | 0 <= i < |g.members| :: !g.On(d).suspended && !g.On(d).pending ==> !g.members[i].On(d).suspended
  {
    hide Next;
    g := new Group(cfg, tick);
    var r := SetMinShare(g, share);
    n := 0;
    while n < |ops| && Allowed(g, ops[n])
      invariant n <= |ops| && fresh(g) && g.Valid() && g.cfg == cfg
      invariant g.minShare == Smallest(if share > SSIZE_MAX then 64 else share, cfg.readRate, cfg.writeRate)
      invariant StandingOf(g) == Standings(cfg, tick, g.minShare, ops[..n])
    {
      Do(g, ops[n]);
      assert ops[..n + 1][..n] == ops[..n];
      n := n + 1;
    }
    InBounds(g, cfg, tick, ops[..n]);
  }

  lemma InBounds(g: Group, cfg: Cfg, tick: nat, ops: seq<Op>)
    requires g.Valid() && cfg.Ok() && StandingOf(g) == Standings(cfg, tick, g.minShare, ops)
    ensures forall d :: g.On(d).total <= cfg.Maximum(d) + TicksIn(tick, ops) * cfg.Rate(d) + Max(g.minShare - 1, 0)
    ensures forall d :: g.Limit(d) >= Min(0, 1 - g.minShare)
    ensures forall d :: g.minShare >= 1 && !g.On(d).suspended ==> g.Limit(d) > 0
    ensures forall d :: g.On(d).pending ==> !g.On(d).suspended
    ensures forall d, i | 0 <= i < |g.members| :: !g.On(d).suspended && !g.On(d).pending ==> !g.members[i].On(d).suspended
  {
    forall d: Dir
      ensures g.On(d).total <= cfg.Maximum(d) + TicksIn(tick, ops) * cfg.Rate(d) + Max(g.minShare - 1, 0)
      ensures g.Limit(d) >= Min(0, 1 - g.minShare) && (g.minShare >= 1 && !g.On(d).suspended ==> g.Limit(d) > 0)
    {
      UsedBound(cfg, tick, g.minShare, ops, d);
    }
  }
}
