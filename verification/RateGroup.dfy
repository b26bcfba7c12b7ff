/** `bufferevent_ratelim.c`: bufferevents that share a rate limit, with locks that may be taken. */
module RateGroup {
  import opened TokenBucket

  /** Whether the group has suspended a member in one direction; `due` when the member was told so as it
      joined and has yet to do it. */
  datatype Hold = Hold(suspended: bool, due: bool)

  /** A member; `locked` while another thread holds its lock. */
  datatype Member = Member(id: nat, locked: bool, read: Hold, write: Hold)
  {
    function On(d: Dir): Hold {
      if d.Read? then read else write
    }

    function With(d: Dir, h: Hold): Member {
      if d.Read? then this.(read := h) else this.(write := h)
    }
  }

  /** What a group knows of one direction. */
  datatype Side = Side(suspended: bool, pending: bool, total: int)

  /** Who is suspended in a direction, and whether anybody still has to be told. */
  ghost predicate SideOk(s: Side, d: Dir, limit: int, members: seq<Member>) {
    && (!s.suspended ==> limit >= 0)
    && (s.pending ==> !s.suspended)
    && (!s.suspended && !s.pending ==> forall i | 0 <= i < |members| :: members[i].On(d) == Hold(false, false))
  }

  ghost predicate MembersOk(members: seq<Member>) {
    forall i | 0 <= i < |members| :: members[i].read.due || members[i].write.due ==> members[i].locked
  }

  /** `struct bufferevent_rate_limit_group`. */
  class Group {
    var bucket: Bucket
    var cfg: Cfg
    var configuredMinShare: nat
    var minShare: nat
    var read: Side
    var write: Side
    var members: seq<Member>
    var nMembers: int

    function On(d: Dir): Side
      reads this
    {
      if d.Read? then read else write
    }

    function Limit(d: Dir): int
      reads this
    {
      bucket.Limit(d)
    }

    ghost predicate Settings()
      reads this
    {
      cfg.Ok() && bucket.Ok(cfg) && minShare <= SSIZE_MAX && configuredMinShare <= SSIZE_MAX
    }

    ghost predicate Valid()
      reads this
    {
      && Settings() && nMembers == |members| && MembersOk(members)
      && SideOk(read, Read, Limit(Read), members) && SideOk(write, Write, Limit(Write), members)
    }

    /** `bufferevent_rate_limit_group_new`. */
    constructor (cfg: Cfg, tick: nat)
      requires cfg.Ok() && tick < TWO_32
      ensures Valid() && this.cfg == cfg && members == []
      ensures minShare == Smallest(64, cfg.readRate, cfg.writeRate)
      ensures bucket == Bucket(cfg.readRate, cfg.writeRate, tick)
      ensures read == Side(false, false, 0) && write == Side(false, false, 0)
    {
      this.cfg := cfg;
      bucket := Bucket(cfg.readRate, cfg.writeRate, tick);
      configuredMinShare := 64;
      minShare := Smallest(64, cfg.readRate, cfg.writeRate);
      read, write := Side(false, false, 0), Side(false, false, 0);
      members, nMembers := [], 0;
    }
  }

  function Other(d: Dir): Dir {
    if d.Read? then Write else Read
  }

  function Smallest(share: nat, a: nat, c: nat): nat {
    if share > a then (if a > c then c else a) else if share > c then c else share
  }

  /** Everything but one direction's side and the members is as before. */
  twostate predicate Only(g: Group, d: Dir)
    reads g
  {
    && g.bucket == old(g.bucket) && g.cfg == old(g.cfg) && g.minShare == old(g.minShare)
    && g.configuredMinShare == old(g.configuredMinShare) && g.nMembers == old(g.nMembers)
    && |g.members| == |old(g.members)| && g.On(d).total == old(g.On(d)).total
    && (if d.Read? then g.write == old(g.write) else g.read == old(g.read))
    && forall i | 0 <= i < |g.members| ::
         g.members[i] == old(g.members)[i].With(d, Hold(g.members[i].On(d).suspended, old(g.members)[i].On(d).due))
  }

  /** `EVLOCK_TRY_LOCK_`: fails when another thread has the lock. */
  method TryLock(m: Member) returns (got: bool)
    ensures got <==> !m.locked
  {
    got := !m.locked;
  }

  /** One round of the loops over all members. */
  method SetMember(g: Group, d: Dir, i: nat, suspended: bool)
    requires i < |g.members|
    modifies g`members
    ensures g.members == old(g.members)[i := old(g.members)[i].With(d, Hold(suspended, old(g.members)[i].On(d).due))]
  {
    g.members := g.members[i := g.members[i].With(d, Hold(suspended, g.members[i].On(d).due))];
  }

  method SetSide(g: Group, d: Dir, s: Side)
    modifies g`read, g`write
    ensures g.On(d) == s && (if d.Read? then g.write == old(g.write) else g.read == old(g.read))
  {
    if d.Read? {
      g.read := s;
    } else {
      g.write := s;
    }
  }

  /** Members have changed in the other direction only. */
  lemma OtherSide(s: Side, e: Dir, limit: int, was: seq<Member>, members: seq<Member>)
    requires |was| == |members| && SideOk(s, e, limit, was)
    requires forall i | 0 <= i < |was| :: members[i].On(e) == was[i].On(e)
    ensures SideOk(s, e, limit, members)
  {
  }

  /** The loop over all members of a group that is suspended. */
  method SuspendAll(g: Group, d: Dir)
    requires MembersOk(g.members)
    modifies g`members
    ensures |g.members| == |old(g.members)| && MembersOk(g.members)
    ensures forall j | 0 <= j < |g.members| ::
              g.members[j] == old(g.members)[j].With(d, Hold(g.members[j].On(d).suspended, old(g.members)[j].On(d).due))
    ensures forall j | 0 <= j < |g.members| ::
              g.members[j].On(d).suspended == (old(g.members)[j].On(d).suspended || !old(g.members)[j].locked)
  {
    ghost var was := g.members;
    var i := 0;
    while i < |g.members|
      invariant i <= |g.members| == |was|
      invariant forall j | 0 <= j < |was| ::
                  g.members[j] == was[j].With(d, Hold(g.members[j].On(d).suspended, was[j].On(d).due))
      invariant forall j | 0 <= j < |was| ::
                  g.members[j].On(d).suspended == (was[j].On(d).suspended || (j < i && !was[j].locked))
    {
      var got := TryLock(g.members[i]);
      if got {
        SetMember(g, d, i, true);
      }
      i := i + 1;
    }
  }

  /** `bev_group_suspend_reading_` and `bev_group_suspend_writing_`: whoever can be locked is suspended. */
  method Suspend(g: Group, d: Dir)
    requires g.Settings() && g.nMembers == |g.members| && MembersOk(g.members)
    requires SideOk(g.On(Other(d)), Other(d), g.Limit(Other(d)), g.members)
    modifies g`read, g`write, g`members
    ensures g.Valid() && Only(g, d) && g.On(d).suspended
    ensures !g.On(d).pending
    ensures forall i | 0 <= i < |g.members| ::
              g.members[i].On(d).suspended == (old(g.members)[i].On(d).suspended || !old(g.members)[i].locked)
  {
    ghost var was := g.members;
    SetSide(g, d, g.On(d).(suspended := true, pending := false));
    SuspendAll(g, d);
    OtherSide(g.On(Other(d)), Other(d), g.Limit(Other(d)), was, g.members);
  }

  /** The part of a loop of `FOREACH_RANDOM_ORDER` from one member to another. */
  method UnsuspendSome(g: Group, d: Dir, lo: nat, hi: nat, again0: bool) returns (again: bool)
    requires lo <= hi <= |g.members| && MembersOk(g.members)
    modifies g`members
    ensures |g.members| == |old(g.members)| && MembersOk(g.members)
    ensures again <==> again0 || exists j | lo <= j < hi :: old(g.members)[j].locked
    ensures forall j | 0 <= j < |g.members| ::
              g.members[j] == old(g.members)[j].With(d, Hold(g.members[j].On(d).suspended, old(g.members)[j].On(d).due))
    ensures forall j | 0 <= j < |g.members| && !(lo <= j < hi) :: g.members[j] == old(g.members)[j]
    ensures forall j | lo <= j < hi ::
              g.members[j].On(d).suspended == (old(g.members)[j].On(d).suspended && old(g.members)[j].locked)
  {
    again := again0;
    ghost var was := g.members;
    var i := lo;
    while i < hi
      invariant lo <= i <= hi && |g.members| == |was|
      invariant again <==> again0 || exists j | lo <= j < i :: was[j].locked
      invariant forall j | 0 <= j < |was| ::
                  g.members[j] == was[j].With(d, Hold(g.members[j].On(d).suspended, was[j].On(d).due))
      invariant forall j | 0 <= j < |was| && !(lo <= j < i) :: g.members[j] == was[j]
      invariant forall j | lo <= j < i ::
                  g.members[j].On(d).suspended == (was[j].On(d).suspended && was[j].locked)
    {
      var got := TryLock(g.members[i]);
      if got {
        SetMember(g, d, i, false);
      } else {
        again := true;
      }
      i := i + 1;
    }
  }

  /** `bev_group_unsuspend_reading_` and `bev_group_unsuspend_writing_`: whoever can be locked is resumed,
      and the others are told at the next tick. */
  method Unsuspend(g: Group, d: Dir)
    requires g.Settings() && g.nMembers == |g.members| && MembersOk(g.members)
    requires SideOk(g.On(Other(d)), Other(d), g.Limit(Other(d)), g.members)
    requires g.Limit(d) >= 0
    modifies g`read, g`write, g`members
    ensures g.Valid() && Only(g, d) && !g.On(d).suspended
    ensures g.On(d).pending <==> exists i | 0 <= i < |g.members| :: old(g.members)[i].locked
    ensures forall i | 0 <= i < |g.members| ::
              g.members[i].On(d).suspended == (old(g.members)[i].On(d).suspended && old(g.members)[i].locked)
  {
    ghost var was := g.members;
    SetSide(g, d, g.On(d).(suspended := false));
    var again := false;
    if |g.members| > 0 {
      var first := *;
      if !(0 <= first < |g.members|) {
        first := 0;
      }
      again := UnsuspendSome(g, d, first, |g.members|, again);
      again := UnsuspendSome(g, d, 0, first, again);
    }
    SetSide(g, d, g.On(d).(pending := again));
    OtherSide(g.On(Other(d)), Other(d), g.Limit(Other(d)), was, g.members);
  }
}
