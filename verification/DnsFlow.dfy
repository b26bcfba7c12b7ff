/** `evdns.c`: requests enter the lists, move from waiting to in flight, and leave. */
module DnsFlow {
  import opened Basics
  import opened NatLists
  import opened DnsLinks
  import opened DnsQueues
  import opened DnsServers
  import opened DnsRoutes
  import opened DnsRequests

  /** The servers after the number of requests of one of them has changed. */
  function Counted(servers: seq<Server>, s: int, d: int): seq<Server> {
    if 0 <= s < |servers| then servers[s := servers[s].(inflight := servers[s].inflight + d)] else servers
  }

  lemma NotCounted(servers: seq<Server>)
    ensures Counted(servers, NULL, -1) == servers
  {
  }

  lemma CountedGood(servers: seq<Server>, s: int, d: int)
    ensures Good(Counted(servers, s, d)) == Good(servers) && SameHealth(servers, Counted(servers, s, d))
  {
    GoodSame(servers, Counted(servers, s, d));
  }

  /** The records after a request has got a place or lost it. */
  lemma PlaceOk(reqs: seq<Request>, servers: seq<Server>, owner: seq<int>, n: nat, r: nat, q: Request)
    requires RecordsOk(reqs, servers, owner, n) && r < |reqs| && NULL <= q.ns < |servers|
    requires q.queued && q.ns != NULL ==> q.transId < NO_ID
    ensures var before, after := if reqs[r].queued then reqs[r].ns else NULL, if q.queued then q.ns else NULL;
      RecordsOk(reqs[r := q], Counted(Counted(servers, before, -1), after, 1), owner[r := Place(q, n)], n)
  {
    var before, after := if reqs[r].queued then reqs[r].ns else NULL, if q.queued then q.ns else NULL;
    forall s | 0 <= s < |servers|
      ensures Load(reqs[r := q], s) == servers[s].inflight + One(s == after) - One(s == before)
    {
      LoadStep(reqs, r, q, s);
    }
  }

  /** How many requests the buckets hold, after one of them has changed. */
  lemma BucketLengths(lists: seq<seq<nat>>, w: nat, l: seq<nat>)
    requires 0 < |lists| && w < |lists|
    ensures Lengths(lists[w := l][1..]) == if w == 0 then Lengths(lists[1..]) else Lengths(lists[1..]) - |lists[w]| + |l|
    ensures |lists[w := l][0]| == if w == 0 then |l| else |lists[0]|
  {
    if w == 0 {
      assert lists[w := l][1..] == lists[1..];
    } else {
      LengthsStep(lists[1..], w - 1, l);
      assert lists[w := l][1..] == lists[1..][w - 1 := l];
    }
  }

  lemma Shape(b: DnsBase)
    requires b.Valid()
    ensures |b.heads| == |b.lists| > 1 && |b.owner| == |b.reqs|
    ensures forall r | 0 <= r < |b.reqs| :: b.owner[r] == Place(b.reqs[r], |b.heads| - 1) && NULL <= b.reqs[r].ns < |b.servers|
    ensures b.waiting == |b.lists[0]|
  {
  }

  /** A request gets its place at the end of a list: the part of `request_submit` before it is sent. */
  method Enter(b: DnsBase, r: nat) returns (w: nat)
    requires b.Valid() && r < |b.reqs| && !b.reqs[r].queued
    requires b.reqs[r].ns != NULL ==> b.reqs[r].transId < NO_ID
    modifies b`next, b`prev, b`heads, b`lists, b`owner, b`reqs, b`servers, b`inflight, b`waiting
    ensures b.Valid() && |b.heads| == |old(b.heads)| && SameHealth(old(b.servers), b.servers)
    ensures b.reqs == old(b.reqs)[r := old(b.reqs)[r].(queued := true)] && w == Place(b.reqs[r], |b.heads| - 1)
    ensures w < |old(b.lists)| && b.lists == old(b.lists)[w := old(b.lists)[w] + [r]]
    ensures b.inflight == old(b.inflight) + One(w != 0) && b.waiting == old(b.waiting) + One(w == 0)
  {
    hide LinksOk;
    hide RecordsOk;
    hide Good;
    Shape(b);
    var q := b.reqs[r].(queued := true);
    ghost var reqs, servers, owner, lists := b.reqs, b.servers, b.owner, b.lists;
    var n := |b.heads| - 1;
    PlaceOk(reqs, servers, owner, n, r, q);
    if b.reqs[r].ns != NULL {
      w := 1 + b.reqs[r].transId % n;
      Insert(b, r, w);
      b.inflight := b.inflight + 1;
      b.servers := Counted(b.servers, b.reqs[r].ns, 1);
    } else {
      w := 0;
      Insert(b, r, w);
      b.waiting := b.waiting + 1;
    }
    b.reqs := b.reqs[r := q];
    CountedGood(servers, q.ns, 1);
    BucketLengths(lists, w, lists[w] + [r]);
  }

  /** A request loses its place: the part of `request_finished` before the waiting list is pumped. */
  method Leave(b: DnsBase, r: nat, w: nat)
    requires b.Valid() && r < |b.reqs| && b.reqs[r].queued && w == Place(b.reqs[r], |b.heads| - 1)
    modifies b`next, b`prev, b`heads, b`lists, b`owner, b`reqs, b`servers, b`inflight, b`waiting
    ensures b.Valid() && |b.heads| == |old(b.heads)|
    ensures b.reqs == old(b.reqs)[r := old(b.reqs)[r].(queued := false)]
    ensures w < |old(b.lists)| && r in old(b.lists)[w] && b.lists == old(b.lists)[w := Without(old(b.lists)[w], r)]
    ensures b.inflight == old(b.inflight) - One(w != 0) && b.waiting == old(b.waiting) - One(w == 0)
    ensures SameHealth(old(b.servers), b.servers)
  {
    hide LinksOk;
    hide RecordsOk;
    hide Good;
    Shape(b);
    var q := b.reqs[r].(queued := false);
    ghost var reqs, servers, owner, lists := b.reqs, b.servers, b.owner, b.lists;
    PlaceOk(reqs, servers, owner, |b.heads| - 1, r, q);
    Remove(b, r, w);
    if w != 0 {
      b.inflight := b.inflight - 1;
      b.servers := Counted(b.servers, b.reqs[r].ns, -1);
    } else {
      b.waiting := b.waiting - 1;
    }
    b.reqs := b.reqs[r := q];
    CountedGood(servers, q.ns, -1);
    BucketLengths(lists, w, Without(lists[w], r));
    WithoutLength(lists[w], r);
  }

  lemma WithoutLength(l: seq<nat>, r: nat)
    requires r in l
    ensures |Without(l, r)| == |l| - 1
  {
  }

  lemma FirstWaiting(b: DnsBase)
    requires b.Valid() && b.waiting > 0
    ensures |b.heads| == |b.lists| > 1 && b.lists[0] != [] && b.heads[0] == b.lists[0][0]
    ensures var r := b.lists[0][0];
      r < |b.reqs| && b.reqs[r].queued && b.reqs[r].ns == NULL && b.owner[r] == 0 && Without(b.lists[0], r) == b.lists[0][1..]
  {
    HeadOf(b, 0);
    var l := b.lists[0];
    assert Owned(l, b.owner, 0) && l[0] in l;
    assert Removed(l, 0) == l[1..];
  }

  lemma PromotedLengths(lists: seq<seq<nat>>, w: nat, r: nat)
    requires 0 < w < |lists| && lists[0] != []
    ensures var ls := lists[0 := lists[0][1..]][w := lists[w] + [r]];
      |ls[0]| == |lists[0]| - 1 && Lengths(ls[1..]) == Lengths(lists[1..]) + 1
  {
    BucketLengths(lists, 0, lists[0][1..]);
    BucketLengths(lists[0 := lists[0][1..]], w, lists[w] + [r]);
  }

  /** The first waiting request goes to server `s`: the part of a round of
      `evdns_requests_pump_waiting_queue` before it is sent. */
  method Promote(b: DnsBase, s: int) returns (r: nat)
    requires b.Valid() && b.inflight < NO_ID && b.waiting > 0 && 0 <= s < |b.servers|
    modifies b`next, b`prev, b`heads, b`lists, b`owner, b`reqs, b`servers, b`inflight, b`waiting
    ensures b.Valid() && |b.heads| == |old(b.heads)| && |old(b.lists)| > 0
    ensures |old(b.lists)[0]| > 0 && r == old(b.lists)[0][0] && b.lists != [] && b.lists[0] == old(b.lists)[0][1..]
    ensures SameHealth(old(b.servers), b.servers)
    ensures r < |b.reqs| == |old(b.reqs)| && b.reqs == old(b.reqs)[r := b.reqs[r]]
    ensures old(b.reqs)[r].queued && old(b.reqs)[r].ns == NULL
    ensures b.reqs[r] == old(b.reqs)[r].(ns := s, transId := b.reqs[r].transId)
    ensures b.reqs[r].transId < NO_ID && !InFlight(old(b.reqs), b.reqs[r].transId)
    ensures b.inflight == old(b.inflight) + 1 && b.waiting == old(b.waiting) - 1
  {
    hide LinksOk;
    hide RecordsOk;
    hide Good;
    hide InFlight;
    hide Without;
    hide Counted;
    hide Lengths;
    Shape(b);
    FirstWaiting(b);
    var id := TransactionIdPick(b);
    ghost var reqs, servers, owner, lists := b.reqs, b.servers, b.owner, b.lists;
    var n := |b.heads| - 1;
    r := b.heads[0];
    var q := b.reqs[r].(ns := s, transId := id);
    var w := 1 + id % n;
    PlaceOk(reqs, servers, owner, n, r, q);
    NotCounted(servers);
    b.servers := Counted(b.servers, s, 1);
    Remove(b, r, 0);
    b.waiting := b.waiting - 1;
    b.inflight := b.inflight + 1;
    b.reqs := b.reqs[r := q];
    Insert(b, r, w);
    CountedGood(servers, s, 1);
    PromotedLengths(lists, w, r);
    assert b.owner == owner[r := w];
  }

  // ---- sending what waits to be sent

  /** The network fails for some request. */
  ghost predicate Breaks(net: nat -> Outcome) {
    exists r: nat :: net(r).Broken?
  }

  /** Those of these requests that are marked have been handed to the network, and no other has. */
  ghost predicate Sending(reqs: seq<Request>, reqs': seq<Request>, done: seq<nat>, net: nat -> Outcome) {
    && |reqs'| == |reqs|
    && forall r | 0 <= r < |reqs| ::
         if r in done && reqs[r].transmitMe then Tried(reqs[r], reqs'[r], net(r).Later?, Breaks(net))
         else Switched(reqs[r], reqs'[r], Breaks(net))
  }

  lemma FailuresTwice(a: seq<Server>, m: seq<Server>, c: seq<Server>, broken: bool)
    requires FailuresOnly(a, m, broken) && FailuresOnly(m, c, broken)
    ensures FailuresOnly(a, c, broken)
  {
  }

  lemma FailuresMaybe(a: seq<Server>, c: seq<Server>, broken: bool, broken': bool)
    requires FailuresOnly(a, c, broken) && (broken ==> broken')
    ensures FailuresOnly(a, c, broken')
  {
  }

  lemma HealthyStill(a: seq<Server>, c: seq<Server>, broken: bool)
    requires SameHealth(a, c)
    ensures FailuresOnly(a, c, broken)
  {
  }

  lemma SendingMore(reqs: seq<Request>, m: seq<Request>, reqs': seq<Request>, done: seq<nat>, net: nat -> Outcome, r: nat)
    requires Sending(reqs, m, done, net) && r < |reqs| == |reqs'| && r !in done && Flies(m[r])
    requires if m[r].transmitMe then
        && Tried(m[r], reqs'[r], net(r).Later?, net(r).Broken?)
        && forall j | 0 <= j < |m| && j != r :: Switched(m[j], reqs'[j], net(r).Broken?)
      else reqs' == m
    ensures Sending(reqs, reqs', done + [r], net)
  {
  }

  /** The walk of `evdns_transmit` round one bucket. */
  method TransmitBucket(b: DnsBase, w: nat, net: nat -> Outcome, ghost reqs: seq<Request>, ghost done: seq<nat>)
    requires b.Valid() && 0 < w < |b.heads| == |b.lists|
    requires Sending(reqs, b.reqs, done, net) && forall r | r in done :: r !in b.lists[w]
    modifies b`reqs, b`servers, b`serverHead, b`good
    ensures b.Valid() && SameLists(b) && Sending(reqs, b.reqs, done + b.lists[w], net)
    ensures FailuresOnly(old(b.servers), b.servers, Breaks(net)) && (!Breaks(net) ==> b.serverHead == old(b.serverHead))
  {
    hide LinksOk;
    hide RecordsOk;
    hide Good;
    hide FailedOf;
    hide Sending;
    hide Breaks;
    hide Distinct;
    hide FailuresOnly;
    ghost var l := b.lists[w];
    HeadOf(b, w);
    var req := b.heads[w];
    var startedAt := req;
    HealthyStill(b.servers, b.servers, Breaks(net));
    assert done + [] == done;
    if req == NULL {
      return;
    }
    ghost var k := 0;
    while true
      invariant k < |l| && req == l[k] && startedAt == l[0]
      invariant b.Valid() && SameLists(b) && Sending(reqs, b.reqs, done + l[..k], net)
      invariant FailuresOnly(old(b.servers), b.servers, Breaks(net))
      invariant !Breaks(net) ==> b.serverHead == old(b.serverHead)
      decreases |l| - k
    {
      ListFacts(b, w, k);
      NotYet(l, k, done);
      ghost var m, servers := b.reqs, b.servers;
      if b.reqs[req].transmitMe {
        var res := Transmit(b, req, net(req));
        BreaksFor(net, req);
        FailuresMaybe(servers, b.servers, net(req).Broken?, Breaks(net));
        FailuresTwice(old(b.servers), servers, b.servers, Breaks(net));
      }
      SendingLength(reqs, m, done + l[..k], net);
      SendingMore(reqs, m, b.reqs, done + l[..k], net, req);
      assert done + l[..k] + [req] == done + l[..k + 1];
      LinkAt(b.next, b.prev, b.heads[w], l, k);
      OnceOnly(b, w, k);
      req := b.next[req];
      if req == startedAt {
        break;
      }
      k := k + 1;
    }
    assert l[..k + 1] == l;
  }

  lemma BreaksFor(net: nat -> Outcome, r: nat)
    ensures net(r).Broken? ==> Breaks(net)
  {
  }

  lemma SendingLength(reqs: seq<Request>, m: seq<Request>, done: seq<nat>, net: nat -> Outcome)
    requires Sending(reqs, m, done, net)
    ensures |m| == |reqs|
  {
  }

  lemma NotYet(l: seq<nat>, k: nat, done: seq<nat>)
    requires Distinct(l) && k < |l| && l[k] !in done
    ensures l[k] !in done + l[..k]
  {
  }

  /** `evdns_transmit`: exactly the requests in flight that are marked are handed to the network, once each. */
  method TransmitAll(b: DnsBase, net: nat -> Outcome)
    requires b.Valid()
    modifies b`reqs, b`servers, b`serverHead, b`good
    ensures b.Valid() && SameLists(b) && FailuresOnly(old(b.servers), b.servers, Breaks(net))
    ensures !Breaks(net) ==> b.serverHead == old(b.serverHead)
    ensures forall r | 0 <= r < |b.reqs| ::
              var q := old(b.reqs)[r];
              if Flies(q) && q.transmitMe then Tried(q, b.reqs[r], net(r).Later?, Breaks(net))
              else Switched(q, b.reqs[r], Breaks(net))
  {
    hide LinksOk;
    hide RecordsOk;
    hide Good;
    hide Breaks;
    hide FailuresOnly;
    OneList(b);
    InBuckets(b);
    ghost var reqs := b.reqs;
    HealthyStill(b.servers, b.servers, Breaks(net));
    var i := 1;
    while i < |b.heads|
      invariant 1 <= i <= |b.heads| == |b.lists| && b.Valid() && SameLists(b)
      invariant Sending(reqs, b.reqs, Joined(b.lists[1..i]), net)
      invariant !Breaks(net) ==> b.serverHead == old(b.serverHead)
      invariant FailuresOnly(old(b.servers), b.servers, Breaks(net))
    {
      hide Sending;
      EarlierApart(b, i);
      ghost var servers := b.servers;
      TransmitBucket(b, i, net, reqs, Joined(b.lists[1..i]));
      FailuresTwice(old(b.servers), servers, b.servers, Breaks(net));
      assert b.lists[1..i + 1][..i - 1] == b.lists[1..i];
      i := i + 1;
    }
    assert b.lists[1..i] == b.lists[1..];
  }

  lemma EarlierApart(b: DnsBase, i: nat)
    requires b.Valid() && 0 < i < |b.lists|
    ensures forall r | r in Joined(b.lists[1..i]) :: r !in b.lists[i]
  {
    forall r | r in Joined(b.lists[1..i])
      ensures r !in b.lists[i]
    {
      JoinedHas(b.lists[1..i], r);
      var j :| 0 <= j < i - 1 && r in b.lists[1..i][j];
      assert Owned(b.lists[i], b.owner, i) && Owned(b.lists[j + 1], b.owner, j + 1);
    }
  }

  // ---- requests that waited go out

  /** What the network does in one operation: with a request that has just come in flight, and in each round in
      which all that is marked is sent again. */
  datatype Network = Network(first: nat -> Outcome, pass: (nat, nat) -> Outcome)

  ghost predicate NetBreaks(net: Network) {
    (exists r: nat :: net.first(r).Broken?) || (exists j: nat, r: nat :: net.pass(j, r).Broken?)
  }

  /** The network did not take the request in any of the rounds from `i` on. */
  ghost predicate NotTaken(net: Network, r: nat, i: nat, k: nat) {
    forall j: nat | i <= j < k :: net.pass(j, r).Later?
  }

  /** A request that was in flight, after `k` rounds. */
  ghost predicate FlewOn(q: Request, q': Request, r: nat, k: nat, net: Network, broken: bool) {
    if q.transmitMe then Tried(q, q', NotTaken(net, r, 0, k), broken) else Switched(q, q', broken)
  }

  /** A request that has gone out in round `i`, after `k` rounds: it has an id and a server, and has been sent if the
      network took it. */
  ghost predicate WentOut(q: Request, q': Request, r: nat, i: nat, k: nat, net: Network) {
    && q' == q.(ns := q'.ns, transId := q'.transId, transmitMe := q'.transmitMe, txCount := q'.txCount)
    && q'.ns != NULL && q'.transId < NO_ID
    && q'.transmitMe == (net.first(r).Later? && NotTaken(net, r, i, k))
    && q'.txCount == q.txCount + One(!q'.transmitMe)
  }

  /** The first `k` that waited have gone out, in their order; those in flight have been sent if they were marked,
      and no other request has changed. */
  ghost predicate Pumped(reqs: seq<Request>, waiting: seq<nat>, reqs': seq<Request>, k: nat, net: Network, broken: bool) {
    && |reqs'| == |reqs| && k <= |waiting|
    && (forall r | 0 <= r < |reqs| && Flies(reqs[r]) :: FlewOn(reqs[r], reqs'[r], r, k, net, broken))
    && (forall i | 0 <= i < k :: waiting[i] < |reqs| && WentOut(reqs[waiting[i]], reqs'[waiting[i]], waiting[i], i, k, net))
    && (forall r | 0 <= r < |reqs| && !Flies(reqs[r]) && r !in waiting[..k] :: reqs'[r] == reqs[r])
  }

  lemma PumpedNone(reqs: seq<Request>, waiting: seq<nat>, net: Network)
    ensures Pumped(reqs, waiting, reqs, 0, net, NetBreaks(net))
  {
  }

  /** One more round: request `r` goes to server `s` and is sent, and then everything that is marked. */
  lemma PumpedMore(reqs: seq<Request>, waiting: seq<nat>, a: seq<Request>, k: nat, net: Network, r: nat,
                   m: seq<Request>, c: seq<Request>, d: seq<Request>)
    requires Pumped(reqs, waiting, a, k, net, NetBreaks(net)) && k < |waiting| && waiting[k] == r < |reqs| && r !in waiting[..k]
    requires |a| == |m| == |c| == |d| && !Flies(reqs[r]) && reqs[r].queued
    requires m == a[r := m[r]] && m[r] == a[r].(ns := m[r].ns, transId := m[r].transId) && m[r].ns != NULL && m[r].transId < NO_ID
    requires Tried(m[r], c[r], net.first(r).Later?, net.first(r).Broken?)
    requires forall j | 0 <= j < |m| && j != r :: Switched(m[j], c[j], net.first(r).Broken?)
    requires var pass := (j: nat) => net.pass(k, j);
      forall j | 0 <= j < |c| ::
        if Flies(c[j]) && c[j].transmitMe then Tried(c[j], d[j], pass(j).Later?, Breaks(pass)) else Switched(c[j], d[j], Breaks(pass))
    requires forall i | 0 <= i < k :: waiting[i] < |reqs| ==> reqs[waiting[i]].queued && !Flies(reqs[waiting[i]])
    ensures Pumped(reqs, waiting, d, k + 1, net, NetBreaks(net))
  {
    assert net.first(r).Broken? ==> NetBreaks(net);
    assert Breaks((j: nat) => net.pass(k, j)) ==> NetBreaks(net);
    forall j | 0 <= j < |reqs| && Flies(reqs[j])
      ensures FlewOn(reqs[j], d[j], j, k + 1, net, NetBreaks(net))
    {
      assert FlewOn(reqs[j], a[j], j, k, net, NetBreaks(net));
    }
    forall i | 0 <= i < k + 1
      ensures waiting[i] < |reqs| && WentOut(reqs[waiting[i]], d[waiting[i]], waiting[i], i, k + 1, net)
    {
      if i < k {
        assert waiting[i] in waiting[..k];
        assert WentOut(reqs[waiting[i]], a[waiting[i]], waiting[i], i, k, net);
      } else {
        assert a[r] == reqs[r];
      }
    }
    forall j | 0 <= j < |reqs| && !Flies(reqs[j]) && j !in waiting[..k + 1]
      ensures d[j] == reqs[j]
    {
      assert waiting[..k + 1] == waiting[..k] + [waiting[k]];
    }
  }

  /** These requests wait, once each. */
  ghost predicate AllWait(reqs: seq<Request>, waiting: seq<nat>) {
    && Distinct(waiting)
    && forall i | 0 <= i < |waiting| :: waiting[i] < |reqs| && reqs[waiting[i]].queued && !Flies(reqs[waiting[i]])
  }

  lemma WaitingAre(b: DnsBase)
    requires b.Valid()
    ensures |b.lists| > 0 && AllWait(b.reqs, b.lists[0])
  {
    var l := b.lists[0];
    assert Owned(l, b.owner, 0);
    assert forall i | 0 <= i < |l| :: l[i] in l;
  }

  lemma NextWaits(reqs: seq<Request>, waiting: seq<nat>, i: nat)
    requires AllWait(reqs, waiting) && i < |waiting|
    ensures waiting[i] < |reqs| && reqs[waiting[i]].queued && !Flies(reqs[waiting[i]]) && waiting[i] !in waiting[..i]
    ensures waiting[i..][0] == waiting[i] && waiting[i..][1..] == waiting[i + 1..] && waiting[..i + 1] == waiting[..i] + [waiting[i]]
    ensures forall j | 0 <= j < i :: waiting[j] < |reqs| ==> reqs[waiting[j]].queued && !Flies(reqs[waiting[j]])
  {
  }

  /** One round of `evdns_requests_pump_waiting_queue`, the next that waits for server `s`. */
  method PumpOne(b: DnsBase, s: int, i: nat, net: Network, ghost reqs: seq<Request>, ghost waiting: seq<nat>)
    requires b.Valid() && b.inflight < b.maxInflight && b.waiting > 0 && 0 <= s < |b.servers|
    requires Pumped(reqs, waiting, b.reqs, i, net, NetBreaks(net)) && AllWait(reqs, waiting) && i < |waiting|
    requires b.lists != [] && b.lists[0] == waiting[i..]
    modifies b
    ensures b.Valid() && SameQueued(b) && b.maxInflight == old(b.maxInflight)
    ensures b.lists != [] && b.lists[0] == waiting[i + 1..]
    ensures b.inflight == old(b.inflight) + 1 && b.waiting == old(b.waiting) - 1
    ensures Pumped(reqs, waiting, b.reqs, i + 1, net, NetBreaks(net)) && FailuresOnly(old(b.servers), b.servers, NetBreaks(net))
    ensures !NetBreaks(net) ==>
      && b.serverHead == old(b.serverHead) && waiting[i] < |b.reqs| && b.reqs[waiting[i]].ns == s
      && forall j | 0 <= j < |b.reqs| && j != waiting[i] :: b.reqs[j].ns == old(b.reqs)[j].ns
  {
    hide LinksOk;
    hide RecordsOk;
    hide Good;
    hide InFlight;
    hide FailedOf;
    hide FailuresOnly;
    hide Pumped;
    hide AllWait;
    hide Without;
    NextWaits(reqs, waiting, i);
    ghost var a, servers := b.reqs, b.servers;
    var r := Promote(b, s);
    Shape(b);
    HealthyStill(servers, b.servers, NetBreaks(net));
    ghost var m, servers1 := b.reqs, b.servers;
    var res := Transmit(b, r, net.first(r));
    ghost var c, servers2 := b.reqs, b.servers;
    var pass := (j: nat) => net.pass(i, j);
    TransmitAll(b, pass);
    PumpedMore(reqs, waiting, a, i, net, r, m, c, b.reqs);
    PumpFailures(net, r, i, servers, servers1, servers2, b.servers);
  }

  lemma PumpFailures(net: Network, r: nat, i: nat, a: seq<Server>, m: seq<Server>, c: seq<Server>, d: seq<Server>)
    requires FailuresOnly(a, m, NetBreaks(net)) && FailuresOnly(m, c, net.first(r).Broken?)
    requires FailuresOnly(c, d, Breaks((j: nat) => net.pass(i, j)))
    ensures FailuresOnly(a, d, NetBreaks(net))
  {
    assert net.first(r).Broken? ==> NetBreaks(net);
    assert Breaks((j: nat) => net.pass(i, j)) ==> NetBreaks(net);
  }

  /** Every request is in its place or not as before. */
  twostate predicate SameQueued(b: DnsBase)
    reads b
  {
    |b.reqs| == |old(b.reqs)| && forall r | 0 <= r < |b.reqs| :: b.reqs[r].queued == old(b.reqs)[r].queued
  }

  /** `evdns_requests_pump_waiting_queue`: requests that wait go out in their order, until enough are in
      flight or none waits; none is lost. */
  method Pump(b: DnsBase, net: Network) returns (k: nat)
    requires b.Valid()
    modifies b
    ensures b.Valid() && SameQueued(b) && b.maxInflight == old(b.maxInflight)
    ensures b.lists != [] && old(b.lists) != [] && k <= |old(b.lists)[0]| && b.lists[0] == old(b.lists)[0][k..]
    ensures b.inflight == old(b.inflight) + k && b.waiting == old(b.waiting) - k
    ensures k > 0 ==> b.inflight <= b.maxInflight
    ensures b.inflight >= b.maxInflight || b.waiting == 0 || b.servers == []
    ensures Pumped(old(b.reqs), old(b.lists)[0], b.reqs, k, net, NetBreaks(net))
    ensures FailuresOnly(old(b.servers), b.servers, NetBreaks(net))
    ensures !NetBreaks(net) ==>
      InTurn(States(b.servers), old(b.serverHead), b.serverHead, b.reqs, old(b.lists)[0][..k])
  {
    hide LinksOk;
    hide RecordsOk;
    hide Good;
    hide FailuresOnly;
    hide Pumped;
    hide AllWait;
    hide InTurn;
    hide IsPick;
    hide NetBreaks;
    k := 0;
    Shape(b);
    WaitingAre(b);
    ghost var reqs, waiting, servers := b.reqs, b.lists[0], b.servers;
    PumpedNone(reqs, waiting, net);
    HealthyStill(servers, servers, NetBreaks(net));
    NoneInTurn(States(servers), b.serverHead, reqs);
    assert waiting[..0] == [];
    while b.inflight < b.maxInflight && b.waiting != 0
      invariant b.Valid() && SameQueued(b) && b.maxInflight == old(b.maxInflight)
      invariant b.lists != [] && k <= |waiting| && b.lists[0] == waiting[k..]
      invariant b.inflight == old(b.inflight) + k && b.waiting == old(b.waiting) - k
      invariant k > 0 ==> b.inflight <= b.maxInflight
      invariant Pumped(reqs, waiting, b.reqs, k, net, NetBreaks(net)) && FailuresOnly(servers, b.servers, NetBreaks(net))
      invariant !NetBreaks(net) ==> InTurn(States(b.servers), old(b.serverHead), b.serverHead, b.reqs, waiting[..k])
      decreases b.waiting
    {
      Shape(b);
      ghost var head, m, servers1 := b.serverHead, b.reqs, b.servers;
      var s := NameserverPick(b);
      if b.servers != [] { PickInRange(States(b.servers), head, s); }
      if s == NULL {
        return;
      }
      NextWaits(reqs, waiting, k);
      PumpOne(b, s, k, net, reqs, waiting);
      FailuresTwice(servers, servers1, b.servers, NetBreaks(net));
      if !NetBreaks(net) {
        FailuresNone(servers1, b.servers);
        TurnMore(States(b.servers), old(b.serverHead), head, m, b.reqs, waiting[..k], waiting[k], s);
      }
      k := k + 1;
    }
  }

  lemma FailuresNone(servers: seq<Server>, servers': seq<Server>)
    requires FailuresOnly(servers, servers', false)
    ensures States(servers') == States(servers)
  {
  }

  /** `request_new`: when there is room the request gets an id and a server at once. */
  method RequestNew(b: DnsBase) returns (r: nat)
    requires b.Valid()
    modifies b`next, b`prev, b`reqs, b`owner, b`serverHead
    ensures b.Valid() && r == |old(b.reqs)| && |b.reqs| == r + 1 && b.reqs[..r] == old(b.reqs)
    ensures b.reqs[r] == Request(false, b.reqs[r].transId, b.reqs[r].ns, 0, false, 0)
    ensures b.reqs[r].ns == NULL <==> b.inflight >= b.maxInflight || b.servers == []
    ensures b.reqs[r].ns != NULL ==>
      IsPick(States(b.servers), old(b.serverHead), b.reqs[r].ns) && b.serverHead == HeadAfter(States(b.servers), b.reqs[r].ns)
    ensures b.reqs[r].ns == NULL ==> b.serverHead == old(b.serverHead)
    ensures b.inflight >= b.maxInflight ==> b.reqs[r].transId == NO_ID
    ensures b.inflight < b.maxInflight ==> b.reqs[r].transId < NO_ID && !InFlight(old(b.reqs), b.reqs[r].transId)
  {
    hide LinksOk;
    hide RecordsOk;
    hide Good;
    hide InFlight;
    var issuingNow := b.inflight < b.maxInflight;
    var id, s := NO_ID, NULL;
    if issuingNow {
      id := TransactionIdPick(b);
      s := NameserverPick(b);
    }
    r := |b.reqs|;
    Allocate(b, Request(false, id, s, 0, false, 0));
  }

  /** One more request that is on no list. */
  method Allocate(b: DnsBase, q: Request)
    requires b.Valid() && !q.queued && NULL <= q.ns < |b.servers|
    modifies b`next, b`prev, b`reqs, b`owner
    ensures b.Valid() && b.reqs == old(b.reqs) + [q]
  {
    ghost var next, prev, owner, reqs := b.next, b.prev, b.owner, b.reqs;
    b.next := b.next + [NULL];
    b.prev := b.prev + [NULL];
    b.owner := b.owner + [NULL];
    b.reqs := b.reqs + [q];
    forall w | 0 <= w < |b.lists|
      ensures Linked(b.next, b.prev, b.heads[w], b.lists[w]) && Owned(b.lists[w], b.owner, w)
    {
      assert Linked(next, prev, b.heads[w], b.lists[w]) && Owned(b.lists[w], owner, w);
      assert forall i | 0 <= i < |b.lists[w]| :: b.lists[w][i] in b.lists[w];
    }
    forall s | 0 <= s < |b.servers|
      ensures Load(b.reqs, s) == b.servers[s].inflight
    {
      LoadMore(reqs, q, s);
    }
  }

  /** `request_submit`: the request is sent at once if it has a server. */
  method Submit(b: DnsBase, r: nat, outcome: Outcome)
    requires b.Valid() && r < |b.reqs| && !b.reqs[r].queued
    requires b.reqs[r].ns != NULL ==> b.reqs[r].transId < NO_ID
    modifies b
    ensures b.Valid() && |b.reqs| == |old(b.reqs)| && |b.heads| == |old(b.heads)| > 1 && b.maxInflight == old(b.maxInflight)
    ensures forall j | 0 <= j < |b.reqs| && j != r :: Switched(old(b.reqs)[j], b.reqs[j], outcome.Broken?)
    ensures var q := old(b.reqs)[r].(queued := true);
      if Flies(q) then Tried(q, b.reqs[r], outcome.Later?, outcome.Broken?) else b.reqs[r] == q
    ensures FailuresOnly(old(b.servers), b.servers, outcome.Broken? && old(b.reqs)[r].ns != NULL)
    ensures !outcome.Broken? ==> b.serverHead == old(b.serverHead)
    ensures var w := Place(old(b.reqs)[r].(queued := true), |b.heads| - 1);
      && 0 <= w < |old(b.lists)| && b.lists == old(b.lists)[w := old(b.lists)[w] + [r]]
      && b.inflight == old(b.inflight) + One(w != 0) && b.waiting == old(b.waiting) + One(w == 0)
  {
    hide LinksOk;
    hide RecordsOk;
    hide Good;
    hide FailedOf;
    Shape(b);
    var w := Enter(b, r);
    Shape(b);
    if b.reqs[r].ns != NULL {
      var res := Transmit(b, r, outcome);
    }
  }

  /** A list of waiting requests without one that may be on it. */
  function Unless(l: seq<nat>, r: int): seq<nat> {
    if r >= 0 && r in l then Without(l, r) else l
  }

  /** What is left of a list when some of its first entries have gone. */
  predicate Rest(l': seq<nat>, l: seq<nat>) {
    |l'| <= |l| && l' == l[|l| - |l'|..]
  }

  /** No request waits that could be sent. */
  predicate Busy(b: DnsBase)
    reads b
  {
    b.inflight >= b.maxInflight || b.waiting == 0 || b.servers == []
  }

  lemma WaitsIf(b: DnsBase, r: nat)
    requires b.Valid() && r < |b.reqs|
    ensures |b.lists| > 0 && (r in b.lists[0] <==> b.reqs[r].queued && b.reqs[r].ns == NULL)
  {
    assert Owned(b.lists[0], b.owner, 0);
  }

  /** What is left when request `r` has ended and `k` that waited have gone out. */
  twostate predicate FinishedOne(b: DnsBase, r: nat, k: nat, net: Network)
    reads b
  {
    && r < |old(b.reqs)| && b.lists != [] && old(b.lists) != []
    && var waiting := Unless(old(b.lists)[0], r);
       && k <= |waiting| && b.lists[0] == waiting[k..]
       && Pumped(old(b.reqs)[r := old(b.reqs)[r].(queued := false)], waiting, b.reqs, k, net, NetBreaks(net))
       && FailuresOnly(old(b.servers), b.servers, NetBreaks(net))
       && (!NetBreaks(net) ==> InTurn(States(b.servers), old(b.serverHead), b.serverHead, b.reqs, waiting[..k]))
  }

  /** `request_finished`: the request leaves its list, and waiting ones may take its place. */
  method Finish(b: DnsBase, r: nat, w: nat, net: Network) returns (k: nat)
    requires b.Valid() && r < |b.reqs| && b.reqs[r].queued && w == Place(b.reqs[r], |b.heads| - 1)
    modifies b
    ensures b.Valid() && FinishedOne(b, r, k, net) && Busy(b) && b.maxInflight == old(b.maxInflight)
    ensures forall j | 0 <= j < |b.reqs| :: b.reqs[j].queued == (old(b.reqs)[j].queued && j != r)
    ensures b.inflight == old(b.inflight) - One(w != 0) + k && b.waiting == old(b.waiting) - One(w == 0) - k
  {
    hide LinksOk;
    hide RecordsOk;
    hide Good;
    hide Without;
    hide Pumped;
    hide InTurn;
    hide NetBreaks;
    WaitsIf(b, r);
    Leave(b, r, w);
    HealthyFailures(old(b.servers), b.servers);
    k := Pump(b, net);
  }

  lemma HealthyFailures(a: seq<Server>, m: seq<Server>)
    requires SameHealth(a, m)
    ensures States(m) == States(a)
    ensures forall c, broken :: FailuresOnly(m, c, broken) ==> FailuresOnly(a, c, broken)
  {
  }

  /** `evdns_cancel_request`, for a request that has not been answered: it leaves the list it is on. */
  method Cancel(b: DnsBase, r: nat, net: Network) returns (k: nat)
    requires b.Valid() && r < |b.reqs| && b.reqs[r].queued
    modifies b
    ensures b.Valid() && FinishedOne(b, r, k, net) && Busy(b) && b.maxInflight == old(b.maxInflight)
    ensures forall j | 0 <= j < |b.reqs| :: b.reqs[j].queued == (old(b.reqs)[j].queued && j != r)
    ensures b.inflight + b.waiting == old(b.inflight + b.waiting) - 1
  {
    hide LinksOk;
    hide RecordsOk;
    hide Good;
    hide Pumped;
    Shape(b);
    if b.reqs[r].ns != NULL {
      k := Finish(b, r, 1 + b.reqs[r].transId % (|b.heads| - 1), net);
    } else {
      k := Finish(b, r, 0, net);
    }
  }

  /** `request_reissue`: to the next server in the circle, to be sent again from the beginning; 1 when that is the
      same server as before. */
  method Reissue(b: DnsBase, r: nat) returns (res: int, t: int)
    requires b.Valid() && r < |b.reqs| && b.reqs[r].queued && b.reqs[r].ns != NULL
    modifies b`reqs, b`servers, b`serverHead
    ensures b.Valid() && SameLists(b) && SameHealth(old(b.servers), b.servers)
    ensures IsPick(States(b.servers), old(b.serverHead), t) && b.serverHead == HeadAfter(States(b.servers), t)
    ensures res == if t == old(b.reqs)[r].ns then 1 else 0
    ensures b.reqs == if res == 1 then old(b.reqs)
                      else old(b.reqs)[r := old(b.reqs)[r].(ns := t, reissues := old(b.reqs)[r].reissues + 1,
                                                            txCount := 0, transmitMe := true)]
  {
    hide LinksOk;
    hide RecordsOk;
    hide Good;
    hide IsPick;
    hide HeadAfter;
    IdIsSet(b, r);
    var lastNs := b.reqs[r].ns;
    t := NameserverPick(b);
    ghost var servers := b.servers;
    PickInRange(States(b.servers), old(b.serverHead), t);
    SwapNs(b, r, t);
    SameStates(servers, b.servers);
    if b.reqs[r].ns == lastNs {
      return 1, t;
    }
    var q := b.reqs[r].(reissues := b.reqs[r].reissues + 1, txCount := 0, transmitMe := true);
    FieldOk(b.reqs, b.servers, b.owner, |b.heads| - 1, r, q);
    b.reqs := b.reqs[r := q];
    res := 0;
  }

  /** `nameserver_send_probe`: a request that is forced in flight, to this server. */
  method SendProbe(b: DnsBase, s: nat, outcome: Outcome)
    requires b.Valid() && s < |b.servers| && b.inflight < NO_ID
    modifies b
    ensures b.Valid() && b.inflight == old(b.inflight) + 1 && |b.reqs| == |old(b.reqs)| + 1
    ensures forall j | 0 <= j < |old(b.reqs)| :: Switched(old(b.reqs)[j], b.reqs[j], outcome.Broken?)
    ensures var r := |old(b.reqs)|;
      && b.reqs[r].transId < NO_ID && !InFlight(old(b.reqs), b.reqs[r].transId)
      && Tried(Request(true, b.reqs[r].transId, s, 0, false, 0), b.reqs[r], outcome.Later?, outcome.Broken?)
    ensures FailuresOnly(old(b.servers), b.servers, outcome.Broken?)
    ensures b.lists != [] && old(b.lists) != [] && b.lists[0] == old(b.lists)[0] && b.waiting == old(b.waiting)
    ensures b.maxInflight == old(b.maxInflight)
  {
    hide LinksOk;
    hide RecordsOk;
    hide Good;
    hide InFlight;
    var r := RequestNew(b);
    var id := TransactionIdPick(b);
    FlyingSame(old(b.reqs), b.reqs, id);
    SetUnqueued(b, r, b.reqs[r].(transId := id, ns := s));
    Submit(b, r, outcome);
  }

  lemma FlyingSame(reqs: seq<Request>, reqs': seq<Request>, id: nat)
    requires |reqs| < |reqs'| && reqs'[..|reqs|] == reqs && !InFlight(reqs', id)
    ensures !InFlight(reqs, id)
  {
    assert forall r | 0 <= r < |reqs| :: reqs'[..|reqs|][r] == reqs'[r];
  }

  method SetUnqueued(b: DnsBase, r: nat, q: Request)
    requires b.Valid() && r < |b.reqs| && !b.reqs[r].queued && !q.queued && NULL <= q.ns < |b.servers|
    modifies b`reqs
    ensures b.Valid() && b.reqs == old(b.reqs)[r := q]
  {
    hide LinksOk;
    ghost var reqs := b.reqs;
    b.reqs := b.reqs[r := q];
    forall s | 0 <= s < |b.servers|
      ensures Load(b.reqs, s) == b.servers[s].inflight
    {
      LoadStep(reqs, r, q, s);
    }
  }
}