/** `evdns.c`: requests, their lists, the servers that work on them, and the counters. */
module DnsQueues {
  import opened Basics
  import opened NatLists
  import opened DnsLinks

  const NO_ID: nat := 0xffff
  const MAX_INFLIGHT: nat := 65000

  /** The parts of `struct request` that the lists depend on; `ns` is a server or NULL. */
  datatype Request = Request(queued: bool, transId: nat, ns: int, txCount: nat, transmitMe: bool, reissues: nat)

  /** The parts of `struct nameserver` that count. */
  datatype Server = Server(state: bool, inflight: int, failedTimes: nat, timedout: nat)

  /** The list a request belongs to: 0 is the waiting list, 1 + i is the bucket `i` of those in flight. */
  function Place(q: Request, n: nat): int
    requires n > 0
  {
    if !q.queued then NULL else if q.ns == NULL then 0 else 1 + q.transId % n
  }

  /** How many requests in flight a server has. */
  function Load(reqs: seq<Request>, s: int): nat {
    if reqs == [] then 0 else One(reqs[0].queued && reqs[0].ns == s) + Load(reqs[1..], s)
  }

  lemma {:induction false} LoadStep(reqs: seq<Request>, r: nat, q: Request, s: int)
    requires r < |reqs|
    ensures Load(reqs[r := q], s) + One(reqs[r].queued && reqs[r].ns == s) == Load(reqs, s) + One(q.queued && q.ns == s)
  {
    var reqs' := reqs[r := q];
    if r == 0 {
      assert reqs'[1..] == reqs[1..];
    } else {
      LoadStep(reqs[1..], r - 1, q, s);
      assert reqs'[1..] == reqs[1..][r - 1 := q];
    }
  }

  lemma {:induction false} LoadMore(reqs: seq<Request>, q: Request, s: int)
    requires !q.queued
    ensures Load(reqs + [q], s) == Load(reqs, s)
  {
    if reqs == [] {
      assert reqs + [q] == [q];
    } else {
      LoadMore(reqs[1..], q, s);
      assert (reqs + [q])[1..] == reqs[1..] + [q];
    }
  }

  /** How many servers are good. */
  function Good(servers: seq<Server>): nat {
    if servers == [] then 0 else One(servers[0].state) + Good(servers[1..])
  }

  lemma {:induction false} GoodStep(servers: seq<Server>, s: nat, v: Server)
    requires s < |servers|
    ensures Good(servers[s := v]) + One(servers[s].state) == Good(servers) + One(v.state)
  {
    var servers' := servers[s := v];
    if s == 0 {
      assert servers'[1..] == servers[1..];
    } else {
      GoodStep(servers[1..], s - 1, v);
      assert servers'[1..] == servers[1..][s - 1 := v];
    }
  }

  lemma {:induction false} GoodOne(servers: seq<Server>)
    ensures Good(servers) > 0 <==> exists s | 0 <= s < |servers| :: servers[s].state
  {
    if servers != [] {
      GoodOne(servers[1..]);
      if s :| 0 <= s < |servers| - 1 && servers[1..][s].state {
        assert servers[s + 1].state;
      }
      if s :| 0 < s < |servers| && servers[s].state {
        assert servers[1..][s - 1].state;
      }
    }
  }

  lemma {:induction false} AllGood(servers: seq<Server>)
    requires forall s | 0 <= s < |servers| :: servers[s].state
    ensures Good(servers) == |servers|
  {
    if servers != [] {
      AllGood(servers[1..]);
    }
  }

  /** Each request is where its fields say, and each server's counter is its load. */
  ghost predicate RecordsOk(reqs: seq<Request>, servers: seq<Server>, owner: seq<int>, n: nat) {
    && n > 0 && |owner| == |reqs|
    && (forall r | 0 <= r < |reqs| :: owner[r] == Place(reqs[r], n) && NULL <= reqs[r].ns < |servers|)
    && (forall r | 0 <= r < |reqs| :: reqs[r].queued && reqs[r].ns != NULL ==> reqs[r].transId < NO_ID)
    && (forall s | 0 <= s < |servers| :: servers[s].inflight == Load(reqs, s))
  }

  /** `struct evdns_base`, with its requests and its servers. */
  class DnsBase {
    /** The links of every request. */
    var next: seq<int>
    var prev: seq<int>
    /** `req_waiting_head`, and behind it the array `req_heads`. */
    var heads: seq<int>
    var reqs: seq<Request>
    /** The circle of servers, and where `server_head` is. */
    var servers: seq<Server>
    var serverHead: nat
    /** `global_requests_inflight`, `global_requests_waiting`, `global_max_requests_inflight` and
        `global_good_nameservers`. */
    var inflight: int
    var waiting: int
    var maxInflight: int
    var good: int
    ghost var lists: seq<seq<nat>>
    ghost var owner: seq<int>

    /** A base with this many servers, all good, and no request. */
    constructor (nservers: nat, max: nat)
      requires 0 < max <= MAX_INFLIGHT
      ensures Valid() && reqs == [] && |servers| == nservers && good == nservers && maxInflight == max
      ensures inflight == 0 && waiting == 0 && forall s | 0 <= s < nservers :: servers[s] == Server(true, 0, 0, 0)
    {
      var n := (max + 4) / 5;
      next, prev, reqs, owner := [], [], [], [];
      heads, lists := seq(1 + n, _ => NULL), seq(1 + n, _ => []);
      servers, serverHead := seq(nservers, _ => Server(true, 0, 0, 0)), 0;
      inflight, waiting, maxInflight, good := 0, 0, max, nservers;
      new;
      NoLengths(lists[1..]);
      AllGood(servers);
    }

    ghost predicate Links()
      reads this
    {
      LinksOk(next, prev, heads, lists, owner)
    }

    ghost predicate Valid()
      reads this
    {
      && Links() && |heads| > 1 && 0 < maxInflight <= MAX_INFLIGHT
      && RecordsOk(reqs, servers, owner, |heads| - 1)
      && waiting == |lists[0]| && inflight == Lengths(lists[1..])
      && good == Good(servers) && (servers != [] ==> serverHead < |servers|)
    }
  }

  lemma OwnedStep(l: seq<nat>, l': seq<nat>, owner: seq<int>, w: int, r: nat, w': int)
    requires Owned(l, owner, w) && r < |owner| && owner[r] != w'
    requires if w' == w then l' == l + [r] else if owner[r] == w then exists k | 0 <= k < |l| && l[k] == r :: l' == Removed(l, k)
             else l' == l
    ensures Owned(l', owner[r := w'], w)
  {
    if w' == w {
      InsertedFacts(l, |l|, r);
      assert Inserted(l, |l|, r) == l + [r];
    } else if owner[r] == w {
      var k :| 0 <= k < |l| && l[k] == r && l' == Removed(l, k);
      RemovedFacts(l, k);
    }
  }

  /** A request has been put at the end of list `w`. */
  lemma InsertOk(next: seq<int>, prev: seq<int>, heads: seq<int>, lists: seq<seq<nat>>, owner: seq<int>, r: nat, w: nat)
    requires LinksOk(next, prev, heads, lists, owner) && r < |owner| && owner[r] == NULL && w < |lists|
    ensures var h := heads[w];
      && (h == NULL || (0 <= h < |prev| && 0 <= prev[h] < |next|))
      && LinksOk(InsertedNext(next, prev, h, r), InsertedPrev(prev, h, r), heads[w := if h == NULL then r else h],
                 lists[w := lists[w] + [r]], owner[r := w])
  {
    var h, lists', owner' := heads[w], lists[w := lists[w] + [r]], owner[r := w];
    InsertLinked(next, prev, h, lists[w], r);
    var next', prev' := InsertedNext(next, prev, h, r), InsertedPrev(prev, h, r);
    forall v | 0 <= v < |lists|
      ensures Linked(next', prev', heads[w := if h == NULL then r else h][v], lists'[v]) && Owned(lists'[v], owner', v)
    {
      OwnedStep(lists[v], lists'[v], owner, v, r, w);
      if v != w {
        InsertedElsewhere(next, prev, heads[w], lists[w], r, lists[v]);
        LinkedElsewhere(next, prev, next', prev', heads[v], lists[v]);
      }
    }
  }

  lemma InsertedElsewhere(next: seq<int>, prev: seq<int>, head: int, l: seq<nat>, r: nat, m: seq<nat>)
    requires Linked(next, prev, head, l) && |next| == |prev| && r < |next| && r !in m && (forall x | x in l :: x !in m)
    ensures head == NULL || (0 <= head < |prev| && 0 <= prev[head] < |next|)
    ensures |InsertedNext(next, prev, head, r)| == |next| == |InsertedPrev(prev, head, r)|
    ensures forall x: nat | x in m && x < |next| ::
              InsertedNext(next, prev, head, r)[x] == next[x] && InsertedPrev(prev, head, r)[x] == prev[x]
  {
    if l != [] {
      LinkAt(next, prev, head, l, 0);
      LinkAt(next, prev, head, l, |l| - 1);
      assert l[0] in l && l[|l| - 1] in l;
    }
  }

  /** A request has been taken from list `w`. */
  lemma RemoveOk(next: seq<int>, prev: seq<int>, heads: seq<int>, lists: seq<seq<nat>>, owner: seq<int>, w: nat, k: nat)
    requires LinksOk(next, prev, heads, lists, owner) && w < |lists| && k < |lists[w]|
    ensures var r := lists[w][k];
      && r < |owner| && 0 <= next[r] < |next| && 0 <= prev[r] < |next|
      && LinksOk(RemovedNext(next, prev, r), RemovedPrev(next, prev, r), heads[w := RemovedHead(next, heads[w], r)],
                 lists[w := Removed(lists[w], k)], owner[r := NULL])
  {
    var l := lists[w];
    var r := l[k];
    assert r in l;
    var lists', owner' := lists[w := Removed(l, k)], owner[r := NULL];
    RemoveLinked(next, prev, heads[w], l, k);
    var next', prev' := RemovedNext(next, prev, r), RemovedPrev(next, prev, r);
    RemovedLengths(next, prev, r);
    forall v | 0 <= v < |lists|
      ensures Linked(next', prev', heads[w := RemovedHead(next, heads[w], r)][v], lists'[v]) && Owned(lists'[v], owner', v)
    {
      OwnedStep(lists[v], lists'[v], owner, v, r, NULL);
      if v != w {
        RemovedElsewhere(next, prev, heads[w], l, k, lists[v]);
        LinkedElsewhere(next, prev, next', prev', heads[v], lists[v]);
      }
    }
  }

  lemma RemovedElsewhere(next: seq<int>, prev: seq<int>, head: int, l: seq<nat>, k: nat, m: seq<nat>)
    requires Linked(next, prev, head, l) && |next| == |prev| && k < |l| && (forall x | x in l :: x !in m)
    ensures var r := l[k];
      && r < |next| && 0 <= next[r] < |next| && 0 <= prev[r] < |next|
      && |RemovedNext(next, prev, r)| == |next| == |RemovedPrev(next, prev, r)|
      && forall x: nat | x in m && x < |next| ::
           RemovedNext(next, prev, r)[x] == next[x] && RemovedPrev(next, prev, r)[x] == prev[x]
  {
    var a, c := if k + 1 < |l| then k + 1 else 0, if k > 0 then k - 1 else |l| - 1;
    LinkAt(next, prev, head, l, k);
    LinkAt(next, prev, head, l, a);
    LinkAt(next, prev, head, l, c);
    assert l[a] in l && l[c] in l && l[k] in l;
  }
}
