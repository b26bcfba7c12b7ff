/** `evdns.c`: lists in place, looking up ids, choosing servers and moving requests between them. */
module DnsServers {
  import opened Basics
  import opened NatLists
  import opened DnsLinks
  import opened DnsQueues

  /** `evdns_request_insert`: at the tail of a list. */
  method Insert(b: DnsBase, r: nat, w: nat)
    requires b.Links() && r < |b.owner| && b.owner[r] == NULL && w < |b.heads|
    modifies b`next, b`prev, b`heads, b`lists, b`owner
    ensures b.Links() && |b.heads| == |old(b.heads)|
    ensures b.lists == old(b.lists)[w := old(b.lists)[w] + [r]] && b.owner == old(b.owner)[r := w]
  {
    hide LinksOk;
    ghost var next, prev, heads := b.next, b.prev, b.heads;
    Sizes(b.next, b.prev, b.heads, b.lists, b.owner);
    InsertOk(b.next, b.prev, b.heads, b.lists, b.owner, r, w);
    if b.heads[w] == NULL {
      b.heads := b.heads[w := r];
      b.next := b.next[r := r];
      b.prev := b.prev[r := r];
    } else {
      var head := b.heads[w];
      b.prev := b.prev[r := b.prev[head]];
      b.next := b.next[b.prev[r] := r];
      b.next := b.next[r := head];
      b.prev := b.prev[head := r];
      assert b.heads == heads[w := heads[w]];
    }
    b.lists := b.lists[w := b.lists[w] + [r]];
    b.owner := b.owner[r := w];
  }

  lemma Sizes(next: seq<int>, prev: seq<int>, heads: seq<int>, lists: seq<seq<nat>>, owner: seq<int>)
    requires LinksOk(next, prev, heads, lists, owner)
    ensures |next| == |prev| == |owner| && |heads| == |lists|
    ensures forall r | 0 <= r < |owner| && owner[r] != NULL :: 0 <= owner[r] < |lists| && r in lists[owner[r]]
  {
    forall r | 0 <= r < |owner| && owner[r] != NULL
      ensures 0 <= owner[r] < |lists| && r in lists[owner[r]]
    {
      assert Owned(lists[owner[r]], owner, owner[r]);
    }
  }

  /** `evdns_request_remove`. */
  method Remove(b: DnsBase, r: nat, w: nat)
    requires b.Links() && r < |b.owner| && b.owner[r] == w && w < |b.heads|
    modifies b`next, b`prev, b`heads, b`lists, b`owner
    ensures b.Links() && |b.heads| == |old(b.heads)|
    ensures r in old(b.lists)[w] && b.lists == old(b.lists)[w := Without(old(b.lists)[w], r)]
    ensures b.owner == old(b.owner)[r := NULL]
  {
    hide LinksOk;
    Sizes(b.next, b.prev, b.heads, b.lists, b.owner);
    ghost var k := IndexOf(b.lists[w], r);
    ghost var next, prev, heads := b.next, b.prev, b.heads;
    RemoveOk(b.next, b.prev, b.heads, b.lists, b.owner, w, k);
    if b.next[r] == r {
      b.heads := b.heads[w := NULL];
    } else {
      b.prev := b.prev[b.next[r] := b.prev[r]];
      b.next := b.next[b.prev[r] := b.next[r]];
      if b.heads[w] == r {
        b.heads := b.heads[w := b.next[r]];
      }
      assert b.heads == heads[w := RemovedHead(next, heads[w], r)];
    }
    b.next := b.next[r := NULL];
    b.prev := b.prev[r := NULL];
    b.lists := b.lists[w := Removed(b.lists[w], k)];
    b.owner := b.owner[r := NULL];
  }

  /** A request with this id is in flight. */
  predicate InFlight(reqs: seq<Request>, id: nat) {
    exists r | 0 <= r < |reqs| :: reqs[r].queued && reqs[r].ns != NULL && reqs[r].transId == id
  }

  /** What the list of an id says. */
  lemma BucketFacts(b: DnsBase, id: nat)
    requires b.Valid()
    ensures var w := 1 + id % (|b.heads| - 1);
      && w < |b.heads| == |b.lists| && |b.next| == |b.reqs| && Linked(b.next, b.prev, b.heads[w], b.lists[w])
      && (forall r: nat | r in b.lists[w] :: r < |b.reqs| && b.reqs[r].queued && b.reqs[r].ns != NULL)
      && (forall r: nat | r < |b.reqs| && b.reqs[r].queued && b.reqs[r].ns != NULL && b.reqs[r].transId == id :: r in b.lists[w])
  {
    var n := |b.heads| - 1;
    var w := 1 + id % n;
    assert Owned(b.lists[w], b.owner, w);
    forall r: nat | r < |b.reqs| && b.reqs[r].queued && b.reqs[r].ns != NULL && b.reqs[r].transId == id
      ensures r in b.lists[w]
    {
      assert b.owner[r] == w;
    }
  }

  /** `request_find_from_trans_id`: the first request with this id in its bucket. */
  method Find(b: DnsBase, id: nat) returns (r: int)
    requires b.Valid()
    ensures r == NULL <==> !InFlight(b.reqs, id)
    ensures r != NULL ==> 0 <= r < |b.reqs| && b.reqs[r].queued && b.reqs[r].ns != NULL && b.reqs[r].transId == id
  {
    hide LinksOk;
    hide RecordsOk;
    var w := 1 + id % (|b.heads| - 1);
    BucketFacts(b, id);
    ghost var l := b.lists[w];
    r := b.heads[w];
    var startedAt := r;
    if r == NULL {
      return;
    }
    ghost var k := 0;
    while true
      invariant k < |l| && r == l[k] && startedAt == l[0]
      invariant forall j | 0 <= j < k :: b.reqs[l[j]].transId != id
      decreases |l| - k
    {
      LinkAt(b.next, b.prev, b.heads[w], l, k);
      assert l[k] in l;
      if b.reqs[r].transId == id {
        return;
      }
      OnceOnly(b, w, k);
      r := b.next[r];
      if r == startedAt {
        break;
      }
      k := k + 1;
    }
    assert forall j | 0 <= j < |l| :: b.reqs[l[j]].transId != id;
    r := NULL;
  }

  lemma OnceOnly(b: DnsBase, w: nat, k: nat)
    requires b.Links() && w < |b.lists| && k < |b.lists[w]|
    ensures k + 1 < |b.lists[w]| ==> b.lists[w][k + 1] != b.lists[w][0]
  {
    assert Owned(b.lists[w], b.owner, w);
  }

  /** The next one in a circle. */
  function After(n: nat, s: nat): (t: nat)
    requires s < n
    ensures t < n && (t == s + 1 || (t == 0 && s == n - 1))
  {
    if s + 1 < n then s + 1 else 0
  }

  /** Going round from `a`, one comes to `t` before `s`. */
  predicate Before(a: nat, t: nat, s: nat) {
    if a <= s then a <= t < s else t >= a || t < s
  }

  /** Which servers are good. */
  function States(servers: seq<Server>): (good: seq<bool>)
    ensures |good| == |servers| && forall s | 0 <= s < |servers| :: good[s] == servers[s].state
  {
    seq(|servers|, s requires 0 <= s < |servers| => servers[s].state)
  }

  /** Who has come back to the start has been everywhere. */
  lemma RoundTheCircle(n: nat, start: nat, last: nat)
    requires start < n && last < n
    ensures After(n, last) == start ==> forall t: nat | t < n :: t == last || Before(start, t, last)
  {
  }

  /** From `head` on, `s` comes next in the circle among the good servers; when none is good, it comes after `head`. */
  ghost predicate IsPick(good: seq<bool>, head: nat, s: int) {
    && head < |good| && 0 <= s < |good|
    && if exists t :: 0 <= t < |good| && good[t]
       then good[s] && forall t: nat | t < |good| && Before(head, t, s) :: !good[t]
       else s == After(|good|, head)
  }

  /** Where `server_head` is when server `s` has been picked. */
  ghost function HeadAfter(good: seq<bool>, s: nat): nat
    requires s < |good|
  {
    if exists t :: 0 <= t < |good| && good[t] then After(|good|, s) else s
  }

  /** `nameserver_pick`: the next good server in the circle, or just the next one if none is good. */
  method NameserverPick(b: DnsBase) returns (s: int)
    requires b.Valid()
    modifies b`serverHead
    ensures b.Valid()
    ensures b.servers == [] ==> s == NULL && b.serverHead == old(b.serverHead)
    ensures b.servers != [] ==>
      IsPick(States(b.servers), old(b.serverHead), s) && b.serverHead == HeadAfter(States(b.servers), s)
  {
    hide LinksOk;
    hide RecordsOk;
    var startedAt := b.serverHead;
    if b.servers == [] {
      return NULL;
    }
    var n := |b.servers|;
    ghost var states := States(b.servers);
    GoodOne(b.servers);
    if b.good == 0 {
      b.serverHead := After(n, b.serverHead);
      return b.serverHead;
    }
    assert exists t :: 0 <= t < n && states[t];
    while true
      invariant b.Valid()
      invariant forall t: nat | t < n && Before(startedAt, t, b.serverHead) :: !b.servers[t].state
      decreases if b.serverHead >= startedAt then n - b.serverHead + startedAt else startedAt - b.serverHead
    {
      if b.servers[b.serverHead].state {
        s := b.serverHead;
        b.serverHead := After(n, b.serverHead);
        return;
      }
      ghost var was := b.serverHead;
      b.serverHead := After(n, b.serverHead);
      RoundTheCircle(n, startedAt, was);
      if b.serverHead == startedAt {
        assert false;
      }
    }
  }

  /** Nothing is different about the servers but how many requests they have. */
  predicate SameHealth(servers: seq<Server>, servers': seq<Server>) {
    |servers'| == |servers| && forall s | 0 <= s < |servers| :: servers'[s] == servers[s].(inflight := servers'[s].inflight)
  }

  /** Lists stay as they are, and no request changes its list. */
  twostate predicate SameLists(b: DnsBase)
    reads b
  {
    && b.lists == old(b.lists) && b.owner == old(b.owner) && b.heads == old(b.heads)
    && b.next == old(b.next) && b.prev == old(b.prev)
    && b.inflight == old(b.inflight) && b.waiting == old(b.waiting) && b.maxInflight == old(b.maxInflight)
    && |b.reqs| == |old(b.reqs)| && |b.servers| == |old(b.servers)|
    && forall r | 0 <= r < |b.reqs| ::
         && b.reqs[r].queued == old(b.reqs)[r].queued && b.reqs[r].transId == old(b.reqs)[r].transId
         && (b.reqs[r].ns == NULL <==> old(b.reqs)[r].ns == NULL)
  }

  /** The records after a request has gone to another server. */
  lemma SwapOk(reqs: seq<Request>, servers: seq<Server>, owner: seq<int>, n: nat, r: nat, s: nat)
    requires RecordsOk(reqs, servers, owner, n) && r < |reqs| && s < |servers|
    requires reqs[r].queued && reqs[r].ns != NULL && reqs[r].ns != s
    ensures 0 <= reqs[r].ns < |servers| && servers[reqs[r].ns].inflight > 0
    ensures var t := reqs[r].ns;
      RecordsOk(reqs[r := reqs[r].(ns := s)],
                servers[t := servers[t].(inflight := servers[t].inflight - 1)][s := servers[s].(inflight := servers[s].inflight + 1)],
                owner, n)
  {
    var q, t := reqs[r].(ns := s), reqs[r].ns;
    LoadStep(reqs, r, q.(queued := false), t);
    forall u | 0 <= u < |servers|
      ensures Load(reqs[r := q], u) == servers[u].inflight + One(u == s) - One(u == t)
    {
      LoadStep(reqs, r, q, u);
    }
  }

  lemma {:induction false} GoodSame(servers: seq<Server>, servers': seq<Server>)
    requires |servers| == |servers'| && forall s | 0 <= s < |servers| :: servers[s].state == servers'[s].state
    ensures Good(servers) == Good(servers')
  {
    if servers != [] {
      GoodSame(servers[1..], servers'[1..]);
    }
  }

  /** `request_swap_ns`. */
  method SwapNs(b: DnsBase, r: nat, s: int)
    requires b.Valid() && r < |b.reqs| && b.reqs[r].queued && b.reqs[r].ns != NULL && NULL <= s < |b.servers|
    modifies b`reqs, b`servers
    ensures b.Valid() && SameLists(b)
    ensures b.reqs == if s == NULL then old(b.reqs) else old(b.reqs)[r := old(b.reqs)[r].(ns := s)]
    ensures SameHealth(old(b.servers), b.servers)
  {
    hide LinksOk;
    hide RecordsOk;
    if s != NULL && b.reqs[r].ns != s {
      var t := b.reqs[r].ns;
      ghost var servers := b.servers;
      SwapOk(b.reqs, b.servers, b.owner, |b.heads| - 1, r, s);
      assert b.servers[t].inflight > 0;
      b.servers := b.servers[t := b.servers[t].(inflight := b.servers[t].inflight - 1)];
      b.servers := b.servers[s := b.servers[s].(inflight := b.servers[s].inflight + 1)];
      b.reqs := b.reqs[r := b.reqs[r].(ns := s)];
      GoodSame(servers, b.servers);
    }
  }
}
