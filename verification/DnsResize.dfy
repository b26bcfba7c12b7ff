/** `evdns.c`: changing the number of buckets, and what the counters say. */
module DnsResize {
  import opened Basics
  import opened NatLists
  import opened DnsLinks
  import opened DnsQueues
  import opened DnsServers
  import opened DnsRequests
  import opened DnsFlow

  lemma {:induction false} LengthsConcat(a: seq<seq<nat>>, c: seq<seq<nat>>)
    ensures Lengths(a + c) == Lengths(a) + Lengths(c)
  {
    if a == [] {
      assert a + c == c;
    } else {
      LengthsConcat(a[1..], c);
      assert (a + c)[1..] == a[1..] + c;
    }
  }

  /** While requests move, each one in flight is in its bucket of the `n` old or the `m` new ones. */
  ghost predicate Between(reqs: seq<Request>, owner: seq<int>, n: nat, m: nat) {
    && n > 0 && m > 0 && |owner| == |reqs|
    && forall r | 0 <= r < |reqs| ::
         || owner[r] == Place(reqs[r], n)
         || (reqs[r].queued && reqs[r].ns != NULL && owner[r] == 1 + n + reqs[r].transId % m)
  }

  ghost function Shifted(owner: seq<int>, n: nat): seq<int> {
    seq(|owner|, i requires 0 <= i < |owner| => if owner[i] > n then owner[i] - n else owner[i])
  }

  lemma Nobody(lists: seq<seq<nat>>, owner: seq<int>, w: int, r: nat)
    requires 0 <= w < |lists| && Owned(lists[w], owner, w) && lists[w] == [] && r < |owner|
    ensures owner[r] != w
  {
    assert r !in lists[w];
  }

  /** The lists once the old buckets, which are empty, have gone. */
  lemma Dropped(next: seq<int>, prev: seq<int>, heads: seq<int>, lists: seq<seq<nat>>, owner: seq<int>, n: nat)
    requires LinksOk(next, prev, heads, lists, owner) && |lists| > 1 + n
    requires forall i | 1 <= i <= n :: lists[i] == []
    ensures LinksOk(next, prev, [heads[0]] + heads[1 + n..], [lists[0]] + lists[1 + n..], Shifted(owner, n))
    ensures Lengths(([lists[0]] + lists[1 + n..])[1..]) == Lengths(lists[1..])
    ensures forall r | 0 <= r < |owner| :: owner[r] <= 0 || owner[r] > n
  {
    var heads', lists', owner' := [heads[0]] + heads[1 + n..], [lists[0]] + lists[1 + n..], Shifted(owner, n);
    forall r | 0 <= r < |owner|
      ensures owner[r] <= 0 || owner[r] > n
    {
      if 0 < owner[r] <= n { Nobody(lists, owner, owner[r], r); }
    }
    forall w | 0 <= w < |lists'|
      ensures Linked(next, prev, heads'[w], lists'[w]) && Owned(lists'[w], owner', w)
    {
      var v := if w == 0 then 0 else w + n;
      assert lists'[w] == lists[v] && heads'[w] == heads[v];
      assert Linked(next, prev, heads[v], lists[v]) && Owned(lists[v], owner, v);
    }
    NoLengths(lists[1..1 + n]);
    LengthsConcat(lists[1..1 + n], lists[1 + n..]);
    assert lists[1..] == lists[1..1 + n] + lists[1 + n..];
    assert lists'[1..] == lists[1 + n..];
  }

  /** The lists with new, empty buckets behind them. */
  lemma Extended(next: seq<int>, prev: seq<int>, heads: seq<int>, lists: seq<seq<nat>>, owner: seq<int>, m: nat)
    requires LinksOk(next, prev, heads, lists, owner)
    ensures LinksOk(next, prev, heads + seq(m, _ => NULL), lists + seq(m, _ => []), owner)
    ensures Lengths(seq(m, _ => [])) == 0
  {
    var heads', lists' := heads + seq(m, _ => NULL), lists + seq(m, _ => []);
    forall w | 0 <= w < |lists'|
      ensures Linked(next, prev, heads'[w], lists'[w]) && Owned(lists'[w], owner, w)
    {
      assert w < |lists| ==> Linked(next, prev, heads[w], lists[w]) && Owned(lists[w], owner, w);
    }
    NoLengths(seq(m, _ => []));
  }

  lemma FirstOf(b: DnsBase, w: nat)
    requires b.Links() && w < |b.lists|
    ensures w < |b.heads| == |b.lists| && (b.heads[w] == NULL <==> b.lists[w] == [])
    ensures b.lists[w] != [] ==> b.heads[w] == b.lists[w][0] && 0 <= b.heads[w] < |b.owner| && b.owner[b.heads[w]] == w
  {
    assert Linked(b.next, b.prev, b.heads[w], b.lists[w]) && Owned(b.lists[w], b.owner, w);
    assert b.lists[w] != [] ==> b.lists[w][0] in b.lists[w];
  }

  /** The first request of an old bucket goes to its new one. */
  method Rehash(b: DnsBase, i: nat, n: nat, m: nat)
    requires b.Links() && Between(b.reqs, b.owner, n, m) && |b.lists| == 1 + n + m && 1 <= i <= n
    requires |b.heads| == |b.lists| && b.heads[i] != NULL
    modifies b`next, b`prev, b`heads, b`lists, b`owner
    ensures b.Links() && Between(b.reqs, b.owner, n, m) && |b.lists| == |old(b.lists)| == |b.heads|
    ensures Lengths(b.lists[1..]) == Lengths(old(b.lists)[1..]) && b.lists[0] == old(b.lists)[0]
    ensures |b.lists[i]| == |old(b.lists)[i]| - 1
    ensures forall j | 1 <= j <= n && j != i :: b.lists[j] == old(b.lists)[j]
  {
    hide LinksOk;
    FirstOf(b, i);
    ghost var lists := b.lists;
    var req := b.heads[i];
    assert b.reqs[req].queued && b.reqs[req].ns != NULL;
    Remove(b, req, i);
    var w := 1 + n + b.reqs[req].transId % m;
    Insert(b, req, w);
    ghost var shorter := Without(lists[i], req);
    BucketLengths(lists, i, shorter);
    BucketLengths(lists[i := shorter], w, lists[w] + [req]);
    WithoutLength(lists[i], req);
  }

  /** The loops of `evdns_base_set_max_requests_inflight` that move all requests. */
  method RehashAll(b: DnsBase, n: nat, m: nat)
    requires b.Links() && Between(b.reqs, b.owner, n, m) && |b.lists| == 1 + n + m == |b.heads|
    modifies b`next, b`prev, b`heads, b`lists, b`owner
    ensures b.Links() && Between(b.reqs, b.owner, n, m) && |b.lists| == |old(b.lists)| == |b.heads|
    ensures Lengths(b.lists[1..]) == Lengths(old(b.lists)[1..]) && b.lists[0] == old(b.lists)[0]
    ensures forall j | 1 <= j <= n :: b.lists[j] == []
  {
    hide LinksOk;
    hide Between;
    hide Lengths;
    var i := 1;
    while i <= n
      invariant 1 <= i <= n + 1
      invariant b.Links() && Between(b.reqs, b.owner, n, m) && |b.lists| == |old(b.lists)| == |b.heads|
      invariant Lengths(b.lists[1..]) == Lengths(old(b.lists)[1..]) && b.lists[0] == old(b.lists)[0]
      invariant forall j | 1 <= j < i :: b.lists[j] == []
    {
      while b.heads[i] != NULL
        invariant b.Links() && Between(b.reqs, b.owner, n, m) && |b.lists| == |old(b.lists)| == |b.heads|
        invariant Lengths(b.lists[1..]) == Lengths(old(b.lists)[1..]) && b.lists[0] == old(b.lists)[0]
        invariant forall j | 1 <= j < i :: b.lists[j] == []
        decreases |b.lists[i]|
      {
        Rehash(b, i, n, m);
      }
      FirstOf(b, i);
      i := i + 1;
    }
  }

  /** The new array of buckets is there beside the old one. */
  method Grow(b: DnsBase, m: nat)
    requires b.Links()
    modifies b`heads, b`lists
    ensures b.Links() && |b.heads| == |b.lists| == |old(b.lists)| + m
    ensures |old(b.lists)| > 0 ==> Lengths(b.lists[1..]) == Lengths(old(b.lists)[1..]) && b.lists[0] == old(b.lists)[0]
  {
    hide LinksOk;
    hide Lengths;
    Sizes(b.next, b.prev, b.heads, b.lists, b.owner);
    Extended(b.next, b.prev, b.heads, b.lists, b.owner, m);
    ghost var lists, more := b.lists, seq(m, _ => []);
    b.heads := b.heads + seq(m, _ => NULL);
    b.lists := b.lists + more;
    if lists != [] {
      LengthsConcat(lists[1..], more);
      assert b.lists[1..] == lists[1..] + more;
    }
  }

  /** The old array of buckets has gone. */
  method Shrink(b: DnsBase, n: nat, m: nat)
    requires b.Links() && Between(b.reqs, b.owner, n, m) && |b.lists| == 1 + n + m == |b.heads|
    requires forall j | 1 <= j <= n :: b.lists[j] == []
    modifies b`heads, b`lists, b`owner
    ensures b.Links() && |b.heads| == 1 + m == |b.lists| && |b.owner| == |b.reqs|
    ensures Lengths(b.lists[1..]) == Lengths(old(b.lists)[1..]) && b.lists[0] == old(b.lists)[0]
    ensures forall r | 0 <= r < |b.reqs| :: b.owner[r] == Place(b.reqs[r], m)
  {
    hide LinksOk;
    hide Lengths;
    Dropped(b.next, b.prev, b.heads, b.lists, b.owner, n);
    NewPlaces(b.reqs, b.owner, n, m);
    b.heads := [b.heads[0]] + b.heads[1 + n..];
    b.lists := [b.lists[0]] + b.lists[1 + n..];
    b.owner := Shifted(b.owner, n);
  }

  lemma NewPlaces(reqs: seq<Request>, owner: seq<int>, n: nat, m: nat)
    requires Between(reqs, owner, n, m) && forall r | 0 <= r < |owner| :: owner[r] <= 0 || owner[r] > n
    ensures forall r | 0 <= r < |reqs| :: Shifted(owner, n)[r] == Place(reqs[r], m)
  {
  }

  /** `evdns_base_set_max_requests_inflight`: the requests are the same as before, and so are the ids
      that can be looked up. */
  method SetMaxInflight(b: DnsBase, max: int)
    requires b.Valid() && max <= MAX_INFLIGHT
    modifies b`next, b`prev, b`heads, b`lists, b`owner, b`maxInflight
    ensures b.Valid() && b.maxInflight == (if max < 1 then 1 else max) && |b.heads| == 1 + (b.maxInflight + 4) / 5
    ensures |old(b.lists)| > 0 && b.lists != [] && b.lists[0] == old(b.lists)[0]
  {
    hide LinksOk;
    hide Lengths;
    Shape(b);
    var maxInflight := if max < 1 then 1 else max;
    var n, m := |b.heads| - 1, (maxInflight + 4) / 5;
    assert Between(b.reqs, b.owner, n, m);
    Grow(b, m);
    RehashAll(b, n, m);
    Shrink(b, n, m);
    b.maxInflight := maxInflight;
  }

  // ---- what the counters say

  ghost function Elements(l: seq<nat>): set<nat> {
    set r | r in l
  }

  lemma {:induction false} ListSize(l: seq<nat>)
    requires Distinct(l)
    ensures |Elements(l)| == |l|
  {
    if l == [] {
      assert Elements(l) == {};
    } else {
      var rest := l[1..];
      assert forall i | 0 <= i < |rest| :: rest[i] == l[i + 1];
      ListSize(rest);
      assert l[0] !in Elements(rest);
      assert Elements(l) == {l[0]} + Elements(rest);
    }
  }

  lemma {:induction false} ListSizes(lists: seq<seq<nat>>, owner: seq<int>, lo: nat)
    requires lo <= |lists| && (forall w | lo <= w < |lists| :: Owned(lists[w], owner, w))
    requires forall r | 0 <= r < |owner| :: owner[r] < |lists|
    ensures |set r | 0 <= r < |owner| && owner[r] >= lo| == Lengths(lists[lo..])
    decreases |lists| - lo
  {
    if lo == |lists| {
      assert (set r | 0 <= r < |owner| && owner[r] >= lo) == {};
    } else {
      ListSizes(lists, owner, lo + 1);
      var l := lists[lo];
      assert Owned(l, owner, lo);
      ListSize(l);
      var here := Elements(l);
      var above := set r | 0 <= r < |owner| && owner[r] >= lo + 1;
      assert (set r | 0 <= r < |owner| && owner[r] >= lo) == here + above;
      assert here * above == {};
      assert lists[lo..][0] == l && lists[lo..][1..] == lists[lo + 1..];
    }
  }

  lemma Owners(b: DnsBase)
    requires b.Valid()
    ensures |b.heads| == |b.lists| > 1 && |b.owner| == |b.reqs|
    ensures forall w | 0 <= w < |b.lists| :: Owned(b.lists[w], b.owner, w)
    ensures forall r | 0 <= r < |b.reqs| :: b.owner[r] == Place(b.reqs[r], |b.heads| - 1) < |b.lists|
    ensures b.waiting == |b.lists[0]| && b.inflight == Lengths(b.lists[1..])
  {
  }

  /** The counters are the numbers of requests in flight and of requests that wait. */
  lemma CountersMeaning(b: DnsBase)
    requires b.Valid()
    ensures b.inflight == |set r | 0 <= r < |b.reqs| && b.reqs[r].queued && b.reqs[r].ns != NULL|
    ensures b.waiting == |set r | 0 <= r < |b.reqs| && b.reqs[r].queued && b.reqs[r].ns == NULL|
  {
    Owners(b);
    hide LinksOk;
    var l := b.lists[0];
    assert Owned(l, b.owner, 0);
    ListSize(l);
    assert Elements(l) == set r | 0 <= r < |b.reqs| && b.reqs[r].queued && b.reqs[r].ns == NULL;
    ListSizes(b.lists, b.owner, 1);
    assert (set r | 0 <= r < |b.owner| && b.owner[r] >= 1) ==
           set r | 0 <= r < |b.reqs| && b.reqs[r].queued && b.reqs[r].ns != NULL;
  }
}
