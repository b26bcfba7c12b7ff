/** `evdns.c`: the life of a request from its creation to its end, and of the servers it goes to. */
module DnsRequests {
  import opened Basics
  import opened NatLists
  import opened DnsLinks
  import opened DnsQueues
  import opened DnsServers
  import opened DnsRoutes

  // ---- free ids

  ghost function UsedIn(reqs: seq<Request>, l: seq<nat>): set<nat> {
    if l == [] then {} else (if l[0] < |reqs| then {reqs[l[0]].transId} else {}) + UsedIn(reqs, l[1..])
  }

  ghost function Used(reqs: seq<Request>, ls: seq<seq<nat>>): set<nat> {
    if ls == [] then {} else UsedIn(reqs, ls[0]) + Used(reqs, ls[1..])
  }

  lemma {:induction false} UsedInSize(reqs: seq<Request>, l: seq<nat>)
    ensures |UsedIn(reqs, l)| <= |l|
    ensures forall r: nat | r in l && r < |reqs| :: reqs[r].transId in UsedIn(reqs, l)
  {
    if l != [] {
      UsedInSize(reqs, l[1..]);
      var a := if l[0] < |reqs| then {reqs[l[0]].transId} else {};
      UnionSize(a, UsedIn(reqs, l[1..]));
    }
  }

  lemma UnionSize(a: set<nat>, c: set<nat>)
    ensures |a + c| <= |a| + |c|
  {
    assert |a + c| == |a| + |c| - |a * c|;
  }

  lemma {:induction false} UsedSize(reqs: seq<Request>, ls: seq<seq<nat>>)
    ensures |Used(reqs, ls)| <= Lengths(ls)
    ensures forall w, r: nat | 0 <= w < |ls| && r in ls[w] && r < |reqs| :: reqs[r].transId in Used(reqs, ls)
  {
    if ls != [] {
      UsedInSize(reqs, ls[0]);
      UsedSize(reqs, ls[1..]);
      UnionSize(UsedIn(reqs, ls[0]), Used(reqs, ls[1..]));
      forall w, r: nat | 0 <= w < |ls| && r in ls[w] && r < |reqs|
        ensures reqs[r].transId in Used(reqs, ls)
      {
        if w > 0 { assert ls[w] == ls[1..][w - 1]; }
      }
    }
  }

  lemma {:induction false} AllBelow(n: nat, s: set<nat>)
    requires forall x: nat | x < n :: x in s
    ensures |s| >= n
  {
    if n > 0 {
      AllBelow(n - 1, s - {n - 1});
    }
  }

  lemma UsedId(b: DnsBase, id: nat)
    requires b.Valid() && InFlight(b.reqs, id)
    ensures id in Used(b.reqs, b.lists[1..])
  {
    BucketFacts(b, id);
    UsedSize(b.reqs, b.lists[1..]);
    var r :| 0 <= r < |b.reqs| && b.reqs[r].queued && b.reqs[r].ns != NULL && b.reqs[r].transId == id;
    assert r in b.lists[1..][id % (|b.heads| - 1)];
  }

  /** While less requests are in flight than there are ids, some id is free. */
  lemma FreeId(b: DnsBase)
    requires b.Valid() && b.inflight < NO_ID
    ensures exists id: nat :: id < NO_ID && !InFlight(b.reqs, id)
  {
    var ls := b.lists[1..];
    UsedSize(b.reqs, ls);
    if forall id: nat | id < NO_ID :: InFlight(b.reqs, id) {
      forall id: nat | id < NO_ID
        ensures id in Used(b.reqs, ls)
      {
        assert InFlight(b.reqs, id);
        UsedId(b, id);
      }
      AllBelow(NO_ID, Used(b.reqs, ls));
      assert false;
    }
  }

  /** `transaction_id_pick`: random ids are tried until one is not in flight. */
  method TransactionIdPick(b: DnsBase) returns (id: nat)
    requires b.Valid() && b.inflight < NO_ID
    ensures id < NO_ID && !InFlight(b.reqs, id)
  {
    FreeId(b);
    id :| id < NO_ID && !InFlight(b.reqs, id);
  }

  // ---- servers that fail and come back

  lemma ListFacts(b: DnsBase, w: nat, k: nat)
    requires b.Valid() && 0 < w < |b.lists| && k < |b.lists[w]|
    ensures |b.lists| == |b.heads| && Linked(b.next, b.prev, b.heads[w], b.lists[w]) && Distinct(b.lists[w])
    ensures b.lists[w][k] < |b.reqs| && b.reqs[b.lists[w][k]].queued && b.reqs[b.lists[w][k]].ns != NULL
  {
    assert Owned(b.lists[w], b.owner, w) && b.lists[w][k] in b.lists[w];
  }

  /** One step of the walk of `nameserver_failed`. */
  method MoveRequest(b: DnsBase, r: nat, s: nat)
    requires b.Valid() && s < |b.servers| && !b.servers[s].state && b.good > 0
    requires r < |b.reqs| && b.reqs[r].queued && b.reqs[r].ns != NULL
    modifies b`reqs, b`servers, b`serverHead
    ensures b.Valid() && SameLists(b) && b.good > 0 && SameHealth(old(b.servers), b.servers)
    ensures !Stuck(old(b.reqs)[r], s) ==> b.reqs == old(b.reqs) && b.serverHead == old(b.serverHead)
    ensures Stuck(old(b.reqs)[r], s) ==>
      && IsPick(States(b.servers), old(b.serverHead), b.reqs[r].ns) && b.serverHead == HeadAfter(States(b.servers), b.reqs[r].ns)
      && b.reqs == old(b.reqs)[r := old(b.reqs)[r].(ns := b.reqs[r].ns)]
  {
    hide LinksOk;
    hide RecordsOk;
    hide Good;
    if b.reqs[r].txCount == 0 && b.reqs[r].ns == s {
      var t := NameserverPick(b);
      ghost var servers := b.servers;
      SwapNs(b, r, t);
      SameStates(servers, b.servers);
    }
  }

  lemma SameStates(servers: seq<Server>, servers': seq<Server>)
    requires SameHealth(servers, servers')
    ensures States(servers') == States(servers)
  {
  }

  /** Where the walk of `nameserver_failed` stands when it has moved these requests. */
  twostate predicate Moving(b: DnsBase, reqs: seq<Request>, head: nat, moved: seq<nat>)
    reads b
  {
    && b.Valid() && SameLists(b) && b.good > 0 && SameHealth(old(b.servers), b.servers)
    && Routed(reqs, b.reqs, States(b.servers), head, b.serverHead, moved)
  }

  /** One step of the walk, after these requests have moved. */
  method MoveOne(b: DnsBase, r: nat, s: nat, ghost reqs: seq<Request>, ghost head: nat, ghost moved: seq<nat>)
    returns (ghost moved': seq<nat>)
    requires b.Valid() && s < |b.servers| && !b.servers[s].state && b.good > 0
    requires r < |b.reqs| && b.reqs[r].queued && b.reqs[r].ns != NULL && r < |reqs| && b.reqs[r] == reqs[r]
    requires Routed(reqs, b.reqs, States(b.servers), head, b.serverHead, moved) && r !in moved
    modifies b`reqs, b`servers, b`serverHead
    ensures Moving(b, reqs, head, moved') && moved' == moved + if Stuck(reqs[r], s) then [r] else []
  {
    hide LinksOk;
    hide RecordsOk;
    hide Good;
    hide Routed;
    hide IsPick;
    hide HeadAfter;
    ghost var m, h, servers := b.reqs, b.serverHead, b.servers;
    moved' := moved;
    MoveRequest(b, r, s);
    SameStates(servers, b.servers);
    if Stuck(reqs[r], s) {
      RoutedMore(reqs, m, States(b.servers), head, h, moved, r, b.reqs[r].ns);
      moved' := moved + [r];
    }
  }

  /** The walk of `nameserver_failed` round one bucket. */
  method MoveBucket(b: DnsBase, s: nat, w: nat, ghost reqs: seq<Request>, ghost head: nat, ghost moved: seq<nat>)
    returns (ghost moved': seq<nat>)
    requires b.Valid() && s < |b.servers| && !b.servers[s].state && b.good > 0 && 0 < w < |b.heads| == |b.lists|
    requires Routed(reqs, b.reqs, States(b.servers), head, b.serverHead, moved)
    requires forall r | r in moved :: r !in b.lists[w]
    modifies b`reqs, b`servers, b`serverHead
    ensures Moving(b, reqs, head, moved') && moved' == moved + StuckOf(reqs, b.lists[w], s)
  {
    hide LinksOk;
    hide RecordsOk;
    hide Good;
    hide Routed;
    hide IsPick;
    hide HeadAfter;
    hide InTurn;
    hide Distinct;
    hide StuckOf;
    hide SameHealth;
    hide States;
    ghost var l := b.lists[w];
    moved' := moved;
    SameHealthNow(b.servers);
    HeadOf(b, w);
    var req := b.heads[w];
    var startedAt := req;
    if req == NULL {
      StuckStep(reqs, l, s, 0);
      return;
    }
    ghost var k := 0;
    StuckStep(reqs, l, s, 0);
    while true
      invariant k < |l| && req == l[k] && startedAt == l[0]
      invariant Moving(b, reqs, head, moved') && moved' == moved + StuckOf(reqs, l[..k], s)
      invariant s < |b.servers| && !b.servers[s].state
      decreases |l| - k
    {
      ListFacts(b, w, k);
      MoveNext(b, s, l, k, reqs, head, moved, moved');
      ghost var servers := b.servers;
      moved' := MoveOne(b, req, s, reqs, head, moved');
      HealthTwice(old(b.servers), servers, b.servers);
      StuckStep(reqs, l, s, k);
      LinkAt(b.next, b.prev, b.heads[w], l, k);
      OnceOnly(b, w, k);
      req := b.next[req];
      if req == startedAt {
        break;
      }
      k := k + 1;
    }
    assert l[..k + 1] == l;
  }

  lemma StuckStep(reqs: seq<Request>, l: seq<nat>, s: int, k: nat)
    ensures l[..0] == [] && StuckOf(reqs, [], s) == []
    ensures k < |l| ==>
      StuckOf(reqs, l[..k + 1], s) == StuckOf(reqs, l[..k], s) + if l[k] < |reqs| && Stuck(reqs[l[k]], s) then [l[k]] else []
  {
    assert k < |l| ==> l[..k + 1][..k] == l[..k];
  }

  lemma SameHealthNow(servers: seq<Server>)
    ensures SameHealth(servers, servers)
  {
  }

  lemma HealthTwice(a: seq<Server>, m: seq<Server>, c: seq<Server>)
    requires SameHealth(a, m) && SameHealth(m, c)
    ensures SameHealth(a, c) && |c| == |a| && forall s | 0 <= s < |a| :: c[s].state == a[s].state
  {
  }

  /** The next request of the walk has not moved yet. */
  lemma MoveNext(b: DnsBase, s: nat, l: seq<nat>, k: nat, reqs: seq<Request>, head: nat, moved: seq<nat>, moved': seq<nat>)
    requires Routed(reqs, b.reqs, States(b.servers), head, b.serverHead, moved') && k < |l| && l[k] < |b.reqs|
    requires moved' == moved + StuckOf(reqs, l[..k], s) && Distinct(l) && l[k] !in moved
    ensures l[k] !in moved' && l[k] < |reqs| && b.reqs[l[k]] == reqs[l[k]]
  {
    StuckAre(reqs, l[..k], s);
    assert l[k] !in l[..k];
  }

  lemma HeadOf(b: DnsBase, w: nat)
    requires b.Valid() && w < |b.lists|
    ensures w < |b.heads| && (b.heads[w] == NULL <==> b.lists[w] == [])
    ensures b.lists[w] != [] ==> b.heads[w] == b.lists[w][0]
  {
    assert Linked(b.next, b.prev, b.heads[w], b.lists[w]);
  }

  lemma {:induction false} JoinedHas(lists: seq<seq<nat>>, r: nat)
    ensures r in Joined(lists) <==> exists i | 0 <= i < |lists| :: r in lists[i]
  {
    if lists != [] {
      var n := |lists| - 1;
      JoinedHas(lists[..n], r);
      assert forall i | 0 <= i < n :: lists[..n][i] == lists[i];
    }
  }

  /** What is in one bucket is in no bucket before it. */
  lemma BucketsApart(b: DnsBase, reqs: seq<Request>, i: nat, s: nat)
    requires b.Valid() && 0 < i < |b.lists|
    ensures forall r | r in StuckOf(reqs, Joined(b.lists[1..i]), s) :: r !in b.lists[i]
  {
    StuckAre(reqs, Joined(b.lists[1..i]), s);
    forall r | r in StuckOf(reqs, Joined(b.lists[1..i]), s)
      ensures r !in b.lists[i]
    {
      JoinedHas(b.lists[1..i], r);
      var j :| 0 <= j < i - 1 && r in b.lists[1..i][j];
      assert Owned(b.lists[i], b.owner, i) && Owned(b.lists[j + 1], b.owner, j + 1);
    }
  }

  /** The walk of `nameserver_failed` through all buckets. */
  method MoveAll(b: DnsBase, s: nat) returns (ghost moved: seq<nat>)
    requires b.Valid() && s < |b.servers| && !b.servers[s].state && b.good > 0
    modifies b`reqs, b`servers, b`serverHead
    ensures Moving(b, old(b.reqs), old(b.serverHead), moved)
    ensures b.lists != [] && moved == StuckOf(old(b.reqs), Joined(b.lists[1..]), s)
  {
    hide LinksOk;
    hide RecordsOk;
    hide Good;
    hide Routed;
    hide IsPick;
    OneList(b);
    RoutedNone(b.reqs, States(b.servers), b.serverHead);
    moved := [];
    ghost var reqs := b.reqs;
    var i := 1;
    while i < |b.heads|
      invariant 1 <= i <= |b.heads| == |b.lists|
      invariant Moving(b, reqs, old(b.serverHead), moved)
      invariant moved == StuckOf(reqs, Joined(b.lists[1..i]), s)
    {
      BucketsApart(b, reqs, i, s);
      ghost var l := Joined(b.lists[1..i]);
      moved := MoveBucket(b, s, i, reqs, old(b.serverHead), moved);
      StuckJoined(reqs, l, b.lists[i], s);
      assert b.lists[1..i + 1][..i - 1] == b.lists[1..i];
      i := i + 1;
    }
    assert b.lists[1..i] == b.lists[1..];
  }

  lemma OneList(b: DnsBase)
    requires b.Valid()
    ensures |b.heads| == |b.lists| > 1
  {
  }

  lemma InBucket(b: DnsBase, w: nat, r: nat)
    requires b.Valid() && 0 < w < |b.lists| && r in b.lists[w]
    ensures r < |b.reqs| && b.reqs[r].queued && b.reqs[r].ns != NULL
  {
    assert Owned(b.lists[w], b.owner, w);
  }

  /** Every request in flight is in some bucket. */
  lemma InBuckets(b: DnsBase)
    requires b.Valid()
    ensures forall r | 0 <= r < |b.reqs| :: (r in Joined(b.lists[1..]) <==> b.reqs[r].queued && b.reqs[r].ns != NULL)
  {
    forall r | 0 <= r < |b.reqs|
      ensures r in Joined(b.lists[1..]) <==> b.reqs[r].queued && b.reqs[r].ns != NULL
    {
      JoinedHas(b.lists[1..], r);
      BucketFacts(b, b.reqs[r].transId);
      if b.reqs[r].queued && b.reqs[r].ns != NULL {
        assert r in b.lists[1..][b.reqs[r].transId % (|b.heads| - 1)];
      } else if r in Joined(b.lists[1..]) {
        var i :| 0 <= i < |b.lists[1..]| && r in b.lists[1..][i];
        InBucket(b, i + 1, r);
      }
    }
  }

  /** The request is in flight. */
  predicate Flies(q: Request) {
    q.queued && q.ns != NULL
  }

  /** Server `s` has failed: it is taken off the good ones, once, and if there are others, exactly the requests that
      have not been sent to it go to them in turn. */
  ghost predicate FailedOf(reqs: seq<Request>, servers: seq<Server>, head: nat, s: nat, lists: seq<seq<nat>>,
                           reqs': seq<Request>, servers': seq<Server>, head': nat)
    requires s < |servers| && lists != []
  {
    var failed := servers[s := servers[s].(state := false, failedTimes := 1)];
    if !servers[s].state then reqs' == reqs && servers' == servers && head' == head
    else
      && SameHealth(failed, servers')
      && Routed(reqs, reqs', States(failed), head, head',
                if Good(failed) == 0 then [] else StuckOf(reqs, Joined(lists[1..]), s))
  }

  /** `nameserver_failed`: once, a failed server is taken off the good ones, and if there are good ones
      left, every request that has not been sent to it goes to one of them. */
  method NameserverFailed(b: DnsBase, s: nat)
    requires b.Valid() && s < |b.servers|
    modifies b`reqs, b`servers, b`serverHead, b`good
    ensures b.Valid() && SameLists(b) && !b.servers[s].state && b.lists != []
    ensures FailedOf(old(b.reqs), old(b.servers), old(b.serverHead), s, b.lists, b.reqs, b.servers, b.serverHead)
    ensures b.good == old(b.good) - One(old(b.servers)[s].state)
    ensures old(b.servers)[s].state && b.good > 0 ==> forall r | 0 <= r < |b.reqs| && Flies(b.reqs[r]) :: !Stuck(b.reqs[r], s)
  {
    hide LinksOk;
    hide RecordsOk;
    hide Good;
    hide InTurn;
    hide Routed;
    OneList(b);
    if !b.servers[s].state {
      return;
    }
    MarkFailed(b, s);
    assert b.good >= 0;
    if b.good == 0 {
      RoutedNone(b.reqs, States(b.servers), b.serverHead);
      return;
    }
    ghost var failed := b.servers;
    ghost var moved := MoveAll(b, s);
    SameStates(failed, b.servers);
    NoneStuck(b, old(b.reqs), old(b.serverHead), s, moved);
  }

  lemma NoneStuck(b: DnsBase, reqs: seq<Request>, head: nat, s: nat, moved: seq<nat>)
    requires b.Valid() && s < |b.servers| && !b.servers[s].state && b.good > 0 && |b.lists| > 1
    requires Routed(reqs, b.reqs, States(b.servers), head, b.serverHead, moved)
    requires moved == StuckOf(reqs, Joined(b.lists[1..]), s)
    ensures forall r | 0 <= r < |b.reqs| && Flies(b.reqs[r]) :: !Stuck(b.reqs[r], s)
  {
    InBuckets(b);
    StuckAre(reqs, Joined(b.lists[1..]), s);
    GoodOne(b.servers);
    forall r | 0 <= r < |b.reqs| && Flies(b.reqs[r])
      ensures !Stuck(b.reqs[r], s)
    {
      if r in moved {
        var i :| 0 <= i < |moved| && moved[i] == r;
        var t :| 0 <= t < |b.servers| && b.servers[t].state;
        assert States(b.servers)[t];
      }
    }
  }

  method MarkFailed(b: DnsBase, s: nat)
    requires b.Valid() && s < |b.servers| && b.servers[s].state
    modifies b`servers, b`good
    ensures b.Valid() && b.good == old(b.good) - 1
    ensures b.servers == old(b.servers)[s := old(b.servers)[s].(state := false, failedTimes := 1)]
  {
    hide LinksOk;
    GoodStep(b.servers, s, b.servers[s].(state := false, failedTimes := 1));
    b.good := b.good - 1;
    b.servers := b.servers[s := b.servers[s].(state := false, failedTimes := 1)];
  }

  /** `nameserver_up`. */
  method NameserverUp(b: DnsBase, s: nat)
    requires b.Valid() && s < |b.servers|
    modifies b`servers, b`good
    ensures b.Valid() && b.good == old(b.good) + One(!old(b.servers)[s].state)
    ensures b.servers == if old(b.servers)[s].state then old(b.servers)
                         else old(b.servers)[s := Server(true, old(b.servers)[s].inflight, 0, 0)]
  {
    hide LinksOk;
    if b.servers[s].state {
      return;
    }
    var v := b.servers[s].(state := true, failedTimes := 0, timedout := 0);
    GoodStep(b.servers, s, v);
    b.servers := b.servers[s := v];
    b.good := b.good + 1;
  }

  // ---- sending

  /** The records after fields of a request have changed that say nothing of its place. */
  lemma FieldOk(reqs: seq<Request>, servers: seq<Server>, owner: seq<int>, n: nat, r: nat, q: Request)
    requires RecordsOk(reqs, servers, owner, n) && r < |reqs|
    requires q == reqs[r].(txCount := q.txCount, transmitMe := q.transmitMe, reissues := q.reissues)
    ensures RecordsOk(reqs[r := q], servers, owner, n)
  {
    forall s | 0 <= s < |servers|
      ensures Load(reqs[r := q], s) == servers[s].inflight
    {
      LoadStep(reqs, r, q, s);
    }
  }

  /** What the network does with a packet: takes it, takes none for now, or fails. */
  datatype Outcome = Taken | Later | Broken

  /** The request may have got another server, if it had not been sent and some server has failed. */
  predicate Switched(q: Request, q': Request, broken: bool) {
    && q' == q.(ns := q'.ns)
    && (q'.ns == q.ns || (broken && Flies(q) && q.txCount == 0 && q'.ns != NULL))
  }

  /** The request has been handed to the network, which takes it later or not. */
  predicate Tried(q: Request, q': Request, later: bool, broken: bool) {
    && q'.transmitMe == later && q'.txCount == q.txCount + One(!later)
    && Switched(q, q'.(transmitMe := q.transmitMe, txCount := q.txCount), broken)
  }

  /** Servers may have failed, and nothing else is known of them that was not known before. */
  predicate FailuresOnly(servers: seq<Server>, servers': seq<Server>, broken: bool) {
    && |servers'| == |servers|
    && forall s | 0 <= s < |servers| ::
         var v, v' := servers[s], servers'[s];
         && v' == v.(inflight := v'.inflight, state := v'.state, failedTimes := v'.failedTimes)
         && (v'.state ==> v.state) && (!broken ==> v'.state == v.state)
         && v'.failedTimes == if v.state && !v'.state then 1 else v.failedTimes
  }

  lemma FailedMeans(reqs: seq<Request>, servers: seq<Server>, head: nat, s: nat, lists: seq<seq<nat>>,
                    reqs': seq<Request>, servers': seq<Server>, head': nat)
    requires s < |servers| && lists != [] && FailedOf(reqs, servers, head, s, lists, reqs', servers', head')
    requires forall r | 0 <= r < |reqs| && r in Joined(lists[1..]) :: Flies(reqs[r])
    ensures |reqs'| == |reqs| && forall r | 0 <= r < |reqs| :: Switched(reqs[r], reqs'[r], true)
    ensures FailuresOnly(servers, servers', true) && !servers'[s].state
    ensures forall t | 0 <= t < |servers| && t != s :: servers'[t].state == servers[t].state
  {
    if servers[s].state {
      var failed := servers[s := servers[s].(state := false, failedTimes := 1)];
      var moved := if Good(failed) == 0 then [] else StuckOf(reqs, Joined(lists[1..]), s);
      StuckAre(reqs, Joined(lists[1..]), s);
      forall r | 0 <= r < |reqs|
        ensures Switched(reqs[r], reqs'[r], true)
      {
        if r in moved {
          var i :| 0 <= i < |moved| && moved[i] == r;
        }
      }
    }
  }

  /** The request with these marks of another one. */
  function Marked(reqs: seq<Request>, r: nat, q: Request): seq<Request>
    requires r < |reqs|
  {
    reqs[r := reqs[r].(txCount := q.txCount, transmitMe := q.transmitMe)]
  }

  /** `evdns_request_transmit`: counted as sent when the network takes the packet or fails, and marked to be sent
      later if not.  When the network fails, so has the server. */
  method Transmit(b: DnsBase, r: nat, outcome: Outcome) returns (res: int)
    requires b.Valid() && r < |b.reqs| && Flies(b.reqs[r])
    modifies b`reqs, b`servers, b`serverHead, b`good
    ensures b.Valid() && SameLists(b) && b.lists != [] && 0 <= old(b.reqs)[r].ns < |b.servers|
    ensures res == if outcome.Taken? then 0 else 1
    ensures b.reqs[r].transmitMe == outcome.Later? && b.reqs[r].txCount == old(b.reqs)[r].txCount + One(!outcome.Later?)
    ensures !outcome.Broken? ==>
      Marked(b.reqs, r, old(b.reqs)[r]) == old(b.reqs) && b.servers == old(b.servers) && b.serverHead == old(b.serverHead)
    ensures outcome.Broken? ==>
      FailedOf(old(b.reqs), old(b.servers), old(b.serverHead), old(b.reqs)[r].ns, b.lists,
               Marked(b.reqs, r, old(b.reqs)[r]), b.servers, b.serverHead)
    ensures Tried(old(b.reqs)[r], b.reqs[r], outcome.Later?, outcome.Broken?)
    ensures forall j | 0 <= j < |b.reqs| && j != r :: Switched(old(b.reqs)[j], b.reqs[j], outcome.Broken?)
    ensures FailuresOnly(old(b.servers), b.servers, outcome.Broken?)
  {
    hide LinksOk;
    hide RecordsOk;
    hide FailedOf;
    OneList(b);
    InBuckets(b);
    IdIsSet(b, r);
    ghost var reqs, servers, head := b.reqs, b.servers, b.serverHead;
    FieldOk(b.reqs, b.servers, b.owner, |b.heads| - 1, r, b.reqs[r].(transmitMe := true));
    b.reqs := b.reqs[r := b.reqs[r].(transmitMe := true)];
    assert b.reqs[r].transId != NO_ID;
    if outcome == Later {
      return 1;
    }
    res := 0;
    ghost var marked := b.reqs;
    if outcome == Broken {
      NameserverFailed(b, b.reqs[r].ns);
      FailedMarked(reqs, marked, servers, head, reqs[r].ns, b.lists, r, b.reqs, b.servers, b.serverHead);
      res := 1;
    }
    var q := b.reqs[r].(txCount := b.reqs[r].txCount + 1, transmitMe := false);
    FieldOk(b.reqs, b.servers, b.owner, |b.heads| - 1, r, q);
    ghost var sent := b.reqs;
    b.reqs := b.reqs[r := q];
    assert Marked(b.reqs, r, reqs[r]) == Marked(sent, r, reqs[r]);
    TransmitMeans(reqs, servers, head, r, b.lists, b.reqs, b.servers, b.serverHead, outcome);
  }

  lemma TransmitMeans(reqs: seq<Request>, servers: seq<Server>, head: nat, r: nat, lists: seq<seq<nat>>,
                      reqs': seq<Request>, servers': seq<Server>, head': nat, outcome: Outcome)
    requires r < |reqs| == |reqs'| && 0 <= reqs[r].ns < |servers| && lists != []
    requires forall j | 0 <= j < |reqs| && j in Joined(lists[1..]) :: Flies(reqs[j])
    requires reqs'[r].transmitMe == outcome.Later? && reqs'[r].txCount == reqs[r].txCount + One(!outcome.Later?)
    requires var m := Marked(reqs', r, reqs[r]);
      if outcome.Broken? then FailedOf(reqs, servers, head, reqs[r].ns, lists, m, servers', head')
      else m == reqs && servers' == servers
    ensures Tried(reqs[r], reqs'[r], outcome.Later?, outcome.Broken?)
    ensures forall j | 0 <= j < |reqs| && j != r :: Switched(reqs[j], reqs'[j], outcome.Broken?)
    ensures FailuresOnly(servers, servers', outcome.Broken?)
  {
    var m := Marked(reqs', r, reqs[r]);
    hide FailedOf;
    if outcome.Broken? {
      FailedMeans(reqs, servers, head, reqs[r].ns, lists, m, servers', head');
    }
    assert Switched(reqs[r], m[r], outcome.Broken?);
    assert forall j | 0 <= j < |reqs| && j != r :: m[j] == reqs'[j];
  }

  /** A mark makes no difference to who has to move. */
  lemma FailedMarked(reqs: seq<Request>, marked: seq<Request>, servers: seq<Server>, head: nat, s: nat, lists: seq<seq<nat>>,
                     r: nat, reqs': seq<Request>, servers': seq<Server>, head': nat)
    requires r < |reqs| && s < |servers| && lists != [] && marked == reqs[r := reqs[r].(transmitMe := true)]
    requires FailedOf(marked, servers, head, s, lists, reqs', servers', head')
    ensures r < |reqs'| && reqs'[r].txCount == reqs[r].txCount
    ensures FailedOf(reqs, servers, head, s, lists, Marked(reqs', r, reqs[r]), servers', head')
  {
    StuckSame(reqs, marked, Joined(lists[1..]), s);
    if servers[s].state {
      var failed := servers[s := servers[s].(state := false, failedTimes := 1)];
      RoutedMarked(reqs, marked, States(failed), head, r, reqs', head',
                   if Good(failed) == 0 then [] else StuckOf(reqs, Joined(lists[1..]), s));
    }
  }

  lemma {:induction false} StuckSame(reqs: seq<Request>, reqs': seq<Request>, l: seq<nat>, s: int)
    requires |reqs| == |reqs'| && forall r | 0 <= r < |reqs| :: reqs'[r].txCount == reqs[r].txCount && reqs'[r].ns == reqs[r].ns
    ensures StuckOf(reqs', l, s) == StuckOf(reqs, l, s)
  {
    if l != [] {
      StuckSame(reqs, reqs', l[..|l| - 1], s);
    }
  }

  lemma TurnMarked(good: seq<bool>, head: nat, head': nat, r: nat, reqs: seq<Request>, q: Request, moved: seq<nat>)
    requires InTurn(good, head, head', reqs, moved) && r < |reqs|
    ensures InTurn(good, head, head', Marked(reqs, r, q), moved)
  {
    hide IsPick;
    hide HeadAfter;
    var m := Marked(reqs, r, q);
    assert forall i | 0 <= i <= |moved| :: HeadBefore(good, head, m, moved, i) == HeadBefore(good, head, reqs, moved, i);
  }

  lemma RoutedMarked(reqs: seq<Request>, marked: seq<Request>, good: seq<bool>, head: nat, r: nat, reqs': seq<Request>,
                     head': nat, moved: seq<nat>)
    requires r < |reqs| && marked == reqs[r := reqs[r].(transmitMe := true)]
    requires Routed(marked, reqs', good, head, head', moved)
    ensures r < |reqs'| && reqs'[r].txCount == reqs[r].txCount
    ensures Routed(reqs, Marked(reqs', r, reqs[r]), good, head, head', moved)
  {
    var m := Marked(reqs', r, reqs[r]);
    TurnMarked(good, head, head', r, reqs', reqs[r], moved);
    hide InTurn;
    assert r in moved || reqs'[r] == marked[r];
  }

  lemma IdIsSet(b: DnsBase, r: nat)
    requires b.Valid() && r < |b.reqs| && b.reqs[r].queued && b.reqs[r].ns != NULL
    ensures b.reqs[r].transId != NO_ID && 0 <= b.reqs[r].ns < |b.servers|
  {
  }
}
