/** `evdns.c`: timeouts and answers of requests, and runs of any length. */
module DnsRun {
  import opened Basics
  import opened NatLists
  import opened DnsLinks
  import opened DnsQueues
  import opened DnsServers
  import opened DnsRoutes
  import opened DnsRequests
  import opened DnsFlow
  import opened DnsResize

  /** One request has ended, or none: all others are still there. */
  twostate predicate EndedOne(b: DnsBase, r: int)
    reads b
  {
    && |b.reqs| == |old(b.reqs)| && |b.servers| == |old(b.servers)| && b.maxInflight == old(b.maxInflight)
    && (forall j | 0 <= j < |b.reqs| :: b.reqs[j].queued == (old(b.reqs)[j].queued && j != r))
    && b.inflight + b.waiting == old(b.inflight + b.waiting) - One(r != NULL)
    && b.lists != [] && old(b.lists) != []
    && (r == NULL ==> b.lists[0] == old(b.lists)[0] && b.inflight == old(b.inflight))
  }

  /** What a request that ends leaves behind: those that waited first have gone out, and what was to be sent has been
      sent. */
  ghost predicate Left(reqs: seq<Request>, waiting: seq<nat>, servers: seq<Server>, head: nat, r: nat,
                       reqs': seq<Request>, waiting': seq<nat>, servers': seq<Server>, head': nat, net: Network, broken: bool)
    requires r < |reqs|
  {
    var w := Unless(waiting, r);
    && |waiting'| <= |w| && waiting' == w[|w| - |waiting'|..]
    && Pumped(reqs[r := reqs[r].(queued := false)], w, reqs', |w| - |waiting'|, net, broken)
    && FailuresOnly(servers, servers', broken)
    && (!broken ==> InTurn(States(servers), head, head', reqs', w[..|w| - |waiting'|]))
  }

  /** A request that has been sent again: it is with the server `t` that comes next, and counted as sent unless the
      network takes it later.  A timeout more is counted at server `u`, which is `t` unless the network has failed; too
      many in a row, and that server has failed. */
  ghost predicate Resent(reqs: seq<Request>, servers: seq<Server>, head: nat, r: nat, maxTimeouts: nat, outcome: Outcome,
                         reqs': seq<Request>, servers': seq<Server>, t: int, u: int)
    requires r < |reqs|
  {
    && IsPick(States(servers), head, t) && |reqs'| == |reqs| && |servers'| == |servers| && 0 <= u < |servers|
    && (u == t || (outcome.Broken? && reqs[r].txCount == 0))
    && var tooMany := servers[u].timedout + 1 > maxTimeouts;
       && Tried(reqs[r].(ns := t), reqs'[r], outcome.Later?, outcome.Broken? || tooMany)
       && (reqs'[r].txCount > 0 || !tooMany ==> reqs'[r].ns == u)
       && (forall j | 0 <= j < |reqs| && j != r :: Switched(reqs[j], reqs'[j], outcome.Broken? || tooMany))
       && (forall v | 0 <= v < |servers| ::
             && servers'[v].timedout == (if v != u then servers[v].timedout else if tooMany then 0 else servers[u].timedout + 1)
             && servers'[v].state == (servers[v].state && !(v == u && tooMany) && !(v == t && outcome.Broken?))
             && servers'[v].failedTimes == if servers[v].state && !servers'[v].state then 1 else servers[v].failedTimes)
  }

  /** `evdns_request_timeout_callback`: after enough tries the request is given up and its server has
      failed; before that it is sent again, to the next server. */
  method TimeoutCallback(b: DnsBase, r: nat, maxRetransmits: nat, maxTimeouts: nat, net: Network)
    returns (ghost t: int, ghost u: int)
    requires b.Valid() && r < |b.reqs| && b.reqs[r].queued && b.reqs[r].ns != NULL
    modifies b
    ensures b.Valid() && b.lists != [] && old(b.lists) != []
    ensures old(b.reqs)[r].txCount >= maxRetransmits ==>
      && EndedOne(b, r) && Busy(b)
      && Left(old(b.reqs), old(b.lists)[0], old(b.servers), old(b.serverHead), r,
              b.reqs, b.lists[0], b.servers, b.serverHead, net, true)
      && 0 <= old(b.reqs)[r].ns < |b.servers| && !b.servers[old(b.reqs)[r].ns].state
    ensures old(b.reqs)[r].txCount < maxRetransmits ==>
      && EndedOne(b, NULL)
      && Resent(old(b.reqs), old(b.servers), old(b.serverHead), r, maxTimeouts, net.first(r), b.reqs, b.servers, t, u)
  {
    hide LinksOk;
    hide RecordsOk;
    hide Good;
    hide Left;
    hide Resent;
    Shape(b);
    t, u := NULL, NULL;
    if b.reqs[r].txCount >= maxRetransmits {
      GiveUp(b, r, net);
    } else {
      t, u := SendAgain(b, r, maxTimeouts, net.first(r));
    }
  }

  /** The request is given up. */
  method GiveUp(b: DnsBase, r: nat, net: Network)
    requires b.Valid() && r < |b.reqs| && b.reqs[r].queued && b.reqs[r].ns != NULL
    modifies b
    ensures b.Valid() && EndedOne(b, r) && Busy(b)
    ensures Left(old(b.reqs), old(b.lists)[0], old(b.servers), old(b.serverHead), r,
                 b.reqs, b.lists[0], b.servers, b.serverHead, net, true)
    ensures 0 <= old(b.reqs)[r].ns < |b.servers| && !b.servers[old(b.reqs)[r].ns].state
  {
    hide LinksOk;
    hide RecordsOk;
    hide Good;
    hide Pumped;
    hide FailedOf;
    hide FailuresOnly;
    hide InTurn;
    hide NetBreaks;
    Shape(b);
    IdIsSet(b, r);
    ghost var reqs, servers, waiting := b.reqs, b.servers, b.lists[0];
    var s := b.reqs[r].ns;
    var k := Finish(b, r, 1 + b.reqs[r].transId % (|b.heads| - 1), net);
    ghost var m, servers1, head1 := b.reqs, b.servers, b.serverHead;
    LeftLengths(reqs[r := reqs[r].(queued := false)], Unless(waiting, r), m, k, net, servers, servers1);
    InBuckets(b);
    NameserverFailed(b, s);
    FailedMeans(m, servers1, head1, s, b.lists, b.reqs, b.servers, b.serverHead);
    PumpedStill(reqs[r := reqs[r].(queued := false)], Unless(waiting, r), m, b.reqs, k, net);
    FailuresMaybe(servers, servers1, NetBreaks(net), true);
    FailuresTwice(servers, servers1, b.servers, true);
  }

  lemma LeftLengths(reqs: seq<Request>, waiting: seq<nat>, reqs': seq<Request>, k: nat, net: Network,
                    servers: seq<Server>, servers': seq<Server>)
    requires Pumped(reqs, waiting, reqs', k, net, NetBreaks(net)) && FailuresOnly(servers, servers', NetBreaks(net))
    ensures |reqs'| == |reqs| && |servers'| == |servers|
  {
  }

  lemma PumpedStill(reqs: seq<Request>, waiting: seq<nat>, m: seq<Request>, reqs': seq<Request>, k: nat, net: Network)
    requires Pumped(reqs, waiting, m, k, net, NetBreaks(net))
    requires |m| == |reqs'| && forall r | 0 <= r < |m| :: Switched(m[r], reqs'[r], true)
    ensures Pumped(reqs, waiting, reqs', k, net, true)
  {
    hide NetBreaks;
    hide NotTaken;
    forall r | 0 <= r < |reqs| && Flies(reqs[r])
      ensures FlewOn(reqs[r], reqs'[r], r, k, net, true)
    {
      assert FlewOn(reqs[r], m[r], r, k, net, NetBreaks(net));
    }
    forall i | 0 <= i < k
      ensures waiting[i] < |reqs| && WentOut(reqs[waiting[i]], reqs'[waiting[i]], waiting[i], i, k, net)
    {
      assert WentOut(reqs[waiting[i]], m[waiting[i]], waiting[i], i, k, net);
    }
  }

  lemma ResentIs(reqs: seq<Request>, servers: seq<Server>, head: nat, r: nat, maxTimeouts: nat, outcome: Outcome,
                 servers1: seq<Server>, reqs2: seq<Request>, servers2: seq<Server>,
                 reqs3: seq<Request>, servers3: seq<Server>, t: int, u: int)
    requires r < |reqs| && reqs[r].queued && reqs[r].ns != NULL && IsPick(States(servers), head, t)
    requires SameHealth(servers, servers1) && FailuresOnly(servers1, servers2, outcome.Broken?) && |reqs2| == |reqs|
    requires Tried(reqs[r].(ns := t), reqs2[r], outcome.Later?, outcome.Broken?) && u == reqs2[r].ns && 0 <= u < |servers|
    requires forall j | 0 <= j < |reqs| && j != r :: Switched(reqs[j], reqs2[j], outcome.Broken?)
    requires outcome.Broken? && 0 <= t < |servers2| ==>
      !servers2[t].state && forall v | 0 <= v < |servers2| && v != t :: servers2[v].state == servers1[v].state
    requires |servers2| == |servers| && Charged(reqs2, servers2, u, maxTimeouts, reqs3, servers3)
    ensures Resent(reqs, servers, head, r, maxTimeouts, outcome, reqs3, servers3, t, u)
  {
    hide IsPick;
    PickInRange(States(servers), head, t);
    assert servers2[u].timedout == servers[u].timedout;
  }

  /** The request is sent again. */
  method SendAgain(b: DnsBase, r: nat, maxTimeouts: nat, outcome: Outcome) returns (ghost t: int, ghost u: int)
    requires b.Valid() && r < |b.reqs| && b.reqs[r].queued && b.reqs[r].ns != NULL
    modifies b`reqs, b`servers, b`serverHead, b`good
    ensures b.Valid() && SameLists(b)
    ensures Resent(old(b.reqs), old(b.servers), old(b.serverHead), r, maxTimeouts, outcome, b.reqs, b.servers, t, u)
  {
    hide LinksOk;
    hide RecordsOk;
    hide Good;
    hide FailedOf;
    hide IsPick;
    hide HeadAfter;
    hide Charged;
    hide Resent;
    hide SameHealth;
    IdIsSet(b, r);
    ghost var reqs, servers, head := b.reqs, b.servers, b.serverHead;
    var s := NameserverPick(b);
    PickInRange(States(servers), head, s);
    t := s;
    SwapNs(b, r, s);
    InBuckets(b);
    ghost var reqs1, servers1, head1 := b.reqs, b.servers, b.serverHead;
    var res := Transmit(b, r, outcome);
    ghost var reqs2, servers2 := b.reqs, b.servers;
    IdIsSet(b, r);
    u := b.reqs[r].ns;
    if outcome.Broken? {
      FailedMeans(reqs1, servers1, head1, s, b.lists, Marked(b.reqs, r, reqs1[r]), b.servers, b.serverHead);
    }
    TimedOut(b, b.reqs[r].ns, maxTimeouts);
    ResentIs(reqs, servers, head, r, maxTimeouts, outcome, servers1, reqs2, servers2, b.reqs, b.servers, t, u);
  }

  /** One more timeout is counted at this server; too many in a row, and the server has failed. */
  predicate Charged(reqs: seq<Request>, servers: seq<Server>, s: int, maxTimeouts: nat, reqs': seq<Request>, servers': seq<Server>)
    requires 0 <= s < |servers|
  {
    var tooMany := servers[s].timedout + 1 > maxTimeouts;
    && |reqs'| == |reqs| && |servers'| == |servers|
    && (forall r | 0 <= r < |reqs| :: Switched(reqs[r], reqs'[r], tooMany))
    && (forall v | 0 <= v < |servers| ::
          var w, w' := servers[v], servers'[v];
          && w'.timedout == (if v != s then w.timedout else if tooMany then 0 else w.timedout + 1)
          && w'.state == (w.state && !(v == s && tooMany))
          && w'.failedTimes == if w.state && !w'.state then 1 else w.failedTimes)
  }

  /** One more request of this server has timed out; too many in a row, and the server has failed. */
  method TimedOut(b: DnsBase, s: nat, maxTimeouts: nat)
    requires b.Valid() && s < |b.servers|
    modifies b`reqs, b`servers, b`serverHead, b`good
    ensures b.Valid() && SameLists(b)
    ensures Charged(old(b.reqs), old(b.servers), s, maxTimeouts, b.reqs, b.servers)
  {
    hide LinksOk;
    hide FailedOf;
    InBuckets(b);
    var failed := b.servers[s].timedout + 1 > maxTimeouts;
    ghost var servers, reqs, head := b.servers, b.reqs, b.serverHead;
    b.servers := b.servers[s := b.servers[s].(timedout := if failed then 0 else b.servers[s].timedout + 1)];
    GoodSame(servers, b.servers);
    ghost var counted := b.servers;
    if failed {
      NameserverFailed(b, s);
      FailedMeans(reqs, counted, head, s, b.lists, b.reqs, b.servers, b.serverHead);
    }
  }

  /** The servers when one of them has been found to be up. */
  function UpAgain(servers: seq<Server>, s: int): (up: seq<Server>)
    ensures |up| == |servers| && forall v | 0 <= v < |servers| ::
              && up[v].state == (servers[v].state || v == s) && up[v].inflight == servers[v].inflight
              && (v != s || servers[v].state ==> up[v] == servers[v])
              && (v == s && !servers[v].state ==> up[v].failedTimes == 0 == up[v].timedout)
  {
    if 0 <= s < |servers| && !servers[s].state then servers[s := Server(true, servers[s].inflight, 0, 0)] else servers
  }

  /** A good answer with this id: the request it belongs to is done, and its server is up. */
  method Answer(b: DnsBase, id: nat, net: Network) returns (r: int)
    requires b.Valid()
    modifies b
    ensures b.Valid() && EndedOne(b, r) && (r != NULL ==> Busy(b))
    ensures r == NULL <==> !InFlight(old(b.reqs), id)
    ensures r == NULL ==> b.reqs == old(b.reqs) && b.servers == old(b.servers) && b.serverHead == old(b.serverHead)
    ensures r != NULL ==>
      && 0 <= r < |b.reqs| && old(b.reqs)[r].transId == id && old(b.reqs)[r].queued && old(b.reqs)[r].ns != NULL
      && Left(old(b.reqs), old(b.lists)[0], UpAgain(old(b.servers), old(b.reqs)[r].ns), old(b.serverHead), r,
              b.reqs, b.lists[0], b.servers, b.serverHead, net, NetBreaks(net))
  {
    hide LinksOk;
    hide RecordsOk;
    hide Good;
    hide InFlight;
    hide Pumped;
    hide FailuresOnly;
    hide InTurn;
    hide NetBreaks;
    Shape(b);
    r := Find(b, id);
    if r != NULL {
      IdIsSet(b, r);
      ghost var reqs, waiting := b.reqs, b.lists[0];
      NameserverUp(b, b.reqs[r].ns);
      ghost var up := b.servers;
      assert up == UpAgain(old(b.servers), reqs[r].ns);
      var k := Finish(b, r, 1 + id % (|b.heads| - 1), net);
      LeftLengths(reqs[r := reqs[r].(queued := false)], Unless(waiting, r), b.reqs, k, net, up, b.servers);
      if !NetBreaks(net) { FailuresNone(up, b.servers); }
    }
  }

  // ---- runs

  datatype Op =
    | OpResolve(outcome: Outcome)
    | OpCancel(r: nat, net: Network)
    | OpAnswer(id: nat, net: Network)
    | OpTimeout(r: nat, maxRetransmits: nat, maxTimeouts: nat, net: Network)
    | OpReissue(r: nat)
    | OpFailed(s: nat)
    | OpUp(s: nat)
    | OpProbe(s: nat, outcome: Outcome)
    | OpTransmit(round: nat -> Outcome)
    | OpSetMax(max: int)

  predicate Allowed(b: DnsBase, op: Op)
    reads b
  {
    match op
    case OpResolve(_) => true
    case OpCancel(r, _) => r < |b.reqs| && b.reqs[r].queued
    case OpAnswer(_, _) => true
    case OpTimeout(r, _, _, _) => r < |b.reqs| && b.reqs[r].queued && b.reqs[r].ns != NULL
    case OpReissue(r) => r < |b.reqs| && b.reqs[r].queued && b.reqs[r].ns != NULL
    case OpFailed(s) => s < |b.servers|
    case OpUp(s) => s < |b.servers|
    case OpProbe(s, _) => s < |b.servers| && b.inflight < NO_ID
    case OpTransmit(_) => true
    case OpSetMax(max) => max <= MAX_INFLIGHT
  }

  /** A base at one moment: its requests, those that wait in their order, and what it counts. */
  datatype Snapshot = Snapshot(reqs: seq<Request>, waiting: seq<nat>, servers: seq<Server>, head: nat, inflight: int,
                               count: int, max: int)

  ghost function StateOf(b: DnsBase): Snapshot
    reads b
  {
    Snapshot(b.reqs, if b.lists == [] then [] else b.lists[0], b.servers, b.serverHead, b.inflight,
             b.inflight + b.waiting, b.maxInflight)
  }

  predicate Creates(op: Op) {
    op.OpResolve? || op.OpProbe?
  }

  /** The request that the operation ends, if it ends one. */
  predicate Ends(s: Snapshot, op: Op, r: int) {
    (r == NULL || (0 <= r < |s.reqs| && s.reqs[r].queued)) &&
    match op
    case OpCancel(q, _) => r == q
    case OpAnswer(id, _) =>
      if InFlight(s.reqs, id) then r != NULL && s.reqs[r].ns != NULL && s.reqs[r].transId == id else r == NULL
    case OpTimeout(q, maxRetransmits, _, _) =>
      r == if q < |s.reqs| && s.reqs[q].txCount >= maxRetransmits then q else NULL
    case _ => r == NULL
  }

  /** What happens to the requests that wait: a new one may come last, one may leave, and when a request has
      ended the first ones may go out. */
  predicate WaitingOk(s: Snapshot, op: Op, r: int, s': Snapshot) {
    if op.OpResolve? then s'.waiting == if s.inflight >= s.max || s.servers == [] then s.waiting + [|s.reqs|] else s.waiting
    else if r == NULL then s'.waiting == s.waiting
    else Rest(s'.waiting, Unless(s.waiting, r))
  }

  /** The new request: it is sent to the server that comes next if there is room, and else it waits. */
  ghost predicate Resolved(s: Snapshot, s': Snapshot, outcome: Outcome)
    requires |s'.reqs| > |s.reqs|
  {
    var q := s'.reqs[|s.reqs|];
    var flies := s.inflight < s.max && s.servers != [];
    && (forall j | 0 <= j < |s.reqs| :: Switched(s.reqs[j], s'.reqs[j], outcome.Broken?))
    && FailuresOnly(s.servers, s'.servers, outcome.Broken? && flies)
    && if flies then
         && q.transId < NO_ID && !InFlight(s.reqs, q.transId)
         && exists t | IsPick(States(s.servers), s.head, t) ::
              Tried(Request(true, q.transId, t, 0, false, 0), q, outcome.Later?, outcome.Broken?)
       else q == Request(true, q.transId, NULL, 0, false, 0)
  }

  /** The probe is sent to this server, whatever else is in flight. */
  ghost predicate Probed(s: Snapshot, s': Snapshot, v: nat, outcome: Outcome)
    requires |s'.reqs| > |s.reqs|
  {
    var q := s'.reqs[|s.reqs|];
    && (forall j | 0 <= j < |s.reqs| :: Switched(s.reqs[j], s'.reqs[j], outcome.Broken?))
    && FailuresOnly(s.servers, s'.servers, outcome.Broken?) && q.transId < NO_ID && !InFlight(s.reqs, q.transId)
    && Tried(Request(true, q.transId, v, 0, false, 0), q, outcome.Later?, outcome.Broken?)
  }

  /** The server has failed, and what it had not been sent is not stuck with it if there are others. */
  ghost predicate ServerFailed(s: Snapshot, s': Snapshot, v: nat)
    requires |s'.reqs| == |s.reqs|
  {
    && v < |s.servers| && FailuresOnly(s.servers, s'.servers, true) && !s'.servers[v].state
    && (forall w | 0 <= w < |s.servers| && w != v :: s'.servers[w].state == s.servers[w].state)
    && (forall j | 0 <= j < |s.reqs| :: Switched(s.reqs[j], s'.reqs[j], s.servers[v].state))
    && (s.servers[v].state && Good(s'.servers) > 0 ==>
          forall j | 0 <= j < |s.reqs| && Flies(s'.reqs[j]) :: !Stuck(s'.reqs[j], v))
  }

  /** What an operation does to the requests that there are, and to the servers. */
  ghost predicate Effect(s: Snapshot, op: Op, r: int, s': Snapshot)
    requires |s'.reqs| == |s.reqs| + One(Creates(op)) && NULL <= r < |s.reqs|
  {
    match op
    case OpResolve(outcome) => Resolved(s, s', outcome)
    case OpCancel(_, net) =>
      r != NULL && Left(s.reqs, s.waiting, s.servers, s.head, r, s'.reqs, s'.waiting, s'.servers, s'.head, net, NetBreaks(net))
    case OpAnswer(_, net) =>
      if r == NULL then s'.reqs == s.reqs && s'.servers == s.servers
      else Left(s.reqs, s.waiting, UpAgain(s.servers, s.reqs[r].ns), s.head, r, s'.reqs, s'.waiting, s'.servers, s'.head,
                net, NetBreaks(net))
    case OpTimeout(q, _, maxTimeouts, net) =>
      if r != NULL then
        && Left(s.reqs, s.waiting, s.servers, s.head, r, s'.reqs, s'.waiting, s'.servers, s'.head, net, true)
        && 0 <= s.reqs[r].ns < |s'.servers| && !s'.servers[s.reqs[r].ns].state
      else q < |s.reqs| && exists t, u ::
        Resent(s.reqs, s.servers, s.head, q, maxTimeouts, net.first(q), s'.reqs, s'.servers, t, u)
    case OpReissue(q) =>
      && q < |s.reqs| && SameHealth(s.servers, s'.servers)
      && exists t | IsPick(States(s.servers), s.head, t) ::
           s'.reqs == if t == s.reqs[q].ns then s.reqs
                      else s.reqs[q := s.reqs[q].(ns := t, reissues := s.reqs[q].reissues + 1, txCount := 0, transmitMe := true)]
    case OpFailed(v) => ServerFailed(s, s', v)
    case OpUp(v) => s'.reqs == s.reqs && s'.servers == UpAgain(s.servers, v)
    case OpProbe(v, outcome) => Probed(s, s', v, outcome)
    case OpTransmit(round) =>
      && FailuresOnly(s.servers, s'.servers, Breaks(round))
      && forall j | 0 <= j < |s.reqs| ::
           if Flies(s.reqs[j]) && s.reqs[j].transmitMe then Tried(s.reqs[j], s'.reqs[j], round(j).Later?, Breaks(round))
           else Switched(s.reqs[j], s'.reqs[j], Breaks(round))
    case OpSetMax(_) => s'.reqs == s.reqs && s'.servers == s.servers
  }

  /** No request waits that could be sent. */
  predicate AllBusy(s: Snapshot) {
    s.inflight >= s.max || s.waiting == [] || s.servers == []
  }

  /** What an operation that ends request `r`, or none, makes of a base. */
  ghost predicate StepOk(s: Snapshot, op: Op, r: int, s': Snapshot) {
    && Ends(s, op, r) && WaitingOk(s, op, r, s')
    && |s'.reqs| == |s.reqs| + One(Creates(op)) && |s'.servers| == |s.servers|
    && (forall j | 0 <= j < |s.reqs| :: s'.reqs[j].queued == (s.reqs[j].queued && j != r))
    && (Creates(op) ==> s'.reqs[|s.reqs|].queued)
    && s'.count == s.count + One(Creates(op)) - One(r != NULL)
    && s'.max == (if op.OpSetMax? then (if op.max < 1 then 1 else op.max) else s.max)
    && (r != NULL || (AllBusy(s) && !op.OpSetMax?) ==> AllBusy(s'))
    && Effect(s, op, r, s')
  }

  lemma WaitingCount(b: DnsBase)
    requires b.Valid()
    ensures b.lists != [] && b.waiting == |b.lists[0]|
  {
  }

  /** The operations that end a request or not. */
  method DoEnd(b: DnsBase, op: Op) returns (r: int)
    requires b.Valid() && Allowed(b, op) && (op.OpCancel? || op.OpAnswer? || op.OpTimeout?)
    modifies b
    ensures b.Valid() && StepOk(old(StateOf(b)), op, r, StateOf(b))
  {
    hide DnsBase.Valid;
    hide Rest;
    hide Unless;
    hide InFlight;
    hide Pumped;
    hide FailuresOnly;
    hide InTurn;
    hide NetBreaks;
    hide Resent;
    WaitingCount(b);
    ghost var s := StateOf(b);
    match op {
      case OpCancel(q, net) =>
        var k := Cancel(b, q, net);
        LeftBy(s.reqs, Unless(s.waiting, q), s.servers, q, b.reqs, b.servers, k, net);
        r := q;
      case OpAnswer(id, net) => r := Answer(b, id, net);
      case OpTimeout(q, maxRetransmits, maxTimeouts, net) =>
        r := if b.reqs[q].txCount >= maxRetransmits then q else NULL;
        ghost var t, u := TimeoutCallback(b, q, maxRetransmits, maxTimeouts, net);
    }
    WaitingCount(b);
    RestOf(StateOf(b).waiting, Unless(s.waiting, r));
  }

  lemma LeftBy(reqs: seq<Request>, w: seq<nat>, servers: seq<Server>, r: nat, reqs': seq<Request>, servers': seq<Server>,
               k: nat, net: Network)
    requires r < |reqs| && Pumped(reqs[r := reqs[r].(queued := false)], w, reqs', k, net, NetBreaks(net))
    requires FailuresOnly(servers, servers', NetBreaks(net))
    ensures |reqs'| == |reqs| && |servers'| == |servers| && (!NetBreaks(net) ==> States(servers') == States(servers))
  {
  }

  lemma RestOf(l': seq<nat>, l: seq<nat>)
    ensures Rest(l', l) <==> |l'| <= |l| && l' == l[|l| - |l'|..]
  {
  }

  /** A request for a name: `request_new` and `request_submit`. */
  method Resolve(b: DnsBase, outcome: Outcome)
    requires b.Valid()
    modifies b
    ensures b.Valid() && StepOk(old(StateOf(b)), OpResolve(outcome), NULL, StateOf(b))
  {
    hide DnsBase.Valid;
    hide InFlight;
    hide Rest;
    hide Unless;
    hide IsPick;
    hide HeadAfter;
    WaitingCount(b);
    ghost var s := StateOf(b);
    var r := RequestNew(b);
    assert forall j | 0 <= j < r :: b.reqs[..r][j] == b.reqs[j];
    Submit(b, r, outcome);
    WaitingCount(b);
  }

  /** A server has failed. */
  method FailServer(b: DnsBase, v: nat)
    requires b.Valid() && v < |b.servers|
    modifies b
    ensures b.Valid() && StepOk(old(StateOf(b)), OpFailed(v), NULL, StateOf(b))
  {
    hide LinksOk;
    hide RecordsOk;
    hide InFlight;
    hide FailedOf;
    InBuckets(b);
    ghost var s := StateOf(b);
    NameserverFailed(b, v);
    FailedMeans(s.reqs, s.servers, s.head, v, b.lists, b.reqs, b.servers, b.serverHead);
    FailedOnce(s.reqs, s.servers, s.head, v, b.lists, b.reqs, b.servers, b.serverHead);
  }

  lemma FailedOnce(reqs: seq<Request>, servers: seq<Server>, head: nat, s: nat, lists: seq<seq<nat>>,
                   reqs': seq<Request>, servers': seq<Server>, head': nat)
    requires s < |servers| && lists != [] && FailedOf(reqs, servers, head, s, lists, reqs', servers', head')
    ensures !servers[s].state ==> reqs' == reqs
  {
  }

  /** The other operations. */
  method DoOther(b: DnsBase, op: Op)
    requires b.Valid() && Allowed(b, op) && !(op.OpCancel? || op.OpAnswer? || op.OpTimeout?)
    modifies b
    ensures b.Valid() && StepOk(old(StateOf(b)), op, NULL, StateOf(b))
  {
    hide DnsBase.Valid;
    hide InFlight;
    hide Rest;
    hide Unless;
    hide IsPick;
    hide HeadAfter;
    hide Good;
    hide FailedOf;
    hide Breaks;
    WaitingCount(b);
    ghost var s := StateOf(b);
    match op {
      case OpResolve(outcome) => Resolve(b, outcome);
      case OpReissue(q) =>
        var res, t := Reissue(b, q);
        SameStates(s.servers, b.servers);
        assert IsPick(States(s.servers), s.head, t);
      case OpFailed(v) => FailServer(b, v);
      case OpUp(v) => NameserverUp(b, v);
      case OpProbe(v, outcome) => SendProbe(b, v, outcome);
      case OpTransmit(round) => TransmitAll(b, round);
      case OpSetMax(max) => SetMaxInflight(b, max);
    }
    WaitingCount(b);
  }

  method Do(b: DnsBase, op: Op) returns (r: int)
    requires b.Valid() && Allowed(b, op)
    modifies b
    ensures b.Valid() && StepOk(old(StateOf(b)), op, r, StateOf(b))
  {
    hide DnsBase.Valid;
    hide StepOk;
    if op.OpCancel? || op.OpAnswer? || op.OpTimeout? {
      r := DoEnd(b, op);
    } else {
      DoOther(b, op);
      r := NULL;
    }
  }

  /** What a run has been: the base before the first operation and after each, and what ended with each. */
  ghost predicate Trace(states: seq<Snapshot>, ops: seq<Op>, ended: seq<int>) {
    && |states| == |ops| + 1 && |ended| == |ops|
    && forall i | 0 <= i < |ops| :: StepOk(states[i], ops[i], ended[i], states[i + 1])
  }

  /** How many requests have been created, and how many have ended. */
  function Created(ops: seq<Op>): nat {
    if ops == [] then 0 else Created(ops[..|ops| - 1]) + One(Creates(ops[|ops| - 1]))
  }

  function Ended(ended: seq<int>): nat {
    if ended == [] then 0 else Ended(ended[..|ended| - 1]) + One(ended[|ended| - 1] != NULL)
  }

  /** Of the requests that have been created, the ones on a list are those that have not ended, and the counters
      count them; and unless the number that may be in flight has been changed, none waits that could be sent. */
  ghost predicate ConservedAt(s: Snapshot, ops: seq<Op>, ended: seq<int>) {
    && |s.reqs| == Created(ops) && s.count == Created(ops) - Ended(ended)
    && (forall r | 0 <= r < |s.reqs| :: s.reqs[r].queued <==> r !in ended)
    && (forall r | r in ended :: NULL <= r < |s.reqs|)
    && ((forall i | 0 <= i < |ops| :: !ops[i].OpSetMax?) ==> AllBusy(s))
  }

  lemma CreatedMore(ops: seq<Op>, op: Op)
    ensures Created(ops + [op]) == Created(ops) + One(Creates(op))
  {
    assert (ops + [op])[..|ops|] == ops;
  }

  lemma EndedMore(ended: seq<int>, r: int)
    ensures Ended(ended + [r]) == Ended(ended) + One(r != NULL)
  {
    assert (ended + [r])[..|ended|] == ended;
  }

  lemma QueuedStep(reqs: seq<Request>, ended: seq<int>, r: int, more: bool, reqs': seq<Request>)
    requires (forall j | 0 <= j < |reqs| :: reqs[j].queued <==> j !in ended) && NULL <= r < |reqs|
    requires forall j | j in ended :: NULL <= j < |reqs|
    requires |reqs'| == |reqs| + One(more) && (more ==> reqs'[|reqs|].queued)
    requires forall j | 0 <= j < |reqs| :: reqs'[j].queued == (reqs[j].queued && j != r)
    ensures forall j | 0 <= j < |reqs'| :: reqs'[j].queued <==> j !in ended + [r]
    ensures forall j | j in ended + [r] :: NULL <= j < |reqs'|
  {
  }

  lemma ConservedStep(s: Snapshot, ops: seq<Op>, ended: seq<int>, op: Op, r: int, s': Snapshot)
    requires ConservedAt(s, ops, ended) && StepOk(s, op, r, s')
    ensures ConservedAt(s', ops + [op], ended + [r])
  {
    hide WaitingOk;
    hide Effect;
    hide InFlight;
    hide Created;
    hide Ended;
    CreatedMore(ops, op);
    EndedMore(ended, r);
    QueuedStep(s.reqs, ended, r, Creates(op), s'.reqs);
    assert forall i | 0 <= i < |ops| :: (ops + [op])[i] == ops[i];
    assert (ops + [op])[|ops|] == op;
  }

  /** No request is lost, over any run. */
  lemma {:induction false} Conserved(states: seq<Snapshot>, ops: seq<Op>, ended: seq<int>)
    requires Trace(states, ops, ended) && states[0].reqs == [] && states[0].count == 0 && AllBusy(states[0])
    ensures ConservedAt(states[|ops|], ops, ended)
    decreases |ops|
  {
    hide StepOk;
    if ops != [] {
      var n := |ops| - 1;
      Conserved(states[..n + 1], ops[..n], ended[..n]);
      ConservedStep(states[n], ops[..n], ended[..n], ops[n], ended[n], states[n + 1]);
      assert ops == ops[..n] + [ops[n]] && ended == ended[..n] + [ended[n]];
    }
  }

  // ---- a request is not tried for ever

  /** A timeout of request `r` after which the network takes it again. */
  predicate Retries(op: Op, r: nat) {
    op.OpTimeout? && op.r == r && !op.net.first(r).Later?
  }

  function Tries(ops: seq<Op>, r: nat): nat {
    if ops == [] then 0 else Tries(ops[..|ops| - 1], r) + One(Retries(ops[|ops| - 1], r))
  }

  lemma LeftCount(s: Snapshot, servers: seq<Server>, e: nat, s': Snapshot, net: Network, broken: bool, r: nat)
    requires e < |s.reqs| && r < |s.reqs| == |s'.reqs| && r != e
    requires Left(s.reqs, s.waiting, servers, s.head, e, s'.reqs, s'.waiting, s'.servers, s'.head, net, broken)
    ensures s'.reqs[r].txCount >= s.reqs[r].txCount
  {
    hide NotTaken;
    hide InTurn;
    hide FailuresOnly;
    var w := Unless(s.waiting, e);
    var k := |w| - |s'.waiting|;
    var reqs := s.reqs[e := s.reqs[e].(queued := false)];
    if Flies(reqs[r]) {
      assert FlewOn(reqs[r], s'.reqs[r], r, k, net, broken);
    } else if r in w[..k] {
      var i :| 0 <= i < k && w[..k][i] == r;
      assert w[i] == r;
    }
  }

  /** In one step a request that stays is not counted as sent less often, and once more if it is sent again. */
  lemma CountStep(s: Snapshot, op: Op, e: int, s': Snapshot, r: nat)
    requires StepOk(s, op, e, s') && r < |s.reqs| && s'.reqs[r].queued && !(op.OpReissue? && op.r == r)
    ensures s.reqs[r].queued && s'.reqs[r].txCount >= s.reqs[r].txCount + One(Retries(op, r))
    ensures Retries(op, r) ==> s.reqs[r].txCount < op.maxRetransmits
  {
    hide Left;
    hide IsPick;
    hide FailuresOnly;
    hide InFlight;
    hide Breaks;
    hide NetBreaks;
    match op
    case OpCancel(_, net) => LeftCount(s, s.servers, e, s', net, NetBreaks(net), r);
    case OpAnswer(_, net) =>
      if e != NULL { LeftCount(s, UpAgain(s.servers, s.reqs[e].ns), e, s', net, NetBreaks(net), r); }
    case OpTimeout(q, _, maxTimeouts, net) =>
      if e != NULL {
        LeftCount(s, s.servers, e, s', net, true, r);
      } else {
        var t, u :| Resent(s.reqs, s.servers, s.head, q, maxTimeouts, net.first(q), s'.reqs, s'.servers, t, u);
      }
    case _ =>
  }

  /** Over any part of a run in which a request is not reissued it is sent again at most as often as may be: a request
      that is still there has not been sent again more often. */
  lemma {:induction false} TriesBounded(states: seq<Snapshot>, ops: seq<Op>, ended: seq<int>, i: nat, j: nat, r: nat, max: nat)
    requires Trace(states, ops, ended) && i <= j <= |ops| && r < |states[i].reqs| <= |states[j].reqs|
    requires states[j].reqs[r].queued
    requires forall k | i <= k < j ::
               !(ops[k].OpReissue? && ops[k].r == r) && (ops[k].OpTimeout? && ops[k].r == r ==> ops[k].maxRetransmits <= max)
    ensures Tries(ops[i..j], r) <= max && states[j].reqs[r].txCount >= Tries(ops[i..j], r)
    decreases j
  {
    hide StepOk;
    if i < j {
      RequestsStay(states, ops, ended, i, j - 1);
      StepCounts(states[j - 1], ops[j - 1], ended[j - 1], states[j], r);
      TriesBounded(states, ops, ended, i, j - 1, r, max);
      assert ops[i..j][..j - i - 1] == ops[i..j - 1] && ops[i..j][j - i - 1] == ops[j - 1];
    }
  }

  lemma StepCounts(s: Snapshot, op: Op, e: int, s': Snapshot, r: nat)
    requires StepOk(s, op, e, s') && r < |s.reqs|
    ensures |s'.reqs| >= |s.reqs| && (s'.reqs[r].queued ==> s.reqs[r].queued)
    ensures s'.reqs[r].queued && !(op.OpReissue? && op.r == r) ==>
      && s'.reqs[r].txCount >= s.reqs[r].txCount + One(Retries(op, r))
      && (Retries(op, r) ==> s.reqs[r].txCount < op.maxRetransmits)
  {
    if s'.reqs[r].queued && !(op.OpReissue? && op.r == r) {
      CountStep(s, op, e, s', r);
    }
  }

  lemma {:induction false} RequestsStay(states: seq<Snapshot>, ops: seq<Op>, ended: seq<int>, i: nat, j: nat)
    requires Trace(states, ops, ended) && i <= j <= |ops|
    ensures |states[i].reqs| <= |states[j].reqs|
    decreases j
  {
    if i < j {
      RequestsStay(states, ops, ended, i, j - 1);
      assert StepOk(states[j - 1], ops[j - 1], ended[j - 1], states[j]);
    }
  }

  /** Whatever happens, in any order: every request that was created and has not ended is on its list and
      counted, and every server's counter is the number of requests that are with it. */
  method Run(nservers: nat, max: nat, ops: seq<Op>)
    returns (b: DnsBase, n: nat, ended: seq<int>, ghost states: seq<Snapshot>)
    requires 0 < max <= MAX_INFLIGHT
    ensures b.Valid() && n <= |ops| && (n < |ops| ==> !Allowed(b, ops[n]))
    ensures Trace(states, ops[..n], ended) && states[n] == StateOf(b)
    ensures |b.reqs| == Created(ops[..n]) && b.inflight + b.waiting == Created(ops[..n]) - Ended(ended)
    ensures forall r | 0 <= r < |b.reqs| :: b.reqs[r].queued <==> r !in ended
    ensures (forall i | 0 <= i < n :: !ops[i].OpSetMax?) ==> Busy(b)
    ensures b.inflight == |set r | 0 <= r < |b.reqs| && b.reqs[r].queued && b.reqs[r].ns != NULL|
    ensures b.waiting == |set r | 0 <= r < |b.reqs| && b.reqs[r].queued && b.reqs[r].ns == NULL|
    ensures forall s | 0 <= s < |b.servers| :: b.servers[s].inflight == Load(b.reqs, s)
    ensures b.good == Good(b.servers)
  {
    hide DnsBase.Valid;
    hide StepOk;
    b := new DnsBase(nservers, max);
    n, ended := 0, [];
    states := [StateOf(b)];
    WaitingCount(b);
    while n < |ops| && Allowed(b, ops[n])
      invariant n <= |ops| && fresh(b) && b.Valid()
      invariant Trace(states, ops[..n], ended) && states[n] == StateOf(b)
      invariant states[0].reqs == [] && states[0].count == 0 && AllBusy(states[0])
    {
      var r := Do(b, ops[n]);
      TraceMore(states, ops[..n], ended, ops[n], r, StateOf(b));
      ended := ended + [r];
      states := states + [StateOf(b)];
      assert ops[..n + 1] == ops[..n] + [ops[n]];
      n := n + 1;
    }
    Conserved(states, ops[..n], ended);
    WaitingCount(b);
    CountersMeaning(b);
    LoadsMeaning(b);
  }

  lemma TraceMore(states: seq<Snapshot>, ops: seq<Op>, ended: seq<int>, op: Op, r: int, s: Snapshot)
    requires Trace(states, ops, ended) && StepOk(states[|ops|], op, r, s)
    ensures Trace(states + [s], ops + [op], ended + [r])
  {
  }

  lemma LoadsMeaning(b: DnsBase)
    requires b.Valid()
    ensures forall s | 0 <= s < |b.servers| :: b.servers[s].inflight == Load(b.reqs, s)
    ensures b.good == Good(b.servers)
  {
  }
}
