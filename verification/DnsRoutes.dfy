/** `evdns.c`: what happens to requests and servers when requests are sent, and when servers fail. */
module DnsRoutes {
  import opened Basics
  import opened NatLists
  import opened DnsLinks
  import opened DnsQueues
  import opened DnsServers

  /** The requests of some lists, one list after the other. */
  ghost function Joined(lists: seq<seq<nat>>): seq<nat> {
    if lists == [] then [] else Joined(lists[..|lists| - 1]) + lists[|lists| - 1]
  }

  /** The request has not been sent yet, and is to go to this server. */
  predicate Stuck(q: Request, s: int) {
    q.txCount == 0 && q.ns == s
  }

  /** The requests of a list that are stuck with a server, in their order. */
  ghost function StuckOf(reqs: seq<Request>, l: seq<nat>, s: int): seq<nat> {
    if l == [] then []
    else
      var n := |l| - 1;
      StuckOf(reqs, l[..n], s) + if l[n] < |reqs| && Stuck(reqs[l[n]], s) then [l[n]] else []
  }

  lemma {:induction false} StuckAre(reqs: seq<Request>, l: seq<nat>, s: int)
    ensures forall r: nat :: r in StuckOf(reqs, l, s) <==> r in l && r < |reqs| && Stuck(reqs[r], s)
  {
    if l != [] {
      var n := |l| - 1;
      StuckAre(reqs, l[..n], s);
      assert l == l[..n] + [l[n]];
    }
  }

  lemma {:induction false} StuckJoined(reqs: seq<Request>, a: seq<nat>, c: seq<nat>, s: int)
    ensures StuckOf(reqs, a + c, s) == StuckOf(reqs, a, s) + StuckOf(reqs, c, s)
  {
    if c == [] {
      assert a + c == a;
    } else {
      var n := |c| - 1;
      StuckJoined(reqs, a, c[..n], s);
      assert (a + c)[..|a| + n] == a + c[..n];
    }
  }

  /** Where `server_head` is before request `moved[i]` gets its server. */
  ghost function HeadBefore(good: seq<bool>, head: nat, reqs: seq<Request>, moved: seq<nat>, i: nat): nat {
    if 0 < i <= |moved| && moved[i - 1] < |reqs| && 0 <= reqs[moved[i - 1]].ns < |good|
    then HeadAfter(good, reqs[moved[i - 1]].ns) else head
  }

  /** These requests have the servers that come one after the other in the circle. */
  ghost predicate InTurn(good: seq<bool>, head: nat, head': nat, reqs: seq<Request>, moved: seq<nat>) {
    && (forall i | 0 <= i < |moved| ::
          moved[i] < |reqs| && IsPick(good, HeadBefore(good, head, reqs, moved, i), reqs[moved[i]].ns))
    && head' == HeadBefore(good, head, reqs, moved, |moved|)
  }

  /** These requests have got other servers, one after the other in the circle of good ones, and all else is as
      before. */
  ghost predicate Routed(reqs: seq<Request>, reqs': seq<Request>, good: seq<bool>, head: nat, head': nat, moved: seq<nat>) {
    && |reqs'| == |reqs|
    && (forall i | 0 <= i < |moved| :: moved[i] < |reqs|)
    && (forall i, j | 0 <= i < j < |moved| :: moved[i] != moved[j])
    && (forall r | 0 <= r < |reqs| && r !in moved :: reqs'[r] == reqs[r])
    && (forall i | 0 <= i < |moved| :: reqs'[moved[i]] == reqs[moved[i]].(ns := reqs'[moved[i]].ns))
    && InTurn(good, head, head', reqs', moved)
  }

  lemma PickInRange(good: seq<bool>, head: nat, s: int)
    requires IsPick(good, head, s)
    ensures 0 <= s < |good|
  {
  }

  lemma NoneInTurn(good: seq<bool>, head: nat, reqs: seq<Request>)
    ensures InTurn(good, head, head, reqs, [])
  {
  }

  /** Where the head was does not depend on what is picked later. */
  lemma HeadsSame(good: seq<bool>, head: nat, m: seq<Request>, reqs: seq<Request>, moved: seq<nat>, r: nat, i: nat)
    requires |reqs| == |m| && (forall j | 0 <= j < |m| && j != r :: reqs[j].ns == m[j].ns) && r !in moved && i <= |moved|
    ensures HeadBefore(good, head, reqs, moved + [r], i) == HeadBefore(good, head, m, moved, i)
  {
    if i > 0 { assert (moved + [r])[i - 1] == moved[i - 1] && moved[i - 1] in moved; }
  }

  /** One more server has been picked. */
  lemma TurnMore(good: seq<bool>, head: nat, h: nat, m: seq<Request>, reqs: seq<Request>, moved: seq<nat>, r: nat, s: int)
    requires InTurn(good, head, h, m, moved) && IsPick(good, h, s)
    requires r < |reqs| && reqs[r].ns == s && r !in moved
    requires |reqs| == |m| && forall j | 0 <= j < |m| && j != r :: reqs[j].ns == m[j].ns
    ensures 0 <= s < |good| && InTurn(good, head, HeadAfter(good, s), reqs, moved + [r])
  {
    hide IsPick;
    hide HeadAfter;
    PickInRange(good, h, s);
    var moved' := moved + [r];
    assert HeadBefore(good, head, reqs, moved', |moved'|) == HeadAfter(good, s);
    hide HeadBefore;
    forall i | 0 <= i < |moved'|
      ensures moved'[i] < |reqs| && IsPick(good, HeadBefore(good, head, reqs, moved', i), reqs[moved'[i]].ns)
    {
      HeadsSame(good, head, m, reqs, moved, r, i);
      if i < |moved| { assert moved[i] in moved && moved'[i] == moved[i]; }
    }
  }

  lemma RoutedNone(reqs: seq<Request>, good: seq<bool>, head: nat)
    ensures Routed(reqs, reqs, good, head, head, [])
  {
  }

  /** One more request. */
  lemma RoutedMore(reqs: seq<Request>, m: seq<Request>, good: seq<bool>, head: nat, h: nat, moved: seq<nat>, r: nat, t: int)
    requires Routed(reqs, m, good, head, h, moved) && r < |reqs| && r !in moved && IsPick(good, h, t)
    ensures 0 <= t < |good|
    ensures Routed(reqs, m[r := m[r].(ns := t)], good, head, HeadAfter(good, t), moved + [r])
  {
    var reqs' := m[r := m[r].(ns := t)];
    TurnMore(good, head, h, m, reqs', moved, r, t);
    hide InTurn;
    hide IsPick;
    hide HeadAfter;
    var moved' := moved + [r];
    forall i | 0 <= i < |moved'|
      ensures reqs'[moved'[i]] == reqs[moved'[i]].(ns := reqs'[moved'[i]].ns)
    {
      if i < |moved| { assert moved'[i] in moved; }
    }
  }
}
