/** `evdns.c`: circular, doubly linked lists of requests. */
module DnsLinks {
  import opened NatLists

  /** No request: a null pointer. */
  const NULL: int := -1

  /** The links of the requests in `l` make a circle that starts at `head`. */
  ghost predicate Linked(next: seq<int>, prev: seq<int>, head: int, l: seq<nat>) {
    if l == [] then head == NULL
    else
      && head == l[0]
      && forall i | 0 <= i < |l| ::
           && l[i] < |next| && l[i] < |prev|
           && next[l[i]] == l[if i + 1 < |l| then i + 1 else 0]
           && prev[l[i]] == l[if i > 0 then i - 1 else |l| - 1]
  }

  /** The list holds once each request that belongs to it. */
  ghost predicate Owned(l: seq<nat>, owner: seq<int>, w: int) {
    Distinct(l) && forall r: nat :: r in l <==> r < |owner| && owner[r] == w
  }

  /** Each request is on the list that owns it. */
  ghost predicate LinksOk(next: seq<int>, prev: seq<int>, heads: seq<int>, lists: seq<seq<nat>>, owner: seq<int>) {
    && |next| == |prev| == |owner| && |heads| == |lists|
    && (forall w | 0 <= w < |lists| :: Linked(next, prev, heads[w], lists[w]) && Owned(lists[w], owner, w))
    && (forall r | 0 <= r < |owner| :: NULL <= owner[r] < |lists|)
  }

  /** Links of other requests do not matter. */
  lemma LinkedElsewhere(next: seq<int>, prev: seq<int>, next': seq<int>, prev': seq<int>, head: int, l: seq<nat>)
    requires Linked(next, prev, head, l) && |next'| == |next| && |prev'| == |prev|
    requires forall r: nat | r in l && r < |next| && r < |prev| :: next'[r] == next[r] && prev'[r] == prev[r]
    ensures Linked(next', prev', head, l)
  {
    forall i | 0 <= i < |l|
      ensures l[i] < |next'| && l[i] < |prev'| && next'[l[i]] == next[l[i]] && prev'[l[i]] == prev[l[i]]
    {
      assert l[i] in l;
    }
  }

  /** The links after `r` has been put before the head, at the end of the circle. */
  function InsertedNext(next: seq<int>, prev: seq<int>, head: int, r: nat): seq<int>
    requires r < |next| && (head == NULL || (0 <= head < |prev| && 0 <= prev[head] < |next|))
  {
    if head == NULL then next[r := r] else next[prev[head] := r][r := head]
  }

  function InsertedPrev(prev: seq<int>, head: int, r: nat): seq<int>
    requires r < |prev| && (head == NULL || 0 <= head < |prev|)
  {
    if head == NULL then prev[r := r] else prev[r := prev[head]][head := r]
  }

  lemma InsertLinked(next: seq<int>, prev: seq<int>, head: int, l: seq<nat>, r: nat)
    requires Linked(next, prev, head, l) && Distinct(l) && r !in l && r < |next| == |prev|
    ensures head == NULL || (0 <= head < |prev| && 0 <= prev[head] < |next|)
    ensures Linked(InsertedNext(next, prev, head, r), InsertedPrev(prev, head, r), if head == NULL then r else head, l + [r])
  {
    var l' := l + [r];
    if l != [] {
      assert l[0] in l && l[|l| - 1] in l;
      var next', prev' := InsertedNext(next, prev, head, r), InsertedPrev(prev, head, r);
      assert prev[head] == l[|l| - 1];
      forall i | 0 <= i < |l'|
        ensures next'[l'[i]] == l'[if i + 1 < |l'| then i + 1 else 0]
        ensures prev'[l'[i]] == l'[if i > 0 then i - 1 else |l'| - 1]
      {
        assert i < |l| ==> l[i] in l;
      }
    }
  }

  /** The links after `r` has been taken out of its circle. */
  function RemovedNext(next: seq<int>, prev: seq<int>, r: nat): seq<int>
    requires r < |next| == |prev| && 0 <= prev[r] < |next|
  {
    (if next[r] == r then next else next[prev[r] := next[r]])[r := NULL]
  }

  function RemovedPrev(next: seq<int>, prev: seq<int>, r: nat): seq<int>
    requires r < |next| == |prev| && 0 <= next[r] < |next|
  {
    (if next[r] == r then prev else prev[next[r] := prev[r]])[r := NULL]
  }

  function RemovedHead(next: seq<int>, head: int, r: nat): int
    requires r < |next|
  {
    if next[r] == r then NULL else if head == r then next[r] else head
  }

  /** What a list of links says of one place. */
  lemma LinkAt(next: seq<int>, prev: seq<int>, head: int, l: seq<nat>, k: nat)
    requires Linked(next, prev, head, l) && k < |l|
    ensures l[k] < |next| && l[k] < |prev|
    ensures next[l[k]] == l[if k + 1 < |l| then k + 1 else 0] && prev[l[k]] == l[if k > 0 then k - 1 else |l| - 1]
  {
  }

  /** The element at place `i` once place `k` is gone. */
  lemma RemovedAt(l: seq<nat>, k: nat, i: nat)
    requires k < |l| && i < |l| - 1
    ensures |Removed(l, k)| == |l| - 1 && Removed(l, k)[i] == l[if i < k then i else i + 1]
  {
  }

  /** The next link of one request when another has been taken out. */
  lemma RemovedNextAt(next: seq<int>, prev: seq<int>, head: int, l: seq<nat>, k: nat, i: nat)
    requires Linked(next, prev, head, l) && Distinct(l) && k < |l| && |next| == |prev| && i < |l| - 1
    ensures var r, l' := l[k], Removed(l, k);
      && |l'| == |l| - 1 && r < |next| && 0 <= next[r] < |next| && 0 <= prev[r] < |next| && l'[i] < |next|
      && RemovedNext(next, prev, r)[l'[i]] == l'[if i + 1 < |l'| then i + 1 else 0]
  {
    hide Removed;
    hide Linked;
    var n, j := |l|, if i < k then i else i + 1;
    LinkAt(next, prev, head, l, k);
    LinkAt(next, prev, head, l, j);
    LinkAt(next, prev, head, l, if k + 1 < n then k + 1 else 0);
    LinkAt(next, prev, head, l, if k > 0 then k - 1 else n - 1);
    RemovedAt(l, k, i);
    RemovedAt(l, k, if i + 1 < n - 1 then i + 1 else 0);
  }

  /** The previous link of one request when another has been taken out. */
  lemma RemovedPrevAt(next: seq<int>, prev: seq<int>, head: int, l: seq<nat>, k: nat, i: nat)
    requires Linked(next, prev, head, l) && Distinct(l) && k < |l| && |next| == |prev| && i < |l| - 1
    ensures var r, l' := l[k], Removed(l, k);
      && |l'| == |l| - 1 && r < |next| && 0 <= next[r] < |next| && 0 <= prev[r] < |next| && l'[i] < |next|
      && RemovedPrev(next, prev, r)[l'[i]] == l'[if i > 0 then i - 1 else |l'| - 1]
  {
    hide Removed;
    hide Linked;
    var n, j := |l|, if i < k then i else i + 1;
    LinkAt(next, prev, head, l, k);
    LinkAt(next, prev, head, l, j);
    LinkAt(next, prev, head, l, if k + 1 < n then k + 1 else 0);
    LinkAt(next, prev, head, l, if k > 0 then k - 1 else n - 1);
    RemovedAt(l, k, i);
    RemovedAt(l, k, if i > 0 then i - 1 else n - 2);
  }

  lemma RemoveLinked(next: seq<int>, prev: seq<int>, head: int, l: seq<nat>, k: nat)
    requires Linked(next, prev, head, l) && Distinct(l) && k < |l| && |next| == |prev|
    ensures var r := l[k];
      && r < |next| && 0 <= next[r] < |next| && 0 <= prev[r] < |next|
      && Linked(RemovedNext(next, prev, r), RemovedPrev(next, prev, r), RemovedHead(next, head, r), Removed(l, k))
  {
    hide RemovedNext;
    hide RemovedPrev;
    var r, l' := l[k], Removed(l, k);
    LinkAt(next, prev, head, l, k);
    LinkAt(next, prev, head, l, if k + 1 < |l| then k + 1 else 0);
    LinkAt(next, prev, head, l, if k > 0 then k - 1 else |l| - 1);
    RemovedLengths(next, prev, r);
    forall i | 0 <= i < |l'|
      ensures l'[i] < |next|
      ensures RemovedNext(next, prev, r)[l'[i]] == l'[if i + 1 < |l'| then i + 1 else 0]
      ensures RemovedPrev(next, prev, r)[l'[i]] == l'[if i > 0 then i - 1 else |l'| - 1]
    {
      RemovedNextAt(next, prev, head, l, k, i);
      RemovedPrevAt(next, prev, head, l, k, i);
    }
    if |l| > 1 {
      RemovedAt(l, k, 0);
    }
  }

  lemma RemovedLengths(next: seq<int>, prev: seq<int>, r: nat)
    requires r < |next| == |prev| && 0 <= next[r] < |next| && 0 <= prev[r] < |next|
    ensures |RemovedNext(next, prev, r)| == |RemovedPrev(next, prev, r)| == |next|
  {
  }
}
