/** Lists of numbers that stand for entries of queues. */
module NatLists {

  ghost predicate Distinct(l: seq<nat>) {
    forall i, j | 0 <= i < j < |l| :: l[i] != l[j]
  }

  function Inserted(l: seq<nat>, i: nat, id: nat): seq<nat>
    requires i <= |l|
  {
    l[..i] + [id] + l[i..]
  }

  function Removed(l: seq<nat>, k: nat): seq<nat>
    requires k < |l|
  {
    l[..k] + l[k + 1..]
  }

  /** Where a number is in a list. */
  function IndexOf(l: seq<nat>, id: nat): (k: nat)
    requires id in l
    ensures k < |l| && l[k] == id
  {
    if l[0] == id then 0 else IndexOf(l[1..], id) + 1
  }

  /** The first entry of this number is gone, and the order of the others is the same. */
  function Without(l: seq<nat>, id: nat): (r: seq<nat>)
    requires id in l
    ensures exists k | 0 <= k < |l| && l[k] == id :: r == l[..k] + l[k + 1..]
  {
    Removed(l, IndexOf(l, id))
  }

  /** The list without a number that may be in it. */
  function WithoutAny(l: seq<nat>, id: nat): (r: seq<nat>)
    ensures id !in l ==> r == l
  {
    if id in l then Without(l, id) else l
  }

  /** One comes to `a` in the list before one comes to `c`. */
  ghost predicate AheadOf(l: seq<nat>, a: nat, c: nat) {
    c in l && exists i | 0 <= i < |l| :: l[i] == a && c !in l[..i + 1]
  }

  /** Who leaves a list leaves the others in their order. */
  lemma AheadWithout(l: seq<nat>, id: nat, a: nat, c: nat)
    requires AheadOf(l, a, c) && a != id && c != id
    ensures AheadOf(WithoutAny(l, id), a, c)
  {
    if id in l {
      var k :| 0 <= k < |l| && l[k] == id && Without(l, id) == l[..k] + l[k + 1..];
      hide Without;
      AheadRemoved(l, k, a, c);
    }
  }

  lemma AheadRemoved(l: seq<nat>, k: nat, a: nat, c: nat)
    requires AheadOf(l, a, c) && k < |l| && l[k] != a && l[k] != c
    ensures AheadOf(l[..k] + l[k + 1..], a, c)
  {
    var r := l[..k] + l[k + 1..];
    assert forall j | 0 <= j < |r| :: r[j] == l[if j < k then j else j + 1];
    var i :| 0 <= i < |l| && l[i] == a && c !in l[..i + 1];
    var i' := if i < k then i else i - 1;
    assert r[i'] == a;
    assert forall j | 0 <= j <= i :: l[j] != c by {
      forall j | 0 <= j <= i
        ensures l[j] != c
      {
        assert l[..i + 1][j] == l[j];
      }
    }
    var n :| 0 <= n < |l| && l[n] == c;
    assert r[if n < k then n else n - 1] == c;
  }

  /** Who joins a list at its end comes behind all that are there. */
  lemma AheadLast(l: seq<nat>, id: nat)
    ensures forall a: nat | a in l && id !in l :: AheadOf(l + [id], a, id)
    ensures forall a: nat, c: nat | AheadOf(l, a, c) :: AheadOf(l + [id], a, c)
  {
    var r := l + [id];
    forall a: nat | a in l && id !in l
      ensures AheadOf(r, a, id)
    {
      var i :| 0 <= i < |l| && l[i] == a;
      assert r[i] == a && r[..i + 1] == l[..i + 1] && r[|l|] == id;
    }
    forall a: nat, c: nat | AheadOf(l, a, c)
      ensures AheadOf(r, a, c)
    {
      var i :| 0 <= i < |l| && l[i] == a && c !in l[..i + 1];
      assert r[i] == a && r[..i + 1] == l[..i + 1];
    }
  }

  lemma InsertedFacts(l: seq<nat>, i: nat, id: nat)
    requires Distinct(l) && i <= |l| && id !in l
    ensures Distinct(Inserted(l, i, id))
    ensures forall x: nat :: x in Inserted(l, i, id) <==> x == id || x in l
  {
    var l' := Inserted(l, i, id);
    assert forall j | 0 <= j < |l'| :: l'[j] == if j < i then l[j] else if j == i then id else l[j - 1];
    forall x: nat
      ensures x in l' <==> x == id || x in l
    {
      if x in l {
        var j :| 0 <= j < |l| && l[j] == x;
        assert l'[if j < i then j else j + 1] == x;
      }
      assert l'[i] == id;
    }
  }

  lemma RemovedFacts(l: seq<nat>, k: nat)
    requires Distinct(l) && k < |l|
    ensures Distinct(Removed(l, k))
    ensures forall x: nat :: x in Removed(l, k) <==> x in l && x != l[k]
  {
    var l' := Removed(l, k);
    assert forall j | 0 <= j < |l'| :: l'[j] == l[if j < k then j else j + 1];
    forall x: nat
      ensures x in l' <==> x in l && x != l[k]
    {
      if x in l && x != l[k] {
        var j :| 0 <= j < |l| && l[j] == x;
        assert l'[if j < k then j else j - 1] == x;
      }
    }
  }

  /** How many numbers are in these lists. */
  function Lengths(ls: seq<seq<nat>>): nat {
    if ls == [] then 0 else |ls[0]| + Lengths(ls[1..])
  }

  lemma {:induction false} NoLengths(ls: seq<seq<nat>>)
    requires forall p | 0 <= p < |ls| :: ls[p] == []
    ensures Lengths(ls) == 0
  {
    if ls != [] {
      NoLengths(ls[1..]);
    }
  }

  lemma {:induction false} LengthsStep(ls: seq<seq<nat>>, p: nat, l: seq<nat>)
    requires p < |ls|
    ensures Lengths(ls[p := l]) == Lengths(ls) - |ls[p]| + |l|
  {
    var ls' := ls[p := l];
    if p == 0 {
      assert ls'[1..] == ls[1..];
    } else {
      LengthsStep(ls[1..], p - 1, l);
      assert ls'[1..] == ls[1..][p - 1 := l];
    }
  }
}
