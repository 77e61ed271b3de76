/** Binary heap kept in a sequence, in the layout of Python's heapq: the children of
    position p are at 2*p+1 and 2*p+2, and the smallest element is at position 0.
    The order is given by an integer rank (an offset, or a time of last update). */
module Heapq {

  function Parent(i: nat): (p: nat)
    requires 0 < i
    ensures i == 2 * p + 1 || i == 2 * p + 2
  {
    (i - 1) / 2
  }

  function Swap<T>(q: seq<T>, i: nat, j: nat): (r: seq<T>)
    requires i < |q| && j < |q|
    ensures |r| == |q| && r[i] == q[j] && r[j] == q[i]
    ensures forall m :: 0 <= m < |q| && m != i && m != j ==> r[m] == q[m]
    ensures multiset(r) == multiset(q)
  {
    q[i := q[j]][j := q[i]]
  }

  // The element at position p is not above its children
  ghost predicate Fine<T>(q: seq<T>, rank: T -> int, p: nat)
    requires p < |q|
  {
    && (2 * p + 1 < |q| ==> rank(q[p]) <= rank(q[2 * p + 1]))
    && (2 * p + 2 < |q| ==> rank(q[p]) <= rank(q[2 * p + 2]))
  }

  ghost predicate OrderedFrom<T>(q: seq<T>, rank: T -> int, low: nat) {
    forall p :: low <= p < |q| ==> Fine(q, rank, p)
  }

  ghost predicate Ordered<T>(q: seq<T>, rank: T -> int) {
    OrderedFrom(q, rank, 0)
  }

  lemma {:induction false} RootIsLeast<T>(q: seq<T>, rank: T -> int, i: nat)
    requires Ordered(q, rank) && i < |q|
    ensures rank(q[0]) <= rank(q[i])
  {
    if i > 0 {
      RootIsLeast(q, rank, Parent(i));
      assert Fine(q, rank, Parent(i));
    }
  }

  // Everything from 'low' on is fine, except possibly position k; and the parent of k
  // is not above the children of k either.
  ghost predicate FineExcept<T>(q: seq<T>, rank: T -> int, low: nat, k: nat) {
    && (forall p :: low <= p < |q| && p != k ==> Fine(q, rank, p))
    && (0 < k && low <= Parent(k) && Parent(k) < |q| ==>
          && (2 * k + 1 < |q| ==> rank(q[Parent(k)]) <= rank(q[2 * k + 1]))
          && (2 * k + 2 < |q| ==> rank(q[Parent(k)]) <= rank(q[2 * k + 2])))
  }

  lemma SiftDownStep<T>(q: seq<T>, rank: T -> int, low: nat, k: nat, child: nat)
    requires low <= k && FineExcept(q, rank, low, k)
    requires child == 2 * k + 1 || child == 2 * k + 2
    requires child < |q| && rank(q[child]) < rank(q[k])
    requires 2 * k + 1 < |q| ==> rank(q[child]) <= rank(q[2 * k + 1])
    requires 2 * k + 2 < |q| ==> rank(q[child]) <= rank(q[2 * k + 2])
    ensures FineExcept(Swap(q, k, child), rank, low, child)
  {
    var r := Swap(q, k, child);
    assert Fine(q, rank, child);
    forall p | low <= p < |r| && p != child
      ensures Fine(r, rank, p)
    {
      if p != k {
        assert Fine(q, rank, p);
      }
    }
  }

  method SiftDown<T>(q: seq<T>, rank: T -> int, low: nat) returns (r: seq<T>)
    ensures OrderedFrom(q, rank, low + 1) ==> OrderedFrom(r, rank, low)
    ensures |r| == |q| && multiset(r) == multiset(q)
  {
    r := q;
    var k := low;
    ghost var sound := OrderedFrom(q, rank, low + 1);
    while 2 * k + 1 < |r|
      invariant low <= k && |r| == |q| && multiset(r) == multiset(q)
      invariant sound ==> FineExcept(r, rank, low, k)
      decreases |r| - k
    {
      var child := 2 * k + 1;
      if child + 1 < |r| && rank(r[child + 1]) < rank(r[child]) {
        child := child + 1;
      }
      if rank(r[k]) <= rank(r[child]) {
        assert Fine(r, rank, k);
        return;
      }
      if sound {
        SiftDownStep(r, rank, low, k, child);
      }
      r := Swap(r, k, child);
      k := child;
    }
    assert k < |r| ==> Fine(r, rank, k);
  }

  method Heapify<T>(q: seq<T>, rank: T -> int) returns (r: seq<T>)
    ensures Ordered(r, rank)
    ensures |r| == |q| && multiset(r) == multiset(q)
  {
    r := q;
    var low := |q| / 2;
    assert forall p :: low <= p < |q| ==> Fine(r, rank, p);
    while 0 < low
      invariant 0 <= low <= |q| && |r| == |q| && multiset(r) == multiset(q)
      invariant OrderedFrom(r, rank, low)
    {
      low := low - 1;
      r := SiftDown(r, rank, low);
    }
  }

  // Everything is fine, except possibly that k stands below its parent
  ghost predicate FineAbove<T>(q: seq<T>, rank: T -> int, k: nat) {
    && (forall p :: 0 <= p < |q| && !(0 < k && p == Parent(k)) ==> Fine(q, rank, p))
    && (0 < k < |q| ==>
          var p := Parent(k);
          && (2 * p + 1 < |q| && 2 * p + 1 != k ==> rank(q[p]) <= rank(q[2 * p + 1]))
          && (2 * p + 2 < |q| && 2 * p + 2 != k ==> rank(q[p]) <= rank(q[2 * p + 2]))
          && (2 * k + 1 < |q| ==> rank(q[p]) <= rank(q[2 * k + 1]))
          && (2 * k + 2 < |q| ==> rank(q[p]) <= rank(q[2 * k + 2])))
  }

  lemma SiftUpStep<T>(q: seq<T>, rank: T -> int, k: nat)
    requires 0 < k < |q| && FineAbove(q, rank, k) && rank(q[k]) < rank(q[Parent(k)])
    ensures FineAbove(Swap(q, k, Parent(k)), rank, Parent(k))
  {
    var up := Parent(k);
    var r := Swap(q, k, up);
    forall p | 0 <= p < |r| && !(0 < up && p == Parent(up))
      ensures Fine(r, rank, p)
    {
      if p != up {
        assert Fine(q, rank, p);
      }
    }
    if 0 < up {
      assert Fine(q, rank, Parent(up));
    }
  }

  method HeapPush<T>(q: seq<T>, x: T, rank: T -> int) returns (r: seq<T>)
    ensures |r| == |q| + 1 && multiset(r) == multiset(q) + multiset{x}
    ensures Ordered(q, rank) ==> Ordered(r, rank)
  {
    r := q + [x];
    var k := |q|;
    ghost var sound := Ordered(q, rank);
    if sound {
      forall p | 0 <= p < |r| && !(0 < k && p == Parent(k))
        ensures Fine(r, rank, p)
      {
        assert p < |q| ==> Fine(q, rank, p);
      }
      assert 0 < k ==> Fine(q, rank, Parent(k));
    }
    while 0 < k && rank(r[k]) < rank(r[Parent(k)])
      invariant 0 <= k < |r| == |q| + 1 && multiset(r) == multiset(q) + multiset{x}
      invariant sound ==> FineAbove(r, rank, k)
      decreases k
    {
      if sound {
        SiftUpStep(r, rank, k);
      }
      r := Swap(r, k, Parent(k));
      k := Parent(k);
    }
    if sound {
      assert forall p :: 0 <= p < |r| ==> Fine(r, rank, p);
    }
  }

  method HeapPop<T>(q: seq<T>, rank: T -> int) returns (x: T, r: seq<T>)
    requires 0 < |q|
    ensures x == q[0]
    ensures |r| == |q| - 1 && multiset(q) == multiset(r) + multiset{x}
    ensures Ordered(q, rank) ==> Ordered(r, rank)
  {
    x := q[0];
    var n := |q| - 1;
    if n == 0 {
      r := [];
      return;
    }
    r := [q[n]] + q[1..n];
    assert q == [x] + q[1..n] + [q[n]];
    if Ordered(q, rank) {
      forall p | 1 <= p < |r|
        ensures Fine(r, rank, p)
      {
        assert Fine(q, rank, p);
      }
    }
    r := SiftDown(r, rank, 0);
  }
}
