/** The LRU cache of src/afc-engine/LruValueCache.h: a list of keys, most recent first, a map
    of values, and the most recent key and value kept apart. */
module LruCache {
  import opened Wrappers

  predicate Distinct<K(==, !new)>(list: seq<K>) {
    forall i, j :: 0 <= i < j < |list| ==> list[i] != list[j]
  }

  function Without<K(==, !new)>(list: seq<K>, key: K): (r: seq<K>)
    ensures forall k :: k in r <==> k in list && k != key
    ensures |r| <= |list|
  {
    if list == [] then [] else
    if list[0] == key then Without(list[1..], key) else [list[0]] + Without(list[1..], key)
  }

  function First<K>(n: nat, list: seq<K>): seq<K> {
    if n < |list| then list[..n] else list
  }

  // The list after an access to a key
  function Touched<K(==, !new)>(list: seq<K>, key: K, capacity: nat): seq<K> {
    First(capacity, [key] + Without(list, key))
  }

  lemma {:induction false} WithoutAbsent<K(!new)>(list: seq<K>, key: K)
    requires key !in list
    ensures Without(list, key) == list
  {
    if list != [] {
      assert list[0] in list;
      WithoutAbsent(list[1..], key);
    }
  }

  lemma {:induction false} WithoutAt<K(!new)>(list: seq<K>, i: nat)
    requires Distinct(list) && i < |list|
    ensures Without(list, list[i]) == list[..i] + list[i + 1..]
  {
    if i == 0 {
      WithoutAbsent(list[1..], list[0]);
    } else {
      WithoutAt(list[1..], i - 1);
      assert list[1..][i - 1] == list[i];
      assert list[..i] + list[i + 1..] == [list[0]] + (list[1..][..i - 1] + list[1..][i..]);
    }
  }

  lemma DistinctCons<K(!new)>(key: K, list: seq<K>)
    requires Distinct(list) && key !in list
    ensures Distinct([key] + list)
  {
  }

  lemma FrontOf<K(!new)>(list: seq<K>, i: nat)
    requires Distinct(list) && i < |list|
    ensures Without(list, list[i]) == list[..i] + list[i + 1..]
    ensures var front := [list[i]] + (list[..i] + list[i + 1..]);
      Distinct(front) && (forall k :: k in front <==> k in list) && |front| == |list|
  {
    WithoutAt(list, i);
    hide Without;
    var front := [list[i]] + (list[..i] + list[i + 1..]);
    assert list == list[..i] + [list[i]] + list[i + 1..];
    forall k
      ensures k in front <==> k in list
    {
      assert k in list <==> k in list[..i] || k == list[i] || k in list[i + 1..];
    }
  }

  lemma TouchedIsFront<K(!new)>(list: seq<K>, key: K, capacity: nat)
    requires |[key] + Without(list, key)| <= capacity
    ensures Touched(list, key, capacity) == [key] + Without(list, key)
  {
    hide Without;
  }

  class LruValueCache<K(==, !new), V(==)> {
    const capacity: nat
    var list: seq<K>
    var items: map<K, V>
    var recentKey: Option<K>
    var recentValue: Option<V>
    var hits: nat
    var misses: nat
    var evictions: nat

    // The list and the map hold the same keys, within the capacity; the recent key and value
    // are those at the front of the list.
    ghost predicate Valid()
      reads this
    {
      && 0 < capacity && |list| <= capacity && Distinct(list)
      && (forall k :: k in list <==> k in items)
      && (list == [] ==> recentKey == None && recentValue == None)
      && (list != [] ==> list[0] in items && recentKey == Some(list[0]) && recentValue == Some(items[list[0]]))
    }

    constructor (capacity: nat)
      requires 0 < capacity
      ensures Valid() && list == [] && items == map[] && this.capacity == capacity
      ensures hits == misses == evictions == 0
    {
      this.capacity := capacity;
      list, items, recentKey, recentValue := [], map[], None, None;
      hits, misses, evictions := 0, 0, 0;
    }

    // A key of the list goes to its front
    method Splice(key: K)
      requires Valid() && key in list
      modifies this`list
      ensures list == [key] + Without(old(list), key)
      ensures Distinct(list) && (forall k :: k in list <==> k in old(list)) && |list| == |old(list)|
    {
      hide Without;
      var i := 0;
      while list[i] != key
        invariant 0 <= i < |list| && key !in list[..i]
        decreases |list| - i
      {
        i := i + 1;
      }
      FrontOf(list, i);
      list := [key] + (list[..i] + list[i + 1..]);
    }

    // The key at the end of the list goes
    method Evict()
      requires Valid() && list != []
      modifies this`list, this`items, this`evictions
      ensures list == old(list)[..|old(list)| - 1] && Distinct(list) && evictions == old(evictions) + 1
      ensures forall k :: k in list <==> k in items
      ensures forall k :: k in items ==> k in old(items) && items[k] == old(items)[k]
    {
      var oldest := list[|list| - 1];
      assert oldest !in list[..|list| - 1];
      items := items - {oldest};
      list := list[..|list| - 1];
      evictions := evictions + 1;
    }

    method Add(key: K, value: V)
      requires Valid()
      modifies this
      ensures Valid()
      ensures list == Touched(old(list), key, capacity)
      ensures forall k :: k in items ==>
        (k == key && items[k] == value) || (k in old(items) && items[k] == old(items)[k])
      ensures key in items && recentKey == Some(key) && recentValue == Some(value)
      ensures evictions == old(evictions) + if key !in old(items) && |old(list)| == capacity then 1 else 0
    {
      hide Distinct, Without;
      if key in items {
        Splice(key);
        items := items[key := value];
      } else {
        WithoutAbsent(list, key);
        if |list| >= capacity {
          Evict();
        }
        assert Touched(old(list), key, capacity) == [key] + list;
        DistinctCons(key, list);
        list := [key] + list;
        items := items[key := value];
      }
      recentKey, recentValue := Some(list[0]), Some(items[key]);
    }

    method Get(key: K) returns (value: Option<V>)
      requires Valid()
      modifies this
      ensures Valid() && items == old(items)
      ensures value == if key in items then Some(items[key]) else None
      ensures list == if key in items then Touched(old(list), key, capacity) else old(list)
      ensures key in items ==> recentKey == Some(key) && recentValue == value
      ensures hits + misses == old(hits) + old(misses) + 1 && (hits == old(hits) + 1 <==> key in items)
    {
      if key !in items {
        misses := misses + 1;
        return None;
      }
      hide Without, Touched, Distinct;
      hits := hits + 1;
      Splice(key);
      TouchedIsFront(old(list), key, capacity);
      recentKey, recentValue := Some(list[0]), Some(items[key]);
      value := recentValue;
    }

    method Clear()
      requires Valid()
      modifies this
      ensures Valid() && list == [] && items == map[]
    {
      items, list := map[], [];
      recentKey, recentValue := None, None;
    }
  }

  // ---- What is in the cache after a history of accesses ----

  // Each access is a lookup, followed by an addition if the lookup fails
  function Accessed<K(==, !new)>(accesses: seq<K>, capacity: nat): seq<K> {
    if accesses == [] then [] else
    Touched(Accessed(accesses[..|accesses| - 1], capacity), accesses[|accesses| - 1], capacity)
  }

  // The different keys of a history, the last accessed first
  function Recency<K(==, !new)>(accesses: seq<K>): (r: seq<K>) {
    if accesses == [] then [] else
    [accesses[|accesses| - 1]] + Without(Recency(accesses[..|accesses| - 1]), accesses[|accesses| - 1])
  }

  lemma WithoutCons<K(!new)>(head: K, rest: seq<K>, key: K)
    ensures Without([head] + rest, key) == if head == key then Without(rest, key) else [head] + Without(rest, key)
  {
    assert ([head] + rest)[1..] == rest;
  }

  lemma {:induction false} WithoutOfFirst<K(!new)>(list: seq<K>, key: K, n: nat)
    requires Distinct(list)
    ensures First(n, Without(First(n + 1, list), key)) == First(n, Without(list, key))
  {
    if list != [] {
      var head, rest := list[0], list[1..];
      assert list == [head] + rest && First(n + 1, list) == [head] + First(n, rest);
      WithoutCons(head, rest, key);
      WithoutCons(head, First(n, rest), key);
      hide Without;
      if head == key {
        assert key !in rest;
        WithoutAbsent(rest, key);
        WithoutAbsent(First(n, rest), key);
      } else if n > 0 {
        assert Distinct(rest);
        WithoutOfFirst(rest, key, n - 1);
        FirstAfter(head, Without(rest, key), n);
        FirstAfter(head, Without(First(n, rest), key), n);
      }
    }
  }

  lemma {:induction false} WithoutKeepsDistinct<K(!new)>(list: seq<K>, key: K)
    requires Distinct(list)
    ensures Distinct(Without(list, key))
  {
    if list != [] {
      WithoutKeepsDistinct(list[1..], key);
      assert list[0] !in list[1..];
      assert list[0] !in Without(list[1..], key);
    }
  }

  lemma {:induction false} RecencyIsDistinct<K(!new)>(accesses: seq<K>)
    ensures Distinct(Recency(accesses))
    ensures forall k :: k in Recency(accesses) <==> k in accesses
  {
    if accesses != [] {
      var before, last := accesses[..|accesses| - 1], accesses[|accesses| - 1];
      RecencyIsDistinct(before);
      WithoutKeepsDistinct(Recency(before), last);
      assert accesses == before + [last];
      assert last !in Without(Recency(before), last);
      assert Recency(accesses) == [last] + Without(Recency(before), last);
      forall k
        ensures k in Recency(accesses) <==> k in accesses
      {
        assert k in Recency(accesses) <==> k == last || k in Without(Recency(before), last);
      }
    }
  }

  // The cache holds the most recently accessed keys, as many as fit, the last one first
  lemma {:induction false} HoldsMostRecent<K(!new)>(accesses: seq<K>, capacity: nat)
    requires 0 < capacity
    ensures Accessed(accesses, capacity) == First(capacity, Recency(accesses))
  {
    if accesses != [] {
      var before, last := accesses[..|accesses| - 1], accesses[|accesses| - 1];
      HoldsMostRecent(before, capacity);
      RecencyIsDistinct(before);
      var recency := Recency(before);
      WithoutOfFirst(recency, last, capacity - 1);
      FirstAfter(last, Without(First(capacity, recency), last), capacity);
      FirstAfter(last, Without(recency, last), capacity);
    }
  }

  lemma FirstAfter<K>(key: K, list: seq<K>, capacity: nat)
    requires 0 < capacity
    ensures First(capacity, [key] + list) == [key] + First(capacity - 1, list)
  {
  }

  // Inclusion: what a smaller cache holds is the beginning of what a larger one holds, so that
  // every hit of the smaller cache is a hit of the larger one.
  lemma LargerHoldsMore<K(!new)>(accesses: seq<K>, capacity: nat, larger: nat)
    requires 0 < capacity <= larger
    ensures Accessed(accesses, capacity) == First(capacity, Accessed(accesses, larger))
    ensures forall k :: k in Accessed(accesses, capacity) ==> k in Accessed(accesses, larger)
  {
    HoldsMostRecent(accesses, capacity);
    HoldsMostRecent(accesses, larger);
  }
}
