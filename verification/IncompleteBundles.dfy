/** The bundles for which not all messages have arrived yet: a heap by time of last update
    and a map by message key (class IncompleteAlsBundles of als/als_siphon.py). */
module IncompleteBundles {
  import opened Wrappers
  import opened KafkaOffsets
  import opened AlsBundle
  import opened BundleObject
  import Heapq

  type Held = map<string, Bundle>

  function Stamps(held: Held): map<string, int> {
    map k | k in held :: held[k].lastUpdate
  }

  function RankBy(stamps: map<string, int>): AlsMessageBundle -> int {
    (b: AlsMessageBundle) => if b.messageKey in stamps then stamps[b.messageKey] else 0
  }

  // What add_message does to the collection
  function AddedTo(held: Held, key: string, m: AlsMessage, position: KafkaPosition, now: int): (Held, Outcome) {
    var before := if key in held then held[key] else EmptyBundle(now);
    var (after, outcome) := Updated(before, m, position, now);
    (held[key := after], outcome)
  }

  // The heap and the map hold the same bundles, one for each key
  ghost predicate Agree(queue: seq<AlsMessageBundle>, byKey: map<string, AlsMessageBundle>) {
    && (forall i :: 0 <= i < |queue| ==>
          queue[i].messageKey in byKey && byKey[queue[i].messageKey] == queue[i] && multiset(queue)[queue[i]] == 1)
    && (forall k :: k in byKey ==> byKey[k].messageKey == k && byKey[k] in queue)
  }

  lemma AgreeWhenReordered(queue: seq<AlsMessageBundle>, byKey: map<string, AlsMessageBundle>,
                           other: seq<AlsMessageBundle>)
    requires Agree(queue, byKey) && multiset(other) == multiset(queue)
    ensures Agree(other, byKey)
  {
    forall i | 0 <= i < |other|
      ensures other[i] in queue && multiset(other)[other[i]] == 1
    {
      assert other[i] in multiset(other);
      assert other[i] in multiset(queue);
    }
    forall k | k in byKey
      ensures byKey[k] in other
    {
      assert byKey[k] in multiset(queue);
      assert byKey[k] in multiset(other);
    }
  }

  lemma AgreeAfterPush(queue: seq<AlsMessageBundle>, byKey: map<string, AlsMessageBundle>,
                       bundle: AlsMessageBundle, pushed: seq<AlsMessageBundle>)
    requires Agree(queue, byKey) && bundle.messageKey !in byKey
    requires multiset(pushed) == multiset(queue) + multiset{bundle}
    ensures Agree(pushed, byKey[bundle.messageKey := bundle])
  {
    var more := queue + [bundle];
    assert forall i :: 0 <= i < |queue| ==> queue[i] != bundle;
    assert bundle !in queue;
    forall i | 0 <= i < |more|
      ensures multiset(more)[more[i]] == 1
    {
      assert i < |queue| ==> more[i] == queue[i];
    }
    assert more[|queue|] == bundle;
    forall k | k in byKey
      ensures byKey[k] in more
    {
      assert byKey[k] in queue;
    }
    AgreeWhenReordered(more, byKey[bundle.messageKey := bundle], pushed);
  }

  lemma AgreeAfterRemoval(queue: seq<AlsMessageBundle>, byKey: map<string, AlsMessageBundle>,
                          bundle: AlsMessageBundle, rest: seq<AlsMessageBundle>)
    requires Agree(queue, byKey)
    requires multiset(queue) == multiset(rest) + multiset{bundle}
    ensures bundle.messageKey in byKey && byKey[bundle.messageKey] == bundle
    ensures Agree(rest, byKey - {bundle.messageKey})
  {
    assert bundle in multiset(queue);
    assert bundle in queue;
    forall i | 0 <= i < |rest|
      ensures rest[i] in queue && rest[i] != bundle && multiset(rest)[rest[i]] == 1
    {
      var b := rest[i];
      assert b in multiset(rest);
      assert b in multiset(queue);
      assert b in queue;
      assert multiset(queue)[b] == multiset(rest)[b] + multiset{bundle}[b];
    }
    forall k | k in byKey && k != bundle.messageKey
      ensures byKey[k] in rest
    {
      assert byKey[k] in multiset(queue);
      assert byKey[k] in multiset(rest);
    }
  }

  lemma EmptyWhenEmpty(queue: seq<AlsMessageBundle>, byKey: map<string, AlsMessageBundle>)
    requires Agree(queue, byKey)
    ensures queue == [] <==> byKey == map[]
  {
    assert queue != [] ==> queue[0].messageKey in byKey;
    if byKey != map[] {
      var k :| k in byKey.Keys;
      assert byKey[k] in queue;
    }
  }

  function KeysOf(bundles: seq<AlsMessageBundle>): set<string> {
    set b | b in bundles :: b.messageKey
  }

  lemma ExtendKeys(bundles: seq<AlsMessageBundle>, bundle: AlsMessageBundle)
    ensures KeysOf(bundles + [bundle]) == KeysOf(bundles) + {bundle.messageKey}
  {
    var more := bundles + [bundle];
    assert forall b :: b in more <==> b in bundles || b == bundle;
    assert bundle in more;
  }

  // A bundle as fetch_assembled takes them
  ghost predicate Fetchable(b: Bundle, maxRequests: Option<nat>) {
    b.assembled && RequestCount(b).Some? && (maxRequests.Some? ==> RequestCount(b).value <= maxRequests.value)
  }

  // There is nothing to fetch: no bundle is assembled, or one that is has too many requests and
  // may keep others from being fetched
  ghost predicate NoneToFetch(held: Held, maxRequests: Option<nat>) {
    (forall k :: k in held ==> !held[k].assembled) || exists k ::
      k in held && held[k].assembled && !Fetchable(held[k], maxRequests)
  }

  // Every bundle is assembled and small enough
  ghost predicate AllFetchable(held: Held, maxRequests: Option<nat>) {
    forall k :: k in held ==> Fetchable(held[k], maxRequests)
  }

  lemma StaysFetchable(byKey0: map<string, AlsMessageBundle>, held0: Held, byKey: map<string, AlsMessageBundle>,
                       held: Held, ret: seq<AlsMessageBundle>, maxRequests: Option<nat>, k: string)
    requires Taken(byKey0, held0, byKey, held, ret, maxRequests) && AllFetchable(held0, maxRequests) && k in held
    ensures Fetchable(held[k], maxRequests)
  {
  }

  // The object holds bundle v, not taken apart yet
  ghost predicate Holds(b: AlsMessageBundle, v: Bundle)
    reads b
  {
    b.Valid() && b.storeParts.None? && b.View() == v
  }

  // 'ret' was taken out of a collection, leaving what is there now
  ghost predicate Taken(byKey0: map<string, AlsMessageBundle>, held0: Held,
                        byKey: map<string, AlsMessageBundle>, held: Held,
                        ret: seq<AlsMessageBundle>, maxRequests: Option<nat>) {
    && byKey == byKey0 - KeysOf(ret) && held == held0 - KeysOf(ret)
    && (forall i, j :: 0 <= i < j < |ret| ==> ret[i].messageKey != ret[j].messageKey)
    && forall b :: b in ret ==>
         && b.messageKey in held0 && b.messageKey in byKey0 && byKey0[b.messageKey] == b
         && Fetchable(held0[b.messageKey], maxRequests)
  }

  lemma TakenNone(byKey: map<string, AlsMessageBundle>, held: Held, maxRequests: Option<nat>)
    ensures Taken(byKey, held, byKey, held, [], maxRequests)
  {
    assert KeysOf([]) == {};
  }

  lemma TakenOneMore(byKey0: map<string, AlsMessageBundle>, held0: Held, byKey: map<string, AlsMessageBundle>,
                     held: Held, ret: seq<AlsMessageBundle>, maxRequests: Option<nat>, bundle: AlsMessageBundle)
    requires Taken(byKey0, held0, byKey, held, ret, maxRequests)
    requires bundle.messageKey in byKey && byKey[bundle.messageKey] == bundle
    requires bundle.messageKey in held && Fetchable(held[bundle.messageKey], maxRequests)
    ensures Taken(byKey0, held0, byKey - {bundle.messageKey}, held - {bundle.messageKey}, ret + [bundle], maxRequests)
  {
    ExtendKeys(ret, bundle);
    assert forall b :: b in ret + [bundle] <==> b in ret || b == bundle;
    assert forall i :: 0 <= i < |ret| ==> ret[i] in ret && ret[i].messageKey in KeysOf(ret);
  }

  lemma StillAsItWas(byKey0: map<string, AlsMessageBundle>, held0: Held, byKey: map<string, AlsMessageBundle>,
                     held: Held, ret: seq<AlsMessageBundle>, maxRequests: Option<nat>, key: string)
    requires Taken(byKey0, held0, byKey, held, ret, maxRequests) && key in held
    ensures key in held0 && held0[key] == held[key]
  {
  }

  class IncompleteAlsBundles {
    var bundleQueue: seq<AlsMessageBundle>
    var bundleMap: map<string, AlsMessageBundle>
    ghost var held: Held
    ghost var Repr: set<object>

    ghost predicate Valid()
      reads this, Repr
      ensures Valid() ==> this in Repr
    {
      && this in Repr
      && Agree(bundleQueue, bundleMap)
      && held.Keys == bundleMap.Keys
      && forall k :: k in bundleMap ==>
           && bundleMap[k] in Repr && bundleMap[k].messageKey == k
           && bundleMap[k].Valid() && bundleMap[k].storeParts.None? && bundleMap[k].View() == held[k]
    }

    // The queue is in heap order. An add_message that raises may leave it out of order.
    ghost predicate InOrder()
      reads this
    {
      Heapq.Ordered(bundleQueue, RankBy(Stamps(held)))
    }

    constructor ()
      ensures Valid() && fresh(Repr) && InOrder() && held == map[]
    {
      bundleQueue, bundleMap, held := [], map[], map[];
      Repr := {this};
    }

    // The ranks by which the heap functions compare bundles at the moment
    method Ranks() returns (stamps: map<string, int>)
      requires Valid()
      ensures stamps == Stamps(held)
    {
      stamps := map k | k in bundleMap :: bundleMap[k].lastUpdate;
    }

    // A bundle just made goes into the heap and the map
    method AddBundle(bundle: AlsMessageBundle)
      requires Valid() && bundle.messageKey !in bundleMap
      requires bundle.Valid() && bundle.storeParts.None?
      modifies this
      ensures Valid() && Repr == old(Repr) + {bundle} && bundle.messageKey in bundleMap
      ensures held == old(held)[bundle.messageKey := bundle.View()]
    {
      hide Agree, AlsMessageBundle.Valid, AlsMessageBundle.View, Heapq.Ordered, Stamps, RankBy;
      var stamps := Ranks();
      var pushed := Heapq.HeapPush(bundleQueue, bundle, RankBy(stamps[bundle.messageKey := bundle.lastUpdate]));
      AgreeAfterPush(bundleQueue, bundleMap, bundle, pushed);
      bundleQueue := pushed;
      bundleMap := bundleMap[bundle.messageKey := bundle];
      held := held[bundle.messageKey := bundle.View()];
      Repr := Repr + {bundle};
    }

    method UpdateBundle(key: string, message: AlsMessage, position: KafkaPosition, now: int) returns (outcome: Outcome)
      requires Valid() && key in bundleMap
      modifies Repr
      ensures Valid() && Repr == old(Repr)
      ensures outcome == Updated(old(held)[key], message, position, now).1
      ensures held == old(held)[key := Updated(old(held)[key], message, position, now).0]
    {
      hide Agree, AlsMessageBundle.Valid, AlsMessageBundle.View, Updated;
      outcome := bundleMap[key].Update(message, position, now);
      held := held[key := bundleMap[key].View()];
    }

    method Reorder()
      requires Valid()
      modifies this
      ensures Valid() && Repr == old(Repr) && held == old(held) && InOrder()
      ensures multiset(bundleQueue) == multiset(old(bundleQueue)) && |bundleQueue| == |old(bundleQueue)|
      ensures bundleMap == old(bundleMap)
    {
      hide Agree, AlsMessageBundle.Valid, AlsMessageBundle.View;
      var stamps := Ranks();
      var reordered := Heapq.Heapify(bundleQueue, RankBy(stamps));
      AgreeWhenReordered(bundleQueue, bundleMap, reordered);
      bundleQueue := reordered;
    }

    method AddMessage(key: string, message: AlsMessage, position: KafkaPosition, now: int)
      returns (created: bool, outcome: Outcome)
      requires Valid()
      modifies Repr
      ensures Valid() && fresh(Repr - old(Repr))
      ensures created == (key !in old(held))
      ensures (held, outcome) == AddedTo(old(held), key, message, position, now)
      ensures outcome != Rejected ==> InOrder()
    {
      hide Agree, AlsMessageBundle.Valid, AlsMessageBundle.View, Updated;
      created := key !in bundleMap;
      if created {
        var bundle := new AlsMessageBundle(key, now);
        AddBundle(bundle);
      }
      outcome := UpdateBundle(key, message, position, now);
      assert held == AddedTo(old(held), key, message, position, now).0;
      if outcome != Rejected {
        Reorder();
      }
    }

    method GetOldestBundle() returns (oldest: Option<AlsMessageBundle>)
      requires Valid()
      ensures oldest.None? <==> held == map[]
      ensures oldest.Some? ==>
        && bundleQueue != [] && oldest.value == bundleQueue[0]
        && oldest.value.messageKey in held && Holds(oldest.value, held[oldest.value.messageKey])
        && oldest.value in Repr
        && (InOrder() ==> forall k :: k in held ==> held[oldest.value.messageKey].lastUpdate <= held[k].lastUpdate)
    {
      if bundleQueue == [] {
        EmptyWhenEmpty(bundleQueue, bundleMap);
        return None;
      }
      oldest := Some(bundleQueue[0]);
      if InOrder() {
        forall k | k in held
          ensures held[bundleQueue[0].messageKey].lastUpdate <= held[k].lastUpdate
        {
          var i :| 0 <= i < |bundleQueue| && bundleQueue[i] == bundleMap[k];
          Heapq.RootIsLeast(bundleQueue, RankBy(Stamps(held)), i);
        }
      }
    }

    // Takes out assembled bundles, in the order of the heap array, until 'maxBundles' are taken
    // or one is met that has more than 'maxRequests' requests: the number of requests of
    // the bundles already taken is not added up.
    method FetchAssembled(maxBundles: Option<nat>, maxRequests: Option<nat>) returns (ret: seq<AlsMessageBundle>)
      requires Valid()
      modifies this
      ensures Valid() && Repr <= old(Repr)
      ensures forall i :: 0 <= i < |ret| ==> ret[i] in old(Repr) - Repr
      ensures forall i :: 0 <= i < |ret| ==>
        ret[i].messageKey in old(held) && Holds(ret[i], old(held)[ret[i].messageKey])
      ensures Taken(old(bundleMap), old(held), bundleMap, held, ret, maxRequests)
      ensures multiset(old(bundleQueue)) == multiset(bundleQueue) + multiset(ret)
      ensures maxBundles.Some? ==> |ret| <= maxBundles.value
      ensures ret == [] && maxBundles != Some(0) ==> NoneToFetch(held, maxRequests)
      ensures AllFetchable(old(held), maxRequests) ==> bundleQueue == [] || maxBundles == Some(|ret|)
      ensures old(InOrder()) ==> InOrder()
    {
      hide Valid, InOrder, AlsMessageBundle.Valid, AlsMessageBundle.View, Taken, Fetchable, KeysOf, Holds, NoneToFetch,
        AllFetchable,
        NoneUpTo;
      ret := [];
      var idx := 0;
      TakenNone(bundleMap, held, maxRequests);
      NoneYet();
      while idx < |bundleQueue| && (maxBundles.None? || |ret| < maxBundles.value)
        invariant Valid() && Repr <= old(Repr)
        invariant forall i :: 0 <= i < |ret| ==> ret[i] in old(Repr) - Repr
        invariant forall i :: 0 <= i < |ret| ==>
          ret[i].messageKey in old(held) && Holds(ret[i], old(held)[ret[i].messageKey])
        invariant Taken(old(bundleMap), old(held), bundleMap, held, ret, maxRequests)
        invariant multiset(old(bundleQueue)) == multiset(bundleQueue) + multiset(ret)
        invariant maxBundles.Some? ==> |ret| <= maxBundles.value
        invariant ret == [] ==> NoneUpTo(idx)
        invariant AllFetchable(old(held), maxRequests) ==> idx == 0
        invariant old(InOrder()) ==> InOrder()
        decreases |bundleQueue| - idx
      {
        var bundle := bundleQueue[idx];
        IsThere(idx);
        if !bundle.assembled {
          NotAllFetchable(idx, old(bundleMap), old(held), ret, maxRequests);
          if ret == [] {
            NoneFurther(idx);
          }
          idx := idx + 1;
          continue;
        }
        if maxRequests.Some? && bundle.RequestsInside() > maxRequests.value {
          IsTooLarge(idx, maxRequests);
          NotAllFetchable(idx, old(bundleMap), old(held), ret, maxRequests);
          return;
        }
        TakeAt(idx, maxRequests, old(bundleMap), old(held), ret);
        ret := ret + [bundle];
      }
      if ret == [] && maxBundles != Some(0) {
        NoneAtAll(idx, maxRequests);
      }
    }

    // One more bundle is taken, besides those in 'ret'
    method TakeAt(i: nat, ghost maxRequests: Option<nat>, ghost byKey0: map<string, AlsMessageBundle>,
                  ghost held0: Held,
                  ghost ret: seq<AlsMessageBundle>)
      requires Valid() && i < |bundleQueue| && bundleQueue[i].assembled
      requires bundleQueue[i].requestMsg.Some? && bundleQueue[i].requestMsg.value.requests.Some?
      requires maxRequests.Some? ==> bundleQueue[i].RequestsInside() <= maxRequests.value
      requires Taken(byKey0, held0, bundleMap, held, ret, maxRequests)
      modifies this
      ensures Valid() && InOrder() && Repr == old(Repr) - {old(bundleQueue[i])}
      ensures |bundleQueue| == |old(bundleQueue)| - 1
      ensures multiset(old(bundleQueue)) == multiset(bundleQueue) + multiset{old(bundleQueue[i])}
      ensures old(bundleQueue[i]).messageKey in held0
        && Holds(old(bundleQueue[i]), held0[old(bundleQueue[i]).messageKey])
      ensures Taken(byKey0, held0, bundleMap, held, ret + [old(bundleQueue[i])], maxRequests)
      ensures old(bundleQueue[i]) in old(Repr)
    {
      hide Valid, InOrder, AlsMessageBundle.Valid, AlsMessageBundle.View, Taken, Fetchable, KeysOf, Holds;
      var bundle := bundleQueue[i];
      IsThere(i);
      IsFetchable(i, maxRequests);
      StillAsItWas(byKey0, held0, bundleMap, held, ret, maxRequests, bundle.messageKey);
      TakenOneMore(byKey0, held0, bundleMap, held, ret, maxRequests, bundle);
      TakeOut(i);
    }

    // None of the first bundles of the queue is assembled
    ghost predicate NoneUpTo(idx: nat)
      reads this
    {
      forall j :: 0 <= j < idx && j < |bundleQueue| ==>
        bundleQueue[j].messageKey in held && !held[bundleQueue[j].messageKey].assembled
    }

    lemma NoneYet()
      ensures NoneUpTo(0)
    {
    }

    lemma NoneFurther(idx: nat)
      requires Valid() && NoneUpTo(idx) && idx < |bundleQueue| && !bundleQueue[idx].assembled
      ensures NoneUpTo(idx + 1)
    {
      IsThere(idx);
    }

    lemma NoneAtAll(idx: nat, maxRequests: Option<nat>)
      requires Valid() && NoneUpTo(idx) && |bundleQueue| <= idx
      ensures NoneToFetch(held, maxRequests)
    {
      forall k | k in held
        ensures !held[k].assembled
      {
        var j :| 0 <= j < |bundleQueue| && bundleQueue[j] == bundleMap[k];
      }
    }

    lemma IsTooLarge(i: nat, maxRequests: Option<nat>)
      requires Valid() && i < |bundleQueue| && bundleQueue[i].assembled
      requires bundleQueue[i].requestMsg.Some? && bundleQueue[i].requestMsg.value.requests.Some?
      requires maxRequests.Some? && bundleQueue[i].RequestsInside() > maxRequests.value
      ensures NoneToFetch(held, maxRequests)
    {
      IsThere(i);
    }

    lemma IsFetchable(i: nat, maxRequests: Option<nat>)
      requires Valid() && i < |bundleQueue| && bundleQueue[i].assembled
      requires bundleQueue[i].requestMsg.Some? && bundleQueue[i].requestMsg.value.requests.Some?
      requires maxRequests.Some? ==> bundleQueue[i].RequestsInside() <= maxRequests.value
      ensures bundleQueue[i].messageKey in held && Fetchable(held[bundleQueue[i].messageKey], maxRequests)
    {
      IsThere(i);
    }

    lemma NotAllFetchable(i: nat, byKey0: map<string, AlsMessageBundle>, held0: Held, ret: seq<AlsMessageBundle>,
                          maxRequests: Option<nat>)
      requires Valid() && i < |bundleQueue| && Taken(byKey0, held0, bundleMap, held, ret, maxRequests)
      requires bundleQueue[i].assembled ==>
        && bundleQueue[i].requestMsg.Some? && bundleQueue[i].requestMsg.value.requests.Some?
        && maxRequests.Some? && bundleQueue[i].RequestsInside() > maxRequests.value
      ensures !AllFetchable(held0, maxRequests)
    {
      hide Valid, Taken, AllFetchable, Fetchable, Holds, KeysOf, AlsMessageBundle.Valid, AlsMessageBundle.View;
      IsThere(i);
      if Fetchable(held[bundleQueue[i].messageKey], maxRequests) {
        FetchableIsSmall(i, maxRequests);
      }
      if AllFetchable(held0, maxRequests) {
        StaysFetchable(byKey0, held0, bundleMap, held, ret, maxRequests, bundleQueue[i].messageKey);
      }
    }

    lemma FetchableIsSmall(i: nat, maxRequests: Option<nat>)
      requires Valid() && i < |bundleQueue| && bundleQueue[i].messageKey in held
      requires Fetchable(held[bundleQueue[i].messageKey], maxRequests)
      ensures bundleQueue[i].assembled && bundleQueue[i].requestMsg.Some?
        && bundleQueue[i].requestMsg.value.requests.Some?
      ensures maxRequests.Some? ==> bundleQueue[i].RequestsInside() <= maxRequests.value
    {
      IsThere(i);
    }

    lemma IsThere(i: nat)
      requires Valid() && i < |bundleQueue|
      ensures var b := bundleQueue[i];
        && b in Repr && b.messageKey in held && b.messageKey in bundleMap && bundleMap[b.messageKey] == b && b.Valid()
             && b.storeParts.None?
        && b.View() == held[b.messageKey] && Holds(b, held[b.messageKey]) && b.assembled == held[b.messageKey].assembled
        && (b.assembled ==> b.requestMsg.Some? && b.requestMsg.value.requests.Some?)
    {
    }

    method TakeOut(i: nat)
      requires Valid() && i < |bundleQueue|
      modifies this
      ensures Valid() && Repr == old(Repr) - {old(bundleQueue[i])} && InOrder()
      ensures |bundleQueue| == |old(bundleQueue)| - 1
      ensures multiset(old(bundleQueue)) == multiset(bundleQueue) + multiset{old(bundleQueue[i])}
      ensures held == old(held) - {old(bundleQueue[i].messageKey)}
      ensures bundleMap == old(bundleMap) - {old(bundleQueue[i].messageKey)}
    {
      hide Agree, AlsMessageBundle.Valid, AlsMessageBundle.View, Heapq.Ordered;
      var bundle := bundleQueue[i];
      var rest := bundleQueue[..i] + bundleQueue[i + 1..];
      assert bundleQueue == bundleQueue[..i] + [bundle] + bundleQueue[i + 1..];
      Drop(bundle, rest);
      Reorder();
    }

    method RemoveOldestBundle() returns (bundle: AlsMessageBundle)
      requires Valid() && bundleQueue != []
      modifies this
      ensures Valid() && Repr == old(Repr) - {bundle} && bundle == old(bundleQueue[0])
      ensures held == old(held) - {bundle.messageKey} && |bundleQueue| == |old(bundleQueue)| - 1
      ensures old(InOrder()) ==> InOrder()
    {
      hide Agree, AlsMessageBundle.Valid, AlsMessageBundle.View;
      var stamps := Ranks();
      var popped, rest := Heapq.HeapPop(bundleQueue, RankBy(stamps));
      bundle := popped;
      Drop(bundle, rest);
    }

    // The bundle leaves the map, and 'rest' is what remains of the heap
    method Drop(bundle: AlsMessageBundle, rest: seq<AlsMessageBundle>)
      requires Valid() && multiset(bundleQueue) == multiset(rest) + multiset{bundle}
      modifies this
      ensures Valid() && Repr == old(Repr) - {bundle} && bundleQueue == rest
      ensures held == old(held) - {bundle.messageKey} && bundleMap == old(bundleMap) - {bundle.messageKey}
      ensures Heapq.Ordered(rest, RankBy(Stamps(old(held)))) ==> InOrder()
    {
      hide Agree, AlsMessageBundle.Valid, AlsMessageBundle.View, Heapq.Ordered;
      AgreeAfterRemoval(bundleQueue, bundleMap, bundle, rest);
      SameOrder(rest, bundleMap, held, bundle.messageKey);
      bundleQueue := rest;
      bundleMap := bundleMap - {bundle.messageKey};
      held := held - {bundle.messageKey};
      Repr := Repr - {bundle};
    }
  }

  lemma SameOrder(rest: seq<AlsMessageBundle>, byKey: map<string, AlsMessageBundle>, held: Held, key: string)
    requires held.Keys == byKey.Keys && Agree(rest, byKey - {key})
    ensures Heapq.Ordered(rest, RankBy(Stamps(held))) ==> Heapq.Ordered(rest, RankBy(Stamps(held - {key})))
  {
    if Heapq.Ordered(rest, RankBy(Stamps(held))) {
      forall p | 0 <= p < |rest|
        ensures Heapq.Fine(rest, RankBy(Stamps(held - {key})), p)
      {
        assert Heapq.Fine(rest, RankBy(Stamps(held)), p);
        assert forall i :: 0 <= i < |rest| ==> RankBy(Stamps(held))(rest[i]) == RankBy(Stamps(held - {key}))(rest[i]);
      }
    }
  }
}
