/** Partially processed Kafka offsets and the level up to which they may be committed
    (classes KafkaPositions, PartitionOffsets and OffsetInfo of als/als_siphon.py). */
module KafkaOffsets {
  import opened Wrappers
  import Heapq

  datatype TopicPartition = TopicPartition(topic: string, partition: int)

  datatype KafkaPosition = KafkaPosition(tp: TopicPartition, offset: int)

  // What a partition tracks: offset -> processed
  type Offsets = map<int, bool>

  // What the whole collection tracks. A partition that tracks nothing may be absent.
  type Positions = map<TopicPartition, Offsets>

  function AddOffset(v: Offsets, offset: int): Offsets {
    if offset in v then v else v[offset := false]
  }

  function MarkOffset(v: Offsets, offset: int): Offsets {
    if offset in v then v[offset := true] else v
  }

  function MarkAll(v: Offsets): Offsets {
    map k | k in v :: true
  }

  // Offset l is tracked, and everything tracked at or below it is processed
  ghost predicate Committable(v: Offsets, l: int) {
    l in v && forall k :: k in v && k <= l ==> v[k]
  }

  // The commit level: the greatest committable offset, or None when there is none
  ghost predicate IsLevel(v: Offsets, level: Option<int>) {
    match level
    case None => forall l :: !Committable(v, l)
    case Some(l) => Committable(v, l) && forall m :: Committable(v, m) ==> m <= l
  }

  function Above(v: Offsets, level: Option<int>): Offsets {
    map k | k in v && (level.Some? ==> level.value < k) :: v[k]
  }

  function AddPosition(p: Positions, position: KafkaPosition): Positions {
    var tracked := if position.tp in p then p[position.tp] else map[];
    p[position.tp := AddOffset(tracked, position.offset)]
  }

  function MarkPosition(p: Positions, position: KafkaPosition): Positions {
    if position.tp in p then p[position.tp := MarkOffset(p[position.tp], position.offset)] else p
  }

  function MarkTopic(p: Positions, topic: string): Positions {
    map tp | tp in p :: if tp.topic == topic then MarkAll(p[tp]) else p[tp]
  }

  function Find<K, V>(m: map<K, V>, k: K): Option<V> {
    if k in m then Some(m[k]) else None
  }

  ghost predicate AreLevels(p: Positions, levels: map<TopicPartition, int>) {
    && levels.Keys <= p.Keys
    && forall tp :: tp in p ==> IsLevel(p[tp], Find(levels, tp))
  }

  // What a partition still tracks once its level is taken; None if that emptied it
  function Remaining(v: Offsets, level: Option<int>): Option<Offsets> {
    if level.Some? && Above(v, level) == map[] then None else Some(Above(v, level))
  }

  function AfterLevels(p: Positions, levels: map<TopicPartition, int>): Positions {
    map tp | tp in p && Remaining(p[tp], Find(levels, tp)).Some? :: Remaining(p[tp], Find(levels, tp)).value
  }

  lemma LevelIsUnique(v: Offsets, a: Option<int>, b: Option<int>)
    requires IsLevel(v, a) && IsLevel(v, b)
    ensures a == b
  {
    if a.Some? && b.Some? {
      assert Committable(v, a.value) && Committable(v, b.value);
    }
  }

  function Rank(offset: int): int {
    offset
  }

  // The heap and the catalog hold the same offsets, each once
  ghost predicate Linked(queue: seq<int>, catalog: Offsets) {
    && (forall i :: 0 <= i < |queue| ==> queue[i] in catalog && multiset(queue)[queue[i]] == 1)
    && (forall k :: k in catalog ==> k in queue)
  }

  lemma LinkedAfterPush(queue: seq<int>, catalog: Offsets, offset: int, pushed: seq<int>)
    requires Linked(queue, catalog) && offset !in catalog
    requires multiset(pushed) == multiset(queue) + multiset{offset}
    ensures Linked(pushed, catalog[offset := false])
  {
    assert offset !in queue;
    forall i | 0 <= i < |pushed|
      ensures pushed[i] in catalog[offset := false] && multiset(pushed)[pushed[i]] == 1
    {
      var o := pushed[i];
      assert o in multiset(pushed);
      assert o != offset ==> o in queue;
    }
    forall k | k in catalog[offset := false]
      ensures k in pushed
    {
      assert k in multiset(pushed);
    }
  }

  lemma LinkedAfterPop(queue: seq<int>, catalog: Offsets, offset: int, rest: seq<int>)
    requires Linked(queue, catalog)
    requires multiset(queue) == multiset(rest) + multiset{offset}
    ensures offset in catalog && Linked(rest, catalog - {offset})
  {
    assert offset in multiset(queue);
    assert offset in queue;
    forall i | 0 <= i < |rest|
      ensures rest[i] in catalog - {offset} && multiset(rest)[rest[i]] == 1
    {
      var o := rest[i];
      assert o in multiset(rest);
      assert o in multiset(queue);
      assert o in queue;
      assert multiset(queue)[o] == multiset(rest)[o] + multiset{offset}[o];
    }
    forall k | k in catalog - {offset}
      ensures k in rest
    {
      assert k in multiset(queue);
      assert k in multiset(rest);
    }
  }

  lemma RootIsLowest(queue: seq<int>, catalog: Offsets)
    requires Linked(queue, catalog) && Heapq.Ordered(queue, Rank) && 0 < |queue|
    ensures queue[0] in catalog
    ensures forall k :: k in catalog ==> queue[0] <= k
  {
    forall k | k in catalog
      ensures queue[0] <= k
    {
      assert k in queue;
      var i :| 0 <= i < |queue| && queue[i] == k;
      Heapq.RootIsLeast(queue, Rank, i);
    }
  }

  lemma EmptyTogether(queue: seq<int>, catalog: Offsets)
    requires Linked(queue, catalog)
    ensures queue == [] <==> catalog == map[]
  {
    if queue == [] {
      assert forall k :: k in catalog ==> k in queue;
    } else {
      assert queue[0] in catalog;
    }
  }

  class PartitionOffsets {
    // Heap of tracked offsets
    var queue: seq<int>
    // Tracked offsets with their processed status
    var catalog: Offsets
    // Where this partition is filed; tells apart the objects of different partitions
    ghost const home: TopicPartition

    ghost predicate Valid()
      reads this
    {
      Heapq.Ordered(queue, Rank) && Linked(queue, catalog)
    }

    constructor (ghost home: TopicPartition)
      ensures Valid() && catalog == map[] && this.home == home
    {
      queue, catalog := [], map[];
      this.home := home;
    }

    predicate IsEmpty()
      requires Valid()
      reads this
      ensures IsEmpty() == (catalog == map[])
    {
      EmptyTogether(queue, catalog);
      queue == []
    }

    method Add(offset: int)
      requires Valid()
      modifies this
      ensures Valid() && catalog == AddOffset(old(catalog), offset)
    {
      if offset in catalog {
        return;
      }
      var pushed := Heapq.HeapPush(queue, offset, Rank);
      LinkedAfterPush(queue, catalog, offset, pushed);
      queue := pushed;
      catalog := catalog[offset := false];
    }

    method MarkProcessed(offset: Option<int>)
      requires Valid()
      modifies this
      ensures Valid()
      ensures catalog == if offset.Some? then MarkOffset(old(catalog), offset.value) else MarkAll(old(catalog))
    {
      if offset.Some? {
        if offset.value in catalog {
          catalog := catalog[offset.value := true];
        }
      } else {
        catalog := map k | k in catalog :: true;
      }
    }

    method GetProcessedOffset() returns (ret: Option<int>)
      requires Valid()
      modifies this
      ensures Valid()
      ensures IsLevel(old(catalog), ret)
      ensures catalog == Above(old(catalog), ret)
    {
      ret := None;
      while 0 < |queue| && (RootIsLowest(queue, catalog); catalog[queue[0]])
        invariant Valid()
        invariant catalog == Above(old(catalog), ret)
        invariant ret.Some? ==> Committable(old(catalog), ret.value)
        decreases |queue|
      {
        RootIsLowest(queue, catalog);
        var offset, rest := Heapq.HeapPop(queue, Rank);
        LinkedAfterPop(queue, catalog, offset, rest);
        PopRaisesLevel(old(catalog), ret, offset);
        queue := rest;
        catalog := catalog - {offset};
        ret := Some(offset);
      }
      if 0 < |queue| {
        RootIsLowest(queue, catalog);
        StopAtUnprocessed(old(catalog), ret, queue[0]);
      } else {
        assert IsEmpty();
        StopAtEmpty(old(catalog), ret);
      }
    }
  }

  // Popping the least tracked offset, a processed one, moves the level to it
  lemma PopRaisesLevel(v: Offsets, level: Option<int>, least: int)
    requires level.Some? ==> Committable(v, level.value)
    requires least in Above(v, level) && v[least]
    requires forall k :: k in Above(v, level) ==> least <= k
    ensures Committable(v, least)
    ensures Above(v, level) - {least} == Above(v, Some(least))
  {
    forall k | k in v && k <= least
      ensures v[k]
    {
      if k in Above(v, level) {
        assert k == least;
      }
    }
  }

  lemma StopAtUnprocessed(v: Offsets, level: Option<int>, least: int)
    requires level.Some? ==> Committable(v, level.value)
    requires least in Above(v, level) && !v[least]
    requires forall k :: k in Above(v, level) ==> least <= k
    ensures IsLevel(v, level)
  {
    forall m | Committable(v, m)
      ensures level.Some? && m <= level.value
    {
      assert m !in Above(v, level);
    }
  }

  lemma StopAtEmpty(v: Offsets, level: Option<int>)
    requires level.Some? ==> Committable(v, level.value)
    requires Above(v, level) == map[]
    ensures IsLevel(v, level)
  {
    forall m | Committable(v, m)
      ensures level.Some? && m <= level.value
    {
      assert m !in Above(v, level);
    }
  }

  class KafkaPositions {
    var topics: map<TopicPartition, PartitionOffsets>
    ghost var tracked: Positions
    ghost var Repr: set<object>

    ghost predicate Valid()
      reads this, Repr
      ensures Valid() ==> this in Repr
    {
      && this in Repr
      && tracked.Keys == topics.Keys
      && (forall tp :: tp in topics ==>
            && topics[tp] in Repr && topics[tp].home == tp
            && topics[tp].Valid() && topics[tp].catalog == tracked[tp])
    }

    constructor ()
      ensures Valid() && fresh(Repr) && tracked == map[]
    {
      topics, tracked := map[], map[];
      Repr := {this};
    }

    method Add(position: KafkaPosition)
      requires Valid()
      modifies Repr
      ensures Valid() && fresh(Repr - old(Repr))
      ensures tracked == AddPosition(old(tracked), position)
    {
      hide PartitionOffsets.Valid;
      var tp := position.tp;
      if tp !in topics {
        AddPartition(tp);
      }
      topics[tp].Add(position.offset);
      tracked := tracked[tp := topics[tp].catalog];
    }

    method AddPartition(tp: TopicPartition)
      requires Valid() && tp !in topics
      modifies this
      ensures Valid() && fresh(Repr - old(Repr)) && tp in topics
      ensures tracked == old(tracked)[tp := map[]]
    {
      hide PartitionOffsets.Valid;
      var po := new PartitionOffsets(tp);
      topics := topics[tp := po];
      tracked := tracked[tp := map[]];
      Repr := Repr + {po};
    }

    // One partition is marked: one of its offsets, or all of them
    method MarkIn(tp: TopicPartition, offset: Option<int>)
      requires Valid() && tp in topics
      modifies Repr
      ensures Valid() && Repr == old(Repr) && topics == old(topics)
      ensures tracked == old(tracked)[tp := if offset.Some? then MarkOffset(old(tracked)[tp], offset.value)
                                            else MarkAll(old(tracked)[tp])]
    {
      hide PartitionOffsets.Valid;
      topics[tp].MarkProcessed(offset);
      tracked := tracked[tp := topics[tp].catalog];
    }

    method MarkProcessed(position: KafkaPosition)
      requires Valid()
      modifies Repr
      ensures Valid() && Repr == old(Repr)
      ensures tracked == MarkPosition(old(tracked), position)
    {
      if position.tp in topics {
        MarkIn(position.tp, Some(position.offset));
      }
    }

    method MarkTopicProcessed(topic: string)
      requires Valid()
      modifies Repr
      ensures Valid() && Repr == old(Repr)
      ensures tracked == MarkTopic(old(tracked), topic)
    {
      hide PartitionOffsets.Valid;
      var pending := topics.Keys;
      while pending != {}
        invariant Valid() && Repr == old(Repr) && topics == old(topics) && pending <= topics.Keys
        invariant forall tp :: tp in topics ==>
          tracked[tp] == if tp.topic == topic && tp !in pending then MarkAll(old(tracked)[tp]) else old(tracked)[tp]
        decreases pending
      {
        var tp :| tp in pending;
        pending := pending - {tp};
        if tp.topic == topic {
          MarkIn(tp, None);
        }
      }
    }

    // The level of one partition; a partition emptied by taking it is dropped
    method TakeLevelIn(tp: TopicPartition) returns (level: Option<int>)
      requires Valid() && tp in topics
      modifies Repr
      ensures Valid() && Repr == old(Repr)
      ensures IsLevel(old(tracked)[tp], level)
      ensures Find(tracked, tp) == Remaining(old(tracked)[tp], level)
      ensures tracked - {tp} == old(tracked) - {tp}
    {
      hide PartitionOffsets.Valid;
      level := topics[tp].GetProcessedOffset();
      if level.Some? && topics[tp].IsEmpty() {
        topics := topics - {tp};
        tracked := tracked - {tp};
      } else {
        tracked := tracked[tp := topics[tp].catalog];
      }
    }

    method GetProcessedOffsets() returns (ret: map<TopicPartition, int>)
      requires Valid()
      modifies Repr
      ensures Valid() && Repr == old(Repr)
      ensures AreLevels(old(tracked), ret)
      ensures tracked == AfterLevels(old(tracked), ret)
    {
      hide PartitionOffsets.Valid, LevelsTakenExcept, AreLevels, IsLevel, AfterLevels, Remaining;
      ret := map[];
      var pending := topics.Keys;
      TakeFirst(tracked);
      while pending != {}
        invariant Valid() && Repr == old(Repr)
        invariant LevelsTakenExcept(old(tracked), ret, tracked, pending)
        decreases pending
      {
        var tp :| tp in pending;
        ghost var before := tracked;
        StillTracked(old(tracked), ret, tracked, pending, tp);
        var level := TakeLevelIn(tp);
        TakeOneMore(old(tracked), ret, before, pending, tp, level, tracked);
        pending := pending - {tp};
        if level.Some? {
          ret := ret[tp := level.value];
        }
      }
      TakeLast(old(tracked), ret, tracked);
    }
  }

  // The loop of GetProcessedOffsets: levels taken from the partitions outside 'pending'
  ghost predicate LevelsTakenExcept(p: Positions, levels: map<TopicPartition, int>, left: Positions,
                                    pending: set<TopicPartition>) {
    && pending <= p.Keys && left.Keys <= p.Keys && levels.Keys <= p.Keys - pending
    && (forall tp :: tp in pending ==> tp in left && left[tp] == p[tp])
    && (forall tp :: tp in p && tp !in pending ==>
          IsLevel(p[tp], Find(levels, tp)) && Find(left, tp) == Remaining(p[tp], Find(levels, tp)))
  }

  lemma TakeFirst(p: Positions)
    ensures LevelsTakenExcept(p, map[], p, p.Keys)
  {
  }

  lemma StillTracked(p: Positions, levels: map<TopicPartition, int>, left: Positions, pending: set<TopicPartition>,
                     tp: TopicPartition)
    requires LevelsTakenExcept(p, levels, left, pending) && tp in pending
    ensures tp in p && tp in left && left[tp] == p[tp]
  {
  }

  lemma TakeLast(p: Positions, levels: map<TopicPartition, int>, left: Positions)
    requires LevelsTakenExcept(p, levels, left, {})
    ensures AreLevels(p, levels) && left == AfterLevels(p, levels)
  {
  }

  lemma TakeOneMore(p: Positions, levels: map<TopicPartition, int>, left: Positions, pending: set<TopicPartition>,
                    tp: TopicPartition, level: Option<int>, left': Positions)
    requires LevelsTakenExcept(p, levels, left, pending) && tp in pending
    requires IsLevel(p[tp], level) && Find(left', tp) == Remaining(p[tp], level)
    requires left' - {tp} == left - {tp}
    ensures LevelsTakenExcept(p, if level.Some? then levels[tp := level.value] else levels, left', pending - {tp})
  {
    forall t | t != tp
      ensures Find(left', t) == Find(left, t)
    {
      assert Find(left - {tp}, t) == Find(left, t) && Find(left' - {tp}, t) == Find(left', t);
    }
    var levels' := if level.Some? then levels[tp := level.value] else levels;
    forall t | t in p && t !in pending - {tp}
      ensures IsLevel(p[t], Find(levels', t)) && Find(left', t) == Remaining(p[t], Find(levels', t))
    {
      assert t != tp ==> Find(levels', t) == Find(levels, t);
    }
    forall t | t in left'
      ensures t in p
    {
      assert t != tp ==> Find(left', t) == Find(left, t);
    }
    forall t | t in pending - {tp}
      ensures t in left' && left'[t] == p[t]
    {
      assert Find(left', t) == Find(left, t);
    }
  }
}
