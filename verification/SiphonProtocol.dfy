/** What the siphon's main loop does to Kafka's commit levels, to the databases and to its own
    memory, as a state machine whose runs include crashes and restarts; and what holds in all
    of these runs (class Siphon of als/als_siphon.py). */
module SiphonProtocol {
  import opened Wrappers
  import opened KafkaOffsets
  import opened AlsBundle
  import opened BundleObject
  import opened IncompleteBundles

  const ALS_TOPIC := "ALS"

  datatype Keyed = Keyed(key: string, bundle: Bundle)

  datatype State = State(
    // Kept by Kafka and by the databases, across restarts of the siphon.
    // Committed: the offset from which a restarted consumer is served
    committed: map<TopicPartition, int>,
    database: set<Bundle>,             // bundles in the ALS database
    dropped: set<Bundle>,              // bundles written to the decode error table when timed out
    lost: set<Bundle>,                 // bundles of a batch that was rolled back
    rejected: set<KafkaPosition>,      // messages written to the decode error table on arrival
    logged: set<KafkaPosition>,        // messages of log topics that were handled
    // In the memory of the siphon
    next: map<TopicPartition, int>,    // the offset from which this run of the consumer goes on
    tracked: Positions,
    held: Held,
    limbo: set<Keyed>,                 // taken out of the collection, destructor not yet run
    ignored: set<KafkaPosition>)       // messages passed over as repeated ones

  datatype Event =
    | ReadAls(position: KafkaPosition, key: string, message: Option<AlsMessage>, now: int)
    | ReadLog(position: KafkaPosition)
    | LogsDone(topic: string)
    | WriteDone(keys: set<string>)
    | WriteFailed(keys: set<string>)
    | TimeOut(key: string, boundary: int)
    | Release(released: Keyed)
    | Commit(levels: map<TopicPartition, int>)
    | Crash
    | LibraryCommit

  function OffsetAt(m: map<TopicPartition, int>, tp: TopicPartition): int {
    if tp in m then m[tp] else 0
  }

  function BundlesOf(held: Held, keys: set<string>): set<Bundle> {
    set k | k in keys && k in held :: held[k]
  }

  function KeyedOf(held: Held, keys: set<string>): set<Keyed> {
    set k | k in keys && k in held :: Keyed(k, held[k])
  }

  // What the destructor of a bundle does
  function MarkAllOf(p: Positions, positions: set<KafkaPosition>): Positions {
    map tp | tp in p :: map o | o in p[tp] :: p[tp][o] || KafkaPosition(tp, o) in positions
  }

  function Start(): State {
    State(map[], {}, {}, {}, {}, {}, map[], map[], map[], {}, {})
  }

  // Offsets come in increasing order, none of the existing ones left out
  predicate Deliverable(s: State, position: KafkaPosition, published: set<KafkaPosition>) {
    && position in published && OffsetAt(s.next, position.tp) <= position.offset
    && forall p :: p in published && p.tp == position.tp && OffsetAt(s.next, p.tp) <= p.offset ==>
         position.offset <= p.offset
  }

  function Delivered(s: State, position: KafkaPosition): State {
    s.(next := s.next[position.tp := position.offset + 1], tracked := AddPosition(s.tracked, position))
  }

  function TrackedIn(p: Positions, topic: string): set<KafkaPosition> {
    set tp, o | tp in p && tp.topic == topic && o in p[tp] :: KafkaPosition(tp, o)
  }

  // Assembled, and not an occasion for take_apart to raise
  ghost predicate Storable(b: Bundle) {
    b.assembled && Covered(b) && CanBeTakenApart(b)
  }

  ghost predicate Enabled(s: State, e: Event, published: set<KafkaPosition>) {
    match e
    case ReadAls(position, _, _, _) => position.tp.topic == ALS_TOPIC && Deliverable(s, position, published)
    case ReadLog(position) => position.tp.topic != ALS_TOPIC && Deliverable(s, position, published)
    case LogsDone(topic) => topic != ALS_TOPIC
    case WriteDone(keys) => forall k :: k in keys ==> k in s.held && Storable(s.held[k])
    case WriteFailed(keys) => forall k :: k in keys ==> k in s.held && s.held[k].assembled
    case TimeOut(key, boundary) => key in s.held && s.held[key].lastUpdate <= boundary
    case Release(released) => released in s.limbo
    case Commit(levels) => AreLevels(s.tracked, levels)
    case Crash => true
    case LibraryCommit => true
  }

  function TakeOut(s: State, keys: set<string>): State {
    s.(held := s.held - keys, limbo := s.limbo + KeyedOf(s.held, keys))
  }

  function Next(s: State, e: Event): State {
    match e
    case ReadAls(position, key, message, now) =>
      var s := Delivered(s, position);
      if message.None? then
        s.(rejected := s.rejected + {position}, tracked := MarkPosition(s.tracked, position))
      else
        var (held, outcome) := AddedTo(s.held, key, message.value, position, now);
        var s := s.(held := held);
        (match outcome
         case Accepted => s
         case Ignored => s.(ignored := s.ignored + {position})
         case Rejected => s.(rejected := s.rejected + {position}, tracked := MarkPosition(s.tracked, position)))
    case ReadLog(position) => Delivered(s, position)
    case LogsDone(topic) => s.(logged := s.logged + TrackedIn(s.tracked, topic), tracked := MarkTopic(s.tracked, topic))
    case WriteDone(keys) => TakeOut(s, keys).(database := s.database + BundlesOf(s.held, keys))
    case WriteFailed(keys) => TakeOut(s, keys).(lost := s.lost + BundlesOf(s.held, keys))
    case TimeOut(key, _) => TakeOut(s, {key}).(dropped := s.dropped + BundlesOf(s.held, {key}))
    case Release(released) =>
      s.(limbo := s.limbo - {released}, tracked := MarkAllOf(s.tracked, released.bundle.positions))
    case Commit(levels) =>
      s.(committed := s.committed + (map tp | tp in levels :: levels[tp] + 1),
        tracked := AfterLevels(s.tracked, levels))
    case Crash => s.(next := s.committed, tracked := map[], held := map[], limbo := {}, ignored := {})
    case LibraryCommit => s.(committed := s.committed + s.next)
  }

  // ---- What holds in every state ----

  ghost predicate IsIn(bundles: set<Bundle>, p: KafkaPosition) {
    exists b :: b in bundles && p in b.positions
  }

  // A message that is stored, or of which there is a record why it is not
  ghost predicate Kept(s: State, p: KafkaPosition) {
    p in s.rejected || p in s.logged || IsIn(s.database, p) || IsIn(s.dropped, p)
  }

  // A message that the siphon is done with: kept, or rolled back with its batch
  ghost predicate Settled(s: State, p: KafkaPosition) {
    Kept(s, p) || IsIn(s.lost, p)
  }

  ghost predicate InLimbo(limbo: set<Keyed>, p: KafkaPosition) {
    exists x :: x in limbo && p in x.bundle.positions
  }

  predicate Tracks(p: Positions, position: KafkaPosition) {
    position.tp in p && position.offset in p[position.tp]
  }

  predicate Pending(p: Positions, position: KafkaPosition) {
    Tracks(p, position) && !p[position.tp][position.offset]
  }

  // What is below a commit level is settled. What this run has received is tracked, or settled,
  // and nothing else is tracked.
  ghost predicate LevelsFit(s: State, published: set<KafkaPosition>) {
    && (forall p :: p in published && p.offset < OffsetAt(s.committed, p.tp) ==> Settled(s, p))
    && (forall p :: p in published && p.offset < OffsetAt(s.next, p.tp) ==> Tracks(s.tracked, p) || Settled(s, p))
    && (forall p :: Tracks(s.tracked, p) ==> p in published && p.offset < OffsetAt(s.next, p.tp))
    && (forall tp :: OffsetAt(s.committed, tp) <= OffsetAt(s.next, tp))
  }

  // No commit level has passed a message that is tracked
  ghost predicate LevelsRise(s: State) {
    forall p :: Tracks(s.tracked, p) ==> OffsetAt(s.committed, p.tp) <= p.offset
  }

  // What is marked processed, or is going to be marked by a destructor, is settled
  ghost predicate MarksFit(s: State) {
    && (forall p :: Tracks(s.tracked, p) && !Pending(s.tracked, p) ==> Settled(s, p))
    && (forall p :: InLimbo(s.limbo, p) ==> Settled(s, p))
  }

  ghost predicate InHeld(s: State, k: string, p: KafkaPosition) {
    k in s.held && p in s.held[k].positions
  }

  // Messages in bundles, those of bundles that are not released yet, and repeated messages are
  // not marked, and are in one place only
  ghost predicate PlacesFit(s: State) {
    && (forall k, p :: InHeld(s, k, p) ==>
          && Pending(s.tracked, p) && p.tp.topic == ALS_TOPIC
          && p !in s.ignored && !InLimbo(s.limbo, p)
          && forall l :: InHeld(s, l, p) ==> l == k)
    && (forall p :: p in s.ignored ==> Pending(s.tracked, p) && p.tp.topic == ALS_TOPIC && !InLimbo(s.limbo, p))
    && (forall p :: InLimbo(s.limbo, p) ==> Pending(s.tracked, p) && p.tp.topic == ALS_TOPIC)
    && (forall x, y, p :: InKeyed(s.limbo, x, p) && InKeyed(s.limbo, y, p) ==> x == y)
  }

  ghost predicate InKeyed(limbo: set<Keyed>, x: Keyed, p: KafkaPosition) {
    x in limbo && p in x.bundle.positions
  }

  ghost predicate Inv(s: State, published: set<KafkaPosition>) {
    LevelsFit(s, published) && MarksFit(s) && PlacesFit(s)
  }

  lemma StartInv(published: set<KafkaPosition>)
    requires forall p :: p in published ==> 0 <= p.offset
    ensures Inv(Start(), published)
  {
  }

  lemma TracksAfterAdd(p: Positions, added: KafkaPosition)
    ensures forall x :: Tracks(AddPosition(p, added), x) <==> Tracks(p, x) || x == added
    ensures forall x :: Tracks(p, x) ==> (Pending(AddPosition(p, added), x) <==> Pending(p, x))
    ensures !Tracks(p, added) ==> Pending(AddPosition(p, added), added)
  {
  }

  lemma TracksAfterMark(p: Positions, marked: KafkaPosition)
    ensures forall x :: Tracks(MarkPosition(p, marked), x) <==> Tracks(p, x)
    ensures forall x :: Pending(MarkPosition(p, marked), x) <==> Pending(p, x) && x != marked
  {
  }

  lemma TracksAfterMarkTopic(p: Positions, topic: string)
    ensures forall x :: Tracks(MarkTopic(p, topic), x) <==> Tracks(p, x)
    ensures forall x :: Pending(MarkTopic(p, topic), x) <==> Pending(p, x) && x.tp.topic != topic
  {
  }

  lemma TracksAfterMarkAllOf(p: Positions, positions: set<KafkaPosition>)
    ensures forall x :: Tracks(MarkAllOf(p, positions), x) <==> Tracks(p, x)
    ensures forall x :: Pending(MarkAllOf(p, positions), x) <==> Pending(p, x) && x !in positions
  {
  }

  lemma TracksAfterLevels(p: Positions, levels: map<TopicPartition, int>)
    requires AreLevels(p, levels)
    ensures forall x :: Tracks(AfterLevels(p, levels), x) <==>
      Tracks(p, x) && (x.tp in levels ==> levels[x.tp] < x.offset)
    ensures forall x :: Pending(AfterLevels(p, levels), x) <==> Pending(p, x)
    ensures forall x :: Tracks(p, x) && x.tp in levels && x.offset <= levels[x.tp] ==> !Pending(p, x)
    ensures forall tp :: tp in levels ==> Tracks(p, KafkaPosition(tp, levels[tp]))
  {
    forall x
      ensures Tracks(AfterLevels(p, levels), x) <==> Tracks(p, x) && (x.tp in levels ==> levels[x.tp] < x.offset)
      ensures Pending(AfterLevels(p, levels), x) <==> Pending(p, x)
    {
      if x.tp in p {
        assert IsLevel(p[x.tp], Find(levels, x.tp));
        var left := Above(p[x.tp], Find(levels, x.tp));
        assert x.offset in left ==> left != map[];
      }
    }
    forall tp | tp in levels
      ensures Tracks(p, KafkaPosition(tp, levels[tp]))
    {
      assert IsLevel(p[tp], Find(levels, tp));
    }
  }

  lemma {:induction false} DeliveredInv(s: State, position: KafkaPosition, published: set<KafkaPosition>)
    requires Inv(s, published) && Deliverable(s, position, published)
    ensures !Tracks(s.tracked, position)
    ensures Inv(Delivered(s, position), published)
    ensures Pending(Delivered(s, position).tracked, position)
    ensures forall k :: !InHeld(s, k, position)
    ensures position !in s.ignored
  {
    hide IsIn, InLimbo;
    TracksAfterAdd(s.tracked, position);
    var s' := Delivered(s, position);
    forall p
      ensures Settled(s', p) == Settled(s, p)
    {
    }
    hide Settled, Tracks, Pending, AddPosition;
    assert LevelsFit(s', published);
    assert MarksFit(s');
    assert forall k, p :: InHeld(s', k, p) <==> InHeld(s, k, p);
    assert PlacesFit(s');
  }

  // The step on which everything rests: a level taken is below all that is not settled
  lemma LevelIsSettled(s: State, levels: map<TopicPartition, int>, published: set<KafkaPosition>, p: KafkaPosition)
    requires Inv(s, published) && AreLevels(s.tracked, levels)
    requires p in published && p.tp in levels && p.offset <= levels[p.tp]
    ensures Settled(s, p)
  {
    TracksAfterLevels(s.tracked, levels);
    hide Settled, Pending, AreLevels, AfterLevels, MarkAll;
    var top := KafkaPosition(p.tp, levels[p.tp]);
    assert Tracks(s.tracked, top);
    assert p.offset <= top.offset < OffsetAt(s.next, p.tp);
    assert Tracks(s.tracked, p) ==> !Pending(s.tracked, p);
  }

  lemma CommitRaises(s: State, levels: map<TopicPartition, int>, published: set<KafkaPosition>, tp: TopicPartition)
    requires Inv(s, published) && LevelsRise(s) && AreLevels(s.tracked, levels) && tp in levels
    ensures OffsetAt(s.committed, tp) < OffsetAt(Next(s, Commit(levels)).committed, tp) <= OffsetAt(s.next, tp)
  {
    TracksAfterLevels(s.tracked, levels);
    assert Tracks(s.tracked, KafkaPosition(tp, levels[tp]));
  }

  lemma BelowLevelsIsSettled(s: State, levels: map<TopicPartition, int>, published: set<KafkaPosition>,
                             p: KafkaPosition)
    requires Inv(s, published) && AreLevels(s.tracked, levels)
    requires p in published && p.offset < OffsetAt(Next(s, Commit(levels)).committed, p.tp)
    ensures Settled(Next(s, Commit(levels)), p)
  {
    hide PlacesFit, MarksFit, IsIn, AreLevels, AfterLevels;
    if p.tp in levels {
      LevelIsSettled(s, levels, published, p);
    }
  }

  lemma CommitKeepsLevels(s: State, levels: map<TopicPartition, int>, published: set<KafkaPosition>)
    requires Inv(s, published) && AreLevels(s.tracked, levels)
    ensures LevelsFit(Next(s, Commit(levels)), published)
  {
    hide MarksFit, PlacesFit, Tracks, Pending, AfterLevels, AreLevels, IsIn;
    TracksAfterLevels(s.tracked, levels);
    var s' := Next(s, Commit(levels));
    forall p | p in published && p.offset < OffsetAt(s'.committed, p.tp)
      ensures Settled(s', p)
    {
      BelowLevelsIsSettled(s, levels, published, p);
    }
    forall tp
      ensures OffsetAt(s'.committed, tp) <= OffsetAt(s'.next, tp)
    {
      assert tp in levels ==> Tracks(s.tracked, KafkaPosition(tp, levels[tp]));
    }
    forall p | p in published && p.offset < OffsetAt(s'.next, p.tp)
      ensures Tracks(s'.tracked, p) || Settled(s', p)
    {
      if p.tp in levels && p.offset <= levels[p.tp] {
        LevelIsSettled(s, levels, published, p);
      }
    }
    hide Settled;
  }

  lemma CommitInv(s: State, levels: map<TopicPartition, int>, published: set<KafkaPosition>)
    requires Inv(s, published) && AreLevels(s.tracked, levels)
    ensures Inv(Next(s, Commit(levels)), published)
  {
    hide IsIn, LevelsFit;
    CommitKeepsLevels(s, levels, published);
    TracksAfterLevels(s.tracked, levels);
    var s' := Next(s, Commit(levels));
    forall p
      ensures Settled(s', p) == Settled(s, p)
    {
    }
    hide Settled, Tracks, Pending, AfterLevels, AreLevels;
    assert forall k, p :: InHeld(s', k, p) <==> InHeld(s, k, p);
  }

  lemma CrashInv(s: State, published: set<KafkaPosition>)
    requires Inv(s, published)
    ensures Inv(Next(s, Crash), published)
  {
    var s' := Next(s, Crash);
    forall p
      ensures Settled(s', p) == Settled(s, p)
    {
    }
    hide Settled, IsIn, InLimbo;
    assert forall p :: !Tracks(s'.tracked, p);
  }

  lemma ReleaseInv(s: State, released: Keyed, published: set<KafkaPosition>)
    requires Inv(s, published) && released in s.limbo
    ensures Inv(Next(s, Release(released)), published)
  {
    var positions := released.bundle.positions;
    TracksAfterMarkAllOf(s.tracked, positions);
    var s' := Next(s, Release(released));
    forall p
      ensures Settled(s', p) == Settled(s, p)
    {
    }
    hide Settled, Tracks, Pending, MarkAllOf;
    assert LevelsFit(s', published);
    assert MarksFit(s');
    assert forall k, p :: InHeld(s', k, p) <==> InHeld(s, k, p);
    assert forall p :: p in positions ==> InLimbo(s.limbo, p);
    forall p
      ensures InLimbo(s'.limbo, p) ==> InLimbo(s.limbo, p) && p !in positions
    {
      if InLimbo(s'.limbo, p) {
        var x :| x in s'.limbo && p in x.bundle.positions;
        assert InKeyed(s.limbo, x, p);
        assert p in positions ==> InKeyed(s.limbo, released, p);
      }
    }
    assert forall x, p :: InKeyed(s'.limbo, x, p) ==> InKeyed(s.limbo, x, p);
    assert PlacesFit(s');
  }

  lemma LogsDoneInv(s: State, topic: string, published: set<KafkaPosition>)
    requires Inv(s, published) && topic != ALS_TOPIC
    ensures Inv(Next(s, LogsDone(topic)), published)
  {
    hide IsIn, InLimbo;
    TracksAfterMarkTopic(s.tracked, topic);
    var s' := Next(s, LogsDone(topic));
    forall p
      ensures Settled(s, p) ==> Settled(s', p)
      ensures Tracks(s.tracked, p) && p.tp.topic == topic ==> Settled(s', p)
    {
      assert Tracks(s.tracked, p) && p.tp.topic == topic ==>
        KafkaPosition(p.tp, p.offset) in TrackedIn(s.tracked, topic);
    }
    hide Settled, Tracks, Pending, MarkTopic;
    assert s'.limbo == s.limbo;
    assert LevelsFit(s', published);
    assert MarksFit(s');
    assert forall k, p :: InHeld(s', k, p) <==> InHeld(s, k, p);
    assert PlacesFit(s');
  }

  // A message just received is refused: recorded, and marked processed
  function Refused(s: State, position: KafkaPosition): State {
    s.(rejected := s.rejected + {position}, tracked := MarkPosition(s.tracked, position))
  }

  lemma RefusedInv(s: State, position: KafkaPosition, published: set<KafkaPosition>)
    requires Inv(s, published) && position !in s.ignored && !InLimbo(s.limbo, position) && forall k ::
      !InHeld(s, k, position)
    ensures Inv(Refused(s, position), published)
  {
    hide IsIn, InLimbo;
    TracksAfterMark(s.tracked, position);
    var s' := Refused(s, position);
    forall p
      ensures Settled(s, p) ==> Settled(s', p)
      ensures Settled(s', position)
    {
    }
    hide Settled, Tracks, Pending, MarkPosition;
    assert LevelsFit(s', published);
    assert MarksFit(s');
    assert forall k, p :: InHeld(s', k, p) <==> InHeld(s, k, p);
  }

  lemma PassedOverInv(s: State, position: KafkaPosition, published: set<KafkaPosition>)
    requires Inv(s, published) && Pending(s.tracked, position) && position.tp.topic == ALS_TOPIC
    requires (forall k :: !InHeld(s, k, position)) && !InLimbo(s.limbo, position)
    ensures Inv(s.(ignored := s.ignored + {position}), published)
  {
    var s' := s.(ignored := s.ignored + {position});
    forall p
      ensures Settled(s', p) == Settled(s, p)
    {
    }
    hide Settled, IsIn, InLimbo;
    assert forall k, p :: InHeld(s', k, p) <==> InHeld(s, k, p);
  }

  lemma AddedPositions(held: Held, key: string, m: AlsMessage, position: KafkaPosition, now: int)
    ensures var (held', outcome) := AddedTo(held, key, m, position, now);
      && held'.Keys == held.Keys + {key}
      && (forall k :: k in held && k != key ==> held'[k] == held[k])
      && held'[key].positions == (if key in held then held[key].positions else {}) +
           (if outcome == Accepted then {position} else {})
  {
  }

  lemma KeptInv(s: State, held': Held, published: set<KafkaPosition>)
    requires Inv(s, published)
    requires forall k, p :: k in held' && p in held'[k].positions ==> InHeld(s, k, p)
    ensures Inv(s.(held := held'), published)
  {
    var s' := s.(held := held');
    forall p
      ensures Settled(s', p) == Settled(s, p)
    {
    }
    hide Settled, IsIn, InLimbo;
    assert forall k, p :: InHeld(s', k, p) ==> InHeld(s, k, p);
  }

  lemma TakenInInv(s: State, held': Held, key: string, position: KafkaPosition, published: set<KafkaPosition>)
    requires Inv(s, published) && Pending(s.tracked, position) && position.tp.topic == ALS_TOPIC
    requires (forall k :: !InHeld(s, k, position)) && !InLimbo(s.limbo, position) && position !in s.ignored
    requires forall k, p :: k in held' && p in held'[k].positions ==> InHeld(s, k, p) || (k == key && p == position)
    ensures Inv(s.(held := held'), published)
  {
    var s' := s.(held := held');
    forall p
      ensures Settled(s', p) == Settled(s, p)
    {
    }
    hide Settled, IsIn, InLimbo, Pending;
    assert forall k, p :: InHeld(s', k, p) ==> InHeld(s, k, p) || (k == key && p == position);
  }

  lemma {:induction false} ReadAlsInv(s: State, position: KafkaPosition, key: string, message: Option<AlsMessage>,
                                      now: int,
                   published: set<KafkaPosition>)
    requires Inv(s, published) && Enabled(s, ReadAls(position, key, message, now), published)
    ensures Inv(Next(s, ReadAls(position, key, message, now)), published)
  {
    hide Inv, AddedTo;
    DeliveredInv(s, position, published);
    var s1 := Delivered(s, position);
    NotReleasable(s, position, published);
    assert forall k :: InHeld(s1, k, position) ==> InHeld(s, k, position);
    if message.None? {
      RefusedInv(s1, position, published);
      return;
    }
    AddedPositions(s1.held, key, message.value, position, now);
    var (held', outcome) := AddedTo(s1.held, key, message.value, position, now);
    match outcome
    case Accepted =>
      TakenInInv(s1, held', key, position, published);
    case Ignored =>
      KeptInv(s1, held', published);
      var s2 := s1.(held := held');
      assert forall k :: InHeld(s2, k, position) ==> InHeld(s1, k, position);
      PassedOverInv(s2, position, published);
    case Rejected =>
      KeptInv(s1, held', published);
      var s2 := s1.(held := held');
      assert forall k :: InHeld(s2, k, position) ==> InHeld(s1, k, position);
      RefusedInv(s2, position, published);
  }

  lemma NotReleasable(s: State, position: KafkaPosition, published: set<KafkaPosition>)
    requires Inv(s, published) && Deliverable(s, position, published)
    ensures !InLimbo(s.limbo, position)
  {
  }

  // Bundles are taken out of the collection after they are put in one of the records
  lemma TakeOutInv(s: State, keys: set<string>, recorded: State, published: set<KafkaPosition>)
    requires Inv(s, published)
    requires recorded == TakeOut(s, keys).(database := recorded.database, dropped := recorded.dropped,
      lost := recorded.lost)
    requires s.database <= recorded.database && s.dropped <= recorded.dropped && s.lost <= recorded.lost
    requires BundlesOf(s.held, keys) <= recorded.database + recorded.dropped + recorded.lost
    ensures Inv(recorded, published)
  {
    forall p
      ensures Settled(s, p) ==> Settled(recorded, p)
      ensures IsIn(BundlesOf(s.held, keys), p) ==> Settled(recorded, p)
    {
    }
    forall p
      ensures InLimbo(recorded.limbo, p) ==> InLimbo(s.limbo, p) || IsIn(BundlesOf(s.held, keys), p)
    {
      if InLimbo(recorded.limbo, p) {
        var x :| x in recorded.limbo && p in x.bundle.positions;
        assert x in s.limbo || x.bundle in BundlesOf(s.held, keys);
      }
    }
    assert forall k, p :: InHeld(recorded, k, p) <==> InHeld(s, k, p) && k !in keys;
    forall p | IsIn(BundlesOf(s.held, keys), p)
      ensures exists k :: k in keys && InHeld(s, k, p)
    {
      var b :| b in BundlesOf(s.held, keys) && p in b.positions;
      var k :| k in keys && k in s.held && s.held[k] == b;
      assert InHeld(s, k, p);
    }
    forall b, p | b in BundlesOf(s.held, keys) && p in b.positions
      ensures IsIn(BundlesOf(s.held, keys), p)
    {
    }
    TakenApart(s, keys, published);
    hide Settled, IsIn, InLimbo, BundlesOf, KeyedOf, InKeyed;
    assert MarksFit(recorded);
  }

  // The bundles taken out share no message with each other or with those taken out before
  lemma TakenApart(s: State, keys: set<string>, published: set<KafkaPosition>)
    requires Inv(s, published)
    ensures var limbo := TakeOut(s, keys).limbo;
      && (forall p :: InLimbo(limbo, p) ==> Pending(s.tracked, p) && p.tp.topic == ALS_TOPIC)
      && (forall x, y, p :: InKeyed(limbo, x, p) && InKeyed(limbo, y, p) ==> x == y)
      && (forall k, p :: InHeld(s, k, p) && k !in keys ==> !InLimbo(limbo, p))
      && (forall p :: p in s.ignored ==> !InLimbo(limbo, p))
  {
    var limbo := TakeOut(s, keys).limbo;
    forall x, p | InKeyed(limbo, x, p)
      ensures InKeyed(s.limbo, x, p) || (InHeld(s, x.key, p) && x.key in keys && x == Keyed(x.key, s.held[x.key]))
      ensures InLimbo(limbo, p)
    {
    }
    forall p | InLimbo(limbo, p)
      ensures exists x :: InKeyed(limbo, x, p)
    {
      var x :| x in limbo && p in x.bundle.positions;
      assert InKeyed(limbo, x, p);
    }
    forall x, p | InKeyed(s.limbo, x, p)
      ensures InLimbo(s.limbo, p)
    {
    }
    hide LevelsFit, MarksFit, Pending, InKeyed, InLimbo, KeyedOf;
  }

  ghost predicate AllSettledBelow(s: State, levels: map<TopicPartition, int>, published: set<KafkaPosition>) {
    forall p :: p in published && p.offset < OffsetAt(levels, p.tp) ==> Settled(s, p)
  }

  lemma LibraryCommitInv(s: State, published: set<KafkaPosition>)
    requires Inv(s, published) && AllSettledBelow(s, s.next, published)
    ensures Inv(Next(s, LibraryCommit), published)
  {
    var s' := Next(s, LibraryCommit);
    forall p
      ensures Settled(s', p) == Settled(s, p)
    {
    }
    hide Settled, IsIn, InLimbo, Tracks, Pending;
    forall tp
      ensures OffsetAt(s'.committed, tp) <= OffsetAt(s'.next, tp)
    {
    }
    assert forall k, p :: InHeld(s', k, p) <==> InHeld(s, k, p);
  }

  // A commit that the client makes on its own leaves nothing unsettled behind exactly if all that
  // was handed over before is settled
  lemma LibraryCommitIsSafe(s: State, published: set<KafkaPosition>)
    requires Inv(s, published) && forall p :: p in published ==> 0 <= p.offset
    ensures var s' := Next(s, LibraryCommit);
      AllSettledBelow(s', s'.committed, published) <==> AllSettledBelow(s, s.next, published)
  {
    var s' := Next(s, LibraryCommit);
    forall p
      ensures Settled(s', p) == Settled(s, p)
    {
    }
    hide Settled, MarksFit, PlacesFit;
  }

  // The siphon's own commits only move levels up, and never past a message that is tracked
  lemma NextRises(s: State, e: Event, published: set<KafkaPosition>)
    requires Inv(s, published) && LevelsRise(s) && Enabled(s, e, published) && e != LibraryCommit
    ensures LevelsRise(Next(s, e))
  {
    hide AddedTo, Settled, MarksFit, PlacesFit, Storable, BundlesOf, KeyedOf;
    match e
    case ReadAls(position, _, _, _) =>
      TracksAfterAdd(s.tracked, position);
      TracksAfterMark(AddPosition(s.tracked, position), position);
      hide AddPosition, MarkPosition, Tracks, Pending;
    case ReadLog(position) => TracksAfterAdd(s.tracked, position);
    case LogsDone(topic) => TracksAfterMarkTopic(s.tracked, topic);
    case Release(released) => TracksAfterMarkAllOf(s.tracked, released.bundle.positions);
    case Commit(levels) =>
      TracksAfterLevels(s.tracked, levels);
      hide Tracks, Pending, AfterLevels, AreLevels;
    case _ =>
  }

  // ---- What holds up the commits ----

  ghost predicate HoldsUp(s: State, p: KafkaPosition) {
    p in s.ignored || InLimbo(s.limbo, p) || exists k :: InHeld(s, k, p)
  }

  // A message that is not processed yet is in a bundle, or in one that is not released yet, or is a
  // repeated message that was passed over
  ghost predicate Explained(s: State) {
    forall p :: Pending(s.tracked, p) && p.tp.topic == ALS_TOPIC ==> HoldsUp(s, p)
  }

  lemma ReadExplained(s: State, position: KafkaPosition, key: string, message: Option<AlsMessage>, now: int)
    requires Explained(s)
    ensures Explained(Next(s, ReadAls(position, key, message, now)))
  {
    var s' := Next(s, ReadAls(position, key, message, now));
    var added := AddPosition(s.tracked, position);
    TracksAfterAdd(s.tracked, position);
    TracksAfterMark(added, position);
    if message.Some? {
      AddedPositions(s.held, key, message.value, position, now);
    }
    hide AddPosition, MarkPosition, Tracks, AddedTo, InLimbo;
    forall p | Pending(s'.tracked, p) && p.tp.topic == ALS_TOPIC
      ensures HoldsUp(s', p)
    {
      if p == position {
        assert p in s'.ignored || InHeld(s', key, p);
      } else {
        assert Pending(added, p) ==> Pending(s.tracked, p);
        assert HoldsUp(s, p);
        if k :| InHeld(s, k, p) {
          assert InHeld(s', k, p);
        }
      }
    }
  }

  lemma TakeOutExplained(s: State, keys: set<string>)
    requires Explained(s)
    ensures Explained(TakeOut(s, keys))
  {
    var s' := TakeOut(s, keys);
    forall p | Pending(s'.tracked, p) && p.tp.topic == ALS_TOPIC
      ensures HoldsUp(s', p)
    {
      assert HoldsUp(s, p);
      if k :| InHeld(s, k, p) {
        if k in keys {
          assert Keyed(k, s.held[k]) in s'.limbo;
        } else {
          assert InHeld(s', k, p);
        }
      }
    }
  }

  lemma ReleaseExplained(s: State, released: Keyed)
    requires Explained(s) && released in s.limbo
    ensures Explained(Next(s, Release(released)))
  {
    var s' := Next(s, Release(released));
    TracksAfterMarkAllOf(s.tracked, released.bundle.positions);
    hide MarkAllOf, Tracks;
    forall p | Pending(s'.tracked, p) && p.tp.topic == ALS_TOPIC
      ensures HoldsUp(s', p)
    {
      assert HoldsUp(s, p);
      if InLimbo(s.limbo, p) {
        var x :| x in s.limbo && p in x.bundle.positions;
        assert x in s'.limbo;
      } else if k :| InHeld(s, k, p) {
        assert InHeld(s', k, p);
      }
    }
  }

  lemma SameExplained(s: State, s': State)
    requires Explained(s) && s'.held == s.held && s'.limbo == s.limbo && s'.ignored == s.ignored
    requires forall p :: Pending(s'.tracked, p) && p.tp.topic == ALS_TOPIC ==> Pending(s.tracked, p)
    ensures Explained(s')
  {
    forall p | Pending(s'.tracked, p) && p.tp.topic == ALS_TOPIC
      ensures HoldsUp(s', p)
    {
      assert HoldsUp(s, p);
      if k :| InHeld(s, k, p) {
        assert InHeld(s', k, p);
      }
    }
  }

  lemma NextExplained(s: State, e: Event, published: set<KafkaPosition>)
    requires Explained(s) && Enabled(s, e, published)
    ensures Explained(Next(s, e))
  {
    hide Explained, Storable, AddedTo, Pending;
    match e
    case ReadAls(position, key, message, now) => ReadExplained(s, position, key, message, now);
    case ReadLog(position) =>
      TracksAfterAdd(s.tracked, position);
      NotAddedPending(s.tracked, position);
      SameExplained(s, Next(s, e));
    case LogsDone(topic) =>
      TracksAfterMarkTopic(s.tracked, topic);
      SameExplained(s, Next(s, e));
    case WriteDone(keys) =>
      TakeOutExplained(s, keys);
      SameExplained(TakeOut(s, keys), Next(s, e));
    case WriteFailed(keys) =>
      TakeOutExplained(s, keys);
      SameExplained(TakeOut(s, keys), Next(s, e));
    case TimeOut(key, _) =>
      TakeOutExplained(s, {key});
      SameExplained(TakeOut(s, {key}), Next(s, e));
    case Release(released) => ReleaseExplained(s, released);
    case Commit(levels) =>
      TracksAfterLevels(s.tracked, levels);
      SameExplained(s, Next(s, e));
    case Crash => NothingPending(Next(s, e));
    case LibraryCommit => SameExplained(s, Next(s, e));
  }

  lemma NotAddedPending(p: Positions, added: KafkaPosition)
    ensures forall x :: x != added && Pending(AddPosition(p, added), x) ==> Pending(p, x)
  {
  }

  lemma NothingPending(s: State)
    requires s.tracked == map[]
    ensures Explained(s)
  {
  }

  // There is no other reason for which an offset cannot be committed
  lemma HeldUpExactlyBy(s: State, published: set<KafkaPosition>, tp: TopicPartition, l: int)
    requires Inv(s, published) && Explained(s) && tp.topic == ALS_TOPIC && Tracks(s.tracked, KafkaPosition(tp, l))
    ensures Committable(s.tracked[tp], l) <==> forall p: KafkaPosition :: p.tp == tp && p.offset <= l ==> !HoldsUp(s, p)
  {
    hide LevelsFit, MarksFit;
    forall p: KafkaPosition | p.tp == tp
      ensures Pending(s.tracked, p) <==> HoldsUp(s, p)
    {
    }
    hide HoldsUp, PlacesFit, Explained;
    if Committable(s.tracked[tp], l) {
      assert forall p: KafkaPosition :: p.tp == tp && p.offset <= l ==> !Pending(s.tracked, p);
    } else {
      var k :| k in s.tracked[tp] && k <= l && !s.tracked[tp][k];
      assert Pending(s.tracked, KafkaPosition(tp, k));
    }
  }

  lemma NextInv(s: State, e: Event, published: set<KafkaPosition>)
    requires Inv(s, published) && Enabled(s, e, published)
    requires e == LibraryCommit ==> AllSettledBelow(s, s.next, published)
    ensures Inv(Next(s, e), published)
  {
    hide Inv, Settled, AllSettledBelow;
    match e
    case ReadAls(position, key, message, now) => ReadAlsInv(s, position, key, message, now, published);
    case ReadLog(position) => DeliveredInv(s, position, published);
    case LogsDone(topic) => LogsDoneInv(s, topic, published);
    case WriteDone(keys) => TakeOutInv(s, keys, Next(s, e), published);
    case WriteFailed(keys) => TakeOutInv(s, keys, Next(s, e), published);
    case TimeOut(key, boundary) => TakeOutInv(s, {key}, Next(s, e), published);
    case Release(released) => ReleaseInv(s, released, published);
    case Commit(levels) => CommitInv(s, levels, published);
    case Crash => CrashInv(s, published);
    case LibraryCommit => LibraryCommitInv(s, published);
  }
}
