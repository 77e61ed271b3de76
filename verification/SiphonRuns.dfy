/** Runs of the commit protocol, with any crashes and restarts in them, and what holds in all of
    them (class Siphon of als/als_siphon.py). */
module SiphonRuns {
  import opened Wrappers
  import opened KafkaOffsets
  import opened AlsBundle
  import opened BundleObject
  import opened IncompleteBundles
  import opened SiphonProtocol

  function Run(s: State, trace: seq<Event>): State {
    if trace == [] then s else Next(Run(s, trace[..|trace| - 1]), trace[|trace| - 1])
  }

  ghost predicate Legal(s: State, trace: seq<Event>, published: set<KafkaPosition>) {
    forall i :: 0 <= i < |trace| ==> Enabled(Run(s, trace[..i]), trace[i], published)
  }

  // The commits of a run are the siphon's own
  ghost predicate OwnCommits(trace: seq<Event>) {
    LibraryCommit !in trace
  }

  // Commits that the client makes on its own find everything settled that was handed over
  ghost predicate LibraryCommitsWait(s: State, trace: seq<Event>, published: set<KafkaPosition>) {
    forall i :: 0 <= i < |trace| && trace[i] == LibraryCommit ==>
      AllSettledBelow(Run(s, trace[..i]), Run(s, trace[..i]).next, published)
  }

  lemma NothingRun(s: State, published: set<KafkaPosition>)
    ensures Run(s, []) == s && Legal(s, [], published)
  {
  }

  lemma RunUpToLast(s: State, trace: seq<Event>, published: set<KafkaPosition>)
    requires trace != []
    ensures var n := |trace| - 1;
      && Run(s, trace) == Next(Run(s, trace[..n]), trace[n])
      && (Legal(s, trace, published) ==> Enabled(Run(s, trace[..n]), trace[n], published))
  {
  }

  lemma LegalUpTo(s: State, trace: seq<Event>, published: set<KafkaPosition>, k: nat)
    requires Legal(s, trace, published) && k <= |trace|
    ensures Legal(s, trace[..k], published)
    ensures OwnCommits(trace) ==> OwnCommits(trace[..k])
    ensures LibraryCommitsWait(s, trace, published) ==> LibraryCommitsWait(s, trace[..k], published)
  {
    hide Next, Enabled;
    assert forall i :: 0 <= i < k ==> trace[..k][i] == trace[i] && trace[..k][..i] == trace[..i];
  }

  lemma {:induction false} RunInv(s: State, trace: seq<Event>, published: set<KafkaPosition>)
    requires Inv(s, published) && Legal(s, trace, published) && LibraryCommitsWait(s, trace, published)
    ensures Inv(Run(s, trace), published)
  {
    hide Inv, Enabled, Next, AllSettledBelow;
    if trace != [] {
      var n := |trace| - 1;
      LegalUpTo(s, trace, published, n);
      RunInv(s, trace[..n], published);
      NextInv(Run(s, trace[..n]), trace[n], published);
    }
  }

  lemma OwnCommitsWait(s: State, trace: seq<Event>, published: set<KafkaPosition>)
    requires OwnCommits(trace)
    ensures LibraryCommitsWait(s, trace, published)
  {
    assert forall i :: 0 <= i < |trace| ==> trace[i] in trace;
  }

  lemma {:induction false} RunRises(s: State, trace: seq<Event>, published: set<KafkaPosition>)
    requires Inv(s, published) && LevelsRise(s) && Legal(s, trace, published) && OwnCommits(trace)
    ensures LevelsRise(Run(s, trace))
  {
    hide Inv, LevelsRise, Enabled, Next, AllSettledBelow;
    if trace != [] {
      var n := |trace| - 1;
      LegalUpTo(s, trace, published, n);
      OwnCommitsWait(s, trace[..n], published);
      RunInv(s, trace[..n], published);
      RunRises(s, trace[..n], published);
      assert trace[n] in trace;
      NextRises(Run(s, trace[..n]), trace[n], published);
    }
  }

  lemma {:induction false} RunExplained(s: State, trace: seq<Event>, published: set<KafkaPosition>)
    requires Explained(s) && Legal(s, trace, published)
    ensures Explained(Run(s, trace))
  {
    hide Explained, Enabled, Next;
    if trace != [] {
      var n := |trace| - 1;
      LegalUpTo(s, trace, published, n);
      RunExplained(s, trace[..n], published);
      NextExplained(Run(s, trace[..n]), trace[n], published);
    }
  }

  lemma StartHolds(published: set<KafkaPosition>)
    requires forall p :: p in published ==> 0 <= p.offset
    ensures Inv(Start(), published) && LevelsRise(Start()) && Explained(Start())
  {
    StartInv(published);
  }

  // ---- At least once ----

  // Over every run, with any crashes and restarts in it: everything below a commit level is
  // settled, and no commit reaches a message that is held in memory.
  lemma AtLeastOnce(trace: seq<Event>, published: set<KafkaPosition>)
    requires forall p :: p in published ==> 0 <= p.offset
    requires Legal(Start(), trace, published) && OwnCommits(trace)
    ensures var s := Run(Start(), trace);
      && (forall p :: p in published && p.offset < OffsetAt(s.committed, p.tp) ==> Settled(s, p))
      && (forall k, p :: InHeld(s, k, p) ==> OffsetAt(s.committed, p.tp) <= p.offset)
  {
    StartHolds(published);
    OwnCommitsWait(Start(), trace, published);
    RunInv(Start(), trace, published);
    RunRises(Start(), trace, published);
    hide Settled, Legal, MarksFit, IsIn, InLimbo;
  }

  ghost predicate AlwaysSettled(s: State, trace: seq<Event>, published: set<KafkaPosition>) {
    forall i :: 0 <= i <= |trace| ==> AllSettledBelow(Run(s, trace[..i]), Run(s, trace[..i]).committed, published)
  }

  // With commits that the client makes on its own, this holds in all states of a run exactly if
  // each of them finds everything settled that was handed over before it.
  lemma AtLeastOnceExactly(trace: seq<Event>, published: set<KafkaPosition>)
    requires forall p :: p in published ==> 0 <= p.offset
    requires Legal(Start(), trace, published)
    ensures AlwaysSettled(Start(), trace, published) <==> LibraryCommitsWait(Start(), trace, published)
  {
    hide Legal, Next, Inv, AllSettledBelow;
    if LibraryCommitsWait(Start(), trace, published) {
      forall i | 0 <= i <= |trace|
        ensures AllSettledBelow(Run(Start(), trace[..i]), Run(Start(), trace[..i]).committed, published)
      {
        LegalUpTo(Start(), trace, published, i);
        StartHolds(published);
        RunInv(Start(), trace[..i], published);
        InvSettles(Run(Start(), trace[..i]), published);
      }
    }
    if AlwaysSettled(Start(), trace, published) {
      forall i | 0 <= i < |trace| && trace[i] == LibraryCommit
        ensures AllSettledBelow(Run(Start(), trace[..i]), Run(Start(), trace[..i]).next, published)
      {
        assert trace[..i + 1][..i] == trace[..i] && trace[..i + 1][i] == trace[i];
        LibraryCommitSettles(Run(Start(), trace[..i]), published);
      }
    }
  }

  lemma InvSettles(s: State, published: set<KafkaPosition>)
    requires Inv(s, published)
    ensures AllSettledBelow(s, s.committed, published)
  {
    hide Settled;
  }

  lemma LibraryCommitSettles(s: State, published: set<KafkaPosition>)
    requires forall p :: p in published ==> 0 <= p.offset
    requires var s' := Next(s, LibraryCommit); AllSettledBelow(s', s'.committed, published)
    ensures AllSettledBelow(s, s.next, published)
  {
    forall p
      ensures Settled(Next(s, LibraryCommit), p) == Settled(s, p)
    {
    }
    hide Settled;
  }

  predicate Reads(e: Event, p: KafkaPosition) {
    (e.ReadAls? || e.ReadLog?) && e.position == p
  }

  lemma MovedPast(s: State, e: Event, published: set<KafkaPosition>, p: KafkaPosition)
    requires Enabled(s, e, published) && e != Crash && p in published
    requires OffsetAt(s.next, p.tp) <= p.offset < OffsetAt(Next(s, e).next, p.tp)
    ensures Reads(e, p)
  {
    hide AddedTo, AddPosition, MarkPosition, MarkTopic, MarkAllOf, AfterLevels;
  }

  // A message that the consumer has not come to is not passed over: if it is behind the consumer at
  // the end, it was handed over on the way.
  lemma {:induction false} NotSkipped(s: State, trace: seq<Event>, published: set<KafkaPosition>, p: KafkaPosition)
    requires Legal(s, trace, published) && Crash !in trace && p in published
    requires OffsetAt(s.next, p.tp) <= p.offset < OffsetAt(Run(s, trace).next, p.tp)
    ensures exists i :: 0 <= i < |trace| && Reads(trace[i], p)
  {
    hide Next, Enabled;
    if trace != [] {
      var n := |trace| - 1;
      LegalUpTo(s, trace, published, n);
      assert trace[n] in trace && forall i :: 0 <= i < n ==> trace[..n][i] == trace[i];
      var before := Run(s, trace[..n]);
      if p.offset < OffsetAt(before.next, p.tp) {
        NotSkipped(s, trace[..n], published, p);
      } else {
        MovedPast(before, trace[n], published, p);
      }
    }
  }

  // After a crash everything is handed over again that is not settled: no later run gets past it
  // without reading it.
  lemma ReadAgainAfterCrash(trace: seq<Event>, later: seq<Event>, published: set<KafkaPosition>, p: KafkaPosition)
    requires forall p :: p in published ==> 0 <= p.offset
    requires Legal(Start(), trace, published) && OwnCommits(trace)
    requires var again := Next(Run(Start(), trace), Crash);
      && Legal(again, later, published) && Crash !in later
      && p.offset < OffsetAt(Run(again, later).next, p.tp)
    requires p in published && !Settled(Run(Start(), trace), p)
    ensures exists i :: 0 <= i < |later| && Reads(later[i], p)
  {
    hide Settled, Legal, Run;
    AtLeastOnce(trace, published);
    var s := Run(Start(), trace);
    assert Next(s, Crash).next == s.committed;
    hide Next;
    NotSkipped(Next(s, Crash), later, published, p);
  }

  // ---- Batches that are rolled back ----

  predicate Loses(e: Event) {
    e.WriteFailed? && e.keys != {}
  }

  ghost predicate SomeLoses(trace: seq<Event>) {
    exists i :: 0 <= i < |trace| && Loses(trace[i])
  }

  lemma LostByOne(s: State, e: Event, published: set<KafkaPosition>)
    requires Enabled(s, e, published)
    ensures s.lost <= Next(s, e).lost && (Next(s, e).lost == s.lost || Loses(e)) && (Loses(e) ==> Next(s, e).lost != {})
  {
    if Loses(e) {
      var k :| k in e.keys;
      assert s.held[k] in Next(s, e).lost;
    }
    hide AddedTo, AddPosition, MarkPosition, MarkTopic, MarkAllOf, AfterLevels;
    assert e.WriteFailed? && e.keys == {} ==> BundlesOf(s.held, {}) == {};
  }

  lemma NoneLoses()
    ensures !SomeLoses([])
  {
  }

  lemma LosesUpToLast(trace: seq<Event>)
    requires trace != []
    ensures var n := |trace| - 1; SomeLoses(trace) <==> SomeLoses(trace[..n]) || Loses(trace[n])
  {
    hide Loses;
    var n := |trace| - 1;
    assert forall i :: 0 <= i < n ==> trace[..n][i] == trace[i];
    if SomeLoses(trace[..n]) {
      var i :| 0 <= i < n && Loses(trace[..n][i]);
      assert Loses(trace[i]);
    }
  }

  // Nothing is lost exactly if no batch is rolled back
  lemma {:induction false} NothingLost(s: State, trace: seq<Event>, published: set<KafkaPosition>)
    requires Legal(s, trace, published)
    ensures s.lost <= Run(s, trace).lost
    ensures s.lost == {} ==> (Run(s, trace).lost == {} <==> !SomeLoses(trace))
  {
    hide Next, Enabled, Legal, Run, SomeLoses, Loses;
    if trace == [] {
      NothingRun(s, published);
      NoneLoses();
    } else {
      var n := |trace| - 1;
      LegalUpTo(s, trace, published, n);
      RunUpToLast(s, trace, published);
      NothingLost(s, trace[..n], published);
      LosesUpToLast(trace);
      LostByOne(Run(s, trace[..n]), trace[n], published);
    }
  }

  // Then everything below a commit level is stored, or has a record of why it is not
  lemma AllKept(trace: seq<Event>, published: set<KafkaPosition>, p: KafkaPosition)
    requires forall p :: p in published ==> 0 <= p.offset
    requires Legal(Start(), trace, published) && LibraryCommitsWait(Start(), trace, published)
    requires !SomeLoses(trace)
    requires p in published && p.offset < OffsetAt(Run(Start(), trace).committed, p.tp)
    ensures Kept(Run(Start(), trace), p)
  {
    StartHolds(published);
    RunInv(Start(), trace, published);
    NothingLost(Start(), trace, published);
    hide Legal, Kept;
  }

  // ---- Successive commits ----

  // Levels only go up
  lemma CommitGoesUp(s: State, e: Event, published: set<KafkaPosition>, tp: TopicPartition)
    requires Inv(s, published) && LevelsRise(s) && Enabled(s, e, published) && e != LibraryCommit
    ensures OffsetAt(s.committed, tp) <= OffsetAt(Next(s, e).committed, tp)
    ensures e.Commit? && tp in e.levels ==>
      OffsetAt(s.committed, tp) < OffsetAt(Next(s, e).committed, tp) == e.levels[tp] + 1
  {
    hide AddedTo;
    if e.Commit? && tp in e.levels {
      CommitRaises(s, e.levels, published, tp);
    }
  }

  lemma {:induction false} CommittedStays(s: State, trace: seq<Event>, published: set<KafkaPosition>,
                                          tp: TopicPartition, i: nat, k: nat)
    requires Inv(s, published) && LevelsRise(s) && Legal(s, trace, published) && OwnCommits(trace) && i <= k <= |trace|
    ensures OffsetAt(Run(s, trace[..i]).committed, tp) <= OffsetAt(Run(s, trace[..k]).committed, tp)
  {
    hide Inv, LevelsRise, Next, Enabled, Legal;
    if i < k {
      CommittedStays(s, trace, published, tp, i, k - 1);
      OneOfRun(s, trace, published, k - 1);
      CommitGoesUp(Run(s, trace[..k - 1]), trace[k - 1], published, tp);
    }
  }

  // A step within a run
  lemma OneOfRun(s: State, trace: seq<Event>, published: set<KafkaPosition>, i: nat)
    requires Inv(s, published) && LevelsRise(s) && Legal(s, trace, published) && OwnCommits(trace) && i < |trace|
    ensures Inv(Run(s, trace[..i]), published) && LevelsRise(Run(s, trace[..i]))
    ensures Enabled(Run(s, trace[..i]), trace[i], published) && trace[i] != LibraryCommit
    ensures Run(s, trace[..i + 1]) == Next(Run(s, trace[..i]), trace[i])
  {
    hide Inv, LevelsRise, Next, Enabled;
    assert trace[i] in trace;
    LegalUpTo(s, trace, published, i);
    OwnCommitsWait(s, trace[..i], published);
    RunInv(s, trace[..i], published);
    RunRises(s, trace[..i], published);
    assert trace[..i + 1][..i] == trace[..i];
  }

  // Over a whole run the levels that are committed for a partition strictly increase, also across
  // crashes and across the deletion of emptied partitions
  lemma CommitsIncrease(trace: seq<Event>, published: set<KafkaPosition>, tp: TopicPartition, i: nat, j: nat)
    requires forall p :: p in published ==> 0 <= p.offset
    requires Legal(Start(), trace, published) && OwnCommits(trace) && i < j < |trace|
    requires trace[i].Commit? && trace[j].Commit? && tp in trace[i].levels && tp in trace[j].levels
    ensures trace[i].levels[tp] < trace[j].levels[tp]
  {
    hide Inv, LevelsRise, Next, Enabled, Legal, OwnCommits;
    StartHolds(published);
    OneOfRun(Start(), trace, published, i);
    OneOfRun(Start(), trace, published, j);
    CommitGoesUp(Run(Start(), trace[..i]), trace[i], published, tp);
    CommitGoesUp(Run(Start(), trace[..j]), trace[j], published, tp);
    CommittedStays(Start(), trace, published, tp, i + 1, j);
  }

  // ---- What holds up the commits ----

  // A commit passes a tracked message exactly if no message at or below it is in a bundle, or
  // passed over as a repeated one
  lemma CommitPasses(trace: seq<Event>, published: set<KafkaPosition>, levels: map<TopicPartition, int>,
                     p: KafkaPosition)
    requires forall p :: p in published ==> 0 <= p.offset
    requires Legal(Start(), trace, published) && OwnCommits(trace)
    requires var s := Run(Start(), trace);
      AreLevels(s.tracked, levels) && Tracks(s.tracked, p) && p.tp.topic == ALS_TOPIC
    ensures var s := Run(Start(), trace);
      p.offset < OffsetAt(Next(s, Commit(levels)).committed, p.tp) <==>
        forall q: KafkaPosition :: q.tp == p.tp && q.offset <= p.offset ==> !HoldsUp(s, q)
  {
    var s := Run(Start(), trace);
    hide *;
    StartHolds(published);
    OwnCommitsWait(Start(), trace, published);
    RunInv(Start(), trace, published);
    RunRises(Start(), trace, published);
    RunExplained(Start(), trace, published);
    PassesExactly(s, published, levels, p);
  }

  lemma PassesExactly(s: State, published: set<KafkaPosition>, levels: map<TopicPartition, int>, p: KafkaPosition)
    requires Inv(s, published) && LevelsRise(s) && Explained(s) && AreLevels(s.tracked, levels)
    requires Tracks(s.tracked, p) && p.tp.topic == ALS_TOPIC
    ensures p.offset < OffsetAt(Next(s, Commit(levels)).committed, p.tp) <==>
      forall q: KafkaPosition :: q.tp == p.tp && q.offset <= p.offset ==> !HoldsUp(s, q)
  {
    hide Inv, Explained, HoldsUp, LevelsRise, Next, Committable, AreLevels;
    CommittedAfter(s, levels, p);
    HeldUpExactlyBy(s, published, p.tp, p.offset);
  }

  lemma CommittedAfter(s: State, levels: map<TopicPartition, int>, p: KafkaPosition)
    requires AreLevels(s.tracked, levels) && LevelsRise(s) && Tracks(s.tracked, p)
    ensures p.offset < OffsetAt(Next(s, Commit(levels)).committed, p.tp) <==> Committable(s.tracked[p.tp], p.offset)
  {
    LevelAtLeast(s.tracked[p.tp], Find(levels, p.tp), p.offset);
    hide AfterLevels;
  }

  lemma LevelAtLeast(v: Offsets, level: Option<int>, l: int)
    requires IsLevel(v, level) && l in v
    ensures level.Some? && l <= level.value <==> Committable(v, l)
  {
  }

  lemma OnlyCrashForgets(s: State, e: Event)
    requires e != Crash
    ensures s.ignored <= Next(s, e).ignored
  {
    hide AddedTo, AddPosition, MarkPosition, MarkTopic, MarkAllOf, AfterLevels;
  }

  lemma {:induction false} StaysIgnored(s: State, trace: seq<Event>, p: KafkaPosition)
    requires p in s.ignored && Crash !in trace
    ensures p in Run(s, trace).ignored
  {
    hide Next;
    if trace != [] {
      StaysIgnored(s, trace[..|trace| - 1], p);
      assert trace[|trace| - 1] in trace;
      OnlyCrashForgets(Run(s, trace[..|trace| - 1]), trace[|trace| - 1]);
    }
  }

  // A repeated message that comes while its bundle is in memory is never marked processed:
  // until the next restart no commit passes it, whatever else is read and written.
  lemma {:induction false} RepeatedMessageBlocksCommits(s: State, trace: seq<Event>, published: set<KafkaPosition>,
                                                        p: KafkaPosition)
    requires Inv(s, published) && LevelsRise(s) && Legal(s, trace, published) && OwnCommits(trace)
    requires p in s.ignored && Crash !in trace
    ensures OffsetAt(Run(s, trace).committed, p.tp) <= p.offset
  {
    OwnCommitsWait(s, trace, published);
    RunInv(s, trace, published);
    RunRises(s, trace, published);
    StaysIgnored(s, trace, p);
    hide Legal, Settled;
  }

  // ---- What is stored ----

  predicate ReadUnder(trace: seq<Event>, key: string, a: Arrival) {
    ReadAls(a.position, key, Some(a.message), a.now) in trace
  }

  // The bundle is what a sequence of messages makes that were all read under this key
  ghost predicate MadeOf(b: Bundle, key: string, trace: seq<Event>, now: int, feed: seq<Arrival>) {
    b == Fed(EmptyBundle(now), feed) && forall a :: a in feed ==> ReadUnder(trace, key, a)
  }

  ghost predicate Made(b: Bundle, key: string, trace: seq<Event>) {
    exists now, feed :: MadeOf(b, key, trace, now, feed)
  }

  ghost predicate AllMade(s: State, trace: seq<Event>) {
    && (forall k :: k in s.held ==> Made(s.held[k], k, trace))
    && (forall b :: b in s.database ==> Storable(b) && exists k :: Made(b, k, trace))
  }

  lemma MadeStays(b: Bundle, key: string, trace: seq<Event>, e: Event)
    requires Made(b, key, trace)
    ensures Made(b, key, trace + [e])
  {
    var now, feed :| MadeOf(b, key, trace, now, feed);
    assert MadeOf(b, key, trace + [e], now, feed);
  }

  lemma MadeByOneMore(held: Held, trace: seq<Event>, position: KafkaPosition, key: string, m: AlsMessage, now: int)
    requires key in held ==> Made(held[key], key, trace)
    ensures Made(AddedTo(held, key, m, position, now).0[key], key, trace + [ReadAls(position, key, Some(m), now)])
  {
    var e := ReadAls(position, key, Some(m), now);
    var a := Arrival(m, position, now);
    var before := if key in held then held[key] else EmptyBundle(now);
    var born: int, feed: seq<Arrival> := now, [];
    if key in held {
      born, feed :| MadeOf(held[key], key, trace, born, feed);
    }
    assert (feed + [a])[..|feed|] == feed;
    assert Fed(EmptyBundle(born), feed + [a]) == Step(before, a).0;
    forall x | x in feed + [a]
      ensures ReadUnder(trace + [e], key, x)
    {
      assert x in feed ==> ReadUnder(trace, key, x);
    }
    assert MadeOf(Step(before, a).0, key, trace + [e], born, feed + [a]);
  }

  lemma AllMadeStays(s: State, trace: seq<Event>, e: Event)
    requires AllMade(s, trace)
    ensures AllMade(s, trace + [e])
  {
    forall k | k in s.held
      ensures Made(s.held[k], k, trace + [e])
    {
      MadeStays(s.held[k], k, trace, e);
    }
    forall b | b in s.database
      ensures exists k :: Made(b, k, trace + [e])
    {
      var k :| Made(b, k, trace);
      MadeStays(b, k, trace, e);
    }
  }

  lemma ReadAllMade(s: State, trace: seq<Event>, position: KafkaPosition, key: string, m: AlsMessage, now: int)
    requires AllMade(s, trace)
    ensures AllMade(Next(s, ReadAls(position, key, Some(m), now)), trace + [ReadAls(position, key, Some(m), now)])
  {
    hide Storable, Made, AddedTo, AddPosition, MarkPosition;
    var e := ReadAls(position, key, Some(m), now);
    AllMadeStays(s, trace, e);
    MadeByOneMore(s.held, trace, position, key, m, now);
    AddedPositions(s.held, key, m, position, now);
    assert Next(s, e).held == AddedTo(s.held, key, m, position, now).0;
  }

  lemma WriteAllMade(s: State, trace: seq<Event>, keys: set<string>)
    requires AllMade(s, trace) && forall k :: k in keys ==> k in s.held && Storable(s.held[k])
    ensures AllMade(Next(s, WriteDone(keys)), trace + [WriteDone(keys)])
  {
    hide Storable, Made;
    var e := WriteDone(keys);
    AllMadeStays(s, trace, e);
    forall b | b in BundlesOf(s.held, keys)
      ensures Storable(b) && exists k :: Made(b, k, trace + [e])
    {
      var k :| k in keys && k in s.held && s.held[k] == b;
      assert Made(s.held[k], k, trace + [e]);
    }
  }

  lemma NextAllMade(s: State, trace: seq<Event>, e: Event, published: set<KafkaPosition>)
    requires AllMade(s, trace) && Enabled(s, e, published)
    ensures AllMade(Next(s, e), trace + [e])
  {
    match e
    case ReadAls(position, key, message, now) =>
      if message.Some? {
        ReadAllMade(s, trace, position, key, message.value, now);
      } else {
        AllMadeStays(s, trace, e);
      }
    case WriteDone(keys) =>
      WriteAllMade(s, trace, keys);
    case _ =>
      hide Storable, Made, AddedTo;
      AllMadeStays(s, trace, e);
  }

  // Nothing is stored that was not read: every bundle in the database comes apart, and is
  // what messages read under one key come to.
  lemma {:induction false} StoredWasRead(trace: seq<Event>, published: set<KafkaPosition>)
    requires Legal(Start(), trace, published)
    ensures AllMade(Run(Start(), trace), trace)
  {
    hide Enabled, Next;
    if trace == [] {
    } else {
      var before, last := trace[..|trace| - 1], trace[|trace| - 1];
      assert forall i :: 0 <= i < |before| ==> before[i] == trace[i] && before[..i] == trace[..i];
      StoredWasRead(before, published);
      hide AllMade;
      NextAllMade(Run(Start(), before), before, last, published);
      assert before + [last] == trace;
    }
  }

  // ---- Runs that lose messages ----

  lemma {:induction false} InTurnLegal(s: State, first: seq<Event>, second: seq<Event>, published: set<KafkaPosition>)
    requires Legal(s, first, published) && Legal(Run(s, first), second, published)
    ensures Legal(s, first + second, published) && Run(s, first + second) == Run(Run(s, first), second)
  {
    hide Next, Enabled, Legal, Run;
    if second == [] {
      NothingRun(Run(s, first), published);
      assert first + second == first;
    } else {
      var n := |second| - 1;
      LegalUpTo(Run(s, first), second, published, n);
      RunUpToLast(Run(s, first), second, published);
      InTurnLegal(s, first, second[..n], published);
      LegalStep(s, first + second[..n], second[n], published);
      assert first + second == first + second[..n] + [second[n]];
    }
  }

  lemma {:induction false} LegalStep(s: State, trace: seq<Event>, e: Event, published: set<KafkaPosition>)
    requires Legal(s, trace, published) && Enabled(Run(s, trace), e, published)
    ensures Legal(s, trace + [e], published) && Run(s, trace + [e]) == Next(Run(s, trace), e)
  {
    hide Next, Enabled;
    assert (trace + [e])[..|trace|] == trace;
    assert forall i :: 0 <= i < |trace| ==> (trace + [e])[..i] == trace[..i];
  }

  lemma FirstRead(p: KafkaPosition, m: AlsMessage)
    requires p == KafkaPosition(TopicPartition(ALS_TOPIC, 0), 0)
    requires m == AlsMessage("", 0, Request(Some(RequestDoc(Some([]), ""))))
    ensures var s := Next(Start(), ReadAls(p, "", Some(m), 0));
      && s.next == map[p.tp := 1] && s.committed == map[] && s.database == s.dropped == s.lost == {}
      && s.rejected == s.logged == {}
  {
    assert Updated(EmptyBundle(0), m, p, 0).1 == Accepted;
  }

  lemma CommittedUnsettled(s: State, p: KafkaPosition)
    requires p.offset == 0 && s.next == map[p.tp := 1] && s.database == s.dropped == s.lost == {}
    requires s.rejected == s.logged == {}
    ensures var s' := Next(Next(s, LibraryCommit), Crash);
      OffsetAt(s'.committed, p.tp) == 1 && !Settled(s', p)
  {
  }

  // The client is configured to also commit on its own what it has handed over. Such a commit
  // does not wait for the message to be settled.
  lemma {:induction false} LibraryCommitLoses()
    returns (trace: seq<Event>, published: set<KafkaPosition>, p: KafkaPosition)
    ensures Legal(Start(), trace, published) && p in published
    ensures p.offset < OffsetAt(Run(Start(), trace).committed, p.tp) && !Settled(Run(Start(), trace), p)
  {
    p := KafkaPosition(TopicPartition(ALS_TOPIC, 0), 0);
    published := {p};
    var m := AlsMessage("", 0, Request(Some(RequestDoc(Some([]), ""))));
    var read := ReadAls(p, "", Some(m), 0);
    FirstRead(p, m);
    CommittedUnsettled(Next(Start(), read), p);
    LegalStep(Start(), [], read, published);
    LegalStep(Start(), [] + [read], LibraryCommit, published);
    LegalStep(Start(), [] + [read] + [LibraryCommit], Crash, published);
    trace := [] + [read] + [LibraryCommit] + [Crash];
  }

  // ---- A batch with one bad bundle ----

  function PositionAt(i: int): KafkaPosition {
    KafkaPosition(TopicPartition(ALS_TOPIC, 0), i)
  }

  // After the first 'n' messages of the partition
  function NextAt(n: nat): map<TopicPartition, int> {
    if n == 0 then map[] else map[TopicPartition(ALS_TOPIC, 0) := n]
  }

  function NoneProcessed(n: nat): Offsets {
    if n == 0 then map[] else NoneProcessed(n - 1)[n - 1 := false]
  }

  lemma {:induction false} NoneProcessedHas(n: nat)
    ensures forall o :: o in NoneProcessed(n) <==> 0 <= o < n
    ensures forall o :: o in NoneProcessed(n) ==> !NoneProcessed(n)[o]
  {
    if n > 0 {
      NoneProcessedHas(n - 1);
    }
  }

  function TrackedAt(n: nat): Positions {
    if n == 0 then map[] else map[TopicPartition(ALS_TOPIC, 0) := NoneProcessed(n)]
  }

  function Published(n: nat): set<KafkaPosition> {
    set i | 0 <= i < n :: PositionAt(i)
  }

  lemma ReadNext(s: State, n: nat, total: nat, key: string, m: AlsMessage)
    requires s.next == NextAt(n) && s.tracked == TrackedAt(n) && n < total
    requires AddedTo(s.held, key, m, PositionAt(n), 0).1 == Accepted
    ensures var e := ReadAls(PositionAt(n), key, Some(m), 0);
      && Enabled(s, e, Published(total))
      && Next(s, e) == s.(next := NextAt(n + 1), tracked := TrackedAt(n + 1),
           held := AddedTo(s.held, key, m, PositionAt(n), 0).0)
  {
    hide AddedTo;
    assert PositionAt(n) in Published(total);
    NoneProcessedHas(n);
    hide TrackedAt, Published;
    AddNext(n);
  }

  lemma AddNext(n: nat)
    ensures AddPosition(TrackedAt(n), PositionAt(n)) == TrackedAt(n + 1)
  {
    NoneProcessedHas(n);
  }

  const REQUEST: AlsMessage := AlsMessage("", 0, Request(Some(RequestDoc(Some([]), ""))))
  const CONFIG: AlsMessage := AlsMessage("", 0, Config(AfcConfigInfo("", "", "", ""), {}))

  function ResponseWith(doc: ResponseDoc): AlsMessage {
    AlsMessage("", 0, Response(Some(Some(doc))))
  }

  // The bundle of a request without entries, that response and one config, read from 'n' on
  function ThreeRead(doc: ResponseDoc, n: nat): Bundle {
    Bundle("", 0, Some(RequestDoc(Some([]), "")), 0, Some(doc), 0, map[None := AfcConfigInfo("", "", "", "")], true,
           {PositionAt(n), PositionAt(n + 1), PositionAt(n + 2)})
  }

  lemma ReadThree(s: State, n: nat, total: nat, key: string, doc: ResponseDoc, trace: seq<Event>)
    returns (t: State, more: seq<Event>)
    requires n + 3 <= total && s.next == NextAt(n) && s.tracked == TrackedAt(n) && key !in s.held
    requires Legal(Start(), trace, Published(total)) && Run(Start(), trace) == s
    ensures t == s.(next := NextAt(n + 3), tracked := TrackedAt(n + 3), held := s.held[key := ThreeRead(doc, n)])
    ensures Legal(Start(), more, Published(total)) && Run(Start(), more) == t
      && (LibraryCommit !in trace ==> LibraryCommit !in more)
  {
    hide Legal, Run, Enabled, Next, Published, AddedTo, ThreeRead, TrackedAt, NextAt;
    var e0, e1, e2 := ReadAls(PositionAt(n), key, Some(REQUEST), 0),
      ReadAls(PositionAt(n + 1), key, Some(ResponseWith(doc)), 0),
      ReadAls(PositionAt(n + 2), key, Some(CONFIG), 0);
    ThreeAdded(s.held, n, key, doc);
    ReadNext(s, n, total, key, REQUEST);
    var s1 := Next(s, e0);
    ReadNext(s1, n + 1, total, key, ResponseWith(doc));
    var s2 := Next(s1, e1);
    ReadNext(s2, n + 2, total, key, CONFIG);
    t := Next(s2, e2);
    LegalStep(Start(), trace, e0, Published(total));
    LegalStep(Start(), trace + [e0], e1, Published(total));
    LegalStep(Start(), trace + [e0] + [e1], e2, Published(total));
    more := trace + [e0] + [e1] + [e2];
  }

  lemma ThreeAdded(held: Held, n: nat, key: string, doc: ResponseDoc)
    requires key !in held
    ensures var (held1, first) := AddedTo(held, key, REQUEST, PositionAt(n), 0);
      var (held2, second) := AddedTo(held1, key, ResponseWith(doc), PositionAt(n + 1), 0);
      var (held3, third) := AddedTo(held2, key, CONFIG, PositionAt(n + 2), 0);
      first == second == third == Accepted && held3 == held[key := ThreeRead(doc, n)]
  {
    FirstTwo(doc, n);
    LastOne(doc, n);
    hide Updated, ThreeRead, TwoRead;
  }

  function TwoRead(doc: ResponseDoc, n: nat): Bundle {
    ThreeRead(doc, n).(configs := map[], assembled := false, positions := {PositionAt(n), PositionAt(n + 1)})
  }

  lemma FirstTwo(doc: ResponseDoc, n: nat)
    ensures var (b, first) := Updated(EmptyBundle(0), REQUEST, PositionAt(n), 0);
      first == Accepted && Updated(b, ResponseWith(doc), PositionAt(n + 1), 0) == (TwoRead(doc, n), Accepted)
  {
    var b := Updated(EmptyBundle(0), REQUEST, PositionAt(n), 0).0;
    assert b == EmptyBundle(0).(request := Some(RequestDoc(Some([]), "")), positions := {PositionAt(n)});
    var c := PutIn(b, ResponseWith(doc));
    assert IndexesFit(c) && !Complete(c);
    assert {PositionAt(n)} + {PositionAt(n + 1)} == TwoRead(doc, n).positions;
  }

  lemma LastOne(doc: ResponseDoc, n: nat)
    ensures Updated(TwoRead(doc, n), CONFIG, PositionAt(n + 2), 0) == (ThreeRead(doc, n), Accepted)
  {
    var b := PutIn(TwoRead(doc, n), CONFIG);
    assert b.configs == map[None := AfcConfigInfo("", "", "", "")];
    assert None in b.configs && IndexesFit(b) && Complete(b);
    assert b.positions + {PositionAt(n + 2)} == ThreeRead(doc, n).positions;
  }

  const BAD: Keyed := Keyed("a", ThreeRead(ResponseDoc(None, ""), 0))
  const GOOD: Keyed := Keyed("b", ThreeRead(ResponseDoc(Some([]), ""), 3))

  // Six messages are read: a bundle with a response that has no list, and a good one
  function BothRead(): State {
    Start().(next := NextAt(6), tracked := TrackedAt(6), held := map["a" := BAD.bundle, "b" := GOOD.bundle])
  }

  function BothFailed(): State {
    Start().(next := NextAt(6), tracked := TrackedAt(6), limbo := {BAD, GOOD}, lost := {BAD.bundle, GOOD.bundle})
  }

  lemma FailBoth()
    ensures Enabled(BothRead(), WriteFailed({"a", "b"}), Published(6))
    ensures Next(BothRead(), WriteFailed({"a", "b"})) == BothFailed()
  {
    hide TrackedAt, NextAt;
    var held := BothRead().held;
    assert held["a"] == BAD.bundle && held["b"] == GOOD.bundle;
    hide ThreeRead;
    assert BundlesOf(held, {"a", "b"}) == {BAD.bundle, GOOD.bundle};
    assert KeyedOf(held, {"a", "b"}) == {BAD, GOOD};
    assert held - {"a", "b"} == map[];
  }

  lemma GoodIsStorable()
    ensures Storable(GOOD.bundle) && !Storable(BAD.bundle)
  {
    var b := GOOD.bundle;
    assert Covered(b) && b.response.value.responses == Some([]) && b.request.value.requests == Some([]);
    hide ThreeRead;
    assert Readable([], []);
  }

  function AllMarked(): Positions {
    map[TopicPartition(ALS_TOPIC, 0) := map[0 := true, 1 := true, 2 := true, 3 := true, 4 := true, 5 := true]]
  }

  lemma MarkBoth()
    ensures MarkAllOf(MarkAllOf(TrackedAt(6), BAD.bundle.positions), GOOD.bundle.positions) == AllMarked()
  {
    assert BAD.bundle.positions == {PositionAt(0), PositionAt(1), PositionAt(2)};
    assert GOOD.bundle.positions == {PositionAt(3), PositionAt(4), PositionAt(5)};
    hide ThreeRead, AllMarked, TrackedAt, MarkAllOf;
    MarkSix(BAD.bundle.positions, GOOD.bundle.positions);
  }

  lemma MarkSix(first: set<KafkaPosition>, second: set<KafkaPosition>)
    requires first == {PositionAt(0), PositionAt(1), PositionAt(2)}
    requires second == {PositionAt(3), PositionAt(4), PositionAt(5)}
    ensures MarkAllOf(MarkAllOf(TrackedAt(6), first), second) == AllMarked()
  {
    var tp := TopicPartition(ALS_TOPIC, 0);
    NoneProcessedHas(6);
    hide NoneProcessed;
    var once := MarkAllOf(TrackedAt(6), first);
    var twice := MarkAllOf(once, second);
    assert twice.Keys == {tp};
    forall o | o in twice[tp]
      ensures o in AllMarked()[tp] && twice[tp][o]
    {
      assert o < 3 ==> PositionAt(o) in first;
      assert o >= 3 ==> PositionAt(o) in second;
    }
    assert twice[tp] == AllMarked()[tp];
  }

  lemma ReleaseBoth()
    ensures var s1 := Next(BothFailed(), Release(BAD));
      && Enabled(BothFailed(), Release(BAD), Published(6)) && Enabled(s1, Release(GOOD), Published(6))
      && Next(s1, Release(GOOD)) == BothFailed().(limbo := {}, tracked := AllMarked())
  {
    MarkBoth();
    assert BAD.key != GOOD.key;
    hide MarkAllOf, AllMarked, TrackedAt, ThreeRead;
  }

  // The message is committed, will not be handed over again, and is in none of the places to which
  // messages go, although it is of a bundle that can be taken apart
  ghost predicate IsGone(s: State, p: KafkaPosition) {
    && p.offset < OffsetAt(s.committed, p.tp) == OffsetAt(s.next, p.tp) && !Kept(s, p)
    && exists b :: Storable(b) && p in b.positions && b in s.lost
  }

  lemma CommitAll()
    ensures var tp := TopicPartition(ALS_TOPIC, 0);
      var s := BothFailed().(limbo := {}, tracked := AllMarked());
      var e := Commit(map[tp := 5]);
      && Enabled(s, e, Published(6))
      && var s' := Next(Next(s, e), Crash);
      s'.committed == map[tp := 6] && s'.next == s'.committed && s'.lost == s.lost
      && s'.rejected == s'.logged == {} && s'.database == s'.dropped == {}
  {
    hide TrackedAt, NextAt, ThreeRead;
    var tp := TopicPartition(ALS_TOPIC, 0);
    assert Committable(AllMarked()[tp], 5);
    assert IsLevel(AllMarked()[tp], Some(5));
    assert AreLevels(AllMarked(), map[tp := 5]);
    assert map[] + (map t | t in map[tp := 5] :: map[tp := 5][t] + 1) == map[tp := 6];
  }

  lemma ThirdIsGone(s: State)
    requires s.committed == map[TopicPartition(ALS_TOPIC, 0) := 6] && s.next == s.committed
    requires s.lost == {BAD.bundle, GOOD.bundle}
    requires s.rejected == s.logged == {} && s.database == s.dropped == {}
    ensures IsGone(s, PositionAt(3))
  {
    GoodIsStorable();
    assert PositionAt(3) in GOOD.bundle.positions;
    hide ThreeRead, Storable;
  }

  // The siphon itself loses messages: one bundle that cannot be taken apart, and the good bundle of
  // the same batch is rolled back with it and its messages are committed, never to be read again.
  lemma GoodBundleIsLost() returns (trace: seq<Event>, published: set<KafkaPosition>, p: KafkaPosition)
    ensures Legal(Start(), trace, published) && OwnCommits(trace) && p in published
    ensures IsGone(Run(Start(), trace), p)
  {
    published, p := Published(6), PositionAt(3);
    assert p in published;
    hide *;
    var s: State;
    trace, s := ReadBoth();
    FailBoth();
    ReleaseBoth();
    CommitAll();
    var last := Commit(map[TopicPartition(ALS_TOPIC, 0) := 5]);
    trace := OneMoreEvent(trace, WriteFailed({"a", "b"}), published);
    trace := OneMoreEvent(trace, Release(BAD), published);
    trace := OneMoreEvent(trace, Release(GOOD), published);
    trace := OneMoreEvent(trace, last, published);
    trace := OneMoreEvent(trace, Crash, published);
    FailedAreLost();
    ThirdIsGone(Run(Start(), trace));
  }

  lemma FailedAreLost()
    ensures BothFailed().lost == {BAD.bundle, GOOD.bundle}
  {
    hide ThreeRead, NextAt, TrackedAt;
  }

  lemma OneMoreEvent(trace: seq<Event>, e: Event, published: set<KafkaPosition>) returns (more: seq<Event>)
    requires Legal(Start(), trace, published) && OwnCommits(trace) && e != LibraryCommit
      && Enabled(Run(Start(), trace), e, published)
    ensures Legal(Start(), more, published) && OwnCommits(more) && Run(Start(), more) == Next(Run(Start(), trace), e)
  {
    LegalStep(Start(), trace, e, published);
    more := trace + [e];
  }

  lemma NothingRead()
    ensures Legal(Start(), [], Published(6)) && Run(Start(), []) == Start()
    ensures NextAt(0) == map[] == Start().next && TrackedAt(0) == map[] == Start().tracked
  {
  }

  lemma ReadIsBoth(s: State)
    requires s == Start().(next := NextAt(6), tracked := TrackedAt(6),
      held := map["a" := BAD.bundle]["b" := GOOD.bundle])
    ensures s == BothRead()
  {
  }

  lemma ReadBoth() returns (trace: seq<Event>, s: State)
    ensures Legal(Start(), trace, Published(6)) && OwnCommits(trace) && Run(Start(), trace) == s == BothRead()
  {
    hide Legal, Run, ThreeRead, Published, NextAt, TrackedAt, BothRead;
    NothingRead();
    var t;
    t, trace := ReadThree(Start(), 0, 6, "a", ResponseDoc(None, ""), []);
    assert t.held == map["a" := BAD.bundle];
    s, trace := ReadThree(t, 3, 6, "b", ResponseDoc(Some([]), ""), trace);
    ReadIsBoth(s);
  }
}
