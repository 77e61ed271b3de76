/** The siphon itself: reading, writing, timing out and committing, and the loop that does
    them in turn (class Siphon of als/als_siphon.py). Each method is a run of the protocol. */
module SiphonLoop {
  import opened Wrappers
  import opened KafkaOffsets
  import opened AlsBundle
  import opened BundleObject
  import opened IncompleteBundles
  import opened SiphonProtocol
  import opened SiphonRuns
  import opened SiphonTurns

  class Siphon {
    const kafkaPositions: KafkaPositions
    const alsBundles: IncompleteAlsBundles
    ghost var state: State

    ghost predicate Valid()
      reads this, kafkaPositions, kafkaPositions.Repr, alsBundles, alsBundles.Repr
    {
      && kafkaPositions.Valid() && alsBundles.Valid()
      && kafkaPositions.Repr !! alsBundles.Repr
      && this !in kafkaPositions.Repr && this !in alsBundles.Repr
      && state.tracked == kafkaPositions.tracked && state.held == alsBundles.held
    }

    constructor ()
      ensures Valid() && state == Start()
      ensures fresh(kafkaPositions.Repr) && fresh(alsBundles.Repr)
    {
      kafkaPositions := new KafkaPositions();
      alsBundles := new IncompleteAlsBundles();
      state := Start();
    }

    // A siphon that is started when another one has ended in state 's'
    constructor Again(ghost s: State)
      ensures Valid() && state == Next(s, Crash)
      ensures fresh(kafkaPositions.Repr) && fresh(alsBundles.Repr)
    {
      kafkaPositions := new KafkaPositions();
      alsBundles := new IncompleteAlsBundles();
      state := Next(s, Crash);
    }

    method ReadAlsMessage(m: KafkaMessage)
      requires Valid()
      modifies this, kafkaPositions.Repr, alsBundles.Repr
      ensures Valid() && fresh(kafkaPositions.Repr - old(kafkaPositions.Repr))
        && fresh(alsBundles.Repr - old(alsBundles.Repr))
      ensures state == Next(old(state), ReadAls(m.position, m.key, m.message, m.now))
    {
      hide KafkaPositions.Valid, IncompleteAlsBundles.Valid, AddPosition, AddedTo, MarkPosition;
      kafkaPositions.Add(m.position);
      var refused := m.message.None?;
      if !refused {
        var created, outcome := alsBundles.AddMessage(m.key, m.message.value, m.position, m.now);
        refused := outcome == Rejected;
      }
      if refused {
        kafkaPositions.MarkProcessed(m.position);
      }
      state := Next(state, ReadAls(m.position, m.key, m.message, m.now));
    }

    method ReadAlsKafkaMessages(messages: seq<KafkaMessage>) returns (ghost trace: seq<Event>)
      requires Valid()
      modifies this, kafkaPositions.Repr, alsBundles.Repr
      ensures Valid() && fresh(kafkaPositions.Repr - old(kafkaPositions.Repr))
        && fresh(alsBundles.Repr - old(alsBundles.Repr))
      ensures Driven(old(state), trace) && state == Run(old(state), trace)
      ensures trace == ReadsOf(ALS_TOPIC, messages) && AreReadings(trace) && state.limbo == old(state).limbo
    {
      hide Valid, Next, Driven, Enabled, Run;
      trace := [];
      NoSteps(state);
      for i := 0 to |messages|
        invariant trace == ReadsOf(ALS_TOPIC, messages[..i]) && state.limbo == old(state).limbo
        invariant Valid() && fresh(kafkaPositions.Repr - old(kafkaPositions.Repr))
          && fresh(alsBundles.Repr - old(alsBundles.Repr))
        invariant Driven(old(state), trace) && state == Run(old(state), trace)
      {
        var m := messages[i];
        ReadKeepsLimbo(state, ReadAls(m.position, m.key, m.message, m.now));
        OneMore(old(state), trace, ReadAls(m.position, m.key, m.message, m.now));
        trace := trace + [ReadAls(m.position, m.key, m.message, m.now)];
        ReadAlsMessage(m);
      }
      assert messages[..|messages|] == messages;
    }

    method ReadLogMessage(position: KafkaPosition)
      requires Valid()
      modifies this, kafkaPositions.Repr
      ensures Valid() && fresh(kafkaPositions.Repr - old(kafkaPositions.Repr))
      ensures alsBundles.Repr == old(alsBundles.Repr)
      ensures state == Next(old(state), ReadLog(position))
    {
      hide KafkaPositions.Valid, IncompleteAlsBundles.Valid, AddPosition;
      kafkaPositions.Add(position);
      state := Next(state, ReadLog(position));
    }

    // The log records are written in one transaction before the topic is marked
    method MarkLogs(topic: string)
      requires Valid()
      modifies this, kafkaPositions.Repr
      ensures Valid() && kafkaPositions.Repr == old(kafkaPositions.Repr)
      ensures alsBundles.Repr == old(alsBundles.Repr)
      ensures state == Next(old(state), LogsDone(topic))
    {
      hide KafkaPositions.Valid, IncompleteAlsBundles.Valid, MarkTopic;
      kafkaPositions.MarkTopicProcessed(topic);
      state := Next(state, LogsDone(topic));
    }

    method ProcessLogKafkaMessages(topic: string, messages: seq<KafkaMessage>) returns (ghost trace: seq<Event>)
      requires Valid() && topic != ALS_TOPIC
      modifies this, kafkaPositions.Repr
      ensures Valid() && fresh(kafkaPositions.Repr - old(kafkaPositions.Repr))
      ensures alsBundles.Repr == old(alsBundles.Repr)
      ensures Driven(old(state), trace) && state == Run(old(state), trace)
      ensures trace == ReadsOf(topic, messages) + [LogsDone(topic)] && AreReadings(trace)
        && state.limbo == old(state).limbo
    {
      hide Valid, Next, Driven, Run;
      trace := [];
      NoSteps(state);
      for i := 0 to |messages|
        invariant trace == ReadsOf(topic, messages[..i]) && state.limbo == old(state).limbo
        invariant alsBundles.Repr == old(alsBundles.Repr)
        invariant Valid() && fresh(kafkaPositions.Repr - old(kafkaPositions.Repr))
        invariant Driven(old(state), trace) && state == Run(old(state), trace)
      {
        ReadKeepsLimbo(state, ReadLog(messages[i].position));
        OneMore(old(state), trace, ReadLog(messages[i].position));
        trace := trace + [ReadLog(messages[i].position)];
        ReadLogMessage(messages[i].position);
      }
      assert messages[..|messages|] == messages;
      ReadKeepsLimbo(state, LogsDone(topic));
      OneMore(old(state), trace, LogsDone(topic));
      trace := trace + [LogsDone(topic)];
      MarkLogs(topic);
    }

    method CommitKafkaOffsets() returns (done: bool, ghost trace: seq<Event>)
      requires Valid()
      modifies this, kafkaPositions.Repr
      ensures Valid() && kafkaPositions.Repr == old(kafkaPositions.Repr)
      ensures alsBundles.Repr == old(alsBundles.Repr)
      ensures Driven(old(state), trace) && state == Run(old(state), trace)
      ensures AreCommits(trace) && (done <==> trace != [])
      ensures AreLevels(state.tracked, map[]) && state.limbo == old(state).limbo && state.held == old(state).held
    {
      hide KafkaPositions.Valid, IncompleteAlsBundles.Valid, AreLevels, AfterLevels, Driven, Run;
      trace := [];
      NoSteps(state);
      var levels := kafkaPositions.GetProcessedOffsets();
      done := levels != map[];
      if done {
        OneMore(state, trace, Commit(levels));
        trace := trace + [Commit(levels)];
        NothingMore(state.tracked, levels);
        state := Next(state, Commit(levels));
      } else {
        NoLevels(state.tracked);
      }
    }

    // What happens when the last reference to a bundle goes: its messages are marked processed
    method ReleaseBundle(bundle: AlsMessageBundle, ghost released: Keyed)
      requires Valid() && bundle !in kafkaPositions.Repr
      requires bundle.positions == released.bundle.positions
      modifies this, kafkaPositions.Repr
      ensures Valid() && kafkaPositions.Repr == old(kafkaPositions.Repr)
      ensures alsBundles.Repr == old(alsBundles.Repr)
      ensures state == Next(old(state), Release(released))
    {
      hide KafkaPositions.Valid, IncompleteAlsBundles.Valid, MarkAllOf, MarkPosition;
      var positions := bundle.positions;
      var pending := positions;
      MarkNone(state.tracked);
      assert positions - pending == {};
      while pending != {}
        invariant pending <= positions
        invariant kafkaPositions.Valid() && kafkaPositions.Repr == old(kafkaPositions.Repr)
        invariant alsBundles.Valid() && state == old(state) && alsBundles.held == old(alsBundles.held)
        invariant alsBundles.Repr == old(alsBundles.Repr)
        invariant kafkaPositions.tracked == MarkAllOf(state.tracked, positions - pending)
        decreases pending
      {
        var position := Pick(pending);
        MarkOneMore(state.tracked, positions - pending, position);
        assert positions - (pending - {position}) == positions - pending + {position};
        pending := pending - {position};
        kafkaPositions.MarkProcessed(position);
      }
      assert positions - pending == positions;
      state := Next(state, Release(released));
    }

    // Each bundle is taken apart, up to the first that raises
    method TakeApartAll(batch: seq<AlsMessageBundle>, ghost views: seq<Bundle>) returns (error: Option<FormatError>)
      requires |views| == |batch|
      requires forall i :: 0 <= i < |batch| ==> Holds(batch[i], views[i]) && views[i].assembled
      requires forall i, j :: 0 <= i < j < |batch| ==> batch[i] != batch[j]
      modifies set b | b in batch
      ensures forall i :: 0 <= i < |batch| ==> batch[i].positions == views[i].positions
      ensures error.None? <==> forall i :: 0 <= i < |batch| ==> Storable(views[i])
      ensures error == Some(NotCaught) ==> exists i :: 0 <= i < |batch| && IsEnding(views[i])
    {
      hide CanBeTakenApart, EndsSiphon, Covered, PartsOf, Emptied;
      for i := 0 to |batch|
        invariant forall j :: i <= j < |batch| ==>
          Holds(batch[j], views[j])
        invariant forall j :: 0 <= j < |batch| ==> batch[j].positions == views[j].positions
        invariant forall j :: 0 <= j < i ==> Storable(views[j])
      {
        var r := batch[i].TakeApart();
        if r.Failure? {
          assert !Storable(views[i]) && (r.error == NotCaught ==> IsEnding(views[i]));
          return Some(r.error);
        }
      }
      error := None;
    }

    method ReleaseAll(batch: seq<AlsMessageBundle>, ghost views: seq<Bundle>) returns (ghost trace: seq<Event>)
      requires Valid() && |views| == |batch|
      requires forall i :: 0 <= i < |batch| ==>
        batch[i] !in kafkaPositions.Repr && batch[i].positions == views[i].positions
      requires forall i :: 0 <= i < |batch| ==> Keyed(batch[i].messageKey, views[i]) in state.limbo
      requires forall i, j :: 0 <= i < j < |batch| ==> batch[i].messageKey != batch[j].messageKey
      modifies this, kafkaPositions.Repr
      ensures Valid() && kafkaPositions.Repr == old(kafkaPositions.Repr)
      ensures alsBundles.Repr == old(alsBundles.Repr)
      ensures Driven(old(state), trace) && state == Run(old(state), trace)
      ensures state.held == old(state).held && state.limbo == old(state).limbo - AllKeyed(batch, views, |batch|)
      ensures forall i :: 0 <= i < |trace| ==> trace[i].Release?
    {
      hide Valid, Driven, Run;
      trace := [];
      NoSteps(state);
      for i := 0 to |batch|
        invariant state.held == old(state).held && state.limbo == old(state).limbo - AllKeyed(batch, views, i)
        invariant forall j :: 0 <= j < |trace| ==> trace[j].Release?
        invariant alsBundles.Repr == old(alsBundles.Repr)
        invariant Valid() && kafkaPositions.Repr == old(kafkaPositions.Repr)
        invariant Driven(old(state), trace) && state == Run(old(state), trace)
        invariant forall j :: i <= j < |batch| ==> Keyed(batch[j].messageKey, views[j]) in state.limbo
        invariant forall j :: 0 <= j < |batch| ==> batch[j].positions == views[j].positions
      {
        ghost var released := Keyed(batch[i].messageKey, views[i]);
        OneMore(old(state), trace, Release(released));
        trace := trace + [Release(released)];
        ReleaseBundle(batch[i], released);
      }
    }

    // Assembled bundles are taken out of the collection, and a transaction is made for the
    // whole batch. It is rolled back if a bundle cannot be taken apart, or if a table finds
    // fault with what is in one; the bundles are released all the same. An exception that is not
    // caught ends the siphon before anything is stored.
    method WriteAlsMessages(refused: bool) returns (done: bool, ended: bool, ghost trace: seq<Event>)
      requires Valid()
      modifies this, kafkaPositions.Repr, alsBundles.Repr
      ensures Driven(old(state), trace) && state == Run(old(state), trace)
      ensures ended ==> trace == [] && HasEnding(old(state).held)
      ensures !ended ==>
        Valid() && kafkaPositions.Repr == old(kafkaPositions.Repr) && alsBundles.Repr <= old(alsBundles.Repr)
      ensures !ended ==> IsWrite(old(state).held, refused, trace) && (done <==> trace != [])
      ensures !ended ==> state.limbo <= old(state).limbo && (old(alsBundles.InOrder()) ==> alsBundles.InOrder())
    {
      hide Driven, Run, Next, IncompleteAlsBundles.InOrder, NoneToFetch, AllStorable, KafkaPositions.Valid,
        IncompleteAlsBundles.Valid;
      trace := [];
      NoSteps(state);
      var batch, failed;
      ghost var views;
      batch, views, failed, ended := TakeBatch(refused);
      done := batch != [];
      if done && !ended {
        ghost var e := if failed then WriteFailed(KeysOf(batch)) else WriteDone(KeysOf(batch));
        OneMore(old(state), trace, e);
        trace := trace + [e];
        ghost var releases := ReleaseAll(batch, views);
        InTurn(old(state), trace, releases);
        trace := trace + releases;
      }
    }

    method TakeBatch(refused: bool)
      returns (batch: seq<AlsMessageBundle>, ghost views: seq<Bundle>, failed: bool, ended: bool)
      requires Valid()
      modifies this, alsBundles.Repr
      ensures |views| == |batch|
      ensures ended ==> state == old(state) && HasEnding(state.held)
      ensures !ended ==> Valid() && alsBundles.Repr <= old(alsBundles.Repr)
      ensures batch == [] ==> !ended && state == old(state) && NoneToFetch(state.held, Some(ALS_MAX_REQ_UPDATE))
      ensures batch != [] ==> KeysOf(batch) != {} && KeysOf(batch) <= old(state).held.Keys
      ensures batch != [] ==> (failed <==> refused || !AllStorable(old(state).held, KeysOf(batch)))
      ensures !ended ==> state.limbo <= old(state).limbo + AllKeyed(batch, views, |batch|)
      ensures old(alsBundles.InOrder()) ==> alsBundles.InOrder()
      ensures var e := if failed then WriteFailed(KeysOf(batch)) else WriteDone(KeysOf(batch));
        batch != [] && !ended ==> Enabled(old(state), e, {}) && state == Next(old(state), e)
      ensures forall i :: 0 <= i < |batch| ==>
        batch[i] !in kafkaPositions.Repr && batch[i].positions == views[i].positions
      ensures !ended ==> forall i :: 0 <= i < |batch| ==> Keyed(batch[i].messageKey, views[i]) in state.limbo
      ensures forall i, j :: 0 <= i < j < |batch| ==> batch[i].messageKey != batch[j].messageKey
    {
      hide KafkaPositions.Valid, IncompleteAlsBundles.Valid, IncompleteAlsBundles.InOrder, Storable, Taken, Holds,
        KeysOf, Next, Enabled,
        NoneToFetch, AllStorable, HasEnding, IsEnding;
      batch := alsBundles.FetchAssembled(None, Some(ALS_MAX_REQ_UPDATE));
      ghost var held := old(state).held;
      assert forall i :: 0 <= i < |batch| ==> batch[i].messageKey in held;
      views := seq(|batch|, i requires 0 <= i < |batch| => held[batch[i].messageKey]);
      BatchFacts(old(state), old(alsBundles.bundleMap), alsBundles.bundleMap, alsBundles.held, batch, views);
      BatchKeys(held, batch, views);
      var error := TakeApartAll(batch, views);
      failed := refused || error.Some?;
      ended := error == Some(NotCaught);
      if batch != [] && !ended {
        BatchEnabled(state, batch, views, failed);
        state := Next(state, if failed then WriteFailed(KeysOf(batch)) else WriteDone(KeysOf(batch)));
      }
    }

    // Bundles not updated for too long are recorded as incomplete and dropped, assembled or not
    method TimeoutAlsMessages(now: int) returns (done: bool, ghost trace: seq<Event>)
      requires Valid()
      modifies this, kafkaPositions.Repr, alsBundles.Repr
      ensures Valid() && kafkaPositions.Repr == old(kafkaPositions.Repr) && alsBundles.Repr <= old(alsBundles.Repr)
      ensures Driven(old(state), trace) && state == Run(old(state), trace)
      ensures state.limbo <= old(state).limbo
      ensures old(alsBundles.InOrder()) ==> forall k :: k in state.held ==> now - ALS_MAX_AGE < state.held[k].lastUpdate
      ensures SomeYoung(state.held, now - ALS_MAX_AGE) && AreTimeOuts(trace, now - ALS_MAX_AGE)
      ensures done <==> trace != []
    {
      hide Driven, Run, Next, Enabled, KafkaPositions.Valid, IncompleteAlsBundles.Valid, IncompleteAlsBundles.InOrder;
      var boundary := now - ALS_MAX_AGE;
      done, trace := false, [];
      NoSteps(state);
      while true
        invariant Valid() && kafkaPositions.Repr == old(kafkaPositions.Repr) && alsBundles.Repr <= old(alsBundles.Repr)
        invariant Driven(old(state), trace) && state == Run(old(state), trace)
        invariant state.limbo <= old(state).limbo && (old(alsBundles.InOrder()) ==> alsBundles.InOrder())
        invariant AreTimeOuts(trace, boundary) && (done <==> trace != [])
        decreases |alsBundles.bundleQueue|
      {
        var oldest := alsBundles.GetOldestBundle();
        if oldest.None? || oldest.value.lastUpdate > boundary {
          break;
        }
        done := true;
        ghost var out := Keyed(oldest.value.messageKey, oldest.value.View());
        TimeOutFacts(state, oldest.value, boundary);
        OneMore(old(state), trace, TimeOut(out.key, boundary));
        OneMore(old(state), trace + [TimeOut(out.key, boundary)], Release(out));
        trace := trace + [TimeOut(out.key, boundary)] + [Release(out)];
        DropOldest(oldest.value, boundary);
      }
    }

    method DropOldest(oldest: AlsMessageBundle, boundary: int)
      requires Valid() && alsBundles.bundleQueue != [] && alsBundles.bundleQueue[0] == oldest
      requires Oldest(state, oldest, boundary) && oldest in alsBundles.Repr
      modifies this, kafkaPositions.Repr, alsBundles
      ensures Valid() && kafkaPositions.Repr == old(kafkaPositions.Repr) && alsBundles.Repr <= old(alsBundles.Repr)
      ensures |alsBundles.bundleQueue| < |old(alsBundles.bundleQueue)|
      ensures state.limbo <= old(state).limbo && (old(alsBundles.InOrder()) ==> alsBundles.InOrder())
      ensures var out := Keyed(oldest.messageKey, old(oldest.View()));
        state == Next(Next(old(state), TimeOut(out.key, boundary)), Release(out))
    {
      hide KafkaPositions.Valid, IncompleteAlsBundles.Valid, IncompleteAlsBundles.InOrder, AlsMessageBundle.Valid, Next;
      ghost var out := Keyed(oldest.messageKey, oldest.View());
      TimeOutFacts(state, oldest, boundary);
      var bundle := alsBundles.RemoveOldestBundle();
      state := Next(state, TimeOut(out.key, boundary));
      ReleaseBundle(bundle, out);
    }

    method ReadTopics(messages: map<string, seq<KafkaMessage>>) returns (ghost trace: seq<Event>)
      requires Valid()
      modifies this, kafkaPositions.Repr, alsBundles.Repr
      ensures Valid() && fresh(kafkaPositions.Repr - old(kafkaPositions.Repr))
        && fresh(alsBundles.Repr - old(alsBundles.Repr))
      ensures Driven(old(state), trace) && state == Run(old(state), trace)
      ensures AllRead(messages, trace) && AreReadings(trace) && state.limbo == old(state).limbo
      ensures BySource(messages) ==> LogsAreMarked(trace)
    {
      hide Valid, Driven, Run, LogsAreMarked;
      NothingToMark();
      trace := [];
      NoSteps(state);
      var topics := messages.Keys;
      while topics != {}
        invariant topics <= messages.Keys && AreReadings(trace) && state.limbo == old(state).limbo
        invariant BySource(messages) ==> LogsAreMarked(trace)
        invariant forall topic, i :: topic in messages && topic !in topics && 0 <= i < |messages[topic]| ==>
          ReadOf(topic, messages[topic][i]) in trace
        invariant Valid() && fresh(kafkaPositions.Repr - old(kafkaPositions.Repr))
          && fresh(alsBundles.Repr - old(alsBundles.Repr))
        invariant Driven(old(state), trace) && state == Run(old(state), trace)
        decreases topics
      {
        var topic := Pick(topics);
        topics := topics - {topic};
        ghost var steps;
        if topic == ALS_TOPIC {
          steps := ReadAlsKafkaMessages(messages[topic]);
        } else {
          steps := ProcessLogKafkaMessages(topic, messages[topic]);
        }
        assert forall i :: 0 <= i < |messages[topic]| ==> steps[i] == ReadOf(topic, messages[topic][i]);
        if BySource(messages) {
          TopicIsMarked(topic, messages[topic]);
          assert steps == steps + [];
          MarkedInTurn(trace, steps);
        }
        InTurn(old(state), trace, steps);
        trace := trace + steps;
      }
    }

    method OneTurn(turn: Turn) returns (ended: bool, ghost t: TurnTrace)
      requires Valid()
      modifies this, kafkaPositions.Repr, alsBundles.Repr
      ensures Driven(old(state), Whole(t)) && state == Run(old(state), Whole(t))
      ensures !ended ==>
        Valid() && fresh(kafkaPositions.Repr - old(kafkaPositions.Repr))
        && fresh(alsBundles.Repr - old(alsBundles.Repr))
      ensures if ended then IsEnd(old(state), turn, t) else IsTurn(old(state), turn, t)
    {
      hide Valid, Driven, Run, AllRead, SomeYoung, AreLevels, IsWrite, AreReadings, AreTimeOuts, AreCommits, HasEnding,
        BySource, LogsAreMarked;
      ghost var taken := ReadTopics(turn.messages);
      ghost var written, timedOut, committed;
      var done;
      done, ended, written := WriteAlsMessages(turn.refused);
      InTurn(old(state), taken, written);
      if ended {
        t := TurnTrace(taken, [], [], []);
        assert Whole(t) == taken + written;
        return;
      }
      done, timedOut := TimeoutAlsMessages(turn.now);
      InTurn(old(state), taken + written, timedOut);
      done, committed := CommitKafkaOffsets();
      InTurn(old(state), taken + written + timedOut, committed);
      t := TurnTrace(taken, written, timedOut, committed);
    }

    // The loop, for any number of turns, whatever each turn gets from outside; 'parts' are its turns,
    // and 'last' is what is done of a turn in which it ends
    method MainLoop(turns: seq<Turn>) returns (ended: bool, ghost parts: seq<TurnTrace>, ghost last: seq<Event>)
      requires Valid()
      modifies this, kafkaPositions.Repr, alsBundles.Repr
      ensures Driven(old(state), Traces(parts) + last) && state == Run(old(state), Traces(parts) + last)
      ensures |parts| <= |turns| && AreTurns(old(state), turns[..|parts|], parts)
      ensures !ended ==> Valid() && |parts| == |turns| && last == []
      ensures ended ==>
        |parts| < |turns| && HasEnding(state.held) && AllRead(turns[|parts|].messages, last) && AreReadings(last)
    {
      hide Valid, Driven, Run, IsTurn, AreTurns, AllRead, AreReadings, HasEnding;
      parts, last, ended := [], [], false;
      NoSteps(state);
      NoTurns(state);
      for i := 0 to |turns|
        invariant !ended && |parts| == i
        invariant Valid() && fresh(kafkaPositions.Repr - old(kafkaPositions.Repr))
          && fresh(alsBundles.Repr - old(alsBundles.Repr))
        invariant Driven(old(state), Traces(parts)) && state == Run(old(state), Traces(parts))
        invariant AreTurns(old(state), turns[..i], parts)
      {
        ghost var t;
        ended, t := OneTurn(turns[i]);
        InTurn(old(state), Traces(parts), Whole(t));
        if ended {
          last := Whole(t);
          return;
        }
        OneMoreTurn(old(state), turns, i, parts, t);
        parts := parts + [t];
      }
      last := [];
      assert Traces(parts) + last == Traces(parts);
    }
  }

  // The bundle at the top of the queue can be timed out
  ghost predicate Oldest(s: State, oldest: AlsMessageBundle, boundary: int)
    reads oldest
  {
    oldest.messageKey in s.held && Holds(oldest, s.held[oldest.messageKey]) && oldest.lastUpdate <= boundary
  }

  lemma NothingToMark()
    ensures LogsAreMarked([])
  {
  }

  ghost function AllKeyed(batch: seq<AlsMessageBundle>, views: seq<Bundle>, k: nat): set<Keyed>
    requires k <= |batch| == |views|
  {
    set i | 0 <= i < k :: Keyed(batch[i].messageKey, views[i])
  }

  lemma TimeOutFacts(s: State, oldest: AlsMessageBundle, boundary: int)
    requires Oldest(s, oldest, boundary)
    ensures var out := Keyed(oldest.messageKey, oldest.View());
      var e := TimeOut(out.key, boundary);
      && Enabled(s, e, {}) && out in Next(s, e).limbo && Enabled(Next(s, e), Release(out), {})
      && Next(s, e).held == s.held - {oldest.messageKey} && Next(s, e).tracked == s.tracked
      && Next(Next(s, e), Release(out)).limbo <= s.limbo
  {
  }

  lemma BatchFacts(s: State, byKey0: map<string, AlsMessageBundle>, byKey: map<string, AlsMessageBundle>, held: Held,
                   batch: seq<AlsMessageBundle>, views: seq<Bundle>)
    requires Taken(byKey0, s.held, byKey, held, batch, Some(ALS_MAX_REQ_UPDATE))
    requires |views| == |batch|
    requires forall i :: 0 <= i < |batch| ==> batch[i].messageKey in s.held && views[i] == s.held[batch[i].messageKey]
    ensures held == s.held - KeysOf(batch)
    ensures batch == [] ==> held == s.held
    ensures forall i :: 0 <= i < |batch| ==> views[i].assembled
    ensures forall i, j :: 0 <= i < j < |batch| ==> batch[i].messageKey != batch[j].messageKey
    ensures forall i, j :: 0 <= i < j < |batch| ==> batch[i] != batch[j]
  {
    forall i | 0 <= i < |batch|
      ensures views[i].assembled
    {
      assert batch[i] in batch;
    }
  }

  lemma BatchKeys(held: Held, batch: seq<AlsMessageBundle>, views: seq<Bundle>)
    requires |views| == |batch|
    requires forall i :: 0 <= i < |batch| ==> batch[i].messageKey in held && views[i] == held[batch[i].messageKey]
    ensures KeysOf(batch) <= held.Keys && (batch != [] ==> KeysOf(batch) != {})
    ensures AllStorable(held, KeysOf(batch)) <==> forall i :: 0 <= i < |batch| ==> Storable(views[i])
    ensures (exists i :: 0 <= i < |batch| && IsEnding(views[i])) ==> HasEnding(held)
  {
    hide Storable, IsEnding;
    forall i | 0 <= i < |batch|
      ensures batch[i].messageKey in KeysOf(batch)
    {
      assert batch[i] in batch;
    }
    forall k | k in KeysOf(batch)
      ensures exists i :: 0 <= i < |batch| && batch[i].messageKey == k && views[i] == held[k]
    {
      var b :| b in batch && b.messageKey == k;
      var i :| 0 <= i < |batch| && batch[i] == b;
      assert views[i] == held[k];
    }
    assert batch != [] ==> batch[0].messageKey in KeysOf(batch);
    hide KeysOf;
    if i :| 0 <= i < |batch| && IsEnding(views[i]) {
      assert IsEnding(held[batch[i].messageKey]);
    }
  }

  lemma BatchEnabled(s: State, batch: seq<AlsMessageBundle>, views: seq<Bundle>, failed: bool)
    requires |views| == |batch|
    requires forall i :: 0 <= i < |batch| ==>
      && batch[i].messageKey in s.held && views[i] == s.held[batch[i].messageKey] && views[i].assembled
      && (!failed ==> Storable(views[i]))
    ensures var e := if failed then WriteFailed(KeysOf(batch)) else WriteDone(KeysOf(batch));
      && Enabled(s, e, {})
      && Next(s, e).held == s.held - KeysOf(batch) && Next(s, e).tracked == s.tracked
      && Next(s, e).limbo <= s.limbo + AllKeyed(batch, views, |batch|)
      && forall i :: 0 <= i < |batch| ==> Keyed(batch[i].messageKey, views[i]) in Next(s, e).limbo
  {
    hide Storable;
    forall k | k in KeysOf(batch)
      ensures k in s.held && s.held[k].assembled && (!failed ==> Storable(s.held[k]))
    {
      var b :| b in batch && b.messageKey == k;
      var i :| 0 <= i < |batch| && batch[i] == b;
    }
    forall i | 0 <= i < |batch|
      ensures batch[i].messageKey in KeysOf(batch)
    {
      assert batch[i] in batch;
    }
  }

  lemma NoLevels(p: Positions)
    ensures AfterLevels(p, map[]) == p
  {
    forall tp | tp in p
      ensures Above(p[tp], None) == p[tp]
    {
    }
  }

  lemma MarkNone(p: Positions)
    ensures MarkAllOf(p, {}) == p
  {
    forall tp | tp in p
      ensures MarkAllOf(p, {})[tp] == p[tp]
    {
    }
  }

  lemma MarkOneMore(p: Positions, positions: set<KafkaPosition>, position: KafkaPosition)
    ensures MarkPosition(MarkAllOf(p, positions), position) == MarkAllOf(p, positions + {position})
  {
    var a, b := MarkPosition(MarkAllOf(p, positions), position), MarkAllOf(p, positions + {position});
    forall tp | tp in p
      ensures a[tp] == b[tp]
    {
      assert a[tp].Keys == b[tp].Keys;
    }
  }
}
