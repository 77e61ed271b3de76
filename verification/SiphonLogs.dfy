/** The messages of log topics: each turn of the siphon's main loop marks them all, and commits them
    (_process_log_kafka_messages and main_loop of class Siphon of als/als_siphon.py) */
module SiphonLogs {
  import opened Wrappers
  import opened KafkaOffsets
  import opened AlsBundle
  import opened BundleObject
  import opened IncompleteBundles
  import opened SiphonProtocol
  import opened SiphonRuns
  import opened SiphonTurns

  ghost predicate NoLogPending(s: State) {
    forall p :: Pending(s.tracked, p) ==> p.tp.topic == ALS_TOPIC
  }

  // The message was read as log message i, and its topic has not been marked since
  ghost predicate IsUnmarked(trace: seq<Event>, p: KafkaPosition, i: int) {
    && 0 <= i < |trace| && trace[i] == ReadLog(p)
    && forall j :: i < j < |trace| ==> trace[j] != LogsDone(p.tp.topic)
  }

  lemma ReadingPending(s: State, e: Event, p: KafkaPosition)
    requires e.ReadAls? || e.ReadLog? || e.LogsDone?
    requires e.ReadAls? ==> e.position.tp.topic == ALS_TOPIC
    requires Pending(Next(s, e).tracked, p) && p.tp.topic != ALS_TOPIC
    ensures e == ReadLog(p) || (Pending(s.tracked, p) && e != LogsDone(p.tp.topic))
  {
    match e
    case ReadAls(position, _, _, _) =>
      TracksAfterMark(AddPosition(s.tracked, position), position);
      NotAddedPending(s.tracked, position);
      hide AddedTo, AddPosition, MarkPosition;
    case ReadLog(position) =>
      NotAddedPending(s.tracked, position);
      hide AddPosition;
    case LogsDone(topic) =>
      TracksAfterMarkTopic(s.tracked, topic);
      hide MarkTopic;
  }

  ghost predicate SomeUnmarked(trace: seq<Event>, p: KafkaPosition) {
    exists i :: IsUnmarked(trace, p, i)
  }

  ghost predicate AlsReadsAreAls(trace: seq<Event>) {
    forall i :: 0 <= i < |trace| && trace[i].ReadAls? ==> trace[i].position.tp.topic == ALS_TOPIC
  }

  lemma UnmarkedUpToLast(trace: seq<Event>, p: KafkaPosition)
    requires trace != []
    ensures var n := |trace| - 1;
      trace[n] == ReadLog(p) || (SomeUnmarked(trace[..n], p) && trace[n] != LogsDone(p.tp.topic)) ==>
        SomeUnmarked(trace, p)
  {
    var n := |trace| - 1;
    if trace[n] == ReadLog(p) {
      assert IsUnmarked(trace, p, n);
    } else if SomeUnmarked(trace[..n], p) && trace[n] != LogsDone(p.tp.topic) {
      var i :| IsUnmarked(trace[..n], p, i);
      assert IsUnmarked(trace, p, i);
    }
  }

  // What is pending of log topics after readings was read among them and not marked
  lemma {:induction false} PendingIsUnmarked(s: State, trace: seq<Event>, p: KafkaPosition)
    requires NoLogPending(s) && AreReadings(trace) && AlsReadsAreAls(trace) && p.tp.topic != ALS_TOPIC
    ensures Pending(Run(s, trace).tracked, p) ==> SomeUnmarked(trace, p)
  {
    if trace == [] {
      NothingRun(s, {});
      hide Run;
    } else {
      var n := |trace| - 1;
      RunUpToLast(s, trace, {});
      assert trace[n].ReadAls? || trace[n].ReadLog? || trace[n].LogsDone?;
      assert AreReadings(trace[..n]) && AlsReadsAreAls(trace[..n]);
      assert trace[n].ReadAls? ==> trace[n].position.tp.topic == ALS_TOPIC;
      hide Next, Run, Pending, AreReadings, AlsReadsAreAls, SomeUnmarked, NoLogPending;
      PendingIsUnmarked(s, trace[..n], p);
      if Pending(Run(s, trace).tracked, p) {
        ReadingPending(Run(s, trace[..n]), trace[n], p);
      }
      UnmarkedUpToLast(trace, p);
    }
  }

  lemma NoneUnmarked(trace: seq<Event>, p: KafkaPosition)
    requires LogsAreMarked(trace)
    ensures !SomeUnmarked(trace, p)
  {
    assert forall i :: 0 <= i < |trace| ==> IsMarkedLater(trace, i);
  }

  lemma MarkedAfterReadings(s: State, trace: seq<Event>)
    requires NoLogPending(s) && AreReadings(trace) && LogsAreMarked(trace)
    ensures NoLogPending(Run(s, trace))
  {
    forall p | Pending(Run(s, trace).tracked, p)
      ensures p.tp.topic == ALS_TOPIC
    {
      NoneUnmarked(trace, p);
      if p.tp.topic != ALS_TOPIC {
        PendingIsUnmarked(s, trace, p);
      }
    }
  }

  // No other step of the siphon makes a message pending
  lemma StaysMarked(s: State, e: Event)
    requires NoLogPending(s) && !e.ReadAls? && !e.ReadLog? && !e.Crash?
    requires e.Commit? ==> AreLevels(s.tracked, e.levels)
    ensures NoLogPending(Next(s, e))
  {
    match e
    case LogsDone(topic) => TracksAfterMarkTopic(s.tracked, topic);
    case Release(released) => TracksAfterMarkAllOf(s.tracked, released.bundle.positions);
    case Commit(levels) => TracksAfterLevels(s.tracked, levels);
    case _ =>
    hide MarkTopic, MarkAllOf, AfterLevels, Pending;
  }

  ghost predicate HasNoReads(trace: seq<Event>) {
    forall i :: 0 <= i < |trace| ==> !trace[i].ReadAls? && !trace[i].ReadLog?
  }

  lemma {:induction false} MarkedAfterSteps(s: State, trace: seq<Event>)
    requires NoLogPending(s) && Driven(s, trace) && HasNoReads(trace)
    ensures NoLogPending(Run(s, trace))
  {
    if trace != [] {
      var n := |trace| - 1;
      DrivenUpToLast(s, trace);
      hide Driven, Next, Run, NoLogPending;
      MarkedAfterSteps(s, trace[..n]);
      StaysMarked(Run(s, trace[..n]), trace[n]);
    }
  }

  // ---- Tracked or committed ----

  ghost predicate IsTaken(s: State, p: KafkaPosition) {
    Tracks(s.tracked, p) || p.offset < OffsetAt(s.committed, p.tp)
  }

  lemma ReadIsTaken(s: State, p: KafkaPosition)
    ensures IsTaken(Next(s, ReadLog(p)), p)
  {
    TracksAfterAdd(s.tracked, p);
  }

  lemma StaysTaken(s: State, e: Event, p: KafkaPosition)
    requires IsTaken(s, p) && Own(s, e) && !e.Commit?
    ensures IsTaken(Next(s, e), p)
  {
    match e
    case ReadAls(position, _, _, _) =>
      TracksAfterAdd(s.tracked, position);
      TracksAfterMark(AddPosition(s.tracked, position), position);
      hide AddedTo, AddPosition, MarkPosition;
    case ReadLog(position) => TracksAfterAdd(s.tracked, position);
    case LogsDone(topic) => TracksAfterMarkTopic(s.tracked, topic);
    case Release(released) => TracksAfterMarkAllOf(s.tracked, released.bundle.positions);
    case _ =>
  }

  lemma CommitKeepsTaken(s: State, levels: map<TopicPartition, int>, p: KafkaPosition)
    requires IsTaken(s, p) && AreLevels(s.tracked, levels) && LevelsRise(s)
    ensures IsTaken(Next(s, Commit(levels)), p)
  {
    TracksAfterLevels(s.tracked, levels);
    assert p.tp in levels ==> Tracks(s.tracked, KafkaPosition(p.tp, levels[p.tp]));
    hide AfterLevels, AreLevels, Tracks;
  }

  lemma CommitIsEnabled(s: State, e: Event, published: set<KafkaPosition>)
    requires e.Commit? && Enabled(s, e, published)
    ensures AreLevels(s.tracked, e.levels)
  {
  }

  lemma OwnOnly(s: State, trace: seq<Event>)
    requires Driven(s, trace)
    ensures OwnCommits(trace)
  {
  }

  // ---- A turn, and turns ----

  // If nothing of log topics is pending and nothing can be committed, nothing of them is tracked
  lemma NoneIsTracked(s: State, p: KafkaPosition)
    requires NoLogPending(s) && AreLevels(s.tracked, map[]) && p.tp.topic != ALS_TOPIC
    ensures !Tracks(s.tracked, p)
  {
    if p.tp in s.tracked {
      var v := s.tracked[p.tp];
      var none: map<TopicPartition, int> := map[];
      assert IsLevel(v, Find(none, p.tp));
      forall o | o in v
        ensures v[o]
      {
        assert !Pending(s.tracked, KafkaPosition(p.tp, o));
      }
      assert p.offset in v ==> Committable(v, p.offset);
    }
  }

  // A message of a log topic of the turn
  ghost predicate IsLogOf(turn: Turn, p: KafkaPosition) {
    exists topic, i :: topic in turn.messages && 0 <= i < |turn.messages[topic]| && topic != ALS_TOPIC
      && turn.messages[topic][i].position == p
  }

  lemma LaterPartsReadNothing(s: State, turn: Turn, t: TurnTrace)
    requires IsTurn(s, turn, t)
    ensures HasNoReads(t.written + t.timedOut + t.committed)
    ensures AreLevels(Run(Run(Run(Run(s, t.taken), t.written), t.timedOut), t.committed).tracked, map[])
    ensures BySource(turn.messages) ==> LogsAreMarked(t.taken)
    ensures AreReadings(t.taken) && AllRead(turn.messages, t.taken)
  {
    hide Run, LogsAreMarked, AllRead, AreLevels, AllStorable, NoneToFetch, SomeYoung;
  }

  lemma {:induction false} SplitRun(s: State, first: seq<Event>, second: seq<Event>)
    requires Driven(s, first + second)
    ensures Driven(s, first) && Driven(Run(s, first), second) && Run(s, first + second) == Run(Run(s, first), second)
  {
    hide Next, Enabled, Driven, Run, Own;
    if second == [] {
      NoSteps(Run(s, first));
      assert first + second == first;
    } else {
      var n := |second| - 1;
      assert (first + second)[..|first + second| - 1] == first + second[..n];
      DrivenUpToLast(s, first + second);
      SplitRun(s, first, second[..n]);
      OneMore(Run(s, first), second[..n], second[n]);
      assert second[..n] + [second[n]] == second;
    }
  }

  lemma TurnMarksLogs(s: State, turn: Turn, t: TurnTrace)
    requires NoLogPending(s) && IsTurn(s, turn, t) && Driven(s, Whole(t)) && BySource(turn.messages)
    ensures NoLogPending(Run(s, Whole(t))) && AreLevels(Run(s, Whole(t)).tracked, map[])
  {
    hide *;
    var rest := t.written + t.timedOut + t.committed;
    LaterPartsReadNothing(s, turn, t);
    WholeIs(t);
    SplitRun(s, t.taken, rest);
    SplitRun(Run(s, t.taken), t.written, t.timedOut + t.committed);
    SplitRun(Run(Run(s, t.taken), t.written), t.timedOut, t.committed);
    MarkedAfterReadings(s, t.taken);
    MarkedAfterSteps(Run(s, t.taken), rest);
  }

  lemma WholeIs(t: TurnTrace)
    ensures var rest := t.written + t.timedOut + t.committed;
      Whole(t) == t.taken + rest && rest == t.written + (t.timedOut + t.committed)
  {
  }

  // What a turn reads of log topics is marked and committed when it ends
  lemma LogsAreCommitted(s: State, turn: Turn, t: TurnTrace, published: set<KafkaPosition>)
    requires Inv(s, published) && LevelsRise(s) && NoLogPending(s)
    requires IsTurn(s, turn, t) && Driven(s, Whole(t)) && Legal(s, Whole(t), published) && BySource(turn.messages)
    ensures NoLogPending(Run(s, Whole(t)))
    ensures forall p :: IsLogOf(turn, p) ==> p.offset < OffsetAt(Run(s, Whole(t)).committed, p.tp)
  {
    TurnMarksLogs(s, turn, t);
    forall p | IsLogOf(turn, p)
      ensures p.offset < OffsetAt(Run(s, Whole(t)).committed, p.tp)
    {
      LaterPartsReadNothing(s, turn, t);
      hide Run, IsTurn, Driven, AreLevels, Inv, LevelsRise, Legal, NoLogPending, BySource, AllRead, IsLogOf, Tracks;
      LogIsRead(turn, t.taken, p);
      var i :| 0 <= i < |t.taken| && t.taken[i] == ReadLog(p);
      assert Whole(t)[i] == ReadLog(p);
      ReadIsTakenOnRun(s, Whole(t), published, p, i);
      NoneIsTracked(Run(s, Whole(t)), p);
    }
  }

  lemma LogIsRead(turn: Turn, trace: seq<Event>, p: KafkaPosition)
    requires AllRead(turn.messages, trace) && IsLogOf(turn, p) && BySource(turn.messages)
    ensures p.tp.topic != ALS_TOPIC && exists i :: 0 <= i < |trace| && trace[i] == ReadLog(p)
  {
    var topic, i :| topic in turn.messages && 0 <= i < |turn.messages[topic]| && topic != ALS_TOPIC
      && turn.messages[topic][i].position == p;
    assert ReadOf(topic, turn.messages[topic][i]) in trace;
  }

  // What is read on a run is tracked or committed at its end
  lemma {:induction false} ReadIsTakenOnRun(s: State, trace: seq<Event>, published: set<KafkaPosition>,
                                            p: KafkaPosition, i: nat)
    requires Inv(s, published) && LevelsRise(s) && Legal(s, trace, published) && Driven(s, trace)
    requires i < |trace| && trace[i] == ReadLog(p)
    ensures IsTaken(Run(s, trace), p)
    decreases |trace|
  {
    hide Inv, LevelsRise, Next, IsTaken, Enabled, Driven, Legal, Run;
    var n := |trace| - 1;
    DrivenUpToLast(s, trace);
    LegalUpTo(s, trace, published, n);
    RunUpToLast(s, trace, published);
    var m := Run(s, trace[..n]);
    if i == n {
      ReadIsTaken(m, p);
    } else {
      ReadIsTakenOnRun(s, trace[..n], published, p, i);
      OwnOnly(s, trace[..n]);
      StepKeepsTaken(s, trace, published, p);
    }
  }

  lemma StepKeepsTaken(s: State, trace: seq<Event>, published: set<KafkaPosition>, p: KafkaPosition)
    requires Inv(s, published) && LevelsRise(s) && Legal(s, trace, published) && Driven(s, trace) && trace != []
    requires IsTaken(Run(s, trace[..|trace| - 1]), p)
    ensures IsTaken(Run(s, trace), p)
  {
    hide Inv, LevelsRise, Next, IsTaken, Enabled, Driven, Legal, Run;
    var n := |trace| - 1;
    DrivenUpToLast(s, trace);
    LegalUpTo(s, trace, published, n);
    RunUpToLast(s, trace, published);
    var m := Run(s, trace[..n]);
    if trace[n].Commit? {
      OwnOnly(s, trace[..n]);
      RunRises(s, trace[..n], published);
      CommitIsEnabled(m, trace[n], published);
      CommitKeepsTaken(m, trace[n].levels, p);
    } else {
      StaysTaken(m, trace[n], p);
    }
  }

  // The same over any turns of the loop, one after the other
  lemma {:induction false} LoopCommitsLogs(s: State, turns: seq<Turn>, parts: seq<TurnTrace>,
                                           published: set<KafkaPosition>, p: KafkaPosition, k: nat)
    requires Inv(s, published) && LevelsRise(s) && NoLogPending(s)
    requires AreTurns(s, turns, parts) && Driven(s, Traces(parts)) && Legal(s, Traces(parts), published)
    requires forall i :: 0 <= i < |turns| ==> BySource(turns[i].messages)
    ensures NoLogPending(Run(s, Traces(parts)))
    ensures k < |turns| && IsLogOf(turns[k], p) ==> p.offset < OffsetAt(Run(s, Traces(parts)).committed, p.tp)
  {
    hide *;
    if turns == [] {
      NoTurnsDone(s, turns, parts);
    } else {
      var n := |turns| - 1;
      TurnsUpToLast(s, turns, parts);
      var before, last := Traces(parts[..n]), Whole(parts[n]);
      SplitRun(s, before, last);
      SplitLegal(s, before, last, published);
      LoopCommitsLogs(s, turns[..n], parts[..n], published, p, k);
      OwnOnly(s, before);
      OwnCommitsWait(s, before, published);
      RunInv(s, before, published);
      RunRises(s, before, published);
      LogsAreCommitted(Run(s, before), turns[n], parts[n], published);
      if k < n && IsLogOf(turns[k], p) {
        OwnOnly(Run(s, before), last);
        CommittedStays(Run(s, before), last, published, p.tp, 0, |last|);
        assert last[..0] == [] && last[..|last|] == last;
        NothingRun(Run(s, before), published);
      }
    }
  }

  lemma NoTurnsDone(s: State, turns: seq<Turn>, parts: seq<TurnTrace>)
    requires AreTurns(s, turns, parts) && turns == []
    ensures Run(s, Traces(parts)) == s
  {
  }

  lemma SplitLegal(s: State, first: seq<Event>, second: seq<Event>, published: set<KafkaPosition>)
    requires Legal(s, first + second, published) && Driven(s, first + second)
    ensures Legal(s, first, published) && Legal(Run(s, first), second, published)
  {
    var all := first + second;
    LegalUpTo(s, all, published, |first|);
    assert all[..|first|] == first;
    forall i | 0 <= i < |second|
      ensures Enabled(Run(Run(s, first), second[..i]), second[i], published)
    {
      LaterIsEnabled(s, first, second, published, i);
    }
    hide Enabled, Run, Driven;
  }

  lemma EnabledAt(s: State, trace: seq<Event>, published: set<KafkaPosition>, i: nat)
    requires Legal(s, trace, published) && i < |trace|
    ensures Enabled(Run(s, trace[..i]), trace[i], published)
  {
    hide Enabled, Run;
  }

  lemma LaterIsEnabled(s: State, first: seq<Event>, second: seq<Event>, published: set<KafkaPosition>, i: nat)
    requires Legal(s, first + second, published) && Driven(s, first + second) && i < |second|
    ensures Enabled(Run(Run(s, first), second[..i]), second[i], published)
  {
    hide *;
    var all := first + second;
    EnabledAt(s, all, published, |first| + i);
    assert all[..|first| + i] == first + second[..i] && all[|first| + i] == second[i];
    DrivenUpTo(s, all, |first| + i);
    SplitRun(s, first, second[..i]);
  }

  lemma DrivenUpTo(s: State, trace: seq<Event>, k: nat)
    requires Driven(s, trace) && k <= |trace|
    ensures Driven(s, trace[..k])
  {
    hide Enabled, Run;
    assert forall i :: 0 <= i < k ==> trace[..k][i] == trace[i] && trace[..k][..i] == trace[..i];
  }
}
