/** What the turns of the siphon's main loop do in terms of the protocol, and what follows for all
    turns and for all restarts (class Siphon of als/als_siphon.py) */
module SiphonTurns {
  import opened Wrappers
  import opened KafkaOffsets
  import opened AlsBundle
  import opened BundleObject
  import opened IncompleteBundles
  import opened SiphonProtocol
  import opened SiphonRuns

  const ALS_MAX_AGE := 1000
  const ALS_MAX_REQ_UPDATE := 5000

  // A message as Kafka hands it over, with the time at which it is looked at. The content is
  // None when the ALS envelope of the message is malformed.
  datatype KafkaMessage = KafkaMessage(position: KafkaPosition, key: string, message: Option<AlsMessage>, now: int)

  // What one turn of the loop gets from outside: the messages of a poll by topic, whether a
  // table refuses something of the batch being written, and the time
  datatype Turn = Turn(messages: map<string, seq<KafkaMessage>>, refused: bool, now: int)

  function ReadOf(topic: string, m: KafkaMessage): Event {
    if topic == ALS_TOPIC then ReadAls(m.position, m.key, m.message, m.now) else ReadLog(m.position)
  }

  function ReadsOf(topic: string, messages: seq<KafkaMessage>): seq<Event> {
    seq(|messages|, i requires 0 <= i < |messages| => ReadOf(topic, messages[i]))
  }

  // The steps of a trace that are the siphon's own choice are enabled
  ghost predicate Driven(s: State, trace: seq<Event>) {
    forall i :: 0 <= i < |trace| ==>
      trace[i] != Crash && trace[i] != LibraryCommit &&
      (trace[i].ReadAls? || trace[i].ReadLog? || Enabled(Run(s, trace[..i]), trace[i], {}))
  }

  // What the parts of one turn of the loop did
  datatype TurnTrace = TurnTrace(taken: seq<Event>, written: seq<Event>, timedOut: seq<Event>, committed: seq<Event>)

  function Whole(t: TurnTrace): seq<Event> {
    t.taken + t.written + t.timedOut + t.committed
  }

  // All messages were read; what is assembled was written; what is left is not all older than the
  // boundary; nothing more can be committed; and all bundles taken out have been released
  ghost predicate IsTurn(s: State, turn: Turn, t: TurnTrace) {
    var s1 := Run(s, t.taken);
    var s2 := Run(s1, t.written);
    var s3 := Run(s2, t.timedOut);
    var s4 := Run(s3, t.committed);
    && AllRead(turn.messages, t.taken) && AreReadings(t.taken) && (BySource(turn.messages) ==> LogsAreMarked(t.taken))
    && IsWrite(s1.held, turn.refused, t.written)
    && SomeYoung(s3.held, turn.now - ALS_MAX_AGE) && AreTimeOuts(t.timedOut, turn.now - ALS_MAX_AGE)
    && AreLevels(s4.tracked, map[]) && AreCommits(t.committed) && s4.limbo <= s.limbo
  }

  // Of the bundles in 'held' some that are assembled are written, unless there is nothing to fetch;
  // and they are stored, unless a table refuses them or one of them cannot be taken apart
  ghost predicate IsWrite(held: Held, refused: bool, trace: seq<Event>) {
    if trace == [] then NoneToFetch(held, Some(ALS_MAX_REQ_UPDATE))
    else
      && (trace[0].WriteDone? || trace[0].WriteFailed?) && trace[0].keys != {} && trace[0].keys <= held.Keys
      && (trace[0].WriteFailed? <==> refused || !AllStorable(held, trace[0].keys))
      && forall i :: 1 <= i < |trace| ==> trace[i].Release?
  }

  // Taking the bundle apart raises an exception that nobody catches
  ghost predicate IsEnding(b: Bundle) {
    b.assembled && Covered(b) && EndsSiphon(b)
  }

  ghost predicate HasEnding(held: Held) {
    exists k :: k in held && IsEnding(held[k])
  }

  // The siphon ends in the middle of a turn, before anything is written
  ghost predicate IsEnd(s: State, turn: Turn, t: TurnTrace) {
    && AllRead(turn.messages, t.taken) && AreReadings(t.taken) && Whole(t) == t.taken
    && HasEnding(Run(s, t.taken).held)
  }

  ghost predicate AllStorable(held: Held, keys: set<string>) {
    forall k :: k in keys && k in held ==> Storable(held[k])
  }

  ghost predicate AreReadings(trace: seq<Event>) {
    forall i :: 0 <= i < |trace| ==> trace[i].ReadAls? || trace[i].ReadLog? || trace[i].LogsDone?
  }

  // The messages of a poll are under the topics that they are of
  predicate BySource(messages: map<string, seq<KafkaMessage>>) {
    forall topic, i :: topic in messages && 0 <= i < |messages[topic]| ==>
      messages[topic][i].position.tp.topic == topic
  }

  // After each log message its topic is marked
  ghost predicate LogsAreMarked(trace: seq<Event>) {
    forall i :: 0 <= i < |trace| ==>
      IsMarkedLater(trace, i) && (trace[i].ReadAls? ==> trace[i].position.tp.topic == ALS_TOPIC)
  }

  ghost predicate IsMarkedLater(trace: seq<Event>, i: int)
    requires 0 <= i < |trace|
  {
    trace[i].ReadLog? ==> exists j :: i < j < |trace| && trace[j] == LogsDone(trace[i].position.tp.topic)
  }

  lemma MarkedInTurn(a: seq<Event>, b: seq<Event>)
    requires LogsAreMarked(a) && LogsAreMarked(b)
    ensures LogsAreMarked(a + b)
  {
    var all := a + b;
    forall i | 0 <= i < |all|
      ensures IsMarkedLater(all, i) && (all[i].ReadAls? ==> all[i].position.tp.topic == ALS_TOPIC)
    {
      if i < |a| {
        assert IsMarkedLater(a, i);
        if a[i].ReadLog? {
          var j :| i < j < |a| && a[j] == LogsDone(a[i].position.tp.topic);
          assert all[j] == a[j];
        }
      } else {
        assert IsMarkedLater(b, i - |a|);
        if b[i - |a|].ReadLog? {
          var j :| i - |a| < j < |b| && b[j] == LogsDone(b[i - |a|].position.tp.topic);
          assert all[|a| + j] == b[j];
        }
      }
    }
  }

  lemma TopicIsMarked(topic: string, messages: seq<KafkaMessage>)
    requires forall i :: 0 <= i < |messages| ==> messages[i].position.tp.topic == topic
    ensures LogsAreMarked(ReadsOf(topic, messages) + if topic == ALS_TOPIC then [] else [LogsDone(topic)])
  {
    var all := ReadsOf(topic, messages) + if topic == ALS_TOPIC then [] else [LogsDone(topic)];
    forall i | 0 <= i < |all|
      ensures IsMarkedLater(all, i) && (all[i].ReadAls? ==> all[i].position.tp.topic == ALS_TOPIC)
    {
      assert topic != ALS_TOPIC ==> all[|messages|] == LogsDone(topic);
    }
  }

  ghost predicate AreTimeOuts(trace: seq<Event>, boundary: int) {
    forall i :: 0 <= i < |trace| ==> (trace[i].TimeOut? && trace[i].boundary == boundary) || trace[i].Release?
  }

  ghost predicate AreCommits(trace: seq<Event>) {
    forall i :: 0 <= i < |trace| ==> trace[i].Commit?
  }

  ghost predicate AllRead(messages: map<string, seq<KafkaMessage>>, trace: seq<Event>) {
    forall topic, i :: topic in messages && 0 <= i < |messages[topic]| ==> ReadOf(topic, messages[topic][i]) in trace
  }

  ghost predicate SomeYoung(held: Held, boundary: int) {
    held == map[] || exists k :: k in held && boundary < held[k].lastUpdate
  }

  function Traces(parts: seq<TurnTrace>): seq<Event> {
    if parts == [] then [] else Traces(parts[..|parts| - 1]) + Whole(parts[|parts| - 1])
  }

  ghost predicate AreTurns(s: State, turns: seq<Turn>, parts: seq<TurnTrace>) {
    |parts| == |turns| && forall i :: 0 <= i < |turns| ==> IsTurn(Run(s, Traces(parts[..i])), turns[i], parts[i])
  }

  // Event e can be taken by the siphon
  ghost predicate Own(s: State, e: Event) {
    e != Crash && e != LibraryCommit && (e.ReadAls? || e.ReadLog? || Enabled(s, e, {}))
  }

  lemma {:induction false} OneMore(s: State, trace: seq<Event>, e: Event)
    requires Driven(s, trace) && Own(Run(s, trace), e)
    ensures Driven(s, trace + [e]) && Run(s, trace + [e]) == Next(Run(s, trace), e)
  {
    hide Next, Enabled;
    var more := trace + [e];
    assert more[..|trace|] == trace;
    forall i | 0 <= i < |more|
      ensures Own(Run(s, more[..i]), more[i])
    {
      if i < |trace| {
        assert more[..i] == trace[..i] && more[i] == trace[i];
      }
    }
  }

  lemma DrivenUpToLast(s: State, trace: seq<Event>)
    requires Driven(s, trace) && trace != []
    ensures var init, last := trace[..|trace| - 1], trace[|trace| - 1];
      Driven(s, init) && Own(Run(s, init), last) && Run(s, trace) == Next(Run(s, init), last)
  {
    hide Next, Enabled;
    var init := trace[..|trace| - 1];
    assert forall i :: 0 <= i < |init| ==> init[i] == trace[i] && init[..i] == trace[..i];
  }

  lemma {:induction false} InTurn(s: State, first: seq<Event>, second: seq<Event>)
    requires Driven(s, first) && Driven(Run(s, first), second)
    ensures Driven(s, first + second) && Run(s, first + second) == Run(Run(s, first), second)
  {
    hide Next, Enabled, Driven, Own, Run;
    if second == [] {
      NoSteps(Run(s, first));
      assert first + second == first;
    } else {
      var init, last := second[..|second| - 1], second[|second| - 1];
      DrivenUpToLast(Run(s, first), second);
      InTurn(s, first, init);
      OneMore(s, first + init, last);
      assert first + second == first + init + [last];
    }
  }

  // A driven trace is legal if the broker delivers in order, whatever else happens in it
  lemma DrivenIsLegal(s: State, trace: seq<Event>, published: set<KafkaPosition>)
    requires Driven(s, trace)
    requires forall i :: 0 <= i < |trace| && (trace[i].ReadAls? || trace[i].ReadLog?) ==>
      Enabled(Run(s, trace[..i]), trace[i], published)
    ensures Legal(s, trace, published) && OwnCommits(trace)
  {
  }

  lemma NoSteps(s: State)
    ensures Driven(s, []) && Run(s, []) == s
  {
  }

  lemma ReadKeepsLimbo(s: State, e: Event)
    requires e.ReadAls? || e.ReadLog? || e.LogsDone?
    ensures Next(s, e).limbo == s.limbo
  {
    hide AddedTo, AddPosition, MarkPosition, MarkTopic;
  }

  // What is left when the levels have been taken has no level
  lemma NothingMore(p: Positions, levels: map<TopicPartition, int>)
    requires AreLevels(p, levels)
    ensures AreLevels(AfterLevels(p, levels), map[])
  {
    var left := AfterLevels(p, levels);
    forall tp | tp in left
      ensures IsLevel(left[tp], None)
    {
      assert IsLevel(p[tp], Find(levels, tp));
      NoLevelAbove(p[tp], Find(levels, tp));
    }
  }

  lemma NoLevelAbove(v: Offsets, level: Option<int>)
    requires IsLevel(v, level)
    ensures IsLevel(Above(v, level), None)
  {
    forall l
      ensures !Committable(Above(v, level), l)
    {
      if l in v && forall k :: k in Above(v, level) && k <= l ==> v[k] {
        assert forall k :: k in v && k <= l && k !in Above(v, level) ==> level.Some? && k <= level.value;
        assert Committable(v, l);
      }
    }
  }

  lemma NoTurns(s: State)
    ensures AreTurns(s, [], []) && Traces([]) == []
  {
  }

  lemma OneMoreTurn(s: State, turns: seq<Turn>, i: nat, parts: seq<TurnTrace>, t: TurnTrace)
    requires i < |turns| && AreTurns(s, turns[..i], parts) && IsTurn(Run(s, Traces(parts)), turns[i], t)
    ensures AreTurns(s, turns[..i + 1], parts + [t]) && Traces(parts + [t]) == Traces(parts) + Whole(t)
  {
    hide IsTurn, Whole, Run;
    var more := parts + [t];
    assert more[..i] == parts && more[i] == t;
    assert forall j :: 0 <= j < i ==> more[..j] == parts[..j] && turns[..i][j] == turns[j];
  }

  // ---- Which turns lose messages ----

  // The batch of the turn is refused, or has a bundle that cannot be taken apart
  ghost predicate IsFailing(s: State, turn: Turn, t: TurnTrace) {
    t.written != [] && (turn.refused || !AllStorable(Run(s, t.taken).held, BatchOf(t.written[0])))
  }

  function BatchOf(e: Event): set<string> {
    if e.WriteDone? || e.WriteFailed? then e.keys else {}
  }

  lemma LosesAppended(a: seq<Event>, b: seq<Event>)
    ensures SomeLoses(a + b) <==> SomeLoses(a) || SomeLoses(b)
  {
    var all := a + b;
    if i :| 0 <= i < |a| && Loses(a[i]) {
      assert Loses(all[i]);
    }
    if i :| 0 <= i < |b| && Loses(b[i]) {
      assert Loses(all[|a| + i]);
    }
    if i :| 0 <= i < |all| && Loses(all[i]) {
      assert if i < |a| then Loses(a[i]) else Loses(b[i - |a|]);
    }
  }

  lemma TurnLoses(s: State, turn: Turn, t: TurnTrace)
    requires IsTurn(s, turn, t)
    ensures SomeLoses(Whole(t)) <==> IsFailing(s, turn, t)
  {
    hide AllRead, SomeYoung, AreLevels, Run, AllStorable, NoneToFetch;
    LosesAppended(t.taken + t.written + t.timedOut, t.committed);
    LosesAppended(t.taken + t.written, t.timedOut);
    LosesAppended(t.taken, t.written);
    assert !SomeLoses(t.taken) && !SomeLoses(t.timedOut) && !SomeLoses(t.committed);
    if t.written != [] {
      assert Loses(t.written[0]) <==> t.written[0].WriteFailed?;
      assert forall i :: 1 <= i < |t.written| ==> !Loses(t.written[i]);
    }
  }

  ghost predicate SomeFails(s: State, turns: seq<Turn>, parts: seq<TurnTrace>) {
    exists i :: 0 <= i < |turns| && i < |parts| && IsFailing(Run(s, Traces(parts[..i])), turns[i], parts[i])
  }

  lemma FailsUpToLast(s: State, turns: seq<Turn>, parts: seq<TurnTrace>)
    requires |turns| == |parts| && turns != []
    ensures var n := |turns| - 1;
      SomeFails(s, turns, parts) <==>
        SomeFails(s, turns[..n], parts[..n]) || IsFailing(Run(s, Traces(parts[..n])), turns[n], parts[n])
  {
    hide IsFailing, Run, Traces;
    var n := |turns| - 1;
    var before := parts[..n];
    assert forall i :: 0 <= i < n ==> before[..i] == parts[..i] && before[i] == parts[i] && turns[..n][i] == turns[i];
    if SomeFails(s, turns[..n], before) {
      var i :| 0 <= i < n && IsFailing(Run(s, Traces(before[..i])), turns[..n][i], before[i]);
      assert IsFailing(Run(s, Traces(parts[..i])), turns[i], parts[i]);
    }
    if SomeFails(s, turns, parts) {
      var i :| 0 <= i < |turns| && IsFailing(Run(s, Traces(parts[..i])), turns[i], parts[i]);
      assert i < n ==> IsFailing(Run(s, Traces(before[..i])), turns[..n][i], before[i]);
    }
  }

  lemma TurnsUpToLast(s: State, turns: seq<Turn>, parts: seq<TurnTrace>)
    requires AreTurns(s, turns, parts) && turns != []
    ensures var n := |turns| - 1;
      && |parts| == |turns| && AreTurns(s, turns[..n], parts[..n])
      && IsTurn(Run(s, Traces(parts[..n])), turns[n], parts[n]) && Traces(parts) == Traces(parts[..n]) + Whole(parts[n])
  {
    hide IsTurn, Run, Whole;
    var n := |turns| - 1;
    var before := parts[..n];
    assert forall i :: 0 <= i < n ==> before[..i] == parts[..i] && before[i] == parts[i] && turns[..n][i] == turns[i];
  }

  lemma NoTurnLoses(s: State, turns: seq<Turn>, parts: seq<TurnTrace>)
    requires AreTurns(s, turns, parts) && turns == []
    ensures !SomeLoses(Traces(parts)) && !SomeFails(s, turns, parts)
  {
  }

  // Over any turns of the loop: a batch is rolled back exactly in the turns whose batch is refused
  // or has a bundle that cannot be taken apart
  lemma {:induction false} TurnsLose(s: State, turns: seq<Turn>, parts: seq<TurnTrace>)
    requires AreTurns(s, turns, parts)
    ensures SomeLoses(Traces(parts)) <==> SomeFails(s, turns, parts)
  {
    hide IsTurn, IsFailing, Whole, Run, AreTurns, SomeLoses, SomeFails, Traces;
    if turns == [] {
      NoTurnLoses(s, turns, parts);
    } else {
      var n := |turns| - 1;
      TurnsUpToLast(s, turns, parts);
      TurnsLose(s, turns[..n], parts[..n]);
      TurnLoses(Run(s, Traces(parts[..n])), turns[n], parts[n]);
      LosesAppended(Traces(parts[..n]), Whole(parts[n]));
      FailsUpToLast(s, turns, parts);
    }
  }

  // ---- Siphons one after the other, each until it ends ----

  // What a siphon did: some turns, and a part of another one
  datatype Session = Session(turns: seq<Turn>, parts: seq<TurnTrace>, rest: seq<Event>)

  function Done(x: Session): seq<Event> {
    Traces(x.parts) + x.rest
  }

  // Everything that was done up to the start of the next siphon
  function History(sessions: seq<Session>): seq<Event> {
    if sessions == [] then [] else History(sessions[..|sessions| - 1]) + Done(sessions[|sessions| - 1]) + [Crash]
  }

  // What a siphon does from state 's', with messages delivered in order
  ghost predicate IsSession(s: State, x: Session, published: set<KafkaPosition>) {
    && AreTurns(s, x.turns, x.parts) && Driven(s, Done(x))
    && forall i :: 0 <= i < |Done(x)| && (Done(x)[i].ReadAls? || Done(x)[i].ReadLog?) ==>
      Enabled(Run(s, Done(x)[..i]), Done(x)[i], published)
  }

  ghost predicate IsSessionAt(sessions: seq<Session>, i: nat, published: set<KafkaPosition>)
    requires i < |sessions|
  {
    IsSession(Run(Start(), History(sessions[..i])), sessions[i], published)
  }

  ghost predicate AreSessions(sessions: seq<Session>, published: set<KafkaPosition>) {
    forall i :: 0 <= i < |sessions| ==> IsSessionAt(sessions, i, published)
  }

  lemma SessionsUpTo(sessions: seq<Session>, published: set<KafkaPosition>)
    requires AreSessions(sessions, published) && sessions != []
    ensures var n := |sessions| - 1;
      AreSessions(sessions[..n], published) && IsSession(Run(Start(), History(sessions[..n])), sessions[n], published)
  {
    hide IsSession, Run, Done, History;
    var n := |sessions| - 1;
    assert IsSessionAt(sessions, n, published);
    forall i | 0 <= i < n
      ensures IsSessionAt(sessions[..n], i, published)
    {
      assert sessions[..n][..i] == sessions[..i] && IsSessionAt(sessions, i, published);
    }
  }

  lemma HistoryOf(sessions: seq<Session>)
    requires sessions != []
    ensures var n := |sessions| - 1; History(sessions) == History(sessions[..n]) + Done(sessions[n]) + [Crash]
  {
    hide Done;
  }

  lemma OwnAppended(a: seq<Event>, b: seq<Event>)
    ensures OwnCommits(a + b) <==> OwnCommits(a) && OwnCommits(b)
    ensures OwnCommits([Crash])
  {
  }

  lemma SessionIsLegal(s: State, x: Session, published: set<KafkaPosition>)
    requires IsSession(s, x, published)
    ensures Legal(s, Done(x), published) && OwnCommits(Done(x))
  {
    hide AreTurns, Done;
    DrivenIsLegal(s, Done(x), published);
  }

  lemma NoHistory(published: set<KafkaPosition>)
    ensures Legal(Start(), History([]), published) && OwnCommits(History([]))
  {
  }

  lemma {:induction false} SessionsAreLegal(sessions: seq<Session>, published: set<KafkaPosition>)
    requires AreSessions(sessions, published)
    ensures Legal(Start(), History(sessions), published) && OwnCommits(History(sessions))
  {
    hide AreSessions, IsSession, Legal, OwnCommits, Run, Next, Done, History;
    if sessions == [] {
      NoHistory(published);
    } else {
      var n := |sessions| - 1;
      var before, last := sessions[..n], sessions[n];
      SessionsUpTo(sessions, published);
      HistoryOf(sessions);
      OwnAppended(History(before), Done(last));
      OwnAppended(History(before) + Done(last), [Crash]);
      SessionsAreLegal(before, published);
      SessionIsLegal(Run(Start(), History(before)), last, published);
      InTurnLegal(Start(), History(before), Done(last), published);
      LegalStep(Start(), History(before) + Done(last), Crash, published);
    }
  }

  // Whatever a siphon and those before it did: everything below a commit level is settled, and no
  // commit has reached a message in memory.
  lemma LoopIsSafe(before: seq<Session>, now: Session, published: set<KafkaPosition>)
    requires forall p :: p in published ==> 0 <= p.offset
    requires AreSessions(before + [now], published)
    ensures var s := Run(Run(Start(), History(before)), Done(now));
      && (forall p :: p in published && p.offset < OffsetAt(s.committed, p.tp) ==> Settled(s, p))
      && (forall k, p :: InHeld(s, k, p) ==> OffsetAt(s.committed, p.tp) <= p.offset)
  {
    hide AreSessions, Legal, Settled, Done, History;
    UpToNow(before, now, published);
    AtLeastOnce(History(before) + Done(now), published);
  }

  lemma UpToNow(before: seq<Session>, now: Session, published: set<KafkaPosition>)
    requires AreSessions(before + [now], published)
    ensures var trace := History(before) + Done(now);
      && Legal(Start(), trace, published) && OwnCommits(trace) && AreSessions(before, published)
      && Run(Start(), trace) == Run(Run(Start(), History(before)), Done(now))
  {
    hide AreSessions, IsSession, Legal, OwnCommits, Run, Next, Done, History;
    OwnAppended(History(before), Done(now));
    var all, n := before + [now], |before|;
    assert all[..n] == before && all[n] == now;
    SessionsUpTo(all, published);
    SessionsAreLegal(before, published);
    SessionIsLegal(Run(Start(), History(before)), now, published);
    InTurnLegal(Start(), History(before), Done(now), published);
  }

  // A session in which a batch was rolled back
  ghost predicate SessionFails(s: State, x: Session) {
    SomeFails(s, x.turns, x.parts) || SomeLoses(x.rest)
  }

  ghost predicate SomeSessionFails(sessions: seq<Session>) {
    exists i :: 0 <= i < |sessions| && SessionFails(Run(Start(), History(sessions[..i])), sessions[i])
  }

  lemma {:induction false} SessionsLose(sessions: seq<Session>, published: set<KafkaPosition>)
    requires AreSessions(sessions, published)
    ensures SomeLoses(History(sessions)) <==> SomeSessionFails(sessions)
  {
    if sessions != [] {
      hide AreSessions, Run, Next, SessionFails, IsSession, SomeLoses, SomeSessionFails, Done, History;
      var n := |sessions| - 1;
      var before, last := sessions[..n], sessions[n];
      SessionsUpTo(sessions, published);
      HistoryOf(sessions);
      SessionsLose(before, published);
      SessionLoses(Run(Start(), History(before)), last, published);
      LosesAppended(History(before) + Done(last), [Crash]);
      LosesAppended(History(before), Done(last));
      CrashLosesNothing();
      LastSessionFails(sessions);
    }
  }

  lemma CrashLosesNothing()
    ensures !SomeLoses([Crash])
  {
  }

  lemma LastSessionFails(sessions: seq<Session>)
    requires sessions != []
    ensures var n := |sessions| - 1;
      SomeSessionFails(sessions) <==>
        SomeSessionFails(sessions[..n]) || SessionFails(Run(Start(), History(sessions[..n])), sessions[n])
  {
    hide Run, SessionFails, Done, History;
    var n := |sessions| - 1;
    var before := sessions[..n];
    assert forall i :: 0 <= i < n ==> before[..i] == sessions[..i] && before[i] == sessions[i];
    if i :| 0 <= i < n && SessionFails(Run(Start(), History(before[..i])), before[i]) {
      assert SessionFails(Run(Start(), History(sessions[..i])), sessions[i]);
    }
    if i :| 0 <= i < |sessions| && SessionFails(Run(Start(), History(sessions[..i])), sessions[i]) {
      assert i < n ==> SessionFails(Run(Start(), History(before[..i])), before[i]);
    }
  }

  lemma SessionLoses(s: State, x: Session, published: set<KafkaPosition>)
    requires IsSession(s, x, published)
    ensures SomeLoses(Done(x)) <==> SessionFails(s, x)
  {
    TurnsLose(s, x.turns, x.parts);
    LosesAppended(Traces(x.parts), x.rest);
  }

  // Messages are lost exactly if in some turn of some siphon the batch is refused, or has a bundle
  // that cannot be taken apart.
  lemma LostExactlyByFailures(before: seq<Session>, now: Session, published: set<KafkaPosition>)
    requires AreSessions(before + [now], published)
    ensures Run(Run(Start(), History(before)), Done(now)).lost == {} <==> !SomeSessionFails(before + [now])
  {
    hide SomeLoses, SomeSessionFails, AreSessions, IsSession, Legal, Run, Done, History;
    var all := before + [now];
    UpToNow(before, now, published);
    HistoryOf(all);
    SessionsLose(all, published);
    assert all[..|before|] == before && all[|before|] == now;
    LosesAppended(History(before) + Done(now), [Crash]);
    CrashLosesNothing();
    NothingLost(Start(), History(before) + Done(now), published);
  }

  // If that does not happen, everything below a commit level is stored, or has a record of why not
  lemma LoopKeepsAll(before: seq<Session>, now: Session, published: set<KafkaPosition>, p: KafkaPosition)
    requires forall p :: p in published ==> 0 <= p.offset
    requires AreSessions(before + [now], published) && !SomeSessionFails(before + [now])
    requires p in published && p.offset < OffsetAt(Run(Run(Start(), History(before)), Done(now)).committed, p.tp)
    ensures Kept(Run(Run(Start(), History(before)), Done(now)), p)
  {
    hide Kept, Legal, SomeSessionFails, AreSessions;
    LostExactlyByFailures(before, now, published);
    LoopIsSafe(before, now, published);
    hide Run;
  }
}
