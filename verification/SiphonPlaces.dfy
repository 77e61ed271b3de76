/** Where bundles and messages end up, by the events of a run: in the database, in the decode error table, or
    nowhere (class Siphon of als/als_siphon.py) */
module SiphonPlaces {
  import opened Wrappers
  import opened KafkaOffsets
  import opened AlsBundle
  import opened BundleObject
  import opened IncompleteBundles
  import opened SiphonProtocol
  import opened SiphonRuns

  // Tables of bundles: stored, recorded as incomplete, and rolled back
  datatype Shelf = Stored | Incomplete | RolledBack

  function On(s: State, shelf: Shelf): set<Bundle> {
    match shelf
    case Stored => s.database
    case Incomplete => s.dropped
    case RolledBack => s.lost
  }

  ghost predicate IsHeldAs(s: State, k: string, b: Bundle) {
    k in s.held && s.held[k] == b
  }

  // A write that succeeds stores the bundles of its batch, one that fails rolls them back, and a bundle that is
  // timed out is recorded as incomplete
  ghost predicate Puts(s: State, e: Event, shelf: Shelf, b: Bundle) {
    match shelf
    case Stored => e.WriteDone? && exists k :: k in e.keys && IsHeldAs(s, k, b)
    case Incomplete => e.TimeOut? && IsHeldAs(s, e.key, b)
    case RolledBack => e.WriteFailed? && exists k :: k in e.keys && IsHeldAs(s, k, b)
  }

  lemma ShelfStep(s: State, e: Event, shelf: Shelf, b: Bundle)
    ensures b in On(Next(s, e), shelf) <==> b in On(s, shelf) || Puts(s, e, shelf, b)
  {
    hide AddedTo, AddPosition, MarkPosition, MarkTopic, MarkAllOf, AfterLevels, KeyedOf;
  }

  ghost predicate PutsAt(s: State, trace: seq<Event>, shelf: Shelf, b: Bundle, i: int) {
    0 <= i < |trace| && Puts(Run(s, trace[..i]), trace[i], shelf, b)
  }

  ghost predicate SomePuts(s: State, trace: seq<Event>, shelf: Shelf, b: Bundle) {
    exists i :: PutsAt(s, trace, shelf, b, i)
  }

  lemma PutsUpToLast(s: State, trace: seq<Event>, shelf: Shelf, b: Bundle)
    requires trace != []
    ensures var n := |trace| - 1;
      SomePuts(s, trace, shelf, b) <==>
        SomePuts(s, trace[..n], shelf, b) || Puts(Run(s, trace[..n]), trace[n], shelf, b)
  {
    hide Puts, Run;
    var n := |trace| - 1;
    assert forall i :: 0 <= i < n ==> trace[..n][..i] == trace[..i] && trace[..n][i] == trace[i];
    if SomePuts(s, trace, shelf, b) {
      var i :| PutsAt(s, trace, shelf, b, i);
      assert i < n ==> PutsAt(s, trace[..n], shelf, b, i);
    }
    if SomePuts(s, trace[..n], shelf, b) {
      var i :| PutsAt(s, trace[..n], shelf, b, i);
      assert PutsAt(s, trace, shelf, b, i);
    }
    if Puts(Run(s, trace[..n]), trace[n], shelf, b) {
      assert PutsAt(s, trace, shelf, b, n);
    }
  }

  lemma NothingPut(shelf: Shelf, b: Bundle)
    ensures b !in On(Start(), shelf) && Run(Start(), []) == Start() && !SomePuts(Start(), [], shelf, b)
  {
  }

  // A bundle is stored, recorded or rolled back exactly if some event of the run did that to it
  lemma {:induction false} IsOnShelfExactly(trace: seq<Event>, shelf: Shelf, b: Bundle)
    ensures b in On(Run(Start(), trace), shelf) <==> SomePuts(Start(), trace, shelf, b)
  {
    hide *;
    if trace == [] {
      NothingPut(shelf, b);
    } else {
      var n := |trace| - 1;
      RunUpToLast(Start(), trace, {});
      IsOnShelfExactly(trace[..n], shelf, b);
      ShelfStep(Run(Start(), trace[..n]), trace[n], shelf, b);
      PutsUpToLast(Start(), trace, shelf, b);
    }
  }

  // ---- Messages ----

  // The envelope is malformed, or the bundle of its key raises for the message
  ghost predicate Rejects(s: State, e: Event, p: KafkaPosition) {
    e.ReadAls? && e.position == p
    && (e.message.None? || Step(HeldOrNew(s, e.key, e.now), Arrival(e.message.value, p, e.now)).1 == Rejected)
  }

  function HeldOrNew(s: State, key: string, now: int): Bundle {
    if key in s.held then s.held[key] else EmptyBundle(now)
  }

  // The topic is marked while the message is tracked
  ghost predicate Logs(s: State, e: Event, p: KafkaPosition) {
    e == LogsDone(p.tp.topic) && Tracks(s.tracked, p)
  }

  // Records are only added: of a message that is rejected, and of a log message when its topic is marked
  lemma RecordStep(s: State, e: Event, p: KafkaPosition)
    ensures p in Next(s, e).rejected <==> p in s.rejected || Rejects(s, e, p)
    ensures p in Next(s, e).logged <==> p in s.logged || Logs(s, e, p)
  {
    hide AddPosition, MarkPosition, MarkTopic, MarkAllOf, AfterLevels, KeyedOf, BundlesOf;
    match e
    case ReadAls(position, key, message, now) => hide Updated;
    case LogsDone(topic) =>
    case _ => hide AddedTo;
  }

  // A message goes into the bundle of its key, a new one if there is none, and no other bundle changes
  lemma HeldStep(s: State, e: Event)
    ensures e.ReadAls? && e.message.Some? ==>
      && Next(s, e).held.Keys == s.held.Keys + {e.key}
      && Next(s, e).held[e.key] == Step(HeldOrNew(s, e.key, e.now), Arrival(e.message.value, e.position, e.now)).0
      && forall k :: k in s.held && k != e.key ==> Next(s, e).held[k] == s.held[k]
    ensures e.WriteDone? || e.WriteFailed? ==> Next(s, e).held == s.held - e.keys
    ensures e.TimeOut? ==> Next(s, e).held == s.held - {e.key}
    ensures e.Crash? ==> Next(s, e).held == map[]
    ensures e.ReadLog? || e.LogsDone? || e.Release? || e.Commit? || e.LibraryCommit? ==> Next(s, e).held == s.held
    ensures e.ReadAls? && e.message.None? ==> Next(s, e).held == s.held
  {
    hide AddPosition, MarkPosition, MarkTopic, MarkAllOf, AfterLevels, KeyedOf, BundlesOf, Updated;
  }
}
