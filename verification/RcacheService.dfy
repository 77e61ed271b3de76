/** The workers on the table of AFC responses (rcache/rcache_service.py): the updater, the
    invalidator and the precomputer. Each takes turns with the others whenever it waits for the
    database. */
module RcacheWorkers {
  import opened Wrappers
  import opened TileReport
  import opened RcacheDb

  const INVALIDATION_CHUNK_SIZE: nat := 1000

  // What comes in over the update queue
  datatype Arrived = Malformed | NotForCache | ForCache(record: Record)

  function Records(queue: seq<Arrived>): seq<Record> {
    if queue == [] then []
    else
      var last := queue[|queue| - 1];
      Records(queue[..|queue| - 1]) + if last.ForCache? then [last.record] else []
  }

  // Of what comes in, the records for the cache in their order, one after the other
  lemma RecordsOneByOne(queue: seq<Arrived>, a: Arrived)
    ensures Records([]) == []
    ensures a.ForCache? ==> Records(queue + [a]) == Records(queue) + [a.record]
    ensures !a.ForCache? ==> Records(queue + [a]) == Records(queue)
  {
    assert (queue + [a])[..|queue|] == queue;
  }

  // A batch has for each primary key the last record
  predicate IsBulk(bulk: map<ApDbPk, Record>) {
    forall pk :: pk in bulk ==> bulk[pk].pk == pk
  }

  function Written(table: Table, bulk: map<ApDbPk, Record>): Table {
    map pk | pk in table.Keys + bulk.Keys :: if pk in bulk then bulk[pk].row else table[pk]
  }

  lemma WrittenOneMore(table: Table, bulk: map<ApDbPk, Record>, r: Record)
    ensures Written(table, bulk[r.pk := r]) == Written(table, bulk)[r.pk := r.row]
  {
  }

  // The records of a batch, each once, in some order
  ghost predicate Lists(rows: seq<Record>, bulk: map<ApDbPk, Record>) {
    && |rows| == |bulk| && (forall i :: 0 <= i < |rows| ==> rows[i].pk in bulk && bulk[rows[i].pk] == rows[i])
    && forall i, j :: 0 <= i < j < |rows| ==> rows[i].pk != rows[j].pk
  }

  lemma ListsWithoutLast(rows: seq<Record>, bulk: map<ApDbPk, Record>)
    requires Lists(rows, bulk) && rows != []
    ensures var last := rows[|rows| - 1];
      Lists(rows[..|rows| - 1], bulk - {last.pk}) && (bulk - {last.pk})[last.pk := last] == bulk
  {
    WithoutOne(bulk, rows[|rows| - 1]);
  }

  lemma {:induction false} UpsertedIsWritten(table: Table, rows: seq<Record>, bulk: map<ApDbPk, Record>)
    requires Lists(rows, bulk)
    ensures Upserted(table, rows) == Written(table, bulk)
  {
    if rows == [] {
      assert bulk == map[];
    } else {
      hide Upserted, Written, Lists;
      var n := |rows| - 1;
      ListsWithoutLast(rows, bulk);
      UpsertedIsWritten(table, rows[..n], bulk - {rows[n].pk});
      WrittenOneMore(table, bulk - {rows[n].pk}, rows[n]);
      UpsertedLast(table, rows);
    }
  }

  lemma UpsertedLast(table: Table, rows: seq<Record>)
    requires rows != []
    ensures var last := rows[|rows| - 1];
      Upserted(table, rows) == Upserted(table, rows[..|rows| - 1])[last.pk := last.row]
  {
  }

  lemma WithoutOne(bulk: map<ApDbPk, Record>, r: Record)
    requires r.pk in bulk && bulk[r.pk] == r
    ensures |bulk - {r.pk}| == |bulk| - 1 && (bulk - {r.pk})[r.pk := r] == bulk
  {
    var less := bulk - {r.pk};
    assert less.Keys == bulk.Keys - {r.pk};
    assert |less.Keys| == |less| && |bulk.Keys| == |bulk|;
  }

  lemma {:induction false} UpsertedAppended(table: Table, a: seq<Record>, b: seq<Record>)
    ensures Upserted(table, a + b) == Upserted(Upserted(table, a), b)
  {
    if b == [] {
      assert a + b == a;
    } else {
      assert (a + b)[..|a + b| - 1] == a + b[..|b| - 1];
      UpsertedAppended(table, a, b[..|b| - 1]);
    }
  }

  lemma {:induction false} RecordsAppended(a: seq<Arrived>, b: seq<Arrived>)
    ensures Records(a + b) == Records(a) + Records(b)
  {
    if b == [] {
      assert a + b == a;
    } else {
      assert (a + b)[..|a + b| - 1] == a + b[..|b| - 1];
      RecordsAppended(a, b[..|b| - 1]);
    }
  }

  method ValuesOf(bulk: map<ApDbPk, Record>) returns (rows: seq<Record>)
    requires IsBulk(bulk)
    ensures Lists(rows, bulk)
  {
    rows := [];
    var left := bulk.Keys;
    assert |left| == |bulk|;
    while left != {}
      invariant left <= bulk.Keys && |rows| + |left| == |bulk|
      invariant forall i :: 0 <= i < |rows| ==> rows[i].pk in bulk && rows[i].pk !in left && bulk[rows[i].pk] == rows[i]
      invariant forall i, j :: 0 <= i < j < |rows| ==> rows[i].pk != rows[j].pk
    {
      var pk := Pick(left);
      left := left - {pk};
      rows := rows + [bulk[pk]];
    }
  }

  // The updater takes records in batches: as long as there are some in the queue ('paused' says
  // where it was found empty) and the batch is not full. However they are divided into batches,
  // what is in the table at the end is what it would have if they had been written one by one in
  // the order in which they came.
  method UpdaterWorker(db: RcacheDbAsync, queue: seq<Arrived>, paused: set<nat>, enabled: bool)
    requires 0 < db.maxUpdateRecords
    modifies db
    ensures db.table == if enabled then Upserted(old(db.table), Records(queue)) else old(db.table)
  {
    hide Written, Upserted, Records, IsBulk;
    var i := 0;
    NoRecords(db.table);
    while i < |queue|
      invariant i <= |queue|
      invariant db.table == if enabled then Upserted(old(db.table), Records(queue[..i])) else old(db.table)
    {
      ghost var begin, before := i, db.table;
      var bulk;
      bulk, i := TakeBatch(queue, i, paused, db.maxUpdateRecords, db.table);
      if bulk != map[] && enabled {
        var rows := ValuesOf(bulk);
        UpsertedIsWritten(db.table, rows, bulk);
        db.UpdateCache(rows);
      }
      NothingWritten(before, bulk);
      assert queue[..i] == queue[..begin] + queue[begin..i];
      RecordsAppended(queue[..begin], queue[begin..i]);
      UpsertedAppended(old(db.table), Records(queue[..begin]), Records(queue[begin..i]));
    }
    assert queue[..|queue|] == queue;
  }

  lemma NoRecords(table: Table)
    ensures Upserted(table, Records([])) == table
  {
  }

  lemma NothingWritten(table: Table, bulk: map<ApDbPk, Record>)
    ensures bulk == map[] ==> Written(table, bulk) == table
  {
  }

  // One batch, from the first record on; 'table' is that of the database
  method TakeBatch(queue: seq<Arrived>, begin: nat, paused: set<nat>, max: nat, ghost table: Table)
    returns (bulk: map<ApDbPk, Record>, end: nat)
    requires begin < |queue| && 0 < max
    ensures begin < end <= |queue| && IsBulk(bulk) && |bulk| <= max
    ensures Written(table, bulk) == Upserted(table, Records(queue[begin..end]))
  {
    hide Written, Upserted, Records;
    bulk, end := map[], begin;
    NoRecords(table);
    NothingWritten(table, bulk);
    assert queue[begin..begin] == [];
    while true
      invariant begin <= end < |queue| && IsBulk(bulk) && |bulk| < max
      invariant Written(table, bulk) == Upserted(table, Records(queue[begin..end]))
      decreases |queue| - end
    {
      var arrived := queue[end];
      if arrived.ForCache? {
        WrittenOneMore(table, bulk, arrived.record);
        SizeOfOneMore(bulk, arrived.record);
        bulk := bulk[arrived.record.pk := arrived.record];
      }
      OneMoreRecord(table, queue, begin, end);
      end := end + 1;
      if |bulk| == max || end == |queue| || end in paused {
        return;
      }
    }
  }

  lemma SizeOfOneMore(bulk: map<ApDbPk, Record>, r: Record)
    ensures |bulk[r.pk := r]| <= |bulk| + 1
  {
    assert bulk[r.pk := r].Keys == bulk.Keys + {r.pk};
    assert |bulk.Keys| == |bulk| && |bulk[r.pk := r].Keys| == |bulk[r.pk := r]|;
    if r.pk in bulk {
      assert bulk.Keys + {r.pk} == bulk.Keys;
    }
  }

  lemma OneMoreRecord(table: Table, queue: seq<Arrived>, begin: nat, end: nat)
    requires begin <= end < |queue|
    ensures Upserted(table, Records(queue[begin..end + 1])) ==
      var t := Upserted(table, Records(queue[begin..end]));
      if queue[end].ForCache? then t[queue[end].record.pk := queue[end].record.row] else t
  {
    var some, more := queue[begin..end], queue[begin..end + 1];
    assert more[..|more| - 1] == some && more[|more| - 1] == queue[end];
    var records := Records(some);
    if queue[end].ForCache? {
      assert Records(more) == records + [queue[end].record];
      assert (records + [queue[end].record])[..|records|] == records;
    } else {
      assert Records(more) == records + [] == records;
    }
  }

  // ---- Invalidation ----

  lemma NothingMarked(table: Table, state: RespState)
    ensures Marked(table, {}, state) == table
  {
  }

  // ---- Precomputation ----

  // A step of one of the workers, or of a subtask of the precomputer
  datatype Step =
    | Update(rows: seq<Record>)
    | InvalidateRows(ruleset: Option<string>, limit: Option<nat>)
    | InvalidateRect(rect: LatLonRect)
    | SubtaskFailed(pk: ApDbPk)
    | LookAtQuota                     // the precomputer counts the rows that are being precomputed
    | Launch                          // ... and starts as many more as the quota leaves

  // What a step may do to the table
  ghost predicate IsStep(before: Table, e: Step, after: Table) {
    match e
    case Update(rows) => after == Upserted(before, rows)
    case InvalidateRows(ruleset, limit) => exists pks ::
      IsInvalidated(before, ruleset, limit, pks) && after == Marked(before, pks, Invalid)
    case InvalidateRect(rect) => after == Marked(before, ValidInRect(before, rect), Invalid)
    case SubtaskFailed(pk) => after == map k | k in before && k.serialNumber != pk.serialNumber :: before[k]
    case LookAtQuota => after == before
    case Launch => exists pks :: pks <= InState(before, Invalid) && after == Marked(before, pks, Precomp)
  }

  predicate CanRun(e: Step, maxUpdateRecords: nat) {
    e.Update? ==>
      && |e.rows| <= maxUpdateRecords && (forall i :: 0 <= i < |e.rows| ==> e.rows[i].row.state == Valid)
      && forall i, j :: 0 <= i < j < |e.rows| ==> e.rows[i].pk != e.rows[j].pk
  }

  lemma {:induction false} UpsertKeepsPrecomp(table: Table, rows: seq<Record>)
    requires forall i :: 0 <= i < |rows| ==> rows[i].row.state == Valid
    ensures InState(Upserted(table, rows), Precomp) <= InState(table, Precomp)
  {
    if rows != [] {
      UpsertKeepsPrecomp(table, rows[..|rows| - 1]);
    }
  }

  lemma FewerPrecomp(before: Table, after: Table)
    requires InState(after, Precomp) <= InState(before, Precomp)
    ensures |InState(after, Precomp)| <= |InState(before, Precomp)|
  {
    Sizes(InState(after, Precomp), InState(before, Precomp));
  }

  class RcacheService {
    const db: RcacheDbAsync
    const precomputeQuota: nat
    var remainingQuota: Option<nat>   // between looking at the quota and starting more
    var precomputeCount: nat
    var subtasks: seq<string>         // the requests for which a subtask was started
    ghost var launched: seq<ApDbPk>   // and the rows that were marked for that

    // Looking at the quota and starting more are two accesses to the database. In between there
    // may be fewer rows that are being precomputed, but not more.
    ghost predicate Valid()
      reads this, db
    {
      && |InState(db.table, Precomp)| + (if remainingQuota.Some? then remainingQuota.value else 0) <= precomputeQuota
      && precomputeCount == |subtasks| == |launched|
    }

    // Whatever was being precomputed when the service ended is not any more
    constructor (db: RcacheDbAsync, quota: nat)
      modifies db
      ensures this.db == db && precomputeQuota == quota && Valid() && subtasks == [] && remainingQuota == None
      ensures db.table == Marked(old(db.table), InState(old(db.table), Precomp), Invalid)
    {
      this.db, precomputeQuota, remainingQuota, precomputeCount, subtasks := db, quota, None, 0, [];
      launched := [];
      new;
      StatesOfMarked(db.table, InState(db.table, Precomp), Invalid);
      db.ResetPrecomputations();
    }

    method Look()
      requires Valid()
      modifies this`remainingQuota
      ensures Valid() && (remainingQuota.Some? <==> |InState(db.table, Precomp)| < precomputeQuota)
      ensures remainingQuota.Some? ==> remainingQuota.value == precomputeQuota - |InState(db.table, Precomp)|
    {
      var n := db.NumPrecomputing();
      remainingQuota := if precomputeQuota - n <= 0 then None else Some(precomputeQuota - n);
    }

    method StartSubtasks(reqs: seq<string>)
      modifies this`precomputeCount, this`subtasks
      ensures precomputeCount == old(precomputeCount) + |reqs| && subtasks == old(subtasks) + reqs
    {
      for i := 0 to |reqs|
        invariant precomputeCount == old(precomputeCount) + i && subtasks == old(subtasks) + reqs[..i]
      {
        precomputeCount := precomputeCount + 1;
        subtasks := subtasks + [reqs[i]];
      }
      assert reqs[..|reqs|] == reqs;
    }

    // For each row that is marked one subtask is started, with the request of the row
    method LaunchMore(remaining: nat) returns (ghost pks: seq<ApDbPk>)
      requires Valid() && remainingQuota == Some(remaining)
      modifies this`remainingQuota, this`precomputeCount, this`subtasks, this`launched, db
      ensures Valid() && remainingQuota == None && launched == old(launched) + pks
      ensures IsDistinct(pks) && PksOf(pks) <= InState(old(db.table), Invalid)
      ensures db.table == Marked(old(db.table), PksOf(pks), Precomp)
      ensures subtasks == old(subtasks) + RequestsOf(old(db.table), pks)
    {
      hide InState, Marked, PksOf;
      remainingQuota := None;
      ghost var table := db.table;
      var invalidReqs;
      invalidReqs, pks := db.GetInvalidReqs(remaining);
      MoreMarked(table, pks);
      assert invalidReqs == RequestsOf(table, pks);
      StartSubtasks(invalidReqs);
      launched := launched + pks;
    }

    method UpdateRows(rows: seq<Record>)
      requires Valid() && CanRun(Update(rows), db.maxUpdateRecords)
      modifies db
      ensures Valid() && db.table == Upserted(old(db.table), rows)
      ensures InState(db.table, Precomp) <= InState(old(db.table), Precomp)
    {
      UpsertKeepsPrecomp(db.table, rows);
      hide InState, Upserted;
      FewerPrecomp(db.table, Upserted(db.table, rows));
      db.UpdateCache(rows);
    }

    // Invalidation leaves the rows that are being precomputed alone
    method InvalidateSome(ruleset: Option<string>, limit: Option<nat>) returns (count: nat)
      requires Valid()
      modifies db
      ensures Valid() && IsInvalidation(old(db.table), db.table, ruleset)
      ensures IsStep(old(db.table), InvalidateRows(ruleset, limit), db.table)
      ensures InState(db.table, Precomp) == InState(old(db.table), Precomp)
      ensures |InState(db.table, RespState.Valid)| == |InState(old(db.table), RespState.Valid)| - count
      ensures limit.Some? && count == 0 ==> IsDone(db.table, ruleset, limit.value)
    {
      ghost var table := db.table;
      ghost var pks;
      count, pks := db.Invalidate(ruleset, limit);
      assert pks <= InState(table, RespState.Valid);
      InvalidationOf(table, pks);
      FewerValid(table, pks);
      if count == 0 && limit.Some? {
        assert pks == {};
        NothingMarked(table, Invalid);
        NothingLeft(table, ruleset, limit.value);
      }
      hide InState, Marked, ValidOf, IsDone, IsInvalidated;
    }

    // In chunks, until a call finds nothing to do; in between the other workers take steps. Then no
    // valid row is left, or no valid row of the ruleset, unless too many valid rows are of other
    // rulesets.
    method InvalidateInChunks(ruleset: Option<string>, others: seq<seq<Step>>)
      returns (ghost turns: seq<seq<Step>>, ghost tables: seq<Table>)
      requires Valid() && forall i :: 0 <= i < |others| ==> AllCanRun(others[i], db.maxUpdateRecords)
      modifies this, db
      ensures Valid() && IsDone(db.table, ruleset, INVALIDATION_CHUNK_SIZE)
      ensures AreTurns(turns, others) && KeepsTo(tables, precomputeQuota)
      ensures IsTrace(old(db.table), Interleaved(ChunkOf(ruleset), turns) + [ChunkOf(ruleset)], tables, db.table)
      ensures others == [] ==> IsInvalidation(old(db.table), db.table, ruleset)
    {
      hide IsStep, InState, IsDone, CanRun, AllCanRun, IsInvalidation, IsTrace, KeepsTo, Interleaved;
      turns, tables := [], [db.table];
      Beginning(db.table, ruleset, precomputeQuota);
      var k := 0;
      ghost var steps: seq<Step> := [];
      var count := 1;
      while count != 0
        invariant Valid() && k == |turns| && AreTurns(turns, others)
        invariant steps == Interleaved(ChunkOf(ruleset), turns) + if count == 0 then [ChunkOf(ruleset)] else []
        invariant IsTrace(old(db.table), steps, tables, db.table) && KeepsTo(tables, precomputeQuota)
        invariant count == 0 ==> IsDone(db.table, ruleset, INVALIDATION_CHUNK_SIZE)
        invariant others == [] ==> IsInvalidation(old(db.table), db.table, ruleset)
        decreases if k < |others| then |others| - k else 0, |InState(db.table, RespState.Valid)|, count
      {
        ghost var before := db.table;
        count := InvalidateSome(ruleset, Some(INVALIDATION_CHUNK_SIZE));
        if others == [] {
          TwoInvalidations(old(db.table), before, db.table, ruleset);
        }
        OneMoreStep(old(db.table), steps, tables, before, ChunkOf(ruleset), db.table, precomputeQuota);
        steps, tables := steps + [ChunkOf(ruleset)], tables + [db.table];
        if count != 0 {
          ghost var turn: seq<Step>, more, middle := [], [db.table], db.table;
          Beginning(db.table, ruleset, precomputeQuota);
          if k < |others| {
            turn := others[k];
            more := Run(others[k]);
          }
          JoinTraces(old(db.table), steps, tables, middle, turn, more, db.table, precomputeQuota);
          InterleavedMore(ChunkOf(ruleset), turns, turn);
          steps, tables := steps + turn, tables + more[1..];
          turns, k := turns + [turn], k + 1;
        }
      }
    }

    method InvalidateIn(rect: LatLonRect)
      requires Valid()
      modifies db
      ensures Valid() && IsInvalidation(old(db.table), db.table, None)
      ensures InState(db.table, Precomp) == InState(old(db.table), Precomp)
      ensures db.table == Marked(old(db.table), ValidInRect(old(db.table), rect), Invalid)
    {
      InvalidationOf(db.table, ValidInRect(db.table, rect));
      hide InState, Marked, ValidInRect;
      db.SpatialInvalidate(rect);
    }

    method RemoveFailed(pk: ApDbPk)
      requires Valid()
      modifies db
      ensures Valid() && InState(db.table, Precomp) <= InState(old(db.table), Precomp)
      ensures IsStep(old(db.table), SubtaskFailed(pk), db.table)
    {
      ghost var table := db.table;
      db.Delete(pk);
      assert InState(db.table, Precomp) <= InState(table, Precomp);
      hide InState;
      FewerPrecomp(table, db.table);
    }

    // Only the precomputer marks rows, and only the updater and failing subtasks take the mark
    // away
    method TakeStep(e: Step)
      requires Valid() && CanRun(e, db.maxUpdateRecords)
      modifies this, db
      ensures Valid() && old(subtasks) <= subtasks && IsStep(old(db.table), e, db.table)
      ensures e.InvalidateRows? ==> IsInvalidation(old(db.table), db.table, e.ruleset)
      ensures e.InvalidateRect? ==> IsInvalidation(old(db.table), db.table, None)
      ensures !e.Launch? ==> InState(db.table, Precomp) <= InState(old(db.table), Precomp) && subtasks == old(subtasks)
      ensures e.Launch? ==>
        |InState(db.table, Precomp)| == |InState(old(db.table), Precomp)| + |subtasks| - |old(subtasks)|
    {
      hide InState, Marked, Valid, Upserted, IsInvalidation;
      NothingMarked(db.table, Precomp);
      match e
      case Update(rows) => UpdateRows(rows);
      case InvalidateRows(ruleset, limit) => var count := InvalidateSome(ruleset, limit);
      case InvalidateRect(rect) => InvalidateIn(rect);
      case SubtaskFailed(pk) => RemoveFailed(pk);
      case LookAtQuota => Look();
      case Launch =>
        if remainingQuota.Some? {
          ghost var table := db.table;
          ghost var pks := LaunchMore(remainingQuota.value);
          MoreMarked(table, pks);
        }
    }

    // In every order of the steps of the workers, the number of rows that are being precomputed
    // keeps to the quota, in all the states between them.
    method Run(steps: seq<Step>) returns (ghost tables: seq<Table>)
      requires Valid() && AllCanRun(steps, db.maxUpdateRecords)
      modifies this, db
      ensures Valid() && old(subtasks) <= subtasks && |subtasks| == |launched|
      ensures |tables| == |steps| + 1 && IsTrace(old(db.table), steps, tables, db.table)
      ensures KeepsTo(tables, precomputeQuota)
    {
      hide IsStep, InState;
      tables := [db.table];
      for i := 0 to |steps|
        invariant Valid() && old(subtasks) <= subtasks
        invariant IsTrace(old(db.table), steps[..i], tables, db.table)
        invariant KeepsTo(tables, precomputeQuota)
      {
        ghost var before := db.table;
        TakeStep(steps[i]);
        OneMoreStep(old(db.table), steps[..i], tables, before, steps[i], db.table, precomputeQuota);
        assert steps[..i + 1] == steps[..i] + [steps[i]];
        tables := tables + [db.table];
      }
      assert steps[..|steps|] == steps;
    }
  }

  // ---- Sequences of steps ----

  // The tables before, between and after the steps
  ghost predicate IsTrace(before: Table, steps: seq<Step>, tables: seq<Table>, after: Table) {
    && |tables| == |steps| + 1 && tables[0] == before && tables[|steps|] == after
    && forall i :: 0 <= i < |steps| ==> IsStep(tables[i], steps[i], tables[i + 1])
  }

  // In all of them the number of rows that are being precomputed keeps to the quota
  ghost predicate KeepsTo(tables: seq<Table>, quota: nat) {
    forall i :: 0 <= i < |tables| ==> |InState(tables[i], Precomp)| <= quota
  }

  lemma OneMoreStep(before: Table, steps: seq<Step>, tables: seq<Table>, middle: Table, e: Step, after: Table,
                    quota: nat)
    requires IsTrace(before, steps, tables, middle) && IsStep(middle, e, after)
    requires KeepsTo(tables, quota) && |InState(after, Precomp)| <= quota
    ensures IsTrace(before, steps + [e], tables + [after], after) && KeepsTo(tables + [after], quota)
  {
    hide IsStep, InState;
  }

  lemma JoinTraces(before: Table, steps: seq<Step>, tables: seq<Table>,
                   middle: Table, more: seq<Step>, others: seq<Table>, after: Table, quota: nat)
    requires IsTrace(before, steps, tables, middle) && IsTrace(middle, more, others, after)
    requires KeepsTo(tables, quota) && KeepsTo(others, quota)
    ensures IsTrace(before, steps + more, tables + others[1..], after) && KeepsTo(tables + others[1..], quota)
  {
    hide IsStep, InState;
    var all, joined := steps + more, tables + others[1..];
    forall i | 0 <= i < |all|
      ensures IsStep(joined[i], all[i], joined[i + 1])
    {
      if i >= |steps| {
        var k := i - |steps|;
        assert joined[i] == others[k] && joined[i + 1] == others[k + 1] && all[i] == more[k];
      }
    }
  }

  // What the others do between the calls of the invalidator; at last nothing
  ghost predicate AreTurns(turns: seq<seq<Step>>, others: seq<seq<Step>>) {
    forall i :: 0 <= i < |turns| ==> turns[i] == if i < |others| then others[i] else []
  }

  lemma InterleavedMore(e: Step, turns: seq<seq<Step>>, turn: seq<Step>)
    ensures Interleaved(e, turns + [turn]) == Interleaved(e, turns) + [e] + turn
  {
    assert (turns + [turn])[..|turns|] == turns;
  }

  lemma Beginning(table: Table, ruleset: Option<string>, quota: nat)
    requires |InState(table, Precomp)| <= quota
    ensures IsTrace(table, [], [table], table) && KeepsTo([table], quota)
    ensures Interleaved(ChunkOf(ruleset), []) == [] && IsInvalidation(table, table, ruleset)
  {
  }

  // One chunk of the invalidator
  function ChunkOf(ruleset: Option<string>): Step {
    InvalidateRows(ruleset, Some(INVALIDATION_CHUNK_SIZE))
  }

  // A step before each of the turns of the others
  function Interleaved(e: Step, turns: seq<seq<Step>>): seq<Step> {
    if turns == [] then [] else Interleaved(e, turns[..|turns| - 1]) + [e] + turns[|turns| - 1]
  }

  predicate AllCanRun(steps: seq<Step>, maxUpdateRecords: nat) {
    forall i :: 0 <= i < |steps| ==> CanRun(steps[i], maxUpdateRecords)
  }

  // No row is left to invalidate, or valid rows of other rulesets hide those that are left
  ghost predicate IsDone(table: Table, ruleset: Option<string>, limit: nat) {
    if ruleset.None? || ruleset.value == "" then
      limit == 0 || forall pk :: pk in table ==> table[pk].state != RespState.Valid
    else
      || (forall pk :: pk in table && table[pk].configRuleset == ruleset.value ==> table[pk].state != RespState.Valid)
      || limit <= |set pk | pk in table && table[pk].state == RespState.Valid
           && table[pk].configRuleset != ruleset.value|
  }

  lemma NothingLeft(table: Table, ruleset: Option<string>, limit: nat)
    requires IsLimited(table, ruleset, limit, {})
    ensures IsDone(table, ruleset, limit)
  {
    ValidByName(table, ruleset);
    NothingLimited(table, ruleset, limit);
    var valid, mine := InState(table, RespState.Valid), ValidOf(table, ruleset);
    assert forall pk :: pk in table && table[pk].state == RespState.Valid ==> pk in valid;
    if ruleset.Some? && ruleset.value != "" {
      assert forall pk :: pk in valid && table[pk].configRuleset == ruleset.value ==> pk in mine;
      assert valid - mine
        == set pk | pk in table && table[pk].state == RespState.Valid && table[pk].configRuleset != ruleset.value;
    } else {
      assert valid - mine == {};
    }
  }

  predicate IsDistinct(pks: seq<ApDbPk>) {
    forall i, j :: 0 <= i < j < |pks| ==> pks[i] != pks[j]
  }

  function RequestsOf(table: Table, pks: seq<ApDbPk>): seq<string> {
    seq(|pks|, i requires 0 <= i < |pks| => if pks[i] in table then table[pks[i]].request else "")
  }

  // Valid rows have become invalid, only those of the ruleset if one is named, and nothing else has changed
  ghost predicate IsInvalidation(before: Table, after: Table, ruleset: Option<string>) {
    after.Keys == before.Keys && forall pk :: pk in after && after[pk] != before[pk] ==>
      && before[pk].state == Valid && after[pk] == before[pk].(state := Invalid)
      && (ruleset.None? || ruleset.value == "" || before[pk].configRuleset == ruleset.value)
  }

  lemma TwoInvalidations(before: Table, middle: Table, after: Table, ruleset: Option<string>)
    requires IsInvalidation(before, middle, ruleset) && IsInvalidation(middle, after, ruleset)
    ensures IsInvalidation(before, after, ruleset)
  {
  }

  lemma FewerValid(table: Table, pks: set<ApDbPk>)
    requires pks <= InState(table, RespState.Valid)
    ensures |InState(Marked(table, pks, Invalid), RespState.Valid)| == |InState(table, RespState.Valid)| - |pks|
  {
    StatesOfMarked(table, pks, Invalid);
    Sizes(pks, InState(table, RespState.Valid));
    assert InState(table, RespState.Valid) == (InState(table, RespState.Valid) - pks) + pks;
  }

  lemma InvalidationOf(table: Table, pks: set<ApDbPk>)
    requires forall pk :: pk in pks ==> pk in table && table[pk].state == Valid
    ensures IsInvalidation(table, Marked(table, pks, Invalid), None)
    ensures InState(Marked(table, pks, Invalid), Precomp) == InState(table, Precomp)
  {
    StatesOfMarked(table, pks, Invalid);
  }

  lemma MoreMarked(table: Table, pks: seq<ApDbPk>)
    requires PksOf(pks) <= InState(table, Invalid) && IsDistinct(pks)
    ensures |InState(Marked(table, PksOf(pks), Precomp), Precomp)| == |InState(table, Precomp)| + |pks|
  {
    StatesOfMarked(table, PksOf(pks), Precomp);
    SizeOfDistinct(pks);
    assert InState(table, Precomp) !! PksOf(pks);
  }
}
