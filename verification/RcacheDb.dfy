/** The table of AFC responses (rcache/rcache_db_async.py): what each of the statements that are
    executed on it does */
module RcacheDb {
  import opened Wrappers
  import opened TileReport

  datatype ApDbPk = ApDbPk(serialNumber: string, rulesets: string, certIds: string)

  datatype RespState = Valid | Invalid | Precomp

  datatype Row = Row(state: RespState, configRuleset: string, lat: real, lon: real, request: string, response: string)

  datatype Record = Record(pk: ApDbPk, row: Row)

  type Table = map<ApDbPk, Row>

  function InState(table: Table, state: RespState): set<ApDbPk> {
    set pk | pk in table && table[pk].state == state
  }

  // One record after the other is written, over the one with the same primary key
  function Upserted(table: Table, records: seq<Record>): Table {
    if records == [] then table
    else
      var last := records[|records| - 1];
      Upserted(table, records[..|records| - 1])[last.pk := last.row]
  }

  predicate IsLastRecord(records: seq<Record>, k: int) {
    0 <= k < |records| && forall j :: k < j < |records| ==> records[j].pk != records[k].pk
  }

  // Of several records with one primary key the last one stays; rows without a record are what they were
  lemma {:induction false} UpsertedExactly(table: Table, records: seq<Record>)
    ensures forall k :: IsLastRecord(records, k) ==>
      records[k].pk in Upserted(table, records) && Upserted(table, records)[records[k].pk] == records[k].row
    ensures forall pk :: (forall k :: 0 <= k < |records| ==> records[k].pk != pk) ==>
      (pk in Upserted(table, records) <==> pk in table)
      && (pk in table ==> Upserted(table, records)[pk] == table[pk])
  {
    if records != [] {
      var n := |records| - 1;
      UpsertedExactly(table, records[..n]);
      forall k | IsLastRecord(records, k)
        ensures records[k].pk in Upserted(table, records)
        ensures Upserted(table, records)[records[k].pk] == records[k].row
      {
        if k < n {
          assert records[n].pk != records[k].pk;
          assert IsLastRecord(records[..n], k);
        }
      }
    }
  }

  // Rows get another state
  function Marked(table: Table, pks: set<ApDbPk>, state: RespState): Table {
    map pk | pk in table :: if pk in pks then table[pk].(state := state) else table[pk]
  }

  // Longitudes 360 degrees away are the same
  predicate InRect(row: Row, rect: LatLonRect) {
    && rect.minLat <= row.lat <= rect.maxLat
    && ((rect.minLon <= row.lon <= rect.maxLon)
        || (rect.minLon - 360.0 <= row.lon <= rect.maxLon - 360.0)
        || (rect.minLon + 360.0 <= row.lon <= rect.maxLon + 360.0))
  }

  // The row is in the rectangle, after however many turns of 360 degrees
  predicate IsTurnedInto(row: Row, rect: LatLonRect, turns: int) {
    rect.minLat <= row.lat <= rect.maxLat && rect.minLon <= row.lon + 360.0 * turns as real <= rect.maxLon
  }

  ghost predicate IsInModulo360(row: Row, rect: LatLonRect) {
    exists turns :: IsTurnedInto(row, rect, turns)
  }

  predicate IsProper(row: Row) {
    -180.0 <= row.lon <= 180.0
  }

  predicate ReachesProper(rect: LatLonRect) {
    rect.minLon <= 180.0 && -180.0 <= rect.maxLon
  }

  // One turn in each direction is enough, if the rectangle reaches into the proper longitudes
  lemma OneTurnIsEnough(row: Row, rect: LatLonRect)
    ensures InRect(row, rect) ==> IsInModulo360(row, rect)
    ensures IsProper(row) && ReachesProper(rect) && IsInModulo360(row, rect) ==> InRect(row, rect)
  {
    var near := IsTurnedInto(row, rect, 0) || IsTurnedInto(row, rect, 1) || IsTurnedInto(row, rect, -1);
    assert near <==> InRect(row, rect);
    if turns :| IsTurnedInto(row, rect, turns) {
      if turns >= 2 {
        assert 360.0 * turns as real >= 720.0;
      } else if turns <= -2 {
        assert 360.0 * turns as real <= -720.0;
      }
    }
  }

  function ValidInRect(table: Table, rect: LatLonRect): set<ApDbPk> {
    set pk | pk in table && table[pk].state == Valid && InRect(table[pk], rect)
  }

  predicate OfRuleset(row: Row, ruleset: Option<string>) {
    ruleset.None? || ruleset.value == "" || row.configRuleset == ruleset.value
  }

  function ValidOf(table: Table, ruleset: Option<string>): set<ApDbPk> {
    set pk | pk in table && table[pk].state == Valid && OfRuleset(table[pk], ruleset)
  }

  // With a limit, so many valid rows are looked at, of whatever ruleset
  ghost predicate IsLimited(table: Table, ruleset: Option<string>, limit: nat, pks: set<ApDbPk>) {
    var valid := InState(table, Valid);
    exists from :: from <= valid && |from| == (if |valid| < limit then |valid| else limit)
      && pks == from * ValidOf(table, ruleset)
  }

  // What may be invalidated
  ghost predicate IsInvalidated(table: Table, ruleset: Option<string>, limit: Option<nat>, pks: set<ApDbPk>) {
    if limit.None? then pks == ValidOf(table, ruleset) else IsLimited(table, ruleset, limit.value, pks)
  }

  // The valid rows of a ruleset, by its name, or all valid rows if there is no name
  lemma ValidByName(table: Table, ruleset: Option<string>)
    ensures ruleset.Some? && ruleset.value != "" ==>
      ValidOf(table, ruleset) == set pk | pk in table && table[pk].state == Valid
        && table[pk].configRuleset == ruleset.value
    ensures ruleset.None? || ruleset.value == "" ==> ValidOf(table, ruleset) == InState(table, Valid)
  {
  }

  // No row was invalidated: that means that no row of the ruleset is left to invalidate, unless there
  // are as many valid rows of other rulesets as the limit allows to look at
  lemma NothingMeansDone(table: Table, ruleset: string, limit: nat)
    requires ruleset != ""
    ensures var mine := set pk | pk in table && table[pk].state == Valid && table[pk].configRuleset == ruleset;
      var others := set pk | pk in table && table[pk].state == Valid && table[pk].configRuleset != ruleset;
      (IsLimited(table, Some(ruleset), limit, {}) ==> mine == {}) <==> mine == {} || |others| < limit
  {
    ValidByName(table, Some(ruleset));
    var mine := set pk | pk in table && table[pk].state == Valid && table[pk].configRuleset == ruleset;
    assert InState(table, Valid) - mine
      == set pk | pk in table && table[pk].state == Valid && table[pk].configRuleset != ruleset;
    NothingLimited(table, Some(ruleset), limit);
  }

  lemma NothingLimited(table: Table, ruleset: Option<string>, limit: nat)
    ensures (IsLimited(table, ruleset, limit, {}) ==> ValidOf(table, ruleset) == {})
      <==> ValidOf(table, ruleset) == {} || |InState(table, Valid) - ValidOf(table, ruleset)| < limit
  {
    var valid, mine := InState(table, Valid), ValidOf(table, ruleset);
    assert mine <= valid;
    hide InState, ValidOf;
    if IsLimited(table, ruleset, limit, {}) {
      var from :| from <= valid && |from| == (if |valid| < limit then |valid| else limit) && {} == from * mine;
      assert from <= valid - mine;
      Sizes(from, valid - mine);
      Sizes(from, valid);
    }
    if limit <= |valid - mine| {
      var from := SubsetOf(valid - mine, limit);
      Sizes(valid - mine, valid);
      assert {} == from * mine;
      assert IsLimited(table, ruleset, limit, {});
    }
  }

  lemma {:induction false} SubsetOf(s: set<ApDbPk>, n: nat) returns (part: set<ApDbPk>)
    requires n <= |s|
    ensures part <= s && |part| == n
  {
    part := s;
    while |part| > n
      invariant part <= s && n <= |part|
    {
      var pk :| pk in part;
      part := part - {pk};
    }
  }

  function PksOf(s: seq<ApDbPk>): set<ApDbPk> {
    set pk | pk in s
  }

  lemma Sizes(a: set<ApDbPk>, b: set<ApDbPk>)
    requires a <= b
    ensures |a| <= |b| && (|a| == |b| ==> a == b)
  {
    assert b == a + (b - a);
  }

  lemma StatesOfMarked(table: Table, pks: set<ApDbPk>, state: RespState)
    requires pks <= table.Keys
    ensures InState(Marked(table, pks, state), state) == InState(table, state) + pks
    ensures forall other :: other != state ==> InState(Marked(table, pks, state), other) == InState(table, other) - pks
  {
  }

  lemma EachInOneState(table: Table)
    ensures |InState(table, Precomp)| + |InState(table, Valid)| + |InState(table, Invalid)| == |table|
  {
    var a, b, c := InState(table, Precomp), InState(table, Valid), InState(table, Invalid);
    assert a !! b && a !! c && b !! c && a + b + c == table.Keys;
    assert |table.Keys| == |table|;
  }

  lemma MarkedPerRow(table: Table, ruleset: Option<string>, rows: set<ApDbPk>)
    requires rows <= ValidOf(table, ruleset)
    ensures var after := Marked(table, rows, Invalid);
      && after.Keys == table.Keys && rows == (set pk | pk in after && after[pk] != table[pk])
      && (forall pk :: pk in after && after[pk] != table[pk] ==>
            && table[pk].state == Valid && after[pk] == table[pk].(state := Invalid)
            && (ruleset.Some? && ruleset.value != "" ==> table[pk].configRuleset == ruleset.value))
      && (rows == ValidOf(table, ruleset) ==> forall pk :: pk in after && after[pk].state == Valid ==>
            ruleset.Some? && ruleset.value != "" && after[pk].configRuleset != ruleset.value)
  {
  }

  class RcacheDbAsync {
    var table: Table
    const maxUpdateRecords: nat

    constructor (table: Table, maxUpdateRecords: nat)
      ensures this.table == table && this.maxUpdateRecords == maxUpdateRecords
    {
      this.table, this.maxUpdateRecords := table, maxUpdateRecords;
    }

    // The same row twice in one statement is an error of the database
    method UpdateCache(rows: seq<Record>)
      requires |rows| <= maxUpdateRecords
      requires forall i, j :: 0 <= i < j < |rows| ==> rows[i].pk != rows[j].pk
      modifies this
      ensures table == Upserted(old(table), rows)
      ensures forall i :: 0 <= i < |rows| ==> rows[i].pk in table && table[rows[i].pk] == rows[i].row
    {
      UpsertedExactly(table, rows);
      assert forall i :: 0 <= i < |rows| ==> IsLastRecord(rows, i);
      for i := 0 to |rows|
        invariant table == Upserted(old(table), rows[..i])
      {
        assert rows[..i + 1][..i] == rows[..i];
        table := table[rows[i].pk := rows[i].row];
      }
      assert rows[..|rows|] == rows;
    }

    // As many as there are, up to a limit
    method Select(from: set<ApDbPk>, limit: nat) returns (chosen: seq<ApDbPk>)
      ensures forall i, j :: 0 <= i < j < |chosen| ==> chosen[i] != chosen[j]
      ensures PksOf(chosen) <= from
      ensures |chosen| == if |from| < limit then |from| else limit
    {
      chosen := [];
      var left := from;
      while left != {} && |chosen| < limit
        invariant left <= from && (forall pk :: pk in chosen ==> pk in from && pk !in left)
        invariant forall i, j :: 0 <= i < j < |chosen| ==> chosen[i] != chosen[j]
        invariant |chosen| + |left| == |from| && |chosen| <= limit
        decreases |left|
      {
        var pk := Pick(left);
        left := left - {pk};
        chosen := chosen + [pk];
      }
    }

    // Of the valid rows all, or, with a limit, some of them, which are then looked at for the
    // ruleset
    method Invalidate(ruleset: Option<string>, limit: Option<nat>) returns (count: nat, ghost pks: set<ApDbPk>)
      modifies this
      ensures IsInvalidated(old(table), ruleset, limit, pks)
      ensures pks <= ValidOf(old(table), ruleset) && table == Marked(old(table), pks, Invalid) && count == |pks|
      ensures table.Keys == old(table).Keys && count == |set pk | pk in table && table[pk] != old(table)[pk]|
      ensures forall pk :: pk in table && table[pk] != old(table)[pk] ==>
        var was := old(table)[pk];
        && was.state == Valid && table[pk] == was.(state := Invalid)
        && (ruleset.Some? && ruleset.value != "" ==> was.configRuleset == ruleset.value)
      ensures limit.None? ==> forall pk :: pk in table && table[pk].state == Valid ==>
        ruleset.Some? && ruleset.value != "" && table[pk].configRuleset != ruleset.value
      ensures limit.Some? && (ruleset.None? || ruleset.value == "") ==>
        var n := |InState(old(table), Valid)|; count == if n < limit.value then n else limit.value
    {
      var from := InState(table, Valid);
      if limit.Some? {
        var chosen := Select(from, limit.value);
        SizeOfDistinct(chosen);
        from := PksOf(chosen);
      }
      var rows := set pk | pk in from && OfRuleset(table[pk], ruleset);
      assert rows == from * ValidOf(table, ruleset);
      assert limit.Some? ==> IsLimited(table, ruleset, limit.value, rows);
      MarkedPerRow(table, ruleset, rows);
      assert (ruleset.None? || ruleset.value == "") && limit.Some? ==> rows == from;
      hide InState, Marked, ValidOf, OfRuleset, IsLimited, PksOf;
      table := Marked(table, rows, Invalid);
      count, pks := |rows|, rows;
    }

    // The valid rows in the rectangle, with longitudes modulo 360, become invalid; all other rows are
    // what they were
    method SpatialInvalidate(rect: LatLonRect)
      modifies this
      ensures table == Marked(old(table), ValidInRect(old(table), rect), Invalid)
      ensures table.Keys == old(table).Keys
      ensures forall pk :: pk in table && IsProper(table[pk]) && ReachesProper(rect) ==>
        var was := old(table)[pk];
        table[pk] == if was.state == Valid && IsInModulo360(was, rect) then was.(state := Invalid) else was
      ensures forall pk :: pk in table && table[pk] != old(table)[pk] ==>
        var was := old(table)[pk];
        was.state == Valid && IsInModulo360(was, rect) && table[pk] == was.(state := Invalid)
    {
      forall pk | pk in table
        ensures InRect(table[pk], rect) ==> IsInModulo360(table[pk], rect)
        ensures IsProper(table[pk]) && ReachesProper(rect) && IsInModulo360(table[pk], rect) ==> InRect(table[pk], rect)
      {
        OneTurnIsEnough(table[pk], rect);
      }
      hide InRect, IsInModulo360;
      table := Marked(table, ValidInRect(table, rect), Invalid);
    }

    // What was being precomputed is invalid, all other rows are what they were
    method ResetPrecomputations()
      modifies this
      ensures table == Marked(old(table), InState(old(table), Precomp), Invalid)
      ensures InState(table, Precomp) == {} && InState(table, Valid) == InState(old(table), Valid)
      ensures table.Keys == old(table).Keys
      ensures forall pk :: pk in table ==>
        var was := old(table)[pk];
        table[pk] == if was.state == Precomp then was.(state := Invalid) else was
    {
      table := Marked(table, InState(table, Precomp), Invalid);
    }

    // All rows but the valid and the invalid ones
    method NumPrecomputing() returns (n: nat)
      ensures n == |InState(table, Precomp)|
      ensures n + |InState(table, Valid)| + |InState(table, Invalid)| == |table|
    {
      EachInOneState(table);
      n := |InState(table, Precomp)|;
    }

    // Some invalid rows become rows that are being precomputed; what comes back is their
    // requests, one for each
    method GetInvalidReqs(limit: nat) returns (reqs: seq<string>, ghost pks: seq<ApDbPk>)
      modifies this
      ensures forall i, j :: 0 <= i < j < |pks| ==> pks[i] != pks[j]
      ensures PksOf(pks) <= InState(old(table), Invalid)
      ensures var n := |InState(old(table), Invalid)|; |pks| == if n < limit then n else limit
      ensures table == Marked(old(table), PksOf(pks), Precomp) && table.Keys == old(table).Keys
      ensures forall pk :: pk in table ==>
        table[pk] == if pk in pks then old(table)[pk].(state := Precomp) else old(table)[pk]
      ensures |reqs| == |pks| && forall i :: 0 <= i < |pks| ==>
        pks[i] in old(table) && reqs[i] == old(table)[pks[i]].request
    {
      var chosen := Select(InState(table, Invalid), limit);
      assert forall i :: 0 <= i < |chosen| ==> chosen[i] in PksOf(chosen);
      var rows := table;
      reqs := seq(|chosen|, i requires 0 <= i < |chosen| && chosen[i] in rows => rows[chosen[i]].request);
      pks := chosen;
      table := Marked(table, PksOf(chosen), Precomp);
    }

    // The statement is executed for each column of the primary key that its condition gets: first
    // with the serial number only
    method Delete(pk: ApDbPk)
      modifies this
      ensures table == map k | k in old(table) && k.serialNumber != pk.serialNumber :: old(table)[k]
    {
      table := map k | k in table && !(k.serialNumber == pk.serialNumber) :: table[k];
      table := map k | k in table && !(k.serialNumber == pk.serialNumber && k.rulesets == pk.rulesets) :: table[k];
      table := map k | k in table && !(k == pk) :: table[k];
    }
  }

  lemma {:induction false} SizeOfDistinct(s: seq<ApDbPk>)
    requires forall i, j :: 0 <= i < j < |s| ==> s[i] != s[j]
    ensures |PksOf(s)| == |s|
  {
    if s != [] {
      var n := |s| - 1;
      SizeOfDistinct(s[..n]);
      assert PksOf(s) == PksOf(s[..n]) + {s[n]};
      assert s[n] !in s[..n];
    }
  }
}
