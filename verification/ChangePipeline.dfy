/** From a change in the database of FS paths to the cached responses that it concerns: the tiles
    of the differing paths are printed by uls/fs_db_diff.py, read by uls/uls_service.py, and
    widened and invalidated by the invalidator of rcache/rcache_service.py. */
module ChangePipeline {
  import opened Wrappers
  import opened TileReport
  import opened TileDiff
  import opened RcacheDb

  // ---- Widened tiles ----

  ghost predicate IsReduction(lonReduction: real -> real) {
    forall lat :: 1.0 / 180.0 <= lonReduction(lat) <= 1.0
  }

  function Quotient(a: real, b: real): (q: real)
    requires b > 0.0
    ensures q * b == a
  {
    a / b
  }

  // Degrees of longitude become shorter towards the poles; by how much is taken where the tile has
  // its middle
  function Widened(rect: LatLonRect, distanceDeg: real, lonReduction: real -> real): LatLonRect
    requires IsReduction(lonReduction)
  {
    assert 1.0 / 180.0 <= lonReduction((rect.minLat + rect.maxLat) / 2.0);
    var lonDeg := Quotient(distanceDeg, lonReduction((rect.minLat + rect.maxLat) / 2.0));
    LatLonRect(rect.minLat - distanceDeg, rect.maxLat + distanceDeg, rect.minLon - lonDeg, rect.maxLon + lonDeg)
  }

  function Magnitude(x: real): real {
    if x < 0.0 then -x else x
  }

  // The row is not further than that from the point, in degrees of latitude, with longitudes modulo 360
  // and a degree of longitude so many degrees of latitude long
  predicate IsWithin(row: Row, p: Point, distanceDeg: real, reduction: real, turns: int) {
    && Magnitude(row.lat - p.lat) <= distanceDeg
    && Magnitude(row.lon + 360.0 * turns as real - p.lon) * reduction <= distanceDeg
  }

  predicate Contains(rect: LatLonRect, p: Point) {
    rect.minLat <= p.lat <= rect.maxLat && rect.minLon <= p.lon <= rect.maxLon
  }

  predicate IsNearPoint(row: Row, rect: LatLonRect, p: Point, distanceDeg: real, lonReduction: real -> real,
                        turns: int)
  {
    Contains(rect, p) && IsWithin(row, p, distanceDeg, lonReduction((rect.minLat + rect.maxLat) / 2.0), turns)
  }

  // The row is not further than that from some point of the rectangle
  ghost predicate IsNear(row: Row, rect: LatLonRect, distanceDeg: real, lonReduction: real -> real) {
    exists p, turns :: IsNearPoint(row, rect, p, distanceDeg, lonReduction, turns)
  }

  ghost predicate IsNearProper(row: Row, rect: LatLonRect, distanceDeg: real, lonReduction: real -> real) {
    IsProper(row) && ReachesProper(rect) && IsNear(row, rect, distanceDeg, lonReduction)
  }

  predicate IsRect(rect: LatLonRect) {
    rect.minLat <= rect.maxLat && rect.minLon <= rect.maxLon
  }

  lemma ProductFits(x: real, reduction: real, distanceDeg: real)
    requires 0.0 < reduction
    ensures x * reduction <= distanceDeg <==> x <= Quotient(distanceDeg, reduction)
  {
    var q := Quotient(distanceDeg, reduction);
    if x <= q {
      assert (q - x) * reduction >= 0.0;
    } else {
      assert (x - q) * reduction > 0.0;
    }
  }

  function Clamped(x: real, min: real, max: real): (y: real)
    requires min <= max
    ensures min <= y <= max
  {
    if x < min then min else if x > max then max else x
  }

  // A place is in an interval made wider exactly if it is not further than that from the interval
  lemma InIntervalExactly(x: real, min: real, max: real, width: real)
    requires min <= max && 0.0 <= width
    ensures min - width <= x <= max + width <==> Magnitude(x - Clamped(x, min, max)) <= width
  {
  }

  lemma NearInterval(x: real, y: real, min: real, max: real, width: real)
    requires min <= y <= max && Magnitude(x - y) <= width
    ensures min - width <= x <= max + width
  {
  }

  lemma WidenedIs(row: Row, rect: LatLonRect, distanceDeg: real, lonReduction: real -> real, turns: int)
    requires IsReduction(lonReduction)
    ensures 0.0 < lonReduction((rect.minLat + rect.maxLat) / 2.0)
    ensures var lonDeg := Quotient(distanceDeg, lonReduction((rect.minLat + rect.maxLat) / 2.0));
      IsTurnedInto(row, Widened(rect, distanceDeg, lonReduction), turns) <==>
        && rect.minLat - distanceDeg <= row.lat <= rect.maxLat + distanceDeg
        && rect.minLon - lonDeg <= row.lon + 360.0 * turns as real <= rect.maxLon + lonDeg
  {
    assert 1.0 / 180.0 <= lonReduction((rect.minLat + rect.maxLat) / 2.0);
  }

  // The widened rectangle has exactly the rows that are within the distance of some point
  lemma WidenedExactly(row: Row, rect: LatLonRect, distanceDeg: real, lonReduction: real -> real, turns: int)
    requires IsReduction(lonReduction) && IsRect(rect) && 0.0 <= distanceDeg
    ensures IsTurnedInto(row, Widened(rect, distanceDeg, lonReduction), turns) <==>
      exists p :: IsNearPoint(row, rect, p, distanceDeg, lonReduction, turns)
  {
    WidenedIs(row, rect, distanceDeg, lonReduction, turns);
    hide IsReduction, IsTurnedInto, Widened, Quotient, Magnitude, Clamped;
    var reduction := lonReduction((rect.minLat + rect.maxLat) / 2.0);
    var lon := row.lon + 360.0 * turns as real;
    var lonDeg := Quotient(distanceDeg, reduction);
    forall p | IsNearPoint(row, rect, p, distanceDeg, lonReduction, turns)
      ensures rect.minLat - distanceDeg <= row.lat <= rect.maxLat + distanceDeg
      ensures rect.minLon - lonDeg <= lon <= rect.maxLon + lonDeg
    {
      ProductFits(Magnitude(lon - p.lon), reduction, distanceDeg);
      NearInterval(row.lat, p.lat, rect.minLat, rect.maxLat, distanceDeg);
      NearInterval(lon, p.lon, rect.minLon, rect.maxLon, lonDeg);
    }
    if IsTurnedInto(row, Widened(rect, distanceDeg, lonReduction), turns) {
      NearestIsNear(row, rect, distanceDeg, lonReduction, turns);
    }
  }

  lemma NearestIsNear(row: Row, rect: LatLonRect, distanceDeg: real, lonReduction: real -> real, turns: int)
    requires IsReduction(lonReduction) && IsRect(rect) && 0.0 <= distanceDeg
    requires IsTurnedInto(row, Widened(rect, distanceDeg, lonReduction), turns)
    ensures exists p :: IsNearPoint(row, rect, p, distanceDeg, lonReduction, turns)
  {
    WidenedIs(row, rect, distanceDeg, lonReduction, turns);
    hide IsReduction, IsTurnedInto, Widened, Quotient, Magnitude, Clamped;
    var reduction := lonReduction((rect.minLat + rect.maxLat) / 2.0);
    var lon := row.lon + 360.0 * turns as real;
    ProductFits(0.0, reduction, distanceDeg);
    InIntervalExactly(row.lat, rect.minLat, rect.maxLat, distanceDeg);
    InIntervalExactly(lon, rect.minLon, rect.maxLon, Quotient(distanceDeg, reduction));
    var p := Point(Clamped(row.lat, rect.minLat, rect.maxLat), Clamped(lon, rect.minLon, rect.maxLon));
    ProductFits(Magnitude(lon - p.lon), reduction, distanceDeg);
    assert IsNearPoint(row, rect, p, distanceDeg, lonReduction, turns);
  }

  // The three longitudes that are compared are enough for every distance
  lemma NearIsInRect(row: Row, rect: LatLonRect, distanceDeg: real, lonReduction: real -> real)
    requires IsReduction(lonReduction)
    ensures IsNearProper(row, rect, distanceDeg, lonReduction) ==>
      InRect(row, Widened(rect, distanceDeg, lonReduction))
    ensures IsRect(rect) && 0.0 <= distanceDeg && InRect(row, Widened(rect, distanceDeg, lonReduction)) ==>
      IsNear(row, rect, distanceDeg, lonReduction)
  {
    if IsRect(rect) && 0.0 <= distanceDeg {
      InRectIsNear(row, rect, distanceDeg, lonReduction);
    }
    hide InRect, Widened, IsReduction, ReachesProper, IsProper;
    if IsNear(row, rect, distanceDeg, lonReduction) {
      var p, turns :| IsNearPoint(row, rect, p, distanceDeg, lonReduction, turns);
      assert IsRect(rect) && 0.0 <= distanceDeg;
    }
  }

  lemma InRectIsNear(row: Row, rect: LatLonRect, distanceDeg: real, lonReduction: real -> real)
    requires IsReduction(lonReduction) && IsRect(rect) && 0.0 <= distanceDeg
    ensures InRect(row, Widened(rect, distanceDeg, lonReduction)) ==> IsNear(row, rect, distanceDeg, lonReduction)
    ensures IsNearProper(row, rect, distanceDeg, lonReduction) ==>
      InRect(row, Widened(rect, distanceDeg, lonReduction))
  {
    var wide := Widened(rect, distanceDeg, lonReduction);
    if ReachesProper(rect) {
      ReachesWidened(rect, distanceDeg, lonReduction);
    }
    OneTurnIsEnough(row, wide);
    forall turns
      ensures IsTurnedInto(row, wide, turns) <==>
        exists p :: IsNearPoint(row, rect, p, distanceDeg, lonReduction, turns)
    {
      WidenedExactly(row, rect, distanceDeg, lonReduction, turns);
    }
    hide IsTurnedInto, InRect, IsNearPoint, Widened, IsReduction;
    if IsInModulo360(row, wide) {
      var turns :| IsTurnedInto(row, wide, turns);
      var p :| IsNearPoint(row, rect, p, distanceDeg, lonReduction, turns);
    }
    if IsNear(row, rect, distanceDeg, lonReduction) {
      var p, turns :| IsNearPoint(row, rect, p, distanceDeg, lonReduction, turns);
      assert IsTurnedInto(row, wide, turns);
    }
  }

  lemma ReachesWidened(rect: LatLonRect, distanceDeg: real, lonReduction: real -> real)
    requires IsReduction(lonReduction) && 0.0 <= distanceDeg && ReachesProper(rect)
    ensures ReachesProper(Widened(rect, distanceDeg, lonReduction))
  {
    var reduction := lonReduction((rect.minLat + rect.maxLat) / 2.0);
    assert 1.0 / 180.0 <= reduction;
    ProductFits(0.0, reduction, distanceDeg);
  }

  // ---- Invalidation of tiles ----

  ghost function ValidInSome(table: Table, rects: seq<LatLonRect>, distanceDeg: real,
                             lonReduction: real -> real): set<ApDbPk>
    requires IsReduction(lonReduction)
  {
    set pk | pk in table && table[pk].state == Valid && IsInSome(table[pk], rects, distanceDeg, lonReduction)
  }

  ghost predicate IsInSome(row: Row, rects: seq<LatLonRect>, distanceDeg: real, lonReduction: real -> real)
    requires IsReduction(lonReduction)
  {
    exists i :: 0 <= i < |rects| && InRect(row, Widened(rects[i], distanceDeg, lonReduction))
  }

  method InvalidateTiles(db: RcacheDbAsync, tiles: seq<LatLonRect>, distanceDeg: real, lonReduction: real -> real)
    requires IsReduction(lonReduction)
    modifies db
    ensures db.table == Marked(old(db.table), ValidInSome(old(db.table), tiles, distanceDeg, lonReduction), Invalid)
    ensures db.table.Keys == old(db.table).Keys
    ensures forall pk, i ::
      pk in db.table && 0 <= i < |tiles| && IsNearProper(db.table[pk], tiles[i], distanceDeg, lonReduction) ==>
        db.table[pk].state != Valid
    ensures forall pk :: pk in db.table && db.table[pk] != old(db.table)[pk] ==>
      var was := old(db.table)[pk];
      && was.state == Valid && db.table[pk] == was.(state := Invalid)
      && (0.0 <= distanceDeg && AreRects(tiles) ==> IsNearSome(was, tiles, distanceDeg, lonReduction))
  {
    AllNear(db.table, tiles, distanceDeg, lonReduction);
    hide Widened, InRect, IsReduction, IsNear, IsNearSome, AreRects, ReachesProper;
    for i := 0 to |tiles|
      invariant db.table == Marked(old(db.table), ValidInSome(old(db.table), tiles[..i], distanceDeg, lonReduction),
        Invalid)
    {
      db.SpatialInvalidate(Widened(tiles[i], distanceDeg, lonReduction));
      OneMoreTile(old(db.table), tiles, i, distanceDeg, lonReduction);
    }
    assert tiles[..|tiles|] == tiles;
  }

  ghost predicate IsNearSome(row: Row, rects: seq<LatLonRect>, distanceDeg: real, lonReduction: real -> real) {
    exists i :: 0 <= i < |rects| && IsNear(row, rects[i], distanceDeg, lonReduction)
  }

  predicate AreRects(rects: seq<LatLonRect>) {
    forall i :: 0 <= i < |rects| ==> IsRect(rects[i])
  }

  // The same whatever the state of the row
  lemma SameNearness(row: Row, rect: LatLonRect, distanceDeg: real, lonReduction: real -> real)
    ensures IsNear(row.(state := Invalid), rect, distanceDeg, lonReduction) <==>
      IsNear(row, rect, distanceDeg, lonReduction)
  {
    var other := row.(state := Invalid);
    assert forall p, turns ::
      IsNearPoint(other, rect, p, distanceDeg, lonReduction, turns) <==>
        IsNearPoint(row, rect, p, distanceDeg, lonReduction, turns);
  }

  lemma AllNear(table: Table, tiles: seq<LatLonRect>, distanceDeg: real, lonReduction: real -> real)
    requires IsReduction(lonReduction)
    ensures forall pk, i ::
      pk in table && 0 <= i < |tiles| && IsNearProper(table[pk], tiles[i], distanceDeg, lonReduction) ==>
        IsInSome(table[pk], tiles, distanceDeg, lonReduction)
    ensures 0.0 <= distanceDeg && AreRects(tiles) ==> forall pk ::
      pk in table && IsInSome(table[pk], tiles, distanceDeg, lonReduction) ==>
        IsNearSome(table[pk], tiles, distanceDeg, lonReduction)
    ensures forall pk, i :: pk in table && 0 <= i < |tiles| ==>
      (IsNear(table[pk].(state := Invalid), tiles[i], distanceDeg, lonReduction) <==>
        IsNear(table[pk], tiles[i], distanceDeg, lonReduction))
  {
    hide InRect, Widened, IsNear, IsReduction, ReachesProper, IsRect, IsProper;
    forall pk, i | pk in table && 0 <= i < |tiles|
      ensures IsNearProper(table[pk], tiles[i], distanceDeg, lonReduction) ==>
        InRect(table[pk], Widened(tiles[i], distanceDeg, lonReduction))
      ensures 0.0 <= distanceDeg && AreRects(tiles) ==>
        InRect(table[pk], Widened(tiles[i], distanceDeg, lonReduction)) ==>
          IsNear(table[pk], tiles[i], distanceDeg, lonReduction)
      ensures IsNear(table[pk].(state := Invalid), tiles[i], distanceDeg, lonReduction) <==>
        IsNear(table[pk], tiles[i], distanceDeg, lonReduction)
    {
      NearIsInRect(table[pk], tiles[i], distanceDeg, lonReduction);
      SameNearness(table[pk], tiles[i], distanceDeg, lonReduction);
    }
  }

  lemma OneMoreTile(table: Table, tiles: seq<LatLonRect>, i: nat, distanceDeg: real, lonReduction: real -> real)
    requires IsReduction(lonReduction) && i < |tiles|
    ensures var done := ValidInSome(table, tiles[..i], distanceDeg, lonReduction);
      var more := Marked(table, done, Invalid);
      Marked(more, ValidInRect(more, Widened(tiles[i], distanceDeg, lonReduction)), Invalid)
        == Marked(table, ValidInSome(table, tiles[..i + 1], distanceDeg, lonReduction), Invalid)
  {
    forall pk | pk in table
      ensures IsInSome(table[pk], tiles[..i + 1], distanceDeg, lonReduction) <==>
        IsInSome(table[pk], tiles[..i], distanceDeg, lonReduction)
          || InRect(table[pk], Widened(tiles[i], distanceDeg, lonReduction))
    {
      InSomeMore(table[pk], tiles, i, distanceDeg, lonReduction);
    }
    SameRect(table, ValidInSome(table, tiles[..i], distanceDeg, lonReduction),
      Widened(tiles[i], distanceDeg, lonReduction));
    hide Widened, InRect, IsReduction, IsInSome;
  }

  lemma SameRect(table: Table, pks: set<ApDbPk>, rect: LatLonRect)
    ensures forall pk :: pk in table ==> (InRect(Marked(table, pks, Invalid)[pk], rect) <==> InRect(table[pk], rect))
  {
  }

  lemma InSomeMore(row: Row, tiles: seq<LatLonRect>, i: nat, distanceDeg: real, lonReduction: real -> real)
    requires IsReduction(lonReduction) && i < |tiles|
    ensures IsInSome(row, tiles[..i + 1], distanceDeg, lonReduction) <==>
      IsInSome(row, tiles[..i], distanceDeg, lonReduction) || InRect(row, Widened(tiles[i], distanceDeg, lonReduction))
  {
    hide InRect, Widened, IsReduction;
    var less, more := tiles[..i], tiles[..i + 1];
    assert forall k :: 0 <= k < i ==> more[k] == less[k];
    assert more[i] == tiles[i];
    if IsInSome(row, less, distanceDeg, lonReduction) {
      var k :| 0 <= k < |less| && InRect(row, Widened(less[k], distanceDeg, lonReduction));
      assert InRect(row, Widened(more[k], distanceDeg, lonReduction));
    }
    if InRect(row, Widened(tiles[i], distanceDeg, lonReduction)) {
      assert InRect(row, Widened(more[i], distanceDeg, lonReduction));
    }
  }

  // ---- The whole way ----

  method InSomeOrder(tiles: set<Tile>) returns (s: seq<Tile>)
    ensures forall t :: t in s <==> t in tiles
  {
    s := [];
    var left := tiles;
    while left != {}
      invariant left <= tiles && forall t :: t in s <==> t in tiles - left
    {
      var t := Pick(left);
      left := left - {t};
      s := s + [t];
    }
  }

  // A response is for a place near a receiver of a differing path, in a tile that is reported
  // whichever paths are chosen
  ghost predicate Concerns(dbs: (Db, Db), p: FsPath, row: Row, distanceDeg: real, lonReduction: real -> real) {
    exists r, turns :: r in p.receivers && IsSure(dbs, TileOf(r))
      && IsNearReceiver(row, r, distanceDeg, lonReduction, turns)
  }

  predicate IsNearReceiver(row: Row, r: Point, distanceDeg: real, lonReduction: real -> real, turns: int) {
    -180.0 <= r.lon <= 180.0 && IsWithin(row, r, distanceDeg, lonReduction(r.lat.Floor as real + 0.5), turns)
  }

  ghost predicate MustGo(dbs: (Db, Db), p: FsPath, place: Place, row: Row, distanceDeg: real,
                         lonReduction: real -> real)
  {
    && Differs(dbs, p, place) && -180.0 <= row.lon <= 180.0
    && Concerns(dbs, p, row, distanceDeg, lonReduction)
  }

  // The row is near a tile with a receiver of a differing path, or near a tile of a restricted area
  ghost predicate MayGo(dbs: (Db, Db), rasTiles: set<Tile>, row: Row, distanceDeg: real, lonReduction: real -> real) {
    exists t :: (IsTileOfDifference(dbs, t) || t in rasTiles) && IsNear(row, Rect(t), distanceDeg, lonReduction)
  }

  // After the change every response that it concerns is invalid: for the only path of its
  // identification that differs in its database (AloneIsCovered), these are all responses near it.
  // Only valid responses near a changed tile become invalid, and nothing else changes.
  method PropagateChange(dbs: (Db, Db), rasTiles: set<Tile>, summary: (nat, nat, nat, nat), db: RcacheDbAsync,
                         distanceDeg: real, lonReduction: real -> real)
    requires IsDb(dbs.0) && IsDb(dbs.1) && IsReduction(lonReduction)
    modifies db
    ensures db.table.Keys == old(db.table).Keys
    ensures forall pk :: pk in db.table && db.table[pk] != old(db.table)[pk] ==>
      var was := old(db.table)[pk];
      && was.state == Valid && db.table[pk] == was.(state := Invalid)
      && (0.0 <= distanceDeg ==> MayGo(dbs, rasTiles, was, distanceDeg, lonReduction))
    ensures forall p, place, pk ::
      pk in db.table && MustGo(dbs, p, place, old(db.table)[pk], distanceDeg, lonReduction) ==>
        db.table[pk].state != Valid
    ensures forall t, pk ::
      t in rasTiles && pk in db.table && IsNearProper(old(db.table)[pk], Rect(t), distanceDeg, lonReduction) ==>
        db.table[pk].state != Valid
  {
    hide IsDb, Parsed, AreTilesOf, MustGo, IsNearProper, IsNearSome, MayGo, IsReduction, IsTileOfDifference, Rect;
    hide IsNear, AreRects;
    var tiles;
    ghost var paths;
    tiles, paths := TilesOfDifference(dbs);
    var lines := InSomeOrder(tiles + rasTiles);
    var (paths1, paths2, differentPaths, differentRas) := summary;
    ReportRoundTrip(paths1, paths2, differentPaths, differentRas, lines);
    var rects := ParseTiles(Summary(paths1, paths2, differentPaths, differentRas) + TileLines(lines));
    ghost var table := db.table;
    forall p, place, pk | pk in table && MustGo(dbs, p, place, table[pk], distanceDeg, lonReduction)
      ensures IsInSome(table[pk], Rects(lines), distanceDeg, lonReduction)
    {
      ConcernedIsInSome(dbs, paths, tiles, lines, p, place, table[pk], distanceDeg, lonReduction);
    }
    forall t, pk | t in rasTiles && pk in table && IsNearProper(table[pk], Rect(t), distanceDeg, lonReduction)
      ensures IsInSome(table[pk], Rects(lines), distanceDeg, lonReduction)
    {
      NearTileIsInSome(lines, t, table[pk], distanceDeg, lonReduction);
    }
    RectsAreRects(lines);
    forall pk | pk in table && IsNearSome(table[pk], Rects(lines), distanceDeg, lonReduction)
      ensures MayGo(dbs, rasTiles, table[pk], distanceDeg, lonReduction)
    {
      OnlyNearTiles(dbs, rasTiles, lines, table[pk], distanceDeg, lonReduction);
    }
    hide IsInSome, TileLines, Summary, Rects;
    InvalidateTiles(db, rects.value, distanceDeg, lonReduction);
  }

  lemma RectsAreRects(lines: seq<Tile>)
    ensures |Rects(lines)| == |lines| && AreRects(Rects(lines))
  {
  }

  lemma OnlyNearTiles(dbs: (Db, Db), rasTiles: set<Tile>, lines: seq<Tile>, row: Row, distanceDeg: real,
                      lonReduction: real -> real)
    requires forall t :: t in lines ==> IsTileOfDifference(dbs, t) || t in rasTiles
    requires IsNearSome(row, Rects(lines), distanceDeg, lonReduction)
    ensures MayGo(dbs, rasTiles, row, distanceDeg, lonReduction)
  {
    hide IsTileOfDifference, IsNear, Rect;
    var i :| 0 <= i < |Rects(lines)| && IsNear(row, Rects(lines)[i], distanceDeg, lonReduction);
    assert lines[i] in lines;
  }

  lemma ConcernedIsInSome(dbs: (Db, Db), paths: map<Place, FsPath>, tiles: set<Tile>, lines: seq<Tile>,
                          p: FsPath, place: Place, row: Row, distanceDeg: real, lonReduction: real -> real)
    requires IsReduction(lonReduction) && AreTilesOf(dbs, paths, tiles)
      && MustGo(dbs, p, place, row, distanceDeg, lonReduction)
    requires forall t :: t in tiles ==> t in lines
    ensures IsInSome(row, Rects(lines), distanceDeg, lonReduction)
  {
    var r, turns :| r in p.receivers && IsSure(dbs, TileOf(r))
      && IsNearReceiver(row, r, distanceDeg, lonReduction, turns);
    SureIsCovered(dbs, paths, tiles, TileOf(r));
    var rect := Rect(TileOf(r));
    assert Contains(rect, r) && ReachesProper(rect) by { TileHasPoint(r); }
    assert (rect.minLat + rect.maxLat) / 2.0 == r.lat.Floor as real + 0.5;
    assert IsNearPoint(row, rect, r, distanceDeg, lonReduction, turns);
    hide AreTilesOf, IsSure, Differs, IsReduction, IsNearPoint;
    NearTileIsInSome(lines, TileOf(r), row, distanceDeg, lonReduction);
  }

  lemma NearTileIsInSome(lines: seq<Tile>, t: Tile, row: Row, distanceDeg: real, lonReduction: real -> real)
    requires IsReduction(lonReduction) && t in lines && IsNearProper(row, Rect(t), distanceDeg, lonReduction)
    ensures IsInSome(row, Rects(lines), distanceDeg, lonReduction)
  {
    hide IsNearProper, InRect, Widened, IsReduction;
    var i :| 0 <= i < |lines| && lines[i] == t;
    NearIsInRect(row, Rect(t), distanceDeg, lonReduction);
    assert Rects(lines)[i] == Rect(t);
  }
}
