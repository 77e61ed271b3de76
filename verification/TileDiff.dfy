/** The tiles in which two databases of FS paths differ (FsPath and main of uls/fs_db_diff.py) */
module TileDiff {
  import opened Wrappers
  import opened TileReport

  datatype Point = Point(lat: real, lon: real)

  datatype PathIdent = PathIdent(region: string, callsign: string, pathNumber: int, freqStart: real, freqEnd: real)

  // A path with its receivers: its own, then those of its repeaters. The hash is of all that
  // matters of it besides the identification.
  datatype FsPath = FsPath(ident: PathIdent, hash: int, fsid: int, receivers: seq<Point>)

  type Db = seq<FsPath>

  datatype IdentHash = IdentHash(ident: PathIdent, hash: int)

  function KeyOf(p: FsPath): IdentHash {
    IdentHash(p.ident, p.hash)
  }

  function Keys(db: Db): set<IdentHash> {
    set i | 0 <= i < |db| :: KeyOf(db[i])
  }

  // FSIDs are the primary key of the table
  predicate IsDb(db: Db) {
    forall i, j :: 0 <= i < j < |db| ==> db[i].fsid != db[j].fsid
  }

  function TileOf(p: Point): Tile {
    Tile(p.lat.Floor, p.lon.Floor)
  }

  function TilesOf(p: FsPath): set<Tile> {
    set r | r in p.receivers :: TileOf(r)
  }

  // The tile has the point, be it on its lower border or inside
  lemma TileHasPoint(p: Point)
    ensures var r := Rect(TileOf(p)); r.minLat <= p.lat < r.maxLat && r.minLon <= p.lon < r.maxLon
  {
  }

  method CollectTiles(p: FsPath) returns (tiles: set<Tile>)
    ensures tiles == TilesOf(p)
  {
    tiles := {};
    for i := 0 to |p.receivers|
      invariant tiles == set r | r in p.receivers[..i] :: TileOf(r)
    {
      assert p.receivers[..i + 1] == p.receivers[..i] + [p.receivers[i]];
      tiles := tiles + {TileOf(p.receivers[i])};
    }
    assert p.receivers[..|p.receivers|] == p.receivers;
  }

  // ---- Which paths differ ----

  ghost predicate HasPath(db: Db, key: IdentHash, fsid: int) {
    exists i :: 0 <= i < |db| && KeyOf(db[i]) == key && db[i].fsid == fsid
  }

  method IdentHashToFsid(db: Db) returns (fsids: map<IdentHash, int>)
    ensures fsids.Keys == Keys(db)
    ensures forall key :: key in fsids ==> HasPath(db, key, fsids[key])
  {
    fsids := map[];
    for i := 0 to |db|
      invariant fsids.Keys == set j | 0 <= j < i :: KeyOf(db[j])
      invariant forall key :: key in fsids ==> HasPath(db, key, fsids[key])
    {
      fsids := fsids[KeyOf(db[i]) := db[i].fsid];
    }
  }

  // The identification of a path, and the database (0 or 1) that it is in
  datatype Place = Place(ident: PathIdent, db: int)

  // A path of that identification in that database, and not, with this hash, in the other one
  predicate Differs(dbs: (Db, Db), p: FsPath, place: Place) {
    && p.ident == place.ident && place.db in {0, 1}
    && if place.db == 0 then p in dbs.0 && IsMissing(p, dbs.1) else p in dbs.1 && IsMissing(p, dbs.0)
  }

  // No path of the database has this identification and this hash
  predicate IsMissing(p: FsPath, db: Db) {
    forall q :: q in db ==> !(q.ident == p.ident && q.hash == p.hash)
  }

  lemma MissingKey(p: FsPath, db: Db)
    ensures IsMissing(p, db) <==> KeyOf(p) !in Keys(db)
  {
    if KeyOf(p) in Keys(db) {
      var i :| 0 <= i < |db| && KeyOf(db[i]) == KeyOf(p);
      assert db[i] in db;
    }
  }

  // Each of the chosen FSIDs is that of a differing path, and wherever a path differs one is chosen
  ghost predicate IsChoice(dbs: (Db, Db), chosen: map<Place, int>) {
    && (forall place :: place in chosen ==> exists p :: Differs(dbs, p, place) && p.fsid == chosen[place])
    && (forall p, place :: Differs(dbs, p, place) ==> place in chosen)
  }

  // Over the pairs of identification and hash that are in one database only, in any order. Of
  // several such pairs with the same identification in the same database the last one remains.
  method DifferentPaths(dbs: (Db, Db)) returns (chosen: map<Place, int>)
    ensures IsChoice(dbs, chosen)
  {
    var fsids0 := IdentHashToFsid(dbs.0);
    var fsids1 := IdentHashToFsid(dbs.1);
    var left := (fsids0.Keys - fsids1.Keys) + (fsids1.Keys - fsids0.Keys);
    ghost var all := left;
    chosen := map[];
    KeysOfDiffering(dbs);
    while left != {}
      invariant left <= all
      invariant forall place :: place in chosen ==> exists p :: Differs(dbs, p, place) && p.fsid == chosen[place]
      invariant forall p, place :: Differs(dbs, p, place) && KeyOf(p) !in left ==> place in chosen
    {
      var key := Pick(left);
      left := left - {key};
      var db := if key in fsids0 then 0 else 1;
      var fsid := if key in fsids0 then fsids0[key] else fsids1[key];
      PathOfKey(dbs, key, db, fsid);
      chosen := chosen[Place(key.ident, db) := fsid];
    }
  }

  lemma PathOfKey(dbs: (Db, Db), key: IdentHash, db: int, fsid: int)
    requires if db == 0 then HasPath(dbs.0, key, fsid) && key !in Keys(dbs.1)
      else db == 1 && HasPath(dbs.1, key, fsid) && key !in Keys(dbs.0)
    ensures exists p :: Differs(dbs, p, Place(key.ident, db)) && p.fsid == fsid
  {
    var mine := if db == 0 then dbs.0 else dbs.1;
    var i :| 0 <= i < |mine| && KeyOf(mine[i]) == key && mine[i].fsid == fsid;
    assert Differs(dbs, mine[i], Place(key.ident, db));
  }

  lemma KeysOfDiffering(dbs: (Db, Db))
    ensures forall p, place :: Differs(dbs, p, place) ==>
      KeyOf(p) in (Keys(dbs.0) - Keys(dbs.1)) + (Keys(dbs.1) - Keys(dbs.0))
  {
    forall p, place | Differs(dbs, p, place)
      ensures KeyOf(p) in (Keys(dbs.0) - Keys(dbs.1)) + (Keys(dbs.1) - Keys(dbs.0))
    {
      MissingKey(p, dbs.0);
      MissingKey(p, dbs.1);
    }
    hide IsMissing;
  }

  // ---- Their tiles ----

  method PathByFsid(db: Db, fsid: int) returns (p: Option<FsPath>)
    ensures p.Some? ==> p.value in db && p.value.fsid == fsid
    ensures p.None? ==> forall q :: q in db ==> q.fsid != fsid
  {
    for i := 0 to |db|
      invariant forall j :: 0 <= j < i ==> db[j].fsid != fsid
    {
      if db[i].fsid == fsid {
        return Some(db[i]);
      }
    }
    p := None;
  }

  lemma OneOfFsid(db: Db, p: FsPath, q: FsPath)
    requires IsDb(db) && p in db && q in db && p.fsid == q.fsid
    ensures p == q
  {
  }

  // The tiles are those of one differing path for each identification and database that has any
  ghost predicate AreTilesOf(dbs: (Db, Db), paths: map<Place, FsPath>, tiles: set<Tile>) {
    && (forall place :: place in paths ==> Differs(dbs, paths[place], place))
    && (forall p, place :: Differs(dbs, p, place) ==> place in paths)
    && tiles == AllTiles(paths)
  }

  ghost function AllTiles(paths: map<Place, FsPath>): set<Tile> {
    set place, t | place in paths && t in TilesOf(paths[place]) :: t
  }

  // Some receiver of a differing path is in the tile
  ghost predicate IsTileOfDifference(dbs: (Db, Db), t: Tile) {
    exists p, place :: Differs(dbs, p, place) && t in TilesOf(p)
  }

  method TilesOfDifference(dbs: (Db, Db)) returns (tiles: set<Tile>, ghost paths: map<Place, FsPath>)
    requires IsDb(dbs.0) && IsDb(dbs.1)
    ensures AreTilesOf(dbs, paths, tiles)
    ensures forall t :: t in tiles ==> IsTileOfDifference(dbs, t)
    ensures forall t :: IsSure(dbs, t) ==> t in tiles
  {
    var chosen := DifferentPaths(dbs);
    var left := chosen.Keys;
    tiles, paths := {}, map[];
    while left != {}
      invariant left <= chosen.Keys && paths.Keys == chosen.Keys - left
      invariant forall place :: place in paths ==> Differs(dbs, paths[place], place)
      invariant tiles == AllTiles(paths)
    {
      var place := Pick(left);
      left := left - {place};
      ghost var p :| Differs(dbs, p, place) && p.fsid == chosen[place];
      var db := if place.db == 0 then dbs.0 else dbs.1;
      var row := PathByFsid(db, chosen[place]);
      OneOfFsid(db, p, row.value);
      var more := CollectTiles(row.value);
      OneMorePath(paths, place, row.value);
      tiles := tiles + more;
      paths := paths[place := row.value];
    }
    forall t | IsSure(dbs, t)
      ensures t in tiles
    {
      SureIsCovered(dbs, paths, tiles, t);
    }
  }

  lemma OneMorePath(paths: map<Place, FsPath>, place: Place, p: FsPath)
    requires place !in paths
    ensures AllTiles(paths[place := p]) == AllTiles(paths) + TilesOf(p)
  {
    var more := paths[place := p];
    forall t
      ensures t in AllTiles(more) <==> t in AllTiles(paths) || t in TilesOf(p)
    {
      if t in AllTiles(paths) {
        var q :| q in paths && t in TilesOf(paths[q]);
        assert q in more && t in TilesOf(more[q]);
      }
      if t in TilesOf(p) {
        assert place in more && t in TilesOf(more[place]);
      }
    }
  }

  // ---- What is covered ----

  // Wherever that path is, all differing paths have the tile
  ghost predicate IsSureAt(dbs: (Db, Db), t: Tile, p: FsPath, place: Place) {
    Differs(dbs, p, place) && forall q :: Differs(dbs, q, place) ==> t in TilesOf(q)
  }

  ghost predicate IsSure(dbs: (Db, Db), t: Tile) {
    exists p, place :: IsSureAt(dbs, t, p, place)
  }

  lemma SureIsCovered(dbs: (Db, Db), paths: map<Place, FsPath>, tiles: set<Tile>, t: Tile)
    requires AreTilesOf(dbs, paths, tiles) && IsSure(dbs, t)
    ensures t in tiles
  {
    var p, place :| IsSureAt(dbs, t, p, place);
    assert t in TilesOf(paths[place]);
  }

  ghost predicate IsCovered(dbs: (Db, Db), t: Tile, paths: map<Place, FsPath>, tiles: set<Tile>) {
    AreTilesOf(dbs, paths, tiles) ==> t in tiles
  }

  // A tile is among the tiles, whichever paths are chosen, exactly if at some place all differing
  // paths have it. For any other tile a path without it can be chosen at each place.
  lemma CoveredExactly(dbs: (Db, Db), t: Tile)
    ensures (forall paths, tiles :: IsCovered(dbs, t, paths, tiles)) <==> IsSure(dbs, t)
  {
    if IsSure(dbs, t) {
      forall paths, tiles
        ensures IsCovered(dbs, t, paths, tiles)
      {
        if AreTilesOf(dbs, paths, tiles) {
          SureIsCovered(dbs, paths, tiles, t);
        }
      }
    } else {
      hide Differs, TilesOf;
      DifferOnlyThere(dbs);
      var paths := map place | place in Places(dbs) && (exists p :: Differs(dbs, p, place)) ::
        WithoutTile(dbs, t, place);
      assert AreTilesOf(dbs, paths, AllTiles(paths));
      assert !IsCovered(dbs, t, paths, AllTiles(paths));
    }
  }

  // The places that there may be
  function Places(dbs: (Db, Db)): set<Place> {
    (set p | p in dbs.0 :: Place(p.ident, 0)) + (set p | p in dbs.1 :: Place(p.ident, 1))
  }

  lemma DifferOnlyThere(dbs: (Db, Db))
    ensures forall p, place :: Differs(dbs, p, place) ==> place in Places(dbs)
  {
  }

  ghost function WithoutTile(dbs: (Db, Db), t: Tile, place: Place): (p: FsPath)
    requires !IsSure(dbs, t) && exists p :: Differs(dbs, p, place)
    ensures Differs(dbs, p, place) && t !in TilesOf(p)
  {
    var q :| Differs(dbs, q, place);
    assert !IsSureAt(dbs, t, q, place);
    var p :| Differs(dbs, p, place) && t !in TilesOf(p);
    p
  }

  // No other path of the same identification in the same database differs
  ghost predicate IsAlone(dbs: (Db, Db), p: FsPath, place: Place) {
    forall q :: Differs(dbs, q, place) ==> q == p
  }

  // Then its receivers are all in the tiles. That holds for all paths if no database has two
  // paths of the same identification.
  lemma AloneIsCovered(dbs: (Db, Db), p: FsPath, place: Place)
    requires Differs(dbs, p, place) && IsAlone(dbs, p, place)
    ensures forall r :: r in p.receivers ==> IsSure(dbs, TileOf(r))
  {
    forall r | r in p.receivers
      ensures IsSure(dbs, TileOf(r))
    {
      assert TileOf(r) in TilesOf(p);
      assert IsSureAt(dbs, TileOf(r), p, place);
    }
  }

  lemma OnePathPerIdent(dbs: (Db, Db), p: FsPath, place: Place)
    requires Differs(dbs, p, place)
    requires var db := if place.db == 0 then dbs.0 else dbs.1;
      forall i, j :: 0 <= i < j < |db| ==> db[i].ident != db[j].ident
    ensures IsAlone(dbs, p, place)
  {
    var db := if place.db == 0 then dbs.0 else dbs.1;
    var i :| 0 <= i < |db| && db[i] == p;
    forall q | Differs(dbs, q, place)
      ensures q == p
    {
      var j :| 0 <= j < |db| && db[j] == q;
      assert i < j || j < i || i == j;
    }
  }

  // Two paths of the same identification that both are in the first database only: the tiles are
  // those of one of them, whatever those of the other one are.
  lemma TwoPathsOneIdent(p: FsPath, q: FsPath, paths: map<Place, FsPath>, tiles: set<Tile>)
    requires p.ident == q.ident && p.hash != q.hash && AreTilesOf(([p, q], []), paths, tiles)
    ensures tiles == TilesOf(p) || tiles == TilesOf(q)
  {
    var dbs, place := ([p, q], []), Place(p.ident, 0);
    assert Differs(dbs, p, place);
    forall other | other in paths
      ensures other == place
    {
      assert Differs(dbs, paths[other], other);
    }
    assert AllTiles(paths) == TilesOf(paths[place]);
  }
}
