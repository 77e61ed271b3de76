/** Pixels of raster files by latitude and longitude, through a cache of tiles
    (src/afc-engine/CachedGdal.cpp, CachedGdal.h): whatever is in the cache, the pixel read
    through it is the pixel of the file. */
module CachedGdal {
  import opened Wrappers
  import opened GdalGeometry
  import opened LruCache

  type Pixel = int
  type Raster = seq<seq<Pixel>>

  // What is on disk: the transform, as rectified by the transformation modifier, and by band
  // the raster and the value that stands for missing data
  datatype GdalFile = GdalFile(transform: GdalTransform, bands: seq<Raster>, noData: seq<Pixel>)

  datatype GdalInfo = GdalInfo(baseName: string, transformation: GdalTransform, boundRect: BoundRect,
    noDataValues: seq<Pixel>)

  datatype TileKey = TileKey(band: int, latOffset: int, lonOffset: int, baseName: string)

  datatype TileInfo = TileInfo(transformation: GdalTransform, boundRect: BoundRect, gdalInfo: GdalInfo,
    tileVector: seq<Pixel>)

  type Files = map<string, GdalFile>

  predicate RasterOk(raster: Raster, t: GdalTransform) {
    |raster| == t.latSize && forall i :: 0 <= i < |raster| ==> |raster[i]| == t.lonSize
  }

  predicate FileOk(f: GdalFile, numBands: int) {
    && WellFormed(f.transform) && Unambiguous(f.transform)
    && |f.bands| >= numBands && |f.noData| == numBands
    && forall b :: 0 <= b < numBands ==> RasterOk(f.bands[b], f.transform)
  }

  predicate FilesOk(files: Files, numBands: int) {
    1 <= numBands && forall name :: name in files ==> FileOk(files[name], numBands)
  }

  function InfoOf(name: string, f: GdalFile): GdalInfo
    requires WellFormed(f.transform)
  {
    GdalInfo(name, f.transform, MakeBoundRect(f.transform), f.noData)
  }

  // ---- Rectangular parts of a raster, row after row ----

  function Flat(rows: Raster): seq<Pixel> {
    if rows == [] then [] else rows[0] + Flat(rows[1..])
  }

  lemma {:induction false} FlatAt(rows: Raster, n: int, r: int, c: int)
    requires 0 <= r < |rows| && 0 <= c < n && forall i :: 0 <= i < |rows| ==> |rows[i]| == n
    ensures 0 <= n * r + c < |Flat(rows)| && Flat(rows)[n * r + c] == rows[r][c]
  {
    if r > 0 {
      FlatAt(rows[1..], n, r - 1, c);
      assert n * r == n + n * (r - 1);
    }
  }

  function Window(raster: Raster, latOff: int, lonOff: int, latSize: int, lonSize: int): (w: Raster)
    requires 0 <= latOff && 0 <= latSize && latOff + latSize <= |raster| && 0 <= lonOff && 0 <= lonSize
    requires forall i :: 0 <= i < |raster| ==> lonOff + lonSize <= |raster[i]|
    ensures |w| == latSize
    ensures forall i :: 0 <= i < latSize ==> |w[i]| == lonSize
    ensures forall i, j :: 0 <= i < latSize && 0 <= j < lonSize ==> w[i][j] == raster[latOff + i][lonOff + j]
  {
    seq(latSize, i requires 0 <= i < latSize => raster[latOff + i][lonOff..lonOff + lonSize])
  }

  // ---- Where tiles are, and what they hold ----

  function TileStart(i: int, maxTileSize: int, margin: int): int
    requires 0 < maxTileSize
  {
    if i - i % maxTileSize < margin then margin else i - i % maxTileSize
  }

  function TileSide(start: int, maxTileSize: int, size: int, margin: int): int {
    if size - start - margin < maxTileSize then size - start - margin else maxTileSize
  }

  lemma TileHasIndex(i: int, maxTileSize: int, size: int, margin: int)
    requires 0 < maxTileSize && 0 <= margin <= i < size - margin
    ensures var start := TileStart(i, maxTileSize, margin);
      margin <= start <= i < start + TileSide(start, maxTileSize, size, margin) <= size - margin
  {
  }

  // The key is of a place in the file from which a tile can be read
  predicate KeyOk(f: GdalFile, numBands: int, maxTileSize: int, key: TileKey) {
    var t, m := f.transform, f.transform.margin.Floor;
    && FileOk(f, numBands) && 0 < maxTileSize && 1 <= key.band <= numBands
    && m <= key.latOffset <= t.latSize - m && m <= key.lonOffset <= t.lonSize - m
  }

  function MakeTile(f: GdalFile, numBands: int, maxTileSize: int, key: TileKey): (tile: TileInfo)
    requires KeyOk(f, numBands, maxTileSize, key)
  {
    var t, m := f.transform, f.transform.margin.Floor;
    var latSize := TileSide(key.latOffset, maxTileSize, t.latSize, m);
    var lonSize := TileSide(key.lonOffset, maxTileSize, t.lonSize, m);
    var tt := TileTransform(t, key.latOffset, key.lonOffset, latSize, lonSize);
    assert RasterOk(f.bands[key.band - 1], t);
    TileInfo(tt, MakeBoundRect(tt), InfoOf(key.baseName, f),
             Flat(Window(f.bands[key.band - 1], key.latOffset, key.lonOffset, latSize, lonSize)))
  }

  ghost predicate TileFits(files: Files, numBands: int, maxTileSize: int, key: TileKey, tile: TileInfo) {
    && key.baseName in files && KeyOk(files[key.baseName], numBands, maxTileSize, key)
    && tile == MakeTile(files[key.baseName], numBands, maxTileSize, key)
  }

  // ---- What is to be read: the pixel of the file that covers the point ----

  predicate FileCovers(files: Files, name: string, numBands: int, lat: real, lon: real)
    requires FilesOk(files, numBands)
  {
    name in files && Covers(files[name].transform, lat, lon)
  }

  function FilePixel(f: GdalFile, numBands: int, band: int, lat: real, lon: real): Pixel
    requires FileOk(f, numBands) && 1 <= band <= numBands && Covers(f.transform, lat, lon)
  {
    CoveredIsInside(f.transform, lat, lon);
    f.bands[band - 1][Row(f.transform, lat)][Column(f.transform, lon)]
  }

  // The file mapper names the file that covers the point, if there is one
  ghost predicate Mapped(files: Files, numBands: int, nameFor: (real, real) -> string, lat: real, lon: real)
    requires FilesOk(files, numBands)
  {
    forall name :: FileCovers(files, name, numBands, lat, lon) ==> nameFor(lat, lon) == name
  }

  // 'r' is the pixel of whatever file covers the point, None if none does
  ghost predicate IsPixelAt(files: Files, numBands: int, band: int, lat: real, lon: real, r: Option<Pixel>)
    requires FilesOk(files, numBands) && 1 <= band <= numBands
  {
    && (forall name :: FileCovers(files, name, numBands, lat, lon) ==>
          r == Some(FilePixel(files[name], numBands, band, lat, lon)))
    && (r.Some? ==> exists name :: FileCovers(files, name, numBands, lat, lon))
  }

  lemma OnePixelAt(files: Files, numBands: int, band: int, lat: real, lon: real, a: Option<Pixel>, b: Option<Pixel>)
    requires FilesOk(files, numBands) && 1 <= band <= numBands
    requires IsPixelAt(files, numBands, band, lat, lon, a) && IsPixelAt(files, numBands, band, lat, lon, b)
    ensures a == b
  {
    if a.Some? {
      var name :| FileCovers(files, name, numBands, lat, lon);
    }
  }

  // A tile that covers a point its file covers has the pixel of the file at the index computed
  // from the transform of the tile.
  lemma TileHasPixel(f: GdalFile, numBands: int, maxTileSize: int, key: TileKey, lat: real, lon: real)
    requires KeyOk(f, numBands, maxTileSize, key) && Covers(f.transform, lat, lon)
    requires Covers(MakeTile(f, numBands, maxTileSize, key).transformation, lat, lon)
    ensures var tile := MakeTile(f, numBands, maxTileSize, key);
      var tt := tile.transformation;
      var i := tt.lonSize * Row(tt, lat) + Column(tt, lon);
      0 <= i < |tile.tileVector| && tile.tileVector[i] == FilePixel(f, numBands, key.band, lat, lon)
  {
    hide Covers, Row, Column, MakeBoundRect, Pixels, Flat;
    var tt := MakeTile(f, numBands, maxTileSize, key).transformation;
    TileAgrees(f.transform, key.latOffset, key.lonOffset, tt.latSize, tt.lonSize, lat, lon);
    CoveredIsInside(f.transform, lat, lon);
    CoveredIsInside(tt, lat, lon);
    assert tt.margin.Floor == 0 && RasterOk(f.bands[key.band - 1], f.transform);
    var w := Window(f.bands[key.band - 1], key.latOffset, key.lonOffset, tt.latSize, tt.lonSize);
    FlatAt(w, tt.lonSize, Row(tt, lat), Column(tt, lon));
  }

  // The key of the tile to read for a pixel of a file
  function KeyFor(name: string, t: GdalTransform, band: int, row: int, column: int, maxTileSize: int): TileKey
    requires 0 < maxTileSize
  {
    var m := t.margin.Floor;
    TileKey(band, TileStart(row, maxTileSize, m), TileStart(column, maxTileSize, m), name)
  }

  datatype BandError = BandError

  class CachedGdal {
    const files: Files
    const monolithic: bool
    const nameFor: (real, real) -> string
    const numBands: int
    const maxTileSize: int
    const tileCache: LruValueCache<TileKey, TileInfo>
    const gdalDsCache: LruValueCache<string, GdalFile>
    var gdalInfos: map<string, Option<GdalInfo>>
    var recentGdalInfo: GdalInfo
    var noData: map<int, Pixel>
    ghost var history: seq<TileKey>   // the tiles that were used

    ghost predicate Settings() {
      && FilesOk(files, numBands) && 0 < maxTileSize && "" !in files
      && (monolithic ==> forall a, b :: a in files && b in files ==> a == b)
    }

    ghost predicate Valid()
      reads this, tileCache, gdalDsCache
    {
      && Settings()
      && tileCache.Valid() && gdalDsCache.Valid() && tileCache.list == Accessed(history, tileCache.capacity)
      && (forall key :: key in tileCache.items ==> TileFits(files, numBands, maxTileSize, key, tileCache.items[key]))
      && (forall name :: name in gdalDsCache.items ==> name in files && gdalDsCache.items[name] == files[name])
      && (forall name :: name in gdalInfos ==>
            gdalInfos[name] == if name in files then Some(InfoOf(name, files[name])) else None)
      && recentGdalInfo.baseName in files
      && recentGdalInfo == InfoOf(recentGdalInfo.baseName, files[recentGdalInfo.baseName])
    }

    // The point is one for which the mapper can be relied on; a single file needs no mapper
    ghost predicate Served(lat: real, lon: real)
      requires FilesOk(files, numBands)
    {
      monolithic || Mapped(files, numBands, nameFor, lat, lon)
    }

    constructor (files: Files, monolithic: bool, nameFor: (real, real) -> string, first: string,
                 numBands: int, maxTileSize: int, cacheSize: nat, dsCacheSize: nat)
      requires FilesOk(files, numBands) && 0 < maxTileSize && 0 < cacheSize && 0 < dsCacheSize
      requires first in files && "" !in files && (monolithic ==> forall a, b :: a in files && b in files ==> a == b)
      ensures Valid() && fresh(tileCache) && fresh(gdalDsCache)
      ensures this.files == files && this.numBands == numBands && this.nameFor == nameFor
        && this.monolithic == monolithic && this.maxTileSize == maxTileSize
      ensures history == [] && noData == map[] && recentGdalInfo == InfoOf(first, files[first])
    {
      this.files, this.monolithic, this.nameFor := files, monolithic, nameFor;
      this.numBands, this.maxTileSize := numBands, maxTileSize;
      tileCache := new LruValueCache<TileKey, TileInfo>(cacheSize);
      gdalDsCache := new LruValueCache<string, GdalFile>(dsCacheSize);
      gdalInfos := map[first := Some(InfoOf(first, files[first]))];
      recentGdalInfo := InfoOf(first, files[first]);
      noData := map[];
      history := [];
    }

    method GetGdalDataset(baseName: string) returns (f: GdalFile)
      requires Valid() && baseName in files
      modifies gdalDsCache
      ensures Valid() && f == files[baseName]
      ensures gdalDsCache.list == Touched(old(gdalDsCache.list), baseName, gdalDsCache.capacity)
    {
      RecentIsFirst(gdalDsCache);
      hide TileFits, FileOk, LruValueCache.Valid, InfoOf, Touched, Accessed, Distinct, CachedGdal.Settings;
      if gdalDsCache.recentKey == Some(baseName) {
        RecentIsHeld(gdalDsCache);
        return gdalDsCache.recentValue.value;
      }
      var found := gdalDsCache.Get(baseName);
      if found.Some? {
        return found.value;
      }
      f := OpenDataset(baseName);
    }

    method OpenDataset(baseName: string) returns (f: GdalFile)
      requires Valid() && baseName in files
      modifies gdalDsCache
      ensures Valid() && f == files[baseName]
      ensures gdalDsCache.list == Touched(old(gdalDsCache.list), baseName, gdalDsCache.capacity)
    {
      hide TileFits, FileOk, LruValueCache.Valid, InfoOf, Touched, Accessed, Distinct, CachedGdal.Settings;
      gdalDsCache.Add(baseName, files[baseName]);
      f := files[baseName];
    }

    method AddGdalInfo(baseName: string, f: Option<GdalFile>) returns (info: Option<GdalInfo>)
      requires Valid() && baseName !in gdalInfos
      requires f == if baseName in files then Some(files[baseName]) else None
      modifies this`gdalInfos, this`recentGdalInfo
      ensures Valid()
      ensures info == if baseName in files then Some(InfoOf(baseName, files[baseName])) else None
      ensures info.Some? ==> recentGdalInfo == info.value
      ensures info.None? ==> recentGdalInfo == old(recentGdalInfo)
      ensures gdalInfos == old(gdalInfos)[baseName := info]
    {
      hide TileFits, FileOk, LruValueCache.Valid, InfoOf;
      if f.Some? {
        assert FileOk(files[baseName], numBands);
        MadeWell(files[baseName], numBands);
        info := Some(InfoOf(baseName, f.value));
        gdalInfos := gdalInfos[baseName := info];
        recentGdalInfo := info.value;
        NameOfInfo(baseName, f.value);
      } else {
        gdalInfos := gdalInfos[baseName := None];
        info := None;
      }
    }

    // The file that may cover the point: the recent one if it does, otherwise the one named by
    // the mapper, if there is such a file
    method FindGdalInfo(lat: real, lon: real) returns (info: Option<GdalInfo>)
      requires Valid() && Served(lat, lon)
      modifies this`gdalInfos, this`recentGdalInfo, gdalDsCache
      ensures Valid()
      ensures info.Some? ==> recentGdalInfo == info.value
      ensures forall name :: FileCovers(files, name, numBands, lat, lon) ==>
        info.Some? && (info.value.baseName == name || FileCovers(files, info.value.baseName, numBands, lat, lon))
      ensures monolithic || old(Contains(recentGdalInfo.boundRect, lat, lon)) ==>
        info == Some(old(recentGdalInfo)) && gdalDsCache.list == old(gdalDsCache.list)
    {
      hide TileFits, LruValueCache.Valid, Covers, Contains, FileOk;
      RecentCovers(lat, lon);
      if monolithic || Contains(recentGdalInfo.boundRect, lat, lon) {
        return Some(recentGdalInfo);
      }
      var baseName := nameFor(lat, lon);
      if baseName == "" {
        return None;
      }
      if baseName in gdalInfos {
        info := gdalInfos[baseName];
        if info.Some? {
          assert FileOk(files[baseName], numBands);
          MadeWell(files[baseName], numBands);
          recentGdalInfo := info.value;
        }
      } else if baseName !in files {
        info := AddGdalInfo(baseName, None);
      } else {
        var f := GetGdalDataset(baseName);
        info := AddGdalInfo(baseName, Some(f));
      }
    }

    lemma {:induction false} RecentCovers(lat: real, lon: real)
      requires Valid()
      ensures Contains(recentGdalInfo.boundRect, lat, lon) <==>
        FileCovers(files, recentGdalInfo.baseName, numBands, lat, lon)
    {
    }

    method GetGdalPixel(lat: real, lon: real) returns (r: Option<(GdalInfo, int, int)>)
      requires Valid() && Served(lat, lon)
      modifies this`gdalInfos, this`recentGdalInfo, gdalDsCache
      ensures Valid()
      ensures r.Some? ==>
        && recentGdalInfo == r.value.0 && FileCovers(files, r.value.0.baseName, numBands, lat, lon)
        && r.value.0.transformation == files[r.value.0.baseName].transform
        && r.value.1 == Row(r.value.0.transformation, lat) && r.value.2 == Column(r.value.0.transformation, lon)
      ensures r.None? ==> forall name :: !FileCovers(files, name, numBands, lat, lon)
    {
      hide TileFits, LruValueCache.Valid, Covers, Contains, Row, Column;
      var info := FindGdalInfo(lat, lon);
      if info.None? {
        return None;
      }
      RecentCovers(lat, lon);
      if !Contains(info.value.boundRect, lat, lon) {
        return None;
      }
      var at := ComputePixel(info.value.transformation, lat, lon);
      r := Some((info.value, at.value.0, at.value.1));
    }

    method GetPixelDirect(band: int, lat: real, lon: real) returns (r: Result<Option<Pixel>, BandError>)
      requires Valid() && Served(lat, lon)
      modifies this`gdalInfos, this`recentGdalInfo, gdalDsCache
      ensures Valid()
      ensures r.Failure? <==> !(1 <= band <= numBands)
      ensures r.Success? ==> IsPixelAt(files, numBands, band, lat, lon, r.value)
      ensures r.Success? && r.value.Some? ==> FileCovers(files, recentGdalInfo.baseName, numBands, lat, lon)
    {
      hide TileFits, LruValueCache.Valid, Covers, Row, Column;
      if !(1 <= band <= numBands) {
        return Failure(BandError);
      }
      var at := GetGdalPixel(lat, lon);
      if at.None? {
        return Success(None);
      }
      var (info, row, column) := at.value;
      var f := GetGdalDataset(info.baseName);
      PixelIsThere(files, numBands, nameFor, monolithic, info.baseName, band, lat, lon);
      r := Success(Some(f.bands[band - 1][row][column]));
    }

    // The tile at hand: of the right band, and covering a point that its file covers
    ghost predicate TileServes(key: TileKey, tile: TileInfo, band: int, lat: real, lon: real)
      requires FilesOk(files, numBands)
    {
      && TileFits(files, numBands, maxTileSize, key, tile) && key.band == band
      && FileCovers(files, key.baseName, numBands, lat, lon) && Covers(tile.transformation, lat, lon)
    }

    // Reading a tile from its file
    method ReadTile(info: GdalInfo, key: TileKey) returns (tile: TileInfo)
      requires Valid() && key.baseName in files && info.baseName == key.baseName
      requires KeyOk(files[key.baseName], numBands, maxTileSize, key)
      modifies gdalDsCache
      ensures Valid() && TileFits(files, numBands, maxTileSize, key, tile)
    {
      hide MakeTile, LruValueCache.Valid;
      var f := GetGdalDataset(info.baseName);
      tile := MakeTile(f, numBands, maxTileSize, key);
    }

    // The tile that was used last covers the point, and so does its file. That the file does has
    // to be asked when its margin is not whole: the tile covers more of it then.
    predicate AtHand(band: int, lat: real, lon: real)
      reads tileCache
    {
      && tileCache.recentKey.Some? && tileCache.recentValue.Some?
      && Contains(tileCache.recentValue.value.boundRect, lat, lon)
      && Contains(tileCache.recentValue.value.gdalInfo.boundRect, lat, lon)
      && tileCache.recentKey.value.band == band
    }

    lemma {:induction false} AtHandServes(band: int, lat: real, lon: real)
      requires Valid() && tileCache.recentKey.Some?
      ensures AtHand(band, lat, lon) <==>
        TileServes(tileCache.recentKey.value, tileCache.recentValue.value, band, lat, lon)
      ensures tileCache.list == Touched(tileCache.list, tileCache.recentKey.value, tileCache.capacity)
    {
      hide FilesOk, Contains, Flat, Window;
      var key, tile := tileCache.recentKey.value, tileCache.recentValue.value;
      assert tileCache.list[0] == key && TileFits(files, numBands, maxTileSize, key, tile);
      FrontIsTouched(tileCache.list, tileCache.capacity);
    }

    ghost method Used(key: TileKey)
      modifies this`history
      ensures history == old(history) + [key]
      ensures Accessed(history, tileCache.capacity)
        == Touched(Accessed(old(history), tileCache.capacity), key, tileCache.capacity)
    {
      history := history + [key];
    }

    // In the cache are the tiles that were used most recently, as many as it has room for
    lemma HoldsRecentTiles()
      requires Valid()
      ensures tileCache.list == First(tileCache.capacity, Recency(history))
      ensures forall key :: key in tileCache.items <==> key in First(tileCache.capacity, Recency(history))
    {
      HoldsMostRecent(history, tileCache.capacity);
      hide TileFits, FileOk, Accessed;
    }

    // Makes a tile with the point the recent one in the cache. On the way the cache is accessed
    // for one key: that of the tile.
    method FindTile(band: int, lat: real, lon: real) returns (found: bool)
      requires Valid() && Served(lat, lon) && 1 <= band <= numBands
      modifies this`gdalInfos, this`recentGdalInfo, this`history, gdalDsCache, tileCache
      ensures Valid()
      ensures found ==>
        && tileCache.recentKey.Some? && tileCache.recentValue.Some?
        && TileServes(tileCache.recentKey.value, tileCache.recentValue.value, band, lat, lon)
      ensures found ==> history == old(history) + [tileCache.recentKey.value]
      ensures !found ==> history == old(history) && tileCache.list == old(tileCache.list)
      ensures !found ==> forall name :: !FileCovers(files, name, numBands, lat, lon)
      ensures old(AtHand(band, lat, lon)) ==> recentGdalInfo == old(recentGdalInfo)
    {
      hide LruValueCache.Valid, Covers, Row, Column, FileOk, KeyOk, MakeTile, KeyFor, InfoOf, Touched, Accessed,
        Contains;
      if tileCache.recentKey.Some? && AtHand(band, lat, lon) {
        AtHandServes(band, lat, lon);
        Used(tileCache.recentKey.value);
        return true;
      }
      hide AtHand;
      var at := GetGdalPixel(lat, lon);
      if at.None? {
        return false;
      }
      var (info, row, column) := at.value;
      var key := KeyFor(info.baseName, info.transformation, band, row, column, maxTileSize);
      assert FileOk(files[info.baseName], numBands);
      PointHasTile(files[info.baseName], info.baseName, numBands, maxTileSize, band, lat, lon);
      var hit := tileCache.Get(key);
      if hit.Some? {
        Used(key);
        return true;
      }
      var tile := ReadTile(info, key);
      tileCache.Add(key, tile);
      Used(key);
      found := true;
    }

    // The tile with the point, and the index of its pixel in the tile
    method GetTileVector(band: int, lat: real, lon: real) returns (r: Result<Option<(seq<Pixel>, int)>, BandError>)
      requires Valid() && Served(lat, lon)
      modifies this`gdalInfos, this`recentGdalInfo, this`history, gdalDsCache, tileCache
      ensures Valid()
      ensures r.Failure? <==> !(1 <= band <= numBands)
      ensures r.Success? && r.value.Some? ==>
        && 0 <= r.value.value.1 < |r.value.value.0|
        && IsPixelAt(files, numBands, band, lat, lon, Some(r.value.value.0[r.value.value.1]))
        && AtHand(band, lat, lon)
      ensures r.Success? && r.value.None? ==> IsPixelAt(files, numBands, band, lat, lon, None)
      ensures 1 <= band <= numBands && old(AtHand(band, lat, lon)) ==> recentGdalInfo == old(recentGdalInfo)
    {
      hide LruValueCache.Valid, Covers, Row, Column, FileOk, KeyOk, MakeTile, Touched, AtHand;
      if !(1 <= band <= numBands) {
        return Failure(BandError);
      }
      var found := FindTile(band, lat, lon);
      if !found {
        return Success(None);
      }
      AtHandServes(band, lat, lon);
      var key, tile := tileCache.recentKey.value, tileCache.recentValue.value;
      assert FileOk(files[key.baseName], numBands);
      PixelIsThere(files, numBands, nameFor, monolithic, key.baseName, band, lat, lon);
      TileHasPixel(files[key.baseName], numBands, maxTileSize, key, lat, lon);
      TileIsWell(files[key.baseName], numBands, maxTileSize, key);
      CoveredIsInside(tile.transformation, lat, lon);
      var at := ComputePixel(tile.transformation, lat, lon);
      var pixelIndex := tile.transformation.lonSize * at.value.0 + at.value.1;
      r := Success(Some((tile.tileVector, pixelIndex)));
    }

    // ---- Values: pixels, unless they stand for missing data ----

    function Override(band: int): Option<Pixel>
      reads this
    {
      if band in noData then Some(noData[band]) else None
    }

    function GdalNoData(band: int): Pixel
      requires 1 <= band <= |recentGdalInfo.noDataValues|
      reads this
    {
      recentGdalInfo.noDataValues[band - 1]
    }

    // Whether there is a value, and the value or what stands for it. The two routes to the pixel
    // give the same pixel; which of the files says what stands for missing data is another
    // matter, see StaleNoData below.
    method GetValueAt(lat: real, lon: real, band: int, direct: bool) returns (r: Result<(bool, Pixel), BandError>)
      requires Valid() && Served(lat, lon)
      modifies this`gdalInfos, this`recentGdalInfo, this`history, gdalDsCache, tileCache
      ensures Valid()
      ensures r.Failure? <==> !(1 <= band <= numBands)
      ensures r.Success? ==>
        IsValueAt(files, numBands, band, lat, lon, recentGdalInfo.noDataValues, Override(band), r.value)
      ensures r.Success? && direct && (exists name :: FileCovers(files, name, numBands, lat, lon)) ==>
        FileCovers(files, recentGdalInfo.baseName, numBands, lat, lon)
      ensures direct ==>
        && tileCache.list == old(tileCache.list)
        && tileCache.recentKey == old(tileCache.recentKey) && tileCache.recentValue == old(tileCache.recentValue)
      ensures r.Success? && !direct && (exists name :: FileCovers(files, name, numBands, lat, lon)) ==>
        AtHand(band, lat, lon)
      ensures r.Success? && !direct && old(AtHand(band, lat, lon)) ==> recentGdalInfo == old(recentGdalInfo)
    {
      hide LruValueCache.Valid, TileFits, Covers, AtHand, FileOk;
      var pixel: Option<Pixel>;
      if direct {
        var got := GetPixelDirect(band, lat, lon);
        if got.Failure? {
          return Failure(got.error);
        }
        pixel := got.value;
      } else {
        var got := GetTileVector(band, lat, lon);
        if got.Failure? {
          return Failure(got.error);
        }
        pixel := if got.value.None? then None else Some(got.value.value.0[got.value.value.1]);
      }
      RecentHasNoData(band);
      var ret := pixel.Some?;
      if ret && pixel.value == GdalNoData(band) {
        ret := false;
      }
      var v: Pixel;
      if ret {
        v := pixel.value;
      } else {
        v := if band in noData then noData[band] else GdalNoData(band);
      }
      assert IsPixelAt(files, numBands, band, lat, lon, pixel);
      r := Success((ret, v));
    }

    lemma RecentHasNoData(band: int)
      requires Valid() && 1 <= band <= numBands
      ensures |recentGdalInfo.noDataValues| == numBands
      ensures recentGdalInfo.baseName in files && recentGdalInfo.noDataValues == files[recentGdalInfo.baseName].noData
    {
      assert FileOk(files[recentGdalInfo.baseName], numBands);
    }

    method SetNoData(value: Pixel, band: int) returns (r: Result<(), BandError>)
      requires Valid()
      modifies this`noData
      ensures Valid()
      ensures r.Success? <==> 1 <= band <= numBands
      ensures r.Success? ==> Override(band) == Some(value)
      ensures forall other :: (r.Failure? || other != band) ==> Override(other) == old(Override(other))
    {
      hide TileFits, LruValueCache.Valid, FileOk;
      if !(1 <= band <= numBands) {
        return Failure(BandError);
      }
      noData := noData[band := value];
      r := Success(());
    }
  }

  // A value is missing if there is no pixel or the pixel is the one that stands for missing data
  function ValueOf(pixel: Option<Pixel>, fileNoData: Pixel, override: Option<Pixel>): (bool, Pixel) {
    if pixel.Some? && pixel.value != fileNoData then (true, pixel.value)
    else (false, if override.Some? then override.value else fileNoData)
  }

  ghost predicate IsValueAt(files: Files, numBands: int, band: int, lat: real, lon: real,
                            fileNoData: seq<Pixel>, override: Option<Pixel>, value: (bool, Pixel))
    requires FilesOk(files, numBands) && 1 <= band <= numBands
  {
    band <= |fileNoData| && exists pixel ::
      IsPixelAt(files, numBands, band, lat, lon, pixel) && IsValue(pixel, fileNoData[band - 1], override, value)
  }

  // There is a value exactly if there is a pixel and it is not the one for missing data; then it is the pixel.
  // Otherwise, be there a pixel or not, the override is returned, or the value for missing data if there is
  // no override.
  predicate IsValue(pixel: Option<Pixel>, fileNoData: Pixel, override: Option<Pixel>, value: (bool, Pixel)) {
    && (value.0 <==> pixel.Some? && pixel.value != fileNoData)
    && (value.0 ==> Some(value.1) == pixel)
    && (!value.0 && override.Some? ==> value.1 == override.value)
    && (!value.0 && override.None? ==> value.1 == fileNoData)
  }

  lemma OneValueAt(files: Files, numBands: int, band: int, lat: real, lon: real,
                   fileNoData: seq<Pixel>, override: Option<Pixel>, a: (bool, Pixel), b: (bool, Pixel))
    requires FilesOk(files, numBands) && 1 <= band <= numBands
    requires IsValueAt(files, numBands, band, lat, lon, fileNoData, override, a)
    requires IsValueAt(files, numBands, band, lat, lon, fileNoData, override, b)
    ensures a == b
  {
    hide IsPixelAt;
    var first :| IsPixelAt(files, numBands, band, lat, lon, first)
      && IsValue(first, fileNoData[band - 1], override, a);
    var second :| IsPixelAt(files, numBands, band, lat, lon, second)
      && IsValue(second, fileNoData[band - 1], override, b);
    OnePixelAt(files, numBands, band, lat, lon, first, second);
  }

  // After a value was set, a reading gives it wherever there is no pixel or one for missing data
  method MissingAfterSet(c: CachedGdal, value: Pixel, lat: real, lon: real, band: int, direct: bool)
    returns (r: (bool, Pixel))
    requires c.Valid() && c.Served(lat, lon) && 1 <= band <= c.numBands
    modifies c, c.gdalDsCache, c.tileCache
    ensures c.Valid()
    ensures c.recentGdalInfo.baseName in c.files && band <= |c.files[c.recentGdalInfo.baseName].noData|
    ensures var fileNoData := c.files[c.recentGdalInfo.baseName].noData[band - 1];
      forall pixel :: IsPixelAt(c.files, c.numBands, band, lat, lon, pixel) ==>
        r == if pixel.Some? && pixel.value != fileNoData then (true, pixel.value) else (false, value)
  {
    var done := c.SetNoData(value, band);
    var got := c.GetValueAt(lat, lon, band, direct);
    c.RecentHasNoData(band);
    r := got.value;
    forall pixel | IsPixelAt(c.files, c.numBands, band, lat, lon, pixel)
      ensures IsValue(pixel, c.recentGdalInfo.noDataValues[band - 1], Some(value), r)
    {
      OneValue(c.files, c.numBands, band, lat, lon, c.recentGdalInfo.noDataValues, Some(value), r, pixel);
    }
  }

  lemma OneValue(files: Files, numBands: int, band: int, lat: real, lon: real, fileNoData: seq<Pixel>,
                 override: Option<Pixel>, value: (bool, Pixel), pixel: Option<Pixel>)
    requires FilesOk(files, numBands) && 1 <= band <= numBands
    requires IsValueAt(files, numBands, band, lat, lon, fileNoData, override, value)
    requires IsPixelAt(files, numBands, band, lat, lon, pixel)
    ensures IsValue(pixel, fileNoData[band - 1], override, value)
  {
    hide IsPixelAt;
    var other :| IsPixelAt(files, numBands, band, lat, lon, other)
      && IsValue(other, fileNoData[band - 1], override, value);
    OnePixelAt(files, numBands, band, lat, lon, pixel, other);
  }

  lemma {:induction false} ValueInFile(files: Files, numBands: int, band: int, lat: real, lon: real,
                    fileNoData: seq<Pixel>, override: Option<Pixel>, value: (bool, Pixel), name: string)
    requires FilesOk(files, numBands) && 1 <= band <= numBands && FileCovers(files, name, numBands, lat, lon)
    requires IsValueAt(files, numBands, band, lat, lon, fileNoData, override, value)
    ensures value == ValueOf(Some(FilePixel(files[name], numBands, band, lat, lon)), fileNoData[band - 1], override)
  {
    hide FileCovers, FilePixel;
  }

  // When it makes no difference which file's value stands for missing data
  lemma SameValue(pixel: Option<Pixel>, a: Pixel, b: Pixel, override: Option<Pixel>)
    ensures ValueOf(pixel, a, override) == ValueOf(pixel, b, override) <==>
      a == b || (if pixel.Some? then pixel.value != a && pixel.value != b else override.Some?)
  {
  }

  // Whatever was read before, through the cache or not, the value at a point is the same by both
  // routes if all files have the same value for missing data.
  method ReadBothWays(c: CachedGdal, lat: real, lon: real, band: int)
    returns (cached: (bool, Pixel), direct: (bool, Pixel))
    requires c.Valid() && c.Served(lat, lon) && 1 <= band <= c.numBands
    requires forall a, b :: a in c.files && b in c.files ==> c.files[a].noData == c.files[b].noData
    modifies c, c.gdalDsCache, c.tileCache
    ensures c.Valid() && cached == direct
  {
    hide CachedGdal.Served, TileFits, LruValueCache.Valid, FileOk, IsValueAt, CachedGdal.AtHand;
    var r := c.GetValueAt(lat, lon, band, false);
    c.RecentHasNoData(band);
    var s := c.GetValueAt(lat, lon, band, true);
    c.RecentHasNoData(band);
    OneValueAt(c.files, c.numBands, band, lat, lon, c.recentGdalInfo.noDataValues, c.Override(band), r.value, s.value);
    cached, direct := r.value, s.value;
  }

  // Otherwise it may not be: a point of one file, then directly a point of another file, then
  // the first again. The last reading takes the tile at hand and leaves the other file the recent
  // one, so that its value is the one that stands for missing data.
  method StaleNoData(c: CachedGdal, lat: real, lon: real, band: int, name: string, lat': real, lon': real,
                     other: string)
    returns (cached: (bool, Pixel), direct: (bool, Pixel))
    requires c.Valid() && c.Served(lat, lon) && c.Served(lat', lon') && 1 <= band <= c.numBands && !c.monolithic
    requires FileCovers(c.files, name, c.numBands, lat, lon) && FileCovers(c.files, other, c.numBands, lat', lon')
    modifies c, c.gdalDsCache, c.tileCache
    ensures var pixel := Some(FilePixel(c.files[name], c.numBands, band, lat, lon));
      && cached == ValueOf(pixel, c.files[other].noData[band - 1], old(c.Override(band)))
      && direct == ValueOf(pixel, c.files[name].noData[band - 1], old(c.Override(band)))
  {
    hide TileFits, LruValueCache.Valid, FileOk, Contains, FileCovers, FilePixel, IsValueAt;
    var r := c.GetValueAt(lat, lon, band, false);
    r := c.GetValueAt(lat', lon', band, true);
    assert c.recentGdalInfo.baseName == other;
    r := c.GetValueAt(lat, lon, band, false);
    c.RecentHasNoData(band);
    ValueInFile(c.files, c.numBands, band, lat, lon, c.recentGdalInfo.noDataValues, c.Override(band), r.value, name);
    cached := r.value;
    r := c.GetValueAt(lat, lon, band, true);
    assert c.recentGdalInfo.baseName == name;
    c.RecentHasNoData(band);
    ValueInFile(c.files, c.numBands, band, lat, lon, c.recentGdalInfo.noDataValues, c.Override(band), r.value, name);
    direct := r.value;
  }

  lemma TileIsWell(f: GdalFile, numBands: int, maxTileSize: int, key: TileKey)
    requires KeyOk(f, numBands, maxTileSize, key)
    ensures WellFormed(MakeTile(f, numBands, maxTileSize, key).transformation)
    ensures MakeTile(f, numBands, maxTileSize, key).transformation.margin.Floor == 0
  {
  }

  lemma MadeWell(f: GdalFile, numBands: int)
    requires FileOk(f, numBands)
    ensures WellFormed(f.transform)
  {
  }

  lemma NameOfInfo(name: string, f: GdalFile)
    requires WellFormed(f.transform)
    ensures InfoOf(name, f).baseName == name
  {
  }

  lemma RecentIsHeld<K(!new), V>(cache: LruValueCache<K, V>)
    requires cache.Valid() && cache.recentKey.Some?
    ensures cache.recentKey.value in cache.items && cache.recentValue == Some(cache.items[cache.recentKey.value])
  {
  }

  lemma RecentIsFirst<K(!new), V>(cache: LruValueCache<K, V>)
    requires cache.Valid()
    ensures cache.recentKey.Some? ==> Touched(cache.list, cache.recentKey.value, cache.capacity) == cache.list
  {
    if cache.list != [] {
      FrontIsTouched(cache.list, cache.capacity);
    }
  }

  lemma {:induction false} PixelIsThere(files: Files, numBands: int, nameFor: (real, real) -> string, monolithic: bool,
                     name: string, band: int, lat: real, lon: real)
    requires FilesOk(files, numBands) && 1 <= band <= numBands && FileCovers(files, name, numBands, lat, lon)
    requires monolithic ==> forall a, b :: a in files && b in files ==> a == b
    requires monolithic || Mapped(files, numBands, nameFor, lat, lon)
    ensures IsPixelAt(files, numBands, band, lat, lon, Some(FilePixel(files[name], numBands, band, lat, lon)))
    ensures var t := files[name].transform;
      && 0 <= Row(t, lat) < |files[name].bands[band - 1]|
      && 0 <= Column(t, lon) < |files[name].bands[band - 1][Row(t, lat)]|
  {
    hide Covers, Row, Column;
    forall other | FileCovers(files, other, numBands, lat, lon)
      ensures other == name
    {
      assert !monolithic ==> nameFor(lat, lon) == other && nameFor(lat, lon) == name;
    }
    CoveredIsInside(files[name].transform, lat, lon);
    assert FileOk(files[name], numBands) && RasterOk(files[name].bands[band - 1], files[name].transform);
  }

  lemma FrontIsTouched<K(!new)>(list: seq<K>, capacity: nat)
    requires list != [] && Distinct(list) && |list| <= capacity
    ensures Touched(list, list[0], capacity) == list
  {
    WithoutAt(list, 0);
    assert list == [list[0]] + list[1..];
  }

  // A point its file covers has a key, and the tile of that key covers it
  lemma {:induction false} PointHasTile(f: GdalFile, name: string, numBands: int, maxTileSize: int, band: int,
                                        lat: real, lon: real)
    requires FileOk(f, numBands) && 0 < maxTileSize && 1 <= band <= numBands && Covers(f.transform, lat, lon)
    ensures var key := KeyFor(name, f.transform, band, Row(f.transform, lat), Column(f.transform, lon), maxTileSize);
      && KeyOk(f, numBands, maxTileSize, key) && key.band == band && key.baseName == name
      && Covers(MakeTile(f, numBands, maxTileSize, key).transformation, lat, lon)
  {
    hide Row, Column, Covers, MakeBoundRect, Flat, Window, Pixels, Unambiguous;
    var t, m := f.transform, f.transform.margin.Floor;
    var key := KeyFor(name, t, band, Row(t, lat), Column(t, lon), maxTileSize);
    CoveredIsInside(t, lat, lon);
    TileHasIndex(Row(t, lat), maxTileSize, t.latSize, m);
    TileHasIndex(Column(t, lon), maxTileSize, t.lonSize, m);
    TileHasItsPixels(t, key.latOffset, key.lonOffset, TileSide(key.latOffset, maxTileSize, t.latSize, m),
                     TileSide(key.lonOffset, maxTileSize, t.lonSize, m), lat, lon);
  }
}
