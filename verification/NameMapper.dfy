/** Names of the files that hold the data for a point (src/afc-engine/GdalNameMapper.cpp), for
    patterns without wildcards, and what they mean for the cache of tiles. */
module NameMapper {
  import opened Wrappers
  import opened Decimals
  import opened GdalGeometry
  import Cached = CachedGdal

  datatype Src = Lat | Lon
  datatype Op = DegFloor | DegCeil | DegFloor1 | DegCeil1

  datatype NamePart =
    | Literal(str: string)
    | Hemi(src: Src, positive: char, negative: char)
    | Degree(src: Src, op: Op, width: nat)

  predicate Whole(x: real) {
    x == x.Floor as real
  }

  // ---- Name of a point ----

  // Numbers that are whole are on the border of two files; the operations that end with 1 take
  // the one below for the floor, the one above for the ceiling.
  function Moved(x: real, op: Op, isLon: bool): real {
    if !Whole(x) then x
    else if op == DegCeil1 then (if isLon && x + 1.0 == 181.0 then -179.0 else x + 1.0)
    else if op == DegFloor1 then (if isLon && x - 1.0 == -181.0 then 179.0 else x - 1.0)
    else x
  }

  // The number that goes into the name: for the operations that end with 1 it is always the one below, or the
  // one above, also for whole numbers, and goes on at the other side of the date line
  lemma NumberOfMoved(x: real, isLon: bool)
    ensures Ceil(Moved(x, DegCeil1, isLon)) == if isLon && x == 180.0 then -179 else x.Floor + 1
    ensures Moved(x, DegFloor1, isLon).Floor == if isLon && x == -180.0 then 179 else Ceil(x) - 1
    ensures Moved(x, DegCeil, isLon) == x == Moved(x, DegFloor, isLon)
  {
    assert (-x).Floor as real <= -x < (-x).Floor as real + 1.0;
    if Whole(x) {
      assert (-x).Floor == -x.Floor;
      assert (-(x + 1.0)).Floor == -x.Floor - 1;
      assert (x - 1.0).Floor == x.Floor - 1;
    }
  }

  function MovedBy(parts: seq<NamePart>, x: real, src: Src): real {
    if parts == [] then x
    else
      var before := MovedBy(parts[..|parts| - 1], x, src);
      var last := parts[|parts| - 1];
      if last.Degree? && last.src == src then Moved(before, last.op, src == Lon) else before
  }

  function PartText(part: NamePart, lat: real, lon: real): string {
    match part
    case Literal(str) => str
    case Hemi(src, positive, negative) =>
      [if (if src == Lat then lat else lon) < 0.0 then negative else positive]
    case Degree(src, op, width) =>
      var x := if src == Lat then lat else lon;
      Padded(Abs(if op == DegFloor || op == DegFloor1 then x.Floor else Ceil(x)), width)
  }

  function Texts(parts: seq<NamePart>, lat: real, lon: real): string {
    if parts == [] then [] else Texts(parts[..|parts| - 1], lat, lon) + PartText(parts[|parts| - 1], lat, lon)
  }

  function NameFor(parts: seq<NamePart>, lat: real, lon: real): string {
    Texts(parts, MovedBy(parts, lat, Lat), MovedBy(parts, lon, Lon))
  }

  method ComputeName(parts: seq<NamePart>, lat: real, lon: real) returns (ret: string)
    ensures ret == NameFor(parts, lat, lon)
  {
    var latDeg, lonDeg := lat, lon;
    for i := 0 to |parts|
      invariant latDeg == MovedBy(parts[..i], lat, Lat) && lonDeg == MovedBy(parts[..i], lon, Lon)
    {
      assert parts[..i + 1][..i] == parts[..i];
      var part := parts[i];
      if part.Degree? {
        var x := if part.src == Lat then latDeg else lonDeg;
        if part.op == DegCeil1 && Whole(x) {
          x := x + 1.0;
          if part.src == Lon && x == 181.0 {
            x := -179.0;
          }
        } else if part.op == DegFloor1 && Whole(x) {
          x := x - 1.0;
          if part.src == Lon && x == -181.0 {
            x := 179.0;
          }
        }
        if part.src == Lat {
          latDeg := x;
        } else {
          lonDeg := x;
        }
      }
    }
    assert parts[..|parts|] == parts;
    ret := "";
    for i := 0 to |parts|
      invariant ret == Texts(parts[..i], latDeg, lonDeg)
    {
      assert parts[..i + 1][..i] == parts[..i];
      ret := ret + PartText(parts[i], latDeg, lonDeg);
    }
  }

  // ---- Patterns of one-degree files ----

  // {latHem:NS}{latDegFloor:02}{lonHem:EW}{lonDegFloor:03}.hgt
  const SRTM: seq<NamePart> :=
    [Hemi(Lat, 'N', 'S'), Degree(Lat, DegFloor1, 2), Hemi(Lon, 'E', 'W'), Degree(Lon, DegFloor, 3), Literal(".hgt")]

  // {latHem:ns}{latDegCeil:02}{lonHem:ew}{lonDegFloor:03}.tif
  const CDSM: seq<NamePart> :=
    [Hemi(Lat, 'n', 's'), Degree(Lat, DegCeil, 2), Hemi(Lon, 'e', 'w'), Degree(Lon, DegFloor, 3), Literal(".tif")]

  // Both are of this form
  function FourParts(south: bool, latNumber: nat, west: bool, lonNumber: nat, letters: string,
                     extension: string): string
    requires |letters| == 4
  {
    [if south then letters[1] else letters[0]] + Padded(latNumber, 2)
    + [if west then letters[3] else letters[2]] + Padded(lonNumber, 3) + extension
  }

  lemma SamePieces(a: string, b: string, a': string, b': string)
    requires |a| == |a'| && a + b == a' + b'
    ensures a == a' && b == b'
  {
    assert (a + b)[..|a|] == a && (a' + b')[..|a'|] == a';
    assert (a + b)[|a|..] == b && (a' + b')[|a'|..] == b';
  }

  lemma SamePadded(n: nat, k: nat, width: nat)
    requires Padded(n, width) == Padded(k, width)
    ensures n == k
  {
    PaddedRoundTrip(n, width);
    PaddedRoundTrip(k, width);
  }

  lemma FourPartsDiffer(s: bool, n: nat, w: bool, m: nat, s': bool, n': nat, w': bool, m': nat, letters: string,
                        extension: string)
    requires n < 100 && n' < 100 && m < 1000 && m' < 1000
    requires |letters| == 4 && letters[0] != letters[1] && letters[2] != letters[3]
    requires FourParts(s, n, w, m, letters, extension) == FourParts(s', n', w', m', letters, extension)
    ensures s == s' && n == n' && w == w' && m == m'
  {
    hide Padded;
    var ns, ew := letters[..2], letters[2..];
    var a, a' := [if s then letters[1] else letters[0]], [if s' then letters[1] else letters[0]];
    var b, b' := Padded(n, 2), Padded(n', 2);
    var c, c' := [if w then letters[3] else letters[2]], [if w' then letters[3] else letters[2]];
    var d, d' := Padded(m, 3), Padded(m', 3);
    PaddedLength(n, 2);
    PaddedLength(n', 2);
    PaddedLength(m, 3);
    PaddedLength(m', 3);
    SamePieces(a + b + c + d, extension, a' + b' + c' + d', extension);
    SamePieces(a + b + c, d, a' + b' + c', d');
    SamePieces(a + b, c, a' + b', c');
    SamePieces(a, b, a', b');
    assert a[0] == a'[0] && c[0] == c'[0];
    SamePadded(n, n', 2);
    SamePadded(m, m', 3);
  }

  // The cell (n, n + 1] x [m, m + 1) of a point: its top and left border are part of it
  function CellLat(lat: real): int {
    Ceil(lat) - 1
  }

  predicate Named(lat: real, lon: real) {
    -90.0 <= lat <= 90.0 && -999.0 <= lon < 999.0
  }

  lemma SrtmName(lat: real, lon: real)
    ensures NameFor(SRTM, lat, lon)
      == FourParts(CellLat(lat) < 0, Abs(CellLat(lat)), lon.Floor < 0, Abs(lon.Floor), "NSEW", ".hgt")
  {
    hide Padded;
    MovedByFive(SRTM, lat, lon);
    TextsOfFive(SRTM, MovedBy(SRTM, lat, Lat), lon);
  }

  lemma CdsmName(lat: real, lon: real)
    ensures NameFor(CDSM, lat, lon)
      == FourParts(lat < 0.0, Abs(Ceil(lat)), lon.Floor < 0, Abs(lon.Floor), "nsew", ".tif")
  {
    hide Padded;
    MovedByFive(CDSM, lat, lon);
    TextsOfFive(CDSM, lat, lon);
  }

  predicate IsFive(parts: seq<NamePart>) {
    && |parts| == 5 && parts[0].Hemi? && parts[1].Degree? && parts[1].src == Lat
    && parts[2].Hemi? && parts[3].Degree? && parts[3].src == Lon && parts[4].Literal?
  }

  lemma MovedByFive(parts: seq<NamePart>, lat: real, lon: real)
    requires IsFive(parts)
    ensures MovedBy(parts, lat, Lat) == Moved(lat, parts[1].op, false)
    ensures MovedBy(parts, lon, Lon) == Moved(lon, parts[3].op, true)
  {
    assert parts[..4][..3] == parts[..3] && parts[..3][..2] == parts[..2] && parts[..2][..1] == parts[..1]
      && parts[..1][..0] == [];
    assert MovedBy(parts[..1], lat, Lat) == lat && MovedBy(parts[..2], lat, Lat) == Moved(lat, parts[1].op, false);
    assert MovedBy(parts[..3], lat, Lat) == MovedBy(parts[..2], lat, Lat);
    assert MovedBy(parts[..1], lon, Lon) == lon && MovedBy(parts[..2], lon, Lon) == lon;
    assert MovedBy(parts[..3], lon, Lon) == lon && MovedBy(parts[..4], lon, Lon) == Moved(lon, parts[3].op, true);
  }

  lemma TextsOfFive(parts: seq<NamePart>, lat: real, lon: real)
    requires |parts| == 5
    ensures Texts(parts, lat, lon) == PartText(parts[0], lat, lon) + PartText(parts[1], lat, lon)
      + PartText(parts[2], lat, lon) + PartText(parts[3], lat, lon) + PartText(parts[4], lat, lon)
  {
    hide PartText;
    assert parts[..4][..3] == parts[..3] && parts[..3][..2] == parts[..2] && parts[..2][..1] == parts[..1]
      && parts[..1][..0] == [];
    assert Texts(parts[..1], lat, lon) == PartText(parts[0], lat, lon);
    assert Texts(parts[..2], lat, lon) == PartText(parts[0], lat, lon) + PartText(parts[1], lat, lon);
    assert Texts(parts[..3], lat, lon) == Texts(parts[..2], lat, lon) + PartText(parts[2], lat, lon);
    assert Texts(parts[..4], lat, lon) == Texts(parts[..3], lat, lon) + PartText(parts[3], lat, lon);
  }

  // Points have the same name exactly if they are in the same cell
  lemma SrtmSameName(lat: real, lon: real, lat': real, lon': real)
    requires Named(lat, lon) && Named(lat', lon')
    ensures NameFor(SRTM, lat, lon) == NameFor(SRTM, lat', lon') <==>
      CellLat(lat) == CellLat(lat') && lon.Floor == lon'.Floor
  {
    SrtmName(lat, lon);
    SrtmName(lat', lon');
    hide NameFor, FourParts;
    if NameFor(SRTM, lat, lon) == NameFor(SRTM, lat', lon') {
      FourPartsDiffer(CellLat(lat) < 0, Abs(CellLat(lat)), lon.Floor < 0, Abs(lon.Floor),
                      CellLat(lat') < 0, Abs(CellLat(lat')), lon'.Floor < 0, Abs(lon'.Floor), "NSEW", ".hgt");
    }
  }

  // Not so if the latitude is rounded up: the points of the equator are in the cells to the
  // south of it, but their names have the letter of the north.
  lemma CdsmSameName(lat: real, lon: real, lat': real, lon': real)
    requires Named(lat, lon) && Named(lat', lon')
    ensures NameFor(CDSM, lat, lon) == NameFor(CDSM, lat', lon') <==>
      CellLat(lat) == CellLat(lat') && lon.Floor == lon'.Floor && (CellLat(lat) == -1 ==> (lat == 0.0 <==> lat' == 0.0))
  {
    CdsmName(lat, lon);
    CdsmName(lat', lon');
    hide NameFor, FourParts;
    if NameFor(CDSM, lat, lon) == NameFor(CDSM, lat', lon') {
      FourPartsDiffer(lat < 0.0, Abs(Ceil(lat)), lon.Floor < 0, Abs(lon.Floor),
                      lat' < 0.0, Abs(Ceil(lat')), lon'.Floor < 0, Abs(lon'.Floor), "nsew", ".tif");
    }
  }

  // ---- The cells and the rectangles of the files ----

  function CellRect(n: int, m: int): BoundRect {
    BoundRect(n as real, m as real, n as real + 1.0, m as real + 1.0)
  }

  predicate Within(br: BoundRect, outer: BoundRect) {
    && outer.latDegMin <= br.latDegMin && br.latDegMax <= outer.latDegMax
    && outer.lonDegMin <= br.lonDegMin && br.lonDegMax <= outer.lonDegMax
  }

  lemma CellContains(n: int, m: int, lat: real, lon: real)
    requires -180 <= m < 180 && -180.0 <= lon < 180.0
    ensures Contains(CellRect(n, m), lat, lon) <==> CellLat(lat) == n && lon.Floor == m
  {
    if lon < m as real {
      RebasedIsUnique(lon, m as real, lon + 360.0, 1);
    } else {
      RebasedIsUnique(lon, m as real, lon, 0);
    }
  }

  lemma {:induction false} WithinContains(br: BoundRect, n: int, m: int, lat: real, lon: real)
    requires Within(br, CellRect(n, m)) && Contains(br, lat, lon)
    ensures Contains(CellRect(n, m), lat, lon)
  {
    hide Rebased;
    BackToLon(lon, br.lonDegMin, m as real);
  }

  lemma {:induction false} RebasedIsPeriodic(lon: real, base: real, k: int)
    ensures Rebased(lon + 360.0 * k as real, base) == Rebased(lon, base)
  {
    RebasedInRange(lon, base);
    RebasedIsUnique(lon + 360.0 * k as real, base, Rebased(lon, base), -((lon - base) / 360.0).Floor - k);
  }

  // 'name' is that of the points of the cell, and the file covers nothing outside of it
  predicate IsCellFile(f: Cached.GdalFile, name: string, n: int, m: int) {
    && -91 <= n < 90 && -180 <= m < 180 && WellFormed(f.transform)
    && name == FourParts(n < 0, Abs(n), m < 0, Abs(m), "NSEW", ".hgt")
    && Within(MakeBoundRect(f.transform), CellRect(n, m))
  }

  ghost predicate CellFiles(files: Cached.Files) {
    forall name :: name in files ==> exists n, m :: IsCellFile(files[name], name, n, m)
  }

  // With one file for each cell, the pattern names the file that covers a point if the longitude
  // is from -180 up to but not including 180. Otherwise it does so only if there is no such file:
  // for longitude 180 it asks for E180 where the file is W180.
  lemma {:induction false} SrtmServes(files: Cached.Files, numBands: int, nameFor: (real, real) -> string, lat: real,
                                      lon: real)
    requires Cached.FilesOk(files, numBands) && CellFiles(files) && Named(lat, lon)
    requires nameFor(lat, lon) == NameFor(SRTM, lat, lon)
    ensures Cached.Mapped(files, numBands, nameFor, lat, lon) <==>
      -180.0 <= lon < 180.0 || forall name :: !Cached.FileCovers(files, name, numBands, lat, lon)
  {
    hide NameFor, FourParts, MakeBoundRect, Contains, Rebased;
    forall name | Cached.FileCovers(files, name, numBands, lat, lon)
      ensures nameFor(lat, lon) == name <==> -180.0 <= lon < 180.0
    {
      CoveredHasCell(files, name, numBands, lat, lon);
    }
  }

  lemma {:induction false} CoveredHasCell(files: Cached.Files, name: string, numBands: int, lat: real, lon: real)
    requires Cached.FilesOk(files, numBands) && CellFiles(files) && Named(lat, lon)
    requires Cached.FileCovers(files, name, numBands, lat, lon)
    ensures NameFor(SRTM, lat, lon) == name <==> -180.0 <= lon < 180.0
  {
    hide NameFor, FourParts, MakeBoundRect, Contains, Rebased, Cached.FileOk;
    var n, m :| IsCellFile(files[name], name, n, m);
    WithinContains(MakeBoundRect(files[name].transform), n, m, lat, lon);
    SrtmName(lat, lon);
    var onEarth, k := OnEarth(lon);
    SameRect(CellRect(n, m), lat, lon, onEarth, k);
    CellContains(n, m, lat, onEarth);
    if NameFor(SRTM, lat, lon) == name {
      FourPartsDiffer(CellLat(lat) < 0, Abs(CellLat(lat)), lon.Floor < 0, Abs(lon.Floor), n < 0, Abs(n), m < 0, Abs(m),
        "NSEW", ".hgt");
    }
  }

  lemma OnEarth(lon: real) returns (onEarth: real, k: int)
    ensures lon == onEarth + 360.0 * k as real && -180.0 <= onEarth < 180.0
    ensures k == 0 <==> -180.0 <= lon < 180.0
  {
    RebasedInRange(lon, -180.0);
    onEarth, k := Rebased(lon, -180.0), ((lon + 180.0) / 360.0).Floor;
    if -180.0 <= lon < 180.0 {
      WholeMultipleBelowOne(k, lon - onEarth);
    }
  }

  lemma {:induction false} SameRect(br: BoundRect, lat: real, lon: real, lon': real, k: int)
    requires lon == lon' + 360.0 * k as real
    ensures Contains(br, lat, lon) <==> Contains(br, lat, lon')
  {
    hide Rebased;
    RebasedIsPeriodic(lon', br.lonDegMin, k);
  }
}
