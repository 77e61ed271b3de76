/** From latitude and longitude to pixel rows and columns (src/afc-engine/GdalTransform.cpp),
    over the real numbers. */
module GdalGeometry {
  import opened Wrappers

  datatype BoundRect = BoundRect(latDegMin: real, lonDegMin: real, latDegMax: real, lonDegMax: real)

  datatype GdalTransform = GdalTransform(
    latPixPerDeg: real, lonPixPerDeg: real,
    latPixMax: real,  // pixels from the equator to the top row
    lonPixMin: real,  // pixels from Greenwich to the left column
    latSize: int, lonSize: int,
    margin: real)     // pixels along the border that do not count as covered

  predicate WellFormed(t: GdalTransform) {
    0.0 < t.latPixPerDeg && 0.0 < t.lonPixPerDeg && 0 <= t.latSize && 0 <= t.lonSize && 0.0 <= t.margin
  }

  // The longitude congruent to 'lon' modulo 360 in [base, base + 360)
  function Rebased(lon: real, base: real): real {
    lon - 360.0 * ((lon - base) / 360.0).Floor as real
  }

  lemma RebasedInRange(lon: real, base: real)
    ensures base <= Rebased(lon, base) < base + 360.0
  {
    var q := (lon - base) / 360.0;
    assert q.Floor as real <= q < q.Floor as real + 1.0;
  }

  lemma WholeMultipleBelowOne(n: int, x: real)
    requires -360.0 < x < 360.0 && x == 360.0 * n as real
    ensures n == 0
  {
  }

  // It is the only one
  lemma {:induction false} RebasedIsUnique(lon: real, base: real, x: real, n: int)
    requires x == lon + 360.0 * n as real && base <= x < base + 360.0
    ensures x == Rebased(lon, base)
  {
    RebasedInRange(lon, base);
    var m := ((lon - base) / 360.0).Floor;
    assert x - Rebased(lon, base) == 360.0 * (n + m) as real;
    WholeMultipleBelowOne(n + m, x - Rebased(lon, base));
  }

  method RebaseLon(lon: real, base: real) returns (r: real)
    ensures r == Rebased(lon, base)
  {
    r := lon;
    ghost var n := 0;
    while r - 360.0 >= base
      invariant r == lon + 360.0 * n as real
      decreases ((r - base) / 360.0).Floor
    {
      r := r - 360.0;
      n := n - 1;
    }
    while r < base
      invariant r == lon + 360.0 * n as real && r - 360.0 < base
      decreases ((base - r) / 360.0).Floor
    {
      r := r + 360.0;
      n := n + 1;
    }
    RebasedIsUnique(lon, base, r, n);
  }

  predicate Contains(br: BoundRect, latDeg: real, lonDeg: real) {
    var lon := Rebased(lonDeg, br.lonDegMin);
    br.latDegMin < latDeg && br.lonDegMin <= lon && latDeg <= br.latDegMax && lon < br.lonDegMax
  }

  // Between degrees and pixels. The proofs below use them only by the lemmas that follow.
  function Pixels(deg: real, pixPerDeg: real): real {
    deg * pixPerDeg
  }

  function Degrees(pix: real, pixPerDeg: real): real
    requires 0.0 < pixPerDeg
  {
    pix / pixPerDeg
  }

  lemma PixelsOrder(a: real, b: real, p: real)
    requires 0.0 < p
    ensures a < b <==> Pixels(a, p) < Pixels(b, p)
  {
    assert Pixels(b, p) - Pixels(a, p) == (b - a) * p;
    if a < b {
      assert 0.0 < (b - a) * p;
    } else {
      assert (b - a) * p <= 0.0;
    }
  }

  lemma PixelsOfDegrees(x: real, p: real)
    requires 0.0 < p
    ensures Pixels(Degrees(x, p), p) == x
  {
  }

  lemma PixelsOfSum(a: real, b: real, p: real)
    ensures Pixels(a + b, p) == Pixels(a, p) + Pixels(b, p)
    ensures Pixels(a - b, p) == Pixels(a, p) - Pixels(b, p)
  {
  }

  lemma Scaled(x: real, p: real, y: real)
    requires 0.0 < p
    ensures Degrees(x, p) < y <==> x < Pixels(y, p)
    ensures y < Degrees(x, p) <==> Pixels(y, p) < x
  {
    PixelsOfDegrees(x, p);
    PixelsOrder(Degrees(x, p), y, p);
    PixelsOrder(y, Degrees(x, p), p);
    hide Pixels, Degrees;
  }

  function MakeBoundRect(t: GdalTransform): BoundRect
    requires WellFormed(t)
  {
    BoundRect(Degrees(t.latPixMax - t.latSize as real + t.margin, t.latPixPerDeg),
              Degrees(t.lonPixMin + t.margin, t.lonPixPerDeg),
              Degrees(t.latPixMax - t.margin, t.latPixPerDeg),
              Degrees(t.lonPixMin + t.lonSize as real - t.margin, t.lonPixPerDeg))
  }

  predicate Covers(t: GdalTransform, latDeg: real, lonDeg: real)
    requires WellFormed(t)
  {
    Contains(MakeBoundRect(t), latDeg, lonDeg)
  }

  // Part of a file: its transform has the same scale and no margin
  function TileTransform(t: GdalTransform, latPixOffset: int, lonPixOffset: int, latSize: int,
                         lonSize: int): GdalTransform {
    GdalTransform(t.latPixPerDeg, t.lonPixPerDeg, t.latPixMax - latPixOffset as real,
                  t.lonPixMin + lonPixOffset as real, latSize, lonSize, 0.0)
  }

  function Clamp(i: int, size: int): int {
    var low := if size - 1 < i then size - 1 else i;
    if low < 0 then 0 else low
  }

  // An index that is off is brought to the next border
  predicate IsClamped(clamped: int, i: int, size: int) {
    && (0 <= i < size ==> clamped == i)
    && (i < 0 || size == 0 ==> clamped == 0)
    && (i >= size > 0 ==> clamped == size - 1)
  }

  datatype OutOfBounds = OutOfBounds

  // Row and column of a point, before they are checked and clamped
  function Row(t: GdalTransform, latDeg: real): int {
    (t.latPixMax - Pixels(latDeg, t.latPixPerDeg)).Floor
  }

  function Column(t: GdalTransform, lonDeg: real): int
    requires WellFormed(t)
  {
    (Pixels(Rebased(lonDeg, Degrees(t.lonPixMin + t.margin, t.lonPixPerDeg)), t.lonPixPerDeg) - t.lonPixMin).Floor
  }

  // As many whole pixels are between the top of the file and the point as its row says, and between the left
  // side and the point, after whole turns that bring it behind the margin, as its column says
  lemma PixelHasPoint(t: GdalTransform, latDeg: real, lonDeg: real) returns (turns: int)
    requires WellFormed(t)
    ensures var top, left := t.latPixMax / t.latPixPerDeg, t.lonPixMin / t.lonPixPerDeg;
      var lon := lonDeg + 360.0 * turns as real;
      && Row(t, latDeg) as real <= (top - latDeg) * t.latPixPerDeg < Row(t, latDeg) as real + 1.0
      && Column(t, lonDeg) as real <= (lon - left) * t.lonPixPerDeg < Column(t, lonDeg) as real + 1.0
      && 0.0 <= lon - (t.lonPixMin + t.margin) / t.lonPixPerDeg < 360.0
  {
    var base := Degrees(t.lonPixMin + t.margin, t.lonPixPerDeg);
    turns := -((lonDeg - base) / 360.0).Floor;
    RebasedInRange(lonDeg, base);
    assert Rebased(lonDeg, base) == lonDeg + 360.0 * turns as real;
    assert t.latPixMax / t.latPixPerDeg * t.latPixPerDeg == t.latPixMax;
    assert t.lonPixMin / t.lonPixPerDeg * t.lonPixPerDeg == t.lonPixMin;
  }

  method ComputePixel(t: GdalTransform, latDeg: real, lonDeg: real) returns (r: Result<(int, int), OutOfBounds>)
    requires WellFormed(t)
    ensures r.Success? <==> -1 <= Row(t, latDeg) <= t.latSize && -1 <= Column(t, lonDeg) <= t.lonSize
    ensures r.Success? ==>
      && IsClamped(r.value.0, Row(t, latDeg), t.latSize) && IsClamped(r.value.1, Column(t, lonDeg), t.lonSize)
    ensures Covers(t, latDeg, lonDeg) ==> r == Success((Row(t, latDeg), Column(t, lonDeg)))
  {
    hide Pixels, Degrees, Rebased, Covers;
    var lon := RebaseLon(lonDeg, Degrees(t.lonPixMin + t.margin, t.lonPixPerDeg));
    var latIdx := (t.latPixMax - Pixels(latDeg, t.latPixPerDeg)).Floor;
    var lonIdx := (Pixels(lon, t.lonPixPerDeg) - t.lonPixMin).Floor;
    if Covers(t, latDeg, lonDeg) {
      CoveredIsInside(t, latDeg, lonDeg);
      assert 0 <= t.margin.Floor;
    }
    if latIdx < -1 || latIdx > t.latSize || lonIdx < -1 || lonIdx > t.lonSize {
      return Failure(OutOfBounds);
    }
    latIdx := Clamp(latIdx, t.latSize);
    lonIdx := Clamp(lonIdx, t.lonSize);
    r := Success((latIdx, lonIdx));
  }

  lemma FloorBetween(x: real, margin: real, size: int)
    requires margin <= x < size as real - margin
    ensures margin.Floor <= x.Floor < size - margin.Floor
  {
  }

  // The longitude of a covered point that is used for its column, and its latitude, in pixels
  // from the left and from the top of the file
  lemma CoveredColumn(t: GdalTransform, latDeg: real, lonDeg: real) returns (lon: real)
    requires WellFormed(t) && Covers(t, latDeg, lonDeg)
    ensures lon == Rebased(lonDeg, Degrees(t.lonPixMin + t.margin, t.lonPixPerDeg))
    ensures t.margin <= Pixels(lon, t.lonPixPerDeg) - t.lonPixMin < t.lonSize as real - t.margin
    ensures Column(t, lonDeg) == (Pixels(lon, t.lonPixPerDeg) - t.lonPixMin).Floor
    ensures t.margin <= t.latPixMax - Pixels(latDeg, t.latPixPerDeg) < t.latSize as real - t.margin
  {
    hide Pixels, Degrees, Rebased;
    lon := Rebased(lonDeg, Degrees(t.lonPixMin + t.margin, t.lonPixPerDeg));
    Scaled(t.lonPixMin + t.margin, t.lonPixPerDeg, lon);
    Scaled(t.lonPixMin + t.lonSize as real - t.margin, t.lonPixPerDeg, lon);
    Scaled(t.latPixMax - t.latSize as real + t.margin, t.latPixPerDeg, latDeg);
    Scaled(t.latPixMax - t.margin, t.latPixPerDeg, latDeg);
  }

  // A point that the bounding rectangle contains never makes computePixel throw or clamp: its
  // row and column are those of pixels of the file, and the whole pixels of the margin are
  // not among them.
  lemma CoveredIsInside(t: GdalTransform, latDeg: real, lonDeg: real)
    requires WellFormed(t) && Covers(t, latDeg, lonDeg)
    ensures t.margin.Floor <= Row(t, latDeg) < t.latSize - t.margin.Floor
    ensures t.margin.Floor <= Column(t, lonDeg) < t.lonSize - t.margin.Floor
  {
    hide Pixels, Degrees, Rebased, Covers;
    var lon := CoveredColumn(t, latDeg, lonDeg);
    FloorBetween(t.latPixMax - Pixels(latDeg, t.latPixPerDeg), t.margin, t.latSize);
    FloorBetween(Pixels(lon, t.lonPixPerDeg) - t.lonPixMin, t.margin, t.lonSize);
  }

  // ---- Tiles of a file ----

  // The tile keeps out of the whole pixels of the margin
  predicate IsTileOf(t: GdalTransform, latOff: int, lonOff: int, latSize: int, lonSize: int)
    requires WellFormed(t)
  {
    var m := t.margin.Floor;
    && m <= latOff && 0 <= latSize && latOff + latSize <= t.latSize - m
    && m <= lonOff && 0 <= lonSize && lonOff + lonSize <= t.lonSize - m
  }

  // No covered column has the longitude of another column that a tile may have
  predicate Unambiguous(t: GdalTransform)
    requires WellFormed(t)
  {
    t.lonSize as real - t.margin.Floor as real - t.margin <= Pixels(360.0, t.lonPixPerDeg)
  }

  lemma SameLongitude(a: real, b: real, p: real, n: int)
    requires 0.0 < p && a == b + 360.0 * n as real
    requires Pixels(a, p) < Pixels(b, p) + Pixels(360.0, p) && Pixels(b, p) < Pixels(a, p) + Pixels(360.0, p)
    ensures a == b
  {
    hide Pixels;
    PixelsOfSum(b, 360.0, p);
    PixelsOfSum(a, 360.0, p);
    PixelsOrder(a, b + 360.0, p);
    PixelsOrder(b, a + 360.0, p);
    WholeMultipleBelowOne(n, a - b);
  }

  lemma RebasedDiffer(lon: real, base: real, base': real) returns (n: int)
    ensures Rebased(lon, base) == Rebased(lon, base') + 360.0 * n as real
  {
    n := ((lon - base') / 360.0).Floor - ((lon - base) / 360.0).Floor;
  }

  lemma FloorShift(x: real, k: int)
    ensures (x - k as real).Floor == x.Floor - k
  {
  }

  lemma {:induction false} SameInTile(t: GdalTransform, tile: GdalTransform, lonOff: int, latDeg: real, lonDeg: real)
    requires WellFormed(t) && Unambiguous(t) && Covers(t, latDeg, lonDeg)
    requires WellFormed(tile) && Covers(tile, latDeg, lonDeg)
    requires tile.lonPixPerDeg == t.lonPixPerDeg && tile.lonPixMin == t.lonPixMin + lonOff as real && tile.margin == 0.0
    requires t.margin.Floor <= lonOff && lonOff + tile.lonSize <= t.lonSize - t.margin.Floor
    ensures Column(tile, lonDeg) == Column(t, lonDeg) - lonOff
  {
    hide Pixels, Degrees, Rebased, Covers, Column;
    var inFile := CoveredColumn(t, latDeg, lonDeg);
    var inTile := CoveredColumn(tile, latDeg, lonDeg);
    var n := RebasedDiffer(lonDeg, Degrees(tile.lonPixMin + tile.margin, tile.lonPixPerDeg),
                           Degrees(t.lonPixMin + t.margin, t.lonPixPerDeg));
    SameLongitude(inTile, inFile, t.lonPixPerDeg, n);
    FloorShift(Pixels(inFile, t.lonPixPerDeg) - t.lonPixMin, lonOff);
    assert Pixels(inTile, t.lonPixPerDeg) - tile.lonPixMin
      == Pixels(inFile, t.lonPixPerDeg) - t.lonPixMin - lonOff as real;
  }

  // Where a covered point is in a tile that covers it too: at the same pixel of the file
  lemma {:induction false} TileAgrees(t: GdalTransform, latOff: int, lonOff: int, latSize: int, lonSize: int,
                                      latDeg: real, lonDeg: real)
    requires WellFormed(t) && Unambiguous(t) && IsTileOf(t, latOff, lonOff, latSize, lonSize)
    requires Covers(t, latDeg, lonDeg)
    requires Covers(TileTransform(t, latOff, lonOff, latSize, lonSize), latDeg, lonDeg)
    ensures var tile := TileTransform(t, latOff, lonOff, latSize, lonSize);
      Row(tile, latDeg) == Row(t, latDeg) - latOff && Column(tile, lonDeg) == Column(t, lonDeg) - lonOff
  {
    hide Pixels, Column, Covers;
    var above := t.latPixMax - Pixels(latDeg, t.latPixPerDeg);
    FloorShift(above, latOff);
    assert t.latPixMax - latOff as real - Pixels(latDeg, t.latPixPerDeg) == above - latOff as real;
    SameInTile(t, TileTransform(t, latOff, lonOff, latSize, lonSize), lonOff, latDeg, lonDeg);
  }

  lemma {:induction false} BackToLon(lonDeg: real, base: real, base': real)
    requires base' <= Rebased(lonDeg, base) < base' + 360.0
    ensures Rebased(lonDeg, base') == Rebased(lonDeg, base)
  {
    RebasedIsUnique(lonDeg, base', Rebased(lonDeg, base), -((lonDeg - base) / 360.0).Floor);
  }

  lemma FromFloor(x: real, low: int, n: int)
    requires low <= x.Floor < low + n
    ensures low as real <= x < (low + n) as real
  {
  }

  // 'left' is where the tile begins
  lemma TileHasLongitude(lon: real, p: real, lonPixMin: real, lonOff: int, lonSize: int, left: real)
    requires 0.0 < p && left == lonPixMin + lonOff as real && Pixels(lon, p) < left + Pixels(360.0, p)
    requires lonOff <= (Pixels(lon, p) - lonPixMin).Floor < lonOff + lonSize
    ensures Degrees(left, p) <= lon < Degrees(left + lonSize as real, p)
    ensures lon < Degrees(left, p) + 360.0
  {
    hide Pixels, Degrees;
    FromFloor(Pixels(lon, p) - lonPixMin, lonOff, lonSize);
    Scaled(left, p, lon);
    Scaled(left + lonSize as real, p, lon);
    Scaled(left, p, lon - 360.0);
    PixelsOfSum(lon, 360.0, p);
  }

  // 'top' is where the tile begins
  lemma TileHasLatitude(lat: real, q: real, latPixMax: real, latOff: int, latSize: int, top: real)
    requires 0.0 < q && latOff <= (latPixMax - Pixels(lat, q)).Floor < latOff + latSize
      && top == latPixMax - latOff as real
    ensures Degrees(top - latSize as real, q) < lat <= Degrees(top, q)
  {
    hide Pixels, Degrees;
    FromFloor(latPixMax - Pixels(lat, q), latOff, latSize);
    Scaled(top - latSize as real, q, lat);
    Scaled(top, q, lat);
  }

  // A tile covers the covered points whose pixels are in it
  lemma {:induction false} TileHasItsPixels(t: GdalTransform, latOff: int, lonOff: int, latSize: int, lonSize: int,
                                            latDeg: real, lonDeg: real)
    requires WellFormed(t) && Unambiguous(t) && IsTileOf(t, latOff, lonOff, latSize, lonSize)
    requires Covers(t, latDeg, lonDeg)
    requires latOff <= Row(t, latDeg) < latOff + latSize && lonOff <= Column(t, lonDeg) < lonOff + lonSize
    ensures Covers(TileTransform(t, latOff, lonOff, latSize, lonSize), latDeg, lonDeg)
  {
    hide Pixels, Degrees, Rebased, Column;
    var left, top := t.lonPixMin + lonOff as real, t.latPixMax - latOff as real;
    var lon := CoveredColumn(t, latDeg, lonDeg);
    TileHasLongitude(lon, t.lonPixPerDeg, t.lonPixMin, lonOff, lonSize, left);
    TileHasLatitude(latDeg, t.latPixPerDeg, t.latPixMax, latOff, latSize, top);
    BackToLon(lonDeg, Degrees(t.lonPixMin + t.margin, t.lonPixPerDeg), Degrees(left, t.lonPixPerDeg));
    var tile := TileTransform(t, latOff, lonOff, latSize, lonSize);
    assert tile.lonPixMin + tile.margin == left
      && tile.lonPixMin + lonSize as real - tile.margin == left + lonSize as real;
    assert tile.latPixMax - tile.margin == top
      && tile.latPixMax - latSize as real + tile.margin == top - latSize as real;
  }

  // Were it not for that condition, there would be a covered point and a tile of one pixel that
  // covers it, at another column of the file.
  lemma {:induction false} AmbiguousTile(t: GdalTransform)
    returns (latDeg: real, lonDeg: real, latOff: int, lonOff: int)
    requires WellFormed(t) && !Unambiguous(t) && 1.0 <= Pixels(360.0, t.lonPixPerDeg)
      && 2.0 * t.margin < t.latSize as real
    ensures IsTileOf(t, latOff, lonOff, 1, 1) && Covers(t, latDeg, lonDeg)
    ensures Covers(TileTransform(t, latOff, lonOff, 1, 1), latDeg, lonDeg)
    ensures Column(TileTransform(t, latOff, lonOff, 1, 1), lonDeg) != Column(t, lonDeg) - lonOff
  {
    hide Pixels, Degrees, Rebased, Covers;
    var p, q, m := t.lonPixPerDeg, t.latPixPerDeg, t.margin.Floor;
    latDeg, lonDeg := Degrees(t.latPixMax - t.margin, q), Degrees(t.lonPixMin + t.margin, p);
    PixelsOfDegrees(t.latPixMax - t.margin, q);
    PixelsOfDegrees(t.lonPixMin + t.margin, p);
    var around := t.margin + Pixels(360.0, p);
    latOff, lonOff := m, around.Floor;
    assert m < lonOff < t.lonSize - m;
    CornerIsCovered(t, latDeg, lonDeg);
    var tile, left := TileTransform(t, latOff, lonOff, 1, 1), t.lonPixMin + lonOff as real;
    PixelsOfSum(lonDeg, 360.0, p);
    TileHasLongitude(lonDeg + 360.0, p, t.lonPixMin, lonOff, 1, left);
    TileHasLatitude(latDeg, q, t.latPixMax, latOff, 1, t.latPixMax - latOff as real);
    Scaled(left, p, lonDeg);
    RebasedIsUnique(lonDeg, Degrees(left, p), lonDeg + 360.0, 1);
    RebasedIsUnique(lonDeg, lonDeg, lonDeg, 0);
    OnePixelTile(tile, latDeg, lonDeg, lonDeg + 360.0);
  }

  lemma OnePixelTile(tile: GdalTransform, latDeg: real, lonDeg: real, lon: real)
    requires WellFormed(tile) && tile.margin == 0.0 && tile.latSize == 1 && tile.lonSize == 1
    requires lon == Rebased(lonDeg, Degrees(tile.lonPixMin, tile.lonPixPerDeg))
    requires Degrees(tile.lonPixMin, tile.lonPixPerDeg) <= lon < Degrees(tile.lonPixMin + 1.0, tile.lonPixPerDeg)
    requires Degrees(tile.latPixMax - 1.0, tile.latPixPerDeg) < latDeg <= Degrees(tile.latPixMax, tile.latPixPerDeg)
    ensures Covers(tile, latDeg, lonDeg) && Column(tile, lonDeg) == 0
  {
    hide Pixels, Degrees, Rebased;
    assert tile.lonPixMin + tile.margin == tile.lonPixMin && tile.latPixMax - tile.margin == tile.latPixMax;
    assert tile.lonPixMin + 1 as real - tile.margin == tile.lonPixMin + 1.0;
    assert tile.latPixMax - 1 as real + tile.margin == tile.latPixMax - 1.0;
    CoveredIsInside(tile, latDeg, lonDeg);
  }

  lemma CornerIsCovered(t: GdalTransform, latDeg: real, lonDeg: real)
    requires WellFormed(t) && 2.0 * t.margin < t.latSize as real && 2.0 * t.margin < t.lonSize as real
    requires latDeg == Degrees(t.latPixMax - t.margin, t.latPixPerDeg)
    requires lonDeg == Degrees(t.lonPixMin + t.margin, t.lonPixPerDeg)
    ensures Covers(t, latDeg, lonDeg)
  {
    PixelsOfDegrees(t.latPixMax - t.margin, t.latPixPerDeg);
    PixelsOfDegrees(t.lonPixMin + t.margin, t.lonPixPerDeg);
    RebasedIsUnique(lonDeg, lonDeg, lonDeg, 0);
    hide Pixels, Degrees, Rebased;
    Scaled(t.latPixMax - t.latSize as real + t.margin, t.latPixPerDeg, latDeg);
    Scaled(t.lonPixMin + t.lonSize as real - t.margin, t.lonPixPerDeg, lonDeg);
  }
}
