/** Restricted areas and the tiles that cover them (Ras.Rect and rect_tiles of uls/fs_db_diff.py) */
module Ras {
  import opened Wrappers
  import opened TileReport
  import opened TileDiff

  function Adjusted(minLon: int): int {
    if minLon < -180 then minLon + 360 else if minLon >= 180 then minLon - 360 else minLon
  }

  // Longitudes from one turn further on both sides come back, by one turn
  lemma AdjustedIsProper(minLon: int)
    requires -540 <= minLon < 540
    ensures -180 <= Adjusted(minLon) < 180 && (Adjusted(minLon) - minLon) % 360 == 0
    ensures -180 <= minLon < 180 ==> Adjusted(minLon) == minLon
  {
  }

  method RectTiles(min: Point, max: Point) returns (tiles: seq<Tile>)
    ensures forall t :: t in tiles <==>
      min.lat.Floor <= t.minLat < Ceil(max.lat) && exists lon ::
        min.lon.Floor <= lon < Ceil(max.lon) && t.minLon == Adjusted(lon)
  {
    tiles := [];
    var lat := min.lat.Floor;
    while lat < Ceil(max.lat)
      invariant min.lat.Floor <= lat && (lat <= Ceil(max.lat) || tiles == [])
      invariant forall t :: t in tiles <==>
        min.lat.Floor <= t.minLat < lat && t.minLat < Ceil(max.lat) && exists lon ::
          min.lon.Floor <= lon < Ceil(max.lon) && t.minLon == Adjusted(lon)
      decreases Ceil(max.lat) - lat
    {
      ghost var before := tiles;
      var lon := min.lon.Floor;
      while lon < Ceil(max.lon)
        invariant min.lon.Floor <= lon
        invariant forall t :: t in tiles <==> t in before || (t.minLat == lat && exists l ::
          min.lon.Floor <= l < lon && l < Ceil(max.lon) && t.minLon == Adjusted(l))
        decreases Ceil(max.lon) - lon
      {
        tiles := tiles + [Tile(lat, Adjusted(lon))];
        lon := lon + 1;
      }
      lat := lat + 1;
    }
  }

  // The tile has the point, on its border or inside, with its longitude modulo 360
  predicate HasPoint(t: Tile, p: Point, turns: int) {
    var r := Rect(t);
    var lon := p.lon + 360.0 * turns as real;
    r.minLat <= p.lat <= r.maxLat && r.minLon <= lon <= r.maxLon
  }

  predicate IsIn(p: Point, min: Point, max: Point) {
    min.lat <= p.lat <= max.lat && min.lon <= p.lon <= max.lon
  }

  // The area is a single line of latitude or longitude, of a whole number of degrees
  predicate IsWholeLine(min: Point, max: Point) {
    (min.lat == max.lat && min.lat == min.lat.Floor as real) || (min.lon == max.lon && min.lon == min.lon.Floor as real)
  }

  lemma UnitWith(x: real, min: real, max: real) returns (n: int)
    requires min <= x <= max && !(min == max && min == min.Floor as real)
    ensures min.Floor <= n < Ceil(max) && n as real <= x <= n as real + 1.0
  {
    n := if x.Floor < Ceil(max) then x.Floor else x.Floor - 1;
    assert (-max).Floor as real <= -max < (-max).Floor as real + 1.0;
  }

  lemma SomeElement<T>(s: seq<T>)
    ensures s == [] || exists x :: x in s
  {
    if s != [] {
      assert s[0] in s;
    }
  }

  // The tiles of an area cover each of its points, unless the area is such a line: then there are
  // no tiles.
  lemma TilesCover(min: Point, max: Point, tiles: seq<Tile>, p: Point)
    requires forall t :: t in tiles <==>
      min.lat.Floor <= t.minLat < Ceil(max.lat) && exists lon ::
        min.lon.Floor <= lon < Ceil(max.lon) && t.minLon == Adjusted(lon)
    requires IsIn(p, min, max)
    ensures (exists t, turns :: t in tiles && HasPoint(t, p, turns)) <==> !IsWholeLine(min, max)
    ensures IsWholeLine(min, max) ==> tiles == []
  {
    if IsWholeLine(min, max) {
      SomeElement(tiles);
    } else {
      var lat := UnitWith(p.lat, min.lat, max.lat);
      var lon := UnitWith(p.lon, min.lon, max.lon);
      var t := Tile(lat, Adjusted(lon));
      var turns := if lon < -180 then 1 else if lon >= 180 then -1 else 0;
      assert t in tiles && HasPoint(t, p, turns);
    }
  }

  // A rectangle that grows corner by corner
  class RasRect {
    var min: Point
    var max: Point

    constructor (p: Point)
      ensures min == p && max == p
    {
      min, max := p, p;
    }

    // The corner is added where it is nearest, going around the earth if need be. The rectangle
    // has it then, and all that it had, and no border that is neither an old one nor the corner.
    method Extend(p: Point) returns (ghost turns: int)
      requires min.lat <= max.lat && min.lon <= max.lon
      modifies this
      ensures min.lat <= max.lat && min.lon <= max.lon && -1 <= turns <= 1
      ensures IsIn(old(min), min, max) && IsIn(old(max), min, max)
      ensures var q := Point(p.lat, p.lon + 360.0 * turns as real);
        && IsIn(q, min, max)
        && min.lat in {old(min).lat, q.lat} && min.lon in {old(min).lon, q.lon}
        && max.lat in {old(max).lat, q.lat} && max.lon in {old(max).lon, q.lon}
      ensures var center := (old(min).lon + old(max).lon) / 2.0;
        && (-540.0 <= p.lon - center <= 540.0 ==> -180.0 <= p.lon + 360.0 * turns as real - center <= 180.0)
        && (-180.0 <= p.lon - center <= 180.0 ==> turns == 0)
    {
      var otherLon := p.lon;
      var centerLon := (min.lon + max.lon) / 2.0;
      turns := 0;
      if otherLon - centerLon > 180.0 {
        otherLon := otherLon - 360.0;
        turns := -1;
      } else if otherLon - centerLon < -180.0 {
        otherLon := otherLon + 360.0;
        turns := 1;
      }
      min := Point(if p.lat < min.lat then p.lat else min.lat, if otherLon < min.lon then otherLon else min.lon);
      max := Point(if p.lat > max.lat then p.lat else max.lat, if otherLon > max.lon then otherLon else max.lon);
    }
  }
}
