/** The one-degree tiles in which databases of FS paths differ: how the comparison prints them
    (Tile.__str__ and main of uls/fs_db_diff.py) and what the ULS service reads in what is
    printed (DbDiff of uls/uls_service.py). */
module TileReport {
  import opened Wrappers
  import opened Decimals

  datatype Tile = Tile(minLat: int, minLon: int)

  datatype LatLonRect = LatLonRect(minLat: real, maxLat: real, minLon: real, maxLon: real)

  function RangeText(min: int, positive: char, negative: char): string {
    "[" + Decimal(Abs(min)) + "-" + Decimal(Abs(min + 1)) + "]" + [if min >= 0 then positive else negative]
  }

  function TileText(t: Tile): string {
    RangeText(t.minLat, 'N', 'S') + ", " + RangeText(t.minLon, 'E', 'W')
  }

  const PREFIX := "Difference in tile "

  function TileLine(t: Tile): string {
    PREFIX + TileText(t) + "\n"
  }

  function TileLines(tiles: seq<Tile>): string {
    if tiles == [] then "" else TileLine(tiles[0]) + TileLines(tiles[1..])
  }

  function Summary(paths1: nat, paths2: nat, differentPaths: nat, differentRas: nat): string {
    "Paths in DB1: " + Decimal(paths1) + "\nPaths in DB2: " + Decimal(paths2)
    + "\nDifferent paths: " + Decimal(differentPaths) + "\nDifferent RAS entries: " + Decimal(differentRas) + "\n"
  }

  // ---- Matching the regular expression ----

  // Each function matches at the beginning, and gives what is behind the match

  function Literal(s: string, text: string): Option<string> {
    if text <= s then Some(s[|text|..]) else None
  }

  predicate IsNumberChar(c: char) {
    IsDigit(c) || c == '.'
  }

  function NumberEnd(s: string): (n: nat)
    ensures n <= |s|
  {
    if s == [] || !IsNumberChar(s[0]) then 0 else 1 + NumberEnd(s[1..])
  }

  function Number(s: string): Option<(string, string)> {
    var n := NumberEnd(s);
    if n == 0 then None else Some((s[..n], s[n..]))
  }

  datatype Ends = Ends(min: string, max: string, sign: char)

  // \[([0-9.]+)-([0-9.]+)\]([NS])
  function Range(s: string, positive: char, negative: char): Option<(Ends, string)> {
    match Literal(s, "[")
    case None => None
    case Some(s) =>
      match Number(s)
      case None => None
      case Some((min, s)) =>
        match Literal(s, "-")
        case None => None
        case Some(s) =>
          match Number(s)
          case None => None
          case Some((max, s)) =>
            match Literal(s, "]")
            case None => None
            case Some(s) =>
              if s != [] && (s[0] == positive || s[0] == negative) then Some((Ends(min, max, s[0]), s[1..])) else None
  }

  function Match(s: string): Option<(Ends, Ends, string)> {
    match Literal(s, PREFIX)
    case None => None
    case Some(s) =>
      match Range(s, 'N', 'S')
      case None => None
      case Some((lat, s)) =>
        match Literal(s, ", ")
        case None => None
        case Some(s) =>
          match Range(s, 'E', 'W')
          case None => None
          case Some((lon, s)) => Some((lat, lon, s))
  }

  // ---- The numbers ----

  datatype ValueError = ValueError

  function DotAt(s: string): (k: nat)
    ensures k <= |s| && '.' !in s[..k] && (k < |s| ==> s[k] == '.')
  {
    if s == [] || s[0] == '.' then 0
    else
      assert s[..1 + DotAt(s[1..])] == [s[0]] + s[1..][..DotAt(s[1..])];
      1 + DotAt(s[1..])
  }

  function Power10(n: nat): int {
    if n == 0 then 1 else 10 * Power10(n - 1)
  }

  lemma PowerIsPositive(n: nat)
    ensures Power10(n) > 0
  {
  }

  // Digits with at most one dot among them, and not the dot alone
  function Float(s: string): Result<real, ValueError> {
    var k := DotAt(s);
    var whole, decimals := s[..k], if k < |s| then s[k + 1..] else [];
    if '.' in decimals || whole + decimals == [] then Failure(ValueError)
    else
      PowerIsPositive(|decimals|);
      Success(Value(whole + decimals) as real / Power10(|decimals|) as real)
  }

  function Signed(sign: real, number: string): Result<real, ValueError> {
    match Float(number)
    case Failure(e) => Failure(e)
    case Success(x) => Success(x * sign)
  }

  function RectOf(lat: Ends, lon: Ends): Result<LatLonRect, ValueError> {
    var ns, ew := if lat.sign == 'N' then 1.0 else -1.0, if lon.sign == 'E' then 1.0 else -1.0;
    match (Signed(ns, lat.min), Signed(ns, lat.max), Signed(ew, lon.min), Signed(ew, lon.max))
    case (Success(a), Success(b), Success(c), Success(d)) => Success(LatLonRect(a, b, c, d))
    case _ => Failure(ValueError)
  }

  lemma {:induction false} MatchIsShorter(s: string)
    ensures Match(s).Some? ==> |Match(s).value.2| < |s|
  {
  }

  function After(rects: seq<LatLonRect>, rest: Result<seq<LatLonRect>, ValueError>)
    : Result<seq<LatLonRect>, ValueError>
  {
    if rest.Success? then Success(rects + rest.value) else Failure(ValueError)
  }

  // All matches, from the left, none overlapping
  function Parsed(s: string): Result<seq<LatLonRect>, ValueError>
    decreases |s|
  {
    if s == [] then Success([])
    else
      match Match(s)
      case None => Parsed(s[1..])
      case Some((lat, lon, rest)) =>
        MatchIsShorter(s);
        var rect := RectOf(lat, lon);
        if rect.Failure? then Failure(ValueError) else After([rect.value], Parsed(rest))
  }

  lemma {:induction false} ParsedStep(s: string)
    requires s != []
    ensures Match(s).None? ==> Parsed(s) == Parsed(s[1..])
    ensures Match(s).Some? ==>
      var (lat, lon, rest) := Match(s).value;
      && |rest| < |s|
      && Parsed(s) == if RectOf(lat, lon).Failure? then Failure(ValueError)
           else After([RectOf(lat, lon).value], Parsed(rest))
  {
    MatchIsShorter(s);
    hide Match, RectOf;
  }

  lemma AfterNone(x: Result<seq<LatLonRect>, ValueError>)
    ensures After([], x) == x
  {
    assert x.Failure? ==> x.error == ValueError;
    assert x.Success? ==> [] + x.value == x.value;
  }

  lemma AfterOne(rects: seq<LatLonRect>, rect: LatLonRect, x: Result<seq<LatLonRect>, ValueError>)
    ensures After(rects, After([rect], x)) == After(rects + [rect], x)
  {
    assert x.Success? ==> rects + ([rect] + x.value) == rects + [rect] + x.value;
  }

  // Either a match raises, or all of them are read
  method ParseTiles(output: string) returns (diffTiles: Result<seq<LatLonRect>, ValueError>)
    ensures diffTiles == Parsed(output)
  {
    hide Match, RectOf, Parsed, After;
    var rects, s := [], output;
    AfterNone(Parsed(output));
    while s != []
      invariant Parsed(output) == After(rects, Parsed(s))
      decreases |s|
    {
      ParsedStep(s);
      var m := Match(s);
      if m.None? {
        s := s[1..];
      } else {
        var rect := RectOf(m.value.0, m.value.1);
        if rect.Failure? {
          AfterFailure(rects);
          return Failure(rect.error);
        }
        AfterOne(rects, rect.value, Parsed(m.value.2));
        rects := rects + [rect.value];
        s := m.value.2;
      }
    }
    NothingParsed(rects);
    diffTiles := Success(rects);
  }

  lemma NothingParsed(rects: seq<LatLonRect>)
    ensures Parsed([]) == Success([]) && After(rects, Parsed([])) == Success(rects)
  {
    assert rects + [] == rects;
  }

  lemma AfterFailure(rects: seq<LatLonRect>)
    ensures forall e :: After(rects, Failure(e)) == Failure(ValueError) && e == ValueError
  {
  }

  // ---- What is printed is read ----

  function Rect(t: Tile): LatLonRect {
    LatLonRect(t.minLat as real, t.minLat as real + 1.0, t.minLon as real, t.minLon as real + 1.0)
  }

  function Rects(tiles: seq<Tile>): seq<LatLonRect> {
    seq(|tiles|, i requires 0 <= i < |tiles| => Rect(tiles[i]))
  }

  lemma LiteralFront(text: string, rest: string)
    ensures Literal(text + rest, text) == Some(rest)
  {
  }

  lemma {:induction false} NumberEndIs(digits: string, rest: string)
    requires AllDigits(digits) && rest != [] && !IsNumberChar(rest[0])
    ensures NumberEnd(digits + rest) == |digits|
  {
    if digits == [] {
      assert digits + rest == rest;
    } else {
      NumberEndIs(digits[1..], rest);
      assert (digits + rest)[1..] == digits[1..] + rest;
    }
  }

  lemma NumberFront(n: nat, rest: string)
    requires rest != [] && !IsNumberChar(rest[0])
    ensures Number(Decimal(n) + rest) == Some((Decimal(n), rest))
  {
    DecimalRoundTrip(n);
    NumberEndIs(Decimal(n), rest);
    hide Decimal;
  }

  lemma RangeFront(min: int, positive: char, negative: char, rest: string)
    ensures Range(RangeText(min, positive, negative) + rest, positive, negative)
      == Some((Ends(Decimal(Abs(min)), Decimal(Abs(min + 1)), if min >= 0 then positive else negative), rest))
  {
    hide Decimal, Number, Literal;
    var a, b, sign := Decimal(Abs(min)), Decimal(Abs(min + 1)), if min >= 0 then positive else negative;
    var s5 := [sign] + rest;
    var s4 := "]" + s5;
    var s3 := b + s4;
    var s2 := "-" + s3;
    var s1 := a + s2;
    assert RangeText(min, positive, negative) + rest == "[" + s1;
    LiteralFront("[", s1);
    NumberFront(Abs(min), s2);
    LiteralFront("-", s3);
    NumberFront(Abs(min + 1), s4);
    LiteralFront("]", s5);
    assert s5[1..] == rest;
  }

  function LatEnds(t: Tile): Ends {
    Ends(Decimal(Abs(t.minLat)), Decimal(Abs(t.minLat + 1)), if t.minLat >= 0 then 'N' else 'S')
  }

  function LonEnds(t: Tile): Ends {
    Ends(Decimal(Abs(t.minLon)), Decimal(Abs(t.minLon + 1)), if t.minLon >= 0 then 'E' else 'W')
  }

  lemma MatchFront(t: Tile, rest: string)
    ensures Match(PREFIX + TileText(t) + rest) == Some((LatEnds(t), LonEnds(t), rest))
  {
    hide Decimal, Literal, Range, RangeText;
    var s3 := RangeText(t.minLon, 'E', 'W') + rest;
    var s2 := ", " + s3;
    var s1 := RangeText(t.minLat, 'N', 'S') + s2;
    assert PREFIX + TileText(t) + rest == PREFIX + s1;
    LiteralFront(PREFIX, s1);
    RangeFront(t.minLat, 'N', 'S', s2);
    LiteralFront(", ", s3);
    RangeFront(t.minLon, 'E', 'W', rest);
  }

  lemma {:induction false} DigitsHaveNoDot(s: string)
    requires AllDigits(s)
    ensures DotAt(s) == |s|
  {
    if s != [] {
      DigitsHaveNoDot(s[1..]);
    }
  }

  lemma FloatOfDecimal(n: nat)
    ensures Float(Decimal(n)) == Success(n as real)
  {
    DecimalRoundTrip(n);
    DigitsHaveNoDot(Decimal(n));
    hide Decimal, Value, DotAt;
    var s := Decimal(n);
    assert s[..|s|] == s && s + [] == s;
    assert Power10(0) == 1;
  }

  // ---- Numbers with a dot ----

  // A power of ten is written as a 1 with that many zeros
  lemma {:induction false} PowerInDecimal(n: nat)
    ensures Power10(n) > 0 && Decimal(Power10(n)) == "1" + seq(n, _ => '0')
  {
    if n > 0 {
      PowerInDecimal(n - 1);
      PowerIsPositive(n - 1);
      assert Power10(n) / 10 == Power10(n - 1) && Power10(n) % 10 == 0 && Power10(n) >= 10;
      assert seq(n, _ => '0') == seq(n - 1, _ => '0') + "0";
    }
  }

  lemma {:induction false} ValueOfBoth(a: string, b: string)
    ensures Value(a + b) == Value(a) * Power10(|b|) + Value(b)
  {
    if b == [] {
      assert a + b == a;
    } else {
      var n := |b| - 1;
      ValueOfBoth(a, b[..n]);
      assert (a + b)[..|a + b| - 1] == a + b[..n];
      assert Power10(|b|) == 10 * Power10(n);
    }
  }

  lemma {:induction false} DecimalLength(f: nat, k: nat)
    requires f < Power10(k) && 0 < k
    ensures |Decimal(f)| <= k
  {
    if f >= 10 {
      assert Power10(k) == 10 * Power10(k - 1);
      assert k > 1;
      DecimalLength(f / 10, k - 1);
    }
  }

  lemma {:induction false} DotAfterDigits(s: string, rest: string)
    requires AllDigits(s)
    ensures DotAt(s + "." + rest) == |s|
  {
    var all := s + "." + rest;
    if s != [] {
      DotAfterDigits(s[1..], rest);
      assert all[1..] == s[1..] + "." + rest;
    }
  }

  lemma FloatOfDigits(whole: string, decimals: string)
    requires AllDigits(whole) && AllDigits(decimals) && whole != []
    ensures Power10(|decimals|) > 0
    ensures Float(whole + "." + decimals) == Success(Value(whole + decimals) as real / Power10(|decimals|) as real)
  {
    var s := whole + "." + decimals;
    DotAfterDigits(whole, decimals);
    PowerIsPositive(|decimals|);
    NoDot(decimals);
    hide Value, DotAt, Power10, AllDigits;
    assert s[..|whole|] == whole && s[|whole| + 1..] == decimals;
  }

  lemma Fraction(w: nat, f: nat, p: int)
    requires p > 0
    ensures (w * p + f) as real / p as real == w as real + f as real / p as real
  {
    assert (w * p) as real == w as real * p as real;
  }

  // A whole number, a dot, and k digits behind it
  lemma FloatOfFraction(w: nat, f: nat, k: nat)
    requires f < Power10(k) && 0 < k
    ensures |Padded(f, k)| == k && Power10(k) > 0
    ensures Float(Decimal(w) + "." + Padded(f, k)) == Success(w as real + f as real / Power10(k) as real)
  {
    hide *;
    DecimalRoundTrip(w);
    PaddedFits(f, k);
    NotEmpty(Decimal(w));
    FloatOfDigits(Decimal(w), Padded(f, k));
    ValueOfBoth(Decimal(w), Padded(f, k));
    PowerIsPositive(k);
    Fraction(w, f, Power10(k));
  }

  lemma NotEmpty(s: string)
    ensures 0 < |s| ==> s != []
  {
  }

  lemma PaddedFits(f: nat, k: nat)
    requires f < Power10(k) && 0 < k
    ensures |Padded(f, k)| == k && Value(Padded(f, k)) == f && AllDigits(Padded(f, k))
  {
    PaddedRoundTrip(f, k);
    DecimalLength(f, k);
  }

  lemma NoDot(s: string)
    requires AllDigits(s)
    ensures '.' !in s
  {
  }

  // What cannot be read: two dots, or no digit
  lemma FloatFailsExactly(s: string)
    requires forall i :: 0 <= i < |s| ==> IsNumberChar(s[i])
    ensures Float(s).Failure? <==>
      (exists i, j :: 0 <= i < j < |s| && s[i] == '.' && s[j] == '.') || (forall i :: 0 <= i < |s| ==> s[i] == '.')
  {
    var k := DotAt(s);
    var whole, decimals := s[..k], if k < |s| then s[k + 1..] else [];
    hide DotAt, Value, Power10, IsNumberChar;
    assert forall i :: 0 <= i < k ==> s[i] == whole[i] && s[i] in whole;
    assert forall j :: k < j < |s| ==> s[j] == decimals[j - k - 1] && s[j] in decimals;
    if '.' in decimals {
      var j :| 0 <= j < |decimals| && decimals[j] == '.';
      assert s[k] == '.' && s[k + 1 + j] == '.';
    }
    if i, j :| 0 <= i < j < |s| && s[i] == '.' && s[j] == '.' {
      assert i >= k && j > k;
    }
    if whole + decimals != [] {
      assert |whole| > 0 ==> s[0] != '.';
      assert |decimals| > 0 && '.' !in decimals ==> decimals[0] == s[k + 1];
    }
  }

  // Signs and absolute values give the tile back, also where it ends at the equator or at Greenwich
  lemma {:induction false} RectOfTile(t: Tile)
    ensures RectOf(LatEnds(t), LonEnds(t)) == Success(Rect(t))
  {
    FloatOfDecimal(Abs(t.minLat));
    FloatOfDecimal(Abs(t.minLat + 1));
    FloatOfDecimal(Abs(t.minLon));
    FloatOfDecimal(Abs(t.minLon + 1));
    hide Decimal, Float;
  }

  lemma {:induction false} NewLineIsNoMatch(rest: string)
    ensures Parsed("\n" + rest) == Parsed(rest)
  {
    var s := "\n" + rest;
    assert s[0] == '\n' && s[1..] == rest && PREFIX[0] == 'D';
    assert Match(s).None?;
    hide Match;
    ParsedStep(s);
  }

  lemma {:induction false} OneLineParsed(t: Tile, rest: string)
    ensures Parsed(TileLine(t) + rest) == After([Rect(t)], Parsed(rest))
  {
    var behind := "\n" + rest;
    var s := PREFIX + TileText(t) + behind;
    assert TileLine(t) + rest == s;
    MatchFront(t, behind);
    RectOfTile(t);
    hide TileText, Match, RectOf, Parsed;
    ParsedStep(s);
    NewLineIsNoMatch(rest);
  }

  lemma {:induction false} ParsedLines(tiles: seq<Tile>)
    ensures Parsed(TileLines(tiles)) == Success(Rects(tiles))
  {
    if tiles == [] {
      NothingParsed([]);
      assert TileLines(tiles) == [] && Rects(tiles) == [];
    } else {
      var rest := TileLines(tiles[1..]);
      assert TileLines(tiles) == TileLine(tiles[0]) + rest;
      hide Parsed, TileLine, TileLines, Rect, Rects, After;
      OneLineParsed(tiles[0], rest);
      ParsedLines(tiles[1..]);
      AfterRect(tiles);
    }
  }

  lemma AfterRect(tiles: seq<Tile>)
    requires tiles != []
    ensures After([Rect(tiles[0])], Success(Rects(tiles[1..]))) == Success(Rects(tiles))
  {
    assert Rects(tiles) == [Rect(tiles[0])] + Rects(tiles[1..]);
  }

  // ---- The summary in front of the tiles has nothing that looks like a tile ----

  // Wherever there is a D, it is not that of the word Difference
  predicate NoTile(s: string) {
    forall i :: 0 <= i < |s| && s[i] == 'D' ==> OtherWord(s, i)
  }

  predicate OtherWord(s: string, i: nat) {
    (i + 1 < |s| && s[i + 1] != 'i') || (i + 8 < |s| && s[i + 8] != 'c')
  }

  lemma NoTileAppended(a: string, b: string)
    requires NoTile(a) && NoTile(b)
    ensures NoTile(a + b)
  {
    var s := a + b;
    forall i | 0 <= i < |s| && s[i] == 'D'
      ensures OtherWord(s, i)
    {
      if i < |a| {
        assert a[i] == 'D';
        assert (i + 1 < |a| ==> s[i + 1] == a[i + 1]) && (i + 8 < |a| ==> s[i + 8] == a[i + 8]);
      } else {
        var j := i - |a|;
        assert b[j] == 'D';
        assert (j + 1 < |b| ==> s[i + 1] == b[j + 1]) && (j + 8 < |b| ==> s[i + 8] == b[j + 8]);
      }
    }
  }

  lemma DigitsHaveNoTile(n: nat)
    ensures NoTile(Decimal(n))
  {
    DecimalRoundTrip(n);
    hide Decimal;
  }

  lemma {:induction false} SummaryHasNoTile(paths1: nat, paths2: nat, differentPaths: nat, differentRas: nat)
    ensures NoTile(Summary(paths1, paths2, differentPaths, differentRas))
  {
    hide Decimal;
    var a, b, c, d, e := "Paths in DB1: ", "\nPaths in DB2: ", "\nDifferent paths: ", "\nDifferent RAS entries: ", "\n";
    assert NoTile(a) && NoTile(b) && NoTile(c) && NoTile(d) && NoTile(e);
    DigitsHaveNoTile(paths1);
    DigitsHaveNoTile(paths2);
    DigitsHaveNoTile(differentPaths);
    DigitsHaveNoTile(differentRas);
    hide NoTile;
    var s := a + Decimal(paths1);
    NoTileAppended(a, Decimal(paths1));
    NoTileAppended(s, b);
    s := s + b;
    NoTileAppended(s, Decimal(paths2));
    s := s + Decimal(paths2);
    NoTileAppended(s, c);
    s := s + c;
    NoTileAppended(s, Decimal(differentPaths));
    s := s + Decimal(differentPaths);
    NoTileAppended(s, d);
    s := s + d;
    NoTileAppended(s, Decimal(differentRas));
    s := s + Decimal(differentRas);
    NoTileAppended(s, e);
  }

  lemma {:induction false} ParsedBehind(head: string, rest: string)
    requires NoTile(head)
    ensures Parsed(head + rest) == Parsed(rest)
    decreases |head|
  {
    hide Parsed, Match, NoTile;
    if head == [] {
      assert head + rest == rest;
    } else {
      var s, tail := head + rest, head[1..];
      assert s[1..] == tail + rest;
      NoMatchHere(head, rest);
      ParsedStep(s);
      NoTileInTail(head);
      ParsedBehind(tail, rest);
    }
  }

  lemma NoTileInTail(head: string)
    requires head != [] && NoTile(head)
    ensures NoTile(head[1..])
  {
    var tail := head[1..];
    forall i | 0 <= i < |tail| && tail[i] == 'D'
      ensures OtherWord(tail, i)
    {
      assert head[i + 1] == 'D' && OtherWord(head, i + 1);
    }
  }

  lemma NoMatchHere(head: string, rest: string)
    requires head != [] && NoTile(head)
    ensures Match(head + rest).None?
  {
    var s := head + rest;
    assert head[0] == 'D' ==> OtherWord(head, 0);
    assert s[0] == head[0] && (1 < |head| ==> s[1] == head[1]) && (8 < |head| ==> s[8] == head[8]);
    PrefixChars(s);
  }

  lemma PrefixChars(s: string)
    ensures PREFIX <= s ==> 8 < |s| && s[0] == 'D' && s[1] == 'i' && s[8] == 'c'
  {
    assert PREFIX[0] == 'D' && PREFIX[1] == 'i' && PREFIX[8] == 'c';
  }

  // Everything that is printed about tiles is read, and nothing else: the rectangles are those of
  // the tiles, in the order in which they are printed.
  lemma {:induction false} ReportRoundTrip(paths1: nat, paths2: nat, differentPaths: nat, differentRas: nat,
                                           tiles: seq<Tile>)
    ensures Parsed(Summary(paths1, paths2, differentPaths, differentRas) + TileLines(tiles)) == Success(Rects(tiles))
  {
    hide Parsed, Summary, TileLines, NoTile, Rects;
    SummaryHasNoTile(paths1, paths2, differentPaths, differentRas);
    ParsedBehind(Summary(paths1, paths2, differentPaths, differentRas), TileLines(tiles));
    ParsedLines(tiles);
  }
}
