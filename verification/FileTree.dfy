/** The tree that the list of a directory is read into (src/afc-engine-preload/aep.cpp): entries
    in one array, linked to the next entry of the same directory and down to the first entry in
    it. Pointers to entries are indices into the array; index 0 is the root, which the source
    keeps beside the array. */
module FileTree {
  import opened FileList

  const NULL: int := -1

  datatype Fe = Fe(next: int, down: int, name: Name, size: FileSize)

  const UNUSED: Fe := Fe(NULL, NULL, [], 0)

  // ---- How the lines of a list are to be linked ----

  // How deep the entries are: the root, then the entries of the lines
  function Depth(lines: seq<Line>, i: nat): nat
    requires i <= |lines|
  {
    if i == 0 then 0 else lines[i - 1].tab + 1
  }

  // What is in a directory comes after it, and is one deeper
  predicate IsPreorder(lines: seq<Line>) {
    forall i :: 0 <= i < |lines| ==> Depth(lines, i + 1) <= Depth(lines, i) + 1
  }

  // The first entry from 'j' on that is not in entry 'i'
  function End(lines: seq<Line>, i: nat, j: nat): (e: nat)
    requires i < j <= |lines| + 1
    ensures j <= e <= |lines| + 1 && (e <= |lines| ==> Depth(lines, e) <= Depth(lines, i))
    ensures forall m :: j <= m < e ==> Depth(lines, m) > Depth(lines, i)
    decreases |lines| + 1 - j
  {
    if j == |lines| + 1 || Depth(lines, j) <= Depth(lines, i) then j else End(lines, i, j + 1)
  }

  function NextOf(lines: seq<Line>, i: nat): int
    requires i <= |lines|
  {
    var e := End(lines, i, i + 1);
    if e <= |lines| && Depth(lines, e) == Depth(lines, i) then e else NULL
  }

  function DownOf(lines: seq<Line>, i: nat): int
    requires i <= |lines|
  {
    if i < |lines| && Depth(lines, i + 1) > Depth(lines, i) then i + 1 else NULL
  }

  // A link, as long as there are only the first 'k' entries
  function Upto(link: int, k: nat): int {
    if link < k then link else NULL
  }

  function FeAt(lines: seq<Line>, k: nat, i: nat): Fe
    requires i <= |lines|
  {
    Fe(Upto(NextOf(lines, i), k), Upto(DownOf(lines, i), k),
       if i == 0 then [] else lines[i - 1].name, if i == 0 then 0 else lines[i - 1].size)
  }

  function TreeOf(lines: seq<Line>): seq<Fe> {
    seq(|lines| + 1, i requires 0 <= i <= |lines| => FeAt(lines, |lines| + 1, i))
  }

  // The first 'k' entries are there and linked to each other, the others are not used yet
  ghost predicate Filled(fes: seq<Fe>, lines: seq<Line>, k: nat) {
    && |fes| == |lines| + 1 && 1 <= k <= |fes|
    && forall i :: 0 <= i < |fes| ==> fes[i] == if i < k then FeAt(lines, k, i) else UNUSED
  }

  // The last of the first 'k' entries, and the directories that it is in, from the root
  ghost predicate IsOpen(lines: seq<Line>, k: nat, open: seq<nat>) {
    && 1 <= k <= |lines| + 1
    && |open| == Depth(lines, k - 1) + 1 && open[|open| - 1] == k - 1 && open[0] == 0
    && (forall t :: 0 <= t < |open| ==> open[t] < k && Depth(lines, open[t]) == t)
    && (forall t, j :: 0 <= t < |open| && open[t] < j < k ==> Depth(lines, j) > t)
  }

  // The line after the first 'k' entries: what it is linked to
  lemma LinkedTo(lines: seq<Line>, k: nat, open: seq<nat>, i: nat)
    requires IsPreorder(lines) && IsOpen(lines, k, open) && i < k <= |lines|
    ensures NextOf(lines, i) == k <==> Depth(lines, k) < |open| && i == open[Depth(lines, k)]
    ensures DownOf(lines, i) == k <==> Depth(lines, k) == |open| && i == k - 1
  {
    var depth := Depth(lines, k);
    assert Depth(lines, k - 1 + 1) <= Depth(lines, k - 1) + 1;
    if depth < |open| {
      if i < open[depth] {
        assert Depth(lines, open[depth]) == depth;
      }
    }
  }

  lemma NowOpen(lines: seq<Line>, k: nat, open: seq<nat>)
    requires IsPreorder(lines) && IsOpen(lines, k, open) && k <= |lines|
    ensures Depth(lines, k) <= |open| && IsOpen(lines, k + 1, open[..Depth(lines, k)] + [k])
  {
    assert Depth(lines, k - 1 + 1) <= Depth(lines, k - 1) + 1;
  }

  lemma OneMoreFe(lines: seq<Line>, k: nat, open: seq<nat>, i: nat)
    requires IsPreorder(lines) && IsOpen(lines, k, open) && i <= k <= |lines|
    ensures var depth := Depth(lines, k);
      FeAt(lines, k + 1, i) ==
        if i == k then Fe(NULL, NULL, lines[k - 1].name, lines[k - 1].size)
        else if depth < |open| && i == open[depth] then FeAt(lines, k, i).(next := k)
        else if depth == |open| && i == k - 1 then FeAt(lines, k, i).(down := k)
        else FeAt(lines, k, i)
  {
    assert 1 <= k;
    hide IsPreorder, IsOpen;
    if i < k {
      LinkedTo(lines, k, open, i);
    }
  }

  lemma FilledOneMore(fes: seq<Fe>, fes': seq<Fe>, lines: seq<Line>, k: nat, open: seq<nat>)
    requires IsPreorder(lines) && IsOpen(lines, k, open) && k <= |lines| && Filled(fes, lines, k)
    requires var depth := Depth(lines, k);
      && depth <= |open| && |fes'| == |fes| && fes'[k] == Fe(NULL, NULL, lines[k - 1].name, lines[k - 1].size)
      && var to := if depth == |open| then k - 1 else open[depth];
      && fes'[to] == (if depth == |open| then fes[to].(down := k) else fes[to].(next := k))
      && forall i :: 0 <= i < |fes| && i != k && i != to ==> fes'[i] == fes[i]
    ensures Filled(fes', lines, k + 1)
  {
    hide IsPreorder, FeAt, Depth;
    forall i | 0 <= i < |fes|
      ensures fes'[i] == if i < k + 1 then FeAt(lines, k + 1, i) else UNUSED
    {
      if i <= k {
        OneMoreFe(lines, k, open, i);
      }
    }
  }

  // ---- Reading the list ----

  function FromLittleEndian(bytes: seq<Byte>): nat {
    if bytes == [] then 0 else bytes[0] + 256 * FromLittleEndian(bytes[1..])
  }

  function Power256(n: nat): nat {
    if n == 0 then 1 else 256 * Power256(n - 1)
  }

  lemma {:induction false} LittleEndianRoundTrip(n: nat, bytes: nat)
    requires n < Power256(bytes)
    ensures |LittleEndian(n, bytes)| == bytes && FromLittleEndian(LittleEndian(n, bytes)) == n
    decreases bytes
  {
    if bytes > 0 {
      LittleEndianRoundTrip(n / 256, bytes - 1);
      assert LittleEndian(n, bytes)[1..] == LittleEndian(n / 256, bytes - 1);
    }
  }

  // Eight bytes of a signed number
  function Signed(n: nat): int {
    if n < 0x8000_0000_0000_0000 then n else n - 0x1_0000_0000_0000_0000
  }

  predicate NameOk(name: Name) {
    name != [] && 0 !in name && SLASH !in name && name[0] != TAB
  }

  // The bytes of the line begin at 'at'
  ghost predicate LineIsAt(filelist: seq<Byte>, at: int, line: Line) {
    && NameOk(line.name) && 0 <= at && at + |LineBytes(line)| <= |filelist|
    && filelist[at..at + |LineBytes(line)|] == LineBytes(line)
  }

  lemma SizeHasEight(size: FileSize)
    ensures |LittleEndian(size, 8)| == 8 && FromLittleEndian(LittleEndian(size, 8)) == size
  {
    assert Power256(8) == 0x1_0000_0000_0000_0000;
    LittleEndianRoundTrip(size, 8);
  }

  lemma PieceAt<T>(all: seq<T>, at: nat, a: seq<T>, b: seq<T>, c: seq<T>)
    requires at + |a + b + c| <= |all| && all[at..at + |a + b + c|] == a + b + c
    ensures all[at + |a|..at + |a| + |b|] == b
  {
    var whole := a + b + c;
    forall i | 0 <= i < |b|
      ensures all[at + |a| + i] == b[i]
    {
      assert all[at + (|a| + i)] == all[at..at + |whole|][|a| + i] == whole[|a| + i];
    }
  }

  lemma SameBytes(filelist: seq<Byte>, at: nat, piece: seq<Byte>)
    requires at + |piece| <= |filelist| && filelist[at..at + |piece|] == piece
    ensures forall i :: at <= i < at + |piece| ==> filelist[i] == piece[i - at]
  {
    assert forall i :: at <= i < at + |piece| ==> filelist[at..at + |piece|][i - at] == filelist[i];
  }

  lemma LineIs(line: Line)
    ensures LineBytes(line) == seq(line.tab, _ => TAB) + line.name + [0] + LittleEndian(line.size, 8)
    ensures |LineBytes(line)| == line.tab + |line.name| + 9
  {
    SizeHasEight(line.size);
    hide LittleEndian;
  }

  // Where the parts of a line are
  lemma PartsOfLine(filelist: seq<Byte>, at: int, line: Line)
    requires LineIsAt(filelist, at, line)
    ensures var name := at + line.tab;
      var size := name + |line.name| + 1;
      && |LineBytes(line)| == line.tab + |line.name| + 9 && size + 8 <= |filelist|
      && (forall i :: at <= i < name ==> filelist[i] == TAB) && filelist[name] != TAB
      && (forall i :: name <= i < size - 1 ==> filelist[i] != 0) && filelist[size - 1] == 0
      && filelist[name..size - 1] == line.name
      && FromLittleEndian(filelist[size..size + 8]) == line.size
  {
    LineIs(line);
    SizeHasEight(line.size);
    NameHas(line.name);
    hide LittleEndian, FromLittleEndian, NameOk, LineBytes;
    LineBeginsWith(filelist, at, seq(line.tab, _ => TAB), line.name, LittleEndian(line.size, 8));
  }

  lemma LineBeginsWith(filelist: seq<Byte>, at: nat, tabs: seq<Byte>, name: Name, bytes: seq<Byte>)
    requires var whole := tabs + name + [0] + bytes; at + |whole| <= |filelist| && filelist[at..at + |whole|] == whole
    requires (forall i :: 0 <= i < |tabs| ==> tabs[i] == TAB) && |bytes| == 8
    requires name != [] && name[0] != TAB && forall i :: 0 <= i < |name| ==> name[i] != 0
    ensures var n := at + |tabs|;
      var z := n + |name|;
      && z + 9 <= |filelist| && (forall i :: at <= i < n ==> filelist[i] == TAB) && filelist[n] != TAB
      && (forall i :: n <= i < z ==> filelist[i] != 0) && filelist[z] == 0
      && filelist[n..z] == name && filelist[z + 1..z + 9] == bytes
  {
    PiecesOfLine(filelist, at, tabs, name, bytes);
    SameBytes(filelist, at, tabs);
    SameBytes(filelist, at + |tabs|, name);
    SameBytes(filelist, at + |tabs| + |name|, [0]);
  }

  lemma NameHas(name: Name)
    ensures NameOk(name) ==> name != [] && name[0] != TAB && forall i :: 0 <= i < |name| ==> name[i] != 0
  {
  }

  lemma PiecesOfLine(filelist: seq<Byte>, at: nat, tabs: seq<Byte>, name: Name, bytes: seq<Byte>)
    requires var whole := tabs + name + [0] + bytes; at + |whole| <= |filelist| && filelist[at..at + |whole|] == whole
    ensures var n := at + |tabs|;
      var z := n + |name|;
      && z + 1 + |bytes| <= |filelist|
      && filelist[at..n] == tabs && filelist[n..z] == name && filelist[z..z + 1] == [0]
           && filelist[z + 1..z + 1 + |bytes|] == bytes
  {
    var whole := tabs + name + [0] + bytes;
    assert whole == [] + tabs + (name + [0] + bytes) && whole == tabs + name + ([0] + bytes);
    assert whole == (tabs + name) + [0] + bytes && whole == (tabs + name + [0]) + bytes + [];
    PieceAt(filelist, at, [], tabs, name + [0] + bytes);
    PieceAt(filelist, at, tabs, name, [0] + bytes);
    PieceAt(filelist, at, tabs + name, [0], bytes);
    PieceAt(filelist, at, tabs + name + [0], bytes, []);
  }

  method CountTabs(filelist: seq<Byte>, at: int, ghost n: nat) returns (tab: nat, fl: int)
    requires 0 <= at && at + n < |filelist| && n < 256
    requires (forall i :: at <= i < at + n ==> filelist[i] == TAB) && filelist[at + n] != TAB
    ensures tab == n && fl == at + n
  {
    tab, fl := 0, at;
    while filelist[fl] == TAB
      invariant 0 <= tab <= n && fl == at + tab
      decreases n - tab
    {
      assert tab + 1 < 256;
      tab := (tab + 1) % 256;
      fl := fl + 1;
    }
  }

  method StringEnd(filelist: seq<Byte>, at: int, ghost n: nat) returns (fl: int)
    requires 0 <= at && at + n < |filelist|
    requires (forall i :: at <= i < at + n ==> filelist[i] != 0) && filelist[at + n] == 0
    ensures fl == at + n
  {
    fl := at;
    while filelist[fl] != 0
      invariant at <= fl <= at + n
      decreases at + n - fl
    {
      fl := fl + 1;
    }
  }

  method ReadLine(filelist: seq<Byte>, at: int, ghost line: Line)
    returns (tab: nat, name: Name, size: FileSize, fl: int)
    requires LineIsAt(filelist, at, line) && line.tab < 256
    ensures tab == line.tab && name == line.name && size == line.size && fl == at + |LineBytes(line)|
  {
    PartsOfLine(filelist, at, line);
    hide LineIsAt, LineBytes, FromLittleEndian;
    tab, fl := CountTabs(filelist, at, line.tab);
    var end := StringEnd(filelist, fl, |line.name|);
    name := filelist[fl..end];
    fl := end + 1;
    size := Signed(FromLittleEndian(filelist[fl..fl + 8]));
    fl := fl + 8;
  }

  // ---- Filling the tree ----

  // The first entry in an open directory, and from one entry in it to the next
  lemma FirstIn(lines: seq<Line>, k: nat, open: seq<nat>, depth: nat)
    requires IsPreorder(lines) && IsOpen(lines, k, open) && 1 <= depth < |open|
    ensures var first := open[depth - 1] + 1;
      first <= open[depth] < k && Depth(lines, first) == depth && DownOf(lines, first - 1) == first
  {
    var first := open[depth - 1] + 1;
    assert Depth(lines, open[depth - 1]) == depth - 1;
    assert Depth(lines, first - 1 + 1) <= Depth(lines, first - 1) + 1;
  }

  lemma NextIn(lines: seq<Line>, k: nat, open: seq<nat>, depth: nat, c: nat)
    requires IsPreorder(lines) && IsOpen(lines, k, open) && 1 <= depth < |open|
    requires open[depth - 1] < c <= open[depth] && Depth(lines, c) == depth
    ensures var next := Upto(NextOf(lines, c), k);
      if c == open[depth] then next == NULL else c < next <= open[depth] && Depth(lines, next) == depth
  {
    var e := End(lines, c, c + 1);
    if c < open[depth] {
      assert Depth(lines, open[depth]) == depth;
      assert Depth(lines, e) > depth - 1;
    }
  }

  method LastIn(fes: array<Fe>, cstack: int, ghost lines: seq<Line>, ghost k: nat, ghost open: seq<nat>,
                ghost depth: nat) returns (cfe: int)
    requires IsPreorder(lines) && IsOpen(lines, k, open) && Filled(fes[..], lines, k)
    requires 1 <= depth < |open| && cstack == open[depth - 1]
    ensures cfe == open[depth]
  {
    FirstIn(lines, k, open, depth);
    hide IsPreorder, IsOpen, NextOf, DownOf, Depth;
    assert fes[..][cstack] == FeAt(lines, k, cstack);
    cfe := fes[cstack].down;
    NextIn(lines, k, open, depth, cfe);
    assert fes[..][cfe] == FeAt(lines, k, cfe);
    while cfe != NULL && fes[cfe].next != NULL
      invariant open[depth - 1] < cfe <= open[depth] && Depth(lines, cfe) == depth && open[depth] < fes.Length
      invariant fes[cfe].next == Upto(NextOf(lines, cfe), k)
      invariant if cfe == open[depth] then fes[cfe].next == NULL
        else cfe < fes[cfe].next <= open[depth] && Depth(lines, fes[cfe].next) == depth
      decreases open[depth] - cfe
    {
      cfe := fes[cfe].next;
      NextIn(lines, k, open, depth, cfe);
      assert fes[..][cfe] == FeAt(lines, k, cfe);
    }
  }

  // What the loop keeps between lines: the directory that the last entry is in, and the last
  // entry itself
  ghost predicate AtEntry(lines: seq<Line>, k: nat, open: seq<nat>, stack: seq<int>, tabPrev: nat, cstack: int,
                          cfe: int) {
    && IsOpen(lines, k, open)
    && tabPrev == (if k == 1 then 0 else |open| - 2)
    && tabPrev < |stack| && (forall t :: 0 <= t <= tabPrev ==> stack[t] == open[t])
    && cstack == stack[tabPrev] && cfe == if k == 1 then NULL else k - 1
  }

  // Where the entry of the next line goes: into 'cstack', after 'cfe' unless it is the first
  method Place(fes: array<Fe>, stack: array<int>, tab: nat, tabPrev: nat, cstack: int, cfe: int,
               ghost lines: seq<Line>, ghost k: nat, ghost open: seq<nat>)
    returns (cstack': int, cfe': int)
    requires IsPreorder(lines) && Filled(fes[..], lines, k) && k <= |lines|
    requires AtEntry(lines, k, open, stack[..], tabPrev, cstack, cfe)
    requires tab == lines[k - 1].tab && tab < stack.Length
    modifies stack
    ensures tab < |open| && cstack' == open[tab] && (tab + 1 < |open| ==> cfe' == open[tab + 1])
    ensures tab + 1 == |open| ==> cstack' == k - 1
    ensures forall t :: 0 <= t <= tab ==> stack[t] == open[t]
  {
    assert Depth(lines, k - 1 + 1) <= Depth(lines, k - 1) + 1;
    assert forall t :: 0 <= t <= tabPrev ==> stack[..][t] == open[t];
    cstack', cfe' := cstack, cfe;
    if tab != tabPrev {
      if tab < tabPrev {
        cstack' := stack[tab];
        cfe' := LastIn(fes, cstack', lines, k, open, tab + 1);
      } else {
        stack[tab] := cfe;
        cstack' := stack[tab];
      }
    }
  }

  // The new entry, after 'cfe' or as the first in 'cstack'
  method Link(fes: array<Fe>, cstack: int, cfe: int, k: nat, name: Name, size: FileSize,
              ghost lines: seq<Line>, ghost open: seq<nat>)
    requires IsPreorder(lines) && IsOpen(lines, k, open) && Filled(fes[..], lines, k) && k <= |lines|
    requires var tab := lines[k - 1].tab;
      && tab < |open| && cstack == open[tab] && name == lines[k - 1].name && size == lines[k - 1].size
      && (tab + 1 < |open| ==> cfe == open[tab + 1])
    modifies fes
    ensures Filled(fes[..], lines, k + 1)
  {
    hide IsPreorder, NextOf;
    ghost var tab, before := lines[k - 1].tab, fes[..];
    assert before[cstack] == FeAt(lines, k, cstack) && before[k] == UNUSED;
    if tab + 1 < |open| {
      FirstIn(lines, k, open, tab + 1);
    }
    if fes[cstack].down == NULL {
      fes[cstack] := fes[cstack].(down := k);
    } else {
      fes[cfe] := fes[cfe].(next := k);
    }
    fes[k] := fes[k].(name := name, size := size);
    FilledOneMore(before, fes[..], lines, k, open);
  }

  // A list as it is written
  ghost predicate IsListOf(filelist: seq<Byte>, lines: seq<Line>) {
    && IsPreorder(lines) && (forall i :: 0 <= i < |lines| ==> NameOk(lines[i].name))
    && NumDirs(lines) < 0x1_0000_0000 && |lines| - NumDirs(lines) < 0x1_0000_0000 && MaxTab(lines) < 256
    && filelist == Header(NumDirs(lines), |lines| - NumDirs(lines), MaxTab(lines)) + Bytes(lines)
  }

  // How many entries there is room for: their size is computed in 32 bits
  function Allocated(numDirs: nat, numFiles: nat): nat {
    (numDirs + numFiles) % 0x1_0000_0000 * 32 % 0x1_0000_0000 / 32
  }

  lemma RoomForAll(numDirs: nat, numFiles: nat)
    ensures Allocated(numDirs, numFiles) == numDirs + numFiles <==> numDirs + numFiles < 0x800_0000
  {
  }

  lemma Pieces<T>(all: seq<T>, a: seq<T>, b: seq<T>, c: seq<T>)
    requires all == a + b + c
    ensures all[..|a|] == a && all[|a|..|a| + |b|] == b && all[|a| + |b|..] == c
  {
  }

  lemma {:induction false} HeaderRoundTrip(filelist: seq<Byte>, lines: seq<Line>)
    requires IsListOf(filelist, lines)
    ensures 9 <= |filelist| && filelist[8] == MaxTab(lines) && filelist[9..] == Bytes(lines)
    ensures FromLittleEndian(filelist[..4]) == NumDirs(lines)
    ensures FromLittleEndian(filelist[4..8]) == |lines| - NumDirs(lines)
  {
    hide LittleEndian, FromLittleEndian, Bytes, IsPreorder, NameOk;
    var a, b, c := LittleEndian(NumDirs(lines), 4), LittleEndian(|lines| - NumDirs(lines), 4), [MaxTab(lines)];
    assert 0x1_0000_0000 == Power256(4);
    LittleEndianRoundTrip(NumDirs(lines), 4);
    LittleEndianRoundTrip(|lines| - NumDirs(lines), 4);
    assert filelist == a + b + (c + Bytes(lines));
    Pieces(filelist, a, b, c + Bytes(lines));
    Pieces(filelist, a + b, c, Bytes(lines));
    assert filelist[8..9][0] == MaxTab(lines);
  }

  lemma {:induction false} TabFits(lines: seq<Line>, i: nat)
    requires i < |lines|
    ensures lines[i].tab <= MaxTab(lines)
  {
    if i < |lines| - 1 {
      TabFits(lines[..|lines| - 1], i);
    }
  }

  lemma {:induction false} BytesBegin(lines: seq<Line>, k: nat)
    requires k <= |lines|
    ensures |Bytes(lines[..k])| <= |Bytes(lines)| && Bytes(lines)[..|Bytes(lines[..k])|] == Bytes(lines[..k])
    ensures k < |lines| ==> Bytes(lines[..k + 1]) == Bytes(lines[..k]) + LineBytes(lines[k])
  {
    hide LineBytes;
    if k == |lines| {
      assert lines[..k] == lines;
    } else {
      var before := lines[..|lines| - 1];
      BytesBegin(before, k);
      assert before[..k] == lines[..k] && lines[..k + 1][..k] == lines[..k];
    }
  }

  // Where a part is that is in front of another at the end of a part
  lemma PieceBehind<T>(all: seq<T>, n: nat, part: seq<T>, a: seq<T>, b: seq<T>)
    requires n <= |all| && all[n..] == part && |a + b| <= |part| && part[..|a + b|] == a + b
    ensures n + |a| + |b| <= |all| && all[n + |a|..n + |a| + |b|] == b
  {
    forall i | 0 <= i < |b|
      ensures all[n + |a| + i] == b[i]
    {
      assert all[n + |a| + i] == all[n..][|a| + i] == part[..|a + b|][|a| + i] == (a + b)[|a| + i];
    }
  }

  lemma {:induction false} LineIsNext(filelist: seq<Byte>, lines: seq<Line>, k: nat)
    requires IsListOf(filelist, lines) && k <= |lines|
    ensures var at := 9 + |Bytes(lines[..k])|;
      if k < |lines| then LineIsAt(filelist, at, lines[k])
        && |Bytes(lines[..k + 1])| == |Bytes(lines[..k])| + |LineBytes(lines[k])|
      else at == |filelist|
  {
    hide Bytes, LineBytes, FromLittleEndian, IsPreorder, NameOk, NumDirs, MaxTab, Header;
    HeaderRoundTrip(filelist, lines);
    assert k < |lines| ==> NameOk(lines[k].name);
    hide IsListOf;
    BytesBegin(lines, k);
    if k < |lines| {
      BytesBegin(lines, k + 1);
      PieceBehind(filelist, 9, Bytes(lines), Bytes(lines[..k]), LineBytes(lines[k]));
    } else {
      assert lines[..k] == lines;
    }
  }

  // What one turn of the loop does with a line that is read
  method AddEntry(fes: array<Fe>, stack: array<int>, tab: nat, tabPrev: nat, cstack: int, cfe: int, free: nat,
                  name: Name, size: FileSize,
                  ghost lines: seq<Line>, ghost open: seq<nat>)
    returns (cstack': int, ghost open': seq<nat>)
    requires IsPreorder(lines) && Filled(fes[..], lines, free) && free <= |lines|
    requires AtEntry(lines, free, open, stack[..], tabPrev, cstack, cfe)
    requires var line := lines[free - 1];
      line.tab == tab && line.name == name && line.size == size && tab < stack.Length
    modifies fes, stack
    ensures Filled(fes[..], lines, free + 1)
    ensures AtEntry(lines, free + 1, open', stack[..], tab, cstack', free)
  {
    hide IsPreorder, Filled;
    var cfe';
    cstack', cfe' := Place(fes, stack, tab, tabPrev, cstack, cfe, lines, free, open);
    Link(fes, cstack', cfe', free, name, size, lines, open);
    NowOpen(lines, free, open);
    open' := open[..tab + 1] + [free];
    hide IsOpen;
  }

  // Line 'k' is next, or the end
  ghost predicate IsNextLine(filelist: seq<Byte>, lines: seq<Line>, k: nat, fl: int) {
    && k <= |lines| && fl == 9 + |Bytes(lines[..k])|
    && if k < |lines| then
        LineIsAt(filelist, fl, lines[k]) && lines[k].tab <= MaxTab(lines)
          && IsNextLineAfter(lines, k, fl + |LineBytes(lines[k])|)
      else fl == |filelist|
  }

  ghost predicate IsNextLineAfter(lines: seq<Line>, k: nat, fl: int)
    requires k < |lines|
  {
    fl == 9 + |Bytes(lines[..k + 1])|
  }

  lemma {:induction false} NextLine(filelist: seq<Byte>, lines: seq<Line>, k: nat, fl: int)
    requires IsListOf(filelist, lines)
    requires if k == 0 then fl == 9 else k <= |lines| && IsNextLineAfter(lines, k - 1, fl)
    ensures IsNextLine(filelist, lines, k, fl)
    ensures k < |lines| <==> fl < |filelist|
  {
    LineIsNext(filelist, lines, k);
    hide IsListOf, LineBytes, NameOk, MaxTab;
    if k < |lines| {
      TabFits(lines, k);
      SizeHasEight(lines[k].size);
      PartsOfLine(filelist, fl, lines[k]);
    }
  }

  // Memory for the entries and for the directories on the way to the last one
  method Allocate(filelist: seq<Byte>, ghost lines: seq<Line>) returns (fes: array<Fe>, stack: array<int>)
    requires IsListOf(filelist, lines) && |lines| < 0x800_0000
    ensures fresh(fes) && fresh(stack) && stack.Length == MaxTab(lines) + 1 && MaxTab(lines) < 256
    ensures Filled(fes[..], lines, 1) && AtEntry(lines, 1, [0], stack[..], 0, 0, NULL)
  {
    HeaderRoundTrip(filelist, lines);
    hide IsListOf, FromLittleEndian, Bytes, NumDirs, MaxTab, Allocated;
    var numDirs, numFiles := FromLittleEndian(filelist[..4]), FromLittleEndian(filelist[4..8]);
    RoomForAll(numDirs, numFiles);
    fes := new Fe[Allocated(numDirs, numFiles) + 1](_ => UNUSED);
    stack := new int[filelist[8] + 1](_ => NULL);
    stack[0] := 0;
    FilledFirst(fes[..], lines);
    AtFirst(stack[..], lines);
  }

  // Reads the next line and makes its entry
  method AddLine(filelist: seq<Byte>, fl: int, fes: array<Fe>, stack: array<int>, tabPrev: nat, cstack: int, cfe: int,
                 free: nat,
                 ghost lines: seq<Line>, ghost open: seq<nat>)
    returns (fl': int, tab: nat, cstack': int, ghost open': seq<nat>)
    requires IsListOf(filelist, lines) && 1 <= free <= |lines| && IsNextLine(filelist, lines, free - 1, fl)
    requires Filled(fes[..], lines, free) && AtEntry(lines, free, open, stack[..], tabPrev, cstack, cfe)
    requires stack.Length == MaxTab(lines) + 1
    modifies fes, stack
    ensures Filled(fes[..], lines, free + 1) && AtEntry(lines, free + 1, open', stack[..], tab, cstack', free)
    ensures IsNextLine(filelist, lines, free, fl') && (free < |lines| <==> fl' < |filelist|)
  {
    assert IsPreorder(lines) && MaxTab(lines) < 256;
    hide IsListOf, IsPreorder, LineIsAt, LineBytes, Bytes, FeAt, Filled, AtEntry, MaxTab, IsNextLineAfter;
    var name, size;
    tab, name, size, fl' := ReadLine(filelist, fl, lines[free - 1]);
    cstack', open' := AddEntry(fes, stack, tab, tabPrev, cstack, cfe, free, name, size, lines, open);
    NextLine(filelist, lines, free, fl');
  }

  // Reads a list that fits into memory
  method Fill(filelist: seq<Byte>, ghost lines: seq<Line>) returns (fes: array<Fe>)
    requires IsListOf(filelist, lines) && |lines| < 0x800_0000
    ensures fresh(fes) && fes[..] == TreeOf(lines)
  {
    NextLine(filelist, lines, 0, 9);
    hide IsListOf, Filled, AtEntry, MaxTab, IsNextLine, TreeOf;
    var stack;
    fes, stack := Allocate(filelist, lines);
    var fl, free, tabPrev, cstack, cfe := 9, 1, 0, 0, NULL;
    ghost var open := [0];
    while fl < |filelist|
      invariant 1 <= free <= |lines| + 1 && IsNextLine(filelist, lines, free - 1, fl)
      invariant free - 1 < |lines| <==> fl < |filelist|
      invariant Filled(fes[..], lines, free) && AtEntry(lines, free, open, stack[..], tabPrev, cstack, cfe)
      invariant fresh(fes) && fresh(stack) && stack.Length == MaxTab(lines) + 1
      decreases |lines| + 1 - free
    {
      fl, tabPrev, cstack, open := AddLine(filelist, fl, fes, stack, tabPrev, cstack, cfe, free, lines, open);
      cfe, free := free, free + 1;
    }
    AllFilled(fes[..], lines);
  }

  lemma AllFilled(fes: seq<Fe>, lines: seq<Line>)
    requires Filled(fes, lines, |lines| + 1)
    ensures fes == TreeOf(lines)
  {
  }

  lemma AtFirst(stack: seq<int>, lines: seq<Line>)
    requires 1 <= |stack| && stack[0] == 0
    ensures AtEntry(lines, 1, [0], stack, 0, 0, NULL)
  {
  }

  lemma FilledFirst(fes: seq<Fe>, lines: seq<Line>)
    requires |fes| == |lines| + 1 && forall i :: 0 <= i < |fes| ==> fes[i] == UNUSED
    ensures Filled(fes, lines, 1)
  {
    assert FeAt(lines, 1, 0) == UNUSED;
  }
}
