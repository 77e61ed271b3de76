/** The list of a directory tree (src/afc-engine-preload/parse_fs.py): a line for every directory
    and file, directories before files, what is in a directory after the directory and one tab
    to the right of it. */
module FileList {
  import opened Wrappers

  type Byte = x: int | 0 <= x < 256
  type Name = seq<Byte>
  type FileSize = x: int | 0 <= x < 0x8000_0000_0000_0000

  const TAB: Byte := 9
  const SLASH: Byte := 47

  // What a directory has, in the order in which it is scanned. Other is neither directory nor
  // file: symbolic links, for one.
  datatype Entry = Dir(name: Name, entries: seq<Entry>) | File(name: Name, size: FileSize) | Other(name: Name)

  // What is listed of it
  datatype Node = Node(name: Name, size: FileSize, children: seq<Node>)

  datatype Line = Line(tab: nat, name: Name, size: FileSize)

  // ---- Sorting by name ----

  predicate Before(a: Name, b: Name) {
    if a == [] then b != []
    else b != [] && (a[0] < b[0] || (a[0] == b[0] && Before(a[1..], b[1..])))
  }

  function Inserted(e: Entry, sorted: seq<Entry>): seq<Entry> {
    if sorted == [] || !Before(sorted[0].name, e.name) then [e] + sorted
    else [sorted[0]] + Inserted(e, sorted[1..])
  }

  function SortedByName(entries: seq<Entry>): seq<Entry> {
    if entries == [] then [] else Inserted(entries[0], SortedByName(entries[1..]))
  }

  predicate InOrder(entries: seq<Entry>) {
    forall i, j :: 0 <= i < j < |entries| ==> !Before(entries[j].name, entries[i].name)
  }

  lemma {:induction false} BeforeIsTotal(a: Name, b: Name)
    ensures !(Before(a, b) && Before(b, a)) && (Before(a, b) || Before(b, a) || a == b)
  {
    if a != [] && b != [] {
      BeforeIsTotal(a[1..], b[1..]);
      assert a == [a[0]] + a[1..] && b == [b[0]] + b[1..];
    }
  }

  lemma {:induction false} BeforeIsTransitive(a: Name, b: Name, c: Name)
    requires Before(a, b) && Before(b, c)
    ensures Before(a, c)
  {
    if a != [] && a[0] == b[0] == c[0] {
      BeforeIsTransitive(a[1..], b[1..], c[1..]);
    }
  }

  lemma NotBefore(a: Name, b: Name, c: Name)
    requires !Before(b, a) && !Before(c, b)
    ensures !Before(c, a)
  {
    BeforeIsTotal(a, b);
    BeforeIsTotal(b, c);
    BeforeIsTotal(a, c);
    if Before(a, b) && Before(b, c) {
      BeforeIsTransitive(a, b, c);
    }
  }

  lemma {:induction false} InsertedHasAll(e: Entry, sorted: seq<Entry>)
    ensures multiset(Inserted(e, sorted)) == multiset{e} + multiset(sorted)
  {
    if sorted != [] && Before(sorted[0].name, e.name) {
      InsertedHasAll(e, sorted[1..]);
      assert sorted == [sorted[0]] + sorted[1..];
    }
  }

  lemma HeadFirst(head: Entry, rest: seq<Entry>)
    requires InOrder(rest) && forall x :: x in rest ==> !Before(x.name, head.name)
    ensures InOrder([head] + rest)
  {
    hide Before;
  }

  lemma HeadIsFirst(sorted: seq<Entry>, x: Entry)
    requires InOrder(sorted) && sorted != [] && x in sorted
    ensures !Before(x.name, sorted[0].name)
  {
    BeforeIsTotal(x.name, x.name);
  }

  lemma {:induction false} InsertedIsSorted(e: Entry, sorted: seq<Entry>)
    requires InOrder(sorted)
    ensures InOrder(Inserted(e, sorted))
  {
    hide Before, InOrder;
    if sorted != [] && Before(sorted[0].name, e.name) {
      var rest := Inserted(e, sorted[1..]);
      TailInOrder(sorted);
      InsertedIsSorted(e, sorted[1..]);
      InsertedHasAll(e, sorted[1..]);
      BeforeIsTotal(sorted[0].name, e.name);
      forall x | x in rest
        ensures !Before(x.name, sorted[0].name)
      {
        assert x in multiset(rest);
        if x != e {
          assert x in multiset(sorted[1..]);
          HeadIsFirst(sorted, x);
        }
      }
      HeadFirst(sorted[0], rest);
    } else {
      forall x | x in sorted
        ensures !Before(x.name, e.name)
      {
        HeadIsFirst(sorted, x);
        NotBefore(e.name, sorted[0].name, x.name);
      }
      HeadFirst(e, sorted);
    }
  }

  lemma TailInOrder(sorted: seq<Entry>)
    requires InOrder(sorted) && sorted != []
    ensures InOrder(sorted[1..])
  {
    hide Before;
  }

  lemma {:induction false} SortSorts(entries: seq<Entry>)
    ensures InOrder(SortedByName(entries)) && multiset(SortedByName(entries)) == multiset(entries)
    ensures |SortedByName(entries)| == |entries|
  {
    if entries != [] {
      SortSorts(entries[1..]);
      InsertedIsSorted(entries[0], SortedByName(entries[1..]));
      InsertedHasAll(entries[0], SortedByName(entries[1..]));
      assert entries == [entries[0]] + entries[1..];
    }
    assert |multiset(SortedByName(entries))| == |SortedByName(entries)|;
    assert |multiset(entries)| == |entries|;
  }

  lemma SortKeeps(entries: seq<Entry>, e: Entry)
    ensures e in SortedByName(entries) <==> e in entries
  {
    SortSorts(entries);
    assert e in SortedByName(entries) <==> e in multiset(SortedByName(entries));
  }

  // ---- What is listed ----

  function Dirs(entries: seq<Entry>): (r: seq<Entry>)
    ensures forall e :: e in r <==> e in entries && e.Dir?
  {
    if entries == [] then []
    else
      var last := entries[|entries| - 1];
      Dirs(entries[..|entries| - 1]) + if last.Dir? then [last] else []
  }

  function Files(entries: seq<Entry>): (r: seq<Entry>)
    ensures forall e :: e in r <==> e in entries && e.File? && e.size > 0
  {
    if entries == [] then []
    else
      var last := entries[|entries| - 1];
      Files(entries[..|entries| - 1]) + if last.File? && last.size > 0 then [last] else []
  }

  // Directories with nothing in them are passed over
  function NotEmpty(dirs: seq<Entry>): (r: seq<Entry>)
    requires forall e :: e in dirs ==> e.Dir?
    ensures forall e :: e in r <==> e in dirs && e.entries != []
  {
    if dirs == [] then []
    else
      var last := dirs[|dirs| - 1];
      NotEmpty(dirs[..|dirs| - 1]) + if last.entries != [] then [last] else []
  }

  function SortedDirs(entries: seq<Entry>): (r: seq<Entry>)
    ensures forall e :: e in r <==> e in entries && e.Dir?
  {
    var r := SortedByName(Dirs(entries));
    assert forall e :: e in r <==> e in Dirs(entries) by {
      forall e
        ensures e in r <==> e in Dirs(entries)
      {
        SortKeeps(Dirs(entries), e);
      }
    }
    r
  }

  function SortedFiles(entries: seq<Entry>): (r: seq<Entry>)
    ensures forall e :: e in r <==> e in entries && e.File? && e.size > 0
  {
    var r := SortedByName(Files(entries));
    assert forall e :: e in r <==> e in Files(entries) by {
      forall e
        ensures e in r <==> e in Files(entries)
      {
        SortKeeps(Files(entries), e);
      }
    }
    r
  }

  function Listed(entries: seq<Entry>): seq<Node> {
    var dirs, files := NotEmpty(SortedDirs(entries)), SortedFiles(entries);
    seq(|dirs|, i requires 0 <= i < |dirs| => assert dirs[i] in entries; Node(dirs[i].name, 0, Listed(dirs[i].entries)))
    + seq(|files|, i requires 0 <= i < |files| => Node(files[i].name, files[i].size, []))
  }

  function LinesOf(nodes: seq<Node>, tab: nat): seq<Line> {
    if nodes == [] then []
    else [Line(tab, nodes[0].name, nodes[0].size)] + LinesOf(nodes[0].children, tab + 1) + LinesOf(nodes[1..], tab)
  }

  // ---- What is written ----

  function LittleEndian(n: nat, bytes: nat): seq<Byte>
    decreases bytes
  {
    if bytes == 0 then [] else [n % 256] + LittleEndian(n / 256, bytes - 1)
  }

  function LineBytes(line: Line): seq<Byte> {
    seq(line.tab, _ => TAB) + line.name + [0] + LittleEndian(line.size, 8)
  }

  function Bytes(lines: seq<Line>): seq<Byte> {
    if lines == [] then [] else Bytes(lines[..|lines| - 1]) + LineBytes(lines[|lines| - 1])
  }

  // Lines counted as directories: those whose size is 0
  function NumDirs(lines: seq<Line>): (n: nat)
    ensures n <= |lines|
  {
    if lines == [] then 0 else NumDirs(lines[..|lines| - 1]) + if lines[|lines| - 1].size == 0 then 1 else 0
  }

  function MaxTab(lines: seq<Line>): nat {
    if lines == [] then 0
    else
      var before, tab := MaxTab(lines[..|lines| - 1]), lines[|lines| - 1].tab;
      if tab > before then tab else before
  }

  function Header(numDirs: nat, numFiles: nat, maxTab: Byte): seq<Byte> {
    LittleEndian(numDirs, 4) + LittleEndian(numFiles, 4) + [maxTab]
  }

  // The lines of a directory: none if there is nothing in it, and none for the directory itself
  // if it is the root
  function WrittenDir(name: Name, entries: seq<Entry>, tab: int): seq<Line>
    requires -1 <= tab
  {
    if entries == [] then []
    else (if tab >= 0 then [Line(tab, name, 0)] else []) + LinesOf(Listed(entries), tab + 1)
  }

  lemma LinesOfFirst(nodes: seq<Node>, tab: nat)
    requires nodes != []
    ensures LinesOf(nodes, tab)
      == [Line(tab, nodes[0].name, nodes[0].size)] + LinesOf(nodes[0].children, tab + 1) + LinesOf(nodes[1..], tab)
  {
  }

  lemma {:induction false} LinesOfAppended(nodes: seq<Node>, more: seq<Node>, tab: nat)
    ensures LinesOf(nodes + more, tab) == LinesOf(nodes, tab) + LinesOf(more, tab)
  {
    if nodes == [] {
      assert nodes + more == more;
    } else {
      hide LinesOf;
      var all := nodes + more;
      assert all[0] == nodes[0] && all[1..] == nodes[1..] + more;
      LinesOfFirst(nodes, tab);
      LinesOfFirst(all, tab);
      LinesOfAppended(nodes[1..], more, tab);
      Associate([Line(tab, nodes[0].name, nodes[0].size)] + LinesOf(nodes[0].children, tab + 1),
                LinesOf(nodes[1..], tab), LinesOf(more, tab));
    }
  }

  lemma Associate<T>(a: seq<T>, b: seq<T>, c: seq<T>)
    ensures a + (b + c) == (a + b) + c
  {
  }

  // The listed nodes of some of the directories, in their order
  function DirNodes(dirs: seq<Entry>): seq<Node>
    requires forall e :: e in dirs ==> e.Dir?
  {
    var dirs := NotEmpty(dirs);
    seq(|dirs|, i requires 0 <= i < |dirs| => Node(dirs[i].name, 0, Listed(dirs[i].entries)))
  }

  function FileNodes(files: seq<Entry>): seq<Node>
    requires forall e :: e in files ==> e.File?
  {
    seq(|files|, i requires 0 <= i < |files| => Node(files[i].name, files[i].size, []))
  }

  lemma ListedIs(entries: seq<Entry>)
    ensures Listed(entries) == DirNodes(SortedDirs(entries)) + FileNodes(SortedFiles(entries))
  {
  }

  lemma OneMoreNode(dirs: seq<Entry>, i: nat)
    requires i < |dirs| && forall e :: e in dirs ==> e.Dir?
    ensures DirNodes(dirs[..i + 1])
      == DirNodes(dirs[..i]) + if dirs[i].entries == [] then [] else [Node(dirs[i].name, 0, Listed(dirs[i].entries))]
  {
    hide Listed;
    assert dirs[..i + 1][..i] == dirs[..i];
  }

  lemma LinesOfOne(node: Node, tab: nat)
    ensures LinesOf([node], tab) == [Line(tab, node.name, node.size)] + LinesOf(node.children, tab + 1)
  {
    assert LinesOf([node][1..], tab) == [];
  }

  lemma {:induction false} OneMoreDir(dirs: seq<Entry>, i: nat, tab: nat)
    requires i < |dirs| && forall e :: e in dirs ==> e.Dir?
    ensures LinesOf(DirNodes(dirs[..i + 1]), tab)
      == LinesOf(DirNodes(dirs[..i]), tab) + WrittenDir(dirs[i].name, dirs[i].entries, tab)
  {
    hide LinesOf, Listed, DirNodes;
    OneMoreNode(dirs, i);
    if dirs[i].entries != [] {
      var node := Node(dirs[i].name, 0, Listed(dirs[i].entries));
      LinesOfAppended(DirNodes(dirs[..i]), [node], tab);
      LinesOfOne(node, tab);
    } else {
      assert DirNodes(dirs[..i + 1]) == DirNodes(dirs[..i]);
    }
  }

  lemma OneMoreFile(files: seq<Entry>, i: nat, tab: nat)
    requires i < |files| && forall e :: e in files ==> e.File?
    ensures LinesOf(FileNodes(files[..i + 1]), tab)
      == LinesOf(FileNodes(files[..i]), tab) + [Line(tab, files[i].name, files[i].size)]
  {
    var node := Node(files[i].name, files[i].size, []);
    assert FileNodes(files[..i + 1]) == FileNodes(files[..i]) + [node];
    LinesOfAppended(FileNodes(files[..i]), [node], tab);
    LinesOfOne(node, tab);
  }

  lemma OneMoreLine(lines: seq<Line>, line: Line)
    ensures Bytes(lines + [line]) == Bytes(lines) + LineBytes(line)
    ensures NumDirs(lines + [line]) == NumDirs(lines) + if line.size == 0 then 1 else 0
    ensures MaxTab(lines + [line]) == if line.tab > MaxTab(lines) then line.tab else MaxTab(lines)
  {
    assert (lines + [line])[..|lines|] == lines;
    hide LineBytes;
  }

  lemma {:induction false} WrittenIs(name: Name, entries: seq<Entry>, tab: int)
    requires -1 <= tab
    ensures WrittenDir(name, entries, tab) == if entries == [] then [] else
      (if tab >= 0 then [Line(tab, name, 0)] else []) + LinesOf(DirNodes(SortedDirs(entries)), tab + 1)
      + LinesOf(FileNodes(SortedFiles(entries)), tab + 1)
  {
    hide Listed, LinesOf, DirNodes, FileNodes, SortedDirs, SortedFiles;
    LinesOfAppended(DirNodes(SortedDirs(entries)), FileNodes(SortedFiles(entries)), tab + 1);
    ListedIs(entries);
    Associate(if tab >= 0 then [Line(tab, name, 0)] else [], LinesOf(DirNodes(SortedDirs(entries)), tab + 1),
              LinesOf(FileNodes(SortedFiles(entries)), tab + 1));
  }

  datatype OverflowError = OverflowError

  class ListWriter {
    var noofdirs: nat
    var nooffiles: nat
    var maxTab: nat
    var outfile: seq<Byte>
    ghost var lines: seq<Line>

    ghost predicate Valid()
      reads this
    {
      && outfile == Bytes(lines) && maxTab == MaxTab(lines)
      && noofdirs == NumDirs(lines) && noofdirs + nooffiles == |lines|
    }

    constructor ()
      ensures Valid() && lines == []
    {
      noofdirs, nooffiles, maxTab, outfile := 0, 0, 0, [];
      lines := [];
    }

    method WriteObj(name: Name, size: FileSize, tab: nat)
      requires Valid()
      modifies this
      ensures Valid() && lines == old(lines) + [Line(tab, name, size)]
    {
      hide Bytes, NumDirs, MaxTab, LittleEndian;
      outfile := outfile + seq(tab, _ => TAB);
      if tab > 0 {
        if tab > maxTab {
          maxTab := tab;
        }
      }
      outfile := outfile + (name + [0] + LittleEndian(size, 8));
      assert outfile == old(outfile) + LineBytes(Line(tab, name, size));
      if size != 0 {
        nooffiles := nooffiles + 1;
      } else {
        noofdirs := noofdirs + 1;
      }
      lines := lines + [Line(tab, name, size)];
      OneMoreLine(old(lines), Line(tab, name, size));
    }

    method ParseDir(name: Name, entries: seq<Entry>, tab: int)
      requires Valid() && -1 <= tab
      modifies this
      ensures Valid() && lines == old(lines) + WrittenDir(name, entries, tab)
      decreases entries, 1
    {
      hide Valid, Listed, LinesOf, DirNodes, FileNodes, WrittenDir, SortedDirs, SortedFiles;
      WrittenIs(name, entries, tab);
      if entries == [] {
        return;
      }
      if tab >= 0 {
        WriteObj(name, 0, tab);
      }
      var dirs := SortedDirs(entries);
      var files := SortedFiles(entries);
      ParseDirs(dirs, entries, tab + 1);
      WriteFiles(files, tab + 1);
      Associate(old(lines), if tab >= 0 then [Line(tab, name, 0)] else [], LinesOf(DirNodes(dirs), tab + 1));
      Associate(old(lines), (if tab >= 0 then [Line(tab, name, 0)] else []) + LinesOf(DirNodes(dirs), tab + 1),
                LinesOf(FileNodes(files), tab + 1));
    }

    // The two loops of ParseDir
    method ParseDirs(dirs: seq<Entry>, ghost of: seq<Entry>, tab: nat)
      requires Valid() && forall e :: e in dirs ==> e.Dir? && e in of
      modifies this
      ensures Valid() && lines == old(lines) + LinesOf(DirNodes(dirs), tab)
      decreases of, 0
    {
      hide Valid, LinesOf, DirNodes, WrittenDir;
      NoLines(tab);
      for i := 0 to |dirs|
        invariant Valid() && lines == old(lines) + LinesOf(DirNodes(dirs[..i]), tab)
      {
        assert dirs[i] in of;
        OneMoreDir(dirs, i, tab);
        ParseDir(dirs[i].name, dirs[i].entries, tab);
      }
      assert dirs[..|dirs|] == dirs;
    }

    method WriteFiles(files: seq<Entry>, tab: nat)
      requires Valid() && forall e :: e in files ==> e.File?
      modifies this
      ensures Valid() && lines == old(lines) + LinesOf(FileNodes(files), tab)
    {
      hide Valid, LinesOf, FileNodes;
      NoLines(tab);
      for i := 0 to |files|
        invariant Valid() && lines == old(lines) + LinesOf(FileNodes(files[..i]), tab)
      {
        OneMoreFile(files, i, tab);
        WriteObj(files[i].name, files[i].size, tab);
      }
      assert files[..|files|] == files;
    }
  }

  lemma NoLines(tab: nat)
    ensures LinesOf(DirNodes([]), tab) == [] && LinesOf(FileNodes([]), tab) == []
  {
  }

  function ListLines(entries: seq<Entry>): seq<Line> {
    LinesOf(Listed(entries), 0)
  }

  // The list of a directory. Its header has four bytes for each of the counts and one for the
  // greatest number of tabs.
  method WriteList(entries: seq<Entry>) returns (r: Result<seq<Byte>, OverflowError>)
    ensures var lines := ListLines(entries);
      var dirs, files := NumDirs(lines), |lines| - NumDirs(lines);
      && (r.Failure? <==> dirs >= 0x1_0000_0000 || files >= 0x1_0000_0000 || MaxTab(lines) >= 256)
      && (r.Success? ==> r.value == Header(dirs, files, MaxTab(lines)) + Bytes(lines))
  {
    hide Listed, Bytes, NumDirs, MaxTab, Header, LinesOf;
    var writer := new ListWriter();
    writer.ParseDir([], entries, -1);
    NothingListed(entries);
    assert writer.lines == ListLines(entries);
    if writer.noofdirs >= 0x1_0000_0000 || writer.nooffiles >= 0x1_0000_0000 || writer.maxTab >= 256 {
      return Failure(OverflowError);
    }
    r := Success(Header(writer.noofdirs, writer.nooffiles, writer.maxTab) + writer.outfile);
  }

  lemma NothingListed(entries: seq<Entry>)
    ensures entries == [] ==> ListLines(entries) == []
  {
    ListedIs(entries);
    hide Listed;
  }
}
