/** What is in the tree of files once it is filled, and what is found in it by path
    (find_fe of src/afc-engine-preload/aep.cpp). */
module FileLookup {
  import opened Wrappers
  import opened FileList
  import opened FileTree

  // ---- The tree has what the list has ----

  predicate Ascending(fes: seq<Fe>) {
    forall i :: 0 <= i < |fes| ==>
      && (fes[i].next == NULL || i < fes[i].next < |fes|) && (fes[i].down == NULL || i < fes[i].down < |fes|)
  }

  // Entry 'i' and those after it in the same directory, with everything in them
  function Forest(fes: seq<Fe>, i: int): seq<Node>
    requires Ascending(fes) && (i == NULL || 0 <= i < |fes|)
    decreases if i == NULL then 0 else |fes| - i
  {
    if i == NULL then [] else [Node(fes[i].name, fes[i].size, Forest(fes, fes[i].down))] + Forest(fes, fes[i].next)
  }

  function NodeAt(fes: seq<Fe>, i: nat): Node
    requires Ascending(fes) && i < |fes|
  {
    Node(fes[i].name, fes[i].size, Forest(fes, fes[i].down))
  }

  lemma {:induction false} LinksAscend(lines: seq<Line>)
    ensures Ascending(TreeOf(lines))
  {
  }

  // The lines of 'nodes' begin after entry 'a', and what follows them is not in the same directory
  ghost predicate IsPart(lines: seq<Line>, nodes: seq<Node>, tab: nat, a: nat) {
    var end := a + |LinesOf(nodes, tab)|;
    SitsAt(lines, a, LinesOf(nodes, tab)) && (end < |lines| ==> lines[end].tab < tab)
  }

  ghost predicate SitsAt<T>(all: seq<T>, a: nat, part: seq<T>) {
    a + |part| <= |all| && forall i :: 0 <= i < |part| ==> all[a + i] == part[i]
  }

  lemma {:induction false} NotAbove(nodes: seq<Node>, tab: nat, i: nat)
    requires i < |LinesOf(nodes, tab)|
    ensures LinesOf(nodes, tab)[i].tab >= tab
  {
    var inside, after := LinesOf(nodes[0].children, tab + 1), LinesOf(nodes[1..], tab);
    LinesOfFirst(nodes, tab);
    hide LinesOf;
    if 1 <= i < 1 + |inside| {
      NotAbove(nodes[0].children, tab + 1, i - 1);
    } else if 1 <= i {
      NotAbove(nodes[1..], tab, i - 1 - |inside|);
    }
  }

  lemma SplitAt<T>(all: seq<T>, a: nat, x: seq<T>, y: seq<T>, z: seq<T>)
    requires SitsAt(all, a, x + y + z)
    ensures SitsAt(all, a, x) && SitsAt(all, a + |x|, y) && SitsAt(all, a + |x| + |y|, z)
  {
    var w := x + y + z;
    assert forall i :: 0 <= i < |x| ==> w[i] == x[i];
    assert forall i :: 0 <= i < |y| ==> w[|x| + i] == y[i];
    assert forall i :: 0 <= i < |z| ==> w[|x| + |y| + i] == z[i];
    forall i | 0 <= i < |y|
      ensures all[a + |x| + i] == y[i]
    {
      assert all[a + (|x| + i)] == w[|x| + i];
    }
    forall i | 0 <= i < |z|
      ensures all[a + |x| + |y| + i] == z[i]
    {
      assert all[a + (|x| + |y| + i)] == w[|x| + |y| + i];
    }
  }

  // The first of the nodes, what is in it, and the nodes after it
  lemma {:induction false} PartsOfPart(lines: seq<Line>, nodes: seq<Node>, tab: nat, a: nat)
    requires nodes != [] && IsPart(lines, nodes, tab, a)
    ensures var after := a + 1 + |LinesOf(nodes[0].children, tab + 1)|;
      && a < after <= |lines| && lines[a] == Line(tab, nodes[0].name, nodes[0].size)
      && IsPart(lines, nodes[0].children, tab + 1, a + 1)
      && IsPart(lines, nodes[1..], tab, after)
  {
    var first, inside, rest := [Line(tab, nodes[0].name, nodes[0].size)], LinesOf(nodes[0].children, tab + 1),
      LinesOf(nodes[1..], tab);
    LinesOfFirst(nodes, tab);
    if nodes[1..] != [] {
      LinesOfFirst(nodes[1..], tab);
    } else {
      assert rest == [];
    }
    hide LinesOf;
    SplitAt(lines, a, first, inside, rest);
    assert lines[a + 0] == first[0];
    if rest != [] {
      assert lines[a + 1 + |inside| + 0] == rest[0];
    }
    hide SitsAt;
  }

  lemma {:induction false} Inside(lines: seq<Line>, nodes: seq<Node>, tab: nat, a: nat, i: nat)
    requires IsPart(lines, nodes, tab, a) && a <= i < a + |LinesOf(nodes, tab)|
    ensures lines[i].tab >= tab
  {
    NotAbove(nodes, tab, i - a);
    hide LinesOf;
    assert lines[a + (i - a)] == LinesOf(nodes, tab)[i - a];
  }

  lemma {:induction false} FirstOfPart(lines: seq<Line>, nodes: seq<Node>, tab: nat, a: nat)
    requires IsPart(lines, nodes, tab, a)
    ensures if nodes == [] then a == |lines| || (a < |lines| && lines[a].tab < tab)
      else a < |lines| && lines[a].tab == tab
  {
    if nodes != [] {
      PartsOfPart(lines, nodes, tab, a);
    }
  }

  lemma {:induction false} LinksOfFirst(lines: seq<Line>, nodes: seq<Node>, tab: nat, a: nat)
    requires nodes != [] && IsPart(lines, nodes, tab, a)
    ensures a < |lines|
    ensures DownOf(lines, a + 1) == if nodes[0].children == [] then NULL else a + 2
    ensures NextOf(lines, a + 1) == if nodes[1..] == [] then NULL else a + 2 + |LinesOf(nodes[0].children, tab + 1)|
  {
    PartsOfPart(lines, nodes, tab, a);
    var after := a + 1 + |LinesOf(nodes[0].children, tab + 1)|;
    FirstOfPart(lines, nodes[0].children, tab + 1, a + 1);
    FirstOfPart(lines, nodes[1..], tab, after);
    var e := End(lines, a + 1, a + 2);
    assert Depth(lines, a + 1) == tab + 1;
    assert after < |lines| ==> Depth(lines, after + 1) == lines[after].tab + 1;
    if e < after + 1 {
      Inside(lines, nodes[0].children, tab + 1, a + 1, e - 1);
    }
    hide LinesOf, IsPart;
  }

  lemma {:induction false} ForestFrom(fes: seq<Fe>, i: nat)
    requires Ascending(fes) && i < |fes|
    ensures Forest(fes, i) == [Node(fes[i].name, fes[i].size, Forest(fes, fes[i].down))] + Forest(fes, fes[i].next)
  {
  }

  lemma {:induction false} FeOfFirst(lines: seq<Line>, nodes: seq<Node>, tab: nat, a: nat)
    requires nodes != [] && IsPart(lines, nodes, tab, a)
    ensures a < |lines| && |TreeOf(lines)| == |lines| + 1
    ensures TreeOf(lines)[a + 1] == Fe(
      if nodes[1..] == [] then NULL else a + 2 + |LinesOf(nodes[0].children, tab + 1)|,
      if nodes[0].children == [] then NULL else a + 2, nodes[0].name, nodes[0].size)
  {
    PartsOfPart(lines, nodes, tab, a);
    LinksOfFirst(lines, nodes, tab, a);
    hide LinesOf, NextOf, DownOf, IsPart;
    assert TreeOf(lines)[a + 1] == FeAt(lines, |lines| + 1, a + 1);
  }

  ghost predicate ForestIs(fes: seq<Fe>, i: int, nodes: seq<Node>)
    requires Ascending(fes)
  {
    if nodes == [] then i == NULL else 0 <= i < |fes| && Forest(fes, i) == nodes
  }

  lemma {:induction false} ForestOfFirst(fes: seq<Fe>, nodes: seq<Node>, i: nat)
    requires Ascending(fes) && i < |fes| && nodes != []
    requires fes[i].name == nodes[0].name && fes[i].size == nodes[0].size
    requires ForestIs(fes, fes[i].down, nodes[0].children) && ForestIs(fes, fes[i].next, nodes[1..])
    ensures Forest(fes, i) == nodes
  {
    ForestFrom(fes, i);
    assert Forest(fes, fes[i].down) == nodes[0].children && Forest(fes, fes[i].next) == nodes[1..];
    hide Forest;
    assert nodes == [nodes[0]] + nodes[1..];
  }

  // What the list has below an entry is in the tree below that entry
  lemma {:induction false} ForestOfPart(lines: seq<Line>, nodes: seq<Node>, tab: nat, a: nat)
    requires IsPart(lines, nodes, tab, a) && Ascending(TreeOf(lines))
    ensures ForestIs(TreeOf(lines), if nodes == [] then NULL else a + 1, nodes)
    decreases nodes
  {
    hide LinesOf, IsPart, Ascending, TreeOf, Forest;
    if nodes != [] {
      PartsOfPart(lines, nodes, tab, a);
      FeOfFirst(lines, nodes, tab, a);
      ForestOfPart(lines, nodes[0].children, tab + 1, a + 1);
      ForestOfPart(lines, nodes[1..], tab, a + 1 + |LinesOf(nodes[0].children, tab + 1)|);
      ForestOfFirst(TreeOf(lines), nodes, a + 1);
    }
  }

  // The tree that is filled from the list of a directory has what is listed of it, in order
  lemma {:induction false} RebuildsListed(entries: seq<Entry>)
    ensures Ascending(TreeOf(ListLines(entries)))
    ensures NodeAt(TreeOf(ListLines(entries)), 0) == Node([], 0, Listed(entries))
  {
    var lines, nodes := ListLines(entries), Listed(entries);
    ListLinesAre(entries);
    LinksAscend(lines);
    hide Listed, ListLines, Ascending;
    ForestOfPart(lines, nodes, 0, 0);
    RootLinks(lines, nodes);
  }

  lemma {:induction false} RootLinks(lines: seq<Line>, nodes: seq<Node>)
    requires lines == LinesOf(nodes, 0)
    ensures var root := TreeOf(lines)[0];
      root.name == [] && root.size == 0 && root.down == (if nodes == [] then NULL else 1)
  {
    if nodes != [] {
      LinesOfFirst(nodes, 0);
    }
    hide LinesOf, NextOf;
  }

  lemma {:induction false} ListLinesAre(entries: seq<Entry>)
    ensures ListLines(entries) == LinesOf(Listed(entries), 0)
  {
  }

  // ---- The list can be read ----

  // Names are as in a file system, except that none begins with a tab, and no two in the same
  // directory are the same
  predicate WellNamed(entries: seq<Entry>) {
    && (forall i :: 0 <= i < |entries| ==>
         NameOk(entries[i].name) && (entries[i].Dir? ==> WellNamed(entries[i].entries)))
    && (forall i, j :: 0 <= i < j < |entries| ==> entries[i].name != entries[j].name)
  }

  predicate AllNamed(nodes: seq<Node>) {
    forall i :: 0 <= i < |nodes| ==> NameOk(nodes[i].name) && AllNamed(nodes[i].children)
  }

  // Lines in which no tab is skipped
  predicate Stepwise(lines: seq<Line>) {
    && (forall i :: 0 <= i < |lines| ==> NameOk(lines[i].name))
    && (forall i :: 0 < i < |lines| ==> lines[i].tab <= lines[i - 1].tab + 1)
  }

  lemma {:induction false} StepwiseAppended(a: seq<Line>, b: seq<Line>)
    requires Stepwise(a) && Stepwise(b) && (a != [] && b != [] ==> b[0].tab <= a[|a| - 1].tab + 1)
    ensures Stepwise(a + b)
  {
    hide NameOk;
  }

  lemma {:induction false} LinesAreStepwise(nodes: seq<Node>, tab: nat)
    requires AllNamed(nodes)
    ensures Stepwise(LinesOf(nodes, tab))
    ensures nodes != [] ==> LinesOf(nodes, tab) != [] && LinesOf(nodes, tab)[0].tab == tab
  {
    if nodes != [] {
      var first, inside, rest := [Line(tab, nodes[0].name, nodes[0].size)], LinesOf(nodes[0].children, tab + 1),
        LinesOf(nodes[1..], tab);
      assert NameOk(nodes[0].name) && AllNamed(nodes[0].children);
      LinesAreStepwise(nodes[0].children, tab + 1);
      LinesAreStepwise(nodes[1..], tab);
      if inside != [] {
        NotAbove(nodes[0].children, tab + 1, |inside| - 1);
      }
      LinesOfFirst(nodes, tab);
      NoLinesOfNone(nodes[0].children, tab + 1);
      NoLinesOfNone(nodes[1..], tab);
      hide LinesOf, NameOk, AllNamed;
      assert Stepwise(first);
      StepwiseAppended(first, inside);
      hide Stepwise;
      StepwiseAppended(first + inside, rest);
    }
  }

  lemma {:induction false} NoLinesOfNone(nodes: seq<Node>, tab: nat)
    ensures nodes == [] ==> LinesOf(nodes, tab) == []
  {
  }

  // What is listed: directories that are not empty, and files that are not
  predicate Visible(e: Entry) {
    match e
    case Dir(_, entries) => entries != []
    case File(_, size) => size > 0
    case Other(_) => false
  }

  function NodeOf(e: Entry): Node
    requires Visible(e)
  {
    if e.Dir? then Node(e.name, 0, Listed(e.entries)) else Node(e.name, e.size, [])
  }

  lemma {:induction false} ListedFrom(entries: seq<Entry>, i: nat) returns (e: Entry)
    requires i < |Listed(entries)|
    ensures e in entries && Visible(e) && Listed(entries)[i] == NodeOf(e)
  {
    ListedIs(entries);
    var dirs, files := SortedDirs(entries), SortedFiles(entries);
    e := if i < |DirNodes(dirs)| then NotEmpty(dirs)[i] else files[i - |DirNodes(dirs)|];
    hide Listed, SortedDirs, SortedFiles;
    assert i < |DirNodes(dirs)| ==> e in NotEmpty(dirs);
    assert i >= |DirNodes(dirs)| ==> e in files;
  }

  lemma {:induction false} ListedHas(entries: seq<Entry>, e: Entry) returns (i: nat)
    requires e in entries && Visible(e)
    ensures i < |Listed(entries)| && Listed(entries)[i] == NodeOf(e)
  {
    ListedIs(entries);
    hide Listed, SortedDirs, SortedFiles;
    var dirs, files := SortedDirs(entries), SortedFiles(entries);
    if e.Dir? {
      var k :| 0 <= k < |NotEmpty(dirs)| && NotEmpty(dirs)[k] == e;
      assert DirNodes(dirs)[k] == NodeOf(e);
      i := k;
    } else {
      var k :| 0 <= k < |files| && files[k] == e;
      assert FileNodes(files)[k] == NodeOf(e);
      i := |DirNodes(dirs)| + k;
    }
  }

  lemma {:induction false} ListedAreNamed(entries: seq<Entry>)
    requires WellNamed(entries)
    ensures AllNamed(Listed(entries))
    decreases entries
  {
    hide Listed, NameOk;
    forall i | 0 <= i < |Listed(entries)|
      ensures NameOk(Listed(entries)[i].name) && AllNamed(Listed(entries)[i].children)
    {
      var e := ListedFrom(entries, i);
      if e.Dir? {
        ListedAreNamed(e.entries);
      }
    }
  }

  // Writing the list and filling the tree from it. The list of a directory with well-formed
  // names is such that it can be read.
  lemma {:induction false} ListIsGood(entries: seq<Entry>)
    requires WellNamed(entries)
    ensures IsPreorder(ListLines(entries))
    ensures forall i :: 0 <= i < |ListLines(entries)| ==> NameOk(ListLines(entries)[i].name)
  {
    ListedAreNamed(entries);
    ListLinesAre(entries);
    LinesAreStepwise(Listed(entries), 0);
    NoLinesOfNone(Listed(entries), 0);
    hide Listed, AllNamed, NameOk, LinesOf, ListLines;
    var lines := ListLines(entries);
    assert |lines| > 0 ==> lines[0].tab == 0;
  }

  method WriteAndFill(entries: seq<Entry>) returns (r: Result<array<Fe>, OverflowError>)
    requires WellNamed(entries) && |ListLines(entries)| < 0x800_0000
    ensures r.Failure? <==> MaxTab(ListLines(entries)) >= 256
    ensures r.Success? ==>
      && r.value.Length == |ListLines(entries)| + 1 && Ascending(r.value[..])
      && NodeAt(r.value[..], 0) == Node([], 0, Listed(entries))
  {
    hide WellNamed, Listed, LinesOf, NameOk, NodeAt, TreeOf, Ascending, ListLines, NumDirs;
    ListIsGood(entries);
    var list := WriteList(entries);
    if list.Failure? {
      return Failure(list.error);
    }
    var fes := Fill(list.value, ListLines(entries));
    RebuildsListed(entries);
    TreeLength(ListLines(entries));
    r := Success(fes);
  }

  lemma {:induction false} TreeLength(lines: seq<Line>)
    ensures |TreeOf(lines)| == |lines| + 1
  {
  }
}
