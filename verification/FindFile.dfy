/** Looking up an entry by its path (find_fe of src/afc-engine-preload/aep.cpp) */
module FindFile {
  import opened Wrappers
  import opened FileList
  import opened FileTree
  import opened FileLookup

  // The parts of a path between slashes; a slash at its end adds none
  function Components(s: seq<Byte>): seq<Name>
    decreases |s|
  {
    if s == [] then []
    else
      var k := UntilSlash(s);
      [s[..k]] + Components(if k < |s| then s[k + 1..] else [])
  }

  function UntilSlash(s: seq<Byte>): (k: nat)
    ensures k <= |s| && SLASH !in s[..k] && (k < |s| ==> s[k] == SLASH)
  {
    if s == [] || s[0] == SLASH then 0
    else
      assert s[..1 + UntilSlash(s[1..])] == [s[0]] + s[1..][..UntilSlash(s[1..])];
      1 + UntilSlash(s[1..])
  }

  function Joined(path: seq<Name>): seq<Byte> {
    if path == [] then [] else [SLASH] + path[0] + Joined(path[1..])
  }

  lemma {:induction false} SlashIsAt(s: seq<Byte>, k: nat)
    requires k <= |s| && SLASH !in s[..k] && (k < |s| ==> s[k] == SLASH)
    ensures UntilSlash(s) == k
  {
    var u := UntilSlash(s);
    forall i | 0 <= i < k
      ensures s[i] != SLASH
    {
      assert s[..k][i] == s[i];
    }
    assert forall i :: 0 <= i < u ==> s[..u][i] == s[i];
  }

  lemma {:induction false} FirstComponent(s: seq<Byte>, name: Name, rest: seq<Byte>)
    requires SLASH !in name && (s == name + [SLASH] + rest || (s == name && rest == [] && name != []))
    ensures Components(s) == [name] + Components(rest)
  {
    assert s[..|name|] == name;
    SlashIsAt(s, |name|);
    assert |name| < |s| ==> s[|name| + 1..] == rest;
  }

  lemma {:induction false} JoinedRoundTrip(path: seq<Name>)
    requires path != [] && forall i :: 0 <= i < |path| ==> NameOk(path[i])
    ensures Joined(path) != [] && Joined(path)[0] == SLASH && Components(Joined(path)[1..]) == path
  {
    var rest := Joined(path[1..]);
    assert NameOk(path[0]) && Joined(path)[1..] == path[0] + rest;
    if path[1..] != [] {
      JoinedRoundTrip(path[1..]);
      hide Components, Joined, NameOk;
      assert path[0] + rest == path[0] + [SLASH] + rest[1..];
      FirstComponent(path[0] + rest, path[0], rest[1..]);
    } else {
      assert path[0] + rest == path[0] && Components([]) == [];
      FirstComponent(path[0], path[0], []);
    }
    assert path == [path[0]] + path[1..];
  }

  // ---- The tree, entry by entry ----

  datatype Fault = NullDereference

  function FirstNamed(nodes: seq<Node>, name: Name): Option<Node> {
    if nodes == [] then None else if nodes[0].name == name then Some(nodes[0]) else FirstNamed(nodes[1..], name)
  }

  // Below an entry without anything in it one more component is looked for and not found, a
  // second one is looked for in no entry at all.
  function Lookup(here: Node, path: seq<Name>): Result<Option<Node>, Fault>
    decreases |path|
  {
    if path == [] then Success(Some(here))
    else if here.children == [] then (if |path| == 1 then Success(None) else Failure(NullDereference))
    else
      var found := FirstNamed(here.children, path[0]);
      if found.None? then Success(None) else Lookup(found.value, path[1..])
  }

  ghost function FoundFrom(fes: seq<Fe>, cfe: int, path: seq<Name>): Result<Option<Node>, Fault>
    requires Ascending(fes) && (cfe == NULL || 0 <= cfe < |fes|)
  {
    if cfe != NULL then Lookup(NodeAt(fes, cfe), path)
    else if path == [] then Success(None) else Failure(NullDereference)
  }

  // The next entry of that name, from 'first' on
  method Search(fes: array<Fe>, first: int, name: Name) returns (cfe: int)
    requires Ascending(fes[..]) && (first == NULL || 0 <= first < fes.Length)
    ensures cfe == NULL || 0 <= cfe < fes.Length
    ensures FirstNamed(Forest(fes[..], first), name) == if cfe == NULL then None else Some(NodeAt(fes[..], cfe))
  {
    hide Ascending;
    cfe := first;
    LinkInRange(fes[..], cfe);
    while cfe != NULL
      invariant cfe == NULL || 0 <= cfe < fes.Length
      invariant FirstNamed(Forest(fes[..], first), name) == FirstNamed(Forest(fes[..], cfe), name)
      decreases if cfe == NULL then 0 else fes.Length - cfe
    {
      LinkInRange(fes[..], cfe);
      ForestFrom(fes[..], cfe);
      hide Forest;
      if fes[cfe].name == name {
        return;
      }
      cfe := fes[cfe].next;
    }
  }

  lemma {:induction false} LinkInRange(fes: seq<Fe>, i: int)
    requires Ascending(fes) && (i == NULL || 0 <= i < |fes|)
    ensures i != NULL ==>
      && (fes[i].next == NULL || i < fes[i].next < |fes|) && (fes[i].down == NULL || i < fes[i].down < |fes|)
    ensures (Forest(fes, i) == []) == (i == NULL)
  {
  }

  lemma {:induction false} FoundStep(fes: seq<Fe>, cfe: nat, name: Name, rest: seq<Name>, found: int)
    requires Ascending(fes) && cfe < |fes| && (found == NULL || 0 <= found < |fes|)
    requires FirstNamed(Forest(fes, fes[cfe].down), name) == if found == NULL then None else Some(NodeAt(fes, found))
    ensures FoundFrom(fes, cfe, [name] + rest)
      == if fes[cfe].down != NULL && found == NULL then Success(None) else FoundFrom(fes, found, rest)
  {
    LinkInRange(fes, cfe);
    LinkInRange(fes, fes[cfe].down);
    NodeAtIs(fes, cfe);
    hide Ascending, Forest, NodeAt;
    assert ([name] + rest)[1..] == rest;
  }

  ghost function Rest(tpath: seq<Byte>, c: nat): seq<Name> {
    Components(if c < |tpath| then tpath[c..] else [])
  }

  method NextComponent(tpath: seq<Byte>, c: nat) returns (name: Name, next: nat)
    requires c < |tpath|
    ensures c < next && Rest(tpath, c) == [name] + Rest(tpath, next)
  {
    next := c;
    while next < |tpath| && tpath[next] != SLASH
      invariant c <= next <= |tpath| && SLASH !in tpath[c..next]
    {
      next := next + 1;
    }
    name := tpath[c..next];
    next := next + 1;
    hide Components;
    assert next <= |tpath| ==> tpath[c..] == name + [SLASH] + tpath[next..];
    assert next >= |tpath| ==> Rest(tpath, next) == Components([]);
    FirstComponent(tpath[c..], name, if next < |tpath| then tpath[next..] else []);
  }

  method FindFe(fes: array<Fe>, tpath: seq<Byte>) returns (r: Result<int, Fault>)
    requires Ascending(fes[..]) && 0 < fes.Length
    ensures r.Success? ==> r.value == NULL || 0 <= r.value < fes.Length
    ensures Lookup(NodeAt(fes[..], 0), Components(if tpath == [] then [] else tpath[1..]))
      == if r.Failure? then Failure(NullDereference)
        else Success(if r.value == NULL then None else Some(NodeAt(fes[..], r.value)))
  {
    hide Ascending, Forest, NodeAt, Components;
    var c, cfe := 1, 0;
    ghost var all := Components(if tpath == [] then [] else tpath[1..]);
    NoComponents(tpath);
    while c < |tpath|
      invariant cfe == NULL || 0 <= cfe < fes.Length
      invariant Lookup(NodeAt(fes[..], 0), all) == FoundFrom(fes[..], cfe, Rest(tpath, c))
      decreases |tpath| - c
    {
      var name, next := NextComponent(tpath, c);
      if cfe == NULL {
        return Failure(NullDereference);
      }
      LinkInRange(fes[..], cfe);
      var down := fes[cfe].down;
      var found := Search(fes, down, name);
      FoundStep(fes[..], cfe, name, Rest(tpath, next), found);
      if down != NULL && found == NULL {
        return Success(NULL);
      }
      c, cfe := next, found;
    }
    NoComponents(tpath);
    r := Success(cfe);
  }

  lemma {:induction false} NoComponents(tpath: seq<Byte>)
    ensures Components(if tpath == [] then [] else tpath[1..]) == Rest(tpath, 1)
    ensures forall c: nat :: c >= |tpath| ==> Rest(tpath, c) == []
  {
    assert Components([]) == [];
  }

  lemma {:induction false} NodeAtIs(fes: seq<Fe>, i: nat)
    requires Ascending(fes) && i < |fes|
    ensures NodeAt(fes, i) == Node(fes[i].name, fes[i].size, Forest(fes, fes[i].down))
  {
  }

  // ---- What is found of a directory ----

  function FirstVisible(entries: seq<Entry>, name: Name): (r: Option<Entry>)
    ensures r.Some? ==> r.value in entries && Visible(r.value) && r.value.name == name
    ensures r.None? ==> forall e :: e in entries && Visible(e) ==> e.name != name
  {
    if entries == [] then None
    else if Visible(entries[0]) && entries[0].name == name then Some(entries[0])
    else FirstVisible(entries[1..], name)
  }

  // The visible entry that a path leads to through visible directories
  function EntryAt(entries: seq<Entry>, path: seq<Name>): (r: Option<Entry>)
    requires path != []
    ensures r.Some? ==> Visible(r.value)
    decreases |path|
  {
    var e := FirstVisible(entries, path[0]);
    if e.None? || |path| == 1 then e
    else if e.value.Dir? then EntryAt(e.value.entries, path[1..])
    else None
  }

  lemma {:induction false} FirstNamedIs(nodes: seq<Node>, i: nat)
    requires i < |nodes| && forall j :: 0 <= j < i ==> nodes[j].name != nodes[i].name
    ensures FirstNamed(nodes, nodes[i].name) == Some(nodes[i])
  {
    if i > 0 {
      FirstNamedIs(nodes[1..], i - 1);
    }
  }

  lemma {:induction false} FirstNamedIn(nodes: seq<Node>, name: Name)
    ensures FirstNamed(nodes, name).Some? ==>
      exists i :: 0 <= i < |nodes| && nodes[i] == FirstNamed(nodes, name).value && nodes[i].name == name
    ensures FirstNamed(nodes, name).None? ==> forall i :: 0 <= i < |nodes| ==> nodes[i].name != name
  {
    if nodes != [] && nodes[0].name != name {
      FirstNamedIn(nodes[1..], name);
      if FirstNamed(nodes, name).Some? {
        var i :| 0 <= i < |nodes[1..]| && nodes[1..][i] == FirstNamed(nodes, name).value && nodes[1..][i].name == name;
        assert nodes[i + 1] == FirstNamed(nodes, name).value;
      }
    }
  }

  lemma {:induction false} OneOfName(entries: seq<Entry>, a: Entry, b: Entry)
    requires WellNamed(entries) && a in entries && b in entries && a.name == b.name
    ensures a == b
  {
  }

  // The names of a directory are different, so that the first node of a name is the node of the
  // first entry of that name that is listed
  lemma {:induction false} FirstListed(entries: seq<Entry>, name: Name)
    requires WellNamed(entries)
    ensures FirstNamed(Listed(entries), name)
      == if FirstVisible(entries, name).None? then None else Some(NodeOf(FirstVisible(entries, name).value))
  {
    hide Listed, WellNamed;
    FirstNamedIn(Listed(entries), name);
    var e := FirstVisible(entries, name);
    if FirstNamed(Listed(entries), name).Some? {
      var i :| 0 <= i < |Listed(entries)| && Listed(entries)[i] == FirstNamed(Listed(entries), name).value
        && Listed(entries)[i].name == name;
      var from := ListedFrom(entries, i);
      OneOfName(entries, from, e.value);
    } else if e.Some? {
      var i := ListedHas(entries, e.value);
    }
  }

  ghost predicate Childless(entries: seq<Entry>, path: seq<Name>) {
    if path == [] then Listed(entries) == []
    else EntryAt(entries, path).Some? && NodeOf(EntryAt(entries, path).value).children == []
  }

  lemma {:induction false} ChildlessBelow(entries: seq<Entry>, path: seq<Name>, k: nat)
    requires 1 <= k < |path| && FirstVisible(entries, path[0]).Some?
    ensures var e := FirstVisible(entries, path[0]).value;
      Childless(entries, path[..k]) <==> if e.Dir? then Childless(e.entries, path[1..][..k - 1]) else k == 1
  {
    hide Listed;
    assert path[..k][1..] == path[1..][..k - 1] && path[..k][0] == path[0];
  }

  lemma {:induction false} NothingBelow(entries: seq<Entry>, path: seq<Name>, k: nat)
    requires 1 <= k < |path| && FirstVisible(entries, path[0]).None?
    ensures !Childless(entries, path[..k])
  {
    assert path[..k][0] == path[0];
  }

  // Some part of the path leads to an entry without entries in it, or to the root of an empty
  // tree, and two or more components follow it
  ghost predicate GoesTooFar(entries: seq<Entry>, path: seq<Name>) {
    exists k :: 0 <= k <= |path| - 2 && Childless(entries, path[..k])
  }

  lemma {:induction false} TooFarBelow(entries: seq<Entry>, path: seq<Name>)
    requires path != []
    ensures var e := FirstVisible(entries, path[0]);
      var below := e.Some? && if e.value.Dir? then GoesTooFar(e.value.entries, path[1..]) else |path| >= 3;
      GoesTooFar(entries, path) <==> |path| >= 2 && (Listed(entries) == [] || below)
  {
    hide Listed;
    var e := FirstVisible(entries, path[0]);
    assert path[..0] == [] && (Childless(entries, path[..0]) <==> Listed(entries) == []);
    hide Childless;
    forall k | 1 <= k < |path|
      ensures Childless(entries, path[..k]) <==>
        e.Some? && if e.value.Dir? then Childless(e.value.entries, path[1..][..k - 1]) else k == 1
    {
      if e.None? {
        NothingBelow(entries, path, k);
      } else {
        ChildlessBelow(entries, path, k);
      }
    }
    if e.Some? && e.value.Dir? && GoesTooFar(e.value.entries, path[1..]) {
      var j :| 0 <= j <= |path[1..]| - 2 && Childless(e.value.entries, path[1..][..j]);
      assert Childless(entries, path[..j + 1]);
    }
    if e.Some? && !e.value.Dir? && |path| >= 3 {
      assert Childless(entries, path[..1]);
    }
  }

  // Looking up a path in the tree of a directory finds the entry that the path leads to, and
  // nothing if there is none. It fails exactly if the path goes too far.
  lemma {:induction false} FindsEntries(entries: seq<Entry>, path: seq<Name>, here: Node)
    requires WellNamed(entries) && path != [] && here.children == Listed(entries)
    ensures Lookup(here, path).Failure? <==> GoesTooFar(entries, path)
    ensures Lookup(here, path).Success? ==>
      Lookup(here, path).value == if EntryAt(entries, path).None? then None
        else Some(NodeOf(EntryAt(entries, path).value))
    decreases |path|
  {
    hide Listed, GoesTooFar;
    FirstListed(entries, path[0]);
    TooFarBelow(entries, path);
    var e := FirstVisible(entries, path[0]);
    if e.Some? && e.value.Dir? && |path| > 1 {
      FindsEntries(e.value.entries, path[1..], NodeOf(e.value));
    }
  }

  // The whole way: the list of a directory is written, read, and a path is looked up in the tree
  method ListAndFind(entries: seq<Entry>, path: seq<Name>) returns (found: Option<(Name, FileSize)>)
    requires WellNamed(entries) && |ListLines(entries)| < 0x800_0000 && MaxTab(ListLines(entries)) < 256
    requires path != [] && (forall i :: 0 <= i < |path| ==> NameOk(path[i])) && !GoesTooFar(entries, path)
    ensures found == match EntryAt(entries, path)
      case None => None
      case Some(e) => Some((e.name, if e.File? then e.size else 0))
  {
    hide WellNamed, Listed, Forest, NameOk, GoesTooFar, EntryAt, Components, Joined, ListLines, Ascending;
    var r := WriteAndFill(entries);
    var fes := r.value;
    JoinedRoundTrip(path);
    var at := FindFe(fes, Joined(path));
    FindsEntries(entries, path, Node([], 0, Listed(entries)));
    found := if at.value == NULL then None else Some((fes[at.value].name, fes[at.value].size));
  }
}
