/** Runs of the processes that share the cache on disk in which something goes wrong
    (src/afc-engine-preload/aep.cpp): a process that waits for itself because of a file name, and
    two processes that subtract the size of the same file. */
module DiskExamples {
  import opened Wrappers
  import opened DiskCache
  import opened DiskProgress
  import opened DiskAccount

  // A process opens a file and gets its semaphore
  function Opened(u: Setup, s: State, i: nat, f: nat): State
    requires Shape(u, s) && i < u.numProcs && f < |u.remote|
  {
    var fds := s.procs[i].fds[0 := Fd(f, 0, s.clock, 0, [])];
    s.(open := s.open[u.slot[f] := Counted(s.open[u.slot[f]] + 1)], sem := s.sem[u.semOf[f] := Some(i)],
       procs := s.procs[i := Proc(Locked, 0, 1, fds)], clock := s.clock + 1)
  }

  lemma OpenSteps(u: Setup, s: State, i: nat, f: nat) returns (a: State, b: State)
    requires Shape(u, s) && i < u.numProcs && f < |u.remote| && s.procs[i].pc.Idle? && 0 !in s.procs[i].fds
    requires s.cached[f].Some? && s.sem[u.semOf[f]] == None
    ensures Enabled(u, s, i, Open(0, f)) && a == Next(u, s, i, Open(0, f)) && Shape(u, a)
    ensures Enabled(u, a, i, Read(0, 1)) && b == Next(u, a, i, Read(0, 1)) && Shape(u, b)
    ensures Enabled(u, b, i, Lock) && Next(u, b, i, Lock) == Opened(u, s, i, f) && Shape(u, Opened(u, s, i, f))
  {
    assert ProcOk(u, s.procs[i]);
    hide ProcOk, IsRead, Took, Overwritten, Counted;
    NextShape(u, s, i, Open(0, f));
    a := Next(u, s, i, Open(0, f));
    NextShape(u, a, i, Read(0, 1));
    b := Next(u, a, i, Read(0, 1));
    NextShape(u, b, i, Lock);
    assert Next(u, b, i, Lock).procs == Opened(u, s, i, f).procs;
  }

  // Of its file there is a part in the cache, and no room for the rest; it comes to another file
  lemma VisitSteps(u: Setup, s: State, i: nat, g: nat) returns (a: State, b: State)
    requires Shape(u, s) && i < u.numProcs && s.procs[i].pc == Locked && ProcOk(u, s.procs[i])
    requires var f := FileOf(s.procs[i]);
      var size := |u.remote[f]|;
      s.cached[f].Some? && |s.cached[f].value| != size && size <= u.maxFile && size + s.counter > u.maxSize
    requires g < |u.remote| && SizeIn(s.cached[g]) > 0
    ensures Enabled(u, s, i, Stat) && a == Next(u, s, i, Stat) && Shape(u, a)
    ensures Enabled(u, a, i, First) && b == Next(u, a, i, First) && Shape(u, b)
    ensures var t := s.(procs := s.procs[i := s.procs[i].(pc := Visiting(g, SizeIn(s.cached[g])))]);
      Enabled(u, b, i, Visit(g)) && Next(u, b, i, Visit(g)) == t && Shape(u, t)
  {
    hide ProcOk, IsRead, Took, Overwritten, Counted;
    NextShape(u, s, i, Stat);
    a := Next(u, s, i, Stat);
    NextShape(u, a, i, First);
    b := Next(u, a, i, First);
    NextShape(u, b, i, Visit(g));
    var t := s.(procs := s.procs[i := s.procs[i].(pc := Visiting(g, SizeIn(s.cached[g])))]);
    assert Next(u, b, i, Visit(g)).procs == t.procs;
  }

  function Visited(u: Setup, s: State, i: nat, f: nat, g: nat): State
    requires Shape(u, s) && i < u.numProcs && f < |u.remote| && g < |s.cached|
  {
    var t := Opened(u, s, i, f);
    t.(procs := t.procs[i := t.procs[i].(pc := Visiting(g, SizeIn(s.cached[g])))])
  }

  lemma ComesTo(u: Setup, r: State, before: seq<Act>, s: State, i: nat, f: nat, g: nat) returns (acts: seq<Act>)
    requires IsRun(u, r, before, s) && Shape(u, s) && i < u.numProcs && f < |u.remote| && g < |u.remote|
    requires s.procs[i].pc.Idle? && 0 !in s.procs[i].fds && s.sem[u.semOf[f]] == None
    requires var size := |u.remote[f]|;
      s.cached[f].Some? && |s.cached[f].value| != size && size <= u.maxFile && size + s.counter > u.maxSize
    requires SizeIn(s.cached[g]) > 0
    ensures IsRun(u, r, acts, Visited(u, s, i, f, g)) && Shape(u, Visited(u, s, i, f, g)) && |acts| == |before| + 6
  {
    hide IsRun, Next, Enabled;
    var a, b := OpenSteps(u, s, i, f);
    var t := Opened(u, s, i, f);
    assert ProcOk(u, t.procs[i]);
    var c, d := VisitSteps(u, t, i, g);
    hide Shape, Opened;
    RunAppended(u, r, before, s, i, Open(0, f));
    acts := before + [Act(i, Open(0, f))];
    RunAppended(u, r, acts, a, i, Read(0, 1));
    acts := acts + [Act(i, Read(0, 1))];
    RunAppended(u, r, acts, b, i, Lock);
    acts := acts + [Act(i, Lock)];
    RunAppended(u, r, acts, t, i, Stat);
    acts := acts + [Act(i, Stat)];
    RunAppended(u, r, acts, c, i, First);
    acts := acts + [Act(i, First)];
    RunAppended(u, r, acts, d, i, Visit(g));
    acts := acts + [Act(i, Visit(g))];
  }

  // ---- Two file names, one semaphore ----

  lemma OneStepOpensOne(u: Setup, s: State, i: nat, e: Step, c: nat)
    requires Shape(u, s) && i < u.numProcs && Enabled(u, s, i, e)
    ensures Shape(u, Next(u, s, i, e))
    ensures Total(NumOpen(u, Next(u, s, i, e).procs, c)) <= Total(NumOpen(u, s.procs, c)) + 1
  {
    NextShape(u, s, i, e);
    OpenOnStep(u, s, i, e, c);
    var n, k := NumOpen(u, s.procs, c), |OpenOn(u, NextProc(u, s, i, e), c)|;
    assert NumOpen(u, Next(u, s, i, e).procs, c) == n[i := k];
    TotalUpdate(n, i, k);
    hide NextProc, NextSem, NextCached, NextCounter, NextOpen, Total, OpenOn, Enabled;
  }

  // There is room for that many more open files
  ghost predicate FewMore(u: Setup, s: State, n: nat) {
    Shape(u, s) && forall c :: 0 <= c < SLOTS ==> Total(NumOpen(u, s.procs, c)) + n <= 127
  }

  lemma OneStepFewMore(u: Setup, s: State, i: nat, e: Step, n: nat)
    requires FewMore(u, s, n + 1) && i < u.numProcs && Enabled(u, s, i, e)
    ensures FewMore(u, Next(u, s, i, e), n)
  {
    NextShape(u, s, i, e);
    forall c | 0 <= c < SLOTS
      ensures Total(NumOpen(u, Next(u, s, i, e).procs, c)) + n <= 127
    {
      OneStepOpensOne(u, s, i, e, c);
    }
  }

  // In a short run only few files can be opened
  lemma {:induction false} FewIfShort(u: Setup, s: State, acts: seq<Act>, t: State)
    requires FewMore(u, s, |acts|) && IsRun(u, s, acts, t)
    ensures FewOnRun(u, s, acts)
    decreases |acts|
  {
    IsFew(u, s, |acts|);
    hide Shape, Enabled, Next, FewMore, FewOpen;
    if acts != [] {
      var i, e := acts[0].proc, acts[0].step;
      OneStepFewMore(u, s, i, e, |acts| - 1);
      FewIfShort(u, Next(u, s, i, e), acts[1..], t);
    }
  }

  lemma IsFew(u: Setup, s: State, n: nat)
    requires FewMore(u, s, n)
    ensures Shape(u, s) && FewOpen(u, s)
  {
    hide NumOpen, Total;
  }

  // Of the file there is nothing in the cache, and too little room for it; the others are whole
  function SharedStart(u: Setup, f: nat): State
    requires SetupOk(u)
  {
    State(seq(|u.remote|, g requires 0 <= g < |u.remote| => Some(if g == f then [] else u.remote[g])),
          if u.numProcs == 1 then u.maxSize - 1 else u.maxSize, seq(SLOTS, _ => 0), seq(|u.remote|, _ => None),
          seq(u.numProcs, _ => Proc(Idle, 0, 0, map[])), 0)
  }

  lemma SharedIsStart(u: Setup, f: nat)
    requires SetupOk(u) && f < |u.remote| && MayNeedRoom(u, f)
    ensures IsStart(u, SharedStart(u, f))
  {
    assert u.numProcs > 1 ==> (u.numProcs - 1) * u.maxFile >= 1;
  }

  lemma NothingOpen(u: Setup, s: State)
    requires IsStart(u, s)
    ensures FewMore(u, s, 127)
  {
    forall c | 0 <= c < SLOTS
      ensures Total(NumOpen(u, s.procs, c)) == 0
    {
      TotalOfZeros(NumOpen(u, s.procs, c));
    }
  }

  lemma FewerMore(u: Setup, s: State, n: nat)
    requires FewMore(u, s, 127) && n <= 127
    ensures FewMore(u, s, n)
  {
    hide NumOpen, Total;
  }

  lemma SharedVisits(u: Setup, f: nat, g: nat) returns (acts: seq<Act>)
    requires SetupOk(u) && f < |u.remote| && g < |u.remote| && f != g && MayNeedRoom(u, f)
    ensures var s := SharedStart(u, f);
      Shape(u, s) && |s.cached| == |u.remote| && |acts| == 6 && IsRun(u, s, acts, Visited(u, s, 0, f, g))
  {
    SharedIsStart(u, f);
    var s := SharedStart(u, f);
    assert IsRun(u, s, [], s);
    acts := ComesTo(u, s, [], s, 0, f, g);
  }

  lemma SharedLooks(u: Setup, f: nat, g: nat)
    requires SetupOk(u) && f < |u.remote| && g < |u.remote| && MayNeedRoom(u, f)
    requires u.semOf[f] == u.semOf[g] && u.slot[f] != u.slot[g]
    ensures var s := SharedStart(u, f);
      && Shape(u, s) && |s.cached| == |u.remote|
      && var v := Visited(u, s, 0, f, g);
      && Shape(u, v) && Enabled(u, v, 0, LookOpen)
      && Shape(u, Next(u, v, 0, LookOpen)) && IsStuck(u, Next(u, v, 0, LookOpen))
  {
    SharedIsStart(u, f);
    var s := SharedStart(u, f);
    var v := Visited(u, s, 0, f, g);
    assert v.procs[0].pc == Visiting(g, |u.remote[g]|) && v.sem[u.semOf[g]] == Some(0) && v.open[u.slot[g]] == 0;
    assert ProcOk(u, v.procs[0]);
    NextShape(u, v, 0, LookOpen);
    var t := Next(u, v, 0, LookOpen);
    assert t.procs[0].pc == Waiting(g, |u.remote[g]|, v.clock) && t.sem == v.sem;
    hide IsRead, Visited, SharedStart, Counted;
  }

  // A single process with one open file waits for the semaphore that it has: with names like
  // /a/b and /a_b, and too little room for the first of these files
  lemma SharedNameBlocks(u: Setup, f: nat, g: nat) returns (acts: seq<Act>, t: State)
    requires SetupOk(u) && f < |u.remote| && g < |u.remote| && MayNeedRoom(u, f)
    requires u.semOf[f] == u.semOf[g] && u.slot[f] != u.slot[g]
    ensures var s := SharedStart(u, f);
      IsStart(u, s) && IsRun(u, s, acts, t) && FewOnRun(u, s, acts) && Shape(u, t) && IsStuck(u, t)
  {
    SharedLooks(u, f, g);
    hide IsRun, Shape, Enabled, Next, Visited, SharedStart, IsStart, FewMore, IsStuck, MayNeedRoom, SetupOk;
    var s := SharedStart(u, f);
    var v := Visited(u, s, 0, f, g);
    acts := SharedVisits(u, f, g);
    t := Next(u, v, 0, LookOpen);
    RunAppended(u, s, acts, v, 0, LookOpen);
    acts := acts + [Act(0, LookOpen)];
    SharedIsStart(u, f);
    NothingOpen(u, s);
    FewerMore(u, s, |acts|);
    FewIfShort(u, s, acts, t);
  }

  // Whatever the processes do with few files open, they do not get stuck
  ghost predicate NeverStuck(u: Setup) {
    forall s, acts, t :: IsStart(u, s) && IsRun(u, s, acts, t) && FewOnRun(u, s, acts) ==> Shape(u, t) && !IsStuck(u, t)
  }

  // Exactly the names and sizes of the files decide whether processes with few open files can get stuck
  lemma StuckExactly(u: Setup)
    requires SetupOk(u)
    ensures NeverStuck(u) <==> SemaphoresFit(u)
  {
    if SemaphoresFit(u) {
      forall s, acts, t | IsStart(u, s) && IsRun(u, s, acts, t) && FewOnRun(u, s, acts)
        ensures Shape(u, t) && !IsStuck(u, t)
      {
        NotStuck(u, s, acts, t);
      }
    } else {
      hide IsStart, IsRun, FewOnRun, IsStuck, MayNeedRoom;
      var f: nat, g: nat :| f < |u.remote| && g < |u.remote| && u.semOf[f] == u.semOf[g] && MayNeedRoom(u, f)
        && u.slot[f] != u.slot[g];
      var acts, t := SharedNameBlocks(u, f, g);
    }
  }

  lemma NotStuck(u: Setup, s: State, acts: seq<Act>, t: State)
    requires IsStart(u, s) && IsRun(u, s, acts, t) && FewOnRun(u, s, acts) && SemaphoresFit(u)
    ensures Shape(u, t) && !IsStuck(u, t)
  {
    StartInv(u, s);
    RunInv(u, s, acts, t);
    hide IsStart, IsRun, FewOnRun, SemInv, CacheInv, ReadInv, BudgetInv, Enabled;
    if IsStuck(u, t) {
      var i :| 0 <= i < u.numProcs && !t.procs[i].pc.Idle?;
      var k := NoDeadlock(u, s, acts, t, i);
    }
  }

  // ---- Two processes at the same file ----

  const TWO: Setup := Setup([[1, 2], [3, 4], [5, 6]], [0, 1, 2], [0, 1, 2], 2, 2, 2)

  // One file is in the cache, the others are not
  function TwoStart(): State {
    var idle := Proc(Idle, 0, 0, map[]);
    State([Some([1, 2]), Some([]), Some([])], 2, seq(SLOTS, _ => 0), [None, None, None], [idle, idle], 0)
  }

  lemma BothCome() returns (acts: seq<Act>, t: State)
    ensures IsStart(TWO, TwoStart()) && IsRun(TWO, TwoStart(), acts, t) && Shape(TWO, t)
    ensures t.procs[0].pc == t.procs[1].pc == Visiting(0, 2) && t.counter == 2 && t.cached == TwoStart().cached
    ensures t.open[0] == 0 && t.sem[0] == None
  {
    var s := TwoStart();
    assert IsStart(TWO, s) && IsRun(TWO, s, [], s);
    acts := ComesTo(TWO, s, [], s, 0, 1, 0);
    var m := Visited(TWO, s, 0, 1, 0);
    assert m.sem[2] == None && m.procs[1] == s.procs[1];
    acts := ComesTo(TWO, s, acts, m, 1, 2, 0);
    t := Visited(TWO, m, 1, 2, 0);
  }

  // From a start at which the counter is right: in the end it is 2 bytes below nothing, and nothing is
  // in the cache
  lemma CounterGoesBelow() returns (acts: seq<Act>, t: State)
    ensures IsStart(TWO, TwoStart()) && TwoStart().counter == Total(Sizes(TwoStart().cached))
    ensures IsRun(TWO, TwoStart(), acts, t) && t.counter == -2 && Total(Sizes(t.cached)) == 0
  {
    var first, m := BothCome();
    assert Sizes(TwoStart().cached) == [2, 0, 0] && Total([2, 0, 0]) == 2 by { TotalOfThree(2, 0, 0); }
    assert ProcOk(TWO, m.procs[0]) && ProcOk(TWO, m.procs[1]);
    var second, end := SubtractedTwice(TWO, m, 0, 1, 0);
    hide IsRun, IsStart, Shape, Total, Sizes;
    RunsJoin(TWO, TwoStart(), first, m, second, end);
    acts, t := first + second, end;
  }

  lemma TotalOfThree(a: int, b: int, c: int)
    ensures Total([a, b, c]) == a + b + c
  {
    assert [a, b, c][..2] == [a, b] && [a, b][..1] == [a] && [a][..0] == [];
    assert Total([]) == 0 && Total([a]) == a && Total([a, b]) == a + b;
  }

  lemma {:induction false} RunsJoin(u: Setup, s: State, first: seq<Act>, m: State, second: seq<Act>, t: State)
    requires IsRun(u, s, first, m) && IsRun(u, m, second, t)
    ensures IsRun(u, s, first + second, t)
    decreases |first|
  {
    hide Shape, Enabled, Next;
    if first == [] {
      assert first + second == second;
    } else {
      assert (first + second)[1..] == first[1..] + second;
      RunsJoin(u, Next(u, s, first[0].proc, first[0].step), first[1..], m, second, t);
    }
  }
}
