/** How far the counter of the size of the cache on disk is from the number of bytes in it
    (read_data, download_file_nfs and ftw_reduce_callback of src/afc-engine-preload/aep.cpp) */
module DiskAccount {
  import opened Wrappers
  import opened DiskCache
  import opened DiskProgress

  function SizeIn(file: Option<Data>): nat {
    if file.Some? then |file.value| else 0
  }

  function Sizes(cached: seq<Option<Data>>): seq<int> {
    seq(|cached|, f requires 0 <= f < |cached| => SizeIn(cached[f]))
  }

  // What a process is about to do to the counter for what it has done to the files
  function Owed(u: Setup, p: Proc): int
    requires ProcOk(u, p)
  {
    if p.pc.Adding? then |u.remote[FileOf(p)]| else if p.pc.Subtracting? then -(p.pc.seen as int) else 0
  }

  function Owing(u: Setup, procs: seq<Proc>): seq<int>
    requires forall i :: 0 <= i < |procs| ==> ProcOk(u, procs[i])
  {
    seq(|procs|, i requires 0 <= i < |procs| => Owed(u, procs[i]))
  }

  function Drift(u: Setup, s: State): int
    requires Shape(u, s)
  {
    s.counter + Total(Owing(u, s.procs)) - Total(Sizes(s.cached))
  }

  // The file that a step changes
  function Changed(u: Setup, s: State, i: nat, e: Step): nat
    requires Shape(u, s) && i < u.numProcs && Enabled(u, s, i, e) && |u.remote| > 0
  {
    match e
    case Open(_, f) => f
    case Cut => s.procs[i].pc.g
    case Download(_) => FileOf(s.procs[i])
    case _ => 0
  }

  lemma SizesStep(u: Setup, s: State, i: nat, e: Step)
    requires Shape(u, s) && i < u.numProcs && Enabled(u, s, i, e) && |u.remote| > 0
    requires forall f :: 0 <= f < |u.remote| ==> IsPart(u, f, s.cached[f])
    ensures var f, cached' := Changed(u, s, i, e), NextCached(u, s, i, e);
      && f < |cached'| && cached' == s.cached[f := cached'[f]]
      && SizeIn(cached'[f]) ==
        match e
        case Cut => 0
        case Download(result) => if result > SizeIn(s.cached[f]) then result else SizeIn(s.cached[f])
        case _ => SizeIn(s.cached[f])
  {
    assert ProcOk(u, s.procs[i]);
    var f := Changed(u, s, i, e);
    assert IsPart(u, f, s.cached[f]);
    if e.Download? {
      OverwrittenIsPart(s.cached[f], u.remote[f], Copied(e.result));
    }
    hide Overwritten, IsRead, SetupOk;
  }

  lemma OwedStep(u: Setup, s: State, i: nat, e: Step)
    requires Shape(u, s) && i < u.numProcs && Enabled(u, s, i, e)
    ensures ProcOk(u, s.procs[i]) && ProcOk(u, NextProc(u, s, i, e))
    ensures NextCounter(u, s, i, e) + Owed(u, NextProc(u, s, i, e)) == s.counter + Owed(u, s.procs[i]) +
      match e
      case Cut => -(s.procs[i].pc.seen as int)
      case Download(result) =>
        var size := |u.remote[FileOf(s.procs[i])]|; if IsTakenForWhole(result, size) then size else 0
      case _ => 0
  {
    NextProcOk(u, s, i, e);
    assert ProcOk(u, s.procs[i]);
    hide IsRead, SetupOk, Took;
  }

  // What a step adds to the drift
  function Gain(u: Setup, s: State, i: nat, e: Step): int
    requires Shape(u, s) && i < u.numProcs && Enabled(u, s, i, e) && ProcOk(u, s.procs[i])
  {
    match e
    case Cut => SizeIn(s.cached[s.procs[i].pc.g]) - s.procs[i].pc.seen
    case Download(result) =>
      var had, size := SizeIn(s.cached[FileOf(s.procs[i])]), |u.remote[FileOf(s.procs[i])]|;
      (if IsTakenForWhole(result, size) then size else 0) - (if result > had then result - had else 0)
    case _ => 0
  }

  lemma GainIs(u: Setup, s: State, i: nat, e: Step)
    requires Shape(u, s) && i < u.numProcs && Enabled(u, s, i, e) && CacheInv(u, s) && |u.remote| > 0
    ensures ProcOk(u, s.procs[i]) && ProcOk(u, NextProc(u, s, i, e))
    ensures var f, cached' := Changed(u, s, i, e), NextCached(u, s, i, e);
      && f < |s.cached| == |cached'| && cached' == s.cached[f := cached'[f]]
      && NextCounter(u, s, i, e) + Owed(u, NextProc(u, s, i, e)) - SizeIn(cached'[f])
         == s.counter + Owed(u, s.procs[i]) - SizeIn(s.cached[f]) + Gain(u, s, i, e)
  {
    SizesStep(u, s, i, e);
    OwedStep(u, s, i, e);
    DownloadFits(u, s, i, e);
    hide NextProc, NextCached, NextCounter, SetupOk, Owed, CacheInv, SizeIn;
  }

  // Exactly two kinds of steps make the counter, once everybody has done what they owe to it,
  // differ more or less from the bytes in the cache: a download, by the bytes that are new in the
  // cache and the size that is going to be counted if it is taken for whole, and cutting a file that
  // by then is not of the size seen.
  lemma DriftStep(u: Setup, s: State, i: nat, e: Step)
    requires Shape(u, s) && i < u.numProcs && Enabled(u, s, i, e) && CacheInv(u, s)
    ensures Shape(u, Next(u, s, i, e)) && ProcOk(u, s.procs[i])
    ensures Drift(u, Next(u, s, i, e)) == Drift(u, s) + Gain(u, s, i, e)
  {
    NextShape(u, s, i, e);
    var s' := Next(u, s, i, e);
    if |u.remote| > 0 {
      var f := Changed(u, s, i, e);
      GainIs(u, s, i, e);
      ReplacedSize(s.cached, f, s'.cached[f]);
      ReplacedOwed(u, s.procs, i, NextProc(u, s, i, e));
    }
    hide NextProc, NextSem, NextCached, NextCounter, NextOpen, SetupOk, Owed, Owing, Sizes, Total, CacheInv, SizeIn;
    hide Gain, Changed, Enabled;
  }

  lemma DownloadFits(u: Setup, s: State, i: nat, e: Step)
    requires Shape(u, s) && i < u.numProcs && Enabled(u, s, i, e) && CacheInv(u, s)
    ensures e.Download? ==>
      ProcOk(u, s.procs[i]) && SizeIn(s.cached[FileOf(s.procs[i])]) <= |u.remote[FileOf(s.procs[i])]|
  {
    if e.Download? {
      assert ProcOk(u, s.procs[i]);
      assert IsPart(u, FileOf(s.procs[i]), s.cached[FileOf(s.procs[i])]);
    }
  }

  lemma ReplacedSize(cached: seq<Option<Data>>, f: nat, file: Option<Data>)
    requires f < |cached|
    ensures Total(Sizes(cached[f := file])) == Total(Sizes(cached)) - SizeIn(cached[f]) + SizeIn(file)
  {
    assert Sizes(cached[f := file]) == Sizes(cached)[f := SizeIn(file)];
    TotalUpdate(Sizes(cached), f, SizeIn(file));
  }

  lemma ReplacedOwed(u: Setup, procs: seq<Proc>, i: nat, p: Proc)
    requires i < |procs| && ProcOk(u, p) && forall j :: 0 <= j < |procs| ==> ProcOk(u, procs[j])
    ensures var procs' := procs[i := p];
      && (forall j :: 0 <= j < |procs'| ==> ProcOk(u, procs'[j]))
      && Total(Owing(u, procs')) == Total(Owing(u, procs)) - Owed(u, procs[i]) + Owed(u, p)
  {
    assert Owing(u, procs[i := p]) == Owing(u, procs)[i := Owed(u, p)];
    TotalUpdate(Owing(u, procs), i, Owed(u, p));
  }

  // ---- One process, and two ----

  // A single process cuts a file with the size that it saw
  ghost predicate SeenInv(u: Setup, s: State)
    requires Shape(u, s)
  {
    forall i :: 0 <= i < u.numProcs ==> SeenIsSize(s.cached, s.procs[i].pc)
  }

  predicate SeenIsSize(cached: seq<Option<Data>>, pc: Pc) {
    match pc
    case Visiting(g, seen) => g < |cached| && SizeIn(cached[g]) == seen
    case Waiting(g, seen, _) => g < |cached| && SizeIn(cached[g]) == seen
    case Freeing(g, seen) => g < |cached| && SizeIn(cached[g]) == seen
    case _ => true
  }

  lemma NextSeenInv(u: Setup, s: State, i: nat, e: Step)
    requires Shape(u, s) && i < u.numProcs && Enabled(u, s, i, e) && SeenInv(u, s) && u.numProcs == 1
    ensures Shape(u, Next(u, s, i, e)) && SeenInv(u, Next(u, s, i, e))
  {
    NextShape(u, s, i, e);
    assert ProcOk(u, s.procs[i]) && SeenIsSize(s.cached, s.procs[i].pc);
    hide Overwritten, IsRead, Took, NextSem, NextOpen, NextCounter;
  }

  // A single process cuts files only as long as there is no room for the file that it reads
  predicate IsNeeded(u: Setup, s: State, p: Proc)
    requires ProcOk(u, p)
  {
    p.pc.Walking? || p.pc.Visiting? || p.pc.Waiting? || p.pc.Freeing? ==> |u.remote[FileOf(p)]| + s.counter > u.maxSize
  }

  lemma NextNeeded(u: Setup, s: State, e: Step)
    requires Shape(u, s) && u.numProcs == 1 && Enabled(u, s, 0, e) && ProcOk(u, s.procs[0])
      && IsNeeded(u, s, s.procs[0])
    ensures Shape(u, Next(u, s, 0, e)) && ProcOk(u, Next(u, s, 0, e).procs[0])
    ensures IsNeeded(u, Next(u, s, 0, e), Next(u, s, 0, e).procs[0])
  {
    NextShape(u, s, 0, e);
    hide NextSem, NextCached, NextOpen, Took, IsRead, SetupOk;
  }

  // What the steps of a run add to the drift
  ghost function Gained(u: Setup, s: State, acts: seq<Act>, t: State): int
    requires IsRun(u, s, acts, t)
    decreases |acts|
  {
    if acts == [] then 0
    else
      var i, e := acts[0].proc, acts[0].step;
      assert ProcOk(u, s.procs[i]);
      Gain(u, s, i, e) + Gained(u, Next(u, s, i, e), acts[1..], t)
  }

  // The counter is accounted for in every run of any number of processes
  lemma {:induction false} DriftOnRun(u: Setup, s: State, acts: seq<Act>, t: State)
    requires Inv(u, s) && IsRun(u, s, acts, t)
    ensures Inv(u, t) && Drift(u, t) == Drift(u, s) + Gained(u, s, acts, t)
    decreases |acts|
  {
    hide Next, Shape, Enabled, Drift, Gain, SemInv, CacheInv, ReadInv, BudgetInv;
    if acts != [] {
      var i, e := acts[0].proc, acts[0].step;
      NextInv(u, s, i, e);
      DriftStep(u, s, i, e);
      DriftOnRun(u, Next(u, s, i, e), acts[1..], t);
    }
  }

  // All of the file arrives
  predicate Arrives(u: Setup, s: State, i: nat, e: Step)
    requires Shape(u, s) && i < u.numProcs && Enabled(u, s, i, e)
  {
    e.Download? ==> ProcOk(u, s.procs[i]) && e.result == |u.remote[FileOf(s.procs[i])]|
  }

  ghost predicate AllArrive(u: Setup, s: State, acts: seq<Act>, t: State)
    requires IsRun(u, s, acts, t)
    decreases |acts|
  {
    acts != [] ==>
      && Arrives(u, s, acts[0].proc, acts[0].step)
      && AllArrive(u, Next(u, s, acts[0].proc, acts[0].step), acts[1..], t)
  }

  ghost predicate OneInv(u: Setup, s: State) {
    Inv(u, s) && u.numProcs == 1 && SeenInv(u, s) && IsNeeded(u, s, s.procs[0])
  }

  // A single process never makes the counter too small, unless a download breaks off
  lemma OneGains(u: Setup, s: State, e: Step)
    requires OneInv(u, s) && Enabled(u, s, 0, e)
    ensures e.Cut? ==> Gain(u, s, 0, e) == 0
    ensures Arrives(u, s, 0, e) ==> 0 <= Gain(u, s, 0, e)
  {
    assert ProcOk(u, s.procs[0]) && SeenIsSize(s.cached, s.procs[0].pc);
    hide SemInv, ReadInv, BudgetInv, SeenInv, SetupOk;
  }

  lemma NextOneInv(u: Setup, s: State, e: Step)
    requires OneInv(u, s) && Enabled(u, s, 0, e)
    ensures OneInv(u, Next(u, s, 0, e))
  {
    hide SemInv, CacheInv, ReadInv, BudgetInv, SeenInv, IsNeeded, Enabled, Next, ProcOk, SetupOk;
    NextInv(u, s, 0, e);
    NextSeenInv(u, s, 0, e);
    NextNeeded(u, s, e);
  }

  lemma {:induction false} OneOnRun(u: Setup, s: State, acts: seq<Act>, t: State)
    requires OneInv(u, s) && IsRun(u, s, acts, t)
    ensures OneInv(u, t) && (AllArrive(u, s, acts, t) ==> Drift(u, s) <= Drift(u, t))
    decreases |acts|
  {
    assert Shape(u, s) && CacheInv(u, s);
    hide Next, Shape, Enabled, Drift, Gain, OneInv, Arrives, CacheInv;
    if acts != [] {
      var e := acts[0].step;
      assert u.numProcs == 1 by { IsOne(u, s); }
      NextOneInv(u, s, e);
      DriftStep(u, s, 0, e);
      OneGains(u, s, e);
      OneOnRun(u, Next(u, s, 0, e), acts[1..], t);
    }
  }

  lemma IsOne(u: Setup, s: State)
    requires OneInv(u, s)
    ensures u.numProcs == 1
  {
  }

  // A single process whose downloads arrive keeps what is in the cache below its limit, if the
  // counter was not too small at the start; and cuts files only as long as there is no room.
  lemma OneProcessKeepsLimit(u: Setup, s: State, acts: seq<Act>, t: State)
    requires IsStart(u, s) && u.numProcs == 1 && IsRun(u, s, acts, t)
    ensures Shape(u, t) && ProcOk(u, t.procs[0]) && IsNeeded(u, t, t.procs[0])
    ensures Total(Sizes(s.cached)) <= s.counter && AllArrive(u, s, acts, t) ==> Total(Sizes(t.cached)) < u.maxSize
  {
    StartInv(u, s);
    NothingOwed(u, s);
    assert OneInv(u, s);
    OneOnRun(u, s, acts, t);
    hide IsStart, IsRun, SemInv, CacheInv, ReadInv, SeenInv, AllArrive, Total;
    OneOwes(u, t);
  }

  lemma NothingOwed(u: Setup, s: State)
    requires IsStart(u, s)
    ensures Drift(u, s) == s.counter - Total(Sizes(s.cached))
  {
    TotalOfZeros(Owing(u, s.procs));
  }

  lemma OneOwes(u: Setup, t: State)
    requires Shape(u, t) && u.numProcs == 1 && BudgetInv(u, t)
    ensures t.counter + Total(Owing(u, t.procs)) < u.maxSize
  {
    TotalOfOne(Owing(u, t.procs));
    TotalOfOne(Claims(u, t.procs));
    hide Total;
  }

  lemma TotalOfOne(xs: seq<int>)
    requires |xs| == 1
    ensures Total(xs) == xs[0]
  {
    assert xs[..0] == [];
  }

  // There is a part of the file in the cache, and room for all of it
  predicate HasRoom(u: Setup, s: State, p: Proc)
    requires Shape(u, s) && ProcOk(u, p) && p.fd in p.fds
  {
    var f := FileOf(p);
    var size := |u.remote[f]|;
    IsPart(u, f, s.cached[f]) && s.cached[f].Some? && |s.cached[f].value| < size <= u.maxFile && size <= SENDFILE_MAX
      && s.counter + size < u.maxSize
  }

  lemma RoomSteps(u: Setup, s: State, i: nat) returns (a: State, b: State, c: State)
    requires Shape(u, s) && i < u.numProcs && s.procs[i].pc == Locked && ProcOk(u, s.procs[i])
      && HasRoom(u, s, s.procs[i])
    ensures Enabled(u, s, i, Stat) && a == Next(u, s, i, Stat) && Shape(u, a)
    ensures Enabled(u, a, i, First) && b == Next(u, a, i, First) && Shape(u, b)
    ensures Enabled(u, b, i, Second) && c == Next(u, b, i, Second) && Shape(u, c)
    ensures c == s.(procs := s.procs[i := s.procs[i].(pc := Downloading)])
  {
    hide Took, IsRead, SetupOk, Counted, Overwritten, ProcOk;
    NextShape(u, s, i, Stat);
    a := Next(u, s, i, Stat);
    NextShape(u, a, i, First);
    b := Next(u, a, i, First);
    NextShape(u, b, i, Second);
    c := Next(u, b, i, Second);
    assert c.procs == s.procs[i := s.procs[i].(pc := Downloading)];
  }

  lemma DownloadSteps(u: Setup, c: State, i: nat) returns (d: State, t: State)
    requires Shape(u, c) && i < u.numProcs && c.procs[i].pc == Downloading && ProcOk(u, c.procs[i])
    requires IsPart(u, FileOf(c.procs[i]), c.cached[FileOf(c.procs[i])])
      && |u.remote[FileOf(c.procs[i])]| <= SENDFILE_MAX
    ensures var f := FileOf(c.procs[i]);
      var size := |u.remote[f]|;
      && Enabled(u, c, i, Download(size)) && d == Next(u, c, i, Download(size)) && Shape(u, d)
      && Enabled(u, d, i, Add) && t == Next(u, d, i, Add) && Shape(u, t)
      && t.procs[i] == c.procs[i].(pc := Cached) && t.counter == c.counter + size
      && t.cached == c.cached[f := Some(u.remote[f])] && t.sem == c.sem
  {
    var f := FileOf(c.procs[i]);
    OverwrittenIsPart(c.cached[f], u.remote[f], |u.remote[f]|);
    hide Took, IsRead, SetupOk, Counted, Overwritten, IsPart, ProcOk;
    NextShape(u, c, i, Download(|u.remote[f]|));
    d := Next(u, c, i, Download(|u.remote[f]|));
    NextShape(u, d, i, Add);
    t := Next(u, d, i, Add);
  }

  // A file that is not whole in the cache, is small enough and for which there is room can be
  // downloaded, and is counted then
  lemma RoomIsUsed(u: Setup, s: State, i: nat) returns (acts: seq<Act>, t: State)
    requires Shape(u, s) && i < u.numProcs && s.procs[i].pc == Locked && ProcOk(u, s.procs[i])
      && HasRoom(u, s, s.procs[i])
    ensures IsRun(u, s, acts, t) && Shape(u, t)
    ensures var f := FileOf(s.procs[i]);
      && t.procs[i] == s.procs[i].(pc := Cached) && t.counter == s.counter + |u.remote[f]|
      && t.cached == s.cached[f := Some(u.remote[f])] && t.sem == s.sem
  {
    acts := [];
    assert IsRun(u, s, acts, s);
    hide IsRun, Next, Enabled, SetupOk, IsPart;
    var size := |u.remote[FileOf(s.procs[i])]|;
    var a, b, c := RoomSteps(u, s, i);
    var d, end := DownloadSteps(u, c, i);
    RunAppended(u, s, acts, s, i, Stat);
    acts := acts + [Act(i, Stat)];
    RunAppended(u, s, acts, a, i, First);
    acts := acts + [Act(i, First)];
    RunAppended(u, s, acts, b, i, Second);
    acts := acts + [Act(i, Second)];
    RunAppended(u, s, acts, c, i, Download(size));
    acts := acts + [Act(i, Download(size))];
    RunAppended(u, s, acts, d, i, Add);
    acts := acts + [Act(i, Add)];
    t := end;
  }

  // The states on the way of cutting a file that is not open
  lemma CutSteps(u: Setup, s: State, i: nat, g: nat, seen: nat) returns (a: State, b: State, c: State, t: State)
    requires Shape(u, s) && i < u.numProcs && g < |u.remote| && s.procs[i].pc == Visiting(g, seen)
    requires ProcOk(u, s.procs[i]) && s.open[u.slot[g]] == 0 && s.sem[u.semOf[g]] == None
    ensures Enabled(u, s, i, LookOpen) && a == Next(u, s, i, LookOpen) && Shape(u, a)
    ensures Enabled(u, a, i, LockOther) && b == Next(u, a, i, LockOther) && Shape(u, b)
    ensures Enabled(u, b, i, Cut) && c == Next(u, b, i, Cut) && Shape(u, c)
    ensures Enabled(u, c, i, Subtract) && t == Next(u, c, i, Subtract) && Shape(u, t)
    ensures t.counter == s.counter - seen && t.cached == s.cached[g := Some([])] && t.sem == s.sem && t.open == s.open
    ensures forall j :: 0 <= j < u.numProcs && j != i ==> t.procs[j] == s.procs[j]
  {
    hide ProcOk, IsRead, Took, Overwritten, Counted;
    NextShape(u, s, i, LookOpen);
    a := Next(u, s, i, LookOpen);
    NextShape(u, a, i, LockOther);
    b := Next(u, a, i, LockOther);
    NextShape(u, b, i, Cut);
    c := Next(u, b, i, Cut);
    NextShape(u, c, i, Subtract);
    t := Next(u, c, i, Subtract);
    assert t.sem == s.sem[u.semOf[g] := Some(i)][u.semOf[g] := None];
  }

  lemma {:induction false} CutOne(u: Setup, s: State, i: nat, g: nat, seen: nat, r: State, before: seq<Act>)
    returns (acts: seq<Act>, t: State)
    requires Shape(u, s) && i < u.numProcs && g < |u.remote| && s.procs[i].pc == Visiting(g, seen)
    requires ProcOk(u, s.procs[i]) && s.open[u.slot[g]] == 0 && s.sem[u.semOf[g]] == None
    requires IsRun(u, r, before, s)
    ensures IsRun(u, r, acts, t) && Shape(u, t) && t.counter == s.counter - seen
    ensures t.cached == s.cached[g := Some([])] && t.sem == s.sem && t.open == s.open
    ensures forall j :: 0 <= j < u.numProcs && j != i ==> t.procs[j] == s.procs[j]
  {
    hide IsRun, Shape, Next, Enabled;
    var a, b, c;
    a, b, c, t := CutSteps(u, s, i, g, seen);
    RunAppended(u, r, before, s, i, LookOpen);
    acts := before + [Act(i, LookOpen)];
    RunAppended(u, r, acts, a, i, LockOther);
    acts := acts + [Act(i, LockOther)];
    RunAppended(u, r, acts, b, i, Cut);
    acts := acts + [Act(i, Cut)];
    RunAppended(u, r, acts, c, i, Subtract);
    acts := acts + [Act(i, Subtract)];
  }

  // Two processes that have come to the same file both subtract its size: the bytes of the file
  // are gone once, and twice from the counter.
  lemma SubtractedTwice(u: Setup, s: State, i: nat, j: nat, g: nat) returns (acts: seq<Act>, t: State)
    requires Shape(u, s) && i < j < u.numProcs && ProcOk(u, s.procs[i]) && ProcOk(u, s.procs[j]) && g < |u.remote|
    requires s.procs[i].pc == s.procs[j].pc == Visiting(g, SizeIn(s.cached[g]))
    requires s.open[u.slot[g]] == 0 && s.sem[u.semOf[g]] == None
    ensures IsRun(u, s, acts, t) && Shape(u, t)
    ensures t.counter == s.counter - 2 * SizeIn(s.cached[g])
    ensures Total(Sizes(t.cached)) == Total(Sizes(s.cached)) - SizeIn(s.cached[g])
  {
    var size := SizeIn(s.cached[g]);
    assert IsRun(u, s, [], s);
    hide IsRun, ProcOk, SetupOk;
    var m;
    acts, m := CutOne(u, s, i, g, size, s, []);
    acts, t := CutOne(u, m, j, g, size, s, acts);
    assert t.cached == s.cached[g := Some([])];
    ReplacedSize(s.cached, g, Some([]));
  }
}
