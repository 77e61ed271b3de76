/** One process reading a file through the cache on disk (read_data and reduce_cache of
    src/afc-engine-preload/aep.cpp), while the others do as they like between its steps */
module ReadData {
  import opened Wrappers
  import opened DiskCache
  import opened DiskProgress
  import opened DiskAccount

  // What a read of a file gives: all that was asked for, as far as the file goes
  function Given(data: Data, off: nat, count: nat): (n: nat)
    ensures n <= count && (0 < n ==> off + n <= |data|)
    ensures n < count ==> |data| <= off + n
  {
    if off >= |data| then 0 else if off + count <= |data| then count else |data| - off
  }

  // The ways through read_data: from where to where the steps before the reading itself lead
  predicate Leads(e: Step, pc: Pc, pc': Pc) {
    match e
    case Lock => pc.Wanting? && pc'.Locked?
    case Stat => pc.Locked? && (pc'.Cached? || pc'.Tight? || pc'.Uncached?)
    case First => pc.Tight? && (pc'.Walking? || pc'.Checking?)
    case Visit(g) => pc.Walking? && pc'.Visiting? && pc'.g == g
    case LookOpen => pc.Visiting? && (pc'.Walking? || (pc'.Waiting? && pc'.g == pc.g))
    case LockOther => pc.Waiting? && pc' == Freeing(pc.g, pc.seen)
    case Cut => pc.Freeing? && pc' == Subtracting(pc.seen)
    case Subtract => pc.Subtracting? && pc'.Subtracted?
    case Enough => pc.Subtracted? && (pc'.Walking? || pc'.Checking?)
    case WalkEnds => pc.Walking? && pc'.Checking?
    case Second => pc.Checking? && (pc'.Downloading? || pc'.Uncached?)
    case Download(_) => pc.Downloading? && (pc'.Adding? || pc'.Uncached?)
    case Add => pc.Adding? && pc'.Cached?
    case Release => pc.Uncached? && pc'.Remote?
    case _ => false
  }

  lemma OnlyPc(u: Setup, s: State, i: nat, e: Step)
    requires Shape(u, s) && i < u.numProcs && Enabled(u, s, i, e)
    requires !e.Open? && !e.Close? && !e.Seek? && !e.Read? && !e.ReadCached? && !e.ReadRemote?
    ensures NextProc(u, s, i, e) == s.procs[i].(pc := NextPc(u, s, i, e))
    ensures Leads(e, s.procs[i].pc, NextPc(u, s, i, e))
  {
  }

  // Steps that can always be taken from where they begin
  predicate IsFree(e: Step, pc: Pc) {
    match e
    case Stat => pc.Locked?
    case First => pc.Tight?
    case LookOpen => pc.Visiting?
    case Cut => pc.Freeing?
    case Subtract => pc.Subtracting?
    case Enough => pc.Subtracted?
    case WalkEnds => pc.Walking?
    case Second => pc.Checking?
    case Add => pc.Adding?
    case Release => pc.Uncached?
    case _ => false
  }

  lemma FreeIsEnabled(u: Setup, s: State, i: nat, e: Step)
    requires Shape(u, s) && i < u.numProcs && IsFree(e, s.procs[i].pc)
    ensures Enabled(u, s, i, e)
  {
  }

  lemma DownloadIsEnabled(u: Setup, s: State, i: nat, result: int)
    requires Shape(u, s) && i < u.numProcs && s.procs[i].pc.Downloading? && ProcOk(u, s.procs[i])
    requires IsResult(result, |u.remote[FileOf(s.procs[i])]|)
    ensures Enabled(u, s, i, Download(result))
  {
  }

  // Getting a semaphore
  predicate IsTaking(e: Step, pc: Pc) {
    (e.Lock? && pc.Wanting?) || (e.LockOther? && pc.Waiting?)
  }

  lemma TakingIsEnabled(u: Setup, s: State, i: nat, e: Step)
    requires Shape(u, s) && i < u.numProcs && ProcOk(u, s.procs[i]) && IsTaking(e, s.procs[i].pc)
    requires s.sem[Awaited(u, s.procs[i])] == None
    ensures Enabled(u, s, i, e)
  {
  }

  lemma AwaitedIsThere(u: Setup, s: State, i: nat)
    requires Shape(u, s) && i < u.numProcs && (s.procs[i].pc.Wanting? || s.procs[i].pc.Waiting?)
    ensures ProcOk(u, s.procs[i]) && Awaited(u, s.procs[i]) < |u.remote|
  {
    assert ProcOk(u, s.procs[i]);
  }

  lemma VisitIsEnabled(u: Setup, s: State, i: nat, g: nat)
    requires Shape(u, s) && i < u.numProcs && s.procs[i].pc.Walking?
    requires g < |s.cached| && s.cached[g].Some? && s.cached[g].value != []
    ensures Enabled(u, s, i, Visit(g))
  {
  }

  // The process 'p' has read 'data', which is what the remote file has, and is now 'q'. It has
  // read all that was asked for, as far as the file goes, if the size of the file fits.
  ghost predicate WasRead(u: Setup, p: Proc, q: Proc, data: Data) {
    && p.fd in p.fds && q.fd in q.fds && q.fd == p.fd && FileOf(p) < |u.remote| && q.pc.Idle?
    && var remote, off := u.remote[FileOf(p)], p.fds[p.fd].off;
    && data == Slice(remote, off, |data|) && |data| <= Given(remote, off, p.count)
    && (SizeFits(|remote|) ==> |data| == Given(remote, off, p.count))
    && q.fds[q.fd].off == off + |data|
  }

  // What a process reads from 'data', of which the remote file may have more
  lemma ReadsPart(u: Setup, p: Proc, data: Data)
    requires ProcOk(u, p) && p.fd in p.fds && data <= u.remote[FileOf(p)]
    requires SizeFits(|u.remote[FileOf(p)]|) ==> data == u.remote[FileOf(p)]
    ensures var n := Given(data, p.fds[p.fd].off, p.count);
      && IsRead(data, p.fds[p.fd], p.count, n)
      && WasRead(u, p, p.(pc := Idle, fds := p.fds[p.fd := Took(p.fds[p.fd], data, n)]),
           Slice(data, p.fds[p.fd].off, n))
  {
    hide SizeFits;
  }

  lemma CachedPart(u: Setup, s: State, i: nat)
    requires Inv(u, s) && i < u.numProcs && s.procs[i].pc.Cached?
    ensures Shape(u, s) && ProcOk(u, s.procs[i]) && s.procs[i].fd in s.procs[i].fds
    ensures var cached, remote := s.cached[FileOf(s.procs[i])], u.remote[FileOf(s.procs[i])];
      cached.Some? && cached.value <= remote && (SizeFits(|remote|) ==> cached.value == remote)
  {
    assert HasWhole(u, s.cached, s.procs[i]);
    assert IsPart(u, FileOf(s.procs[i]), s.cached[FileOf(s.procs[i])]);
    hide SemInv, BudgetInv, ReadInv, SizeFits;
  }

  // Reading, from the cache or from the remote file
  lemma ReadsNext(u: Setup, s: State, i: nat, n: nat)
    requires Shape(u, s) && i < u.numProcs && ProcOk(u, s.procs[i]) && s.procs[i].fd in s.procs[i].fds
    ensures var p := s.procs[i];
      && (p.pc.Cached? && s.cached[FileOf(p)].Some? && IsRead(s.cached[FileOf(p)].value, p.fds[p.fd], p.count, n) ==>
            && Enabled(u, s, i, ReadCached(n))
            && Next(u, s, i, ReadCached(n)).procs
               == s.procs[i := p.(pc := Idle, fds := p.fds[p.fd := Took(p.fds[p.fd], s.cached[FileOf(p)].value, n)])])
      && (p.pc.Remote? && IsRead(u.remote[FileOf(p)], p.fds[p.fd], p.count, n) ==>
            && Enabled(u, s, i, ReadRemote(n))
            && Next(u, s, i, ReadRemote(n)).procs
               == s.procs[i := p.(pc := Idle, fds := p.fds[p.fd := Took(p.fds[p.fd], u.remote[FileOf(p)], n)])])
  {
    hide Took, IsRead;
  }

  // What a step of walking through the cache does to what the processes share
  lemma WalkEffects(u: Setup, s: State, i: nat, e: Step)
    requires Shape(u, s) && i < u.numProcs && Enabled(u, s, i, e)
    requires e.Visit? || e.LookOpen? || e.LockOther? || e.Cut? || e.Subtract? || e.Enough? || e.WalkEnds?
    ensures var s' := Next(u, s, i, e);
      var pc, pc' := s.procs[i].pc, s'.procs[i].pc;
      && s'.open == s.open
      && s'.cached == (if e.Cut? then s.cached[pc.g := Some([])] else s.cached)
      && s'.counter == s.counter - (if e.Subtract? then pc.seen else 0)
      && (e.Visit? ==> s.cached[e.g].Some? && pc' == Visiting(e.g, |s.cached[e.g].value|))
      && (e.LookOpen? ==> pc.g < |u.slot| && (pc'.Waiting? <==> s.open[u.slot[pc.g]] == 0))
      && (e.LookOpen? && pc'.Waiting? ==> pc'.g == pc.g && pc'.seen == pc.seen)
      && (e.Enough? ==> (pc'.Checking? <==> s.counter + |u.remote[FileOf(s.procs[i])]| <= u.maxSize))
  {
    assert ProcOk(u, s.procs[i]);
    hide Took, IsRead, NextSem;
  }

  ghost predicate IsNext(u: Setup, s: State, i: nat, e: Step, t: State) {
    Shape(u, s) && i < u.numProcs && Enabled(u, s, i, e) && t == Next(u, s, i, e)
  }

  // A file that a walk through the cache cuts if it comes to it
  predicate IsCut(u: Setup, s: State, g: nat)
    requires Shape(u, s)
  {
    g < |u.remote| && s.cached[g].Some? && s.cached[g].value != [] && s.open[u.slot[g]] == 0
  }

  // Files that are not open become empty, all others stay as they are, and what is cut is subtracted
  ghost predicate AreCut(u: Setup, s: State, t: State, walk: seq<nat>)
    requires Shape(u, s) && Shape(u, t)
  {
    && t.open == s.open
    && (forall g :: 0 <= g < |u.remote| ==> t.cached[g] == if g in walk && IsCut(u, s, g) then Some([])
         else s.cached[g])
    && t.counter - Total(Sizes(t.cached)) == s.counter - Total(Sizes(s.cached))
  }

  lemma NoneCut(u: Setup, s: State, t: State)
    requires Shape(u, s) && Shape(u, t) && t.open == s.open && t.cached == s.cached && t.counter == s.counter
    ensures AreCut(u, s, t, [])
  {
    hide Total, Sizes;
  }

  lemma OneMoreCut(u: Setup, s: State, m: State, t: State, walk: seq<nat>, g: nat)
    requires Shape(u, s) && Shape(u, m) && Shape(u, t) && AreCut(u, s, m, walk) && t.open == m.open
    requires if IsCut(u, m, g) then t.cached == m.cached[g := Some([])] && t.counter == m.counter - SizeIn(m.cached[g])
      else t.cached == m.cached && t.counter == m.counter
    ensures AreCut(u, s, t, walk + [g])
  {
    if IsCut(u, m, g) {
      ReplacedSize(m.cached, g, Some([]));
    }
    hide Total, Sizes, ProcOk, SetupOk;
    forall f | 0 <= f < |u.remote|
      ensures t.cached[f] == if f in walk + [g] && IsCut(u, s, f) then Some([]) else s.cached[f]
    {
      assert f in walk + [g] <==> f in walk || f == g;
    }
  }

  // There is room in the cache for the file that the process reads
  predicate HasRoomNow(u: Setup, s: State, i: nat)
    requires Shape(u, s) && i < u.numProcs && s.procs[i].fd in s.procs[i].fds && FileOf(s.procs[i]) < |u.remote|
  {
    s.counter + |u.remote[FileOf(s.procs[i])]| <= u.maxSize
  }

  // What became of a file that the process had come to
  ghost predicate IsCutOrLeft(u: Setup, s: State, i: nat, g: nat, seen: nat, t: State) {
    && Shape(u, s) && Shape(u, t) && i < u.numProcs && g < |u.remote|
    && t.procs[i] == s.procs[i].(pc := t.procs[i].pc) && t.open == s.open
    && s.procs[i].fd in s.procs[i].fds && FileOf(s.procs[i]) < |u.remote|
    && if s.open[u.slot[g]] != 0 then t.cached == s.cached && t.counter == s.counter && t.procs[i].pc.Walking?
       else
         && t.cached == s.cached[g := Some([])] && t.counter == s.counter - seen
         && (if HasRoomNow(u, t, i) then t.procs[i].pc.Checking? else t.procs[i].pc.Walking?)
  }

  lemma IsLeft(u: Setup, s: State, i: nat, t: State)
    requires IsNext(u, s, i, LookOpen, t) && t.procs[i].pc.Walking?
    ensures Shape(u, t) && IsCutOrLeft(u, s, i, s.procs[i].pc.g, s.procs[i].pc.seen, t)
  {
    NextShape(u, s, i, LookOpen);
    assert ProcOk(u, s.procs[i]);
    WalkEffects(u, s, i, LookOpen);
    OnlyPc(u, s, i, LookOpen);
    hide Enabled, NextPc, NextSem, NextCached, NextCounter, NextOpen;
  }

  // One step of cutting: what it changes, besides where the process is
  lemma CuttingStep(u: Setup, s: State, i: nat, e: Step, t: State)
    requires IsNext(u, s, i, e, t) && (e.LookOpen? || e.LockOther? || e.Cut? || e.Subtract? || e.Enough?)
    ensures Shape(u, t) && ProcOk(u, s.procs[i]) && t.procs[i] == s.procs[i].(pc := t.procs[i].pc)
    ensures Leads(e, s.procs[i].pc, t.procs[i].pc) && t.open == s.open
    ensures t.cached == (if e.Cut? then s.cached[s.procs[i].pc.g := Some([])] else s.cached)
    ensures t.counter == s.counter - if e.Subtract? then s.procs[i].pc.seen else 0
    ensures e.LookOpen? ==>
      s.procs[i].pc.g < |u.remote| && (t.procs[i].pc.Waiting? <==> s.open[u.slot[s.procs[i].pc.g]] == 0)
    ensures e.LookOpen? && t.procs[i].pc.Waiting? ==>
      t.procs[i].pc.g == s.procs[i].pc.g && t.procs[i].pc.seen == s.procs[i].pc.seen
    ensures e.Enough? ==> (t.procs[i].pc.Checking? <==> HasRoomNow(u, s, i))
  {
    NextShape(u, s, i, e);
    assert ProcOk(u, s.procs[i]);
    WalkEffects(u, s, i, e);
    OnlyPc(u, s, i, e);
    hide Enabled, NextPc, NextSem, NextCached, NextCounter, NextOpen, Leads;
  }

  lemma IsCutAfter(u: Setup, s: State, i: nat, a: State, b: State, c: State, d: State, t: State)
    requires s.procs != [] && IsNext(u, s, i, LookOpen, a) && a.procs[i].pc.Waiting?
    requires IsNext(u, a, i, LockOther, b) && IsNext(u, b, i, Cut, c) && IsNext(u, c, i, Subtract, d)
    requires IsNext(u, d, i, Enough, t)
    ensures Shape(u, s) && s.procs[i].pc.Visiting? && IsCutOrLeft(u, s, i, s.procs[i].pc.g, s.procs[i].pc.seen, t)
  {
    CuttingStep(u, s, i, LookOpen, a);
    CuttingStep(u, a, i, LockOther, b);
    CuttingStep(u, b, i, Cut, c);
    CuttingStep(u, c, i, Subtract, d);
    CuttingStep(u, d, i, Enough, t);
    hide Next, Enabled, Shape;
  }

  // The first k files of the walk are dealt with. If the walk stopped before its end, there is room.
  ghost predicate WalkedTo(u: Setup, s: State, t: State, walk: seq<nat>, k: nat, i: nat) {
    && Shape(u, s) && Shape(u, t) && i < u.numProcs && k <= |walk| && AreCut(u, s, t, walk[..k])
    && t.procs[i].fd in t.procs[i].fds && FileOf(t.procs[i]) < |u.remote|
    && (t.procs[i].pc.Checking? && k < |walk| ==> HasRoomNow(u, t, i))
  }

  lemma WalkBegins(u: Setup, s: State, walk: seq<nat>, i: nat)
    requires Shape(u, s) && i < u.numProcs && s.procs[i].pc.Walking?
    ensures WalkedTo(u, s, s, walk, 0, i)
  {
    assert ProcOk(u, s.procs[i]);
    assert walk[..0] == [];
    NoneCut(u, s, s);
  }

  lemma WalkEndsAt(u: Setup, s: State, m: State, t: State, walk: seq<nat>, i: nat)
    requires WalkedTo(u, s, m, walk, |walk|, i) && IsNext(u, m, i, WalkEnds, t)
    ensures WalkedTo(u, s, t, walk, |walk|, i)
  {
    NextShape(u, m, i, WalkEnds);
    WalkEffects(u, m, i, WalkEnds);
    OnlyPc(u, m, i, WalkEnds);
    hide Enabled, NextPc, NextSem, NextCached, NextCounter, NextOpen, Total, Sizes;
  }

  lemma VisitStep(u: Setup, s: State, i: nat, g: nat, t: State)
    requires IsNext(u, s, i, Visit(g), t)
    ensures Shape(u, t) && ProcOk(u, s.procs[i]) && g < |u.remote| && s.cached[g].Some?
    ensures t.cached == s.cached && t.counter == s.counter && t.open == s.open
    ensures t.procs[i] == s.procs[i].(pc := Visiting(g, |s.cached[g].value|))
  {
    NextShape(u, s, i, Visit(g));
    assert ProcOk(u, s.procs[i]);
    WalkEffects(u, s, i, Visit(g));
    OnlyPc(u, s, i, Visit(g));
    hide Enabled, NextPc, NextSem, NextCached, NextCounter, NextOpen;
  }

  predicate IsInCache(s: State, g: nat) {
    g < |s.cached| && s.cached[g].Some? && s.cached[g].value != []
  }

  // What became of a file of the walk: it was passed over if it is not in the cache
  ghost predicate IsDealtWith(u: Setup, s: State, i: nat, g: nat, t: State) {
    if IsInCache(s, g) then IsCutOrLeft(u, s, i, g, SizeIn(s.cached[g]), t) else t == s
  }

  lemma NotInCache(u: Setup, s: State, i: nat, g: nat)
    ensures !IsInCache(s, g) ==> IsDealtWith(u, s, i, g, s)
    ensures IsInCache(s, g) <==> g < |s.cached| && s.cached[g].Some? && s.cached[g].value != []
  {
  }

  lemma VisitedAndCut(u: Setup, s: State, i: nat, g: nat, n: State, t: State)
    requires IsNext(u, s, i, Visit(g), n) && IsInCache(s, g)
    requires n.procs[i].pc.Visiting? && IsCutOrLeft(u, n, i, n.procs[i].pc.g, n.procs[i].pc.seen, t)
    ensures IsDealtWith(u, s, i, g, t)
  {
    VisitStep(u, s, i, g, n);
    hide Next, Enabled, ProcOk, SetupOk;
  }

  lemma WalkGoesOn(u: Setup, s: State, m: State, t: State, walk: seq<nat>, k: nat, i: nat)
    requires WalkedTo(u, s, m, walk, k, i) && k < |walk| && m.procs[i].pc.Walking?
    requires IsDealtWith(u, m, i, walk[k], t)
    ensures WalkedTo(u, s, t, walk, k + 1, i)
  {
    assert walk[..k + 1] == walk[..k] + [walk[k]];
    hide Next, Enabled, ProcOk, SetupOk, AreCut;
    OneMoreCut(u, s, m, t, walk[..k], walk[k]);
  }

  // ---- Which way a reading takes ----

  // Process i has got the semaphore of its file, which is whole in the cache
  ghost predicate HasItWhole(u: Setup, s: State, i: nat, fd: nat, f: nat) {
    && Inv(u, s) && i < u.numProcs && f < |u.remote| && s.cached[f] == Some(u.remote[f])
    && (s.procs[i].pc.Locked? || s.procs[i].pc.Cached?) && s.procs[i].fd == fd && fd in s.procs[i].fds
    && s.procs[i].fds[fd].file == f
  }

  lemma WholeStays(u: Setup, s: State, i: nat, fd: nat, f: nat, j: nat, e: Step)
    requires HasItWhole(u, s, i, fd, f) && j < u.numProcs && Enabled(u, s, j, e) && (j == i ==> e.Stat?)
    ensures HasItWhole(u, Next(u, s, j, e), i, fd, f)
    ensures j == i ==> Next(u, s, j, e).procs[i].pc.Cached?
  {
    NextInv(u, s, j, e);
    CachedStep(u, s, j, e, f);
    OneHolds(u, s, j, i, f);
    hide Holds, SemInv, CacheInv, ReadInv, BudgetInv, NextSem, NextOpen, NextCounter, Took, IsRead, SetupOk;
  }

  lemma OnlyStatOrRead(u: Setup, s: State, i: nat, e: Step)
    requires Shape(u, s) && i < u.numProcs && Enabled(u, s, i, e)
    ensures s.procs[i].pc.Locked? ==> e == Stat
    ensures s.procs[i].pc.Cached? ==> e.ReadCached?
    ensures s.procs[i].pc.Remote? ==> e.ReadRemote?
  {
  }

  // Steps of the others, and at most the look at the file by process i
  predicate AtMostStat(acts: seq<Act>, i: nat) {
    forall k :: 0 <= k < |acts| && acts[k].proc == i ==> acts[k].step == Stat
  }

  // A file that is whole in the cache when its semaphore is taken is read from the cache, whatever the others
  // do: nothing but the look at it and the reading from the cache comes next.
  lemma {:induction false} WholeIsReadFromCache(u: Setup, s: State, acts: seq<Act>, t: State, i: nat, fd: nat, f: nat,
                                                e: Step)
    requires HasItWhole(u, s, i, fd, f) && IsRun(u, s, acts, t) && AtMostStat(acts, i)
    requires Shape(u, t) && Enabled(u, t, i, e)
    ensures HasItWhole(u, t, i, fd, f) && (e == Stat || e.ReadCached?)
    decreases |acts|
  {
    hide Next, Inv, Enabled, Shape;
    if acts == [] {
      OnlyStatOrRead(u, s, i, e);
    } else {
      WholeStays(u, s, i, fd, f, acts[0].proc, acts[0].step);
      WholeIsReadFromCache(u, Next(u, s, acts[0].proc, acts[0].step), acts[1..], t, i, fd, f, e);
    }
  }

  class Process {
    const u: Setup
    const me: nat
    var s: State                 // what the processes share
    var others: seq<seq<Act>>    // what other processes do, from step to step of this one
    ghost const start: State
    ghost var run: seq<Act>

    ghost predicate Valid()
      reads this
    {
      me < u.numProcs && Inv(u, s) && IsStart(u, start) && IsRun(u, start, run, s)
    }

    constructor (u: Setup, s: State, me: nat, others: seq<seq<Act>>)
      requires IsStart(u, s) && me < u.numProcs
      ensures Valid() && this.u == u && this.me == me && this.s == s && this.others == others
    {
      this.u, this.s, this.me, this.others := u, s, me, others;
      start, run := s, [];
      new;
      StartInv(u, s);
    }

    method Step(e: Step)
      requires Valid() && Shape(u, s) && Enabled(u, s, me, e)
      modifies this`s, this`run
      ensures Valid() && Shape(u, s) && s == Next(u, old(s), me, e)
    {
      hide Next, IsRun, IsStart, Enabled;
      NextInv(u, s, me, e);
      RunAppended(u, start, run, s, me, e);
      run := run + [Act(me, e)];
      s := Next(u, s, me, e);
    }

    function Mine(): Proc
      requires me < |s.procs|
      reads this
    {
      s.procs[me]
    }

    // A step of read_data before the reading itself
    method Go(e: Step)
      requires Valid() && Shape(u, s) && Enabled(u, s, me, e)
      requires !e.Open? && !e.Close? && !e.Seek? && !e.Read? && !e.ReadCached? && !e.ReadRemote?
      modifies this`s, this`run
      ensures Valid() && me < |s.procs| && Mine() == old(Mine()).(pc := Mine().pc)
      ensures Leads(e, old(Mine()).pc, Mine().pc) && s == Next(u, old(s), me, e)
    {
      assert me < u.numProcs;
      hide Valid, Enabled, NextPc, Leads;
      OnlyPc(u, s, me, e);
      Step(e);
    }

    // The same, after steps of the others
    method GoOn(e: Step)
      requires Valid() && me < |s.procs| && IsFree(e, Mine().pc)
      modifies this`s, this`run, this`others
      ensures Valid() && me < |s.procs| && Mine() == old(Mine()).(pc := Mine().pc)
      ensures Leads(e, old(Mine()).pc, Mine().pc)
      ensures if old(others) == [] then others == [] && IsNext(u, old(s), me, e, s) else |others| < |old(others)|
    {
      assert me < u.numProcs;
      hide Valid, Enabled, Leads, ProcOk, SetupOk, Next;
      LetOthers();
      FreeIsEnabled(u, s, me, e);
      Go(e);
    }

    // Other processes take steps
    method LetOthers()
      requires Valid() && me < |s.procs|
      modifies this`s, this`run, this`others
      ensures Valid() && Shape(u, s) && me < |s.procs| && Mine() == old(Mine())
      ensures old(others) == [] ==> others == [] && s == old(s)
      ensures old(others) != [] ==> |others| < |old(others)|
    {
      hide IsRun, IsStart, Enabled, SemInv, CacheInv, ReadInv, BudgetInv, SetupOk, ProcOk, NextProc;
      if others == [] {
        return;
      }
      var acts := others[0];
      others := others[1..];
      for k := 0 to |acts|
        invariant Valid() && s.procs[me] == old(s.procs[me]) && others == old(others)[1..]
      {
        var act := acts[k];
        if act.proc != me && act.proc < u.numProcs && Enabled(u, s, act.proc, act.step) {
          NextInv(u, s, act.proc, act.step);
          RunAppended(u, start, run, s, act.proc, act.step);
          run := run + [act];
          s := Next(u, s, act.proc, act.step);
        }
      }
    }

    // Waits for a semaphore, as long as there is something that others do
    method Await(x: nat) returns (free: bool)
      requires Valid() && me < |s.procs| && x < |u.remote|
      modifies this`s, this`run, this`others
      ensures Valid() && me < |s.procs| && Mine() == old(Mine())
      ensures if free then x < |s.sem| && s.sem[x] == None else others == []
      ensures old(others) == [] ==> others == [] && s == old(s)
    {
      assert |s.sem| == |u.remote|;
      hide Valid, Mine, IsNext, IsCutOrLeft, WalkedTo;
      while s.sem[x] != None && others != []
        invariant Valid() && me < |s.procs| && x < |s.sem| && Mine() == old(Mine())
        invariant old(others) == [] ==> others == [] && s == old(s)
        decreases |others|
      {
        LetOthers();
        hide Shape;
      }
      free := s.sem[x] == None;
    }

    // Waits for the semaphore and takes it
    method Take(e: Step) returns (taken: bool)
      requires Valid() && me < |s.procs| && IsTaking(e, Mine().pc)
      modifies this`s, this`run, this`others
      ensures Valid() && me < |s.procs| && (!taken ==> others == [])
      ensures taken ==> Mine() == old(Mine()).(pc := Mine().pc) && Leads(e, old(Mine()).pc, Mine().pc)
      ensures old(others) == [] ==> others == [] && if taken then IsNext(u, old(s), me, e, s) else s == old(s)
    {
      AwaitedIsThere(u, s, me);
      var x := Awaited(u, Mine());
      taken := Await(x);
      if taken {
        assert Shape(u, s) && me < u.numProcs;
        hide Valid, Leads, Shape, Enabled, Awaited, ProcOk, SetupOk;
        TakingIsEnabled(u, s, me, e);
        Go(e);
      }
    }

    // Files that are not in the cache, or empty there, are passed over
    method VisitFile(g: nat) returns (visited: bool)
      requires Valid() && me < |s.procs| && Mine().pc.Walking?
      modifies this`s, this`run, this`others
      ensures Valid() && me < |s.procs| && Mine() == old(Mine()).(pc := Mine().pc)
      ensures if visited then Leads(Visit(g), old(Mine()).pc, Mine().pc) else Mine() == old(Mine())
      ensures old(others) == [] ==>
        && others == []
        && (visited <==> g < |old(s).cached| && old(s).cached[g].Some? && old(s).cached[g].value != [])
        && if visited then IsNext(u, old(s), me, Visit(g), s) else s == old(s)
    {
      assert me < u.numProcs;
      hide Valid, Leads, ProcOk, SetupOk, Shape, Enabled;
      LetOthers();
      visited := g < |s.cached| && s.cached[g].Some? && s.cached[g].value != [];
      if visited {
        VisitIsEnabled(u, s, me, g);
        Go(Visit(g));
      }
    }

    // 'result' is what sendfile returns
    method DownloadFile(result: int)
      requires Valid() && me < |s.procs| && Mine().pc.Downloading?
      modifies this`s, this`run, this`others
      ensures Valid() && me < |s.procs| && Mine() == old(Mine()).(pc := Mine().pc)
        && (Mine().pc.Adding? || Mine().pc.Uncached?)
    {
      assert me < u.numProcs && ProcOk(u, Mine());
      var size := |u.remote[FileOf(Mine())]|;
      hide Valid, SetupOk, ProcOk, IsFileOf, Enabled, Shape, IsResult;
      LetOthers();
      var r := if IsResult(result, size) then result else -1;
      assert IsResult(-1, size);
      DownloadIsEnabled(u, s, me, r);
      Go(Download(r));
    }

    // Cuts the file that is visited, unless it is open
    method CutFile() returns (done: bool)
      requires Valid() && me < |s.procs| && Mine().pc.Visiting?
      modifies this`s, this`run, this`others
      ensures Valid() && me < |s.procs|
      ensures if done then Mine() == old(Mine()).(pc := Mine().pc) && (Mine().pc.Walking? || Mine().pc.Checking?)
        else others == []
      ensures old(others) == [] && done ==>
        others == [] && IsCutOrLeft(u, old(s), me, old(Mine()).pc.g, old(Mine()).pc.seen, s)
    {
      hide Valid, IsNext, IsCutOrLeft;
      ghost var s0 := s;
      GoOn(LookOpen);
      ghost var a := s;
      if Mine().pc.Waiting? {
        done := Take(LockOther);
        if !done {
          return;
        }
        ghost var b := s;
        GoOn(Cut);
        ghost var c := s;
        GoOn(Subtract);
        ghost var d := s;
        GoOn(Enough);
        if old(others) == [] {
          IsCutAfter(u, s0, me, a, b, c, d, s);
        }
      } else if old(others) == [] {
        IsLeft(u, s0, me, s);
      }
      done := true;
    }

    // Deals with one file of the walk
    method DealWith(g: nat) returns (done: bool)
      requires Valid() && me < |s.procs| && Mine().pc.Walking?
      modifies this`s, this`run, this`others
      ensures Valid() && me < |s.procs|
      ensures if done then Mine() == old(Mine()).(pc := Mine().pc) && (Mine().pc.Walking? || Mine().pc.Checking?)
        else others == []
      ensures old(others) == [] && done ==> others == [] && IsDealtWith(u, old(s), me, g, s)
    {
      hide Valid, IsNext, IsCutOrLeft, IsDealtWith;
      ghost var s0 := s;
      NotInCache(u, s0, me, g);
      var visited := VisitFile(g);
      if !visited {
        return true;
      }
      ghost var n := s;
      done := CutFile();
      if done && old(others) == [] {
        VisitedAndCut(u, s0, me, g, n, s);
      }
    }

    // The same for file k of a walk that began in state 'first'; 'alone' if nobody else does anything
    method GoOnWalking(walk: seq<nat>, k: nat, ghost first: State, ghost alone: bool) returns (done: bool)
      requires Valid() && me < |s.procs| && Mine().pc.Walking? && k < |walk|
      requires alone ==> others == [] && WalkedTo(u, first, s, walk, k, me)
      modifies this`s, this`run, this`others
      ensures Valid() && me < |s.procs|
      ensures if done then Mine() == old(Mine()).(pc := Mine().pc) && (Mine().pc.Walking? || Mine().pc.Checking?)
        else others == []
      ensures alone && done ==> others == [] && WalkedTo(u, first, s, walk, k + 1, me)
    {
      hide Valid, WalkedTo, IsDealtWith;
      ghost var s0 := s;
      done := DealWith(walk[k]);
      if done && alone {
        WalkGoesOn(u, first, s0, s, walk, k, me);
      }
    }

    // All files of the walk were visited
    method EndWalk(walk: seq<nat>, ghost first: State, ghost alone: bool)
      requires Valid() && me < |s.procs| && Mine().pc.Walking?
      requires alone ==> others == [] && WalkedTo(u, first, s, walk, |walk|, me)
      modifies this`s, this`run, this`others
      ensures Valid() && me < |s.procs| && Mine() == old(Mine()).(pc := Checking)
      ensures alone ==> others == [] && WalkedTo(u, first, s, walk, |walk|, me)
    {
      hide Valid, WalkedTo, IsNext;
      ghost var s0 := s;
      GoOn(WalkEnds);
      if alone {
        WalkEndsAt(u, first, s0, s, walk, me);
      }
    }

    // Cuts files that are not open, in the order of 'walk', until there is room for the file. If nobody else
    // does anything: all files up to the last one visited that are not open are cut and subtracted, the other
    // files stay as they are, and if not all were visited there is room.
    method ReduceCache(walk: seq<nat>) returns (done: bool, k: nat)
      requires Valid() && me < |s.procs| && Mine().pc.Walking?
      modifies this`s, this`run, this`others
      ensures Valid() && me < |s.procs|
      ensures if done then Mine() == old(Mine()).(pc := Checking) else others == []
      ensures old(others) == [] && done ==> others == [] && k <= |walk| && WalkedTo(u, old(s), s, walk, k, me)
    {
      WalkBegins(u, s, walk, me);
      hide *;
      k := 0;
      ghost var first, alone := s, others == [];
      while k < |walk|
        invariant Valid() && me < |s.procs| && Mine() == old(Mine()) && Mine().pc.Walking? && k <= |walk|
        invariant alone ==> others == [] && WalkedTo(u, first, s, walk, k, me)
      {
        done := GoOnWalking(walk, k, first, alone);
        if !done {
          return;
        }
        k := k + 1;
        if Mine().pc.Checking? {
          return;
        }
      }
      EndWalk(walk, first, alone);
      done := true;
    }

    // Makes room for the file and downloads it, unless there is no room
    method CacheFile(walk: seq<nat>, result: int) returns (done: bool)
      requires Valid() && me < |s.procs| && Mine().pc.Tight?
      modifies this`s, this`run, this`others
      ensures Valid() && me < |s.procs|
      ensures if done then Mine() == old(Mine()).(pc := Mine().pc) && (Mine().pc.Cached? || Mine().pc.Uncached?)
        else others == []
    {
      hide Valid, Mine, IsNext, IsCutOrLeft, WalkedTo;
      GoOn(First);
      if Mine().pc.Walking? {
        var k;
        done, k := ReduceCache(walk);
        if !done {
          return;
        }
      }
      GoOn(Second);
      if Mine().pc.Downloading? {
        DownloadFile(result);
        if Mine().pc.Adding? {
          GoOn(Add);
        }
      }
      done := true;
    }

    // Opening gives a descriptor that is not in use
    method OpenFile(fd: nat, f: nat)
      requires Valid() && me < |s.procs| && Mine().pc.Idle? && fd !in Mine().fds && f < |u.remote|
      modifies this`s, this`run, this`others
      ensures Valid() && me < |s.procs| && Mine().pc.Idle? && fd in Mine().fds
      ensures Mine().fds[fd].file == f && Mine().fds[fd].off == 0
      ensures forall x :: x in old(Mine()).fds ==> x in Mine().fds && Mine().fds[x] == old(Mine()).fds[x]
    {
      assert me < u.numProcs;
      hide Valid, IsRead, ProcOk, SetupOk;
      LetOthers();
      Step(Open(fd, f));
    }

    method SeekTo(fd: nat, off: nat)
      requires Valid() && me < |s.procs| && Mine().pc.Idle? && fd in Mine().fds
      modifies this`s, this`run
      ensures Valid() && me < |s.procs| && Mine().pc.Idle?
      ensures Mine().fds == old(Mine()).fds[fd := old(Mine()).fds[fd].(off := off, start := off, read := [])]
    {
      assert Shape(u, s) && me < u.numProcs;
      hide Valid, IsRead, ProcOk, SetupOk;
      Step(Seek(fd, off));
    }

    method CloseFile(fd: nat)
      requires Valid() && me < |s.procs| && Mine().pc.Idle? && fd in Mine().fds
      modifies this`s, this`run
      ensures Valid() && me < |s.procs| && Mine().pc.Idle? && Mine().fds == old(Mine()).fds - {fd}
    {
      assert Shape(u, s) && me < u.numProcs;
      hide Valid, IsRead, ProcOk, SetupOk;
      Step(Close(fd));
    }

    method Begin(fd: nat, count: nat)
      requires Valid() && me < |s.procs| && Mine().pc.Idle? && fd in Mine().fds
      modifies this`s, this`run
      ensures Valid() && me < |s.procs| && Mine() == old(Mine()).(pc := Wanting, fd := fd, count := count)
    {
      assert Shape(u, s) && me < u.numProcs;
      hide Valid, IsRead;
      Step(DiskCache.Read(fd, count));
    }

    method FromCache() returns (data: Data)
      requires Valid() && me < |s.procs| && Mine().pc.Cached?
      modifies this`s, this`run
      ensures Valid() && me < |s.procs| && WasRead(u, old(Mine()), Mine(), data)
    {
      CachedPart(u, s, me);
      assert me < u.numProcs;
      hide Valid, Shape, ProcOk, SetupOk, WasRead, IsRead, SizeFits, Enabled, Next;
      var p := s.procs[me];
      var cached := s.cached[FileOf(p)].value;
      var n := Given(cached, p.fds[p.fd].off, p.count);
      ReadsPart(u, p, cached);
      ReadsNext(u, s, me, n);
      data := Slice(cached, p.fds[p.fd].off, n);
      Step(ReadCached(n));
    }

    method FromRemote() returns (data: Data)
      requires Valid() && me < |s.procs| && Mine().pc.Remote?
      modifies this`s, this`run
      ensures Valid() && me < |s.procs| && WasRead(u, old(Mine()), Mine(), data)
    {
      assert Shape(u, s) && me < u.numProcs && ProcOk(u, s.procs[me]);
      hide Valid, Shape, ProcOk, SetupOk, WasRead, IsRead, SizeFits, Enabled, Next;
      var p := s.procs[me];
      var remote := u.remote[FileOf(p)];
      var n := Given(remote, p.fds[p.fd].off, p.count);
      ReadsPart(u, p, remote);
      ReadsNext(u, s, me, n);
      data := Slice(remote, p.fds[p.fd].off, n);
      Step(ReadRemote(n));
    }

    // Whatever the others do: the bytes that are read are those of the remote file, from the
    // place where the last reading ended. There is no result if the others come to an end without
    // giving a semaphore back.
    method Read(fd: nat, count: nat, walk: seq<nat>, result: int) returns (r: Option<Data>)
      requires Valid() && me < |s.procs| && Mine().pc.Idle? && fd in Mine().fds
      modifies this`s, this`run, this`others
      ensures Valid() && me < |s.procs|
      ensures r.None? ==> others == []
      ensures r.Some? ==> WasRead(u, old(Mine()).(fd := fd, count := count), Mine(), r.value)
    {
      hide Valid, Mine, IsNext, IsCutOrLeft, WalkedTo;
      Begin(fd, count);
      var taken := Take(Lock);
      if !taken {
        return None;
      }
      GoOn(Stat);
      if Mine().pc.Tight? {
        var done := CacheFile(walk, result);
        if !done {
          return None;
        }
      }
      if Mine().pc.Uncached? {
        GoOn(Release);
        LetOthers();
        var data := FromRemote();
        return Some(data);
      }
      LetOthers();
      var data := FromCache();
      return Some(data);
    }
  }
}
