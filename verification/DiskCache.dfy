/** The cache of remote files on disk, shared by several processes
    (src/afc-engine-preload/aep.cpp): files are downloaded into it when they are read, and cut to
    nothing when room is needed. A state machine, each step of which is one access to what the
    processes share: the cached files, their semaphores, the counter of the size of the cache and
    the counters of open files. */
module DiskCache {
  import opened Wrappers

  type Data = seq<int>

  // Files are numbers. 'slot' is the hash of their names; files with the same hash share a counter.
  // 'semOf' is the semaphore of their names, in which every slash but the first has become an
  // underscore; files whose names differ in these only share a semaphore.
  datatype Setup = Setup(remote: seq<Data>, slot: seq<nat>, semOf: seq<nat>, maxFile: int, maxSize: int, numProcs: nat)

  const SLOTS: nat := 0x1_0000

  // The most that one call of sendfile copies
  const SENDFILE_MAX: nat := 0x7fff_f000

  predicate SetupOk(u: Setup) {
    && 0 <= u.maxFile <= u.maxSize && |u.slot| == |u.semOf| == |u.remote| && 1 <= u.numProcs
    && (forall f :: 0 <= f < |u.slot| ==> u.slot[f] < SLOTS)
    && (forall f :: 0 <= f < |u.semOf| ==> u.semOf[f] < |u.remote|)
    && (forall f :: 0 <= f < |u.remote| ==> u.remote[f] != [])
  }

  // An open file: the place to go on reading, when it was opened, and what was read since the
  // last seek, which went to 'start'
  datatype Fd = Fd(file: nat, off: nat, openedAt: nat, start: nat, read: Data)

  // Where a process is in read_data
  datatype Pc =
    | Idle
    | Wanting                                        // waits for the semaphore of its file
    | Locked
    | Tight                                          // before the first look at the size of the cache
    | Walking                                        // reduce_cache, between files
    | Visiting(g: nat, seen: nat)                    // reduce_cache, at a file that had 'seen' bytes
    | Waiting(g: nat, seen: nat, checked: nat)       // for the semaphore of a file found not open
    | Freeing(g: nat, seen: nat)
    | Subtracting(seen: nat)                         // file cut, semaphore released
    | Subtracted
    | Checking                                       // before the second look at the size of the cache
    | Downloading
    | Adding                                         // downloaded, not counted yet
    | Cached
    | Uncached
    | Remote                                         // semaphore released, before reading the remote file

  datatype Proc = Proc(pc: Pc, fd: nat, count: nat, fds: map<nat, Fd>)

  datatype State = State(
    cached: seq<Option<Data>>,
    counter: int,
    open: seq<int>,            // by slot
    sem: seq<Option<nat>>,     // by semaphore: the process that has it
    procs: seq<Proc>,
    clock: nat)                // number of openings and of looks at counters of open files

  datatype Step =
    | Open(fd: nat, f: nat) | Close(fd: nat) | Seek(fd: nat, off: nat) | Read(fd: nat, count: nat)
    | Lock | Stat | First
    | Visit(g: nat) | LookOpen | LockOther | Cut | Subtract | Enough | WalkEnds
    | Second | Download(result: int) | Add      // the result of sendfile: bytes copied, or -1
    | ReadCached(n: nat) | Release | ReadRemote(n: nat)

  // ---- The steps ----

  // An 8-bit counter that is never left below zero
  function Counted(n: int): int {
    var byte := (n + 128) % 256 - 128;
    if byte < 0 then 0 else byte
  }

  function Slice(data: Data, off: nat, n: nat): Data {
    if off + n <= |data| then data[off..off + n] else []
  }

  predicate IsFileOf(u: Setup, pc: Pc) {
    match pc
    case Visiting(g, _) => g < |u.remote|
    case Waiting(g, _, _) => g < |u.remote|
    case Freeing(g, _) => g < |u.remote|
    case _ => true
  }

  // All that is referred to is there
  predicate ProcOk(u: Setup, p: Proc) {
    && (forall fd :: fd in p.fds ==> p.fds[fd].file < |u.remote|)
    && (!p.pc.Idle? ==> p.fd in p.fds) && IsFileOf(u, p.pc)
  }

  predicate Shape(u: Setup, s: State) {
    && SetupOk(u) && |s.cached| == |s.sem| == |u.remote| && |s.open| == SLOTS && |s.procs| == u.numProcs
    && forall i :: 0 <= i < |s.procs| ==> ProcOk(u, s.procs[i])
  }

  // The file that a process reads
  function FileOf(p: Proc): nat
    requires p.fd in p.fds
  {
    p.fds[p.fd].file
  }

  // What sendfile may return for a file of that size
  predicate IsResult(result: int, size: nat) {
    -1 <= result <= size && result <= SENDFILE_MAX
  }

  function Copied(result: int): nat {
    if result < 0 then 0 else result
  }

  // The result and the size of the file are compared as 32-bit integers
  predicate IsTakenForWhole(result: int, size: nat) {
    result % 0x1_0000_0000 == size % 0x1_0000_0000
  }

  // No other result than all of the file is taken for the whole file
  predicate SizeFits(size: nat) {
    size % 0x1_0000_0000 != 0xffff_ffff && (size < 0x1_0000_0000 || size % 0x1_0000_0000 > SENDFILE_MAX)
  }

  // For these sizes a download is taken for whole only if it is; for all others there is a result
  // for which it is not
  lemma WholeIsWhole(size: nat)
    ensures SizeFits(size) <==> forall result :: IsResult(result, size) && IsTakenForWhole(result, size) ==>
      result == size
  {
    if SizeFits(size) {
      forall result | IsResult(result, size) && IsTakenForWhole(result, size)
        ensures result == size
      {
        SameLowBits(result, size);
      }
    } else {
      var result := if size % 0x1_0000_0000 == 0xffff_ffff then -1 else size % 0x1_0000_0000;
      assert IsResult(result, size) && IsTakenForWhole(result, size) && result != size;
    }
  }

  lemma SameLowBits(result: int, size: nat)
    requires SizeFits(size) && IsResult(result, size) && IsTakenForWhole(result, size)
    ensures result == size
  {
    assert result >= 0 ==> result % 0x1_0000_0000 == result;
  }

  // The first bytes are written over what is there
  function Overwritten(had: Option<Data>, bytes: Data): Data {
    bytes + if had.Some? && |had.value| > |bytes| then had.value[|bytes|..] else []
  }

  predicate IsRead(data: Data, fd: Fd, count: nat, n: nat) {
    n <= count && (fd.off + n <= |data| || n == 0)
  }

  predicate Enabled(u: Setup, s: State, i: nat, e: Step)
    requires Shape(u, s) && i < u.numProcs
  {
    var p := s.procs[i];
    match e
    case Open(fd, f) => p.pc.Idle? && fd !in p.fds && f < |u.remote|
    case Close(fd) => p.pc.Idle? && fd in p.fds
    case Seek(fd, off) => p.pc.Idle? && fd in p.fds
    case Read(fd, count) => p.pc.Idle? && fd in p.fds
    case Lock => p.pc.Wanting? && s.sem[u.semOf[FileOf(p)]].None?
    case Stat => p.pc.Locked?
    case First => p.pc.Tight?
    case Visit(g) => p.pc.Walking? && g < |s.cached| && s.cached[g].Some? && s.cached[g].value != []
    case LookOpen => p.pc.Visiting?
    case LockOther => p.pc.Waiting? && s.sem[u.semOf[p.pc.g]].None?
    case Cut => p.pc.Freeing?
    case Subtract => p.pc.Subtracting?
    case Enough => p.pc.Subtracted?
    case WalkEnds => p.pc.Walking?
    case Second => p.pc.Checking?
    case Download(result) => p.pc.Downloading? && IsResult(result, |u.remote[FileOf(p)]|)
    case Add => p.pc.Adding?
    case ReadCached(n) =>
      p.pc.Cached? && s.cached[FileOf(p)].Some? && IsRead(s.cached[FileOf(p)].value, p.fds[p.fd], p.count, n)
    case Release => p.pc.Uncached?
    case ReadRemote(n) => p.pc.Remote? && IsRead(u.remote[FileOf(p)], p.fds[p.fd], p.count, n)
  }

  function Took(fd: Fd, data: Data, n: nat): Fd {
    fd.(off := fd.off + n, read := fd.read + Slice(data, fd.off, n))
  }

  // What a step does to the process that takes it
  function NextProc(u: Setup, s: State, i: nat, e: Step): Proc
    requires Shape(u, s) && i < u.numProcs && Enabled(u, s, i, e)
  {
    var p := s.procs[i];
    match e
    case Open(fd, f) => p.(fds := p.fds[fd := Fd(f, 0, s.clock, 0, [])])
    case Close(fd) => p.(fds := p.fds - {fd})
    case Seek(fd, off) => p.(fds := p.fds[fd := p.fds[fd].(off := off, start := off, read := [])])
    case Read(fd, count) => p.(pc := Wanting, fd := fd, count := count)
    case ReadCached(n) => p.(pc := Idle, fds := p.fds[p.fd := Took(p.fds[p.fd], s.cached[FileOf(p)].value, n)])
    case ReadRemote(n) => p.(pc := Idle, fds := p.fds[p.fd := Took(p.fds[p.fd], u.remote[FileOf(p)], n)])
    case _ => p.(pc := NextPc(u, s, i, e))
  }

  // Where a process gets to in read_data
  function NextPc(u: Setup, s: State, i: nat, e: Step): Pc
    requires Shape(u, s) && i < u.numProcs && Enabled(u, s, i, e) && !s.procs[i].pc.Idle?
  {
    var p := s.procs[i];
    var f := FileOf(p);
    var size := |u.remote[f]|;
    match e
    case Lock => Locked
    case Stat =>
      if s.cached[f].None? then Uncached
      else if |s.cached[f].value| == size then Cached
      else if size <= u.maxFile then Tight
      else Uncached
    case First => if size + s.counter > u.maxSize then Walking else Checking
    case Visit(g) => Visiting(g, |s.cached[g].value|)
    case LookOpen => if s.open[u.slot[p.pc.g]] == 0 then Waiting(p.pc.g, p.pc.seen, s.clock) else Walking
    case LockOther => Freeing(p.pc.g, p.pc.seen)
    case Cut => Subtracting(p.pc.seen)
    case Subtract => Subtracted
    case Enough => if s.counter + size <= u.maxSize then Checking else Walking
    case WalkEnds => Checking
    case Second => if size + s.counter < u.maxSize then Downloading else Uncached
    case Download(result) => if IsTakenForWhole(result, size) then Adding else Uncached
    case Add => Cached
    case Release => Remote
    case _ => Idle
  }

  // What it does to the semaphores
  function NextSem(u: Setup, s: State, i: nat, e: Step): seq<Option<nat>>
    requires Shape(u, s) && i < u.numProcs && Enabled(u, s, i, e)
  {
    var p := s.procs[i];
    match e
    case Lock => s.sem[u.semOf[FileOf(p)] := Some(i)]
    case LockOther => s.sem[u.semOf[p.pc.g] := Some(i)]
    case Cut => s.sem[u.semOf[p.pc.g] := None]
    case ReadCached(_) => s.sem[u.semOf[FileOf(p)] := None]
    case Release => s.sem[u.semOf[FileOf(p)] := None]
    case _ => s.sem
  }

  // ... to the files in the cache
  function NextCached(u: Setup, s: State, i: nat, e: Step): seq<Option<Data>>
    requires Shape(u, s) && i < u.numProcs && Enabled(u, s, i, e)
  {
    var p := s.procs[i];
    match e
    case Open(_, f) => if s.cached[f].None? then s.cached[f := Some([])] else s.cached
    case Cut => s.cached[p.pc.g := Some([])]
    case Download(result) =>
      var f := FileOf(p);
      s.cached[f := Some(Overwritten(s.cached[f], u.remote[f][..Copied(result)]))]
    case _ => s.cached
  }

  // ... and to the counters
  function NextCounter(u: Setup, s: State, i: nat, e: Step): int
    requires Shape(u, s) && i < u.numProcs && Enabled(u, s, i, e)
  {
    match e
    case Subtract => s.counter - s.procs[i].pc.seen
    case Add => s.counter + |u.remote[FileOf(s.procs[i])]|
    case _ => s.counter
  }

  function NextOpen(u: Setup, s: State, i: nat, e: Step): seq<int>
    requires Shape(u, s) && i < u.numProcs && Enabled(u, s, i, e)
  {
    match e
    case Open(_, f) => s.open[u.slot[f] := Counted(s.open[u.slot[f]] + 1)]
    case Close(fd) =>
      var slot := u.slot[s.procs[i].fds[fd].file];
      s.open[slot := Counted(s.open[slot] - 1)]
    case _ => s.open
  }

  function Next(u: Setup, s: State, i: nat, e: Step): State
    requires Shape(u, s) && i < u.numProcs && Enabled(u, s, i, e)
  {
    State(NextCached(u, s, i, e), NextCounter(u, s, i, e), NextOpen(u, s, i, e), NextSem(u, s, i, e),
          s.procs[i := NextProc(u, s, i, e)], s.clock + if e.Open? || e.LookOpen? then 1 else 0)
  }

  lemma NextShape(u: Setup, s: State, i: nat, e: Step)
    requires Shape(u, s) && i < u.numProcs && Enabled(u, s, i, e)
    ensures Shape(u, Next(u, s, i, e))
  {
    NextLengths(u, s, i, e);
    NextProcOk(u, s, i, e);
    hide NextProc, NextSem, NextCached, NextCounter, NextOpen, ProcOk, Enabled;
  }

  lemma NextLengths(u: Setup, s: State, i: nat, e: Step)
    requires Shape(u, s) && i < u.numProcs && Enabled(u, s, i, e)
    ensures |NextSem(u, s, i, e)| == |NextCached(u, s, i, e)| == |u.remote| && |NextOpen(u, s, i, e)| == SLOTS
  {
    assert ProcOk(u, s.procs[i]);
  }

  lemma NextProcOk(u: Setup, s: State, i: nat, e: Step)
    requires Shape(u, s) && i < u.numProcs && Enabled(u, s, i, e)
    ensures ProcOk(u, NextProc(u, s, i, e))
  {
    assert ProcOk(u, s.procs[i]);
  }

  // ---- Semaphores ----

  // Between getting the semaphore of its file and giving it back
  predicate IsInside(pc: Pc) {
    !pc.Idle? && !pc.Wanting? && !pc.Remote?
  }

  predicate Holds(u: Setup, p: Proc, x: nat)
    requires SetupOk(u) && ProcOk(u, p)
  {
    (IsInside(p.pc) && u.semOf[FileOf(p)] == x) || (p.pc.Freeing? && u.semOf[p.pc.g] == x)
  }

  // A process does not free a file with the semaphore of the one that it reads
  predicate NotOwn(u: Setup, p: Proc)
    requires SetupOk(u) && ProcOk(u, p)
  {
    p.pc.Freeing? ==> u.semOf[p.pc.g] != u.semOf[FileOf(p)]
  }

  ghost predicate SemInv(u: Setup, s: State)
    requires Shape(u, s)
  {
    && (forall x :: 0 <= x < |u.remote| && s.sem[x].Some? ==> s.sem[x].value < u.numProcs)
    && (forall x, i :: 0 <= x < |u.remote| && 0 <= i < u.numProcs ==>
         (s.sem[x] == Some(i) <==> Holds(u, s.procs[i], x)))
    && (forall i :: 0 <= i < u.numProcs ==> NotOwn(u, s.procs[i]))
  }

  // What a step does to a semaphore and to what the process holds
  lemma SemStep(u: Setup, s: State, i: nat, e: Step, x: nat)
    requires Shape(u, s) && i < u.numProcs && Enabled(u, s, i, e) && x < |u.remote|
    requires NotOwn(u, s.procs[i]) && forall x :: 0 <= x < |u.remote| ==>
      (s.sem[x] == Some(i) <==> Holds(u, s.procs[i], x))
    ensures Shape(u, Next(u, s, i, e)) && ProcOk(u, NextProc(u, s, i, e)) && NotOwn(u, NextProc(u, s, i, e))
    ensures NextSem(u, s, i, e)[x] == Some(i) <==> Holds(u, NextProc(u, s, i, e), x)
    ensures var sem, sem' := s.sem[x], NextSem(u, s, i, e)[x];
      sem' == sem || (sem == None && sem' == Some(i)) || (sem == Some(i) && sem' == None)
  {
    NextShape(u, s, i, e);
    NextProcOk(u, s, i, e);
    assert ProcOk(u, s.procs[i]) && (s.sem[x] == Some(i) <==> Holds(u, s.procs[i], x));
    assert IsInside(s.procs[i].pc) ==> s.sem[u.semOf[FileOf(s.procs[i])]] == Some(i);
    hide Took, IsRead;
  }

  lemma NextSemInv(u: Setup, s: State, i: nat, e: Step)
    requires Shape(u, s) && i < u.numProcs && Enabled(u, s, i, e) && SemInv(u, s)
    ensures Shape(u, Next(u, s, i, e)) && SemInv(u, Next(u, s, i, e))
  {
    NextShape(u, s, i, e);
    NextProcOk(u, s, i, e);
    SomeFile(u, s, i, e);
    forall x | 0 <= x < |u.remote|
      ensures NextSem(u, s, i, e)[x] == Some(i) <==> Holds(u, NextProc(u, s, i, e), x)
      ensures var sem, sem' := s.sem[x], NextSem(u, s, i, e)[x];
        sem' == sem || (sem == None && sem' == Some(i)) || (sem == Some(i) && sem' == None)
      ensures NotOwn(u, NextProc(u, s, i, e))
    {
      SemStep(u, s, i, e, x);
    }
    hide NextProc, NextSem, NextCached, NextCounter, NextOpen, ProcOk, Enabled, Holds, SetupOk, NotOwn;
  }

  lemma SomeFile(u: Setup, s: State, i: nat, e: Step)
    requires Shape(u, s) && i < u.numProcs && Enabled(u, s, i, e)
    ensures 0 < |u.remote|
  {
    assert ProcOk(u, s.procs[i]);
  }

  // ---- What is in the cache, and what is read ----

  predicate IsPart(u: Setup, f: nat, data: Option<Data>)
    requires f < |u.remote|
  {
    data.Some? ==> data.value <= u.remote[f]
  }

  // A process that takes the file from the cache has it there, as a whole if its size fits
  predicate HasWhole(u: Setup, cached: seq<Option<Data>>, p: Proc)
    requires |cached| == |u.remote| && ProcOk(u, p)
  {
    p.pc.Adding? || p.pc.Cached? ==>
      && cached[FileOf(p)].Some?
      && (SizeFits(|u.remote[FileOf(p)]|) ==> cached[FileOf(p)] == Some(u.remote[FileOf(p)]))
  }

  ghost predicate CacheInv(u: Setup, s: State)
    requires Shape(u, s)
  {
    && (forall f :: 0 <= f < |u.remote| ==> IsPart(u, f, s.cached[f]))
    && (forall i :: 0 <= i < u.numProcs ==> HasWhole(u, s.cached, s.procs[i]))
  }

  lemma OverwrittenIsPart(had: Option<Data>, whole: Data, copied: nat)
    requires (had.Some? ==> had.value <= whole) && copied <= |whole|
    ensures Overwritten(had, whole[..copied]) <= whole
    ensures copied == |whole| ==> Overwritten(had, whole[..copied]) == whole
    ensures |Overwritten(had, whole[..copied])| == if had.Some? && |had.value| > copied then |had.value| else copied
  {
    if had.Some? && |had.value| > copied {
      assert whole[..copied] + had.value[copied..] == had.value;
    }
  }

  lemma CachedStep(u: Setup, s: State, i: nat, e: Step, f: nat)
    requires Shape(u, s) && i < u.numProcs && Enabled(u, s, i, e) && f < |u.remote| && IsPart(u, f, s.cached[f])
    ensures |NextCached(u, s, i, e)| == |u.remote| && IsPart(u, f, NextCached(u, s, i, e)[f])
    ensures s.cached[f] == None || Holds(u, s.procs[i], u.semOf[f]) || NextCached(u, s, i, e)[f] == s.cached[f]
  {
    assert ProcOk(u, s.procs[i]);
    if e.Download? && f == FileOf(s.procs[i]) {
      OverwrittenIsPart(s.cached[f], u.remote[f], Copied(e.result));
    }
    hide Overwritten;
  }

  lemma WholeStep(u: Setup, s: State, i: nat, e: Step)
    requires Shape(u, s) && i < u.numProcs && Enabled(u, s, i, e) && CacheInv(u, s)
    ensures ProcOk(u, NextProc(u, s, i, e)) && |NextCached(u, s, i, e)| == |u.remote|
    ensures HasWhole(u, NextCached(u, s, i, e), NextProc(u, s, i, e))
  {
    var p := s.procs[i];
    NextProcOk(u, s, i, e);
    NextLengths(u, s, i, e);
    assert ProcOk(u, p) && HasWhole(u, s.cached, p);
    if e.Download? {
      OverwrittenIsPart(s.cached[FileOf(p)], u.remote[FileOf(p)], Copied(e.result));
      WholeIsWhole(|u.remote[FileOf(p)]|);
    }
    if e.Stat? && NextProc(u, s, i, e).pc.Cached? {
      assert IsPart(u, FileOf(p), s.cached[FileOf(p)]);
      assert s.cached[FileOf(p)].value == u.remote[FileOf(p)];
    }
    hide Overwritten, Took, IsRead, CacheInv, SetupOk, NextSem, NextOpen, NextCounter, SizeFits, IsTakenForWhole,
      IsResult;
  }

  lemma NextCacheInv(u: Setup, s: State, i: nat, e: Step)
    requires Shape(u, s) && i < u.numProcs && Enabled(u, s, i, e) && SemInv(u, s) && CacheInv(u, s)
    ensures Shape(u, Next(u, s, i, e)) && CacheInv(u, Next(u, s, i, e))
  {
    NextShape(u, s, i, e);
    WholeStep(u, s, i, e);
    hide NextProc, NextSem, NextCached, NextCounter, NextOpen, ProcOk, Enabled, SetupOk, NotOwn;
    forall f | 0 <= f < |u.remote|
      ensures IsPart(u, f, NextCached(u, s, i, e)[f])
      ensures s.cached[f] == None || Holds(u, s.procs[i], u.semOf[f]) || NextCached(u, s, i, e)[f] == s.cached[f]
    {
      CachedStep(u, s, i, e, f);
    }
    forall j | 0 <= j < u.numProcs && j != i
      ensures HasWhole(u, NextCached(u, s, i, e), s.procs[j])
    {
      if s.procs[j].pc.Adding? || s.procs[j].pc.Cached? {
        assert ProcOk(u, s.procs[j]) && HasWhole(u, s.cached, s.procs[j]);
        OneHolds(u, s, i, j, FileOf(s.procs[j]));
      }
    }
  }

  lemma OneHolds(u: Setup, s: State, i: nat, j: nat, f: nat)
    requires Shape(u, s) && i < u.numProcs && j < u.numProcs && f < |u.remote| && SemInv(u, s)
    requires ProcOk(u, s.procs[j]) && IsInside(s.procs[j].pc) && f == FileOf(s.procs[j])
    ensures ProcOk(u, s.procs[i]) && (Holds(u, s.procs[i], u.semOf[f]) ==> i == j)
  {
    var x := u.semOf[f];
    assert s.sem[x] == Some(j) <==> Holds(u, s.procs[j], x);
    assert s.sem[x] == Some(i) <==> Holds(u, s.procs[i], x);
  }

  // All that was read since the last seek, one reading after the other, is what the remote file
  // has there
  predicate FdOk(u: Setup, fd: Fd) {
    && fd.file < |u.remote| && fd.start + |fd.read| == fd.off
    && (fd.read != [] ==> fd.off <= |u.remote[fd.file]| && fd.read == u.remote[fd.file][fd.start..fd.off])
  }

  ghost predicate ReadInv(u: Setup, s: State) {
    forall i, fd :: 0 <= i < |s.procs| && fd in s.procs[i].fds ==> FdOk(u, s.procs[i].fds[fd])
  }

  lemma TookIsOk(u: Setup, fd: Fd, data: Data, count: nat, n: nat)
    requires FdOk(u, fd) && data <= u.remote[fd.file] && IsRead(data, fd, count, n)
    ensures FdOk(u, Took(fd, data, n))
  {
  }

  lemma ReadStep(u: Setup, s: State, i: nat, e: Step, fd: nat)
    requires Shape(u, s) && i < u.numProcs && Enabled(u, s, i, e) && CacheInv(u, s) && ReadInv(u, s)
    requires fd in NextProc(u, s, i, e).fds
    ensures FdOk(u, NextProc(u, s, i, e).fds[fd])
  {
    var p := s.procs[i];
    assert ProcOk(u, p);
    if e.ReadCached? {
      assert IsPart(u, FileOf(p), s.cached[FileOf(p)]);
      TookIsOk(u, p.fds[p.fd], s.cached[FileOf(p)].value, p.count, e.n);
    } else if e.ReadRemote? {
      TookIsOk(u, p.fds[p.fd], u.remote[FileOf(p)], p.count, e.n);
    }
    hide Took, IsRead, CacheInv, SetupOk, NextPc;
  }

  lemma NextReadInv(u: Setup, s: State, i: nat, e: Step)
    requires Shape(u, s) && i < u.numProcs && Enabled(u, s, i, e) && CacheInv(u, s) && ReadInv(u, s)
    ensures ReadInv(u, Next(u, s, i, e))
  {
    forall fd | fd in NextProc(u, s, i, e).fds
      ensures FdOk(u, NextProc(u, s, i, e).fds[fd])
    {
      ReadStep(u, s, i, e, fd);
    }
    hide NextProc, NextSem, NextCached, NextCounter, NextOpen, Enabled, SetupOk, CacheInv, FdOk;
  }

  // ---- The size of the cache ----

  function Total(xs: seq<int>): int {
    if xs == [] then 0 else Total(xs[..|xs| - 1]) + xs[|xs| - 1]
  }

  lemma {:induction false} TotalUpdate(xs: seq<int>, i: nat, x: int)
    requires i < |xs|
    ensures Total(xs[i := x]) == Total(xs) - xs[i] + x
  {
    var n := |xs| - 1;
    if i < n {
      TotalUpdate(xs[..n], i, x);
      assert xs[i := x][..n] == xs[..n][i := x];
    } else {
      assert xs[i := x][..n] == xs[..n];
    }
  }

  lemma {:induction false} TotalBound(xs: seq<int>, m: int)
    requires 0 <= m && forall i :: 0 <= i < |xs| ==> 0 <= xs[i] <= m
    ensures 0 <= Total(xs) <= |xs| * m
  {
    if xs != [] {
      TotalBound(xs[..|xs| - 1], m);
      assert |xs| * m == (|xs| - 1) * m + m;
    }
  }

  lemma TotalOfOthers(xs: seq<int>, i: nat, m: int)
    requires i < |xs| && xs[i] == 0 && 0 <= m && forall j :: 0 <= j < |xs| ==> 0 <= xs[j] <= m
    ensures Total(xs) <= (|xs| - 1) * m
  {
    hide Total;
    TotalUpdate(xs, i, m);
    TotalBound(xs[i := m], m);
    assert |xs| * m == (|xs| - 1) * m + m;
  }

  // What a process was given leave to add to the cache and has not counted yet
  function Claim(u: Setup, p: Proc): nat
    requires ProcOk(u, p)
  {
    if p.pc.Downloading? || p.pc.Adding? then |u.remote[FileOf(p)]| else 0
  }

  function Claims(u: Setup, procs: seq<Proc>): seq<int>
    requires forall i :: 0 <= i < |procs| ==> ProcOk(u, procs[i])
  {
    seq(|procs|, i requires 0 <= i < |procs| => Claim(u, procs[i]))
  }

  predicate IsSmall(u: Setup, p: Proc)
    requires ProcOk(u, p)
  {
    IsInside(p.pc) && !p.pc.Locked? && !p.pc.Cached? && !p.pc.Uncached? ==> |u.remote[FileOf(p)]| <= u.maxFile
  }

  function Bound(u: Setup): int {
    u.maxSize + (u.numProcs - 1) * u.maxFile
  }

  ghost predicate BudgetInv(u: Setup, s: State)
    requires Shape(u, s)
  {
    && (forall i :: 0 <= i < |s.procs| ==> IsSmall(u, s.procs[i]))
    && s.counter + Total(Claims(u, s.procs)) < Bound(u)
  }

  lemma SmallStep(u: Setup, s: State, i: nat, e: Step)
    requires Shape(u, s) && i < u.numProcs && Enabled(u, s, i, e) && IsSmall(u, s.procs[i])
    ensures ProcOk(u, NextProc(u, s, i, e)) && IsSmall(u, NextProc(u, s, i, e))
    ensures var c, c' := Claim(u, s.procs[i]), Claim(u, NextProc(u, s, i, e));
      NextCounter(u, s, i, e) + c' <= s.counter + c
        || (c == 0 && NextCounter(u, s, i, e) == s.counter && s.counter + c' < u.maxSize)
  {
    NextProcOk(u, s, i, e);
    assert ProcOk(u, s.procs[i]);
    hide Took, IsRead, SetupOk;
  }

  lemma OthersBound(u: Setup, s: State, i: nat)
    requires Shape(u, s) && i < u.numProcs && Claim(u, s.procs[i]) == 0
    requires forall j :: 0 <= j < |s.procs| ==> IsSmall(u, s.procs[j])
    ensures Total(Claims(u, s.procs)) <= (u.numProcs - 1) * u.maxFile
  {
    var claims := Claims(u, s.procs);
    assert forall j :: 0 <= j < |claims| ==> 0 <= claims[j] <= u.maxFile by {
      forall j | 0 <= j < |claims|
        ensures 0 <= claims[j] <= u.maxFile
      {
        assert IsSmall(u, s.procs[j]);
      }
    }
    TotalOfOthers(claims, i, u.maxFile);
  }

  lemma ClaimsStep(u: Setup, s: State, i: nat, e: Step)
    requires Shape(u, s) && i < u.numProcs && Enabled(u, s, i, e)
    ensures Shape(u, Next(u, s, i, e)) && ProcOk(u, s.procs[i]) && ProcOk(u, NextProc(u, s, i, e))
    ensures Total(Claims(u, Next(u, s, i, e).procs))
      == Total(Claims(u, s.procs)) - Claim(u, s.procs[i]) + Claim(u, NextProc(u, s, i, e))
  {
    NextShape(u, s, i, e);
    hide NextProc, NextSem, NextCached, NextCounter, NextOpen, Enabled, SetupOk, ProcOk, Claim;
    assert ProcOk(u, Next(u, s, i, e).procs[i]);
    var c' := Claim(u, NextProc(u, s, i, e));
    assert Claims(u, Next(u, s, i, e).procs) == Claims(u, s.procs)[i := c'];
    TotalUpdate(Claims(u, s.procs), i, c');
  }

  lemma NextSmall(u: Setup, s: State, i: nat, e: Step)
    requires Shape(u, s) && i < u.numProcs && Enabled(u, s, i, e)
    requires forall j :: 0 <= j < |s.procs| ==> IsSmall(u, s.procs[j])
    ensures Shape(u, Next(u, s, i, e))
    ensures forall j :: 0 <= j < |s.procs| ==> IsSmall(u, Next(u, s, i, e).procs[j])
  {
    NextShape(u, s, i, e);
    SmallStep(u, s, i, e);
    hide NextProc, NextSem, NextCached, NextCounter, NextOpen, Enabled, SetupOk, ProcOk, IsSmall;
  }

  lemma NextBudgetInv(u: Setup, s: State, i: nat, e: Step)
    requires Shape(u, s) && i < u.numProcs && Enabled(u, s, i, e) && BudgetInv(u, s)
    ensures Shape(u, Next(u, s, i, e)) && BudgetInv(u, Next(u, s, i, e))
  {
    hide NextProc, NextSem, NextCached, NextCounter, NextOpen, Enabled, SetupOk, ProcOk, Claim, IsSmall, Total, Claims;
    NextSmall(u, s, i, e);
    SmallStep(u, s, i, e);
    ClaimsStep(u, s, i, e);
    if Claim(u, s.procs[i]) == 0 {
      OthersBound(u, s, i);
    }
  }

  // ---- Runs ----

  ghost predicate Inv(u: Setup, s: State) {
    Shape(u, s) && SemInv(u, s) && CacheInv(u, s) && ReadInv(u, s) && BudgetInv(u, s)
  }

  lemma {:induction false} NextInv(u: Setup, s: State, i: nat, e: Step)
    requires Inv(u, s) && i < u.numProcs && Enabled(u, s, i, e)
    ensures Inv(u, Next(u, s, i, e))
  {
    hide Next, SemInv, CacheInv, ReadInv, BudgetInv, Shape;
    NextSemInv(u, s, i, e);
    NextCacheInv(u, s, i, e);
    NextReadInv(u, s, i, e);
    NextBudgetInv(u, s, i, e);
  }

  datatype Act = Act(proc: nat, step: Step)

  ghost predicate IsRun(u: Setup, s: State, acts: seq<Act>, t: State)
    decreases |acts|
  {
    if acts == [] then s == t
    else
      && Shape(u, s) && acts[0].proc < u.numProcs && Enabled(u, s, acts[0].proc, acts[0].step)
      && IsRun(u, Next(u, s, acts[0].proc, acts[0].step), acts[1..], t)
  }

  lemma {:induction false} RunInv(u: Setup, s: State, acts: seq<Act>, t: State)
    requires Inv(u, s) && IsRun(u, s, acts, t)
    ensures Inv(u, t)
    decreases |acts|
  {
    hide Next, Inv, Shape, Enabled;
    if acts != [] {
      NextInv(u, s, acts[0].proc, acts[0].step);
      RunInv(u, Next(u, s, acts[0].proc, acts[0].step), acts[1..], t);
    }
  }

  // Nobody has a file open; in the cache are parts of files from earlier runs
  ghost predicate IsStart(u: Setup, s: State) {
    && Shape(u, s) && s.counter < Bound(u)
    && (forall f :: 0 <= f < |u.remote| ==> s.sem[f] == None && IsPart(u, f, s.cached[f]))
    && (forall c :: 0 <= c < SLOTS ==> s.open[c] == 0)
    && (forall i :: 0 <= i < u.numProcs ==> s.procs[i].pc.Idle? && s.procs[i].fds == map[])
  }

  lemma {:induction false} TotalOfZeros(xs: seq<int>)
    requires forall i :: 0 <= i < |xs| ==> xs[i] == 0
    ensures Total(xs) == 0
  {
    if xs != [] {
      TotalOfZeros(xs[..|xs| - 1]);
    }
  }

  lemma StartInv(u: Setup, s: State)
    requires IsStart(u, s)
    ensures Inv(u, s)
  {
    TotalOfZeros(Claims(u, s.procs));
  }

  // In every run of any number of processes: what is in the cache of a file is the beginning of
  // the remote file, what is read is what the remote file has, and the size of the cache keeps to
  // its bound.
  lemma RunsAreSafe(u: Setup, s: State, acts: seq<Act>, t: State)
    requires IsStart(u, s) && IsRun(u, s, acts, t)
    ensures Shape(u, t)
    ensures forall f :: 0 <= f < |u.remote| && t.cached[f].Some? ==> t.cached[f].value <= u.remote[f]
    ensures forall i, fd :: 0 <= i < u.numProcs && fd in t.procs[i].fds ==> FdOk(u, t.procs[i].fds[fd])
    ensures t.counter + Total(Claims(u, t.procs)) < u.maxSize + (u.numProcs - 1) * u.maxFile
    ensures u.numProcs == 1 ==> t.counter < u.maxSize
  {
    hide Inv, IsRun, IsStart;
    StartInv(u, s);
    RunInv(u, s, acts, t);
    CacheOfInv(u, t);
    SizeOfInv(u, t);
  }

  lemma CacheOfInv(u: Setup, t: State)
    requires Inv(u, t)
    ensures Shape(u, t)
    ensures forall f :: 0 <= f < |u.remote| && t.cached[f].Some? ==> t.cached[f].value <= u.remote[f]
    ensures forall i, fd :: 0 <= i < u.numProcs && fd in t.procs[i].fds ==> FdOk(u, t.procs[i].fds[fd])
  {
    hide SemInv, BudgetInv, FdOk, ProcOk, HasWhole;
    forall f | 0 <= f < |u.remote| && t.cached[f].Some?
      ensures t.cached[f].value <= u.remote[f]
    {
      assert IsPart(u, f, t.cached[f]);
    }
  }

  lemma SizeOfInv(u: Setup, t: State)
    requires Inv(u, t)
    ensures Shape(u, t) && t.counter + Total(Claims(u, t.procs)) < u.maxSize + (u.numProcs - 1) * u.maxFile
    ensures u.numProcs == 1 ==> t.counter < u.maxSize
  {
    hide SemInv, CacheInv, ReadInv, ProcOk, IsSmall, Claim;
    ClaimsArePositive(u, t.procs);
  }

  lemma {:induction false} ClaimsArePositive(u: Setup, procs: seq<Proc>)
    requires forall i :: 0 <= i < |procs| ==> ProcOk(u, procs[i])
    ensures 0 <= Total(Claims(u, procs))
  {
    if procs != [] {
      ClaimsArePositive(u, procs[..|procs| - 1]);
      assert Claims(u, procs)[..|procs| - 1] == Claims(u, procs[..|procs| - 1]);
    }
  }
}
