/** Why the processes that share the cache on disk do not wait for each other for ever, although
    each of them may wait for a second semaphore while it has one
    (read_data, reduce_cache and files_open_set of src/afc-engine-preload/aep.cpp); and when one
    of them waits for itself. */
module DiskProgress {
  import opened Wrappers
  import opened DiskCache

  // ---- The counters of open files ----

  function OpenOn(u: Setup, p: Proc, slot: nat): set<nat>
    requires SetupOk(u) && ProcOk(u, p)
  {
    set fd | fd in p.fds && u.slot[p.fds[fd].file] == slot
  }

  function NumOpen(u: Setup, procs: seq<Proc>, slot: nat): seq<int>
    requires SetupOk(u) && forall i :: 0 <= i < |procs| ==> ProcOk(u, procs[i])
  {
    seq(|procs|, i requires 0 <= i < |procs| => |OpenOn(u, procs[i], slot)|)
  }

  ghost predicate OpenInv(u: Setup, s: State)
    requires Shape(u, s)
  {
    forall c :: 0 <= c < SLOTS ==> s.open[c] == Total(NumOpen(u, s.procs, c))
  }

  // No more files of one hash are open than an 8-bit counter can count
  ghost predicate FewOpen(u: Setup, s: State)
    requires Shape(u, s)
  {
    forall c :: 0 <= c < SLOTS ==> Total(NumOpen(u, s.procs, c)) <= 127
  }

  // What a step does to the open files of the process
  lemma FdsStep(u: Setup, s: State, i: nat, e: Step)
    requires Shape(u, s) && i < u.numProcs && Enabled(u, s, i, e)
    ensures var fds, fds' := s.procs[i].fds, NextProc(u, s, i, e).fds;
      && fds'.Keys == (if e.Open? then fds.Keys + {e.fd} else if e.Close? then fds.Keys - {e.fd} else fds.Keys)
      && (forall fd :: fd in fds' && fd in fds ==>
           fds'[fd].file == fds[fd].file && fds'[fd].openedAt == fds[fd].openedAt)
      && (e.Open? ==> e.fd !in fds && e.f < |u.remote| && fds'[e.fd].file == e.f && fds'[e.fd].openedAt == s.clock)
      && (e.Close? ==> e.fd in fds)
  {
    assert ProcOk(u, s.procs[i]);
    hide IsRead, SetupOk, Slice;
  }

  lemma OneMoreOpen(u: Setup, p: Proc, q: Proc, fd: nat, c: nat)
    requires SetupOk(u) && ProcOk(u, p) && ProcOk(u, q) && fd !in p.fds && q.fds.Keys == p.fds.Keys + {fd}
    requires forall x :: x in p.fds && x in q.fds ==> q.fds[x].file == p.fds[x].file
    ensures |OpenOn(u, q, c)| == |OpenOn(u, p, c)| + if u.slot[q.fds[fd].file] == c then 1 else 0
  {
    assert forall x :: x in q.fds <==> x in p.fds || x == fd;
    if u.slot[q.fds[fd].file] == c {
      assert OpenOn(u, q, c) == OpenOn(u, p, c) + {fd};
    } else {
      assert OpenOn(u, q, c) == OpenOn(u, p, c);
    }
  }

  lemma AsManyOpen(u: Setup, p: Proc, q: Proc, c: nat)
    requires SetupOk(u) && ProcOk(u, p) && ProcOk(u, q) && q.fds.Keys == p.fds.Keys
    requires forall x :: x in p.fds && x in q.fds ==> q.fds[x].file == p.fds[x].file
    ensures OpenOn(u, q, c) == OpenOn(u, p, c)
  {
    assert forall x :: x in q.fds <==> x in p.fds;
  }

  lemma OpenOnStep(u: Setup, s: State, i: nat, e: Step, c: nat)
    requires Shape(u, s) && i < u.numProcs && Enabled(u, s, i, e)
    ensures ProcOk(u, NextProc(u, s, i, e))
    ensures |OpenOn(u, NextProc(u, s, i, e), c)| == |OpenOn(u, s.procs[i], c)| +
      if e.Open? && u.slot[e.f] == c then 1
      else if e.Close? && u.slot[s.procs[i].fds[e.fd].file] == c then -1
      else 0
  {
    var p, q := s.procs[i], NextProc(u, s, i, e);
    NextProcOk(u, s, i, e);
    FdsStep(u, s, i, e);
    hide NextProc, Enabled, OpenOn;
    if e.Open? {
      OneMoreOpen(u, p, q, e.fd, c);
    } else if e.Close? {
      OneMoreOpen(u, q, p, e.fd, c);
    } else {
      AsManyOpen(u, p, q, c);
    }
  }

  lemma {:induction false} SizesArePositive(xs: seq<int>, i: nat)
    requires i < |xs| && forall j :: 0 <= j < |xs| ==> 0 <= xs[j]
    ensures xs[i] <= Total(xs)
  {
    var n := |xs| - 1;
    if i < n {
      SizesArePositive(xs[..n], i);
    } else if n > 0 {
      SizesArePositive(xs[..n], 0);
    }
  }

  lemma CountedIs(n: int)
    ensures 0 <= n <= 127 ==> Counted(n) == n
    ensures Counted(128) == 0
  {
  }

  lemma NextOpenInv(u: Setup, s: State, i: nat, e: Step)
    requires Shape(u, s) && i < u.numProcs && Enabled(u, s, i, e) && OpenInv(u, s)
    requires Shape(u, Next(u, s, i, e)) && FewOpen(u, Next(u, s, i, e))
    ensures OpenInv(u, Next(u, s, i, e))
  {
    var s' := Next(u, s, i, e);
    forall c | 0 <= c < SLOTS
      ensures s'.open[c] == Total(NumOpen(u, s'.procs, c))
    {
      OpenStep(u, s, i, e, c);
    }
  }

  lemma OpenStep(u: Setup, s: State, i: nat, e: Step, c: nat)
    requires Shape(u, s) && i < u.numProcs && Enabled(u, s, i, e) && c < SLOTS
    requires s.open[c] == Total(NumOpen(u, s.procs, c))
    requires Shape(u, Next(u, s, i, e)) && Total(NumOpen(u, Next(u, s, i, e).procs, c)) <= 127
    ensures Next(u, s, i, e).open[c] == Total(NumOpen(u, Next(u, s, i, e).procs, c))
  {
    OpenOnStep(u, s, i, e, c);
    var n, n' := NumOpen(u, s.procs, c), NumOpen(u, Next(u, s, i, e).procs, c);
    assert n' == n[i := |OpenOn(u, NextProc(u, s, i, e), c)|];
    TotalUpdate(n, i, |OpenOn(u, NextProc(u, s, i, e), c)|);
    SizesArePositive(n', i);
    CountedIs(Total(n'));
    assert ProcOk(u, s.procs[i]);
    hide NextProc, NextSem, NextCached, NextCounter, Total, Counted, OpenOn, IsRead;
  }

  // ---- The order of openings and of looks at the counters ----

  // A process that waits to free a file looked at its counter after it had opened its own file
  predicate LookedAfter(s: State, p: Proc) {
    p.pc.Waiting? && p.fd in p.fds ==> p.fds[p.fd].openedAt < p.pc.checked < s.clock
  }

  // Whoever has that file open, or one with the same counter, opened it after that
  predicate OpenedLater(u: Setup, p: Proc, fd: Fd) {
    p.pc.Waiting? && fd.file < |u.slot| && p.pc.g < |u.slot| && u.slot[fd.file] == u.slot[p.pc.g] ==>
      p.pc.checked < fd.openedAt
  }

  ghost predicate TimeInv(u: Setup, s: State) {
    && (forall i, fd :: 0 <= i < |s.procs| && fd in s.procs[i].fds ==> s.procs[i].fds[fd].openedAt < s.clock)
    && (forall i :: 0 <= i < |s.procs| ==> LookedAfter(s, s.procs[i]))
    && (forall i, j, fd :: 0 <= i < |s.procs| && 0 <= j < |s.procs| && fd in s.procs[j].fds ==>
          OpenedLater(u, s.procs[i], s.procs[j].fds[fd]))
  }

  lemma NoneOpen(u: Setup, s: State, g: nat)
    requires Shape(u, s) && OpenInv(u, s) && g < |u.remote| && s.open[u.slot[g]] == 0
    ensures forall j, fd :: 0 <= j < |s.procs| && fd in s.procs[j].fds ==>
      s.procs[j].fds[fd].file < |u.slot| && u.slot[s.procs[j].fds[fd].file] != u.slot[g]
  {
    forall j, fd | 0 <= j < |s.procs| && fd in s.procs[j].fds
      ensures s.procs[j].fds[fd].file < |u.slot| && u.slot[s.procs[j].fds[fd].file] != u.slot[g]
    {
      SizesArePositive(NumOpen(u, s.procs, u.slot[g]), j);
      var open := OpenOn(u, s.procs[j], u.slot[g]);
      assert open == {};
      assert u.slot[s.procs[j].fds[fd].file] == u.slot[g] <==> fd in open;
    }
  }

  lemma WaitStep(u: Setup, s: State, i: nat, e: Step)
    requires Shape(u, s) && i < u.numProcs && Enabled(u, s, i, e)
    ensures var p, p' := s.procs[i], NextProc(u, s, i, e);
      p'.pc.Waiting? ==>
        && p'.fd == p.fd && p.fd in p.fds && p'.fds == p.fds && e.LookOpen? && p.pc.Visiting?
        && p'.pc.g == p.pc.g < |u.remote| && p'.pc.checked == s.clock && s.open[u.slot[p.pc.g]] == 0
  {
    assert ProcOk(u, s.procs[i]);
    hide IsRead, SetupOk, Slice;
  }

  lemma NextOpenedLater(u: Setup, s: State, k: nat, e: Step, i: nat, j: nat, fd: nat)
    requires Shape(u, s) && k < u.numProcs && Enabled(u, s, k, e) && OpenInv(u, s) && TimeInv(u, s)
    requires i < u.numProcs && j < u.numProcs && fd in Next(u, s, k, e).procs[j].fds
    ensures OpenedLater(u, Next(u, s, k, e).procs[i], Next(u, s, k, e).procs[j].fds[fd])
  {
    FdsStep(u, s, k, e);
    WaitStep(u, s, k, e);
    var p, p' := s.procs[i], Next(u, s, k, e).procs[i];
    var fds, fds' := s.procs[j].fds, Next(u, s, k, e).procs[j].fds;
    if p'.pc.Waiting? {
      if i == k {
        NoneOpen(u, s, p'.pc.g);
      } else if fd in fds {
        assert OpenedLater(u, p, fds[fd]);
      } else {
        assert LookedAfter(s, p);
      }
    }
    assert ProcOk(u, p);
    hide NextProc, NextSem, NextCached, NextCounter, NextOpen, Enabled, SetupOk, ProcOk, OpenInv;
  }

  lemma {:induction false} NextTimeInv(u: Setup, s: State, i: nat, e: Step)
    requires Shape(u, s) && i < u.numProcs && Enabled(u, s, i, e) && OpenInv(u, s) && TimeInv(u, s)
    ensures TimeInv(u, Next(u, s, i, e))
  {
    var s' := Next(u, s, i, e);
    FdsStep(u, s, i, e);
    WaitStep(u, s, i, e);
    forall k, j, fd | 0 <= k < |s'.procs| && 0 <= j < |s'.procs| && fd in s'.procs[j].fds
      ensures OpenedLater(u, s'.procs[k], s'.procs[j].fds[fd])
    {
      NextOpenedLater(u, s, i, e, k, j, fd);
    }
    hide NextProc, NextSem, NextCached, NextCounter, NextOpen, Enabled, SetupOk, ProcOk, OpenInv, OpenedLater;
  }

  // ---- Who cuts other files ----

  // A file that is small enough, but for which there may be too little room. As long as there is
  // one process only, there is always room for a byte.
  predicate MayNeedRoom(u: Setup, f: nat)
    requires f < |u.remote|
  {
    |u.remote[f]| <= u.maxFile && (1 < u.numProcs || 1 < |u.remote[f]|)
  }

  // Files with one semaphore have one counter, or are too large to make room for
  predicate SemaphoresFit(u: Setup)
    requires SetupOk(u)
  {
    forall f, g :: 0 <= f < |u.remote| && 0 <= g < |u.remote| && u.semOf[f] == u.semOf[g] && MayNeedRoom(u, f) ==>
      u.slot[f] == u.slot[g]
  }

  predicate IsReducing(pc: Pc) {
    pc.Walking? || pc.Visiting? || pc.Waiting? || pc.Freeing? || pc.Subtracting? || pc.Subtracted?
  }

  predicate ReducesForOwn(u: Setup, p: Proc)
    requires ProcOk(u, p)
  {
    IsReducing(p.pc) ==> MayNeedRoom(u, FileOf(p))
  }

  ghost predicate ReduceInv(u: Setup, s: State)
    requires Shape(u, s)
  {
    forall i :: 0 <= i < u.numProcs ==> ReducesForOwn(u, s.procs[i])
  }

  lemma ReduceStep(u: Setup, s: State, i: nat, e: Step)
    requires Shape(u, s) && i < u.numProcs && Enabled(u, s, i, e)
    requires ReducesForOwn(u, s.procs[i]) && IsSmall(u, s.procs[i]) && (u.numProcs == 1 ==> s.counter < u.maxSize)
    ensures ProcOk(u, NextProc(u, s, i, e)) && ReducesForOwn(u, NextProc(u, s, i, e))
  {
    NextProcOk(u, s, i, e);
    assert ProcOk(u, s.procs[i]);
    hide Took, IsRead, Slice;
  }

  lemma NextReduceInv(u: Setup, s: State, i: nat, e: Step)
    requires Inv(u, s) && i < u.numProcs && Enabled(u, s, i, e) && ReduceInv(u, s)
    ensures Shape(u, Next(u, s, i, e)) && ReduceInv(u, Next(u, s, i, e))
  {
    NextShape(u, s, i, e);
    SizeOfInv(u, s);
    assert IsSmall(u, s.procs[i]) && ReducesForOwn(u, s.procs[i]);
    hide NextProc, NextSem, NextCached, NextCounter, NextOpen, Enabled, SetupOk, ProcOk, IsSmall, ReducesForOwn;
    ReduceStep(u, s, i, e);
  }

  // ---- Nobody waits for ever ----

  ghost predicate AllInv(u: Setup, s: State) {
    Inv(u, s) && OpenInv(u, s) && TimeInv(u, s) && ReduceInv(u, s)
  }

  // All states on the way have few open files
  ghost predicate FewOnRun(u: Setup, s: State, acts: seq<Act>)
    decreases |acts|
  {
    && Shape(u, s) && FewOpen(u, s)
    && (acts != [] ==>
          && acts[0].proc < u.numProcs && Enabled(u, s, acts[0].proc, acts[0].step)
          && FewOnRun(u, Next(u, s, acts[0].proc, acts[0].step), acts[1..]))
  }

  lemma {:induction false} RunAllInv(u: Setup, s: State, acts: seq<Act>, t: State)
    requires AllInv(u, s) && IsRun(u, s, acts, t) && FewOnRun(u, s, acts)
    ensures AllInv(u, t)
    decreases |acts|
  {
    hide Next, Inv, Shape, Enabled, OpenInv, TimeInv, ReduceInv, FewOpen;
    if acts != [] {
      var i, e := acts[0].proc, acts[0].step;
      assert FewOnRun(u, Next(u, s, i, e), acts[1..]);
      NextInv(u, s, i, e);
      NextOpenInv(u, s, i, e);
      NextTimeInv(u, s, i, e);
      NextReduceInv(u, s, i, e);
      RunAllInv(u, Next(u, s, i, e), acts[1..], t);
    }
  }

  lemma StartAllInv(u: Setup, s: State)
    requires IsStart(u, s)
    ensures AllInv(u, s)
  {
    StartInv(u, s);
    forall c | 0 <= c < SLOTS
      ensures s.open[c] == Total(NumOpen(u, s.procs, c))
    {
      TotalOfZeros(NumOpen(u, s.procs, c));
    }
    hide Inv, Shape, SetupOk;
  }

  // The step of a process that does not wait
  function Ready(p: Proc): Step {
    match p.pc
    case Wanting => Lock
    case Locked => Stat
    case Tight => First
    case Walking => WalkEnds
    case Visiting(_, _) => LookOpen
    case Waiting(_, _, _) => LockOther
    case Freeing(_, _) => Cut
    case Subtracting(_) => Subtract
    case Subtracted => Enough
    case Checking => Second
    case Downloading => Download(0)
    case Adding => Add
    case Cached => ReadCached(0)
    case Uncached => Release
    case _ => ReadRemote(0)
  }

  // The semaphore that the process waits for
  function Awaited(u: Setup, p: Proc): nat
    requires SetupOk(u) && ProcOk(u, p) && (p.pc.Wanting? || p.pc.Waiting?)
  {
    if p.pc.Wanting? then u.semOf[FileOf(p)] else u.semOf[p.pc.g]
  }

  predicate IsBlocked(u: Setup, s: State, p: Proc)
    requires Shape(u, s) && ProcOk(u, p)
  {
    (p.pc.Wanting? || p.pc.Waiting?) && s.sem[Awaited(u, p)].Some?
  }

  lemma ReadyIsEnabled(u: Setup, s: State, i: nat)
    requires Inv(u, s) && i < u.numProcs && !s.procs[i].pc.Idle? && !IsBlocked(u, s, s.procs[i])
    ensures Enabled(u, s, i, Ready(s.procs[i]))
  {
    assert ProcOk(u, s.procs[i]) && HasWhole(u, s.cached, s.procs[i]);
    hide SemInv, CacheInv, ReadInv, BudgetInv, SetupOk;
  }

  // Along a chain of waiting processes it decreases
  function Patience(s: State, p: Proc): int {
    match p.pc
    case Wanting => s.clock + 1
    case Waiting(_, _, checked) => s.clock - checked
    case _ => 0
  }

  // The process that has what another one waits for is more patient, or does not wait
  lemma {:induction false} OwnerIsAhead(u: Setup, s: State, i: nat) returns (k: nat)
    requires AllInv(u, s) && i < u.numProcs && IsBlocked(u, s, s.procs[i]) && SemaphoresFit(u)
    ensures k < u.numProcs && !s.procs[k].pc.Idle? && 0 <= Patience(s, s.procs[k]) < Patience(s, s.procs[i])
  {
    assert ProcOk(u, s.procs[i]);
    var f := Awaited(u, s.procs[i]);
    k := s.sem[f].value;
    assert s.sem[f] == Some(k) <==> Holds(u, s.procs[k], f);
    assert ProcOk(u, s.procs[k]);
    assert LookedAfter(s, s.procs[k]) && LookedAfter(s, s.procs[i]);
    if s.procs[k].pc.Waiting? {
      assert ReducesForOwn(u, s.procs[k]);
      assert OpenedLater(u, s.procs[i], s.procs[k].fds[s.procs[k].fd]);
    }
    hide CacheInv, ReadInv, BudgetInv, SetupOk, OpenInv, SemInv;
  }

  // Whenever a process is in the middle of reading, some process in the middle of reading can go on
  lemma {:induction false} SomeoneGoesOn(u: Setup, s: State, i: nat) returns (k: nat)
    requires AllInv(u, s) && i < u.numProcs && !s.procs[i].pc.Idle? && SemaphoresFit(u)
    ensures k < u.numProcs && !s.procs[k].pc.Idle? && Shape(u, s) && Enabled(u, s, k, Ready(s.procs[k]))
    decreases if IsBlocked(u, s, s.procs[i]) then Patience(s, s.procs[i]) else 0
  {
    assert Shape(u, s) && ProcOk(u, s.procs[i]);
    hide Inv, TimeInv, OpenInv, ReduceInv, Patience, Ready, Enabled;
    if IsBlocked(u, s, s.procs[i]) {
      var j := OwnerIsAhead(u, s, i);
      k := SomeoneGoesOn(u, s, j);
    } else {
      ReadyIsEnabled(u, s, i);
      k := i;
    }
  }

  lemma NoDeadlock(u: Setup, s: State, acts: seq<Act>, t: State, i: nat) returns (k: nat)
    requires IsStart(u, s) && IsRun(u, s, acts, t) && FewOnRun(u, s, acts) && SemaphoresFit(u)
    requires i < |t.procs| && !t.procs[i].pc.Idle?
    ensures Shape(u, t) && k < u.numProcs && !t.procs[k].pc.Idle? && Enabled(u, t, k, Ready(t.procs[k]))
  {
    StartAllInv(u, s);
    RunAllInv(u, s, acts, t);
    hide IsStart, IsRun, FewOnRun, Ready, Enabled;
    k := SomeoneGoesOn(u, t, i);
  }

  // Some process is in the middle of reading, but none of these can go on
  ghost predicate IsStuck(u: Setup, t: State)
    requires Shape(u, t)
  {
    && (exists i :: 0 <= i < u.numProcs && !t.procs[i].pc.Idle?)
    && forall i, e :: 0 <= i < u.numProcs && !t.procs[i].pc.Idle? ==> !Enabled(u, t, i, e)
  }

  // ---- Too many open files ----

  lemma {:induction false} RunAppended(u: Setup, s: State, acts: seq<Act>, t: State, i: nat, e: Step)
    requires IsRun(u, s, acts, t) && Shape(u, t) && i < u.numProcs && Enabled(u, t, i, e)
    ensures IsRun(u, s, acts + [Act(i, e)], Next(u, t, i, e))
    decreases |acts|
  {
    hide Shape, Enabled, Next;
    var more := acts + [Act(i, e)];
    if acts == [] {
      assert more[1..] == [];
    } else {
      assert more[1..] == acts[1..] + [Act(i, e)];
      RunAppended(u, Next(u, s, acts[0].proc, acts[0].step), acts[1..], t, i, e);
    }
  }

  // One process, one file of two bytes, of which one is in a cache for two bytes. The process
  // has opened the file 'n' times.
  const ONE: Setup := Setup([[7, 8]], [0], [0], 2, 2, 1)

  function Fds(n: nat): map<nat, Fd> {
    map fd: nat | fd < n :: Fd(0, 0, fd, 0, [])
  }

  function AfterOpening(n: nat): State {
    State([Some([7])], 1, seq(SLOTS, c => if c == 0 then Counted(n) else 0), [None], [Proc(Idle, 0, 0, Fds(n))], n)
  }

  lemma OneIsShape(n: nat, sem: Option<nat>, p: Proc, clock: nat)
    requires p.fds == Fds(n) && (p.pc.Idle? || (0 < n && p.fd == 0)) && IsFileOf(ONE, p.pc)
    ensures Shape(ONE, AfterOpening(n).(sem := [sem], procs := [p], clock := clock))
  {
  }

  lemma OpenOneMore(n: nat)
    requires n < 128
    ensures Shape(ONE, AfterOpening(n)) && Enabled(ONE, AfterOpening(n), 0, Open(n, 0))
    ensures Next(ONE, AfterOpening(n), 0, Open(n, 0)) == AfterOpening(n + 1)
  {
    var s, e := AfterOpening(n), Open(n, 0);
    OneIsShape(n, None, s.procs[0], n);
    assert s.procs[0].fds == Fds(n) && n !in Fds(n);
    assert s.(sem := [None], procs := [s.procs[0]], clock := n) == s;
    assert Fds(n + 1) == Fds(n)[n := Fd(0, 0, n, 0, [])];
    hide Fds;
    CountedIs(n);
    hide Counted;
    assert NextOpen(ONE, s, 0, e) == AfterOpening(n + 1).open;
  }

  lemma {:induction false} OpenMany(n: nat) returns (acts: seq<Act>)
    requires n <= 128
    ensures IsRun(ONE, AfterOpening(0), acts, AfterOpening(n))
  {
    acts := [];
    if n > 0 {
      hide Shape, Enabled, Next, AfterOpening, IsRun;
      acts := OpenMany(n - 1);
      OpenOneMore(n - 1);
      assert ONE.numProcs == 1;
      RunAppended(ONE, AfterOpening(0), acts, AfterOpening(n - 1), 0, Open(n - 1, 0));
      acts := acts + [Act(0, Open(n - 1, 0))];
    }
  }

  function Stage(sem: Option<nat>, pc: Pc, clock: nat): State {
    State([Some([7])], 1, seq(SLOTS, _ => 0), [sem], [Proc(pc, 0, 1, Fds(128))], clock)
  }

  lemma StageIsShape(sem: Option<nat>, pc: Pc, clock: nat)
    requires IsFileOf(ONE, pc)
    ensures Shape(ONE, Stage(sem, pc, clock))
  {
    hide IsFileOf;
  }

  lemma StageNext(sem: Option<nat>, pc: Pc, clock: nat, e: Step, pc': Pc)
    requires IsFileOf(ONE, pc)
    requires match (pc, e, pc')
      case (Wanting, Lock, Locked) => sem == None
      case (Locked, Stat, Tight) => true
      case (Tight, First, Walking) => true
      case (Walking, Visit(0), Visiting(0, 1)) => true
      case (Visiting(0, 1), LookOpen, Waiting(0, 1, c)) => c == clock
      case _ => false
    ensures Shape(ONE, Stage(sem, pc, clock)) && Enabled(ONE, Stage(sem, pc, clock), 0, e)
    ensures Next(ONE, Stage(sem, pc, clock), 0, e)
      == Stage(if e.Lock? then Some(0) else sem, pc', if e.LookOpen? then clock + 1 else clock)
  {
    var s := Stage(sem, pc, clock);
    StageIsShape(sem, pc, clock);
    assert 0 in Fds(128) && FileOf(s.procs[0]) == 0;
    hide Fds, Counted, Took, IsRead;
  }

  lemma ReadAfterOpening()
    ensures Shape(ONE, AfterOpening(128)) && Enabled(ONE, AfterOpening(128), 0, Read(0, 1))
    ensures Next(ONE, AfterOpening(128), 0, Read(0, 1)) == Stage(None, Wanting, 128)
  {
    var s := AfterOpening(128);
    OneIsShape(128, None, s.procs[0], 128);
    assert s.(sem := [None], procs := [s.procs[0]], clock := 128) == s;
    assert 0 in Fds(128) && s.procs[0].fds == Fds(128);
    CountedIs(0);
    hide Fds, Counted;
    assert s.open == Stage(None, Wanting, 128).open;
  }

  lemma AppendStage(acts: seq<Act>, sem: Option<nat>, pc: Pc, clock: nat, e: Step, pc': Pc) returns (more: seq<Act>)
    requires IsFileOf(ONE, pc)
    requires match (pc, e, pc')
      case (Wanting, Lock, Locked) => sem == None
      case (Locked, Stat, Tight) => true
      case (Tight, First, Walking) => true
      case (Walking, Visit(0), Visiting(0, 1)) => true
      case (Visiting(0, 1), LookOpen, Waiting(0, 1, c)) => c == clock
      case _ => false
    requires IsRun(ONE, AfterOpening(0), acts, Stage(sem, pc, clock))
    ensures IsRun(ONE, AfterOpening(0), more,
                  Stage(if e.Lock? then Some(0) else sem, pc', if e.LookOpen? then clock + 1 else clock))
  {
    StageNext(sem, pc, clock, e, pc');
    assert ONE.numProcs == 1;
    hide Shape, Enabled, Next, AfterOpening, IsRun, Stage;
    RunAppended(ONE, AfterOpening(0), acts, Stage(sem, pc, clock), 0, e);
    more := acts + [Act(0, e)];
  }

  lemma ReadWith128Open() returns (acts: seq<Act>)
    ensures IsRun(ONE, AfterOpening(0), acts, Stage(None, Wanting, 128))
  {
    acts := OpenMany(128);
    ReadAfterOpening();
    assert ONE.numProcs == 1;
    hide IsRun, Shape, Enabled, Next, AfterOpening, Stage;
    RunAppended(ONE, AfterOpening(0), acts, AfterOpening(128), 0, Read(0, 1));
    acts := acts + [Act(0, Read(0, 1))];
  }

  // With the 128th opening the counter is 0 again: the process finds the file that it reads
  // itself not open, and waits for the semaphore that it has.
  lemma WaitsForItself() returns (acts: seq<Act>, t: State)
    ensures IsStart(ONE, AfterOpening(0)) && IsRun(ONE, AfterOpening(0), acts, t)
    ensures Shape(ONE, t) && IsStuck(ONE, t)
  {
    hide IsRun, Shape, Enabled, Next, AfterOpening, Stage, IsStart, IsStuck;
    acts := ReadWith128Open();
    acts := AppendStage(acts, None, Wanting, 128, Lock, Locked);
    acts := AppendStage(acts, Some(0), Locked, 128, Stat, Tight);
    acts := AppendStage(acts, Some(0), Tight, 128, First, Walking);
    acts := AppendStage(acts, Some(0), Walking, 128, Visit(0), Visiting(0, 1));
    acts := AppendStage(acts, Some(0), Visiting(0, 1), 128, LookOpen, Waiting(0, 1, 128));
    t := Stage(Some(0), Waiting(0, 1, 128), 129);
    OneIsStart();
    StageIsStuck();
  }

  lemma {:induction false} OneIsStart()
    ensures IsStart(ONE, AfterOpening(0))
  {
    var s := AfterOpening(0);
    assert s.procs[0].fds == Fds(0) && Fds(0) == map[];
    OneIsShape(0, None, s.procs[0], 0);
    assert s.(sem := [None], procs := [s.procs[0]], clock := 0) == s;
    CountedIs(0);
  }

  lemma StageIsStuck()
    ensures var t := Stage(Some(0), Waiting(0, 1, 128), 129);
      Shape(ONE, t) && IsStuck(ONE, t)
  {
    StageIsShape(Some(0), Waiting(0, 1, 128), 129);
    assert Stage(Some(0), Waiting(0, 1, 128), 129).procs[0].pc.Waiting?;
    hide Fds, IsRead;
  }
}
