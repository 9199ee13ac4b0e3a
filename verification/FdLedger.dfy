/** Who refers to a descriptor: the processes that have it as stdin or stdout, and the programs that were given its number. */
module FdLedger {
  import opened Basics
  import opened PipeSpec
  import opened PipeLaws
  import opened PipeEnds

  // ---------------------------------------------------------------- one reference more or less

  /** A descriptor with one reference less; a terminal is never freed. */
  function Less(d: FD): FD {
    if d.refs <= 1 && d.kind != Terminal then FD(NoFd, 0, 0) else d.(refs := if d.refs > 0 then d.refs - 1 else 0)
  }

  /** The processes keep their descriptors. */
  ghost predicate SameSlots(a: Procs, b: Procs) {
    b.Keys == a.Keys && forall p <- a :: b[p].stdin == a[p].stdin && b[p].stdout == a[p].stdout
  }

  lemma WakeSlots(procs: Procs, woken: seq<nat>)
    ensures SameSlots(procs, Wake(procs, woken))
  {
    WakeKeys(procs, woken);
  }

  lemma IncrefIs(s: State, fd: int)
    requires Sized(s)
    ensures var r := Incref(s, fd);
            && SameSlots(s.procs, r.procs)
            && r.fds == if Live(s, fd) then s.fds[fd := s.fds[fd].(refs := s.fds[fd].refs + 1)] else s.fds
  {
    hide Wake;
    if Live(s, fd) {
      var d := s.fds[fd];
      if d.kind == ReadEnd { WakeSlots(s.procs, OpenRead(s.pipes[d.pipe]).1); }
      if d.kind == WriteEnd { WakeSlots(s.procs, OpenWrite(s.pipes[d.pipe]).1); }
    }
  }

  lemma DecrefIs(s: State, fd: int)
    requires Sized(s)
    ensures var r := Decref(s, fd);
            && SameSlots(s.procs, r.procs)
            && r.fds == if Live(s, fd) then s.fds[fd := Less(s.fds[fd])] else s.fds
  {
    hide Wake;
    if Live(s, fd) {
      var d := s.fds[fd];
      if d.kind == ReadEnd { WakeSlots(s.procs, CloseRead(s.pipes[d.pipe]).1); }
      if d.kind == WriteEnd { WakeSlots(s.procs, CloseWrite(s.pipes[d.pipe]).1); }
    }
  }

  lemma SameSlotsThen(a: Procs, b: Procs, c: Procs)
    requires SameSlots(a, b) && SameSlots(b, c)
    ensures SameSlots(a, c)
  {
    assert c.Keys == a.Keys;
  }

  // ---------------------------------------------------------------- counting

  function In(procs: Procs, fd: int): set<nat> {
    set p | p in procs && procs[p].stdin == fd
  }

  function Out(procs: Procs, fd: int): set<nat> {
    set p | p in procs && procs[p].stdout == fd
  }

  /** How many times processes have this descriptor. */
  function Slots(procs: Procs, fd: int): nat {
    |In(procs, fd)| + |Out(procs, fd)|
  }

  lemma SlotsSame(a: Procs, b: Procs, fd: int)
    requires SameSlots(a, b)
    ensures Slots(b, fd) == Slots(a, fd)
  {
    assert In(b, fd) == In(a, fd) && Out(b, fd) == Out(a, fd);
  }

  function One(yes: bool): nat {
    if yes then 1 else 0
  }

  /** One member put in or taken out. */
  lemma CountWith(a: set<nat>, pid: nat, yes: bool)
    ensures |if yes then a + {pid} else a - {pid}| == |a| + One(yes) - One(pid in a)
  {
    if pid in a { assert a + {pid} == a; } else { assert a - {pid} == a; }
  }

  lemma SlotsSet(procs: Procs, pid: nat, which: nat, was: int, now: int, fd: int)
    requires pid in procs && FdOf(procs[pid], which) == was
    ensures Slots(procs[pid := WithFd(procs[pid], which, now)], fd) == Slots(procs, fd) + One(fd == now) - One(fd == was)
  {
    SlotsPut(procs, pid, WithFd(procs[pid], which, now), fd);
  }

  /** One process changes, or is new. */
  lemma SlotsPut(procs: Procs, pid: nat, p: Proc, fd: int)
    ensures Slots(procs[pid := p], fd) == Slots(procs, fd) + One(p.stdin == fd) + One(p.stdout == fd)
              - One(pid in procs && procs[pid].stdin == fd) - One(pid in procs && procs[pid].stdout == fd)
  {
    InPut(procs, pid, p, fd);
    OutPut(procs, pid, p, fd);
    CountWith(In(procs, fd), pid, p.stdin == fd);
    CountWith(Out(procs, fd), pid, p.stdout == fd);
    assert pid in In(procs, fd) <==> pid in procs && procs[pid].stdin == fd;
    assert pid in Out(procs, fd) <==> pid in procs && procs[pid].stdout == fd;
    hide In, Out;
  }

  lemma InPut(procs: Procs, pid: nat, p: Proc, fd: int)
    ensures In(procs[pid := p], fd) == if p.stdin == fd then In(procs, fd) + {pid} else In(procs, fd) - {pid}
  {
  }

  lemma OutPut(procs: Procs, pid: nat, p: Proc, fd: int)
    ensures Out(procs[pid := p], fd) == if p.stdout == fd then Out(procs, fd) + {pid} else Out(procs, fd) - {pid}
  {
  }

  lemma SlotsGone(procs: Procs, pid: nat, fd: int)
    requires pid in procs
    ensures Slots(procs - {pid}, fd) == Slots(procs, fd) - One(procs[pid].stdin == fd) - One(procs[pid].stdout == fd)
  {
    CountWith(In(procs, fd), pid, false);
    CountWith(Out(procs, fd), pid, false);
    assert In(procs - {pid}, fd) == In(procs, fd) - {pid};
    assert Out(procs - {pid}, fd) == Out(procs, fd) - {pid};
  }

  // ---------------------------------------------------------------- the ledger

  /** Every reference to a descriptor is that of a process that has it, or was given to a program, which may close it once. */
  predicate Owed(s: State, loose: seq<int>, k: nat)
    requires k < |s.fds| == |loose|
  {
    && loose[k] >= 0
    && if s.fds[k].kind == NoFd then Slots(s.procs, k) == loose[k] == 0 else s.fds[k].refs == Slots(s.procs, k) + loose[k]
  }

  /** `loose[k]` counts the references to descriptor k that programs were given and have not closed. */
  ghost predicate Ledger(s: State, loose: seq<int>) {
    && Sized(s) && |loose| == MAX_FDS
    && s.fds[STDIN].kind == s.fds[STDOUT].kind == Terminal
    && (forall p <- s.procs :: 0 <= s.procs[p].stdin < MAX_FDS && 0 <= s.procs[p].stdout < MAX_FDS)
    && forall k :: 0 <= k < MAX_FDS ==> Owed(s, loose, k)
  }

  /** What a program was given or has given back. */
  function Given(s: State, loose: seq<int>, ev: Event): (r: seq<int>)
    requires Sized(s) && Enabled(s, ev) && |loose| == MAX_FDS
    ensures |r| == MAX_FDS
  {
    match ev
    case MakePipe(name) =>
      (match SysPipe(s, name).1
       case Some((rd, wr)) =>
         if 0 <= rd < MAX_FDS && 0 <= wr < MAX_FDS && rd != wr then loose[rd := loose[rd] + 1][wr := loose[wr] + 1] else loose
       case None => loose)
    case Close(fd) => if Live(s, fd) then loose[fd := loose[fd] - 1] else loose
    case _ => loose
  }

  /** A program closes only what it was given; a descriptor set up for a child is live and not the one the child has. */
  predicate Fair(s: State, loose: seq<int>, ev: Event)
    requires |loose| == MAX_FDS && |s.fds| == MAX_FDS
  {
    match ev
    case Close(fd) => Live(s, fd) ==> loose[fd] > 0
    case Setup(pid, stdioFd, target) =>
      pid in s.procs && target <= 1 ==> Live(s, stdioFd) && FdOf(s.procs[pid], target) != stdioFd
    case _ => true
  }

  lemma HasSlot(procs: Procs, pid: nat, which: nat)
    requires pid in procs
    ensures Slots(procs, FdOf(procs[pid], which)) >= 1
  {
    var fd := FdOf(procs[pid], which);
    assert pid in if which == 0 then In(procs, fd) else Out(procs, fd);
  }

  /** A descriptor of a process that gives way to another one loses a reference, the other one gains one. */
  lemma SwapIs(s: State, pid: nat, which: nat, fd: int)
    requires Sized(s) && pid in s.procs && FdOf(s.procs[pid], which) != fd && Live(s, fd)
    ensures var was := FdOf(s.procs[pid], which); var s1 := Decref(s, was);
            && pid in s1.procs
            && var r := Incref(SetFd(s1, pid, which, fd), fd);
               && SameSlots(s.procs[pid := WithFd(s.procs[pid], which, fd)], r.procs)
               && var f := s.fds[fd := s.fds[fd].(refs := s.fds[fd].refs + 1)];
                  r.fds == if Live(s, was) then f[was := Less(s.fds[was])] else f
  {
    hide Incref, Decref;
    var was := FdOf(s.procs[pid], which);
    DecrefIs(s, was);
    var s1 := Decref(s, was);
    IncrefIs(SetFd(s1, pid, which, fd), fd);
    SameSlotsSet(s.procs, s1.procs, pid, which, fd);
    SameSlotsThen(s.procs[pid := WithFd(s.procs[pid], which, fd)], SetFd(s1, pid, which, fd).procs,
                  Incref(SetFd(s1, pid, which, fd), fd).procs);
  }

  lemma SameSlotsSet(a: Procs, b: Procs, pid: nat, which: nat, fd: int)
    requires SameSlots(a, b) && pid in a
    ensures pid in b && SameSlots(a[pid := WithFd(a[pid], which, fd)], b[pid := WithFd(b[pid], which, fd)])
  {
    assert a[pid := WithFd(a[pid], which, fd)].Keys == a.Keys;
    assert b[pid := WithFd(b[pid], which, fd)].Keys == b.Keys;
  }

  // ---------------------------------------------------------------- every event

  lemma SwapKeeps(s: State, loose: seq<int>, pid: nat, which: nat, fd: int)
    requires Ledger(s, loose) && pid in s.procs && FdOf(s.procs[pid], which) != fd && Live(s, fd)
    ensures var s1 := Decref(s, FdOf(s.procs[pid], which)); pid in s1.procs && Ledger(Incref(SetFd(s1, pid, which, fd), fd), loose)
  {
    hide Incref, Decref, Slots, SameSlots;
    var was := FdOf(s.procs[pid], which);
    SwapIs(s, pid, which, fd);
    var r := Incref(SetFd(Decref(s, was), pid, which, fd), fd);
    var now := s.procs[pid := WithFd(s.procs[pid], which, fd)];
    InRange(now, r.procs, s, pid, which, fd);
    HasSlot(s.procs, pid, which);
    assert Owed(s, loose, was) && Owed(s, loose, fd);
    forall k | 0 <= k < MAX_FDS ensures Owed(r, loose, k) {
      assert Owed(s, loose, k);
      SlotsSet(s.procs, pid, which, was, fd, k);
      SlotsSame(now, r.procs, k);
    }
  }

  lemma InRange(now: Procs, procs: Procs, s: State, pid: nat, which: nat, fd: int)
    requires pid in s.procs && now == s.procs[pid := WithFd(s.procs[pid], which, fd)] && SameSlots(now, procs) && 0 <= fd < MAX_FDS
    requires forall p <- s.procs :: 0 <= s.procs[p].stdin < MAX_FDS && 0 <= s.procs[p].stdout < MAX_FDS
    ensures forall p <- procs :: 0 <= procs[p].stdin < MAX_FDS && 0 <= procs[p].stdout < MAX_FDS
  {
    forall p <- procs ensures 0 <= procs[p].stdin < MAX_FDS && 0 <= procs[p].stdout < MAX_FDS { assert p in now; }
  }

  lemma CreateKeeps(s: State, loose: seq<int>, pid: nat)
    requires Ledger(s, loose) && pid !in s.procs
    ensures Ledger(NewProcess(s, pid), loose)
  {
    hide Incref, Slots, SameSlots;
    var s0 := s.(procs := s.procs[pid := Proc(STDIN, STDOUT, false)]);
    var s1 := Incref(s0, STDIN);
    var r := Incref(s1, STDOUT);
    IncrefIs(s0, STDIN);
    IncrefIs(s1, STDOUT);
    SameSlotsThen(s0.procs, s1.procs, r.procs);
    SlotsInRange(s0.procs, r.procs);
    assert Owed(s, loose, STDIN) && Owed(s, loose, STDOUT);
    forall k | 0 <= k < MAX_FDS ensures Owed(r, loose, k) {
      assert Owed(s, loose, k);
      SlotsPut(s.procs, pid, Proc(STDIN, STDOUT, false), k);
      SlotsSame(s0.procs, r.procs, k);
    }
  }

  lemma SlotsInRange(a: Procs, b: Procs)
    requires SameSlots(a, b) && forall p <- a :: 0 <= a[p].stdin < MAX_FDS && 0 <= a[p].stdout < MAX_FDS
    ensures forall p <- b :: 0 <= b[p].stdin < MAX_FDS && 0 <= b[p].stdout < MAX_FDS
  {
    forall p <- b ensures 0 <= b[p].stdin < MAX_FDS && 0 <= b[p].stdout < MAX_FDS { assert p in a; }
  }

  /** Only the pipes and who is blocked change. */
  lemma SameFds(s: State, loose: seq<int>, r: State)
    requires Ledger(s, loose) && Sized(r) && r.fds == s.fds && SameSlots(s.procs, r.procs)
    ensures Ledger(r, loose)
  {
    hide Slots, SameSlots;
    SlotsInRange(s.procs, r.procs);
    forall k | 0 <= k < MAX_FDS ensures Owed(r, loose, k) {
      assert Owed(s, loose, k);
      SlotsSame(s.procs, r.procs, k);
    }
  }

  lemma CloseKeeps(s: State, loose: seq<int>, fd: nat)
    requires Ledger(s, loose) && (Live(s, fd) ==> loose[fd] > 0)
    ensures Ledger(Decref(s, fd), if Live(s, fd) then loose[fd := loose[fd] - 1] else loose)
  {
    hide Decref, Slots, SameSlots;
    DecrefIs(s, fd);
    var r := Decref(s, fd);
    SlotsInRange(s.procs, r.procs);
    if Live(s, fd) { assert Owed(s, loose, fd); }
    var left := if Live(s, fd) then loose[fd := loose[fd] - 1] else loose;
    forall k | 0 <= k < MAX_FDS ensures Owed(r, left, k) {
      assert Owed(s, loose, k);
      SlotsSame(s.procs, r.procs, k);
    }
  }

  lemma DieKeeps(s: State, loose: seq<int>, pid: nat)
    requires Ledger(s, loose) && pid in s.procs
    ensures Ledger(Die(s, pid), loose)
  {
    hide Decref, Slots, SameSlots;
    var p, s1 := s.procs[pid], s.(pipes := ForgetAll(s.pipes, pid));
    var s2 := Decref(s1, p.stdin);
    var s3 := Decref(s2, p.stdout);
    DecrefIs(s1, p.stdin);
    DecrefIs(s2, p.stdout);
    SameSlotsThen(s.procs, s2.procs, s3.procs);
    SlotsInRange(s.procs, s3.procs);
    HasSlot(s.procs, pid, 0);
    HasSlot(s.procs, pid, 1);
    if p.stdin == p.stdout { SlotsOfDying(s.procs, pid); }
    assert Owed(s, loose, p.stdin) && Owed(s, loose, p.stdout);
    var r := Die(s, pid);
    assert pid in s3.procs && s3.procs[pid].stdin == p.stdin && s3.procs[pid].stdout == p.stdout by { SlotOf(s.procs, s3.procs, pid); }
    forall k | 0 <= k < MAX_FDS ensures Owed(r, loose, k) {
      assert Owed(s, loose, k);
      SlotsSame(s.procs, s3.procs, k);
      SlotsGone(s3.procs, pid, k);
    }
  }

  lemma SlotOf(a: Procs, b: Procs, pid: nat)
    requires SameSlots(a, b) && pid in a
    ensures pid in b && b[pid].stdin == a[pid].stdin && b[pid].stdout == a[pid].stdout
  {
    assert pid in b.Keys;
  }

  lemma SlotsOfDying(procs: Procs, pid: nat)
    requires pid in procs && procs[pid].stdin == procs[pid].stdout
    ensures Slots(procs, procs[pid].stdin) >= 2
  {
    assert pid in In(procs, procs[pid].stdin) && pid in Out(procs, procs[pid].stdin);
  }

  /** A pair is two loose references; without a second descriptor the first is given back. */
  lemma MakeKeeps(s: State, loose: seq<int>, name: Option<string>)
    requires Ledger(s, loose) && Agree(s)
    ensures Ledger(SysPipe(s, name).0, Given(s, loose, MakePipe(name)))
  {
    hide PipeOk, FdOk, PipeOpen, CreatePipeFd, Decref, Slots, SameSlots, Ledger, KnownAs, NewPipe;
    OpenIs(s, name);
    var (s1, i) := PipeOpen(s, name);
    SelfSlots(s.procs);
    SameFds(s, loose, s1);
    if i < MAX_PIPES {
      PipeOpenAgrees(s, name);
      CreatePipeFdAgrees(s1, i, ReadEnd);
      var (s2, rd) := CreatePipeFd(s1, i, ReadEnd);
      EndKeeps(s1, loose, i, ReadEnd);
      if rd >= 0 {
        var (s3, wr) := CreatePipeFd(s2, i, WriteEnd);
        EndKeeps(s2, loose[rd := loose[rd] + 1], i, WriteEnd);
        if wr < 0 {
          CloseKeeps(s3, loose[rd := loose[rd] + 1], rd);
          assert loose[rd := loose[rd] + 1][rd := loose[rd]] == loose;
        }
      }
    }
  }

  lemma SelfSlots(procs: Procs)
    ensures SameSlots(procs, procs)
  {
  }

  lemma EndKeeps(s: State, loose: seq<int>, i: nat, kind: FDKind)
    requires Ledger(s, loose) && i < MAX_PIPES && kind in {ReadEnd, WriteEnd}
    ensures |loose| == MAX_FDS
    ensures var (r, fd) := CreatePipeFd(s, i, kind);
            if fd < 0 then r == s
            else fd < MAX_FDS && s.fds[fd].kind == NoFd && Live(r, fd) && loose[fd] == 0 && Ledger(r, loose[fd := loose[fd] + 1])
  {
    hide Slots, SameSlots, Incref;
    EndIs(s, i, kind);
    var (r, fd) := CreatePipeFd(s, i, kind);
    if fd >= 0 {
      IncrefIs(s.(fds := s.fds[fd := FD(kind, 0, i)]), fd);
      SlotsInRange(s.procs, r.procs);
      assert Owed(s, loose, fd) && Owed(s, loose, STDIN) && Owed(s, loose, STDOUT);
      var more := loose[fd := loose[fd] + 1];
      forall k | 0 <= k < MAX_FDS ensures Owed(r, more, k) {
        assert Owed(s, loose, k);
        SlotsSame(s.procs, r.procs, k);
      }
    }
  }

  lemma TransferSlots(s: State, ev: Event)
    requires Sized(s) && Enabled(s, ev) && (ev.Reading? || ev.Writing?)
    ensures Step(s, ev).fds == s.fds && SameSlots(s.procs, Step(s, ev).procs)
  {
    hide Read, Write, Wake, SameSlots;
    SelfSlots(s.procs);
    var f := if ev.Reading? then Resolve(s, ev.cur, ev.fd, STDIN) else Resolve(s, ev.cur, ev.fd, STDOUT);
    if Live(s, f) && s.fds[f].kind in {ReadEnd, WriteEnd} {
      var p := s.pipes[s.fds[f].pipe];
      var woken := if ev.Reading? then Read(p, ev.cur, ev.count).2 else Write(p, ev.cur, ev.bytes).2;
      WakeSlots(s.procs, woken);
      BlockSlots(Wake(s.procs, woken), ev.cur);
      SameSlotsThen(s.procs, Wake(s.procs, woken), SetBlocked(Wake(s.procs, woken), ev.cur, true));
    }
  }

  lemma BlockSlots(procs: Procs, pid: nat)
    ensures SameSlots(procs, SetBlocked(procs, pid, true))
  {
  }

  /** Every event keeps the ledger: a descriptor is in use exactly as long as some process has it or some program was given
      it and has not closed it, and its count is the number of these. */
  lemma StepLedger(s: State, loose: seq<int>, ev: Event)
    requires Ledger(s, loose) && Agree(s) && Enabled(s, ev) && Fair(s, loose, ev)
    ensures Ledger(Step(s, ev), Given(s, loose, ev))
  {
    hide Incref, Decref, Slots, SameSlots, Agree, Die, NewProcess, SysPipe, SysRead, SysWrite;
    match ev
    case Create(pid) => CreateKeeps(s, loose, pid);
    case MakePipe(name) => MakeKeeps(s, loose, name);
    case Dup(cur, oldFd, newFd) =>
      if newFd <= 1 && Live(s, oldFd) && FdOf(s.procs[cur], newFd) != oldFd { SwapKeeps(s, loose, cur, newFd, oldFd); }
    case Close(fd) => CloseKeeps(s, loose, fd);
    case Setup(pid, stdioFd, target) =>
      if pid in s.procs && target <= 1 { SwapKeeps(s, loose, pid, target, stdioFd); }
    case Death(pid) => DieKeeps(s, loose, pid);
    case _ =>
      TransferSlots(s, ev);
      SameFds(s, loose, Step(s, ev));
  }

  // ---------------------------------------------------------------- over runs

  ghost predicate FairRun(s: State, loose: seq<int>, evs: seq<Event>)
    requires Sized(s) && Legal(s, evs) && |loose| == MAX_FDS
    decreases |evs|
  {
    evs == [] || (Fair(s, loose, evs[0]) && FairRun(Step(s, evs[0]), Given(s, loose, evs[0]), evs[1..]))
  }

  function GivenAll(s: State, loose: seq<int>, evs: seq<Event>): (r: seq<int>)
    requires Sized(s) && Legal(s, evs) && |loose| == MAX_FDS
    ensures |r| == MAX_FDS
    decreases |evs|
  {
    if evs == [] then loose else GivenAll(Step(s, evs[0]), Given(s, loose, evs[0]), evs[1..])
  }

  /** So does every run; with nothing loose and no process left, only the two terminals are in use. */
  lemma {:induction false} RunLedger(s: State, loose: seq<int>, evs: seq<Event>)
    requires Ledger(s, loose) && Agree(s) && Legal(s, evs) && |loose| == MAX_FDS && FairRun(s, loose, evs)
    ensures Ledger(Run(s, evs), GivenAll(s, loose, evs)) && Agree(Run(s, evs))
    decreases |evs|
  {
    hide Ledger, PipeOk, FdOk, Step, Enabled, Fair, Given;
    if evs != [] {
      StepLedger(s, loose, evs[0]);
      StepAgrees(s, evs[0]);
      RunLedger(Step(s, evs[0]), Given(s, loose, evs[0]), evs[1..]);
    }
  }

  lemma StartLedger()
    ensures Ledger(Initial(), seq(MAX_FDS, _ => 0))
  {
    var s, none := Initial(), seq(MAX_FDS, _ => 0);
    forall k | 0 <= k < MAX_FDS ensures Owed(s, none, k) {
      assert In(s.procs, k) == {} && Out(s.procs, k) == {};
    }
  }

  /** Nothing leaks: when every process is dead and every number given has been closed, every descriptor but the terminals
      is free again, and no end of any pipe is open. */
  lemma NothingLeaks(s: State, loose: seq<int>, i: nat)
    requires Ledger(s, loose) && Agree(s) && s.procs == map[] && i < MAX_PIPES && forall k :: 0 <= k < MAX_FDS ==> loose[k] == 0
    ensures forall k :: STDOUT < k < MAX_FDS ==> s.fds[k].kind in {NoFd, Terminal}
    ensures s.pipes[i].openRead == s.pipes[i].openWrite == 0
  {
    hide Refs;
    forall k | 0 <= k < MAX_FDS ensures s.fds[k].kind in {NoFd, Terminal} {
      assert Owed(s, loose, k) && FdOk(s.pipes, s.fds[k]);
      assert In(s.procs, k) == {} && Out(s.procs, k) == {};
    }
    assert PipeOk(s.pipes[i], s.fds, i);
    NoRefs(s.fds, i, ReadEnd);
    NoRefs(s.fds, i, WriteEnd);
  }
}
