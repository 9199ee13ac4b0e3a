/** What the events of semaphores and pipes do to who lives and who sleeps: only the caller falls asleep. */
module SleepFrames {
  import S = SemaphoreSpec
  import SL = SemaphoreLaws
  import P = PipeSpec
  import PL = PipeLaws
  import opened Basics
  import Q = PidQueue

  // ---------------------------------------------------------------- semaphores

  /** The same processes, and nobody falls asleep. */
  ghost predicate SemQuiet(a: S.Procs, b: S.Procs) {
    b.Keys == a.Keys && forall q <- b :: b[q].blocked ==> q in a && a[q].blocked
  }

  lemma SemBits(procs: S.Procs, p: nat, i: nat, on: bool)
    ensures SemQuiet(procs, S.SetHeld(procs, p, i, on)) && SemQuiet(procs, S.SetOpened(procs, p, i, on))
    ensures SemQuiet(procs, S.SetBlocked(procs, p, false))
  {
  }

  lemma SemQuietTwice(a: S.Procs, b: S.Procs, c: S.Procs)
    requires SemQuiet(a, b) && SemQuiet(b, c)
    ensures SemQuiet(a, c)
  {
  }

  lemma ReturnQuiet(k: S.State, i: nat)
    requires i < |k.sems|
    ensures SemQuiet(k.procs, S.Return(k, i).procs)
  {
    hide SemQuiet, S.SetHeld, S.SetBlocked;
    var m := k.sems[i];
    if m.value + 1 <= 0 && m.queue != [] {
      var p1 := S.SetHeld(k.procs, m.queue[0], i, true);
      SemBits(k.procs, m.queue[0], i, true);
      SemBits(p1, m.queue[0], i, true);
      SemQuietTwice(k.procs, p1, S.SetBlocked(p1, m.queue[0], false));
    } else {
      SemSelf(k.procs);
    }
  }

  lemma SemSelf(procs: S.Procs)
    ensures SemQuiet(procs, procs)
  {
  }

  lemma CleanOneQuiet(k: S.State, p: nat, i: nat)
    requires i < |k.sems| && p in k.procs
    ensures SemQuiet(k.procs, S.CleanOne(k, p, i).procs)
  {
    hide SemQuiet, S.SetHeld, S.SetOpened, S.Return, Q.Removed;
    SemSelf(k.procs);
    var m := k.sems[i];
    if m.opens > 0 {
      var p1 := S.SetOpened(k.procs, p, i, false);
      var p2 := S.SetHeld(p1, p, i, false);
      SemBits(k.procs, p, i, false);
      SemBits(p1, p, i, false);
      SemQuietTwice(k.procs, p1, p2);
      if p !in m.queue && i in k.procs[p].held {
        var left := m.(queue := Q.Removed(m.queue, p), opens := if i in k.procs[p].refs then m.opens - 1 else m.opens);
        var l := S.State(k.sems[i := left], p2);
        ReturnQuiet(l, i);
        SemQuietTwice(k.procs, p2, S.Return(l, i).procs);
      }
    }
  }

  lemma {:induction false} CleanFromQuiet(k: S.State, p: nat, i: nat)
    requires i <= |k.sems| && p in k.procs
    ensures SemQuiet(k.procs, S.CleanFrom(k, p, i).procs)
    decreases |k.sems| - i
  {
    hide SemQuiet, S.CleanOne;
    SemSelf(k.procs);
    if i < |k.sems| {
      CleanOneQuiet(k, p, i);
      CleanFromQuiet(S.CleanOne(k, p, i), p, i + 1);
      SemQuietTwice(k.procs, S.CleanOne(k, p, i).procs, S.CleanFrom(k, p, i).procs);
    }
  }

  /** A birth adds a process awake, a death takes one away, and of the others only one that calls wait may fall asleep. */
  lemma SemStep(k: S.State, ev: SL.Event)
    requires SL.Disciplined(k, ev)
    ensures var r := SL.Step(k, ev);
            && r.procs.Keys == (if ev.Create? then k.procs.Keys + {ev.pid}
                                else if ev.Death? then k.procs.Keys - {ev.pid} else k.procs.Keys)
            && forall q <- r.procs :: r.procs[q].blocked ==>
                 (q in k.procs && k.procs[q].blocked) || (ev.SemWait? && q == ev.pid)
  {
    hide S.SetHeld, S.SetOpened, S.CleanFrom, S.Open, S.Post, S.Find, S.FreeSem, S.SetBlocked;
    match ev
    case Create(pid) =>
    case SemOpen(pid, name, initial) => OpenQuiet(k, pid, name, initial);
    case SemWait(pid, name) =>
      SemBits(k.procs, pid, S.Find(k.sems, name, 0), true);
      Asleep(k.procs, pid);
    case SemPost(pid, name) =>
      PostQuiet(k, pid, name);
    case SemClose(pid, name) =>
      CloseQuiet(k.procs, pid, S.Find(k.sems, name, 0));
    case Death(pid) => CleanFromQuiet(k, pid, 0);
  }

  lemma OpenQuiet(k: S.State, pid: nat, name: string, initial: nat)
    ensures SemQuiet(k.procs, S.Open(k, pid, name, initial).0.procs)
  {
    hide SemQuiet, S.SetOpened, S.Find, S.FreeSem;
    SemSelf(k.procs);
    SemBits(k.procs, pid, S.Find(k.sems, name, 0), true);
    SemBits(k.procs, pid, S.FreeSem(k.sems, 0), true);
  }

  lemma PostQuiet(k: S.State, pid: nat, name: string)
    ensures SemQuiet(k.procs, S.Post(k, pid, name).0.procs)
  {
    hide SemQuiet, S.SetHeld, S.Return, S.Find;
    SemSelf(k.procs);
    var i := S.Find(k.sems, name, 0);
    if i < |k.sems| {
      SemBits(k.procs, pid, i, false);
      var l := k.(procs := S.SetHeld(k.procs, pid, i, false));
      ReturnQuiet(l, i);
      SemQuietTwice(k.procs, l.procs, S.Return(l, i).procs);
    }
  }

  lemma CloseQuiet(procs: S.Procs, pid: nat, i: nat)
    ensures SemQuiet(procs, S.SetOpened(S.SetHeld(procs, pid, i, false), pid, i, false))
  {
    hide SemQuiet, S.SetHeld, S.SetOpened;
    SemBits(procs, pid, i, false);
    SemBits(S.SetHeld(procs, pid, i, false), pid, i, false);
    SemQuietTwice(procs, S.SetHeld(procs, pid, i, false), S.SetOpened(S.SetHeld(procs, pid, i, false), pid, i, false));
  }

  lemma Asleep(procs: S.Procs, pid: nat)
    ensures S.SetBlocked(procs, pid, true).Keys == procs.Keys
    ensures forall q <- procs :: S.SetBlocked(procs, pid, true)[q].blocked ==> procs[q].blocked || q == pid
  {
  }

  // ---------------------------------------------------------------- pipes

  ghost predicate PipeQuiet(a: P.Procs, b: P.Procs) {
    b.Keys == a.Keys && forall q <- b :: b[q].blocked ==> q in a && a[q].blocked
  }

  lemma WakeQuiet(procs: P.Procs, woken: seq<nat>)
    ensures PipeQuiet(procs, P.Wake(procs, woken))
  {
    P.WakeKeys(procs, woken);
  }

  lemma PipeQuietTwice(a: P.Procs, b: P.Procs, c: P.Procs)
    requires PipeQuiet(a, b) && PipeQuiet(b, c)
    ensures PipeQuiet(a, c)
  {
  }

  lemma PipeSelf(procs: P.Procs)
    ensures PipeQuiet(procs, procs)
  {
  }

  lemma IncrefQuiet(f: P.State, fd: int)
    requires P.Sized(f)
    ensures PipeQuiet(f.procs, P.Incref(f, fd).procs)
  {
    hide PipeQuiet, P.Wake;
    PipeSelf(f.procs);
    if P.Live(f, fd) {
      var d := f.fds[fd];
      if d.kind == P.ReadEnd { WakeQuiet(f.procs, P.OpenRead(f.pipes[d.pipe]).1); }
      if d.kind == P.WriteEnd { WakeQuiet(f.procs, P.OpenWrite(f.pipes[d.pipe]).1); }
    }
  }

  lemma DecrefQuiet(f: P.State, fd: int)
    requires P.Sized(f)
    ensures PipeQuiet(f.procs, P.Decref(f, fd).procs)
  {
    hide PipeQuiet, P.Wake;
    PipeSelf(f.procs);
    if P.Live(f, fd) {
      var d := f.fds[fd];
      if d.kind == P.ReadEnd { WakeQuiet(f.procs, P.CloseRead(f.pipes[d.pipe]).1); }
      if d.kind == P.WriteEnd { WakeQuiet(f.procs, P.CloseWrite(f.pipes[d.pipe]).1); }
    }
  }

  lemma CreatePipeFdQuiet(f: P.State, i: nat, kind: P.FDKind)
    requires P.Sized(f) && i < P.MAX_PIPES && kind in {P.ReadEnd, P.WriteEnd}
    ensures PipeQuiet(f.procs, P.CreatePipeFd(f, i, kind).0.procs)
  {
    hide PipeQuiet, P.Incref;
    PipeSelf(f.procs);
    var fd := P.FreeFd(f.fds, 0);
    if fd < |f.fds| { IncrefQuiet(f.(fds := f.fds[fd := P.FD(kind, 0, i)]), fd); }
  }

  lemma CreateFdsQuiet(f: P.State, i: nat)
    requires P.Sized(f) && i < P.MAX_PIPES
    ensures PipeQuiet(f.procs, P.CreateFds(f, i).0.procs)
  {
    hide PipeQuiet, P.CreatePipeFd, P.Decref, P.Sized;
    CreatePipeFdQuiet(f, i, P.ReadEnd);
    var (f1, rd) := P.CreatePipeFd(f, i, P.ReadEnd);
    if rd >= 0 {
      CreatePipeFdQuiet(f1, i, P.WriteEnd);
      var (f2, wr) := P.CreatePipeFd(f1, i, P.WriteEnd);
      PipeQuietTwice(f.procs, f1.procs, f2.procs);
      if wr < 0 {
        DecrefQuiet(f2, rd);
        PipeQuietTwice(f.procs, f2.procs, P.Decref(f2, rd).procs);
      }
    }
  }

  lemma MakeQuiet(f: P.State, name: Option<string>)
    requires P.Sized(f)
    ensures PipeQuiet(f.procs, P.SysPipe(f, name).0.procs)
  {
    hide PipeQuiet, P.CreateFds;
    PipeSelf(f.procs);
    var (f1, i) := P.PipeOpen(f, name);
    if i < P.MAX_PIPES { CreateFdsQuiet(f1, i); }
  }

  lemma SetFdQuiet(f: P.State, pid: nat, which: nat, fd: int)
    requires pid in f.procs
    ensures PipeQuiet(f.procs, P.SetFd(f, pid, which, fd).procs)
  {
  }

  /** A descriptor of a process gives way to another one. */
  lemma SwapQuiet(f: P.State, pid: nat, which: nat, fd: int)
    requires P.Sized(f) && pid in f.procs
    ensures P.Decref(f, P.FdOf(f.procs[pid], which)).procs.Keys == f.procs.Keys
    ensures var f1 := if P.FdOf(f.procs[pid], which) >= 0 then P.Decref(f, P.FdOf(f.procs[pid], which)) else f;
            pid in f1.procs && P.Sized(f1) && PipeQuiet(f.procs, P.Incref(P.SetFd(f1, pid, which, fd), fd).procs)
  {
    hide P.Incref, P.Decref, P.SetFd;
    var before := P.FdOf(f.procs[pid], which);
    PipeSelf(f.procs);
    DecrefQuiet(f, before);
    var f1 := if before >= 0 then P.Decref(f, before) else f;
    SetFdQuiet(f1, pid, which, fd);
    var f2 := P.SetFd(f1, pid, which, fd);
    PipeQuietTwice(f.procs, f1.procs, f2.procs);
    IncrefQuiet(f2, fd);
    PipeQuietTwice(f.procs, f2.procs, P.Incref(f2, fd).procs);
  }

  lemma DieQuiet(f: P.State, pid: nat)
    requires P.Sized(f) && pid in f.procs
    ensures P.Die(f, pid).procs.Keys == f.procs.Keys - {pid}
    ensures forall q <- P.Die(f, pid).procs :: P.Die(f, pid).procs[q].blocked ==> q in f.procs && f.procs[q].blocked
  {
    hide P.Decref, P.ForgetAll;
    PipeSelf(f.procs);
    var f1 := f.(pipes := P.ForgetAll(f.pipes, pid));
    var p := f.procs[pid];
    DecrefQuiet(f1, p.stdin);
    var f2 := if p.stdin >= 0 then P.Decref(f1, p.stdin) else f1;
    DecrefQuiet(f2, p.stdout);
    var f3 := if p.stdout >= 0 then P.Decref(f2, p.stdout) else f2;
    PipeQuietTwice(f.procs, f2.procs, f3.procs);
  }

  lemma NewQuiet(f: P.State, pid: nat)
    requires P.Sized(f) && pid !in f.procs
    ensures P.NewProcess(f, pid).procs.Keys == f.procs.Keys + {pid}
    ensures forall q <- P.NewProcess(f, pid).procs :: P.NewProcess(f, pid).procs[q].blocked ==> q in f.procs && f.procs[q].blocked
  {
    hide P.Incref;
    var f0 := f.(procs := f.procs[pid := P.Proc(P.STDIN, P.STDOUT, false)]);
    IncrefQuiet(f0, P.STDIN);
    IncrefQuiet(P.Incref(f0, P.STDIN), P.STDOUT);
    PipeQuietTwice(f0.procs, P.Incref(f0, P.STDIN).procs, P.NewProcess(f, pid).procs);
  }

  /** The same processes, and only this one may have fallen asleep. */
  ghost predicate OnlySleeper(a: P.Procs, b: P.Procs, pid: nat) {
    b.Keys == a.Keys && forall q <- b :: b[q].blocked ==> q in a && (a[q].blocked || q == pid)
  }

  lemma PipeAsleep(a: P.Procs, woken: seq<nat>, pid: nat, asleep: bool)
    ensures var b := P.Wake(a, woken); OnlySleeper(a, if asleep then P.SetBlocked(b, pid, true) else b, pid)
  {
    hide P.Wake;
    WakeQuiet(a, woken);
  }

  lemma ReadQuiet(f: P.State, cur: nat, fd: nat, count: nat)
    requires P.Sized(f) && cur in f.procs
    ensures OnlySleeper(f.procs, P.SysRead(f, cur, fd, count).0.procs, cur)
  {
    hide P.Wake, P.Read, P.SetBlocked, OnlySleeper, P.Resolve;
    var g := P.Resolve(f, cur, fd, P.STDIN);
    PipeNobody(f.procs, cur);
    if P.Live(f, g) && f.fds[g].kind == P.ReadEnd {
      var (p, result, woken) := P.Read(f.pipes[f.fds[g].pipe], cur, count);
      PipeAsleep(f.procs, woken, cur, result.ReadBlocks?);
    }
  }

  lemma PipeNobody(a: P.Procs, pid: nat)
    ensures OnlySleeper(a, a, pid)
  {
  }

  lemma WriteQuiet(f: P.State, cur: nat, fd: nat, bytes: seq<P.Byte>)
    requires P.Sized(f) && cur in f.procs
    ensures OnlySleeper(f.procs, P.SysWrite(f, cur, fd, bytes).0.procs, cur)
  {
    hide P.Wake, P.Write, P.SetBlocked, OnlySleeper, P.Resolve;
    var g := P.Resolve(f, cur, fd, P.STDOUT);
    PipeNobody(f.procs, cur);
    if P.Live(f, g) && f.fds[g].kind == P.WriteEnd {
      var (p, result, woken) := P.Write(f.pipes[f.fds[g].pipe], cur, bytes);
      PipeAsleep(f.procs, woken, cur, result.WriteBlocks?);
    }
  }

  /** As SemStep, for those that read and write. */
  lemma PipeStep(f: P.State, ev: PL.Event)
    requires P.Sized(f) && PL.Enabled(f, ev)
    ensures var r := PL.Step(f, ev);
            && r.procs.Keys == (if ev.Create? then f.procs.Keys + {ev.pid}
                                else if ev.Death? then f.procs.Keys - {ev.pid} else f.procs.Keys)
            && forall q <- r.procs :: r.procs[q].blocked ==>
                 (q in f.procs && f.procs[q].blocked) || ((ev.Reading? || ev.Writing?) && q == ev.cur)
  {
    hide P.Incref, P.Decref, P.Die, P.NewProcess, P.SysRead, P.SysWrite, P.SysPipe;
    match ev
    case Create(pid) => NewQuiet(f, pid);
    case MakePipe(name) => MakeQuiet(f, name);
    case Dup(cur, oldFd, newFd) => SwapQuiet(f, cur, newFd, oldFd);
    case Close(fd) => DecrefQuiet(f, fd);
    case Setup(pid, stdioFd, target) => if pid in f.procs { SwapQuiet(f, pid, target, stdioFd); }
    case Reading(cur, fd, count) => ReadQuiet(f, cur, fd, count);
    case Writing(cur, fd, bytes) => WriteQuiet(f, cur, fd, bytes);
    case Death(pid) => DieQuiet(f, pid);
  }
}
