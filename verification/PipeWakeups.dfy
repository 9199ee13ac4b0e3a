/** Nobody sleeps on a pipe without being in its queue: whoever leaves a queue of an anonymous pipe is awake. */
module PipeWakeups {
  import opened Basics
  import opened PipeSpec
  import opened PipeLaws
  import opened PipeRuns

  predicate Asleep(s: State, x: nat) {
    x in s.procs && s.procs[x].blocked
  }

  predicate Parked(p: Pipe, x: nat) {
    x in p.readers || x in p.writers
  }

  /** Readers wait only while a write end is open, writers only while a read end is. */
  predicate Guarded(p: Pipe) {
    !p.named && (p.readers != [] ==> p.openWrite > 0) && (p.writers != [] ==> p.openRead > 0)
  }

  /** If x is asleep, it is in a queue of pipe i. */
  predicate Waits(s: State, i: nat, x: nat) {
    i < |s.pipes| && Guarded(s.pipes[i]) && (Asleep(s, x) ==> Parked(s.pipes[i], x))
  }

  lemma GuardedClosed()
    ensures Closed(Guarded, false)
  {
    forall p, pid | Guarded(p) ensures Guarded(Forget(p, pid)) {
      assert Forget(p, pid).readers != [] ==> p.readers != [];
    }
  }

  lemma WokenAwake(s: State, i: nat, r: (Pipe, seq<nat>), x: nat)
    requires i < |s.pipes|
    ensures Asleep(OnPipe(s, i, r), x) <==> Asleep(s, x) && x !in r.1
  {
    WakeKeys(s.procs, r.1);
  }

  lemma DecrefWaits(s: State, fd: int, i: nat, x: nat)
    requires Agree(s) && Waits(s, i, x)
    ensures Waits(Decref(s, fd), i, x)
  {
    hide PipeOk, FdOk, Wake;
    if Live(s, fd) && IsEnd(s.fds[fd]) {
      EndGives(s, fd);
      var d := s.fds[fd];
      var p := s.pipes[d.pipe];
      WokenAwake(s.(fds := Decref(s, fd).fds), d.pipe, if d.kind == ReadEnd then CloseRead(p) else CloseWrite(p), x);
    }
  }

  lemma IncrefWaits(s: State, fd: int, i: nat, x: nat)
    requires Agree(s) && Waits(s, i, x)
    ensures Waits(Incref(s, fd), i, x)
  {
    hide PipeOk, FdOk, Wake;
    if Live(s, fd) && IsEnd(s.fds[fd]) {
      EndGives(s, fd);
      var d := s.fds[fd];
      var p := s.pipes[d.pipe];
      WokenAwake(s.(fds := Incref(s, fd).fds), d.pipe, if d.kind == ReadEnd then OpenRead(p) else OpenWrite(p), x);
    }
  }

  lemma CreatePipeFdWaits(s: State, j: nat, kind: FDKind, i: nat, x: nat)
    requires Agree(s) && Waits(s, i, x) && j < MAX_PIPES && j != i && kind in {ReadEnd, WriteEnd}
    ensures Waits(CreatePipeFd(s, j, kind).0, i, x)
  {
    hide PipeOk, FdOk, Wake;
    var p := s.pipes[j];
    WokenAwake(s.(fds := CreatePipeFd(s, j, kind).0.fds), j, if kind == ReadEnd then OpenRead(p) else OpenWrite(p), x);
  }

  lemma CreateFdsWaits(s: State, j: nat, i: nat, x: nat)
    requires Agree(s) && Waits(s, i, x) && j < MAX_PIPES && j != i && s.pipes[j].inUse
    ensures Waits(CreateFds(s, j).0, i, x)
  {
    hide PipeOk, FdOk, CreatePipeFd, Decref, Waits;
    CreatePipeFdAgrees(s, j, ReadEnd);
    CreatePipeFdWaits(s, j, ReadEnd, i, x);
    var (s1, rd) := CreatePipeFd(s, j, ReadEnd);
    if rd >= 0 {
      CreatePipeFdAgrees(s1, j, WriteEnd);
      CreatePipeFdWaits(s1, j, WriteEnd, i, x);
      var (s2, wr) := CreatePipeFd(s1, j, WriteEnd);
      if wr < 0 { DecrefWaits(s2, rd, i, x); }
    }
  }

  lemma SetFdWaits(s: State, pid: nat, which: nat, fd: int, i: nat, x: nat)
    requires pid in s.procs && Waits(s, i, x)
    ensures Waits(SetFd(s, pid, which, fd), i, x)
  {
  }

  lemma SwapWaits(s: State, fd: int, pid: nat, which: nat, newFd: int, i: nat, x: nat)
    requires Agree(s) && pid in s.procs && Waits(s, i, x)
    ensures Waits(Incref(SetFd(s, pid, which, newFd), newFd), i, x)
    ensures pid in Decref(s, fd).procs && Waits(Incref(SetFd(Decref(s, fd), pid, which, newFd), newFd), i, x)
  {
    hide PipeOk, FdOk, Incref, Decref, Waits, SetFd;
    OnPipeKeys(s, fd);
    DecrefAgrees(s, fd);
    DecrefWaits(s, fd, i, x);
    SetFdWaits(s, pid, which, newFd, i, x);
    SetFdWaits(Decref(s, fd), pid, which, newFd, i, x);
    OnlyProcs(s, SetFd(s, pid, which, newFd).procs);
    OnlyProcs(Decref(s, fd), SetFd(Decref(s, fd), pid, which, newFd).procs);
    SetFdIs(s, pid, which, newFd);
    SetFdIs(Decref(s, fd), pid, which, newFd);
    IncrefWaits(SetFd(s, pid, which, newFd), newFd, i, x);
    IncrefWaits(SetFd(Decref(s, fd), pid, which, newFd), newFd, i, x);
  }

  lemma SetFdIs(s: State, pid: nat, which: nat, fd: int)
    requires pid in s.procs
    ensures SetFd(s, pid, which, fd) == s.(procs := SetFd(s, pid, which, fd).procs)
  {
  }

  lemma DieWaits(s: State, pid: nat, i: nat, x: nat)
    requires Agree(s) && pid in s.procs && pid != x && Waits(s, i, x)
    ensures Waits(Die(s, pid), i, x)
  {
    hide PipeOk, FdOk, Decref;
    var s1 := s.(pipes := ForgetAll(s.pipes, pid));
    PipeInRange(s);
    SameCounts(s, s1);
    var p := s.procs[pid];
    DecrefAgrees(s1, p.stdin);
    DecrefWaits(s1, p.stdin, i, x);
    var s2 := if p.stdin >= 0 then Decref(s1, p.stdin) else s1;
    DecrefWaits(s2, p.stdout, i, x);
  }

  /** A read by someone else, on this pipe or another. */
  lemma ReadingWaits(s: State, cur: nat, fd: nat, count: nat, i: nat, x: nat)
    requires Agree(s) && cur in s.procs && cur != x && Waits(s, i, x)
    ensures Waits(SysRead(s, cur, fd, count).0, i, x)
  {
    hide PipeOk, FdOk, Wake;
    var f := Resolve(s, cur, fd, STDIN);
    if Live(s, f) && s.fds[f].kind == ReadEnd {
      EndGives(s, f);
      var q := s.pipes[s.fds[f].pipe];
      var (p, result, woken) := Read(q, cur, count);
      WokenAwake(s, s.fds[f].pipe, (p, woken), x);
      if q.writers != [] { HeadAndTail(q.writers, x); }
    }
  }

  lemma WritingWaits(s: State, cur: nat, fd: nat, bytes: seq<Byte>, i: nat, x: nat)
    requires Agree(s) && cur in s.procs && cur != x && Waits(s, i, x)
    ensures Waits(SysWrite(s, cur, fd, bytes).0, i, x)
  {
    hide PipeOk, FdOk, Wake;
    var f := Resolve(s, cur, fd, STDOUT);
    if Live(s, f) && s.fds[f].kind == WriteEnd {
      EndGives(s, f);
      var q := s.pipes[s.fds[f].pipe];
      var (p, result, woken) := Write(q, cur, bytes);
      WokenAwake(s, s.fds[f].pipe, (p, woken), x);
      if q.readers != [] { HeadAndTail(q.readers, x); }
    }
  }

  lemma HeadAndTail(q: seq<nat>, x: nat)
    requires q != []
    ensures x in q <==> x == q[0] || x in q[1..]
  {
    assert q == [q[0]] + q[1..];
  }

  /** A process asleep in a queue of an anonymous pipe is, after any event, still in a queue of it, or awake, or dead. */
  lemma LeavesAwake(s: State, ev: Event, i: nat, x: nat)
    requires Agree(s) && Enabled(s, ev) && i < MAX_PIPES && s.pipes[i].inUse && Guarded(s.pipes[i])
    requires Asleep(s, x) && Parked(s.pipes[i], x)
    ensures var r := Step(s, ev); Guarded(r.pipes[i]) && (Asleep(r, x) ==> Parked(r.pipes[i], x))
  {
    hide PipeOk, FdOk, Incref, Decref, Die, SysRead, SysWrite, CreateFds, PipeOpen, Guarded, Parked;
    match ev
    case Create(pid) =>
      var s0 := s.(procs := s.procs[pid := Proc(STDIN, STDOUT, false)]);
      OnlyProcs(s, s0.procs);
      IncrefAgrees(s0, STDIN);
      IncrefWaits(s0, STDIN, i, x);
      IncrefWaits(Incref(s0, STDIN), STDOUT, i, x);
    case MakePipe(name) =>
      PipeOpenAgrees(s, name);
      OpensElsewhere(s, name, i, x);
      var (s1, j) := PipeOpen(s, name);
      if j < MAX_PIPES { CreateFdsWaits(s1, j, i, x); }
    case Dup(cur, oldFd, newFd) => SwapWaits(s, FdOf(s.procs[cur], newFd), cur, newFd, oldFd, i, x);
    case Close(fd) => DecrefWaits(s, fd, i, x);
    case Setup(pid, stdioFd, target) =>
      if pid in s.procs { SwapWaits(s, FdOf(s.procs[pid], target), pid, target, stdioFd, i, x); }
    case Reading(cur, fd, count) => ReadingWaits(s, cur, fd, count, i, x);
    case Writing(cur, fd, bytes) => WritingWaits(s, cur, fd, bytes, i, x);
    case Death(pid) =>
      if pid != x {
        DieWaits(s, pid, i, x);
      } else {
        GuardedClosed();
        assert !s.pipes[i].named by { GuardedAnonymous(s.pipes[i]); }
        EventKeeps(s, ev, i, Guarded, false);
        DeadIsAwake(s, x);
      }
  }

  lemma GuardedAnonymous(p: Pipe)
    requires Guarded(p)
    ensures !p.named
  {
  }

  lemma DeadIsAwake(s: State, x: nat)
    requires Sized(s) && x in s.procs
    ensures !Asleep(Die(s, x), x)
  {
    hide Decref;
  }

  lemma OpensElsewhere(s: State, name: Option<string>, i: nat, x: nat)
    requires Agree(s) && i < MAX_PIPES && s.pipes[i].inUse && Waits(s, i, x)
    ensures var (r, j) := PipeOpen(s, name); j != i && Waits(r, i, x)
  {
    hide PipeOk, FdOk;
  }

  /** A reader or writer that blocks is put in the queue it will be woken from. */
  lemma BlocksInQueue(s: State, ev: Event, i: nat)
    requires Agree(s) && Enabled(s, ev) && i < MAX_PIPES && (Reads(s, ev, i) || Writes(s, ev, i))
    requires |s.pipes[i].readers| < MAX_PROCESSES && |s.pipes[i].writers| < MAX_PROCESSES
    ensures Asleep(Step(s, ev), ev.cur) ==> Parked(Step(s, ev).pipes[i], ev.cur)
  {
    hide PipeOk, FdOk, Wake;
    match ev
    case Reading(cur, fd, count) =>
      var (p, result, woken) := Read(s.pipes[i], cur, count);
      WokenAwake(s, i, (p, woken), cur);
    case Writing(cur, fd, bytes) =>
      var (p, result, woken) := Write(s.pipes[i], cur, bytes);
      WokenAwake(s, i, (p, woken), cur);
  }

  /** With one reader and one writer, no wake-up is lost, whatever is read, written, opened, closed or killed: a process
      that blocked on the pipe, and lives, sleeps only while its own condition to go on is false. */
  lemma {:induction false} NoLostWakeup(s: State, evs: seq<Event>, i: nat, reader: nat, writer: nat, x: nat)
    requires Agree(s) && Legal(s, evs) && Lives(s, evs, i) && SoloRun(s, evs, i, reader, writer)
    requires Quiet(s.pipes[i], reader, writer) && AsleepThrough(s, evs, x) && Parked(s.pipes[i], x)
    ensures var p := Run(s, evs).pipes[i];
            || (x == reader && p.data == [] && p.openWrite > 0 && x in p.readers)
            || (x == writer && |p.data| == BUFFER_SIZE && p.openRead > 0 && x in p.writers)
    decreases |evs|
  {
    hide PipeOk, FdOk, Step, Enabled, Solo;
    if evs != [] {
      StepAgrees(s, evs[0]);
      QuietStep(s, evs[0], i, reader, writer);
      LeavesAwake(s, evs[0], i, x);
      assert Lives(Step(s, evs[0]), evs[1..], i);
      assert AsleepThrough(Step(s, evs[0]), evs[1..], x);
      NoLostWakeup(Step(s, evs[0]), evs[1..], i, reader, writer, x);
    }
  }

  /** Process x is asleep before and after every event of the run. */
  ghost predicate AsleepThrough(s: State, evs: seq<Event>, x: nat)
    requires Sized(s) && Legal(s, evs)
    decreases |evs|
  {
    Asleep(s, x) && (evs != [] ==> AsleepThrough(Step(s, evs[0]), evs[1..], x))
  }
}
