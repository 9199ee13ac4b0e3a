/** The life of one pipe, from allocation to release: the byte stream, the end of the file, and wake-ups. */
module PipeRuns {
  import opened Basics
  import opened PidQueue
  import opened PipeSpec
  import opened PipeLaws

  // ---------------------------------------------------------------- what an event does to pipe i

  /** The pipe that a read of this descriptor is on; -1 if it is on none. */
  function ReadFrom(s: State, cur: nat, fd: nat): int
    requires cur in s.procs
  {
    var f := Resolve(s, cur, fd, STDIN);
    if Live(s, f) && s.fds[f].kind == ReadEnd then s.fds[f].pipe else -1
  }

  function WrittenTo(s: State, cur: nat, fd: nat): int
    requires cur in s.procs
  {
    var f := Resolve(s, cur, fd, STDOUT);
    if Live(s, f) && s.fds[f].kind == WriteEnd then s.fds[f].pipe else -1
  }

  predicate Reads(s: State, ev: Event, i: nat)
    requires Enabled(s, ev)
  {
    ev.Reading? && ReadFrom(s, ev.cur, ev.fd) == i
  }

  predicate Writes(s: State, ev: Event, i: nat)
    requires Enabled(s, ev)
  {
    ev.Writing? && WrittenTo(s, ev.cur, ev.fd) == i
  }

  /** P survives what descriptors do to a pipe. An end that is open can be opened again; a named pipe can be opened anew. */
  ghost predicate Closed(P: Pipe -> bool, named: bool) {
    && (forall p {:trigger OpenRead(p)} :: P(p) && (p.openRead > 0 || named) ==> P(OpenRead(p).0))
    && (forall p {:trigger OpenWrite(p)} :: P(p) && (p.openWrite > 0 || named) ==> P(OpenWrite(p).0))
    && (forall p {:trigger CloseRead(p)} :: P(p) && p.openRead > 0 ==> P(CloseRead(p).0))
    && (forall p {:trigger CloseWrite(p)} :: P(p) && p.openWrite > 0 ==> P(CloseWrite(p).0))
    && (forall p, pid {:trigger Forget(p, pid)} :: P(p) ==> P(Forget(p, pid)))
    && (named ==> forall p {:trigger Reopened(p)} :: P(p) ==> P(Reopened(p)))
  }

  function Reopened(p: Pipe): Pipe {
    p.(opens := p.opens + 1)
  }

  lemma IncrefKeeps(s: State, fd: int, i: nat, P: Pipe -> bool, named: bool)
    requires Agree(s) && i < MAX_PIPES && P(s.pipes[i]) && Closed(P, named)
    ensures P(Incref(s, fd).pipes[i])
  {
    hide PipeOk, FdOk, Wake;
    if Live(s, fd) && IsEnd(s.fds[fd]) { EndGives(s, fd); }
  }

  lemma DecrefKeeps(s: State, fd: int, i: nat, P: Pipe -> bool, named: bool)
    requires Agree(s) && i < MAX_PIPES && P(s.pipes[i]) && Closed(P, named)
    ensures P(Decref(s, fd).pipes[i])
  {
    hide PipeOk, FdOk, Wake;
    if Live(s, fd) && IsEnd(s.fds[fd]) { EndGives(s, fd); }
  }

  lemma CreatePipeFdKeeps(s: State, j: nat, kind: FDKind, i: nat, P: Pipe -> bool, named: bool)
    requires Agree(s) && i < MAX_PIPES && j < MAX_PIPES && kind in {ReadEnd, WriteEnd}
    requires P(s.pipes[i]) && Closed(P, named) && (i == j ==> named)
    ensures P(CreatePipeFd(s, j, kind).0.pipes[i])
  {
    hide PipeOk, FdOk, Wake;
  }

  lemma CreateFdsKeeps(s: State, j: nat, i: nat, P: Pipe -> bool, named: bool)
    requires Agree(s) && i < MAX_PIPES && j < MAX_PIPES && s.pipes[j].inUse
    requires P(s.pipes[i]) && Closed(P, named) && (i == j ==> named)
    ensures P(CreateFds(s, j).0.pipes[i])
  {
    hide PipeOk, FdOk, CreatePipeFd, Decref, Closed;
    CreatePipeFdAgrees(s, j, ReadEnd);
    CreatePipeFdKeeps(s, j, ReadEnd, i, P, named);
    var (s1, rd) := CreatePipeFd(s, j, ReadEnd);
    if rd >= 0 {
      CreatePipeFdAgrees(s1, j, WriteEnd);
      CreatePipeFdKeeps(s1, j, WriteEnd, i, P, named);
      var (s2, wr) := CreatePipeFd(s1, j, WriteEnd);
      if wr < 0 { DecrefKeeps(s2, rd, i, P, named); }
    }
  }

  /** A pipe in use is opened again only under its name. */
  lemma PipeOpenKeeps(s: State, name: Option<string>, i: nat, P: Pipe -> bool, named: bool)
    requires Agree(s) && i < MAX_PIPES && s.pipes[i].inUse && (s.pipes[i].named ==> named)
    requires P(s.pipes[i]) && Closed(P, named)
    ensures var (r, j) := PipeOpen(s, name); P(r.pipes[i]) && (i == j ==> named)
  {
    hide PipeOk, FdOk;
    var (r, j) := PipeOpen(s, name);
    assert i == j ==> r.pipes[i] == Reopened(s.pipes[i]);
  }

  lemma SwapKeeps(s: State, fd: int, pid: nat, which: nat, newFd: int, i: nat, P: Pipe -> bool, named: bool)
    requires Agree(s) && pid in s.procs && i < MAX_PIPES && P(s.pipes[i]) && Closed(P, named)
    ensures P(Incref(SetFd(s, pid, which, newFd), newFd).pipes[i])
    ensures pid in Decref(s, fd).procs && P(Incref(SetFd(Decref(s, fd), pid, which, newFd), newFd).pipes[i])
  {
    hide PipeOk, FdOk, Closed, Incref, Decref;
    OnPipeKeys(s, fd);
    DecrefAgrees(s, fd);
    DecrefKeeps(s, fd, i, P, named);
    OnlyProcs(s, SetFd(s, pid, which, newFd).procs);
    OnlyProcs(Decref(s, fd), SetFd(Decref(s, fd), pid, which, newFd).procs);
    IncrefKeeps(SetFd(s, pid, which, newFd), newFd, i, P, named);
    IncrefKeeps(SetFd(Decref(s, fd), pid, which, newFd), newFd, i, P, named);
  }

  lemma DieKeeps(s: State, pid: nat, i: nat, P: Pipe -> bool, named: bool)
    requires Agree(s) && pid in s.procs && i < MAX_PIPES && P(s.pipes[i]) && Closed(P, named)
    ensures P(Die(s, pid).pipes[i])
  {
    hide PipeOk, FdOk, Decref;
    var s1 := s.(pipes := ForgetAll(s.pipes, pid));
    PipeInRange(s);
    SameCounts(s, s1);
    assert P(s1.pipes[i]);
    var p := s.procs[pid];
    DecrefAgrees(s1, p.stdin);
    DecrefKeeps(s1, p.stdin, i, P, named);
    var s2 := if p.stdin >= 0 then Decref(s1, p.stdin) else s1;
    DecrefKeeps(s2, p.stdout, i, P, named);
  }

  /** Reads and writes on other pipes leave this one alone. */
  lemma TransferKeeps(s: State, ev: Event, i: nat)
    requires Agree(s) && Enabled(s, ev) && i < MAX_PIPES && (ev.Reading? || ev.Writing?) && !Reads(s, ev, i) && !Writes(s, ev, i)
    ensures Step(s, ev).pipes[i] == s.pipes[i]
  {
    hide PipeOk, FdOk, Wake;
  }

  /** What no read or write of pipe i breaks, and no step of a descriptor, every event keeps. */
  lemma EventKeeps(s: State, ev: Event, i: nat, P: Pipe -> bool, named: bool)
    requires Agree(s) && Enabled(s, ev) && i < MAX_PIPES && (s.pipes[i].named ==> named) && (ev.MakePipe? ==> s.pipes[i].inUse)
    requires P(s.pipes[i]) && Closed(P, named) && !Reads(s, ev, i) && !Writes(s, ev, i)
    ensures P(Step(s, ev).pipes[i])
  {
    hide PipeOk, FdOk, Closed, Incref, Decref, Die, SysRead, SysWrite, CreateFds, PipeOpen, Reads, Writes;
    match ev
    case Create(pid) =>
      var s0 := s.(procs := s.procs[pid := Proc(STDIN, STDOUT, false)]);
      OnlyProcs(s, s0.procs);
      IncrefAgrees(s0, STDIN);
      IncrefKeeps(s0, STDIN, i, P, named);
      IncrefKeeps(Incref(s0, STDIN), STDOUT, i, P, named);
    case MakePipe(name) =>
      PipeOpenAgrees(s, name);
      PipeOpenKeeps(s, name, i, P, named);
      var (s1, j) := PipeOpen(s, name);
      if j < MAX_PIPES { CreateFdsKeeps(s1, j, i, P, named); }
    case Dup(cur, oldFd, newFd) => SwapKeeps(s, FdOf(s.procs[cur], newFd), cur, newFd, oldFd, i, P, named);
    case Close(fd) => DecrefKeeps(s, fd, i, P, named);
    case Setup(pid, stdioFd, target) =>
      if pid in s.procs { SwapKeeps(s, FdOf(s.procs[pid], target), pid, target, stdioFd, i, P, named); }
    case Reading(_, _, _) => TransferKeeps(s, ev, i);
    case Writing(_, _, _) => TransferKeeps(s, ev, i);
    case Death(pid) => DieKeeps(s, pid, i, P, named);
  }

  /** What a read does to the pipe it is on. */
  lemma ReadsStep(s: State, ev: Event, i: nat)
    requires Agree(s) && Enabled(s, ev) && i < MAX_PIPES && Reads(s, ev, i)
    ensures var (p, result, woken) := Read(s.pipes[i], ev.cur, ev.count);
            && Step(s, ev).pipes[i] == p && SysRead(s, ev.cur, ev.fd, ev.count).1 == result
            && s.pipes[i].inUse && s.pipes[i].openRead > 0
  {
    hide PipeOk, FdOk, Wake, Read;
    EndGives(s, Resolve(s, ev.cur, ev.fd, STDIN));
  }

  lemma WritesStep(s: State, ev: Event, i: nat)
    requires Agree(s) && Enabled(s, ev) && i < MAX_PIPES && Writes(s, ev, i)
    ensures var (p, result, woken) := Write(s.pipes[i], ev.cur, ev.bytes);
            && Step(s, ev).pipes[i] == p && SysWrite(s, ev.cur, ev.fd, ev.bytes).1 == result
            && s.pipes[i].inUse && s.pipes[i].openWrite > 0
  {
    hide PipeOk, FdOk, Wake, Write;
    EndGives(s, Resolve(s, ev.cur, ev.fd, STDOUT));
  }

  // ---------------------------------------------------------------- the stream

  /** The bytes that writes of pipe i have accepted and that reads of it have returned, since it was allocated. */
  datatype History = History(written: seq<Byte>, taken: seq<Byte>)

  function Recorded(s: State, ev: Event, i: nat, h: History): History
    requires Sized(s) && Enabled(s, ev)
  {
    if Reads(s, ev, i) then
      match SysRead(s, ev.cur, ev.fd, ev.count).1
      case Got(bytes) => h.(taken := h.taken + bytes)
      case ReadBlocks => h
    else if Writes(s, ev, i) then
      match SysWrite(s, ev.cur, ev.fd, ev.bytes).1
      case Accepted(n) => if n <= |ev.bytes| then h.(written := h.written + ev.bytes[..n]) else h
      case WriteBlocks => h
    else h
  }

  /** What was written is what was read followed by what is in the buffer. */
  predicate Streams(p: Pipe, h: History) {
    h.written == h.taken + p.data
  }

  lemma ReadStreams(p: Pipe, cur: nat, count: nat, h: History)
    requires Streams(p, h)
    ensures var (p', result, _) := Read(p, cur, count);
            Streams(p', if result.Got? then h.(taken := h.taken + result.bytes) else h)
  {
    if count > 0 && p.data != [] {
      var n := if count < |p.data| then count else |p.data|;
      assert p.data == p.data[..n] + p.data[n..];
      assert h.taken + p.data == (h.taken + p.data[..n]) + p.data[n..];
    }
  }

  lemma WriteStreams(p: Pipe, cur: nat, bytes: seq<Byte>, h: History)
    requires Streams(p, h)
    ensures var (p', result, _) := Write(p, cur, bytes);
            && (result.Accepted? ==> result.count <= |bytes|)
            && Streams(p', if result.Accepted? then h.(written := h.written + bytes[..result.count]) else h)
  {
  }

  lemma StreamStep(s: State, ev: Event, i: nat, h: History)
    requires Agree(s) && Enabled(s, ev) && i < MAX_PIPES && s.pipes[i].inUse && Streams(s.pipes[i], h)
    ensures var p := Step(s, ev).pipes[i]; p.inUse ==> Streams(p, Recorded(s, ev, i, h))
  {
    hide PipeOk, FdOk, Step, SysRead, SysWrite, Streams, Enabled, Read, Write;
    if Reads(s, ev, i) {
      ReadsStep(s, ev, i);
      ReadStreams(s.pipes[i], ev.cur, ev.count, h);
    } else if Writes(s, ev, i) {
      WritesStep(s, ev, i);
      WriteStreams(s.pipes[i], ev.cur, ev.bytes, h);
    } else {
      DataClosed(s.pipes[i].data);
      EventKeeps(s, ev, i, p => SameData(p, s.pipes[i].data), true);
      var p := Step(s, ev).pipes[i];
      if p.inUse { StreamsData(s.pipes[i], p, h); }
    }
  }

  lemma StreamsData(p: Pipe, q: Pipe, h: History)
    requires Streams(p, h) && q.data == p.data
    ensures Streams(q, h)
  {
  }

  predicate SameData(p: Pipe, data: seq<Byte>) {
    p.inUse ==> p.data == data
  }

  lemma DataClosed(data: seq<Byte>)
    ensures Closed(p => SameData(p, data), true)
  {
    hide SameData, OpenRead, OpenWrite, CloseRead, CloseWrite, Forget, Reopened;
    forall p: Pipe | SameData(p, data)
      ensures SameData(OpenRead(p).0, data) && SameData(OpenWrite(p).0, data) && SameData(Reopened(p), data)
      ensures SameData(CloseRead(p).0, data) && SameData(CloseWrite(p).0, data)
    {
      DataStays(p, data);
    }
    forall p: Pipe, pid: nat | SameData(p, data) ensures SameData(Forget(p, pid), data) { DataOutlives(p, pid, data); }
  }

  lemma DataStays(p: Pipe, data: seq<Byte>)
    requires SameData(p, data)
    ensures SameData(OpenRead(p).0, data) && SameData(OpenWrite(p).0, data) && SameData(Reopened(p), data)
    ensures SameData(CloseRead(p).0, data) && SameData(CloseWrite(p).0, data)
  {
  }

  lemma DataOutlives(p: Pipe, pid: nat, data: seq<Byte>)
    requires SameData(p, data)
    ensures SameData(Forget(p, pid), data)
  {
  }

  /** Pipe i stays in use throughout the run. */
  ghost predicate Lives(s: State, evs: seq<Event>, i: nat)
    requires Sized(s) && Legal(s, evs)
    decreases |evs|
  {
    && i < MAX_PIPES && s.pipes[i].inUse && (evs != [] ==> Lives(Step(s, evs[0]), evs[1..], i))
  }

  function RecordedAll(s: State, evs: seq<Event>, i: nat, h: History): History
    requires Sized(s) && Legal(s, evs)
    decreases |evs|
  {
    if evs == [] then h else RecordedAll(Step(s, evs[0]), evs[1..], i, Recorded(s, evs[0], i, h))
  }

  /** As long as a pipe is in use, the bytes accepted by all writes are the bytes returned by all reads, in order,
      followed by those in the buffer. */
  lemma {:induction false} StreamRun(s: State, evs: seq<Event>, i: nat, h: History)
    requires Agree(s) && Legal(s, evs) && Lives(s, evs, i) && Streams(s.pipes[i], h)
    ensures Streams(Run(s, evs).pipes[i], RecordedAll(s, evs, i, h))
    decreases |evs|
  {
    hide Agree, Streams, Step, Enabled, Recorded;
    AgreeSized(s);
    if evs != [] {
      StepAgrees(s, evs[0]);
      StreamStep(s, evs[0], i, h);
      assert Lives(Step(s, evs[0]), evs[1..], i);
      StreamRun(Step(s, evs[0]), evs[1..], i, Recorded(s, evs[0], i, h));
    }
  }

  lemma AgreeSized(s: State)
    requires Agree(s)
    ensures Sized(s)
  {
  }

  // ---------------------------------------------------------------- from the allocation on

  lemma AllocatedEmpty(name: Option<string>)
    ensures Streams(NewPipe(name), History([], [])) && NewPipe(name).inUse
  {
  }

  lemma UnusedClosed()
    ensures Closed(p => p == Unused(), false)
  {
  }

  /** A slot is taken into use by pipe or pipe_open alone, and is empty then. */
  lemma AllocatedBy(s: State, ev: Event, i: nat)
    requires Agree(s) && Enabled(s, ev) && i < MAX_PIPES && s.pipes[i] == Unused() && Step(s, ev).pipes[i].inUse
    ensures ev.MakePipe? && Streams(Step(s, ev).pipes[i], History([], []))
  {
    hide PipeOk, FdOk, Step, Streams, Closed, CreateFds, PipeOpen, Enabled;
    UnusedClosed();
    if ev.MakePipe? {
      MadeEmpty(s, ev.name, i);
      assert Step(s, ev) == SysPipe(s, ev.name).0 by { MakePipeIs(s, ev.name); }
    } else {
      if Reads(s, ev, i) { ReadsStep(s, ev, i); }
      if Writes(s, ev, i) { WritesStep(s, ev, i); }
      EventKeeps(s, ev, i, p => p == Unused(), false);
    }
  }

  lemma MakePipeIs(s: State, name: Option<string>)
    requires Sized(s)
    ensures Step(s, MakePipe(name)) == SysPipe(s, name).0
  {
  }

  lemma MadeEmpty(s: State, name: Option<string>, i: nat)
    requires Agree(s) && i < MAX_PIPES && s.pipes[i] == Unused()
    ensures SysPipe(s, name).0.pipes[i].inUse ==> Streams(SysPipe(s, name).0.pipes[i], History([], []))
  {
    hide PipeOk, FdOk, Streams, Closed, CreateFds;
    PipeOpenAgrees(s, name);
    var (s1, j) := PipeOpen(s, name);
    if j < MAX_PIPES {
      AllocatedEmpty(name);
      DataClosed([]);
      assert i == j ==> s1.pipes[i] == NewPipe(name);
      CreateFdsKeeps(s1, j, i, p => SameData(p, []), true);
      var p := CreateFds(s1, j).0.pipes[i];
      if p.inUse { StreamsData(NewPipe(name), p, History([], [])); }
    }
  }

  /** From the event that allocates a pipe on, and as long as it is in use: the bytes returned by all reads, followed by
      those in the buffer, are the bytes accepted by all writes. */
  lemma StreamFromAllocation(s: State, ev: Event, evs: seq<Event>, i: nat)
    requires Agree(s) && Enabled(s, ev) && i < MAX_PIPES && !s.pipes[i].inUse
    requires Legal(Step(s, ev), evs) && Lives(Step(s, ev), evs, i)
    ensures ev.MakePipe?
    ensures var h := RecordedAll(Step(s, ev), evs, i, History([], []));
            h.written == h.taken + Run(Step(s, ev), evs).pipes[i].data
  {
    hide PipeOk, FdOk, Step, Enabled;
    assert s.pipes[i] == Unused() by { FreeIsUnused(s, i); }
    assert Step(s, ev).pipes[i].inUse;
    AllocatedBy(s, ev, i);
    StepAgrees(s, ev);
    StreamRun(Step(s, ev), evs, i, History([], []));
  }

  lemma FreeIsUnused(s: State, i: nat)
    requires Agree(s) && i < MAX_PIPES && !s.pipes[i].inUse
    ensures s.pipes[i] == Unused()
  {
  }

  // ---------------------------------------------------------------- end of file

  /** An anonymous pipe at the end of the file: no writer is left, and nothing to read. */
  predicate AtEnd(p: Pipe) {
    p.inUse && !p.named && p.openWrite == 0 && p.data == []
  }

  predicate EndedOrFree(p: Pipe) {
    p == Unused() || AtEnd(p)
  }

  lemma EndClosed()
    ensures Closed(EndedOrFree, false)
  {
  }

  /** End of file is permanent: on an anonymous pipe it lasts until the pipe is released. */
  lemma EndIsPermanent(s: State, ev: Event, i: nat)
    requires Agree(s) && Enabled(s, ev) && i < MAX_PIPES && AtEnd(s.pipes[i])
    ensures var p := Step(s, ev).pipes[i]; p == Unused() || AtEnd(p)
    ensures Reads(s, ev, i) ==> SysRead(s, ev.cur, ev.fd, ev.count).1 == Got([])
    ensures !Writes(s, ev, i)
  {
    hide PipeOk, FdOk, Step, SysRead, SysWrite, Enabled;
    if Reads(s, ev, i) {
      ReadsStep(s, ev, i);
    } else if Writes(s, ev, i) {
      WritesStep(s, ev, i);
    } else {
      EndClosed();
      EventKeeps(s, ev, i, EndedOrFree, false);
    }
  }

  lemma {:induction false} EndIsPermanentRun(s: State, evs: seq<Event>, i: nat)
    requires Agree(s) && Legal(s, evs) && Lives(s, evs, i) && AtEnd(s.pipes[i])
    ensures AtEnd(Run(s, evs).pipes[i])
    decreases |evs|
  {
    hide Agree, AtEnd, Step, Enabled;
    AgreeSized(s);
    if evs != [] {
      StepAgrees(s, evs[0]);
      EndIsPermanent(s, evs[0], i);
      assert Lives(Step(s, evs[0]), evs[1..], i);
      UnusedIsFree();
      EndIsPermanentRun(Step(s, evs[0]), evs[1..], i);
    }
  }

  lemma UnusedIsFree()
    ensures !Unused().inUse
  {
  }

  /** A read of an anonymous pipe sees the end of the file exactly when no writer is left and every byte that was
      accepted has been read. */
  lemma EndSeenIffDrained(s: State, ev: Event, i: nat, h: History)
    requires Agree(s) && Enabled(s, ev) && i < MAX_PIPES && Reads(s, ev, i) && ev.count > 0 && !s.pipes[i].named
    requires Streams(s.pipes[i], h)
    ensures SysRead(s, ev.cur, ev.fd, ev.count).1 == Got([]) <==> s.pipes[i].openWrite == 0 && h.taken == h.written
    ensures SysRead(s, ev.cur, ev.fd, ev.count).1 == Got([]) ==> AtEnd(Step(s, ev).pipes[i])
  {
    hide PipeOk, FdOk, Step, SysRead, Enabled;
    ReadsStep(s, ev, i);
    var p := s.pipes[i];
    assert h.taken == h.written <==> p.data == [];
  }

  /** The end of the file of a named pipe is marked only while no write end is open, on a pipe opened at least twice. */
  predicate MarkedRight(p: Pipe) {
    p.eof ==> p.named && p.openWrite == 0 && p.opens >= 2
  }

  lemma MarkedClosed()
    ensures Closed(MarkedRight, true)
  {
  }

  lemma MarkedStep(s: State, ev: Event, i: nat)
    requires Agree(s) && Enabled(s, ev) && i < MAX_PIPES && s.pipes[i].inUse && MarkedRight(s.pipes[i])
    ensures MarkedRight(Step(s, ev).pipes[i])
  {
    hide PipeOk, FdOk, Step, SysRead, SysWrite, Enabled;
    if Reads(s, ev, i) {
      ReadsStep(s, ev, i);
    } else if Writes(s, ev, i) {
      WritesStep(s, ev, i);
    } else {
      MarkedClosed();
      EventKeeps(s, ev, i, MarkedRight, true);
    }
  }

  /** A named pipe opened at least twice has its end marked when no write end is open. */
  predicate EndMarked(p: Pipe) {
    p.inUse ==> p.named && p.opens >= 2 && (p.openWrite == 0 ==> p.eof)
  }

  lemma EndMarkedClosed()
    ensures Closed(EndMarked, true)
  {
  }

  lemma EndMarkedStep(s: State, ev: Event, i: nat)
    requires Agree(s) && Enabled(s, ev) && i < MAX_PIPES && s.pipes[i].inUse && EndMarked(s.pipes[i])
    ensures EndMarked(Step(s, ev).pipes[i])
  {
    hide PipeOk, FdOk, Step, SysRead, SysWrite, Enabled;
    if Reads(s, ev, i) {
      ReadsStep(s, ev, i);
    } else if Writes(s, ev, i) {
      WritesStep(s, ev, i);
    } else {
      EndMarkedClosed();
      EventKeeps(s, ev, i, EndMarked, true);
    }
  }

  /** Over every run, for a named pipe from a moment on when it has been opened twice and has a writer or is marked: a read of
      it sees the end of the file exactly when no write end is open and every accepted byte has been read. */
  lemma {:induction false} NamedEndSeenIffDrained(s: State, evs: seq<Event>, i: nat, h: History, ev: Event)
    requires Agree(s) && Legal(s, evs) && Lives(s, evs, i) && Streams(s.pipes[i], h) && MarkedRight(s.pipes[i])
    requires s.pipes[i].named && s.pipes[i].opens >= 2 && (s.pipes[i].openWrite > 0 || s.pipes[i].eof)
    requires var r := Run(s, evs); Enabled(r, ev) && Reads(r, ev, i) && ev.count > 0
    ensures var r, g := Run(s, evs), RecordedAll(s, evs, i, h);
            SysRead(r, ev.cur, ev.fd, ev.count).1 == Got([]) <==> r.pipes[i].openWrite == 0 && g.taken == g.written
    decreases |evs|
  {
    hide Agree, Step, Enabled, Recorded, SysRead, Reads;
    AgreeSized(s);
    if evs != [] {
      StepAgrees(s, evs[0]);
      MarkedStep(s, evs[0], i);
      EndMarkedStep(s, evs[0], i);
      StreamStep(s, evs[0], i, h);
      assert Lives(Step(s, evs[0]), evs[1..], i);
      NamedEndSeenIffDrained(Step(s, evs[0]), evs[1..], i, Recorded(s, evs[0], i, h), ev);
    } else {
      ReadsStep(s, ev, i);
    }
  }

  /** In every run a read that sees the end of the file of any pipe, named or not, finds no write end open and every
      accepted byte read. */
  lemma {:induction false} EndIsTrue(s: State, evs: seq<Event>, i: nat, h: History, ev: Event)
    requires Agree(s) && Legal(s, evs) && Lives(s, evs, i) && Streams(s.pipes[i], h) && MarkedRight(s.pipes[i])
    requires var r := Run(s, evs); Enabled(r, ev) && Reads(r, ev, i) && ev.count > 0 && SysRead(r, ev.cur, ev.fd, ev.count).1 == Got([])
    ensures var r, g := Run(s, evs), RecordedAll(s, evs, i, h); r.pipes[i].openWrite == 0 && g.taken == g.written
    decreases |evs|
  {
    hide Agree, Step, Enabled, Recorded, SysRead, Reads;
    AgreeSized(s);
    if evs != [] {
      StepAgrees(s, evs[0]);
      MarkedStep(s, evs[0], i);
      StreamStep(s, evs[0], i, h);
      assert Lives(Step(s, evs[0]), evs[1..], i);
      EndIsTrue(Step(s, evs[0]), evs[1..], i, Recorded(s, evs[0], i, h), ev);
    } else {
      ReadsStep(s, ev, i);
    }
  }

  // ---------------------------------------------------------------- wake-ups

  /** On an anonymous pipe with one reader and one writer: a queued reader means an empty buffer and an open write end,
      a queued writer a full buffer and an open read end. */
  predicate Quiet(p: Pipe, reader: nat, writer: nat) {
    && !p.named
    && (p.readers == [] || p.readers == [reader]) && (p.writers == [] || p.writers == [writer])
    && (p.readers != [] ==> p.data == [] && p.openWrite > 0)
    && (p.writers != [] ==> |p.data| == BUFFER_SIZE && p.openRead > 0)
  }

  lemma QuietOpens(p: Pipe, reader: nat, writer: nat)
    requires Quiet(p, reader, writer)
    ensures Quiet(OpenRead(p).0, reader, writer) && Quiet(OpenWrite(p).0, reader, writer)
  {
  }

  lemma QuietCloses(p: Pipe, reader: nat, writer: nat)
    requires Quiet(p, reader, writer)
    ensures p.openRead > 0 ==> Quiet(CloseRead(p).0, reader, writer)
    ensures p.openWrite > 0 ==> Quiet(CloseWrite(p).0, reader, writer)
  {
  }

  lemma QuietForgets(p: Pipe, pid: nat, reader: nat, writer: nat)
    requires Quiet(p, reader, writer)
    ensures Quiet(Forget(p, pid), reader, writer)
  {
    RemovedFromOne(reader, pid);
    RemovedFromOne(writer, pid);
  }

  lemma RemovedFromOne(x: nat, pid: nat)
    ensures Removed([x], pid) == if x == pid then [] else [x]
  {
    assert [x][..0] == [];
  }

  lemma QuietClosed(reader: nat, writer: nat)
    ensures Closed(p => Quiet(p, reader, writer), false)
  {
    hide Quiet;
    forall p | Quiet(p, reader, writer)
      ensures Quiet(OpenRead(p).0, reader, writer) && Quiet(OpenWrite(p).0, reader, writer)
      ensures p.openRead > 0 ==> Quiet(CloseRead(p).0, reader, writer)
      ensures p.openWrite > 0 ==> Quiet(CloseWrite(p).0, reader, writer)
    {
      QuietOpens(p, reader, writer);
      QuietCloses(p, reader, writer);
    }
    forall p, pid | Quiet(p, reader, writer) ensures Quiet(Forget(p, pid), reader, writer) {
      QuietForgets(p, pid, reader, writer);
    }
  }

  /** Only this process reads pipe i, and only that one writes it. */
  predicate Solo(s: State, ev: Event, i: nat, reader: nat, writer: nat)
    requires Enabled(s, ev)
  {
    (Reads(s, ev, i) ==> ev.cur == reader) && (Writes(s, ev, i) ==> ev.cur == writer)
  }

  lemma ReadQuiet(p: Pipe, reader: nat, writer: nat, count: nat)
    requires Quiet(p, reader, writer) && |p.data| <= BUFFER_SIZE
    ensures Quiet(Read(p, reader, count).0, reader, writer)
  {
  }

  lemma WriteQuiet(p: Pipe, reader: nat, writer: nat, bytes: seq<Byte>)
    requires Quiet(p, reader, writer) && |p.data| <= BUFFER_SIZE
    ensures Quiet(Write(p, writer, bytes).0, reader, writer)
  {
  }

  lemma QuietStep(s: State, ev: Event, i: nat, reader: nat, writer: nat)
    requires Agree(s) && Enabled(s, ev) && i < MAX_PIPES && s.pipes[i].inUse
    requires Quiet(s.pipes[i], reader, writer) && Solo(s, ev, i, reader, writer)
    ensures Quiet(Step(s, ev).pipes[i], reader, writer)
  {
    hide PipeOk, FdOk, Step, SysRead, SysWrite, Enabled, Read, Write;
    PipeInRange(s);
    if Reads(s, ev, i) {
      ReadsStep(s, ev, i);
      ReadQuiet(s.pipes[i], reader, writer, ev.count);
    } else if Writes(s, ev, i) {
      WritesStep(s, ev, i);
      WriteQuiet(s.pipes[i], reader, writer, ev.bytes);
    } else {
      QuietClosed(reader, writer);
      EventKeeps(s, ev, i, p => Quiet(p, reader, writer), false);
    }
  }

  ghost predicate SoloRun(s: State, evs: seq<Event>, i: nat, reader: nat, writer: nat)
    requires Sized(s) && Legal(s, evs)
    decreases |evs|
  {
    evs == [] || (Solo(s, evs[0], i, reader, writer) && SoloRun(Step(s, evs[0]), evs[1..], i, reader, writer))
  }

  /** In every such run reader and writer are never parked together, and neither is parked without cause. */
  lemma {:induction false} QuietRun(s: State, evs: seq<Event>, i: nat, reader: nat, writer: nat)
    requires Agree(s) && Legal(s, evs) && Lives(s, evs, i) && SoloRun(s, evs, i, reader, writer)
    requires Quiet(s.pipes[i], reader, writer)
    ensures var p := Run(s, evs).pipes[i];
            && (p.readers != [] ==> p.data == [] && p.openWrite > 0)
            && (p.writers != [] ==> |p.data| == BUFFER_SIZE && p.openRead > 0)
            && (p.readers == [] || p.writers == [])
    decreases |evs|
  {
    hide Agree, Step, Enabled, Solo;
    AgreeSized(s);
    if evs != [] {
      StepAgrees(s, evs[0]);
      QuietStep(s, evs[0], i, reader, writer);
      assert Lives(Step(s, evs[0]), evs[1..], i);
      QuietRun(Step(s, evs[0]), evs[1..], i, reader, writer);
    }
  }

  // ---------------------------------------------------------------- a pipe without descriptors

  /** In use, anonymous, and referred to by no descriptor. */
  predicate Stranded(p: Pipe) {
    p.inUse && !p.named && p.openRead == 0 && p.openWrite == 0
  }

  /** A descriptor for one end of a pipe that nobody waits on. */
  lemma CreatesEnd(s: State, i: nat, kind: FDKind)
    requires Sized(s) && i < MAX_PIPES && kind in {ReadEnd, WriteEnd} && !s.pipes[i].named
    ensures var (r, fd), f := CreatePipeFd(s, i, kind), FreeFd(s.fds, 0); var p := s.pipes[i];
            if f == MAX_FDS then r == s && fd == -1
            else
              && fd == f && r.fds == s.fds[f := FD(kind, 1, i)]
              && r.pipes[i] == if kind == ReadEnd then p.(openRead := p.openRead + 1) else p.(openWrite := p.openWrite + 1)
  {
  }

  /** pipe with a free slot in the pipe table: it succeeds exactly when two descriptors are free; with one free it undoes
      its work; with none it leaves the pipe in use and without descriptors. */
  lemma StrandedIffNoDescriptor(s: State)
    requires Sized(s) && FreePipe(s.pipes, 0) < MAX_PIPES
    ensures var i, fd := FreePipe(s.pipes, 0), FreeFd(s.fds, 0);
            var (r, result) := SysPipe(s, None);
            && (Stranded(r.pipes[i]) <==> fd == MAX_FDS)
            && (r.pipes[i] == Unused() <==> fd < MAX_FDS && FreeFd(s.fds, fd + 1) == MAX_FDS)
            && (result.Some? <==> fd < MAX_FDS && FreeFd(s.fds, fd + 1) < MAX_FDS)
            && (result.Some? ==> r.pipes[i].openRead == r.pipes[i].openWrite == 1)
  {
    hide Wake, CreatePipeFd, Decref, Sized;
    var i, fd := FreePipe(s.pipes, 0), FreeFd(s.fds, 0);
    SizedGives(s);
    var s1 := PipeOpen(s, None).0;
    assert s1.fds == s.fds && s1.pipes[i] == NewPipe(None) && Sized(s1);
    SizedGives(s1);
    CreatesEnd(s1, i, ReadEnd);
    if fd < MAX_FDS {
      var s2 := CreatePipeFd(s1, i, ReadEnd).0;
      NextFreeFd(s.fds, fd, FD(ReadEnd, 1, i));
      CreatesEnd(s2, i, WriteEnd);
      if FreeFd(s.fds, fd + 1) == MAX_FDS { GivesBack(s2, i, fd); }
    }
  }

  lemma SizedGives(s: State)
    requires Sized(s)
    ensures |s.pipes| == MAX_PIPES && |s.fds| == MAX_FDS
  {
  }

  lemma GivesBack(s: State, i: nat, fd: nat)
    requires Sized(s) && i < MAX_PIPES && fd < MAX_FDS && s.fds[fd] == FD(ReadEnd, 1, i)
    requires s.pipes[i].openRead == 1 && s.pipes[i].openWrite == 0
    ensures Decref(s, fd).pipes[i] == Unused()
  {
    hide Wake;
  }

  /** With the first free descriptor taken, the next free one is the first after it. */
  lemma NextFreeFd(fds: seq<FD>, fd: nat, d: FD)
    requires fd == FreeFd(fds, 0) < |fds| && d.kind != NoFd
    ensures FreeFd(fds[fd := d], 0) == FreeFd(fds, fd + 1)
  {
    var a, b := FreeFd(fds[fd := d], 0), FreeFd(fds, fd + 1);
    FreeFdSkips(fds[fd := d], fd + 1);
    FreeFdSame(fds, fds[fd := d], fd + 1);
  }

  lemma {:induction false} FreeFdSame(fds: seq<FD>, gds: seq<FD>, i: nat)
    requires |fds| == |gds| && i <= |fds| && forall k :: i <= k < |fds| ==> fds[k] == gds[k]
    ensures FreeFd(fds, i) == FreeFd(gds, i)
    decreases |fds| - i
  {
    if i < |fds| { FreeFdSame(fds, gds, i + 1); }
  }

  lemma {:induction false} FreeFdSkips(fds: seq<FD>, n: nat)
    requires n <= |fds| && forall k :: 0 <= k < n ==> fds[k].kind != NoFd
    ensures FreeFd(fds, 0) == FreeFd(fds, n)
  {
    if n > 0 { FreeFdSkips(fds, n - 1); }
  }

  lemma StrandedClosed()
    ensures Closed(Stranded, false)
  {
  }

  /** Nothing ever frees such a pipe: its slot is lost for good. */
  lemma StrandedForever(s: State, ev: Event, i: nat)
    requires Agree(s) && Enabled(s, ev) && i < MAX_PIPES && Stranded(s.pipes[i])
    ensures Stranded(Step(s, ev).pipes[i])
  {
    hide PipeOk, FdOk, Step, SysRead, SysWrite, Enabled;
    if Reads(s, ev, i) {
      ReadsStep(s, ev, i);
    } else if Writes(s, ev, i) {
      WritesStep(s, ev, i);
    } else {
      StrandedClosed();
      EventKeeps(s, ev, i, Stranded, false);
    }
  }
}
