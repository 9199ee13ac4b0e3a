/** Bytes from one process to another: through a pair of descriptors, and through a pipeline as the shell sets it up. */
module Pipeline {
  import opened Basics
  import opened PipeSpec
  import opened PipeLaws
  import opened PipeRuns
  import opened PipeEnds
  import opened FdLedger

  // ---------------------------------------------------------------- dup2 and the redirection of a child

  /** The descriptor `which` (0 for stdin, 1 for stdout) of this process is now fd, with one reference more; the one it
      had has one less, and nobody's other descriptor changed. */
  ghost predicate Replaced(s: State, r: State, pid: nat, which: nat, fd: int)
    requires pid in s.procs && Live(s, fd) && Sized(s) && Sized(r)
  {
    var p, was := s.procs[pid], FdOf(s.procs[pid], which);
    && SameSlots(s.procs[pid := if which == 0 then p.(stdin := fd) else p.(stdout := fd)], r.procs)
    && forall k :: 0 <= k < MAX_FDS ==>
         r.fds[k] == if k == fd then s.fds[k].(refs := s.fds[k].refs + 1)
                     else if k == was && s.fds[k].kind != NoFd then Less(s.fds[k]) else s.fds[k]
  }

  /** dup2 refuses anything but 0 and 1 as the descriptor to replace and a number that is not live to replace it with;
      otherwise it returns that number, and replaces exactly the descriptor named, unless it is that one already. */
  lemma DupReplaces(s: State, cur: nat, oldFd: nat, newFd: nat)
    requires Sized(s) && cur in s.procs
    ensures var (r, result) := Dup2(s, cur, oldFd, newFd);
            if newFd > 1 || !Live(s, oldFd) then result == -1 && r == s
            else
              && result == oldFd
              && if (newFd == 0 && s.procs[cur].stdin == oldFd) || (newFd == 1 && s.procs[cur].stdout == oldFd) then r == s
                 else FdOf(s.procs[cur], newFd) >= 0 ==> Replaced(s, r, cur, newFd, oldFd)
  {
    hide Incref, Decref, SameSlots;
    if newFd <= 1 && Live(s, oldFd) && FdOf(s.procs[cur], newFd) != oldFd { SwapIs(s, cur, newFd, oldFd); }
  }

  lemma SetupReplaces(s: State, pid: nat, fd: int, target: nat)
    requires Sized(s) && pid in s.procs && target <= 1 && Live(s, fd) && 0 <= FdOf(s.procs[pid], target) != fd
    ensures Replaced(s, PipeSetup(s, pid, fd, target), pid, target, fd)
  {
    hide Incref, Decref, SameSlots;
    SwapIs(s, pid, target, fd);
  }

  // ---------------------------------------------------------------- through two descriptors

  /** A pipe without bytes, with somebody at both ends. */
  predicate Fresh(p: Pipe) {
    p.inUse && p.data == [] && p.openRead > 0 && p.openWrite > 0
  }

  /** What one process writes on one descriptor, another reads from the other: as much as fits, from the start, in order. */
  lemma Through(s: State, a: nat, wr: nat, b: nat, rd: nat, i: nat, bytes: seq<Byte>, count: nat)
    requires Sized(s) && a in s.procs && b in s.procs && i < MAX_PIPES && Fresh(s.pipes[i]) && bytes != [] && count > 0
    requires WrittenTo(s, a, wr) == i && ReadFrom(s, b, rd) == i
    ensures var (s1, put) := SysWrite(s, a, wr, bytes); var n := Least(|bytes|, 4096);
            && put == Accepted(n) && b in s1.procs
            && SysRead(s1, b, rd, count).1 == Got(bytes[..Least(n, count)])
  {
    hide SysWrite, SysRead, ReadFrom, WrittenTo, Fresh;
    PutIn(s, a, wr, b, i, bytes);
    var s1 := SysWrite(s, a, wr, bytes).0;
    SameEnd(s, s1, b, rd);
    TakenOut(s1, b, rd, i, bytes[..Least(|bytes|, 4096)], count);
  }

  lemma PutIn(s: State, a: nat, wr: nat, b: nat, i: nat, bytes: seq<Byte>)
    requires Sized(s) && a in s.procs && b in s.procs && i < MAX_PIPES && Fresh(s.pipes[i]) && bytes != [] && WrittenTo(s, a, wr) == i
    ensures var (s1, put) := SysWrite(s, a, wr, bytes); var n := Least(|bytes|, 4096);
            && put == Accepted(n) && s1.pipes[i].data == bytes[..n] && s1.fds == s.fds
            && b in s1.procs && s1.procs[b].stdin == s.procs[b].stdin
  {
    hide Wake, Write;
    WriteMoves(s.pipes[i], a, bytes);
    WakeKeys(s.procs, Write(s.pipes[i], a, bytes).2);
  }

  lemma SameEnd(s: State, r: State, b: nat, rd: nat)
    requires b in s.procs && b in r.procs && r.fds == s.fds && r.procs[b].stdin == s.procs[b].stdin
    ensures ReadFrom(r, b, rd) == ReadFrom(s, b, rd)
  {
  }

  lemma TakenOut(s: State, b: nat, rd: nat, i: nat, q: seq<Byte>, count: nat)
    requires Sized(s) && b in s.procs && i < MAX_PIPES && ReadFrom(s, b, rd) == i && s.pipes[i].data == q && q != [] && count > 0
    ensures SysRead(s, b, rd, count).1 == Got(q[..Least(|q|, count)])
  {
    hide Wake, Read;
    ReadMoves(s.pipes[i], b, count);
    Prefix(q, Read(s.pipes[i], b, count).1.bytes, Read(s.pipes[i], b, count).0.data);
  }

  lemma Prefix(q: seq<Byte>, x: seq<Byte>, y: seq<Byte>)
    requires x + y == q
    ensures x == q[..|x|]
  {
  }

  /** The descriptors that pipe returns, in the order it returns them. */
  lemma PairRoundTrip(s: State, a: nat, b: nat, bytes: seq<Byte>, count: nat)
    requires Agree(s) && a in s.procs && b in s.procs && s.fds[STDIN].kind == s.fds[STDOUT].kind == Terminal
    requires SysPipe(s, None).1.Some? && bytes != [] && count > 0
    ensures var (s1, ends) := SysPipe(s, None); var (rd, wr) := ends.value;
            && rd > 0 && wr > 0 && a in s1.procs && b in s1.procs
            && var (s2, put) := SysWrite(s1, a, wr, bytes); var n := Least(|bytes|, 4096);
               && put == Accepted(n) && b in s2.procs
               && SysRead(s2, b, rd, count).1 == Got(bytes[..Least(n, count)])
  {
    hide SysPipe, SysRead, SysWrite, PipeOk, FdOk;
    var i := PairIs(s, None);
    var (s1, ends) := SysPipe(s, None);
    Through(s1, a, ends.value.1, b, ends.value.0, i, bytes, count);
  }

  // ---------------------------------------------------------------- the shell's pipeline

  /** Of all descriptors only these two are on pipe i: the read end and the write end. */
  ghost predicate OnlyEnds(fds: seq<FD>, i: nat, rd: int, wr: int) {
    && 0 <= rd < |fds| && 0 <= wr < |fds| && fds[rd].kind == ReadEnd && fds[wr].kind == WriteEnd
    && fds[rd].pipe == fds[wr].pipe == i
    && forall k :: 0 <= k < |fds| && k != rd && k != wr && IsEnd(fds[k]) ==> fds[k].pipe != i
  }

  /** The pipe is empty, process a has its write end and process b its read end, and each end has n references. */
  ghost predicate Plumbed(s: State, a: nat, b: nat, i: nat, rd: int, wr: int, n: nat) {
    Holds(s, a, b, i, rd, wr, []) && s.fds[rd].refs == s.fds[wr].refs == n
  }

  /** Nobody else refers to either end. */
  ghost predicate Connected(s: State, a: nat, b: nat, i: nat, rd: int, wr: int) {
    Plumbed(s, a, b, i, rd, wr, 1)
  }

  /** The pipe holds these bytes, and the two processes have its ends. */
  ghost predicate Holds(s: State, a: nat, b: nat, i: nat, rd: int, wr: int, q: seq<Byte>) {
    && Agree(s) && i < MAX_PIPES && s.pipes[i].data == q && !s.pipes[i].named && OnlyEnds(s.fds, i, rd, wr)
    && a != b && a in s.procs && b in s.procs && s.procs[a].stdin == STDIN && s.procs[a].stdout == wr && s.procs[b].stdin == rd
    && s.fds[STDIN].kind == Terminal
  }

  /** What the shell does once it has the pair and the two children, both still blocked and on the terminal. */
  function Plumbing(a: nat, b: nat, rd: nat, wr: nat): seq<Event> {
    [Setup(a, wr, 1), Setup(b, rd, 0), Close(rd), Close(wr)]
  }

  lemma PlumbingIsLegal(s: State, a: nat, b: nat, rd: nat, wr: nat)
    requires Sized(s)
    ensures Legal(s, Plumbing(a, b, rd, wr))
    ensures var s1 := PipeSetup(s, a, wr, 1); var s2 := PipeSetup(s1, b, rd, 0); var s3 := Decref(s2, rd);
            Run(s, Plumbing(a, b, rd, wr)) == Decref(s3, wr)
  {
    hide PipeSetup, Decref, Legal, Run, Plumbing, Sized;
    RunNothing(Decref(Decref(PipeSetup(PipeSetup(s, a, wr, 1), b, rd, 0), rd), wr));
    var s1 := PipeSetup(s, a, wr, 1);
    var s2 := PipeSetup(s1, b, rd, 0);
    var s3 := Decref(s2, rd);
    var last := [Close(wr)] + [];
    var two := [Close(rd)] + last;
    var three := [Setup(b, rd, 0)] + two;
    Pieces(a, b, rd, wr);
    OneThen(s3, Close(wr), [], Decref(s3, wr));
    OneThen(s2, Close(rd), last, s3);
    OneThen(s1, Setup(b, rd, 0), two, s2);
    OneThen(s, Setup(a, wr, 1), three, s1);
  }

  lemma Pieces(a: nat, b: nat, rd: nat, wr: nat)
    ensures Plumbing(a, b, rd, wr) == [Setup(a, wr, 1)] + ([Setup(b, rd, 0)] + ([Close(rd)] + ([Close(wr)] + [])))
  {
  }

  lemma RunNothing(s: State)
    requires Sized(s)
    ensures Legal(s, []) && Run(s, []) == s
  {
  }

  lemma OneThen(s: State, ev: Event, rest: seq<Event>, r: State)
    requires Sized(s) && (ev.Setup? || ev.Close?) && r == Step(s, ev) && Legal(r, rest)
    ensures Legal(s, [ev] + rest) && Run(s, [ev] + rest) == Run(r, rest)
  {
    hide Step;
    assert ([ev] + rest)[1..] == rest;
  }

  /** No event but a read or a write of pipe i changes its bytes while it stays in use. */
  lemma DataStill(s: State, ev: Event, i: nat)
    requires Agree(s) && Enabled(s, ev) && i < MAX_PIPES && s.pipes[i].inUse && !s.pipes[i].named && s.pipes[i].data == []
    requires ev.Setup? || ev.Close? || ev.Death?
    ensures Agree(Step(s, ev)) && Step(s, ev).pipes[i].data == [] && !Step(s, ev).pipes[i].named
  {
    hide PipeOk, FdOk, Step, Enabled;
    StepAgrees(s, ev);
    BlankClosed();
    EventKeeps(s, ev, i, Blank, false);
  }

  predicate Blank(p: Pipe) {
    p.data == [] && !p.named
  }

  lemma BlankClosed()
    ensures Closed(Blank, false)
  {
  }

  lemma EndInUse(s: State, k: nat)
    requires Agree(s) && k < MAX_FDS && IsEnd(s.fds[k])
    ensures s.fds[k].pipe < MAX_PIPES && s.pipes[s.fds[k].pipe].inUse
  {
    hide Refs;
    EndGives(s, k);
  }

  /** The shell's pipeline: from any state in which pipe returns a pair, setting up the two children and closing the
      shell's own references leaves them connected, and the pipe empty. */
  lemma ShellConnects(s: State, a: nat, b: nat) returns (i: nat)
    requires Agree(s) && a != b && a in s.procs && b in s.procs && s.procs[a] == s.procs[a].(stdin := STDIN, stdout := STDOUT)
    requires s.procs[b].stdin == STDIN && s.fds[STDIN].kind == s.fds[STDOUT].kind == Terminal && SysPipe(s, None).1.Some?
    ensures var (s1, ends) := SysPipe(s, None); var (rd, wr) := ends.value;
            && rd >= 0 && wr >= 0 && Legal(s1, Plumbing(a, b, rd, wr))
            && Connected(Run(s1, Plumbing(a, b, rd, wr)), a, b, i, rd, wr)
  {
    hide SysPipe, PipeOk, FdOk, Incref, Decref, PipeSetup, SameSlots, Run, Legal, Step;
    i := PairIs(s, None);
    var (s1, ends) := SysPipe(s, None);
    var (rd, wr) := ends.value;
    PlumbingIsLegal(s1, a, b, rd, wr);
    NobodyOn(s, i);
    MadeAgrees(s);
    var s3 := ShellSetsUp(s1, a, b, i, rd, wr);
    ShellCloses(s3, a, b, i, rd, wr);
  }

  lemma ShellSetsUp(s: State, a: nat, b: nat, i: nat, rd: int, wr: int) returns (r: State)
    requires Agree(s) && i < MAX_PIPES && s.pipes[i].inUse && s.pipes[i].data == [] && !s.pipes[i].named
    requires OnlyEnds(s.fds, i, rd, wr) && s.fds[rd].refs == s.fds[wr].refs == 1
    requires a != b && a in s.procs && b in s.procs && s.procs[a].stdin == STDIN && s.procs[a].stdout == STDOUT && s.procs[b].stdin == STDIN
    requires s.fds[STDIN].kind == s.fds[STDOUT].kind == Terminal
    ensures r == PipeSetup(PipeSetup(s, a, wr, 1), b, rd, 0) && Plumbed(r, a, b, i, rd, wr, 2)
  {
    hide PipeOk, FdOk, Incref, Decref, PipeSetup, SameSlots;
    var s2 := PipeSetup(s, a, wr, 1);
    SetupStep(s, a, wr, 1, i);
    SetupReplaces(s, a, wr, 1);
    SlotsReplaced(s, s2, a, 1, wr, b);
    EndInUse(s2, wr);
    r := PipeSetup(s2, b, rd, 0);
    SetupStep(s2, b, rd, 0, i);
    SetupReplaces(s2, b, rd, 0);
    SlotsReplaced(s2, r, b, 0, rd, a);
  }

  lemma ShellCloses(s: State, a: nat, b: nat, i: nat, rd: int, wr: int)
    requires Plumbed(s, a, b, i, rd, wr, 2)
    ensures Connected(Decref(Decref(s, rd), wr), a, b, i, rd, wr)
  {
    hide PipeOk, FdOk, Decref, SameSlots;
    EndInUse(s, wr);
    CloseStep(s, rd, i);
    DecrefIs(s, rd);
    var s1 := Decref(s, rd);
    SlotsKept(s, s1, a, b);
    EndInUse(s1, wr);
    CloseStep(s1, wr, i);
    DecrefIs(s1, wr);
    SlotsKept(s1, Decref(s1, wr), a, b);
  }

  lemma MadeAgrees(s: State)
    requires Agree(s)
    ensures Agree(SysPipe(s, None).0)
  {
    hide PipeOk, FdOk, Step;
    StepAgrees(s, MakePipe(None));
    MakePipeIs(s, None);
  }

  /** No descriptor is on a pipe that is not in use. */
  lemma NobodyOn(s: State, i: nat)
    requires Agree(s) && i < MAX_PIPES && !s.pipes[i].inUse
    ensures forall k :: 0 <= k < MAX_FDS && IsEnd(s.fds[k]) ==> s.fds[k].pipe != i
  {
    hide Refs;
    forall k | 0 <= k < MAX_FDS && IsEnd(s.fds[k]) ensures s.fds[k].pipe != i { assert FdOk(s.pipes, s.fds[k]); }
  }

  lemma SetupStep(s: State, pid: nat, fd: int, target: nat, i: nat)
    requires Agree(s) && i < MAX_PIPES && s.pipes[i].inUse && !s.pipes[i].named && s.pipes[i].data == []
    ensures var r := PipeSetup(s, pid, fd, target); Agree(r) && r.pipes[i].data == [] && !r.pipes[i].named
  {
    hide PipeOk, FdOk, PipeSetup;
    DataStill(s, Setup(pid, fd, target), i);
  }

  lemma CloseStep(s: State, fd: nat, i: nat)
    requires Agree(s) && i < MAX_PIPES && s.pipes[i].inUse && !s.pipes[i].named && s.pipes[i].data == []
    ensures var r := Decref(s, fd); Agree(r) && r.pipes[i].data == [] && !r.pipes[i].named
  {
    hide PipeOk, FdOk, Decref;
    DataStill(s, Close(fd), i);
  }

  lemma SlotsReplaced(s: State, r: State, pid: nat, which: nat, fd: int, other: nat)
    requires pid in s.procs && other in s.procs && other != pid && which <= 1 && Sized(s) && Sized(r) && Live(s, fd)
    requires Replaced(s, r, pid, which, fd)
    ensures pid in r.procs && other in r.procs
    ensures r.procs[pid].stdin == (if which == 0 then fd else s.procs[pid].stdin)
    ensures r.procs[pid].stdout == (if which == 1 then fd else s.procs[pid].stdout)
    ensures r.procs[other].stdin == s.procs[other].stdin && r.procs[other].stdout == s.procs[other].stdout
  {
    assert pid in r.procs.Keys && other in r.procs.Keys;
  }

  lemma SlotsKept(s: State, r: State, a: nat, b: nat)
    requires SameSlots(s.procs, r.procs) && a in s.procs && b in s.procs
    ensures a in r.procs && b in r.procs
    ensures r.procs[a].stdin == s.procs[a].stdin && r.procs[a].stdout == s.procs[a].stdout && r.procs[b].stdin == s.procs[b].stdin
  {
    SlotOf(s.procs, r.procs, a);
    SlotOf(s.procs, r.procs, b);
  }

  // ---------------------------------------------------------------- what goes through it, and how it ends

  lemma {:induction false} RefsNone(fds: seq<FD>, i: nat, kind: FDKind)
    requires forall k :: 0 <= k < |fds| ==> !(fds[k].kind == kind && fds[k].pipe == i)
    ensures Refs(fds, i, kind) == 0
  {
    if fds != [] { RefsNone(fds[..|fds| - 1], i, kind); }
  }

  lemma ConnectedIsFresh(s: State, a: nat, b: nat, i: nat, rd: int, wr: int)
    requires Connected(s, a, b, i, rd, wr)
    ensures Sized(s) && i < MAX_PIPES && a in s.procs && b in s.procs
    ensures Fresh(s.pipes[i]) && WrittenTo(s, a, STDOUT) == i && ReadFrom(s, b, STDIN) == i
  {
    hide PipeOk, FdOk;
    EndGives(s, rd);
    EndGives(s, wr);
  }

  /** Once connected: what the writer puts out, up to the size of the buffer, the reader gets, in order, also when the
      writer has died in between; and having read it all, it sees the end of the file. */
  lemma PipelineCarries(s: State, a: nat, b: nat, i: nat, rd: int, wr: int, bytes: seq<Byte>, count: nat)
    requires Connected(s, a, b, i, rd, wr) && bytes != [] && count > 0
    ensures var (s1, put) := SysWrite(s, a, STDOUT, bytes); var n := Least(|bytes|, 4096);
            && put == Accepted(n) && a in s1.procs && b in s1.procs && b in Die(s1, a).procs
            && SysRead(s1, b, STDIN, count).1 == Got(bytes[..Least(n, count)])
            && var (s2, got) := SysRead(Die(s1, a), b, STDIN, count);
               && got == Got(bytes[..Least(n, count)]) && b in s2.procs
               && (count >= n ==> SysRead(s2, b, STDIN, count).1 == Got([]))
  {
    hide PipeOk, FdOk, SysWrite, SysRead, Die, Connected, OnlyEnds;
    ConnectedIsFresh(s, a, b, i, rd, wr);
    Through(s, a, STDOUT, b, STDIN, i, bytes, count);
    var s1 := SysWrite(s, a, STDOUT, bytes).0;
    Written(s, a, b, i, rd, wr, bytes);
    var s2 := Die(s1, a);
    WriterDies(s1, a, b, i, rd, wr, bytes[..Least(|bytes|, 4096)]);
    LastRead(s2, b, i, count, bytes[..Least(|bytes|, 4096)]);
  }

  lemma Written(s: State, a: nat, b: nat, i: nat, rd: int, wr: int, bytes: seq<Byte>)
    requires Connected(s, a, b, i, rd, wr) && bytes != []
    ensures var r := SysWrite(s, a, STDOUT, bytes).0;
            Holds(r, a, b, i, rd, wr, bytes[..Least(|bytes|, 4096)]) && r.fds[wr].refs == 1
  {
    hide PipeOk, FdOk, OnlyEnds, Wake, Write;
    ConnectedIsFresh(s, a, b, i, rd, wr);
    assert OnlyEnds(s.fds, i, rd, wr);
    WritingAgrees(s, a, STDOUT, bytes);
    WriteMoves(s.pipes[i], a, bytes);
    WakeKeys(s.procs, Write(s.pipes[i], a, bytes).2);
  }

  lemma WriterDies(s: State, a: nat, b: nat, i: nat, rd: int, wr: int, q: seq<Byte>)
    requires Holds(s, a, b, i, rd, wr, q) && s.fds[wr].refs == 1
    ensures var r := Die(s, a);
            && Sized(r) && i < MAX_PIPES && r.pipes[i].data == q && r.pipes[i].openWrite == 0 && !r.pipes[i].named
            && b in r.procs && ReadFrom(r, b, STDIN) == i
  {
    hide PipeOk, FdOk, Die, SameSlots;
    DieSlots(s, a, b);
    DieAgrees(s, a);
    var r := Die(s, a);
    DiedData(s, a, i, q);
    DiedFds(s, a, i, rd, wr);
    RefsNone(r.fds, i, WriteEnd);
    WritersCounted(r, i);
    EndInUse(r, rd);
  }

  lemma WritersCounted(s: State, i: nat)
    requires Agree(s) && i < MAX_PIPES
    ensures s.pipes[i].openWrite == Refs(s.fds, i, WriteEnd)
  {
    hide Refs;
    assert PipeOk(s.pipes[i], s.fds, i);
  }

  lemma DiedFds(s: State, a: nat, i: nat, rd: int, wr: int)
    requires Sized(s) && OnlyEnds(s.fds, i, rd, wr) && s.fds[wr].refs == 1 && a in s.procs
    requires s.procs[a].stdin == STDIN && s.procs[a].stdout == wr && s.fds[STDIN].kind == Terminal
    ensures var r := Die(s, a);
            && r.fds[rd] == s.fds[rd]
            && forall k :: 0 <= k < MAX_FDS ==> !(r.fds[k].kind == WriteEnd && r.fds[k].pipe == i)
  {
    hide Decref, SameSlots;
    var s1 := s.(pipes := ForgetAll(s.pipes, a));
    DecrefIs(s1, STDIN);
    DecrefIs(Decref(s1, STDIN), wr);
  }

  lemma DieSlots(s: State, a: nat, b: nat)
    requires Sized(s) && a in s.procs && b in s.procs && a != b
    ensures b in Die(s, a).procs && Die(s, a).procs[b].stdin == s.procs[b].stdin
  {
    hide Decref, SameSlots;
    var p, s1 := s.procs[a], s.(pipes := ForgetAll(s.pipes, a));
    DecrefIs(s1, p.stdin);
    var s2 := if p.stdin >= 0 then Decref(s1, p.stdin) else s1;
    SelfSlots(s.procs);
    DecrefIs(s2, p.stdout);
    var s3 := if p.stdout >= 0 then Decref(s2, p.stdout) else s2;
    SelfSlots(s2.procs);
    SlotOf(s.procs, s2.procs, b);
    SlotOf(s2.procs, s3.procs, b);
  }

  lemma DiedData(s: State, a: nat, i: nat, q: seq<Byte>)
    requires Agree(s) && a in s.procs && i < MAX_PIPES && s.pipes[i].data == q && !s.pipes[i].named
    ensures var p := Die(s, a).pipes[i]; (p.inUse ==> p.data == q) && !p.named
  {
    hide PipeOk, FdOk, Die;
    KeptClosed(q);
    PipeRuns.DieKeeps(s, a, i, p => Kept(p, q), false);
  }

  predicate Kept(p: Pipe, q: seq<Byte>) {
    (p.inUse ==> p.data == q) && !p.named
  }

  lemma KeptClosed(q: seq<Byte>)
    ensures Closed(p => Kept(p, q), false)
  {
    hide Kept, OpenRead, OpenWrite, CloseRead, CloseWrite, Forget, Reopened;
    forall p: Pipe | Kept(p, q)
      ensures Kept(OpenRead(p).0, q) && Kept(OpenWrite(p).0, q) && Kept(CloseRead(p).0, q) && Kept(CloseWrite(p).0, q)
    {
      KeptOne(p, q);
    }
    forall p: Pipe, pid: nat | Kept(p, q) ensures Kept(Forget(p, pid), q) { KeptForget(p, pid, q); }
  }

  lemma KeptOne(p: Pipe, q: seq<Byte>)
    requires Kept(p, q)
    ensures Kept(OpenRead(p).0, q) && Kept(OpenWrite(p).0, q) && Kept(CloseRead(p).0, q) && Kept(CloseWrite(p).0, q)
  {
  }

  lemma KeptForget(p: Pipe, pid: nat, q: seq<Byte>)
    requires Kept(p, q)
    ensures Kept(Forget(p, pid), q)
  {
  }

  /** The last bytes, and then the end. */
  lemma LastRead(s: State, b: nat, i: nat, count: nat, q: seq<Byte>)
    requires Sized(s) && i < MAX_PIPES && s.pipes[i].data == q && s.pipes[i].openWrite == 0 && !s.pipes[i].named
    requires b in s.procs && ReadFrom(s, b, STDIN) == i && count > 0 && q != []
    ensures var (r, got) := SysRead(s, b, STDIN, count);
            && got == Got(q[..Least(|q|, count)]) && b in r.procs
            && (count >= |q| ==> SysRead(r, b, STDIN, count).1 == Got([]))
  {
    hide Wake, Read;
    ReadMoves(s.pipes[i], b, count);
    var (p, got, woken) := Read(s.pipes[i], b, count);
    WakeKeys(s.procs, woken);
    Prefix(q, got.bytes, p.data);
    ReadMoves(p, b, count);
  }
}
