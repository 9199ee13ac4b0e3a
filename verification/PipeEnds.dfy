/** Which descriptor is which end of which pipe, and how much goes through it. */
module PipeEnds {
  import opened Basics
  import opened PipeSpec
  import opened PipeLaws
  import opened PipeRuns

  function Least(x: nat, y: nat): nat {
    if x < y then x else y
  }

  // ---------------------------------------------------------------- how much a read or a write moves

  /** `r` is the queue with the process in it, once: where it was, or behind all the others if there is room. */
  predicate Joined(q: seq<nat>, pid: nat, r: seq<nat>) {
    if pid in q || |q| >= MAX_PROCESSES then r == q else r == q + [pid]
  }

  /** A read takes as many bytes as there are, up to what was asked for. It comes back with none exactly if it asked for
      none or at the end of the file: a named pipe marked so, another without a write end. Otherwise, with none there, it
      blocks. Taking bytes wakes the writer that waits longest, and nobody else. */
  lemma ReadMoves(p: Pipe, cur: nat, count: nat)
    ensures var (r, result, woken) := Read(p, cur, count);
            var ended := if p.named then p.eof else p.openWrite == 0;
            && (result.ReadBlocks? <==> count > 0 && p.data == [] && !ended)
            && (result.Got? ==> result.bytes + r.data == p.data && |result.bytes| == Least(count, |p.data|))
            && (result.ReadBlocks? ==> r == p.(readers := r.readers) && Joined(p.readers, cur, r.readers) && woken == [])
            && (|r.data| == |p.data| && !result.ReadBlocks? ==> r == p && woken == [])
            && (|r.data| < |p.data| && |r.data| < BUFFER_SIZE ==> woken + r.writers == p.writers && |woken| == Least(1, |p.writers|))
            && r == p.(data := r.data, readers := r.readers, writers := r.writers)
  {
    if count > 0 && p.data != [] {
      SplitAt(p.data, Least(count, |p.data|));
      if p.writers != [] { SplitAt(p.writers, 1); }
    }
  }

  lemma SplitAt<T>(q: seq<T>, n: nat)
    requires n <= |q|
    ensures q[..n] + q[n..] == q && (n == 1 ==> q[..n] == [q[0]])
  {
  }

  /** A write puts in as many bytes as fit. It is refused without a read end, except that on a named pipe that has not ended
      it waits for one; with a full buffer it waits too. Putting bytes in wakes the reader that waits longest. */
  lemma WriteMoves(p: Pipe, cur: nat, bytes: seq<Byte>)
    requires |p.data| <= BUFFER_SIZE
    ensures var (r, result, woken) := Write(p, cur, bytes);
            var space := BUFFER_SIZE - |p.data|;
            && (result.WriteBlocks? <==> bytes != [] && if p.openRead == 0 then p.named && !p.eof else space == 0)
            && (result.Accepted? && p.openRead > 0 ==> result.count == Least(|bytes|, space) && r.data == p.data + bytes[..result.count])
            && (result.Accepted? && p.openRead == 0 ==> result.count == 0 && r == p && woken == [])
            && (result.WriteBlocks? ==> r == p.(writers := r.writers) && Joined(p.writers, cur, r.writers) && woken == [])
            && (|r.data| > |p.data| ==> woken + r.readers == p.readers && |woken| == Least(1, |p.readers|))
            && (|r.data| == |p.data| && !result.WriteBlocks? ==> r == p && woken == [])
            && r == p.(data := r.data, readers := r.readers, writers := r.writers)
  {
  }

  // ---------------------------------------------------------------- closing an end

  /** Closing an end takes one from its count and nothing else while others are left. The last one of an end wakes everyone
      who waits at the other; with the last of both the slot is blank; and on a named pipe opened twice the last write end
      marks the end of the file. */
  lemma CloseMoves(p: Pipe)
    requires p.openRead > 0 || p.openWrite > 0
    ensures p.openRead > 0 ==>
              var (r, woken) := CloseRead(p);
              if p.openRead > 1 then r == p.(openRead := p.openRead - 1) && woken == []
              else woken == p.writers && r == if p.openWrite == 0 then Unused() else p.(openRead := 0, writers := [])
    ensures p.openWrite > 0 ==>
              var (r, woken) := CloseWrite(p);
              if p.openWrite > 1 then r == p.(openWrite := p.openWrite - 1) && woken == []
              else
                && woken == p.readers
                && r == if p.openRead == 0 then Unused()
                        else p.(openWrite := 0, readers := [], eof := p.eof || (p.named && p.opens >= 2))
  {
  }

  /** So after the last close of an end nobody waits at the other end of the pipe any more, and all who did are awake. */
  lemma LastCloseWakes(s: State, fd: nat, q: nat)
    requires Agree(s) && Live(s, fd) && IsEnd(s.fds[fd]) && q in s.procs
    ensures s.fds[fd].pipe < MAX_PIPES && q in Decref(s, fd).procs
    ensures var p, r := s.pipes[s.fds[fd].pipe], Decref(s, fd);
            && (s.fds[fd].kind == WriteEnd && p.openWrite == 1 ==>
                  r.pipes[s.fds[fd].pipe].readers == [] && (q in p.readers ==> !r.procs[q].blocked))
            && (s.fds[fd].kind == ReadEnd && p.openRead == 1 ==>
                  r.pipes[s.fds[fd].pipe].writers == [] && (q in p.writers ==> !r.procs[q].blocked))
  {
    hide PipeOk, FdOk, Wake, CloseRead, CloseWrite;
    EndGives(s, fd);
    var p := s.pipes[s.fds[fd].pipe];
    CloseMoves(p);
    WakeKeys(s.procs, p.readers);
    WakeKeys(s.procs, p.writers);
    WakeKeys(s.procs, CloseRead(p).1);
    WakeKeys(s.procs, CloseWrite(p).1);
  }

  // ---------------------------------------------------------------- the two descriptors

  /** A descriptor for an end takes the lowest free number, has one reference, and opens that end of the pipe once more. */
  lemma EndIs(s: State, i: nat, kind: FDKind)
    requires Sized(s) && i < MAX_PIPES && kind in {ReadEnd, WriteEnd}
    ensures var (r, fd) := CreatePipeFd(s, i, kind); var p := s.pipes[i];
            && (fd < 0 ==> r == s)
            && (fd >= 0 ==>
                  && fd < MAX_FDS && (forall k :: 0 <= k <= fd ==> (s.fds[k].kind == NoFd <==> k == fd))
                  && r.fds == s.fds[fd := FD(kind, 1, i)] && |r.pipes| == MAX_PIPES && r.pipes == s.pipes[i := r.pipes[i]]
                  && (!p.named || (p.readers == [] && p.writers == []) ==> r.procs == s.procs)
                  && if kind == ReadEnd
                     then r.pipes[i] == p.(openRead := p.openRead + 1, writers := if p.named then [] else p.writers)
                     else r.pipes[i] == p.(openWrite := p.openWrite + 1, readers := if p.named then [] else p.readers,
                                           eof := p.eof && !p.named))
  {
    hide Wake;
    WakeNobody(s.procs);
  }

  lemma WakeNobody(procs: Procs)
    ensures Wake(procs, []) == procs
  {
  }

  /** What pipe_open does to the table of pipes. */
  lemma OpenIs(s: State, name: Option<string>)
    requires Agree(s)
    ensures var (r, i) := PipeOpen(s, name);
            && r.fds == s.fds && r.procs == s.procs
            && (i < MAX_PIPES ==>
                  && |r.pipes| == MAX_PIPES && r.pipes == s.pipes[i := r.pipes[i]]
                  && if name.Some? && KnownAs(s.pipes, i, name.value)
                     then r.pipes[i] == s.pipes[i].(opens := s.pipes[i].opens + 1)
                     else !s.pipes[i].inUse && r.pipes[i] == NewPipe(name)
                          && (name.Some? ==> forall j :: 0 <= j < MAX_PIPES ==> !KnownAs(s.pipes, j, name.value)))
  {
    hide PipeOk, FdOk, Stored;
    FindNamedIs(s.pipes, if name.Some? then name.value else "");
  }

  /** pipe and pipe_open return the two lowest free descriptor numbers, first the read end, then the write end, each with one
      reference and both on one pipe: a blank slot, or the named pipe in use, which then has one of each end more. No other
      descriptor, no other pipe and no process but those woken changes. */
  lemma PairIs(s: State, name: Option<string>) returns (i: nat)
    requires Agree(s) && SysPipe(s, name).1.Some?
    ensures var (r, ends) := SysPipe(s, name); var (rd, wr) := ends.value;
            && i < MAX_PIPES && 0 <= rd < wr < MAX_FDS
            && (forall k :: 0 <= k <= wr ==> (s.fds[k].kind == NoFd <==> k == rd || k == wr))
            && r.fds == s.fds[rd := FD(ReadEnd, 1, i)][wr := FD(WriteEnd, 1, i)]
            && r.pipes == s.pipes[i := r.pipes[i]]
            && if name.Some? && KnownAs(s.pipes, i, name.value) then
                 && var p := s.pipes[i];
                    r.pipes[i] == p.(openRead := p.openRead + 1, openWrite := p.openWrite + 1, opens := p.opens + 1, eof := false,
                                     readers := [], writers := [])
               else
                 && !s.pipes[i].inUse && (name.Some? ==> forall j :: 0 <= j < MAX_PIPES ==> !KnownAs(s.pipes, j, name.value))
                 && r.pipes[i].inUse && r.pipes[i].data == [] && r.pipes[i].openRead == r.pipes[i].openWrite == 1
                 && r.pipes[i].readers == [] && r.pipes[i].writers == [] && !r.pipes[i].eof && r.procs == s.procs
                 && (r.pipes[i].named <==> name.Some?)
                 && r.pipes[i].opens == (if name.Some? then 1 else 0)
                 && r.pipes[i].name == (if name.Some? then Stored(name.value, PIPE_NAME_LEN) else "")
  {
    hide PipeOk, FdOk, Wake, Stored, PipeOpen, CreatePipeFd;
    OpenIs(s, name);
    var (s1, j) := PipeOpen(s, name);
    i := j;
    EndIs(s1, i, ReadEnd);
    var (s2, rd) := CreatePipeFd(s1, i, ReadEnd);
    EndIs(s2, i, WriteEnd);
    var (s3, wr) := CreatePipeFd(s2, i, WriteEnd);
    assert s.fds[wr].kind == s2.fds[wr].kind == NoFd;
    forall k | 0 <= k <= wr ensures s.fds[k].kind == NoFd <==> k == rd || k == wr {
      assert s2.fds[k].kind == NoFd <==> k == wr;
    }
  }

  predicate KnownAs(pipes: seq<Pipe>, i: int, name: string) {
    0 <= i < |pipes| && pipes[i].inUse && pipes[i].named && pipes[i].name == name
  }

  lemma FindNamedIs(pipes: seq<Pipe>, name: string)
    ensures var f := FindNamed(pipes, name, 0);
            if f < |pipes| then KnownAs(pipes, f, name) else forall j :: 0 <= j < |pipes| ==> !KnownAs(pipes, j, name)
  {
    FindNamedFrom(pipes, name, 0);
  }

  lemma {:induction false} FindNamedFrom(pipes: seq<Pipe>, name: string, i: nat)
    requires i <= |pipes|
    ensures forall j :: i <= j < FindNamed(pipes, name, i) ==> !KnownAs(pipes, j, name)
    decreases |pipes| - i
  {
    if i < |pipes| && !KnownAs(pipes, i, name) { FindNamedFrom(pipes, name, i + 1); }
  }

  /** The descriptor a call means, as 32 bits of the number: 0 is the caller's stdin and, to write, 1 its stdout; any other
      number is itself, and one with bit 31 set is none. A read or write of anything but the right end moves nothing. */
  lemma NumberMeans(s: State, cur: nat, fd: nat, count: nat, bytes: seq<Byte>)
    requires Sized(s) && cur in s.procs
    ensures var low := fd % 0x1_0000_0000; var raw := if low < 0x8000_0000 then low else -1;
            var r, w := if fd == 0 then s.procs[cur].stdin else raw,
                        if fd == 0 then s.procs[cur].stdin else if fd == 1 then s.procs[cur].stdout else raw;
            && ReadFrom(s, cur, fd) == (if 0 <= r < MAX_FDS && s.fds[r].kind == ReadEnd then s.fds[r].pipe else -1)
            && WrittenTo(s, cur, fd) == (if 0 <= w < MAX_FDS && s.fds[w].kind == WriteEnd then s.fds[w].pipe else -1)
            && (ReadFrom(s, cur, fd) == -1 ==> SysRead(s, cur, fd, count) == (s, Got([])))
            && (WrittenTo(s, cur, fd) == -1 ==> SysWrite(s, cur, fd, bytes) == (s, Accepted(0)))
  {
    hide Read, Write, Wake;
  }

  // ---------------------------------------------------------------- death

  /** A dead process waits at no pipe. */
  lemma DeathLeavesQueues(s: State, pid: nat, i: nat)
    requires Agree(s) && pid in s.procs && i < MAX_PIPES
    ensures var p := Die(s, pid).pipes[i]; pid !in p.readers && pid !in p.writers
  {
    hide PipeOk, FdOk, Decref, AwayFrom;
    var s1 := s.(pipes := ForgetAll(s.pipes, pid));
    PipeInRange(s);
    SameCounts(s, s1);
    AwayClosed(pid);
    ForgetLeaves(s.pipes[i], pid);
    var p := s.procs[pid];
    DecrefAgrees(s1, p.stdin);
    DecrefKeeps(s1, p.stdin, i, q => AwayFrom(q, pid), false);
    var s2 := if p.stdin >= 0 then Decref(s1, p.stdin) else s1;
    DecrefKeeps(s2, p.stdout, i, q => AwayFrom(q, pid), false);
    AwayIs(Die(s, pid).pipes[i], pid);
  }

  predicate AwayFrom(p: Pipe, pid: nat) {
    pid !in p.readers && pid !in p.writers
  }

  lemma AwayIs(p: Pipe, pid: nat)
    requires AwayFrom(p, pid)
    ensures pid !in p.readers && pid !in p.writers
  {
  }

  lemma ForgetLeaves(p: Pipe, pid: nat)
    requires p.inUse || p == Unused()
    ensures AwayFrom(Forget(p, pid), pid)
  {
  }

  lemma AwayClosed(pid: nat)
    ensures Closed(p => AwayFrom(p, pid), false)
  {
    hide AwayFrom, OpenRead, OpenWrite, CloseRead, CloseWrite, Forget, Reopened;
    forall p: Pipe | AwayFrom(p, pid)
      ensures AwayFrom(OpenRead(p).0, pid) && AwayFrom(OpenWrite(p).0, pid)
      ensures AwayFrom(CloseRead(p).0, pid) && AwayFrom(CloseWrite(p).0, pid)
    {
      AwayStays(p, pid);
    }
    forall p: Pipe, x: nat | AwayFrom(p, pid) ensures AwayFrom(Forget(p, x), pid) { AwayForgets(p, x, pid); }
  }

  lemma AwayStays(p: Pipe, pid: nat)
    requires AwayFrom(p, pid)
    ensures AwayFrom(OpenRead(p).0, pid) && AwayFrom(OpenWrite(p).0, pid)
    ensures AwayFrom(CloseRead(p).0, pid) && AwayFrom(CloseWrite(p).0, pid)
  {
  }

  lemma AwayForgets(p: Pipe, x: nat, pid: nat)
    requires AwayFrom(p, pid)
    ensures AwayFrom(Forget(p, x), pid)
  {
  }
}
