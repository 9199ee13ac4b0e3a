/** Two tables that agree: the references of the live descriptors and the open counts of the pipes. */
module PipeLaws {
  import opened Basics
  import opened PipeSpec

  /** The references that live descriptors of this kind hold on pipe i. */
  function Refs(fds: seq<FD>, i: nat, kind: FDKind): nat {
    if fds == [] then 0 else Refs(fds[..|fds| - 1], i, kind) + Part(fds[|fds| - 1], i, kind)
  }

  function Part(d: FD, i: nat, kind: FDKind): nat {
    if d.kind == kind && d.pipe == i then d.refs else 0
  }

  predicate IsEnd(d: FD) {
    d.kind in {ReadEnd, WriteEnd}
  }

  /** The counts of a pipe are those of its descriptors; a slot out of use is blank; the buffer does not overflow. */
  ghost predicate PipeOk(p: Pipe, fds: seq<FD>, i: nat) {
    && p.openRead == Refs(fds, i, ReadEnd) && p.openWrite == Refs(fds, i, WriteEnd)
    && (!p.inUse ==> p == Unused()) && |p.data| <= BUFFER_SIZE
  }

  /** A live descriptor of a pipe has references, and its pipe is in use. */
  predicate FdOk(pipes: seq<Pipe>, d: FD) {
    IsEnd(d) ==> d.refs >= 1 && d.pipe < |pipes| && pipes[d.pipe].inUse
  }

  ghost predicate Agree(s: State) {
    && Sized(s)
    && (forall i :: 0 <= i < MAX_PIPES ==> PipeOk(s.pipes[i], s.fds, i))
    && (forall k :: 0 <= k < MAX_FDS ==> FdOk(s.pipes, s.fds[k]))
  }

  lemma {:induction false} RefsUpdate(fds: seq<FD>, k: nat, d: FD, i: nat, kind: FDKind)
    requires k < |fds|
    ensures Refs(fds[k := d], i, kind) + Part(fds[k], i, kind) == Refs(fds, i, kind) + Part(d, i, kind)
    decreases |fds|
  {
    var n := |fds| - 1;
    if k == n {
      assert fds[k := d][..n] == fds[..n];
    } else {
      assert fds[k := d][..n] == fds[..n][k := d];
      RefsUpdate(fds[..n], k, d, i, kind);
    }
  }

  lemma {:induction false} RefsAtLeast(fds: seq<FD>, k: nat, i: nat, kind: FDKind)
    requires k < |fds|
    ensures Refs(fds, i, kind) >= Part(fds[k], i, kind)
  {
    RefsUpdate(fds, k, FD(NoFd, 0, 0), i, kind);
  }

  // ---------------------------------------------------------------- one descriptor and its pipe

  /** Descriptor k and pipe i change together. */
  lemma PairStep(s: State, k: nat, d: FD, i: nat, p: Pipe, s': State)
    requires Agree(s) && k < MAX_FDS && i < MAX_PIPES
    requires s'.pipes == s.pipes[i := p] && s'.fds == s.fds[k := d]
    requires IsEnd(s.fds[k]) ==> s.fds[k].pipe == i
    requires IsEnd(d) ==> d.pipe == i && d.refs >= 1
    requires p.openRead + Part(s.fds[k], i, ReadEnd) == s.pipes[i].openRead + Part(d, i, ReadEnd)
    requires p.openWrite + Part(s.fds[k], i, WriteEnd) == s.pipes[i].openWrite + Part(d, i, WriteEnd)
    requires p.inUse || p == Unused()
    requires |p.data| <= BUFFER_SIZE
    ensures Agree(s')
  {
    hide Refs;
    assert PipeOk(s.pipes[i], s.fds, i);
    RefsUpdate(s.fds, k, d, i, ReadEnd);
    RefsUpdate(s.fds, k, d, i, WriteEnd);
    assert PipeOk(p, s'.fds, i);
    forall j | 0 <= j < MAX_PIPES && j != i ensures PipeOk(s'.pipes[j], s'.fds, j) {
      assert PipeOk(s.pipes[j], s.fds, j);
      RefsUpdate(s.fds, k, d, j, ReadEnd);
      RefsUpdate(s.fds, k, d, j, WriteEnd);
    }
    forall n | 0 <= n < MAX_FDS ensures FdOk(s'.pipes, s'.fds[n]) {
      assert FdOk(s.pipes, s.fds[n]);
      RefsAtLeast(s'.fds, n, i, ReadEnd);
      RefsAtLeast(s'.fds, n, i, WriteEnd);
    }
  }

  /** The pipe of a live descriptor is in use and counts at least its references. */
  lemma EndGives(s: State, k: nat)
    requires Agree(s) && k < MAX_FDS && IsEnd(s.fds[k])
    ensures var d := s.fds[k];
            && d.refs >= 1 && d.pipe < MAX_PIPES && s.pipes[d.pipe].inUse && |s.pipes[d.pipe].data| <= BUFFER_SIZE
            && (d.kind == ReadEnd ==> s.pipes[d.pipe].openRead >= d.refs)
            && (d.kind == WriteEnd ==> s.pipes[d.pipe].openWrite >= d.refs)
  {
    hide Refs;
    assert FdOk(s.pipes, s.fds[k]);
    assert PipeOk(s.pipes[s.fds[k].pipe], s.fds, s.fds[k].pipe);
    RefsAtLeast(s.fds, k, s.fds[k].pipe, s.fds[k].kind);
  }

  lemma TerminalStep(s: State, k: nat, d: FD)
    requires Agree(s) && k < MAX_FDS && !IsEnd(s.fds[k]) && !IsEnd(d)
    ensures Agree(s.(fds := s.fds[k := d]))
  {
    PipeInRange(s);
    PairStep(s, k, d, 0, s.pipes[0], s.(fds := s.fds[k := d]));
  }

  lemma PipeInRange(s: State)
    requires Agree(s)
    ensures forall i :: 0 <= i < MAX_PIPES ==> (s.pipes[i].inUse || s.pipes[i] == Unused()) && |s.pipes[i].data| <= BUFFER_SIZE
  {
    hide Refs;
    forall i | 0 <= i < MAX_PIPES ensures (s.pipes[i].inUse || s.pipes[i] == Unused()) && |s.pipes[i].data| <= BUFFER_SIZE {
      assert PipeOk(s.pipes[i], s.fds, i);
    }
  }

  lemma IncrefAgrees(s: State, fd: int)
    requires Agree(s)
    ensures Agree(Incref(s, fd))
  {
    hide PipeOk, FdOk, Wake;
    if Live(s, fd) {
      var d := s.fds[fd];
      var d' := d.(refs := d.refs + 1);
      if IsEnd(d) {
        EndGives(s, fd);
        var p := if d.kind == ReadEnd then OpenRead(s.pipes[d.pipe]).0 else OpenWrite(s.pipes[d.pipe]).0;
        PairStep(s, fd, d', d.pipe, p, Incref(s, fd));
      } else {
        TerminalStep(s, fd, d');
      }
    }
  }

  lemma DecrefAgrees(s: State, fd: int)
    requires Agree(s)
    ensures Agree(Decref(s, fd))
  {
    hide PipeOk, FdOk, Wake;
    if Live(s, fd) {
      var d := s.fds[fd];
      var left := if d.refs > 0 then d.refs - 1 else 0;
      var d' := if left == 0 && d.kind != Terminal then FD(NoFd, 0, 0) else d.(refs := left);
      if IsEnd(d) {
        EndGives(s, fd);
        var p := if d.kind == ReadEnd then CloseRead(s.pipes[d.pipe]).0 else CloseWrite(s.pipes[d.pipe]).0;
        PairStep(s, fd, d', d.pipe, p, Decref(s, fd));
      } else {
        TerminalStep(s, fd, d');
      }
    }
  }

  lemma CreatePipeFdAgrees(s: State, i: nat, kind: FDKind)
    requires Agree(s) && i < MAX_PIPES && kind in {ReadEnd, WriteEnd} && s.pipes[i].inUse
    ensures var (r, fd) := CreatePipeFd(s, i, kind);
            Agree(r) && r.pipes[i].inUse && (fd >= 0 ==> fd < MAX_FDS && r.fds[fd] == FD(kind, 1, i))
  {
    hide PipeOk, FdOk, Wake;
    PipeInRange(s);
    var fd := FreeFd(s.fds, 0);
    if fd < |s.fds| {
      var p := if kind == ReadEnd then OpenRead(s.pipes[i]).0 else OpenWrite(s.pipes[i]).0;
      PairStep(s, fd, FD(kind, 1, i), i, p, CreatePipeFd(s, i, kind).0);
    }
  }

  lemma CreateFdsAgrees(s: State, i: nat)
    requires Agree(s) && i < MAX_PIPES && s.pipes[i].inUse
    ensures Agree(CreateFds(s, i).0)
  {
    hide PipeOk, FdOk, CreatePipeFd, Decref;
    CreatePipeFdAgrees(s, i, ReadEnd);
    var (s1, rd) := CreatePipeFd(s, i, ReadEnd);
    if rd >= 0 {
      CreatePipeFdAgrees(s1, i, WriteEnd);
      var (s2, wr) := CreatePipeFd(s1, i, WriteEnd);
      if wr < 0 { DecrefAgrees(s2, rd); }
    }
  }

  /** Opening changes one slot: a free one, or the one in use under the name. */
  lemma PipeOpenAgrees(s: State, name: Option<string>)
    requires Agree(s)
    ensures var (r, i) := PipeOpen(s, name); Agree(r) && (i < MAX_PIPES ==> r.pipes[i].inUse)
  {
    hide Refs;
    var (r, i) := PipeOpen(s, name);
    if i < MAX_PIPES {
      assert PipeOk(s.pipes[i], s.fds, i);
      forall j | 0 <= j < MAX_PIPES ensures PipeOk(r.pipes[j], r.fds, j) { assert PipeOk(s.pipes[j], s.fds, j); }
      forall k | 0 <= k < MAX_FDS ensures FdOk(r.pipes, r.fds[k]) { assert FdOk(s.pipes, s.fds[k]); }
    }
  }

  /** Changes to one pipe that keep its counts and its use keep the agreement. */
  lemma SameCounts(s: State, s': State)
    requires Agree(s) && s'.fds == s.fds && |s'.pipes| == |s.pipes|
    requires forall i :: 0 <= i < |s.pipes| ==>
               s'.pipes[i] == s.pipes[i]
               || (s.pipes[i].inUse && s'.pipes[i].inUse && s'.pipes[i].openRead == s.pipes[i].openRead
                   && s'.pipes[i].openWrite == s.pipes[i].openWrite && |s'.pipes[i].data| <= BUFFER_SIZE)
    ensures Agree(s')
  {
    hide Refs;
    forall i | 0 <= i < MAX_PIPES ensures PipeOk(s'.pipes[i], s'.fds, i) { assert PipeOk(s.pipes[i], s.fds, i); }
    forall k | 0 <= k < MAX_FDS ensures FdOk(s'.pipes, s'.fds[k]) { assert FdOk(s.pipes, s.fds[k]); }
  }

  // ---------------------------------------------------------------- events

  datatype Event =
    | Create(pid: nat)
    | MakePipe(name: Option<string>)
    | Dup(cur: nat, oldFd: nat, newFd: nat)
    | Close(fd: nat)
    | Setup(pid: nat, stdioFd: int, target: nat)
    | Reading(cur: nat, fd: nat, count: nat)
    | Writing(cur: nat, fd: nat, bytes: seq<Byte>)
    | Death(pid: nat)

  /** Calls come from live processes that are not blocked; a new process has a new pid. */
  predicate Enabled(s: State, ev: Event) {
    match ev
    case Create(pid) => pid !in s.procs
    case Dup(cur, _, _) => cur in s.procs && !s.procs[cur].blocked
    case Reading(cur, _, _) => cur in s.procs && !s.procs[cur].blocked
    case Writing(cur, _, _) => cur in s.procs && !s.procs[cur].blocked
    case Death(pid) => pid in s.procs
    case _ => true
  }

  function Step(s: State, ev: Event): (r: State)
    requires Sized(s) && Enabled(s, ev)
    ensures Sized(r)
  {
    match ev
    case Create(pid) => NewProcess(s, pid)
    case MakePipe(name) => SysPipe(s, name).0
    case Dup(cur, oldFd, newFd) => Dup2(s, cur, oldFd, newFd).0
    case Close(fd) => Decref(s, fd)
    case Setup(pid, stdioFd, target) => PipeSetup(s, pid, stdioFd, target)
    case Reading(cur, fd, count) => SysRead(s, cur, fd, count).0
    case Writing(cur, fd, bytes) => SysWrite(s, cur, fd, bytes).0
    case Death(pid) => Die(s, pid)
  }

  lemma OnlyProcs(s: State, procs: Procs)
    requires Agree(s)
    ensures Agree(s.(procs := procs))
  {
  }

  lemma SwapAgrees(s: State, fd: int, pid: nat, which: nat, newFd: int)
    requires Agree(s) && pid in s.procs
    ensures Decref(s, fd).procs.Keys == s.procs.Keys
    ensures Agree(Incref(SetFd(s, pid, which, newFd), newFd))
    ensures pid in Decref(s, fd).procs && Agree(Incref(SetFd(Decref(s, fd), pid, which, newFd), newFd))
  {
    hide PipeOk, FdOk, Decref, Incref;
    OnPipeKeys(s, fd);
    DecrefAgrees(s, fd);
    OnlyProcs(s, SetFd(s, pid, which, newFd).procs);
    OnlyProcs(Decref(s, fd), SetFd(Decref(s, fd), pid, which, newFd).procs);
    IncrefAgrees(SetFd(s, pid, which, newFd), newFd);
    IncrefAgrees(SetFd(Decref(s, fd), pid, which, newFd), newFd);
  }

  lemma DieAgrees(s: State, pid: nat)
    requires Agree(s) && pid in s.procs
    ensures Agree(Die(s, pid))
  {
    hide PipeOk, FdOk, Decref;
    var s1 := s.(pipes := ForgetAll(s.pipes, pid));
    PipeInRange(s);
    SameCounts(s, s1);
    var p := s.procs[pid];
    DecrefAgrees(s1, p.stdin);
    var s2 := if p.stdin >= 0 then Decref(s1, p.stdin) else s1;
    DecrefAgrees(s2, p.stdout);
    var s3 := if p.stdout >= 0 then Decref(s2, p.stdout) else s2;
    OnlyProcs(s3, s3.procs - {pid});
  }

  lemma ReadingAgrees(s: State, cur: nat, fd: nat, count: nat)
    requires Agree(s) && cur in s.procs
    ensures Agree(SysRead(s, cur, fd, count).0)
  {
    hide PipeOk, FdOk, Wake;
    var f := Resolve(s, cur, fd, STDIN);
    if Live(s, f) && s.fds[f].kind == ReadEnd {
      EndGives(s, f);
      SameCounts(s, SysRead(s, cur, fd, count).0);
    }
  }

  lemma WritingAgrees(s: State, cur: nat, fd: nat, bytes: seq<Byte>)
    requires Agree(s) && cur in s.procs
    ensures Agree(SysWrite(s, cur, fd, bytes).0)
  {
    hide PipeOk, FdOk, Wake;
    var f := Resolve(s, cur, fd, STDOUT);
    if Live(s, f) && s.fds[f].kind == WriteEnd {
      EndGives(s, f);
      SameCounts(s, SysWrite(s, cur, fd, bytes).0);
    }
  }

  /** Every call, creation and death keeps the two tables in agreement. */
  lemma StepAgrees(s: State, ev: Event)
    requires Agree(s) && Enabled(s, ev)
    ensures Agree(Step(s, ev))
  {
    hide PipeOk, FdOk, Incref, Decref, Die, SysRead, SysWrite, CreateFds, PipeOpen;
    match ev
    case Create(pid) =>
      OnlyProcs(s, s.procs[pid := Proc(STDIN, STDOUT, false)]);
      IncrefAgrees(s.(procs := s.procs[pid := Proc(STDIN, STDOUT, false)]), STDIN);
      IncrefAgrees(Incref(s.(procs := s.procs[pid := Proc(STDIN, STDOUT, false)]), STDIN), STDOUT);
    case MakePipe(name) =>
      PipeOpenAgrees(s, name);
      var (s1, i) := PipeOpen(s, name);
      if i < MAX_PIPES { CreateFdsAgrees(s1, i); }
    case Dup(cur, oldFd, newFd) =>
      SwapAgrees(s, FdOf(s.procs[cur], newFd), cur, newFd, oldFd);
    case Close(fd) => DecrefAgrees(s, fd);
    case Setup(pid, stdioFd, target) =>
      if pid in s.procs { SwapAgrees(s, FdOf(s.procs[pid], target), pid, target, stdioFd); }
    case Reading(cur, fd, count) => ReadingAgrees(s, cur, fd, count);
    case Writing(cur, fd, bytes) => WritingAgrees(s, cur, fd, bytes);
    case Death(pid) => DieAgrees(s, pid);
  }

  predicate Legal(s: State, evs: seq<Event>)
    requires Sized(s)
    decreases |evs|
  {
    evs == [] || (Enabled(s, evs[0]) && Legal(Step(s, evs[0]), evs[1..]))
  }

  function Run(s: State, evs: seq<Event>): (r: State)
    requires Sized(s) && Legal(s, evs)
    ensures Sized(r)
    decreases |evs|
  {
    if evs == [] then s else Run(Step(s, evs[0]), evs[1..])
  }

  /** The tables as fd_init and pipe_init leave them. */
  function Initial(): State {
    State(seq(MAX_PIPES, _ => Unused()),
          seq(MAX_FDS, k requires 0 <= k => if k <= STDOUT then FD(Terminal, 0, 0) else FD(NoFd, 0, 0)), map[])
  }

  lemma {:induction false} NoRefs(fds: seq<FD>, i: nat, kind: FDKind)
    requires kind in {ReadEnd, WriteEnd} && forall k :: 0 <= k < |fds| ==> !IsEnd(fds[k])
    ensures Refs(fds, i, kind) == 0
  {
    if fds != [] { NoRefs(fds[..|fds| - 1], i, kind); }
  }

  lemma InitialAgrees()
    ensures Agree(Initial())
  {
    hide Refs;
    var s := Initial();
    forall i | 0 <= i < MAX_PIPES ensures PipeOk(s.pipes[i], s.fds, i) {
      NoRefs(s.fds, i, ReadEnd);
      NoRefs(s.fds, i, WriteEnd);
    }
  }

  /** The tables agree after every run. */
  lemma {:induction false} RunAgrees(s: State, evs: seq<Event>)
    requires Agree(s) && Legal(s, evs)
    ensures Agree(Run(s, evs))
    decreases |evs|
  {
    hide PipeOk, FdOk, Step, Enabled;
    if evs != [] {
      StepAgrees(s, evs[0]);
      RunAgrees(Step(s, evs[0]), evs[1..]);
    }
  }
}
