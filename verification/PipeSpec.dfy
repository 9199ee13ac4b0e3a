/** Pipes and the file descriptors on them, as values. Every operation returns the processes it wakes, in order. */
module PipeSpec {
  import opened Basics
  import opened PidQueue

  const BUFFER_SIZE := 4096
  const MAX_PIPES := 32
  const PIPE_NAME_LEN := 32
  const MAX_FDS := 2 * MAX_PROCESSES + 2
  const STDIN := 0
  const STDOUT := 1

  type Byte = x: int | 0 <= x < 256

  datatype Pipe = Pipe(data: seq<Byte>, openRead: nat, openWrite: nat, readers: seq<nat>, writers: seq<nat>,
                       inUse: bool, named: bool, eof: bool, opens: nat, name: string)

  /** A slot of the table that no pipe occupies. */
  function Unused(): Pipe {
    Pipe([], 0, 0, [], [], false, false, false, 0, "")
  }

  // ---------------------------------------------------------------- one pipe

  function MaybeFree(p: Pipe): Pipe {
    if p.openRead == 0 && p.openWrite == 0 then Unused() else p
  }

  /** One more reading reference; writers that waited for a reader of a named pipe wake up. */
  function OpenRead(p: Pipe): (Pipe, seq<nat>) {
    var q := p.(openRead := p.openRead + 1);
    if p.named then (q.(writers := []), p.writers) else (q, [])
  }

  function OpenWrite(p: Pipe): (Pipe, seq<nat>) {
    var q := p.(openWrite := p.openWrite + 1);
    if p.named then (q.(eof := false, readers := []), p.readers) else (q, [])
  }

  function CloseRead(p: Pipe): (Pipe, seq<nat>) {
    var q := p.(openRead := if p.openRead > 0 then p.openRead - 1 else 0);
    if q.openRead == 0 then (MaybeFree(q.(writers := [])), p.writers) else (MaybeFree(q), [])
  }

  function CloseWrite(p: Pipe): (Pipe, seq<nat>) {
    var q := p.(openWrite := if p.openWrite > 0 then p.openWrite - 1 else 0);
    if q.openWrite == 0
    then (MaybeFree(q.(eof := q.eof || (p.named && p.opens >= 2), readers := [])), p.readers)
    else (MaybeFree(q), [])
  }

  /** What a read gives the caller: some bytes (none at the end of the file), or the caller blocks and has to try again. */
  datatype ReadResult = Got(bytes: seq<Byte>) | ReadBlocks

  datatype WriteResult = Accepted(count: nat) | WriteBlocks

  /** Read up to `count` bytes: the new pipe, what the caller gets, and the writer woken. */
  function Read(p: Pipe, cur: nat, count: nat): (Pipe, ReadResult, seq<nat>) {
    if count == 0 then (p, Got([]), [])
    else if p.data == [] then
      if (if p.named then p.eof else p.openWrite == 0) then (p, Got([]), [])
      else (p.(readers := EnqueueNew(p.readers, cur)), ReadBlocks, [])
    else
      var n := if count < |p.data| then count else |p.data|;
      var q := p.(data := p.data[n..]);
      if p.writers != [] && |q.data| < BUFFER_SIZE
      then (q.(writers := p.writers[1..]), Got(p.data[..n]), [p.writers[0]])
      else (q, Got(p.data[..n]), [])
  }

  /** Write up to `|bytes|` bytes: the new pipe, how many were accepted, and the reader woken. */
  function Write(p: Pipe, cur: nat, bytes: seq<Byte>): (Pipe, WriteResult, seq<nat>) {
    if bytes == [] then (p, Accepted(0), [])
    else if p.openRead == 0 then
      if p.named && !p.eof then (p.(writers := EnqueueNew(p.writers, cur)), WriteBlocks, [])
      else (p, Accepted(0), [])
    else if |p.data| >= BUFFER_SIZE then (p.(writers := EnqueueNew(p.writers, cur)), WriteBlocks, [])
    else
      var space := BUFFER_SIZE - |p.data|;
      var n := if |bytes| < space then |bytes| else space;
      var q := p.(data := p.data + bytes[..n]);
      if p.readers != []
      then (q.(readers := p.readers[1..]), Accepted(n), [p.readers[0]])
      else (q, Accepted(n), [])
  }

  /** A dying process leaves both queues. */
  function Forget(p: Pipe, pid: nat): Pipe {
    if p.inUse then p.(readers := Removed(p.readers, pid), writers := Removed(p.writers, pid)) else p
  }

  function ForgetAll(pipes: seq<Pipe>, pid: nat): (r: seq<Pipe>)
    ensures |r| == |pipes| && forall i :: 0 <= i < |r| ==> r[i] == Forget(pipes[i], pid)
  {
    seq(|pipes|, i requires 0 <= i < |pipes| => Forget(pipes[i], pid))
  }

  // ---------------------------------------------------------------- the tables

  datatype FDKind = NoFd | Terminal | ReadEnd | WriteEnd

  datatype FD = FD(kind: FDKind, refs: nat, pipe: nat)

  /** `stdin` and `stdout` are the two descriptors of a process; -1 for none. */
  datatype Proc = Proc(stdin: int, stdout: int, blocked: bool)

  type Procs = map<nat, Proc>

  datatype State = State(pipes: seq<Pipe>, fds: seq<FD>, procs: Procs)

  predicate Sized(s: State) {
    && |s.pipes| == MAX_PIPES && |s.fds| == MAX_FDS
    && forall k :: 0 <= k < |s.fds| && s.fds[k].kind in {ReadEnd, WriteEnd} ==> s.fds[k].pipe < MAX_PIPES
  }

  function SetBlocked(procs: Procs, pid: nat, on: bool): Procs {
    if pid in procs then procs[pid := procs[pid].(blocked := on)] else procs
  }

  function Wake(procs: Procs, woken: seq<nat>): Procs {
    if woken == [] then procs else Wake(SetBlocked(procs, woken[0], false), woken[1..])
  }

  /** Pipe i becomes `r.0` and the processes in `r.1` wake up. */
  function OnPipe(s: State, i: nat, r: (Pipe, seq<nat>)): State
    requires i < |s.pipes|
  {
    s.(pipes := s.pipes[i := r.0], procs := Wake(s.procs, r.1))
  }

  predicate Live(s: State, fd: int) {
    0 <= fd < |s.fds| && s.fds[fd].kind != NoFd
  }

  /** One more reference to a descriptor, and to the end of the pipe it stands for; none if it is not live. */
  function Incref(s: State, fd: int): (r: State)
    requires Sized(s)
    ensures Sized(r)
  {
    if !Live(s, fd) then s
    else
      var d := s.fds[fd];
      var s1 := s.(fds := s.fds[fd := d.(refs := d.refs + 1)]);
      if d.kind == ReadEnd then OnPipe(s1, d.pipe, OpenRead(s.pipes[d.pipe]))
      else if d.kind == WriteEnd then OnPipe(s1, d.pipe, OpenWrite(s.pipes[d.pipe]))
      else s1
  }

  /** One reference less; the last one frees the descriptor, unless it is a terminal. */
  function Decref(s: State, fd: int): (r: State)
    requires Sized(s)
    ensures Sized(r)
  {
    if !Live(s, fd) then s
    else
      var d := s.fds[fd];
      var left := if d.refs > 0 then d.refs - 1 else 0;
      var d' := if left == 0 && d.kind != Terminal then FD(NoFd, 0, 0) else d.(refs := left);
      var s1 := s.(fds := s.fds[fd := d']);
      if d.refs > 0 && d.kind == ReadEnd then OnPipe(s1, d.pipe, CloseRead(s.pipes[d.pipe]))
      else if d.refs > 0 && d.kind == WriteEnd then OnPipe(s1, d.pipe, CloseWrite(s.pipes[d.pipe]))
      else s1
  }

  function FreeFd(fds: seq<FD>, i: nat): (r: nat)
    requires i <= |fds|
    ensures i <= r <= |fds|
    ensures r < |fds| ==> fds[r].kind == NoFd
    ensures forall k :: i <= k < r ==> fds[k].kind != NoFd
    decreases |fds| - i
  {
    if i == |fds| || fds[i].kind == NoFd then i else FreeFd(fds, i + 1)
  }

  /** A new descriptor for one end of pipe i; -1 if the table is full. */
  function CreatePipeFd(s: State, i: nat, kind: FDKind): (r: (State, int))
    requires Sized(s) && i < MAX_PIPES && kind in {ReadEnd, WriteEnd}
    ensures Sized(r.0)
  {
    var fd := FreeFd(s.fds, 0);
    if fd == |s.fds| then (s, -1)
    else (Incref(s.(fds := s.fds[fd := FD(kind, 0, i)]), fd), fd as int)
  }

  /** Both ends of pipe i: the read descriptor is given back if there is none for writing. */
  function CreateFds(s: State, i: nat): (r: (State, Option<(int, int)>))
    requires Sized(s) && i < MAX_PIPES
    ensures Sized(r.0)
  {
    var (s1, rd) := CreatePipeFd(s, i, ReadEnd);
    if rd < 0 then (s1, None)
    else
      var (s2, wr) := CreatePipeFd(s1, i, WriteEnd);
      if wr < 0 then (Decref(s2, rd), None) else (s2, Some((rd, wr)))
  }

  /** The named pipe in use with this name, from index i on; the size of the table if there is none. */
  function FindNamed(pipes: seq<Pipe>, name: string, i: nat): (r: nat)
    requires i <= |pipes|
    ensures i <= r <= |pipes|
    ensures r < |pipes| ==> pipes[r].inUse && pipes[r].named && pipes[r].name == name
    decreases |pipes| - i
  {
    if i == |pipes| || (pipes[i].inUse && pipes[i].named && pipes[i].name == name) then i else FindNamed(pipes, name, i + 1)
  }

  function FreePipe(pipes: seq<Pipe>, i: nat): (r: nat)
    requires i <= |pipes|
    ensures i <= r <= |pipes|
    ensures r < |pipes| ==> !pipes[r].inUse
    ensures forall k :: i <= k < r ==> pipes[k].inUse
    decreases |pipes| - i
  {
    if i == |pipes| || !pipes[i].inUse then i else FreePipe(pipes, i + 1)
  }

  function NewPipe(name: Option<string>): Pipe {
    match name
    case None => Unused().(inUse := true)
    case Some(n) => Unused().(inUse := true, named := true, opens := 1, name := Stored(n, PIPE_NAME_LEN))
  }

  /** A new pipe, or the one in use under this name: the index, or the size of the table when that is full. */
  function PipeOpen(s: State, name: Option<string>): (r: (State, nat))
    requires Sized(s)
    ensures Sized(r.0) && r.1 <= MAX_PIPES
  {
    var f := if name.Some? then FindNamed(s.pipes, name.value, 0) else |s.pipes|;
    if f < |s.pipes| then (s.(pipes := s.pipes[f := s.pipes[f].(opens := s.pipes[f].opens + 1)]), f)
    else
      var i := FreePipe(s.pipes, 0);
      if i == |s.pipes| then (s, i) else (s.(pipes := s.pipes[i := NewPipe(name)]), i)
  }

  // ---------------------------------------------------------------- system calls

  /** pipe, and pipe_open with a name: the two descriptors, or None for -1. */
  function SysPipe(s: State, name: Option<string>): (r: (State, Option<(int, int)>))
    requires Sized(s)
    ensures Sized(r.0)
  {
    var (s1, i) := PipeOpen(s, name);
    if i == MAX_PIPES then (s1, None) else CreateFds(s1, i)
  }

  function FdOf(p: Proc, which: nat): int {
    if which == 0 then p.stdin else p.stdout
  }

  function WithFd(p: Proc, which: nat, fd: int): Proc {
    if which == 0 then p.(stdin := fd) else p.(stdout := fd)
  }

  function SetFd(s: State, pid: nat, which: nat, fd: int): (r: State)
    requires pid in s.procs
    ensures r.pipes == s.pipes && r.fds == s.fds
  {
    s.(procs := s.procs[pid := WithFd(s.procs[pid], which, fd)])
  }

  lemma OnPipeKeys(s: State, fd: int)
    requires Sized(s)
    ensures Decref(s, fd).procs.Keys == s.procs.Keys
  {
    if Live(s, fd) {
      var d := s.fds[fd];
      if d.refs > 0 && d.kind == ReadEnd { WakeKeys(s.procs, CloseRead(s.pipes[d.pipe]).1); }
      if d.refs > 0 && d.kind == WriteEnd { WakeKeys(s.procs, CloseWrite(s.pipes[d.pipe]).1); }
    }
  }

  lemma {:induction false} WakeKeys(procs: Procs, woken: seq<nat>)
    ensures Wake(procs, woken).Keys == procs.Keys
    ensures forall x <- procs :: Wake(procs, woken)[x] == procs[x].(blocked := procs[x].blocked && x !in woken)
    decreases |woken|
  {
    if woken != [] {
      WakeKeys(SetBlocked(procs, woken[0], false), woken[1..]);
      assert woken == [woken[0]] + woken[1..];
    }
  }

  /** dup2: a descriptor of the process gives way to another one. */
  function Dup2(s: State, cur: nat, oldFd: nat, newFd: nat): (r: (State, int))
    requires Sized(s)
    ensures Sized(r.0)
  {
    if newFd > 1 || !Live(s, oldFd) || cur !in s.procs then (s, -1)
    else if FdOf(s.procs[cur], newFd) == oldFd then (s, oldFd as int)
    else
      OnPipeKeys(s, FdOf(s.procs[cur], newFd));
      var s1 := if FdOf(s.procs[cur], newFd) >= 0 then Decref(s, FdOf(s.procs[cur], newFd)) else s;
      (Incref(SetFd(s1, cur, newFd, oldFd), oldFd), oldFd as int)
  }

  /** Redirect a descriptor of another process, before it starts. */
  function PipeSetup(s: State, pid: nat, stdioFd: int, target: nat): (r: State)
    requires Sized(s)
    ensures Sized(r)
  {
    if pid !in s.procs || target > 1 then s
    else
      OnPipeKeys(s, FdOf(s.procs[pid], target));
      var s1 := if FdOf(s.procs[pid], target) >= 0 then Decref(s, FdOf(s.procs[pid], target)) else s;
      Incref(SetFd(s1, pid, target, stdioFd), stdioFd)
  }

  /** A new process starts on the terminal. */
  function NewProcess(s: State, pid: nat): (r: State)
    requires Sized(s)
    ensures Sized(r)
  {
    Incref(Incref(s.(procs := s.procs[pid := Proc(STDIN, STDOUT, false)]), STDIN), STDOUT)
  }

  /** A dying process leaves every queue, gives back its descriptors and is gone. */
  function Die(s: State, pid: nat): (r: State)
    requires Sized(s)
    ensures Sized(r)
  {
    if pid !in s.procs then s
    else
      var s1 := s.(pipes := ForgetAll(s.pipes, pid));
      var p := s.procs[pid];
      var s2 := if p.stdin >= 0 then Decref(s1, p.stdin) else s1;
      var s3 := if p.stdout >= 0 then Decref(s2, p.stdout) else s2;
      s3.(procs := s3.procs - {pid})
  }

  /** The value of a 64-bit number cut down to a signed 32-bit one; -1 stands for every negative value. */
  function AsIndex(fd: nat): int {
    if fd % 0x1_0000_0000 < 0x8000_0000 then fd % 0x1_0000_0000 else -1
  }

  /** The descriptor a call means: numbers up to `last` are the process's own. */
  function Resolve(s: State, cur: nat, fd: nat, last: nat): int
    requires cur in s.procs
  {
    if fd <= last then FdOf(s.procs[cur], fd) else AsIndex(fd)
  }

  /** read on a pipe; other descriptors give nothing here. */
  function SysRead(s: State, cur: nat, fd: nat, count: nat): (r: (State, ReadResult))
    requires Sized(s) && cur in s.procs
    ensures Sized(r.0)
  {
    var f := Resolve(s, cur, fd, STDIN);
    if !Live(s, f) || s.fds[f].kind != ReadEnd then (s, Got([]))
    else
      var i := s.fds[f].pipe;
      var (p, result, woken) := Read(s.pipes[i], cur, count);
      var s1 := OnPipe(s, i, (p, woken));
      (if result.ReadBlocks? then s1.(procs := SetBlocked(s1.procs, cur, true)) else s1, result)
  }

  function SysWrite(s: State, cur: nat, fd: nat, bytes: seq<Byte>): (r: (State, WriteResult))
    requires Sized(s) && cur in s.procs
    ensures Sized(r.0)
  {
    var f := Resolve(s, cur, fd, STDOUT);
    if !Live(s, f) || s.fds[f].kind != WriteEnd then (s, Accepted(0))
    else
      var i := s.fds[f].pipe;
      var (p, result, woken) := Write(s.pipes[i], cur, bytes);
      var s1 := OnPipe(s, i, (p, woken));
      (if result.WriteBlocks? then s1.(procs := SetBlocked(s1.procs, cur, true)) else s1, result)
  }
}
