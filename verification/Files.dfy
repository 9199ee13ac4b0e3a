/** The descriptor table over the pipe table, and the calls that change both together. */
module Files {
  import opened Basics
  import opened PipeSpec
  import Pipes

  class FileTable {
    const pipes: seq<Pipes.Pipe>
    const fdTable: array<FD>
    var procs: Procs
    ghost const Repr: set<object>

    ghost predicate Apart(i: nat, j: nat)
      requires i < |pipes| && j < |pipes|
    {
      pipes[i].Repr !! pipes[j].Repr
    }

    ghost predicate Valid()
      reads Repr
    {
      && |pipes| == MAX_PIPES && fdTable in Repr && fdTable.Length == MAX_FDS && this !in Repr
      && (forall i :: 0 <= i < |pipes| ==>
            pipes[i] in Repr && pipes[i].Repr <= Repr && fdTable !in pipes[i].Repr && pipes[i].Valid())
      && (forall i, j :: 0 <= i < |pipes| && 0 <= j < |pipes| && i != j ==> Apart(i, j))
      && (forall k :: 0 <= k < MAX_FDS && fdTable[k].kind in {ReadEnd, WriteEnd} ==> fdTable[k].pipe < MAX_PIPES)
    }

    ghost function Views(): (r: seq<PipeSpec.Pipe>)
      reads Repr
      requires Valid()
      ensures |r| == MAX_PIPES && forall i :: 0 <= i < MAX_PIPES ==> r[i] == pipes[i].View()
    {
      seq(|pipes|, i requires 0 <= i < |pipes| reads Repr requires Valid() => pipes[i].View())
    }

    ghost function View(): (s: State)
      reads this, Repr
      requires Valid()
      ensures Sized(s)
    {
      State(Views(), fdTable[..], procs)
    }

    /** Every pipe but pipe i is as it was. */
    twostate predicate Elsewhere(i: nat)
      reads Repr
    {
      && old(Valid()) && Valid() && i < |pipes|
      && forall j :: 0 <= j < |pipes| && j != i ==> pipes[j].View() == old(pipes[j].View())
    }

    twostate lemma OneChanged(i: nat)
      requires Elsewhere(i)
      ensures Views() == old(Views())[i := pipes[i].View()]
    {
    }

    /** Only what belongs to pipe i has changed, and that pipe is in order. */
    twostate lemma OthersKept(i: nat)
      requires old(Valid()) && i < |pipes| && pipes[i].Valid() && unchanged(Repr - pipes[i].Repr)
      ensures Valid() && Elsewhere(i) && fdTable[..] == old(fdTable[..])
    {
      assert pipes[i].Repr <= Repr;
      forall j | 0 <= j < |pipes| && j != i ensures pipes[j].Valid() && pipes[j].View() == old(pipes[j].View()) { assert Apart(i, j); }
    }

    lemma PipeIs(i: nat)
      requires Valid() && i < MAX_PIPES
      ensures |pipes| == MAX_PIPES && pipes[i].Valid() && pipes[i].Repr <= Repr && this !in Repr && fdTable.Length == MAX_FDS
      ensures Views()[i] == pipes[i].View()
    {
    }

    /** process_unblock for each of them, in order. */
    method WakeUp(woken: seq<nat>)
      modifies `procs
      ensures procs == Wake(old(procs), woken)
    {
      var k := 0;
      while k < |woken|
        invariant 0 <= k <= |woken| && Wake(procs, woken[k..]) == Wake(old(procs), woken)
      {
        assert woken[k..] == [woken[k]] + woken[k + 1..];
        procs := SetBlocked(procs, woken[k], false);
        k := k + 1;
      }
    }

    // ---------------------------------------------------------------- ends of pipes

    method OpenEnd(i: nat, kind: FDKind)
      requires Valid() && i < MAX_PIPES && kind in {ReadEnd, WriteEnd}
      modifies `procs, pipes[i].Repr
      ensures Valid() && fdTable[..] == old(fdTable[..])
      ensures var p := old(Views())[i]; var r := if kind == ReadEnd then OpenRead(p) else OpenWrite(p);
              Views() == old(Views())[i := r.0] && procs == Wake(old(procs), r.1)
    {
      hide Wake, PipeSpec.OpenRead, PipeSpec.OpenWrite, FileTable.Valid, Elsewhere;
      PipeIs(i);
      var woken;
      if kind == ReadEnd {
        woken := pipes[i].PipeOpenRead();
      } else {
        woken := pipes[i].PipeOpenWrite();
      }
      OthersKept(i);
      OneChanged(i);
      WakeUp(woken);
    }

    method CloseEnd(i: nat, kind: FDKind)
      requires Valid() && i < MAX_PIPES && kind in {ReadEnd, WriteEnd}
      modifies `procs, pipes[i].Repr
      ensures Valid() && fdTable[..] == old(fdTable[..])
      ensures var p := old(Views())[i]; var r := if kind == ReadEnd then CloseRead(p) else CloseWrite(p);
              Views() == old(Views())[i := r.0] && procs == Wake(old(procs), r.1)
    {
      hide Wake, PipeSpec.CloseRead, PipeSpec.CloseWrite, FileTable.Valid, Elsewhere;
      PipeIs(i);
      var woken;
      if kind == ReadEnd {
        woken := pipes[i].PipeCloseRead();
      } else {
        woken := pipes[i].PipeCloseWrite();
      }
      OthersKept(i);
      OneChanged(i);
      WakeUp(woken);
    }

    // ---------------------------------------------------------------- descriptors

    method SetEntry(k: nat, d: FD)
      requires Valid() && k < MAX_FDS && (d.kind in {ReadEnd, WriteEnd} ==> d.pipe < MAX_PIPES)
      modifies fdTable
      ensures Valid() && View() == old(View()).(fds := old(View()).fds[k := d])
    {
      fdTable[k] := d;
    }

    /** A slot for a new descriptor, without references yet; -1 if the table is full. */
    method FdAlloc(kind: FDKind, i: nat) returns (fd: int)
      requires Valid() && i < MAX_PIPES && kind in {ReadEnd, WriteEnd}
      modifies fdTable
      ensures Valid()
      ensures var k := FreeFd(old(fdTable[..]), 0);
              if k == MAX_FDS then fd == -1 && View() == old(View())
              else fd == k && View() == old(View()).(fds := old(View()).fds[k := FD(kind, 0, i)])
    {
      var k := 0;
      while k < MAX_FDS
        invariant 0 <= k <= MAX_FDS && Valid() && View() == old(View())
        invariant FreeFd(fdTable[..], k) == FreeFd(fdTable[..], 0)
      {
        if fdTable[k].kind == NoFd {
          SetEntry(k, FD(kind, 0, i));
          return k;
        }
        k := k + 1;
      }
      return -1;
    }

    method FdIncref(fd: int)
      requires Valid()
      modifies this, Repr
      ensures Valid() && View() == Incref(old(View()), fd)
    {
      hide Wake, PipeSpec.OpenRead, PipeSpec.OpenWrite;
      if fd < 0 || fd >= MAX_FDS || fdTable[fd].kind == NoFd {
        return;
      }
      var d := fdTable[fd];
      SetEntry(fd, d.(refs := d.refs + 1));
      if d.kind == ReadEnd || d.kind == WriteEnd {
        OpenEnd(d.pipe, d.kind);
      }
    }

    /** One reference of a live descriptor less, and of the end of the pipe it stands for. */
    method Unref(fd: nat)
      requires Valid() && fd < MAX_FDS && fdTable[fd].kind != NoFd && fdTable[fd].refs > 0
      modifies this, Repr
      ensures Valid() && View() == Unreferenced(old(View()), fd)
    {
      hide Wake, PipeSpec.CloseRead, PipeSpec.CloseWrite, FileTable.Valid;
      TableIs();
      var d := fdTable[fd];
      ghost var s := View();
      assert d.kind in {ReadEnd, WriteEnd} ==> d.pipe < MAX_PIPES;
      SetEntry(fd, d.(refs := d.refs - 1));
      TableIs();
      if d.kind == ReadEnd || d.kind == WriteEnd {
        CloseEnd(d.pipe, d.kind);
        TableIs();
      }
    }

    lemma TableIs()
      requires Valid()
      ensures fdTable.Length == MAX_FDS && View().fds == fdTable[..] && View().procs == procs && View().pipes == Views()
      ensures fdTable in Repr && this !in Repr && |pipes| == MAX_PIPES && forall i :: 0 <= i < MAX_PIPES ==> pipes[i].Repr <= Repr
      ensures Sized(View()) && forall k :: 0 <= k < MAX_FDS && fdTable[k].kind in {ReadEnd, WriteEnd} ==> fdTable[k].pipe < MAX_PIPES
    {
    }

    method FdDecref(fd: int)
      requires Valid()
      modifies this, Repr
      ensures Valid() && View() == Decref(old(View()), fd)
    {
      hide FileTable.Valid, FileTable.View, Unreferenced, Decref;
      TableIs();
      ghost var s := View();
      if fd < 0 || fd >= MAX_FDS || fdTable[fd].kind == NoFd {
        DecrefDead(s, fd);
        return;
      }
      DecrefLive(s, fd);
      var d := fdTable[fd];
      if d.refs > 0 {
        Unref(fd);
        TableIs();
      }
      if fdTable[fd].refs == 0 && d.kind != Terminal {
        SetEntry(fd, FD(NoFd, 0, 0));
      }
    }

    method FdCreatePipe(i: nat, kind: FDKind) returns (fd: int)
      requires Valid() && i < MAX_PIPES && kind in {ReadEnd, WriteEnd}
      modifies this, Repr
      ensures Valid() && (View(), fd) == CreatePipeFd(old(View()), i, kind)
    {
      hide Incref, FreeFd;
      fd := FdAlloc(kind, i);
      if fd >= 0 {
        FdIncref(fd);
      }
    }

    /** Both ends; on failure the read descriptor, if there is one, is given back. */
    method PipeCreateFds(i: nat) returns (fds: Option<(int, int)>)
      requires Valid() && i < MAX_PIPES
      modifies this, Repr
      ensures Valid() && (View(), fds) == CreateFds(old(View()), i)
    {
      hide CreatePipeFd, Decref;
      var rd := FdCreatePipe(i, ReadEnd);
      if rd < 0 {
        return None;
      }
      var wr := FdCreatePipe(i, WriteEnd);
      if wr < 0 {
        FdDecref(rd);
        return None;
      }
      return Some((rd, wr));
    }

    // ---------------------------------------------------------------- pipes

    method SetPipe(i: nat, name: Option<string>)
      requires Valid() && i < MAX_PIPES
      modifies pipes[i].Repr
      ensures Valid() && View() == old(View()).(pipes := old(View()).pipes[i := NewPipe(name)])
    {
      hide NewPipe;
      pipes[i].Allocate(name);
      OthersKept(i);
      OneChanged(i);
    }

    method ReopenPipe(i: nat)
      requires Valid() && i < MAX_PIPES
      modifies pipes[i].Repr
      ensures Valid()
      ensures var p := old(View()).pipes[i]; View() == old(View()).(pipes := old(View()).pipes[i := p.(opens := p.opens + 1)])
    {
      pipes[i].Reopen();
      OthersKept(i);
      OneChanged(i);
    }

    /** The named pipe in use under this name; the size of the table if there is none. */
    method FindPipe(name: string) returns (i: nat)
      requires Valid()
      ensures i == FindNamed(Views(), name, 0)
    {
      i := 0;
      while i < MAX_PIPES
        invariant 0 <= i <= MAX_PIPES && FindNamed(Views(), name, i) == FindNamed(Views(), name, 0)
      {
        assert Views()[i] == pipes[i].View();
        if pipes[i].inUse && pipes[i].isNamed && pipes[i].name == name {
          return;
        }
        i := i + 1;
      }
    }

    /** A slot for a new pipe; the size of the table if it is full. */
    method FreeSlot() returns (i: nat)
      requires Valid()
      ensures i == FreePipe(Views(), 0)
    {
      i := 0;
      while i < MAX_PIPES
        invariant 0 <= i <= MAX_PIPES && FreePipe(Views(), i) == FreePipe(Views(), 0)
      {
        assert Views()[i] == pipes[i].View();
        if !pipes[i].inUse {
          return;
        }
        i := i + 1;
      }
    }

    method OpenPipe(name: Option<string>) returns (i: nat)
      requires Valid()
      modifies this, Repr
      ensures Valid() && (View(), i) == PipeOpen(old(View()), name)
    {
      hide NewPipe, FindNamed, FreePipe;
      if name.Some? {
        i := FindPipe(name.value);
        if i < MAX_PIPES {
          ReopenPipe(i);
          return;
        }
      }
      i := FreeSlot();
      if i < MAX_PIPES {
        SetPipe(i, name);
      }
    }

    // ---------------------------------------------------------------- system calls

    constructor ()
      ensures Valid() && View() == State(seq(MAX_PIPES, _ => Unused()),
                                         seq(MAX_FDS, k requires 0 <= k => if k <= STDOUT then FD(Terminal, 0, 0) else FD(NoFd, 0, 0)),
                                         map[])
      ensures fresh(Repr)
    {
      var slots: seq<Pipes.Pipe>;
      ghost var repr;
      slots, repr := EmptySlots();
      pipes := slots;
      var fds := new FD[MAX_FDS](k => if k <= STDOUT then FD(Terminal, 0, 0) else FD(NoFd, 0, 0));
      fdTable := fds;
      procs := map[];
      Repr := repr + {fds};
      new;
      hide FileTable.Valid;
      assert Valid() by { FreshOk(slots, fds); }
      TableIs();
      assert Views() == seq(MAX_PIPES, _ => Unused()) by { FreshViews(); }
    }

    lemma FreshOk(slots: seq<Pipes.Pipe>, fds: array<FD>)
      requires pipes == slots && fdTable == fds && |slots| == MAX_PIPES && fds.Length == MAX_FDS && fds in Repr && this !in Repr
      requires forall i :: 0 <= i < |slots| ==> slots[i] in Repr && slots[i].Repr <= Repr && fds !in slots[i].Repr && slots[i].Valid()
      requires forall i, j :: 0 <= i < |slots| && 0 <= j < |slots| && i != j ==> slots[i].Repr !! slots[j].Repr
      requires forall k :: 0 <= k < MAX_FDS ==> fds[k].kind !in {ReadEnd, WriteEnd}
      ensures Valid()
    {
    }

    lemma FreshViews()
      requires Valid() && |pipes| == MAX_PIPES && forall i :: 0 <= i < |pipes| ==> pipes[i].Valid() && pipes[i].View() == Unused()
      ensures Views() == seq(MAX_PIPES, _ => Unused())
    {
    }

    static method EmptySlots() returns (slots: seq<Pipes.Pipe>, ghost repr: set<object>)
      ensures |slots| == MAX_PIPES && fresh(repr)
      ensures forall i :: 0 <= i < |slots| ==>
                slots[i] in repr && slots[i].Repr <= repr && slots[i].Valid() && slots[i].View() == Unused()
      ensures forall i, j :: 0 <= i < |slots| && 0 <= j < |slots| && i != j ==> slots[i].Repr !! slots[j].Repr
    {
      slots, repr := [], {};
      while |slots| < MAX_PIPES
        invariant |slots| <= MAX_PIPES && fresh(repr)
        invariant forall i :: 0 <= i < |slots| ==>
                    slots[i] in repr && slots[i].Repr <= repr && slots[i].Valid() && slots[i].View() == Unused()
        invariant forall i, j :: 0 <= i < |slots| && 0 <= j < |slots| && i != j ==> slots[i].Repr !! slots[j].Repr
        decreases MAX_PIPES - |slots|
      {
        var p := new Pipes.Pipe();
        repr := repr + p.Repr;
        slots := slots + [p];
      }
    }

    /** pipe, and pipe_open by name: the pair of descriptors, or None for -1. */
    method MakePipe(name: Option<string>) returns (fds: Option<(int, int)>)
      requires Valid()
      modifies this, Repr
      ensures Valid() && (View(), fds) == SysPipe(old(View()), name)
    {
      hide PipeOpen, CreateFds;
      var i := OpenPipe(name);
      if i == MAX_PIPES {
        return None;
      }
      fds := PipeCreateFds(i);
    }

    /** Let `fd` stand for descriptor `which` of the process, in place of the one it has. */
    method Redirect(pid: nat, which: nat, fd: int)
      requires Valid() && pid in procs && which <= 1
      modifies this, Repr
      ensures Valid()
      ensures var s := old(View()); var was := FdOf(s.procs[pid], which);
              && Decref(s, was).procs.Keys == s.procs.Keys
              && View() == Incref(SetFd(if was >= 0 then Decref(s, was) else s, pid, which, fd), fd)
    {
      hide Incref, Decref;
      var was := FdOf(procs[pid], which);
      OnPipeKeys(View(), was);
      if was >= 0 {
        FdDecref(was);
      }
      procs := procs[pid := WithFd(procs[pid], which, fd)];
      FdIncref(fd);
    }

    method SysDup2(cur: nat, oldFd: nat, newFd: nat) returns (r: int)
      requires Valid()
      modifies this, Repr
      ensures Valid() && (View(), r) == Dup2(old(View()), cur, oldFd, newFd)
    {
      hide Incref, Decref;
      if newFd > 1 || oldFd >= MAX_FDS || fdTable[oldFd].kind == NoFd || cur !in procs {
        return -1;
      }
      if FdOf(procs[cur], newFd) == oldFd {
        return oldFd;
      }
      Redirect(cur, newFd, oldFd);
      return oldFd;
    }

    method SysClose(fd: nat)
      requires Valid()
      modifies this, Repr
      ensures Valid() && View() == Decref(old(View()), fd)
    {
      FdDecref(fd);
    }

    method ProcessPipeSetup(pid: nat, stdioFd: int, target: nat)
      requires Valid()
      modifies this, Repr
      ensures Valid() && View() == PipeSetup(old(View()), pid, stdioFd, target)
    {
      hide Incref, Decref;
      if pid !in procs || target > 1 {
        return;
      }
      Redirect(pid, target, stdioFd);
    }

    /** What creating a process does here. */
    method ProcessStarts(pid: nat)
      requires Valid()
      modifies this, Repr
      ensures Valid() && View() == NewProcess(old(View()), pid)
    {
      hide Incref;
      procs := procs[pid := Proc(STDIN, STDOUT, false)];
      FdIncref(STDIN);
      FdIncref(STDOUT);
    }

    /** Take a dying process out of the queues of every pipe. */
    method Cleanup(pid: nat)
      requires Valid()
      modifies Repr
      ensures Valid() && fdTable[..] == old(fdTable[..])
      ensures Views() == ForgetAll(old(Views()), pid)
    {
      hide Forget;
      var i := 0;
      ghost var was := Views();
      while i < MAX_PIPES
        invariant 0 <= i <= MAX_PIPES && Valid() && fdTable[..] == old(fdTable[..])
        invariant forall k :: 0 <= k < MAX_PIPES ==> Views()[k] == if k < i then Forget(was[k], pid) else was[k]
      {
        ForgetAt(i, pid);
        i := i + 1;
      }
    }

    method ForgetAt(i: nat, pid: nat)
      requires Valid() && i < MAX_PIPES
      modifies pipes[i].Repr
      ensures Valid() && fdTable[..] == old(fdTable[..]) && Views() == old(Views())[i := Forget(old(Views())[i], pid)]
    {
      hide Forget;
      pipes[i].RemoveWaiter(pid);
      OthersKept(i);
      OneChanged(i);
    }

    /** What the death of a process does here. */
    method ProcessDies(pid: nat)
      requires Valid()
      modifies this, Repr
      ensures Valid() && View() == Die(old(View()), pid)
    {
      hide Decref, Forget, FileTable.Valid;
      TableIs();
      if pid !in procs {
        return;
      }
      Cleanup(pid);
      TableIs();
      var p := procs[pid];
      if p.stdin >= 0 {
        FdDecref(p.stdin);
      }
      if p.stdout >= 0 {
        FdDecref(p.stdout);
      }
      TableIs();
      procs := procs - {pid};
    }

    method ReadPipe(i: nat, cur: nat, count: nat) returns (r: ReadResult)
      requires Valid() && i < MAX_PIPES
      modifies `procs, pipes[i].Repr
      ensures Valid()
      ensures var s := old(View()); var (p, result, woken) := Read(s.pipes[i], cur, count);
              r == result && View() == OnPipe(s, i, (p, woken))
    {
      hide Wake, Read, FileTable.Valid, Elsewhere;
      PipeIs(i);
      var woken;
      r, woken := pipes[i].PipeRead(cur, count);
      OthersKept(i);
      OneChanged(i);
      WakeUp(woken);
    }

    method WritePipe(i: nat, cur: nat, bytes: seq<Byte>) returns (r: WriteResult)
      requires Valid() && i < MAX_PIPES
      modifies `procs, pipes[i].Repr
      ensures Valid()
      ensures var s := old(View()); var (p, result, woken) := Write(s.pipes[i], cur, bytes);
              r == result && View() == OnPipe(s, i, (p, woken))
    {
      hide Wake, Write, FileTable.Valid, Elsewhere;
      PipeIs(i);
      var woken;
      r, woken := pipes[i].PipeWrite(cur, bytes);
      OthersKept(i);
      OneChanged(i);
      WakeUp(woken);
    }

    /** read by a process on one of its descriptors, where that is the read end of a pipe. */
    method FdRead(cur: nat, fd: nat, count: nat) returns (r: ReadResult)
      requires Valid() && cur in procs
      modifies this, Repr
      ensures Valid() && (View(), r) == SysRead(old(View()), cur, fd, count)
    {
      hide Wake, Read, FileTable.Valid, Resolve;
      TableIs();
      ResolveIs(View(), cur, fd, STDIN);
      var f := if fd <= STDIN then FdOf(procs[cur], fd) else AsIndex(fd);
      if f < 0 || f >= MAX_FDS || fdTable[f].kind != ReadEnd {
        return Got([]);
      }
      r := ReadPipe(fdTable[f].pipe, cur, count);
      if r.ReadBlocks? {
        procs := SetBlocked(procs, cur, true);
      }
    }

    method FdWrite(cur: nat, fd: nat, bytes: seq<Byte>) returns (r: WriteResult)
      requires Valid() && cur in procs
      modifies this, Repr
      ensures Valid() && (View(), r) == SysWrite(old(View()), cur, fd, bytes)
    {
      hide Wake, Write, FileTable.Valid, Resolve;
      TableIs();
      ResolveIs(View(), cur, fd, STDOUT);
      var f := if fd <= STDOUT then FdOf(procs[cur], fd) else AsIndex(fd);
      if f < 0 || f >= MAX_FDS || fdTable[f].kind != WriteEnd {
        return Accepted(0);
      }
      r := WritePipe(fdTable[f].pipe, cur, bytes);
      if r.WriteBlocks? {
        procs := SetBlocked(procs, cur, true);
      }
    }
  }

  /** One reference less, before anything is released. */
  function Unreferenced(s: State, fd: nat): (r: State)
    requires Sized(s) && Live(s, fd) && s.fds[fd].refs > 0
    ensures Sized(r) && r.fds == s.fds[fd := s.fds[fd].(refs := s.fds[fd].refs - 1)]
  {
    var d := s.fds[fd];
    var s1 := s.(fds := s.fds[fd := d.(refs := d.refs - 1)]);
    if d.kind == ReadEnd then OnPipe(s1, d.pipe, CloseRead(s.pipes[d.pipe]))
    else if d.kind == WriteEnd then OnPipe(s1, d.pipe, CloseWrite(s.pipes[d.pipe]))
    else s1
  }

  lemma DecrefDead(s: State, fd: int)
    requires Sized(s) && !Live(s, fd)
    ensures Decref(s, fd) == s
  {
  }

  /** What gives back a reference, in two steps. */
  lemma DecrefLive(s: State, fd: nat)
    requires Sized(s) && Live(s, fd)
    ensures var d := s.fds[fd]; var u := if d.refs > 0 then Unreferenced(s, fd) else s;
            && |u.fds| == |s.fds|
            && Decref(s, fd) == if u.fds[fd].refs == 0 && d.kind != Terminal then u.(fds := u.fds[fd := FD(NoFd, 0, 0)]) else u
  {
    hide Wake, PipeSpec.CloseRead, PipeSpec.CloseWrite;
    assert s.fds[fd := s.fds[fd]] == s.fds;
  }

  lemma ResolveIs(s: State, cur: nat, fd: nat, last: nat)
    requires cur in s.procs
    ensures Resolve(s, cur, fd, last) == if fd <= last then FdOf(s.procs[cur], fd) else AsIndex(fd)
  {
  }
}
