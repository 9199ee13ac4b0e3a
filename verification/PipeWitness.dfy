/** A run that fills the descriptor table and then loses a pipe slot for good. */
module PipeWitness {
  import opened Basics
  import opened PipeSpec
  import opened PipeLaws
  import opened PipeRuns

  const PAIRS := (MAX_FDS - 2) / 2

  /** The named pipe in slot 0 has been opened n times and takes up 2 n descriptors; the other slots are free. */
  ghost predicate Filled(s: State, n: nat, name: string) {
    && Sized(s) && n <= PAIRS
    && (forall k :: 0 <= k < MAX_FDS ==> (s.fds[k].kind == NoFd <==> k >= 2 + 2 * n))
    && (forall i :: 1 <= i < MAX_PIPES ==> s.pipes[i] == Unused())
    && if n == 0 then s.pipes[0] == Unused()
       else s.pipes[0].inUse && s.pipes[0].named && s.pipes[0].name == name && s.pipes[0].readers == s.pipes[0].writers == []
  }

  lemma OneEnd(s: State, n: nat, kind: FDKind)
    requires Sized(s) && kind in {ReadEnd, WriteEnd} && n < MAX_FDS && s.fds[n].kind == NoFd
    requires forall k :: 0 <= k < n ==> s.fds[k].kind != NoFd
    requires s.pipes[0].readers == s.pipes[0].writers == []
    ensures var (r, fd), p := CreatePipeFd(s, 0, kind), s.pipes[0];
            && fd == n && r.fds == s.fds[n := FD(kind, 1, 0)] && r.procs == s.procs
            && r.pipes == s.pipes[0 := if kind == ReadEnd then p.(openRead := p.openRead + 1)
                                       else p.(openWrite := p.openWrite + 1, eof := if p.named then false else p.eof)]
  {
    assert FreeFd(s.fds, 0) == n;
  }

  /** Opening the named pipe once more. */
  lemma Fills(s: State, n: nat, name: string)
    requires Filled(s, n, name) && n < PAIRS && |name| < PIPE_NAME_LEN
    ensures Filled(Step(s, MakePipe(Some(name))), n + 1, name)
  {
    hide CreatePipeFd;
    var (s1, i) := PipeOpen(s, Some(name));
    assert i == 0 && s1.fds == s.fds && s1.pipes == s.pipes[0 := s1.pipes[0]];
    OneEnd(s1, 2 + 2 * n, ReadEnd);
    var s2 := CreatePipeFd(s1, 0, ReadEnd).0;
    OneEnd(s2, 3 + 2 * n, WriteEnd);
  }

  function Opens(name: string, n: nat): seq<Event> {
    seq(n, _ => MakePipe(Some(name)))
  }

  lemma {:induction false} FillsUp(s: State, n: nat, name: string, m: nat)
    requires Filled(s, n, name) && n + m == PAIRS && |name| < PIPE_NAME_LEN
    ensures Legal(s, Opens(name, m)) && Filled(Run(s, Opens(name, m)), PAIRS, name)
    decreases m
  {
    hide Filled, Step;
    assert Sized(s) by { FilledSized(s, n, name); }
    if m == 0 {
      assert Opens(name, m) == [];
    } else {
      assert Opens(name, m)[0] == MakePipe(Some(name)) && Opens(name, m)[1..] == Opens(name, m - 1);
      Fills(s, n, name);
      FillsUp(Step(s, MakePipe(Some(name))), n + 1, name, m - 1);
    }
  }

  lemma FilledSized(s: State, n: nat, name: string)
    requires Filled(s, n, name)
    ensures Sized(s)
  {
  }

  lemma Begins(name: string)
    ensures Sized(Initial()) && Enabled(Initial(), Create(1)) && Filled(Step(Initial(), Create(1)), 0, name)
  {
  }

  lemma NoneFree(s: State, name: string)
    requires Filled(s, PAIRS, name)
    ensures FreePipe(s.pipes, 0) == 1 && FreeFd(s.fds, 0) == MAX_FDS
  {
  }

  /** A process starts, opens one named pipe 64 times, and asks for an anonymous one: the call fails, a slot of the pipe
      table is in use without any descriptor, and it stays so whatever happens next. */
  lemma PipeIsLost(name: string, later: seq<Event>)
    requires |name| < PIPE_NAME_LEN
    ensures Sized(Initial()) && Legal(Initial(), [Create(1)] + Opens(name, PAIRS))
    ensures var s := Run(Initial(), [Create(1)] + Opens(name, PAIRS)); var (r, result) := SysPipe(s, None);
            && Agree(r) && result == None && Stranded(r.pipes[1])
            && (Legal(r, later) ==> Stranded(Run(r, later).pipes[1]))
  {
    hide Step, Filled, SysPipe, Agree, Initial, Legal, Run;
    Begins(name);
    var evs := [Create(1)] + Opens(name, PAIRS);
    assert evs[0] == Create(1) && evs[1..] == Opens(name, PAIRS);
    var s0 := Step(Initial(), Create(1));
    FillsUp(s0, 0, name, PAIRS);
    FirstEvent(Initial(), evs);
    var s := Run(Initial(), evs);
    InitialAgrees();
    RunAgrees(Initial(), evs);
    NoneFree(s, name);
    StrandedIffNoDescriptor(s);
    StepAgrees(s, MakePipe(None));
    var r := SysPipe(s, None).0;
    assert r == Step(s, MakePipe(None)) by { PipeIsStep(s); }
    if Legal(r, later) { StaysStranded(r, later, 1); }
  }

  lemma PipeIsStep(s: State)
    requires Sized(s)
    ensures Step(s, MakePipe(None)) == SysPipe(s, None).0
  {
  }

  lemma FirstEvent(s: State, evs: seq<Event>)
    requires Sized(s) && evs != [] && Enabled(s, evs[0]) && Legal(Step(s, evs[0]), evs[1..])
    ensures Legal(s, evs) && Run(s, evs) == Run(Step(s, evs[0]), evs[1..])
  {
  }

  lemma {:induction false} StaysStranded(s: State, evs: seq<Event>, i: nat)
    requires Agree(s) && Legal(s, evs) && i < MAX_PIPES && Stranded(s.pipes[i])
    ensures Stranded(Run(s, evs).pipes[i])
    decreases |evs|
  {
    hide Step, Enabled, PipeOk, FdOk;
    if evs != [] {
      StepAgrees(s, evs[0]);
      StrandedForever(s, evs[0], i);
      StaysStranded(Step(s, evs[0]), evs[1..], i);
    }
  }
}
