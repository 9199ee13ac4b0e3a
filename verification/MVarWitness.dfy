/** A run of two writers in which the death of one leaves two tokens. */
module MVarWitness {
  import opened SemaphoreSpec
  import opened MVar
  import opened MVarBooks
  import opened MVarDeath

  /** Two processes just created, and no semaphore in use. */
  function Start(): Sys {
    Sys(State(seq(MAX_SEMS, _ => Sem("", 0, [], 0)), map[1 := Proc({}, {}, false), 2 := Proc({}, {}, false)]), map[], 0, [], [])
  }

  /** Both open the buffer; the first one puts a value. */
  function OnePut(value: int): seq<Event> {
    [Join(1, Writer), Join(2, Writer), OpenEmpty(1), OpenFull(1), OpenEmpty(2), OpenFull(2), Begin(1, value), Access(1), End(1)]
  }

  /** Two writers, where they are, and nothing put so far. */
  ghost predicate Pair(y: Sys, name: string, a: Part, b: Part) {
    Kept(y, name) && y.parts == map[1 := a, 2 := b]
  }

  lemma StartFresh(name: string)
    ensures Fresh(Start(), name)
  {
  }

  lemma BothJoin(name: string)
    ensures Enabled(Start(), Join(1, Writer), name) && Enabled(Step(Start(), Join(1, Writer), name), Join(2, Writer), name)
    ensures var y := Step(Step(Start(), Join(1, Writer), name), Join(2, Writer), name);
            Pair(y, name, Part(Writer, New, 0), Part(Writer, New, 0)) && y.kernel == Start().kernel && y.puts == y.takes == []
  {
    hide Kept, EmptyName, FullName;
    StartFresh(name);
    FreshKept(Start(), name);
    StepKept(Start(), Join(1, Writer), name);
    StepKept(Step(Start(), Join(1, Writer), name), Join(2, Writer), name);
  }

  /** Nobody outside a call is blocked. */
  lemma Awake(y: Sys, name: string, p: nat)
    requires Kept(y, name) && p in y.parts && !y.parts[p].pc.Entered?
    ensures Runs(y, p)
  {
    hide EmptyName, FullName, Find, Balanced, Books, Named;
  }

  lemma FirstOpens(y: Sys, name: string)
    requires Pair(y, name, Part(Writer, New, 0), Part(Writer, New, 0)) && y.kernel.sems == Start().kernel.sems
    ensures Enabled(y, OpenEmpty(1), name) && Enabled(Step(y, OpenEmpty(1), name), OpenFull(1), name)
    ensures var r := Step(Step(y, OpenEmpty(1), name), OpenFull(1), name);
            Pair(r, name, Part(Writer, Idle, 0), Part(Writer, New, 0)) && r.puts == y.puts && r.takes == y.takes
  {
    hide Kept, EmptyName, FullName, SetOpened;
    Awake(y, name, 1);
    var y1 := Step(y, OpenEmpty(1), name);
    StepKept(y, OpenEmpty(1), name);
    Awake(y1, name, 1);
    assert y1.kernel.sems[1].opens == 0;
    StepKept(y1, OpenFull(1), name);
  }

  lemma SecondOpens(y: Sys, name: string)
    requires Pair(y, name, Part(Writer, Idle, 0), Part(Writer, New, 0))
    ensures Enabled(y, OpenEmpty(2), name) && Enabled(Step(y, OpenEmpty(2), name), OpenFull(2), name)
    ensures var r := Step(Step(y, OpenEmpty(2), name), OpenFull(2), name);
            Pair(r, name, Part(Writer, Idle, 0), Part(Writer, Idle, 0)) && r.puts == y.puts && r.takes == y.takes
  {
    hide Kept, EmptyName, FullName, SetOpened, Find, FreeSem;
    Awake(y, name, 2);
    OpenForFirst(y, name);
    var y1 := Step(y, OpenEmpty(2), name);
    StepKept(y, OpenEmpty(2), name);
    Awake(y1, name, 2);
    OpenForFirst(y1, name);
    StepKept(y1, OpenFull(2), name);
  }

  lemma OpenForFirst(y: Sys, name: string)
    requires Kept(y, name) && 1 in y.parts && y.parts[1].pc == Idle
    ensures HasRoom(y.kernel, EmptyName(name)) && HasRoom(y.kernel, FullName(name))
  {
    hide EmptyName, FullName, Find, Balanced, Books, Named;
  }

  /** The first writer finds the place empty and puts its value. */
  lemma FirstPuts(y: Sys, name: string, value: int)
    requires Pair(y, name, Part(Writer, Idle, 0), Part(Writer, Idle, 0)) && y.puts == y.takes == []
    ensures Enabled(y, Begin(1, value), name) && Enabled(Step(y, Begin(1, value), name), Access(1), name)
    ensures Enabled(Step(Step(y, Begin(1, value), name), Access(1), name), End(1), name)
    ensures var r := Step(Step(Step(y, Begin(1, value), name), Access(1), name), End(1), name);
            Pair(r, name, Part(Writer, Idle, 1), Part(Writer, Idle, 0)) && r.puts == [value]
  {
    hide Kept, EmptyName, FullName, SetHeld, Find;
    Awake(y, name, 1);
    PlaceEmpty(y, name);
    var y1 := Step(y, Begin(1, value), name);
    StepKept(y, Begin(1, value), name);
    assert Runs(y1, 1) by { SemaphoreBits(y, name); }
    var y2 := Step(y1, Access(1), name);
    StepKept(y1, Access(1), name);
    Awake(y2, name, 1);
    StepKept(y2, End(1), name);
    EndParts(y2, name, 1);
  }

  lemma SemaphoreBits(y: Sys, name: string)
    requires Runs(y, 1)
    ensures forall i :: 1 in SetHeld(y.kernel.procs, 1, i, true) && !SetHeld(y.kernel.procs, 1, i, true)[1].blocked
  {
  }

  lemma PlaceEmpty(y: Sys, name: string)
    requires Pair(y, name, Part(Writer, Idle, 0), Part(Writer, Idle, 0)) && y.puts == y.takes == []
    ensures EmptyAt(y.kernel, name) < |y.kernel.sems| && y.kernel.sems[EmptyAt(y.kernel, name)].value == 1
  {
    hide EmptyName, FullName, Find, Books, Named;
    assert 1 in y.parts && y.parts[1].pc == Idle;
    assert Inside(y) == {};
  }

  /** The k-th event leads from y to where the rest of the run starts. */
  lemma NextEvent(y: Sys, evs: seq<Event>, k: nat, name: string)
    requires k < |evs| && Enabled(y, evs[k], name) && Legal(Step(y, evs[k], name), evs[k + 1..], name)
    ensures Legal(y, evs[k..], name) && Run(y, evs[k..], name) == Run(Step(y, evs[k], name), evs[k + 1..], name)
  {
    assert evs[k..][0] == evs[k] && evs[k..][1..] == evs[k + 1..];
  }

  lemma TwoEvents(y: Sys, evs: seq<Event>, k: nat, name: string)
    requires k + 1 < |evs| && Enabled(y, evs[k], name) && Enabled(Step(y, evs[k], name), evs[k + 1], name)
    requires Legal(Step(Step(y, evs[k], name), evs[k + 1], name), evs[k + 2..], name)
    ensures Legal(y, evs[k..], name)
    ensures Run(y, evs[k..], name) == Run(Step(Step(y, evs[k], name), evs[k + 1], name), evs[k + 2..], name)
  {
    hide Legal, Run, Step, Enabled;
    NextEvent(Step(y, evs[k], name), evs, k + 1, name);
    NextEvent(y, evs, k, name);
  }

  lemma OnePutRuns(name: string, value: int)
    ensures Legal(Start(), OnePut(value), name)
    ensures Pair(Run(Start(), OnePut(value), name), name, Part(Writer, Idle, 1), Part(Writer, Idle, 0))
  {
    hide Step, Pair, Start, Enabled, Legal, Run;
    var evs := OnePut(value);
    BothJoin(name);
    var y2 := Step(Step(Start(), evs[0], name), evs[1], name);
    FirstOpens(y2, name);
    var y4 := Step(Step(y2, evs[2], name), evs[3], name);
    SecondOpens(y4, name);
    var y6 := Step(Step(y4, evs[4], name), evs[5], name);
    FirstPuts(y6, name, value);
    var y8 := Step(Step(y6, evs[6], name), evs[7], name);
    NothingLeft(Step(y8, evs[8], name), evs, name);
    NextEvent(y8, evs, 8, name);
    TwoEvents(y6, evs, 6, name);
    TwoEvents(y4, evs, 4, name);
    TwoEvents(y2, evs, 2, name);
    TwoEvents(Start(), evs, 0, name);
    assert evs[0..] == evs;
  }

  lemma NothingLeft(y: Sys, evs: seq<Event>, name: string)
    ensures Legal(y, evs[|evs|..], name) && Run(y, evs[|evs|..], name) == y
  {
  }

  /** Two writers share a buffer, one puts a value and is killed between two puts: there are two tokens then, so two
      writers, or a writer and a reader, can be inside at once. */
  lemma DeathAfterPut(name: string, value: int)
    ensures Fresh(Start(), name) && Legal(Start(), OnePut(value), name)
    ensures var y := Run(Start(), OnePut(value), name);
            && 1 in y.parts && !SafeToDie(y, name, 1)
            && var r := Killed(y, 1); var e, f := EmptyAt(r.kernel, name), FullAt(r.kernel, name);
               e < |r.kernel.sems| && f < |r.kernel.sems| && Tokens(r, e, f) == 2 && !Inv(r, name)
  {
    hide Kept, Legal, Run, Tokens, Inv, Killed;
    StartFresh(name);
    OnePutRuns(name, value);
    var y := Run(Start(), OnePut(value), name);
    assert 2 in Having(y.parts, true);
    RestsIff(y, name, 1);
    DeathTokens(y, name, 1);
    DeathKeepsBufferIff(y, name, 1);
  }
}
