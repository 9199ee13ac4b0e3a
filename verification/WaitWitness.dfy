/** A run in which a parent waits for its child, and what unblocking it then does. */
module WaitWitness {
  import opened RunQueue
  import opened ProcessSpec
  import opened ProcessLaws
  import opened ProcessRuns
  import W = WaitPid
  import opened Boot
  import Aging

  /** The shell starts a process and waits for it. */
  function CreateAndWait(stack: int, argv: int): seq<Event> {
    [SysCreate(1, stack, argv), SysWaitPid(3)]
  }

  /** Who created whom before that: nobody created idle or the shell. */
  const ORPHANS: W.History := map[1 := 0, 2 := 0]

  /** The shell, in slot 1, is blocked on process 3 and that one runs. */
  ghost predicate ShellWaits(s: System) {
    && Settled(s) && s.table[1].pid == 2 && s.table[1].state == BLOCKED && s.table[1].waitingFor == 3
    && s.current == 2 && s.table[2].pid == 3
  }

  lemma AfterWait(s: System)
    requires Aging.Pair(s, DEFAULT_PRIORITY, DEFAULT_PRIORITY, DEFAULT_PRIORITY, 0)
    ensures Enabled(s, SysWaitPid(3)) && ShellWaits(Step(s, SysWaitPid(3)))
  {
    hide Settled, Step, QueueWf, Find, NextReady, Departing;
    Aging.NiceFinds(s, DEFAULT_PRIORITY, DEFAULT_PRIORITY, DEFAULT_PRIORITY, 0);
    StepParts(s, SysWaitPid(3));
    var r := ProcessSpec.WaitPid(s, 3).0;
    assert r.table == s.table[1 := s.table[1].(state := BLOCKED, waitingFor := 3, saved := 0)];
    Aging.SameQueue(s, r);
    Aging.SameQueue(s, Relinquish(r));
    OtherRuns(Relinquish(r));
  }

  /** Of the two in the queue only the second is ready. */
  lemma OtherRuns(s: System)
    requires QueueWf(s) && s.queue == [1, 2] && 2 < |s.table| && s.table[1].state == BLOCKED && s.table[2].state == READY
    ensures NextReady(s).0 == 2
  {
    hide Highest, Steps, NextReady;
    var e := ChoiceIsFirstBest(s);
    assert s.table[s.queue[1]].state == READY;
    assert NextReady(s).1 < 2;
  }

  lemma BootedFaithful(s: System)
    requires Booted(s)
    ensures Settled(s) && W.ChildrenLive(s, ORPHANS)
  {
  }

  /** What the two events have on record: process 3 is a child of the shell. */
  lemma ChildRecorded(s: System, born: W.History, stack: int, argv: int)
    requires Booted(s)
    ensures Settled(s) && Enabled(s, SysCreate(1, stack, argv))
    ensures var r := Step(s, SysCreate(1, stack, argv));
            Enabled(r, SysWaitPid(3)) ==>
              && Legal(s, CreateAndWait(stack, argv)) && Run(s, CreateAndWait(stack, argv)) == Step(r, SysWaitPid(3))
              && W.RecordedAll(s, born, CreateAndWait(stack, argv)) == born[3 := 2]
  {
    hide Settled, Step, Enabled;
    Aging.AfterCreate(s, stack, argv);
    Aging.SettledShape(s);
    var evs, r := CreateAndWait(stack, argv), Step(s, SysCreate(1, stack, argv));
    assert evs[1..] == [SysWaitPid(3)] && evs[1..][1..] == [];
    if Enabled(r, SysWaitPid(3)) {
      NoneLeft(Step(r, SysWaitPid(3)), born[3 := 2]);
      OneLeft(r, born[3 := 2]);
      OneMore(s, born, evs);
    }
  }

  lemma NoneLeft(s: System, born: W.History)
    requires Settled(s)
    ensures Legal(s, []) && Run(s, []) == s && W.RecordedAll(s, born, []) == born
  {
  }

  lemma OneMore(s: System, born: W.History, evs: seq<Event>)
    requires Settled(s) && evs != [] && Enabled(s, evs[0]) && Legal(Step(s, evs[0]), evs[1..])
    ensures Legal(s, evs) && Run(s, evs) == Run(Step(s, evs[0]), evs[1..]) && SlotsOk(s)
    ensures W.RecordedAll(s, born, evs) == W.RecordedAll(Step(s, evs[0]), W.Recorded(s, born, evs[0]), evs[1..])
  {
    hide Step, Enabled;
  }

  lemma OneLeft(s: System, born: W.History)
    requires Settled(s) && Enabled(s, SysWaitPid(3))
    ensures Legal(s, [SysWaitPid(3)]) && Run(s, [SysWaitPid(3)]) == Step(s, SysWaitPid(3))
    ensures W.RecordedAll(s, born, [SysWaitPid(3)]) == born
  {
    hide Settled, Step, Enabled;
    var evs := [SysWaitPid(3)];
    assert evs[1..] == [];
    NoneLeft(Step(s, evs[0]), born);
    OneMore(s, born, evs);
  }

  /** From start-up: the shell creates a process and waits for it. It then awaits a child of its own, as HandOff and
      WaitsUntilDeath ask, and unblocking it there breaks what holds between kernel entries. */
  lemma UnblockedTooEarly(s: System, stack: int, argv: int)
    requires Booted(s)
    ensures Settled(s) && Legal(s, CreateAndWait(stack, argv)) && W.ChildrenLive(s, ORPHANS)
    ensures var evs := CreateAndWait(stack, argv); var r := Run(s, evs); var born := W.RecordedAll(s, ORPHANS, evs);
            && W.ChildrenLive(r, born) && W.AwaitsChild(r, born, 1)
            && !NotAwaiting(r, 2) && !Settled(Unblock(r, 2).0)
  {
    hide Settled, Step, Enabled, Legal, Run, W.RecordedAll, Find, W.ChildrenLive, Booted;
    var evs := CreateAndWait(stack, argv);
    BootedFaithful(s);
    Aging.AfterCreate(s, stack, argv);
    AfterWait(Step(s, SysCreate(1, stack, argv)));
    ChildRecorded(s, ORPHANS, stack, argv);
    W.ChildrenLiveRun(s, ORPHANS, evs);
    var r := Run(s, evs);
    ShellFound(r);
    UnblockSettles(r, 2);
  }

  lemma ShellFound(s: System)
    requires ShellWaits(s)
    ensures Find(s.table, 2) == 1 && SlotsOk(s)
  {
    FoundIsUnique(s.table, 2, 1);
  }
}
