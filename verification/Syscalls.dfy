/** Kernel entries as user programs see them: each one does its work, makes the pending switch, and leaves the kernel settled. */
module Syscalls {
  import opened Basics
  import opened RunQueue
  import opened ProcessSpec
  import ProcessLaws
  import ProcessRuns
  import opened Kernel
  import BuddySpec

  /** Between kernel entries. */
  ghost predicate Ready(k: Kernel)
    reads k.Objects()
  {
    k.Valid() && Settled(k.View()) && !k.forceSwitch
  }

  lemma CanRun(s: System)
    requires ProcessLaws.Leaving(s)
    ensures NextCanRun(s)
  {
    hide NextReady;
    ProcessLaws.NextIsReady(s);
    ProcessLaws.ExactIsWf(s);
  }

  /** The way out of a system call: the pending switch, if one was asked for. */
  method Leave(k: Kernel)
    requires k.Valid() && if k.forceSwitch then ProcessLaws.Departing(k.View()) else Settled(k.View())
    modifies k.Objects()
    ensures Ready(k) && k.UserView() == old(k.UserView())
    ensures QueueWf(old(k.View())) && SlotsOk(old(k.View()))
    ensures k.View() == if old(k.forceSwitch) then Yield(old(k.View())) else old(k.View())
  {
    hide Kernel.Valid, Settled, ProcessLaws.Departing, QueueWf, ProcessLaws.Leaving, Relinquish, NextCanRun, Yield;
    k.Shaped();
    if k.forceSwitch {
      k.SetForceSwitch(false);
      ProcessLaws.YieldSettles(k.View());
      CanRun(Relinquish(k.View()));
      k.SchedulerYield();
    }
  }

  method TimerInterrupt(k: Kernel)
    requires Ready(k)
    modifies k.Objects()
    ensures Ready(k) && k.UserView() == old(k.UserView())
    ensures k.View() == ProcessRuns.Step(old(k.View()), ProcessRuns.TimerTick)
  {
    hide Kernel.Valid, Settled, QueueWf, ProcessLaws.Leaving, NextCanRun, Charge, Age, Switch;
    k.Shaped();
    ProcessLaws.TickSettles(k.View());
    assert SlotsOk(Age(k.View())) by { ProcessLaws.AgeOnlyTable(k.View()); }
    if Charge(Age(k.View())).1 { CanRun(Charge(Age(k.View())).0); }
    k.SchedulerTick();
  }

  method SysYield(k: Kernel)
    requires Ready(k) && ProcessRuns.Enabled(k.View(), ProcessRuns.SysYield)
    modifies k.Objects()
    ensures Ready(k) && k.UserView() == old(k.UserView())
    ensures k.View() == ProcessRuns.Step(old(k.View()), ProcessRuns.SysYield)
  {
    hide Kernel.Valid, Settled, QueueWf, ProcessRuns.Step, ProcessRuns.Enabled, ProcessLaws.Departing, Yield;
    k.Shaped();
    ProcessRuns.SettledIsWf(k.View());
    ProcessRuns.StepParts(k.View(), ProcessRuns.SysYield);
    ReadyOwn(k);
    var cur := k.sched.current;
    k.Put(cur, k.sched.table[cur].(state := READY));
    k.SetForceSwitch(true);
    Leave(k);
  }

  lemma ReadyOwn(k: Kernel)
    requires k.Valid() && Settled(k.View())
    ensures k.sched.table.Length == MAX_PROCESSES && 0 <= k.sched.current < MAX_PROCESSES
    ensures k.sched.table[k.sched.current].state == RUNNING && k.View().table == k.sched.table[..]
    ensures forall i :: 0 <= i < MAX_PROCESSES ==> k.sched.table[i].state != ZOMBIE
  {
    ShapeGives(k.sched);
    assert k.View().table[k.sched.current] == k.sched.table[k.sched.current];
    forall i | 0 <= i < MAX_PROCESSES ensures k.sched.table[i].state != ZOMBIE {
      assert k.View().table[i] == k.sched.table[i];
    }
  }

  method SysExit(k: Kernel, retval: int, woken: seq<nat>)
    requires Ready(k) && ProcessRuns.Enabled(k.View(), ProcessRuns.SysExit(retval, woken))
    modifies k.Objects()
    ensures Ready(k) && k.UserView() == old(k.UserView())
    ensures k.View() == ProcessRuns.Step(old(k.View()), ProcessRuns.SysExit(retval, woken))
  {
    hide Kernel.Valid, Settled, QueueWf, ProcessRuns.Step, ProcessRuns.Enabled, ProcessLaws.Departing, Yield, Exit;
    k.Shaped();
    ProcessRuns.StepParts(k.View(), ProcessRuns.SysExit(retval, woken));
    ReadyOwn(k);
    k.ProcessExit(retval, woken);
    Leave(k);
  }

  method SysKill(k: Kernel, pid: nat, woken: seq<nat>)
    requires Ready(k) && ProcessRuns.Enabled(k.View(), ProcessRuns.SysKill(pid, woken))
    modifies k.Objects()
    ensures Ready(k) && k.UserView() == old(k.UserView())
    ensures k.View() == ProcessRuns.Step(old(k.View()), ProcessRuns.SysKill(pid, woken))
  {
    hide Kernel.Valid, Settled, QueueWf, ProcessRuns.Step, ProcessRuns.Enabled, ProcessLaws.Departing, Yield, Kill;
    k.Shaped();
    ProcessRuns.StepParts(k.View(), ProcessRuns.SysKill(pid, woken));
    k.ProcessKill(pid, woken);
    Leave(k);
  }

  /** block blocks a process, or wakes a blocked one; -1 if there is none, or if it waits for a child. */
  method SysBlock(k: Kernel, pid: nat) returns (r: int)
    requires Ready(k) && ProcessRuns.Enabled(k.View(), ProcessRuns.SysBlock(pid))
    modifies k.Objects()
    ensures Ready(k) && k.UserView() == old(k.UserView())
    ensures k.View() == ProcessRuns.Step(old(k.View()), ProcessRuns.SysBlock(pid))
    ensures var t := old(k.View()).table; var p := Find(t, pid);
            r == if p == NULL || (t[p].state == BLOCKED && t[p].waitingFor != 0) then -1 else 0
  {
    hide Kernel.Valid, Settled, QueueWf, ProcessRuns.Step, ProcessRuns.Enabled, ProcessLaws.Departing, Yield, Block, Unblock, Find;
    k.Shaped();
    ProcessRuns.StepParts(k.View(), ProcessRuns.SysBlock(pid));
    ReadyOwn(k);
    FindInTable(k.View().table, pid);
    r := 0;
    var p := k.Lookup(pid);
    if p == NULL || k.sched.table[p].state == ZOMBIE || (k.sched.table[p].state == BLOCKED && k.sched.table[p].waitingFor != 0) {
      r := -1;
    } else if k.sched.table[p].state == BLOCKED {
      k.ProcessUnblock(pid);
    } else {
      k.ProcessBlock(pid);
    }
    Leave(k);
  }

  method SysUnblock(k: Kernel, pid: nat)
    requires Ready(k) && ProcessRuns.Enabled(k.View(), ProcessRuns.SysUnblock(pid))
    modifies k.Objects()
    ensures Ready(k) && k.UserView() == old(k.UserView())
    ensures k.View() == ProcessRuns.Step(old(k.View()), ProcessRuns.SysUnblock(pid))
  {
    hide Kernel.Valid, Settled, QueueWf, ProcessRuns.Step, ProcessRuns.Enabled, ProcessLaws.Departing, Yield, Unblock, Find;
    k.Shaped();
    ProcessRuns.StepParts(k.View(), ProcessRuns.SysUnblock(pid));
    k.ProcessUnblock(pid);
    Leave(k);
  }

  /** A call that wakes several processes, as opening or closing an end of a pipe does. */
  method SysWake(k: Kernel, woken: seq<nat>)
    requires Ready(k) && ProcessRuns.Enabled(k.View(), ProcessRuns.SysWake(woken))
    modifies k.Objects()
    ensures Ready(k) && k.UserView() == old(k.UserView())
    ensures k.View() == ProcessRuns.Step(old(k.View()), ProcessRuns.SysWake(woken))
  {
    hide Kernel.Valid, Settled, QueueWf, ProcessRuns.Step, ProcessRuns.Enabled, ProcessLaws.Departing, Yield, UnblockAll;
    k.Shaped();
    ProcessRuns.StepParts(k.View(), ProcessRuns.SysWake(woken));
    k.UnblockEach(woken);
    Leave(k);
  }

  method SysNice(k: Kernel, pid: nat, priority: nat)
    requires Ready(k) && ProcessRuns.Enabled(k.View(), ProcessRuns.SysNice(pid, priority))
    modifies k.Objects()
    ensures Ready(k) && k.UserView() == old(k.UserView())
    ensures k.View() == ProcessRuns.Step(old(k.View()), ProcessRuns.SysNice(pid, priority))
  {
    hide Kernel.Valid, Settled, QueueWf, ProcessRuns.Step, ProcessRuns.Enabled, ProcessLaws.Departing, Yield, Nice;
    k.Shaped();
    ProcessRuns.StepParts(k.View(), ProcessRuns.SysNice(pid, priority));
    k.ProcessNice(pid, priority % 256);
  }

  method SysWaitPid(k: Kernel, pid: nat) returns (r: int)
    requires Ready(k) && ProcessRuns.Enabled(k.View(), ProcessRuns.SysWaitPid(pid))
    modifies k.Objects()
    ensures Ready(k) && k.UserView() == old(k.UserView())
    ensures k.View() == ProcessRuns.Step(old(k.View()), ProcessRuns.SysWaitPid(pid))
    ensures r == if Find(old(k.View()).table, pid) == NULL then -1 else 0
  {
    hide Kernel.Valid, Settled, QueueWf, ProcessRuns.Step, ProcessRuns.Enabled, ProcessLaws.Departing, Yield, WaitPid, Find;
    k.Shaped();
    ProcessRuns.StepParts(k.View(), ProcessRuns.SysWaitPid(pid));
    ReadyOwn(k);
    FindInTable(k.View().table, pid);
    r := k.ProcessWaitPid(pid);
    Leave(k);
  }

  /** The step of creation, with some stack and some copy of the arguments. */
  ghost predicate CreatedFrom(s: System, fg: nat, r: System)
    requires Settled(s) && FreeSlot(s.table, 0) != NULL
  {
    exists stack, argv :: r == ProcessRuns.Step(s, ProcessRuns.SysCreate(fg, stack, argv))
  }

  method SysCreateProcess(k: Kernel, fg: nat, argvBytes: nat) returns (pid: int)
    requires Ready(k)
    modifies k.Objects()
    ensures Ready(k) && k.UserView() == old(k.UserView())
    ensures pid == -1 ==> OnlyFreeStacks(old(k.View()), k.View())
    ensures pid != -1 ==>
              FreeSlot(old(k.View()).table, 0) != NULL && pid == old(k.View()).nextPid + 1
              && CreatedFrom(old(k.View()), fg, k.View())
    ensures |old(k.heap.st).lists| == BuddySpec.ORDERS
    ensures pid == -1 <==> FreeSlot(old(k.View()).table, 0) == NULL || !Affordable(old(k.heap.st), argvBytes)
  {
    hide Kernel.Valid, Settled, QueueWf, ProcessRuns.Step, ProcessRuns.Enabled, Create, FreeSlot, Affordable, OnlyFreeStacks;
    ghost var s := k.View();
    k.Shaped();
    QueuedAreLive(s);
    pid := k.ProcessCreate(fg % 256, argvBytes);
    if pid == -1 {
      FailedCreateSettles(s, k.View());
    } else {
      ghost var stack, argv :| k.View() == Create(s, FreeSlot(s.table, 0), fg % 256, stack, argv);
      CreatedStep(s, fg, stack, argv);
    }
  }

  lemma CreatedStep(s: System, fg: nat, stack: int, argv: int)
    requires Settled(s) && FreeSlot(s.table, 0) != NULL
    ensures ProcessRuns.Enabled(s, ProcessRuns.SysCreate(fg, stack, argv)) && QueueWf(s) && 0 <= FreeSlot(s.table, 0) < |s.table|
    ensures Create(s, FreeSlot(s.table, 0), fg % 256, stack, argv) == ProcessRuns.Step(s, ProcessRuns.SysCreate(fg, stack, argv))
  {
    hide Settled, QueueWf, ProcessRuns.Step, ProcessLaws.Departing, Create;
    ProcessRuns.StepParts(s, ProcessRuns.SysCreate(fg, stack, argv));
    FreeSlotInTable(s.table);
  }

  lemma QueuedAreLive(s: System)
    requires Settled(s)
    ensures forall x <- s.queue :: x < |s.table| && s.table[x].state != FREE
  {
  }

  lemma FailedCreateSettles(s: System, r: System)
    requires Settled(s) && OnlyFreeStacks(s, r)
    ensures Settled(r)
  {
    hide QueueExact, Pids;
    ProcessLaws.SimilarKeepsQueue(s, r.table);
    ProcessLaws.SimilarKeepsPids(s, r.table);
  }
}
