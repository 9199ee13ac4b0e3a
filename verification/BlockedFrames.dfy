/** Who stays blocked: what an event of the process table does to a process that it does not wake. */
module BlockedFrames {
  import opened RunQueue
  import opened ProcessSpec
  import opened ProcessLaws
  import opened ProcessRuns
  import W = WaitPid

  /** Blocked, and waiting for no child. */
  predicate Held(p: PCB) {
    p.state == BLOCKED && p.waitingFor == 0
  }

  /** The event neither wakes nor toggles the process with this pid, nor kills it. */
  predicate Spares(s: System, ev: Event, pid: nat)
    requires SlotsOk(s)
  {
    && W.Dying(s, ev) != pid
    && match ev
       case SysBlock(x) => x != pid
       case SysUnblock(x) => x != pid
       case SysWake(woken) => pid !in woken
       case SysExit(_, woken) => pid !in woken
       case SysKill(_, woken) => pid !in woken
       case _ => true
  }

  lemma UnblockSpares(s: System, pid: nat, i: nat)
    requires SlotsOk(s) && i < |s.table| && s.table[i].pid != pid
    ensures Unblock(s, pid).0.table[i] == s.table[i]
  {
    hide Find;
    FindGives(s.table, pid);
  }

  lemma {:induction false} UnblockAllSpares(s: System, pids: seq<nat>, i: nat)
    requires SlotsOk(s) && i < |s.table| && s.table[i].pid !in pids
    ensures UnblockAll(s, pids).0.table[i] == s.table[i]
  {
    hide Unblock;
    if pids != [] {
      var front := pids[..|pids| - 1];
      assert forall x <- front :: x in pids;
      UnblockAllSpares(s, front, i);
      UnblockSpares(UnblockAll(s, front).0, pids[|pids| - 1], i);
    }
  }

  /** The wake-up of a parent that waits for a live process is none of a process that waits for nobody. */
  lemma WakeSpares(s: System, c: nat, value: int, i: nat)
    requires c < |s.table| && s.table[c].pid > 0 && i < |s.table| && s.table[i].waitingFor == 0
    ensures WakeParent(s, c, value).table[i] == s.table[i]
  {
    hide Find;
  }

  /** Everything up to the death itself. */
  lemma BequestSpares(s: System, c: nat, value: int, woken: seq<nat>, i: nat)
    requires SlotsOk(s) && c < |s.table| && s.table[c].pid > 0 && Wakeable(s, woken)
    requires i < |s.table| && i != c && Held(s.table[i]) && s.table[i].pid !in woken
    ensures var u := UnblockAll(s.(table := s.table[c := s.table[c].(retval := value)]), woken).0;
            |u.table| == |s.table| && WakeParent(u, c, value).table[i] == s.table[i]
  {
    hide WakeParent, UnblockAll, Wakeable;
    var s1 := s.(table := s.table[c := s.table[c].(retval := value)]);
    UnblockAllSpares(s1, woken, i);
    RecordedKeeps(s, c, value, woken);
    UnblockAllReadies(s1, woken);
    WakeSpares(UnblockAll(s1, woken).0, c, value, i);
  }

  lemma ExitSpares(s: System, retval: int, woken: seq<nat>, i: nat)
    requires Settled(s) && Wakeable(s, woken) && i < |s.table| && Held(s.table[i]) && s.table[i].pid !in woken
    ensures |Exit(s, retval, woken).0.table| == |s.table| && Exit(s, retval, woken).0.table[i] == s.table[i]
  {
    hide WakeParent, UnblockAll, Wakeable, QueueExact;
    BequestSpares(s, s.current, retval, woken, i);
  }

  lemma KillSpares(s: System, pid: nat, woken: seq<nat>, i: nat)
    requires Settled(s) && QueueWf(s) && Wakeable(s, woken) && i < |s.table| && Held(s.table[i])
    requires s.table[i].pid !in woken && s.table[i].pid != pid
    ensures |Kill(s, pid, woken).0.table| == |s.table| && Kill(s, pid, woken).0.table[i] == s.table[i]
  {
    hide WakeParent, UnblockAll, Wakeable, QueueExact, Find, Reap;
    FindGives(s.table, pid);
    var p := Find(s.table, pid);
    if p != NULL {
      BequestSpares(s, p, -1, woken, i);
      var u := WakeParent(UnblockAll(s.(table := s.table[p := s.table[p].(retval := -1)]), woken).0, p, -1);
      if p != s.current { W.ReapTable(u, p); }
    }
  }

  lemma EntrySpares(s: System, ev: Event, i: nat)
    requires Settled(s) && Enabled(s, ev) && QueueWf(s) && i < |s.table| && Held(s.table[i]) && Spares(s, ev, s.table[i].pid)
    requires !ev.TimerTick?
    ensures var r := Entry(s, ev).0;
            |r.table| == |s.table| && Held(r.table[i]) && r.table[i].pid == s.table[i].pid
  {
    hide QueueExact, Pids, Find, FreeSlot, Tick, Exit, Kill, UnblockAll, Unblock, Wakeable, QueueWf, Requeue, Add;
    match ev
    case SysYield =>
    case SysCreate(fg, stack, argv) =>
      FreeSlotGives(s.table);
      CreateTable(s, FreeSlot(s.table, 0), Byte(fg), stack, argv);
    case SysExit(retval, woken) => ExitSpares(s, retval, woken, i);
    case SysKill(pid, woken) =>
      FindGives(s.table, pid);
      KillFinds(s, pid, woken, i);
    case SysBlock(pid) => FindGives(s.table, pid); UnblockSpares(s, pid, i); UnblockSize(s, pid);
    case SysUnblock(pid) => UnblockSpares(s, pid, i); FindGives(s.table, pid); UnblockSize(s, pid);
    case SysWake(woken) => UnblockAllSpares(s, woken, i);
    case SysNice(pid, priority) => FindGives(s.table, pid); W.NiceTable(s, pid, Byte(priority));
    case SysWaitPid(pid) => FindGives(s.table, pid);
  }

  lemma UnblockSize(s: System, pid: nat)
    requires SlotsOk(s)
    ensures |Unblock(s, pid).0.table| == |s.table|
  {
  }

  lemma CreateTable(s: System, slot: nat, fg: nat, stack: int, argv: int)
    requires QueueWf(s) && SlotsOk(s) && slot < |s.table|
    ensures Create(s, slot, fg, stack, argv).table == s.table[slot := NewProcess(s, fg, stack, argv)]
  {
  }

  /** A kill of nobody changes nothing. */
  lemma KillFinds(s: System, pid: nat, woken: seq<nat>, i: nat)
    requires Settled(s) && QueueWf(s) && Wakeable(s, woken) && i < |s.table| && Held(s.table[i])
    requires s.table[i].pid !in woken && (Find(s.table, pid) != NULL ==> s.table[i].pid != pid)
    ensures |Kill(s, pid, woken).0.table| == |s.table| && Kill(s, pid, woken).0.table[i] == s.table[i]
  {
    hide Find, Wakeable, Settled;
    if Find(s.table, pid) != NULL { KillSpares(s, pid, woken, i); } else { SettledIsWf(s); }
  }

  /** Whoever is blocked, waiting for no child, and spared by the event, is so afterwards too. */
  lemma StaysHeld(s: System, ev: Event, i: nat)
    requires Settled(s) && Enabled(s, ev) && i < |s.table| && Held(s.table[i]) && SlotsOk(s) && Spares(s, ev, s.table[i].pid)
    ensures var r := Step(s, ev); |r.table| == |s.table| && Held(r.table[i]) && r.table[i].pid == s.table[i].pid
  {
    hide Settled, Departing, Yield, Entry, Enabled, Spares, Step, Tick;
    StepParts(s, ev);
    if ev.TimerTick? {
      W.TickFrame(s);
      TickEntry(s);
    } else {
      EntrySpares(s, ev, i);
      if Entry(s, ev).1 { W.YieldFrame(Entry(s, ev).0); }
    }
  }

  lemma TickEntry(s: System)
    requires Settled(s) && QueueWf(s)
    ensures Enabled(s, TimerTick) && Entry(s, TimerTick) == (Tick(s), false)
  {
  }
}
