/** How long a turn lasts: a process that is chosen keeps the processor for as many ticks as its priority. */
module Turns {
  import opened RunQueue
  import opened ProcessSpec
  import opened ProcessLaws
  import opened ProcessRuns

  /** A whole turn is left. */
  predicate Rested(p: PCB) {
    MIN_PRIORITY <= p.priority <= MAX_PRIORITY && p.quanta == p.priority
  }

  /** Some of a turn is left. */
  predicate Charged(p: PCB) {
    MIN_PRIORITY <= p.priority <= MAX_PRIORITY && 1 <= p.quanta <= p.priority
  }

  /** Everyone has a whole turn ahead; the current process has the rest of one. */
  ghost predicate FullTurns(s: System) {
    && (forall i :: 0 <= i < |s.table| && s.table[i].state != FREE && i != s.current ==> Rested(s.table[i]))
    && (0 <= s.current < |s.table| && s.table[s.current].state != FREE ==> Charged(s.table[s.current]))
  }

  ghost predicate AllRested(s: System) {
    forall i :: 0 <= i < |s.table| && s.table[i].state != FREE ==> Rested(s.table[i])
  }

  // ---------------------------------------------------------------- what each event keeps

  /** Tables whose live entries have priority and quantum from live entries of the other. */
  ghost predicate SameTurns(t: seq<PCB>, u: seq<PCB>) {
    |u| == |t| && forall i :: 0 <= i < |t| && u[i].state != FREE ==>
      t[i].state != FREE && u[i].priority == t[i].priority && u[i].quanta == t[i].quanta
  }

  /** Whoever is chosen starts on a whole turn, which TurnLasts makes as many ticks as its priority. */
  lemma SwitchRests(s: System)
    requires Leaving(s) && AllRested(s)
    ensures QueueWf(s) && FullTurns(Switch(s))
    ensures 0 <= Switch(s).current < |Switch(s).table| && Rested(Switch(s).table[Switch(s).current])
  {
    hide QueueExact, Pids, NextReady, Remove;
    ExactIsWf(s);
    NextIsReady(s);
  }

  lemma YieldTurns(s: System)
    requires Departing(s) && FullTurns(s)
    ensures QueueWf(s) && SlotsOk(s) && FullTurns(Yield(s))
  {
    hide QueueExact, Pids, Switch;
    YieldSettles(s);
    SwitchRests(Relinquish(s));
  }

  lemma TickTurns(s: System)
    requires Settled(s) && FullTurns(s)
    ensures QueueWf(s) && FullTurns(Tick(s))
  {
    hide QueueExact, Pids, Switch, Age;
    TickSettles(s);
    AgeTurns(s);
    AgeKeepsSettled(s);
    var (r, over) := Charge(Age(s));
    if over { SwitchRests(r); }
  }

  lemma AgeTurns(s: System)
    ensures var a := Age(s);
            && SameTurns(s.table, a.table) && a == s.(table := a.table)
            && forall i :: 0 <= i < |s.table| ==> a.table[i].state == s.table[i].state
  {
  }

  lemma SameKeeps(s: System, r: System)
    requires FullTurns(s) && SameTurns(s.table, r.table) && r.current == s.current
    ensures FullTurns(r)
  {
  }

  lemma WakeTurns(s: System, c: nat, value: int)
    requires c < |s.table|
    ensures var t := WakeParent(s, c, value).table;
            && |t| == |s.table|
            && forall i :: 0 <= i < |t| ==>
                 t[i].priority == s.table[i].priority && t[i].quanta == s.table[i].quanta && (t[i].state == FREE <==> s.table[i].state == FREE)
  {
    FindGives(s.table, s.table[c].parent);
  }

  lemma ReapTurns(s: System, p: nat)
    requires QueueWf(s) && p < |s.table|
    ensures SameTurns(s.table, Reap(s, p).table) && Reap(s, p).current == s.current
  {
    hide Remove;
  }

  lemma CurrentRuns(s: System)
    requires Settled(s)
    ensures 0 <= s.current < |s.table| && s.table[s.current].state == RUNNING
  {
  }

  /** Every entry keeps priority and quantum, and stays free or live. */
  ghost predicate KeptTurns(t: seq<PCB>, u: seq<PCB>) {
    |u| == |t| && forall i :: 0 <= i < |t| ==>
      u[i].priority == t[i].priority && u[i].quanta == t[i].quanta && (u[i].state == FREE <==> t[i].state == FREE)
  }

  lemma UnblockTurns(s: System, pids: seq<nat>)
    requires SlotsOk(s) && Wakeable(s, pids)
    ensures KeptTurns(s.table, UnblockAll(s, pids).0.table) && UnblockAll(s, pids).0.current == s.current
  {
    hide UnblockAll, Wakeable;
    UnblockAllReadies(s, pids);
  }

  /** Everything up to the death itself. */
  lemma BequestTurns(s: System, c: nat, value: int, woken: seq<nat>)
    requires SlotsOk(s) && Wakeable(s, woken) && c < |s.table|
    ensures var u := UnblockAll(s.(table := s.table[c := s.table[c].(retval := value)]), woken).0;
            KeptTurns(s.table, WakeParent(u, c, value).table) && WakeParent(u, c, value).current == s.current
  {
    hide WakeParent, UnblockAll, Wakeable;
    RecordedKeeps(s, c, value, woken);
    var s1 := s.(table := s.table[c := s.table[c].(retval := value)]);
    UnblockTurns(s1, woken);
    var u := UnblockAll(s1, woken).0;
    WakeTurns(u, c, value);
    forall i | 0 <= i < |s.table|
      ensures var x := WakeParent(u, c, value).table[i];
              x.priority == s.table[i].priority && x.quanta == s.table[i].quanta && (x.state == FREE <==> s.table[i].state == FREE)
    {
      assert s1.table[i].priority == u.table[i].priority;
    }
  }

  lemma KillTurns(s: System, pid: nat, woken: seq<nat>)
    requires Settled(s) && QueueWf(s) && Wakeable(s, woken)
    ensures SameTurns(s.table, Kill(s, pid, woken).0.table) && Kill(s, pid, woken).0.current == s.current
  {
    hide Settled, Find, WakeParent, Reap, UnblockAll, Wakeable;
    SettledIsWf(s);
    FindGives(s.table, pid);
    var p := Find(s.table, pid);
    if p != NULL && s.table[p].state != ZOMBIE {
      BequestTurns(s, p, -1, woken);
      var s2 := WakeParent(UnblockAll(s.(table := s.table[p := s.table[p].(retval := -1)]), woken).0, p, -1);
      if p != s.current { ReapTurns(s2, p); }
    }
  }

  lemma ExitTurns(s: System, retval: int, woken: seq<nat>)
    requires Settled(s) && Wakeable(s, woken)
    ensures SameTurns(s.table, Exit(s, retval, woken).0.table) && Exit(s, retval, woken).0.current == s.current
  {
    hide WakeParent, QueueExact, Pids, UnblockAll, Wakeable;
    BequestTurns(s, s.current, retval, woken);
  }

  lemma NiceTurns(s: System, pid: nat, priority: nat)
    requires Settled(s) && QueueWf(s) && FullTurns(s)
    ensures FullTurns(Nice(s, pid, priority))
  {
    hide Settled, Find, Requeue;
    SettledIsWf(s);
    FindGives(s.table, pid);
    var p := Find(s.table, pid);
    if p != NULL {
      var c := Clamped(priority);
      RequeueOnlyQueue(s.(table := s.table[p := s.table[p].(priority := c, waitTicks := 0, quanta := c)]), p);
    }
  }

  lemma RequeueOnlyQueue(s: System, p: nat)
    requires QueueWf(s) && p < |s.table|
    ensures Requeue(s, p).table == s.table && Requeue(s, p).current == s.current
  {
    hide QueueWf, Remove, Add;
    AddOnlyQueue(Remove(s, p), p);
  }

  lemma CreateTurns(s: System, slot: nat, fg: nat, stack: int, argv: int)
    requires Settled(s) && QueueWf(s) && FullTurns(s) && slot < |s.table| && s.table[slot].state == FREE
    ensures FullTurns(Create(s, slot, fg, stack, argv))
  {
    hide QueueExact, Pids, Add;
    AddOnlyQueue(s.(table := s.table[slot := NewProcess(s, fg, stack, argv)], nextPid := s.nextPid + 1), slot);
  }

  lemma WaitTurns(s: System, pid: nat)
    requires Settled(s)
    ensures SameTurns(s.table, WaitPid(s, pid).0.table) && WaitPid(s, pid).0.current == s.current
  {
    hide QueueExact, Pids, Find;
    FindGives(s.table, pid);
  }

  lemma EntryTurns(s: System, ev: Event)
    requires Settled(s) && Enabled(s, ev) && FullTurns(s)
    ensures QueueWf(s) && FullTurns(Entry(s, ev).0)
  {
    hide Settled, Tick, Create, Exit, Kill, Nice, FreeSlot, Find, FullTurns, QueueWf, UnblockAll, Wakeable, WaitPid;
    SettledIsWf(s);
    CurrentRuns(s);
    match ev
    case TimerTick => TickTurns(s);
    case SysYield => SameKeeps(s, SetState(s, s.current, READY));
    case SysCreate(fg, stack, argv) =>
      FreeSlotGives(s.table);
      CreateTurns(s, FreeSlot(s.table, 0), Byte(fg), stack, argv);
    case SysExit(retval, woken) =>
      ExitTurns(s, retval, woken);
      SameKeeps(s, Exit(s, retval, woken).0);
    case SysKill(pid, woken) =>
      KillTurns(s, pid, woken);
      SameKeeps(s, Kill(s, pid, woken).0);
    case SysBlock(pid) =>
      FindGives(s.table, pid);
      SameKeeps(s, Toggle(s, pid).0);
    case SysUnblock(pid) =>
      FindGives(s.table, pid);
      SameKeeps(s, Unblock(s, pid).0);
    case SysWake(woken) =>
      UnblockTurns(s, woken);
      assert SameTurns(s.table, UnblockAll(s, woken).0.table);
      SameKeeps(s, UnblockAll(s, woken).0);
    case SysNice(pid, priority) => NiceTurns(s, pid, Byte(priority));
    case SysWaitPid(pid) =>
      WaitTurns(s, pid);
      SameKeeps(s, WaitPid(s, pid).0);
  }

  /** After every event everyone but the current process has a whole turn ahead, and priorities are in range. */
  lemma StepTurns(s: System, ev: Event)
    requires Settled(s) && Enabled(s, ev) && FullTurns(s)
    ensures FullTurns(Step(s, ev))
  {
    hide Settled, Entry, FullTurns, Enabled, Departing;
    StepParts(s, ev);
    EntryTurns(s, ev);
    if Entry(s, ev).1 { YieldTurns(Entry(s, ev).0); }
  }

  lemma {:induction false} RunTurns(s: System, evs: seq<Event>)
    requires Settled(s) && Legal(s, evs) && FullTurns(s)
    ensures FullTurns(Run(s, evs))
    decreases |evs|
  {
    hide Settled, Enabled, FullTurns, Step;
    if evs != [] {
      StepTurns(s, evs[0]);
      RunTurns(Step(s, evs[0]), evs[1..]);
    }
  }

  // ---------------------------------------------------------------- the length of a turn

  /** k ticks of the timer, and nothing else. */
  function Ticks(k: nat): (evs: seq<Event>)
    ensures |evs| == k && forall i :: 0 <= i < k ==> evs[i] == TimerTick
  {
    seq(k, _ => TimerTick)
  }

  lemma TickCharges(s: System)
    requires Settled(s) && s.table[s.current].quanta > 1
    ensures var r, c := Step(s, TimerTick), s.current;
            && r.current == c && r.table[c].state == RUNNING && r.table[c].quanta == s.table[c].quanta - 1
            && r.table[c].priority == s.table[c].priority
  {
    hide QueueExact, Pids, Switch, Age;
    AgeTurns(s);
  }

  /** A process with q ticks of its turn left keeps the processor for the next q - 1 of them, and not for the q-th:
      then a new choice is made. */
  lemma {:induction false} TurnLasts(s: System, k: nat)
    requires Settled(s) && 0 < s.table[s.current].quanta && k < s.table[s.current].quanta
    ensures Legal(s, Ticks(k))
    ensures var r, c := Run(s, Ticks(k)), s.current;
            && r.current == c && r.table[c].state == RUNNING && r.table[c].quanta == s.table[c].quanta - k
            && (Charge(Age(r)).1 <==> k == s.table[c].quanta - 1)
    decreases k
  {
    hide QueueExact, Pids, Step, Age;
    if k > 0 {
      TickCharges(s);
      assert Ticks(k)[1..] == Ticks(k - 1);
      TurnLasts(Step(s, TimerTick), k - 1);
    } else {
      AgeTurns(s);
    }
  }
}
