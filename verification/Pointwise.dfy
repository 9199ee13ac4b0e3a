/** What each kernel entry does to each process, entry by entry of the table: no more and no less. */
module Pointwise {
  import opened RunQueue
  import opened ProcessSpec
  import opened ProcessLaws
  import opened ProcessRuns

  // ---------------------------------------------------------------- who has a pid

  lemma FoundIff(s: System, pid: nat, x: nat)
    requires Pids(s) && x < |s.table|
    ensures Find(s.table, pid) == x <==> s.table[x].state != FREE && s.table[x].pid == pid
  {
    FindGives(s.table, pid);
    if s.table[x].state != FREE && s.table[x].pid == pid { FoundIsUnique(s.table, pid, x); }
  }

  lemma NotFoundIff(s: System, pid: nat)
    requires Pids(s)
    ensures Find(s.table, pid) == NULL <==> forall x :: 0 <= x < |s.table| ==> s.table[x].state == FREE || s.table[x].pid != pid
  {
    if p: nat :| p < |s.table| && s.table[p].state != FREE && s.table[p].pid == pid { FoundIsUnique(s.table, pid, p); }
    FindGives(s.table, pid);
  }

  // ---------------------------------------------------------------- switches

  /** A switch runs one process that was ready, frees a dead one, and does nothing else to any entry. */
  lemma SwitchOnEntry(s: System, x: nat)
    requires Leaving(s) && x < |s.table|
    ensures QueueWf(s) && SlotsOk(s)
    ensures var p, r := s.table[x], Switch(s);
            && |r.table| == |s.table| && r.idle == s.idle && r.nextPid == s.nextPid
            && (r.current == x ==> p.state == READY)
            && r.table[x] == if x == r.current then p.(state := RUNNING, waitTicks := 0)
                             else if p.state == ZOMBIE then p.(state := FREE, pid := 0, stack := NULL, argv := NULL)
                             else p
  {
    hide QueueExact, Pids, NextReady, Remove;
    ExactIsWf(s);
    NextIsReady(s);
  }

  /** A tick: the others that are ready and queued wait one tick more; the running process has one tick less of its turn,
      or begins a new turn as a ready process when none is left, and then someone is chosen. */
  lemma TickOnEntry(s: System, x: nat)
    requires Settled(s) && x < |s.table|
    ensures Enabled(s, TimerTick)
    ensures var p, r := s.table[x], Step(s, TimerTick); var cur := s.table[s.current];
            && |r.table| == |s.table| && (cur.quanta > 1 ==> r.current == s.current)
            && var q := if x == s.current then (if p.quanta > 1 then p.(quanta := p.quanta - 1)
                                                else p.(quanta := p.priority, state := READY))
                        else if p.state == READY && x != s.idle then p.(waitTicks := (p.waitTicks + 1) % 0x1_0000_0000)
                        else p;
               r.table[x] == if cur.quanta <= 1 && r.current == x then q.(state := RUNNING, waitTicks := 0) else q
  {
    hide Pids, Switch, Age, Sorted;
    SettledIsWf(s);
    StepParts(s, TimerTick);
    TickSettles(s);
    AgeOnlyTable(s);
    AgedEntry(s, x);
    AgedEntry(s, s.current);
    var (r, over) := Charge(Age(s));
    if over { SwitchOnEntry(r, x); }
  }

  lemma AgedEntry(s: System, x: nat)
    requires Settled(s) && x < |s.table|
    ensures |Age(s).table| == |s.table|
    ensures Age(s).table[x] == if s.table[x].state == READY && x != s.idle
                               then s.table[x].(waitTicks := (s.table[x].waitTicks + 1) % 0x1_0000_0000) else s.table[x]
  {
    hide Pids, QueueExact, Age;
    InQueueIff(s, x);
  }

  lemma InQueueIff(s: System, x: nat)
    requires QueueExact(s) && x < |s.table|
    ensures x in s.queue <==> s.table[x].state != FREE && x != s.idle
  {
    hide QueueWf, Sorted;
  }

  /** The switch at the end of a call: the caller, if it can go on, begins a new turn as a ready process. */
  lemma YieldOnEntry(s: System, x: nat)
    requires Departing(s) && x < |s.table|
    ensures QueueWf(s) && SlotsOk(s)
    ensures var p, r := s.table[x], Yield(s);
            && |r.table| == |s.table|
            && var q := if x != s.current then p
                        else p.(quanta := p.priority, state := if p.state == RUNNING then READY else p.state);
               r.table[x] == if x == r.current then q.(state := RUNNING, waitTicks := 0)
                             else if q.state == ZOMBIE then q.(state := FREE, pid := 0, stack := NULL, argv := NULL)
                             else q
  {
    hide QueueExact, Pids, Switch;
    ExactIsWf(s);
    YieldSettles(s);
    SwitchOnEntry(Relinquish(s), x);
  }

  // ---------------------------------------------------------------- calls

  /** nice: the priority given, cut to the range from 1 to 5, as priority and as turn, and no waiting counted. */
  lemma NiceOnEntry(s: System, pid: nat, priority: nat, x: nat)
    requires Pids(s) && QueueWf(s) && x < |s.table|
    ensures var p, q := s.table[x], Nice(s, pid, priority); var given := if priority < 1 then 1 else if priority > 5 then 5 else priority;
            && |q.table| == |s.table|
            && q.table[x] == if p.state != FREE && p.pid == pid then p.(priority := given, quanta := given, waitTicks := 0) else p
  {
    hide Remove, Add, Find;
    FoundIff(s, pid, x);
    FindGives(s.table, pid);
    if Find(s.table, pid) != NULL { RequeueTable(s, Find(s.table, pid), Clamped(priority)); }
  }

  lemma RequeueTable(s: System, p: nat, c: nat)
    requires QueueWf(s) && p < |s.table|
    ensures var s1 := s.(table := s.table[p := s.table[p].(priority := c, waitTicks := 0, quanta := c)]);
            Requeue(s1, p).table == s1.table
  {
    hide InsertAt, Inserted;
  }

  /** As a whole kernel entry, with the argument cut down to 8 bits first. */
  lemma StepNice(s: System, pid: nat, priority: nat, x: nat)
    requires Settled(s) && x < |s.table|
    ensures Enabled(s, SysNice(pid, priority))
    ensures var p, r := s.table[x], Step(s, SysNice(pid, priority)); var b := priority % 256;
            && |r.table| == |s.table| && r.current == s.current
            && if p.state != FREE && p.pid == pid then
                 && r.table[x] == p.(priority := r.table[x].priority, quanta := r.table[x].quanta, waitTicks := 0)
                 && (1 <= b <= 5 ==> r.table[x].priority == r.table[x].quanta == b)
                 && (b == 0 ==> r.table[x].priority == r.table[x].quanta == 1)
                 && (b > 5 ==> r.table[x].priority == r.table[x].quanta == 5)
               else r.table[x] == p
  {
    hide QueueExact, Nice, Pids;
    StepParts(s, SysNice(pid, priority));
    NiceOnEntry(s, pid, Byte(priority), x);
    NiceKeepsCurrent(s, pid, Byte(priority));
  }

  lemma NiceKeepsCurrent(s: System, pid: nat, priority: nat)
    requires QueueWf(s)
    ensures Nice(s, pid, priority).current == s.current
  {
    hide Find;
    FindGives(s.table, pid);
  }

  /** create: the first free slot gets a process with a new pid, priority 3, a whole turn, the caller as parent and the
      flag's eight bits; it starts blocked exactly if bit 1 of the flag is set. Nobody else changes. */
  lemma CreateOnEntry(s: System, fg: nat, stack: int, argv: int, x: nat)
    requires Settled(s) && Enabled(s, SysCreate(fg, stack, argv)) && x < |s.table|
    ensures var p, r := s.table[x], Step(s, SysCreate(fg, stack, argv)); var b := fg % 256;
            && |r.table| == |s.table| && r.current == s.current && r.nextPid == s.nextPid + 1
            && r.table[x] == if p.state == FREE && forall k :: 0 <= k < x ==> s.table[k].state != FREE then
                               PCB(s.nextPid + 1, 3, 3, 0, if b % 4 >= 2 then BLOCKED else READY, b,
                                   s.table[s.current].pid, 0, stack, argv, 0, 0)
                             else p
  {
    hide Pids, Sorted, Add;
    SettledIsWf(s);
    StepParts(s, SysCreate(fg, stack, argv));
    FirstFreeIs(s.table, 0);
    var slot := FreeSlot(s.table, 0);
    CreateIs(s, slot, Byte(fg), stack, argv);
    LowBits(Byte(fg));
  }

  lemma LowBits(b: nat)
    ensures (b / 2) % 2 == 1 <==> b % 4 >= 2
  {
  }

  lemma {:induction false} FirstFreeIs(table: seq<PCB>, i: nat)
    requires i <= |table|
    ensures var r := FreeSlot(table, i); r != NULL ==> i <= r < |table| && forall k :: i <= k < r ==> table[k].state != FREE
    decreases |table| - i
  {
    if i < |table| { FirstFreeIs(table, i + 1); }
  }

  lemma CreateIs(s: System, slot: nat, fg: nat, stack: int, argv: int)
    requires QueueWf(s) && SlotsOk(s) && slot < |s.table|
    ensures var r := Create(s, slot, fg, stack, argv);
            r.table == s.table[slot := NewProcess(s, fg, stack, argv)] && r.current == s.current && r.nextPid == s.nextPid + 1
  {
  }

  /** block as a call: a toggle. */
  lemma ToggleOnEntry(s: System, pid: nat, x: nat)
    requires Pids(s) && SlotsOk(s) && x < |s.table|
    ensures var p, (r, switch) := s.table[x], Toggle(s, pid);
            && |r.table| == |s.table|
            && r.table[x] == (if p.state in {FREE, ZOMBIE} || p.pid != pid then p
                              else if p.state == BLOCKED then (if p.waitingFor == 0 then p.(state := READY, waitTicks := 0) else p)
                              else p.(state := BLOCKED))
            && (p.state != FREE && p.pid == pid ==>
                  (switch <==> if p.state == BLOCKED
                               then p.waitingFor == 0 && s.current != NULL && p.priority > s.table[s.current].priority
                               else p.state != ZOMBIE && x == s.current))
  {
    hide Find;
    FoundIff(s, pid, x);
    FindGives(s.table, pid);
  }

  /** block inside the kernel, for one that has to wait: no toggle. */
  lemma BlockOnEntry(s: System, pid: nat, x: nat)
    requires Pids(s) && x < |s.table|
    ensures var p, (r, switch) := s.table[x], Block(s, pid);
            && |r.table| == |s.table|
            && r.table[x] == (if p.pid == pid && p.state in {READY, RUNNING} then p.(state := BLOCKED) else p)
            && (p.state != FREE && p.pid == pid ==> (switch <==> p.state in {READY, RUNNING} && x == s.current))
  {
    hide Find;
    FoundIff(s, pid, x);
    FindGives(s.table, pid);
  }

  /** unblock: a blocked process becomes ready, with no waiting counted; a switch is asked for exactly if its priority is
      above the current one's. */
  lemma UnblockOnEntry(s: System, pid: nat, x: nat)
    requires Pids(s) && SlotsOk(s) && x < |s.table|
    ensures var p, (r, switch) := s.table[x], Unblock(s, pid);
            && |r.table| == |s.table|
            && r.table[x] == (if p.state == BLOCKED && p.pid == pid then p.(state := READY, waitTicks := 0) else p)
            && (p.state != FREE && p.pid == pid ==>
                  (switch <==> p.state == BLOCKED && s.current != NULL && p.priority > s.table[s.current].priority))
  {
    hide Find;
    FoundIff(s, pid, x);
    FindGives(s.table, pid);
  }

  /** Unblocking several. */
  lemma {:induction false} UnblockAllOnEntry(s: System, pids: seq<nat>, x: nat)
    requires Pids(s) && SlotsOk(s) && x < |s.table|
    ensures var p, (r, switch) := s.table[x], UnblockAll(s, pids);
            Pids(r) && r.table[x] == if p.state == BLOCKED && p.pid in pids then p.(state := READY, waitTicks := 0) else p
  {
    hide Unblock;
    if pids != [] {
      var front, last := pids[..|pids| - 1], pids[|pids| - 1];
      assert forall y :: y in pids <==> y in front || y == last;
      UnblockAllOnEntry(s, front, x);
      var s1 := UnblockAll(s, front).0;
      UnblockOnEntry(s1, last, x);
      UnblockKeepsPids(s1, last);
    }
  }

  /** Blocked, and of a higher priority than the current process. */
  predicate Outranks(s: System, i: int)
    requires SlotsOk(s)
  {
    && 0 <= i < |s.table| && s.table[i].state == BLOCKED
    && s.current != NULL && s.table[i].priority > s.table[s.current].priority
  }

  lemma UnblockSwitch(s: System, pid: nat)
    requires Pids(s) && SlotsOk(s)
    ensures Unblock(s, pid).1 <==> exists i :: Outranks(s, i) && s.table[i].pid == pid
  {
    hide Find;
    FindGives(s.table, pid);
    if Unblock(s, pid).1 { assert Outranks(s, Find(s.table, pid)); }
    if i: nat :| Outranks(s, i) && s.table[i].pid == pid { FoundIff(s, pid, i); }
  }

  /** A call that wakes several asks for a switch exactly if one of those it wakes has a higher priority than the caller. */
  lemma {:induction false} UnblockAllSwitch(s: System, pids: seq<nat>)
    requires Pids(s) && SlotsOk(s)
    ensures UnblockAll(s, pids).1 <==> exists i :: Outranks(s, i) && s.table[i].pid in pids
  {
    hide Unblock;
    if pids != [] {
      var front, last := pids[..|pids| - 1], pids[|pids| - 1];
      assert forall y :: y in pids <==> y in front || y == last;
      UnblockAllSwitch(s, front);
      var s1 := UnblockAll(s, front).0;
      UnblockAllKeepsPids(s, front);
      UnblockSwitch(s1, last);
      if i: nat :| Outranks(s1, i) && s1.table[i].pid == last { SamePriority(s, front, i); }
      if i: nat :| Outranks(s, i) && s.table[i].pid == last { SamePriority(s, front, i); }
    }
  }

  lemma UnblockKeepsPids(s: System, pid: nat)
    requires Pids(s) && SlotsOk(s)
    ensures Pids(Unblock(s, pid).0)
  {
    hide Find;
    FindGives(s.table, pid);
  }

  lemma {:induction false} UnblockAllKeepsPids(s: System, pids: seq<nat>)
    requires Pids(s) && SlotsOk(s)
    ensures Pids(UnblockAll(s, pids).0)
  {
    hide Unblock;
    if pids != [] {
      UnblockAllKeepsPids(s, pids[..|pids| - 1]);
      UnblockKeepsPids(UnblockAll(s, pids[..|pids| - 1]).0, pids[|pids| - 1]);
    }
  }

  lemma SamePriority(s: System, pids: seq<nat>, i: nat)
    requires Pids(s) && SlotsOk(s) && i < |s.table|
    ensures var r := UnblockAll(s, pids).0;
            && r.table[i].pid == s.table[i].pid && (Outranks(r, i) <==> Outranks(s, i) && s.table[i].pid !in pids)
  {
    hide UnblockAll;
    UnblockAllOnEntry(s, pids, i);
    if s.current != NULL { UnblockAllOnEntry(s, pids, s.current); }
  }

  /** The wake-up of the parent of the process in slot c. */
  lemma WakeParentOnEntry(s: System, c: nat, value: int, x: nat)
    requires Pids(s) && c < |s.table| && x < |s.table|
    ensures var p, r := s.table[x], WakeParent(s, c, value);
            r.table[x] == if p.state == BLOCKED && p.pid == s.table[c].parent && p.waitingFor == s.table[c].pid
                          then p.(saved := value, waitingFor := 0, state := READY, waitTicks := 0) else p
  {
    hide Find;
    FoundIff(s, s.table[c].parent, x);
    FindGives(s.table, s.table[c].parent);
  }

  /** What a death leaves of entry p: awake if it is listed, awake with the value if it is the parent that waits, else as it was. */
  function Bereft(p: PCB, dead: PCB, value: int, woken: seq<nat>): PCB {
    if p.state == BLOCKED && p.pid in woken then p.(state := READY, waitTicks := 0)
    else if p.state == BLOCKED && p.pid == dead.parent && p.waitingFor == dead.pid
    then p.(saved := value, waitingFor := 0, state := READY, waitTicks := 0)
    else p
  }

  lemma BequestOnEntry(s: System, c: nat, value: int, woken: seq<nat>, x: nat)
    requires Settled(s) && Wakeable(s, woken) && c < |s.table| && s.table[c].state != FREE && x < |s.table|
    ensures SlotsOk(s)
    ensures var s1 := s.(table := s.table[c := s.table[c].(retval := value)]);
            var r := WakeParent(UnblockAll(s1, woken).0, c, value);
            && |r.table| == |s.table| && QueueWf(r)
            && (x != c ==> r.table[x] == Bereft(s.table[x], s.table[c], value, woken))
            && (x == c && s.table[c].state != BLOCKED ==> r.table[x] == s.table[x].(retval := value))
  {
    hide QueueExact, UnblockAll, WakeParent, Wakeable, NotAwaiting;
    var s1 := s.(table := s.table[c := s.table[c].(retval := value)]);
    BequestKeeps(s, c, value, woken);
    ExactIsWf(s);
    if s.table[x].state != FREE && s.table[x].pid in woken { ListedWaitsForNobody(s, woken, x); }
    UnblockAllOnEntry(s1, woken, x);
    UnblockAllOnEntry(s1, woken, c);
    WakeParentOnEntry(UnblockAll(s1, woken).0, c, value, x);
    assert QueueExact(WakeParent(UnblockAll(s1, woken).0, c, value));
    ExactWf(WakeParent(UnblockAll(s1, woken).0, c, value));
  }

  lemma ExactWf(s: System)
    requires QueueExact(s)
    ensures QueueWf(s)
  {
  }

  lemma ListedWaitsForNobody(s: System, woken: seq<nat>, x: nat)
    requires Pids(s) && Wakeable(s, woken) && x < |s.table| && s.table[x].state != FREE && s.table[x].pid in woken
    ensures s.table[x].waitingFor == 0
  {
    hide Find;
    FoundIff(s, s.table[x].pid, x);
    assert NotAwaiting(s, s.table[x].pid);
  }

  /** exit: the caller is dead with its value, everyone else as a death leaves them, and a switch is asked for. */
  lemma ExitOnEntry(s: System, retval: int, woken: seq<nat>, x: nat)
    requires Settled(s) && Wakeable(s, woken) && x < |s.table|
    ensures SlotsOk(s)
    ensures var p, (r, switch) := s.table[x], Exit(s, retval, woken);
            && switch && |r.table| == |s.table|
            && r.table[x] == if x == s.current then p.(retval := retval, state := ZOMBIE)
                             else Bereft(p, s.table[s.current], retval, woken)
  {
    hide QueueExact, UnblockAll, WakeParent, Wakeable, Bereft;
    BequestOnEntry(s, s.current, retval, woken, x);
    BequestOnEntry(s, s.current, retval, woken, s.current);
  }

  /** kill: oneself is as to exit with -1; another process is out of the table at once, and a switch is asked for exactly
      if one that is woken has a higher priority than the current process. */
  lemma KillOnEntry(s: System, pid: nat, woken: seq<nat>, x: nat, c: nat)
    requires Settled(s) && Wakeable(s, woken) && x < |s.table| && c < |s.table| && s.table[c].state != FREE && s.table[c].pid == pid
    ensures QueueWf(s) && SlotsOk(s)
    ensures var p, (r, switch) := s.table[x], Kill(s, pid, woken);
            && |r.table| == |s.table|
            && (x != c ==> r.table[x] == Bereft(p, s.table[c], -1, woken))
            && (x == c && c == s.current ==> r.table[x] == p.(retval := -1, state := ZOMBIE) && switch)
            && (x == c && c != s.current ==> r.table[x].state == FREE && r.table[x].pid == 0)
            && (switch <==> c == s.current || exists i :: Outranks(s, i) && s.table[i].pid in woken)
  {
    hide QueueExact, UnblockAll, WakeParent, Wakeable, Bereft, Find, Remove, Outranks;
    ExactIsWf(s);
    FoundIff(s, pid, c);
    BequestOnEntry(s, c, -1, woken, x);
    BequestOnEntry(s, c, -1, woken, c);
    RecordedSwitch(s, c, -1, woken);
  }

  lemma RecordedSwitch(s: System, c: nat, value: int, woken: seq<nat>)
    requires Pids(s) && SlotsOk(s) && c < |s.table|
    ensures UnblockAll(s.(table := s.table[c := s.table[c].(retval := value)]), woken).1
            <==> exists i :: Outranks(s, i) && s.table[i].pid in woken
  {
    hide UnblockAll;
    var s1 := s.(table := s.table[c := s.table[c].(retval := value)]);
    UnblockAllSwitch(s1, woken);
    if i :| Outranks(s, i) && s.table[i].pid in woken { assert Outranks(s1, i); }
    if i :| Outranks(s1, i) && s1.table[i].pid in woken { assert Outranks(s, i); }
  }

  /** waitpid on a live process: the caller sleeps until its death, with the zero it gets otherwise in its frame; nobody
      else changes. On nobody, nothing changes and the result is -1. */
  lemma WaitPidOnEntry(s: System, pid: nat, x: nat)
    requires Pids(s) && SlotsOk(s) && x < |s.table| && forall i :: 0 <= i < |s.table| ==> s.table[i].state != ZOMBIE
    ensures var p, (r, switch) := s.table[x], WaitPid(s, pid);
            var alive := exists i :: 0 <= i < |s.table| && s.table[i].state != FREE && s.table[i].pid == pid;
            && |r.table| == |s.table| && switch == alive && WaitValue(s, pid) == (if alive then 0 else -1)
            && r.table[x] == if alive && x == s.current then p.(state := BLOCKED, waitingFor := pid, saved := 0) else p
  {
    hide Find;
    NotFoundIff(s, pid);
    FindGives(s.table, pid);
  }

  /** On a dead process that is still in the table, waitpid returns the value it died with, frees its entry, and nobody sleeps. */
  lemma WaitPidOnDead(s: System, pid: nat, c: nat, x: nat)
    requires Pids(s) && SlotsOk(s) && x < |s.table| && c < |s.table| && s.table[c].state == ZOMBIE && s.table[c].pid == pid
    ensures var (r, switch) := WaitPid(s, pid);
            && !switch && |r.table| == |s.table| && WaitValue(s, pid) == s.table[c].retval
            && r.table[x] == if x == c then s.table[x].(state := FREE, pid := 0, stack := NULL, argv := NULL) else s.table[x]
  {
    hide Find;
    FoundIff(s, pid, c);
  }

  /** A call that names nobody does nothing and asks for nothing. */
  lemma OnNobody(s: System, pid: nat, woken: seq<nat>, priority: nat)
    requires Pids(s) && QueueWf(s) && SlotsOk(s) && forall i :: 0 <= i < |s.table| ==> s.table[i].state == FREE || s.table[i].pid != pid
    ensures Block(s, pid) == Unblock(s, pid) == Toggle(s, pid) == Kill(s, pid, woken) == WaitPid(s, pid) == (s, false)
    ensures Nice(s, pid, priority) == s
  {
    hide Find;
    NotFoundIff(s, pid);
  }

  /** With nobody running, the timer makes a choice at every tick and exit does nothing; with nobody to choose, a switch does
      nothing but let a current process that is ready go on. */
  lemma WithoutAnyone(s: System, retval: int, woken: seq<nat>, x: nat)
    requires QueueWf(s) && SlotsOk(s) && x < |s.table|
    ensures s.current == NULL || s.table[s.current].state != RUNNING ==> Charge(s) == (s, true)
    ensures s.current == NULL ==> Exit(s, retval, woken) == (s, false)
    ensures NextReady(s).0 == NULL ==>
              var r := Switch(s);
              && |r.table| == |s.table| && r.current == s.current
              && r.table[x] == if x == s.current && s.table[x].state == READY then s.table[x].(state := RUNNING) else s.table[x]
  {
    hide NextReady;
  }
}
