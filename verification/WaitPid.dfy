/** A parent that waits for its child is woken exactly once, when the child dies, with the child's value. */
module WaitPid {
  import opened RunQueue
  import opened ProcessSpec
  import opened ProcessLaws
  import opened ProcessRuns

  /** The parent of every process ever created, by pid. */
  type History = map<nat, nat>

  function Recorded(s: System, born: History, ev: Event): History
    requires SlotsOk(s)
  {
    if ev.SysCreate? then born[s.nextPid + 1 := CurrentPid(s)] else born
  }

  ghost predicate Faithful(s: System, born: History) {
    && (forall k <- born :: k <= s.nextPid)
    && forall i :: 0 <= i < |s.table| && s.table[i].state != FREE ==>
         s.table[i].pid in born && born[s.table[i].pid] == s.table[i].parent
  }

  /** The process in slot i is blocked waiting for a child of its own. */
  predicate AwaitsChild(s: System, born: History, i: nat) {
    && i < |s.table| && s.table[i].state == BLOCKED && s.table[i].waitingFor != 0
    && s.table[i].waitingFor in born && born[s.table[i].waitingFor] == s.table[i].pid
  }

  /** Every awaited child is alive. */
  ghost predicate ChildrenLive(s: System, born: History) {
    Faithful(s, born) && forall i: nat :: AwaitsChild(s, born, i) ==> Find(s.table, s.table[i].waitingFor) != NULL
  }

  // ---------------------------------------------------------------- what one event does to one table entry

  /** The pid of the process that dies in this event; 0 if none does. */
  function Dying(s: System, ev: Event): nat
    requires SlotsOk(s)
  {
    match ev
    case SysExit(_, _) => CurrentPid(s)
    case SysKill(pid, _) => if Find(s.table, pid) == NULL then 0 else pid
    case _ => 0
  }

  function Verdict(ev: Event): int {
    if ev.SysExit? then ev.retval else -1
  }

  predicate IsParent(s: System, pid: nat, parent: nat) {
    var c := Find(s.table, pid);
    0 <= c < |s.table| && s.table[c].parent == parent
  }

  /** What may become of the entry in slot i. */
  predicate Moved(s: System, ev: Event, i: nat, q: PCB)
    requires SlotsOk(s) && i < |s.table|
  {
    var p, d := s.table[i], Dying(s, ev);
    if p.state == FREE then
      q.state == FREE || (ev.SysCreate? && q.pid == s.nextPid + 1 && q.parent == CurrentPid(s) && q.waitingFor == 0)
    else if p.pid == d then q.state in {FREE, ZOMBIE}
    else
      && q.pid == p.pid && q.parent == p.parent && q.state !in {FREE, ZOMBIE}
      && if p.state == BLOCKED && p.waitingFor != 0 then
           if p.waitingFor == d && IsParent(s, d, p.pid)
           then q.waitingFor == 0 && q.state in {READY, RUNNING} && q.saved == Verdict(ev)
           else q.state == BLOCKED && q.waitingFor == p.waitingFor && q.saved == p.saved
         else if ev.SysWaitPid? && i == s.current && Find(s.table, ev.pid) != NULL then q.waitingFor == ev.pid
         else q.waitingFor == 0
  }

  /** What a switch, or a tick, may do to an entry: nothing that waiting looks at. */
  predicate Kept(p: PCB, q: PCB) {
    || (p.state == ZOMBIE && q.state == FREE)
    || (q.pid == p.pid && q.parent == p.parent && q.waitingFor == p.waitingFor && q.saved == p.saved
        && (q.state == p.state || {p.state, q.state} <= {READY, RUNNING}))
  }

  lemma MovedThenKept(s: System, ev: Event, i: nat, q: PCB, r: PCB)
    requires SlotsOk(s) && i < |s.table| && Moved(s, ev, i, q) && Kept(q, r)
    ensures Moved(s, ev, i, r)
  {
    hide Dying, IsParent, Find, CurrentPid;
  }

  lemma SwitchFrame(s: System)
    requires Leaving(s)
    ensures QueueWf(s) && |Switch(s).table| == |s.table|
    ensures forall i :: 0 <= i < |s.table| ==> Kept(s.table[i], Switch(s).table[i])
  {
    hide QueueExact, Pids, Reap, NextReady;
    ExactIsWf(s);
    NextIsReady(s);
    var (next, cursor') := NextReady(s);
    var s1 := s.(cursor := cursor');
    CursorIrrelevant(s, cursor');
    PidsOnlyTable(s, s1);
    if s.table[s.current].state == ZOMBIE { ReapLaws(s1, s.current); }
  }

  lemma YieldFrame(s: System)
    requires Departing(s)
    ensures QueueWf(s) && SlotsOk(s) && |Yield(s).table| == |s.table|
    ensures forall i :: 0 <= i < |s.table| ==> Kept(s.table[i], Yield(s).table[i])
  {
    hide QueueExact, Pids, Switch;
    ExactIsWf(s);
    UpdateSimilar(s, s.current, Relinquish(s).table[s.current]);
    var r := Relinquish(s);
    assert r == s.(table := s.table[s.current := r.table[s.current]]);
    SwitchFrame(r);
    forall i | 0 <= i < |s.table| ensures Kept(s.table[i], Yield(s).table[i]) {
      assert Kept(s.table[i], r.table[i]) && Kept(r.table[i], Switch(r).table[i]);
    }
  }

  lemma TickFrame(s: System)
    requires Settled(s)
    ensures QueueWf(s) && |Tick(s).table| == |s.table|
    ensures forall i :: 0 <= i < |s.table| ==> Kept(s.table[i], Tick(s).table[i])
  {
    hide QueueExact, Pids, Switch, Age;
    ExactIsWf(s);
    AgeKeepsSettled(s);
    var a := Age(s);
    var (r, over) := Charge(a);
    UpdateSimilar(a, a.current, r.table[a.current]);
    assert r == a.(table := a.table[a.current := r.table[a.current]]);
    if over { SwitchFrame(r); }
    forall i | 0 <= i < |s.table| ensures Kept(s.table[i], Tick(s).table[i]) {
      assert Kept(s.table[i], a.table[i]) && Kept(a.table[i], r.table[i]);
      if over { assert Kept(r.table[i], Switch(r).table[i]); }
    }
  }

  lemma KeptIsMoved(s: System, ev: Event, r: System)
    requires Settled(s) && Dying(s, ev) == 0 && !ev.SysWaitPid? && |r.table| == |s.table|
    requires forall i :: 0 <= i < |s.table| ==> Kept(s.table[i], r.table[i])
    ensures forall i :: 0 <= i < |s.table| ==> Moved(s, ev, i, r.table[i])
  {
    hide QueueExact, Find, IsParent, CurrentPid;
    forall i | 0 <= i < |s.table| ensures Moved(s, ev, i, r.table[i]) {
      assert Kept(s.table[i], r.table[i]);
    }
  }

  /** The wake-up of the parent, as it moves the table. */
  lemma WakeMoves(s: System, c: nat, value: int)
    requires Pids(s) && c < |s.table| && s.table[c].state != FREE
    ensures forall i :: 0 <= i < |s.table| && s.table[i].state != FREE ==>
              var p := s.table[i];
              WakeParent(s, c, value).table[i] ==
                if p.state == BLOCKED && p.pid == s.table[c].parent && p.waitingFor == s.table[c].pid
                then p.(saved := value, waitingFor := 0, state := READY, waitTicks := 0) else p
    ensures forall i :: 0 <= i < |s.table| && s.table[i].state == FREE ==> WakeParent(s, c, value).table[i] == s.table[i]
  {
    forall i | 0 <= i < |s.table| && s.table[i].state != FREE && s.table[i].pid == s.table[c].parent
      ensures Find(s.table, s.table[c].parent) == i
    {
      FoundIsUnique(s.table, s.table[i].pid, i);
    }
  }

  lemma FoundAt(s: System, c: nat)
    requires Pids(s) && c < |s.table| && s.table[c].state != FREE
    ensures Find(s.table, s.table[c].pid) == c
  {
    FoundIsUnique(s.table, s.table[c].pid, c);
  }

  /** Entries that change state only between ready, running and blocked, waiting for nobody. */
  predicate Paused(p: PCB, q: PCB) {
    || q == p
    || (p.waitingFor == 0 && q.waitingFor == 0 && q.pid == p.pid && q.parent == p.parent
        && p.state !in {FREE, ZOMBIE} && q.state !in {FREE, ZOMBIE})
  }

  /** The process in slot c dies with `value`: whoever it wakes is ready (state u), then its parent is woken, and then its
      own entry goes. */
  lemma DeathMoves(s: System, ev: Event, c: nat, u: System, t: seq<PCB>)
    requires Settled(s) && c < |s.table| && s.table[c].state != FREE && Dying(s, ev) == s.table[c].pid && Pids(u)
    requires |u.table| == |s.table| && u.table[c].state != FREE && u.table[c].pid == s.table[c].pid && u.table[c].parent == s.table[c].parent
    requires forall i :: 0 <= i < |s.table| && i != c ==> Paused(s.table[i], u.table[i])
    requires |t| == |s.table| && t[c].state in {FREE, ZOMBIE}
    requires forall i :: 0 <= i < |t| && i != c ==> t[i] == WakeParent(u, c, Verdict(ev)).table[i]
    ensures forall i :: 0 <= i < |s.table| ==> Moved(s, ev, i, t[i])
  {
    hide QueueExact, Find, WakeParent, CurrentPid;
    FoundAt(s, c);
    WakeMoves(u, c, Verdict(ev));
    forall i | 0 <= i < |s.table| ensures Moved(s, ev, i, t[i]) {
      if i != c {
        assert Paused(s.table[i], u.table[i]);
        if s.table[i].state != FREE { assert s.table[i].pid != s.table[c].pid; }
      }
    }
  }

  /** The state in which the parent is woken. */
  lemma Bequest(s: System, c: nat, value: int, woken: seq<nat>) returns (u: System)
    requires Settled(s) && c < |s.table| && s.table[c].state != FREE && Wakeable(s, woken)
    ensures u == UnblockAll(s.(table := s.table[c := s.table[c].(retval := value)]), woken).0
    ensures u == s.(table := u.table) && |u.table| == |s.table| && Pids(u)
    ensures u.table[c].state != FREE && u.table[c].pid == s.table[c].pid && u.table[c].parent == s.table[c].parent
    ensures forall i :: 0 <= i < |s.table| && i != c ==> Paused(s.table[i], u.table[i])
  {
    hide QueueExact, Pids, UnblockAll, Wakeable;
    var s1 := s.(table := s.table[c := s.table[c].(retval := value)]);
    UpdateSimilar(s, c, s1.table[c]);
    RecordedKeeps(s, c, value, woken);
    UnblockAllReadies(s1, woken);
    u := UnblockAll(s1, woken).0;
    ReadiedKeeps(s1, u.table);
  }

  lemma ExitMoves(s: System, retval: int, woken: seq<nat>)
    requires Settled(s) && s.current != s.idle && Wakeable(s, woken)
    ensures var r := Exit(s, retval, woken).0;
            && |r.table| == |s.table|
            && forall i :: 0 <= i < |s.table| ==> Moved(s, SysExit(retval, woken), i, r.table[i])
  {
    hide QueueExact, Pids, WakeParent, Moved, UnblockAll, Wakeable;
    var u := Bequest(s, s.current, retval, woken);
    DeathMoves(s, SysExit(retval, woken), s.current, u, Exit(s, retval, woken).0.table);
  }

  lemma KillMoves(s: System, pid: nat, woken: seq<nat>)
    requires Settled(s) && QueueWf(s) && pid != s.table[s.idle].pid && Wakeable(s, woken)
    ensures var r := Kill(s, pid, woken).0;
            && |r.table| == |s.table|
            && forall i :: 0 <= i < |s.table| ==> Moved(s, SysKill(pid, woken), i, r.table[i])
  {
    hide QueueExact, Pids, WakeParent, Moved, Find, Reap, UnblockAll, Wakeable;
    FindGives(s.table, pid);
    var p := Find(s.table, pid);
    var r := Kill(s, pid, woken).0;
    if p == NULL {
      KeptIsMoved(s, SysKill(pid, woken), s);
    } else {
      var u := Bequest(s, p, -1, woken);
      var v := WakeParent(u, p, -1);
      assert p != s.current ==> Reap(v, p).table == v.table[p := Freed(v.table[p])] by { ReapTable(v, p); }
      DeathMoves(s, SysKill(pid, woken), p, u, r.table);
    }
  }

  lemma ReapTable(s: System, p: nat)
    requires QueueWf(s) && p < |s.table|
    ensures Reap(s, p).table == s.table[p := Freed(s.table[p])]
  {
  }

  lemma CreateMoves(s: System, slot: nat, fg: nat, stack: int, argv: int)
    requires Settled(s) && slot < |s.table| && s.table[slot].state == FREE && QueueWf(s)
    ensures var r := Create(s, slot, Byte(fg), stack, argv);
            && |r.table| == |s.table|
            && forall i :: 0 <= i < |s.table| ==> Moved(s, SysCreate(fg, stack, argv), i, r.table[i])
  {
    hide QueueExact, Pids, Create, Find;
    CreateSettles(s, slot, Byte(fg), stack, argv);
    PidsPositive(s);
    forall i | 0 <= i < |s.table| ensures Moved(s, SysCreate(fg, stack, argv), i, Create(s, slot, Byte(fg), stack, argv).table[i]) {
    }
  }

  lemma PidsPositive(s: System)
    requires Pids(s)
    ensures forall i :: 0 <= i < |s.table| && s.table[i].state != FREE ==> s.table[i].pid > 0
  {
  }

  lemma PausedMoves(s: System, ev: Event, t: seq<PCB>)
    requires Settled(s) && Dying(s, ev) == 0 && !ev.SysWaitPid? && |t| == |s.table|
    requires forall i :: 0 <= i < |t| ==> Paused(s.table[i], t[i])
    ensures forall i :: 0 <= i < |s.table| ==> Moved(s, ev, i, t[i])
  {
    hide QueueExact, Find, IsParent, CurrentPid;
    PidsPositive(s);
    forall i | 0 <= i < |s.table| ensures Moved(s, ev, i, t[i]) {
      assert Paused(s.table[i], t[i]);
    }
  }

  lemma WaitMoves(s: System, pid: nat)
    requires Settled(s) && s.current != s.idle
    ensures var r := WaitPid(s, pid).0;
            && |r.table| == |s.table|
            && forall i :: 0 <= i < |s.table| ==> Moved(s, SysWaitPid(pid), i, r.table[i])
  {
    hide QueueExact, Find, CurrentPid;
    PidsPositive(s);
    FindGives(s.table, pid);
    forall i | 0 <= i < |s.table| ensures Moved(s, SysWaitPid(pid), i, WaitPid(s, pid).0.table[i]) {
    }
  }

  lemma NiceTable(s: System, pid: nat, priority: nat)
    requires Settled(s) && QueueWf(s)
    ensures var r := Nice(s, pid, priority);
            && |r.table| == |s.table|
            && forall i :: 0 <= i < |s.table| ==> Kept(s.table[i], r.table[i])
  {
    hide QueueExact, Pids, Find;
    FindGives(s.table, pid);
    var p := Find(s.table, pid);
    if p != NULL {
      var c := Clamped(priority);
      RequeueTable(s.(table := s.table[p := s.table[p].(priority := c, waitTicks := 0, quanta := c)]), p);
    }
  }

  lemma RequeueTable(s: System, p: nat)
    requires QueueWf(s) && p < |s.table|
    ensures Requeue(s, p).table == s.table
  {
  }

  lemma EntryMoves(s: System, ev: Event)
    requires Settled(s) && Enabled(s, ev) && QueueWf(s)
    ensures var r := Entry(s, ev).0;
            && |r.table| == |s.table|
            && forall i :: 0 <= i < |s.table| ==> Moved(s, ev, i, r.table[i])
  {
    hide QueueExact, Pids, Find, FreeSlot, Tick, Create, Exit, Kill, Nice, WaitPid, Moved, QueueWf, UnblockAll, Wakeable;
    match ev
    case TimerTick => TickFrame(s); KeptIsMoved(s, ev, Tick(s));
    case SysYield => PausedMoves(s, ev, SetState(s, s.current, READY).table);
    case SysCreate(fg, stack, argv) => FreeSlotGives(s.table); CreateMoves(s, FreeSlot(s.table, 0), fg, stack, argv);
    case SysExit(retval, woken) => ExitMoves(s, retval, woken);
    case SysKill(pid, woken) => KillMoves(s, pid, woken);
    case SysBlock(pid) => FindGives(s.table, pid); PausedMoves(s, ev, Toggle(s, pid).0.table);
    case SysUnblock(pid) => FindGives(s.table, pid); PausedMoves(s, ev, Unblock(s, pid).0.table);
    case SysWake(woken) => UnblockAllReadies(s, woken); PausedMoves(s, ev, UnblockAll(s, woken).0.table);
    case SysNice(pid, priority) => NiceTable(s, pid, Byte(priority)); KeptIsMoved(s, ev, Nice(s, pid, Byte(priority)));
    case SysWaitPid(pid) => WaitMoves(s, pid);
  }

  lemma StepMoves(s: System, ev: Event)
    requires Settled(s) && Enabled(s, ev)
    ensures |Step(s, ev).table| == |s.table|
    ensures forall i :: 0 <= i < |s.table| ==> Moved(s, ev, i, Step(s, ev).table[i])
  {
    hide Settled, Departing, Moved, Kept, Yield, Entry, Enabled;
    EntryLaws(s, ev);
    EntryMoves(s, ev);
    var (r, switch) := Entry(s, ev);
    if switch {
      YieldFrame(r);
      SettledIsWf(s);
      forall i | 0 <= i < |s.table| ensures Moved(s, ev, i, Yield(r).table[i]) {
        MovedThenKept(s, ev, i, r.table[i], Yield(r).table[i]);
      }
    }
  }

  // ---------------------------------------------------------------- the hand-off

  lemma SettledPids(s: System)
    requires Settled(s)
    ensures Pids(s) && SlotsOk(s) && forall i :: 0 <= i < |s.table| ==> s.table[i].state != ZOMBIE
  {
  }

  /** A live process that does not die in the event is found afterwards too. */
  lemma StaysFound(s: System, ev: Event, pid: nat)
    requires Settled(s) && Enabled(s, ev) && Find(s.table, pid) != NULL && pid != Dying(s, ev)
    ensures Find(Step(s, ev).table, pid) == Find(s.table, pid)
  {
    hide Settled, Find, Enabled, Pids;
    SettledPids(s);
    SettledPids(Step(s, ev));
    StepMoves(s, ev);
    FindGives(s.table, pid);
    var c := Find(s.table, pid);
    assert Moved(s, ev, c, Step(s, ev).table[c]);
    FoundAt(Step(s, ev), c);
  }

  lemma DyingIsGone(s: System, ev: Event)
    requires Settled(s) && Enabled(s, ev) && Dying(s, ev) != 0
    ensures Find(Step(s, ev).table, Dying(s, ev)) == NULL
  {
    hide Settled, Find, Enabled, CurrentPid;
    SettledPids(s);
    var r, d := Step(s, ev), Dying(s, ev);
    SettledPids(r);
    StepMoves(s, ev);
    DyingIsLive(s, ev);
    forall i | 0 <= i < |r.table| ensures r.table[i].state == FREE || r.table[i].pid != d {
      assert Moved(s, ev, i, r.table[i]);
    }
    FindGives(r.table, d);
  }

  lemma DyingIsLive(s: System, ev: Event)
    requires Settled(s) && Enabled(s, ev) && Dying(s, ev) != 0
    ensures Find(s.table, Dying(s, ev)) != NULL && Dying(s, ev) <= s.nextPid && !ev.SysCreate?
  {
    hide QueueExact;
    FindGives(s.table, Dying(s, ev));
    if ev.SysExit? { FoundAt(s, s.current); }
  }

  /** The hand-off: the parent stays blocked on its child, gets the child's value and becomes ready in the very
      event in which the child dies, and otherwise stays as it is unless it is itself killed. */
  lemma HandOff(s: System, born: History, ev: Event, i: nat)
    requires Settled(s) && Enabled(s, ev) && ChildrenLive(s, born) && AwaitsChild(s, born, i)
    ensures var p, w, r := s.table[i], s.table[i].waitingFor, Step(s, ev);
            if p.pid == Dying(s, ev) then r.table[i].state == FREE
            else if w == Dying(s, ev) then
              && r.table[i].pid == p.pid && r.table[i].state in {READY, RUNNING} && r.table[i].waitingFor == 0
              && r.table[i].saved == Verdict(ev) && Find(r.table, w) == NULL
            else
              && r.table[i].pid == p.pid && r.table[i].saved == p.saved
              && AwaitsChild(r, Recorded(s, born, ev), i) && r.table[i].waitingFor == w && Find(r.table, w) != NULL
  {
    hide Settled, Find, Enabled, Dying, Pids, CurrentPid, Verdict;
    var p, w, r := s.table[i], s.table[i].waitingFor, Step(s, ev);
    SettledPids(s);
    SettledPids(r);
    StepMoves(s, ev);
    assert Moved(s, ev, i, r.table[i]);
    ParentOf(s, born, w);
    if p.pid != Dying(s, ev) {
      if w == Dying(s, ev) {
        DyingIsGone(s, ev);
      } else {
        StaysFound(s, ev, w);
      }
    }
  }

  lemma ParentOf(s: System, born: History, w: nat)
    requires Faithful(s, born) && Find(s.table, w) != NULL
    ensures w in born && w <= s.nextPid && IsParent(s, w, born[w])
  {
    FindGives(s.table, w);
  }

  lemma FaithfulStep(s: System, born: History, ev: Event)
    requires Settled(s) && Enabled(s, ev) && Faithful(s, born)
    ensures Faithful(Step(s, ev), Recorded(s, born, ev))
  {
    hide QueueExact, Find, Dying, CurrentPid, Enabled, IsParent, Step;
    var r := Step(s, ev);
    StepMoves(s, ev);
    NextPidStep(s, ev);
    forall i | 0 <= i < |r.table| && r.table[i].state != FREE
      ensures r.table[i].pid in Recorded(s, born, ev) && Recorded(s, born, ev)[r.table[i].pid] == r.table[i].parent
    {
      assert Moved(s, ev, i, r.table[i]);
    }
  }

  lemma NextPidStep(s: System, ev: Event)
    requires Settled(s) && Enabled(s, ev)
    ensures Step(s, ev).nextPid == s.nextPid + (if ev.SysCreate? then 1 else 0)
    ensures forall i :: 0 <= i < |Step(s, ev).table| ==> Step(s, ev).table[i].state != ZOMBIE
  {
    hide Departing, Entry, Enabled, Step, Switch, Pids, QueueExact;
    StepParts(s, ev);
    EntryNextPid(s, ev);
    if Entry(s, ev).1 { YieldFrame(Entry(s, ev).0); SwitchNextPid(Relinquish(Entry(s, ev).0)); }
  }

  lemma EntryNextPid(s: System, ev: Event)
    requires Settled(s) && Enabled(s, ev) && QueueWf(s)
    ensures Entry(s, ev).0.nextPid == s.nextPid + (if ev.SysCreate? then 1 else 0)
  {
    hide Settled, QueueWf, Find, Tick, FreeSlot, Remove, UnblockAll, Wakeable;
    SettledIsWf(s);
    if ev.TimerTick? { TickNextPid(s); }
  }

  lemma TickNextPid(s: System)
    requires QueueWf(s) && SlotsOk(s)
    ensures Tick(s).nextPid == s.nextPid
  {
    hide Switch, Age;
    AgeOnlyTable(s);
    SwitchNextPid(Charge(Age(s)).0);
  }

  lemma SwitchNextPid(s: System)
    requires QueueWf(s) && SlotsOk(s)
    ensures Switch(s).nextPid == s.nextPid
  {
    hide NextReady;
  }

  /** Every awaited child is alive, after every event. */
  lemma ChildrenLiveStep(s: System, born: History, ev: Event)
    requires Settled(s) && Enabled(s, ev) && ChildrenLive(s, born)
    ensures ChildrenLive(Step(s, ev), Recorded(s, born, ev))
  {
    hide Settled, Find, Enabled, Dying, Pids, CurrentPid, Verdict, Faithful, Step;
    SettledPids(s);
    var r, born' := Step(s, ev), Recorded(s, born, ev);
    FaithfulStep(s, born, ev);
    StepMoves(s, ev);
    forall i: nat | AwaitsChild(r, born', i) ensures Find(r.table, r.table[i].waitingFor) != NULL {
      assert Moved(s, ev, i, r.table[i]);
      if AwaitsChild(s, born, i) {
        HandOff(s, born, ev, i);
      } else {
        BlockedIsNotCurrent(s, i);
        NewWaitIsLive(s, ev);
      }
    }
  }

  lemma BlockedIsNotCurrent(s: System, i: nat)
    requires Settled(s) && i < |s.table|
    ensures s.table[i].state == BLOCKED ==> s.table[i].pid != CurrentPid(s)
  {
    hide QueueExact;
  }

  lemma NewWaitIsLive(s: System, ev: Event)
    requires Settled(s) && Enabled(s, ev)
    ensures ev.SysWaitPid? && Find(s.table, ev.pid) != NULL ==> Find(Step(s, ev).table, ev.pid) != NULL
  {
    hide Settled, Step;
    if ev.SysWaitPid? && Find(s.table, ev.pid) != NULL { StaysFound(s, ev, ev.pid); }
  }

  // ---------------------------------------------------------------- over runs

  ghost function RecordedAll(s: System, born: History, evs: seq<Event>): History
    requires Settled(s) && Legal(s, evs)
    decreases |evs|
  {
    if evs == [] then born
    else RecordedAll(Step(s, evs[0]), Recorded(s, born, evs[0]), evs[1..])
  }

  /** In every run every awaited child is alive. */
  lemma {:induction false} ChildrenLiveRun(s: System, born: History, evs: seq<Event>)
    requires Settled(s) && Legal(s, evs) && ChildrenLive(s, born)
    ensures ChildrenLive(Run(s, evs), RecordedAll(s, born, evs))
    decreases |evs|
  {
    hide Settled, Enabled, ChildrenLive, Step;
    if evs != [] {
      SettledPids(s);
      ChildrenLiveStep(s, born, evs[0]);
      ChildrenLiveRun(Step(s, evs[0]), Recorded(s, born, evs[0]), evs[1..]);
    }
  }

  /** No event of the run kills the process with this pid. */
  ghost predicate Survives(s: System, evs: seq<Event>, pid: nat)
    requires Settled(s) && Legal(s, evs)
    decreases |evs|
  {
    evs == [] || (Dying(s, evs[0]) != pid && Survives(Step(s, evs[0]), evs[1..], pid))
  }

  /** A parent stays blocked on its child, its saved frame untouched, for as long as both live. */
  lemma {:induction false} WaitsUntilDeath(s: System, born: History, evs: seq<Event>, i: nat)
    requires Settled(s) && Legal(s, evs) && ChildrenLive(s, born) && AwaitsChild(s, born, i)
    requires Survives(s, evs, s.table[i].pid) && Survives(s, evs, s.table[i].waitingFor)
    ensures var r := Run(s, evs);
            && AwaitsChild(r, RecordedAll(s, born, evs), i) && r.table[i].pid == s.table[i].pid
            && r.table[i].waitingFor == s.table[i].waitingFor && r.table[i].saved == s.table[i].saved
    decreases |evs|
  {
    hide Settled, Enabled, ChildrenLive, Step, Find, Dying;
    if evs != [] {
      SettledPids(s);
      HandOff(s, born, evs[0], i);
      ChildrenLiveStep(s, born, evs[0]);
      WaitsUntilDeath(Step(s, evs[0]), Recorded(s, born, evs[0]), evs[1..], i);
    }
  }
}
