/** What holds between kernel entries, over every run: one running process, an exact queue, a live child for each wait. */
module ProcessLaws {
  import opened Basics
  import opened RunQueue
  import opened ProcessSpec

  // ---------------------------------------------------------------- table updates that keep queue and pids

  predicate Similar(p: PCB, q: PCB) {
    q.pid == p.pid && q.priority == p.priority && q.parent == p.parent && (q.state == FREE <==> p.state == FREE)
  }

  ghost predicate SimilarTables(t: seq<PCB>, u: seq<PCB>) {
    |u| == |t| && forall i :: 0 <= i < |t| ==> Similar(t[i], u[i])
  }

  lemma SimilarKeepsQueue(s: System, t: seq<PCB>)
    requires QueueExact(s) && SimilarTables(s.table, t)
    ensures QueueExact(s.(table := t))
  {
    hide Distinct;
    assert Sorted(t, s.queue) by {
      forall i, j | 0 <= i < j < |s.queue| ensures t[s.queue[i]].priority >= t[s.queue[j]].priority {
        assert Similar(s.table[s.queue[i]], t[s.queue[i]]) && Similar(s.table[s.queue[j]], t[s.queue[j]]);
      }
    }
    forall i: nat ensures i in s.queue <==> i < |t| && t[i].state != FREE && i != s.idle {
      assert i < |t| ==> Similar(s.table[i], t[i]);
    }
  }

  lemma SimilarKeepsPids(s: System, t: seq<PCB>)
    requires Pids(s) && SimilarTables(s.table, t)
    ensures Pids(s.(table := t))
  {
    forall i | 0 <= i < |t| && t[i].state != FREE ensures 1 <= t[i].pid <= s.nextPid && t[i].parent < t[i].pid {
      assert Similar(s.table[i], t[i]);
    }
    forall i, j | 0 <= i < j < |t| && t[i].state != FREE && t[j].state != FREE ensures t[i].pid != t[j].pid {
      assert Similar(s.table[i], t[i]) && Similar(s.table[j], t[j]);
    }
  }

  // ---------------------------------------------------------------- the pending switch

  /** About to switch: the current process is off the processor, perhaps dead or blocked. */
  ghost predicate Leaving(s: System) {
    && Common(s) && s.current != NULL && s.table[s.current].state !in {FREE, RUNNING}
    && (forall i :: 0 <= i < |s.table| && s.table[i].state == ZOMBIE ==> i == s.current)
    && (forall i :: 0 <= i < |s.table| && s.table[i].waitingFor != 0 ==> s.table[i].state in {BLOCKED, FREE})
  }

  lemma NextIsReady(s: System)
    requires Leaving(s)
    ensures var (next, cursor') := NextReady(s);
            && 0 <= next < |s.table| && s.table[next].state == READY
            && (next in s.queue || next == s.idle) && (next in s.queue ==> s.queue != [])
            && QueueWf(s.(cursor := cursor'))
  {
    hide Highest, Steps, Distinct, Sorted, Pids;
    var e := ChoiceIsFirstBest(s);
  }

  lemma FreedKeepsPids(s: System, p: nat)
    requires Pids(s) && p < |s.table|
    ensures Pids(s.(table := s.table[p := Freed(s.table[p])]))
  {
  }

  lemma FreedKeepsSorted(t: seq<PCB>, q: seq<nat>, p: nat)
    requires p < |t| && (forall i :: 0 <= i < |q| ==> q[i] < |t|) && Sorted(t, q)
    ensures Sorted(t[p := Freed(t[p])], q)
  {
    forall i, j | 0 <= i < j < |q|
      ensures t[p := Freed(t[p])][q[i]].priority >= t[p := Freed(t[p])][q[j]].priority
    {
      assert t[q[i]].priority >= t[q[j]].priority;
    }
  }

  /** Reaping frees the slot and takes it out of the queue. */
  lemma ReapLaws(s: System, p: nat)
    requires QueueExact(s) && Pids(s) && p < |s.table|
    ensures QueueExact(Reap(s, p)) && Pids(Reap(s, p))
    ensures Reap(s, p) == s.(queue := Remove(s, p).queue, cursor := Remove(s, p).cursor,
                             table := s.table[p := Freed(s.table[p])])
  {
    hide Distinct, Sorted, Remove, Pids;
    RemoveLaws(s, p);
    var r := Remove(s, p);
    FreedKeepsSorted(s.table, r.queue, p);
    FreedKeepsPids(s, p);
    PidsOnlyTable(s.(table := s.table[p := Freed(s.table[p])]), Reap(s, p));
  }

  lemma PidsOnlyTable(s: System, r: System)
    requires Pids(s) && r.table == s.table && r.nextPid == s.nextPid
    ensures Pids(r)
  {
  }

  lemma RunKeeps(s: System, next: nat)
    requires QueueExact(s) && Pids(s) && next < |s.table| && s.table[next].state != FREE
    ensures var t := s.table[next := s.table[next].(waitTicks := 0, state := RUNNING)];
            QueueExact(s.(table := t, current := next)) && Pids(s.(table := t, current := next))
  {
    hide Distinct, QueueExact, Pids;
    var t := s.table[next := s.table[next].(waitTicks := 0, state := RUNNING)];
    SimilarKeepsQueue(s, t);
    SimilarKeepsPids(s, t);
    CurrentIrrelevant(s.(table := t), next);
  }

  lemma CurrentIrrelevant(s: System, c: int)
    ensures QueueExact(s) ==> QueueExact(s.(current := c))
    ensures Pids(s) ==> Pids(s.(current := c))
  {
  }

  lemma CursorIrrelevant(s: System, k: nat)
    requires QueueExact(s) && QueueWf(s.(cursor := k))
    ensures QueueExact(s.(cursor := k))
  {
  }

  /** Nobody is running or dead, and `next` is ready. */
  ghost predicate Idling(s: System, next: nat) {
    && QueueExact(s) && Pids(s) && |s.table| == MAX_PROCESSES && SlotsOk(s) && 0 <= s.idle
    && s.table[s.idle].state == READY && next < |s.table| && s.table[next].state == READY
    && forall i :: 0 <= i < |s.table| ==>
         s.table[i].state !in {RUNNING, ZOMBIE} && (s.table[i].waitingFor != 0 ==> s.table[i].state in {BLOCKED, FREE})
  }

  lemma RunSettles(s: System, next: nat)
    requires Idling(s, next)
    ensures Settled(s.(table := s.table[next := s.table[next].(waitTicks := 0, state := RUNNING)], current := next))
  {
    hide QueueExact, Pids;
    RunKeeps(s, next);
  }

  /** Nobody is running, nobody is dead but perhaps the current process, and `next` is ready. */
  ghost predicate Choosing(s: System, next: nat) {
    && QueueExact(s) && Pids(s) && |s.table| == MAX_PROCESSES && SlotsOk(s) && 0 <= s.idle
    && s.table[s.idle].state == READY && next < |s.table| && s.table[next].state == READY
    && forall i :: 0 <= i < |s.table| ==>
         s.table[i].state != RUNNING && (s.table[i].state == ZOMBIE ==> i == s.current)
         && (s.table[i].waitingFor != 0 ==> s.table[i].state in {BLOCKED, FREE})
  }

  lemma ExactIsWf(s: System)
    requires QueueExact(s)
    ensures QueueWf(s)
  {
  }

  lemma LeavingChooses(s: System)
    requires Leaving(s)
    ensures QueueWf(s)
    ensures var (next, cursor') := NextReady(s);
            next >= 0 && QueueWf(s.(cursor := cursor')) && Choosing(s.(cursor := cursor'), next)
  {
    hide QueueExact, Pids;
    ExactIsWf(s);
    NextIsReady(s);
    var (next, cursor') := NextReady(s);
    CursorIrrelevant(s, cursor');
    PidsOnlyTable(s, s.(cursor := cursor'));
  }

  lemma ChoosingIdles(s: System, next: nat)
    requires Choosing(s, next) && s.current != NULL
    ensures QueueWf(s)
    ensures Idling(if s.table[s.current].state == ZOMBIE then Reap(s, s.current) else s, next)
  {
    hide QueueExact, Pids, Reap;
    ExactIsWf(s);
    if s.table[s.current].state == ZOMBIE {
      ReapLaws(s, s.current);
    }
  }

  lemma SwitchSettles(s: System)
    requires Leaving(s)
    ensures Settled(Switch(s))
  {
    hide QueueExact, Pids, Settled, Idling, Choosing, Reap, NextReady;
    LeavingChooses(s);
    var (next, cursor') := NextReady(s);
    var s1 := s.(cursor := cursor');
    ChoosingIdles(s1, next);
    RunSettles(if s.table[s.current].state == ZOMBIE then Reap(s1, s.current) else s1, next);
  }

  /** The current process may be running, ready, blocked or dead; nobody else is running or dead. */
  ghost predicate Departing(s: System) {
    && Common(s) && s.current != NULL && s.table[s.current].state != FREE
    && forall i :: 0 <= i < |s.table| && s.table[i].state == ZOMBIE ==> i == s.current
  }

  lemma UpdateSimilar(s: System, p: nat, q: PCB)
    requires QueueExact(s) && Pids(s) && p < |s.table| && Similar(s.table[p], q)
    ensures QueueExact(s.(table := s.table[p := q])) && Pids(s.(table := s.table[p := q]))
  {
    hide QueueExact, Pids;
    SimilarKeepsQueue(s, s.table[p := q]);
    SimilarKeepsPids(s, s.table[p := q]);
  }

  lemma YieldSettles(s: System)
    requires Departing(s)
    ensures QueueWf(s) && Settled(Yield(s)) && Leaving(Relinquish(s))
  {
    hide QueueExact, Pids, Switch;
    ExactIsWf(s);
    UpdateSimilar(s, s.current, Relinquish(s).table[s.current]);
    assert Relinquish(s) == s.(table := s.table[s.current := Relinquish(s).table[s.current]]);
    SwitchSettles(Relinquish(s));
  }

  lemma AgeKeepsSettled(s: System)
    requires Settled(s)
    ensures Settled(Age(s))
  {
    hide QueueExact, Pids, Age;
    var a := Age(s);
    assert a == s.(table := a.table) by { AgeOnlyTable(s); }
    SimilarKeepsQueue(s, a.table);
    SimilarKeepsPids(s, a.table);
  }

  lemma AgeOnlyTable(s: System)
    ensures Age(s) == s.(table := Age(s).table)
  {
  }

  lemma TickSettles(s: System)
    requires Settled(s)
    ensures QueueWf(s) && Settled(Tick(s)) && (Charge(Age(s)).1 ==> Leaving(Charge(Age(s)).0))
  {
    hide QueueExact, Pids, Switch, Age;
    ExactIsWf(s);
    AgeKeepsSettled(s);
    var a := Age(s);
    var (r, over) := Charge(a);
    UpdateSimilar(a, a.current, r.table[a.current]);
    assert r == a.(table := a.table[a.current := r.table[a.current]]);
    if over { SwitchSettles(r); }
  }

  lemma {:induction false} FoundIsUnique(table: seq<PCB>, pid: nat, p: nat)
    requires p < |table| && table[p].state != FREE && table[p].pid == pid && pid != 0
    requires forall i, j :: 0 <= i < j < |table| && table[i].state != FREE && table[j].state != FREE ==> table[i].pid != table[j].pid
    ensures Find(table, pid) == p
  {
    var r := FindFrom(table, pid, 0);
  }

  /** Waking the parent makes one blocked process ready, and nothing else. */
  lemma WakeKeeps(s: System, c: nat, value: int)
    requires Common(s) && c < |s.table|
    ensures var r := WakeParent(s, c, value);
            && Common(r) && forall i :: 0 <= i < |s.table| ==>
                 r.table[i].state == s.table[i].state || (s.table[i].state == BLOCKED && r.table[i].state == READY)
  {
    hide QueueExact, Pids, Find;
    var p := Find(s.table, s.table[c].parent);
    var r := WakeParent(s, c, value);
    if r != s { UpdateSimilar(s, p, r.table[p]); }
  }

  lemma FindGives(table: seq<PCB>, pid: nat)
    ensures var p := Find(table, pid);
            p == NULL || (0 <= p < |table| && table[p].pid == pid && table[p].state != FREE)
  {
  }

  /** None of these waits for a child. */
  ghost predicate Wakeable(s: System, pids: seq<nat>) {
    forall x <- pids :: NotAwaiting(s, x)
  }

  predicate NotAwaiting(s: System, pid: nat) {
    Find(s.table, pid) != NULL ==> s.table[Find(s.table, pid)].waitingFor == 0
  }

  /** Unblocking keeps what holds between steps exactly if the process does not wait for a child: one that does would be
      ready and still wait. */
  lemma UnblockSettles(s: System, pid: nat)
    requires Settled(s)
    ensures Settled(Unblock(s, pid).0) <==> NotAwaiting(s, pid)
  {
    hide QueueExact, Pids, Find;
    var p := Find(s.table, pid);
    FindGives(s.table, pid);
    if p != NULL {
      UpdateSimilar(s, p, s.table[p].(state := READY, waitTicks := 0));
      assert s.table[p].waitingFor != 0 ==> s.table[p].state == BLOCKED;
      var r := Unblock(s, pid).0;
      assert r == s || (r.table[p].waitingFor == s.table[p].waitingFor && r.table[p].state != BLOCKED);
    }
  }

  /** Unblocking makes blocked processes ready, and nothing else. */
  ghost predicate Readied(t: seq<PCB>, u: seq<PCB>) {
    |u| == |t| && forall i :: 0 <= i < |t| ==>
      u[i] == t[i] || (t[i].state == BLOCKED && t[i].waitingFor == 0 && u[i] == t[i].(state := READY, waitTicks := 0))
  }

  lemma ReadiedKeeps(s: System, u: seq<PCB>)
    requires Common(s) && Readied(s.table, u)
    ensures Common(s.(table := u))
  {
    hide QueueExact, Pids;
    SimilarKeepsQueue(s, u);
    SimilarKeepsPids(s, u);
  }

  lemma UnblockReadies(s: System, pid: nat)
    requires SlotsOk(s) && NotAwaiting(s, pid)
    ensures var r := Unblock(s, pid).0; Readied(s.table, r.table) && r == s.(table := r.table)
  {
    hide Find;
    FindGives(s.table, pid);
  }

  lemma {:induction false} UnblockAllReadies(s: System, pids: seq<nat>)
    requires SlotsOk(s) && Wakeable(s, pids)
    ensures var r := UnblockAll(s, pids).0; Readied(s.table, r.table) && r == s.(table := r.table)
  {
    hide Unblock, NotAwaiting;
    if pids != [] {
      var front, last := pids[..|pids| - 1], pids[|pids| - 1];
      assert forall x <- front :: x in pids;
      UnblockAllReadies(s, front);
      var s1 := UnblockAll(s, front).0;
      StillNotAwaiting(s, s1, last);
      UnblockReadies(s1, last);
      ReadiedTwice(s.table, s1.table, UnblockAll(s, pids).0.table);
    }
  }

  lemma {:induction false} FindSame(t: seq<PCB>, u: seq<PCB>, pid: nat, i: nat)
    requires |u| == |t| && i <= |t| && forall k :: 0 <= k < |t| ==> Similar(t[k], u[k])
    ensures FindFrom(u, pid, i) == FindFrom(t, pid, i)
    decreases |t| - i
  {
    if i < |t| {
      assert Similar(t[i], u[i]);
      FindSame(t, u, pid, i + 1);
    }
  }

  lemma StillNotAwaiting(s: System, r: System, pid: nat)
    requires NotAwaiting(s, pid) && Readied(s.table, r.table)
    ensures NotAwaiting(r, pid)
  {
    FindSame(s.table, r.table, pid, 0);
  }

  lemma ReadiedTwice(t: seq<PCB>, u: seq<PCB>, v: seq<PCB>)
    requires Readied(t, u) && Readied(u, v)
    ensures Readied(t, v)
  {
    forall i | 0 <= i < |t|
      ensures v[i] == t[i] || (t[i].state == BLOCKED && t[i].waitingFor == 0 && v[i] == t[i].(state := READY, waitTicks := 0))
    {
      assert u[i] == t[i] || (t[i].state == BLOCKED && t[i].waitingFor == 0 && u[i] == t[i].(state := READY, waitTicks := 0));
    }
  }

  /** Several processes woken in one kernel entry. */
  lemma UnblockAllSettles(s: System, pids: seq<nat>)
    requires Settled(s) && Wakeable(s, pids)
    ensures Settled(UnblockAll(s, pids).0)
  {
    hide QueueExact, Pids, UnblockAll, Wakeable;
    UnblockAllReadies(s, pids);
    ReadiedKeeps(s, UnblockAll(s, pids).0.table);
  }

  lemma RecordedKeeps(s: System, c: nat, value: int, pids: seq<nat>)
    requires Wakeable(s, pids) && c < |s.table|
    ensures Wakeable(s.(table := s.table[c := s.table[c].(retval := value)]), pids)
  {
    var t := s.table[c := s.table[c].(retval := value)];
    forall x <- pids ensures NotAwaiting(s.(table := t), x) {
      assert NotAwaiting(s, x);
      FindSame(s.table, t, x, 0);
    }
  }

  /** The dying process has its value and everyone it wakes is awake, its parent included. */
  lemma BequestKeeps(s: System, c: nat, value: int, woken: seq<nat>)
    requires Settled(s) && Wakeable(s, woken) && c < |s.table| && s.table[c].state != FREE
    ensures var s1 := s.(table := s.table[c := s.table[c].(retval := value)]);
            var r := WakeParent(UnblockAll(s1, woken).0, c, value);
            && r == s.(table := r.table) && |r.table| == |s.table| && Common(r)
            && forall i :: 0 <= i < |s.table| ==>
                 r.table[i].state == s.table[i].state || (s.table[i].state == BLOCKED && r.table[i].state == READY)
  {
    hide QueueExact, Pids, WakeParent, UnblockAll, Wakeable;
    var s1 := s.(table := s.table[c := s.table[c].(retval := value)]);
    UpdateSimilar(s, c, s1.table[c]);
    RecordedKeeps(s, c, value, woken);
    UnblockAllReadies(s1, woken);
    ReadiedKeeps(s1, UnblockAll(s1, woken).0.table);
    WakeKeeps(UnblockAll(s1, woken).0, c, value);
  }

  lemma WakeOrderOne(s: System, c: nat, value: int, pid: nat)
    requires SlotsOk(s) && c < |s.table| && s.table[c].pid > 0 && NotAwaiting(s, pid)
    ensures Unblock(WakeParent(s, c, value), pid) == (WakeParent(Unblock(s, pid).0, c, value), Unblock(s, pid).1)
  {
    hide FindFrom;
    var u, v := Unblock(s, pid).0, WakeParent(s, c, value);
    FindGives(s.table, pid);
    FindGives(s.table, s.table[c].parent);
    FindSame(s.table, u.table, s.table[c].parent, 0);
    FindSame(s.table, v.table, pid, 0);
    var p, q := Find(s.table, s.table[c].parent), Find(s.table, pid);
    if p != q && p != NULL && q != NULL {
      assert Unblock(v, pid).0.table == WakeParent(u, c, value).table;
    }
  }

  /** A dying process wakes its parent and those that wait for what it held: in whichever order, with the same result. */
  lemma {:induction false} WakeOrder(s: System, c: nat, value: int, pids: seq<nat>)
    requires SlotsOk(s) && c < |s.table| && s.table[c].pid > 0 && Wakeable(s, pids)
    ensures UnblockAll(WakeParent(s, c, value), pids) == (WakeParent(UnblockAll(s, pids).0, c, value), UnblockAll(s, pids).1)
  {
    hide Unblock, NotAwaiting, WakeParent;
    if pids != [] {
      var front, last := pids[..|pids| - 1], pids[|pids| - 1];
      assert forall x <- front :: x in pids;
      WakeOrder(s, c, value, front);
      UnblockAllReadies(s, front);
      var s1 := UnblockAll(s, front).0;
      StillNotAwaiting(s, s1, last);
      WakeOrderOne(s1, c, value, last);
    }
  }

  lemma ExitDeparts(s: System, retval: int, woken: seq<nat>)
    requires Settled(s) && s.current != s.idle && Wakeable(s, woken)
    ensures Departing(Exit(s, retval, woken).0) && Exit(s, retval, woken).1
  {
    hide QueueExact, Pids, WakeParent, UnblockAll, Wakeable;
    var c := s.current;
    BequestKeeps(s, c, retval, woken);
    var s1 := s.(table := s.table[c := s.table[c].(retval := retval)]);
    var s2 := WakeParent(UnblockAll(s1, woken).0, c, retval);
    UpdateSimilar(s2, c, s2.table[c].(state := ZOMBIE));
  }

  lemma KillSettlesOrDeparts(s: System, pid: nat, woken: seq<nat>)
    requires Settled(s) && pid != s.table[s.idle].pid && Wakeable(s, woken)
    ensures QueueWf(s)
    ensures var (r, switch) := Kill(s, pid, woken); if switch then Departing(r) else Settled(r)
  {
    hide QueueExact, Pids, WakeParent, Reap, Find, UnblockAll, Wakeable;
    ExactIsWf(s);
    var p := Find(s.table, pid);
    FindGives(s.table, pid);
    if p != NULL {
      BequestKeeps(s, p, -1, woken);
      var s1 := s.(table := s.table[p := s.table[p].(retval := -1)]);
      var s2 := WakeParent(UnblockAll(s1, woken).0, p, -1);
      if p == s.current {
        UpdateSimilar(s2, p, s2.table[p].(state := ZOMBIE));
      } else {
        ReapLaws(s2, p);
      }
    }
  }

  lemma BlockSettlesOrDeparts(s: System, pid: nat)
    requires Settled(s) && pid != s.table[s.idle].pid
    ensures var (r, switch) := Block(s, pid); if switch then Departing(r) else Settled(r)
  {
    hide QueueExact, Pids, Find;
    var p := Find(s.table, pid);
    FindGives(s.table, pid);
    if p != NULL { UpdateSimilar(s, p, s.table[p].(state := BLOCKED)); }
  }

  lemma SettledDeparts(s: System)
    requires Settled(s)
    ensures Departing(s)
  {
    hide QueueExact, Pids;
  }

  lemma WaitPidSettlesOrDeparts(s: System, pid: nat)
    requires Settled(s) && s.current != s.idle
    ensures var (r, switch) := WaitPid(s, pid); if switch then Departing(r) else r == s
  {
    hide QueueExact, Pids, Find;
    FindGives(s.table, pid);
    UpdateSimilar(s, s.current, s.table[s.current].(state := BLOCKED, waitingFor := pid, saved := 0));
  }

  lemma AddOnlyQueue(s: System, p: nat)
    requires QueueWf(s) && p < |s.table|
    ensures Add(s, p) == s.(queue := Add(s, p).queue, cursor := Add(s, p).cursor)
  {
  }

  lemma SortedElsewhere(t: seq<PCB>, q: seq<nat>, p: nat, x: PCB)
    requires p < |t| && p !in q && (forall i :: 0 <= i < |q| ==> q[i] < |t|) && Sorted(t, q)
    ensures Sorted(t[p := x], q)
  {
    forall i, j | 0 <= i < j < |q| ensures t[p := x][q[i]].priority >= t[p := x][q[j]].priority {
      assert q[i] in q && q[j] in q && t[q[i]].priority >= t[q[j]].priority;
    }
  }

  /** Taking a process out and giving it any fresh priority, it can be queued again in order. */
  lemma RequeueLaws(s: System, p: nat, q: PCB)
    requires QueueExact(s) && p in s.queue && |s.table| == MAX_PROCESSES
    requires q.state != FREE
    ensures QueueWf(s.(table := s.table[p := q])) && QueueExact(Requeue(s.(table := s.table[p := q]), p))
    ensures var s1 := s.(table := s.table[p := q]); var r := Requeue(s1, p);
            r == s1.(queue := r.queue, cursor := r.cursor)
  {
    hide Distinct, Sorted, Add, Remove;
    var s1 := s.(table := s.table[p := q]);
    RemoveLaws(s, p);
    var r := Remove(s1, p);
    RemoveIgnoresTable(s, p, s1.table);
    AddOnlyQueue(r, p);
    SortedElsewhere(s.table, r.queue, p, q);
    MissingSlot(r.queue, |s.table|, p);
    AddLaws(r, p);
  }

  lemma RemoveIgnoresTable(s: System, p: nat, t: seq<PCB>)
    requires QueueWf(s) && |t| == |s.table|
    ensures QueueWf(s.(table := t)) && Remove(s.(table := t), p).queue == Remove(s, p).queue
  {
  }

  lemma NiceSettles(s: System, pid: nat, priority: nat)
    requires Settled(s)
    ensures QueueWf(s) && Settled(Nice(s, pid, priority))
  {
    hide QueueExact, Pids, Find, Requeue;
    ExactIsWf(s);
    FindGives(s.table, pid);
    var p := Find(s.table, pid);
    if p != NULL {
      var c := Clamped(priority);
      var q := s.table[p].(priority := c, waitTicks := 0, quanta := c);
      var s1 := s.(table := s.table[p := q]);
      NicePids(s, p, q);
      if p == s.idle {
        NiceIdle(s, q);
      } else {
        ExactHasAll(s, p);
        RequeueLaws(s, p, q);
        PidsOnlyTable(s1, Requeue(s1, p));
      }
    }
  }

  lemma ExactHasAll(s: System, p: nat)
    requires QueueExact(s) && p < |s.table| && s.table[p].state != FREE && p != s.idle
    ensures p in s.queue
  {
  }

  lemma NicePids(s: System, p: nat, q: PCB)
    requires Pids(s) && p < |s.table| && s.table[p].state != FREE && q.pid == s.table[p].pid && q.parent == s.table[p].parent
    ensures Pids(s.(table := s.table[p := q]))
  {
  }

  lemma NiceIdle(s: System, q: PCB)
    requires QueueExact(s) && 0 <= s.idle < |s.table| && q.state != FREE && s.table[s.idle].state != FREE
    ensures var s1 := s.(table := s.table[s.idle := q]);
            QueueWf(s1) && Requeue(s1, s.idle) == s1 && QueueExact(s1)
  {
    hide Distinct;
    var s1 := s.(table := s.table[s.idle := q]);
    assert IndexOf(s1.queue, s.idle, 0) == |s1.queue|;
    SortedElsewhere(s.table, s.queue, s.idle, q);
  }

  /** A new process goes into a free slot with a pid above all others, and is queued: never dropped. */
  lemma CreateSettles(s: System, slot: nat, fg: nat, stack: int, argv: int)
    requires Settled(s) && slot < |s.table| && s.table[slot].state == FREE
    ensures QueueWf(s) && Settled(Create(s, slot, fg, stack, argv))
    ensures slot in Create(s, slot, fg, stack, argv).queue
    ensures Create(s, slot, fg, stack, argv).table == s.table[slot := NewProcess(s, fg, stack, argv)]
  {
    hide QueueExact, Pids, Add;
    ExactIsWf(s);
    var q := NewProcess(s, fg, stack, argv);
    PidBound(s, s.current);
    CreateQueue(s, slot, q);
    CreatePids(s, slot, q);
    var r := Create(s, slot, fg, stack, argv);
    PidsOnlyTable(s.(table := s.table[slot := q], nextPid := s.nextPid + 1), r);
  }

  lemma CreateQueue(s: System, slot: nat, q: PCB)
    requires QueueExact(s) && |s.table| == MAX_PROCESSES && slot < |s.table| && s.table[slot].state == FREE
    requires slot != s.idle && q.state != FREE
    ensures var s1 := s.(table := s.table[slot := q], nextPid := s.nextPid + 1);
            && QueueWf(s1) && QueueExact(Add(s1, slot)) && slot in Add(s1, slot).queue
            && Add(s1, slot) == s1.(queue := Add(s1, slot).queue, cursor := Add(s1, slot).cursor)
  {
    hide Distinct, Sorted, Add;
    var s1 := s.(table := s.table[slot := q], nextPid := s.nextPid + 1);
    MissingSlot(s.queue, |s.table|, slot);
    SortedElsewhere(s.table, s.queue, slot, q);
    AddOnlyQueue(s1, slot);
    AddLaws(s1, slot);
    AddedExact(s1, slot);
  }

  lemma AddedExact(s: System, slot: nat)
    requires slot < |s.table| && s.table[slot].state != FREE && slot != s.idle
    requires forall i: nat :: i in s.queue <==> i < |s.table| && s.table[i].state != FREE && i != s.idle && i != slot
    requires QueueWf(s) && QueueWf(Add(s, slot)) && Sorted(s.table, Add(s, slot).queue)
    requires Add(s, slot) == s.(queue := Add(s, slot).queue, cursor := Add(s, slot).cursor)
    requires forall x :: x in Add(s, slot).queue <==> x in s.queue || x == slot
    ensures QueueExact(Add(s, slot))
  {
    hide Distinct, Sorted, Add;
  }

  lemma PidBound(s: System, p: nat)
    requires Pids(s) && p < |s.table| && s.table[p].state != FREE
    ensures s.table[p].pid <= s.nextPid
  {
  }

  lemma CreatePids(s: System, slot: nat, q: PCB)
    requires Pids(s) && slot < |s.table| && q.pid == s.nextPid + 1 && q.parent <= s.nextPid
    ensures Pids(s.(table := s.table[slot := q], nextPid := s.nextPid + 1))
  {
  }
}
