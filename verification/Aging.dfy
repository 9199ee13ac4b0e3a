/** Where aging goes past its bound: a process of the lowest priority that ends up above the highest one. */
module Aging {
  import opened Basics
  import opened RunQueue
  import opened ProcessSpec
  import opened ProcessLaws
  import opened ProcessRuns
  import opened Turns
  import opened Boot

  const LIMIT := MAX_AGING_BONUS * AGING_INTERVAL

  /** The shell, in slot 1, runs with the highest priority and q ticks left; the process in slot 2, of the lowest priority
      and in the foreground too, has waited w ticks. */
  ghost predicate Duel(s: System, w: nat, q: nat) {
    && Settled(s) && s.queue == [1, 2] && s.current == 1 && 1 <= q <= MAX_PRIORITY
    && s.table[1].priority == MAX_PRIORITY && s.table[1].foreground != 0 && s.table[1].quanta == q
    && s.table[2].priority == MIN_PRIORITY && s.table[2].foreground != 0 && s.table[2].state == READY
    && s.table[2].waitTicks == w
  }

  function QuantaAt(w: nat): nat {
    MAX_PRIORITY - (w + MAX_PRIORITY - 1) % MAX_PRIORITY
  }

  lemma SettledShape(s: System)
    requires Settled(s)
    ensures SlotsOk(s) && |s.table| == MAX_PROCESSES && s.current != NULL && s.table[s.current].state == RUNNING && QueueWf(s)
  {
  }

  /** What a tick does to the two before the turn is looked at. */
  lemma AgedDuel(s: System, w: nat, q: nat)
    requires Duel(s, w, q) && w < LIMIT
    ensures var a := Age(s);
            && a == s.(table := a.table) && |a.table| == |s.table| == MAX_PROCESSES
            && a.table[1] == s.table[1] && a.table[1].state == RUNNING && a.table[2] == s.table[2].(waitTicks := w + 1)
  {
    hide Settled;
    SettledShape(s);
    assert 2 in s.queue by { assert s.queue[1] == 2; }
    assert Waited(s.table[2]).waitTicks == w + 1;
  }

  /** A tick in the middle of the turn. */
  lemma TickMidway(s: System, w: nat, q: nat)
    requires Duel(s, w, q) && q > 1 && w < LIMIT
    ensures Duel(Step(s, TimerTick), w + 1, q - 1)
  {
    hide Settled, Switch, Age, Step, QueueWf;
    SettledShape(s);
    AgedDuel(s, w, q);
    StepParts(s, TimerTick);
  }

  /** The turn ends before the limit: the shell is chosen again. */
  lemma TickTurn(s: System, w: nat)
    requires Duel(s, w, 1) && w + 1 < LIMIT
    ensures Duel(Step(s, TimerTick), w + 1, MAX_PRIORITY)
  {
    hide Settled, NextReady, Age, Step, QueueWf;
    SettledShape(s);
    AgedDuel(s, w, 1);
    StepParts(s, TimerTick);
    var r := Charge(Age(s)).0;
    SameQueue(s, r);
    ShellWins(r);
  }

  lemma SameQueue(s: System, r: System)
    requires QueueWf(s) && r.queue == s.queue && r.cursor == s.cursor && |r.table| == |s.table|
    ensures QueueWf(r)
  {
  }

  /** Both ready, the shell has the higher effective priority. */
  lemma ShellWins(r: System)
    requires QueueWf(r) && r.queue == [1, 2] && |r.table| == MAX_PROCESSES
    requires r.table[1].state == READY && r.table[1].priority == MAX_PRIORITY && r.table[1].foreground != 0
    requires r.table[2].priority == MIN_PRIORITY && r.table[2].foreground != 0 && r.table[2].waitTicks < LIMIT
    ensures NextReady(r) == (1, 0)
  {
    hide Highest, Steps, NextReady;
    var e := ChoiceIsFirstBest(r);
    assert r.table[r.queue[0]].state == READY;
    assert Effective(r.table[r.queue[0]]) > MAX_PRIORITY >= Effective(r.table[r.queue[1]]);
    var c := NextReady(r).1;
    assert c == 0 || c == 1;
  }

  lemma QuantaNext(w: nat)
    ensures 1 <= QuantaAt(w) <= MAX_PRIORITY
    ensures QuantaAt(w + 1) == if QuantaAt(w) > 1 then QuantaAt(w) - 1 else MAX_PRIORITY
    ensures QuantaAt(w) == 1 ==> w % MAX_PRIORITY == 0
  {
  }

  lemma TicksFirst(s: System, n: nat)
    requires Settled(s) && n > 0
    ensures Legal(Step(s, TimerTick), Ticks(n - 1)) ==>
              Legal(s, Ticks(n)) && Run(s, Ticks(n)) == Run(Step(s, TimerTick), Ticks(n - 1))
  {
    hide Settled, Step;
    assert Ticks(n)[0] == TimerTick && Ticks(n)[1..] == Ticks(n - 1);
  }

  lemma DuelTick(s: System, w: nat)
    requires Duel(s, w, QuantaAt(w)) && w < LIMIT
    ensures Settled(s) && Duel(Step(s, TimerTick), w + 1, QuantaAt(w + 1))
  {
    hide Duel, Step, QuantaAt, Settled;
    DuelSettled(s, w);
    QuantaNext(w);
    if QuantaAt(w) > 1 { TickMidway(s, w, QuantaAt(w)); } else { TickTurn(s, w); }
  }

  lemma DuelSettled(s: System, w: nat)
    requires Duel(s, w, QuantaAt(w))
    ensures Settled(s)
  {
  }

  lemma {:induction false} TicksKeepDuel(s: System, w: nat, n: nat)
    requires Duel(s, w, QuantaAt(w)) && w + n <= LIMIT
    ensures Settled(s) && Legal(s, Ticks(n)) && Duel(Run(s, Ticks(n)), w + n, QuantaAt(w + n))
    decreases n
  {
    hide Duel, Step, QuantaAt, Settled;
    DuelSettled(s, w);
    if n == 0 {
      assert Ticks(n) == [];
    } else {
      DuelTick(s, w);
      TicksFirst(s, n);
      TicksKeepDuel(Step(s, TimerTick), w + 1, n - 1);
    }
  }

  // ---------------------------------------------------------------- from start-up to the duel

  /** The shell creates a foreground process, makes it the lowest and, a tick later, itself the highest. */
  function Prelude(stack: int, argv: int): seq<Event> {
    [SysCreate(1, stack, argv), SysNice(3, MIN_PRIORITY), TimerTick, SysNice(2, MAX_PRIORITY)]
  }

  /** The two processes after each of these calls. */
  ghost predicate Pair(s: System, shell: nat, quanta: nat, other: nat, waited: nat) {
    && Settled(s) && s.queue == [1, 2] && s.cursor == 0 && s.current == 1 && s.idle == 0
    && s.table[0].pid == 1 && s.table[1].pid == 2 && s.table[2].pid == 3
    && s.table[1].priority == shell && s.table[1].quanta == quanta && s.table[1].foreground != 0
    && s.table[2].priority == other && s.table[2].foreground != 0 && s.table[2].state == READY
    && s.table[2].waitTicks == waited
  }

  lemma AfterCreate(s: System, stack: int, argv: int)
    requires Booted(s)
    ensures Settled(s) && Enabled(s, SysCreate(1, stack, argv))
    ensures Pair(Step(s, SysCreate(1, stack, argv)), DEFAULT_PRIORITY, DEFAULT_PRIORITY, DEFAULT_PRIORITY, 0)
  {
    hide Settled, Step;
    SettledShape(s);
    assert FreeSlot(s.table, 2) == 2;
    assert FreeSlot(s.table, 0) == 2;
    StepParts(s, SysCreate(1, stack, argv));
    assert InsertAt(s.table, s.queue, DEFAULT_PRIORITY, 0) == 1;
  }

  /** Either of the two gets another priority and keeps its place. */
  lemma NiceFinds(s: System, shell: nat, quanta: nat, other: nat, waited: nat)
    requires Pair(s, shell, quanta, other, waited)
    ensures QueueWf(s) && |s.table| == MAX_PROCESSES && s.table[1].state == RUNNING && Find(s.table, 2) == 1 && Find(s.table, 3) == 2
  {
    FoundIsUnique(s.table, 2, 1);
    FoundIsUnique(s.table, 3, 2);
  }

  lemma RequeuedLast(s: System)
    requires QueueWf(s) && s.queue == [1, 2] && s.cursor == 0 && s.idle == 0 && 2 < |s.table|
    requires s.table[1].priority >= s.table[2].priority
    ensures Requeue(s, 2) == s
  {
    assert IndexOf(s.queue, 2, 0) == 1;
    var r := Remove(s, 2);
    assert r.queue == [1];
    assert InsertAt(r.table, r.queue, r.table[2].priority, 0) == 1;
    assert Inserted(r.queue, 1, 2) == [1, 2];
  }

  lemma RequeuedFirst(s: System)
    requires QueueWf(s) && s.queue == [1, 2] && s.cursor == 0 && s.idle == 0 && 2 < |s.table|
    requires s.table[1].priority > s.table[2].priority
    ensures Requeue(s, 1) == s.(cursor := 1)
  {
    assert IndexOf(s.queue, 1, 0) == 0;
    var r := Remove(s, 1);
    assert r.queue == [2];
    assert InsertAt(r.table, r.queue, r.table[1].priority, 0) == 0;
    assert Inserted(r.queue, 0, 1) == [1, 2];
  }

  lemma AfterNice(s: System)
    requires Pair(s, DEFAULT_PRIORITY, DEFAULT_PRIORITY, DEFAULT_PRIORITY, 0)
    ensures Enabled(s, SysNice(3, MIN_PRIORITY))
    ensures Pair(Step(s, SysNice(3, MIN_PRIORITY)), DEFAULT_PRIORITY, DEFAULT_PRIORITY, MIN_PRIORITY, 0)
  {
    hide Settled, Step, QueueWf, Find, Requeue;
    NiceFinds(s, DEFAULT_PRIORITY, DEFAULT_PRIORITY, DEFAULT_PRIORITY, 0);
    StepParts(s, SysNice(3, MIN_PRIORITY));
    var s1 := s.(table := s.table[2 := s.table[2].(priority := MIN_PRIORITY, waitTicks := 0, quanta := MIN_PRIORITY)]);
    SameQueue(s, s1);
    RequeuedLast(s1);
  }

  lemma AfterTick(s: System)
    requires Pair(s, DEFAULT_PRIORITY, DEFAULT_PRIORITY, MIN_PRIORITY, 0)
    ensures Enabled(s, TimerTick)
    ensures Pair(Step(s, TimerTick), DEFAULT_PRIORITY, DEFAULT_PRIORITY - 1, MIN_PRIORITY, 1)
  {
    hide Settled, Step, QueueWf, Switch, Age;
    SettledShape(s);
    AgedPair(s);
    StepParts(s, TimerTick);
  }

  lemma AgedPair(s: System)
    requires Pair(s, DEFAULT_PRIORITY, DEFAULT_PRIORITY, MIN_PRIORITY, 0)
    ensures |s.table| == MAX_PROCESSES && s.table[1].state == RUNNING
    ensures var a := Age(s);
            && a == s.(table := a.table) && |a.table| == |s.table| && a.table[2] == s.table[2].(waitTicks := 1)
            && a.table[1] == s.table[1] && a.table[0].pid == s.table[0].pid
  {
    hide Settled;
    SettledShape(s);
    assert 2 in s.queue by { assert s.queue[1] == 2; }
  }

  lemma AfterRaise(s: System)
    requires Pair(s, DEFAULT_PRIORITY, DEFAULT_PRIORITY - 1, MIN_PRIORITY, 1)
    ensures Enabled(s, SysNice(2, MAX_PRIORITY)) && Duel(Step(s, SysNice(2, MAX_PRIORITY)), 1, MAX_PRIORITY)
  {
    hide Settled, Step, QueueWf, Find, Requeue;
    NiceFinds(s, DEFAULT_PRIORITY, DEFAULT_PRIORITY - 1, MIN_PRIORITY, 1);
    StepParts(s, SysNice(2, MAX_PRIORITY));
    var s1 := s.(table := s.table[1 := s.table[1].(priority := MAX_PRIORITY, waitTicks := 0, quanta := MAX_PRIORITY)]);
    SameQueue(s, s1);
    RequeuedFirst(s1);
  }

  lemma PreludeRuns(s: System, stack: int, argv: int, rest: seq<Event>) returns (r: System)
    requires Booted(s)
    ensures Settled(s) && Duel(r, 1, MAX_PRIORITY)
    ensures Legal(r, rest) ==> Legal(s, Prelude(stack, argv) + rest) && Run(s, Prelude(stack, argv) + rest) == Run(r, rest)
  {
    hide Step, Settled, Pair, Duel, Booted;
    var evs := Prelude(stack, argv);
    AfterCreate(s, stack, argv);
    var s1 := Step(s, evs[0]);
    AfterNice(s1);
    var s2 := Step(s1, evs[1]);
    AfterTick(s2);
    var s3 := Step(s2, evs[2]);
    AfterRaise(s3);
    r := Step(s3, evs[3]);
    FourEvents(s, evs, rest);
  }

  lemma FourEvents(s: System, evs: seq<Event>, rest: seq<Event>)
    requires |evs| == 4 && Settled(s) && Enabled(s, evs[0]) && Enabled(Step(s, evs[0]), evs[1])
    requires Enabled(Step(Step(s, evs[0]), evs[1]), evs[2])
    requires Enabled(Step(Step(Step(s, evs[0]), evs[1]), evs[2]), evs[3])
    ensures var r := Step(Step(Step(Step(s, evs[0]), evs[1]), evs[2]), evs[3]);
            Legal(r, rest) ==> Legal(s, evs + rest) && Run(s, evs + rest) == Run(r, rest)
  {
    hide Step, Settled, Enabled;
    var all := evs + rest;
    assert all[1..][1..] == all[2..] && all[2..][1..] == all[3..] && all[3..][1..] == rest;
    var s1 := Step(s, all[0]);
    var s2 := Step(s1, all[1]);
    var s3 := Step(s2, all[2]);
    var s4 := Step(s3, all[3]);
    assert Legal(s4, rest) ==> Legal(s3, all[3..]) && Run(s3, all[3..]) == Run(s4, rest);
    assert Legal(s4, rest) ==> Legal(s2, all[2..]) && Run(s2, all[2..]) == Run(s4, rest);
    assert Legal(s4, rest) ==> Legal(s1, all[1..]) && Run(s1, all[1..]) == Run(s4, rest);
  }

  /** From start-up, these calls and 199 ticks later: the process of the lowest priority waits, ready, with a higher
      effective priority than any process is meant to have. */
  lemma AgingPassesTheMaximum(s: System, stack: int, argv: int)
    requires Booted(s)
    ensures Settled(s)
    ensures var evs := Prelude(stack, argv) + Ticks(LIMIT - 1);
            && Legal(s, evs)
            && var p := Run(s, evs).table[2];
               p.state == READY && p.priority == MIN_PRIORITY && Effective(p) == MAX_PRIORITY + 1
  {
    hide Legal, Run, Settled, Booted;
    var r := PreludeRuns(s, stack, argv, Ticks(LIMIT - 1));
    TicksKeepDuel(r, 1, LIMIT - 1);
  }
}
