/**
 How long a runnable process can be passed over. While n processes of the queue stay runnable and the others stay
 blocked, one of the highest priority is chosen after at most (n - 1)^2 choices of others: a rival can be chosen out
 of turn only until its own waiting has been reset once, and after that only ahead of it in the round.
 */
module BoundedWaiting {
  import opened Ring
  import opened Basics
  import opened RunQueue

  datatype Event = TimerTick | YieldCall

  /** Every queued process is blocked, ready, or running as the current one. */
  ghost predicate Window(s: System) {
    && QueueWf(s) && SlotsOk(s) && s.queue != []
    && (forall p <- s.queue :: Runnable(s, p) || s.table[p].state == BLOCKED)
    && (s.current != NULL && s.current !in s.queue ==> s.table[s.current].state in {READY, RUNNING})
    && SameGround(s)
  }

  predicate Runnable(s: System, p: nat)
    requires p < |s.table|
  {
    s.table[p].state == READY || (s.table[p].state == RUNNING && s.current == p)
  }

  /** Of the processes that are not blocked, all run in the foreground or none does. */
  ghost predicate SameGround(s: System)
    requires QueueWf(s)
  {
    || (forall p <- s.queue :: s.table[p].state != BLOCKED ==> s.table[p].foreground == 0)
    || (forall p <- s.queue :: s.table[p].state != BLOCKED ==> s.table[p].foreground != 0)
  }

  /** The places in the queue of the processes that are not blocked. */
  ghost function Active(s: System): (r: set<nat>)
    requires QueueWf(s)
    ensures forall k: nat :: k in r <==> k < |s.queue| && s.table[s.queue[k]].state != BLOCKED
  {
    set k: nat | k < |s.queue| && s.table[s.queue[k]].state != BLOCKED
  }

  /** The state just before the choice the event makes, if it makes one. */
  function Ready(s: System, ev: Event): (System, bool)
    requires SlotsOk(s)
  {
    match ev
    case TimerTick => Charge(Age(s))
    case YieldCall => (Relinquish(s), true)
  }

  function After(s: System, ev: Event): System
    requires QueueWf(s) && SlotsOk(s)
  {
    match ev
    case TimerTick => Tick(s)
    case YieldCall => Yield(s)
  }

  lemma AfterIsSwitch(s: System, ev: Event)
    requires QueueWf(s) && SlotsOk(s)
    ensures After(s, ev) == if Ready(s, ev).1 then Switch(Ready(s, ev).0) else Ready(s, ev).0
  {
  }

  /** What an event leaves as it was: queue, priorities, grounds and who is blocked. */
  ghost predicate SameSetting(s: System, r: System) {
    && r.queue == s.queue && |r.table| == |s.table| && r.idle == s.idle
    && forall p :: 0 <= p < |s.table| ==>
         r.table[p].priority == s.table[p].priority && r.table[p].foreground == s.table[p].foreground
         && (r.table[p].state == BLOCKED <==> s.table[p].state == BLOCKED)
  }

  /** The waiting of a process just before the choice. */
  function NewWait(s: System, ev: Event, p: nat): nat
    requires p < |s.table|
  {
    if ev == TimerTick && p != s.current && s.table[p].state == READY
    then (s.table[p].waitTicks + 1) % TICKS_MODULUS else s.table[p].waitTicks
  }

  ghost predicate AllReady(s: System)
    requires QueueWf(s)
  {
    forall p <- s.queue :: s.table[p].state in {READY, BLOCKED}
  }

  /** Before a choice every queued process that is not blocked is ready and has waited at most one tick more. */
  lemma BeforeChoice(s: System, ev: Event)
    requires Window(s)
    ensures var (r, over) := Ready(s, ev);
            && SameSetting(s, r) && r.cursor == s.cursor && r.current == s.current
            && (over ==> AllReady(r))
            && (!over ==> Window(r))
            && forall p <- s.queue :: r.table[p].waitTicks == NewWait(s, ev, p)
  {
    hide Distinct;
    match ev
    case TimerTick => TickBeforeChoice(s);
    case YieldCall => YieldBeforeChoice(s);
  }

  lemma YieldBeforeChoice(s: System)
    requires Window(s)
    ensures var r := Relinquish(s);
            && SameSetting(s, r) && r.cursor == s.cursor && r.current == s.current && AllReady(r)
            && forall p <- s.queue :: r.table[p].waitTicks == s.table[p].waitTicks
  {
    hide Distinct;
  }

  /** Aging only counts: everyone else keeps state, priority and ground. */
  lemma AgeOnlyWaits(s: System)
    ensures var a := Age(s);
            && a == s.(table := a.table) && |a.table| == |s.table|
            && forall p :: 0 <= p < |s.table| ==> a.table[p] == s.table[p] || a.table[p] == Waited(s.table[p])
  {
  }

  lemma AgeBeforeChoice(s: System)
    requires Window(s)
    ensures var a := Age(s);
            && SameSetting(s, a) && Window(a) && a.cursor == s.cursor && a.current == s.current
            && forall p <- s.queue :: a.table[p].waitTicks == NewWait(s, TimerTick, p)
  {
    AgeWaits(s);
    hide Distinct, Age, NewWait;
    AgeOnlyWaits(s);
  }

  lemma AgeWaits(s: System)
    requires QueueWf(s)
    ensures |Age(s).table| == |s.table|
    ensures forall p <- s.queue :: Age(s).table[p].waitTicks == NewWait(s, TimerTick, p)
  {
    hide Distinct;
  }

  lemma TickBeforeChoice(s: System)
    requires Window(s)
    ensures var (r, over) := Charge(Age(s));
            && SameSetting(s, r) && r.cursor == s.cursor && r.current == s.current
            && (over ==> AllReady(r)) && (!over ==> Window(r))
            && forall p <- s.queue :: r.table[p].waitTicks == NewWait(s, TimerTick, p)
  {
    hide Distinct, Age, Charge, Runnable, SameGround, NewWait;
    AgeBeforeChoice(s);
    ChargeBeforeChoice(Age(s));
  }

  lemma ChargeBeforeChoice(s: System)
    requires Window(s)
    ensures var (r, over) := Charge(s);
            && SameSetting(s, r) && r.cursor == s.cursor && r.current == s.current
            && (over ==> AllReady(r)) && (!over ==> Window(r))
            && forall p <- s.queue :: r.table[p].waitTicks == s.table[p].waitTicks
  {
    hide Distinct;
  }

  /** With someone ready, switching runs the chosen process and changes nothing else. */
  lemma SwitchRuns(s: System, pos: nat)
    requires QueueWf(s) && SlotsOk(s) && AllReady(s) && SameGround(s) && pos in Active(s)
    requires s.current != NULL ==> s.table[s.current].state != ZOMBIE
    ensures var (c, cursor') := NextReady(s); var r := Switch(s);
            && 0 <= c < |s.table| && cursor' in Active(s) && s.queue[cursor'] == c
            && r == s.(cursor := cursor', current := c, table := s.table[c := s.table[c].(waitTicks := 0, state := RUNNING)])
            && Window(r) && SameSetting(s, r)
  {
    hide Highest, Steps, Distinct, Ahead, Effective;
    assert s.table[s.queue[pos]].state == READY;
    var e := ChoiceIsFirstBest(s);
    var r := Switch(s);
  }

  lemma AfterKeepsWindow(s: System, ev: Event, pos: nat)
    requires Window(s) && pos in Active(s)
    ensures Window(After(s, ev)) && SameSetting(s, After(s, ev)) && Active(After(s, ev)) == Active(s)
  {
    hide Ready, After, Distinct;
    AfterIsSwitch(s, ev);
    BeforeChoice(s, ev);
    if Ready(s, ev).1 { ReadyToSwitch(s, ev, pos); SwitchRuns(Ready(s, ev).0, pos); }
  }

  lemma ReadyToSwitch(s: System, ev: Event, pos: nat)
    requires Window(s) && Ready(s, ev).1 && pos in Active(s)
    ensures var r := Ready(s, ev).0;
            && QueueWf(r) && SlotsOk(r) && AllReady(r) && SameGround(r) && Active(r) == Active(s)
            && (r.current != NULL ==> r.table[r.current].state != ZOMBIE)
  {
    hide Distinct;
    BeforeChoice(s, ev);
    if s.current != NULL && s.current in s.queue {
      assert Runnable(s, s.current) || s.table[s.current].state == BLOCKED;
    }
  }

  /** The processes chosen along a sequence of events, in order. */
  ghost function Chosen(s: System, evs: seq<Event>): seq<int>
    requires Window(s) && Active(s) != {}
    decreases |evs|
  {
    if evs == [] then []
    else
      var pos :| pos in Active(s);
      AfterKeepsWindow(s, evs[0], pos);
      var (r, over) := Ready(s, evs[0]);
      BeforeChoice(s, evs[0]);
      (if over then [NextReady(r).0] else []) + Chosen(After(s, evs[0]), evs[1..])
  }

  // ---------------------------------------------------------------- the bound

  /** `done` are the places of rivals of x already chosen once; none of them has waited longer than x. */
  ghost predicate Tracked(s: System, pos: nat, done: set<nat>) {
    && Window(s) && pos in Active(s) && done <= Active(s) - {pos}
    && (forall k <- done :: s.table[s.queue[k]].waitTicks <= s.table[s.queue[pos]].waitTicks)
    && (forall k <- Active(s) :: s.table[s.queue[k]].priority <= s.table[s.queue[pos]].priority)
    && (done != {} ==> s.current != s.queue[pos])
  }

  /** The active places after the cursor, up to `pos`. */
  ghost function Between(active: set<nat>, cursor: nat, pos: nat, n: nat): set<nat>
    requires cursor < n && pos < n
  {
    set k | k in active && k < n && Distance(cursor, k, n) <= Distance(cursor, pos, n)
  }

  /** How many more choices can pass over the process at `pos`. */
  ghost function Budget(active: set<nat>, cursor: nat, pos: nat, n: nat, done: set<nat>): int
    requires cursor < n && pos < n
  {
    var m := |active|;
    (m - 1 - |done|) * (m - 1) + (if done == {} then 0 else |Between(active, cursor, pos, n)| - 1)
  }

  /** A rival already chosen once, chosen again over x, stands before x in the round. */
  lemma StaleIsAhead(r: System, pos: nat) returns (e: nat)
    requires QueueWf(r) && SlotsOk(r) && AllReady(r) && SameGround(r) && pos in Active(r)
    requires NextReady(r).1 in Active(r) && NextReady(r).1 != pos && r.queue[NextReady(r).1] == NextReady(r).0
    requires r.table[NextReady(r).0].waitTicks <= r.table[r.queue[pos]].waitTicks
    requires r.table[NextReady(r).0].priority <= r.table[r.queue[pos]].priority
    ensures 1 <= e < Distance(r.cursor, pos, |r.queue|)
    ensures NextReady(r).1 == Ahead(r.cursor, e, |r.queue|)
  {
    hide Highest, Steps;
    var n, x, high, c := |r.queue|, r.queue[pos], Highest(r.table, r.queue), NextReady(r).0;
    assert r.table[x].state == READY;
    e := ChoiceIsFirstBest(r);
    BonusMonotone(r.table[c], r.table[x]);
    assert Effective(r.table[x]) == high by {
      assert Effective(r.table[c]) == high && Effective(r.table[x]) <= high;
    }
    assert Candidate(r.table[x], high, ForegroundTies(r, high));
    DistanceReaches(r.cursor, pos, n);
  }

  lemma BonusMonotone(a: PCB, b: PCB)
    requires a.waitTicks <= b.waitTicks
    ensures Bonus(a) <= Bonus(b)
  {
  }

  /** An event before which y waited no longer than x leaves it so, if x waits and its count does not wrap. */
  lemma StillNoLonger(s: System, ev: Event, x: nat, y: nat)
    requires Window(s) && x in s.queue && y in s.queue && s.current != x && s.table[x].state != BLOCKED
    requires s.table[y].waitTicks <= s.table[x].waitTicks && s.table[x].waitTicks + 1 < TICKS_MODULUS
    ensures var r := Ready(s, ev).0;
            r.table[y].waitTicks <= r.table[x].waitTicks <= s.table[x].waitTicks + 1
  {
    hide Distinct, Ready, SameSetting, SameGround;
    BeforeChoice(s, ev);
    assert Runnable(s, x);
  }

  lemma WaitsOneMore(s: System, ev: Event, x: nat)
    requires Window(s) && x in s.queue && s.table[x].waitTicks + 1 < TICKS_MODULUS
    ensures Ready(s, ev).0.table[x].waitTicks <= s.table[x].waitTicks + 1
  {
    hide Distinct, Ready, SameSetting, SameGround;
    BeforeChoice(s, ev);
  }

  /** One event that does not choose x: x is still tracked, and if it chose a rival the budget went down. */
  lemma EventSpendsBudget(s: System, ev: Event, pos: nat, done: set<nat>) returns (done': set<nat>)
    requires Tracked(s, pos, done) && s.table[s.queue[pos]].waitTicks + 1 < TICKS_MODULUS
    requires Ready(s, ev).1 ==> QueueWf(Ready(s, ev).0) && NextReady(Ready(s, ev).0).0 != s.queue[pos]
    ensures var r, n := After(s, ev), |s.queue|;
            && Tracked(r, pos, done') && r.queue == s.queue && Active(r) == Active(s)
            && r.table[s.queue[pos]].waitTicks <= s.table[s.queue[pos]].waitTicks + 1
            && Budget(Active(s), r.cursor, pos, n, done')
               <= Budget(Active(s), s.cursor, pos, n, done) - (if Ready(s, ev).1 then 1 else 0)
  {
    hide Highest, Steps, Distinct, Age, NextReady, Ready, After, Runnable, SameGround, Switch, NewWait, Budget;
    AfterIsSwitch(s, ev);
    AfterKeepsWindow(s, ev, pos);
    BeforeChoice(s, ev);
    var (r, over) := Ready(s, ev);
    var x := s.queue[pos];
    WaitsOneMore(s, ev, x);
    forall k <- done ensures r.table[s.queue[k]].waitTicks <= r.table[x].waitTicks {
      StillNoLonger(s, ev, x, s.queue[k]);
    }
    done' := done;
    if over {
      ReadyToSwitch(s, ev, pos);
      SwitchRuns(r, pos);
      done' := done + {NextReady(r).1};
      ChoiceSpendsBudget(r, pos, done);
    }
  }

  lemma ChoiceSpendsBudget(r: System, pos: nat, done: set<nat>)
    requires QueueWf(r) && SlotsOk(r) && AllReady(r) && SameGround(r) && pos in Active(r)
    requires NextReady(r).1 in Active(r) && NextReady(r).1 != pos && r.queue[NextReady(r).1] == NextReady(r).0
    requires done <= Active(r) - {pos}
    requires forall k <- done :: r.table[r.queue[k]].waitTicks <= r.table[r.queue[pos]].waitTicks
    requires forall k <- Active(r) :: r.table[r.queue[k]].priority <= r.table[r.queue[pos]].priority
    ensures Budget(Active(r), NextReady(r).1, pos, |r.queue|, done + {NextReady(r).1})
            <= Budget(Active(r), r.cursor, pos, |r.queue|, done) - 1
  {
    hide Highest, Steps, Age, NextReady, SameGround, Budget, Ahead, AllReady, Distinct;
    var c := NextReady(r).1;
    if c in done {
      var e := StaleIsAhead(r, pos);
      StaleBudget(Active(r), r.cursor, e, pos, |r.queue|, done);
      assert done + {c} == done;
    } else {
      FreshBudget(Active(r), r.cursor, c, pos, |r.queue|, done);
    }
  }

  /** Choosing again one that was chosen before moves the cursor nearer. */
  lemma StaleBudget(active: set<nat>, cursor: nat, e: nat, pos: nat, n: nat, done: set<nat>)
    requires cursor < n && pos < n && 1 <= e < Distance(cursor, pos, n) && done != {} && Ahead(cursor, e, n) in active
    ensures Budget(active, Ahead(cursor, e, n), pos, n, done) <= Budget(active, cursor, pos, n, done) - 1
  {
    var c := Ahead(cursor, e, n);
    var before, after := Between(active, cursor, pos, n), Between(active, c, pos, n);
    WrapOnce(cursor + e, n);
    assert after <= before - {c};
    assert c in before;
    SubsetSize(after, before - {c});
  }

  /** Choosing one that was not chosen before leaves one fewer of those. */
  lemma FreshBudget(active: set<nat>, cursor: nat, c: nat, pos: nat, n: nat, done: set<nat>)
    requires cursor < n && c < n && pos < n && c != pos && c in active && pos in active && c !in done && done <= active - {pos}
    ensures Budget(active, c, pos, n, done + {c}) <= Budget(active, cursor, pos, n, done) - 1
  {
    var m, d := |active|, |done|;
    var after := Between(active, c, pos, n);
    assert after <= active - {c};
    SubsetSize(after, active - {c});
    SubsetSize(done + {c}, active - {pos});
    assert |done + {c}| == d + 1;
    assert (m - 1 - d) * (m - 1) == (m - 1 - (d + 1)) * (m - 1) + (m - 1);
    if done != {} {
      assert pos in Between(active, cursor, pos, n);
      SubsetSize({pos}, Between(active, cursor, pos, n));
    }
  }

  lemma {:induction false} PassedOverAtMost(s: System, evs: seq<Event>, pos: nat, done: set<nat>)
    requires Tracked(s, pos, done) && s.queue[pos] !in Chosen(s, evs)
    requires s.table[s.queue[pos]].waitTicks + |evs| < TICKS_MODULUS
    ensures |Chosen(s, evs)| <= Budget(Active(s), s.cursor, pos, |s.queue|, done)
    decreases |evs|
  {
    hide SameGround, Runnable, Ready, After, NextReady, Distinct, SameSetting, Budget;
    if evs == [] {
      BudgetNotNegative(Active(s), s.cursor, pos, |s.queue|, done);
    } else {
      AfterKeepsWindow(s, evs[0], pos);
      BeforeChoice(s, evs[0]);
      ChosenNext(s, evs, pos);
      var done' := EventSpendsBudget(s, evs[0], pos, done);
      PassedOverAtMost(After(s, evs[0]), evs[1..], pos, done');
    }
  }

  lemma ChosenNext(s: System, evs: seq<Event>, pos: nat)
    requires Window(s) && pos in Active(s) && evs != []
    ensures Window(After(s, evs[0])) && Active(After(s, evs[0])) == Active(s)
    ensures var (r, over) := Ready(s, evs[0]);
            && (over ==> QueueWf(r))
            && Chosen(s, evs) == (if over then [NextReady(r).0] else []) + Chosen(After(s, evs[0]), evs[1..])
  {
    hide Ready, After, NextReady, Distinct;
    AfterKeepsWindow(s, evs[0], pos);
    BeforeChoice(s, evs[0]);
  }

  lemma BudgetNotNegative(active: set<nat>, cursor: nat, pos: nat, n: nat, done: set<nat>)
    requires cursor < n && pos < n && pos in active && done <= active - {pos}
    ensures Budget(active, cursor, pos, n, done) >= 0
  {
    SubsetSize(done, active - {pos});
    assert pos in Between(active, cursor, pos, n);
    SubsetSize({pos}, Between(active, cursor, pos, n));
    Product(|active| - 1 - |done|, |active| - 1);
  }

  lemma Product(a: int, b: int)
    requires a >= 0 && b >= 0
    ensures a * b >= 0
  {
  }

  /** Bounded waiting: while n processes stay runnable, of (n - 1)^2 + 1 consecutive choices one is of any given one of
      them that has the highest priority. */
  lemma BoundedWait(s: System, evs: seq<Event>, pos: nat)
    requires Window(s) && pos in Active(s)
    requires forall k <- Active(s) :: s.table[s.queue[k]].priority <= s.table[s.queue[pos]].priority
    requires s.table[s.queue[pos]].waitTicks + |evs| < TICKS_MODULUS
    requires |Chosen(s, evs)| >= (|Active(s)| - 1) * (|Active(s)| - 1) + 1
    ensures s.queue[pos] in Chosen(s, evs)
  {
    if s.queue[pos] !in Chosen(s, evs) {
      PassedOverAtMost(s, evs, pos, {});
    }
  }
}
