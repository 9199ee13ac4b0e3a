/** The scheduler's choice in plain numbers, and the places of the queue. */
module Choice {
  import opened Basics
  import opened RunQueue

  function AtMost(x: nat, limit: nat): nat {
    if x < limit then x else limit
  }

  /** Whoever is chosen has at least the sum of every other ready process: priority, one for the foreground, and one for
      each 50 ticks of waiting, up to four. Of equal sums one in the foreground wins over one in the background. */
  lemma ChosenHasMost(s: System, i: nat)
    requires QueueWf(s) && i < |s.queue| && s.table[s.queue[i]].state == READY
    ensures var c := NextReady(s).0;
            && c in s.queue && s.table[c].state == READY
            && var x, y := s.table[s.queue[i]], s.table[c];
               var mine := x.priority + (if x.foreground != 0 then 1 else 0) + AtMost(x.waitTicks / 50, 4);
               var best := y.priority + (if y.foreground != 0 then 1 else 0) + AtMost(y.waitTicks / 50, 4);
               mine <= best && (mine == best && x.foreground != 0 ==> y.foreground != 0)
  {
    hide Highest, Steps, Distinct, ForegroundTies;
    var e := ChoiceIsFirstBest(s);
    HighestIsMaximum(s.table, s.queue);
    var high := Highest(s.table, s.queue);
    if Effective(s.table[s.queue[i]]) == high && s.table[s.queue[i]].foreground != 0 { TiesHere(s, high, i); }
  }

  lemma TiesHere(s: System, high: int, i: nat)
    requires QueueWf(s) && i < |s.queue| && Candidate(s.table[s.queue[i]], high, true)
    ensures ForegroundTies(s, high)
  {
  }

  /** Aging overcomes d levels of priority: after 50 (d + 1) ticks of waiting a process goes before any on its own ground
      that is d levels higher and has not aged. */
  lemma AgedGoesFirst(s: System, i: nat, j: nat, d: nat)
    requires QueueWf(s) && i < |s.queue| && j < |s.queue| && d < 4
    requires s.table[s.queue[i]].state == READY && s.table[s.queue[i]].waitTicks >= 50 * (d + 1)
    requires s.table[s.queue[j]].priority <= s.table[s.queue[i]].priority + d && s.table[s.queue[j]].waitTicks < 50
    requires (s.table[s.queue[j]].foreground != 0) == (s.table[s.queue[i]].foreground != 0)
    ensures NextReady(s).0 != s.queue[j]
  {
    hide NextReady, Distinct;
    ChosenHasMost(s, i);
    assert s.table[s.queue[i]].waitTicks / 50 >= d + 1;
    assert s.table[s.queue[j]].waitTicks / 50 == 0;
  }

  /** Queueing puts a process behind all of its priority or higher and before all of lower priority, and moves no other
      against another; taking it out again restores queue and cursor. */
  lemma AddPlaces(s: System, p: nat)
    requires QueueWf(s) && Sorted(s.table, s.queue)
    requires p < |s.table| && p !in s.queue && p != s.idle && |s.queue| < MAX_PROCESSES && |s.queue| < |s.table|
    ensures var r := Add(s, p);
            && QueueWf(r) && p in r.queue && Remove(r, p) == s
            && forall i, j :: 0 <= i < |r.queue| && 0 <= j < |r.queue| && r.queue[i] == p && j != i ==>
                 (j < i <==> s.table[r.queue[j]].priority >= s.table[p].priority)
  {
    hide Sorted, Distinct, Inserted, Deleted, IndexOf, InsertAt, Add;
    AddLaws(s, p);
    AddOnlyQueue(s, p);
    AddTakenBack(s, p);
    forall i, j | 0 <= i < |Add(s, p).queue| && 0 <= j < |Add(s, p).queue| && Add(s, p).queue[i] == p && j != i
      ensures j < i <==> s.table[Add(s, p).queue[j]].priority >= s.table[p].priority
    {
      PlaceOf(s, p, i, j);
    }
  }

  lemma AddOnlyQueue(s: System, p: nat)
    requires QueueWf(s) && p < |s.table|
    ensures Add(s, p).table == s.table
  {
  }

  lemma AddTakenBack(s: System, p: nat)
    requires QueueWf(s) && p < |s.table| && p !in s.queue && p != s.idle && |s.queue| < MAX_PROCESSES && QueueWf(Add(s, p))
    ensures Remove(Add(s, p), p) == s
  {
    hide Distinct, InsertAt, IndexOf;
    var at := InsertAt(s.table, s.queue, s.table[p].priority, 0);
    var r := Add(s, p);
    assert r.queue[at] == p;
    IndexUnique(r.queue, p, at);
    PutAndTaken(s.queue, at, p);
  }

  lemma PutAndTaken(q: seq<nat>, at: nat, p: nat)
    requires at <= |q|
    ensures Deleted(Inserted(q, at, p), at) == q
  {
  }

  lemma PlaceOf(s: System, p: nat, i: nat, j: nat)
    requires QueueWf(s) && Sorted(s.table, s.queue) && p < |s.table| && p !in s.queue && p != s.idle && |s.queue| < MAX_PROCESSES
    requires QueueWf(Add(s, p)) && i < |Add(s, p).queue| && j < |Add(s, p).queue| && Add(s, p).queue[i] == p && j != i
    ensures j < i <==> s.table[Add(s, p).queue[j]].priority >= s.table[p].priority
  {
    hide Sorted, Distinct;
    var at := InsertAt(s.table, s.queue, s.table[p].priority, 0);
    BelowBehind(s.table, s.queue, s.table[p].priority);
    PlaceUnique(Add(s, p).queue, i, at);
  }

  lemma BelowBehind(table: seq<PCB>, q: seq<nat>, priority: nat)
    requires (forall k :: 0 <= k < |q| ==> q[k] < |table|) && Sorted(table, q)
    ensures forall k :: InsertAt(table, q, priority, 0) <= k < |q| ==> table[q[k]].priority < priority
  {
  }

  lemma IndexUnique(q: seq<nat>, p: nat, at: nat)
    requires Distinct(q) && at < |q| && q[at] == p
    ensures IndexOf(q, p, 0) == at
  {
    PlaceUnique(q, IndexOf(q, p, 0), at);
  }

  lemma PlaceUnique(q: seq<nat>, i: nat, j: nat)
    requires Distinct(q) && i < |q| && j < |q| && q[i] == q[j]
    ensures i == j
  {
  }

  /** Taking a process out leaves the rest in order: the queue before is the one after with the process put back. */
  lemma RemoveKeepsOrder(s: System, p: nat)
    requires QueueWf(s) && p in s.queue
    ensures var r := Remove(s, p); var at := IndexOf(s.queue, p, 0);
            at <= |r.queue| && s.queue == Inserted(r.queue, at, p) && |r.queue| == |s.queue| - 1
  {
    hide Distinct, Inserted, Deleted, IndexOf;
    var at := IndexOf(s.queue, p, 0);
    assert at < |s.queue|;
    TakenAndPut(s.queue, at);
  }

  lemma TakenAndPut(q: seq<nat>, at: nat)
    requires at < |q|
    ensures Inserted(Deleted(q, at), at, q[at]) == q
  {
  }
}
