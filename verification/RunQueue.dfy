/** Process control blocks and the run queue, as values. A process is named by its slot in the process table. */
module RunQueue {
  import opened Basics
  import opened Ring

  const MIN_PRIORITY := 1
  const MAX_PRIORITY := 5
  const DEFAULT_PRIORITY := 3
  const AGING_INTERVAL := 50
  const MAX_AGING_BONUS := 4
  const TICKS_MODULUS := 0x1_0000_0000
  const NULL := -1

  datatype ProcState = FREE | READY | RUNNING | BLOCKED | ZOMBIE

  /** `saved` is the slot of the saved frame that holds RAX; stack and argv are heap addresses. */
  datatype PCB = PCB(pid: nat, priority: nat, quanta: nat, waitTicks: nat, state: ProcState, foreground: nat,
                     parent: nat, waitingFor: nat, stack: int, argv: int, retval: int, saved: int)

  function NoProcess(): PCB {
    PCB(0, 0, 0, 0, FREE, 0, 0, 0, NULL, NULL, 0, 0)
  }

  datatype System = System(table: seq<PCB>, queue: seq<nat>, cursor: nat, idle: int, current: int, nextPid: nat)

  /** The queue holds slots of the table, each once, and the cursor is one of its positions. */
  ghost predicate QueueWf(s: System) {
    && |s.queue| <= |s.table| && Distinct(s.queue)
    && (forall i :: 0 <= i < |s.queue| ==> s.queue[i] < |s.table|)
    && (s.cursor < |s.queue| || (s.queue == [] && s.cursor == 0))
  }

  // ---------------------------------------------------------------- aging and choice

  function Bonus(p: PCB): nat {
    if p.waitTicks / AGING_INTERVAL > MAX_AGING_BONUS then MAX_AGING_BONUS else p.waitTicks / AGING_INTERVAL
  }

  function Effective(p: PCB): nat {
    p.priority + (if p.foreground != 0 then 1 else 0) + Bonus(p)
  }

  /** Aging keeps a process of the lowest priority within the range of priorities exactly while it runs in the background
      or has waited less than it takes to earn the whole bonus. */
  lemma AgingWithinRange(p: PCB)
    requires p.priority == MIN_PRIORITY
    ensures Effective(p) <= MAX_PRIORITY <==> p.foreground == 0 || p.waitTicks < MAX_AGING_BONUS * AGING_INTERVAL
    ensures Effective(p) <= MAX_PRIORITY + 1
  {
    assert p.waitTicks / AGING_INTERVAL >= MAX_AGING_BONUS <==> p.waitTicks >= MAX_AGING_BONUS * AGING_INTERVAL;
  }

  /** The highest effective priority among the ready processes of `q`; -1 if none is ready. */
  function Highest(table: seq<PCB>, q: seq<nat>): int
    requires forall i :: 0 <= i < |q| ==> q[i] < |table|
  {
    if q == [] then -1
    else
      var h := Highest(table, q[..|q| - 1]);
      var p := table[q[|q| - 1]];
      if p.state == READY && Effective(p) > h then Effective(p) else h
  }

  predicate Candidate(p: PCB, high: int, onlyForeground: bool) {
    p.state == READY && Effective(p) == high && (onlyForeground ==> p.foreground != 0)
  }

  /** Steps, from `e` on, to the first candidate after the cursor; more than n if there is none. */
  function Steps(s: System, high: int, onlyForeground: bool, e: nat): (r: nat)
    requires QueueWf(s) && s.queue != [] && 1 <= e <= |s.queue| + 1
    ensures e <= r <= |s.queue| + 1
    decreases |s.queue| + 1 - e
  {
    if e > |s.queue| then e
    else if Candidate(s.table[s.queue[Ahead(s.cursor, e, |s.queue|)]], high, onlyForeground) then e
    else Steps(s, high, onlyForeground, e + 1)
  }

  /** The process to run next and the new cursor. */
  function NextReady(s: System): (r: (int, nat))
    requires QueueWf(s)
    ensures r.0 == s.idle || r.0 in s.queue
    ensures r.1 < |s.queue| || (s.queue == [] && r.1 == 0)
  {
    var n := |s.queue|;
    if n == 0 then (s.idle, s.cursor)
    else
      var high := Highest(s.table, s.queue);
      if high < 0 then (s.idle, s.cursor)
      else
        var e := Steps(s, high, true, 1);
        if e <= n then (s.queue[Ahead(s.cursor, e, n)], Ahead(s.cursor, e, n))
        else
          var f := Steps(s, high, false, 1);
          if f <= n then (s.queue[Ahead(s.cursor, f, n)], Ahead(s.cursor, f, n))
          else (s.idle, s.cursor)
  }

  lemma {:induction false} HighestIsMaximum(table: seq<PCB>, q: seq<nat>)
    requires forall i :: 0 <= i < |q| ==> q[i] < |table|
    ensures forall i :: 0 <= i < |q| && table[q[i]].state == READY ==> Effective(table[q[i]]) <= Highest(table, q)
    ensures Highest(table, q) == -1
         || exists i :: 0 <= i < |q| && table[q[i]].state == READY && Effective(table[q[i]]) == Highest(table, q)
  {
    if q != [] {
      var r := q[..|q| - 1];
      HighestIsMaximum(table, r);
      var h := Highest(table, r);
      if h != -1 {
        var i :| 0 <= i < |r| && table[r[i]].state == READY && Effective(table[r[i]]) == h;
        assert q[i] == r[i];
      }
      forall i | 0 <= i < |q| && table[q[i]].state == READY
        ensures Effective(table[q[i]]) <= Highest(table, q)
      {
        if i < |r| { assert r[i] == q[i]; }
      }
    }
  }

  lemma {:induction false} StepsIsFirst(s: System, high: int, onlyForeground: bool, e: nat)
    requires QueueWf(s) && s.queue != [] && 1 <= e <= |s.queue| + 1
    ensures var r := Steps(s, high, onlyForeground, e); var n := |s.queue|;
            && (forall d :: e <= d < r && d <= n ==>
                  !Candidate(s.table[s.queue[Ahead(s.cursor, d, n)]], high, onlyForeground))
            && (r <= n ==> Candidate(s.table[s.queue[Ahead(s.cursor, r, n)]], high, onlyForeground))
    decreases |s.queue| + 1 - e
  {
    var n := |s.queue|;
    if e <= n && !Candidate(s.table[s.queue[Ahead(s.cursor, e, n)]], high, onlyForeground) {
      StepsIsFirst(s, high, onlyForeground, e + 1);
    }
  }

  /** Steps forward from the cursor to position `pos`: 1 to n. */
  function Distance(cursor: nat, pos: nat, n: nat): (d: nat)
    requires cursor < n && pos < n
    ensures 1 <= d <= n
  {
    if pos > cursor then pos - cursor else pos + n - cursor
  }

  lemma DistanceReaches(cursor: nat, pos: nat, n: nat)
    requires cursor < n && pos < n
    ensures Ahead(cursor, Distance(cursor, pos, n), n) == pos
  {
    WrapOnce(cursor + Distance(cursor, pos, n), n);
  }

  /** A ready process of highest effective priority exists at some step when any is ready. */
  lemma SomeoneReady(s: System, i: nat) returns (high: nat, k: nat)
    requires QueueWf(s) && i < |s.queue| && s.table[s.queue[i]].state == READY
    ensures high == Highest(s.table, s.queue) && k < |s.queue| && Candidate(s.table[s.queue[k]], high, false)
  {
    HighestIsMaximum(s.table, s.queue);
    high := Highest(s.table, s.queue);
    k :| k < |s.queue| && s.table[s.queue[k]].state == READY && Effective(s.table[s.queue[k]]) == high;
  }

  /** A candidate at position `pos` bounds the search. */
  lemma CandidateBounds(s: System, high: int, onlyForeground: bool, pos: nat)
    requires QueueWf(s) && pos < |s.queue| && Candidate(s.table[s.queue[pos]], high, onlyForeground)
    ensures Steps(s, high, onlyForeground, 1) <= Distance(s.cursor, pos, |s.queue|)
  {
    StepsIsFirst(s, high, onlyForeground, 1);
    DistanceReaches(s.cursor, pos, |s.queue|);
  }

  /** Some candidate runs in the foreground. */
  ghost predicate ForegroundTies(s: System, high: int)
    requires QueueWf(s)
  {
    exists i :: 0 <= i < |s.queue| && Candidate(s.table[s.queue[i]], high, true)
  }

  ghost predicate AnyReady(s: System)
    requires QueueWf(s)
  {
    exists i :: 0 <= i < |s.queue| && s.table[s.queue[i]].state == READY
  }

  /** The choice: of the ready processes of highest effective priority, only those in the foreground if any is,
      the first one after the cursor, e steps ahead; the cursor moves onto it. Idle is chosen only when none is ready. */
  lemma ChoiceIsFirstBest(s: System) returns (e: nat)
    requires QueueWf(s)
    ensures var (c, cursor') := NextReady(s); var n := |s.queue|; var high := Highest(s.table, s.queue);
            if AnyReady(s) then
              && 1 <= e <= n && cursor' == Ahead(s.cursor, e, n) && c == s.queue[cursor']
              && Candidate(s.table[c], high, ForegroundTies(s, high))
              && (forall i :: 0 <= i < n && s.table[s.queue[i]].state == READY ==> Effective(s.table[s.queue[i]]) <= high)
              && forall d :: 1 <= d < e ==> !Candidate(s.table[s.queue[Ahead(s.cursor, d, n)]], high, ForegroundTies(s, high))
            else c == s.idle && cursor' == s.cursor
  {
    hide Effective, Ahead;
    e := 0;
    var n := |s.queue|;
    HighestIsMaximum(s.table, s.queue);
    var high := Highest(s.table, s.queue);
    if i :| 0 <= i < n && s.table[s.queue[i]].state == READY {
      var h, k := SomeoneReady(s, i);
      StepsIsFirst(s, high, true, 1);
      StepsIsFirst(s, high, false, 1);
      CandidateBounds(s, high, false, k);
      if ForegroundTies(s, high) {
        var j :| 0 <= j < n && Candidate(s.table[s.queue[j]], high, true);
        CandidateBounds(s, high, true, j);
        e := Steps(s, high, true, 1);
      } else {
        assert Steps(s, high, true, 1) > n;
        e := Steps(s, high, false, 1);
      }
    }
  }

  // ---------------------------------------------------------------- adding and removing

  predicate Sorted(table: seq<PCB>, q: seq<nat>)
    requires forall i :: 0 <= i < |q| ==> q[i] < |table|
  {
    forall i, j :: 0 <= i < j < |q| ==> table[q[i]].priority >= table[q[j]].priority
  }

  /** The first position, from `i` on, of a process of lower priority; the end if there is none. */
  function InsertAt(table: seq<PCB>, q: seq<nat>, priority: nat, i: nat): (r: nat)
    requires i <= |q| && forall k :: 0 <= k < |q| ==> q[k] < |table|
    ensures i <= r <= |q|
    ensures forall k :: i <= k < r ==> table[q[k]].priority >= priority
    ensures r < |q| ==> table[q[r]].priority < priority
    decreases |q| - i
  {
    if i == |q| || table[q[i]].priority < priority then i
    else InsertAt(table, q, priority, i + 1)
  }

  /** The position of `p`, from `i` on; the length if it is absent. */
  function IndexOf(q: seq<nat>, p: int, i: nat): (r: nat)
    requires i <= |q|
    ensures i <= r <= |q|
    ensures forall k :: i <= k < r ==> q[k] != p
    ensures r < |q| ==> q[r] == p
    decreases |q| - i
  {
    if i == |q| || q[i] == p then i else IndexOf(q, p, i + 1)
  }

  function Inserted(q: seq<nat>, at: nat, p: nat): (r: seq<nat>)
    requires at <= |q|
    ensures |r| == |q| + 1
    ensures forall i :: 0 <= i < |r| ==> r[i] == if i < at then q[i] else if i == at then p else q[i - 1]
  {
    q[..at] + [p] + q[at..]
  }

  function Deleted(q: seq<nat>, at: nat): (r: seq<nat>)
    requires at < |q|
    ensures |r| == |q| - 1
    ensures forall i :: 0 <= i < |r| ==> r[i] == if i < at then q[i] else q[i + 1]
  {
    q[..at] + q[at + 1..]
  }

  /** Queue `p` behind every process of its priority or higher. */
  function Add(s: System, p: nat): System
    requires QueueWf(s) && p < |s.table|
  {
    if |s.queue| >= MAX_PROCESSES || p == s.idle then s
    else
      var at := InsertAt(s.table, s.queue, s.table[p].priority, 0);
      s.(queue := Inserted(s.queue, at, p),
         cursor := if at <= s.cursor && |s.queue| + 1 > 1 then s.cursor + 1 else s.cursor)
  }

  function Remove(s: System, p: nat): (r: System)
    requires QueueWf(s)
    ensures QueueWf(r) && forall x :: x in r.queue <==> x in s.queue && x != p
    ensures r.table == s.table && r == s.(queue := r.queue, cursor := r.cursor)
  {
    var at := IndexOf(s.queue, p, 0);
    if at == |s.queue| then s
    else
      DeletedElements(s.queue, at);
      var n := |s.queue| - 1;
      s.(queue := Deleted(s.queue, at),
         cursor := if s.cursor >= n && n > 0 then n - 1 else if at < s.cursor then s.cursor - 1 else s.cursor)
  }

  lemma InsertedElements(q: seq<nat>, at: nat, p: nat)
    requires at <= |q|
    ensures forall x :: x in Inserted(q, at, p) <==> x in q || x == p
  {
    assert q == q[..at] + q[at..];
  }

  lemma DeletedElements(q: seq<nat>, at: nat)
    requires at < |q| && Distinct(q)
    ensures forall x :: x in Deleted(q, at) <==> x in q && x != q[at]
    ensures Distinct(Deleted(q, at))
  {
    var r := Deleted(q, at);
    assert q == q[..at] + [q[at]] + q[at + 1..];
    forall i, j | 0 <= i < j < |r| ensures r[i] != r[j] {
      var i', j' := if i < at then i else i + 1, if j < at then j else j + 1;
      assert q[i'] != q[j'];
    }
    assert q[at] !in r by {
      forall i | 0 <= i < |r| ensures r[i] != q[at] {
        var i' := if i < at then i else i + 1;
        assert i' < at || at < i';
      }
    }
  }

  lemma InsertedDistinct(q: seq<nat>, at: nat, p: nat)
    requires at <= |q| && Distinct(q) && p !in q
    ensures Distinct(Inserted(q, at, p))
  {
    var r := Inserted(q, at, p);
    forall i, j | 0 <= i < j < |r| ensures r[i] != r[j] {
      var i', j' := if i < at then i else i - 1, if j < at then j else j - 1;
      if i != at && j != at { assert q[i'] != q[j']; }
    }
  }

  lemma InsertedSorted(table: seq<PCB>, q: seq<nat>, p: nat)
    requires p < |table| && (forall i :: 0 <= i < |q| ==> q[i] < |table|) && Sorted(table, q)
    ensures var r := Inserted(q, InsertAt(table, q, table[p].priority, 0), p);
            (forall i :: 0 <= i < |r| ==> r[i] < |table|) && Sorted(table, r)
  {
    var at := InsertAt(table, q, table[p].priority, 0);
    var r := Inserted(q, at, p);
    forall j | at <= j < |q| ensures table[q[j]].priority < table[p].priority {
      hide Inserted, InsertAt;
      assert j > at ==> table[q[at]].priority >= table[q[j]].priority;
    }
    forall i, j | 0 <= i < j < |r| ensures table[r[i]].priority >= table[r[j]].priority {
      hide Inserted, InsertAt;
      var i', j' := if i < at then i else i - 1, if j < at then j else j - 1;
      if i != at && j != at {
        assert table[q[i']].priority >= table[q[j']].priority;
      }
    }
  }

  lemma DeletedSorted(table: seq<PCB>, q: seq<nat>, at: nat)
    requires at < |q| && (forall i :: 0 <= i < |q| ==> q[i] < |table|) && Sorted(table, q)
    ensures var r := Deleted(q, at);
            (forall i :: 0 <= i < |r| ==> r[i] < |table|) && Sorted(table, r)
  {
    var r := Deleted(q, at);
    forall i, j | 0 <= i < j < |r| ensures table[r[i]].priority >= table[r[j]].priority {
      var i', j' := if i < at then i else i + 1, if j < at then j else j + 1;
      assert table[q[i']].priority >= table[q[j']].priority;
    }
  }

  /** Adding queues the process once, keeps the order by priority and leaves the cursor on the same process. */
  lemma AddLaws(s: System, p: nat)
    requires QueueWf(s) && Sorted(s.table, s.queue)
    requires p < |s.table| && p !in s.queue && p != s.idle && |s.queue| < MAX_PROCESSES && |s.queue| < |s.table|
    ensures var r := Add(s, p);
            && QueueWf(r) && Sorted(r.table, r.queue)
            && |r.queue| == |s.queue| + 1 && (forall x :: x in r.queue <==> x in s.queue || x == p)
            && (s.queue != [] ==> r.queue[r.cursor] == s.queue[s.cursor])
  {
    hide Distinct, Sorted;
    var at := InsertAt(s.table, s.queue, s.table[p].priority, 0);
    InsertedElements(s.queue, at, p);
    InsertedDistinct(s.queue, at, p);
    InsertedSorted(s.table, s.queue, p);
  }

  /** Removing takes out just that process and leaves the cursor on the same process unless that is the one removed. */
  lemma RemoveLaws(s: System, p: nat)
    requires QueueWf(s) && Sorted(s.table, s.queue)
    ensures var r := Remove(s, p);
            && QueueWf(r) && Sorted(r.table, r.queue)
            && (forall x :: x in r.queue <==> x in s.queue && x != p)
            && |r.queue| == |s.queue| - (if p in s.queue then 1 else 0)
            && (s.queue != [] && s.queue[s.cursor] != p ==> r.queue != [] && r.queue[r.cursor] == s.queue[s.cursor])
  {
    hide Distinct, Sorted;
    var at := IndexOf(s.queue, p, 0);
    if at < |s.queue| {
      DeletedElements(s.queue, at);
      DeletedSorted(s.table, s.queue, at);
    }
  }

  // ---------------------------------------------------------------- switching

  /** One tick of waiting, in 32 bits. */
  function Waited(p: PCB): PCB {
    p.(waitTicks := (p.waitTicks + 1) % TICKS_MODULUS)
  }

  /** Every ready process of the queue but the current one has waited a tick more. */
  function Age(s: System): (r: System)
    ensures |r.table| == |s.table|
    ensures forall i :: 0 <= i < |s.table| ==>
              r.table[i] == if i in s.queue && i != s.current && s.table[i].state == READY then Waited(s.table[i]) else s.table[i]
  {
    s.(table := seq(|s.table|, i requires 0 <= i < |s.table| =>
                      if i in s.queue && i != s.current && s.table[i].state == READY then Waited(s.table[i]) else s.table[i]))
  }

  function Freed(p: PCB): PCB {
    p.(stack := NULL, argv := NULL, state := FREE, pid := 0)
  }

  /** Take a dead process out of the queue and free its slot. */
  function Reap(s: System, p: nat): System
    requires QueueWf(s) && p < |s.table|
  {
    var r := Remove(s, p);
    r.(table := r.table[p := Freed(r.table[p])])
  }

  predicate SlotsOk(s: System) {
    (s.current == NULL || 0 <= s.current < |s.table|) && (s.idle == NULL || 0 <= s.idle < |s.table|)
  }

  /** Choose and run the next process; the one that leaves the processor is reaped if it has died. */
  function Switch(s: System): System
    requires QueueWf(s) && SlotsOk(s)
  {
    var (next, cursor') := NextReady(s);
    var s1 := s.(cursor := cursor');
    if next == NULL then
      if s.current != NULL && s.table[s.current].state == READY
      then s1.(table := s.table[s.current := s.table[s.current].(state := RUNNING)])
      else s1
    else
      var s2 := if s.current != NULL && s.table[s.current].state == ZOMBIE then Reap(s1, s.current) else s1;
      s2.(table := s2.table[next := s2.table[next].(waitTicks := 0, state := RUNNING)], current := next)
  }

  /** What the timer does to the running process: true if its turn is over. */
  function Charge(s: System): (System, bool)
    requires SlotsOk(s)
  {
    if s.current == NULL || s.table[s.current].state != RUNNING then (s, true)
    else
      var p := s.table[s.current];
      var left := if p.quanta > 0 then p.quanta - 1 else 0;
      if left > 0 then (s.(table := s.table[s.current := p.(quanta := left)]), false)
      else (s.(table := s.table[s.current := p.(quanta := p.priority, state := READY)]), true)
  }

  function Tick(s: System): System
    requires QueueWf(s) && SlotsOk(s)
  {
    var (charged, over) := Charge(Age(s));
    if over then Switch(charged) else charged
  }

  /** What yielding does to the current process. */
  function Relinquish(s: System): System
    requires SlotsOk(s)
  {
    if s.current == NULL then s
    else
      var p := s.table[s.current];
      s.(table := s.table[s.current := p.(quanta := p.priority, state := if p.state == RUNNING then READY else p.state)])
  }

  function Yield(s: System): System
    requires QueueWf(s) && SlotsOk(s)
  {
    Switch(Relinquish(s))
  }

  // ---------------------------------------------------------------- counting

  function Below(n: nat): (r: set<nat>)
    ensures forall x: nat :: x in r <==> x < n
    ensures |r| == n
  {
    if n == 0 then {} else Below(n - 1) + {n - 1}
  }

  /** A queue of distinct slots that misses one is shorter than the table. */
  lemma MissingSlot(q: seq<nat>, n: nat, slot: nat)
    requires Distinct(q) && slot < n && slot !in q && forall i :: 0 <= i < |q| ==> q[i] < n
    ensures |q| < n
  {
    DistinctSize(q);
    SubsetSize(Elements(q), Below(n) - {slot});
  }
}
