/** The run queue in memory: an array of table slots kept in priority order by shifting, and a round-robin cursor. */
module Scheduler {
  import opened Ring
  import opened Basics
  import opened RunQueue
  import opened ProcessSpec

  class Processes {
    const table: array<PCB>
    const runQueue: array<nat>
    var queueSize: nat
    var queueIdx: nat
    var idle: int
    var current: int
    var nextPid: nat

    ghost predicate Shape()
      reads this, table, runQueue
    {
      && table.Length == runQueue.Length == MAX_PROCESSES && queueSize <= MAX_PROCESSES
      && QueueWf(View()) && SlotsOk(View())
    }

    ghost function View(): System
      reads this, table, runQueue
    {
      System(table[..], if queueSize <= runQueue.Length then runQueue[..queueSize] else [], queueIdx, idle, current, nextPid)
    }

    constructor ()
      ensures Shape() && fresh(table) && fresh(runQueue)
      ensures View() == System(seq(MAX_PROCESSES, _ => NoProcess()), [], 0, NULL, NULL, 0)
    {
      table := new PCB[MAX_PROCESSES](_ => NoProcess());
      runQueue := new nat[MAX_PROCESSES](_ => 0);
      queueSize, queueIdx, idle, current, nextPid := 0, 0, NULL, NULL, 0;
      new;
      assert table[..] == seq(MAX_PROCESSES, _ => NoProcess());
    }

    method SetEntry(p: nat, q: PCB)
      requires Shape() && p < table.Length
      modifies table
      ensures View() == old(View()).(table := old(View()).table[p := q]) && Shape()
      ensures table[..] == old(table[..])[p := q]
    {
      hide Distinct;
      table[p] := q;
    }

    method SetCurrent(c: int)
      requires Shape() && 0 <= c < table.Length
      modifies `current
      ensures View() == old(View()).(current := c) && Shape()
    {
      hide Distinct;
      current := c;
    }

    method BumpPid()
      requires Shape()
      modifies `nextPid
      ensures View() == old(View()).(nextPid := old(nextPid) + 1) && Shape()
    {
      hide Distinct;
      nextPid := nextPid + 1;
    }

    /** The slot of the live process with this pid; null if there is none. */
    method Get(pid: nat) returns (p: int)
      requires Shape()
      ensures p == Find(table[..], pid)
    {
      if pid == 0 {
        return NULL;
      }
      var i := 0;
      while i < table.Length
        invariant 0 <= i <= table.Length && FindFrom(table[..], pid, i) == FindFrom(table[..], pid, 0)
      {
        if table[i].pid == pid && table[i].state != FREE {
          return i;
        }
        i := i + 1;
      }
      return NULL;
    }

    /** The first free slot; null if the table is full. */
    method FirstFree() returns (p: int)
      requires Shape()
      ensures p == FreeSlot(table[..], 0)
    {
      var i := 0;
      while i < table.Length
        invariant 0 <= i <= table.Length && FreeSlot(table[..], i) == FreeSlot(table[..], 0)
      {
        if table[i].state == FREE {
          return i;
        }
        i := i + 1;
      }
      return NULL;
    }

    /** Shift the queue right from position `at`. */
    method ShiftRight(at: nat)
      requires queueSize < runQueue.Length && at <= queueSize
      modifies runQueue
      ensures forall k :: 0 <= k <= queueSize ==> runQueue[k] == old(runQueue[if k <= at then k else k - 1])
    {
      var j := queueSize;
      while j > at
        invariant at <= j <= queueSize
        invariant forall k :: 0 <= k <= queueSize ==> runQueue[k] == old(runQueue[if k <= j then k else k - 1])
      {
        runQueue[j] := runQueue[j - 1];
        j := j - 1;
      }
    }

    /** The position of the first process of lower priority than slot p's; the end if there is none. */
    method InsertPosition(p: nat) returns (at: nat)
      requires Shape() && p < table.Length
      ensures at == InsertAt(table[..], View().queue, table[p].priority, 0)
    {
      hide Distinct;
      at := 0;
      while at < queueSize && table[runQueue[at]].priority >= table[p].priority
        invariant 0 <= at <= queueSize
        invariant InsertAt(table[..], View().queue, table[p].priority, at) == InsertAt(table[..], View().queue, table[p].priority, 0)
      {
        assert View().queue[at] == runQueue[at];
        at := at + 1;
      }
      assert at < queueSize ==> View().queue[at] == runQueue[at];
    }

    /** Put slot p at position `at`, behind which everything moves up. */
    method Place(at: nat, p: nat)
      requires queueSize < runQueue.Length && at <= queueSize
      modifies runQueue, `queueSize
      ensures queueSize == old(queueSize) + 1 && runQueue[..queueSize] == Inserted(old(runQueue[..queueSize]), at, p)
    {
      ghost var was := runQueue[..];
      ShiftRight(at);
      runQueue[at] := p;
      queueSize := queueSize + 1;
      InsertedBy(was, queueSize - 1, at, p, runQueue[..]);
    }

    /** Queue the process in slot p by priority, behind those of equal priority. */
    method AddProcess(p: nat)
      requires Shape() && p < table.Length && p !in View().queue
      modifies runQueue, `queueSize, `queueIdx
      ensures View() == Add(old(View()), p) && Shape()
    {
      hide QueueWf, InsertAt, Inserted;
      if queueSize >= MAX_PROCESSES {
        return;
      }
      if p == idle {
        return;
      }
      InsertedDistinctAt(View(), p);
      var insertPos := InsertPosition(p);
      Place(insertPos, p);
      if insertPos <= queueIdx && queueSize > 1 {
        queueIdx := queueIdx + 1;
      }
    }

    /** Shift the queue left onto position `at`. */
    method ShiftLeft(at: nat)
      requires queueSize <= runQueue.Length && at < queueSize
      modifies runQueue
      ensures forall k :: 0 <= k < queueSize - 1 ==> runQueue[k] == old(runQueue[if k < at then k else k + 1])
    {
      var j := at;
      while j < queueSize - 1
        invariant at <= j <= queueSize - 1
        invariant forall k :: 0 <= k < queueSize ==> runQueue[k] == old(runQueue[if at <= k < j then k + 1 else k])
      {
        runQueue[j] := runQueue[j + 1];
        j := j + 1;
      }
    }

    /** The position of slot p in the queue; its size if it is not there. */
    method Position(p: int) returns (at: nat)
      requires Shape()
      ensures at == IndexOf(View().queue, p, 0)
    {
      hide Distinct;
      at := 0;
      while at < queueSize && runQueue[at] != p
        invariant 0 <= at <= queueSize
        invariant IndexOf(View().queue, p, at) == IndexOf(View().queue, p, 0)
      {
        assert View().queue[at] == runQueue[at];
        at := at + 1;
      }
      assert at < queueSize ==> View().queue[at] == runQueue[at];
    }

    /** Take the process in slot p out of the queue, if it is there. */
    method RemoveProcess(p: nat)
      requires Shape()
      modifies runQueue, `queueSize, `queueIdx
      ensures View() == Remove(old(View()), p) && Shape()
    {
      hide Distinct, IndexOf, QueueWf, Deleted;
      ghost var was := runQueue[..];
      var i := Position(p);
      if i < queueSize {
        ShiftLeft(i);
        queueSize := queueSize - 1;
        DeletedBy(was, queueSize + 1, i, runQueue[..]);
        if queueIdx >= queueSize && queueSize > 0 {
          queueIdx := queueSize - 1;
        } else if i < queueIdx {
          queueIdx := queueIdx - 1;
        }
      }
    }

    // ---------------------------------------------------------------- choosing

    static method AgingBonus(p: PCB) returns (b: nat)
      ensures b == Bonus(p)
    {
      b := p.waitTicks / AGING_INTERVAL;
      if b > MAX_AGING_BONUS {
        b := MAX_AGING_BONUS;
      }
    }

    /** The highest effective priority among the ready processes; -1 if none is ready. */
    method HighestReady() returns (high: int)
      requires Shape()
      ensures high == Highest(table[..], View().queue)
    {
      hide Distinct, Highest;
      high := -1;
      HighestOfNone(table[..]);
      var i := 0;
      while i < queueSize
        invariant 0 <= i <= queueSize && high == Highest(table[..], View().queue[..i])
      {
        var p := table[runQueue[i]];
        if p.state == READY {
          var bonus := AgingBonus(p);
          var eff := p.priority + (if p.foreground != 0 then 1 else 0) + bonus;
          if eff > high {
            high := eff;
          }
        }
        HighestOfOneMore(table[..], View().queue, i);
        i := i + 1;
      }
      assert View().queue[..queueSize] == View().queue;
    }

    /** One pass round the queue, moving the cursor, up to the first candidate; null after a full round. */
    method Pass(high: int, onlyForeground: bool) returns (c: int)
      requires Shape() && queueSize > 0
      modifies `queueIdx
      ensures var s := old(View()); var e := Steps(s, high, onlyForeground, 1);
              if e <= queueSize then
                c == s.queue[Ahead(s.cursor, e, queueSize)] && View() == s.(cursor := Ahead(s.cursor, e, queueSize))
              else c == NULL && View() == s
    {
      hide Distinct, Ahead, Steps;
      ghost var s := View();
      var i := 0;
      AheadZero(queueIdx, queueSize);
      while i < queueSize
        invariant 0 <= i <= queueSize && View() == s.(cursor := queueIdx)
        invariant queueIdx == Ahead(s.cursor, i, queueSize) && queueIdx < queueSize
        invariant Steps(s, high, onlyForeground, i + 1) == Steps(s, high, onlyForeground, 1)
      {
        AheadNext(s.cursor, i, queueSize);
        NextStep(s, high, onlyForeground, i + 1);
        queueIdx := (queueIdx + 1) % queueSize;
        var p := table[runQueue[queueIdx]];
        assert runQueue[queueIdx] == s.queue[queueIdx];
        var bonus := AgingBonus(p);
        if p.state == READY && (onlyForeground ==> p.foreground != 0)
           && p.priority + (if p.foreground != 0 then 1 else 0) + bonus == high {
          return runQueue[queueIdx];
        }
        i := i + 1;
      }
      AheadRound(s.cursor, queueSize);
      NoMoreSteps(s, high, onlyForeground);
      return NULL;
    }

    /** One more tick of waiting for every ready process of the queue but the current one. */
    method AgeWaiting()
      requires Shape()
      modifies table
      ensures View() == Age(old(View())) && Shape()
    {
      hide Distinct;
      ghost var s := View();
      var i := 0;
      while i < queueSize
        invariant 0 <= i <= queueSize && View() == s.(table := table[..])
        invariant forall k :: 0 <= k < table.Length ==>
                    table[k] == if k in s.queue[..i] && k != current && s.table[k].state == READY
                                then Waited(s.table[k]) else s.table[k]
      {
        var p := runQueue[i];
        NotYetAged(s.queue, i);
        assert s.queue[..i + 1] == s.queue[..i] + [p];
        if p != current && table[p].state == READY {
          table[p] := Waited(table[p]);
        }
        i := i + 1;
      }
      assert s.queue[..queueSize] == s.queue;
      assert table[..] == Age(s).table;
    }

    /** The process to run next. */
    method NextReadyProcess() returns (next: int)
      requires Shape()
      modifies `queueIdx
      ensures var (c, cursor') := NextReady(old(View())); next == c && View() == old(View()).(cursor := cursor')
      ensures Shape()
    {
      hide Distinct, Highest, Steps, Ahead;
      if queueSize == 0 {
        return idle;
      }
      var high := HighestReady();
      if high < 0 {
        return idle;
      }
      next := Pass(high, true);
      if next != NULL {
        return;
      }
      next := Pass(high, false);
      if next != NULL {
        return;
      }
      return idle;
    }
  }

  /** The first n of `was` moved up from `at` on, with p in the gap, are the queue with p inserted. */
  lemma InsertedBy(was: seq<nat>, n: nat, at: nat, p: nat, now: seq<nat>)
    requires at <= n < |was| == |now| && now[at] == p
    requires forall k :: 0 <= k <= n && k != at ==> now[k] == was[if k <= at then k else k - 1]
    ensures now[..n + 1] == Inserted(was[..n], at, p)
  {
  }

  lemma DeletedBy(was: seq<nat>, n: nat, at: nat, now: seq<nat>)
    requires at < n <= |was| == |now|
    requires forall k :: 0 <= k < n - 1 ==> now[k] == was[if k < at then k else k + 1]
    ensures now[..n - 1] == Deleted(was[..n], at)
  {
  }

  lemma NotYetAged(q: seq<nat>, i: nat)
    requires Distinct(q) && i < |q|
    ensures q[i] !in q[..i]
  {
  }

  lemma HighestOfNone(table: seq<PCB>)
    ensures Highest(table, []) == -1
  {
  }

  lemma HighestOfOneMore(table: seq<PCB>, q: seq<nat>, i: nat)
    requires i < |q| && forall k :: 0 <= k < |q| ==> q[k] < |table|
    ensures var h := Highest(table, q[..i]); var p := table[q[i]];
            Highest(table, q[..i + 1]) == if p.state == READY && Effective(p) > h then Effective(p) else h
  {
    assert q[..i + 1][..i] == q[..i];
  }

  lemma NextStep(s: System, high: int, onlyForeground: bool, e: nat)
    requires QueueWf(s) && 1 <= e <= |s.queue|
    ensures Steps(s, high, onlyForeground, e)
            == if Candidate(s.table[s.queue[Ahead(s.cursor, e, |s.queue|)]], high, onlyForeground) then e
               else Steps(s, high, onlyForeground, e + 1)
  {
  }

  lemma NoMoreSteps(s: System, high: int, onlyForeground: bool)
    requires QueueWf(s) && s.queue != []
    ensures Steps(s, high, onlyForeground, |s.queue| + 1) == |s.queue| + 1
  {
  }

  lemma AheadZero(c: nat, n: nat)
    requires c < n
    ensures Ahead(c, 0, n) == c
  {
    WrapOnce(c, n);
  }

  lemma AheadRound(c: nat, n: nat)
    requires c < n
    ensures Ahead(c, n, n) == c
  {
    WrapOnce(c + n, n);
  }

  lemma InsertedDistinctAt(s: System, p: nat)
    requires QueueWf(s) && p < |s.table| && p !in s.queue && |s.queue| < |s.table|
    ensures QueueWf(Add(s, p))
  {
    hide Distinct;
    InsertedDistinct(s.queue, InsertAt(s.table, s.queue, s.table[p].priority, 0), p);
  }
}
