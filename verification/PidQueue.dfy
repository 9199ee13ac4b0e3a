/** The circular queues of process ids that semaphores and pipes park their waiters in. */
module PidQueue {
  import opened Basics
  import opened Ring

  /** At the end; dropped if the queue is full. */
  function Enqueue(q: seq<nat>, pid: nat): seq<nat> {
    if |q| >= MAX_PROCESSES then q else q + [pid]
  }

  /** As Enqueue, unless the pid is queued already. */
  function EnqueueNew(q: seq<nat>, pid: nat): seq<nat> {
    if pid in q then q else Enqueue(q, pid)
  }

  /** `q` without any occurrence of `pid`. */
  function Removed(q: seq<nat>, pid: nat): (r: seq<nat>)
    ensures forall x :: x in r <==> x in q && x != pid
    ensures |r| <= |q| && (pid in q ==> |r| < |q|) && (pid !in q ==> r == q)
  {
    if q == [] then []
    else
      var last := q[|q| - 1];
      assert q == q[..|q| - 1] + [last];
      if last == pid then Removed(q[..|q| - 1], pid) else Removed(q[..|q| - 1], pid) + [last]
  }

  lemma RemovedSnoc(q: seq<nat>, n: nat, pid: nat)
    requires n < |q|
    ensures Removed(q[..n + 1], pid) == if q[n] == pid then Removed(q[..n], pid) else Removed(q[..n], pid) + [q[n]]
  {
    assert q[..n + 1][..n] == q[..n];
  }

  class Queue {
    const data: array<nat>
    var head: nat
    var tail: nat
    var count: nat

    ghost predicate Valid()
      reads this
    {
      data.Length == MAX_PROCESSES && head < MAX_PROCESSES && count <= MAX_PROCESSES && tail == Ahead(head, count, MAX_PROCESSES)
    }

    ghost function Contents(): (q: seq<nat>)
      reads this, data
      requires Valid()
      ensures |q| == count
    {
      seq(count, i requires 0 <= i < count reads this, data requires Valid() => data[Ahead(head, i, MAX_PROCESSES)])
    }

    constructor ()
      ensures Valid() && Contents() == [] && fresh(data)
    {
      data := new nat[MAX_PROCESSES](_ => 0);
      head, tail, count := 0, 0, 0;
    }

    method Clear()
      requires Valid()
      modifies this
      ensures Valid() && Contents() == []
    {
      head, tail, count := 0, 0, 0;
    }

    method Push(pid: nat)
      requires Valid()
      modifies this, data
      ensures Valid() && Contents() == Enqueue(old(Contents()), pid)
    {
      hide Ahead;
      if count >= MAX_PROCESSES {
        return;
      }
      ghost var q := Contents();
      data[tail] := pid;
      AheadNext(head, count, MAX_PROCESSES);
      tail := (tail + 1) % MAX_PROCESSES;
      count := count + 1;
      forall i | 0 <= i < count ensures Contents()[i] == (q + [pid])[i] {
        if i < count - 1 { AheadDiffers(head, i, count - 1, MAX_PROCESSES); }
      }
    }

    /** As Push, but only after a walk round the queue that does not meet the pid. */
    method PushNew(pid: nat)
      requires Valid()
      modifies this, data
      ensures Valid() && Contents() == EnqueueNew(old(Contents()), pid)
    {
      hide Ahead;
      if count >= MAX_PROCESSES {
        return;
      }
      ghost var q := Contents();
      HeadFromTail(head, count);
      var idx := (tail + MAX_PROCESSES - count) % MAX_PROCESSES;
      var i := 0;
      AheadNext(head, 0, MAX_PROCESSES);
      while i < count
        invariant unchanged(this) && unchanged(data)
        invariant 0 <= i <= count && idx == Ahead(head, i, MAX_PROCESSES)
        invariant forall k :: 0 <= k < i ==> q[k] != pid
      {
        assert q[i] == data[idx];
        if data[idx] == pid {
          return;
        }
        AheadNext(head, i, MAX_PROCESSES);
        idx := (idx + 1) % MAX_PROCESSES;
        i := i + 1;
      }
      Push(pid);
    }

    method Pop() returns (pid: nat)
      requires Valid() && count > 0
      modifies this
      ensures Valid() && pid == old(Contents())[0] && Contents() == old(Contents())[1..]
    {
      hide Ahead;
      ghost var q := Contents();
      AheadNext(head, 0, MAX_PROCESSES);
      pid := data[head];
      ghost var h := head;
      AheadNext(h, count - 1, MAX_PROCESSES);
      head := (head + 1) % MAX_PROCESSES;
      count := count - 1;
      forall i | 0 <= i < count ensures Contents()[i] == q[1..][i] {
        AheadNext(h, i, MAX_PROCESSES);
        assert q[1..][i] == q[i + 1];
      }
    }

    /** Take out everyone, from the front. */
    method PopAll() returns (all: seq<nat>)
      requires Valid()
      modifies this
      ensures Valid() && all == old(Contents()) && Contents() == []
    {
      all := [];
      while count > 0
        invariant Valid() && all + Contents() == old(Contents())
        decreases count
      {
        var pid := Pop();
        all := all + [pid];
      }
    }

    lemma At(i: nat)
      requires Valid() && i < count
      ensures Contents()[i] == data[Ahead(head, i, MAX_PROCESSES)]
    {
    }

    /** Take out every occurrence of the pid, closing up the rest from the start of the buffer. */
    method Remove(pid: nat) returns (found: bool)
      requires Valid()
      modifies this, data
      ensures Valid() && found == (pid in old(Contents())) && Contents() == Removed(old(Contents()), pid)
    {
      hide Ahead, Removed, Queue.Contents;
      if count == 0 {
        return false;
      }
      ghost var q := Contents();
      var kept := new nat[MAX_PROCESSES](_ => 0);
      var n, idx := 0, head;
      found := false;
      var i := 0;
      AheadNext(head, 0, MAX_PROCESSES);
      while i < count
        invariant unchanged(this) && unchanged(data)
        invariant 0 <= i <= count && idx == Ahead(head, i, MAX_PROCESSES) && n <= i && (found ==> n < i)
        invariant kept[..n] == Removed(q[..i], pid)
        invariant found == (pid in q[..i])
      {
        RemovedSnoc(q, i, pid);
        At(i);
        assert q[..i + 1] == q[..i] + [q[i]];
        assert data[idx] == q[i];
        if data[idx] != pid {
          kept[n] := data[idx];
          n := n + 1;
        } else {
          found := true;
        }
        AheadNext(head, i, MAX_PROCESSES);
        idx := (idx + 1) % MAX_PROCESSES;
        i := i + 1;
      }
      assert q[..count] == q;
      if found {
        CopyBack(kept, n);
      }
    }

    /** The first n elements of `kept` become the whole queue. */
    method CopyBack(kept: array<nat>, n: nat)
      requires Valid() && kept.Length == MAX_PROCESSES && n < MAX_PROCESSES && kept != data
      modifies this, data
      ensures Valid() && Contents() == old(kept[..n])
    {
      var i := 0;
      while i < n
        invariant 0 <= i <= n && data[..i] == kept[..i] && kept[..n] == old(kept[..n])
        invariant unchanged(this)
      {
        data[i] := kept[i];
        i := i + 1;
      }
      head, tail, count := 0, n, n;
      assert forall k :: 0 <= k < n ==> Contents()[k] == data[..n][k];
    }
  }

  lemma HeadFromTail(head: nat, count: nat)
    requires head < MAX_PROCESSES && count <= MAX_PROCESSES
    ensures (Ahead(head, count, MAX_PROCESSES) + MAX_PROCESSES - count) % MAX_PROCESSES == head
  {
    WrapOnce(head + count, MAX_PROCESSES);
    WrapOnce(Ahead(head, count, MAX_PROCESSES) + MAX_PROCESSES - count, MAX_PROCESSES);
  }
}
