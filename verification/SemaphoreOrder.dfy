/** First come, first served: nobody who waits for a semaphore is overtaken. */
module SemaphoreOrder {
  import opened Basics
  import opened PidQueue
  import opened SemaphoreSpec
  import opened SemaphoreLaws

  /** How a queue `q` and the holders may move in one event: someone joins at the end, someone who died drops out,
      or the first in line becomes a holder; nobody else ever does. */
  ghost predicate Fifo(q: seq<nat>, q': seq<nat>, holders: set<nat>, holders': set<nat>, gone: int) {
    || ((q' == q || (exists x :: q' == q + [x]) || (gone >= 0 && q' == Removed(q, gone))) && holders' <= holders)
    || (q != [] && q' == q[1..] && q[0] in holders' && holders' <= holders + {q[0]})
  }

  function Dead(ev: Event): int {
    if ev.Death? then ev.pid else -1
  }

  // ---------------------------------------------------------------- one event

  lemma ReturnFifo(s: State, init: seq<int>, i: nat)
    requires AllOk(s, init, i) && i < MAX_SEMS && s.sems[i].queue != []
    ensures Fifo(s.sems[i].queue, Return(s, i).sems[i].queue, Holders(s.procs, i), Holders(Return(s, i).procs, i), -1)
  {
    hide Users, Holders, Accounted, SetHeld, SetBlocked, OneQueue, NamesApart;
    QueueGives(s, init, i, i);
    var m := s.sems[i];
    if m.value + 1 <= 0 {
      assert m.queue[0] in m.queue;
      WokenBits(s.procs, m.queue[0], i, i);
    }
  }

  lemma FewerHolders(q: seq<nat>, q': seq<nat>, h: set<nat>, h': set<nat>, k: set<nat>, gone: int)
    requires Fifo(q, q', h', k, -1) && h' <= h
    ensures Fifo(q, q', h, k, gone)
  {
  }

  lemma PostFifo(s: State, init: seq<int>, pid: nat, i: nat, j: nat)
    requires Conserved(s, init) && i < MAX_SEMS && j < MAX_SEMS && s.sems[i].queue != []
    requires pid in s.procs && j in s.procs[pid].held && s.sems[j].opens > 0
    ensures var r := Return(s.(procs := SetHeld(s.procs, pid, j, false)), j);
            |r.sems| == MAX_SEMS && Fifo(s.sems[i].queue, r.sems[i].queue, Holders(s.procs, i), Holders(r.procs, i), -1)
  {
    hide Users, Holders, AllOk, SetHeld, SetBlocked, Queued;
    AllSize(s, init);
    var d := s.(procs := SetHeld(s.procs, pid, j, false));
    DropOk(s, init, pid, j);
    HeldBits(s.procs, pid, j, false, i);
    if i == j {
      ReturnFifo(d, init, i);
      FewerHolders(s.sems[i].queue, Return(d, i).sems[i].queue,
                   Holders(s.procs, i), Holders(d.procs, i), Holders(Return(d, i).procs, i), -1);
    } else {
      ReturnSame(d, init, j, i);
    }
  }

  lemma CleanOneFifo(s: State, init: seq<int>, pid: nat, i: nat)
    requires AllOk(s, init, -1) && i < MAX_SEMS && pid in s.procs && Queued(s, pid) && s.sems[i].queue != []
    ensures Fifo(s.sems[i].queue, CleanOne(s, pid, i).sems[i].queue, Holders(s.procs, i), Holders(CleanOne(s, pid, i).procs, i), pid)
  {
    hide Users, Holders, AllOk, Accounted, SetHeld, SetOpened, SetBlocked, Queued, CleanOne, Return;
    OpenIfQueued(s, init, i);
    CleanOneIs(s, pid, i);
    LeftOk(s, init, pid, i);
    CloseBits(s.procs, pid, i, i);
    var l := Left(s, pid, i);
    if i in s.procs[pid].held {
      HeldIsNotQueued(s, init, pid, i);
      ReturnFifo(l, init, i);
      FewerHolders(s.sems[i].queue, Return(l, i).sems[i].queue,
                   Holders(s.procs, i), Holders(l.procs, i), Holders(Return(l, i).procs, i), pid);
    }
  }

  lemma OpenIfQueued(s: State, init: seq<int>, i: nat)
    requires AllOk(s, init, -1) && i < MAX_SEMS && s.sems[i].queue != []
    ensures |s.sems| == MAX_SEMS && s.sems[i].opens > 0 && s.sems[i].value < 0
  {
    assert Accounted(s, init, -1, i);
  }

  /** Cleaning up from semaphore n on leaves those before it as they are. */
  lemma {:induction false} CleanFromSame(s: State, init: seq<int>, pid: nat, n: nat, i: nat)
    requires AllOk(s, init, -1) && i < n <= MAX_SEMS && pid in s.procs && Queued(s, pid)
    ensures |s.sems| == MAX_SEMS
    ensures var r := CleanFrom(s, pid, n); r.sems[i] == s.sems[i] && Holders(r.procs, i) == Holders(s.procs, i)
    decreases MAX_SEMS - n
  {
    hide Users, Holders, AllOk, Queued, CleanOne;
    AllSize(s, init);
    if n < MAX_SEMS {
      CleanOneOk(s, init, pid, n);
      assert Same(s, CleanOne(s, pid, n), i);
      CleanFromSame(CleanOne(s, pid, n), init, pid, n + 1, i);
    }
  }

  lemma {:induction false} CleanFromFifo(s: State, init: seq<int>, pid: nat, n: nat, i: nat)
    requires AllOk(s, init, -1) && n <= MAX_SEMS && i < MAX_SEMS && pid in s.procs && Queued(s, pid) && s.sems[i].queue != []
    ensures |s.sems| == MAX_SEMS
    ensures Fifo(s.sems[i].queue, CleanFrom(s, pid, n).sems[i].queue, Holders(s.procs, i), Holders(CleanFrom(s, pid, n).procs, i), pid)
    decreases MAX_SEMS - n
  {
    hide Users, Holders, AllOk, Queued, CleanOne, Fifo, Same;
    AllSize(s, init);
    if n == MAX_SEMS {
      FifoSelf(s.sems[i].queue, Holders(s.procs, i), pid);
    } else {
      CleanOneOk(s, init, pid, n);
      var c := CleanOne(s, pid, n);
      if n == i {
        CleanOneFifo(s, init, pid, i);
        CleanFromSame(c, init, pid, n + 1, i);
      } else {
        SameHolders(s, c, i);
        CleanFromFifo(c, init, pid, n + 1, i);
      }
    }
  }

  lemma FifoSelf(q: seq<nat>, h: set<nat>, gone: int)
    ensures Fifo(q, q, h, h, gone)
  {
  }

  lemma SameHolders(s: State, r: State, i: nat)
    requires i < |s.sems| && Same(s, r, i)
    ensures Holders(r.procs, i) == Holders(s.procs, i)
  {
  }

  lemma DeathFifo(s: State, init: seq<int>, pid: nat, i: nat)
    requires Conserved(s, init) && pid in s.procs && i < MAX_SEMS && s.sems[i].queue != []
    ensures var r := Step(s, Death(pid));
            |r.sems| == MAX_SEMS && pid !in r.procs
            && Fifo(s.sems[i].queue, r.sems[i].queue, Holders(s.procs, i), Holders(r.procs, i), pid)
  {
    hide Users, Holders, AllOk, CleanFrom, Fifo;
    AllSize(s, init);
    CleanFromFifo(s, init, pid, 0, i);
    CleanFromOk(s, init, pid, 0);
    var c := CleanFrom(s, pid, 0);
    assert Gone(c, pid, i);
    BuriedBits(c.procs, pid, i);
    assert Holders(c.procs, i) - {pid} == Holders(c.procs, i);
    assert Step(s, Death(pid)).procs == c.procs - {pid};
  }

  /** What one event does to a queue and to the holders. */
  lemma StepFifo(s: State, init: seq<int>, ev: Event, i: nat)
    requires Conserved(s, init) && Disciplined(s, ev) && i < MAX_SEMS && s.sems[i].queue != []
    ensures var r := Step(s, ev);
            |r.sems| == MAX_SEMS && Fifo(s.sems[i].queue, r.sems[i].queue, Holders(s.procs, i), Holders(r.procs, i), Dead(ev))
  {
    hide Users, Holders, AllOk, SetHeld, SetOpened, SetBlocked, Return, Cleanup;
    OpenIfQueued(s, init, i);
    match ev
    case Create(pid) => BornBits(s.procs, pid, i);
    case SemOpen(pid, name, initial) =>
      var f, j := Find(s.sems, name, 0), FreeSem(s.sems, 0);
      RefBits(s.procs, pid, f, true, i);
      RefBits(s.procs, pid, j, true, i);
    case SemWait(pid, name) => WaitFifo(s, init, pid, name, i);
    case SemPost(pid, name) =>
      var j := Find(s.sems, name, 0);
      if j < |s.sems| { PostFifo(s, init, pid, i, j); }
    case SemClose(pid, name) =>
      var j := Find(s.sems, name, 0);
      if j < |s.sems| {
        CloseBits(s.procs, pid, j, i);
        if i == j { CallerAndWaiter(s, init, pid, i); }
      }
    case Death(pid) => DeathFifo(s, init, pid, i);
  }

  lemma WaitFifo(s: State, init: seq<int>, pid: nat, name: string, i: nat)
    requires Conserved(s, init) && Disciplined(s, SemWait(pid, name)) && i < MAX_SEMS && s.sems[i].queue != []
    ensures var r := Wait(s, pid, name).0;
            |r.sems| == MAX_SEMS && Fifo(s.sems[i].queue, r.sems[i].queue, Holders(s.procs, i), Holders(r.procs, i), -1)
  {
    hide Users, Holders, AllOk, SetHeld, SetBlocked;
    OpenIfQueued(s, init, i);
    var j := Find(s.sems, name, 0);
    HeldBits(s.procs, pid, j, true, i);
    BlockBits(s.procs, pid, true, i);
  }

  /** A semaphore that someone waits for and someone else closes has another user left. */
  lemma CallerAndWaiter(s: State, init: seq<int>, pid: nat, i: nat)
    requires AllOk(s, init, -1) && i < MAX_SEMS && s.sems[i].queue != [] && pid in s.procs && !s.procs[pid].blocked
    requires i in s.procs[pid].refs
    ensures s.sems[i].opens >= 2
  {
    hide Users, Holders;
    QueueGives(s, init, -1, i);
    RunsNowhere(s, init, pid);
    HolderIs(s.procs, pid, i);
    var p := s.sems[i].queue[0];
    assert p in s.sems[i].queue;
    SubsetSize({p, pid}, Users(s.procs, i));
  }

  // ---------------------------------------------------------------- order

  /** Nobody is overtaken: a process at place k of a queue dies, or was first and becomes a holder, or stays, at the
      same place or nearer the front and with nobody ahead who was not ahead before; and while anyone waits, only the
      first in line can become a holder. */
  lemma NoOvertaking(s: State, init: seq<int>, ev: Event, i: nat, k: nat)
    requires Conserved(s, init) && Disciplined(s, ev) && i < MAX_SEMS && k < |s.sems[i].queue|
    ensures var q, p, r := s.sems[i].queue, s.sems[i].queue[k], Step(s, ev);
            && |r.sems| == MAX_SEMS
            && (|| ev == Death(p)
                || (k == 0 && p in Holders(r.procs, i) && p !in r.sems[i].queue)
                || exists j :: 0 <= j <= k && j < |r.sems[i].queue| && r.sems[i].queue[j] == p && Ahead(q, k, r.sems[i].queue, j))
            && forall x :: x in Holders(r.procs, i) && x !in Holders(s.procs, i) ==> x == q[0]
  {
    hide Users, Holders, AllOk, Step, Disciplined, Removed, Distinct;
    AllSize(s, init);
    StepFifo(s, init, ev, i);
    QueueDistinct(s, init, i);
    var q, r := s.sems[i].queue, Step(s, ev);
    var q' := r.sems[i].queue;
    if q' == q || exists x :: q' == q + [x] {
      assert q'[k] == q[k] && Ahead(q, k, q', k);
    } else if Dead(ev) >= 0 && q' == Removed(q, Dead(ev)) {
      if q[k] != Dead(ev) { var j := RemovedPlace(q, Dead(ev), k); }
    } else if k > 0 {
      assert q'[k - 1] == q[k] && Ahead(q, k, q', k - 1);
    } else {
      TailMisses(q);
    }
  }

  /** Those ahead of place j in `r` were ahead of place k in `q`. */
  ghost predicate Ahead(q: seq<nat>, k: nat, r: seq<nat>, j: nat)
    requires k <= |q| && j <= |r|
  {
    forall x :: x in r[..j] ==> x in q[..k]
  }

  lemma QueueDistinct(s: State, init: seq<int>, i: nat)
    requires AllOk(s, init, -1) && i < MAX_SEMS
    ensures Distinct(s.sems[i].queue)
  {
    QueueGives(s, init, -1, i);
  }

  lemma TailMisses(q: seq<nat>)
    requires Distinct(q) && q != []
    ensures q[0] !in q[1..]
  {
  }

  lemma {:induction false} RemovedPlace(q: seq<nat>, gone: nat, k: nat) returns (j: nat)
    requires k < |q| && q[k] != gone
    ensures j <= k && j < |Removed(q, gone)| && Removed(q, gone)[j] == q[k] && Ahead(q, k, Removed(q, gone), j)
  {
    var n := |q| - 1;
    if k == n {
      j := |Removed(q[..n], gone)|;
      assert Removed(q, gone)[..j] == Removed(q[..n], gone);
    } else {
      j := RemovedPlace(q[..n], gone, k);
      assert q[..n][..k] == q[..k];
      assert Removed(q, gone)[..j] == Removed(q[..n], gone)[..j];
    }
  }

  // ---------------------------------------------------------------- over runs

  /** The processes that become holders of semaphore i in this event. */
  function NewHolders(s: State, ev: Event, i: nat): set<nat> {
    Holders(Step(s, ev).procs, i) - Holders(s.procs, i)
  }

  /** The processes that become holders of semaphore i along a run, in order. */
  ghost function Grants(s: State, evs: seq<Event>, i: nat): seq<nat>
    decreases |evs|
  {
    if evs == [] then []
    else
      var rest := Grants(Step(s, evs[0]), evs[1..], i);
      if NewHolders(s, evs[0], i) == {} then rest
      else
        var y :| y in NewHolders(s, evs[0], i);
        [y] + rest
  }

  /** The process waits for semaphore i now and after each of these events. */
  ghost predicate InLine(s: State, evs: seq<Event>, i: nat, x: nat)
    decreases |evs|
  {
    && i < |s.sems| && x in s.sems[i].queue
    && (evs == [] || InLine(Step(s, evs[0]), evs[1..], i, x))
  }

  /** The elements of g are elements of q, in the order in which they are in q. */
  ghost predicate InOrder(g: seq<nat>, q: seq<nat>)
    decreases |g|
  {
    g == [] || exists at :: 0 <= at < |q| && q[at] == g[0] && InOrder(g[1..], q[at + 1..])
  }

  lemma {:induction false} InOrderLater(g: seq<nat>, q: seq<nat>, n: nat)
    requires n <= |q| && InOrder(g, q[n..])
    ensures InOrder(g, q)
  {
    if g != [] {
      var at :| 0 <= at < |q[n..]| && q[n..][at] == g[0] && InOrder(g[1..], q[n..][at + 1..]);
      assert q[n..][at + 1..] == q[n + at + 1..];
      assert q[n + at] == g[0];
    }
  }

  /** Dropping someone out of the line leaves the order of the others. */
  lemma {:induction false} InOrderRemoved(g: seq<nat>, q: seq<nat>, gone: nat)
    requires InOrder(g, Removed(q, gone))
    ensures InOrder(g, q)
    decreases |q|
  {
    if g != [] {
      var r := Removed(q, gone);
      RemovedHead(q, gone);
      if q[0] == gone {
        assert r == Removed(q[1..], gone);
        InOrderRemoved(g, q[1..], gone);
        InOrderLater(g, q, 1);
      } else {
        var at :| 0 <= at < |r| && r[at] == g[0] && InOrder(g[1..], r[at + 1..]);
        if at == 0 {
          assert r[1..] == Removed(q[1..], gone);
          InOrderRemoved(g[1..], q[1..], gone);
          assert q[0] == g[0];
        } else {
          assert r[1..][at - 1] == g[0] && r[1..][at..] == r[at + 1..];
          InOrderRemoved(g, q[1..], gone);
          InOrderLater(g, q, 1);
        }
      }
    }
  }

  lemma {:induction false} RemovedHead(q: seq<nat>, gone: nat)
    requires q != []
    ensures Removed(q, gone) == (if q[0] == gone then [] else [q[0]]) + Removed(q[1..], gone)
  {
    var n := |q| - 1;
    if n > 0 {
      RemovedHead(q[..n], gone);
      assert q[..n][1..] == q[1..][..n - 1];
      assert q[1..][n - 1] == q[n];
    }
  }

  lemma {:induction false} RemovedPrefix(q: seq<nat>, gone: nat, k: nat)
    requires k < |q| && q[k] != gone
    ensures var j := |Removed(q[..k], gone)|;
            j < |Removed(q, gone)| && Removed(q, gone)[j] == q[k] && Removed(q, gone)[..j] == Removed(q[..k], gone)
  {
    hide Removed;
    var n := |q| - 1;
    assert q[..n + 1] == q;
    RemovedSnoc(q, n, gone);
    if k < n {
      RemovedPrefix(q[..n], gone, k);
      assert q[..n][..k] == q[..k];
    }
  }

  /** One event while x stays in line: a grant goes to the first in line, who was ahead of x. */
  lemma InLineStep(s: State, init: seq<int>, ev: Event, i: nat, k: nat) returns (j: nat)
    requires Conserved(s, init) && Disciplined(s, ev) && i < MAX_SEMS && k < |s.sems[i].queue|
    requires |Step(s, ev).sems| == MAX_SEMS && s.sems[i].queue[k] in Step(s, ev).sems[i].queue
    ensures var q, q', gained := s.sems[i].queue, Step(s, ev).sems[i].queue, NewHolders(s, ev, i);
            && j < |q'| && q'[j] == q[k]
            && (|| (gained == {} && q'[..j] == q[..k])
                || (gained == {} && Dead(ev) >= 0 && q'[..j] == Removed(q[..k], Dead(ev)))
                || (gained == {q[0]} && k > 0 && q'[..j] == q[1..k]))
  {
    hide Users, Holders, AllOk, Step, Disciplined, Removed;
    AllSize(s, init);
    StepFifo(s, init, ev, i);
    QueueDistinct(s, init, i);
    var q, q' := s.sems[i].queue, Step(s, ev).sems[i].queue;
    j := k;
    if q' == q || exists x :: q' == q + [x] {
      assert q'[..k] == q[..k];
      if !(Holders(Step(s, ev).procs, i) <= Holders(s.procs, i)) { TailShorter(q); }
    } else if Dead(ev) >= 0 && q' == Removed(q, Dead(ev)) && Holders(Step(s, ev).procs, i) <= Holders(s.procs, i) {
      RemovedPrefix(q, Dead(ev), k);
      j := |Removed(q[..k], Dead(ev))|;
    } else {
      TailMisses(q);
      j := k - 1;
      assert q'[..j] == q[1..k];
      WaitersDoNotHold(s, init, i);
    }
  }

  lemma TailShorter(q: seq<nat>)
    requires q != []
    ensures q[1..] != q && forall x :: q[1..] != q + [x]
  {
    assert |q[1..]| < |q|;
  }

  lemma WaitersDoNotHold(s: State, init: seq<int>, i: nat)
    requires Conserved(s, init) && i < MAX_SEMS && s.sems[i].queue != []
    ensures s.sems[i].queue[0] !in Holders(s.procs, i)
  {
    hide Users, Holders, AllOk;
    OpenIfQueued(s, init, i);
    Exclusion(s, init, i);
    assert s.sems[i].queue[0] in s.sems[i].queue;
  }

  /** First come, first served: while a process waits at place k of a semaphore's queue, whatever else happens, units go
      only to processes that were ahead of it when it came, each at most once, and in the order of the queue. */
  lemma {:induction false} FirstComeFirstServed(s: State, init: seq<int>, evs: seq<Event>, i: nat, k: nat)
    requires Conserved(s, init) && Legal(s, evs) && i < MAX_SEMS == |s.sems| && k < |s.sems[i].queue|
    requires InLine(s, evs, i, s.sems[i].queue[k])
    ensures InOrder(Grants(s, evs, i), s.sems[i].queue[..k])
    decreases |evs|
  {
    hide Conserved, Disciplined, Step, NewHolders, Removed;
    if evs != [] {
      var ev, q, r := evs[0], s.sems[i].queue, Step(s, evs[0]);
      StepConserves(s, init, ev);
      ConservedSize(r, Initials(s, init, ev));
      var j := InLineStep(s, init, ev, i, k);
      FirstComeFirstServed(r, Initials(s, init, ev), evs[1..], i, j);
      var rest := Grants(r, evs[1..], i);
      if NewHolders(s, ev, i) == {} {
        if r.sems[i].queue[..j] != q[..k] { InOrderRemoved(rest, q[..k], Dead(ev)); }
      } else {
        assert Grants(s, evs, i) == [q[0]] + rest;
        assert q[..k][0] == q[0] && q[..k][1..] == q[1..k];
        assert ([q[0]] + rest)[1..] == rest;
      }
    }
  }
}
