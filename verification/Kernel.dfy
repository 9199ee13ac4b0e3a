/** The kernel entries that change processes: scheduler, process table and kernel heap together. */
module Kernel {
  import opened Basics
  import opened RunQueue
  import opened ProcessSpec
  import opened ProcessMemory
  import opened Scheduler
  import ProcessLaws
  import BuddySpec
  import BuddyHeap

  const STACK_SIZE := 4096

  class Kernel {
    const sched: Processes
    const heap: BuddyHeap.Heap
    var forceSwitch: bool

    ghost function Objects(): set<object> {
      {this, sched, sched.table, sched.runQueue,
       heap, heap.order, heap.isFree, heap.isKernel, heap.next, heap.freeLists}
    }

    ghost predicate Separate() {
      && (sched.runQueue as object) !in {heap.order as object, heap.next, heap.freeLists, heap.isFree, heap.isKernel}
      && (sched.table as object) !in {heap.order as object, heap.next, heap.freeLists, heap.isFree, heap.isKernel}
      && sched.table as object != sched.runQueue
    }

    /** The heap is valid and its kernel blocks are exactly the stacks and argv copies of the live processes. */
    ghost predicate Valid()
      reads Objects()
    {
      && Separate() && sched.Shape() && heap.Valid()
      && Exact(sched.table[..], heap.st.blocks)
    }

    ghost function View(): System
      reads Objects()
    {
      sched.View()
    }

    ghost function UserView(): BuddySpec.Blocks
      reads Objects()
    {
      UserBlocks(heap.st.blocks)
    }

    /** An empty process table over a fresh heap. */
    constructor (memory: nat)
      requires BuddyHeap.BuddyLaws.HeapSize(memory)
      ensures Valid() && !forceSwitch
      ensures View() == System(seq(MAX_PROCESSES, _ => NoProcess()), [], 0, NULL, NULL, 0)
      ensures fresh(Objects() - {this}) && heap.total == memory && heap.st == BuddySpec.Initial(memory)
    {
      hide BuddyHeap.Heap.Valid, Processes.Shape, BuddySpec.Initial, Exact;
      sched := new Processes();
      heap := new BuddyHeap.Heap(memory);
      forceSwitch := false;
      new;
      NothingOwned(MAX_PROCESSES, memory);
    }

    /** Give back the stack and the argv copy of the process in slot p. */
    method FreeBlocks(p: nat)
      requires Valid() && p < MAX_PROCESSES && sched.table[p].state != FREE
      modifies Objects()
      ensures Valid() && UserView() == old(UserView()) && forceSwitch == old(forceSwitch)
      ensures View() == old(View()).(table := old(View()).table[p := old(sched.table[p]).(stack := NULL, argv := NULL)])
    {
      hide BuddyHeap.Heap.Valid, BuddySpec.Release, KernelPayloads, UserBlocks, QueueWf, Exact, Separate;
      if sched.table[p].stack != NULL {
        FreeOne(p, sched.table[p].stack, sched.table[p].(stack := NULL));
      }
      if sched.table[p].argv != NULL {
        FreeOne(p, sched.table[p].argv, sched.table[p].(argv := NULL));
      }
    }

    /** Free one block of slot p and forget it. */
    method FreeOne(p: nat, ptr: int, q: PCB)
      requires Valid() && p < MAX_PROCESSES && Own(sched.table[p]) == Own(q) + multiset{ptr}
      modifies Objects()
      ensures Valid() && UserView() == old(UserView()) && forceSwitch == old(forceSwitch)
      ensures View() == old(View()).(table := old(View()).table[p := q])
    {
      hide BuddyHeap.Heap.Valid, BuddySpec.Valid, BuddySpec.Release, KernelPayloads, UserBlocks, Processes.Shape, Own, Owned;
      ghost var t, st := sched.table[..], heap.st;
      ShapeGives(sched);
      HeapState(heap);
      OwnedHas(t, p);
      OwnedIsHeld(t, st, heap.total, ptr);
      KernelReleased(heap.total, st, ptr - BuddySpec.HEADER);
      OwnedUpdate(t, p, q);
      Cancel(Owned(t[p := q]), Own(q), Owned(t), ptr);
      heap.Free(ptr);
      sched.SetEntry(p, q);
    }

    /** Update the entry in slot p, which keeps its heap blocks. */
    method Put(p: nat, q: PCB)
      requires Valid() && p < MAX_PROCESSES && Own(q) == Own(sched.table[p])
      modifies sched.table
      ensures Valid() && UserView() == old(UserView())
      ensures View() == old(View()).(table := old(View()).table[p := q])
    {
      hide BuddyHeap.Heap.Valid, Processes.Shape, KernelPayloads, UserBlocks, Own, Owned;
      ShapeGives(sched);
      ghost var t := sched.table[..];
      OwnedUpdate(t, p, q);
      CancelEqual(Owned(t[p := q]), Own(q), Owned(t));
      sched.SetEntry(p, q);
    }

    /** Take a dead process out of the queue, give back its blocks and free its slot. */
    method ReapProcess(p: nat)
      requires Valid() && p < MAX_PROCESSES && sched.table[p].state != FREE
      modifies Objects()
      ensures Valid() && UserView() == old(UserView()) && forceSwitch == old(forceSwitch)
      ensures View() == Reap(old(View()), p)
    {
      hide BuddyHeap.Heap.Valid, Processes.Shape, Exact, KernelPayloads, UserBlocks, Remove, QueueWf;
      ShapeGives(sched);
      ghost var s := View();
      sched.RemoveProcess(p);
      ShapeGives(sched);
      FreeBlocks(p);
      Put(p, Freed(sched.table[p]));
      assert Freed(s.table[p].(stack := NULL, argv := NULL)) == Freed(s.table[p]);
    }

    // ---------------------------------------------------------------- switching

    /** Choose the next process, reap the one that leaves if it has died, and run the choice. */
    method RunNext()
      requires Valid() && NextCanRun(View())
      modifies Objects()
      ensures Valid() && UserView() == old(UserView()) && forceSwitch == old(forceSwitch)
      ensures View() == Switch(old(View()))
    {
      hide BuddyHeap.Heap.Valid, Processes.Shape, Exact, KernelPayloads, UserBlocks, QueueWf, NextReady, Reap;
      ShapeGives(sched);
      ghost var s := View();
      var next := sched.NextReadyProcess();
      ShapeGives(sched);
      var cur := sched.current;
      if next == NULL {
        if cur != NULL && sched.table[cur].state == READY {
          Put(cur, sched.table[cur].(state := RUNNING));
        }
        return;
      }
      if cur != NULL && sched.table[cur].state == ZOMBIE {
        ReapedTable(View(), cur);
        ReapProcess(cur);
        ShapeGives(sched);
      }
      Run(next);
    }

    method Run(next: nat)
      requires Valid() && next < MAX_PROCESSES && sched.table[next].state != FREE
      modifies sched.table, sched`current
      ensures Valid() && UserView() == old(UserView())
      ensures View() == old(View()).(table := old(View()).table[next := old(sched.table[next]).(waitTicks := 0, state := RUNNING)],
                                     current := next)
    {
      hide BuddyHeap.Heap.Valid, Processes.Shape, Exact, KernelPayloads, UserBlocks;
      ShapeGives(sched);
      Put(next, sched.table[next].(waitTicks := 0, state := RUNNING));
      sched.SetCurrent(next);
    }

    /** The timer: everyone waiting ages, the running process is charged, and at the end of its turn the next one runs. */
    method SchedulerTick()
      requires TickCanRun(View()) && Valid()
      modifies Objects()
      ensures Valid() && UserView() == old(UserView()) && forceSwitch == old(forceSwitch)
      ensures View() == Tick(old(View()))
    {
      hide BuddyHeap.Heap.Valid, Processes.Shape, Exact, KernelPayloads, UserBlocks, QueueWf, Switch, Age, Charge;
      ShapeGives(sched);
      ghost var s := View();
      AgeOwns(s);
      sched.AgeWaiting();
      ShapeGives(sched);
      SameOwners(s.table, View().table, heap.st.blocks);
      var over := ChargeCurrent();
      if over {
        RunNext();
      }
    }

    /** Take a tick off the running process's turn; at the end of the turn it becomes ready again. */
    method ChargeCurrent() returns (over: bool)
      requires Valid()
      modifies sched.table
      ensures Valid() && UserView() == old(UserView())
      ensures var (r, done) := Charge(old(View())); View() == r && over == done
    {
      hide BuddyHeap.Heap.Valid, Processes.Shape, Exact, KernelPayloads, UserBlocks, QueueWf;
      ShapeGives(sched);
      var cur := sched.current;
      if cur == NULL || sched.table[cur].state != RUNNING {
        return true;
      }
      var p := sched.table[cur];
      var left := if p.quanta > 0 then p.quanta - 1 else 0;
      over := left == 0;
      Put(cur, if over then p.(quanta := p.priority, state := READY) else p.(quanta := left));
    }

    /** A voluntary switch: the current process gives up the processor, if it still has it. */
    method SchedulerYield()
      requires Valid() && NextCanRun(Relinquish(View()))
      modifies Objects()
      ensures Valid() && UserView() == old(UserView()) && forceSwitch == old(forceSwitch)
      ensures View() == Yield(old(View()))
    {
      hide BuddyHeap.Heap.Valid, Processes.Shape, Exact, KernelPayloads, UserBlocks, QueueWf, Switch;
      ShapeGives(sched);
      var cur := sched.current;
      if cur != NULL {
        var p := sched.table[cur];
        Put(cur, p.(quanta := p.priority, state := if p.state == RUNNING then READY else p.state));
      }
      RunNext();
    }

    // ---------------------------------------------------------------- life cycle

    /** Hand `value` to the parent of the process in slot c, if it is blocked waiting for it. */
    method Wake(c: nat, value: int)
      requires Valid() && c < MAX_PROCESSES
      modifies sched.table
      ensures Valid() && UserView() == old(UserView())
      ensures View() == WakeParent(old(View()), c, value)
    {
      hide BuddyHeap.Heap.Valid, Processes.Shape, Exact, KernelPayloads, UserBlocks, Find;
      ShapeGives(sched);
      var p := sched.Get(sched.table[c].parent);
      FindInTable(View().table, sched.table[c].parent);
      if p != NULL && sched.table[p].state == BLOCKED && sched.table[p].waitingFor == sched.table[c].pid {
        Put(p, sched.table[p].(saved := value, waitingFor := 0, state := READY, waitTicks := 0));
      }
    }

    method ProcessUnblock(pid: nat)
      requires Valid()
      modifies this, sched.table
      ensures Valid() && UserView() == old(UserView())
      ensures var (r, switch) := Unblock(old(View()), pid); View() == r && forceSwitch == (old(forceSwitch) || switch)
    {
      hide Kernel.Valid, Kernel.UserView, Find;
      var p := Lookup(pid);
      if p == NULL || sched.table[p].state != BLOCKED {
        return;
      }
      Put(p, sched.table[p].(state := READY, waitTicks := 0));
      if sched.current != NULL && sched.table[p].priority > sched.table[sched.current].priority {
        SetForceSwitch(true);
      }
    }

    /** Unblock these processes, in order. */
    method UnblockEach(pids: seq<nat>)
      requires Valid()
      modifies this, sched.table
      ensures Valid() && UserView() == old(UserView())
      ensures var (r, switch) := UnblockAll(old(View()), pids); View() == r && forceSwitch == (old(forceSwitch) || switch)
    {
      hide BuddyHeap.Heap.Valid, Processes.Shape, Exact, KernelPayloads, UserBlocks, Unblock, UnblockAll;
      ShapeGives(sched);
      ghost var s := View();
      UnblockNone(s);
      assert pids[..0] == [];
      for n := 0 to |pids|
        invariant Valid() && UserView() == old(UserView())
        invariant var (r, switch) := UnblockAll(s, pids[..n]); View() == r && forceSwitch == (old(forceSwitch) || switch)
      {
        UnblockMore(s, pids, n);
        ProcessUnblock(pids[n]);
      }
      assert pids[..|pids|] == pids;
    }

    /** Record the value the process in slot c dies with, unblock those it wakes, and hand it to a waiting parent. */
    method Bequeath(c: nat, value: int, woken: seq<nat>)
      requires Valid() && c < MAX_PROCESSES && sched.table[c].state != FREE
      modifies this, sched.table
      ensures Valid() && UserView() == old(UserView()) && sched.table[c].state != FREE
      ensures var s := old(View()); var (u, switch) := UnblockAll(s.(table := s.table[c := s.table[c].(retval := value)]), woken);
              View() == WakeParent(u, c, value) && forceSwitch == (old(forceSwitch) || switch)
    {
      hide BuddyHeap.Heap.Valid, Processes.Shape, Exact, KernelPayloads, UserBlocks, WakeParent, UnblockAll;
      ShapeGives(sched);
      Put(c, sched.table[c].(retval := value));
      ShapeGives(sched);
      UnblockAllKeepsLive(View(), woken, c);
      UnblockEach(woken);
      ShapeGives(sched);
      WakeKeepsOwn(View(), c, value);
      Wake(c, value);
      ShapeGives(sched);
    }

    method ProcessExit(retval: int, woken: seq<nat>)
      requires Valid() && (sched.current != NULL ==> sched.table[sched.current].state != FREE)
      modifies this, sched.table
      ensures Valid() && UserView() == old(UserView())
      ensures var (r, switch) := Exit(old(View()), retval, woken); View() == r && forceSwitch == (old(forceSwitch) || switch)
    {
      hide BuddyHeap.Heap.Valid, Processes.Shape, Exact, KernelPayloads, UserBlocks, WakeParent, UnblockAll;
      ShapeGives(sched);
      var cur := sched.current;
      if cur == NULL {
        return;
      }
      Bequeath(cur, retval, woken);
      ShapeGives(sched);
      Put(cur, sched.table[cur].(state := ZOMBIE));
      forceSwitch := true;
    }

    method ProcessKill(pid: nat, woken: seq<nat>)
      requires Valid()
      modifies Objects()
      ensures Valid() && UserView() == old(UserView())
      ensures var (r, switch) := Kill(old(View()), pid, woken); View() == r && forceSwitch == (old(forceSwitch) || switch)
    {
      hide Kernel.Valid, Kernel.UserView, WakeParent, Find, Reap, QueueWf, UnblockAll;
      var p := Lookup(pid);
      if p == NULL || sched.table[p].state == ZOMBIE {
        return;
      }
      Bequeath(p, -1, woken);
      Shaped();
      if p == sched.current {
        Put(p, sched.table[p].(state := ZOMBIE));
        SetForceSwitch(true);
      } else {
        ReapProcess(p);
      }
    }

    method ProcessBlock(pid: nat)
      requires Valid()
      modifies this, sched.table
      ensures Valid() && UserView() == old(UserView())
      ensures var (r, switch) := Block(old(View()), pid); View() == r && forceSwitch == (old(forceSwitch) || switch)
    {
      hide Kernel.Valid, Kernel.UserView, Find;
      var p := Lookup(pid);
      if p == NULL || sched.table[p].state == ZOMBIE || sched.table[p].state == BLOCKED {
        return;
      }
      Put(p, sched.table[p].(state := BLOCKED));
      if p == sched.current {
        SetForceSwitch(true);
      }
    }

    method ProcessNice(pid: nat, priority: nat)
      requires Valid()
      modifies Objects()
      ensures Valid() && UserView() == old(UserView()) && forceSwitch == old(forceSwitch)
      ensures View() == Nice(old(View()), pid, priority)
    {
      hide Kernel.Valid, Kernel.UserView, Find, QueueWf, Remove, Add;
      var p := Lookup(pid);
      if p == NULL {
        return;
      }
      var c := if priority < MIN_PRIORITY then MIN_PRIORITY else if priority > MAX_PRIORITY then MAX_PRIORITY else priority;
      Put(p, sched.table[p].(priority := c, waitTicks := 0, quanta := c));
      Shaped();
      if sched.table[p].state != ZOMBIE {
        RequeueProcess(p);
      }
    }

    method RequeueProcess(p: nat)
      requires Valid() && p < MAX_PROCESSES
      modifies sched, sched.runQueue
      ensures Valid() && UserView() == old(UserView())
      ensures View() == Requeue(old(View()), p)
    {
      hide BuddyHeap.Heap.Valid, Processes.Shape, Exact, KernelPayloads, UserBlocks, QueueWf, Remove, Add;
      ShapeGives(sched);
      sched.RemoveProcess(p);
      ShapeGives(sched);
      ProcessLaws.AddOnlyQueue(View(), p);
      sched.AddProcess(p);
    }

    /** Give back the blocks of a dead process and free its slot. */
    method Reclaim(p: nat)
      requires Valid() && p < MAX_PROCESSES && sched.table[p].state != FREE
      modifies Objects()
      ensures Valid() && UserView() == old(UserView()) && forceSwitch == old(forceSwitch)
      ensures p < |old(View()).table| && View() == old(View()).(table := old(View()).table[p := Freed(old(View()).table[p])])
    {
      hide BuddyHeap.Heap.Valid, Processes.Shape, Exact, KernelPayloads, UserBlocks, QueueWf;
      ShapeGives(sched);
      ghost var s := View();
      FreeBlocks(p);
      ShapeGives(sched);
      Put(p, Freed(sched.table[p]));
      assert Freed(s.table[p].(stack := NULL, argv := NULL)) == Freed(s.table[p]);
    }

    /** Wait for a process: one found dead is reclaimed and its value returned. */
    method ProcessWaitPid(pid: nat) returns (r: int)
      requires Valid() && (sched.current != NULL ==> sched.table[sched.current].state != FREE)
      modifies Objects()
      ensures Valid() && UserView() == old(UserView()) && r == WaitValue(old(View()), pid)
      ensures var (s, switch) := WaitPid(old(View()), pid); View() == s && forceSwitch == (old(forceSwitch) || switch)
    {
      hide Kernel.Valid, Kernel.UserView, Find, QueueWf;
      var child := Lookup(pid);
      if child == NULL {
        return -1;
      }
      if sched.table[child].state == ZOMBIE {
        r := sched.table[child].retval;
        Reclaim(child);
        return;
      }
      if sched.current != NULL {
        var cur := sched.current;
        Put(cur, sched.table[cur].(state := BLOCKED, waitingFor := pid, saved := 0));
      }
      SetForceSwitch(true);
      return 0;
    }

    method SetForceSwitch(on: bool)
      requires Valid()
      modifies `forceSwitch
      ensures Valid() && View() == old(View()) && UserView() == old(UserView()) && forceSwitch == on
    {
      hide BuddyHeap.Heap.Valid, Processes.Shape, Exact, KernelPayloads, UserBlocks;
      forceSwitch := on;
    }

    method SetIdle(p: nat)
      requires Valid() && p < MAX_PROCESSES
      modifies sched`idle
      ensures Valid() && UserView() == old(UserView()) && View() == old(View()).(idle := p)
    {
      hide BuddyHeap.Heap.Valid, Exact, KernelPayloads, UserBlocks, Distinct;
      sched.idle := p;
    }

    method Dequeue(p: nat)
      requires Valid() && p < MAX_PROCESSES
      modifies sched, sched.runQueue
      ensures Valid() && UserView() == old(UserView()) && View() == Remove(old(View()), p)
    {
      hide BuddyHeap.Heap.Valid, Processes.Shape, Exact, KernelPayloads, UserBlocks, QueueWf, Remove;
      ShapeGives(sched);
      sched.RemoveProcess(p);
    }

    /** The first process to run. */
    method Start()
      requires Valid() && NextCanRun(View())
      modifies sched, sched.table
      ensures Valid() && UserView() == old(UserView())
      ensures var s := old(View()); var (next, cursor') := NextReady(s);
              View() == if next == NULL then s.(cursor := cursor')
                        else s.(cursor := cursor', table := s.table[next := s.table[next].(state := RUNNING)], current := next)
    {
      hide BuddyHeap.Heap.Valid, Processes.Shape, Exact, KernelPayloads, UserBlocks, QueueWf, NextReady;
      ShapeGives(sched);
      var first := sched.NextReadyProcess();
      if first == NULL {
        return;
      }
      ShapeGives(sched);
      Put(first, sched.table[first].(state := RUNNING));
      sched.SetCurrent(first);
    }

    lemma Shaped()
      requires Valid()
      ensures sched.table.Length == MAX_PROCESSES && QueueWf(View()) && SlotsOk(View()) && View().table == sched.table[..]
    {
    }

    /** The slot of the live process with this pid; null if there is none. */
    method Lookup(pid: nat) returns (p: int)
      requires Valid()
      ensures Valid() && View() == old(View()) && UserView() == old(UserView()) && p == Find(View().table, pid)
      ensures p == NULL || (0 <= p < sched.table.Length == MAX_PROCESSES && sched.table[p].state != FREE)
      ensures sched.current == NULL || 0 <= sched.current < sched.table.Length
    {
      hide BuddyHeap.Heap.Valid, Processes.Shape, Exact, KernelPayloads, UserBlocks, QueueWf, Find;
      ShapeGives(sched);
      p := sched.Get(pid);
      FindInTable(View().table, pid);
    }

    // ---------------------------------------------------------------- memory for user programs

    /** A user allocation changes no process and none of the kernel's own blocks. */
    method SysMalloc(size: nat) returns (ptr: int)
      requires Valid()
      modifies heap, heap.order, heap.isFree, heap.isKernel, heap.next, heap.freeLists
      ensures Valid() && View() == old(View()) && |old(heap.st).lists| == BuddySpec.ORDERS
      ensures match BuddySpec.Alloc(old(heap.st), size, false).1
              case None => ptr == NULL && UserView() == old(UserView())
              case Some(s) =>
                && ptr == s + BuddySpec.HEADER && s !in old(UserView()) && s in UserView() && !UserView()[s].kernel
                && UserView() == old(UserView())[s := UserView()[s]]
    {
      hide BuddyHeap.Heap.Valid, BuddySpec.Valid, BuddySpec.Alloc, KernelPayloads, Processes.Shape, Owned, UserBlocks;
      HeapState(heap);
      UserGranted(heap.total, heap.st, size);
      GrantedIsNew(heap.total, heap.st, size);
      ptr := heap.Malloc(size);
    }

    /** A user program gives back a block it holds. */
    method SysFree(ptr: int)
      requires Valid() && (ptr != NULL ==> ptr >= BuddySpec.HEADER && ptr - BuddySpec.HEADER in UserView())
      modifies heap, heap.order, heap.isFree, heap.isKernel, heap.next, heap.freeLists
      ensures Valid() && View() == old(View())
      ensures UserView() == if ptr == NULL then old(UserView()) else old(UserView()) - {ptr - BuddySpec.HEADER}
    {
      hide BuddyHeap.Heap.Valid, BuddySpec.Valid, BuddySpec.Release, KernelPayloads, Processes.Shape, Owned, UserBlocks;
      HeapState(heap);
      if ptr != NULL {
        UserIsHeld(heap.total, heap.st, ptr - BuddySpec.HEADER);
        UserReleased(heap.total, heap.st, ptr - BuddySpec.HEADER);
      }
      heap.Free(ptr);
    }

    // ---------------------------------------------------------------- creation

    /** As Valid, but the kernel also holds the blocks in `extra`, which no process owns yet. */
    ghost predicate Loose(extra: multiset<int>)
      reads Objects()
    {
      && Separate() && sched.Shape() && heap.Valid()
      && Owned(sched.table[..]) + extra == multiset(KernelPayloads(heap.st.blocks))
    }

    method TakeBlock(size: nat, ghost extra: multiset<int>) returns (ptr: int)
      requires Loose(extra) && |heap.st.lists| == BuddySpec.ORDERS
      modifies heap, heap.order, heap.isFree, heap.isKernel, heap.next, heap.freeLists
      ensures heap.st == BuddySpec.Alloc(old(heap.st), size, true).0 && |heap.st.lists| == BuddySpec.ORDERS
      ensures ptr == NULL || ptr >= BuddySpec.HEADER
      ensures ptr == NULL <==> BuddySpec.Alloc(old(heap.st), size, true).1.None?
      ensures Loose(if ptr == NULL then extra else extra + multiset{ptr})
      ensures UserView() == old(UserView()) && View() == old(View())
    {
      hide BuddyHeap.Heap.Valid, BuddySpec.Valid, BuddySpec.Alloc, KernelPayloads, UserBlocks, Processes.Shape, Owned;
      HeapState(heap);
      KernelGranted(heap.total, heap.st, size);
      ptr := heap.MallocKernel(size);
      HeapState(heap);
    }

    method DropBlock(ptr: int, ghost extra: multiset<int>)
      requires Loose(extra + multiset{ptr})
      modifies heap, heap.order, heap.isFree, heap.isKernel, heap.next, heap.freeLists
      ensures Loose(extra)
      ensures UserView() == old(UserView()) && View() == old(View())
    {
      hide BuddyHeap.Heap.Valid, BuddySpec.Valid, BuddySpec.Release, KernelPayloads, UserBlocks, Processes.Shape, Owned;
      HeapState(heap);
      LooseIsHeld(sched.table[..], extra, heap.st, heap.total, ptr);
      KernelReleased(heap.total, heap.st, ptr - BuddySpec.HEADER);
      heap.Free(ptr);
    }

    lemma LooseIsValid()
      ensures Valid() <==> Loose(multiset{})
      ensures Valid() ==> |heap.st.lists| == BuddySpec.ORDERS
    {
      hide BuddyHeap.Heap.Valid, BuddySpec.Valid, Processes.Shape, KernelPayloads, Owned;
      LooseIsExact(sched.table[..], heap.st.blocks);
      if Valid() { HeapState(heap); }
    }

    /** The first free slot; null if the table is full. */
    method NextFree() returns (slot: int)
      requires Valid()
      ensures Valid() && View() == old(View()) && UserView() == old(UserView()) && slot == FreeSlot(View().table, 0)
      ensures slot == NULL || (0 <= slot < sched.table.Length == MAX_PROCESSES && sched.table[slot].state == FREE)
      ensures QueueWf(View()) && SlotsOk(View()) && heap.st == old(heap.st) && |heap.st.lists| == BuddySpec.ORDERS
    {
      hide BuddyHeap.Heap.Valid, Processes.Shape, Exact, KernelPayloads, UserBlocks, QueueWf, FreeSlot;
      ShapeGives(sched);
      HeapState(heap);
      slot := sched.FirstFree();
      FreeSlotInTable(View().table);
    }

    /** Allocate a slot, a stack and, if there are arguments, a copy of them; -1 when any of these runs out. */
    method ProcessCreate(fg: nat, argvBytes: nat) returns (pid: int)
      requires Valid() && forall x <- View().queue :: View().table[x].state != FREE
      modifies Objects()
      ensures Valid() && UserView() == old(UserView()) && forceSwitch == old(forceSwitch)
      ensures pid == -1 ==> OnlyFreeStacks(old(View()), View())
      ensures pid != -1 ==>
                var s, slot := old(View()), FreeSlot(old(View()).table, 0);
                && slot != NULL && pid == s.nextPid + 1
                && exists stack, argv :: View() == Create(s, slot, fg, stack, argv)
      ensures |old(heap.st).lists| == BuddySpec.ORDERS
      ensures pid == -1 <==> FreeSlot(old(View()).table, 0) == NULL || !Affordable(old(heap.st), argvBytes)
      ensures pid != -1 && argvBytes == 0 ==> heap.st == BuddySpec.Alloc(old(heap.st), STACK_SIZE, true).0
    {
      hide Kernel.Valid, Kernel.Loose, Kernel.UserView, Create, QueueWf, FreeSlot;
      ghost var s := View();
      var slot := NextFree();
      if slot < 0 {
        return -1;
      }
      LooseIsValid();
      var stack := TakeBlock(STACK_SIZE, multiset{});
      assert multiset{} + multiset{stack} == multiset{stack};
      SetFree(slot, sched.table[slot].(stack := stack), if stack == NULL then multiset{} else multiset{stack});
      if stack == NULL {
        LooseIsValid();
        return -1;
      }
      var ok, argv := CopyArguments(stack, argvBytes);
      if !ok {
        LooseIsValid();
        return -1;
      }
      CreateForgets(s, slot, View().table[slot], fg, stack, argv);
      pid := Fill(slot, fg, stack, argv);
    }

    /** Allocate room for the arguments, if there are any; when it runs out, give the stack back. */
    method CopyArguments(stack: int, argvBytes: nat) returns (ok: bool, argv: int)
      requires Loose(multiset{stack}) && |heap.st.lists| == BuddySpec.ORDERS
      modifies heap, heap.order, heap.isFree, heap.isKernel, heap.next, heap.freeLists
      ensures UserView() == old(UserView()) && View() == old(View())
      ensures ok <==> argvBytes == 0 || BuddySpec.Alloc(old(heap.st), argvBytes, true).1.Some?
      ensures argvBytes == 0 ==> heap.st == old(heap.st) && argv == NULL
      ensures Loose(if !ok then multiset{} else if argv == NULL then multiset{stack} else multiset{stack} + multiset{argv})
    {
      hide Loose, BuddySpec.Alloc, UserBlocks;
      argv := NULL;
      if argvBytes > 0 {
        argv := TakeBlock(argvBytes, multiset{stack});
        if argv == NULL {
          assert multiset{} + multiset{stack} == multiset{stack};
          DropBlock(stack, multiset{});
          return false, NULL;
        }
      }
      ok := true;
    }

    /** Change a free entry, which owns nothing. */
    method SetFree(p: nat, q: PCB, ghost extra: multiset<int>)
      requires Loose(extra) && p < MAX_PROCESSES && sched.table[p].state == FREE && q.state == FREE
      modifies sched.table
      ensures Loose(extra) && UserView() == old(UserView())
      ensures View() == old(View()).(table := old(View()).table[p := q])
    {
      hide BuddyHeap.Heap.Valid, Processes.Shape, KernelPayloads, UserBlocks, Owned;
      ShapeGives(sched);
      ghost var t := sched.table[..];
      OwnedUpdate(t, p, q);
      CancelEqual(Owned(t[p := q]), multiset{}, Owned(t));
      sched.SetEntry(p, q);
    }

    /** Fill in a free entry, which takes over the blocks nobody owned. */
    method Adopt(p: nat, q: PCB)
      requires Loose(Own(q)) && p < MAX_PROCESSES && sched.table[p].state == FREE
      modifies sched.table
      ensures Valid() && UserView() == old(UserView())
      ensures View() == old(View()).(table := old(View()).table[p := q])
    {
      hide BuddyHeap.Heap.Valid, Processes.Shape, KernelPayloads, UserBlocks, Owned;
      ShapeGives(sched);
      ghost var t := sched.table[..];
      OwnedUpdate(t, p, q);
      CancelEqual(Owned(t[p := q]), multiset{}, Owned(t) + Own(q));
      sched.SetEntry(p, q);
    }

    /** Fill in the process control block and queue the process. */
    method Fill(slot: nat, fg: nat, stack: int, argv: int) returns (pid: int)
      requires stack != NULL && Loose(if argv == NULL then multiset{stack} else multiset{stack} + multiset{argv})
      requires slot < MAX_PROCESSES && sched.table[slot].state == FREE
      requires slot !in View().queue
      modifies sched, sched.table, sched.runQueue
      ensures Valid() && UserView() == old(UserView())
      ensures View() == Create(old(View()), slot, fg, stack, argv) && pid == old(View()).nextPid + 1
    {
      hide BuddyHeap.Heap.Valid, Processes.Shape, KernelPayloads, UserBlocks, Exact, Owned, Add, QueueWf;
      ShapeGives(sched);
      var parent := if sched.current == NULL then 0 else sched.table[sched.current].pid;
      Adopt(slot, PCB(sched.nextPid + 1, DEFAULT_PRIORITY, DEFAULT_PRIORITY, 0, if (fg / 2) % 2 == 1 then BLOCKED else READY,
                      fg, parent, 0, stack, argv, 0, 0));
      sched.BumpPid();
      ShapeGives(sched);
      ProcessLaws.AddOnlyQueue(View(), slot);
      sched.AddProcess(slot);
      pid := sched.nextPid;
    }
  }

  /** The heap has room for a stack and then, if there are arguments, for their copy. */
  predicate Affordable(st: BuddySpec.State, argvBytes: nat)
    requires |st.lists| == BuddySpec.ORDERS
  {
    var (st', r) := BuddySpec.Alloc(st, STACK_SIZE, true);
    r.Some? && (argvBytes > 0 ==> |st'.lists| == BuddySpec.ORDERS && BuddySpec.Alloc(st', argvBytes, true).1.Some?)
  }

  lemma CreateForgets(s: System, slot: nat, q: PCB, fg: nat, stack: int, argv: int)
    requires QueueWf(s) && SlotsOk(s) && slot < |s.table| && q.pid == s.table[slot].pid
    ensures var s1 := s.(table := s.table[slot := q]);
            && QueueWf(s1) && Create(s1, slot, fg, stack, argv) == Create(s, slot, fg, stack, argv)
  {
    hide Add, Distinct;
    assert s.table[slot := q][slot := NewProcess(s, fg, stack, argv)] == s.table[slot := NewProcess(s, fg, stack, argv)];
  }

  lemma GrantedIsNew(total: nat, st: BuddySpec.State, size: nat)
    requires BuddySpec.Valid(total, st)
    ensures var r := BuddySpec.Alloc(st, size, false).1; r.Some? ==> r.value !in UserBlocks(st.blocks)
  {
    hide BuddySpec.Alloc, BuddySpec.Tiling, BuddySpec.NoFreeSiblings;
    if BuddySpec.Alloc(st, size, false).1.Some? {
      BuddyHeap.BuddyLaws.AllocGrants(total, st, size, false);
      var s := BuddySpec.Alloc(st, size, false).1.value;
      assert s !in BuddySpec.Live(st.blocks);
    }
  }

  lemma UserIsHeld(total: nat, st: BuddySpec.State, s: nat)
    requires BuddySpec.Valid(total, st) && s in UserBlocks(st.blocks)
    ensures BuddySpec.Held(st, s) && !st.blocks[s].kernel
  {
  }

  /** Failing to create a process changes nothing but the stale stack field of a free slot. */
  ghost predicate OnlyFreeStacks(s: System, r: System) {
    && r == s.(table := r.table) && |r.table| == |s.table|
    && forall i :: 0 <= i < |s.table| ==>
         r.table[i] == s.table[i] || (s.table[i].state == FREE && r.table[i] == s.table[i].(stack := r.table[i].stack))
  }

  lemma FreeSlotInTable(table: seq<PCB>)
    ensures var r := FreeSlot(table, 0); r == NULL || (0 <= r < |table| && table[r].state == FREE)
  {
  }

  lemma LooseIsExact(t: seq<PCB>, m: BuddySpec.Blocks)
    ensures Exact(t, m) <==> Owned(t) + multiset{} == multiset(KernelPayloads(m))
  {
  }

  lemma LooseIsHeld(t: seq<PCB>, extra: multiset<int>, st: BuddySpec.State, total: nat, ptr: int)
    requires Owned(t) + (extra + multiset{ptr}) == multiset(KernelPayloads(st.blocks)) && BuddySpec.Valid(total, st)
    ensures ptr >= BuddySpec.HEADER && BuddySpec.Held(st, ptr - BuddySpec.HEADER) && st.blocks[ptr - BuddySpec.HEADER].kernel
    ensures Owned(t) + extra == multiset(KernelPayloads(st.blocks)) - multiset{ptr}
  {
    hide Owned, KernelPayloads;
    assert ptr in Owned(t) + (extra + multiset{ptr});
    assert ptr in KernelPayloads(st.blocks);
    forall x ensures (Owned(t) + extra)[x] == (multiset(KernelPayloads(st.blocks)) - multiset{ptr})[x] {
      assert (Owned(t) + (extra + multiset{ptr}))[x] == multiset(KernelPayloads(st.blocks))[x];
    }
  }

  lemma {:induction false} EmptyOwns(n: nat)
    ensures Owned(seq(n, _ => NoProcess())) == multiset{}
  {
    if n > 0 {
      assert seq(n, _ => NoProcess())[1..] == seq(n - 1, _ => NoProcess());
      EmptyOwns(n - 1);
    }
  }

  lemma NothingOwned(n: nat, memory: nat)
    requires BuddyHeap.BuddyLaws.HeapSize(memory)
    ensures Exact(seq(n, _ => NoProcess()), BuddySpec.Initial(memory).blocks)
  {
    EmptyOwns(n);
    BuddyHeap.BuddyLaws.InitialDecomposed(memory);
    LiveDecides(BuddySpec.Initial(memory).blocks, map[]);
  }

  /** Whoever is chosen, if anyone, is ready to run. */
  ghost predicate NextCanRun(s: System) {
    && QueueWf(s) && SlotsOk(s)
    && var c := NextReady(s).0; c == NULL || (0 <= c < |s.table| && s.table[c].state == READY)
  }

  /** If the timer ends the running process's turn, whoever is chosen is ready to run. */
  ghost predicate TickCanRun(s: System) {
    QueueWf(s) && SlotsOk(s) && (Charge(Age(s)).1 ==> NextCanRun(Charge(Age(s)).0))
  }

  lemma ReapedTable(s: System, p: nat)
    requires QueueWf(s) && p < |s.table|
    ensures Reap(s, p).table == s.table[p := Freed(s.table[p])]
  {
  }

  lemma FindInTable(table: seq<PCB>, pid: nat)
    ensures var p := Find(table, pid); p == NULL || (0 <= p < |table| && table[p].state != FREE && table[p].pid == pid)
  {
  }

  lemma AgeOwns(s: System)
    ensures forall i :: 0 <= i < |s.table| ==> Own(Age(s).table[i]) == Own(s.table[i])
  {
  }

  lemma SameOwners(t: seq<PCB>, u: seq<PCB>, m: BuddySpec.Blocks)
    requires Exact(t, m) && |u| == |t| && forall i :: 0 <= i < |t| ==> Own(u[i]) == Own(t[i])
    ensures Exact(u, m)
  {
    OwnedSame(t, u);
  }

  lemma UnblockNone(s: System)
    requires SlotsOk(s)
    ensures UnblockAll(s, []) == (s, false)
  {
  }

  lemma UnblockMore(s: System, pids: seq<nat>, n: nat)
    requires SlotsOk(s) && n < |pids|
    ensures var (r, switch) := UnblockAll(s, pids[..n]); var (t, again) := Unblock(r, pids[n]);
            UnblockAll(s, pids[..n + 1]) == (t, switch || again)
  {
    assert pids[..n + 1][..n] == pids[..n];
  }

  lemma {:induction false} UnblockAllKeepsLive(s: System, pids: seq<nat>, c: nat)
    requires SlotsOk(s) && c < |s.table| && s.table[c].state != FREE
    ensures UnblockAll(s, pids).0.table[c].state != FREE
  {
    if pids != [] { UnblockAllKeepsLive(s, pids[..|pids| - 1], c); }
  }

  lemma WakeKeepsOwn(s: System, c: nat, value: int)
    requires c < |s.table| && s.table[c].state != FREE
    ensures WakeParent(s, c, value).table[c].state != FREE
  {
  }

  lemma HeapState(heap: BuddyHeap.Heap)
    requires heap.Valid()
    ensures BuddySpec.Valid(heap.total, heap.st) && |heap.st.lists| == BuddySpec.ORDERS
  {
  }

  lemma ShapeGives(sched: Processes)
    requires sched.Shape()
    ensures sched.table.Length == MAX_PROCESSES && QueueWf(sched.View()) && SlotsOk(sched.View())
    ensures sched.View().table == sched.table[..]
  {
  }
}
