/** The semaphore table in memory. */
module Semaphores {
  import opened Basics
  import opened SemaphoreSpec
  import PidQueue

  class Semaphore {
    var name: string
    var value: int
    var openCount: nat
    const waitQueue: PidQueue.Queue

    ghost predicate Valid()
      reads this, waitQueue
    {
      waitQueue.Valid()
    }

    ghost function View(): Sem
      reads this, waitQueue, waitQueue.data
      requires Valid()
    {
      Sem(name, value, waitQueue.Contents(), openCount)
    }

    constructor ()
      ensures Valid() && View() == Sem("", 0, [], 0)
      ensures fresh(waitQueue) && fresh(waitQueue.data)
    {
      name, value, openCount := "", 0, 0;
      waitQueue := new PidQueue.Queue();
    }

    /** Take the slot for a new semaphore. */
    method Create(newName: string, initial: nat)
      requires Valid()
      modifies this, waitQueue
      ensures Valid() && View() == Sem(Stored(newName, NAME_LEN), AsInt64(initial), [], 1)
    {
      name := if |newName| < NAME_LEN then newName else newName[..NAME_LEN - 1];
      value := AsInt64(initial);
      openCount := 1;
      waitQueue.Clear();
    }

    /** Give back one reference; the last one frees the slot. */
    method Release()
      requires Valid() && openCount > 0
      modifies this, waitQueue
      ensures Valid()
      ensures var m := old(View());
              View() == if m.opens - 1 == 0 then m.(opens := 0, name := "", queue := []) else m.(opens := m.opens - 1)
    {
      openCount := openCount - 1;
      if openCount <= 0 {
        openCount := 0;
        name := "";
        waitQueue.Clear();
      }
    }
  }

  class SemTable {
    const table: seq<Semaphore>
    var procs: Procs
    ghost const Repr: set<object>

    ghost predicate Apart(i: nat, j: nat)
      requires i < |table| && j < |table|
    {
      table[i] != table[j] && table[i].waitQueue != table[j].waitQueue && table[i].waitQueue.data != table[j].waitQueue.data
    }

    ghost predicate Valid()
      reads Repr
    {
      && |table| == MAX_SEMS && this !in Repr
      && (forall i :: 0 <= i < |table| ==>
            {table[i], table[i].waitQueue, table[i].waitQueue.data} <= Repr && table[i].Valid())
      && (forall i, j :: 0 <= i < |table| && 0 <= j < |table| && i != j ==> Apart(i, j))
    }

    ghost function Sems(): (r: seq<Sem>)
      reads Repr
      requires Valid()
      ensures |r| == MAX_SEMS
    {
      seq(|table|, i requires 0 <= i < |table| reads Repr requires Valid() => table[i].View())
    }

    ghost function View(): State
      reads this, Repr
      requires Valid()
    {
      State(Sems(), procs)
    }

    /** Everything outside slot i is as it was. */
    twostate predicate Elsewhere(i: nat)
      reads this, Repr
    {
      && old(Valid()) && Valid() && procs == old(procs)
      && forall j :: 0 <= j < |table| && j != i ==> table[j].View() == old(table[j].View())
    }

    twostate lemma OneChanged(i: nat)
      requires Elsewhere(i) && i < |table|
      ensures Sems() == old(Sems())[i := table[i].View()]
    {
    }

    method SetValue(i: nat, v: int)
      requires Valid() && i < |table|
      modifies table[i]
      ensures Valid() && Sems() == old(Sems())[i := old(Sems())[i].(value := v)]
    {
      table[i].value := v;
      forall j | 0 <= j < |table| && j != i ensures table[j].View() == old(table[j].View()) { assert Apart(i, j); }
      OneChanged(i);
    }

    method SetOpens(i: nat, n: nat)
      requires Valid() && i < |table|
      modifies table[i]
      ensures Valid() && Sems() == old(Sems())[i := old(Sems())[i].(opens := n)]
    {
      table[i].openCount := n;
      forall j | 0 <= j < |table| && j != i ensures table[j].View() == old(table[j].View()) { assert Apart(i, j); }
      OneChanged(i);
    }

    method PushWaiter(i: nat, pid: nat)
      requires Valid() && i < |table|
      modifies table[i].waitQueue, table[i].waitQueue.data
      ensures Valid()
      ensures Sems() == old(Sems())[i := old(Sems())[i].(queue := PidQueue.Enqueue(old(Sems())[i].queue, pid))]
    {
      table[i].waitQueue.Push(pid);
      forall j | 0 <= j < |table| && j != i ensures table[j].View() == old(table[j].View()) { assert Apart(i, j); }
      OneChanged(i);
    }

    method PopWaiter(i: nat) returns (pid: nat)
      requires Valid() && i < |table| && Sems()[i].queue != []
      modifies table[i].waitQueue
      ensures Valid() && pid == old(Sems())[i].queue[0]
      ensures Sems() == old(Sems())[i := old(Sems())[i].(queue := old(Sems())[i].queue[1..])]
    {
      pid := table[i].waitQueue.Pop();
      forall j | 0 <= j < |table| && j != i ensures table[j].View() == old(table[j].View()) { assert Apart(i, j); }
      OneChanged(i);
    }

    method RemoveWaiter(i: nat, pid: nat) returns (found: bool)
      requires Valid() && i < |table|
      modifies table[i].waitQueue, table[i].waitQueue.data
      ensures Valid() && found == (pid in old(Sems())[i].queue)
      ensures Sems() == old(Sems())[i := old(Sems())[i].(queue := PidQueue.Removed(old(Sems())[i].queue, pid))]
    {
      found := table[i].waitQueue.Remove(pid);
      forall j | 0 <= j < |table| && j != i ensures table[j].View() == old(table[j].View()) { assert Apart(i, j); }
      OneChanged(i);
    }

    method CreateAt(i: nat, name: string, initial: nat)
      requires Valid() && i < |table|
      modifies table[i], table[i].waitQueue
      ensures Valid() && Sems() == old(Sems())[i := Sem(Stored(name, NAME_LEN), AsInt64(initial), [], 1)]
    {
      table[i].Create(name, initial);
      forall j | 0 <= j < |table| && j != i ensures table[j].View() == old(table[j].View()) { assert Apart(i, j); }
      OneChanged(i);
    }

    method ReleaseAt(i: nat)
      requires Valid() && i < |table| && Sems()[i].opens > 0
      modifies table[i], table[i].waitQueue
      ensures Valid()
      ensures var m := old(Sems())[i];
              Sems() == old(Sems())[i := if m.opens - 1 == 0 then m.(opens := 0, name := "", queue := [])
                                         else m.(opens := m.opens - 1)]
    {
      table[i].Release();
      forall j | 0 <= j < |table| && j != i ensures table[j].View() == old(table[j].View()) { assert Apart(i, j); }
      OneChanged(i);
    }

    method SetProcs(now: Procs)
      requires Valid()
      modifies `procs
      ensures Valid() && View() == State(old(Sems()), now)
    {
      procs := now;
    }

    lemma Slot(i: nat)
      requires Valid() && i < MAX_SEMS
      ensures |table| == MAX_SEMS && table[i] in Repr
      ensures table[i].openCount == Sems()[i].opens && table[i].value == Sems()[i].value
    {
      assert Sems()[i] == table[i].View();
    }

    // ---------------------------------------------------------------- the calls

    constructor ()
      ensures Valid() && View() == State(seq(MAX_SEMS, _ => Sem("", 0, [], 0)), map[]) && fresh(Repr)
    {
      procs := map[];
      var slots: seq<Semaphore>;
      ghost var repr;
      slots, repr := EmptySlots();
      table := slots;
      Repr := repr;
    }

    static method EmptySlots() returns (slots: seq<Semaphore>, ghost repr: set<object>)
      ensures |slots| == MAX_SEMS && fresh(repr)
      ensures forall i :: 0 <= i < |slots| ==>
                && {slots[i], slots[i].waitQueue, slots[i].waitQueue.data} <= repr
                && slots[i].Valid() && slots[i].View() == Sem("", 0, [], 0)
      ensures forall i, j :: 0 <= i < |slots| && 0 <= j < |slots| && i != j ==>
                slots[i] != slots[j] && slots[i].waitQueue != slots[j].waitQueue
                && slots[i].waitQueue.data != slots[j].waitQueue.data
    {
      slots, repr := [], {};
      while |slots| < MAX_SEMS
        invariant |slots| <= MAX_SEMS && fresh(repr)
        invariant forall i :: 0 <= i < |slots| ==>
                    && {slots[i], slots[i].waitQueue, slots[i].waitQueue.data} <= repr
                    && slots[i].Valid() && slots[i].View() == Sem("", 0, [], 0)
        invariant forall i, j :: 0 <= i < |slots| && 0 <= j < |slots| && i != j ==>
                    slots[i] != slots[j] && slots[i].waitQueue != slots[j].waitQueue
                    && slots[i].waitQueue.data != slots[j].waitQueue.data
        decreases MAX_SEMS - |slots|
      {
        var m := new Semaphore();
        repr := repr + {m, m.waitQueue, m.waitQueue.data};
        slots := slots + [m];
      }
    }

    method FindSem(name: string) returns (i: nat)
      requires Valid()
      ensures i == Find(Sems(), name, 0)
    {
      i := 0;
      while i < MAX_SEMS
        invariant i <= MAX_SEMS && Find(Sems(), name, i) == Find(Sems(), name, 0)
      {
        assert Sems()[i] == table[i].View();
        if table[i].openCount > 0 && table[i].name == name {
          return;
        }
        i := i + 1;
      }
    }

    /** Open or create; 0 when the table is full. A null name is refused. */
    method SemOpen(cur: nat, name: Option<string>, initial: nat) returns (r: int)
      requires Valid()
      modifies this, Repr
      ensures Valid()
      ensures if name.None? then View() == old(View()) && r == 0 else (View(), r) == Open(old(View()), cur, name.value, initial)
    {
      hide Find, AsInt64, Stored, SetOpened;
      if name.None? {
        return 0;
      }
      var i := FindSem(name.value);
      if i < MAX_SEMS {
        SetOpens(i, table[i].openCount + 1);
      } else {
        i := FreeSlot();
        if i == MAX_SEMS {
          return 0;
        }
        CreateAt(i, name.value, initial);
      }
      SetProcs(SetOpened(procs, cur, i, true));
      return 1;
    }

    method FreeSlot() returns (i: nat)
      requires Valid()
      ensures i == FreeSem(Sems(), 0)
    {
      i := 0;
      while i < MAX_SEMS
        invariant i <= MAX_SEMS && FreeSem(Sems(), i) == FreeSem(Sems(), 0)
      {
        assert Sems()[i] == table[i].View();
        if table[i].openCount == 0 {
          return;
        }
        i := i + 1;
      }
    }

    /** Take one unit; with none left the caller joins the queue and blocks. */
    method SemWait(cur: nat, name: Option<string>) returns (r: int)
      requires Valid()
      modifies this, Repr
      ensures Valid()
      ensures if name.None? then View() == old(View()) && r == -1 else (View(), r) == Wait(old(View()), cur, name.value)
    {
      hide Find;
      if name.None? {
        return -1;
      }
      var i := FindSem(name.value);
      if i == MAX_SEMS {
        return -1;
      }
      assert Sems()[i] == table[i].View();
      ghost var was := Sems();
      SetValue(i, table[i].value - 1);
      assert Sems()[i] == table[i].View();
      if table[i].value < 0 {
        if cur !in procs {
          return -1;
        }
        PushWaiter(i, cur);
        assert Sems() == was[i := Sems()[i]];
        procs := SetBlocked(procs, cur, true);
      } else {
        procs := SetHeld(procs, cur, i, true);
      }
      return 0;
    }

    /** Add one unit to semaphore i, or pass it to the first process waiting. */
    method GiveBack(i: nat)
      requires Valid() && i < MAX_SEMS
      modifies this, Repr
      ensures Valid() && View() == Return(old(View()), i)
    {
      assert Sems()[i] == table[i].View();
      SetValue(i, table[i].value + 1);
      assert Sems()[i] == table[i].View();
      if table[i].value <= 0 && table[i].waitQueue.count > 0 {
        var pid := PopWaiter(i);
        procs := SetHeld(procs, pid, i, true);
        procs := SetBlocked(procs, pid, false);
      }
    }

    method SemPost(cur: nat, name: Option<string>) returns (r: int)
      requires Valid()
      modifies this, Repr
      ensures Valid()
      ensures if name.None? then View() == old(View()) && r == -1 else (View(), r) == Post(old(View()), cur, name.value)
    {
      hide Find, Return;
      if name.None? {
        return -1;
      }
      var i := FindSem(name.value);
      if i == MAX_SEMS {
        return -1;
      }
      procs := SetHeld(procs, cur, i, false);
      GiveBack(i);
      return 0;
    }

    method SemClose(cur: nat, name: Option<string>) returns (r: int)
      requires Valid()
      modifies this, Repr
      ensures Valid()
      ensures if name.None? then View() == old(View()) && r == -1 else (View(), r) == Close(old(View()), cur, name.value)
    {
      hide Find;
      if name.None? {
        return -1;
      }
      var i := FindSem(name.value);
      if i == MAX_SEMS {
        return -1;
      }
      procs := SetOpened(SetHeld(procs, cur, i, false), cur, i, false);
      ReleaseAt(i);
      return 0;
    }

    /** Take the process out of queue i and give back its reference. */
    method Leave(pid: nat, i: nat) returns (wasQueued: bool)
      requires Valid() && i < MAX_SEMS && pid in procs && Sems()[i].opens > 0
      modifies Repr
      ensures Valid() && wasQueued == (pid in old(Sems())[i].queue)
      ensures var m := old(Sems())[i];
              Sems() == old(Sems())[i := m.(queue := PidQueue.Removed(m.queue, pid),
                                            opens := if i in procs[pid].refs then m.opens - 1 else m.opens)]
    {
      ghost var was := Sems();
      wasQueued := RemoveWaiter(i, pid);
      assert Sems()[i] == table[i].View();
      if i in procs[pid].refs {
        SetOpens(i, table[i].openCount - 1);
      }
      assert Sems() == was[i := Sems()[i]];
    }

    /** What a dying process has to do with semaphore i. */
    method CleanSlot(pid: nat, i: nat)
      requires Valid() && i < MAX_SEMS && pid in procs
      modifies this, Repr
      ensures Valid() && View() == CleanOne(old(View()), pid, i)
    {
      hide Return, SetHeld, SetOpened, PidQueue.Removed, SemTable.Valid;
      Slot(i);
      if table[i].openCount == 0 {
        return;
      }
      ghost var was := Sems();
      var held := i in procs[pid].held;
      var wasQueued := Leave(pid, i);
      SetProcs(SetOpened(procs, pid, i, false));
      Slot(i);
      if wasQueued {
        SetValue(i, table[i].value + 1);
        SetProcs(SetHeld(procs, pid, i, false));
        SetTwice(was, i, was[i].(queue := PidQueue.Removed(was[i].queue, pid), opens := Sems()[i].opens), Sems()[i]);
      } else if held {
        SetProcs(SetHeld(procs, pid, i, false));
        GiveBack(i);
      }
    }

    /** Undo what a dying process has open, holds or waits for. */
    method SemCleanup(pid: nat)
      requires Valid()
      modifies this, Repr
      ensures Valid() && View() == Cleanup(old(View()), pid)
    {
      hide CleanOne;
      if pid !in procs {
        return;
      }
      var i := 0;
      while i < MAX_SEMS
        invariant 0 <= i <= MAX_SEMS && Valid() && pid in procs
        invariant CleanFrom(View(), pid, i) == CleanFrom(old(View()), pid, 0)
      {
        CleanSlot(pid, i);
        i := i + 1;
      }
      procs := procs[pid := procs[pid].(held := {}, refs := {})];
    }
  }

  lemma SetTwice(sems: seq<Sem>, i: nat, a: Sem, b: Sem)
    requires i < |sems|
    ensures sems[i := a][i := b] == sems[i := b]
  {
  }
}
