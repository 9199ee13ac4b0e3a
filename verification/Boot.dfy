/** From empty tables to the first kernel entry: the idle process, the shell, and the first switch. */
module Boot {
  import opened Basics
  import opened RunQueue
  import opened ProcessSpec
  import opened Bits
  import ProcessMemory
  import Turns
  import opened Kernel
  import Syscalls
  import BuddySpec
  import BuddyLaws

  const HEAP_SIZE := 0x80_0000

  /** The empty process table, and what it becomes step by step. */
  function Empty(): System {
    System(seq(MAX_PROCESSES, _ => NoProcess()), [], 0, NULL, NULL, 0)
  }

  /** Idle is outside the queue, has the lowest priority and a turn of one tick. */
  ghost predicate IdleOnly(s: System) {
    && |s.table| == MAX_PROCESSES && s.queue == [] && s.cursor == 0 && s.idle == 0 && s.current == NULL && s.nextPid == 1
    && s.table[0].state == READY && s.table[0].pid == 1 && s.table[0].parent == 0 && s.table[0].waitingFor == 0
    && s.table[0].priority == MIN_PRIORITY && s.table[0].quanta == 1
    && forall i :: 1 <= i < MAX_PROCESSES ==> s.table[i] == NoProcess()
  }

  function AsIdle(p: PCB): PCB {
    p.(priority := MIN_PRIORITY, quanta := 1)
  }

  lemma EmptySlots()
    ensures QueueWf(Empty()) && SlotsOk(Empty()) && FreeSlot(Empty().table, 0) == 0
  {
  }

  lemma IdleMade(stack: int, argv: int)
    ensures QueueWf(Empty()) && SlotsOk(Empty())
    ensures var s := Create(Empty(), 0, 0, stack, argv);
            && |s.table| == MAX_PROCESSES && Find(s.table, 1) == 0 && s.nextPid == 1 && s.current == NULL
            && s.queue == [0] && s.cursor == 0 && s.table[0] == PCB(1, 3, 3, 0, READY, 0, 0, 0, stack, argv, 0, 0)
            && (forall i :: 1 <= i < MAX_PROCESSES ==> s.table[i] == NoProcess())
  {
    var s := Create(Empty(), 0, 0, stack, argv);
    assert FindFrom(s.table, 1, 0) == 0;
    assert s.queue == Inserted([], 0, 0);
  }

  lemma IdleSet(stack: int, argv: int)
    ensures QueueWf(Empty()) && SlotsOk(Empty())
    ensures var s := Create(Empty(), 0, 0, stack, argv);
            var t := s.(table := s.table[0 := AsIdle(s.table[0])], idle := 0);
            QueueWf(t) && IdleOnly(Remove(t, 0))
  {
    hide Create;
    IdleMade(stack, argv);
    var s := Create(Empty(), 0, 0, stack, argv);
    var t := s.(table := s.table[0 := AsIdle(s.table[0])], idle := 0);
    assert IndexOf(t.queue, 0, 0) == 0;
    assert Deleted(t.queue, 0) == [];
  }

  /** The shell runs in the foreground. */
  ghost predicate ShellQueued(s: System) {
    && |s.table| == MAX_PROCESSES && s.queue == [1] && s.cursor == 0 && s.idle == 0 && s.current == NULL && s.nextPid == 2
    && s.table[0].state == READY && s.table[0].pid == 1 && s.table[0].parent == 0 && s.table[0].waitingFor == 0
    && s.table[0].priority == s.table[0].quanta == MIN_PRIORITY && s.table[1].foreground == 1
    && s.table[1].priority == s.table[1].quanta == DEFAULT_PRIORITY
    && s.table[1].state == READY && s.table[1].pid == 2 && s.table[1].parent == 0 && s.table[1].waitingFor == 0
    && forall i :: 2 <= i < MAX_PROCESSES ==> s.table[i] == NoProcess()
  }

  lemma ShellMade(s: System, stack: int, argv: int)
    requires IdleOnly(s)
    ensures QueueWf(s) && SlotsOk(s) && FreeSlot(s.table, 0) == 1
    ensures ShellQueued(Create(s, 1, 1, stack, argv))
  {
    assert FreeSlot(s.table, 1) == 1;
    assert Create(s, 1, 1, stack, argv).queue == Inserted([], 0, 1);
  }

  /** What start-up leaves: the shell runs, idle is ready, and there is nobody else. */
  ghost predicate Booted(s: System) {
    && Settled(s) && Turns.FullTurns(s) && s.queue == [1] && s.idle == 0 && s.current == 1 && s.nextPid == 2
    && s.table[0].state == READY && s.table[0].pid == 1 && s.table[0].priority == MIN_PRIORITY
    && s.table[1].state == RUNNING && s.table[1].pid == 2 && s.table[1].foreground == 1
    && s.table[1].priority == s.table[1].quanta == DEFAULT_PRIORITY
    && s.table[0].parent == s.table[1].parent == 0
    && forall i :: 2 <= i < MAX_PROCESSES ==> s.table[i] == NoProcess()
  }

  /** The shell is chosen, and what holds between kernel entries holds. */
  lemma Started(s: System)
    requires ShellQueued(s)
    ensures NextCanRun(s) && NextReady(s) == (1, 0)
    ensures Booted(s.(table := s.table[1 := s.table[1].(state := RUNNING)], current := 1))
  {
    assert QueueWf(s);
    var e := ChoiceIsFirstBest(s);
    assert s.table[s.queue[0]].state == READY;
  }

  /** The live blocks when one process has been created without arguments. */
  function OneStack(s: nat): BuddySpec.Blocks {
    map[s := BuddySpec.Used(13, true)]
  }

  /** At most one stack is allocated. */
  ghost predicate Roomy(st: BuddySpec.State) {
    && BuddySpec.Valid(HEAP_SIZE, st)
    && (BuddySpec.Live(st.blocks) == map[] || exists s :: BuddySpec.Live(st.blocks) == OneStack(s))
  }

  /** A fresh heap of this size has room for the first stack and, after it, for the second. */
  lemma RoomForTwo(st: BuddySpec.State)
    requires Roomy(st)
    ensures |st.lists| == BuddySpec.ORDERS
    ensures var (st', r) := BuddySpec.Alloc(st, STACK_SIZE, true);
            r.Some? && (BuddySpec.Live(st.blocks) == map[] ==> Roomy(st'))
  {
    hide BuddySpec.Alloc, BuddySpec.Tiling, BuddySpec.NoFreeSiblings, BuddyLaws.FreeRun;
    StackOrder();
    FreeRunLeft(st);
    BuddyLaws.AllocFailsIffNoRun(HEAP_SIZE, st, STACK_SIZE, true);
    BuddyLaws.AllocGrants(HEAP_SIZE, st, STACK_SIZE, true);
    var (st', r) := BuddySpec.Alloc(st, STACK_SIZE, true);
    assert BuddySpec.Live(st.blocks) == map[] ==> BuddySpec.Live(st'.blocks) == OneStack(r.value);
  }

  lemma StackOrder()
    ensures BuddySpec.OrderFrom(STACK_SIZE + BuddySpec.HEADER, BuddySpec.MIN_ORDER) == 13
    ensures Pow2(13) == 8192
  {
    hide BuddySpec.OrderFrom, Pow2;
    BuddyLaws.OrderIsLeast(STACK_SIZE + BuddySpec.HEADER, BuddySpec.MIN_ORDER);
    StackPowers();
    Pow2Monotone(13, BuddySpec.MAX_ORDER);
    var r := BuddySpec.OrderFrom(STACK_SIZE + BuddySpec.HEADER, BuddySpec.MIN_ORDER);
    if r > 13 { Pow2Monotone(13, r - 1); }
    if 0 <= r < 13 { Pow2Monotone(r, 12); }
  }

  lemma StackPowers()
    ensures Pow2(12) == 4096 && Pow2(13) == 8192
  {
  }

  lemma FreeRunLeft(st: BuddySpec.State)
    requires Roomy(st)
    ensures BuddyLaws.HasRun(HEAP_SIZE, BuddySpec.Live(st.blocks), 13)
  {
    StackOrder();
    var live := BuddySpec.Live(st.blocks);
    if live == map[] {
      assert BuddyLaws.FreeRun(HEAP_SIZE, live, 0, 13);
    } else {
      var s :| live == OneStack(s);
      assert s in live;
      var t: nat := if s >= 8192 then 0 else 16384;
      assert BuddyLaws.FreeRun(HEAP_SIZE, live, t, 13);
    }
  }

  /** The kernel on an empty table. */
  method Fresh() returns (k: Kernel)
    ensures fresh(k.Objects()) && k.Valid() && !k.forceSwitch && k.View() == Empty() && k.UserView() == map[]
    ensures k.heap.total == HEAP_SIZE && BuddySpec.Valid(HEAP_SIZE, k.heap.st) && BuddySpec.Live(k.heap.st.blocks) == map[]
  {
    hide Kernel.Valid, BuddySpec.Valid, BuddySpec.Initial, BuddyLaws.Decomposed;
    HeapSizeOk();
    BuddyLaws.InitialDecomposed(HEAP_SIZE);
    BuddyLaws.InitialValid(HEAP_SIZE);
    k := new Kernel(HEAP_SIZE);
    NoUsers(k.heap.st.blocks);
  }

  lemma HeapSizeOk()
    ensures BuddyLaws.HeapSize(HEAP_SIZE)
  {
    assert Pow2(14) == 16384;
    assert Pow2(24) == 16777216;
  }

  lemma NoUsers(m: BuddySpec.Blocks)
    requires BuddySpec.Live(m) == map[]
    ensures ProcessMemory.UserBlocks(m) == map[]
  {
    forall s ensures s !in ProcessMemory.UserBlocks(m) {
      assert s in ProcessMemory.UserBlocks(m) ==> s in BuddySpec.Live(m);
    }
  }

  /** Create a process with no arguments, for which there is a slot and room. */
  method Spawn(k: Kernel, fg: nat, ghost slot: nat) returns (pid: int, ghost stack: int, ghost argv: int)
    requires k.Valid() && !k.forceSwitch && forall x <- k.View().queue :: k.View().table[x].state != FREE
    requires k.heap.total == HEAP_SIZE && Roomy(k.heap.st)
    requires FreeSlot(k.View().table, 0) == slot
    modifies k.Objects()
    ensures k.Valid() && !k.forceSwitch && k.UserView() == old(k.UserView())
    ensures QueueWf(old(k.View())) && SlotsOk(old(k.View())) && slot < |old(k.View()).table|
    ensures pid == old(k.View()).nextPid + 1 && k.View() == Create(old(k.View()), slot, fg, stack, argv)
    ensures BuddySpec.Live(old(k.heap.st.blocks)) == map[] ==> Roomy(k.heap.st)
  {
    hide Kernel.Valid, QueueWf, Create, FreeSlot, Roomy, BuddySpec.Alloc, BuddySpec.Live, Bits.Pow2, Find;
    k.Shaped();
    FreeSlotInTable(k.View().table);
    RoomForTwo(k.heap.st);
    ghost var s := k.View();
    pid := k.ProcessCreate(fg, 0);
    stack, argv :| k.View() == Create(s, slot, fg, stack, argv);
  }

  /** Make the process in slot p the fallback of the scheduler. */
  method RegisterIdle(k: Kernel, p: nat)
    requires k.Valid() && p < MAX_PROCESSES
    modifies k.sched, k.sched.table, k.sched.runQueue
    ensures k.Valid() && k.UserView() == old(k.UserView())
    ensures p < |old(k.View()).table| && QueueWf(old(k.View()))
    ensures var s := old(k.View()); var t := s.(table := s.table[p := AsIdle(s.table[p])], idle := p);
            QueueWf(t) && k.View() == Remove(t, p)
  {
    hide Kernel.Valid, QueueWf, Remove, ProcessMemory.Own;
    k.Shaped();
    OwnSame(k.sched.table[p]);
    k.Put(p, k.sched.table[p].(priority := MIN_PRIORITY, quanta := 1));
    k.SetIdle(p);
    k.Shaped();
    k.Dequeue(p);
  }

  lemma OwnSame(p: PCB)
    ensures ProcessMemory.Own(AsIdle(p)) == ProcessMemory.Own(p)
  {
  }

  /** Set up the kernel: idle becomes the fallback, outside the queue; the shell is created and runs first. */
  method Initialize() returns (k: Kernel)
    ensures Syscalls.Ready(k) && k.UserView() == map[] && Booted(k.View())
  {
    hide Kernel.Valid, Settled, QueueWf, Create, Remove, NextReady, NextCanRun, FreeSlot, Find, Turns.FullTurns;
    hide BuddySpec.Valid, BuddySpec.Live, OneStack;
    k := Fresh();
    EmptySlots();
    var idlePid, stack, argv := Spawn(k, 0, 0);
    IdleMade(stack, argv);
    IdleSet(stack, argv);
    var idle := k.Lookup(idlePid);
    if idle != NULL {
      RegisterIdle(k, idle);
    }
    ghost var s := k.View();
    ShellMade(s, 0, 0);
    var pid, stack2, argv2 := Spawn(k, 1, 1);
    ShellMade(s, stack2, argv2);
    Started(k.View());
    k.Start();
  }
}
