/** Whole runs of the process table: every kernel entry, with its pending switch, as one event. */
module ProcessRuns {
  import opened RunQueue
  import opened ProcessSpec
  import opened ProcessLaws

  /** `woken` are the processes that wake up because an end of a pipe is opened or closed, or because a semaphore gets a
      unit back: in a call that does just that, or when a process dies. */
  datatype Event =
    | TimerTick
    | SysYield
    | SysCreate(fg: nat, stack: int, argv: int)
    | SysExit(retval: int, woken: seq<nat>)
    | SysKill(pid: nat, woken: seq<nat>)
    | SysBlock(pid: nat)
    | SysUnblock(pid: nat)
    | SysWake(woken: seq<nat>)
    | SysNice(pid: nat, priority: nat)
    | SysWaitPid(pid: nat)

  /** What callers respect: idle makes no calls and is never killed or blocked; nobody else wakes a waiting parent. */
  ghost predicate Enabled(s: System, ev: Event)
    requires Settled(s)
  {
    match ev
    case TimerTick => true
    case SysCreate(_, _, _) => FreeSlot(s.table, 0) != NULL
    case SysExit(_, woken) => s.current != s.idle && Wakeable(s, woken)
    case SysKill(pid, woken) => pid != s.table[s.idle].pid && Wakeable(s, woken)
    case SysBlock(pid) => pid != s.table[s.idle].pid
    case SysUnblock(pid) => NotAwaiting(s, pid)
    case SysWake(woken) => Wakeable(s, woken)
    case SysNice(_, _) => true
    case _ => s.current != s.idle
  }

  /** block toggles: it wakes a blocked process, unless that waits for a child. */
  function Toggle(s: System, pid: nat): (System, bool)
    requires SlotsOk(s)
  {
    var p := Find(s.table, pid);
    if p == NULL || s.table[p].state == ZOMBIE then (s, false)
    else if s.table[p].state == BLOCKED && s.table[p].waitingFor != 0 then (s, false)
    else if s.table[p].state == BLOCKED then Unblock(s, pid)
    else Block(s, pid)
  }

  /** What is left of an argument that the dispatcher casts to 8 bits. */
  function Byte(x: nat): nat {
    x % 256
  }

  /** What the kernel entry itself does, and whether it asks for a switch. */
  ghost function Entry(s: System, ev: Event): (System, bool)
    requires Settled(s) && Enabled(s, ev) && QueueWf(s)
  {
    match ev
    case TimerTick => (Tick(s), false)
    case SysYield => (SetState(s, s.current, READY), true)
    case SysCreate(fg, stack, argv) => (Create(s, FreeSlot(s.table, 0), Byte(fg), stack, argv), false)
    case SysExit(retval, woken) => Exit(s, retval, woken)
    case SysKill(pid, woken) => Kill(s, pid, woken)
    case SysBlock(pid) => Toggle(s, pid)
    case SysUnblock(pid) => Unblock(s, pid)
    case SysWake(woken) => UnblockAll(s, woken)
    case SysNice(pid, priority) => (Nice(s, pid, Byte(priority)), false)
    case SysWaitPid(pid) => WaitPid(s, pid)
  }

  lemma EntryLaws(s: System, ev: Event)
    requires Settled(s) && Enabled(s, ev)
    ensures QueueWf(s)
    ensures var (r, switch) := Entry(s, ev); if switch then Departing(r) else Settled(r)
  {
    hide Settled, Departing, Common, Tick, Create, Exit, Kill, Block, Unblock, UnblockAll, Nice, WaitPid, QueueWf, FreeSlot, Find, Wakeable;
    SettledIsWf(s);
    match ev
    case TimerTick => TickSettles(s);
    case SysYield => YieldDeparts(s);
    case SysCreate(fg, stack, argv) => FreeSlotGives(s.table); CreateSettles(s, FreeSlot(s.table, 0), Byte(fg), stack, argv);
    case SysExit(retval, woken) => ExitDeparts(s, retval, woken);
    case SysKill(pid, woken) => KillSettlesOrDeparts(s, pid, woken);
    case SysBlock(pid) => ToggleSettlesOrDeparts(s, pid);
    case SysUnblock(pid) => UnblockSettles(s, pid); SettledDeparts(Unblock(s, pid).0);
    case SysWake(woken) => UnblockAllSettles(s, woken); SettledDeparts(UnblockAll(s, woken).0);
    case SysNice(pid, priority) => NiceSettles(s, pid, Byte(priority));
    case SysWaitPid(pid) => WaitPidSettlesOrDeparts(s, pid);
  }

  lemma FreeSlotGives(table: seq<PCB>)
    ensures var r := FreeSlot(table, 0); r == NULL || (0 <= r < |table| && table[r].state == FREE)
  {
  }

  lemma SettledIsWf(s: System)
    requires Settled(s)
    ensures QueueWf(s) && SlotsOk(s) && s.current != NULL && 0 <= s.idle
  {
  }

  lemma YieldDeparts(s: System)
    requires Settled(s)
    ensures Departing(SetState(s, s.current, READY))
  {
    hide QueueExact, Pids;
    UpdateSimilar(s, s.current, s.table[s.current].(state := READY));
  }

  lemma ToggleSettlesOrDeparts(s: System, pid: nat)
    requires Settled(s) && pid != s.table[s.idle].pid
    ensures var (r, switch) := Toggle(s, pid); if switch then Departing(r) else Settled(r)
  {
    hide Settled, Departing, Common, Block, Unblock, Find;
    SettledIsWf(s);
    FindGives(s.table, pid);
    var p := Find(s.table, pid);
    if p != NULL {
      if s.table[p].state == BLOCKED && s.table[p].waitingFor == 0 {
        UnblockSettles(s, pid);
        SettledDeparts(Unblock(s, pid).0);
      } else if s.table[p].state != BLOCKED && s.table[p].state != ZOMBIE {
        BlockSettlesOrDeparts(s, pid);
      }
    }
  }

  /** One event. */
  ghost function Step(s: System, ev: Event): (r: System)
    requires Settled(s) && Enabled(s, ev)
    ensures Settled(r)
  {
    EntryLaws(s, ev);
    var (r, switch) := Entry(s, ev);
    if switch then (YieldSettles(r); Yield(r)) else r
  }

  lemma StepParts(s: System, ev: Event)
    requires Settled(s) && Enabled(s, ev)
    ensures QueueWf(s)
    ensures var (r, switch) := Entry(s, ev);
            if switch then Departing(r) && QueueWf(r) && Step(s, ev) == Yield(r) else Settled(r) && Step(s, ev) == r
  {
    hide Entry, Yield, Enabled;
    EntryLaws(s, ev);
    if Entry(s, ev).1 { YieldSettles(Entry(s, ev).0); }
  }

  ghost predicate Legal(s: System, evs: seq<Event>)
    requires Settled(s)
    decreases |evs|
  {
    evs == [] || (Enabled(s, evs[0]) && Legal(Step(s, evs[0]), evs[1..]))
  }

  ghost function Run(s: System, evs: seq<Event>): (r: System)
    requires Settled(s) && Legal(s, evs)
    ensures Settled(r)
    decreases |evs|
  {
    if evs == [] then s else Run(Step(s, evs[0]), evs[1..])
  }
}
