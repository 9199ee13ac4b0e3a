/** The life cycle of processes as steps on the system value, one kernel entry with its pending switch per step. */
module ProcessSpec {
  import opened Basics
  import opened RunQueue

  /** The slot of the live process with this pid; NULL if there is none. */
  function Find(table: seq<PCB>, pid: nat): int {
    if pid == 0 then NULL else FindFrom(table, pid, 0)
  }

  function FindFrom(table: seq<PCB>, pid: nat, i: nat): (r: int)
    requires i <= |table|
    ensures r == NULL || (i <= r < |table| && table[r].pid == pid && table[r].state != FREE)
    ensures r == NULL ==> forall k :: i <= k < |table| ==> table[k].pid != pid || table[k].state == FREE
    decreases |table| - i
  {
    if i == |table| then NULL
    else if table[i].pid == pid && table[i].state != FREE then i
    else FindFrom(table, pid, i + 1)
  }

  /** The first free slot; NULL if the table is full. */
  function FreeSlot(table: seq<PCB>, i: nat): (r: int)
    requires i <= |table|
    ensures r == NULL || (i <= r < |table| && table[r].state == FREE)
    ensures r == NULL ==> forall k :: i <= k < |table| ==> table[k].state != FREE
    decreases |table| - i
  {
    if i == |table| then NULL else if table[i].state == FREE then i else FreeSlot(table, i + 1)
  }

  // ---------------------------------------------------------------- operations: the new state, and whether to switch

  function CurrentPid(s: System): nat
    requires SlotsOk(s)
  {
    if s.current == NULL then 0 else s.table[s.current].pid
  }

  /** Bit 1 of the flag asks for a process that starts blocked. */
  function NewProcess(s: System, fg: nat, stack: int, argv: int): PCB
    requires SlotsOk(s)
  {
    PCB(s.nextPid + 1, DEFAULT_PRIORITY, DEFAULT_PRIORITY, 0, if (fg / 2) % 2 == 1 then BLOCKED else READY, fg,
        CurrentPid(s), 0, stack, argv, 0, 0)
  }

  function Create(s: System, slot: nat, fg: nat, stack: int, argv: int): System
    requires QueueWf(s) && SlotsOk(s) && slot < |s.table|
  {
    Add(s.(table := s.table[slot := NewProcess(s, fg, stack, argv)], nextPid := s.nextPid + 1), slot)
  }

  /** If the parent of the process in slot c is blocked waiting for it, hand it `value` and make it ready. */
  function WakeParent(s: System, c: nat, value: int): (r: System)
    requires c < |s.table|
    ensures |r.table| == |s.table| && r == s.(table := r.table)
  {
    var p := Find(s.table, s.table[c].parent);
    if p != NULL && s.table[p].state == BLOCKED && s.table[p].waitingFor == s.table[c].pid
    then s.(table := s.table[p := s.table[p].(saved := value, waitingFor := 0, state := READY, waitTicks := 0)])
    else s
  }

  function SetState(s: System, p: nat, state: ProcState): System
    requires p < |s.table|
  {
    s.(table := s.table[p := s.table[p].(state := state)])
  }

  function Block(s: System, pid: nat): (System, bool) {
    var p := Find(s.table, pid);
    if p == NULL || s.table[p].state == ZOMBIE || s.table[p].state == BLOCKED then (s, false)
    else (SetState(s, p, BLOCKED), p == s.current)
  }

  function Unblock(s: System, pid: nat): (System, bool)
    requires SlotsOk(s)
  {
    var p := Find(s.table, pid);
    if p == NULL || s.table[p].state != BLOCKED then (s, false)
    else (s.(table := s.table[p := s.table[p].(state := READY, waitTicks := 0)]),
          s.current != NULL && s.table[p].priority > s.table[s.current].priority)
  }

  /** Unblock these processes in order; a switch is asked for if any of them asks for one. */
  function UnblockAll(s: System, pids: seq<nat>): (r: (System, bool))
    requires SlotsOk(s)
    ensures |r.0.table| == |s.table| && r.0 == s.(table := r.0.table)
  {
    if pids == [] then (s, false)
    else
      var (s1, switch) := UnblockAll(s, pids[..|pids| - 1]);
      var (s2, again) := Unblock(s1, pids[|pids| - 1]);
      (s2, switch || again)
  }

  /** The current process ends. `woken` are the processes that its semaphores, pipes and descriptors wake, in order. */
  function Exit(s: System, retval: int, woken: seq<nat>): (System, bool)
    requires SlotsOk(s)
  {
    if s.current == NULL then (s, false)
    else
      var s1 := s.(table := s.table[s.current := s.table[s.current].(retval := retval)]);
      var s2 := UnblockAll(s1, woken).0;
      (SetState(WakeParent(s2, s.current, retval), s.current, ZOMBIE), true)
  }

  function Kill(s: System, pid: nat, woken: seq<nat>): (System, bool)
    requires QueueWf(s) && SlotsOk(s)
  {
    var p := Find(s.table, pid);
    if p == NULL || s.table[p].state == ZOMBIE then (s, false)
    else
      var (s1, switch) := UnblockAll(s.(table := s.table[p := s.table[p].(retval := -1)]), woken);
      var s2 := WakeParent(s1, p, -1);
      if p == s.current then (SetState(s2, p, ZOMBIE), true)
      else (Reap(s2, p), switch)
  }

  function Clamped(priority: nat): nat {
    if priority < MIN_PRIORITY then MIN_PRIORITY else if priority > MAX_PRIORITY then MAX_PRIORITY else priority
  }

  function Nice(s: System, pid: nat, priority: nat): System
    requires QueueWf(s)
  {
    var p := Find(s.table, pid);
    if p == NULL then s
    else
      var c := Clamped(priority);
      var s1 := s.(table := s.table[p := s.table[p].(priority := c, waitTicks := 0, quanta := c)]);
      if s.table[p].state == ZOMBIE then s1
      else Requeue(s1, p)
  }

  /** Out of the queue and in again, at the place its priority now gives it. */
  function Requeue(s: System, p: nat): System
    requires QueueWf(s) && p < |s.table|
  {
    Add(Remove(s, p), p)
  }

  /** Waiting for a live process: the caller blocks; the zero the call returns goes to its saved frame. A process found
      dead is taken out of the table. */
  function WaitPid(s: System, pid: nat): (System, bool)
    requires SlotsOk(s)
  {
    var c := Find(s.table, pid);
    if c == NULL then (s, false)
    else if s.table[c].state == ZOMBIE then (s.(table := s.table[c := Freed(s.table[c])]), false)
    else if s.current == NULL then (s, true)
    else (s.(table := s.table[s.current := s.table[s.current].(state := BLOCKED, waitingFor := pid, saved := 0)]), true)
  }

  /** What the call returns at once. */
  function WaitValue(s: System, pid: nat): int {
    var c := Find(s.table, pid);
    if c == NULL then -1 else if s.table[c].state == ZOMBIE then s.table[c].retval else 0
  }

  // ---------------------------------------------------------------- between steps

  ghost predicate Pids(s: System) {
    && (forall i :: 0 <= i < |s.table| && s.table[i].state != FREE ==> 1 <= s.table[i].pid <= s.nextPid)
    && (forall i :: 0 <= i < |s.table| && s.table[i].state != FREE ==> s.table[i].parent < s.table[i].pid)
    && forall i, j :: 0 <= i < j < |s.table| && s.table[i].state != FREE && s.table[j].state != FREE ==>
         s.table[i].pid != s.table[j].pid
  }

  /** The queue is exact: every live process but idle, once, by descending priority. */
  ghost predicate QueueExact(s: System) {
    && QueueWf(s) && Sorted(s.table, s.queue)
    && forall i: nat :: i in s.queue <==> i < |s.table| && s.table[i].state != FREE && i != s.idle
  }

  ghost predicate Common(s: System) {
    && |s.table| == MAX_PROCESSES && SlotsOk(s) && QueueExact(s) && Pids(s)
    && 0 <= s.idle && s.table[s.idle].state in {READY, RUNNING}
    && (forall i :: 0 <= i < |s.table| && s.table[i].waitingFor != 0 ==> s.table[i].state in {BLOCKED, FREE})
    && forall i :: 0 <= i < |s.table| && s.table[i].state == RUNNING ==> i == s.current
  }

  /** Between steps the current process, and no other, is running, and no dead process is left. */
  ghost predicate Settled(s: System) {
    && Common(s) && s.current != NULL && s.table[s.current].state == RUNNING
    && forall i :: 0 <= i < |s.table| ==> s.table[i].state != ZOMBIE
  }
}
