/** Named counting semaphores as values, with the part of each process that they use. */
module SemaphoreSpec {
  import opened Basics
  import opened PidQueue

  const MAX_SEMS := 32
  const NAME_LEN := 32
  const INT64_LIMIT := 0x8000_0000_0000_0000

  datatype Sem = Sem(name: string, value: int, queue: seq<nat>, opens: nat)

  /** `held` and `refs` (opened_sems) are the bitmaps of the process, as sets of semaphore indices. */
  datatype Proc = Proc(held: set<nat>, refs: set<nat>, blocked: bool)

  /** Processes by pid. */
  type Procs = map<nat, Proc>

  datatype State = State(sems: seq<Sem>, procs: Procs)

  // ---------------------------------------------------------------- lookup

  /** The first open semaphore of this name, from index i on; the size of the table if there is none. */
  function Find(sems: seq<Sem>, name: string, i: nat): (r: nat)
    requires i <= |sems|
    ensures i <= r <= |sems|
    ensures r < |sems| ==> sems[r].opens > 0 && sems[r].name == name
    ensures forall k :: i <= k < r ==> !(sems[k].opens > 0 && sems[k].name == name)
    decreases |sems| - i
  {
    if i == |sems| || (sems[i].opens > 0 && sems[i].name == name) then i else Find(sems, name, i + 1)
  }

  function FreeSem(sems: seq<Sem>, i: nat): (r: nat)
    requires i <= |sems|
    ensures i <= r <= |sems|
    ensures r < |sems| ==> sems[r].opens == 0
    ensures forall k :: i <= k < r ==> sems[k].opens > 0
    decreases |sems| - i
  {
    if i == |sems| || sems[i].opens == 0 then i else FreeSem(sems, i + 1)
  }

  /** The two's complement reading of an unsigned 64-bit number. */
  function AsInt64(v: nat): int {
    var w := v % (2 * INT64_LIMIT);
    if w < INT64_LIMIT then w else w - 2 * INT64_LIMIT
  }

  // ---------------------------------------------------------------- bits

  function SetHeld(procs: Procs, pid: nat, i: nat, on: bool): Procs {
    if pid in procs
    then procs[pid := procs[pid].(held := if on then procs[pid].held + {i} else procs[pid].held - {i})]
    else procs
  }

  function SetOpened(procs: Procs, pid: nat, i: nat, on: bool): Procs {
    if pid in procs
    then procs[pid := procs[pid].(refs := if on then procs[pid].refs + {i} else procs[pid].refs - {i})]
    else procs
  }

  function SetBlocked(procs: Procs, pid: nat, on: bool): Procs {
    if pid in procs then procs[pid := procs[pid].(blocked := on)] else procs
  }

  // ---------------------------------------------------------------- operations: the new state and the result

  function Open(s: State, cur: nat, name: string, initial: nat): (State, int) {
    var i := Find(s.sems, name, 0);
    if i < |s.sems| then
      (State(s.sems[i := s.sems[i].(opens := s.sems[i].opens + 1)], SetOpened(s.procs, cur, i, true)), 1)
    else
      var j := FreeSem(s.sems, 0);
      if j == |s.sems| then (s, 0)
      else (State(s.sems[j := Sem(Stored(name, NAME_LEN), AsInt64(initial), [], 1)], SetOpened(s.procs, cur, j, true)), 1)
  }

  function Wait(s: State, cur: nat, name: string): (State, int) {
    var i := Find(s.sems, name, 0);
    if i == |s.sems| then (s, -1)
    else
      var m := s.sems[i].(value := s.sems[i].value - 1);
      if m.value >= 0 then (State(s.sems[i := m], SetHeld(s.procs, cur, i, true)), 0)
      else if cur !in s.procs then (s.(sems := s.sems[i := m]), -1)
      else (State(s.sems[i := m.(queue := Enqueue(m.queue, cur))], SetBlocked(s.procs, cur, true)), 0)
  }

  /** One unit comes back to semaphore i: it goes to the first process waiting, if there is one. */
  function Return(s: State, i: nat): State
    requires i < |s.sems|
  {
    var m := s.sems[i].(value := s.sems[i].value + 1);
    if m.value <= 0 && m.queue != []
    then State(s.sems[i := m.(queue := m.queue[1..])], SetBlocked(SetHeld(s.procs, m.queue[0], i, true), m.queue[0], false))
    else s.(sems := s.sems[i := m])
  }

  function Post(s: State, cur: nat, name: string): (State, int) {
    var i := Find(s.sems, name, 0);
    if i == |s.sems| then (s, -1)
    else (Return(s.(procs := SetHeld(s.procs, cur, i, false)), i), 0)
  }

  function Close(s: State, cur: nat, name: string): (State, int) {
    var i := Find(s.sems, name, 0);
    if i == |s.sems| then (s, -1)
    else
      var m := s.sems[i];
      var m' := if m.opens - 1 == 0 then m.(opens := 0, name := "", queue := []) else m.(opens := m.opens - 1);
      (State(s.sems[i := m'], SetOpened(SetHeld(s.procs, cur, i, false), cur, i, false)), 0)
  }

  /** A dying process leaves semaphore i: its place in the queue, its reference and its unit. */
  function CleanOne(s: State, pid: nat, i: nat): (r: State)
    requires i < |s.sems| && pid in s.procs
    ensures |r.sems| == |s.sems| && r.procs.Keys == s.procs.Keys
  {
    var m := s.sems[i];
    if m.opens == 0 then s
    else
      var left := m.(queue := Removed(m.queue, pid), opens := if i in s.procs[pid].refs then m.opens - 1 else m.opens);
      var procs := SetOpened(s.procs, pid, i, false);
      if pid in m.queue then
        State(s.sems[i := left.(value := left.value + 1)], SetHeld(procs, pid, i, false))
      else if i in s.procs[pid].held then
        Return(State(s.sems[i := left], SetHeld(procs, pid, i, false)), i)
      else
        State(s.sems[i := left], procs)
  }

  function CleanFrom(s: State, pid: nat, i: nat): (r: State)
    requires i <= |s.sems| && pid in s.procs
    ensures |r.sems| == |s.sems| && r.procs.Keys == s.procs.Keys
    decreases |s.sems| - i
  {
    if i == |s.sems| then s else CleanFrom(CleanOne(s, pid, i), pid, i + 1)
  }

  function Cleanup(s: State, pid: nat): State {
    if pid !in s.procs then s
    else
      var r := CleanFrom(s, pid, 0);
      r.(procs := r.procs[pid := r.procs[pid].(held := {}, refs := {})])
  }
}
