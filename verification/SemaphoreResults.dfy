/** What the semaphore calls tell their caller, and that they touch only the semaphore named and whom it lets go on. */
module SemaphoreResults {
  import opened Basics
  import PidQueue
  import opened SemaphoreSpec

  /** A semaphore of this name is open. */
  ghost predicate IsOpen(sems: seq<Sem>, name: string) {
    exists i :: OpenAs(sems, i, name)
  }

  predicate OpenAs(sems: seq<Sem>, i: int, name: string) {
    0 <= i < |sems| && sems[i].opens > 0 && sems[i].name == name
  }

  ghost predicate HasRoom(sems: seq<Sem>) {
    exists i :: 0 <= i < |sems| && sems[i].opens == 0
  }

  /** The process has a reference to an open semaphore of this name. */
  ghost predicate Refers(s: State, pid: nat, name: string) {
    pid in s.procs && exists i :: OpenAs(s.sems, i, name) && i in s.procs[pid].refs
  }

  lemma FindIff(sems: seq<Sem>, name: string)
    ensures Find(sems, name, 0) < |sems| <==> IsOpen(sems, name)
    ensures FreeSem(sems, 0) < |sems| <==> HasRoom(sems)
  {
    if Find(sems, name, 0) < |sems| { assert OpenAs(sems, Find(sems, name, 0), name); }
  }

  /** The first open semaphore of this name. */
  ghost predicate FirstOpen(sems: seq<Sem>, i: int, name: string) {
    OpenAs(sems, i, name) && forall k :: 0 <= k < i ==> !OpenAs(sems, k, name)
  }

  lemma FoundIs(sems: seq<Sem>, i: nat, name: string)
    requires FirstOpen(sems, i, name)
    ensures Find(sems, name, 0) == i
  {
    var f := Find(sems, name, 0);
    assert OpenAs(sems, i, name) && (f < |sems| ==> OpenAs(sems, f, name));
  }

  // ---------------------------------------------------------------- open

  /** open returns 1 exactly if a semaphore of that name was open or a slot was free, and 0 otherwise, with nothing changed;
      it returns 1 exactly if the caller afterwards refers to an open semaphore of that name. */
  lemma OpenResult(s: State, cur: nat, name: string, initial: nat)
    requires cur in s.procs && |name| < NAME_LEN
    ensures var (r, result) := Open(s, cur, name, initial);
            && result == (if IsOpen(s.sems, name) || HasRoom(s.sems) then 1 else 0)
            && (result == 1 <==> Refers(r, cur, name)) && (result == 0 ==> r == s)
            && cur in r.procs && r.procs == s.procs[cur := s.procs[cur].(refs := r.procs[cur].refs)]
  {
    FindIff(s.sems, name);
    var (r, result) := Open(s, cur, name, initial);
    var i := if Find(s.sems, name, 0) < |s.sems| then Find(s.sems, name, 0) else FreeSem(s.sems, 0);
    if result == 1 { assert OpenAs(r.sems, i, name) && i in r.procs[cur].refs; }
  }

  /** An open semaphore gets one reference more and keeps its value and its queue; a new one has the value asked for, in
      64 bits, nobody in its queue and one reference. No other semaphore changes. */
  lemma OpenEffect(s: State, cur: nat, name: string, initial: nat, j: nat)
    requires j < |s.sems|
    ensures var r := Open(s, cur, name, initial).0; var m := s.sems[j];
            && |r.sems| == |s.sems|
            && (m.opens > 0 ==> r.sems[j] == m || (m.name == name && r.sems[j] == m.(opens := m.opens + 1)))
            && (m.opens == 0 && r.sems[j] != m ==>
                  && !IsOpen(s.sems, name) && r.sems[j].opens == 1 && r.sems[j].queue == [] && r.sems[j].name == Stored(name, NAME_LEN)
                  && -0x8000_0000_0000_0000 <= r.sems[j].value < 0x8000_0000_0000_0000
                  && exists k: nat :: Wrapped(initial, r.sems[j].value, k))
  {
    FindIff(s.sems, name);
    var k := SignedIs(initial);
  }

  /** The number wraps round k times in 64 bits. */
  predicate Wrapped(v: nat, signed: int, k: nat) {
    v == signed + k * 0x1_0000_0000_0000_0000
  }

  lemma SignedIs(v: nat) returns (k: nat)
    ensures -0x8000_0000_0000_0000 <= AsInt64(v) < 0x8000_0000_0000_0000 && Wrapped(v, AsInt64(v), k)
  {
    var m := 0x1_0000_0000_0000_0000;
    k := v / m + (if v % m < INT64_LIMIT then 0 else 1);
  }

  // ---------------------------------------------------------------- wait, post and close

  /** The first open semaphore of this name has a unit. */
  ghost predicate HasUnit(sems: seq<Sem>, name: string) {
    exists i :: FirstOpen(sems, i, name) && sems[i].value > 0
  }

  lemma UnitIff(sems: seq<Sem>, name: string)
    ensures var i := Find(sems, name, 0); i < |sems| ==> (HasUnit(sems, name) <==> sems[i].value > 0)
  {
    var i := Find(sems, name, 0);
    if i < |sems| {
      assert FirstOpen(sems, i, name);
      if j :| FirstOpen(sems, j, name) && sems[j].value > 0 { FoundIs(sems, j, name); }
    }
  }

  /** The other calls return 0 exactly if a semaphore of that name is open, and else -1, with nothing changed; a wait that
      finds no unit and has no process to put to sleep returns -1 too. */
  lemma OthersResult(s: State, cur: nat, name: string)
    ensures var (r, result) := Wait(s, cur, name);
            && result == (if IsOpen(s.sems, name) && (cur in s.procs || HasUnit(s.sems, name)) then 0 else -1)
            && (result == -1 && cur in s.procs ==> r == s)
    ensures var (r, result) := Post(s, cur, name); result == (if IsOpen(s.sems, name) then 0 else -1) && (result == -1 ==> r == s)
    ensures var (r, result) := Close(s, cur, name); result == (if IsOpen(s.sems, name) then 0 else -1) && (result == -1 ==> r == s)
  {
    hide Return, SetHeld, SetOpened, SetBlocked, HasUnit;
    FindIff(s.sems, name);
    UnitIff(s.sems, name);
  }

  /** wait takes one from the value: with a unit there, the caller holds it and goes on; without, it is last in the queue and
      asleep. Nobody else changes. */
  lemma WaitEffect(s: State, cur: nat, name: string, i: nat)
    requires cur in s.procs && !s.procs[cur].blocked && FirstOpen(s.sems, i, name)
    ensures var (r, m) := (Wait(s, cur, name).0, s.sems[i]);
            && |r.sems| == |s.sems| && cur in r.procs && r.procs == s.procs[cur := r.procs[cur]]
            && r.sems == s.sems[i := r.sems[i]] && r.sems[i].opens == m.opens && r.sems[i].name == m.name
            && r.sems[i].value == m.value - 1 && r.procs[cur].refs == s.procs[cur].refs
            && if m.value > 0
               then !r.procs[cur].blocked && r.procs[cur].held == s.procs[cur].held + {i} && r.sems[i].queue == m.queue
               else r.procs[cur].blocked && r.procs[cur].held == s.procs[cur].held
                    && (|m.queue| < MAX_PROCESSES ==> r.sems[i].queue == m.queue + [cur])
  {
    FoundIs(s.sems, i, name);
  }

  /** post adds one to the value and the caller does not hold it any more; the first in the queue, if anyone waits, leaves
      it, awake and holding. */
  lemma PostEffect(s: State, cur: nat, name: string, i: nat)
    requires cur in s.procs && FirstOpen(s.sems, i, name)
    ensures var (r, m) := (Post(s, cur, name).0, s.sems[i]);
            && |r.sems| == |s.sems| && r.procs.Keys == s.procs.Keys
            && r.sems == s.sems[i := r.sems[i]] && r.sems[i].opens == m.opens && r.sems[i].name == m.name
            && r.sems[i].value == m.value + 1
            && if m.queue != [] && m.value < 0 then
                 && r.sems[i].queue == m.queue[1..] && (cur != m.queue[0] ==> i !in r.procs[cur].held)
                 && (m.queue[0] in s.procs ==> !r.procs[m.queue[0]].blocked && i in r.procs[m.queue[0]].held)
                 && forall p <- s.procs :: p != m.queue[0] && p != cur ==> r.procs[p] == s.procs[p]
               else
                 && r.sems[i].queue == m.queue && i !in r.procs[cur].held
                 && forall p <- s.procs :: p != cur ==> r.procs[p] == s.procs[p]
  {
    FoundIs(s.sems, i, name);
  }

  /** close takes one reference away, and the caller's marks; with the last reference the slot is free. */
  lemma CloseEffect(s: State, cur: nat, name: string, i: nat)
    requires cur in s.procs && FirstOpen(s.sems, i, name)
    ensures var (r, m) := (Close(s, cur, name).0, s.sems[i]);
            && |r.sems| == |s.sems| && cur in r.procs && r.procs == s.procs[cur := r.procs[cur]]
            && r.sems == s.sems[i := r.sems[i]] && r.sems[i].opens == m.opens - 1
            && r.procs[cur] == s.procs[cur].(held := s.procs[cur].held - {i}, refs := s.procs[cur].refs - {i})
            && (m.opens > 1 ==> r.sems[i] == m.(opens := m.opens - 1))
            && (m.opens == 1 ==> r.sems[i].queue == [] && !OpenAs(r.sems, i, name))
  {
    FoundIs(s.sems, i, name);
  }

  // ---------------------------------------------------------------- death

  /** The clean-up at a death leaves no trace of the process: it waits at no open semaphore, holds none and refers to none. */
  lemma CleanupLeavesNothing(s: State, pid: nat, i: nat)
    requires pid in s.procs && i < |s.sems|
    ensures var r := Cleanup(s, pid);
            && |r.sems| == |s.sems| && (r.sems[i].opens > 0 ==> pid !in r.sems[i].queue)
            && pid in r.procs && r.procs[pid].held == r.procs[pid].refs == {}
  {
    CleanFromLeaves(s, pid, 0, i);
  }

  lemma {:induction false} CleanFromLeaves(s: State, pid: nat, from: nat, i: nat)
    requires pid in s.procs && from <= |s.sems| && i < |s.sems|
    requires i < from && s.sems[i].opens > 0 ==> pid !in s.sems[i].queue
    ensures var r := CleanFrom(s, pid, from); r.sems[i].opens > 0 ==> pid !in r.sems[i].queue
    decreases |s.sems| - from
  {
    hide CleanOne;
    if from < |s.sems| {
      CleanOneLeaves(s, pid, from, i);
      CleanFromLeaves(CleanOne(s, pid, from), pid, from + 1, i);
    }
  }

  lemma CleanOneLeaves(s: State, pid: nat, j: nat, i: nat)
    requires pid in s.procs && j < |s.sems| && i < |s.sems|
    ensures var r := CleanOne(s, pid, j);
            && (i != j ==> r.sems[i] == s.sems[i])
            && (i == j && r.sems[i].opens > 0 ==> pid !in r.sems[i].queue)
  {
    hide SetHeld, SetOpened, SetBlocked, PidQueue.Removed;
    var m := s.sems[j];
    assert pid !in PidQueue.Removed(m.queue, pid);
  }
}
