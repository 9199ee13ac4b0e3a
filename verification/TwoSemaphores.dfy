/** What the clean-up after a process does when the process has no more than two semaphores open. */
module TwoSemaphores {
  import opened PidQueue
  import opened SemaphoreSpec

  /** Process p waits at semaphores e and f only. */
  predicate QueuedOnlyAt(k: State, p: nat, e: nat, f: nat) {
    forall j :: 0 <= j < |k.sems| && j != e && j != f ==> p !in k.sems[j].queue
  }

  // ---------------------------------------------------------------- the clean-up touches what the process has open

  /** Process p has no reference to semaphore j, no mark of it and no place in its queue. */
  predicate NoPart(k: State, p: nat, j: nat) {
    && j < |k.sems| && p in k.procs && j !in k.procs[p].refs && j !in k.procs[p].held && p !in k.sems[j].queue
  }

  lemma CleanNothing(k: State, p: nat, j: nat)
    requires NoPart(k, p, j)
    ensures CleanOne(k, p, j) == k
  {
    var x := k.procs[p];
    assert x.refs - {j} == x.refs;
    assert k.procs[p := x] == k.procs;
    assert k.sems[j := k.sems[j]] == k.sems;
  }

  lemma {:induction false} CleanSkips(k: State, p: nat, i: nat, j: nat)
    requires i <= j <= |k.sems| && p in k.procs && forall l :: i <= l < j ==> NoPart(k, p, l)
    ensures CleanFrom(k, p, i) == CleanFrom(k, p, j)
    decreases j - i
  {
    hide NoPart, CleanOne;
    if i < j {
      CleanNothing(k, p, i);
      CleanSkips(k, p, i + 1, j);
    }
  }

  lemma CleanElsewhere(k: State, p: nat, a: nat, l: nat)
    requires a < |k.sems| && l < |k.sems| && l != a && p in k.procs
    ensures var r := CleanOne(k, p, a);
            && p in r.procs && r.sems[l] == k.sems[l] && (NoPart(k, p, l) ==> NoPart(r, p, l))
            && (l in r.procs[p].held <==> l in k.procs[p].held) && (l in r.procs[p].refs <==> l in k.procs[p].refs)
  {
    hide Removed;
  }

  lemma CleanNext(k: State, p: nat, i: nat)
    requires i <= |k.sems| && p in k.procs
    ensures CleanFrom(k, p, i) == if i == |k.sems| then k else CleanFrom(CleanOne(k, p, i), p, i + 1)
  {
  }

  /** From place i on only semaphore a matters. */
  lemma CleanJust(k: State, p: nat, i: nat, a: nat)
    requires i <= a < |k.sems| && p in k.procs && forall l :: i <= l < |k.sems| && l != a ==> NoPart(k, p, l)
    ensures CleanFrom(k, p, i) == CleanOne(k, p, a)
  {
    hide NoPart, CleanOne, CleanFrom;
    CleanSkips(k, p, i, a);
    CleanNext(k, p, a);
    var k1 := CleanOne(k, p, a);
    forall l | a + 1 <= l < |k.sems| ensures NoPart(k1, p, l) { CleanElsewhere(k, p, a, l); }
    CleanSkips(k1, p, a + 1, |k.sems|);
    CleanNext(k1, p, |k.sems|);
  }

  ghost predicate OnlyAt(k: State, p: nat, a: nat, b: nat) {
    p in k.procs && forall l :: 0 <= l < |k.sems| && l != a && l != b ==> NoPart(k, p, l)
  }

  /** Only semaphores a and b matter, a before b. */
  lemma CleanTwo(k: State, p: nat, a: nat, b: nat)
    requires a < b < |k.sems| && OnlyAt(k, p, a, b)
    ensures CleanFrom(k, p, 0) == CleanOne(CleanOne(k, p, a), p, b)
  {
    hide NoPart, CleanOne, CleanFrom, OnlyAt;
    SkipsTo(k, p, a, b);
    CleanNext(k, p, a);
    CleanRest(k, p, a, b);
  }

  lemma SkipsTo(k: State, p: nat, a: nat, b: nat)
    requires a < b < |k.sems| && OnlyAt(k, p, a, b)
    ensures p in k.procs && CleanFrom(k, p, 0) == CleanFrom(k, p, a)
  {
    hide NoPart, CleanOne, CleanFrom;
    CleanSkips(k, p, 0, a);
  }

  lemma CleanRest(k: State, p: nat, a: nat, b: nat)
    requires a < b < |k.sems| && OnlyAt(k, p, a, b)
    ensures p in k.procs && CleanFrom(CleanOne(k, p, a), p, a + 1) == CleanOne(CleanOne(k, p, a), p, b)
  {
    hide NoPart, CleanOne, CleanFrom;
    var k1 := CleanOne(k, p, a);
    forall l | a + 1 <= l < |k.sems| && l != b ensures NoPart(k1, p, l) { CleanElsewhere(k, p, a, l); }
    CleanJust(k1, p, a + 1, b);
  }

  // ---------------------------------------------------------------- what it does there, seen by everyone else

  function Without(k: State, p: nat): State {
    k.(procs := k.procs - {p})
  }

  /** One reference less. */
  function Loosened(k: State, j: nat): State
    requires j < |k.sems| && k.sems[j].opens > 0
  {
    k.(sems := k.sems[j := k.sems[j].(opens := k.sems[j].opens - 1)])
  }

  /** Semaphore j loses a reference and whatever process p had of it: its place in the queue, or else its unit. */
  function Released(k: State, p: nat, j: nat, held: bool): (r: State)
    requires j < |k.sems| && k.sems[j].opens > 0
    ensures |r.sems| == |k.sems| && r.sems[j].opens == k.sems[j].opens - 1
    ensures forall l :: 0 <= l < |k.sems| && l != j ==> r.sems[l] == k.sems[l]
  {
    var l := Loosened(k, j);
    var m := l.sems[j];
    if p in m.queue then l.(sems := l.sems[j := m.(queue := Removed(m.queue, p), value := m.value + 1)])
    else if held then Return(l, j)
    else l
  }

  lemma CleanReleases(k: State, p: nat, j: nat)
    requires j < |k.sems| && p in k.procs && j in k.procs[p].refs && k.sems[j].opens > 0
    ensures Without(CleanOne(k, p, j), p) == Released(Without(k, p), p, j, j in k.procs[p].held)
  {
    hide Removed;
    var m := k.sems[j];
    var left := m.(opens := m.opens - 1);
    if p in m.queue {
      assert (CleanOne(k, p, j).procs - {p}) == k.procs - {p};
    } else if j in k.procs[p].held {
      ReturnWithout(State(k.sems[j := left], SetHeld(SetOpened(k.procs, p, j, false), p, j, false)), Loosened(Without(k, p), j), p, j);
    } else {
      assert (CleanOne(k, p, j).procs - {p}) == k.procs - {p};
    }
  }

  lemma ReturnWithout(k: State, l: State, p: nat, j: nat)
    requires j < |k.sems| && p !in k.sems[j].queue && l.sems == k.sems && l.procs == k.procs - {p}
    ensures Without(Return(k, j), p) == Return(l, j)
  {
    var m := k.sems[j];
    if m.value + 1 <= 0 && m.queue != [] {
      var w := m.queue[0];
      assert w in m.queue;
      assert Return(k, j).procs - {p} == Return(l, j).procs;
    }
  }

  /** The two clean-ups do not disturb each other. */
  lemma ReleasesCommute(k: State, p: nat, a: nat, b: nat, held: bool)
    requires a < |k.sems| && b < |k.sems| && a != b && k.sems[a].opens > 0 && k.sems[b].opens > 0 && p !in k.sems[b].queue
    ensures Released(Released(k, p, a, held), p, b, false) == Released(Released(k, p, b, false), p, a, held)
  {
    hide Removed;
    var x, z := Released(Released(k, p, a, held), p, b, false), Released(Released(k, p, b, false), p, a, held);
    assert x.sems == z.sems;
  }

  lemma CleanupWithout(k: State, p: nat)
    requires p in k.procs
    ensures Without(Cleanup(k, p), p) == Without(CleanFrom(k, p, 0), p)
  {
    hide CleanFrom;
    var c := CleanFrom(k, p, 0);
    UpdatedAway(c.procs, p, c.procs[p].(held := {}, refs := {}));
  }

  lemma UpdatedAway(procs: Procs, p: nat, x: Proc)
    ensures procs[p := x] - {p} == procs - {p}
  {
  }

  /** Cleaned in either order: o is the semaphore the process waits on, t the other one. */
  lemma CleanBoth(k: State, p: nat, o: nat, t: nat)
    requires o < |k.sems| && t < |k.sems| && o != t && p in k.procs && k.procs[p].refs == {o, t} && k.procs[p].held <= {o}
    requires p !in k.sems[t].queue && QueuedOnlyAt(k, p, o, t) && k.sems[o].opens > 0 && k.sems[t].opens > 0
    ensures Without(Cleanup(k, p), p) == Released(Released(Without(k, p), p, t, false), p, o, o in k.procs[p].held)
  {
    hide CleanFrom, CleanOne, Released, Cleanup, Without;
    CleanupWithout(k, p);
    assert OnlyAt(k, p, o, t);
    var held := o in k.procs[p].held;
    WithoutKeeps(k, p);
    if t < o {
      CleanTwo(k, p, t, o);
      CleanReleases(k, p, t);
      CleanElsewhere(k, p, t, o);
      CleanReleases(CleanOne(k, p, t), p, o);
    } else {
      CleanTwo(k, p, o, t);
      CleanReleases(k, p, o);
      CleanElsewhere(k, p, o, t);
      CleanReleases(CleanOne(k, p, o), p, t);
      ReleasesCommute(Without(k, p), p, o, t, held);
    }
  }

  lemma WithoutKeeps(k: State, p: nat)
    ensures Without(k, p).sems == k.sems
  {
  }

  lemma CleanOnly(k: State, p: nat, e: nat)
    requires e < |k.sems| && p in k.procs && k.procs[p].refs == {e} && k.procs[p].held == {} && k.sems[e].opens > 0
    requires p !in k.sems[e].queue && QueuedOnlyAt(k, p, e, e)
    ensures Without(Cleanup(k, p), p) == Loosened(Without(k, p), e)
  {
    hide CleanFrom, CleanOne, Cleanup;
    CleanupWithout(k, p);
    CleanJust(k, p, 0, e);
    CleanReleases(k, p, e);
  }

  lemma CleanNone(k: State, p: nat)
    requires p in k.procs && k.procs[p].refs == {} && k.procs[p].held == {}
    requires forall j :: 0 <= j < |k.sems| ==> p !in k.sems[j].queue
    ensures Without(Cleanup(k, p), p) == Without(k, p)
  {
    hide CleanFrom, CleanOne, Cleanup;
    CleanupWithout(k, p);
    CleanSkips(k, p, 0, |k.sems|);
    CleanNext(k, p, |k.sems|);
  }
}
