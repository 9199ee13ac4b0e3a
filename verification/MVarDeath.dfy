/** The death of a participant of a one-place buffer: exactly when the buffer survives it. */
module MVarDeath {
  import opened Basics
  import opened PidQueue
  import opened SemaphoreSpec
  import opened MVar
  import opened MVarBooks
  import opened TwoSemaphores
  import SemaphoreLaws

  /** The participant is killed: the kernel cleans up after it and it is gone. */
  function Killed(y: Sys, p: nat): Sys {
    y.(kernel := Without(Cleanup(y.kernel, p), p), parts := y.parts - {p})
  }

  function One(b: bool): nat {
    if b then 1 else 0
  }

  // ---------------------------------------------------------------- the token

  /** Everyone else is blocked as before. */
  ghost predicate OthersStay(y: Sys, p: nat, y': Sys) {
    && y'.parts == y.parts - {p}
    && forall q <- y'.parts :: Blocked(y', q) == Blocked(y, q)
  }

  ghost predicate Sides(y: Sys, a: Sem, role: Role, b: Sem) {
    SideOk(y, a, role) && SideOk(y, b, Other(role))
  }

  lemma OthersWait(y: Sys, p: nat, y': Sys)
    requires OthersStay(y, p, y')
    ensures forall q: nat, r :: Waits(y', q, r) <==> Waits(y, q, r) && q != p
    ensures Inside(y') == Inside(y) - {p}
  {
    forall q: nat, r ensures Waits(y', q, r) <==> Waits(y, q, r) && q != p {
      assert q in y'.parts ==> Blocked(y', q) == Blocked(y, q);
    }
    forall q: nat ensures q in Inside(y') <==> q in Inside(y) && q != p {
      assert q in y'.parts ==> Blocked(y', q) == Blocked(y, q);
    }
  }

  /** Killed while parked: out of the queue, and its debt is forgotten. */
  lemma DiesWaiting(y: Sys, a: Sem, role: Role, b: Sem, p: nat, y': Sys, a': Sem, b': Sem)
    requires Sides(y, a, role, b) && Waits(y, p, role) && OthersStay(y, p, y')
    requires a'.queue == Removed(a.queue, p) && a'.value == a.value + 1 && b'.queue == b.queue && b'.value == b.value
    ensures Sides(y', a', role, b') && Available(b') == Available(b) && Available(a') == Available(a) && Inside(y') == Inside(y)
  {
    hide Inside, Waits, Removed;
    OthersWait(y, p, y');
    SemaphoreLaws.RemovedOnce(a.queue, p);
    WaitingIsOut(y, p, role);
    assert p !in b.queue;
  }

  lemma WaitingIsOut(y: Sys, p: nat, role: Role)
    requires Waits(y, p, role)
    ensures p !in Inside(y) && !Waits(y, p, Other(role))
  {
  }

  /** Killed with nothing of the first semaphore, or with a unit of it for which nobody waits. */
  lemma DiesRunning(y: Sys, a: Sem, role: Role, b: Sem, p: nat, y': Sys, a': Sem, b': Sem, held: bool)
    requires Sides(y, a, role, b) && !Blocked(y, p) && OthersStay(y, p, y') && (held ==> a.queue == [])
    requires a'.queue == a.queue && a'.value == a.value + One(held) && b'.queue == b.queue && b'.value == b.value
    ensures Sides(y', a', role, b') && Available(b') == Available(b) && Available(a') == Available(a) + One(held) && Inside(y') == Inside(y) - {p}
  {
    hide Inside;
    OthersWait(y, p, y');
    assert forall r :: !Waits(y, p, r);
  }

  /** Its unit goes to the first one parked, who is inside from now on. */
  lemma DiesHandingOver(y: Sys, a: Sem, role: Role, b: Sem, p: nat, y': Sys, a': Sem, b': Sem)
    requires Sides(y, a, role, b) && !Blocked(y, p) && a.queue != [] && y'.parts == y.parts - {p}
    requires forall q <- y'.parts :: Blocked(y', q) == (Blocked(y, q) && q != a.queue[0])
    requires a'.queue == a.queue[1..] && a'.value == a.value + 1 && b'.queue == b.queue && b'.value == b.value
    ensures Sides(y', a', role, b') && Available(b') == Available(b) && Available(a') == Available(a) == 0 && a.queue[0] !in Inside(y) && a.queue[0] != p
    ensures Inside(y') == Inside(y) - {p} + {a.queue[0]} && IsReader(y'.parts, a.queue[0]) == role.Reader?
  {
    var w := a.queue[0];
    assert w in a.queue;
    assert Waits(y, w, role) && w != p;
    forall q: nat, r ensures Waits(y', q, r) <==> Waits(y, q, r) && q != w && q != p {
      assert q in y'.parts ==> Blocked(y', q) == (Blocked(y, q) && q != w);
      assert !Waits(y, p, r);
    }
    SemaphoreTail(a.queue);
    assert w !in b.queue;
    forall q: nat ensures q in Inside(y') <==> (q in Inside(y) && q != p) || q == w {
      assert q in y'.parts ==> Blocked(y', q) == (Blocked(y, q) && q != w);
    }
    assert Inside(y') == Inside(y) - {p} + {w};
  }

  // ---------------------------------------------------------------- what is left of the kernel's state

  /** Where the participant waits, where it announces, and whether it is marked. */
  ghost predicate Stands(y: Sys, p: nat, o: nat, t: nat, role: Role, held: bool) {
    && o < |y.kernel.sems| && t < |y.kernel.sems| && o != t && p in y.parts && p in y.kernel.procs && y.parts[p].role == role
    && y.kernel.sems[o].opens > 0 && y.kernel.sems[t].opens > 0
    && Sides(y, y.kernel.sems[o], role, y.kernel.sems[t])
    && (forall q <- y.parts :: q in y.kernel.procs) && (Blocked(y, p) ==> Waits(y, p, role))
    && (held <==> y.parts[p].calls > 0 || IsInside(y, p)) && HasBoth(y.parts[p].pc)
  }

  /** Semaphore m after the death. */
  function AfterDeath(y: Sys, p: nat, m: Sem, held: bool): Sem
    requires m.opens > 0
  {
    var l := m.(opens := m.opens - 1);
    if p in m.queue then l.(queue := Removed(m.queue, p), value := m.value + 1)
    else if held then l.(queue := if m.queue == [] then [] else m.queue[1..], value := m.value + 1)
    else l
  }

  /** The one who gets the unit of the dead process, if that has one and somebody waits for it. */
  predicate Hands(p: nat, m: Sem, held: bool) {
    held && p !in m.queue && m.queue != []
  }

  lemma KilledState(y: Sys, name: string, p: nat)
    requires Kept(y, name) && p in y.parts && HasBoth(y.parts[p].pc)
    ensures var role := y.parts[p].role;
            var e, f := EmptyAt(y.kernel, name), FullAt(y.kernel, name);
            var o, t := Own(role, e, f), Own(Other(role), e, f);
            var held := y.parts[p].calls > 0 || IsInside(y, p);
            && e < MAX_SEMS && f < MAX_SEMS == |y.kernel.sems| && e != f
            && Stands(y, p, o, t, role, held) && Balanced(y, y.kernel.sems[e], y.kernel.sems[f])
            && Killed(y, p).kernel == Released(Released(Without(y.kernel, p), p, t, false), p, o, held)
  {
    hide EmptyName, FullName, Find, Full, Cleanup, Released;
    BothOpen(y, name, p);
    var role := y.parts[p].role;
    var e, f := EmptyAt(y.kernel, name), FullAt(y.kernel, name);
    var o, t := Own(role, e, f), Own(Other(role), e, f);
    assert Marked(y, p, e, f) && QueuedOnlyAt(y.kernel, p, e, f);
    assert p !in y.kernel.sems[t].queue;
    CleanBoth(y.kernel, p, o, t);
  }

  /** The two semaphores and everyone else's bits after the death. */
  lemma KilledParts(y: Sys, p: nat, o: nat, t: nat, role: Role, held: bool, r: Sys)
    requires Stands(y, p, o, t, role, held)
    requires r.kernel == Released(Released(Without(y.kernel, p), p, t, false), p, o, held) && r.parts == y.parts - {p}
    ensures var k, a, b := y.kernel, y.kernel.sems[o], y.kernel.sems[t];
            && r.kernel.sems == k.sems[t := b.(opens := b.opens - 1)][o := AfterDeath(y, p, a, held)]
            && (Hands(p, a, held) ==> a.queue[0] in k.procs && a.queue[0] != p && a.queue[0] in r.parts)
            && r.kernel.procs == if Hands(p, a, held)
                                 then SetBlocked(SetHeld(k.procs - {p}, a.queue[0], o, true), a.queue[0], false) else k.procs - {p}
  {
    hide Removed, SetBlocked, SetHeld, Inside;
    var a, b := y.kernel.sems[o], y.kernel.sems[t];
    assert p !in b.queue;
    if a.queue != [] {
      assert a.queue[0] in a.queue;
      assert Waits(y, a.queue[0], role);
    }
    assert r.kernel.sems == y.kernel.sems[t := b.(opens := b.opens - 1)][o := AfterDeath(y, p, a, held)];
  }

  function Tokens(y: Sys, e: nat, f: nat): nat
    requires e < |y.kernel.sems| && f < |y.kernel.sems|
  {
    Available(y.kernel.sems[e]) + Available(y.kernel.sems[f]) + |Inside(y)|
  }

  /** The token count after the death: one too many if a participant marked from an earlier call dies between calls. */
  lemma KilledTokens(y: Sys, p: nat, o: nat, t: nat, role: Role, held: bool, r: Sys)
    requires Stands(y, p, o, t, role, held)
    requires r.kernel == Released(Released(Without(y.kernel, p), p, t, false), p, o, held) && r.parts == y.parts - {p}
    ensures |r.kernel.sems| == |y.kernel.sems| && Sides(r, r.kernel.sems[o], role, r.kernel.sems[t])
    ensures Tokens(r, o, t) == Tokens(y, o, t) + One(y.parts[p].pc == Idle && y.parts[p].calls > 0)
  {
    hide Removed, Inside, Released, Sides, SideOk, Waits, Available, SetBlocked, SetHeld;
    KilledParts(y, p, o, t, role, held, r);
    var a, b := y.kernel.sems[o], y.kernel.sems[t];
    QueuedIffBlocked(y, p, o, t, role, held);
    KilledBlocks(y, p, o, role, held, r);
    assert |Inside(y) - {p}| == |Inside(y)| - One(p in Inside(y));
    if p in a.queue {
      DiesWaiting(y, a, role, b, p, r, r.kernel.sems[o], r.kernel.sems[t]);
    } else if Hands(p, a, held) {
      DiesHandingOver(y, a, role, b, p, r, r.kernel.sems[o], r.kernel.sems[t]);
    } else {
      DiesRunning(y, a, role, b, p, r, r.kernel.sems[o], r.kernel.sems[t], held);
    }
  }

  lemma QueuedIffBlocked(y: Sys, p: nat, o: nat, t: nat, role: Role, held: bool)
    requires Stands(y, p, o, t, role, held)
    ensures p in y.kernel.sems[o].queue <==> Waits(y, p, role)
    ensures Waits(y, p, role) <==> Blocked(y, p)
    ensures Waits(y, p, role) ==> !IsInside(y, p)
    ensures p in Inside(y) <==> IsInside(y, p)
    ensures !IsInside(y, p) && !Blocked(y, p) ==> y.parts[p].pc == Idle
    ensures y.parts[p].pc == Idle ==> !IsInside(y, p) && !Waits(y, p, role)
  {
  }

  lemma KilledBlocks(y: Sys, p: nat, o: nat, role: Role, held: bool, r: Sys)
    requires o < |y.kernel.sems| && r.parts == y.parts - {p} && forall q <- y.parts :: q in y.kernel.procs
    requires var k, a := y.kernel, y.kernel.sems[o];
             r.kernel.procs == if Hands(p, a, held)
                               then SetBlocked(SetHeld(k.procs - {p}, a.queue[0], o, true), a.queue[0], false) else k.procs - {p}
    ensures forall q <- r.parts ::
              Blocked(r, q) == (Blocked(y, q) && !(Hands(p, y.kernel.sems[o], held) && q == y.kernel.sems[o].queue[0]))
  {
  }

  // ---------------------------------------------------------------- the values

  /** What Stands says in terms of the one token. */
  lemma TokenGives(y: Sys, p: nat, o: nat, t: nat, role: Role, held: bool)
    requires Stands(y, p, o, t, role, held) && Tokens(y, o, t) == 1 && IsInside(y, p)
    ensures Inside(y) == {p} && y.kernel.sems[o].value <= 0 && y.kernel.sems[t].value <= 0
    ensures y.kernel.sems[o].queue == [] ==> y.kernel.sems[o].value == 0
  {
    hide SideOk, Waits;
    assert p in Inside(y);
    assert SideOk(y, y.kernel.sems[o], role);
    QueueOrNone(y, y.kernel.sems[o], role);
    Singleton(Inside(y), p);
  }

  lemma QueueOrNone(y: Sys, m: Sem, role: Role)
    requires SideOk(y, m, role)
    ensures m.queue == [] <==> m.value >= 0
  {
  }

  /** A death that leaves one token leaves the slot as full as it was. */
  lemma KilledData(y: Sys, p: nat, o: nat, t: nat, role: Role, held: bool, r: Sys)
    requires Stands(y, p, o, t, role, held) && Tokens(y, o, t) == 1 && !(y.parts[p].pc == Idle && y.parts[p].calls > 0)
    requires r.kernel == Released(Released(Without(y.kernel, p), p, t, false), p, o, held) && r.parts == y.parts - {p}
    ensures |r.kernel.sems| == |y.kernel.sems|
    ensures var f := if role.Reader? then o else t; Full(r, r.kernel.sems[f]) <==> Full(y, y.kernel.sems[f])
  {
    hide Removed, Inside, Released, SideOk, Waits, SetBlocked, SetHeld;
    KilledParts(y, p, o, t, role, held, r);
    var a, b := y.kernel.sems[o], y.kernel.sems[t];
    QueuedIffBlocked(y, p, o, t, role, held);
    KilledBlocks(y, p, o, role, held, r);
    QueueOrNone(y, a, role);
    if p in a.queue {
      DiesWaiting(y, a, role, b, p, r, r.kernel.sems[o], r.kernel.sems[t]);
      forall q | q in Inside(y) ensures IsReader(r.parts, q) <==> IsReader(y.parts, q) { assert p !in Inside(y); }
    } else if Hands(p, a, held) {
      TokenGives(y, p, o, t, role, held);
      DiesHandingOver(y, a, role, b, p, r, r.kernel.sems[o], r.kernel.sems[t]);
      assert IsReader(y.parts, p) <==> role.Reader?;
      assert a.queue[0] in Inside(r);
    } else {
      DiesRunning(y, a, role, b, p, r, r.kernel.sems[o], r.kernel.sems[t], held);
      if held {
        TokenGives(y, p, o, t, role, held);
        assert IsReader(y.parts, p) <==> role.Reader?;
      } else {
        forall q | q in Inside(y) ensures IsReader(r.parts, q) <==> IsReader(y.parts, q) { }
      }
    }
  }

  // ---------------------------------------------------------------- the books

  lemma PlacesAfter(y: Sys, name: string, r: Sys)
    requires |r.kernel.sems| == |y.kernel.sems|
    requires forall j :: 0 <= j < |y.kernel.sems| ==>
               r.kernel.sems[j].name == y.kernel.sems[j].name && (r.kernel.sems[j].opens > 0 <==> y.kernel.sems[j].opens > 0)
    ensures SamePlaces(y, r, name)
  {
    hide EmptyName, FullName;
    FindSame(y.kernel.sems, r.kernel.sems, EmptyName(name));
    FindSame(y.kernel.sems, r.kernel.sems, FullName(name));
  }

  lemma OneLess(s: set<nat>, p: nat)
    ensures |s - {p}| == |s| - One(p in s)
  {
  }

  lemma EmptyWithout(parts: map<nat, Part>, p: nat)
    ensures WithEmpty(parts - {p}) == WithEmpty(parts) - {p}
  {
  }

  lemma FullWithout(parts: map<nat, Part>, p: nat)
    ensures WithFull(parts - {p}) == WithFull(parts) - {p}
  {
  }

  lemma SetsWithout(parts: map<nat, Part>, p: nat)
    requires p in parts
    ensures WithEmpty(parts - {p}) == WithEmpty(parts) - {p} && WithFull(parts - {p}) == WithFull(parts) - {p}
    ensures |WithEmpty(parts - {p})| == |WithEmpty(parts)| - One(parts[p].pc != New)
    ensures |WithFull(parts - {p})| == |WithFull(parts)| - One(HasBoth(parts[p].pc))
  {
    EmptyWithout(parts, p);
    FullWithout(parts, p);
    OneLess(WithEmpty(parts), p);
    OneLess(WithFull(parts), p);
    assert p in WithEmpty(parts) <==> parts[p].pc != New;
    assert p in WithFull(parts) <==> HasBoth(parts[p].pc);
  }

  /** The marks of the others: whoever gets the unit of the dead process is marked for it. */
  lemma KilledMarks(y: Sys, p: nat, o: nat, t: nat, role: Role, held: bool, r: Sys, e: nat, f: nat, q: nat)
    requires Stands(y, p, o, t, role, held) && o == Own(role, e, f) && t == Own(Other(role), e, f)
    requires r.kernel == Released(Released(Without(y.kernel, p), p, t, false), p, o, held) && r.parts == y.parts - {p}
    requires q in y.parts && q != p && Marked(y, q, e, f)
    ensures Marked(r, q, e, f)
  {
    hide Removed, Inside, Released, SideOk;
    KilledParts(y, p, o, t, role, held, r);
    var a := y.kernel.sems[o];
    if Hands(p, a, held) && q == a.queue[0] {
      assert a.queue[0] in a.queue;
      assert Waits(y, q, role) by { QueuedWait(y, a, role, q); }
    } else {
      MarkedSame(y, q, r, e, f);
    }
  }

  lemma QueuedWait(y: Sys, m: Sem, role: Role, q: nat)
    requires SideOk(y, m, role) && q in m.queue
    ensures Waits(y, q, role)
  {
  }

  lemma KilledBooks(y: Sys, p: nat, o: nat, t: nat, role: Role, held: bool, r: Sys, e: nat, f: nat)
    requires Stands(y, p, o, t, role, held) && o == Own(role, e, f) && t == Own(Other(role), e, f) && BooksAt(y, e, f)
    requires r.kernel == Released(Released(Without(y.kernel, p), p, t, false), p, o, held) && r.parts == y.parts - {p}
    ensures BooksAt(r, e, f)
  {
    hide Removed, Inside, Released, SideOk, Marked, QueuedOnlyAt, Waits, SetHeld, SetBlocked, WithEmpty, WithFull;
    KilledParts(y, p, o, t, role, held, r);
    SetsWithout(y.parts, p);
    forall q <- r.parts ensures Marked(r, q, e, f) && QueuedOnlyAt(r.kernel, q, e, f) {
      assert Marked(y, q, e, f) && QueuedOnlyAt(y.kernel, q, e, f);
      KilledMarks(y, p, o, t, role, held, r, e, f, q);
      QueuedOnlyKept(y.kernel, r.kernel, q, e, f);
    }
  }

  lemma QueuedOnlyKept(k: State, k': State, q: nat, e: nat, f: nat)
    requires QueuedOnlyAt(k, q, e, f) && |k'.sems| == |k.sems|
    requires forall j :: 0 <= j < |k.sems| && j != e && j != f ==> k'.sems[j].queue == k.sems[j].queue
    ensures QueuedOnlyAt(k', q, e, f)
  {
  }

  // ---------------------------------------------------------------- others have both semaphores open

  /** Another participant has the first semaphore open, or both. */
  ghost predicate OtherHas(y: Sys, p: nat, both: bool) {
    exists q :: q in Having(y.parts, both) && q != p
  }

  function Having(parts: map<nat, Part>, both: bool): set<nat> {
    if both then WithFull(parts) else WithEmpty(parts)
  }

  lemma TwoAtLeast(s: set<nat>, p: nat)
    requires p in s
    ensures |s| >= 2 <==> exists q :: q != p && q in s
    ensures |s| >= 1
  {
    assert |s - {p}| == |s| - 1;
    if q :| q != p && q in s { assert q in s - {p}; }
    if |s| >= 2 { var q :| q in s - {p}; }
  }

  lemma KilledPartsOk(y: Sys, name: string, p: nat, r: Sys)
    requires Parts(y, name) && p in y.parts && r.parts == y.parts - {p} && SamePlaces(y, r, name)
    requires r.kernel.procs.Keys == y.kernel.procs.Keys - {p}
    requires forall q <- r.parts :: Blocked(r, q) ==> Blocked(y, q)
    ensures Parts(r, name)
  {
    hide EmptyName, FullName, Find;
    assert |r.kernel.procs| == |r.kernel.procs.Keys|;
    assert |y.kernel.procs| == |y.kernel.procs.Keys|;
    SubsetSize(r.kernel.procs.Keys, y.kernel.procs.Keys);
  }

  lemma KilledShape(y: Sys, p: nat, o: nat, t: nat, role: Role, held: bool, r: Sys)
    requires Stands(y, p, o, t, role, held)
    requires r.kernel == Released(Released(Without(y.kernel, p), p, t, false), p, o, held) && r.parts == y.parts - {p}
    ensures |r.kernel.sems| == |y.kernel.sems| && r.kernel.procs.Keys == y.kernel.procs.Keys - {p}
    ensures forall q <- r.parts :: Blocked(r, q) ==> Blocked(y, q)
    ensures forall j :: 0 <= j < |y.kernel.sems| ==>
              r.kernel.sems[j].name == y.kernel.sems[j].name
              && r.kernel.sems[j].opens == y.kernel.sems[j].opens - One(j == o || j == t)
  {
    hide Removed, Inside, Released, SideOk, Waits, SetHeld, SetBlocked;
    var a := y.kernel.sems[o];
    KilledParts(y, p, o, t, role, held, r);
    KilledBlocks(y, p, o, role, held, r);
    if Hands(p, a, held) { SemaphoreLaws.WokenBits(y.kernel.procs - {p}, a.queue[0], o, o); }
  }

  lemma SharedDeath(y: Sys, name: string, p: nat)
    requires Kept(y, name) && p in y.parts && HasBoth(y.parts[p].pc) && OtherHas(y, p, true)
    ensures Inv(Killed(y, p), name) <==> !(y.parts[p].pc == Idle && y.parts[p].calls > 0)
    ensures Books(Killed(y, p), name) && Named(Killed(y, p).kernel, name)
  {
    hide EmptyName, FullName, Find, Full, Stands, Parts, Sides, SideOk, BooksAt, Tokens, Killed, SlotSeen, Released;
    KilledState(y, name, p);
    var r, role := Killed(y, p), y.parts[p].role;
    var e, f := EmptyAt(y.kernel, name), FullAt(y.kernel, name);
    var o, t := Own(role, e, f), Own(Other(role), e, f);
    var held := y.parts[p].calls > 0 || IsInside(y, p);
    KilledRest(y, p);
    KilledShape(y, p, o, t, role, held, r);
    StillOpen(y, p, e, f);
    PlacesAfter(y, name, r);
    NamedSame(y.kernel, r.kernel, name);
    KilledPartsOk(y, name, p, r);
    KilledBooks(y, p, o, t, role, held, r, e, f);
    KilledTokens(y, p, o, t, role, held, r);
    BalancedIs(y, e, f);
    BalancedIs(r, e, f);
    TokensSwap(y, e, f);
    TokensSwap(r, e, f);
    SidesSwap(r, r.kernel.sems[o], role, r.kernel.sems[t]);
    if !(y.parts[p].pc == Idle && y.parts[p].calls > 0) {
      KilledData(y, p, o, t, role, held, r);
    }
  }

  lemma KilledRest(y: Sys, p: nat)
    ensures var r := Killed(y, p);
            && r.parts == y.parts - {p} && r.slot == y.slot && r.puts == y.puts && r.takes == y.takes
            && (SlotSeen(y) ==> SlotSeen(r))
  {
    hide Cleanup;
  }

  lemma StillOpen(y: Sys, p: nat, e: nat, f: nat)
    requires BooksAt(y, e, f) && e < |y.kernel.sems| && f < |y.kernel.sems| && p in y.parts && HasBoth(y.parts[p].pc)
    ensures y.kernel.sems[f].opens >= 1 && (y.kernel.sems[f].opens >= 2 <==> OtherHas(y, p, true))
    ensures y.kernel.sems[e].opens >= 1 && (y.kernel.sems[e].opens >= 2 <==> OtherHas(y, p, false))
    ensures OtherHas(y, p, true) ==> OtherHas(y, p, false)
  {
    TwoAtLeast(WithFull(y.parts), p);
    TwoAtLeast(WithEmpty(y.parts), p);
    assert Having(y.parts, true) == WithFull(y.parts) && Having(y.parts, false) == WithEmpty(y.parts);
    if q :| q != p && q in WithFull(y.parts) { assert q in WithEmpty(y.parts); }
  }

  lemma BalancedIs(y: Sys, e: nat, f: nat)
    requires e < |y.kernel.sems| && f < |y.kernel.sems|
    ensures var a, b := y.kernel.sems[e], y.kernel.sems[f];
            Balanced(y, a, b) <==> Sides(y, a, Writer, b) && Tokens(y, e, f) == 1 && SlotSeen(y)
                                   && y.puts == if Full(y, b) then y.takes + [y.slot] else y.takes
  {
    hide SideOk, Full, SlotSeen;
  }

  lemma TokensSwap(y: Sys, e: nat, f: nat)
    requires e < |y.kernel.sems| && f < |y.kernel.sems|
    ensures Tokens(y, e, f) == Tokens(y, f, e)
  {
  }

  lemma SidesSwap(y: Sys, a: Sem, role: Role, b: Sem)
    ensures Sides(y, a, role, b) <==> Sides(y, b, Other(role), a)
  {
    hide SideOk;
  }

  // ---------------------------------------------------------------- nobody else has both open

  lemma NobodyLeft(y: Sys, p: nat, r: Sys)
    requires r.parts == y.parts - {p} && !OtherHas(y, p, true)
    ensures Inside(r) == {} && forall q: nat, role :: !Waits(r, q, role)
  {
    assert Having(y.parts, true) == WithFull(y.parts);
    forall q <- r.parts ensures !HasBoth(r.parts[q].pc) { assert q !in WithFull(y.parts); }
  }

  /** The last one with both open: the second semaphore goes with it, and the first is left as new exactly if it dies
      with no value in the slot and no unit from an earlier put on its mark. */
  lemma LastData(y: Sys, p: nat, o: nat, t: nat, role: Role, held: bool, r: Sys)
    requires Stands(y, p, o, t, role, held) && Tokens(y, o, t) == 1 && !OtherHas(y, p, true)
    requires r.kernel == Released(Released(Without(y.kernel, p), p, t, false), p, o, held) && r.parts == y.parts - {p}
    ensures |r.kernel.sems| == |y.kernel.sems|
    ensures var e, f := if role.Reader? then t else o, if role.Reader? then o else t;
            && r.kernel.sems[e].queue == [] && r.kernel.sems[f].queue == []
            && (!Full(y, y.kernel.sems[f]) ==>
                  (r.kernel.sems[e].value == 1 <==> !(role.Writer? && y.parts[p].pc == Idle && y.parts[p].calls > 0)))
  {
    hide Removed, Released, Waits, SetBlocked, SetHeld, SideOk;
    KilledParts(y, p, o, t, role, held, r);
    KilledTokens(y, p, o, t, role, held, r);
    NobodyLeft(y, p, r);
    var a, b := y.kernel.sems[o], y.kernel.sems[t];
    EmptySide(r, r.kernel.sems[o], role);
    EmptySide(r, r.kernel.sems[t], Other(role));
    if !Full(y, if role.Reader? then a else b) && role.Reader? {
      ReaderOutside(y, p, a);
      QueuedIffBlocked(y, p, o, t, role, held);
      OnlyItWaits(y, p, a, role);
    }
  }

  lemma EmptySide(y: Sys, m: Sem, role: Role)
    requires SideOk(y, m, role) && forall q: nat :: !Waits(y, q, role)
    ensures m.queue == [] && m.value >= 0
  {
    SemaphoreLaws.HeadIn(m.queue, {});
  }

  lemma OnlyItWaits(y: Sys, p: nat, m: Sem, role: Role)
    requires SideOk(y, m, role) && !OtherHas(y, p, true)
    ensures p !in m.queue ==> m.queue == []
    ensures m.queue == [] <==> m.value >= 0
  {
    assert Having(y.parts, true) == WithFull(y.parts);
    forall q <- m.queue ensures q in {p} {
      assert Waits(y, q, role);
      assert q in WithFull(y.parts);
    }
    SemaphoreLaws.HeadIn(m.queue, {p});
  }

  lemma ReaderOutside(y: Sys, p: nat, f: Sem)
    requires !Full(y, f) && p in y.parts && y.parts[p].role == Reader
    ensures !IsInside(y, p)
  {
    assert IsReader(y.parts, p);
    assert p in Inside(y) <==> IsInside(y, p);
  }

  /** Where the two semaphores are when the second one has gone. */
  lemma LastPlaces(y: Sys, name: string, r: Sys)
    requires Named(y.kernel, name) && |r.kernel.sems| == |y.kernel.sems|
    requires EmptyAt(y.kernel, name) < |y.kernel.sems| && FullAt(y.kernel, name) < |y.kernel.sems|
    requires forall j :: 0 <= j < |y.kernel.sems| ==>
               r.kernel.sems[j].name == y.kernel.sems[j].name
               && r.kernel.sems[j].opens == y.kernel.sems[j].opens
                                            - One(j == EmptyAt(y.kernel, name) || j == FullAt(y.kernel, name))
    requires r.kernel.sems[FullAt(y.kernel, name)].opens == 0
    ensures FullAt(r.kernel, name) == |y.kernel.sems|
    ensures EmptyAt(r.kernel, name) == if r.kernel.sems[EmptyAt(y.kernel, name)].opens > 0 then EmptyAt(y.kernel, name) else |y.kernel.sems|
    ensures Named(r.kernel, name)
  {
    hide EmptyName, FullName;
    NamesDiffer(name);
    var e, f, sems := EmptyAt(y.kernel, name), FullAt(y.kernel, name), r.kernel.sems;
    ClosedIsGone(y.kernel.sems, sems, FullName(name));
    if sems[e].opens == 0 {
      ClosedIsGone(y.kernel.sems, sems, EmptyName(name));
    } else {
      FindSame(y.kernel.sems, sems, EmptyName(name));
    }
  }

  lemma ClosedIsGone(sems: seq<Sem>, sems': seq<Sem>, name: string)
    requires |sems'| == |sems| && OneOpen(sems, name)
    requires Find(sems, name, 0) < |sems| && sems'[Find(sems, name, 0)].opens == 0
    requires forall j :: 0 <= j < |sems| ==> sems'[j].name == sems[j].name && (sems'[j].opens > 0 ==> sems[j].opens > 0)
    ensures Find(sems', name, 0) == |sems| && OneOpen(sems', name)
  {
    forall j | 0 <= j < |sems| ensures !(sems'[j].opens > 0 && sems'[j].name == name) { }
  }

  lemma LastBooks(y: Sys, name: string, p: nat, r: Sys, e: nat, f: nat, e': nat, f': nat)
    requires BooksAt(r, e, f) && e < |r.kernel.sems| == f' && f < |r.kernel.sems| && e != f
    requires e' == if r.kernel.sems[e].opens > 0 then e else |r.kernel.sems|
    requires r.kernel.sems[e].queue == [] && r.kernel.sems[f].queue == [] && r.kernel.sems[f].opens == 0
    ensures BooksAt(r, e', f')
  {
    hide Inside, IsInside;
    forall q <- r.parts ensures Marked(r, q, e', f') && QueuedOnlyAt(r.kernel, q, e', f') {
      assert Marked(r, q, e, f) && QueuedOnlyAt(r.kernel, q, e, f);
      assert HasBoth(r.parts[q].pc) ==> q in WithFull(r.parts);
      assert r.parts[q].pc != New ==> q in WithEmpty(r.parts);
    }
  }

  lemma LastDeath(y: Sys, name: string, p: nat)
    requires Kept(y, name) && p in y.parts && HasBoth(y.parts[p].pc) && !OtherHas(y, p, true)
    ensures Inv(Killed(y, p), name) <==>
              && y.puts == y.takes
              && !(y.parts[p].role == Writer && y.parts[p].pc == Idle && y.parts[p].calls > 0 && OtherHas(y, p, false))
    ensures Books(Killed(y, p), name) && Named(Killed(y, p).kernel, name)
  {
    hide EmptyName, FullName, Find, Full, Stands, Sides, SideOk, BooksAt, Tokens, Killed, SlotSeen, Released, OtherHas;
    KilledState(y, name, p);
    var r, role := Killed(y, p), y.parts[p].role;
    var e, f := EmptyAt(y.kernel, name), FullAt(y.kernel, name);
    var o, t := Own(role, e, f), Own(Other(role), e, f);
    var held := y.parts[p].calls > 0 || IsInside(y, p);
    KilledRest(y, p);
    KilledShape(y, p, o, t, role, held, r);
    StillOpen(y, p, e, f);
    LastPlaces(y, name, r);
    KilledBooks(y, p, o, t, role, held, r, e, f);
    BalancedIs(y, e, f);
    TokensSwap(y, e, f);
    LastData(y, p, o, t, role, held, r);
    LastBooks(y, name, p, r, e, f, EmptyAt(r.kernel, name), FullAt(r.kernel, name));
    LastParts(y, name, p, r);
  }

  lemma LastParts(y: Sys, name: string, p: nat, r: Sys)
    requires Parts(y, name) && p in y.parts && r.parts == y.parts - {p} && !OtherHas(y, p, true)
    requires |r.kernel.sems| == MAX_SEMS && r.kernel.procs.Keys == y.kernel.procs.Keys - {p}
    requires forall q <- r.parts :: Blocked(r, q) ==> Blocked(y, q)
    requires FullAt(r.kernel, name) == MAX_SEMS && (OtherHas(y, p, false) ==> EmptyAt(r.kernel, name) < MAX_SEMS)
    ensures Parts(r, name)
  {
    hide EmptyName, FullName, Find;
    assert Having(y.parts, true) == WithFull(y.parts) && Having(y.parts, false) == WithEmpty(y.parts);
    assert |r.kernel.procs| == |r.kernel.procs.Keys|;
    assert |y.kernel.procs| == |y.kernel.procs.Keys|;
    SubsetSize(r.kernel.procs.Keys, y.kernel.procs.Keys);
    forall q <- r.parts ensures !HasBoth(r.parts[q].pc) { assert q !in WithFull(y.parts); }
    forall q <- r.parts ensures r.parts[q].pc != New ==> OtherHas(y, p, false) {
      assert r.parts[q].pc != New ==> q in Having(y.parts, false);
    }
  }

  // ---------------------------------------------------------------- a participant that has not opened both

  lemma QueuedNowhere(y: Sys, name: string, p: nat)
    requires Kept(y, name) && p in y.parts && !HasBoth(y.parts[p].pc)
    ensures forall j :: 0 <= j < |y.kernel.sems| ==> p !in y.kernel.sems[j].queue
    ensures !Blocked(y, p) && !IsInside(y, p) && p in y.kernel.procs
  {
    hide EmptyName, FullName, Find, Full;
    var e, f := EmptyAt(y.kernel, name), FullAt(y.kernel, name);
    assert QueuedOnlyAt(y.kernel, p, e, f) && Marked(y, p, e, f);
    assert forall role :: !Waits(y, p, role);
    if f < MAX_SEMS { NamesDiffer(name); }
  }

  /** The others are as they were, and so are the units of both semaphores. */
  lemma EarlyInv(y: Sys, name: string, p: nat, r: Sys)
    requires Inv(y, name) && p in y.parts && !HasBoth(y.parts[p].pc) && !Blocked(y, p) && Parts(r, name)
    requires OthersStay(y, p, r) && r.slot == y.slot && r.puts == y.puts && r.takes == y.takes && |r.kernel.sems| == |y.kernel.sems|
    requires FullAt(r.kernel, name) == FullAt(y.kernel, name)
    requires EmptyAt(r.kernel, name) == EmptyAt(y.kernel, name)
          || (EmptyAt(r.kernel, name) == FullAt(r.kernel, name) == MAX_SEMS)
    requires forall j :: 0 <= j < |y.kernel.sems| ==>
               r.kernel.sems[j].value == y.kernel.sems[j].value && r.kernel.sems[j].queue == y.kernel.sems[j].queue
    ensures Inv(r, name)
  {
    hide EmptyName, FullName, Find, Inside, Waits, SideOk, Parts;
    OthersWait(y, p, r);
    var e, f := EmptyAt(y.kernel, name), FullAt(y.kernel, name);
    if f < MAX_SEMS {
      assert e < MAX_SEMS == |y.kernel.sems| by { PartsGive(y, name); }
      NotInside(y, p);
      assert Inside(r) == Inside(y);
      EarlyBalanced(y, y.kernel.sems[e], y.kernel.sems[f], p, r, r.kernel.sems[e], r.kernel.sems[f]);
    } else {
      PartsGive(y, name);
    }
  }

  lemma PartsGive(y: Sys, name: string)
    requires Parts(y, name)
    ensures |y.kernel.sems| == MAX_SEMS && (FullAt(y.kernel, name) < MAX_SEMS ==> EmptyAt(y.kernel, name) < MAX_SEMS)
  {
  }

  lemma NotInside(y: Sys, p: nat)
    requires p in y.parts && !HasBoth(y.parts[p].pc)
    ensures p !in Inside(y) && forall role :: !Waits(y, p, role)
  {
  }

  lemma EarlyBalanced(y: Sys, e: Sem, f: Sem, p: nat, r: Sys, e': Sem, f': Sem)
    requires Balanced(y, e, f) && r.parts == y.parts - {p} && Inside(r) == Inside(y) && p !in Inside(y)
    requires forall q: nat, role :: Waits(r, q, role) <==> Waits(y, q, role)
    requires e'.value == e.value && e'.queue == e.queue && f'.value == f.value && f'.queue == f.queue
    requires r.slot == y.slot && r.puts == y.puts && r.takes == y.takes
    ensures Balanced(r, e', f')
  {
    hide Inside, Waits;
    forall q | q in Inside(y) ensures IsReader(r.parts, q) <==> IsReader(y.parts, q) { assert q != p; }
  }

  lemma NewDeath(y: Sys, name: string, p: nat)
    requires Kept(y, name) && p in y.parts && y.parts[p].pc == New
    ensures Kept(Killed(y, p), name)
  {
    hide EmptyName, FullName, Find, Cleanup, Inv, Inside, IsInside, Blocked;
    QueuedNowhere(y, name, p);
    NamesDiffer(name);
    var r, e, f := Killed(y, p), EmptyAt(y.kernel, name), FullAt(y.kernel, name);
    assert Marked(y, p, e, f);
    CleanNone(y.kernel, p);
    assert Parts(y, name) by { InvParts(y, name); }
    StayBy(y, p, r);
    KilledPartsOk(y, name, p, r);
    EarlyInv(y, name, p, r);
    EarlyBooks(y, p, r, e, f, e);
    NamedSame(y.kernel, r.kernel, name);
  }

  lemma InvParts(y: Sys, name: string)
    requires Inv(y, name)
    ensures Parts(y, name)
  {
  }

  lemma StayBy(y: Sys, p: nat, r: Sys)
    requires r.parts == y.parts - {p} && r.kernel.procs == y.kernel.procs - {p}
    ensures OthersStay(y, p, r) && forall q <- r.parts :: Blocked(r, q) ==> Blocked(y, q)
  {
  }

  lemma EarlyBooks(y: Sys, p: nat, r: Sys, e: nat, f: nat, e': nat)
    requires BooksAt(y, e, f) && p in y.parts && r.parts == y.parts - {p} && r.kernel.procs == y.kernel.procs - {p}
    requires !HasBoth(y.parts[p].pc) && |r.kernel.sems| == |y.kernel.sems|
    requires forall j :: 0 <= j < |y.kernel.sems| ==>
               && r.kernel.sems[j].queue == y.kernel.sems[j].queue
               && r.kernel.sems[j].opens == y.kernel.sems[j].opens - One(j == e && y.parts[p].pc != New)
    requires e' == e || (e < |y.kernel.sems| <= e' && r.kernel.sems[e].opens == 0 && y.kernel.sems[e].queue == [])
    requires e != f || e >= |y.kernel.sems|
    ensures BooksAt(r, e', f)
  {
    hide Inside, IsInside, WithEmpty, WithFull, Marked, QueuedOnlyAt;
    SetsWithout(y.parts, p);
    forall q <- r.parts ensures Marked(r, q, e', f) && QueuedOnlyAt(r.kernel, q, e', f) {
      assert Marked(y, q, e, f) && QueuedOnlyAt(y.kernel, q, e, f);
      EarlyMarks(y, p, r, e, f, e', q);
    }
  }

  lemma EarlyMarks(y: Sys, p: nat, r: Sys, e: nat, f: nat, e': nat, q: nat)
    requires p in y.parts && r.parts == y.parts - {p} && r.kernel.procs == y.kernel.procs - {p} && |r.kernel.sems| == |y.kernel.sems|
    requires q in y.parts && q != p && Marked(y, q, e, f) && QueuedOnlyAt(y.kernel, q, e, f)
    requires forall j :: 0 <= j < |y.kernel.sems| ==> r.kernel.sems[j].queue == y.kernel.sems[j].queue
    requires e' == e || (e < |y.kernel.sems| && |WithEmpty(r.parts)| == 0 && y.kernel.sems[e].queue == [])
    ensures Marked(r, q, e', f) && QueuedOnlyAt(r.kernel, q, e', f)
  {
    assert r.parts[q].pc != New ==> q in WithEmpty(r.parts);
  }

  /** With the first semaphore open only, p has gone: one reference less. */
  ghost predicate Halved(y: Sys, name: string, p: nat, r: Sys) {
    && Kept(y, name) && p in y.parts && y.parts[p].pc == HasEmpty && !Blocked(y, p) && p in y.kernel.procs
    && EmptyAt(y.kernel, name) < |y.kernel.sems| == MAX_SEMS && y.kernel.sems[EmptyAt(y.kernel, name)].opens > 0
    && EmptyAt(y.kernel, name) != FullAt(y.kernel, name)
    && r == y.(kernel := Loosened(Without(y.kernel, p), EmptyAt(y.kernel, name)), parts := y.parts - {p})
  }

  lemma HalfOpen(y: Sys, name: string, p: nat, r: Sys)
    requires Halved(y, name, p, r) && y.kernel.sems[EmptyAt(y.kernel, name)].opens > 1
    ensures Kept(r, name)
  {
    hide EmptyName, FullName, Find, Inv, Inside, IsInside, Blocked, WithEmpty, WithFull, BooksAt;
    assert Parts(y, name) by { InvParts(y, name); }
    StayBy(y, p, r);
    PlacesAfter(y, name, r);
    KilledPartsOk(y, name, p, r);
    EarlyInv(y, name, p, r);
    EarlyBooks(y, p, r, EmptyAt(y.kernel, name), FullAt(y.kernel, name), EmptyAt(y.kernel, name));
    NamedSame(y.kernel, r.kernel, name);
  }

  lemma HalfClosed(y: Sys, name: string, p: nat, r: Sys)
    requires Halved(y, name, p, r) && y.kernel.sems[EmptyAt(y.kernel, name)].opens == 1
    requires FullAt(y.kernel, name) >= MAX_SEMS && WithEmpty(y.parts) == {p}
    ensures Kept(r, name)
  {
    hide EmptyName, FullName, Find, Inv, Inside, IsInside, Blocked, WithEmpty, WithFull, BooksAt;
    NamesDiffer(name);
    assert Parts(y, name) by { InvParts(y, name); }
    StayBy(y, p, r);
    ClosedIsGone(y.kernel.sems, r.kernel.sems, EmptyName(name));
    OneElsewhere(y.kernel.sems, r.kernel.sems, EmptyAt(y.kernel, name), FullName(name));
    HalfParts(y, name, p, r);
    EarlyInv(y, name, p, r);
    HalfQueue(y, name);
    EarlyBooks(y, p, r, EmptyAt(y.kernel, name), FullAt(y.kernel, name), EmptyAt(r.kernel, name));
  }

  lemma OneElsewhere(sems: seq<Sem>, sems': seq<Sem>, i: nat, name: string)
    requires |sems'| == |sems| && i < |sems| && sems[i].name != name && sems'[i].name != name && OneOpen(sems, name)
    requires forall j :: 0 <= j < |sems| && j != i ==> sems'[j] == sems[j]
    ensures Find(sems', name, 0) == Find(sems, name, 0) && OneOpen(sems', name)
  {
    FindSame(sems, sems', name);
  }

  lemma HalfDeath(y: Sys, name: string, p: nat)
    requires Kept(y, name) && p in y.parts && y.parts[p].pc == HasEmpty
    ensures Kept(Killed(y, p), name)
  {
    hide EmptyName, FullName, Find, Cleanup, Inv, Inside, IsInside, Blocked, WithEmpty, WithFull;
    QueuedNowhere(y, name, p);
    NamesDiffer(name);
    var k := y.kernel;
    var e, f := EmptyAt(k, name), FullAt(k, name);
    assert Marked(y, p, e, f);
    PlacesOf(y, name, p);
    CleanOnly(k, p, e);
    HalfCounts(y, p, e, f);
    if k.sems[e].opens > 1 { HalfOpen(y, name, p, Killed(y, p)); } else { HalfClosed(y, name, p, Killed(y, p)); }
  }

  lemma PlacesOf(y: Sys, name: string, p: nat)
    requires Inv(y, name) && p in y.parts && y.parts[p].pc == HasEmpty
    ensures |y.kernel.sems| == MAX_SEMS && EmptyAt(y.kernel, name) < MAX_SEMS
  {
    hide EmptyName, FullName, Find, Balanced;
  }

  lemma HalfQueue(y: Sys, name: string)
    requires Inv(y, name) && FullAt(y.kernel, name) >= MAX_SEMS && EmptyAt(y.kernel, name) < MAX_SEMS
    ensures |y.kernel.sems| == MAX_SEMS && y.kernel.sems[EmptyAt(y.kernel, name)].queue == []
  {
    hide EmptyName, FullName, Find;
  }

  lemma HalfCounts(y: Sys, p: nat, e: nat, f: nat)
    requires BooksAt(y, e, f) && p in y.parts && y.parts[p].pc == HasEmpty && e < |y.kernel.sems|
    requires f < |y.kernel.sems| ==> y.kernel.sems[f].opens > 0
    ensures y.kernel.sems[e].opens >= 1 && (y.kernel.sems[e].opens == 1 ==> f >= |y.kernel.sems| && WithEmpty(y.parts) == {p})
  {
    assert p in WithEmpty(y.parts) && p !in WithFull(y.parts);
    SubsetSize({p} + WithFull(y.parts), WithEmpty(y.parts));
    if y.kernel.sems[e].opens == 1 { Singleton(WithEmpty(y.parts), p); }
  }

  lemma HalfParts(y: Sys, name: string, p: nat, r: Sys)
    requires Parts(y, name) && r.parts == y.parts - {p} && WithEmpty(y.parts) == {p}
    requires |r.kernel.sems| == MAX_SEMS && r.kernel.procs == y.kernel.procs - {p} && FullAt(r.kernel, name) == MAX_SEMS
    requires p in y.parts
    ensures Parts(r, name)
  {
    hide EmptyName, FullName, Find;
    assert |r.kernel.procs| == |r.kernel.procs.Keys|;
    assert |y.kernel.procs| == |y.kernel.procs.Keys|;
    SubsetSize(r.kernel.procs.Keys, y.kernel.procs.Keys);
    forall q <- r.parts ensures r.parts[q].pc == New { assert q !in WithEmpty(y.parts); }
  }

  // ---------------------------------------------------------------- the condition

  /** Between two calls, and marked as holding a unit: since the end of its first call, as it turns out. */
  predicate Rests(y: Sys, p: nat) {
    p in y.parts && p in y.kernel.procs && y.parts[p].pc == Idle && y.kernel.procs[p].held != {}
  }

  /** A full place is there to be taken, or participant p, a reader, has just taken it. */
  predicate Loaded(y: Sys, name: string, p: nat) {
    var f := FullAt(y.kernel, name);
    (f < |y.kernel.sems| && y.kernel.sems[f].value > 0) || (IsReader(y.parts, p) && IsInside(y, p))
  }

  /** When a participant can die without harm: always before it has both semaphores open; while others have both, whenever
      it does not rest between calls; as the last one, if it does not leave a loaded slot behind and is not a writer that
      rests while somebody is about to open the second semaphore. */
  ghost predicate SafeToDie(y: Sys, name: string, p: nat)
    requires p in y.parts
  {
    || !HasBoth(y.parts[p].pc)
    || (OtherHas(y, p, true) && !Rests(y, p))
    || (!OtherHas(y, p, true) && !Loaded(y, name, p)
        && !(y.parts[p].role == Writer && Rests(y, p) && OtherHas(y, p, false)))
  }

  lemma RestsIff(y: Sys, name: string, p: nat)
    requires Kept(y, name) && p in y.parts && HasBoth(y.parts[p].pc)
    ensures Rests(y, p) <==> y.parts[p].pc == Idle && y.parts[p].calls > 0
  {
    hide EmptyName, FullName, Find, Inv, Named;
    assert Marked(y, p, EmptyAt(y.kernel, name), FullAt(y.kernel, name));
  }

  /** For the last one, the slot is loaded just when a value was put and not taken. */
  lemma LoadedIff(y: Sys, name: string, p: nat)
    requires Kept(y, name) && p in y.parts && HasBoth(y.parts[p].pc) && !OtherHas(y, p, true)
    ensures Loaded(y, name, p) <==> y.puts != y.takes
  {
    hide EmptyName, FullName, Find, SideOk, SlotSeen, Books, Named;
    BothOpen(y, name, p);
    assert Having(y.parts, true) == WithFull(y.parts);
    forall q | q in Inside(y) ensures q == p { assert q in WithFull(y.parts); }
    assert p in Inside(y) <==> IsInside(y, p);
  }

  /** The death of a participant keeps everything that holds between steps, the token and the values, exactly under this
      condition. In particular one that dies inside its call, anywhere from its wait to its post, only undoes that call. */
  lemma DeathKeepsBufferIff(y: Sys, name: string, p: nat)
    requires Kept(y, name) && p in y.parts
    ensures Inv(Killed(y, p), name) <==> SafeToDie(y, name, p)
    ensures SafeToDie(y, name, p) ==> Kept(Killed(y, p), name)
  {
    hide Inv, Books, Named, Killed, OtherHas, Rests, Loaded;
    if y.parts[p].pc == New {
      NewDeath(y, name, p);
    } else if y.parts[p].pc == HasEmpty {
      HalfDeath(y, name, p);
    } else if OtherHas(y, p, true) {
      SharedDeath(y, name, p);
      RestsIff(y, name, p);
    } else {
      LastDeath(y, name, p);
      RestsIff(y, name, p);
      LoadedIff(y, name, p);
    }
  }

  /** While others have both open, a participant that rests between calls leaves a second token behind. */
  lemma DeathTokens(y: Sys, name: string, p: nat)
    requires Kept(y, name) && p in y.parts && HasBoth(y.parts[p].pc) && OtherHas(y, p, true)
    ensures var r := Killed(y, p); var e, f := EmptyAt(r.kernel, name), FullAt(r.kernel, name);
            e < |r.kernel.sems| && f < |r.kernel.sems| && Tokens(r, e, f) == 1 + One(Rests(y, p))
  {
    hide EmptyName, FullName, Find, Full, Stands, Parts, Sides, SideOk, BooksAt, Tokens, Killed, SlotSeen, Released;
    KilledState(y, name, p);
    var r, role := Killed(y, p), y.parts[p].role;
    var e, f := EmptyAt(y.kernel, name), FullAt(y.kernel, name);
    var o, t := Own(role, e, f), Own(Other(role), e, f);
    var held := y.parts[p].calls > 0 || IsInside(y, p);
    KilledRest(y, p);
    KilledShape(y, p, o, t, role, held, r);
    StillOpen(y, p, e, f);
    PlacesAfter(y, name, r);
    KilledTokens(y, p, o, t, role, held, r);
    BalancedIs(y, e, f);
    TokensSwap(y, e, f);
    TokensSwap(r, e, f);
    RestsIff(y, name, p);
  }

  // ---------------------------------------------------------------- runs with deaths

  datatype Move = Does(ev: Event) | Dies(pid: nat)

  ghost predicate Possible(y: Sys, x: Move, name: string) {
    match x
    case Does(ev) => Enabled(y, ev, name)
    case Dies(p) => p in y.parts && SafeToDie(y, name, p)
  }

  ghost function Moved(y: Sys, x: Move, name: string): Sys
    requires Possible(y, x, name)
  {
    match x
    case Does(ev) => Step(y, ev, name)
    case Dies(p) => Killed(y, p)
  }

  ghost predicate LegalMoves(y: Sys, xs: seq<Move>, name: string)
    decreases |xs|
  {
    xs == [] || (Possible(y, xs[0], name) && LegalMoves(Moved(y, xs[0], name), xs[1..], name))
  }

  ghost function AfterMoves(y: Sys, xs: seq<Move>, name: string): Sys
    requires LegalMoves(y, xs, name)
    decreases |xs|
  {
    if xs == [] then y else AfterMoves(Moved(y, xs[0], name), xs[1..], name)
  }

  lemma {:induction false} MovesKept(y: Sys, xs: seq<Move>, name: string)
    requires Kept(y, name) && LegalMoves(y, xs, name)
    ensures Kept(AfterMoves(y, xs, name), name)
    decreases |xs|
  {
    hide Kept, Enabled, Step, Killed, SafeToDie;
    if xs != [] {
      match xs[0] {
        case Does(ev) => StepKept(y, ev, name);
        case Dies(p) => DeathKeepsBufferIff(y, name, p);
      }
      MovesKept(Moved(y, xs[0], name), xs[1..], name);
    }
  }

  /** Deaths included, at any moment at which SafeToDie allows one: one token, and the values of the completed takes are
      those of the completed puts, in order, with at most the last one not yet taken. */
  lemma OnePlaceFifoWithDeaths(y: Sys, xs: seq<Move>, name: string)
    requires Fresh(y, name) && LegalMoves(y, xs, name)
    ensures var r := AfterMoves(y, xs, name); var e, f := EmptyAt(r.kernel, name), FullAt(r.kernel, name);
            && |r.kernel.sems| == MAX_SEMS
            && (f < MAX_SEMS ==> e < MAX_SEMS && Tokens(r, e, f) == 1)
            && (r.puts == r.takes || r.puts == r.takes + [r.slot])
  {
    hide EmptyName, FullName, Find, AfterMoves, LegalMoves, Books, Named;
    FreshKept(y, name);
    MovesKept(y, xs, name);
  }
}
