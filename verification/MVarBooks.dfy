/** What the kernel has on record about the participants of a one-place buffer: their marks, references and queues. */
module MVarBooks {
  import opened SemaphoreSpec
  import opened MVar
  import opened TwoSemaphores

  predicate HasBoth(pc: Pc) {
    pc != New && pc != HasEmpty
  }

  /** The participants with the first semaphore open, and those with both. */
  function WithEmpty(parts: map<nat, Part>): set<nat> {
    set p | p in parts && parts[p].pc != New
  }

  function WithFull(parts: map<nat, Part>): set<nat> {
    set p | p in parts && HasBoth(parts[p].pc)
  }

  /** The bitmaps of a participant: it has open what it has opened, and is marked as holding the semaphore that its role
      waits on from the first time it gets a unit of it, for ever. */
  ghost predicate Marked(y: Sys, p: nat, e: nat, f: nat)
    requires p in y.parts
  {
    && p in y.kernel.procs
    && var x, part := y.kernel.procs[p], y.parts[p];
       if !HasBoth(part.pc) then x.held == {} && part.calls == 0 && x.refs == (if part.pc == New then {} else {e})
       else x.refs == {e, f} && x.held == if part.calls > 0 || IsInside(y, p) then {Own(part.role, e, f)} else {}
  }

  function Own(role: Role, e: nat, f: nat): nat {
    if role.Writer? then e else f
  }

  /** Participants wait nowhere else, and only they have the two semaphores open. */
  ghost predicate BooksAt(y: Sys, e: nat, f: nat) {
    && (forall p <- y.parts :: Marked(y, p, e, f) && QueuedOnlyAt(y.kernel, p, e, f))
    && (e < |y.kernel.sems| ==> y.kernel.sems[e].opens == |WithEmpty(y.parts)|)
    && (f < |y.kernel.sems| ==> y.kernel.sems[f].opens == |WithFull(y.parts)|)
  }

  ghost predicate Books(y: Sys, name: string) {
    BooksAt(y, EmptyAt(y.kernel, name), FullAt(y.kernel, name))
  }

  // ---------------------------------------------------------------- every step keeps them

  /** The sets of participants change by the one that takes the step. */
  lemma SetsAfter(parts: map<nat, Part>, p: nat, part: Part)
    ensures var r := parts[p := part];
            && WithEmpty(r) == (if part.pc != New then WithEmpty(parts) + {p} else WithEmpty(parts) - {p})
            && WithFull(r) == (if HasBoth(part.pc) then WithFull(parts) + {p} else WithFull(parts) - {p})
  {
  }

  /** Where the two semaphores are does not change. */
  ghost predicate SamePlaces(y: Sys, y': Sys, name: string) {
    |y'.kernel.sems| == |y.kernel.sems| && EmptyAt(y'.kernel, name) == EmptyAt(y.kernel, name) && FullAt(y'.kernel, name) == FullAt(y.kernel, name)
  }

  /** A participant whose bits and part, and being inside, do not change keeps its mark. */
  lemma MarkedSame(y: Sys, q: nat, y': Sys, e: nat, f: nat)
    requires q in y.parts && q in y'.parts && Marked(y, q, e, f) && y'.parts[q] == y.parts[q] && IsInside(y', q) == IsInside(y, q)
    requires q in y'.kernel.procs && y'.kernel.procs[q].held == y.kernel.procs[q].held
    requires y'.kernel.procs[q].refs == y.kernel.procs[q].refs
    ensures Marked(y', q, e, f)
  {
    hide IsInside;
  }

  lemma JoinBooks(y: Sys, name: string, p: nat, role: Role)
    requires Books(y, name) && Enabled(y, Join(p, role), name)
    ensures Books(Step(y, Join(p, role), name), name)
  {
    hide EmptyName, FullName, Find, Marked, QueuedOnlyAt, IsInside;
    var y', e, f := Step(y, Join(p, role), name), EmptyAt(y.kernel, name), FullAt(y.kernel, name);
    SetsAfter(y.parts, p, Part(role, New, 0));
    forall q <- y.parts ensures Marked(y', q, e, f) {
      assert Marked(y, q, e, f);
      assert IsInside(y', q) == IsInside(y, q) by { InsideBy(y, y', q); }
      MarkedLive(y, q, e, f);
      MarkedSame(y, q, y', e, f);
    }
    NewMark(y', p, e, f);
    assert WithEmpty(y'.parts) == WithEmpty(y.parts) && WithFull(y'.parts) == WithFull(y.parts);
  }

  lemma InsideBy(y: Sys, y': Sys, q: nat)
    requires q in y.parts && q in y'.parts && y'.parts[q] == y.parts[q] && Blocked(y', q) == Blocked(y, q)
    ensures IsInside(y', q) == IsInside(y, q)
  {
  }

  lemma MarkedLive(y: Sys, q: nat, e: nat, f: nat)
    requires q in y.parts && Marked(y, q, e, f)
    ensures q in y.kernel.procs
  {
  }

  lemma NewMark(y: Sys, p: nat, e: nat, f: nat)
    requires p in y.parts && y.parts[p].pc == New && y.parts[p].calls == 0 && JustCreated(y.kernel, p)
    ensures Marked(y, p, e, f) && QueuedOnlyAt(y.kernel, p, e, f)
  {
  }

  lemma OthersBooks(y: Sys, name: string, k: State)
    requires Inv(y, name) && Books(y, name) && Enabled(y, Others(k), name)
    ensures Books(Step(y, Others(k), name), name)
  {
    hide EmptyName, FullName, Find, Inv, Marked, QueuedOnlyAt, OneOpen, IsInside, Blocked;
    var y', e, f := Step(y, Others(k), name), EmptyAt(y.kernel, name), FullAt(y.kernel, name);
    forall q <- y.parts ensures Marked(y', q, e, f) {
      assert Marked(y, q, e, f);
      MarkedLive(y, q, e, f);
      OtherBlocks(y, k, q);
      InsideBy(y, y', q);
      MarkedSame(y, q, y', e, f);
    }
  }

  lemma OtherBlocks(y: Sys, k: State, q: nat)
    requires q in y.kernel.procs && q in k.procs && k.procs[q] == y.kernel.procs[q]
    ensures Blocked(y.(kernel := k), q) == Blocked(y, q)
  {
  }

  /** What a participant with both semaphores open does keeps the books if the marks stay right. */
  lemma BooksStep(y: Sys, p: nat, y': Sys, e: nat, f: nat)
    requires BooksAt(y, e, f) && p in y.parts && y'.parts.Keys == y.parts.Keys && |y'.kernel.sems| == |y.kernel.sems|
    requires HasBoth(y.parts[p].pc) && HasBoth(y'.parts[p].pc) && forall q <- y.parts :: q != p ==> y'.parts[q] == y.parts[q]
    requires forall j :: 0 <= j < |y.kernel.sems| ==>
               y'.kernel.sems[j].opens == y.kernel.sems[j].opens && (j != e && j != f ==> y'.kernel.sems[j] == y.kernel.sems[j])
    requires forall q <- y.parts :: Marked(y', q, e, f)
    ensures BooksAt(y', e, f)
  {
    hide Marked;
    assert WithEmpty(y'.parts) == WithEmpty(y.parts);
    assert WithFull(y'.parts) == WithFull(y.parts);
    forall q <- y.parts ensures QueuedOnlyAt(y'.kernel, q, e, f) { assert QueuedOnlyAt(y.kernel, q, e, f); }
  }

  lemma AccessBooks(y: Sys, name: string, p: nat)
    requires Inv(y, name) && Books(y, name) && Enabled(y, Access(p), name)
    ensures Books(Step(y, Access(p), name), name)
  {
    hide EmptyName, FullName, Find, Inv;
    var y', e, f := Step(y, Access(p), name), EmptyAt(y.kernel, name), FullAt(y.kernel, name);
    forall q <- y.parts ensures Marked(y', q, e, f) {
      assert IsInside(y', q) == IsInside(y, q);
      if q != p { MarkedSame(y, q, y', e, f); }
    }
    BooksStep(y, p, y', e, f);
  }

  /** The caller of wait: marked, or parked with the mark it had. */
  lemma BeginMark(y: Sys, p: nat, value: int, i: nat, took: bool, y': Sys, e: nat, f: nat, q: nat)
    requires Runs(y, p) && y.parts[p].pc == Idle && i == Own(y.parts[p].role, e, f) && q in y.parts && Marked(y, q, e, f)
    requires y'.parts == At(y, p, Entered(value))
    requires y'.kernel.procs == if took then SetHeld(y.kernel.procs, p, i, true) else SetBlocked(y.kernel.procs, p, true)
    ensures Marked(y', q, e, f)
  {
    if q != p { MarkedSame(y, q, y', e, f); }
  }

  lemma BeginBooks(y: Sys, name: string, p: nat, value: int)
    requires Inv(y, name) && Books(y, name) && Enabled(y, Begin(p, value), name) && SamePlaces(y, Step(y, Begin(p, value), name), name)
    ensures Books(Step(y, Begin(p, value), name), name)
  {
    hide EmptyName, FullName, Find, Inv, Balanced, Step, Marked, SetHeld, SetBlocked, QueuedOnlyAt, WithEmpty, WithFull;
    BothOpen(y, name, p);
    var y', e, f := Step(y, Begin(p, value), name), EmptyAt(y.kernel, name), FullAt(y.kernel, name);
    var i := Own(y.parts[p].role, e, f);
    BeginIs(y, name, p, value, i);
    forall q <- y.parts ensures Marked(y', q, e, f) {
      assert Marked(y, q, e, f);
      BeginMark(y, p, value, i, y.kernel.sems[i].value > 0, y', e, f, q);
    }
    BooksStep(y, p, y', e, f);
  }

  /** The marks after a unit has come back to semaphore j: the first in line is inside and marked. */
  lemma ReturnMarks(y: Sys, q: nat, j: nat, role: Role, y': Sys, e: nat, f: nat)
    requires q in y.parts && q in y'.parts && y'.parts[q] == y.parts[q] && Marked(y, q, e, f)
    requires j < |y.kernel.sems| && j == Own(role, e, f) && SideOk(y, y.kernel.sems[j], role)
    requires y'.kernel == Return(y.kernel, j)
    ensures Marked(y', q, e, f)
  {
    hide QueuedOnlyAt, Inside;
    var m := y.kernel.sems[j];
    if m.queue != [] {
      var w := m.queue[0];
      assert w in m.queue && Waits(y, w, role);
      if q != w { MarkedSame(y, q, y', e, f); }
    } else {
      MarkedSame(y, q, y', e, f);
    }
  }

  /** Clearing a mark that is not there. */
  lemma ClearedNothing(procs: Procs, p: nat, j: nat)
    requires p in procs && j !in procs[p].held
    ensures SetHeld(procs, p, j, false) == procs
  {
    assert procs[p].held - {j} == procs[p].held;
    assert procs[p := procs[p]] == procs;
  }

  /** The semaphores after a post: only semaphore j changes, and not in name or references. */
  lemma ReturnSems(k: State, j: nat)
    requires j < |k.sems|
    ensures var r := Return(k, j).sems;
            |r| == |k.sems| && r[j].opens == k.sems[j].opens && forall l :: 0 <= l < |k.sems| && l != j ==> r[l] == k.sems[l]
  {
  }

  lemma EndMark(y: Sys, p: nat, j: nat, role: Role, y': Sys, e: nat, f: nat)
    requires p in y.parts && y.parts[p].pc.Done? && y.parts[p].role != role && Marked(y, p, e, f)
    requires j < |y.kernel.sems| && SideOk(y, y.kernel.sems[j], role)
    requires y'.kernel == Return(y.kernel, j) && y'.parts == Home(y, p)
    ensures Marked(y', p, e, f)
  {
    hide Return, SideOk;
    ReturnBits(y, p, j, role);
  }

  lemma EndBooks(y: Sys, name: string, p: nat)
    requires Inv(y, name) && Books(y, name) && Enabled(y, End(p), name) && SamePlaces(y, Step(y, End(p), name), name)
    ensures Books(Step(y, End(p), name), name)
  {
    hide EmptyName, FullName, Find, Inv, SideOk, SetHeld, SetBlocked, Data, Marked, Return, QueuedOnlyAt, WithEmpty, WithFull, Inside, IsInside;
    BothOpen(y, name, p);
    var y', e, f := Step(y, End(p), name), EmptyAt(y.kernel, name), FullAt(y.kernel, name);
    var other := Other(y.parts[p].role);
    var j := Own(other, e, f);
    NotMarked(y, p, e, f);
    ClearedNothing(y.kernel.procs, p, j);
    assert y'.kernel == Return(y.kernel, j) && y'.parts == Home(y, p) by { EndParts(y, name, p); }
    forall q <- y.parts ensures Marked(y', q, e, f) {
      assert Marked(y, q, e, f);
      if q != p { ReturnMarks(y, q, j, other, y', e, f); } else { EndMark(y, p, j, other, y', e, f); }
    }
    ReturnSems(y.kernel, j);
    BooksStep(y, p, y', e, f);
  }

  lemma NotMarked(y: Sys, p: nat, e: nat, f: nat)
    requires p in y.parts && Marked(y, p, e, f) && e != f
    ensures p in y.kernel.procs && Own(Other(y.parts[p].role), e, f) !in y.kernel.procs[p].held
  {
  }

  /** One who is not in the queue keeps its bits. */
  lemma ReturnBits(y: Sys, p: nat, j: nat, role: Role)
    requires p in y.kernel.procs && j < |y.kernel.sems| && p in y.parts && y.parts[p].role != role
    requires SideOk(y, y.kernel.sems[j], role)
    ensures p in Return(y.kernel, j).procs && Return(y.kernel, j).procs[p] == y.kernel.procs[p]
  {
    assert p !in y.kernel.sems[j].queue;
  }

  // ---------------------------------------------------------------- opening

  /** Nobody has the semaphore open while it does not exist. */
  lemma NobodyHasEmpty(y: Sys, name: string)
    requires Inv(y, name) && EmptyAt(y.kernel, name) == MAX_SEMS
    ensures WithEmpty(y.parts) == {} && WithFull(y.parts) == {}
  {
    hide EmptyName, FullName, Find, Balanced;
  }

  lemma NobodyHasFull(y: Sys, name: string)
    requires Inv(y, name) && FullAt(y.kernel, name) == MAX_SEMS
    ensures WithFull(y.parts) == {}
  {
    hide EmptyName, FullName, Find, Balanced;
  }

  /** Opening marks nobody but the opener, whatever slot is used for a semaphore nobody has open. */
  lemma OpenMarks(y: Sys, p: nat, pc: Pc, i: nat, y': Sys, e: nat, f: nat, e': nat, f': nat, q: nat)
    requires q in y.parts && q != p && Runs(y, p) && Marked(y, q, e, f)
    requires y'.parts == At(y, p, pc) && y'.kernel.procs == SetOpened(y.kernel.procs, p, i, true)
    requires y.parts[q].pc != New ==> e' == e
    requires HasBoth(y.parts[q].pc) ==> f' == f
    ensures Marked(y', q, e', f')
  {
    assert IsInside(y', q) == IsInside(y, q);
  }

  lemma OpenerMarked(y: Sys, p: nat, y': Sys, e: nat, f: nat, e': nat, f': nat)
    requires Runs(y, p) && Marked(y, p, e, f)
    requires (y.parts[p].pc == New && y'.parts == At(y, p, HasEmpty) && y'.kernel.procs == SetOpened(y.kernel.procs, p, e', true))
          || (y.parts[p].pc == HasEmpty && e' == e && y'.parts == At(y, p, Idle)
              && y'.kernel.procs == SetOpened(y.kernel.procs, p, f', true))
    ensures Marked(y', p, e', f')
  {
  }

  /** Slot i is found or created for the first semaphore, or for the second one. */
  ghost predicate OpensFirst(y: Sys, y': Sys, p: nat, i: nat, e: nat, f: nat, e': nat, f': nat) {
    && p in y.parts && y.parts[p].pc == New && y'.parts == At(y, p, HasEmpty) && i == e' && f' == f && i != f
    && (e == i || e == MAX_SEMS)
    && (e == MAX_SEMS ==> WithEmpty(y.parts) == {} && WithFull(y.parts) == {}) && (f == MAX_SEMS ==> WithFull(y.parts) == {})
  }

  ghost predicate OpensSecond(y: Sys, y': Sys, p: nat, i: nat, e: nat, f: nat, e': nat, f': nat) {
    && p in y.parts && y.parts[p].pc == HasEmpty && y'.parts == At(y, p, Idle) && i == f' && e' == e && i != e
    && (f == i || f == MAX_SEMS) && (f == MAX_SEMS ==> WithFull(y.parts) == {})
  }

  lemma OpenCounts(y: Sys, y': Sys, p: nat, i: nat, e: nat, f: nat, e': nat, f': nat)
    requires OpensFirst(y, y', p, i, e, f, e', f') || OpensSecond(y, y', p, i, e, f, e', f')
    ensures |WithEmpty(y'.parts)| == |WithEmpty(y.parts)| + if y.parts[p].pc == New then 1 else 0
    ensures |WithFull(y'.parts)| == |WithFull(y.parts)| + if y.parts[p].pc == New then 0 else 1
  {
    SetsAfter(y.parts, p, y'.parts[p]);
    assert y.parts[p].pc == New ==> WithFull(y'.parts) == WithFull(y.parts) && p !in WithEmpty(y.parts);
    assert y.parts[p].pc != New ==> WithEmpty(y'.parts) == WithEmpty(y.parts) && p !in WithFull(y.parts);
  }

  lemma OpenKeepsMark(y: Sys, y': Sys, p: nat, i: nat, e: nat, f: nat, e': nat, f': nat, q: nat)
    requires OpensFirst(y, y', p, i, e, f, e', f') || OpensSecond(y, y', p, i, e, f, e', f')
    requires q in y.parts && Marked(y, q, e, f) && Runs(y, p) && y'.kernel.procs == SetOpened(y.kernel.procs, p, i, true)
    ensures Marked(y', q, e', f')
  {
    hide Marked, SetOpened;
    if q == p {
      OpenerMarked(y, p, y', e, f, e', f');
    } else {
      assert y.parts[q].pc != New ==> q in WithEmpty(y.parts);
      assert HasBoth(y.parts[q].pc) ==> q in WithFull(y.parts);
      OpenMarks(y, p, y'.parts[p].pc, i, y', e, f, e', f', q);
    }
  }

  /** The books after an opening in slot i. */
  lemma OpenBooks(y: Sys, p: nat, i: nat, m: Sem, y': Sys, e: nat, f: nat, e': nat, f': nat)
    requires OpensFirst(y, y', p, i, e, f, e', f') || OpensSecond(y, y', p, i, e, f, e', f')
    requires BooksAt(y, e, f) && Runs(y, p) && i < MAX_SEMS == |y.kernel.sems|
    requires y'.kernel == State(y.kernel.sems[i := m], SetOpened(y.kernel.procs, p, i, true))
    requires m.queue == [] || m.queue == y.kernel.sems[i].queue
    requires m.opens == 1 + if i == e || i == f then y.kernel.sems[i].opens else 0
    ensures BooksAt(y', e', f')
  {
    hide Marked, SetOpened, QueuedOnlyAt, WithEmpty, WithFull;
    OpenCounts(y, y', p, i, e, f, e', f');
    forall q <- y.parts ensures Marked(y', q, e', f') && QueuedOnlyAt(y'.kernel, q, e', f') {
      assert Marked(y, q, e, f) && QueuedOnlyAt(y.kernel, q, e, f);
      OpenKeepsMark(y, y', p, i, e, f, e', f', q);
      QueuedOnlySame(y.kernel, y'.kernel, q, i, e, f, e', f');
    }
  }

  lemma QueuedOnlySame(k: State, k': State, q: nat, i: nat, e: nat, f: nat, e': nat, f': nat)
    requires QueuedOnlyAt(k, q, e, f) && |k'.sems| == |k.sems| && (i == e' || i == f')
    requires forall j :: 0 <= j < |k.sems| && j != i ==> k'.sems[j] == k.sems[j]
    requires (e' == e || e >= |k.sems|) && (f' == f || f >= |k.sems|)
    ensures QueuedOnlyAt(k', q, e', f')
  {
  }

  lemma OpenEmptyBooks(y: Sys, name: string, p: nat)
    requires Inv(y, name) && Books(y, name) && Enabled(y, OpenEmpty(p), name)
    ensures Books(Step(y, OpenEmpty(p), name), name)
  {
    hide EmptyName, FullName, Find, FreeSem, BooksAt, SetOpened, Inv;
    NamesDiffer(name);
    SizeIs(y, name);
    var k, y' := y.kernel, Step(y, OpenEmpty(p), name);
    var i := if EmptyAt(k, name) < MAX_SEMS then EmptyAt(k, name) else FreeSem(k.sems, 0);
    if EmptyAt(k, name) < MAX_SEMS {
      var m := k.sems[i].(opens := k.sems[i].opens + 1);
      SetKeepsFinds(k, i, m, EmptyName(name));
      SetKeepsFinds(k, i, m, FullName(name));
    } else {
      NobodyHasEmpty(y, name);
      CreatedFinds(k, EmptyName(name), Sem(EmptyName(name), 1, [], 1), FullName(name));
    }
    if FullAt(k, name) == MAX_SEMS { NobodyHasFull(y, name); }
    OpenBooks(y, p, i, y'.kernel.sems[i], y', EmptyAt(k, name), FullAt(k, name), EmptyAt(y'.kernel, name), FullAt(y'.kernel, name));
  }

  lemma OpenFullBooks(y: Sys, name: string, p: nat)
    requires Inv(y, name) && Books(y, name) && Enabled(y, OpenFull(p), name)
    ensures Books(Step(y, OpenFull(p), name), name)
  {
    hide EmptyName, FullName, Find, FreeSem, BooksAt, SetOpened, Inv;
    NamesDiffer(name);
    SizeIs(y, name);
    var k, y' := y.kernel, Step(y, OpenFull(p), name);
    var i := if FullAt(k, name) < MAX_SEMS then FullAt(k, name) else FreeSem(k.sems, 0);
    if FullAt(k, name) < MAX_SEMS {
      var m := k.sems[i].(opens := k.sems[i].opens + 1);
      SetKeepsFinds(k, i, m, EmptyName(name));
      SetKeepsFinds(k, i, m, FullName(name));
    } else {
      NobodyHasFull(y, name);
      CreatedFinds(k, FullName(name), Sem(FullName(name), 0, [], 1), EmptyName(name));
    }
    OpenBooks(y, p, i, y'.kernel.sems[i], y', EmptyAt(k, name), FullAt(k, name), EmptyAt(y'.kernel, name), FullAt(y'.kernel, name));
  }

  lemma SizeIs(y: Sys, name: string)
    requires Inv(y, name)
    ensures |y.kernel.sems| == MAX_SEMS
  {
  }

  // ---------------------------------------------------------------- over runs

  lemma BeginPlaces(y: Sys, name: string, p: nat, value: int)
    requires Inv(y, name) && Enabled(y, Begin(p, value), name)
    ensures SamePlaces(y, Step(y, Begin(p, value), name), name)
  {
    hide EmptyName, FullName, Find, Inv, Balanced, SetHeld, SetBlocked;
    BothOpen(y, name, p);
    var k, i := y.kernel, Mine(y, name, y.parts[p].role);
    var m := Step(y, Begin(p, value), name).kernel.sems[i];
    SetKeepsFinds(k, i, m, EmptyName(name));
    SetKeepsFinds(k, i, m, FullName(name));
  }

  lemma EndPlaces(y: Sys, name: string, p: nat)
    requires Inv(y, name) && Enabled(y, End(p), name)
    ensures SamePlaces(y, Step(y, End(p), name), name)
  {
    hide EmptyName, FullName, Find, Inv, Balanced, SetHeld, SetBlocked;
    BothOpen(y, name, p);
    var k, i := y.kernel, Mine(y, name, Other(y.parts[p].role));
    var m := Step(y, End(p), name).kernel.sems[i];
    SetKeepsFinds(k, i, m, EmptyName(name));
    SetKeepsFinds(k, i, m, FullName(name));
  }

  ghost predicate Named(k: State, name: string) {
    OneOpen(k.sems, EmptyName(name)) && OneOpen(k.sems, FullName(name))
  }

  /** Names are unique while no semaphore changes its name or is opened first or closed last. */
  lemma OneOpenSame(sems: seq<Sem>, sems': seq<Sem>, name: string)
    requires |sems'| == |sems| && OneOpen(sems, name)
    requires forall j :: 0 <= j < |sems| ==> sems'[j].name == sems[j].name && (sems'[j].opens > 0 <==> sems[j].opens > 0)
    ensures OneOpen(sems', name)
  {
    FindSame(sems, sems', name);
  }

  lemma NamedSame(k: State, k': State, name: string)
    requires |k'.sems| == |k.sems| && Named(k, name)
    requires forall j :: 0 <= j < |k.sems| ==> k'.sems[j].name == k.sems[j].name && (k'.sems[j].opens > 0 <==> k.sems[j].opens > 0)
    ensures Named(k', name)
  {
    hide OneOpen, EmptyName, FullName;
    OneOpenSame(k.sems, k'.sems, EmptyName(name));
    OneOpenSame(k.sems, k'.sems, FullName(name));
  }

  /** A semaphore is created under a name that none has. */
  lemma OneCreated(sems: seq<Sem>, j: nat, m: Sem, name: string)
    requires j < |sems| && Find(sems, name, 0) == |sems| && m.name == name && m.opens > 0
    ensures OneOpen(sems[j := m], name)
  {
    var r := Find(sems[j := m], name, 0);
    assert sems[j := m][j] == m;
  }

  lemma OneElsewhere(sems: seq<Sem>, j: nat, m: Sem, name: string)
    requires j < |sems| && sems[j].opens == 0 && m.name != name && OneOpen(sems, name)
    ensures OneOpen(sems[j := m], name)
  {
    FindSame(sems, sems[j := m], name);
  }

  lemma OpenNamed(k: State, p: nat, which: string, initial: nat, name: string)
    requires Named(k, name) && which in {EmptyName(name), FullName(name)} && HasRoom(k, which)
    ensures Named(Open(k, p, which, initial).0, name)
  {
    hide OneOpen, EmptyName, FullName, Find, FreeSem, SetOpened;
    NamesDiffer(name);
    var i, j := Find(k.sems, which, 0), FreeSem(k.sems, 0);
    var r := Open(k, p, which, initial).0;
    if i < |k.sems| {
      NamedSame(k, r, name);
    } else {
      OneCreated(k.sems, j, r.sems[j], which);
      if which == EmptyName(name) {
        OneElsewhere(k.sems, j, r.sems[j], FullName(name));
      } else {
        OneElsewhere(k.sems, j, r.sems[j], EmptyName(name));
      }
    }
  }

  lemma StepNamed(y: Sys, ev: Event, name: string)
    requires Named(y.kernel, name) && Enabled(y, ev, name)
    ensures Named(Step(y, ev, name).kernel, name)
  {
    hide Named, Open, EmptyName, FullName, SetHeld, SetBlocked, LeavesAlone, Find;
    var k := Step(y, ev, name).kernel;
    match ev
    case Join(_, _) =>
    case OpenEmpty(p) => OpenNamed(y.kernel, p, EmptyName(name), 1, name);
    case OpenFull(p) => OpenNamed(y.kernel, p, FullName(name), 0, name);
    case Begin(_, _) => NamedSame(y.kernel, k, name);
    case Access(_) =>
    case End(_) => NamedSame(y.kernel, k, name);
    case Others(k') => assert Named(k', name) by { OthersNamed(y, k', name); }
  }

  lemma OthersNamed(y: Sys, k: State, name: string)
    requires LeavesAlone(y, k, name)
    ensures Named(k, name)
  {
  }

  /** The buffer and the kernel's records of its participants. */
  ghost predicate Kept(y: Sys, name: string) {
    Inv(y, name) && Books(y, name) && Named(y.kernel, name)
  }

  lemma StepKept(y: Sys, ev: Event, name: string)
    requires Kept(y, name) && Enabled(y, ev, name)
    ensures Kept(Step(y, ev, name), name)
  {
    hide Inv, Books, Step, Named;
    StepOk(y, ev, name);
    StepNamed(y, ev, name);
    match ev
    case Join(p, role) => JoinBooks(y, name, p, role);
    case OpenEmpty(p) => OpenEmptyBooks(y, name, p);
    case OpenFull(p) => OpenFullBooks(y, name, p);
    case Begin(p, value) => BeginPlaces(y, name, p, value); BeginBooks(y, name, p, value);
    case Access(p) => AccessBooks(y, name, p);
    case End(p) => EndPlaces(y, name, p); EndBooks(y, name, p);
    case Others(k) => OthersBooks(y, name, k);
  }

  lemma FreshKept(y: Sys, name: string)
    requires Fresh(y, name)
    ensures Kept(y, name)
  {
    hide EmptyName, FullName, Find;
  }
}
