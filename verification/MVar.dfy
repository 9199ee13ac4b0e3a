/** The one-place buffer that user programs build from two semaphores, for any number of writers and readers. */
module MVar {
  import opened Basics
  import opened PidQueue
  import opened SemaphoreSpec
  import SemaphoreLaws
  import opened TwoSemaphores

  const MVAR_NAME_LEN := 28

  datatype Role = Writer | Reader

  /** Where a participant is: New before opening, HasEmpty after opening the first semaphore, Entered once it has called
      wait (perhaps still blocked there), Done once it has written or read the slot. The value is the one to be put or,
      for a reader that is Done, the one read. */
  datatype Pc = New | HasEmpty | Idle | Entered(value: int) | Done(value: int)

  /** `calls` counts the puts or takes it has completed. */
  datatype Part = Part(role: Role, pc: Pc, calls: nat)

  /** The kernel's semaphores, the participants, the slot, and the values put and taken by completed calls so far. */
  datatype Sys = Sys(kernel: State, parts: map<nat, Part>, slot: int, puts: seq<int>, takes: seq<int>)

  // ---------------------------------------------------------------- names

  function Base(name: string): string {
    Stored(name, MVAR_NAME_LEN)
  }

  function EmptyName(name: string): string {
    Base(name) + "e"
  }

  function FullName(name: string): string {
    Base(name) + "f"
  }

  lemma NamesDiffer(name: string)
    ensures EmptyName(name) != FullName(name) && |EmptyName(name)| < NAME_LEN && |FullName(name)| < NAME_LEN
  {
    assert EmptyName(name)[|Base(name)|] == 'e' && FullName(name)[|Base(name)|] == 'f';
  }

  function EmptyAt(k: State, name: string): nat {
    Find(k.sems, EmptyName(name), 0)
  }

  function FullAt(k: State, name: string): nat {
    Find(k.sems, FullName(name), 0)
  }

  // ---------------------------------------------------------------- steps

  datatype Event =
    | Join(pid: nat, role: Role)
    | OpenEmpty(pid: nat)
    | OpenFull(pid: nat)
    | Begin(pid: nat, value: int)
    | Access(pid: nat)
    | End(pid: nat)
    | Others(kernel: State)

  predicate Runs(y: Sys, p: nat) {
    p in y.parts && p in y.kernel.procs && !y.kernel.procs[p].blocked
  }

  /** What other programs may do: anything that leaves the two semaphores and the participants alone. */
  ghost predicate LeavesAlone(y: Sys, k: State, name: string) {
    && |k.sems| == |y.kernel.sems| && |k.procs| <= MAX_PROCESSES
    && EmptyAt(k, name) == EmptyAt(y.kernel, name) && FullAt(k, name) == FullAt(y.kernel, name)
    && (EmptyAt(k, name) < |k.sems| ==> k.sems[EmptyAt(k, name)] == y.kernel.sems[EmptyAt(k, name)])
    && (FullAt(k, name) < |k.sems| ==> k.sems[FullAt(k, name)] == y.kernel.sems[FullAt(k, name)])
    && (forall p <- y.parts :: p in y.kernel.procs ==> p in k.procs && k.procs[p] == y.kernel.procs[p])
    && (forall p <- y.parts :: QueuedOnlyAt(k, p, EmptyAt(k, name), FullAt(k, name)))
    && OneOpen(k.sems, EmptyName(name)) && OneOpen(k.sems, FullName(name))
  }

  /** No two open semaphores have this name. */
  ghost predicate OneOpen(sems: seq<Sem>, name: string) {
    forall i :: 0 <= i < |sems| && sems[i].opens > 0 && sems[i].name == name ==> i == Find(sems, name, 0)
  }

  /** A process that has just been created: no semaphore open, none held, in no queue. */
  predicate JustCreated(k: State, p: nat) {
    && p in k.procs && k.procs[p] == Proc({}, {}, false)
    && forall j :: 0 <= j < |k.sems| ==> p !in k.sems[j].queue
  }

  predicate HasRoom(k: State, name: string) {
    Find(k.sems, name, 0) < |k.sems| || FreeSem(k.sems, 0) < |k.sems|
  }

  /** A participant takes its steps in order, while it is not blocked; the semaphore table has room for the two. */
  ghost predicate Enabled(y: Sys, ev: Event, name: string) {
    match ev
    case Join(p, _) => p !in y.parts && JustCreated(y.kernel, p)
    case OpenEmpty(p) => Runs(y, p) && y.parts[p].pc == New && HasRoom(y.kernel, EmptyName(name))
    case OpenFull(p) => Runs(y, p) && y.parts[p].pc == HasEmpty && HasRoom(y.kernel, FullName(name))
    case Begin(p, _) => Runs(y, p) && y.parts[p].pc == Idle
    case Access(p) => Runs(y, p) && y.parts[p].pc.Entered?
    case End(p) => Runs(y, p) && y.parts[p].pc.Done?
    case Others(k) => LeavesAlone(y, k, name)
  }

  function At(y: Sys, p: nat, pc: Pc): map<nat, Part>
    requires p in y.parts
  {
    y.parts[p := y.parts[p].(pc := pc)]
  }

  /** A call completed. */
  function Home(y: Sys, p: nat): map<nat, Part>
    requires p in y.parts
  {
    y.parts[p := y.parts[p].(pc := Idle, calls := y.parts[p].calls + 1)]
  }

  /** Writers wait for an empty place and announce a full one; readers the other way round. */
  function Awaited(role: Role, name: string): string {
    if role.Writer? then EmptyName(name) else FullName(name)
  }

  function Announced(role: Role, name: string): string {
    if role.Writer? then FullName(name) else EmptyName(name)
  }

  ghost function Step(y: Sys, ev: Event, name: string): Sys
    requires Enabled(y, ev, name)
  {
    match ev
    case Join(p, role) => y.(parts := y.parts[p := Part(role, New, 0)])
    case OpenEmpty(p) => y.(kernel := Open(y.kernel, p, EmptyName(name), 1).0, parts := At(y, p, HasEmpty))
    case OpenFull(p) => y.(kernel := Open(y.kernel, p, FullName(name), 0).0, parts := At(y, p, Idle))
    case Begin(p, value) => y.(kernel := Wait(y.kernel, p, Awaited(y.parts[p].role, name)).0, parts := At(y, p, Entered(value)))
    case Access(p) =>
      if y.parts[p].role.Writer?
      then y.(slot := y.parts[p].pc.value, parts := At(y, p, Done(y.parts[p].pc.value)))
      else y.(parts := At(y, p, Done(y.slot)))
    case End(p) =>
      var k, v := Post(y.kernel, p, Announced(y.parts[p].role, name)).0, y.parts[p].pc.value;
      if y.parts[p].role.Writer?
      then y.(kernel := k, puts := y.puts + [v], parts := Home(y, p))
      else y.(kernel := k, takes := y.takes + [v], parts := Home(y, p))
    case Others(k) => y.(kernel := k)
  }

  // ---------------------------------------------------------------- what holds between steps

  predicate Blocked(y: Sys, p: nat) {
    p in y.kernel.procs && y.kernel.procs[p].blocked
  }

  /** Parked in the wait call of its role. */
  predicate Waits(y: Sys, p: nat, role: Role) {
    p in y.parts && y.parts[p].role == role && y.parts[p].pc.Entered? && Blocked(y, p)
  }

  /** Between its wait and its post. */
  predicate IsInside(y: Sys, p: nat) {
    p in y.parts && ((y.parts[p].pc.Entered? && !Blocked(y, p)) || y.parts[p].pc.Done?)
  }

  function Inside(y: Sys): set<nat> {
    set p | p in y.parts && IsInside(y, p)
  }

  function Available(m: Sem): nat {
    if m.value > 0 then m.value else 0
  }

  /** One semaphore: its queue holds just the participants of the role that are parked, as many as the value is below zero. */
  ghost predicate SideOk(y: Sys, m: Sem, role: Role) {
    && Distinct(m.queue) && |m.queue| == (if m.value < 0 then -m.value else 0)
    && forall p: nat :: p in m.queue <==> Waits(y, p, role)
  }

  /** The slot holds a value that was put and not yet taken: the token is in the second semaphore or with a reader. */
  ghost predicate Full(y: Sys, full: Sem) {
    full.value > 0 || exists p :: p in Inside(y) && IsReader(y.parts, p)
  }

  predicate IsReader(parts: map<nat, Part>, p: nat) {
    p in parts && parts[p].role.Reader?
  }

  /** What a participant has written or read is in the slot. */
  predicate SlotSeen(y: Sys) {
    forall p <- y.parts :: y.parts[p].pc.Done? ==> y.parts[p].pc.value == y.slot
  }

  ghost predicate Parts(y: Sys, name: string) {
    && |y.kernel.sems| == MAX_SEMS && |y.kernel.procs| <= MAX_PROCESSES
    && (forall p <- y.parts :: p in y.kernel.procs)
    && (forall p <- y.parts :: Blocked(y, p) ==> y.parts[p].pc.Entered?)
    && (forall p <- y.parts :: y.parts[p].pc != New ==> EmptyAt(y.kernel, name) < MAX_SEMS)
    && (forall p <- y.parts :: y.parts[p].pc != New && y.parts[p].pc != HasEmpty ==> FullAt(y.kernel, name) < MAX_SEMS)
    && (FullAt(y.kernel, name) < MAX_SEMS ==> EmptyAt(y.kernel, name) < MAX_SEMS)
  }

  /** The one token: an empty place, a full place, or a participant between its wait and its post. */
  ghost predicate Balanced(y: Sys, empty: Sem, full: Sem) {
    && SideOk(y, empty, Writer) && SideOk(y, full, Reader)
    && Available(empty) + Available(full) + |Inside(y)| == 1
    && Data(y, full)
  }

  /** What was put is what was taken, followed by what is in the slot if that is full. */
  ghost predicate Data(y: Sys, full: Sem) {
    SlotSeen(y) && y.puts == if Full(y, full) then y.takes + [y.slot] else y.takes
  }

  ghost predicate Inv(y: Sys, name: string) {
    && Parts(y, name)
    && var e, f := EmptyAt(y.kernel, name), FullAt(y.kernel, name);
       if f < MAX_SEMS then Balanced(y, y.kernel.sems[e], y.kernel.sems[f])
       else
         && y.puts == y.takes
         && (e < MAX_SEMS ==> y.kernel.sems[e].value == 1 && y.kernel.sems[e].queue == [])
  }

  // ---------------------------------------------------------------- lookups that do not change

  /** Tables that agree on which slots are open under a name find the same semaphore. */
  lemma FindSame(sems: seq<Sem>, sems': seq<Sem>, name: string)
    requires |sems| == |sems'|
    requires forall k :: 0 <= k < |sems| ==>
               ((sems[k].opens > 0 && sems[k].name == name) <==> (sems'[k].opens > 0 && sems'[k].name == name))
    ensures Find(sems, name, 0) == Find(sems', name, 0)
  {
    var i, j := Find(sems, name, 0), Find(sems', name, 0);
    assert i < |sems| ==> sems'[i].opens > 0 && sems'[i].name == name;
    assert j < |sems| ==> sems[j].opens > 0 && sems[j].name == name;
  }

  lemma SetKeepsFinds(k: State, i: nat, m: Sem, name: string)
    requires i < |k.sems| && m.name == k.sems[i].name && (m.opens > 0 <==> k.sems[i].opens > 0)
    ensures Find(k.sems[i := m], name, 0) == Find(k.sems, name, 0)
  {
    FindSame(k.sems, k.sems[i := m], name);
  }

  // ---------------------------------------------------------------- wait

  function Other(role: Role): Role {
    if role.Writer? then Reader else Writer
  }

  /** Both queues and the token, for the two semaphores in either order. */
  ghost predicate Token(y: Sys, a: Sem, role: Role, b: Sem) {
    SideOk(y, a, role) && SideOk(y, b, Other(role)) && Available(a) + Available(b) + |Inside(y)| == 1
  }

  function Emptier(role: Role, a: Sem, b: Sem): Sem {
    if role.Writer? then a else b
  }

  function Fuller(role: Role, a: Sem, b: Sem): Sem {
    if role.Writer? then b else a
  }

  lemma BalancedIff(y: Sys, role: Role, a: Sem, b: Sem)
    ensures Balanced(y, Emptier(role, a, b), Fuller(role, a, b)) <==> Token(y, a, role, b) && Data(y, Fuller(role, a, b))
  {
    hide SideOk, Data, Available, Inside;
  }

  lemma InvOf(y: Sys, name: string)
    requires Parts(y, name) && FullAt(y.kernel, name) < MAX_SEMS
    requires EmptyAt(y.kernel, name) < |y.kernel.sems| && FullAt(y.kernel, name) < |y.kernel.sems|
    requires Balanced(y, y.kernel.sems[EmptyAt(y.kernel, name)], y.kernel.sems[FullAt(y.kernel, name)])
    ensures Inv(y, name)
  {
    hide Parts, Balanced, Find, EmptyName, FullName;
  }

  /** With the same inside, and the second semaphore as full as before, the slot is as full as before. */
  lemma SameData(y: Sys, f: Sem, y': Sys, f': Sem)
    requires Data(y, f) && y'.slot == y.slot && y'.puts == y.puts && y'.takes == y.takes && Inside(y') == Inside(y)
    requires forall q :: q in Inside(y) ==> (IsReader(y'.parts, q) <==> IsReader(y.parts, q))
    requires (f'.value > 0 <==> f.value > 0) && (SlotSeen(y) ==> SlotSeen(y'))
    ensures Data(y', f')
  {
    hide Inside, IsReader, SlotSeen;
  }

  /** A participant that has entered, as long as it has not written or read. */
  lemma EnteredSlot(y: Sys, p: nat, value: int, y': Sys)
    requires p in y.parts && y'.parts == At(y, p, Entered(value)) && y'.slot == y.slot && SlotSeen(y)
    ensures SlotSeen(y')
  {
  }

  /** A reader takes the full place with it, a writer leaves it where it was. */
  lemma TakesData(y: Sys, a: Sem, role: Role, b: Sem, p: nat, value: int, y': Sys, a': Sem)
    requires Token(y, a, role, b) && Data(y, Fuller(role, a, b)) && a.value > 0 && a'.value == a.value - 1
    requires p in y.parts && y.parts[p].role == role && y'.parts == At(y, p, Entered(value)) && Inside(y') == {p}
    requires y'.slot == y.slot && y'.puts == y.puts && y'.takes == y.takes
    ensures Data(y', Fuller(role, a', b))
  {
    hide SideOk, SlotSeen;
    EnteredSlot(y, p, value, y');
    assert Inside(y) == {};
    assert p in Inside(y');
    assert IsReader(y'.parts, p) <==> role.Reader?;
  }

  /** A unit was there: the participant is inside. */
  lemma TakesUnit(y: Sys, a: Sem, b: Sem, p: nat, value: int, procs: Procs, y': Sys)
    requires Runs(y, p) && y.parts[p].pc == Idle && Token(y, a, y.parts[p].role, b) && a.value > 0
    requires procs.Keys == y.kernel.procs.Keys && forall x <- procs :: procs[x].blocked == y.kernel.procs[x].blocked
    requires y'.parts == At(y, p, Entered(value)) && y'.kernel.procs == procs
    ensures Token(y', a.(value := a.value - 1), y.parts[p].role, b)
    ensures Inside(y') == Inside(y) + {p} == {p}
  {
    var role := y.parts[p].role;
    forall q: nat, r ensures Waits(y', q, r) <==> Waits(y, q, r) { }
    assert p !in Inside(y);
    assert Inside(y') == Inside(y) + {p};
    Singleton(Inside(y'), p);
  }

  lemma Singleton(s: set<nat>, p: nat)
    requires p in s && |s| <= 1
    ensures s == {p}
  {
    SubsetSize({p}, s);
    assert |s - {p}| == 0;
  }

  /** No unit: the participant is parked. */
  lemma Parks(y: Sys, a: Sem, b: Sem, p: nat, value: int, procs: Procs, y': Sys)
    requires Runs(y, p) && y.parts[p].pc == Idle && Token(y, a, y.parts[p].role, b) && a.value <= 0
    requires procs.Keys == y.kernel.procs.Keys && forall x <- procs :: procs[x].blocked == (x == p || y.kernel.procs[x].blocked)
    requires y'.parts == At(y, p, Entered(value)) && y'.kernel.procs == procs
    ensures Token(y', a.(value := a.value - 1, queue := a.queue + [p]), y.parts[p].role, b)
    ensures Inside(y') == Inside(y)
  {
    var role := y.parts[p].role;
    forall q: nat, r ensures Waits(y', q, r) <==> Waits(y, q, r) || (q == p && r == role) { }
    assert p !in a.queue;
    assert Inside(y') == Inside(y);
  }

  lemma QueueFits(y: Sys, m: Sem, role: Role, p: nat)
    requires SideOk(y, m, role) && |y.kernel.procs| <= MAX_PROCESSES && p in y.kernel.procs && p !in m.queue
    ensures |m.queue| < MAX_PROCESSES
  {
    DistinctSize(m.queue);
    var live := y.kernel.procs.Keys;
    assert |live| == |y.kernel.procs|;
    forall q | q in Elements(m.queue) ensures q in live - {p} {
      assert Waits(y, q, role);
    }
    SubsetSize(Elements(m.queue), live - {p});
    assert |live - {p}| == |live| - 1;
  }

  // ---------------------------------------------------------------- post

  /** Nobody waits for the unit that comes back: it is available, and the participant is out. */
  lemma LeavesUnit(y: Sys, a: Sem, b: Sem, p: nat, procs: Procs, y': Sys)
    requires Runs(y, p) && y.parts[p].pc.Done? && Token(y, a, y.parts[p].role, b) && b.queue == []
    requires procs.Keys == y.kernel.procs.Keys && forall x <- procs :: procs[x].blocked == y.kernel.procs[x].blocked
    requires y'.parts == Home(y, p) && y'.kernel.procs == procs
    ensures Token(y', a, y.parts[p].role, b.(value := b.value + 1))
    ensures Inside(y) == {p} && Inside(y') == {}
  {
    forall q: nat, r ensures Waits(y', q, r) <==> Waits(y, q, r) { }
    forall q: nat ensures q in Inside(y') <==> q in Inside(y) && q != p { }
    assert Inside(y') == Inside(y) - {p};
    Singleton(Inside(y), p);
  }

  /** The unit goes to the first one parked, who is inside from now on. */
  lemma HandsFrame(y: Sys, p: nat, w: nat, y': Sys)
    requires Runs(y, p) && y.parts[p].pc.Done? && w in y.parts && y.parts[w].pc.Entered? && Blocked(y, w)
    requires y'.parts == Home(y, p) && y'.kernel.procs.Keys == y.kernel.procs.Keys
    requires forall x <- y.kernel.procs :: y'.kernel.procs[x].blocked == (x != w && y.kernel.procs[x].blocked)
    ensures forall q: nat, r :: Waits(y', q, r) <==> Waits(y, q, r) && q != w
    ensures Inside(y') == Inside(y) - {p} + {w} && p in Inside(y)
  {
    forall q: nat ensures q in Inside(y') <==> (q in Inside(y) && q != p) || q == w { }
  }

  lemma HandsOver(y: Sys, a: Sem, b: Sem, p: nat, procs: Procs, y': Sys)
    requires Runs(y, p) && y.parts[p].pc.Done? && Token(y, a, y.parts[p].role, b) && b.queue != []
    requires procs.Keys == y.kernel.procs.Keys
    requires forall x <- procs :: procs[x].blocked == (x != b.queue[0] && y.kernel.procs[x].blocked)
    requires y'.parts == Home(y, p) && y'.kernel.procs == procs
    ensures Token(y', a, y.parts[p].role, b.(value := b.value + 1, queue := b.queue[1..])) && b.value + 1 <= 0
    ensures Inside(y) == {p} && Inside(y') == {b.queue[0]} && Waits(y, b.queue[0], Other(y.parts[p].role))
  {
    hide Inside;
    var w, other := b.queue[0], Other(y.parts[p].role);
    assert w in b.queue;
    assert Waits(y, w, other);
    HandsFrame(y, p, w, y');
    SemaphoreTail(b.queue);
    assert w !in a.queue;
    Singleton(Inside(y), p);
  }

  lemma SemaphoreTail(q: seq<nat>)
    requires Distinct(q) && q != []
    ensures Distinct(q[1..]) && forall x :: x in q[1..] <==> x in q && x != q[0]
  {
    assert q == [q[0]] + q[1..];
  }

  // ---------------------------------------------------------------- steps of a participant

  /** Both semaphores exist once a participant has opened them, at different places, under their names. */
  lemma BothOpen(y: Sys, name: string, p: nat)
    requires Inv(y, name) && p in y.parts && y.parts[p].pc != New && y.parts[p].pc != HasEmpty
    ensures var e, f := EmptyAt(y.kernel, name), FullAt(y.kernel, name);
            && e < MAX_SEMS && f < MAX_SEMS == |y.kernel.sems| && e != f
            && y.kernel.sems[e].opens > 0 && y.kernel.sems[f].opens > 0
            && Balanced(y, y.kernel.sems[e], y.kernel.sems[f]) && p in y.kernel.procs && |y.kernel.procs| <= MAX_PROCESSES
  {
    hide Balanced;
    NamesDiffer(name);
  }

  /** The semaphore a participant waits on, the other one, and their token. */
  ghost function Mine(y: Sys, name: string, role: Role): nat {
    if role.Writer? then EmptyAt(y.kernel, name) else FullAt(y.kernel, name)
  }

  /** What a step that touches one semaphore and keeps its name leaves true of both. */
  lemma Rebalance(y: Sys, name: string, p: nat, part: Part, i: nat, m: Sem, procs: Procs, y': Sys)
    requires Inv(y, name) && p in y.parts && p in y.kernel.procs && i < MAX_SEMS
    requires EmptyAt(y.kernel, name) < MAX_SEMS && FullAt(y.kernel, name) < MAX_SEMS
    requires m.name == y.kernel.sems[i].name && (m.opens > 0 <==> y.kernel.sems[i].opens > 0)
    requires y'.kernel == State(y.kernel.sems[i := m], procs) && y'.parts == y.parts[p := part] && procs.Keys == y.kernel.procs.Keys
    requires forall q <- procs :: procs[q].blocked ==> (q == p && part.pc.Entered?) || (q != p && y.kernel.procs[q].blocked)
    ensures EmptyAt(y'.kernel, name) == EmptyAt(y.kernel, name) && FullAt(y'.kernel, name) == FullAt(y.kernel, name)
    ensures Parts(y', name)
  {
    hide Balanced, EmptyName, FullName;
    SetKeepsFinds(y.kernel, i, m, EmptyName(name));
    SetKeepsFinds(y.kernel, i, m, FullName(name));
    SemaphoreLaws.SameSize(procs, y.kernel.procs);
  }

  /** What wait makes of the semaphore at place i and of the processes. */
  lemma BeginIs(y: Sys, name: string, p: nat, value: int, i: nat)
    requires Enabled(y, Begin(p, value), name) && i == Mine(y, name, y.parts[p].role) < |y.kernel.sems|
    ensures var k, m, r := y.kernel, y.kernel.sems[i], Step(y, Begin(p, value), name);
            && r.parts == At(y, p, Entered(value)) && r.slot == y.slot && r.puts == y.puts && r.takes == y.takes
            && r.kernel == if m.value > 0 then State(k.sems[i := m.(value := m.value - 1)], SetHeld(k.procs, p, i, true))
                           else State(k.sems[i := m.(value := m.value - 1, queue := Enqueue(m.queue, p))], SetBlocked(k.procs, p, true))
  {
    hide EmptyName, FullName, Find, SetHeld, SetBlocked;
  }

  lemma BeginTakes(y: Sys, name: string, p: nat, value: int)
    requires Inv(y, name) && Enabled(y, Begin(p, value), name)
    requires y.kernel.sems[Mine(y, name, y.parts[p].role)].value > 0
    ensures Inv(Step(y, Begin(p, value), name), name)
  {
    hide EmptyName, FullName, SetHeld, Find, Step, Parts, SideOk, Data, Inv, Balanced, Token, Inside;
    BothOpen(y, name, p);
    var role, k := y.parts[p].role, y.kernel;
    var i, j := Mine(y, name, role), Mine(y, name, Other(role));
    var y' := Step(y, Begin(p, value), name);
    var procs, a' := SetHeld(k.procs, p, i, true), k.sems[i].(value := k.sems[i].value - 1);
    BeginIs(y, name, p, value, i);
    BalancedIff(y, role, k.sems[i], k.sems[j]);
    SemaphoreLaws.HeldBits(k.procs, p, i, true, i);
    TakesUnit(y, k.sems[i], k.sems[j], p, value, procs, y');
    TakesData(y, k.sems[i], role, k.sems[j], p, value, y', a');
    Rebalance(y, name, p, y'.parts[p], i, a', procs, y');
    BalancedIff(y', role, a', k.sems[j]);
    InvOf(y', name);
  }

  lemma BeginParks(y: Sys, name: string, p: nat, value: int)
    requires Inv(y, name) && Enabled(y, Begin(p, value), name)
    requires y.kernel.sems[Mine(y, name, y.parts[p].role)].value <= 0
    ensures Inv(Step(y, Begin(p, value), name), name)
  {
    hide EmptyName, FullName, SetBlocked, Find, Step, Parts, SideOk, Data, Inv, Balanced, Inside;
    BothOpen(y, name, p);
    var role, k := y.parts[p].role, y.kernel;
    var i, j := Mine(y, name, role), Mine(y, name, Other(role));
    var m, b := k.sems[i], k.sems[j];
    var y' := Step(y, Begin(p, value), name);
    var procs, a' := SetBlocked(k.procs, p, true), m.(value := m.value - 1, queue := m.queue + [p]);
    BeginIs(y, name, p, value, i);
    BalancedIff(y, role, m, b);
    RunningIsOut(y, m, role, p);
    QueueFits(y, m, role, p);
    SemaphoreLaws.BlockBits(k.procs, p, true, i);
    Parks(y, m, b, p, value, procs, y');
    ParksData(y, m, role, b, p, value, y', a');
    Rebalance(y, name, p, y'.parts[p], i, a', procs, y');
    BalancedIff(y', role, a', b);
    InvOf(y', name);
  }

  lemma RunningIsOut(y: Sys, m: Sem, role: Role, p: nat)
    requires SideOk(y, m, role) && Runs(y, p)
    ensures p !in m.queue
  {
  }

  lemma ParksData(y: Sys, a: Sem, role: Role, b: Sem, p: nat, value: int, y': Sys, a': Sem)
    requires Data(y, Fuller(role, a, b)) && a.value <= 0 && a'.value == a.value - 1 && Inside(y') == Inside(y)
    requires p in y.parts && y'.parts == At(y, p, Entered(value)) && y'.slot == y.slot && y'.puts == y.puts && y'.takes == y.takes
    ensures Data(y', Fuller(role, a', b))
  {
    hide Data, Inside, SlotSeen;
    if SlotSeen(y) { EnteredSlot(y, p, value, y'); }
    SameData(y, Fuller(role, a, b), y', Fuller(role, a', b));
  }

  lemma EndOk(y: Sys, name: string, p: nat)
    requires Inv(y, name) && Enabled(y, End(p), name)
    ensures Inv(Step(y, End(p), name), name)
  {
    hide EmptyName, FullName, SetBlocked, SetHeld, Find, Return;
    BothOpen(y, name, p);
    var role, k := y.parts[p].role, y.kernel;
    var i, j := Mine(y, name, role), Mine(y, name, Other(role));
    var y' := Step(y, End(p), name);
    assert y'.kernel == Return(k.(procs := SetHeld(k.procs, p, j, false)), j);
    SemaphoreLaws.HeldBits(k.procs, p, j, false, j);
    if k.sems[j].queue == [] {
      EndLeaves(y, name, p, i, j, y');
    } else {
      EndHands(y, name, p, i, j, y');
    }
  }

  lemma EndLeaves(y: Sys, name: string, p: nat, i: nat, j: nat, y': Sys)
    requires Inv(y, name) && Enabled(y, End(p), name) && y' == Step(y, End(p), name)
    requires i == Mine(y, name, y.parts[p].role) && j == Mine(y, name, Other(y.parts[p].role))
    requires j < |y.kernel.sems| && y'.kernel == Return(y.kernel.(procs := SetHeld(y.kernel.procs, p, j, false)), j)
    requires y.kernel.sems[j].queue == []
    ensures Inv(y', name)
  {
    hide EmptyName, FullName, SetBlocked, SetHeld, Find, Step, SideOk, Parts;
    BothOpen(y, name, p);
    var k, m := y.kernel, y.kernel.sems[j];
    var procs := SetHeld(k.procs, p, j, false);
    SemaphoreLaws.HeldBits(k.procs, p, j, false, j);
    EndParts(y, name, p);
    NobodyQueued(y, m, Other(y.parts[p].role));
    LeavesUnit(y, k.sems[i], m, p, procs, y');
    Rebalance(y, name, p, y'.parts[p], j, m.(value := m.value + 1), procs, y');
    assert p in Inside(y);
    assert IsReader(y.parts, p) <==> y.parts[p].role.Reader?;
  }

  lemma NobodyQueued(y: Sys, m: Sem, role: Role)
    requires SideOk(y, m, role) && m.queue == []
    ensures m.value >= 0
  {
  }

  lemma EndParts(y: Sys, name: string, p: nat)
    requires Enabled(y, End(p), name)
    ensures var r, v := Step(y, End(p), name), y.parts[p].pc.value;
            && r.parts == Home(y, p) && r.slot == y.slot
            && r.puts == (if y.parts[p].role.Writer? then y.puts + [v] else y.puts)
            && r.takes == (if y.parts[p].role.Writer? then y.takes else y.takes + [v])
  {
  }

  lemma QueuedLive(y: Sys, m: Sem, role: Role, w: nat)
    requires SideOk(y, m, role) && w in m.queue
    ensures w in y.kernel.procs && m.value < 0
  {
    assert Waits(y, w, role);
  }

  /** The values when the unit goes to w, of the other role: a writer has added its own, a reader has taken the slot's. */
  lemma HandsData(y: Sys, a: Sem, role: Role, b: Sem, p: nat, w: nat, y': Sys, b': Sem)
    requires Token(y, a, role, b) && Data(y, Fuller(role, a, b)) && p in y.parts && y.parts[p].role == role && y.parts[p].pc.Done?
    requires Inside(y) == {p} && Inside(y') == {w} && w != p && w in y.parts && y.parts[w].role == Other(role)
    requires b.value < 0 && b'.value == b.value + 1 && y'.parts == Home(y, p) && y'.slot == y.slot
    requires var v := y.parts[p].pc.value;
             if role.Writer? then y'.puts == y.puts + [v] && y'.takes == y.takes else y'.puts == y.puts && y'.takes == y.takes + [v]
    ensures Data(y', Fuller(role, a, b'))
  {
    hide SideOk, Inside;
    assert p in Inside(y) && w in Inside(y');
    assert IsReader(y.parts, p) <==> role.Reader?;
    assert IsReader(y'.parts, w) <==> role.Writer?;
  }

  lemma EndHands(y: Sys, name: string, p: nat, i: nat, j: nat, y': Sys)
    requires Inv(y, name) && Enabled(y, End(p), name) && y' == Step(y, End(p), name)
    requires i == Mine(y, name, y.parts[p].role) && j == Mine(y, name, Other(y.parts[p].role))
    requires j < |y.kernel.sems| && y'.kernel == Return(y.kernel.(procs := SetHeld(y.kernel.procs, p, j, false)), j)
    requires y.kernel.sems[j].queue != []
    ensures Inv(y', name)
  {
    hide EmptyName, FullName, SetBlocked, SetHeld, Find, Step, SideOk, Parts, Inside, Data, Inv, Balanced;
    BothOpen(y, name, p);
    var role, k, m, w := y.parts[p].role, y.kernel, y.kernel.sems[j], y.kernel.sems[j].queue[0];
    var procs0 := SetHeld(k.procs, p, j, false);
    var procs, b' := SetBlocked(SetHeld(procs0, w, j, true), w, false), m.(value := m.value + 1, queue := m.queue[1..]);
    BalancedIff(y, role, k.sems[i], m);
    assert w in m.queue;
    QueuedLive(y, m, Other(role), w);
    SemaphoreLaws.HeldBits(k.procs, p, j, false, j);
    SemaphoreLaws.WokenBits(procs0, w, j, j);
    EndParts(y, name, p);
    assert y'.kernel == State(k.sems[j := b'], procs);
    HandsOver(y, k.sems[i], m, p, procs, y');
    HandsData(y, k.sems[i], role, m, p, w, y', b');
    Rebalance(y, name, p, y'.parts[p], j, b', procs, y');
    BalancedIff(y', role, k.sems[i], b');
    InvOf(y', name);
  }

  lemma AccessOk(y: Sys, name: string, p: nat)
    requires Inv(y, name) && Enabled(y, Access(p), name)
    ensures Inv(Step(y, Access(p), name), name)
  {
    hide EmptyName, FullName, Find;
    BothOpen(y, name, p);
    var y' := Step(y, Access(p), name);
    forall q: nat, r ensures Waits(y', q, r) <==> Waits(y, q, r) { }
    forall q: nat ensures q in Inside(y') <==> q in Inside(y) { }
    assert Inside(y') == Inside(y);
    assert p in Inside(y);
    Singleton(Inside(y), p);
    assert IsReader(y.parts, p) <==> y.parts[p].role.Reader?;
    assert IsReader(y'.parts, p) <==> y.parts[p].role.Reader?;
    forall q <- y.parts | y.parts[q].pc.Done? ensures q == p { assert q in Inside(y); }
  }

  // ---------------------------------------------------------------- opening

  /** A semaphore created under a name is found there, and no other lookup changes. */
  lemma CreatedFinds(k: State, name: string, m: Sem, other: string)
    requires Find(k.sems, name, 0) == |k.sems| && FreeSem(k.sems, 0) < |k.sems| && m.name == name && m.opens > 0 && other != name
    ensures var j := FreeSem(k.sems, 0);
            Find(k.sems[j := m], name, 0) == j && Find(k.sems[j := m], other, 0) == Find(k.sems, other, 0)
  {
    var j := FreeSem(k.sems, 0);
    FindSame(k.sems, k.sems[j := m], other);
    var r := Find(k.sems[j := m], name, 0);
    assert k.sems[j := m][j] == m;
  }

  /** A step that leaves everybody's block as it is, and moves nobody in or out, keeps who waits and who is inside. */
  lemma Unmoved(y: Sys, p: nat, pc: Pc, y': Sys)
    requires Runs(y, p) && !y.parts[p].pc.Entered? && !y.parts[p].pc.Done? && !pc.Entered? && !pc.Done?
    requires y'.parts == At(y, p, pc) && y'.kernel.procs.Keys == y.kernel.procs.Keys
    requires forall x <- y.kernel.procs :: y'.kernel.procs[x].blocked == y.kernel.procs[x].blocked
    ensures Inside(y') == Inside(y) && forall q: nat, r :: Waits(y', q, r) <==> Waits(y, q, r)
    ensures forall q :: q in Inside(y) ==> (IsReader(y'.parts, q) <==> IsReader(y.parts, q))
    ensures y'.slot == y.slot && SlotSeen(y) ==> SlotSeen(y')
  {
    forall q: nat ensures q in Inside(y') <==> q in Inside(y) { }
  }

  lemma BalancedSame(y: Sys, y': Sys, e: Sem, f: Sem, e': Sem, f': Sem)
    requires Balanced(y, e, f)
    requires Inside(y') == Inside(y) && forall q: nat, r :: Waits(y', q, r) <==> Waits(y, q, r)
    requires forall q :: q in Inside(y) ==> (IsReader(y'.parts, q) <==> IsReader(y.parts, q))
    requires e'.value == e.value && e'.queue == e.queue && f'.value == f.value && f'.queue == f.queue
    requires y'.puts == y.puts && y'.takes == y.takes && y'.slot == y.slot && (SlotSeen(y) ==> SlotSeen(y'))
    ensures Balanced(y', e', f')
  {
    hide SlotSeen, Inside, Waits, IsReader;
  }

  /** Both semaphores where they were and with the same units and queues, the same parked and the same inside. */
  lemma InvSame(y: Sys, name: string, y': Sys)
    requires Inv(y, name) && Parts(y', name) && Inside(y') == Inside(y)
    requires EmptyAt(y'.kernel, name) == EmptyAt(y.kernel, name) && FullAt(y'.kernel, name) == FullAt(y.kernel, name)
    requires forall q: nat, r :: Waits(y', q, r) <==> Waits(y, q, r)
    requires forall q :: q in Inside(y) ==> (IsReader(y'.parts, q) <==> IsReader(y.parts, q))
    requires forall j :: 0 <= j < |y.kernel.sems| && (j == EmptyAt(y.kernel, name) || j == FullAt(y.kernel, name)) ==>
               j < |y'.kernel.sems| && y'.kernel.sems[j].value == y.kernel.sems[j].value && y'.kernel.sems[j].queue == y.kernel.sems[j].queue
    requires y'.puts == y.puts && y'.takes == y.takes && y'.slot == y.slot && (SlotSeen(y) ==> SlotSeen(y'))
    ensures Inv(y', name)
  {
    hide EmptyName, FullName, Find, Balanced, Inside, Waits, IsReader, SlotSeen;
    var e, f := EmptyAt(y.kernel, name), FullAt(y.kernel, name);
    if f < MAX_SEMS { BalancedSame(y, y', y.kernel.sems[e], y.kernel.sems[f], y'.kernel.sems[e], y'.kernel.sems[f]); }
  }

  lemma OpenAgainParts(y: Sys, name: string, p: nat, i: nat, pc: Pc, y': Sys)
    requires Parts(y, name) && Runs(y, p) && i < MAX_SEMS
    requires (pc == HasEmpty && i == EmptyAt(y.kernel, name))
          || (pc == Idle && y.parts[p].pc == HasEmpty && i == FullAt(y.kernel, name))
    requires y'.parts == At(y, p, pc) && |y'.kernel.sems| == |y.kernel.sems| && y'.kernel.procs.Keys == y.kernel.procs.Keys
    requires forall x <- y.kernel.procs :: y'.kernel.procs[x].blocked == y.kernel.procs[x].blocked
    requires EmptyAt(y'.kernel, name) == EmptyAt(y.kernel, name) && FullAt(y'.kernel, name) == FullAt(y.kernel, name)
    ensures Parts(y', name)
  {
    hide EmptyName, FullName, Find;
    SemaphoreLaws.SameSize(y'.kernel.procs, y.kernel.procs);
  }

  lemma PartsOf(y: Sys, name: string)
    requires Inv(y, name)
    ensures Parts(y, name) && |y.kernel.sems| == MAX_SEMS
  {
  }

  lemma OpenAgainOk(y: Sys, name: string, p: nat, i: nat, pc: Pc, y': Sys)
    requires Inv(y, name) && Runs(y, p) && i < MAX_SEMS && y.kernel.sems[i].opens > 0
    requires (y.parts[p].pc == New && pc == HasEmpty && i == EmptyAt(y.kernel, name))
          || (y.parts[p].pc == HasEmpty && pc == Idle && i == FullAt(y.kernel, name))
    requires y' == y.(kernel := State(y.kernel.sems[i := y.kernel.sems[i].(opens := y.kernel.sems[i].opens + 1)],
                                      SetOpened(y.kernel.procs, p, i, true)), parts := At(y, p, pc))
    ensures Inv(y', name)
  {
    hide EmptyName, FullName, SetOpened, Find, Inv, Parts, Inside, Waits, IsReader, SlotSeen;
    PartsOf(y, name);
    var k, m := y.kernel, y.kernel.sems[i].(opens := y.kernel.sems[i].opens + 1);
    SemaphoreLaws.RefBits(k.procs, p, i, true, i);
    Unmoved(y, p, pc, y');
    SetKeepsFinds(k, i, m, EmptyName(name));
    SetKeepsFinds(k, i, m, FullName(name));
    OpenAgainParts(y, name, p, i, pc, y');
    InvSame(y, name, y');
  }

  lemma OpenEmptyOk(y: Sys, name: string, p: nat)
    requires Inv(y, name) && Enabled(y, OpenEmpty(p), name)
    ensures Inv(Step(y, OpenEmpty(p), name), name)
  {
    hide EmptyName, FullName, SetOpened, Find, FreeSem, Balanced;
    NamesDiffer(name);
    var k, y' := y.kernel, Step(y, OpenEmpty(p), name);
    var i, j := EmptyAt(k, name), FreeSem(k.sems, 0);
    if i < |k.sems| {
      OpenAgainOk(y, name, p, i, HasEmpty, y');
    } else {
      CreatedFinds(k, EmptyName(name), Sem(EmptyName(name), 1, [], 1), FullName(name));
      SemaphoreLaws.RefBits(k.procs, p, j, true, j);
      SemaphoreLaws.SameSize(y'.kernel.procs, k.procs);
      assert y'.kernel.sems[j] == Sem(EmptyName(name), 1, [], 1);
    }
  }

  lemma FirstBalance(y: Sys, e: Sem, f: Sem)
    requires e.value == 1 && e.queue == [] && f.value == 0 && f.queue == [] && y.puts == y.takes
    requires Inside(y) == {} && forall q: nat, r :: !Waits(y, q, r)
    ensures Balanced(y, e, f)
  {
    forall q <- y.parts ensures !y.parts[q].pc.Done? { assert q !in Inside(y); }
  }

  /** The second semaphore is created: the token is in the first. */
  lemma CreateFullOk(y: Sys, name: string, p: nat)
    requires Inv(y, name) && Enabled(y, OpenFull(p), name) && FullAt(y.kernel, name) == |y.kernel.sems|
    ensures Inv(Step(y, OpenFull(p), name), name)
  {
    hide EmptyName, FullName, SetOpened, Find, FreeSem, Balanced, SideOk;
    NamesDiffer(name);
    var k, y', j := y.kernel, Step(y, OpenFull(p), name), FreeSem(y.kernel.sems, 0);
    CreatedFinds(k, FullName(name), Sem(FullName(name), 0, [], 1), EmptyName(name));
    SemaphoreLaws.RefBits(k.procs, p, j, true, j);
    SemaphoreLaws.SameSize(y'.kernel.procs, k.procs);
    assert y'.kernel.sems[j] == Sem(FullName(name), 0, [], 1);
    Unmoved(y, p, Idle, y');
    NobodyYet(y, name);
    FirstBalance(y', y'.kernel.sems[EmptyAt(y'.kernel, name)], y'.kernel.sems[j]);
  }

  lemma NobodyYet(y: Sys, name: string)
    requires Inv(y, name) && FullAt(y.kernel, name) == |y.kernel.sems|
    ensures Inside(y) == {} && forall q: nat, r :: !Waits(y, q, r)
  {
    hide EmptyName, FullName, Find;
  }

  lemma OpenFullOk(y: Sys, name: string, p: nat)
    requires Inv(y, name) && Enabled(y, OpenFull(p), name)
    ensures Inv(Step(y, OpenFull(p), name), name)
  {
    hide EmptyName, FullName, SetOpened, Find, FreeSem, Balanced;
    var k, y', i := y.kernel, Step(y, OpenFull(p), name), FullAt(y.kernel, name);
    if i < |k.sems| {
      OpenAgainOk(y, name, p, i, Idle, y');
    } else {
      CreateFullOk(y, name, p);
    }
  }

  /** One participant more, not blocked and outside. */
  lemma JoinFrame(y: Sys, p: nat, role: Role, y': Sys)
    requires p !in y.parts && p in y.kernel.procs && !y.kernel.procs[p].blocked
    requires y' == y.(parts := y.parts[p := Part(role, New, 0)])
    ensures Inside(y') == Inside(y) && (SlotSeen(y) ==> SlotSeen(y')) && forall q: nat, r :: Waits(y', q, r) <==> Waits(y, q, r)
    ensures forall q :: q in Inside(y) ==> (IsReader(y'.parts, q) <==> IsReader(y.parts, q))
  {
    forall q: nat ensures q in Inside(y') <==> q in Inside(y) { }
  }

  lemma JoinOk(y: Sys, name: string, p: nat, role: Role)
    requires Inv(y, name) && Enabled(y, Join(p, role), name)
    ensures Inv(Step(y, Join(p, role), name), name)
  {
    hide EmptyName, FullName, Find, Inv, Inside, Waits, IsReader, SlotSeen;
    var y' := Step(y, Join(p, role), name);
    PartsOf(y, name);
    JoinFrame(y, p, role, y');
    assert Parts(y', name);
    InvSame(y, name, y');
  }

  lemma OthersFrame(y: Sys, y': Sys)
    requires y'.parts == y.parts && y'.slot == y.slot && forall p <- y.parts :: Blocked(y', p) == Blocked(y, p)
    ensures Inside(y') == Inside(y) && (SlotSeen(y) ==> SlotSeen(y')) && forall q: nat, r :: Waits(y', q, r) <==> Waits(y, q, r)
  {
    forall q: nat ensures q in Inside(y') <==> q in Inside(y) { }
  }

  lemma OthersParts(y: Sys, name: string, k: State)
    requires Parts(y, name) && LeavesAlone(y, k, name)
    ensures Parts(y.(kernel := k), name) && forall p <- y.parts :: Blocked(y.(kernel := k), p) == Blocked(y, p)
  {
    hide EmptyName, FullName, Find, QueuedOnlyAt, OneOpen;
  }

  lemma OthersOk(y: Sys, name: string, k: State)
    requires Inv(y, name) && Enabled(y, Others(k), name)
    ensures Inv(Step(y, Others(k), name), name)
  {
    hide EmptyName, FullName, Find, Inv, Parts, Inside, Waits, IsReader, SlotSeen, Blocked, QueuedOnlyAt, OneOpen;
    var y' := Step(y, Others(k), name);
    PartsOf(y, name);
    OthersParts(y, name, k);
    OthersFrame(y, y');
    InvSame(y, name, y');
  }

  // ---------------------------------------------------------------- over runs

  lemma StepOk(y: Sys, ev: Event, name: string)
    requires Inv(y, name) && Enabled(y, ev, name)
    ensures Inv(Step(y, ev, name), name)
  {
    hide Inv, Step;
    match ev
    case Join(p, role) => JoinOk(y, name, p, role);
    case OpenEmpty(p) => OpenEmptyOk(y, name, p);
    case OpenFull(p) => OpenFullOk(y, name, p);
    case Begin(p, value) =>
      assert Mine(y, name, y.parts[p].role) < |y.kernel.sems| by { MineIsOpen(y, name, p); }
      if y.kernel.sems[Mine(y, name, y.parts[p].role)].value > 0 {
        BeginTakes(y, name, p, value);
      } else {
        BeginParks(y, name, p, value);
      }
    case Access(p) => AccessOk(y, name, p);
    case End(p) => EndOk(y, name, p);
    case Others(k) => OthersOk(y, name, k);
  }

  lemma MineIsOpen(y: Sys, name: string, p: nat)
    requires Inv(y, name) && Runs(y, p) && y.parts[p].pc == Idle
    ensures Mine(y, name, y.parts[p].role) < |y.kernel.sems|
  {
    BothOpen(y, name, p);
  }

  ghost predicate Legal(y: Sys, evs: seq<Event>, name: string)
    decreases |evs|
  {
    evs == [] || (Enabled(y, evs[0], name) && Legal(Step(y, evs[0], name), evs[1..], name))
  }

  ghost function Run(y: Sys, evs: seq<Event>, name: string): Sys
    requires Legal(y, evs, name)
    decreases |evs|
  {
    if evs == [] then y else Run(Step(y, evs[0], name), evs[1..], name)
  }

  /** Before anyone has opened the two semaphores. */
  ghost predicate Fresh(y: Sys, name: string) {
    && |y.kernel.sems| == MAX_SEMS && |y.kernel.procs| <= MAX_PROCESSES && y.parts == map[] && y.puts == y.takes == []
    && EmptyAt(y.kernel, name) == FullAt(y.kernel, name) == MAX_SEMS
  }

  lemma {:induction false} RunOk(y: Sys, evs: seq<Event>, name: string)
    requires Inv(y, name) && Legal(y, evs, name)
    ensures Inv(Run(y, evs, name), name)
    decreases |evs|
  {
    hide Inv, Enabled, Step;
    if evs != [] {
      StepOk(y, evs[0], name);
      RunOk(Step(y, evs[0], name), evs[1..], name);
    }
  }

  /** In every run, by any number of writers and readers: once both semaphores exist there is exactly one token, so at
      most one participant is between its wait and its post; and the values taken are the values put, in the order in
      which they were put, with at most the last one, which is then in the slot, not yet taken. */
  lemma OnePlaceFifo(y: Sys, evs: seq<Event>, name: string)
    requires Fresh(y, name) && Legal(y, evs, name)
    ensures var r := Run(y, evs, name); var e, f := EmptyAt(r.kernel, name), FullAt(r.kernel, name);
            && |r.kernel.sems| == MAX_SEMS
            && (f < MAX_SEMS ==> e < MAX_SEMS && Available(r.kernel.sems[e]) + Available(r.kernel.sems[f]) + |Inside(r)| == 1)
            && (r.puts == r.takes || r.puts == r.takes + [r.slot])
  {
    hide EmptyName, FullName, Find, Step, Enabled, Legal, Run;
    assert Inv(y, name);
    RunOk(y, evs, name);
  }
}
