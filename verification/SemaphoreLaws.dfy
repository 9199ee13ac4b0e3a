/** Conservation: what semaphores hold, over every disciplined run of processes that open, wait, post, close and die. */
module SemaphoreLaws {
  import opened Basics
  import opened PidQueue
  import opened SemaphoreSpec

  /** The processes marked as holding a unit of semaphore i. */
  function Holders(procs: Procs, i: nat): set<nat> {
    set p | p in procs && i in procs[p].held
  }

  /** The processes with an open reference to semaphore i. */
  function Users(procs: Procs, i: nat): set<nat> {
    set p | p in procs && i in procs[p].refs
  }

  /** Waits for semaphore i and so does not hold it. */
  predicate Parked(procs: Procs, p: nat, i: nat) {
    p in procs && i in procs[p].refs && i !in procs[p].held && procs[p].blocked
  }

  /** The units: value = initial - holders - waiters, and only a negative value has waiters, as many as it is below zero. */
  ghost predicate SemOk(m: Sem, procs: Procs, i: nat, initial: int) {
    && |Users(procs, i)| == m.opens && Holders(procs, i) <= Users(procs, i)
    && if m.opens == 0 then m.queue == []
       else
         && m.value == initial - |Holders(procs, i)| - |m.queue| && |m.queue| == (if m.value < 0 then -m.value else 0)
         && Distinct(m.queue) && forall p <- m.queue :: Parked(procs, p, i)
  }

  /** Nobody waits for two semaphores. */
  ghost predicate OneQueue(sems: seq<Sem>) {
    forall i, j, p :: 0 <= i < |sems| && 0 <= j < |sems| && i != j && p in sems[i].queue ==> p !in sems[j].queue
  }

  ghost predicate NamesApart(sems: seq<Sem>) {
    forall i, j :: 0 <= i < |sems| && 0 <= j < |sems| && i != j && sems[i].opens > 0 && sems[j].opens > 0
      ==> sems[i].name != sems[j].name
  }

  predicate InQueue(sems: seq<Sem>, i: nat, p: nat) {
    i < |sems| && p in sems[i].queue
  }

  /** Every blocked process, except perhaps one, waits in some queue, from which a post or a death will wake it. */
  ghost predicate Queued(s: State, except: int) {
    forall p <- s.procs :: s.procs[p].blocked && p != except ==> exists i :: InQueue(s.sems, i, p)
  }

  /** The units of semaphore j are accounted for; of semaphore `owed`, one less. */
  ghost predicate Accounted(s: State, init: seq<int>, owed: int, j: nat)
    requires j < |s.sems| == |init|
  {
    SemOk(s.sems[j], s.procs, j, if j == owed then init[j] - 1 else init[j])
  }

  ghost predicate AllOk(s: State, init: seq<int>, owed: int) {
    && |s.sems| == |init| == MAX_SEMS && |s.procs| <= MAX_PROCESSES
    && (forall j :: 0 <= j < MAX_SEMS ==> Accounted(s, init, owed, j))
    && OneQueue(s.sems) && NamesApart(s.sems)
  }

  /** What holds between calls. `init[i]` is the value semaphore i was created with. */
  ghost predicate Conserved(s: State, init: seq<int>) {
    AllOk(s, init, -1) && Queued(s, -1)
  }

  // ---------------------------------------------------------------- disciplined use

  datatype Event =
    | Create(pid: nat)
    | SemOpen(pid: nat, name: string, initial: nat)
    | SemWait(pid: nat, name: string)
    | SemPost(pid: nat, name: string)
    | SemClose(pid: nat, name: string)
    | Death(pid: nat)

  /** The process can run, and if the semaphore is open, has it open. */
  predicate Using(s: State, pid: nat, name: string) {
    && pid in s.procs && !s.procs[pid].blocked
    && var i := Find(s.sems, name, 0); i < |s.sems| ==> i in s.procs[pid].refs
  }

  predicate Holding(s: State, pid: nat, name: string) {
    var i := Find(s.sems, name, 0);
    pid in s.procs && i < |s.sems| && i in s.procs[pid].held
  }

  /** Open once, by a name that fits; wait and close only when not holding, post only when holding. */
  predicate Disciplined(s: State, ev: Event) {
    match ev
    case Create(pid) => pid !in s.procs && |s.procs| < MAX_PROCESSES
    case SemOpen(pid, name, initial) =>
      && pid in s.procs && !s.procs[pid].blocked && |name| < NAME_LEN && initial < INT64_LIMIT
      && var i := Find(s.sems, name, 0); i < |s.sems| ==> i !in s.procs[pid].refs
    case SemWait(pid, name) => Using(s, pid, name) && !Holding(s, pid, name)
    case SemPost(pid, name) => Using(s, pid, name) && (Holding(s, pid, name) || Find(s.sems, name, 0) == |s.sems|)
    case SemClose(pid, name) => Using(s, pid, name) && !Holding(s, pid, name)
    case Death(pid) => pid in s.procs
  }

  function Step(s: State, ev: Event): State {
    match ev
    case Create(pid) => s.(procs := s.procs[pid := Proc({}, {}, false)])
    case SemOpen(pid, name, initial) => Open(s, pid, name, initial).0
    case SemWait(pid, name) => Wait(s, pid, name).0
    case SemPost(pid, name) => Post(s, pid, name).0
    case SemClose(pid, name) => Close(s, pid, name).0
    case Death(pid) => var r := Cleanup(s, pid); r.(procs := r.procs - {pid})
  }

  /** The initial values, when a semaphore may have been created. */
  function Initials(s: State, init: seq<int>, ev: Event): seq<int>
    requires |init| == |s.sems|
  {
    if ev.SemOpen? && Find(s.sems, ev.name, 0) == |s.sems| && FreeSem(s.sems, 0) < |s.sems|
    then init[FreeSem(s.sems, 0) := ev.initial]
    else init
  }

  // ---------------------------------------------------------------- bits and sets

  lemma HeldBits(procs: Procs, p: nat, i: nat, on: bool, j: nat)
    ensures var r := SetHeld(procs, p, i, on);
            && Users(r, j) == Users(procs, j) && r.Keys == procs.Keys
            && Holders(r, j) == (if j != i || p !in procs then Holders(procs, j)
                        else if on then Holders(procs, j) + {p} else Holders(procs, j) - {p})
            && forall x <- procs :: r[x].blocked == procs[x].blocked
  {
  }

  lemma RefBits(procs: Procs, p: nat, i: nat, on: bool, j: nat)
    ensures var r := SetOpened(procs, p, i, on);
            && Holders(r, j) == Holders(procs, j) && r.Keys == procs.Keys
            && Users(r, j) == (if j != i || p !in procs then Users(procs, j)
                      else if on then Users(procs, j) + {p} else Users(procs, j) - {p})
            && forall x <- procs :: r[x].blocked == procs[x].blocked
  {
  }

  lemma BlockBits(procs: Procs, p: nat, on: bool, j: nat)
    ensures var r := SetBlocked(procs, p, on);
            && Holders(r, j) == Holders(procs, j) && Users(r, j) == Users(procs, j) && r.Keys == procs.Keys
            && forall x <- procs :: r[x].blocked == if x == p then on else procs[x].blocked
  {
  }

  /** A process parked stays so when its bits for i and its block stay. */
  lemma ParkedBy(procs: Procs, p: nat, i: nat)
    ensures Parked(procs, p, i) <==> p in Users(procs, i) && p !in Holders(procs, i) && procs[p].blocked
  {
  }

  lemma SameSize(a: map<nat, Proc>, b: map<nat, Proc>)
    requires a.Keys == b.Keys
    ensures |a| == |b|
  {
    assert |a| == |a.Keys| && |b| == |b.Keys|;
  }

  /** The bits of semaphore j are the same, and nobody who waits for it was woken. */
  ghost predicate Same(s: State, s': State, j: nat)
    requires j < |s.sems|
  {
    && Users(s'.procs, j) == Users(s.procs, j) && Holders(s'.procs, j) == Holders(s.procs, j)
    && forall p <- s.sems[j].queue :: p in s.procs && s.procs[p].blocked ==> p in s'.procs && s'.procs[p].blocked
  }

  /** A step on semaphore i leaves the accounts of every other as they are. */
  lemma OthersOk(s: State, init: seq<int>, owed: int, s': State, init': seq<int>, owed': int, i: nat, j: nat)
    requires AllOk(s, init, owed) && (owed == -1 || owed == i) && (owed' == -1 || owed' == i) && j < MAX_SEMS && j != i
    requires |s'.sems| == |init'| == MAX_SEMS && s'.sems[j] == s.sems[j] && init'[j] == init[j] && Same(s, s', j)
    ensures Accounted(s', init', owed', j)
  {
    hide Users, Holders, NamesApart, OneQueue;
    assert Accounted(s, init, owed, j);
    forall p <- s'.sems[j].queue ensures Parked(s'.procs, p, j) {
      assert Parked(s.procs, p, j);
      ParkedBy(s.procs, p, j);
      ParkedBy(s'.procs, p, j);
    }
  }

  /** Gathering the accounts after a step on semaphore i. */
  lemma StepOk(s: State, init: seq<int>, owed: int, s': State, init': seq<int>, owed': int, i: nat)
    requires AllOk(s, init, owed) && (owed == -1 || owed == i) && (owed' == -1 || owed' == i) && i < MAX_SEMS
    requires |s'.sems| == |init'| == MAX_SEMS && |s'.procs| <= MAX_PROCESSES
    requires forall j :: 0 <= j < MAX_SEMS && j != i ==> s'.sems[j] == s.sems[j] && init'[j] == init[j] && Same(s, s', j)
    requires Accounted(s', init', owed', i)
    requires forall p <- s'.sems[i].queue :: p in s.sems[i].queue || forall j :: 0 <= j < MAX_SEMS ==> p !in s.sems[j].queue
    requires s'.sems[i].opens > 0 ==>
               (s.sems[i].opens > 0 && s'.sems[i].name == s.sems[i].name)
               || forall j :: 0 <= j < MAX_SEMS && s.sems[j].opens > 0 ==> s.sems[j].name != s'.sems[i].name
    ensures AllOk(s', init', owed')
  {
    hide Same, Accounted;
    forall j | 0 <= j < MAX_SEMS ensures Accounted(s', init', owed', j) {
      if j != i { OthersOk(s, init, owed, s', init', owed', i, j); }
    }
  }

  /** The queue of a semaphore that is closed, or has units left, is empty; the others hold only parked users. */
  lemma QueueGives(s: State, init: seq<int>, owed: int, i: nat)
    requires AllOk(s, init, owed) && i < MAX_SEMS
    ensures Accounted(s, init, owed, i)
    ensures forall p <- s.sems[i].queue ::
              && Parked(s.procs, p, i) && p in Users(s.procs, i) && p !in Holders(s.procs, i)
              && p in s.procs && s.procs[p].blocked
    ensures Distinct(s.sems[i].queue)
  {
    hide Users, Holders;
    assert Accounted(s, init, owed, i);
    forall p <- s.sems[i].queue ensures p in Users(s.procs, i) && p !in Holders(s.procs, i) { ParkedBy(s.procs, p, i); }
  }

  // ---------------------------------------------------------------- a unit comes back

  /** The process woken first: out of the queue, holding, running. */
  lemma WokenBits(procs: Procs, w: nat, i: nat, j: nat)
    requires w in procs
    ensures var r := SetBlocked(SetHeld(procs, w, i, true), w, false);
            && r.Keys == procs.Keys && |r| == |procs| && Users(r, j) == Users(procs, j)
            && Holders(r, j) == (if j == i then Holders(procs, j) + {w} else Holders(procs, j))
            && forall x <- procs :: r[x].blocked == (procs[x].blocked && x != w)
  {
    hide Users, Holders, SetHeld, SetBlocked;
    HeldBits(procs, w, i, true, j);
    BlockBits(SetHeld(procs, w, i, true), w, false, j);
    SameSize(SetBlocked(SetHeld(procs, w, i, true), w, false), procs);
  }

  lemma ReturnAccounted(s: State, init: seq<int>, i: nat)
    requires AllOk(s, init, i) && i < MAX_SEMS
    ensures |Return(s, i).sems| == MAX_SEMS && Accounted(Return(s, i), init, -1, i)
    ensures forall p <- Return(s, i).sems[i].queue :: p in s.sems[i].queue
  {
    hide Users, Holders, OneQueue, NamesApart, SetHeld, SetBlocked, Parked;
    QueueGives(s, init, i, i);
    var m, r := s.sems[i], Return(s, i);
    if m.value + 1 <= 0 && m.queue != [] {
      assert m.queue[0] in m.queue;
      WokenBits(s.procs, m.queue[0], i, i);
      forall p <- m.queue[1..] ensures Parked(r.procs, p, i) {
        assert Parked(s.procs, p, i);
        ParkedBy(s.procs, p, i);
        ParkedBy(r.procs, p, i);
      }
    }
  }

  lemma ReturnSame(s: State, init: seq<int>, i: nat, j: nat)
    requires AllOk(s, init, i) && i < MAX_SEMS && j < MAX_SEMS && j != i
    ensures Same(s, Return(s, i), j) && |Return(s, i).procs| == |s.procs|
  {
    hide Users, Holders, Accounted, NamesApart, SetHeld, SetBlocked;
    QueueGives(s, init, i, i);
    var m := s.sems[i];
    if m.value + 1 <= 0 && m.queue != [] {
      assert m.queue[0] in m.queue;
      WokenBits(s.procs, m.queue[0], i, j);
    }
  }

  lemma ReturnOk(s: State, init: seq<int>, i: nat)
    requires AllOk(s, init, i) && i < MAX_SEMS
    ensures AllOk(Return(s, i), init, -1)
  {
    hide Same, Accounted, SetHeld, SetBlocked, OneQueue;
    forall j | 0 <= j < MAX_SEMS && j != i ensures Same(s, Return(s, i), j) { ReturnSame(s, init, i, j); }
    ReturnSame(s, init, i, if i == 0 then 1 else 0);
    ReturnAccounted(s, init, i);
    StepOk(s, init, i, Return(s, i), init, -1, i);
  }

  /** Whoever is still blocked is still queued. */
  lemma ReturnQueued(s: State, init: seq<int>, i: nat, except: int)
    requires AllOk(s, init, i) && i < MAX_SEMS && Queued(s, except)
    ensures Queued(Return(s, i), except)
  {
    hide Users, Holders, Accounted, NamesApart, SetHeld, SetBlocked;
    QueueGives(s, init, i, i);
    var m, r := s.sems[i], Return(s, i);
    if m.value + 1 <= 0 && m.queue != [] {
      assert m.queue[0] in m.queue;
      WokenBits(s.procs, m.queue[0], i, i);
      forall p <- r.procs | r.procs[p].blocked && p != except ensures exists j :: InQueue(r.sems, j, p) {
        var j :| InQueue(s.sems, j, p);
        assert m.queue == [m.queue[0]] + m.queue[1..];
        assert InQueue(r.sems, j, p);
      }
    } else {
      forall p <- r.procs | r.procs[p].blocked && p != except ensures exists j :: InQueue(r.sems, j, p) {
        var j :| InQueue(s.sems, j, p);
        assert InQueue(r.sems, j, p);
      }
    }
  }

  // ---------------------------------------------------------------- post

  /** Dropping the mark leaves semaphore i owing a unit. */
  lemma DropOk(s: State, init: seq<int>, pid: nat, i: nat)
    requires Conserved(s, init) && i < MAX_SEMS && pid in s.procs && i in s.procs[pid].held && s.sems[i].opens > 0
    ensures var r := s.(procs := SetHeld(s.procs, pid, i, false)); AllOk(r, init, i) && Queued(r, -1)
  {
    hide Users, Holders, SetHeld, NamesApart, OneQueue, Parked;
    var r := s.(procs := SetHeld(s.procs, pid, i, false));
    HeldBits(s.procs, pid, i, false, i);
    SameSize(r.procs, s.procs);
    QueueGives(s, init, -1, i);
    assert pid in Holders(s.procs, i) by { HolderIs(s.procs, pid, i); }
    forall p <- s.sems[i].queue ensures Parked(r.procs, p, i) {
      ParkedBy(s.procs, p, i);
      ParkedBy(r.procs, p, i);
    }
    assert Accounted(r, init, i, i);
    forall j | 0 <= j < MAX_SEMS && j != i ensures Same(s, r, j) { HeldBits(s.procs, pid, i, false, j); }
    StepOk(s, init, -1, r, init, i, i);
    forall p <- r.procs | r.procs[p].blocked ensures exists j :: InQueue(r.sems, j, p) {
      var j :| InQueue(s.sems, j, p);
      assert InQueue(r.sems, j, p);
    }
  }

  lemma HolderIs(procs: Procs, p: nat, i: nat)
    ensures p in Holders(procs, i) <==> p in procs && i in procs[p].held
    ensures p in Users(procs, i) <==> p in procs && i in procs[p].refs
  {
  }

  lemma PostOk(s: State, init: seq<int>, pid: nat, name: string)
    requires Conserved(s, init) && Disciplined(s, SemPost(pid, name))
    ensures Conserved(Post(s, pid, name).0, init)
  {
    hide AllOk, Queued, Return, SetHeld;
    assert |s.sems| == MAX_SEMS by { AllSize(s, init); }
    var i := Find(s.sems, name, 0);
    if i < |s.sems| {
      DropOk(s, init, pid, i);
      var d := s.(procs := SetHeld(s.procs, pid, i, false));
      ReturnOk(d, init, i);
      ReturnQueued(d, init, i, -1);
    }
  }

  lemma AllSize(s: State, init: seq<int>)
    requires AllOk(s, init, -1)
    ensures |s.sems| == |init| == MAX_SEMS
  {
  }

  // ---------------------------------------------------------------- wait

  /** A process that can run waits nowhere. */
  lemma RunsNowhere(s: State, init: seq<int>, pid: nat)
    requires AllOk(s, init, -1) && pid in s.procs && !s.procs[pid].blocked
    ensures forall j :: 0 <= j < MAX_SEMS ==> pid !in s.sems[j].queue
  {
    hide Accounted, OneQueue, NamesApart;
    forall j | 0 <= j < MAX_SEMS ensures pid !in s.sems[j].queue { QueueGives(s, init, -1, j); }
  }

  /** A queue never fills up: its members are live processes, and the one that joins is not among them. */
  lemma QueueHasRoom(s: State, init: seq<int>, pid: nat, i: nat)
    requires AllOk(s, init, -1) && i < MAX_SEMS && pid in s.procs && pid !in s.sems[i].queue
    ensures |s.sems[i].queue| < MAX_PROCESSES
  {
    hide Accounted, OneQueue, NamesApart, Distinct;
    QueueGives(s, init, -1, i);
    var q := s.sems[i].queue;
    DistinctSize(q);
    SubsetSize(Elements(q), s.procs.Keys - {pid});
    assert |s.procs.Keys| == |s.procs|;
    assert |s.procs.Keys - {pid}| == |s.procs.Keys| - 1;
  }

  lemma WaitTakes(s: State, init: seq<int>, pid: nat, i: nat)
    requires Conserved(s, init) && i < MAX_SEMS && s.sems[i].opens > 0 && s.sems[i].value > 0
    requires pid in s.procs && i in s.procs[pid].refs && i !in s.procs[pid].held
    ensures Conserved(State(s.sems[i := s.sems[i].(value := s.sems[i].value - 1)], SetHeld(s.procs, pid, i, true)), init)
  {
    hide Users, Holders, SetHeld, NamesApart, OneQueue, Parked;
    var r := State(s.sems[i := s.sems[i].(value := s.sems[i].value - 1)], SetHeld(s.procs, pid, i, true));
    HeldBits(s.procs, pid, i, true, i);
    SameSize(r.procs, s.procs);
    QueueGives(s, init, -1, i);
    HolderIs(s.procs, pid, i);
    assert Accounted(r, init, -1, i);
    forall j | 0 <= j < MAX_SEMS && j != i ensures Same(s, r, j) { HeldBits(s.procs, pid, i, true, j); }
    StepOk(s, init, -1, r, init, -1, i);
    forall p <- r.procs | r.procs[p].blocked ensures exists j :: InQueue(r.sems, j, p) {
      var j :| InQueue(s.sems, j, p);
      assert InQueue(r.sems, j, p);
    }
  }

  lemma WaitJoins(s: State, init: seq<int>, pid: nat, i: nat)
    requires Conserved(s, init) && i < MAX_SEMS && s.sems[i].opens > 0 && s.sems[i].value <= 0
    requires pid in s.procs && i in s.procs[pid].refs && i !in s.procs[pid].held && !s.procs[pid].blocked
    ensures var m := s.sems[i];
            Conserved(State(s.sems[i := m.(value := m.value - 1, queue := m.queue + [pid])], SetBlocked(s.procs, pid, true)), init)
  {
    hide Users, Holders, SetBlocked, NamesApart, OneQueue, Parked;
    var m := s.sems[i];
    var r := State(s.sems[i := m.(value := m.value - 1, queue := m.queue + [pid])], SetBlocked(s.procs, pid, true));
    BlockBits(s.procs, pid, true, i);
    SameSize(r.procs, s.procs);
    QueueGives(s, init, -1, i);
    RunsNowhere(s, init, pid);
    HolderIs(s.procs, pid, i);
    forall p <- r.sems[i].queue ensures Parked(r.procs, p, i) { ParkedBy(r.procs, p, i); }
    assert Accounted(r, init, -1, i);
    forall j | 0 <= j < MAX_SEMS && j != i ensures Same(s, r, j) { BlockBits(s.procs, pid, true, j); }
    StepOk(s, init, -1, r, init, -1, i);
    forall p <- r.procs | r.procs[p].blocked ensures exists j :: InQueue(r.sems, j, p) {
      if p == pid {
        assert InQueue(r.sems, i, p);
      } else {
        var j :| InQueue(s.sems, j, p);
        assert InQueue(r.sems, j, p);
      }
    }
  }

  lemma WaitOk(s: State, init: seq<int>, pid: nat, name: string)
    requires Conserved(s, init) && Disciplined(s, SemWait(pid, name))
    ensures Conserved(Wait(s, pid, name).0, init)
  {
    hide AllOk, Queued, SetHeld, SetBlocked;
    AllSize(s, init);
    var i := Find(s.sems, name, 0);
    if i < |s.sems| {
      if s.sems[i].value > 0 {
        WaitTakes(s, init, pid, i);
      } else {
        RunsNowhere(s, init, pid);
        QueueHasRoom(s, init, pid, i);
        WaitJoins(s, init, pid, i);
      }
    }
  }

  // ---------------------------------------------------------------- open

  lemma OpenOk(s: State, init: seq<int>, pid: nat, name: string, initial: nat)
    requires Conserved(s, init) && Disciplined(s, SemOpen(pid, name, initial))
    ensures Conserved(Open(s, pid, name, initial).0, Initials(s, init, SemOpen(pid, name, initial)))
  {
    hide AllOk, Queued, SetOpened;
    AllSize(s, init);
    var i, j := Find(s.sems, name, 0), FreeSem(s.sems, 0);
    if i < |s.sems| {
      JoinOk(s, init, pid, i);
    } else if j < |s.sems| {
      CreateSemOk(s, init, pid, j, name, initial);
    }
  }

  lemma JoinOk(s: State, init: seq<int>, pid: nat, i: nat)
    requires Conserved(s, init) && i < MAX_SEMS && s.sems[i].opens > 0 && pid in s.procs && i !in s.procs[pid].refs
    requires !s.procs[pid].blocked
    ensures Conserved(State(s.sems[i := s.sems[i].(opens := s.sems[i].opens + 1)], SetOpened(s.procs, pid, i, true)), init)
  {
    hide Users, Holders, SetOpened, NamesApart, OneQueue, Parked;
    var r := State(s.sems[i := s.sems[i].(opens := s.sems[i].opens + 1)], SetOpened(s.procs, pid, i, true));
    RefBits(s.procs, pid, i, true, i);
    SameSize(r.procs, s.procs);
    QueueGives(s, init, -1, i);
    HolderIs(s.procs, pid, i);
    forall p <- r.sems[i].queue ensures Parked(r.procs, p, i) { ParkedBy(r.procs, p, i); }
    assert Accounted(r, init, -1, i);
    forall j | 0 <= j < MAX_SEMS && j != i ensures Same(s, r, j) { RefBits(s.procs, pid, i, true, j); }
    StepOk(s, init, -1, r, init, -1, i);
    forall p <- r.procs | r.procs[p].blocked ensures exists j :: InQueue(r.sems, j, p) {
      var j :| InQueue(s.sems, j, p);
      assert InQueue(r.sems, j, p);
    }
  }

  lemma CreateSemOk(s: State, init: seq<int>, pid: nat, i: nat, name: string, initial: nat)
    requires Conserved(s, init) && i < MAX_SEMS && s.sems[i].opens == 0 && pid in s.procs && !s.procs[pid].blocked
    requires |name| < NAME_LEN && initial < INT64_LIMIT
    requires forall k :: 0 <= k < MAX_SEMS && s.sems[k].opens > 0 ==> s.sems[k].name != name
    ensures Conserved(State(s.sems[i := Sem(Stored(name, NAME_LEN), AsInt64(initial), [], 1)], SetOpened(s.procs, pid, i, true)),
                      init[i := initial])
  {
    hide Users, Holders, SetOpened, NamesApart, OneQueue, Parked;
    var r := State(s.sems[i := Sem(Stored(name, NAME_LEN), AsInt64(initial), [], 1)], SetOpened(s.procs, pid, i, true));
    RefBits(s.procs, pid, i, true, i);
    SameSize(r.procs, s.procs);
    QueueGives(s, init, -1, i);
    assert Users(s.procs, i) == {};
    assert AsInt64(initial) == initial;
    assert Accounted(r, init[i := initial], -1, i);
    forall j | 0 <= j < MAX_SEMS && j != i ensures Same(s, r, j) { RefBits(s.procs, pid, i, true, j); }
    StepOk(s, init, -1, r, init[i := initial], -1, i);
    forall p <- r.procs | r.procs[p].blocked ensures exists j :: InQueue(r.sems, j, p) {
      var j :| InQueue(s.sems, j, p);
      assert InQueue(r.sems, j, p);
    }
  }

  // ---------------------------------------------------------------- close

  lemma CloseOk(s: State, init: seq<int>, pid: nat, name: string)
    requires Conserved(s, init) && Disciplined(s, SemClose(pid, name))
    ensures Conserved(Close(s, pid, name).0, init)
  {
    hide AllOk, Queued, SetOpened, SetHeld;
    AllSize(s, init);
    var i := Find(s.sems, name, 0);
    if i < |s.sems| { LeaveOk(s, init, pid, i); }
  }

  lemma CloseBits(procs: Procs, p: nat, i: nat, j: nat)
    requires p in procs
    ensures var r := SetOpened(SetHeld(procs, p, i, false), p, i, false);
            && r.Keys == procs.Keys && |r| == |procs|
            && Users(r, j) == (if j == i then Users(procs, j) - {p} else Users(procs, j))
            && Holders(r, j) == (if j == i then Holders(procs, j) - {p} else Holders(procs, j))
            && forall x <- procs :: r[x].blocked == procs[x].blocked
  {
    hide Users, Holders, SetHeld, SetOpened;
    HeldBits(procs, p, i, false, j);
    RefBits(SetHeld(procs, p, i, false), p, i, false, j);
    SameSize(SetOpened(SetHeld(procs, p, i, false), p, i, false), procs);
  }

  lemma LeaveOk(s: State, init: seq<int>, pid: nat, i: nat)
    requires Conserved(s, init) && i < MAX_SEMS && s.sems[i].opens > 0 && pid in s.procs && !s.procs[pid].blocked
    requires i in s.procs[pid].refs && i !in s.procs[pid].held
    ensures var m := s.sems[i];
            var m' := if m.opens - 1 == 0 then m.(opens := 0, name := "", queue := []) else m.(opens := m.opens - 1);
            Conserved(State(s.sems[i := m'], SetOpened(SetHeld(s.procs, pid, i, false), pid, i, false)), init)
  {
    hide Users, Holders, SetOpened, SetHeld, NamesApart, OneQueue, Parked;
    var m := s.sems[i];
    var m' := if m.opens - 1 == 0 then m.(opens := 0, name := "", queue := []) else m.(opens := m.opens - 1);
    var r := State(s.sems[i := m'], SetOpened(SetHeld(s.procs, pid, i, false), pid, i, false));
    CloseBits(s.procs, pid, i, i);
    QueueGives(s, init, -1, i);
    RunsNowhere(s, init, pid);
    HolderIs(s.procs, pid, i);
    forall p <- m.queue ensures Parked(r.procs, p, i) { ParkedBy(r.procs, p, i); }
    if m.opens == 1 { LastUser(s.procs, i, pid, m.queue); }
    assert Accounted(r, init, -1, i);
    forall j | 0 <= j < MAX_SEMS && j != i ensures Same(s, r, j) { CloseBits(s.procs, pid, i, j); }
    StepOk(s, init, -1, r, init, -1, i);
    forall p <- r.procs | r.procs[p].blocked ensures exists j :: InQueue(r.sems, j, p) {
      var j :| InQueue(s.sems, j, p);
      assert InQueue(r.sems, j, p);
    }
  }

  lemma HeadIn(q: seq<nat>, s: set<nat>)
    requires forall p <- q :: p in s
    ensures q != [] ==> q[0] in s
  {
  }

  /** When a process is the only user, nobody else waits. */
  lemma LastUser(procs: Procs, i: nat, pid: nat, q: seq<nat>)
    requires |Users(procs, i)| == 1 && pid in Users(procs, i)
    requires forall p <- q :: p in Users(procs, i) && p != pid
    ensures q == [] && Users(procs, i) == {pid}
  {
    hide Users;
    HeadIn(q, Users(procs, i) - {pid});
    assert |Users(procs, i) - {pid}| == 0;
  }

  // ---------------------------------------------------------------- death

  lemma {:induction false} RemovedOnce(q: seq<nat>, pid: nat)
    requires Distinct(q)
    ensures Distinct(Removed(q, pid)) && |Removed(q, pid)| == |q| - (if pid in q then 1 else 0)
  {
    if q != [] {
      var r, last := q[..|q| - 1], q[|q| - 1];
      assert q == r + [last];
      RemovedOnce(r, pid);
      assert last !in r;
    }
  }

  /** Semaphore i once the process has left its queue and given back its reference and its mark. */
  function Left(s: State, pid: nat, i: nat): State
    requires i < |s.sems| && pid in s.procs
  {
    var m := s.sems[i];
    State(s.sems[i := m.(queue := Removed(m.queue, pid),
                         opens := if i in s.procs[pid].refs && m.opens > 0 then m.opens - 1 else m.opens,
                         value := if pid in m.queue then m.value + 1 else m.value)],
          SetOpened(SetHeld(s.procs, pid, i, false), pid, i, false))
  }

  lemma CleanOneIs(s: State, pid: nat, i: nat)
    requires i < |s.sems| && pid in s.procs && s.sems[i].opens > 0
    ensures CleanOne(s, pid, i) ==
              if pid !in s.sems[i].queue && i in s.procs[pid].held then Return(Left(s, pid, i), i) else Left(s, pid, i)
  {
    hide Removed, Return, SetHeld, SetOpened;
    BitsCommute(s.procs, pid, i);
  }

  lemma BitsCommute(procs: Procs, p: nat, i: nat)
    ensures SetHeld(SetOpened(procs, p, i, false), p, i, false) == SetOpened(SetHeld(procs, p, i, false), p, i, false)
    ensures p in procs && i !in procs[p].held ==> SetHeld(procs, p, i, false) == procs
  {
    assert p in procs && i !in procs[p].held ==> procs[p].held - {i} == procs[p].held;
  }

  lemma LeftAccounted(s: State, init: seq<int>, pid: nat, i: nat)
    requires AllOk(s, init, -1) && i < MAX_SEMS && s.sems[i].opens > 0 && pid in s.procs
    ensures Accounted(Left(s, pid, i), init, if i in s.procs[pid].held then i else -1, i)
  {
    hide Users, Holders, SetOpened, SetHeld, NamesApart, OneQueue, Parked, Removed, Distinct;
    var m, r := s.sems[i], Left(s, pid, i);
    CloseBits(s.procs, pid, i, i);
    QueueGives(s, init, -1, i);
    HolderIs(s.procs, pid, i);
    RemovedOnce(m.queue, pid);
    forall p <- Removed(m.queue, pid) ensures Parked(r.procs, p, i) && p in Users(r.procs, i) { ParkedBy(r.procs, p, i); }
    if r.sems[i].opens == 0 { NoUsers(r.procs, i, r.sems[i].queue); }
  }

  lemma NoUsers(procs: Procs, i: nat, q: seq<nat>)
    requires |Users(procs, i)| == 0 && forall p <- q :: p in Users(procs, i)
    ensures q == []
  {
    hide Users;
    HeadIn(q, Users(procs, i));
  }

  lemma LeftSame(s: State, init: seq<int>, pid: nat, i: nat, j: nat)
    requires AllOk(s, init, -1) && i < MAX_SEMS && pid in s.procs && j < MAX_SEMS && j != i
    ensures Same(s, Left(s, pid, i), j) && |Left(s, pid, i).procs| == |s.procs|
  {
    hide Users, Holders, SetOpened, SetHeld, Removed;
    CloseBits(s.procs, pid, i, j);
  }

  /** No trace of the process is left at semaphore i. */
  ghost predicate Gone(s: State, pid: nat, i: nat)
    requires i < |s.sems|
  {
    pid !in Users(s.procs, i) && pid !in Holders(s.procs, i) && pid !in s.sems[i].queue
  }

  lemma LeftOk(s: State, init: seq<int>, pid: nat, i: nat)
    requires AllOk(s, init, -1) && i < MAX_SEMS && s.sems[i].opens > 0 && pid in s.procs && Queued(s, pid)
    ensures var r := Left(s, pid, i);
            AllOk(r, init, if i in s.procs[pid].held then i else -1) && Queued(r, pid) && Gone(r, pid, i)
  {
    hide Accounted, Users, Holders, SetOpened, SetHeld, OneQueue, NamesApart, Same;
    var r := Left(s, pid, i);
    LeftAccounted(s, init, pid, i);
    forall j | 0 <= j < MAX_SEMS && j != i ensures Same(s, r, j) { LeftSame(s, init, pid, i, j); }
    CloseBits(s.procs, pid, i, i);
    StepOk(s, init, -1, r, init, if i in s.procs[pid].held then i else -1, i);
    forall p <- r.procs | r.procs[p].blocked && p != pid ensures exists j :: InQueue(r.sems, j, p) {
      var j :| InQueue(s.sems, j, p);
      assert InQueue(r.sems, j, p);
    }
  }

  lemma CleanOneOk(s: State, init: seq<int>, pid: nat, i: nat)
    requires AllOk(s, init, -1) && i < MAX_SEMS && pid in s.procs && Queued(s, pid)
    ensures var r := CleanOne(s, pid, i);
            && AllOk(r, init, -1) && Queued(r, pid) && Gone(r, pid, i)
            && forall j :: 0 <= j < MAX_SEMS && j != i ==> Same(s, r, j) && r.sems[j] == s.sems[j]
  {
    hide AllOk, Queued, Same, CleanOne, Left, Return, Holders, Users;
    AllSize(s, init);
    if s.sems[i].opens > 0 {
      CleanOneIs(s, pid, i);
      LeftOk(s, init, pid, i);
      var l := Left(s, pid, i);
      forall j | 0 <= j < MAX_SEMS && j != i ensures Same(s, CleanOne(s, pid, i), j) && CleanOne(s, pid, i).sems[j] == s.sems[j] {
        LeftSame(s, init, pid, i, j);
        LeftElsewhere(s, pid, i, j);
        if i in s.procs[pid].held { ReturnSame(l, init, i, j); SameThen(s, l, Return(l, i), j); }
      }
      if i in s.procs[pid].held {
        ReturnOk(l, init, i);
        ReturnQueued(l, init, i, pid);
        ReturnGone(l, init, i, pid);
        HeldIsNotQueued(s, init, pid, i);
      }
    } else {
      ClosedIsGone(s, init, pid, i);
    }
  }

  lemma LeftElsewhere(s: State, pid: nat, i: nat, j: nat)
    requires i < |s.sems| && pid in s.procs && j < |s.sems| && j != i
    ensures Left(s, pid, i).sems[j] == s.sems[j] && |Left(s, pid, i).sems| == |s.sems|
    ensures |Return(Left(s, pid, i), i).sems| == |s.sems| && Return(Left(s, pid, i), i).sems[j] == s.sems[j]
  {
  }

  lemma SameThen(s: State, l: State, r: State, j: nat)
    requires j < |s.sems| && j < |l.sems| && l.sems[j] == s.sems[j] && Same(s, l, j) && Same(l, r, j)
    ensures Same(s, r, j)
  {
  }

  lemma HeldIsNotQueued(s: State, init: seq<int>, pid: nat, i: nat)
    requires AllOk(s, init, -1) && i < MAX_SEMS && pid in s.procs && i in s.procs[pid].held
    ensures pid !in s.sems[i].queue
  {
    QueueGives(s, init, -1, i);
    HolderIs(s.procs, pid, i);
  }

  lemma ClosedIsGone(s: State, init: seq<int>, pid: nat, i: nat)
    requires AllOk(s, init, -1) && i < MAX_SEMS && s.sems[i].opens == 0 && pid in s.procs
    ensures Gone(s, pid, i) && CleanOne(s, pid, i) == s && forall j :: 0 <= j < MAX_SEMS ==> Same(s, s, j)
  {
    hide Users, Holders;
    assert Accounted(s, init, -1, i);
    assert Users(s.procs, i) == {};
  }

  lemma ReturnGone(s: State, init: seq<int>, i: nat, pid: nat)
    requires AllOk(s, init, i) && i < MAX_SEMS && Gone(s, pid, i)
    ensures Gone(Return(s, i), pid, i)
  {
    hide Users, Holders, Accounted, SetHeld, SetBlocked, OneQueue, NamesApart;
    QueueGives(s, init, i, i);
    var m := s.sems[i];
    if m.value + 1 <= 0 && m.queue != [] {
      assert m.queue[0] in m.queue;
      WokenBits(s.procs, m.queue[0], i, i);
    }
  }

  lemma {:induction false} CleanFromOk(s: State, init: seq<int>, pid: nat, i: nat)
    requires AllOk(s, init, -1) && i <= MAX_SEMS && pid in s.procs && Queued(s, pid)
    requires forall k :: 0 <= k < i ==> Gone(s, pid, k)
    ensures |s.sems| == MAX_SEMS
    ensures var r := CleanFrom(s, pid, i);
            && AllOk(r, init, -1) && Queued(r, pid) && forall k :: 0 <= k < MAX_SEMS ==> Gone(r, pid, k)
    decreases MAX_SEMS - i
  {
    hide AllOk, Queued, CleanOne;
    AllSize(s, init);
    if i < MAX_SEMS {
      CleanOneOk(s, init, pid, i);
      forall k | 0 <= k < i ensures Gone(CleanOne(s, pid, i), pid, k) {
        assert Gone(s, pid, k) && Same(s, CleanOne(s, pid, i), k);
      }
      CleanFromOk(CleanOne(s, pid, i), init, pid, i + 1);
    }
  }

  lemma DeathOk(s: State, init: seq<int>, pid: nat)
    requires Conserved(s, init) && pid in s.procs
    ensures Conserved(Step(s, Death(pid)), init)
  {
    hide AllOk, CleanFrom;
    AllSize(s, init);
    CleanFromOk(s, init, pid, 0);
    BuryOk(CleanFrom(s, pid, 0), init, pid, Step(s, Death(pid)));
  }

  lemma BuryOk(s: State, init: seq<int>, pid: nat, r: State)
    requires AllOk(s, init, -1) && Queued(s, pid) && pid in s.procs && forall k :: 0 <= k < MAX_SEMS ==> Gone(s, pid, k)
    requires r.sems == s.sems && r.procs == s.procs - {pid}
    ensures Conserved(r, init)
  {
    hide Users, Holders, Accounted, NamesApart, OneQueue;
    forall j | 0 <= j < MAX_SEMS ensures Same(s, r, j) { BuriedBits(s.procs, pid, j); assert Gone(s, pid, j); }
    assert s.procs.Keys == r.procs.Keys + {pid};
    assert |r.procs.Keys| == |r.procs| && |s.procs.Keys| == |s.procs|;
    forall j | 0 <= j < MAX_SEMS ensures Accounted(r, init, -1, j) {
      OthersOk(s, init, -1, r, init, -1, MAX_SEMS, j);
    }
    forall p <- r.procs | r.procs[p].blocked ensures exists j :: InQueue(r.sems, j, p) {
      var j :| InQueue(s.sems, j, p);
      assert InQueue(r.sems, j, p);
    }
  }

  lemma BuriedBits(procs: Procs, pid: nat, j: nat)
    ensures Users(procs - {pid}, j) == Users(procs, j) - {pid} && Holders(procs - {pid}, j) == Holders(procs, j) - {pid}
  {
  }

  lemma CreateOk(s: State, init: seq<int>, pid: nat)
    requires Conserved(s, init) && Disciplined(s, Create(pid))
    ensures Conserved(Step(s, Create(pid)), init)
  {
    hide Users, Holders, Accounted, NamesApart, OneQueue;
    var r := Step(s, Create(pid));
    assert r.procs.Keys == s.procs.Keys + {pid};
    assert |r.procs.Keys| == |r.procs| && |s.procs.Keys| == |s.procs|;
    forall j | 0 <= j < MAX_SEMS ensures Same(s, r, j) { BornBits(s.procs, pid, j); }
    forall j | 0 <= j < MAX_SEMS ensures Accounted(r, init, -1, j) {
      OthersOk(s, init, -1, r, init, -1, MAX_SEMS, j);
    }
    forall p <- r.procs | r.procs[p].blocked ensures exists j :: InQueue(r.sems, j, p) {
      var j :| InQueue(s.sems, j, p);
      assert InQueue(r.sems, j, p);
    }
  }

  lemma BornBits(procs: Procs, pid: nat, j: nat)
    requires pid !in procs
    ensures var r := procs[pid := Proc({}, {}, false)]; Users(r, j) == Users(procs, j) && Holders(r, j) == Holders(procs, j)
  {
  }

  // ---------------------------------------------------------------- over runs

  /** Every disciplined call, creation and death keeps the accounts. */
  lemma StepConserves(s: State, init: seq<int>, ev: Event)
    requires Conserved(s, init) && Disciplined(s, ev)
    ensures |init| == |s.sems| && Conserved(Step(s, ev), Initials(s, init, ev))
  {
    hide Conserved, Disciplined, Open, Wait, Post, Close, Cleanup;
    assert |init| == |s.sems| == MAX_SEMS by { ConservedSize(s, init); }
    match ev
    case Create(pid) => CreateOk(s, init, pid);
    case SemOpen(pid, name, initial) => OpenOk(s, init, pid, name, initial);
    case SemWait(pid, name) => WaitOk(s, init, pid, name);
    case SemPost(pid, name) => PostOk(s, init, pid, name);
    case SemClose(pid, name) => CloseOk(s, init, pid, name);
    case Death(pid) => assert pid in s.procs by { DeadWasLive(s, pid); } DeathOk(s, init, pid);
  }

  lemma ConservedSize(s: State, init: seq<int>)
    requires Conserved(s, init)
    ensures |s.sems| == |init| == MAX_SEMS
  {
    AllSize(s, init);
  }

  lemma DeadWasLive(s: State, pid: nat)
    requires Disciplined(s, Death(pid))
    ensures pid in s.procs
  {
  }

  ghost predicate Legal(s: State, evs: seq<Event>)
    decreases |evs|
  {
    evs == [] || (Disciplined(s, evs[0]) && Legal(Step(s, evs[0]), evs[1..]))
  }

  function Run(s: State, evs: seq<Event>): State
    decreases |evs|
  {
    if evs == [] then s else Run(Step(s, evs[0]), evs[1..])
  }

  function InitialsAfter(s: State, init: seq<int>, evs: seq<Event>): seq<int>
    decreases |evs|
  {
    if evs == [] || |init| != |s.sems| then init
    else InitialsAfter(Step(s, evs[0]), Initials(s, init, evs[0]), evs[1..])
  }

  function NoSems(): State {
    State(seq(MAX_SEMS, _ => Sem("", 0, [], 0)), map[])
  }

  lemma StartsConserved()
    ensures Conserved(NoSems(), seq(MAX_SEMS, _ => 0))
  {
    var s, init := NoSems(), seq(MAX_SEMS, _ => 0);
    forall j | 0 <= j < MAX_SEMS ensures Accounted(s, init, -1, j) {
      assert Users(s.procs, j) == {} && Holders(s.procs, j) == {};
    }
  }

  /** Conservation over every disciplined run. */
  lemma {:induction false} RunConserves(s: State, init: seq<int>, evs: seq<Event>)
    requires Conserved(s, init) && Legal(s, evs)
    ensures Conserved(Run(s, evs), InitialsAfter(s, init, evs))
    decreases |evs|
  {
    hide Conserved, Disciplined, Step;
    if evs != [] {
      StepConserves(s, init, evs[0]);
      RunConserves(Step(s, evs[0]), Initials(s, init, evs[0]), evs[1..]);
    }
  }

  /** At most `initial` holders; all units are held while anyone waits; one holder if the initial value is 1. */
  lemma Exclusion(s: State, init: seq<int>, i: nat)
    requires Conserved(s, init) && i < MAX_SEMS && s.sems[i].opens > 0
    ensures var m, holders := s.sems[i], Holders(s.procs, i);
            && m.value == init[i] - |holders| - |m.queue| && |holders| <= init[i]
            && (m.queue != [] ==> |holders| == init[i])
            && (forall p <- m.queue :: p !in holders)
            && (init[i] == 1 ==> forall p, q :: p in holders && q in holders ==> p == q)
  {
    hide Holders, Users, OneQueue, NamesApart;
    QueueGives(s, init, -1, i);
    var holders := Holders(s.procs, i);
    if init[i] == 1 {
      forall p, q | p in holders && q in holders ensures p == q {
        SubsetSize({p, q}, holders);
      }
    }
  }
}
