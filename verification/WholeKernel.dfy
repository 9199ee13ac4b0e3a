/** The process table, the semaphores and the pipes together: one kernel, whose three tables never disagree on who lives
    and who is blocked. */
module WholeKernel {
  import opened Basics
  import opened RunQueue
  import opened ProcessSpec
  import opened ProcessLaws
  import R = ProcessRuns
  import W = WaitPid
  import B = BlockedFrames
  import S = SemaphoreSpec
  import SL = SemaphoreLaws
  import P = PipeSpec
  import PL = PipeLaws
  import F = SleepFrames
  import Boot

  /** `initial` are the values the semaphores were created with. */
  datatype Whole = Whole(sys: System, sems: S.State, initial: seq<int>, pipes: P.State)

  // ---------------------------------------------------------------- events

  /** `woken` lists those that a call or a death lets go on. */
  datatype Event =
    | Plain(ev: R.Event)
    | Spawn(fg: nat, stack: int, argv: int)
    | SemCall(call: SL.Event, woken: seq<nat>)
    | PipeCall(access: PL.Event, woken: seq<nat>)
    | Exits(retval: int, woken: seq<nat>)
    | Kills(pid: nat, woken: seq<nat>)

  predicate Alive(s: System, pid: nat) {
    Find(s.table, pid) != NULL
  }

  /** A semaphore, or a pipe, has put the process to sleep. */
  predicate AtSem(k: S.State, pid: nat) {
    pid in k.procs && k.procs[pid].blocked
  }

  predicate AtPipe(f: P.State, pid: nat) {
    pid in f.procs && f.procs[pid].blocked
  }

  /** `woken` are just those asleep before and not asleep after, among the ones that are still there. */
  ghost predicate Lists(woken: seq<nat>, k: S.State, k': S.State, f: P.State, f': P.State) {
    forall q :: q in woken <==>
      q in k'.procs && ((AtSem(k, q) && !AtSem(k', q)) || (AtPipe(f, q) && !AtPipe(f', q)))
  }

  predicate CallOf(ev: PL.Event, cur: nat) {
    match ev
    case Create(_) => false
    case Death(_) => false
    case Dup(c, _, _) => c == cur
    case Reading(c, _, _) => c == cur
    case Writing(c, _, _) => c == cur
    case _ => true
  }

  /** Events that touch no semaphore and no pipe; block and unblock leave alone whoever sleeps at one. */
  predicate Apart(w: Whole, ev: R.Event) {
    match ev
    case SysBlock(pid) => !AtSem(w.sems, pid) && !AtPipe(w.pipes, pid)
    case SysUnblock(pid) => !AtSem(w.sems, pid) && !AtPipe(w.pipes, pid)
    case SysCreate(_, _, _) => false
    case SysExit(_, _) => false
    case SysKill(_, _) => false
    case SysWake(_) => false
    case _ => true
  }

  /** Idle makes no calls and is never killed or blocked; block and unblock are not used on a process that a semaphore or a
      pipe has put to sleep, nor unblock on one that waits for a child; the use of semaphores is disciplined. */
  ghost predicate Enabled(w: Whole, ev: Event)
    requires Settled(w.sys) && P.Sized(w.pipes)
  {
    var s, cur := w.sys, CurrentPid(w.sys);
    match ev
    case Plain(e) => R.Enabled(s, e) && Apart(w, e)
    case Spawn(_, _, _) => FreeSlot(s.table, 0) != NULL
    case SemCall(call, woken) =>
      && s.current != s.idle && !call.Create? && !call.Death? && call.pid == cur && SL.Disciplined(w.sems, call)
      && Lists(woken, w.sems, SL.Step(w.sems, call), w.pipes, w.pipes)
    case PipeCall(access, woken) =>
      && s.current != s.idle && CallOf(access, cur) && PL.Enabled(w.pipes, access)
      && Lists(woken, w.sems, w.sems, w.pipes, PL.Step(w.pipes, access))
    case Exits(_, woken) =>
      && s.current != s.idle && cur in w.pipes.procs
      && Lists(woken, w.sems, SL.Step(w.sems, SL.Death(cur)), w.pipes, PL.Step(w.pipes, PL.Death(cur)))
    case Kills(pid, woken) =>
      && pid != s.table[s.idle].pid
      && if Alive(s, pid)
         then pid in w.pipes.procs && Lists(woken, w.sems, SL.Step(w.sems, SL.Death(pid)), w.pipes, PL.Step(w.pipes, PL.Death(pid)))
         else woken == []
  }

  /** After a call the caller is put to sleep, or those it lets go on are woken: never both. */
  function Sequel(cur: nat, asleep: bool, woken: seq<nat>): R.Event {
    if asleep then R.SysBlock(cur) else R.SysWake(woken)
  }

  /** The event of the process table that goes with an event. */
  ghost function InTable(w: Whole, ev: Event): R.Event
    requires Settled(w.sys) && P.Sized(w.pipes) && Enabled(w, ev)
  {
    var cur := CurrentPid(w.sys);
    match ev
    case Plain(e) => e
    case Spawn(fg, stack, argv) => R.SysCreate(fg, stack, argv)
    case SemCall(call, woken) => Sequel(cur, AtSem(SL.Step(w.sems, call), cur), woken)
    case PipeCall(access, woken) => Sequel(cur, AtPipe(PL.Step(w.pipes, access), cur), woken)
    case Exits(retval, woken) => R.SysExit(retval, woken)
    case Kills(pid, woken) => R.SysKill(pid, woken)
  }

  /** The events of the semaphores and of the pipes that go with it, if any. */
  ghost function InSems(w: Whole, ev: Event): seq<SL.Event>
    requires Settled(w.sys)
  {
    match ev
    case Spawn(_, _, _) => [SL.Create(w.sys.nextPid + 1)]
    case SemCall(call, _) => [call]
    case Exits(_, _) => [SL.Death(CurrentPid(w.sys))]
    case Kills(pid, _) => if Alive(w.sys, pid) then [SL.Death(pid)] else []
    case _ => []
  }

  ghost function InPipes(w: Whole, ev: Event): seq<PL.Event>
    requires Settled(w.sys)
  {
    match ev
    case Spawn(_, _, _) => [PL.Create(w.sys.nextPid + 1)]
    case PipeCall(access, _) => [access]
    case Exits(_, _) => [PL.Death(CurrentPid(w.sys))]
    case Kills(pid, _) => if Alive(w.sys, pid) then [PL.Death(pid)] else []
    case _ => []
  }

  ghost function Step(w: Whole, ev: Event): Whole
    requires Settled(w.sys) && P.Sized(w.pipes) && |w.initial| == |w.sems.sems| && Enabled(w, ev)
    requires R.Enabled(w.sys, InTable(w, ev)) && Fits(w, ev)
  {
    var es, ep := InSems(w, ev), InPipes(w, ev);
    Whole(R.Step(w.sys, InTable(w, ev)),
          if es == [] then w.sems else SL.Step(w.sems, es[0]),
          if es == [] then w.initial else SL.Initials(w.sems, w.initial, es[0]),
          if ep == [] then w.pipes else PL.Step(w.pipes, ep[0]))
  }

  /** The semaphores and the pipes accept their events. */
  ghost predicate Fits(w: Whole, ev: Event)
    requires Settled(w.sys)
  {
    && (forall e <- InSems(w, ev) :: SL.Disciplined(w.sems, e))
    && (forall e <- InPipes(w, ev) :: PL.Enabled(w.pipes, e))
  }

  // ---------------------------------------------------------------- what the tables agree on

  /** Asleep at a semaphore or at a pipe, never at both: blocked in the process table, and waiting for no child. */
  predicate Sleeper(w: Whole, i: nat) {
    i < |w.sys.table| && w.sys.table[i].state != FREE && (AtSem(w.sems, w.sys.table[i].pid) || AtPipe(w.pipes, w.sys.table[i].pid))
  }

  ghost predicate SleepersBlocked(w: Whole) {
    forall i: nat :: Sleeper(w, i) ==>
      B.Held(w.sys.table[i]) && !(AtSem(w.sems, w.sys.table[i].pid) && AtPipe(w.pipes, w.sys.table[i].pid))
  }

  ghost predicate SameLives(s: System, sems: set<nat>, pipes: set<nat>) {
    forall pid: nat :: (pid in sems <==> Alive(s, pid)) && (pid in pipes <==> Alive(s, pid))
  }

  ghost predicate Coherent(w: Whole) {
    && Settled(w.sys) && SL.Conserved(w.sems, w.initial) && PL.Agree(w.pipes)
    && SameLives(w.sys, w.sems.procs.Keys, w.pipes.procs.Keys) && SleepersBlocked(w)
  }

  lemma Sizes(w: Whole)
    requires Coherent(w)
    ensures P.Sized(w.pipes) && |w.initial| == |w.sems.sems| && SlotsOk(w.sys) && QueueWf(w.sys)
    ensures w.sys.current != NULL && 0 <= w.sys.current < |w.sys.table| && 0 <= w.sys.idle < |w.sys.table|
  {
    hide QueueExact, Pids;
    ExactIsWf(w.sys);
    SL.ConservedSize(w.sems, w.initial);
  }

  // ---------------------------------------------------------------- who lives

  /** The event of the process table changes who lives only by its birth and its death. */
  lemma LivesAfter(s: System, ev: R.Event, pid: nat)
    requires Settled(s) && R.Enabled(s, ev) && SlotsOk(s)
    ensures Alive(R.Step(s, ev), pid) <==>
              (Alive(s, pid) && pid != W.Dying(s, ev)) || (ev.SysCreate? && pid == s.nextPid + 1)
  {
    hide Settled, Find, R.Enabled, R.Step, Pids, W.Dying, CurrentPid;
    var r := R.Step(s, ev);
    W.SettledPids(s);
    W.SettledPids(r);
    W.StepMoves(s, ev);
    FindGives(s.table, pid);
    FindGives(r.table, pid);
    if Alive(s, pid) && pid != W.Dying(s, ev) {
      W.StaysFound(s, ev, pid);
    } else if Alive(r, pid) {
      var i := Find(r.table, pid);
      assert W.Moved(s, ev, i, r.table[i]);
      if s.table[i].state != FREE { W.FoundAt(s, i); }
    }
    if ev.SysCreate? && pid == s.nextPid + 1 { Born(s, ev); }
  }

  lemma Born(s: System, ev: R.Event)
    requires Settled(s) && R.Enabled(s, ev) && ev.SysCreate? && SlotsOk(s)
    ensures Alive(R.Step(s, ev), s.nextPid + 1)
  {
    hide QueueExact, Pids, Find, R.Step, FreeSlot;
    ExactIsWf(s);
    R.FreeSlotGives(s.table);
    var slot := FreeSlot(s.table, 0);
    R.StepParts(s, ev);
    var r := R.Step(s, ev);
    B.CreateTable(s, slot, R.Byte(ev.fg), ev.stack, ev.argv);
    W.SettledPids(r);
    W.FoundAt(r, slot);
  }

  // ---------------------------------------------------------------- what an event may count on

  lemma FoundSlot(w: Whole, pid: nat) returns (i: nat)
    requires Coherent(w) && Alive(w.sys, pid)
    ensures i < |w.sys.table| && i == Find(w.sys.table, pid) && w.sys.table[i].pid == pid && w.sys.table[i].state != FREE && pid > 0
  {
    hide Find, SleepersBlocked, SameLives, QueueExact;
    FindGives(w.sys.table, pid);
    i := Find(w.sys.table, pid);
  }

  /** Who sleeps is alive, blocked and waits for no child. */
  lemma SleeperHeld(w: Whole, pid: nat) returns (i: nat)
    requires Coherent(w) && (AtSem(w.sems, pid) || AtPipe(w.pipes, pid))
    ensures i < |w.sys.table| && i == Find(w.sys.table, pid) && w.sys.table[i].pid == pid && B.Held(w.sys.table[i])
    ensures !(AtSem(w.sems, pid) && AtPipe(w.pipes, pid)) && NotAwaiting(w.sys, pid) && pid > 0
  {
    hide Settled, Find, SL.Conserved, PL.Agree;
    assert Alive(w.sys, pid);
    i := FoundSlot(w, pid);
    assert Sleeper(w, i);
  }

  lemma SleepersWakeable(w: Whole, woken: seq<nat>)
    requires (forall q <- woken :: AtSem(w.sems, q) || AtPipe(w.pipes, q)) && Coherent(w)
    ensures Wakeable(w.sys, woken)
  {
    hide Coherent, NotAwaiting, AtSem, AtPipe;
    forall q <- woken ensures NotAwaiting(w.sys, q) { var i := SleeperHeld(w, q); }
  }

  lemma CurrentAwake(w: Whole)
    requires Coherent(w)
    ensures SlotsOk(w.sys) && w.sys.current != NULL && Alive(w.sys, CurrentPid(w.sys))
    ensures Find(w.sys.table, CurrentPid(w.sys)) == w.sys.current
    ensures !AtSem(w.sems, CurrentPid(w.sys)) && !AtPipe(w.pipes, CurrentPid(w.sys))
  {
    hide Find, SL.Conserved, PL.Agree, QueueExact;
    W.FoundAt(w.sys, w.sys.current);
    assert Sleeper(w, w.sys.current) <==>
             AtSem(w.sems, CurrentPid(w.sys)) || AtPipe(w.pipes, CurrentPid(w.sys));
  }

  lemma NotIdlePid(s: System)
    requires Settled(s) && s.current != s.idle
    ensures SlotsOk(s) && 0 <= s.idle < |s.table| && CurrentPid(s) != s.table[s.idle].pid
  {
    hide QueueExact;
  }

  lemma TableAccepts(w: Whole, ev: Event)
    requires Coherent(w) && P.Sized(w.pipes) && Enabled(w, ev)
    ensures R.Enabled(w.sys, InTable(w, ev))
  {
    hide Coherent, Wakeable, SL.Step, PL.Step, SL.Disciplined, AtSem, AtPipe, Alive, Lists, CallOf, Apart;
    assert Settled(w.sys) by { CoherentGives(w); }
    match ev
    case Plain(_) =>
    case Spawn(_, _, _) =>
    case SemCall(call, woken) =>
      NotIdlePid(w.sys);
      ListedWakeable(w, SL.Step(w.sems, call), w.pipes, woken);
    case PipeCall(access, woken) =>
      NotIdlePid(w.sys);
      ListedWakeable(w, w.sems, PL.Step(w.pipes, access), woken);
    case Exits(_, woken) => ListedWakeable(w, SL.Step(w.sems, SL.Death(CurrentPid(w.sys))), PL.Step(w.pipes, PL.Death(CurrentPid(w.sys))), woken);
    case Kills(pid, woken) =>
      if Alive(w.sys, pid) {
        ListedWakeable(w, SL.Step(w.sems, SL.Death(pid)), PL.Step(w.pipes, PL.Death(pid)), woken);
      } else {
        NobodyWakeable(w.sys);
      }
  }

  lemma CoherentGives(w: Whole)
    requires Coherent(w)
    ensures Settled(w.sys) && SL.Conserved(w.sems, w.initial) && PL.Agree(w.pipes) && SleepersBlocked(w)
    ensures SameLives(w.sys, w.sems.procs.Keys, w.pipes.procs.Keys)
  {
  }

  lemma NobodyWakeable(s: System)
    ensures Wakeable(s, [])
  {
  }

  /** Whoever a call or a death lets go on can be woken: it is known to wait for no child. */
  lemma ListedWakeable(w: Whole, k: S.State, f: P.State, woken: seq<nat>)
    requires Lists(woken, w.sems, k, w.pipes, f) && Coherent(w)
    ensures Wakeable(w.sys, woken)
  {
    hide Coherent, AtSem, AtPipe, Wakeable;
    SleepersWakeable(w, woken);
  }

  // ---------------------------------------------------------------- room for one more

  /** The pids in the slots below n, leaving out slot `skip`. */
  function PidsTo(table: seq<PCB>, n: nat, skip: nat): set<nat>
    requires n <= |table|
  {
    if n == 0 then {} else PidsTo(table, n - 1, skip) + if n - 1 == skip then {} else {table[n - 1].pid}
  }

  lemma {:induction false} PidsToSize(table: seq<PCB>, n: nat, skip: nat)
    requires n <= |table|
    ensures |PidsTo(table, n, skip)| <= n - (if skip < n then 1 else 0)
    ensures forall i :: 0 <= i < n && i != skip ==> table[i].pid in PidsTo(table, n, skip)
  {
    if n > 0 { PidsToSize(table, n - 1, skip); }
  }

  lemma RoomForOne(w: Whole, slot: nat)
    requires Coherent(w) && slot < |w.sys.table| && w.sys.table[slot].state == FREE
    ensures |w.sems.procs| < MAX_PROCESSES && w.sys.nextPid + 1 !in w.sems.procs && w.sys.nextPid + 1 !in w.pipes.procs
  {
    hide Find, SL.Conserved, PL.Agree, QueueExact, SleepersBlocked;
    var s, all := w.sys, PidsTo(w.sys.table, |w.sys.table|, slot);
    PidsToSize(s.table, |s.table|, slot);
    forall pid <- w.sems.procs.Keys ensures pid in all && pid <= s.nextPid {
      FindGives(s.table, pid);
      assert Alive(s, pid);
    }
    SubsetSize(w.sems.procs.Keys, all);
    assert |w.sems.procs| == |w.sems.procs.Keys|;
    FindGives(s.table, s.nextPid + 1);
    assert !Alive(s, s.nextPid + 1);
  }

  lemma TablesFit(w: Whole, ev: Event)
    requires Coherent(w) && P.Sized(w.pipes) && Enabled(w, ev)
    ensures Fits(w, ev)
  {
    hide Coherent, SL.Step, PL.Step, AtSem, AtPipe, Lists, CallOf, Apart, FreeSlot, Find, R.Enabled;
    CoherentGives(w);
    CurrentAwake(w);
    match ev
    case Plain(_) =>
    case Spawn(_, _, _) =>
      R.FreeSlotGives(w.sys.table);
      RoomForOne(w, FreeSlot(w.sys.table, 0));
    case SemCall(_, _) =>
    case PipeCall(_, _) =>
    case Exits(_, _) => assert CurrentPid(w.sys) in w.sems.procs;
    case Kills(pid, _) => assert Alive(w.sys, pid) ==> pid in w.sems.procs;
  }

  // ---------------------------------------------------------------- every event keeps the tables coherent

  /** A call that puts its caller to sleep. */
  lemma BlockHolds(s: System)
    requires Settled(s) && SlotsOk(s) && s.current != s.idle
    ensures R.Enabled(s, R.SysBlock(CurrentPid(s)))
    ensures var r := R.Step(s, R.SysBlock(CurrentPid(s)));
            |r.table| == |s.table| && B.Held(r.table[s.current]) && r.table[s.current].pid == CurrentPid(s)
  {
    hide QueueExact, Pids, Find, R.Step, Yield;
    NotIdlePid(s);
    W.SettledPids(s);
    W.FoundAt(s, s.current);
    R.StepParts(s, R.SysBlock(CurrentPid(s)));
    var (e, switch) := R.Entry(s, R.SysBlock(CurrentPid(s)));
    assert switch && B.Held(e.table[s.current]);
    W.YieldFrame(e);
  }

  /** What the two other tables tell of an event: only the caller falls asleep, and then it is blocked; whoever sleeps on
      is spared. */
  ghost predicate Told(w: Whole, te: R.Event, k: S.State, f: P.State)
    requires Settled(w.sys)
  {
    var cur := CurrentPid(w.sys);
    && (forall q :: AtSem(k, q) && !AtSem(w.sems, q) ==> q == cur && te == R.SysBlock(cur) && f == w.pipes)
    && (forall q :: AtPipe(f, q) && !AtPipe(w.pipes, q) ==> q == cur && te == R.SysBlock(cur) && k == w.sems)
    && (forall q :: AtSem(k, q) && AtSem(w.sems, q) ==> B.Spares(w.sys, te, q))
    && (forall q :: AtPipe(f, q) && AtPipe(w.pipes, q) ==> B.Spares(w.sys, te, q))
  }

  lemma SleeperAfter(w: Whole, te: R.Event, w': Whole, i: nat)
    requires Coherent(w) && R.Enabled(w.sys, te) && w'.sys == R.Step(w.sys, te) && Told(w, te, w'.sems, w'.pipes)
    requires Sleeper(w', i)
    ensures B.Held(w'.sys.table[i]) && !(AtSem(w'.sems, w'.sys.table[i].pid) && AtPipe(w'.pipes, w'.sys.table[i].pid))
  {
    hide Coherent, AtSem, AtPipe, R.Step, R.Enabled, B.Spares, B.Held, CurrentPid, Find, Settled;
    CoherentGives(w);
    CurrentAwake(w);
    W.SettledPids(w.sys);
    W.SettledPids(w'.sys);
    var q := w'.sys.table[i].pid;
    if AtSem(w.sems, q) || AtPipe(w.pipes, q) {
      var j := SleeperHeld(w, q);
      B.StaysHeld(w.sys, te, j);
      HeldAlive(w'.sys, j);
      SamePid(w'.sys, i, j);
    } else {
      BlockIsNotIdle(w.sys, te);
      BlockHolds(w.sys);
      HeldAlive(w'.sys, w.sys.current);
      CurrentHasPid(w.sys);
      SamePid(w'.sys, i, w.sys.current);
    }
  }

  lemma CurrentHasPid(s: System)
    requires SlotsOk(s) && s.current != NULL
    ensures s.table[s.current].pid == CurrentPid(s)
  {
  }

  lemma HeldAlive(s: System, j: nat)
    requires j < |s.table| && B.Held(s.table[j])
    ensures s.table[j].state != FREE
  {
  }

  lemma SamePid(s: System, i: nat, j: nat)
    requires Pids(s) && i < |s.table| && j < |s.table| && s.table[i].state != FREE && s.table[j].state != FREE
    requires s.table[i].pid == s.table[j].pid
    ensures i == j
  {
  }

  lemma BlockIsNotIdle(s: System, te: R.Event)
    requires Settled(s) && SlotsOk(s) && R.Enabled(s, te) && te == R.SysBlock(CurrentPid(s))
    ensures s.current != s.idle
  {
    hide QueueExact, Pids;
  }

  /** Born and dead as in the process table. */
  ghost predicate Follows(s: System, te: R.Event, before: set<nat>, after: set<nat>)
    requires SlotsOk(s)
  {
    forall q: nat :: q in after <==> (q in before && q != W.Dying(s, te)) || (te.SysCreate? && q == s.nextPid + 1)
  }

  lemma Together(w: Whole, te: R.Event, w': Whole)
    requires Coherent(w) && SlotsOk(w.sys) && R.Enabled(w.sys, te) && w'.sys == R.Step(w.sys, te) && Told(w, te, w'.sems, w'.pipes)
    requires SL.Conserved(w'.sems, w'.initial) && PL.Agree(w'.pipes)
    requires Follows(w.sys, te, w.sems.procs.Keys, w'.sems.procs.Keys)
    requires Follows(w.sys, te, w.pipes.procs.Keys, w'.pipes.procs.Keys)
    ensures Coherent(w')
  {
    hide Told, Alive, AtSem, AtPipe, R.Step, R.Enabled, W.Dying, Settled, SL.Conserved, PL.Agree, B.Held;
    CoherentGives(w);
    forall pid: nat ensures (pid in w'.sems.procs.Keys <==> Alive(w'.sys, pid)) && (pid in w'.pipes.procs.Keys <==> Alive(w'.sys, pid)) {
      LivesAfter(w.sys, te, pid);
    }
    forall i: nat | Sleeper(w', i)
      ensures B.Held(w'.sys.table[i]) && !(AtSem(w'.sems, w'.sys.table[i].pid) && AtPipe(w'.pipes, w'.sys.table[i].pid))
    {
      SleeperAfter(w, te, w', i);
    }
  }

  /** Nobody else sleeps at the other place, the caller sleeps nowhere, and only the living sleep. */
  lemma SleepFacts(w: Whole, q: nat)
    requires Coherent(w)
    ensures SlotsOk(w.sys)
    ensures AtSem(w.sems, q) || AtPipe(w.pipes, q) ==> q > 0 && q != CurrentPid(w.sys)
    ensures !(AtSem(w.sems, q) && AtPipe(w.pipes, q))
  {
    hide Coherent, AtSem, AtPipe, CurrentPid;
    CurrentAwake(w);
    if AtSem(w.sems, q) || AtPipe(w.pipes, q) { var i := SleeperHeld(w, q); }
  }

  lemma PlainCoherent(w: Whole, te: R.Event)
    requires Coherent(w) && R.Enabled(w.sys, te) && Apart(w, te)
    ensures Coherent(w.(sys := R.Step(w.sys, te)))
  {
    hide Coherent, AtSem, AtPipe, R.Step, R.Enabled, CurrentPid;
    CoherentGives(w);
    assert SlotsOk(w.sys) by { SleepFacts(w, 0); }
    forall q | AtSem(w.sems, q) || AtPipe(w.pipes, q) ensures B.Spares(w.sys, te, q) { SleepFacts(w, q); }
    assert Follows(w.sys, te, w.sems.procs.Keys, w.sems.procs.Keys) by { NobodyZero(w); }
    assert Follows(w.sys, te, w.pipes.procs.Keys, w.pipes.procs.Keys) by { NobodyZero(w); }
    Together(w, te, w.(sys := R.Step(w.sys, te)));
  }

  lemma NobodyZero(w: Whole)
    requires Coherent(w)
    ensures 0 !in w.sems.procs.Keys && 0 !in w.pipes.procs.Keys
  {
    hide Settled, SL.Conserved, PL.Agree, SleepersBlocked;
    assert !Alive(w.sys, 0);
  }

  /** The call puts its caller to sleep at semaphore or pipe, and nobody else. */
  lemma BlockingTold(w: Whole, k: S.State, f: P.State)
    requires (f == w.pipes && forall q :: AtSem(k, q) ==> AtSem(w.sems, q) || (SlotsOk(w.sys) && q == CurrentPid(w.sys)))
          || (k == w.sems && forall q :: AtPipe(f, q) ==> AtPipe(w.pipes, q) || (SlotsOk(w.sys) && q == CurrentPid(w.sys)))
    requires Coherent(w)
    ensures SlotsOk(w.sys) && Told(w, R.SysBlock(CurrentPid(w.sys)), k, f)
  {
    hide Coherent, AtSem, AtPipe, CurrentPid;
    SleepFacts(w, 0);
    forall q | AtSem(w.sems, q) || AtPipe(w.pipes, q) ensures B.Spares(w.sys, R.SysBlock(CurrentPid(w.sys)), q) { SleepFacts(w, q); }
  }

  /** Nobody falls asleep. */
  ghost predicate NoNewSleepers(w: Whole, k: S.State, f: P.State) {
    forall q :: (AtSem(k, q) ==> AtSem(w.sems, q)) && (AtPipe(f, q) ==> AtPipe(w.pipes, q))
  }

  predicate Wakes(te: R.Event, woken: seq<nat>) {
    match te
    case SysWake(x) => x == woken
    case SysExit(_, x) => x == woken
    case SysKill(_, x) => x == woken
    case _ => false
  }

  lemma WakesSpares(s: System, te: R.Event, woken: seq<nat>, q: nat)
    requires SlotsOk(s) && Wakes(te, woken) && q !in woken && q != W.Dying(s, te)
    ensures B.Spares(s, te, q)
  {
    hide W.Dying;
  }

  lemma WakingTold(w: Whole, te: R.Event, k: S.State, f: P.State, woken: seq<nat>)
    requires SlotsOk(w.sys) && Wakes(te, woken) && Lists(woken, w.sems, k, w.pipes, f) && NoNewSleepers(w, k, f)
    requires forall q :: AtSem(k, q) || AtPipe(f, q) ==> q != W.Dying(w.sys, te)
    requires Coherent(w)
    ensures Told(w, te, k, f)
  {
    hide Coherent, AtSem, AtPipe, CurrentPid, B.Spares, W.Dying, Wakes;
    forall q | AtSem(k, q) && AtSem(w.sems, q) ensures B.Spares(w.sys, te, q) { SleepFacts(w, q); WakesSpares(w.sys, te, woken, q); }
    forall q | AtPipe(f, q) && AtPipe(w.pipes, q) ensures B.Spares(w.sys, te, q) { SleepFacts(w, q); WakesSpares(w.sys, te, woken, q); }
  }

  lemma SemRaises(k: S.State, call: SL.Event)
    requires SL.Disciplined(k, call)
    ensures forall q :: AtSem(SL.Step(k, call), q) ==> AtSem(k, q) || (call.SemWait? && q == call.pid)
  {
    hide SL.Step, SL.Disciplined;
    F.SemStep(k, call);
  }

  lemma PipeRaises(f: P.State, access: PL.Event)
    requires P.Sized(f) && PL.Enabled(f, access)
    ensures forall q :: AtPipe(PL.Step(f, access), q) ==> AtPipe(f, q) || ((access.Reading? || access.Writing?) && q == access.cur)
  {
    hide PL.Step, PL.Enabled;
    F.PipeStep(f, access);
  }

  /** Of the living, all and only those who live in the process table after an event without birth or death. */
  lemma SameFollow(w: Whole, te: R.Event, sems: set<nat>, pipes: set<nat>)
    requires SlotsOk(w.sys) && W.Dying(w.sys, te) == 0 && !te.SysCreate?
    requires sems == w.sems.procs.Keys && pipes == w.pipes.procs.Keys && Coherent(w)
    ensures Follows(w.sys, te, w.sems.procs.Keys, sems) && Follows(w.sys, te, w.pipes.procs.Keys, pipes)
  {
    hide Coherent, W.Dying;
    NobodyZero(w);
  }

  lemma SemTold(w: Whole, call: SL.Event, woken: seq<nat>, te: R.Event, k: S.State)
    requires SL.Disciplined(w.sems, call) && k == SL.Step(w.sems, call) && Lists(woken, w.sems, k, w.pipes, w.pipes)
    requires SlotsOk(w.sys) && call.pid == CurrentPid(w.sys) && te == Sequel(call.pid, AtSem(k, call.pid), woken)
    requires Coherent(w)
    ensures W.Dying(w.sys, te) == 0 && !te.SysCreate? && Told(w, te, k, w.pipes)
  {
    hide Coherent, AtSem, AtPipe, CurrentPid, SL.Step, SL.Disciplined, Told, Lists;
    SemRaises(w.sems, call);
    if AtSem(k, CurrentPid(w.sys)) {
      BlockingTold(w, k, w.pipes);
    } else {
      forall q | AtSem(k, q) || AtPipe(w.pipes, q) ensures q != W.Dying(w.sys, te) { SleepFacts(w, q); }
      WakingTold(w, te, k, w.pipes, woken);
    }
  }

  lemma SemCallCoherent(w: Whole, call: SL.Event, woken: seq<nat>, te: R.Event, k: S.State)
    requires Settled(w.sys) && P.Sized(w.pipes) && Enabled(w, SemCall(call, woken)) && |w.initial| == |w.sems.sems|
    requires te == InTable(w, SemCall(call, woken)) && k == SL.Step(w.sems, call) && R.Enabled(w.sys, te) && Coherent(w)
    ensures Coherent(Whole(R.Step(w.sys, te), k, SL.Initials(w.sems, w.initial, call), w.pipes))
  {
    hide Coherent, R.Step, R.Enabled, SL.Step, SL.Disciplined, SL.Initials, Told, Lists, Follows, W.Dying, Settled, AtSem, CurrentPid;
    CoherentGives(w);
    SL.StepConserves(w.sems, w.initial, call);
    F.SemStep(w.sems, call);
    R.SettledIsWf(w.sys);
    SemTold(w, call, woken, te, k);
    SameFollow(w, te, k.procs.Keys, w.pipes.procs.Keys);
    Together(w, te, Whole(R.Step(w.sys, te), k, SL.Initials(w.sems, w.initial, call), w.pipes));
  }

  lemma PipeTold(w: Whole, access: PL.Event, woken: seq<nat>, te: R.Event, f: P.State)
    requires P.Sized(w.pipes) && PL.Enabled(w.pipes, access) && f == PL.Step(w.pipes, access)
    requires SlotsOk(w.sys) && CallOf(access, CurrentPid(w.sys)) && Lists(woken, w.sems, w.sems, w.pipes, f)
    requires te == Sequel(CurrentPid(w.sys), AtPipe(f, CurrentPid(w.sys)), woken) && Coherent(w)
    ensures W.Dying(w.sys, te) == 0 && !te.SysCreate? && Told(w, te, w.sems, f)
  {
    hide Coherent, AtSem, AtPipe, CurrentPid, PL.Step, PL.Enabled, Told, Lists;
    PipeRaises(w.pipes, access);
    if AtPipe(f, CurrentPid(w.sys)) {
      BlockingTold(w, w.sems, f);
    } else {
      forall q | AtSem(w.sems, q) || AtPipe(f, q) ensures q != W.Dying(w.sys, te) { SleepFacts(w, q); }
      WakingTold(w, te, w.sems, f, woken);
    }
  }

  lemma PipeCallCoherent(w: Whole, access: PL.Event, woken: seq<nat>, te: R.Event, f: P.State)
    requires Settled(w.sys) && P.Sized(w.pipes) && Enabled(w, PipeCall(access, woken))
    requires te == InTable(w, PipeCall(access, woken)) && f == PL.Step(w.pipes, access) && R.Enabled(w.sys, te) && Coherent(w)
    ensures Coherent(w.(sys := R.Step(w.sys, te), pipes := f))
  {
    hide Coherent, R.Step, R.Enabled, PL.Step, PL.Enabled, Told, Lists, Follows, W.Dying, Settled, AtPipe, CurrentPid;
    CoherentGives(w);
    PL.StepAgrees(w.pipes, access);
    F.PipeStep(w.pipes, access);
    R.SettledIsWf(w.sys);
    PipeTold(w, access, woken, te, f);
    SameFollow(w, te, w.sems.procs.Keys, f.procs.Keys);
    Together(w, te, w.(sys := R.Step(w.sys, te), pipes := f));
  }

  /** The death of a process, by exit or kill. */
  lemma DeathCoherent(w: Whole, pid: nat, woken: seq<nat>, te: R.Event, k: S.State, f: P.State)
    requires P.Sized(w.pipes) && pid in w.sems.procs && pid in w.pipes.procs && |w.initial| == |w.sems.sems|
    requires k == SL.Step(w.sems, SL.Death(pid)) && f == PL.Step(w.pipes, PL.Death(pid)) && Lists(woken, w.sems, k, w.pipes, f)
    requires Settled(w.sys) && SlotsOk(w.sys) && R.Enabled(w.sys, te) && W.Dying(w.sys, te) == pid && Wakes(te, woken) && Coherent(w)
    ensures Coherent(Whole(R.Step(w.sys, te), k, SL.Initials(w.sems, w.initial, SL.Death(pid)), f))
  {
    hide Coherent, R.Step, R.Enabled, PL.Step, SL.Step, SL.Initials, Lists, Told, Follows, W.Dying, Settled, NoNewSleepers;
    CoherentGives(w);
    PL.StepAgrees(w.pipes, PL.Death(pid));
    SL.StepConserves(w.sems, w.initial, SL.Death(pid));
    DeathFollows(w, pid, te);
    DeathQuiet(w, pid, k, f);
    WakingTold(w, te, k, f, woken);
    Together(w, te, Whole(R.Step(w.sys, te), k, SL.Initials(w.sems, w.initial, SL.Death(pid)), f));
  }

  lemma DeathQuiet(w: Whole, pid: nat, k: S.State, f: P.State)
    requires P.Sized(w.pipes) && pid in w.sems.procs && pid in w.pipes.procs
    requires k == SL.Step(w.sems, SL.Death(pid)) && f == PL.Step(w.pipes, PL.Death(pid))
    ensures NoNewSleepers(w, k, f) && forall q :: AtSem(k, q) || AtPipe(f, q) ==> q != pid
  {
    hide PL.Step, SL.Step;
    SemRaises(w.sems, SL.Death(pid));
    PipeRaises(w.pipes, PL.Death(pid));
    F.SemStep(w.sems, SL.Death(pid));
    F.PipeStep(w.pipes, PL.Death(pid));
  }

  lemma DeathFollows(w: Whole, pid: nat, te: R.Event)
    requires P.Sized(w.pipes) && pid in w.sems.procs && pid in w.pipes.procs
    requires SlotsOk(w.sys) && W.Dying(w.sys, te) == pid && !te.SysCreate?
    ensures Follows(w.sys, te, w.sems.procs.Keys, SL.Step(w.sems, SL.Death(pid)).procs.Keys)
    ensures Follows(w.sys, te, w.pipes.procs.Keys, PL.Step(w.pipes, PL.Death(pid)).procs.Keys)
  {
    hide PL.Step, SL.Step, W.Dying;
    F.PipeStep(w.pipes, PL.Death(pid));
    F.SemStep(w.sems, SL.Death(pid));
  }

  lemma SpawnCoherent(w: Whole, te: R.Event, pid: nat, k: S.State, f: P.State)
    requires P.Sized(w.pipes) && SL.Disciplined(w.sems, SL.Create(pid)) && PL.Enabled(w.pipes, PL.Create(pid))
    requires k == SL.Step(w.sems, SL.Create(pid)) && f == PL.Step(w.pipes, PL.Create(pid)) && |w.initial| == |w.sems.sems|
    requires Settled(w.sys) && te.SysCreate? && pid == w.sys.nextPid + 1 && R.Enabled(w.sys, te) && Coherent(w)
    ensures Coherent(Whole(R.Step(w.sys, te), k, SL.Initials(w.sems, w.initial, SL.Create(pid)), f))
  {
    hide Coherent, R.Step, R.Enabled, PL.Step, SL.Step, SL.Initials, Told, Follows, Settled, SL.Disciplined, PL.Enabled;
    CoherentGives(w);
    PL.StepAgrees(w.pipes, PL.Create(pid));
    SL.StepConserves(w.sems, w.initial, SL.Create(pid));
    SpawnTold(w, te, pid, k, f);
    SpawnFollows(w, te, pid);
    Together(w, te, Whole(R.Step(w.sys, te), k, SL.Initials(w.sems, w.initial, SL.Create(pid)), f));
  }

  lemma SpawnFollows(w: Whole, te: R.Event, pid: nat)
    requires P.Sized(w.pipes) && SL.Disciplined(w.sems, SL.Create(pid)) && PL.Enabled(w.pipes, PL.Create(pid))
    requires SlotsOk(w.sys) && te.SysCreate? && pid == w.sys.nextPid + 1 && Coherent(w)
    ensures Follows(w.sys, te, w.sems.procs.Keys, SL.Step(w.sems, SL.Create(pid)).procs.Keys)
    ensures Follows(w.sys, te, w.pipes.procs.Keys, PL.Step(w.pipes, PL.Create(pid)).procs.Keys)
  {
    hide Coherent, PL.Step, SL.Step, SL.Disciplined, PL.Enabled, Follows;
    NobodyZero(w);
    F.PipeStep(w.pipes, PL.Create(pid));
    F.SemStep(w.sems, SL.Create(pid));
    OneBorn(w.sys, te, w.sems.procs.Keys);
    OneBorn(w.sys, te, w.pipes.procs.Keys);
  }

  lemma OneBorn(s: System, te: R.Event, before: set<nat>)
    requires SlotsOk(s) && te.SysCreate? && 0 !in before
    ensures Follows(s, te, before, before + {s.nextPid + 1})
  {
  }

  lemma CreateSpares(s: System, te: R.Event, q: nat)
    requires SlotsOk(s) && te.SysCreate? && q > 0
    ensures B.Spares(s, te, q)
  {
  }

  lemma SpawnTold(w: Whole, te: R.Event, pid: nat, k: S.State, f: P.State)
    requires P.Sized(w.pipes) && te.SysCreate? && SL.Disciplined(w.sems, SL.Create(pid)) && PL.Enabled(w.pipes, PL.Create(pid))
    requires k == SL.Step(w.sems, SL.Create(pid)) && f == PL.Step(w.pipes, PL.Create(pid)) && Coherent(w)
    ensures SlotsOk(w.sys) && Told(w, te, k, f)
  {
    hide Coherent, PL.Step, SL.Step, B.Spares, AtSem, AtPipe, SL.Disciplined, PL.Enabled, CurrentPid;
    SemRaises(w.sems, SL.Create(pid));
    PipeRaises(w.pipes, PL.Create(pid));
    SleepFacts(w, 0);
    forall q | AtSem(w.sems, q) || AtPipe(w.pipes, q) ensures B.Spares(w.sys, te, q) {
      SleepFacts(w, q);
      CreateSpares(w.sys, te, q);
    }
  }

  /** Every event that its callers may make can be made, and keeps the three tables in agreement. */
  lemma StepCoherent(w: Whole, ev: Event)
    requires Settled(w.sys) && P.Sized(w.pipes) && Enabled(w, ev) && Coherent(w)
    ensures |w.initial| == |w.sems.sems| && R.Enabled(w.sys, InTable(w, ev)) && Fits(w, ev)
    ensures Coherent(Step(w, ev))
  {
    hide Coherent, AtSem, AtPipe, R.Step, R.Enabled, CurrentPid, PL.Step, SL.Step, SL.Initials, Lists, Alive, W.Dying;
    hide SL.Disciplined, PL.Enabled, CallOf, Apart;
    Sizes(w);
    TableAccepts(w, ev);
    TablesFit(w, ev);
    var te, s := InTable(w, ev), w.sys;
    match ev
    case Plain(e) => PlainCoherent(w, e);
    case Spawn(_, _, _) =>
      var pid := s.nextPid + 1;
      SpawnCoherent(w, te, pid, SL.Step(w.sems, SL.Create(pid)), PL.Step(w.pipes, PL.Create(pid)));
    case SemCall(call, woken) => SemCallCoherent(w, call, woken, te, SL.Step(w.sems, call));
    case PipeCall(access, woken) => PipeCallCoherent(w, access, woken, te, PL.Step(w.pipes, access));
    case Exits(retval, woken) =>
      CurrentAwake(w);
      DyingIs(s, retval, 0, woken);
      KillCoherent(w, CurrentPid(s), woken, te);
    case Kills(pid, woken) =>
      DyingIs(s, 0, pid, woken);
      if Alive(s, pid) { KillCoherent(w, pid, woken, te); } else { KillsNobody(w, pid); }
  }

  lemma KillCoherent(w: Whole, pid: nat, woken: seq<nat>, te: R.Event)
    requires P.Sized(w.pipes) && |w.initial| == |w.sems.sems| && pid in w.pipes.procs && Alive(w.sys, pid)
    requires Lists(woken, w.sems, SL.Step(w.sems, SL.Death(pid)), w.pipes, PL.Step(w.pipes, PL.Death(pid)))
    requires Settled(w.sys) && SlotsOk(w.sys) && R.Enabled(w.sys, te) && W.Dying(w.sys, te) == pid && Wakes(te, woken) && Coherent(w)
    ensures Coherent(Whole(R.Step(w.sys, te), SL.Step(w.sems, SL.Death(pid)),
                           SL.Initials(w.sems, w.initial, SL.Death(pid)), PL.Step(w.pipes, PL.Death(pid))))
  {
    hide Coherent, R.Step, R.Enabled, PL.Step, SL.Step, SL.Initials, Lists, W.Dying, Settled, Wakes, Alive, AtSem, AtPipe;
    AliveInBoth(w, pid);
    DeathCoherent(w, pid, woken, te, SL.Step(w.sems, SL.Death(pid)), PL.Step(w.pipes, PL.Death(pid)));
  }

  lemma AliveInBoth(w: Whole, pid: nat)
    requires Coherent(w) && Alive(w.sys, pid)
    ensures pid in w.sems.procs && pid in w.pipes.procs
  {
    hide Settled, SL.Conserved, PL.Agree, SleepersBlocked, Alive;
    assert pid in w.sems.procs.Keys && pid in w.pipes.procs.Keys;
  }

  lemma DyingIs(s: System, retval: int, pid: nat, woken: seq<nat>)
    requires SlotsOk(s)
    ensures W.Dying(s, R.SysExit(retval, woken)) == CurrentPid(s)
    ensures W.Dying(s, R.SysKill(pid, woken)) == if Alive(s, pid) then pid else 0
  {
  }

  lemma KillsNobody(w: Whole, pid: nat)
    requires Settled(w.sys) && !Alive(w.sys, pid) && R.Enabled(w.sys, R.SysKill(pid, [])) && Coherent(w)
    ensures Coherent(w.(sys := R.Step(w.sys, R.SysKill(pid, []))))
  {
    hide Coherent, R.Enabled, Alive, R.Step;
    KillOfNobody(w.sys, pid);
    assert w.(sys := w.sys) == w;
  }

  lemma KillOfNobody(s: System, pid: nat)
    requires Settled(s) && !Alive(s, pid) && R.Enabled(s, R.SysKill(pid, []))
    ensures R.Step(s, R.SysKill(pid, [])) == s
  {
    hide Settled, R.Enabled, Find, R.Step;
    R.SettledIsWf(s);
    R.StepParts(s, R.SysKill(pid, []));
  }

  // ---------------------------------------------------------------- over runs

  /** There is always a list of those that are let go on. */
  lemma ListFor(k: S.State, k': S.State, f: P.State, f': P.State) returns (woken: seq<nat>)
    ensures Lists(woken, k, k', f, f')
  {
    var all := set q | q in k'.procs && ((AtSem(k, q) && !AtSem(k', q)) || (AtPipe(f, q) && !AtPipe(f', q)));
    woken := Enumerate(all);
  }

  lemma {:induction false} Enumerate(s: set<nat>) returns (q: seq<nat>)
    ensures forall x :: x in q <==> x in s
    decreases s
  {
    if s == {} {
      q := [];
    } else {
      var x :| x in s;
      var rest := Enumerate(s - {x});
      q := [x] + rest;
    }
  }

  ghost predicate Legal(w: Whole, evs: seq<Event>)
    requires Coherent(w)
    decreases |evs|
  {
    Sizes(w);
    evs == [] || (Enabled(w, evs[0]) && (StepCoherent(w, evs[0]); Legal(Step(w, evs[0]), evs[1..])))
  }

  /** The three tables agree after every run of the kernel. */
  ghost function Run(w: Whole, evs: seq<Event>): (r: Whole)
    requires Coherent(w) && Legal(w, evs)
    ensures Coherent(r)
    decreases |evs|
  {
    Sizes(w);
    if evs == [] then w else (StepCoherent(w, evs[0]); Run(Step(w, evs[0]), evs[1..]))
  }

  /** Whoever is in a semaphore's queue is blocked in the process table, is not the current process, and waits for no
      child, so that it is woken by nothing but a unit. */
  lemma QueuedAreBlocked(w: Whole, j: nat, pid: nat) returns (i: nat)
    requires Coherent(w) && j < |w.sems.sems| && pid in w.sems.sems[j].queue
    ensures i < |w.sys.table| && w.sys.table[i].pid == pid && B.Held(w.sys.table[i]) && i != w.sys.current
  {
    hide Coherent, SL.AllOk, SL.Queued;
    CoherentGives(w);
    SL.ConservedSize(w.sems, w.initial);
    assert SL.AllOk(w.sems, w.initial, -1);
    SL.QueueGives(w.sems, w.initial, -1, j);
    assert AtSem(w.sems, pid);
    i := SleeperHeld(w, pid);
    CurrentAwake(w);
  }

  // ---------------------------------------------------------------- the start

  function SemsAtStart(): S.State {
    SL.Step(SL.Step(SL.NoSems(), SL.Create(1)), SL.Create(2))
  }

  function ZeroValues(): seq<int> {
    seq(S.MAX_SEMS, _ => 0)
  }

  lemma SemsStart()
    ensures SL.Conserved(SemsAtStart(), ZeroValues()) && SemsAtStart().procs.Keys == {1, 2}
    ensures forall q :: !AtSem(SemsAtStart(), q)
  {
    hide SL.Step, SL.Conserved;
    SL.StartsConserved();
    var k := SL.NoSems();
    SL.StepConserves(k, ZeroValues(), SL.Create(1));
    F.SemStep(k, SL.Create(1));
    SL.StepConserves(SL.Step(k, SL.Create(1)), ZeroValues(), SL.Create(2));
    F.SemStep(SL.Step(k, SL.Create(1)), SL.Create(2));
  }

  function PipesAtStart(): P.State
    requires P.Sized(PL.Initial()) && PL.Enabled(PL.Initial(), PL.Create(1))
    requires PL.Enabled(PL.Step(PL.Initial(), PL.Create(1)), PL.Create(2))
  {
    PL.Step(PL.Step(PL.Initial(), PL.Create(1)), PL.Create(2))
  }

  lemma PipesStart()
    ensures P.Sized(PL.Initial()) && PL.Enabled(PL.Initial(), PL.Create(1))
    ensures PL.Enabled(PL.Step(PL.Initial(), PL.Create(1)), PL.Create(2))
    ensures PL.Agree(PipesAtStart()) && PipesAtStart().procs.Keys == {1, 2} && forall q :: !AtPipe(PipesAtStart(), q)
  {
    hide PL.Step, PL.PipeOk, PL.FdOk;
    PL.InitialAgrees();
    var f := PL.Initial();
    PL.StepAgrees(f, PL.Create(1));
    F.PipeStep(f, PL.Create(1));
    var f1 := PL.Step(f, PL.Create(1));
    PL.StepAgrees(f1, PL.Create(2));
    F.PipeStep(f1, PL.Create(2));
  }

  /** What start-up leaves, with the tables of semaphores and pipes as they are set up, is coherent. */
  lemma StartCoherent(s: System)
    requires Boot.Booted(s)
    ensures P.Sized(PL.Initial()) && PL.Enabled(PL.Initial(), PL.Create(1))
    ensures PL.Enabled(PL.Step(PL.Initial(), PL.Create(1)), PL.Create(2))
    ensures Coherent(Whole(s, SemsAtStart(), ZeroValues(), PipesAtStart()))
  {
    hide PL.Step, SL.Step, PL.Agree, SL.Conserved, PL.Enabled, P.Sized, SemsAtStart, PipesAtStart, Settled, AtSem, AtPipe;
    SemsStart();
    PipesStart();
    forall pid: nat ensures Alive(s, pid) <==> pid == 1 || pid == 2 { TwoAlive(s, pid); }
  }

  lemma TwoAlive(s: System, pid: nat)
    requires Boot.Booted(s)
    ensures Alive(s, pid) <==> pid == 1 || pid == 2
  {
    FoundIsUnique(s.table, 1, 0);
    FoundIsUnique(s.table, 2, 1);
    FindGives(s.table, pid);
  }
}
