/** Bounded waiting over the runs of the whole system, counted in ticks of the timer. */
module Fairness {
  import opened Basics
  import opened RunQueue
  import opened ProcessSpec
  import opened ProcessRuns
  import opened Turns
  import B = BoundedWaiting

  /** What holds between kernel entries is all that bounded waiting starts from, if somebody but idle lives and the
      processes that are not blocked are all in the foreground or all in the background. */
  lemma SettledIsWindow(s: System)
    requires Settled(s) && s.queue != [] && B.SameGround(s)
    ensures B.Window(s)
  {
    hide Distinct, Sorted, Pids, B.SameGround;
    forall p <- s.queue ensures B.Runnable(s, p) || s.table[p].state == BLOCKED { }
  }

  /** The two events of bounded waiting are events of the whole system. */
  function AsEvent(ev: B.Event): Event {
    match ev
    case TimerTick => TimerTick
    case YieldCall => SysYield
  }

  function AsEvents(evs: seq<B.Event>): (r: seq<Event>)
    ensures |r| == |evs| && forall i :: 0 <= i < |r| ==> r[i] == AsEvent(evs[i])
  {
    seq(|evs|, i requires 0 <= i < |evs| => AsEvent(evs[i]))
  }

  lemma StepIsAfter(s: System, ev: B.Event)
    requires Settled(s) && Enabled(s, AsEvent(ev))
    ensures QueueWf(s) && SlotsOk(s) && Step(s, AsEvent(ev)) == B.After(s, ev)
  {
    hide Switch, Age, Distinct, Sorted, Pids;
    StepParts(s, AsEvent(ev));
    if ev.YieldCall? {
      assert Relinquish(SetState(s, s.current, READY)).table == Relinquish(s).table;
    }
  }

  /** A process that is chosen along the run is the current one at some moment of it. */
  lemma {:induction false} ChosenRuns(s: System, evs: seq<B.Event>, x: int) returns (m: nat)
    requires Settled(s) && B.Window(s) && B.Active(s) != {} && Legal(s, AsEvents(evs)) && x in B.Chosen(s, evs)
    ensures 1 <= m <= |evs| && Legal(s, AsEvents(evs[..m])) && Run(s, AsEvents(evs[..m])).current == x
    decreases |evs|
  {
    hide Settled, B.Window, B.Ready, B.After, NextReady, Step, Enabled;
    SettledIsWf(s);
    var pos :| pos in B.Active(s);
    m := 0;
    if evs != [] {
      var ev, rest := evs[0], evs[1..];
      assert AsEvents(evs)[0] == AsEvent(ev) && AsEvents(evs)[1..] == AsEvents(rest);
      StepIsAfter(s, ev);
      B.AfterKeepsWindow(s, ev, pos);
      B.ChosenNext(s, evs, pos);
      var r := Step(s, AsEvent(ev));
      if B.Ready(s, ev).1 && NextReady(B.Ready(s, ev).0).0 == x {
        ChosenIsCurrent(s, ev, pos);
        FirstOnly(s, evs);
        m := 1;
      } else {
        var n := ChosenRuns(r, rest, x);
        Longer(s, evs, n);
        m := n + 1;
      }
    }
  }

  lemma ChosenIsCurrent(s: System, ev: B.Event, pos: nat)
    requires B.Window(s) && pos in B.Active(s) && B.Ready(s, ev).1
    ensures QueueWf(B.Ready(s, ev).0) && B.After(s, ev).current == NextReady(B.Ready(s, ev).0).0
  {
    hide B.Ready, B.After, NextReady, Switch;
    B.AfterIsSwitch(s, ev);
    B.ReadyToSwitch(s, ev, pos);
    B.SwitchRuns(B.Ready(s, ev).0, pos);
  }

  lemma FirstOnly(s: System, evs: seq<B.Event>)
    requires Settled(s) && evs != [] && Enabled(s, AsEvent(evs[0]))
    ensures Legal(s, AsEvents(evs[..1])) && Run(s, AsEvents(evs[..1])) == Step(s, AsEvent(evs[0]))
  {
    hide Settled, Step, Enabled;
    assert AsEvents(evs[..1]) == [AsEvent(evs[0])];
  }

  lemma Longer(s: System, evs: seq<B.Event>, n: nat)
    requires Settled(s) && evs != [] && n < |evs| && Enabled(s, AsEvent(evs[0]))
    requires Legal(Step(s, AsEvent(evs[0])), AsEvents(evs[1..][..n]))
    ensures Legal(s, AsEvents(evs[..n + 1]))
    ensures Run(s, AsEvents(evs[..n + 1])) == Run(Step(s, AsEvent(evs[0])), AsEvents(evs[1..][..n]))
  {
    hide Settled, Step, Enabled;
    var all := AsEvents(evs[..n + 1]);
    assert all[0] == AsEvent(evs[0]) && all[1..] == AsEvents(evs[1..][..n]);
  }

  /** An event that makes no choice uses up a tick of the turn of the current process. */
  lemma NoChoice(s: System, ev: B.Event)
    requires Settled(s) && FullTurns(s) && Enabled(s, AsEvent(ev)) && !B.Ready(s, ev).1
    ensures var r := Step(s, AsEvent(ev));
            r.current == s.current && r.table[r.current].quanta == s.table[s.current].quanta - 1
  {
    hide Distinct, Sorted, Pids, Switch, Age, Step;
    AgeTurns(s);
    assert ev.TimerTick?;
    TickCharges(s);
  }

  lemma CurrentQuanta(s: System)
    requires Settled(s) && FullTurns(s)
    ensures 0 <= s.current < |s.table| && 1 <= s.table[s.current].quanta <= MAX_PRIORITY
  {
    hide Distinct, Sorted, Pids;
  }

  /** A choice is made at least every five events. */
  lemma {:induction false} ChoicesInTime(s: System, evs: seq<B.Event>)
    requires Settled(s) && FullTurns(s) && B.Window(s) && B.Active(s) != {} && Legal(s, AsEvents(evs))
    ensures |evs| < s.table[s.current].quanta + MAX_PRIORITY * |B.Chosen(s, evs)|
    decreases |evs|
  {
    hide Settled, B.Window, B.Ready, B.After, NextReady, Step, Enabled, FullTurns;
    CurrentQuanta(s);
    SettledIsWf(s);
    var pos :| pos in B.Active(s);
    if evs != [] {
      var ev, rest := evs[0], evs[1..];
      assert AsEvents(evs)[0] == AsEvent(ev) && AsEvents(evs)[1..] == AsEvents(rest);
      StepIsAfter(s, ev);
      B.AfterKeepsWindow(s, ev, pos);
      B.ChosenNext(s, evs, pos);
      StepTurns(s, AsEvent(ev));
      var r := Step(s, AsEvent(ev));
      CurrentQuanta(r);
      if !B.Ready(s, ev).1 { NoChoice(s, ev); }
      ChoicesInTime(r, rest);
    }
  }

  /** Bounded waiting in ticks: in any state between kernel entries with n processes not blocked, all on the same ground,
      each of those of the highest priority becomes the current one within 5 ((n - 1)^2 + 1) ticks and yields. */
  lemma RunsWithin(s: System, evs: seq<B.Event>, pos: nat) returns (m: nat)
    requires Settled(s) && FullTurns(s) && s.queue != [] && B.SameGround(s) && Legal(s, AsEvents(evs))
    requires pos in B.Active(s) && forall k <- B.Active(s) :: s.table[s.queue[k]].priority <= s.table[s.queue[pos]].priority
    requires s.table[s.queue[pos]].waitTicks + |evs| < TICKS_MODULUS
    requires |evs| >= MAX_PRIORITY * ((|B.Active(s)| - 1) * (|B.Active(s)| - 1) + 1)
    ensures 1 <= m <= |evs| && Legal(s, AsEvents(evs[..m])) && Run(s, AsEvents(evs[..m])).current == s.queue[pos]
  {
    hide Settled, FullTurns, B.Window, B.SameGround, B.Chosen;
    SettledIsWindow(s);
    CurrentQuanta(s);
    ChoicesInTime(s, evs);
    B.BoundedWait(s, evs, pos);
    m := ChosenRuns(s, evs, s.queue[pos]);
  }
}
