/** Nobody starts early: over runs, every thread of the deadline heap has reached its release. */
module SchedStarts {
  import Words
  import opened ThreadTypes
  import opened HeapOps
  import opened HeapKeys
  import opened SchedState
  import opened SchedMoves
  import opened Sched
  import opened SchedLaws
  import opened SchedChoice
  import Steps = SchedSteps
  import Susp = SchedSuspend
  import opened SchedRuns
  import opened SchedWake
  import opened SchedEarliest

  /** Node n's thread has been released. */
  predicate Out(c: Cpu, n: Node) {
    n.thread in c.tcb && c.tcb[n.thread].release <= c.ticks
  }

  ghost predicate Started(c: Cpu) {
    forall n {:trigger Out(c, n)} {:trigger n in c.dead} :: n in c.dead ==> Out(c, n)
  }

  // ---------------------------------------------------------------- a decision

  lemma PreparedStarts(c: Cpu)
    requires Inv(c) && Room(c) && Started(c)
    ensures Started(Prepared(c))
  {
    var b := Prepared(c);
    forall n | n in b.dead ensures Out(b, n) {
      PreparedDead(c, n);
      DeadNode(b, n);
      PreparedOut(c, n);
    }
  }

  lemma PreparedOut(c: Cpu, n: Node)
    requires Inv(c) && Room(c) && Started(c) && Enters(c, n) && n.thread in c.tcb && n.thread != c.main
    ensures Out(Prepared(c), n)
  {
    PreparedThread(c, n.thread);
    if Wakes(c, n.thread) {
      WakerSleeps(c, n.thread);
    }
    hide Prepared, Wakes, Inv, Room;
    assert n in c.dead ==> Out(c, n);
  }

  lemma RearmStarts(c: Cpu)
    requires Inv(c) && Room(c) && Started(c) && HeadFinished(c, PERIODIC) && c.tcb[c.dead[0].thread].period > 0
    ensures Started(RearmOne(c))
  {
    var w :| RoomAt(c, w);
    RearmOneTimes(c, w);
    var t, r := c.dead[0].thread, RearmOne(c);
    RearmOneKeeps(c, w);
    hide RearmOne, Inv, Room, RoomAt, Rearmed, PlaceIn, SpreadOf, Moves;
    forall n | n in r.dead ensures Out(r, n) {
      RearmNodes(c, n);
      if n.thread == t {
        DeadNode(r, n);
      } else {
        assert Out(c, n);
      }
    }
  }

  lemma RetireStarts(c: Cpu)
    requires Inv(c) && Room(c) && Started(c) && HeadFinished(c, APERIODIC)
    ensures Started(RetireOne(c))
  {
    var r := RetireOne(c);
    hide RetireOne, Inv, Room;
    forall n | n in r.dead ensures Out(r, n) {
      RetireNodes(c, n);
      assert Out(c, n);
    }
  }

  lemma PickStarts(c: Cpu)
    requires Inv(c) && Started(c) && c.dead != [] && c.dead[0].thread in c.tcb
    ensures Started(PickDead(c))
  {
    forall n | n in PickDead(c).dead ensures Out(PickDead(c), n) {
      assert Out(c, n);
    }
  }

  lemma {:induction false} SelectDeadStarts(c: Cpu)
    requires Inv(c) && Room(c) && Started(c)
    ensures Started(SelectDead(c).0)
    decreases FinishedDead(c)
  {
    hide RearmOne, RetireOne, PickDead, Inv, Room, Started, FinishedDead;
    if c.dead != [] {
      PickDeadOk(c);
      var t := c.dead[0].thread;
      if c.tcb[t].status != FINISHED {
        PickStarts(c);
      } else if c.tcb[t].periodicity == PERIODIC {
        RearmOneOk(c);
        RearmStarts(c);
        SelectDeadStarts(RearmOne(c));
      } else {
        RetireOneOk(c);
        RetireStarts(c);
        SelectDeadStarts(RetireOne(c));
      }
    }
  }

  lemma EmptyStarts(c: Cpu)
    requires c.dead == []
    ensures Started(c)
  {
  }

  lemma ChooseStarts(c: Cpu)
    requires Inv(c) && Room(c) && Started(c)
    ensures Started(Choose(c).0)
  {
    hide Admit, ReleaseDue, SelectDead, SelectLevels, Inv, Room, Started;
    var b := Prepared(c);
    PreparedStarts(c);
    SelectDeadStarts(b);
    SelectDeadPicks(b);
    var (d, f) := SelectDead(b);
    if !f {
      SelectLevelsPicks(d);
      EmptyStarts(SelectLevels(d).0);
    }
  }

  lemma ReapStarts(d: Cpu)
    requires Inv(d) && Room(d) && Started(d)
    ensures Started(ReapAll(d))
  {
    ReapAllFrees(d);
    var r := ReapAll(d);
    hide ReapAll;
    forall n | n in r.dead ensures Out(r, n) {
      assert Out(d, n);
      DeadNode(d, n);
      assert n.thread in d.outgoing ==> Holds(d, AtOutgoing, n.thread);
      if Holds(d, AtOutgoing, n.thread) {
        OnlyPlace(d, AtDead, AtOutgoing, n.thread);
      }
    }
  }

  /** The same heap, and nobody's release in it moved back. */
  lemma SameStarts(c: Cpu, r: Cpu)
    requires Started(c) && r.ticks >= c.ticks
    requires forall n :: n in r.dead ==> n in c.dead && (n.thread in c.tcb ==> n.thread in r.tcb && r.tcb[n.thread].release == c.tcb[n.thread].release)
    ensures Started(r)
  {
    forall n | n in r.dead ensures Out(r, n) {
      assert Out(c, n);
    }
  }

  lemma DispatchStarts(c: Cpu, lockFree: bool)
    requires Inv(c) && Room(c) && Started(c)
    ensures Started(Dispatch(c, lockFree))
  {
    hide Choose, ReapAll, Inv, Room, Started;
    ChooseStarts(c);
    var d := Choose(c).0;
    ReapStarts(d);
    SameStarts(d, d.(curr := d.main));
    SameStarts(ReapAll(d), ReapAll(d).(curr := ReapAll(d).main));
  }

  // ---------------------------------------------------------------- the events

  lemma PrimeStarts(c: Cpu)
    requires Started(c) && c.curr in c.tcb
    ensures Started(Prime(c))
  {
    SameStarts(c, Prime(c));
  }

  lemma BeforeTickStarts(c: Cpu, ci: nat, ti: nat)
    requires Started(c) && c.curr in c.tcb && c.ticks + 1 < Words.WORD
    ensures Started(BeforeTick(c, ci, ti))
  {
    var u := if ti > 0 then ci * 0x1_0000 / ti % Words.WORD else 0;
    var r := BeforeTick(c, ci, ti);
    assert r.tcb == c.tcb || r.tcb == c.tcb[c.curr := c.tcb[c.curr].(prevU := u)];
    SameStarts(c, r);
  }

  lemma TickStarts(c: Cpu, ci: nat, ti: nat, lockFree: bool)
    requires Sys(c) && Room(c) && Room(BeforeTick(c, ci, ti)) && c.ticks + 1 < Words.WORD && Started(c)
    ensures Started(TickStep(c, ci, ti, lockFree))
  {
    BeforeTickKeeps(c, ci, ti);
    var b := BeforeTick(c, ci, ti);
    DispatchKeeps(b, lockFree);
    BeforeTickStarts(c, ci, ti);
    hide BeforeTick, Dispatch, Prime, Inv, Room, Started, Account;
    DispatchStarts(b, lockFree);
    PrimeStarts(Dispatch(b, lockFree));
  }

  lemma ExitStarts(c: Cpu, lockFree: bool)
    requires Sys(c) && c.curr != c.main && Room(BeforeExit(c)) && Started(c)
    ensures Started(ExitStep(c, lockFree))
  {
    BeforeExitKeeps(c);
    var b := BeforeExit(c);
    ExitMain(c);
    SameStarts(c, b);
    hide BeforeExit, Dispatch, Prime, Inv, Room, Started, Account;
    DispatchKeeps(b, lockFree);
    DispatchStarts(b, lockFree);
    PrimeStarts(Dispatch(b, lockFree));
  }

  lemma ArrivalStarts(c: Cpu, e: Event)
    requires Sys(c) && Enabled(c, e) && (e.Enqueue? || e.EnqueuePersistent?) && Started(c)
    ensures Started(Apply(c, e))
  {
    FifoHasRoom(c);
    hide Inv, Room, Account, Started;
    if e.Enqueue? {
      Steps.EnqueueStores(c, e.t, e.memory, e.period, e.periodicity);
    } else {
      Steps.EnqueuePersistentStores(c, e.t, e.memory, e.priority);
    }
    hide Steps.Enqueue, Steps.EnqueuePersistent;
    SameStarts(c, Apply(c, e));
  }

  lemma KillStarts(c: Cpu, t: nat)
    requires Started(c) && t in c.tcb
    ensures Started(Steps.Kill(c, t))
  {
    SameStarts(c, Steps.Kill(c, t));
  }

  /** A suspended thread is not in the deadline heap any more, and the others there are as before. */
  lemma SuspendStarts(c: Cpu, w: nat, t: nat, delay: nat)
    requires Inv(c) && RoomAt(c, w) && t in c.tcb && t != c.main && Susp.SuspendFits(c, w, t, delay) && Started(c)
    ensures Started(Susp.Suspend(c, t, delay).0)
  {
    var (r, ok) := Susp.Suspend(c, t, delay);
    if ok {
      Susp.SuspendKeeps(c, w, t, delay);
      Susp.SuspendTcbs(c, t, delay, c.main);
      forall n | n in r.dead ensures Out(r, n) {
        DeadNode(r, n);
        SuspendLeft(c, w, t, delay, n);
        assert Out(c, n);
        Susp.SuspendTcbs(c, t, delay, n.thread);
      }
    } else {
      Susp.SuspendTimes(c, w, t, delay);
    }
  }

  lemma SuspendLeft(c: Cpu, w: nat, t: nat, delay: nat, n: Node)
    requires Inv(c) && RoomAt(c, w) && t in c.tcb && t != c.main && Susp.SuspendFits(c, w, t, delay)
    requires Susp.Suspend(c, t, delay).1 && n in Susp.Suspend(c, t, delay).0.dead
    ensures n in c.dead && n.thread != t
  {
    Susp.SuspendedNodes(c, w, t, delay, n);
  }

  lemma SuspendStepStarts(c: Cpu, t: nat, delay: nat, ownCore: bool, lockFree: bool)
    requires Sys(c) && Enabled(c, Suspend(t, delay, ownCore, lockFree)) && Started(c)
    ensures Started(SuspendStep(c, t, delay, ownCore, lockFree))
  {
    var w :| RoomAt(c, w) && Susp.SuspendFits(c, w, t, delay);
    SuspendStarts(c, w, t, delay);
    SuspendEventKeeps(c, t, delay);
    hide Susp.Suspend, Dispatch, Inv, Room, RoomAt, Susp.SuspendFits, Started;
    DispatchStarts(Susp.Suspend(c, t, delay).0, lockFree);
  }

  lemma EventStarts(c: Cpu, e: Event)
    requires Sys(c) && Enabled(c, e) && Started(c)
    ensures Started(Apply(c, e))
  {
    hide Started, Inv, Room, Account, Dispatch, Susp.Suspend;
    match e
    case Kill(t) => KillStarts(c, t);
    case Suspend(t, delay, ownCore, lockFree) => SuspendStepStarts(c, t, delay, ownCore, lockFree);
    case Tick(ci, ti, lockFree) => TickStarts(c, ci, ti, lockFree);
    case Exit(lockFree) => ExitStarts(c, lockFree);
    case _ => ArrivalStarts(c, e);
  }

  // ---------------------------------------------------------------- runs

  lemma {:induction false} RunStarts(c: Cpu, es: seq<Event>)
    requires Sys(c) && Runs(c, es) && Started(c)
    ensures Started(Run(c, es))
    decreases |es|
  {
    hide Sys, Enabled, Apply, Started;
    if es != [] {
      EventStarts(c, es[0]);
      RunStarts(Apply(c, es[0]), es[1..]);
    }
  }

  lemma StartedThread(c: Cpu, t: nat)
    requires Started(c) && Holds(c, AtDead, t)
    ensures t in c.tcb && c.tcb[t].release <= c.ticks
  {
    assert t in Threads(c.dead);
    var n := ThreadsIn(c.dead, t);
    assert Out(c, n);
  }

  /** Over every run from initialization: a thread of the deadline heap has reached its release, so none of them runs
      early. */
  lemma EveryRunStarts(main: nat, memory: Tcb, es: seq<Event>, t: nat)
    requires main != NULL
    ensures Sys(InitCpu(main, memory))
    ensures Runs(InitCpu(main, memory), es) ==>
              var r := Run(InitCpu(main, memory), es);
              Holds(r, AtDead, t) ==> t in r.tcb && r.tcb[t].release <= r.ticks
  {
    InitSys(main, memory);
    var c := InitCpu(main, memory);
    EmptyStarts(c);
    hide InitCpu, Run, Runs, Sys, Started, Holds;
    if Runs(c, es) {
      RunStarts(c, es);
      if Holds(Run(c, es), AtDead, t) {
        StartedThread(Run(c, es), t);
      }
    }
  }
}
