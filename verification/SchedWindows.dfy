/** The scheduling window of a thread over runs: from admission on it is exactly one period long, until a suspension. */
module SchedWindows {
  import opened Words
  import opened Wrapped
  import opened ThreadTypes
  import opened SchedState
  import opened SchedMoves
  import opened Sched
  import opened SchedLaws
  import opened SchedChoice
  import Steps = SchedSteps
  import Susp = SchedSuspend
  import opened SchedRuns

  /** Once admitted, thread t is due one period after its release. */
  ghost predicate Whole(c: Cpu, t: nat)
    requires t in c.tcb
  {
    PlaceIn(SpreadOf(c), t) != AtIncoming ==> c.tcb[t].deadline == c.tcb[t].release + c.tcb[t].period
  }

  /** All threads but those of s have whole windows. */
  ghost predicate Windows(c: Cpu, s: set<nat>) {
    forall t {:trigger Whole(c, t)} :: t in c.tcb && t != c.main && t !in s ==> Whole(c, t)
  }

  ghost predicate WholeKept(c: Cpu, r: Cpu, t: nat) {
    t in r.tcb && t != r.main ==> t in c.tcb && t != c.main && (Whole(c, t) ==> Whole(r, t))
  }

  /** The step shortens or stretches no whole window. */
  ghost predicate KeepsWhole(c: Cpu, r: Cpu) {
    forall t {:trigger WholeKept(c, r, t)} :: WholeKept(c, r, t)
  }

  lemma WholeTrans(a: Cpu, b: Cpu, c: Cpu)
    requires KeepsWhole(a, b) && KeepsWhole(b, c)
    ensures KeepsWhole(a, c)
  {
    hide Whole;
    forall t ensures WholeKept(a, c, t) {
      assert WholeKept(a, b, t) && WholeKept(b, c, t);
    }
  }

  lemma WholeRefl(c: Cpu)
    ensures KeepsWhole(c, c)
  {
  }

  lemma WindowsKept(c: Cpu, r: Cpu, s: set<nat>)
    requires KeepsWhole(c, r) && Windows(c, s)
    ensures Windows(r, s)
  {
    hide Whole;
    forall t | t in r.tcb && t != r.main && t !in s ensures Whole(r, t) {
      assert WholeKept(c, r, t);
    }
  }

  lemma MoveWhole(c: Cpu, r: Cpu, s: Spread, p: Place, q: Place, t: nat)
    requires Partitioned(c) && Moves(c, r, s, p, q, t) && q != AtIncoming
    requires p == AtIncoming || c.tcb[t].deadline == c.tcb[t].release + c.tcb[t].period ==>
               r.tcb[t].deadline == r.tcb[t].release + r.tcb[t].period
    ensures KeepsWhole(c, r)
  {
    LiftedFacts(c, s, p, t);
    forall u ensures WholeKept(c, r, u) {
      if u != t {
        PutElsewhere(s, p, t, u);
        PutElsewhere(s, q, t, u);
      }
    }
  }

  // ---------------------------------------------------------------- the moves of next_up

  lemma AdmitOneWhole(c: Cpu)
    requires Inv(c) && Room(c) && c.incoming != []
    ensures c.incoming[0] in c.tcb && KeepsWhole(c, AdmitOne(c))
  {
    var w :| RoomAt(c, w);
    AdmitOneKeeps(c, w);
    hide AdmitOne, Moves;
    var t, r := c.incoming[0], AdmitOne(c);
    var q := if c.tcb[t].periodicity == PERSISTENT then AtLevel(c.tcb[t].priority) else AtDead;
    assert RoomFor(c, w, t);
    AdmittedWindow(c, w, t);
    MoveWhole(c, r, SansIncoming(c), AtIncoming, q, t);
  }

  lemma AdmittedWindow(c: Cpu, w: nat, t: nat)
    requires RoomAt(c, w) && t in c.tcb && RoomFor(c, w, t)
    ensures var x := Admitted(c.tcb[t], c.ticks); x.deadline == x.release + x.period
  {
  }

  lemma ReleaseOneWhole(c: Cpu)
    requires Inv(c) && Room(c) && HeadDue(c)
    ensures KeepsWhole(c, ReleaseOne(c))
  {
    var w :| RoomAt(c, w);
    ReleaseOneKeeps(c, w);
    MoveWhole(c, ReleaseOne(c), SansRel(c), AtRel, AtDead, c.rel[0].thread);
  }

  lemma RearmOneWhole(c: Cpu)
    requires Inv(c) && Room(c) && HeadFinished(c, PERIODIC) && c.tcb[c.dead[0].thread].period > 0
    ensures KeepsWhole(c, RearmOne(c))
  {
    var w :| RoomAt(c, w);
    RearmOneKeeps(c, w);
    var t := c.dead[0].thread;
    LiftedTagsDead(c, w);
    RearmedShape(c.tcb[t], c.ticks, w);
    var q := if LtWrapped(c.ticks, Rearmed(c.tcb[t], c.ticks).release) then AtRel else AtDead;
    MoveWhole(c, RearmOne(c), SansDead(c), AtDead, q, t);
  }

  lemma LiftedTagsDead(c: Cpu, w: nat)
    requires Inv(c) && RoomAt(c, w) && c.dead != []
    ensures var t := c.dead[0].thread;
            t in c.tcb && TagFits(c.tcb[t], AtDead) && TimesFit(c.tcb[t], c.ticks, w, AtDead)
  {
    RemoveHeadKeeps(w, c.dead);
    LiftedTags(c, SansDead(c), AtDead, c.dead[0].thread, w);
  }

  lemma RetireOneWhole(c: Cpu)
    requires Inv(c) && Room(c) && HeadFinished(c, APERIODIC)
    ensures KeepsWhole(c, RetireOne(c))
  {
    var w :| RoomAt(c, w);
    RetireOneKeeps(c, w);
    MoveWhole(c, RetireOne(c), SansDead(c), AtDead, AtOutgoing, c.dead[0].thread);
  }

  lemma PickDeadWhole(c: Cpu)
    requires Inv(c) && Room(c) && c.dead != []
    ensures c.dead[0].thread in c.tcb && KeepsWhole(c, PickDead(c))
  {
    var w :| RoomAt(c, w);
    PickDeadKeeps(c, w);
    MoveWhole(c, PickDead(c), SansDead(c), AtDead, AtDead, c.dead[0].thread);
  }

  lemma VisitedWindow(c: Cpu, p: Priority, w: nat)
    requires Inv(c) && RoomAt(c, w) && Level(c, p) != []
    ensures Level(c, p)[0] in c.tcb
    ensures var (x, y) := (c.tcb[Level(c, p)[0]], Visited(c.tcb[Level(c, p)[0]], c.ticks));
            x.deadline == x.release + x.period ==> y.deadline == y.release + y.period
  {
    LevelHead(c, p, w);
  }

  lemma LevelWhole(c: Cpu, p: Priority)
    requires Inv(c) && Room(c) && Level(c, p) != [] && Level(c, p)[0] in c.tcb
    ensures c.tcb[Level(c, p)[0]].status == FINISHED ==> KeepsWhole(c, RetireFromLevel(c, p))
    ensures c.tcb[Level(c, p)[0]].status != FINISHED ==> KeepsWhole(c, PickLevel(c, p))
    ensures c.tcb[Level(c, p)[0]].status != FINISHED && SliceOver(c, p) ==> KeepsWhole(c, RotateLevel(c, p))
  {
    hide SliceOver, Visited;
    var w :| RoomAt(c, w);
    VisitedWindow(c, p, w);
    var t, s := Level(c, p)[0], SansLevel(c, p);
    if c.tcb[t].status == FINISHED {
      RetireFromLevelKeeps(c, p, w);
      MoveWhole(c, RetireFromLevel(c, p), s, AtLevel(p), AtOutgoing, t);
    } else {
      PickLevelKeeps(c, p, w);
      MoveWhole(c, PickLevel(c, p), s, AtLevel(p), AtLevel(p), t);
      if SliceOver(c, p) {
        RotateLevelKeeps(c, p, w);
        MoveWhole(c, RotateLevel(c, p), s, AtLevel(p), AtLevel(p), t);
      }
    }
  }

  lemma ReapOneWhole(c: Cpu)
    requires Inv(c) && Room(c) && c.outgoing != []
    ensures c.outgoing[0] in c.tcb && KeepsWhole(c, ReapOne(c))
  {
    ReapOneOk(c);
    var t, s, r := c.outgoing[0], SansOutgoing(c), ReapOne(c);
    PopFront(c.outgoing);
    assert SpreadOf(r) == s;
    assert Put(s, AtOutgoing, t) == SpreadOf(c);
    forall u ensures WholeKept(c, r, u) {
      if u in r.tcb {
        PutElsewhere(s, AtOutgoing, t, u);
      }
    }
  }

  // ---------------------------------------------------------------- the loops of next_up

  lemma {:induction false} AdmitWhole(c: Cpu)
    requires Inv(c) && Room(c)
    ensures KeepsWhole(c, Admit(c))
    decreases |c.incoming|
  {
    hide AdmitOne, KeepsWhole;
    if c.incoming == [] {
      WholeRefl(c);
    } else {
      AdmitOneOk(c);
      AdmitOneWhole(c);
      assert |AdmitOne(c).incoming| < |c.incoming| by { AdmitShrinks(c); }
      AdmitWhole(AdmitOne(c));
      WholeTrans(c, AdmitOne(c), Admit(c));
    }
  }

  lemma {:induction false} ReleaseDueWhole(c: Cpu)
    requires Inv(c) && Room(c)
    ensures KeepsWhole(c, ReleaseDue(c))
    decreases |c.rel|
  {
    hide KeepsWhole;
    if !HeadDue(c) {
      WholeRefl(c);
    } else {
      ReleaseOneOk(c);
      ReleaseOneWhole(c);
      ReleaseDueWhole(ReleaseOne(c));
      WholeTrans(c, ReleaseOne(c), ReleaseDue(c));
    }
  }

  lemma {:induction false} SelectDeadWhole(c: Cpu)
    requires Inv(c) && Room(c)
    ensures KeepsWhole(c, SelectDead(c).0)
    decreases FinishedDead(c)
  {
    hide RearmOne, RetireOne, PickDead, KeepsWhole;
    if c.dead == [] {
      WholeRefl(c);
    } else {
      PickDeadOk(c);
      var t := c.dead[0].thread;
      if c.tcb[t].status != FINISHED {
        PickDeadWhole(c);
      } else if c.tcb[t].periodicity == PERIODIC {
        RearmOneOk(c);
        RearmOneWhole(c);
        SelectDeadWhole(RearmOne(c));
        WholeTrans(c, RearmOne(c), SelectDead(c).0);
      } else {
        RetireOneOk(c);
        RetireOneWhole(c);
        SelectDeadWhole(RetireOne(c));
        WholeTrans(c, RetireOne(c), SelectDead(c).0);
      }
    }
  }

  lemma {:induction false} SelectLevelWhole(c: Cpu, p: Priority)
    requires Inv(c) && Room(c)
    ensures KeepsWhole(c, SelectLevel(c, p).0)
    decreases Pending(c, p)
  {
    hide Inv, Room, RetireFromLevel, RotateLevel, PickLevel, SliceOver, KeepsWhole;
    if Level(c, p) == [] {
      WholeRefl(c);
    } else {
      LevelHeadOk(c, p);
      LevelWhole(c, p);
      if c.tcb[Level(c, p)[0]].status == FINISHED {
        RetireFromLevelOk(c, p);
        SelectLevelWhole(RetireFromLevel(c, p), p);
        WholeTrans(c, RetireFromLevel(c, p), SelectLevel(c, p).0);
      } else if SliceOver(c, p) {
        RotateLevelOk(c, p);
        SelectLevelWhole(RotateLevel(c, p), p);
        WholeTrans(c, RotateLevel(c, p), SelectLevel(c, p).0);
      }
    }
  }

  lemma {:induction false} ReapAllWhole(c: Cpu)
    requires Inv(c) && Room(c)
    ensures KeepsWhole(c, ReapAll(c))
    decreases |c.outgoing|
  {
    hide KeepsWhole;
    if c.outgoing == [] {
      WholeRefl(c);
    } else {
      ReapOneOk(c);
      ReapOneWhole(c);
      ReapAllWhole(ReapOne(c));
      WholeTrans(c, ReapOne(c), ReapAll(c));
    }
  }

  lemma SelectLevelsWhole(c: Cpu)
    requires Inv(c) && Room(c)
    ensures KeepsWhole(c, SelectLevels(c).0)
  {
    hide SelectLevel, KeepsWhole, Inv, Room;
    SelectLevelWhole(c, HIGH_PRIORITY);
    var (h, fh) := SelectLevel(c, HIGH_PRIORITY);
    if !fh {
      SelectLevelWhole(h, MED_PRIORITY);
      var (m, fm) := SelectLevel(h, MED_PRIORITY);
      WholeTrans(c, h, m);
      if !fm {
        SelectLevelWhole(m, LOW_PRIORITY);
        WholeTrans(c, m, SelectLevel(m, LOW_PRIORITY).0);
      }
    }
  }

  lemma ChooseWhole(c: Cpu)
    requires Inv(c) && Room(c)
    ensures KeepsWhole(c, Choose(c).0)
  {
    hide Admit, ReleaseDue, SelectDead, SelectLevels, KeepsWhole, Inv, Room;
    AdmitWhole(c);
    ReleaseDueWhole(Admit(c));
    var b := ReleaseDue(Admit(c));
    WholeTrans(c, Admit(c), b);
    SelectDeadWhole(b);
    WholeTrans(c, b, SelectDead(b).0);
    SelectLevelsWhole(SelectDead(b).0);
    WholeTrans(c, SelectDead(b).0, SelectLevels(SelectDead(b).0).0);
  }

  /** Times and places are all that matters. */
  lemma SameWhole(c: Cpu, r: Cpu)
    requires SpreadOf(r) == SpreadOf(c) && r.main == c.main && r.tcb.Keys == c.tcb.Keys
    requires forall t :: t in c.tcb ==> r.tcb[t].deadline == c.tcb[t].deadline && r.tcb[t].release == c.tcb[t].release
                                        && r.tcb[t].period == c.tcb[t].period
    ensures KeepsWhole(c, r)
  {
  }

  lemma DispatchWhole(c: Cpu, lockFree: bool)
    requires Inv(c) && Room(c)
    ensures KeepsWhole(c, Dispatch(c, lockFree))
  {
    hide Choose, ReapAll, KeepsWhole;
    ChooseWhole(c);
    var d := Choose(c).0;
    ReapAllWhole(d);
    WholeTrans(c, d, ReapAll(d));
    SameWhole(d, d.(curr := d.main));
    SameWhole(ReapAll(d), ReapAll(d).(curr := ReapAll(d).main));
    WholeTrans(c, d, d.(curr := d.main));
    WholeTrans(c, ReapAll(d), ReapAll(d).(curr := ReapAll(d).main));
  }

  // ---------------------------------------------------------------- the events

  /** The threads suspended since their admission: a successful suspension adds one, a new thread starts without. */
  ghost function SuspendedAfter(c: Cpu, e: Event, s: set<nat>): set<nat>
    requires Sys(c) && Enabled(c, e)
  {
    match e
    case Enqueue(t, _, _, _) => s - {t}
    case EnqueuePersistent(t, _, _) => s - {t}
    case Suspend(t, delay, _, _) => if Susp.Suspend(c, t, delay).1 then s + {t} else s
    case _ => s
  }

  lemma NewThreadWhole(c: Cpu, t: nat, x: Tcb, s: set<nat>)
    requires Partitioned(c) && t !in c.tcb && |c.incoming| < MAX_THREADS && Windows(c, s)
    ensures Windows(Steps.Pushed(SetTcb(c, t, x), t), s - {t})
  {
    var r := Steps.Pushed(SetTcb(c, t, x), t);
    PushBack(c.incoming, t);
    PutHere(SpreadOf(c), AtIncoming, t);
    LiveOnce(c, t);
    forall u | u in r.tcb && u != r.main && u !in s - {t} ensures Whole(r, u) {
      if u != t {
        PutElsewhere(SpreadOf(c), AtIncoming, t, u);
        assert Whole(c, u);
      }
    }
  }

  lemma FewerExceptions(c: Cpu, s: set<nat>, t: nat)
    requires Windows(c, s) && t !in c.tcb
    ensures Windows(c, s - {t})
  {
    hide Whole;
  }

  lemma EnqueueWindows(c: Cpu, e: Event, s: set<nat>)
    requires Sys(c) && Enabled(c, e) && (e.Enqueue? || e.EnqueuePersistent?) && Windows(c, s)
    ensures Windows(Apply(c, e), SuspendedAfter(c, e, s))
  {
    hide Windows, Room, RoomAt, Account, Steps.Pushed;
    FifoHasRoom(c);
    FewerExceptions(c, s, e.t);
    match e
    case Enqueue(t, memory, period, periodicity) =>
      NewThreadWhole(c, t, memory.(period := period, periodicity := periodicity, owner := INCOMING_THREADS, prevU := 0), s);
    case EnqueuePersistent(t, memory, priority) =>
      NewThreadWhole(c, t, memory.(period := PERSISTENT_SLICE_TICKS, landed := 0, periodicity := PERSISTENT,
                                   priority := priority, owner := INCOMING_THREADS, prevU := 0), s);
  }

  lemma KillWhole(c: Cpu, t: nat)
    requires t in c.tcb
    ensures KeepsWhole(c, Steps.Kill(c, t))
  {
    SameWhole(c, Steps.Kill(c, t));
  }

  lemma BeforeTickWhole(c: Cpu, ci: nat, ti: nat)
    requires c.curr in c.tcb
    ensures KeepsWhole(c, BeforeTick(c, ci, ti))
  {
    var u := if ti > 0 then ci * 0x1_0000 / ti % WORD else 0;
    var r := UpdateUtilization(c, c.curr, ci, ti);
    assert r.tcb == c.tcb || r.tcb == c.tcb[c.curr := c.tcb[c.curr].(prevU := u)];
    SameWhole(c, BeforeTick(c, ci, ti));
  }

  lemma ExitPrimeWhole(c: Cpu)
    requires c.curr in c.tcb
    ensures KeepsWhole(c, BeforeExit(c)) && KeepsWhole(c, Prime(c))
  {
    SameWhole(c, BeforeExit(c));
    SameWhole(c, Prime(c));
  }

  lemma TickWhole(c: Cpu, ci: nat, ti: nat, lockFree: bool)
    requires Sys(c) && Room(c) && Room(BeforeTick(c, ci, ti))
    ensures KeepsWhole(c, TickStep(c, ci, ti, lockFree))
  {
    BeforeTickKeeps(c, ci, ti);
    var b := BeforeTick(c, ci, ti);
    DispatchKeeps(b, lockFree);
    var d := Dispatch(b, lockFree);
    BeforeTickWhole(c, ci, ti);
    DispatchWhole(b, lockFree);
    ExitPrimeWhole(d);
    hide BeforeTick, Dispatch, Prime, KeepsWhole, Inv, Room;
    WholeTrans(c, b, d);
    WholeTrans(c, d, Prime(d));
  }

  lemma ExitWhole(c: Cpu, lockFree: bool)
    requires Sys(c) && c.curr != c.main && Room(BeforeExit(c))
    ensures KeepsWhole(c, ExitStep(c, lockFree))
  {
    BeforeExitKeeps(c);
    var b := BeforeExit(c);
    DispatchKeeps(b, lockFree);
    var d := Dispatch(b, lockFree);
    ExitPrimeWhole(c);
    DispatchWhole(b, lockFree);
    ExitPrimeWhole(d);
    hide BeforeExit, Dispatch, Prime, KeepsWhole, Inv, Room;
    WholeTrans(c, b, d);
    WholeTrans(c, d, Prime(d));
  }

  /** Suspension leaves every other thread's window alone, and a refused one leaves all alone. */
  lemma SuspendWindows(c: Cpu, w: nat, t: nat, delay: nat, s: set<nat>)
    requires Inv(c) && RoomAt(c, w) && t in c.tcb && t != c.main && Susp.SuspendFits(c, w, t, delay) && Windows(c, s)
    ensures var (r, ok) := Susp.Suspend(c, t, delay); Windows(r, if ok then s + {t} else s)
  {
    Susp.SuspendedEntry(c, t, delay);
    Susp.SuspendTcbs(c, t, delay, c.main);
    hide Susp.Suspend, Whole, Inv, RoomAt, Susp.SuspendFits;
    var (r, ok) := Susp.Suspend(c, t, delay);
    if ok {
      forall u | u in r.tcb && u != r.main && u !in s + {t} ensures Whole(r, u) {
        Susp.SuspendOthers(c, w, t, delay, u);
        assert Whole(c, u);
        SameWindow(c, r, u);
      }
    }
  }

  lemma SameWindow(c: Cpu, r: Cpu, u: nat)
    requires u in c.tcb && u in r.tcb && r.tcb[u] == c.tcb[u] && PlaceIn(SpreadOf(r), u) == PlaceIn(SpreadOf(c), u)
    ensures Whole(c, u) <==> Whole(r, u)
  {
  }

  lemma SuspendStepWindows(c: Cpu, t: nat, delay: nat, ownCore: bool, lockFree: bool, s: set<nat>)
    requires Sys(c) && Enabled(c, Suspend(t, delay, ownCore, lockFree)) && Windows(c, s)
    ensures Windows(SuspendStep(c, t, delay, ownCore, lockFree), if Susp.Suspend(c, t, delay).1 then s + {t} else s)
  {
    var w :| RoomAt(c, w) && Susp.SuspendFits(c, w, t, delay);
    SuspendWindows(c, w, t, delay, s);
    SuspendEventKeeps(c, t, delay);
    hide Susp.Suspend, Dispatch, Windows, Inv, Room, RoomAt, Susp.SuspendFits;
    var (r, ok) := Susp.Suspend(c, t, delay);
    if ok && ownCore && t == c.curr {
      DispatchWhole(r, lockFree);
      WindowsKept(r, Dispatch(r, lockFree), s + {t});
    }
  }

  lemma EventWindows(c: Cpu, e: Event, s: set<nat>)
    requires Sys(c) && Enabled(c, e) && Windows(c, s)
    ensures Windows(Apply(c, e), SuspendedAfter(c, e, s))
  {
    match e
    case Enqueue(_, _, _, _) => EnqueueWindows(c, e, s);
    case EnqueuePersistent(_, _, _) => EnqueueWindows(c, e, s);
    case Kill(t) =>
      KillWhole(c, t);
      WindowsKept(c, Apply(c, e), s);
    case Suspend(t, delay, ownCore, lockFree) => SuspendStepWindows(c, t, delay, ownCore, lockFree, s);
    case Tick(ci, ti, lockFree) =>
      TickWhole(c, ci, ti, lockFree);
      WindowsKept(c, Apply(c, e), s);
    case Exit(lockFree) =>
      ExitWhole(c, lockFree);
      WindowsKept(c, Apply(c, e), s);
  }

  // ---------------------------------------------------------------- runs

  ghost function SuspendedIn(c: Cpu, es: seq<Event>, s: set<nat>): set<nat>
    requires Sys(c) && Runs(c, es)
    decreases |es|
  {
    if es == [] then s else SuspendedIn(Apply(c, es[0]), es[1..], SuspendedAfter(c, es[0], s))
  }

  lemma {:induction false} RunWindows(c: Cpu, es: seq<Event>, s: set<nat>)
    requires Sys(c) && Runs(c, es) && Windows(c, s)
    ensures Windows(Run(c, es), SuspendedIn(c, es, s))
    decreases |es|
  {
    hide Sys, Enabled, Apply, SuspendedAfter, Windows;
    if es != [] {
      EventWindows(c, es[0], s);
      RunWindows(Apply(c, es[0]), es[1..], SuspendedAfter(c, es[0], s));
    }
  }

  /** Over every run from initialization: a thread that was admitted and not successfully suspended since is due exactly
      one period after its release, in whichever container it is. */
  lemma EveryRunWindows(main: nat, memory: Tcb, es: seq<Event>, t: nat)
    requires main != NULL
    ensures Sys(InitCpu(main, memory))
    ensures Runs(InitCpu(main, memory), es) ==>
              var r := Run(InitCpu(main, memory), es);
              t in r.tcb && t != r.main && !Holds(r, AtIncoming, t) && t !in SuspendedIn(InitCpu(main, memory), es, {}) ==>
                r.tcb[t].deadline == r.tcb[t].release + r.tcb[t].period
  {
    InitSys(main, memory);
    var c := InitCpu(main, memory);
    assert Windows(c, {});
    hide Run, Runs, InitCpu, Windows, SuspendedIn, Sys;
    if Runs(c, es) {
      RunWindows(c, es, {});
      var r := Run(c, es);
      if t in r.tcb && t != r.main && !Holds(r, AtIncoming, t) && t !in SuspendedIn(c, es, {}) {
        assert Whole(r, t);
        LiveOnce(r, t);
      }
    }
  }
}
