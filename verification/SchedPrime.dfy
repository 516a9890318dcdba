/** Whether the thread a core switches to has been primed. */
module SchedPrime {
  import opened Words
  import opened ThreadTypes
  import opened HeapOps
  import opened HeapKeys
  import opened SchedState
  import opened Sched
  import opened SchedLaws
  import opened SchedChoice
  import Susp = SchedSuspend
  import opened SchedRuns
  import opened SchedKeys
  import opened SchedEarliest
  import opened SchedJobs

  /** A decision never ends on a finished thread. */
  lemma DispatchUnfinished(c: Cpu, lockFree: bool)
    requires Inv(c) && Room(c) && Account(c) && c.tcb[c.main].status == RUNNING
    ensures var r := Dispatch(c, lockFree); r.curr in r.tcb && r.tcb[r.curr].status != FINISHED
  {
    DispatchKeeps(c, lockFree);
    NextUpPicks(c, lockFree);
    hide NextUp;
    var (r, found) := NextUp(c, lockFree);
    if found {
      PickedPlace(r);
    }
  }

  lemma PrimeRuns(c: Cpu)
    requires c.curr in c.tcb && c.tcb[c.curr].status != FINISHED
    ensures Prime(c).curr in Prime(c).tcb && Prime(c).tcb[Prime(c).curr].status == RUNNING
  {
  }

  /** After a timer tick and after a thread's exit the running thread's status is RUNNING. */
  lemma TickRuns(c: Cpu, ci: nat, ti: nat, lockFree: bool)
    requires Sys(c) && Room(c) && Room(BeforeTick(c, ci, ti))
    ensures var r := TickStep(c, ci, ti, lockFree); r.tcb[r.curr].status == RUNNING
  {
    BeforeTickKeeps(c, ci, ti);
    hide Dispatch, BeforeTick, Prime;
    DispatchUnfinished(BeforeTick(c, ci, ti), lockFree);
    PrimeRuns(Dispatch(BeforeTick(c, ci, ti), lockFree));
  }

  /** A tick counts itself and gives the thread that was running its new share, if it is periodic and its period was
      measured; nobody else's share changes. */
  lemma TickShare(c: Cpu, ci: nat, ti: nat, lockFree: bool)
    requires Sys(c) && Room(c) && Room(BeforeTick(c, ci, ti)) && c.ticks + 1 < WORD
    ensures var r := TickStep(c, ci, ti, lockFree);
            && r.ticks == c.ticks + 1
            && forall t :: t in r.tcb ==>
                 t in c.tcb && if t == c.curr && c.tcb[t].periodicity == PERIODIC && ti > 0
                               then IsShare(r.tcb[t].prevU, ci, ti) else r.tcb[t].prevU == c.tcb[t].prevU
  {
    hide Dispatch, Prime, UpdateUtilization, IsShare, Inv, Room, Account;
    BeforeTickKeeps(c, ci, ti);
    UtilizationShare(c, ci, ti);
    var b := BeforeTick(c, ci, ti);
    DispatchUnfinished(b, lockFree);
    DispatchShares(b, lockFree);
    PrimeShares(Dispatch(b, lockFree));
  }

  lemma DispatchShares(c: Cpu, lockFree: bool)
    requires Inv(c) && Room(c)
    ensures var r := Dispatch(c, lockFree);
            r.ticks == c.ticks && forall t :: t in r.tcb ==> t in c.tcb && r.tcb[t].prevU == c.tcb[t].prevU
  {
    hide Choose, Inv, Room, ReapAll;
    DispatchJobs(c, lockFree);
    var d, r := Choose(c).0, Dispatch(c, lockFree);
    forall t | t in r.tcb ensures t in c.tcb && r.tcb[t].prevU == c.tcb[t].prevU {
      assert Leaves(c, d, t);
    }
  }

  lemma PrimeShares(c: Cpu)
    requires c.curr in c.tcb
    ensures var r := Prime(c);
            r.ticks == c.ticks && r.tcb.Keys == c.tcb.Keys && forall t :: t in c.tcb ==> r.tcb[t].prevU == c.tcb[t].prevU
  {
  }

  lemma ExitRuns(c: Cpu, lockFree: bool)
    requires Sys(c) && c.curr != c.main && Room(BeforeExit(c))
    ensures var r := ExitStep(c, lockFree); r.tcb[r.curr].status == RUNNING
  {
    BeforeExitKeeps(c);
    hide Dispatch, BeforeExit, Prime;
    DispatchUnfinished(BeforeExit(c), lockFree);
    PrimeRuns(Dispatch(BeforeExit(c), lockFree));
  }

  /** An exit ends the job: unless the thread is periodic it is not running afterwards, and it stays finished until it is
      freed. */
  lemma ExitEnds(c: Cpu, lockFree: bool)
    requires Sys(c) && c.curr != c.main && Room(BeforeExit(c))
    requires c.tcb[c.curr].periodicity != PERIODIC && c.curr !in c.incoming
    ensures var (t, r) := (c.curr, ExitStep(c, lockFree)); r.curr != t && (t in r.tcb ==> r.tcb[t].status == FINISHED)
  {
    hide Dispatch, Choose, BeforeExit, Inv, Room, Account, Decides, Prime;
    BeforeExitKeeps(c);
    var t, b := c.curr, BeforeExit(c);
    ExitedJob(c);
    ExitMain(c);
    StaysFinished(b, lockFree, t);
    DispatchUnfinished(b, lockFree);
    PrimeOther(Dispatch(b, lockFree), t);
  }

  lemma ExitedJob(c: Cpu)
    requires c.curr in c.tcb
    ensures var b := BeforeExit(c);
            && c.curr in b.tcb && b.tcb[c.curr].status == FINISHED && b.tcb[c.curr].periodicity == c.tcb[c.curr].periodicity
            && b.incoming == c.incoming
  {
  }

  /** Unless it is periodic or waits for admission, a finished thread stays so through a decision. */
  lemma StaysFinished(b: Cpu, lockFree: bool, t: nat)
    requires Inv(b) && Room(b) && t in b.tcb && b.tcb[t].status == FINISHED && b.tcb[t].periodicity != PERIODIC && t !in b.incoming
    ensures t in Dispatch(b, lockFree).tcb ==> Dispatch(b, lockFree).tcb[t].status == FINISHED
  {
    ChooseJobs(b);
    DispatchJobs(b, lockFree);
    hide Dispatch, Choose, Inv, Room, Counts;
    assert Decides(b, Choose(b).0, t);
  }

  lemma PrimeOther(d: Cpu, t: nat)
    requires d.curr in d.tcb && d.tcb[d.curr].status != FINISHED
    ensures Prime(d).curr == d.curr
    ensures t in d.tcb && d.tcb[t].status == FINISHED ==> t != d.curr && t in Prime(d).tcb && Prime(d).tcb[t].status == FINISHED
    ensures t in Prime(d).tcb ==> t in d.tcb
  {
  }

  // ---------------------------------------------------------------- the forced switch

  /** Thread t can resume as it is: it has been primed, has a job, and is not about to be admitted. */
  predicate Primed(s: Cpu, t: nat) {
    t in s.tcb && t !in s.incoming && s.tcb[t].status == RUNNING
  }

  /** A decision leaves its choice RUNNING exactly if it was primed before: admission and re-arming make a thread pending,
      nothing else changes a status. */
  lemma DispatchPrimedIff(s: Cpu, lockFree: bool)
    requires Inv(s) && Room(s) && Account(s) && s.main in s.tcb && s.tcb[s.main].status == RUNNING
    ensures var r := Dispatch(s, lockFree);
            && r.curr in r.tcb && (r.tcb[r.curr].status == RUNNING <==> Primed(s, r.curr))
            && (r.curr == s.main ==> Primed(s, r.curr))
  {
    hide Choose, Dispatch, Inv, Room, Account, Decides, Primed;
    ChooseJobs(s);
    DispatchJobs(s, lockFree);
    DispatchKeeps(s, lockFree);
    MainNotIncoming(s);
    CurrLives(Dispatch(s, lockFree));
    MainPrimed(s);
    PrimedFrom(s, Choose(s).0, Dispatch(s, lockFree), Dispatch(s, lockFree).curr);
  }

  lemma CurrLives(r: Cpu)
    requires Sys(r)
    ensures r.curr in r.tcb
  {
  }

  lemma MainPrimed(s: Cpu)
    requires Inv(s) && s.main in s.tcb && s.tcb[s.main].status == RUNNING
    ensures Primed(s, s.main)
  {
    MainNotIncoming(s);
  }

  lemma PrimedFrom(s: Cpu, d: Cpu, r: Cpu, t: nat)
    requires t in s.tcb && t in d.tcb && t in r.tcb && r.tcb[t] == d.tcb[t] && Decides(s, d, t)
    ensures r.tcb[t].status == RUNNING <==> Primed(s, t)
  {
  }

  lemma MainNotIncoming(s: Cpu)
    requires Inv(s)
    ensures s.main !in s.incoming
  {
    if s.main in s.incoming {
      LiveOnce(s, s.main);
      HeldInTotal(SpreadOf(s), AtIncoming, s.main);
    }
  }

  lemma SuspendLeavesMain(c: Cpu, delay: nat)
    requires Sys(c) && c.curr != c.main
    requires exists w {:trigger RoomAt(c, w)} :: RoomAt(c, w) && Susp.SuspendFits(c, w, c.curr, delay)
    ensures var s := Susp.Suspend(c, c.curr, delay).0;
            Sys(s) && Room(s) && s.main == c.main
  {
    SuspendEventKeeps(c, c.curr, delay);
    Susp.SuspendTcbs(c, c.curr, delay, c.main);
  }

  /** After a thread suspended itself on its own core, the running thread's status is RUNNING exactly when it is the main
      thread or was primed before the switch: the forced switch does not prime. */
  lemma SelfSuspendRunsIff(c: Cpu, delay: nat, lockFree: bool)
    requires Sys(c) && c.curr != c.main
    requires exists w {:trigger RoomAt(c, w)} :: RoomAt(c, w) && Susp.SuspendFits(c, w, c.curr, delay)
    requires Susp.Suspend(c, c.curr, delay).1
    ensures var (s, r) := (Susp.Suspend(c, c.curr, delay).0, SuspendStep(c, c.curr, delay, true, lockFree));
            r.curr in r.tcb && (r.tcb[r.curr].status == RUNNING <==> r.curr == r.main || Primed(s, r.curr))
  {
    SuspendLeavesMain(c, delay);
    var s := Susp.Suspend(c, c.curr, delay).0;
    DispatchPrimedIff(s, lockFree);
    DispatchJobs(s, lockFree);
    hide Dispatch, Choose, Susp.Suspend;
  }

  /** A thread of a heap that suspends itself for at least one tick gives up its core at once. */
  lemma SelfSuspendYields(c: Cpu, delay: nat, lockFree: bool)
    requires Sys(c) && c.curr != c.main && delay > 0 && Susp.HeapOwned(c.tcb[c.curr])
    requires exists w {:trigger RoomAt(c, w)} :: RoomAt(c, w) && Susp.SuspendFits(c, w, c.curr, delay)
    requires Susp.Suspend(c, c.curr, delay).1
    ensures var r := SuspendStep(c, c.curr, delay, true, lockFree);
            r.curr != c.curr && c.curr in r.tcb && PlaceIn(SpreadOf(r), c.curr) == AtRel
  {
    var w :| RoomAt(c, w) && Susp.SuspendFits(c, w, c.curr, delay);
    Susp.SuspendStopsIff(c, w, c.curr, delay);
    Susp.SuspendTimes(c, w, c.curr, delay);
    SuspendEventKeeps(c, c.curr, delay);
    var s := Susp.Suspend(c, c.curr, delay).0;
    Susp.SuspendTcbs(c, c.curr, delay, c.main);
    assert Asleep(s, c.curr);
    hide Susp.Suspend, Dispatch, Inv, Room, RoomAt, Susp.SuspendFits;
    AsleepNeverRuns(s, lockFree, c.curr);
  }

  /** The switch goes to thread t, and t has not been primed exactly if it was not before. */
  ghost predicate SwitchesTo(s: Cpu, r: Cpu, t: nat) {
    r.curr == t && t in r.tcb && (r.tcb[t].status == RUNNING <==> Primed(s, t))
  }

  /** In terms of the state before the switch: if one contender of the deadline heap has a smaller key than all others,
      the switch goes to it. */
  lemma SwitchToContender(s: Cpu, lockFree: bool, n: Node)
    requires Sys(s) && Room(s) && KeysOk(s) && Contends(s, n)
    requires forall k {:trigger Contends(s, k)} :: Contends(s, k) && k != n ==> OrderKey(s, n) < OrderKey(s, k)
    ensures SwitchesTo(s, Dispatch(s, lockFree), n.thread)
  {
    DispatchPrimedIff(s, lockFree);
    ChoosesLeastKey(s, lockFree);
    hide NextUp, Inv, Room, KeysOk, Contends, OrderKey, Primed;
    NextUpPicks(s, lockFree);
    var r := NextUp(s, lockFree).0;
    var m :| Wins(s, r, m);
    assert m == n;
  }

  /** If the root of the deadline heap is unfinished after admission and release, the switch goes to its thread. */
  lemma SwitchToRoot(s: Cpu, lockFree: bool)
    requires Sys(s) && Room(s)
    requires var b := Prepared(s); b.dead != [] && b.dead[0].thread in b.tcb && b.tcb[b.dead[0].thread].status != FINISHED
    ensures SwitchesTo(s, Dispatch(s, lockFree), Prepared(s).dead[0].thread)
  {
    DispatchPrimedIff(s, lockFree);
    var b := Prepared(s);
    PickSame(b);
    hide Inv, Room, Admit, ReleaseDue, PickDead, SelectLevels, ReapAll, Primed;
    assert SelectDead(b) == (PickDead(b), true);
    assert Choose(s) == (PickDead(b), true);
    DispatchJobs(s, lockFree);
  }

  /** Selecting from the deadline heap does not touch a thread outside it. */
  lemma {:induction false} SelectDeadOutside(c: Cpu, t: nat)
    requires Inv(c) && Room(c) && t in c.tcb && !Holds(c, AtDead, t)
    ensures var d := SelectDead(c).0; t in d.tcb && d.tcb[t] == c.tcb[t]
    decreases FinishedDead(c)
  {
    hide RearmOne, RetireOne, PickDead, Inv, Room, FinishedDead;
    if c.dead != [] {
      PickDeadOk(c);
      var u := c.dead[0].thread;
      if c.tcb[u].status != FINISHED {
        OutsidePick(c, t);
      } else if c.tcb[u].periodicity == PERIODIC {
        RearmOneOk(c);
        OutsideRearm(c, t);
        SelectDeadOutside(RearmOne(c), t);
      } else {
        RetireOneOk(c);
        OutsideRetire(c, t);
        SelectDeadOutside(RetireOne(c), t);
      }
    }
  }

  lemma OutsidePick(c: Cpu, t: nat)
    requires c.dead != [] && c.dead[0].thread in c.tcb && t in c.tcb && !Holds(c, AtDead, t)
    ensures t in PickDead(c).tcb && PickDead(c).tcb[t] == c.tcb[t]
  {
    assert c.dead[0].thread == Threads(c.dead)[0];
  }

  lemma OutsideRearm(c: Cpu, t: nat)
    requires Inv(c) && Room(c) && HeadFinished(c, PERIODIC) && c.tcb[c.dead[0].thread].period > 0
    requires t in c.tcb && !Holds(c, AtDead, t)
    ensures var a := RearmOne(c); t in a.tcb && a.tcb[t] == c.tcb[t] && !Holds(a, AtDead, t)
  {
    assert c.dead[0].thread == Threads(c.dead)[0];
    var a := RearmOne(c);
    if Holds(a, AtDead, t) {
      var n := ThreadsIn(a.dead, t);
      RearmNodes(c, n);
      InThreads(c.dead, n);
    }
  }

  lemma OutsideRetire(c: Cpu, t: nat)
    requires Inv(c) && Room(c) && HeadFinished(c, APERIODIC) && t in c.tcb && !Holds(c, AtDead, t)
    ensures var a := RetireOne(c); t in a.tcb && a.tcb[t] == c.tcb[t] && !Holds(a, AtDead, t)
  {
    assert c.dead[0].thread == Threads(c.dead)[0];
    var a := RetireOne(c);
    if Holds(a, AtDead, t) {
      var n := ThreadsIn(a.dead, t);
      RetireNodes(c, n);
      InThreads(c.dead, n);
    }
  }

  /** No level above p has a thread. */
  predicate Topmost(b: Cpu, p: Priority) {
    Level(b, p) != [] && (p != HIGH_PRIORITY ==> b.high == []) && (p == LOW_PRIORITY ==> b.med == [])
  }

  lemma TopPicked(d: Cpu, p: Priority)
    requires Inv(d) && Room(d) && Topmost(d, p) && Level(d, p)[0] in d.tcb
    requires d.tcb[Level(d, p)[0]].status != FINISHED && !SliceOver(d, p)
    ensures SelectLevels(d) == (PickLevel(d, p), true)
  {
    hide Inv, Room, SelectLevel, PickLevel, SliceOver;
    if p != HIGH_PRIORITY {
      EmptyLevel(d, HIGH_PRIORITY);
      if p == LOW_PRIORITY {
        EmptyLevel(d, MED_PRIORITY);
      }
    }
    LevelPicked(d, p);
  }

  lemma LevelPicked(d: Cpu, p: Priority)
    requires Inv(d) && Room(d) && Level(d, p) != [] && Level(d, p)[0] in d.tcb
    requires d.tcb[Level(d, p)[0]].status != FINISHED && !SliceOver(d, p)
    ensures SelectLevel(d, p) == (PickLevel(d, p), true)
  {
    hide Inv, Room, PickLevel, SliceOver;
  }

  /** If after admission and release nobody in the deadline heap can run, and the head of the highest non-empty level is
      unfinished with time left, the switch goes to it. */
  lemma SwitchToLevelHead(s: Cpu, lockFree: bool, p: Priority)
    requires Sys(s) && Room(s) && Topmost(Prepared(s), p) && !SelectDead(Prepared(s)).1
    requires var (b, t) := (Prepared(s), Level(Prepared(s), p)[0]);
             t in b.tcb && b.tcb[t].status != FINISHED && !SliceOver(b, p)
    ensures SwitchesTo(s, Dispatch(s, lockFree), Level(Prepared(s), p)[0])
  {
    hide Inv, Room, Prepared, SelectDead, PickLevel, Choose, Primed, Dispatch, SliceOver;
    DispatchPrimedIff(s, lockFree);
    DispatchJobs(s, lockFree);
    TopChosen(s, p);
    PickedHead(SelectDead(Prepared(s)).0, p);
  }

  lemma PickedHead(d: Cpu, p: Priority)
    requires Level(d, p) != [] && Level(d, p)[0] in d.tcb
    ensures PickLevel(d, p).curr == Level(d, p)[0]
  {
  }

  lemma TopChosen(s: Cpu, p: Priority)
    requires Inv(s) && Room(s) && Topmost(Prepared(s), p) && !SelectDead(Prepared(s)).1
    requires var (b, t) := (Prepared(s), Level(Prepared(s), p)[0]);
             t in b.tcb && b.tcb[t].status != FINISHED && !SliceOver(b, p)
    ensures var d := SelectDead(Prepared(s)).0;
            && Level(d, p) == Level(Prepared(s), p) && Level(d, p)[0] in d.tcb && Choose(s) == (PickLevel(d, p), true)
  {
    var b := Prepared(s);
    var d := SelectDead(b).0;
    HeadOutside(b, p);
    SelectDeadOutside(b, Level(b, p)[0]);
    hide Inv, Room, Admit, ReleaseDue, SelectDead, SelectLevels, PickLevel;
    assert Level(d, p) == Level(b, p) && d.ticks == b.ticks;
    TopPicked(d, p);
  }

  lemma HeadOutside(b: Cpu, p: Priority)
    requires Inv(b) && Room(b) && Level(b, p) != []
    ensures Level(b, p)[0] in b.tcb && !Holds(b, AtDead, Level(b, p)[0])
  {
    LevelHeadOk(b, p);
    if Holds(b, AtDead, Level(b, p)[0]) {
      OnlyPlace(b, AtLevel(p), AtDead, Level(b, p)[0]);
    }
  }
}
