/** A run in which a stale node makes a decision pass over the earliest deadline. */
module SchedLateRun {
  import opened Words
  import opened Wrapped
  import opened ThreadTypes
  import opened HeapOps
  import opened Rearm
  import opened SchedState
  import opened Sched
  import opened SchedChoice
  import Steps = SchedSteps
  import opened SchedRuns
  import opened SchedInputs

  lemma {:induction false} NoUtilization(s: set<nat>, m: map<nat, Tcb>)
    requires s <= m.Keys && forall t :: t in s ==> m[t].prevU == 0
    ensures SumU(s, m) == 0
    decreases s
  {
    if s != {} {
      var t :| t in s;
      SumURemove(s, m, t);
      NoUtilization(s - {t}, m);
    }
  }

  /** A small state in which nothing has been accounted yet. */
  lemma SmallSys(c: Cpu, others: set<nat>)
    requires c.main == 1 && c.tcb.Keys == {1} + others && others <= {2, 3} && Total(SpreadOf(c)) == multiset(others)
    requires forall t :: t in others ==> TagOk(c, t) && RoomFor(c, 0, t)
    requires HeapOrder(c.dead) && HeapOrder(c.rel) && Fits(0, c.dead) && Fits(0, c.rel) && c.ticks < HALF
    requires c.tcb[1] == Idle() && c.curr in c.tcb && c.utilization == 0 && forall t :: t in c.tcb ==> c.tcb[t].prevU == 0
    ensures Sys(c) && Inv(c) && RoomAt(c, 0) && Room(c)
  {
    SmallState(c, others);
    NoUtilization(Workers(c), c.tcb);
    hide Inv, TagOk, RoomFor, Total, SpreadOf, RoomAt;
  }

  /** Thread 2, periodic with period 3. */
  function Job(status: Status, release: nat, deadline: nat, dirty: bool): Tcb {
    Tcb(status, PERIODIC, LOW_PRIORITY, DEAD_HEAP, 3, release, deadline, 0, dirty, 0)
  }

  /** Thread 2 is alone in the deadline heap. */
  function Alone(ticks: nat, x: Tcb, order: nat, curr: nat, missed: nat): Cpu {
    Cpu(ticks, map[1 := Idle(), 2 := x], [], [], [], [], [], [Node(order, 2)], [], curr, 1, missed, 0)
  }

  lemma AloneTags(c: Cpu, ticks: nat, x: Tcb, order: nat, curr: nat, missed: nat)
    requires c == Alone(ticks, x, order, curr, missed) && x == Job(x.status, x.release, x.deadline, x.dirty)
    requires x.release < x.deadline < 100 && ticks < 100
    ensures TagOk(c, 2) && RoomFor(c, 0, 2) && Total(SpreadOf(c)) == multiset({2})
  {
    assert Threads(c.dead) == [2] && Threads(c.rel) == [];
    assert multiset([2]) == multiset({2});
    assert PlaceIn(SpreadOf(c), 2) == AtDead;
  }

  lemma AloneSys(c: Cpu, ticks: nat, x: Tcb, order: nat, curr: nat, missed: nat)
    requires c == Alone(ticks, x, order, curr, missed) && x == Job(x.status, x.release, x.deadline, x.dirty)
    requires x.release < x.deadline < 100 && ticks < 100 && order < 100 && (curr == 1 || curr == 2)
    ensures Sys(c) && Inv(c) && RoomAt(c, 0) && Room(c)
  {
    hide TagOk, RoomFor, Total, SpreadOf, Sys, RoomAt, Room, HeapOrder, Fits;
    AloneTags(c, ticks, x, order, curr, missed);
    SmallHeap(c.dead);
    SmallHeap(c.rel);
    SmallSys(c, {2});
  }

  /** Event e leads from c to d. */
  ghost predicate StepsTo(c: Cpu, e: Event, d: Cpu) {
    Sys(c) && Enabled(c, e) && Apply(c, e) == d
  }

  /** A tick at which the averages are empty starts its decision one tick later. */
  lemma EmptyTick(c: Cpu)
    requires c.curr in c.tcb && c.ticks + 1 < WORD
    ensures BeforeTick(c, 0, 0) == c.(ticks := c.ticks + 1)
  {
  }

  /** A decision whose selection loop finds a thread and retires none. */
  lemma DispatchFound(b: Cpu, a: Cpu, d: Cpu, lockFree: bool)
    requires Inv(b) && Room(b) && a == Prepared(b) && SelectDead(a) == (d, true) && d.outgoing == []
    ensures Dispatch(b, lockFree) == d
  {
    hide SelectDead, Admit, ReleaseDue, SelectLevels, Inv, Room;
  }

  lemma TickApplies(c: Cpu, lockFree: bool)
    requires Sys(c) && Room(c) && Room(c.(ticks := c.ticks + 1)) && c.ticks + 1 < WORD
    ensures var b := c.(ticks := c.ticks + 1);
            && Enabled(c, Tick(0, 0, lockFree)) && Inv(b) && Dispatch(b, lockFree).curr in Dispatch(b, lockFree).tcb
            && Apply(c, Tick(0, 0, lockFree)) == Prime(Dispatch(b, lockFree))
  {
    hide Inv, Room, Account, Dispatch, BeforeTick, Prime;
    EmptyTick(c);
    BeforeTickKeeps(c, 0, 0);
    DispatchKeeps(BeforeTick(c, 0, 0), lockFree);
  }

  /** A tick of a thread that is alone. */
  lemma AloneTick(ticks: nat, x: Tcb, order: nat, missed: nat, lockFree: bool)
    requires x == Job(RUNNING, x.release, x.deadline, x.dirty) && x.release < x.deadline < 90 && ticks < 90
    requires order < 100 && missed < 100
    ensures StepsTo(Alone(ticks, x, order, 2, missed), Tick(0, 0, lockFree), PickDead(Alone(ticks + 1, x, order, 2, missed)))
  {
    hide Sys, Inv, Room, RoomAt, Enabled, Apply, StepsTo, Dispatch, SelectDead, Admit, ReleaseDue, PickDead, HeadDue;
    var c, b := Alone(ticks, x, order, 2, missed), Alone(ticks + 1, x, order, 2, missed);
    AloneSys(c, ticks, x, order, 2, missed);
    AloneSys(b, ticks + 1, x, order, 2, missed);
    LatePick(ticks + 1, x, order, 2, missed);
    QuietTick(c, b, lockFree);
  }

  /** A tick whose decision admits and releases nobody and finds an unfinished root. */
  lemma QuietTick(c: Cpu, b: Cpu, lockFree: bool)
    requires Sys(c) && Room(c) && c.ticks + 1 < WORD && b == c.(ticks := c.ticks + 1) && Inv(b) && Room(b)
    requires b.incoming == [] && b.rel == [] && b.outgoing == []
    requires b.dead != [] && b.dead[0].thread in b.tcb && b.tcb[b.dead[0].thread].status != FINISHED
    ensures PickDead(b).curr in PickDead(b).tcb && StepsTo(c, Tick(0, 0, lockFree), Prime(PickDead(b)))
  {
    hide Sys, Inv, Room, RoomAt, Enabled, Apply, Dispatch, SelectDead, Admit, ReleaseDue, Prime;
    TickApplies(c, lockFree);
    PicksFrom(b);
    NobodyComes(b);
    DispatchFound(b, b, PickDead(b), lockFree);
  }

  lemma NobodyComes(b: Cpu)
    requires Inv(b) && Room(b) && b.incoming == [] && b.rel == []
    ensures Prepared(b) == b
  {
  }

  /** A periodic thread is admitted, runs past its deadline, exits late and is re-armed alone; then a thread with an
      earlier deadline arrives. */
  function LateRun(lockFree: bool): seq<Event> {
    [Enqueue(2, Idle(), 3, PERIODIC), Tick(0, 0, lockFree), Tick(0, 0, lockFree), Tick(0, 0, lockFree), Tick(0, 0, lockFree),
     Exit(lockFree), Enqueue(3, Idle(), 1, APERIODIC), Tick(0, 0, lockFree)]
  }

  /** The states the run goes through. */
  function LateState(i: nat): Cpu
    requires i <= 8
  {
    if i == 0 then InitCpu(1, Idle())
    else if i == 1 then
      Cpu(0, map[1 := Idle(), 2 := Job(RUNNING, 0, 0, false).(owner := INCOMING_THREADS)], [2], [], [], [], [], [], [], 1, 1, 0, 0)
    else if i <= 4 then Alone(i - 1, Job(RUNNING, 1, 4, false), 4, 2, 0)
    else if i == 5 then Alone(4, Job(RUNNING, 1, 4, true), 4, 2, 1)
    else if i == 6 then Alone(4, Job(RUNNING, 4, 7, false), 4, 2, 1)
    else if i == 7 then
      Cpu(4, map[1 := Idle(), 2 := Job(RUNNING, 4, 7, false), 3 := Short(RUNNING, INCOMING_THREADS, 0, 0)],
          [3], [], [], [], [], [Node(4, 2)], [], 2, 1, 1, 0)
    else
      Cpu(5, map[1 := Idle(), 2 := Job(RUNNING, 4, 7, false), 3 := Short(PENDING, DEAD_HEAP, 5, 6)],
          [], [], [], [], [], [Node(4, 2), Node(6, 3)], [], 2, 1, 1, 0)
  }

  /** Thread 3, which runs once, within one tick. */
  function Short(status: Status, owner: Owner, release: nat, deadline: nat): Tcb {
    Tcb(status, APERIODIC, LOW_PRIORITY, owner, 1, release, deadline, 0, false, 0)
  }

  lemma LateStep0(lockFree: bool)
    ensures StepsTo(LateState(0), LateRun(lockFree)[0], LateState(1))
  {
    var c := LateState(0);
    InitSys(1, Idle());
    SmallHeap([]);
    assert Threads([]) == [];
    assert Total(SpreadOf(c)) == multiset({});
    SmallSys(c, {});
    assert RoomAt(c, 0) && In(0, c.ticks + 3);
  }

  /** State 1 while the counter says 0 or 1. */
  lemma ArrivedTags(c: Cpu)
    requires c == LateState(1).(ticks := c.ticks) && c.ticks <= 1
    ensures TagOk(c, 2) && RoomFor(c, 0, 2) && Total(SpreadOf(c)) == multiset({2})
  {
    assert Threads([]) == [];
    assert multiset([2]) == multiset({2});
  }

  lemma ArrivedSys(c: Cpu)
    requires c == LateState(1).(ticks := c.ticks) && c.ticks <= 1
    ensures Sys(c) && Inv(c) && Room(c)
  {
    hide TagOk, RoomFor, Total, SpreadOf, Sys, RoomAt, Room, HeapOrder, Fits, Inv;
    ArrivedTags(c);
    SmallHeap([]);
    SmallSys(c, {2});
  }

  /** Thread 2 is admitted and runs. */
  lemma LateStep1(lockFree: bool)
    ensures StepsTo(LateState(1), LateRun(lockFree)[1], LateState(2))
  {
    hide Sys, Inv, Room, RoomAt, Enabled, Apply, StepsTo, PickDead, Prime, AdmitOne;
    var x := Job(PENDING, 1, 4, false);
    var c, a := LateState(1), Alone(1, x, 4, 1, 0);
    ArrivedSys(c);
    ArrivedSys(c.(ticks := 1));
    AdmitsTwo();
    AloneSys(a, 1, x, 4, 1, 0);
    LatePick(1, x, 4, 1, 0);
    TickAdmits(c, a, lockFree);
  }

  /** A tick whose decision admits one newcomer, releases nobody and finds an unfinished root. */
  lemma TickAdmits(c: Cpu, a: Cpu, lockFree: bool)
    requires Sys(c) && Room(c) && c.ticks + 1 < WORD && Inv(c.(ticks := c.ticks + 1)) && Room(c.(ticks := c.ticks + 1))
    requires |c.incoming| == 1 && c.incoming[0] in c.tcb && a == AdmitOne(c.(ticks := c.ticks + 1))
    requires Inv(a) && Room(a) && a.incoming == [] && a.rel == [] && a.outgoing == []
    requires a.dead != [] && a.dead[0].thread in a.tcb && a.tcb[a.dead[0].thread].status != FINISHED
    ensures PickDead(a).curr in PickDead(a).tcb && StepsTo(c, Tick(0, 0, lockFree), Prime(PickDead(a)))
  {
    hide Sys, Inv, Room, RoomAt, Enabled, Apply, Dispatch, SelectDead, AdmitOne, Admit, ReleaseDue, Prime;
    TickApplies(c, lockFree);
    PicksFrom(a);
    AdmitsOnly(c.(ticks := c.ticks + 1), a);
    DispatchFound(c.(ticks := c.ticks + 1), a, PickDead(a), lockFree);
  }

  lemma AdmitsTwo()
    ensures AdmitOne(LateState(1).(ticks := 1)) == Alone(1, Job(PENDING, 1, 4, false), 4, 1, 0)
  {
    assert PercolateUp([] + [Node(4, 2)], 0) == [Node(4, 2)];
  }

  lemma AdmitsOnly(b: Cpu, a: Cpu)
    requires Inv(b) && Room(b) && Inv(a) && Room(a) && |b.incoming| == 1 && b.incoming[0] in b.tcb && a == AdmitOne(b)
    requires a.incoming == [] && a.rel == []
    ensures Prepared(b) == a
  {
    hide AdmitOne, Inv, Room;
    assert Admit(a) == a;
  }

  /** What choosing thread 2 and priming it does. */
  lemma LatePick(ticks: nat, x: Tcb, order: nat, curr: nat, missed: nat)
    requires x == Job(x.status, x.release, x.deadline, x.dirty) && x.deadline < 100 && ticks < 100 && missed < 100
    ensures var (d, late) := (PickDead(Alone(ticks, x, order, curr, missed)), x.deadline <= ticks && !x.dirty);
            && d == Alone(ticks, x.(dirty := x.dirty || late), order, 2, if late then missed + 1 else missed)
            && (x.status == RUNNING ==> Prime(d) == d)
            && (x.status == PENDING ==>
                  Prime(d) == Alone(ticks, x.(status := RUNNING, dirty := x.dirty || late), order, 2, if late then missed + 1 else missed))
  {
    PlainOrder(0, ticks, x.deadline) by {
      KeyIs(0, ticks);
      KeyIs(0, x.deadline);
    }
  }

  /** It runs on, at last past its deadline. */
  lemma LateStep2(lockFree: bool, i: nat)
    requires 2 <= i <= 4
    ensures StepsTo(LateState(i), LateRun(lockFree)[i], LateState(i + 1))
  {
    AloneTick(i - 1, Job(RUNNING, 1, 4, false), 4, 0, lockFree);
    LatePick(i, Job(RUNNING, 1, 4, false), 4, 2, 0);
    hide StepsTo, PickDead;
  }

  lemma ExitApplies(c: Cpu, lockFree: bool)
    requires Sys(c) && Room(c) && c.curr != c.main && Room(BeforeExit(c))
    ensures var b := BeforeExit(c);
            && Enabled(c, Exit(lockFree)) && Inv(b) && Dispatch(b, lockFree).curr in Dispatch(b, lockFree).tcb
            && Apply(c, Exit(lockFree)) == Prime(Dispatch(b, lockFree))
  {
    hide Inv, Room, Account, Dispatch, BeforeExit, Prime;
    BeforeExitKeeps(c);
    ExitMain(c);
    DispatchKeeps(BeforeExit(c), lockFree);
  }

  lemma RearmsAlone()
    ensures var b := Alone(4, Job(FINISHED, 1, 4, true), 4, 2, 1);
            HeadFinished(b, PERIODIC) && RearmOne(b) == Alone(4, Job(PENDING, 4, 7, false), 4, 2, 1)
  {
    assert NextDeadline(4, 3, 4) == 7 && NextRelease(1, 3, 7) == 4;
    KeyIs(4, 4);
  }

  lemma SelectsRearmed(b: Cpu, a: Cpu)
    requires Inv(b) && Room(b) && HeadFinished(b, PERIODIC) && b.tcb[b.dead[0].thread].period > 0 && a == RearmOne(b)
    requires Inv(a) && Room(a) && a.dead != [] && a.dead[0].thread in a.tcb && a.tcb[a.dead[0].thread].status != FINISHED
    ensures SelectDead(b) == (PickDead(a), true)
  {
    hide RearmOne, PickDead, Inv, Room;
    assert SelectDead(a) == (PickDead(a), true);
  }

  /** An exit after which the thread is re-armed and chosen again. */
  lemma ExitRearms(c: Cpu, b: Cpu, a: Cpu, lockFree: bool)
    requires Sys(c) && Room(c) && c.curr != c.main && b == BeforeExit(c) && Inv(b) && Room(b) && b.incoming == [] && b.rel == []
    requires HeadFinished(b, PERIODIC) && b.tcb[b.dead[0].thread].period > 0 && a == RearmOne(b) && Inv(a) && Room(a)
    requires a.dead != [] && a.dead[0].thread in a.tcb && a.tcb[a.dead[0].thread].status != FINISHED && a.outgoing == []
    ensures PickDead(a).curr in PickDead(a).tcb && StepsTo(c, Exit(lockFree), Prime(PickDead(a)))
  {
    hide Sys, Inv, Room, RoomAt, Enabled, Apply, Dispatch, SelectDead, RearmOne, BeforeExit, Admit, ReleaseDue, Prime;
    ExitApplies(c, lockFree);
    NobodyComes(b);
    SelectsRearmed(b, a);
    DispatchFound(b, b, PickDead(a), lockFree);
  }

  /** It exits, is re-armed alone in the heap, and is chosen again. */
  lemma LateStep5(lockFree: bool)
    ensures StepsTo(LateState(5), LateRun(lockFree)[5], LateState(6))
  {
    var x := Job(PENDING, 4, 7, false);
    var c, b, a := LateState(5), Alone(4, Job(FINISHED, 1, 4, true), 4, 2, 1), Alone(4, x, 4, 2, 1);
    AloneSys(c, 4, Job(RUNNING, 1, 4, true), 4, 2, 1);
    AloneSys(b, 4, Job(FINISHED, 1, 4, true), 4, 2, 1);
    AloneSys(a, 4, x, 4, 2, 1);
    assert BeforeExit(c) == b;
    RearmsAlone();
    LatePick(4, x, 4, 2, 1);
    ExitRearms(c, b, a, lockFree);
    hide Sys, Inv, Room, RoomAt, Enabled, Apply, PickDead, Prime, BeforeExit, RearmOne;
  }

  /** An arrival in the first of its ticks. */
  lemma ArrivalApplies(c: Cpu, t: nat, memory: Tcb, period: nat, k: Periodicity)
    requires Sys(c) && RoomAt(c, 0) && t !in c.tcb && |c.tcb| <= MAX_THREADS && c.ticks + period < HALF
    ensures StepsTo(c, Enqueue(t, memory, period, k), Steps.Enqueue(c, t, memory, period, k).0)
  {
    assert Room(c) && In(0, c.ticks + period);
    hide Sys, Room, RoomAt, Steps.Enqueue;
  }

  lemma LateStep6(lockFree: bool)
    ensures StepsTo(LateState(6), LateRun(lockFree)[6], LateState(7))
  {
    hide Sys, RoomAt, Room, StepsTo, Inv;
    var c := LateState(6);
    AloneSys(c, 4, Job(RUNNING, 4, 7, false), 4, 2, 1);
    ArrivalApplies(c, 3, Idle(), 1, APERIODIC);
    assert LateRun(lockFree)[6] == Enqueue(3, Idle(), 1, APERIODIC);
    assert Steps.Enqueue(c, 3, Idle(), 1, APERIODIC).0.tcb == LateState(7).tcb;
    assert Steps.Enqueue(c, 3, Idle(), 1, APERIODIC).0 == LateState(7);
  }

  /** State 7 while the counter says 4 or 5. */
  lemma BehindTags(c: Cpu, t: nat)
    requires c == LateState(7).(ticks := c.ticks) && c.ticks <= 5 && (t == 2 || t == 3)
    ensures TagOk(c, t) && RoomFor(c, 0, t) && Total(SpreadOf(c)) == multiset({2, 3})
  {
    assert Threads(c.dead) == [2] && Threads(c.rel) == [];
    assert multiset([3]) + multiset([2]) == multiset({2, 3});
  }

  lemma BehindSys(c: Cpu)
    requires c == LateState(7).(ticks := c.ticks) && c.ticks <= 5
    ensures Sys(c) && Inv(c) && Room(c)
  {
    hide TagOk, RoomFor, Total, SpreadOf, Sys, RoomAt, Room, HeapOrder, Fits, Inv;
    BehindTags(c, 2);
    BehindTags(c, 3);
    SmallHeap(c.dead);
    SmallHeap([]);
    SmallSys(c, {2, 3});
  }

  /** The state after the admission of thread 3. */
  function BothIn(curr: nat): Cpu {
    Cpu(5, map[1 := Idle(), 2 := Job(RUNNING, 4, 7, false), 3 := Short(PENDING, DEAD_HEAP, 5, 6)],
        [], [], [], [], [], [Node(4, 2), Node(6, 3)], [], curr, 1, 1, 0)
  }

  lemma AdmitsThree()
    ensures AdmitOne(LateState(7).(ticks := 5)) == BothIn(2)
    ensures PickDead(BothIn(2)) == BothIn(2) && Prime(BothIn(2)) == BothIn(2)
  {
    KeyIs(4, 6);
    KeyIs(7, 5);
    assert PercolateUp([Node(4, 2)] + [Node(6, 3)], 1) == [Node(4, 2), Node(6, 3)];
  }

  /** Thread 3 is admitted, and thread 2 chosen. */
  lemma LateStep7(lockFree: bool)
    ensures StepsTo(LateState(7), LateRun(lockFree)[7], LateState(8))
  {
    hide Sys, Inv, Room, RoomAt, Enabled, Apply, StepsTo, AdmitOne, PickDead, Prime;
    var c, a := LateState(7), BothIn(2);
    BehindSys(c);
    BehindSys(c.(ticks := 5));
    AdmitsThree();
    AdmitsFrom(c.(ticks := 5));
    TickAdmits(c, a, lockFree);
  }

  lemma AdmitsFrom(b: Cpu)
    requires Inv(b) && Room(b) && b.incoming != []
    ensures b.incoming[0] in b.tcb && Inv(AdmitOne(b)) && Room(AdmitOne(b))
  {
    AdmitOneOk(b);
  }

  lemma PicksFrom(a: Cpu)
    requires Inv(a) && Room(a) && a.rel == []
    requires a.dead != [] && a.dead[0].thread in a.tcb && a.tcb[a.dead[0].thread].status != FINISHED
    ensures SelectDead(a) == (PickDead(a), true)
  {
    PicksHead(a);
  }

  lemma RunStep(c: Cpu, e: Event, d: Cpu, es: seq<Event>)
    requires StepsTo(c, e, d) && Sys(d) && Runs(d, es)
    ensures Runs(c, [e] + es) && Run(c, [e] + es) == Run(d, es)
  {
    assert ([e] + es)[1..] == es;
  }

  lemma LateStep(lockFree: bool, i: nat)
    requires i < 8
    ensures StepsTo(LateState(i), LateRun(lockFree)[i], LateState(i + 1))
  {
    hide StepsTo;
    if i == 0 {
      LateStep0(lockFree);
    } else if i == 1 {
      LateStep1(lockFree);
    } else if i <= 4 {
      LateStep2(lockFree, i);
    } else if i == 5 {
      LateStep5(lockFree);
    } else if i == 6 {
      LateStep6(lockFree);
    } else {
      LateStep7(lockFree);
    }
  }

  lemma {:induction false} LateRuns(lockFree: bool, i: nat)
    requires i <= 8
    ensures Sys(LateState(i)) && Runs(LateState(i), LateRun(lockFree)[i..])
    ensures Run(LateState(i), LateRun(lockFree)[i..]) == LateState(8)
    decreases 8 - i
  {
    hide LateState, Runs, Run, Sys, Enabled, Apply;
    if i == 8 {
      LateStep(lockFree, 7);
      assert Sys(LateState(8)) by { ApplySys(LateState(7), LateRun(lockFree)[7]); }
      assert LateRun(lockFree)[8..] == [];
      NoEvents(LateState(8));
    } else {
      LateStep(lockFree, i);
      LateRuns(lockFree, i + 1);
      assert LateRun(lockFree)[i..] == [LateRun(lockFree)[i]] + LateRun(lockFree)[i + 1..];
      RunStep(LateState(i), LateRun(lockFree)[i], LateState(i + 1), LateRun(lockFree)[i + 1..]);
    }
  }

  lemma ApplySys(c: Cpu, e: Event)
    requires Sys(c) && Enabled(c, e)
    ensures Sys(Apply(c, e))
  {
  }

  lemma NoEvents(c: Cpu)
    requires Sys(c)
    ensures Runs(c, []) && Run(c, []) == c
  {
  }

  lemma LateEnds()
    ensures LateState(0) == InitCpu(1, Idle())
    ensures var r := LateState(8);
            && r.curr == 2 && 2 in r.tcb && 3 in r.tcb && r.tcb[2].deadline == 7 && r.tcb[3].deadline == 6
            && r.tcb[3].status == PENDING && r.dead == [Node(4, 2), Node(6, 3)] && r.ticks == 5
  {
  }

  /** A run from initialization after which the thread due at 7 runs although one is due at 6. */
  lemma ChoosesLaterDeadline(lockFree: bool)
    ensures Sys(InitCpu(1, Idle())) && Runs(InitCpu(1, Idle()), LateRun(lockFree))
    ensures var r := Run(InitCpu(1, Idle()), LateRun(lockFree));
            && r.curr == 2 && 2 in r.tcb && 3 in r.tcb && r.tcb[2].deadline == 7 && r.tcb[3].deadline == 6
            && r.tcb[3].status == PENDING && r.dead == [Node(4, 2), Node(6, 3)] && r.ticks == 5
  {
    hide Runs, Run, Sys, LateState, LateRun, InitCpu;
    LateEnds();
    LateRuns(lockFree, 0);
    assert LateRun(lockFree)[0..] == LateRun(lockFree);
  }
}
