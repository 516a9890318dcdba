/** Suspension over whole runs. */
module SchedSleep {
  import opened Words
  import opened ThreadTypes
  import opened SchedState
  import opened SchedMoves
  import opened Sched
  import opened SchedLaws
  import opened SchedChoice
  import opened SchedRuns
  import Steps = SchedSteps
  import Susp = SchedSuspend

  /** Thread t is in the release heap and must not run before tick u. */
  ghost predicate SleepsUntil(c: Cpu, t: nat, u: nat) {
    t in c.tcb && t != c.main && PlaceIn(SpreadOf(c), t) == AtRel && c.tcb[t].release >= u
  }

  /** The event ends in a scheduling decision. */
  ghost predicate Decides(c: Cpu, e: Event)
    requires Sys(c)
  {
    match e
    case Tick(_, _, _) => true
    case Exit(_) => true
    case Suspend(t, delay, ownCore, _) => t in c.tcb && t != c.main && ownCore && t == c.curr && Susp.Suspend(c, t, delay).1
    case _ => false
  }

  lemma DispatchTicks(c: Cpu, lockFree: bool)
    requires Inv(c) && Room(c)
    ensures Dispatch(c, lockFree).ticks == c.ticks && Dispatch(c, lockFree).main == c.main
  {
    hide Choose;
  }

  lemma SleepThroughDispatch(c: Cpu, lockFree: bool, t: nat, u: nat)
    requires Inv(c) && Room(c) && SleepsUntil(c, t, u) && c.ticks < u
    ensures var r := Dispatch(c, lockFree); SleepsUntil(r, t, u) && r.curr != t && r.ticks == c.ticks
  {
    hide Dispatch;
    DispatchTicks(c, lockFree);
    AsleepNeverRuns(c, lockFree, t);
  }

  lemma SleepThroughPrime(c: Cpu, t: nat, u: nat)
    requires Sys(c) && SleepsUntil(c, t, u)
    ensures SleepsUntil(Prime(c), t, u) && Prime(c).curr == c.curr && Prime(c).ticks == c.ticks
  {
    assert SpreadOf(Prime(c)) == SpreadOf(c);
  }

  lemma SleepThroughTick(c: Cpu, ci: nat, ti: nat, lockFree: bool, t: nat, u: nat)
    requires Sys(c) && Room(c) && Room(BeforeTick(c, ci, ti)) && SleepsUntil(c, t, u)
    requires c.ticks + 1 < u && c.ticks + 1 < WORD
    ensures var r := TickStep(c, ci, ti, lockFree); SleepsUntil(r, t, u) && r.curr != t && r.ticks == c.ticks + 1
  {
    hide Dispatch;
    hide Choose;
    var b := BeforeTick(c, ci, ti);
    BeforeTickKeeps(c, ci, ti);
    assert SpreadOf(b) == SpreadOf(c);
    SleepThroughDispatch(b, lockFree, t, u);
    DispatchKeeps(b, lockFree);
    SleepThroughPrime(Dispatch(b, lockFree), t, u);
  }

  lemma SleepThroughExit(c: Cpu, lockFree: bool, t: nat, u: nat)
    requires Sys(c) && Room(c) && c.curr != c.main && Room(BeforeExit(c)) && SleepsUntil(c, t, u) && c.ticks < u
    ensures var r := ExitStep(c, lockFree); SleepsUntil(r, t, u) && r.curr != t && r.ticks == c.ticks
  {
    hide Dispatch;
    hide Choose;
    var b := BeforeExit(c);
    BeforeExitKeeps(c);
    assert SpreadOf(b) == SpreadOf(c);
    SleepThroughDispatch(b, lockFree, t, u);
    DispatchKeeps(b, lockFree);
    SleepThroughPrime(Dispatch(b, lockFree), t, u);
  }

  lemma SleepThroughSuspend(c: Cpu, v: nat, delay: nat, t: nat, u: nat)
    requires Sys(c) && SleepsUntil(c, t, u) && v in c.tcb && v != c.main
    requires exists w {:trigger RoomAt(c, w)} :: RoomAt(c, w) && Susp.SuspendFits(c, w, v, delay)
    ensures var r := Susp.Suspend(c, v, delay).0; SleepsUntil(r, t, u) && r.ticks == c.ticks && r.curr == c.curr
  {
    var w :| RoomAt(c, w) && Susp.SuspendFits(c, w, v, delay);
    Susp.SuspendTcbs(c, v, delay, c.main);
    if v != t {
      Susp.SuspendOthers(c, w, v, delay, t);
    } else if Susp.Suspend(c, t, delay).1 {
      assert TagOk(c, t);
      Susp.SuspendStopsIff(c, w, t, delay);
      Susp.SuspendedShape(c, w, t, delay);
    }
  }

  lemma SleepThroughSuspendStep(c: Cpu, v: nat, delay: nat, ownCore: bool, lockFree: bool, t: nat, u: nat)
    requires Sys(c) && SleepsUntil(c, t, u) && v in c.tcb && v != c.main && c.ticks < u
    requires exists w {:trigger RoomAt(c, w)} :: RoomAt(c, w) && Susp.SuspendFits(c, w, v, delay)
    ensures var r := SuspendStep(c, v, delay, ownCore, lockFree);
            && SleepsUntil(r, t, u) && r.ticks == c.ticks
            && (if ownCore && v == c.curr && Susp.Suspend(c, v, delay).1 then r.curr != t else r.curr == c.curr)
  {
    hide Dispatch;
    hide Choose;
    hide Susp.Suspend;
    SuspendEventKeeps(c, v, delay);
    SleepThroughSuspend(c, v, delay, t, u);
    SleepThroughDispatch(Susp.Suspend(c, v, delay).0, lockFree, t, u);
  }

  lemma SleepThroughNew(c: Cpu, v: nat, x: Tcb, t: nat, u: nat)
    requires Sys(c) && SleepsUntil(c, t, u) && v !in c.tcb
    ensures var r := Steps.Pushed(SetTcb(c, v, x), v); SleepsUntil(r, t, u) && r.ticks == c.ticks && r.curr == c.curr
  {
    PushBack(c.incoming, v);
    PutElsewhere(SpreadOf(c), AtIncoming, v, t);
  }

  lemma SleepThroughKill(c: Cpu, v: nat, t: nat, u: nat)
    requires Sys(c) && SleepsUntil(c, t, u) && v in c.tcb
    ensures var r := Steps.Kill(c, v); SleepsUntil(r, t, u) && r.ticks == c.ticks && r.curr == c.curr
  {
    assert SpreadOf(Steps.Kill(c, v)) == SpreadOf(c);
  }

  lemma SleepThroughEnqueue(c: Cpu, v: nat, memory: Tcb, period: nat, periodicity: Periodicity, t: nat, u: nat)
    requires Sys(c) && SleepsUntil(c, t, u) && v !in c.tcb && |c.tcb| <= MAX_THREADS
    requires exists w {:trigger RoomAt(c, w)} :: RoomAt(c, w) && In(w, c.ticks + period)
    ensures var r := EnqueueStep(c, v, memory, period, periodicity);
            SleepsUntil(r, t, u) && r.ticks == c.ticks && r.curr == c.curr
  {
    SleepThroughNew(c, v, memory.(period := period, periodicity := periodicity, owner := INCOMING_THREADS, prevU := 0), t, u);
  }

  lemma SleepThroughEnqueuePersistent(c: Cpu, v: nat, memory: Tcb, priority: Priority, t: nat, u: nat)
    requires Sys(c) && SleepsUntil(c, t, u) && v !in c.tcb && |c.tcb| <= MAX_THREADS
    requires exists w {:trigger RoomAt(c, w)} :: RoomAt(c, w) && In(w, c.ticks + PERSISTENT_SLICE_TICKS)
    ensures var r := EnqueuePersistentStep(c, v, memory, priority);
            SleepsUntil(r, t, u) && r.ticks == c.ticks && r.curr == c.curr
  {
    SleepThroughNew(c, v, memory.(period := PERSISTENT_SLICE_TICKS, landed := 0, periodicity := PERSISTENT,
                                  priority := priority, owner := INCOMING_THREADS, prevU := 0), t, u);
  }

  /** One event keeps a sleeper asleep as long as its tick has not come, and no decision picks it. */
  lemma SleepThroughEvent(c: Cpu, e: Event, t: nat, u: nat)
    requires Sys(c) && Enabled(c, e) && SleepsUntil(c, t, u) && c.ticks < u
    ensures var r := Apply(c, e);
            && c.ticks <= r.ticks
            && (r.ticks < u ==> SleepsUntil(r, t, u) && (if Decides(c, e) then r.curr != t else r.curr == c.curr))
  {
    hide EnqueueStep, EnqueuePersistentStep, SuspendStep, TickStep, ExitStep, SleepsUntil, Inv, Account, Room;
    match e
    case Enqueue(v, memory, period, periodicity) =>
      SleepThroughEnqueue(c, v, memory, period, periodicity, t, u);
    case EnqueuePersistent(v, memory, priority) =>
      SleepThroughEnqueuePersistent(c, v, memory, priority, t, u);
    case Kill(v) =>
      SleepThroughKill(c, v, t, u);
    case Suspend(v, delay, ownCore, lockFree) =>
      SleepThroughSuspendStep(c, v, delay, ownCore, lockFree, t, u);
    case Tick(ci, ti, lockFree) =>
      TickTicks(c, ci, ti, lockFree);
      if c.ticks + 1 < u {
        SleepThroughTick(c, ci, ti, lockFree, t, u);
      }
    case Exit(lockFree) =>
      SleepThroughExit(c, lockFree, t, u);
  }

  lemma TickTicks(c: Cpu, ci: nat, ti: nat, lockFree: bool)
    requires Sys(c) && Room(c) && Room(BeforeTick(c, ci, ti)) && c.ticks + 1 < WORD
    ensures TickStep(c, ci, ti, lockFree).ticks == c.ticks + 1
  {
    hide Dispatch;
    BeforeTickKeeps(c, ci, ti);
    DispatchTicks(BeforeTick(c, ci, ti), lockFree);
    DispatchKeeps(BeforeTick(c, ci, ti), lockFree);
  }

  /** Some event of the run ends in a scheduling decision. */
  ghost predicate EverDecides(c: Cpu, es: seq<Event>)
    requires Sys(c) && Runs(c, es)
    decreases |es|
  {
    es != [] && (Decides(c, es[0]) || EverDecides(Apply(c, es[0]), es[1..]))
  }

  lemma {:induction false} TicksGrow(c: Cpu, es: seq<Event>)
    requires Sys(c) && Runs(c, es)
    ensures c.ticks <= Run(c, es).ticks
    decreases |es|
  {
    if es != [] {
      EventTicks(c, es[0]);
      TicksGrow(Apply(c, es[0]), es[1..]);
    }
  }

  lemma SuspendStepTicks(c: Cpu, v: nat, delay: nat, ownCore: bool, lockFree: bool)
    requires Sys(c) && v in c.tcb && v != c.main
    requires exists w {:trigger RoomAt(c, w)} :: RoomAt(c, w) && Susp.SuspendFits(c, w, v, delay)
    ensures SuspendStep(c, v, delay, ownCore, lockFree).ticks == c.ticks
  {
    SuspendEventKeeps(c, v, delay);
    Susp.SuspendTcbs(c, v, delay, c.main);
    hide Dispatch, Susp.Suspend;
    DispatchTicks(Susp.Suspend(c, v, delay).0, lockFree);
  }

  lemma ExitTicks(c: Cpu, lockFree: bool)
    requires Sys(c) && c.curr != c.main && Room(BeforeExit(c))
    ensures ExitStep(c, lockFree).ticks == c.ticks
  {
    hide Dispatch;
    BeforeExitKeeps(c);
    DispatchKeeps(BeforeExit(c), lockFree);
    DispatchTicks(BeforeExit(c), lockFree);
  }

  lemma EventTicks(c: Cpu, e: Event)
    requires Sys(c) && Enabled(c, e)
    ensures c.ticks <= Apply(c, e).ticks
  {
    hide EnqueueStep, EnqueuePersistentStep, SuspendStep, TickStep, ExitStep;
    match e
    case Enqueue(_, _, _, _) =>
    case EnqueuePersistent(_, _, _) =>
    case Kill(_) =>
    case Suspend(v, delay, ownCore, lockFree) =>
      SuspendStepTicks(c, v, delay, ownCore, lockFree);
    case Tick(ci, ti, lockFree) =>
      TickTicks(c, ci, ti, lockFree);
    case Exit(lockFree) =>
      ExitTicks(c, lockFree);
  }

  /** Suspension safety: once a heap-owned thread was suspended until tick u, over every run that stays below u it
      stays in the release heap, and after the first scheduling decision it is not the running thread. */
  lemma {:induction false} SleepThroughRun(c: Cpu, es: seq<Event>, t: nat, u: nat)
    requires Sys(c) && Runs(c, es) && SleepsUntil(c, t, u)
    requires Run(c, es).ticks < u
    ensures SleepsUntil(Run(c, es), t, u)
    ensures c.curr != t || EverDecides(c, es) ==> Run(c, es).curr != t
    decreases |es|
  {
    if es != [] {
      var d := Apply(c, es[0]);
      TicksGrow(d, es[1..]);
      EventTicks(c, es[0]);
      SleepThroughEvent(c, es[0], t, u);
      SleepThroughRun(d, es[1..], t, u);
    }
  }

  /** From a successful suspend_thread(t, delay) at tick T, no run of later events that stays below T + delay has t
      chosen, provided t was in one of the heaps. */
  lemma SuspensionSafety(c: Cpu, w: nat, t: nat, delay: nat, es: seq<Event>)
    requires Sys(c) && RoomAt(c, w) && t in c.tcb && t != c.main && Susp.SuspendFits(c, w, t, delay)
    requires Susp.Suspend(c, t, delay).1 && Susp.HeapOwned(c.tcb[t])
    ensures var r := Susp.Suspend(c, t, delay).0;
            && Sys(r)
            && (Runs(r, es) && Run(r, es).ticks < c.ticks + delay ==>
                  SleepsUntil(Run(r, es), t, c.ticks + delay)
                  && (EverDecides(r, es) ==> Run(r, es).curr != t))
  {
    SuspendEventKeeps(c, t, delay);
    Susp.SuspendStopsIff(c, w, t, delay);
    Susp.SuspendTcbs(c, t, delay, c.main);
    var r := Susp.Suspend(c, t, delay).0;
    if Runs(r, es) && Run(r, es).ticks < c.ticks + delay {
      SleepThroughRun(r, es, t, c.ticks + delay);
    }
  }
}
