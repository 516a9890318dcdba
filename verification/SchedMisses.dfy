/** Missed deadlines over runs: a job's miss is counted at most once. */
module SchedMisses {
  import opened Words
  import opened Wrapped
  import opened ThreadTypes
  import opened SchedState
  import opened Sched
  import opened SchedChoice
  import Steps = SchedSteps
  import Susp = SchedSuspend
  import opened SchedRuns
  import opened SchedJobs

  // ---------------------------------------------------------------- one event

  /** The event makes a scheduling decision. */
  ghost predicate Decision(c: Cpu, e: Event)
    requires Sys(c) && Enabled(c, e)
  {
    match e
    case Tick(_, _, _) => true
    case Exit(_) => true
    case Suspend(t, delay, ownCore, _) => Susp.Suspend(c, t, delay).1 && ownCore && t == c.curr
    case _ => false
  }

  /** The state that decision starts from. */
  ghost function Before(c: Cpu, e: Event): (b: Cpu)
    requires Sys(c) && Enabled(c, e) && Decision(c, e)
    ensures Inv(b) && Room(b)
  {
    match e
    case Tick(ci, ti, _) =>
      BeforeTickKeeps(c, ci, ti);
      BeforeTick(c, ci, ti)
    case Exit(_) =>
      BeforeExitKeeps(c);
      BeforeExit(c)
    case Suspend(t, delay, _, _) =>
      SuspendEventKeeps(c, t, delay);
      Susp.Suspend(c, t, delay).0
  }

  lemma Decided(c: Cpu, e: Event)
    requires Sys(c) && Enabled(c, e) && Decision(c, e)
    ensures var d := Dispatch(Before(c, e), e.lockFree);
            Apply(c, e) == if e.Suspend? then d else if d.curr in d.tcb then Prime(d) else d
  {
    hide Dispatch, BeforeTick, Susp.Suspend, Inv, Room;
    match e
    case Tick(ci, ti, lockFree) =>
      BeforeTickKeeps(c, ci, ti);
      DispatchKeeps(BeforeTick(c, ci, ti), lockFree);
    case Exit(lockFree) =>
      BeforeExitKeeps(c);
      DispatchKeeps(BeforeExit(c), lockFree);
    case _ =>
  }

  /** Thread t's job has no miss noted. */
  function Clean(c: Cpu, t: nat): nat {
    if t in c.tcb && t !in c.incoming && !c.tcb[t].dirty then 1 else 0
  }

  /** Whether the event counts a missed deadline of thread t. */
  ghost function MissOf(c: Cpu, e: Event, t: nat): nat
    requires Sys(c) && Enabled(c, e)
  {
    if Decision(c, e) && Counts(Before(c, e), Choose(Before(c, e)).0) && Choose(Before(c, e)).0.curr == t then 1 else 0
  }

  /** Whether a job of thread t begins in the event: t is admitted or re-armed. */
  ghost function BeginOf(c: Cpu, e: Event, t: nat): nat
    requires Sys(c) && Enabled(c, e)
  {
    if Decision(c, e) && t in Before(c, e).tcb
       && (t in Before(c, e).incoming || Rearms(Before(c, e).tcb[t], Choose(Before(c, e)).0.tcb[t])) then 1 else 0
  }

  lemma DecisionCount(b: Cpu, d: Cpu, r: Cpu, t: nat)
    requires d.tcb.Keys == b.tcb.Keys && (t in b.tcb ==> Decides(b, d, t))
    requires t in r.tcb ==> t in d.tcb && r.tcb[t] == d.tcb[t]
    ensures var begins := t in b.tcb && (t in b.incoming || Rearms(b.tcb[t], d.tcb[t]));
            (if Counts(b, d) && d.curr == t then 1 else 0) + Clean(r, t) <= (if begins then 1 else 0) + Clean(b, t)
  {
  }

  lemma DecisionMisses(b: Cpu, lockFree: bool, t: nat)
    requires Inv(b) && Room(b)
    ensures var (d, r) := (Choose(b).0, Dispatch(b, lockFree));
            var begins := t in b.tcb && (t in b.incoming || Rearms(b.tcb[t], d.tcb[t]));
            (if Counts(b, d) && d.curr == t then 1 else 0) + Clean(r, t) <= (if begins then 1 else 0) + Clean(b, t)
    ensures Dispatch(b, lockFree).missed == if Counts(b, Choose(b).0) then Add32(b.missed, 1) else b.missed
  {
    hide Choose, Dispatch, Inv, Room, Decides, Counts, Clean, Rearms;
    ChooseJobs(b);
    DispatchJobs(b, lockFree);
    DecisionCount(b, Choose(b).0, Dispatch(b, lockFree), t);
  }

  /** Up to the decision, and after it, flags and count stay. */
  lemma BeforeClean(c: Cpu, e: Event, t: nat)
    requires Sys(c) && Enabled(c, e) && Decision(c, e)
    ensures Clean(Before(c, e), t) <= Clean(c, t) && Before(c, e).missed == c.missed
  {
    hide Inv, Room, Account;
    match e
    case Tick(ci, ti, _) =>
      var u := if ti > 0 then ci * 0x1_0000 / ti % WORD else 0;
      assert BeforeTick(c, ci, ti).tcb == c.tcb || BeforeTick(c, ci, ti).tcb == c.tcb[c.curr := c.tcb[c.curr].(prevU := u)];
    case Exit(_) =>
    case Suspend(s, delay, _, _) => SuspendClean(c, s, delay, t);
  }

  lemma SuspendClean(c: Cpu, s: nat, delay: nat, t: nat)
    requires Inv(c) && s in c.tcb && s != c.main
    ensures Clean(Susp.Suspend(c, s, delay).0, t) == Clean(c, t) && Susp.Suspend(c, s, delay).0.missed == c.missed
  {
  }

  lemma PrimeClean(d: Cpu, t: nat)
    requires d.curr in d.tcb
    ensures Clean(Prime(d), t) == Clean(d, t) && Prime(d).missed == d.missed
  {
  }

  lemma PushedClean(c: Cpu, s: nat, x: Tcb, t: nat)
    requires |c.incoming| < MAX_THREADS && s !in c.tcb
    ensures var r := Steps.Pushed(SetTcb(c, s, x), s); Clean(r, t) <= Clean(c, t) && r.missed == c.missed
  {
  }

  lemma EnqueueClean(c: Cpu, s: nat, memory: Tcb, period: nat, k: Periodicity, t: nat)
    requires |c.incoming| < MAX_THREADS && s !in c.tcb
    ensures var r := Steps.Enqueue(c, s, memory, period, k).0; Clean(r, t) <= Clean(c, t) && r.missed == c.missed
  {
    hide Steps.Pushed, Clean;
    PushedClean(c, s, memory.(period := period, periodicity := k, owner := INCOMING_THREADS, prevU := 0), t);
  }

  lemma EnqueuePersistentClean(c: Cpu, s: nat, memory: Tcb, priority: Priority, t: nat)
    requires |c.incoming| < MAX_THREADS && s !in c.tcb
    ensures var r := Steps.EnqueuePersistent(c, s, memory, priority).0; Clean(r, t) <= Clean(c, t) && r.missed == c.missed
  {
    hide Steps.Pushed, Clean;
    PushedClean(c, s, memory.(period := PERSISTENT_SLICE_TICKS, landed := 0, periodicity := PERSISTENT,
                              priority := priority, owner := INCOMING_THREADS, prevU := 0), t);
  }

  lemma ArrivalClean(c: Cpu, e: Event, t: nat)
    requires Sys(c) && Enabled(c, e) && (e.Enqueue? || e.EnqueuePersistent?)
    ensures Clean(Apply(c, e), t) <= Clean(c, t) && Apply(c, e).missed == c.missed
  {
    hide Partitioned, Room, Account, Clean, Steps.Enqueue, Steps.EnqueuePersistent;
    FifoHasRoom(c);
    match e
    case Enqueue(s, memory, period, k) => EnqueueClean(c, s, memory, period, k, t);
    case EnqueuePersistent(s, memory, priority) => EnqueuePersistentClean(c, s, memory, priority, t);
  }

  lemma KillClean(c: Cpu, s: nat, t: nat)
    requires s in c.tcb
    ensures Clean(Steps.Kill(c, s), t) == Clean(c, t) && Steps.Kill(c, s).missed == c.missed
  {
  }

  lemma QuietClean(c: Cpu, e: Event, t: nat)
    requires Sys(c) && Enabled(c, e) && !Decision(c, e)
    ensures Clean(Apply(c, e), t) <= Clean(c, t) && Apply(c, e).missed == c.missed
  {
    hide Inv, Room, Account, Susp.Suspend, Clean, Steps.Kill, Dispatch;
    match e
    case Suspend(s, delay, _, _) => SuspendClean(c, s, delay, t);
    case Kill(s) => KillClean(c, s, t);
    case _ => ArrivalClean(c, e, t);
  }

  /** In every event: if a miss of t is counted, a job of t begins in it or had no miss noted, and then one is. */
  lemma EventMisses(c: Cpu, e: Event, t: nat)
    requires Sys(c) && Enabled(c, e)
    ensures MissOf(c, e, t) + Clean(Apply(c, e), t) <= BeginOf(c, e, t) + Clean(c, t)
  {
    hide Sys, Enabled, Apply, Before, Clean, Choose, Dispatch, Prime, Susp.Suspend, Counts;
    if Decision(c, e) {
      var b := Before(c, e);
      DecisionMisses(b, e.lockFree, t);
      BeforeClean(c, e, t);
      Decided(c, e);
      var d := Dispatch(b, e.lockFree);
      if d.curr in d.tcb {
        PrimeClean(d, t);
      }
    } else {
      QuietClean(c, e, t);
    }
  }

  ghost predicate MissEvent(c: Cpu, e: Event)
    requires Sys(c) && Enabled(c, e)
  {
    Decision(c, e) && Counts(Before(c, e), Choose(Before(c, e)).0)
  }

  lemma EventMissed(c: Cpu, e: Event)
    requires Sys(c) && Enabled(c, e)
    ensures Apply(c, e).missed == if MissEvent(c, e) then Add32(c.missed, 1) else c.missed
  {
    hide Sys, Enabled, Apply, Before, Clean, Choose, Dispatch, Prime, Susp.Suspend, Counts;
    if Decision(c, e) {
      var b := Before(c, e);
      DecisionMisses(b, e.lockFree, 0);
      BeforeClean(c, e, 0);
      Decided(c, e);
      var d := Dispatch(b, e.lockFree);
      if d.curr in d.tcb {
        PrimeClean(d, 0);
      }
    } else {
      QuietClean(c, e, 0);
    }
  }

  // ---------------------------------------------------------------- runs

  /** How often a run counts a miss of thread t, and how many of its jobs begin in the run. */
  ghost function Misses(c: Cpu, es: seq<Event>, t: nat): nat
    requires Sys(c) && Runs(c, es)
    decreases |es|
  {
    if es == [] then 0 else MissOf(c, es[0], t) + Misses(Apply(c, es[0]), es[1..], t)
  }

  ghost function Begins(c: Cpu, es: seq<Event>, t: nat): nat
    requires Sys(c) && Runs(c, es)
    decreases |es|
  {
    if es == [] then 0 else BeginOf(c, es[0], t) + Begins(Apply(c, es[0]), es[1..], t)
  }

  ghost function MissEvents(c: Cpu, es: seq<Event>): nat
    requires Sys(c) && Runs(c, es)
    decreases |es|
  {
    if es == [] then 0 else (if MissEvent(c, es[0]) then 1 else 0) + MissEvents(Apply(c, es[0]), es[1..])
  }

  /** Over every run a thread's misses are at most the jobs that begin, and one more for the job it begins with. */
  lemma {:induction false} RunMisses(c: Cpu, es: seq<Event>, t: nat)
    requires Sys(c) && Runs(c, es)
    ensures Misses(c, es, t) + Clean(Run(c, es), t) <= Begins(c, es, t) + Clean(c, t)
    decreases |es|
  {
    hide Sys, Enabled, Apply, MissOf, BeginOf, Clean;
    if es != [] {
      EventMisses(c, es[0], t);
      RunMisses(Apply(c, es[0]), es[1..], t);
    }
  }

  /** The core's counter is the number of counted misses, modulo 2^32. */
  lemma {:induction false} RunMissed(c: Cpu, es: seq<Event>)
    requires Sys(c) && Runs(c, es) && c.missed < WORD
    ensures Run(c, es).missed == (c.missed + MissEvents(c, es)) % WORD
    decreases |es|
  {
    hide Sys, Enabled, Apply, MissEvent;
    if es != [] {
      EventMissed(c, es[0]);
      RunMissed(Apply(c, es[0]), es[1..]);
    }
  }

  /** Over every run from initialization no job's miss is counted twice: a thread's counted misses are at most its
      admissions and re-arms, whatever suspensions did to its deadline, and the core's counter is their number. */
  lemma EveryRunMisses(main: nat, memory: Tcb, es: seq<Event>, t: nat)
    requires main != NULL
    ensures Sys(InitCpu(main, memory))
    ensures Runs(InitCpu(main, memory), es) ==>
              var c := InitCpu(main, memory);
              && (t != main ==> Misses(c, es, t) <= Begins(c, es, t))
              && Run(c, es).missed == MissEvents(c, es) % WORD
  {
    InitSys(main, memory);
    var c := InitCpu(main, memory);
    assert t != main ==> Clean(c, t) == 0;
    assert c.missed == 0;
    hide InitCpu, Run, Runs, Sys;
    if Runs(c, es) {
      RunMisses(c, es, t);
      RunMissed(c, es);
    }
  }
}
