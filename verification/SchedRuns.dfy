/** Runs of one core: every entry point of the scheduler as an event, and what holds over all sequences of them. */
module SchedRuns {
  import opened Words
  import opened Wrapped
  import opened ThreadTypes
  import opened HeapOps
  import opened SchedState
  import opened Sched
  import opened SchedLaws
  import opened SchedChoice
  import Steps = SchedSteps
  import Susp = SchedSuspend

  datatype Event =
    | Enqueue(t: nat, memory: Tcb, period: nat, periodicity: Periodicity)
    | EnqueuePersistent(t: nat, memory: Tcb, priority: Priority)
    | Kill(t: nat)
    | Suspend(t: nat, delay: nat, ownCore: bool, lockFree: bool)
    | Tick(ci: nat, ti: nat, lockFree: bool)
    | Exit(lockFree: bool)

  // ---------------------------------------------------------------- the remaining steps

  /** update_utilization for the running thread, from its averaged run time and period. */
  function UpdateUtilization(c: Cpu, t: nat, ci: nat, ti: nat): Cpu
    requires t in c.tcb
  {
    if ti > 0 && c.tcb[t].periodicity == PERIODIC then
      var u := ci * 0x1_0000 / ti % WORD;
      SetTcb(c, t, c.tcb[t].(prevU := u)).(utilization := Add32(Sub32(c.utilization, c.tcb[t].prevU), u))
    else c
  }

  /** next_thread up to the scheduling decision. */
  function BeforeTick(c: Cpu, ci: nat, ti: nat): Cpu
    requires c.curr in c.tcb
  {
    UpdateUtilization(c, c.curr, ci, ti).(ticks := Add32(c.ticks, 1))
  }

  /** thread_exit up to the scheduling decision. */
  function BeforeExit(c: Cpu): Cpu
    requires c.curr in c.tcb
  {
    SetTcb(c, c.curr, c.tcb[c.curr].(status := FINISHED))
  }

  /** A chosen thread that is pending is primed and becomes running. */
  function Prime(c: Cpu): Cpu
    requires c.curr in c.tcb
  {
    if c.tcb[c.curr].status == PENDING then SetTcb(c, c.curr, c.tcb[c.curr].(status := RUNNING)) else c
  }

  /** What holds between events. */
  ghost predicate Sys(c: Cpu) {
    && Inv(c) && Account(c) && c.curr in c.tcb && c.tcb[c.main].status == RUNNING
  }

  /** Callers pass live threads and fresh memory, at most MAX_THREADS threads are live besides the main one, and the
      counter window is not left. */
  ghost predicate Enabled(c: Cpu, e: Event)
    requires Sys(c)
  {
    && Room(c)
    && match e
       case Enqueue(t, _, period, _) =>
         t !in c.tcb && |c.tcb| <= MAX_THREADS && exists w {:trigger RoomAt(c, w)} :: RoomAt(c, w) && In(w, c.ticks + period)
       case EnqueuePersistent(t, _, _) =>
         t !in c.tcb && |c.tcb| <= MAX_THREADS
         && exists w {:trigger RoomAt(c, w)} :: RoomAt(c, w) && In(w, c.ticks + PERSISTENT_SLICE_TICKS)
       case Kill(t) => t in c.tcb && t != c.main
       case Suspend(t, delay, _, _) =>
         t in c.tcb && t != c.main && exists w {:trigger RoomAt(c, w)} :: RoomAt(c, w) && Susp.SuspendFits(c, w, t, delay)
       case Tick(ci, ti, _) => Room(BeforeTick(c, ci, ti)) && c.ticks + 1 < WORD
       case Exit(_) => c.curr != c.main && Room(BeforeExit(c))
  }

  lemma NewThread(c: Cpu, t: nat, x: Tcb, w: nat)
    requires Sys(c) && RoomAt(c, w) && t != NULL && t !in c.tcb && |c.tcb| <= MAX_THREADS
    requires x.period > 0 && x.owner == INCOMING_THREADS && x.prevU == 0 && In(w, c.ticks + x.period)
    ensures Sys(Steps.Pushed(SetTcb(c, t, x), t))
  {
    FifoHasRoom(c);
    Steps.NewThreadKeeps(c, t, x, w);
    Steps.NewThreadAccount(c, t, x);
  }

  lemma FifoHasRoom(c: Cpu)
    requires Partitioned(c) && |c.tcb| <= MAX_THREADS
    ensures |c.incoming| < MAX_THREADS
  {
    var s := SpreadOf(c);
    assert |Total(s)| == |c.tcb.Keys - {c.main}|;
    assert |c.tcb| == |c.tcb.Keys| == |c.tcb.Keys - {c.main}| + 1;
    assert |Total(s)| >= |s.incoming|;
  }

  lemma UpdateKeeps(c: Cpu, ci: nat, ti: nat)
    requires Sys(c) && Room(c)
    ensures var r := UpdateUtilization(c, c.curr, ci, ti);
            && Inv(r) && Room(r) && Account(r)
            && r.curr == c.curr && r.main == c.main && r.tcb.Keys == c.tcb.Keys
            && r.tcb[r.main] == c.tcb[c.main] && r.ticks == c.ticks
  {
    if ti > 0 && c.tcb[c.curr].periodicity == PERIODIC {
      hide Inv, Room, Sub32, Add32;
      ShareKeeps(c, ci * 0x1_0000 / ti % WORD);
    }
  }

  /** A new share u for a periodic running thread. */
  lemma ShareKeeps(c: Cpu, u: nat)
    requires Sys(c) && Room(c) && c.tcb[c.curr].periodicity == PERIODIC
    ensures var r := SetTcb(c, c.curr, c.tcb[c.curr].(prevU := u))
                       .(utilization := Add32(Sub32(c.utilization, c.tcb[c.curr].prevU), u));
            && Inv(r) && Room(r) && Account(r) && c.curr != c.main && r.tcb.Keys == c.tcb.Keys
  {
    var t := c.curr;
    var w :| RoomAt(c, w);
    var x := c.tcb[t].(prevU := u);
    var total := Add32(Sub32(c.utilization, c.tcb[t].prevU), u);
    assert TagOk(c, t) && RoomFor(c, w, t);
    AddSub(c.utilization, c.tcb[t].prevU, u);
    hide Inv, RoomAt, SumU, Add32, Sub32;
    Steps.RewriteKeeps(c, t, x, w);
    Steps.RewriteAccount(c, t, x, total);
    Steps.UtilizationFree(SetTcb(c, t, x), total, w);
  }

  /** u is a run time over a period in units of 2^-16, rounded down, unless that is cut to 32 bits. */
  predicate IsShare(u: nat, ci: nat, ti: nat) {
    ci * 0x1_0000 < WORD * ti ==> u * ti <= ci * 0x1_0000 < (u + 1) * ti
  }

  /** A periodic running thread gets the share of its run time in its period; the core's utilization is then that share
      and the others'. Anyone else, or one without a measured period, changes nothing. */
  lemma UtilizationShare(c: Cpu, ci: nat, ti: nat)
    requires Sys(c)
    ensures var (t, r) := (c.curr, UpdateUtilization(c, c.curr, ci, ti));
            if ti > 0 && c.tcb[t].periodicity == PERIODIC then
              && t in r.tcb && r == c.(tcb := c.tcb[t := c.tcb[t].(prevU := r.tcb[t].prevU)], utilization := r.utilization)
              && IsShare(r.tcb[t].prevU, ci, ti)
              && r.utilization == (SumU(Workers(c) - {t}, c.tcb) + r.tcb[t].prevU) % WORD
            else r == c
  {
    var t := c.curr;
    if ti > 0 && c.tcb[t].periodicity == PERIODIC {
      ShareOf(ci, ti);
      OthersShare(c, t);
      ShareSwapped(SumU(Workers(c) - {t}, c.tcb), c.tcb[t].prevU, ci * 0x1_0000 / ti % WORD);
      hide Inv, Sub32, Add32;
    }
  }

  lemma OthersShare(c: Cpu, t: nat)
    requires Account(c) && t in c.tcb && c.tcb[t].periodicity == PERIODIC
    ensures Workers(c) - {t} <= c.tcb.Keys
    ensures c.utilization == (c.tcb[t].prevU + SumU(Workers(c) - {t}, c.tcb)) % WORD
  {
    SumURemove(Workers(c), c.tcb, t);
  }

  lemma ShareOf(ci: nat, ti: nat)
    requires ti > 0
    ensures IsShare(ci * 0x1_0000 / ti % WORD, ci, ti)
  {
    var q := ci * 0x1_0000 / ti;
    Quotients(ci * 0x1_0000, ti);
    if ci * 0x1_0000 < WORD * ti {
      assert q % WORD == q;
      assert ci * 0x1_0000 / ti % WORD == q;
    }
  }

  lemma Quotients(n: nat, d: nat)
    requires d > 0
    ensures n / d * d <= n < (n / d + 1) * d
    ensures n < WORD * d ==> n / d < WORD
  {
    assert n == n / d * d + n % d;
    if n / d >= WORD {
      assert n / d * d >= WORD * d;
    }
  }

  lemma ShareSwapped(rest: nat, old': nat, new': nat)
    ensures Add32(Sub32((old' + rest) % WORD, old'), new') == (rest + new') % WORD
  {
  }

  lemma AddSub(a: nat, b: nat, u: nat)
    ensures Add32(Sub32(a, b), u) == (a - b + u) % WORD
  {
  }

  /** The invariant does not speak of the tick counter. */
  lemma TickKeeps(c: Cpu, k: nat)
    requires Inv(c) && Account(c)
    ensures var r := c.(ticks := k); Inv(r) && Account(r)
  {
    var r := c.(ticks := k);
    assert SpreadOf(r) == SpreadOf(c) && Workers(r) == Workers(c);
    forall u | u in r.tcb && u != r.main ensures TagOk(r, u) {
      assert TagOk(c, u);
    }
  }

  lemma RewriteTags(c: Cpu, t: nat, x: Tcb)
    requires Inv(c) && Account(c) && t in c.tcb && t != c.main
    requires TagFits(x, PlaceIn(SpreadOf(c), t)) && x.prevU == c.tcb[t].prevU
    ensures var r := SetTcb(c, t, x); Inv(r) && Account(r)
  {
    var r := SetTcb(c, t, x);
    assert SpreadOf(r) == SpreadOf(c) && r.tcb.Keys == c.tcb.Keys && Workers(r) == Workers(c);
    assert |r.tcb| == |r.tcb.Keys| && |c.tcb| == |c.tcb.Keys|;
    forall u | u in r.tcb && u != r.main ensures TagOk(r, u) {
      assert TagOk(c, u);
    }
    SumUSame(Workers(c), c.tcb, r.tcb);
  }

  lemma BeforeExitKeeps(c: Cpu)
    requires Sys(c) && c.curr != c.main
    ensures Inv(BeforeExit(c)) && Account(BeforeExit(c))
  {
    assert TagOk(c, c.curr);
    RewriteTags(c, c.curr, c.tcb[c.curr].(status := FINISHED));
  }

  lemma ExitMain(c: Cpu)
    requires Sys(c) && c.curr != c.main
    ensures var b := BeforeExit(c); c.main in b.tcb && b.tcb[c.main].status == RUNNING && b.main == c.main
  {
  }

  lemma PrimeKeeps(c: Cpu)
    requires Sys(c)
    ensures Sys(Prime(c))
  {
    if c.tcb[c.curr].status == PENDING {
      assert TagOk(c, c.curr);
      RewriteTags(c, c.curr, c.tcb[c.curr].(status := RUNNING));
    }
  }

  /** A scheduling decision keeps the system invariant. */
  lemma DispatchKeeps(c: Cpu, lockFree: bool)
    requires Inv(c) && Room(c) && Account(c) && c.tcb[c.main].status == RUNNING
    ensures Sys(Dispatch(c, lockFree))
  {
    DispatchAccount(c, lockFree);
    hide Choose;
    var (d, found) := Choose(c);
    ReapAllFrees(d);
    ReapFreesOnce(d);
    ChoosePicks(c);
    if found {
      PickedPlace(d);
      assert d.curr in d.outgoing ==> Holds(d, AtOutgoing, d.curr);
    }
  }

  lemma BeforeTickKeeps(c: Cpu, ci: nat, ti: nat)
    requires Sys(c) && Room(c)
    ensures var b := BeforeTick(c, ci, ti);
            Inv(b) && Account(b) && b.curr in b.tcb && b.main in b.tcb && b.tcb[b.main].status == RUNNING
  {
    UpdateKeeps(c, ci, ti);
    TickKeeps(UpdateUtilization(c, c.curr, ci, ti), Add32(c.ticks, 1));
  }

  lemma SuspendEventKeeps(c: Cpu, t: nat, delay: nat)
    requires Sys(c) && t in c.tcb && t != c.main
    requires exists w {:trigger RoomAt(c, w)} :: RoomAt(c, w) && Susp.SuspendFits(c, w, t, delay)
    ensures var r := Susp.Suspend(c, t, delay).0; Sys(r) && Room(r)
  {
    var w :| RoomAt(c, w) && Susp.SuspendFits(c, w, t, delay);
    Susp.SuspendKeeps(c, w, t, delay);
    Susp.SuspendAccount(c, t, delay);
    Susp.SuspendTcbs(c, t, delay, c.main);
    if c.curr != t {
      Susp.SuspendTcbs(c, t, delay, c.curr);
    }
  }

  /** next_thread with the core lock taken. */
  ghost function TickStep(c: Cpu, ci: nat, ti: nat, lockFree: bool): (r: Cpu)
    requires Sys(c) && Room(c) && Room(BeforeTick(c, ci, ti))
    ensures Sys(r)
  {
    BeforeTickKeeps(c, ci, ti);
    DispatchKeeps(BeforeTick(c, ci, ti), lockFree);
    PrimeKeeps(Dispatch(BeforeTick(c, ci, ti), lockFree));
    Prime(Dispatch(BeforeTick(c, ci, ti), lockFree))
  }

  /** thread_exit */
  ghost function ExitStep(c: Cpu, lockFree: bool): (r: Cpu)
    requires Sys(c) && c.curr != c.main && Room(BeforeExit(c))
    ensures Sys(r)
  {
    BeforeExitKeeps(c);
    DispatchKeeps(BeforeExit(c), lockFree);
    PrimeKeeps(Dispatch(BeforeExit(c), lockFree));
    Prime(Dispatch(BeforeExit(c), lockFree))
  }

  /** suspend_thread; a thread that suspends itself on its own core is switched away at once. */
  ghost function SuspendStep(c: Cpu, t: nat, delay: nat, ownCore: bool, lockFree: bool): (r: Cpu)
    requires Sys(c) && t in c.tcb && t != c.main
    requires exists w {:trigger RoomAt(c, w)} :: RoomAt(c, w) && Susp.SuspendFits(c, w, t, delay)
    ensures Sys(r)
  {
    SuspendEventKeeps(c, t, delay);
    var (r, ok) := Susp.Suspend(c, t, delay);
    if ok && ownCore && t == c.curr then
      DispatchKeeps(r, lockFree);
      Dispatch(r, lockFree)
    else r
  }

  ghost function EnqueueStep(c: Cpu, t: nat, memory: Tcb, period: nat, periodicity: Periodicity): (r: Cpu)
    requires Sys(c) && t !in c.tcb && |c.tcb| <= MAX_THREADS
    requires exists w {:trigger RoomAt(c, w)} :: RoomAt(c, w) && In(w, c.ticks + period)
    ensures Sys(r) && r.ticks == c.ticks
  {
    EnqueueKeeps(c, t, memory, period, periodicity);
    Steps.Enqueue(c, t, memory, period, periodicity).0
  }

  lemma EnqueueKeeps(c: Cpu, t: nat, memory: Tcb, period: nat, periodicity: Periodicity)
    requires Sys(c) && t !in c.tcb && |c.tcb| <= MAX_THREADS
    requires exists w {:trigger RoomAt(c, w)} :: RoomAt(c, w) && In(w, c.ticks + period)
    ensures Sys(Steps.Enqueue(c, t, memory, period, periodicity).0)
  {
    var w :| RoomAt(c, w) && In(w, c.ticks + period);
    if t != NULL && period > 0 {
      NewThread(c, t, memory.(period := period, periodicity := periodicity, owner := INCOMING_THREADS, prevU := 0), w);
    }
  }

  ghost function EnqueuePersistentStep(c: Cpu, t: nat, memory: Tcb, priority: Priority): (r: Cpu)
    requires Sys(c) && t !in c.tcb && |c.tcb| <= MAX_THREADS
    requires exists w {:trigger RoomAt(c, w)} :: RoomAt(c, w) && In(w, c.ticks + PERSISTENT_SLICE_TICKS)
    ensures Sys(r) && r.ticks == c.ticks
  {
    EnqueuePersistentKeeps(c, t, memory, priority);
    Steps.EnqueuePersistent(c, t, memory, priority).0
  }

  lemma EnqueuePersistentKeeps(c: Cpu, t: nat, memory: Tcb, priority: Priority)
    requires Sys(c) && t !in c.tcb && |c.tcb| <= MAX_THREADS
    requires exists w {:trigger RoomAt(c, w)} :: RoomAt(c, w) && In(w, c.ticks + PERSISTENT_SLICE_TICKS)
    ensures Sys(Steps.EnqueuePersistent(c, t, memory, priority).0)
  {
    var w :| RoomAt(c, w) && In(w, c.ticks + PERSISTENT_SLICE_TICKS);
    if t != NULL {
      NewThread(c, t, memory.(period := PERSISTENT_SLICE_TICKS, landed := 0, periodicity := PERSISTENT, priority := priority,
                              owner := INCOMING_THREADS, prevU := 0), w);
    }
  }

  ghost function KillStep(c: Cpu, t: nat): (r: Cpu)
    requires Sys(c) && Room(c) && t in c.tcb && t != c.main
    ensures Sys(r) && r.ticks == c.ticks
  {
    KillStepKeeps(c, t);
    Steps.Kill(c, t)
  }

  lemma KillStepKeeps(c: Cpu, t: nat)
    requires Sys(c) && Room(c) && t in c.tcb && t != c.main
    ensures Sys(Steps.Kill(c, t))
  {
    var w :| RoomAt(c, w);
    Steps.KillKeeps(c, t, w);
    Steps.KillAccount(c, t);
  }

  /** One event. Every event keeps the container partition, the tags, both heap orders, the utilization account and a
      live running thread. */
  ghost function Apply(c: Cpu, e: Event): (r: Cpu)
    requires Sys(c) && Enabled(c, e)
    ensures Sys(r)
  {
    match e
    case Enqueue(t, memory, period, periodicity) => EnqueueStep(c, t, memory, period, periodicity)
    case EnqueuePersistent(t, memory, priority) => EnqueuePersistentStep(c, t, memory, priority)
    case Kill(t) => KillStep(c, t)
    case Suspend(t, delay, ownCore, lockFree) => SuspendStep(c, t, delay, ownCore, lockFree)
    case Tick(ci, ti, lockFree) => TickStep(c, ci, ti, lockFree)
    case Exit(lockFree) => ExitStep(c, lockFree)
  }

  // ---------------------------------------------------------------- runs

  /** Every event of the run is enabled when its turn comes. */
  ghost predicate Runs(c: Cpu, es: seq<Event>)
    requires Sys(c)
    decreases |es|
  {
    es == [] || (Enabled(c, es[0]) && Runs(Apply(c, es[0]), es[1..]))
  }

  ghost function Run(c: Cpu, es: seq<Event>): (r: Cpu)
    requires Sys(c) && Runs(c, es)
    ensures Sys(r)
    decreases |es|
  {
    if es == [] then c else Run(Apply(c, es[0]), es[1..])
  }

  /** psched_core_init: only the main thread, everything empty. */
  function InitCpu(main: nat, memory: Tcb): Cpu {
    Cpu(0, map[main := memory.(status := RUNNING, periodicity := APERIODIC, prevU := 0)], [], [], [], [], [], [], [], main, main, 0, 0)
  }

  lemma InitSys(main: nat, memory: Tcb)
    requires main != NULL
    ensures Sys(InitCpu(main, memory))
  {
    var c := InitCpu(main, memory);
    assert c.tcb.Keys - {c.main} == {};
    assert Workers(c) == {};
    assert |c.tcb| == 1;
  }

  /** Over every run from initialization: each live thread is in exactly one container, heap-tagged threads are in
      their heap, both heaps are ordered, and utilization is the sum of the threads' contributions. */
  lemma EveryRun(main: nat, memory: Tcb, es: seq<Event>, t: nat)
    requires main != NULL
    ensures Sys(InitCpu(main, memory))
    ensures Runs(InitCpu(main, memory), es) ==>
              var r := Run(InitCpu(main, memory), es);
              && (t in r.tcb && t != r.main ==>
                    Total(SpreadOf(r))[t] == 1
                    && (r.tcb[t].owner == DEAD_HEAP ==> t in multiset(Threads(r.dead)))
                    && (r.tcb[t].owner == REL_HEAP ==> t in multiset(Threads(r.rel))))
              && (t !in r.tcb || t == r.main ==> Total(SpreadOf(r))[t] == 0)
              && HeapOrder(r.dead) && HeapOrder(r.rel) && r.curr in r.tcb
              && r.utilization == SumU(r.tcb.Keys - {r.main}, r.tcb) % WORD
  {
    hide Run, Runs, InitCpu;
    InitSys(main, memory);
    if Runs(InitCpu(main, memory), es) {
      var r := Run(InitCpu(main, memory), es);
      LiveOnce(r, t);
      if t in r.tcb && t != r.main {
        assert TagOk(r, t);
      }
    }
  }
}
