/** Which nodes are stale over whole runs, and what that means for the deadline chosen and for due threads. */
module SchedStale {
  import opened Words
  import opened ThreadTypes
  import opened HeapOps
  import opened HeapKeys
  import opened SchedState
  import opened Sched
  import opened SchedLaws
  import opened SchedChoice
  import Steps = SchedSteps
  import Susp = SchedSuspend
  import opened SchedRuns
  import opened SchedKeys

  // ---------------------------------------------------------------- the loops of next_up

  lemma {:induction false} AdmitKeys(c: Cpu)
    requires Inv(c) && Room(c)
    ensures KeysLeft(c, Admit(c), StaleOf(c))
    decreases |c.incoming|
  {
    hide AdmitOne, StaleOf, KeysOk;
    if c.incoming != [] {
      AdmitOneOk(c);
      AdmitOneKeys(c);
      assert |AdmitOne(c).incoming| < |c.incoming| by { AdmitShrinks(c); }
      AdmitKeys(AdmitOne(c));
    }
  }

  ghost function ReleaseDueStale(c: Cpu, l: Stale): Stale
    requires Inv(c) && Room(c)
    decreases |c.rel|
  {
    if !HeadDue(c) then l else
      ReleaseOneOk(c);
      ReleaseDueStale(ReleaseOne(c), ReleaseStale(c, l))
  }

  lemma {:induction false} ReleaseDueKeys(c: Cpu)
    requires Inv(c) && Room(c)
    ensures KeysLeft(c, ReleaseDue(c), ReleaseDueStale(c, StaleOf(c)))
    decreases |c.rel|
  {
    if HeadDue(c) {
      ReleaseOneOk(c);
      ReleaseOneKeys(c);
      ReleaseDueKeys(ReleaseOne(c));
    }
  }

  ghost function SelectDeadStale(c: Cpu, l: Stale): Stale
    requires Inv(c) && Room(c)
    decreases FinishedDead(c)
  {
    if c.dead == [] then l else
      PickDeadOk(c);
      var t := c.dead[0].thread;
      if c.tcb[t].status != FINISHED then l
      else if c.tcb[t].periodicity == PERIODIC then
        RearmOneOk(c);
        SelectDeadStale(RearmOne(c), RearmStale(c, l))
      else
        RetireOneOk(c);
        SelectDeadStale(RetireOne(c), RetireStale(c, l))
  }

  lemma {:induction false} SelectDeadKeys(c: Cpu)
    requires Inv(c) && Room(c)
    ensures KeysLeft(c, SelectDead(c).0, SelectDeadStale(c, StaleOf(c)))
    decreases FinishedDead(c)
  {
    hide RearmOne, RetireOne, PickDead, StaleOf, KeysOk, RearmStale, RetireStale;
    if c.dead != [] {
      PickDeadOk(c);
      var t := c.dead[0].thread;
      if c.tcb[t].status != FINISHED {
        PickDeadKeys(c);
      } else if c.tcb[t].periodicity == PERIODIC {
        RearmOneOk(c);
        RearmOneKeys(c);
        SelectDeadKeys(RearmOne(c));
      } else {
        RetireOneOk(c);
        RetireOneKeys(c);
        SelectDeadKeys(RetireOne(c));
      }
    }
  }

  lemma {:induction false} SelectLevelKeys(c: Cpu, p: Priority)
    requires Inv(c) && Room(c)
    ensures KeysLeft(c, SelectLevel(c, p).0, StaleOf(c))
    decreases Pending(c, p)
  {
    hide Inv, Room, RetireFromLevel, RotateLevel, PickLevel, SliceOver, StaleOf, KeysOk;
    if Level(c, p) != [] {
      LevelHeadOk(c, p);
      LevelKeys(c, p);
      if c.tcb[Level(c, p)[0]].status == FINISHED {
        RetireFromLevelOk(c, p);
        SelectLevelKeys(RetireFromLevel(c, p), p);
      } else if SliceOver(c, p) {
        RotateLevelOk(c, p);
        SelectLevelKeys(RotateLevel(c, p), p);
      }
    }
  }

  lemma {:induction false} ReapAllKeys(c: Cpu)
    requires Inv(c) && Room(c)
    ensures KeysLeft(c, ReapAll(c), StaleOf(c))
    decreases |c.outgoing|
  {
    if c.outgoing != [] {
      ReapOneOk(c);
      ReapOneKeys(c);
      ReapAllKeys(ReapOne(c));
    }
  }

  /** The stale threads after a decision. */
  ghost function DispatchStale(c: Cpu, l: Stale): Stale
    requires Inv(c) && Room(c)
  {
    var a := Admit(c);
    SelectDeadStale(ReleaseDue(a), ReleaseDueStale(a, l))
  }

  lemma SelectLevelsKeys(c: Cpu)
    requires Inv(c) && Room(c)
    ensures KeysLeft(c, SelectLevels(c).0, StaleOf(c))
  {
    hide SelectLevel, StaleOf, KeysOk, Inv, Room;
    SelectLevelKeys(c, HIGH_PRIORITY);
    var (h, fh) := SelectLevel(c, HIGH_PRIORITY);
    if !fh {
      SelectLevelKeys(h, MED_PRIORITY);
      var (m, fm) := SelectLevel(h, MED_PRIORITY);
      if !fm {
        SelectLevelKeys(m, LOW_PRIORITY);
      }
    }
  }

  lemma ChooseKeys(c: Cpu)
    requires Inv(c) && Room(c)
    ensures KeysLeft(c, Choose(c).0, DispatchStale(c, StaleOf(c)))
  {
    hide Admit, ReleaseDue, SelectDead, SelectLevels, StaleOf, KeysOk, Inv, Room, ReleaseDueStale, SelectDeadStale;
    AdmitKeys(c);
    ReleaseDueKeys(Admit(c));
    var b := ReleaseDue(Admit(c));
    SelectDeadKeys(b);
    SelectLevelsKeys(SelectDead(b).0);
  }

  /** Keys depend on the heaps and the threads' times only. */
  lemma SameHeaps(c: Cpu, r: Cpu)
    requires r.dead == c.dead && r.rel == c.rel && Deadlines(r) == Deadlines(c) && Releases(r) == Releases(c)
    ensures KeysLeft(c, r, StaleOf(c))
  {
  }

  lemma DispatchKeys(c: Cpu, lockFree: bool)
    requires Inv(c) && Room(c)
    ensures KeysLeft(c, Dispatch(c, lockFree), DispatchStale(c, StaleOf(c)))
  {
    hide Choose, ReapAll, DispatchStale;
    ChooseKeys(c);
    var d := Choose(c).0;
    ReapAllKeys(d);
    SameHeaps(d, ToMain(d));
    SameHeaps(ReapAll(d), ToMain(ReapAll(d)));
  }

  // ---------------------------------------------------------------- the events

  /** Suspending a sleeper makes it stale exactly when it is alone in the release heap; otherwise the thread is filed
      afresh. */
  ghost function SuspendStale(c: Cpu, t: nat, delay: nat, l: Stale): Stale
    requires t in c.tcb
  {
    if Susp.Refused(c.tcb[t], c.ticks, delay) then l
    else if c.tcb[t].owner == DEAD_HEAP then l.(dead := l.dead - {t})
    else if c.tcb[t].owner == REL_HEAP then
      if |c.rel| == 1 then l.(rel := l.rel + {t}) else l.(rel := l.rel - {t})
    else l
  }

  lemma SuspendDeadKeys(c: Cpu, w: nat, t: nat, delay: nat)
    requires Inv(c) && RoomAt(c, w) && t in c.tcb && t != c.main && Susp.SuspendFits(c, w, t, delay)
    requires !Susp.Refused(c.tcb[t], c.ticks, delay) && c.tcb[t].owner == DEAD_HEAP
    ensures KeysLeft(c, Susp.Suspend(c, t, delay).0, SuspendStale(c, t, delay, StaleOf(c)))
  {
    assert TagOk(c, t);
    var r := Susp.Suspend(c, t, delay).0;
    var i := Susp.IndexOf(c.dead, t);
    OrderedStays(c.dead, i);
    RemoveNodePerm(c.dead, i);
    LiveOnce(c, t);
    FewerThreads(c.dead, RemoveNode(c.dead, i), t);
    assert multiset(Threads(c.dead))[t] <= Total(SpreadOf(c))[t];
    NotInHeap(c, AtDead, t);
    OthersSame(c, r, t);
    if KeysOk(c) {
      KeysRemove(c.dead, Deadlines(c), r.dead, Deadlines(r), c.dead[i]);
      KeysInsert(c.rel, Releases(c), Releases(r), Node(r.tcb[t].release, t));
    }
  }

  lemma SuspendRelIs(c: Cpu, w: nat, t: nat, delay: nat)
    requires Inv(c) && RoomAt(c, w) && t in c.tcb && t != c.main && Susp.SuspendFits(c, w, t, delay)
    requires !Susp.Refused(c.tcb[t], c.ticks, delay) && c.tcb[t].owner == REL_HEAP
    ensures var (r, x) := (Susp.Suspend(c, t, delay).0, Susp.Suspended(c.tcb[t], c.ticks, delay));
            && t in multiset(Threads(c.rel))
            && r == SetTcb(c, t, x).(rel := Balance(c.rel, Susp.IndexOf(c.rel, t), x.release))
            && x.release > c.tcb[t].release && Holds(c, AtRel, t)
  {
    Susp.SuspendedShape(c, w, t, delay);
    assert TagOk(c, t);
  }

  lemma SuspendRelKeys(c: Cpu, w: nat, t: nat, delay: nat)
    requires Inv(c) && RoomAt(c, w) && t in c.tcb && t != c.main && Susp.SuspendFits(c, w, t, delay)
    requires !Susp.Refused(c.tcb[t], c.ticks, delay) && c.tcb[t].owner == REL_HEAP
    ensures KeysLeft(c, Susp.Suspend(c, t, delay).0, SuspendStale(c, t, delay, StaleOf(c)))
  {
    SuspendRelIs(c, w, t, delay);
    hide Susp.Suspend, Susp.Suspended, Susp.SuspendFits, RoomAt, Balance;
    var r, i := Susp.Suspend(c, t, delay).0, Susp.IndexOf(c.rel, t);
    NotInHeap(c, AtRel, t);
    OthersSame(c, r, t);
    if KeysOk(c) {
      KeysSame(c.dead, Deadlines(c), r.dead, Deadlines(r));
      if |c.rel| == 1 {
        KeysAlone(c.rel, Releases(c), Releases(r), r.tcb[t].release);
        OneOnly(c.rel, Releases(c), t);
      } else {
        forall j | 0 <= j < |c.rel| && j != i ensures c.rel[j].thread != t {
          HeapOnce(c, AtRel, c.rel, j, i);
        }
        KeysRekey(c.rel, Releases(c), Releases(r), i, r.tcb[t].release);
      }
    }
  }

  lemma OneOnly(s: seq<Node>, m: map<nat, nat>, t: nat)
    requires |s| == 1 && s[0].thread == t
    ensures StaleIn(s, m) + {t} == {t}
  {
    forall u | u in StaleIn(s, m) ensures u == t {
      var n :| n in s && n.thread == u;
      assert n == s[0];
    }
  }

  lemma OwnerSaysNoHeap(c: Cpu, t: nat)
    requires Inv(c) && t in c.tcb && t != c.main && c.tcb[t].owner != DEAD_HEAP && c.tcb[t].owner != REL_HEAP
    requires c.tcb[t].owner != OUTGOING_THREADS
    ensures t !in Threads(c.dead) && t !in Threads(c.rel)
  {
    LiveOnce(c, t);
    var p := PlaceIn(SpreadOf(c), t);
    assert Holds(c, p, t) && TagOk(c, t);
    NotInHeap(c, p, t);
  }

  lemma SuspendElseIs(c: Cpu, t: nat, delay: nat)
    requires Inv(c) && t in c.tcb && t != c.main
    requires !Susp.Refused(c.tcb[t], c.ticks, delay) && c.tcb[t].owner != DEAD_HEAP && c.tcb[t].owner != REL_HEAP
    ensures Susp.Suspend(c, t, delay).0 == SetTcb(c, t, Susp.Suspended(c.tcb[t], c.ticks, delay))
    ensures t !in Threads(c.dead) && t !in Threads(c.rel)
  {
    assert TagOk(c, t);
    hide Inv;
    OwnerSaysNoHeap(c, t);
  }

  lemma SuspendElseKeys(c: Cpu, t: nat, delay: nat)
    requires Inv(c) && t in c.tcb && t != c.main
    requires !Susp.Refused(c.tcb[t], c.ticks, delay) && c.tcb[t].owner != DEAD_HEAP && c.tcb[t].owner != REL_HEAP
    ensures KeysLeft(c, Susp.Suspend(c, t, delay).0, StaleOf(c))
  {
    SuspendElseIs(c, t, delay);
    hide Susp.Suspend, Susp.Suspended;
    CalmKeys(c, Susp.Suspend(c, t, delay).0, t);
  }

  lemma SuspendKeys(c: Cpu, w: nat, t: nat, delay: nat)
    requires Inv(c) && RoomAt(c, w) && t in c.tcb && t != c.main && Susp.SuspendFits(c, w, t, delay)
    ensures KeysLeft(c, Susp.Suspend(c, t, delay).0, SuspendStale(c, t, delay, StaleOf(c)))
  {
    hide Susp.Suspend, StaleOf, KeysOk;
    if Susp.Refused(c.tcb[t], c.ticks, delay) {
      Susp.SuspendTcbs(c, t, delay, t + 1);
    } else if c.tcb[t].owner == DEAD_HEAP {
      SuspendDeadKeys(c, w, t, delay);
    } else if c.tcb[t].owner == REL_HEAP {
      SuspendRelKeys(c, w, t, delay);
    } else {
      SuspendElseKeys(c, t, delay);
    }
  }

  /** The stale threads after an event. */
  ghost function ApplyStale(c: Cpu, e: Event, l: Stale): Stale
    requires Sys(c) && Enabled(c, e)
  {
    match e
    case Enqueue(_, _, _, _) => l
    case EnqueuePersistent(_, _, _) => l
    case Kill(_) => l
    case Suspend(t, delay, ownCore, _) =>
      SuspendEventKeeps(c, t, delay);
      var (r, ok) := Susp.Suspend(c, t, delay);
      var m := SuspendStale(c, t, delay, l);
      if ok && ownCore && t == c.curr then DispatchStale(r, m) else m
    case Tick(ci, ti, _) =>
      BeforeTickKeeps(c, ci, ti);
      DispatchStale(BeforeTick(c, ci, ti), l)
    case Exit(_) =>
      BeforeExitKeeps(c);
      DispatchStale(BeforeExit(c), l)
  }

  lemma NewThreadKeys(c: Cpu, t: nat, x: Tcb)
    requires Partitioned(c) && t !in c.tcb
    ensures KeysLeft(c, Steps.Pushed(SetTcb(c, t, x), t), StaleOf(c))
  {
    if t in Threads(c.dead) {
      assert Holds(c, AtDead, t);
      HeldLive(c, AtDead, t);
    }
    if t in Threads(c.rel) {
      assert Holds(c, AtRel, t);
      HeldLive(c, AtRel, t);
    }
    CalmKeys(c, Steps.Pushed(SetTcb(c, t, x), t), t);
  }

  lemma EnqueueKeys(c: Cpu, e: Event)
    requires Sys(c) && Enabled(c, e) && (e.Enqueue? || e.EnqueuePersistent? || e.Kill?)
    ensures KeysLeft(c, Apply(c, e), StaleOf(c))
  {
    hide KeysLeft, StaleOf, Room, RoomAt, Account, Steps.Pushed;
    KeysStay(c);
    match e
    case Enqueue(t, memory, period, periodicity) =>
      NewThreadKeys(c, t, memory.(period := period, periodicity := periodicity, owner := INCOMING_THREADS, prevU := 0));
    case EnqueuePersistent(t, memory, priority) =>
      NewThreadKeys(c, t, memory.(period := PERSISTENT_SLICE_TICKS, landed := 0, periodicity := PERSISTENT,
                                  priority := priority, owner := INCOMING_THREADS, prevU := 0));
    case Kill(t) =>
      KillKeys(c, t);
  }

  lemma KillKeys(c: Cpu, t: nat)
    requires Partitioned(c) && t in c.tcb
    ensures KeysLeft(c, Steps.Kill(c, t), StaleOf(c))
  {
    CalmKeys(c, Steps.Kill(c, t), t);
  }

  lemma KeysStay(c: Cpu)
    ensures KeysLeft(c, c, StaleOf(c))
  {
  }

  lemma BeforeTickKeys(c: Cpu, ci: nat, ti: nat)
    requires Inv(c) && c.curr in c.tcb
    ensures KeysLeft(c, BeforeTick(c, ci, ti), StaleOf(c))
  {
    var u := if ti > 0 then ci * 0x1_0000 / ti % WORD else 0;
    var r := UpdateUtilization(c, c.curr, ci, ti);
    assert r.tcb == c.tcb || r.tcb == c.tcb[c.curr := c.tcb[c.curr].(prevU := u)];
    CalmKeys(c, BeforeTick(c, ci, ti), c.curr);
  }

  lemma PrimeKeys(c: Cpu)
    requires Inv(c) && c.curr in c.tcb
    ensures KeysLeft(c, Prime(c), StaleOf(c))
  {
    CalmKeys(c, Prime(c), c.curr);
  }

  lemma KeysThen(a: Cpu, b: Cpu, c: Cpu, l: Stale, m: Stale)
    requires KeysLeft(a, b, l) && (StaleOf(b) == l ==> KeysLeft(b, c, m))
    ensures KeysLeft(a, c, m)
  {
  }

  lemma TickKeys(c: Cpu, ci: nat, ti: nat, lockFree: bool)
    requires Sys(c) && Room(c) && Room(BeforeTick(c, ci, ti))
    ensures Inv(BeforeTick(c, ci, ti))
    ensures KeysLeft(c, TickStep(c, ci, ti, lockFree), DispatchStale(BeforeTick(c, ci, ti), StaleOf(c)))
  {
    BeforeTickKeeps(c, ci, ti);
    var b := BeforeTick(c, ci, ti);
    DispatchKeeps(b, lockFree);
    var d := Dispatch(b, lockFree);
    PrimeKeeps(d);
    BeforeTickKeys(c, ci, ti);
    DispatchKeys(b, lockFree);
    PrimeKeys(d);
    hide BeforeTick, Dispatch, Prime, KeysLeft, StaleOf, DispatchStale, Inv, Room;
    KeysThen(b, d, Prime(d), DispatchStale(b, StaleOf(b)), DispatchStale(b, StaleOf(b)));
    KeysThen(c, b, Prime(d), StaleOf(c), DispatchStale(b, StaleOf(c)));
  }

  lemma BeforeExitKeys(c: Cpu)
    requires Inv(c) && c.curr in c.tcb
    ensures KeysLeft(c, BeforeExit(c), StaleOf(c))
  {
    CalmKeys(c, BeforeExit(c), c.curr);
  }

  lemma ExitKeys(c: Cpu, lockFree: bool)
    requires Sys(c) && c.curr != c.main && Room(BeforeExit(c))
    ensures Inv(BeforeExit(c))
    ensures KeysLeft(c, ExitStep(c, lockFree), DispatchStale(BeforeExit(c), StaleOf(c)))
  {
    BeforeExitKeeps(c);
    var b := BeforeExit(c);
    DispatchKeeps(b, lockFree);
    var d := Dispatch(b, lockFree);
    PrimeKeeps(d);
    BeforeExitKeys(c);
    DispatchKeys(b, lockFree);
    PrimeKeys(d);
    hide BeforeExit, Dispatch, Prime, KeysLeft, StaleOf, DispatchStale, Inv, Room;
    KeysThen(b, d, Prime(d), DispatchStale(b, StaleOf(b)), DispatchStale(b, StaleOf(b)));
    KeysThen(c, b, Prime(d), StaleOf(c), DispatchStale(b, StaleOf(c)));
  }

  lemma SuspendStepKeys(c: Cpu, t: nat, delay: nat, ownCore: bool, lockFree: bool)
    requires Sys(c) && Enabled(c, Suspend(t, delay, ownCore, lockFree))
    ensures KeysLeft(c, SuspendStep(c, t, delay, ownCore, lockFree), ApplyStale(c, Suspend(t, delay, ownCore, lockFree), StaleOf(c)))
  {
    var w :| RoomAt(c, w) && Susp.SuspendFits(c, w, t, delay);
    SuspendKeys(c, w, t, delay);
    SuspendEventKeeps(c, t, delay);
    hide Susp.Suspend, Dispatch, KeysLeft, StaleOf, SuspendStale, DispatchStale, Inv, Room, RoomAt, Susp.SuspendFits;
    var (r, ok) := Susp.Suspend(c, t, delay);
    if ok && ownCore && t == c.curr {
      DispatchKeys(r, lockFree);
      KeysThen(c, r, Dispatch(r, lockFree), SuspendStale(c, t, delay, StaleOf(c)),
               DispatchStale(r, SuspendStale(c, t, delay, StaleOf(c))));
    }
  }

  lemma EventKeys(c: Cpu, e: Event)
    requires Sys(c) && Enabled(c, e)
    ensures KeysLeft(c, Apply(c, e), ApplyStale(c, e, StaleOf(c)))
  {
    match e
    case Enqueue(_, _, _, _) => EnqueueKeys(c, e);
    case EnqueuePersistent(_, _, _) => EnqueueKeys(c, e);
    case Kill(_) => EnqueueKeys(c, e);
    case Suspend(t, delay, ownCore, lockFree) => SuspendStepKeys(c, t, delay, ownCore, lockFree);
    case Tick(ci, ti, lockFree) => TickKeys(c, ci, ti, lockFree);
    case Exit(lockFree) => ExitKeys(c, lockFree);
  }

  // ---------------------------------------------------------------- runs

  /** The stale threads after a run: those that the last re-keying of their node found alone in its heap. */
  ghost function RunStale(c: Cpu, es: seq<Event>, l: Stale): Stale
    requires Sys(c) && Runs(c, es)
    decreases |es|
  {
    if es == [] then l else RunStale(Apply(c, es[0]), es[1..], ApplyStale(c, es[0], l))
  }

  lemma {:induction false} RunKeys(c: Cpu, es: seq<Event>)
    requires Sys(c) && Runs(c, es) && KeysOk(c)
    ensures KeysOk(Run(c, es)) && StaleOf(Run(c, es)) == RunStale(c, es, StaleOf(c))
    decreases |es|
  {
    hide Sys, Enabled, Apply, ApplyStale, KeysOk, StaleOf;
    if es != [] {
      EventKeys(c, es[0]);
      RunKeys(Apply(c, es[0]), es[1..]);
    }
  }

  /** Over every run from initialization: every node of the deadline heap holds its thread's deadline and every node of
      the release heap its thread's release time, except those a single-node balance left stale, of which each heap has
      at most one; a stale node's order is the lower one. */
  lemma EveryRunKeys(main: nat, memory: Tcb, es: seq<Event>, n: Node)
    requires main != NULL
    ensures Sys(InitCpu(main, memory))
    ensures Runs(InitCpu(main, memory), es) ==>
              var (r, l) := (Run(InitCpu(main, memory), es), RunStale(InitCpu(main, memory), es, Stale({}, {})));
              && KeysOk(r)
              && (n in r.dead ==> n.thread in r.tcb && n.order <= r.tcb[n.thread].deadline
                                  && (n.order == r.tcb[n.thread].deadline <==> n.thread !in l.dead))
              && (n in r.rel ==> n.thread in r.tcb && n.order <= r.tcb[n.thread].release
                                 && (n.order == r.tcb[n.thread].release <==> n.thread !in l.rel))
              && |l.dead| <= 1 && |l.rel| <= 1
  {
    InitSys(main, memory);
    var c := InitCpu(main, memory);
    assert StaleOf(c) == Stale({}, {}) && KeysOk(c);
    if Runs(c, es) {
      RunKeys(c, es);
      KeysMean(Run(c, es), n);
    }
  }

  lemma KeysMean(c: Cpu, n: Node)
    requires Inv(c) && KeysOk(c)
    ensures var l := StaleOf(c);
            && (n in c.dead ==> n.thread in c.tcb && n.order <= c.tcb[n.thread].deadline
                                && (n.order == c.tcb[n.thread].deadline <==> n.thread !in l.dead))
            && (n in c.rel ==> n.thread in c.tcb && n.order <= c.tcb[n.thread].release
                               && (n.order == c.tcb[n.thread].release <==> n.thread !in l.rel))
            && |l.dead| <= 1 && |l.rel| <= 1
  {
    AtMostOne(StaleOf(c).dead);
    AtMostOne(StaleOf(c).rel);
    if n in c.dead {
      assert KeyOk(n, Deadlines(c));
      StaleMeans(c, AtDead, c.dead, Deadlines(c), n);
    }
    if n in c.rel {
      assert KeyOk(n, Releases(c));
      StaleMeans(c, AtRel, c.rel, Releases(c), n);
    }
  }

  lemma StaleMeans(c: Cpu, p: Place, s: seq<Node>, m: map<nat, nat>, n: Node)
    requires Partitioned(c) && (p == AtDead || p == AtRel) && s == (if p == AtDead then c.dead else c.rel)
    requires n in s && n.thread in m
    ensures n.order == m[n.thread] <==> n.thread !in StaleIn(s, m)
  {
    if n.thread in StaleIn(s, m) {
      var k :| k in s && k.thread == n.thread && k.thread in m && k.order != m[k.thread];
      var i :| 0 <= i < |s| && s[i] == n;
      var j :| 0 <= j < |s| && s[j] == k;
      if i != j {
        HeapOnce(c, p, s, i, j);
      }
    }
  }

  lemma AtMostOne(s: set<nat>)
    requires forall a, b :: a in s && b in s ==> a == b
    ensures |s| <= 1
  {
    if s != {} {
      var a :| a in s;
      assert s == {a};
    }
  }
}
