/** Concrete states in which a property one might expect fails. */
module SchedInputs {
  import opened Wrapped
  import opened ThreadTypes
  import opened HeapOps
  import opened HeapKeys
  import opened SchedState
  import opened Sched
  import opened SchedChoice
  import Steps = SchedSteps
  import Susp = SchedSuspend
  import opened SchedKeys
  import opened SchedWake

  /** The boot thread, at address 1. */
  function Idle(): Tcb {
    Tcb(RUNNING, APERIODIC, LOW_PRIORITY, INCOMING_THREADS, 1, 0, 0, 0, false, 0)
  }

  function Thread(status: Status, periodicity: Periodicity, owner: Owner, period: nat, release: nat, deadline: nat): Tcb {
    Tcb(status, periodicity, LOW_PRIORITY, owner, period, release, deadline, 0, false, 0)
  }

  lemma SmallPartition(c: Cpu, others: set<nat>)
    requires c.main == 1 && c.tcb.Keys == {1} + others && others <= {2, 3} && Total(SpreadOf(c)) == multiset(others)
    ensures Partitioned(c)
  {
    hide Total, SpreadOf;
    assert c.tcb.Keys - {c.main} == others;
    assert |c.tcb| == |c.tcb.Keys|;
    SubsetSize(others, {2, 3});
    assert c.tcb.Keys == others + {1};
    assert |others + {1}| <= |others| + 1;
  }

  /** A state with threads 2 and, possibly, 3 besides the boot thread. */
  lemma SmallState(c: Cpu, others: set<nat>)
    requires c.main == 1 && c.tcb.Keys == {1} + others && others <= {2, 3} && Total(SpreadOf(c)) == multiset(others)
    requires forall t :: t in others ==> TagOk(c, t) && RoomFor(c, 0, t)
    requires HeapOrder(c.dead) && HeapOrder(c.rel) && Fits(0, c.dead) && Fits(0, c.rel) && c.ticks < HALF
    ensures Inv(c) && RoomAt(c, 0) && Room(c)
  {
    SmallPartition(c, others);
    hide Partitioned, TagOk, RoomFor;
  }

  lemma {:induction false} SubsetSize(a: set<nat>, b: set<nat>)
    requires a <= b
    ensures |a| <= |b|
    decreases |b|
  {
    if a != {} {
      var x :| x in a;
      SubsetSize(a - {x}, b - {x});
    }
  }

  lemma SmallHeap(s: seq<Node>)
    requires |s| <= 2 && (forall i :: 0 <= i < |s| ==> s[i].order < HALF) && (|s| == 2 ==> s[0].order <= s[1].order)
    ensures HeapOrder(s) && Fits(0, s)
  {
    forall i | 0 <= i < |s| ensures FitsAt(0, s, i) {
      KeyIs(0, s[i].order);
    }
    if |s| == 2 {
      PlainOrder(0, s[1].order, s[0].order);
      assert AboveParent(s, 1);
    }
  }

  lemma PicksHead(a: Cpu)
    requires Inv(a) && Room(a) && !HeadDue(a)
    requires a.dead != [] && a.dead[0].thread in a.tcb && a.tcb[a.dead[0].thread].status != FINISHED
    ensures ReleaseDue(a) == a && SelectDead(a) == (PickDead(a), true)
  {
    hide PickDead;
  }

  // ---------------------------------------------------------------- a stale release

  /** At tick 10 a thread sleeps alone until tick 15. */
  function SleepsAlone(): Cpu {
    Cpu(10, map[1 := Idle(), 2 := Thread(PENDING, PERIODIC, REL_HEAP, 10, 15, 25)],
        [], [], [], [], [], [], [Node(15, 2)], 1, 1, 0, 0)
  }

  /** At tick 20: it was suspended again, until tick 1000, and another thread is due at 20. */
  function StaleRelease(): Cpu {
    Cpu(20, map[1 := Idle(), 2 := Thread(PENDING, PERIODIC, REL_HEAP, 10, 1000, 1015),
                3 := Thread(PENDING, PERIODIC, REL_HEAP, 10, 20, 30)],
        [], [], [], [], [], [], [Node(15, 2), Node(20, 3)], 1, 1, 0, 0)
  }

  lemma SleepsAloneOk()
    ensures Inv(SleepsAlone()) && Room(SleepsAlone())
  {
    var c := SleepsAlone();
    SmallHeap(c.dead);
    SmallHeap(c.rel);
    assert Threads(c.dead) == [] && Threads(c.rel) == [2];
    assert multiset([2]) == multiset({2});
    assert Total(SpreadOf(c)) == multiset({2});
    SmallState(c, {2});
  }

  /** suspend_thread leaves the lone sleeper's node stale. */
  lemma SleeperGoesStale()
    ensures Inv(SleepsAlone())
    ensures var (r, ok) := Susp.Suspend(SleepsAlone(), 2, 990);
            ok && r.rel == [Node(15, 2)] && 2 in r.tcb && r.tcb[2] == StaleRelease().tcb[2]
  {
    SleepsAloneOk();
    var c := SleepsAlone();
    KeyIs(25, 10);
    KeyIs(1000, 15);
    assert TagOk(c, 2);
    assert Susp.Suspended(c.tcb[2], 10, 990) == StaleRelease().tcb[2];
    assert Threads(c.rel) == [2];
  }

  lemma StaleReleaseTags(t: nat)
    requires t == 2 || t == 3
    ensures TagOk(StaleRelease(), t) && RoomFor(StaleRelease(), 0, t)
    ensures Total(SpreadOf(StaleRelease())) == multiset({2, 3})
  {
    var c := StaleRelease();
    assert Threads(c.dead) == [] && Threads(c.rel) == [2, 3];
    assert multiset([2, 3]) == multiset({2, 3});
  }

  lemma StaleReleaseOk()
    ensures Inv(StaleRelease()) && Room(StaleRelease()) && KeysOk(StaleRelease())
  {
    StaleReleaseTags(2);
    StaleReleaseTags(3);
    hide TagOk, RoomFor, Total, SpreadOf;
    var c := StaleRelease();
    SmallHeap(c.dead);
    SmallHeap(c.rel);
    SmallState(c, {2, 3});
    StaleReleaseKeys();
  }

  lemma StaleReleaseKeys()
    ensures KeysOk(StaleRelease())
  {
    var c := StaleRelease();
    assert forall n :: n in c.rel ==> n == Node(15, 2) || n == Node(20, 3);
    assert StaleIn(c.rel, Releases(c)) == {2};
  }

  lemma NobodyFound(c: Cpu, lockFree: bool)
    requires Inv(c) && Room(c) && c.incoming == [] && !HeadDue(c) && c.dead == [] && c.high == [] && c.med == [] && c.low == []
    ensures Prepared(c) == c && !NextUp(c, lockFree).1
  {
    assert Admit(c) == c && ReleaseDue(c) == c && SelectDead(c) == (c, false);
    EmptyLevel(c, HIGH_PRIORITY);
    EmptyLevel(c, MED_PRIORITY);
    EmptyLevel(c, LOW_PRIORITY);
    hide Inv, Room, Admit, ReleaseDue, SelectDead, SelectLevel;
  }

  lemma StaleReleaseHead(c: Cpu)
    requires c == StaleRelease()
    ensures c.rel != [] && c.rel[0].thread in c.tcb && !HeadDue(c)
    ensures 3 in c.tcb && Due(c, 3) && c.main == 1 && PlaceIn(SpreadOf(c), 3) == AtRel && RunsFromHeap(c.tcb[3], c.ticks)
    ensures c.incoming == [] && c.dead == [] && c.high == [] && c.med == [] && c.low == []
  {
    KeyIs(1000, 20);
    assert Threads(c.rel) == [2, 3] && 3 in multiset([2, 3]);
  }

  /** The thread due at tick 20 stays asleep behind the stale node, and next_up finds nobody. */
  lemma OverlooksDueThread(c: Cpu, lockFree: bool)
    requires c == StaleRelease()
    ensures Inv(c) && Room(c) && KeysOk(c)
    ensures Overlooked(c, 3) && !NextUp(c, lockFree).1 && 3 in c.tcb && c.tcb[3].release == c.ticks
  {
    StaleReleaseOk();
    StaleReleaseHead(c);
    assert 3 in c.tcb && c.tcb[3].release == c.ticks;
    hide StaleRelease, Inv, Room, KeysOk, NextUp, HeadDue, Wakes, PlaceIn, SpreadOf, RunsFromHeap;
    NobodyWakes(c, 3);
    NobodyFound(c, lockFree);
  }

  // ---------------------------------------------------------------- a kill undone

  /** A thread waits for admission. */
  function Arriving(): Cpu {
    Cpu(0, map[1 := Idle(), 2 := Thread(PENDING, APERIODIC, INCOMING_THREADS, 5, 0, 0)],
        [2], [], [], [], [], [], [], 1, 1, 0, 0)
  }

  lemma ArrivingOk()
    ensures Inv(Arriving()) && Room(Arriving()) && Holds(Arriving(), AtIncoming, 2)
  {
    var c := Arriving();
    SmallHeap([]);
    assert Threads([]) == [];
    assert multiset([2]) == multiset({2});
    assert Total(SpreadOf(c)) == multiset({2});
    SmallState(c, {2});
  }

  /** Killed before admission, it is live and unfinished after the next decision. */
  lemma KillUndone(c: Cpu, lockFree: bool)
    requires c == Arriving()
    ensures Inv(c) && Room(c) && Inv(Steps.Kill(c, 2)) && Room(Steps.Kill(c, 2))
    ensures var r := Dispatch(Steps.Kill(c, 2), lockFree); 2 in r.tcb && r.tcb[2].status != FINISHED
  {
    ArrivingOk();
    hide Dispatch, Inv, Room;
    Steps.KillFinalIff(c, 2, lockFree);
  }

  // ---------------------------------------------------------------- a suspension without effect

  /** A persistent thread runs. */
  function PersistentRuns(): Cpu {
    Cpu(1, map[1 := Idle(), 2 := Thread(RUNNING, PERSISTENT, FIFO_LOW, 200, 1, 201).(landed := 1)],
        [], [], [2], [], [], [], [], 2, 1, 0, 0)
  }

  lemma PersistentRunsOk()
    ensures Inv(PersistentRuns()) && RoomAt(PersistentRuns(), 0)
  {
    var c := PersistentRuns();
    SmallHeap([]);
    assert Threads([]) == [];
    assert multiset([2]) == multiset({2});
    assert Total(SpreadOf(c)) == multiset({2});
    SmallState(c, {2});
  }

  /** suspend_thread reports success for it, and it can run exactly as before. */
  lemma SuspendedYetRunnable(c: Cpu)
    requires c == PersistentRuns()
    ensures Inv(c) && Susp.Suspend(c, 2, 5).1 && Runnable(Susp.Suspend(c, 2, 5).0, 2)
  {
    PersistentRunsOk();
    KeyIs(1, 6);
    KeyIs(201, 1);
    assert PlaceIn(SpreadOf(c), 2) == AtLevel(LOW_PRIORITY);
  }

  // ---------------------------------------------------------------- a switch without priming

  /** A periodic thread runs while another one, never run so far, waits with a later deadline. */
  function OneWaits(): Cpu {
    Cpu(1, map[1 := Idle(), 2 := Thread(RUNNING, PERIODIC, DEAD_HEAP, 10, 1, 11),
               3 := Thread(PENDING, PERIODIC, DEAD_HEAP, 20, 1, 21)],
        [], [], [], [], [], [Node(11, 2), Node(21, 3)], [], 2, 1, 0, 0)
  }

  lemma OneWaitsTags(t: nat)
    requires t == 2 || t == 3
    ensures TagOk(OneWaits(), t) && RoomFor(OneWaits(), 0, t)
    ensures Total(SpreadOf(OneWaits())) == multiset({2, 3})
  {
    var c := OneWaits();
    assert Threads(c.dead) == [2, 3] && Threads(c.rel) == [];
    assert multiset([2, 3]) == multiset({2, 3});
  }

  lemma OneWaitsOk()
    ensures Inv(OneWaits()) && RoomAt(OneWaits(), 0)
  {
    OneWaitsTags(2);
    OneWaitsTags(3);
    hide TagOk, RoomFor, Total, SpreadOf;
    var c := OneWaits();
    SmallHeap(c.dead);
    SmallHeap(c.rel);
    SmallState(c, {2, 3});
  }

  lemma RunnerSuspended(c: Cpu)
    requires c == OneWaits()
    ensures Inv(c)
    ensures var (s, ok) := Susp.Suspend(c, 2, 5);
            && ok && s.dead == [Node(21, 3)] && s.rel == [Node(6, 2)] && s.incoming == [] && s.outgoing == [] && s.ticks == 1
            && 2 in s.tcb && s.tcb[2].release == 6 && 3 in s.tcb && s.tcb[3] == c.tcb[3]
    ensures RoomAt(c, 0) && Susp.SuspendFits(c, 0, 2, 5)
  {
    OneWaitsOk();
    KeyIs(1, 6);
    KeyIs(11, 1);
    assert Threads(c.dead) == [2, 3] && 2 in multiset([2, 3]);
    assert RemoveNode(c.dead, 0) == [Node(21, 3)] by {
      assert c.dead[..1][0 := c.dead[1]] == [Node(21, 3)];
    }
    assert TagOk(c, 2);
  }

  /** When it suspends itself, the waiting thread is switched to although it was never primed. */
  lemma SwitchesUnprimed(c: Cpu, lockFree: bool)
    requires c == OneWaits()
    ensures Inv(c) && Inv(Susp.Suspend(c, 2, 5).0) && Room(Susp.Suspend(c, 2, 5).0) && Susp.Suspend(c, 2, 5).1
    ensures var r := Dispatch(Susp.Suspend(c, 2, 5).0, lockFree); r.curr == 3 && 3 in r.tcb && r.tcb[3].status == PENDING
  {
    RunnerSuspended(c);
    Susp.SuspendKeeps(c, 0, 2, 5);
    var s := Susp.Suspend(c, 2, 5).0;
    KeyIs(6, 1);
    hide Susp.Suspend, OneWaits, Inv;
    PicksHead(s);
    assert Admit(s) == s;
    PickDeadOk(s);
    PickedThere(s);
  }

  lemma PickedThere(s: Cpu)
    requires s.dead != [] && s.dead[0].thread in s.tcb
    ensures var (r, t) := (PickDead(s), s.dead[0].thread);
            r.curr == t && t in r.tcb && r.tcb[t].status == s.tcb[t].status && r.outgoing == s.outgoing
  {
  }
}
