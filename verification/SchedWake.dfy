/** Which threads a decision admits and wakes, and when it finds one, in terms of the state it starts from. */
module SchedWake {
  import opened Wrapped
  import opened ThreadTypes
  import opened HeapOps
  import opened HeapKeys
  import opened SchedState
  import opened SchedMoves
  import opened Sched
  import opened SchedLaws
  import opened SchedChoice
  import opened SchedKeys

  // ---------------------------------------------------------------- admission

  /** Where admission puts a thread. */
  function AdmittedTo(x: Tcb): Place {
    if x.periodicity == PERSISTENT then AtLevel(x.priority) else AtDead
  }

  /** A thread as the decision starts to select: newcomers are admitted by then. */
  function Entry(c: Cpu, t: nat): Tcb
    requires t in c.tcb
  {
    if t in c.incoming then Admitted(c.tcb[t], c.ticks) else c.tcb[t]
  }

  lemma IncomingOnce(c: Cpu)
    requires Partitioned(c) && c.incoming != []
    ensures c.incoming[0] !in c.incoming[1..] && c.incoming[0] in c.tcb
  {
    var q := c.incoming;
    assert Holds(c, AtIncoming, q[0]);
    OnlyPlace(c, AtIncoming, AtIncoming, q[0]);
    if q[0] in q[1..] {
      LiveOnce(c, q[0]);
      TotalAtLeast(SpreadOf(c), AtIncoming, AtOutgoing, q[0]);
      var j :| 0 <= j < |q[1..]| && q[1..][j] == q[0];
      TwiceQueued(q, 0, j + 1);
    }
  }

  lemma AdmitOneIs(c: Cpu)
    requires Inv(c) && Room(c) && c.incoming != []
    ensures c.incoming[0] in c.tcb
    ensures var (t, r) := (c.incoming[0], AdmitOne(c));
            && r.tcb == c.tcb[t := Admitted(c.tcb[t], c.ticks)] && r.rel == c.rel && r.ticks == c.ticks
            && r.incoming == c.incoming[1..] && r.main == c.main
            && Moves(c, r, SansIncoming(c), AtIncoming, AdmittedTo(c.tcb[t]), t)
            && r.dead == if c.tcb[t].periodicity == PERSISTENT then c.dead
                         else Insert(c.dead, Node(Add32(c.ticks, c.tcb[t].period), t))
  {
    var w :| RoomAt(c, w);
    AdmitOneKeeps(c, w);
  }

  /** What admission does to a thread and to the release heap. */
  lemma {:induction false} AdmitThread(c: Cpu, t: nat)
    requires Inv(c) && Room(c) && t in c.tcb
    ensures var r := Admit(c);
            && r.rel == c.rel && t in r.tcb && r.tcb[t] == Entry(c, t)
            && PlaceIn(SpreadOf(r), t) == if t in c.incoming then AdmittedTo(c.tcb[t]) else PlaceIn(SpreadOf(c), t)
    decreases |c.incoming|
  {
    if c.incoming != [] {
      AdmitOneOk(c);
      AdmitOneIs(c);
      IncomingOnce(c);
      var u, a := c.incoming[0], AdmitOne(c);
      var q := AdmittedTo(c.tcb[u]);
      MovedPlace(c, a, SansIncoming(c), AtIncoming, q, u, t);
      hide AdmitOne, Inv, Room, Moves, PlaceIn, Admitted;
      assert t in c.incoming <==> t == u || t in c.incoming[1..];
      AdmitThread(a, t);
    }
  }

  /** A move takes its own thread to its new place and leaves the others where they are. */
  lemma MovedPlace(c: Cpu, r: Cpu, s: Spread, p: Place, q: Place, t: nat, u: nat)
    requires Partitioned(c) && Moves(c, r, s, p, q, t)
    ensures PlaceIn(SpreadOf(r), u) == if u == t then q else PlaceIn(SpreadOf(c), u)
    ensures PlaceIn(SpreadOf(c), t) == p
  {
    LiftedFacts(c, s, p, t);
    hide Put, PlaceIn, Total;
    if u == t {
      PutHere(s, q, t);
    } else {
      PutElsewhere(s, p, t, u);
      PutElsewhere(s, q, t, u);
    }
    PutHere(s, p, t);
  }

  // ---------------------------------------------------------------- waking

  /** The thread's release tick has come. */
  predicate Due(c: Cpu, t: nat) {
    t in c.tcb && c.tcb[t].release <= c.ticks
  }

  predicate WakesAt(c: Cpu, t: nat, j: int) {
    var d := Drain(c.rel);
    0 <= j < |d| && d[j].thread == t && forall i {:trigger d[i]} :: 0 <= i <= j ==> Due(c, d[i].thread)
  }

  /** Sleeper t leaves the release heap at this tick: it is due, and so are all that would leave the heap before it. */
  ghost predicate Wakes(c: Cpu, t: nat) {
    exists j :: WakesAt(c, t, j)
  }

  /** In the order in which the release heap gives up its threads, those that are due come first. */
  ghost predicate DueFirst(c: Cpu) {
    var d := Drain(c.rel);
    forall i, j {:trigger d[i], d[j]} :: 0 <= i < j < |d| && Due(c, d[j].thread) ==> Due(c, d[i].thread)
  }

  /** No thread of the release heap is due. */
  ghost predicate NoneDue(c: Cpu) {
    forall n {:trigger n in c.rel} :: n in c.rel ==> !Due(c, n.thread)
  }

  lemma ReleaseOneIs(c: Cpu)
    requires Inv(c) && Room(c) && HeadDue(c)
    ensures var (t, r) := (c.rel[0].thread, ReleaseOne(c));
            && t in c.tcb && c.tcb[t].release <= c.ticks && r.tcb == c.tcb[t := c.tcb[t].(owner := DEAD_HEAP)]
            && r.rel == RemoveHead(c.rel) && r.ticks == c.ticks && r.incoming == c.incoming && r.main == c.main
            && r.dead == Insert(c.dead, Node(c.tcb[t].deadline, t))
            && Moves(c, r, SansRel(c), AtRel, AtDead, t)
  {
    var w :| RoomAt(c, w);
    ReleaseOneKeeps(c, w);
    LiftedTags(c, SansRel(c), AtRel, c.rel[0].thread, w);
    DueMeansPast(c.ticks, c.tcb[c.rel[0].thread].release, w);
  }

  lemma HeadNotDue(c: Cpu)
    requires Inv(c) && Room(c) && c.rel != [] && !HeadDue(c)
    ensures !Due(c, c.rel[0].thread) && c.rel[0].thread in c.tcb
  {
    var w :| RoomAt(c, w);
    var t := c.rel[0].thread;
    InThreads(c.rel, c.rel[0]);
    assert Holds(c, AtRel, t);
    OnlyPlace(c, AtRel, AtRel, t);
    PlaceFound(c, AtRel, t);
    assert RoomFor(c, w, t);
    DueMeansPast(c.ticks, c.tcb[t].release, w);
  }

  lemma SameDue(c: Cpu, u: nat)
    requires HeadDue(c)
    ensures Due(ReleaseOne(c), u) == Due(c, u)
  {
  }

  /** The head wakes, and whoever wakes once it is gone. */
  lemma WakesStep(c: Cpu, u: nat)
    requires Inv(c) && Room(c) && HeadDue(c)
    ensures Wakes(c, u) <==> u == c.rel[0].thread || Wakes(ReleaseOne(c), u)
    ensures DueFirst(c) <==> DueFirst(ReleaseOne(c))
  {
    ReleaseOneIs(c);
    var r, d := ReleaseOne(c), Drain(c.rel);
    var e := Drain(r.rel);
    assert d == [c.rel[0]] + e;
    forall v ensures Due(r, v) == Due(c, v) {
      SameDue(c, v);
    }
    hide ReleaseOne, Drain, Due, Inv, Room;
    assert Due(c, d[0].thread) by { HeadIsDue(c); }
    StepWakes(c, r, d, e, u);
    assert forall j {:trigger e[j]} :: 0 <= j < |e| ==> d[j + 1] == e[j];
    if DueFirst(c) {
      forall i, j | 0 <= i < j < |e| && Due(r, e[j].thread) ensures Due(r, e[i].thread) {
        assert d[i + 1] == e[i] && d[j + 1] == e[j];
      }
    }
    if DueFirst(r) {
      forall i, j | 0 <= i < j < |d| && Due(c, d[j].thread) ensures Due(c, d[i].thread) {
        if i > 0 {
          assert d[i] == e[i - 1] && d[j] == e[j - 1];
        }
      }
    }
  }

  lemma HeadIsDue(c: Cpu)
    requires Inv(c) && Room(c) && HeadDue(c)
    ensures Due(c, c.rel[0].thread)
  {
    ReleaseOneIs(c);
  }

  lemma StepWakes(c: Cpu, r: Cpu, d: seq<Node>, e: seq<Node>, u: nat)
    requires d == Drain(c.rel) && e == Drain(r.rel) && c.rel != [] && d == [c.rel[0]] + e
    requires Due(c, c.rel[0].thread) && forall v :: Due(r, v) == Due(c, v)
    ensures Wakes(c, u) <==> u == c.rel[0].thread || Wakes(r, u)
  {
    hide Drain, Due;
    if j :| WakesAt(c, u, j) {
      if j > 0 {
        forall i | 0 <= i <= j - 1 ensures Due(r, e[i].thread) {
          assert d[i + 1] == e[i];
        }
        assert WakesAt(r, u, j - 1);
      }
    }
    if u == c.rel[0].thread {
      assert WakesAt(c, u, 0);
    }
    if j :| WakesAt(r, u, j) {
      forall i | 0 <= i <= j + 1 ensures Due(c, d[i].thread) {
        if i > 0 {
          assert d[i] == e[i - 1];
        }
      }
      assert WakesAt(c, u, j + 1);
    }
  }

  lemma NobodyWakes(c: Cpu, t: nat)
    requires Inv(c) && Room(c) && !HeadDue(c)
    ensures !Wakes(c, t)
  {
    if c.rel != [] {
      assert Drain(c.rel)[0] == c.rel[0];
      HeadNotDue(c);
    }
  }

  lemma WakerSleeps(c: Cpu, t: nat)
    requires Inv(c) && Room(c) && Wakes(c, t)
    ensures Holds(c, AtRel, t) && t in c.tcb && t != c.main && PlaceIn(SpreadOf(c), t) == AtRel && Due(c, t)
  {
    var w :| RoomAt(c, w);
    DrainSorts(w, c.rel);
    var j :| WakesAt(c, t, j);
    var n := Drain(c.rel)[j];
    assert n in multiset(Drain(c.rel));
    InThreads(c.rel, n);
    assert Holds(c, AtRel, t);
    OnlyPlace(c, AtRel, AtRel, t);
    PlaceFound(c, AtRel, t);
  }

  /** What the release loop does to a thread: it goes to the deadline heap exactly if it wakes. */
  lemma {:induction false} ReleaseThread(c: Cpu, t: nat)
    requires Inv(c) && Room(c) && t in c.tcb
    ensures var r := ReleaseDue(c);
            && t in r.tcb && r.tcb[t] == (if Wakes(c, t) then c.tcb[t].(owner := DEAD_HEAP) else c.tcb[t])
            && PlaceIn(SpreadOf(r), t) == if Wakes(c, t) then AtDead else PlaceIn(SpreadOf(c), t)
    decreases |c.rel|
  {
    if !HeadDue(c) {
      NobodyWakes(c, t);
    } else {
      ReleaseOneOk(c);
      ReleaseOneIs(c);
      WakesStep(c, t);
      var u, a := c.rel[0].thread, ReleaseOne(c);
      MovedPlace(c, a, SansRel(c), AtRel, AtDead, u, t);
      if t == u && Wakes(a, t) {
        WakerSleeps(a, t);
      }
      hide ReleaseOne, Inv, Room, Moves, PlaceIn, Wakes, HeadDue;
      ReleaseThread(a, t);
    }
  }

  lemma NoneDueIff(c: Cpu)
    requires Inv(c) && Room(c) && !HeadDue(c)
    ensures NoneDue(c) <==> DueFirst(c)
  {
    var w :| RoomAt(c, w);
    DrainSorts(w, c.rel);
    var d := Drain(c.rel);
    SameNodes(d, c.rel);
    if c.rel != [] {
      HeadNotDue(c);
      assert d[0] == c.rel[0];
      hide Drain, Due;
      if DueFirst(c) {
        forall n | n in c.rel ensures !Due(c, n.thread) {
          var j :| 0 <= j < |d| && d[j] == n;
        }
      }
      if NoneDue(c) {
        forall j | 0 <= j < |d| ensures !Due(c, d[j].thread) {
          assert d[j] in c.rel;
        }
      }
    }
  }

  /** The release loop leaves no due thread behind exactly when due threads come first before it. */
  lemma {:induction false} ReleasesAllIff(c: Cpu)
    requires Inv(c) && Room(c)
    ensures NoneDue(ReleaseDue(c)) <==> DueFirst(c)
    decreases |c.rel|
  {
    if !HeadDue(c) {
      NoneDueIff(c);
    } else {
      ReleaseOneOk(c);
      ReleaseOneIs(c);
      WakesStep(c, 0);
      hide ReleaseOne, Inv, Room, DueFirst, NoneDue, HeadDue;
      ReleasesAllIff(ReleaseOne(c));
    }
  }

  // ---------------------------------------------------------------- admission and waking together

  lemma SleeperKept(c: Cpu, n: Node)
    requires Inv(c) && Room(c) && n in c.rel
    ensures Due(Admit(c), n.thread) == Due(c, n.thread)
  {
    var u := n.thread;
    InThreads(c.rel, n);
    assert Holds(c, AtRel, u);
    OnlyPlace(c, AtRel, AtRel, u);
    if u in c.incoming {
      assert Holds(c, AtIncoming, u);
      OnlyPlace(c, AtRel, AtIncoming, u);
    }
    AdmitThread(c, u);
  }

  /** Waking depends on the release heap and on which of its threads are due. */
  lemma SameWaking(c: Cpu, a: Cpu, t: nat)
    requires a.rel == c.rel && forall n {:trigger n in Drain(c.rel)} :: n in Drain(c.rel) ==> Due(a, n.thread) == Due(c, n.thread)
    ensures (DueFirst(a) <==> DueFirst(c)) && (Wakes(a, t) <==> Wakes(c, t))
  {
    var d := Drain(c.rel);
    hide Drain, Due;
    forall i | 0 <= i < |d| ensures Due(a, d[i].thread) == Due(c, d[i].thread) {
      assert d[i] in d;
    }
    if j :| WakesAt(a, t, j) {
      assert WakesAt(c, t, j);
    }
    if j :| WakesAt(c, t, j) {
      assert WakesAt(a, t, j);
    }
  }

  lemma AdmitSleepers(c: Cpu, t: nat)
    requires Inv(c) && Room(c)
    ensures var a := Admit(c);
            && a.rel == c.rel && (DueFirst(a) <==> DueFirst(c)) && (Wakes(a, t) <==> Wakes(c, t))
  {
    var w :| RoomAt(c, w);
    DrainSorts(w, c.rel);
    SameNodes(Drain(c.rel), c.rel);
    AdmitThread(c, c.main);
    hide Admit, Drain, Due, Inv, Room, RoomAt, DueFirst, Wakes;
    forall n | n in Drain(c.rel) ensures Due(Admit(c), n.thread) == Due(c, n.thread) {
      SleeperKept(c, n);
    }
    SameWaking(c, Admit(c), t);
  }

  /** After admission and release no due thread is left in the release heap exactly when due threads come first in the
      heap as the decision finds it. */
  lemma NoDueLeftIff(c: Cpu)
    requires Inv(c) && Room(c)
    ensures NoneDue(Prepared(c)) <==> DueFirst(c)
  {
    hide DueFirst, NoneDue, Admit, ReleaseDue;
    AdmitSleepers(c, 0);
    ReleasesAllIff(Admit(c));
  }

  /** Where a thread is when the decision starts to select. */
  function PreparedPlace(x: Tcb, p: Place, wakes: bool): Place {
    if p == AtIncoming then AdmittedTo(x) else if p == AtRel && wakes then AtDead else p
  }

  lemma InIncoming(c: Cpu, t: nat)
    requires Partitioned(c) && t in c.tcb && t != c.main
    ensures PlaceIn(SpreadOf(c), t) == AtIncoming <==> t in c.incoming
  {
    LiveOnce(c, t);
  }

  lemma PreparedThread(c: Cpu, t: nat)
    requires Inv(c) && Room(c) && t in c.tcb && t != c.main
    ensures var b := Prepared(c);
            && t in b.tcb && b.tcb[t].(owner := DEAD_HEAP) == Entry(c, t).(owner := DEAD_HEAP) && b.main == c.main
            && PlaceIn(SpreadOf(b), t) == PreparedPlace(c.tcb[t], PlaceIn(SpreadOf(c), t), Wakes(c, t))
  {
    AdmitThread(c, t);
    AdmitSleepers(c, t);
    ReleaseThread(Admit(c), t);
    InIncoming(c, t);
    if Wakes(c, t) {
      WakerSleeps(c, t);
    }
    hide Admit, ReleaseDue, Wakes, PlaceIn;
  }

  // ---------------------------------------------------------------- when a thread is found

  /** Thread t can run at this decision: a newcomer always; a thread of a level if unfinished; a thread of the deadline
      heap if unfinished or its next job is released; a sleeper likewise if it wakes. */
  ghost predicate CanRun(c: Cpu, t: nat) {
    && t in c.tcb && t != c.main
    && match PlaceIn(SpreadOf(c), t)
       case AtIncoming => true
       case AtOutgoing => false
       case AtDead => RunsFromHeap(c.tcb[t], c.ticks)
       case AtRel => Wakes(c, t) && RunsFromHeap(c.tcb[t], c.ticks)
       case AtLevel(_) => c.tcb[t].status != FINISHED
  }

  /** Sleeper t is due but does not wake: the release heap would give up a thread before it that is not due. */
  ghost predicate LeftAsleep(c: Cpu, t: nat) {
    t in c.tcb && t != c.main && PlaceIn(SpreadOf(c), t) == AtRel && Due(c, t) && !Wakes(c, t)
  }

  /** It would run if it woke. */
  ghost predicate Overlooked(c: Cpu, t: nat) {
    LeftAsleep(c, t) && RunsFromHeap(c.tcb[t], c.ticks)
  }

  ghost predicate SomeCanRun(c: Cpu) {
    exists t :: CanRun(c, t)
  }

  ghost predicate SomeLeftAsleep(c: Cpu) {
    exists t :: LeftAsleep(c, t)
  }

  ghost predicate SomeOverlooked(c: Cpu) {
    exists t :: Overlooked(c, t)
  }

  lemma OwnerFree(x: Tcb, y: Tcb, ticks: nat)
    requires x.(owner := DEAD_HEAP) == y.(owner := DEAD_HEAP)
    ensures RunsFromHeap(x, ticks) == RunsFromHeap(y, ticks) && x.status == y.status
    ensures x.period > 0 ==> Rearmed(x, ticks).deadline == Rearmed(y, ticks).deadline
  {
  }

  /** Being admitted and waking, as far as running is concerned. */
  lemma PreparedRuns(x: Tcb, p: Place, wakes: bool, ticks: nat)
    ensures var y := if p == AtIncoming then Admitted(x, ticks) else x;
            RunnableAt(y, PreparedPlace(x, p, wakes), ticks)
            <==> match p
                 case AtIncoming => true
                 case AtOutgoing => false
                 case AtDead => RunsFromHeap(x, ticks)
                 case AtRel => wakes && RunsFromHeap(x, ticks)
                 case AtLevel(_) => x.status != FINISHED
  {
    hide Rearmed;
  }

  lemma OwnerFreeAt(x: Tcb, y: Tcb, p: Place, ticks: nat)
    requires x.(owner := DEAD_HEAP) == y.(owner := DEAD_HEAP)
    ensures RunnableAt(x, p, ticks) == RunnableAt(y, p, ticks)
  {
    OwnerFree(x, y, ticks);
    hide RunsFromHeap;
  }

  lemma CanRunIff(c: Cpu, t: nat)
    requires Inv(c) && Room(c)
    ensures Runnable(Prepared(c), t) <==> CanRun(c, t)
  {
    hide Wakes, RunsFromHeap, RunnableAt, PlaceIn, SpreadOf, Partitioned, Room, Evolves, Admitted, PreparedPlace, Admit, ReleaseDue;
    var b := Prepared(c);
    PreparedKeys(c);
    if t in c.tcb && t != c.main {
      PreparedThread(c, t);
      InIncoming(c, t);
      PreparedRuns(c.tcb[t], PlaceIn(SpreadOf(c), t), Wakes(c, t), c.ticks);
      OwnerFreeAt(b.tcb[t], Entry(c, t), PlaceIn(SpreadOf(b), t), c.ticks);
    }
  }

  lemma PreparedKeys(c: Cpu)
    requires Inv(c) && Room(c)
    ensures Prepared(c).tcb.Keys == c.tcb.Keys && Prepared(c).main == c.main
  {
  }

  /** A decision finds a thread exactly when some thread can run, and then picks one that can. */
  lemma FoundIffCanRun(c: Cpu, lockFree: bool)
    requires Inv(c) && Room(c)
    ensures var (r, found) := NextUp(c, lockFree); (found <==> SomeCanRun(c)) && (found ==> CanRun(c, r.curr))
  {
    hide Runnable, CanRun, NextUp, Choose, Admit, ReleaseDue, Inv, Room;
    FoundIffRunnable(c, lockFree);
    assert Prepared(c) == ReleaseDue(Admit(c));
    hide Prepared;
    forall t ensures Runnable(Prepared(c), t) <==> CanRun(c, t) {
      CanRunIff(c, t);
    }
  }

  /** A decision finds a thread whenever one is ready, except exactly when overlooked sleepers are the only ready threads;
      and a due sleeper is left asleep exactly when due threads do not come first in the release heap. */
  lemma FoundIffReady(c: Cpu, lockFree: bool)
    requires Inv(c) && Room(c)
    ensures (NextUp(c, lockFree).1 <==> SomeCanRun(c) || SomeOverlooked(c)) <==> SomeCanRun(c) || !SomeOverlooked(c)
    ensures SomeOverlooked(c) ==> SomeLeftAsleep(c)
    ensures SomeLeftAsleep(c) <==> !DueFirst(c)
  {
    FoundIffCanRun(c, lockFree);
    hide NextUp, CanRun, DueFirst, LeftAsleep;
    if t :| Overlooked(c, t) {
      assert LeftAsleep(c, t);
    }
    LeftAsleepIff(c);
  }

  lemma LeftAsleepIff(c: Cpu)
    requires Inv(c) && Room(c)
    ensures SomeLeftAsleep(c) <==> !DueFirst(c)
  {
    hide LeftAsleep, DueFirst;
    if DueFirst(c) {
      forall t ensures !LeftAsleep(c, t) {
        DueFirstWakes(c, t);
      }
    } else {
      NoDueLeftIff(c);
      hide Prepared;
      var n :| n in Prepared(c).rel && Due(Prepared(c), n.thread);
      StillAsleep(c, n);
    }
  }

  lemma StillAsleep(c: Cpu, n: Node)
    requires Inv(c) && Room(c) && n in Prepared(c).rel && Due(Prepared(c), n.thread)
    ensures LeftAsleep(c, n.thread)
  {
    hide Prepared, Wakes, Room, HeapOrder, Total;
    var b := Prepared(c);
    PreparedKeys(c);
    InThreads(b.rel, n);
    assert Holds(b, AtRel, n.thread);
    OnlyPlace(b, AtRel, AtRel, n.thread);
    PlaceFound(b, AtRel, n.thread);
    PreparedThread(c, n.thread);
    InIncoming(c, n.thread);
  }

  lemma DueFirstWakes(c: Cpu, t: nat)
    requires Inv(c) && Room(c) && DueFirst(c)
    ensures !LeftAsleep(c, t)
  {
    if t in c.tcb && t != c.main && PlaceIn(SpreadOf(c), t) == AtRel && Due(c, t) {
      var w :| RoomAt(c, w);
      DrainSorts(w, c.rel);
      SameNodes(Drain(c.rel), c.rel);
      RelHolds(c, t);
      var n := ThreadsIn(c.rel, t);
      var d := Drain(c.rel);
      var j :| 0 <= j < |d| && d[j] == n;
      hide Drain, Inv, Room, RoomAt;
      assert WakesAt(c, t, j);
    }
  }

  lemma RelHolds(c: Cpu, t: nat)
    requires Partitioned(c) && t in c.tcb && t != c.main && PlaceIn(SpreadOf(c), t) == AtRel
    ensures t in Threads(c.rel)
  {
    LiveOnce(c, t);
  }

  // ---------------------------------------------------------------- stale sleepers

  lemma DrainPlain(w: nat, s: seq<Node>, i: nat, j: nat)
    requires Plain(w) && HeapOrder(s) && Fits(w, s) && i < j < |Drain(s)|
    ensures Drain(s)[i].order <= Drain(s)[j].order
  {
    DrainSorts(w, s);
    var d := Drain(s);
    PermFits(w, s, d);
    assert NotBelow(d[i], d[j]) && FitsAt(w, d, i) && FitsAt(w, d, j);
    PlainOrder(w, d[j].order, d[i].order);
  }

  /** If the one stale sleeper there can be is due, or there is none, due threads come first. */
  lemma FreshDueFirst(c: Cpu)
    requires Inv(c) && Room(c) && KeysOk(c)
    requires forall t :: t in StaleOf(c).rel ==> Due(c, t)
    ensures DueFirst(c)
  {
    var w :| RoomAt(c, w);
    DrainSorts(w, c.rel);
    var d := Drain(c.rel);
    SameNodes(d, c.rel);
    forall i, j | 0 <= i < j < |d| && Due(c, d[j].thread) ensures Due(c, d[i].thread) {
      DrainPlain(w, c.rel, i, j);
      assert d[i] in c.rel && d[j] in c.rel;
      assert KeyOk(d[i], Releases(c)) && KeyOk(d[j], Releases(c));
    }
  }

  /** A sleeper that is not due, stored before one that is, keeps that one asleep. */
  lemma EarlierBlocks(c: Cpu, m: Node, n: Node)
    requires Inv(c) && Room(c) && m in c.rel && n in c.rel && !Due(c, m.thread) && Due(c, n.thread) && m.order < n.order
    ensures !DueFirst(c)
  {
    hide Drain, HeapOrder, Fits, Partitioned;
    var w :| RoomAt(c, w);
    var d := Drain(c.rel);
    DrainSorts(w, c.rel);
    SameNodes(d, c.rel);
    var i :| 0 <= i < |d| && d[i] == m;
    var j :| 0 <= j < |d| && d[j] == n;
    if j < i {
      DrainPlain(w, c.rel, j, i);
    }
  }

  /** Whenever a due thread is left behind, a stale sleeper that is not due is stored at or before it. */
  lemma BlockedByStale(c: Cpu) returns (m: Node, n: Node)
    requires Inv(c) && Room(c) && KeysOk(c) && !DueFirst(c)
    ensures m in c.rel && n in c.rel && !Due(c, m.thread) && Due(c, n.thread) && m.order <= n.order
    ensures m.thread in StaleOf(c).rel
  {
    var w :| RoomAt(c, w);
    var d := Drain(c.rel);
    DrainSorts(w, c.rel);
    SameNodes(d, c.rel);
    var i, j :| 0 <= i < j < |d| && Due(c, d[j].thread) && !Due(c, d[i].thread);
    DrainPlain(w, c.rel, i, j);
    m, n := d[i], d[j];
    assert m in c.rel && n in c.rel;
    assert KeyOk(m, Releases(c)) && KeyOk(n, Releases(c));
    hide Drain;
  }

  /** Due threads do not come first if a sleeper that is not due is stored before one that is; and whenever they do not,
      a stale sleeper that is not due is stored at or before one that is. */
  lemma DueFirstByOrders(c: Cpu)
    requires Inv(c) && Room(c) && KeysOk(c)
    ensures forall m, n :: m in c.rel && n in c.rel && !Due(c, m.thread) && Due(c, n.thread) && m.order < n.order ==> !DueFirst(c)
    ensures !DueFirst(c) ==>
              exists m, n :: m in c.rel && n in c.rel && !Due(c, m.thread) && Due(c, n.thread) && m.order <= n.order
                             && m.thread in StaleOf(c).rel
  {
    hide Inv, Room, KeysOk, DueFirst, StaleOf, Due;
    forall m, n | m in c.rel && n in c.rel && !Due(c, m.thread) && Due(c, n.thread) && m.order < n.order
      ensures !DueFirst(c) {
      EarlierBlocks(c, m, n);
    }
    if !DueFirst(c) {
      var m, n := BlockedByStale(c);
    }
  }
}
