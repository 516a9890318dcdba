/** Which thread of the deadline heap a decision chooses, in terms of the state it starts from, and when that is one with
    the earliest deadline. */
module SchedEarliest {
  import opened Wrapped
  import opened ThreadTypes
  import opened HeapOps
  import opened HeapKeys
  import opened SchedState
  import opened SchedMoves
  import opened Sched
  import opened SchedLaws
  import opened SchedChoice
  import opened SchedKeys
  import opened SchedStale
  import opened SchedWake

  // ---------------------------------------------------------------- the selection loop

  /** The deadline a thread of the deadline heap runs for if it is chosen now. */
  function DueAt(x: Tcb, ticks: nat): nat
    requires RunsFromHeap(x, ticks)
  {
    if x.status != FINISHED then x.deadline else Rearmed(x, ticks).deadline
  }

  /** What the selection goes by: the stored order, or the new deadline of a finished thread that is re-armed. */
  function KeyOf(n: Node, x: Tcb, ticks: nat): nat
    requires RunsFromHeap(x, ticks)
  {
    if x.status != FINISHED then n.order else Rearmed(x, ticks).deadline
  }

  /** Node n of the deadline heap is one whose thread can run. */
  predicate Competes(c: Cpu, n: Node) {
    n in c.dead && n.thread in c.tcb && RunsFromHeap(c.tcb[n.thread], c.ticks)
  }

  ghost predicate SomeCompete(c: Cpu) {
    exists n :: Competes(c, n)
  }

  function HeapKey(c: Cpu, n: Node): nat
    requires Competes(c, n)
  {
    KeyOf(n, c.tcb[n.thread], c.ticks)
  }

  /** No node has a smaller key. */
  ghost predicate LeastKey(c: Cpu, m: Node)
    requires Competes(c, m)
  {
    forall n {:trigger Competes(c, n)} :: Competes(c, n) ==> HeapKey(c, m) <= HeapKey(c, n)
  }

  lemma DeadNode(c: Cpu, n: Node)
    requires Partitioned(c) && n in c.dead
    ensures Holds(c, AtDead, n.thread) && n.thread in c.tcb && n.thread != c.main
    ensures PlaceIn(SpreadOf(c), n.thread) == AtDead
  {
    InThreads(c.dead, n);
    assert Holds(c, AtDead, n.thread);
    OnlyPlace(c, AtDead, AtDead, n.thread);
    PlaceFound(c, AtDead, n.thread);
  }

  lemma RootLowest(c: Cpu, n: Node)
    requires Inv(c) && Room(c) && n in c.dead
    ensures c.dead[0].order <= n.order
  {
    var w :| RoomAt(c, w);
    var i :| 0 <= i < |c.dead| && c.dead[i] == n;
    if i > 0 {
      var j := PathGrows(w, c.dead, i);
    }
  }

  lemma RearmedLater(x: Tcb, ticks: nat)
    requires x.period > 0
    ensures Rearmed(x, ticks).deadline >= x.deadline + x.period && Rearmed(x, ticks).status == PENDING
  {
  }

  /** An unfinished root has the least key. */
  lemma RootLeast(c: Cpu)
    requires Inv(c) && Room(c) && KeysOk(c) && c.dead != []
    requires c.dead[0].thread in c.tcb && c.tcb[c.dead[0].thread].status != FINISHED
    ensures Competes(c, c.dead[0]) && LeastKey(c, c.dead[0])
  {
    forall n | Competes(c, n) ensures HeapKey(c, c.dead[0]) <= HeapKey(c, n) {
      RootLowest(c, n);
      assert KeyOk(n, Deadlines(c));
      if c.tcb[n.thread].status == FINISHED {
        RearmedLater(c.tcb[n.thread], c.ticks);
      }
    }
  }

  /** What re-arming the head leaves in the heap: nothing of it if it goes to sleep, its re-keyed node if it has company. */
  lemma RearmNodes(c: Cpu, n: Node)
    requires Inv(c) && Room(c) && HeadFinished(c, PERIODIC) && c.tcb[c.dead[0].thread].period > 0
    ensures var (t, r) := (c.dead[0].thread, RearmOne(c)); var x := Rearmed(c.tcb[t], c.ticks);
            && t in r.tcb && r.tcb[t].status == PENDING && r.tcb[t].deadline == x.deadline && r.ticks == c.ticks
            && (n.thread != t ==> (n in r.dead <==> n in c.dead) && (n.thread in r.tcb <==> n.thread in c.tcb)
                                  && (n.thread in c.tcb ==> r.tcb[n.thread] == c.tcb[n.thread]))
            && (n.thread == t && n in c.dead ==> n == c.dead[0])
            && (n.thread == t && n in r.dead ==> RunsFromHeap(c.tcb[t], c.ticks))
            && (n.thread == t && |c.dead| > 1 && RunsFromHeap(c.tcb[t], c.ticks) ==> (n in r.dead <==> n == Node(x.deadline, t)))
  {
    var t, r := c.dead[0].thread, RearmOne(c);
    var x := Rearmed(c.tcb[t], c.ticks);
    DeadHeadGone(c);
    if n in c.dead && n.thread == t {
      OneNode(c, n);
    }
    if LtWrapped(c.ticks, x.release) {
      RemoveHeadPerm(c.dead);
      HeadOut(c.dead, n);
      if n in r.dead {
        InThreads(r.dead, n);
      }
    } else if |c.dead| > 1 {
      forall j | 0 < j < |c.dead| ensures c.dead[j].thread != t {
        HeapOnce(c, AtDead, c.dead, j, 0);
      }
      Rekeyed(c.dead, x.deadline, n);
    }
  }

  lemma OneNode(c: Cpu, n: Node)
    requires Inv(c) && n in c.dead && n.thread == c.dead[0].thread
    ensures n == c.dead[0]
  {
    var i :| 0 <= i < |c.dead| && c.dead[i] == n;
    if i > 0 {
      HeapOnce(c, AtDead, c.dead, i, 0);
    }
  }

  lemma HeadOut(s: seq<Node>, n: Node)
    requires s != [] && multiset(s) == multiset(RemoveHead(s)) + multiset{s[0]}
    ensures n != s[0] ==> (n in RemoveHead(s) <==> n in s)
  {
    assert n in s <==> n in multiset(s);
    assert n in RemoveHead(s) <==> n in multiset(RemoveHead(s));
  }

  lemma Rekeyed(s: seq<Node>, order: nat, n: Node)
    requires |s| > 1 && forall j :: 0 < j < |s| ==> s[j].thread != s[0].thread
    ensures n.thread != s[0].thread ==> (n in Balance(s, 0, order) <==> n in s)
    ensures n.thread == s[0].thread ==> (n in Balance(s, 0, order) <==> n == Node(order, s[0].thread))
  {
    var t := s[0 := s[0].(order := order)];
    BalancePerm(s, 0, order);
    SameNodes(t, Balance(s, 0, order));
    if n in t {
      var j :| 0 <= j < |t| && t[j] == n;
    }
    if n in s {
      var j :| 0 <= j < |s| && s[j] == n;
      assert t[j] == if j == 0 then Node(order, s[0].thread) else n;
    }
    assert t[0] == Node(order, s[0].thread);
  }

  lemma RetireNodes(c: Cpu, n: Node)
    requires Inv(c) && Room(c) && HeadFinished(c, APERIODIC)
    ensures var (t, r) := (c.dead[0].thread, RetireOne(c));
            && (n in r.dead <==> n in c.dead && n.thread != t) && (n.thread in r.tcb <==> n.thread in c.tcb) && r.ticks == c.ticks
            && (n.thread != t && n.thread in c.tcb ==> r.tcb[n.thread] == c.tcb[n.thread])
  {
    var r := RetireOne(c);
    DeadHeadGone(c);
    RemoveHeadPerm(c.dead);
    HeadOut(c.dead, n);
    if n in c.dead && n.thread == c.dead[0].thread {
      OneNode(c, n);
    }
    if n in r.dead {
      InThreads(r.dead, n);
    }
  }

  /** The thread chosen from node m of the heap as c has it. */
  ghost predicate ChosenFrom(c: Cpu, r: Cpu, m: Node) {
    && Competes(c, m) && LeastKey(c, m) && m.thread == r.curr && r.curr in r.tcb
    && r.tcb[r.curr].deadline == DueAt(c.tcb[m.thread], c.ticks)
  }

  ghost predicate SomeChosen(c: Cpu, r: Cpu) {
    exists m :: ChosenFrom(c, r, m)
  }

  /** A node of the re-armed heap and the node it was before. */
  lemma RearmCompetes(c: Cpu, n: Node)
    requires Inv(c) && Room(c) && HeadFinished(c, PERIODIC) && c.tcb[c.dead[0].thread].period > 0
    ensures var (t, r) := (c.dead[0].thread, RearmOne(c));
            && (n.thread != t ==> Competes(r, n) == Competes(c, n))
            && (n.thread != t && Competes(c, n) ==> HeapKey(r, n) == HeapKey(c, n)
                                                    && DueAt(r.tcb[n.thread], r.ticks) == DueAt(c.tcb[n.thread], c.ticks))
            && (n.thread == t && Competes(c, n) ==> n == c.dead[0])
            && (n.thread == t && Competes(r, n) ==>
                  Competes(c, c.dead[0]) && DueAt(r.tcb[t], r.ticks) == DueAt(c.tcb[t], c.ticks)
                  && (|c.dead| > 1 ==> HeapKey(r, n) == HeapKey(c, c.dead[0])))
            && (|c.dead| > 1 && Competes(c, c.dead[0]) ==>
                  var k := Node(Rearmed(c.tcb[t], c.ticks).deadline, t);
                  Competes(r, k) && HeapKey(r, k) == HeapKey(c, c.dead[0]))
  {
    var t := c.dead[0].thread;
    RearmNodes(c, n);
    RearmNodes(c, Node(Rearmed(c.tcb[t], c.ticks).deadline, t));
    hide RearmOne, Rearmed, Inv, Room;
    hide Wrapped.LtWrapped;
  }

  lemma RearmChosen(c: Cpu, r: Cpu, k: Node) returns (m: Node)
    requires Inv(c) && Room(c) && HeadFinished(c, PERIODIC) && c.tcb[c.dead[0].thread].period > 0
    requires ChosenFrom(RearmOne(c), r, k)
    ensures ChosenFrom(c, r, m)
  {
    var t, a := c.dead[0].thread, RearmOne(c);
    RearmCompetes(c, k);
    m := if k.thread == t then c.dead[0] else k;
    hide RearmOne, Rearmed, Inv, Room, HeapKey, DueAt;
    forall n | Competes(c, n) ensures HeapKey(c, m) <= HeapKey(c, n) {
      RearmCompetes(c, n);
      if n.thread == t && |c.dead| > 1 {
        var e := Node(Rearmed(c.tcb[t], c.ticks).deadline, t);
        assert Competes(a, e);
      }
      assert |c.dead| == 1 ==> n == c.dead[0] && m == c.dead[0] by { OneOfOne(c, n, m); }
    }
  }

  lemma OneOfOne(c: Cpu, n: Node, m: Node)
    requires Competes(c, n) && Competes(c, m)
    ensures |c.dead| == 1 ==> n == c.dead[0] && m == c.dead[0]
  {
  }

  lemma RetireChosen(c: Cpu, r: Cpu, m: Node)
    requires Inv(c) && Room(c) && HeadFinished(c, APERIODIC) && ChosenFrom(RetireOne(c), r, m)
    ensures ChosenFrom(c, r, m)
  {
    RetireNodes(c, m);
    hide RetireOne, Inv, Room, Rearmed;
    forall n | Competes(c, n) ensures HeapKey(c, m) <= HeapKey(c, n) {
      RetireNodes(c, n);
      assert Competes(RetireOne(c), n);
    }
  }

  lemma RearmSome(c: Cpu)
    requires Inv(c) && Room(c) && HeadFinished(c, PERIODIC) && c.tcb[c.dead[0].thread].period > 0
    ensures SomeCompete(RearmOne(c)) <==> SomeCompete(c)
  {
    var t := c.dead[0].thread;
    RearmCompetes(c, c.dead[0]);
    RearmAlone(c);
    hide RearmOne, Rearmed, Inv, Room, HeapKey, DueAt;
    if n :| Competes(c, n) {
      RearmCompetes(c, n);
    }
    if n :| Competes(RearmOne(c), n) {
      RearmCompetes(c, n);
    }
  }

  lemma RearmAlone(c: Cpu)
    requires Inv(c) && Room(c) && HeadFinished(c, PERIODIC) && c.tcb[c.dead[0].thread].period > 0
    ensures |c.dead| == 1 && Competes(c, c.dead[0]) ==> Competes(RearmOne(c), c.dead[0])
  {
  }

  lemma RetireSome(c: Cpu)
    requires Inv(c) && Room(c) && HeadFinished(c, APERIODIC)
    ensures SomeCompete(RetireOne(c)) <==> SomeCompete(c)
  {
    hide RetireOne, Inv, Room, Rearmed;
    if n :| Competes(c, n) {
      RetireNodes(c, n);
      assert Competes(RetireOne(c), n);
    }
    if n :| Competes(RetireOne(c), n) {
      RetireNodes(c, n);
      assert Competes(c, n);
    }
  }

  lemma PickChosen(c: Cpu)
    requires Inv(c) && Room(c) && KeysOk(c) && c.dead != []
    requires c.dead[0].thread in c.tcb && c.tcb[c.dead[0].thread].status != FINISHED
    ensures ChosenFrom(c, PickDead(c), c.dead[0]) && SomeCompete(c)
  {
    RootLeast(c);
  }

  /** The selection loop finds a thread exactly when one competes, and chooses one of least key. */
  lemma {:induction false} SelectDeadLeast(c: Cpu)
    requires Inv(c) && Room(c) && KeysOk(c)
    ensures var (r, found) := SelectDead(c); (found <==> SomeCompete(c)) && (found ==> SomeChosen(c, r))
    decreases FinishedDead(c)
  {
    hide RearmOne, RetireOne, PickDead, KeysOk, Inv, Room, SomeCompete, ChosenFrom, FinishedDead;
    if c.dead == [] {
      assert !SomeCompete(c) by { NobodyCompetes(c); }
    } else {
      PickDeadOk(c);
      var t, r := c.dead[0].thread, SelectDead(c).0;
      if c.tcb[t].status != FINISHED {
        PickChosen(c);
      } else if c.tcb[t].periodicity == PERIODIC {
        RearmOneOk(c);
        RearmOneKeys(c);
        RearmSome(c);
        SelectDeadLeast(RearmOne(c));
        if k :| ChosenFrom(RearmOne(c), r, k) {
          var m := RearmChosen(c, r, k);
        }
      } else {
        RetireOneOk(c);
        RetireOneKeys(c);
        RetireSome(c);
        SelectDeadLeast(RetireOne(c));
        if m :| ChosenFrom(RetireOne(c), r, m) {
          RetireChosen(c, r, m);
        }
      }
    }
  }

  lemma NobodyCompetes(c: Cpu)
    requires c.dead == []
    ensures !SomeCompete(c)
  {
  }

  // ---------------------------------------------------------------- who takes part

  /** The node admission files newcomer n.thread under. */
  predicate NewNode(c: Cpu, n: Node) {
    && n.thread in c.incoming && n.thread in c.tcb && c.tcb[n.thread].periodicity != PERSISTENT
    && n.order == Add32(c.ticks, c.tcb[n.thread].period)
  }

  /** The node release files sleeper n.thread under. */
  ghost predicate WokenNode(c: Cpu, n: Node) {
    Wakes(c, n.thread) && n.thread in c.tcb && n.order == c.tcb[n.thread].deadline
  }

  lemma Inserted(s: seq<Node>, k: Node, n: Node)
    ensures n in Insert(s, k) <==> n in s || n == k
  {
    InsertPerm(s, k);
    assert n in Insert(s, k) <==> n in multiset(Insert(s, k));
    assert n in s <==> n in multiset(s);
  }

  lemma {:induction false} AdmitDead(c: Cpu, n: Node)
    requires Inv(c) && Room(c)
    ensures n in Admit(c).dead <==> n in c.dead || NewNode(c, n)
    decreases |c.incoming|
  {
    if c.incoming != [] {
      AdmitOneOk(c);
      AdmitOneIs(c);
      IncomingOnce(c);
      var u, a := c.incoming[0], AdmitOne(c);
      Inserted(c.dead, Node(Add32(c.ticks, c.tcb[u].period), u), n);
      hide AdmitOne, Inv, Room, Moves, Admitted;
      assert n.thread in c.incoming <==> n.thread == u || n.thread in c.incoming[1..];
      AdmitDead(a, n);
    }
  }

  /** Whose node a release step files, and whose are still to come. */
  lemma WokenStep(c: Cpu, n: Node)
    requires Inv(c) && Room(c) && HeadDue(c)
    ensures var (u, a) := (c.rel[0].thread, ReleaseOne(c));
            && (n in a.dead <==> n in c.dead || n == Node(c.tcb[u].deadline, u))
            && (WokenNode(c, n) <==> n == Node(c.tcb[u].deadline, u) || WokenNode(a, n))
  {
    ReleaseOneIs(c);
    WakesStep(c, n.thread);
    HeadLeaves(c);
    var u := c.rel[0].thread;
    Inserted(c.dead, Node(c.tcb[u].deadline, u), n);
    hide ReleaseOne, Inv, Room, Moves, Wakes, Insert;
  }

  lemma {:induction false} ReleaseDead(c: Cpu, n: Node)
    requires Inv(c) && Room(c)
    ensures n in ReleaseDue(c).dead <==> n in c.dead || WokenNode(c, n)
    decreases |c.rel|
  {
    if !HeadDue(c) {
      NobodyWakes(c, n.thread);
    } else {
      ReleaseOneOk(c);
      WokenStep(c, n);
      assert |ReleaseOne(c).rel| < |c.rel|;
      hide ReleaseOne, Inv, Room, WokenNode;
      ReleaseDead(ReleaseOne(c), n);
    }
  }

  lemma HeadLeaves(c: Cpu)
    requires Inv(c) && Room(c) && HeadDue(c)
    ensures Inv(ReleaseOne(c)) && Room(ReleaseOne(c)) && !Wakes(ReleaseOne(c), c.rel[0].thread)
  {
    ReleaseOneOk(c);
    ReleaseOneIs(c);
    var u, a := c.rel[0].thread, ReleaseOne(c);
    MovedPlace(c, a, SansRel(c), AtRel, AtDead, u, u);
    if Wakes(a, u) {
      WakerSleeps(a, u);
    }
  }

  /** Node n will be in the deadline heap when the selection starts: it is there, or its thread is a newcomer, or wakes. */
  ghost predicate Enters(c: Cpu, n: Node) {
    n in c.dead || NewNode(c, n) || WokenNode(c, n)
  }

  lemma AdmitWoken(c: Cpu, n: Node)
    requires Inv(c) && Room(c)
    ensures WokenNode(Admit(c), n) <==> WokenNode(c, n)
  {
    AdmitSleepers(c, n.thread);
    if Wakes(c, n.thread) {
      WakerSleeps(c, n.thread);
      AdmitThread(c, n.thread);
      NotIncoming(c, n.thread);
    }
    hide Admit, Wakes, Inv, Room;
  }

  lemma NotIncoming(c: Cpu, t: nat)
    requires Partitioned(c) && t in c.tcb && PlaceIn(SpreadOf(c), t) == AtRel
    ensures t !in c.incoming
  {
  }

  lemma PreparedDead(c: Cpu, n: Node)
    requires Inv(c) && Room(c)
    ensures n in Prepared(c).dead <==> Enters(c, n)
  {
    hide Admit, ReleaseDue, Inv, Room, NewNode, WokenNode;
    AdmitDead(c, n);
    ReleaseDead(Admit(c), n);
    AdmitWoken(c, n);
  }

  /** Node n's thread can be chosen from the deadline heap at this decision. */
  ghost predicate Contends(c: Cpu, n: Node) {
    Enters(c, n) && n.thread in c.tcb && RunsFromHeap(Entry(c, n.thread), c.ticks)
  }

  ghost predicate SomeContend(c: Cpu) {
    exists n :: Contends(c, n)
  }

  /** The deadline n's thread would run for. */
  function DueOf(c: Cpu, n: Node): nat
    requires Contends(c, n)
  {
    DueAt(Entry(c, n.thread), c.ticks)
  }

  /** What the decision orders n's thread by: that deadline, but the stored order of an unfinished thread. */
  function OrderKey(c: Cpu, n: Node): nat
    requires Contends(c, n)
  {
    KeyOf(n, Entry(c, n.thread), c.ticks)
  }

  lemma OwnerFreeKey(n: Node, x: Tcb, y: Tcb, ticks: nat)
    requires x.(owner := DEAD_HEAP) == y.(owner := DEAD_HEAP)
    ensures RunsFromHeap(x, ticks) == RunsFromHeap(y, ticks)
    ensures RunsFromHeap(x, ticks) ==> DueAt(x, ticks) == DueAt(y, ticks) && KeyOf(n, x, ticks) == KeyOf(n, y, ticks)
  {
    OwnerFree(x, y, ticks);
  }

  lemma ContendsIff(c: Cpu, n: Node)
    requires Inv(c) && Room(c)
    ensures Competes(Prepared(c), n) <==> Contends(c, n)
    ensures Contends(c, n) ==>
              && HeapKey(Prepared(c), n) == OrderKey(c, n)
              && DueAt(Prepared(c).tcb[n.thread], c.ticks) == DueOf(c, n)
  {
    hide Prepared, Enters, RunsFromHeap, Partitioned, Room, Entry, KeyOf, DueAt, Holds, PlaceIn, SpreadOf;
    var b := Prepared(c);
    PreparedDead(c, n);
    PreparedKeys(c);
    if n in b.dead {
      DeadNode(b, n);
      PreparedThread(c, n.thread);
      OwnerFreeKey(n, b.tcb[n.thread], Entry(c, n.thread), c.ticks);
    }
  }

  /** The thread chosen from node m, in terms of the state the decision starts from: nobody who contends has a smaller
      key, and it runs for its deadline there. */
  ghost predicate Wins(c: Cpu, r: Cpu, m: Node) {
    && Contends(c, m) && m.thread == r.curr && r.curr in r.tcb && r.tcb[r.curr].deadline == DueOf(c, m)
    && forall n {:trigger Contends(c, n)} :: Contends(c, n) ==> OrderKey(c, m) <= OrderKey(c, n)
  }

  ghost predicate SomeWins(c: Cpu, r: Cpu) {
    exists m :: Wins(c, r, m)
  }

  lemma ChosenWins(c: Cpu, r: Cpu, m: Node)
    requires Inv(c) && Room(c) && ChosenFrom(Prepared(c), r, m)
    ensures Wins(c, r, m)
  {
    ContendsIff(c, m);
    hide Prepared, Inv, Room, HeapKey, OrderKey, DueOf, DueAt;
    forall n | Contends(c, n) ensures OrderKey(c, m) <= OrderKey(c, n) {
      ContendsIff(c, n);
    }
  }

  lemma PreparedKeysOk(c: Cpu)
    requires Inv(c) && Room(c) && KeysOk(c)
    ensures KeysOk(Prepared(c)) && StaleOf(Prepared(c)).dead == StaleOf(c).dead
  {
    AdmitKeys(c);
    ReleaseDueKeys(Admit(c));
    ReleaseStaleDead(Admit(c), StaleOf(Admit(c)));
    hide Admit, ReleaseDue, KeysOk, StaleIn;
  }

  lemma {:induction false} ReleaseStaleDead(c: Cpu, l: Stale)
    requires Inv(c) && Room(c)
    ensures ReleaseDueStale(c, l).dead == l.dead
    decreases |c.rel|
  {
    if HeadDue(c) {
      ReleaseOneOk(c);
      ReleaseStaleDead(ReleaseOne(c), ReleaseStale(c, l));
    }
  }

  /** The choice from the deadline heap survives the rest of the decision. */
  lemma HeapChoice(c: Cpu, lockFree: bool)
    requires Inv(c) && Room(c)
    ensures var ((r, _), (d, f)) := (NextUp(c, lockFree), SelectDead(Prepared(c)));
            && (r.dead != [] <==> f)
            && (f ==> r.curr == d.curr && r.dead == d.dead && d.curr in d.tcb && r.curr in r.tcb && r.tcb[r.curr] == d.tcb[d.curr])
  {
    hide SelectLevels, Admit, ReleaseDue, SelectDead, Inv, Room, RunsLeast, ReapAll;
    var b := Prepared(c);
    SelectDeadPicks(b);
    var (d, f) := SelectDead(b);
    if f {
      assert Choose(c) == (d, true);
      HeapChoiceLives(d);
    } else {
      SelectLevelsPicks(d);
    }
  }

  lemma HeapChoiceLives(d: Cpu)
    requires Inv(d) && Room(d) && RunsLeast(d)
    ensures d.dead != [] && d.curr in d.tcb && d.curr in ReapAll(d).tcb && ReapAll(d).tcb[d.curr] == d.tcb[d.curr]
  {
    hide ReapAll;
    PickedPlace(d);
    ReapAllFrees(d);
    assert d.curr in d.outgoing ==> Holds(d, AtOutgoing, d.curr);
  }

  /** The rule of the choice: the decision runs a thread of the deadline heap exactly when one contends there, and then one
      of least key. */
  lemma ChoosesLeastKey(c: Cpu, lockFree: bool)
    requires Inv(c) && Room(c) && KeysOk(c)
    ensures var r := NextUp(c, lockFree).0;
            (r.dead != [] <==> SomeContend(c)) && (r.dead != [] ==> SomeWins(c, r))
  {
    HeapChoice(c, lockFree);
    PreparedKeysOk(c);
    var b := Prepared(c);
    SelectDeadLeast(b);
    hide NextUp, SelectDead, Prepared, Inv, Room, KeysOk, Competes, Contends, ChosenFrom, Wins;
    if n :| Competes(b, n) {
      ContendsIff(c, n);
    }
    if n :| Contends(c, n) {
      ContendsIff(c, n);
    }
    var (r, d) := (NextUp(c, lockFree).0, SelectDead(b).0);
    if m :| ChosenFrom(b, d, m) {
      ChosenWins(c, d, m);
      if r.dead != [] {
        SameWin(c, d, r, m);
      }
    }
  }

  lemma SameWin(c: Cpu, d: Cpu, r: Cpu, m: Node)
    requires Wins(c, d, m) && r.curr == d.curr && r.curr in r.tcb && d.curr in d.tcb && r.tcb[r.curr] == d.tcb[d.curr]
    ensures Wins(c, r, m)
  {
  }

  // ---------------------------------------------------------------- the earliest deadline

  /** Nobody who contends has a deadline before d. */
  ghost predicate Earliest(c: Cpu, d: nat) {
    forall n {:trigger Contends(c, n)} :: Contends(c, n) ==> d <= DueOf(c, n)
  }

  /** s is an unfinished thread's stale node: stored below the thread's deadline. */
  ghost predicate StaleContender(c: Cpu, s: Node) {
    Contends(c, s) && s in c.dead && c.tcb[s.thread].status != FINISHED && s.order < c.tcb[s.thread].deadline
  }

  ghost predicate Later(c: Cpu, s: Node)
    requires Contends(c, s)
  {
    exists n {:trigger Contends(c, n)} :: Contends(c, n) && DueOf(c, n) < DueOf(c, s)
  }

  /** The stale node s is stored below the deadlines of all others who contend, but its thread's own deadline is not the
      earliest. */
  ghost predicate Misleads(c: Cpu, s: Node) {
    StaleContender(c, s) && Later(c, s)
    && forall n {:trigger Contends(c, n)} :: Contends(c, n) && n != s ==> s.order < DueOf(c, n)
  }

  /** As before, but s may be stored at the deadline of another one: then the shape of the heap decides. */
  ghost predicate MayMislead(c: Cpu, s: Node) {
    StaleContender(c, s) && Later(c, s)
    && forall n {:trigger Contends(c, n)} :: Contends(c, n) && n != s ==> s.order <= DueOf(c, n)
  }

  ghost predicate SomeMisleads(c: Cpu) {
    exists s :: Misleads(c, s)
  }

  ghost predicate SomeMayMislead(c: Cpu) {
    exists s :: MayMislead(c, s)
  }

  /** No stale contender is stored at exactly the deadline of another contender. */
  ghost predicate NoTie(c: Cpu) {
    forall s, n {:trigger StaleContender(c, s), Contends(c, n)} ::
      StaleContender(c, s) && Contends(c, n) && n != s ==> s.order != DueOf(c, n)
  }

  /** Only a stale contender is ordered by anything but the deadline it would run for. */
  lemma KeyIsDeadline(c: Cpu, n: Node)
    requires Inv(c) && Room(c) && KeysOk(c) && Contends(c, n)
    ensures OrderKey(c, n) <= DueOf(c, n)
    ensures OrderKey(c, n) == DueOf(c, n) <==> !StaleContender(c, n)
    ensures StaleContender(c, n) ==> OrderKey(c, n) == n.order && DueOf(c, n) == c.tcb[n.thread].deadline
  {
    hide Wakes;
    if n in c.dead {
      assert KeyOk(n, Deadlines(c));
      DeadNode(c, n);
      InIncoming(c, n.thread);
    } else if WokenNode(c, n) {
      WakerSleeps(c, n.thread);
      InIncoming(c, n.thread);
    }
  }

  /** There is at most one stale contender. */
  lemma OneStale(c: Cpu, s: Node, n: Node)
    requires Inv(c) && KeysOk(c) && StaleContender(c, s) && StaleContender(c, n)
    ensures s == n
  {
    assert s.thread in StaleIn(c.dead, Deadlines(c)) && n.thread in StaleIn(c.dead, Deadlines(c));
    var i :| 0 <= i < |c.dead| && c.dead[i] == s;
    var j :| 0 <= j < |c.dead| && c.dead[j] == n;
    if i != j {
      HeapOnce(c, AtDead, c.dead, i, j);
    }
  }

  /** If the winner does not have the earliest deadline, it is a stale contender stored no later than anyone's deadline. */
  lemma NotEarliestMisled(c: Cpu, r: Cpu, m: Node)
    requires Inv(c) && Room(c) && KeysOk(c) && Wins(c, r, m) && !Earliest(c, DueOf(c, m))
    ensures MayMislead(c, m)
  {
    hide Inv, Room, KeysOk, Contends, DueOf, OrderKey;
    var k :| Contends(c, k) && DueOf(c, k) < DueOf(c, m);
    KeyIsDeadline(c, m);
    KeyIsDeadline(c, k);
    assert StaleContender(c, m);
    forall n | Contends(c, n) && n != m ensures m.order <= DueOf(c, n) {
      KeyIsDeadline(c, n);
    }
  }

  /** A stale contender stored below all others' deadlines wins. */
  lemma MisledWins(c: Cpu, r: Cpu, m: Node, s: Node)
    requires Inv(c) && Room(c) && KeysOk(c) && Wins(c, r, m) && Misleads(c, s)
    ensures m == s && !Earliest(c, DueOf(c, m))
  {
    hide Inv, Room, KeysOk, Contends, DueOf, OrderKey;
    KeyIsDeadline(c, s);
    KeyIsDeadline(c, m);
    if m != s {
      assert StaleContender(c, m);
      OneStale(c, s, m);
    }
  }

  /** Earliest deadline first, in terms of the state a decision starts from: the thread chosen from the deadline heap has
      the earliest deadline of all that contend unless a stale node misleads the decision. Only when a stale node is
      stored at exactly another contender's deadline does the shape of the heap decide. */
  lemma EarliestIff(c: Cpu, lockFree: bool)
    requires Inv(c) && Room(c) && KeysOk(c)
    ensures var r := NextUp(c, lockFree).0;
            r.dead != [] ==>
              && r.curr in r.tcb
              && (SomeMisleads(c) ==> !Earliest(c, r.tcb[r.curr].deadline))
              && (!SomeMayMislead(c) ==> Earliest(c, r.tcb[r.curr].deadline))
              && (NoTie(c) ==> (Earliest(c, r.tcb[r.curr].deadline) <==> !SomeMisleads(c)))
  {
    ChoosesLeastKey(c, lockFree);
    hide NextUp, Inv, Room, KeysOk, Contends, DueOf, OrderKey, Earliest, Misleads, MayMislead, NoTie;
    var r := NextUp(c, lockFree).0;
    if r.dead != [] {
      var m :| Wins(c, r, m);
      if !Earliest(c, r.tcb[r.curr].deadline) {
        NotEarliestMisled(c, r, m);
        if NoTie(c) {
          UntiedMisleads(c, m);
        }
      }
      if s :| Misleads(c, s) {
        MisledWins(c, r, m, s);
      }
    }
  }

  lemma UntiedMisleads(c: Cpu, s: Node)
    requires NoTie(c) && MayMislead(c, s)
    ensures Misleads(c, s)
  {
    hide Contends, DueOf;
  }

  /** If the one stale thread there can be in the deadline heap is finished, or there is none, nothing misleads. */
  lemma FreshEarliest(c: Cpu)
    requires Inv(c) && Room(c) && KeysOk(c)
    requires forall t :: t in StaleOf(c).dead ==> c.tcb[t].status == FINISHED
    ensures !SomeMayMislead(c)
  {
    hide Enters, DueOf;
    forall s ensures !StaleContender(c, s) {
      if s in c.dead && s.thread in c.tcb && s.order < c.tcb[s.thread].deadline {
        assert s.thread in StaleIn(c.dead, Deadlines(c));
      }
    }
  }

  // ---------------------------------------------------------------- the heap the choice is made from

  /** No thread of the deadline heap, finished or not, has a deadline before that of the running thread. */
  ghost predicate RunsEarliest(r: Cpu) {
    r.curr in r.tcb && AllFrom(r.dead, Deadlines(r), r.tcb[r.curr].deadline)
  }

  lemma PickSame(b: Cpu)
    requires Inv(b) && b.dead != [] && b.dead[0].thread in b.tcb
    ensures var (r, t) := (PickDead(b), b.dead[0].thread);
            && r.dead == b.dead && r.curr == t && t in r.tcb && r.tcb[t].deadline == b.tcb[t].deadline
            && Deadlines(r) == Deadlines(b)
  {
    var t := b.dead[0].thread;
    assert PickDead(b).tcb.Keys == b.tcb.Keys;
  }

  /** An unfinished root is chosen, and is the earliest of the whole heap exactly when neither of its children is stored
      below its deadline. */
  lemma RootEarliestIff(b: Cpu)
    requires Inv(b) && Room(b) && KeysOk(b) && b.dead != []
    requires b.dead[0].thread in b.tcb && b.tcb[b.dead[0].thread].status != FINISHED
    ensures var ((r, found), d) := (SelectDead(b), b.tcb[b.dead[0].thread].deadline);
            && found && r.curr == b.dead[0].thread
            && (RunsEarliest(r) <==> !ChildBelowKey(b.dead, d))
            && (b.dead[0].thread !in StaleOf(b).dead ==> !ChildBelowKey(b.dead, d))
  {
    RootFirst(b);
    PickSame(b);
    hide PickDead, Deadlines, Inv, Room, KeysOk;
  }

  lemma RootFirst(r: Cpu)
    requires Inv(r) && Room(r) && KeysOk(r) && r.dead != []
    ensures var t := r.dead[0].thread;
            && t in r.tcb
            && (AllFrom(r.dead, Deadlines(r), r.tcb[t].deadline) <==> !ChildBelowKey(r.dead, r.tcb[t].deadline))
            && (t !in StaleOf(r).dead ==> !ChildBelowKey(r.dead, r.tcb[t].deadline))
  {
    var w :| RoomAt(r, w);
    DeadHeadGone(r);
    var t := r.dead[0].thread;
    forall j | 0 < j < |r.dead| ensures r.dead[j].thread != t {
      HeapOnce(r, AtDead, r.dead, j, 0);
    }
    AllFromIff(w, r.dead, Deadlines(r), r.tcb[t].deadline);
    if t !in StaleOf(r).dead {
      FreshFirst(w, r.dead, Deadlines(r), r.tcb[t].deadline);
    }
  }

  /** Before the selection loop: the heap has at most one node, or its stale thread, if any, is finished. */
  ghost predicate FreshEnough(b: Cpu) {
    |b.dead| <= 1 || forall t :: t in StaleOf(b).dead ==> t in b.tcb && b.tcb[t].status == FINISHED
  }

  lemma RearmFresh(b: Cpu)
    requires Inv(b) && Room(b) && KeysOk(b) && HeadFinished(b, PERIODIC) && b.tcb[b.dead[0].thread].period > 0
    requires FreshEnough(b)
    ensures FreshEnough(RearmOne(b))
  {
    RearmOneKeys(b);
    hide KeysOk;
    if |b.dead| > 1 {
      var a := RearmOne(b);
      forall t | t in StaleOf(a).dead ensures t in a.tcb && a.tcb[t].status == FINISHED {
        assert t in StaleOf(b).dead && t != b.dead[0].thread;
      }
    }
  }

  lemma RetireFresh(b: Cpu)
    requires Inv(b) && Room(b) && KeysOk(b) && HeadFinished(b, APERIODIC) && FreshEnough(b)
    ensures FreshEnough(RetireOne(b))
  {
    RetireOneKeys(b);
    hide KeysOk;
    if |b.dead| > 1 {
      var a := RetireOne(b);
      forall t | t in StaleOf(a).dead ensures t in a.tcb && a.tcb[t].status == FINISHED {
        assert t in StaleOf(b).dead && t != b.dead[0].thread;
      }
    }
  }

  lemma AloneEarliest(b: Cpu)
    requires Inv(b) && Room(b) && KeysOk(b) && b.dead != [] && FreshEnough(b)
    requires b.dead[0].thread in b.tcb && b.tcb[b.dead[0].thread].status != FINISHED
    ensures !ChildBelowKey(b.dead, b.tcb[b.dead[0].thread].deadline)
  {
    hide Inv, Room;
    RootFirst(b);
  }

  /** From such a heap the selection loop chooses the earliest deadline of all that are in the heap when it stops. */
  lemma {:induction false} SelectsEarliest(b: Cpu)
    requires Inv(b) && Room(b) && KeysOk(b) && FreshEnough(b)
    ensures var (r, found) := SelectDead(b); found ==> RunsEarliest(r)
    decreases FinishedDead(b)
  {
    hide RearmOne, RetireOne, PickDead, KeysOk, Inv, Room, FreshEnough, RunsEarliest, FinishedDead, StaleOf;
    if b.dead != [] {
      PickDeadOk(b);
      var t := b.dead[0].thread;
      if b.tcb[t].status != FINISHED {
        RootEarliestIff(b);
        AloneEarliest(b);
      } else if b.tcb[t].periodicity == PERIODIC {
        RearmOneOk(b);
        RearmOneKeys(b);
        RearmFresh(b);
        SelectsEarliest(RearmOne(b));
      } else {
        RetireOneOk(b);
        RetireOneKeys(b);
        RetireFresh(b);
        SelectsEarliest(RetireOne(b));
      }
    }
  }

  lemma ReapEarliest(d: Cpu)
    requires Inv(d) && Room(d) && RunsLeast(d) && RunsEarliest(d)
    ensures RunsEarliest(ReapAll(d))
  {
    HeapChoiceLives(d);
    ReapAllFrees(d);
    var r := ReapAll(d);
    hide ReapAll;
    forall n | n in r.dead ensures n.thread in Deadlines(r) && Deadlines(r)[n.thread] >= r.tcb[r.curr].deadline {
      DeadNode(d, n);
      assert n.thread in d.outgoing ==> Holds(d, AtOutgoing, n.thread);
      if Holds(d, AtOutgoing, n.thread) {
        OnlyPlace(d, AtDead, AtOutgoing, n.thread);
      }
    }
  }

  lemma StaleStatus(c: Cpu, t: nat)
    requires Inv(c) && Room(c) && t in StaleOf(c).dead
    ensures t in c.tcb && t in Prepared(c).tcb && Prepared(c).tcb[t].status == c.tcb[t].status
  {
    var n :| n in c.dead && n.thread == t;
    DeadNode(c, n);
    InIncoming(c, t);
    PreparedThread(c, t);
    hide Prepared;
  }

  lemma FreshStays(c: Cpu)
    requires Inv(c) && Room(c) && KeysOk(c)
    requires forall t :: t in StaleOf(c).dead ==> c.tcb[t].status == FINISHED
    ensures FreshEnough(Prepared(c))
  {
    PreparedKeysOk(c);
    var b := Prepared(c);
    hide Prepared, StaleIn, Inv, Room, KeysOk;
    forall t | t in StaleOf(b).dead ensures t in b.tcb && b.tcb[t].status == FINISHED {
      StaleStatus(c, t);
    }
  }

  /** If the stale thread of the deadline heap, if any, is finished when the decision starts, the thread chosen from the
      heap has the earliest deadline of all in it. */
  lemma FreshRunsEarliest(c: Cpu, lockFree: bool)
    requires Inv(c) && Room(c) && KeysOk(c)
    requires forall t :: t in StaleOf(c).dead ==> c.tcb[t].status == FINISHED
    ensures var r := NextUp(c, lockFree).0; r.dead != [] ==> RunsEarliest(r)
  {
    hide Inv, Room, KeysOk, SelectDead, RunsEarliest, RunsLeast, ReapAll, Prepared, NextUp, FreshEnough, StaleIn;
    PreparedKeysOk(c);
    FreshStays(c);
    var b := Prepared(c);
    SelectsEarliest(b);
    SelectDeadPicks(b);
    HeapChoice(c, lockFree);
    var (d, f) := SelectDead(b);
    if f {
      ReapEarliest(d);
      HeapChoiceIs(c, lockFree);
    }
  }

  lemma HeapChoiceIs(c: Cpu, lockFree: bool)
    requires Inv(c) && Room(c) && SelectDead(Prepared(c)).1
    ensures var d := SelectDead(Prepared(c)).0; NextUp(c, lockFree).0 == if lockFree then ReapAll(d) else d
  {
    hide Inv, Room, SelectDead, SelectLevels, Admit, ReleaseDue, ReapAll;
  }
}
