/** suspend_thread: what it does to the thread's times and containers, and how far it stops the thread. */
module SchedSuspend {
  import opened Wrapped
  import opened ThreadTypes
  import opened HeapOps
  import opened SchedState
  import opened SchedMoves
  import opened Sched
  import opened SchedChoice
  import opened SchedLaws
  import opened SchedSteps

  /** Where thread t is in a heap: the value its heap_index holds. */
  function IndexOf(s: seq<Node>, t: nat): (i: nat)
    requires t in multiset(Threads(s))
    ensures i < |s| && s[i].thread == t
  {
    if s[0].thread == t then 0
    else
      assert Threads(s) == [s[0].thread] + Threads(s[1..]);
      1 + IndexOf(s[1..], t)
  }

  /** The new release time and deadline. */
  function Suspended(x: Tcb, ticks: nat, delay: nat): Tcb {
    var r := Add32(ticks, delay);
    x.(release := r,
       deadline := if GeqWrapped(ticks, x.deadline) then Add32(r, x.period) else Add32(r, Sub32(x.deadline, ticks)))
  }

  /** The two refusals: the thread will not run again or is not admitted, or it sleeps that long anyway. */
  predicate Refused(x: Tcb, ticks: nat, delay: nat) {
    || (x.status == FINISHED && x.periodicity == APERIODIC)
    || x.owner == OUTGOING_THREADS || x.owner == INCOMING_THREADS
    || GeqWrapped(x.release, Add32(ticks, delay))
  }

  /** suspend_thread up to the forced switch: the new state, and whether it returns SYS_OK. */
  ghost function Suspend(c: Cpu, t: nat, delay: nat): (Cpu, bool)
    requires Inv(c) && t in c.tcb && t != c.main
  {
    if Refused(c.tcb[t], c.ticks, delay) then (c, false) else
      var x := Suspended(c.tcb[t], c.ticks, delay);
      assert TagOk(c, t);
      if x.owner == DEAD_HEAP then
        var i := IndexOf(c.dead, t);
        (SetTcb(c, t, x.(owner := REL_HEAP)).(dead := RemoveNode(c.dead, i), rel := Insert(c.rel, Node(x.release, t))), true)
      else if x.owner == REL_HEAP then
        (SetTcb(c, t, x).(rel := Balance(c.rel, IndexOf(c.rel, t), x.release)), true)
      else
        (SetTcb(c, t, x), true)
  }

  /** The new times stay in the counter window. */
  ghost predicate SuspendFits(c: Cpu, w: nat, t: nat, delay: nat)
    requires t in c.tcb
  {
    var x, r := c.tcb[t], c.ticks + delay;
    && In(w, r) && In(w, r + x.period) && (c.ticks < x.deadline ==> In(w, r + (x.deadline - c.ticks)))
    && (x.status == FINISHED && x.periodicity == PERIODIC ==>
          In(w, Suspended(x, c.ticks, delay).deadline + x.period))
  }

  lemma SuspendedShape(c: Cpu, w: nat, t: nat, delay: nat)
    requires Inv(c) && RoomAt(c, w) && t in c.tcb && t != c.main && SuspendFits(c, w, t, delay)
    requires !Refused(c.tcb[t], c.ticks, delay)
    ensures var x, y, p := c.tcb[t], Suspended(c.tcb[t], c.ticks, delay), PlaceIn(SpreadOf(c), t);
            && y.release == c.ticks + delay && x.release < y.release < y.deadline
            && (y.deadline == y.release + x.period || y.deadline - y.release == x.deadline - c.ticks)
            && p != AtIncoming && TagFits(y, p) && TimesFit(y, c.ticks, w, p)
            && (x.owner == DEAD_HEAP ==> p == AtDead && TagFits(y.(owner := REL_HEAP), AtRel))
            && (x.owner == REL_HEAP ==> p == AtRel)
  {
    assert TagOk(c, t) && RoomFor(c, w, t);
    var x := c.tcb[t];
    IncomingTag(c, t);
    DueMeansPast(c.ticks, x.deadline, w);
    DueMeansPast(x.release, c.ticks + delay, w);
  }

  /** When suspend_thread succeeds, and the times it leaves: it refuses threads that will not run again, threads waiting
      for admission, and releases no later than the one the thread has; otherwise the new release is delay ticks from
      now, and the time left until the deadline is kept behind it, or a whole period is given if the deadline has come. */
  lemma SuspendTimes(c: Cpu, w: nat, t: nat, delay: nat)
    requires Inv(c) && RoomAt(c, w) && t in c.tcb && t != c.main && SuspendFits(c, w, t, delay)
    ensures var ((r, ok), x) := (Suspend(c, t, delay), c.tcb[t]);
            && t in r.tcb && var y := r.tcb[t];
            && (PlaceIn(SpreadOf(c), t) != AtIncoming ==>
                  (ok <==> !(x.status == FINISHED && x.periodicity == APERIODIC) && x.release < c.ticks + delay))
            && (PlaceIn(SpreadOf(c), t) == AtIncoming ==> !ok)
            && (!ok ==> r == c)
            && (ok ==> y.release == c.ticks + delay
                       && (c.ticks < x.deadline ==> y.deadline - y.release == x.deadline - c.ticks)
                       && (x.deadline <= c.ticks ==> y.deadline - y.release == x.period)
                       && y == x.(release := y.release, deadline := y.deadline, owner := y.owner))
  {
    assert TagOk(c, t) && RoomFor(c, w, t);
    var x := c.tcb[t];
    if PlaceIn(SpreadOf(c), t) != AtIncoming {
      DueMeansPast(c.ticks, x.deadline, w);
      DueMeansPast(x.release, c.ticks + delay, w);
    }
  }

  /** Only threads tagged as incoming or as killed are in the incoming FIFO. */
  lemma IncomingTag(c: Cpu, t: nat)
    requires Inv(c) && t in c.tcb && t != c.main
    requires c.tcb[t].owner != INCOMING_THREADS && c.tcb[t].owner != OUTGOING_THREADS
    ensures PlaceIn(SpreadOf(c), t) != AtIncoming
  {
    assert TagOk(c, t);
  }

  /** Suspending a thread of the deadline heap takes exactly that thread out of it, by its index, and puts it in the
      release heap. */
  lemma SuspendDeadKeeps(c: Cpu, w: nat, t: nat, delay: nat)
    requires Inv(c) && RoomAt(c, w) && t in c.tcb && t != c.main && SuspendFits(c, w, t, delay)
    requires !Refused(c.tcb[t], c.ticks, delay) && c.tcb[t].owner == DEAD_HEAP
    ensures var r := Suspend(c, t, delay).0;
            && Inv(r) && RoomAt(r, w)
            && multiset(Threads(c.dead)) == multiset(Threads(r.dead)) + multiset{t}
            && multiset(Threads(r.rel)) == multiset(Threads(c.rel)) + multiset{t}
  {
    SuspendedShape(c, w, t, delay);
    assert TagOk(c, t);
    var i, y := IndexOf(c.dead, t), Suspended(c.tcb[t], c.ticks, delay).(owner := REL_HEAP);
    RemoveNodeKeeps(w, c.dead, i);
    InsertKeeps(w, c.rel, Node(y.release, t));
    var s := SpreadOf(c).(dead := multiset(Threads(RemoveNode(c.dead, i))));
    MoveKeeps(c, Suspend(c, t, delay).0, s, AtDead, AtRel, t, w);
  }

  lemma SuspendRelKeeps(c: Cpu, w: nat, t: nat, delay: nat)
    requires Inv(c) && RoomAt(c, w) && t in c.tcb && t != c.main && SuspendFits(c, w, t, delay)
    requires !Refused(c.tcb[t], c.ticks, delay) && c.tcb[t].owner == REL_HEAP
    ensures var r := Suspend(c, t, delay).0; Inv(r) && RoomAt(r, w) && SpreadOf(r) == SpreadOf(c)
  {
    SuspendedShape(c, w, t, delay);
    assert TagOk(c, t);
    var i, y := IndexOf(c.rel, t), Suspended(c.tcb[t], c.ticks, delay);
    BalanceKeeps(w, c.rel, i, y.release);
    RemoveNodeKeeps(w, c.rel, i);
    var s := SpreadOf(c).(rel := multiset(Threads(RemoveNode(c.rel, i))));
    MoveKeeps(c, Suspend(c, t, delay).0, s, AtRel, AtRel, t, w);
  }

  lemma SuspendElseKeeps(c: Cpu, w: nat, t: nat, delay: nat)
    requires Inv(c) && RoomAt(c, w) && t in c.tcb && t != c.main && SuspendFits(c, w, t, delay)
    requires !Refused(c.tcb[t], c.ticks, delay) && c.tcb[t].owner != DEAD_HEAP && c.tcb[t].owner != REL_HEAP
    ensures var r := Suspend(c, t, delay).0; Inv(r) && RoomAt(r, w) && SpreadOf(r) == SpreadOf(c)
  {
    SuspendedShape(c, w, t, delay);
    RewriteKeeps(c, t, Suspended(c.tcb[t], c.ticks, delay), w);
  }

  lemma SuspendKeeps(c: Cpu, w: nat, t: nat, delay: nat)
    requires Inv(c) && RoomAt(c, w) && t in c.tcb && t != c.main && SuspendFits(c, w, t, delay)
    ensures var r := Suspend(c, t, delay).0; Inv(r) && RoomAt(r, w)
  {
    if !Refused(c.tcb[t], c.ticks, delay) {
      if c.tcb[t].owner == DEAD_HEAP {
        SuspendDeadKeeps(c, w, t, delay);
      } else if c.tcb[t].owner == REL_HEAP {
        SuspendRelKeeps(c, w, t, delay);
      } else {
        SuspendElseKeeps(c, w, t, delay);
      }
    }
  }

  /** A successful suspension leaves in the deadline heap the nodes of the other threads. */
  lemma SuspendedNodes(c: Cpu, w: nat, t: nat, delay: nat, n: Node)
    requires Inv(c) && RoomAt(c, w) && t in c.tcb && t != c.main && SuspendFits(c, w, t, delay) && Suspend(c, t, delay).1
    requires n in Suspend(c, t, delay).0.dead
    ensures n in c.dead && n.thread != t
  {
    assert TagOk(c, t);
    LiveOnce(c, t);
    if c.tcb[t].owner == DEAD_HEAP {
      var i := IndexOf(c.dead, t);
      RemoveNodeKeeps(w, c.dead, i);
      OrderedStays(c.dead, i);
      RemoveNodePerm(c.dead, i);
      SuspendedGone(c, t, RemoveNode(c.dead, i), n);
      assert n in c.dead <==> n in multiset(c.dead);
      assert n in RemoveNode(c.dead, i) <==> n in multiset(RemoveNode(c.dead, i));
    } else if n.thread == t {
      NodeThread(c.dead, n);
    }
  }

  lemma NodeThread(s: seq<Node>, n: Node)
    requires n in s
    ensures n.thread in multiset(Threads(s))
  {
    var k :| 0 <= k < |s| && s[k] == n;
    assert Threads(s)[k] == n.thread;
  }

  lemma SuspendedGone(c: Cpu, t: nat, e: seq<Node>, n: Node)
    requires Partitioned(c) && multiset(Threads(c.dead)) == multiset(Threads(e)) + multiset{t} && n in e
    ensures n.thread != t
  {
    NodeThread(e, n);
    LiveOnce(c, t);
    TotalAtLeast(SpreadOf(c), AtDead, AtRel, t);
  }

  predicate HeapOwned(x: Tcb) {
    x.owner == DEAD_HEAP || x.owner == REL_HEAP
  }

  /** The suspended thread's new entry. */
  lemma SuspendedEntry(c: Cpu, t: nat, delay: nat)
    requires Inv(c) && t in c.tcb && t != c.main
    ensures var (r, ok) := Suspend(c, t, delay);
            && (ok <==> !Refused(c.tcb[t], c.ticks, delay)) && r.ticks == c.ticks && t in r.tcb
            && (ok ==> r.tcb[t] == Suspended(c.tcb[t], c.ticks, delay)
                              .(owner := if c.tcb[t].owner == DEAD_HEAP then REL_HEAP else c.tcb[t].owner))
  {
  }

  /** A successful suspension puts a heap-owned thread to sleep until ticks + delay. A persistent thread stays where
      it is and can run exactly as before: whether suspension stops a thread depends on its owner alone. */
  lemma SuspendStopsIff(c: Cpu, w: nat, t: nat, delay: nat)
    requires Inv(c) && RoomAt(c, w) && t in c.tcb && t != c.main && SuspendFits(c, w, t, delay)
    requires Suspend(c, t, delay).1
    ensures var r := Suspend(c, t, delay).0;
            && r.ticks == c.ticks && t in r.tcb && r.tcb[t].release == c.ticks + delay
            && (HeapOwned(c.tcb[t]) ==> PlaceIn(SpreadOf(r), t) == AtRel && !Runnable(r, t))
            && (!HeapOwned(c.tcb[t]) ==> (Runnable(r, t) <==> Runnable(c, t)))
            && (HeapOwned(c.tcb[t]) && delay > 0 ==> Asleep(r, t))
  {
    SuspendedEntry(c, t, delay);
    SuspendedPlace(c, w, t, delay);
    SuspendedShape(c, w, t, delay);
    hide RoomAt, SuspendFits, Suspend, Inv;
  }

  lemma SuspendedPlace(c: Cpu, w: nat, t: nat, delay: nat)
    requires Inv(c) && RoomAt(c, w) && t in c.tcb && t != c.main && SuspendFits(c, w, t, delay)
    requires !Refused(c.tcb[t], c.ticks, delay)
    ensures var r := Suspend(c, t, delay).0;
            if HeapOwned(c.tcb[t]) then PlaceIn(SpreadOf(r), t) == AtRel else SpreadOf(r) == SpreadOf(c)
  {
    hide Suspend, SuspendFits;
    var r := Suspend(c, t, delay).0;
    if c.tcb[t].owner == DEAD_HEAP {
      SuspendDeadKeeps(c, w, t, delay);
      PlaceFound(r, AtRel, t);
    } else if c.tcb[t].owner == REL_HEAP {
      SuspendRelKeeps(c, w, t, delay);
      assert TagOk(c, t);
    } else {
      SuspendElseKeeps(c, w, t, delay);
    }
  }

  lemma SuspendAccount(c: Cpu, t: nat, delay: nat)
    requires Inv(c) && Account(c) && t in c.tcb && t != c.main
    ensures Account(Suspend(c, t, delay).0)
  {
    var r := Suspend(c, t, delay).0;
    assert r.tcb.Keys == c.tcb.Keys && Workers(r) == Workers(c);
    SumUSame(Workers(c), c.tcb, r.tcb);
  }

  lemma SuspendDeadOthers(c: Cpu, w: nat, t: nat, delay: nat, u: nat)
    requires Inv(c) && RoomAt(c, w) && t in c.tcb && t != c.main && SuspendFits(c, w, t, delay) && u != t
    requires !Refused(c.tcb[t], c.ticks, delay) && c.tcb[t].owner == DEAD_HEAP
    ensures PlaceIn(SpreadOf(Suspend(c, t, delay).0), u) == PlaceIn(SpreadOf(c), u)
  {
    SuspendDeadKeeps(c, w, t, delay);
    var r := Suspend(c, t, delay).0;
    var s := SpreadOf(r).(rel := multiset(Threads(c.rel)));
    assert SpreadOf(c) == Put(s, AtDead, t);
    PutElsewhere(s, AtDead, t, u);
    PutElsewhere(s, AtRel, t, u);
  }

  lemma SuspendTcbs(c: Cpu, t: nat, delay: nat, u: nat)
    requires Inv(c) && t in c.tcb && t != c.main && u != t
    ensures var r := Suspend(c, t, delay).0; (u in c.tcb <==> u in r.tcb) && (u in c.tcb ==> r.tcb[u] == c.tcb[u])
    ensures var r := Suspend(c, t, delay).0;
            r.ticks == c.ticks && r.main == c.main && r.curr == c.curr && r.utilization == c.utilization && t in r.tcb
    ensures Refused(c.tcb[t], c.ticks, delay) ==> Suspend(c, t, delay).0 == c
  {
  }

  /** Suspending changes no other thread. */
  lemma SuspendOthers(c: Cpu, w: nat, t: nat, delay: nat, u: nat)
    requires Inv(c) && RoomAt(c, w) && t in c.tcb && t != c.main && SuspendFits(c, w, t, delay) && u != t
    ensures var r := Suspend(c, t, delay).0;
            && (u in c.tcb <==> u in r.tcb) && (u in c.tcb ==> r.tcb[u] == c.tcb[u])
            && PlaceIn(SpreadOf(r), u) == PlaceIn(SpreadOf(c), u)
  {
    SuspendTcbs(c, t, delay, u);
    hide Suspend;
    if !Refused(c.tcb[t], c.ticks, delay) {
      if c.tcb[t].owner == DEAD_HEAP {
        SuspendDeadOthers(c, w, t, delay, u);
      } else if c.tcb[t].owner == REL_HEAP {
        SuspendRelKeeps(c, w, t, delay);
      } else {
        SuspendElseKeeps(c, w, t, delay);
      }
    }
  }
}
