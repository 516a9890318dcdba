/** What one scheduling decision guarantees: who runs, who is freed, who is left alone, and the utilization account. */
module SchedLaws {
  import opened ThreadTypes
  import opened HeapOps
  import opened SchedState
  import opened Sched

  // ---------------------------------------------------------------- reaping

  lemma {:induction false} ReapAllFrees(c: Cpu)
    requires Inv(c) && Room(c)
    ensures forall t :: t in ReapAll(c).tcb <==> t in c.tcb && t !in c.outgoing
    ensures forall t :: t in ReapAll(c).tcb ==> ReapAll(c).tcb[t] == c.tcb[t]
    decreases |c.outgoing|
  {
    if c.outgoing != [] {
      ReapOneOk(c);
      ReapAllFrees(ReapOne(c));
      assert c.outgoing == [c.outgoing[0]] + c.outgoing[1..];
    }
  }

  lemma TotalAtLeast(s: Spread, p: Place, q: Place, t: nat)
    requires p != q
    ensures Total(s)[t] >= Held(s, p)[t] + Held(s, q)[t]
    ensures Total(s)[t] >= Held(s, p)[t]
  {
  }

  lemma LiveOnce(c: Cpu, t: nat)
    requires Partitioned(c)
    ensures Total(SpreadOf(c))[t] <= 1
    ensures t in Total(SpreadOf(c)) <==> t in c.tcb && t != c.main
  {
  }

  /** A thread is in one container. */
  lemma OnlyPlace(c: Cpu, p: Place, q: Place, t: nat)
    requires Partitioned(c) && Holds(c, p, t) && Holds(c, q, t)
    ensures p == q && t in c.tcb && t != c.main
  {
    LiveOnce(c, t);
    HeldInTotal(SpreadOf(c), p, t);
    if p != q {
      TotalAtLeast(SpreadOf(c), p, q, t);
    }
  }

  /** A thread held outside a heap is not in it. */
  lemma NotInHeap(c: Cpu, p: Place, t: nat)
    requires Partitioned(c) && Holds(c, p, t)
    ensures p != AtDead ==> t !in Threads(c.dead)
    ensures p != AtRel ==> t !in Threads(c.rel)
  {
    if p != AtDead && t in Threads(c.dead) {
      assert Holds(c, AtDead, t);
      OnlyPlace(c, p, AtDead, t);
    }
    if p != AtRel && t in Threads(c.rel) {
      assert Holds(c, AtRel, t);
      OnlyPlace(c, p, AtRel, t);
    }
  }

  lemma TwiceQueued(q: seq<nat>, i: nat, j: nat)
    requires i < j < |q|
    ensures q[i] == q[j] ==> multiset(q)[q[i]] >= 2
  {
    assert q == q[..i] + [q[i]] + q[i + 1..j] + [q[j]] + q[j + 1..];
  }

  lemma QueuedOnce(c: Cpu, i: nat, j: nat)
    requires Partitioned(c) && i < j < |c.outgoing|
    ensures c.outgoing[i] != c.outgoing[j]
  {
    TwiceQueued(c.outgoing, i, j);
    LiveOnce(c, c.outgoing[i]);
    TotalAtLeast(SpreadOf(c), AtOutgoing, AtIncoming, c.outgoing[i]);
  }

  /** The threads freed by one decision: those retired by then, if the allocator lock was free. */
  ghost function Freed(c: Cpu, lockFree: bool): seq<nat>
    requires Inv(c) && Room(c)
  {
    if lockFree then Choose(c).0.outgoing else []
  }

  lemma PickedPlace(c: Cpu)
    requires Inv(c) && Room(c) && Picked(c)
    ensures c.curr in c.tcb && c.curr != c.main && !Holds(c, AtOutgoing, c.curr) && c.tcb[c.curr].status != FINISHED
  {
    if c.dead != [] {
      PickDeadOk(c);
    } else {
      var p := if c.high != [] then HIGH_PRIORITY else if c.med != [] then MED_PRIORITY else LOW_PRIORITY;
      LevelHeadOk(c, p);
    }
    assert TagOk(c, c.curr);
    if Holds(c, AtOutgoing, c.curr) {
      PlaceOutgoing(c, c.curr);
    }
  }

  lemma PlaceOutgoing(c: Cpu, t: nat)
    requires Partitioned(c) && Holds(c, AtOutgoing, t)
    ensures PlaceIn(SpreadOf(c), t) == AtOutgoing
  {
    if Holds(c, AtIncoming, t) {
      OnlyPlace(c, AtIncoming, AtOutgoing, t);
    }
  }

  /** Reaping keeps the choice. */
  lemma ReapKeepsPicked(c: Cpu)
    requires Inv(c) && Room(c) && Picked(c)
    ensures Picked(ReapAll(c))
  {
    PickedPlace(c);
    ReapAllFrees(c);
    assert c.curr in c.outgoing ==> Holds(c, AtOutgoing, c.curr);
  }

  /** next_up picks the head of least stored order in the deadline heap, else the head of the highest level that is
      not empty, and reports failure exactly when heap and levels are left empty. */
  lemma NextUpPicks(c: Cpu, lockFree: bool)
    requires Inv(c) && Room(c)
    ensures var (r, found) := NextUp(c, lockFree);
            && (found ==> Picked(r))
            && (found <==> r.dead != [] || r.high != [] || r.med != [] || r.low != [])
  {
    hide Choose;
    ChoosePicks(c);
    var (d, found) := Choose(c);
    if found && lockFree {
      ReapKeepsPicked(d);
    }
  }

  /** What reaping does to the retired threads. */
  lemma ReapFreesOnce(c: Cpu)
    requires Inv(c) && Room(c)
    ensures forall i, j :: 0 <= i < j < |c.outgoing| ==> c.outgoing[i] != c.outgoing[j]
    ensures forall t :: t in c.tcb ==> (t in c.outgoing <==> t !in ReapAll(c).tcb)
    ensures forall t :: t in c.outgoing ==> t in c.tcb && c.tcb[t].status == FINISHED && t != c.main
                                            && t !in Total(SpreadOf(ReapAll(c)))
  {
    ReapAllFrees(c);
    forall i, j | 0 <= i < j < |c.outgoing| ensures c.outgoing[i] != c.outgoing[j] {
      QueuedOnce(c, i, j);
    }
    forall t | t in c.outgoing
      ensures t in c.tcb && c.tcb[t].status == FINISHED && t != c.main && t !in Total(SpreadOf(ReapAll(c))) {
      assert Holds(c, AtOutgoing, t);
      OnlyPlace(c, AtOutgoing, AtOutgoing, t);
      PlaceOutgoing(c, t);
      assert TagOk(c, t);
      LiveOnce(ReapAll(c), t);
    }
  }

  /** Every thread freed by a decision was finished, is freed once, and afterwards is neither live, nor in a
      container, nor the running thread; nothing else is freed. With the allocator's lock taken no retired thread is
      left, without it nothing is freed. */
  lemma FreedOnce(c: Cpu, lockFree: bool)
    requires Inv(c) && Room(c)
    ensures var (r, gone) := (Dispatch(c, lockFree), Freed(c, lockFree));
            && (forall i, j :: 0 <= i < j < |gone| ==> gone[i] != gone[j])
            && (forall t :: t in c.tcb ==> (t in gone <==> t !in r.tcb))
            && (forall t :: t in gone ==>
                  t in c.tcb && Choose(c).0.tcb[t].status == FINISHED
                  && t !in Total(SpreadOf(r)) && t != r.curr && t != r.main)
            && (if lockFree then r.outgoing == [] else gone == [])
  {
    hide Choose;
    var (d, found) := Choose(c);
    ReapFreesOnce(d);
    ChoosePicks(c);
    if found {
      PickedPlace(d);
    }
    assert d.curr in d.outgoing ==> Holds(d, AtOutgoing, d.curr);
    if lockFree {
      assert SpreadOf(ToMain(ReapAll(d))) == SpreadOf(ReapAll(d));
    }
  }

  // ---------------------------------------------------------------- threads that must not run

  /** A decision never selects a thread killed after admission, and keeps it finished until it is freed. */
  lemma DoomedNeverRuns(c: Cpu, lockFree: bool, t: nat)
    requires Inv(c) && Room(c) && Doomed(c, t) && t != c.main
    ensures var r := Dispatch(c, lockFree); r.curr != t && (t in r.tcb ==> Doomed(r, t))
  {
    hide Choose;
    var (d, found) := Choose(c);
    assert Leaves(c, d, t);
    ChoosePicks(c);
    DoomedAtMain(d, t);
    if lockFree {
      ReapKeepsDoomed(d, t);
      if t in ReapAll(d).tcb {
        DoomedAtMain(ReapAll(d), t);
      }
    }
    if found {
      PickedPlace(d);
    }
  }

  lemma DoomedAtMain(c: Cpu, t: nat)
    requires Inv(c) && Room(c) && Doomed(c, t)
    ensures Doomed(ToMain(c), t)
  {
    assert SpreadOf(ToMain(c)) == SpreadOf(c);
  }

  lemma ReapKeepsDoomed(c: Cpu, t: nat)
    requires Inv(c) && Room(c) && Doomed(c, t)
    ensures t in ReapAll(c).tcb ==> Doomed(ReapAll(c), t)
  {
    ReapAllFrees(c);
  }

  lemma ReapKeepsAsleep(c: Cpu, t: nat)
    requires Inv(c) && Room(c) && Asleep(c, t)
    ensures Asleep(ReapAll(c), t) && ReapAll(c).tcb[t] == c.tcb[t]
  {
    ReapAllFrees(c);
    if t in c.outgoing {
      PlaceOutgoing(c, t);
    }
  }

  lemma AsleepNotPicked(c: Cpu, t: nat)
    requires Inv(c) && Room(c) && Picked(c) && Asleep(c, t)
    ensures c.curr != t
  {
    RunningPlace(c);
    var p: Place :| (p == AtDead || p.AtLevel?) && Holds(c, p, c.curr);
    if c.curr == t {
      assert Holds(c, AtRel, t);
      OnlyPlace(c, p, AtRel, t);
    }
  }

  /** A decision before its release tick neither selects nor moves a sleeping thread. */
  lemma AsleepNeverRuns(c: Cpu, lockFree: bool, t: nat)
    requires Inv(c) && Room(c) && Asleep(c, t)
    ensures var r := Dispatch(c, lockFree); r.curr != t && Asleep(r, t) && r.tcb[t] == c.tcb[t]
  {
    hide Choose;
    var (d, found) := Choose(c);
    assert Leaves(c, d, t);
    ChoosePicks(c);
    assert Holds(d, AtRel, t);
    OnlyPlace(d, AtRel, AtRel, t);
    if lockFree {
      ReapKeepsAsleep(d, t);
    }
    if found {
      AsleepNotPicked(d, t);
    } else {
      AsleepAtMain(if lockFree then ReapAll(d) else d, t);
    }
  }

  lemma AsleepAtMain(c: Cpu, t: nat)
    requires Inv(c) && Room(c) && Asleep(c, t)
    ensures Asleep(ToMain(c), t)
  {
    assert SpreadOf(ToMain(c)) == SpreadOf(c);
  }

  lemma RunningPlace(c: Cpu)
    requires Inv(c) && Room(c) && Picked(c)
    ensures exists p: Place :: (p == AtDead || p.AtLevel?) && Holds(c, p, c.curr)
  {
    if c.dead != [] {
      PickDeadOk(c);
      assert Holds(c, AtDead, c.curr);
    } else {
      var p := if c.high != [] then HIGH_PRIORITY else if c.med != [] then MED_PRIORITY else LOW_PRIORITY;
      LevelHeadOk(c, p);
      assert Holds(c, AtLevel(p), c.curr);
    }
  }
}
