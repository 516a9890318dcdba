/** The scheduler's entry points as steps of one core, and what every run of them keeps. */
module SchedSteps {
  import opened Words
  import opened Wrapped
  import opened ThreadTypes
  import opened SchedState
  import opened SchedMoves
  import opened Sched
  import opened SchedLaws
  import opened SchedChoice

  // ---------------------------------------------------------------- admission

  /** enqueue_new_thread on freshly allocated memory at t; NULL when period is zero or the allocation failed.
      The result of the push is ignored, so a full FIFO loses the thread. */
  function Enqueue(c: Cpu, t: nat, memory: Tcb, period: nat, periodicity: Periodicity): (Cpu, nat) {
    if period == 0 || t == NULL then (c, NULL)
    else
      var x := memory.(period := period, periodicity := periodicity, owner := INCOMING_THREADS, prevU := 0);
      (Pushed(SetTcb(c, t, x), t), t)
  }

  /** enqueue_new_persistent_thread */
  function EnqueuePersistent(c: Cpu, t: nat, memory: Tcb, priority: Priority): (Cpu, nat) {
    if t == NULL then (c, NULL)
    else
      var x := memory.(period := PERSISTENT_SLICE_TICKS, landed := 0, periodicity := PERSISTENT, priority := priority,
                       owner := INCOMING_THREADS, prevU := 0);
      (Pushed(SetTcb(c, t, x), t), t)
  }

  function Pushed(c: Cpu, t: nat): Cpu {
    if |c.incoming| < MAX_THREADS then c.(incoming := c.incoming + [t]) else c
  }

  /** What a caller of enqueue_new_thread gets: its thread is last in the incoming FIFO, with the period and periodicity
      asked for and no share of the utilization; or NULL and no effect, exactly for a zero period or without memory. */
  lemma EnqueueStores(c: Cpu, t: nat, memory: Tcb, period: nat, k: Periodicity)
    requires |c.incoming| < MAX_THREADS && t !in c.tcb
    ensures var (r, p) := Enqueue(c, t, memory, period, k);
            if period == 0 || t == NULL then r == c && p == NULL
            else
              && p == t && r.incoming == c.incoming + [t] && t in r.tcb && r.tcb.Keys == c.tcb.Keys + {t}
              && r.tcb[t].period == period && r.tcb[t].periodicity == k && r.tcb[t].prevU == 0
              && r.tcb[t].owner == INCOMING_THREADS
              && r == c.(tcb := r.tcb, incoming := r.incoming) && forall u :: u in c.tcb ==> r.tcb[u] == c.tcb[u]
  {
  }

  /** Likewise for a persistent thread: the fixed slice, no ticks charged yet, and the priority asked for. */
  lemma EnqueuePersistentStores(c: Cpu, t: nat, memory: Tcb, priority: Priority)
    requires |c.incoming| < MAX_THREADS && t !in c.tcb
    ensures var (r, p) := EnqueuePersistent(c, t, memory, priority);
            if t == NULL then r == c && p == NULL
            else
              && p == t && r.incoming == c.incoming + [t] && t in r.tcb && r.tcb.Keys == c.tcb.Keys + {t}
              && r.tcb[t].period == PERSISTENT_SLICE_TICKS && r.tcb[t].landed == 0 && r.tcb[t].periodicity == PERSISTENT
              && r.tcb[t].priority == priority && r.tcb[t].prevU == 0 && r.tcb[t].owner == INCOMING_THREADS
              && r == c.(tcb := r.tcb, incoming := r.incoming) && forall u :: u in c.tcb ==> r.tcb[u] == c.tcb[u]
  {
  }

  /** A new live thread put at the end of the incoming FIFO. */
  lemma NewThreadKeeps(c: Cpu, t: nat, x: Tcb, w: nat)
    requires Inv(c) && RoomAt(c, w) && t != NULL && t !in c.tcb && |c.tcb| <= MAX_THREADS && |c.incoming| < MAX_THREADS
    requires x.period > 0 && x.owner == INCOMING_THREADS && In(w, c.ticks + x.period)
    ensures var r := Pushed(SetTcb(c, t, x), t); Inv(r) && RoomAt(r, w) && Holds(r, AtIncoming, t)
  {
    var r := Pushed(SetTcb(c, t, x), t);
    var s := SpreadOf(c);
    PushBack(c.incoming, t);
    PutTotal(s, AtIncoming, t);
    LiveOnce(c, t);
    PutHere(s, AtIncoming, t);
    NewThreadPartition(c, t, r);
    forall u | u in r.tcb && u != r.main ensures TagOk(r, u) && RoomFor(r, w, u) {
      if u != t {
        PutElsewhere(s, AtIncoming, t, u);
        assert TagOk(c, u) && RoomFor(c, w, u);
      }
    }
  }

  lemma NewThreadPartition(c: Cpu, t: nat, r: Cpu)
    requires Partitioned(c) && t != NULL && t !in c.tcb && |c.tcb| <= MAX_THREADS
    requires r.main == c.main && t in r.tcb && r.tcb == c.tcb[t := r.tcb[t]]
    requires Total(SpreadOf(r)) == Total(SpreadOf(c)) + multiset{t}
    ensures Partitioned(r)
  {
    NewThreadExact(c, t, r);
    assert r.tcb.Keys == c.tcb.Keys + {t};
    assert |r.tcb| == |r.tcb.Keys| && |c.tcb| == |c.tcb.Keys|;
  }

  /** Enqueueing keeps every live thread in exactly one container exactly when the incoming FIFO has a free slot;
      otherwise the new thread is live but in no container. */
  lemma EnqueueExactIff(c: Cpu, t: nat, memory: Tcb, period: nat, periodicity: Periodicity)
    requires Exact(c) && t != NULL && t !in c.tcb && period > 0
    ensures Exact(Enqueue(c, t, memory, period, periodicity).0) <==> |c.incoming| < MAX_THREADS
  {
    var r := Enqueue(c, t, memory, period, periodicity).0;
    PushBack(c.incoming, t);
    NewThreadExact(c, t, r);
  }

  lemma NewThreadExact(c: Cpu, t: nat, r: Cpu)
    requires Exact(c) && t !in c.tcb && r.main == c.main && t in r.tcb && r.tcb == c.tcb[t := r.tcb[t]]
    ensures Exact(r) <==> Total(SpreadOf(r)) == Total(SpreadOf(c)) + multiset{t}
    ensures Total(SpreadOf(c))[t] == 0
  {
    var before := c.tcb.Keys - {c.main};
    assert r.tcb.Keys - {r.main} == before + {t};
    assert multiset(before + {t}) == multiset(before) + multiset{t};
  }

  lemma NewThreadAccount(c: Cpu, t: nat, x: Tcb)
    requires Partitioned(c) && Account(c) && t !in c.tcb && x.prevU == 0
    ensures Account(Pushed(SetTcb(c, t, x), t))
  {
    var r := Pushed(SetTcb(c, t, x), t);
    SumURemove(Workers(r), r.tcb, t);
    assert Workers(r) - {t} == Workers(c);
    SumUSame(Workers(c), c.tcb, r.tcb);
  }

  // ---------------------------------------------------------------- rewriting one thread in place

  /** Rewriting the tags and times of one contained thread where it is. */
  lemma RewriteKeeps(c: Cpu, t: nat, x: Tcb, w: nat)
    requires Inv(c) && RoomAt(c, w) && t in c.tcb && t != c.main
    requires TagFits(x, PlaceIn(SpreadOf(c), t)) && TimesFit(x, c.ticks, w, PlaceIn(SpreadOf(c), t))
    ensures Inv(SetTcb(c, t, x)) && RoomAt(SetTcb(c, t, x), w)
  {
    var r := SetTcb(c, t, x);
    assert SpreadOf(r) == SpreadOf(c);
    assert r.tcb.Keys == c.tcb.Keys;
    assert |r.tcb| == |r.tcb.Keys| && |c.tcb| == |c.tcb.Keys|;
    forall u | u in r.tcb && u != r.main ensures TagOk(r, u) && RoomFor(r, w, u) {
      assert TagOk(c, u) && RoomFor(c, w, u);
    }
  }

  lemma RewriteAccount(c: Cpu, t: nat, x: Tcb, total: nat)
    requires Account(c) && t in c.tcb && t != c.main
    requires total == (c.utilization - c.tcb[t].prevU + x.prevU) % WORD
    ensures Account(SetTcb(c, t, x).(utilization := total))
  {
    var r := SetTcb(c, t, x);
    SumURemove(Workers(c), c.tcb, t);
    assert Workers(r) == Workers(c);
    SumURemove(Workers(r), r.tcb, t);
    SumUSame(Workers(c) - {t}, c.tcb, r.tcb);
    ReplaceMod(c.tcb[t].prevU, SumU(Workers(c) - {t}, c.tcb), x.prevU);
  }

  lemma ReplaceMod(part: nat, rest: nat, new': nat)
    ensures ((part + rest) % WORD - part + new') % WORD == (new' + rest) % WORD
  {
  }

  // ---------------------------------------------------------------- kill

  /** kill_thread: retag only; the thread stays where it is. */
  function Kill(c: Cpu, t: nat): Cpu
    requires t in c.tcb
  {
    var x := c.tcb[t];
    SetTcb(c, t, x.(periodicity := APERIODIC, status := FINISHED, owner := OUTGOING_THREADS, prevU := 0))
      .(utilization := Sub32(c.utilization, x.prevU))
  }

  lemma KillKeeps(c: Cpu, t: nat, w: nat)
    requires Inv(c) && RoomAt(c, w) && t in c.tcb && t != c.main
    ensures Inv(Kill(c, t)) && RoomAt(Kill(c, t), w)
    ensures !Holds(c, AtIncoming, t) <==> Doomed(Kill(c, t), t)
  {
    assert TagOk(c, t) && RoomFor(c, w, t);
    var x := Kill(c, t).tcb[t];
    RewriteKeeps(c, t, x, w);
    UtilizationFree(SetTcb(c, t, x), Kill(c, t).utilization, w);
  }

  lemma UtilizationFree(c: Cpu, u: nat, w: nat)
    requires Inv(c) && RoomAt(c, w)
    ensures Inv(c.(utilization := u)) && RoomAt(c.(utilization := u), w)
  {
    var r := c.(utilization := u);
    assert SpreadOf(r) == SpreadOf(c);
    forall v | v in r.tcb && v != r.main ensures TagOk(r, v) && RoomFor(r, w, v) {
      assert TagOk(c, v) && RoomFor(c, w, v);
    }
  }

  /** What kill_thread does to the state: the thread is marked as finished for good and stays in its container, and
      nothing else changes but the utilization. */
  lemma KillMarks(c: Cpu, t: nat)
    requires t in c.tcb
    ensures var r := Kill(c, t);
            && r == c.(tcb := r.tcb, utilization := r.utilization) && r.tcb.Keys == c.tcb.Keys
            && (forall u :: u in c.tcb && u != t ==> r.tcb[u] == c.tcb[u])
            && var (x, y) := (c.tcb[t], r.tcb[t]);
            && y.status == FINISHED && y.periodicity == APERIODIC && y.owner == OUTGOING_THREADS && y.prevU == 0
            && y.release == x.release && y.deadline == x.deadline && y.period == x.period && y.priority == x.priority
            && y.landed == x.landed && y.dirty == x.dirty
  {
  }

  /** Killing keeps the utilization account, also when repeated; the killed thread's share goes at once, so that only the
      others' shares are left. */
  lemma KillAccount(c: Cpu, t: nat)
    requires Account(c) && t in c.tcb && t != c.main
    ensures Account(Kill(c, t)) && Account(Kill(Kill(c, t), t))
    ensures Kill(c, t).tcb[t].prevU == 0 && Kill(c, t).utilization == SumU(Workers(c) - {t}, c.tcb) % WORD
  {
    RewriteAccount(c, t, Kill(c, t).tcb[t], Kill(c, t).utilization);
    var k := Kill(c, t);
    SumURemove(Workers(k), k.tcb, t);
    assert Workers(k) == Workers(c);
    SumUSame(Workers(c) - {t}, c.tcb, k.tcb);
    RewriteAccount(k, t, Kill(k, t).tcb[t], Kill(k, t).utilization);
  }

  lemma {:induction false} AdmitRevives(c: Cpu, t: nat)
    requires Inv(c) && Room(c) && t in c.incoming
    ensures t in Admit(c).tcb && Admit(c).tcb[t].status != FINISHED
    decreases |c.incoming|
  {
    hide AdmitOne;
    AdmitOneOk(c);
    AdmitOneRevives(c);
    var c' := AdmitOne(c);
    if t == c.incoming[0] {
      assert Leaves(c', Admit(c'), t);
    } else {
      AdmitRevives(c', t);
    }
  }

  lemma AdmitOneRevives(c: Cpu)
    requires Inv(c) && c.incoming != [] && c.incoming[0] in c.tcb
    ensures var c' := AdmitOne(c);
            && c'.incoming == c.incoming[1..] && c.incoming[0] in c'.tcb
            && c'.tcb[c.incoming[0]].status != FINISHED
  {
  }

  /** A kill is final, in that the next decision leaves the thread finished or freed, exactly when the thread had
      already left the incoming FIFO: admission sets a killed thread pending again. */
  lemma KillFinalIff(c: Cpu, t: nat, lockFree: bool)
    requires Inv(c) && Room(c) && t in c.tcb && t != c.main
    ensures Inv(Kill(c, t)) && Room(Kill(c, t))
    ensures var r := Dispatch(Kill(c, t), lockFree);
            (t in r.tcb ==> r.tcb[t].status == FINISHED) <==> !Holds(c, AtIncoming, t)
  {
    hide Choose;
    var w :| RoomAt(c, w);
    KillKeeps(c, t, w);
    var k := Kill(c, t);
    if Holds(c, AtIncoming, t) {
      KilledIncoming(k, t, lockFree);
    } else {
      DoomedNeverRuns(k, lockFree, t);
    }
  }

  lemma KilledIncoming(k: Cpu, t: nat, lockFree: bool)
    requires Inv(k) && Room(k) && t in k.incoming && t != k.main
    ensures var r := Dispatch(k, lockFree); t in r.tcb && r.tcb[t].status != FINISHED
  {
    AdmitRevives(k, t);
    RevivedStays(k, t);
    hide Choose;
    var (d, found) := Choose(k);
    ReapAllFrees(d);
    if t in d.outgoing {
      ReapFreesOnce(d);
    }
  }

  lemma RevivedStays(k: Cpu, t: nat)
    requires Inv(k) && Room(k) && t in Admit(k).tcb && Admit(k).tcb[t].status != FINISHED
    ensures var d := Choose(k).0; t in d.tcb && d.tcb[t].status != FINISHED
  {
    hide SelectLevels;
    var a := Admit(k);
    var b := ReleaseDue(a);
    var (d, f) := SelectDead(b);
    assert Leaves(a, b, t) && Leaves(b, d, t);
    if !f {
      assert Leaves(d, SelectLevels(d).0, t);
    }
  }
}
