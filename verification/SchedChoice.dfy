/** When a decision finds a thread, in terms of the state it starts from, and the utilization account. */
module SchedChoice {
  import opened Words
  import opened Wrapped
  import opened ThreadTypes
  import opened SchedState
  import opened SchedMoves
  import opened Sched
  import opened SchedLaws

  // ---------------------------------------------------------------- who could run

  /** A thread in the deadline heap can run now: it is unfinished, or its next job is already released. */
  predicate RunsFromHeap(x: Tcb, ticks: nat) {
    x.status != FINISHED || (x.periodicity == PERIODIC && x.period > 0 && !LtWrapped(ticks, Rearmed(x, ticks).release))
  }

  predicate RunnableAt(x: Tcb, p: Place, ticks: nat) {
    match p
    case AtDead => RunsFromHeap(x, ticks)
    case AtLevel(_) => x.status != FINISHED
    case _ => false
  }

  ghost predicate Runnable(c: Cpu, t: nat) {
    t in c.tcb && t != c.main && RunnableAt(c.tcb[t], PlaceIn(SpreadOf(c), t), c.ticks)
  }

  ghost predicate SameRunnable(c: Cpu, c': Cpu, u: nat) {
    Runnable(c, u) <==> Runnable(c', u)
  }

  /** A move changes nobody's prospects if it does not change those of its own thread. */
  lemma MoveRunnable(c: Cpu, c': Cpu, s: Spread, p: Place, q: Place, t: nat, u: nat)
    requires Partitioned(c) && Moves(c, c', s, p, q, t)
    requires RunnableAt(c.tcb[t], p, c.ticks) <==> RunnableAt(c'.tcb[t], q, c.ticks)
    ensures SameRunnable(c, c', u)
  {
    hide Put, PlaceIn, RunnableAt, Partitioned;
    LiftedFacts(c, s, p, t);
    if u != t {
      PutElsewhere(s, p, t, u);
      PutElsewhere(s, q, t, u);
    } else {
      PutHere(s, p, t);
      PutHere(s, q, t);
    }
  }

  lemma RearmOneRunnable(c: Cpu, u: nat)
    requires Inv(c) && Room(c) && HeadFinished(c, PERIODIC)
    ensures c.tcb[c.dead[0].thread].period > 0 && SameRunnable(c, RearmOne(c), u)
  {
    var w :| RoomAt(c, w);
    RearmOneKeeps(c, w);
    var t := c.dead[0].thread;
    var q := if LtWrapped(c.ticks, Rearmed(c.tcb[t], c.ticks).release) then AtRel else AtDead;
    MoveRunnable(c, RearmOne(c), SansDead(c), AtDead, q, t, u);
  }

  lemma RetireOneRunnable(c: Cpu, u: nat)
    requires Inv(c) && Room(c) && HeadFinished(c, APERIODIC)
    ensures SameRunnable(c, RetireOne(c), u)
  {
    var w :| RoomAt(c, w);
    RetireOneKeeps(c, w);
    MoveRunnable(c, RetireOne(c), SansDead(c), AtDead, AtOutgoing, c.dead[0].thread, u);
  }

  lemma PickDeadRunnable(c: Cpu, u: nat)
    requires Inv(c) && Room(c) && c.dead != [] && c.dead[0].thread in c.tcb && c.tcb[c.dead[0].thread].status != FINISHED
    ensures SameRunnable(c, PickDead(c), u)
  {
    var w :| RoomAt(c, w);
    PickDeadKeeps(c, w);
    MoveRunnable(c, PickDead(c), SansDead(c), AtDead, AtDead, c.dead[0].thread, u);
  }

  lemma {:induction false} SelectDeadRunnable(c: Cpu, u: nat)
    requires Inv(c) && Room(c)
    ensures SameRunnable(c, SelectDead(c).0, u)
    decreases FinishedDead(c)
  {
    if c.dead != [] {
      PickDeadOk(c);
      var t := c.dead[0].thread;
      if c.tcb[t].status != FINISHED {
        PickDeadRunnable(c, u);
      } else if c.tcb[t].periodicity == PERIODIC {
        RearmOneOk(c);
        RearmOneRunnable(c, u);
        SelectDeadRunnable(RearmOne(c), u);
      } else {
        RetireOneOk(c);
        RetireOneRunnable(c, u);
        SelectDeadRunnable(RetireOne(c), u);
      }
    }
  }

  lemma LevelMoveRunnable(c: Cpu, c': Cpu, p: Priority, q: Place, u: nat)
    requires Inv(c) && Level(c, p) != [] && Moves(c, c', SansLevel(c, p), AtLevel(p), q, Level(c, p)[0])
    requires var t := Level(c, p)[0];
             c'.tcb[t].status == c.tcb[t].status && (if c.tcb[t].status == FINISHED then q == AtOutgoing else q == AtLevel(p))
    ensures SameRunnable(c, c', u)
  {
    MoveRunnable(c, c', SansLevel(c, p), AtLevel(p), q, Level(c, p)[0], u);
  }

  lemma {:induction false} SelectLevelRunnable(c: Cpu, p: Priority, u: nat)
    requires Inv(c) && Room(c)
    ensures SameRunnable(c, SelectLevel(c, p).0, u)
    decreases Pending(c, p)
  {
    if Level(c, p) != [] {
      LevelHeadOk(c, p);
      var w :| RoomAt(c, w);
      if c.tcb[Level(c, p)[0]].status == FINISHED {
        RetireFromLevelOk(c, p);
        RetireFromLevelKeeps(c, p, w);
        LevelMoveRunnable(c, RetireFromLevel(c, p), p, AtOutgoing, u);
        SelectLevelRunnable(RetireFromLevel(c, p), p, u);
      } else if SliceOver(c, p) {
        RotateLevelOk(c, p);
        RotateLevelKeeps(c, p, w);
        LevelMoveRunnable(c, RotateLevel(c, p), p, AtLevel(p), u);
        SelectLevelRunnable(RotateLevel(c, p), p, u);
      } else {
        PickLevelKeeps(c, p, w);
        LevelMoveRunnable(c, PickLevel(c, p), p, AtLevel(p), u);
      }
    }
  }

  lemma SelectLevelsRunnable(c: Cpu, u: nat)
    requires Inv(c) && Room(c)
    ensures SameRunnable(c, SelectLevels(c).0, u)
  {
    SelectLevelRunnable(c, HIGH_PRIORITY, u);
    var (h, fh) := SelectLevel(c, HIGH_PRIORITY);
    if !fh {
      SelectLevelRunnable(h, MED_PRIORITY, u);
      SelectLevelRunnable(SelectLevel(h, MED_PRIORITY).0, LOW_PRIORITY, u);
    }
  }

  lemma ChooseRunnable(c: Cpu, u: nat)
    requires Inv(c) && Room(c)
    ensures SameRunnable(ReleaseDue(Admit(c)), Choose(c).0, u)
  {
    hide SelectLevels;
    var b := ReleaseDue(Admit(c));
    SelectDeadRunnable(b, u);
    var (d, f) := SelectDead(b);
    if !f {
      SelectLevelsRunnable(d, u);
    }
  }

  lemma PlaceFound(c: Cpu, p: Place, t: nat)
    requires Partitioned(c) && Holds(c, p, t)
    ensures PlaceIn(SpreadOf(c), t) == p
  {
    var q := PlaceIn(SpreadOf(c), t);
    assert Holds(c, q, t);
    OnlyPlace(c, p, q, t);
  }

  lemma PickedRunnable(c: Cpu)
    requires Inv(c) && Room(c) && Picked(c)
    ensures Runnable(c, c.curr)
  {
    RunningPlace(c);
    PickedPlace(c);
    var p: Place :| (p == AtDead || p.AtLevel?) && Holds(c, p, c.curr);
    PlaceFound(c, p, c.curr);
  }

  lemma NobodyRunnable(c: Cpu, t: nat)
    requires Inv(c) && c.dead == [] && c.high == [] && c.med == [] && c.low == []
    ensures !Runnable(c, t)
  {
    if t in c.tcb && t != c.main {
      LiveOnce(c, t);
      assert Holds(c, PlaceIn(SpreadOf(c), t), t);
    }
  }

  /** After admissions and releases, a decision succeeds exactly when some thread can run, and then picks one. */
  lemma FoundIffRunnable(c: Cpu, lockFree: bool)
    requires Inv(c) && Room(c)
    ensures var b := ReleaseDue(Admit(c));
            var (r, found) := NextUp(c, lockFree);
            (found <==> exists t :: Runnable(b, t)) && (found ==> Runnable(b, r.curr))
  {
    hide Choose;
    var b := ReleaseDue(Admit(c));
    var (d, found) := Choose(c);
    ChoosePicks(c);
    if found {
      PickedRunnable(d);
      ChooseRunnable(c, d.curr);
    } else {
      forall t ensures !Runnable(b, t) {
        ChooseRunnable(c, t);
        NobodyRunnable(d, t);
      }
    }
  }

  // ---------------------------------------------------------------- utilization

  /** Sum of prev_u over a set of threads. */
  ghost function SumU(s: set<nat>, m: map<nat, Tcb>): nat
    requires s <= m.Keys
    decreases s
  {
    if s == {} then 0 else
      var t :| t in s;
      m[t].prevU + SumU(s - {t}, m)
  }

  lemma {:induction false} SumURemove(s: set<nat>, m: map<nat, Tcb>, t: nat)
    requires s <= m.Keys && t in s
    ensures SumU(s, m) == m[t].prevU + SumU(s - {t}, m)
    decreases s
  {
    var u :| u in s && SumU(s, m) == m[u].prevU + SumU(s - {u}, m);
    if u != t {
      SumURemove(s - {u}, m, t);
      SumURemove(s - {t}, m, u);
      assert s - {u} - {t} == s - {t} - {u};
    }
  }

  lemma {:induction false} SumUSame(s: set<nat>, m: map<nat, Tcb>, m': map<nat, Tcb>)
    requires s <= m.Keys && s <= m'.Keys && forall t :: t in s ==> m[t].prevU == m'[t].prevU
    ensures SumU(s, m) == SumU(s, m')
    decreases s
  {
    if s != {} {
      var t :| t in s;
      SumURemove(s, m, t);
      SumURemove(s, m', t);
      SumUSame(s - {t}, m, m');
    }
  }

  ghost function Workers(c: Cpu): set<nat> {
    c.tcb.Keys - {c.main}
  }

  /** The core's utilization is the sum of its threads' last contributions, modulo 2^32; the main thread never
      contributes. */
  ghost predicate Account(c: Cpu) {
    && c.main in c.tcb && c.tcb[c.main].periodicity == APERIODIC
    && c.utilization == SumU(Workers(c), c.tcb) % WORD
  }

  lemma EvolvesAccount(c: Cpu, c': Cpu)
    requires Evolves(c, c') && Account(c)
    ensures Account(c')
  {
    forall t | t in Workers(c) ensures c.tcb[t].prevU == c'.tcb[t].prevU {
      assert Leaves(c, c', t);
    }
    SumUSame(Workers(c), c.tcb, c'.tcb);
  }

  lemma SubMod(total: nat, part: nat, rest: nat)
    requires total == part + rest
    ensures Sub32(total % WORD, part) == rest % WORD
  {
  }

  lemma ReapOneAccount(c: Cpu)
    requires Inv(c) && Room(c) && c.outgoing != [] && Account(c)
    ensures c.outgoing[0] in c.tcb && Account(ReapOne(c))
  {
    ReapOneOk(c);
    var t, c' := c.outgoing[0], ReapOne(c);
    SumURemove(Workers(c), c.tcb, t);
    assert Workers(c') == Workers(c) - {t};
    SumUSame(Workers(c'), c.tcb, c'.tcb);
    SubMod(SumU(Workers(c), c.tcb), c.tcb[t].prevU, SumU(Workers(c'), c'.tcb));
  }

  lemma {:induction false} ReapAllAccount(c: Cpu)
    requires Inv(c) && Room(c) && Account(c)
    ensures Account(ReapAll(c))
    decreases |c.outgoing|
  {
    if c.outgoing != [] {
      ReapOneAccount(c);
      ReapOneOk(c);
      ReapAllAccount(ReapOne(c));
    }
  }

  /** A decision keeps the account, whoever it retires or frees. */
  lemma DispatchAccount(c: Cpu, lockFree: bool)
    requires Inv(c) && Room(c) && Account(c)
    ensures Account(Dispatch(c, lockFree))
  {
    hide Choose;
    var (d, found) := Choose(c);
    EvolvesAccount(c, d);
    ReapAllAccount(d);
  }
}
