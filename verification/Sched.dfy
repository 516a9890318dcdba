/** next_up: the loops over the elementary moves, and what one scheduling decision guarantees. */
module Sched {
  import opened Wrapped
  import opened ThreadTypes
  import opened HeapOps
  import opened SchedState
  import opened SchedMoves

  // ---------------------------------------------------------------- what every move leaves alone

  ghost predicate Holds(c: Cpu, p: Place, t: nat) {
    t in Held(SpreadOf(c), p)
  }

  /** Thread t is finished for good: it will only be retired and freed. */
  ghost predicate Doomed(c: Cpu, t: nat) {
    t in c.tcb && PlaceIn(SpreadOf(c), t) != AtIncoming && c.tcb[t].status == FINISHED && c.tcb[t].periodicity == APERIODIC
  }

  /** Thread t waits in the release heap for a tick that has not come. */
  ghost predicate Asleep(c: Cpu, t: nat) {
    t in c.tcb && PlaceIn(SpreadOf(c), t) == AtRel && c.ticks < c.tcb[t].release
  }

  /** A stretch of next_up before reaping, as seen by thread t. */
  ghost predicate Leaves(c: Cpu, c': Cpu, t: nat) {
    t in c.tcb ==>
      && t in c'.tcb && c'.tcb[t].prevU == c.tcb[t].prevU && c'.tcb[t].period == c.tcb[t].period
      && (c.tcb[t].status != FINISHED ==> c'.tcb[t].status != FINISHED)
      && (Doomed(c, t) ==> Doomed(c', t))
      && (Asleep(c, t) ==> Asleep(c', t) && c'.tcb[t] == c.tcb[t])
  }

  ghost predicate Evolves(c: Cpu, c': Cpu) {
    && c'.ticks == c.ticks && c'.main == c.main && c'.tcb.Keys == c.tcb.Keys && c'.utilization == c.utilization
    && (c.main in c.tcb ==> c'.tcb[c.main] == c.tcb[c.main])
    && forall t {:trigger Leaves(c, c', t)} :: Leaves(c, c', t)
  }

  lemma EvolvesTrans(a: Cpu, b: Cpu, c: Cpu)
    requires Evolves(a, b) && Evolves(b, c)
    ensures Evolves(a, c)
  {
    forall t ensures Leaves(a, c, t) {
      assert Leaves(a, b, t) && Leaves(b, c, t);
    }
  }

  lemma EvolvesRefl(c: Cpu)
    ensures Evolves(c, c)
  {
  }

  lemma HeldPut(s: Spread, p: Place, t: nat, q: Place)
    ensures Held(Put(s, p, t), q) == if p == q then Held(s, q) + multiset{t} else Held(s, q)
  {
  }

  lemma PutHolds(s: Spread, p: Place, t: nat, q: Place, u: nat)
    ensures u in Held(Put(s, p, t), q) <==> u in Held(s, q) || (u == t && p == q)
  {
    HeldPut(s, p, t, q);
    hide Held, Put;
  }

  lemma HeldInTotal(s: Spread, p: Place, t: nat)
    requires t in Held(s, p)
    ensures t in Total(s)
  {
  }

  /** A move evolves the state if it treats its own thread well. */
  lemma MoveEvolves(c: Cpu, c': Cpu, s: Spread, p: Place, q: Place, t: nat)
    requires Partitioned(c) && Moves(c, c', s, p, q, t) && c'.utilization == c.utilization
    requires Leaves(c, c', t)
    ensures Evolves(c, c')
  {
    MovePartition(c, c', s, p, q, t);
    LiftedFacts(c, s, p, t);
    forall u | u != t ensures Leaves(c, c', u) {
      LeavesOthers(c, c', s, p, q, t, u);
    }
  }

  lemma LeavesOthers(c: Cpu, c': Cpu, s: Spread, p: Place, q: Place, t: nat, u: nat)
    requires Moves(c, c', s, p, q, t) && u != t
    ensures Leaves(c, c', u)
  {
    PutElsewhere(s, p, t, u);
    PutElsewhere(s, q, t, u);
    assert PlaceIn(SpreadOf(c'), u) == PlaceIn(SpreadOf(c), u);
  }

  /** The moved thread itself, when it was neither doomed nor asleep, or keeps being so. */
  lemma MovedThread(c: Cpu, c': Cpu, s: Spread, p: Place, q: Place, t: nat)
    requires Partitioned(c) && Moves(c, c', s, p, q, t)
    requires c'.tcb[t].prevU == c.tcb[t].prevU && c'.tcb[t].period == c.tcb[t].period
    requires c.tcb[t].status != FINISHED ==> c'.tcb[t].status != FINISHED
    requires p == AtRel ==> c.tcb[t].release <= c.ticks
    requires p == AtIncoming || (c'.tcb[t].status == c.tcb[t].status && c'.tcb[t].periodicity == c.tcb[t].periodicity && q != AtIncoming)
             || c.tcb[t].periodicity != APERIODIC
    ensures Leaves(c, c', t)
  {
    hide Put, PlaceIn, Total, SpreadOf, Partitioned;
    LiftedFacts(c, s, p, t);
    PutHere(s, q, t);
  }

  // ---------------------------------------------------------------- admission

  ghost predicate KeepsRoom(c: Cpu, c': Cpu) {
    forall w {:trigger RoomAt(c, w)} {:trigger RoomAt(c', w)} :: RoomAt(c, w) ==> RoomAt(c', w)
  }

  lemma AdmitOneEvolves(c: Cpu, w: nat)
    requires Inv(c) && RoomAt(c, w) && c.incoming != []
    ensures c.incoming[0] in c.tcb && Evolves(c, AdmitOne(c))
  {
    AdmitOneKeeps(c, w);
    var t, c' := c.incoming[0], AdmitOne(c);
    var q := if c.tcb[t].periodicity == PERSISTENT then AtLevel(c.tcb[t].priority) else AtDead;
    AdmittedMove(c, c', SansIncoming(c), q, t);
    assert c'.utilization == c.utilization;
    MoveEvolves(c, c', SansIncoming(c), AtIncoming, q, t);
  }

  lemma AdmittedMove(c: Cpu, c': Cpu, s: Spread, q: Place, t: nat)
    requires Partitioned(c) && Moves(c, c', s, AtIncoming, q, t) && c'.tcb[t] == Admitted(c.tcb[t], c.ticks)
    ensures Leaves(c, c', t)
  {
    MovedThread(c, c', s, AtIncoming, q, t);
  }

  lemma AdmitOneOk(c: Cpu)
    requires Inv(c) && Room(c) && c.incoming != []
    ensures c.incoming[0] in c.tcb && Inv(AdmitOne(c)) && KeepsRoom(c, AdmitOne(c)) && Room(AdmitOne(c))
    ensures Evolves(c, AdmitOne(c))
  {
    var w :| RoomAt(c, w);
    AdmitOneKeeps(c, w);
    AdmitOneEvolves(c, w);
    var c' := AdmitOne(c);
    forall v | RoomAt(c, v) ensures RoomAt(c', v) {
      AdmitOneKeeps(c, v);
    }
  }

  lemma AdmitShrinks(c: Cpu)
    requires c.incoming != [] && c.incoming[0] in c.tcb
    ensures |AdmitOne(c).incoming| < |c.incoming|
  {
  }

  /** The first loop of next_up. */
  ghost function Admit(c: Cpu): (r: Cpu)
    requires Inv(c) && Room(c)
    ensures Inv(r) && Room(r) && KeepsRoom(c, r) && Evolves(c, r) && r.incoming == []
    decreases |c.incoming|
  {
    if c.incoming == [] then
      EvolvesRefl(c);
      c
    else
      AdmitOneOk(c);
      var r := Admit(AdmitOne(c));
      EvolvesTrans(c, AdmitOne(c), r);
      r
  }

  // ---------------------------------------------------------------- releases

  lemma ReleaseOneOk(c: Cpu)
    requires Inv(c) && Room(c) && HeadDue(c)
    ensures Inv(ReleaseOne(c)) && KeepsRoom(c, ReleaseOne(c)) && Room(ReleaseOne(c))
    ensures Evolves(c, ReleaseOne(c))
  {
    var w :| RoomAt(c, w);
    ReleaseOneKeeps(c, w);
    forall v | RoomAt(c, v) ensures RoomAt(ReleaseOne(c), v) {
      ReleaseOneKeeps(c, v);
    }
    var t, s := c.rel[0].thread, SansRel(c);
    LiftedTags(c, s, AtRel, t, w);
    DueMeansPast(c.ticks, c.tcb[t].release, w);
    MovedThread(c, ReleaseOne(c), s, AtRel, AtDead, t);
    MoveEvolves(c, ReleaseOne(c), s, AtRel, AtDead, t);
  }

  lemma DueMeansPast(ticks: nat, time: nat, w: nat)
    requires Plain(w) && In(w, ticks) && In(w, time)
    ensures GeqWrapped(ticks, time) <==> time <= ticks
    ensures LtWrapped(ticks, time) <==> ticks < time
  {
    PlainWindow(w, ticks);
    PlainWindow(w, time);
    PlainOrder(w, ticks, time);
  }

  /** The second loop of next_up. */
  ghost function ReleaseDue(c: Cpu): (r: Cpu)
    requires Inv(c) && Room(c)
    ensures Inv(r) && Room(r) && KeepsRoom(c, r) && Evolves(c, r) && !HeadDue(r) && r.incoming == c.incoming
    decreases |c.rel|
  {
    if !HeadDue(c) then
      EvolvesRefl(c);
      c
    else
      ReleaseOneOk(c);
      var r := ReleaseDue(ReleaseOne(c));
      EvolvesTrans(c, ReleaseOne(c), r);
      r
  }

  /** A decision before it selects: newcomers admitted, due sleepers released. */
  ghost function Prepared(c: Cpu): (r: Cpu)
    requires Inv(c) && Room(c)
    ensures Inv(r) && Room(r) && KeepsRoom(c, r) && !HeadDue(r) && r.ticks == c.ticks && r.incoming == []
  {
    ReleaseDue(Admit(c))
  }

  // ---------------------------------------------------------------- the deadline heap

  ghost function FinishedDead(c: Cpu): set<nat> {
    set t | t in c.tcb && Holds(c, AtDead, t) && c.tcb[t].status == FINISHED
  }

  lemma RearmOneOk(c: Cpu)
    requires Inv(c) && Room(c) && HeadFinished(c, PERIODIC)
    ensures c.tcb[c.dead[0].thread].period > 0
    ensures Inv(RearmOne(c)) && KeepsRoom(c, RearmOne(c)) && Room(RearmOne(c))
    ensures Evolves(c, RearmOne(c)) && FinishedDead(RearmOne(c)) < FinishedDead(c)
  {
    var w :| RoomAt(c, w);
    RearmOneKeeps(c, w);
    forall v | RoomAt(c, v) ensures RoomAt(RearmOne(c), v) {
      RearmOneKeeps(c, v);
    }
    var t, s := c.dead[0].thread, SansDead(c);
    var q := if LtWrapped(c.ticks, Rearmed(c.tcb[t], c.ticks).release) then AtRel else AtDead;
    MovedThread(c, RearmOne(c), s, AtDead, q, t);
    MoveEvolves(c, RearmOne(c), s, AtDead, q, t);
    FinishedShrinks(c, RearmOne(c), s, q, t);
  }

  lemma FinishedShrinks(c: Cpu, c': Cpu, s: Spread, q: Place, t: nat)
    requires Moves(c, c', s, AtDead, q, t) && c.tcb[t].status == FINISHED
    requires c'.tcb[t].status != FINISHED || (q != AtDead && Partitioned(c))
    ensures FinishedDead(c') < FinishedDead(c)
  {
    PutHolds(s, AtDead, t, AtDead, t);
    assert t in FinishedDead(c);
    forall u | u in FinishedDead(c') ensures u in FinishedDead(c) && u != t {
      PutHolds(s, AtDead, t, AtDead, u);
      PutHolds(s, q, t, AtDead, u);
      if u == t && c'.tcb[t].status == FINISHED {
        LiftedFacts(c, s, AtDead, t);
        HeldInTotal(s, AtDead, t);
      }
    }
  }

  lemma RetireOneOk(c: Cpu)
    requires Inv(c) && Room(c) && HeadFinished(c, APERIODIC)
    ensures Inv(RetireOne(c)) && KeepsRoom(c, RetireOne(c)) && Room(RetireOne(c))
    ensures Evolves(c, RetireOne(c)) && FinishedDead(RetireOne(c)) < FinishedDead(c)
  {
    var w :| RoomAt(c, w);
    RetireOneKeeps(c, w);
    forall v | RoomAt(c, v) ensures RoomAt(RetireOne(c), v) {
      RetireOneKeeps(c, v);
    }
    var t, s := c.dead[0].thread, SansDead(c);
    MovedThread(c, RetireOne(c), s, AtDead, AtOutgoing, t);
    MoveEvolves(c, RetireOne(c), s, AtDead, AtOutgoing, t);
    FinishedShrinks(c, RetireOne(c), s, AtOutgoing, t);
  }

  lemma PickDeadOk(c: Cpu)
    requires Inv(c) && Room(c) && c.dead != []
    ensures var t := c.dead[0].thread;
            && t in c.tcb && t != c.main && c.tcb[t].periodicity != PERSISTENT && Holds(c, AtDead, t)
            && PickDead(c).tcb[t].status == c.tcb[t].status
    ensures Inv(PickDead(c)) && KeepsRoom(c, PickDead(c)) && Room(PickDead(c)) && Evolves(c, PickDead(c))
  {
    var w :| RoomAt(c, w);
    PickDeadKeeps(c, w);
    forall v | RoomAt(c, v) ensures RoomAt(PickDead(c), v) {
      PickDeadKeeps(c, v);
    }
    var t, s := c.dead[0].thread, SansDead(c);
    PutHolds(s, AtDead, t, AtDead, t);
    MovedThread(c, PickDead(c), s, AtDead, AtDead, t);
    MoveEvolves(c, PickDead(c), s, AtDead, AtDead, t);
  }

  /** The third loop of next_up: re-arm and retire finished heads until an unfinished one is selected. Its measure
      is the set of finished threads in the heap. */
  ghost function SelectDead(c: Cpu): (r: (Cpu, bool))
    requires Inv(c) && Room(c)
    ensures Inv(r.0) && Room(r.0) && KeepsRoom(c, r.0) && Evolves(c, r.0) && r.0.incoming == c.incoming
    ensures r.0.high == c.high && r.0.med == c.med && r.0.low == c.low
    decreases FinishedDead(c)
  {
    hide Inv, Room, RoomAt, Evolves, FinishedDead;
    if c.dead == [] then
      EvolvesRefl(c);
      (c, false)
    else
      PickDeadOk(c);
      var t := c.dead[0].thread;
      if c.tcb[t].status != FINISHED then (PickDead(c), true)
      else if c.tcb[t].periodicity == PERIODIC then
        RearmOneOk(c);
        var r := SelectDead(RearmOne(c));
        EvolvesTrans(c, RearmOne(c), r.0);
        r
      else
        RetireOneOk(c);
        var r := SelectDead(RetireOne(c));
        EvolvesTrans(c, RetireOne(c), r.0);
        r
  }

  // ---------------------------------------------------------------- the persistent levels

  /** Finished or due threads of a level: what a pass over the level can still retire or rotate. */
  ghost function Pending(c: Cpu, p: Priority): set<nat> {
    set t | t in c.tcb && Holds(c, AtLevel(p), t) && (c.tcb[t].status == FINISHED || GeqWrapped(c.ticks, c.tcb[t].deadline))
  }

  lemma PendingShrinks(c: Cpu, c': Cpu, s: Spread, p: Priority, q: Place, t: nat)
    requires Moves(c, c', s, AtLevel(p), q, t)
    requires c.tcb[t].status == FINISHED || GeqWrapped(c.ticks, c.tcb[t].deadline)
    requires !(c'.tcb[t].status == FINISHED || GeqWrapped(c.ticks, c'.tcb[t].deadline)) || (q == AtOutgoing && Partitioned(c))
    ensures Pending(c', p) < Pending(c, p)
  {
    PutHolds(s, AtLevel(p), t, AtLevel(p), t);
    assert t in Pending(c, p);
    forall u | u in Pending(c', p) ensures u in Pending(c, p) && u != t {
      PutHolds(s, AtLevel(p), t, AtLevel(p), u);
      PutHolds(s, q, t, AtLevel(p), u);
      if u == t && q == AtOutgoing {
        LiftedFacts(c, s, AtLevel(p), t);
        HeldInTotal(s, AtLevel(p), t);
      }
    }
  }

  lemma LevelHeadOk(c: Cpu, p: Priority)
    requires Inv(c) && Room(c) && Level(c, p) != []
    ensures var t := Level(c, p)[0]; t in c.tcb && t != c.main && Holds(c, AtLevel(p), t)
  {
    var w :| RoomAt(c, w);
    LevelHead(c, p, w);
    PutHolds(SansLevel(c, p), AtLevel(p), Level(c, p)[0], AtLevel(p), Level(c, p)[0]);
  }

  lemma RetireFromLevelOk(c: Cpu, p: Priority)
    requires Inv(c) && Room(c) && Level(c, p) != [] && Level(c, p)[0] in c.tcb
    requires c.tcb[Level(c, p)[0]].status == FINISHED
    ensures var c' := RetireFromLevel(c, p);
            Inv(c') && KeepsRoom(c, c') && Room(c') && Evolves(c, c') && Pending(c', p) < Pending(c, p)
  {
    var c' := RetireFromLevel(c, p);
    var w :| RoomAt(c, w);
    RetireFromLevelKeeps(c, p, w);
    forall v | RoomAt(c, v) ensures RoomAt(c', v) {
      RetireFromLevelKeeps(c, p, v);
    }
    var t, s := Level(c, p)[0], SansLevel(c, p);
    MovedThread(c, c', s, AtLevel(p), AtOutgoing, t);
    MoveEvolves(c, c', s, AtLevel(p), AtOutgoing, t);
    PendingShrinks(c, c', s, p, AtOutgoing, t);
  }

  lemma RotateLevelOk(c: Cpu, p: Priority)
    requires Inv(c) && Room(c) && Level(c, p) != [] && Level(c, p)[0] in c.tcb
    requires c.tcb[Level(c, p)[0]].status != FINISHED && SliceOver(c, p)
    ensures var c' := RotateLevel(c, p);
            Inv(c') && KeepsRoom(c, c') && Room(c') && Evolves(c, c') && Pending(c', p) < Pending(c, p)
  {
    var c' := RotateLevel(c, p);
    var w :| RoomAt(c, w);
    RotateLevelKeeps(c, p, w);
    forall v | RoomAt(c, v) ensures RoomAt(c', v) {
      RotateLevelKeeps(c, p, v);
    }
    var t, s := Level(c, p)[0], SansLevel(c, p);
    LevelHead(c, p, w);
    VisitedFits(c.tcb[t], c.ticks, w, p);
    MovedThread(c, c', s, AtLevel(p), AtLevel(p), t);
    MoveEvolves(c, c', s, AtLevel(p), AtLevel(p), t);
    PendingShrinks(c, c', s, p, AtLevel(p), t);
  }

  lemma PickLevelOk(c: Cpu, p: Priority)
    requires Inv(c) && Room(c) && Level(c, p) != [] && Level(c, p)[0] in c.tcb
    requires c.tcb[Level(c, p)[0]].status != FINISHED
    ensures var c' := PickLevel(c, p); Inv(c') && KeepsRoom(c, c') && Room(c') && Evolves(c, c')
  {
    var c' := PickLevel(c, p);
    var w :| RoomAt(c, w);
    PickLevelKeeps(c, p, w);
    forall v | RoomAt(c, v) ensures RoomAt(c', v) {
      PickLevelKeeps(c, p, v);
    }
    var t, s := Level(c, p)[0], SansLevel(c, p);
    MovedThread(c, c', s, AtLevel(p), AtLevel(p), t);
    MoveEvolves(c, c', s, AtLevel(p), AtLevel(p), t);
  }

  /** One of the three level loops of next_up. Its measure is the set of finished or due threads in the level. */
  ghost function SelectLevel(c: Cpu, p: Priority): (r: (Cpu, bool))
    requires Inv(c) && Room(c)
    ensures Inv(r.0) && Room(r.0) && KeepsRoom(c, r.0) && Evolves(c, r.0)
    decreases Pending(c, p)
  {
    if Level(c, p) == [] then
      EvolvesRefl(c);
      (c, false)
    else
      LevelHeadOk(c, p);
      if c.tcb[Level(c, p)[0]].status == FINISHED then
        RetireFromLevelOk(c, p);
        var r := SelectLevel(RetireFromLevel(c, p), p);
        EvolvesTrans(c, RetireFromLevel(c, p), r.0);
        r
      else if SliceOver(c, p) then
        RotateLevelOk(c, p);
        var r := SelectLevel(RotateLevel(c, p), p);
        EvolvesTrans(c, RotateLevel(c, p), r.0);
        r
      else
        PickLevelOk(c, p);
        (PickLevel(c, p), true)
  }

  lemma EmptyLevel(c: Cpu, p: Priority)
    requires Inv(c) && Room(c) && Level(c, p) == []
    ensures SelectLevel(c, p) == (c, false)
  {
  }

  ghost predicate SameElsewhere(c: Cpu, r: Cpu, p: Priority, q: Priority) {
    r.dead == c.dead && r.rel == c.rel && r.incoming == c.incoming && (q != p ==> Level(r, q) == Level(c, q))
  }

  lemma LevelMoveFrame(c: Cpu, p: Priority, q: Priority)
    requires Level(c, p) != [] && Level(c, p)[0] in c.tcb
    ensures SameElsewhere(c, RetireFromLevel(c, p), p, q) && SameElsewhere(c, RotateLevel(c, p), p, q)
    ensures SameElsewhere(c, PickLevel(c, p), p, q)
  {
  }

  /** A pass over one level leaves heaps, admissions and the other levels alone. */
  lemma {:induction false} SelectLevelFrame(c: Cpu, p: Priority, q: Priority)
    requires Inv(c) && Room(c)
    ensures SameElsewhere(c, SelectLevel(c, p).0, p, q)
    decreases Pending(c, p)
  {
    hide Inv, Room, RetireFromLevel, RotateLevel, PickLevel, SliceOver;
    if Level(c, p) != [] {
      LevelHeadOk(c, p);
      LevelMoveFrame(c, p, q);
      if c.tcb[Level(c, p)[0]].status == FINISHED {
        RetireFromLevelOk(c, p);
        SelectLevelFrame(RetireFromLevel(c, p), p, q);
      } else if SliceOver(c, p) {
        RotateLevelOk(c, p);
        SelectLevelFrame(RotateLevel(c, p), p, q);
      }
    }
  }

  // ---------------------------------------------------------------- reaping

  lemma ReapOneOk(c: Cpu)
    requires Inv(c) && Room(c) && c.outgoing != []
    ensures c.outgoing[0] in c.tcb && c.outgoing[0] != c.main && Inv(ReapOne(c)) && Room(ReapOne(c)) && KeepsRoom(c, ReapOne(c))
  {
    var w :| RoomAt(c, w);
    ReapOneKeeps(c, w);
    var c' := ReapOne(c);
    forall v | RoomAt(c, v) ensures RoomAt(c', v) {
      ReapOneKeeps(c, v);
    }
  }

  /** The last loop of next_up: free every retired thread. */
  ghost function ReapAll(c: Cpu): (r: Cpu)
    requires Inv(c) && Room(c)
    ensures Inv(r) && Room(r) && KeepsRoom(c, r) && r.outgoing == []
    ensures r.ticks == c.ticks && r.main == c.main && r.curr == c.curr
    ensures r.dead == c.dead && r.rel == c.rel && r.low == c.low && r.med == c.med && r.high == c.high && r.incoming == c.incoming
    decreases |c.outgoing|
  {
    if c.outgoing == [] then c
    else
      ReapOneOk(c);
      ReapAll(ReapOne(c))
  }

  /** next_up; lockFree is the outcome of the best-effort lock on the allocator. */
  ghost function NextUp(c: Cpu, lockFree: bool): (r: (Cpu, bool))
    requires Inv(c) && Room(c)
    ensures Inv(r.0) && Room(r.0) && KeepsRoom(c, r.0)
  {
    var (d, found) := Choose(c);
    (if lockFree then ReapAll(d) else d, found)
  }

  /** The three level loops, highest priority first, each entered only if nothing was found before. */
  ghost function SelectLevels(c: Cpu): (r: (Cpu, bool))
    requires Inv(c) && Room(c)
    ensures Inv(r.0) && Room(r.0) && KeepsRoom(c, r.0) && Evolves(c, r.0)
  {
    var (h, fh) := SelectLevel(c, HIGH_PRIORITY);
    if fh then (h, true) else
      var (m, fm) := SelectLevel(h, MED_PRIORITY);
      EvolvesTrans(c, h, m);
      if fm then (m, true) else
        var (l, fl) := SelectLevel(m, LOW_PRIORITY);
        EvolvesTrans(c, m, l);
        (l, fl)
  }

  /** The selection part of next_up. */
  ghost function Choose(c: Cpu): (r: (Cpu, bool))
    requires Inv(c) && Room(c)
    ensures Inv(r.0) && Room(r.0) && KeepsRoom(c, r.0) && Evolves(c, r.0)
  {
    var b := ReleaseDue(Admit(c));
    EvolvesTrans(c, Admit(c), b);
    var (d, f) := SelectDead(b);
    EvolvesTrans(c, b, d);
    if f then (d, true) else
      var r := SelectLevels(d);
      EvolvesTrans(c, d, r.0);
      r
  }

  /** next_up as its callers use it: back to the main thread when nothing was found. */
  ghost function Dispatch(c: Cpu, lockFree: bool): (r: Cpu)
    requires Inv(c) && Room(c)
    ensures Inv(r) && Room(r) && KeepsRoom(c, r)
  {
    var (d, found) := NextUp(c, lockFree);
    if found then d else ToMain(d)
  }

  ghost function ToMain(c: Cpu): (r: Cpu)
    requires Inv(c) && Room(c)
    ensures Inv(r) && Room(r) && KeepsRoom(c, r)
  {
    var r := c.(curr := c.main);
    SetCurrKeeps(c, c.main);
    r
  }

  lemma SetCurrKeeps(c: Cpu, t: nat)
    requires Inv(c) && Room(c)
    ensures var r := c.(curr := t); Inv(r) && Room(r) && KeepsRoom(c, r)
  {
    var r := c.(curr := t);
    assert SpreadOf(r) == SpreadOf(c);
    forall u | u in r.tcb && u != r.main ensures TagOk(r, u) {
      assert TagOk(c, u);
    }
    forall w | RoomAt(c, w) ensures RoomAt(r, w) {
      forall u | u in r.tcb && u != r.main ensures RoomFor(r, w, u) {
        assert RoomFor(c, w, u);
      }
    }
    var w :| RoomAt(c, w);
  }

  // ---------------------------------------------------------------- what is picked

  /** The running thread is the unfinished head of the deadline heap, and no stored order there is below its own. */
  ghost predicate RunsLeast(c: Cpu) {
    && c.dead != [] && c.curr == c.dead[0].thread && c.curr in c.tcb && c.tcb[c.curr].status != FINISHED
    && forall i {:trigger c.dead[i]} :: 0 <= i < |c.dead| ==> !LtWrapped(c.dead[i].order, c.dead[0].order)
  }

  /** The running thread is the unfinished head of level p. */
  ghost predicate RunsLevel(c: Cpu, p: Priority) {
    Level(c, p) != [] && c.curr == Level(c, p)[0] && c.curr in c.tcb && c.tcb[c.curr].status != FINISHED
  }

  lemma {:induction false} SelectDeadPicks(c: Cpu)
    requires Inv(c) && Room(c)
    ensures var (r, found) := SelectDead(c); if found then RunsLeast(r) else r.dead == []
    decreases FinishedDead(c)
  {
    if c.dead != [] {
      PickDeadOk(c);
      var t := c.dead[0].thread;
      if c.tcb[t].status != FINISHED {
        var w :| RoomAt(c, w);
        forall i | 0 <= i < |c.dead| ensures !LtWrapped(c.dead[i].order, c.dead[0].order) {
          HeadIsLeast(w, c.dead, i);
        }
      } else if c.tcb[t].periodicity == PERIODIC {
        RearmOneOk(c);
        SelectDeadPicks(RearmOne(c));
      } else {
        RetireOneOk(c);
        SelectDeadPicks(RetireOne(c));
      }
    }
  }

  lemma {:induction false} SelectLevelPicks(c: Cpu, p: Priority)
    requires Inv(c) && Room(c)
    ensures var (r, found) := SelectLevel(c, p); if found then RunsLevel(r, p) else Level(r, p) == []
    decreases Pending(c, p)
  {
    hide Inv, Room, RetireFromLevel, RotateLevel, SliceOver;
    if Level(c, p) != [] {
      LevelHeadOk(c, p);
      if c.tcb[Level(c, p)[0]].status == FINISHED {
        RetireFromLevelOk(c, p);
        SelectLevelPicks(RetireFromLevel(c, p), p);
      } else if SliceOver(c, p) {
        RotateLevelOk(c, p);
        SelectLevelPicks(RotateLevel(c, p), p);
      } else {
        PickLevelOk(c, p);
      }
    }
  }

  /** The scheduling decision: least stored order in the deadline heap first, then the highest level that is not empty. */
  ghost predicate Picked(c: Cpu) {
    if c.dead != [] then RunsLeast(c)
    else if c.high != [] then RunsLevel(c, HIGH_PRIORITY)
    else if c.med != [] then RunsLevel(c, MED_PRIORITY)
    else RunsLevel(c, LOW_PRIORITY)
  }

  lemma SelectLevelsPicks(c: Cpu)
    requires Inv(c) && Room(c) && c.dead == []
    ensures var (d, found) := SelectLevels(c);
            && d.dead == []
            && (found ==> Picked(d))
            && (!found ==> d.high == [] && d.med == [] && d.low == [])
  {
    hide SelectLevel, Inv, Room;
    SelectLevelPicks(c, HIGH_PRIORITY);
    SelectLevelFrame(c, HIGH_PRIORITY, HIGH_PRIORITY);
    var (h, fh) := SelectLevel(c, HIGH_PRIORITY);
    if !fh {
      SelectLevelPicks(h, MED_PRIORITY);
      SelectLevelFrame(h, MED_PRIORITY, HIGH_PRIORITY);
      var (m, fm) := SelectLevel(h, MED_PRIORITY);
      if !fm {
        SelectLevelPicks(m, LOW_PRIORITY);
        SelectLevelFrame(m, LOW_PRIORITY, HIGH_PRIORITY);
        SelectLevelFrame(m, LOW_PRIORITY, MED_PRIORITY);
      }
    }
  }

  lemma ChoosePicks(c: Cpu)
    requires Inv(c) && Room(c)
    ensures var (d, found) := Choose(c);
            && (found ==> Picked(d))
            && (!found ==> d.dead == [] && d.high == [] && d.med == [] && d.low == [])
  {
    hide SelectLevels;
    var b := ReleaseDue(Admit(c));
    SelectDeadPicks(b);
    var (d, f) := SelectDead(b);
    if !f {
      SelectLevelsPicks(d);
    }
  }
}
