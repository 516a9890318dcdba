/** Every elementary move of next_up keeps the scheduler invariant and stays inside the counter window. */
module SchedMoves {
  import opened Wrapped
  import opened ThreadTypes
  import opened HeapOps
  import opened Rearm
  import opened SchedState

  // ---------------------------------------------------------------- relocation

  /** One more t in container p. */
  function Put(s: Spread, p: Place, t: nat): Spread {
    match p
    case AtIncoming => s.(incoming := s.incoming + multiset{t})
    case AtOutgoing => s.(outgoing := s.outgoing + multiset{t})
    case AtDead => s.(dead := s.dead + multiset{t})
    case AtRel => s.(rel := s.rel + multiset{t})
    case AtLevel(LOW_PRIORITY) => s.(low := s.low + multiset{t})
    case AtLevel(MED_PRIORITY) => s.(med := s.med + multiset{t})
    case AtLevel(HIGH_PRIORITY) => s.(high := s.high + multiset{t})
  }

  lemma PutTotal(s: Spread, p: Place, t: nat)
    ensures Total(Put(s, p, t)) == Total(s) + multiset{t}
  {
    match p
    case AtIncoming =>
    case AtOutgoing =>
    case AtDead =>
    case AtRel =>
    case AtLevel(q) => match q { case LOW_PRIORITY => case MED_PRIORITY => case HIGH_PRIORITY => }
  }

  lemma PutElsewhere(s: Spread, p: Place, t: nat, u: nat)
    requires u != t
    ensures PlaceIn(Put(s, p, t), u) == PlaceIn(s, u)
  {
  }

  lemma PutHere(s: Spread, p: Place, t: nat)
    requires t !in Total(s)
    ensures PlaceIn(Put(s, p, t), t) == p
  {
  }

  /** Thread t is in container p of c, and s is what the containers hold without it. */
  ghost predicate Lifted(c: Cpu, s: Spread, p: Place, t: nat) {
    SpreadOf(c) == Put(s, p, t)
  }

  /** A contained thread is live, is not the main thread, and is contained once. */
  lemma LiftedFacts(c: Cpu, s: Spread, p: Place, t: nat)
    requires Partitioned(c) && Lifted(c, s, p, t)
    ensures t in c.tcb && t != c.main && t !in Total(s) && PlaceIn(SpreadOf(c), t) == p
    ensures Total(s) + multiset{t} == multiset(c.tcb.Keys - {c.main})
  {
    PutTotal(s, p, t);
    assert t in multiset(c.tcb.Keys - {c.main});
    assert Total(s)[t] == 0;
    PutHere(s, p, t);
  }

  /** A move that rewrites thread t and takes it from container p to container q. */
  ghost predicate Moves(c: Cpu, c': Cpu, s: Spread, p: Place, q: Place, t: nat) {
    && Lifted(c, s, p, t) && Lifted(c', s, q, t)
    && t in c.tcb && t in c'.tcb && c'.tcb == c.tcb[t := c'.tcb[t]]
    && c'.main == c.main && c'.ticks == c.ticks
  }

  /** What a move has to establish: only the tags and times of its own thread, and the heaps. */
  lemma MoveKeeps(c: Cpu, c': Cpu, s: Spread, p: Place, q: Place, t: nat, w: nat)
    requires Inv(c) && RoomAt(c, w) && Moves(c, c', s, p, q, t)
    requires TagFits(c'.tcb[t], q) && TimesFit(c'.tcb[t], c.ticks, w, q)
    requires HeapOrder(c'.dead) && HeapOrder(c'.rel) && Fits(w, c'.dead) && Fits(w, c'.rel)
    ensures Inv(c') && RoomAt(c', w)
  {
    MovePartition(c, c', s, p, q, t);
    LiftedFacts(c, s, p, t);
    forall u | u in c'.tcb && u != c'.main ensures TagOk(c', u) && RoomFor(c', w, u) {
      MoveKeepsOne(c, c', s, p, q, t, w, u);
    }
  }

  lemma MovePartition(c: Cpu, c': Cpu, s: Spread, p: Place, q: Place, t: nat)
    requires Partitioned(c) && Moves(c, c', s, p, q, t)
    ensures Partitioned(c') && c'.tcb.Keys == c.tcb.Keys
  {
    hide Put, PlaceIn, Total;
    LiftedFacts(c, s, p, t);
    PutTotal(s, q, t);
    assert c'.tcb.Keys == c.tcb.Keys;
    assert |c'.tcb| == |c'.tcb.Keys| && |c.tcb| == |c.tcb.Keys|;
  }

  lemma MoveKeepsOne(c: Cpu, c': Cpu, s: Spread, p: Place, q: Place, t: nat, w: nat, u: nat)
    requires Moves(c, c', s, p, q, t) && t !in Total(s) && u in c.tcb
    requires TagFits(c'.tcb[t], q) && TimesFit(c'.tcb[t], c.ticks, w, q)
    requires TagOk(c, u) && RoomFor(c, w, u)
    ensures TagOk(c', u) && RoomFor(c', w, u)
  {
    if u != t {
      PutElsewhere(s, p, t, u);
      PutElsewhere(s, q, t, u);
    } else {
      PutHere(s, q, t);
    }
  }

  /** The tags and times of a thread lifted out of container p. */
  lemma LiftedTags(c: Cpu, s: Spread, p: Place, t: nat, w: nat)
    requires Inv(c) && RoomAt(c, w) && Lifted(c, s, p, t)
    ensures t in c.tcb && t != c.main && TagFits(c.tcb[t], p) && TimesFit(c.tcb[t], c.ticks, w, p)
  {
    LiftedFacts(c, s, p, t);
    assert TagOk(c, t) && RoomFor(c, w, t);
  }

  // ---------------------------------------------------------------- containers

  lemma PopFront(q: seq<nat>)
    requires q != []
    ensures multiset(q) == multiset(q[1..]) + multiset{q[0]}
  {
    assert q == [q[0]] + q[1..];
  }

  lemma PushBack(q: seq<nat>, t: nat)
    ensures multiset(q + [t]) == multiset(q) + multiset{t}
  {
  }

  /** Inserting a node whose order lies in the window. */
  lemma InsertKeeps(w: nat, s: seq<Node>, node: Node)
    requires Plain(w) && Fits(w, s) && HeapOrder(s) && In(w, node.order)
    ensures HeapOrder(Insert(s, node)) && Fits(w, Insert(s, node))
    ensures multiset(Threads(Insert(s, node))) == multiset(Threads(s)) + multiset{node.thread}
  {
    PlainWindow(w, node.order);
    InsertOrders(w, s, node);
    InsertPerm(s, node);
    assert multiset(s + [node]) == multiset(s) + multiset{node};
    PermFits(w, s + [node], Insert(s, node));
  }

  lemma RemoveHeadKeeps(w: nat, s: seq<Node>)
    requires Fits(w, s) && HeapOrder(s) && s != []
    ensures HeapOrder(RemoveHead(s)) && Fits(w, RemoveHead(s))
    ensures multiset(Threads(s)) == multiset(Threads(RemoveHead(s))) + multiset{s[0].thread}
  {
    RemoveHeadOrders(w, s);
    RemoveHeadPerm(s);
    PermFits(w, s, RemoveHead(s));
  }

  lemma BalanceKeeps(w: nat, s: seq<Node>, i: nat, order: nat)
    requires Plain(w) && Fits(w, s) && HeapOrder(s) && i < |s| && In(w, order)
    ensures HeapOrder(Balance(s, i, order)) && Fits(w, Balance(s, i, order))
    ensures multiset(Threads(Balance(s, i, order))) == multiset(Threads(s))
  {
    PlainWindow(w, order);
    var t := s[i := s[i].(order := order)];
    OverwriteOrderedBut(w, s, t, i);
    PlainDirectionOk(w, t, i);
    BalanceOrdersIff(w, s, i, order);
    BalancePerm(s, i, order);
    if |s| > 1 {
      PermFits(w, t, Balance(s, i, order));
    }
  }

  lemma RemoveNodeKeeps(w: nat, s: seq<Node>, i: nat)
    requires Plain(w) && Fits(w, s) && HeapOrder(s) && i < |s|
    ensures HeapOrder(RemoveNode(s, i)) && Fits(w, RemoveNode(s, i))
    ensures multiset(Threads(s)) == multiset(Threads(RemoveNode(s, i))) + multiset{s[i].thread}
  {
    OrderedStays(s, i);
    RemoveNodePerm(s, i);
    PermFits(w, s, RemoveNode(s, i));
    if i < |s| - 1 {
      var t := s[..|s| - 1][i := s[|s| - 1]];
      assert FitsAt(w, s, |s| - 1);
      OverwriteOrderedBut(w, s, t, i);
      PlainDirectionOk(w, t, i);
    }
    RemoveNodeOrdersIff(w, s, i);
  }

  // ---------------------------------------------------------------- the moves

  /** What the containers hold without the head of the incoming FIFO, and likewise below. */
  ghost function SansIncoming(c: Cpu): Spread
    requires c.incoming != []
  {
    SpreadOf(c).(incoming := multiset(c.incoming[1..]))
  }

  ghost function SansDead(c: Cpu): Spread
    requires c.dead != []
  {
    SpreadOf(c).(dead := multiset(Threads(RemoveHead(c.dead))))
  }

  ghost function SansRel(c: Cpu): Spread
    requires c.rel != []
  {
    SpreadOf(c).(rel := multiset(Threads(RemoveHead(c.rel))))
  }

  ghost function SansOutgoing(c: Cpu): Spread
    requires c.outgoing != []
  {
    SpreadOf(c).(outgoing := multiset(c.outgoing[1..]))
  }

  ghost function SansLevel(c: Cpu, p: Priority): Spread
    requires Level(c, p) != []
  {
    SpreadOf(WithLevel(c, p, Level(c, p)[1..]))
  }

  lemma AdmittedFits(x: Tcb, ticks: nat, w: nat)
    requires Plain(w) && In(w, ticks) && TimesFit(x, ticks, w, AtIncoming) && x.period > 0
    ensures var (y, q) := (Admitted(x, ticks), if x.periodicity == PERSISTENT then AtLevel(x.priority) else AtDead);
            TagFits(y, q) && TimesFit(y, ticks, w, q) && y.deadline == ticks + x.period
  {
  }

  /** An admitted persistent thread goes behind the others of its level. */
  lemma AdmitToLevel(c: Cpu)
    requires c.incoming != [] && Lifted(c, SansIncoming(c), AtIncoming, c.incoming[0]) && c.incoming[0] in c.tcb
    requires c.tcb[c.incoming[0]].periodicity == PERSISTENT
    ensures var t := c.incoming[0];
            && Moves(c, AdmitOne(c), SansIncoming(c), AtIncoming, AtLevel(c.tcb[t].priority), t)
            && AdmitOne(c).tcb[t] == Admitted(c.tcb[t], c.ticks)
            && AdmitOne(c).dead == c.dead && AdmitOne(c).rel == c.rel
  {
    var t := c.incoming[0];
    PushBack(Level(c, c.tcb[t].priority), t);
    match c.tcb[t].priority {
      case LOW_PRIORITY =>
      case MED_PRIORITY =>
      case HIGH_PRIORITY =>
    }
  }

  /** Any other goes to the deadline heap. */
  lemma AdmitToDead(c: Cpu)
    requires c.incoming != [] && Lifted(c, SansIncoming(c), AtIncoming, c.incoming[0]) && c.incoming[0] in c.tcb
    requires c.tcb[c.incoming[0]].periodicity != PERSISTENT
    requires var t := c.incoming[0];
             multiset(Threads(AdmitOne(c).dead)) == multiset(Threads(c.dead)) + multiset{t}
    ensures var t := c.incoming[0];
            && Moves(c, AdmitOne(c), SansIncoming(c), AtIncoming, AtDead, t)
            && AdmitOne(c).tcb[t] == Admitted(c.tcb[t], c.ticks)
            && AdmitOne(c).dead == Insert(c.dead, Node(AdmitOne(c).tcb[t].deadline, t)) && AdmitOne(c).rel == c.rel
  {
    hide Insert;
  }

  lemma AdmitOneKeeps(c: Cpu, w: nat)
    requires Inv(c) && RoomAt(c, w) && c.incoming != []
    ensures var t := c.incoming[0];
            && t in c.tcb && t != c.main
            && var q := if c.tcb[t].periodicity == PERSISTENT then AtLevel(c.tcb[t].priority) else AtDead;
            Moves(c, AdmitOne(c), SansIncoming(c), AtIncoming, q, t)
    ensures Inv(AdmitOne(c)) && RoomAt(AdmitOne(c), w)
  {
    hide HeapOrder, Fits, Insert, TimesFit, TagFits;
    var t, s := c.incoming[0], SansIncoming(c);
    PopFront(c.incoming);
    LiftedTags(c, s, AtIncoming, t, w);
    var x := c.tcb[t];
    AdmittedFits(x, c.ticks, w);
    if x.periodicity == PERSISTENT {
      AdmitToLevel(c);
      hide AdmitOne, Moves;
      MoveKeeps(c, AdmitOne(c), s, AtIncoming, AtLevel(x.priority), t, w);
    } else {
      InsertKeeps(w, c.dead, Node(c.ticks + x.period, t));
      AdmitToDead(c);
      hide AdmitOne, Moves;
      MoveKeeps(c, AdmitOne(c), s, AtIncoming, AtDead, t, w);
    }
  }

  lemma IncomingFits(c: Cpu, w: nat)
    requires Inv(c) && RoomAt(c, w) && c.incoming != []
    ensures c.incoming[0] in c.tcb && c.incoming[0] !in Total(SansIncoming(c))
    ensures Add32(c.ticks, c.tcb[c.incoming[0]].period) == c.ticks + c.tcb[c.incoming[0]].period
  {
    PopFront(c.incoming);
    LiftedTags(c, SansIncoming(c), AtIncoming, c.incoming[0], w);
    LiftedFacts(c, SansIncoming(c), AtIncoming, c.incoming[0]);
  }

  /** What admission leaves of a thread: one period from now, no miss noted, pending, in its level or in the deadline
      heap. */
  lemma AdmitOneTimes(c: Cpu, w: nat)
    requires Inv(c) && RoomAt(c, w) && c.incoming != []
    ensures c.incoming[0] in c.tcb
    ensures var (t, r) := (c.incoming[0], AdmitOne(c)); var x := c.tcb[t];
            && t in r.tcb && r.incoming == c.incoming[1..] && var y := r.tcb[t];
            && y == x.(release := c.ticks, deadline := c.ticks + x.period, dirty := false, status := PENDING, owner := y.owner)
            && PlaceIn(SpreadOf(r), t) == (if x.periodicity == PERSISTENT then AtLevel(x.priority) else AtDead)
  {
    hide Inv, RoomAt, SansIncoming, SpreadOf, Total, Put, PlaceIn, Insert, Add32;
    var t, s := c.incoming[0], SansIncoming(c);
    AdmitOneKeeps(c, w);
    IncomingFits(c, w);
    NowAt(AdmitOne(c), s, if c.tcb[t].periodicity == PERSISTENT then AtLevel(c.tcb[t].priority) else AtDead, t);
  }

  lemma ReleaseOneKeeps(c: Cpu, w: nat)
    requires Inv(c) && RoomAt(c, w) && HeadDue(c)
    ensures Moves(c, ReleaseOne(c), SansRel(c), AtRel, AtDead, c.rel[0].thread)
    ensures Inv(ReleaseOne(c)) && RoomAt(ReleaseOne(c), w)
  {
    var t, s := c.rel[0].thread, SansRel(c);
    RemoveHeadKeeps(w, c.rel);
    LiftedTags(c, s, AtRel, t, w);
    InsertKeeps(w, c.dead, Node(c.tcb[t].deadline, t));
    MoveKeeps(c, ReleaseOne(c), s, AtRel, AtDead, t, w);
  }

  lemma {:induction false} ReleaseGrows(release: nat, period: nat, deadline: nat)
    requires 0 < period <= deadline
    ensures NextRelease(release, period, deadline) >= release
    decreases deadline - release
  {
    if release + period < deadline - period {
      ReleaseGrows(release + period, period, deadline);
    }
  }

  /** A re-armed thread is due in the future, within one period of its new release. */
  lemma RearmedShape(x: Tcb, ticks: nat, w: nat)
    requires Plain(w) && In(w, ticks) && TagFits(x, AtDead) && TimesFit(x, ticks, w, AtDead)
    requires x.status == FINISHED && x.periodicity == PERIODIC
    ensures var y := Rearmed(x, ticks);
            && In(w, y.release) && In(w, y.deadline) && ticks < y.deadline
            && 0 < y.deadline - y.release <= y.period
            && (x.deadline == x.release + x.period ==> y.deadline == y.release + y.period)
  {
    NextDeadlineBound(x.deadline, x.period, ticks);
    WindowShape(x.release, x.deadline, x.period, ticks);
    ReleaseGrows(x.release, x.period, NextDeadline(x.deadline, x.period, ticks));
  }

  /** The re-armed times: the first deadline above the tick counter, and the first release at most one period before
      that deadline. */
  lemma RearmedTimes(x: Tcb, ticks: nat, w: nat)
    requires Plain(w) && In(w, ticks) && TagFits(x, AtDead) && TimesFit(x, ticks, w, AtDead)
    requires x.status == FINISHED && x.periodicity == PERIODIC
    ensures var y := Rearmed(x, ticks);
            && FirstFrom(x.deadline, x.period, ticks + 1, y.deadline)
            && FirstFrom(x.release, x.period, y.deadline - x.period, y.release)
            && (LtWrapped(ticks, y.release) <==> ticks < y.release)
  {
    RearmedShape(x, ticks, w);
    var y := Rearmed(x, ticks);
    var k := LeastDeadline(x.deadline, x.period, ticks);
    assert FirstAt(x.deadline, x.period, ticks + 1, y.deadline, k);
    var j := LeastRelease(x.release, x.period, y.deadline);
    assert FirstAt(x.release, x.period, y.deadline - x.period, y.release, j);
    PlainWindow(w, ticks);
    PlainWindow(w, y.release);
    PlainOrder(w, ticks, y.release);
  }

  lemma RearmOneEntry(c: Cpu)
    requires HeadFinished(c, PERIODIC) && c.tcb[c.dead[0].thread].period > 0
    ensures var (t, r) := (c.dead[0].thread, RearmOne(c)); var y := Rearmed(c.tcb[t], c.ticks);
            t in r.tcb && r.tcb[t] == if LtWrapped(c.ticks, y.release) then y.(owner := REL_HEAP) else y
  {
  }

  lemma NowAt(c: Cpu, s: Spread, q: Place, t: nat)
    requires Lifted(c, s, q, t) && t !in Total(s)
    ensures PlaceIn(SpreadOf(c), t) == q
  {
    hide PlaceIn, Put, Total;
    PutHere(s, q, t);
  }

  lemma HeadFits(c: Cpu, w: nat)
    requires Inv(c) && RoomAt(c, w) && c.dead != []
    ensures Plain(w) && In(w, c.ticks) && c.dead[0].thread in c.tcb && c.dead[0].thread !in Total(SansDead(c))
    ensures TagFits(c.tcb[c.dead[0].thread], AtDead) && TimesFit(c.tcb[c.dead[0].thread], c.ticks, w, AtDead)
  {
    RemoveHeadPerm(c.dead);
    assert Lifted(c, SansDead(c), AtDead, c.dead[0].thread);
    LiftedTags(c, SansDead(c), AtDead, c.dead[0].thread, w);
    LiftedFacts(c, SansDead(c), AtDead, c.dead[0].thread);
  }

  /** What a re-arm leaves of the head: the re-armed times, no miss noted, pending; it waits for its release, or stays in
      the deadline heap if that has come. */
  lemma RearmOneTimes(c: Cpu, w: nat)
    requires Inv(c) && RoomAt(c, w) && HeadFinished(c, PERIODIC)
    ensures c.tcb[c.dead[0].thread].period > 0
    ensures var (t, r) := (c.dead[0].thread, RearmOne(c)); var x := c.tcb[t];
            && t in r.tcb && var y := r.tcb[t];
            && FirstFrom(x.deadline, x.period, c.ticks + 1, y.deadline)
            && FirstFrom(x.release, x.period, y.deadline - x.period, y.release)
            && y == x.(deadline := y.deadline, release := y.release, dirty := false, status := PENDING, owner := y.owner)
            && PlaceIn(SpreadOf(r), t) == (if c.ticks < y.release then AtRel else AtDead)
  {
    hide Inv, RoomAt, RearmOne, SansDead, SpreadOf, Total, Put, FirstFrom, NextDeadline, NextRelease, TagFits, TimesFit, PlaceIn;
    var t, s := c.dead[0].thread, SansDead(c);
    RearmOneKeeps(c, w);
    HeadFits(c, w);
    RearmedTimes(c.tcb[t], c.ticks, w);
    RearmOneEntry(c);
    var q := if LtWrapped(c.ticks, Rearmed(c.tcb[t], c.ticks).release) then AtRel else AtDead;
    NowAt(RearmOne(c), s, q, t);
  }

  lemma RearmOneKeeps(c: Cpu, w: nat)
    requires Inv(c) && RoomAt(c, w) && HeadFinished(c, PERIODIC)
    ensures var t := c.dead[0].thread;
            && c.tcb[t].period > 0
            && var q := if LtWrapped(c.ticks, Rearmed(c.tcb[t], c.ticks).release) then AtRel else AtDead;
            Moves(c, RearmOne(c), SansDead(c), AtDead, q, t)
    ensures Inv(RearmOne(c)) && RoomAt(RearmOne(c), w)
  {
    var t, s := c.dead[0].thread, SansDead(c);
    RemoveHeadKeeps(w, c.dead);
    LiftedTags(c, s, AtDead, t, w);
    RearmedShape(c.tcb[t], c.ticks, w);
    var x := Rearmed(c.tcb[t], c.ticks);
    if LtWrapped(c.ticks, x.release) {
      InsertKeeps(w, c.rel, Node(x.release, t));
      MoveKeeps(c, RearmOne(c), s, AtDead, AtRel, t, w);
    } else {
      BalanceKeeps(w, c.dead, 0, x.deadline);
      MoveKeeps(c, RearmOne(c), s, AtDead, AtDead, t, w);
    }
  }

  lemma RetireOneKeeps(c: Cpu, w: nat)
    requires Inv(c) && RoomAt(c, w) && HeadFinished(c, APERIODIC)
    ensures Moves(c, RetireOne(c), SansDead(c), AtDead, AtOutgoing, c.dead[0].thread)
    ensures Inv(RetireOne(c)) && RoomAt(RetireOne(c), w)
  {
    var t, s := c.dead[0].thread, SansDead(c);
    RemoveHeadKeeps(w, c.dead);
    LiftedTags(c, s, AtDead, t, w);
    PushBack(c.outgoing, t);
    MoveKeeps(c, RetireOne(c), s, AtDead, AtOutgoing, t, w);
  }

  lemma PickDeadKeeps(c: Cpu, w: nat)
    requires Inv(c) && RoomAt(c, w) && c.dead != []
    ensures var t := c.dead[0].thread;
            && t in c.tcb && t != c.main && c.tcb[t].periodicity != PERSISTENT
            && Moves(c, PickDead(c), SansDead(c), AtDead, AtDead, t)
    ensures Inv(PickDead(c)) && RoomAt(PickDead(c), w)
  {
    var t, s := c.dead[0].thread, SansDead(c);
    RemoveHeadKeeps(w, c.dead);
    LiftedTags(c, s, AtDead, t, w);
    MoveKeeps(c, PickDead(c), s, AtDead, AtDead, t, w);
  }

  /** The head of a level is live and was lifted out of that level. */
  lemma LevelHead(c: Cpu, p: Priority, w: nat)
    requires Inv(c) && RoomAt(c, w) && Level(c, p) != []
    ensures var t := Level(c, p)[0];
            && t in c.tcb && t != c.main && Lifted(c, SansLevel(c, p), AtLevel(p), t)
            && TagFits(c.tcb[t], AtLevel(p)) && TimesFit(c.tcb[t], c.ticks, w, AtLevel(p))
  {
    PopFront(Level(c, p));
    LiftedTags(c, SansLevel(c, p), AtLevel(p), Level(c, p)[0], w);
  }

  lemma RetiredSpread(c: Cpu, p: Priority)
    requires Level(c, p) != []
    ensures Lifted(RetireFromLevel(c, p), SansLevel(c, p), AtOutgoing, Level(c, p)[0])
  {
    PushBack(c.outgoing, Level(c, p)[0]);
  }

  lemma RetireFromLevelKeeps(c: Cpu, p: Priority, w: nat)
    requires Inv(c) && RoomAt(c, w) && Level(c, p) != [] && Level(c, p)[0] in c.tcb
    requires c.tcb[Level(c, p)[0]].status == FINISHED
    ensures Moves(c, RetireFromLevel(c, p), SansLevel(c, p), AtLevel(p), AtOutgoing, Level(c, p)[0])
    ensures Inv(RetireFromLevel(c, p)) && RoomAt(RetireFromLevel(c, p), w)
  {
    var t := Level(c, p)[0];
    LevelHead(c, p, w);
    PushBack(c.outgoing, t);
    assert c.tcb == c.tcb[t := c.tcb[t]];
    RetiredSpread(c, p);
    MoveKeeps(c, RetireFromLevel(c, p), SansLevel(c, p), AtLevel(p), AtOutgoing, t, w);
  }

  lemma VisitedFits(x: Tcb, ticks: nat, w: nat, p: Priority)
    requires Plain(w) && In(w, ticks) && TagFits(x, AtLevel(p)) && TimesFit(x, ticks, w, AtLevel(p)) && x.status != FINISHED
    ensures var y := Visited(x, ticks);
            TagFits(y, AtLevel(p)) && TimesFit(y, ticks, w, AtLevel(p)) && y.status == x.status
            && (GeqWrapped(ticks, x.deadline) ==> y.deadline == ticks + x.period && !GeqWrapped(ticks, y.deadline))
  {
    if GeqWrapped(ticks, x.deadline) {
      PlainWindow(w, ticks);
      PlainWindow(w, ticks + x.period);
      PlainOrder(w, ticks, ticks + x.period);
    }
  }

  lemma RotateLevelKeeps(c: Cpu, p: Priority, w: nat)
    requires Inv(c) && RoomAt(c, w) && Level(c, p) != [] && Level(c, p)[0] in c.tcb
    requires c.tcb[Level(c, p)[0]].status != FINISHED
    ensures Moves(c, RotateLevel(c, p), SansLevel(c, p), AtLevel(p), AtLevel(p), Level(c, p)[0])
    ensures Inv(RotateLevel(c, p)) && RoomAt(RotateLevel(c, p), w)
  {
    var t := Level(c, p)[0];
    LevelHead(c, p, w);
    PushBack(Level(c, p)[1..], t);
    VisitedFits(c.tcb[t], c.ticks, w, p);
    MoveKeeps(c, RotateLevel(c, p), SansLevel(c, p), AtLevel(p), AtLevel(p), t, w);
  }

  lemma PickLevelKeeps(c: Cpu, p: Priority, w: nat)
    requires Inv(c) && RoomAt(c, w) && Level(c, p) != [] && Level(c, p)[0] in c.tcb
    requires c.tcb[Level(c, p)[0]].status != FINISHED
    ensures Moves(c, PickLevel(c, p), SansLevel(c, p), AtLevel(p), AtLevel(p), Level(c, p)[0])
    ensures Inv(PickLevel(c, p)) && RoomAt(PickLevel(c, p), w)
  {
    var t := Level(c, p)[0];
    LevelHead(c, p, w);
    VisitedFits(c.tcb[t], c.ticks, w, p);
    MoveKeeps(c, PickLevel(c, p), SansLevel(c, p), AtLevel(p), AtLevel(p), t, w);
  }

  /** Reaping removes a finished thread from its container and from the live threads. */
  lemma ReapOneKeeps(c: Cpu, w: nat)
    requires Inv(c) && RoomAt(c, w) && c.outgoing != []
    ensures var t := c.outgoing[0];
            && t in c.tcb && t != c.main && c.tcb[t].status == FINISHED
            && t !in Total(SpreadOf(ReapOne(c))) && ReapOne(c).tcb.Keys == c.tcb.Keys - {t}
    ensures Inv(ReapOne(c)) && RoomAt(ReapOne(c), w)
  {
    var t, s := c.outgoing[0], SansOutgoing(c);
    PopFront(c.outgoing);
    LiftedFacts(c, s, AtOutgoing, t);
    LiftedTags(c, s, AtOutgoing, t, w);
    var c' := ReapOne(c);
    assert SpreadOf(c') == s;
    ReapPartition(c, t, c');
    forall u | u in c'.tcb && u != c'.main ensures TagOk(c', u) && RoomFor(c', w, u) {
      PutElsewhere(s, AtOutgoing, t, u);
      assert TagOk(c, u) && RoomFor(c, w, u);
    }
  }

  lemma CancelOne(m: multiset<nat>, n: multiset<nat>, t: nat)
    requires m + multiset{t} == n + multiset{t}
    ensures m == n
  {
    forall u ensures m[u] == n[u] {
      assert (m + multiset{t})[u] == (n + multiset{t})[u];
    }
  }

  lemma ReapPartition(c: Cpu, t: nat, c': Cpu)
    requires Partitioned(c) && t in c.tcb && t != c.main && c'.tcb == c.tcb - {t} && c'.main == c.main
    requires Total(SpreadOf(c')) + multiset{t} == multiset(c.tcb.Keys - {c.main})
    ensures Partitioned(c') && c'.tcb.Keys == c.tcb.Keys - {t}
  {
    assert c'.tcb.Keys == c.tcb.Keys - {t};
    var rest := c'.tcb.Keys - {c.main};
    assert c.tcb.Keys - {c.main} == rest + {t};
    assert multiset(rest + {t}) == multiset(rest) + multiset{t};
    CancelOne(Total(SpreadOf(c')), multiset(rest), t);
    assert |c'.tcb| == |c'.tcb.Keys| && |c.tcb| == |c.tcb.Keys|;
  }
}
