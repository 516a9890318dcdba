/** One core's scheduler as kernel/sched.c has it: heaps, rings and thread structures changed in place by loops. */
module SchedCore {
  import opened Words
  import opened Wrapped
  import opened ThreadTypes
  import opened SchedState
  import opened Rearm
  import opened Sched
  import opened SchedLaws
  import opened SchedChoice
  import opened SchedSteps
  import opened SchedSuspend
  import opened SchedRuns
  import Ops = HeapOps
  import opened ThreadFifo
  import opened MinHeap

  /** No thread is in both heaps. */
  ghost predicate HeapsApart(d: seq<Ops.Node>, r: seq<Ops.Node>) {
    forall u :: u in Ops.Threads(d) ==> u !in Ops.Threads(r)
  }

  lemma ApartWith(r: seq<Ops.Node>, d: seq<Ops.Node>, node: Ops.Node)
    requires HeapsApart(d, r) && node.thread !in Ops.Threads(r)
    ensures HeapsApart(r, d + [node])
  {
    Ops.ThreadsAppend(d, node);
  }

  lemma InsertApart(d: seq<Ops.Node>, node: Ops.Node, r: seq<Ops.Node>)
    requires HeapsApart(d, r) && node.thread !in Ops.Threads(r)
    ensures HeapsApart(Ops.Insert(d, node), r) && HeapsApart(r, Ops.Insert(d, node))
  {
    Ops.InsertPerm(d, node);
    var e := Ops.Insert(d, node);
    forall u | u in Ops.Threads(e) ensures u in Ops.Threads(d) || u == node.thread {
      assert u in multiset(Ops.Threads(e));
    }
  }

  /** Dropping or reordering threads of a heap keeps it apart from the other. */
  lemma FewerApart(d: seq<Ops.Node>, e: seq<Ops.Node>, r: seq<Ops.Node>)
    requires HeapsApart(d, r) && multiset(Ops.Threads(e)) <= multiset(Ops.Threads(d))
    ensures HeapsApart(e, r) && HeapsApart(r, e)
  {
    forall u | u in Ops.Threads(e) ensures u in Ops.Threads(d) {
      assert u in multiset(Ops.Threads(e)) && u in multiset(Ops.Threads(d));
    }
  }

  lemma ApartBack(d: seq<Ops.Node>, r: seq<Ops.Node>)
    requires HeapsApart(d, r)
    ensures HeapsApart(r, d)
  {
  }

  lemma HeadGoneApart(d: seq<Ops.Node>, r: seq<Ops.Node>)
    requires HeapsApart(d, r) && d != []
    ensures HeapsApart(Ops.RemoveHead(d), r) && HeapsApart(r, Ops.RemoveHead(d)) && HeapsApart(r, d)
  {
    Ops.RemoveHeadPerm(d);
    FewerApart(d, Ops.RemoveHead(d), r);
  }

  lemma NodeGoneApart(d: seq<Ops.Node>, i: nat, r: seq<Ops.Node>)
    requires HeapsApart(d, r) && i < |d| && Ops.HeapOrder(d)
    ensures HeapsApart(Ops.RemoveNode(d, i), r) && HeapsApart(r, Ops.RemoveNode(d, i)) && HeapsApart(r, d)
  {
    Ops.OrderedStays(d, i);
    Ops.RemoveNodePerm(d, i);
    FewerApart(d, Ops.RemoveNode(d, i), r);
  }

  /** All threads of a core fit in one container, so each container always has a place left for a thread taken from
      another one. */
  lemma ContainersFit(c: Cpu)
    requires Inv(c)
    ensures |c.incoming| + |c.outgoing| + |c.dead| + |c.rel| + |c.low| + |c.med| + |c.high| <= MAX_THREADS
  {
    var s := SpreadOf(c);
    assert |Total(s)| == |c.incoming| + |c.outgoing| + |Ops.Threads(c.dead)| + |Ops.Threads(c.rel)| + |c.low| + |c.med| + |c.high|;
    assert c.main in c.tcb.Keys && |c.tcb.Keys - {c.main}| == |c.tcb| - 1;
  }

  /** A thread is once in a heap: not any more after its removal. */
  lemma GoneFromHeap(c: Cpu, s: seq<Ops.Node>, e: seq<Ops.Node>, p: Place, t: nat)
    requires Partitioned(c) && (p == AtDead || p == AtRel) && s == (if p == AtDead then c.dead else c.rel)
    requires multiset(Ops.Threads(s)) == multiset(Ops.Threads(e)) + multiset{t}
    ensures t !in Ops.Threads(e) && t in c.tcb && t != c.main
    ensures p == AtDead ==> t !in Ops.Threads(c.rel)
    ensures p == AtRel ==> t !in Ops.Threads(c.dead)
  {
    LiveOnce(c, t);
    assert Holds(c, p, t);
    HeldInTotal(SpreadOf(c), p, t);
    NotInHeap(c, p, t);
    assert Total(SpreadOf(c))[t] >= multiset(Ops.Threads(s))[t];
    assert t in Ops.Threads(e) ==> multiset(Ops.Threads(e))[t] >= 1;
  }

  /** The re-arm loops of a finished head do not wrap around. */
  lemma RearmSafe(c: Cpu)
    requires Inv(c) && Room(c) && HeadFinished(c, PERIODIC)
    ensures var x := c.tcb[c.dead[0].thread];
            && 0 < x.period && NoWrap(x.deadline, x.period, c.ticks) && x.release + x.period < WORD
            && NextDeadline(x.deadline, x.period, c.ticks) < WORD
  {
    var w :| RoomAt(c, w);
    var t := c.dead[0].thread;
    Ops.RemoveHeadPerm(c.dead);
    GoneFromHeap(c, c.dead, Ops.RemoveHead(c.dead), AtDead, t);
    assert Holds(c, AtDead, t);
    PlaceFound(c, AtDead, t);
    assert TagOk(c, t) && RoomFor(c, w, t);
    NextDeadlineBound(c.tcb[t].deadline, c.tcb[t].period, c.ticks);
  }

  /** The rings are different objects on different arrays. */
  predicate Distinct5(a: ThreadFifo, b: ThreadFifo, c: ThreadFifo, d: ThreadFifo, e: ThreadFifo) {
    && a != b && a != c && a != d && a != e && b != c && b != d && b != e && c != d && c != e && d != e
    && a.fifo != b.fifo && a.fifo != c.fifo && a.fifo != d.fifo && a.fifo != e.fifo && b.fifo != c.fifo
    && b.fifo != d.fifo && b.fifo != e.fifo && c.fifo != d.fifo && c.fifo != e.fifo && d.fifo != e.fifo
  }

  /** Every node's thread has the node's position as its index. */
  ghost predicate Indexed(s: seq<Ops.Node>, index: map<nat, nat>) {
    forall k {:trigger s[k]} :: 0 <= k < |s| ==> s[k].thread in index && index[s[k].thread] == k
  }

  /** Heap operations on other threads keep the indices of s. */
  lemma IndexedKept(s: seq<Ops.Node>, index: map<nat, nat>, index': map<nat, nat>, others: seq<Ops.Node>)
    requires Indexed(s, index) && SameOutside(index, index', others) && HeapsApart(s, others)
    ensures Indexed(s, index')
  {
    forall k | 0 <= k < |s| ensures s[k].thread in index' && index'[s[k].thread] == k {
      assert s[k].thread == Ops.Threads(s)[k];
    }
  }

  lemma ValidIndexed(h: MinHeap, table: ThreadTable)
    requires h.Valid(table)
    ensures Indexed(h.Nodes(), table.heapIndex)
  {
    forall k | 0 <= k < h.currIndex ensures h.Nodes()[k].thread in table.heapIndex && table.heapIndex[h.Nodes()[k].thread] == k {
      assert h.PointsBack(table, k);
    }
  }

  lemma IndexedValid(h: MinHeap, table: ThreadTable)
    requires h.heap.Length == MAX_THREADS && h.currIndex <= MAX_THREADS && Indexed(h.Nodes(), table.heapIndex)
    ensures h.Valid(table)
  {
    forall k | 0 <= k < h.currIndex ensures h.PointsBack(table, k) {
      assert h.Nodes()[k] == h.heap[k];
    }
  }

  class Core {
    const table: ThreadTable
    const incoming: ThreadFifo
    const outgoing: ThreadFifo
    const low: ThreadFifo
    const med: ThreadFifo
    const high: ThreadFifo
    const dead: MinHeap
    const rel: MinHeap
    const main: nat
    var ticks: nat
    var curr: nat
    var missed: nat
    var utilization: nat

    /** psched_core_init over the core's own storage, in whatever state it was left: the containers are emptied and the
        core runs its main thread. */
    constructor (main: nat, memory: Tcb, table: ThreadTable, dead: MinHeap, rel: MinHeap,
                 incoming: ThreadFifo, outgoing: ThreadFifo, low: ThreadFifo, med: ThreadFifo, high: ThreadFifo)
      requires incoming.fifo.Length == outgoing.fifo.Length == low.fifo.Length == med.fifo.Length == high.fifo.Length == MAX_THREADS
      requires dead.heap.Length == rel.heap.Length == MAX_THREADS
      requires Distinct5(incoming, outgoing, low, med, high) && dead != rel && dead.heap != rel.heap
      modifies table`tcb, dead`currIndex, rel`currIndex, incoming, outgoing, low, med, high
      ensures this.incoming == incoming && this.outgoing == outgoing && this.low == low && this.med == med && this.high == high
      ensures this.dead == dead && this.rel == rel && this.table == table
      ensures Shape() && Abs() == InitCpu(main, memory)
    {
      this.table, this.dead, this.rel := table, dead, rel;
      this.incoming, this.outgoing, this.low, this.med, this.high := incoming, outgoing, low, med, high;
      this.main, curr := main, main;
      ticks, missed, utilization := 0, 0, 0;
      new;
      EmptyContainers();
      table.tcb := map[main := memory.(status := RUNNING, periodicity := APERIODIC, prevU := 0)];
    }

    method EmptyContainers()
      requires incoming.fifo.Length == outgoing.fifo.Length == low.fifo.Length == med.fifo.Length == high.fifo.Length == MAX_THREADS
      requires Separate()
      modifies dead`currIndex, rel`currIndex, incoming, outgoing, low, med, high
      ensures RingsValid() && dead.currIndex == rel.currIndex == 0
      ensures incoming.size == outgoing.size == low.size == med.size == high.size == 0
    {
      dead.currIndex := 0;
      rel.currIndex := 0;
      incoming.Initialize();
      outgoing.Initialize();
      low.Initialize();
      med.Initialize();
      high.Initialize();
    }

    ghost predicate Separate() {
      Distinct5(incoming, outgoing, low, med, high)
      && dead != rel && dead.heap != rel.heap
    }

    ghost function Rings(): set<object> {
      {incoming, outgoing, low, med, high, incoming.fifo, outgoing.fifo, low.fifo, med.fifo, high.fifo}
    }

    ghost function Heaps(): set<object> {
      {dead, rel, dead.heap, rel.heap, table}
    }

    ghost predicate RingsValid()
      reads Rings()
    {
      incoming.Valid() && outgoing.Valid() && low.Valid() && med.Valid() && high.Valid()
    }

    ghost predicate HeapsValid()
      reads Heaps()
    {
      dead.Valid(table) && rel.Valid(table) && HeapsApart(dead.Nodes(), rel.Nodes())
    }

    /** The containers are distinct objects in good order, and every heap thread's index points back at it. */
    ghost predicate Shape()
      reads Rings(), Heaps()
    {
      Separate() && RingsValid() && HeapsValid()
    }

    /** The core's state as a value. */
    ghost function Abs(): Cpu
      requires Shape()
      reads this, Rings(), Heaps()
    {
      Cpu(ticks, table.tcb, incoming.Contents(), outgoing.Contents(), low.Contents(), med.Contents(), high.Contents(),
          dead.Nodes(), rel.Nodes(), curr, main, missed, utilization)
    }

    function Ring(p: Priority): ThreadFifo {
      match p
      case LOW_PRIORITY => low
      case MED_PRIORITY => med
      case HIGH_PRIORITY => high
    }

    // -------------------------------------------------------------- one container changed, the others left alone

    method PopIncoming() returns (t: nat)
      requires Shape() && Abs().incoming != []
      modifies incoming, incoming.fifo
      ensures Shape() && t == old(Abs()).incoming[0] && Abs() == old(Abs()).(incoming := old(Abs()).incoming[1..])
    {
      t := incoming.Pop();
    }

    method PushOutgoing(t: nat)
      requires Shape() && |Abs().outgoing| < MAX_THREADS
      modifies outgoing, outgoing.fifo
      ensures Shape() && Abs() == old(Abs()).(outgoing := old(Abs()).outgoing + [t])
    {
      var ok := outgoing.Push(t);
    }

    method PopOutgoing() returns (t: nat)
      requires Shape() && Abs().outgoing != []
      modifies outgoing, outgoing.fifo
      ensures Shape() && t == old(Abs()).outgoing[0] && Abs() == old(Abs()).(outgoing := old(Abs()).outgoing[1..])
    {
      t := outgoing.Pop();
    }

    method PopLevel(p: Priority) returns (t: nat)
      requires Shape() && Level(Abs(), p) != []
      modifies Ring(p), Ring(p).fifo
      ensures Shape() && t == Level(old(Abs()), p)[0] && Abs() == WithLevel(old(Abs()), p, Level(old(Abs()), p)[1..])
    {
      var ring := Ring(p);
      t := ring.Pop();
    }

    method PushLevel(p: Priority, t: nat)
      requires Shape() && |Level(Abs(), p)| < MAX_THREADS
      modifies Ring(p), Ring(p).fifo
      ensures Shape() && Abs() == WithLevel(old(Abs()), p, Level(old(Abs()), p) + [t])
    {
      var ring := Ring(p);
      var ok := ring.Push(t);
    }

    method SetThread(t: nat, x: Tcb)
      requires Shape()
      modifies table`tcb
      ensures Shape() && Abs() == SetTcb(old(Abs()), t, x)
    {
      ValidIndexed(dead, table);
      ValidIndexed(rel, table);
      table.tcb := table.tcb[t := x];
      IndexedValid(dead, table);
      IndexedValid(rel, table);
    }

    method InsertDead(t: nat, order: nat)
      requires Shape() && |Abs().dead| < MAX_THREADS && t !in Ops.Threads(Abs().dead) && t !in Ops.Threads(Abs().rel)
      modifies dead`currIndex, dead.heap, table`heapIndex
      ensures Shape() && Abs() == old(Abs()).(dead := Ops.Insert(old(Abs()).dead, Ops.Node(order, t)))
    {
      ghost var s, node, index := dead.Nodes(), Ops.Node(order, t), table.heapIndex;
      ValidIndexed(rel, table);
      ApartWith(rel.Nodes(), s, node);
      InsertApart(s, node, rel.Nodes());
      var ok := dead.InsertNode(table, t, order);
      IndexedKept(rel.Nodes(), index, table.heapIndex, s + [node]);
      IndexedValid(rel, table);
    }

    method InsertRel(t: nat, order: nat)
      requires Shape() && |Abs().rel| < MAX_THREADS && t !in Ops.Threads(Abs().dead) && t !in Ops.Threads(Abs().rel)
      modifies rel`currIndex, rel.heap, table`heapIndex
      ensures Shape() && Abs() == old(Abs()).(rel := Ops.Insert(old(Abs()).rel, Ops.Node(order, t)))
    {
      ghost var s, node, index := rel.Nodes(), Ops.Node(order, t), table.heapIndex;
      ValidIndexed(dead, table);
      ApartWith(dead.Nodes(), s, node);
      InsertApart(s, node, dead.Nodes());
      var ok := rel.InsertNode(table, t, order);
      IndexedKept(dead.Nodes(), index, table.heapIndex, s + [node]);
      IndexedValid(dead, table);
    }

    method RemoveDeadHead()
      requires Shape() && Abs().dead != []
      modifies dead`currIndex, dead.heap, table`heapIndex
      ensures Shape() && Abs() == old(Abs()).(dead := Ops.RemoveHead(old(Abs()).dead))
    {
      hide HeapsApart, Indexed, SameOutside;
      ghost var s, index := dead.Nodes(), table.heapIndex;
      ValidIndexed(rel, table);
      HeadGoneApart(s, rel.Nodes());
      var ok := dead.RemoveHead(table);
      IndexedKept(rel.Nodes(), index, table.heapIndex, s);
      IndexedValid(rel, table);
    }

    method PopRel() returns (t: nat)
      requires Shape() && Abs().rel != []
      modifies rel`currIndex, rel.heap, table`heapIndex
      ensures Shape() && t == old(Abs()).rel[0].thread && Abs() == old(Abs()).(rel := Ops.RemoveHead(old(Abs()).rel))
    {
      hide HeapsApart, Indexed, SameOutside;
      ghost var s, index := rel.Nodes(), table.heapIndex;
      ValidIndexed(dead, table);
      ApartBack(dead.Nodes(), s);
      HeadGoneApart(s, dead.Nodes());
      var ok, u := rel.PopHeap(table);
      t := u;
      IndexedKept(dead.Nodes(), index, table.heapIndex, s);
      IndexedValid(dead, table);
    }

    method RemoveDead(i: nat)
      requires Shape() && i < |Abs().dead| && Ops.HeapOrder(Abs().dead)
      modifies dead`currIndex, dead.heap, table`heapIndex
      ensures Shape() && Abs() == old(Abs()).(dead := Ops.RemoveNode(old(Abs()).dead, i))
    {
      hide HeapsApart, Indexed, SameOutside;
      ghost var s, index := dead.Nodes(), table.heapIndex;
      ValidIndexed(rel, table);
      NodeGoneApart(s, i, rel.Nodes());
      var ok := dead.RemoveNode(table, i);
      IndexedKept(rel.Nodes(), index, table.heapIndex, s);
      IndexedValid(rel, table);
    }

    method BalanceDead(i: nat, order: nat)
      requires Shape() && i < |Abs().dead|
      modifies dead.heap, table`heapIndex
      ensures Shape() && Abs() == old(Abs()).(dead := Ops.Balance(old(Abs()).dead, i, order))
    {
      ghost var s, index := dead.Nodes(), table.heapIndex;
      ValidIndexed(rel, table);
      Ops.BalancePerm(s, i, order);
      FewerApart(s, Ops.Balance(s, i, order), rel.Nodes());
      var ok := dead.BalanceNode(table, i, order);
      IndexedKept(rel.Nodes(), index, table.heapIndex, s);
      IndexedValid(rel, table);
    }

    method BalanceRel(i: nat, order: nat)
      requires Shape() && i < |Abs().rel|
      modifies rel.heap, table`heapIndex
      ensures Shape() && Abs() == old(Abs()).(rel := Ops.Balance(old(Abs()).rel, i, order))
    {
      ghost var s, index := rel.Nodes(), table.heapIndex;
      ValidIndexed(dead, table);
      Ops.BalancePerm(s, i, order);
      FewerApart(s, Ops.Balance(s, i, order), dead.Nodes());
      var ok := rel.BalanceNode(table, i, order);
      IndexedKept(dead.Nodes(), index, table.heapIndex, s);
      IndexedValid(dead, table);
    }
  
    method SetCurr(t: nat)
      requires Shape()
      modifies this`curr
      ensures Shape() && Abs() == old(Abs()).(curr := t)
    {
      curr := t;
    }

    method CountMissed()
      requires Shape()
      modifies this`missed
      ensures Shape() && Abs() == old(Abs()).(missed := Add32(old(Abs()).missed, 1))
    {
      missed := Add32(missed, 1);
    }

    /** The fields a step reads are those of the state. */
    lemma Fields()
      requires Shape()
      ensures Abs().tcb == table.tcb && Abs().ticks == ticks && Abs().curr == curr && Abs().main == main
      ensures Abs().utilization == utilization && Abs().missed == missed
      ensures |Abs().incoming| == incoming.size && |Abs().outgoing| == outgoing.size
      ensures forall p :: |Level(Abs(), p)| == Ring(p).size
      ensures |Abs().dead| == dead.currIndex && |Abs().rel| == rel.currIndex
      ensures Abs().dead != [] ==> dead.heap.Length > 0 && Abs().dead[0] == dead.heap[0]
      ensures Abs().rel != [] ==> rel.heap.Length > 0 && Abs().rel[0] == rel.heap[0]
    {
    }

    // -------------------------------------------------------------- next_up, move by move

    /** The body of the admission loop. */
    method AdmitHead()
      requires Shape() && Inv(Abs()) && Abs().incoming != [] && Abs().incoming[0] in Abs().tcb
      modifies Rings(), Heaps()
      ensures Shape() && Abs() == AdmitOne(old(Abs()))
    {
      hide Shape, Abs;
      ghost var c := Abs();
      ContainersFit(c);
      assert Holds(c, AtIncoming, c.incoming[0]);
      NotInHeap(c, AtIncoming, c.incoming[0]);
      Fields();
      var t := PopIncoming();
      Fields();
      var x := table.tcb[t].(deadline := Add32(ticks, table.tcb[t].period), release := ticks, dirty := false, status := PENDING);
      if x.periodicity == PERSISTENT {
        SetThread(t, x.(owner := LevelOwner(x.priority)));
        PushLevel(x.priority, t);
      } else {
        SetThread(t, x.(owner := DEAD_HEAP));
        InsertDead(t, x.deadline);
      }
    }

    /** The body of the release loop. */
    method ReleaseHead()
      requires Shape() && Inv(Abs()) && HeadDue(Abs())
      modifies Heaps()
      ensures Shape() && Abs() == ReleaseOne(old(Abs()))
    {
      hide Shape, Abs;
      ghost var c := Abs();
      ContainersFit(c);
      Ops.RemoveHeadPerm(c.rel);
      GoneFromHeap(c, c.rel, Ops.RemoveHead(c.rel), AtRel, c.rel[0].thread);
      var t := PopRel();
      Fields();
      SetThread(t, table.tcb[t].(owner := DEAD_HEAP));
      Fields();
      InsertDead(t, table.tcb[t].deadline);
    }
  
    /** The two re-arm loops. */
    method RearmTimes(x: Tcb) returns (deadline: nat, release: nat)
      requires Shape() && 0 < x.period && NoWrap(x.deadline, x.period, ticks) && x.release + x.period < WORD
      requires NextDeadline(x.deadline, x.period, ticks) < WORD
      ensures Shape() && Abs() == old(Abs())
      ensures deadline == Rearmed(x, ticks).deadline && release == Rearmed(x, ticks).release
    {
      NoWrapExits(x.release, x.deadline, x.period, ticks, NextDeadline(x.deadline, x.period, ticks));
      deadline := RearmDeadline(x.deadline, x.period, ticks);
      release := RearmRelease(x.release, x.period, deadline);
    }

    /** A finished periodic head of the deadline heap: the two re-arm loops, then the heap it belongs in. */
    method RearmHead()
      requires Shape() && Inv(Abs()) && Room(Abs()) && HeadFinished(Abs(), PERIODIC) && Abs().tcb[Abs().dead[0].thread].period > 0
      modifies Heaps()
      ensures Shape() && Abs() == RearmOne(old(Abs()))
    {
      hide Shape, Abs, Inv, Room;
      ghost var c := Abs();
      RearmSafe(c);
      HeadIndex();
      Fields();
      var t := dead.heap[0].thread;
      var deadline, release := RearmTimes(table.tcb[t]);
      var x := table.tcb[t].(deadline := deadline, release := release, dirty := false, status := PENDING);
      if LtWrapped(ticks, x.release) {
        RoomForHead(c);
        RemoveDeadHead();
        SetThread(t, x.(owner := REL_HEAP));
        InsertRel(t, x.release);
      } else {
        SetThread(t, x);
        BalanceDead(table.heapIndex[t], x.deadline);
      }
    }

    /** heap_index of the head of the deadline heap is 0. */
    lemma HeadIndex()
      requires Shape() && Abs().dead != []
      ensures Abs().dead[0].thread in table.heapIndex && table.heapIndex[Abs().dead[0].thread] == 0
    {
      assert dead.PointsBack(table, 0);
    }

    /** The head of the deadline heap can go to any other container. */
    lemma RoomForHead(c: Cpu)
      requires Inv(c) && c.dead != []
      ensures var t := c.dead[0].thread;
              && t in c.tcb && |c.rel| < MAX_THREADS && |c.outgoing| < MAX_THREADS
              && t !in Ops.Threads(Ops.RemoveHead(c.dead)) && t !in Ops.Threads(c.rel)
    {
      ContainersFit(c);
      Ops.RemoveHeadPerm(c.dead);
      GoneFromHeap(c, c.dead, Ops.RemoveHead(c.dead), AtDead, c.dead[0].thread);
    }

    /** A finished aperiodic head of the deadline heap. */
    method RetireHead()
      requires Shape() && Inv(Abs()) && HeadFinished(Abs(), APERIODIC)
      modifies Rings(), Heaps()
      ensures Shape() && Abs() == RetireOne(old(Abs()))
    {
      hide Shape, Abs, Inv;
      ghost var c := Abs();
      RoomForHead(c);
      Fields();
      var t := dead.heap[0].thread;
      RemoveDeadHead();
      Fields();
      SetThread(t, table.tcb[t].(owner := OUTGOING_THREADS));
      PushOutgoing(t);
    }

    /** An unfinished head of the deadline heap is the one to run. */
    method PickHead()
      requires Shape() && Inv(Abs()) && Abs().dead != [] && Abs().dead[0].thread in Abs().tcb
      modifies this, Heaps()
      ensures Shape() && Abs() == PickDead(old(Abs()))
    {
      hide Shape, Abs, Inv;
      Fields();
      var t := dead.heap[0].thread;
      var x := table.tcb[t];
      if GeqWrapped(ticks, x.deadline) && !x.dirty {
        SetThread(t, x.(dirty := true));
        CountMissed();
      } else {
        SetThread(t, x);
      }
      SetCurr(t);
    }

    /** A finished head of level p. */
    method RetireLevelHead(p: Priority)
      requires Shape() && Inv(Abs()) && Level(Abs(), p) != []
      modifies Rings()
      ensures Shape() && Abs() == RetireFromLevel(old(Abs()), p)
    {
      hide Shape, Abs, Inv;
      ContainersFit(Abs());
      var t := PopLevel(p);
      PushOutgoing(t);
    }

    /** A visit to the unfinished head of level p: charged a tick, given a new window when its own is over, and either
        rotated to the tail or picked. */
    method VisitLevelHead(p: Priority) returns (picked: bool)
      requires Shape() && Inv(Abs()) && Level(Abs(), p) != [] && Level(Abs(), p)[0] in Abs().tcb
      modifies this, Rings(), Heaps()
      ensures Shape() && picked == !SliceOver(old(Abs()), p)
      ensures Abs() == if picked then PickLevel(old(Abs()), p) else RotateLevel(old(Abs()), p)
    {
      hide Shape, Abs, Inv;
      ghost var c := Abs();
      ContainersFit(c);
      Fields();
      var t := HeadOf(p);
      var x := table.tcb[t].(landed := Add32(table.tcb[t].landed, 1));
      if GeqWrapped(ticks, x.deadline) {
        x := x.(release := ticks, deadline := Add32(ticks, x.period));
        if Ring(p).size > 1 && x.landed >= x.period {
          SetThread(t, x.(landed := 0));
          var u := PopLevel(p);
          PushLevel(p, u);
          return false;
        }
      }
      SetThread(t, x);
      SetCurr(t);
      picked := true;
    }

    method HeadOf(p: Priority) returns (t: nat)
      requires Shape() && Level(Abs(), p) != []
      ensures Shape() && Abs() == old(Abs()) && t == Level(Abs(), p)[0]
    {
      var ring := Ring(p);
      t := ring.fifo[ring.start];
    }

    /** The body of the reaping loop; kFree ends the thread's life. */
    method ReapHead()
      requires Shape() && Abs().outgoing != [] && Abs().outgoing[0] in Abs().tcb
      modifies this, Rings(), Heaps()
      ensures Shape() && Abs() == ReapOne(old(Abs()))
    {
      hide Shape, Abs;
      Fields();
      var t := PopOutgoing();
      Fields();
      SetUtilization(Sub32(utilization, table.tcb[t].prevU));
      FreeThread(t);
    }

    method SetUtilization(u: nat)
      requires Shape()
      modifies this`utilization
      ensures Shape() && Abs() == old(Abs()).(utilization := u)
    {
      utilization := u;
    }

    method FreeThread(t: nat)
      requires Shape()
      modifies table`tcb
      ensures Shape() && Abs() == old(Abs()).(tcb := old(Abs()).tcb - {t})
    {
      ValidIndexed(dead, table);
      ValidIndexed(rel, table);
      table.tcb := table.tcb - {t};
      IndexedValid(dead, table);
      IndexedValid(rel, table);
    }
  
    // -------------------------------------------------------------- next_up, loop by loop

    /** The state is sound, and there is room before the counters wrap. */
    ghost predicate Sound()
      reads this, Rings(), Heaps()
    {
      Shape() && Inv(Abs()) && Room(Abs())
    }

    method AdmitAll()
      requires Sound()
      modifies Rings(), Heaps()
      ensures Sound() && Abs() == Admit(old(Abs()))
    {
      hide Shape, Abs, Inv, Room, AdmitOne;
      Fields();
      while incoming.size > 0
        invariant Sound() && Admit(Abs()) == Admit(old(Abs()))
        invariant incoming.size == |Abs().incoming|
        decreases incoming.size
      {
        AdmitOneOk(Abs());
        AdmittedOne(Abs());
        AdmitHead();
        Fields();
      }
    }

    lemma AdmittedOne(c: Cpu)
      requires c.incoming != [] && c.incoming[0] in c.tcb
      ensures |AdmitOne(c).incoming| == |c.incoming| - 1
    {
    }

    method ReleaseAll()
      requires Sound()
      modifies Rings(), Heaps()
      ensures Sound() && Abs() == ReleaseDue(old(Abs()))
    {
      hide Shape, Abs, Inv, Room, ReleaseOne, ReleaseDue, HeadDue;
      Fields();
      var due := RelHeadDue();
      while due
        invariant Sound() && ReleaseDue(Abs()) == ReleaseDue(old(Abs())) && due == HeadDue(Abs())
        decreases |Abs().rel|, due
      {
        ReleasedOne(Abs());
        ReleaseHead();
        due := RelHeadDue();
      }
      ReleasedAll(Abs());
    }

    lemma ReleasedOne(c: Cpu)
      requires Inv(c) && Room(c) && HeadDue(c)
      ensures |ReleaseOne(c).rel| == |c.rel| - 1 && Inv(ReleaseOne(c)) && Room(ReleaseOne(c))
      ensures ReleaseDue(c) == ReleaseDue(ReleaseOne(c))
    {
      ReleaseOneOk(c);
    }

    lemma ReleasedAll(c: Cpu)
      requires Inv(c) && Room(c) && !HeadDue(c)
      ensures ReleaseDue(c) == c
    {
    }

    /** The guard of the release loop. */
    method RelHeadDue() returns (due: bool)
      requires Sound()
      ensures Sound() && Abs() == old(Abs()) && due == HeadDue(Abs())
    {
      hide Shape, Abs, Room;
      Fields();
      due := false;
      if rel.currIndex > 0 {
        LiveHead(Abs(), AtRel);
        due := GeqWrapped(ticks, table.tcb[rel.heap[0].thread].release);
      }
    }

    lemma LiveHead(c: Cpu, p: Place)
      requires Inv(c)
      ensures p == AtRel && c.rel != [] ==> c.rel[0].thread in c.tcb
      ensures p == AtDead && c.dead != [] ==> c.dead[0].thread in c.tcb
    {
      if p == AtRel && c.rel != [] {
        Ops.RemoveHeadPerm(c.rel);
        GoneFromHeap(c, c.rel, Ops.RemoveHead(c.rel), AtRel, c.rel[0].thread);
      } else if p == AtDead && c.dead != [] {
        Ops.RemoveHeadPerm(c.dead);
        GoneFromHeap(c, c.dead, Ops.RemoveHead(c.dead), AtDead, c.dead[0].thread);
      }
    }

    /** The deadline-heap loop. */
    method SelectFromDead() returns (found: bool)
      requires Sound()
      modifies this, Rings(), Heaps()
      ensures Sound() && (Abs(), found) == SelectDead(old(Abs()))
    {
      hide Shape, Abs, Inv, Room, RearmOne, RetireOne, PickDead;
      Fields();
      while dead.currIndex > 0
        invariant Sound() && SelectDead(Abs()) == SelectDead(old(Abs()))
        invariant dead.currIndex == |Abs().dead|
        decreases FinishedDead(Abs())
      {
        Fields();
        PickDeadOk(Abs());
        var x := table.tcb[dead.heap[0].thread];
        if x.status != FINISHED {
          PickHead();
          return true;
        } else if x.periodicity == PERIODIC {
          RearmOneOk(Abs());
          RearmHead();
        } else {
          RetireOneOk(Abs());
          RetireHead();
        }
        Fields();
      }
      found := false;
    }

    /** The loop over one persistent level. */
    method SelectFromLevel(p: Priority) returns (found: bool)
      requires Sound()
      modifies this, Rings(), Heaps()
      ensures Sound() && (Abs(), found) == SelectLevel(old(Abs()), p)
    {
      hide Shape, Abs, Inv, Room, SelectLevel, RetireFromLevel, RotateLevel, PickLevel, SliceOver, Level;
      Fields();
      while Ring(p).size > 0
        invariant Sound() && SelectLevel(Abs(), p) == SelectLevel(old(Abs()), p)
        invariant Ring(p).size == |Level(Abs(), p)|
        decreases Pending(Abs(), p)
      {
        Fields();
        LevelHeadOk(Abs(), p);
        var t := HeadOf(p);
        Fields();
        LevelPass(Abs(), p);
        if table.tcb[t].status == FINISHED {
          RetireLevelHead(p);
        } else {
          var picked := VisitLevelHead(p);
          if picked {
            return true;
          }
        }
        Fields();
      }
      LevelDone(Abs(), p);
      found := false;
    }

    lemma LevelDone(c: Cpu, p: Priority)
      requires Inv(c) && Room(c)
      ensures |Level(c, p)| == 0 ==> SelectLevel(c, p) == (c, false)
    {
    }

    /** One pass of the loop over a level. */
    lemma LevelPass(c: Cpu, p: Priority)
      requires Inv(c) && Room(c) && Level(c, p) != [] && Level(c, p)[0] in c.tcb
      ensures var d := if c.tcb[Level(c, p)[0]].status == FINISHED then RetireFromLevel(c, p)
                       else if SliceOver(c, p) then RotateLevel(c, p) else PickLevel(c, p);
              && Inv(d) && Room(d)
              && (if c.tcb[Level(c, p)[0]].status == FINISHED || SliceOver(c, p)
                  then SelectLevel(c, p) == SelectLevel(d, p) && Pending(d, p) < Pending(c, p)
                  else SelectLevel(c, p) == (d, true))
    {
      if c.tcb[Level(c, p)[0]].status == FINISHED {
        RetireFromLevelOk(c, p);
      } else if SliceOver(c, p) {
        RotateLevelOk(c, p);
      } else {
        PickLevelOk(c, p);
      }
    }

    /** The reaping loop. */
    method ReapRetired()
      requires Sound()
      modifies this, Rings(), Heaps()
      ensures Sound() && Abs() == ReapAll(old(Abs()))
    {
      hide Shape, Abs, Inv, Room, ReapOne;
      Fields();
      while outgoing.size > 0
        invariant Sound() && ReapAll(Abs()) == ReapAll(old(Abs()))
        invariant outgoing.size == |Abs().outgoing|
        decreases outgoing.size
      {
        ReapOneOk(Abs());
        ReapedOne(Abs());
        ReapHead();
        Fields();
      }
    }

    lemma ReapedOne(c: Cpu)
      requires c.outgoing != [] && c.outgoing[0] in c.tcb
      ensures |ReapOne(c).outgoing| == |c.outgoing| - 1
    {
    }

    lemma ReapNothing(c: Cpu)
      requires Inv(c) && Room(c)
      ensures c.outgoing == [] ==> ReapAll(c) == c
    {
    }

    /** next_up. lockFree is the outcome of the best-effort lock on the allocator. */
    method NextUp(lockFree: bool) returns (found: bool)
      requires Sound()
      modifies this, Rings(), Heaps()
      ensures Sound() && (Abs(), found) == Sched.NextUp(old(Abs()), lockFree)
    {
      hide Shape, Abs, Inv, Room, Admit, ReleaseDue, SelectDead, SelectLevel, ReapAll;
      AdmitAll();
      ReleaseAll();
      found := SelectFromDead();
      if !found {
        found := SelectFromLevel(HIGH_PRIORITY);
        if !found {
          found := SelectFromLevel(MED_PRIORITY);
          if !found {
            found := SelectFromLevel(LOW_PRIORITY);
          }
        }
      }
      Fields();
      ReapNothing(Abs());
      if outgoing.size > 0 && lockFree {
        ReapRetired();
      }
    }
  
    // -------------------------------------------------------------- entry points

    /** next_up as its callers use it. */
    method DispatchNext(lockFree: bool)
      requires Sound()
      modifies this, Rings(), Heaps()
      ensures Sound() && Abs() == Dispatch(old(Abs()), lockFree)
    {
      hide Shape, Abs, Inv, Room, Sched.NextUp;
      ghost var c := Abs();
      var found := NextUp(lockFree);
      if !found {
        Fields();
        SetCurr(main);
        ghost var d := ToMain(Sched.NextUp(c, lockFree).0);
      }
    }

    /** A pending thread that was chosen is primed. */
    method PrimeCurr()
      requires Shape() && Abs().curr in Abs().tcb
      modifies Heaps()
      ensures Shape() && Abs() == Prime(old(Abs()))
    {
      hide Shape, Abs;
      Fields();
      if table.tcb[curr].status == PENDING {
        SetThread(curr, table.tcb[curr].(status := RUNNING));
      }
    }

    /** update_utilization: the old contribution is taken off and the new one added. */
    method UpdateUtilization(t: nat, ci: nat, ti: nat)
      requires Shape() && t in Abs().tcb
      modifies this, Heaps()
      ensures Shape() && Abs() == SchedRuns.UpdateUtilization(old(Abs()), t, ci, ti)
    {
      hide Shape, Abs;
      Fields();
      if ti > 0 && table.tcb[t].periodicity == PERIODIC {
        var u := ci * 0x1_0000 / ti % WORD;
        SetUtilization(Sub32(utilization, table.tcb[t].prevU));
        Fields();
        SetUtilization(Add32(utilization, u));
        Fields();
        SetThread(t, table.tcb[t].(prevU := u));
      }
    }

    /** next_thread, the timer tick, once the core's lock is taken. */
    method NextThread(ci: nat, ti: nat, lockFree: bool)
      requires Shape() && Sys(Abs()) && Room(Abs()) && Room(BeforeTick(Abs(), ci, ti))
      modifies this, Rings(), Heaps()
      ensures Shape() && Abs() == TickStep(old(Abs()), ci, ti, lockFree)
    {
      hide Shape, Abs, Inv, Room, Dispatch, Prime;
      ghost var c := Abs();
      BeforeTickKeeps(c, ci, ti);
      DispatchKeeps(BeforeTick(c, ci, ti), lockFree);
      Fields();
      UpdateUtilization(curr, ci, ti);
      CountTick();
      DispatchNext(lockFree);
      PrimeCurr();
    }

    method CountTick()
      requires Shape()
      modifies this`ticks
      ensures Shape() && Abs() == old(Abs()).(ticks := Add32(old(Abs()).ticks, 1))
    {
      ticks := Add32(ticks, 1);
    }

    /** thread_exit */
    method ThreadExit(lockFree: bool)
      requires Shape() && Sys(Abs()) && Abs().curr != Abs().main && Room(BeforeExit(Abs()))
      modifies this, Rings(), Heaps()
      ensures Shape() && Abs() == ExitStep(old(Abs()), lockFree)
    {
      hide Shape, Abs, Inv, Room, Dispatch, Prime;
      ghost var c := Abs();
      BeforeExitKeeps(c);
      DispatchKeeps(BeforeExit(c), lockFree);
      Fields();
      SetThread(curr, table.tcb[curr].(status := FINISHED));
      DispatchNext(lockFree);
      PrimeCurr();
    }

    /** kill_thread */
    method KillThread(t: nat)
      requires Shape() && t in Abs().tcb
      modifies this, Heaps()
      ensures Shape() && Abs() == SchedSteps.Kill(old(Abs()), t)
    {
      hide Shape, Abs;
      Fields();
      var x := table.tcb[t];
      SetUtilization(Sub32(utilization, x.prevU));
      SetThread(t, x.(periodicity := APERIODIC, status := FINISHED, owner := OUTGOING_THREADS, prevU := 0));
    }

    /** enqueue_new_thread on memory at t; a full FIFO loses the thread. */
    method EnqueueNewThread(t: nat, memory: Tcb, period: nat, periodicity: Periodicity) returns (thread: nat)
      requires Shape()
      modifies Rings(), Heaps()
      ensures Shape() && (Abs(), thread) == SchedSteps.Enqueue(old(Abs()), t, memory, period, periodicity)
    {
      hide Shape, Abs;
      if period == 0 || t == NULL {
        return NULL;
      }
      SetThread(t, memory.(period := period, periodicity := periodicity, owner := INCOMING_THREADS, prevU := 0));
      PushIncoming(t);
      thread := t;
    }

    /** enqueue_new_persistent_thread */
    method EnqueueNewPersistentThread(t: nat, memory: Tcb, priority: Priority) returns (thread: nat)
      requires Shape()
      modifies Rings(), Heaps()
      ensures Shape() && (Abs(), thread) == SchedSteps.EnqueuePersistent(old(Abs()), t, memory, priority)
    {
      hide Shape, Abs;
      if t == NULL {
        return NULL;
      }
      SetThread(t, memory.(period := PERSISTENT_SLICE_TICKS, landed := 0, periodicity := PERSISTENT, priority := priority,
                           owner := INCOMING_THREADS, prevU := 0));
      PushIncoming(t);
      thread := t;
    }

    /** The result of the push is ignored. */
    method PushIncoming(t: nat)
      requires Shape()
      modifies incoming, incoming.fifo
      ensures Shape() && Abs() == Pushed(old(Abs()), t)
    {
      assert |Abs().incoming| == incoming.size;
      var ok := incoming.Push(t);
    }

    /** heap_index is the thread's position in the heap that holds it. */
    lemma IndexOfThread(t: nat)
      requires Shape()
      ensures t in multiset(Ops.Threads(Abs().dead)) ==> t in table.heapIndex && table.heapIndex[t] == IndexOf(Abs().dead, t)
      ensures t in multiset(Ops.Threads(Abs().rel)) ==> t in table.heapIndex && table.heapIndex[t] == IndexOf(Abs().rel, t)
    {
      if t in multiset(Ops.Threads(Abs().dead)) {
        assert dead.PointsBack(table, IndexOf(Abs().dead, t));
      }
      if t in multiset(Ops.Threads(Abs().rel)) {
        assert rel.PointsBack(table, IndexOf(Abs().rel, t));
      }
    }
  
    /** The state part of suspend_thread up to the forced switch. */
    method SuspendThread(t: nat, delay: nat) returns (ok: bool)
      requires Shape() && Inv(Abs()) && t in Abs().tcb && t != Abs().main
      modifies this, Heaps()
      ensures Shape() && (Abs(), ok) == SchedSuspend.Suspend(old(Abs()), t, delay)
    {
      hide Shape, Abs, Inv;
      ghost var c := Abs();
      Fields();
      var x := table.tcb[t];
      ok := true;
      if (x.status == FINISHED && x.periodicity == APERIODIC) || x.owner == OUTGOING_THREADS || x.owner == INCOMING_THREADS {
        ok := false;
      }
      if ok && GeqWrapped(x.release, Add32(ticks, delay)) {
        ok := false;
      }
      if ok {
        x := x.(release := Add32(ticks, delay));
        if GeqWrapped(ticks, x.deadline) {
          x := x.(deadline := Add32(x.release, x.period));
        } else {
          var delta := Sub32(x.deadline, ticks);
          x := x.(deadline := Add32(x.release, delta));
        }
        assert x == Suspended(c.tcb[t], c.ticks, delay);
        MoveSuspended(t, x);
      }
    }

    /** Where the new times put the thread. */
    method MoveSuspended(t: nat, x: Tcb)
      requires Shape() && Inv(Abs()) && t in Abs().tcb && t != Abs().main && x.owner == Abs().tcb[t].owner
      modifies Heaps()
      ensures x.owner == DEAD_HEAP ==> t in multiset(Ops.Threads(old(Abs()).dead))
      ensures x.owner == REL_HEAP ==> t in multiset(Ops.Threads(old(Abs()).rel))
      ensures Shape() && Abs() == if x.owner == DEAD_HEAP then
                SetTcb(old(Abs()), t, x.(owner := REL_HEAP))
                  .(dead := Ops.RemoveNode(old(Abs()).dead, IndexOf(old(Abs()).dead, t)),
                    rel := Ops.Insert(old(Abs()).rel, Ops.Node(x.release, t)))
              else if x.owner == REL_HEAP then
                SetTcb(old(Abs()), t, x).(rel := Ops.Balance(old(Abs()).rel, IndexOf(old(Abs()).rel, t), x.release))
              else SetTcb(old(Abs()), t, x)
    {
      hide Shape, Abs;
      ghost var c := Abs();
      assert TagOk(c, t);
      IndexOfThread(t);
      if x.owner == DEAD_HEAP {
        var i := table.heapIndex[t];
        ContainersFit(c);
        Ops.OrderedStays(c.dead, i);
        Ops.RemoveNodePerm(c.dead, i);
        GoneFromHeap(c, c.dead, Ops.RemoveNode(c.dead, i), AtDead, t);
        SetThread(t, x.(owner := REL_HEAP));
        RemoveDead(i);
        InsertRel(t, x.release);
      } else if x.owner == REL_HEAP {
        var i := table.heapIndex[t];
        SetThread(t, x);
        BalanceRel(i, x.release);
      } else {
        SetThread(t, x);
      }
    }
  
    /** suspend_thread; a thread that suspends itself on its own core is switched away at once. */
    method SuspendAndSwitch(t: nat, delay: nat, ownCore: bool, lockFree: bool) returns (ok: bool)
      requires Shape() && Sys(Abs()) && t in Abs().tcb && t != Abs().main
      requires exists w {:trigger RoomAt(Abs(), w)} :: RoomAt(Abs(), w) && SuspendFits(Abs(), w, t, delay)
      modifies this, Rings(), Heaps()
      ensures Shape() && Abs() == SuspendStep(old(Abs()), t, delay, ownCore, lockFree)
      ensures ok == SchedSuspend.Suspend(old(Abs()), t, delay).1
    {
      hide Shape, Abs, Inv, Room, RoomAt, SuspendFits, SchedSuspend.Suspend, Dispatch;
      ghost var c := Abs();
      SuspendEventKeeps(c, t, delay);
      ok := SuspendThread(t, delay);
      Fields();
      if ok && ownCore && t == curr {
        SuspendKeepsCurr(c, t, delay);
        DispatchNext(lockFree);
      } else {
        SuspendKeepsCurr(c, t, delay);
      }
    }

    lemma SuspendKeepsCurr(c: Cpu, t: nat, delay: nat)
      requires Inv(c) && t in c.tcb && t != c.main
      ensures SchedSuspend.Suspend(c, t, delay).0.curr == c.curr
    {
    }

    /** A thread tagged with a heap is in that heap, at its heap_index. */
    lemma BackPointers(t: nat)
      requires Shape() && Inv(Abs()) && t in Abs().tcb && t != Abs().main
      ensures Abs().tcb[t].owner == DEAD_HEAP ==>
                t in table.heapIndex && table.heapIndex[t] < dead.currIndex && dead.heap[table.heapIndex[t]].thread == t
      ensures Abs().tcb[t].owner == REL_HEAP ==>
                t in table.heapIndex && table.heapIndex[t] < rel.currIndex && rel.heap[table.heapIndex[t]].thread == t
    {
      assert TagOk(Abs(), t);
      IndexOfThread(t);
      if Abs().tcb[t].owner == DEAD_HEAP {
        assert Abs().dead[IndexOf(Abs().dead, t)].thread == t;
      } else if Abs().tcb[t].owner == REL_HEAP {
        assert Abs().rel[IndexOf(Abs().rel, t)].thread == t;
      }
    }
  }
}
