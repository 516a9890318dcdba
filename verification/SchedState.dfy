/** State of one core's scheduler, its invariant, and the elementary moves of next_up. */
module SchedState {
  import opened Wrapped
  import opened ThreadTypes
  import opened HeapOps
  import opened Rearm

  datatype Cpu = Cpu(
    ticks: nat, tcb: map<nat, Tcb>,
    incoming: seq<nat>, outgoing: seq<nat>, low: seq<nat>, med: seq<nat>, high: seq<nat>,
    dead: seq<Node>, rel: seq<Node>,
    curr: nat, main: nat, missed: nat, utilization: nat)

  function Level(c: Cpu, p: Priority): seq<nat> {
    match p
    case LOW_PRIORITY => c.low
    case MED_PRIORITY => c.med
    case HIGH_PRIORITY => c.high
  }

  function WithLevel(c: Cpu, p: Priority, q: seq<nat>): Cpu {
    match p
    case LOW_PRIORITY => c.(low := q)
    case MED_PRIORITY => c.(med := q)
    case HIGH_PRIORITY => c.(high := q)
  }

  function LevelOwner(p: Priority): Owner {
    match p
    case LOW_PRIORITY => FIFO_LOW
    case MED_PRIORITY => FIFO_MED
    case HIGH_PRIORITY => FIFO_HIGH
  }

  // ---------------------------------------------------------------- where threads are

  /** The seven containers of a core. */
  datatype Place = AtIncoming | AtOutgoing | AtDead | AtRel | AtLevel(p: Priority)

  /** What each container holds, with multiplicity. */
  datatype Spread = Spread(
    incoming: multiset<nat>, outgoing: multiset<nat>, dead: multiset<nat>, rel: multiset<nat>,
    low: multiset<nat>, med: multiset<nat>, high: multiset<nat>)

  function SpreadOf(c: Cpu): Spread {
    Spread(multiset(c.incoming), multiset(c.outgoing), multiset(Threads(c.dead)), multiset(Threads(c.rel)),
           multiset(c.low), multiset(c.med), multiset(c.high))
  }

  function Held(s: Spread, p: Place): multiset<nat> {
    match p
    case AtIncoming => s.incoming
    case AtOutgoing => s.outgoing
    case AtDead => s.dead
    case AtRel => s.rel
    case AtLevel(LOW_PRIORITY) => s.low
    case AtLevel(MED_PRIORITY) => s.med
    case AtLevel(HIGH_PRIORITY) => s.high
  }

  function Total(s: Spread): multiset<nat> {
    s.incoming + s.outgoing + s.dead + s.rel + s.low + s.med + s.high
  }

  /** The first container that holds t. */
  function PlaceIn(s: Spread, t: nat): Place {
    if t in s.incoming then AtIncoming
    else if t in s.outgoing then AtOutgoing
    else if t in s.dead then AtDead
    else if t in s.rel then AtRel
    else if t in s.low then AtLevel(LOW_PRIORITY)
    else if t in s.med then AtLevel(MED_PRIORITY)
    else AtLevel(HIGH_PRIORITY)
  }

  // ---------------------------------------------------------------- invariant

  /** Every live thread but the main one is in exactly one container, exactly once, and nothing else is. */
  ghost predicate Exact(c: Cpu) {
    c.main in c.tcb && Total(SpreadOf(c)) == multiset(c.tcb.Keys - {c.main})
  }

  /** Container partition, within the capacity of a single container. */
  ghost predicate Partitioned(c: Cpu) {
    Exact(c) && NULL !in c.tcb && |c.tcb| <= MAX_THREADS + 1
  }

  /** What the tags of a thread say about the container it is in. A killed thread is tagged as outgoing wherever
      it is, and a finished persistent thread keeps its level tag when it retires. */
  predicate TagFits(x: Tcb, p: Place) {
    && x.period > 0
    && (x.owner == INCOMING_THREADS ==> p == AtIncoming)
    && (x.owner == DEAD_HEAP ==> p == AtDead)
    && (x.owner == REL_HEAP ==> p == AtRel)
    && (x.owner == FIFO_LOW ==> p == AtLevel(LOW_PRIORITY) || p == AtOutgoing)
    && (x.owner == FIFO_MED ==> p == AtLevel(MED_PRIORITY) || p == AtOutgoing)
    && (x.owner == FIFO_HIGH ==> p == AtLevel(HIGH_PRIORITY) || p == AtOutgoing)
    && (x.owner == OUTGOING_THREADS ==> x.status == FINISHED && x.periodicity == APERIODIC)
    && (p == AtOutgoing ==> x.status == FINISHED)
    && (p == AtDead || p == AtRel ==> x.periodicity != PERSISTENT && x.release < x.deadline)
  }

  ghost predicate TagOk(c: Cpu, t: nat)
    requires t in c.tcb
  {
    TagFits(c.tcb[t], PlaceIn(SpreadOf(c), t))
  }

  ghost predicate Inv(c: Cpu) {
    && Partitioned(c)
    && (forall t {:trigger TagOk(c, t)} :: t in c.tcb && t != c.main ==> TagOk(c, t))
    && HeapOrder(c.dead) && HeapOrder(c.rel)
  }

  // ---------------------------------------------------------------- counter headroom

  predicate In(w: nat, a: nat) {
    w <= a < w + HALF
  }

  /** The times of a thread, and those a re-arm or an admission at this tick would give it, lie in the window.
      Before admission its times are not set. */
  predicate TimesFit(x: Tcb, ticks: nat, w: nat, p: Place) {
    && In(w, ticks + x.period)
    && (p != AtIncoming ==>
          In(w, x.release) && In(w, x.deadline)
          && (x.status == FINISHED && x.periodicity == PERIODIC ==> In(w, x.deadline + x.period)))
  }

  ghost predicate RoomFor(c: Cpu, w: nat, t: nat)
    requires t in c.tcb
  {
    TimesFit(c.tcb[t], c.ticks, w, PlaceIn(SpreadOf(c), t))
  }

  /** All live times lie in [w, w + 2^31), which does not cross 2^32. */
  ghost predicate RoomAt(c: Cpu, w: nat) {
    && Plain(w) && In(w, c.ticks) && Fits(w, c.dead) && Fits(w, c.rel)
    && forall t {:trigger RoomFor(c, w, t)} :: t in c.tcb && t != c.main ==> RoomFor(c, w, t)
  }

  /** The tick counter has not come within reach of 2^32, and no live time is 2^31 ticks from another. */
  ghost predicate Room(c: Cpu) {
    exists w :: RoomAt(c, w)
  }

  // ---------------------------------------------------------------- elementary moves

  function SetTcb(c: Cpu, t: nat, x: Tcb): Cpu {
    c.(tcb := c.tcb[t := x])
  }

  /** A thread as admission leaves it: pending, released now, due one period from now. */
  function Admitted(x: Tcb, ticks: nat): Tcb {
    x.(deadline := Add32(ticks, x.period), release := ticks, dirty := false, status := PENDING,
       owner := if x.periodicity == PERSISTENT then LevelOwner(x.priority) else DEAD_HEAP)
  }

  /** Admit the head of the incoming FIFO. */
  function AdmitOne(c: Cpu): Cpu
    requires c.incoming != [] && c.incoming[0] in c.tcb
  {
    var t := c.incoming[0];
    var x := Admitted(c.tcb[t], c.ticks);
    var c' := SetTcb(c, t, x).(incoming := c.incoming[1..]);
    if x.periodicity == PERSISTENT
    then WithLevel(c', x.priority, Level(c, x.priority) + [t])
    else c'.(dead := Insert(c.dead, Node(x.deadline, t)))
  }

  /** The head of the release heap is due. */
  predicate HeadDue(c: Cpu) {
    c.rel != [] && c.rel[0].thread in c.tcb && GeqWrapped(c.ticks, c.tcb[c.rel[0].thread].release)
  }

  /** Move the head of the release heap to the deadline heap. */
  function ReleaseOne(c: Cpu): Cpu
    requires HeadDue(c)
  {
    var t := c.rel[0].thread;
    var x := c.tcb[t].(owner := DEAD_HEAP);
    SetTcb(c, t, x).(rel := RemoveHead(c.rel), dead := Insert(c.dead, Node(x.deadline, t)))
  }

  /** The head of the deadline heap is finished and has this periodicity. */
  predicate HeadFinished(c: Cpu, k: Periodicity) {
    c.dead != [] && c.dead[0].thread in c.tcb
    && c.tcb[c.dead[0].thread].status == FINISHED && c.tcb[c.dead[0].thread].periodicity == k
  }

  function Rearmed(x: Tcb, ticks: nat): Tcb
    requires x.period > 0
  {
    var d := NextDeadline(x.deadline, x.period, ticks);
    x.(deadline := d, release := NextRelease(x.release, x.period, d), dirty := false, status := PENDING)
  }

  /** Re-arm the finished periodic head of the deadline heap. */
  function RearmOne(c: Cpu): Cpu
    requires HeadFinished(c, PERIODIC) && c.tcb[c.dead[0].thread].period > 0
  {
    var t := c.dead[0].thread;
    var x := Rearmed(c.tcb[t], c.ticks);
    if LtWrapped(c.ticks, x.release) then
      SetTcb(c, t, x.(owner := REL_HEAP)).(dead := RemoveHead(c.dead), rel := Insert(c.rel, Node(x.release, t)))
    else
      SetTcb(c, t, x).(dead := Balance(c.dead, 0, x.deadline))
  }

  /** Retire the finished aperiodic head of the deadline heap. */
  function RetireOne(c: Cpu): Cpu
    requires HeadFinished(c, APERIODIC)
  {
    var t := c.dead[0].thread;
    SetTcb(c, t, c.tcb[t].(owner := OUTGOING_THREADS)).(dead := RemoveHead(c.dead), outgoing := c.outgoing + [t])
  }

  /** Select the unfinished head of the deadline heap, noting a missed deadline once. */
  function PickDead(c: Cpu): Cpu
    requires c.dead != [] && c.dead[0].thread in c.tcb
  {
    var t := c.dead[0].thread;
    var x := c.tcb[t];
    var late := GeqWrapped(c.ticks, x.deadline) && !x.dirty;
    SetTcb(c, t, x.(dirty := x.dirty || late)).(curr := t, missed := if late then Add32(c.missed, 1) else c.missed)
  }

  /** Retire the finished head of a persistent level. */
  function RetireFromLevel(c: Cpu, p: Priority): Cpu
    requires Level(c, p) != []
  {
    WithLevel(c, p, Level(c, p)[1..]).(outgoing := c.outgoing + [Level(c, p)[0]])
  }

  /** The head of a level after it was charged a tick and, when due, given a new slice window. */
  function Visited(x: Tcb, ticks: nat): Tcb {
    var y := x.(landed := Add32(x.landed, 1));
    if GeqWrapped(ticks, x.deadline) then y.(release := ticks, deadline := Add32(ticks, x.period)) else y
  }

  /** The head's window ended, it has had its slice, and another thread is waiting. */
  predicate SliceOver(c: Cpu, p: Priority)
    requires Level(c, p) != [] && Level(c, p)[0] in c.tcb
  {
    var x := c.tcb[Level(c, p)[0]];
    GeqWrapped(c.ticks, x.deadline) && |Level(c, p)| > 1 && Add32(x.landed, 1) >= x.period
  }

  function RotateLevel(c: Cpu, p: Priority): Cpu
    requires Level(c, p) != [] && Level(c, p)[0] in c.tcb
  {
    var q := Level(c, p);
    WithLevel(SetTcb(c, q[0], Visited(c.tcb[q[0]], c.ticks).(landed := 0)), p, q[1..] + [q[0]])
  }

  function PickLevel(c: Cpu, p: Priority): Cpu
    requires Level(c, p) != [] && Level(c, p)[0] in c.tcb
  {
    var t := Level(c, p)[0];
    SetTcb(c, t, Visited(c.tcb[t], c.ticks)).(curr := t)
  }

  /** Free the head of the outgoing FIFO. */
  function ReapOne(c: Cpu): Cpu
    requires c.outgoing != [] && c.outgoing[0] in c.tcb
  {
    var t := c.outgoing[0];
    c.(outgoing := c.outgoing[1..], utilization := Sub32(c.utilization, c.tcb[t].prevU), tcb := c.tcb - {t})
  }
}
