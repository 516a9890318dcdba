/** Round robin inside one persistent level: how long a head keeps its place and how long the others wait. */
module RoundRobin {
  import opened Words
  import opened Wrapped
  import opened ThreadTypes
  import opened SchedState
  import opened SchedMoves
  import opened Sched

  /** A queued thread of the level: unfinished, of slice length P, its window not further than P ahead. */
  predicate Waits(x: Tcb, ticks: nat, P: nat) {
    x.status != FINISHED && x.period == P && x.deadline <= ticks + P
  }

  /** Ticks until a thread's window ends. */
  function Ahead(x: Tcb, ticks: nat): nat {
    if x.deadline > ticks then x.deadline - ticks else 0
  }

  /** How many more visits, one per tick from now on, the head keeps its place. */
  function VisitsLeft(x: Tcb, ticks: nat, P: nat): nat {
    var a := Ahead(x, ticks);
    if x.landed + a + 1 >= P then a else a + P
  }

  /** The head stays until it has been visited P times since it was last rotated, and less than 2P visits in all. */
  lemma VisitsLeftBounds(x: Tcb, ticks: nat, P: nat)
    requires Waits(x, ticks, P) && P > 0
    ensures VisitsLeft(x, ticks, P) < 2 * P
    ensures x.landed + VisitsLeft(x, ticks, P) + 1 >= P
  {
  }

  ghost predicate QueuedOk(c: Cpu, p: Priority, P: nat, i: nat)
    requires i < |Level(c, p)|
  {
    var t := Level(c, p)[i];
    t in c.tcb && Waits(c.tcb[t], c.ticks, P) && (i > 0 ==> c.tcb[t].landed == 0)
  }

  /** Level p holds at least two waiting threads; only its head has been charged ticks, and not so many that the
      charge would overflow while it is head. */
  ghost predicate FairLevel(c: Cpu, p: Priority, P: nat) {
    && 2 <= P && |Level(c, p)| >= 2
    && (forall i {:trigger QueuedOk(c, p, P, i)} :: 0 <= i < |Level(c, p)| ==> QueuedOk(c, p, P, i))
    && Level(c, p)[0] in c.tcb
    && var x := c.tcb[Level(c, p)[0]]; x.landed + VisitsLeft(x, c.ticks, P) + 1 < WORD
  }

  lemma HeadFacts(c: Cpu, w: nat, p: Priority, P: nat)
    requires Inv(c) && RoomAt(c, w) && FairLevel(c, p, P)
    ensures var x := c.tcb[Level(c, p)[0]];
            && Waits(x, c.ticks, P) && P < HALF
            && (GeqWrapped(c.ticks, x.deadline) <==> x.deadline <= c.ticks)
            && Add32(x.landed, 1) == x.landed + 1 && Add32(c.ticks, P) == c.ticks + P
            && (SliceOver(c, p) <==> VisitsLeft(x, c.ticks, P) == 0)
  {
    assert QueuedOk(c, p, P, 0);
    LevelHead(c, p, w);
    DueMeansPast(c.ticks, c.tcb[Level(c, p)[0]].deadline, w);
  }

  /** A visit to a head whose window is open or whose slice is not used up: one visit fewer is left. */
  lemma VisitedHead(c: Cpu, w: nat, p: Priority, P: nat)
    requires Inv(c) && RoomAt(c, w) && FairLevel(c, p, P)
    ensures var (x, y) := (c.tcb[Level(c, p)[0]], Visited(c.tcb[Level(c, p)[0]], c.ticks));
            && y.landed == x.landed + 1 && Waits(y, c.ticks, P) && Waits(y.(landed := 0), c.ticks, P)
            && (VisitsLeft(x, c.ticks, P) > 0 ==> VisitsLeft(y, c.ticks + 1, P) + 1 == VisitsLeft(x, c.ticks, P))
            && (x.landed == 0 ==> VisitsLeft(y, c.ticks + 1, P) <= 2 * P - 2)
  {
    HeadFacts(c, w, p, P);
  }

  lemma PassPicks(c: Cpu, p: Priority)
    requires Inv(c) && Room(c) && Level(c, p) != [] && Level(c, p)[0] in c.tcb
    requires c.tcb[Level(c, p)[0]].status != FINISHED && !SliceOver(c, p)
    ensures SelectLevel(c, p) == (PickLevel(c, p), true)
  {
    hide PickLevel, SliceOver;
  }

  lemma PassRotates(c: Cpu, p: Priority)
    requires Inv(c) && Room(c) && Level(c, p) != [] && Level(c, p)[0] in c.tcb
    requires c.tcb[Level(c, p)[0]].status != FINISHED && SliceOver(c, p)
    ensures Inv(RotateLevel(c, p)) && Room(RotateLevel(c, p))
    ensures SelectLevel(c, p) == SelectLevel(RotateLevel(c, p), p)
  {
    hide RotateLevel, SliceOver, RetireFromLevel, PickLevel;
    RotateLevelOk(c, p);
  }

  /** A thread alone in its level is picked at every visit, however many ticks it has been charged: it is charged one
      more and, once its window has ended, given the next one. */
  lemma LoneHead(c: Cpu, w: nat, p: Priority)
    requires Inv(c) && RoomAt(c, w) && Room(c) && |Level(c, p)| == 1 && Level(c, p)[0] in c.tcb
    requires c.tcb[Level(c, p)[0]].status != FINISHED
    ensures var (t, (r, found)) := (Level(c, p)[0], SelectLevel(c, p));
            && found && r.curr == t && Level(r, p) == [t] && t in r.tcb
            && var (x, y) := (c.tcb[t], r.tcb[t]);
            && y == x.(landed := y.landed, release := y.release, deadline := y.deadline)
            && (x.landed + 1 < WORD ==> y.landed == x.landed + 1)
            && (c.ticks < x.deadline ==> y.release == x.release && y.deadline == x.deadline)
            && (x.deadline <= c.ticks ==> y.release == c.ticks && y.deadline == c.ticks + x.period)
  {
    var t := Level(c, p)[0];
    LoneFits(c, w, p);
    hide SelectLevel, PickLevel, Inv, Room, RoomAt, Visited;
    PassPicks(c, p);
    PickedEntry(c, p);
    VisitedTimes(c.tcb[t], c.ticks);
  }

  lemma LoneFits(c: Cpu, w: nat, p: Priority)
    requires Inv(c) && RoomAt(c, w) && |Level(c, p)| == 1 && Level(c, p)[0] in c.tcb
    ensures var x := c.tcb[Level(c, p)[0]];
            && c.ticks + x.period < WORD && (GeqWrapped(c.ticks, x.deadline) <==> x.deadline <= c.ticks)
            && !SliceOver(c, p)
  {
    LevelHead(c, p, w);
    DueMeansPast(c.ticks, c.tcb[Level(c, p)[0]].deadline, w);
  }

  lemma PickedEntry(c: Cpu, p: Priority)
    requires Level(c, p) != [] && Level(c, p)[0] in c.tcb
    ensures var (t, r) := (Level(c, p)[0], PickLevel(c, p));
            r.curr == t && Level(r, p) == Level(c, p) && t in r.tcb && r.tcb[t] == Visited(c.tcb[t], c.ticks)
  {
  }

  lemma VisitedTimes(x: Tcb, ticks: nat)
    requires ticks + x.period < WORD && (GeqWrapped(ticks, x.deadline) <==> x.deadline <= ticks)
    ensures var y := Visited(x, ticks);
            && y == x.(landed := y.landed, release := y.release, deadline := y.deadline)
            && (x.landed + 1 < WORD ==> y.landed == x.landed + 1)
            && (ticks < x.deadline ==> y.release == x.release && y.deadline == x.deadline)
            && (x.deadline <= ticks ==> y.release == ticks && y.deadline == ticks + x.period)
  {
  }

  /** While visits are left the head is picked and the queue does not move. */
  lemma VisitKeepsHead(c: Cpu, w: nat, p: Priority, P: nat)
    requires Inv(c) && RoomAt(c, w) && FairLevel(c, p, P) && VisitsLeft(c.tcb[Level(c, p)[0]], c.ticks, P) > 0
    ensures SelectLevel(c, p) == (PickLevel(c, p), true)
  {
    HeadFacts(c, w, p, P);
    PassPicks(c, p);
  }

  lemma DistinctInLevel(c: Cpu, w: nat, p: Priority, i: nat)
    requires Inv(c) && RoomAt(c, w) && 0 < i < |Level(c, p)|
    ensures Level(c, p)[0] != Level(c, p)[i]
  {
    var q := Level(c, p);
    LevelHead(c, p, w);
    LiftedFacts(c, SansLevel(c, p), AtLevel(p), q[0]);
    assert q[i] == q[1..][i - 1] && q[i] in multiset(q[1..]);
    HeldInTotal(SansLevel(c, p), AtLevel(p), q[i]);
  }

  /** The level after its head was rotated to the tail: its new head is fresh, and its slice has not begun. */
  lemma RotatedLevel(c: Cpu, w: nat, p: Priority, P: nat)
    requires Inv(c) && RoomAt(c, w) && FairLevel(c, p, P)
    ensures var (b, q) := (RotateLevel(c, p), Level(c, p));
            && Level(b, p) == q[1..] + [q[0]] && b.ticks == c.ticks && q[0] != q[1]
            && FairLevel(b, p, P) && b.tcb[q[1]] == c.tcb[q[1]] && b.tcb[q[1]].landed == 0
  {
    VisitedHead(c, w, p, P);
    HeadFacts(c, w, p, P);
    assert QueuedOk(c, p, P, 1);
    var b, q := RotateLevel(c, p), Level(c, p);
    DistinctInLevel(c, w, p, 1);
    forall i | 0 <= i < |q| ensures QueuedOk(b, p, P, i) {
      if i < |q| - 1 {
        assert QueuedOk(c, p, P, i + 1);
        DistinctInLevel(c, w, p, i + 1);
      }
    }
    VisitsLeftBounds(b.tcb[q[1]], c.ticks, P);
  }

  /** The visit that ends a head's time: it goes to the tail, and the next thread is picked in the same pass. */
  lemma VisitRotates(c: Cpu, w: nat, p: Priority, P: nat)
    requires Inv(c) && RoomAt(c, w) && FairLevel(c, p, P) && VisitsLeft(c.tcb[Level(c, p)[0]], c.ticks, P) == 0
    ensures var b := RotateLevel(c, p);
            && Inv(b) && RoomAt(b, w) && Level(b, p) != [] && Level(b, p)[0] in b.tcb
            && SelectLevel(c, p) == (PickLevel(b, p), true)
  {
    HeadFacts(c, w, p, P);
    PassRotates(c, p);
    RotateLevelKeeps(c, p, w);
    RotatedLevel(c, w, p, P);
    var b := RotateLevel(c, p);
    HeadFacts(b, w, p, P);
    PassPicks(b, p);
  }

  /** The level as the pass leaves it, one tick later: the picked head was charged a tick, the rest is as before. */
  lemma PickedLevel(c: Cpu, w: nat, p: Priority, P: nat)
    requires Inv(c) && RoomAt(c, w) && FairLevel(c, p, P)
    requires VisitsLeft(c.tcb[Level(c, p)[0]], c.ticks, P) > 0 || c.tcb[Level(c, p)[0]].landed == 0
    ensures var d := PickLevel(c, p).(ticks := c.ticks + 1);
            && FairLevel(d, p, P) && Level(d, p) == Level(c, p)
            && d.tcb[Level(c, p)[0]] == Visited(c.tcb[Level(c, p)[0]], c.ticks)
  {
    VisitedHead(c, w, p, P);
    HeadFacts(c, w, p, P);
    var d, q := PickLevel(c, p).(ticks := c.ticks + 1), Level(c, p);
    forall i | 0 <= i < |q| ensures QueuedOk(d, p, P, i) {
      assert QueuedOk(c, p, P, i);
      if i > 0 {
        DistinctInLevel(c, w, p, i);
      }
    }
  }

  /** What a thread keeps while it waits in its level: its times, its charge, and that it is not finished. */
  predicate Undisturbed(x: Tcb, y: Tcb) {
    && y.period == x.period && y.release == x.release && y.deadline == x.deadline && y.landed == x.landed
    && (x.status != FINISHED ==> y.status != FINISHED)
  }

  ghost predicate StillQueued(d: Cpu, c': Cpu, p: Priority, i: nat)
    requires i < |Level(d, p)|
  {
    var t := Level(d, p)[i];
    t in d.tcb && t in c'.tcb && Undisturbed(d.tcb[t], c'.tcb[t])
  }

  /** From the level as a pass left it to the next visit: the queue may only grow at its tail, by fresh waiting
      threads, and the threads already in it are left alone. */
  ghost predicate Follows(d: Cpu, c': Cpu, p: Priority, P: nat) {
    && Level(d, p) <= Level(c', p)
    && (forall i {:trigger StillQueued(d, c', p, i)} :: 0 <= i < |Level(d, p)| ==> StillQueued(d, c', p, i))
    && (forall i {:trigger QueuedOk(c', p, P, i)} :: |Level(d, p)| <= i < |Level(c', p)| ==> QueuedOk(c', p, P, i))
  }

  /** From one visit of level p to the next, one tick later. */
  ghost predicate NextVisit(c: Cpu, c': Cpu, p: Priority, P: nat, w: nat) {
    && Inv(c) && RoomAt(c, w) && Inv(c') && RoomAt(c', w)
    && c'.ticks == c.ticks + 1 && Follows(SelectLevel(c, p).0, c', p, P)
  }

  /** If the level was fair right after the pass, it still is at the next visit. */
  lemma FairAcross(d: Cpu, c': Cpu, p: Priority, P: nat)
    requires FairLevel(d.(ticks := c'.ticks), p, P) && Follows(d, c', p, P)
    ensures FairLevel(c', p, P) && Level(d, p) <= Level(c', p)
    ensures VisitsLeft(c'.tcb[Level(c', p)[0]], c'.ticks, P) == VisitsLeft(d.tcb[Level(d, p)[0]], c'.ticks, P)
  {
    var e := d.(ticks := c'.ticks);
    assert Level(e, p) == Level(d, p);
    forall i | 0 <= i < |Level(c', p)| ensures QueuedOk(c', p, P, i) {
      if i < |Level(d, p)| {
        assert QueuedOk(e, p, P, i) && StillQueued(d, c', p, i);
      }
    }
    assert StillQueued(d, c', p, 0);
  }

  /** The first of q has gone behind all the others of q, and those moved up by one. */
  predicate MovedBehind(q: seq<nat>, l: seq<nat>)
    requires q != []
  {
    q[1..] <= l && q[0] in l[|q| - 1..]
  }

  lemma MovedBehindPrefix(q: seq<nat>, m: seq<nat>, l: seq<nat>)
    requires q != [] && q <= m && MovedBehind(m, l)
    ensures MovedBehind(q, l)
  {
    assert l[|q| - 1..][|m| - |q|..] == l[|m| - 1..];
    forall k | 0 <= k < |q| - 1 ensures q[1..][k] == l[k] {
      assert m[1..][k] == l[k];
    }
  }

  lemma RotatedIsBehind(q: seq<nat>, l: seq<nat>)
    requires q != [] && q[1..] + [q[0]] <= l
    ensures MovedBehind(q, l)
  {
    assert (q[1..] + [q[0]])[..|q| - 1] == q[1..];
    assert l[|q| - 1..][0] == (q[1..] + [q[0]])[|q| - 1] == q[0];
  }

  /** How many more visits the head of a fair level keeps its place. */
  ghost function Left(c: Cpu, p: Priority, P: nat): (r: nat)
    requires FairLevel(c, p, P)
    ensures r < 2 * P && c.tcb[Level(c, p)[0]].landed + r + 1 >= P
  {
    assert QueuedOk(c, p, P, 0);
    VisitsLeftBounds(c.tcb[Level(c, p)[0]], c.ticks, P);
    VisitsLeft(c.tcb[Level(c, p)[0]], c.ticks, P)
  }

  /** A visit while time is left. */
  lemma StepKeepsHead(c: Cpu, c': Cpu, p: Priority, P: nat, w: nat)
    requires FairLevel(c, p, P) && NextVisit(c, c', p, P, w) && Left(c, p, P) > 0
    ensures c'.ticks == c.ticks + 1
    ensures FairLevel(c', p, P) && Level(c, p) <= Level(c', p) && Left(c', p, P) + 1 == Left(c, p, P)
  {
    hide SelectLevel, Follows, Inv, RoomAt;
    VisitKeepsHead(c, w, p, P);
    VisitedHead(c, w, p, P);
    PickedLevel(c, w, p, P);
    FairAcross(PickLevel(c, p), c', p, P);
  }

  lemma RotatedThenPicked(c: Cpu, p: Priority, P: nat, w: nat)
    requires Inv(c) && RoomAt(c, w) && FairLevel(c, p, P) && Left(c, p, P) == 0
    ensures var d := SelectLevel(c, p).0;
            FairLevel(d.(ticks := c.ticks + 1), p, P) && Level(d, p) == Level(c, p)[1..] + [Level(c, p)[0]]
  {
    hide SelectLevel, RotateLevel, PickLevel, Inv, RoomAt, Visited;
    VisitRotates(c, w, p, P);
    RotatedLevel(c, w, p, P);
    PickedLevel(RotateLevel(c, p), w, p, P);
    LevelIgnoresTicks(PickLevel(RotateLevel(c, p), p), c.ticks + 1, p);
  }

  lemma LevelIgnoresTicks(c: Cpu, n: nat, p: Priority)
    ensures Level(c.(ticks := n), p) == Level(c, p)
  {
  }

  /** Every visit of a fair level finds a thread, and leaves the level fair for the next tick. */
  lemma AfterPass(c: Cpu, p: Priority, P: nat, w: nat)
    requires Inv(c) && RoomAt(c, w) && FairLevel(c, p, P)
    ensures Room(c) && SelectLevel(c, p).1 && FairLevel(SelectLevel(c, p).0.(ticks := c.ticks + 1), p, P)
  {
    hide SelectLevel, PickLevel, RotateLevel, Inv, RoomAt, Visited;
    if Left(c, p, P) == 0 {
      VisitRotates(c, w, p, P);
      RotatedThenPicked(c, p, P, w);
    } else {
      VisitKeepsHead(c, w, p, P);
      PickedLevel(c, w, p, P);
    }
  }

  /** The visit after which the head has left its place. */
  lemma StepRotates(c: Cpu, c': Cpu, p: Priority, P: nat, w: nat)
    requires FairLevel(c, p, P) && NextVisit(c, c', p, P, w) && Left(c, p, P) == 0
    ensures FairLevel(c', p, P) && c'.ticks == c.ticks + 1 && MovedBehind(Level(c, p), Level(c', p))
  {
    hide SelectLevel, FairLevel, Left, Follows, MovedBehind, Level, Inv, RoomAt;
    RotatedThenPicked(c, p, P, w);
    FairAcross(SelectLevel(c, p).0, c', p, P);
    FairNotEmpty(c, p, P);
    RotatedIsBehind(Level(c, p), Level(c', p));
  }

  // ---------------------------------------------------------------- consecutive ticks

  ghost predicate VisitAt(cs: seq<Cpu>, p: Priority, P: nat, w: nat, i: nat)
    requires i + 1 < |cs|
  {
    NextVisit(cs[i], cs[i + 1], p, P, w)
  }

  /** A run of visits of level p at consecutive ticks. */
  ghost predicate Visits(cs: seq<Cpu>, p: Priority, P: nat, w: nat) {
    && cs != [] && FairLevel(cs[0], p, P)
    && forall i {:trigger VisitAt(cs, p, P, w, i)} :: 0 <= i < |cs| - 1 ==> VisitAt(cs, p, P, w, i)
  }

  lemma VisitsDrop(cs: seq<Cpu>, p: Priority, P: nat, w: nat, i: nat)
    requires Visits(cs, p, P, w) && i < |cs| && FairLevel(cs[i], p, P)
    ensures Visits(cs[i..], p, P, w)
  {
    hide NextVisit, FairLevel;
    forall k | 0 <= k < |cs[i..]| - 1 ensures VisitAt(cs[i..], p, P, w, k) {
      assert VisitAt(cs, p, P, w, i + k);
    }
  }

  /** The first visit of a run, and what is left of the run after it. */
  lemma FirstVisit(cs: seq<Cpu>, p: Priority, P: nat, w: nat)
    requires Visits(cs, p, P, w) && |cs| > 1
    ensures Visits(cs[1..], p, P, w) && cs[1].ticks == cs[0].ticks + 1
    ensures Left(cs[0], p, P) > 0 ==> Level(cs[0], p) <= Level(cs[1], p) && Left(cs[1], p, P) + 1 == Left(cs[0], p, P)
    ensures Left(cs[0], p, P) == 0 ==> MovedBehind(Level(cs[0], p), Level(cs[1], p))
  {
    hide NextVisit, FairLevel, Left, MovedBehind;
    assert VisitAt(cs, p, P, w, 0);
    if Left(cs[0], p, P) > 0 {
      StepKeepsHead(cs[0], cs[1], p, P, w);
    } else {
      StepRotates(cs[0], cs[1], p, P, w);
    }
    VisitsDrop(cs, p, P, w, 1);
  }

  /** The head keeps its place for exactly Left visits and loses it at the next one: it goes behind the threads that
      were waiting, and the second of them is the new head. */
  lemma {:induction false} HeadRotatesAt(cs: seq<Cpu>, p: Priority, P: nat, w: nat, i: nat)
    requires Visits(cs, p, P, w) && i < |cs| && i <= Left(cs[0], p, P) + 1
    ensures FairLevel(cs[i], p, P) && cs[i].ticks == cs[0].ticks + i
    ensures i <= Left(cs[0], p, P) ==> Level(cs[0], p) <= Level(cs[i], p)
    ensures i == Left(cs[0], p, P) + 1 ==> MovedBehind(Level(cs[0], p), Level(cs[i], p))
    decreases i
  {
    hide FairLevel, Left, MovedBehind;
    if i > 0 {
      FirstVisit(cs, p, P, w);
      if Left(cs[0], p, P) > 0 {
        HeadRotatesAt(cs[1..], p, P, w, i - 1);
        if i == Left(cs[0], p, P) + 1 {
          FairNotEmpty(cs[0], p, P);
          MovedBehindPrefix(Level(cs[0], p), Level(cs[1], p), Level(cs[i], p));
        }
      }
    }
  }

  lemma FairNotEmpty(c: Cpu, p: Priority, P: nat)
    requires FairLevel(c, p, P)
    ensures |Level(c, p)| >= 2
  {
  }

  lemma VisitsStart(cs: seq<Cpu>, p: Priority, P: nat, w: nat)
    requires Visits(cs, p, P, w)
    ensures cs != [] && FairLevel(cs[0], p, P)
  {
  }

  lemma OneRound(P: nat, k: nat)
    requires k > 0
    ensures 2 * P * k == 2 * P * (k - 1) + 2 * P && 2 * P * (k - 1) >= 0
  {
  }

  /** Bounded wait: the thread at position k is head of its level within 2 * P * k ticks. */
  lemma {:induction false} HeadWithin(cs: seq<Cpu>, p: Priority, P: nat, w: nat, k: nat) returns (j: nat)
    requires Visits(cs, p, P, w) && k < |Level(cs[0], p)| && |cs| > 2 * P * k
    ensures j <= 2 * P * k && j < |cs|
    ensures FairLevel(cs[j], p, P) && cs[j].ticks == cs[0].ticks + j && Level(cs[j], p)[0] == Level(cs[0], p)[k]
    decreases k
  {
    hide FairLevel, Left, Visits, Level;
    VisitsStart(cs, p, P, w);
    if k == 0 {
      j := 0;
    } else {
      OneRound(P, k);
      var r := Left(cs[0], p, P);
      assert r < 2 * P;
      HeadRotatesAt(cs, p, P, w, r + 1);
      VisitsDrop(cs, p, P, w, r + 1);
      assert Level(cs[r + 1], p)[k - 1] == Level(cs[0], p)[1..][k - 1];
      var i := HeadWithin(cs[r + 1..], p, P, w, k - 1);
      j := r + 1 + i;
    }
  }
}
