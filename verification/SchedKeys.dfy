/** Stored orders over runs: the heaps file every thread under its deadline or release time, except one that
    balance_node found alone in its heap. */
module SchedKeys {
  import opened Wrapped
  import opened ThreadTypes
  import opened HeapOps
  import opened HeapKeys
  import opened SchedState
  import opened Sched
  import opened SchedLaws

  function Deadlines(c: Cpu): map<nat, nat> {
    map t | t in c.tcb :: c.tcb[t].deadline
  }

  function Releases(c: Cpu): map<nat, nat> {
    map t | t in c.tcb :: c.tcb[t].release
  }

  ghost predicate KeysOk(c: Cpu) {
    Keyed(c.dead, Deadlines(c)) && Keyed(c.rel, Releases(c))
  }

  /** The stale threads of the two heaps. */
  datatype Stale = Stale(dead: set<nat>, rel: set<nat>)

  function StaleOf(c: Cpu): Stale {
    Stale(StaleIn(c.dead, Deadlines(c)), StaleIn(c.rel, Releases(c)))
  }

  /** The move keeps the keys in order and leaves exactly l stale. */
  ghost predicate KeysLeft(c: Cpu, r: Cpu, l: Stale) {
    KeysOk(c) ==> KeysOk(r) && StaleOf(r) == l
  }

  lemma HeapOnce(c: Cpu, p: Place, s: seq<Node>, i: nat, j: nat)
    requires Partitioned(c) && (p == AtDead || p == AtRel) && s == (if p == AtDead then c.dead else c.rel)
    requires i < |s| && j < |s| && i != j
    ensures s[i].thread != s[j].thread
  {
    var q := Threads(s);
    if i < j {
      TwiceQueued(q, i, j);
    } else {
      TwiceQueued(q, j, i);
    }
    LiveOnce(c, q[i]);
    assert Held(SpreadOf(c), p)[q[i]] <= Total(SpreadOf(c))[q[i]];
  }

  lemma HeldLive(c: Cpu, p: Place, t: nat)
    requires Partitioned(c) && Holds(c, p, t)
    ensures t in c.tcb && t != c.main
  {
    OnlyPlace(c, p, p, t);
  }

  /** Threads of the heaps other than t have the same times before and after a step that rewrites only t. */
  lemma OthersSame(c: Cpu, r: Cpu, t: nat)
    requires Partitioned(c) && forall u :: u in c.tcb && u != t ==> u in r.tcb && r.tcb[u] == c.tcb[u]
    ensures forall u {:trigger Same(Deadlines(c), Deadlines(r), u)} :: u in Threads(c.dead) && u != t ==> Same(Deadlines(c), Deadlines(r), u)
    ensures forall u {:trigger Same(Releases(c), Releases(r), u)} :: u in Threads(c.rel) && u != t ==> Same(Releases(c), Releases(r), u)
  {
    forall u | u in Threads(c.dead) ensures u in c.tcb {
      assert Holds(c, AtDead, u);
      HeldLive(c, AtDead, u);
    }
    forall u | u in Threads(c.rel) ensures u in c.tcb {
      assert Holds(c, AtRel, u);
      HeldLive(c, AtRel, u);
    }
  }

  /** A step that leaves both heaps' nodes and their threads' times alone. */
  lemma CalmKeys(c: Cpu, r: Cpu, t: nat)
    requires Partitioned(c) && r.dead == c.dead && r.rel == c.rel
    requires forall u :: u in c.tcb && u != t ==> u in r.tcb && r.tcb[u] == c.tcb[u]
    requires t in Threads(c.dead) ==> t in c.tcb && t in r.tcb && r.tcb[t].deadline == c.tcb[t].deadline
    requires t in Threads(c.rel) ==> t in c.tcb && t in r.tcb && r.tcb[t].release == c.tcb[t].release
    ensures KeysLeft(c, r, StaleOf(c))
  {
    OthersSame(c, r, t);
    assert t in Threads(c.dead) ==> Same(Deadlines(c), Deadlines(r), t);
    assert t in Threads(c.rel) ==> Same(Releases(c), Releases(r), t);
    if KeysOk(c) {
      KeysSame(c.dead, Deadlines(c), r.dead, Deadlines(r));
      KeysSame(c.rel, Releases(c), r.rel, Releases(r));
    }
  }

  // ---------------------------------------------------------------- the moves of next_up

  lemma AdmitHeaps(c: Cpu)
    requires c.incoming != [] && c.incoming[0] in c.tcb
    ensures var (t, r) := (c.incoming[0], AdmitOne(c)); var x := Admitted(c.tcb[t], c.ticks);
            && r.tcb == c.tcb[t := x] && r.rel == c.rel
            && r.dead == if x.periodicity == PERSISTENT then c.dead else Insert(c.dead, Node(x.deadline, t))
  {
  }

  lemma AdmitOneKeys(c: Cpu)
    requires Inv(c) && Room(c) && c.incoming != []
    ensures c.incoming[0] in c.tcb && KeysLeft(c, AdmitOne(c), StaleOf(c))
  {
    AdmitOneOk(c);
    AdmitHeaps(c);
    hide AdmitOne, Room;
    var t, r := c.incoming[0], AdmitOne(c);
    assert Holds(c, AtIncoming, t);
    NotInHeap(c, AtIncoming, t);
    if c.tcb[t].periodicity == PERSISTENT {
      CalmKeys(c, r, t);
    } else if KeysOk(c) {
      OthersSame(c, r, t);
      KeysInsert(c.dead, Deadlines(c), Deadlines(r), Node(r.tcb[t].deadline, t));
      KeysSame(c.rel, Releases(c), r.rel, Releases(r));
    }
  }

  /** The release heap's head leaves it, and its stale set. */
  function ReleaseStale(c: Cpu, l: Stale): Stale
    requires c.rel != []
  {
    l.(rel := l.rel - {c.rel[0].thread})
  }

  lemma ReleaseOneKeys(c: Cpu)
    requires Inv(c) && Room(c) && HeadDue(c)
    ensures KeysLeft(c, ReleaseOne(c), ReleaseStale(c, StaleOf(c)))
  {
    var t, r := c.rel[0].thread, ReleaseOne(c);
    RelHeadGone(c);
    OthersSame(c, r, t);
    if KeysOk(c) {
      RemoveHeadPerm(c.rel);
      KeysRemove(c.rel, Releases(c), r.rel, Releases(r), c.rel[0]);
      KeysInsert(c.dead, Deadlines(c), Deadlines(r), Node(r.tcb[t].deadline, t));
    }
  }

  lemma FewerThreads(s: seq<Node>, e: seq<Node>, t: nat)
    requires multiset(Threads(s)) == multiset(Threads(e)) + multiset{t}
    ensures forall u :: u in Threads(e) ==> u in Threads(s)
    ensures multiset(Threads(s))[t] <= 1 ==> t !in Threads(e)
  {
    forall u | u in Threads(e) ensures u in Threads(s) {
      assert u in multiset(Threads(e)) && u in multiset(Threads(s));
    }
    assert t in Threads(e) ==> multiset(Threads(e))[t] >= 1;
  }

  lemma RelHeadGone(c: Cpu)
    requires Partitioned(c) && c.rel != []
    ensures var t := c.rel[0].thread;
            t in c.tcb && t !in Threads(c.dead) && t !in Threads(RemoveHead(c.rel))
    ensures forall u :: u in Threads(RemoveHead(c.rel)) ==> u in Threads(c.rel)
  {
    var t := c.rel[0].thread;
    InThreads(c.rel, c.rel[0]);
    assert Holds(c, AtRel, t);
    HeldLive(c, AtRel, t);
    NotInHeap(c, AtRel, t);
    RemoveHeadPerm(c.rel);
    LiveOnce(c, t);
    assert multiset(Threads(c.rel))[t] <= Total(SpreadOf(c))[t];
    FewerThreads(c.rel, RemoveHead(c.rel), t);
  }

  lemma DeadHeadGone(c: Cpu)
    requires Partitioned(c) && c.dead != []
    ensures var t := c.dead[0].thread;
            t in c.tcb && t !in Threads(c.rel) && t !in Threads(RemoveHead(c.dead))
    ensures forall u :: u in Threads(RemoveHead(c.dead)) ==> u in Threads(c.dead)
  {
    var t := c.dead[0].thread;
    InThreads(c.dead, c.dead[0]);
    assert Holds(c, AtDead, t);
    HeldLive(c, AtDead, t);
    NotInHeap(c, AtDead, t);
    RemoveHeadPerm(c.dead);
    LiveOnce(c, t);
    assert multiset(Threads(c.dead))[t] <= Total(SpreadOf(c))[t];
    FewerThreads(c.dead, RemoveHead(c.dead), t);
  }

  /** Re-arming in place makes the head stale exactly when it is alone in the heap; otherwise it is filed afresh. */
  function RearmStale(c: Cpu, l: Stale): Stale
    requires HeadFinished(c, PERIODIC) && c.tcb[c.dead[0].thread].period > 0
  {
    var t := c.dead[0].thread;
    if |c.dead| == 1 && !LtWrapped(c.ticks, Rearmed(c.tcb[t], c.ticks).release) then l.(dead := l.dead + {t})
    else l.(dead := l.dead - {t})
  }

  lemma RearmOneKeys(c: Cpu)
    requires Inv(c) && Room(c) && HeadFinished(c, PERIODIC) && c.tcb[c.dead[0].thread].period > 0
    ensures KeysLeft(c, RearmOne(c), RearmStale(c, StaleOf(c)))
  {
    var t, r := c.dead[0].thread, RearmOne(c);
    var x := Rearmed(c.tcb[t], c.ticks);
    DeadHeadGone(c);
    OthersSame(c, r, t);
    if KeysOk(c) {
      if LtWrapped(c.ticks, x.release) {
        RemoveHeadPerm(c.dead);
        KeysRemove(c.dead, Deadlines(c), r.dead, Deadlines(r), c.dead[0]);
        KeysInsert(c.rel, Releases(c), Releases(r), Node(x.release, t));
      } else {
        KeysSame(c.rel, Releases(c), r.rel, Releases(r));
        RearmInPlace(c);
      }
    }
  }

  lemma RearmInPlace(c: Cpu)
    requires Inv(c) && HeadFinished(c, PERIODIC) && c.tcb[c.dead[0].thread].period > 0 && KeysOk(c)
    requires !LtWrapped(c.ticks, Rearmed(c.tcb[c.dead[0].thread], c.ticks).release)
    ensures var r := RearmOne(c);
            Keyed(r.dead, Deadlines(r)) && StaleIn(r.dead, Deadlines(r)) == RearmStale(c, StaleOf(c)).dead
  {
    var t, r := c.dead[0].thread, RearmOne(c);
    var x := Rearmed(c.tcb[t], c.ticks);
    OthersSame(c, r, t);
    if |c.dead| == 1 {
      KeysAlone(c.dead, Deadlines(c), Deadlines(r), x.deadline);
      forall u | u in StaleIn(c.dead, Deadlines(c)) ensures u == t {
        var n :| n in c.dead && n.thread == u;
        assert n == c.dead[0];
      }
      assert StaleIn(c.dead, Deadlines(c)) + {t} == {t};
    } else {
      forall j | 0 < j < |c.dead| ensures c.dead[j].thread != t {
        HeapOnce(c, AtDead, c.dead, j, 0);
      }
      KeysRekey(c.dead, Deadlines(c), Deadlines(r), 0, x.deadline);
    }
  }

  function RetireStale(c: Cpu, l: Stale): Stale
    requires c.dead != []
  {
    l.(dead := l.dead - {c.dead[0].thread})
  }

  lemma RetireOneKeys(c: Cpu)
    requires Inv(c) && Room(c) && HeadFinished(c, APERIODIC)
    ensures KeysLeft(c, RetireOne(c), RetireStale(c, StaleOf(c)))
  {
    var t, r := c.dead[0].thread, RetireOne(c);
    DeadHeadGone(c);
    OthersSame(c, r, t);
    if KeysOk(c) {
      RemoveHeadPerm(c.dead);
      KeysRemove(c.dead, Deadlines(c), r.dead, Deadlines(r), c.dead[0]);
      KeysSame(c.rel, Releases(c), r.rel, Releases(r));
    }
  }

  lemma PickDeadKeys(c: Cpu)
    requires Inv(c) && Room(c) && c.dead != []
    ensures c.dead[0].thread in c.tcb && KeysLeft(c, PickDead(c), StaleOf(c))
  {
    DeadHeadGone(c);
    CalmKeys(c, PickDead(c), c.dead[0].thread);
  }

  lemma LevelKeys(c: Cpu, p: Priority)
    requires Inv(c) && Room(c) && Level(c, p) != []
    ensures Level(c, p)[0] in c.tcb
    ensures KeysLeft(c, RetireFromLevel(c, p), StaleOf(c))
    ensures KeysLeft(c, RotateLevel(c, p), StaleOf(c)) && KeysLeft(c, PickLevel(c, p), StaleOf(c))
  {
    LevelHeadOk(c, p);
    var t := Level(c, p)[0];
    NotInHeap(c, AtLevel(p), t);
    CalmKeys(c, RetireFromLevel(c, p), t);
    CalmKeys(c, RotateLevel(c, p), t);
    CalmKeys(c, PickLevel(c, p), t);
  }

  lemma ReapOneKeys(c: Cpu)
    requires Inv(c) && Room(c) && c.outgoing != []
    ensures c.outgoing[0] in c.tcb && KeysLeft(c, ReapOne(c), StaleOf(c))
  {
    ReapOneOk(c);
    var t := c.outgoing[0];
    assert Holds(c, AtOutgoing, t);
    NotInHeap(c, AtOutgoing, t);
    CalmKeys(c, ReapOne(c), t);
  }
}
