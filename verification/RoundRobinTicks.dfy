/** Round robin over runs of a core: the visits of its busiest level are what consecutive timer ticks make, while threads
    sleep, arrive and die around it. */
module RoundRobinTicks {
  import opened Words
  import opened Wrapped
  import opened ThreadTypes
  import Ops = HeapOps
  import opened SchedState
  import opened SchedMoves
  import opened Sched
  import opened SchedLaws
  import opened SchedChoice
  import opened SchedRuns
  import opened RoundRobin
  import Steps = SchedSteps
  import Susp = SchedSuspend

  // ---------------------------------------------------------------- one decision

  /** No thread outranks level p: the deadline heap and the levels above it are empty. */
  predicate Busiest(c: Cpu, p: Priority) {
    c.dead == [] && (p != HIGH_PRIORITY ==> c.high == []) && (p == LOW_PRIORITY ==> c.med == [])
  }

  /** The decision is the pass over level p, and then possibly reaping. */
  lemma DispatchVisits(a: Cpu, p: Priority, lockFree: bool)
    requires Inv(a) && Room(a) && Busiest(Prepared(a), p) && SelectLevel(Prepared(a), p).1
    ensures var d := SelectLevel(Prepared(a), p).0; Dispatch(a, lockFree) == if lockFree then ReapAll(d) else d
  {
    hide SelectLevel, ReapAll, Admit, ReleaseDue;
    var c := Prepared(a);
    assert SelectDead(c) == (c, false);
    if p != HIGH_PRIORITY {
      EmptyLevel(c, HIGH_PRIORITY);
      if p == LOW_PRIORITY {
        EmptyLevel(c, MED_PRIORITY);
      }
    }
  }

  lemma LevelThread(c: Cpu, p: Priority, i: nat)
    requires Inv(c) && i < |Level(c, p)|
    ensures Level(c, p)[i] in c.tcb && Holds(c, AtLevel(p), Level(c, p)[i])
  {
    assert Holds(c, AtLevel(p), Level(c, p)[i]);
    HeldInTotal(SpreadOf(c), AtLevel(p), Level(c, p)[i]);
    LiveOnce(c, Level(c, p)[i]);
  }

  /** A thread of level p is in no other container. */
  lemma OnlyInLevel(c: Cpu, p: Priority, i: nat, q: Place, t: nat)
    requires Inv(c) && i < |Level(c, p)| && q != AtLevel(p) && Holds(c, q, t)
    ensures Level(c, p)[i] != t
  {
    LevelThread(c, p, i);
    if Level(c, p)[i] == t {
      OnlyPlace(c, AtLevel(p), q, t);
    }
  }

  // ---------------------------------------------------------------- newcomers

  predicate Joins(x: Tcb, p: Priority) {
    x.periodicity == PERSISTENT && x.priority == p
  }

  /** The threads of q that admission puts into level p, in their order. */
  function Joiners(m: map<nat, Tcb>, q: seq<nat>, p: Priority): seq<nat> {
    if q == [] then []
    else (if q[0] in m && Joins(m[q[0]], p) then [q[0]] else []) + Joiners(m, q[1..], p)
  }

  predicate NewcomerFits(m: map<nat, Tcb>, t: nat, p: Priority, P: nat) {
    t in m && (Joins(m[t], p) ==> m[t].period == P && m[t].landed == 0)
  }

  /** Whoever is about to join level p has slices of P ticks and is uncharged. */
  predicate NewcomersFit(c: Cpu, p: Priority, P: nat) {
    forall i {:trigger c.incoming[i]} :: 0 <= i < |c.incoming| ==> NewcomerFits(c.tcb, c.incoming[i], p, P)
  }

  ghost predicate SameInLevel(c: Cpu, r: Cpu, p: Priority, i: nat)
    requires i < |Level(c, p)|
  {
    var t := Level(c, p)[i];
    t in c.tcb && t in r.tcb && r.tcb[t] == c.tcb[t]
  }

  /** The threads of level p stay in front and as they were; those behind them are fresh. */
  ghost predicate Grows(c: Cpu, r: Cpu, p: Priority, P: nat) {
    && r.ticks == c.ticks && Level(c, p) <= Level(r, p)
    && (forall i {:trigger SameInLevel(c, r, p, i)} :: 0 <= i < |Level(c, p)| ==> SameInLevel(c, r, p, i))
    && (forall i {:trigger FreshAt(r, p, P, i)} :: |Level(c, p)| <= i < |Level(r, p)| ==> FreshAt(r, p, P, i))
  }

  /** As admission leaves a thread of the level. */
  predicate FreshAt(r: Cpu, p: Priority, P: nat, i: nat)
    requires i < |Level(r, p)|
  {
    var t := Level(r, p)[i];
    t in r.tcb && r.tcb[t].status == PENDING && r.tcb[t].period == P && r.tcb[t].landed == 0
    && r.tcb[t].release == r.ticks && r.tcb[t].deadline == Add32(r.ticks, P)
  }

  lemma GrowsAgain(a: Cpu, b: Cpu, c: Cpu, p: Priority, P: nat)
    requires Grows(a, b, p, P) && Grows(b, c, p, P)
    ensures Grows(a, c, p, P)
  {
    forall i | 0 <= i < |Level(a, p)| ensures SameInLevel(a, c, p, i) {
      assert SameInLevel(a, b, p, i) && SameInLevel(b, c, p, i);
    }
    forall i | |Level(a, p)| <= i < |Level(c, p)| ensures FreshAt(c, p, P, i) {
      if i < |Level(b, p)| {
        assert FreshAt(b, p, P, i) && SameInLevel(b, c, p, i);
      }
    }
  }

  lemma AdmitOneShape(c: Cpu, p: Priority)
    requires c.incoming != [] && c.incoming[0] in c.tcb
    ensures var (t, r) := (c.incoming[0], AdmitOne(c));
            && r.tcb == c.tcb[t := Admitted(c.tcb[t], c.ticks)] && r.ticks == c.ticks && r.incoming == c.incoming[1..]
            && Level(r, p) == Level(c, p) + if Joins(c.tcb[t], p) then [t] else []
  {
  }

  lemma AdmitOneGrows(c: Cpu, p: Priority, P: nat)
    requires Inv(c) && Room(c) && c.incoming != [] && NewcomersFit(c, p, P)
    ensures Grows(c, AdmitOne(c), p, P) && NewcomersFit(AdmitOne(c), p, P)
  {
    AdmitOneShape(c, p);
    hide AdmitOne, Level, Room;
    var t, r := c.incoming[0], AdmitOne(c);
    assert Holds(c, AtIncoming, t);
    forall i | 0 <= i < |Level(c, p)| ensures SameInLevel(c, r, p, i) {
      OnlyInLevel(c, p, i, AtIncoming, t);
      LevelThread(c, p, i);
    }
    forall i | 0 <= i < |r.incoming| ensures NewcomerFits(r.tcb, r.incoming[i], p, P) {
      assert r.incoming[i] == c.incoming[i + 1];
    }
  }

  lemma {:induction false} JoinersSame(m: map<nat, Tcb>, k: map<nat, Tcb>, q: seq<nat>, p: Priority)
    requires forall t {:trigger t in m} {:trigger t in k} :: (t in m <==> t in k) && (t in m ==> Joins(m[t], p) == Joins(k[t], p))
    ensures Joiners(m, q, p) == Joiners(k, q, p)
  {
    if q != [] {
      JoinersSame(m, k, q[1..], p);
    }
  }

  /** Admission puts exactly the joiners, in order and fresh, behind the threads of the level. */
  lemma {:induction false} AdmitGrows(c: Cpu, p: Priority, P: nat)
    requires Inv(c) && Room(c) && NewcomersFit(c, p, P)
    ensures Grows(c, Admit(c), p, P) && Level(Admit(c), p) == Level(c, p) + Joiners(c.tcb, c.incoming, p)
    decreases |c.incoming|
  {
    hide Inv, Room, NewcomersFit, Level, AdmitOne, Admitted, Grows, Joins;
    if c.incoming == [] {
      NothingGrows(c, p, P);
    } else {
      AdmitOneOk(c);
      AdmitOneShape(c, p);
      AdmitOneGrows(c, p, P);
      AdmitGrows(AdmitOne(c), p, P);
      GrowsAgain(c, AdmitOne(c), Admit(AdmitOne(c)), p, P);
      AdmittedJoins(c.tcb[c.incoming[0]], c.ticks, p);
      JoinersSame(c.tcb, AdmitOne(c).tcb, c.incoming[1..], p);
      var t, rest := c.incoming[0], Joiners(c.tcb, c.incoming[1..], p);
      var first := if Joins(c.tcb[t], p) then [t] else [];
      assert Level(c, p) + first + rest == Level(c, p) + (first + rest);
    }
  }

  lemma AdmittedJoins(x: Tcb, ticks: nat, p: Priority)
    ensures Joins(Admitted(x, ticks), p) == Joins(x, p)
  {
  }

  lemma NothingGrows(c: Cpu, p: Priority, P: nat)
    requires Inv(c)
    ensures Grows(c, c, p, P)
  {
    forall i | 0 <= i < |Level(c, p)| ensures SameInLevel(c, c, p, i) {
      LevelThread(c, p, i);
    }
  }

  lemma ReleaseOneGrows(c: Cpu, p: Priority, P: nat)
    requires Inv(c) && Room(c) && HeadDue(c)
    ensures Grows(c, ReleaseOne(c), p, P) && Level(ReleaseOne(c), p) == Level(c, p)
  {
    hide Room;
    var t, r := c.rel[0].thread, ReleaseOne(c);
    assert t == Ops.Threads(c.rel)[0];
    assert Holds(c, AtRel, t);
    forall i | 0 <= i < |Level(c, p)| ensures SameInLevel(c, r, p, i) {
      OnlyInLevel(c, p, i, AtRel, t);
      LevelThread(c, p, i);
    }
  }

  /** Releases leave the level alone. */
  lemma {:induction false} ReleaseGrows(c: Cpu, p: Priority, P: nat)
    requires Inv(c) && Room(c)
    ensures Grows(c, ReleaseDue(c), p, P) && Level(ReleaseDue(c), p) == Level(c, p)
    decreases |c.rel|
  {
    hide Inv, Room, Level, ReleaseOne;
    if HeadDue(c) {
      ReleaseOneOk(c);
      ReleaseOneGrows(c, p, P);
      ReleaseShorter(c);
      ReleaseGrows(ReleaseOne(c), p, P);
      GrowsAgain(c, ReleaseOne(c), ReleaseDue(ReleaseOne(c)), p, P);
    } else {
      NothingGrows(c, p, P);
    }
  }

  lemma ReleaseShorter(c: Cpu)
    requires HeadDue(c)
    ensures |ReleaseOne(c).rel| < |c.rel|
  {
  }

  lemma PreparedGrows(a: Cpu, p: Priority, P: nat)
    requires Inv(a) && Room(a) && NewcomersFit(a, p, P)
    ensures Grows(a, Prepared(a), p, P) && Level(Prepared(a), p) == Level(a, p) + Joiners(a.tcb, a.incoming, p)
    ensures Prepared(a).incoming == []
  {
    hide Grows, Admit, ReleaseDue;
    AdmitGrows(a, p, P);
    ReleaseGrows(Admit(a), p, P);
    GrowsAgain(a, Admit(a), Prepared(a), p, P);
  }

  /** The bounded wait applies to what admission produces: two or more newcomers to an empty level of slices of P ticks
      leave it fair. */
  lemma AdmissionIsFair(a: Cpu, w: nat, p: Priority, P: nat)
    requires Inv(a) && RoomAt(a, w) && Level(a, p) == [] && NewcomersFit(a, p, P) && P >= 2
    requires |Joiners(a.tcb, a.incoming, p)| >= 2
    ensures Room(a) && FairLevel(Prepared(a), p, P) && Level(Prepared(a), p) == Joiners(a.tcb, a.incoming, p)
  {
    hide Prepared, Joiners, Grows, Inv, RoomAt;
    assert Room(a);
    PreparedGrows(a, p, P);
    FreshIsFair(a, Prepared(a), w, p, P);
  }

  lemma FreshIsFair(a: Cpu, c: Cpu, w: nat, p: Priority, P: nat)
    requires Inv(c) && RoomAt(c, w) && Level(a, p) == [] && Grows(a, c, p, P) && |Level(c, p)| >= 2 && P >= 2
    ensures FairLevel(c, p, P)
  {
    forall i | 0 <= i < |Level(c, p)| ensures QueuedOk(c, p, P, i) {
      assert FreshAt(c, p, P, i);
    }
    assert FreshAt(c, p, P, 0);
    var x := c.tcb[Level(c, p)[0]];
    LevelHead(c, p, w);
    VisitsLeftBounds(x, c.ticks, P);
  }

  // ---------------------------------------------------------------- between two decisions

  /** From the level as a pass left it on: the queue and its threads are left alone, and newcomers wait to join. */
  ghost predicate Between(d: Cpu, s: Cpu, p: Priority, P: nat) {
    && Level(s, p) == Level(d, p) && s.ticks == d.ticks && NewcomersFit(s, p, P)
    && (forall i {:trigger StillQueued(d, s, p, i)} :: 0 <= i < |Level(d, p)| ==> StillQueued(d, s, p, i))
  }

  /** Threads of level p after reaping: as they were. */
  lemma ReapUntouched(d: Cpu, p: Priority, i: nat)
    requires Inv(d) && Room(d) && i < |Level(d, p)|
    ensures SameInLevel(d, ReapAll(d), p, i)
  {
    hide ReapAll;
    ReapAllFrees(d);
    var t := Level(d, p)[i];
    LevelThread(d, p, i);
    if t in d.outgoing {
      assert Holds(d, AtOutgoing, t);
      OnlyPlace(d, AtLevel(p), AtOutgoing, t);
    }
  }

  lemma PrimeLevel(e: Cpu, p: Priority, t: nat)
    requires e.curr in e.tcb
    ensures var r := Prime(e);
            && Level(r, p) == Level(e, p) && r.ticks == e.ticks && r.incoming == e.incoming && r.tcb.Keys == e.tcb.Keys
            && (t in e.tcb ==> Undisturbed(e.tcb[t], r.tcb[t]))
  {
  }

  lemma ReapLevel(d: Cpu, lockFree: bool, p: Priority)
    requires Inv(d) && Room(d)
    ensures var e := if lockFree then ReapAll(d) else d;
            && Level(e, p) == Level(d, p) && e.ticks == d.ticks && e.incoming == d.incoming
            && forall i {:trigger SameInLevel(d, e, p, i)} :: 0 <= i < |Level(d, p)| ==> SameInLevel(d, e, p, i)
  {
    hide ReapAll;
    var e := if lockFree then ReapAll(d) else d;
    forall i | 0 <= i < |Level(d, p)| ensures SameInLevel(d, e, p, i) {
      ReapUntouched(d, p, i);
      LevelThread(d, p, i);
    }
  }

  /** Right after a decision. */
  lemma DecidedBetween(a: Cpu, p: Priority, P: nat, lockFree: bool)
    requires Inv(a) && Room(a) && NewcomersFit(a, p, P) && Busiest(Prepared(a), p) && SelectLevel(Prepared(a), p).1
    requires Dispatch(a, lockFree).curr in Dispatch(a, lockFree).tcb
    ensures Between(SelectLevel(Prepared(a), p).0, Prime(Dispatch(a, lockFree)), p, P)
  {
    hide SelectLevel, ReapAll, Dispatch, Prime, Prepared, Inv, Room, Level, Undisturbed;
    PreparedGrows(a, p, P);
    DispatchVisits(a, p, lockFree);
    SelectLevelFrame(Prepared(a), p, p);
    var d, e := SelectLevel(Prepared(a), p).0, Dispatch(a, lockFree);
    ReapLevel(d, lockFree, p);
    PrimeLevel(e, p, 0);
    forall i | 0 <= i < |Level(d, p)| ensures StillQueued(d, Prime(e), p, i) {
      assert SameInLevel(d, e, p, i);
      PrimeLevel(e, p, Level(d, p)[i]);
    }
  }

  /** What an event between two ticks may be: new threads arrive, threads of other containers are killed or suspended.
      A persistent thread has a fixed slice, so one may join only a level of that slice. */
  predicate LeavesLevel(c: Cpu, e: Event, p: Priority, P: nat) {
    match e
    case Enqueue(_, _, _, k) => k != PERSISTENT
    case EnqueuePersistent(_, _, q) => q == p ==> P == PERSISTENT_SLICE_TICKS
    case Kill(t) => t !in Level(c, p)
    case Suspend(t, _, ownCore, _) => t !in Level(c, p) && !(ownCore && t == c.curr)
    case Tick(_, _, _) => true
    case Exit(_) => false
  }

  /** One thread outside the level is rewritten, or a new one enqueued, and it fits. */
  lemma RewriteBetween(d: Cpu, s: Cpu, r: Cpu, t: nat, p: Priority, P: nat)
    requires Between(d, s, p, P) && t !in Level(s, p) && Level(r, p) == Level(s, p) && r.ticks == s.ticks
    requires t in r.tcb && r.tcb == s.tcb[t := r.tcb[t]] && (r.incoming == s.incoming || r.incoming == s.incoming + [t])
    requires t in r.incoming ==> NewcomerFits(r.tcb, t, p, P)
    ensures Between(d, r, p, P)
  {
    forall i | 0 <= i < |Level(d, p)| ensures StillQueued(d, r, p, i) {
      assert StillQueued(d, s, p, i);
      assert Level(s, p)[i] != t;
    }
    forall i | 0 <= i < |r.incoming| ensures NewcomerFits(r.tcb, r.incoming[i], p, P) {
      if r.incoming[i] != t {
        assert r.incoming[i] == s.incoming[i];
      }
    }
  }

  lemma FreshNotQueued(s: Cpu, p: Priority, t: nat)
    requires Inv(s) && t !in s.tcb
    ensures t !in Level(s, p)
  {
    forall i | 0 <= i < |Level(s, p)| ensures Level(s, p)[i] != t {
      LevelThread(s, p, i);
    }
  }

  /** An arrival changes nothing, or puts a new thread that fits at the end of the incoming FIFO. */
  lemma ArrivalShape(s: Cpu, e: Event, p: Priority, P: nat)
    requires Sys(s) && Enabled(s, e) && LeavesLevel(s, e, p, P) && (e.Enqueue? || e.EnqueuePersistent?)
    ensures var r := Apply(s, e);
            && e.t !in s.tcb
            && (r != s ==>
                  && Level(r, p) == Level(s, p) && r.ticks == s.ticks && NewcomerFits(r.tcb, e.t, p, P)
                  && r.tcb == s.tcb[e.t := r.tcb[e.t]] && (r.incoming == s.incoming || r.incoming == s.incoming + [e.t]))
  {
    hide Inv, Room, Account;
  }

  lemma ArrivalBetween(d: Cpu, s: Cpu, e: Event, p: Priority, P: nat)
    requires Sys(s) && Enabled(s, e) && LeavesLevel(s, e, p, P) && Between(d, s, p, P)
    requires e.Enqueue? || e.EnqueuePersistent?
    ensures Between(d, Apply(s, e), p, P)
  {
    ArrivalShape(s, e, p, P);
    FreshNotQueued(s, p, e.t);
    hide Between, Room, Enabled, Sys, Apply, NewcomerFits;
    var r := Apply(s, e);
    if r != s {
      FitsIsLive(r.tcb, e.t, p, P);
      RewriteBetween(d, s, r, e.t, p, P);
    }
  }

  lemma FitsIsLive(m: map<nat, Tcb>, t: nat, p: Priority, P: nat)
    requires NewcomerFits(m, t, p, P)
    ensures t in m
  {
  }

  lemma KillBetween(d: Cpu, s: Cpu, t: nat, p: Priority, P: nat)
    requires Sys(s) && t in s.tcb && t !in Level(s, p) && Between(d, s, p, P)
    ensures Between(d, Steps.Kill(s, t), p, P)
  {
    hide Between;
    RewriteBetween(d, s, Steps.Kill(s, t), t, p, P);
  }

  lemma SuspendShape(s: Cpu, t: nat, delay: nat, p: Priority)
    requires Inv(s) && t in s.tcb && t != s.main
    ensures var r := Susp.Suspend(s, t, delay).0;
            && Level(r, p) == Level(s, p) && r.incoming == s.incoming && r.ticks == s.ticks
            && t in r.tcb && r.tcb == s.tcb[t := r.tcb[t]]
            && Joins(r.tcb[t], p) == Joins(s.tcb[t], p)
            && r.tcb[t].period == s.tcb[t].period && r.tcb[t].landed == s.tcb[t].landed
  {
    if Susp.Refused(s.tcb[t], s.ticks, delay) {
      assert s.tcb == s.tcb[t := s.tcb[t]];
    }
  }

  lemma SuspendBetween(d: Cpu, s: Cpu, t: nat, delay: nat, p: Priority, P: nat)
    requires Sys(s) && t in s.tcb && t != s.main && t !in Level(s, p) && Between(d, s, p, P)
    ensures Between(d, Susp.Suspend(s, t, delay).0, p, P)
  {
    SuspendShape(s, t, delay, p);
    var r := Susp.Suspend(s, t, delay).0;
    if t in r.incoming {
      var i :| 0 <= i < |s.incoming| && s.incoming[i] == t;
      assert NewcomerFits(s.tcb, s.incoming[i], p, P);
    }
    hide Between, Susp.Suspend;
    RewriteBetween(d, s, r, t, p, P);
  }

  lemma EventBetween(d: Cpu, s: Cpu, e: Event, p: Priority, P: nat)
    requires Sys(s) && Enabled(s, e) && LeavesLevel(s, e, p, P) && !e.Tick? && Between(d, s, p, P)
    ensures Between(d, Apply(s, e), p, P)
  {
    hide Between, Room, Inv, Susp.Suspend, Dispatch, Account;
    match e
    case Kill(t) => KillBetween(d, s, t, p, P);
    case Suspend(t, delay, _, _) => SuspendBetween(d, s, t, delay, p, P);
    case _ => ArrivalBetween(d, s, e, p, P);
  }

  // ---------------------------------------------------------------- one tick

  ghost function BeforeOf(s: Cpu, e: Event): Cpu
    requires Sys(s) && e.Tick?
  {
    BeforeTick(s, e.ci, e.ti)
  }

  /** The state in which the tick's decision visits the levels. */
  ghost function Visit(s: Cpu, e: Event): (r: Cpu)
    requires Sys(s) && Enabled(s, e) && e.Tick?
    ensures Inv(r) && Room(r)
  {
    BeforeTickKeeps(s, e.ci, e.ti);
    Prepared(BeforeOf(s, e))
  }

  lemma TickIs(s: Cpu, e: Event)
    requires Sys(s) && Enabled(s, e) && e.Tick?
    ensures var a := BeforeOf(s, e);
            && Inv(a) && Room(a) && Visit(s, e) == Prepared(a)
            && Dispatch(a, e.lockFree).curr in Dispatch(a, e.lockFree).tcb
            && Apply(s, e) == Prime(Dispatch(a, e.lockFree))
  {
    hide Inv, Room, Account, Prepared, Dispatch, Prime, BeforeTick;
    BeforeTickKeeps(s, e.ci, e.ti);
    DispatchKeeps(BeforeOf(s, e), e.lockFree);
  }

  lemma BeforeTickShape(s: Cpu, e: Event, p: Priority)
    requires Sys(s) && Enabled(s, e) && e.Tick?
    ensures var a := BeforeOf(s, e);
            && Level(a, p) == Level(s, p) && a.ticks == s.ticks + 1 && a.incoming == s.incoming && a.tcb.Keys == s.tcb.Keys
            && (forall t {:trigger t in a.tcb} :: t in a.tcb ==> Undisturbed(s.tcb[t], a.tcb[t]) && Joins(a.tcb[t], p) == Joins(s.tcb[t], p))
  {
    var c, u := s.curr, if e.ti > 0 then e.ci * 0x1_0000 / e.ti % WORD else 0;
    assert BeforeOf(s, e).tcb == s.tcb || BeforeOf(s, e).tcb == s.tcb[c := s.tcb[c].(prevU := u)];
  }

  lemma TickNewcomers(s: Cpu, e: Event, p: Priority, P: nat)
    requires Sys(s) && Enabled(s, e) && e.Tick? && NewcomersFit(s, p, P)
    ensures NewcomersFit(BeforeOf(s, e), p, P)
  {
    hide Inv, Room, Account, BeforeOf;
    BeforeTickShape(s, e, p);
  }

  lemma FreshQueued(c: Cpu, p: Priority, P: nat, i: nat)
    requires i < |Level(c, p)| && FreshAt(c, p, P, i)
    ensures QueuedOk(c, p, P, i)
  {
  }

  lemma GrowsFollows(d: Cpu, s: Cpu, a: Cpu, v: Cpu, p: Priority, P: nat)
    requires Between(d, s, p, P) && Level(a, p) == Level(s, p) && a.tcb.Keys == s.tcb.Keys && Grows(a, v, p, P)
    requires forall t {:trigger t in a.tcb} :: t in a.tcb ==> Undisturbed(s.tcb[t], a.tcb[t])
    ensures Follows(d, v, p, P)
  {
    hide Level;
    forall i | 0 <= i < |Level(d, p)| ensures StillQueued(d, v, p, i) {
      assert StillQueued(d, s, p, i) && SameInLevel(a, v, p, i);
    }
    forall i | |Level(d, p)| <= i < |Level(v, p)| ensures QueuedOk(v, p, P, i) {
      assert FreshAt(v, p, P, i);
      FreshQueued(v, p, P, i);
    }
  }

  /** The next tick's visit follows on from the pass before. */
  lemma VisitFollows(d: Cpu, s: Cpu, e: Event, p: Priority, P: nat)
    requires Sys(s) && Enabled(s, e) && e.Tick? && Between(d, s, p, P)
    ensures Follows(d, Visit(s, e), p, P) && Visit(s, e).ticks == d.ticks + 1
  {
    hide Inv, Room, Prepared, BeforeOf, Level, Enabled, Sys, Visit, StillQueued, NewcomersFit, Follows;
    TickIs(s, e);
    TickNewcomers(s, e, p, P);
    BeforeTickShape(s, e, p);
    PreparedGrows(BeforeOf(s, e), p, P);
    GrowsFollows(d, s, BeforeOf(s, e), Visit(s, e), p, P);
  }

  /** At a tick's visit no thread outranks level p. */
  ghost predicate VisitsLevel(s: Cpu, e: Event, p: Priority, w: nat)
    requires Sys(s) && Enabled(s, e) && e.Tick?
  {
    Busiest(Visit(s, e), p) && RoomAt(Visit(s, e), w)
  }

  /** After the tick, the level is as its pass left it. */
  lemma TickBetween(s: Cpu, e: Event, p: Priority, P: nat, w: nat)
    requires Sys(s) && Enabled(s, e) && e.Tick? && VisitsLevel(s, e, p, w) && NewcomersFit(s, p, P)
    requires FairLevel(Visit(s, e), p, P)
    ensures Between(SelectLevel(Visit(s, e), p).0, Apply(s, e), p, P)
  {
    hide Inv, Room, RoomAt, Account, Prepared, SelectLevel, Dispatch, Prime, BeforeOf, FairLevel, Between, NewcomersFit;
    hide Busiest, Sys, Enabled, Apply, Visit;
    TickIs(s, e);
    TickNewcomers(s, e, p, P);
    AfterPass(Visit(s, e), p, P, w);
    DecidedBetween(BeforeOf(s, e), p, P, e.lockFree);
  }

  lemma VisitIsNext(v: Cpu, s: Cpu, e: Event, p: Priority, P: nat, w: nat)
    requires Inv(v) && RoomAt(v, w) && Room(v) && FairLevel(v, p, P) && Between(SelectLevel(v, p).0, s, p, P)
    requires Sys(s) && Enabled(s, e) && e.Tick? && VisitsLevel(s, e, p, w)
    ensures NextVisit(v, Visit(s, e), p, P, w) && FairLevel(Visit(s, e), p, P)
  {
    hide Inv, Room, RoomAt, Account, SelectLevel, FairLevel, Between, Visit, Busiest, Enabled, Sys, Follows, Left, MovedBehind;
    VisitFollows(SelectLevel(v, p).0, s, e, p, P);
    if Left(v, p, P) > 0 {
      StepKeepsHead(v, Visit(s, e), p, P, w);
    } else {
      StepRotates(v, Visit(s, e), p, P, w);
    }
  }

  // ---------------------------------------------------------------- runs

  /** The visits of a run's decisions, tick by tick. */
  ghost function VisitsOf(c: Cpu, es: seq<Event>): seq<Cpu>
    requires Sys(c) && Runs(c, es)
    decreases |es|
  {
    if es == [] then []
    else (if es[0].Tick? then [Visit(c, es[0])] else []) + VisitsOf(Apply(c, es[0]), es[1..])
  }

  /** A run in which no thread outranks level p at any decision and the threads queued in it are left alone. */
  ghost predicate KeepsBusy(c: Cpu, es: seq<Event>, p: Priority, P: nat, w: nat)
    requires Sys(c) && Runs(c, es)
    decreases |es|
  {
    es == [] || (LeavesLevel(c, es[0], p, P) && (es[0].Tick? ==> VisitsLevel(c, es[0], p, w))
                 && KeepsBusy(Apply(c, es[0]), es[1..], p, P, w))
  }

  lemma VisitsCons(a: Cpu, cs: seq<Cpu>, p: Priority, P: nat, w: nat)
    requires FairLevel(a, p, P) && Visits(cs, p, P, w) && NextVisit(a, cs[0], p, P, w)
    ensures Visits([a] + cs, p, P, w)
  {
    hide NextVisit, FairLevel;
    var s := [a] + cs;
    forall i | 0 <= i < |s| - 1 ensures VisitAt(s, p, P, w, i) {
      if i > 0 {
        assert VisitAt(cs, p, P, w, i - 1);
      }
    }
  }

  /** The ticks of such a run visit the level one after the other. */
  lemma {:induction false} TicksVisit(v: Cpu, s: Cpu, es: seq<Event>, p: Priority, P: nat, w: nat)
    requires Inv(v) && RoomAt(v, w) && Room(v) && FairLevel(v, p, P) && Between(SelectLevel(v, p).0, s, p, P)
    requires Sys(s) && Runs(s, es) && KeepsBusy(s, es, p, P, w)
    ensures Visits([v] + VisitsOf(s, es), p, P, w)
    decreases |es|
  {
    hide Inv, Room, RoomAt, Account, SelectLevel, FairLevel, Between, Visit, Busiest, Enabled, Sys, Apply, NextVisit;
    hide LeavesLevel, NewcomersFit;
    if es == [] {
      assert [v] + VisitsOf(s, es) == [v];
    } else {
      var e, r := es[0], Apply(s, es[0]);
      if e.Tick? {
        var u := Visit(s, e);
        BetweenFits(SelectLevel(v, p).0, s, p, P);
        VisitIsNext(v, s, e, p, P, w);
        VisitHasRoom(s, e, p, w);
        TickBetween(s, e, p, P, w);
        TicksVisit(u, r, es[1..], p, P, w);
        VisitsCons(v, [u] + VisitsOf(r, es[1..]), p, P, w);
      } else {
        EventBetween(SelectLevel(v, p).0, s, e, p, P);
        TicksVisit(v, r, es[1..], p, P, w);
        assert VisitsOf(s, es) == VisitsOf(r, es[1..]);
      }
    }
  }

  lemma BetweenFits(d: Cpu, s: Cpu, p: Priority, P: nat)
    requires Between(d, s, p, P)
    ensures NewcomersFit(s, p, P)
  {
  }

  lemma VisitHasRoom(s: Cpu, e: Event, p: Priority, w: nat)
    requires Sys(s) && Enabled(s, e) && e.Tick? && VisitsLevel(s, e, p, w)
    ensures RoomAt(Visit(s, e), w)
  {
  }

  /** Bounded wait over runs: from a tick that visits a fair level on, as long as no thread outranks the level and its
      queued threads are left alone, the thread at position k heads the level at the visit of one of the next
      2 * P * k ticks. Other threads may sleep, arrive, be killed or be suspended meanwhile. */
  lemma HeadWithinTicks(c: Cpu, es: seq<Event>, p: Priority, P: nat, w: nat, k: nat) returns (j: nat)
    requires Sys(c) && Runs(c, es) && KeepsBusy(c, es, p, P, w) && es != [] && es[0].Tick?
    requires NewcomersFit(c, p, P) && FairLevel(Visit(c, es[0]), p, P)
    requires k < |Level(Visit(c, es[0]), p)| && |VisitsOf(c, es)| > 2 * P * k
    ensures j <= 2 * P * k && j < |VisitsOf(c, es)|
    ensures var v := VisitsOf(c, es);
            && v[0] == Visit(c, es[0]) && v[j].ticks == v[0].ticks + j
            && |Level(v[j], p)| >= 2 && Level(v[j], p)[0] == Level(v[0], p)[k]
  {
    hide Inv, Room, Account, SelectLevel, Between, Visit, Busiest, Enabled, Sys, Apply, NextVisit, LeavesLevel, NewcomersFit;
    VisitHasRoom(c, es[0], p, w);
    TickBetween(c, es[0], p, P, w);
    TicksVisit(Visit(c, es[0]), Apply(c, es[0]), es[1..], p, P, w);
    j := HeadWithin(VisitsOf(c, es), p, P, w, k);
  }
}
