/** The jobs of a thread: what sets its status to pending, and how often a missed deadline is counted. */
module SchedJobs {
  import opened Wrapped
  import opened ThreadTypes
  import opened SchedState
  import opened Sched
  import opened SchedLaws
  import opened SchedWake

  // ---------------------------------------------------------------- status and dirty flag through a decision

  /** A finished periodic thread that is pending afterwards: it was re-armed for its next job. */
  predicate Rearms(x: Tcb, y: Tcb) {
    x.status == FINISHED && x.periodicity == PERIODIC && y.status == PENDING
  }

  /** A stretch of the selection loop, as seen by a thread: nothing, or one re-arm. */
  predicate JobStep(x: Tcb, y: Tcb) {
    || (y.status == x.status && y.dirty == x.dirty)
    || (Rearms(x, y) && !y.dirty)
  }

  ghost predicate JobsStep(c: Cpu, r: Cpu, t: nat) {
    t in c.tcb ==> t in r.tcb && JobStep(c.tcb[t], r.tcb[t])
  }

  /** The selection loop up to its choice: every thread is as it was or re-armed, and no miss is counted yet. */
  ghost predicate Selects(c: Cpu, h: Cpu) {
    h.missed == c.missed && h.ticks == c.ticks && forall t {:trigger JobsStep(c, h, t)} :: JobsStep(c, h, t)
  }

  lemma SelectsThen(a: Cpu, b: Cpu, c: Cpu)
    requires Selects(a, b) && Selects(b, c) && a.tcb.Keys == b.tcb.Keys
    requires forall t :: t in a.tcb && t in b.tcb ==> b.tcb[t].periodicity == a.tcb[t].periodicity
    ensures Selects(a, c)
  {
    forall t ensures JobsStep(a, c, t) {
      assert JobsStep(a, b, t) && JobsStep(b, c, t);
    }
  }

  lemma RearmSelects(c: Cpu)
    requires HeadFinished(c, PERIODIC) && c.tcb[c.dead[0].thread].period > 0
    ensures Selects(c, RearmOne(c)) && c.tcb.Keys == RearmOne(c).tcb.Keys
    ensures forall t :: t in c.tcb ==> RearmOne(c).tcb[t].periodicity == c.tcb[t].periodicity
  {
  }

  lemma RetireSelects(c: Cpu)
    requires HeadFinished(c, APERIODIC)
    ensures Selects(c, RetireOne(c)) && c.tcb.Keys == RetireOne(c).tcb.Keys
    ensures forall t :: t in c.tcb ==> RetireOne(c).tcb[t].periodicity == c.tcb[t].periodicity
  {
  }

  /** A miss is noted for the chosen thread of the deadline heap: its deadline has passed and it was not noted yet. */
  predicate NotesMiss(h: Cpu) {
    h.dead != [] && h.dead[0].thread in h.tcb
    && GeqWrapped(h.ticks, h.tcb[h.dead[0].thread].deadline) && !h.tcb[h.dead[0].thread].dirty
  }

  /** From the state h in which the loop stops, the choice d: only the chosen thread's flag and the count can change. */
  ghost predicate Picks(h: Cpu, d: Cpu) {
    && h.dead != [] && h.dead[0].thread in h.tcb && d == PickDead(h)
  }

  ghost predicate SelectsAndPicks(c: Cpu, d: Cpu) {
    exists h :: Selects(c, h) && h.tcb.Keys == c.tcb.Keys && Picks(h, d)
  }

  lemma {:induction false} SelectDeadJobs(c: Cpu)
    requires Inv(c) && Room(c)
    ensures var (d, found) := SelectDead(c); if found then SelectsAndPicks(c, d) else Selects(c, d) && d.tcb.Keys == c.tcb.Keys
    decreases FinishedDead(c)
  {
    hide RearmOne, RetireOne, PickDead, Inv, Room, FinishedDead;
    if c.dead == [] {
      SelectsNothing(c);
    } else {
      PickDeadOk(c);
      var t, d := c.dead[0].thread, SelectDead(c).0;
      if c.tcb[t].status != FINISHED {
        SelectsNothing(c);
        assert Picks(c, d);
      } else if c.tcb[t].periodicity == PERIODIC {
        RearmOneOk(c);
        RearmSelects(c);
        hide Selects, SelectDead;
        SelectDeadJobs(RearmOne(c));
        StepThenSelects(c, RearmOne(c), d, SelectDead(c).1);
      } else {
        RetireOneOk(c);
        RetireSelects(c);
        hide Selects, SelectDead;
        SelectDeadJobs(RetireOne(c));
        StepThenSelects(c, RetireOne(c), d, SelectDead(c).1);
      }
    }
  }

  lemma StepThenSelects(c: Cpu, a: Cpu, d: Cpu, found: bool)
    requires Selects(c, a) && a.tcb.Keys == c.tcb.Keys
    requires forall t :: t in c.tcb ==> a.tcb[t].periodicity == c.tcb[t].periodicity
    requires if found then SelectsAndPicks(a, d) else Selects(a, d) && d.tcb.Keys == a.tcb.Keys
    ensures if found then SelectsAndPicks(c, d) else Selects(c, d) && d.tcb.Keys == c.tcb.Keys
  {
    if found {
      var h :| Selects(a, h) && h.tcb.Keys == a.tcb.Keys && Picks(h, d);
      SelectsThen(c, a, h);
    } else {
      SelectsThen(c, a, d);
    }
  }

  lemma SelectsNothing(c: Cpu)
    ensures Selects(c, c)
  {
  }

  /** A stretch of the decision that changes nobody's status and flag. */
  ghost predicate Keeps(c: Cpu, r: Cpu) {
    && r.missed == c.missed && r.ticks == c.ticks && r.dead == c.dead && r.tcb.Keys == c.tcb.Keys
    && forall t {:trigger r.tcb[t]} :: t in c.tcb ==>
         r.tcb[t].status == c.tcb[t].status && r.tcb[t].dirty == c.tcb[t].dirty && (c.dead != [] ==> r.tcb[t].deadline == c.tcb[t].deadline)
  }

  lemma LevelMoveKeeps(c: Cpu, p: Priority)
    requires c.dead == [] && Level(c, p) != [] && Level(c, p)[0] in c.tcb
    ensures Keeps(c, RetireFromLevel(c, p)) && Keeps(c, RotateLevel(c, p)) && Keeps(c, PickLevel(c, p))
    ensures RetireFromLevel(c, p).dead == [] && RotateLevel(c, p).dead == []
  {
  }

  lemma KeepsNothing(c: Cpu)
    ensures Keeps(c, c)
  {
  }

  lemma KeepsThen(a: Cpu, b: Cpu, c: Cpu)
    requires Keeps(a, b) && Keeps(b, c)
    ensures Keeps(a, c)
  {
  }

  lemma {:induction false} SelectLevelKeepsJobs(c: Cpu, p: Priority)
    requires Inv(c) && Room(c) && c.dead == []
    ensures Keeps(c, SelectLevel(c, p).0)
    decreases Pending(c, p)
  {
    hide Inv, Room, RetireFromLevel, RotateLevel, PickLevel, SliceOver, Keeps;
    if Level(c, p) == [] {
      KeepsNothing(c);
    } else {
      LevelHeadOk(c, p);
      LevelMoveKeeps(c, p);
      if c.tcb[Level(c, p)[0]].status == FINISHED {
        RetireFromLevelOk(c, p);
        SelectLevelKeepsJobs(RetireFromLevel(c, p), p);
        KeepsThen(c, RetireFromLevel(c, p), SelectLevel(c, p).0);
      } else if SliceOver(c, p) {
        RotateLevelOk(c, p);
        SelectLevelKeepsJobs(RotateLevel(c, p), p);
        KeepsThen(c, RotateLevel(c, p), SelectLevel(c, p).0);
      }
    }
  }

  lemma SelectLevelsKeepJobs(c: Cpu)
    requires Inv(c) && Room(c) && c.dead == []
    ensures Keeps(c, SelectLevels(c).0)
  {
    hide SelectLevel, Inv, Room, Keeps;
    SelectLevelKeepsJobs(c, HIGH_PRIORITY);
    var (h, fh) := SelectLevel(c, HIGH_PRIORITY);
    SelectLevelFrame(c, HIGH_PRIORITY, HIGH_PRIORITY);
    if !fh {
      SelectLevelKeepsJobs(h, MED_PRIORITY);
      SelectLevelFrame(h, MED_PRIORITY, HIGH_PRIORITY);
      var (m, fm) := SelectLevel(h, MED_PRIORITY);
      KeepsThen(c, h, m);
      if !fm {
        SelectLevelKeepsJobs(m, LOW_PRIORITY);
        KeepsThen(c, m, SelectLevel(m, LOW_PRIORITY).0);
      }
    }
  }

  // ---------------------------------------------------------------- a whole decision

  /** A thread's flag when the choice is made, before a miss is noted: cleared by admission and by re-arming. */
  predicate Noted(x: Tcb, incoming: bool, y: Tcb) {
    x.dirty && !incoming && !Rearms(x, y)
  }

  /** The decision from c to d counts a missed deadline: a thread of the deadline heap was chosen whose deadline has passed
      and whose miss was not noted since its job began. */
  predicate Counts(c: Cpu, d: Cpu) {
    && d.dead != [] && d.curr in c.tcb && d.curr in d.tcb
    && GeqWrapped(c.ticks, d.tcb[d.curr].deadline) && !Noted(c.tcb[d.curr], d.curr in c.incoming, d.tcb[d.curr])
  }

  /** What a decision does to a thread's status and flag. */
  predicate Decides(c: Cpu, d: Cpu, t: nat)
    requires t in c.tcb && t in d.tcb
  {
    var x, y := c.tcb[t], d.tcb[t];
    && (if t in c.incoming then y.status == PENDING else y.status == x.status || Rearms(x, y))
    && (y.dirty <==> Noted(x, t in c.incoming, y) || (t == d.curr && Counts(c, d)))
  }

  lemma PreparedJob(c: Cpu, t: nat)
    requires Inv(c) && Room(c) && t in c.tcb
    ensures var b := Prepared(c);
            && t in b.tcb
            && if t in c.incoming then b.tcb[t].status == PENDING && !b.tcb[t].dirty
               else b.tcb[t].status == c.tcb[t].status && b.tcb[t].dirty == c.tcb[t].dirty
                    && b.tcb[t].periodicity == c.tcb[t].periodicity
  {
    AdmitThread(c, t);
    ReleaseThread(Admit(c), t);
    hide Admit, ReleaseDue, Wakes, PlaceIn, SpreadOf;
  }

  lemma {:induction false} AdmitMissed(c: Cpu)
    requires Inv(c) && Room(c)
    ensures Admit(c).missed == c.missed
    decreases |c.incoming|
  {
    if c.incoming != [] {
      AdmitOneOk(c);
      AdmitOneMissed(c);
      AdmitMissed(AdmitOne(c));
    }
  }

  lemma AdmitOneMissed(c: Cpu)
    requires c.incoming != [] && c.incoming[0] in c.tcb
    ensures AdmitOne(c).missed == c.missed && |AdmitOne(c).incoming| < |c.incoming|
  {
  }

  lemma {:induction false} ReleaseMissed(c: Cpu)
    requires Inv(c) && Room(c)
    ensures ReleaseDue(c).missed == c.missed
    decreases |c.rel|
  {
    if HeadDue(c) {
      ReleaseOneOk(c);
      ReleaseMissed(ReleaseOne(c));
    }
  }

  lemma PreparedMissed(c: Cpu)
    requires Inv(c) && Room(c)
    ensures Prepared(c).missed == c.missed && Prepared(c).tcb.Keys == c.tcb.Keys
  {
    AdmitMissed(c);
    ReleaseMissed(Admit(c));
    PreparedKeys(c);
  }

  /** From the selection to the whole decision: one thread. */
  lemma DecidesFrom(c: Cpu, b: Cpu, h: Cpu, d: Cpu, t: nat, picked: bool)
    requires t in c.tcb && t in b.tcb && t in h.tcb && t in d.tcb && b.ticks == c.ticks == h.ticks
    requires if t in c.incoming then b.tcb[t].status == PENDING && !b.tcb[t].dirty
             else b.tcb[t].status == c.tcb[t].status && b.tcb[t].dirty == c.tcb[t].dirty
                  && b.tcb[t].periodicity == c.tcb[t].periodicity
    requires JobStep(b.tcb[t], h.tcb[t]) && d.dead == h.dead && (picked <==> h.dead != [])
    requires if picked then Picks(h, d) else d.tcb[t].status == h.tcb[t].status && d.tcb[t].dirty == h.tcb[t].dirty
    ensures Decides(c, d, t)
    ensures picked && t == h.dead[0].thread ==> (Counts(c, d) <==> NotesMiss(h))
  {
  }

  /** Every decision: newcomers become pending, finished periodic threads may be re-armed to pending, and nobody else's
      status changes; at most one missed deadline is counted, that of the chosen thread, and it is noted. */
  lemma ChooseJobs(c: Cpu)
    requires Inv(c) && Room(c)
    ensures var d := Choose(c).0;
            && d.tcb.Keys == c.tcb.Keys
            && (forall t :: t in c.tcb ==> Decides(c, d, t))
            && d.missed == if Counts(c, d) then Add32(c.missed, 1) else c.missed
  {
    var b := Prepared(c);
    PreparedMissed(c);
    SelectDeadJobs(b);
    SelectDeadPicks(b);
    var (e, f) := SelectDead(b);
    if f {
      assert Choose(c) == (e, true);
      var h :| Selects(b, h) && h.tcb.Keys == b.tcb.Keys && Picks(h, e);
      PickedJobs(c, h, e);
    } else {
      SelectLevelsKeepJobs(e);
      assert Choose(c).0 == SelectLevels(e).0;
      UnpickedJobs(c, e, SelectLevels(e).0);
    }
  }

  lemma PickMissed(h: Cpu, d: Cpu)
    requires Picks(h, d)
    ensures h.dead != [] && d.dead == h.dead && d.curr == h.dead[0].thread && d.curr in h.tcb && d.tcb.Keys == h.tcb.Keys
    ensures d.missed == if NotesMiss(h) then Add32(h.missed, 1) else h.missed
  {
    assert PickDead(h).tcb.Keys == h.tcb.Keys;
  }

  lemma PickedJobs(c: Cpu, h: Cpu, d: Cpu)
    requires Inv(c) && Room(c) && Selects(Prepared(c), h) && h.tcb.Keys == c.tcb.Keys && Picks(h, d)
    ensures d.tcb.Keys == c.tcb.Keys && (forall t :: t in c.tcb ==> Decides(c, d, t))
    ensures d.missed == if Counts(c, d) then Add32(c.missed, 1) else c.missed
  {
    hide Prepared, Inv, Room, Decides, Counts, Picks, NotesMiss, JobStep;
    PreparedMissed(c);
    PickMissed(h, d);
    var t := h.dead[0].thread;
    forall u | u in c.tcb
      ensures Decides(c, d, u)
      ensures u == t ==> (Counts(c, d) <==> NotesMiss(h)) {
      PreparedJob(c, u);
      assert JobsStep(Prepared(c), h, u);
      DecidesFrom(c, Prepared(c), h, d, u, true);
    }
  }

  lemma UnpickedJobs(c: Cpu, e: Cpu, d: Cpu)
    requires Inv(c) && Room(c) && Selects(Prepared(c), e) && e.tcb.Keys == c.tcb.Keys && e.dead == [] && Keeps(e, d)
    ensures d.tcb.Keys == c.tcb.Keys && (forall t :: t in c.tcb ==> Decides(c, d, t))
    ensures d.missed == c.missed && !Counts(c, d)
  {
    PreparedMissed(c);
    hide Prepared, Inv, Room, Decides;
    forall t | t in c.tcb ensures Decides(c, d, t) {
      PreparedJob(c, t);
      assert JobsStep(Prepared(c), e, t);
      DecidesFrom(c, Prepared(c), e, d, t, false);
    }
  }

  lemma {:induction false} ReapMissed(c: Cpu)
    requires Inv(c) && Room(c)
    ensures ReapAll(c).missed == c.missed
    decreases |c.outgoing|
  {
    if c.outgoing != [] {
      ReapOneOk(c);
      ReapMissed(ReapOne(c));
    }
  }

  /** Reaping and returning to the main thread change nobody's status and flag. */
  lemma DispatchJobs(c: Cpu, lockFree: bool)
    requires Inv(c) && Room(c)
    ensures var ((d, found), r) := (Choose(c), Dispatch(c, lockFree));
            && r.missed == d.missed && r.curr == (if found then d.curr else r.main) && r.main == c.main
            && r.dead == d.dead && (found ==> r.curr in r.tcb) && (d.dead != [] ==> found)
            && forall t :: t in r.tcb ==> t in d.tcb && r.tcb[t] == d.tcb[t]
  {
    hide Choose;
    ChoosePicks(c);
    var (d, found) := Choose(c);
    ReapMissed(d);
    ReapAllFrees(d);
    if found {
      PickedPlace(d);
      assert d.curr in d.outgoing ==> Holds(d, AtOutgoing, d.curr);
    }
  }
}
