/** The spin lock of kernel/mutex.s as interleaved steps of any number of cores over one shared word.
    Exclusive monitors and event registers follow section A3.4 of the ARM Architecture Reference Manual, ARMv7-A. */
module Mutex {
  const LOCKED: nat := 1
  const UNLOCKED: nat := 0

  /** The instruction a core is about to execute; Outside and Inside are the caller's code without and with the lock. */
  datatype Pc =
    | Outside
    | LoadPersistent | ComparePersistent | Wait | StorePersistent | TestPersistent | FencePersistent
    | LoadOnce | CompareOnce | StoreOnce | Clrex | TestOnce | FenceOnce
    | Inside
    | FenceUnlock | StoreUnlock | SendEvent

  /** r2 holds the loaded word, then (persistent form) the store's status; r0 is the best-effort form's result. */
  datatype Core = Core(pc: Pc, r0: nat, r2: nat, monitor: bool, event: bool)

  datatype Sys = Sys(word: nat, cores: seq<Core>)

  /** What can happen next: a core executes its next instruction, a core outside calls one of the acquire routines,
      the holder calls unlock, or the hardware opens a monitor or raises an event for reasons of its own. */
  datatype Action = Exec(core: nat) | CallPersistent(core: nat) | CallOnce(core: nat) | CallUnlock(core: nat)
                  | LoseMonitor(core: nat) | StrayEvent(core: nat)

  function Set(s: Sys, i: nat, c: Core): Sys
    requires i < |s.cores|
  {
    s.(cores := s.cores[i := c])
  }

  /** Core i writes v: every other core's monitor on the word is opened. */
  function Written(s: Sys, i: nat, c: Core, v: nat): (r: Sys)
    requires i < |s.cores|
  {
    Sys(v, seq(|s.cores|, k requires 0 <= k < |s.cores| => if k == i then c else s.cores[k].(monitor := false)))
  }

  /** Core i executes sev: every event register is set. */
  function Signalled(s: Sys, i: nat, c: Core): (r: Sys)
    requires i < |s.cores|
  {
    Sys(s.word, seq(|s.cores|, k requires 0 <= k < |s.cores| => (if k == i then c else s.cores[k]).(event := true)))
  }

  predicate Blocked(c: Core) {
    c.pc == Wait && !c.event
  }

  /** strex of LOCKED with the status put where put says. */
  function StoreExclusive(s: Sys, i: nat, stored: Core, refused: Core): Sys
    requires i < |s.cores|
  {
    if s.cores[i].monitor then Written(s, i, stored.(monitor := false), LOCKED)
    else Set(s, i, refused)
  }

  /** The instruction core i is at. */
  function Execute(s: Sys, i: nat): Sys
    requires i < |s.cores| && !s.cores[i].pc.Outside? && !s.cores[i].pc.Inside? && !Blocked(s.cores[i])
  {
    var c := s.cores[i];
    match c.pc
    case LoadPersistent => Set(s, i, c.(r2 := s.word, monitor := true, pc := ComparePersistent))
    case ComparePersistent => Set(s, i, c.(pc := if c.r2 == LOCKED then Wait else StorePersistent))
    case Wait => Set(s, i, c.(event := false, pc := LoadPersistent))
    case StorePersistent => StoreExclusive(s, i, c.(r2 := 0, pc := TestPersistent), c.(r2 := 1, pc := TestPersistent))
    case TestPersistent => Set(s, i, c.(pc := if c.r2 != 0 then LoadPersistent else FencePersistent))
    case FencePersistent => Set(s, i, c.(pc := Inside))
    case LoadOnce => Set(s, i, c.(r2 := s.word, monitor := true, pc := CompareOnce))
    case CompareOnce => Set(s, i, if c.r2 != LOCKED then c.(pc := StoreOnce) else c.(r0 := 1, pc := Clrex))
    case StoreOnce => StoreExclusive(s, i, c.(r0 := 0, pc := TestOnce), c.(r0 := 1, pc := TestOnce))
    case Clrex => Set(s, i, c.(monitor := false, pc := TestOnce))
    case TestOnce => Set(s, i, c.(pc := if c.r0 != 0 then Outside else FenceOnce))
    case FenceOnce => Set(s, i, c.(pc := Inside))
    case FenceUnlock => Set(s, i, c.(pc := StoreUnlock))
    case StoreUnlock => Written(s, i, c.(pc := SendEvent), UNLOCKED)
    case SendEvent => Signalled(s, i, c.(pc := Outside))
    case _ => s
  }

  predicate Enabled(s: Sys, a: Action) {
    && a.core < |s.cores|
    && var c := s.cores[a.core];
    match a
    case Exec(_) => !c.pc.Outside? && !c.pc.Inside? && !Blocked(c)
    case CallPersistent(_) => c.pc.Outside?
    case CallOnce(_) => c.pc.Outside?
    case CallUnlock(_) => c.pc.Inside?
    case LoseMonitor(_) => true
    case StrayEvent(_) => true
  }

  function Next(s: Sys, a: Action): Sys
    requires Enabled(s, a)
  {
    var c := s.cores[a.core];
    match a
    case Exec(i) => Execute(s, i)
    case CallPersistent(i) => Set(s, i, c.(pc := LoadPersistent))
    case CallOnce(i) => Set(s, i, c.(pc := LoadOnce))
    case CallUnlock(i) => Set(s, i, c.(pc := FenceUnlock))
    case LoseMonitor(i) => Set(s, i, c.(monitor := false))
    case StrayEvent(i) => Set(s, i, c.(event := true))
  }

  // ---------------------------------------------------------------- what every step keeps

  /** From its successful strex to its unlocking str a core holds the lock. */
  predicate Holds(c: Core) {
    || (c.pc.TestPersistent? && c.r2 == 0) || c.pc.FencePersistent?
    || (c.pc.TestOnce? && c.r0 == 0) || c.pc.FenceOnce?
    || c.pc.Inside? || c.pc.FenceUnlock? || c.pc.StoreUnlock?
  }

  predicate Loaded(c: Core) {
    c.pc.ComparePersistent? || c.pc.StorePersistent? || c.pc.CompareOnce? || c.pc.StoreOnce?
  }

  /** A monitor that is still set since the load vouches for the loaded value; only an unlocked word is stored over. */
  predicate MonitorOk(c: Core, word: nat) {
    && (Loaded(c) && c.monitor ==> c.r2 == word)
    && (c.pc.StorePersistent? || c.pc.StoreOnce? ==> c.r2 != LOCKED)
    && (c.pc.Wait? ==> c.r2 == LOCKED)
    && (c.pc.Clrex? ==> c.r0 == 1)
  }

  predicate SawLocked(c: Core) {
    c.r2 == LOCKED && (c.pc.ComparePersistent? || c.pc.Wait?)
  }

  predicate Signalling(s: Sys, j: int) {
    0 <= j < |s.cores| && s.cores[j].pc.SendEvent?
  }

  ghost predicate SomeSignalling(s: Sys) {
    exists j :: Signalling(s, j)
  }

  predicate HoldsAt(s: Sys, j: int) {
    0 <= j < |s.cores| && Holds(s.cores[j])
  }

  /** A core that read LOCKED and is about to wait will be woken once the lock is free. */
  ghost predicate WillWake(s: Sys, i: nat)
    requires i < |s.cores|
  {
    SawLocked(s.cores[i]) && s.word != LOCKED ==> s.cores[i].event || SomeSignalling(s)
  }

  ghost predicate CoreOk(s: Sys, i: nat)
    requires i < |s.cores|
  {
    MonitorOk(s.cores[i], s.word) && WillWake(s, i)
  }

  /** At most one core holds the lock, and none unless the word says LOCKED. */
  ghost predicate OneHolder(s: Sys) {
    && (s.word == LOCKED || s.word == UNLOCKED)
    && (forall i, j :: HoldsAt(s, i) && HoldsAt(s, j) ==> i == j)
    && (s.word == LOCKED <==> exists i :: HoldsAt(s, i))
  }

  ghost predicate Inv(s: Sys) {
    OneHolder(s) && forall i {:trigger CoreOk(s, i)} :: 0 <= i < |s.cores| ==> CoreOk(s, i)
  }

  /** To the others a step does at most this: a write opens their monitor, sev sets their event register. */
  lemma OtherCore(s: Sys, a: Action, k: nat)
    requires Enabled(s, a) && k < |s.cores| && k != a.core
    ensures var (t, c, d) := (Next(s, a), s.cores[k], Next(s, a).cores[k]);
            && (d == c || d == c.(monitor := false) || d == c.(event := true))
            && (t.word != s.word ==> d == c.(monitor := false))
  {
  }

  lemma OtherHold(s: Sys, a: Action, k: int)
    requires Enabled(s, a) && k != a.core
    ensures HoldsAt(Next(s, a), k) == HoldsAt(s, k)
  {
    hide Next, Enabled;
    SameCores(s, a);
    if 0 <= k < |s.cores| {
      OtherCore(s, a, k);
    }
  }

  lemma SameCores(s: Sys, a: Action)
    requires Enabled(s, a)
    ensures |Next(s, a).cores| == |s.cores|
  {
  }

  /** The holder finds the word LOCKED. */
  lemma HeldWord(s: Sys, i: nat)
    requires OneHolder(s)
    ensures HoldsAt(s, i) ==> s.word == LOCKED
    ensures s.word == LOCKED || s.word == UNLOCKED
  {
  }

  /** Taking the lock writes LOCKED to a free word, giving it up writes UNLOCKED, and nothing else writes. */
  lemma OwnHold(s: Sys, a: Action)
    requires Enabled(s, a) && MonitorOk(s.cores[a.core], s.word) && (s.word == LOCKED || s.word == UNLOCKED)
    requires HoldsAt(s, a.core) ==> s.word == LOCKED
    ensures var (t, i) := (Next(s, a), a.core);
            && (HoldsAt(t, i) == HoldsAt(s, i) ==> t.word == s.word)
            && (HoldsAt(t, i) && !HoldsAt(s, i) ==> s.word == UNLOCKED && t.word == LOCKED)
            && (!HoldsAt(t, i) && HoldsAt(s, i) ==> t.word == UNLOCKED)
  {
  }

  /** Who holds, and the word, change together: only core a.core's hold can change, taking it needs a free word. */
  lemma HoldChanges(s: Sys, a: Action)
    requires Inv(s) && Enabled(s, a)
    ensures var (t, i) := (Next(s, a), a.core);
            && (forall j :: j != i ==> HoldsAt(t, j) == HoldsAt(s, j))
            && (HoldsAt(t, i) == HoldsAt(s, i) ==> t.word == s.word)
            && (HoldsAt(t, i) && !HoldsAt(s, i) ==> s.word == UNLOCKED && t.word == LOCKED)
            && (!HoldsAt(t, i) && HoldsAt(s, i) ==> t.word == UNLOCKED)
  {
    hide Next, HoldsAt;
    assert CoreOk(s, a.core);
    HeldWord(s, a.core);
    OwnHold(s, a);
    forall j: int | j != a.core ensures HoldsAt(Next(s, a), j) == HoldsAt(s, j) {
      OtherHold(s, a, j);
    }
  }

  lemma OneHolderStep(s: Sys, a: Action)
    requires Inv(s) && Enabled(s, a)
    ensures OneHolder(Next(s, a))
  {
    hide Next, HoldsAt, Enabled;
    var t, i := Next(s, a), a.core;
    HoldChanges(s, a);
    assert HoldsAt(t, i) || !HoldsAt(t, i);
    assert HoldsAt(s, i) || !HoldsAt(s, i);
  }

  lemma MonitorOwnStep(s: Sys, a: Action)
    requires Inv(s) && Enabled(s, a)
    ensures MonitorOk(Next(s, a).cores[a.core], Next(s, a).word)
  {
    assert CoreOk(s, a.core);
    hide Inv, WillWake, Signalled;
  }

  lemma MonitorStep(s: Sys, a: Action, k: nat)
    requires Inv(s) && Enabled(s, a) && k < |s.cores|
    ensures MonitorOk(Next(s, a).cores[k], Next(s, a).word)
  {
    hide Next, Enabled;
    if k == a.core {
      MonitorOwnStep(s, a);
    } else {
      assert CoreOk(s, k);
      OtherCore(s, a, k);
    }
  }

  lemma WakeStep(s: Sys, a: Action, k: nat)
    requires Inv(s) && Enabled(s, a) && k < |s.cores|
    ensures WillWake(Next(s, a), k)
  {
    assert CoreOk(s, k);
    var t, i := Next(s, a), a.core;
    if SawLocked(t.cores[k]) && t.word != LOCKED && !t.cores[k].event {
      if s.word == LOCKED {
        assert Signalling(t, i);
      } else {
        assert SawLocked(s.cores[k]) && !s.cores[k].event;
        var j :| Signalling(s, j);
        assert Signalling(t, j);
      }
    }
  }

  lemma StepKeepsInv(s: Sys, a: Action)
    requires Inv(s) && Enabled(s, a)
    ensures Inv(Next(s, a)) && |Next(s, a).cores| == |s.cores|
  {
    OneHolderStep(s, a);
    forall k | 0 <= k < |s.cores| ensures CoreOk(Next(s, a), k) {
      MonitorStep(s, a, k);
      WakeStep(s, a, k);
    }
  }

  // ---------------------------------------------------------------- all interleavings

  /** The lock is free and every core is outside; monitors, events and registers are arbitrary. */
  predicate Fresh(s: Sys) {
    s.word == UNLOCKED && forall i :: 0 <= i < |s.cores| ==> s.cores[i].pc.Outside?
  }

  predicate Legal(s: Sys, acts: seq<Action>)
    decreases |acts|
  {
    acts == [] || (Enabled(s, acts[0]) && Legal(Next(s, acts[0]), acts[1..]))
  }

  function Run(s: Sys, acts: seq<Action>): Sys
    requires Legal(s, acts)
    decreases |acts|
  {
    if acts == [] then s else Run(Next(s, acts[0]), acts[1..])
  }

  lemma {:induction false} RunKeepsInv(s: Sys, acts: seq<Action>)
    requires Inv(s) && Legal(s, acts)
    ensures Inv(Run(s, acts)) && |Run(s, acts).cores| == |s.cores|
    decreases |acts|
  {
    if acts != [] {
      StepKeepsInv(s, acts[0]);
      RunKeepsInv(Next(s, acts[0]), acts[1..]);
    }
  }

  lemma FreshInv(s: Sys)
    requires Fresh(s)
    ensures Inv(s)
  {
    forall k | 0 <= k < |s.cores| ensures CoreOk(s, k) {
    }
  }

  /** Mutual exclusion over every interleaving of both acquire forms on any number of cores: two cores are never
      inside at once, and a core inside has the word LOCKED. */
  lemma MutualExclusion(s: Sys, acts: seq<Action>, i: nat, j: nat)
    requires Fresh(s) && Legal(s, acts) && i < |s.cores| && j < |s.cores|
    ensures var t := Run(s, acts);
            && |t.cores| == |s.cores|
            && (t.cores[i].pc.Inside? && t.cores[j].pc.Inside? ==> i == j)
            && (t.cores[i].pc.Inside? ==> t.word == LOCKED)
  {
    FreshInv(s);
    RunKeepsInv(s, acts);
    var t := Run(s, acts);
    assert t.cores[i].pc.Inside? ==> HoldsAt(t, i);
    assert t.cores[j].pc.Inside? ==> HoldsAt(t, j);
  }

  /** No lost wakeup: whenever the lock is free, a core at wfe that read LOCKED has its event register set or some
      unlocker is still between its store and its sev. */
  lemma NoLostWakeup(s: Sys, acts: seq<Action>, i: nat)
    requires Fresh(s) && Legal(s, acts) && i < |s.cores|
    ensures var t := Run(s, acts);
            && |t.cores| == |s.cores|
            && (t.cores[i].pc.Wait? && t.word != LOCKED ==> t.cores[i].event || SomeSignalling(t))
  {
    FreshInv(s);
    RunKeepsInv(s, acts);
    assert CoreOk(Run(s, acts), i);
  }

  /** No deadlock: in a reachable state where nobody is inside, either some core can execute an instruction or no core
      is in any of the three routines. */
  lemma NoDeadlock(s: Sys, acts: seq<Action>, i: nat)
    requires Fresh(s) && Legal(s, acts) && i < |s.cores|
    requires var t := Run(s, acts);
             forall k :: 0 <= k < |t.cores| ==> t.cores[k].pc.Outside? || Blocked(t.cores[k])
    ensures |Run(s, acts).cores| == |s.cores| && Run(s, acts).cores[i].pc.Outside?
  {
    FreshInv(s);
    RunKeepsInv(s, acts);
    var t := Run(s, acts);
    assert CoreOk(t, i);
    if Blocked(t.cores[i]) {
      assert forall k :: !Signalling(t, k) && !HoldsAt(t, k);
    }
  }

  // ---------------------------------------------------------------- the lock the callers see

  datatype LockOp = Acquire(core: nat) | Release(core: nat)

  /** The lock operation a step amounts to: a strex that takes effect acquires, the unlocking str releases. */
  function Effect(s: Sys, a: Action): (r: seq<LockOp>)
    requires Enabled(s, a)
  {
    var c := s.cores[a.core];
    if a.Exec? && (c.pc.StorePersistent? || c.pc.StoreOnce?) && c.monitor then [Acquire(a.core)]
    else if a.Exec? && c.pc.StoreUnlock? then [Release(a.core)]
    else []
  }

  function History(s: Sys, acts: seq<Action>): seq<LockOp>
    requires Legal(s, acts)
    decreases |acts|
  {
    if acts == [] then [] else Effect(s, acts[0]) + History(Next(s, acts[0]), acts[1..])
  }

  datatype Owner = Nobody | Owned(core: nat)

  predicate Permits(o: Owner, op: LockOp) {
    match op
    case Acquire(_) => o == Nobody
    case Release(i) => o == Owned(i)
  }

  function OwnerOnce(op: LockOp): Owner {
    if op.Acquire? then Owned(op.core) else Nobody
  }

  /** An atomic lock: acquired only when nobody owns it, released only by its owner. */
  predicate LockAllows(o: Owner, h: seq<LockOp>)
    decreases |h|
  {
    h == [] || (Permits(o, h[0]) && LockAllows(OwnerOnce(h[0]), h[1..]))
  }

  function OwnerAfter(o: Owner, h: seq<LockOp>): Owner
    decreases |h|
  {
    if h == [] then o else OwnerAfter(OwnerOnce(h[0]), h[1..])
  }

  /** Owner o is what the machine state means to the callers. */
  ghost predicate Means(s: Sys, o: Owner) {
    match o
    case Nobody => forall i :: !HoldsAt(s, i)
    case Owned(i) => HoldsAt(s, i)
  }

  /** One step of the machine is one operation of the atomic lock, or none. */
  lemma StepRefines(s: Sys, a: Action, o: Owner)
    requires Inv(s) && Enabled(s, a) && Means(s, o)
    ensures LockAllows(o, Effect(s, a)) && Means(Next(s, a), OwnerAfter(o, Effect(s, a)))
  {
    var t, i, h := Next(s, a), a.core, Effect(s, a);
    assert CoreOk(s, i);
    StepKeepsInv(s, a);
    assert forall j :: j != i ==> HoldsAt(t, j) == HoldsAt(s, j);
    assert HoldsAt(t, i) || !HoldsAt(t, i);
    assert HoldsAt(s, i) || !HoldsAt(s, i);
    assert h != [] ==> h[1..] == [];
  }

  lemma LockAppend(o: Owner, h: seq<LockOp>, g: seq<LockOp>)
    requires |h| <= 1 && LockAllows(o, h) && LockAllows(OwnerAfter(o, h), g)
    ensures LockAllows(o, h + g) && OwnerAfter(o, h + g) == OwnerAfter(OwnerAfter(o, h), g)
  {
    if h == [] {
      assert h + g == g;
    } else {
      assert (h + g)[1..] == g && h[1..] == [] && (h + g)[0] == h[0];
      assert OwnerAfter(o, h) == OwnerAfter(OwnerOnce(h[0]), []) == OwnerOnce(h[0]);
      assert Permits(o, h[0]);
    }
  }

  /** Every interleaving is a history of an atomic lock, and the lock's owner is the core that holds. */
  lemma {:induction false} RunRefines(s: Sys, acts: seq<Action>, o: Owner)
    requires Inv(s) && Legal(s, acts) && Means(s, o)
    ensures LockAllows(o, History(s, acts)) && Means(Run(s, acts), OwnerAfter(o, History(s, acts)))
    decreases |acts|
  {
    if acts != [] {
      var h := Effect(s, acts[0]);
      StepKeepsInv(s, acts[0]);
      StepRefines(s, acts[0], o);
      RunRefines(Next(s, acts[0]), acts[1..], OwnerAfter(o, h));
      LockAppend(o, h, History(Next(s, acts[0]), acts[1..]));
    }
  }

  /** The best-effort form tells the truth: when it returns, result 0 goes with holding the lock and any other result
      with not holding it. */
  lemma OnceResult(s: Sys, i: nat)
    requires Inv(s) && i < |s.cores| && s.cores[i].pc.TestOnce?
    ensures var t := Execute(s, i);
            && t.word == s.word
            && (s.cores[i].r0 == 0 ==> t.cores[i].pc.FenceOnce? && HoldsAt(t, i) && t.word == LOCKED)
            && (s.cores[i].r0 != 0 ==> t.cores[i].pc.Outside? && !HoldsAt(t, i))
  {
    StepKeepsInv(s, Exec(i));
    assert HoldsAt(Execute(s, i), i) || !HoldsAt(Execute(s, i), i);
  }

  function Alone(i: nat, n: nat): seq<Action> {
    seq(n, k => Exec(i))
  }

  /** A persistent caller that finds the lock free and is not disturbed is inside after five instructions. */
  lemma AcquiresAlone(s: Sys, i: nat)
    requires Inv(s) && i < |s.cores| && s.word == UNLOCKED && s.cores[i].pc.LoadPersistent?
    ensures Legal(s, Alone(i, 5)) && HoldsAt(Run(s, Alone(i, 5)), i) && Run(s, Alone(i, 5)).cores[i].pc.Inside?
  {
    var a1 := Execute(s, i);
    var a2 := Execute(a1, i);
    var a3 := Execute(a2, i);
    var a4 := Execute(a3, i);
    var a5 := Execute(a4, i);
    assert Alone(i, 5) == [Exec(i), Exec(i), Exec(i), Exec(i), Exec(i)];
    AloneStep(a4, i, 0);
    AloneStep(a3, i, 1);
    AloneStep(a2, i, 2);
    AloneStep(a1, i, 3);
    AloneStep(s, i, 4);
  }

  /** A best-effort caller that finds the lock free and is not disturbed is inside, with result 0, after five
      instructions. */
  lemma OnceAcquiresAlone(s: Sys, i: nat)
    requires Inv(s) && i < |s.cores| && s.word == UNLOCKED && s.cores[i].pc.LoadOnce?
    ensures Legal(s, Alone(i, 5))
    ensures var t := Run(s, Alone(i, 5));
            HoldsAt(t, i) && t.cores[i].pc.Inside? && t.cores[i].r0 == 0 && t.word == LOCKED
  {
    var a1 := Execute(s, i);
    var a2 := Execute(a1, i);
    var a3 := Execute(a2, i);
    var a4 := Execute(a3, i);
    AloneNone(Execute(a4, i), i);
    AloneStep(a4, i, 0);
    AloneStep(a3, i, 1);
    AloneStep(a2, i, 2);
    AloneStep(a1, i, 3);
    AloneStep(s, i, 4);
  }

  /** One that finds it locked is back outside after four, with a result other than 0, its monitor open and the lock as
      it was. */
  lemma OnceRefusedAlone(s: Sys, i: nat)
    requires Inv(s) && i < |s.cores| && s.word == LOCKED && s.cores[i].pc.LoadOnce?
    ensures Legal(s, Alone(i, 4))
    ensures var t := Run(s, Alone(i, 4));
            t.word == LOCKED && |t.cores| == |s.cores| && t.cores[i].pc.Outside? && t.cores[i].r0 != 0 && !t.cores[i].monitor
  {
    var a1 := Execute(s, i);
    var a2 := Execute(a1, i);
    var a3 := Execute(a2, i);
    AloneNone(Execute(a3, i), i);
    AloneStep(a3, i, 0);
    AloneStep(a2, i, 1);
    AloneStep(a1, i, 2);
    AloneStep(s, i, 3);
  }

  /** One whose monitor was lost before its store is back outside after two more, likewise with a result other than 0. */
  lemma OnceLosesAlone(s: Sys, i: nat)
    requires Inv(s) && i < |s.cores| && s.cores[i].pc.StoreOnce? && !s.cores[i].monitor
    ensures Legal(s, Alone(i, 2))
    ensures var t := Run(s, Alone(i, 2));
            t.word == s.word && |t.cores| == |s.cores| && t.cores[i].pc.Outside? && t.cores[i].r0 != 0
  {
    var a1 := Execute(s, i);
    AloneNone(Execute(a1, i), i);
    AloneStep(a1, i, 0);
    AloneStep(s, i, 1);
  }

  /** Instructions of the best-effort form that are at most left. */
  function OnceLeft(pc: Pc): nat {
    match pc
    case LoadOnce => 5
    case CompareOnce => 4
    case StoreOnce => 3
    case Clrex => 3
    case TestOnce => 2
    case FenceOnce => 1
    case _ => 0
  }

  /** The best-effort form never waits: whatever the others do, its next instruction can be executed, and each one leaves
      fewer. */
  lemma OnceNeverWaits(s: Sys, a: Action, i: nat)
    requires Enabled(s, a) && i < |s.cores| && OnceLeft(s.cores[i].pc) > 0
    ensures Enabled(s, Exec(i)) && |Next(s, a).cores| == |s.cores|
    ensures a == Exec(i) ==> OnceLeft(Next(s, a).cores[i].pc) < OnceLeft(s.cores[i].pc)
    ensures a != Exec(i) ==> Next(s, a).cores[i].pc == s.cores[i].pc
  {
    SameCores(s, a);
    if a.core != i {
      OtherCore(s, a, i);
    }
  }

  /** A persistent caller that finds it locked is at wfe after two instructions, and goes on to load again exactly if its
      event register is set. */
  lemma WaitsAlone(s: Sys, i: nat)
    requires Inv(s) && i < |s.cores| && s.word == LOCKED && s.cores[i].pc.LoadPersistent?
    ensures Legal(s, Alone(i, 2))
    ensures var t := Run(s, Alone(i, 2));
            && t.word == LOCKED && |t.cores| == |s.cores| && t.cores[i].pc.Wait?
            && (Enabled(t, Exec(i)) <==> s.cores[i].event)
            && (s.cores[i].event ==> Next(t, Exec(i)).cores[i].pc.LoadPersistent? && !Next(t, Exec(i)).cores[i].event)
  {
    var a1 := Execute(s, i);
    AloneNone(Execute(a1, i), i);
    AloneStep(a1, i, 0);
    AloneStep(s, i, 1);
  }

  /** The holder that unlocks undisturbed is outside after three instructions: the word is free, every other monitor open
      and every event register set. */
  lemma UnlocksAlone(s: Sys, i: nat)
    requires Inv(s) && i < |s.cores| && s.cores[i].pc.FenceUnlock?
    ensures Legal(s, Alone(i, 3))
    ensures var t := Run(s, Alone(i, 3));
            && t.word == UNLOCKED && |t.cores| == |s.cores| && t.cores[i].pc.Outside?
            && forall k :: 0 <= k < |t.cores| ==> t.cores[k].event && (k != i ==> !t.cores[k].monitor)
  {
    var a1 := Execute(s, i);
    var a2 := Execute(a1, i);
    AloneNone(Execute(a2, i), i);
    AloneStep(a2, i, 0);
    AloneStep(a1, i, 1);
    AloneStep(s, i, 2);
  }

  /** A failed strex sends the persistent caller back to its load. */
  lemma RetriesAlone(s: Sys, i: nat)
    requires Inv(s) && i < |s.cores| && s.cores[i].pc.StorePersistent? && !s.cores[i].monitor
    ensures Legal(s, Alone(i, 2))
    ensures var t := Run(s, Alone(i, 2)); t.word == s.word && |t.cores| == |s.cores| && t.cores[i].pc.LoadPersistent?
  {
    var a1 := Execute(s, i);
    AloneNone(Execute(a1, i), i);
    AloneStep(a1, i, 0);
    AloneStep(s, i, 1);
  }

  lemma AloneNone(s: Sys, i: nat)
    ensures Alone(i, 0) == [] && Legal(s, Alone(i, 0)) && Run(s, Alone(i, 0)) == s
  {
  }

  lemma AloneStep(s: Sys, i: nat, n: nat)
    requires Enabled(s, Exec(i)) && Legal(Next(s, Exec(i)), Alone(i, n))
    ensures Legal(s, Alone(i, n + 1)) && Run(s, Alone(i, n + 1)) == Run(Next(s, Exec(i)), Alone(i, n))
  {
    assert Alone(i, n + 1)[1..] == Alone(i, n);
  }
}
