/** The re-arm arithmetic of a finished periodic thread. */
module Rearm {
  import opened Words
  import opened Wrapped
  import opened Residues

  /** First deadline after the old one that lies above the tick counter. */
  function NextDeadline(deadline: nat, period: nat, ticks: nat): (r: nat)
    requires period > 0
    ensures r >= deadline + period
    decreases ticks - deadline
  {
    var d := deadline + period;
    if d <= ticks then NextDeadline(d, period, ticks) else d
  }

  /** First release after the old one at most one period before the new deadline. */
  function NextRelease(release: nat, period: nat, deadline: nat): (r: nat)
    requires 0 < period <= deadline
    decreases deadline - release
  {
    var r := release + period;
    if r < deadline - period then NextRelease(r, period, deadline) else r
  }

  /** The counter values involved stay below 2^32. */
  predicate NoWrap(deadline: nat, period: nat, ticks: nat) {
    deadline + period < WORD && ticks + period < WORD
  }

  /** The counter after k additions of the period. */
  function Value(start: nat, period: nat, k: nat): (v: nat)
    ensures v < WORD
  {
    Add32(start, k * period)
  }

  lemma ValueStep(start: nat, period: nat, k: nat)
    ensures Value(start, period, 1) == Add32(start, period)
    ensures Value(start, period, k + 1) == Add32(Value(start, period, k), period)
  {
    assert 1 * period == period && (k + 1) * period == k * period + period;
    ModAdd(start + k * period, period);
  }

  lemma ModAdd(a: nat, b: nat)
    ensures Add32(Add32(a, 0), b) == Add32(a, b)
  {
  }

  /** The loops leave at the k-th addition: its value is the first above the bound. */
  ghost predicate LeavesAt(start: nat, period: nat, bound: int, k: nat) {
    && k >= 1 && Value(start, period, k) > bound
    && forall j: nat :: 1 <= j < k ==> Value(start, period, j) <= bound
  }

  /** On 32-bit counters some addition gets above the bound. */
  ghost predicate LoopExits(start: nat, period: nat, bound: int) {
    exists k: nat :: k >= 1 && Value(start, period, k) > bound
  }

  /** The first do-while loop of the re-arm branch, on 32-bit counters: it ends whenever some addition gets above the
      tick counter, at the first such value. */
  method RearmDeadline(deadline0: nat, period: nat, ticks: nat) returns (deadline: nat)
    requires 0 < period && LoopExits(deadline0, period, ticks)
    ensures exists k: nat :: LeavesAt(deadline0, period, ticks, k) && deadline == Value(deadline0, period, k)
    ensures NoWrap(deadline0, period, ticks) ==> deadline == NextDeadline(deadline0, period, ticks)
  {
    hide Value, Add32;
    ghost var last: nat :| last >= 1 && Value(deadline0, period, last) > ticks;
    ghost var k: nat := 1;
    ValueStep(deadline0, period, 0);
    deadline := Add32(deadline0, period);
    while deadline <= ticks
      invariant deadline < WORD && 1 <= k <= last && deadline == Value(deadline0, period, k)
      invariant forall j: nat :: 1 <= j < k ==> Value(deadline0, period, j) <= ticks
      invariant NoWrap(deadline0, period, ticks) ==>
                  if deadline <= ticks then NextDeadline(deadline, period, ticks) == NextDeadline(deadline0, period, ticks)
                  else deadline == NextDeadline(deadline0, period, ticks)
      decreases last - k
    {
      ValueStep(deadline0, period, k);
      deadline := Add32(deadline, period);
      k := k + 1;
    }
    assert LeavesAt(deadline0, period, ticks, k);
  }

  /** The second do-while loop, likewise against one period before the new deadline. */
  method RearmRelease(release0: nat, period: nat, deadline: nat) returns (release: nat)
    requires 0 < period && LoopExits(release0, period, Sub32(deadline, period) - 1)
    ensures exists k: nat :: LeavesAt(release0, period, Sub32(deadline, period) - 1, k) && release == Value(release0, period, k)
    ensures period <= deadline < WORD && release0 + period < WORD ==> release == NextRelease(release0, period, deadline)
  {
    hide Value, Add32, Sub32;
    ghost var bound := Sub32(deadline, period) - 1;
    ghost var last: nat :| last >= 1 && Value(release0, period, last) > bound;
    ghost var k: nat := 1;
    ValueStep(release0, period, 0);
    release := Add32(release0, period);
    while release < Sub32(deadline, period)
      invariant release < WORD && 1 <= k <= last && release == Value(release0, period, k)
      invariant forall j: nat :: 1 <= j < k ==> Value(release0, period, j) <= bound
      invariant period <= deadline < WORD && release0 + period < WORD ==>
                  if release < deadline - period then NextRelease(release, period, deadline) == NextRelease(release0, period, deadline)
                  else release == NextRelease(release0, period, deadline)
      decreases last - k
    {
      ValueStep(release0, period, k);
      release := Add32(release, period);
      k := k + 1;
    }
    assert LeavesAt(release0, period, bound, k);
  }

  lemma {:induction false} NextDeadlineBound(deadline: nat, period: nat, ticks: nat)
    requires period > 0
    ensures ticks < NextDeadline(deadline, period, ticks)
    ensures deadline + period <= NextDeadline(deadline, period, ticks)
    ensures NextDeadline(deadline, period, ticks) <= deadline + period || NextDeadline(deadline, period, ticks) <= ticks + period
    decreases ticks - deadline
  {
    if deadline + period <= ticks {
      NextDeadlineBound(deadline + period, period, ticks);
    }
  }

  /** The new deadline is the least deadline + k * period, k at least 1, above the tick counter. */
  lemma {:induction false} LeastDeadline(deadline: nat, period: nat, ticks: nat) returns (k: nat)
    requires period > 0
    ensures k >= 1 && NextDeadline(deadline, period, ticks) == deadline + k * period > ticks
    ensures forall j: nat :: 1 <= j < k ==> deadline + j * period <= ticks
    decreases ticks - deadline
  {
    if deadline + period <= ticks {
      var m := LeastDeadline(deadline + period, period, ticks);
      k := m + 1;
      assert deadline + k * period == deadline + period + m * period;
      forall j: nat | 1 <= j < k ensures deadline + j * period <= ticks {
        if j > 1 {
          assert deadline + period + (j - 1) * period == deadline + j * period;
        }
      }
    } else {
      k := 1;
    }
  }

  /** Likewise the new release: the least release + k * period, k at least 1, not below one period before the deadline. */
  lemma {:induction false} LeastRelease(release: nat, period: nat, deadline: nat) returns (k: nat)
    requires 0 < period <= deadline
    ensures k >= 1 && NextRelease(release, period, deadline) == release + k * period >= deadline - period
    ensures forall j: nat :: 1 <= j < k ==> release + j * period < deadline - period
    decreases deadline - release
  {
    if release + period < deadline - period {
      var m := LeastRelease(release + period, period, deadline);
      k := m + 1;
      assert release + k * period == release + period + m * period;
      forall j: nat | 1 <= j < k ensures release + j * period < deadline - period {
        if j > 1 {
          assert release + period + (j - 1) * period == release + j * period;
        }
      }
    } else {
      k := 1;
    }
  }

  /** v is the first of start + period, start + 2 * period, ... that is not below the bound. */
  ghost predicate FirstFrom(start: nat, period: nat, bound: int, v: nat) {
    exists k: nat :: FirstAt(start, period, bound, v, k)
  }

  ghost predicate FirstAt(start: nat, period: nat, bound: int, v: nat, k: nat) {
    && k >= 1 && v == start + k * period >= bound
    && forall j: nat :: 1 <= j < k ==> start + j * period < bound
  }

  /** From any release before the old deadline, the new window is at most one period long and not empty. */
  lemma {:induction false} NextReleaseWindow(release: nat, period: nat, deadline: nat)
    requires 0 < period <= deadline && release + period < deadline
    ensures deadline - period <= NextRelease(release, period, deadline) < deadline
    decreases deadline - release
  {
    if release + period < deadline - period {
      NextReleaseWindow(release + period, period, deadline);
    }
  }

  lemma {:induction false} NextReleaseExact(release: nat, period: nat, deadline: nat, k: nat)
    requires period > 0 && k >= 1 && deadline == release + period + k * period
    ensures NextRelease(release, period, deadline) == deadline - period
    decreases k
  {
    if k > 1 {
      assert release + period + period + (k - 1) * period == deadline;
      assert (k - 1) * period >= period;
      NextReleaseExact(release + period, period, deadline, k - 1);
    }
  }

  /** The re-armed window: 0 < deadline - release <= period, and exactly one period if it was so before,
      which holds from admission on as long as the thread is never suspended. */
  lemma WindowShape(release: nat, deadline: nat, period: nat, ticks: nat)
    requires 0 < period && release < deadline
    ensures var d := NextDeadline(deadline, period, ticks);
            && period <= d
            && var r := NextRelease(release, period, d);
            && 0 < d - r <= period
            && (deadline == release + period ==> d == r + period)
  {
    var d := NextDeadline(deadline, period, ticks);
    NextDeadlineBound(deadline, period, ticks);
    NextReleaseWindow(release, period, d);
    if deadline == release + period {
      var k := LeastDeadline(deadline, period, ticks);
      NextReleaseExact(release, period, d, k);
    }
  }

  /** Exactly when the loops end: with g the greatest common divisor of the period and 2^32, the counter reaches all
      values congruent to its start modulo g, the largest of which is 2^32 - g + start % g. */
  lemma LoopExitsIff(start: nat, period: nat, bound: int)
    requires 0 < period
    ensures LoopExits(start, period, bound) <==> WORD - Gcd(period, WORD) + start % Gcd(period, WORD) > bound
  {
    forall k: nat | k >= 1 && Value(start, period, k) > bound
      ensures WORD - Gcd(period, WORD) + start % Gcd(period, WORD) > bound {
      ResidueBound(start, period, WORD, k);
    }
    var k := ResidueTaken(start, period, WORD);
    assert Value(start, period, k) == WORD - Gcd(period, WORD) + start % Gcd(period, WORD);
  }

  /** At the last counter value before wrap-around the deadline loop has no exit; a period earlier it always has.
      In between it depends on the deadline's residue. */
  lemma DeadlineLoopExits(deadline: nat, period: nat, ticks: nat)
    requires deadline < WORD && 0 < period && ticks < WORD
    ensures ticks == WORD - 1 ==> !LoopExits(deadline, period, ticks)
    ensures ticks + period < WORD ==> LoopExits(deadline, period, ticks)
    ensures !LoopExits(4, 2, WORD - 2) && LoopExits(5, 2, WORD - 2)
  {
    LoopExitsIff(deadline, period, ticks);
    if ticks + period < WORD {
      var m, n := GcdDivides(period, WORD);
      DivisorLe(Gcd(period, WORD), m, period);
    }
    LoopExitsIff(4, 2, WORD - 2);
    LoopExitsIff(5, 2, WORD - 2);
    assert Gcd(2, WORD) == Gcd(WORD, 2) == Gcd(2, 0) == 2;
  }

  lemma DivisorLe(g: nat, m: nat, p: nat)
    requires p == g * m && p > 0
    ensures g <= p
  {
    assert m >= 1;
    MulLe(g, 1, m);
  }

  /** What the scheduler passes: with no wrap in sight both loops end. */
  lemma NoWrapExits(release: nat, deadline: nat, period: nat, ticks: nat, next: nat)
    requires 0 < period && deadline < WORD && release < WORD && NoWrap(deadline, period, ticks)
    requires period <= next < WORD
    ensures LoopExits(deadline, period, ticks) && LoopExits(release, period, next - period - 1)
  {
    DeadlineLoopExits(deadline, period, ticks);
    DeadlineLoopExits(release, period, next - period);
    var k: nat :| k >= 1 && Value(release, period, k) > next - period;
  }
}
