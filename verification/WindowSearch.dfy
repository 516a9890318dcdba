/** The DM/DQS window search of the write calibration (bsp/sequencer.c), with the hardware test as an oracle. */
module WindowSearch {
  /** One test on the joined axis: DM delay d is position -d, DQS delay d is position d. */
  datatype Test = Test(pos: int, ok: bool)

  /** The search's running variables; none marks "no window open". */
  datatype Window = Window(bgnCurr: int, endCurr: int, bgnBest: int, endBest: int, winBest: int)

  // ---------------------------------------------------------------- what the search is meant to find

  predicate AllPass(h: seq<Test>, i: int, j: int) {
    0 <= i <= j < |h| && forall k :: i <= k <= j ==> h[k].ok
  }

  function Width(h: seq<Test>, i: int, j: int): int
    requires 0 <= i < |h| && 0 <= j < |h|
  {
    h[j].pos - h[i].pos + 1
  }

  predicate Rising(h: seq<Test>) {
    forall i, j :: 0 <= i <= j < |h| ==> h[i].pos <= h[j].pos
  }

  /** Passing run i..j is no longer than the best one, and not further left if as long. */
  predicate NoBetter(h: seq<Test>, w: Window, i: int, j: int) {
    AllPass(h, i, j) ==>
      Width(h, i, j) < w.winBest || (Width(h, i, j) == w.winBest && h[i].pos >= w.bgnBest)
  }

  predicate Attained(h: seq<Test>, w: Window, i: int, j: int) {
    AllPass(h, i, j) && w.bgnBest == h[i].pos && w.endBest == h[j].pos && w.winBest == Width(h, i, j)
  }

  /** The best variables describe a longest passing run of h, the leftmost such, or say that no test passed. */
  ghost predicate Longest(h: seq<Test>, w: Window) {
    && (forall i, j {:trigger NoBetter(h, w, i, j)} :: NoBetter(h, w, i, j))
    && (w.winBest == 0 || exists i, j :: Attained(h, w, i, j))
    && w.winBest >= 0
  }

  predicate AllFail(h: seq<Test>) {
    forall k :: 0 <= k < |h| ==> !h[k].ok
  }

  /** The longest run is 0 wide exactly when every test failed. */
  lemma NoWindowIff(h: seq<Test>, w: Window)
    requires Longest(h, w) && Rising(h)
    ensures w.winBest == 0 <==> AllFail(h)
  {
    forall k | 0 <= k < |h| && h[k].ok ensures w.winBest > 0 {
      assert NoBetter(h, w, k, k) && AllPass(h, k, k);
    }
    if w.winBest != 0 {
      var i, j :| Attained(h, w, i, j);
      assert h[i].ok;
    }
  }

  // ---------------------------------------------------------------- one test

  /** The variables after a test at position pos; none is the illegal position. */
  function Observe(w: Window, t: Test, none: int): Window {
    if !t.ok then w.(bgnCurr := none, endCurr := none)
    else
      var bgn := if w.bgnCurr == none then t.pos else w.bgnCurr;
      if t.pos - bgn + 1 > w.winBest then Window(bgn, t.pos, bgn, t.pos, t.pos - bgn + 1)
      else w.(bgnCurr := bgn, endCurr := t.pos)
  }

  /** The open run of h starts at index i. */
  predicate OpenFrom(h: seq<Test>, i: int) {
    AllPass(h, i, |h| - 1) && (i == 0 || !h[i - 1].ok)
  }

  /** The current variables describe the run of passing tests that h ends with. */
  ghost predicate Current(h: seq<Test>, w: Window, none: int) {
    if h == [] || !h[|h| - 1].ok then w.bgnCurr == none && w.endCurr == none
    else w.endCurr == h[|h| - 1].pos && exists i :: OpenFrom(h, i) && w.bgnCurr == h[i].pos
  }

  predicate Below(h: seq<Test>, none: int) {
    forall k :: 0 <= k < |h| ==> h[k].pos < none
  }

  ghost predicate Tracks(h: seq<Test>, w: Window, none: int) {
    Below(h, none) && Rising(h) && Current(h, w, none) && Longest(h, w)
  }

  /** Test t can follow h. */
  predicate CanFollow(h: seq<Test>, t: Test, none: int) {
    t.pos < none && (h != [] ==> h[|h| - 1].pos <= t.pos)
  }

  lemma RisingExtends(h: seq<Test>, t: Test, none: int)
    requires Rising(h) && Below(h, none) && CanFollow(h, t, none)
    ensures Rising(h + [t]) && Below(h + [t], none)
  {
  }

  lemma OldRuns(h: seq<Test>, t: Test, i: int, j: int)
    requires j < |h|
    ensures AllPass(h + [t], i, j) == AllPass(h, i, j)
    ensures AllPass(h, i, j) ==> Width(h + [t], i, j) == Width(h, i, j)
  {
    if AllPass(h + [t], i, j) {
      forall k | i <= k <= j ensures h[k].ok {
        assert (h + [t])[k] == h[k];
      }
    }
  }

  /** A run that ends with the new test starts inside the open run. */
  lemma NewRuns(h: seq<Test>, t: Test, s: int, i: int)
    requires t.ok && AllPass(h + [t], i, |h|)
    requires if h == [] || !h[|h| - 1].ok then s == |h| else OpenFrom(h, s)
    ensures AllPass(h + [t], s, |h|) && s <= i && (s == 0 || !(h + [t])[s - 1].ok)
  {
    if s > 0 {
      assert (h + [t])[s - 1] == h[s - 1];
    }
    forall k | s <= k <= |h| ensures (h + [t])[k].ok {
      assert k < |h| ==> (h + [t])[k] == h[k];
    }
  }

  /** Where the run open after a passing test starts. */
  lemma OpenStart(h: seq<Test>, w: Window, t: Test, none: int) returns (s: int)
    requires Tracks(h, w, none) && CanFollow(h, t, none) && t.ok
    ensures 0 <= s <= |h| && (if h == [] || !h[|h| - 1].ok then s == |h| else OpenFrom(h, s))
    ensures (if w.bgnCurr == none then t.pos else w.bgnCurr) == (h + [t])[s].pos
    ensures OpenFrom(h + [t], s)
  {
    if h == [] || !h[|h| - 1].ok {
      s := |h|;
    } else {
      s :| OpenFrom(h, s) && w.bgnCurr == h[s].pos;
      assert (h + [t])[s] == h[s];
    }
    assert AllPass(h + [t], |h|, |h|);
    NewRuns(h, t, s, |h|);
  }

  /** The best run found so far does not end right of the last test. */
  lemma BestNotPast(h: seq<Test>, w: Window, t: Test, none: int)
    requires Tracks(h, w, none) && CanFollow(h, t, none) && w.winBest != 0
    ensures w.bgnBest + w.winBest - 1 <= t.pos
  {
    var i, j :| Attained(h, w, i, j);
    assert h[j].pos <= h[|h| - 1].pos;
  }

  /** A run of tests that ends with the new one, which passed and belongs to the open run from s. */
  lemma NewRunNoBetter(h: seq<Test>, w: Window, t: Test, none: int, s: int, i: int)
    requires Tracks(h, w, none) && CanFollow(h, t, none) && t.ok && 0 <= s <= i <= |h|
    requires (if w.bgnCurr == none then t.pos else w.bgnCurr) == (h + [t])[s].pos
    ensures NoBetter(h + [t], Observe(w, t, none), i, |h|)
  {
    RisingExtends(h, t, none);
    assert (h + [t])[s].pos <= (h + [t])[i].pos <= t.pos;
    if w.winBest != 0 {
      BestNotPast(h, w, t, none);
    }
  }

  lemma OldRunNoBetter(h: seq<Test>, w: Window, t: Test, none: int, i: int, j: int)
    requires Longest(h, w) && j < |h|
    ensures NoBetter(h + [t], Observe(w, t, none), i, j)
  {
    OldRuns(h, t, i, j);
    assert NoBetter(h, w, i, j);
  }

  lemma OldBestStands(h: seq<Test>, w: Window, v: Window, t: Test)
    requires Longest(h, w) && v.winBest == w.winBest != 0 && v.bgnBest == w.bgnBest && v.endBest == w.endBest
    ensures exists i, j :: Attained(h + [t], v, i, j)
  {
    var i, j :| Attained(h, w, i, j);
    OldRuns(h, t, i, j);
    assert Attained(h + [t], v, i, j);
  }

  lemma ObserveKeepsLongest(h: seq<Test>, w: Window, t: Test, none: int)
    requires Tracks(h, w, none) && CanFollow(h, t, none)
    ensures Longest(h + [t], Observe(w, t, none))
  {
    hide NoBetter, Attained, Current, OpenFrom, Observe;
    var g, v := h + [t], Observe(w, t, none);
    var s := 0;
    if t.ok {
      s := OpenStart(h, w, t, none);
    }
    forall i, j ensures NoBetter(g, v, i, j) {
      if j < |h| {
        OldRunNoBetter(h, w, t, none, i, j);
      } else if AllPass(g, i, j) {
        assert j == |h| && g[j].ok;
        NewRuns(h, t, s, i);
        NewRunNoBetter(h, w, t, none, s, i);
      } else {
        NotARun(g, v, i, j);
      }
    }
    BestAfter(h, w, t, none, s);
    if v.winBest == w.winBest && w.winBest != 0 {
      OldBestStands(h, w, v, t);
    }
  }

  lemma NotARun(h: seq<Test>, w: Window, i: int, j: int)
    requires !AllPass(h, i, j)
    ensures NoBetter(h, w, i, j)
  {
  }

  lemma BestAfter(h: seq<Test>, w: Window, t: Test, none: int, s: int)
    requires w.winBest >= 0
    requires t.ok ==> OpenFrom(h + [t], s) && (if w.bgnCurr == none then t.pos else w.bgnCurr) == (h + [t])[s].pos
    ensures var v := Observe(w, t, none);
            && v.winBest >= w.winBest
            && (v.winBest == w.winBest ==> v.bgnBest == w.bgnBest && v.endBest == w.endBest)
            && (v.winBest != w.winBest ==> Attained(h + [t], v, s, |h|))
  {
  }

  /** One test, seen by the search, keeps its variables right. */
  lemma ObserveTracks(h: seq<Test>, w: Window, t: Test, none: int)
    requires Tracks(h, w, none) && CanFollow(h, t, none)
    ensures Tracks(h + [t], Observe(w, t, none), none)
  {
    hide Longest;
    RisingExtends(h, t, none);
    ObserveKeepsLongest(h, w, t, none);
    if t.ok {
      var s := OpenStart(h, w, t, none);
    }
  }

  // ---------------------------------------------------------------- early exit

  /** Failing tests and tests too few to beat the best run change nothing: what is left of the axis need not be tested. */
  lemma RestNoBetter(h: seq<Test>, w: Window, rest: seq<Test>)
    requires Longest(h, w) && Rising(h + rest) && h != [] && !h[|h| - 1].ok && rest != []
    requires w.winBest > rest[|rest| - 1].pos - rest[0].pos + 1
    ensures Longest(h + rest, w)
  {
    var g := h + rest;
    forall i, j ensures NoBetter(g, w, i, j) {
      if AllPass(g, i, j) {
        if j < |h| {
          assert AllPass(h, i, j) by {
            forall k | i <= k <= j ensures h[k].ok {
              assert g[k] == h[k];
            }
          }
          assert NoBetter(h, w, i, j);
        } else {
          assert i > |h| - 1 by {
            assert g[|h| - 1] == h[|h| - 1];
          }
          assert g[|h|].pos <= g[i].pos && g[j].pos <= g[|g| - 1].pos;
        }
      }
    }
    assert g[|h|] == rest[0] && g[|g| - 1] == rest[|rest| - 1];
    assert g[|h|].pos <= g[|g| - 1].pos;
    var i, j :| Attained(h, w, i, j);
    assert Attained(g, w, i, j);
  }

  // ---------------------------------------------------------------- the search

  /** The k-th test of a call: DM goes down from max to 0, DQS up from 0 to max. */
  function TestAt(searchDm: bool, max: int, pass: int -> bool, k: int): Test {
    if searchDm then Test(k - max, pass(max - k)) else Test(k, pass(k))
  }

  /** The first n tests of a call. */
  function Sweep(searchDm: bool, max: int, pass: int -> bool, n: nat): seq<Test> {
    seq(n, k => TestAt(searchDm, max, pass, k))
  }

  function SweepLength(max: int): nat {
    if max < 0 then 0 else max + 1
  }

  /** Every test a call would make without the early exit. */
  function FullSweep(searchDm: bool, max: int, pass: int -> bool): seq<Test> {
    Sweep(searchDm, max, pass, SweepLength(max))
  }

  predicate SweepCanFollow(h: seq<Test>, searchDm: bool, max: int, none: int) {
    h == [] || h[|h| - 1].pos <= TestAt(searchDm, max, _ => false, 0).pos
  }

  lemma SweepRises(h: seq<Test>, searchDm: bool, max: int, pass: int -> bool, none: int, n: nat)
    requires Rising(h) && Below(h, none) && SweepCanFollow(h, searchDm, max, none) && n <= SweepLength(max) && max < none
    requires none > 0
    ensures Rising(h + Sweep(searchDm, max, pass, n)) && Below(h + Sweep(searchDm, max, pass, n), none)
    ensures n < SweepLength(max) ==> CanFollow(h + Sweep(searchDm, max, pass, n), TestAt(searchDm, max, pass, n), none)
  {
  }

  lemma SweepStep(h: seq<Test>, searchDm: bool, max: int, pass: int -> bool, n: nat)
    ensures h + Sweep(searchDm, max, pass, n + 1) == h + Sweep(searchDm, max, pass, n) + [TestAt(searchDm, max, pass, n)]
  {
  }

  /** What the search needs to know before it starts: h was tested, and the sweep goes on to the right of it. */
  ghost predicate Ready(h: seq<Test>, searchDm: bool, max: int, none: int) {
    Rising(h) && Below(h, none) && SweepCanFollow(h, searchDm, max, none) && max < none && none > 0
  }

  lemma SweepTracks(h: seq<Test>, searchDm: bool, max: int, pass: int -> bool, none: int, n: nat, w: Window)
    requires Ready(h, searchDm, max, none) && n < SweepLength(max) && Tracks(h + Sweep(searchDm, max, pass, n), w, none)
    ensures Tracks(h + Sweep(searchDm, max, pass, n + 1), Observe(w, TestAt(searchDm, max, pass, n), none), none)
  {
    hide Tracks, Longest, Current, Observe;
    SweepRises(h, searchDm, max, pass, none, n);
    ObserveTracks(h + Sweep(searchDm, max, pass, n), w, TestAt(searchDm, max, pass, n), none);
    SweepStep(h, searchDm, max, pass, n);
  }

  /** The early exit after a failing test n of a DQS call: the tests left cannot matter. */
  lemma EarlyExit(h: seq<Test>, max: int, pass: int -> bool, none: int, n: nat, w: Window)
    requires Ready(h, false, max, none) && n < SweepLength(max)
    requires !pass(n) && Tracks(h + Sweep(false, max, pass, n + 1), w, none) && w.winBest - 1 > max - n
    ensures Longest(h + FullSweep(false, max, pass), w)
  {
    hide Longest;
    var g, rest := h + Sweep(false, max, pass, n + 1), FullSweep(false, max, pass)[n + 1..];
    assert FullSweep(false, max, pass) == Sweep(false, max, pass, n + 1) + rest;
    assert g + rest == h + FullSweep(false, max, pass);
    SweepRises(h, false, max, pass, none, SweepLength(max));
    if rest == [] {
      assert g + rest == g;
    } else {
      SweepStep(h, false, max, pass, n);
      RestNoBetter(g, w, rest);
    }
  }

  /** One call of the search. h is what has been tested before it; pass is the hardware test of each delay. */
  method SearchWindow(delayMax: nat, searchDm: bool, newDqs: nat, pass: int -> bool, start: Window, ghost h: seq<Test>)
    returns (w: Window)
    requires Tracks(h, start, delayMax + 1) && Ready(h, searchDm, delayMax - newDqs, delayMax + 1)
    ensures Longest(h + FullSweep(searchDm, delayMax - newDqs, pass), w)
    ensures searchDm ==> Tracks(h + FullSweep(searchDm, delayMax - newDqs, pass), w, delayMax + 1)
  {
    hide Tracks, Ready, Longest, Sweep;
    var max := delayMax - newDqs;
    w := start;
    var di := max;
    ghost var n := 0;
    SweepStart(h, searchDm, max, pass);
    while di >= 0
      invariant di == max - n && n <= SweepLength(max)
      invariant Tracks(h + Sweep(searchDm, max, pass, n), w, delayMax + 1)
    {
      SweepTracks(h, searchDm, max, pass, delayMax + 1, n, w);
      ghost var v := Observe(w, TestAt(searchDm, max, pass, n), delayMax + 1);
      var d := if searchDm then di else max - di;
      if pass(d) {
        w := w.(endCurr := if searchDm then -d else d);
        if w.bgnCurr == delayMax + 1 {
          w := w.(bgnCurr := if searchDm then -d else d);
        }
        if w.endCurr - w.bgnCurr + 1 > w.winBest {
          w := w.(winBest := w.endCurr - w.bgnCurr + 1, bgnBest := w.bgnCurr, endBest := w.endCurr);
        }
      } else {
        w := w.(bgnCurr := delayMax + 1, endCurr := delayMax + 1);
        if !searchDm && w.winBest - 1 > delayMax - newDqs - d {
          EarlyExit(h, max, pass, delayMax + 1, n, w);
          return;
        }
      }
      assert w == v;
      n := n + 1;
      di := di - 1;
    }
    TracksMeansLongest(h + FullSweep(searchDm, max, pass), w, delayMax + 1);
  }

  lemma SweepStart(h: seq<Test>, searchDm: bool, max: int, pass: int -> bool)
    ensures h + Sweep(searchDm, max, pass, 0) == h
  {
  }

  lemma TracksMeansLongest(h: seq<Test>, w: Window, none: int)
    requires Tracks(h, w, none)
    ensures Longest(h, w)
  {
  }

  // ---------------------------------------------------------------- the two calls

  /** The joined axis: DM delays from delayMax down to 0, then DQS delays from 0 up. Position 0 is tested twice. */
  function JoinedAxis(delayMax: nat, newDqs: nat, dmPass: int -> bool, dqsPass: int -> bool): (h: seq<Test>)
    ensures |h| > delayMax
  {
    FullSweep(true, delayMax, dmPass) + FullSweep(false, delayMax - newDqs, dqsPass)
  }

  lemma AxisRises(delayMax: nat, newDqs: nat, dmPass: int -> bool, dqsPass: int -> bool)
    ensures Ready([], true, delayMax, delayMax + 1)
    ensures Ready(FullSweep(true, delayMax, dmPass), false, delayMax - newDqs, delayMax + 1)
    ensures Rising(JoinedAxis(delayMax, newDqs, dmPass, dqsPass))
  {
    var h := FullSweep(true, delayMax, dmPass);
    SweepRises([], true, delayMax, dmPass, delayMax + 1, SweepLength(delayMax));
    assert [] + h == h;
    SweepRises(h, false, delayMax - newDqs, dqsPass, delayMax + 1, SweepLength(delayMax - newDqs));
  }

  /** The reset between the calls forgets nothing: a window that does not end at 0 is closed. */
  lemma ResetIsIdle(delayMax: nat, dmPass: int -> bool, w: Window)
    requires Tracks(FullSweep(true, delayMax, dmPass), w, delayMax + 1) && w.endCurr != 0
    ensures w.bgnCurr == delayMax + 1 && w.endCurr == delayMax + 1
  {
    hide Longest, Rising, Below;
  }

  /** The DM call and the DQS call together find a longest passing run of the whole joined axis, the leftmost one. */
  method CentreWrites(delayMax: nat, newDqs: nat, dmPass: int -> bool, dqsPass: int -> bool) returns (w: Window)
    ensures Longest(JoinedAxis(delayMax, newDqs, dmPass, dqsPass), w)
    ensures w.winBest == 0 <==> AllFail(JoinedAxis(delayMax, newDqs, dmPass, dqsPass))
  {
    hide FullSweep, Ready;
    AxisRises(delayMax, newDqs, dmPass, dqsPass);
    var none := delayMax + 1;
    w := Window(none, none, none, none, 0);
    assert Tracks([], w, none);
    hide Tracks, Longest;
    w := SearchWindow(delayMax, true, 0, dmPass, w, []);
    ghost var h := FullSweep(true, delayMax, dmPass);
    assert [] + h == h;
    if w.endCurr != 0 {
      ResetIsIdle(delayMax, dmPass, w);
      w := w.(bgnCurr := none, endCurr := none);
    }
    w := SearchWindow(delayMax, false, newDqs, dqsPass, w, h);
    NoWindowIff(JoinedAxis(delayMax, newDqs, dmPass, dqsPass), w);
  }

  /** C's division by two rounds towards zero. */
  function Half(n: int): int {
    if n >= 0 then n / 2 else -(-n / 2)
  }

  /** The DM delay and margin the calibration takes from the best window. */
  function DmCentre(w: Window): (int, int) {
    var left, right := -w.bgnBest, w.endBest;
    var mid := if Half(left - right) < 0 then 0 else Half(left - right);
    (mid, if w.winBest == 0 then -1 else left - mid)
  }

  /** The DM part succeeds exactly when a window was found that begins at or left of position 0; the delay chosen then
      lies inside the window. */
  lemma MarginIff(h: seq<Test>, w: Window)
    requires Longest(h, w) && Rising(h)
    ensures DmCentre(w).1 >= 0 <==> w.winBest != 0 && w.bgnBest <= 0
    ensures DmCentre(w).1 >= 0 ==> DmCentre(w).0 >= 0 && w.bgnBest <= -DmCentre(w).0 <= w.endBest
  {
    if w.winBest != 0 {
      var i, j :| Attained(h, w, i, j);
      assert h[i].pos <= h[j].pos;
    }
  }

  /** The delay chosen is the centre of the window found, or the delay just right of it when the centre lies between two:
      its distances to the two edges are equal, or the left one is one more. Unless the centre lies right of position 0,
      where no DM delay can go; the margin is the distance to the left edge. */
  lemma DmCentred(w: Window)
    ensures var (left, right, (mid, margin)) := (-w.bgnBest, w.endBest, DmCentre(w));
            && (left >= right ==> 0 <= (left - mid) - (right + mid) <= 1)
            && (left < right ==> mid == 0) && mid >= 0
            && (w.winBest != 0 ==> margin == left - mid) && (w.winBest == 0 ==> margin == -1)
  {
  }

  /** The joined axis holds one test for every DM delay, from the largest to 0, and then one for every DQS delay up to
      the last one the chain has, each with the hardware's answer. */
  lemma AxisCovers(delayMax: nat, newDqs: nat, dmPass: int -> bool, dqsPass: int -> bool, k: nat)
    requires newDqs <= delayMax
    ensures var h := JoinedAxis(delayMax, newDqs, dmPass, dqsPass);
            && |h| == delayMax + 1 + (delayMax - newDqs + 1)
            && (k <= delayMax ==> h[k] == Test(k - delayMax, dmPass(delayMax - k)))
            && (delayMax < k < |h| ==> h[k] == Test(k - delayMax - 1, dqsPass(k - delayMax - 1)))
  {
  }

  /** If only DQS delay 2 passes, the window found is 2..2 and the DM part fails. */
  lemma WindowRightOfZero(dmPass: int -> bool, dqsPass: int -> bool, w: Window)
    requires (forall d :: !dmPass(d)) && (forall d :: dqsPass(d) <==> d == 2)
    requires Longest(JoinedAxis(3, 0, dmPass, dqsPass), w)
    ensures w.winBest == 1 && w.bgnBest == 2 && w.endBest == 2 && DmCentre(w).1 < 0
  {
    var h := JoinedAxis(3, 0, dmPass, dqsPass);
    assert |h| == 8 && h[6] == Test(2, true);
    assert forall k :: 0 <= k < 8 && k != 6 ==> !h[k].ok;
    assert AllPass(h, 6, 6) && NoBetter(h, w, 6, 6);
    var i, j :| Attained(h, w, i, j);
    assert h[i].ok && h[j].ok;
  }
}
