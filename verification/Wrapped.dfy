/** Wrap-around comparison of 32-bit counters: the sign of the 32-bit difference. */
module Wrapped {
  import opened Words

  const HALF := 0x8000_0000

  /** `a - b` on uint32_t */
  function Sub32(a: nat, b: nat): (r: nat)
    ensures r < WORD
    ensures b <= a < WORD ==> r == a - b
  {
    (a - b) % WORD
  }

  /** `a + b` on uint32_t */
  function Add32(a: nat, b: nat): (r: nat)
    ensures r < WORD
    ensures a + b < WORD ==> r == a + b
  {
    (a + b) % WORD
  }

  /** `(int32_t) x` */
  function Signed(x: nat): int {
    if x < HALF then x else x - WORD
  }

  predicate GtWrapped(a: nat, b: nat) {
    Signed(Sub32(a, b)) > 0
  }

  predicate GeqWrapped(a: nat, b: nat) {
    Signed(Sub32(a, b)) >= 0
  }

  predicate LtWrapped(a: nat, b: nat) {
    Signed(Sub32(a, b)) < 0
  }

  /** Distance of a counter value from the start of a window. */
  function Key(w: nat, a: nat): nat {
    Sub32(a, w)
  }

  /** a is one of the 2^31 counter values that start at w. */
  predicate InWindow(w: nat, a: nat) {
    a < WORD && w < WORD && Key(w, a) < HALF
  }

  lemma KeyIs(w: nat, a: nat)
    requires a < WORD && w < WORD
    ensures Key(w, a) == if a >= w then a - w else a - w + WORD
  {
  }

  /** Inside a half-range window the wrapped comparisons are the order of the keys. */
  lemma WindowOrder(w: nat, a: nat, b: nat)
    requires InWindow(w, a) && InWindow(w, b)
    ensures LtWrapped(a, b) <==> Key(w, a) < Key(w, b)
    ensures GeqWrapped(a, b) <==> Key(w, a) >= Key(w, b)
    ensures GtWrapped(a, b) <==> Key(w, a) > Key(w, b)
    ensures Key(w, a) == Key(w, b) <==> a == b
  {
    KeyIs(w, a);
    KeyIs(w, b);
    KeyIs(b, a);
  }

  /** Hence a strict total order on any half-range window. */
  lemma WindowStrictTotalOrder(w: nat, a: nat, b: nat, c: nat)
    requires InWindow(w, a) && InWindow(w, b) && InWindow(w, c)
    ensures !LtWrapped(a, a)
    ensures LtWrapped(a, b) && LtWrapped(b, c) ==> LtWrapped(a, c)
    ensures LtWrapped(a, b) || a == b || LtWrapped(b, a)
    ensures !(LtWrapped(a, b) && LtWrapped(b, a))
    ensures GeqWrapped(a, b) <==> !LtWrapped(a, b)
  {
    WindowOrder(w, a, b);
    WindowOrder(w, b, c);
    WindowOrder(w, a, c);
    WindowOrder(w, a, a);
    WindowOrder(w, b, a);
  }

  /** The wrapped comparison is a strict total order on s. */
  ghost predicate OrderedOn(s: set<nat>) {
    && (forall a :: a in s ==> !LtWrapped(a, a))
    && (forall a, b, c :: a in s && b in s && c in s && LtWrapped(a, b) && LtWrapped(b, c) ==> LtWrapped(a, c))
    && (forall a, b :: a in s && b in s ==> LtWrapped(a, b) || a == b || LtWrapped(b, a))
  }

  predicate AllInWindow(w: nat, s: set<nat>) {
    forall a :: a in s ==> InWindow(w, a)
  }

  /** The element of s that comes before all others. */
  lemma {:induction false} LeastOf(s: set<nat>) returns (w: nat)
    requires OrderedOn(s) && s != {}
    ensures w in s && forall a :: a in s ==> a == w || LtWrapped(w, a)
    decreases |s|
  {
    hide LtWrapped;
    var x :| x in s;
    var t := s - {x};
    assert forall a :: a in s ==> a == x || a in t;
    if t == {} {
      w := x;
    } else {
      var m := LeastOf(t);
      w := if LtWrapped(x, m) then x else m;
      forall a | a in s ensures a == w || LtWrapped(w, a) {
        assert a == x || a in t;
      }
    }
  }

  /** Two words each below the other are half the range apart. */
  lemma BelowIsAhead(w: nat, a: nat)
    requires w < WORD && a < WORD && LtWrapped(w, a) && !LtWrapped(a, w)
    ensures InWindow(w, a)
  {
    KeyIs(w, a);
    KeyIs(a, w);
  }

  /** On a set of words the wrapped comparison is a strict total order exactly when some half-range window holds them
      all; the window can start at the least of them. */
  lemma OrderedIffWindow(s: set<nat>)
    requires s != {} && forall a :: a in s ==> a < WORD
    ensures OrderedOn(s) <==> exists w :: w in s && AllInWindow(w, s)
    ensures OrderedOn(s) <==> exists w :: AllInWindow(w, s)
  {
    if OrderedOn(s) {
      var w := LeastOf(s);
      forall a | a in s ensures InWindow(w, a) {
        if a == w {
          KeyIs(w, w);
        } else {
          BelowIsAhead(w, a);
        }
      }
      assert AllInWindow(w, s);
    }
    if w :| AllInWindow(w, s) {
      WindowOrders(w, s);
    }
  }

  lemma WindowOrders(w: nat, s: set<nat>)
    requires AllInWindow(w, s)
    ensures OrderedOn(s)
  {
    forall a, b, c | a in s && b in s && c in s
      ensures !LtWrapped(a, a)
      ensures LtWrapped(a, b) && LtWrapped(b, c) ==> LtWrapped(a, c)
      ensures LtWrapped(a, b) || a == b || LtWrapped(b, a) {
      WindowStrictTotalOrder(w, a, b, c);
    }
  }

  /** Two sets that no window holds: values a third of the range apart form a cycle, and values half the range apart
      are each below the other. */
  lemma NoWindowNoOrder()
    ensures LtWrapped(0, 0x6000_0000) && LtWrapped(0x6000_0000, 0xC000_0000) && LtWrapped(0xC000_0000, 0)
    ensures LtWrapped(0, HALF) && LtWrapped(HALF, 0)
    ensures !OrderedOn({0, 0x6000_0000, 0xC000_0000}) && !OrderedOn({0, HALF})
  {
    KeyIs(0x6000_0000, 0);
    KeyIs(0xC000_0000, 0x6000_0000);
    KeyIs(0, 0xC000_0000);
    KeyIs(HALF, 0);
    KeyIs(0, HALF);
    CycleUnordered({0, 0x6000_0000, 0xC000_0000}, 0, 0x6000_0000, 0xC000_0000);
    CycleUnordered({0, HALF}, 0, HALF, 0);
  }

  lemma CycleUnordered(s: set<nat>, a: nat, b: nat, c: nat)
    requires a in s && b in s && c in s && LtWrapped(a, b) && (b == c || LtWrapped(b, c)) && (c == a || LtWrapped(c, a))
    requires LtWrapped(b, a) || c != a
    ensures !OrderedOn(s)
  {
    hide LtWrapped;
  }

  /** The window [w, w + 2^31) does not cross 2^32: wrapped and plain comparison agree in it. */
  predicate Plain(w: nat) {
    w + HALF <= WORD
  }

  lemma PlainOrder(w: nat, a: nat, b: nat)
    requires Plain(w) && InWindow(w, a) && InWindow(w, b)
    ensures LtWrapped(a, b) <==> a < b
    ensures GeqWrapped(a, b) <==> a >= b
  {
    WindowOrder(w, a, b);
    KeyIs(w, a);
    KeyIs(w, b);
  }

  lemma PlainWindow(w: nat, a: nat)
    requires Plain(w) && w <= a < w + HALF
    ensures InWindow(w, a)
  {
    KeyIs(w, a);
  }
}
