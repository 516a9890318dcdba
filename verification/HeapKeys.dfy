/** Stored orders against the times they stand for: which nodes of a heap are stale, and what a stale node hides. */
module HeapKeys {
  import opened Wrapped
  import opened HeapOps

  /** The threads of s whose node does not hold their time. */
  function StaleIn(s: seq<Node>, m: map<nat, nat>): (r: set<nat>) {
    set n | n in s && n.thread in m && n.order != m[n.thread] :: n.thread
  }

  predicate KeyOk(n: Node, m: map<nat, nat>) {
    n.thread in m && n.order <= m[n.thread]
  }

  predicate Same(m: map<nat, nat>, m': map<nat, nat>, t: nat) {
    t in m && t in m' && m'[t] == m[t]
  }

  /** No stored order is above its thread's time, and at most one is below. */
  ghost predicate Keyed(s: seq<Node>, m: map<nat, nat>) {
    && (forall n {:trigger KeyOk(n, m)} :: n in s ==> KeyOk(n, m))
    && (forall a, b :: a in StaleIn(s, m) && b in StaleIn(s, m) ==> a == b)
  }

  lemma InThreads(s: seq<Node>, n: Node)
    requires n in s
    ensures n.thread in Threads(s) && n.thread in multiset(Threads(s))
  {
    var i :| 0 <= i < |s| && s[i] == n;
    assert Threads(s)[i] == n.thread;
  }

  lemma ThreadsIn(s: seq<Node>, t: nat) returns (n: Node)
    requires t in Threads(s)
    ensures n in s && n.thread == t
  {
    var i :| 0 <= i < |s| && Threads(s)[i] == t;
    n := s[i];
  }

  lemma SameNodes(s: seq<Node>, s': seq<Node>)
    requires multiset(s') == multiset(s)
    ensures forall n :: n in s' <==> n in s
  {
    assert forall n :: n in s' <==> n in multiset(s');
    assert forall n :: n in s <==> n in multiset(s);
  }

  /** Reordering, and changing times of threads outside the heap, change nothing. */
  lemma KeysSame(s: seq<Node>, m: map<nat, nat>, s': seq<Node>, m': map<nat, nat>)
    requires Keyed(s, m) && multiset(s') == multiset(s)
    requires forall t {:trigger Same(m, m', t)} :: t in Threads(s) ==> Same(m, m', t)
    ensures Keyed(s', m') && StaleIn(s', m') == StaleIn(s, m)
  {
    SameNodes(s, s');
    forall n | n in s ensures Same(m, m', n.thread) {
      InThreads(s, n);
    }
    forall n | n in s' ensures KeyOk(n, m') {
      assert KeyOk(n, m);
    }
    StaleSame(s, m, s', m');
  }

  lemma StaleSame(s: seq<Node>, m: map<nat, nat>, s': seq<Node>, m': map<nat, nat>)
    requires forall n :: n in s' <==> n in s
    requires forall n {:trigger Same(m, m', n.thread)} :: n in s ==> Same(m, m', n.thread)
    ensures StaleIn(s', m') == StaleIn(s, m)
  {
    forall t ensures t in StaleIn(s', m') <==> t in StaleIn(s, m) {
      if t in StaleIn(s', m') {
        var n :| n in s' && n.thread == t && n.thread in m' && n.order != m'[n.thread];
        assert Same(m, m', n.thread);
      }
      if t in StaleIn(s, m) {
        var n :| n in s && n.thread == t && n.thread in m && n.order != m[n.thread];
        assert Same(m, m', n.thread);
      }
    }
  }

  /** A thread filed under its time joins no stale set. */
  lemma KeysInsert(s: seq<Node>, m: map<nat, nat>, m': map<nat, nat>, n: Node)
    requires Keyed(s, m) && n.thread in m' && m'[n.thread] == n.order
    requires forall t {:trigger Same(m, m', t)} :: t in Threads(s) ==> Same(m, m', t)
    ensures Keyed(Insert(s, n), m') && StaleIn(Insert(s, n), m') == StaleIn(s, m)
  {
    var e := Insert(s, n);
    InsertPerm(s, n);
    forall k ensures k in e <==> k in s || k == n {
      assert k in e <==> k in multiset(e);
      assert k in s <==> k in multiset(s);
    }
    forall k | k in s ensures Same(m, m', k.thread) {
      InThreads(s, k);
    }
    forall k | k in e ensures KeyOk(k, m') {
      assert k in s ==> KeyOk(k, m);
    }
    forall t ensures t in StaleIn(e, m') <==> t in StaleIn(s, m) {
      if t in StaleIn(e, m') {
        var k :| k in e && k.thread == t && k.thread in m' && k.order != m'[k.thread];
        assert Same(m, m', k.thread);
      }
      if t in StaleIn(s, m) {
        var k :| k in s && k.thread == t && k.thread in m && k.order != m[k.thread];
        assert Same(m, m', k.thread);
      }
    }
  }

  /** A removed thread leaves the stale set; the rest stays. */
  lemma KeysRemove(s: seq<Node>, m: map<nat, nat>, e: seq<Node>, m': map<nat, nat>, n: Node)
    requires Keyed(s, m) && multiset(s) == multiset(e) + multiset{n} && n.thread !in Threads(e)
    requires forall t {:trigger Same(m, m', t)} :: t in Threads(e) ==> Same(m, m', t)
    ensures Keyed(e, m') && StaleIn(e, m') == StaleIn(s, m) - {n.thread}
  {
    forall k ensures k in s <==> k in e || k == n {
      assert k in e <==> k in multiset(e);
      assert k in s <==> k in multiset(s);
    }
    forall k | k in e ensures Same(m, m', k.thread) && k.thread != n.thread {
      InThreads(e, k);
    }
    forall k | k in e ensures KeyOk(k, m') {
      assert KeyOk(k, m);
    }
    forall t ensures t in StaleIn(e, m') <==> t in StaleIn(s, m) && t != n.thread {
      if t in StaleIn(e, m') {
        var k :| k in e && k.thread == t && k.thread in m' && k.order != m'[k.thread];
        assert Same(m, m', k.thread);
      }
      if t in StaleIn(s, m) && t != n.thread {
        var k :| k in s && k.thread == t && k.thread in m && k.order != m[k.thread];
        assert Same(m, m', k.thread);
      }
    }
  }

  /** Re-keying one of several nodes files it under its new time. */
  lemma KeysRekey(s: seq<Node>, m: map<nat, nat>, m': map<nat, nat>, i: nat, order: nat)
    requires Keyed(s, m) && |s| > 1 && i < |s| && s[i].thread in m' && m'[s[i].thread] == order
    requires forall j :: 0 <= j < |s| && j != i ==> s[j].thread != s[i].thread
    requires forall t {:trigger Same(m, m', t)} :: t in Threads(s) && t != s[i].thread ==> Same(m, m', t)
    ensures Keyed(Balance(s, i, order), m') && StaleIn(Balance(s, i, order), m') == StaleIn(s, m) - {s[i].thread}
  {
    var n, r := s[i].(order := order), s[i := s[i].(order := order)];
    BalancePerm(s, i, order);
    SameNodes(r, Balance(s, i, order));
    forall k | k in r && k != n ensures k in s && Same(m, m', k.thread) && k.thread != n.thread {
      var j :| 0 <= j < |r| && r[j] == k;
      InThreads(s, s[j]);
    }
    forall k | k in s && k.thread != n.thread ensures k in r && Same(m, m', k.thread) {
      var j :| 0 <= j < |s| && s[j] == k;
      assert r[j] == k;
      InThreads(s, k);
    }
    assert r[i] == n;
    forall k | k in r ensures KeyOk(k, m') {
      assert k in s ==> KeyOk(k, m);
    }
    var e := Balance(s, i, order);
    forall t ensures t in StaleIn(e, m') <==> t in StaleIn(s, m) && t != n.thread {
      if t in StaleIn(e, m') {
        var k :| k in e && k.thread == t && k.thread in m' && k.order != m'[k.thread];
        assert k != n;
      }
      if t in StaleIn(s, m) && t != n.thread {
        var k :| k in s && k.thread == t && k.thread in m && k.order != m[k.thread];
        assert k in r;
      }
    }
  }

  /** A node alone in its heap keeps its order when its thread's time moves on: it is stale from then on. */
  lemma KeysAlone(s: seq<Node>, m: map<nat, nat>, m': map<nat, nat>, order: nat)
    requires Keyed(s, m) && |s| == 1 && s[0].thread in m && s[0].thread in m' && m'[s[0].thread] == order > m[s[0].thread]
    ensures Keyed(Balance(s, 0, order), m') && StaleIn(Balance(s, 0, order), m') == {s[0].thread}
  {
    assert KeyOk(s[0], m) && s[0] in s;
    assert forall n :: n in s ==> n == s[0];
    assert s[0].thread in StaleIn(s, m');
  }

  // ---------------------------------------------------------------- what a stale node hides

  /** A child of the root is stored below x. */
  predicate ChildBelowKey(s: seq<Node>, x: nat) {
    (|s| > 1 && s[1].order < x) || (|s| > 2 && s[2].order < x)
  }

  /** Every thread of the heap has a time of at least x. */
  ghost predicate AllFrom(s: seq<Node>, m: map<nat, nat>, x: nat) {
    forall n :: n in s ==> n.thread in m && m[n.thread] >= x
  }

  /** Below a window's wrap the stored orders grow along every path from the root. */
  lemma {:induction false} PathGrows(w: nat, s: seq<Node>, i: nat) returns (j: nat)
    requires Plain(w) && HeapOrder(s) && Fits(w, s) && 0 < i < |s|
    ensures (j == 1 || j == 2) && j < |s| && s[0].order <= s[j].order <= s[i].order
    decreases i
  {
    var p := Parent(i);
    OrderGrows(w, s, i);
    if p == 0 {
      j := i;
    } else {
      j := PathGrows(w, s, p);
    }
  }

  lemma OrderGrows(w: nat, s: seq<Node>, i: nat)
    requires Plain(w) && HeapOrder(s) && Fits(w, s) && 0 < i < |s|
    ensures s[Parent(i)].order <= s[i].order
  {
    assert AboveParent(s, i) && FitsAt(w, s, i) && FitsAt(w, s, Parent(i));
    PlainOrder(w, s[i].order, s[Parent(i)].order);
  }

  /** If the root's thread is not before x, then no thread of the heap is, exactly when no child of the root is stored
      below x: the one stale node there can be is then either the root or harmless. */
  lemma AllFromIff(w: nat, s: seq<Node>, m: map<nat, nat>, x: nat)
    requires Plain(w) && HeapOrder(s) && Fits(w, s) && Keyed(s, m) && s != []
    requires s[0].thread in m && m[s[0].thread] >= x
    requires forall j :: 0 < j < |s| ==> s[j].thread != s[0].thread
    ensures AllFrom(s, m, x) <==> !ChildBelowKey(s, x)
  {
    if !ChildBelowKey(s, x) {
      forall n | n in s ensures n.thread in m && m[n.thread] >= x {
        var i :| 0 <= i < |s| && s[i] == n;
        assert KeyOk(n, m);
        if i > 0 {
          var j := PathGrows(w, s, i);
        }
      }
    } else {
      var j := if |s| > 1 && s[1].order < x then 1 else 2;
      OrderGrows(w, s, j);
      assert s[j] in s && KeyOk(s[j], m) && s[0] in s && KeyOk(s[0], m);
      assert s[0].thread in StaleIn(s, m);
      assert s[j].thread !in StaleIn(s, m);
    }
  }

  /** Without stale nodes the root's thread is first. */
  lemma FreshFirst(w: nat, s: seq<Node>, m: map<nat, nat>, x: nat)
    requires Plain(w) && HeapOrder(s) && Fits(w, s) && Keyed(s, m) && s != [] && s[0].thread !in StaleIn(s, m)
    requires s[0].thread in m && m[s[0].thread] >= x
    ensures AllFrom(s, m, x)
  {
    assert KeyOk(s[0], m) && s[0] in s;
    forall n | n in s ensures n.thread in m && m[n.thread] >= x {
      var i :| 0 <= i < |s| && s[i] == n;
      assert KeyOk(n, m);
      if i > 0 {
        var j := PathGrows(w, s, i);
      }
    }
  }
}
