/** FreeRTOS list.c: a circular, doubly linked, value-ordered list whose end marker is part of the ring. */
module KernelList {
  /** portMAX_DELAY: the value of the end marker, and the largest an item can have. */
  const MAX_DELAY: nat := 0xFFFF_FFFF

  // ---------------------------------------------------------------- sorted insertion on values

  /** The position before the first value greater than v. */
  function FirstAbove(s: seq<nat>, v: nat): (k: nat)
    ensures k <= |s| && (forall i :: 0 <= i < k ==> s[i] <= v) && (k < |s| ==> s[k] > v)
  {
    if s == [] || s[0] > v then 0 else 1 + FirstAbove(s[1..], v)
  }

  predicate Sorted(s: seq<nat>) {
    forall i, j :: 0 <= i < j < |s| ==> s[i] <= s[j]
  }

  function InsertAt<T>(s: seq<T>, k: nat, x: T): seq<T>
    requires k <= |s|
  {
    s[..k] + [x] + s[k..]
  }

  function RemoveAt<T>(s: seq<T>, k: nat): seq<T>
    requires k < |s|
  {
    s[..k] + s[k + 1..]
  }

  lemma InsertedAt<T>(s: seq<T>, k: nat, x: T, i: nat)
    requires k <= |s| && i <= |s|
    ensures InsertAt(s, k, x)[i] == if i < k then s[i] else if i == k then x else s[i - 1]
  {
  }

  /** Inserting before the first greater value keeps a sorted list sorted and is stable: equal values stay in front, and
      a value of MAX_DELAY goes to the very end. */
  lemma {:induction false} InsertKeepsSorted(s: seq<nat>, v: nat)
    requires Sorted(s)
    ensures var k := FirstAbove(s, v);
            && Sorted(InsertAt(s, k, v))
            && (forall i :: 0 <= i < |s| ==> (i < k <==> s[i] <= v))
            && ((forall i :: 0 <= i < |s| ==> s[i] <= v) ==> k == |s|)
  {
    hide FirstAbove;
    var k := FirstAbove(s, v);
    var q := InsertAt(s, k, v);
    forall i | 0 <= i < |s| ensures i < k <==> s[i] <= v {
      assert i > k ==> s[k] <= s[i];
    }
    forall i, j | 0 <= i < j < |q| ensures q[i] <= q[j] {
      InsertedAt(s, k, v, i);
      InsertedAt(s, k, v, j);
    }
  }

  // ---------------------------------------------------------------- the linked ring

  class ListItem {
    var value: nat
    var next: ListItem?
    var previous: ListItem?
    var container: List?

    constructor (value: nat)
      ensures this.value == value && container == null
    {
      this.value, next, previous, container := value, null, null, null;
    }
  }

  function After(n: nat, i: nat): nat
    requires i < n
  {
    if i + 1 < n then i + 1 else 0
  }

  function Before(n: nat, i: nat): nat
    requires i < n
  {
    if i > 0 then i - 1 else n - 1
  }

  predicate LinkAt<T(==)>(r: seq<T>, ns: seq<T>, ps: seq<T>, i: nat)
    requires |r| == |ns| == |ps| && i < |r|
  {
    ns[i] == r[After(|r|, i)] && ps[i] == r[Before(|r|, i)]
  }

  /** Node i of r has next ns[i] and previous ps[i]: the links close into one ring in both directions. */
  predicate Linked<T(==)>(r: seq<T>, ns: seq<T>, ps: seq<T>) {
    && |r| == |ns| == |ps|
    && forall i {:trigger LinkAt(r, ns, ps, i)} :: 0 <= i < |r| ==> LinkAt(r, ns, ps, i)
  }

  predicate Apart<T(==)>(r: seq<T>, i: nat, j: nat)
    requires i < |r| && j < |r|
  {
    i != j ==> r[i] != r[j]
  }

  predicate Distinct<T(==)>(r: seq<T>) {
    forall i, j {:trigger Apart(r, i, j)} :: 0 <= i < |r| && 0 <= j < |r| ==> Apart(r, i, j)
  }

  /** Linking x in behind node k takes four link writes. */
  lemma LinkedIn<T>(r: seq<T>, ns: seq<T>, ps: seq<T>, k: nat, x: T)
    requires Linked(r, ns, ps) && k < |r|
    ensures Linked(InsertAt(r, k + 1, x), InsertAt(ns[k := x], k + 1, ns[k]), InsertAt(ps[After(|r|, k) := x], k + 1, r[k]))
  {
    var q, ms, qs := InsertAt(r, k + 1, x), InsertAt(ns[k := x], k + 1, ns[k]), InsertAt(ps[After(|r|, k) := x], k + 1, r[k]);
    assert LinkAt(r, ns, ps, k);
    forall i | 0 <= i < |q| ensures LinkAt(q, ms, qs, i) {
      if i <= k {
        assert LinkAt(r, ns, ps, i);
      } else if i > k + 1 {
        assert LinkAt(r, ns, ps, i - 1);
      }
    }
  }

  /** Unlinking node k takes two link writes. */
  lemma LinkedOut<T>(r: seq<T>, ns: seq<T>, ps: seq<T>, k: nat)
    requires Linked(r, ns, ps) && 0 < k < |r|
    ensures Linked(RemoveAt(r, k), RemoveAt(ns[Before(|r|, k) := ns[k]], k), RemoveAt(ps[After(|r|, k) := ps[k]], k))
  {
    var q, ms, qs := RemoveAt(r, k), RemoveAt(ns[Before(|r|, k) := ns[k]], k), RemoveAt(ps[After(|r|, k) := ps[k]], k);
    assert LinkAt(r, ns, ps, k);
    forall i | 0 <= i < |q| ensures LinkAt(q, ms, qs, i) {
      assert LinkAt(r, ns, ps, if i < k then i else i + 1);
    }
  }

  lemma Neighbours<T>(r: seq<T>, ns: seq<T>, ps: seq<T>, k: nat)
    requires Linked(r, ns, ps) && k < |r|
    ensures ns[k] == r[After(|r|, k)] && ps[After(|r|, k)] == r[k]
    ensures ps[k] == r[Before(|r|, k)] && ns[Before(|r|, k)] == r[k]
  {
    assert LinkAt(r, ns, ps, k) && LinkAt(r, ns, ps, After(|r|, k)) && LinkAt(r, ns, ps, Before(|r|, k));
  }

  lemma OthersDiffer<T>(r: seq<T>, k: nat)
    requires Distinct(r) && k < |r|
    ensures forall i :: 0 <= i < |r| && i != k ==> r[i] != r[k]
  {
    forall i | 0 <= i < |r| && i != k ensures r[i] != r[k] {
      assert Apart(r, i, k);
    }
  }

  lemma DistinctIn<T>(r: seq<T>, k: nat, x: T)
    requires Distinct(r) && k <= |r| && x !in r
    ensures Distinct(InsertAt(r, k, x))
  {
    var q := InsertAt(r, k, x);
    forall i, j | 0 <= i < |q| && 0 <= j < |q| ensures Apart(q, i, j) {
      if i != k && j != k {
        assert Apart(r, if i < k then i else i - 1, if j < k then j else j - 1);
      }
    }
  }

  lemma DistinctOut<T>(r: seq<T>, k: nat)
    requires Distinct(r) && k < |r|
    ensures Distinct(RemoveAt(r, k)) && r[k] !in RemoveAt(r, k)
  {
    var q := RemoveAt(r, k);
    forall i, j | 0 <= i < |q| && 0 <= j < |q| ensures Apart(q, i, j) {
      assert Apart(r, if i < k then i else i + 1, if j < k then j else j + 1);
    }
    forall i | 0 <= i < |q| ensures q[i] != r[k] {
      assert Apart(r, if i < k then i else i + 1, k);
    }
  }

  ghost function Nexts(r: seq<ListItem>): (s: seq<ListItem?>)
    reads r
    ensures |s| == |r| && forall i :: 0 <= i < |r| ==> s[i] == r[i].next
  {
    seq(|r|, i requires 0 <= i < |r| reads r => r[i].next)
  }

  ghost function Previouses(r: seq<ListItem>): (s: seq<ListItem?>)
    reads r
    ensures |s| == |r| && forall i :: 0 <= i < |r| ==> s[i] == r[i].previous
  {
    seq(|r|, i requires 0 <= i < |r| reads r => r[i].previous)
  }

  lemma InsertedLinks(r: seq<ListItem>, k: nat, x: ListItem)
    requires k <= |r|
    ensures Nexts(InsertAt(r, k, x)) == InsertAt(Nexts(r), k, x.next)
    ensures Previouses(InsertAt(r, k, x)) == InsertAt(Previouses(r), k, x.previous)
  {
  }

  lemma RemovedLinks(r: seq<ListItem>, k: nat)
    requires k < |r|
    ensures Nexts(RemoveAt(r, k)) == RemoveAt(Nexts(r), k) && Previouses(RemoveAt(r, k)) == RemoveAt(Previouses(r), k)
  {
  }

  ghost predicate Ring(r: seq<ListItem>)
    reads r
  {
    r != [] && Distinct(r) && Linked(r, Nexts(r), Previouses(r))
  }

  lemma InsertedPlaces<T>(r: seq<T>, k: nat, x: T, i: nat)
    requires k < |r| && i < |r|
    ensures var q := InsertAt(r, k + 1, x);
            |q| == |r| + 1 && q[0] == r[0] && q[if i <= k then i else i + 1] == r[i]
  {
  }

  lemma RemovedPlaces<T>(r: seq<T>, k: nat, i: nat)
    requires 0 < k < |r| && i < |r| && i != k
    ensures var q := RemoveAt(r, k);
            |q| == |r| - 1 && q[if i < k then i else i - 1] == r[i]
  {
  }

  /** After the four writes that link x in behind node k, the ring holds x. */
  lemma RingWith(r: seq<ListItem>, ns: seq<ListItem?>, ps: seq<ListItem?>, k: nat, x: ListItem)
    requires Distinct(r) && Linked(r, ns, ps) && k < |r| && x !in r
    requires Nexts(r) == ns[k := x] && Previouses(r) == ps[After(|r|, k) := x]
    requires x.next == ns[k] && x.previous == r[k]
    ensures Ring(InsertAt(r, k + 1, x))
  {
    hide Linked, Distinct;
    LinkedIn<ListItem?>(r, ns, ps, k, x);
    DistinctIn(r, k + 1, x);
    InsertedLinks(r, k + 1, x);
  }

  /** After the two writes that link node k out, the ring is without it. */
  lemma RingWithout(r: seq<ListItem>, ns: seq<ListItem?>, ps: seq<ListItem?>, k: nat)
    requires Distinct(r) && Linked(r, ns, ps) && 0 < k < |r|
    requires Nexts(r) == ns[Before(|r|, k) := ns[k]] && Previouses(r) == ps[After(|r|, k) := ps[k]]
    ensures Ring(RemoveAt(r, k))
  {
    hide Linked, Distinct;
    LinkedOut<ListItem?>(r, ns, ps, k);
    DistinctOut(r, k);
    RemovedLinks(r, k);
  }

  /** The four link writes of both insertions: x goes between neighbours p and n (the same node in an empty list). */
  method LinkBetween(p: ListItem, n: ListItem, x: ListItem, ghost r: seq<ListItem>, ghost k: nat)
    requires Ring(r) && k < |r| && r[k] == p && p.next == n && x !in r
    modifies x`next, x`previous, p`next, n`previous
    ensures Ring(InsertAt(r, k + 1, x))
  {
    hide Linked, Distinct;
    ghost var ns, ps := Nexts(r), Previouses(r);
    Neighbours<ListItem?>(r, ns, ps, k);
    OthersDiffer(r, k);
    OthersDiffer(r, After(|r|, k));
    x.next := n;
    x.previous := p;
    n.previous := x;
    p.next := x;
    RingWith(r, ns, ps, k, x);
  }

  /** The two link writes of a removal. */
  method LinkAcross(x: ListItem, ghost p: ListItem, ghost n: ListItem, ghost r: seq<ListItem>, ghost k: nat)
    requires Ring(r) && 0 < k < |r| && r[k] == x && r[Before(|r|, k)] == p && r[After(|r|, k)] == n
    modifies n`previous, p`next
    ensures Ring(RemoveAt(r, k))
  {
    hide Linked, Distinct;
    ghost var ns, ps := Nexts(r), Previouses(r);
    Neighbours<ListItem?>(r, ns, ps, k);
    OthersDiffer(r, Before(|r|, k));
    OthersDiffer(r, After(|r|, k));
    x.next.previous := x.previous;
    x.previous.next := x.next;
    RingWithout(r, ns, ps, k);
  }

  /** The items after the end marker are in list l, with legal values. */
  ghost predicate Owned(r: seq<ListItem>, l: List)
    reads r`container, r`value
  {
    forall i {:trigger r[i]} :: 1 <= i < |r| ==> r[i].container == l && r[i].value <= MAX_DELAY
  }

  lemma OwnedWith(r: seq<ListItem>, l: List, k: nat, x: ListItem)
    requires Owned(r, l) && k < |r| && x.container == l && x.value <= MAX_DELAY
    ensures Owned(InsertAt(r, k + 1, x), l) && InsertAt(r, k + 1, x)[0] == r[0]
  {
  }

  lemma OwnedWithout(r: seq<ListItem>, l: List, k: nat)
    requires Owned(r, l) && 0 < k < |r|
    ensures Owned(RemoveAt(r, k), l) && RemoveAt(r, k)[0] == r[0]
  {
  }

  ghost function Values(r: seq<ListItem>): (s: seq<nat>)
    reads r
    ensures |s| == |r| && forall i :: 0 <= i < |r| ==> s[i] == r[i].value
  {
    seq(|r|, i requires 0 <= i < |r| reads r => r[i].value)
  }

  lemma ValuesInserted(r: seq<ListItem>, k: nat, x: ListItem)
    requires k < |r|
    ensures Values(InsertAt(r, k + 1, x)[1..]) == InsertAt(Values(r[1..]), k, x.value)
  {
  }

  lemma LargestGoesLast(r: seq<ListItem>, l: List)
    requires r != [] && Owned(r, l)
    ensures FirstAbove(Values(r[1..]), MAX_DELAY) == |r| - 1
  {
    var s := Values(r[1..]);
    assert forall i :: 0 <= i < |s| ==> s[i] == r[i + 1].value;
  }

  lemma FirstAboveIs(s: seq<nat>, v: nat, k: nat)
    requires k <= |s| && (forall i :: 0 <= i < k ==> s[i] <= v) && (k < |s| ==> s[k] > v)
    ensures FirstAbove(s, v) == k
  {
    hide FirstAbove;
  }

  /** Inserting x before the first item of greater value keeps the items' values in order. */
  lemma SortedInsert(r: seq<ListItem>, order: seq<nat>, x: ListItem)
    requires r != [] && order == Values(r[1..])
    ensures var q := InsertAt(r, FirstAbove(order, x.value) + 1, x);
            && Values(q[1..]) == InsertAt(order, FirstAbove(order, x.value), x.value)
            && (Sorted(order) ==> Sorted(Values(q[1..])))
  {
    hide FirstAbove;
    ValuesInserted(r, FirstAbove(order, x.value), x);
    if Sorted(order) {
      InsertKeepsSorted(order, x.value);
    }
  }

  /** The nodes in the order a walk meets them that starts at node i. */
  function WalkFrom<T>(s: seq<T>, i: nat): seq<T>
    requires i < |s|
  {
    s[i..] + s[..i]
  }

  /** What is put just before node i is met last by a walk from there, and the others are met as before. */
  lemma InsertedIsLast<T>(s: seq<T>, i: nat, x: T)
    requires i < |s|
    ensures WalkFrom(InsertAt(s, Before(|s|, i) + 1, x), if i == 0 then 0 else i + 1) == WalkFrom(s, i) + [x]
  {
    if i == 0 {
      assert s[..|s|] == s && s[0..] == s;
    }
  }

  class List {
    const end: ListItem
    var index: ListItem
    var count: nat
    /** The end marker and then the items, in link order; the index points at nodes[at]. */
    ghost var nodes: seq<ListItem>
    ghost var at: nat

    ghost predicate Valid()
      reads this, end, nodes
    {
      && Ring(nodes) && nodes[0] == end && count == |nodes| - 1
      && at < |nodes| && nodes[at] == index
      && end.value == MAX_DELAY && end.container == null
      && Owned(nodes, this)
    }

    /** The items' values, in link order. */
    ghost function Order(): seq<nat>
      reads this, nodes
      requires nodes != []
    {
      Values(nodes[1..])
    }

    constructor ()
      ensures Valid() && fresh(end) && nodes == [end] && index == end
    {
      end := new ListItem(MAX_DELAY);
      index := end;
      count := 0;
      nodes, at := [end], 0;
      new;
      end.next, end.previous := end, end;
      assert Nexts(nodes) == [end] && Previouses(nodes) == [end];
    }

    /** The bookkeeping at the end of both insertions. */
    method Claim(x: ListItem, ghost r: seq<ListItem>, ghost k: nat)
      requires k < |r| && x !in r && Ring(InsertAt(r, k + 1, x)) && Owned(r, this) && x.value <= MAX_DELAY
      modifies this`count, this`nodes, x`container
      ensures nodes == InsertAt(r, k + 1, x) && Ring(nodes) && Owned(nodes, this) && count == old(count) + 1
    {
      hide Linked, Distinct;
      ghost var q := InsertAt(r, k + 1, x);
      ghost var ns, ps := Nexts(q), Previouses(q);
      assert Linked(q, ns, ps) && Distinct(q);
      x.container := this;
      OwnedWith(r, this, k, x);
      count := count + 1;
      nodes := q;
      assert Nexts(q) == ns && Previouses(q) == ps;
    }

    lemma AtLeastEnd()
      requires Valid()
      ensures nodes != []
    {
    }

    lemma NextIs(k: nat)
      requires Valid() && k < |nodes|
      ensures nodes[k].next == nodes[After(|nodes|, k)]
    {
      hide Linked, Distinct, Owned;
      Neighbours<ListItem?>(nodes, Nexts(nodes), Previouses(nodes), k);
    }

    /** The node an item of value v goes behind, by a scan from the end marker unless v is the largest value. */
    method ScanFor(v: nat) returns (scan: ListItem)
      requires Valid() && v <= MAX_DELAY
      ensures scan == nodes[FirstAbove(Order(), v)]
    {
      hide Linked, Distinct, Owned, FirstAbove;
      ghost var order := Order();
      Neighbours<ListItem?>(nodes, Nexts(nodes), Previouses(nodes), 0);
      if v == MAX_DELAY {
        scan := end.previous;
        LargestGoesLast(nodes, this);
      } else {
        scan := end;
        ghost var i := 0;
        while scan.next.value <= v
          invariant 0 <= i < |nodes| && scan == nodes[i] && scan.next == nodes[After(|nodes|, i)]
          invariant forall j :: 0 <= j < i ==> order[j] <= v
          decreases |nodes| - i
        {
          assert i + 1 < |nodes| && order[i] == nodes[i + 1].value;
          scan := scan.next;
          i := i + 1;
          Neighbours<ListItem?>(nodes, Nexts(nodes), Previouses(nodes), i);
        }
        assert i + 1 < |nodes| ==> order[i] == nodes[i + 1].value;
        FirstAboveIs(order, v, i);
      }
    }

    /** Links x in between neighbours p and n and makes it an item of the list. */
    method Place(p: ListItem, n: ListItem, x: ListItem, ghost k: nat)
      requires Valid() && x !in nodes && x.value <= MAX_DELAY && k < |nodes| && nodes[k] == p && p.next == n
      modifies this`count, this`nodes, this`at, x`next, x`previous, x`container, nodes`next, nodes`previous
      ensures Valid() && index == old(index) && nodes == InsertAt(old(nodes), k + 1, x)
      ensures at == if old(at) <= k then old(at) else old(at) + 1
    {
      hide Linked, Distinct, Owned, InsertAt;
      ghost var r := nodes;
      Neighbours<ListItem?>(r, Nexts(r), Previouses(r), k);
      InsertedPlaces(r, k, x, at);
      LinkBetween(p, n, x, r, k);
      Claim(x, r, k);
      at := if at <= k then at else at + 1;
    }

    /** vListInsertEnd: the new item goes just before the one the index points at, so that a walk that starts at the
        index meets it last. */
    method InsertEnd(x: ListItem)
      requires Valid() && x !in nodes && x.value <= MAX_DELAY
      modifies this`count, this`nodes, this`at, x`next, x`previous, x`container, nodes`next, nodes`previous
      ensures Valid() && index == old(index)
      ensures WalkFrom(nodes, at) == old(WalkFrom(nodes, at)) + [x]
    {
      hide Linked, Distinct, Owned, InsertAt, WalkFrom;
      ghost var k := Before(|nodes|, at);
      Neighbours<ListItem?>(nodes, Nexts(nodes), Previouses(nodes), at);
      InsertedIsLast(nodes, at, x);
      Place(index.previous, index, x, k);
    }

    /** vListInsert: the new item goes before the first item of greater value, found by a scan from the end marker; the
        largest value goes to the end without a scan. */
    method Insert(x: ListItem)
      requires Valid() && x !in nodes && x.value <= MAX_DELAY
      modifies this`count, this`nodes, this`at, x`next, x`previous, x`container, nodes`next, nodes`previous
      ensures Valid() && index == old(index)
      ensures nodes == InsertAt(old(nodes), FirstAbove(old(Order()), x.value) + 1, x)
      ensures Order() == InsertAt(old(Order()), FirstAbove(old(Order()), x.value), x.value)
      ensures old(Sorted(Order())) ==> Sorted(Order())
    {
      hide Linked, Distinct, Owned, FirstAbove, Sorted, InsertAt, Ring;
      ghost var r, order := nodes, Order();
      ghost var k := FirstAbove(order, x.value);
      assert r != [] && k < |r| by { AtLeastEnd(); }
      var scan := ScanFor(x.value);
      NextIs(k);
      Place(scan, scan.next, x, k);
      assert order == Values(r[1..]);
      SortedInsert(r, order, x);
    }

    /** uxListRemove: exactly x goes; an index that pointed at it moves to the node before it. */
    method Remove(x: ListItem) returns (n: nat)
      requires Valid() && x in nodes[1..]
      modifies this`count, this`nodes, this`at, this`index, x`container, nodes`next, nodes`previous
      ensures Valid() && n == count == old(count) - 1 && x.container == null && x !in nodes
      ensures exists k :: 0 < k < |old(nodes)| && old(nodes)[k] == x && nodes == RemoveAt(old(nodes), k)
      ensures index == if old(index) == x then old(x.previous) else old(index)
    {
      hide Linked, Distinct, Owned, RemoveAt;
      ghost var r := nodes;
      ghost var k :| 0 < k < |r| && r[k] == x;
      RemovedPlaces(r, k, if at == k then k - 1 else at);
      Neighbours<ListItem?>(r, Nexts(r), Previouses(r), k);
      OthersDiffer(r, k);
      LinkAcross(x, r[Before(|r|, k)], r[After(|r|, k)], r, k);
      if index == x {
        index := x.previous;
        at := k - 1;
      } else if at > k {
        at := at - 1;
      }
      Disown(x, r, k);
      n := count;
    }

    /** The bookkeeping at the end of a removal. */
    method Disown(x: ListItem, ghost r: seq<ListItem>, ghost k: nat)
      requires 0 < k < |r| && x == r[k] && Distinct(r) && Ring(RemoveAt(r, k)) && Owned(r, this) && count > 0
      modifies this`count, this`nodes, x`container
      ensures nodes == RemoveAt(r, k) && nodes[0] == r[0] && Ring(nodes) && Owned(nodes, this)
      ensures count == old(count) - 1 && x.container == null && x !in nodes
    {
      hide Linked, Distinct;
      ghost var q := RemoveAt(r, k);
      ghost var ns, ps := Nexts(q), Previouses(q);
      assert Linked(q, ns, ps) && Distinct(q);
      OwnedWithout(r, this, k);
      DistinctOut(r, k);
      x.container := null;
      count := count - 1;
      nodes := q;
      assert Nexts(q) == ns && Previouses(q) == ps;
    }
  }
}
