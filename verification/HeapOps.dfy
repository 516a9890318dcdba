/** The indexed min-heap on sequences of nodes: the operations, and what each keeps. */
module HeapOps {
  import opened Wrapped

  datatype Node = Node(order: nat, thread: nat)

  function Parent(i: nat): nat {
    if i == 0 then 0 else (i - 1) / 2
  }

  function Left(i: nat): nat {
    2 * i + 1
  }

  function Right(i: nat): nat {
    2 * (i + 1)
  }

  function Swap<T>(s: seq<T>, i: nat, j: nat): seq<T>
    requires i < |s| && j < |s|
  {
    s[i := s[j]][j := s[i]]
  }

  function PercolateUp(s: seq<Node>, i: nat): (r: seq<Node>)
    requires i < |s|
    ensures |r| == |s|
    decreases i
  {
    if i == 0 || GeqWrapped(s[i].order, s[Parent(i)].order) then s
    else PercolateUp(Swap(s, i, Parent(i)), Parent(i))
  }

  /** The child percolate_down swaps with, or i itself. */
  function SmallestBelow(s: seq<Node>, i: nat): (j: nat)
    requires i < |s|
    ensures j < |s| && (j == i || j == Left(i) || j == Right(i))
  {
    var m := if Left(i) < |s| && LtWrapped(s[Left(i)].order, s[i].order) then Left(i) else i;
    if Right(i) < |s| && LtWrapped(s[Right(i)].order, s[m].order) then Right(i) else m
  }

  function PercolateDown(s: seq<Node>, i: nat): (r: seq<Node>)
    requires i < |s|
    ensures |r| == |s|
    decreases |s| - i
  {
    var j := SmallestBelow(s, i);
    if j == i then s else PercolateDown(Swap(s, i, j), j)
  }

  function Insert(s: seq<Node>, node: Node): seq<Node> {
    PercolateUp(s + [node], |s|)
  }

  function RemoveHead(s: seq<Node>): (r: seq<Node>)
    requires s != []
    ensures |r| == |s| - 1
  {
    if |s| == 1 then [] else PercolateDown(s[..|s| - 1][0 := s[|s| - 1]], 0)
  }

  /** Direction choice shared by remove_node and balance_node: a plain comparison. */
  function Settle(s: seq<Node>, i: nat): (r: seq<Node>)
    requires i < |s|
    ensures |r| == |s|
  {
    if s[i].order < s[Parent(i)].order then PercolateUp(s, i) else PercolateDown(s, i)
  }

  /** The last node is overwritten by itself and then moved from the slot just past the end: downwards it has no
      children, upwards it may slip back into the heap. */
  function RemoveNode(s: seq<Node>, i: nat): (r: seq<Node>)
    requires i < |s|
    ensures |r| == |s| - 1
  {
    if |s| == 1 then []
    else if i < |s| - 1 then Settle(s[..|s| - 1][i := s[|s| - 1]], i)
    else if s[i].order < s[Parent(i)].order then PercolateUp(s, i)[..i]
    else s[..i]
  }

  /** The node is the last of several and both plainly and wrapped below its parent. */
  predicate SlipsBack(s: seq<Node>, i: nat)
    requires i < |s|
  {
    i == |s| - 1 > 0 && s[i].order < s[Parent(i)].order && LtWrapped(s[i].order, s[Parent(i)].order)
  }

  /** A heap of one node is left alone: its new order is not stored. */
  function Balance(s: seq<Node>, i: nat, order: nat): (r: seq<Node>)
    requires i < |s|
    ensures |r| == |s|
  {
    if |s| == 1 then s else Settle(s[i := s[i].(order := order)], i)
  }

  // ---------------------------------------------------------------- heap order

  /** Node i is not (wrapped) below its parent. */
  predicate AboveParent(s: seq<Node>, i: nat)
    requires 0 < i < |s|
  {
    GeqWrapped(s[i].order, s[Parent(i)].order)
  }

  predicate HeapOrder(s: seq<Node>) {
    forall i {:trigger AboveParent(s, i)} :: 0 < i < |s| ==> AboveParent(s, i)
  }

  predicate FitsAt(w: nat, s: seq<Node>, i: nat)
    requires i < |s|
  {
    InWindow(w, s[i].order)
  }

  /** Every stored order lies in the half-range window that starts at w. */
  predicate Fits(w: nat, s: seq<Node>) {
    forall i {:trigger FitsAt(w, s, i)} :: 0 <= i < |s| ==> FitsAt(w, s, i)
  }

  function K(w: nat, s: seq<Node>, i: nat): nat
    requires i < |s|
  {
    Key(w, s[i].order)
  }

  /** Heap order on keys, except that node i may be below its parent or above its children;
      its parent is not above its children. */
  ghost predicate OrderedBut(w: nat, s: seq<Node>, i: nat) {
    && (forall j {:trigger K(w, s, j)} :: 0 < j < |s| && j != i && Parent(j) != i ==> K(w, s, Parent(j)) <= K(w, s, j))
    && (forall j {:trigger K(w, s, j)} :: 0 < j < |s| && Parent(j) == i && 0 < i < |s| ==> K(w, s, Parent(i)) <= K(w, s, j))
  }

  ghost predicate UpOk(w: nat, s: seq<Node>, i: nat) {
    forall j {:trigger K(w, s, j)} :: 0 < j < |s| && Parent(j) == i ==> K(w, s, i) <= K(w, s, j)
  }

  /** Two stored orders compare as their keys. */
  lemma NodeOrder(w: nat, s: seq<Node>, i: nat, j: nat)
    requires Fits(w, s) && i < |s| && j < |s|
    ensures LtWrapped(s[i].order, s[j].order) <==> K(w, s, i) < K(w, s, j)
    ensures GeqWrapped(s[i].order, s[j].order) <==> K(w, s, i) >= K(w, s, j)
  {
    assert FitsAt(w, s, i) && FitsAt(w, s, j);
    WindowOrder(w, s[i].order, s[j].order);
  }

  lemma FitsSub(w: nat, s: seq<Node>, t: seq<Node>)
    requires Fits(w, s) && forall i :: 0 <= i < |t| ==> t[i] in s
    ensures Fits(w, t)
  {
    forall i | 0 <= i < |t| ensures FitsAt(w, t, i) {
      var k :| 0 <= k < |s| && s[k] == t[i];
      assert FitsAt(w, s, k);
    }
  }

  lemma KeyOrder(w: nat, s: seq<Node>)
    requires Fits(w, s)
    ensures HeapOrder(s) <==> forall i {:trigger K(w, s, i)} :: 0 < i < |s| ==> K(w, s, Parent(i)) <= K(w, s, i)
  {
    forall i | 0 < i < |s| ensures AboveParent(s, i) <==> K(w, s, Parent(i)) <= K(w, s, i) {
      NodeOrder(w, s, i, Parent(i));
    }
  }

  lemma {:induction false} PercolateUpOrders(w: nat, s: seq<Node>, i: nat)
    requires i < |s| && Fits(w, s) && OrderedBut(w, s, i) && UpOk(w, s, i)
    ensures HeapOrder(PercolateUp(s, i))
    decreases i
  {
    var p := Parent(i);
    NodeOrder(w, s, i, p);
    if i == 0 || K(w, s, i) >= K(w, s, p) {
      KeyOrder(w, s);
    } else {
      SwapUp(w, s, i);
      PercolateUpOrders(w, Swap(s, i, p), p);
    }
  }

  /** One swap upwards moves the place where the order may fail to the parent. */
  lemma SwapUp(w: nat, s: seq<Node>, i: nat)
    requires 0 < i < |s| && Fits(w, s) && OrderedBut(w, s, i) && UpOk(w, s, i) && K(w, s, i) < K(w, s, Parent(i))
    ensures var t := Swap(s, i, Parent(i));
            Fits(w, t) && OrderedBut(w, t, Parent(i)) && UpOk(w, t, Parent(i))
  {
    var p := Parent(i);
    SwapKeys(w, s, i, p);
    assert K(w, s, p) == K(w, s, p) && (p > 0 ==> K(w, s, Parent(p)) <= K(w, s, p));
  }

  lemma SwapKeys(w: nat, s: seq<Node>, i: nat, j: nat)
    requires i < |s| && j < |s| && Fits(w, s)
    ensures Fits(w, Swap(s, i, j))
    ensures forall k {:trigger K(w, Swap(s, i, j), k)} :: 0 <= k < |s| ==>
      K(w, Swap(s, i, j), k) == K(w, s, if k == i then j else if k == j then i else k)
  {
    FitsSub(w, s, Swap(s, i, j));
  }

  lemma {:induction false} PercolateDownOrders(w: nat, s: seq<Node>, i: nat)
    requires i < |s| && Fits(w, s) && OrderedBut(w, s, i) && (i > 0 ==> K(w, s, Parent(i)) <= K(w, s, i))
    ensures HeapOrder(PercolateDown(s, i))
    decreases |s| - i
  {
    var j := SmallestBelow(s, i);
    SmallestIsLeast(w, s, i);
    if j == i {
      KeyOrder(w, s);
    } else {
      SwapKeys(w, s, i, j);
      PercolateDownOrders(w, Swap(s, i, j), j);
    }
  }

  lemma SmallestIsLeast(w: nat, s: seq<Node>, i: nat)
    requires i < |s| && Fits(w, s)
    ensures var j := SmallestBelow(s, i);
            && K(w, s, j) <= K(w, s, i) && (j != i ==> K(w, s, j) < K(w, s, i) && Parent(j) == i)
            && forall c {:trigger K(w, s, c)} :: 0 < c < |s| && Parent(c) == i ==> K(w, s, j) <= K(w, s, c)
  {
    if Left(i) < |s| {
      NodeOrder(w, s, Left(i), i);
    }
    if Right(i) < |s| {
      NodeOrder(w, s, Right(i), i);
      NodeOrder(w, s, Right(i), Left(i));
    }
    assert forall c :: 0 < c && Parent(c) == i ==> c == Left(i) || c == Right(i);
  }

  /** Some child of i is (wrapped) below it. */
  predicate ChildBelow(s: seq<Node>, i: nat)
    requires i < |s|
  {
    || (Left(i) < |s| && LtWrapped(s[Left(i)].order, s[i].order))
    || (Right(i) < |s| && LtWrapped(s[Right(i)].order, s[i].order))
  }

  /** The plain comparison sends node i the right way, or sends it up where it already fits. */
  predicate DirectionOk(s: seq<Node>, i: nat)
    requires i < |s|
  {
    var plain := s[i].order < s[Parent(i)].order;
    var wrapped := LtWrapped(s[i].order, s[Parent(i)].order);
    if plain then wrapped || !ChildBelow(s, i) else !wrapped
  }

  /** remove_node and balance_node restore the heap order exactly when the plain comparison at the changed node
      agrees with the wrapped order, or disagrees harmlessly. */
  lemma SettleOrdersIff(w: nat, s: seq<Node>, i: nat)
    requires i < |s| && Fits(w, s) && OrderedBut(w, s, i)
    ensures HeapOrder(Settle(s, i)) <==> DirectionOk(s, i)
  {
    var p := Parent(i);
    NodeOrder(w, s, i, p);
    ChildBelowKeys(w, s, i);
    if s[i].order < s[p].order {
      if K(w, s, i) < K(w, s, p) {
        PercolateUpOrders(w, s, i);
      } else {
        assert PercolateUp(s, i) == s;
        KeyOrder(w, s);
      }
    } else if K(w, s, i) < K(w, s, p) {
      SmallestIsLeast(w, s, i);
      KeyOrder(w, s);
      assert PercolateDown(s, i) == s;
    } else {
      PercolateDownOrders(w, s, i);
    }
  }

  lemma ChildBelowKeys(w: nat, s: seq<Node>, i: nat)
    requires i < |s| && Fits(w, s)
    ensures ChildBelow(s, i) <==> !UpOk(w, s, i)
  {
    if Left(i) < |s| {
      NodeOrder(w, s, Left(i), i);
      assert Parent(Left(i)) == i;
    }
    if Right(i) < |s| {
      NodeOrder(w, s, Right(i), i);
      assert Parent(Right(i)) == i;
    }
    assert forall c :: 0 < c && Parent(c) == i ==> c == Left(i) || c == Right(i);
  }

  /** Before 2^32 is crossed the direction is always right. */
  lemma PlainDirectionOk(w: nat, s: seq<Node>, i: nat)
    requires Plain(w) && i < |s| && Fits(w, s)
    ensures DirectionOk(s, i)
  {
    assert FitsAt(w, s, i) && FitsAt(w, s, Parent(i));
    PlainOrder(w, s[i].order, s[Parent(i)].order);
  }

  // ---------------------------------------------------------------- the operations keep the order

  lemma InsertOrders(w: nat, s: seq<Node>, node: Node)
    requires HeapOrder(s) && Fits(w, s) && InWindow(w, node.order)
    ensures Fits(w, s + [node]) && HeapOrder(Insert(s, node))
  {
    var t := s + [node];
    forall i | 0 <= i < |t| ensures FitsAt(w, t, i) {
      assert i < |s| ==> FitsAt(w, s, i);
    }
    KeyOrder(w, s);
    assert forall j {:trigger K(w, t, j)} :: 0 <= j < |s| ==> K(w, t, j) == K(w, s, j);
    PercolateUpOrders(w, t, |s|);
  }

  lemma RemoveHeadOrders(w: nat, s: seq<Node>)
    requires HeapOrder(s) && Fits(w, s) && s != []
    ensures HeapOrder(RemoveHead(s))
  {
    if |s| > 1 {
      var t := s[..|s| - 1][0 := s[|s| - 1]];
      FitsSub(w, s, t);
      KeyOrder(w, s);
      assert forall j {:trigger K(w, t, j)} :: 0 < j < |t| ==> K(w, t, j) == K(w, s, j);
      PercolateDownOrders(w, t, 0);
    }
  }

  /** Overwriting node i of a heap leaves the order intact everywhere else. */
  lemma OverwriteOrderedBut(w: nat, s: seq<Node>, t: seq<Node>, i: nat)
    requires HeapOrder(s) && Fits(w, s) && i < |t| <= |s|
    requires forall j :: 0 <= j < |t| && j != i ==> t[j] == s[j]
    requires InWindow(w, t[i].order)
    ensures Fits(w, t) && OrderedBut(w, t, i)
  {
    forall j | 0 <= j < |t| ensures FitsAt(w, t, j) {
      assert FitsAt(w, s, j);
    }
    KeyOrder(w, s);
    assert forall j {:trigger K(w, t, j)} :: 0 <= j < |t| && j != i ==> K(w, t, j) == K(w, s, j);
    forall j | 0 < j < |t| && Parent(j) == i && 0 < i ensures K(w, t, Parent(i)) <= K(w, t, j) {
      assert K(w, s, Parent(i)) <= K(w, s, i) <= K(w, s, j);
    }
  }

  /** Exactly when remove_node keeps the heap order. */
  lemma RemoveNodeOrdersIff(w: nat, s: seq<Node>, i: nat)
    requires HeapOrder(s) && Fits(w, s) && i < |s|
    ensures HeapOrder(RemoveNode(s, i)) <==>
            (i == |s| - 1 || DirectionOk(s[..|s| - 1][i := s[|s| - 1]], i))
  {
    if i < |s| - 1 {
      var t := s[..|s| - 1][i := s[|s| - 1]];
      assert FitsAt(w, s, |s| - 1);
      OverwriteOrderedBut(w, s, t, i);
      SettleOrdersIff(w, t, i);
    } else {
      OrderedStays(s, i);
      forall j | 0 < j < i ensures AboveParent(s[..i], j) {
        assert AboveParent(s, j);
      }
    }
  }

  lemma OrderedStays(s: seq<Node>, i: nat)
    requires HeapOrder(s) && i < |s|
    ensures !SlipsBack(s, i) && (i == |s| - 1 ==> RemoveNode(s, i) == s[..i])
  {
    if i == |s| - 1 && i > 0 {
      assert AboveParent(s, i);
      assert PercolateUp(s, i) == s;
    }
  }

  /** Exactly when balance_node keeps the heap order. */
  lemma BalanceOrdersIff(w: nat, s: seq<Node>, i: nat, order: nat)
    requires HeapOrder(s) && Fits(w, s) && i < |s| && InWindow(w, order)
    ensures HeapOrder(Balance(s, i, order)) <==> (|s| == 1 || DirectionOk(s[i := s[i].(order := order)], i))
  {
    if |s| > 1 {
      var t := s[i := s[i].(order := order)];
      OverwriteOrderedBut(w, s, t, i);
      SettleOrdersIff(w, t, i);
    }
  }

  /** A stored order that has crossed 2^32 makes remove_node break the heap order. */
  lemma RemoveNodeAcrossWrap(s: seq<Node>)
    requires s == [Node(0xFFFF_FFF0, 1), Node(2, 2), Node(0xFFFF_FFF1, 3), Node(5, 4), Node(6, 5), Node(0xFFFF_FFF2, 6)]
    ensures HeapOrder(s) && Fits(0xFFFF_FFF0, s) && !HeapOrder(RemoveNode(s, 3))
  {
    var t := s[..5][3 := s[5]];
    assert PercolateDown(t, 3) == t;
    KeyIs(t[1].order, t[3].order);
    assert t[Parent(3)] == Node(2, 2);
    assert !AboveParent(t, 3);
  }

  // ---------------------------------------------------------------- the operations keep the entries

  function Threads(s: seq<Node>): (r: seq<nat>)
    ensures |r| == |s|
    ensures forall i :: 0 <= i < |s| ==> r[i] == s[i].thread
  {
    seq(|s|, i requires 0 <= i < |s| => s[i].thread)
  }

  /** Same nodes, hence same threads, in some order. */
  ghost predicate Perm(s: seq<Node>, t: seq<Node>) {
    |s| == |t| && multiset(s) == multiset(t) && multiset(Threads(s)) == multiset(Threads(t))
  }

  lemma SwapPerm(s: seq<Node>, i: nat, j: nat)
    requires i < |s| && j < |s|
    ensures Perm(s, Swap(s, i, j))
  {
    assert Threads(Swap(s, i, j)) == Swap(Threads(s), i, j);
  }

  lemma {:induction false} PercolateUpPerm(s: seq<Node>, i: nat)
    requires i < |s|
    ensures Perm(s, PercolateUp(s, i))
    decreases i
  {
    if i > 0 && !GeqWrapped(s[i].order, s[Parent(i)].order) {
      SwapPerm(s, i, Parent(i));
      PercolateUpPerm(Swap(s, i, Parent(i)), Parent(i));
    }
  }

  lemma {:induction false} PercolateDownPerm(s: seq<Node>, i: nat)
    requires i < |s|
    ensures Perm(s, PercolateDown(s, i))
    decreases |s| - i
  {
    var j := SmallestBelow(s, i);
    if j != i {
      SwapPerm(s, i, j);
      PercolateDownPerm(Swap(s, i, j), j);
    }
  }

  lemma SettlePerm(s: seq<Node>, i: nat)
    requires i < |s|
    ensures Perm(s, Settle(s, i))
  {
    PercolateUpPerm(s, i);
    PercolateDownPerm(s, i);
  }

  lemma ThreadsAppend(s: seq<Node>, node: Node)
    ensures Threads(s + [node]) == Threads(s) + [node.thread]
  {
  }

  /** insert_node adds exactly the new entry. */
  lemma InsertPerm(s: seq<Node>, node: Node)
    ensures multiset(Insert(s, node)) == multiset(s) + multiset{node}
    ensures multiset(Threads(Insert(s, node))) == multiset(Threads(s)) + multiset{node.thread}
    ensures |Insert(s, node)| == |s| + 1
  {
    ThreadsAppend(s, node);
    PercolateUpPerm(s + [node], |s|);
  }

  /** Moving the last node over node i drops exactly node i. */
  lemma OverwritePerm(s: seq<Node>, i: nat)
    requires i < |s| - 1
    ensures var t := s[..|s| - 1][i := s[|s| - 1]];
            multiset(s) == multiset(t) + multiset{s[i]} && multiset(Threads(s)) == multiset(Threads(t)) + multiset{s[i].thread}
  {
    var n := |s| - 1;
    var t := s[..n][i := s[n]];
    assert s == s[..n] + [s[n]];
    assert Threads(s) == Threads(s[..n]) + [s[n].thread];
    assert Threads(t) == Threads(s[..n])[i := s[n].thread];
  }

  lemma CutPerm(s: seq<Node>)
    requires s != []
    ensures var n := |s| - 1;
            multiset(s) == multiset(s[..n]) + multiset{s[n]} && multiset(Threads(s)) == multiset(Threads(s[..n])) + multiset{s[n].thread}
  {
    var n := |s| - 1;
    assert s == s[..n] + [s[n]];
    ThreadsAppend(s[..n], s[n]);
  }

  /** Percolating up leaves the slots behind alone. */
  lemma {:induction false} PercolateUpAbove(s: seq<Node>, i: nat, k: nat)
    requires i < k < |s|
    ensures PercolateUp(s, i)[k] == s[k]
    decreases i
  {
    if i > 0 && !GeqWrapped(s[i].order, s[Parent(i)].order) {
      PercolateUpAbove(Swap(s, i, Parent(i)), Parent(i), k);
    }
  }

  /** A node that slips back stays in the heap and its parent is dropped in its place. */
  lemma SlippedDropsParent(s: seq<Node>, i: nat)
    requires i < |s| && SlipsBack(s, i)
    ensures multiset(s) == multiset(RemoveNode(s, i)) + multiset{s[Parent(i)]}
    ensures multiset(Threads(s)) == multiset(Threads(RemoveNode(s, i))) + multiset{s[Parent(i)].thread}
    ensures s[Parent(i)] != s[i]
  {
    var t, p := PercolateUp(s, i), Parent(i);
    PercolateUpPerm(s, i);
    PercolateUpAbove(Swap(s, i, p), p, i);
    CutPerm(t);
  }

  /** remove_node takes out exactly the entry at the index, except when that is the last of several and slips back. */
  lemma RemoveNodePermIff(s: seq<Node>, i: nat)
    requires i < |s|
    ensures multiset(s) == multiset(RemoveNode(s, i)) + multiset{s[i]} <==> !SlipsBack(s, i)
  {
    if SlipsBack(s, i) {
      SlippedDropsParent(s, i);
      SameRest(multiset(RemoveNode(s, i)), s[i], s[Parent(i)]);
    } else {
      RemoveNodePerm(s, i);
    }
  }

  lemma SameRest(m: multiset<Node>, a: Node, b: Node)
    requires a != b
    ensures m + multiset{a} != m + multiset{b}
  {
    assert (m + multiset{a})[a] == m[a] + 1 && (m + multiset{b})[a] == m[a];
  }

  lemma RemoveNodePerm(s: seq<Node>, i: nat)
    requires i < |s| && !SlipsBack(s, i)
    ensures multiset(s) == multiset(RemoveNode(s, i)) + multiset{s[i]}
    ensures multiset(Threads(s)) == multiset(Threads(RemoveNode(s, i))) + multiset{s[i].thread}
  {
    var n := |s| - 1;
    if i == n {
      CutPerm(s);
      assert n > 0 && s[i].order < s[Parent(i)].order ==> PercolateUp(s, i) == s;
      assert RemoveNode(s, i) == s[..n];
    } else {
      OverwritePerm(s, i);
      SettlePerm(s[..n][i := s[n]], i);
    }
  }

  /** A heap in which removing the last node keeps it and drops its parent. */
  lemma RemoveNodeLosesParent(s: seq<Node>)
    requires s == [Node(0xFFFF_FFF0, 1), Node(0xFFFF_FFF3, 7), Node(0xFFFF_FFF1, 3), Node(0xFFFF_FFF2, 6)]
    ensures RemoveNode(s, 3) == [Node(0xFFFF_FFF0, 1), Node(0xFFFF_FFF2, 6), Node(0xFFFF_FFF1, 3)]
    ensures SlipsBack(s, 3)
  {
    KeyIs(s[1].order, s[3].order);
    KeyIs(s[0].order, s[3].order);
    var t := Swap(s, 3, 1);
    assert PercolateUp(t, 1) == t;
  }

  /** That heap is reached by the heap's own operations from an ordered one whose keys straddle 2^32. */
  lemma LosingHeapReached(s: seq<Node>)
    requires s == [Node(0xFFFF_FFF0, 1), Node(2, 2), Node(0xFFFF_FFF1, 3), Node(5, 4), Node(6, 5), Node(0xFFFF_FFF2, 6)]
    ensures var a := RemoveNode(s, 3);
            && |a| > 4
            && var b := Insert(RemoveNode(a, 4), Node(0xFFFF_FFF3, 7));
            && |b| > 4
            && RemoveNode(b, 4) == [Node(0xFFFF_FFF0, 1), Node(0xFFFF_FFF3, 7), Node(0xFFFF_FFF1, 3), Node(0xFFFF_FFF2, 6)]
  {
    var t := s[..5][3 := s[5]];
    assert PercolateDown(t, 3) == t;
    var a := RemoveNode(s, 3);
    assert a == t;
    var r := RemoveNode(a, 4);
    assert r == a[..4];
    var node := Node(0xFFFF_FFF3, 7);
    var u := r + [node];
    KeyIs(2, node.order);
    KeyIs(0xFFFF_FFF0, node.order);
    var v := Swap(u, 4, 1);
    assert PercolateUp(v, 1) == v;
    assert Insert(r, node) == v;
    KeyIs(node.order, 2);
    assert PercolateUp(v, 4) == v;
  }

  lemma RemoveHeadPerm(s: seq<Node>)
    requires s != []
    ensures multiset(s) == multiset(RemoveHead(s)) + multiset{s[0]}
    ensures multiset(Threads(s)) == multiset(Threads(RemoveHead(s))) + multiset{s[0].thread}
  {
    var n := |s| - 1;
    if n == 0 {
      assert s == [s[0]];
      ThreadsAppend([], s[0]);
    } else {
      OverwritePerm(s, 0);
      PercolateDownPerm(s[..n][0 := s[n]], 0);
    }
  }

  lemma BalancePerm(s: seq<Node>, i: nat, order: nat)
    requires i < |s|
    ensures multiset(Threads(Balance(s, i, order))) == multiset(Threads(s))
    ensures |s| > 1 ==> multiset(Balance(s, i, order)) == multiset(s[i := s[i].(order := order)])
  {
    if |s| > 1 {
      var t := s[i := s[i].(order := order)];
      assert Threads(t) == Threads(s);
      SettlePerm(t, i);
    }
  }

  lemma PermFits(w: nat, s: seq<Node>, t: seq<Node>)
    requires multiset(t) <= multiset(s) && Fits(w, s)
    ensures Fits(w, t)
  {
    forall i | 0 <= i < |t| ensures t[i] in s {
      assert t[i] in multiset(t);
      assert t[i] in multiset(s);
    }
    FitsSub(w, s, t);
  }

  // ---------------------------------------------------------------- draining

  /** The head is least. */
  lemma {:induction false} HeadIsLeast(w: nat, s: seq<Node>, i: nat)
    requires HeapOrder(s) && Fits(w, s) && i < |s|
    ensures K(w, s, 0) <= K(w, s, i) && !LtWrapped(s[i].order, s[0].order)
    decreases i
  {
    if i > 0 {
      HeadIsLeast(w, s, Parent(i));
      assert AboveParent(s, i);
      NodeOrder(w, s, i, Parent(i));
    }
    NodeOrder(w, s, i, 0);
  }

  /** The nodes in the order in which pop_heap yields them. */
  function Drain(s: seq<Node>): seq<Node>
    decreases |s|
  {
    if s == [] then [] else [s[0]] + Drain(RemoveHead(s))
  }

  predicate NotBelow(a: Node, b: Node) {
    !LtWrapped(b.order, a.order)
  }

  /** No node comes before one it is not below. */
  ghost predicate Sorted(d: seq<Node>) {
    forall i, j {:trigger NotBelow(d[i], d[j])} :: 0 <= i < j < |d| ==> NotBelow(d[i], d[j])
  }

  /** Popping until empty yields every entry once, in wrapped order. */
  lemma {:induction false} DrainSorts(w: nat, s: seq<Node>)
    requires HeapOrder(s) && Fits(w, s)
    ensures multiset(Drain(s)) == multiset(s)
    ensures Sorted(Drain(s))
    decreases |s|
  {
    if s != [] {
      var r := RemoveHead(s);
      RemoveHeadPerm(s);
      RemoveHeadOrders(w, s);
      PermFits(w, s, r);
      DrainSorts(w, r);
      HeadBeforeRest(w, s, Drain(r));
      PrependSorted(s[0], Drain(r));
    }
  }

  lemma HeadBeforeRest(w: nat, s: seq<Node>, d: seq<Node>)
    requires HeapOrder(s) && Fits(w, s) && s != [] && multiset(d) <= multiset(s)
    ensures forall j {:trigger d[j]} :: 0 <= j < |d| ==> NotBelow(s[0], d[j])
  {
    forall j | 0 <= j < |d| ensures NotBelow(s[0], d[j]) {
      assert d[j] in multiset(d);
      assert d[j] in multiset(s);
      var k :| 0 <= k < |s| && s[k] == d[j];
      HeadIsLeast(w, s, k);
    }
  }

  lemma PrependSorted(x: Node, d: seq<Node>)
    requires Sorted(d) && forall j {:trigger d[j]} :: 0 <= j < |d| ==> NotBelow(x, d[j])
    ensures Sorted([x] + d)
  {
    var e := [x] + d;
    forall i, j | 0 <= i < j < |e| ensures NotBelow(e[i], e[j]) {
      assert e[j] == d[j - 1];
    }
  }

  // ---------------------------------------------------------------- equal orders

  /** A node not below its parent stays where it is put, so equal orders do not overtake on insertion. */
  lemma {:induction false} UpKeepsRoot(w: nat, s: seq<Node>, i: nat)
    requires 0 < i < |s| && Fits(w, s) && OrderedBut(w, s, i) && UpOk(w, s, i) && (i > 0 ==> K(w, s, 0) <= K(w, s, Parent(i)))
    ensures PercolateUp(s, i)[0] == if K(w, s, i) < K(w, s, 0) then s[i] else s[0]
    decreases i
  {
    var p := Parent(i);
    NodeOrder(w, s, i, p);
    if K(w, s, i) < K(w, s, p) {
      SwapKeys(w, s, i, p);
      if p > 0 {
        SwapUp(w, s, i);
        RootBelow(w, s, i, Parent(p));
        UpKeepsRoot(w, Swap(s, i, p), p);
      }
    }
  }

  /** Away from node i the root's key is the least. */
  lemma {:induction false} RootBelow(w: nat, s: seq<Node>, i: nat, j: nat)
    requires 0 < i < |s| && Fits(w, s) && OrderedBut(w, s, i) && j < Parent(i)
    ensures K(w, s, 0) <= K(w, s, j)
    decreases j
  {
    if j > 0 {
      assert K(w, s, j) == K(w, s, j) && Parent(j) < j && j != i && Parent(j) != i;
      RootBelow(w, s, i, Parent(j));
    }
  }

  /** Insertion displaces the root exactly if the new node is below it: an equal order waits. */
  lemma InsertRootIff(w: nat, s: seq<Node>, node: Node)
    requires HeapOrder(s) && Fits(w, s) && InWindow(w, node.order) && s != []
    ensures Insert(s, node)[0] == if LtWrapped(node.order, s[0].order) then node else s[0]
  {
    var t := s + [node];
    InsertOrders(w, s, node);
    KeyOrder(w, s);
    assert forall j {:trigger K(w, t, j)} :: 0 <= j < |s| ==> K(w, t, j) == K(w, s, j);
    NodeOrder(w, t, |s|, 0);
    HeadIsLeast(w, s, Parent(|s|));
    NodeOrder(w, s, Parent(|s|), 0);
    UpKeepsRoot(w, t, |s|);
  }

  /** Re-keying the root of a larger heap leaves it there exactly if no other node is below the new order: an equal
      order does not displace it. */
  lemma RekeyRootIff(w: nat, s: seq<Node>, order: nat)
    requires Plain(w) && HeapOrder(s) && Fits(w, s) && InWindow(w, order) && |s| > 1
    ensures (forall j :: 0 < j < |s| ==> !LtWrapped(s[j].order, order)) ==> Balance(s, 0, order) == s[0 := Node(order, s[0].thread)]
    ensures (exists j :: 0 < j < |s| && LtWrapped(s[j].order, order)) ==> LtWrapped(Balance(s, 0, order)[0].order, order)
  {
    var t, r := s[0 := s[0].(order := order)], Balance(s, 0, order);
    if j :| 0 < j < |s| && LtWrapped(s[j].order, order) {
      RekeyOrders(w, s, order);
      BalancePerm(s, 0, order);
      assert t[j] == s[j] && s[j] in multiset(t);
      assert s[j] in multiset(r);
      var k :| 0 <= k < |r| && r[k] == s[j];
      HeadIsLeast(w, r, k);
      assert FitsAt(w, r, 0) && FitsAt(w, r, k);
      WindowStrictTotalOrder(w, r[0].order, r[k].order, order);
    } else {
      assert t[Left(0)] == s[1];
      assert SmallestBelow(t, 0) == 0;
      assert PercolateDown(t, 0) == t;
    }
  }

  lemma RekeyOrders(w: nat, s: seq<Node>, order: nat)
    requires Plain(w) && HeapOrder(s) && Fits(w, s) && InWindow(w, order) && |s| > 1
    ensures HeapOrder(Balance(s, 0, order)) && Fits(w, Balance(s, 0, order))
  {
    var t := s[0 := s[0].(order := order)];
    OverwriteOrderedBut(w, s, t, 0);
    PlainDirectionOk(w, t, 0);
    BalanceOrdersIff(w, s, 0, order);
    BalancePerm(s, 0, order);
    PermFits(w, t, Balance(s, 0, order));
  }

  /** Of two children below node i, the left one moves up unless the right one is below it. */
  lemma LeftFirst(s: seq<Node>, i: nat)
    requires Right(i) < |s| && LtWrapped(s[Left(i)].order, s[i].order) && !LtWrapped(s[Right(i)].order, s[Left(i)].order)
    ensures SmallestBelow(s, i) == Left(i) && PercolateDown(s, i) == PercolateDown(Swap(s, i, Left(i)), Left(i))
  {
  }
}
