/** The indexed min-heap of min_heap.c: a node array changed in place, every thread knowing its index. */
module MinHeap {
  import opened Wrapped
  import opened ThreadTypes
  import Ops = HeapOps
  type Node = Ops.Node

  /** Index entries of threads outside s are as before. */
  ghost predicate SameOutside(m: map<nat, nat>, m': map<nat, nat>, s: seq<Node>) {
    forall u {:trigger m'[u]} {:trigger u in m'} :: u in m && u !in Ops.Threads(s) ==> u in m' && m'[u] == m[u]
  }

  lemma SameOutsideTwice(m: map<nat, nat>, m1: map<nat, nat>, m2: map<nat, nat>, s: seq<Node>, t: seq<Node>)
    requires SameOutside(m, m1, s) && SameOutside(m1, m2, t)
    requires forall u :: u in Ops.Threads(t) ==> u in Ops.Threads(s)
    ensures SameOutside(m, m2, s)
  {
  }

  lemma SameOutsideSelf(m: map<nat, nat>, s: seq<Node>)
    ensures SameOutside(m, m, s)
  {
  }

  class MinHeap {
    const heap: array<Node>
    var currIndex: nat

    constructor ()
      ensures fresh(heap) && heap.Length == MAX_THREADS && currIndex == 0
    {
      heap := new Node[MAX_THREADS](_ => Ops.Node(0, NULL));
      currIndex := 0;
    }

    ghost predicate PointsBack(table: ThreadTable, k: nat)
      reads this, heap, table
    {
      k < heap.Length && heap[k].thread in table.heapIndex && table.heapIndex[heap[k].thread] == k
    }

    /** The threads of the first n slots know their slot. */
    ghost predicate Indexed(table: ThreadTable, n: nat)
      reads this, heap, table
    {
      n <= heap.Length && forall k {:trigger PointsBack(table, k)} :: 0 <= k < n ==> PointsBack(table, k)
    }

    ghost predicate Valid(table: ThreadTable)
      reads this, heap, table
    {
      heap.Length == MAX_THREADS && currIndex <= MAX_THREADS && Indexed(table, currIndex)
    }

    function Nodes(): seq<Node>
      reads this, heap
      requires currIndex <= heap.Length
    {
      heap[..currIndex]
    }

    /** Swap two nodes and rewrite the back-pointers of their threads. n slots are in play: those of the heap, and
        during a removal possibly the one just past its end. */
    method SwapNodes(table: ThreadTable, i: nat, j: nat, ghost n: nat)
      requires Indexed(table, n) && i < n && j < n && i != j
      modifies heap, table`heapIndex
      ensures Indexed(table, n) && heap[..n] == Ops.Swap(old(heap[..n]), i, j)
      ensures SameOutside(old(table.heapIndex), table.heapIndex, old(heap[..n]))
    {
      assert PointsBack(table, i) && PointsBack(table, j);
      ghost var s := heap[..n];
      assert Ops.Threads(s)[i] == heap[i].thread && Ops.Threads(s)[j] == heap[j].thread;
      var tmp := heap[i];
      heap[i] := heap[j];
      heap[j] := tmp;
      table.heapIndex := table.heapIndex[heap[i].thread := i];
      table.heapIndex := table.heapIndex[heap[j].thread := j];
      assert heap[..n] == Ops.Swap(s, i, j);
      forall k | 0 <= k < n ensures PointsBack(table, k) {
        assert old(PointsBack(table, k));
      }
    }

    /** percolate_up */
    method PercolateUp(table: ThreadTable, index: nat, ghost n: nat)
      requires Indexed(table, n) && index < n
      modifies heap, table`heapIndex
      ensures Indexed(table, n) && heap[..n] == Ops.PercolateUp(old(heap[..n]), index)
      ensures SameOutside(old(table.heapIndex), table.heapIndex, old(heap[..n]))
      decreases index
    {
      var parent := Ops.Parent(index);
      if index == 0 || GeqWrapped(heap[index].order, heap[parent].order) {
        return;
      }
      SwapNodes(table, index, parent, n);
      ghost var s := heap[..n];
      Ops.SwapPerm(old(heap[..n]), index, parent);
      PercolateUp(table, parent, n);
      SameThreads(s, old(heap[..n]));
    }

    lemma SameThreads(s: seq<Node>, t: seq<Node>)
      requires Ops.Perm(s, t) || Ops.Perm(t, s)
      ensures forall u :: u in Ops.Threads(s) <==> u in Ops.Threads(t)
    {
      assert forall u :: u in Ops.Threads(s) <==> u in multiset(Ops.Threads(s));
      assert forall u :: u in Ops.Threads(t) <==> u in multiset(Ops.Threads(t));
    }

    /** percolate_down. Called on a slot just past the end it finds no child in range. */
    method PercolateDown(table: ThreadTable, index: nat)
      requires Valid(table) && index <= currIndex && index < heap.Length
      modifies heap, table`heapIndex
      ensures Valid(table)
      ensures Nodes() == if index < currIndex then Ops.PercolateDown(old(Nodes()), index) else old(Nodes())
      ensures SameOutside(old(table.heapIndex), table.heapIndex, old(Nodes()))
      decreases currIndex - index
    {
      hide LtWrapped, Ops.Swap, SameOutside, Indexed;
      SameOutsideSelf(table.heapIndex, Nodes());
      var left, right := Ops.Left(index), Ops.Right(index);
      var swappable, swappableRight := false, false;
      var least := heap[index];
      if left < currIndex {
        swappable := LtWrapped(heap[left].order, least.order);
        if swappable {
          least := heap[left];
        }
      }
      if right < currIndex {
        swappableRight := LtWrapped(heap[right].order, least.order);
        if swappableRight {
          least := heap[right];
        }
      }
      if swappableRight {
        SwapNodes(table, index, right, currIndex);
        ghost var s, m := Nodes(), table.heapIndex;
        Ops.SwapPerm(old(Nodes()), index, right);
        SameThreads(s, old(Nodes()));
        PercolateDown(table, right);
        SameOutsideTwice(old(table.heapIndex), m, table.heapIndex, old(Nodes()), s);
      } else if swappable {
        SwapNodes(table, index, left, currIndex);
        ghost var s, m := Nodes(), table.heapIndex;
        Ops.SwapPerm(old(Nodes()), index, left);
        SameThreads(s, old(Nodes()));
        PercolateDown(table, left);
        SameOutsideTwice(old(table.heapIndex), m, table.heapIndex, old(Nodes()), s);
      }
    }

    /** insert_node */
    method InsertNode(table: ThreadTable, thread: nat, order: nat) returns (ok: bool)
      requires Valid(table) && thread !in Ops.Threads(Nodes())
      modifies this`currIndex, heap, table`heapIndex
      ensures Valid(table)
      ensures ok <==> old(currIndex) < MAX_THREADS
      ensures Nodes() == if ok then Ops.Insert(old(Nodes()), Ops.Node(order, thread)) else old(Nodes())
      ensures SameOutside(old(table.heapIndex), table.heapIndex, old(Nodes()) + [Ops.Node(order, thread)])
    {
      if currIndex >= MAX_THREADS {
        return false;
      }
      ghost var s, node := Nodes(), Ops.Node(order, thread);
      heap[currIndex] := Ops.Node(order, thread);
      table.heapIndex := table.heapIndex[thread := currIndex];
      currIndex := currIndex + 1;
      assert Nodes() == s + [node];
      Ops.ThreadsAppend(s, node);
      forall k | 0 <= k < currIndex ensures PointsBack(table, k) {
        if k < |s| {
          assert old(PointsBack(table, k)) && Ops.Threads(s)[k] == heap[k].thread;
        }
      }
      PercolateUp(table, currIndex - 1, currIndex);
      ok := true;
    }

    /** remove_head */
    method RemoveHead(table: ThreadTable) returns (ok: bool)
      requires Valid(table)
      modifies this`currIndex, heap, table`heapIndex
      ensures Valid(table)
      ensures ok <==> old(currIndex) > 0
      ensures Nodes() == if ok then Ops.RemoveHead(old(Nodes())) else []
      ensures SameOutside(old(table.heapIndex), table.heapIndex, old(Nodes()))
    {
      if currIndex == 1 {
        currIndex := 0;
        return true;
      } else if currIndex > 1 {
        MoveLastTo(table, 0);
        ghost var s := Nodes();
        PercolateDown(table, 0);
        return true;
      }
      return false;
    }

    /** `heap[index] = heap[--curr_index]` and the back-pointer of the moved thread. */
    method MoveLastTo(table: ThreadTable, index: nat)
      requires Valid(table) && index < currIndex
      modifies this`currIndex, heap, table`heapIndex
      ensures Valid(table) && currIndex == old(currIndex) - 1
      ensures index < currIndex ==> Nodes() == old(Nodes()[..currIndex - 1][index := Nodes()[currIndex - 1]])
      ensures index == currIndex ==> heap[..currIndex + 1] == old(Nodes()) && Indexed(table, currIndex + 1)
      ensures forall u :: u in Ops.Threads(Nodes()) ==> u in Ops.Threads(old(Nodes()))
      ensures SameOutside(old(table.heapIndex), table.heapIndex, old(Nodes()))
    {
      ghost var s := Nodes();
      assert PointsBack(table, currIndex - 1);
      assert Ops.Threads(s)[currIndex - 1] == heap[currIndex - 1].thread;
      currIndex := currIndex - 1;
      heap[index] := heap[currIndex];
      table.heapIndex := table.heapIndex[heap[index].thread := index];
      forall k | 0 <= k < currIndex || k == currIndex == index ensures PointsBack(table, k) {
        assert old(PointsBack(table, k));
      }
      forall u | u in Ops.Threads(Nodes()) ensures u in Ops.Threads(s) {
        var k :| 0 <= k < currIndex && heap[k].thread == u;
        assert Ops.Threads(s)[if k == index then |s| - 1 else k] == u;
      }
    }

    /** remove_node, on any heap: the last node is moved by percolation from the slot just past the end. */
    method RemoveNode(table: ThreadTable, index: nat) returns (ok: bool)
      requires Valid(table)
      modifies this`currIndex, heap, table`heapIndex
      ensures Valid(table)
      ensures ok <==> index < old(currIndex)
      ensures Nodes() == if ok then Ops.RemoveNode(old(Nodes()), index) else old(Nodes())
      ensures SameOutside(old(table.heapIndex), table.heapIndex, old(Nodes()))
    {
      hide SameOutside, LtWrapped, GeqWrapped, Ops.PercolateUp, Ops.PercolateDown;
      SameOutsideSelf(table.heapIndex, Nodes());
      if index >= currIndex {
        return false;
      } else if currIndex == 1 {
        currIndex := 0;
        return true;
      }
      MoveLastTo(table, index);
      ghost var m, n := table.heapIndex, if index < currIndex then currIndex else currIndex + 1;
      ghost var s, t := heap[..n], Nodes();
      var parent := Ops.Parent(index);
      if heap[index].order < heap[parent].order {
        PercolateUp(table, index, n);
        assert Nodes() == heap[..currIndex + 1][..currIndex];
        SameOutsideTwice(old(table.heapIndex), m, table.heapIndex, old(Nodes()), s);
      } else {
        PercolateDown(table, index);
        SameOutsideTwice(old(table.heapIndex), m, table.heapIndex, old(Nodes()), t);
      }
      ok := true;
    }

    /** balance_node */
    method BalanceNode(table: ThreadTable, index: nat, order: nat) returns (ok: bool)
      requires Valid(table) && (currIndex > 0 ==> index < currIndex)
      modifies heap, table`heapIndex
      ensures Valid(table)
      ensures ok <==> currIndex > 0
      ensures Nodes() == if ok then Ops.Balance(old(Nodes()), index, order) else []
      ensures SameOutside(old(table.heapIndex), table.heapIndex, old(Nodes()))
    {
      if currIndex == 1 {
        return true;
      } else if currIndex > 1 {
        ghost var s := Nodes();
        var parent := Ops.Parent(index);
        heap[index] := heap[index].(order := order);
        assert Nodes() == s[index := s[index].(order := order)];
        assert Ops.Threads(Nodes()) == Ops.Threads(s);
        forall k | 0 <= k < currIndex ensures PointsBack(table, k) {
          assert old(PointsBack(table, k));
        }
        if heap[index].order < heap[parent].order {
          PercolateUp(table, index, currIndex);
        } else {
          PercolateDown(table, index);
        }
        return true;
      }
      return false;
    }

    /** pop_heap */
    method PopHeap(table: ThreadTable) returns (ok: bool, thread: nat)
      requires Valid(table)
      modifies this`currIndex, heap, table`heapIndex
      ensures Valid(table)
      ensures ok <==> old(currIndex) > 0
      ensures ok ==> thread == old(Nodes())[0].thread && Nodes() == Ops.RemoveHead(old(Nodes()))
      ensures !ok ==> thread == NULL && Nodes() == []
      ensures SameOutside(old(table.heapIndex), table.heapIndex, old(Nodes()))
    {
      if currIndex > 0 {
        var node := heap[0];
        ok := RemoveHead(table);
        thread := node.thread;
      } else {
        ok, thread := false, NULL;
      }
    }
  }
}
