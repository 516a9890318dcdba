/** The ring of thread_fifo.c, used by every scheduler queue. */
module ThreadFifo {
  import opened ThreadTypes

  function IncWrap(n: nat): nat {
    (n + 1) % MAX_THREADS
  }

  class ThreadFifo {
    const fifo: array<nat>
    var start: nat
    var end: nat
    var size: nat

    /** The slot of the k-th element from the head. */
    function At(k: nat): nat
      reads this
    {
      if start + k < MAX_THREADS then start + k else start + k - MAX_THREADS
    }

    ghost predicate Valid()
      reads this
    {
      && fifo.Length == MAX_THREADS && start < MAX_THREADS && size <= MAX_THREADS
      && end == At(size) % MAX_THREADS
    }

    /** Slots outside the queued range hold NULL, as pop leaves them. */
    ghost predicate Clean()
      reads this, fifo
    {
      fifo.Length == MAX_THREADS && forall j {:trigger fifo[j]} :: 0 <= j < MAX_THREADS && !Used(j) ==> fifo[j] == NULL
    }

    /** Slot j holds an element. */
    predicate Used(j: nat)
      reads this
    {
      if start + size <= MAX_THREADS then start <= j < start + size
      else start <= j < MAX_THREADS || j < start + size - MAX_THREADS
    }

    /** The queued threads, oldest first. */
    function Contents(): seq<nat>
      reads this, fifo
      requires fifo.Length == MAX_THREADS && start < MAX_THREADS && size <= MAX_THREADS
    {
      seq(size, k requires 0 <= k < size && fifo.Length == MAX_THREADS && start < MAX_THREADS && size <= MAX_THREADS reads this, fifo => fifo[At(k)])
    }

    /** A zeroed ring. */
    constructor ()
      ensures Valid() && Clean() && fresh(fifo) && Contents() == []
    {
      fifo := new nat[MAX_THREADS](_ => NULL);
      start, end, size := 0, 0, 0;
    }

    /** initialize_fifo empties a ring in any state; its slots are not touched. */
    method Initialize()
      requires fifo.Length == MAX_THREADS
      modifies this
      ensures Valid() && size == 0 && Contents() == []
      ensures Clean() <==> forall j :: 0 <= j < MAX_THREADS ==> fifo[j] == NULL
    {
      start, end, size := 0, 0, 0;
    }

    /** fifo_push */
    method Push(thread: nat) returns (ok: bool)
      requires Valid()
      modifies this, fifo
      ensures Valid() && (old(Clean()) ==> Clean())
      ensures ok <==> old(size) < MAX_THREADS
      ensures Contents() == if ok then old(Contents()) + [thread] else old(Contents())
      ensures size == |Contents()|
    {
      ghost var q := Contents();
      if size < MAX_THREADS {
        size := size + 1;
        fifo[end] := thread;
        end := IncWrap(end);
        assert Contents() == q + [thread];
        return true;
      }
      return false;
    }

    /** fifo_pop */
    method Pop() returns (thread: nat)
      requires Valid()
      modifies this, fifo
      ensures Valid() && (old(Clean()) ==> Clean())
      ensures old(Contents()) == [] ==> thread == NULL && Contents() == []
      ensures old(Contents()) != [] ==> old(Contents()) == [thread] + Contents()
      ensures size == |Contents()|
    {
      ghost var q := Contents();
      if size != 0 {
        thread := fifo[start];
        fifo[start] := NULL;
        size := size - 1;
        start := IncWrap(start);
        assert Contents() == q[1..];
      } else {
        thread := NULL;
      }
    }
  
    /** In a clean ring the slots hold exactly the queued threads. */
    lemma UsedSlots(t: nat)
      requires Valid() && t != NULL
      ensures t in Contents() ==> t in fifo[..]
      ensures Clean() && t in fifo[..] ==> t in Contents()
    {
      if t in Contents() {
        var k :| 0 <= k < size && Contents()[k] == t;
        assert fifo[..][At(k)] == t;
      }
      if Clean() && t in fifo[..] {
        var j :| 0 <= j < MAX_THREADS && fifo[j] == t;
        var k := if j >= start then j - start else j + MAX_THREADS - start;
        assert Used(j) && At(k) == j && Contents()[k] == t;
      }
    }

    /** destroy_threads frees every thread some slot names and leaves an empty ring: those are exactly the queued
        threads if the other slots hold NULL. */
    method DestroyThreads(table: ThreadTable)
      requires Valid()
      modifies this, fifo, table`tcb
      ensures Valid() && Clean() && Contents() == []
      ensures table.tcb == old(table.tcb) - (set t | t in old(fifo[..]) && t != NULL)
      ensures old(Clean()) ==> table.tcb == old(table.tcb) - (set t | t in old(Contents()) && t != NULL)
    {
      ghost var before, q := fifo[..], Contents();
      ghost var gone: set<nat> := {};
      forall t: nat | t != NULL
        ensures t in q ==> t in before
        ensures Clean() && t in before ==> t in q {
        UsedSlots(t);
      }
      for i := 0 to MAX_THREADS
        modifies fifo, table`tcb
        invariant forall j :: 0 <= j < i ==> fifo[j] == NULL
        invariant forall j :: i <= j < MAX_THREADS ==> fifo[j] == before[j]
        invariant forall t :: t in gone <==> t in before[..i] && t != NULL
        invariant table.tcb == old(table.tcb) - gone
      {
        if fifo[i] != NULL {
          table.tcb := table.tcb - {fifo[i]};
          gone := gone + {fifo[i]};
        }
        fifo[i] := NULL;
        assert before[..i + 1] == before[..i] + [before[i]];
      }
      assert before[..MAX_THREADS] == before;
      assert gone == set t | t in before && t != NULL;
      assert old(Clean()) ==> gone == set t | t in q && t != NULL;
      start, end, size := 0, 0, 0;
    }
  }
}
