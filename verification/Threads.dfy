/** Thread control blocks, as the scheduler and its containers see them. */
module ThreadTypes {
  const MAX_THREADS := 100
  const PERSISTENT_SLICE_TICKS := 200
  const NULL := 0

  datatype Status = PENDING | RUNNING | FINISHED
  datatype Periodicity = APERIODIC | PERIODIC | PERSISTENT
  datatype Priority = LOW_PRIORITY | MED_PRIORITY | HIGH_PRIORITY
  datatype Owner = INCOMING_THREADS | OUTGOING_THREADS | DEAD_HEAP | REL_HEAP | FIFO_LOW | FIFO_MED | FIFO_HIGH

  /** thread_t without its stack, and without heap_index, which only the heaps write. */
  datatype Tcb = Tcb(
    status: Status, periodicity: Periodicity, priority: Priority, owner: Owner,
    period: nat, release: nat, deadline: nat, landed: nat, dirty: bool, prevU: nat)

  /** The memory in which the thread structures live, by address. */
  class ThreadTable {
    var tcb: map<nat, Tcb>
    var heapIndex: map<nat, nat>

    constructor ()
      ensures tcb == map[] && heapIndex == map[]
    {
      tcb, heapIndex := map[], map[];
    }
  }
}
