/** The byte ring of a FreeRTOS queue (queue.c): a bounded sequence that is sent to at either end. */
module QueueRing {
  type Bytes = seq<bv8>

  const SIZE_MAX: nat := 0xFFFF_FFFF

  // ---------------------------------------------------------------- slots of a ring

  /** Slot number i of a ring of n slots, for numbers up to twice the length. */
  function Wrap(i: nat, n: nat): (r: nat)
    requires n > 0 && i <= 2 * n
    ensures r < n
  {
    if i < n then i else if i < 2 * n then i - n else 0
  }

  lemma WrapIsModulo(i: nat, n: nat)
    requires n > 0 && i <= 2 * n
    ensures Wrap(i, n) == i % n
  {
    if n <= i < 2 * n {
      assert i == 1 * n + (i - n);
      ModuloIs(i, n, 1, i - n);
    } else if i == 2 * n {
      ModuloIs(i, n, 2, 0);
    }
  }

  lemma ModuloIs(i: int, n: int, q: int, r: int)
    requires 0 <= r < n && i == q * n + r
    ensures i % n == r
  {
    var d := i / n - q;
    assert i == n * (i / n) + i % n;
    assert n * d == r - i % n;
    assert d >= 1 ==> n * d >= n;
    assert d <= -1 ==> n * d <= -n;
  }

  /** The n items that follow slot r. */
  function Unroll<T>(slots: seq<T>, r: nat, n: nat): (s: seq<T>)
    requires r < |slots| && n <= |slots|
    ensures |s| == n && forall i :: 0 <= i < n ==> s[i] == slots[Wrap(r + 1 + i, |slots|)]
  {
    seq(n, i requires 0 <= i < n => slots[Wrap(r + 1 + i, |slots|)])
  }

  function Before(r: nat, n: nat): nat
    requires r < n
  {
    if r == 0 then n - 1 else r - 1
  }

  /** Writing the slot behind the last item appends. */
  lemma BackAppends<T>(slots: seq<T>, r: nat, n: nat, x: T)
    requires r < |slots| && n < |slots|
    ensures Unroll(slots[Wrap(r + 1 + n, |slots|) := x], r, n + 1) == Unroll(slots, r, n) + [x]
  {
  }

  /** Writing slot r and stepping back prepends. */
  lemma FrontPrepends<T>(slots: seq<T>, r: nat, n: nat, x: T)
    requires r < |slots| && n < |slots|
    ensures Unroll(slots[r := x], Before(r, |slots|), n + 1) == [x] + Unroll(slots, r, n)
  {
    var u, v := Unroll(slots[r := x], Before(r, |slots|), n + 1), [x] + Unroll(slots, r, n);
    forall i | 0 <= i < n + 1 ensures u[i] == v[i] {
      assert i > 0 ==> Wrap(Before(r, |slots|) + 1 + i, |slots|) == Wrap(r + 1 + (i - 1), |slots|);
    }
  }

  /** Stepping forward drops the first item. */
  lemma ForwardDrops<T>(slots: seq<T>, r: nat, n: nat)
    requires r < |slots| && 0 < n <= |slots|
    ensures Unroll(slots, Wrap(r + 1, |slots|), n - 1) == Unroll(slots, r, n)[1..]
    ensures slots[Wrap(r + 1, |slots|)] == Unroll(slots, r, n)[0]
  {
  }

  // ---------------------------------------------------------------- slots in bytes

  lemma Rows(a: nat, b: nat, z: nat)
    requires a < b
    ensures 0 <= a * z && a * z + z <= b * z
  {
    var d := b - a - 1;
    assert d * z >= 0;
    assert b * z == (a + 1 + d) * z == a * z + z + d * z;
  }

  /** Slot s lies inside n slots of z bytes, and does not overlap slot t. */
  lemma SlotsApart(s: nat, t: nat, n: nat, z: nat)
    requires s < n && t < n
    ensures 0 <= s * z && s * z + z <= n * z
    ensures s < t ==> s * z + z <= t * z
    ensures t < s ==> t * z + z <= s * z
  {
    Rows(s, n, z);
    if s < t {
      Rows(s, t, z);
    } else if t < s {
      Rows(t, s, z);
    }
  }

  ghost function SlotOf(mem: Bytes, s: nat, n: nat, z: nat): (b: Bytes)
    requires |mem| == n * z && s < n
    ensures |b| == z
  {
    SlotsApart(s, s, n, z);
    mem[s * z..s * z + z]
  }

  ghost function SlotsOf(mem: Bytes, n: nat, z: nat): (slots: seq<Bytes>)
    requires |mem| == n * z
    ensures |slots| == n
  {
    seq(n, s requires 0 <= s < n => SlotOf(mem, s, n, z))
  }

  /** Copying item over the bytes from o on. */
  function Patched(mem: Bytes, o: nat, item: Bytes): (m: Bytes)
    requires o + |item| <= |mem|
    ensures |m| == |mem| && m[o..o + |item|] == item
    ensures forall a, b :: 0 <= a <= b <= |mem| && (b <= o || o + |item| <= a) ==> m[a..b] == mem[a..b]
  {
    mem[..o] + item + mem[o + |item|..]
  }

  lemma SlotAfter(mem: Bytes, n: nat, z: nat, s: nat, o: nat, item: Bytes, t: nat)
    requires |mem| == n * z && s < n && |item| == z && o == s * z && t < n && o + z <= |mem|
    ensures SlotOf(Patched(mem, o, item), t, n, z) == if t == s then item else SlotOf(mem, t, n, z)
  {
    hide Patched;
    SlotsApart(s, t, n, z);
    SlotsApart(t, t, n, z);
    var p := t * z;
    assert p == t * z && (p + z <= o || o + z <= p || t == s);
  }

  /** Copying item into slot s changes that slot and no other. */
  lemma SlotWritten(mem: Bytes, n: nat, z: nat, s: nat, o: nat, item: Bytes)
    requires |mem| == n * z && s < n && |item| == z && o == s * z
    ensures o + z <= |mem| && SlotsOf(Patched(mem, o, item), n, z) == SlotsOf(mem, n, z)[s := item]
  {
    SlotsApart(s, s, n, z);
    hide SlotOf, Patched;
    var m := Patched(mem, o, item);
    forall t | 0 <= t < n ensures SlotsOf(m, n, z)[t] == SlotsOf(mem, n, z)[s := item][t] {
      SlotAfter(mem, n, z, s, o, item, t);
    }
  }

  lemma Grows(n: nat, a: nat, b: nat)
    requires a <= b
    ensures n * a <= n * b
  {
    assert n * (b - a) >= 0;
    assert n * b == n * a + n * (b - a);
  }

  lemma QuotientBound(n: nat, z: nat)
    requires n >= 1
    ensures SIZE_MAX / n >= z <==> n * z <= SIZE_MAX
  {
    var q := SIZE_MAX / n;
    assert n * q <= SIZE_MAX < n * q + n;
    if q >= z {
      Grows(n, z, q);
    } else {
      Grows(n, q + 1, z);
      assert n * (q + 1) == n * q + n;
    }
  }

  /** One slot forward in bytes, as the cursors are moved. */
  lemma Forward(s: nat, n: nat, z: nat)
    requires s < n && z > 0
    ensures s * z + z >= n * z <==> s + 1 == n
    ensures s + 1 < n ==> s * z + z == (s + 1) * z
  {
    if s + 1 < n {
      Rows(s, s + 1, z);
      Rows(s + 1, n, z);
    }
  }

  /** One slot back in bytes. */
  lemma Backward(s: nat, n: nat, z: nat)
    requires s < n && z > 0
    ensures s * z - z < 0 <==> s == 0
    ensures (if s == 0 then n * z - z else s * z - z) == Before(s, n) * z
  {
    if s > 0 {
      Rows(s - 1, s, z);
    }
  }

  // ---------------------------------------------------------------- the queue

  datatype Position = SEND_TO_BACK | SEND_TO_FRONT | OVERWRITE

  /** The queue's storage and the three cursors into it; offsets count from pcHead. */
  class Queue {
    const length: nat
    const itemSize: nat
    const storage: array<bv8>
    var tail: nat
    var writeTo: nat
    var readFrom: int
    var waiting: nat
    /** The slot readFrom is at. */
    ghost var slot: nat

    ghost predicate Shaped()
      reads this
    {
      storage.Length == length * itemSize
    }

    /** The write slot is always the read slot plus one plus the number of items, modulo the length. */
    ghost predicate Valid()
      reads this
    {
      && Shaped() && length >= 1 && tail == storage.Length
      && waiting <= length && slot < length
      && readFrom == slot * itemSize && writeTo == Wrap(slot + 1 + waiting, length) * itemSize
    }

    /** The items, first to last to be received. */
    ghost function Contents(): (s: seq<Bytes>)
      requires Valid()
      reads this, storage
      ensures |s| == waiting
    {
      Unroll(SlotsOf(storage[..], length, itemSize), slot, waiting)
    }

    constructor (length: nat, itemSize: nat)
      ensures Shaped() && this.length == length && this.itemSize == itemSize && fresh(storage)
    {
      this.length, this.itemSize := length, itemSize;
      storage := new bv8[length * itemSize];
    }

    /** xQueueGenericReset: an empty queue, or pdFAIL for a length of 0 or a size that overflows. */
    method Reset() returns (ok: bool)
      requires Shaped()
      modifies this
      ensures ok <==> length >= 1 && length * itemSize <= SIZE_MAX
      ensures ok ==> Valid() && Contents() == []
      ensures !ok ==> tail == old(tail) && writeTo == old(writeTo) && readFrom == old(readFrom) && waiting == old(waiting)
    {
      ok := length >= 1 && SIZE_MAX / length >= itemSize;
      if length >= 1 {
        QuotientBound(length, itemSize);
      }
      if ok {
        tail := length * itemSize;
        waiting := 0;
        writeTo := 0;
        readFrom := (length - 1) * itemSize;
        slot := length - 1;
        assert Wrap(slot + 1 + waiting, length) == 0;
      }
    }

    /** memcpy into the storage. */
    method CopyIn(o: nat, item: Bytes)
      requires o + |item| <= storage.Length
      modifies storage
      ensures storage[..] == Patched(old(storage[..]), o, item)
    {
      forall i | 0 <= i < |item| {
        storage[o + i] := item[i];
      }
    }
  
    /** The back of prvCopyDataToQueue: the item goes to the write slot. */
    method CopyToBack(item: Bytes)
      requires Valid() && itemSize > 0 && |item| == itemSize && waiting < length
      modifies this, storage
      ensures Valid() && Contents() == old(Contents()) + [item]
    {
      ghost var w, slots := Wrap(slot + 1 + waiting, length), SlotsOf(storage[..], length, itemSize);
      SlotWritten(storage[..], length, itemSize, w, writeTo, item);
      CopyIn(writeTo, item);
      BackAppends(slots, slot, waiting, item);
      Forward(w, length, itemSize);
      writeTo := writeTo + itemSize;
      if writeTo >= tail {
        writeTo := 0;
      }
      waiting := waiting + 1;
    }

    /** The front: the item goes to the read slot, which then steps back. An overwrite of the one item a queue of
        length 1 holds does not count it again. */
    method CopyToFront(item: Bytes, overwrite: bool)
      requires Valid() && itemSize > 0 && |item| == itemSize && (if overwrite then length == 1 else waiting < length)
      modifies this, storage
      ensures Valid() && Contents() == if overwrite then [item] else [item] + old(Contents())
    {
      ghost var slots := SlotsOf(storage[..], length, itemSize);
      SlotWritten(storage[..], length, itemSize, slot, readFrom, item);
      CopyIn(readFrom, item);
      Backward(slot, length, itemSize);
      readFrom := readFrom - itemSize;
      if readFrom < 0 {
        readFrom := tail - itemSize;
      }
      if overwrite && waiting > 0 {
        waiting := waiting - 1;
      }
      FrontPrepends(slots, slot, waiting, item);
      waiting := waiting + 1;
      slot := Before(slot, length);
    }

    /** prvCopyDataToQueue. With an item size of 0 nothing is copied and only the count moves. */
    method CopyTo(item: Bytes, position: Position)
      requires Valid() && |item| == itemSize && (position == OVERWRITE ==> length == 1)
      requires waiting < length || position == OVERWRITE
      modifies this, storage
      ensures waiting == if position == OVERWRITE && itemSize > 0 then 1 else old(waiting) + 1
      ensures Valid() <==> waiting <= length
      ensures Valid() && position == SEND_TO_BACK ==> Contents() == old(Contents()) + [item]
      ensures Valid() && position == SEND_TO_FRONT ==> Contents() == [item] + old(Contents())
      ensures Valid() && position == OVERWRITE ==> Contents() == [item]
    {
      if itemSize == 0 {
        waiting := waiting + 1;
        assert storage[..] == old(storage[..]);
      } else if position == SEND_TO_BACK {
        CopyToBack(item);
      } else {
        CopyToFront(item, position == OVERWRITE);
      }
    }

    /** xQueueGenericSend without blocking: false when the queue is full and the item is not to overwrite. */
    method Send(item: Bytes, position: Position) returns (ok: bool)
      requires Valid() && |item| == itemSize && (position == OVERWRITE ==> length == 1)
      modifies this, storage
      ensures ok <==> old(waiting) < length || position == OVERWRITE
      ensures waiting == if !ok then old(waiting) else if position == OVERWRITE && itemSize > 0 then 1 else old(waiting) + 1
      ensures !ok ==> Valid() && Contents() == old(Contents())
      ensures Valid() <==> !(itemSize == 0 && position == OVERWRITE && old(waiting) > 0)
      ensures ok && Valid() ==> Contents() == match position
                                              case SEND_TO_BACK => old(Contents()) + [item]
                                              case SEND_TO_FRONT => [item] + old(Contents())
                                              case OVERWRITE => [item]
    {
      ok := waiting < length || position == OVERWRITE;
      if ok {
        CopyTo(item, position);
      }
    }

    /** prvCopyDataFromQueue: the first item, and the read slot moved to it. */
    method CopyFrom() returns (item: Bytes)
      requires Valid() && waiting > 0
      modifies this`readFrom, this`slot
      ensures item == old(Contents())[0] && slot == Wrap(old(slot) + 1, length) && readFrom == slot * itemSize
    {
      ghost var next := Wrap(slot + 1, length);
      ForwardDrops(SlotsOf(storage[..], length, itemSize), slot, waiting);
      SlotsApart(next, next, length, itemSize);
      item := [];
      if itemSize != 0 {
        Forward(slot, length, itemSize);
        readFrom := readFrom + itemSize;
        if readFrom >= tail {
          readFrom := 0;
        }
        item := storage[readFrom..readFrom + itemSize];
        assert item == storage[..][readFrom..readFrom + itemSize];
      }
      slot := next;
    }

    /** xQueueReceive without blocking. */
    method Receive() returns (ok: bool, item: Bytes)
      requires Valid()
      modifies this
      ensures Valid() && (ok <==> old(waiting) > 0)
      ensures if ok then [item] + Contents() == old(Contents()) else Contents() == old(Contents()) == []
    {
      ok, item := waiting > 0, [];
      if ok {
        ForwardDrops(SlotsOf(storage[..], length, itemSize), slot, waiting);
        item := CopyFrom();
        waiting := waiting - 1;
      }
    }

    /** xQueuePeek without blocking: the first item, with every cursor left as it was. */
    method Peek() returns (ok: bool, item: Bytes)
      requires Valid()
      modifies this`readFrom, this`slot
      ensures Valid() && (ok <==> waiting > 0) && readFrom == old(readFrom)
      ensures Contents() == old(Contents()) && (ok ==> item == Contents()[0])
    {
      ok, item := waiting > 0, [];
      if ok {
        var original := readFrom;
        ghost var s := slot;
        item := CopyFrom();
        readFrom := original;
        slot := s;
      }
    }
  }

  /** Two overwrites of a binary semaphore, a queue of one item of size 0: it counts two messages. */
  method OverwriteSemaphoreTwice() returns (q: Queue)
    ensures q.length == 1 && q.itemSize == 0 && q.waiting == 2 && !q.Valid()
  {
    q := new Queue(1, 0);
    var ready := q.Reset();
    var first := q.Send([], OVERWRITE);
    var second := q.Send([], OVERWRITE);
  }
}
