/** The allocator as the kernel runs it: headers in raw memory, list heads and bitmaps in static arrays,
    all updated in place. Each operation is proved to compute the abstract one. */
module Tlsf {
  import opened Words
  import opened SizeClass
  import opened Arena
  import opened Allocator
  import opened AllocatorLaws
  import opened FreeIndex

  ghost predicate HeaderOk(mem: Memory, bs: Blocks, b: nat)
    requires b in bs
  {
    b in mem && mem[b].size == bs[b].size && mem[b].free == bs[b].free && mem[b].prevPhys == bs[b].prev
  }

  /** Memory holds the header of every block of the tiling. */
  ghost predicate Headers(mem: Memory, bs: Blocks) {
    forall b {:trigger HeaderOk(mem, bs, b)} :: b in bs ==> HeaderOk(mem, bs, b)
  }

  lemma HeadersSameTags(m: Memory, m': Memory, bs: Blocks)
    requires Headers(m, bs) && SameTags(m, m')
    ensures Headers(m', bs)
  {
    forall b | b in bs ensures HeaderOk(m', bs, b) {
      assert HeaderOk(m, bs, b);
    }
  }

  /** Store into the 24-bit size field of a header. */
  function Field24(size: nat): nat {
    size % SIZE_LIMIT
  }

  lemma LinkedSameLinks(m: Memory, m': Memory, heads: seq<nat>, lists: seq<seq<nat>>)
    requires Linked(m, heads, lists)
    requires forall x :: x in m ==> x in m' && m'[x].prev == m[x].prev && m'[x].next == m[x].next
    ensures Linked(m', heads, lists)
  {
    forall c | 0 <= c < TLSF_SIZE ensures heads[c] == At(lists[c], 0) && Chain(m', lists[c]) {
      ChainSame(m, m', lists[c]);
    }
  }

  lemma HeadersSetFree(m: Memory, bs: Blocks, b: nat, free: bool)
    requires Headers(m, bs) && b in bs
    ensures b in m && Headers(m[b := m[b].(free := free)], SetFree(bs, b, free))
  {
    assert HeaderOk(m, bs, b);
    forall x | x in bs ensures HeaderOk(m[b := m[b].(free := free)], SetFree(bs, b, free), x) {
      assert HeaderOk(m, bs, x);
    }
  }

  /** The header writes of a split represent the split tiling. */
  lemma HeadersSplit(m: Memory, m': Memory, bs: Blocks, b: nat, s: nat)
    requires Headers(m, bs) && Tiled(bs) && b in bs && s >= MIN_PAYLOAD && s % 8 == 0
    requires bs[b].size >= s + HEADER + MIN_PAYLOAD && bs[b].size < SIZE_LIMIT
    requires HeapMemory(m)
    requires var n, e := b + HEADER + s, Next(bs, b);
             && b in m && n in m && (e < END ==> e in m)
             && var m1 := m[n := m[n].(size := bs[b].size - s - HEADER, free := true, prevPhys := b)];
             && var m2 := if e < END then m1[e := m1[e].(prevPhys := n)] else m1;
             && m' == m2[b := m2[b].(size := s)]
    ensures b + HEADER + s in Split(bs, b, s)
    ensures Headers(m', SetFree(Split(bs, b, s), b + HEADER + s, true))
  {
    var n, e := b + HEADER + s, Next(bs, b);
    SplitAt(bs, b, s, n);
    assert BlockOk(bs, b);
    var t := SetFree(Split(bs, b, s), n, true);
    forall x | x in t ensures HeaderOk(m', t, x) {
      SplitAt(bs, b, s, x);
      if x != n {
        assert HeaderOk(m, bs, x) && BlockOk(bs, x);
      }
    }
  }

  /** The headers a split writes lie in the heap, at three different addresses. */
  lemma SplitInMemory(m: Memory, bs: Blocks, b: nat, s: nat)
    requires Headers(m, bs) && HeapMemory(m) && Tiled(bs) && b in bs
    requires s >= MIN_PAYLOAD && bs[b].size >= s + HEADER + MIN_PAYLOAD
    ensures var (n, e) := (b + HEADER + s, Next(bs, b));
            b in m && n in m && (e < END ==> e in m) && b < n < e && m[b].size == bs[b].size
  {
    assert HeaderOk(m, bs, b) && BlockOk(bs, b);
  }

  lemma SizeInHeader(m: Memory, bs: Blocks, b: nat)
    requires Headers(m, bs) && Tiled(bs) && b in bs
    ensures b in m && m[b].size == bs[b].size && b % 8 == 0 && BASE <= b && Next(bs, b) <= END
  {
    assert HeaderOk(m, bs, b) && BlockOk(bs, b);
  }

  lemma SplitSetFree(bs: Blocks, b: nat, s: nat)
    requires Tiled(bs) && b in bs && s >= MIN_PAYLOAD && s % 8 == 0
    requires bs[b].size >= s + HEADER + MIN_PAYLOAD
    ensures b in Split(bs, b, s) && b + HEADER + s in Split(bs, b, s) && b + HEADER + s !in bs
    ensures Split(SetFree(bs, b, false), b, s) == SetFree(Split(bs, b, s), b, false)
  {
    var f := SetFree(bs, b, false);
    SetFreeTiled(bs, b, false);
    SplitAt(bs, b, s, b);
    SplitAt(bs, b, s, b + HEADER + s);
    forall x ensures x in Split(f, b, s) <==> x in Split(bs, b, s)
             ensures x in Split(bs, b, s) ==> Split(f, b, s)[x] == SetFree(Split(bs, b, s), b, false)[x] {
      SplitAt(bs, b, s, x);
      SplitAt(f, b, s, x);
    }
  }

  /** A block cut as kMalloc does: remainder free and filed, the block itself still free and filed. */
  function SplitFree(a: Arena, b: nat, s: nat): Arena
    requires Inv(a) && b in a.blocks && s >= MIN_PAYLOAD && s % 8 == 0
    requires a.blocks[b].size >= s + HEADER + MIN_PAYLOAD
  {
    SizeInRange(a.blocks, b);
    SplitSetFree(a.blocks, b, s);
    Arena(SetFree(Split(a.blocks, b, s), b + HEADER + s, true),
          Push(a.lists, Slot(a.blocks[b].size - s - HEADER), b + HEADER + s))
  }

  lemma CarveIs(a: Arena, b: nat, s: nat)
    requires Inv(a) && b in a.blocks && a.blocks[b].free && 0 < a.blocks[b].size < SIZE_LIMIT
    requires s >= MIN_PAYLOAD && s % 8 == 0 && a.blocks[b].size >= s + HEADER + MIN_PAYLOAD
    ensures var n, t := b + HEADER + s, Split(SetFree(a.blocks, b, false), b, s);
            && n in t
            && Carve(a, b, s).blocks == SetFree(t, n, true)
            && Carve(a, b, s).lists
            == Push(Remove(a.lists, Slot(a.blocks[b].size), b), Slot(a.blocks[b].size - s - HEADER), n)
  {
    hide Inv, Slot, Split;
    TakeOutInv(a, b);
    CarveRemainder(a, b, s);
  }

  lemma SetFreeCommute(bs: Blocks, n: nat, f: bool, b: nat, g: bool)
    requires n in bs && b in bs && n != b
    ensures SetFree(SetFree(bs, b, g), n, f) == SetFree(SetFree(bs, n, f), b, g)
  {
  }

  /** Carving in the order in which kMalloc writes: split with b still free, then take b out. */
  lemma CarveBySplit(a: Arena, b: nat, s: nat)
    requires Inv(a) && b in a.blocks && a.blocks[b].free && 0 < a.blocks[b].size < SIZE_LIMIT
    requires s >= MIN_PAYLOAD && s % 8 == 0 && a.blocks[b].size >= s + HEADER + MIN_PAYLOAD
    ensures var t, r, c := SplitFree(a, b, s), Carve(a, b, s), Slot(a.blocks[b].size);
            b in t.blocks && r.blocks == SetFree(t.blocks, b, false) && r.lists == Remove(t.lists, c, b)
  {
    hide Carve, Split, Slot;
    var n := b + HEADER + s;
    CarveIs(a, b, s);
    SplitSetFree(a.blocks, b, s);
    SetFreeCommute(Split(a.blocks, b, s), n, true, b, false);
    PushRemoveCommute(a.lists, Slot(a.blocks[b].size - s - HEADER), n, Slot(a.blocks[b].size), b);
  }

  lemma PushRemoveCommute(lists: seq<seq<nat>>, d: nat, n: nat, c: nat, b: nat)
    requires c < |lists| && d < |lists| && n != b
    ensures Push(Remove(lists, c, b), d, n) == Remove(Push(lists, d, n), c, b)
  {
    var l := lists[c];
    assert ([n] + l)[1..] == l;
    assert Without([n] + l, b) == [n] + Without(l, b);
  }

  lemma Unlisted(bs: Blocks, lists: seq<seq<nat>>, x: nat)
    requires Indexed(bs, lists) && (x in bs ==> !bs[x].free)
    ensures forall c :: 0 <= c < TLSF_SIZE ==> x !in lists[c]
  {
    forall c | 0 <= c < TLSF_SIZE ensures x !in lists[c] {
      assert x in lists[c] <==> FiledUnder(bs, x, c);
    }
  }

  // ---------------------------------------------------------------- what kFree reads and writes

  /** Absorbing backwards, in terms of the headers before the call. */
  lemma AbsorbPrevIs(a: Arena, b: nat)
    requires Inv(a) && b in a.blocks && !a.blocks[b].free
    ensures var p := a.blocks[b].prev;
            && (p in a.blocks <==> p != NULL)
            && if p in a.blocks && a.blocks[p].free then
                 var q, (u, start) := a.blocks[p].prev, AbsorbPrev(a, b);
                 && p < b && start == p && 0 < a.blocks[p].size < SIZE_LIMIT
                 && p in a.lists[Slot(a.blocks[p].size)]
                 && u.lists == Remove(a.lists, Slot(a.blocks[p].size), p)
                 && u.blocks[p].size == a.blocks[b].size + a.blocks[p].size + HEADER
                 && (q in a.blocks <==> q != NULL) && (q in a.blocks ==> !a.blocks[q].free)
               else AbsorbPrev(a, b) == (a, b)
  {
    var p := a.blocks[b].prev;
    assert BlockOk(a.blocks, b);
    assert NULL in a.blocks ==> BlockOk(a.blocks, NULL);
    if p in a.blocks && a.blocks[p].free {
      TakeOutInv(a, p);
      AbsorbPrevInv(a, b);
      MergeAt(TakeOut(a, p).blocks, p, p);
      assert BlockOk(a.blocks, p) && FiledUnder(a.blocks, p, Slot(a.blocks[p].size));
      var q := a.blocks[p].prev;
      if q in a.blocks {
        assert NotMergeable(a.blocks, q);
      }
    }
  }

  /** After absorbing backwards every other block, and the end of the merged one, are as before. */
  lemma AbsorbPrevAt(a: Arena, b: nat, x: nat)
    requires Inv(a) && b in a.blocks && !a.blocks[b].free
    ensures var (u, start) := AbsorbPrev(a, b);
            && start in a.blocks && u.blocks[start].prev == a.blocks[start].prev
            && Next(u.blocks, start) == Next(a.blocks, b)
            && (x in u.blocks ==> x in a.blocks)
            && (x in u.blocks && x != start && x != Next(a.blocks, b) ==> u.blocks[x] == a.blocks[x])
            && (x == Next(a.blocks, b) && x in a.blocks ==>
                  x in u.blocks && x != start && u.blocks[x] == a.blocks[x].(prev := start))
  {
    var p := a.blocks[b].prev;
    assert BlockOk(a.blocks, b);
    if p in a.blocks && a.blocks[p].free {
      TakeOutInv(a, p);
      AbsorbPrevInv(a, b);
      MergeAt(TakeOut(a, p).blocks, p, p);
      MergeAt(TakeOut(a, p).blocks, p, x);
      assert BlockOk(a.blocks, p);
    }
    if x in a.blocks {
      assert BlockOk(a.blocks, x);
    }
  }

  /** Absorbing forwards, in terms of the merged block's successor. */
  lemma AbsorbNextIs(u: Arena, start: nat)
    requires Inv(u) && start in u.blocks && !u.blocks[start].free
    ensures var n := Next(u.blocks, start);
            && (n in u.blocks <==> n < END)
            && if n in u.blocks && u.blocks[n].free then
                 var m, t := Next(u.blocks, n), AbsorbNext(u, start);
                 && start < n && 0 < u.blocks[n].size < SIZE_LIMIT
                 && n in u.lists[Slot(u.blocks[n].size)]
                 && t.lists == Remove(u.lists, Slot(u.blocks[n].size), n)
                 && t.blocks[start].size == u.blocks[start].size + u.blocks[n].size + HEADER
                 && (m in u.blocks <==> m < END) && (m in u.blocks ==> !u.blocks[m].free)
               else AbsorbNext(u, start) == u
  {
    var n := Next(u.blocks, start);
    assert BlockOk(u.blocks, start);
    if n in u.blocks {
      assert BlockOk(u.blocks, n);
      if u.blocks[n].free {
        TakeOutInv(u, n);
        AbsorbNextInv(u, start);
        MergeAt(TakeOut(u, n).blocks, start, start);
        assert NotMergeable(u.blocks, n) && FiledUnder(u.blocks, n, Slot(u.blocks[n].size));
        if Next(u.blocks, n) in u.blocks {
          assert BlockOk(u.blocks, Next(u.blocks, n));
        }
      }
    }
  }

  lemma AbsorbNextAt(u: Arena, start: nat, x: nat)
    requires Inv(u) && start in u.blocks && !u.blocks[start].free
    ensures var t := AbsorbNext(u, start);
            && t.blocks[start].prev == u.blocks[start].prev
            && (x in t.blocks ==> x in u.blocks)
            && (x in t.blocks && x == Next(u.blocks, start) ==> t == u)
            && (x in t.blocks && x != start ==>
                  t.blocks[x] == if x == Next(t.blocks, start) then u.blocks[x].(prev := start) else u.blocks[x])
  {
    var n := Next(u.blocks, start);
    AbsorbNextIs(u, start);
    assert BlockOk(u.blocks, start);
    if n in u.blocks && u.blocks[n].free {
      TakeOutInv(u, n);
      AbsorbNextInv(u, start);
      MergeAt(TakeOut(u, n).blocks, start, start);
      MergeAt(TakeOut(u, n).blocks, start, x);
    }
  }

  /** The merged block before it is freed, and its start. */
  function Merged(a: Arena, b: nat): (r: (Arena, nat))
    requires Inv(a) && b in a.blocks && !a.blocks[b].free
    ensures Inv(r.0) && r.1 in r.0.blocks && !r.0.blocks[r.1].free
  {
    var (u, start) := AbsorbPrev(a, b);
    (AbsorbNext(u, start), start)
  }

  /** Merging changes no header but those of the merged block and of the block after it. */
  lemma MergedAt(a: Arena, b: nat, x: nat)
    requires Inv(a) && b in a.blocks && !a.blocks[b].free
    ensures var (t, start) := Merged(a, b);
            && start in a.blocks && t.blocks[start].prev == a.blocks[start].prev
            && (x in t.blocks ==> x in a.blocks)
            && (x in t.blocks && x != start ==>
                  t.blocks[x] == if x == Next(t.blocks, start) then a.blocks[x].(prev := start) else a.blocks[x])
  {
    var (u, start) := AbsorbPrev(a, b);
    var t := AbsorbNext(u, start);
    AbsorbPrevAt(a, b, x);
    AbsorbNextAt(u, start, x);
  }

  /** The header writes at the end of kFree represent the released tiling. */
  lemma HeadersReleased(m: Memory, a: Arena, b: nat, m': Memory)
    requires Headers(m, a.blocks) && HeapMemory(m)
    requires Inv(a) && b in a.blocks && !a.blocks[b].free
    requires var (t, start) := Merged(a, b);
             var e := Next(t.blocks, start);
             && start in m && (e < END ==> e in m)
             && var m1 := m[start := m[start].(size := t.blocks[start].size, free := true)];
             && m' == if e < END then m1[e := m1[e].(prevPhys := start)] else m1
    ensures Headers(m', SetFree(Merged(a, b).0.blocks, Merged(a, b).1, true))
  {
    var (t, start) := Merged(a, b);
    var r := SetFree(t.blocks, start, true);
    assert BlockOk(t.blocks, start);
    forall x | x in r ensures HeaderOk(m', r, x) {
      MergedAt(a, b, x);
      assert HeaderOk(m, a.blocks, x) && BlockOk(t.blocks, x);
    }
  }

  // ---------------------------------------------------------------- the bitmap scan

  lemma {:induction false} FirstFitSkip(lists: seq<seq<nat>>, c: nat, d: nat)
    requires c <= d <= |lists| && forall e :: c <= e < d ==> lists[e] == []
    ensures FirstFit(lists, c) == FirstFit(lists, d)
    decreases d - c
  {
    if c < d {
      FirstFitSkip(lists, c + 1, d);
    }
  }

  /** An exhausted second-level scan has only passed empty lists. */
  lemma OctaveDone(fb: nat, sb: seq<nat>, lists: seq<seq<nat>>, f: nat, s: nat)
    requires Mapped(fb, sb, lists) && f < OCTAVES && s <= SL_COUNT
    requires Shr(sb[f], s) == 0
    ensures FirstFit(lists, f * SL_COUNT + s) == FirstFit(lists, (f + 1) * SL_COUNT)
  {
    WordIsPow2();
    ShrZero(sb[f], s, 32);
    forall e | f * SL_COUNT + s <= e < (f + 1) * SL_COUNT ensures lists[e] == [] {
      assert !TestBit(sb[f], e - f * SL_COUNT);
    }
    FirstFitSkip(lists, f * SL_COUNT + s, (f + 1) * SL_COUNT);
  }

  /** An octave whose first-level bit is clear has no entry from slot s on. */
  lemma OctaveEmpty(fb: nat, sb: seq<nat>, lists: seq<seq<nat>>, f: nat, s: nat)
    requires Mapped(fb, sb, lists) && f < OCTAVES && s <= SL_COUNT
    requires !TestBit(fb, f + LIN - 1)
    ensures FirstFit(lists, f * SL_COUNT + s) == FirstFit(lists, (f + 1) * SL_COUNT)
  {
    assert sb[f] == 0;
    ZeroBits(s);
    OctaveDone(fb, sb, lists, f, s);
  }

  /** Once the shifted first-level word is zero no list from octave f on has an entry. */
  lemma {:induction false} OctavesDone(fb: nat, sb: seq<nat>, lists: seq<seq<nat>>, f: nat, s: nat)
    requires Mapped(fb, sb, lists) && f <= OCTAVES && s <= SL_COUNT && (f == OCTAVES ==> s == 0)
    requires Shr(fb, f + LIN - 1) == 0
    ensures FirstFit(lists, f * SL_COUNT + s) == NULL
    decreases OCTAVES - f
  {
    if f < OCTAVES {
      WordIsPow2();
      ShrZero(fb, f + LIN - 1, 32);
      OctaveEmpty(fb, sb, lists, f, s);
      ShrStep(fb, f + LIN - 1);
      OctavesDone(fb, sb, lists, f + 1, 0);
    }
  }

  /** While the shifted first-level word is non-zero the scan is inside the index. */
  lemma ScanInside(fb: nat, sb: seq<nat>, lists: seq<seq<nat>>, k: nat)
    requires Mapped(fb, sb, lists) && Shr(fb, k) > 0
    ensures k < FL_COUNT && Shr(fb, k + 1) == Shr(fb, k) / 2
  {
    WordIsPow2();
    ShrZero(fb, k, 32);
    ShrStep(fb, k);
  }

  /** What unlinking b has to do to links and bitmaps, by its place k in its list. */
  lemma RemovalPlan(fb: nat, sb: seq<nat>, mem: Memory, heads: seq<nat>, lists: seq<seq<nat>>, p: ClassPos, b: nat)
    requires Mapped(fb, sb, lists) && Linked(mem, heads, lists) && p.Valid() && b in lists[p.Index()]
    ensures b in mem
    ensures var (prev, next) := (mem[b].prev, mem[b].next);
            && (prev != NULL ==> prev in mem) && (next != NULL ==> next in mem)
            && var m := JoinLinks(mem, prev, next);
            && Linked(m, if prev == NULL then heads[p.Index() := next] else heads, Remove(lists, p.Index(), b))
            && SameTags(mem, m)
    ensures var c, f := p.Index(), p.leader - (LIN - 1);
            var w := ClearBit(sb[f], p.sub);
            if mem[b].prev == NULL && mem[b].next == NULL
            then Mapped(if w == 0 then ClearBit(fb, p.leader) else fb, sb[f := w], Remove(lists, c, b))
            else Mapped(fb, sb, Remove(lists, c, b)) && (mem[b].prev != NULL ==> heads[c] != NULL)
  {
    var c := p.Index();
    var l := lists[c];
    var k :| 0 <= k < |l| && l[k] == b;
    LinkedRemove(mem, heads, lists, c, k);
    WithoutAt(l, k);
    ChainNeighbours(mem, l, k);
    assert LinkOk(mem, l, 0);
    if mem[b].prev == NULL && mem[b].next == NULL {
      assert |l| == 1;
      MappedClear(fb, sb, lists, p, Remove(lists, c, b));
    } else {
      assert |l| > 1;
      MappedSame(fb, sb, lists, c, Without(l, b));
    }
  }

  // ---------------------------------------------------------------- the state determines the memory

  /** What memory, list heads and bitmaps hold, given the abstract state. */
  ghost predicate Represents(mem: Memory, heads: seq<nat>, fb: nat, sb: seq<nat>, a: Arena) {
    Headers(mem, a.blocks) && Linked(mem, heads, a.lists) && Mapped(fb, sb, a.lists)
  }

  lemma MappedUnique(fb: nat, sb: seq<nat>, fb': nat, sb': seq<nat>, lists: seq<seq<nat>>)
    requires Mapped(fb, sb, lists) && Mapped(fb', sb', lists)
    ensures fb == fb' && sb == sb'
  {
    WordIsPow2();
    forall f | 0 <= f < OCTAVES ensures sb[f] == sb'[f] {
      assert forall s :: 0 <= s < SL_COUNT ==> (TestBit(sb[f], s) <==> lists[f * SL_COUNT + s] != []);
      assert forall s :: 0 <= s < SL_COUNT ==> (TestBit(sb'[f], s) <==> lists[f * SL_COUNT + s] != []);
      SameBits(sb[f], sb'[f], 32);
    }
    SameBits(fb, fb', 32);
  }

  /** Equal abstract states mean equal boundary tags, sizes and flags in every block header, equal links in every
      free block, equal list heads and equal bitmaps. */
  lemma StateDeterminesMemory(m: Memory, hs: seq<nat>, fb: nat, sb: seq<nat>,
                              m': Memory, hs': seq<nat>, fb': nat, sb': seq<nat>, a: Arena, b: nat)
    requires Inv(a) && b in a.blocks
    requires Represents(m, hs, fb, sb, a) && Represents(m', hs', fb', sb', a)
    ensures hs == hs' && fb == fb' && sb == sb'
    ensures b in m && b in m' && m[b].(prev := 0, next := 0) == m'[b].(prev := 0, next := 0)
    ensures a.blocks[b].free ==> m[b] == m'[b]
  {
    MappedUnique(fb, sb, fb', sb', a.lists);
    assert forall c :: 0 <= c < TLSF_SIZE ==> hs[c] == At(a.lists[c], 0) && hs'[c] == At(a.lists[c], 0);
    assert HeaderOk(m, a.blocks, b) && HeaderOk(m', a.blocks, b);
    if a.blocks[b].free {
      SizeInRange(a.blocks, b);
      var c := Slot(a.blocks[b].size);
      assert FiledUnder(a.blocks, b, c);
      var i :| 0 <= i < |a.lists[c]| && a.lists[c][i] == b;
      assert LinkOk(m, a.lists[c], i) && LinkOk(m', a.lists[c], i);
    }
  }

  lemma InitMapped(fb: nat, sb: seq<nat>)
    requires fb == SetBit(0, FL_COUNT - 1)
    requires |sb| == OCTAVES && sb[OCTAVES - 1] == SetBit(0, SL_COUNT - 1)
    requires forall f :: 0 <= f < OCTAVES - 1 ==> sb[f] == 0
    ensures Mapped(fb, sb, InitArena().lists)
  {
    var zeros: seq<nat>, none: seq<seq<nat>> := seq(OCTAVES, _ => 0), seq(TLSF_SIZE, _ => []);
    assert Mapped(0, zeros, none) by {
      forall k: nat ensures !TestBit(0, k) {
        ZeroBits(k);
      }
    }
    var p := ClassPos(FL_COUNT - 1, SL_COUNT - 1);
    MappedPush(0, zeros, none, p, BASE);
    assert p.Index() == TLSF_SIZE - 1 && [BASE] + none[p.Index()] == [BASE];
    assert sb == zeros[OCTAVES - 1 := SetBit(0, SL_COUNT - 1)];
  }

  class Tlsf {
    var mem: Memory
    const tlsfArray: array<nat>
    const sBitmap: array<nat>
    var fBitmap: nat
    var initialized: bool
    ghost var blocks: Blocks
    ghost var lists: seq<seq<nat>>

    ghost predicate Shape()
      reads this
    {
      tlsfArray.Length == TLSF_SIZE && sBitmap.Length == OCTAVES && tlsfArray != sBitmap && HeapMemory(mem)
    }

    /** The arrays, the bitmaps and the links in memory represent the lists. */
    ghost predicate IndexOk()
      reads this, tlsfArray, sBitmap
    {
      Shape() && Linked(mem, tlsfArray[..], lists) && Mapped(fBitmap, sBitmap[..], lists)
    }

    ghost predicate Valid()
      reads this, tlsfArray, sBitmap
    {
      IndexOk() && Headers(mem, blocks) && Inv(Arena(blocks, lists))
    }

    ghost function State(): Arena
      reads this
    {
      Arena(blocks, lists)
    }

    /** Statically zeroed bookkeeping over a heap of arbitrary content. */
    constructor (memory: Memory)
      requires HeapMemory(memory)
      ensures Shape() && !initialized && mem == memory
      ensures fresh(tlsfArray) && fresh(sBitmap)
    {
      tlsfArray := new nat[TLSF_SIZE](_ => NULL);
      sBitmap := new nat[OCTAVES](_ => 0);
      mem, fBitmap, initialized := memory, 0, false;
      blocks, lists := map[], [];
    }

    /** heap_init */
    method HeapInit() returns (ok: bool)
      requires Shape()
      modifies this, tlsfArray, sBitmap
      ensures ok <==> !old(initialized)
      ensures ok ==> initialized && Valid() && State() == InitArena()
      ensures !ok ==> unchanged(this) && unchanged(tlsfArray) && unchanged(sBitmap)
    {
      if initialized {
        return false;
      }
      for i := 0 to TLSF_SIZE - 1
        modifies tlsfArray
        invariant forall j :: 0 <= j < i ==> tlsfArray[j] == NULL
      {
        tlsfArray[i] := NULL;
      }
      for i := 0 to OCTAVES
        modifies sBitmap
        invariant forall j :: 0 <= j < TLSF_SIZE - 1 ==> tlsfArray[j] == NULL
        invariant forall j :: 0 <= j < i ==> sBitmap[j] == 0
      {
        sBitmap[i] := 0;
      }
      mem := mem[BASE := Header(NULL, Field24(INITIAL_FREE), true, NULL, NULL)];
      tlsfArray[TLSF_SIZE - 1] := BASE;
      fBitmap := SetBit(0, FL_COUNT - 1);
      sBitmap[FL_COUNT - LIN] := SetBit(0, SL_COUNT - 1);
      initialized := true;
      blocks, lists := InitArena().blocks, InitArena().lists;
      InitInv();
      InitMapped(fBitmap, sBitmap[..]);
      assert LinkOk(mem, [BASE], 0);
      ok := true;
    }

    /** get_free */
    method GetFree(size: nat) returns (b: nat)
      requires IndexOk() && size % 8 == 0
      ensures b == Pick(State(), size)
    {
      if size == 0 {
        return NULL;
      }
      MapUpIsCeiling(size);
      match MapUp(size) {
        case None =>
          return NULL;
        case Some(p) =>
          b := Scan(p);
      }
    }

    /** The outer bitmap loop of get_free, over octaves; only the first one is entered at p.sub. */
    method Scan(p: ClassPos) returns (b: nat)
      requires IndexOk() && p.Valid()
      ensures b == FirstFit(lists, p.Index())
    {
      var fShift := p.leader;
      var fCopy := Shr(fBitmap, fShift);
      var tick := true;
      while fCopy > 0
        invariant LIN - 1 <= fShift <= FL_COUNT && fCopy == Shr(fBitmap, fShift)
        invariant fShift == FL_COUNT ==> !tick
        invariant FirstFit(lists, p.Index())
               == FirstFit(lists, (fShift - (LIN - 1)) * SL_COUNT + if tick then p.sub else 0)
        decreases fCopy
      {
        ScanInside(fBitmap, sBitmap[..], lists, fShift);
        var sShift := if tick then p.sub else 0;
        if fCopy % 2 == 1 {
          var r := ScanOctave(fShift - (LIN - 1), sShift);
          if r != NULL {
            return r;
          }
        } else {
          OctaveEmpty(fBitmap, sBitmap[..], lists, fShift - (LIN - 1), sShift);
        }
        tick := false;
        fCopy := fCopy / 2;
        fShift := fShift + 1;
      }
      OctavesDone(fBitmap, sBitmap[..], lists, fShift - (LIN - 1), if tick then p.sub else 0);
      return NULL;
    }

    /** The inner bitmap loop of get_free, over the classes of octave f from s on. */
    method ScanOctave(f: nat, s: nat) returns (b: nat)
      requires IndexOk() && f < OCTAVES && s < SL_COUNT
      ensures b != NULL ==> FirstFit(lists, f * SL_COUNT + s) == b
      ensures b == NULL ==> FirstFit(lists, f * SL_COUNT + s) == FirstFit(lists, (f + 1) * SL_COUNT)
    {
      WordIsPow2();
      ghost var word := sBitmap[..][f];
      var sShift: nat := s;
      var sCopy := Shr(sBitmap[f], sShift);
      while sCopy > 0
        invariant sShift <= SL_COUNT && sCopy == Shr(word, sShift)
        invariant FirstFit(lists, f * SL_COUNT + s) == FirstFit(lists, f * SL_COUNT + sShift)
        decreases sCopy
      {
        ShrZero(word, sShift, 32);
        assert sCopy % 2 == 1 <==> TestBit(word, sShift);
        if sCopy % 2 == 1 {
          assert lists[f * SL_COUNT + sShift] != [];
          assert LinkOk(mem, lists[f * SL_COUNT + sShift], 0);
          return tlsfArray[f * SL_COUNT + sShift];
        }
        ShrStep(word, sShift);
        sCopy := sCopy / 2;
        sShift := sShift + 1;
      }
      OctaveDone(fBitmap, sBitmap[..], lists, f, sShift);
      return NULL;
    }

    /** File free block b of the given size: set its bits and push it in front of its list. */
    method PushFree(b: nat, size: nat)
      requires IndexOk() && BASE <= b < END && 0 < size < SIZE_LIMIT
      requires forall c :: 0 <= c < TLSF_SIZE ==> b !in lists[c]
      modifies this`mem, this`fBitmap, this`lists, tlsfArray, sBitmap
      ensures IndexOk() && SameTags(old(mem), mem)
      ensures lists == Push(old(lists), Slot(size), b)
    {
      MapDownIsFloor(size);
      var p := MapDown(size);
      var f := p.leader - (LIN - 1);
      MappedPush(fBitmap, sBitmap[..], lists, p, b);
      LinkedPush(mem, tlsfArray[..], lists, p.Index(), b);
      ghost var heads, words := tlsfArray[..], sBitmap[..];
      fBitmap := SetBit(fBitmap, p.leader);
      sBitmap[f] := SetBit(sBitmap[f], p.sub);
      var head := tlsfArray[p.Index()];
      mem := mem[b := mem[b].(prev := NULL, next := head)];
      if head != NULL {
        mem := mem[head := mem[head].(prev := b)];
      }
      tlsfArray[p.Index()] := b;
      lists := Push(lists, p.Index(), b);
      assert tlsfArray[..] == heads[p.Index() := b];
      assert sBitmap[..] == words[f := SetBit(words[f], p.sub)];
    }

    /** Unlink free block b as kFree does for a block it absorbs. */
    method UnlinkAbsorbed(b: nat, size: nat)
      requires IndexOk() && 0 < size < SIZE_LIMIT && b in lists[Slot(size)]
      modifies this`mem, this`fBitmap, this`lists, tlsfArray, sBitmap
      ensures IndexOk() && SameTags(old(mem), mem)
      ensures lists == Remove(old(lists), Slot(size), b)
    {
      MapDownIsFloor(size);
      var p := MapDown(size);
      var f, c := p.leader - (LIN - 1), p.Index();
      RemovalPlan(fBitmap, sBitmap[..], mem, tlsfArray[..], lists, p, b);
      ghost var heads, words := tlsfArray[..], sBitmap[..];
      var prev, next := mem[b].prev, mem[b].next;
      if prev == NULL && next == NULL {
        tlsfArray[c] := NULL;
        sBitmap[f] := ClearBit(sBitmap[f], p.sub);
        if sBitmap[f] == 0 {
          fBitmap := ClearBit(fBitmap, p.leader);
        }
        assert sBitmap[..] == words[f := ClearBit(words[f], p.sub)];
      } else {
        if prev != NULL {
          mem := mem[prev := mem[prev].(next := next)];
        } else {
          tlsfArray[c] := next;
        }
        if next != NULL {
          mem := mem[next := mem[next].(prev := prev)];
        }
        assert sBitmap[..] == words;
      }
      lists := Remove(lists, c, b);
      assert tlsfArray[..] == if prev == NULL then heads[c := next] else heads;
    }

    /** Unlink free block b as kMalloc does for the block it hands out. */
    method UnlinkChosen(b: nat, size: nat)
      requires IndexOk() && 0 < size < SIZE_LIMIT && b in lists[Slot(size)]
      modifies this`mem, this`fBitmap, this`lists, tlsfArray, sBitmap
      ensures IndexOk() && SameTags(old(mem), mem)
      ensures lists == Remove(old(lists), Slot(size), b)
    {
      MapDownIsFloor(size);
      var p := MapDown(size);
      var f, c := p.leader - (LIN - 1), p.Index();
      RemovalPlan(fBitmap, sBitmap[..], mem, tlsfArray[..], lists, p, b);
      ghost var heads, words := tlsfArray[..], sBitmap[..];
      var prev, next := mem[b].prev, mem[b].next;
      if prev != NULL {
        mem := mem[prev := mem[prev].(next := next)];
      } else {
        tlsfArray[c] := next;
      }
      if next != NULL {
        mem := mem[next := mem[next].(prev := prev)];
      }
      assert tlsfArray[..] == if prev == NULL then heads[c := next] else heads;
      if tlsfArray[c] == NULL {
        sBitmap[f] := ClearBit(sBitmap[f], p.sub);
        if sBitmap[f] == 0 {
          fBitmap := ClearBit(fBitmap, p.leader);
        }
        assert sBitmap[..] == words[f := ClearBit(words[f], p.sub)];
      } else {
        assert sBitmap[..] == words;
      }
      lists := Remove(lists, c, b);
    }

    /** The header writes of the split inside kMalloc: the remainder gets a header, the block after it
        a new boundary tag. */
    method WriteSplit(b: nat, size: nat)
      requires Valid() && b in blocks && size >= MIN_PAYLOAD && size % 8 == 0
      requires blocks[b].size >= size + HEADER + MIN_PAYLOAD
      modifies this`mem
      ensures IndexOk() && b + HEADER + size in Split(blocks, b, size)
      ensures Headers(mem, SetFree(Split(blocks, b, size), b + HEADER + size, true))
    {
      hide Mapped, Indexed, Split, SetFree, Linked, Slot, Coalesced, Tiled, Headers;
      SizeInRange(blocks, b);
      SplitInMemory(mem, blocks, b, size);
      var newSize := mem[b].size - size - HEADER;
      var n := b + HEADER + size;
      mem := mem[n := mem[n].(size := Field24(newSize), free := true, prevPhys := b)];
      var after := n + newSize + HEADER;
      if after < END {
        mem := mem[after := mem[after].(prevPhys := n)];
      }
      mem := mem[b := mem[b].(size := Field24(size))];
      LinkedSameLinks(old(mem), mem, tlsfArray[..], lists);
      HeadersSplit(old(mem), mem, blocks, b, size);
    }

    /** The split inside kMalloc: cut the block and file the remainder. */
    method SplitOff(b: nat, size: nat)
      requires Valid() && b in blocks && size >= MIN_PAYLOAD && size % 8 == 0
      requires blocks[b].size >= size + HEADER + MIN_PAYLOAD
      modifies this`mem, this`fBitmap, this`lists, this`blocks, tlsfArray, sBitmap
      ensures IndexOk() && Headers(mem, blocks)
      ensures State() == SplitFree(old(State()), b, size)
    {
      hide Linked, Mapped, Indexed, Headers, Split, SetFree, Slot, Push, Tiled, Coalesced, SameTags;
      SizeInRange(blocks, b);
      SplitSetFree(blocks, b, size);
      SizeInHeader(mem, blocks, b);
      var newSize := mem[b].size - size - HEADER;
      WriteSplit(b, size);
      Unlisted(blocks, lists, b + HEADER + size);
      label written:
      PushFree(b + HEADER + size, newSize);
      blocks := SetFree(Split(blocks, b, size), b + HEADER + size, true);
      HeadersSameTags(old@written(mem), mem, blocks);
    }

    method MarkTaken(b: nat)
      requires IndexOk() && Headers(mem, blocks) && b in blocks
      modifies this`mem, this`blocks
      ensures IndexOk() && Headers(mem, blocks)
      ensures blocks == SetFree(old(blocks), b, false)
    {
      HeadersSetFree(mem, blocks, b, false);
      mem := mem[b := mem[b].(free := false)];
      blocks := SetFree(blocks, b, false);
      LinkedSameLinks(old(mem), mem, tlsfArray[..], lists);
    }

    /** The rest of kMalloc once a block was found. */
    method HandOut(b: nat, size: nat)
      requires Valid() && b in blocks && blocks[b].free
      requires size >= MIN_PAYLOAD && size % 8 == 0 && blocks[b].size >= size
      modifies this`mem, this`fBitmap, this`lists, this`blocks, tlsfArray, sBitmap
      ensures Valid() && State() == Carve(old(State()), b, size)
    {
      ghost var a := State();
      SizeInRange(blocks, b);
      assert HeaderOk(mem, blocks, b);
      assert FiledUnder(blocks, b, Slot(blocks[b].size));
      var origSize := mem[b].size;
      if origSize >= size + HEADER + MIN_PAYLOAD {
        CarveBySplit(a, b, size);
        SplitOff(b, size);
      }
      assert b in lists[Slot(origSize)];
      MarkTaken(b);
      label taken:
      UnlinkChosen(b, origSize);
      HeadersSameTags(old@taken(mem), mem, blocks);
      assert State() == Carve(a, b, size);
    }

    /** kMalloc */
    method KMalloc(request: nat) returns (payload: nat)
      requires Valid() && request < WORD
      modifies this`mem, this`fBitmap, this`lists, this`blocks, tlsfArray, sBitmap
      ensures Valid() && (State(), payload) == Malloc(old(State()), request)
    {
      hide Linked, Mapped, Indexed, Headers, Tiled, Coalesced, Slot, Carve, Pick;
      var size := AlignUp(request);
      var b := GetFree(size);
      if b == NULL {
        return NULL;
      }
      PickFits(State(), size);
      HandOut(b, size);
      payload := b + HEADER;
    }

    /** The first loop of kFree: absorb free physical predecessors. */
    method AbsorbBefore(b: nat) returns (curr: nat, newSize: nat)
      requires Valid() && b in blocks && !blocks[b].free
      modifies this`mem, this`fBitmap, this`lists, tlsfArray, sBitmap
      ensures IndexOk() && Headers(mem, blocks)
      ensures var (u, start) := AbsorbPrev(old(State()), b);
              curr == start && newSize == u.blocks[start].size && lists == u.lists
    {
      ghost var a, merged := State(), false;
      AbsorbPrevIs(a, b);
      assert HeaderOk(mem, blocks, b);
      curr, newSize := b, mem[b].size;
      var prevPhys := mem[b].prevPhys;
      assert prevPhys != NULL ==> HeaderOk(mem, blocks, prevPhys);
      while prevPhys != NULL && mem[prevPhys].free
        invariant IndexOk() && Headers(mem, blocks)
        invariant prevPhys != NULL ==> prevPhys in blocks && HeaderOk(mem, blocks, prevPhys)
        invariant !merged ==> curr == b && newSize == a.blocks[b].size && lists == a.lists && prevPhys == a.blocks[b].prev
        invariant merged ==> var (u, start) := AbsorbPrev(a, b);
                             && curr == start && newSize == u.blocks[start].size && lists == u.lists
                             && (prevPhys in blocks ==> !blocks[prevPhys].free)
        decreases !merged
      {
        assert HeaderOk(mem, blocks, prevPhys);
        var prevSize := mem[prevPhys].size;
        newSize := newSize + prevSize + HEADER;
        label linked:
        UnlinkAbsorbed(prevPhys, prevSize);
        HeadersSameTags(old@linked(mem), mem, blocks);
        assert HeaderOk(mem, blocks, prevPhys);
        curr := prevPhys;
        prevPhys := mem[curr].prevPhys;
        merged := true;
        assert prevPhys != NULL ==> HeaderOk(mem, blocks, prevPhys);
      }
    }

    /** The second loop of kFree: absorb free physical successors of the block merged so far. */
    method AbsorbAfter(nextPhys0: nat, size0: nat, ghost u: Arena, ghost start: nat) returns (newSize: nat)
      requires IndexOk() && Headers(mem, blocks) && lists == u.lists
      requires Inv(u) && start in u.blocks && !u.blocks[start].free
      requires nextPhys0 == Next(u.blocks, start) && size0 == u.blocks[start].size
      requires forall x :: x in u.blocks && x >= nextPhys0 ==>
        x in blocks && u.blocks[x].size == blocks[x].size && u.blocks[x].free == blocks[x].free
      modifies this`mem, this`fBitmap, this`lists, tlsfArray, sBitmap
      ensures IndexOk() && Headers(mem, blocks)
      ensures var t := AbsorbNext(u, start); newSize == t.blocks[start].size && lists == t.lists
    {
      ghost var merged := false;
      AbsorbNextIs(u, start);
      newSize := size0;
      var nextPhys := nextPhys0;
      assert nextPhys < END ==> HeaderOk(mem, blocks, nextPhys);
      while nextPhys < END && mem[nextPhys].free
        invariant IndexOk() && Headers(mem, blocks)
        invariant nextPhys < END ==> nextPhys in u.blocks && nextPhys in blocks && HeaderOk(mem, blocks, nextPhys)
        invariant nextPhys >= nextPhys0
        invariant !merged ==> newSize == size0 && lists == u.lists && nextPhys == nextPhys0
        invariant merged ==> var t := AbsorbNext(u, start);
                             && newSize == t.blocks[start].size && lists == t.lists
                             && (nextPhys < END ==> !blocks[nextPhys].free)
        decreases !merged
      {
        var nextSize := mem[nextPhys].size;
        newSize := newSize + nextSize + HEADER;
        label linked:
        UnlinkAbsorbed(nextPhys, nextSize);
        HeadersSameTags(old@linked(mem), mem, blocks);
        nextPhys := nextPhys + nextSize + HEADER;
        assert nextPhys < END ==> HeaderOk(mem, blocks, nextPhys);
        merged := true;
      }
    }

    /** The header writes at the end of kFree: the merged block, and the boundary tag after it. */
    method WriteMerged(curr: nat, newSize: nat, ghost a: Arena, ghost b: nat)
      requires IndexOk() && Headers(mem, a.blocks) && Inv(a) && b in a.blocks && !a.blocks[b].free
      requires var (t, start) := Merged(a, b); curr == start && newSize == t.blocks[start].size
      modifies this`mem
      ensures IndexOk() && Headers(mem, SetFree(Merged(a, b).0.blocks, Merged(a, b).1, true))
    {
      ghost var (t, start) := Merged(a, b);
      assert BlockOk(t.blocks, curr);
      mem := mem[curr := mem[curr].(size := Field24(newSize), free := true)];
      var after := curr + newSize + HEADER;
      if after < END {
        mem := mem[after := mem[after].(prevPhys := curr)];
      }
      MergedAt(a, b, curr);
      HeadersReleased(old(mem), a, b, mem);
      LinkedSameLinks(old(mem), mem, tlsfArray[..], lists);
    }

    /** Coalescing inside kFree: both loops; the merged block is still taken. */
    method Coalesce(b: nat) returns (curr: nat, newSize: nat)
      requires Valid() && b in blocks && !blocks[b].free
      modifies this`mem, this`fBitmap, this`lists, tlsfArray, sBitmap
      ensures IndexOk() && Headers(mem, blocks)
      ensures var (t, start) := Merged(old(State()), b);
              curr == start && newSize == t.blocks[start].size && lists == t.lists
    {
      ghost var a := State();
      ghost var (u, start) := AbsorbPrev(a, b);
      assert HeaderOk(mem, blocks, b);
      var initSize := mem[b].size;
      curr, newSize := AbsorbBefore(b);
      AbsorbPrevAt(a, b, start);
      assert BlockOk(u.blocks, start);
      forall x | x in u.blocks && x >= b + HEADER + initSize
        ensures x in blocks && u.blocks[x].size == blocks[x].size && u.blocks[x].free == blocks[x].free {
        AbsorbPrevAt(a, b, x);
      }
      newSize := AbsorbAfter(b + HEADER + initSize, newSize, u, start);
    }

    /** kFree */
    method KFree(target: nat) returns (ok: bool)
      requires Valid()
      requires target != NULL ==> target >= HEADER && target - HEADER in blocks
      modifies this`mem, this`fBitmap, this`lists, this`blocks, tlsfArray, sBitmap
      ensures Valid() && (State(), ok) == Free(old(State()), target)
    {
      if target == NULL {
        return false;
      }
      var b := target - HEADER;
      assert HeaderOk(mem, blocks, b);
      if mem[b].free {
        return false;
      }
      ghost var a := State();
      ghost var (t, start) := Merged(a, b);
      var curr, newSize := Coalesce(b);
      WriteMerged(curr, newSize, a, b);
      SizeInRange(t.blocks, curr);
      assert BlockOk(t.blocks, curr);
      Unlisted(t.blocks, t.lists, curr);
      label written:
      PushFree(curr, newSize);
      blocks := SetFree(t.blocks, start, true);
      HeadersSameTags(old@written(mem), mem, blocks);
      assert State() == Release(a, b);
      ok := true;
    }
  }
}
