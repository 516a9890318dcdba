/** Abstract state of the allocator and its operations: the physical tiling of the heap by blocks,
    and the segregated free lists that index the free ones. */
module Arena {
  import opened SizeClass

  const NULL := 0
  const BASE := 0x20_0000
  const END := BASE + SIZE_LIMIT
  const HEADER := 8

  /** What a block header says while the block is part of the tiling. */
  datatype Blk = Blk(size: nat, free: bool, prev: nat)
  type Blocks = map<nat, Blk>
  datatype Arena = Arena(blocks: Blocks, lists: seq<seq<nat>>)

  /** Where block b ends and its physical successor starts. */
  function Next(bs: Blocks, b: nat): nat
    requires b in bs
  {
    b + HEADER + bs[b].size
  }

  /** Block b lies inside the heap, 8-aligned, with an 8-aligned payload of at least 8 bytes; its successor,
      if any, starts where b ends and names b in its boundary tag; its own boundary tag names the block
      that ends where b starts, and NULL for the first block only. */
  ghost predicate BlockOk(bs: Blocks, b: nat)
    requires b in bs
  {
    && BASE <= b && b % 8 == 0 && bs[b].size % 8 == 0 && bs[b].size >= MIN_PAYLOAD
    && Next(bs, b) <= END
    && (Next(bs, b) != END ==> Next(bs, b) in bs && bs[Next(bs, b)].prev == b)
    && if b == BASE then bs[b].prev == NULL else bs[b].prev in bs && Next(bs, bs[b].prev) == b
  }

  ghost predicate NoOverlap(bs: Blocks, b: nat, c: nat)
    requires b in bs && c in bs
  {
    b < c ==> Next(bs, b) <= c
  }

  ghost predicate Tiled(bs: Blocks) {
    && BASE in bs
    && (forall b {:trigger BlockOk(bs, b)} :: b in bs ==> BlockOk(bs, b))
    && (forall b, c {:trigger NoOverlap(bs, b, c)} :: b in bs && c in bs ==> NoOverlap(bs, b, c))
  }

  /** Block b and its successor are not both free. */
  ghost predicate NotMergeable(bs: Blocks, b: nat)
    requires b in bs
  {
    bs[b].free && Next(bs, b) in bs ==> !bs[Next(bs, b)].free
  }

  ghost predicate Coalesced(bs: Blocks) {
    forall b {:trigger NotMergeable(bs, b)} :: b in bs ==> NotMergeable(bs, b)
  }

  /** The slot of tlsf_array a free block of this size is filed under. */
  function Slot(size: nat): (c: nat)
    requires 0 < size < SIZE_LIMIT
    ensures c < TLSF_SIZE
  {
    MapDownIsFloor(size);
    MapDown(size).Index()
  }

  ghost predicate NoDup<T>(l: seq<T>) {
    forall i, j :: 0 <= i < j < |l| ==> l[i] != l[j]
  }

  ghost predicate FiledUnder(bs: Blocks, x: nat, c: nat) {
    x in bs && bs[x].free && 0 < bs[x].size < SIZE_LIMIT && Slot(bs[x].size) == c
  }

  /** The index is exact: a list holds, once each, exactly the free blocks of its class. */
  ghost predicate Indexed(bs: Blocks, lists: seq<seq<nat>>) {
    && |lists| == TLSF_SIZE
    && (forall c, x :: 0 <= c < TLSF_SIZE ==> (x in lists[c] <==> FiledUnder(bs, x, c)))
    && (forall c :: 0 <= c < TLSF_SIZE ==> NoDup(lists[c]))
  }

  ghost predicate Inv(a: Arena) {
    Tiled(a.blocks) && Coalesced(a.blocks) && Indexed(a.blocks, a.lists)
  }

  // ---------------------------------------------------------------- physical steps

  function SetFree(bs: Blocks, b: nat, free: bool): Blocks
    requires b in bs
  {
    bs[b := bs[b].(free := free)]
  }

  /** Store p in the boundary tag of the block at x, if there is one. */
  function Retag(bs: Blocks, x: nat, p: nat): Blocks {
    if x in bs then bs[x := bs[x].(prev := p)] else bs
  }

  /** Cut block b after s payload bytes; the remainder becomes a block of its own. */
  function Split(bs: Blocks, b: nat, s: nat): Blocks
    requires b in bs && bs[b].size >= s + HEADER + MIN_PAYLOAD
  {
    var n := b + HEADER + s;
    Retag(bs[b := bs[b].(size := s)][n := Blk(bs[b].size - s - HEADER, false, b)], Next(bs, b), n)
  }

  /** Absorb the block after b into b. */
  function Merge(bs: Blocks, b: nat): Blocks
    requires b in bs && Next(bs, b) in bs
  {
    var n := Next(bs, b);
    Retag(bs[b := bs[b].(size := bs[b].size + HEADER + bs[n].size)] - {n}, Next(bs, n), b)
  }

  lemma SetFreeTiled(bs: Blocks, b: nat, free: bool)
    requires Tiled(bs) && b in bs
    ensures Tiled(SetFree(bs, b, free))
  {
    var t := SetFree(bs, b, free);
    forall x | x in t ensures BlockOk(t, x) {
      assert BlockOk(bs, x);
    }
    forall x, y | x in t && y in t ensures NoOverlap(t, x, y) {
      assert NoOverlap(bs, x, y);
    }
  }

  /** What Split leaves in the map. */
  lemma SplitAt(bs: Blocks, b: nat, s: nat, x: nat)
    requires Tiled(bs) && b in bs && s >= MIN_PAYLOAD && s % 8 == 0
    requires bs[b].size >= s + HEADER + MIN_PAYLOAD
    ensures b + HEADER + s !in bs
    ensures var t, n := Split(bs, b, s), b + HEADER + s;
            && (x in t <==> x == n || x in bs)
            && (x == n ==> t[x] == Blk(bs[b].size - s - HEADER, false, b))
            && (x == b ==> t[x] == bs[b].(size := s))
            && (x in bs && x != b ==> t[x] == if x == Next(bs, b) then bs[x].(prev := n) else bs[x])
  {
    assert BlockOk(bs, b);
    assert b + HEADER + s in bs ==> NoOverlap(bs, b, b + HEADER + s);
  }

  lemma SplitNoOverlap(bs: Blocks, b: nat, s: nat, x: nat, y: nat)
    requires Tiled(bs) && b in bs && s >= MIN_PAYLOAD && s % 8 == 0
    requires bs[b].size >= s + HEADER + MIN_PAYLOAD
    requires x in Split(bs, b, s) && y in Split(bs, b, s)
    ensures NoOverlap(Split(bs, b, s), x, y)
  {
    var n := b + HEADER + s;
    SplitAt(bs, b, s, x);
    SplitAt(bs, b, s, y);
    assert BlockOk(bs, b);
    assert NoOverlap(bs, if x == n then b else x, if y == n then b else y);
    assert x != n ==> NoOverlap(bs, b, x);
  }

  lemma SplitBlockOk(bs: Blocks, b: nat, s: nat, x: nat)
    requires Tiled(bs) && b in bs && s >= MIN_PAYLOAD && s % 8 == 0
    requires bs[b].size >= s + HEADER + MIN_PAYLOAD
    requires x in Split(bs, b, s)
    ensures BlockOk(Split(bs, b, s), x)
  {
    var n := b + HEADER + s;
    SplitAt(bs, b, s, x);
    SplitAt(bs, b, s, b);
    SplitAt(bs, b, s, n);
    SplitAt(bs, b, s, Next(bs, b));
    assert BlockOk(bs, b);
    if x != n && x != b {
      assert BlockOk(bs, x);
      SplitAt(bs, b, s, Next(bs, x));
      if x != BASE {
        SplitAt(bs, b, s, bs[x].prev);
      }
    } else {
      SplitAt(bs, b, s, bs[b].prev);
    }
  }

  lemma SplitTiled(bs: Blocks, b: nat, s: nat)
    requires Tiled(bs) && b in bs && s >= MIN_PAYLOAD && s % 8 == 0
    requires bs[b].size >= s + HEADER + MIN_PAYLOAD
    ensures b + HEADER + s !in bs
    ensures Tiled(Split(bs, b, s))
  {
    var t := Split(bs, b, s);
    SplitAt(bs, b, s, BASE);
    forall x | x in t ensures BlockOk(t, x) {
      SplitBlockOk(bs, b, s, x);
    }
    forall x, y | x in t && y in t ensures NoOverlap(t, x, y) {
      SplitNoOverlap(bs, b, s, x, y);
    }
  }

  /** What Merge leaves in the map. */
  lemma MergeAt(bs: Blocks, b: nat, x: nat)
    requires Tiled(bs) && b in bs && Next(bs, b) in bs
    ensures var t, n := Merge(bs, b), Next(bs, b);
            && (x in t <==> x != n && x in bs)
            && (x == b ==> t[x] == bs[b].(size := bs[b].size + HEADER + bs[n].size))
            && (x in t && x != b ==> t[x] == if x == Next(bs, n) then bs[x].(prev := b) else bs[x])
  {
    assert BlockOk(bs, b) && BlockOk(bs, Next(bs, b));
  }

  lemma TiledAt(bs: Blocks, b: nat)
    requires Tiled(bs) && b in bs
    ensures BlockOk(bs, b)
  {
  }

  lemma MergeBlockOk(bs: Blocks, b: nat, x: nat)
    requires Tiled(bs) && b in bs && Next(bs, b) in bs
    requires x in Merge(bs, b)
    ensures BlockOk(Merge(bs, b), x)
  {
    hide Merge, Tiled;
    var n := Next(bs, b);
    MergeAt(bs, b, x);
    MergeAt(bs, b, b);
    MergeAt(bs, b, Next(bs, n));
    MergeAt(bs, b, bs[x].prev);
    TiledAt(bs, b);
    TiledAt(bs, n);
    TiledAt(bs, x);
    MergeAt(bs, b, Next(bs, x));
    if Next(bs, n) in bs {
      TiledAt(bs, Next(bs, n));
    }
  }

  lemma MergeTiled(bs: Blocks, b: nat)
    requires Tiled(bs) && b in bs && Next(bs, b) in bs
    ensures Tiled(Merge(bs, b))
  {
    var t, n := Merge(bs, b), Next(bs, b);
    assert BlockOk(bs, n) && BlockOk(bs, b);
    MergeAt(bs, b, BASE);
    forall x | x in t ensures BlockOk(t, x) {
      MergeBlockOk(bs, b, x);
    }
    forall x, y | x in t && y in t ensures NoOverlap(t, x, y) {
      MergeAt(bs, b, x);
      MergeAt(bs, b, y);
      assert NoOverlap(bs, x, y) && NoOverlap(bs, if x == b then n else x, y);
    }
  }

  /** Merging undoes splitting. */
  lemma MergeSplit(bs: Blocks, b: nat, s: nat)
    requires Tiled(bs) && b in bs && s >= MIN_PAYLOAD && s % 8 == 0
    requires bs[b].size >= s + HEADER + MIN_PAYLOAD
    ensures var t := Split(bs, b, s);
            && Next(t, b) == b + HEADER + s
            && Next(t, b) in t && t[Next(t, b)] == Blk(bs[b].size - s - HEADER, false, b)
            && Merge(t, b) == bs
  {
    var t := Split(bs, b, s);
    SplitTiled(bs, b, s);
    SplitAt(bs, b, s, b);
    SplitAt(bs, b, s, b + HEADER + s);
    SplitAt(bs, b, s, Next(bs, b));
    assert BlockOk(bs, b);
    if Next(bs, b) in bs {
      assert BlockOk(bs, Next(bs, b));
    }
    forall x ensures x in Merge(t, b) <==> x in bs
             ensures x in bs ==> Merge(t, b)[x] == bs[x] {
      SplitAt(bs, b, s, x);
      MergeAt(t, b, x);
    }
  }
}
