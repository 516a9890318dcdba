/** The allocator's operations on the abstract state, and the laws they obey. */
module Allocator {
  import opened Words
  import opened SizeClass
  import opened Arena

  // ---------------------------------------------------------------- free lists

  function Without(l: seq<nat>, x: nat): seq<nat> {
    if l == [] then [] else if l[0] == x then l[1..] else [l[0]] + Without(l[1..], x)
  }

  function Remove(lists: seq<seq<nat>>, c: nat, x: nat): seq<seq<nat>>
    requires c < |lists|
  {
    lists[c := Without(lists[c], x)]
  }

  function Push(lists: seq<seq<nat>>, c: nat, x: nat): seq<seq<nat>>
    requires c < |lists|
  {
    lists[c := [x] + lists[c]]
  }

  /** The block a request is served from: the first entry of the first non-empty list at slot c or above. */
  function FirstFit(lists: seq<seq<nat>>, c: nat): nat
    decreases |lists| - c
  {
    if c >= |lists| then NULL else if lists[c] != [] then lists[c][0] else FirstFit(lists, c + 1)
  }

  lemma {:induction false} WithoutSpec(l: seq<nat>, x: nat)
    requires NoDup(l)
    ensures NoDup(Without(l, x))
    ensures forall y :: y in Without(l, x) <==> y in l && y != x
  {
    if l != [] {
      assert l == [l[0]] + l[1..];
      WithoutSpec(l[1..], x);
      assert l[0] !in l[1..];
      forall y ensures y in Without(l, x) <==> y in l && y != x {
        assert y in l <==> y == l[0] || y in l[1..];
      }
    }
  }

  lemma {:induction false} WithoutAt(l: seq<nat>, k: nat)
    requires NoDup(l) && k < |l|
    ensures Without(l, l[k]) == l[..k] + l[k + 1..]
  {
    if k > 0 {
      assert l[1..][k - 1] == l[k];
      WithoutAt(l[1..], k - 1);
      assert l[..k] == [l[0]] + l[1..][..k - 1];
      assert l[1..][k..] == l[k + 1..];
    }
  }

  // ---------------------------------------------------------------- steps on blocks and index

  /** Unlink free block b and mark it taken. */
  function TakeOut(a: Arena, b: nat): Arena
    requires b in a.blocks && 0 < a.blocks[b].size < SIZE_LIMIT && |a.lists| == TLSF_SIZE
  {
    Arena(SetFree(a.blocks, b, false), Remove(a.lists, Slot(a.blocks[b].size), b))
  }

  /** Mark block b free and push it on the list of its class. */
  function PutIn(a: Arena, b: nat): Arena
    requires b in a.blocks && 0 < a.blocks[b].size < SIZE_LIMIT && |a.lists| == TLSF_SIZE
  {
    Arena(SetFree(a.blocks, b, true), Push(a.lists, Slot(a.blocks[b].size), b))
  }

  /** Merge block b with the block after it. */
  function Fuse(a: Arena, b: nat): Arena
    requires b in a.blocks && Next(a.blocks, b) in a.blocks
  {
    Arena(Merge(a.blocks, b), a.lists)
  }

  /** Cut block b after s payload bytes. */
  function Cut(a: Arena, b: nat, s: nat): Arena
    requires b in a.blocks && a.blocks[b].size >= s + HEADER + MIN_PAYLOAD
  {
    Arena(Split(a.blocks, b, s), a.lists)
  }

  ghost predicate SameFiling(bs: Blocks, t: Blocks, x: nat) {
    && (x in bs && bs[x].free <==> x in t && t[x].free)
    && (x in bs && x in t && bs[x].free ==> t[x].size == bs[x].size)
  }

  lemma SizeInRange(bs: Blocks, b: nat)
    requires Tiled(bs) && b in bs
    ensures 0 < bs[b].size < SIZE_LIMIT
  {
    assert BlockOk(bs, b);
  }

  /** The index only depends on which blocks are free and on their sizes. */
  lemma IndexedSame(bs: Blocks, t: Blocks, lists: seq<seq<nat>>)
    requires Indexed(bs, lists)
    requires forall x :: SameFiling(bs, t, x)
    ensures Indexed(t, lists)
  {
    forall c, x | 0 <= c < TLSF_SIZE ensures x in lists[c] <==> FiledUnder(t, x, c) {
      assert SameFiling(bs, t, x);
    }
  }

  lemma IndexedRemove(bs: Blocks, t: Blocks, lists: seq<seq<nat>>, b: nat)
    requires Indexed(bs, lists) && b in bs && bs[b].free && 0 < bs[b].size < SIZE_LIMIT
    requires forall x :: x != b ==> SameFiling(bs, t, x)
    requires b in t ==> !t[b].free
    ensures Indexed(t, Remove(lists, Slot(bs[b].size), b))
  {
    var k := Slot(bs[b].size);
    var ls := Remove(lists, k, b);
    WithoutSpec(lists[k], b);
    forall c, x | 0 <= c < TLSF_SIZE ensures x in ls[c] <==> FiledUnder(t, x, c) {
      assert x != b ==> SameFiling(bs, t, x);
      assert x in lists[c] <==> FiledUnder(bs, x, c);
    }
  }

  lemma IndexedPush(bs: Blocks, t: Blocks, lists: seq<seq<nat>>, b: nat)
    requires Indexed(bs, lists) && b in t && t[b].free && 0 < t[b].size < SIZE_LIMIT
    requires forall x :: x != b ==> SameFiling(bs, t, x)
    requires b in bs ==> !bs[b].free
    ensures Indexed(t, Push(lists, Slot(t[b].size), b))
  {
    var k := Slot(t[b].size);
    var ls := Push(lists, k, b);
    assert !FiledUnder(bs, b, k);
    forall c, x | 0 <= c < TLSF_SIZE ensures x in ls[c] <==> FiledUnder(t, x, c) {
      assert x != b ==> SameFiling(bs, t, x);
      assert x in lists[c] <==> FiledUnder(bs, x, c);
    }
    assert NoDup(ls[k]);
  }

  lemma TakeOutInv(a: Arena, b: nat)
    requires Inv(a) && b in a.blocks && a.blocks[b].free
    ensures 0 < a.blocks[b].size < SIZE_LIMIT && Inv(TakeOut(a, b))
  {
    SizeInRange(a.blocks, b);
    var t := SetFree(a.blocks, b, false);
    SetFreeTiled(a.blocks, b, false);
    forall x | x in t ensures NotMergeable(t, x) {
      assert NotMergeable(a.blocks, x);
    }
    IndexedRemove(a.blocks, t, a.lists, b);
  }

  lemma PutInInv(a: Arena, b: nat)
    requires Inv(a) && b in a.blocks && !a.blocks[b].free
    requires Next(a.blocks, b) in a.blocks ==> !a.blocks[Next(a.blocks, b)].free
    requires a.blocks[b].prev in a.blocks ==> !a.blocks[a.blocks[b].prev].free
    ensures 0 < a.blocks[b].size < SIZE_LIMIT && Inv(PutIn(a, b))
  {
    SizeInRange(a.blocks, b);
    var t := SetFree(a.blocks, b, true);
    SetFreeTiled(a.blocks, b, true);
    forall x | x in t ensures NotMergeable(t, x) {
      assert NotMergeable(a.blocks, x);
      assert BlockOk(a.blocks, x) && BlockOk(a.blocks, b);
    }
    IndexedPush(a.blocks, t, a.lists, b);
  }

  /** Merge taken block b with the taken block after it. */
  lemma FuseInv(a: Arena, b: nat)
    requires Inv(a) && b in a.blocks && !a.blocks[b].free
    requires Next(a.blocks, b) in a.blocks && !a.blocks[Next(a.blocks, b)].free
    ensures Inv(Fuse(a, b))
  {
    var bs, t := a.blocks, Merge(a.blocks, b);
    MergeTiled(bs, b);
    forall x | x in t ensures NotMergeable(t, x) {
      MergeAt(bs, b, x);
      if x != b {
        assert NotMergeable(bs, x);
        MergeAt(bs, b, Next(bs, x));
      } else {
        MergeAt(bs, b, b);
      }
    }
    forall x ensures SameFiling(bs, t, x) {
      MergeAt(bs, b, x);
    }
    IndexedSame(bs, t, a.lists);
  }

  lemma CutInv(a: Arena, b: nat, s: nat)
    requires Inv(a) && b in a.blocks && !a.blocks[b].free && s >= MIN_PAYLOAD && s % 8 == 0
    requires a.blocks[b].size >= s + HEADER + MIN_PAYLOAD
    ensures Inv(Cut(a, b, s))
  {
    var bs, t := a.blocks, Split(a.blocks, b, s);
    SplitTiled(bs, b, s);
    forall x | x in t ensures NotMergeable(t, x) {
      SplitAt(bs, b, s, x);
      if x in bs && x != b {
        assert NotMergeable(bs, x);
        SplitAt(bs, b, s, Next(bs, x));
      }
    }
    forall x ensures SameFiling(bs, t, x) {
      SplitAt(bs, b, s, x);
    }
    IndexedSame(bs, t, a.lists);
  }

  // ---------------------------------------------------------------- the operations

  /** ALIGN8 on a 32-bit size_t, wrap-around included. */
  function AlignUp(size: nat): (s: nat)
    ensures s % 8 == 0 && s < WORD
  {
    var t := (size + 7) % WORD;
    t - t % 8
  }

  /** get_free: the block a request of s bytes is served from, or NULL. */
  function Pick(a: Arena, s: nat): nat
    requires s % 8 == 0
  {
    if s == 0 then NULL else
      MapUpIsCeiling(s);
      match MapUp(s)
      case None => NULL
      case Some(p) => FirstFit(a.lists, p.Index())
  }

  /** Turn free block b into a taken block of s bytes, returning a large enough remainder to the index. */
  function Carve(a: Arena, b: nat, s: nat): (r: Arena)
    requires Inv(a) && b in a.blocks && a.blocks[b].free
    requires s >= MIN_PAYLOAD && s % 8 == 0 && a.blocks[b].size >= s
    ensures Inv(r)
  {
    TakeOutInv(a, b);
    var t := TakeOut(a, b);
    if a.blocks[b].size >= s + HEADER + MIN_PAYLOAD then
      CarveRemainder(a, b, s);
      PutIn(Cut(t, b, s), b + HEADER + s)
    else t
  }

  lemma LoneFree(bs: Blocks, b: nat)
    requires Coalesced(bs) && b in bs
    ensures NotMergeable(bs, b)
  {
  }

  /** The remainder of a carved block can be indexed: neither neighbour is free. */
  lemma CarveRemainder(a: Arena, b: nat, s: nat)
    requires Inv(a) && b in a.blocks && a.blocks[b].free && 0 < a.blocks[b].size < SIZE_LIMIT
    requires s >= MIN_PAYLOAD && s % 8 == 0
    requires a.blocks[b].size >= s + HEADER + MIN_PAYLOAD
    requires Inv(TakeOut(a, b))
    ensures var u, n := Cut(TakeOut(a, b), b, s), b + HEADER + s;
            && n !in a.blocks && n in u.blocks && u.blocks[n] == Blk(a.blocks[b].size - s - HEADER, false, b)
            && Inv(u) && 0 < u.blocks[n].size < SIZE_LIMIT && Inv(PutIn(u, n))
  {
    assert |a.lists| == TLSF_SIZE;
    hide Indexed, Coalesced, Tiled;
    TiledAt(a.blocks, b);
    var t, n, m := TakeOut(a, b), b + HEADER + s, Next(a.blocks, b);
    CutInv(t, b, s);
    SplitAt(t.blocks, b, s, n);
    SplitAt(t.blocks, b, s, b);
    SplitAt(t.blocks, b, s, m);
    LoneFree(a.blocks, b);
    PutInInv(Cut(t, b, s), n);
  }

  /** kMalloc: the new state and the payload address, NULL on failure. */
  function Malloc(a: Arena, size: nat): (r: (Arena, nat))
    requires Inv(a)
  {
    var s := AlignUp(size);
    var b := Pick(a, s);
    if b == NULL then (a, NULL)
    else
      PickFits(a, s);
      (Carve(a, b, s), b + HEADER)
  }

  lemma {:induction false} FirstFitSpec(a: Arena, c: nat)
    requires Inv(a) && c <= TLSF_SIZE
    ensures FirstFit(a.lists, c) == NULL <==> forall d :: c <= d < TLSF_SIZE ==> a.lists[d] == []
    ensures FirstFit(a.lists, c) != NULL ==>
              exists d :: c <= d < TLSF_SIZE && a.lists[d] != [] && FirstFit(a.lists, c) == a.lists[d][0]
                          && FiledUnder(a.blocks, FirstFit(a.lists, c), d)
                          && forall e :: c <= e < d ==> a.lists[e] == []
    decreases TLSF_SIZE - c
  {
    if c < TLSF_SIZE {
      if a.lists[c] != [] {
        var b := a.lists[c][0];
        assert b in a.lists[c];
        assert FiledUnder(a.blocks, b, c);
        assert BlockOk(a.blocks, b);
      } else {
        FirstFitSpec(a, c + 1);
      }
    }
  }

  /** Good fit: the block picked is free, is the head of its list, and can hold the request. */
  lemma PickFits(a: Arena, s: nat)
    requires Inv(a) && s % 8 == 0 && Pick(a, s) != NULL
    ensures s >= MIN_PAYLOAD
    ensures var b := Pick(a, s);
            && b in a.blocks && a.blocks[b].free && s <= a.blocks[b].size < SIZE_LIMIT
            && a.lists[Slot(a.blocks[b].size)] != [] && a.lists[Slot(a.blocks[b].size)][0] == b
  {
    MapUpIsCeiling(s);
    var c := MapUp(s).value.Index();
    ClassPosLow(MapUp(s).value);
    FirstFitSpec(a, c);
    var b := Pick(a, s);
    var d :| c <= d < TLSF_SIZE && a.lists[d] != [] && b == a.lists[d][0] && FiledUnder(a.blocks, b, d);
    MapDownGalois(a.blocks[b].size, c);
  }

  /** Absorb a free physical predecessor of taken block b; returns where the merged taken block starts. */
  function AbsorbPrev(a: Arena, b: nat): (r: (Arena, nat))
    requires Inv(a) && b in a.blocks && !a.blocks[b].free
    ensures Inv(r.0) && r.1 in r.0.blocks && !r.0.blocks[r.1].free && PrevTaken(r.0, r.1)
  {
    var p := a.blocks[b].prev;
    if p in a.blocks && a.blocks[p].free then
      TakeOutInv(a, p);
      AbsorbPrevInv(a, b);
      (Fuse(TakeOut(a, p), p), p)
    else (a, b)
  }

  predicate PrevTaken(a: Arena, b: nat)
    requires b in a.blocks
  {
    a.blocks[b].prev in a.blocks ==> !a.blocks[a.blocks[b].prev].free
  }

  predicate NextTaken(a: Arena, b: nat)
    requires b in a.blocks
  {
    Next(a.blocks, b) in a.blocks ==> !a.blocks[Next(a.blocks, b)].free
  }

  lemma AbsorbPrevInv(a: Arena, b: nat)
    requires Inv(a) && b in a.blocks && !a.blocks[b].free
    requires a.blocks[b].prev in a.blocks && a.blocks[a.blocks[b].prev].free
    requires 0 < a.blocks[a.blocks[b].prev].size < SIZE_LIMIT && Inv(TakeOut(a, a.blocks[b].prev))
    ensures var p := a.blocks[b].prev;
            && Next(TakeOut(a, p).blocks, p) == b
            && var u := Fuse(TakeOut(a, p), p);
            Inv(u) && p in u.blocks && !u.blocks[p].free && PrevTaken(u, p)
  {
    hide Merge;
    var p := a.blocks[b].prev;
    assert BlockOk(a.blocks, b) && BlockOk(a.blocks, p);
    var t, q := TakeOut(a, p), a.blocks[p].prev;
    FuseInv(t, p);
    MergeAt(t.blocks, p, p);
    MergeAt(t.blocks, p, q);
    if q in a.blocks {
      assert NotMergeable(a.blocks, q) && BlockOk(a.blocks, q);
    }
  }

  /** Absorb a free physical successor of taken block b. */
  function AbsorbNext(a: Arena, b: nat): (r: Arena)
    requires Inv(a) && b in a.blocks && !a.blocks[b].free
    ensures Inv(r) && b in r.blocks && !r.blocks[b].free
    ensures PrevTaken(a, b) ==> PrevTaken(r, b)
    ensures NextTaken(r, b)
  {
    var n := Next(a.blocks, b);
    if n in a.blocks && a.blocks[n].free then
      TakeOutInv(a, n);
      AbsorbNextInv(a, b);
      Fuse(TakeOut(a, n), b)
    else a
  }

  lemma AbsorbNextInv(a: Arena, b: nat)
    requires Inv(a) && b in a.blocks && !a.blocks[b].free
    requires Next(a.blocks, b) in a.blocks && a.blocks[Next(a.blocks, b)].free
    requires 0 < a.blocks[Next(a.blocks, b)].size < SIZE_LIMIT && Inv(TakeOut(a, Next(a.blocks, b)))
    ensures var n := Next(a.blocks, b);
            var t := TakeOut(a, n);
            && Next(t.blocks, b) == n
            && var u := Fuse(t, b);
            && Inv(u) && b in u.blocks && !u.blocks[b].free
            && (PrevTaken(a, b) ==> PrevTaken(u, b)) && NextTaken(u, b)
  {
    var n := Next(a.blocks, b);
    var t, m := TakeOut(a, n), Next(a.blocks, n);
    FuseInv(t, b);
    MergeAt(t.blocks, b, b);
    MergeAt(t.blocks, b, m);
    MergeAt(t.blocks, b, a.blocks[b].prev);
    assert NotMergeable(a.blocks, n);
  }

  /** kFree of the payload at target: the new state, and whether the call succeeds. */
  function Free(a: Arena, target: nat): (r: (Arena, bool))
    requires Inv(a)
    requires target != NULL ==> target >= HEADER && target - HEADER in a.blocks
  {
    if target == NULL || a.blocks[target - HEADER].free then (a, false)
    else (Release(a, target - HEADER), true)
  }

  function Release(a: Arena, b: nat): (r: Arena)
    requires Inv(a) && b in a.blocks && !a.blocks[b].free
    ensures Inv(r)
  {
    var (u, start) := AbsorbPrev(a, b);
    var t := AbsorbNext(u, start);
    assert BlockOk(t.blocks, start);
    PutInInv(t, start);
    PutIn(t, start)
  }
}
