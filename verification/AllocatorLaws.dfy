/** Laws of the allocator over one call and over whole runs. */
module AllocatorLaws {
  import opened Words
  import opened SizeClass
  import opened Arena
  import opened Allocator

  // ---------------------------------------------------------------- malloc then free

  lemma TakeOutPutIn(a: Arena, b: nat)
    requires b in a.blocks && 0 < a.blocks[b].size < SIZE_LIMIT && |a.lists| == TLSF_SIZE
    ensures !a.blocks[b].free ==> TakeOut(PutIn(a, b), b) == a
    ensures var l := a.lists[Slot(a.blocks[b].size)];
            a.blocks[b].free && l != [] && l[0] == b ==> PutIn(TakeOut(a, b), b) == a
  {
    var c := Slot(a.blocks[b].size);
    var l := a.lists[c];
    if !a.blocks[b].free {
      assert Without([b] + l, b) == l;
      assert TakeOut(PutIn(a, b), b).lists == a.lists;
    } else if l != [] && l[0] == b {
      assert [b] + l[1..] == l;
      assert PutIn(TakeOut(a, b), b).lists == a.lists;
    }
  }

  /** The part of a carved block that free has to undo first: absorbing the remainder. */
  lemma AbsorbUndoesCut(a: Arena, b: nat, s: nat)
    requires Inv(a) && b in a.blocks && a.blocks[b].free && 0 < a.blocks[b].size < SIZE_LIMIT
    requires s >= MIN_PAYLOAD && s % 8 == 0 && a.blocks[b].size >= s + HEADER + MIN_PAYLOAD
    ensures var r := Carve(a, b, s);
            b in r.blocks && !r.blocks[b].free && AbsorbNext(r, b) == TakeOut(a, b)
  {
    TakeOutInv(a, b);
    var t, r, n := TakeOut(a, b), Carve(a, b, s), b + HEADER + s;
    var u := Cut(t, b, s);
    CarveRemainder(a, b, s);
    SplitAt(t.blocks, b, s, b);
    assert r == PutIn(u, n);
    assert Next(r.blocks, b) == n;
    MergeSplit(t.blocks, b, s);
    TakeOutPutIn(u, n);
    assert Fuse(u, b) == t;
  }

  lemma NothingToAbsorb(a: Arena, b: nat)
    requires Inv(a) && b in a.blocks && a.blocks[b].free && 0 < a.blocks[b].size < SIZE_LIMIT
    requires Inv(TakeOut(a, b))
    ensures AbsorbNext(TakeOut(a, b), b) == TakeOut(a, b)
  {
    assert NotMergeable(a.blocks, b);
  }

  lemma CarveKeepsPrevTaken(a: Arena, b: nat, s: nat)
    requires Inv(a) && b in a.blocks && a.blocks[b].free
    requires s >= MIN_PAYLOAD && s % 8 == 0 && a.blocks[b].size >= s
    ensures var r := Carve(a, b, s); b in r.blocks && PrevTaken(r, b)
  {
    TakeOutInv(a, b);
    var t, p := TakeOut(a, b), a.blocks[b].prev;
    assert BlockOk(a.blocks, b);
    if a.blocks[b].size >= s + HEADER + MIN_PAYLOAD {
      CarveRemainder(a, b, s);
      SplitAt(t.blocks, b, s, b);
      SplitAt(t.blocks, b, s, p);
      SplitAt(t.blocks, b, s, b + HEADER + s);
    }
    if p in a.blocks {
      assert BlockOk(a.blocks, p) && NotMergeable(a.blocks, p);
    }
  }

  lemma CarveReleaseRestores(a: Arena, b: nat, s: nat)
    requires Inv(a) && b in a.blocks && a.blocks[b].free && 0 < a.blocks[b].size < SIZE_LIMIT
    requires a.lists[Slot(a.blocks[b].size)] != [] && a.lists[Slot(a.blocks[b].size)][0] == b
    requires s >= MIN_PAYLOAD && s % 8 == 0 && a.blocks[b].size >= s
    ensures var r := Carve(a, b, s); b in r.blocks && !r.blocks[b].free && Release(r, b) == a
  {
    TakeOutInv(a, b);
    if a.blocks[b].size >= s + HEADER + MIN_PAYLOAD {
      AbsorbUndoesCut(a, b, s);
    } else {
      NothingToAbsorb(a, b);
    }
    CarveKeepsPrevTaken(a, b, s);
    TakeOutPutIn(a, b);
  }

  lemma MallocCarves(a: Arena, size: nat)
    requires Inv(a) && Malloc(a, size).1 != NULL
    ensures var (s, b) := (AlignUp(size), Pick(a, AlignUp(size)));
            && s >= MIN_PAYLOAD && s % 8 == 0 && b != NULL
            && b in a.blocks && a.blocks[b].free && s <= a.blocks[b].size < SIZE_LIMIT
            && a.lists[Slot(a.blocks[b].size)] != [] && a.lists[Slot(a.blocks[b].size)][0] == b
            && Malloc(a, size) == (Carve(a, b, s), b + HEADER)
  {
    hide Inv, Carve, Pick;
    PickFits(a, AlignUp(size));
  }

  /** A successful kMalloc followed by kFree of its result restores the state exactly: tiling, boundary tags,
      and the order of every list, also when the remainder was filed in the original block's own class. */
  lemma MallocFreeRestores(a: Arena, size: nat)
    requires Inv(a) && Malloc(a, size).1 != NULL
    ensures var (r, p) := Malloc(a, size);
            Inv(r) && p >= HEADER && p - HEADER in r.blocks && Free(r, p) == (a, true)
  {
    hide Inv, Carve, Pick, Malloc, Release, AlignUp, Slot;
    MallocCarves(a, size);
    CarveReleaseRestores(a, Pick(a, AlignUp(size)), AlignUp(size));
  }

  // ---------------------------------------------------------------- good fit and completeness

  /** kMalloc fails exactly when the request is zero after alignment, exceeds every class, or no free block
      lies in its class or above. */
  lemma MallocFailsIff(a: Arena, size: nat)
    requires Inv(a)
    ensures var s := AlignUp(size);
            Malloc(a, size).1 == NULL <==>
            (s == 0 || s > ClassLow(TLSF_SIZE - 1)
             || forall b :: b in a.blocks && a.blocks[b].free ==> a.blocks[b].size < RoundedUp(s))
  {
    var s := AlignUp(size);
    if s != 0 {
      MapUpIsCeiling(s);
      if MapUp(s).Some? {
        var c := MapUp(s).value.Index();
        ClassPosLow(MapUp(s).value);
        FirstFitSpec(a, c);
        if Pick(a, s) == NULL {
          forall b | b in a.blocks && a.blocks[b].free ensures a.blocks[b].size < RoundedUp(s) {
            SizeInRange(a.blocks, b);
            MapDownGalois(a.blocks[b].size, c);
            assert FiledUnder(a.blocks, b, Slot(a.blocks[b].size));
          }
        } else {
          var d :| c <= d < TLSF_SIZE && FiledUnder(a.blocks, Pick(a, s), d);
          MapDownGalois(a.blocks[Pick(a, s)].size, c);
        }
      }
    }
  }

  /** Lower bound of the class a request is rounded up to. */
  function RoundedUp(s: nat): nat
    requires MIN_PAYLOAD <= s <= ClassLow(TLSF_SIZE - 1)
  {
    MapUpIsCeiling(s);
    ClassLow(MapUp(s).value.Index())
  }

  /** Block x has room for a request of s bytes as the search sees it: it is at least the rounded-up size. */
  predicate Candidate(a: Arena, s: nat, x: nat)
    requires MIN_PAYLOAD <= s <= ClassLow(TLSF_SIZE - 1)
  {
    x in a.blocks && a.blocks[x].free && 0 < a.blocks[x].size < SIZE_LIMIT && a.blocks[x].size >= RoundedUp(s)
  }

  lemma PickLeast(a: Arena, s: nat, x: nat)
    requires Inv(a) && s % 8 == 0 && Pick(a, s) != NULL && MIN_PAYLOAD <= s <= ClassLow(TLSF_SIZE - 1)
    ensures Candidate(a, s, Pick(a, s))
    ensures Candidate(a, s, x) ==> Slot(a.blocks[Pick(a, s)].size) <= Slot(a.blocks[x].size)
  {
    MapUpIsCeiling(s);
    var c := MapUp(s).value.Index();
    ClassPosLow(MapUp(s).value);
    FirstFitSpec(a, c);
    var b := Pick(a, s);
    hide Pick, MapUp, MapDown, ClassLow, Tiled, Coalesced;
    var d :| c <= d < TLSF_SIZE && FiledUnder(a.blocks, b, d) && forall e :: c <= e < d ==> a.lists[e] == [];
    MapDownGalois(a.blocks[b].size, c);
    if Candidate(a, s, x) {
      var z := Slot(a.blocks[x].size);
      MapDownGalois(a.blocks[x].size, c);
      assert FiledUnder(a.blocks, x, z);
      assert x in a.lists[z];
    }
  }

  /** Good fit: a successful request is served from the start of the block that heads the lowest list with a block of at
      least the rounded-up size. */
  lemma MallocLeastSlot(a: Arena, size: nat)
    requires Inv(a) && Malloc(a, size).1 != NULL
    ensures MIN_PAYLOAD <= AlignUp(size) <= ClassLow(TLSF_SIZE - 1) && Malloc(a, size).1 >= HEADER
    ensures var b := Malloc(a, size).1 - HEADER;
            && Candidate(a, AlignUp(size), b)
            && a.lists[Slot(a.blocks[b].size)] != [] && a.lists[Slot(a.blocks[b].size)][0] == b
            && forall x {:trigger Candidate(a, AlignUp(size), x)} ::
                 Candidate(a, AlignUp(size), x) ==> Slot(a.blocks[b].size) <= Slot(a.blocks[x].size)
  {
    var s := AlignUp(size);
    PickFits(a, s);
    MapUpIsCeiling(s);
    hide Carve, Pick, MapUp, Candidate, AlignUp, Inv, Slot;
    PickLeast(a, s, 0);
    forall x | Candidate(a, s, x) ensures Slot(a.blocks[Pick(a, s)].size) <= Slot(a.blocks[x].size) {
      PickLeast(a, s, x);
    }
  }

  /** ALIGN8 gives the least multiple of 8 that is not below the request, unless that is 2^32: then 0. */
  lemma AlignUpLeast(size: nat, m: nat)
    requires size < WORD && m % 8 == 0 && m >= size
    ensures AlignUp(size) % 8 == 0
    ensures if size + 7 < WORD then size <= AlignUp(size) <= m else AlignUp(size) == 0
  {
  }

  /** A free block 1/32 larger than the aligned request is enough for success. */
  lemma MallocSucceedsWithinThirtySecond(a: Arena, size: nat, b: nat)
    requires Inv(a) && AlignUp(size) != 0
    requires b in a.blocks && a.blocks[b].free && a.blocks[b].size >= AlignUp(size) + AlignUp(size) / 32
    ensures Malloc(a, size).1 != NULL
  {
    var s := AlignUp(size);
    SizeInRange(a.blocks, b);
    MapUpIsCeiling(s);
    MapDownIsFloor(a.blocks[b].size);
    LastClass();
    MallocFailsIff(a, size);
    MapUpWithinThirtySecond(s);
  }

  lemma LastClass()
    ensures ClassLow(TLSF_SIZE - 1) + ClassLow(TLSF_SIZE - 1) / 32 >= SIZE_LIMIT
  {
    ClassLowEnd();
    ClassLowStep(TLSF_SIZE - 1);
    ClassStepWidth(TLSF_SIZE - 1);
    assert Pow2(18) == 0x4_0000 by { Pow2Sum(9, 9); assert Pow2(9) == 512 by { Pow2Sum(5, 4); } }
  }

  /** The live allocations: header address to payload size. */
  function Live(a: Arena): map<nat, nat> {
    map b | b in a.blocks && !a.blocks[b].free :: a.blocks[b].size
  }

  ghost predicate IsLive(a: Arena, x: nat) {
    x in a.blocks && !a.blocks[x].free
  }

  /** Block x is live in r exactly when it was live in a or is b, and keeps its size. */
  ghost predicate LiveGains(a: Arena, r: Arena, b: nat, x: nat) {
    (IsLive(r, x) <==> IsLive(a, x) || x == b) && (IsLive(a, x) && x != b ==> r.blocks[x].size == a.blocks[x].size)
  }

  lemma LiveExtends(a: Arena, r: Arena, b: nat)
    requires forall x {:trigger LiveGains(a, r, b, x)} :: LiveGains(a, r, b, x)
    ensures IsLive(r, b) && Live(r) == Live(a)[b := r.blocks[b].size]
  {
    assert LiveGains(a, r, b, b);
    forall x ensures x in Live(r) <==> x in Live(a) || x == b
             ensures x in Live(a) && x != b ==> Live(r)[x] == Live(a)[x] {
      assert LiveGains(a, r, b, x);
    }
  }

  lemma CarveLiveAt(a: Arena, b: nat, s: nat, x: nat)
    requires Inv(a) && b in a.blocks && a.blocks[b].free
    requires s >= MIN_PAYLOAD && s % 8 == 0 && a.blocks[b].size >= s
    ensures LiveGains(a, Carve(a, b, s), b, x)
    ensures x == b ==>
              Carve(a, b, s).blocks[b].size == if a.blocks[b].size >= s + HEADER + MIN_PAYLOAD then s else a.blocks[b].size
  {
    TakeOutInv(a, b);
    if a.blocks[b].size >= s + HEADER + MIN_PAYLOAD {
      CarveRemainder(a, b, s);
      SplitAt(TakeOut(a, b).blocks, b, s, x);
    }
  }

  lemma EightStep(s: nat, z: nat)
    requires s % 8 == 0 && z % 8 == 0 && s <= z < s + HEADER + MIN_PAYLOAD
    ensures z == s || z == s + 8
    ensures (s + HEADER) % 8 == 0
  {
  }

  /** A carved block is live with the requested size or 8 bytes more; no other live block changes. */
  lemma CarveLive(a: Arena, b: nat, s: nat, r: Arena)
    requires Inv(a) && b in a.blocks && a.blocks[b].free
    requires s >= MIN_PAYLOAD && s % 8 == 0 && a.blocks[b].size >= s && r == Carve(a, b, s)
    ensures b !in Live(a) && b in Live(r) && (Live(r)[b] == s || Live(r)[b] == s + 8)
    ensures Live(r) == Live(a)[b := Live(r)[b]]
  {
    forall x ensures LiveGains(a, r, b, x) {
      CarveLiveAt(a, b, s, x);
    }
    LiveExtends(a, r, b);
    CarveLiveAt(a, b, s, b);
    if a.blocks[b].size < s + HEADER + MIN_PAYLOAD {
      assert a.blocks[b].size % 8 == 0 by { assert BlockOk(a.blocks, b); }
      EightStep(s, a.blocks[b].size);
    }
  }

  /** A 32-bit request is rounded up, unless the rounding wraps around to 0. */
  lemma AlignUpHolds(size: nat)
    requires size < WORD
    ensures AlignUp(size) >= size || AlignUp(size) == 0
  {
  }

  /** From a to r the payload at p was added: 8-aligned, of the aligned request's size or 8 bytes more, and at least as
      large as any 32-bit request; every other live payload is as it was. */
  ghost predicate Serves(a: Arena, size: nat, r: Arena, p: nat) {
    && p >= HEADER && p % 8 == 0
    && var b := p - HEADER;
    && b !in Live(a) && b in Live(r) && Live(r) == Live(a)[b := Live(r)[b]]
    && (Live(r)[b] == AlignUp(size) || Live(r)[b] == AlignUp(size) + 8)
    && (size < WORD ==> Live(r)[b] >= size)
  }

  /** kMalloc adds one live payload that serves the request, and leaves every other one as it was. */
  lemma MallocLive(a: Arena, size: nat)
    requires Inv(a) && Malloc(a, size).1 != NULL
    ensures Serves(a, size, Malloc(a, size).0, Malloc(a, size).1)
  {
    MallocCarves(a, size);
    if size < WORD {
      AlignUpHolds(size);
    }
    hide Inv, Malloc, Pick, AlignUp, Carve, Live;
    var b := Pick(a, AlignUp(size));
    CarveLive(a, b, AlignUp(size), Carve(a, b, AlignUp(size)));
    BlockAligned(a, b);
    EightStep(b, b);
  }

  lemma BlockAligned(a: Arena, b: nat)
    requires Inv(a) && b in a.blocks
    ensures b % 8 == 0
  {
    assert BlockOk(a.blocks, b);
  }

  /** Live payloads never overlap. */
  lemma LivePayloadsDisjoint(a: Arena, b: nat, c: nat)
    requires Inv(a) && b in Live(a) && c in Live(a) && b != c
    ensures b + HEADER + Live(a)[b] <= c || c + HEADER + Live(a)[c] <= b
    ensures BASE <= b && b + HEADER + Live(a)[b] <= END
  {
    assert NoOverlap(a.blocks, b, c) && NoOverlap(a.blocks, c, b) && BlockOk(a.blocks, b);
  }

  lemma AbsorbPrevLive(a: Arena, b: nat, x: nat)
    requires Inv(a) && IsLive(a, b)
    ensures var (u, start) := AbsorbPrev(a, b);
            && (start != b ==> !IsLive(a, start))
            && (x != start ==> (IsLive(u, x) <==> IsLive(a, x) && x != b))
            && (x != start && x != b && IsLive(a, x) ==> u.blocks[x].size == a.blocks[x].size)
  {
    var p := a.blocks[b].prev;
    if p in a.blocks && a.blocks[p].free {
      TakeOutInv(a, p);
      AbsorbPrevInv(a, b);
      MergeAt(TakeOut(a, p).blocks, p, x);
    }
  }

  lemma AbsorbNextLive(a: Arena, b: nat, x: nat)
    requires Inv(a) && IsLive(a, b) && x != b
    ensures var r := AbsorbNext(a, b);
            && (IsLive(r, x) <==> IsLive(a, x))
            && (IsLive(a, x) ==> r.blocks[x].size == a.blocks[x].size)
  {
    var n := Next(a.blocks, b);
    if n in a.blocks && a.blocks[n].free {
      TakeOutInv(a, n);
      AbsorbNextInv(a, b);
      MergeAt(TakeOut(a, n).blocks, b, x);
    }
  }

  lemma ReleaseLiveAt(a: Arena, b: nat, x: nat)
    requires Inv(a) && IsLive(a, b)
    ensures var r := Release(a, b);
            && (IsLive(r, x) <==> IsLive(a, x) && x != b)
            && (IsLive(r, x) ==> r.blocks[x].size == a.blocks[x].size)
  {
    AbsorbPrevLive(a, b, x);
    var (u, start) := AbsorbPrev(a, b);
    if x != start {
      AbsorbNextLive(u, start, x);
    }
  }

  /** kFree of a live payload removes exactly that one; freeing NULL or a free block is refused. */
  lemma FreeLive(a: Arena, target: nat)
    requires Inv(a)
    requires target != NULL ==> target >= HEADER && target - HEADER in a.blocks
    ensures Free(a, target).1 <==> target != NULL && target - HEADER in Live(a)
    ensures Free(a, target).1 ==> Live(Free(a, target).0) == Live(a) - {target - HEADER}
    ensures !Free(a, target).1 ==> Free(a, target).0 == a
  {
    if Free(a, target).1 {
      hide Inv, Release, Live;
      var b, r := target - HEADER, Free(a, target).0;
      forall x ensures LiveLoses(a, r, b, x) {
        ReleaseLiveAt(a, b, x);
      }
      LiveShrinks(a, r, b);
    }
    LiveIs(a, target - HEADER);
  }

  lemma LiveIs(a: Arena, b: int)
    ensures b in Live(a) <==> b in a.blocks && !a.blocks[b].free
  {
  }

  /** Block x is live in r exactly when it was live in a and is not b, and keeps its size. */
  ghost predicate LiveLoses(a: Arena, r: Arena, b: nat, x: nat) {
    (IsLive(r, x) <==> IsLive(a, x) && x != b) && (IsLive(r, x) ==> r.blocks[x].size == a.blocks[x].size)
  }

  lemma LiveShrinks(a: Arena, r: Arena, b: nat)
    requires forall x {:trigger LiveLoses(a, r, b, x)} :: LiveLoses(a, r, b, x)
    ensures Live(r) == Live(a) - {b}
  {
    forall x | x in Live(r) || x in Live(a) - {b} ensures x in Live(r) && x in Live(a) - {b} && Live(r)[x] == Live(a)[x] {
      assert LiveLoses(a, r, b, x);
    }
  }

  // ---------------------------------------------------------------- return to pristine

  const INITIAL_FREE := SIZE_LIMIT - HEADER

  /** The state heap_init builds. */
  function InitArena(): Arena {
    Arena(map[BASE := Blk(INITIAL_FREE, true, NULL)], seq(TLSF_SIZE, _ => [])[TLSF_SIZE - 1 := [BASE]])
  }

  lemma InitialSlot()
    ensures Slot(INITIAL_FREE) == TLSF_SIZE - 1
  {
    MapDownGalois(INITIAL_FREE, TLSF_SIZE - 1);
    ClassLowEnd();
    ClassLowStep(TLSF_SIZE - 1);
    assert Pow2(18) == 0x4_0000 by { Pow2Sum(9, 9); assert Pow2(9) == 512 by { Pow2Sum(5, 4); } }
  }

  lemma InitInv()
    ensures Inv(InitArena())
  {
    var a := InitArena();
    InitialSlot();
    forall b | b in a.blocks ensures BlockOk(a.blocks, b) {
    }
    forall c, x | 0 <= c < TLSF_SIZE ensures x in a.lists[c] <==> FiledUnder(a.blocks, x, c) {
    }
  }

  lemma Members(l: seq<nat>)
    requires NoDup(l)
    ensures l == [] || l[0] in l
    ensures |l| <= 1 || (l[1] in l && l[0] != l[1])
  {
  }

  /** The only state without a live allocation is the one heap_init builds: all memory has coalesced. */
  lemma NothingLiveIsPristine(a: Arena)
    requires Inv(a) && Live(a) == map[]
    ensures a == InitArena()
  {
    var bs := a.blocks;
    assert forall b :: b in bs ==> b !in Live(a) && bs[b].free;
    assert BlockOk(bs, BASE) && NotMergeable(bs, BASE);
    forall b | b in bs ensures b == BASE {
      assert NoOverlap(bs, BASE, b) && BlockOk(bs, b);
    }
    assert bs == InitArena().blocks;
    InitialSlot();
    forall c | 0 <= c < TLSF_SIZE ensures a.lists[c] == InitArena().lists[c] {
      assert BASE in a.lists[c] <==> FiledUnder(bs, BASE, c);
      assert forall x :: x in a.lists[c] ==> FiledUnder(bs, x, c);
      Members(a.lists[c]);
    }
  }

  // ---------------------------------------------------------------- runs

  datatype Request = Allocate(size: nat) | Deallocate(target: nat)

  /** What the source asks of its callers: only NULL or the address after a block header is freed. */
  predicate Legal(a: Arena, rs: seq<Request>)
    requires Inv(a)
    decreases |rs|
  {
    rs == [] || (LegalRequest(a, rs[0]) && Legal(Step(a, rs[0]), rs[1..]))
  }

  predicate LegalRequest(a: Arena, r: Request) {
    r.Deallocate? && r.target != NULL ==> r.target >= HEADER && r.target - HEADER in a.blocks
  }

  function Step(a: Arena, r: Request): (a': Arena)
    requires Inv(a) && LegalRequest(a, r)
    ensures Inv(a')
  {
    match r
    case Allocate(size) => Malloc(a, size).0
    case Deallocate(target) => Free(a, target).0
  }

  function Run(a: Arena, rs: seq<Request>): (a': Arena)
    requires Inv(a) && Legal(a, rs)
    ensures Inv(a')
    decreases |rs|
  {
    if rs == [] then a else Run(Step(a, rs[0]), rs[1..])
  }

  /** From heap_init, whatever was allocated and in whatever order it was freed, once nothing is live
      the state is the initial one again. */
  lemma RunReturnsToPristine(rs: seq<Request>)
    ensures Inv(InitArena())
    ensures Legal(InitArena(), rs) && Live(Run(InitArena(), rs)) == map[] ==> Run(InitArena(), rs) == InitArena()
  {
    InitInv();
    if Legal(InitArena(), rs) && Live(Run(InitArena(), rs)) == map[] {
      NothingLiveIsPristine(Run(InitArena(), rs));
    }
  }

  // ---------------------------------------------------------------- conservation

  /** The blocks met by walking the heap upwards from b. */
  function Walk(bs: Blocks, b: nat): (w: seq<nat>)
    requires Tiled(bs) && b in bs
    ensures forall x :: x in w ==> x in bs
    decreases END - b
  {
    assert BlockOk(bs, b);
    if Next(bs, b) == END then [b] else [b] + Walk(bs, Next(bs, b))
  }

  function Bytes(bs: Blocks, w: seq<nat>): nat
    requires forall x :: x in w ==> x in bs
  {
    if w == [] then 0 else HEADER + bs[w[0]].size + Bytes(bs, w[1..])
  }

  lemma {:induction false} WalkBytes(bs: Blocks, b: nat)
    requires Tiled(bs) && b in bs
    ensures Bytes(bs, Walk(bs, b)) == END - b
    decreases END - b
  {
    assert BlockOk(bs, b);
    if Next(bs, b) != END {
      WalkBytes(bs, Next(bs, b));
      assert Walk(bs, b)[1..] == Walk(bs, Next(bs, b));
    }
  }

  lemma {:induction false} WalkAscends(bs: Blocks, b: nat)
    requires Tiled(bs) && b in bs
    ensures forall i, j :: 0 <= i < j < |Walk(bs, b)| ==> Walk(bs, b)[i] < Walk(bs, b)[j]
    ensures forall i :: 0 <= i < |Walk(bs, b)| ==> Walk(bs, b)[i] >= b
    decreases END - b
  {
    assert BlockOk(bs, b);
    if Next(bs, b) != END {
      WalkAscends(bs, Next(bs, b));
    }
  }

  lemma {:induction false} WalkMeets(bs: Blocks, b: nat, x: nat)
    requires Tiled(bs) && b in bs && x in bs && x >= b
    ensures x in Walk(bs, b)
    decreases END - b
  {
    assert BlockOk(bs, b) && BlockOk(bs, x) && NoOverlap(bs, b, x);
    if x != b {
      WalkMeets(bs, Next(bs, b), x);
    }
  }

  /** Walking from the start of the heap meets every block once, in address order, and payloads and headers
      together are the whole heap. */
  lemma HeapIsTiled(a: Arena)
    requires Inv(a)
    ensures var w := Walk(a.blocks, BASE);
            && (forall x :: x in w <==> x in a.blocks)
            && (forall i, j :: 0 <= i < j < |w| ==> w[i] < w[j])
            && Bytes(a.blocks, w) == SIZE_LIMIT
  {
    WalkBytes(a.blocks, BASE);
    WalkAscends(a.blocks, BASE);
    forall x | x in a.blocks ensures x in Walk(a.blocks, BASE) {
      assert BlockOk(a.blocks, x);
      WalkMeets(a.blocks, BASE, x);
    }
  }
}
