/** The size classes of the segregated-fit allocator: 18 octaves of 32 classes, the first of them linear. */
module SizeClass {
  import opened Words

  const FL_COUNT := 24
  const SL_COUNT := 32
  const LIN := 7
  const MIN_PAYLOAD := 8
  const OCTAVES := FL_COUNT - (LIN - 1)
  const TLSF_SIZE := OCTAVES * SL_COUNT
  const SIZE_LIMIT := 0x100_0000

  datatype Option<+T> = None | Some(value: T)

  /** The pair (bin_idx, sub_idx) of the source; the slot in tlsf_array is `Index`. */
  datatype ClassPos = ClassPos(leader: nat, sub: nat) {
    predicate Valid() {
      LIN - 1 <= leader < FL_COUNT && sub < SL_COUNT
    }

    function Index(): nat
      requires Valid()
    {
      (leader - (LIN - 1)) * SL_COUNT + sub
    }
  }

  /** Position of the leading one bit; undefined for 0, as the source says. */
  function LeadingOne(n: nat): (k: nat)
    requires n > 0
    ensures Pow2(k) <= n < Pow2(k + 1)
  {
    if n == 1 then 0 else 1 + LeadingOne(n / 2)
  }

  function SubSize(leader: nat): (sz: nat)
    requires leader >= LIN - 1
    ensures sz > 0
  {
    if leader == LIN - 1 then 4 else Pow2(leader - 5)
  }

  /** The size without its leading bit, or all of it in the linear zone. */
  function Excess(size: nat, leader: nat): nat
    requires leader == LIN - 1 || Pow2(leader) <= size
  {
    if leader == LIN - 1 then size else size - Pow2(leader)
  }

  function ZoneLeader(size: nat): (leader: nat)
    requires size > 0
    ensures leader >= LIN - 1
    ensures leader == LIN - 1 || Pow2(leader) <= size
  {
    var leader := LeadingOne(size);
    if leader < LIN then LIN - 1 else leader
  }

  function Quotient(e: nat, w: nat): nat
    requires w > 0
  {
    e / w
  }

  function Remainder(e: nat, w: nat): nat
    requires w > 0
  {
    e % w
  }

  /** map_up: the class a request is served from, or None when no class is large enough. */
  function MapUp(size: nat): Option<ClassPos> {
    if size <= MIN_PAYLOAD then Some(ClassPos(6, 2))
    else if LeadingOne(size) >= FL_COUNT then None
    else
      var leader := ZoneLeader(size);
      var sb := Quotient(Excess(size, leader), SubSize(leader));
      var r := Remainder(Excess(size, leader), SubSize(leader));
      var (leader', sb') :=
        if r == 0 then (leader, sb)
        else if sb + 1 >= SL_COUNT then (leader + 1, 0)
        else (leader, sb + 1);
      if leader' >= FL_COUNT then None else Some(ClassPos(leader', sb'))
  }

  /** map_down: the class a free block of this size is filed under. */
  function MapDown(size: nat): ClassPos
    requires size > 0
  {
    var leader := ZoneLeader(size);
    ClassPos(leader, Quotient(Excess(size, leader), SubSize(leader)))
  }

  /** Reference definition: the smallest size filed under slot c. */
  function ClassLow(c: nat): nat {
    var octave, sub := c / SL_COUNT, c % SL_COUNT;
    if octave == 0 then 4 * sub else (SL_COUNT + sub) * Pow2(octave + 1)
  }

  lemma Pow2Sum(j: nat, k: nat)
    ensures Pow2(j + k) == Pow2(j) * Pow2(k)
  {
    if j > 0 {
      Pow2Sum(j - 1, k);
    }
  }

  lemma ClassLowStep(c: nat)
    ensures ClassLow(c) < ClassLow(c + 1)
    ensures c / SL_COUNT > 0 ==> ClassLow(c + 1) == ClassLow(c) + Pow2(c / SL_COUNT + 1)
  {
    var octave, sub := c / SL_COUNT, c % SL_COUNT;
    if sub + 1 < SL_COUNT {
      assert (c + 1) / SL_COUNT == octave && (c + 1) % SL_COUNT == sub + 1;
    } else {
      assert (c + 1) / SL_COUNT == octave + 1 && (c + 1) % SL_COUNT == 0;
      assert ClassLow(c + 1) == SL_COUNT * Pow2(octave + 2);
    }
    assert (SL_COUNT + sub + 1) * Pow2(octave + 1) == (SL_COUNT + sub) * Pow2(octave + 1) + Pow2(octave + 1);
  }

  /** Slots are ordered by the sizes they hold. */
  lemma {:induction false} ClassLowMonotone(c: nat, d: nat)
    requires c <= d
    ensures ClassLow(c) <= ClassLow(d)
    ensures c < d ==> ClassLow(c) < ClassLow(d)
    decreases d
  {
    if c < d {
      ClassLowMonotone(c, d - 1);
      ClassLowStep(d - 1);
    }
  }

  lemma ClassLowEnd()
    ensures ClassLow(TLSF_SIZE) == SIZE_LIMIT
  {
    WordIsPow2();
    assert TLSF_SIZE / SL_COUNT == 18 && TLSF_SIZE % SL_COUNT == 0;
    Pow2Sum(19, 13);
    assert Pow2(4) == 16;
    assert Pow2(13) == 8192 by { Pow2Sum(9, 4); assert Pow2(9) == 512 by { Pow2Sum(5, 4); } }
    assert Pow2(19) == 0x8_0000;
  }

  lemma ClassPosLow(p: ClassPos)
    requires p.Valid()
    ensures p.Index() < TLSF_SIZE
    ensures p.leader == LIN - 1 ==> ClassLow(p.Index()) == p.sub * SubSize(p.leader)
    ensures p.leader > LIN - 1 ==> ClassLow(p.Index()) == Pow2(p.leader) + p.sub * SubSize(p.leader)
  {
    var c := p.Index();
    assert c / SL_COUNT == p.leader - (LIN - 1) && c % SL_COUNT == p.sub;
    if p.leader > LIN - 1 {
      Pow2Sum(5, p.leader - 5);
      assert Pow2(5) == 32;
      assert (SL_COUNT + p.sub) * Pow2(p.leader - 5) == 32 * Pow2(p.leader - 5) + p.sub * Pow2(p.leader - 5);
    }
  }

  /** The zone of a size: 32 sub-classes of SubSize bytes cover what Excess can be. */
  lemma ZoneBound(size: nat)
    requires 0 < size
    ensures Excess(size, ZoneLeader(size)) < SL_COUNT * SubSize(ZoneLeader(size))
    ensures size < SIZE_LIMIT <==> LeadingOne(size) < FL_COUNT
    ensures size < SIZE_LIMIT <==> ZoneLeader(size) < FL_COUNT
  {
    var k := LeadingOne(size);
    assert Pow2(7) == 128;
    if k < LIN {
      Pow2Monotone(k + 1, 7);
    } else {
      Pow2Sum(5, k - 5);
      assert Pow2(5) == 32;
    }
    assert Pow2(24) == SIZE_LIMIT by { Pow2Sum(8, 16); assert Pow2(8) == 256; Pow2Sum(8, 8); }
    if k < FL_COUNT {
      Pow2Monotone(k + 1, FL_COUNT);
    } else {
      Pow2Monotone(FL_COUNT, k);
    }
  }

  /** map_down is the floor: a block lies in the one class whose size range contains it. */
  lemma MapDownIsFloor(size: nat)
    requires 0 < size < SIZE_LIMIT
    ensures MapDown(size).Valid()
    ensures MapDown(size).Index() < TLSF_SIZE
    ensures ClassLow(MapDown(size).Index()) <= size < ClassLow(MapDown(size).Index() + 1)
  {
    hide LeadingOne, Pow2, Quotient, Remainder, ClassLow;
    var leader := ZoneLeader(size);
    var e, w := Excess(size, leader), SubSize(leader);
    ZoneBound(size);
    QuotientBounds(e, w, SL_COUNT);
    var p := MapDown(size);
    ClassPosLow(p);
    if leader == LIN - 1 {
      LinearStep(p.Index());
    } else {
      ClassLowStep(p.Index());
    }
  }

  lemma LinearStep(c: nat)
    requires c < SL_COUNT
    ensures ClassLow(c + 1) == ClassLow(c) + 4
  {
    if c + 1 == SL_COUNT {
      assert (c + 1) / SL_COUNT == 1 && (c + 1) % SL_COUNT == 0;
      assert Pow2(2) == 4;
    } else {
      assert (c + 1) / SL_COUNT == 0 && (c + 1) % SL_COUNT == c + 1;
    }
  }

  lemma QuotientBounds(e: nat, w: nat, n: nat)
    requires w > 0 && e < n * w
    ensures Quotient(e, w) < n
    ensures Quotient(e, w) * w + Remainder(e, w) == e
    ensures Remainder(e, w) < w
  {
    assert e == w * (e / w) + e % w;
    if e / w >= n {
      MulMonotone(n, e / w, w);
      assert false;
    }
  }

  lemma MulMonotone(a: nat, b: nat, w: nat)
    requires a <= b
    ensures a * w <= b * w
  {
  }

  /** A block belongs to class c or above exactly when it is at least as large as the class's bound. */
  lemma MapDownGalois(size: nat, c: nat)
    requires 0 < size < SIZE_LIMIT
    ensures MapDown(size).Valid()
    ensures c <= MapDown(size).Index() <==> ClassLow(c) <= size
  {
    MapDownIsFloor(size);
    var d := MapDown(size).Index();
    if c <= d {
      ClassLowMonotone(c, d);
    } else {
      ClassLowMonotone(d + 1, c);
    }
  }

  /** map_up is the ceiling: the least class all of whose blocks can hold the request,
      or failure exactly when the request exceeds every class's lower bound. */
  lemma MapUpIsCeiling(size: nat)
    requires size >= MIN_PAYLOAD
    ensures MapUp(size).None? <==> size > ClassLow(TLSF_SIZE - 1)
    ensures MapUp(size).Some? ==>
              var p := MapUp(size).value;
              && p.Valid()
              && p.Index() > 0
              && ClassLow(p.Index() - 1) < size <= ClassLow(p.Index())
  {
    hide LeadingOne, Pow2, Quotient, Remainder;
    if size == MIN_PAYLOAD {
      MapUpSmallest();
    } else if size >= SIZE_LIMIT {
      ZoneBound(size);
      ClassLowEnd();
      ClassLowStep(TLSF_SIZE - 1);
    } else {
      ZoneBound(size);
      MapDownIsFloor(size);
      var leader := ZoneLeader(size);
      var e, w := Excess(size, leader), SubSize(leader);
      QuotientBounds(e, w, SL_COUNT);
      var d := MapDown(size);
      ClassPosLow(d);
      var c := d.Index();
      assert ClassLow(c) == size - Remainder(e, w);
      LinearStep(0);
      assert c > 0;
      ClassLowMonotone(c - 1, c);
      if Remainder(e, w) == 0 {
        ClassLowMonotone(c, TLSF_SIZE - 1);
      } else {
        CeilingNext(size, c);
      }
    }
  }

  lemma MapUpSmallest()
    ensures ClassLow(1) == 4 && ClassLow(2) == 8
    ensures MIN_PAYLOAD <= ClassLow(TLSF_SIZE - 1)
  {
    ClassLowMonotone(2, TLSF_SIZE - 1);
  }

  lemma CeilingNext(size: nat, c: nat)
    requires c < TLSF_SIZE && ClassLow(c) < size < ClassLow(c + 1)
    ensures size > ClassLow(TLSF_SIZE - 1) <==> c + 1 == TLSF_SIZE
  {
    ClassLowMonotone(c + 1, if c + 1 < TLSF_SIZE then TLSF_SIZE - 1 else c + 1);
  }

  /** The class a request is rounded up to starts at most 1/32 above the request. */
  lemma MapUpWithinThirtySecond(size: nat)
    requires size >= MIN_PAYLOAD && size % 8 == 0
    requires MapUp(size).Some?
    ensures MapUp(size).value.Valid()
    ensures ClassLow(MapUp(size).value.Index()) <= size + size / 32
  {
    hide MapUp;
    MapUpIsCeiling(size);
    var c := MapUp(size).value.Index();
    var q := c - 1;
    if q < SL_COUNT {
      LinearStep(q);
    } else {
      ClassStepWidth(q);
    }
  }

  /** Beyond the linear zone the next class starts less than 1/32 further up. */
  lemma ClassStepWidth(q: nat)
    requires q >= SL_COUNT
    ensures 32 * (ClassLow(q + 1) - ClassLow(q)) <= ClassLow(q)
  {
    ClassLowStep(q);
    MulMonotone(SL_COUNT, SL_COUNT + q % SL_COUNT, Pow2(q / SL_COUNT + 1));
  }
}
