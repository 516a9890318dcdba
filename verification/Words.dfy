/** Machine words as natural numbers: powers of two, shifts and single-bit masks. */
module Words {
  const WORD := 0x1_0000_0000

  function Pow2(k: nat): (p: nat)
    ensures p >= 1
  {
    if k == 0 then 1 else 2 * Pow2(k - 1)
  }

  lemma Pow2Monotone(j: nat, k: nat)
    requires j <= k
    ensures Pow2(j) <= Pow2(k)
    decreases k
  {
    if j < k {
      Pow2Monotone(j, k - 1);
    }
  }

  /** `w >> k` */
  function Shr(w: nat, k: nat): (r: nat)
    ensures r <= w
  {
    if k == 0 then w else Shr(w / 2, k - 1)
  }

  /** Bit k of the word, as `(w >> k) & 1`. */
  predicate TestBit(w: nat, k: nat) {
    Shr(w, k) % 2 == 1
  }

  /** `w | (1 << k)` */
  function SetBit(w: nat, k: nat): nat {
    if k == 0 then (if w % 2 == 1 then w else w + 1) else 2 * SetBit(w / 2, k - 1) + w % 2
  }

  /** `w & ~(1 << k)` */
  function ClearBit(w: nat, k: nat): nat {
    if k == 0 then (if w % 2 == 1 then w - 1 else w) else 2 * ClearBit(w / 2, k - 1) + w % 2
  }

  lemma {:induction false} ShrStep(w: nat, k: nat)
    ensures Shr(w, k + 1) == Shr(w, k) / 2
  {
    if k > 0 {
      ShrStep(w / 2, k - 1);
    }
  }

  lemma {:induction false} BitSet(w: nat, k: nat, j: nat)
    ensures TestBit(SetBit(w, k), j) <==> j == k || TestBit(w, j)
  {
    if k > 0 && j > 0 {
      BitSet(w / 2, k - 1, j - 1);
      assert SetBit(w, k) / 2 == SetBit(w / 2, k - 1);
    } else if k == 0 && j > 0 {
      assert SetBit(w, 0) / 2 == w / 2;
    }
  }

  lemma {:induction false} BitCleared(w: nat, k: nat, j: nat)
    ensures TestBit(ClearBit(w, k), j) <==> j != k && TestBit(w, j)
  {
    if k > 0 && j > 0 {
      BitCleared(w / 2, k - 1, j - 1);
      assert ClearBit(w, k) / 2 == ClearBit(w / 2, k - 1);
    } else if k == 0 && j > 0 {
      assert ClearBit(w, 0) / 2 == w / 2;
    }
  }

  /** Setting and clearing bit k change what bit k reads and no other bit. */
  lemma BitUpdates(w: nat, k: nat, j: nat)
    ensures TestBit(SetBit(w, k), j) <==> j == k || TestBit(w, j)
    ensures TestBit(ClearBit(w, k), j) <==> j != k && TestBit(w, j)
  {
    BitSet(w, k, j);
    BitCleared(w, k, j);
  }

  /** A word of n bits stays one when a bit below n is set or any bit is cleared. */
  lemma {:induction false} BitUpdatesFit(w: nat, k: nat, n: nat)
    requires w < Pow2(n) && k < n
    ensures SetBit(w, k) < Pow2(n)
    ensures ClearBit(w, k) < Pow2(n)
  {
    if k > 0 {
      BitUpdatesFit(w / 2, k - 1, n - 1);
    }
  }

  /** What the scan loops rely on: a shifted word is zero exactly when no bit is left above. */
  lemma {:induction false} ShrZero(w: nat, k: nat, n: nat)
    requires w < Pow2(n)
    ensures Shr(w, k) == 0 <==> forall j :: k <= j < n ==> !TestBit(w, j)
    decreases n
  {
    if k >= n {
      ShrSmall(w, k, n);
    } else if k > 0 {
      ShrZero(w / 2, k - 1, n - 1);
      if Shr(w, k) == 0 {
        forall j | k <= j < n ensures !TestBit(w, j) {
          assert !TestBit(w / 2, j - 1);
        }
      } else {
        var j :| k - 1 <= j < n - 1 && TestBit(w / 2, j);
        assert TestBit(w, j + 1);
      }
    } else if w == 0 {
      forall j | 0 <= j < n ensures !TestBit(w, j) {
        ZeroBits(j);
      }
    } else if w % 2 == 1 {
      assert TestBit(w, 0);
    } else {
      ShrZero(w / 2, 0, n - 1);
      var j :| 0 <= j < n - 1 && TestBit(w / 2, j);
      assert TestBit(w, j + 1);
    }
  }

  lemma {:induction false} ShrSmall(w: nat, k: nat, n: nat)
    requires w < Pow2(n) && n <= k
    ensures Shr(w, k) == 0
    decreases k
  {
    if n > 0 {
      ShrSmall(w / 2, k - 1, n - 1);
    } else {
      ZeroBits(k);
    }
  }

  lemma {:induction false} ZeroBits(j: nat)
    ensures Shr(0, j) == 0
  {
    if j > 0 {
      ZeroBits(j - 1);
    }
  }

  /** A word is determined by its bits. */
  lemma {:induction false} SameBits(v: nat, w: nat, n: nat)
    requires v < Pow2(n) && w < Pow2(n)
    requires forall j :: 0 <= j < n ==> (TestBit(v, j) <==> TestBit(w, j))
    ensures v == w
  {
    if n > 0 {
      assert TestBit(v, 0) <==> TestBit(w, 0);
      forall j | 0 <= j < n - 1 ensures TestBit(v / 2, j) <==> TestBit(w / 2, j) {
        assert TestBit(v, j + 1) <==> TestBit(w, j + 1);
      }
      SameBits(v / 2, w / 2, n - 1);
    }
  }

  lemma WordIsPow2()
    ensures Pow2(32) == WORD
  {
    assert Pow2(8) == 256;
    assert Pow2(16) == 256 * Pow2(8);
    assert Pow2(24) == 256 * Pow2(16);
    assert Pow2(32) == 256 * Pow2(24);
  }
}
