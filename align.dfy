/**
 * Alignment helpers shared by the allocator: ALIGN_UP, ALIGN_DOWN,
 * IS_ALIGNED and IS_POWER_OF_2, and the page size the decommit and
 * zero-fill paths round to.
 *
 * The macros live in a header that is not part of this model; they are
 * defined here as the usual rounding to a multiple of a power-of-two
 * alignment (for such an alignment `(x + a - 1) & ~(a - 1)` is exactly
 * the next multiple of `a`, and `x & ~(a - 1)` the previous one).
 */
module Align {

  /** PAGE_SIZE: the 4096-byte fallback of lgmalloc_features.h. */
  const PAGE_SIZE: nat := 4096

  function Pow2(k: nat): (r: nat)
    ensures r >= 1
  {
    if k == 0 then 1 else 2 * Pow2(k - 1)
  }

  /** IS_POWER_OF_2: a positive value with a single bit set. */
  predicate IsPowerOf2(x: nat)
    decreases x
  {
    x == 1 || (x >= 2 && x % 2 == 0 && IsPowerOf2(x / 2))
  }

  /** IS_ALIGNED */
  predicate IsAligned(x: nat, a: nat)
    requires a > 0
  {
    x % a == 0
  }

  /** ALIGN_UP (and ALIGN_UP_TYPED, ALIGN_PTR_UP): the next multiple of `a`. */
  function AlignUp(x: nat, a: nat): (r: nat)
    requires IsPowerOf2(a)
    ensures IsAligned(r, a)
    ensures x <= r < x + a
  {
    var q := (x + a - 1) / a;
    DivMod(x + a - 1, a);
    MulIsAligned(q, a);
    q * a
  }

  /** ALIGN_DOWN: the previous multiple of `a`. */
  function AlignDown(x: nat, a: nat): (r: nat)
    requires IsPowerOf2(a)
    ensures IsAligned(r, a)
    ensures r <= x < r + a
  {
    var q := x / a;
    DivMod(x, a);
    MulIsAligned(q, a);
    q * a
  }

  lemma {:induction false} PowersOf2AreIsPowerOf2(k: nat)
    ensures IsPowerOf2(Pow2(k))
  {
    if k > 0 {
      PowersOf2AreIsPowerOf2(k - 1);
      assert Pow2(k) / 2 == Pow2(k - 1);
    }
  }

  lemma {:induction false} IsPowerOf2IsPow2(x: nat)
    requires IsPowerOf2(x)
    ensures exists k: nat :: Pow2(k) == x
  {
    if x == 1 {
      assert Pow2(0) == x;
    } else {
      IsPowerOf2IsPow2(x / 2);
      var k: nat :| Pow2(k) == x / 2;
      assert Pow2(k + 1) == x;
    }
  }

  /** A multiple of `a` lies at or above ALIGN_UP(x, a) as soon as it is at least x. */
  lemma AlignUpIsLeast(x: nat, a: nat, y: nat)
    requires IsPowerOf2(a)
    requires IsAligned(y, a) && x <= y
    ensures AlignUp(x, a) <= y
  {
    var r := AlignUp(x, a);
    if y < r {
      MultiplesAreSpaced(y, r, a);
    }
  }

  /** A multiple of `a` lies at or below ALIGN_DOWN(x, a) as soon as it is at most x. */
  lemma AlignDownIsGreatest(x: nat, a: nat, y: nat)
    requires IsPowerOf2(a)
    requires IsAligned(y, a) && y <= x
    ensures y <= AlignDown(x, a)
  {
    var r := AlignDown(x, a);
    if r < y {
      MultiplesAreSpaced(r, y, a);
    }
  }

  /** Two distinct multiples of `a` are at least `a` apart. */
  lemma MultiplesAreSpaced(lo: nat, hi: nat, a: nat)
    requires a > 0 && lo % a == 0 && hi % a == 0 && lo < hi
    ensures lo + a <= hi
  {
    var p, q := lo / a, hi / a;
    assert lo == p * a && hi == q * a;
    if q <= p {
      MulMonotone(q, p, a);
    } else {
      MulMonotone(p + 1, q, a);
    }
  }

  lemma DivMod(n: nat, a: nat)
    requires a > 0
    ensures n == n / a * a + n % a && 0 <= n % a < a && 0 <= n / a
  {
  }

  lemma MulIsAligned(q: nat, a: nat)
    requires a > 0
    ensures (q * a) % a == 0
  {
    DivModUnique(q * a, a, q, 0);
  }

  lemma DivModUnique(n: nat, a: nat, q: nat, r: nat)
    requires a > 0 && r < a && n == q * a + r
    ensures n / a == q && n % a == r
  {
    var q', r' := n / a, n % a;
    DivMod(n, a);
    if q' < q {
      MulMonotone(q' + 1, q, a);
    } else if q < q' {
      MulMonotone(q + 1, q', a);
    }
  }

  lemma MulMonotone(x: nat, y: nat, a: nat)
    requires x <= y
    ensures x * a <= y * a
  {
  }

  /**
   * The self-check of init.c and tests.c: the values ALIGN_UP, ALIGN_DOWN,
   * ALIGN_UP_TYPED, ALIGN_PTR_UP and IS_POWER_OF_2 must produce.
   */
  lemma VerifyAlignMacros()
    ensures IsPowerOf2(8) && IsPowerOf2(16) && IsPowerOf2(PAGE_SIZE) && !IsPowerOf2(15)
    ensures AlignUp(15, 8) == 16 && AlignUp(16, 8) == 16 && AlignUp(17, 8) == 24
    ensures AlignDown(15, 8) == 8 && AlignDown(16, 8) == 16 && AlignDown(17, 8) == 16
    ensures forall buffer: nat :: IsAligned(AlignUp(buffer, 16), 16)
    ensures AlignUp(100, 64) == 128
    ensures AlignUp(0, 8) == 0 && AlignDown(0, 8) == 0
  {
    AlignmentsArePowersOf2();
  }

  /** The alignments the self-check uses are powers of two. */
  lemma AlignmentsArePowersOf2()
    ensures IsPowerOf2(8) && IsPowerOf2(16) && IsPowerOf2(64) && IsPowerOf2(PAGE_SIZE)
  {
    PowersOf2AreIsPowerOf2(12);
    assert Pow2(12) == PAGE_SIZE;
  }
}
