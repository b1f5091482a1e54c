/**
 * What get_size_class computes on the default table: the bit arithmetic
 * of its octave branch picks exactly the first class from index 1 on
 * whose block holds the request, on every prefix of the table.
 */
module ClassifierProofs {
  import opened Config
  import opened Align
  import opened SizeClasses
  import opened TableShape

  /** The first index in [k, |t|) whose block holds `size`, or 0 if none does. */
  function FirstFitFrom(t: seq<SizeClass>, size: nat, k: nat): (i: nat)
    requires k >= 1
    decreases |t| - k
    ensures i != 0 ==> k <= i < |t| && t[i].blockSz >= size
    ensures i != 0 ==> forall j | k <= j < i :: t[j].blockSz < size
    ensures i == 0 ==> forall j | k <= j < |t| :: t[j].blockSz < size
  {
    if k >= |t| then 0
    else if t[k].blockSz >= size then k
    else FirstFitFrom(t, size, k + 1)
  }

  /**
   * The reference classifier: a linear search for the first class from
   * index 1 on that can hold `size`; 0 stands for "no class".
   */
  function FirstFit(t: seq<SizeClass>, size: nat): (i: nat)
    ensures i != 0 ==> 1 <= i < |t| && t[i].blockSz >= size
    ensures i != 0 ==> forall j | 1 <= j < i :: t[j].blockSz < size
    ensures i == 0 ==> forall j | 1 <= j < |t| :: t[j].blockSz < size
  {
    FirstFitFrom(t, size, 1)
  }

  lemma {:induction false} Pow2Monotone(a: nat, b: nat)
    requires a <= b
    ensures Pow2(a) <= Pow2(b)
    decreases b - a
  {
    if a < b {
      Pow2Monotone(a, b - 1);
    }
  }

  /** The first entry of octave m and the last entry of the octave below it. */
  lemma OctaveStart(m: nat)
    requires m >= 6
    ensures ClassUnits(4 * m + 41) == 5 * Pow2(m - 2)
    ensures ClassUnits(4 * m + 40) == 4 * Pow2(m - 2)
  {
    assert (4 * m + 41 - 41) / 4 == m && (4 * m + 41 - 41) % 4 == 0;
    if m == 6 {
      Pow2Values();
    } else {
      assert (4 * m + 40 - 41) / 4 == m - 1 && (4 * m + 40 - 41) % 4 == 3;
      assert Pow2(m - 2) == 2 * Pow2(m - 3);
    }
  }

  /** Entry 4m + s + 41 holds (5 + s) quarters of 2^m granules. */
  lemma OctaveEntry(m: nat, s: nat)
    requires m >= 6 && s < 4
    ensures s == 0 ==> ClassUnits(4 * m + s + 41) == 5 * Pow2(m - 2)
    ensures s == 1 ==> ClassUnits(4 * m + s + 41) == 6 * Pow2(m - 2)
    ensures s == 2 ==> ClassUnits(4 * m + s + 41) == 7 * Pow2(m - 2)
    ensures s == 3 ==> ClassUnits(4 * m + s + 41) == 8 * Pow2(m - 2)
  {
    assert (4 * m + s + 41 - 41) / 4 == m && (4 * m + s + 41 - 41) % 4 == s;
  }

  /** Entry 4m + s + 41 and the entry just below it, in quarters of 2^m. */
  lemma OctaveNeighbours(m: nat, s: nat)
    requires m >= 6 && s < 4
    ensures ClassUnits(4 * m + s + 41) == ClassUnits(4 * m + s + 40) + Pow2(m - 2)
    ensures ClassUnits(4 * m + s + 40) >= 4 * Pow2(m - 2)
  {
    OctaveEntry(m, s);
    if s == 0 {
      OctaveStart(m);
    } else {
      OctaveEntry(m, s - 1);
    }
  }

  /** Each class from index 1 on is strictly larger than the one before. */
  lemma UnitsStep(i: nat)
    requires i >= 1
    ensures ClassUnits(i) < ClassUnits(i + 1)
  {
    if i >= 64 {
      var m, s := (i + 1 - 41) / 4, (i + 1 - 41) % 4;
      assert i + 1 == 4 * m + s + 41;
      OctaveNeighbours(m, s);
    }
  }

  /** The closed form is strictly increasing from index 1 on. */
  lemma {:induction false} UnitsIncrease(i: nat, j: nat)
    requires 1 <= i < j
    ensures ClassUnits(i) < ClassUnits(j)
    decreases j - i
  {
    UnitsStep(j - 1);
    if i < j - 1 {
      UnitsIncrease(i, j - 1);
    }
  }

  /** The top set bit of v: 2^Msb(v) <= v < 2^(Msb(v) + 1). */
  lemma {:induction false} MsbBrackets(v: nat)
    requires v >= 1
    ensures Pow2(Msb(v)) <= v < Pow2(Msb(v) + 1)
  {
    if v > 1 {
      MsbBrackets(v / 2);
    }
  }

  /** Halving and then dividing by b is dividing by 2b. */
  lemma HalveThenDivide(v: nat, b: nat)
    requires b >= 1
    ensures v / 2 / b == v / (2 * b)
  {
    var q1, r1 := v / 2, v % 2;
    var q2, r2 := q1 / b, q1 % b;
    DivMod(q1, b);
    assert v == q2 * (2 * b) + (2 * r2 + r1) by {
      assert q1 == q2 * b + r2;
      assert 2 * (q2 * b) == q2 * (2 * b);
    }
    DivModUnique(v, 2 * b, q2, 2 * r2 + r1);
  }

  /** The shift of get_size_class is division by a power of two. */
  lemma {:induction false} ShiftRightIsDivision(v: nat, k: nat)
    ensures ShiftRight(v, k) == v / Pow2(k)
  {
    if k > 0 {
      ShiftRightIsDivision(v / 2, k - 1);
      HalveThenDivide(v, Pow2(k - 1));
    }
  }

  /** For 4p <= v < 8p, v lies in [q * p, (q + 1) * p) for q = v / p in [4, 8). */
  lemma QuotientInOctave(v: nat, p: nat)
    requires p >= 1 && 4 * p <= v < 8 * p
    ensures 4 <= v / p < 8
    ensures v / p == 4 ==> 4 * p <= v < 5 * p
    ensures v / p == 5 ==> 5 * p <= v < 6 * p
    ensures v / p == 6 ==> 6 * p <= v < 7 * p
    ensures v / p == 7 ==> 7 * p <= v < 8 * p
  {
    var q := v / p;
    DivMod(v, p);
    if q < 4 {
      MulMonotone(q, 3, p);
    } else if q >= 8 {
      MulMonotone(8, q, p);
    }
  }

  /**
   * v lies in quarter q of octave m: with p = 2^(m-2) and q = v >> (m-2),
   * q is one of 4..7 and v is in [q * p, (q + 1) * p).
   */
  ghost predicate InQuarter(v: nat, m: nat)
    requires m >= 2
  {
    var p, q := Pow2(m - 2), ShiftRight(v, m - 2);
    && 4 <= q < 8
    && (q == 4 ==> 4 * p <= v < 5 * p)
    && (q == 5 ==> 5 * p <= v < 6 * p)
    && (q == 6 ==> 6 * p <= v < 7 * p)
    && (q == 7 ==> 7 * p <= v < 8 * p)
  }

  /**
   * The octave branch: with m the top bit of v >= 64 and q the three bits
   * from the top one down, v lies in [q * 2^(m-2), (q + 1) * 2^(m-2)).
   */
  lemma OctaveBounds(v: nat)
    requires v >= 64
    ensures Msb(v) >= 6
    ensures InQuarter(v, Msb(v))
  {
    var m := OctaveOf(v);
    QuarterOf(v, m);
  }

  /** A value in [4 * 2^(m-2), 8 * 2^(m-2)) lies in the quarter its shift by m - 2 selects. */
  lemma QuarterOf(v: nat, m: nat)
    requires m >= 2 && 4 * Pow2(m - 2) <= v < 8 * Pow2(m - 2)
    ensures InQuarter(v, m)
  {
    QuotientInOctave(v, Pow2(m - 2));
    ShiftRightIsDivision(v, m - 2);
  }

  /** The top bit of v >= 64 is at least 6, and v lies in [4 * 2^(m-2), 8 * 2^(m-2)). */
  lemma OctaveOf(v: nat) returns (m: nat)
    requires v >= 64
    ensures m == Msb(v) >= 6
    ensures 4 * Pow2(m - 2) <= v < 8 * Pow2(m - 2)
  {
    m := Msb(v);
    MsbBrackets(v);
    assert m >= 6 by {
      if m < 6 {
        Pow2Values();
        Pow2Monotone(m + 1, 6);
      }
    }
    var p := Pow2(m - 2);
    assert Pow2(m - 1) == 2 * p;
    assert Pow2(m) == 2 * Pow2(m - 1);
    assert Pow2(m + 1) == 2 * Pow2(m);
  }

  /**
   * The octave formula brackets its input: for v >= 64 the index it
   * computes holds more than v granules and the index below it at most v.
   */
  lemma OctaveIndexBrackets(v: nat)
    requires v >= 64
    ensures Msb(v) >= 6 && OctaveIndex(v, Msb(v)) >= 65
    ensures ClassUnits(OctaveIndex(v, Msb(v)) - 1) <= v < ClassUnits(OctaveIndex(v, Msb(v)))
  {
    OctaveBounds(v);
    IndexBracketsAt(v, Msb(v));
  }

  /** OctaveIndexBrackets for a given top bit m, once v is known to lie in octave m. */
  lemma IndexBracketsAt(v: nat, m: nat)
    requires m >= 6 && InQuarter(v, m)
    ensures OctaveIndex(v, m) >= 65
    ensures ClassUnits(OctaveIndex(v, m) - 1) <= v < ClassUnits(OctaveIndex(v, m))
  {
    var s := ShiftRight(v, m - 2) - 4;
    assert OctaveIndex(v, m) == 4 * m + s + 41;
    OctaveEntry(m, s);
    OctaveNeighbours(m, s);
  }

  /** A table whose entries follow the closed form, as every prefix of the default one does. */
  ghost predicate Shaped(t: seq<SizeClass>)
  {
    && |t| <= DEFAULT_COUNT
    && forall i {:trigger ClassUnits(i)} | 0 <= i < |t| :: t[i].blockSz == SMALL_GRANULARITY * ClassUnits(i)
  }

  lemma PrefixShaped(k: nat)
    requires k <= DEFAULT_COUNT
    ensures Shaped(DefaultTable[..k])
  {
    DefaultTableShape();
  }

  /** Every entry from index 1 up to c - 1 misses a request that entry c - 1 misses. */
  lemma BelowAllMiss(t: seq<SizeClass>, c: nat, size: nat)
    requires Shaped(t) && c >= 2
    requires SMALL_GRANULARITY * ClassUnits(c - 1) < size
    ensures forall j | 1 <= j < c && j < |t| :: t[j].blockSz < size
  {
    forall j | 1 <= j < c && j < |t|
      ensures t[j].blockSz < size
    {
      if j < c - 1 {
        UnitsIncrease(j, c - 1);
      }
    }
  }

  /** Requests of at most 1 KiB: the exact band answers ceil(size / 16) or 0. */
  lemma ExactBandIsFirstFit(t: seq<SizeClass>, size: nat)
    requires Shaped(t) && 1 <= size <= EXACT_BAND_LIMIT
    ensures Classify(t, size) == FirstFit(t, size)
    ensures Classify(t, size) == (if MinBlockCount(size) < |t| then MinBlockCount(size) else 0)
  {
    var b := MinBlockCount(size);
    forall j | 1 <= j < b && j < |t|
      ensures t[j].blockSz < size
    {
      assert ClassUnits(j) == j;
    }
    if b < |t| {
      assert ClassUnits(b) == b;
    }
  }

  /** The octave branch of get_size_class, unfolded for a request that does not wrap. */
  lemma ClassifyOctaveBranch(t: seq<SizeClass>, size: nat, v: nat, m: nat, c: nat)
    requires EXACT_BAND_LIMIT < size
    requires size + SMALL_GRANULARITY - 1 <= SIZE_MAX
    requires v == MinBlockCount(size) - 1 && m == Msb(v) >= 6
    requires c == OctaveIndex(v, m)
    ensures Classify(t, size) == CheckedClass(t, size, c)
  {
    assert MinBlockCount(size) >= 65;
  }

  /** Requests above 1 KiB whose rounding does not wrap: the octave band. */
  lemma OctaveBandIsFirstFit(t: seq<SizeClass>, size: nat)
    requires Shaped(t) && EXACT_BAND_LIMIT < size
    requires size + SMALL_GRANULARITY - 1 <= SIZE_MAX
    ensures Classify(t, size) == FirstFit(t, size)
  {
    var v, c := OctaveChoice(size);
    ClassifyOctaveBranch(t, size, v, Msb(v), c);
    BracketedIsFirstFit(t, size, v, c);
  }

  /**
   * The index the octave branch computes for a request above 1 KiB that
   * does not wrap: c = OctaveIndex(v, Msb(v)) brackets v = ceil(size / 16) - 1.
   */
  lemma OctaveChoice(size: nat) returns (v: nat, c: nat)
    requires EXACT_BAND_LIMIT < size
    requires size + SMALL_GRANULARITY - 1 <= SIZE_MAX
    ensures v + 1 == MinBlockCount(size) && Msb(v) >= 6 && c == OctaveIndex(v, Msb(v))
    ensures c >= 65 && ClassUnits(c - 1) <= v < ClassUnits(c)
  {
    var b := MinBlockCount(size);
    assert b >= 65;
    v := b - 1;
    OctaveIndexBrackets(v);
    c := OctaveIndex(v, Msb(v));
  }

  /**
   * The checks after the octave formula: an index c whose class holds
   * ceil(size / 16) granules while the class below holds fewer is the
   * first fit when it is in the table, and no class fits otherwise.
   */
  lemma BracketedIsFirstFit(t: seq<SizeClass>, size: nat, v: nat, c: nat)
    requires Shaped(t) && c >= 65
    requires size + SMALL_GRANULARITY - 1 <= SIZE_MAX && v + 1 == MinBlockCount(size)
    requires ClassUnits(c - 1) <= v < ClassUnits(c)
    requires Classify(t, size) == CheckedClass(t, size, c)
    ensures Classify(t, size) == FirstFit(t, size)
  {
    BelowAllMiss(t, c, size);
    if c < |t| {
      assert t[c].blockSz >= size;
    }
  }

  /** The fifteen largest sizes, whose rounding wraps: no class is large enough. */
  lemma WrappedSizeFitsNothing(t: seq<SizeClass>, size: nat)
    requires Shaped(t) && size <= SIZE_MAX < size + SMALL_GRANULARITY - 1
    ensures Classify(t, size) == 0 == FirstFit(t, size)
  {
    assert ClassUnits(DEFAULT_COUNT - 1) == 524288 by {
      Pow2Values();
    }
    forall j | 1 <= j < |t|
      ensures t[j].blockSz < size
    {
      if j < DEFAULT_COUNT - 1 {
        UnitsIncrease(j, DEFAULT_COUNT - 1);
      }
    }
  }

  /**
   * get_size_class against the linear search: on every prefix of the
   * default table and for every non-zero size_t request, the closed form
   * returns the first class from index 1 on whose block holds the request,
   * and 0 exactly when no class does.
   */
  lemma ClassifyIsFirstFit(k: nat, size: nat)
    requires k <= DEFAULT_COUNT && 1 <= size <= SIZE_MAX
    ensures Classify(DefaultTable[..k], size) == FirstFit(DefaultTable[..k], size)
  {
    var t := DefaultTable[..k];
    PrefixShaped(k);
    if size <= EXACT_BAND_LIMIT {
      ExactBandIsFirstFit(t, size);
    } else if size + SMALL_GRANULARITY - 1 <= SIZE_MAX {
      OctaveBandIsFirstFit(t, size);
    } else {
      WrappedSizeFitsNothing(t, size);
    }
  }

  /** Up to 1 KiB a prefix of the default table answers the exact class ceil(size / 16). */
  lemma ExactBandClass(k: nat, size: nat)
    requires k <= DEFAULT_COUNT && 1 <= size <= EXACT_BAND_LIMIT
    ensures var cls := Classify(DefaultTable[..k], size);
      cls == (if MinBlockCount(size) < k then MinBlockCount(size) else 0) &&
      (cls != 0 ==> SMALL_GRANULARITY * (cls - 1) < size <= SMALL_GRANULARITY * cls)
  {
    PrefixShaped(k);
    ExactBandIsFirstFit(DefaultTable[..k], size);
  }

  /** Neighbouring octave classes differ by at most a quarter of the larger one. */
  lemma UnitsRatio(c: nat)
    requires c >= 65
    ensures 4 * ClassUnits(c) <= 5 * ClassUnits(c - 1)
  {
    var m, s := (c - 41) / 4, (c - 41) % 4;
    assert c == 4 * m + s + 41;
    OctaveNeighbours(m, s);
  }

  /**
   * Over-allocation above 1 KiB is bounded: on a table that follows the
   * closed form, as every prefix of the default one does, the class
   * get_size_class picks is less than 5/4 of the request, because the
   * class below it was too small and neighbouring classes differ by at
   * most a quarter.
   */
  lemma OctaveWasteBound(t: seq<SizeClass>, size: nat)
    requires Shaped(t) && EXACT_BAND_LIMIT < size <= SIZE_MAX
    requires Classify(t, size) != 0
    ensures 4 * t[Classify(t, size)].blockSz < 5 * size
  {
    ClassBrackets(t, size);
    ShapedWasteBound(t, size, Classify(t, size));
  }

  /** What the checks of get_size_class guarantee about an answer above 1 KiB. */
  lemma ClassBrackets(t: seq<SizeClass>, size: nat)
    requires EXACT_BAND_LIMIT < size <= SIZE_MAX && Classify(t, size) != 0
    ensures var c := Classify(t, size);
      1 <= c < |t| && t[c - 1].blockSz < size <= t[c].blockSz
  {
  }

  /** The waste bound for a class whose block holds the request while the one below does not. */
  lemma ShapedWasteBound(t: seq<SizeClass>, size: nat, c: nat)
    requires Shaped(t) && EXACT_BAND_LIMIT < size
    requires 1 <= c < |t| && t[c - 1].blockSz < size <= t[c].blockSz
    ensures 4 * t[c].blockSz < 5 * size
  {
    assert t[c].blockSz == SMALL_GRANULARITY * ClassUnits(c);
    assert t[c - 1].blockSz == SMALL_GRANULARITY * ClassUnits(c - 1);
    AboveExactBand(c, size);
    UnitsRatio(c);
  }

  /** A class whose block exceeds 1 KiB lies in the octave band. */
  lemma AboveExactBand(c: nat, size: nat)
    requires EXACT_BAND_LIMIT < size <= SMALL_GRANULARITY * ClassUnits(c)
    ensures c >= 65
  {
  }
}
