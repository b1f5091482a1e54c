/**
 * What the run-once cleanup of the size-class table leaves behind. Filter
 * is the order-preserving selection SizeClassTable.Clean computes in place; the
 * lemmas here say which entries it keeps, that a second pass changes
 * nothing, and what the built table is under the evidently intended
 * test and under the test its loop actually performs.
 */
module CleanupProofs {
  import opened Config
  import opened Align
  import opened SizeClasses
  import opened TableShape
  import opened ClassifierProofs

  /** The number of default classes whose block is below the mmap threshold (indices 0..99). */
  const CLASSES_BELOW_THRESHOLD: nat := 100

  /** The block of class 99, the largest default class below the mmap threshold. */
  const LARGEST_BELOW_THRESHOLD: nat := 458752

  /** Selecting from a concatenation selects from each part, in order. */
  lemma {:induction false} FilterAppend(a: seq<SizeClass>, b: seq<SizeClass>, keep: SizeClass -> bool)
    ensures Filter(a + b, keep) == Filter(a, keep) + Filter(b, keep)
    decreases |b|
  {
    if b == [] {
      assert a + b == a;
    } else {
      var init := b[..|b| - 1];
      assert (a + b)[..|a + b| - 1] == a + init;
      assert (a + b)[|a + b| - 1] == b[|b| - 1];
      FilterAppend(a, init, keep);
    }
  }

  /** The selection holds exactly the entries of `s` that pass `keep`. */
  lemma {:induction false} FilterMembers(s: seq<SizeClass>, keep: SizeClass -> bool)
    ensures forall x | x in Filter(s, keep) :: x in s && keep(x)
    ensures forall x | x in s && keep(x) :: x in Filter(s, keep)
    decreases |s|
  {
    if s != [] {
      var init := s[..|s| - 1];
      FilterMembers(init, keep);
      assert s == init + [s[|s| - 1]];
    }
  }

  /** When every entry passes, nothing is removed. */
  lemma {:induction false} FilterKeepsAll(s: seq<SizeClass>, keep: SizeClass -> bool)
    requires forall i | 0 <= i < |s| :: keep(s[i])
    ensures Filter(s, keep) == s
    decreases |s|
  {
    if s != [] {
      var init := s[..|s| - 1];
      assert forall i | 0 <= i < |init| :: init[i] == s[i];
      FilterKeepsAll(init, keep);
      assert s == init + [s[|s| - 1]];
    }
  }

  /** When no entry passes, everything is removed. */
  lemma {:induction false} FilterDropsAll(s: seq<SizeClass>, keep: SizeClass -> bool)
    requires forall i | 0 <= i < |s| :: !keep(s[i])
    ensures Filter(s, keep) == []
    decreases |s|
  {
    if s != [] {
      var init := s[..|s| - 1];
      assert forall i | 0 <= i < |init| :: init[i] == s[i];
      FilterDropsAll(init, keep);
    }
  }

  /** Running the cleanup a second time changes nothing. */
  lemma FilterIdempotent(s: seq<SizeClass>, keep: SizeClass -> bool)
    ensures Filter(Filter(s, keep), keep) == Filter(s, keep)
  {
    var r := Filter(s, keep);
    FilterMembers(s, keep);
    assert forall i | 0 <= i < |r| :: r[i] in r;
    FilterKeepsAll(r, keep);
  }

  /**
   * On a table that follows the closed form, the classes below index 100
   * are under the mmap threshold, class 100 is exactly at it (524288
   * bytes) and the classes after it are above it.
   */
  lemma ThresholdSplit(t: seq<SizeClass>)
    requires Shaped(t)
    ensures forall i | 0 <= i < |t| && i < 100 :: t[i].blockSz < MMAP_THRESHOLD
    ensures 100 < |t| ==> t[100].blockSz == MMAP_THRESHOLD
    ensures forall i | 100 < i < |t| :: t[i].blockSz > MMAP_THRESHOLD
  {
    assert ClassUnits(100) == 32768 && ClassUnits(101) == 40960 by {
      Pow2Values();
    }
    forall i | 0 <= i < |t|
      ensures i < 100 ==> t[i].blockSz < MMAP_THRESHOLD
      ensures i > 100 ==> t[i].blockSz > MMAP_THRESHOLD
    {
      assert t[i].blockSz == SMALL_GRANULARITY * ClassUnits(i);
      if 1 <= i < 100 {
        UnitsIncrease(i, 100);
      } else if i > 101 {
        UnitsIncrease(101, i);
      }
    }
  }

  /** On a full table that follows the closed form, the intended test keeps classes 0..99. */
  lemma ShapedCleanup(t: seq<SizeClass>)
    requires Shaped(t) && |t| == DEFAULT_COUNT
    ensures Filter(t, KeepBelowThreshold) == t[..CLASSES_BELOW_THRESHOLD]
  {
    ThresholdSplit(t);
    var lo, hi := t[..CLASSES_BELOW_THRESHOLD], t[CLASSES_BELOW_THRESHOLD..];
    assert t == lo + hi;
    FilterAppend(lo, hi, KeepBelowThreshold);
    FilterKeepsAll(lo, KeepBelowThreshold);
    FilterDropsAll(hi, KeepBelowThreshold);
  }

  /** On a full table that follows the closed form, the test as written keeps classes 100..116. */
  lemma ShapedCleanupAsWritten(t: seq<SizeClass>)
    requires Shaped(t) && |t| == DEFAULT_COUNT
    ensures Filter(t, KeepAsWritten) == t[CLASSES_BELOW_THRESHOLD..]
  {
    ThresholdSplit(t);
    var lo, hi := t[..CLASSES_BELOW_THRESHOLD], t[CLASSES_BELOW_THRESHOLD..];
    assert t == lo + hi;
    FilterAppend(lo, hi, KeepAsWritten);
    FilterDropsAll(lo, KeepAsWritten);
    FilterKeepsAll(hi, KeepAsWritten);
  }

  /** The full default table follows the closed form. */
  lemma DefaultShaped()
    ensures Shaped(DefaultTable) && |DefaultTable| == DEFAULT_COUNT
  {
    PrefixShaped(DEFAULT_COUNT);
    DefaultTableLength();
    assert DefaultTable[..DEFAULT_COUNT] == DefaultTable;
  }

  /** The built table: the default classes below the mmap threshold, in order. */
  lemma BuiltTableIsPrefix()
    ensures |DefaultTable| == DEFAULT_COUNT
    ensures BuiltTable() == DefaultTable[..CLASSES_BELOW_THRESHOLD]
  {
    DefaultShaped();
    ShapedCleanup(DefaultTable);
  }

  /**
   * get_size_class on the built table: it is the first class from index 1
   * on whose block holds the request; one exists exactly for the requests
   * up to 458752 bytes, and every request at or above the mmap threshold
   * answers 0, leaving it to the dedicated mapping.
   */
  lemma BuiltTableClassify(size: nat)
    requires 1 <= size <= SIZE_MAX
    ensures Classify(BuiltTable(), size) == FirstFit(BuiltTable(), size)
    ensures Classify(BuiltTable(), size) != 0 <==> size <= LARGEST_BELOW_THRESHOLD
    ensures size >= MMAP_THRESHOLD ==> Classify(BuiltTable(), size) == 0
  {
    BuiltTableIsPrefix();
    ClassifyIsFirstFit(CLASSES_BELOW_THRESHOLD, size);
    PrefixShaped(CLASSES_BELOW_THRESHOLD);
    FirstFitBelowThreshold(DefaultTable[..CLASSES_BELOW_THRESHOLD], size);
  }

  /**
   * On the 100 closed-form classes below the threshold some class from
   * index 1 on holds the request exactly when the request is at most the
   * largest of them, 458752 bytes.
   */
  lemma FirstFitBelowThreshold(t: seq<SizeClass>, size: nat)
    requires Shaped(t) && |t| == CLASSES_BELOW_THRESHOLD && 1 <= size
    ensures FirstFit(t, size) != 0 <==> size <= LARGEST_BELOW_THRESHOLD
  {
    assert ClassUnits(99) == 28672 by {
      Pow2Values();
    }
    assert t[99].blockSz == LARGEST_BELOW_THRESHOLD;
    forall j | 1 <= j < CLASSES_BELOW_THRESHOLD
      ensures t[j].blockSz <= LARGEST_BELOW_THRESHOLD
    {
      if j < 99 {
        UnitsIncrease(j, 99);
      }
    }
  }

  /** What the thread's table holds once built with the loop's test as written. */
  function AsWrittenTable(): (t: seq<SizeClass>)
    ensures |t| <= DEFAULT_COUNT
  {
    DefaultTableLength();
    BuiltWith(KeepAsWritten)
  }

  /** The test as written keeps the seventeen largest classes, from 524288 bytes up. */
  lemma AsWrittenTableIsTail()
    ensures |DefaultTable| == DEFAULT_COUNT
    ensures AsWrittenTable() == DefaultTable[CLASSES_BELOW_THRESHOLD..]
    ensures |AsWrittenTable()| == 17
    ensures forall j | 0 <= j < 17 :: AsWrittenTable()[j].blockSz >= MMAP_THRESHOLD
  {
    DefaultShaped();
    ShapedCleanupAsWritten(DefaultTable);
    FilterMembers(DefaultTable, KeepAsWritten);
    var t := AsWrittenTable();
    assert forall j | 0 <= j < 17 :: t[j] in t;
  }

  /**
   * A table of seventeen classes none smaller than 640 KiB: only the
   * requests of at most 256 bytes find a class, and the class they find
   * holds at least 640 KiB.
   */
  lemma LargeOnlyClassify(t: seq<SizeClass>, size: nat)
    requires |t| == 17 && forall j | 1 <= j < 17 :: t[j].blockSz >= 655360
    requires 1 <= size <= SIZE_MAX
    ensures Classify(t, size) != 0 <==> size <= 256
    ensures Classify(t, size) != 0 ==> t[Classify(t, size)].blockSz >= 655360
  {
    if EXACT_BAND_LIMIT < size {
      ShortTableMissesOctaves(t, size);
    }
  }

  /** A table of at most 65 classes answers 0 to every request above 1 KiB. */
  lemma ShortTableMissesOctaves(t: seq<SizeClass>, size: nat)
    requires |t| <= 65 && EXACT_BAND_LIMIT < size <= SIZE_MAX
    ensures Classify(t, size) == 0
  {
    var b := MinBlockCount(size);
    var v := if b >= 1 then b - 1 else SIZE_MAX;
    assert v >= 64;
    OctaveIndexBrackets(v);
  }

  /**
   * The cleanup as written leaves a table on which a 16-byte request is
   * given a 640 KiB class and a 257-byte request none at all.
   */
  lemma AsWrittenMisclassifies()
    ensures Classify(AsWrittenTable(), 16) == 1
    ensures AsWrittenTable()[1].blockSz == 655360
    ensures Classify(AsWrittenTable(), 257) == 0
  {
    AsWrittenTableIsTail();
    var t := AsWrittenTable();
    assert t[1] == DefaultTable[101];
    DefaultShaped();
    assert ClassUnits(101) == 40960 by {
      Pow2Values();
    }
    forall j | 1 <= j < 17
      ensures t[j].blockSz >= 655360
    {
      assert t[j] == DefaultTable[100 + j];
      if j > 1 {
        UnitsIncrease(101, 100 + j);
      }
    }
    LargeOnlyClassify(t, 16);
    LargeOnlyClassify(t, 257);
  }
}
