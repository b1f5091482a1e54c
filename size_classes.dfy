/**
 * The per-thread size-class table of internal_headers/lgmalloc_size_classes.h:
 * the (block size, blocks per chunk) pairs, the run-once cleanup that
 * compacts the table in place, and the closed-form classifier
 * get_size_class.
 */
module SizeClasses {
  import opened Config
  import opened Align

  /** size_class_t */
  datatype SizeClass = SizeClass(blockSz: nat, blockCnt: nat)

  /** The all-zero entry the cleanup leaves behind the compacted classes. */
  const EMPTY_CLASS: SizeClass := SizeClass(0, 0)

  const CHUNK_HEADER_SIZE: nat := 128
  const SEGMENT_HEADER_SIZE: nat := 128
  const SMALL_GRANULARITY: nat := 16

  /** 1 << 16, 1 << 22 and 1 << 26 bytes. */
  const SMALL_CHUNK_SIZE: nat := 65536
  const MEDIUM_CHUNK_SIZE: nat := 4194304
  const LARGE_CHUNK_SIZE: nat := 67108864

  /** The largest request served from the exact band: 64 granules (1 KiB). */
  const EXACT_BAND_LIMIT: nat := SMALL_GRANULARITY * 64

  /** sizeof(__size_classes_g) / sizeof(size_class_t) */
  const DEFAULT_COUNT: nat := 117

  /**
   * LGMALLOC_{SMALL,MEDIUM,LARGE}_CLASS(n): blocks of n granules, as many
   * of them as fit in a chunk of the tier after its header.
   */
  function ClassIn(chunkSize: nat, n: nat): (c: SizeClass)
    requires n >= 1 && chunkSize >= CHUNK_HEADER_SIZE
    ensures c.blockSz == n * SMALL_GRANULARITY
    ensures c.blockCnt * c.blockSz <= chunkSize - CHUNK_HEADER_SIZE
    ensures chunkSize - CHUNK_HEADER_SIZE < (c.blockCnt + 1) * c.blockSz
  {
    var sz := n * SMALL_GRANULARITY;
    DivMod(chunkSize - CHUNK_HEADER_SIZE, sz);
    SizeClass(sz, (chunkSize - CHUNK_HEADER_SIZE) / sz)
  }

  function SmallClass(n: nat): SizeClass
    requires n >= 1
  {
    ClassIn(SMALL_CHUNK_SIZE, n)
  }

  function MediumClass(n: nat): SizeClass
    requires n >= 1
  {
    ClassIn(MEDIUM_CHUNK_SIZE, n)
  }

  function LargeClass(n: nat): SizeClass
    requires n >= 1
  {
    ClassIn(LARGE_CHUNK_SIZE, n)
  }

  // The initialiser of __size_classes_g, entry by entry. It is written as
  // five literals, split where the chunk tier or the spacing changes, and
  // DefaultTable is their concatenation.

  /** indices 0..32: entry 0 repeats the 16-byte class */
  const SmallExactLow: seq<SizeClass> := [
      SmallClass(1), SmallClass(1), SmallClass(2), SmallClass(3),
      SmallClass(4), SmallClass(5), SmallClass(6), SmallClass(7),
      SmallClass(8), SmallClass(9), SmallClass(10), SmallClass(11),
      SmallClass(12), SmallClass(13), SmallClass(14), SmallClass(15),
      SmallClass(16), SmallClass(17), SmallClass(18), SmallClass(19),
      SmallClass(20), SmallClass(21), SmallClass(22), SmallClass(23),
      SmallClass(24), SmallClass(25), SmallClass(26), SmallClass(27),
      SmallClass(28), SmallClass(29), SmallClass(30), SmallClass(31),
      SmallClass(32)
    ]

  /** indices 33..64: one class per 16-byte step up to 1 KiB */
  const SmallExactHigh: seq<SizeClass> := [
      SmallClass(33), SmallClass(34), SmallClass(35), SmallClass(36),
      SmallClass(37), SmallClass(38), SmallClass(39), SmallClass(40),
      SmallClass(41), SmallClass(42), SmallClass(43), SmallClass(44),
      SmallClass(45), SmallClass(46), SmallClass(47), SmallClass(48),
      SmallClass(49), SmallClass(50), SmallClass(51), SmallClass(52),
      SmallClass(53), SmallClass(54), SmallClass(55), SmallClass(56),
      SmallClass(57), SmallClass(58), SmallClass(59), SmallClass(60),
      SmallClass(61), SmallClass(62), SmallClass(63), SmallClass(64)
    ]

  /** indices 65..72: small-chunk octaves, four classes each */
  const SmallOctaves: seq<SizeClass> := [
      SmallClass(80), SmallClass(96), SmallClass(112), SmallClass(128),
      SmallClass(160), SmallClass(192), SmallClass(224), SmallClass(256)
    ]

  /** indices 73..96: medium-chunk octaves */
  const MediumOctaves: seq<SizeClass> := [
      MediumClass(320), MediumClass(384), MediumClass(448), MediumClass(512),
      MediumClass(640), MediumClass(768), MediumClass(896), MediumClass(1024),
      MediumClass(1280), MediumClass(1536), MediumClass(1792), MediumClass(2048),
      MediumClass(2560), MediumClass(3072), MediumClass(3584), MediumClass(4096),
      MediumClass(5120), MediumClass(6144), MediumClass(7168), MediumClass(8192),
      MediumClass(10240), MediumClass(12288), MediumClass(14336), MediumClass(16384)
    ]

  /** indices 97..116: large-chunk octaves */
  const LargeOctaves: seq<SizeClass> := [
      LargeClass(20480), LargeClass(24576), LargeClass(28672), LargeClass(32768),
      LargeClass(40960), LargeClass(49152), LargeClass(57344), LargeClass(65536),
      LargeClass(81920), LargeClass(98304), LargeClass(114688), LargeClass(131072),
      LargeClass(163840), LargeClass(196608), LargeClass(229376), LargeClass(262144),
      LargeClass(327680), LargeClass(393216), LargeClass(458752), LargeClass(524288)
    ]

  /** The initial contents of __size_classes_g. */
  const DefaultTable: seq<SizeClass> :=
    SmallExactLow + SmallExactHigh + SmallOctaves + MediumOctaves + LargeOctaves

  /** The test of the cleanup loop as written: an entry is KEPT when its block is at or above the threshold. */
  predicate KeepAsWritten(c: SizeClass)
  {
    c.blockSz >= MMAP_THRESHOLD
  }

  /**
   * The evidently intended test: an entry is kept when its block is below
   * the mmap threshold, since requests at or above it are served by a
   * dedicated mapping.
   */
  predicate KeepBelowThreshold(c: SizeClass)
  {
    c.blockSz < MMAP_THRESHOLD
  }

  /** The entries of `s` that pass `keep`, in their original order. */
  function Filter(s: seq<SizeClass>, keep: SizeClass -> bool): (r: seq<SizeClass>)
    ensures |r| <= |s|
  {
    if s == [] then []
    else
      var last := s[|s| - 1];
      Filter(s[..|s| - 1], keep) + (if keep(last) then [last] else [])
  }

  /** What the thread's table holds once built with the keep test `keep`. */
  function BuiltWith(keep: SizeClass -> bool): seq<SizeClass>
  {
    Filter(DefaultTable, keep)
  }

  /** The built table under the intended test. */
  function BuiltTable(): seq<SizeClass>
  {
    BuiltWith(KeepBelowThreshold)
  }

  /**
   * ceil(size / 16) computed as (size + 15) / 16 in size_t arithmetic: the
   * sum wraps to a small value for the fifteen largest sizes.
   */
  function MinBlockCount(size: nat): (b: nat)
    requires size <= SIZE_MAX
    ensures size + SMALL_GRANULARITY - 1 <= SIZE_MAX ==>
              SMALL_GRANULARITY * (b - 1) < size <= SMALL_GRANULARITY * b
    ensures size + SMALL_GRANULARITY - 1 > SIZE_MAX ==> b == 0
  {
    var sum := size + SMALL_GRANULARITY - 1;
    (if sum <= SIZE_MAX then sum else sum - SIZE_RANGE) / SMALL_GRANULARITY
  }

  /** 63 - __builtin_clzl(v): the position of the highest set bit. */
  function Msb(v: nat): nat
    requires v >= 1
  {
    if v == 1 then 0 else 1 + Msb(v / 2)
  }

  /**
   * (msb << 2) + ((searchVal >> (msb - 2)) & 3) + 41: four classes per
   * octave, chosen by the two bits below the top one.
   */
  function OctaveIndex(searchVal: nat, msb: nat): nat
    requires msb >= 2
  {
    msb * 4 + ShiftRight(searchVal, msb - 2) % 4 + 41
  }

  /** v >> k on an unsigned value, one bit at a time. */
  function ShiftRight(v: nat, k: nat): nat
  {
    if k == 0 then v else ShiftRight(v / 2, k - 1)
  }

  /**
   * get_size_class on the classes [0, |t|) of the table: 1 for size 0, the
   * exact class ceil(size / 16) up to 1 KiB, the octave formula above, and
   * 0 when a bounds, fit or minimality check fails.
   */
  function Classify(t: seq<SizeClass>, size: nat): (cls: nat)
    requires size <= SIZE_MAX
    ensures size == 0 ==> cls == 1
    ensures size > 0 && cls != 0 ==> 1 <= cls < |t| && t[cls].blockSz >= size
    ensures size > EXACT_BAND_LIMIT && cls != 0 ==> t[cls - 1].blockSz < size
  {
    if size == 0 then 1
    else if |t| == 0 then 0
    else if size <= EXACT_BAND_LIMIT then ExactClass(t, size)
    else OctaveClass(t, size)
  }

  /** The branch for sizes up to 1 KiB: the class index is ceil(size / 16). */
  function ExactClass(t: seq<SizeClass>, size: nat): nat
    requires 0 < size <= EXACT_BAND_LIMIT
  {
    var minBlkCnt := MinBlockCount(size);
    if minBlkCnt >= |t| then 0
    else if t[minBlkCnt].blockSz < size then 0
    else minBlkCnt
  }

  /** The branch for larger sizes: the octave formula, then the three checks. */
  function OctaveClass(t: seq<SizeClass>, size: nat): nat
    requires EXACT_BAND_LIMIT < size <= SIZE_MAX
  {
    var minBlkCnt := MinBlockCount(size);
    var searchVal := if minBlkCnt >= 1 then minBlkCnt - 1 else SIZE_MAX;
    var msb := Msb(searchVal);
    if msb < 6 then 0
    else CheckedClass(t, size, OctaveIndex(searchVal, msb))
  }

  /** Rejects an index past the table, one too small, or one whose predecessor already fits. */
  function CheckedClass(t: seq<SizeClass>, size: nat, cls: nat): nat
  {
    if cls >= |t| || t[cls].blockSz < size || (cls != 0 && t[cls - 1].blockSz >= size) then 0
    else cls
  }

  /** The initialiser has one entry per element of the array's declared size. */
  lemma DefaultTableLength()
    ensures |DefaultTable| == DEFAULT_COUNT
  {
  }

  /**
   * The thread-local state of the header: the table __size_classes_g, its
   * count __size_class_count_g, and the `initialized` flag of
   * __build_size_classes. `keep` is the cleanup's keep test, which is
   * compiled in: KeepAsWritten for line 158 as it stands, and
   * KeepBelowThreshold for the corrected line.
   */

  class SizeClassTable {
    var classes: array<SizeClass>
    var count: nat
    var initialized: bool
    const keep: SizeClass -> bool

    /** The table is either untouched or built, and nothing else touches it. */
    ghost predicate Valid()
      reads this, classes
    {
      && classes.Length == DEFAULT_COUNT
      && count <= classes.Length
      && (!initialized ==> count == DEFAULT_COUNT && classes[..] == DefaultTable)
      && (initialized ==>
            && classes[..count] == BuiltWith(keep)
            && forall i | count <= i < classes.Length :: classes[i] == EMPTY_CLASS)
    }

    /** The static initialisers of the two globals and of the flag. */
    constructor (keep: SizeClass -> bool)
      ensures Valid() && fresh(classes) && this.keep == keep
      ensures classes[..] == DefaultTable && count == DEFAULT_COUNT && !initialized
    {
      this.keep := keep;
      DefaultTableLength();
      classes := new SizeClass[DEFAULT_COUNT](i requires 0 <= i < DEFAULT_COUNT => DefaultTable[i]);
      count := DEFAULT_COUNT;
      initialized := false;
    }

    /** __clean_size_classes, with the table's keep test. */
    method Clean()
      requires count <= classes.Length
      modifies this`count, classes
      ensures count <= old(count)
      ensures classes[..count] == Filter(old(classes[..count]), keep)
      ensures forall i | count <= i < old(count) :: classes[i] == EMPTY_CLASS
      ensures forall i | old(count) <= i < classes.Length :: classes[i] == old(classes[i])
    {
      CompactBy(keep);
    }

    /**
     * The loop of __clean_size_classes for a keep test `test`: a write
     * pointer trails the read pointer, every entry that passes is copied
     * down to it, the count becomes the number kept and the vacated
     * entries are zeroed.
     */
    method CompactBy(test: SizeClass -> bool)
      requires count <= classes.Length
      modifies this`count, classes
      ensures count <= old(count)
      ensures classes[..count] == Filter(old(classes[..count]), test)
      ensures forall i | count <= i < old(count) :: classes[i] == EMPTY_CLASS
      ensures forall i | old(count) <= i < classes.Length :: classes[i] == old(classes[i])
    {
      ghost var orig := classes[..count];
      var wrp, rdp, edp := 0, 0, count;
      while rdp < edp
        invariant wrp <= rdp <= edp == |orig| <= classes.Length
        invariant classes[..wrp] == Filter(orig[..rdp], test)
        invariant forall i | rdp <= i < classes.Length :: classes[i] == old(classes[i])
      {
        ghost var done := classes[..wrp];
        var c := classes[rdp];
        assert orig[..rdp + 1][..rdp] == orig[..rdp] && orig[..rdp + 1][rdp] == c;
        if test(c) {
          if wrp != rdp {
            classes[wrp] := c;
          }
          assert classes[..wrp + 1] == done + [c];
          wrp := wrp + 1;
        }
        rdp := rdp + 1;
      }
      assert orig[..rdp] == orig;
      count := wrp;
      ClearRange(wrp, edp);
    }

    /** The zeroing loop at the end of __clean_size_classes. */
    method ClearRange(lo: nat, hi: nat)
      requires lo <= hi <= classes.Length
      modifies classes
      ensures forall i | lo <= i < hi :: classes[i] == EMPTY_CLASS
      ensures forall i | 0 <= i < classes.Length && !(lo <= i < hi) :: classes[i] == old(classes[i])
    {
      var j := lo;
      while j < hi
        invariant lo <= j <= hi
        invariant forall i | lo <= i < j :: classes[i] == EMPTY_CLASS
        invariant forall i | 0 <= i < classes.Length && !(lo <= i < j) :: classes[i] == old(classes[i])
      {
        classes[j] := EMPTY_CLASS;
        j := j + 1;
      }
    }

    /** __build_size_classes: runs the cleanup on the first call only. */
    method Build() returns (t: array<SizeClass>)
      requires Valid()
      modifies this, classes
      ensures Valid() && initialized
      ensures t == classes == old(classes)
      ensures classes[..count] == BuiltWith(keep)
      ensures old(initialized) ==> count == old(count) && classes[..] == old(classes[..])
    {
      if !initialized {
        assert classes[..count] == classes[..];
        Clean();
        initialized := true;
      }
      t := classes;
    }

    /** get_size_classes: builds the table if needed and reports array and count. */
    method GetSizeClasses() returns (t: array<SizeClass>, n: nat)
      requires Valid()
      modifies this, classes
      ensures Valid() && initialized
      ensures t == classes == old(classes) && n == count
      ensures t[..n] == BuiltWith(keep)
      ensures old(initialized) ==> count == old(count) && classes[..] == old(classes[..])
    {
      t := Build();
      n := count;
    }

    /**
     * get_size_class: size 0 answers 1 before the table is looked at;
     * any other size builds the table and is classified against it.
     */
    method GetSizeClass(size: nat) returns (cls: nat)
      requires Valid() && size <= SIZE_MAX
      modifies this, classes
      ensures Valid() && classes == old(classes)
      ensures size == 0 ==> cls == 1 && initialized == old(initialized)
      ensures size == 0 ==> count == old(count) && classes[..] == old(classes[..])
      ensures size != 0 ==> initialized && cls == Classify(BuiltWith(keep), size)
    {
      if size == 0 {
        return 1;
      }
      var t, n := GetSizeClasses();
      cls := Classify(t[..n], size);
    }
  }
}
