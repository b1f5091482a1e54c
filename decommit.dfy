/**
 * Returning memory to the operating system (internal_headers/lgmalloc_decommit.h).
 * madvise is an effect the model does not carry out: each entry point
 * answers the sequence of madvise calls it issues. Whether a MADV_FREE
 * call fails is the parameter `freeFails`; whether LGMALLOC_ENABLE_DECOMMIT
 * is defined is the parameter `enabled`. Addresses are unsigned integers.
 */
module Decommit {
  import opened Config
  import opened Wrappers
  import opened Align

  datatype Advice = MadvFree | MadvDontNeed

  /** One madvise(addr, len, advice) call. */
  datatype Madvise = Madvise(addr: nat, len: nat, advice: Advice)

  /** The platform branches of the __vm_decommit macro. */
  datatype Platform =
    | Linux
    | Apple
    | BsdWithFree     // a BSD whose headers define MADV_FREE
    | BsdWithoutFree
    | Solaris
    | Aix
    | OtherUnix

  /** [start, end) */
  datatype PageRange = PageRange(start: nat, end: nat)

  /** The platforms whose macro tries MADV_FREE before MADV_DONTNEED. */
  predicate TriesFreeFirst(platform: Platform)
  {
    platform == Apple || platform == BsdWithFree
  }

  /**
   * __vm_decommit(ptr, size): nothing for a NULL pointer or an empty
   * range; otherwise MADV_DONTNEED, or on macOS and on BSDs with MADV_FREE
   * a MADV_FREE followed by MADV_DONTNEED only when MADV_FREE fails.
   */
  function VmDecommitMacro(platform: Platform, ptr: nat, size: nat, freeFails: bool): (calls: seq<Madvise>)
    ensures ptr == 0 || size == 0 ==> calls == []
    ensures ptr != 0 && size != 0 ==> 1 <= |calls| <= 2
    ensures forall c | c in calls :: c.addr == ptr && c.len == size
    ensures |calls| == 2 <==> ptr != 0 && size != 0 && TriesFreeFirst(platform) && freeFails
    ensures |calls| == 2 ==> calls[0].advice == MadvFree && calls[1].advice == MadvDontNeed
    ensures |calls| == 1 ==> (calls[0].advice == MadvFree <==> TriesFreeFirst(platform))
  {
    if ptr == 0 || size == 0 then []
    else if TriesFreeFirst(platform) then
      [Madvise(ptr, size, MadvFree)] + (if freeFails then [Madvise(ptr, size, MadvDontNeed)] else [])
    else [Madvise(ptr, size, MadvDontNeed)]
  }

  /**
   * The range is always given back: the last call is MADV_DONTNEED, or a
   * MADV_FREE that did not fail.
   */
  lemma MacroReleases(platform: Platform, ptr: nat, size: nat, freeFails: bool)
    requires ptr != 0 && size != 0
    ensures var calls := VmDecommitMacro(platform, ptr, size, freeFails);
      && |calls| >= 1
      && (calls[|calls| - 1].advice == MadvDontNeed ||
          (calls[|calls| - 1].advice == MadvFree && !freeFails))
      && forall j | 0 <= j < |calls| - 1 :: calls[j].advice == MadvFree && freeFails
  {
  }

  /**
   * The page-aligned part of [ptr, ptr + size): ALIGN_UP of the start and
   * ALIGN_DOWN of the end, or nothing when they do not enclose a page. The
   * block must not reach into the last page of the address space, where
   * ALIGN_UP of its start would wrap.
   */
  function AlignedRange(ptr: nat, size: nat): (r: Option<PageRange>)
    requires ptr + size <= SIZE_RANGE - PAGE_SIZE
    ensures r.Some? ==>
      && ptr <= r.value.start < r.value.end <= ptr + size
      && r.value.start % PAGE_SIZE == 0 && r.value.end % PAGE_SIZE == 0
    ensures r.None? <==> AlignDown(ptr + size, PAGE_SIZE) <= AlignUp(ptr, PAGE_SIZE)
    ensures r.Some? ==> r.value.start == AlignUp(ptr, PAGE_SIZE) && r.value.end == AlignDown(ptr + size, PAGE_SIZE)
  {
    AlignmentsArePowersOf2();
    var pageStart := AlignUp(ptr, PAGE_SIZE);
    var pageEnd := AlignDown(ptr + size, PAGE_SIZE);
    if pageEnd <= pageStart then None else Some(PageRange(pageStart, pageEnd))
  }

  /**
   * AlignedRange is the largest page-aligned subrange: every page-aligned
   * [a, b) inside [ptr, ptr + size) lies inside it, so it exists as soon
   * as any such subrange does.
   */
  lemma AlignedRangeIsLargest(ptr: nat, size: nat, a: nat, b: nat)
    requires ptr + size <= SIZE_RANGE - PAGE_SIZE
    requires a % PAGE_SIZE == 0 && b % PAGE_SIZE == 0 && ptr <= a < b <= ptr + size
    ensures AlignedRange(ptr, size).Some?
    ensures AlignedRange(ptr, size).value.start <= a && b <= AlignedRange(ptr, size).value.end
  {
    AlignmentsArePowersOf2();
    AlignUpIsLeast(ptr, PAGE_SIZE, a);
    AlignDownIsGreatest(ptr + size, PAGE_SIZE, b);
  }

  /** The length of the aligned range is a positive number of whole pages. */
  lemma AlignedRangeIsWholePages(ptr: nat, size: nat)
    requires ptr + size <= SIZE_RANGE - PAGE_SIZE
    requires AlignedRange(ptr, size).Some?
    ensures var rg := AlignedRange(ptr, size).value;
      rg.end - rg.start >= PAGE_SIZE && (rg.end - rg.start) % PAGE_SIZE == 0
  {
    var rg := AlignedRange(ptr, size).value;
    MultiplesAreSpaced(rg.start, rg.end, PAGE_SIZE);
    DivMod(rg.start, PAGE_SIZE);
    DivMod(rg.end, PAGE_SIZE);
    var q := rg.end / PAGE_SIZE - rg.start / PAGE_SIZE;
    assert rg.end - rg.start == q * PAGE_SIZE;
    MulIsAligned(q, PAGE_SIZE);
  }

  /** vm_decommit: the macro on the whole range when decommit is enabled, nothing otherwise. */
  function VmDecommit(platform: Platform, enabled: bool, ptr: nat, size: nat, freeFails: bool): (calls: seq<Madvise>)
    requires enabled ==> ptr != 0 && size != 0
    ensures !enabled ==> calls == []
    ensures enabled ==> 1 <= |calls| && forall c | c in calls :: c.addr == ptr && c.len == size
  {
    if enabled then VmDecommitMacro(platform, ptr, size, freeFails) else []
  }

  /**
   * vm_decommit_aligned: the macro on the page-aligned part of the range,
   * nothing when that part is empty or decommit is disabled. Every call
   * covers whole pages inside [ptr, ptr + size).
   */
  function VmDecommitAligned(platform: Platform, enabled: bool, ptr: nat, size: nat, freeFails: bool)
    : (calls: seq<Madvise>)
    requires enabled ==> ptr != 0 && size != 0
    requires ptr + size <= SIZE_RANGE - PAGE_SIZE
    ensures !enabled || AlignedRange(ptr, size).None? ==> calls == []
    ensures enabled && AlignedRange(ptr, size).Some? ==> 1 <= |calls|
    ensures enabled && AlignedRange(ptr, size).Some? ==>
      var rg := AlignedRange(ptr, size).value;
      calls == VmDecommitMacro(platform, rg.start, rg.end - rg.start, freeFails)
    ensures forall c | c in calls ::
      && ptr <= c.addr && c.addr + c.len <= ptr + size
      && c.addr % PAGE_SIZE == 0 && (c.addr + c.len) % PAGE_SIZE == 0
  {
    if !enabled then []
    else
      match AlignedRange(ptr, size)
      case None => []
      case Some(rg) => VmDecommitMacro(platform, rg.start, rg.end - rg.start, freeFails)
  }
}
