# lgmalloc core, modelled in Dafny

lgmalloc is a thread-local memory allocator written in C. This project
models four parts of it and proves properties about them:

- **The size-class table and its classifier**
  (`src/internal_headers/lgmalloc_size_classes.h`). This is the 117-entry
  default table of `(block size, blocks per chunk)` pairs. The run-once
  cleanup `__clean_size_classes` compacts the table in place with a write
  pointer that trails a read pointer. `__build_size_classes` and
  `get_size_classes` wrap it. `get_size_class` is the closed-form
  classifier: an exact band up to 1 KiB, then four classes per power of
  two chosen by bit arithmetic.
- **Zero-initialising allocation** (`src/lgcalloc.c`). This covers the
  overflow and limit checks of `__lgcalloc_impl`, the "already zero" scans
  (AVX2 and word-at-a-time), the page-by-page `__bytes_to_clear` walk, and
  the AVX2 zero fill.
- **Returning pages to the OS** (`src/internal_headers/lgmalloc_decommit.h`).
  This covers the per-platform `__vm_decommit` macro, `vm_decommit`, and
  `vm_decommit_aligned`, which rounds the range inward to whole pages.
- **The initialisation flag** (`src/init.c`). This covers
  `lgmalloc_set_init`, `lgmalloc_is_init` and the idempotent
  `lgmalloc_init` with its alignment self-check.

Files:

- `config.dfy`: `size_t` limits and the config constants.
- `wrappers.dfy`: `Option`, used for a NULL pointer or an absent result.
- `align.dfy`: ALIGN_UP, ALIGN_DOWN, IS_ALIGNED, IS_POWER_OF_2 and the page size.
- `size_classes.dfy`: the table, the classifier, and the `SizeClassTable` class. The class holds the thread-local array, its count and the `initialized` flag. Its constant `keep` is the cleanup's compiled-in keep test: `KeepAsWritten` gives the code as it stands, and `KeepBelowThreshold` gives the corrected line (see Findings).
- `table_shape.dfy`: the closed form `ClassUnits` that the default table follows.
- `classifier_proofs.dfy`: `get_size_class` compared against a linear first-fit search.
- `cleanup_proofs.dfy`: what the cleanup keeps, under the intended test and under the test as written.
- `calloc.dfy`: memory is an `array<byte>`. Element `k` sits at address `base + k`.
- `decommit.dfy`: `madvise` calls are returned as a sequence, not performed.
- `init.dfy`: the `InitFlag` class.

How the environment is represented:

- Which CPU features are present (`__cpu_supports_avx2`) is a parameter, `avx2`.
- Whether `MADV_FREE` fails is a parameter.
- Whether `LGMALLOC_ENABLE_DECOMMIT` is defined is a parameter.
- The platform is a parameter.
- The result of the allocator `__lgmalloc_wrapper` is a parameter, `got`.
- `errno` becomes part of the result value.

The build modelled is the 64-bit one, with `LGMALLOC_64_BIT` set and an 8-byte `word_t`. `size_t` wrap-around is written out where the code relies on it.

## Model

| member | source | states |
|---|---|---|
| SizeClasses.ClassIn | src/internal_headers/lgmalloc_size_classes.h:58-80 | a class macro gives blocks of n granules of 16 bytes, and the block count is the most blocks that fit in the chunk after its 128-byte header |
| SizeClasses.DefaultTableLength | src/internal_headers/lgmalloc_size_classes.h:129-130 | the default table has 117 entries |
| TableShape.DefaultTableShape | src/internal_headers/lgmalloc_size_classes.h:85-127 | every entry i of the initialiser holds 16 * ClassUnits(i) bytes: entries 1..64 step by one granule, and then there are four classes per power of two, 2^(m-2) * (5..8) granules |
| ClassifierProofs.UnitsIncrease | src/internal_headers/lgmalloc_size_classes.h:88-126 | from index 1 on, the table's block sizes strictly increase |
| SizeClasses.Filter | src/internal_headers/lgmalloc_size_classes.h:157-162 | the order-preserving selection the compaction loop computes is never longer than its input |
| SizeClasses.SizeClassTable.Clean | src/internal_headers/lgmalloc_size_classes.h:146-179 | after the in-place compaction, the first `count` entries are exactly the old entries that pass the table's keep test, in their old order; the vacated entries are zero; entries past the old count are untouched |
| SizeClasses.SizeClassTable.CompactBy | src/internal_headers/lgmalloc_size_classes.h:146-179 | the compaction loop for any keep test: its invariant keeps the entries written so far equal to the filter of the entries read so far, so the result is exactly the kept old entries in order, with the vacated slots zeroed and everything past the old count untouched |
| SizeClasses.SizeClassTable.ClearRange | src/internal_headers/lgmalloc_size_classes.h:164-177 | the entries in [lo, hi) become the all-zero class, and nothing else changes |
| SizeClasses.SizeClassTable.constructor | src/internal_headers/lgmalloc_size_classes.h:85-130 | a fresh table holds the 117 default classes, its count is 117, it is not yet built, and it carries the given keep test |
| SizeClasses.SizeClassTable.Build | src/internal_headers/lgmalloc_size_classes.h:187-208 | after the call the table is built and its valid entries are the default classes that pass the keep test (BuiltWith(keep)); a second call changes nothing |
| SizeClasses.SizeClassTable.GetSizeClasses | src/internal_headers/lgmalloc_size_classes.h:219-228 | returns the built array with the count of its valid entries, and those entries are BuiltWith(keep) |
| SizeClasses.SizeClassTable.GetSizeClass | src/internal_headers/lgmalloc_size_classes.h:236-309 | size 0 answers 1 without touching the table; any other size builds the table and is classified against BuiltWith(keep), which is AsWrittenTable() for line 158 as written and BuiltTable() for the corrected line |
| SizeClasses.MinBlockCount | src/internal_headers/lgmalloc_size_classes.h:275-276 | ceil(size / 16) when size + 15 fits in size_t; 0 for the fifteen largest sizes, where the sum wraps |
| SizeClasses.Classify | src/internal_headers/lgmalloc_size_classes.h:266-309 | size 0 gives 1; a nonzero answer is a table index whose block holds the request; above 1 KiB the class below it does not hold the request |
| ClassifierProofs.FirstFitFrom | src/internal_headers/lgmalloc_size_classes.h:262-263 | the first index from k on whose block holds the request, or 0 exactly when none does |
| ClassifierProofs.FirstFit | src/internal_headers/lgmalloc_size_classes.h:230-235 | the reference classifier: the first class from index 1 on that holds the request, or 0 when no class does |
| ClassifierProofs.MsbBrackets | src/internal_headers/lgmalloc_size_classes.h:291-292 | the most-significant-bit position m of v satisfies 2^m <= v < 2^(m+1) |
| ClassifierProofs.ShiftRightIsDivision | src/internal_headers/lgmalloc_size_classes.h:300-301 | `v >> k` is v divided by 2^k |
| ClassifierProofs.OctaveBounds | src/internal_headers/lgmalloc_size_classes.h:289-301 | for search values of at least 64, the top bit is at least 6, and v lies within the quarter-octave that the two bits below the top select |
| ClassifierProofs.OctaveIndexBrackets | src/internal_headers/lgmalloc_size_classes.h:297-301 | the index the octave formula computes holds more granules than the search value, and the index below it holds no more |
| ClassifierProofs.ExactBandIsFirstFit | src/internal_headers/lgmalloc_size_classes.h:278-287 | up to 1 KiB, on any table that follows the closed form, the exact band agrees with the first-fit search and answers ceil(size / 16) when that index is in the table |
| ClassifierProofs.OctaveBandIsFirstFit | src/internal_headers/lgmalloc_size_classes.h:289-308 | above 1 KiB, when rounding does not wrap, the octave formula and its checks agree with the first-fit search |
| ClassifierProofs.WrappedSizeFitsNothing | src/internal_headers/lgmalloc_size_classes.h:275-276 | for the sizes whose rounding wraps, get_size_class answers 0, and no class could hold them |
| ClassifierProofs.ClassifyIsFirstFit | src/internal_headers/lgmalloc_size_classes.h:236-309 | on every prefix of the default table and for every nonzero size_t request, get_size_class returns the first class that holds the request, or 0 exactly when none does |
| ClassifierProofs.ExactBandClass | src/internal_headers/lgmalloc_size_classes.h:278-287 | up to 1 KiB, on a prefix of the default table, the class is ceil(size / 16), or 0 when the prefix is too short |
| ClassifierProofs.UnitsRatio | src/internal_headers/lgmalloc_size_classes.h:109-126 | neighbouring octave classes differ by at most a quarter of the larger one |
| ClassifierProofs.OctaveWasteBound | src/internal_headers/lgmalloc_size_classes.h:262-263 | above 1 KiB, the class picked is less than 5/4 of the request, so over-allocation is bounded |
| ClassifierProofs.ClassBrackets | src/internal_headers/lgmalloc_size_classes.h:303-306 | a nonzero answer above 1 KiB lies inside the table, holds the request, and its predecessor does not |
| CleanupProofs.FilterAppend | src/internal_headers/lgmalloc_size_classes.h:157-160 | compacting a concatenation compacts each part, in order |
| CleanupProofs.FilterMembers | src/internal_headers/lgmalloc_size_classes.h:157-160 | the compacted table holds exactly the entries that pass the test |
| CleanupProofs.FilterIdempotent | src/internal_headers/lgmalloc_size_classes.h:190-205 | running the cleanup a second time would change nothing |
| CleanupProofs.ThresholdSplit | src/internal_headers/lgmalloc_size_classes.h:126 | in the closed form, the classes below index 100 are under the 524288-byte threshold, class 100 is exactly at it, and later classes are above it |
| CleanupProofs.ShapedCleanup | src/internal_headers/lgmalloc_size_classes.h:181-186 | the intended test keeps classes 0..99 of a full closed-form table, the ones below the threshold |
| CleanupProofs.ShapedCleanupAsWritten | src/internal_headers/lgmalloc_size_classes.h:157-158 | the test as written keeps classes 100..116 of a full closed-form table, the ones at or above the threshold |
| CleanupProofs.BuiltTableIsPrefix | src/internal_headers/lgmalloc_size_classes.h:181-186 | the corrected built table is the first 100 default classes, in order |
| CleanupProofs.BuiltTableClassify | src/internal_headers/lgmalloc_size_classes.h:236-309 | on the corrected built table, get_size_class is the first-fit search; it finds a class exactly for the requests up to 458752 bytes, and every request at or above the mmap threshold gets 0 |
| CleanupProofs.FirstFitBelowThreshold | src/internal_headers/lgmalloc_size_classes.h:181-183 | on the 100 closed-form classes below the threshold, some class holds the request exactly when the request is at most the largest of them, 458752 bytes |
| CleanupProofs.AsWrittenTable | src/internal_headers/lgmalloc_size_classes.h:157-162 | the table as the loop builds it as written is no longer than the default table |
| CleanupProofs.AsWrittenTableIsTail | src/internal_headers/lgmalloc_size_classes.h:157-162 | the test as written leaves the seventeen largest classes, all at or above the threshold |
| CleanupProofs.LargeOnlyClassify | src/internal_headers/lgmalloc_size_classes.h:278-306 | on seventeen classes that are all at least 640 KiB, only requests of at most 256 bytes get a class, and that class is at least 640 KiB |
| CleanupProofs.ShortTableMissesOctaves | src/internal_headers/lgmalloc_size_classes.h:297-306 | a table of at most 65 classes answers 0 to every request above 1 KiB |
| CleanupProofs.AsWrittenMisclassifies | src/internal_headers/lgmalloc_size_classes.h:157-158 | with the test as written, a 16-byte request gets class 1, which holds 655360 bytes, and a 257-byte request gets no class |
| Calloc.MemzeroAvx2 | src/lgcalloc.c:17-37 | the aligned-prefix, 32-byte-store and tail loops zero exactly [p, p + n) and return p |
| Calloc.Memset | src/lgcalloc.c:196-198 | memset(p, 0, n) zeroes exactly [p, p + n) and returns p |
| Calloc.ZeroFill | src/lgcalloc.c:63-65 | both zeroing routes zero exactly [p, p + n) |
| Calloc.IsAlreadyZeroedSimd | src/lgcalloc.c:76-114 | answers true exactly when every byte of [p, p + n) is zero |
| Calloc.IsAlreadyZeroed | src/lgcalloc.c:116-164 | on either route, answers true exactly when every byte of [p, p + n) is zero |
| Calloc.ScanDown | src/lgcalloc.c:70-72 | scans at most one page down from the top in 16-byte pairs; everything above the new end is zero; when the scan stops early, the pair just below the end is nonzero |
| Calloc.BytesToClear | src/lgcalloc.c:39-74 | a block under a page is left untouched and fully reported; otherwise, after the walk, everything from p + r to the end is zero, less than a page remains, and nothing outside the block changes |
| Calloc.MulOverflow | src/lgcalloc.c:169-171 | the overflow flag is set exactly when nmemb * size exceeds SIZE_MAX; otherwise the product is exact |
| Calloc.LgCalloc | src/lgcalloc.c:166-199 | ENOMEM on overflow and EINVAL above the limit, without calling the allocator; otherwise NULL passes through, and a block comes back with all its bytes zero and nothing outside it changed; a large block that was already zero is not written |
| Decommit.VmDecommitMacro | src/internal_headers/lgmalloc_decommit.h:19-86 | no call for a NULL pointer or an empty size; otherwise one MADV_DONTNEED, or on macOS and on BSDs with MADV_FREE a MADV_FREE that is followed by MADV_DONTNEED exactly when it fails, all on the given range |
| Decommit.MacroReleases | src/internal_headers/lgmalloc_decommit.h:28-50 | the last call either is MADV_DONTNEED or is a MADV_FREE that succeeded |
| Decommit.AlignedRange | src/internal_headers/lgmalloc_decommit.h:116-123 | the range runs from ALIGN_UP(ptr, PAGE_SIZE) to ALIGN_DOWN(ptr + size, PAGE_SIZE), lies inside the block, and is page-aligned at both ends; it is absent exactly when the rounded end is not above the rounded start |
| Decommit.AlignedRangeIsLargest | src/internal_headers/lgmalloc_decommit.h:119-122 | every page-aligned subrange of the block lies inside the aligned range |
| Decommit.AlignedRangeIsWholePages | src/internal_headers/lgmalloc_decommit.h:119-125 | the aligned range is a positive whole number of pages |
| Decommit.VmDecommit | src/internal_headers/lgmalloc_decommit.h:90-106 | when decommit is disabled there is no call; otherwise there is at least one call, and every call covers exactly the given range |
| Decommit.VmDecommitAligned | src/internal_headers/lgmalloc_decommit.h:108-133 | when decommit is enabled and a whole page fits, the calls are the platform macro's sequence on exactly [ALIGN_UP(ptr), ALIGN_DOWN(ptr + size)), which by AlignedRangeIsLargest is the largest page-aligned part of the block; every call covers whole pages inside the block; there is no call when decommit is disabled or no whole page fits |
| Align.AlignUp | src/internal_headers/lgmalloc_decommit.h:119 | ALIGN_UP gives a multiple of the alignment, at or above x, and less than one alignment above it |
| Align.AlignDown | src/internal_headers/lgmalloc_decommit.h:120 | ALIGN_DOWN gives a multiple of the alignment, at or below x, and less than one alignment below it |
| Align.AlignUpIsLeast | src/internal_headers/lgmalloc_decommit.h:119 | ALIGN_UP is the least aligned value at or above x |
| Align.AlignDownIsGreatest | src/internal_headers/lgmalloc_decommit.h:120 | ALIGN_DOWN is the greatest aligned value at or below x |
| Align.PowersOf2AreIsPowerOf2 | src/init.c:35-37 | every 2^k passes IS_POWER_OF_2 |
| Align.IsPowerOf2IsPow2 | src/init.c:35-38 | whatever passes IS_POWER_OF_2 is some 2^k |
| Align.VerifyAlignMacros | src/init.c:12-42 | every value the alignment self-check asserts holds, including that ALIGN_PTR_UP to 16 gives a 16-aligned address for any buffer |
| Init.Normalize | src/init.c:46-50 | `!!value` is 1 exactly for nonzero values and 0 exactly for zero |
| Init.InitFlag.constructor | src/init.c:44 | the flag starts at 0 |
| Init.InitFlag.SetInit | src/init.c:46-50 | the flag becomes 0 or 1, and it is 1 exactly when the argument is nonzero |
| Init.InitFlag.IsInit | src/init.c:52-63 | the value reported is the flag, and it is always 0 or 1 |
| Init.InitFlag.LgmallocInit | src/init.c:114-125 | afterwards the flag is 1; when it was already 1, nothing changes, so init is idempotent |

## Left out

- The rest of the allocator is not part of this model: heaps, segments, chunks, thread contexts, `lgmalloc`, `lgfree`, `lgrealloc`, profiling and the C++ operators. In `lgcalloc`, the allocator's answer is the parameter `got`.
- Only the 64-bit build is modelled (`LGMALLOC_64_BIT`: 8-byte words, `__builtin_clzl`). The 32-bit branch of `get_size_class` is not modelled.
- The 64-bit branch of `get_size_class` is taken as evidently intended: src/internal_headers/lgmalloc_size_classes.h:291 tests `#if LGMALLOC_64_BIT`, but src/internal_headers/lgmalloc_features.h:151 defines that macro with an empty body. That `#if` has no expression, and the preprocessor rejects it.
- Threads: the table lives in a single `SizeClassTable` object. In the source, the table and its count are `_Thread_local`, but the `initialized` flag of `__build_size_classes` is a function-level `static`. The model does not say what a second thread's table holds.
- PAGE_SIZE is the 4096-byte fallback. Platforms where PAGE_SIZE is a run-time value (`vm_page_size`, `__pagesz_g`, `PAGESIZE`) are not modelled.
- The ALIGN_* and IS_POWER_OF_2 macros are defined in a header that is not part of this model. They are modelled as rounding to a multiple of a power-of-two alignment.
- `madvise` is not performed: the decommit functions return the calls they would issue. Whether `MADV_FREE` fails is an input.
- AlignedRange: requires the block to end at least one page below the top of the address space, so that ALIGN_UP of a `uintptr_t` cannot wrap there.
- VmDecommit and VmDecommitAligned require a non-NULL pointer and a nonzero size when decommit is enabled. This is what their `GUARANTEE` checks demand; what a failed `GUARANTEE` does is not modelled.
- SIMD loads and stores, and the prefetch hint, are modelled by their effect on 32 bytes. Word loads are modelled by their effect on 8 bytes. Aliasing and alignment faults are not modelled.
- IsAlreadyZeroed: requires the block to be at least as long as its word-alignment prefix. For a shorter block, `n -= prefix` would wrap. `__lgcalloc_impl` only calls it with blocks of at least 512 KiB.
- The CPU-feature test, `errno` as a global, and the `_DEBUG` switch are not modelled. In the source, `__verify_align_macros` checks its assertions only in debug builds; the model proves them unconditionally.
- `calculate_init_mmap_layout_size` (src/init.c:107-109) has an empty body and is not modelled.
- The "apply heuristics" step of `__build_size_classes` is a TODO in the source and is not modelled.
- SizeClasses.SizeClassTable.GetSizeClasses: the optional `count` out-pointer is always supplied. The NULL case only skips the store.
- Calloc.MemzeroAvx2: lines 20-21 of src/lgcalloc.c contain typos (`_mm256_setzero_si_256` and `(unsigned char *p)`) that would not compile. The function is modelled as evidently intended: a zero vector, and a byte pointer to `p`.

## Findings

| source | as written | input that shows it | evidently intended | confidence | as-written member | corrected member |
|---|---|---|---|---|---|---|
| src/internal_headers/lgmalloc_size_classes.h:158 | the cleanup keeps the classes with `block_sz >= LGMALLOC_MMAP_THRESHOLD`, so it keeps the 17 classes of 524288 bytes and more and drops all the others | the default table, then `get_size_class(16)`: it returns class 1, whose block is 655360 bytes, and `get_size_class(257)` returns 0 | keep `block_sz < LGMALLOC_MMAP_THRESHOLD` (classes 0..99): the comments at lines 132 and 183 say the large classes are removed, and requests at or above the threshold go to a dedicated mapping (src/internal_headers/lgmalloc_types.h:76-78, src/lgcalloc.c:190); with that test every request up to 458752 bytes gets its first-fit class and every request at or above the threshold gets 0 | not executed | CleanupProofs.AsWrittenMisclassifies | CleanupProofs.BuiltTableClassify |

A `SizeClassTable` built with `KeepAsWritten` is the code as written: its `GetSizeClass` classifies against `AsWrittenTable()`, which `CleanupProofs.AsWrittenTableIsTail` shows is the 17 largest classes. Built with `KeepBelowThreshold`, it is the corrected code: it classifies against `BuiltTable()`, the first 100 classes.
