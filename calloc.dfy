/**
 * The zero-fill logic behind lgcalloc (lgcalloc.c): the overflow and
 * size checks, the scans that tell whether a fresh block is already all
 * zero, the AVX2-style zeroing loop, and the backward page walk that
 * clears a large block only up to its last nonzero bytes.
 *
 * Memory is a window `mem` of bytes whose element k sits at address
 * base + k; a pointer is an index into the window. Alignment tests look at
 * the address. Whether the CPU supports AVX2 is the parameter `avx2`; a
 * 256-bit store or test is a write or check of 32 consecutive bytes, and
 * a load of a machine word (8 bytes on the 64-bit build) tested against
 * zero is a check of its 8 bytes.
 */
module Calloc {
  import opened Config
  import opened Wrappers
  import opened Align

  newtype byte = x: int | 0 <= x < 256

  /** sizeof(word_t) on the 64-bit build. */
  const WORD_SIZE: nat := 8

  /** The width of a 256-bit vector in bytes. */
  const VECTOR_SIZE: nat := 32

  /** errno values of Linux. */
  const ENOMEM: nat := 12
  const EINVAL: nat := 22

  /** Every byte of mem[lo..hi] is zero. */
  predicate ZeroBytes(mem: array<byte>, lo: nat, hi: nat)
    requires lo <= hi <= mem.Length
    reads mem
  {
    forall k | lo <= k < hi :: mem[k] == 0
  }

  /** Nothing outside mem[lo..hi] differs from `before`. */
  ghost predicate SameOutside(mem: array<byte>, before: seq<byte>, lo: nat, hi: nat)
    requires |before| == mem.Length
    reads mem
  {
    forall k | 0 <= k < mem.Length && !(lo <= k < hi) :: mem[k] == before[k]
  }

  /**
   * __memzero_avx2: single bytes up to a 32-byte aligned address, then
   * 32-byte stores, then the remaining bytes. Returns its argument.
   */
  method MemzeroAvx2(mem: array<byte>, base: nat, p: nat, n: nat) returns (r: nat)
    requires p + n <= mem.Length
    modifies mem
    ensures r == p
    ensures ZeroBytes(mem, p, p + n)
    ensures SameOutside(mem, old(mem[..]), p, p + n)
  {
    var s: nat, left: nat := p, n;
    while (base + s) % VECTOR_SIZE != 0 && left > 0
      decreases left
      invariant p <= s && s + left == p + n
      invariant ZeroBytes(mem, p, s)
      invariant SameOutside(mem, old(mem[..]), p, s)
    {
      mem[s] := 0;
      s, left := s + 1, left - 1;
    }
    while left >= VECTOR_SIZE
      invariant p <= s && s + left == p + n
      invariant ZeroBytes(mem, p, s)
      invariant SameOutside(mem, old(mem[..]), p, s)
    {
      forall k | s <= k < s + VECTOR_SIZE {
        mem[k] := 0;
      }
      s, left := s + VECTOR_SIZE, left - VECTOR_SIZE;
    }
    while left > 0
      invariant p <= s && s + left == p + n
      invariant ZeroBytes(mem, p, s)
      invariant SameOutside(mem, old(mem[..]), p, s)
    {
      mem[s] := 0;
      s, left := s + 1, left - 1;
    }
    r := p;
  }

  /** memset(p, 0, n) of the C library, by its effect. Returns its argument. */
  method Memset(mem: array<byte>, p: nat, n: nat) returns (r: nat)
    requires p + n <= mem.Length
    modifies mem
    ensures r == p
    ensures ZeroBytes(mem, p, p + n)
    ensures SameOutside(mem, old(mem[..]), p, p + n)
  {
    forall k | p <= k < p + n {
      mem[k] := 0;
    }
    r := p;
  }

  /** `__cpu_supports_avx2() ? __memzero_avx2(p, n) : memset(p, 0, n)` */
  method ZeroFill(mem: array<byte>, base: nat, p: nat, n: nat, avx2: bool) returns (r: nat)
    requires p + n <= mem.Length
    modifies mem
    ensures r == p
    ensures ZeroBytes(mem, p, p + n)
    ensures SameOutside(mem, old(mem[..]), p, p + n)
  {
    if avx2 {
      r := MemzeroAvx2(mem, base, p, n);
    } else {
      r := Memset(mem, p, n);
    }
  }

  /**
   * __is_already_zeroed_simd: single bytes up to a 32-byte aligned address
   * (at most n of them), then 32-byte tests, then the remaining bytes.
   */
  method IsAlreadyZeroedSimd(mem: array<byte>, base: nat, p: nat, n: nat) returns (zero: bool)
    requires p + n <= mem.Length
    ensures zero <==> ZeroBytes(mem, p, p + n)
  {
    var s: nat, left: nat := p, n;
    var misalign := (base + s) % VECTOR_SIZE;
    if misalign != 0 {
      var prefix: nat := VECTOR_SIZE - misalign;
      if prefix > left {
        prefix := left;
      }
      while prefix > 0
        invariant p <= s && s + prefix <= p + n && left == n
        invariant ZeroBytes(mem, p, s)
      {
        if mem[s] != 0 {
          return false;
        }
        prefix, s := prefix - 1, s + 1;
      }
      left := left - (s - p);
    }
    while left >= VECTOR_SIZE
      invariant p <= s && s + left == p + n
      invariant ZeroBytes(mem, p, s)
    {
      if !ZeroBytes(mem, s, s + VECTOR_SIZE) {
        return false;
      }
      s, left := s + VECTOR_SIZE, left - VECTOR_SIZE;
    }
    while left > 0
      invariant p <= s && s + left == p + n
      invariant ZeroBytes(mem, p, s)
    {
      if mem[s] != 0 {
        return false;
      }
      s, left := s + 1, left - 1;
    }
    return true;
  }

  /**
   * __is_already_zeroed: the AVX2 scan when the CPU has it; otherwise
   * single bytes up to a word-aligned address, then blocks of eight
   * words, then single words, then the remaining bytes. The count is
   * lowered by the alignment prefix before the prefix is checked, so the
   * block must be at least that long.
   */
  method IsAlreadyZeroed(mem: array<byte>, base: nat, p: nat, n: nat, avx2: bool) returns (zero: bool)
    requires p + n <= mem.Length
    requires (base + p) % WORD_SIZE != 0 ==> WORD_SIZE - (base + p) % WORD_SIZE <= n
    ensures zero <==> ZeroBytes(mem, p, p + n)
  {
    if avx2 {
      zero := IsAlreadyZeroedSimd(mem, base, p, n);
      return;
    }
    var s: nat, left: nat := p, n;
    var misalign := (base + s) % WORD_SIZE;
    if misalign != 0 {
      var prefix: nat := WORD_SIZE - misalign;
      left := left - prefix;
      // a do-while loop: prefix >= 1 on entry
      while prefix > 0
        invariant p <= s && s + prefix + left == p + n
        invariant ZeroBytes(mem, p, s)
      {
        if mem[s] != 0 {
          return false;
        }
        s, prefix := s + 1, prefix - 1;
      }
    }
    while left >= 8 * WORD_SIZE
      invariant p <= s && s + left == p + n
      invariant ZeroBytes(mem, p, s)
    {
      if !ZeroBytes(mem, s, s + 8 * WORD_SIZE) {
        return false;
      }
      s, left := s + 8 * WORD_SIZE, left - 8 * WORD_SIZE;
    }
    while left >= WORD_SIZE
      invariant p <= s && s + left == p + n
      invariant ZeroBytes(mem, p, s)
    {
      if !ZeroBytes(mem, s, s + WORD_SIZE) {
        return false;
      }
      s, left := s + WORD_SIZE, left - WORD_SIZE;
    }
    while left > 0
      invariant p <= s && s + left == p + n
      invariant ZeroBytes(mem, p, s)
    {
      if mem[s] != 0 {
        return false;
      }
      s, left := s + 1, left - 1;
    }
    return true;
  }

  /**
   * __bytes_to_clear: a block shorter than a page is left to the caller.
   * Otherwise the partial page at the top is cleared, and then, page by
   * page downwards, the 16-byte word pairs are scanned from the top of the
   * page for the first nonzero one and the page is cleared only from its
   * start up to that pair. The walk stops once less than a page remains
   * above the block's start, and that remainder is what the caller must
   * still clear.
   */
  method BytesToClear(mem: array<byte>, base: nat, p: nat, n: nat, avx2: bool) returns (r: nat)
    requires p + n <= mem.Length
    modifies mem
    ensures n < PAGE_SIZE ==> r == n && mem[..] == old(mem[..])
    ensures n >= PAGE_SIZE ==> r < PAGE_SIZE
    ensures r <= n
    ensures ZeroBytes(mem, p + r, p + n)
    ensures SameOutside(mem, old(mem[..]), p + r, p + n)
  {
    if n < PAGE_SIZE {
      return n;
    }
    var end: nat := p + n;
    var i: nat := (base + end) % PAGE_SIZE;
    DivMod(base + end, PAGE_SIZE);
    while true
      invariant p + i <= end <= p + n && i <= PAGE_SIZE
      invariant (base + end - i) % PAGE_SIZE == 0
      invariant ZeroBytes(mem, end, p + n)
      invariant SameOutside(mem, old(mem[..]), end, p + n)
      decreases end - i
    {
      end := ZeroFill(mem, base, end - i, i, avx2);
      if end - p < PAGE_SIZE {
        return end - p;
      }
      ghost var top := end;
      end, i := ScanDown(mem, p, end);
      PageBelow(base + top);
    }
  }

  /**
   * The inner loop of __bytes_to_clear: from `top` downwards, one page at
   * most, 16-byte word pairs are tested until a nonzero one is found. It
   * answers the new `end` (just above that pair, or a page below `top`)
   * and the bytes of the page below it that remain to be cleared.
   */
  method ScanDown(mem: array<byte>, p: nat, top: nat) returns (end: nat, i: nat)
    requires p + PAGE_SIZE <= top <= mem.Length
    ensures i <= PAGE_SIZE && i % (2 * WORD_SIZE) == 0 && end + PAGE_SIZE == top + i
    ensures p <= end && ZeroBytes(mem, end, top)
    ensures i > 0 ==> !ZeroBytes(mem, end - 2 * WORD_SIZE, end)
  {
    end, i := top, PAGE_SIZE;
    while i > 0
      invariant i <= PAGE_SIZE && i % (2 * WORD_SIZE) == 0
      invariant end + PAGE_SIZE == top + i
      invariant ZeroBytes(mem, end, top)
    {
      if !ZeroBytes(mem, end - 2 * WORD_SIZE, end) {
        return;
      }
      i, end := i - 2 * WORD_SIZE, end - 2 * WORD_SIZE;
    }
  }

  /** One page below a page-aligned address is page-aligned too. */
  lemma PageBelow(a: nat)
    requires a >= PAGE_SIZE && a % PAGE_SIZE == 0
    ensures (a - PAGE_SIZE) % PAGE_SIZE == 0
  {
  }

  /** __builtin_umull_overflow on 64-bit operands: whether the product wraps, and the wrapped product. */
  function MulOverflow(a: nat, b: nat): (r: (bool, nat))
    requires a <= SIZE_MAX && b <= SIZE_MAX
    ensures r.0 <==> a * b > SIZE_MAX
    ensures r.1 <= SIZE_MAX
    ensures !r.0 ==> r.1 == a * b
  {
    var product := a * b;
    (product > SIZE_MAX, product % SIZE_RANGE)
  }

  /** What lgcalloc hands back: NULL with an errno, NULL from the allocator, or a block. */
  datatype CallocResult = Failed(errno: nat) | Null | Block(ptr: nat)

  /**
   * __lgcalloc_impl. The allocator itself is not part of this model: `got`
   * is what __lgmalloc_wrapper would return for the size it is asked
   * (None for NULL, or a block of at least that size in `mem`), and
   * `asked` reports that size, or None when the allocator is not called.
   */
  method LgCalloc(mem: array<byte>, base: nat, nmemb: nat, size: nat, avx2: bool, got: Option<nat>)
      returns (r: CallocResult, asked: Option<nat>)
    requires nmemb <= SIZE_MAX && size <= SIZE_MAX
    requires got.Some? && nmemb * size <= MAX_ALLOC_SIZE ==> got.value + nmemb * size <= mem.Length
    modifies mem
    ensures nmemb * size > SIZE_MAX ==> r == Failed(ENOMEM) && asked == None
    ensures MAX_ALLOC_SIZE < nmemb * size <= SIZE_MAX ==> r == Failed(EINVAL) && asked == None
    ensures nmemb * size <= MAX_ALLOC_SIZE ==> asked == Some(nmemb * size)
    ensures nmemb * size <= MAX_ALLOC_SIZE ==> r == (if got.Some? then Block(got.value) else Null)
    ensures !r.Block? ==> mem[..] == old(mem[..])
    ensures r.Block? ==>
      && ZeroBytes(mem, r.ptr, r.ptr + nmemb * size)
      && SameOutside(mem, old(mem[..]), r.ptr, r.ptr + nmemb * size)
    ensures r.Block? && nmemb * size >= MMAP_THRESHOLD && old(ZeroBytes(mem, r.ptr, r.ptr + nmemb * size)) ==>
      mem[..] == old(mem[..])
  {
    var product := MulOverflow(nmemb, size);
    if product.0 {
      return Failed(ENOMEM), None;
    }
    var total := product.1;
    if total > MAX_ALLOC_SIZE {
      return Failed(EINVAL), None;
    }
    asked := Some(total);
    if got.None? {
      return Null, asked;
    }
    var alloc := got.value;
    if total >= MMAP_THRESHOLD {
      var zero := IsAlreadyZeroed(mem, base, alloc, total, avx2);
      if zero {
        return Block(alloc), asked;
      }
    }
    var rest := BytesToClear(mem, base, alloc, total, avx2);
    var start := ZeroFill(mem, base, alloc, rest, avx2);
    r := Block(start);
  }
}
