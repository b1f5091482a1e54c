/** Build-time limits from api/lgmalloc_config.h and the width of size_t. */
module Config {

  /** SIZE_MAX of a 64-bit size_t (the LGMALLOC_64_BIT build). */
  const SIZE_MAX: nat := 0xFFFF_FFFF_FFFF_FFFF

  /** Number of distinct size_t values: arithmetic on size_t is modulo this. */
  const SIZE_RANGE: nat := SIZE_MAX + 1

  /** LGMALLOC_MAX_ALLOC_SIZE */
  const MAX_ALLOC_SIZE: nat := SIZE_MAX / 2

  /** LGMALLOC_MMAP_THRESHOLD */
  const MMAP_THRESHOLD: nat := 524288
}
