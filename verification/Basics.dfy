/** Shared value types and the limits fixed by the library's headers. */
module Basics {

  datatype Option<+T> = None | Some(value: T)

  const INT64_MIN := -0x8000_0000_0000_0000
  const INT64_MAX := 0x7fff_ffff_ffff_ffff

  type int64 = i: int | INT64_MIN <= i <= INT64_MAX
  type uint32 = i: int | 0 <= i < 0x1_0000_0000

  /** The bit pattern of a C `double`. Values are only stored and copied, never computed with. */
  type Double = b: int | 0 <= b < 0x1_0000_0000_0000_0000

  /** SCONF_MAX_DEPTH in include/sconf.h. */
  const MAX_DEPTH := 20

  /** SCONF_ARRAY_MAX_SIZE in src/array.c. */
  const MAX_SIZE := 65536
}
