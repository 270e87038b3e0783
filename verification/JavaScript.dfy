/**
 Two facts about the language that several of the modelled programs are written in.
 */
module JavaScript {

  const MAX_SAFE_INTEGER: int := 0x1F_FFFF_FFFF_FFFF

  /** White space and line ends, by code unit. */
  predicate Space(u: int) {
    || 9 <= u <= 13 || u == 32 || u == 0xA0 || u == 0x1680 || 0x2000 <= u <= 0x200A
    || u == 0x2028 || u == 0x2029 || u == 0x202F || u == 0x205F || u == 0x3000 || u == 0xFEFF
  }
}
