/** JavaScript strings as sequences of UTF-16 code units. Every string
    operation of the runtime (`split('')`, `+`) works on code units, not on
    code points or grapheme clusters, so this is the representation the
    model uses throughout. */
module Utf16 {

  /** One UTF-16 code unit. */
  newtype CodeUnit = x: int | 0 <= x < 0x1_0000

  /** A JavaScript string value. */
  type Utf16String = seq<CodeUnit>

  /** True when every character of `s` is in the Basic Multilingual Plane,
      so that it is a single code unit. */
  predicate IsBmp(s: string) {
    forall i :: 0 <= i < |s| ==> s[i] as int < 0x1_0000
  }

  /** The code units of a BMP string literal. */
  function Lit(s: string): (r: Utf16String)
    requires IsBmp(s)
    ensures |r| == |s|
    ensures forall i :: 0 <= i < |s| ==> r[i] as int == s[i] as int
  {
    seq(|s|, i requires 0 <= i < |s| => s[i] as int as CodeUnit)
  }

  /** The leading half of a surrogate pair (U+D800..U+DBFF). */
  predicate IsHighSurrogate(u: CodeUnit) {
    0xD800 <= u < 0xDC00
  }

  /** The trailing half of a surrogate pair (U+DC00..U+DFFF). */
  predicate IsLowSurrogate(u: CodeUnit) {
    0xDC00 <= u < 0xE000
  }

  /** True when the code units at `i` and `i + 1` form a surrogate pair,
      that is, encode one code point outside the BMP. */
  predicate IsSurrogatePairAt(s: Utf16String, i: int) {
    0 <= i < |s| - 1 && IsHighSurrogate(s[i]) && IsLowSurrogate(s[i + 1])
  }
}
