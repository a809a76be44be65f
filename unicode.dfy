/**
 * The two classifications of Go's `unicode` package that the word counter uses, tabulated
 * over the runes 0..255, which are the only runes a one-byte read can produce.
 */
module Unicode {

  /** A rune obtained by widening one byte. */
  type Latin1Rune = r: int | 0 <= r < 256

  /** `unicode.IsSpace`: '\t', '\n', '\v', '\f', '\r', ' ', U+0085 (NEL) and U+00A0 (NBSP). */
  predicate IsSpace(r: Latin1Rune)
  {
    (9 <= r <= 13) || r == 32 || r == 0x85 || r == 0xA0
  }

  /** `unicode.IsLetter`: the ASCII letters and the Latin-1 letters (category L) above 0x7F. */
  predicate IsLetter(r: Latin1Rune)
  {
    ('A' as int <= r <= 'Z' as int) || ('a' as int <= r <= 'z' as int)
    || r == 0xAA || r == 0xB5 || r == 0xBA
    || (0xC0 <= r <= 0xD6) || (0xD8 <= r <= 0xF6) || (0xF8 <= r <= 0xFF)
  }

  /** The two classes are disjoint. */
  lemma SpaceIsNotLetter(r: Latin1Rune)
    ensures !(IsSpace(r) && IsLetter(r))
  {
  }
}
