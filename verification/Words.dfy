/** Unsigned 32-bit values. */
module Words {
  const WORDS := 0x1_0000_0000
  const HALF := 0x8000_0000

  type Word = x: int | 0 <= x < WORDS
}
