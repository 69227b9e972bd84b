/**
 * Fixed-width machine integers used throughout the model, and the two
 * operations on 16-bit words that every bus access needs: splitting a word
 * into its high and low byte, and joining two bytes into a word.
 */
module Bits {

  type u8 = bv8
  type u16 = bv16
  type u32 = bv32

  /** The low byte of a word (the implicit uint16_t -> uint8_t conversion of C). */
  function Lo(w: u16): u8 {
    (w & 0xFF) as u8
  }

  /** The high byte of a word, `(w >> 8) & 0xFF`. */
  function Hi(w: u16): u8 {
    (w >> 8) as u8
  }

  /** The word whose high byte is `hi` and whose low byte is `lo`. */
  function Word(hi: u8, lo: u8): u16 {
    ((hi as u16) << 8) | (lo as u16)
  }

  /** A byte repeated in both halves of a word, `b | (b << 8)`. */
  function Dup(b: u8): u16 {
    Word(b, b)
  }

  lemma WordSplitsBack(w: u16)
    ensures Word(Hi(w), Lo(w)) == w
  {
  }

  lemma WordHalves(hi: u8, lo: u8)
    ensures Hi(Word(hi, lo)) == hi && Lo(Word(hi, lo)) == lo
  {
  }

  /**
   * The C conversion `(unsigned int) x` of a signed value: two's complement
   * wrap-around into [0, 2^32).
   */
  function U32Cast(x: int): (r: nat)
    ensures r < 0x1_0000_0000
    ensures -0x8000_0000 <= x < 0 ==> r == x + 0x1_0000_0000
    ensures 0 <= x < 0x1_0000_0000 ==> r == x
  {
    x % 0x1_0000_0000
  }

  /**
   * Quotient and remainder by a fixed power of two are unique: the facts
   * the address masks need, one divisor at a time.
   */
  lemma DivMod2(x: int, q: int, r: int)
    requires x == 2 * q + r && 0 <= r < 2
    ensures x / 2 == q && x % 2 == r
  {
  }

  lemma DivMod16Bits(x: int, q: int, r: int)
    requires x == 0x1_0000 * q + r && 0 <= r < 0x1_0000
    ensures x / 0x1_0000 == q && x % 0x1_0000 == r
  {
  }

  lemma DivMod21Bits(x: int, q: int, r: int)
    requires x == 0x20_0000 * q + r && 0 <= r < 0x20_0000
    ensures x / 0x20_0000 == q && x % 0x20_0000 == r
  {
  }

  lemma DivMod24Bits(x: int, q: int, r: int)
    requires x == 0x100_0000 * q + r && 0 <= r < 0x100_0000
    ensures x / 0x100_0000 == q && x % 0x100_0000 == r
  {
  }
}
