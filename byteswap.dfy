/**
 * Model of u_bs_swap.h: byte-order reversal of 16-, 32- and 64-bit words.
 * The C operators (shift, and, or) are the bit-vector operators here. The
 * constant-expression macros are applied by the source to `uint64_t` as well
 * as to narrower words, so they take a 64-bit argument. Each contract says,
 * byte by byte, where every byte of the argument ends up.
 */
module ByteSwap {

  /** U_B_SWAP16C(x) = ((x << 8) & 0xff00) | ((x >> 8) & 0x00ff): swaps the low two bytes. */
  function Swap16C(x: bv64): (r: bv64)
    ensures r < 0x1_0000
    ensures r & 0xff == (x >> 8) & 0xff && (r >> 8) & 0xff == x & 0xff
  {
    ((x << 8) & 0xff00) | ((x >> 8) & 0x00ff)
  }

  /** U_B_SWAP16C looks only at the low 16 bits of its argument. */
  lemma Swap16CLow16(x: bv64)
    ensures Swap16C(x) == Swap16C(x & 0xffff)
  {
  }

  /** U_B_SWAP32C(x) = (U_B_SWAP16C(x) << 16) | U_B_SWAP16C(x >> 16): reverses the low four bytes. */
  function Swap32C(x: bv64): (r: bv64)
    ensures r < 0x1_0000_0000
    ensures r & 0xff == (x >> 24) & 0xff
    ensures (r >> 8) & 0xff == (x >> 16) & 0xff
    ensures (r >> 16) & 0xff == (x >> 8) & 0xff
    ensures (r >> 24) & 0xff == x & 0xff
  {
    (Swap16C(x) << 16) | Swap16C(x >> 16)
  }

  /** U_B_SWAP64C(x) = (U_B_SWAP32C(x) << 32) | U_B_SWAP32C(x >> 32): reverses all eight bytes. */
  function Swap64C(x: bv64): (r: bv64)
    ensures r & 0xff == (x >> 56) & 0xff
    ensures (r >> 8) & 0xff == (x >> 48) & 0xff
    ensures (r >> 16) & 0xff == (x >> 40) & 0xff
    ensures (r >> 24) & 0xff == (x >> 32) & 0xff
    ensures (r >> 32) & 0xff == (x >> 24) & 0xff
    ensures (r >> 40) & 0xff == (x >> 16) & 0xff
    ensures (r >> 48) & 0xff == (x >> 8) & 0xff
    ensures (r >> 56) & 0xff == x & 0xff
  {
    (Swap32C(x) << 32) | Swap32C(x >> 32)
  }

  /** u_b_swap16: `x = (x >> 8) | (x << 8)` on a `uint16_t`. */
  function BSwap16(x: bv16): (r: bv16)
    ensures r & 0xff == x >> 8 && r >> 8 == x & 0xff
  {
    (x >> 8) | (x << 8)
  }

  /**
   * u_b_swap32(x) = U_B_SWAP32C(x) with x a `uint32_t`, so the macro's
   * shifts are evaluated in 32-bit arithmetic.
   */
  function BSwap32(x: bv32): (r: bv32)
    ensures r & 0xff == (x >> 24) & 0xff
    ensures (r >> 8) & 0xff == (x >> 16) & 0xff
    ensures (r >> 16) & 0xff == (x >> 8) & 0xff
    ensures (r >> 24) & 0xff == x & 0xff
  {
    ((((x << 8) & 0xff00) | ((x >> 8) & 0x00ff)) << 16)
      | ((((x >> 16) << 8) & 0xff00) | (((x >> 16) >> 8) & 0x00ff))
  }

  /**
   * u_b_swap64(x) = ((uint64_t)u_b_swap32(x) << 32) | u_b_swap32(x >> 32);
   * passing the `uint64_t` to u_b_swap32 keeps its low 32 bits.
   */
  function BSwap64(x: bv64): (r: bv64)
    ensures r & 0xff == (x >> 56) & 0xff
    ensures (r >> 8) & 0xff == (x >> 48) & 0xff
    ensures (r >> 16) & 0xff == (x >> 40) & 0xff
    ensures (r >> 24) & 0xff == (x >> 32) & 0xff
    ensures (r >> 32) & 0xff == (x >> 24) & 0xff
    ensures (r >> 40) & 0xff == (x >> 16) & 0xff
    ensures (r >> 48) & 0xff == (x >> 8) & 0xff
    ensures (r >> 56) & 0xff == x & 0xff
  {
    ((BSwap32((x & 0xffff_ffff) as bv32) as bv64) << 32) | (BSwap32((x >> 32) as bv32) as bv64)
  }

  /** Swapping twice gives the word back, for each width. */
  lemma BSwap16Involution(x: bv16)
    ensures BSwap16(BSwap16(x)) == x
  {
  }

  lemma BSwap32Involution(x: bv32)
    ensures BSwap32(BSwap32(x)) == x
  {
  }

  lemma BSwap64Involution(x: bv64)
    ensures BSwap64(BSwap64(x)) == x
  {
  }

  /** The examples printed in the header's documentation comment. */
  lemma DocumentedExamples()
    ensures Swap16C(0x1234) == 0x3412
    ensures Swap32C(0x1234_5678) == 0x7856_3412
    ensures Swap64C(0x1020_3040_5060_7080) == 0x8070_6050_4030_2010
  {
  }
}
