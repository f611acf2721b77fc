/**
 * Model of u_bit_stream.h: the header-only copy of the bs.c bit reader
 * (`bit_stream_t` with `u_bit_stream_bs_init`, `u_bit_stream_get_bits_u8/
 * u16/u32/u64`, `u_bit_stream_get_bits` and `u_bit_stream_skip_bits`).
 * Its functions have the same bodies as those of bs.c, so each of them runs
 * `BitStream.ReadBits` and keeps the same contract.
 */
module UBitStream {
  import opened Bytes
  import opened BitStream

  /** bit_stream_t: the buffer, the bit position of the next read and the bit limit. */
  class BitStreamContext {
    const buf: seq<Byte>
    var pos: nat
    var limit: nat

    /** The limit lies within the buffer. */
    ghost predicate Valid()
      reads this
    {
      limit <= 8 * |buf|
    }

    /** u_bit_stream_bs_init(bs, data, bytes): read from bit 0 up to bit 8 * bytes. */
    constructor Init(data: seq<Byte>, bytes: nat)
      requires bytes <= |data|
      ensures Valid()
      ensures buf == data && pos == 0 && limit == 8 * bytes
    {
      buf := data;
      pos := 0;
      limit := 8 * bytes;
    }

    /** u_bit_stream_get_bits_u8: the next 8 bits, or 0 past the limit. */
    method GetBitsU8() returns (r: nat)
      requires Valid()
      modifies this
      ensures Valid() && limit == old(limit) && pos == old(pos) + 8
      ensures r < 0x100
      ensures r == (if old(pos) + 8 <= limit then BitsAt(buf, old(pos), 8) else 0)
    {
      r, pos := ReadBits(buf, pos, limit, 8);
      Pow2Widths();
    }

    /** u_bit_stream_get_bits_u16: the next 16 bits, or 0 past the limit. */
    method GetBitsU16() returns (r: nat)
      requires Valid()
      modifies this
      ensures Valid() && limit == old(limit) && pos == old(pos) + 16
      ensures r < 0x1_0000
      ensures r == (if old(pos) + 16 <= limit then BitsAt(buf, old(pos), 16) else 0)
    {
      r, pos := ReadBits(buf, pos, limit, 16);
      Pow2Widths();
    }

    /** u_bit_stream_get_bits_u32: the next 32 bits, or 0 past the limit. */
    method GetBitsU32() returns (r: nat)
      requires Valid()
      modifies this
      ensures Valid() && limit == old(limit) && pos == old(pos) + 32
      ensures r < 0x1_0000_0000
      ensures r == (if old(pos) + 32 <= limit then BitsAt(buf, old(pos), 32) else 0)
    {
      r, pos := ReadBits(buf, pos, limit, 32);
      Pow2Widths();
    }

    /** u_bit_stream_get_bits_u64: the next 64 bits, or 0 past the limit. */
    method GetBitsU64() returns (r: nat)
      requires Valid()
      modifies this
      ensures Valid() && limit == old(limit) && pos == old(pos) + 64
      ensures r < 0x1_0000_0000_0000_0000
      ensures r == (if old(pos) + 64 <= limit then BitsAt(buf, old(pos), 64) else 0)
    {
      r, pos := ReadBits(buf, pos, limit, 64);
      Pow2Widths();
    }

    /** u_bit_stream_get_bits(bs, n) for 0 <= n <= 64. */
    method GetBits(n: nat) returns (r: nat)
      requires Valid() && n <= 64
      requires pos + n <= limit ==> pos / 8 < |buf|
      modifies this
      ensures Valid() && limit == old(limit) && pos == old(pos) + n
      ensures r < Pow2(n)
      ensures r == (if old(pos) + n <= limit then BitsAt(buf, old(pos), n) else 0)
    {
      r, pos := ReadBits(buf, pos, limit, n);
    }

    /** u_bit_stream_skip_bits(bs, n): move the position by n, which may be negative. */
    method SkipBits(n: int)
      requires pos + n >= 0
      modifies this
      ensures pos == old(pos) + n && limit == old(limit)
    {
      pos := pos + n;
    }
  }
}
