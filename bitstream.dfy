/**
 * Model of bs.c: an MSB-first bit reader over a byte buffer (`bs_t`), with
 * `bs_init`, the fixed-width readers `get_bits_u8/u16/u32/u64`, the general
 * `get_bits` and `skip_bits`.
 *
 * All five readers run the same loop; it is modelled once, as
 * `BitReader.Read`, and proved against `BitsAt`, a bit-by-bit reference
 * definition of "the n bits that start at bit pos, most significant first".
 * The loop's shifts and masks are the natural-number functions `Shl` (`<<`),
 * `Shr` (`>>`) and `Low` (`& (2^k - 1)`); `cache | y` is `cache + y` because
 * the loop keeps the bits of `cache` and `y` apart.
 */
module BitStream {
  import opened Bytes

  // ----------------------------------------------------- shifts on naturals

  /** 2 to the power n. */
  function Pow2(n: nat): (r: nat)
    ensures r >= 1
  {
    if n == 0 then 1 else 2 * Pow2(n - 1)
  }

  /** The reader's widths as powers of two. */
  lemma Pow2Widths()
    ensures Pow2(8) == 0x100 && Pow2(16) == 0x1_0000
    ensures Pow2(32) == 0x1_0000_0000 && Pow2(64) == 0x1_0000_0000_0000_0000
  {
    var p8 := Pow2(8);
    assert p8 == 0x100;
    var p16 := Pow2(16);
    assert p16 == p8 * p8 by { Pow2Add(8, 8); }
    var p32 := Pow2(32);
    assert p32 == p16 * p16 by { Pow2Add(16, 16); }
    assert Pow2(64) == p32 * p32 by { Pow2Add(32, 32); }
  }

  /** Adding exponents multiplies powers. */
  lemma {:induction false} Pow2Add(a: nat, b: nat)
    ensures Pow2(a + b) == Pow2(a) * Pow2(b)
  {
    if b > 0 {
      Pow2Add(a, b - 1);
    }
  }

  /** x << k. */
  function Shl(x: nat, k: nat): nat
  {
    if k == 0 then x else 2 * Shl(x, k - 1)
  }

  /** x >> k. */
  function Shr(x: nat, k: nat): nat
  {
    if k == 0 then x else Shr(x, k - 1) / 2
  }

  /** x & (2^k - 1): the low k bits of x. */
  function Low(x: nat, k: nat): nat
  {
    if k == 0 then 0 else 2 * Low(x / 2, k - 1) + x % 2
  }

  /** The low k bits are below 2^k. */
  lemma {:induction false} LowBound(x: nat, k: nat)
    ensures Low(x, k) < Pow2(k)
  {
    if k > 0 {
      LowBound(x / 2, k - 1);
    }
  }

  /** Shifting right by one more bit halves the result. */
  lemma {:induction false} ShrFirst(x: nat, k: nat)
    ensures Shr(x, k + 1) == Shr(x / 2, k)
  {
    if k > 0 {
      ShrFirst(x, k - 1);
    }
  }

  /** x is its high part shifted back into place plus its low k bits. */
  lemma {:induction false} ShrShlLow(x: nat, k: nat)
    ensures Shl(Shr(x, k), k) + Low(x, k) == x
  {
    if k > 0 {
      ShrFirst(x, k - 1);
      ShrShlLow(x / 2, k - 1);
      ShlFirst(Shr(x / 2, k - 1), k - 1);
    }
  }

  /** Shifting left by one more bit is shifting the double. */
  lemma {:induction false} ShlFirst(x: nat, k: nat)
    ensures Shl(x, k + 1) == Shl(2 * x, k)
  {
    if k > 0 {
      ShlFirst(x, k - 1);
    }
  }

  /** A shift left distributes over a sum. */
  lemma {:induction false} ShlAdd(a: nat, b: nat, k: nat)
    ensures Shl(a, k) + Shl(b, k) == Shl(a + b, k)
  {
    if k > 0 {
      ShlAdd(a, b, k - 1);
    }
  }

  /** Two shifts left add up. */
  lemma {:induction false} ShlShl(x: nat, a: nat, b: nat)
    ensures Shl(Shl(x, a), b) == Shl(x, a + b)
    decreases b
  {
    if b > 0 {
      ShlShl(x, a, b - 1);
    }
  }

  /** Shifting zero gives zero. */
  lemma {:induction false} ShlZero(k: nat)
    ensures Shl(0, k) == 0
  {
    if k > 0 {
      ShlZero(k - 1);
    }
  }

  /** A shift left by eight bits multiplies by 256. */
  lemma ShlByte(x: nat)
    ensures Shl(x, 8) == 256 * x
  {
    calc {
      Shl(x, 8);
      2 * Shl(x, 7);
      4 * Shl(x, 6);
      8 * Shl(x, 5);
      16 * Shl(x, 4);
      32 * Shl(x, 3);
      64 * Shl(x, 2);
      128 * Shl(x, 1);
      256 * x;
    }
  }

  /** A number below 2^k shifted right by k bits is zero. */
  lemma {:induction false} ShrSmall(x: nat, k: nat)
    requires x < Pow2(k)
    ensures Shr(x, k) == 0
  {
    if k > 0 {
      ShrFirst(x, k - 1);
      ShrSmall(x / 2, k - 1);
    }
  }

  /**
   * A number is split uniquely into a high part shifted left by k and a low
   * part below 2^k.
   */
  lemma {:induction false} ShlUnique(q: nat, r: nat, q': nat, r': nat, k: nat)
    requires r < Pow2(k) && r' < Pow2(k)
    requires Shl(q, k) + r == Shl(q', k) + r'
    ensures q == q' && r == r'
  {
    if k > 0 {
      ShlUnique(q, r / 2, q', r' / 2, k - 1);
    }
  }

  // ------------------------------------------------------- reference bits

  /** Bit i of the buffer, counting from the most significant bit of buf[0]. */
  function Bit(buf: seq<Byte>, i: nat): (b: nat)
    requires i < 8 * |buf|
    ensures b < 2
  {
    Shr(buf[i / 8], 7 - i % 8) % 2
  }

  /** The n bits that start at bit pos, read as an unsigned number, most significant first. */
  function BitsAt(buf: seq<Byte>, pos: nat, n: nat): nat
    requires pos + n <= 8 * |buf|
  {
    if n == 0 then 0 else 2 * BitsAt(buf, pos, n - 1) + Bit(buf, pos + n - 1)
  }

  /** n bits hold a number below 2^n. */
  lemma {:induction false} BitsBound(buf: seq<Byte>, pos: nat, n: nat)
    requires pos + n <= 8 * |buf|
    ensures BitsAt(buf, pos, n) < Pow2(n)
  {
    if n > 0 {
      BitsBound(buf, pos, n - 1);
    }
  }

  /**
   * Reading a + b bits is reading a bits, then the b bits after them: the
   * first part is the high part of the result.
   */
  lemma {:induction false} BitsSplit(buf: seq<Byte>, pos: nat, a: nat, b: nat)
    requires pos + a + b <= 8 * |buf|
    ensures BitsAt(buf, pos, a + b) == Shl(BitsAt(buf, pos, a), b) + BitsAt(buf, pos + a, b)
    decreases b
  {
    if b > 0 {
      BitsSplit(buf, pos, a, b - 1);
    }
  }

  /** The first t bits of byte k are that byte shifted right by 8 - t. */
  lemma {:induction false} ByteHighBits(buf: seq<Byte>, k: nat, t: nat)
    requires k < |buf| && t <= 8
    ensures BitsAt(buf, 8 * k, t) == Shr(buf[k], 8 - t)
    decreases t
  {
    if t == 0 {
      Pow2Widths();
      ShrSmall(buf[k], 8);
    } else {
      ByteHighBits(buf, k, t - 1);
      assert (8 * k + t - 1) / 8 == k && (8 * k + t - 1) % 8 == t - 1;
    }
  }

  /** The last 8 - s bits of byte k are that byte with its top s bits cleared. */
  lemma ByteLowBits(buf: seq<Byte>, k: nat, s: nat, pos: nat)
    requires k < |buf| && s <= 8 && pos == 8 * k + s
    ensures BitsAt(buf, pos, 8 - s) == Low(buf[k], 8 - s)
  {
    var hi, lo := BitsAt(buf, 8 * k, s), BitsAt(buf, pos, 8 - s);
    assert buf[k] == Shl(hi, 8 - s) + lo by {
      BitsSplit(buf, 8 * k, s, 8 - s);
      ByteHighBits(buf, k, 8);
    }
    BitsBound(buf, pos, 8 - s);
    LowPart(buf[k], 8 - s, hi, lo);
  }

  /** Whatever splits x into a high part shifted left by k and a part below 2^k has its low k bits as that part. */
  lemma LowPart(x: nat, k: nat, hi: nat, lo: nat)
    requires x == Shl(hi, k) + lo && lo < Pow2(k)
    ensures lo == Low(x, k)
  {
    ShrShlLow(x, k);
    LowBound(x, k);
    ShlUnique(hi, lo, Shr(x, k), Low(x, k), k);
  }

  /** The eight bits of byte k are that byte. */
  lemma AlignedByte(buf: seq<Byte>, k: nat)
    requires k < |buf|
    ensures BitsAt(buf, 8 * k, 8) == buf[k]
  {
    ByteHighBits(buf, k, 8);
  }

  /** The sixteen bits from byte k on are two bytes, big-endian. */
  lemma Aligned16(buf: seq<Byte>, k: nat)
    requires k + 2 <= |buf|
    ensures BitsAt(buf, 8 * k, 16) == buf[k] as int * 0x100 + buf[k + 1] as int
  {
    BitsSplit(buf, 8 * k, 8, 8);
    AlignedByte(buf, k);
    AlignedByte(buf, k + 1);
    ShlByte(buf[k]);
  }

  /** The thirty-two bits from byte k on are four bytes, big-endian. */
  lemma Aligned32(buf: seq<Byte>, k: nat)
    requires k + 4 <= |buf|
    ensures BitsAt(buf, 8 * k, 32) ==
      buf[k] as int * 0x100_0000 + buf[k + 1] as int * 0x1_0000 + buf[k + 2] as int * 0x100 + buf[k + 3] as int
  {
    BitsSplit(buf, 8 * k, 16, 16);
    Aligned16(buf, k);
    Aligned16(buf, k + 2);
    var hi := BitsAt(buf, 8 * k, 16);
    ShlShl(hi, 8, 8);
    ShlByte(hi);
    ShlByte(256 * hi);
  }

  // ------------------------------------------------------------ the reader

  /** bs_t: the buffer, the bit position of the next read and the bit limit. */
  class BitReader {
    const buf: seq<Byte>
    var pos: nat
    var limit: nat

    /** The limit lies within the buffer. */
    ghost predicate Valid()
      reads this
    {
      limit <= 8 * |buf|
    }

    /** bs_init(bs, data, bytes): read from bit 0 up to bit 8 * bytes. */
    constructor Init(data: seq<Byte>, bytes: nat)
      requires bytes <= |data|
      ensures Valid()
      ensures buf == data && pos == 0 && limit == 8 * bytes
    {
      buf := data;
      pos := 0;
      limit := 8 * bytes;
    }

    /** get_bits_u8: the next 8 bits, or 0 past the limit. */
    method GetBitsU8() returns (r: nat)
      requires Valid()
      modifies this
      ensures Valid() && limit == old(limit) && pos == old(pos) + 8
      ensures r < 0x100
      ensures r == (if old(pos) + 8 <= limit then BitsAt(buf, old(pos), 8) else 0)
    {
      r, pos := ReadBits(buf, pos, limit, 8);
      Pow2Widths();
    }

    /** get_bits_u16: the next 16 bits, or 0 past the limit. */
    method GetBitsU16() returns (r: nat)
      requires Valid()
      modifies this
      ensures Valid() && limit == old(limit) && pos == old(pos) + 16
      ensures r < 0x1_0000
      ensures r == (if old(pos) + 16 <= limit then BitsAt(buf, old(pos), 16) else 0)
    {
      r, pos := ReadBits(buf, pos, limit, 16);
      Pow2Widths();
    }

    /** get_bits_u32: the next 32 bits, or 0 past the limit. */
    method GetBitsU32() returns (r: nat)
      requires Valid()
      modifies this
      ensures Valid() && limit == old(limit) && pos == old(pos) + 32
      ensures r < 0x1_0000_0000
      ensures r == (if old(pos) + 32 <= limit then BitsAt(buf, old(pos), 32) else 0)
    {
      r, pos := ReadBits(buf, pos, limit, 32);
      Pow2Widths();
    }

    /** get_bits_u64: the next 64 bits, or 0 past the limit. */
    method GetBitsU64() returns (r: nat)
      requires Valid()
      modifies this
      ensures Valid() && limit == old(limit) && pos == old(pos) + 64
      ensures r < 0x1_0000_0000_0000_0000
      ensures r == (if old(pos) + 64 <= limit then BitsAt(buf, old(pos), 64) else 0)
    {
      r, pos := ReadBits(buf, pos, limit, 64);
      Pow2Widths();
    }

    /**
     * get_bits(bs, n) for 0 <= n <= 64 (the width of its uint64_t result).
     * With n = 0 it still loads the byte holding bit pos.
     */
    method GetBits(n: nat) returns (r: nat)
      requires Valid() && n <= 64
      requires pos + n <= limit ==> pos / 8 < |buf|
      modifies this
      ensures Valid() && limit == old(limit) && pos == old(pos) + n
      ensures r < Pow2(n)
      ensures r == (if old(pos) + n <= limit then BitsAt(buf, old(pos), n) else 0)
    {
      r, pos := ReadBits(buf, pos, limit, n);
    }

    /** skip_bits(bs, n): move the position by n, which may be negative. */
    method SkipBits(n: int)
      requires pos + n >= 0
      modifies this
      ensures pos == old(pos) + n && limit == old(limit)
    {
      pos := pos + n;
    }
  }

  /**
   * The body shared by get_bits_u8/u16/u32/u64 and get_bits, for n bits,
   * from the reader's buffer, position and limit to the result and the new
   * position. The position always moves on by n; the result is the n bits
   * at the old position when they end by the limit, and 0 when they do not.
   *
   * Even for n = 0 the loop loads the byte holding bit pos, so the position
   * must then lie inside the buffer.
   */
  method ReadBits(buf: seq<Byte>, pos: nat, limit: nat, n: nat) returns (r: nat, pos': nat)
    requires limit <= 8 * |buf| && n <= 64
    requires pos + n <= limit ==> pos / 8 < |buf|
    ensures pos' == pos + n
    ensures pos + n <= limit ==> r == BitsAt(buf, pos, n)
    ensures pos + n > limit ==> r == 0
    ensures r < Pow2(n)
  {
    var s := pos % 8;
    var shl: int := n + s;
    var p := pos / 8;
    pos' := pos + n;
    if pos' > limit {
      return 0, pos';
    }
    r := Collect(buf, pos, n, p, s, shl);
    BitsBound(buf, pos, n);
  }

  /** (acc << 8) | next for a byte `next`: the bits read so far, one byte longer. */
  function Join(acc: nat, next: nat): nat
  {
    acc * 256 + next
  }

  /**
   * The loop of the bs.c readers from its first load on: `next` starts as
   * byte p with its top s bits masked off, each turn with `shl -= 8` still
   * positive ORs `next << shl` into `cache` and loads the following byte, and
   * the result is `cache | (next >> -shl)`.
   */
  method Collect(buf: seq<Byte>, ghost start: nat, ghost n: nat, p: nat, s: nat, shl: int) returns (r: nat)
    requires start + n <= 8 * |buf| && p < |buf|
    requires start == 8 * p + s && s < 8 && shl == n + s
    ensures r == BitsAt(buf, start, n)
  {
    var q := p;
    var next: nat := Low(buf[q], 8 - s);
    ByteLowBits(buf, q, s, start);
    q := q + 1;
    var cache: nat := 0;
    ghost var acc: nat := 0;
    ghost var t: nat := 8 - s;
    var k := shl - 8;
    ghost var w: nat := k + 8;
    ShlZero(w);
    while k > 0
      invariant k == start + n - 8 * q && w == k + 8
      invariant start + t == 8 * q && q <= |buf|
      invariant cache == Shl(acc, w)
      invariant Join(acc, next) == BitsAt(buf, start, t)
      decreases k
    {
      ReadStep(buf, start, t, q, k, w, acc, next);
      cache := cache + Shl(next, k);
      acc := Join(acc, next);
      next := buf[q];
      q := q + 1;
      t := t + 8;
      k := k - 8;
      w := w - 8;
    }
    ghost var d: nat := -k;
    assert n + d == t;
    r := cache + Shr(next, -k);
    ReadFinish(buf, start, n, d, acc, next, cache);
  }

  /**
   * One turn of the reader's loop: `cache |= next << shl` puts the bits of
   * `next` just below those already in `cache`, and the byte loaded next
   * extends the bits read so far by eight.
   */
  lemma ReadStep(buf: seq<Byte>, start: nat, t: nat, p: nat, shl: nat, w: nat, acc: nat, next: nat)
    requires start + t == 8 * p && p < |buf| && w == shl + 8
    requires Join(acc, next) == BitsAt(buf, start, t)
    ensures Shl(acc, w) + Shl(next, shl) == Shl(Join(acc, next), shl)
    ensures Join(Join(acc, next), buf[p]) == BitsAt(buf, start, t + 8)
  {
    ShiftAppend(acc, next, shl);
    var before := BitsAt(buf, start, t);
    assert BitsAt(buf, start, t + 8) == Shl(before, 8) + buf[p] by {
      BitsSplit(buf, start, t, 8);
      AlignedByte(buf, p);
    }
    ShlByte(before);
    assert 8 * (p + 1) - start == t + 8;
  }

  /** The arithmetic of `cache |= next << shl`. */
  lemma ShiftAppend(acc: nat, next: nat, shl: nat)
    ensures Shl(acc, shl + 8) + Shl(next, shl) == Shl(acc * 256 + next, shl)
  {
    ShlShl(acc, 8, shl);
    ShlByte(acc);
    ShlAdd(acc * 256, next, shl);
  }

  /**
   * The reader's result: with d the bits of the last byte past the n wanted,
   * `cache | (next >> d)` drops those d bits from the bits read.
   */
  lemma ReadFinish(buf: seq<Byte>, start: nat, n: nat, d: nat, acc: nat, next: nat, cache: nat)
    requires d <= 8 && start + n + d <= 8 * |buf|
    requires Join(acc, next) == BitsAt(buf, start, n + d)
    requires cache == Shl(acc, 8 - d)
    ensures cache + Shr(next, d) == BitsAt(buf, start, n)
  {
    var hi, lo := BitsAt(buf, start, n), BitsAt(buf, start + n, d);
    assert Join(acc, next) == Shl(hi, d) + lo && lo < Pow2(d) by {
      BitsSplit(buf, start, n, d);
      BitsBound(buf, start + n, d);
    }
    DropLow(acc, next, cache, d, hi, lo);
  }

  /** The arithmetic of ReadFinish. */
  lemma DropLow(acc: nat, next: nat, cache: nat, d: nat, hi: nat, lo: nat)
    requires d <= 8 && cache == Shl(acc, 8 - d)
    requires Join(acc, next) == Shl(hi, d) + lo && lo < Pow2(d)
    ensures cache + Shr(next, d) == hi
  {
    assert Shl(cache, d) == acc * 256 by {
      ShlShl(acc, 8 - d, d);
      ShlByte(acc);
    }
    ShrShlLow(next, d);
    ShlAdd(cache, Shr(next, d), d);
    LowBound(next, d);
    ShlUnique(cache + Shr(next, d), Low(next, d), hi, lo, d);
  }
}
