/**
 * Model of u_internal_rw.h: big- and little-endian reads and writes of
 * 8-, 16-, 24-, 32-, 48- and 64-bit integers through a byte pointer, in the
 * explicit byte-composition forms of the header (`U_RB32` as four shifted
 * bytes, `U_WB32` as four byte stores).
 *
 * A read is a function of the bytes at the pointer. A write is a method that
 * stores into an array at an offset; what it stores is given by a function
 * (`BytesBE32` and so on), and the round-trip lemmas relate the two.
 */
module IntReadWrite {
  /** U_RB8(x): the byte at the pointer. */
  function ReadB8(p: seq<bv8>): (r: bv8)
    requires |p| >= 1
    ensures r == p[0]
  {
    p[0]
  }

  // ----------------------------------------------------------- byte stores

  /** The byte U_WB8 stores for d. */
  function BytesB8(d: bv8): (s: seq<bv8>)
    ensures |s| == 1
  {
    [d]
  }

  /** U_WB8(p, d): a single byte store; U_RB8 at the same place reads d back. */
  method WriteB8(p: array<bv8>, off: nat, d: bv8)
    requires off < p.Length
    modifies p
    ensures p[off..off + 1] == BytesB8(d)
    ensures ReadB8(p[off..]) == d
    ensures forall i :: 0 <= i < p.Length && i != off ==> p[i] == old(p[i])
  {
    p[off] := d;
  }

  /** Writing then reading 8 bits gives the value back. */
  lemma RoundTrip8(d: bv8)
    ensures ReadB8(BytesB8(d)) == d
  {
  }

  /** Reading then writing 8 bits gives the byte back. */
  lemma BytesRoundTrip8(p: seq<bv8>)
    requires |p| == 1
    ensures BytesB8(ReadB8(p)) == p
  {
  }

  /** Stores b at p[off..], one byte at a time from the first byte on (the order of the U_WL macros). */
  method StoreForward(p: array<bv8>, off: nat, b: seq<bv8>)
    requires off + |b| <= p.Length
    modifies p
    ensures p[off..off + |b|] == b
    ensures forall i :: 0 <= i < p.Length && !(off <= i < off + |b|) ==> p[i] == old(p[i])
  {
    for k := 0 to |b|
      invariant p[off..off + k] == b[..k]
      invariant forall i :: 0 <= i < p.Length && !(off <= i < off + k) ==> p[i] == old(p[i])
    {
      p[off + k] := b[k];
    }
  }

  /** Stores b at p[off..], one byte at a time from the last byte back (the order of the U_WB macros). */
  method StoreBackward(p: array<bv8>, off: nat, b: seq<bv8>)
    requires off + |b| <= p.Length
    modifies p
    ensures p[off..off + |b|] == b
    ensures forall i :: 0 <= i < p.Length && !(off <= i < off + |b|) ==> p[i] == old(p[i])
  {
    var k := |b|;
    while k > 0
      invariant 0 <= k <= |b|
      invariant p[off + k..off + |b|] == b[k..]
      invariant forall i :: 0 <= i < p.Length && !(off + k <= i < off + |b|) ==> p[i] == old(p[i])
    {
      k := k - 1;
      p[off + k] := b[k];
    }
  }

  // ---------------------------------------------------------------- 16 bits

  /** U_RB16(x) = (x[0] << 8) | x[1]: the first byte is the most significant. */
  function ReadBE16(p: seq<bv8>): (r: bv16)
    requires |p| >= 2
    ensures r >> 8 == p[0] as bv16 && r & 0xff == p[1] as bv16
  {
    ((p[0] as bv16) << 8) | (p[1] as bv16)
  }

  /** U_RL16(x) = (x[1] << 8) | x[0]: the first byte is the least significant. */
  function ReadLE16(p: seq<bv8>): (r: bv16)
    requires |p| >= 2
    ensures r >> 8 == p[1] as bv16 && r & 0xff == p[0] as bv16
  {
    ((p[1] as bv16) << 8) | (p[0] as bv16)
  }

  /** The bytes U_WB16 stores for the `uint16_t` d: high byte first. */
  function BytesBE16(d: bv16): (s: seq<bv8>)
    ensures |s| == 2
  {
    [(d >> 8) as bv8, (d & 0xff) as bv8]
  }

  /** The bytes U_WL16 stores for the `uint16_t` d: low byte first. */
  function BytesLE16(d: bv16): (s: seq<bv8>)
    ensures |s| == 2
  {
    [(d & 0xff) as bv8, (d >> 8) as bv8]
  }

  /** U_WB16(p, val): one store per byte, from the last byte back to the first. */
  method WriteBE16(p: array<bv8>, off: nat, d: bv16)
    requires off + 2 <= p.Length
    modifies p
    ensures p[off..off + 2] == BytesBE16(d)
    ensures forall i :: 0 <= i < p.Length && !(off <= i < off + 2) ==> p[i] == old(p[i])
  {
    StoreBackward(p, off, BytesBE16(d));
  }

  /** U_WL16(p, val): one store per byte, from the first byte on. */
  method WriteLE16(p: array<bv8>, off: nat, d: bv16)
    requires off + 2 <= p.Length
    modifies p
    ensures p[off..off + 2] == BytesLE16(d)
    ensures forall i :: 0 <= i < p.Length && !(off <= i < off + 2) ==> p[i] == old(p[i])
  {
    StoreForward(p, off, BytesLE16(d));
  }

  /** Writing then reading 16 bits gives the value back, in either byte order. */
  lemma RoundTrip16(d: bv16)
    ensures ReadBE16(BytesBE16(d)) == d
    ensures ReadLE16(BytesLE16(d)) == d
  {
  }

  /** Reading then writing 16 bits gives the bytes back, in either byte order. */
  lemma BytesRoundTrip16(p: seq<bv8>)
    requires |p| == 2
    ensures BytesBE16(ReadBE16(p)) == p
    ensures BytesLE16(ReadLE16(p)) == p
  {
  }

  // ---------------------------------------------------------------- 24 bits

  /** U_RB24: the first byte is the most significant. */
  function ReadBE24(p: seq<bv8>): (r: bv32)
    requires |p| >= 3
    ensures r < 1 << 24
    ensures (r >> 16) & 0xff == p[0] as bv32
    ensures (r >> 8) & 0xff == p[1] as bv32
    ensures r & 0xff == p[2] as bv32
  {
    ((p[0] as bv32) << 16) |
    ((p[1] as bv32) << 8) |
    (p[2] as bv32)
  }

  /** U_RL24: the first byte is the least significant. */
  function ReadLE24(p: seq<bv8>): (r: bv32)
    requires |p| >= 3
    ensures r < 1 << 24
    ensures (r >> 16) & 0xff == p[2] as bv32
    ensures (r >> 8) & 0xff == p[1] as bv32
    ensures r & 0xff == p[0] as bv32
  {
    ((p[2] as bv32) << 16) |
    ((p[1] as bv32) << 8) |
    (p[0] as bv32)
  }

  /** The bytes U_WB24 stores for d, most significant byte first (the top byte of d is not stored). */
  function BytesBE24(d: bv32): (s: seq<bv8>)
    ensures |s| == 3
  {
    [((d >> 16) & 0xff) as bv8, ((d >> 8) & 0xff) as bv8, (d & 0xff) as bv8]
  }

  /** The bytes U_WL24 stores for d, least significant byte first (the top byte of d is not stored). */
  function BytesLE24(d: bv32): (s: seq<bv8>)
    ensures |s| == 3
  {
    [(d & 0xff) as bv8, ((d >> 8) & 0xff) as bv8, ((d >> 16) & 0xff) as bv8]
  }

  /** U_WB24(p, d): one store per byte, from the last byte back to the first. */
  method WriteBE24(p: array<bv8>, off: nat, d: bv32)
    requires off + 3 <= p.Length
    modifies p
    ensures p[off..off + 3] == BytesBE24(d)
    ensures forall i :: 0 <= i < p.Length && !(off <= i < off + 3) ==> p[i] == old(p[i])
  {
    StoreBackward(p, off, BytesBE24(d));
  }

  /** U_WL24(p, d): one store per byte, from the first byte on. */
  method WriteLE24(p: array<bv8>, off: nat, d: bv32)
    requires off + 3 <= p.Length
    modifies p
    ensures p[off..off + 3] == BytesLE24(d)
    ensures forall i :: 0 <= i < p.Length && !(off <= i < off + 3) ==> p[i] == old(p[i])
  {
    StoreForward(p, off, BytesLE24(d));
  }

  /** Writing then reading 24 bits keeps the low 24 bits of the value. */
  lemma RoundTrip24(d: bv32)
    ensures ReadBE24(BytesBE24(d)) == d & 0xff_ffff
    ensures ReadLE24(BytesLE24(d)) == d & 0xff_ffff
  {
  }

  /** Reading then writing 24 bits gives the bytes back. */
  lemma BytesRoundTrip24(p: seq<bv8>)
    requires |p| == 3
    ensures BytesBE24(ReadBE24(p)) == p
    ensures BytesLE24(ReadLE24(p)) == p
  {
  }

  // ---------------------------------------------------------------- 32 bits

  /** U_RB32: the first byte is the most significant. */
  function ReadBE32(p: seq<bv8>): (r: bv32)
    requires |p| >= 4
    ensures r >> 24 == p[0] as bv32
    ensures (r >> 16) & 0xff == p[1] as bv32
    ensures (r >> 8) & 0xff == p[2] as bv32
    ensures r & 0xff == p[3] as bv32
  {
    ((p[0] as bv32) << 24) |
    ((p[1] as bv32) << 16) |
    ((p[2] as bv32) << 8) |
    (p[3] as bv32)
  }

  /** U_RL32: the first byte is the least significant. */
  function ReadLE32(p: seq<bv8>): (r: bv32)
    requires |p| >= 4
    ensures r >> 24 == p[3] as bv32
    ensures (r >> 16) & 0xff == p[2] as bv32
    ensures (r >> 8) & 0xff == p[1] as bv32
    ensures r & 0xff == p[0] as bv32
  {
    ((p[3] as bv32) << 24) |
    ((p[2] as bv32) << 16) |
    ((p[1] as bv32) << 8) |
    (p[0] as bv32)
  }

  /** The bytes U_WB32 stores for d, most significant byte first. */
  function BytesBE32(d: bv32): (s: seq<bv8>)
    ensures |s| == 4
  {
    [(d >> 24) as bv8, ((d >> 16) & 0xff) as bv8, ((d >> 8) & 0xff) as bv8, (d & 0xff) as bv8]
  }

  /** The bytes U_WL32 stores for d, least significant byte first. */
  function BytesLE32(d: bv32): (s: seq<bv8>)
    ensures |s| == 4
  {
    [(d & 0xff) as bv8, ((d >> 8) & 0xff) as bv8, ((d >> 16) & 0xff) as bv8, (d >> 24) as bv8]
  }

  /** U_WB32(p, d): one store per byte, from the last byte back to the first. */
  method WriteBE32(p: array<bv8>, off: nat, d: bv32)
    requires off + 4 <= p.Length
    modifies p
    ensures p[off..off + 4] == BytesBE32(d)
    ensures forall i :: 0 <= i < p.Length && !(off <= i < off + 4) ==> p[i] == old(p[i])
  {
    StoreBackward(p, off, BytesBE32(d));
  }

  /** U_WL32(p, d): one store per byte, from the first byte on. */
  method WriteLE32(p: array<bv8>, off: nat, d: bv32)
    requires off + 4 <= p.Length
    modifies p
    ensures p[off..off + 4] == BytesLE32(d)
    ensures forall i :: 0 <= i < p.Length && !(off <= i < off + 4) ==> p[i] == old(p[i])
  {
    StoreForward(p, off, BytesLE32(d));
  }

  /** Writing then reading 32 bits gives the value back, in either byte order. */
  lemma RoundTrip32(d: bv32)
    ensures ReadBE32(BytesBE32(d)) == d
    ensures ReadLE32(BytesLE32(d)) == d
  {
  }

  /** Reading then writing 32 bits gives the bytes back, in either byte order. */
  lemma BytesRoundTrip32(p: seq<bv8>)
    requires |p| == 4
    ensures BytesBE32(ReadBE32(p)) == p
    ensures BytesLE32(ReadLE32(p)) == p
  {
  }

  // ---------------------------------------------------------------- 48 bits

  /** U_RB48: the first byte is the most significant. */
  function ReadBE48(p: seq<bv8>): (r: bv64)
    requires |p| >= 6
    ensures r < 1 << 48
    ensures (r >> 40) & 0xff == p[0] as bv64
    ensures (r >> 32) & 0xff == p[1] as bv64
    ensures (r >> 24) & 0xff == p[2] as bv64
    ensures (r >> 16) & 0xff == p[3] as bv64
    ensures (r >> 8) & 0xff == p[4] as bv64
    ensures r & 0xff == p[5] as bv64
  {
    ((p[0] as bv64) << 40) |
    ((p[1] as bv64) << 32) |
    ((p[2] as bv64) << 24) |
    ((p[3] as bv64) << 16) |
    ((p[4] as bv64) << 8) |
    (p[5] as bv64)
  }

  /** U_RL48: the first byte is the least significant. */
  function ReadLE48(p: seq<bv8>): (r: bv64)
    requires |p| >= 6
    ensures r < 1 << 48
    ensures (r >> 40) & 0xff == p[5] as bv64
    ensures (r >> 32) & 0xff == p[4] as bv64
    ensures (r >> 24) & 0xff == p[3] as bv64
    ensures (r >> 16) & 0xff == p[2] as bv64
    ensures (r >> 8) & 0xff == p[1] as bv64
    ensures r & 0xff == p[0] as bv64
  {
    ((p[5] as bv64) << 40) |
    ((p[4] as bv64) << 32) |
    ((p[3] as bv64) << 24) |
    ((p[2] as bv64) << 16) |
    ((p[1] as bv64) << 8) |
    (p[0] as bv64)
  }

  /** The bytes U_WB48 stores for d, most significant byte first (the top two bytes of d are not stored). */
  function BytesBE48(d: bv64): (s: seq<bv8>)
    ensures |s| == 6
  {
    [((d >> 40) & 0xff) as bv8, ((d >> 32) & 0xff) as bv8, ((d >> 24) & 0xff) as bv8, ((d >> 16) & 0xff) as bv8, ((d >> 8) & 0xff) as bv8, (d & 0xff) as bv8]
  }

  /** The bytes U_WL48 stores for d, least significant byte first (the top two bytes of d are not stored). */
  function BytesLE48(d: bv64): (s: seq<bv8>)
    ensures |s| == 6
  {
    [(d & 0xff) as bv8, ((d >> 8) & 0xff) as bv8, ((d >> 16) & 0xff) as bv8, ((d >> 24) & 0xff) as bv8, ((d >> 32) & 0xff) as bv8, ((d >> 40) & 0xff) as bv8]
  }

  /** U_WB48(p, d): one store per byte, from the last byte back to the first. */
  method WriteBE48(p: array<bv8>, off: nat, d: bv64)
    requires off + 6 <= p.Length
    modifies p
    ensures p[off..off + 6] == BytesBE48(d)
    ensures forall i :: 0 <= i < p.Length && !(off <= i < off + 6) ==> p[i] == old(p[i])
  {
    StoreBackward(p, off, BytesBE48(d));
  }

  /** U_WL48(p, d): one store per byte, from the first byte on. */
  method WriteLE48(p: array<bv8>, off: nat, d: bv64)
    requires off + 6 <= p.Length
    modifies p
    ensures p[off..off + 6] == BytesLE48(d)
    ensures forall i :: 0 <= i < p.Length && !(off <= i < off + 6) ==> p[i] == old(p[i])
  {
    StoreForward(p, off, BytesLE48(d));
  }

  /** Writing then reading 48 bits keeps the low 48 bits of the value. */
  lemma RoundTrip48(d: bv64)
    ensures ReadBE48(BytesBE48(d)) == d & 0xffff_ffff_ffff
    ensures ReadLE48(BytesLE48(d)) == d & 0xffff_ffff_ffff
  {
  }

  /** Reading then writing 48 bits gives the bytes back. */
  lemma BytesRoundTrip48(p: seq<bv8>)
    requires |p| == 6
    ensures BytesBE48(ReadBE48(p)) == p
    ensures BytesLE48(ReadLE48(p)) == p
  {
  }

  // ---------------------------------------------------------------- 64 bits

  /** U_RB64: the first byte is the most significant. */
  function ReadBE64(p: seq<bv8>): (r: bv64)
    requires |p| >= 8
    ensures r >> 56 == p[0] as bv64
    ensures (r >> 48) & 0xff == p[1] as bv64
    ensures (r >> 40) & 0xff == p[2] as bv64
    ensures (r >> 32) & 0xff == p[3] as bv64
    ensures (r >> 24) & 0xff == p[4] as bv64
    ensures (r >> 16) & 0xff == p[5] as bv64
    ensures (r >> 8) & 0xff == p[6] as bv64
    ensures r & 0xff == p[7] as bv64
  {
    ((p[0] as bv64) << 56) |
    ((p[1] as bv64) << 48) |
    ((p[2] as bv64) << 40) |
    ((p[3] as bv64) << 32) |
    ((p[4] as bv64) << 24) |
    ((p[5] as bv64) << 16) |
    ((p[6] as bv64) << 8) |
    (p[7] as bv64)
  }

  /** U_RL64: the first byte is the least significant. */
  function ReadLE64(p: seq<bv8>): (r: bv64)
    requires |p| >= 8
    ensures r >> 56 == p[7] as bv64
    ensures (r >> 48) & 0xff == p[6] as bv64
    ensures (r >> 40) & 0xff == p[5] as bv64
    ensures (r >> 32) & 0xff == p[4] as bv64
    ensures (r >> 24) & 0xff == p[3] as bv64
    ensures (r >> 16) & 0xff == p[2] as bv64
    ensures (r >> 8) & 0xff == p[1] as bv64
    ensures r & 0xff == p[0] as bv64
  {
    ((p[7] as bv64) << 56) |
    ((p[6] as bv64) << 48) |
    ((p[5] as bv64) << 40) |
    ((p[4] as bv64) << 32) |
    ((p[3] as bv64) << 24) |
    ((p[2] as bv64) << 16) |
    ((p[1] as bv64) << 8) |
    (p[0] as bv64)
  }

  /** The bytes U_WB64 stores for d, most significant byte first. */
  function BytesBE64(d: bv64): (s: seq<bv8>)
    ensures |s| == 8
  {
    [(d >> 56) as bv8, ((d >> 48) & 0xff) as bv8, ((d >> 40) & 0xff) as bv8, ((d >> 32) & 0xff) as bv8, ((d >> 24) & 0xff) as bv8, ((d >> 16) & 0xff) as bv8, ((d >> 8) & 0xff) as bv8, (d & 0xff) as bv8]
  }

  /** The bytes U_WL64 stores for d, least significant byte first. */
  function BytesLE64(d: bv64): (s: seq<bv8>)
    ensures |s| == 8
  {
    [(d & 0xff) as bv8, ((d >> 8) & 0xff) as bv8, ((d >> 16) & 0xff) as bv8, ((d >> 24) & 0xff) as bv8, ((d >> 32) & 0xff) as bv8, ((d >> 40) & 0xff) as bv8, ((d >> 48) & 0xff) as bv8, (d >> 56) as bv8]
  }

  /** U_WB64(p, d): one store per byte, from the last byte back to the first. */
  method WriteBE64(p: array<bv8>, off: nat, d: bv64)
    requires off + 8 <= p.Length
    modifies p
    ensures p[off..off + 8] == BytesBE64(d)
    ensures forall i :: 0 <= i < p.Length && !(off <= i < off + 8) ==> p[i] == old(p[i])
  {
    StoreBackward(p, off, BytesBE64(d));
  }

  /** U_WL64(p, d): one store per byte, from the first byte on. */
  method WriteLE64(p: array<bv8>, off: nat, d: bv64)
    requires off + 8 <= p.Length
    modifies p
    ensures p[off..off + 8] == BytesLE64(d)
    ensures forall i :: 0 <= i < p.Length && !(off <= i < off + 8) ==> p[i] == old(p[i])
  {
    StoreForward(p, off, BytesLE64(d));
  }

  /** Writing then reading 64 bits gives the value back, in either byte order. */
  lemma RoundTrip64(d: bv64)
    ensures ReadBE64(BytesBE64(d)) == d
    ensures ReadLE64(BytesLE64(d)) == d
  {
    RoundTripBE64(d);
    RoundTripLE64(d);
  }

  /** The big-endian half of RoundTrip64. */
  lemma RoundTripBE64(d: bv64)
    ensures ReadBE64(BytesBE64(d)) == d
  {
  }

  /** The little-endian half of RoundTrip64. */
  lemma RoundTripLE64(d: bv64)
    ensures ReadLE64(BytesLE64(d)) == d
  {
  }

  /** Reading then writing 64 bits gives the bytes back, in either byte order. */
  lemma BytesRoundTrip64(p: seq<bv8>)
    requires |p| == 8
    ensures BytesBE64(ReadBE64(p)) == p
    ensures BytesLE64(ReadLE64(p)) == p
  {
    BytesRoundTripBE64(p);
    BytesRoundTripLE64(p);
  }

  /** The big-endian half of BytesRoundTrip64. */
  lemma BytesRoundTripBE64(p: seq<bv8>)
    requires |p| == 8
    ensures BytesBE64(ReadBE64(p)) == p
  {
  }

  /** The little-endian half of BytesRoundTrip64. */
  lemma BytesRoundTripLE64(p: seq<bv8>)
    requires |p| == 8
    ensures BytesLE64(ReadLE64(p)) == p
  {
  }
}
