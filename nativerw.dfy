/**
 * Model of the second way u_internal_rw.h defines its big- and little-endian
 * accessors for 16, 32 and 64 bits: a native-order load or store (`U_RN`,
 * `U_WN`) combined with `u_b_swap` when the host's byte order differs from
 * the wanted one. Each accessor built that way is proved equal to the
 * explicit byte-composition form in IntReadWrite, on both kinds of host.
 */
module NativeReadWrite {
  import opened ByteSwap
  import opened IntReadWrite

  /** The host's byte order (`U_HAVE_BIGENDIAN`). */
  datatype Host = BigEndianHost | LittleEndianHost

  /** U_RN16: the host loads the two bytes in its own order. */
  function ReadNative16(h: Host, p: seq<bv8>): bv16
    requires |p| >= 2
  {
    if h == BigEndianHost then ReadBE16(p) else ReadLE16(p)
  }

  /** U_RN32: the host loads the four bytes in its own order. */
  function ReadNative32(h: Host, p: seq<bv8>): bv32
    requires |p| >= 4
  {
    if h == BigEndianHost then ReadBE32(p) else ReadLE32(p)
  }

  /** U_RN64: the host loads the eight bytes in its own order. */
  function ReadNative64(h: Host, p: seq<bv8>): bv64
    requires |p| >= 8
  {
    if h == BigEndianHost then ReadBE64(p) else ReadLE64(p)
  }

  /** U_WN16: the bytes the host stores for d, in its own order. */
  function BytesNative16(h: Host, d: bv16): seq<bv8>
  {
    if h == BigEndianHost then BytesBE16(d) else BytesLE16(d)
  }

  /** U_WN32: the bytes the host stores for d, in its own order. */
  function BytesNative32(h: Host, d: bv32): seq<bv8>
  {
    if h == BigEndianHost then BytesBE32(d) else BytesLE32(d)
  }

  /** U_WN64: the bytes the host stores for d, in its own order. */
  function BytesNative64(h: Host, d: bv64): seq<bv8>
  {
    if h == BigEndianHost then BytesBE64(d) else BytesLE64(d)
  }

  // ------------------------------------------------------------------ reads

  /** U_RB(16, p): a native load, swapped on a little-endian host, is the big-endian read. */
  function ReadBEViaSwap16(h: Host, p: seq<bv8>): (r: bv16)
    requires |p| >= 2
    ensures r == ReadBE16(p)
  {
    if h == BigEndianHost then ReadNative16(h, p) else BSwap16(ReadNative16(h, p))
  }

  /** U_RL(16, p): a native load, swapped on a big-endian host, is the little-endian read. */
  function ReadLEViaSwap16(h: Host, p: seq<bv8>): (r: bv16)
    requires |p| >= 2
    ensures r == ReadLE16(p)
  {
    if h == BigEndianHost then BSwap16(ReadNative16(h, p)) else ReadNative16(h, p)
  }

  /** U_RB(32, p): a native load, swapped on a little-endian host, is the big-endian read. */
  function ReadBEViaSwap32(h: Host, p: seq<bv8>): (r: bv32)
    requires |p| >= 4
    ensures r == ReadBE32(p)
  {
    if h == BigEndianHost then ReadNative32(h, p) else BSwap32(ReadNative32(h, p))
  }

  /** U_RL(32, p): a native load, swapped on a big-endian host, is the little-endian read. */
  function ReadLEViaSwap32(h: Host, p: seq<bv8>): (r: bv32)
    requires |p| >= 4
    ensures r == ReadLE32(p)
  {
    if h == BigEndianHost then BSwap32(ReadNative32(h, p)) else ReadNative32(h, p)
  }

  /** U_RB(64, p): a native load, swapped on a little-endian host, is the big-endian read. */
  function ReadBEViaSwap64(h: Host, p: seq<bv8>): (r: bv64)
    requires |p| >= 8
    ensures r == ReadBE64(p)
  {
    if h == BigEndianHost then ReadNative64(h, p)
    else
      SwappedRead64(p, ReadLE64(p), ReadBE64(p));
      BSwap64(ReadNative64(h, p))
  }

  /** U_RL(64, p): a native load, swapped on a big-endian host, is the little-endian read. */
  function ReadLEViaSwap64(h: Host, p: seq<bv8>): (r: bv64)
    requires |p| >= 8
    ensures r == ReadLE64(p)
  {
    if h == BigEndianHost then
      SwappedRead64(p, ReadBE64(p), ReadLE64(p));
      BSwap64(ReadNative64(h, p))
    else ReadNative64(h, p)
  }

  /**
   * Two 64-bit reads of the same bytes in opposite orders are each other's
   * byte swap.
   */
  lemma SwappedRead64(p: seq<bv8>, x: bv64, y: bv64)
    requires |p| >= 8
    requires (x == ReadLE64(p) && y == ReadBE64(p)) || (x == ReadBE64(p) && y == ReadLE64(p))
    ensures BSwap64(x) == y
  {
    if x == ReadLE64(p) && y == ReadBE64(p) {
      MirrorLow64(p, x, y);
      MirrorHigh64(p, x, y);
      SwapMirror64(x, y);
    } else {
      MirrorLow64(p, y, x);
      MirrorHigh64(p, y, x);
      SwapMirror64(x, y);
    }
  }

  /** Byte k of a little-endian read is byte 7 - k of the big-endian read, for k < 4. */
  lemma MirrorLow64(p: seq<bv8>, x: bv64, y: bv64)
    requires |p| >= 8 && x == ReadLE64(p) && y == ReadBE64(p)
    ensures x & 0xff == y >> 56
    ensures (x >> 8) & 0xff == (y >> 48) & 0xff
    ensures (x >> 16) & 0xff == (y >> 40) & 0xff
    ensures (x >> 24) & 0xff == (y >> 32) & 0xff
  {
  }

  /** Byte k of a little-endian read is byte 7 - k of the big-endian read, for k >= 4. */
  lemma MirrorHigh64(p: seq<bv8>, x: bv64, y: bv64)
    requires |p| >= 8 && x == ReadLE64(p) && y == ReadBE64(p)
    ensures (x >> 32) & 0xff == (y >> 24) & 0xff
    ensures (x >> 40) & 0xff == (y >> 16) & 0xff
    ensures (x >> 48) & 0xff == (y >> 8) & 0xff
    ensures (x >> 56) & 0xff == y & 0xff
  {
  }

  /** A value whose bytes mirror those of y swaps to y. */
  lemma SwapMirror64(x: bv64, y: bv64)
    requires x & 0xff == y >> 56
    requires (x >> 8) & 0xff == (y >> 48) & 0xff
    requires (x >> 16) & 0xff == (y >> 40) & 0xff
    requires (x >> 24) & 0xff == (y >> 32) & 0xff
    requires (x >> 32) & 0xff == (y >> 24) & 0xff
    requires (x >> 40) & 0xff == (y >> 16) & 0xff
    requires (x >> 48) & 0xff == (y >> 8) & 0xff
    requires (x >> 56) & 0xff == y & 0xff
    ensures BSwap64(x) == y
  {
    SameBytes64(BSwap64(x), y);
  }

  /** Two 64-bit values with the same eight bytes are equal. */
  lemma SameBytes64(a: bv64, b: bv64)
    requires a & 0xff == b & 0xff
    requires (a >> 8) & 0xff == (b >> 8) & 0xff
    requires (a >> 16) & 0xff == (b >> 16) & 0xff
    requires (a >> 24) & 0xff == (b >> 24) & 0xff
    requires (a >> 32) & 0xff == (b >> 32) & 0xff
    requires (a >> 40) & 0xff == (b >> 40) & 0xff
    requires (a >> 48) & 0xff == (b >> 48) & 0xff
    requires a >> 56 == b >> 56
    ensures a == b
  {
  }

  // ----------------------------------------------------------------- writes

  /** U_WB(16, p, v): the bytes a native store of the (maybe swapped) value leaves are the big-endian ones. */
  function BytesBEViaSwap16(h: Host, v: bv16): (s: seq<bv8>)
    ensures s == BytesBE16(v)
  {
    if h == BigEndianHost then BytesNative16(h, v) else BytesNative16(h, BSwap16(v))
  }

  /** U_WL(16, p, v): the bytes a native store of the (maybe swapped) value leaves are the little-endian ones. */
  function BytesLEViaSwap16(h: Host, v: bv16): (s: seq<bv8>)
    ensures s == BytesLE16(v)
  {
    if h == BigEndianHost then BytesNative16(h, BSwap16(v)) else BytesNative16(h, v)
  }

  /** U_WB(32, p, v): the bytes a native store of the (maybe swapped) value leaves are the big-endian ones. */
  function BytesBEViaSwap32(h: Host, v: bv32): (s: seq<bv8>)
    ensures s == BytesBE32(v)
  {
    if h == BigEndianHost then BytesNative32(h, v) else BytesNative32(h, BSwap32(v))
  }

  /** U_WL(32, p, v): the bytes a native store of the (maybe swapped) value leaves are the little-endian ones. */
  function BytesLEViaSwap32(h: Host, v: bv32): (s: seq<bv8>)
    ensures s == BytesLE32(v)
  {
    if h == BigEndianHost then BytesNative32(h, BSwap32(v)) else BytesNative32(h, v)
  }

  /** U_WB(64, p, v): the bytes a native store of the (maybe swapped) value leaves are the big-endian ones. */
  function BytesBEViaSwap64(h: Host, v: bv64): (s: seq<bv8>)
    ensures s == BytesBE64(v)
  {
    if h == BigEndianHost then BytesNative64(h, v) else BytesNative64(h, BSwap64(v))
  }

  /** U_WL(64, p, v): the bytes a native store of the (maybe swapped) value leaves are the little-endian ones. */
  function BytesLEViaSwap64(h: Host, v: bv64): (s: seq<bv8>)
    ensures s == BytesLE64(v)
  {
    if h == BigEndianHost then BytesNative64(h, BSwap64(v)) else BytesNative64(h, v)
  }
}
