/**
 * The ID3v2 tag header as both MP3 parsers read it: the three bytes "ID3",
 * a version byte, a revision byte, a flags byte and a 28-bit tag size held
 * in four bytes of seven bits each (a "synchsafe" integer, section 6.2 of
 * the ID3v2.4.0 structure document; the header layout is its section 3.1).
 */
module Id3v2 {
  import opened Bytes

  /** ID3V2_TAG_HEADER_SIZE. */
  const HeaderSize: nat := 10

  /** ID3V2_TAG_ID, "ID3", as byte values. */
  const TagId: seq<Byte> := [0x49, 0x44, 0x33]

  /**
   * The tag size from header bytes 6..9: the low seven bits of each byte,
   * most significant group first. test.c writes it with shifts and `|`,
   * mpeg_dec.c with multiplications and `+`; the groups do not overlap, so
   * the two agree.
   */
  function SynchsafeSize(b0: Byte, b1: Byte, b2: Byte, b3: Byte): (r: nat)
    ensures r < 0x1000_0000
    ensures r % 0x80 == b3 % 0x80
  {
    (b0 as int % 0x80) * 0x20_0000 + (b1 as int % 0x80) * 0x4000 + (b2 as int % 0x80) * 0x80 + b3 as int % 0x80
  }

  /** The four synchsafe bytes of a size below 2^28, as an ID3v2 writer produces them. */
  function SynchsafeBytes(n: nat): (s: seq<Byte>)
    requires n < 0x1000_0000
    ensures |s| == 4
    ensures forall i :: 0 <= i < 4 ==> s[i] < 0x80
  {
    var n1 := n / 0x80;
    var n2 := n1 / 0x80;
    [n2 / 0x80, n2 % 0x80, n1 % 0x80, n % 0x80]
  }

  /** An ID3v2 tag header for a tag body of n bytes, as a tag writer lays it out. */
  function TagHeader(version: Byte, revision: Byte, flags: Byte, n: nat): (s: seq<Byte>)
    requires n < 0x1000_0000
    ensures |s| == HeaderSize
  {
    TagId + [version, revision, flags] + SynchsafeBytes(n)
  }

  /** Decoding the bytes of a size gives the size back. */
  lemma SizeRoundTrip(n: nat)
    requires n < 0x1000_0000
    ensures var s := SynchsafeBytes(n); SynchsafeSize(s[0], s[1], s[2], s[3]) == n
  {
    var n1 := n / 0x80;
    var n2 := n1 / 0x80;
    assert n == n1 * 0x80 + n % 0x80;
    assert n1 == n2 * 0x80 + n1 % 0x80;
    assert n2 == (n2 / 0x80) * 0x80 + n2 % 0x80;
  }

  /** Bytes with their top bit clear are the bytes of the size they decode to. */
  lemma BytesRoundTrip(b0: Byte, b1: Byte, b2: Byte, b3: Byte)
    requires b0 < 0x80 && b1 < 0x80 && b2 < 0x80 && b3 < 0x80
    ensures SynchsafeBytes(SynchsafeSize(b0, b1, b2, b3)) == [b0, b1, b2, b3]
  {
    var x0: int, x1: int, x2: int, x3: int := b0, b1, b2, b3;
    var m1 := x0 * 0x80 + x1;
    var m2 := m1 * 0x80 + x2;
    var n := m2 * 0x80 + x3;
    assert n == SynchsafeSize(b0, b1, b2, b3);
    assert n / 0x80 == m2 && n % 0x80 == x3;
    assert m2 / 0x80 == m1 && m2 % 0x80 == x2;
    assert m1 / 0x80 == x0 && m1 % 0x80 == x1;
  }
}
