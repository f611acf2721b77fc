/**
 * Model of test.c: the lookup tables, `_skip_id3v2_tag`, the decoder of one
 * four-byte MPEG audio frame header (`_mp3_header_internal_parse`, which
 * fills an `mp3_audio_frame_header_info` field by field) and the scan for
 * the first decodable header (`mp3_audio_frame_header_parse`).
 *
 * The header layout is that of clause 2.4.1.3 of ISO/IEC 11172-3 with the
 * low-sampling-frequency tables of ISO/IEC 13818-3 and the unofficial
 * MPEG 2.5. The source reads the header through a bit-field struct; with
 * GCC's allocation (first field in the least significant bits) its fields
 * are the bit ranges that `Fields` extracts from header bytes 1..3.
 *
 * `Decode` states what a header means; `FrameHeaderInfo.InternalParse`
 * writes the same result into the fields in the source's order: version,
 * layer, bitrate and frequency as each is checked, then the rest. Two lookups in the source are wrong (see `FrameLengthAsWritten`
 * and `SamplesPerFrameAsWritten`); `Decode` and `InternalParse` use the
 * corrected forms.
 */
module Mp3Header {
  import opened Bytes
  import opened Options
  import opened Id3v2

  /** AUDIO_FRAME_HEADER_SIZE. */
  const AudioFrameHeaderSize: nat := 4

  // ------------------------------------------------------------------ enums

  /** mpeg_version. */
  datatype Version = VersionFalse | Version25 | VersionReserved | Version2 | Version1

  /** mpeg_layers. */
  datatype Layer = LayerFalse | LayerUndefined | Layer3 | Layer2 | Layer1

  /** mp3_channel_mode. */
  datatype ChannelMode = ChannelModeFalse | Stereo | JointStereo | DualChannel | SingleChannel

  /** mp3_mode_extension. */
  datatype ModeExt = ModeExtFalse | ModeExt0 | ModeExt1 | ModeExt2 | ModeExt3

  /** mp3_emphasis. */
  datatype Emphasis = EmphasisFalse | EmphasisNone | Emphasis50_15 | EmphasisReserved | EmphasisCcitJ17

  /** mp3_crc. */
  datatype Crc = CrcErrorSize | CrcMismatch | CrcNone | CrcOk

  /** The numeric value of an mpeg_layers constant (Layer III is 1, Layer I is 3). */
  function LayerValue(l: Layer): int
  {
    match l
    case LayerFalse => -1
    case LayerUndefined => 0
    case Layer3 => 1
    case Layer2 => 2
    case Layer1 => 3
  }

  /** MP3_BITRATE_FALSE and MP3_BITRATE_NONE (free format). */
  const BitrateFalse: int := -1
  const BitrateNone: int := 0

  /** MP3_FREQUENCIES_Reserved. */
  const FrequencyReserved: nat := 0

  // ----------------------------------------------------------------- tables

  /**
   * _mp3_bitrates[row][3 - layer field][bit_rate_index] in bits per second:
   * row 0 is MPEG 1, row 1 is MPEG 2 and 2.5; the middle index runs Layer I,
   * Layer II, Layer III.
   */
  const Bitrates: seq<seq<seq<int>>> := [
    [
      [0, 32000, 64000, 96000, 128000, 160000, 192000, 224000, 256000, 288000, 320000, 352000, 384000, 416000, 448000, -1],
      [0, 32000, 48000, 56000, 64000, 80000, 96000, 112000, 128000, 160000, 192000, 224000, 256000, 320000, 384000, -1],
      [0, 32000, 40000, 48000, 56000, 64000, 80000, 96000, 112000, 128000, 160000, 192000, 224000, 256000, 320000, -1]
    ],
    [
      [0, 32000, 48000, 56000, 64000, 80000, 96000, 112000, 128000, 144000, 160000, 176000, 192000, 224000, 256000, -1],
      [0, 8000, 16000, 24000, 32000, 40000, 48000, 56000, 64000, 80000, 96000, 112000, 128000, 144000, 160000, -1],
      [0, 8000, 16000, 24000, 32000, 40000, 48000, 56000, 64000, 80000, 96000, 112000, 128000, 144000, 160000, -1]
    ]
  ]

  /** _mp3_frequencies[version id][frequency field] in Hz; 0 is reserved. */
  const Frequencies: seq<seq<nat>> := [
    [11025, 12000, 8000, 0],
    [0, 0, 0, 0],
    [22050, 24000, 16000, 0],
    [44100, 48000, 32000, 0]
  ]

  /** _samples_per_frame[b_lsf][column]: the columns are Layer I, Layer II, Layer III. */
  const SamplesPerFrameTable: seq<seq<nat>> := [
    [384, 1152, 1152],
    [384, 1152, 576]
  ]

  /**
   * A bitrate entry: -1 (MP3_BITRATE_FALSE) exactly at index 15, 0 (free
   * format) exactly at index 0, a positive rate everywhere else.
   */
  function Bitrate(row: nat, column: nat, index: nat): (r: int)
    requires row < 2 && column < 3 && index < 16
    ensures r == BitrateFalse <==> index == 15
    ensures r == BitrateNone <==> index == 0
    ensures r >= BitrateFalse
    ensures 0 < index < 15 ==> 8000 <= r
  {
    Bitrates[row][column][index]
  }

  /** A frequency entry: reserved (0) exactly for version id 1 or frequency index 3. */
  function Frequency(id: nat, index: nat): (r: nat)
    requires id < 4 && index < 4
    ensures r == FrequencyReserved <==> id == 1 || index == 3
    ensures r == 0 || 8000 <= r <= 48000
  {
    Frequencies[id][index]
  }

  // ------------------------------------------------------ header bit fields

  /** _mp3_header_internal without frame_sync_a: the fields of header bytes 1..3. */
  datatype RawHeader = RawHeader(
    protectionBit: nat, layer: nat, id: nat, frameSyncB: nat,
    privateBit: nat, paddingBit: nat, frequency: nat, bitRateIndex: nat,
    emphasis: nat, original: nat, copyright: nat, modeExt: nat, mode: nat)
  {
    /** Every field fits its bit width. */
    predicate WellFormed()
    {
      protectionBit < 2 && layer < 4 && id < 4 && frameSyncB < 8 &&
      privateBit < 2 && paddingBit < 2 && frequency < 4 && bitRateIndex < 16 &&
      emphasis < 4 && original < 2 && copyright < 2 && modeExt < 4 && mode < 4
    }
  }

  /**
   * The bit fields of header bytes b1, b2, b3, least significant field
   * first in each byte.
   */
  function Fields(b1: Byte, b2: Byte, b3: Byte): (h: RawHeader)
    ensures h.WellFormed()
  {
    RawHeader(
      b1 % 2, (b1 / 2) % 4, (b1 / 8) % 4, b1 / 32,
      b2 % 2, (b2 / 2) % 2, (b2 / 4) % 4, b2 / 16,
      b3 % 4, (b3 / 4) % 2, (b3 / 8) % 2, (b3 / 16) % 4, b3 / 64)
  }

  /** The three header bytes holding the given fields. */
  function Pack(h: RawHeader): (bytes: (Byte, Byte, Byte))
    requires h.WellFormed()
  {
    (h.protectionBit + 2 * h.layer + 8 * h.id + 32 * h.frameSyncB,
     h.privateBit + 2 * h.paddingBit + 4 * h.frequency + 16 * h.bitRateIndex,
     h.emphasis + 4 * h.original + 8 * h.copyright + 16 * h.modeExt + 64 * h.mode)
  }

  /** The fields cover every bit of the three bytes. */
  lemma FieldsPack(b1: Byte, b2: Byte, b3: Byte)
    ensures Pack(Fields(b1, b2, b3)) == (b1, b2, b3)
  {
    SplitByte1(b1);
    SplitByte2(b2);
    SplitByte3(b3);
  }

  /** No two fields share a bit. */
  lemma PackFields(h: RawHeader)
    requires h.WellFormed()
    ensures var (b1, b2, b3) := Pack(h); Fields(b1, b2, b3) == h
  {
    JoinByte1(h.protectionBit, h.layer, h.id, h.frameSyncB);
    JoinByte2(h.privateBit, h.paddingBit, h.frequency, h.bitRateIndex);
    JoinByte3(h.emphasis, h.original, h.copyright, h.modeExt, h.mode);
  }

  /** Byte 1 is protection_bit:1, layer:2, id:2, frame_sync_b:3. */
  lemma SplitByte1(x: int)
    requires 0 <= x < 256
    ensures x == x % 2 + 2 * ((x / 2) % 4) + 8 * ((x / 8) % 4) + 32 * (x / 32)
  {
    var q1, q3 := x / 2, x / 8;
    assert x == 2 * q1 + x % 2;
    assert q3 == q1 / 4;
    assert q1 == 4 * q3 + q1 % 4;
    assert x / 32 == q3 / 4;
    assert q3 == 4 * (q3 / 4) + q3 % 4;
  }

  lemma JoinByte1(a: int, b: int, c: int, d: int)
    requires 0 <= a < 2 && 0 <= b < 4 && 0 <= c < 4 && 0 <= d < 8
    ensures var x := a + 2 * b + 8 * c + 32 * d;
      x % 2 == a && (x / 2) % 4 == b && (x / 8) % 4 == c && x / 32 == d
  {
    var x := a + 2 * b + 8 * c + 32 * d;
    var y := b + 4 * c + 16 * d;
    assert x / 2 == y && x % 2 == a;
    var z := c + 4 * d;
    assert y / 4 == z && y % 4 == b;
    assert x / 8 == z;
    assert z / 4 == d && z % 4 == c;
    assert x / 32 == d;
  }

  /** Byte 2 is private_bit:1, padding_bit:1, frequency:2, bit_rate_index:4. */
  lemma SplitByte2(x: int)
    requires 0 <= x < 256
    ensures x == x % 2 + 2 * ((x / 2) % 2) + 4 * ((x / 4) % 4) + 16 * (x / 16)
  {
    var q1, q2 := x / 2, x / 4;
    assert x == 2 * q1 + x % 2;
    assert q2 == q1 / 2;
    assert q1 == 2 * q2 + q1 % 2;
    assert x / 16 == q2 / 4;
    assert q2 == 4 * (q2 / 4) + q2 % 4;
  }

  lemma JoinByte2(a: int, b: int, c: int, d: int)
    requires 0 <= a < 2 && 0 <= b < 2 && 0 <= c < 4 && 0 <= d < 16
    ensures var x := a + 2 * b + 4 * c + 16 * d;
      x % 2 == a && (x / 2) % 2 == b && (x / 4) % 4 == c && x / 16 == d
  {
    var x := a + 2 * b + 4 * c + 16 * d;
    var y := b + 2 * c + 8 * d;
    assert x / 2 == y && x % 2 == a;
    var z := c + 4 * d;
    assert y / 2 == z && y % 2 == b;
    assert x / 4 == z;
    assert z / 4 == d && z % 4 == c;
    assert x / 16 == d;
  }

  /** Byte 3 is emphasis:2, original:1, copyright:1, mode_ext:2, mode:2. */
  lemma SplitByte3(x: int)
    requires 0 <= x < 256
    ensures x == x % 4 + 4 * ((x / 4) % 2) + 8 * ((x / 8) % 2) + 16 * ((x / 16) % 4) + 64 * (x / 64)
  {
    var q2, q3, q4 := x / 4, x / 8, x / 16;
    assert x == 4 * q2 + x % 4;
    assert q3 == q2 / 2;
    assert q2 == 2 * q3 + q2 % 2;
    assert q4 == q3 / 2;
    assert q3 == 2 * q4 + q3 % 2;
    assert x / 64 == q4 / 4;
    assert q4 == 4 * (q4 / 4) + q4 % 4;
  }

  lemma JoinByte3(a: int, b: int, c: int, d: int, e: int)
    requires 0 <= a < 4 && 0 <= b < 2 && 0 <= c < 2 && 0 <= d < 4 && 0 <= e < 4
    ensures var x := a + 4 * b + 8 * c + 16 * d + 64 * e;
      x % 4 == a && (x / 4) % 2 == b && (x / 8) % 2 == c && (x / 16) % 4 == d && x / 64 == e
  {
    var x := a + 4 * b + 8 * c + 16 * d + 64 * e;
    var y := b + 2 * c + 4 * d + 16 * e;
    assert x / 4 == y && x % 4 == a;
    var z := c + 2 * d + 8 * e;
    assert y / 2 == z && y % 2 == b;
    assert x / 8 == z;
    var w := d + 4 * e;
    assert z / 2 == w && z % 2 == c;
    assert x / 16 == w;
    assert w / 4 == e && w % 4 == d;
    assert x / 64 == e;
  }

  // ------------------------------------------------------------ ID3v2 skip

  /**
   * _skip_id3v2_tag(buf, buf_size): the length of the ID3v2 tag at the start
   * of the buffer (header, tag body and, when flag 0x10 of byte 5 is set, a
   * 10-byte footer), or 0 when the buffer does not start with an acceptable
   * tag header: fewer than 10 bytes, no "ID3", a flag among the low four bits
   * of byte 5, or a size byte with its top bit set.
   */
  function SkipId3v2Tag(buf: seq<Byte>, bufSize: nat): (r: nat)
    requires bufSize <= |buf|
    ensures r == 0 || HeaderSize <= r < 0x1000_0000 + 2 * HeaderSize
  {
    if bufSize >= HeaderSize && buf[..3] == TagId &&
       buf[5] % 16 == 0 && buf[6] < 0x80 && buf[7] < 0x80 && buf[8] < 0x80 && buf[9] < 0x80
    then
      var size := SynchsafeSize(buf[6], buf[7], buf[8], buf[9]) + HeaderSize;
      if (buf[5] / 16) % 2 == 1 then size + HeaderSize else size
    else
      0
  }

  /**
   * A buffer that starts with a tag header whose low four flag bits are
   * clear is skipped by exactly the tag's length: header, n bytes of body
   * and the footer when flag 0x10 is set.
   */
  lemma SkipTagHeader(version: Byte, revision: Byte, flags: Byte, n: nat, rest: seq<Byte>)
    requires n < 0x1000_0000 && flags % 16 == 0
    ensures var buf := TagHeader(version, revision, flags, n) + rest;
      SkipId3v2Tag(buf, |buf|) == n + HeaderSize + (if flags / 16 % 2 == 1 then HeaderSize else 0)
  {
    var h := TagHeader(version, revision, flags, n);
    var buf := h + rest;
    var b := SynchsafeBytes(n);
    assert buf[..3] == TagId;
    assert buf[5] == flags;
    assert buf[6..10] == b by {
      assert buf[6..10] == h[6..10];
    }
    SizeRoundTrip(n);
  }

  /**
   * A buffer that does not start with an acceptable tag header has nothing
   * skipped: fewer than 10 bytes, no "ID3", a flag among the low four bits of
   * byte 5, or a size byte with its top bit set.
   */
  lemma SkipRejects(buf: seq<Byte>, bufSize: nat)
    requires bufSize <= |buf|
    requires bufSize < HeaderSize || buf[..3] != TagId || buf[5] % 16 != 0 ||
      exists k :: 6 <= k < HeaderSize && buf[k] >= 0x80
    ensures SkipId3v2Tag(buf, bufSize) == 0
  {
  }

  // --------------------------------------------------- frame length, samples

  /** factor * bitrate / frequency, all operands positive so C's division is Dafny's. */
  function Scaled(factor: nat, bitrate: nat, frequency: nat): nat
    requires frequency > 0
  {
    var p: nat := factor * bitrate;
    p / frequency
  }

  /**
   * The frame length in bytes as the source computes it: 0 for free format
   * (bitrate 0), otherwise the per-layer formula with truncating division.
   * For Layer III it takes 144 for MPEG 2.5 and 72 otherwise.
   */
  function FrameLengthAsWritten(version: Version, layer: Layer, bitrate: nat, frequency: nat, padding: nat): nat
  {
    if bitrate != BitrateNone && frequency > 0 then
      match layer
      case Layer1 => 4 * (Scaled(12, bitrate, frequency) + padding)
      case Layer2 => Scaled(144, bitrate, frequency) + padding
      case Layer3 => Scaled(if version == Version25 then 144 else 72, bitrate, frequency) + padding
      case _ => 0
    else
      0
  }

  /**
   * The frame length in bytes with the Layer III factor as the standard has
   * it: 144 for MPEG 1 and 72 for the low sampling frequencies (MPEG 2, 2.5).
   */
  function FrameLength(version: Version, layer: Layer, bitrate: nat, frequency: nat, padding: nat): nat
  {
    if bitrate != BitrateNone && frequency > 0 then
      match layer
      case Layer1 => 4 * (Scaled(12, bitrate, frequency) + padding)
      case Layer2 => Scaled(144, bitrate, frequency) + padding
      case Layer3 => Scaled(if version == Version1 then 144 else 72, bitrate, frequency) + padding
      case _ => 0
    else
      0
  }

  /**
   * `_samples_per_frame[b_lsf][layer]` as the source indexes it: the column
   * is the mpeg_layers value (Layer III is 1, Layer II is 2, Layer I is 3),
   * so Layer III reads the Layer II column, Layer II the Layer III column,
   * and Layer I lies past the end of its row (None).
   */
  function SamplesPerFrameAsWritten(lsf: bool, layer: Layer): Option<nat>
  {
    var column := LayerValue(layer);
    if 0 <= column < 3 then Some(SamplesPerFrameTable[if lsf then 1 else 0][column]) else None
  }

  /** Which of the three valid layers a Layer value is. */
  predicate IsLayer(layer: Layer)
  {
    layer == Layer1 || layer == Layer2 || layer == Layer3
  }

  /**
   * The samples per frame with the column the table's comments give it:
   * Layer I first, Layer III last.
   */
  function SamplesPerFrame(version: Version, layer: Layer): (r: nat)
    requires IsLayer(layer)
  {
    SamplesPerFrameTable[if version == Version1 then 0 else 1][3 - LayerValue(layer)]
  }

  /**
   * The corrected lookup gives the table that test.h documents: 384 for
   * Layer I, 1152 for Layer II, and 1152 (MPEG 1) or 576 (MPEG 2, 2.5) for
   * Layer III.
   */
  lemma SamplesPerFrameDocumented(version: Version)
    ensures SamplesPerFrame(version, Layer1) == 384
    ensures SamplesPerFrame(version, Layer2) == 1152
    ensures SamplesPerFrame(version, Layer3) == if version == Version1 then 1152 else 576
  {
  }

  /**
   * The lookup as written disagrees with that table: an MPEG 2 Layer III
   * frame gets 1152 samples, an MPEG 2 Layer II frame 576, and Layer I is
   * out of bounds for every version.
   */
  lemma SamplesPerFrameMisindexed()
    ensures SamplesPerFrameAsWritten(true, Layer3) == Some(1152) != Some(SamplesPerFrame(Version2, Layer3))
    ensures SamplesPerFrameAsWritten(true, Layer2) == Some(576) != Some(SamplesPerFrame(Version2, Layer2))
    ensures SamplesPerFrameAsWritten(false, Layer1).None? && SamplesPerFrameAsWritten(true, Layer1).None?
  {
  }

  /**
   * The corrected length is the number of bytes the frame's samples take at
   * the given bitrate: samples / 8 * bitrate / frequency plus the padding
   * byte for Layers II and III, and 4-byte slots for Layer I.
   */
  lemma FrameLengthFromSamples(version: Version, layer: Layer, bitrate: nat, frequency: nat, padding: nat)
    requires IsLayer(layer) && bitrate > 0 && frequency > 0
    ensures layer == Layer1 ==>
      FrameLength(version, layer, bitrate, frequency, padding)
        == 4 * (SamplesPerFrame(version, layer) / 32 * bitrate / frequency + padding)
    ensures layer != Layer1 ==>
      FrameLength(version, layer, bitrate, frequency, padding)
        == SamplesPerFrame(version, layer) / 8 * bitrate / frequency + padding
  {
  }

  /**
   * The length as written misses that relation for an ordinary MPEG 1
   * Layer III frame: at 128 kbit/s and 44.1 kHz it gives 208 bytes where
   * the frame holds 417.
   */
  lemma Layer3FrameLengthInverted()
    ensures FrameLengthAsWritten(Version1, Layer3, 128000, 44100, 0) == 208
    ensures FrameLength(Version1, Layer3, 128000, 44100, 0) == 417
    ensures 417 == SamplesPerFrame(Version1, Layer3) / 8 * 128000 / 44100
  {
  }

  /** The two lengths agree everywhere but on Layer III frames of MPEG 1 and MPEG 2.5. */
  lemma FrameLengthsAgreeElsewhere(version: Version, layer: Layer, bitrate: nat, frequency: nat, padding: nat)
    requires layer != Layer3 || version == Version2
    ensures FrameLengthAsWritten(version, layer, bitrate, frequency, padding)
      == FrameLength(version, layer, bitrate, frequency, padding)
  {
  }

  // ------------------------------------------------------------ the decoder

  /** The decoded fields of mp3_audio_frame_header_info. */
  datatype HeaderInfo = HeaderInfo(
    version: Version, layer: Layer, bitrate: int, frequency: nat,
    privateBit: bool, copyrighted: bool, original: bool, crc: Crc,
    channelMode: ChannelMode, modeExt: ModeExt, emphasis: Emphasis,
    frameLength: nat, samplesPerFrame: nat)

  /** The version a version id names (id 1 is reserved). */
  function VersionOf(id: nat): Version
  {
    if id == 3 then Version1 else if id == 2 then Version2 else if id == 0 then Version25 else VersionReserved
  }

  /** The layer a layer field names (0 is reserved). */
  function LayerOf(field: nat): Layer
  {
    if field == 3 then Layer1 else if field == 2 then Layer2 else if field == 1 then Layer3 else LayerUndefined
  }

  function ChannelModeOf(mode: nat): ChannelMode
  {
    if mode == 0 then Stereo else if mode == 1 then JointStereo else if mode == 2 then DualChannel else SingleChannel
  }

  function ModeExtOf(modeExt: nat): ModeExt
  {
    if modeExt == 0 then ModeExt0 else if modeExt == 1 then ModeExt1 else if modeExt == 2 then ModeExt2 else ModeExt3
  }

  function EmphasisOf(emphasis: nat): Emphasis
  {
    if emphasis == 0 then EmphasisNone else if emphasis == 1 then Emphasis50_15
    else if emphasis == 2 then EmphasisReserved else EmphasisCcitJ17
  }

  /**
   * What a header means. It is rejected exactly for the reserved version id,
   * the reserved layer, bitrate index 15 and the reserved frequency index;
   * the CRC is announced exactly when the protection bit is 0; the mode
   * extension is kept only in joint stereo; and the frame length is 0
   * exactly for free format (bitrate index 0).
   */
  function Decode(h: RawHeader): (r: Option<HeaderInfo>)
    requires h.WellFormed()
    ensures r.None? <==> h.id == 1 || h.layer == 0 || h.bitRateIndex == 15 || h.frequency == 3
    ensures r.Some? ==> (r.value.crc == CrcOk <==> h.protectionBit == 0) && r.value.crc in {CrcOk, CrcNone}
    ensures r.Some? ==> (r.value.modeExt == ModeExtFalse <==> h.mode != 1)
    ensures r.Some? ==> (r.value.frameLength == 0 <==> h.bitRateIndex == 0)
    ensures r.Some? ==> IsLayer(r.value.layer) && r.value.version in {Version1, Version2, Version25}
  {
    if h.id == 1 || h.layer == 0 then None
    else
      var version := VersionOf(h.id);
      var layer := LayerOf(h.layer);
      var bitrate := Bitrate(if h.id == 3 then 0 else 1, 3 - h.layer, h.bitRateIndex);
      var frequency := Frequency(h.id, h.frequency);
      if bitrate == BitrateFalse || frequency == FrequencyReserved then None
      else
        var channelMode := ChannelModeOf(h.mode);
        var length := FrameLength(version, layer, bitrate, frequency, h.paddingBit);
        assert length == 0 <==> bitrate == 0 by {
          if bitrate != 0 {
            FrameLengthPositive(version, layer, bitrate, frequency, h.paddingBit);
          }
        }
        Some(HeaderInfo(
          version, layer, bitrate, frequency,
          h.privateBit == 1, h.copyright == 1, h.original == 1,
          if h.protectionBit == 1 then CrcNone else CrcOk,
          channelMode,
          if channelMode == JointStereo then ModeExtOf(h.modeExt) else ModeExtFalse,
          EmphasisOf(h.emphasis),
          length,
          SamplesPerFrame(version, layer)))
  }

  /** Any value that agrees with an accepted header field by field is what `Decode` gives. */
  lemma DecodeIs(h: RawHeader, rate: int, hz: nat, d: HeaderInfo)
    requires h.WellFormed() && h.id != 1 && h.layer != 0
    requires rate == Bitrate(if h.id == 3 then 0 else 1, 3 - h.layer, h.bitRateIndex) && rate != BitrateFalse
    requires hz == Frequency(h.id, h.frequency) && hz != FrequencyReserved
    requires d.version == VersionOf(h.id) && d.layer == LayerOf(h.layer)
    requires d.bitrate == rate && d.frequency == hz
    requires d.privateBit == (h.privateBit == 1) && d.copyrighted == (h.copyright == 1)
    requires d.original == (h.original == 1)
    requires d.crc == if h.protectionBit == 1 then CrcNone else CrcOk
    requires d.channelMode == ChannelModeOf(h.mode)
    requires d.modeExt == if h.mode == 1 then ModeExtOf(h.modeExt) else ModeExtFalse
    requires d.emphasis == EmphasisOf(h.emphasis)
    requires d.frameLength == FrameLength(d.version, d.layer, rate, hz, h.paddingBit)
    requires d.samplesPerFrame == SamplesPerFrame(d.version, d.layer)
    ensures Decode(h) == Some(d)
  {
  }

  /** A header with a reserved version, layer, bitrate or frequency is refused. */
  lemma DecodeRejects(h: RawHeader)
    requires h.WellFormed()
    requires h.id == 1 || h.layer == 0 ||
      Bitrate(if h.id == 3 then 0 else 1, 3 - h.layer, h.bitRateIndex) == BitrateFalse ||
      Frequency(h.id, h.frequency) == FrequencyReserved
    ensures Decode(h) == None
  {
  }

  /** Every valid layer at a table bitrate and frequency gives a non-empty frame. */
  lemma FrameLengthPositive(version: Version, layer: Layer, bitrate: nat, frequency: nat, padding: nat)
    requires IsLayer(layer) && 8000 <= bitrate && 0 < frequency <= 48000
    ensures FrameLength(version, layer, bitrate, frequency, padding) > 0
  {
    var factor: nat := if layer == Layer1 then 12 else if layer == Layer2 || version == Version1 then 144 else 72;
    ScaledPositive(factor, bitrate, frequency);
  }

  /** At least 12 times 8000 bits per second over at most 48 kHz is at least one. */
  lemma ScaledPositive(factor: nat, bitrate: nat, frequency: nat)
    requires 12 <= factor && 8000 <= bitrate && 0 < frequency <= 48000
    ensures Scaled(factor, bitrate, frequency) >= 1
  {
    var p: nat := factor * bitrate;
    assert p >= 12 * 8000 by {
      MulAtLeast(factor, 12, bitrate, 8000);
    }
    DivAtLeastOne(p, frequency);
  }

  lemma MulAtLeast(a: nat, a0: nat, b: nat, b0: nat)
    requires a >= a0 && b >= b0
    ensures a * b >= a0 * b0
  {
  }

  lemma DivAtLeastOne(x: nat, y: nat)
    requires 0 < y <= x
    ensures x / y >= 1
  {
  }

  /** mp3_audio_frame_header_info: the fields the header parser writes. */
  class FrameHeaderInfo {
    var version: Version
    var layer: Layer
    var bitrate: int
    var channelMode: ChannelMode
    var modeExt: ModeExt
    var emphasis: Emphasis
    var crc: Crc
    var frequency: nat
    var privateBit: bool
    var copyrighted: bool
    var original: bool
    var frameLength: nat
    var samplesPerFrame: nat

    /** A zero-initialised structure. */
    constructor ()
      ensures Snapshot() == HeaderInfo(Version25, Layer.LayerUndefined, 0, 0, false, false, false,
                                       CrcNone, Stereo, ModeExt0, EmphasisNone, 0, 0)
    {
      version := Version25;
      layer := LayerUndefined;
      bitrate := 0;
      channelMode := Stereo;
      modeExt := ModeExt0;
      emphasis := EmphasisNone;
      crc := CrcNone;
      frequency := 0;
      privateBit := false;
      copyrighted := false;
      original := false;
      frameLength := 0;
      samplesPerFrame := 0;
    }

    /** The fields as a value. */
    function Snapshot(): HeaderInfo
      reads this
    {
      HeaderInfo(version, layer, bitrate, frequency, privateBit, copyrighted, original, crc,
                 channelMode, modeExt, emphasis, frameLength, samplesPerFrame)
    }

    /** The fields the decoder writes only once the header is known to be acceptable. */
    function Tail(): (ChannelMode, ModeExt, Emphasis, Crc, nat)
      reads this
    {
      (channelMode, modeExt, emphasis, crc, frameLength)
    }

    /** The fields _reset_mp3_audio_frame_header_info does not touch. */
    function Kept(): (bool, bool, bool, nat)
      reads this
    {
      (privateBit, copyrighted, original, samplesPerFrame)
    }

    /** The fields that _reset_mp3_audio_frame_header_info sets hold their "false" values. */
    ghost predicate IsReset()
      reads this
    {
      version == VersionFalse && layer == LayerFalse && bitrate == BitrateFalse && frequency == 0 &&
      Tail() == (ChannelModeFalse, ModeExtFalse, EmphasisFalse, CrcMismatch, 0)
    }

    /**
     * _reset_mp3_audio_frame_header_info: every field to its "false" value,
     * except the private, copyright and original bits and the samples per
     * frame, which it leaves alone.
     */
    method Reset()
      modifies this
      ensures IsReset()
      ensures Kept() == old(Kept())
    {
      version := VersionFalse;
      layer := LayerFalse;
      bitrate := BitrateFalse;
      channelMode := ChannelModeFalse;
      modeExt := ModeExtFalse;
      emphasis := EmphasisFalse;
      crc := CrcMismatch;
      frequency := 0;
      frameLength := 0;
    }

    /**
     * The stores after the last check of _mp3_header_internal_parse: the
     * flags, the CRC, the channel mode and its extension, the emphasis, the
     * frame length and the samples per frame.
     */
    method StoreDecoded(d: HeaderInfo)
      requires version == d.version && layer == d.layer && bitrate == d.bitrate && frequency == d.frequency
      modifies this
      ensures Snapshot() == d
    {
      privateBit, copyrighted, original, crc := d.privateBit, d.copyrighted, d.original, d.crc;
      channelMode, modeExt, emphasis := d.channelMode, d.modeExt, d.emphasis;
      frameLength, samplesPerFrame := d.frameLength, d.samplesPerFrame;
    }

    /**
     * The first part of _mp3_header_internal_parse: version, layer, bitrate
     * and frequency, each written as soon as it is looked up and each
     * ending the parse when reserved. Nothing else is written.
     */
    method ParseRates(h: RawHeader) returns (ok: bool, rate: int, hz: nat)
      requires h.WellFormed()
      modifies this
      ensures ok <==> (h.id != 1 && h.layer != 0 &&
        Bitrate(if h.id == 3 then 0 else 1, 3 - h.layer, h.bitRateIndex) != BitrateFalse &&
        Frequency(h.id, h.frequency) != FrequencyReserved)
      ensures ok ==> (version == VersionOf(h.id) && layer == LayerOf(h.layer) &&
        rate == bitrate == Bitrate(if h.id == 3 then 0 else 1, 3 - h.layer, h.bitRateIndex) &&
        hz == frequency == Frequency(h.id, h.frequency))
      ensures Tail() == old(Tail()) && Kept() == old(Kept())
    {
      rate, hz := 0, 0;
      // parse version: id 1 is reserved
      if h.id == 1 {
        return false, rate, hz;
      }
      version := VersionOf(h.id);

      // parse layer: 0 is reserved
      if h.layer == 0 {
        return false, rate, hz;
      }
      layer := LayerOf(h.layer);

      rate := Bitrate(if h.id == 3 then 0 else 1, 3 - h.layer, h.bitRateIndex);
      bitrate := rate;
      if rate == BitrateFalse {
        return false, rate, hz;
      }
      hz := Frequency(h.id, h.frequency);
      frequency := hz;
      if hz == FrequencyReserved {
        return false, rate, hz;
      }
      return true, rate, hz;
    }

    /**
     * _mp3_header_internal_parse: decode a header into the fields. It
     * succeeds exactly when `Decode` does and then leaves `Decode`'s result.
     * It fails before writing anything but the version, layer, bitrate and
     * frequency, so a failure leaves every other field as it was.
     */
    method InternalParse(h: RawHeader) returns (ok: bool)
      requires h.WellFormed()
      modifies this
      ensures ok == Decode(h).Some?
      ensures ok ==> Decode(h) == Some(Snapshot())
      ensures !ok ==> Tail() == old(Tail()) && Kept() == old(Kept())
    {
      var rate, hz;
      ok, rate, hz := ParseRates(h);
      if !ok {
        DecodeRejects(h);
        return;
      }
      // from here on nothing fails
      var d := HeaderInfo(VersionOf(h.id), LayerOf(h.layer), rate, hz,
                          h.privateBit == 1, h.copyright == 1, h.original == 1,
                          if h.protectionBit == 1 then CrcNone else CrcOk,
                          ChannelModeOf(h.mode),
                          if h.mode == 1 then ModeExtOf(h.modeExt) else ModeExtFalse,
                          EmphasisOf(h.emphasis),
                          FrameLength(VersionOf(h.id), LayerOf(h.layer), rate, hz, h.paddingBit),
                          SamplesPerFrame(VersionOf(h.id), LayerOf(h.layer)));
      DecodeIs(h, rate, hz, d);
      StoreDecoded(d);
    }
  }

  // ------------------------------------------------------------- the scan

  /**
   * The first eleven bits of the four bytes at p are set: byte p is 0xFF
   * and the top three bits of byte p + 1 are set, which for a byte is the
   * same as being at least 0xE0.
   */
  predicate SyncAt(buf: seq<Byte>, p: nat)
    requires p + 1 < |buf|
  {
    buf[p] == 0xFF && buf[p + 1] >= 0xE0
  }

  /** The header fields of the four bytes at p. */
  function HeaderAt(buf: seq<Byte>, p: nat): (h: RawHeader)
    requires p + AudioFrameHeaderSize <= |buf|
    ensures h.WellFormed()
  {
    Fields(buf[p + 1], buf[p + 2], buf[p + 3])
  }

  /** The four bytes at p carry the sync bits and a header the decoder accepts. */
  predicate AcceptsAt(buf: seq<Byte>, p: nat)
    requires p + AudioFrameHeaderSize <= |buf|
  {
    SyncAt(buf, p) && Decode(HeaderAt(buf, p)).Some?
  }

  /**
   * The first offset at or after `from` where a whole header fits and is
   * accepted, or None when there is none.
   */
  function FindFrame(buf: seq<Byte>, from: nat): (r: Option<nat>)
    ensures r.Some? ==> from <= r.value && r.value + AudioFrameHeaderSize <= |buf| && AcceptsAt(buf, r.value)
    ensures r.Some? ==> forall j :: from <= j < r.value ==> !AcceptsAt(buf, j)
    ensures r.None? ==> forall j :: from <= j && j + AudioFrameHeaderSize <= |buf| ==> !AcceptsAt(buf, j)
    decreases |buf| - from
  {
    if from + AudioFrameHeaderSize > |buf| then None
    else if AcceptsAt(buf, from) then Some(from)
    else FindFrame(buf, from + 1)
  }

  /** An accepted offset with none accepted before it is what the search finds. */
  lemma FindFrameFirst(buf: seq<Byte>, from: nat, p: nat)
    requires from <= p && p + AudioFrameHeaderSize <= |buf| && AcceptsAt(buf, p)
    requires forall j :: from <= j < p ==> !AcceptsAt(buf, j)
    ensures FindFrame(buf, from) == Some(p)
  {
  }

  /** With every offset rejected, the search finds nothing. */
  lemma FindFrameNone(buf: seq<Byte>, from: nat)
    requires forall j :: from <= j && j + AudioFrameHeaderSize <= |buf| ==> !AcceptsAt(buf, j)
    ensures FindFrame(buf, from).None?
  {
  }

  /**
   * Where mp3_audio_frame_header_parse finds its frame: None for an empty
   * buffer or one too short for a header after the ID3v2 tag, otherwise the
   * first accepted header after the tag.
   */
  function FrameStart(buffer: seq<Byte>): (r: Option<nat>)
    ensures r.Some? ==> SkipId3v2Tag(buffer, |buffer|) <= r.value && r.value + AudioFrameHeaderSize <= |buffer|
    ensures r.Some? ==> AcceptsAt(buffer, r.value)
  {
    if |buffer| == 0 then None
    else
      var skip := SkipId3v2Tag(buffer, |buffer|);
      if skip + AudioFrameHeaderSize > |buffer| then None else FindFrame(buffer, skip)
  }

  /**
   * mp3_audio_frame_header_parse(out_info, buffer, size): skip an ID3v2
   * tag, then try every offset where a header fits, in order, and stop at
   * the first with the sync bits whose header decodes. On success the info
   * holds that header's decoding; on failure after the scan started it is
   * reset; an empty buffer, or one with no room for a header after the tag,
   * leaves it untouched.
   */
  method HeaderParse(info: FrameHeaderInfo, buffer: seq<Byte>) returns (ok: bool)
    modifies info
    ensures ok == FrameStart(buffer).Some?
    ensures ok ==> info.Snapshot() == Decode(HeaderAt(buffer, FrameStart(buffer).value)).value
    ensures !ok && (|buffer| == 0 || SkipId3v2Tag(buffer, |buffer|) + AudioFrameHeaderSize > |buffer|) ==>
      unchanged(info)
    ensures !ok && |buffer| > 0 && SkipId3v2Tag(buffer, |buffer|) + AudioFrameHeaderSize <= |buffer| ==>
      info.IsReset()
    ensures !ok ==> info.Kept() == old(info.Kept())
  {
    if |buffer| == 0 {
      return false;
    }
    var id3Size := SkipId3v2Tag(buffer, |buffer|);
    if id3Size + AudioFrameHeaderSize > |buffer| {
      return false;
    }
    info.Reset();

    var scanSize := |buffer| - id3Size;
    var founded := false;
    var success := false;
    var i := 0;
    while i + AudioFrameHeaderSize <= scanSize
      invariant i + AudioFrameHeaderSize <= scanSize + 1
      invariant !founded && !success
      invariant forall j :: id3Size <= j < id3Size + i ==> !AcceptsAt(buffer, j)
      invariant info.Tail() == (ChannelModeFalse, ModeExtFalse, EmphasisFalse, CrcMismatch, 0)
      invariant info.Kept() == old(info.Kept())
    {
      var p := id3Size + i;
      if !SyncAt(buffer, p) {
        i := i + 1;
        continue;
      }
      founded := true;
      success := info.InternalParse(HeaderAt(buffer, p));
      if success {
        break;
      }
      founded := false;
      success := false;
      i := i + 1;
    }

    if founded && success {
      FindFrameFirst(buffer, id3Size, id3Size + i);
      return true;
    } else {
      FindFrameNone(buffer, id3Size);
      info.Reset();
      return false;
    }
  }
}
