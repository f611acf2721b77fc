# MPEG audio parsing utilities and the Audacity export hook registry, in Dafny

This project models a small hand-written MP3 parsing stack and its byte and
bit helpers, and proves what each piece promises:

- **The streaming MP3 container parser** (`mpeg_dec.c`), in `mpegdec.dfy`.
  A decoder owns a 16 KB buffer. `mpeg_dec_parse_buf` copies the caller's
  bytes in buffer-sized rounds. After each round it runs the stages header,
  audio frame, tail and completed, falling through from one to the next and
  compacting the buffer after each. The header stage detects an ID3v2 tag
  header and decodes its 28-bit synchsafe size (sections 3.1 and 6.2 of the
  ID3v2.4.0 structure document).
- **The single-frame header decoder** (`test.c`), in `mp3header.dfy`. It
  covers the bitrate, frequency and samples-per-frame tables, the ID3v2 tag
  skipper, the decoder of one four-byte MPEG audio frame header (clause
  2.4.1.3 of ISO/IEC 11172-3, with the low-sampling-frequency tables of
  ISO/IEC 13818-3 and the unofficial MPEG 2.5) and the scan for the first
  decodable header.
- **The ID3v2 synchsafe size**, shared by both parsers, in `id3v2.dfy`.
- **The MSB-first bit reader** in `bitstream.dfy` (`bs.c`) and
  `ubitstream.dfy` (`u_bit_stream.h`, the same algorithm). Every reader is
  proved against `BitsAt`, a bit-by-bit reference definition.
- **Byte order:**
  - `intreadwrite.dfy` covers the big- and little-endian read and write
    macros of `u_internal_rw.h` for 8, 16, 24, 32, 48 and 64 bits, with
    round trips.
  - `nativerw.dfy` covers the header's second definition of those macros,
    a native access plus a byte swap. It is proved equal to the first.
  - `byteswap.dfy` covers `u_bs_swap.h`.
- **The byte cursor** of `u_byte_stream.h`, in `bytestream.dfy`. It has
  checked and unchecked get, peek and put, and a sticky `eof`.
- **Small helpers** from `u_common.h` (`common.dfy`) and `u_macros.h`
  (`macros.dfy`).
- **Audacity's `ExportUtils.cpp`**, in `exportutils.dfy`. It is the
  priority-sorted export hook registry, the hook runner, the wave-track
  filter and the collection of export parameters.

`bytes.dfy` and `options.dfy` hold the `Byte` type and an `Option` type
shared by the modules.

Code that updates state in place is modelled as classes with `modifies`
clauses:
- the decoder and its buffer (an `array`);
- the header info structure;
- the bit reader's position;
- the byte cursors;
- the hook vector;
- the stores of the write macros (into an `array`).

The tables, the decoder's meaning and the filters are functions.

The parser's `while(1)` in the header stage cannot be written as a loop
that terminates. A call that would spin there returns `Outcome.Diverges`
instead, and the contracts say exactly when that happens.

## Model

Source paths are relative to the repository root.

| member | source | states |
|---|---|---|
| MpegDec.TagSize | audio/example/mp3/1_test/src/libaformat/mpeg_dec.c:374-377 | The ID3v2 size read from bytes 6..9 is always below 2^28 |
| MpegDec.ParsedCount | audio/example/mp3/1_test/src/libaformat/mpeg_dec.c:381-385 | Once a stream is consumed, total_parsed equals its length exactly when it does not start with a tag header; otherwise it is 10 more |
| MpegDec.TagInfoAfterCheck | audio/example/mp3/1_test/src/libaformat/mpeg_dec.c:364-377 | After the ID3v2 check the checked flag is set and the size is the tag's synchsafe size, or 0 without "ID3" |
| MpegDec.StageAfter | audio/example/mp3/1_test/src/libaformat/mpeg_dec.c:655-660 | The stage only moves forward. It is COMPLETED exactly when eof was passed and the header stage is past. A returning call never leaves the decoder in the audio-frame stage |
| MpegDec.PrefixDecides | audio/example/mp3/1_test/src/libaformat/mpeg_dec.c:356-377 | Once more than 10 bytes are there, more input changes neither the tag decision, nor the size, nor whether the stage hangs; the count grows by the bytes added |
| MpegDec.LongTagHangs | audio/example/mp3/1_test/src/libaformat/mpeg_dec.c:403-411 | Every stream opening with a tag header whose size exceeds 10 makes the header stage spin forever |
| MpegDec.ShortTagCountedTwice | audio/example/mp3/1_test/src/libaformat/mpeg_dec.c:381-385 | A tag header of size at most 10 lets the stage return, and the stream is then counted 10 bytes longer than it is |
| MpegDec.ReadTagHeader | audio/example/mp3/1_test/src/libaformat/mpeg_dec.c:366-377 | Reading through the bit reader after skipping "ID3" yields bytes 3, 4 and 5 and the synchsafe size of bytes 6..9 |
| MpegDec.FreeHeaderList | audio/example/mp3/1_test/src/libaformat/mpeg_dec.c:325-343 | Freeing the header list leaves it empty |
| MpegDec.MpegDecoder.Init | audio/example/mp3/1_test/src/libaformat/mpeg_dec.c:455-477 | A new decoder is fresh and satisfies the decoder invariant |
| MpegDec.MpegDecoder.Reset | audio/example/mp3/1_test/src/libaformat/mpeg_dec.c:284-295 | After a reset from any state the decoder is fresh: zeroed buffer, header stage, counters 0, unchecked ID3v2, empty list, BITRATE_TYPE_FALSE |
| MpegDec.MpegDecoder.ZeroBuffer | audio/example/mp3/1_test/src/libaformat/mpeg_dec.c:291 | Every byte of the buffer is 0 afterwards |
| MpegDec.MpegDecoder.ParseReset | audio/example/mp3/1_test/src/libaformat/mpeg_dec.c:769-788 | Returns EOK and leaves a fresh, valid decoder |
| MpegDec.MpegDecoder.Deinit | audio/example/mp3/1_test/src/libaformat/mpeg_dec.c:790-809 | Returns EOK with the decoder reset |
| MpegDec.MpegDecoder.MoveDown | audio/example/mp3/1_test/src/libaformat/mpeg_dec.c:723 | The first n bytes become the old bytes c..c+n; the rest of the buffer is unchanged |
| MpegDec.MpegDecoder.CopyIn | audio/example/mp3/1_test/src/libaformat/mpeg_dec.c:649 | The caller's bytes land right behind the buffered ones, which are kept |
| MpegDec.MpegDecoder.TakeIn | audio/example/mp3/1_test/src/libaformat/mpeg_dec.c:642-653 | The fill grows remain by the count and appends exactly those bytes to the buffered ones and to the stream received |
| MpegDec.MpegDecoder.Compact | audio/example/mp3/1_test/src/libaformat/mpeg_dec.c:719-724 | total_parsed grows by c, remain shrinks by c, and the new buf[0..remain) is the old buf[c..old remain) |
| MpegDec.MpegDecoder.ParseHeader | audio/example/mp3/1_test/src/libaformat/mpeg_dec.c:346-420 | Covers each of the stage's cases: NEED_MORE_DATA exactly while the check has not run and at most 10 bytes are buffered, with nothing changed; no "ID3" goes to the audio-frame stage with nothing consumed; "ID3" records the tag, counts and consumes 10 bytes and shifts them out; the stage never returns while the count is below the size |
| MpegDec.MpegDecoder.ParseAudioFrame | audio/example/mp3/1_test/src/libaformat/mpeg_dec.c:422-431 | Consumes everything buffered and moves to the tail |
| MpegDec.MpegDecoder.ParseTail | audio/example/mp3/1_test/src/libaformat/mpeg_dec.c:433-452 | Consumes everything buffered; completes with EOK at eof, otherwise asks for more data in the same stage |
| MpegDec.MpegDecoder.RunStages | audio/example/mp3/1_test/src/libaformat/mpeg_dec.c:662-724 | The fall-through switch with its compactions. It diverges exactly on a hanging tag header; otherwise it restores the decoder invariant, reaches StageAfter, and returns EOK at completion or NEED_MORE_DATA |
| MpegDec.MpegDecoder.Round | audio/example/mp3/1_test/src/libaformat/mpeg_dec.c:640-724 | One fill-and-parse round appends the bytes to the stream and keeps RunStages' guarantees |
| MpegDec.MpegDecoder.Feed | audio/example/mp3/1_test/src/libaformat/mpeg_dec.c:633-766 | Every caller byte is taken in. It returns EOK in stage StageAfter of the whole stream, with the invariant kept (remain <= 16384, counts tied to the stream), unless the stream hangs the header stage |
| MpegDec.MpegDecoder.ParseBuf | audio/example/mp3/1_test/src/libaformat/mpeg_dec.c:609-767 | EINVAL for no callbacks or an empty buffer, and ESTATE_NOT_ALLOW when completed, both with nothing changed. Otherwise it diverges exactly on a hanging tag header and returns EOK with every byte appended and the stage StageAfter |
| MpegDec.HangExample | audio/example/mp3/1_test/src/libaformat/mpeg_dec.c:403-411 | A fresh decoder given a stream opening with a 100-byte tag never returns |
| MpegDec.DoubleCountExample | audio/example/mp3/1_test/src/libaformat/mpeg_dec.c:381-385 | A fresh decoder given a whole stream opening with an empty tag counts 10 bytes more than it was given |
| Id3v2.SynchsafeSize | audio/example/mp3/1_test/src/test/test.c:179 | The size of four seven-bit groups is below 2^28 and ends in the last byte's low seven bits |
| Id3v2.SynchsafeBytes | audio/example/mp3/1_test/src/libaformat/mpeg_dec.c:374-377 | The encoding a tag writer produces: four bytes with the top bit clear |
| Id3v2.TagHeader | audio/example/mp3/1_test/src/test/test.c:175-177 | A tag header is 10 bytes |
| Id3v2.SizeRoundTrip | audio/example/mp3/1_test/src/libaformat/mpeg_dec.c:374-377 | Decoding the bytes of a size below 2^28 gives the size back |
| Id3v2.BytesRoundTrip | audio/example/mp3/1_test/src/test/test.c:177-179 | Bytes with their top bit clear are exactly the encoding of the size they decode to |
| Mp3Header.Bitrate | audio/example/mp3/1_test/src/test/test.c:34-148 | A table entry is FALSE exactly at index 15, free format exactly at index 0, and at least 8 kbit/s elsewhere |
| Mp3Header.Frequency | audio/example/mp3/1_test/src/test/test.c:150-156 | A frequency is reserved exactly for version id 1 or index 3, and otherwise lies in 8000..48000 Hz |
| Mp3Header.Fields | audio/example/mp3/1_test/src/test/test.c:12-32 | The bit fields of header bytes 1..3 under LSB-first allocation all fit their widths |
| Mp3Header.FieldsPack | audio/example/mp3/1_test/src/test/test.c:12-32 | The fields cover every bit of the three bytes |
| Mp3Header.PackFields | audio/example/mp3/1_test/src/test/test.c:12-32 | No two fields share a bit |
| Mp3Header.SkipId3v2Tag | audio/example/mp3/1_test/src/test/test.c:173-186 | The skip is 0 or a tag length of at least 10 |
| Mp3Header.SkipTagHeader | audio/example/mp3/1_test/src/test/test.c:179-182 | A tag header with its low flag bits clear is skipped by exactly header + size, plus 10 when footer flag 0x10 is set |
| Mp3Header.SkipRejects | audio/example/mp3/1_test/src/test/test.c:175-177 | Nothing is skipped when fewer than 10 bytes are given, "ID3" is missing, a low flag bit of byte 5 is set, or a size byte has its top bit set |
| Mp3Header.SamplesPerFrameDocumented | audio/example/mp3/1_test/src/test/test.c:159-171 | The corrected lookup gives 384, 1152, and 1152 or 576 samples for Layers I, II and III |
| Mp3Header.SamplesPerFrameMisindexed | audio/example/mp3/1_test/src/test/test.c:397-404 | The lookup as written gives MPEG 2 Layer III 1152 and Layer II 576 samples, and reads Layer I out of bounds |
| Mp3Header.FrameLengthFromSamples | audio/example/mp3/1_test/src/test/test.c:370-394 | The corrected length is the bytes a frame's samples take at the bitrate, plus padding (4-byte slots for Layer I) |
| Mp3Header.Layer3FrameLengthInverted | audio/example/mp3/1_test/src/test/test.c:380-385 | The length as written gives an MPEG 1 Layer III frame at 128 kbit/s and 44.1 kHz 208 bytes instead of 417 |
| Mp3Header.FrameLengthsAgreeElsewhere | audio/example/mp3/1_test/src/test/test.c:372-389 | The two lengths differ only for Layer III of MPEG 1 and MPEG 2.5 |
| Mp3Header.Decode | audio/example/mp3/1_test/src/test/test.c:230-409 | With the corrected frame length and samples per frame (see Findings): a header is rejected exactly for version id 1, layer 0, bitrate index 15 or frequency index 3. The CRC is announced exactly when the protection bit is 0. The mode extension is kept only in joint stereo. The frame length is 0 exactly for free format |
| Mp3Header.DecodeRejects | audio/example/mp3/1_test/src/test/test.c:246-293 | Each of the four reserved cases makes Decode fail |
| Mp3Header.FrameHeaderInfo.Reset | audio/example/mp3/1_test/src/test/test.c:188-202 | Every field the reset names holds its FALSE value; the flags and the samples per frame are left alone |
| Mp3Header.FrameHeaderInfo.StoreDecoded | audio/example/mp3/1_test/src/test/test.c:295-404 | After the stores the structure holds the decoded header |
| Mp3Header.FrameHeaderInfo.ParseRates | audio/example/mp3/1_test/src/test/test.c:236-293 | Succeeds exactly when none of the four reserved cases applies. It then holds the version, layer, table bitrate and frequency, and writes no other field |
| Mp3Header.FrameHeaderInfo.InternalParse | audio/example/mp3/1_test/src/test/test.c:230-409 | Succeeds exactly when Decode does and then holds Decode's result; a failure leaves every field but the first four as it was |
| Mp3Header.HeaderAt | audio/example/mp3/1_test/src/test/test.c:454 | The header at an offset is well formed |
| Mp3Header.FindFrame | audio/example/mp3/1_test/src/test/test.c:446-466 | Finds the first offset with the sync bits whose header decodes, and finds none only when no offset qualifies |
| Mp3Header.FindFrameFirst | audio/example/mp3/1_test/src/test/test.c:446-462 | An accepted offset with none accepted before it is the one found |
| Mp3Header.FindFrameNone | audio/example/mp3/1_test/src/test/test.c:446-466 | With every offset rejected nothing is found |
| Mp3Header.FrameStart | audio/example/mp3/1_test/src/test/test.c:415-446 | A found frame lies after the ID3v2 tag, fits in the buffer and decodes |
| Mp3Header.HeaderParse | audio/example/mp3/1_test/src/test/test.c:411-479 | Succeeds exactly when FrameStart finds a frame, and then holds that header's decoding. It returns early, untouched, for an empty buffer or no room after the tag; otherwise a failure resets the info |
| BitStream.BitsBound | audio/example/mp3/1_test/src/util/bs.c:110-133 | n bits read as a number are below 2^n |
| BitStream.BitsSplit | audio/example/mp3/1_test/src/util/bs.c:124-132 | Reading a + b bits is reading a bits and then the next b, the first part high |
| BitStream.AlignedByte | audio/example/mp3/1_test/src/util/bs.c:10-33 | At a byte-aligned position, eight bits are that byte |
| BitStream.Aligned16 | audio/example/mp3/1_test/src/util/bs.c:35-58 | At a byte-aligned position, sixteen bits are two bytes, big-endian |
| BitStream.Aligned32 | audio/example/mp3/1_test/src/util/bs.c:60-83 | At a byte-aligned position, thirty-two bits are four bytes, big-endian |
| BitStream.BitReader.Init | audio/example/mp3/1_test/src/util/bs.c:3-8 | pos is 0 and limit is 8 * bytes |
| BitStream.BitReader.GetBitsU8 | audio/example/mp3/1_test/src/util/bs.c:10-33 | pos always advances by 8; the result is the next 8 bits MSB-first within the limit, else 0 |
| BitStream.BitReader.GetBitsU16 | audio/example/mp3/1_test/src/util/bs.c:35-58 | pos always advances by 16; the result is the next 16 bits within the limit, else 0 |
| BitStream.BitReader.GetBitsU32 | audio/example/mp3/1_test/src/util/bs.c:60-83 | pos always advances by 32; the result is the next 32 bits within the limit, else 0 |
| BitStream.BitReader.GetBitsU64 | audio/example/mp3/1_test/src/util/bs.c:85-108 | pos always advances by 64; the result is the next 64 bits within the limit, else 0 |
| BitStream.BitReader.GetBits | audio/example/mp3/1_test/src/util/bs.c:110-133 | pos always advances by n; the result is below 2^n and is the n bits at pos within the limit, else 0 |
| BitStream.BitReader.SkipBits | audio/example/mp3/1_test/src/util/bs.c:135-138 | pos moves by n with no bound check; the limit is unchanged |
| BitStream.ReadBits | audio/example/mp3/1_test/src/util/bs.c:113-132 | The shared reader body gives the reference bits or 0 past the limit, and moves pos by n |
| BitStream.Collect | audio/example/mp3/1_test/src/util/bs.c:124-132 | The accumulation loop returns exactly the n reference bits from the starting position |
| UBitStream.BitStreamContext.Init | audio/example/mp3/1_test/src/util/u_bit_stream.h:19-24 | pos is 0 and limit is 8 * bytes |
| UBitStream.BitStreamContext.GetBitsU8 | audio/example/mp3/1_test/src/util/u_bit_stream.h:26-49 | pos always advances by 8; the next 8 bits within the limit, else 0 |
| UBitStream.BitStreamContext.GetBitsU16 | audio/example/mp3/1_test/src/util/u_bit_stream.h:51-74 | pos always advances by 16; the next 16 bits within the limit, else 0 |
| UBitStream.BitStreamContext.GetBitsU32 | audio/example/mp3/1_test/src/util/u_bit_stream.h:76-99 | pos always advances by 32; the next 32 bits within the limit, else 0 |
| UBitStream.BitStreamContext.GetBitsU64 | audio/example/mp3/1_test/src/util/u_bit_stream.h:101-124 | pos always advances by 64; the next 64 bits within the limit, else 0 |
| UBitStream.BitStreamContext.GetBits | audio/example/mp3/1_test/src/util/u_bit_stream.h:126-149 | pos always advances by n; the n bits at pos within the limit, else 0 |
| UBitStream.BitStreamContext.SkipBits | audio/example/mp3/1_test/src/util/u_bit_stream.h:151-154 | pos moves by n unconditionally |
| IntReadWrite.RoundTrip8 | audio/example/mp3/1_test/src/util/u_internal_rw.h:196-197 | Reading back the byte U_WB8 stores gives the value |
| IntReadWrite.BytesRoundTrip8 | audio/example/mp3/1_test/src/util/u_internal_rw.h:196-197 | Storing the byte U_RB8 read gives the same byte |
| IntReadWrite.WriteB8 | audio/example/mp3/1_test/src/util/u_internal_rw.h:197 | Stores one byte, which U_RB8 at the same place reads back, and changes no other |
| IntReadWrite.StoreForward | audio/example/mp3/1_test/src/util/u_internal_rw.h:59-63 | Stores the bytes first to last at the offset; nothing outside changes |
| IntReadWrite.StoreBackward | audio/example/mp3/1_test/src/util/u_internal_rw.h:46-50 | Stores the bytes last to first at the offset; nothing outside changes |
| IntReadWrite.ReadBE16 | audio/example/mp3/1_test/src/util/u_internal_rw.h:41-43 | The high byte of the result is p[0] and the low byte is p[1] |
| IntReadWrite.ReadLE16 | audio/example/mp3/1_test/src/util/u_internal_rw.h:54-56 | The high byte of the result is p[1] and the low byte is p[0] |
| IntReadWrite.WriteBE16 | audio/example/mp3/1_test/src/util/u_internal_rw.h:46-50 | Stores the big-endian bytes in p[0..2) and nothing else |
| IntReadWrite.WriteLE16 | audio/example/mp3/1_test/src/util/u_internal_rw.h:59-63 | Stores the little-endian bytes in p[0..2) and nothing else |
| IntReadWrite.RoundTrip16 | audio/example/mp3/1_test/src/util/u_internal_rw.h:41-63 | Writing then reading 16 bits gives the value back, in both orders |
| IntReadWrite.BytesRoundTrip16 | audio/example/mp3/1_test/src/util/u_internal_rw.h:41-63 | Reading then writing 16 bits gives the bytes back, in both orders |
| IntReadWrite.ReadBE24 | audio/example/mp3/1_test/src/util/u_internal_rw.h:245-248 | The three bytes, first most significant, with the top byte 0 |
| IntReadWrite.ReadLE24 | audio/example/mp3/1_test/src/util/u_internal_rw.h:259-262 | The three bytes, first least significant, with the top byte 0 |
| IntReadWrite.WriteBE24 | audio/example/mp3/1_test/src/util/u_internal_rw.h:251-255 | Stores the low three bytes big-endian in p[0..3) and nothing else |
| IntReadWrite.WriteLE24 | audio/example/mp3/1_test/src/util/u_internal_rw.h:265-269 | Stores the low three bytes little-endian in p[0..3) and nothing else |
| IntReadWrite.RoundTrip24 | audio/example/mp3/1_test/src/util/u_internal_rw.h:245-269 | Writing then reading 24 bits gives the value mod 2^24 |
| IntReadWrite.BytesRoundTrip24 | audio/example/mp3/1_test/src/util/u_internal_rw.h:245-269 | Reading then writing 24 bits gives the bytes back |
| IntReadWrite.ReadBE32 | audio/example/mp3/1_test/src/util/u_internal_rw.h:67-71 | Byte k of the result, from the top, is p[k] |
| IntReadWrite.ReadLE32 | audio/example/mp3/1_test/src/util/u_internal_rw.h:84-88 | Byte k of the result, from the bottom, is p[k] |
| IntReadWrite.WriteBE32 | audio/example/mp3/1_test/src/util/u_internal_rw.h:74-80 | Stores the big-endian bytes in p[0..4) and nothing else |
| IntReadWrite.WriteLE32 | audio/example/mp3/1_test/src/util/u_internal_rw.h:91-97 | Stores the little-endian bytes in p[0..4) and nothing else |
| IntReadWrite.RoundTrip32 | audio/example/mp3/1_test/src/util/u_internal_rw.h:67-97 | Writing then reading 32 bits gives the value back, in both orders |
| IntReadWrite.BytesRoundTrip32 | audio/example/mp3/1_test/src/util/u_internal_rw.h:67-97 | Reading then writing 32 bits gives the bytes back, in both orders |
| IntReadWrite.ReadBE48 | audio/example/mp3/1_test/src/util/u_internal_rw.h:273-279 | Six bytes, first most significant, with the top two bytes 0 |
| IntReadWrite.ReadLE48 | audio/example/mp3/1_test/src/util/u_internal_rw.h:294-300 | Six bytes, first least significant, with the top two bytes 0 |
| IntReadWrite.WriteBE48 | audio/example/mp3/1_test/src/util/u_internal_rw.h:282-290 | Stores the low six bytes big-endian in p[0..6) and nothing else |
| IntReadWrite.WriteLE48 | audio/example/mp3/1_test/src/util/u_internal_rw.h:303-311 | Stores the low six bytes little-endian in p[0..6) and nothing else |
| IntReadWrite.RoundTrip48 | audio/example/mp3/1_test/src/util/u_internal_rw.h:273-311 | Writing then reading 48 bits gives the value mod 2^48 |
| IntReadWrite.BytesRoundTrip48 | audio/example/mp3/1_test/src/util/u_internal_rw.h:273-311 | Reading then writing 48 bits gives the bytes back |
| IntReadWrite.ReadBE64 | audio/example/mp3/1_test/src/util/u_internal_rw.h:101-109 | Byte k of the result, from the top, is p[k] |
| IntReadWrite.ReadLE64 | audio/example/mp3/1_test/src/util/u_internal_rw.h:126-134 | Byte k of the result, from the bottom, is p[k] |
| IntReadWrite.WriteBE64 | audio/example/mp3/1_test/src/util/u_internal_rw.h:112-122 | Stores the big-endian bytes in p[0..8) and nothing else |
| IntReadWrite.WriteLE64 | audio/example/mp3/1_test/src/util/u_internal_rw.h:137-147 | Stores the little-endian bytes in p[0..8) and nothing else |
| IntReadWrite.RoundTrip64 | audio/example/mp3/1_test/src/util/u_internal_rw.h:101-147 | Writing then reading 64 bits gives the value back, in both orders |
| IntReadWrite.BytesRoundTrip64 | audio/example/mp3/1_test/src/util/u_internal_rw.h:101-147 | Reading then writing 64 bits gives the bytes back, in both orders |
| NativeReadWrite.ReadBEViaSwap16 | audio/example/mp3/1_test/src/util/u_internal_rw.h:185-190 | A native load, swapped on a little-endian host, equals the byte-composed big-endian read |
| NativeReadWrite.ReadLEViaSwap16 | audio/example/mp3/1_test/src/util/u_internal_rw.h:187-192 | A native load, swapped on a big-endian host, equals the byte-composed little-endian read |
| NativeReadWrite.ReadBEViaSwap32 | audio/example/mp3/1_test/src/util/u_internal_rw.h:185-190 | The same for 32 bits, big-endian |
| NativeReadWrite.ReadLEViaSwap32 | audio/example/mp3/1_test/src/util/u_internal_rw.h:187-192 | The same for 32 bits, little-endian |
| NativeReadWrite.ReadBEViaSwap64 | audio/example/mp3/1_test/src/util/u_internal_rw.h:185-190 | The same for 64 bits, big-endian |
| NativeReadWrite.ReadLEViaSwap64 | audio/example/mp3/1_test/src/util/u_internal_rw.h:187-192 | The same for 64 bits, little-endian |
| NativeReadWrite.SwappedRead64 | audio/example/mp3/1_test/src/util/u_internal_rw.h:184-194 | The little-endian read of p is the byte swap of the big-endian read, and the other way round |
| NativeReadWrite.BytesBEViaSwap16 | audio/example/mp3/1_test/src/util/u_internal_rw.h:186-191 | A native store of the maybe swapped value leaves the big-endian bytes |
| NativeReadWrite.BytesLEViaSwap16 | audio/example/mp3/1_test/src/util/u_internal_rw.h:188-193 | A native store of the maybe swapped value leaves the little-endian bytes |
| NativeReadWrite.BytesBEViaSwap32 | audio/example/mp3/1_test/src/util/u_internal_rw.h:186-191 | The same for 32 bits, big-endian |
| NativeReadWrite.BytesLEViaSwap32 | audio/example/mp3/1_test/src/util/u_internal_rw.h:188-193 | The same for 32 bits, little-endian |
| NativeReadWrite.BytesBEViaSwap64 | audio/example/mp3/1_test/src/util/u_internal_rw.h:186-191 | The same for 64 bits, big-endian |
| NativeReadWrite.BytesLEViaSwap64 | audio/example/mp3/1_test/src/util/u_internal_rw.h:188-193 | The same for 64 bits, little-endian |
| ByteSwap.Swap16C | audio/example/mp3/1_test/src/util/u_bs_swap.h:95 | The result is below 2^16 and exchanges the low two bytes |
| ByteSwap.Swap16CLow16 | audio/example/mp3/1_test/src/util/u_bs_swap.h:95 | The result depends only on the low 16 bits |
| ByteSwap.Swap32C | audio/example/mp3/1_test/src/util/u_bs_swap.h:96 | The result is below 2^32 and reverses the low four bytes |
| ByteSwap.Swap64C | audio/example/mp3/1_test/src/util/u_bs_swap.h:97 | Reverses all eight bytes |
| ByteSwap.BSwap16 | audio/example/mp3/1_test/src/util/u_bs_swap.h:101-105 | Exchanges the two bytes |
| ByteSwap.BSwap32 | audio/example/mp3/1_test/src/util/u_bs_swap.h:107-110 | Reverses the four bytes |
| ByteSwap.BSwap64 | audio/example/mp3/1_test/src/util/u_bs_swap.h:112-115 | Reverses the eight bytes |
| ByteSwap.BSwap16Involution | audio/example/mp3/1_test/src/util/u_bs_swap.h:101-105 | Swapping twice is the identity |
| ByteSwap.BSwap32Involution | audio/example/mp3/1_test/src/util/u_bs_swap.h:107-110 | Swapping twice is the identity |
| ByteSwap.BSwap64Involution | audio/example/mp3/1_test/src/util/u_bs_swap.h:112-115 | Swapping twice is the identity |
| ByteSwap.DocumentedExamples | audio/example/mp3/1_test/src/util/u_bs_swap.h:71-81 | 0x1234 becomes 0x3412, 0x12345678 becomes 0x78563412, and 0x1020304050607080 becomes 0x8070605040302010 |
| ByteStream.GetByteContext.Left | audio/example/mp3/1_test/src/util/u_byte_stream.h:53 | The bytes left are never negative and end at buffer_end |
| ByteStream.GetByteContext.Peek | audio/example/mp3/1_test/src/util/u_byte_stream.h:63-68 | 0 when fewer than `bytes` remain, else the unchecked peek; the cursor never moves |
| ByteStream.GetByteContext.GetUnchecked | audio/example/mp3/1_test/src/util/u_byte_stream.h:22-26 | Advances by `bytes` and returns the value read from the skipped bytes |
| ByteStream.GetByteContext.Get | audio/example/mp3/1_test/src/util/u_byte_stream.h:47-58 | Returns what a peek returned. With room it advances by exactly `bytes`; without, it jumps to buffer_end. It never passes buffer_end |
| ByteStream.PutByteContext.PutUnchecked | audio/example/mp3/1_test/src/util/u_byte_stream.h:27-37 | Writes the field's bytes at the cursor, advances past them, and changes no other byte |
| ByteStream.PutByteContext.Put | audio/example/mp3/1_test/src/util/u_byte_stream.h:38-46 | Writes and advances only when not at eof and with room. Otherwise it sets eof and writes nothing. eof is sticky, and the cursor never passes buffer_end |
| ByteStream.PeekReadsWhatWasPut | audio/example/mp3/1_test/src/util/u_byte_stream.h:38-68 | A cursor over the bytes a put stored for v peeks v back, through both the checked and the unchecked peek, when the field's read undoes its write |
| Common.Abs | audio/example/mp3/1_test/src/util/u_common.h:22-30 | The result is non-negative and is a or -a, for every value but INT_MIN |
| Common.Sign | audio/example/mp3/1_test/src/util/u_common.h:31 | 1 exactly for positive a and -1 otherwise, including 0 |
| Common.NAbs | audio/example/mp3/1_test/src/util/u_common.h:33-39 | The result is at most 0 and is a or -a, for every value |
| Common.Clip | audio/example/mp3/1_test/src/util/u_common.h:56-64 | amin when a < amin, otherwise amax when a > amax, otherwise a; always in [amin, amax] when amin <= amax |
| Common.ClipIdempotent | audio/example/mp3/1_test/src/util/u_common.h:56-64 | Clipping twice is clipping once |
| Common.AbsIsMinusNAbs | audio/example/mp3/1_test/src/util/u_common.h:30-39 | The absolute value is minus the negative absolute value |
| Macros.Max | audio/example/mp3/1_test/src/util/u_macros.h:8 | At least both arguments, equal to one of them, and b on a tie |
| Macros.Max3 | audio/example/mp3/1_test/src/util/u_macros.h:9 | The maximum of three values |
| Macros.Min | audio/example/mp3/1_test/src/util/u_macros.h:11 | At most both arguments, equal to one of them, and a on a tie |
| Macros.Min3 | audio/example/mp3/1_test/src/util/u_macros.h:12 | The minimum of three values |
| Macros.Swap | audio/example/mp3/1_test/src/util/u_macros.h:14 | The two values are exchanged |
| ExportUtils.Inserted | player/oss/audacity-Audacity-3.5.1/libraries/lib-import-export/ExportUtils.cpp:63-68 | Registering grows the list by exactly one |
| ExportUtils.InsertedAddsOne | player/oss/audacity-Audacity-3.5.1/libraries/lib-import-export/ExportUtils.cpp:63-68 | Registering adds exactly the new element and loses none |
| ExportUtils.InsertIndex | player/oss/audacity-Audacity-3.5.1/libraries/lib-import-export/ExportUtils.cpp:64-67 | The upper bound: every element before it has priority >= p, and the one at it has lower priority |
| ExportUtils.InsertedSplices | player/oss/audacity-Audacity-3.5.1/libraries/lib-import-export/ExportUtils.cpp:63-68 | The new hook goes in at the upper bound and the old hooks keep their order, which makes equal priorities first come, first served |
| ExportUtils.InsertIndexSplits | player/oss/audacity-Audacity-3.5.1/libraries/lib-import-export/ExportUtils.cpp:64-67 | On a sorted list every hook behind the upper bound has lower priority |
| ExportUtils.InsertedSorted | player/oss/audacity-Audacity-3.5.1/libraries/lib-import-export/ExportUtils.cpp:60-69 | Registering keeps the list sorted by non-increasing priority |
| ExportUtils.SplitIsInsertIndex | player/oss/audacity-Audacity-3.5.1/libraries/lib-import-export/ExportUtils.cpp:64-67 | On a sorted list the split between priorities >= p and < p is the upper bound |
| ExportUtils.HookRegistry.constructor | player/oss/audacity-Audacity-3.5.1/libraries/lib-import-export/ExportUtils.cpp:53-57 | The static vector starts empty and sorted |
| ExportUtils.HookRegistry.UpperBound | player/oss/audacity-Audacity-3.5.1/libraries/lib-import-export/ExportUtils.cpp:64-67 | The binary search returns the upper bound of the priority |
| ExportUtils.HookRegistry.RegisterExportHook | player/oss/audacity-Audacity-3.5.1/libraries/lib-import-export/ExportUtils.cpp:60-69 | The list becomes the old list with the new hook inserted at its upper bound, and stays sorted |
| ExportUtils.HookRegistry.PerformInteractiveExport | player/oss/audacity-Audacity-3.5.1/libraries/lib-import-export/ExportUtils.cpp:71-80 | The hooks called are exactly those Invoked names, in order |
| ExportUtils.Invoked | player/oss/audacity-Audacity-3.5.1/libraries/lib-import-export/ExportUtils.cpp:75-79 | No more hooks are called than are registered |
| ExportUtils.InvokedMeaning | player/oss/audacity-Audacity-3.5.1/libraries/lib-import-export/ExportUtils.cpp:75-79 | Hooks are called in list order. Every call but the last answered Continue. A run that stops early stops at an answer other than Continue |
| ExportUtils.InvokedExtends | player/oss/audacity-Audacity-3.5.1/libraries/lib-import-export/ExportUtils.cpp:75-79 | While every hook answers Continue, one more hook is one more call |
| ExportUtils.InvokedStops | player/oss/audacity-Audacity-3.5.1/libraries/lib-import-export/ExportUtils.cpp:77-78 | The first hook not answering Continue hides every later hook |
| ExportUtils.Keep | player/oss/audacity-Audacity-3.5.1/libraries/lib-import-export/ExportUtils.cpp:27-29 | A track is kept exactly when it is in the list and passes the filter |
| ExportUtils.FindExportWaveTracks | player/oss/audacity-Audacity-3.5.1/libraries/lib-import-export/ExportUtils.cpp:22-30 | Every result is a wave track of the list. With selectedOnly it is selected. If any wave track is solo it is solo, otherwise it is not muted. Every track passing these tests is included |
| ExportUtils.KeepPrefix | player/oss/audacity-Audacity-3.5.1/libraries/lib-import-export/ExportUtils.cpp:27-29 | The filter keeps list order |
| ExportUtils.ParametersUpTo | player/oss/audacity-Audacity-3.5.1/libraries/lib-import-export/ExportUtils.cpp:35-41 | At most one pair per option |
| ExportUtils.ParametersExactly | player/oss/audacity-Audacity-3.5.1/libraries/lib-import-export/ExportUtils.cpp:39-40 | A pair is collected exactly when some index has that option and the editor holds that value for its id |
| ExportUtils.ParametersInOrder | player/oss/audacity-Audacity-3.5.1/libraries/lib-import-export/ExportUtils.cpp:35-41 | Later options only append, so the pairs come in index order |
| ExportUtils.ParametersFromEditor | player/oss/audacity-Audacity-3.5.1/libraries/lib-import-export/ExportUtils.cpp:32-43 | The loop collects exactly ParametersUpTo over all options |

## Left out

- Null-pointer arguments and allocation failure. `dec == NULL`, `buf == NULL` and `out_info == NULL` with their EINVAL returns, and ENOMEM from `mpeg_dec_init`, do not arise in the model. Passing no callback table is kept, as `callbacks == false`.
- The callbacks and `MPEG_DEC_FLAG_*`. The flags argument of `mpeg_dec_parse_buf` is accepted and ignored, as in the source. The completion notification at `mpeg_dec.c:755-758` is empty.
- `mpeg_dec_parse_file` (`mpeg_dec.c:479-607`): file I/O.
- The `EPARSE_FAIL` exit and reset (`mpeg_dec.c:739-743,760-764`), and the `default:` of the stage switch (`:713-715`). No stage returns `EPARSE_FAIL` and the state is always one of the four stages, so both are dead code.
- Lines `mpeg_dec.c:414-419`. They are unreachable after the `while(1)`, and the model has no counterpart for them.
- `mpeg_dec_deinit`'s final `free` and its null check. MpegDec.MpegDecoder.Deinit stops at the reset.
- The header list is never filled by any code shown, so it is a sequence that is only ever emptied.
- Integer widths of the decoder's counters (`uint64_t`, `uint32_t`). They are unbounded here; no realistic stream reaches 2^64 bytes.
- The header struct of `test.c` is read through a bit-field overlay. The model fixes GCC's allocation, first field in the least significant bits; other compilers may lay it out differently.
- `(pbuff[i + 1] & 0xE0) != 0xE0` is written as `buf[p + 1] >= 0xE0`, which is the same test for a byte.
- `_print_mp3_audio_frame_header_info` and `main` of `test.c`: printing and file I/O.
- The `default:` branches of the switches in `_mp3_header_internal_parse`, which two-bit fields cannot reach.
- Mp3Header.Decode computes the corrected frame length and samples per frame, not those of `test.c:380-385` and `:397-404`. The as-written forms are kept beside it (see Findings).
- Mp3Header.FrameHeaderInfo.InternalParse stores the corrected frame length and samples per frame that Mp3Header.Decode gives.
- Mp3Header.HeaderParse leaves the corrected frame length and samples per frame in a found header.
- BitStream.BitReader.SkipBits and UBitStream.BitStreamContext.SkipBits require `pos + n >= 0`, because the position is a natural number. The source would wrap a negative position around.
- BitStream.BitReader.GetBits requires `pos / 8 < |buf|` for an in-range read. With n = 0 and pos at the end of the buffer, the source still loads the byte at `pos / 8`, one past the end.
- The `uint8_t` width of the bs.c `next` variable. Every value stored in it is a byte, so the truncation never happens.
- u_bit_stream.h: `u_bit_stream_get_bits_*` have the bodies of bs.c, and the module reuses the bs.c loop model.
- In u_internal_rw.h, the union and alias macros (`U_RNA`, `U_COPY*`, `U_ZERO*`, `U_SWAP`, and the `A` forms) are left out. They rely on type punning through an `av_alias` type that the file does not define.
- In u_byte_stream.h, the `DEF` template names a getter `u_byte_stream_get_<name>` but calls `bytestream_get_<name>`. It also uses ffmpeg's `PutByteContext`/`GetByteContext` where the file defines `put_byte_context_t`/`get_byte_context_t`. The model follows the evident intent: one getter, over the file's own structures.
- ByteStream.GetByteContext.Peek and Get: `read` and `write` are parameters of the template, and so are parameters here (a `Field`). No concrete instantiation is modelled.
- Common.Abs excludes `INT_MIN`, for which the source documents undefined behaviour.
- The `ASSERT_LEVEL` abort in `uc_clip_c` is left out: a compile-time debugging option.
- `u_error.h`, `u_assert.h`, `u_attributes.h`, `dbg.c` and `dbg.h` are not part of this model: errno sign conventions, abort, compiler attributes and logging.
- In `ExportUtils.cpp`, hooks, projects and file formats are opaque. A hook is an identity, and its answer is a function passed to the runner, so the project and format arguments are left out.
- `ExportValue` is a type parameter.
- `TrackIterRange` is lazy in the source. ExportUtils.FindExportWaveTracks gives it as a sequence of the project's tracks in list order.
- The function-local static vector of hooks is an object the caller holds (`HookRegistry`).
- `GetOption` and `GetValue` are a sequence of optional options and a map from id to value.
- The Audacity UI, drawing, DSP and command files in the repository are not part of this model.

## Findings

| source | as written | input that shows it | evidently intended | confidence | as-written member | corrected member |
|---|---|---|---|---|---|---|
| audio/example/mp3/1_test/src/test/test.c:380-385 | The Layer III frame length uses factor 144 for MPEG 2.5 and 72 for MPEG 1 and 2 | An MPEG 1 Layer III header at 128 kbit/s and 44.1 kHz without padding: 72 * 128000 / 44100 = 208 bytes, where the frame holds 417 | 144 for MPEG 1, 72 for MPEG 2 and 2.5, so that the length is samples / 8 * bitrate / frequency + padding | high (not executed) | Mp3Header.Layer3FrameLengthInverted | Mp3Header.FrameLengthFromSamples |
| audio/example/mp3/1_test/src/test/test.c:397-404 | `_samples_per_frame[b_lsf][layer]` is indexed by the mpeg_layers value (Layer III = 1, Layer II = 2, Layer I = 3) into a row whose columns are Layer I, II, III | An MPEG 2 Layer III header gets 1152 samples instead of 576; any Layer I header reads index 3 of a 3-wide row | The column of the layer as the table's comments give it: 3 - layer value | high (not executed) | Mp3Header.SamplesPerFrameMisindexed | Mp3Header.SamplesPerFrameDocumented |
