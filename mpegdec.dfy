/**
 * Model of mpeg_dec.c: a streaming MP3 container parser. The decoder owns a
 * 16 KB buffer. `ParseBuf` (mpeg_dec_parse_buf) appends the caller's bytes
 * in buffer-sized rounds and, after each round, runs the stages header →
 * audio frame → tail → completed, falling through from one stage to the
 * next and compacting the buffer by what each stage consumed.
 *
 * The header stage looks for an ID3v2 tag header once more than 10 bytes
 * are buffered. The model keeps the source's behaviour where it goes wrong:
 * when the tag's size is larger than 10 the stage spins forever in its
 * `while(1)` (`Outcome.Diverges`), and otherwise the 10 header bytes are
 * counted and shifted out twice, once by the stage and once by its caller.
 *
 * The ghost field `received` records every byte copied into the decoder
 * since it was last reset; `Valid` ties the counters and the buffer to it.
 */
module MpegDec {
  import opened Bytes
  import opened Id3v2
  import BitStream

  /** MP3_BUF_SIZE. */
  const BufSize: nat := 16 * 1024

  /** mpeg_dec_error_e. */
  datatype ErrorCode = EOk | EError | EInval | ENoMem | EInvalFile | EStateNotAllow | ENeedMoreData | EParseFail

  /** What a call does: it returns a code, or it never returns. */
  datatype Outcome = Returns(code: ErrorCode) | Diverges

  /** mpeg_dec_state_e. */
  datatype DecState = StateParseHeader | StateParseAudioFrame | StateParseTail | StateParseCompleted

  /** The enum value of a stage; stages only ever move to a larger value. */
  function StateValue(s: DecState): nat
  {
    match s
    case StateParseHeader => 0
    case StateParseAudioFrame => 1
    case StateParseTail => 2
    case StateParseCompleted => 4
  }

  /** bitrate_type_e. */
  datatype BitrateType = BitrateTypeFalse | BitrateTypeCbr | BitrateTypeVbr | BitrateTypeAbr | BitrateTypeFree

  /** id3v2_tag_info_t. */
  datatype Id3v2TagInfo = Id3v2TagInfo(version: Byte, revision: Byte, flag: Byte, size: nat, checked: bool)

  /** id3_tag_info_t (id3v1_tag_info_t holds only a size). */
  datatype Id3TagInfo = Id3TagInfo(id3v1Size: nat, id3v2: Id3v2TagInfo)

  /** The tag information of a zeroed decoder. */
  const NoTags := Id3TagInfo(0, Id3v2TagInfo(0, 0, 0, 0, false))

  /**
   * An entry of header_list: where its chain of frames starts and the four
   * header bytes (no code shown fills the list; it is only emptied).
   */
  datatype FrameEntry = FrameEntry(framePos: nat, bytes: seq<Byte>)

  // ------------------------------------------------ what a stream leads to

  /** The stream starts with "ID3", judged once more than 10 bytes are there. */
  predicate StartsWithTag(stream: seq<Byte>)
  {
    |stream| > HeaderSize && stream[..3] == TagId
  }

  /** The synchsafe tag size in bytes 6..9 of the stream. */
  function TagSize(stream: seq<Byte>): (r: nat)
    requires |stream| > HeaderSize
    ensures r < 0x1000_0000
  {
    SynchsafeSize(stream[6], stream[7], stream[8], stream[9])
  }

  /**
   * The header stage never returns: it has counted the 10 header bytes and
   * waits, without reading anything more, for the count to reach the size.
   */
  predicate HeaderStageHangs(stream: seq<Byte>)
  {
    StartsWithTag(stream) && TagSize(stream) > HeaderSize
  }

  /**
   * total_parsed once every byte of the stream has been consumed: the
   * stream's length, and 10 more when a tag header was counted twice.
   */
  function ParsedCount(stream: seq<Byte>): (r: nat)
    ensures r >= |stream|
    ensures r == |stream| <==> !StartsWithTag(stream)
  {
    |stream| + (if StartsWithTag(stream) then HeaderSize else 0)
  }

  /** The tag information once the ID3v2 check has run on the stream. */
  function TagInfoAfterCheck(stream: seq<Byte>): (r: Id3TagInfo)
    requires |stream| > HeaderSize
    ensures r.id3v2.checked && r.id3v1Size == 0
    ensures StartsWithTag(stream) ==> r.id3v2.size == TagSize(stream)
    ensures !StartsWithTag(stream) ==> r.id3v2.size == 0
  {
    if StartsWithTag(stream) then
      Id3TagInfo(0, Id3v2TagInfo(stream[3], stream[4], stream[5], TagSize(stream), true))
    else
      Id3TagInfo(0, Id3v2TagInfo(0, 0, 0, 0, true))
  }

  /**
   * The stage a call leaves a decoder in when it returns: the header stage
   * while at most 10 bytes have arrived, otherwise the tail, or completed
   * when the caller said the stream ends.
   */
  function StageAfter(before: DecState, stream: seq<Byte>, eof: bool): (r: DecState)
    requires before == StateParseHeader || before == StateParseTail
    ensures StateValue(r) >= StateValue(before)
    ensures r == StateParseCompleted <==> eof && (before == StateParseTail || |stream| > HeaderSize)
    ensures r != StateParseAudioFrame
  {
    if before == StateParseHeader && |stream| <= HeaderSize then StateParseHeader
    else if eof then StateParseCompleted
    else StateParseTail
  }

  /**
   * Once more than 10 bytes are there, what the header stage decides no
   * longer changes as the stream grows.
   */
  lemma {:induction false} PrefixDecides(s: seq<Byte>, t: seq<Byte>)
    requires |s| > HeaderSize && s <= t
    ensures StartsWithTag(s) == StartsWithTag(t)
    ensures TagSize(s) == TagSize(t)
    ensures HeaderStageHangs(s) == HeaderStageHangs(t)
    ensures TagInfoAfterCheck(s) == TagInfoAfterCheck(t)
    ensures ParsedCount(t) == ParsedCount(s) + (|t| - |s|)
  {
    assert s[..3] == t[..3];
    assert s[3] == t[3] && s[4] == t[4] && s[5] == t[5];
    assert s[6] == t[6] && s[7] == t[7] && s[8] == t[8] && s[9] == t[9];
  }

  /**
   * Every stream that starts with a tag header announcing more than 10
   * bytes, which is every tag that holds a frame, hangs the header stage.
   */
  lemma LongTagHangs(version: Byte, revision: Byte, flags: Byte, n: nat, rest: seq<Byte>)
    requires HeaderSize < n < 0x1000_0000 && |rest| > 0
    ensures HeaderStageHangs(TagHeader(version, revision, flags, n) + rest)
  {
    var h := TagHeader(version, revision, flags, n);
    var s := h + rest;
    var b := SynchsafeBytes(n);
    assert s[..3] == TagId;
    assert s[6] == b[0] && s[7] == b[1] && s[8] == b[2] && s[9] == b[3];
    SizeRoundTrip(n);
  }

  /**
   * A tag header announcing at most 10 bytes lets the header stage return,
   * and the stream is then counted 10 bytes longer than it is.
   */
  lemma ShortTagCountedTwice(version: Byte, revision: Byte, flags: Byte, n: nat, rest: seq<Byte>)
    requires n <= HeaderSize && |rest| > 0
    ensures var s := TagHeader(version, revision, flags, n) + rest;
      !HeaderStageHangs(s) && ParsedCount(s) == |s| + HeaderSize
  {
    var h := TagHeader(version, revision, flags, n);
    var s := h + rest;
    var b := SynchsafeBytes(n);
    assert s[..3] == TagId;
    assert s[6] == b[0] && s[7] == b[1] && s[8] == b[2] && s[9] == b[3];
    SizeRoundTrip(n);
  }

  // --------------------------------------------------------- the decoder

  /**
   * The ID3v2 tag header as the header stage reads it through a bit
   * reader over the first `bytes` buffered bytes: skip "ID3", read the
   * version, revision and flag bytes, then the four size bytes, keeping
   * the low seven bits of each.
   */
  method ReadTagHeader(data: seq<Byte>, bytes: nat) returns (version: Byte, revision: Byte, flag: Byte, size: nat)
    requires HeaderSize < bytes <= |data|
    ensures version == data[3] && revision == data[4] && flag == data[5]
    ensures size == SynchsafeSize(data[6], data[7], data[8], data[9])
  {
    var bs := new BitStream.BitReader.Init(data, bytes);
    bs.SkipBits(3 * 8);
    BitStream.AlignedByte(data, 3);
    BitStream.AlignedByte(data, 4);
    BitStream.AlignedByte(data, 5);
    BitStream.AlignedByte(data, 6);
    BitStream.AlignedByte(data, 7);
    BitStream.AlignedByte(data, 8);
    BitStream.AlignedByte(data, 9);
    var v := bs.GetBitsU8();
    var r := bs.GetBitsU8();
    var f := bs.GetBitsU8();
    version, revision, flag := v, r, f;
    var s0 := bs.GetBitsU8();
    var s1 := bs.GetBitsU8();
    var s2 := bs.GetBitsU8();
    var s3 := bs.GetBitsU8();
    size := (s0 % 0x80) * 0x20_0000 + (s1 % 0x80) * 0x4000 + (s2 % 0x80) * 0x80 + s3 % 0x80;
  }

  /** _mpeg_dec_header_list_free: unlink and free every node, leaving an empty list. */
  method FreeHeaderList(list: seq<FrameEntry>) returns (emptied: seq<FrameEntry>)
    ensures emptied == []
  {
    emptied := list;
    if emptied == [] {
      return;
    }
    while emptied != []
      decreases |emptied|
    {
      emptied := emptied[1..];
    }
  }

  /** mpeg_decoder_internal_t, with audio_info_t's fields inlined. */
  class MpegDecoder {
    var isValidMpegAudio: bool
    var id3: Id3TagInfo
    var headers: seq<FrameEntry>
    const buf: array<Byte>
    var remain: nat
    var totalFrames: nat
    var totalFileSize: nat
    var totalParsed: nat
    var duration: nat
    var bitRateType: BitrateType
    var state: DecState
    var flags: nat
    ghost var received: seq<Byte>

    /** The fields no parsing stage writes. */
    function Untouched(): (bool, seq<FrameEntry>, nat, nat, nat, BitrateType, nat)
      reads this
    {
      (isValidMpegAudio, headers, totalFrames, totalFileSize, duration, bitRateType, flags)
    }

    /** A decoder as _mpeg_dec_reset leaves it: zeroed, no bitrate type, empty list. */
    ghost predicate IsFresh()
      reads this, buf
    {
      buf.Length == BufSize && (forall i :: 0 <= i < buf.Length ==> buf[i] == 0) &&
      id3 == NoTags && remain == 0 && totalParsed == 0 && state == StateParseHeader && received == [] &&
      Untouched() == (false, [], 0, 0, 0, BitrateTypeFalse, 0)
    }

    /**
     * The state between two calls that returned. In the header stage the
     * buffer holds every byte received, at most 10 of them, and nothing is
     * counted yet. Past it the buffer is empty, the ID3v2 check has run on
     * more than 10 bytes, and every byte received is counted, the tag
     * header twice.
     */
    ghost predicate Valid()
      reads this, buf
    {
      buf.Length == BufSize && remain <= BufSize && (state == StateParseHeader || state == StateParseTail || state == StateParseCompleted) &&
      (state == StateParseHeader ==>
        id3 == NoTags && totalParsed == 0 && remain <= HeaderSize && buf[..remain] == received) &&
      (state != StateParseHeader ==>
        remain == 0 && |received| > HeaderSize && !HeaderStageHangs(received) &&
        id3 == TagInfoAfterCheck(received) && totalParsed == ParsedCount(received))
    }

    /** mpeg_dec_init: a new decoder, reset. */
    constructor Init()
      ensures IsFresh() && Valid() && fresh(buf)
    {
      buf := new Byte[BufSize];
      new;
      Reset();
    }

    /**
     * _mpeg_dec_reset: every field and every buffer byte to zero, then the
     * bitrate type to BITRATE_TYPE_FALSE and an empty header list.
     */
    method Reset()
      requires buf.Length == BufSize
      modifies this, buf
      ensures IsFresh() && Valid()
    {
      ZeroBuffer();
      isValidMpegAudio, id3, remain := false, NoTags, 0;
      totalFrames, totalFileSize, totalParsed, duration := 0, 0, 0, 0;
      state, flags := StateParseHeader, 0;
      bitRateType := BitrateTypeFalse;
      headers := [];
      received := [];
    }

    /** The memset of the decoder's buffer to zero. */
    method ZeroBuffer()
      modifies buf
      ensures forall k :: 0 <= k < buf.Length ==> buf[k] == 0
    {
      var i := 0;
      while i < buf.Length
        invariant 0 <= i <= buf.Length
        invariant forall k :: 0 <= k < i ==> buf[k] == 0
      {
        buf[i] := 0;
        i := i + 1;
      }
    }

    /** mpeg_dec_parse_reset: release the tags (nothing to do) and the header list, then reset. */
    method ParseReset() returns (r: ErrorCode)
      requires buf.Length == BufSize
      modifies this, buf
      ensures r == EOk && IsFresh() && Valid()
    {
      headers := FreeHeaderList(headers);
      Reset();
      return EOk;
    }

    /** mpeg_dec_deinit: reset the decoder before it is released. */
    method Deinit() returns (r: ErrorCode)
      requires buf.Length == BufSize
      modifies this, buf
      ensures r == EOk && IsFresh()
    {
      r := ParseReset();
    }

    /** memmove(buf, buf + c, n), copying upwards as a forward memmove does. */
    method MoveDown(c: nat, n: nat)
      requires c + n <= buf.Length
      modifies buf
      ensures buf[..n] == old(buf[c..c + n])
      ensures buf[n..] == old(buf[n..])
    {
      var i := 0;
      while i < n
        invariant 0 <= i <= n
        invariant forall k :: 0 <= k < i ==> buf[k] == old(buf[c + k])
        invariant forall k :: i <= k < buf.Length ==> buf[k] == old(buf[k])
      {
        buf[i] := buf[c + i];
        i := i + 1;
      }
      assert buf[..n] == old(buf[c..c + n]);
    }

    /** memcpy(buf + remain, data + from, count). */
    method CopyIn(data: seq<Byte>, from: nat, count: nat)
      requires remain + count <= buf.Length && from + count <= |data|
      modifies buf
      ensures buf[..remain + count] == old(buf[..remain]) + data[from..from + count]
    {
      var i := 0;
      while i < count
        invariant 0 <= i <= count
        invariant forall k :: 0 <= k < remain ==> buf[k] == old(buf[k])
        invariant forall k :: remain <= k < remain + i ==> buf[k] == data[from + k - remain]
      {
        buf[remain + i] := data[from + i];
        i := i + 1;
      }
      assert buf[..remain + count] == old(buf[..remain]) + data[from..from + count];
    }

    /**
     * The fill step of mpeg_dec_parse_buf: copy `count` bytes in behind the
     * buffered ones and grow `remain`; the copied bytes join the stream
     * received so far.
     */
    method TakeIn(data: seq<Byte>, from: nat, count: nat)
      requires remain + count <= buf.Length && from + count <= |data|
      modifies this, buf
      ensures remain == old(remain) + count
      ensures buf[..remain] == old(buf[..remain]) + data[from..from + count]
      ensures received == old(received) + data[from..from + count]
      ensures state == old(state) && id3 == old(id3) && totalParsed == old(totalParsed)
      ensures Untouched() == old(Untouched())
    {
      CopyIn(data, from, count);
      remain := remain + count;
      received := received + data[from..from + count];
    }

    /**
     * The compaction after a stage: count what it consumed, drop those
     * bytes and move the rest to the front of the buffer.
     */
    method Compact(consumed: nat)
      requires consumed <= remain <= buf.Length
      modifies this, buf
      ensures totalParsed == old(totalParsed) + consumed && remain == old(remain) - consumed
      ensures buf[..remain] == old(buf[consumed..remain])
      ensures state == old(state) && id3 == old(id3) && received == old(received)
      ensures Untouched() == old(Untouched())
    {
      if consumed != 0 {
        totalParsed := totalParsed + consumed;
        remain := remain - consumed;
        MoveDown(consumed, remain);
      }
    }

    /**
     * _mpeg_dec_parse_header. Until more than 10 bytes are buffered it asks
     * for more data. The first time there are, it marks the ID3v2 check
     * done; without "ID3" it moves to the audio-frame stage having consumed
     * nothing. With "ID3" it reads the tag header, counts 10 bytes, reports
     * them consumed and moves the buffer down by 10 (leaving `remain` as it
     * was). It then waits until the count reaches the tag size: it moves to
     * the audio-frame stage if it already has, and otherwise never returns.
     */
    method ParseHeader() returns (out: Outcome, consumed: nat)
      requires buf.Length == BufSize && remain <= BufSize
      modifies this, buf
      ensures remain == old(remain) && received == old(received) && Untouched() == old(Untouched())
      ensures id3.id3v1Size == old(id3.id3v1Size)
      ensures out == Returns(EOk) ==> state == StateParseAudioFrame
      ensures out != Returns(EOk) ==> state == old(state)
      ensures out != Diverges ==> out.code in {EOk, ENeedMoreData}
      ensures out == Returns(ENeedMoreData) <==> !old(id3.id3v2.checked) && old(remain) <= HeaderSize
      ensures !old(id3.id3v2.checked) && old(remain) <= HeaderSize ==>
        out == Returns(ENeedMoreData) && consumed == 0 && unchanged(this) && unchanged(buf)
      ensures !old(id3.id3v2.checked) && old(remain) > HeaderSize && !StartsWithTag(old(buf[..remain])) ==>
        out == Returns(EOk) && consumed == 0 && unchanged(buf) && totalParsed == old(totalParsed) &&
        id3.id3v2 == old(id3.id3v2).(checked := true)
      ensures !old(id3.id3v2.checked) && StartsWithTag(old(buf[..remain])) ==>
        var stream := old(buf[..remain]);
        id3.id3v2 == Id3v2TagInfo(stream[3], stream[4], stream[5], TagSize(stream), true) &&
        totalParsed == old(totalParsed) + HeaderSize && consumed == HeaderSize &&
        buf[..remain - HeaderSize] == stream[HeaderSize..] &&
        (out == Diverges <==> totalParsed < TagSize(stream))
      ensures old(id3.id3v2.checked) ==>
        consumed == 0 && unchanged(buf) && id3 == old(id3) && totalParsed == old(totalParsed) &&
        (out == Diverges <==> totalParsed < id3.id3v2.size)
    {
      consumed := 0;
      var remainData := remain;
      if !id3.id3v2.checked {
        if HeaderSize >= remainData {
          return Returns(ENeedMoreData), consumed;
        }
        id3 := id3.(id3v2 := id3.id3v2.(checked := true));
        if buf[..3] == TagId {
          ghost var stream := buf[..remain];
          assert stream[..3] == TagId;
          var version, revision, flag, size := ReadTagHeader(buf[..], remainData);
          id3 := id3.(id3v2 := Id3v2TagInfo(version, revision, flag, size, true));
          totalParsed := totalParsed + HeaderSize;
          consumed := consumed + HeaderSize;
          remainData := remainData - HeaderSize;
          MoveDown(HeaderSize, remainData);
          assert buf[..remainData] == stream[HeaderSize..];
        } else {
          state := StateParseAudioFrame;
          consumed := 0;
          return Returns(EOk), consumed;
        }
      }
      // while(1): nothing in the loop changes the count or the size
      if totalParsed >= id3.id3v2.size {
        state := StateParseAudioFrame;
        return Returns(EOk), consumed;
      }
      return Diverges, consumed;
    }

    /** _mpeg_dec_parse_audio_frame: consume everything buffered and move to the tail. */
    method ParseAudioFrame() returns (out: Outcome, consumed: nat)
      modifies this
      ensures out == Returns(EOk) && consumed == remain && state == StateParseTail
      ensures remain == old(remain) && totalParsed == old(totalParsed) && id3 == old(id3)
      ensures received == old(received) && Untouched() == old(Untouched())
    {
      consumed := remain;
      state := StateParseTail;
      return Returns(EOk), consumed;
    }

    /**
     * _mpeg_dec_parse_tail: consume everything buffered; complete at the end
     * of the stream and ask for more data otherwise.
     */
    method ParseTail(eof: bool) returns (out: Outcome, consumed: nat)
      modifies this
      ensures consumed == remain
      ensures out == (if eof then Returns(EOk) else Returns(ENeedMoreData))
      ensures state == (if eof then StateParseCompleted else old(state))
      ensures remain == old(remain) && totalParsed == old(totalParsed) && id3 == old(id3)
      ensures received == old(received) && Untouched() == old(Untouched())
    {
      consumed := remain;
      out := Returns(EOk);
      if eof {
        state := StateParseCompleted;
      } else {
        out := Returns(ENeedMoreData);
      }
    }

    /**
     * One pass of the stage switch in mpeg_dec_parse_buf and the compaction
     * after it, once a round of bytes is buffered. The header stage runs
     * only in the header state and falls through to the audio-frame stage
     * when it returns EOK in that state; the audio-frame stage always falls
     * through to the tail. Past the header stage every buffered byte is
     * consumed and counted.
     */
    method RunStages(isEof: bool) returns (ret: Outcome)
      requires buf.Length == BufSize && remain <= BufSize
      requires state == StateParseHeader || state == StateParseTail
      requires state == StateParseHeader ==>
        id3 == NoTags && totalParsed == 0 && buf[..remain] == received
      requires state == StateParseTail ==>
        |received| > HeaderSize && !HeaderStageHangs(received) &&
        id3 == TagInfoAfterCheck(received) && totalParsed + remain == ParsedCount(received)
      modifies this, buf
      ensures received == old(received) && Untouched() == old(Untouched())
      ensures ret == Diverges <==> old(state) == StateParseHeader && HeaderStageHangs(received)
      ensures ret != Diverges ==>
        Valid() && state == StageAfter(old(state), received, isEof) &&
        ret == (if state == StateParseCompleted then Returns(EOk) else Returns(ENeedMoreData))
    {
      var consumed := 0;
      var stage := state;
      if stage == StateParseHeader {
        ghost var stream := buf[..remain];
        ret, consumed := ParseHeader();
        if ret == Diverges {
          return Diverges;
        }
        if ret == Returns(EOk) && state == StateParseAudioFrame {
          Compact(consumed);
          consumed := 0;
          stage := StateParseAudioFrame;
          assert totalParsed + remain == ParsedCount(received);
        }
      }
      if stage == StateParseAudioFrame {
        ret, consumed := ParseAudioFrame();
        if ret == Returns(EOk) && state == StateParseTail {
          Compact(consumed);
          consumed := 0;
          stage := StateParseTail;
        }
      }
      if stage == StateParseTail {
        ret, consumed := ParseTail(isEof);
      }
      Compact(consumed);
    }

    /**
     * mpeg_dec_parse_buf(dec, data, |data|, cbs, flags, eof). `callbacks`
     * says whether a callback table was passed. An empty buffer or no
     * callbacks is EINVAL and a completed decoder refuses more data, both
     * without changing anything. Otherwise every byte is taken in, and the
     * call returns EOK in the stage `StageAfter` names, unless the stream
     * starts with a tag header the header stage hangs on.
     */
    method ParseBuf(data: seq<Byte>, callbacks: bool, flags: nat, eof: bool) returns (out: Outcome)
      requires Valid()
      modifies this, buf
      ensures !callbacks || |data| == 0 ==> out == Returns(EInval) && unchanged(this) && unchanged(buf)
      ensures callbacks && |data| > 0 && old(state) == StateParseCompleted ==>
        out == Returns(EStateNotAllow) && unchanged(this) && unchanged(buf)
      ensures callbacks && |data| > 0 && old(state) != StateParseCompleted ==>
        (out == Diverges || out == Returns(EOk)) &&
        (out == Diverges <==> old(state) == StateParseHeader && HeaderStageHangs(old(received) + data))
      ensures out == Returns(EOk) ==>
        Valid() && received == old(received) + data && state == StageAfter(old(state), received, eof)
      ensures Untouched() == old(Untouched())
    {
      if !callbacks || |data| == 0 {
        return Returns(EInval);
      }
      if state == StateParseCompleted {
        return Returns(EStateNotAllow);
      }
      out := Feed(data, eof);
    }

    /**
     * One round of the loop of mpeg_dec_parse_buf: take `count` more bytes
     * in, run the stages on them (with `isEof` set when these are the last
     * bytes of the stream) and compact.
     */
    method Round(data: seq<Byte>, from: nat, count: nat, isEof: bool) returns (ret: Outcome)
      requires Valid() && state != StateParseCompleted
      requires remain + count <= BufSize && from + count <= |data|
      modifies this, buf
      ensures received == old(received) + data[from..from + count] && Untouched() == old(Untouched())
      ensures ret == Diverges <==> old(state) == StateParseHeader && HeaderStageHangs(received)
      ensures ret != Diverges ==>
        Valid() && state == StageAfter(old(state), received, isEof) &&
        ret == (if state == StateParseCompleted then Returns(EOk) else Returns(ENeedMoreData))
    {
      ghost var before := received;
      TakeIn(data, from, count);
      if state == StateParseTail {
        PrefixDecides(before, received);
      }
      ret := RunStages(isEof);
    }

    /**
     * The loop of mpeg_dec_parse_buf: fill the buffer from `data`, run the
     * stages, compact, until the bytes run out or parsing completes.
     */
    method Feed(data: seq<Byte>, eof: bool) returns (out: Outcome)
      requires Valid() && state != StateParseCompleted && |data| > 0
      modifies this, buf
      ensures out == Diverges || out == Returns(EOk)
      ensures out == Diverges <==> old(state) == StateParseHeader && HeaderStageHangs(old(received) + data)
      ensures out == Returns(EOk) ==>
        Valid() && received == old(received) + data && state == StageAfter(old(state), received, eof)
      ensures Untouched() == old(Untouched())
    {
      var ret := Returns(EOk);
      var need := |data|;
      var copyPos := 0;
      var isEof := false;
      while true
        invariant copyPos + need == |data| && need > 0 && !isEof
        invariant Valid() && state != StateParseCompleted
        invariant received == old(received) + data[..copyPos]
        invariant state == StateParseHeader ==> old(state) == StateParseHeader
        invariant Untouched() == old(Untouched())
        decreases need
      {
        // fill the buffer from the caller's bytes
        var fill := BufSize - remain;
        if need <= fill {
          fill := need;
        }
        need := need - fill;
        copyPos := copyPos + fill;
        if need == 0 && eof {
          isEof := true;
        }
        ret := Round(data, copyPos - fill, fill, isEof);
        assert received == old(received) + data[..copyPos];
        if ret == Diverges {
          PrefixDecides(received, old(received) + data);
          return Diverges;
        }

        if ret == Returns(ENeedMoreData) && need == 0 {
          ret := Returns(EOk);
          break;
        }
        if state == StateParseCompleted {
          assert isEof;
          ret := Returns(EOk);
          break;
        }
      }
      assert data[..copyPos] == data;
      return ret;
    }
  }

  /** A fresh decoder given a stream that opens with a 100-byte tag never returns. */
  method HangExample() returns (out: Outcome)
    ensures out == Diverges
  {
    var dec := new MpegDecoder.Init();
    var stream := TagHeader(4, 0, 0, 100) + [0];
    LongTagHangs(4, 0, 0, 100, [0]);
    assert [] + stream == stream;
    out := dec.ParseBuf(stream, true, 0, false);
  }

  /**
   * A fresh decoder given a whole stream that opens with an empty tag
   * completes, having counted 10 bytes more than it was given.
   */
  method DoubleCountExample() returns (parsed: nat, submitted: nat)
    ensures parsed == submitted + HeaderSize
  {
    var dec := new MpegDecoder.Init();
    var stream := TagHeader(4, 0, 0, 0) + [0xFF, 0xFB, 0x90, 0x00];
    ShortTagCountedTwice(4, 0, 0, 0, [0xFF, 0xFB, 0x90, 0x00]);
    assert [] + stream == stream;
    var out := dec.ParseBuf(stream, true, 0, true);
    parsed, submitted := dec.totalParsed, |stream|;
  }
}
