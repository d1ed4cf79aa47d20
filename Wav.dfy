/**
 * `AudioRecorder.audioBufferToWav`: a decoded AudioBuffer serialised as a
 * canonical RIFF/WAVE file with a PCM "fmt " chunk (format tag 1), 16 bits
 * per sample, channels interleaved frame by frame.
 *
 * The encoder is a method that fills an array through a moving `pos`
 * cursor, as the source fills a DataView. `WavBytes` is the file it must
 * produce; the lemmas read the file back at each offset.
 */
module Wav {
  import opened Sequences

  /** One octet of the ArrayBuffer. */
  type byte = b: int | 0 <= b < 256

  /** A decoded AudioBuffer: its sample rate, the number of frames, and one
      sample sequence per channel (Float32 values, taken as exact reals). */
  datatype AudioBuffer = AudioBuffer(sampleRate: nat, length: nat, channelData: seq<seq<real>>)
  {
    function NumberOfChannels(): nat
    {
      |channelData|
    }

    /** Every channel holds exactly `length` samples. */
    predicate Valid()
    {
      forall c | 0 <= c < |channelData| :: |channelData[c]| == length
    }
  }

  /** The size of the buffer the encoder allocates. */
  function ByteLength(b: AudioBuffer): nat
  {
    b.length * b.NumberOfChannels() * 2 + 44
  }

  // ---------------------------------------------------------------------
  // DataView stores. Each converts its argument as ECMAScript's ToUint8,
  // ToUint16, ToInt16 or ToUint32 does (reduction modulo 2^8, 2^16, 2^32)
  // and stores it little-endian.
  // ---------------------------------------------------------------------

  /** The two bytes `setUint16(pos, v, true)` or `setInt16(pos, v, true)` store for an integer `v`. */
  function Le16(v: int): (r: seq<byte>)
    ensures |r| == 2
  {
    var u := v % 0x1_0000;
    [u % 256, u / 256]
  }

  /** The four bytes `setUint32(pos, v, true)` stores for an integer `v`. */
  function Le32(v: int): (r: seq<byte>)
    ensures |r| == 4
  {
    var u := v % 0x1_0000_0000;
    [u % 256, (u / 256) % 256, (u / 0x1_0000) % 256, u / 0x100_0000]
  }

  /** The bytes `writeString` stores: one `setUint8(charCodeAt(i))` per character. */
  function Ascii(s: string): seq<byte>
  {
    seq(|s|, i requires 0 <= i < |s| => (s[i] as int) % 256)
  }

  /** Reading back: an unsigned little-endian 16-bit field. */
  function ReadUint16(s: seq<byte>, off: nat): nat
    requires off + 2 <= |s|
  {
    s[off] as int + 256 * (s[off + 1] as int)
  }

  /** Reading back: a signed (two's complement) little-endian 16-bit field. */
  function ReadInt16(s: seq<byte>, off: nat): int
    requires off + 2 <= |s|
  {
    var u := ReadUint16(s, off);
    if u >= 0x8000 then u - 0x1_0000 else u
  }

  /** Reading back: an unsigned little-endian 32-bit field. */
  function ReadUint32(s: seq<byte>, off: nat): nat
    requires off + 4 <= |s|
  {
    s[off] as int + 256 * (s[off + 1] as int) + 0x1_0000 * (s[off + 2] as int) + 0x100_0000 * (s[off + 3] as int)
  }

  /** A 16-bit store reads back as its argument modulo 2^16. */
  lemma Le16RoundTrip(v: int)
    ensures ReadUint16(Le16(v), 0) == v % 0x1_0000
  {
    var u := v % 0x1_0000;
    assert u == 256 * (u / 256) + u % 256;
  }

  /** A signed 16-bit store of an in-range value reads back unchanged. */
  lemma Le16SignedRoundTrip(v: int)
    requires -0x8000 <= v < 0x8000
    ensures ReadInt16(Le16(v), 0) == v
  {
    Le16RoundTrip(v);
  }

  /** A 32-bit store reads back as its argument modulo 2^32. */
  lemma Le32RoundTrip(v: int)
    ensures ReadUint32(Le32(v), 0) == v % 0x1_0000_0000
  {
    var u := v % 0x1_0000_0000;
    var q1 := u / 256;
    var q2 := u / 0x1_0000;
    var q3 := u / 0x100_0000;
    assert u == 256 * q1 + u % 256;
    assert q1 == 256 * (q1 / 256) + q1 % 256;
    assert q1 / 256 == q2;
    assert q2 == 256 * (q2 / 256) + q2 % 256;
    assert q2 / 256 == q3;
  }

  // ---------------------------------------------------------------------
  // Sample conversion
  // ---------------------------------------------------------------------

  /** `Math.max(-1, Math.min(1, x))`. */
  function Clamp(x: real): real
  {
    var m := if 1.0 < x then 1.0 else x;
    if m < -1.0 then -1.0 else m
  }

  /** The asymmetric scaling: negatives by 0x8000, everything else by 0x7FFF. */
  function Scale(x: real): real
  {
    if x < 0.0 then x * 32768.0 else x * 32767.0
  }

  /** ECMAScript's ToIntegerOrInfinity on a finite number: truncation toward zero. */
  function Trunc(x: real): int
  {
    if x >= 0.0 then x.Floor else -((-x).Floor)
  }

  /** The signed 16-bit value stored for one float sample. */
  function Pcm16(x: real): int
  {
    Trunc(Scale(Clamp(x)))
  }

  /** Every converted sample is a 16-bit signed integer, so ToInt16 keeps it. */
  lemma Pcm16Range(x: real)
    ensures -0x8000 <= Pcm16(x) <= 0x7FFF
  {
    var s := Scale(Clamp(x));
    assert -32768.0 <= s <= 32767.0;
  }

  /** Full scale is asymmetric: +1.0 and above give 0x7FFF, -1.0 and below give -0x8000, and 0.0 gives 0. */
  lemma Pcm16FullScale(x: real)
    ensures x >= 1.0 ==> Pcm16(x) == 0x7FFF
    ensures x <= -1.0 ==> Pcm16(x) == -0x8000
    ensures Pcm16(0.0) == 0
  {
  }

  /** Half scale shows the two factors and the truncation: 0.5 gives 16383, -0.5 gives -16384. */
  lemma Pcm16HalfScale()
    ensures Pcm16(0.5) == 16383 && Pcm16(-0.5) == -16384
  {
    assert Scale(Clamp(0.5)) == 16383.5;
  }

  /** Truncation toward zero never reverses order. */
  lemma TruncMonotonic(x: real, y: real)
    requires x <= y
    ensures Trunc(x) <= Trunc(y)
  {
    if x >= 0.0 {
      assert x.Floor as real <= y;
    } else if y < 0.0 {
      assert (-y).Floor as real <= -x;
    }
  }

  /** The conversion never reverses the order of two samples. */
  lemma {:induction false} Pcm16Monotonic(x: real, y: real)
    requires x <= y
    ensures Pcm16(x) <= Pcm16(y)
  {
    assert Clamp(x) <= Clamp(y);
    assert Scale(Clamp(x)) <= Scale(Clamp(y));
    TruncMonotonic(Scale(Clamp(x)), Scale(Clamp(y)));
  }

  // ---------------------------------------------------------------------
  // The file the encoder produces
  // ---------------------------------------------------------------------

  /** Bytes 0-11: the RIFF chunk descriptor. */
  function RiffDescriptor(chunkSize: int): (h: seq<byte>)
    ensures |h| == 12
  {
    Ascii("RIFF") + Le32(chunkSize) + Ascii("WAVE")
  }

  /** Bytes 12-23: the "fmt " chunk's id and size, format tag 1 (PCM) and the channel count. */
  function FmtFormat(channels: int): (h: seq<byte>)
    ensures |h| == 12
  {
    Ascii("fmt ") + Le32(16) + Le16(1) + Le16(channels)
  }

  /** Bytes 24-35: sample rate, byte rate, block align and 16 bits per sample. */
  function FmtRates(rate: int, byteRate: int, blockAlign: int): (h: seq<byte>)
    ensures |h| == 12
  {
    Le32(rate) + Le32(byteRate) + Le16(blockAlign) + Le16(16)
  }

  /** Bytes 12-35: the "fmt " chunk of a PCM (format tag 1) file with 16 bits per sample. */
  function FmtChunk(channels: int, rate: int, byteRate: int, blockAlign: int): (h: seq<byte>)
    ensures |h| == 24
  {
    FmtFormat(channels) + FmtRates(rate, byteRate, blockAlign)
  }

  /** Bytes 36-43: the header of the "data" chunk. */
  function DataChunkHeader(dataSize: int): (h: seq<byte>)
    ensures |h| == 8
  {
    Ascii("data") + Le32(dataSize)
  }

  /** The 44 header bytes in the order the encoder writes them, given the values of the six
      variable fields: chunk size, channel count, sample rate, byte rate, block align, data size. */
  function HeaderBytes(chunkSize: int, channels: int, rate: int, byteRate: int, blockAlign: int, dataSize: int): (h: seq<byte>)
    ensures |h| == 44
  {
    RiffDescriptor(chunkSize) + FmtChunk(channels, rate, byteRate, blockAlign) + DataChunkHeader(dataSize)
  }

  /** The header of the file for buffer `b`. */
  function Header(b: AudioBuffer): (h: seq<byte>)
    ensures |h| == 44
  {
    var c := b.NumberOfChannels();
    HeaderBytes(ByteLength(b) - 8, c, b.sampleRate, b.sampleRate * 2 * c, c * 2, ByteLength(b) - 44)
  }

  /** Frame `f` of channels 0 .. k-1, in channel order. */
  function FrameBytes(b: AudioBuffer, f: nat, k: nat): (r: seq<byte>)
    requires b.Valid() && f < b.length && k <= b.NumberOfChannels()
    ensures |r| == 2 * k
  {
    if k == 0 then [] else FrameBytes(b, f, k - 1) + Le16(Pcm16(b.channelData[k - 1][f]))
  }

  /** Frames 0 .. n-1, each complete, in frame order. */
  function SampleBytes(b: AudioBuffer, n: nat): (r: seq<byte>)
    requires b.Valid() && n <= b.length
    ensures |r| == 2 * (n * b.NumberOfChannels())
  {
    if n == 0 then []
    else
      var r := SampleBytes(b, n - 1) + FrameBytes(b, n - 1, b.NumberOfChannels());
      assert n * b.NumberOfChannels() == (n - 1) * b.NumberOfChannels() + b.NumberOfChannels();
      r
  }

  /** Where channel `c` of frame `f` lies among the sample bytes: frames in order, channels
      interleaved in channel order, two bytes each. */
  function SampleOffset(b: AudioBuffer, f: nat, c: nat): nat
  {
    NatProduct(f, b.NumberOfChannels());
    2 * (f * b.NumberOfChannels() + c)
  }

  /** The whole file: header, then every frame. */
  function WavBytes(b: AudioBuffer): seq<byte>
    requires b.Valid()
  {
    Header(b) + SampleBytes(b, b.length)
  }

  // ---------------------------------------------------------------------
  // The encoder
  // ---------------------------------------------------------------------

  /** The closure `writeString`: one byte per character, then the cursor moves on. */
  method WriteString(view: array<byte>, pos: nat, str: string) returns (next: nat)
    requires pos + |str| <= view.Length
    modifies view
    ensures next == pos + |str|
    ensures view[..next] == old(view[..pos]) + Ascii(str)
    ensures view[next..] == old(view[next..])
  {
    for i := 0 to |str|
      invariant view[..pos + i] == old(view[..pos]) + Ascii(str)[..i]
      invariant view[pos + |str|..] == old(view[pos + |str|..])
    {
      view[pos + i] := (str[i] as int) % 256;
      assert view[..pos + i + 1] == view[..pos + i] + [view[pos + i]];
      assert Ascii(str)[..i + 1] == Ascii(str)[..i] + [Ascii(str)[i]];
    }
    next := pos + |str|;
  }

  /** The closure `setUint16`. */
  method SetUint16(view: array<byte>, pos: nat, data: int) returns (next: nat)
    requires pos + 2 <= view.Length
    modifies view
    ensures next == pos + 2
    ensures view[..next] == old(view[..pos]) + Le16(data)
    ensures view[next..] == old(view[next..])
  {
    var u := data % 0x1_0000;
    view[pos] := u % 256;
    view[pos + 1] := u / 256;
    next := pos + 2;
    assert view[..next] == view[..pos] + [view[pos], view[pos + 1]];
  }

  /** The closure `setUint32`. */
  method SetUint32(view: array<byte>, pos: nat, data: int) returns (next: nat)
    requires pos + 4 <= view.Length
    modifies view
    ensures next == pos + 4
    ensures view[..next] == old(view[..pos]) + Le32(data)
    ensures view[next..] == old(view[next..])
  {
    var u := data % 0x1_0000_0000;
    view[pos] := u % 256;
    view[pos + 1] := (u / 256) % 256;
    view[pos + 2] := (u / 0x1_0000) % 256;
    view[pos + 3] := u / 0x100_0000;
    next := pos + 4;
    assert view[..next] == view[..pos] + [view[pos], view[pos + 1], view[pos + 2], view[pos + 3]];
  }

  /** `view.setInt16(pos, sample, true); pos += 2` for a scaled sample. */
  method SetInt16(view: array<byte>, pos: nat, sample: real) returns (next: nat)
    requires pos + 2 <= view.Length
    modifies view
    ensures next == pos + 2
    ensures view[..next] == old(view[..pos]) + Le16(Trunc(sample))
    ensures view[next..] == old(view[next..])
  {
    var u := Trunc(sample) % 0x1_0000;
    view[pos] := u % 256;
    view[pos + 1] := u / 256;
    next := pos + 2;
    assert view[..next] == view[..pos] + [view[pos], view[pos + 1]];
  }

  /** The first three stores of the header: "RIFF", the chunk size, "WAVE". */
  method WriteRiffDescriptor(view: array<byte>, pos: nat, chunkSize: int) returns (next: nat)
    requires pos + 12 <= view.Length
    modifies view
    ensures next == pos + 12
    ensures view[..next] == old(view[..pos]) + RiffDescriptor(chunkSize)
  {
    ghost var before := view[..pos];
    next := WriteString(view, pos, "RIFF");
    next := SetUint32(view, next, chunkSize);
    next := WriteString(view, next, "WAVE");
    assert view[..next] == before + Ascii("RIFF") + Le32(chunkSize) + Ascii("WAVE");
  }

  /** The eight stores of the "fmt " chunk. */
  method WriteFmtChunk(view: array<byte>, pos: nat, channels: int, rate: int, byteRate: int, blockAlign: int)
    returns (next: nat)
    requires pos + 24 <= view.Length
    modifies view
    ensures next == pos + 24
    ensures view[..next] == old(view[..pos]) + FmtChunk(channels, rate, byteRate, blockAlign)
  {
    ghost var before := view[..pos];
    next := WriteFmtFormat(view, pos, channels);
    next := WriteFmtRates(view, next, rate, byteRate, blockAlign);
    assert view[..next] == before + FmtFormat(channels) + FmtRates(rate, byteRate, blockAlign);
  }

  /** The first four stores of the "fmt " chunk. */
  method WriteFmtFormat(view: array<byte>, pos: nat, channels: int) returns (next: nat)
    requires pos + 12 <= view.Length
    modifies view
    ensures next == pos + 12
    ensures view[..next] == old(view[..pos]) + FmtFormat(channels)
  {
    ghost var before := view[..pos];
    next := WriteString(view, pos, "fmt ");
    next := SetUint32(view, next, 16);
    next := SetUint16(view, next, 1);
    next := SetUint16(view, next, channels);
    assert view[..next] == before + Ascii("fmt ") + Le32(16) + Le16(1) + Le16(channels);
  }

  /** The last four stores of the "fmt " chunk. */
  method WriteFmtRates(view: array<byte>, pos: nat, rate: int, byteRate: int, blockAlign: int) returns (next: nat)
    requires pos + 12 <= view.Length
    modifies view
    ensures next == pos + 12
    ensures view[..next] == old(view[..pos]) + FmtRates(rate, byteRate, blockAlign)
  {
    ghost var before := view[..pos];
    next := SetUint32(view, pos, rate);
    next := SetUint32(view, next, byteRate);
    next := SetUint16(view, next, blockAlign);
    next := SetUint16(view, next, 16);
    assert view[..next] == before + Le32(rate) + Le32(byteRate) + Le16(blockAlign) + Le16(16);
  }

  /** The header part of `audioBufferToWav`: thirteen stores that leave the cursor at 44. */
  method WriteHeader(view: array<byte>, buffer: AudioBuffer) returns (pos: nat)
    requires view.Length == ByteLength(buffer)
    modifies view
    ensures pos == 44
    ensures view[..pos] == Header(buffer)
  {
    var numberOfChannels := buffer.NumberOfChannels();
    var length := view.Length;
    NatProduct(buffer.length * numberOfChannels, 2);
    var byteRate := buffer.sampleRate * 2 * numberOfChannels;
    var blockAlign := numberOfChannels * 2;
    ghost var riff := RiffDescriptor(length - 8);
    ghost var fmt := FmtChunk(numberOfChannels, buffer.sampleRate, byteRate, blockAlign);
    ghost var data := DataChunkHeader(length - 44);
    assert Header(buffer) == riff + fmt + data;
    pos := 0;
    pos := WriteRiffDescriptor(view, pos, length - 8);
    assert view[..pos] == riff;
    pos := WriteFmtChunk(view, pos, numberOfChannels, buffer.sampleRate, byteRate, blockAlign);
    assert view[..pos] == riff + fmt;
    pos := WriteDataChunkHeader(view, pos, length);
    assert view[..pos] == riff + fmt + data;
  }

  /** The last two stores: "data", then the size of what follows the header. */
  method WriteDataChunkHeader(view: array<byte>, pos: nat, length: int) returns (next: nat)
    requires pos + 8 <= view.Length
    modifies view
    ensures next == pos + 8
    ensures view[..next] == old(view[..pos]) + DataChunkHeader(length - pos - 8)
  {
    next := WriteString(view, pos, "data");
    next := SetUint32(view, next, length - next - 4);
  }

  /** One pass of the inner `for` loop: frame `offset`, channel by channel, converted and stored. */
  method WriteFrame(view: array<byte>, pos: nat, channels: seq<seq<real>>, offset: nat, ghost buffer: AudioBuffer)
    returns (next: nat)
    requires buffer.Valid() && channels == buffer.channelData && offset < buffer.length
    requires pos + 2 * |channels| <= view.Length
    modifies view
    ensures next == pos + 2 * |channels|
    ensures view[..next] == old(view[..pos]) + FrameBytes(buffer, offset, |channels|)
  {
    next := pos;
    for i := 0 to |channels|
      invariant next == pos + 2 * i
      invariant view[..next] == old(view[..pos]) + FrameBytes(buffer, offset, i)
    {
      ghost var before := view[..next];
      var sample := Clamp(channels[i][offset]);
      sample := if sample < 0.0 then sample * 32768.0 else sample * 32767.0;
      next := SetInt16(view, next, sample);
      assert view[..next] == before + Le16(Pcm16(buffer.channelData[i][offset]));
    }
  }

  /** The loop that gathers `getChannelData(i)` for every channel, in channel order. */
  method CollectChannels(buffer: AudioBuffer) returns (channels: seq<seq<real>>)
    ensures channels == buffer.channelData
  {
    channels := [];
    for i := 0 to buffer.NumberOfChannels()
      invariant channels == buffer.channelData[..i]
    {
      channels := channels + [buffer.channelData[i]];
    }
  }

  /** `audioBufferToWav`: allocates 44 + 2·N·C bytes and fills them with exactly `WavBytes(buffer)`. */
  method AudioBufferToWav(buffer: AudioBuffer) returns (view: array<byte>)
    requires buffer.Valid()
    ensures view.Length == ByteLength(buffer)
    ensures view[..] == WavBytes(buffer)
  {
    var numberOfChannels := buffer.NumberOfChannels();
    var length := buffer.length * numberOfChannels * 2 + 44;
    view := new byte[length];
    var pos := WriteHeader(view, buffer);
    var channels := CollectChannels(buffer);
    WriteSamples(view, pos, channels, buffer);
  }

  /** The outer `while` loop of `audioBufferToWav`: every frame in order, from byte 44 to the end. */
  method WriteSamples(view: array<byte>, start: nat, channels: seq<seq<real>>, buffer: AudioBuffer)
    requires buffer.Valid() && channels == buffer.channelData
    requires view.Length == ByteLength(buffer) && start == 44 && view[..start] == Header(buffer)
    modifies view
    ensures view[..] == WavBytes(buffer)
  {
    var numberOfChannels := |channels|;
    var offset := 0;
    var pos := start;
    while offset < buffer.length
      invariant 0 <= offset <= buffer.length
      invariant pos == 44 + 2 * (offset * numberOfChannels)
      invariant offset * numberOfChannels <= buffer.length * numberOfChannels
      invariant view[..pos] == Header(buffer) + SampleBytes(buffer, offset)
    {
      SampleStep(buffer, offset);
      ghost var before := SampleBytes(buffer, offset);
      pos := WriteFrame(view, pos, channels, offset, buffer);
      AppendAssoc(Header(buffer), before, FrameBytes(buffer, offset, numberOfChannels));
      offset := offset + 1;
    }
    assert view[..] == view[..pos];
  }

  // ---------------------------------------------------------------------
  // What the produced file contains
  // ---------------------------------------------------------------------

  /** The file is exactly 44 + 2·N·C bytes, the size the encoder allocates. */
  lemma WavSize(b: AudioBuffer)
    requires b.Valid()
    ensures |WavBytes(b)| == ByteLength(b) == 44 + 2 * (b.length * b.NumberOfChannels())
  {
    assert |SampleBytes(b, b.length)| == 2 * (b.length * b.NumberOfChannels());
  }

  /** Where the RIFF descriptor's and the data chunk header's fields lie in the 44 header bytes. */
  lemma SizeLayout(chunkSize: int, channels: int, rate: int, byteRate: int, blockAlign: int, dataSize: int)
    ensures var h := HeaderBytes(chunkSize, channels, rate, byteRate, blockAlign, dataSize);
      && h[0..4] == Ascii("RIFF") && h[4..8] == Le32(chunkSize) && h[8..12] == Ascii("WAVE")
      && h[36..40] == Ascii("data") && h[40..44] == Le32(dataSize)
  {
    var riff := RiffDescriptor(chunkSize);
    var fmt := FmtChunk(channels, rate, byteRate, blockAlign);
    var data := DataChunkHeader(dataSize);
    var h := riff + fmt + data;
    assert h[0..12] == riff && h[36..44] == data;
    assert riff[0..4] == Ascii("RIFF") && riff[4..8] == Le32(chunkSize) && riff[8..12] == Ascii("WAVE");
    assert data[0..4] == Ascii("data") && data[4..8] == Le32(dataSize);
  }

  /** Where the first four fields of the "fmt " chunk lie in the 44 header bytes. */
  lemma FormatLayout(chunkSize: int, channels: int, rate: int, byteRate: int, blockAlign: int, dataSize: int)
    ensures var h := HeaderBytes(chunkSize, channels, rate, byteRate, blockAlign, dataSize);
      && h[12..16] == Ascii("fmt ") && h[16..20] == Le32(16) && h[20..22] == Le16(1)
      && h[22..24] == Le16(channels)
  {
    var riff := RiffDescriptor(chunkSize);
    var f1 := FmtFormat(channels);
    var f2 := FmtRates(rate, byteRate, blockAlign);
    var data := DataChunkHeader(dataSize);
    var h := riff + (f1 + f2) + data;
    assert h[12..24] == f1;
    assert f1[0..4] == Ascii("fmt ") && f1[4..8] == Le32(16) && f1[8..10] == Le16(1) && f1[10..12] == Le16(channels);
  }

  /** Where the last four fields of the "fmt " chunk lie in the 44 header bytes. */
  lemma RatesLayout(chunkSize: int, channels: int, rate: int, byteRate: int, blockAlign: int, dataSize: int)
    ensures var h := HeaderBytes(chunkSize, channels, rate, byteRate, blockAlign, dataSize);
      && h[24..28] == Le32(rate) && h[28..32] == Le32(byteRate)
      && h[32..34] == Le16(blockAlign) && h[34..36] == Le16(16)
  {
    var riff := RiffDescriptor(chunkSize);
    var f1 := FmtFormat(channels);
    var f2 := FmtRates(rate, byteRate, blockAlign);
    var data := DataChunkHeader(dataSize);
    var h := riff + (f1 + f2) + data;
    assert h[24..36] == f2;
    assert f2[0..4] == Le32(rate) && f2[4..8] == Le32(byteRate) && f2[8..10] == Le16(blockAlign) && f2[10..12] == Le16(16);
  }

  /** The file starts with its header. */
  lemma WavStartsWithHeader(b: AudioBuffer)
    requires b.Valid()
    ensures |WavBytes(b)| >= 44 && WavBytes(b)[0..44] == Header(b)
  {
  }

  /** The four literal markers of every header. */
  lemma HeaderMarkers(b: AudioBuffer)
    ensures Header(b)[0..4] == [0x52, 0x49, 0x46, 0x46]
    ensures Header(b)[8..12] == [0x57, 0x41, 0x56, 0x45]
    ensures Header(b)[12..16] == [0x66, 0x6D, 0x74, 0x20]
    ensures Header(b)[36..40] == [0x64, 0x61, 0x74, 0x61]
  {
    var c := b.NumberOfChannels();
    SizeLayout(ByteLength(b) - 8, c, b.sampleRate, b.sampleRate * 2 * c, c * 2, ByteLength(b) - 44);
    FormatLayout(ByteLength(b) - 8, c, b.sampleRate, b.sampleRate * 2 * c, c * 2, ByteLength(b) - 44);
    MarkerBytes();
  }

  /** The character codes of the four markers. */
  lemma MarkerBytes()
    ensures Ascii("RIFF") == [0x52, 0x49, 0x46, 0x46]
    ensures Ascii("WAVE") == [0x57, 0x41, 0x56, 0x45]
    ensures Ascii("fmt ") == [0x66, 0x6D, 0x74, 0x20]
    ensures Ascii("data") == [0x64, 0x61, 0x74, 0x61]
  {
  }

  /** "RIFF" at 0-3, "WAVE" at 8-11, "fmt " at 12-15 and "data" at 36-39, whatever the buffer. */
  lemma WavMarkers(b: AudioBuffer)
    requires b.Valid()
    ensures |WavBytes(b)| >= 44
    ensures WavBytes(b)[0..4] == [0x52, 0x49, 0x46, 0x46]
    ensures WavBytes(b)[8..12] == [0x57, 0x41, 0x56, 0x45]
    ensures WavBytes(b)[12..16] == [0x66, 0x6D, 0x74, 0x20]
    ensures WavBytes(b)[36..40] == [0x64, 0x61, 0x74, 0x61]
  {
    WavStartsWithHeader(b);
    HeaderMarkers(b);
    var w := WavBytes(b);
    var h := Header(b);
    assert w[0..4] == h[0..4] && w[8..12] == h[8..12] && w[12..16] == h[12..16] && w[36..40] == h[36..40];
  }

  /** The chunk size and the data size read back as written, reduced to 32 bits. */
  lemma HeaderSizeFields(chunkSize: int, channels: int, rate: int, byteRate: int, blockAlign: int, dataSize: int)
    ensures var h := HeaderBytes(chunkSize, channels, rate, byteRate, blockAlign, dataSize);
      && ReadUint32(h, 4) == chunkSize % 0x1_0000_0000
      && ReadUint32(h, 40) == dataSize % 0x1_0000_0000
  {
    SizeLayout(chunkSize, channels, rate, byteRate, blockAlign, dataSize);
    SizeFieldsOf(HeaderBytes(chunkSize, channels, rate, byteRate, blockAlign, dataSize), chunkSize, dataSize);
  }

  lemma SizeFieldsOf(h: seq<byte>, chunkSize: int, dataSize: int)
    requires |h| == 44 && h[4..8] == Le32(chunkSize) && h[40..44] == Le32(dataSize)
    ensures ReadUint32(h, 4) == chunkSize % 0x1_0000_0000
    ensures ReadUint32(h, 40) == dataSize % 0x1_0000_0000
  {
    Field32(h, 4, chunkSize);
    Field32(h, 40, dataSize);
  }

  /** The fmt chunk's size, the PCM format tag and the channel count read back as written. */
  lemma HeaderFormatFields(chunkSize: int, channels: int, rate: int, byteRate: int, blockAlign: int, dataSize: int)
    ensures var h := HeaderBytes(chunkSize, channels, rate, byteRate, blockAlign, dataSize);
      && ReadUint32(h, 16) == 16
      && ReadUint16(h, 20) == 1
      && ReadUint16(h, 22) == channels % 0x1_0000
  {
    FormatLayout(chunkSize, channels, rate, byteRate, blockAlign, dataSize);
    FormatFieldsOf(HeaderBytes(chunkSize, channels, rate, byteRate, blockAlign, dataSize), channels);
  }

  lemma FormatFieldsOf(h: seq<byte>, channels: int)
    requires |h| == 44 && h[16..20] == Le32(16) && h[20..22] == Le16(1) && h[22..24] == Le16(channels)
    ensures ReadUint32(h, 16) == 16
    ensures ReadUint16(h, 20) == 1
    ensures ReadUint16(h, 22) == channels % 0x1_0000
  {
    Field32(h, 16, 16);
    Field16(h, 20, 1);
    Field16(h, 22, channels);
  }

  /** The sample rate, byte rate, block align and bit depth read back as written, reduced to their widths. */
  lemma HeaderRateFields(chunkSize: int, channels: int, rate: int, byteRate: int, blockAlign: int, dataSize: int)
    ensures var h := HeaderBytes(chunkSize, channels, rate, byteRate, blockAlign, dataSize);
      && ReadUint32(h, 24) == rate % 0x1_0000_0000
      && ReadUint32(h, 28) == byteRate % 0x1_0000_0000
      && ReadUint16(h, 32) == blockAlign % 0x1_0000
      && ReadUint16(h, 34) == 16
  {
    RatesLayout(chunkSize, channels, rate, byteRate, blockAlign, dataSize);
    RateFieldsOf(HeaderBytes(chunkSize, channels, rate, byteRate, blockAlign, dataSize), rate, byteRate, blockAlign);
  }

  lemma RateFieldsOf(h: seq<byte>, rate: int, byteRate: int, blockAlign: int)
    requires |h| == 44 && h[24..28] == Le32(rate) && h[28..32] == Le32(byteRate)
    requires h[32..34] == Le16(blockAlign) && h[34..36] == Le16(16)
    ensures ReadUint32(h, 24) == rate % 0x1_0000_0000
    ensures ReadUint32(h, 28) == byteRate % 0x1_0000_0000
    ensures ReadUint16(h, 32) == blockAlign % 0x1_0000
    ensures ReadUint16(h, 34) == 16
  {
    Field32(h, 24, rate);
    Field32(h, 28, byteRate);
    Field16(h, 32, blockAlign);
    Field16(h, 34, 16);
  }

  /** A 16-bit field holding the bytes of `Le16(v)` reads back as `v` modulo 2^16. */
  lemma Field16(s: seq<byte>, off: nat, v: int)
    requires off + 2 <= |s| && s[off..off + 2] == Le16(v)
    ensures ReadUint16(s, off) == v % 0x1_0000
  {
    ReadUint16Slice(s, off, Le16(v));
    Le16RoundTrip(v);
  }

  /** A 32-bit field holding the bytes of `Le32(v)` reads back as `v` modulo 2^32. */
  lemma Field32(s: seq<byte>, off: nat, v: int)
    requires off + 4 <= |s| && s[off..off + 4] == Le32(v)
    ensures ReadUint32(s, off) == v % 0x1_0000_0000
  {
    ReadUint32Slice(s, off, Le32(v));
    Le32RoundTrip(v);
  }

  /** Reads inside a prefix read the prefix. */
  lemma PrefixReads(s: seq<byte>, h: seq<byte>)
    requires |h| <= |s| && s[..|h|] == h
    ensures forall off: nat | off + 2 <= |h| :: ReadUint16(s, off) == ReadUint16(h, off)
    ensures forall off: nat | off + 4 <= |h| :: ReadUint32(s, off) == ReadUint32(h, off)
  {
    forall off: nat | off + 2 <= |h|
      ensures ReadUint16(s, off) == ReadUint16(h, off)
    {
      assert s[off] == h[off] && s[off + 1] == h[off + 1];
    }
    forall off: nat | off + 4 <= |h|
      ensures ReadUint32(s, off) == ReadUint32(h, off)
    {
      assert s[off] == h[off] && s[off + 1] == h[off + 1] && s[off + 2] == h[off + 2] && s[off + 3] == h[off + 3];
    }
  }

  /** The header's numeric fields in the file, each as its DataView store reduces it. */
  lemma WavHeaderFields(b: AudioBuffer)
    requires b.Valid()
    ensures |WavBytes(b)| >= 44
    ensures ReadUint32(WavBytes(b), 4) == (|WavBytes(b)| - 8) % 0x1_0000_0000
    ensures ReadUint32(WavBytes(b), 16) == 16
    ensures ReadUint16(WavBytes(b), 20) == 1
    ensures ReadUint16(WavBytes(b), 22) == b.NumberOfChannels() % 0x1_0000
    ensures ReadUint32(WavBytes(b), 24) == b.sampleRate % 0x1_0000_0000
    ensures ReadUint32(WavBytes(b), 28) == (b.sampleRate * 2 * b.NumberOfChannels()) % 0x1_0000_0000
    ensures ReadUint16(WavBytes(b), 32) == (2 * b.NumberOfChannels()) % 0x1_0000
    ensures ReadUint16(WavBytes(b), 34) == 16
    ensures ReadUint32(WavBytes(b), 40) == (|WavBytes(b)| - 44) % 0x1_0000_0000
  {
    var w := WavBytes(b);
    var h := Header(b);
    var c := b.NumberOfChannels();
    var length := ByteLength(b);
    WavSize(b);
    assert w[..44] == h;
    PrefixReads(w, h);
    HeaderSizeFields(length - 8, c, b.sampleRate, b.sampleRate * 2 * c, c * 2, length - 44);
    HeaderFormatFields(length - 8, c, b.sampleRate, b.sampleRate * 2 * c, c * 2, length - 44);
    HeaderRateFields(length - 8, c, b.sampleRate, b.sampleRate * 2 * c, c * 2, length - 44);
  }

  /** Reading a 16-bit field reads the two bytes stored there. */
  lemma ReadUint16Slice(s: seq<byte>, off: nat, field: seq<byte>)
    requires off + 2 <= |s| && s[off..off + 2] == field
    ensures ReadUint16(s, off) == ReadUint16(field, 0)
  {
    assert s[off] == field[0] && s[off + 1] == field[1];
  }

  /** Reading a 32-bit field reads the four bytes stored there. */
  lemma ReadUint32Slice(s: seq<byte>, off: nat, field: seq<byte>)
    requires off + 4 <= |s| && s[off..off + 4] == field
    ensures ReadUint32(s, off) == ReadUint32(field, 0)
  {
    assert s[off] == field[0] && s[off + 1] == field[1] && s[off + 2] == field[2] && s[off + 3] == field[3];
  }

  /** When every header value fits its field, the fields hold the values themselves:
      chunk size = length - 8, data size = 2·N·C, byte rate = rate·2·C, block align = 2·C. */
  lemma WavHeaderFieldsExact(b: AudioBuffer)
    requires b.Valid()
    requires ByteLength(b) < 0x1_0000_0000
    requires b.NumberOfChannels() < 0x8000
    requires b.sampleRate < 0x1_0000_0000
    requires b.sampleRate * 2 * b.NumberOfChannels() < 0x1_0000_0000
    ensures |WavBytes(b)| == ByteLength(b)
    ensures ReadUint32(WavBytes(b), 4) == ByteLength(b) - 8
    ensures ReadUint16(WavBytes(b), 22) == b.NumberOfChannels()
    ensures ReadUint32(WavBytes(b), 24) == b.sampleRate
    ensures ReadUint32(WavBytes(b), 28) == b.sampleRate * 2 * b.NumberOfChannels()
    ensures ReadUint16(WavBytes(b), 32) == 2 * b.NumberOfChannels()
    ensures ReadUint32(WavBytes(b), 40) == 2 * (b.length * b.NumberOfChannels())
  {
    WavHeaderFields(b);
    WavSize(b);
    var c := b.NumberOfChannels();
    var n := |WavBytes(b)|;
    assert 44 <= n < 0x1_0000_0000;
    var byteRate := b.sampleRate * 2 * c;
    NatProduct(b.sampleRate * 2, c);
    FieldsFit(n, c, b.sampleRate, byteRate);
  }

  lemma NatProduct(x: nat, y: nat)
    ensures x * y >= 0
  {
  }

  /** Values inside their fields' ranges are stored unchanged. */
  lemma FieldsFit(n: int, c: int, rate: int, byteRate: int)
    requires 44 <= n < 0x1_0000_0000 && 0 <= c < 0x8000
    requires 0 <= rate < 0x1_0000_0000 && 0 <= byteRate < 0x1_0000_0000
    ensures (n - 8) % 0x1_0000_0000 == n - 8 && (n - 44) % 0x1_0000_0000 == n - 44
    ensures c % 0x1_0000 == c && (2 * c) % 0x1_0000 == 2 * c
    ensures rate % 0x1_0000_0000 == rate && byteRate % 0x1_0000_0000 == byteRate
  {
  }

  /** Channel `c` of frame `f` sits at byte 2·c of that frame's bytes. */
  lemma {:induction false} FrameBytesAt(b: AudioBuffer, f: nat, k: nat, c: nat)
    requires b.Valid() && f < b.length && c < k <= b.NumberOfChannels()
    ensures FrameBytes(b, f, k)[2 * c..2 * c + 2] == Le16(Pcm16(b.channelData[c][f]))
  {
    if c < k - 1 {
      FrameBytesAt(b, f, k - 1, c);
    }
  }

  /** Channel `c` of frame `f` sits at byte 2·(f·C + c) of the sample data. */
  lemma {:induction false} SampleBytesAt(b: AudioBuffer, n: nat, f: nat, c: nat)
    requires b.Valid() && f < n <= b.length && c < b.NumberOfChannels()
    ensures SampleOffset(b, f, c) + 2 <= |SampleBytes(b, n)|
    ensures SampleBytes(b, n)[SampleOffset(b, f, c)..SampleOffset(b, f, c) + 2] == Le16(Pcm16(b.channelData[c][f]))
  {
    var nc := b.NumberOfChannels();
    var prev := SampleBytes(b, n - 1);
    var frame := FrameBytes(b, n - 1, nc);
    var at := SampleOffset(b, f, c);
    var before := (n - 1) * nc;
    assert SampleBytes(b, n) == prev + frame;
    assert |prev| == 2 * before && |frame| == 2 * nc;
    if f < n - 1 {
      FrameBeforeEnd(f, c, nc, n - 1);
      assert at + 2 <= |prev|;
      SampleBytesAt(b, n - 1, f, c);
      SliceOfAppend(prev, frame, at, at + 2);
    } else {
      assert f * nc == before;
      assert at == |prev| + 2 * c;
      FrameBytesAt(b, f, nc, c);
      SliceOfAppend(prev, frame, at, at + 2);
    }
  }

  /** A slice of a concatenation that lies within one of its parts. */
  lemma SliceOfAppend(a: seq<byte>, b: seq<byte>, i: nat, j: nat)
    requires i <= j <= |a| + |b| && (j <= |a| || |a| <= i)
    ensures j <= |a| ==> (a + b)[i..j] == a[i..j]
    ensures |a| <= i ==> (a + b)[i..j] == b[i - |a|..j - |a|]
  {
  }

  /** One more frame: the cursor advances by one frame and stays inside the file. */
  lemma SampleStep(b: AudioBuffer, offset: nat)
    requires b.Valid() && offset < b.length
    ensures (offset + 1) * b.NumberOfChannels() == offset * b.NumberOfChannels() + b.NumberOfChannels()
    ensures (offset + 1) * b.NumberOfChannels() <= b.length * b.NumberOfChannels()
    ensures SampleBytes(b, offset + 1) == SampleBytes(b, offset) + FrameBytes(b, offset, b.NumberOfChannels())
  {
    MulMonotonic(offset + 1, b.length, b.NumberOfChannels());
  }

  /** Multiplying by the same natural number keeps the order. */
  lemma MulMonotonic(a: nat, b: nat, k: nat)
    requires a <= b
    ensures a * k <= b * k
  {
  }

  /** A sample of an earlier frame lies before frame `m`. */
  lemma FrameBeforeEnd(f: nat, c: nat, nc: nat, m: nat)
    requires f < m && c < nc
    ensures f * nc + c < m * nc
  {
    assert (f + 1) * nc == f * nc + nc;
    assert (f + 1) * nc <= m * nc;
  }

  /** Channel `c` of frame `f` is the signed little-endian 16-bit value at byte 44 + 2·(f·C + c):
      frames in order, channels interleaved in channel order. */
  lemma WavSampleAt(b: AudioBuffer, f: nat, c: nat)
    requires b.Valid() && f < b.length && c < b.NumberOfChannels()
    ensures 44 + SampleOffset(b, f, c) + 2 <= |WavBytes(b)|
    ensures ReadInt16(WavBytes(b), 44 + SampleOffset(b, f, c)) == Pcm16(b.channelData[c][f])
  {
    var at := SampleOffset(b, f, c);
    SampleBytesAt(b, b.length, f, c);
    Pcm16Range(b.channelData[c][f]);
    ReadInt16After(Header(b), SampleBytes(b, b.length), at, Pcm16(b.channelData[c][f]));
  }

  /** A 16-bit value stored at offset `at` of the part after `h` reads back at `|h| + at`. */
  lemma ReadInt16After(h: seq<byte>, samples: seq<byte>, at: nat, v: int)
    requires at + 2 <= |samples| && samples[at..at + 2] == Le16(v) && -0x8000 <= v < 0x8000
    ensures ReadInt16(h + samples, |h| + at) == v
  {
    SliceOfAppend(h, samples, |h| + at, |h| + at + 2);
    ReadUint16Slice(h + samples, |h| + at, Le16(v));
    Le16SignedRoundTrip(v);
  }

  /** One second of mono audio at 48 kHz (48000 frames) encodes to 96044 bytes. */
  lemma MonoExampleSize(b: AudioBuffer)
    requires b.Valid() && b.length == 48000 && b.NumberOfChannels() == 1
    ensures |WavBytes(b)| == 96044
  {
    WavSize(b);
  }
}
