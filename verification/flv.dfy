/** Byte layout of the FLV tag bodies the RTMP muxer produces: the AUDIODATA /
    AACAUDIODATA body of section E.4.2 and the VIDEODATA / AVCVIDEOPACKET body
    of section E.4.3 of Adobe's Video File Format Specification, version 10.1.

    Each encoder is paired with a parser of the same layout, and the lemmas
    at the end show that parsing an encoded tag gives back its fields and that
    a parsed tag is re-encoded to the same bytes. */
module Flv {
  import opened Options

  /** An octet. The source packs header fields with `<<` and `|`; the fields
      never overlap, so the packing is written here as a weighted sum. */
  newtype byte = x: int | 0 <= x < 0x100

  // Field values of the AUDIODATA header byte (section E.4.2).
  const SoundFormatAac: byte := 10
  const SoundRate44kHz: byte := 3
  const SoundSize16Bit: byte := 1
  const SoundTypeStereo: byte := 1

  // AACPacketType values.
  const AacPacketSequenceHeader: byte := 0
  const AacPacketRaw: byte := 1

  // Field values of the VIDEODATA header byte (section E.4.3).
  const FrameTypeKey: byte := 1
  const FrameTypeInter: byte := 2
  const CodecAvc: byte := 7

  // AVCPacketType values.
  const AvcPacketSequenceHeader: byte := 0
  const AvcPacketNalu: byte := 1

  const Two23: int := 0x80_0000
  const Two24: int := 0x100_0000
  const Two32: int := 0x1_0000_0000

  /** The muxer's fixed audio header byte: AAC, 44 kHz, 16-bit, stereo. */
  const AacAudioByte: byte :=
    SoundFormatAac * 0x10 + SoundRate44kHz * 4 + SoundSize16Bit * 2 + SoundTypeStereo

  /** The VIDEODATA header byte for an AVC frame of the given frame type. */
  function AvcHeaderByte(frameType: byte): byte
    requires frameType < 0x10
  {
    frameType * 0x10 + CodecAvc
  }

  function FrameTypeOf(keyframe: bool): byte
  {
    if keyframe then FrameTypeKey else FrameTypeInter
  }

  /** The fields of an AAC AUDIODATA body. */
  datatype AacAudioData = AacAudioData(
    soundFormat: byte,
    soundRate: byte,
    soundSize: byte,
    soundType: byte,
    packetType: byte,
    data: seq<byte>)

  /** The fields of an AVC VIDEODATA body; `compositionTime` is the SI24 value. */
  datatype AvcVideoData = AvcVideoData(
    frameType: byte,
    codecId: byte,
    packetType: byte,
    compositionTime: int,
    data: seq<byte>)

  /** The audio fields every tag of this muxer carries. */
  function MuxerAudio(packetType: byte, data: seq<byte>): AacAudioData
  {
    AacAudioData(SoundFormatAac, SoundRate44kHz, SoundSize16Bit, SoundTypeStereo, packetType, data)
  }

  /** Reads an AUDIODATA body whose sound format is AAC; any other body (too
      short, or another sound format, which has no packet-type byte) is None. */
  function ParseAacAudioData(t: seq<byte>): (r: Option<AacAudioData>)
    ensures r.Some? <==> 2 <= |t| && t[0] / 0x10 == SoundFormatAac
    ensures r.Some? ==> |r.value.data| + 2 == |t|
  {
    if |t| < 2 || t[0] / 0x10 != SoundFormatAac then None
    else Some(AacAudioData(t[0] / 0x10, t[0] / 4 % 4, t[0] / 2 % 2, t[0] % 2, t[1], t[2..]))
  }

  /** Reads the signed 24-bit big-endian integer b0 b1 b2. */
  function FromSI24(b0: byte, b1: byte, b2: byte): (c: int)
    ensures -Two23 <= c < Two23
  {
    var u := b0 as int * 0x1_0000 + b1 as int * 0x100 + b2 as int;
    if u < Two23 then u else u - Two24
  }

  /** Reads an AVC VIDEODATA body (codec id 7) with its 5-byte header. */
  function ParseAvcVideoData(t: seq<byte>): (r: Option<AvcVideoData>)
    ensures r.Some? <==> 5 <= |t| && t[0] % 0x10 == CodecAvc
    ensures r.Some? ==> |r.value.data| + 5 == |t|
  {
    if |t| < 5 || t[0] % 0x10 != CodecAvc then None
    else Some(AvcVideoData(t[0] / 0x10, t[0] % 0x10, t[1], FromSI24(t[2], t[3], t[4]), t[5..]))
  }

  /** The value in [-2^23, 2^23) congruent to c modulo 2^24: what survives
      of a composition time once only its low three bytes are kept. */
  function SignedLow24(c: int): (v: int)
    ensures -Two23 <= v < Two23
    ensures (v - c) % Two24 == 0
    ensures -Two23 <= c < Two23 ==> v == c
  {
    var l := c % Two24;
    if l < Two23 then l else l - Two24
  }

  /** The four bytes of c as a 32-bit two's-complement integer, most
      significant first (Swift's `Int32.bigEndian` storage order). */
  function Int32BigEndian(c: int): (b: seq<byte>)
    ensures |b| == 4
  {
    var u := c % Two32;
    [(u / 0x100_0000) as byte, (u / 0x1_0000 % 0x100) as byte,
     (u / 0x100 % 0x100) as byte, (u % 0x100) as byte]
  }

  /** Audio sequence header: the header byte, packet type 0, then the
      AudioSpecificConfig bytes. */
  function AacSequenceHeaderTag(config: seq<byte>): (t: seq<byte>)
    ensures |t| == 2 + |config|
    ensures ParseAacAudioData(t) == Some(MuxerAudio(AacPacketSequenceHeader, config))
  {
    AudioHeaderFields();
    [AacAudioByte, AacPacketSequenceHeader] + config
  }

  /** Audio data tag: the header byte, packet type 1, then the raw AAC frame. */
  function AacRawTag(payload: seq<byte>): (t: seq<byte>)
    ensures |t| == 2 + |payload|
    ensures ParseAacAudioData(t) == Some(MuxerAudio(AacPacketRaw, payload))
  {
    AudioHeaderFields();
    [AacAudioByte, AacPacketRaw] + payload
  }

  /** Video sequence header: keyframe/AVC byte, packet type 0, a zero
      composition time, then the AVCDecoderConfigurationRecord. */
  function AvcSequenceHeaderTag(avcC: seq<byte>): (t: seq<byte>)
    ensures |t| == 5 + |avcC|
    ensures ParseAvcVideoData(t) == Some(AvcVideoData(FrameTypeKey, CodecAvc, AvcPacketSequenceHeader, 0, avcC))
  {
    VideoHeaderFields(FrameTypeKey);
    [AvcHeaderByte(FrameTypeKey), AvcPacketSequenceHeader, 0, 0, 0] + avcC
  }

  /** Video data tag: frame-type/AVC byte, packet type 1, bytes 1..3 of the
      big-endian Int32 composition time, then the NAL units. */
  function AvcNaluTag(keyframe: bool, compositionTime: int, payload: seq<byte>): (t: seq<byte>)
    ensures |t| == 5 + |payload|
    ensures ParseAvcVideoData(t)
            == Some(AvcVideoData(FrameTypeOf(keyframe), CodecAvc, AvcPacketNalu, SignedLow24(compositionTime), payload))
  {
    VideoHeaderFields(FrameTypeOf(keyframe));
    CompositionTimeBytes(compositionTime);
    [AvcHeaderByte(FrameTypeOf(keyframe)), AvcPacketNalu] + Int32BigEndian(compositionTime)[1..] + payload
  }

  /** An AAC body that parses to this muxer's audio fields is exactly the
      tag the encoder builds from its packet type and data. */
  lemma AacAudioDataReencodes(t: seq<byte>, packetType: byte, data: seq<byte>)
    requires ParseAacAudioData(t) == Some(MuxerAudio(packetType, data))
    ensures t == [AacAudioByte, packetType] + data
    ensures packetType == AacPacketRaw ==> t == AacRawTag(data)
    ensures packetType == AacPacketSequenceHeader ==> t == AacSequenceHeaderTag(data)
  {
  }

  /** Every AVC body is re-encoded to the same bytes from its parsed fields;
      in particular an SI24 composition time survives the Int32 byte slice. */
  lemma AvcVideoDataReencodes(t: seq<byte>)
    requires ParseAvcVideoData(t).Some?
    ensures ParseAvcVideoData(t).value.frameType < 0x10
    ensures var v := ParseAvcVideoData(t).value;
            t == [AvcHeaderByte(v.frameType), v.packetType] + Int32BigEndian(v.compositionTime)[1..] + v.data
  {
    var v := ParseAvcVideoData(t).value;
    assert t[0] == AvcHeaderByte(v.frameType);
    SI24Reencodes(t[2], t[3], t[4]);
    assert t == [t[0], t[1]] + [t[2], t[3], t[4]] + t[5..];
  }

  /** Three bytes read as SI24 are written back unchanged by the Int32 slice. */
  lemma SI24Reencodes(x0: byte, x1: byte, x2: byte)
    ensures Int32BigEndian(FromSI24(x0, x1, x2))[1..] == [x0, x1, x2]
  {
    var c := FromSI24(x0, x1, x2);
    var b := Int32BigEndian(c);
    Int32LowBytes(c);
    SI24Low(x0, x1, x2);
    BytesUnique(b[1], b[2], b[3], x0, x1, x2);
  }

  /** An SI24 value keeps the 24 bits it was read from. */
  lemma SI24Low(x0: byte, x1: byte, x2: byte)
    ensures FromSI24(x0, x1, x2) % Two24 == x0 as int * 0x1_0000 + x1 as int * 0x100 + x2 as int
  {
  }

  /** A data tag is recovered from its parsed fields whenever its frame type is
      one the muxer writes. */
  lemma AvcNaluTagReencodes(t: seq<byte>, keyframe: bool, compositionTime: int, data: seq<byte>)
    requires ParseAvcVideoData(t) == Some(AvcVideoData(FrameTypeOf(keyframe), CodecAvc, AvcPacketNalu, compositionTime, data))
    ensures t == AvcNaluTag(keyframe, compositionTime, data)
  {
    AvcVideoDataReencodes(t);
  }

  /** A body that parses as an AVC sequence header with a zero composition
      time is the header the encoder builds from the configuration bytes. */
  lemma AvcSequenceHeaderReencodes(t: seq<byte>, compositionTime: int, avcC: seq<byte>)
    requires ParseAvcVideoData(t) == Some(AvcVideoData(FrameTypeKey, CodecAvc, AvcPacketSequenceHeader, compositionTime, avcC))
    ensures compositionTime == 0 ==> t == AvcSequenceHeaderTag(avcC)
  {
    AvcVideoDataReencodes(t);
    ZeroCompositionBytes();
    SequenceHeaderShape(avcC);
  }

  lemma SequenceHeaderShape(avcC: seq<byte>)
    ensures AvcSequenceHeaderTag(avcC) == [AvcHeaderByte(FrameTypeKey), AvcPacketSequenceHeader] + [0, 0, 0] + avcC
  {
    var h := [AvcHeaderByte(FrameTypeKey), AvcPacketSequenceHeader];
    assert [AvcHeaderByte(FrameTypeKey), AvcPacketSequenceHeader, 0, 0, 0] == h + [0, 0, 0];
  }

  lemma ZeroCompositionBytes()
    ensures Int32BigEndian(0)[1..] == [0, 0, 0]
  {
  }

  /** Three bytes are determined by the 24-bit number they spell. */
  lemma BytesUnique(a: byte, b: byte, c: byte, a': byte, b': byte, c': byte)
    requires a as int * 0x1_0000 + b as int * 0x100 + c as int == a' as int * 0x1_0000 + b' as int * 0x100 + c' as int
    ensures a == a' && b == b' && c == c'
  {
  }

  lemma AudioHeaderFields()
    ensures AacAudioByte / 0x10 == SoundFormatAac
    ensures AacAudioByte / 4 % 4 == SoundRate44kHz
    ensures AacAudioByte / 2 % 2 == SoundSize16Bit
    ensures AacAudioByte % 2 == SoundTypeStereo
  {
  }

  lemma VideoHeaderFields(frameType: byte)
    requires frameType < 0x10
    ensures AvcHeaderByte(frameType) / 0x10 == frameType
    ensures AvcHeaderByte(frameType) % 0x10 == CodecAvc
  {
  }

  /** The three composition-time bytes of a data tag decode to the low 24
      bits of the composition time, sign-extended. */
  lemma CompositionTimeBytes(c: int)
    ensures var b := Int32BigEndian(c);
            FromSI24(b[1], b[2], b[3]) == SignedLow24(c)
  {
    Int32LowBytes(c);
  }

  lemma Int32LowBytes(c: int)
    ensures var b := Int32BigEndian(c);
            b[1] as int * 0x1_0000 + b[2] as int * 0x100 + b[3] as int == c % Two24
  {
    var u := c % Two32;
    var b := Int32BigEndian(c);
    Low24OfLow32(c);
    LowBytes(u);
    var x, y, z := u / 0x1_0000 % 0x100, u / 0x100 % 0x100, u % 0x100;
    assert b[1] == x as byte && b[2] == y as byte && b[3] == z as byte;
    ByteRoundTrip(x);
    ByteRoundTrip(y);
    ByteRoundTrip(z);
  }

  lemma ByteRoundTrip(x: int)
    requires 0 <= x < 0x100
    ensures (x as byte) as int == x
  {
  }

  /** Keeping 32 bits and then 24 keeps the same 24 bits. */
  lemma Low24OfLow32(c: int)
    ensures (c % Two32) % Two24 == c % Two24
  {
  }

  /** The low three bytes of u, read back as a big-endian number, are u mod 2^24. */
  lemma LowBytes(u: int)
    requires 0 <= u
    ensures (u / 0x1_0000 % 0x100) * 0x1_0000 + (u / 0x100 % 0x100) * 0x100 + u % 0x100 == u % Two24
  {
    var hi, l := u / Two24, u % Two24;
    var x, w := l / 0x1_0000, l % 0x1_0000;
    var y, z := w / 0x100, w % 0x100;
    assert l == x * 0x1_0000 + w;
    assert w == y * 0x100 + z;
    assert u == hi * Two24 + l;
    DivModUnique(u, 0x1_0000, hi * 0x100 + x, w);
    DivModUnique(hi * 0x100 + x, 0x100, hi, x);
    DivModUnique(u, 0x100, hi * 0x1_0000 + x * 0x100 + y, z);
    DivModUnique(hi * 0x1_0000 + x * 0x100 + y, 0x100, hi * 0x100 + x, y);
  }

  lemma DivModUnique(n: int, d: int, q: int, r: int)
    requires 0 < d && 0 <= r < d && n == q * d + r
    ensures n / d == q && n % d == r
  {
    var k := q - n / d;
    assert k * d == n % d - r by {
      assert n == (n / d) * d + n % d;
      assert q * d - (n / d) * d == (q - n / d) * d;
    }
  }
}
