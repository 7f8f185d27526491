/** The FLV tag constants the muxer packs into the first bytes of every audio and
    video message (Live/Live/FLV.swift). Each Swift enumeration is a datatype with
    its raw `UInt8` value and the failable `init?(rawValue:)` Swift derives from it. */
module Flv {
  import opened Wrappers
  import opened Bytes

  // ---------------------------------------------------------------------------
  // Byte arithmetic on UInt8
  // ---------------------------------------------------------------------------

  /** `x << n` on `UInt8`: bits shifted past the top are lost. */
  function Shl(x: byte, n: nat): byte
    requires n < 8
  {
    (x * Pow2(n)) % 256
  }

  /** The bitwise or of the low `n` bits of `a` and `b`, one bit at a time. */
  function OrBits(a: nat, b: nat, n: nat): (r: nat)
    ensures r < Pow2(n)
  {
    if n == 0 then 0
    else (if a % 2 == 1 || b % 2 == 1 then 1 else 0) + 2 * OrBits(a / 2, b / 2, n - 1)
  }

  /** `a | b` on `UInt8`. */
  function Or(a: byte, b: byte): byte
  {
    assert Pow2(8) == 256;
    OrBits(a, b, 8)
  }

  /** Or-ing with zero keeps every bit. */
  lemma {:induction false} OrZero(a: nat, n: nat)
    requires a < Pow2(n)
    ensures OrBits(a, 0, n) == a
  {
    if n > 0 {
      OrZero(a / 2, n - 1);
    }
  }

  /** Or-ing values whose set bits do not overlap adds them: `a` a multiple of
      `2^k`, `b` below it. */
  lemma {:induction false} OrDisjointBits(m: nat, b: nat, k: nat, n: nat)
    requires k <= n && m * Pow2(k) < Pow2(n) && b < Pow2(k)
    ensures OrBits(m * Pow2(k), b, n) == m * Pow2(k) + b
  {
    if k == 0 {
      OrZero(m, n);
    } else {
      var a, t := m * Pow2(k), m * Pow2(k - 1);
      assert a == 2 * t;
      OrDisjointBits(m, b / 2, k - 1, n - 1);
    }
  }

  lemma OrDisjoint(m: nat, b: byte, k: nat)
    requires k <= 8 && m * Pow2(k) < 256 && b < Pow2(k)
    ensures Or(m * Pow2(k), b) == m * Pow2(k) + b
  {
    assert Pow2(8) == 256;
    OrDisjointBits(m, b, k, 8);
  }

  // ---------------------------------------------------------------------------
  // Video
  // ---------------------------------------------------------------------------

  /** `FLVVideoCodec`. */
  datatype VideoCodec = SorensonH263 | Screen1 | ON2VP6 | ON2VP6Alpha | Screen2 | AVC | UnknownVideo

  function VideoCodecRaw(c: VideoCodec): byte
  {
    match c
    case SorensonH263 => 2
    case Screen1 => 3
    case ON2VP6 => 4
    case ON2VP6Alpha => 5
    case Screen2 => 6
    case AVC => 7
    case UnknownVideo => 0xFF
  }

  /** `FLVVideoCodec(rawValue:)`: the codec with that raw value, if any. */
  function VideoCodecFromRaw(b: byte): (r: Option<VideoCodec>)
    ensures forall c :: r == Some(c) <==> VideoCodecRaw(c) == b
  {
    if b == 2 then Some(SorensonH263)
    else if b == 3 then Some(Screen1)
    else if b == 4 then Some(ON2VP6)
    else if b == 5 then Some(ON2VP6Alpha)
    else if b == 6 then Some(Screen2)
    else if b == 7 then Some(AVC)
    else if b == 0xFF then Some(UnknownVideo)
    else None
  }

  /** `FLVVideoCodec.isSupported`: only AVC. */
  predicate VideoCodecIsSupported(c: VideoCodec)
  {
    match c
    case AVC => true
    case _ => false
  }

  lemma VideoCodecSupport(c: VideoCodec)
    ensures VideoCodecIsSupported(c) <==> VideoCodecRaw(c) == 7
  {
  }

  /** `FLVFrameType`. */
  datatype FrameType = Key | Inter | Disposable | Generated | Command

  function FrameTypeRaw(f: FrameType): byte
  {
    match f
    case Key => 1
    case Inter => 2
    case Disposable => 3
    case Generated => 4
    case Command => 5
  }

  /** `FLVFrameType(rawValue:)`. */
  function FrameTypeFromRaw(b: byte): (r: Option<FrameType>)
    ensures forall f :: r == Some(f) <==> FrameTypeRaw(f) == b
  {
    if b == 1 then Some(Key)
    else if b == 2 then Some(Inter)
    else if b == 3 then Some(Disposable)
    else if b == 4 then Some(Generated)
    else if b == 5 then Some(Command)
    else None
  }

  /** `FLVAVCPacketType`. */
  datatype AVCPacketType = AVCSeq | Nal | Eos

  function AVCPacketTypeRaw(t: AVCPacketType): byte
  {
    match t
    case AVCSeq => 0
    case Nal => 1
    case Eos => 2
  }

  /** `FLVAVCPacketType(rawValue:)`. */
  function AVCPacketTypeFromRaw(b: byte): (r: Option<AVCPacketType>)
    ensures forall t :: r == Some(t) <==> AVCPacketTypeRaw(t) == b
  {
    if b == 0 then Some(AVCSeq)
    else if b == 1 then Some(Nal)
    else if b == 2 then Some(Eos)
    else None
  }

  /** The first byte of a video tag: the frame type in the high four bits and the
      codec in the low four (`frameType << 4 | codec`). */
  function VideoTagByte(f: FrameType, c: VideoCodec): byte
  {
    Or(Shl(FrameTypeRaw(f), 4), VideoCodecRaw(c))
  }

  /** For every codec with a four-bit value, the tag byte gives back the frame type
      and the codec. */
  lemma VideoTagFields(f: FrameType, c: VideoCodec)
    requires c != UnknownVideo
    ensures VideoTagByte(f, c) == 16 * FrameTypeRaw(f) + VideoCodecRaw(c)
    ensures VideoTagByte(f, c) / 16 == FrameTypeRaw(f) && VideoTagByte(f, c) % 16 == VideoCodecRaw(c)
  {
    var x, y := FrameTypeRaw(f), VideoCodecRaw(c);
    ShlFits(x, 4, 16);
    OrBelow(x, y, 16);
  }

  /** An AVC key frame starts with 0x17, an AVC inter frame with 0x27. */
  lemma AVCTagBytes()
    ensures VideoTagByte(Key, AVC) == 0x17 && VideoTagByte(Inter, AVC) == 0x27
  {
    VideoTagFields(Key, AVC);
    VideoTagFields(Inter, AVC);
  }

  // ---------------------------------------------------------------------------
  // Audio
  // ---------------------------------------------------------------------------

  /** `FLVAACPacketType`. */
  datatype AACPacketType = AACSeq | Raw

  function AACPacketTypeRaw(t: AACPacketType): byte
  {
    match t
    case AACSeq => 0
    case Raw => 1
  }

  /** `FLVAACPacketType(rawValue:)`. */
  function AACPacketTypeFromRaw(b: byte): (r: Option<AACPacketType>)
    ensures forall t :: r == Some(t) <==> AACPacketTypeRaw(t) == b
  {
    if b == 0 then Some(AACSeq) else if b == 1 then Some(Raw) else None
  }

  /** `FLVSoundRate`. */
  datatype SoundRate = KHz5_5 | KHz11 | KHz22 | KHz44

  function SoundRateRaw(r: SoundRate): byte
  {
    match r
    case KHz5_5 => 0
    case KHz11 => 1
    case KHz22 => 2
    case KHz44 => 3
  }

  /** `FLVSoundRate(rawValue:)`. */
  function SoundRateFromRaw(b: byte): (r: Option<SoundRate>)
    ensures forall s :: r == Some(s) <==> SoundRateRaw(s) == b
  {
    if b == 0 then Some(KHz5_5)
    else if b == 1 then Some(KHz11)
    else if b == 2 then Some(KHz22)
    else if b == 3 then Some(KHz44)
    else None
  }

  /** `FLVSoundRate.floatValue`, in samples per second (every value is whole). */
  function SoundRateHz(r: SoundRate): nat
  {
    match r
    case KHz5_5 => 5500
    case KHz11 => 11025
    case KHz22 => 22050
    case KHz44 => 44100
  }

  /** A higher rate code is a higher rate; from 11 kHz up each code doubles the
      rate, while 5.5 kHz is 5500 and not half of 11025. */
  lemma SoundRateOrder(a: SoundRate, b: SoundRate)
    ensures SoundRateRaw(a) < SoundRateRaw(b) <==> SoundRateHz(a) < SoundRateHz(b)
    ensures SoundRateRaw(a) >= 1 && SoundRateRaw(b) == SoundRateRaw(a) + 1 ==> SoundRateHz(b) == 2 * SoundRateHz(a)
    ensures 2 * SoundRateHz(KHz5_5) != SoundRateHz(KHz11)
  {
  }

  /** `FLVSoundSize`. */
  datatype SoundSize = Snd8bit | Snd16bit

  function SoundSizeRaw(s: SoundSize): byte
  {
    match s
    case Snd8bit => 0
    case Snd16bit => 1
  }

  /** `FLVSoundSize(rawValue:)`. */
  function SoundSizeFromRaw(b: byte): (r: Option<SoundSize>)
    ensures forall s :: r == Some(s) <==> SoundSizeRaw(s) == b
  {
    if b == 0 then Some(Snd8bit) else if b == 1 then Some(Snd16bit) else None
  }

  /** `FLVSoundType`. */
  datatype SoundType = Mono | Stereo

  function SoundTypeRaw(s: SoundType): byte
  {
    match s
    case Mono => 0
    case Stereo => 1
  }

  /** `FLVSoundType(rawValue:)`. */
  function SoundTypeFromRaw(b: byte): (r: Option<SoundType>)
    ensures forall s :: r == Some(s) <==> SoundTypeRaw(s) == b
  {
    if b == 0 then Some(Mono) else if b == 1 then Some(Stereo) else None
  }

  /** `FLVAudioCodec`. */
  datatype AudioCodec = PCM | ADPCM | MP3 | PCMLE | Nellymoser16K | Nellymoser8K | Nellymoser
                      | G711A | G711MU | AAC | Speex | MP3_8k | UnknownAudio

  function AudioCodecRaw(c: AudioCodec): byte
  {
    match c
    case PCM => 0
    case ADPCM => 1
    case MP3 => 2
    case PCMLE => 3
    case Nellymoser16K => 4
    case Nellymoser8K => 5
    case Nellymoser => 6
    case G711A => 7
    case G711MU => 8
    case AAC => 10
    case Speex => 11
    case MP3_8k => 14
    case UnknownAudio => 0xFF
  }

  /** `FLVAudioCodec(rawValue:)`: 9, 12, 13 and the values from 15 to 254 name no
      codec. */
  function AudioCodecFromRaw(b: byte): (r: Option<AudioCodec>)
    ensures forall c :: r == Some(c) <==> AudioCodecRaw(c) == b
  {
    if b == 0 then Some(PCM)
    else if b == 1 then Some(ADPCM)
    else if b == 2 then Some(MP3)
    else if b == 3 then Some(PCMLE)
    else if b == 4 then Some(Nellymoser16K)
    else if b == 5 then Some(Nellymoser8K)
    else if b == 6 then Some(Nellymoser)
    else if b == 7 then Some(G711A)
    else if b == 8 then Some(G711MU)
    else if b == 10 then Some(AAC)
    else if b == 11 then Some(Speex)
    else if b == 14 then Some(MP3_8k)
    else if b == 0xFF then Some(UnknownAudio)
    else None
  }

  /** `FLVAudioCodec.isSupported`: only AAC. */
  predicate AudioCodecIsSupported(c: AudioCodec)
  {
    match c
    case AAC => true
    case _ => false
  }

  lemma AudioCodecSupport(c: AudioCodec)
    ensures AudioCodecIsSupported(c) <==> AudioCodecRaw(c) == 10
  {
  }

  /** `FLVAudioCodec.headerSize`: the bytes before the payload of an audio tag. */
  function AudioHeaderSize(c: AudioCodec): (n: nat)
    ensures n == 2 <==> c == AAC
    ensures n == 1 <==> c != AAC
  {
    match c
    case AAC => 2
    case _ => 1
  }

  /** The first byte of an audio tag: `codec << 4 | rate << 2 | size << 1 | type`. */
  function AudioTagByte(c: AudioCodec, rate: SoundRate, size: SoundSize, channels: SoundType): byte
  {
    Or(Or(Or(Shl(AudioCodecRaw(c), 4), Shl(SoundRateRaw(rate), 2)), Shl(SoundSizeRaw(size), 1)), SoundTypeRaw(channels))
  }

  /** For every codec with a four-bit value, the four fields sit side by side in
      the tag byte and each reads back. */
  lemma AudioTagFields(c: AudioCodec, rate: SoundRate, size: SoundSize, channels: SoundType)
    requires c != UnknownAudio
    ensures var t := AudioTagByte(c, rate, size, channels);
      t == 16 * AudioCodecRaw(c) + 4 * SoundRateRaw(rate) + 2 * SoundSizeRaw(size) + SoundTypeRaw(channels)
      && t / 16 == AudioCodecRaw(c) && (t / 4) % 4 == SoundRateRaw(rate)
      && (t / 2) % 2 == SoundSizeRaw(size) && t % 2 == SoundTypeRaw(channels)
  {
    var x, y, z, w := AudioCodecRaw(c), SoundRateRaw(rate), SoundSizeRaw(size), SoundTypeRaw(channels);
    assert x < 16 && y < 4 && z < 2 && w < 2;
    PackedOr(x, y, z, w);
    PackedFields(x, y, z, w);
  }

  /** `x << 4 | y << 2 | z << 1 | w` for fields that fit their bits. */
  lemma PackedOr(x: byte, y: byte, z: byte, w: byte)
    requires x < 16 && y < 4 && z < 2 && w < 2
    ensures Or(Or(Or(Shl(x, 4), Shl(y, 2)), Shl(z, 1)), w) == 16 * x + 4 * y + 2 * z + w
  {
    var a := Or(Shl(x, 4), Shl(y, 2));
    assert a == 16 * x + 4 * y by {
      ShlFits(x, 4, 16);
      ShlFits(y, 2, 4);
      OrBelow(x, 4 * y, 16);
    }
    var b := Or(a, Shl(z, 1));
    assert b == 16 * x + 4 * y + 2 * z by {
      ShlFits(z, 1, 2);
      OrBelow(4 * x + y, 2 * z, 4);
    }
    OrBelow(8 * x + 2 * y + z, w, 2);
  }

  /** A shift that loses no bits multiplies. */
  lemma ShlFits(x: byte, n: nat, p: nat)
    requires n < 8 && p == Pow2(n) && x * p < 256
    ensures Shl(x, n) == x * p
  {
  }

  /** `(m * p) | b == m * p + b` for the powers of two `p` the tag bytes use. */
  lemma OrBelow(m: nat, b: byte, p: nat)
    requires (p == 2 || p == 4 || p == 16) && m * p < 256 && b < p
    ensures Or(m * p, b) == m * p + b
  {
    var k := if p == 2 then 1 else if p == 4 then 2 else 4;
    assert Pow2(k) == p;
    OrDisjoint(m, b, k);
  }

  lemma PackedFields(x: nat, y: nat, z: nat, w: nat)
    requires x < 16 && y < 4 && z < 2 && w < 2
    ensures var t := 16 * x + 4 * y + 2 * z + w;
      t / 16 == x && (t / 4) % 4 == y && (t / 2) % 2 == z && t % 2 == w
  {
    var t := 16 * x + 4 * y + 2 * z + w;
    assert t / 4 == 4 * x + y;
    assert t / 2 == 8 * x + 2 * y + z;
  }

  /** The header byte of every AAC message the muxer writes: AAC, 44 kHz, 16-bit
      samples, stereo. */
  const AACTagByte: byte := AudioTagByte(AAC, KHz44, Snd16bit, Stereo)

  lemma AACTagByteValue()
    ensures AACTagByte == 0xAF
  {
    AudioTagFields(AAC, KHz44, Snd16bit, Stereo);
  }
}
