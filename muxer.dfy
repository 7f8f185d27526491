/** The muxer that turns encoded H.264 and AAC samples into FLV tag bodies for the
    publish client (Live/Live/RTMPMuxer.swift). Media times are whole milliseconds,
    and 0 stands for `kCMTimeZero`; the delegate is the sequence of calls it
    receives. */
module Muxers {
  import opened Wrappers
  import opened Bytes
  import opened Flv

  /** An H.264 `CMFormatDescription`, reduced to its avcC atom: `None` when the
      sample-description extension atoms, or their avcC entry, are missing. */
  datatype VideoFormat = VideoFormat(avcC: Option<seq<byte>>)

  /** A video `CMSampleBuffer`: its bytes (`None` without a block buffer), whether
      it is a sync sample, its presentation time and its decode time (`None` for
      `kCMTimeInvalid`). */
  datatype VideoSample = VideoSample(block: Option<seq<byte>>, keyFrame: bool, pts: int, dts: Option<int>)

  /** An audio `CMSampleBuffer`: its bytes (`None` without a block buffer) and its
      presentation time. */
  datatype AudioSample = AudioSample(block: Option<seq<byte>>, pts: int)

  /** One call of the delegate: `sampleOutput(video:timestamp:)` or
      `sampleOutput(audio:timestamp:)`. */
  datatype Output = VideoOutput(buffer: seq<byte>, timestamp: int) | AudioOutput(buffer: seq<byte>, timestamp: int)

  // ---------------------------------------------------------------------------
  // Tag bodies
  // ---------------------------------------------------------------------------

  /** The AVC sequence header: key frame, AVC, packet type 0, composition time 0,
      then the decoder configuration record. */
  function AVCSequenceHeader(avcC: seq<byte>): (r: seq<byte>)
    ensures |r| == 5 + |avcC| && r[..5] == [0x17, 0x00, 0x00, 0x00, 0x00] && r[5..] == avcC
  {
    AVCTagBytes();
    [VideoTagByte(Key, AVC), AVCPacketTypeRaw(AVCSeq), 0x00, 0x00, 0x00] + avcC
  }

  /** `cto.bigEndian.bytes[1...3]`: the low three bytes of the 32-bit pattern of
      `cto`, most significant first. */
  function CompositionTimeBytes(cto: int32): (r: seq<byte>)
    ensures |r| == 3
  {
    LittleEndian(ByteSwap(Unsigned(cto, 4), 4), 4)[1..4]
  }

  /** The three bytes hold the 32-bit pattern of `cto` cut to 24 bits, so they read
      back as `cto` exactly when it lies within 24-bit two's complement. */
  lemma {:induction false} CompositionTimeValue(cto: int32)
    ensures FromBigEndian(CompositionTimeBytes(cto)) == Unsigned(cto, 4) % 0x100_0000
    ensures -0x80_0000 <= cto < 0x80_0000 <==> Signed(FromBigEndian(CompositionTimeBytes(cto)), 3) == cto
  {
    var u := Unsigned(cto, 4);
    var bs := BigEndian(u, 4);
    BigEndianBytes(u, 4);
    var v := FromBigEndian(bs[1..4]);
    assert v == u - bs[0] as int * 0x100_0000 && v < 0x100_0000 by {
      BigEndianRoundTrip(u, 4);
      BigEndian4(bs);
      BigEndian3(bs[1..4]);
    }
    LowBytes(u, bs[0], v);
    if -0x80_0000 <= cto < 0x80_0000 {
      assert v == Unsigned(cto, 3);
      SignedUnsigned(cto, 3);
    }
  }

  lemma LowBytes(u: nat, top: nat, low: nat)
    requires u == top * 0x100_0000 + low && low < 0x100_0000
    ensures u % 0x100_0000 == low
  {
  }

  /** The first byte of a NALU packet as the source writes it,
      `(isKeyFrame ? 0x01 : 0x02) << 4 | 0x07`. */
  function NaluTagByte(keyFrame: bool): (b: byte)
    ensures b == VideoTagByte(if keyFrame then Key else Inter, AVC)
    ensures b == if keyFrame then 0x17 else 0x27
  {
    AVCTagBytes();
    Or(Shl(if keyFrame then 0x01 else 0x02, 4), 0x07)
  }

  /** A coded video frame: the tag byte, packet type 1, the composition time, then
      the sample's bytes. */
  function NaluPacket(keyFrame: bool, cto: int32, nalu: seq<byte>): seq<byte>
  {
    [NaluTagByte(keyFrame), 0x01] + CompositionTimeBytes(cto) + nalu
  }

  /** Byte 0 of a NALU packet is 0x17 for a key frame and 0x27 otherwise, byte 1 is
      the NALU packet type, bytes 2 to 4 the composition time, and the sample's
      bytes follow. */
  lemma NaluPacketLayout(keyFrame: bool, cto: int32, nalu: seq<byte>)
    ensures var r := NaluPacket(keyFrame, cto, nalu);
      |r| == 5 + |nalu| && r[5..] == nalu
      && r[0] == (if keyFrame then 0x17 else 0x27) && r[1] == AVCPacketTypeRaw(Nal) == 0x01
      && r[2..5] == CompositionTimeBytes(cto)
  {
  }

  /** An AAC tag body: the AAC tag byte, the packet type, then the data. */
  function AACPacket(packetType: AACPacketType, data: seq<byte>): seq<byte>
  {
    [AACTagByte, AACPacketTypeRaw(packetType)] + data
  }

  /** An AAC tag body is 0xAF, then 0x00 for the sequence header or 0x01 for raw
      data, then the data. */
  lemma AACPacketLayout(packetType: AACPacketType, data: seq<byte>)
    ensures var r := AACPacket(packetType, data);
      |r| == 2 + |data| && r[0] == 0xAF && r[2..] == data
      && r[1] == (if packetType == AACSeq then 0x00 else 0x01)
  {
    AACTagByteValue();
  }

  // ---------------------------------------------------------------------------
  // Timing
  // ---------------------------------------------------------------------------

  /** The time since the previous sample, or 0 while the previous time is zero. */
  function Delta(previous: int, now: int): int
  {
    if previous == 0 then 0 else now - previous
  }

  /** The decode time of a video sample, its presentation time when it has none. */
  function DecodeTime(s: VideoSample): int
  {
    if s.dts.None? then s.pts else s.dts.value
  }

  /** Presentation time minus decode time, 0 when there is no decode time. */
  function CompositionTime(s: VideoSample): int
  {
    if s.dts.None? then 0 else s.pts - s.dts.value
  }

  /** What `muxAVCSampleBuffer` does after `previousDts`: the delegate call and the
      new `previousDts` (`Ok`), nothing (`Fail`, no block buffer), or a trap when the
      composition time does not fit `Int32`. */
  function MuxVideo(previousDts: int, s: VideoSample): (r: Outcome<(Output, int)>)
    ensures r.Fail? <==> s.block.None?
    ensures r.Trap? <==> s.block.Some? && !(-0x8000_0000 <= CompositionTime(s) < 0x8000_0000)
    ensures r.Ok? ==> (r.value.1 == DecodeTime(s)
      && r.value.0.VideoOutput?
      && r.value.0.timestamp == (if previousDts == 0 then 0 else DecodeTime(s) - previousDts))
  {
    if s.block.None? then Fail
    else if !(-0x8000_0000 <= CompositionTime(s) < 0x8000_0000) then Trap
    else Ok((VideoOutput(NaluPacket(s.keyFrame, CompositionTime(s), s.block.value),
                         Delta(previousDts, DecodeTime(s))), DecodeTime(s)))
  }

  /** What `muxAACSampleBuffer` does after `audioTimestamp`: the delegate call and
      the new `audioTimestamp`, or nothing. */
  function MuxAudio(audioTimestamp: int, sample: Option<AudioSample>): (r: Option<(Output, int)>)
    ensures r.None? <==> (sample.None? || sample.value.block.None?
                          || (audioTimestamp != 0 && sample.value.pts < audioTimestamp))
    ensures r.Some? ==> (r.value.1 == sample.value.pts
      && r.value.0 == AudioOutput(AACPacket(Raw, sample.value.block.value), r.value.0.timestamp)
      && r.value.0.timestamp >= 0
      && r.value.0.timestamp == (if audioTimestamp == 0 then 0 else sample.value.pts - audioTimestamp))
  {
    if sample.None? then None
    else
      var delta := Delta(audioTimestamp, sample.value.pts);
      if sample.value.block.None? || delta < 0 then None
      else Some((AudioOutput(AACPacket(Raw, sample.value.block.value), delta), sample.value.pts))
  }

  /** A sample with a block buffer and a composition time that fits `Int32` goes
      to the delegate. */
  lemma MuxVideoEmits(previousDts: int, s: VideoSample, cto: int32, dts: int, buffer: seq<byte>, delta: int)
    requires s.block.Some? && -0x8000_0000 <= CompositionTime(s) < 0x8000_0000
    requires cto == CompositionTime(s) && dts == DecodeTime(s)
    requires buffer == NaluPacket(s.keyFrame, cto, s.block.value) && delta == Delta(previousDts, dts)
    ensures MuxVideo(previousDts, s) == Ok((VideoOutput(buffer, delta), dts))
  {
  }

  // ---------------------------------------------------------------------------
  // Runs of samples
  // ---------------------------------------------------------------------------

  /** The delegate calls of a run of `muxAVCSampleBuffer` calls, and `previousDts`
      after them; `Trap` if one of them traps. */
  function VideoRun(previousDts: int, samples: seq<VideoSample>): (r: Outcome<(seq<Output>, int)>)
    ensures !r.Fail?
    decreases |samples|
  {
    if samples == [] then Ok(([], previousDts))
    else
      match MuxVideo(previousDts, samples[0])
      case Trap => Trap
      case Fail => VideoRun(previousDts, samples[1..])
      case Ok((out, dts)) =>
        var rest := VideoRun(dts, samples[1..]);
        if rest.Ok? then Ok(([out] + rest.value.0, rest.value.1)) else Trap
  }

  /** The delegate calls of a run of `muxAACSampleBuffer` calls, and
      `audioTimestamp` after them. */
  function AudioRun(audioTimestamp: int, samples: seq<Option<AudioSample>>): (r: (seq<Output>, int))
    decreases |samples|
  {
    if samples == [] then ([], audioTimestamp)
    else
      match MuxAudio(audioTimestamp, samples[0])
      case None => AudioRun(audioTimestamp, samples[1..])
      case Some((out, pts)) =>
        var rest := AudioRun(pts, samples[1..]);
        ([out] + rest.0, rest.1)
  }

  /** The sum of the timestamps handed to the delegate. */
  function TotalTime(outputs: seq<Output>): int
  {
    if outputs == [] then 0 else outputs[0].timestamp + TotalTime(outputs[1..])
  }

  /** Once `previousDts` is set, the video timestamps are the gaps between decode
      times, so they add up to the time from the first `previousDts` to the last
      decode time, as long as no decode time is exactly zero (which reads as
      `kCMTimeZero`). */
  lemma {:induction false} VideoRunTimeline(previousDts: int, samples: seq<VideoSample>)
    requires previousDts != 0
    requires forall i :: 0 <= i < |samples| ==> DecodeTime(samples[i]) != 0
    ensures var r := VideoRun(previousDts, samples);
      r.Ok? ==> TotalTime(r.value.0) == r.value.1 - previousDts
    decreases |samples|
  {
    if samples != [] {
      assert forall i :: 0 <= i < |samples[1..]| ==> DecodeTime(samples[1..][i]) != 0 by {
        forall i | 0 <= i < |samples[1..]| ensures DecodeTime(samples[1..][i]) != 0 {
          assert samples[1..][i] == samples[i + 1];
        }
      }
      match MuxVideo(previousDts, samples[0])
      case Trap =>
      case Fail => VideoRunTimeline(previousDts, samples[1..]);
      case Ok((out, dts)) =>
        assert DecodeTime(samples[0]) != 0;
        VideoRunTimeline(dts, samples[1..]);
        var rest := VideoRun(dts, samples[1..]);
        if rest.Ok? {
          assert ([out] + rest.value.0)[1..] == rest.value.0;
        }
    }
  }

  /** The video timestamps are not checked: a decode time before `previousDts`
      goes to the delegate as a negative timestamp. */
  lemma NegativeVideoDelta()
    ensures MuxVideo(40, VideoSample(Some([]), true, 20, None)) == Ok((VideoOutput(NaluPacket(true, 0, []), -20), 20))
  {
  }

  /** Once `audioTimestamp` is set, the audio timestamps handed on are never
      negative, `audioTimestamp` never goes back, and the timestamps add up to the
      time it has moved, as long as no presentation time is exactly zero. */
  lemma {:induction false} AudioRunTimeline(audioTimestamp: int, samples: seq<Option<AudioSample>>)
    requires audioTimestamp != 0
    requires forall i :: 0 <= i < |samples| && samples[i].Some? ==> samples[i].value.pts != 0
    ensures var r := AudioRun(audioTimestamp, samples);
      TotalTime(r.0) == r.1 - audioTimestamp && r.1 >= audioTimestamp
      && forall i :: 0 <= i < |r.0| ==> r.0[i].timestamp >= 0
    decreases |samples|
  {
    if samples != [] {
      assert forall i :: 0 <= i < |samples[1..]| && samples[1..][i].Some? ==> samples[1..][i].value.pts != 0 by {
        forall i | 0 <= i < |samples[1..]| && samples[1..][i].Some? ensures samples[1..][i].value.pts != 0 {
          assert samples[1..][i] == samples[i + 1];
        }
      }
      match MuxAudio(audioTimestamp, samples[0])
      case None => AudioRunTimeline(audioTimestamp, samples[1..]);
      case Some((out, pts)) =>
        AudioRunTimeline(pts, samples[1..]);
        var rest := AudioRun(pts, samples[1..]);
        var outs := [out] + rest.0;
        assert outs[1..] == rest.0;
        forall i | 0 <= i < |outs| ensures outs[i].timestamp >= 0 {
          if i > 0 { assert outs[i] == rest.0[i - 1]; }
        }
    }
  }

  /** The five header bytes of a NALU packet built in a buffer, then the
      sample's bytes after them. */
  method MakeNaluPacket(keyFrame: bool, cto: int32, nalu: seq<byte>) returns (buffer: seq<byte>)
    ensures buffer == NaluPacket(keyFrame, cto, nalu)
  {
    var data: seq<byte> := [0x00, 0x00, 0x00, 0x00, 0x00];
    data := data[0 := NaluTagByte(keyFrame)];
    data := data[1 := 0x01];
    assert data[..2] == [NaluTagByte(keyFrame), 0x01];
    var ctoBytes := LittleEndian(ByteSwap(Unsigned(cto, 4), 4), 4);
    data := data[..2] + ctoBytes[1..4];
    buffer := data + nalu;
  }

  /** The composition and decode times of `muxAVCSampleBuffer`, or `trap` when
      the composition time does not fit `Int32`. */
  method SampleTimes(sample: VideoSample) returns (trap: bool, cto: int32, dts: int)
    ensures trap <==> !(-0x8000_0000 <= CompositionTime(sample) < 0x8000_0000)
    ensures !trap ==> cto == CompositionTime(sample) && dts == DecodeTime(sample)
  {
    cto, trap := 0, false;
    if sample.dts.None? {
      dts := sample.pts;
    } else {
      var x := sample.pts - sample.dts.value;
      if !(-0x8000_0000 <= x < 0x8000_0000) {
        return true, 0, 0;
      }
      cto := x;
      dts := sample.dts.value;
    }
  }

  /** The body of `muxAVCSampleBuffer`: what goes to the delegate and the decode
      time it stores, nothing without a block buffer, or a trap. */
  method VideoPacket(previousDts: int, sample: VideoSample) returns (r: Outcome<(Output, int)>)
    ensures r == MuxVideo(previousDts, sample)
  {
    if sample.block.None? {
      return Fail;
    }
    var trap, cto, dts := SampleTimes(sample);
    if trap {
      return Trap;
    }
    var timeDelta := if previousDts == 0 then 0 else dts - previousDts;
    var buffer := MakeNaluPacket(sample.keyFrame, cto, sample.block.value);
    MuxVideoEmits(previousDts, sample, cto, dts, buffer, timeDelta);
    r := Ok((VideoOutput(buffer, timeDelta), dts));
  }

  // ---------------------------------------------------------------------------
  // The muxer
  // ---------------------------------------------------------------------------

  /** `RTMPMuxer`, with the calls its delegate has received. */
  class Muxer {
    var previousDts: int
    var audioTimestamp: int
    var outputs: seq<Output>

    constructor ()
      ensures previousDts == 0 && audioTimestamp == 0 && outputs == []
    {
      previousDts := 0;
      audioTimestamp := 0;
      outputs := [];
    }

    /** `createAVCSequenceHeader(formatDescription:)`: the five header bytes, then
        the avcC atom, or nothing without it. */
    method CreateAVCSequenceHeader(format: VideoFormat) returns (r: Option<seq<byte>>)
      ensures r.Some? <==> format.avcC.Some?
      ensures r.Some? ==> r.value == AVCSequenceHeader(format.avcC.value)
    {
      var data: seq<byte> := [0x00, 0x00, 0x00, 0x00, 0x00];
      data := data[0 := VideoTagByte(Key, AVC)];
      data := data[1 := AVCPacketTypeRaw(AVCSeq)];
      data := data[..2] + [0x00, 0x00, 0x00];
      var buffer := data;
      if format.avcC.None? {
        return None;
      }
      assert buffer == [VideoTagByte(Key, AVC), AVCPacketTypeRaw(AVCSeq), 0x00, 0x00, 0x00];
      buffer := buffer + format.avcC.value;
      return Some(buffer);
    }

    /** `muxAVCFormatDescription(formatDescription:)`: the sequence header goes to
        the delegate with timestamp 0; neither time tracker moves. */
    method MuxAVCFormatDescription(format: Option<VideoFormat>)
      modifies this`outputs
      ensures format.Some? && format.value.avcC.Some? ==>
        outputs == old(outputs) + [VideoOutput(AVCSequenceHeader(format.value.avcC.value), 0)]
      ensures format.None? || format.value.avcC.None? ==> outputs == old(outputs)
      ensures previousDts == old(previousDts) && audioTimestamp == old(audioTimestamp)
    {
      if format.None? {
        return;
      }
      var header := CreateAVCSequenceHeader(format.value);
      if header.None? {
        return;
      }
      outputs := outputs + [VideoOutput(header.value, 0)];
    }

    /** `muxAVCSampleBuffer(sampleBuffer:)`; `trapped` when the source would stop on
        the `Int32` conversion of the composition time. */
    method MuxAVCSampleBuffer(sample: VideoSample) returns (trapped: bool)
      modifies this`outputs, this`previousDts
      ensures trapped <==> MuxVideo(old(previousDts), sample).Trap?
      ensures var r := MuxVideo(old(previousDts), sample);
        if r.Ok? then outputs == old(outputs) + [r.value.0] && previousDts == r.value.1
        else outputs == old(outputs) && previousDts == old(previousDts)
      ensures audioTimestamp == old(audioTimestamp)
    {
      var r := VideoPacket(previousDts, sample);
      if r.Ok? {
        outputs := outputs + [r.value.0];
        previousDts := r.value.1;
      }
      trapped := r.Trap?;
    }

    /** `muxAACSampleBuffer(sampleBuffer:)`. */
    method MuxAACSampleBuffer(sample: Option<AudioSample>)
      modifies this`outputs, this`audioTimestamp
      ensures var r := MuxAudio(old(audioTimestamp), sample);
        if r.Some? then outputs == old(outputs) + [r.value.0] && audioTimestamp == r.value.1
        else outputs == old(outputs) && audioTimestamp == old(audioTimestamp)
      ensures previousDts == old(previousDts)
    {
      if sample.None? {
        return;
      }
      var presentationTimestamp := sample.value.pts;
      var delta := if audioTimestamp == 0 then 0 else presentationTimestamp - audioTimestamp;
      if sample.value.block.None? || !(0 <= delta) {
        return;
      }
      var data: seq<byte> := [0x00, AACPacketTypeRaw(Raw)];
      data := data[0 := AACTagByte];
      assert data == [AACTagByte, AACPacketTypeRaw(Raw)];
      var buffer := data + sample.value.block.value;
      outputs := outputs + [AudioOutput(buffer, delta)];
      audioTimestamp := presentationTimestamp;
    }

    /** `muxAACFormatDescription(formatDescription:)`, given the bytes of the
        description's AudioSpecificConfig: the sequence header goes to the delegate
        with timestamp 0; neither time tracker moves. */
    method MuxAACFormatDescription(configuration: Option<seq<byte>>)
      modifies this`outputs
      ensures configuration.Some? ==> outputs == old(outputs) + [AudioOutput(AACPacket(AACSeq, configuration.value), 0)]
      ensures configuration.None? ==> outputs == old(outputs)
      ensures previousDts == old(previousDts) && audioTimestamp == old(audioTimestamp)
    {
      if configuration.None? {
        return;
      }
      var data: seq<byte> := [0x00, 0x00];
      data := data[0 := AACTagByte];
      data := data[1 := AACPacketTypeRaw(AACSeq)];
      assert data == [AACTagByte, AACPacketTypeRaw(AACSeq)];
      var buffer := data + configuration.value;
      outputs := outputs + [AudioOutput(buffer, 0)];
    }
  }
}
