/** The commands and media messages of a published stream
    (Live/RTMP/RTMPStream.swift). `RTMPStream.messageStreamID` is a static
    variable of the source, kept here in `Statics`. */
module Streams {
  import opened Wrappers
  import opened Bytes
  import opened AssocLists
  import opened Amf0
  import opened Chunks
  import opened Messages
  import opened Sockets
  import Ieee754

  const PublishName := Ascii("publish")
  const SetDataFrameName := Ascii("@setDataFrame")
  const OnMetaDataName := Ascii("onMetaData")
  const FCUnpublishName := Ascii("FCUnpublish")
  const DeleteStreamName := Ascii("deleteStream")

  const PublishTransaction := 5
  const FCUnpublishTransaction := 6
  const DeleteStreamTransaction := 7

  /** The chunk streams `publish` and the metadata go on. */
  const PublishChannel: uint16 := 0x08
  const MetaDataChannel: uint16 := 0x04

  /** A media dictionary: each key once, its value as `setProperties` takes it. */
  type MetaData = seq<(seq<byte>, PropertyInput)>

  /** What `publishStream` writes: `publish` with a null, the stream name and the
      application name, on the stream's message stream, with a type-0 header on
      chunk stream 8. */
  function PublishWrite(stream: seq<byte>, app: seq<byte>, messageStreamID: uint32, chunkSize: int64): Event
  {
    Sent(Snapshot(0, messageStreamID, CommandBody(PublishName, PublishTransaction, [Null, Str(stream), Str(app)]), []),
         Type0, PublishChannel, chunkSize)
  }

  /** The data message `setMetaData` sends: `@setDataFrame`, then the string
      `onMetaData` and an ECMA array holding the dictionary. */
  function MetaDataBody(metaData: MetaData): Body
  {
    DataBody(Some(SetDataFrameName), [Str(OnMetaDataName), EcmaArray(PropertiesOf(metaData))])
  }

  /** What `setMetaData` writes: the data message with a type-0 header on chunk
      stream 4. */
  function MetaDataWrite(metaData: MetaData, messageStreamID: uint32, chunkSize: int64): Event
  {
    Sent(Snapshot(0, messageStreamID, MetaDataBody(metaData), []), Type0, MetaDataChannel, chunkSize)
  }

  /** What `FCUnpublish` writes: `FCUnpublish` with a null and the stream name,
      with a type-1 header on the command channel. */
  function FCUnpublishWrite(stream: seq<byte>, messageStreamID: uint32, chunkSize: int64): Event
  {
    Sent(Snapshot(0, messageStreamID, CommandBody(FCUnpublishName, FCUnpublishTransaction, [Null, Str(stream)]), []),
         Type1, CommandChannel, chunkSize)
  }

  /** What `deleteStream` writes: `deleteStream` with a null and the message stream
      id as a number, with a type-1 header on the command channel. */
  function DeleteStreamWrite(messageStreamID: uint32, chunkSize: int64): Event
  {
    Sent(Snapshot(0, messageStreamID,
                  CommandBody(DeleteStreamName, DeleteStreamTransaction,
                              [Null, Number(Ieee754.FromInt(messageStreamID as int64))]), []),
         Type1, CommandChannel, chunkSize)
  }

  /** The number `deleteStream` carries reads back as the stream id. */
  lemma {:induction false} DeleteStreamID(messageStreamID: uint32, chunkSize: int64)
    ensures var m := DeleteStreamWrite(messageStreamID, chunkSize).message;
      m.body.commandObjects[1].Number?
      && Ieee754.ToUInt32(m.body.commandObjects[1].bits) == Some(messageStreamID)
  {
    Ieee754.ToUInt32FromInt(messageStreamID);
  }

  // ---------------------------------------------------------------------------
  // Media messages
  // ---------------------------------------------------------------------------

  /** One audio or video frame: its FLV tag body and its timestamp. */
  datatype Frame = Frame(buffer: seq<byte>, timestamp: uint32)

  /** The header type of a media message: type 0 for the first of its kind, type 1
      after that. */
  function MediaChunkType(first: bool): ChunkType
  {
    if first then Type0 else Type1
  }

  /** What `publishVideo` (`video`) or `publishAudio` writes for one frame: the
      message on the stream's message stream, on chunk stream 6 or 5. */
  function MediaWrite(video: bool, first: bool, frame: Frame, messageStreamID: uint32, chunkSize: int64): Event
  {
    Sent(Snapshot(frame.timestamp, messageStreamID, if video then VideoBody else AudioBody, frame.buffer),
         MediaChunkType(first), if video then VideoChannel else AudioChannel, chunkSize)
  }

  /** What a run of `publishVideo` or `publishAudio` calls writes, starting with
      the flag `first`. */
  function MediaWrites(video: bool, first: bool, frames: seq<Frame>, messageStreamID: uint32, chunkSize: int64)
    : (r: seq<Event>)
    ensures |r| == |frames|
  {
    if frames == [] then []
    else [MediaWrite(video, first, frames[0], messageStreamID, chunkSize)]
         + MediaWrites(video, false, frames[1..], messageStreamID, chunkSize)
  }

  /** One call more is one write more, typed as the flag stands after the calls
      before it. */
  lemma {:induction false} MediaWritesSnoc(video: bool, first: bool, frames: seq<Frame>, frame: Frame,
                                           messageStreamID: uint32, chunkSize: int64)
    ensures MediaWrites(video, first, frames + [frame], messageStreamID, chunkSize)
      == MediaWrites(video, first, frames, messageStreamID, chunkSize)
         + [MediaWrite(video, first && frames == [], frame, messageStreamID, chunkSize)]
    decreases |frames|
  {
    if frames == [] {
      assert [frame][1..] == [];
    } else {
      assert (frames + [frame])[1..] == frames[1..] + [frame];
      MediaWritesSnoc(video, false, frames[1..], frame, messageStreamID, chunkSize);
    }
  }

  /** On a new stream, the first frame of a kind goes with a type-0 header and
      every later one with a type-1 header, each on the chunk stream of its kind,
      with its own timestamp and bytes. */
  lemma {:induction false} MediaWritesTypes(video: bool, frames: seq<Frame>, messageStreamID: uint32,
                                            chunkSize: int64, i: nat)
    requires i < |frames|
    ensures var e := MediaWrites(video, true, frames, messageStreamID, chunkSize)[i];
      e.Sent? && e.chunkType == (if i == 0 then Type0 else Type1)
      && e.chunkStreamID == (if video then VideoChannel else AudioChannel)
      && e.message.timestamp == frames[i].timestamp && e.message.stored == frames[i].buffer
      && e.message.messageStreamID == messageStreamID
  {
    if i > 0 {
      MediaWritesLater(video, frames[1..], messageStreamID, chunkSize, i - 1);
    }
  }

  /** Once the flag is down, every frame goes with a type-1 header. */
  lemma {:induction false} MediaWritesLater(video: bool, frames: seq<Frame>, messageStreamID: uint32,
                                            chunkSize: int64, i: nat)
    requires i < |frames|
    ensures MediaWrites(video, false, frames, messageStreamID, chunkSize)[i]
      == MediaWrite(video, false, frames[i], messageStreamID, chunkSize)
    decreases i
  {
    if i > 0 {
      MediaWritesLater(video, frames[1..], messageStreamID, chunkSize, i - 1);
    }
  }

  // ---------------------------------------------------------------------------
  // The stream
  // ---------------------------------------------------------------------------

  /** `RTMPStream`. */
  class Stream {
    const socket: Socket
    const statics: Statics
    var isFirstVideoMessage: bool
    var isFirstAudioMessage: bool

    constructor (socket: Socket, statics: Statics)
      ensures this.socket == socket && this.statics == statics
      ensures isFirstVideoMessage && isFirstAudioMessage
    {
      this.socket := socket;
      this.statics := statics;
      isFirstVideoMessage := true;
      isFirstAudioMessage := true;
    }

    /** `publishStream()`. */
    method PublishStream()
      modifies socket`log
      ensures socket.log == old(socket.log)
        + [PublishWrite(socket.stream, socket.app, statics.messageStreamID, socket.outChunkSize)]
    {
      var command := new Message(CommandBody(PublishName, PublishTransaction, []), statics.messageStreamID);
      command.AppendCommandObject(Null);
      command.AppendCommandObject(Str(socket.stream));
      command.AppendCommandObject(Str(socket.app));
      assert command.body == CommandBody(PublishName, PublishTransaction, [Null, Str(socket.stream), Str(socket.app)]);
      socket.WriteMessage(command, Type0, PublishChannel);
    }

    /** `setMetaData(_:)`: every entry of the dictionary goes into the ECMA array
        through `setProperties`, in the dictionary's order. */
    method SetMetaData(metaData: MetaData)
      requires DistinctKeys(metaData)
      modifies socket`log
      ensures socket.log == old(socket.log) + [MetaDataWrite(metaData, statics.messageStreamID, socket.outChunkSize)]
    {
      var data := new Message(DataBody(Some(SetDataFrameName), []), statics.messageStreamID);
      data.AppendDataObject(Str(OnMetaDataName));
      ghost var header := data.Snap();
      var entries := [];
      for i := 0 to |metaData|
        invariant entries == PropertiesOf(metaData[..i])
        invariant data.Snap() == header && socket.log == old(socket.log)
      {
        SetPropertiesStep(metaData, i, entries);
        entries := SetProperty(entries, metaData[i].0, metaData[i].1);
      }
      assert metaData[..|metaData|] == metaData;
      data.AppendDataObject(EcmaArray(entries));
      assert data.body == MetaDataBody(metaData);
      socket.WriteMessage(data, Type0, MetaDataChannel);
    }

    /** `FCUnpublish()`. */
    method FCUnpublish()
      modifies socket`log
      ensures socket.log == old(socket.log) + [FCUnpublishWrite(socket.stream, statics.messageStreamID, socket.outChunkSize)]
    {
      var command := NullAndObjectCommand(FCUnpublishName, FCUnpublishTransaction, statics.messageStreamID, Str(socket.stream));
      socket.WriteMessage(command, Type1, CommandChannel);
    }

    /** `deleteStream()`. */
    method DeleteStream()
      modifies socket`log
      ensures socket.log == old(socket.log) + [DeleteStreamWrite(statics.messageStreamID, socket.outChunkSize)]
    {
      var id := Number(Ieee754.FromInt(statics.messageStreamID as int64));
      var command := NullAndObjectCommand(DeleteStreamName, DeleteStreamTransaction, statics.messageStreamID, id);
      socket.WriteMessage(command, Type1, CommandChannel);
    }

    /** `publishVideo(_:timestamp:)`. */
    method PublishVideo(videoBuffer: seq<byte>, timestamp: uint32)
      modifies socket`log, this`isFirstVideoMessage
      ensures socket.log == old(socket.log)
        + [MediaWrite(true, old(isFirstVideoMessage), Frame(videoBuffer, timestamp), statics.messageStreamID, socket.outChunkSize)]
      ensures !isFirstVideoMessage
    {
      var message := NewMedia(true, videoBuffer, statics.messageStreamID);
      message.timestamp := timestamp;
      var chunkType := if isFirstVideoMessage then Type0 else Type1;
      socket.WriteMessage(message, chunkType, VideoChannel);
      isFirstVideoMessage := false;
    }

    /** `publishAudio(_:timestamp:)`. */
    method PublishAudio(audioBuffer: seq<byte>, timestamp: uint32)
      modifies socket`log, this`isFirstAudioMessage
      ensures socket.log == old(socket.log)
        + [MediaWrite(false, old(isFirstAudioMessage), Frame(audioBuffer, timestamp), statics.messageStreamID, socket.outChunkSize)]
      ensures !isFirstAudioMessage
    {
      var message := NewMedia(false, audioBuffer, statics.messageStreamID);
      message.timestamp := timestamp;
      var chunkType := if isFirstAudioMessage then Type0 else Type1;
      socket.WriteMessage(message, chunkType, AudioChannel);
      isFirstAudioMessage := false;
    }
  }
}
