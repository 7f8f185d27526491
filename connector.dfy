/** The commands that open the application connection and create the stream
    (Live/RTMP/RTMPConnector.swift). The server's replies come through the
    receiver of module Receivers. */
module Connectors {
  import opened Wrappers
  import opened Bytes
  import opened AssocLists
  import opened Amf0
  import opened Chunks
  import opened Messages
  import opened Sockets
  import opened Receivers
  import Ieee754

  /** How a step of the client ends: it goes on, it waits for bytes that never
      come, or it traps. */
  datatype Progress = Completed | Hung | Aborted

  /** The progress a reply-waiting step makes. */
  function ProgressOf(r: Reception): (p: Progress)
    ensures p.Completed? <==> r.Received? || r.NoMessage?
    ensures p.Hung? <==> r.Blocked?
  {
    match r
    case Received(_) => Completed
    case NoMessage => Completed
    case Blocked => Hung
    case Trapped => Aborted
  }

  // ---------------------------------------------------------------------------
  // The connect command
  // ---------------------------------------------------------------------------

  const ConnectName := Ascii("connect")
  const ReleaseStreamName := Ascii("releaseStream")
  const FCPublishName := Ascii("FCPublish")
  const CreateStreamName := Ascii("createStream")

  const AppKey := Ascii("app")
  const FlashVerKey := Ascii("flashVer")
  const SwfUrlKey := Ascii("swfUrl")
  const TcUrlKey := Ascii("tcUrl")
  const FpadKey := Ascii("fpad")
  const CapabilitiesKey := Ascii("capabilities")
  const AudioCodecsKey := Ascii("audioCodecs")
  const PageUrlKey := Ascii("pageUrl")
  const ObjectEncodingKey := Ascii("objectEncoding")
  const VideoCodecsKey := Ascii("videoCodecs")
  const VideoFunctionKey := Ascii("videoFunction")

  /** The keys of the connect command object, in the order they are set. */
  const ConnectKeys: seq<seq<byte>> :=
    [AppKey, FlashVerKey, SwfUrlKey, TcUrlKey, FpadKey, CapabilitiesKey, AudioCodecsKey,
     PageUrlKey, ObjectEncodingKey, VideoCodecsKey, VideoFunctionKey]

  const FlashVer := Ascii("FMLE/3.0 (compatible; FMSc/1.0)")

  /** The transaction ids the client numbers its commands with. */
  const ConnectTransaction := 1
  const ReleaseStreamTransaction := 2
  const FCPublishTransaction := 3
  const CreateStreamTransaction := 4

  /** The numbers of the connect command object. */
  const Capabilities: int64 := 239
  const AudioCodecs: int64 := 3575
  const ObjectEncoding: int64 := 0
  const VideoCodecs: int64 := 252
  const VideoFunction: int64 := 1

  /** The chunk size the client announces after `connect`: 1024 * 8. */
  const ClientChunkSize: int64 := 8192

  /** `hostname + "/" + app`. */
  function TcUrl(app: seq<byte>, hostname: seq<byte>): seq<byte>
  {
    hostname + [0x2F] + app
  }

  /** The `setProperties` calls of `connectApp`, in order: each key with the
      value passed for it. */
  function ConnectSettings(app: seq<byte>, hostname: seq<byte>): seq<(seq<byte>, PropertyInput)>
  {
    [(AppKey, StringInput(app)),
     (FlashVerKey, StringInput(FlashVer)),
     (SwfUrlKey, StringInput([])),
     (TcUrlKey, StringInput(TcUrl(app, hostname))),
     (FpadKey, BoolInput(false)),
     (CapabilitiesKey, IntInput(Capabilities)),
     (AudioCodecsKey, IntInput(AudioCodecs)),
     (PageUrlKey, StringInput([])),
     (ObjectEncodingKey, IntInput(ObjectEncoding)),
     (VideoCodecsKey, IntInput(VideoCodecs)),
     (VideoFunctionKey, IntInput(VideoFunction))]
  }

  /** The property dictionary of the connect command object. */
  function ConnectProperties(app: seq<byte>, hostname: seq<byte>): seq<(seq<byte>, Value)>
  {
    PropertiesOf(ConnectSettings(app, hostname))
  }

  /** No two keys of the connect command object are the same. */
  lemma {:induction false} ConnectKeysDistinct()
    ensures forall i, j :: 0 <= i < j < |ConnectKeys| ==> ConnectKeys[i] != ConnectKeys[j]
  {
    assert |AppKey| == 3 && |FlashVerKey| == 8 && |SwfUrlKey| == 6 && |TcUrlKey| == 5;
    assert |FpadKey| == 4 && |CapabilitiesKey| == 12 && |AudioCodecsKey| == 11 && |PageUrlKey| == 7;
    assert |ObjectEncodingKey| == 14 && |VideoCodecsKey| == 11 && |VideoFunctionKey| == 13;
    assert AudioCodecsKey[0] != VideoCodecsKey[0];
  }

  /** `connectApp` sets the eleven keys, in order, each once. */
  lemma {:induction false} ConnectSettingsKeys(app: seq<byte>, hostname: seq<byte>)
    ensures var settings := ConnectSettings(app, hostname);
      |settings| == |ConnectKeys| && (forall i :: 0 <= i < |settings| ==> settings[i].0 == ConnectKeys[i])
      && DistinctKeys(settings)
  {
    var settings := ConnectSettings(app, hostname);
    assert forall i :: 0 <= i < |settings| ==> settings[i].0 == ConnectKeys[i];
    ConnectKeysDistinct();
  }

  /** The property `key` holds a number that reads back as the integer `n`. */
  predicate HoldsInteger(ps: seq<(seq<byte>, Value)>, key: seq<byte>, n: int)
  {
    var v := Lookup(ps, key);
    v.Some? && v.value.Number? && Ieee754.ToInt(v.value.bits) == Some(n)
  }

  /** The keys of the connect command object are the eleven keys, each once. */
  lemma {:induction false} ConnectPropertiesDistinct(app: seq<byte>, hostname: seq<byte>)
    ensures var ps := ConnectProperties(app, hostname);
      Keys(ps) == ConnectKeys && DistinctKeys(ps)
  {
    var ps := ConnectProperties(app, hostname);
    ConnectSettingsKeys(app, hostname);
    assert Keys(ps) == ConnectKeys;
  }

  /** The i-th key of the connect command object holds the i-th value set. */
  lemma {:induction false} ConnectPropertyAt(app: seq<byte>, hostname: seq<byte>, i: nat)
    requires i < |ConnectKeys|
    ensures Lookup(ConnectProperties(app, hostname), ConnectKeys[i])
      == Some(PropertyValue(ConnectSettings(app, hostname)[i].1))
  {
    ConnectSettingsKeys(app, hostname);
    PropertiesOfAt(ConnectSettings(app, hostname), i);
  }

  /** No other key is in the connect command object. */
  lemma {:induction false} ConnectPropertiesAbsent(app: seq<byte>, hostname: seq<byte>, k: seq<byte>)
    requires k !in ConnectKeys
    ensures Lookup(ConnectProperties(app, hostname), k) == None
  {
    var settings := ConnectSettings(app, hostname);
    ConnectSettingsKeys(app, hostname);
    PropertiesOfLookup(settings, k);
    assert Keys(settings) == ConnectKeys;
  }

  /** The connect command object holds exactly the eleven properties, with the
      application name, the flash version, the `tcUrl` built from the host name
      and the application, and the codec numbers. */
  lemma {:induction false} ConnectPropertiesContents(app: seq<byte>, hostname: seq<byte>)
    ensures var ps := ConnectProperties(app, hostname);
      Lookup(ps, AppKey) == Some(Str(app))
      && Lookup(ps, FlashVerKey) == Some(Str(FlashVer))
      && Lookup(ps, SwfUrlKey) == Some(Str([]))
      && Lookup(ps, TcUrlKey) == Some(Str(TcUrl(app, hostname)))
      && Lookup(ps, FpadKey) == Some(Boolean(false))
      && HoldsInteger(ps, CapabilitiesKey, Capabilities)
      && HoldsInteger(ps, AudioCodecsKey, AudioCodecs)
      && Lookup(ps, PageUrlKey) == Some(Str([]))
      && HoldsInteger(ps, ObjectEncodingKey, ObjectEncoding)
      && HoldsInteger(ps, VideoCodecsKey, VideoCodecs)
      && HoldsInteger(ps, VideoFunctionKey, VideoFunction)
      && forall k :: k !in ConnectKeys ==> Lookup(ps, k) == None
  {
    ConnectPropertyAt(app, hostname, 0);
    ConnectPropertyAt(app, hostname, 1);
    ConnectPropertyAt(app, hostname, 2);
    ConnectPropertyAt(app, hostname, 3);
    ConnectPropertyAt(app, hostname, 4);
    ConnectPropertyAt(app, hostname, 5);
    ConnectPropertyAt(app, hostname, 6);
    ConnectPropertyAt(app, hostname, 7);
    ConnectPropertyAt(app, hostname, 8);
    ConnectPropertyAt(app, hostname, 9);
    ConnectPropertyAt(app, hostname, 10);
    forall k | k !in ConnectKeys ensures Lookup(ConnectProperties(app, hostname), k) == None {
      ConnectPropertiesAbsent(app, hostname, k);
    }
  }

  /** The `connect` command: transaction 1, the property object as its only
      command object. */
  function ConnectCommand(app: seq<byte>, hostname: seq<byte>): Body
  {
    CommandBody(ConnectName, ConnectTransaction, [Object(ConnectProperties(app, hostname))])
  }

  /** What `connectApp` writes: `connect` with a type-0 header on the command
      channel, split with the chunk size in force before, then the new chunk size
      on the control channel, split with that size. */
  function ConnectWrites(app: seq<byte>, hostname: seq<byte>, chunkSize: int64): seq<Event>
  {
    [Sent(Snapshot(0, 0, ConnectCommand(app, hostname), []), Type0, CommandChannel, chunkSize),
     Sent(Snapshot(0, 0, SetChunkSizeBody(ClientChunkSize), []), Type0, ControlChannel, ClientChunkSize)]
  }

  // ---------------------------------------------------------------------------
  // The stream commands
  // ---------------------------------------------------------------------------

  /** `releaseStream`, `FCPublish` and `createStream`, each with a type-1 header on
      the command channel. */
  function CreateStreamWrites(stream: seq<byte>, chunkSize: int64): seq<Event>
  {
    [Sent(Snapshot(0, 0, CommandBody(ReleaseStreamName, ReleaseStreamTransaction, [Null, Str(stream)]), []),
          Type1, CommandChannel, chunkSize),
     Sent(Snapshot(0, 0, CommandBody(FCPublishName, FCPublishTransaction, [Null, Str(stream)]), []),
          Type1, CommandChannel, chunkSize),
     Sent(Snapshot(0, 0, CommandBody(CreateStreamName, CreateStreamTransaction, [Null]), []),
          Type1, CommandChannel, chunkSize)]
  }

  /** What `createStream` takes from the reply: the second command object must
      exist (a trap otherwise); when it is a number, it becomes the message stream
      id, which traps unless it converts to `UInt32`; anything else leaves the id
      unset. */
  function StreamIDOf(reply: Snapshot): (r: Outcome<Option<uint32>>)
    requires reply.body.CommandBody?
    ensures r.Fail? ==> false
    ensures r.Ok? && r.value.Some? <==>
      |reply.body.commandObjects| >= 2 && reply.body.commandObjects[1].Number?
      && Ieee754.ToUInt32(reply.body.commandObjects[1].bits).Some?
    ensures r.Ok? && r.value.Some? ==> r.value.value == Ieee754.ToUInt32(reply.body.commandObjects[1].bits).value
    ensures r.Ok? && r.value.None? <==> |reply.body.commandObjects| >= 2 && !reply.body.commandObjects[1].Number?
  {
    var objects := reply.body.commandObjects;
    if |objects| < 2 then Trap
    else match objects[1]
      case Number(bits) =>
        (match Ieee754.ToUInt32(bits)
         case Some(id) => Ok(Some(id))
         case None => Trap)
      case _ => Ok(None)
  }

  /** How `createStream` ends on the reception `expectCommandMessage` ends with,
      and the message stream id it stores, if any. */
  function StreamCreated(reply: Reception): (r: (Progress, Option<uint32>))
    requires reply.Received? ==> reply.message.body.CommandBody?
    ensures r.1.Some? ==> r.0.Completed?
    ensures r.0.Aborted? <==> reply.Trapped? || (reply.Received? && StreamIDOf(reply.message).Trap?)
  {
    if reply.Received? then
      match StreamIDOf(reply.message)
      case Ok(id) => (Completed, id)
      case _ => (Aborted, None)
    else (ProgressOf(reply), None)
  }

  /** A server that answers `createStream` with `_result`, a null and the stream id
      as an AMF0 number gives the client that id. */
  lemma {:induction false} StreamIDOfResult(timestamp: uint32, messageStreamID: uint32, id: uint32,
                                            extra: seq<Value>)
    ensures StreamIDOf(Snapshot(timestamp, messageStreamID,
                                CommandBody(ResultName, CreateStreamTransaction,
                                            [Null, Number(Ieee754.FromInt(id))] + extra), []))
      == Ok(Some(id))
  {
    Ieee754.ToUInt32FromInt(id);
  }

  /** The `setProperties` calls of `connectApp` on a new object, one per row of
      `ConnectSettings`, in order. */
  method ConnectObject(app: seq<byte>, hostname: seq<byte>) returns (properties: seq<(seq<byte>, Value)>)
    ensures properties == ConnectProperties(app, hostname)
  {
    var settings := ConnectSettings(app, hostname);
    ConnectSettingsKeys(app, hostname);
    properties := [];
    for i := 0 to |settings|
      invariant properties == PropertiesOf(settings[..i])
    {
      SetPropertiesStep(settings, i, properties);
      properties := SetProperty(properties, settings[i].0, settings[i].1);
    }
    assert settings[..|settings|] == settings;
  }

  /** The `connect` message of `connectApp`: the command, then its property
      object appended. */
  method ConnectMessage(app: seq<byte>, hostname: seq<byte>) returns (command: Message)
    ensures fresh(command)
    ensures command.Snap() == Snapshot(0, 0, ConnectCommand(app, hostname), [])
  {
    command := new Message(CommandBody(ConnectName, ConnectTransaction, []), 0);
    var properties := ConnectObject(app, hostname);
    command.AppendCommandObject(Object(properties));
  }

  /** `RTMPConnector`: the socket and a receiver of its own; `statics` stands for
      the static variables the source keeps. */
  class Connector {
    const socket: Socket
    const receiver: Receiver
    const statics: Statics

    ghost predicate Valid()
      reads this, receiver, socket
    {
      receiver.socket == socket && receiver.statics == statics && receiver.Valid()
    }

    constructor (socket: Socket, statics: Statics)
      requires socket.Valid()
      ensures Valid() && this.socket == socket && this.statics == statics
      ensures fresh(receiver) && receiver.chunkStreams == map[]
    {
      this.socket := socket;
      this.statics := statics;
      receiver := new Receiver(socket, statics);
    }

    /** The writes of `connectApp()`: `connect`, then the new chunk size, which
        takes effect for every later message. */
    method SendConnect()
      requires Valid()
      modifies socket`log, socket`outChunkSize
      ensures Valid()
      ensures socket.log == old(socket.log) + ConnectWrites(socket.app, socket.hostname, old(socket.outChunkSize))
      ensures socket.outChunkSize == ClientChunkSize
    {
      ghost var writes := ConnectWrites(socket.app, socket.hostname, socket.outChunkSize);
      ghost var log0 := socket.log;
      var command := ConnectMessage(socket.app, socket.hostname);
      socket.WriteMessage(command, Type0, CommandChannel);
      assert socket.log == log0 + writes[..1];

      socket.outChunkSize := ClientChunkSize;
      var setChunkSize := new Message(SetChunkSizeBody(socket.outChunkSize), 0);
      assert setChunkSize.Snap() == writes[1].message;
      socket.WriteMessage(setChunkSize, Type0, ControlChannel);
      assert socket.log == log0 + writes;
    }

    /** `connectApp()`: send `connect` and the new chunk size, then wait for the
        reply to transaction 1 and drop it. */
    method ConnectApp() returns (p: Progress)
      requires Valid()
      modifies socket`log, socket`outChunkSize, socket`position, socket`inChunkSize,
               receiver`chunkStreams, statics`inWindowAckSize
      ensures Valid()
      ensures socket.log == old(socket.log) + ConnectWrites(socket.app, socket.hostname, old(socket.outChunkSize))
      ensures socket.outChunkSize == ClientChunkSize
      ensures var e := ExpectCommand(socket.input, old(receiver.State()), ConnectTransaction);
        p == ProgressOf(e.0) && (p.Completed? ==> receiver.State() == e.1)
    {
      SendConnect();
      var reply, _ := receiver.ExpectCommandMessage(ConnectTransaction);
      p := ProgressOf(reply);
    }

    /** The writes of `createStream()`. */
    method SendStreamCommands()
      requires Valid()
      modifies socket`log
      ensures Valid()
      ensures socket.log == old(socket.log) + CreateStreamWrites(socket.stream, socket.outChunkSize)
    {
      ghost var writes := CreateStreamWrites(socket.stream, socket.outChunkSize);
      ghost var log0 := socket.log;
      var releaseStream := NullAndObjectCommand(ReleaseStreamName, ReleaseStreamTransaction, 0, Str(socket.stream));
      socket.WriteMessage(releaseStream, Type1, CommandChannel);
      assert socket.log == log0 + writes[..1];

      var fcPublish := NullAndObjectCommand(FCPublishName, FCPublishTransaction, 0, Str(socket.stream));
      socket.WriteMessage(fcPublish, Type1, CommandChannel);
      assert socket.log == log0 + writes[..2];

      var createStream := new Message(CommandBody(CreateStreamName, CreateStreamTransaction, []), 0);
      createStream.AppendCommandObject(Null);
      assert createStream.Snap() == writes[2].message;
      socket.WriteMessage(createStream, Type1, CommandChannel);
      assert socket.log == log0 + writes;
    }

    /** `createStream()`: send `releaseStream`, `FCPublish` and `createStream`,
        wait for the reply to transaction 4 and take the message stream id from it. */
    method CreateStream() returns (p: Progress)
      requires Valid()
      modifies socket`log, socket`position, socket`inChunkSize, receiver`chunkStreams,
               statics`inWindowAckSize, statics`messageStreamID
      ensures Valid()
      ensures socket.log == old(socket.log) + CreateStreamWrites(socket.stream, socket.outChunkSize)
      ensures var e := ExpectCommand(socket.input, old(receiver.State()), CreateStreamTransaction);
        var (progress, id) := StreamCreated(e.0);
        p == progress && (e.0.Received? ==> receiver.State() == e.1)
        && statics.messageStreamID == if id.Some? then id.value else old(statics.messageStreamID)
    {
      SendStreamCommands();
      ghost var e := ExpectCommand(socket.input, receiver.State(), CreateStreamTransaction);
      var reply, _ := receiver.ExpectCommandMessage(CreateStreamTransaction);
      assert reply == e.0;
      if !reply.Received? {
        return ProgressOf(reply);
      }
      var id := StreamIDOf(reply.message);
      if id.Trap? {
        return Aborted;
      }
      if id.value.Some? {
        statics.messageStreamID := id.value.value;
      }
      p := Completed;
    }
  }
}
