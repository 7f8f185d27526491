/** `RTMPPublishClient` (Live/RTMP/RTMPPublishClient.swift): the steps that take
    a socket from connection to a published stream, the media metadata merged
    before them, the media frames passed on once the stream exists, and stopping.
    The work the source hands to a dispatch queue runs here in the calling
    thread, and the delegate's `publishStreamHasDone` call stands as the
    `Completed` outcome of `Connect`. */
module PublishClients {
  import opened Wrappers
  import opened Bytes
  import opened AssocLists
  import opened Messages
  import opened Sockets
  import opened Receivers
  import opened Handshakes
  import opened Connectors
  import opened Streams

  // ---------------------------------------------------------------------------
  // Specification
  // ---------------------------------------------------------------------------

  /** What `connect()` starts from: the socket's input position and chunk sizes
      and the static variables. */
  datatype Start = Start(pos: nat, inChunkSize: int64, outChunkSize: int64,
                         windowAckSize: Option<uint32>, messageStreamID: uint32)

  /** How `connect()` ends: how far it got, what it wrote, whether it made a
      stream, the outgoing chunk size and message stream id it leaves, and the
      receiving state after the last reply. */
  datatype Run = Run(progress: Progress, writes: seq<Event>, streamMade: bool,
                     outChunkSize: int64, messageStreamID: uint32, link: Link)

  /** The steps of `connect()` in order: open the socket, the handshake, the
      application connection, the stream creation, then on a new stream
      `publish` and the metadata. A step that hangs or traps ends the run, and a
      missing metadata dictionary traps at `setMetaData`. */
  function ConnectRun(input: seq<byte>, app: seq<byte>, stream: seq<byte>, hostname: seq<byte>,
                      start: Start, now: uint64, random: seq<byte>, metaData: Option<MetaData>): Run
    requires start.pos <= |input| && IsRandomDraw(random)
  {
    var h := SimpleHandshake(input, start.pos, now, random);
    var shaken := [Opened] + h.1;
    var link := Link(start.pos, map[], start.inChunkSize, start.windowAckSize);
    match h.0
    case Stalled => Run(Hung, shaken, false, start.outChunkSize, start.messageStreamID, link)
    case Crashed => Run(Aborted, shaken, false, start.outChunkSize, start.messageStreamID, link)
    case Took(_, pos) =>
      Then(shaken, SessionRun(input, app, stream, hostname, Link(pos, map[], start.inChunkSize, start.windowAckSize),
                              start.outChunkSize, start.messageStreamID, metaData))
  }

  /** The steps after the handshake, on a new receiver: `connectApp`, then the
      stream steps. */
  function SessionRun(input: seq<byte>, app: seq<byte>, stream: seq<byte>, hostname: seq<byte>,
                      link: Link, outChunkSize: int64, messageStreamID: uint32, metaData: Option<MetaData>): Run
    requires link.pos <= |input|
  {
    var connect := ConnectWrites(app, hostname, outChunkSize);
    var e := ExpectCommand(input, link, ConnectTransaction);
    if !ProgressOf(e.0).Completed? then
      Run(ProgressOf(e.0), connect, false, ClientChunkSize, messageStreamID, link)
    else
      Then(connect, StreamRun(input, app, stream, e.1, ClientChunkSize, messageStreamID, metaData))
  }

  /** `createStream`, then on a new stream `publishStream` and `setMetaData`. */
  function StreamRun(input: seq<byte>, app: seq<byte>, stream: seq<byte>, link: Link, outChunkSize: int64,
                     messageStreamID: uint32, metaData: Option<MetaData>): Run
    requires link.pos <= |input|
  {
    StreamAfter(ExpectCommand(input, link, CreateStreamTransaction), app, stream, link, outChunkSize,
                messageStreamID, metaData)
  }

  /** The stream steps, given what the wait for the reply to `createStream` gives. */
  function StreamAfter(e: (Reception, Link), app: seq<byte>, stream: seq<byte>, link: Link, outChunkSize: int64,
                       messageStreamID: uint32, metaData: Option<MetaData>): Run
    requires e.0.Received? ==> e.0.message.body.CommandBody?
  {
    var create := CreateStreamWrites(stream, outChunkSize);
    var (progress, id) := StreamCreated(e.0);
    if !progress.Completed? then Run(progress, create, false, outChunkSize, messageStreamID, link)
    else
      var streamID := if id.Some? then id.value else messageStreamID;
      var published := create + [PublishWrite(stream, app, streamID, outChunkSize)];
      if metaData.None? then Run(Aborted, published, true, outChunkSize, streamID, e.1)
      else Run(Completed, published + [MetaDataWrite(metaData.value, streamID, outChunkSize)],
               true, outChunkSize, streamID, e.1)
  }

  /** A run after some writes already made. */
  function Then(writes: seq<Event>, run: Run): Run
  {
    run.(writes := writes + run.writes)
  }

  /** A write with its contents left out. */
  datatype Label = Open | Raw | Command(name: seq<byte>) | Data(dataType: Option<seq<byte>>)
                 | Control(messageType: MessageType) | Media | Close

  function LabelOf(e: Event): Label
  {
    match e
    case Opened => Open
    case RawWrite(_) => Raw
    case Closed => Close
    case Sent(m, _, _, _) =>
      match m.body
      case CommandBody(name, _, _) => Command(name)
      case DataBody(dataType, _) => Data(dataType)
      case AudioBody => Media
      case VideoBody => Media
      case _ => Control(TypeOf(m.body))
  }

  function Labels(events: seq<Event>): (r: seq<Label>)
    ensures |r| == |events|
    ensures forall i :: 0 <= i < |events| ==> r[i] == LabelOf(events[i])
  {
    if events == [] then [] else [LabelOf(events[0])] + Labels(events[1..])
  }

  /** What `connect()` writes when every step goes through, in order. */
  const ConnectOrder: seq<Label> :=
    [Open, Raw, Raw, Command(ConnectName), Control(SetChunkSize),
     Command(ReleaseStreamName), Command(FCPublishName), Command(CreateStreamName),
     Command(PublishName), Data(Some(SetDataFrameName))]

  lemma {:induction false} LabelsAppend(a: seq<Event>, b: seq<Event>)
    ensures Labels(a + b) == Labels(a) + Labels(b)
    decreases |a|
  {
    if a == [] {
      assert a + b == b;
    } else {
      assert (a + b)[1..] == a[1..] + b;
      LabelsAppend(a[1..], b);
    }
  }

  /** The writes of `run` are a prefix of the steps from `from` on, all of them
      exactly when the run completes, and the run made a stream exactly when it
      wrote at least `made` events. */
  predicate Ordered(run: Run, from: nat, made: int)
    requires from <= |ConnectOrder|
  {
    Labels(run.writes) <= ConnectOrder[from..]
    && (run.progress.Completed? <==> Labels(run.writes) == ConnectOrder[from..])
    && (run.streamMade <==> |run.writes| >= made)
  }

  /** Writes in the order of the steps, followed by a run in order from where they
      stop, are in order. */
  lemma {:induction false} ThenOrdered(writes: seq<Event>, run: Run, from: nat, made: int)
    requires from + |writes| <= |ConnectOrder|
    requires Labels(writes) == ConnectOrder[from..from + |writes|]
    requires Ordered(run, from + |writes|, made - |writes|)
    ensures Ordered(Then(writes, run), from, made)
  {
    LabelsAppend(writes, run.writes);
    assert ConnectOrder[from..] == ConnectOrder[from..from + |writes|] + ConnectOrder[from + |writes|..];
  }

  lemma {:induction false} ConnectWritesLabels(app: seq<byte>, hostname: seq<byte>, outChunkSize: int64)
    ensures Labels(ConnectWrites(app, hostname, outChunkSize)) == ConnectOrder[3..5]
  {
  }

  lemma {:induction false} CreateStreamWritesLabels(stream: seq<byte>, outChunkSize: int64)
    ensures Labels(CreateStreamWrites(stream, outChunkSize)) == ConnectOrder[5..8]
  {
  }

  /** Whatever the server sends, `connect()` writes a prefix of the steps in
      their order, and all of them, the metadata last, exactly when it reaches
      the ready callback; a stream is made only once the stream is created. */
  lemma {:induction false} ConnectRunOrder(input: seq<byte>, app: seq<byte>, stream: seq<byte>, hostname: seq<byte>,
                                           start: Start, now: uint64, random: seq<byte>, metaData: Option<MetaData>)
    requires start.pos <= |input| && IsRandomDraw(random)
    ensures Ordered(ConnectRun(input, app, stream, hostname, start, now, random, metaData), 0, 9)
  {
    var h := SimpleHandshake(input, start.pos, now, random);
    HandshakeLabels(input, start.pos, now, random);
    if h.0.Took? {
      var link := Link(h.0.pos, map[], start.inChunkSize, start.windowAckSize);
      SessionRunOrder(input, app, stream, hostname, link, start.outChunkSize, start.messageStreamID, metaData);
      ThenOrdered([Opened] + h.1, SessionRun(input, app, stream, hostname, link, start.outChunkSize,
                                             start.messageStreamID, metaData), 0, 9);
    }
  }

  /** Once the handshake goes through, the run is the session after the writes of
      the handshake. */
  lemma ConnectRunTook(input: seq<byte>, app: seq<byte>, stream: seq<byte>, hostname: seq<byte>,
                       start: Start, now: uint64, random: seq<byte>, metaData: Option<MetaData>)
    requires start.pos <= |input| && IsRandomDraw(random)
    requires SimpleHandshake(input, start.pos, now, random).0.Took?
    ensures var h := SimpleHandshake(input, start.pos, now, random);
      ConnectRun(input, app, stream, hostname, start, now, random, metaData)
      == Then([Opened] + h.1, SessionRun(input, app, stream, hostname, Link(h.0.pos, map[], start.inChunkSize, start.windowAckSize),
                                         start.outChunkSize, start.messageStreamID, metaData))
  {
  }

  /** Opening the socket and the handshake write the first three steps when the
      handshake goes through, and at most the first two otherwise. */
  lemma {:induction false} HandshakeLabels(input: seq<byte>, pos: nat, now: uint64, random: seq<byte>)
    requires IsRandomDraw(random)
    ensures var h := SimpleHandshake(input, pos, now, random);
      if h.0.Took? then Labels([Opened] + h.1) == ConnectOrder[..3]
      else Labels([Opened] + h.1) <= ConnectOrder[..2]
  {
  }

  /** The steps after the handshake write a prefix of theirs, in order. */
  lemma {:induction false} SessionRunOrder(input: seq<byte>, app: seq<byte>, stream: seq<byte>, hostname: seq<byte>,
                                           link: Link, outChunkSize: int64, messageStreamID: uint32,
                                           metaData: Option<MetaData>)
    requires link.pos <= |input|
    ensures Ordered(SessionRun(input, app, stream, hostname, link, outChunkSize, messageStreamID, metaData), 3, 6)
  {
    var e := ExpectCommand(input, link, ConnectTransaction);
    ConnectWritesLabels(app, hostname, outChunkSize);
    if ProgressOf(e.0).Completed? {
      StreamRunOrder(input, app, stream, e.1, ClientChunkSize, messageStreamID, metaData);
      ThenOrdered(ConnectWrites(app, hostname, outChunkSize),
                  StreamRun(input, app, stream, e.1, ClientChunkSize, messageStreamID, metaData), 3, 6);
    }
  }

  /** The stream steps write a prefix of theirs, in order. */
  lemma {:induction false} StreamRunOrder(input: seq<byte>, app: seq<byte>, stream: seq<byte>, link: Link,
                                          outChunkSize: int64, messageStreamID: uint32, metaData: Option<MetaData>)
    requires link.pos <= |input|
    ensures Ordered(StreamRun(input, app, stream, link, outChunkSize, messageStreamID, metaData), 5, 4)
  {
    StreamAfterOrder(ExpectCommand(input, link, CreateStreamTransaction), app, stream, link, outChunkSize,
                     messageStreamID, metaData);
  }

  lemma {:induction false} StreamAfterOrder(e: (Reception, Link), app: seq<byte>, stream: seq<byte>, link: Link,
                                            outChunkSize: int64, messageStreamID: uint32, metaData: Option<MetaData>)
    requires e.0.Received? ==> e.0.message.body.CommandBody?
    ensures Ordered(StreamAfter(e, app, stream, link, outChunkSize, messageStreamID, metaData), 5, 4)
  {
    var create := CreateStreamWrites(stream, outChunkSize);
    CreateStreamWritesLabels(stream, outChunkSize);
    var (progress, id) := StreamCreated(e.0);
    if progress.Completed? {
      var streamID := if id.Some? then id.value else messageStreamID;
      var published := create + [PublishWrite(stream, app, streamID, outChunkSize)];
      PublishedLabels(create, stream, app, streamID, outChunkSize);
      if metaData.Some? {
        MetaDataLabels(published, metaData.value, streamID, outChunkSize);
      }
    }
  }

  lemma {:induction false} PublishedLabels(create: seq<Event>, stream: seq<byte>, app: seq<byte>,
                                           messageStreamID: uint32, outChunkSize: int64)
    requires Labels(create) == ConnectOrder[5..8]
    ensures Labels(create + [PublishWrite(stream, app, messageStreamID, outChunkSize)]) == ConnectOrder[5..9]
  {
    LabelsAppend(create, [PublishWrite(stream, app, messageStreamID, outChunkSize)]);
  }

  lemma {:induction false} MetaDataLabels(published: seq<Event>, metaData: MetaData, messageStreamID: uint32,
                                          outChunkSize: int64)
    requires Labels(published) == ConnectOrder[5..9]
    ensures Labels(published + [MetaDataWrite(metaData, messageStreamID, outChunkSize)]) == ConnectOrder[5..]
  {
    LabelsAppend(published, [MetaDataWrite(metaData, messageStreamID, outChunkSize)]);
  }

  // ---------------------------------------------------------------------------
  // The client
  // ---------------------------------------------------------------------------

  class PublishClient {
    const socket: Socket
    const statics: Statics
    var mediaMetaData: Option<MetaData>
    var stream: Stream?

    ghost predicate Valid()
      reads this, socket
    {
      socket.Valid()
      && (mediaMetaData.Some? ==> DistinctKeys(mediaMetaData.value))
      && (stream != null ==> stream.socket == socket && stream.statics == statics)
    }

    /** `init(rtmpUrl:)` on a socket already made from the URL. */
    constructor (socket: Socket, statics: Statics)
      requires socket.Valid()
      ensures Valid() && this.socket == socket && this.statics == statics
      ensures mediaMetaData == None && stream == null
    {
      this.socket := socket;
      this.statics := statics;
      mediaMetaData := None;
      stream := null;
    }

    /** What `connect()` starts from. */
    ghost function Starting(): Start
      reads socket, statics
    {
      Start(socket.position, socket.inChunkSize, socket.outChunkSize, statics.inWindowAckSize,
            statics.messageStreamID)
    }

    /** `setMediaMetaData(_:)`: the dictionary is made on first use, then every
        entry of the argument is stored into it. */
    method SetMediaMetaData(metaData: MetaData)
      requires Valid() && DistinctKeys(metaData)
      modifies this`mediaMetaData
      ensures Valid()
      ensures mediaMetaData == Some(Merge(if old(mediaMetaData).Some? then old(mediaMetaData).value else [], metaData))
    {
      if mediaMetaData.None? {
        mediaMetaData := Some([]);
      }
      ghost var into := mediaMetaData.value;
      var merged := mediaMetaData.value;
      for i := 0 to |metaData|
        invariant merged == Merge(into, metaData[..i]) && DistinctKeys(merged)
      {
        MergePrefix(into, metaData, i);
        InsertDistinct(merged, metaData[i].0, metaData[i].1);
        merged := Insert(merged, metaData[i].0, metaData[i].1);
      }
      assert metaData[..|metaData|] == metaData;
      mediaMetaData := Some(merged);
    }

    /** The client stands as `run` leaves it, with `p` as its outcome, given the
        log and the stream before the run. */
    ghost predicate Ended(run: Run, p: Progress, log0: seq<Event>, stream0: Stream?)
      reads this, socket, statics, stream
    {
      p == run.progress && socket.log == log0 + run.writes
      && socket.outChunkSize == run.outChunkSize && statics.messageStreamID == run.messageStreamID
      && (if run.streamMade then stream != null && stream.isFirstVideoMessage && stream.isFirstAudioMessage
          else stream == stream0)
      && (p.Completed? ==> socket.position == run.link.pos && socket.inChunkSize == run.link.inChunkSize
                           && statics.inWindowAckSize == run.link.windowAckSize)
    }

    /** A run that follows some writes leaves the client as the whole does. */
    lemma {:induction false} ThenEnded(writes: seq<Event>, run: Run, p: Progress, log0: seq<Event>, stream0: Stream?)
      requires Ended(run, p, log0 + writes, stream0)
      ensures Ended(Then(writes, run), p, log0, stream0)
    {
      AppendAssociates(log0, writes, run.writes);
    }

    /** `connect()`, with the clock reading and the random bytes of the handshake
        as parameters. */
    method Connect(now: uint64, random: seq<byte>) returns (p: Progress)
      requires Valid() && IsRandomDraw(random)
      modifies socket`log, socket`position, socket`inChunkSize, socket`outChunkSize,
               statics`inWindowAckSize, statics`messageStreamID, this`stream
      ensures Valid()
      ensures var run := ConnectRun(socket.input, socket.app, socket.stream, socket.hostname, old(Starting()),
                                    now, random, mediaMetaData);
        Ended(run, p, old(socket.log), old(stream)) && (run.streamMade ==> fresh(stream))
    {
      ghost var log0, start := socket.log, Starting();
      ghost var handshake := SimpleHandshake(socket.input, start.pos, now, random).1;
      var h := Handshake(now, random);
      if !h.Took? {
        return if h.Stalled? then Hung else Aborted;
      }
      ghost var rest := SessionRun(socket.input, socket.app, socket.stream, socket.hostname,
                                   Link(h.pos, map[], start.inChunkSize, start.windowAckSize),
                                   start.outChunkSize, start.messageStreamID, mediaMetaData);
      p := Session();
      ThenEnded([Opened] + handshake, rest, p, log0, old(stream));
      ConnectRunTook(socket.input, socket.app, socket.stream, socket.hostname, start, now, random, mediaMetaData);
    }

    /** The start of `connect()`: open the socket, then the handshake. */
    method Handshake(now: uint64, random: seq<byte>) returns (h: Step<seq<byte>>)
      requires socket.Valid() && IsRandomDraw(random)
      modifies socket`log, socket`position
      ensures socket.Valid()
      ensures var shake := SimpleHandshake(socket.input, old(socket.position), now, random);
        h == shake.0 && socket.log == old(socket.log) + ([Opened] + shake.1)
      ensures socket.position == if h.Took? then h.pos else old(socket.position)
    {
      ghost var log0 := socket.log;
      socket.Connect();
      h := ShakeSimpleHand(socket, now, random);
      AppendAssociates(log0, [Opened], SimpleHandshake(socket.input, old(socket.position), now, random).1);
    }

    /** The steps of `connect()` after the handshake. */
    method Session() returns (p: Progress)
      requires Valid()
      modifies socket`log, socket`position, socket`inChunkSize, socket`outChunkSize,
               statics`inWindowAckSize, statics`messageStreamID, this`stream
      ensures Valid()
      ensures var run := SessionRun(socket.input, socket.app, socket.stream, socket.hostname,
                                    Link(old(socket.position), map[], old(socket.inChunkSize), old(statics.inWindowAckSize)),
                                    old(socket.outChunkSize), old(statics.messageStreamID), mediaMetaData);
        Ended(run, p, old(socket.log), old(stream)) && (run.streamMade ==> fresh(stream))
    {
      ghost var log0 := socket.log;
      ghost var connect := ConnectWrites(socket.app, socket.hostname, socket.outChunkSize);
      var connector := new Connector(socket, statics);
      p := connector.ConnectApp();
      if p.Completed? {
        ghost var rest := StreamRun(socket.input, socket.app, socket.stream, connector.receiver.State(),
                                    socket.outChunkSize, statics.messageStreamID, mediaMetaData);
        p := StreamSession(connector);
        ThenEnded(connect, rest, p, log0, old(stream));
      }
    }

    /** `createStream`, then on a new stream `publishStream` and `setMetaData`. */
    method StreamSession(connector: Connector) returns (p: Progress)
      requires Valid() && connector.Valid() && connector.socket == socket && connector.statics == statics
      modifies socket`log, socket`position, socket`inChunkSize, connector.receiver`chunkStreams,
               statics`inWindowAckSize, statics`messageStreamID, this`stream
      ensures Valid()
      ensures var run := StreamRun(socket.input, socket.app, socket.stream, old(connector.receiver.State()),
                                   socket.outChunkSize, old(statics.messageStreamID), mediaMetaData);
        Ended(run, p, old(socket.log), old(stream)) && (run.streamMade ==> fresh(stream))
    {
      ghost var log0 := socket.log;
      ghost var create := CreateStreamWrites(socket.stream, socket.outChunkSize);
      ghost var e := ExpectCommand(socket.input, connector.receiver.State(), CreateStreamTransaction);
      ghost var run := StreamAfter(e, socket.app, socket.stream, connector.receiver.State(), socket.outChunkSize,
                                   statics.messageStreamID, mediaMetaData);
      p := connector.CreateStream();
      if !p.Completed? {
        assert Ended(run, p, log0, old(stream));
        return;
      }
      stream := new Stream(socket, statics);
      stream.PublishStream();
      ghost var publish := [PublishWrite(socket.stream, socket.app, statics.messageStreamID, socket.outChunkSize)];
      AppendAssociates(log0, create, publish);
      if mediaMetaData.None? {
        return Aborted;
      }
      stream.SetMetaData(mediaMetaData.value);
      AppendAssociates(log0, create + publish, [MetaDataWrite(mediaMetaData.value, statics.messageStreamID, socket.outChunkSize)]);
      p := Completed;
      assert Ended(run, p, log0, old(stream));
    }

    /** `publishVideo(_:timestamp:)`: nothing happens before a stream exists. */
    method PublishVideo(videoBuffer: seq<byte>, timestamp: uint32)
      requires Valid()
      modifies socket`log, if stream != null then {stream} else {}
      ensures Valid() && stream == old(stream)
      ensures stream == null ==> socket.log == old(socket.log)
      ensures stream != null ==> (!stream.isFirstVideoMessage && stream.isFirstAudioMessage == old(stream.isFirstAudioMessage)
        && socket.log == old(socket.log)
           + [MediaWrite(true, old(stream.isFirstVideoMessage), Frame(videoBuffer, timestamp),
                         statics.messageStreamID, socket.outChunkSize)])
    {
      if stream == null {
        return;
      }
      stream.PublishVideo(videoBuffer, timestamp);
    }

    /** `publishAudio(_:timestamp:)`: nothing happens before a stream exists. */
    method PublishAudio(audioBuffer: seq<byte>, timestamp: uint32)
      requires Valid()
      modifies socket`log, if stream != null then {stream} else {}
      ensures Valid() && stream == old(stream)
      ensures stream == null ==> socket.log == old(socket.log)
      ensures stream != null ==> (!stream.isFirstAudioMessage && stream.isFirstVideoMessage == old(stream.isFirstVideoMessage)
        && socket.log == old(socket.log)
           + [MediaWrite(false, old(stream.isFirstAudioMessage), Frame(audioBuffer, timestamp),
                         statics.messageStreamID, socket.outChunkSize)])
    {
      if stream == null {
        return;
      }
      stream.PublishAudio(audioBuffer, timestamp);
    }

    /** `stop()`: `FCUnpublish` and `deleteStream` when there is a stream, then the
        socket is closed in any case. */
    method Stop()
      requires Valid()
      modifies socket`log
      ensures Valid()
      ensures socket.log == old(socket.log)
        + (if stream != null
           then [FCUnpublishWrite(socket.stream, statics.messageStreamID, socket.outChunkSize),
                 DeleteStreamWrite(statics.messageStreamID, socket.outChunkSize)]
           else [])
        + [Closed]
    {
      if stream != null {
        stream.FCUnpublish();
        stream.DeleteStream();
      }
      socket.Disconnect();
    }
  }
}
