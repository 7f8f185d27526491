/** `RTMPReceiver` (Live/RTMP/RTMPReceiver.swift): reading one message from the
    chunk stream, making a message object of it, acting on the control messages
    that change the receiving side, and waiting for the reply to a command.

    The functions give what happens as a function of the server's bytes and of
    the receiving state `Link`; the class `Receiver` does it with the source's
    reads and loops and is proved to agree with them. */
module Receivers {
  import opened Wrappers
  import opened Bytes
  import opened Chunks
  import opened Messages
  import opened Sockets
  import opened Framing

  // ---------------------------------------------------------------------------
  // Specification
  // ---------------------------------------------------------------------------

  /** What the receiving side keeps between messages: the input position, the
      chunk stream table, the socket's `inChunkSize` and `RTMPChunk.inWindowAckSize`. */
  datatype Link = Link(pos: nat, streams: ChunkStreams, inChunkSize: int64, windowAckSize: Option<uint32>)

  /** How reading a message ends: with a message, with `nil` (an empty message or a
      type `create` has no subclass for), blocked in a read, or on a trap. */
  datatype Reception = Received(message: Snapshot) | NoMessage | Blocked | Trapped

  /** The message a completed chunk stream makes: `create` on its type (a `nil`
      type traps at the force unwrap, a type without a subclass gives `nil`), then
      the timestamp and stream id (a `nil` field traps), then the payload through
      the setter, which decodes the fields of a non-media message. */
  function MessageFrom(info: ChunkInfo, payload: seq<byte>): (r: Outcome<Snapshot>)
    ensures r.Fail? <==> info.messageType.Some? && info.messageType.value !in CreatableTypes
    ensures r.Ok? ==> (info.messageType == Some(TypeOf(r.value.body)) &&
      info.timestamp == Some(r.value.timestamp) && info.messageStreamID == Some(r.value.messageStreamID))
  {
    if info.messageType.None? then Trap
    else
      var created := Create(info.messageType.value);
      if created.None? then Fail
      else if info.timestamp.None? || info.messageStreamID.None? then Trap
      else if IsMedia(created.value) then Ok(Snapshot(info.timestamp.value, info.messageStreamID.value, created.value, payload))
      else
        var decoded := DecodeBody(created.value, [], payload);
        if decoded.Ok? then Ok(Snapshot(info.timestamp.value, info.messageStreamID.value, decoded.value, []))
        else Trap
  }

  /** `m` is what a freshly created message of its type becomes when `payload` is
      set: audio and video keep the payload, the others decode their fields from it
      and keep an empty cache. */
  predicate Carries(m: Snapshot, payload: seq<byte>)
  {
    TypeOf(m.body) in CreatableTypes &&
    if IsMedia(m.body) then m.stored == payload
    else m.stored == [] && DecodeBody(Create(TypeOf(m.body)).value, [], payload) == Ok(m.body)
  }

  function Delivered(o: Outcome<Snapshot>): Reception
  {
    match o
    case Ok(m) => Received(m)
    case Fail => NoMessage
    case Trap => Trapped
  }

  /** `readInterlacedMessage`: the chunk loop, then the message. On a trap or a
      blocked read the state is given as it was, since the client goes no further. */
  function ReadMessage(input: seq<byte>, s: Link): (r: (Reception, Link))
    requires s.pos <= |input|
    ensures r.0.Received? || r.0.NoMessage? ==>
      s.pos < r.1.pos <= |input| && r.1.inChunkSize == s.inChunkSize && r.1.windowAckSize == s.windowAckSize
    ensures r.0.Blocked? || r.0.Trapped? ==> r.1 == s
  {
    var t := ReadInterlaced(input, s.pos, s.streams, s.inChunkSize, None, []);
    var s' := s.(pos := t.pos, streams := t.streams);
    match t.framed
    case FramingStalled => (Blocked, s)
    case FramingCrashed => (Trapped, s)
    case EmptyMessage => (NoMessage, s')
    case Assembled(info, payload) =>
      var r := Delivered(MessageFrom(info, payload));
      if r.Trapped? then (r, s) else (r, s')
  }

  /** `handleReceivedMessage`: a set-chunk-size message sets the incoming chunk
      size, a window-ack-size message sets `inWindowAckSize`, and no other message
      changes anything. */
  function Handle(m: Snapshot, s: Link): (r: Link)
    ensures r.pos == s.pos && r.streams == s.streams
    ensures r.inChunkSize == if m.body.SetChunkSizeBody? then m.body.chunkSize else s.inChunkSize
    ensures r.windowAckSize == if m.body.WindowAckSizeBody? then m.body.windowAckSize else s.windowAckSize
  {
    match m.body
    case SetChunkSizeBody(n) => s.(inChunkSize := n)
    case WindowAckSizeBody(w) => s.(windowAckSize := w)
    case _ => s
  }

  /** `receiveMessage`: a message read is handled before it is returned. */
  function Receive(input: seq<byte>, s: Link): (r: (Reception, Link))
    requires s.pos <= |input|
    ensures r.0 == ReadMessage(input, s).0
    ensures r.0.Received? ==> r.1 == Handle(r.0.message, ReadMessage(input, s).1)
    ensures !r.0.Received? ==> r.1 == ReadMessage(input, s).1
    ensures r.0.Received? || r.0.NoMessage? ==> s.pos < r.1.pos <= |input|
  {
    var (got, s') := ReadMessage(input, s);
    if got.Received? then (got, Handle(got.message, s')) else (got, s')
  }

  /** "_result" and "_error". */
  const ResultName: seq<byte> := Ascii("_result")
  const ErrorName: seq<byte> := Ascii("_error")

  /** A reply to the command with the given transaction id. */
  predicate IsReply(m: Snapshot, transactionID: int)
  {
    m.body.CommandBody? && (m.body.commandName == ResultName || m.body.commandName == ErrorName) &&
    m.body.transactionID == transactionID
  }

  /** `expectCommandMessage`: messages are received, and handled, until one is the
      reply to `transactionID`; everything before it is dropped. It ends only with
      that reply, blocked, or on a trap. */
  function ExpectCommand(input: seq<byte>, s: Link, transactionID: int): (r: (Reception, Link))
    requires s.pos <= |input|
    ensures r.0.Received? || r.0.Blocked? || r.0.Trapped?
    ensures r.0.Received? ==> IsReply(r.0.message, transactionID) && s.pos < r.1.pos <= |input|
    decreases |input| - s.pos
  {
    var (got, s') := Receive(input, s);
    if got.Received? && IsReply(got.message, transactionID) then (got, s')
    else if got.Received? || got.NoMessage? then ExpectCommand(input, s', transactionID)
    else (got, s')
  }

  // ---------------------------------------------------------------------------
  // Properties
  // ---------------------------------------------------------------------------

  /** When the chunk loop assembles a payload on an entry holding the header fields
      of `m`, and the payload carries `m` (for the bytes `splitMessage` writes,
      `Framing.ReadSplitMessage` gives the first and `SentMessageCarried` the
      second), reading gives `m`. */
  lemma {:induction false} ReadCarried(input: seq<byte>, s: Link, payload: seq<byte>, end: nat, streams: ChunkStreams,
                                       m: Snapshot)
    requires s.pos <= |input| && Carries(m, payload)
    requires ReadInterlaced(input, s.pos, s.streams, s.inChunkSize, None, [])
      == Finished(Assembled(Type0Entry(m.timestamp, m.messageStreamID, RawValue(TypeOf(m.body))), payload), end, streams)
    ensures ReadMessage(input, s) == (Received(m), s.(pos := end, streams := streams))
  {
    var info := Type0Entry(m.timestamp, m.messageStreamID, RawValue(TypeOf(m.body)));
    assert MessageFrom(info, payload) == Ok(m) by {
      MessageTypeRoundTrip(TypeOf(m.body));
      MessageFromCarried(info, m, payload);
    }
    ReadAssembled(input, s, info, payload, end, streams, m);
  }

  /** A message assembled by the chunk loop, from which a message is made. */
  lemma {:induction false} ReadAssembled(input: seq<byte>, s: Link, info: ChunkInfo, payload: seq<byte>,
                                         end: nat, streams: ChunkStreams, m: Snapshot)
    requires s.pos <= |input|
    requires ReadInterlaced(input, s.pos, s.streams, s.inChunkSize, None, []) == Finished(Assembled(info, payload), end, streams)
    requires MessageFrom(info, payload) == Ok(m)
    ensures ReadMessage(input, s) == (Received(m), s.(pos := end, streams := streams))
  {
  }

  /** The message made from a payload is the one the payload carries, with the
      entry's header fields: `MessageFrom` is the inverse of `Carries`. */
  lemma {:induction false} MessageFromCarried(info: ChunkInfo, m: Snapshot, payload: seq<byte>)
    requires info == ChunkInfo(Some(m.timestamp), Some(m.messageStreamID), Some(TypeOf(m.body)))
    ensures MessageFrom(info, payload) == Ok(m) <==> Carries(m, payload)
  {
    if Carries(m, payload) {
      var created := Create(TypeOf(m.body)).value;
      assert TypeOf(created) == TypeOf(m.body);
    }
  }

  /** A control, command or data message the sender writes comes back with the
      fields it was sent with, provided its payload encodes; an audio or video
      message comes back with its payload. */
  lemma {:induction false} SentMessageCarried(m: Snapshot)
    requires BodyEncodable(m.body) && m.stored == []
    requires IsControl(m.body) ==> EncodeControl(m.body).Ok?
    requires m.body.SetChunkSizeBody? ==> -0x8000_0000 <= m.body.chunkSize < 0x8000_0000
    requires m.body.AbortBody? ==> m.body.chunkStreamID.Some?
    requires m.body.AcknowledgementBody? ==> m.body.sequenceNumber.Some?
    requires m.body.WindowAckSizeBody? ==> m.body.windowAckSize.Some?
    requires m.body.CommandBody? ==> (|m.body.commandName| <= 0xFFFF &&
      -Ieee754.Two53 < m.body.transactionID < Ieee754.Two53 &&
      ValuesEncodable(m.body.commandObjects) && ValuesRoundTrip(m.body.commandObjects))
    requires m.body.DataBody? ==> (m.body.dataType.Some? && |m.body.dataType.value| <= 0xFFFF &&
      ValuesEncodable(m.body.objects) && ValuesRoundTrip(m.body.objects))
    requires !IsMedia(m.body)
    ensures EncodeBody(m.body).Ok? && Carries(m, EncodeBody(m.body).value)
  {
    match m.body
    case CommandBody(name, transactionID, objects) =>
      CommandRoundTrip(name, transactionID, objects);
    case DataBody(t, objects) =>
      DataRoundTrip(t.value, objects);
    case _ =>
      ControlRoundTrip(m.body);
  }

  /** The reply comes back when it is the first message: receiving it ends the
      wait with it. */
  lemma {:induction false} ExpectReplyFirst(input: seq<byte>, s: Link, transactionID: int)
    requires s.pos <= |input|
    requires Receive(input, s).0.Received? && IsReply(Receive(input, s).0.message, transactionID)
    ensures ExpectCommand(input, s, transactionID) == Receive(input, s)
  {
  }

  /** Any message that is not the reply is dropped, after being handled. */
  lemma {:induction false} ExpectSkips(input: seq<byte>, s: Link, transactionID: int)
    requires s.pos <= |input|
    requires var got := Receive(input, s).0;
      got.NoMessage? || (got.Received? && !IsReply(got.message, transactionID))
    ensures ExpectCommand(input, s, transactionID) == ExpectCommand(input, Receive(input, s).1, transactionID)
  {
  }

  // ---------------------------------------------------------------------------
  // The receiver
  // ---------------------------------------------------------------------------

  class Receiver {
    const socket: Socket
    const statics: Statics
    /** The header fields last seen on each chunk stream. */
    var chunkStreams: ChunkStreams

    ghost predicate Valid()
      reads this, socket
    {
      socket.Valid()
    }

    /** The receiving state. */
    ghost function State(): Link
      reads this, socket, statics
    {
      Link(socket.position, chunkStreams, socket.inChunkSize, statics.inWindowAckSize)
    }

    constructor (socket: Socket, statics: Statics)
      requires socket.Valid()
      ensures Valid() && this.socket == socket && this.statics == statics && chunkStreams == map[]
    {
      this.socket := socket;
      this.statics := statics;
      chunkStreams := map[];
    }

    /** `readBasicHeader` as written: in the three-byte form the high byte is
        shifted left by 8 as an 8-bit value, which leaves 0, so only the low byte
        counts. */
    method ReadBasicHeader() returns (r: Step<(nat, nat)>)
      requires Valid()
      modifies socket`position
      ensures Valid()
      ensures r == BasicHeaderAsWritten(socket.input, old(socket.position))
      ensures r.Took? ==> socket.position == r.pos
    {
      var first := socket.Read(1);
      if !first.Took? {
        return Stalled;
      }
      var fmt := first.value[0] / 64;
      var id := first.value[0] % 64;
      if id > 1 {
        return Took((fmt, id), socket.position);
      }
      if id == 0 {
        var next := socket.Read(1);
        if !next.Took? {
          return Stalled;
        }
        return Took((fmt, next.value[0] as int + 64), socket.position);
      }
      var idInBytes := socket.Read(2);
      if !idInBytes.Took? {
        return Stalled;
      }
      var shifted := (idInBytes.value[1] as int * 256) % 256;
      return Took((fmt, shifted + idInBytes.value[0] as int + 64), socket.position);
    }

    /** The extended timestamp, when the 3-byte field was `ff ff ff`. */
    method ReadExtendedTimestamp(extended: bool, info: ChunkInfo, length: Option<int>)
      returns (r: Step<(ChunkInfo, Option<int>)>)
      requires Valid()
      modifies socket`position
      ensures Valid()
      ensures r == ExtendedAt(socket.input, old(socket.position), extended, info, length)
      ensures r.Took? ==> socket.position == r.pos
    {
      if !extended {
        return Took((info, length), socket.position);
      }
      var bytes := socket.Read(4);
      if !bytes.Took? {
        return Stalled;
      }
      return Took((info.(timestamp := Some(BigEndianWord(bytes.value))), length), socket.position);
    }

    /** `readMessageHeader` on the entry `info` of the chunk stream: the entry
        afterwards and the payload length. */
    method ReadMessageHeader(fmt: nat, info: ChunkInfo, first: bool, length: Option<int>)
      returns (r: Step<(ChunkInfo, Option<int>)>)
      requires Valid() && fmt < 4
      modifies socket`position
      ensures Valid()
      ensures r == MessageHeaderAt(socket.input, old(socket.position), fmt, info, first, length)
      ensures r.Took? ==> socket.position == r.pos
    {
      if fmt == 3 {
        if first {
          return Crashed;
        }
        return Took((info, length), socket.position);
      }
      var field := socket.Read(3);
      if !field.Took? {
        return Stalled;
      }
      var delta := FromBigEndian(field.value);
      var stamped := Stamp(fmt, delta, info);
      if stamped.Trap? {
        return Crashed;
      }
      if fmt == 2 {
        r := ReadExtendedTimestamp(delta >= ExtendedTimestamp, stamped.value, length);
        return;
      }
      var len := socket.Read(3);
      if !len.Took? {
        return Stalled;
      }
      var messageType := socket.Read(1);
      if !messageType.Took? {
        return Stalled;
      }
      var typed := stamped.value.(messageType := MessageTypeOf(messageType.value[0]));
      var declared := Some(FromBigEndian(len.value));
      if fmt == 1 {
        r := ReadExtendedTimestamp(delta >= ExtendedTimestamp, typed, declared);
        return;
      }
      var bytes := socket.Read(4);
      if !bytes.Took? {
        return Stalled;
      }
      r := ReadExtendedTimestamp(delta >= ExtendedTimestamp, typed.(messageStreamID := Some(NativeWord(bytes.value))), declared);
    }

    /** `readMessagePayload`: the buffer with the next piece appended. */
    method ReadMessagePayload(length: Option<int>, buffer: seq<byte>) returns (r: Step<seq<byte>>)
      requires Valid()
      modifies socket`position
      ensures Valid()
      ensures r == PayloadAt(socket.input, old(socket.position), length, buffer, socket.inChunkSize)
      ensures r.Took? ==> socket.position == r.pos
    {
      if length.None? {
        return Crashed;
      }
      var size := Min(length.value - |buffer|, socket.inChunkSize);
      if size < 0 {
        return Crashed;
      }
      var bytes := socket.Read(size);
      if !bytes.Took? {
        return Stalled;
      }
      return Took(buffer + bytes.value, socket.position);
    }

    /** One turn of the chunk loop: the three reads, with the chunk stream's entry
        stored in the table. */
    method ReadChunk(length: Option<int>, buffer: seq<byte>) returns (t: Turn)
      requires Valid()
      modifies socket`position, this`chunkStreams
      ensures Valid()
      ensures t == ChunkTurn(socket.input, old(socket.position), old(chunkStreams), socket.inChunkSize, length, buffer)
      ensures t.More? || t.framed.Assembled? || t.framed.EmptyMessage? ==>
        socket.position == t.pos && chunkStreams == t.streams
    {
      var start := socket.position;
      var streams := chunkStreams;
      var h := ReadBasicHeader();
      if !h.Took? {
        return Finished(FramingStalled, start, streams);
      }
      var (fmt, chunkStreamID) := h.value;
      var m := ReadMessageHeader(fmt, EntryOf(streams, chunkStreamID), length.None?, length);
      if m.Stalled? {
        return Finished(FramingStalled, start, streams);
      }
      if m.Crashed? {
        return Finished(FramingCrashed, start, streams);
      }
      var (info, length') := m.value;
      chunkStreams := streams[chunkStreamID := info];
      var b := ReadMessagePayload(length', buffer);
      if b.Stalled? {
        return Finished(FramingStalled, start, streams);
      }
      if b.Crashed? {
        return Finished(FramingCrashed, start, streams);
      }
      if length'.value <= 0 {
        return Finished(EmptyMessage, b.pos, chunkStreams);
      }
      if length'.value == |b.value| {
        return Finished(Assembled(info, b.value), b.pos, chunkStreams);
      }
      return More(length', b.value, b.pos, chunkStreams);
    }

    /** `RTMPMessage.create` and the field assignments that follow it. */
    method NewMessage(info: ChunkInfo, payload: seq<byte>) returns (r: Reception, m: Message?)
      ensures r == Delivered(MessageFrom(info, payload))
      ensures (m != null) == r.Received?
      ensures m != null ==> fresh(m) && m.Snap() == r.message
    {
      if info.messageType.None? {
        return Trapped, null;
      }
      var created := Create(info.messageType.value);
      if created.None? {
        return NoMessage, null;
      }
      var message := new Message(created.value, 0);
      if info.timestamp.None? {
        return Trapped, null;
      }
      message.timestamp := info.timestamp.value;
      if info.messageStreamID.None? {
        return Trapped, null;
      }
      message.messageStreamID := info.messageStreamID.value;
      var trapped := message.SetPayload(payload);
      if trapped {
        return Trapped, null;
      }
      return Received(message.Snap()), message;
    }

    /** `readInterlacedMessage`: chunks are read until a message is complete. */
    method ReadInterlacedMessage() returns (r: Reception, m: Message?)
      requires Valid()
      modifies socket`position, this`chunkStreams
      ensures Valid()
      ensures r == ReadMessage(socket.input, old(State())).0
      ensures r.Received? || r.NoMessage? ==> State() == ReadMessage(socket.input, old(State())).1
      ensures (m != null) == r.Received?
      ensures m != null ==> fresh(m) && m.Snap() == r.message
    {
      ghost var s0 := State();
      var length: Option<int> := None;
      var buffer: seq<byte> := [];
      while true
        invariant Valid() && socket.inChunkSize == s0.inChunkSize && statics.inWindowAckSize == s0.windowAckSize
        invariant ReadInterlaced(socket.input, socket.position, chunkStreams, s0.inChunkSize, length, buffer)
          == ReadInterlaced(socket.input, s0.pos, s0.streams, s0.inChunkSize, None, [])
        decreases |socket.input| - socket.position
      {
        ghost var pos, streams := socket.position, chunkStreams;
        var turn := ReadChunk(length, buffer);
        ReadInterlacedUnfold(socket.input, pos, streams, s0.inChunkSize, length, buffer);
        if turn.More? {
          length, buffer := turn.length, turn.buffer;
        } else {
          match turn.framed
          case FramingStalled =>
            return Blocked, null;
          case FramingCrashed =>
            return Trapped, null;
          case EmptyMessage =>
            return NoMessage, null;
          case Assembled(info, payload) =>
            r, m := NewMessage(info, payload);
            return;
        }
      }
    }

    /** `handleReceivedMessage`. */
    method HandleReceivedMessage(m: Snapshot)
      modifies socket`inChunkSize, statics`inWindowAckSize
      ensures State() == Handle(m, old(State()))
    {
      match m.body
      case SetChunkSizeBody(n) =>
        socket.inChunkSize := n;
      case WindowAckSizeBody(w) =>
        statics.inWindowAckSize := w;
      case _ =>
    }

    /** `receiveMessage`. */
    method ReceiveMessage() returns (r: Reception, m: Message?)
      requires Valid()
      modifies socket`position, socket`inChunkSize, this`chunkStreams, statics`inWindowAckSize
      ensures Valid()
      ensures r == Receive(socket.input, old(State())).0
      ensures r.Received? || r.NoMessage? ==> State() == Receive(socket.input, old(State())).1
      ensures (m != null) == r.Received?
      ensures m != null ==> fresh(m) && m.Snap() == r.message
    {
      r, m := ReadInterlacedMessage();
      if r.Received? {
        HandleReceivedMessage(r.message);
      }
    }

    /** `expectCommandMessage`: the loop that drops everything but the reply. */
    method ExpectCommandMessage(transactionID: int) returns (r: Reception, m: Message?)
      requires Valid()
      modifies socket`position, socket`inChunkSize, this`chunkStreams, statics`inWindowAckSize
      ensures Valid()
      ensures r == ExpectCommand(socket.input, old(State()), transactionID).0
      ensures r.Received? ==> State() == ExpectCommand(socket.input, old(State()), transactionID).1
      ensures (m != null) == r.Received?
      ensures m != null ==> fresh(m) && m.Snap() == r.message
    {
      ghost var s0 := State();
      while true
        invariant Valid()
        invariant ExpectCommand(socket.input, State(), transactionID) == ExpectCommand(socket.input, s0, transactionID)
        decreases |socket.input| - socket.position
      {
        ghost var s := State();
        r, m := ReceiveMessage();
        if r.Received? && IsReply(r.message, transactionID) {
          return;
        }
        if r.Blocked? || r.Trapped? {
          return r, null;
        }
      }
    }
  }
}
