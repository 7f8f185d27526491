/** The transport the RTMP classes talk to. Live/RTMP/RTMPSocket.swift is a stub
    whose reads return nothing and whose writes send nothing, and the members the
    other classes call on it (`read()`, `read3Bytes()`, `read(_:maxLength:)`,
    `write(message:chunkType:chunkStreamID:)`, `write(data:)`, `write(bytes:)`,
    `inChunkSize`, `outChunkSize`, `app`, `stream`, `hostname`) are not defined
    there. Here the socket is the sequence of bytes the server sends plus a log of
    what the client does. Reads block until they have all the bytes they ask for,
    so a read past the end of the input stalls the client for good. */
module Sockets {
  import opened Wrappers
  import opened Bytes
  import opened Chunks
  import opened Messages

  /** How one reading step of the client ends: with a value and the input position
      after it, stalled in a read that never completes, or on a run-time trap. */
  datatype Step<+T> = Took(value: T, pos: nat) | Stalled | Crashed

  /** What the client does to the connection, in order. A message write records the
      message as it is when written, the chunk header type, the chunk stream id and
      the outgoing chunk size it is split with. */
  datatype Event =
    | Opened
    | RawWrite(bytes: seq<byte>)
    | Sent(message: Snapshot, chunkType: ChunkType, chunkStreamID: uint16, chunkSize: int64)
    | Closed

  /** The bytes a `Read(n)` at `pos` gets, or `Stalled`. */
  function ReadAt(data: seq<byte>, pos: nat, n: nat): (r: Step<seq<byte>>)
    ensures r.Took? <==> pos + n <= |data|
    ensures r.Took? ==> r.pos == pos + n && r.value == data[pos..pos + n]
    ensures !r.Crashed?
  {
    if pos + n <= |data| then Took(data[pos..pos + n], pos + n) else Stalled
  }

  class Socket {
    /** Everything the server sends. */
    const input: seq<byte>
    /** How much of it the client has read. */
    var position: nat
    var inChunkSize: int64
    var outChunkSize: int64
    const app: seq<byte>
    const stream: seq<byte>
    const hostname: seq<byte>
    var log: seq<Event>

    ghost predicate Valid()
      reads this
    {
      position <= |input|
    }

    constructor (input: seq<byte>, inChunkSize: int64, outChunkSize: int64,
                 app: seq<byte>, stream: seq<byte>, hostname: seq<byte>)
      ensures Valid() && this.input == input && position == 0
      ensures this.inChunkSize == inChunkSize && this.outChunkSize == outChunkSize
      ensures this.app == app && this.stream == stream && this.hostname == hostname
      ensures log == []
    {
      this.input := input;
      position := 0;
      this.inChunkSize := inChunkSize;
      this.outChunkSize := outChunkSize;
      this.app := app;
      this.stream := stream;
      this.hostname := hostname;
      log := [];
    }

    /** A blocking read of exactly `n` bytes. */
    method Read(n: nat) returns (r: Step<seq<byte>>)
      requires Valid()
      modifies this`position
      ensures Valid()
      ensures r == ReadAt(input, old(position), n)
      ensures position == if r.Took? then r.pos else old(position)
    {
      r := ReadAt(input, position, n);
      if r.Took? {
        position := r.pos;
      }
    }

    method Connect()
      modifies this`log
      ensures log == old(log) + [Opened]
    {
      log := log + [Opened];
    }

    method Disconnect()
      modifies this`log
      ensures log == old(log) + [Closed]
    {
      log := log + [Closed];
    }

    /** `write(data:)` and `write(bytes:)`. */
    method Write(bytes: seq<byte>)
      modifies this`log
      ensures log == old(log) + [RawWrite(bytes)]
    {
      log := log + [RawWrite(bytes)];
    }

    /** `write(message:chunkType:chunkStreamID:)`. */
    method WriteMessage(m: Message, chunkType: ChunkType, chunkStreamID: uint16)
      modifies this`log
      ensures log == old(log) + [Sent(m.Snap(), chunkType, chunkStreamID, outChunkSize)]
    {
      log := log + [Sent(m.Snap(), chunkType, chunkStreamID, outChunkSize)];
    }
  }

  /** The static variables the source keeps: `RTMPStream.messageStreamID` and
      `RTMPChunk.inWindowAckSize`. */
  class Statics {
    var messageStreamID: uint32
    var inWindowAckSize: Option<uint32>

    constructor ()
      ensures messageStreamID == 0 && inWindowAckSize == None
    {
      messageStreamID := 0;
      inWindowAckSize := None;
    }
  }
}
