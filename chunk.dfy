/** The sender side of RTMP chunking (Live/RTMP/RTMPChunk.swift): the chunk stream
    ids the client uses and `RTMPChunk.splitMessage`. Sections 5.3.1.1 to 5.3.1.3 of
    the Adobe RTMP 1.0 specification describe the layout. `Chunked` is the byte string
    `splitMessage` returns, and the `Split` method computes it with the source's loop.
    `Dechunk` undoes the body's division into chunks. */
module Chunks {
  import opened Wrappers
  import opened Bytes

  /** The chunk stream ids `RTMPChunk` names. */
  const ControlChannel: uint16 := 0x02
  const CommandChannel: uint16 := 0x03
  const AudioChannel: uint16 := 0x05
  const VideoChannel: uint16 := 0x06

  /** `RTMPChunk.outWindowAckChunkSize`. */
  const OutWindowAckChunkSize: uint32 := 2500 * 1000

  /** A timestamp at or above this value is sent as `ff ff ff` plus an extended field. */
  const ExtendedTimestamp: nat := 0xFFFFFF

  /** `ChunkMessageHeaderType`: the `fmt` field of a basic header. */
  datatype ChunkType = Type0 | Type1 | Type2 | Type3

  function Fmt(t: ChunkType): (r: nat)
    ensures r < 4
  {
    match t
    case Type0 => 0
    case Type1 => 1
    case Type2 => 2
    case Type3 => 3
  }

  function ChunkTypeOf(fmt: nat): (t: ChunkType)
    requires fmt < 4
    ensures Fmt(t) == fmt
  {
    if fmt == 0 then Type0 else if fmt == 1 then Type1 else if fmt == 2 then Type2 else Type3
  }

  /** The basic header: one byte holding `fmt` in its top two bits and the low six
      bits of the chunk stream id. Only type 0 and type 1 chunks get one. */
  function BasicHeader(t: ChunkType, chunkStreamID: uint16): (r: seq<byte>)
    ensures |r| == if t == Type0 || t == Type1 then 1 else 0
    ensures |r| == 1 ==> r[0] / 64 == Fmt(t) && r[0] % 64 == chunkStreamID % 64
  {
    match t
    case Type0 => [chunkStreamID % 64]
    case Type1 => [0x40 + chunkStreamID % 64]
    case _ => []
  }

  /** The byte that opens every continuation chunk: a type-3 basic header. */
  function Separator(chunkStreamID: uint16): (r: byte)
    ensures r / 64 == Fmt(Type3) && r % 64 == chunkStreamID % 64
  {
    0xC0 + chunkStreamID % 64
  }

  /** Bytes 1 to 3 of the 4-byte big-endian view of `x`. */
  function Low3(x: uint32): (r: seq<byte>)
  {
    BigEndian(x, 4)[1..]
  }

  /** Those bytes are the low 24 bits of `x`, most significant first. */
  lemma {:induction false} Low3Value(x: uint32)
    ensures Low3(x) == BigEndian(x % 0x100_0000, 3)
    ensures FromBigEndian(Low3(x)) == x % 0x100_0000
  {
    var bs := BigEndian(x, 4);
    var low := bs[1..];
    BigEndianRoundTrip(x, 4);
    BigEndian4(bs);
    BigEndian3(low);
    assert low[0] == bs[1] && low[1] == bs[2] && low[2] == bs[3];
    assert FromBigEndian(low) == x % 0x100_0000;
    BigEndianOfValue(low);
  }

  /** The 3-byte timestamp field. */
  function TimestampField(timestamp: uint32): (r: seq<byte>)
    ensures |r| == 3
    ensures timestamp >= ExtendedTimestamp ==> r == [0xFF, 0xFF, 0xFF]
    ensures timestamp < ExtendedTimestamp ==> FromBigEndian(r) == timestamp
  {
    if timestamp >= ExtendedTimestamp then [0xFF, 0xFF, 0xFF]
    else Low3Value(timestamp); Low3(timestamp)
  }

  /** Everything before the payload: the basic header, the 3-byte timestamp, the low
      three bytes of the payload length, the type byte, for type 0 the message stream
      id in native (little-endian) order, and the extended timestamp when needed. */
  function Header(t: ChunkType, chunkStreamID: uint16, timestamp: uint32, payloadLength: uint32,
                  typeRaw: byte, messageStreamID: uint32): (r: seq<byte>)
    ensures |r| == HeaderSize(t, timestamp)
  {
    BasicHeader(t, chunkStreamID) + TimestampField(timestamp) + Low3(payloadLength) + [typeRaw]
    + (if t == Type0 then LittleEndian(messageStreamID, 4) else [])
    + (if timestamp >= ExtendedTimestamp then BigEndian(timestamp, 4) else [])
  }

  /** 12 bytes for type 0, 8 for type 1 and 7 otherwise, plus 4 for an extended
      timestamp. */
  function HeaderSize(t: ChunkType, timestamp: uint32): nat
  {
    (match t case Type0 => 12 case Type1 => 8 case _ => 7)
    + (if timestamp >= ExtendedTimestamp then 4 else 0)
  }

  /** The payload cut into `chunkSize` pieces, each followed by `separator`, and the
      remainder (at most `chunkSize` bytes) at the end. */
  function Pieces(payload: seq<byte>, chunkSize: nat, separator: byte): (r: seq<byte>)
    requires chunkSize >= 1
    decreases |payload|
  {
    if |payload| <= chunkSize then payload
    else payload[..chunkSize] + [separator] + Pieces(payload[chunkSize..], chunkSize, separator)
  }

  /** What `splitMessage` returns. */
  function Chunked(t: ChunkType, chunkStreamID: uint16, timestamp: uint32, messageStreamID: uint32,
                   typeRaw: byte, payload: seq<byte>, chunkSize: nat): (r: seq<byte>)
    requires chunkSize >= 1 && |payload| < 0x1_0000_0000
  {
    Header(t, chunkStreamID, timestamp, |payload|, typeRaw, messageStreamID)
    + Pieces(payload, chunkSize, Separator(chunkStreamID))
  }

  /** Removes the separator after every full piece; `None` when a separator is
      missing or is not followed by a piece. */
  function Dechunk(body: seq<byte>, chunkSize: nat, separator: byte): (r: Option<seq<byte>>)
    requires chunkSize >= 1
    ensures r.Some? ==> (|r.value| == 0 <==> |body| == 0)
    decreases |body|
  {
    if |body| <= chunkSize then Some(body)
    else if body[chunkSize] != separator || |body| == chunkSize + 1 then None
    else
      match Dechunk(body[chunkSize + 1..], chunkSize, separator)
      case None => None
      case Some(rest) => Some(body[..chunkSize] + rest)
  }

  /** Dropping the continuation bytes from the body gives back the payload. */
  lemma {:induction false} DechunkPieces(payload: seq<byte>, chunkSize: nat, separator: byte)
    requires chunkSize >= 1
    ensures Dechunk(Pieces(payload, chunkSize, separator), chunkSize, separator) == Some(payload)
    decreases |payload|
  {
    if |payload| > chunkSize {
      var rest := payload[chunkSize..];
      var body := Pieces(payload, chunkSize, separator);
      DechunkPieces(rest, chunkSize, separator);
      assert |body| > chunkSize + 1;
      assert body[chunkSize] == separator;
      assert body[..chunkSize] == payload[..chunkSize];
      assert body[chunkSize + 1..] == Pieces(rest, chunkSize, separator);
      assert payload[..chunkSize] + rest == payload;
    }
  }

  /** And a body `Dechunk` accepts is exactly the chunking of what it returns, so
      `Pieces` and `Dechunk` are inverse bijections. */
  lemma {:induction false} PiecesDechunk(body: seq<byte>, chunkSize: nat, separator: byte)
    requires chunkSize >= 1 && Dechunk(body, chunkSize, separator).Some?
    ensures Pieces(Dechunk(body, chunkSize, separator).value, chunkSize, separator) == body
    decreases |body|
  {
    if |body| > chunkSize {
      var tail := body[chunkSize + 1..];
      PiecesDechunk(tail, chunkSize, separator);
      var rest := Dechunk(tail, chunkSize, separator).value;
      var p := body[..chunkSize] + rest;
      assert p[..chunkSize] == body[..chunkSize];
      assert p[chunkSize..] == rest;
      assert body == body[..chunkSize] + [separator] + tail;
    }
  }

  /** The number of continuation bytes: none when the payload fits one chunk,
      otherwise one fewer than the number of pieces, ceil(L / chunkSize) - 1. */
  function Continuations(length: nat, chunkSize: nat): nat
    requires chunkSize >= 1
  {
    if length <= chunkSize then 0 else (length - 1) / chunkSize
  }

  lemma {:induction false} PiecesLength(payload: seq<byte>, chunkSize: nat, separator: byte)
    requires chunkSize >= 1
    ensures |Pieces(payload, chunkSize, separator)| == |payload| + Continuations(|payload|, chunkSize)
    decreases |payload|
  {
    if |payload| > chunkSize {
      var rest := payload[chunkSize..];
      PiecesLength(rest, chunkSize, separator);
      ContinuationsStep(|payload|, chunkSize);
    }
  }

  lemma {:induction false} ContinuationsStep(length: nat, chunkSize: nat)
    requires 1 <= chunkSize < length
    ensures Continuations(length, chunkSize) == 1 + Continuations(length - chunkSize, chunkSize)
  {
    var q := (length - chunkSize - 1) / chunkSize;
    var r := (length - chunkSize - 1) % chunkSize;
    assert length - 1 == (q + 1) * chunkSize + r;
    DivUnique(length - 1, chunkSize, q + 1, r);
  }

  lemma {:induction false} DivUnique(a: nat, d: nat, q: nat, r: nat)
    requires d >= 1 && r < d && a == q * d + r
    ensures a / d == q
  {
    var q' := a / d;
    if q' < q {
      MulMonotone(q' + 1, q, d);
    } else if q' > q {
      MulMonotone(q + 1, q', d);
    }
  }

  lemma {:induction false} MulMonotone(x: nat, y: nat, d: nat)
    requires x <= y
    ensures x * d <= y * d
  {
  }

  /** The output length: header, payload and continuation bytes. */
  lemma {:induction false} ChunkedLength(t: ChunkType, chunkStreamID: uint16, timestamp: uint32, messageStreamID: uint32,
                                         typeRaw: byte, payload: seq<byte>, chunkSize: nat)
    requires chunkSize >= 1 && |payload| < 0x1_0000_0000
    ensures |Chunked(t, chunkStreamID, timestamp, messageStreamID, typeRaw, payload, chunkSize)|
      == HeaderSize(t, timestamp) + |payload| + Continuations(|payload|, chunkSize)
  {
    PiecesLength(payload, chunkSize, Separator(chunkStreamID));
  }

  /** `splitMessage`: the header, then the whole payload when it is shorter than a
      chunk, else the `while remainingCount > chunkSize` loop. The message is given by
      its header fields and its `payload`. `chunkSize` is the socket's outgoing chunk
      size; a payload of 2^32 bytes or more traps in `UInt32(payloadLength)`. */
  method Split(t: ChunkType, chunkStreamID: uint16, timestamp: uint32, messageStreamID: uint32,
               typeRaw: byte, payload: seq<byte>, chunkSize: nat) returns (buffer: seq<byte>)
    requires chunkSize >= 1 && |payload| < 0x1_0000_0000
    ensures buffer == Chunked(t, chunkStreamID, timestamp, messageStreamID, typeRaw, payload, chunkSize)
  {
    var separator := Separator(chunkStreamID);
    buffer := Header(t, chunkStreamID, timestamp, |payload|, typeRaw, messageStreamID);
    ghost var header := buffer;
    if |payload| < chunkSize {
      buffer := buffer + payload;
    } else {
      var remainingCount: nat := |payload|;
      var position: nat := 0;
      while remainingCount > chunkSize
        invariant position + remainingCount == |payload|
        invariant buffer + Pieces(payload[position..], chunkSize, separator) == header + Pieces(payload, chunkSize, separator)
      {
        PiecesStep(payload, position, chunkSize, separator);
        ghost var piece := payload[position..position + chunkSize];
        AppendAssociates(buffer, piece, [separator]);
        AppendAssociates(buffer, piece + [separator], Pieces(payload[position + chunkSize..], chunkSize, separator));
        buffer := buffer + payload[position..position + chunkSize];
        remainingCount := remainingCount - chunkSize;
        position := position + chunkSize;
        buffer := buffer + [separator];
      }
      assert payload[position..position + remainingCount] == payload[position..];
      buffer := buffer + payload[position..position + remainingCount];
    }
  }

  /** One turn of the loop: a full piece and a separator come off the front. */
  lemma {:induction false} PiecesStep(payload: seq<byte>, position: nat, chunkSize: nat, separator: byte)
    requires chunkSize >= 1 && position + chunkSize < |payload|
    ensures Pieces(payload[position..], chunkSize, separator)
      == payload[position..position + chunkSize] + [separator] + Pieces(payload[position + chunkSize..], chunkSize, separator)
  {
    var rest := payload[position..];
    assert rest[..chunkSize] == payload[position..position + chunkSize];
    assert rest[chunkSize..] == payload[position + chunkSize..];
  }
}
