/** What `RTMPReceiver.readInterlacedMessage` (Live/RTMP/RTMPReceiver.swift) does
    with the bytes it reads, as functions of the input. It reads chunks, each being
    a basic header, a message header and a piece of payload, until the payload read
    reaches the declared length. A per-chunk-stream table of the header fields seen
    last stands in for the `RTMPChunk` objects of `chunkStreams`. Turning the
    assembled bytes into a message object is the business of module Receivers. */
module Framing {
  import opened Wrappers
  import opened Bytes
  import opened Chunks
  import opened Messages
  import opened Sockets

  /** The header fields an `RTMPChunk` of `chunkStreams` holds; `None` is a field
      that is still `nil`. */
  datatype ChunkInfo = ChunkInfo(timestamp: Option<uint32>, messageStreamID: Option<uint32>,
                                 messageType: Option<MessageType>)

  /** A chunk stream seen for the first time. */
  const NewChunk: ChunkInfo := ChunkInfo(None, None, None)

  type ChunkStreams = map<nat, ChunkInfo>

  // ---------------------------------------------------------------------------
  // Basic header
  // ---------------------------------------------------------------------------

  /** `readBasicHeader` as written: the (fmt, chunk stream id) pair. Id 0 takes the
      next byte plus 64. Id 1 reads two more bytes, but `idInBytes[1] << 8` on an
      8-bit value is 0, so only the first of them counts. */
  function BasicHeaderAsWritten(data: seq<byte>, pos: nat): (r: Step<(nat, nat)>)
    ensures !r.Crashed?
    ensures r.Took? ==> r.value.0 < 4 && 2 <= r.value.1 < 320
    ensures r.Took? ==> pos < r.pos <= pos + 3 && r.pos <= |data|
    ensures r.Took? ==> pos < |data| && r.value.0 == data[pos] / 64
    ensures r.Took? && data[pos] % 64 == 1 ==> pos + 3 <= |data| && r.value.1 == data[pos + 1] as int + 64
  {
    if pos >= |data| then Stalled
    else
      var fmt := data[pos] / 64;
      var id := data[pos] % 64;
      if id > 1 then Took((fmt, id), pos + 1)
      else if id == 0 then
        if pos + 2 > |data| then Stalled else Took((fmt, data[pos + 1] as int + 64), pos + 2)
      else if pos + 3 > |data| then Stalled
      else Took((fmt, data[pos + 1] as int + 64), pos + 3)
  }

  /** The evidently intended `readBasicHeader`, with the three-byte form read as
      section 5.3.1.1 of the RTMP specification (and the source's own comment)
      says: third byte * 256 + second byte + 64. The id no longer fits 16 bits, so
      ids are natural numbers here. */
  function BasicHeaderAt(data: seq<byte>, pos: nat): (r: Step<(nat, nat)>)
    ensures !r.Crashed?
    ensures r.Took? ==> r.value.0 < 4 && 2 <= r.value.1 < 65600
    ensures r.Took? ==> pos < r.pos <= pos + 3 && r.pos <= |data|
    ensures r.Took? ==> r.value.0 == data[pos] / 64
  {
    if pos >= |data| then Stalled
    else
      var fmt := data[pos] / 64;
      var id := data[pos] % 64;
      if id > 1 then Took((fmt, id), pos + 1)
      else if id == 0 then
        if pos + 2 > |data| then Stalled else Took((fmt, data[pos + 1] as int + 64), pos + 2)
      else if pos + 3 > |data| then Stalled
      else Took((fmt, data[pos + 2] as int * 256 + data[pos + 1] as int + 64), pos + 3)
  }

  /** The two readers differ only on the three-byte form. */
  lemma {:induction false} BasicHeaderReadersAgree(data: seq<byte>, pos: nat)
    requires pos < |data| ==> data[pos] % 64 != 1
    ensures BasicHeaderAsWritten(data, pos) == BasicHeaderAt(data, pos)
  {
  }

  /** The basic header section 5.3.1.1 prescribes: the shortest of the one-, two-
      and three-byte forms that can hold the id. */
  function EncodeBasicHeader(fmt: nat, chunkStreamID: nat): (r: seq<byte>)
    requires fmt < 4 && 2 <= chunkStreamID < 65600
    ensures 1 <= |r| <= 3
  {
    if chunkStreamID < 64 then [fmt * 64 + chunkStreamID]
    else if chunkStreamID < 320 then [fmt * 64, chunkStreamID - 64]
    else [fmt * 64 + 1, (chunkStreamID - 64) % 256, (chunkStreamID - 64) / 256]
  }

  /** Every basic header reads back as its fmt and id, in all three forms. */
  lemma {:induction false} BasicHeaderRoundTrip(data: seq<byte>, pos: nat, fmt: nat, chunkStreamID: nat)
    requires fmt < 4 && 2 <= chunkStreamID < 65600
    requires BytesAt(data, pos, EncodeBasicHeader(fmt, chunkStreamID))
    ensures BasicHeaderAt(data, pos) == Took((fmt, chunkStreamID), pos + |EncodeBasicHeader(fmt, chunkStreamID)|)
  {
    var e := EncodeBasicHeader(fmt, chunkStreamID);
    BytesAtSlice(data, pos, e);
    assert data[pos] == e[0];
    if chunkStreamID >= 64 {
      assert data[pos + 1] == e[1];
    }
    if chunkStreamID >= 320 {
      assert data[pos + 2] == e[2];
    }
  }

  /** As written, a three-byte header for id 320 reads back as id 64. */
  lemma {:induction false} BasicHeaderAsWrittenLosesHighByte()
    ensures EncodeBasicHeader(0, 320) == [0x01, 0x00, 0x01]
    ensures BasicHeaderAsWritten([0x01, 0x00, 0x01], 0) == Took((0, 64), 3)
    ensures BasicHeaderAt([0x01, 0x00, 0x01], 0) == Took((0, 320), 3)
  {
  }

  /** The sender writes the one-byte form, which is the prescribed form for ids 2 to
      63; larger ids are cut to their low six bits. */
  lemma {:induction false} SenderBasicHeader(t: ChunkType, chunkStreamID: uint16)
    requires t == Type0 || t == Type1
    ensures 2 <= chunkStreamID < 64 ==> BasicHeader(t, chunkStreamID) == EncodeBasicHeader(Fmt(t), chunkStreamID)
    ensures chunkStreamID >= 64 ==> BasicHeader(t, chunkStreamID) != EncodeBasicHeader(Fmt(t), chunkStreamID)
  {
  }

  /** `UInt32(bytes:).bigEndian` on four bytes. */
  function BigEndianWord(bs: seq<byte>): (r: uint32)
    requires |bs| == 4
    ensures r == FromBigEndian(bs)
  {
    assert Pow256(4) == 0x1_0000_0000;
    FromBigEndian(bs)
  }

  /** `UInt32(bytes:)` on four bytes: a native (little-endian) load. */
  function NativeWord(bs: seq<byte>): (r: uint32)
    requires |bs| == 4
    ensures r == FromLittleEndian(bs)
  {
    assert Pow256(4) == 0x1_0000_0000;
    FromLittleEndian(bs)
  }

  // ---------------------------------------------------------------------------
  // Message header
  // ---------------------------------------------------------------------------

  /** The timestamp a 3-byte field `delta` leaves when it is not the extended marker:
      fmt 0 sets it, fmt 1 and 2 add to the stored one (`chunk.timestamp! + delta`,
      which traps on `nil` and on 32-bit overflow). */
  function Stamp(fmt: nat, delta: nat, info: ChunkInfo): (r: Outcome<ChunkInfo>)
    requires fmt <= 2
    ensures !r.Fail?
    ensures r.Ok? ==> r.value.(timestamp := info.timestamp) == info
    ensures r.Ok? && delta < ExtendedTimestamp && fmt == 0 ==> r.value.timestamp == Some(delta)
    ensures r.Ok? && delta < ExtendedTimestamp && fmt != 0 ==>
      info.timestamp.Some? && r.value.timestamp == Some(info.timestamp.value + delta)
    ensures r.Trap? <==> (delta < ExtendedTimestamp && fmt != 0 &&
      (info.timestamp.None? || info.timestamp.value + delta >= 0x1_0000_0000))
  {
    if delta >= ExtendedTimestamp then Ok(info)
    else if fmt == 0 then Ok(info.(timestamp := Some(delta)))
    else if info.timestamp.None? || info.timestamp.value + delta >= 0x1_0000_0000 then Trap
    else Ok(info.(timestamp := Some(info.timestamp.value + delta)))
  }

  /** The 4-byte big-endian extended timestamp, read when the 3-byte field was
      `ff ff ff`; it replaces the stored timestamp. */
  function ExtendedAt(data: seq<byte>, pos: nat, extended: bool, info: ChunkInfo, length: Option<int>)
    : (r: Step<(ChunkInfo, Option<int>)>)
    ensures !r.Crashed?
    ensures r.Took? ==> r.value.1 == length && r.value.0.(timestamp := info.timestamp) == info
    ensures r.Took? ==> r.pos == pos + (if extended then 4 else 0) && r.pos <= |data|
    ensures r.Took? && extended ==> r.value.0.timestamp == Some(FromBigEndian(data[pos..pos + 4]))
    ensures r.Took? && !extended ==> r.value.0 == info
    ensures r.Stalled? <==> pos + (if extended then 4 else 0) > |data|
  {
    if !extended then
      if pos <= |data| then Took((info, length), pos) else Stalled
    else if pos + 4 > |data| then Stalled
    else Took((info.(timestamp := Some(BigEndianWord(data[pos..pos + 4]))), length), pos + 4)
  }

  /** `readMessageHeader` after the chunk stream's entry is found: the fields the
      entry holds afterwards and the payload length, for a chunk of type `fmt` that
      is the first of this call (`first`) or not. fmt 0 and 1 read a 3-byte length
      and the type byte; fmt 0 also reads the 4-byte stream id, in native
      (little-endian) order. fmt 3 reads nothing: as the first chunk of a message
      it traps on the `nil` delta. */
  function MessageHeaderAt(data: seq<byte>, pos: nat, fmt: nat, info: ChunkInfo, first: bool, length: Option<int>)
    : (r: Step<(ChunkInfo, Option<int>)>)
    requires fmt < 4 && pos <= |data|
    ensures r.Took? ==> pos <= r.pos <= |data|
    ensures fmt == 3 ==> r == if first then Crashed else Took((info, length), pos)
    ensures r.Took? && fmt == 1 ==> r.value.0.messageStreamID == info.messageStreamID
    ensures r.Took? && fmt == 2 ==> r.value.1 == length && r.value.0.(timestamp := info.timestamp) == info
  {
    if fmt == 3 then
      if first then Crashed else Took((info, length), pos)
    else if pos + 3 > |data| then Stalled
    else
      var delta := FromBigEndian(data[pos..pos + 3]);
      var extended := delta >= ExtendedTimestamp;
      var stamped := Stamp(fmt, delta, info);
      if stamped.Trap? then Crashed
      else
        var p := pos + 3;
        if fmt == 2 then ExtendedAt(data, p, extended, stamped.value, length)
        else if p + 4 > |data| then Stalled
        else
          var typed := stamped.value.(messageType := MessageTypeOf(data[p + 3]));
          var declared := Some(FromBigEndian(data[p..p + 3]));
          if fmt == 1 then ExtendedAt(data, p + 4, extended, typed, declared)
          else if p + 8 > |data| then Stalled
          else ExtendedAt(data, p + 8, extended, typed.(messageStreamID := Some(NativeWord(data[p + 4..p + 8]))), declared)
  }

  /** The fields fmt 0 and 1 read: the 3-byte declared length and the type byte
      after the timestamp, and for fmt 0 the 4-byte native-order stream id. */
  lemma {:induction false} MessageHeaderFields(data: seq<byte>, pos: nat, fmt: nat, info: ChunkInfo, first: bool, length: Option<int>)
    requires fmt <= 1 && pos <= |data|
    ensures var r := MessageHeaderAt(data, pos, fmt, info, first, length);
      r.Took? ==> (pos + 7 <= |data| && r.value.1 == Some(FromBigEndian(data[pos + 3..pos + 6]))
        && r.value.0.messageType == MessageTypeOf(data[pos + 6])
        && (fmt == 0 ==> pos + 11 <= |data| && r.value.0.messageStreamID == Some(FromLittleEndian(data[pos + 7..pos + 11]))))
  {
  }

  // ---------------------------------------------------------------------------
  // Payload and the chunk loop
  // ---------------------------------------------------------------------------

  function Min(a: int, b: int): int
  {
    if a <= b then a else b
  }

  /** `readMessagePayload`: `min(payloadLength - payloadBuffer.count, inChunkSize)`
      more bytes. A `nil` length and a negative count trap. */
  function PayloadAt(data: seq<byte>, pos: nat, length: Option<int>, buffer: seq<byte>, inChunkSize: int)
    : (r: Step<seq<byte>>)
    ensures r.Took? ==> length.Some? && pos <= r.pos <= |data| && r.value == buffer + data[pos..r.pos]
    ensures r.Took? ==> r.pos - pos == Min(length.value - |buffer|, inChunkSize)
    ensures r.Crashed? <==> length.None? || Min(length.value - |buffer|, inChunkSize) < 0
  {
    if length.None? then Crashed
    else
      var size := Min(length.value - |buffer|, inChunkSize);
      if size < 0 then Crashed
      else if pos + size > |data| then Stalled
      else Took(buffer + data[pos..pos + size], pos + size)
  }

  /** How `readInterlacedMessage` ends: with the fields of the chunk stream that
      completed the message and its payload, with `nil` for a zero length, stalled,
      or trapped. */
  datatype Framed =
    | Assembled(info: ChunkInfo, payload: seq<byte>)
    | EmptyMessage
    | FramingStalled
    | FramingCrashed

  /** One turn of the `while true` loop: finished, with the position and table
      after it, or go on with the length and buffer read so far. */
  datatype Turn =
    | Finished(framed: Framed, pos: nat, streams: ChunkStreams)
    | More(length: Option<int>, buffer: seq<byte>, pos: nat, streams: ChunkStreams)

  /** The table entry a chunk stream id finds: the stored one, or a fresh one. */
  function EntryOf(streams: ChunkStreams, chunkStreamID: nat): ChunkInfo
  {
    if chunkStreamID in streams then streams[chunkStreamID] else NewChunk
  }

  function ChunkTurn(data: seq<byte>, pos: nat, streams: ChunkStreams, inChunkSize: int,
                     length: Option<int>, buffer: seq<byte>): (r: Turn)
    requires pos <= |data|
    ensures r.More? ==> pos < r.pos <= |data|
    ensures r.Finished? && (r.framed.Assembled? || r.framed.EmptyMessage?) ==> pos < r.pos <= |data|
  {
    var h := BasicHeaderAsWritten(data, pos);
    if !h.Took? then Finished(FramingStalled, pos, streams)
    else
      var (fmt, chunkStreamID) := h.value;
      var info := EntryOf(streams, chunkStreamID);
      var m := MessageHeaderAt(data, h.pos, fmt, info, length.None?, length);
      if m.Stalled? then Finished(FramingStalled, pos, streams)
      else if m.Crashed? then Finished(FramingCrashed, pos, streams)
      else
        var (info', length') := m.value;
        var streams' := streams[chunkStreamID := info'];
        var b := PayloadAt(data, m.pos, length', buffer, inChunkSize);
        if b.Stalled? then Finished(FramingStalled, pos, streams)
        else if b.Crashed? then Finished(FramingCrashed, pos, streams)
        else if length'.value <= 0 then Finished(EmptyMessage, b.pos, streams')
        else if length'.value == |b.value| then Finished(Assembled(info', b.value), b.pos, streams')
        else More(length', b.value, b.pos, streams')
  }

  /** A chunk that is read adds its chunk stream to the table, if new, and touches
      no other entry; a completed message carries the entry of the stream that
      completed it. */
  lemma {:induction false} ChunkTurnTable(data: seq<byte>, pos: nat, streams: ChunkStreams, inChunkSize: int,
                                          length: Option<int>, buffer: seq<byte>)
    requires pos <= |data|
    ensures var r := ChunkTurn(data, pos, streams, inChunkSize, length, buffer);
      var h := BasicHeaderAsWritten(data, pos);
      (r.More? || r.framed.Assembled? || r.framed.EmptyMessage? ==>
        h.Took? && r.streams.Keys == streams.Keys + {h.value.1} &&
        forall k :: k in streams && k != h.value.1 ==> r.streams[k] == streams[k]) &&
      (r.Finished? && r.framed.Assembled? ==> h.Took? && r.streams[h.value.1] == r.framed.info)
  {
  }

  /** `ChunkTurn` once its three reads have succeeded. */
  lemma {:induction false} ChunkTurnOf(data: seq<byte>, pos: nat, streams: ChunkStreams, inChunkSize: int,
                                       length: Option<int>, buffer: seq<byte>, fmt: nat, chunkStreamID: nat,
                                       info: ChunkInfo, length': Option<int>, headerEnd: nat, buffer': seq<byte>, end: nat)
    requires pos <= |data|
    requires BasicHeaderAsWritten(data, pos).Took? && BasicHeaderAsWritten(data, pos).value == (fmt, chunkStreamID)
    requires MessageHeaderAt(data, BasicHeaderAsWritten(data, pos).pos, fmt, EntryOf(streams, chunkStreamID), length.None?, length)
      == Took((info, length'), headerEnd)
    requires PayloadAt(data, headerEnd, length', buffer, inChunkSize) == Took(buffer', end)
    ensures length'.Some?
    ensures ChunkTurn(data, pos, streams, inChunkSize, length, buffer) ==
      if length'.value <= 0 then Finished(EmptyMessage, end, streams[chunkStreamID := info])
      else if length'.value == |buffer'| then Finished(Assembled(info, buffer'), end, streams[chunkStreamID := info])
      else More(length', buffer', end, streams[chunkStreamID := info])
  {
  }

  /** The whole loop, from the position `pos` with the table `streams`. */
  function ReadInterlaced(data: seq<byte>, pos: nat, streams: ChunkStreams, inChunkSize: int,
                          length: Option<int>, buffer: seq<byte>): (r: Turn)
    requires pos <= |data|
    ensures r.Finished?
    ensures r.framed.Assembled? || r.framed.EmptyMessage? ==> pos < r.pos <= |data|
    decreases |data| - pos
  {
    var t := ChunkTurn(data, pos, streams, inChunkSize, length, buffer);
    if t.More? then ReadInterlaced(data, t.pos, t.streams, inChunkSize, t.length, t.buffer)
    else t
  }

  /** A message completes exactly when the bytes gathered reach the declared length
      of its last fmt-0 or fmt-1 chunk, and that length is positive. */
  lemma {:induction false} AssembledLength(data: seq<byte>, pos: nat, streams: ChunkStreams, inChunkSize: int,
                                           length: Option<int>, buffer: seq<byte>)
    requires pos <= |data|
    ensures var t := ChunkTurn(data, pos, streams, inChunkSize, length, buffer);
      (t.Finished? && t.framed.Assembled? ==> |t.framed.payload| > 0 && buffer <= t.framed.payload) &&
      (t.More? ==> t.length.Some? && |t.buffer| != t.length.value && buffer <= t.buffer)
  {
  }

  // ---------------------------------------------------------------------------
  // Reading back what the sender splits
  // ---------------------------------------------------------------------------

  /** The table entry a type-0 chunk leaves: every field is taken from its header. */
  function Type0Entry(timestamp: uint32, messageStreamID: uint32, typeRaw: byte): ChunkInfo
  {
    ChunkInfo(Some(timestamp), Some(messageStreamID), MessageTypeOf(typeRaw))
  }

  /** The headers of a type-0 chunk as `splitMessage` writes them read back as its
      chunk stream id, its timestamp, its stream id, its type and its length,
      whatever the entry held before. */
  lemma {:induction false} ReadType0Header(data: seq<byte>, pos: nat, info: ChunkInfo, chunkStreamID: uint16,
                                           timestamp: uint32, messageStreamID: uint32, typeRaw: byte, length: uint24)
    requires 2 <= chunkStreamID < 64
    requires SliceIs(data, pos, Header(Type0, chunkStreamID, timestamp, length, typeRaw, messageStreamID))
    ensures BasicHeaderAsWritten(data, pos) == Took((0, chunkStreamID as nat), pos + 1)
    ensures MessageHeaderAt(data, pos + 1, 0, info, true, None)
      == Took((Type0Entry(timestamp, messageStreamID, typeRaw), Some(length)), pos + HeaderSize(Type0, timestamp))
  {
    Type0HeaderFields(data, pos, chunkStreamID, timestamp, messageStreamID, typeRaw, length);
    var extended := timestamp >= ExtendedTimestamp;
    var delta := FromBigEndian(data[pos + 1..pos + 4]);
    var stamped := Stamp(0, delta, info);
    assert stamped.Ok?;
    var typed := stamped.value.(messageType := MessageTypeOf(data[pos + 7]));
    var entry := typed.(messageStreamID := Some(NativeWord(data[pos + 8..pos + 12])));
    assert MessageHeaderAt(data, pos + 1, 0, info, true, None) == ExtendedAt(data, pos + 12, extended, entry, Some(length));
  }

  /** The fields of a type-0 header `splitMessage` writes, one by one. */
  lemma {:induction false} Type0HeaderFields(data: seq<byte>, pos: nat, chunkStreamID: uint16,
                                             timestamp: uint32, messageStreamID: uint32, typeRaw: byte, length: uint24)
    requires 2 <= chunkStreamID < 64
    requires SliceIs(data, pos, Header(Type0, chunkStreamID, timestamp, length, typeRaw, messageStreamID))
    ensures pos + HeaderSize(Type0, timestamp) <= |data|
    ensures data[pos] == chunkStreamID && data[pos + 7] == typeRaw
    ensures FromBigEndian(data[pos + 1..pos + 4]) == if timestamp >= ExtendedTimestamp then ExtendedTimestamp else timestamp
    ensures FromBigEndian(data[pos + 4..pos + 7]) == length
    ensures FromLittleEndian(data[pos + 8..pos + 12]) == messageStreamID
    ensures timestamp >= ExtendedTimestamp ==> FromBigEndian(data[pos + 12..pos + 16]) == timestamp
  {
    var basic, stamp, len := BasicHeader(Type0, chunkStreamID), TimestampField(timestamp), Low3(length);
    var sid := LittleEndian(messageStreamID, 4);
    var ext := if timestamp >= ExtendedTimestamp then BigEndian(timestamp, 4) else [];
    assert Header(Type0, chunkStreamID, timestamp, length, typeRaw, messageStreamID)
      == basic + stamp + len + [typeRaw] + sid + ext;
    assert basic == [chunkStreamID as byte];
    Type0Layout(data, pos, basic, stamp, len, typeRaw, sid, ext);
    assert FromBigEndian(data[pos + 4..pos + 7]) == length by {
      Low3Value(length);
    }
    assert FromLittleEndian(data[pos + 8..pos + 12]) == messageStreamID by {
      LittleEndianRoundTrip(messageStreamID, 4);
    }
    if timestamp >= ExtendedTimestamp {
      assert data[pos + 12..pos + 16] == ext;
      BigEndian3(stamp);
      BigEndianRoundTrip(timestamp, 4);
    }
  }

  /** Where the six parts of a type-0 header stand, byte by byte. */
  lemma {:induction false} Type0Layout(data: seq<byte>, pos: nat, basic: seq<byte>, stamp: seq<byte>, len: seq<byte>,
                                       typeRaw: byte, sid: seq<byte>, ext: seq<byte>)
    requires |basic| == 1 && |stamp| == 3 && |len| == 3 && |sid| == 4
    requires SliceIs(data, pos, basic + stamp + len + [typeRaw] + sid + ext)
    ensures pos + 12 + |ext| <= |data|
    ensures data[pos] == basic[0] && data[pos + 1..pos + 4] == stamp && data[pos + 4..pos + 7] == len
    ensures data[pos + 7] == typeRaw && data[pos + 8..pos + 12] == sid && SliceIs(data, pos + 12, ext)
  {
    SliceIsAppend(data, pos, basic + stamp + len + [typeRaw] + sid, ext);
    SliceIsAppend(data, pos, basic + stamp + len + [typeRaw], sid);
    SliceIsAppend(data, pos, basic + stamp + len, [typeRaw]);
    SliceIsAppend(data, pos, basic + stamp, len);
    SliceIsAppend(data, pos, basic, stamp);
    assert data[pos] == data[pos..pos + 1][0];
    assert data[pos + 7] == data[pos + 7..pos + 8][0];
  }

  /** One continuation chunk at `pos`: the separator byte, then `piece`. */
  predicate ContinuationChunkAt(data: seq<byte>, pos: nat, piece: seq<byte>, separator: byte)
  {
    SliceIs(data, pos, [separator] + piece)
  }

  /** The continuation chunks from `pos` on, one at a time: the separator byte
      and then the next piece of `rest`. */
  predicate ContinuationsAt(data: seq<byte>, pos: nat, rest: seq<byte>, chunkSize: nat, separator: byte)
    requires chunkSize >= 1
    decreases |rest|
  {
    var n := if |rest| <= chunkSize then |rest| else chunkSize;
    ContinuationChunkAt(data, pos, rest[..n], separator) &&
    (|rest| > chunkSize ==> ContinuationsAt(data, pos + 1 + chunkSize, rest[chunkSize..], chunkSize, separator))
  }

  /** A separator followed by the chunking of `rest` is such a run of continuation
      chunks. */
  lemma {:induction false} LaidOutContinuations(data: seq<byte>, pos: nat, rest: seq<byte>, chunkSize: nat, separator: byte)
    requires chunkSize >= 1 && |rest| >= 1
    requires SliceIs(data, pos, [separator] + Pieces(rest, chunkSize, separator))
    ensures ContinuationsAt(data, pos, rest, chunkSize, separator)
    decreases |rest|
  {
    FirstContinuation(data, pos, rest, chunkSize, separator);
    if |rest| > chunkSize {
      NextContinuation(data, pos, chunkSize, separator, rest);
      LaidOutContinuations(data, pos + 1 + chunkSize, rest[chunkSize..], chunkSize, separator);
    }
  }

  /** The first chunk of such a layout is the separator and the first piece. */
  lemma {:induction false} FirstContinuation(data: seq<byte>, pos: nat, rest: seq<byte>, chunkSize: nat, separator: byte)
    requires chunkSize >= 1 && |rest| >= 1
    requires SliceIs(data, pos, [separator] + Pieces(rest, chunkSize, separator))
    ensures ContinuationChunkAt(data, pos, rest[..if |rest| <= chunkSize then |rest| else chunkSize], separator)
  {
    var n := if |rest| <= chunkSize then |rest| else chunkSize;
    var pieces := Pieces(rest, chunkSize, separator);
    PiecesPrefix(rest, chunkSize, separator);
    assert [separator] + pieces == ([separator] + rest[..n]) + pieces[n..];
    SliceIsAppend(data, pos, [separator] + rest[..n], pieces[n..]);
  }

  /** One continuation chunk: the separator byte, which reads as a fmt-3 basic
      header of the same chunk stream and no message header, and then a piece of
      at most `chunkSize` bytes. */
  lemma {:induction false} ContinuationTurn(data: seq<byte>, pos: nat, streams: ChunkStreams, chunkSize: nat,
                                            chunkStreamID: uint16, length: nat, buffer: seq<byte>, piece: seq<byte>)
    requires 2 <= chunkStreamID < 64 && chunkSize >= 1 && chunkStreamID as nat in streams
    requires 1 <= |piece| <= chunkSize && |buffer| + |piece| <= length
    requires |piece| == chunkSize || |buffer| + |piece| == length
    requires ContinuationChunkAt(data, pos, piece, Separator(chunkStreamID))
    ensures var t := ChunkTurn(data, pos, streams, chunkSize, Some(length), buffer);
      if |buffer| + |piece| == length then
        t == Finished(Assembled(streams[chunkStreamID as nat], buffer + piece), pos + 1 + |piece|, streams)
      else
        t == More(Some(length), buffer + piece, pos + 1 + |piece|, streams)
  {
    var csid: nat := chunkStreamID as nat;
    var info := streams[csid];
    var n := |piece|;
    SliceIsAppend(data, pos, [Separator(chunkStreamID)], piece);
    assert data[pos] == data[pos..pos + 1][0];
    assert BasicHeaderAsWritten(data, pos) == Took((3, csid), pos + 1);
    assert streams[csid := info] == streams;
    assert MessageHeaderAt(data, pos + 1, 3, EntryOf(streams, csid), false, Some(length)) == Took((info, Some(length)), pos + 1);
    assert PayloadAt(data, pos + 1, Some(length), buffer, chunkSize) == Took(buffer + piece, pos + 1 + n);
    ChunkTurnOf(data, pos, streams, chunkSize, Some(length), buffer, 3, csid, info, Some(length), pos + 1, buffer + piece, pos + 1 + n);
  }

  /** The first piece of a chunked payload is its first `chunkSize` bytes (or all of
      it), and a separator and the rest's chunking follow. */
  lemma {:induction false} PiecesPrefix(payload: seq<byte>, chunkSize: nat, separator: byte)
    requires chunkSize >= 1
    ensures var n := if |payload| <= chunkSize then |payload| else chunkSize;
      var pieces := Pieces(payload, chunkSize, separator);
      n <= |pieces| && pieces[..n] == payload[..n] &&
      (|payload| <= chunkSize ==> pieces == payload) &&
      (|payload| > chunkSize ==> pieces[n..] == [separator] + Pieces(payload[chunkSize..], chunkSize, separator))
  {
  }

  /** The loop, started at `pos` with the table `streams`, ends with `y`. */
  predicate LoopEndsWith(data: seq<byte>, pos: nat, streams: ChunkStreams, inChunkSize: int,
                         length: Option<int>, buffer: seq<byte>, y: Turn)
  {
    pos <= |data| && ReadInterlaced(data, pos, streams, inChunkSize, length, buffer) == y
  }

  /** What the loop meets at the continuation chunks from `pos` on, chunk by
      chunk: every full piece but the last leaves the message incomplete, and the
      last piece completes it with `info` and the buffer grown by all of `rest`. */
  predicate ContinuationTurnsAt(data: seq<byte>, pos: nat, streams: ChunkStreams, chunkSize: nat, info: ChunkInfo,
                                length: nat, buffer: seq<byte>, rest: seq<byte>)
    requires chunkSize >= 1
    decreases |rest|
  {
    pos <= |data| &&
    var t := ChunkTurn(data, pos, streams, chunkSize, Some(length), buffer);
    if |rest| <= chunkSize then t == Finished(Assembled(info, buffer + rest), pos + 1 + |rest|, streams)
    else
      t == More(Some(length), buffer + rest[..chunkSize], pos + 1 + chunkSize, streams) &&
      ContinuationTurnsAt(data, pos + 1 + chunkSize, streams, chunkSize, info, length, buffer + rest[..chunkSize], rest[chunkSize..])
  }

  /** The continuation chunks `splitMessage` writes read, one chunk at a time, as
      fmt-3 chunks that keep the stream's entry and append their pieces until the
      declared length is reached. */
  lemma {:induction false} ContinuationTurns(data: seq<byte>, pos: nat, streams: ChunkStreams, chunkSize: nat,
                                             chunkStreamID: uint16, length: nat, buffer: seq<byte>, rest: seq<byte>)
    requires 2 <= chunkStreamID < 64 && chunkSize >= 1 && chunkStreamID as nat in streams
    requires |buffer| + |rest| == length && |rest| >= 1
    requires ContinuationsAt(data, pos, rest, chunkSize, Separator(chunkStreamID))
    ensures ContinuationTurnsAt(data, pos, streams, chunkSize, streams[chunkStreamID as nat], length, buffer, rest)
    decreases |rest|
  {
    if |rest| > chunkSize {
      ContinuationTurn(data, pos, streams, chunkSize, chunkStreamID, length, buffer, rest[..chunkSize]);
      ContinuationTurns(data, pos + 1 + chunkSize, streams, chunkSize, chunkStreamID, length,
                        buffer + rest[..chunkSize], rest[chunkSize..]);
    } else {
      assert rest[..|rest|] == rest;
      ContinuationTurn(data, pos, streams, chunkSize, chunkStreamID, length, buffer, rest);
    }
  }

  /** Continuation chunks that read as `ContinuationTurnsAt` says complete the
      message with the whole payload and end right after the last piece. */
  lemma {:induction false} ReadContinuations(data: seq<byte>, pos: nat, streams: ChunkStreams, chunkSize: nat,
                                             separator: byte, info: ChunkInfo, length: nat, buffer: seq<byte>, rest: seq<byte>)
    requires chunkSize >= 1 && |rest| >= 1
    requires ContinuationTurnsAt(data, pos, streams, chunkSize, info, length, buffer, rest)
    ensures pos + 1 + |Pieces(rest, chunkSize, separator)| <= |data|
    ensures LoopEndsWith(data, pos, streams, chunkSize, Some(length), buffer,
                         Finished(Assembled(info, buffer + rest), pos + 1 + |Pieces(rest, chunkSize, separator)|, streams))
    decreases |rest|
  {
    if |rest| > chunkSize {
      var buffer' := buffer + rest[..chunkSize];
      var rest' := rest[chunkSize..];
      var pos' := pos + 1 + chunkSize;
      var y := Finished(Assembled(info, buffer' + rest'), pos' + 1 + |Pieces(rest', chunkSize, separator)|, streams);
      ReadContinuations(data, pos', streams, chunkSize, separator, info, length, buffer', rest');
      LoopStep(data, pos, streams, chunkSize, Some(length), buffer, Some(length), buffer', pos', streams, y);
      PiecesNextLength(rest, chunkSize, separator);
      ContinuationsChain(buffer, rest, chunkSize);
      assert y == Finished(Assembled(info, buffer + rest), pos + 1 + |Pieces(rest, chunkSize, separator)|, streams);
    } else {
      PiecesPrefix(rest, chunkSize, separator);
      ReadInterlacedUnfold(data, pos, streams, chunkSize, Some(length), buffer);
    }
  }

  /** The bookkeeping of one step of `ReadContinuations`: the buffer grown by a
      piece and the rest after it are the buffer and the rest together. */
  lemma {:induction false} ContinuationsChain(buffer: seq<byte>, rest: seq<byte>, chunkSize: nat)
    requires chunkSize < |rest|
    ensures (buffer + rest[..chunkSize]) + rest[chunkSize..] == buffer + rest
  {
    assert rest[..chunkSize] + rest[chunkSize..] == rest;
  }

  /** The chunking of a payload longer than a piece is that piece, a separator and
      the chunking of the rest. */
  lemma {:induction false} PiecesNextLength(rest: seq<byte>, chunkSize: nat, separator: byte)
    requires chunkSize >= 1 && |rest| > chunkSize
    ensures |Pieces(rest, chunkSize, separator)| == chunkSize + 1 + |Pieces(rest[chunkSize..], chunkSize, separator)|
  {
    var pieces := Pieces(rest, chunkSize, separator);
    PiecesPrefix(rest, chunkSize, separator);
    assert |pieces| == chunkSize + |pieces[chunkSize..]|;
  }

  /** Past a full piece, the next continuation chunk starts. */
  lemma {:induction false} NextContinuation(data: seq<byte>, pos: nat, chunkSize: nat, separator: byte, rest: seq<byte>)
    requires chunkSize >= 1 && |rest| > chunkSize
    requires SliceIs(data, pos, [separator] + Pieces(rest, chunkSize, separator))
    ensures SliceIs(data, pos + 1 + chunkSize, [separator] + Pieces(rest[chunkSize..], chunkSize, separator))
  {
    var pieces := Pieces(rest, chunkSize, separator);
    PiecesPrefix(rest, chunkSize, separator);
    SliceIsAppend(data, pos, [separator] + pieces[..chunkSize], pieces[chunkSize..]);
    assert [separator] + pieces == ([separator] + pieces[..chunkSize]) + pieces[chunkSize..];
  }

  /** After a complete chunk the loop goes on from where the chunk ends. */
  lemma {:induction false} ReadInterlacedStep(data: seq<byte>, pos: nat, streams: ChunkStreams, inChunkSize: int,
                                              length: Option<int>, buffer: seq<byte>,
                                              length': Option<int>, buffer': seq<byte>, pos': nat, streams': ChunkStreams)
    requires pos <= |data| && ChunkTurn(data, pos, streams, inChunkSize, length, buffer) == More(length', buffer', pos', streams')
    ensures pos' <= |data|
    ensures ReadInterlaced(data, pos, streams, inChunkSize, length, buffer)
      == ReadInterlaced(data, pos', streams', inChunkSize, length', buffer')
  {
  }


  /** The same, for a loop known to end with `y` from where the chunk ends. */
  lemma {:induction false} LoopStep(data: seq<byte>, pos: nat, streams: ChunkStreams, inChunkSize: int,
                                    length: Option<int>, buffer: seq<byte>,
                                    length': Option<int>, buffer': seq<byte>, pos': nat, streams': ChunkStreams, y: Turn)
    requires pos <= |data| && ChunkTurn(data, pos, streams, inChunkSize, length, buffer) == More(length', buffer', pos', streams')
    requires LoopEndsWith(data, pos', streams', inChunkSize, length', buffer', y)
    ensures LoopEndsWith(data, pos, streams, inChunkSize, length, buffer, y)
  {
    ReadInterlacedStep(data, pos, streams, inChunkSize, length, buffer, length', buffer', pos', streams');
  }

  /** `ReadInterlaced` is one `ChunkTurn` followed, after a complete chunk, by the
      rest of the loop. */
  lemma {:induction false} ReadInterlacedUnfold(data: seq<byte>, pos: nat, streams: ChunkStreams, inChunkSize: int,
                                                length: Option<int>, buffer: seq<byte>)
    requires pos <= |data|
    ensures var t := ChunkTurn(data, pos, streams, inChunkSize, length, buffer);
      ReadInterlaced(data, pos, streams, inChunkSize, length, buffer)
        == if t.More? then ReadInterlaced(data, t.pos, t.streams, inChunkSize, t.length, t.buffer) else t
  {
  }

  /** What the receiver makes of a message the sender splits with a type-0 header,
      when both sides use the same chunk size: the payload and the header fields
      come back, and the chunk stream's entry holds those fields. */
  lemma {:induction false} ReadSplitMessage(data: seq<byte>, pos: nat, streams: ChunkStreams, chunkStreamID: uint16,
                                            timestamp: uint32, messageStreamID: uint32, typeRaw: byte,
                                            payload: seq<byte>, chunkSize: nat)
    requires 2 <= chunkStreamID < 64 && 1 <= |payload| < 0x100_0000 && chunkSize >= 1
    requires SliceIs(data, pos, Chunked(Type0, chunkStreamID, timestamp, messageStreamID, typeRaw, payload, chunkSize))
    ensures var info := Type0Entry(timestamp, messageStreamID, typeRaw);
      ReadInterlaced(data, pos, streams, chunkSize, None, [])
      == Finished(Assembled(info, payload),
                  pos + |Chunked(Type0, chunkStreamID, timestamp, messageStreamID, typeRaw, payload, chunkSize)|,
                  streams[chunkStreamID as nat := info])
  {
    var info := Type0Entry(timestamp, messageStreamID, typeRaw);
    var header := Header(Type0, chunkStreamID, timestamp, |payload|, typeRaw, messageStreamID);
    var pieces := Pieces(payload, chunkSize, Separator(chunkStreamID));
    var start := pos + |header|;
    assert SliceIs(data, pos, header) && SliceIs(data, start, pieces) by {
      SliceIsAppend(data, pos, header, pieces);
    }
    ReadType0Header(data, pos, EntryOf(streams, chunkStreamID as nat), chunkStreamID, timestamp, messageStreamID, typeRaw, |payload|);
    if |payload| <= chunkSize {
      ReadSingleChunk(data, pos, streams, chunkStreamID, info, start, payload, chunkSize);
    } else {
      LongMessageTurns(data, pos, streams, chunkStreamID, info, start, payload, chunkSize);
      ReadLongMessage(data, pos, streams, streams[chunkStreamID as nat := info], Separator(chunkStreamID), info, start, payload, chunkSize);
    }
  }

  /** What the loop meets at a payload longer than a chunk: its first chunk
      opens the message with `info` and carries the first piece, and the
      continuation chunks read as `ContinuationTurnsAt` says. */
  lemma {:induction false} LongMessageTurns(data: seq<byte>, pos: nat, streams: ChunkStreams, chunkStreamID: uint16,
                                            info: ChunkInfo, start: nat, payload: seq<byte>, chunkSize: nat)
    requires 2 <= chunkStreamID < 64 && 1 <= chunkSize < |payload| && pos <= |data|
    requires BasicHeaderAsWritten(data, pos) == Took((0, chunkStreamID as nat), pos + 1)
    requires MessageHeaderAt(data, pos + 1, 0, EntryOf(streams, chunkStreamID as nat), true, None)
      == Took((info, Some(|payload|)), start)
    requires SliceIs(data, start, Pieces(payload, chunkSize, Separator(chunkStreamID)))
    ensures ChunkTurn(data, pos, streams, chunkSize, None, [])
      == More(Some(|payload|), payload[..chunkSize], start + chunkSize, streams[chunkStreamID as nat := info])
    ensures ContinuationTurnsAt(data, start + chunkSize, streams[chunkStreamID as nat := info], chunkSize, info,
                                |payload|, payload[..chunkSize], payload[chunkSize..])
  {
    FirstPieceLayout(data, start, payload, chunkSize, Separator(chunkStreamID));
    FirstChunkTurn(data, pos, streams, chunkStreamID, info, start, payload, chunkSize);
    ContinuationTurns(data, start + chunkSize, streams[chunkStreamID as nat := info], chunkSize, chunkStreamID,
                      |payload|, payload[..chunkSize], payload[chunkSize..]);
  }

  /** A payload longer than a chunk: the first chunk carries the first piece, the
      continuation chunks bring the rest, and the loop ends right after the last
      piece with the whole payload. */
  lemma {:induction false} ReadLongMessage(data: seq<byte>, pos: nat, streams: ChunkStreams, streams': ChunkStreams, separator: byte,
                                           info: ChunkInfo, start: nat, payload: seq<byte>, chunkSize: nat)
    requires 1 <= chunkSize < |payload| && pos <= |data|
    requires ChunkTurn(data, pos, streams, chunkSize, None, []) == More(Some(|payload|), payload[..chunkSize], start + chunkSize, streams')
    requires ContinuationTurnsAt(data, start + chunkSize, streams', chunkSize, info, |payload|, payload[..chunkSize], payload[chunkSize..])
    ensures ReadInterlaced(data, pos, streams, chunkSize, None, [])
      == Finished(Assembled(info, payload), start + |Pieces(payload, chunkSize, separator)|, streams')
  {
    var pos' := start + chunkSize;
    var piece := payload[..chunkSize];
    var rest := payload[chunkSize..];
    var y := Finished(Assembled(info, piece + rest), pos' + 1 + |Pieces(rest, chunkSize, separator)|, streams');
    ReadContinuations(data, pos', streams', chunkSize, separator, info, |payload|, piece, rest);
    LoopStep(data, pos, streams, chunkSize, None, [], Some(|payload|), piece, pos', streams', y);
    PieceAndRest(payload, chunkSize, separator);
    assert y == Finished(Assembled(info, payload), start + |Pieces(payload, chunkSize, separator)|, streams');
  }

  /** A payload that fits one chunk is read whole with the first chunk. */
  lemma {:induction false} ReadSingleChunk(data: seq<byte>, pos: nat, streams: ChunkStreams, chunkStreamID: uint16,
                                           info: ChunkInfo, start: nat, payload: seq<byte>, chunkSize: nat)
    requires 2 <= chunkStreamID < 64 && 1 <= |payload| <= chunkSize
    requires BasicHeaderAsWritten(data, pos) == Took((0, chunkStreamID as nat), pos + 1)
    requires MessageHeaderAt(data, pos + 1, 0, EntryOf(streams, chunkStreamID as nat), true, None)
      == Took((info, Some(|payload|)), start)
    requires SliceIs(data, start, Pieces(payload, chunkSize, Separator(chunkStreamID)))
    ensures ReadInterlaced(data, pos, streams, chunkSize, None, [])
      == Finished(Assembled(info, payload), start + |payload|, streams[chunkStreamID as nat := info])
  {
    assert Pieces(payload, chunkSize, Separator(chunkStreamID)) == payload;
    assert [] + payload == payload;
    assert PayloadAt(data, start, Some(|payload|), [], chunkSize) == Took(payload, start + |payload|);
    ChunkTurnOf(data, pos, streams, chunkSize, None, [], 0, chunkStreamID as nat, info, Some(|payload|), start, payload, start + |payload|);
    ReadInterlacedUnfold(data, pos, streams, chunkSize, None, []);
  }

  /** The first chunk of a longer payload carries its first piece, and the loop
      goes on at the continuation chunks. */
  lemma {:induction false} FirstChunkTurn(data: seq<byte>, pos: nat, streams: ChunkStreams, chunkStreamID: uint16,
                                          info: ChunkInfo, start: nat, payload: seq<byte>, chunkSize: nat)
    requires 2 <= chunkStreamID < 64 && 1 <= chunkSize < |payload| && pos <= |data|
    requires BasicHeaderAsWritten(data, pos) == Took((0, chunkStreamID as nat), pos + 1)
    requires MessageHeaderAt(data, pos + 1, 0, EntryOf(streams, chunkStreamID as nat), true, None)
      == Took((info, Some(|payload|)), start)
    requires PayloadAt(data, start, Some(|payload|), [], chunkSize) == Took(payload[..chunkSize], start + chunkSize)
    ensures ChunkTurn(data, pos, streams, chunkSize, None, [])
      == More(Some(|payload|), payload[..chunkSize], start + chunkSize, streams[chunkStreamID as nat := info])
  {
    ChunkTurnOf(data, pos, streams, chunkSize, None, [], 0, chunkStreamID as nat, info, Some(|payload|), start,
                payload[..chunkSize], start + chunkSize);
  }

  /** Where a chunked payload longer than a piece stands, its first piece is what
      the first chunk's payload read takes, and continuation chunks follow. */
  lemma {:induction false} FirstPieceLayout(data: seq<byte>, start: nat, payload: seq<byte>, chunkSize: nat, separator: byte)
    requires 1 <= chunkSize < |payload|
    requires SliceIs(data, start, Pieces(payload, chunkSize, separator))
    ensures start + chunkSize <= |data|
    ensures PayloadAt(data, start, Some(|payload|), [], chunkSize) == Took(payload[..chunkSize], start + chunkSize)
    ensures ContinuationsAt(data, start + chunkSize, payload[chunkSize..], chunkSize, separator)
  {
    var rest := payload[chunkSize..];
    var piece := payload[..chunkSize];
    var tail := [separator] + Pieces(rest, chunkSize, separator);
    assert Pieces(payload, chunkSize, separator) == piece + tail;
    SliceIsAppend(data, start, piece, tail);
    assert [] + piece == piece;
    LaidOutContinuations(data, start + chunkSize, rest, chunkSize, separator);
  }

  /** A payload longer than a piece is that piece and the rest, and its chunking
      is one piece, a separator and the chunking of the rest. */
  lemma {:induction false} PieceAndRest(payload: seq<byte>, chunkSize: nat, separator: byte)
    requires 1 <= chunkSize < |payload|
    ensures payload[..chunkSize] + payload[chunkSize..] == payload
    ensures |Pieces(payload, chunkSize, separator)| == chunkSize + 1 + |Pieces(payload[chunkSize..], chunkSize, separator)|
  {
    PiecesNextLength(payload, chunkSize, separator);
  }
}
