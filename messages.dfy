/** The RTMP messages of Live/RTMP/RTMPMessage.swift: the message types, the fields
    of each `RTMPMessage` subclass, the payload getter each subclass overrides (which
    encodes once and then returns its cache) and the payload setter (which decodes
    the fields back). */
module Messages {
  import opened Wrappers
  import opened Bytes
  import opened InputStreams
  import opened NumberByteOperator
  import opened Amf0
  import Amf0Decoder
  import Ieee754

  datatype MessageType =
    | SetChunkSize | Abort | Acknowledgement | UserControl | WindowAckSize | SetPeerBandwidth
    | Audio | Video | AMF3Data | AMF3SharedObject | AMF3Command | AMF0Data | AMF0SharedObject
    | AMF0Command | Aggregate | Unknown

  /** The raw values of `MessageType`. */
  const MessageTypeRaws: set<byte> :=
    {0x01, 0x02, 0x03, 0x04, 0x05, 0x06, 0x08, 0x09, 0x0f, 0x10, 0x11, 0x12, 0x13, 0x14, 0x16, 0xff}

  /** `rawValue`; `MessageType(rawValue:)` maps it back. */
  function RawValue(t: MessageType): (r: byte)
    ensures r in MessageTypeRaws
  {
    match t
    case SetChunkSize => 0x01
    case Abort => 0x02
    case Acknowledgement => 0x03
    case UserControl => 0x04
    case WindowAckSize => 0x05
    case SetPeerBandwidth => 0x06
    case Audio => 0x08
    case Video => 0x09
    case AMF3Data => 0x0f
    case AMF3SharedObject => 0x10
    case AMF3Command => 0x11
    case AMF0Data => 0x12
    case AMF0SharedObject => 0x13
    case AMF0Command => 0x14
    case Aggregate => 0x16
    case Unknown => 0xff
  }

  /** `MessageType(rawValue:)`: `None` for a byte no case carries. */
  function MessageTypeOf(raw: byte): (r: Option<MessageType>)
    ensures r.Some? <==> raw in MessageTypeRaws
    ensures r.Some? ==> RawValue(r.value) == raw
  {
    if raw == 0x01 then Some(SetChunkSize)
    else if raw == 0x02 then Some(Abort)
    else if raw == 0x03 then Some(Acknowledgement)
    else if raw == 0x04 then Some(UserControl)
    else if raw == 0x05 then Some(WindowAckSize)
    else if raw == 0x06 then Some(SetPeerBandwidth)
    else if raw == 0x08 then Some(Audio)
    else if raw == 0x09 then Some(Video)
    else if raw == 0x0f then Some(AMF3Data)
    else if raw == 0x10 then Some(AMF3SharedObject)
    else if raw == 0x11 then Some(AMF3Command)
    else if raw == 0x12 then Some(AMF0Data)
    else if raw == 0x13 then Some(AMF0SharedObject)
    else if raw == 0x14 then Some(AMF0Command)
    else if raw == 0x16 then Some(Aggregate)
    else if raw == 0xff then Some(Unknown)
    else None
  }

  /** Every message type reads back from its raw value. */
  lemma {:induction false} MessageTypeRoundTrip(t: MessageType)
    ensures MessageTypeOf(RawValue(t)) == Some(t)
  {
  }

  /** `RTMPSetPeerBandwidthMessage.LimitType`. */
  datatype LimitType = Hard | Soft | Dynamic | UnknownLimit

  const LimitRaws: set<byte> := {0x00, 0x01, 0x02, 0xFF}

  function LimitRaw(l: LimitType): (r: byte)
    ensures r in LimitRaws
  {
    match l
    case Hard => 0x00
    case Soft => 0x01
    case Dynamic => 0x02
    case UnknownLimit => 0xFF
  }

  function LimitTypeOf(raw: byte): (r: Option<LimitType>)
    ensures r.Some? <==> raw in LimitRaws
    ensures r.Some? ==> LimitRaw(r.value) == raw
  {
    if raw == 0x00 then Some(Hard)
    else if raw == 0x01 then Some(Soft)
    else if raw == 0x02 then Some(Dynamic)
    else if raw == 0xFF then Some(UnknownLimit)
    else None
  }

  lemma {:induction false} LimitTypeRoundTrip(l: LimitType)
    ensures LimitTypeOf(LimitRaw(l)) == Some(l)
  {
  }

  /** The fields of each subclass; `None` is an implicitly unwrapped field that is
      still `nil`. Command and data objects are the AMF0 values they hold. */
  datatype Body =
    | SetChunkSizeBody(chunkSize: int64)
    | AbortBody(chunkStreamID: Option<int32>)
    | AcknowledgementBody(sequenceNumber: Option<int32>)
    | WindowAckSizeBody(windowAckSize: Option<uint32>)
    | SetPeerBandwidthBody(ackWindowSize: uint32, limit: LimitType)
    | CommandBody(commandName: seq<byte>, transactionID: int64, commandObjects: seq<Value>)
    | DataBody(dataType: Option<seq<byte>>, objects: seq<Value>)
    | AudioBody
    | VideoBody

  /** The `messageType` each subclass passes to `super.init`. */
  function TypeOf(b: Body): MessageType
  {
    match b
    case SetChunkSizeBody(_) => SetChunkSize
    case AbortBody(_) => Abort
    case AcknowledgementBody(_) => Acknowledgement
    case WindowAckSizeBody(_) => WindowAckSize
    case SetPeerBandwidthBody(_, _) => SetPeerBandwidth
    case CommandBody(_, _, _) => AMF0Command
    case DataBody(_, _) => AMF0Data
    case AudioBody => Audio
    case VideoBody => Video
  }

  /** Audio and video messages keep their payload as given. */
  predicate IsMedia(b: Body)
  {
    b.AudioBody? || b.VideoBody?
  }

  /** The message types `create` has a subclass for. */
  const CreatableTypes: set<MessageType> :=
    {SetChunkSize, Abort, Acknowledgement, WindowAckSize, SetPeerBandwidth, Audio, Video,
     AMF0Command, AMF0Data}

  /** `RTMPMessage.create(messageType:)`: the subclass's fields as its `init()` leaves
      them, or `None` (user control and the AMF3, shared-object and aggregate types). */
  function Create(t: MessageType): (r: Option<Body>)
    ensures r.Some? <==> t in CreatableTypes
    ensures r.Some? ==> TypeOf(r.value) == t
  {
    match t
    case SetChunkSize => Some(SetChunkSizeBody(0))
    case Abort => Some(AbortBody(None))
    case UserControl => None
    case WindowAckSize => Some(WindowAckSizeBody(None))
    case SetPeerBandwidth => Some(SetPeerBandwidthBody(0, Hard))
    case Audio => Some(AudioBody)
    case Video => Some(VideoBody)
    case AMF0Command => Some(CommandBody([], 0, []))
    case AMF0Data => Some(DataBody(None, []))
    case Acknowledgement => Some(AcknowledgementBody(None))
    case _ => None
  }

  /** `init(ackWindowSize:limitType:messageStreamID:)` as written: the limit type
      argument is dropped and `limit` keeps its initial `Hard`. */
  function SetPeerBandwidthAsWritten(ackWindowSize: uint32, limitType: LimitType): (b: Body)
    ensures b.SetPeerBandwidthBody? && b.ackWindowSize == ackWindowSize && b.limit == Hard
  {
    SetPeerBandwidthBody(ackWindowSize, Hard)
  }

  /** The evidently intended initializer, storing the limit type. */
  function SetPeerBandwidthInit(ackWindowSize: uint32, limitType: LimitType): (b: Body)
    ensures b.SetPeerBandwidthBody? && b.ackWindowSize == ackWindowSize && b.limit == limitType
  {
    SetPeerBandwidthBody(ackWindowSize, limitType)
  }

  // ---------------------------------------------------------------------------
  // The payload getter
  // ---------------------------------------------------------------------------

  ghost predicate ValuesEncodable(vs: seq<Value>)
    decreases |vs|
  {
    |vs| == 0 || (Encodable(vs[0]) && ValuesEncodable(vs[1..]))
  }

  ghost predicate ValuesRoundTrip(vs: seq<Value>)
    decreases |vs|
  {
    |vs| == 0 || (RoundTrips(vs[0]) && ValuesRoundTrip(vs[1..]))
  }

  /** The `dataInBytes` of each object, in order. */
  function EncodeValues(vs: seq<Value>): (r: seq<byte>)
    requires ValuesEncodable(vs)
    ensures |r| >= |vs|
    decreases |vs|
  {
    if |vs| == 0 then [] else Encode(vs[0]) + EncodeValues(vs[1..])
  }

  /** What the getter can encode without a length conversion trapping. */
  ghost predicate BodyEncodable(b: Body)
  {
    match b
    case CommandBody(name, _, objects) => |name| < 0x1_0000_0000 && ValuesEncodable(objects)
    case DataBody(t, objects) => (t.Some? ==> |t.value| < 0x1_0000_0000) && ValuesEncodable(objects)
    case _ => true
  }

  /** `x.bigEndian.bytes` of a 4-byte field on a little-endian host. */
  function WordBytes(x: uint32): (r: seq<byte>)
    ensures r == BigEndian(x, 4)
  {
    BigEndianBytes(x, 4);
    LittleEndian(ByteSwap(x, 4), 4)
  }

  /** The control messages: a fixed-size binary payload. */
  predicate IsControl(b: Body)
  {
    b.SetChunkSizeBody? || b.AbortBody? || b.AcknowledgementBody? || b.WindowAckSizeBody? ||
    b.SetPeerBandwidthBody?
  }

  /** The bytes the getter of a control message appends to the empty cache: a
      4-byte big-endian field (`Int32(chunkSize)` traps outside 32 bits, a `nil`
      field traps), then the limit type for the peer bandwidth message. */
  function EncodeControl(b: Body): (r: Outcome<seq<byte>>)
    requires IsControl(b)
    ensures !r.Fail?
    ensures r.Ok? ==> |r.value| == if b.SetPeerBandwidthBody? then 5 else 4
  {
    match b
    case SetChunkSizeBody(n) =>
      if -0x8000_0000 <= n < 0x8000_0000 then Ok(WordBytes(Unsigned(n, 4))) else Trap
    case AbortBody(id) =>
      if id.None? then Trap else Ok(WordBytes(Unsigned(id.value, 4)))
    case AcknowledgementBody(sequenceNumber) =>
      if sequenceNumber.None? then Trap else Ok(WordBytes(Unsigned(sequenceNumber.value, 4)))
    case WindowAckSizeBody(w) =>
      if w.None? then Trap else Ok(WordBytes(w.value))
    case SetPeerBandwidthBody(w, limit) =>
      Ok(WordBytes(w) + [LimitRaw(limit)])
  }

  /** The bytes the getter of a non-media subclass appends to the empty cache: the
      control field, the name and transaction id then the objects for a command,
      the type then the objects for a data message (a `nil` type traps). */
  function EncodeBody(b: Body): (r: Outcome<seq<byte>>)
    requires BodyEncodable(b) && !IsMedia(b)
    ensures !r.Fail?
    ensures r.Ok? ==> r.value != []
  {
    if b.CommandBody? then
      Ok(Encode(Str(b.commandName)) + Encode(Number(Ieee754.FromInt(b.transactionID))) + EncodeValues(b.commandObjects))
    else if b.DataBody? then
      if b.dataType.None? then Trap else Ok(Encode(Str(b.dataType.value)) + EncodeValues(b.objects))
    else EncodeControl(b)
  }

  /** The `payload` getter on the fields and the cache `stored` (`super.payload`):
      audio and video return the cache; the others return a non-empty cache as is
      and otherwise encode their fields. */
  function PayloadOf(b: Body, stored: seq<byte>): (r: Outcome<seq<byte>>)
    requires BodyEncodable(b)
    ensures !r.Fail?
    ensures IsMedia(b) || stored != [] ==> r == Ok(stored)
    ensures r.Ok? && !IsMedia(b) ==> r.value != []
  {
    if IsMedia(b) || stored != [] then Ok(stored) else EncodeBody(b)
  }

  /** Once the getter has filled the cache, reading it again gives the same bytes. */
  lemma {:induction false} PayloadStable(b: Body, stored: seq<byte>)
    requires BodyEncodable(b) && PayloadOf(b, stored).Ok?
    ensures PayloadOf(b, PayloadOf(b, stored).value) == PayloadOf(b, stored)
  {
  }

  // ---------------------------------------------------------------------------
  // The payload setter
  // ---------------------------------------------------------------------------

  /** `Int32(bytes:).bigEndian` and `UInt32(bytes:).bigEndian`: a native load of the
      first four bytes, byte-swapped. A load from fewer than four bytes reads past
      the array and stands as `None`. */
  function WordAt(bs: seq<byte>): (r: Option<uint32>)
    ensures r.Some? <==> |bs| >= 4
    ensures r.Some? ==> r.value == FromBigEndian(bs[..4])
  {
    if |bs| < 4 then None
    else
      ByteSwapIsBigEndian(bs[..4]);
      Some(ByteSwap(FromLittleEndian(bs[..4]), 4))
  }

  /** The objects the setters' `while remainLength > 0` loop appends to `acc`: it
      stops at the end of the input or at the first value `create` cannot decode
      (keeping what it has), and traps when a nested decoder traps. */
  function DecodeValues(data: seq<byte>, pos: nat, acc: seq<Value>): (r: Outcome<seq<Value>>)
    requires pos <= |data|
    ensures !r.Fail?
    ensures r.Ok? ==> acc <= r.value && |r.value| <= |acc| + (|data| - pos)
    decreases |data| - pos
  {
    if pos == |data| then Ok(acc)
    else
      var d := Decode(data, pos);
      match d.result
      case Fail => Ok(acc)
      case Trap => Trap
      case Ok(v) => DecodeValues(data, d.pos, acc + [v])
  }

  /** The command setter: skip the string tag, read the name, skip the number tag,
      read the transaction id (`Int(...)` traps on a value that is not finite or
      does not fit), then append the objects to `objects`. */
  function DecodeCommand(data: seq<byte>, objects: seq<Value>): (r: Outcome<Body>)
    ensures !r.Fail?
    ensures r.Ok? ==> r.value.CommandBody? && objects <= r.value.commandObjects
  {
    var p1 := SkipByte(|data|, 0);
    var (name, p2) := StringAt(data, p1);
    var p3 := SkipByte(|data|, p2);
    var bits := DoubleAt(data, p3);
    var p4 := Advanced(|data|, p3, 8);
    match Ieee754.ToInt(bits)
    case None => Trap
    case Some(transactionID) =>
      match DecodeValues(data, p4, objects)
      case Ok(all) => Ok(CommandBody(name, transactionID, all))
      case _ => Trap
  }

  /** The data setter: skip the string tag, read the type, append the objects. */
  function DecodeData(data: seq<byte>, objects: seq<Value>): (r: Outcome<Body>)
    ensures !r.Fail?
    ensures r.Ok? ==> r.value.DataBody? && r.value.dataType.Some? && objects <= r.value.objects
  {
    var p1 := SkipByte(|data|, 0);
    var (t, p2) := StringAt(data, p1);
    match DecodeValues(data, p2, objects)
    case Ok(all) => Ok(DataBody(Some(t), all))
    case _ => Trap
  }

  /** The fields the `payload` setter of a control message leaves, given the old
      fields `b`, the cache `stored`, and `newValue`. The peer bandwidth setter
      returns early when `newValue` equals the cache, and traps on fewer than five
      bytes or an unknown limit type. */
  function DecodeControl(b: Body, stored: seq<byte>, newValue: seq<byte>): (r: Outcome<Body>)
    requires IsControl(b)
    ensures !r.Fail?
    ensures r.Ok? ==> TypeOf(r.value) == TypeOf(b)
  {
    var word := WordAt(newValue);
    match b
    case SetChunkSizeBody(_) =>
      if word.None? then Trap else Ok(SetChunkSizeBody(Signed(word.value, 4)))
    case AbortBody(_) =>
      if word.None? then Trap else Ok(AbortBody(Some(Signed(word.value, 4))))
    case AcknowledgementBody(_) =>
      if word.None? then Trap else Ok(AcknowledgementBody(Some(Signed(word.value, 4))))
    case WindowAckSizeBody(_) =>
      if word.None? then Trap else Ok(WindowAckSizeBody(Some(word.value)))
    case SetPeerBandwidthBody(_, _) =>
      if stored == newValue then Ok(b)
      else if |newValue| < 5 then Trap
      else if LimitTypeOf(newValue[4]).None? then Trap
      else Ok(SetPeerBandwidthBody(FromBigEndian(newValue[..4]), LimitTypeOf(newValue[4]).value))
  }

  /** The fields the `payload` setter of a non-media subclass leaves; it never
      touches the cache. */
  function DecodeBody(b: Body, stored: seq<byte>, newValue: seq<byte>): (r: Outcome<Body>)
    requires !IsMedia(b)
    ensures !r.Fail?
    ensures r.Ok? ==> TypeOf(r.value) == TypeOf(b)
  {
    if b.CommandBody? then DecodeCommand(newValue, b.commandObjects)
    else if b.DataBody? then DecodeData(newValue, b.objects)
    else DecodeControl(b, stored, newValue)
  }

  // ---------------------------------------------------------------------------
  // Round trips
  // ---------------------------------------------------------------------------

  /** A control message whose fields are set decodes, on a freshly created message,
      from its own payload back to the same fields. */
  lemma {:induction false} ControlRoundTrip(b: Body)
    requires IsControl(b)
    requires b.SetChunkSizeBody? ==> -0x8000_0000 <= b.chunkSize < 0x8000_0000
    requires b.AbortBody? ==> b.chunkStreamID.Some?
    requires b.AcknowledgementBody? ==> b.sequenceNumber.Some?
    requires b.WindowAckSizeBody? ==> b.windowAckSize.Some?
    ensures EncodeControl(b).Ok?
    ensures DecodeControl(Create(TypeOf(b)).value, [], EncodeControl(b).value) == Ok(b)
  {
    match b
    case SetChunkSizeBody(n) => ChunkSizeRoundTrip(n);
    case AbortBody(id) => AbortRoundTrip(id.value);
    case AcknowledgementBody(sequenceNumber) => AcknowledgementRoundTrip(sequenceNumber.value);
    case WindowAckSizeBody(w) => WindowAckSizeRoundTrip(w.value);
    case SetPeerBandwidthBody(w, limit) => PeerBandwidthRoundTrip(w, limit);
  }

  lemma {:induction false} ChunkSizeRoundTrip(n: int32)
    ensures EncodeControl(SetChunkSizeBody(n)) == Ok(WordBytes(Unsigned(n, 4)))
    ensures DecodeControl(SetChunkSizeBody(0), [], WordBytes(Unsigned(n, 4))) == Ok(SetChunkSizeBody(n))
  {
    SignedWordRoundTrip(n);
  }

  lemma {:induction false} AbortRoundTrip(id: int32)
    ensures EncodeControl(AbortBody(Some(id))) == Ok(WordBytes(Unsigned(id, 4)))
    ensures DecodeControl(AbortBody(None), [], WordBytes(Unsigned(id, 4))) == Ok(AbortBody(Some(id)))
  {
    SignedWordRoundTrip(id);
  }

  lemma {:induction false} AcknowledgementRoundTrip(sequenceNumber: int32)
    ensures EncodeControl(AcknowledgementBody(Some(sequenceNumber))) == Ok(WordBytes(Unsigned(sequenceNumber, 4)))
    ensures DecodeControl(AcknowledgementBody(None), [], WordBytes(Unsigned(sequenceNumber, 4)))
      == Ok(AcknowledgementBody(Some(sequenceNumber)))
  {
    SignedWordRoundTrip(sequenceNumber);
  }

  lemma {:induction false} WindowAckSizeRoundTrip(w: uint32)
    ensures EncodeControl(WindowAckSizeBody(Some(w))) == Ok(WordBytes(w))
    ensures DecodeControl(WindowAckSizeBody(None), [], WordBytes(w)) == Ok(WindowAckSizeBody(Some(w)))
  {
    WordRoundTrip(w);
  }

  lemma {:induction false} WordRoundTrip(x: uint32)
    ensures WordAt(WordBytes(x)) == Some(x)
  {
    assert WordBytes(x)[..4] == BigEndian(x, 4);
    BigEndianRoundTrip(x, 4);
  }

  lemma {:induction false} SignedWordRoundTrip(n: int32)
    ensures WordAt(WordBytes(Unsigned(n, 4))) == Some(Unsigned(n, 4))
    ensures Signed(Unsigned(n, 4), 4) == n
  {
    WordRoundTrip(Unsigned(n, 4));
    SignedUnsigned(n, 4);
  }

  lemma {:induction false} PeerBandwidthRoundTrip(w: uint32, limit: LimitType)
    ensures EncodeControl(SetPeerBandwidthBody(w, limit)) == Ok(WordBytes(w) + [LimitRaw(limit)])
    ensures DecodeControl(SetPeerBandwidthBody(0, Hard), [], WordBytes(w) + [LimitRaw(limit)])
      == Ok(SetPeerBandwidthBody(w, limit))
  {
    var payload := WordBytes(w) + [LimitRaw(limit)];
    assert payload[..4] == BigEndian(w, 4);
    assert payload[4] == LimitRaw(limit);
    BigEndianRoundTrip(w, 4);
    LimitTypeRoundTrip(limit);
  }

  /** The objects' encodings, filling the input from `pos` to its end, decode back
      to the same objects. */
  lemma {:induction false} DecodeValuesEncode(data: seq<byte>, pos: nat, acc: seq<Value>, vs: seq<Value>)
    requires ValuesEncodable(vs) && ValuesRoundTrip(vs)
    requires pos + |EncodeValues(vs)| == |data| && BytesAt(data, pos, EncodeValues(vs))
    ensures DecodeValues(data, pos, acc) == Ok(acc + vs)
    decreases |vs|
  {
    if |vs| == 0 {
      assert acc + vs == acc;
    } else {
      var head := Encode(vs[0]);
      BytesAtAppend(data, pos, head, EncodeValues(vs[1..]));
      DecodeEncodeAt(data, pos, vs[0]);
      DecodeValuesStep(data, pos, acc, vs[0], pos + |head|);
      DecodeValuesEncode(data, pos + |head|, acc + [vs[0]], vs[1..]);
      AppendHead(acc, vs);
    }
  }

  /** One turn of the setters' loop over a value that decodes. */
  lemma {:induction false} DecodeValuesStep(data: seq<byte>, pos: nat, acc: seq<Value>, v: Value, next: nat)
    requires pos <= |data| && Decode(data, pos) == Decoded(Ok(v), next)
    ensures next <= |data| && DecodeValues(data, pos, acc) == DecodeValues(data, next, acc + [v])
  {
  }

  lemma {:induction false} AppendHead<T>(acc: seq<T>, vs: seq<T>)
    requires |vs| > 0
    ensures acc + [vs[0]] + vs[1..] == acc + vs
  {
    assert [vs[0]] + vs[1..] == vs;
  }

  /** An encoded string followed by `rest`: the tag, then the string body. */
  lemma {:induction false} StringThenRest(data: seq<byte>, str: seq<byte>, rest: seq<byte>)
    requires |str| <= 0xFFFF && data == Encode(Str(str)) + rest
    ensures |data| == 3 + |str| + |rest| && data[0] == StringMarker
    ensures StringAt(data, 1) == (str, 3 + |str|) && data[3 + |str|..] == rest
  {
    var body := BigEndian(|str|, 2) + str;
    assert data == [StringMarker] + body + rest;
    assert data[1..1 + |body|] == body;
    StringAtBytes(data, 1, str);
    assert data[1 + |body|..] == rest;
  }

  /** An encoded number followed by `rest`, from `pos` on. */
  lemma {:induction false} NumberThenRest(data: seq<byte>, pos: nat, bits: uint64, rest: seq<byte>)
    requires pos <= |data| && data[pos..] == Encode(Number(bits)) + rest
    ensures pos + 9 <= |data| && data[pos] == NumberMarker
    ensures DoubleAt(data, pos + 1) == bits && data[pos + 9..] == rest
  {
    var tail := data[pos..];
    assert tail == [NumberMarker] + BigEndian(bits, 8) + rest;
    assert data[pos] == tail[0];
    assert data[pos + 1..pos + 9] == tail[1..9] == BigEndian(bits, 8);
    DoubleAtBigEndian(data, pos + 1, bits);
    assert data[pos + 9..] == tail[9..] == rest;
  }

  /** The objects' encodings fill the input from `pos` to its end. */
  lemma {:induction false} ValuesThenEnd(data: seq<byte>, pos: nat, acc: seq<Value>, vs: seq<Value>)
    requires ValuesEncodable(vs) && ValuesRoundTrip(vs)
    requires pos <= |data| && data[pos..] == EncodeValues(vs)
    ensures DecodeValues(data, pos, acc) == Ok(acc + vs)
  {
    BytesAtSlice(data, pos, EncodeValues(vs));
    DecodeValuesEncode(data, pos, acc, vs);
  }

  lemma {:induction false} Associative<T>(a: seq<T>, b: seq<T>, c: seq<T>)
    ensures a + b + c == a + (b + c)
  {
  }

  /** The command setter reads back the name, the transaction id and the objects
      from the bytes the getter writes. */
  lemma {:induction false} DecodeCommandEncode(name: seq<byte>, transactionID: int64, objects: seq<Value>)
    requires |name| <= 0xFFFF && -Ieee754.Two53 < transactionID < Ieee754.Two53
    requires ValuesEncodable(objects) && ValuesRoundTrip(objects)
    ensures var bits := Ieee754.FromInt(transactionID);
      DecodeCommand(Encode(Str(name)) + (Encode(Number(bits)) + EncodeValues(objects)), [])
        == Ok(CommandBody(name, transactionID, objects))
  {
    var bits := Ieee754.FromInt(transactionID);
    var tail := EncodeValues(objects);
    var data := Encode(Str(name)) + (Encode(Number(bits)) + tail);
    StringThenRest(data, name, Encode(Number(bits)) + tail);
    var p := 3 + |name|;
    NumberThenRest(data, p, bits, tail);
    Ieee754.ToIntFromInt(transactionID);
    ValuesThenEnd(data, p + 9, [], objects);
    assert [] + objects == objects;
    assert SkipByte(|data|, 0) == 1;
    assert SkipByte(|data|, p) == p + 1;
    assert Advanced(|data|, p + 1, 8) == p + 9;
  }

  /** A command whose name fits a 16-bit length, whose transaction id a double holds
      exactly, and whose objects round-trip, decodes on a freshly created command
      message from its own payload back to the same fields. */
  lemma {:induction false} CommandRoundTrip(name: seq<byte>, transactionID: int64, objects: seq<Value>)
    requires |name| <= 0xFFFF && -Ieee754.Two53 < transactionID < Ieee754.Two53
    requires ValuesEncodable(objects) && ValuesRoundTrip(objects)
    ensures EncodeBody(CommandBody(name, transactionID, objects)).Ok?
    ensures DecodeBody(Create(AMF0Command).value, [], EncodeBody(CommandBody(name, transactionID, objects)).value)
      == Ok(CommandBody(name, transactionID, objects))
  {
    var bits := Ieee754.FromInt(transactionID);
    Associative(Encode(Str(name)), Encode(Number(bits)), EncodeValues(objects));
    DecodeCommandEncode(name, transactionID, objects);
  }

  /** The data setter reads back the type and the objects. */
  lemma {:induction false} DecodeDataEncode(t: seq<byte>, objects: seq<Value>)
    requires |t| <= 0xFFFF && ValuesEncodable(objects) && ValuesRoundTrip(objects)
    ensures DecodeData(Encode(Str(t)) + EncodeValues(objects), []) == Ok(DataBody(Some(t), objects))
  {
    var tail := EncodeValues(objects);
    var data := Encode(Str(t)) + tail;
    StringThenRest(data, t, tail);
    ValuesThenEnd(data, 3 + |t|, [], objects);
    assert [] + objects == objects;
    assert SkipByte(|data|, 0) == 1;
  }

  /** A data message with its type set, under the same conditions, decodes on a
      freshly created data message back to the same fields. */
  lemma {:induction false} DataRoundTrip(t: seq<byte>, objects: seq<Value>)
    requires |t| <= 0xFFFF && ValuesEncodable(objects) && ValuesRoundTrip(objects)
    ensures EncodeBody(DataBody(Some(t), objects)).Ok?
    ensures DecodeBody(Create(AMF0Data).value, [], EncodeBody(DataBody(Some(t), objects)).value)
      == Ok(DataBody(Some(t), objects))
  {
    DecodeDataEncode(t, objects);
  }

  /** The initializer as written loses a `Soft` limit on the way to the wire: its
      payload decodes to a `Hard` limit, where the intended one keeps `Soft`. */
  lemma {:induction false} SetPeerBandwidthLosesLimit(w: uint32)
    ensures DecodeControl(Create(SetPeerBandwidth).value, [], EncodeControl(SetPeerBandwidthAsWritten(w, Soft)).value)
      == Ok(SetPeerBandwidthBody(w, Hard))
    ensures DecodeControl(Create(SetPeerBandwidth).value, [], EncodeControl(SetPeerBandwidthInit(w, Soft)).value)
      == Ok(SetPeerBandwidthBody(w, Soft))
  {
    ControlRoundTrip(SetPeerBandwidthAsWritten(w, Soft));
    ControlRoundTrip(SetPeerBandwidthInit(w, Soft));
  }

  // ---------------------------------------------------------------------------
  // The message object
  // ---------------------------------------------------------------------------

  /** The loop both setters share, over the setter's own input stream. */
  method ReadValues(s: ByteArrayInputStream, acc: seq<Value>) returns (r: Outcome<seq<Value>>)
    requires s.Valid()
    modifies s`currentPosition
    ensures r == DecodeValues(s.byteArray, old(s.currentPosition), acc)
  {
    ghost var data, start := s.byteArray, s.currentPosition;
    var objects := acc;
    while s.RemainLength() > 0
      invariant s.Valid() && s.byteArray == data
      invariant DecodeValues(data, s.currentPosition, objects) == DecodeValues(data, start, acc)
      decreases |data| - s.currentPosition
    {
      var decoded := Amf0Decoder.Create(s);
      match decoded
      case Fail =>
        return Ok(objects);
      case Trap =>
        return Trap;
      case Ok(v) =>
        objects := objects + [v];
    }
    r := Ok(objects);
  }

  /** The command message's `payload` setter. */
  method ReadCommand(newValue: seq<byte>, objects: seq<Value>) returns (r: Outcome<Body>)
    ensures r == DecodeCommand(newValue, objects)
  {
    var s := new ByteArrayInputStream(newValue);
    var _ := s.ReadByte();
    var name := Amf0Decoder.ReadStringBody(s);
    var _ := s.ReadByte();
    var bits := ReadDouble(s);
    var transactionID := Ieee754.ToInt(bits);
    if transactionID.None? {
      return Trap;
    }
    var all := ReadValues(s, objects);
    if all.Ok? {
      r := Ok(CommandBody(name, transactionID.value, all.value));
    } else {
      r := Trap;
    }
  }

  /** The data message's `payload` setter. */
  method ReadData(newValue: seq<byte>, objects: seq<Value>) returns (r: Outcome<Body>)
    ensures r == DecodeData(newValue, objects)
  {
    var s := new ByteArrayInputStream(newValue);
    var _ := s.ReadByte();
    var t := Amf0Decoder.ReadStringBody(s);
    var all := ReadValues(s, objects);
    if all.Ok? {
      r := Ok(DataBody(Some(t), all.value));
    } else {
      r := Trap;
    }
  }

  /** What a sent message is: its header fields, its fields and its cache. */
  datatype Snapshot = Snapshot(timestamp: uint32, messageStreamID: uint32, body: Body, stored: seq<byte>)

  /** An `RTMPMessage` of the subclass `body` picks. */
  class Message {
    var timestamp: uint32
    var messageStreamID: uint32
    var body: Body
    var stored: seq<byte>

    /** The subclass initializers: a zero timestamp and an empty cache. */
    constructor (body: Body, messageStreamID: uint32)
      ensures this.body == body && this.messageStreamID == messageStreamID
      ensures timestamp == 0 && stored == []
    {
      this.body := body;
      this.messageStreamID := messageStreamID;
      timestamp := 0;
      stored := [];
    }

    function Snap(): Snapshot
      reads this
    {
      Snapshot(timestamp, messageStreamID, body, stored)
    }

    /** The `payload` getter; it fills an empty cache. */
    method Payload() returns (r: Outcome<seq<byte>>)
      requires BodyEncodable(body)
      modifies this`stored
      ensures r == PayloadOf(body, old(stored))
      ensures stored == if r.Ok? then r.value else old(stored)
    {
      if IsMedia(body) || stored != [] {
        return Ok(stored);
      }
      r := EncodeBody(body);
      if r.Ok? {
        stored := r.value;
      }
    }

    /** The `payload` setter: audio and video replace the cache, the others decode
        their fields from `newValue`. */
    method SetPayload(newValue: seq<byte>) returns (trapped: bool)
      modifies this`body, this`stored
      ensures IsMedia(old(body)) ==> !trapped && body == old(body) && stored == newValue
      ensures !IsMedia(old(body)) ==>
        var r := DecodeBody(old(body), old(stored), newValue);
        (trapped <==> r.Trap?) && (r.Ok? ==> body == r.value) && stored == old(stored)
    {
      if IsMedia(body) {
        stored := newValue;
        return false;
      }
      var r := DecodeFields(body, stored, newValue);
      if r.Ok? {
        body := r.value;
      }
      trapped := r.Trap?;
    }

    /** `commandObjects.append(_:)` on a command message. */
    method AppendCommandObject(v: Value)
      requires body.CommandBody?
      modifies this`body
      ensures body == old(body).(commandObjects := old(body).commandObjects + [v])
    {
      body := body.(commandObjects := body.commandObjects + [v]);
    }

    /** `objects.append(_:)` on a data message. */
    method AppendDataObject(v: Value)
      requires body.DataBody?
      modifies this`body
      ensures body == old(body).(objects := old(body).objects + [v])
    {
      body := body.(objects := body.objects + [v]);
    }
  }

  /** The non-media setters: the command and data setters walk an input stream, the
      control setters load fixed fields. */
  method DecodeFields(b: Body, stored: seq<byte>, newValue: seq<byte>) returns (r: Outcome<Body>)
    requires !IsMedia(b)
    ensures r == DecodeBody(b, stored, newValue)
  {
    if b.CommandBody? {
      r := ReadCommand(newValue, b.commandObjects);
    } else if b.DataBody? {
      r := ReadData(newValue, b.objects);
    } else {
      r := DecodeControl(b, stored, newValue);
    }
  }

  /** A new command message with a null and then `v` appended, the shape of most
      commands the client sends. */
  method NullAndObjectCommand(name: seq<byte>, transactionID: int64, messageStreamID: uint32, v: Value)
    returns (m: Message)
    ensures fresh(m)
    ensures m.Snap() == Snapshot(0, messageStreamID, CommandBody(name, transactionID, [Null, v]), [])
  {
    m := new Message(CommandBody(name, transactionID, []), messageStreamID);
    m.AppendCommandObject(Null);
    m.AppendCommandObject(v);
  }

  /** The audio and video initializers: the buffer goes through the setter. */
  method NewMedia(video: bool, buffer: seq<byte>, messageStreamID: uint32) returns (m: Message)
    ensures fresh(m)
    ensures m.Snap() == Snapshot(0, messageStreamID, if video then VideoBody else AudioBody, buffer)
  {
    m := new Message(if video then VideoBody else AudioBody, messageStreamID);
    var _ := m.SetPayload(buffer);
  }
}
