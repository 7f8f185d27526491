# RTMP publishing core in Dafny

This project models the publishing side of an RTMP client written in Swift, and
the FLV tag muxing that feeds it, and proves properties of that model. It
covers:

- the byte cursor (`ByteArrayInputStream`) and the big-endian number readers
  (`NumberByteOperator`);
- the AMF0 value codec (`Amf0`), including the decoders that walk the cursor and
  the cached `dataInBytes`;
- the RTMP message payload codecs (`RTMPMessage`): the protocol control
  messages, the AMF0 command and data messages, and audio and video;
- chunk framing: the sender's `splitMessage` and the receiver's
  `readInterlacedMessage`, with its per-chunk-stream table, plus
  `handleReceivedMessage` and `expectCommandMessage`;
- the simple handshake (C0, C1, S0 to S2, C2);
- command sequencing: `RTMPConnector`, `RTMPStream` and `RTMPPublishClient`;
- the FLV enumerations (`FLV.swift`) and `RTMPMuxer`, which packs video and
  audio tag headers and tracks the timestamp deltas.

The socket is an input byte sequence with a read position and an output log
of events. The system clock and the random bytes of the handshake are
parameters. A Swift runtime trap (a forced unwrap of nil, an arithmetic
overflow, a range out of bounds) is an explicit outcome, `Trap`, `Trapped` or
`Crashed`, rather than a precondition.

Modules, one per file:

| file | module | models |
|---|---|---|
| wrappers.dfy | Wrappers | `Option` and `Outcome` |
| bytes.dfy | Bytes | bytes, fixed-width integers, native and big-endian byte views |
| ieee754.dfy | Ieee754 | `Double(Int)` and `Int(Double)` conversions on bit patterns |
| input_stream.dfy | InputStreams | `ByteArrayInputStream` |
| number_byte_operator.dfy | NumberByteOperator | `NumberByteOperator` and the `bytes` extension |
| assoc_lists.dfy | AssocLists | Swift dictionaries as association lists |
| amf0.dfy | Amf0 | the AMF0 values, their encodings and the decoders as functions |
| amf0_decoder.dfy | Amf0Decoder | the AMF0 decoders as loops over the cursor; the cached encoding |
| messages.dfy | Messages | `RTMPMessage` and its subclasses |
| chunk.dfy | Chunks | `RTMPChunk.splitMessage` |
| framing.dfy | Framing | the chunk reader of `RTMPReceiver` as functions of the input |
| socket.dfy | Sockets | the socket as an input sequence and an event log |
| receiver.dfy | Receivers | `RTMPReceiver` |
| handshake.dfy | Handshakes | `RTMPHandshake` |
| connector.dfy | Connectors | `RTMPConnector` |
| stream.dfy | Streams | `RTMPStream` |
| publish_client.dfy | PublishClients | `RTMPPublishClient` |
| flv.dfy | Flv | `FLV.swift` |
| muxer.dfy | Muxers | `RTMPMuxer` |

## Model

| member | source | states |
|---|---|---|
| Bytes.LittleEndianRoundTrip | Live/RTMP/NumberByteOperator.swift:11-19 | `init(bytes: x.bytes) == x`: reading back the n-byte native view of a value below 256^n gives the value |
| Bytes.LittleEndianOfValue | Live/RTMP/NumberByteOperator.swift:11-19 | the other direction: the native view of the value read from n bytes is those bytes |
| Bytes.BigEndianRoundTrip | Live/RTMP/NumberByteOperator.swift:23-45 | a value below 256^n written big-endian in n bytes reads back as itself |
| Bytes.BigEndianOfValue | Live/RTMP/NumberByteOperator.swift:23-45 | n bytes read big-endian and written back big-endian are the same bytes |
| Bytes.BigEndianInjective | Live/RTMP/NumberByteOperator.swift:23-45 | two values below 256^n have equal big-endian encodings exactly when they are equal |
| Bytes.FromLittleEndianReversed | Live/RTMP/NumberByteOperator.swift:41-45 | reading reversed bytes through the native view is reading them big-endian (`Double(bytes: bytes.reversed())`) |
| Bytes.ByteSwapIsBigEndian | Live/RTMP/NumberByteOperator.swift:23-39 | `UInt(bytes:).bigEndian` on a little-endian host is the big-endian value of the bytes |
| Bytes.BigEndianBytes | Live/RTMP/RTMPMessage.swift:113-124 | `x.bigEndian.bytes` on a little-endian host is the n-byte big-endian encoding of x |
| Bytes.ReversedBytes | Live/RTMP/Amf0.swift:94-113 | `x.bytes.reversed()` is the big-endian encoding of x |
| Bytes.SignedUnsigned | Live/RTMP/RTMPHandshake.swift:33-38 | a signed n-byte value turned into its two's-complement pattern and back is itself |
| Bytes.BigEndian2 | Live/RTMP/NumberByteOperator.swift:23-27 | two bytes read big-endian are `b0*256 + b1` |
| Bytes.BigEndian3 | Live/RTMP/NumberByteOperator.swift:29-33 | three bytes read big-endian are `b0*65536 + b1*256 + b2` |
| Bytes.BigEndian4 | Live/RTMP/NumberByteOperator.swift:35-39 | four bytes read big-endian are `b0*2^24 + b1*2^16 + b2*2^8 + b3` |
| Bytes.Ascii | Live/RTMP/Amf0.swift:184-186 | `[UInt8](s.utf8)` of an ASCII string has one byte per character, each the character's code |
| InputStreams.ByteArrayInputStream.constructor | Live/RTMP/ByteArrayInputStream.swift:18-20 | a new cursor holds the array and stands at position 0 |
| InputStreams.ByteArrayInputStream.RemainLength | Live/RTMP/ByteArrayInputStream.swift:14-16 | `remainLength` is `byteArray.count - currentPosition`, between 0 and the count, and 0 exactly at the end |
| InputStreams.ByteArrayInputStream.Read | Live/RTMP/ByteArrayInputStream.swift:23-35 | the buffer holds the next bytes (all of it when `maxLength` bytes remain, else only the remaining bytes with the buffer's tail untouched); the position moves by `maxLength` or to the end; the array does not change; the cursor invariant `0 <= currentPosition <= count` holds |
| InputStreams.ByteArrayInputStream.TryRead | Live/RTMP/ByteArrayInputStream.swift:38-48 | fills the buffer exactly as `Read` would and leaves the position and the array unchanged |
| InputStreams.ByteArrayInputStream.CopyInto | Live/RTMP/ByteArrayInputStream.swift:25-27 | the copying loop: the first k buffer bytes become the input bytes from the position and the rest keep their old values |
| InputStreams.ByteArrayInputStream.ReadByte | Live/RTMP/ByteArrayInputStream.swift:52-60 | `read()` returns the byte at the position and advances by 1 when a byte remains; at the end it returns nil and changes nothing |
| InputStreams.PeekWhole | Live/RTMP/ByteArrayInputStream.swift:24-28 | with n bytes remaining, a read of n bytes into a zeroed buffer yields `byteArray[pos..pos+n]` and advances by n |
| InputStreams.PeekShort | Live/RTMP/ByteArrayInputStream.swift:29-34 | with fewer than n bytes remaining, it yields the remaining bytes then zeros, and the position goes to the end |
| NumberByteOperator.LeadingZero | Live/RTMP/NumberByteOperator.swift:32 | prepending `0x00` does not change a big-endian value |
| NumberByteOperator.UInt16At | Live/RTMP/NumberByteOperator.swift:23-27 | `readUInt16` gives the next two bytes big-endian, missing bytes reading as 0; with two bytes present it is `b0*256 + b1` |
| NumberByteOperator.UInt24At | Live/RTMP/NumberByteOperator.swift:29-33 | `readUInt24` gives the next three bytes big-endian, missing bytes reading as 0; with three present it is `b0*65536 + b1*256 + b2` |
| NumberByteOperator.UInt32AtAsWritten | Live/RTMP/NumberByteOperator.swift:35-39 | `readUInt32` as written: the value of the first three of the four bytes read |
| NumberByteOperator.UInt32AtAsWrittenBigEndian | Live/RTMP/NumberByteOperator.swift:35-39 | a 32-bit value written as four big-endian bytes reads back, as written, as that value divided by 256 |
| NumberByteOperator.UInt32At | Live/RTMP/NumberByteOperator.swift:35-39 | the corrected `readUInt32`: the next four bytes big-endian |
| NumberByteOperator.DoubleAt | Live/RTMP/NumberByteOperator.swift:41-45 | `readDouble` gives the 64-bit pattern of the next eight bytes taken most significant first |
| NumberByteOperator.UInt32AsWrittenDropsLastByte | Live/RTMP/NumberByteOperator.swift:35-39 | over `01 02 03 04` the as-written reader gives 0x010203 and the corrected one 0x01020304 |
| NumberByteOperator.UInt32AtBigEndian | Live/RTMP/NumberByteOperator.swift:35-39 | the corrected reader reads back any 32-bit value written as four big-endian bytes |
| NumberByteOperator.UInt24AtBigEndian | Live/RTMP/NumberByteOperator.swift:29-33 | `readUInt24` reads back any 24-bit value written as three big-endian bytes |
| NumberByteOperator.UInt16AtBigEndian | Live/RTMP/NumberByteOperator.swift:23-27 | `readUInt16` reads back any 16-bit value written as two big-endian bytes |
| NumberByteOperator.DoubleAtBigEndian | Live/RTMP/NumberByteOperator.swift:41-45 | `readDouble` reads back any 64-bit pattern written as eight big-endian bytes |
| NumberByteOperator.ReadInto | Live/RTMP/NumberByteOperator.swift:24-25 | a read of n bytes into a fresh zeroed buffer yields the peeked bytes and advances the cursor as `read` does |
| NumberByteOperator.ReadUInt16 | Live/RTMP/NumberByteOperator.swift:23-27 | returns `UInt16At` at the old position and advances by 2 (or to the end) |
| NumberByteOperator.ReadUInt24 | Live/RTMP/NumberByteOperator.swift:29-33 | returns `UInt24At` at the old position and advances by 3 (or to the end) |
| NumberByteOperator.ReadUInt32AsWritten | Live/RTMP/NumberByteOperator.swift:35-39 | returns the as-written three-byte value and advances by 4 (or to the end); the strict-array decoder, the only caller, uses it |
| NumberByteOperator.ReadUInt32 | Live/RTMP/NumberByteOperator.swift:35-39 | returns the corrected four-byte value and advances by 4 (or to the end) |
| NumberByteOperator.ReadDouble | Live/RTMP/NumberByteOperator.swift:41-45 | returns `DoubleAt` at the old position and advances by 8 (or to the end) |
| Ieee754.ToInt | Live/RTMP/RTMPMessage.swift:307 | `Int(d)` does not trap exactly when the pattern is finite and its value truncated toward zero fits in 64 bits, and then it is that truncated value |
| Ieee754.ToInt32 | Live/RTMP/RTMPHandshake.swift:33-35 | `Int32(d)` does not trap exactly when the truncated value is finite and fits in 32 signed bits, and then it is that value |
| Ieee754.ToUInt32 | Live/RTMP/RTMPConnector.swift:85 | `UInt32(d)` does not trap exactly when the truncated value is finite and in 0..2^32-1, and then it is that value |
| Ieee754.TruncateFromInt | Live/RTMP/Amf0.swift:76-91 | every integer of magnitude below 2^53 survives `Double(n)` followed by truncation exactly |
| Ieee754.ToIntFromInt | Live/RTMP/RTMPMessage.swift:295-307 | `Int(Double(n)) == n` for every integer of magnitude below 2^53, so a transaction id written as a Number reads back |
| Ieee754.ToUInt32FromInt | Live/RTMP/RTMPConnector.swift:85 | `UInt32(Double(u)) == u` for every 32-bit unsigned u |
| Ieee754.Unpack | Live/RTMP/Amf0.swift:76-91 | a pattern built from a sign, an exponent and a mantissa field gives those fields back |
| Ieee754.NormalizeExact | Live/RTMP/Amf0.swift:76-91 | a magnitude below 2^53 is normalized without rounding: exponent `Log2(a) + 1023` and the shifted significand |
| Ieee754.FromIntExact | Live/RTMP/Amf0.swift:76-91 | the fields `Double(n)` has for a nonzero integer of magnitude below 2^53 |
| Ieee754.Rounded | Live/RTMP/Amf0.swift:76-91 | rounding a magnitude with more than 53 significant bits yields an exponent and a mantissa within their field widths |
| Ieee754.HalfEven | Live/RTMP/Amf0.swift:76-91 | round-half-to-even of a quotient moves it by at most one |
| AssocLists.Lookup | Live/RTMP/RTMPPublishClient.swift:70-78 | `dict[key]` is nil exactly when the key is absent, and otherwise an entry with that key and value is in the dictionary |
| AssocLists.Insert | Live/RTMP/Amf0.swift:231-245 | `dict[key] = value`: the key then maps to the value, every other key keeps its lookup, and a new key is appended |
| AssocLists.InsertDistinct | Live/RTMP/Amf0.swift:283 | storing into a dictionary keeps its keys distinct |
| AssocLists.AsMap | Live/RTMP/RTMPPublishClient.swift:70-78 | the map a list stands for has exactly its keys, with the values `Lookup` finds |
| AssocLists.MergeDistinct | Live/RTMP/RTMPPublishClient.swift:74-76 | storing the entries of one dictionary into another keeps the keys distinct |
| AssocLists.MergeFresh | Live/RTMP/RTMPPublishClient.swift:74-76 | storing entries whose keys are all new appends them in order |
| AssocLists.MergeUnique | Live/RTMP/Amf0.swift:270-285 | storing entries with distinct keys one by one into an empty dictionary gives those entries |
| AssocLists.MergeSnoc | Live/RTMP/RTMPPublishClient.swift:74-76 | storing one more entry after the others is one more `Insert` |
| AssocLists.MergePrefix | Live/RTMP/RTMPPublishClient.swift:74-76 | the loop invariant of storing entries one at a time: after i+1 entries, the dictionary is the one after i with entry i inserted |
| AssocLists.MergeLastWins | Live/RTMP/Amf0.swift:283 | of several entries with the same key, the last one stored wins |
| AssocLists.MergeLookup | Live/RTMP/RTMPPublishClient.swift:70-78 | after the merge, every key of the new entries maps to its new value and every other key keeps its old lookup |
| AssocLists.MergeAsMap | Live/RTMP/RTMPPublishClient.swift:70-78 | as maps, the merge is the old map overridden by the new one (`old + new`) |
| AssocLists.MergeAsMapKey | Live/RTMP/RTMPPublishClient.swift:70-78 | the same, key by key |
| AssocLists.LookupAsMap | Live/RTMP/RTMPPublishClient.swift:70-78 | the map holds a key exactly when `Lookup` finds it, with the same value |
| AssocLists.UniqueKeysDistinct | Live/RTMP/Amf0.swift:229 | the two ways of saying that a dictionary has no duplicate key agree |
| Amf0.Encode | Live/RTMP/Amf0.swift:94-377 | `dataInBytes` of every subclass: never empty and never starting with the object end tag 0x09; an ECMA array is written exactly as an Object, tag 0x03 and no count, because its getter's `super.dataInBytes` runs `Amf0Object`'s getter, which fills the cache first (lines 320-337) |
| Amf0.EncodeReversesBytes | Live/RTMP/Amf0.swift:94-103 | a Number is `0x00` then `value.bytes.reversed()`; a Date is the ECMA array tag, its reversed bytes and `00 00` (lines 366-377) |
| Amf0.EncodeProperty | Live/RTMP/Amf0.swift:254-261 | one object property is 2 + key length + value encoding bytes long |
| Amf0.PropertyValue | Live/RTMP/Amf0.swift:231-245 | `setProperties` types its argument: a Double is stored as is, a String as String, a Bool as Boolean, and an Int (below 2^53), Int32 or UInt32 as a Number that reads back as that integer |
| Amf0.SetProperty | Live/RTMP/Amf0.swift:231-245 | after `setProperties(key:value:)` the key maps to the converted value, no other key changes, keys stay distinct, and a new key is appended |
| Amf0.PropertiesOf | Live/RTMP/RTMPConnector.swift:24-36 | a new object after a run of `setProperties` calls on distinct keys holds one entry per call, in order, each converted |
| Amf0.SetPropertiesStep | Live/RTMP/Amf0.swift:231-245 | each further call with a new key appends its entry after the earlier ones |
| Amf0.PropertiesOfLookup | Live/RTMP/Amf0.swift:231-245 | a key is in the object exactly when it was set, and holds the converted value set for it |
| Amf0.PropertiesOfAt | Live/RTMP/Amf0.swift:231-245 | with no key set twice, each key holds the value set for it |
| Amf0.SkipByte | Live/RTMP/ByteArrayInputStream.swift:52-60 | `read()` used to skip a byte moves only when a byte remains |
| Amf0.StringAt | Live/RTMP/Amf0.swift:213-223 | the string body: as many bytes as the 2-byte length says, and the position stays within the input |
| Amf0.Decode | Live/RTMP/Amf0.swift:38-67 | `create` returns nil exactly on empty input or on a tag outside {0x00, 0x01, 0x02, 0x03, 0x05, 0x06, 0x08, 0x0a, 0x0b}, having consumed at most the tag; on success it has consumed at least one byte |
| Amf0.DecodeTagged | Live/RTMP/Amf0.swift:43-66 | the decoder for a tag fails exactly on the tags without a subclass, and then reads nothing more |
| Amf0.DecodeBoolean | Live/RTMP/Amf0.swift:163-166 | a Boolean is true exactly when the next byte exists and is 0x01, and one byte is skipped |
| Amf0.DecodeObject | Live/RTMP/Amf0.swift:270-285 | the Object decoder (inherited by the ECMA array, which so reads no count) never returns nil, stays within the input, and yields an Object or an ECMA array as asked |
| Amf0.DecodeStrictArray | Live/RTMP/Amf0.swift:310-317 | the strict array decoder takes its count from `readUInt32` as written (the first three of the four count bytes), never returns nil, yields a strict array of at most that many items, and traps on a count of 0 (`1...0`) after reading the 4 count bytes |
| Amf0.DecodeProperties | Live/RTMP/Amf0.swift:270-285 | the property loop stays within the input and never yields nil; it stops after the end marker or at the first failing key or value, keeping what it has |
| Amf0.DecodeItems | Live/RTMP/Amf0.swift:313-316 | the item loop stays within the input and never yields nil |
| Amf0.DecodeEncode | Live/RTMP/Amf0.swift:38-313 | decoding the bytes an encodable value writes yields the value and consumes exactly those bytes, for numbers, Booleans, strings of at most 65535 bytes, Null, Undefined and objects with distinct keys holding such values, nested to any depth; ECMA arrays, dates and strict arrays do not read back (the three lemmas below say what they read as) |
| Amf0.DecodeEncodeAt | Live/RTMP/Amf0.swift:38-313 | the same round trip, with the encoding standing anywhere in the input |
| Amf0.DecodeScalarEncode | Live/RTMP/Amf0.swift:94-223 | the round trip for Number, Boolean, String, Null and Undefined |
| Amf0.DecodeObjectEncode | Live/RTMP/Amf0.swift:247-285 | the round trip for an Object |
| Amf0.ObjectBytesRead | Live/RTMP/Amf0.swift:247-285 | the object layout of tag, encoded properties and end marker reads back as the Object of those properties, whichever value wrote them |
| Amf0.EcmaArrayReadsAsObject | Live/RTMP/Amf0.swift:320-337 | an ECMA array with distinct keys is written with the Object tag and reads back as the Object of its entries, never as an ECMA array |
| Amf0.DecodeStrictArrayEncode | Live/RTMP/Amf0.swift:288-317 | what the decoder makes of an encoded strict array: with fewer than 256 items it traps after the tag and the 4 count bytes; otherwise it yields only the first count/256 items and stops before the end of the encoding |
| Amf0.StrictArrayNeverReadsBack | Live/RTMP/Amf0.swift:288-317 | no strict array reads back from its own encoding, and one of fewer than 256 items, the empty one included, traps the decoder |
| Amf0.DecodeNumberBytes | Live/RTMP/Amf0.swift:94-113 | `00` and eight big-endian bytes decode to that bit pattern, consuming 9 bytes |
| Amf0.DecodeBooleanBytes | Live/RTMP/Amf0.swift:147-166 | `01 01` and `01 00` decode to true and false, consuming 2 bytes |
| Amf0.DecodeStringBytes | Live/RTMP/Amf0.swift:178-211 | `02`, a 2-byte length and the bytes decode to that string, consuming 3 + length bytes |
| Amf0.StringAtBytes | Live/RTMP/Amf0.swift:213-223 | a 2-byte length and that many bytes read back as those bytes |
| Amf0.DecodeObjectBytes | Live/RTMP/Amf0.swift:270-285 | an object tag followed by properties the loop reads back decodes to the object |
| Amf0.DecodeStrictArrayBytes | Live/RTMP/Amf0.swift:310-317 | a strict array tag and a 4-byte count c: below 256 the decoder traps right after the count; otherwise, when the item loop reads c/256 items, it yields the array of those items |
| Amf0.DecodePropertiesEncode | Live/RTMP/Amf0.swift:247-285 | the property loop reads back the encoded pairs in order, consumes the end marker and stops there |
| Amf0.DecodeFirstProperty | Live/RTMP/Amf0.swift:273-284 | the first encoded property is read back and the loop goes on after it |
| Amf0.PropertyBytes | Live/RTMP/Amf0.swift:275-281 | at an encoded property the look-ahead is not the end marker, and the key and the value read back |
| Amf0.PropertyStep | Live/RTMP/Amf0.swift:273-284 | one turn of the property loop appends the pair read and continues from after it |
| Amf0.PropertyHeader | Live/RTMP/Amf0.swift:275-280 | at an encoded property the 3-byte look-ahead is not `00 00 09` and the key reads back |
| Amf0.LookaheadAtProperty | Live/RTMP/Amf0.swift:275-276 | the 3-byte look-ahead is the next three bytes, and a non-zero key length, or a third byte other than 0x09, is never taken for the end marker |
| Amf0.DecodeItemsEncode | Live/RTMP/Amf0.swift:313-316 | the strict-array loop, asked for as many items as are encoded there, reads them back in order |
| Amf0.ItemStep | Live/RTMP/Amf0.swift:313-316 | one turn of the strict-array loop reads back the first encoded item |
| Amf0.LongStringNotDecodable | Live/RTMP/Amf0.swift:183-196 | a string of more than 65535 bytes is written with tag 0x0c, which `create` rejects |
| Amf0.DateReadsAsEcmaArray | Live/RTMP/Amf0.swift:366-377 | an encoded Date carries the ECMA array tag, so if it decodes at all it decodes as an ECMA array |
| Amf0Decoder.ReadStringBody | Live/RTMP/Amf0.swift:213-223 | `Amf0String.decode(_:isAmfObjectKey: true)` returns the string body and moves the cursor as `StringAt` says |
| Amf0Decoder.Create | Live/RTMP/Amf0.swift:38-67 | `create` over the cursor returns and consumes what `Decode` says |
| Amf0Decoder.DecodeAfterTag | Live/RTMP/Amf0.swift:43-66 | the decoder of the chosen subclass returns and consumes what `DecodeTagged` says |
| Amf0Decoder.PropertyStepAt | Live/RTMP/Amf0.swift:273-284 | one turn of the Object decoder loop stays within the input, and a pair read moves past it with a 3-byte look-ahead |
| Amf0Decoder.DecodePropertiesStep | Live/RTMP/Amf0.swift:273-284 | the property loop is one turn followed by the rest of the loop |
| Amf0Decoder.NextProperty | Live/RTMP/Amf0.swift:275-281 | one turn over the cursor: `tryRead` into the look-ahead buffer, then the end marker or a key and a value, as `PropertyStepAt` says |
| Amf0Decoder.ReadObject | Live/RTMP/Amf0.swift:270-285 | the `while true` loop of `Amf0Object.decode` returns and consumes what `DecodeObject` says |
| Amf0Decoder.ReadStrictArray | Live/RTMP/Amf0.swift:310-317 | the `for _ in 1...count` loop, with the count from `readUInt32` as written, returns and consumes what `DecodeStrictArray` says |
| Amf0Decoder.DecodeItemsStep | Live/RTMP/Amf0.swift:313-316 | the item loop is one `create` followed by the rest of the loop |
| Amf0Decoder.Amf0Data.constructor | Live/RTMP/Amf0.swift:35 | a new value has an empty `dataInBytes` cache |
| Amf0Decoder.Amf0Data.DataInBytes | Live/RTMP/Amf0.swift:94-103 | the getter returns the cache when it is not empty, otherwise the encoding of the value, and leaves the result in the cache |
| Amf0Decoder.Amf0Data.SetDataInBytes | Live/RTMP/Amf0.swift:105-107 | the setter replaces the cache |
| Amf0Decoder.ReadTwice | Live/RTMP/Amf0.swift:94-103 | two reads of `dataInBytes` return identical bytes, the encoding of the value when the cache started empty |
| Messages.RawValue | Live/RTMP/RTMPMessage.swift:11-28 | every message type has one of the listed raw values |
| Messages.MessageTypeOf | Live/RTMP/RTMPMessage.swift:11-28 | `MessageType(rawValue:)` is defined exactly on the listed raw values and inverts `rawValue` there |
| Messages.MessageTypeRoundTrip | Live/RTMP/RTMPMessage.swift:11-28 | every message type reads back from its raw value |
| Messages.LimitRaw | Live/RTMP/RTMPMessage.swift:231-239 | every limit type has one of the raw values 0x00, 0x01, 0x02, 0xFF |
| Messages.LimitTypeOf | Live/RTMP/RTMPMessage.swift:231-239 | `LimitType(rawValue:)` is defined exactly on those raw values and inverts `rawValue` there |
| Messages.LimitTypeRoundTrip | Live/RTMP/RTMPMessage.swift:231-239 | every limit type reads back from its raw value |
| Messages.Create | Live/RTMP/RTMPMessage.swift:67-92 | `create(messageType:)` returns a message exactly for SetChunkSize, Abort, Acknowledgement, WindowAckSize, SetPeerBandwidth, Audio, Video, AMF0Data and AMF0Command, and its type is the one asked for; UserControl and all others give nil |
| Messages.SetPeerBandwidthAsWritten | Live/RTMP/RTMPMessage.swift:248-252 | the initializer as written stores the window and leaves the limit Hard, whatever limit type it is given |
| Messages.SetPeerBandwidthInit | Live/RTMP/RTMPMessage.swift:248-252 | the corrected initializer stores both the window and the limit type |
| Messages.EncodeValues | Live/RTMP/RTMPMessage.swift:296-298 | the objects' encodings in order take at least one byte each |
| Messages.WordBytes | Live/RTMP/RTMPMessage.swift:118 | `x.bigEndian.bytes` of a 4-byte field is its big-endian encoding |
| Messages.EncodeControl | Live/RTMP/RTMPMessage.swift:113-262 | a control payload is 4 bytes (5 for SetPeerBandwidth); it traps only where a field is an unset implicitly unwrapped optional |
| Messages.EncodeBody | Live/RTMP/RTMPMessage.swift:289-341 | the getter of a non-media message appends a non-empty payload, or traps on an unset field |
| Messages.PayloadOf | Live/RTMP/RTMPMessage.swift:113-119 | the getter returns the cache when it is not empty, and audio and video always return their stored payload |
| Messages.PayloadStable | Live/RTMP/RTMPMessage.swift:113-119 | once the getter has filled the cache, reading it again gives the same bytes |
| Messages.WordAt | Live/RTMP/RTMPMessage.swift:122 | `Int32(bytes:).bigEndian` is defined exactly on at least 4 bytes (a shorter load traps) and is the big-endian value of the first four |
| Messages.DecodeValues | Live/RTMP/RTMPMessage.swift:308-311 | the setters' loop never yields nil, only appends to the objects already there, and reads at most one object per byte |
| Messages.DecodeCommand | Live/RTMP/RTMPMessage.swift:301-312 | the command setter yields a command whose objects extend the ones it had |
| Messages.DecodeData | Live/RTMP/RTMPMessage.swift:342-352 | the data setter yields a data message with its type set and objects extending the ones it had |
| Messages.DecodeControl | Live/RTMP/RTMPMessage.swift:121-123 | the control setters keep the message type; the peer bandwidth setter returns early on a payload equal to the cache and traps on a short payload or unknown limit (lines 263-267) |
| Messages.DecodeBody | Live/RTMP/RTMPMessage.swift:301-352 | every non-media setter keeps the message type and never yields nil |
| Messages.ControlRoundTrip | Live/RTMP/RTMPMessage.swift:113-268 | a control message with its fields set, encoded by the getter, decodes on a freshly created message of its type back to the same fields |
| Messages.ChunkSizeRoundTrip | Live/RTMP/RTMPMessage.swift:113-124 | SetChunkSize's payload is the 4-byte big-endian two's complement of the size, and it decodes back to the size |
| Messages.AbortRoundTrip | Live/RTMP/RTMPMessage.swift:145-156 | the same for Abort's chunk stream id |
| Messages.AcknowledgementRoundTrip | Live/RTMP/RTMPMessage.swift:177-188 | the same for Acknowledgement's sequence number |
| Messages.WindowAckSizeRoundTrip | Live/RTMP/RTMPMessage.swift:210-221 | the same for WindowAckSize's window, unsigned |
| Messages.WordRoundTrip | Live/RTMP/RTMPMessage.swift:215-219 | a 32-bit value written as 4 big-endian bytes reads back |
| Messages.SignedWordRoundTrip | Live/RTMP/RTMPMessage.swift:118-122 | a signed 32-bit value written and read back as two's complement is itself |
| Messages.PeerBandwidthRoundTrip | Live/RTMP/RTMPMessage.swift:254-268 | SetPeerBandwidth's payload is the 4-byte big-endian window and the limit byte; it decodes back to both |
| Messages.DecodeValuesEncode | Live/RTMP/RTMPMessage.swift:308-311 | objects' encodings that fill the rest of the input decode back to the objects, in order, for values that round-trip (no ECMA array, date or strict array inside) |
| Messages.DecodeValuesStep | Live/RTMP/RTMPMessage.swift:308-311 | one turn of the setters' loop over a value that decodes appends it and continues after it |
| Messages.StringThenRest | Live/RTMP/RTMPMessage.swift:303 | an encoded string followed by more bytes: the tag, the string body, then the rest |
| Messages.NumberThenRest | Live/RTMP/RTMPMessage.swift:307 | an encoded number followed by more bytes: the tag, the eight bytes of the pattern, then the rest |
| Messages.ValuesThenEnd | Live/RTMP/RTMPMessage.swift:308-311 | the objects' encodings filling the input from a position decode back to them |
| Messages.DecodeCommandEncode | Live/RTMP/RTMPMessage.swift:289-313 | the command setter reads back the name, the transaction id and the objects from the bytes the getter writes |
| Messages.CommandRoundTrip | Live/RTMP/RTMPMessage.swift:289-313 | a command with a name of at most 65535 bytes, a transaction id below 2^53 in magnitude and round-tripping objects (no ECMA array, date or strict array inside) decodes, on a fresh command message, back to the same fields |
| Messages.DecodeDataEncode | Live/RTMP/RTMPMessage.swift:331-353 | the data setter reads back the type and the objects from the bytes the getter writes |
| Messages.DataRoundTrip | Live/RTMP/RTMPMessage.swift:331-353 | a data message with its type set and round-tripping objects decodes, on a fresh data message, back to the same fields |
| Messages.SetPeerBandwidthLosesLimit | Live/RTMP/RTMPMessage.swift:248-268 | a Soft limit given to the initializer as written reaches the wire and reads back as Hard; the corrected initializer keeps Soft |
| Messages.ReadValues | Live/RTMP/RTMPMessage.swift:308-311 | the `while remainLength > 0` loop over the setter's input stream returns what `DecodeValues` says |
| Messages.ReadCommand | Live/RTMP/RTMPMessage.swift:301-312 | the command setter over its own input stream returns what `DecodeCommand` says |
| Messages.ReadData | Live/RTMP/RTMPMessage.swift:342-352 | the data setter over its own input stream returns what `DecodeData` says |
| Messages.Message.constructor | Live/RTMP/RTMPMessage.swift:54-65 | a new message has a zero timestamp, the given stream id and an empty payload cache |
| Messages.Message.Payload | Live/RTMP/RTMPMessage.swift:113-119 | the getter returns `PayloadOf` and leaves its result in the cache |
| Messages.Message.SetPayload | Live/RTMP/RTMPMessage.swift:368-373 | audio and video replace the stored payload; the other subclasses decode their fields as `DecodeBody` says, trap exactly when it traps, and leave the cache alone (lines 121-123, 301-312) |
| Messages.Message.AppendCommandObject | Live/RTMP/RTMPMessage.swift:276 | `commandObjects.append` adds the object at the end and changes nothing else |
| Messages.Message.AppendDataObject | Live/RTMP/RTMPMessage.swift:319 | `objects.append` adds the object at the end and changes nothing else |
| Messages.DecodeFields | Live/RTMP/RTMPMessage.swift:301-352 | the non-media setters return what `DecodeBody` says |
| Messages.NullAndObjectCommand | Live/RTMP/RTMPMessage.swift:282-287 | a fresh command message with the name, transaction id and stream id given, and a Null and one object appended |
| Messages.NewMedia | Live/RTMP/RTMPMessage.swift:362-387 | the audio and video initializers store the buffer as the payload, with a zero timestamp and the given stream id |
| Chunks.Fmt | Live/RTMP/RTMPChunk.swift:12-21 | a chunk type's `fmt` value fits in the two top bits of a byte |
| Chunks.ChunkTypeOf | Live/RTMP/RTMPChunk.swift:12-21 | every `fmt` below 4 names the chunk type whose raw value it is |
| Chunks.BasicHeader | Live/RTMP/RTMPChunk.swift:50-57 | types 0 and 1 write one byte carrying `fmt` in the top two bits and the chunk stream id modulo 64 in the low six; types 2 and 3 write nothing |
| Chunks.Separator | Live/RTMP/RTMPChunk.swift:83 | the byte between pieces is a type-3 basic header for the chunk stream id modulo 64 |
| Chunks.Low3Value | Live/RTMP/RTMPChunk.swift:60-61 | bytes 1 to 3 of the big-endian view are the low 24 bits, most significant first |
| Chunks.TimestampField | Live/RTMP/RTMPChunk.swift:60 | the 3-byte timestamp field is `ff ff ff` at or above 0xFFFFFF, and the timestamp itself below |
| Chunks.Header | Live/RTMP/RTMPChunk.swift:49-72 | the header is 12 bytes for type 0, 8 for type 1 and 7 for types 2 and 3, plus 4 when the timestamp is extended |
| Chunks.Dechunk | Live/RTMP/RTMPChunk.swift:74-86 | dropping the separators from a chunked body gives back something empty exactly when the body is |
| Chunks.DechunkPieces | Live/RTMP/RTMPChunk.swift:74-86 | the payload is recovered from the body `splitMessage` writes after the header |
| Chunks.PiecesDechunk | Live/RTMP/RTMPChunk.swift:74-86 | a body the receiver accepts is exactly the chunking of the payload it recovers, so the chunking is one-to-one |
| Chunks.PiecesLength | Live/RTMP/RTMPChunk.swift:74-86 | the body is the payload plus one separator per full piece that is followed by more bytes |
| Chunks.ContinuationsStep | Live/RTMP/RTMPChunk.swift:79-84 | a payload longer than the chunk size has one more separator than what is left after its first piece |
| Chunks.ChunkedLength | Live/RTMP/RTMPChunk.swift:46-88 | `splitMessage`'s output is the header, the payload and the separators |
| Chunks.Split | Live/RTMP/RTMPChunk.swift:46-88 | `splitMessage`, with its loop, returns the header followed by the payload cut into `chunkSize` pieces with a type-3 basic header after each full piece that is not the last |
| Chunks.PiecesStep | Live/RTMP/RTMPChunk.swift:79-84 | one turn of the loop takes a full piece and a separator off the front of what is left |
| Framing.BasicHeaderAsWritten | Live/RTMP/RTMPReceiver.swift:32-54 | `readBasicHeader` as written: fmt is the top two bits; the two-byte form adds 64 to the second byte; the three-byte form reads two more bytes but yields only the first plus 64 |
| Framing.BasicHeaderAt | Live/RTMP/RTMPReceiver.swift:32-54 | the corrected `readBasicHeader` never traps, reads one to three bytes, and yields fmt below 4 and a chunk stream id from 2 to 65599 |
| Framing.EncodeBasicHeader | Live/RTMP/RTMPReceiver.swift:40-50 | the basic header the receiver expects is one to three bytes long |
| Framing.BasicHeaderReadersAgree | Live/RTMP/RTMPReceiver.swift:40-52 | the as-written and the corrected readers agree on every header except the three-byte form (first byte's low six bits equal to 1) |
| Framing.BasicHeaderRoundTrip | Live/RTMP/RTMPReceiver.swift:32-54 | every basic header of all three forms reads back as its fmt and chunk stream id, and the read ends right after it |
| Framing.BasicHeaderAsWrittenLosesHighByte | Live/RTMP/RTMPReceiver.swift:50 | the three-byte header for id 320 reads back as id 64 as written, and as 320 when corrected |
| Framing.SenderBasicHeader | Live/RTMP/RTMPChunk.swift:49-57 | the sender's one-byte header is the prescribed form for ids 2 to 63, and is not for ids from 64 up |
| Framing.BigEndianWord | Live/RTMP/RTMPReceiver.swift:78 | `UInt32(bytes:).bigEndian` on four bytes is their big-endian value |
| Framing.NativeWord | Live/RTMP/RTMPReceiver.swift:96-98 | `UInt32(bytes:)` on four bytes is their little-endian value |
| Framing.Stamp | Live/RTMP/RTMPReceiver.swift:78-88 | below 0xFFFFFF fmt 0 sets the timestamp and fmt 1 and 2 add the delta to the stored one, trapping exactly on a `nil` timestamp or 32-bit overflow; no other field changes |
| Framing.ExtendedAt | Live/RTMP/RTMPReceiver.swift:110-114 | with the marker the next four bytes are read as the big-endian timestamp, otherwise nothing is read; it stalls exactly when the bytes are missing |
| Framing.MessageHeaderAt | Live/RTMP/RTMPReceiver.swift:56-115 | the header ends within the input; fmt 1 keeps the stored message stream id, fmt 2 changes only the timestamp and keeps the declared length; fmt 3 reads nothing and traps on a message's first chunk |
| Framing.MessageHeaderFields | Live/RTMP/RTMPReceiver.swift:89-101 | fmt 0 and 1 set the declared length from the 3 big-endian bytes after the timestamp and the message type from the next byte; fmt 0 also sets the message stream id from the next 4 bytes, in native order |
| Framing.PayloadAt | Live/RTMP/RTMPReceiver.swift:117-123 | `readMessagePayload` appends `min(length - buffered, inChunkSize)` bytes and traps exactly on a `nil` length or a negative count |
| Framing.ChunkTurn | Live/RTMP/RTMPReceiver.swift:126-148 | one turn of the loop, reading the basic header as written, either finishes or goes on strictly further in the input |
| Framing.ChunkTurnTable | Live/RTMP/RTMPReceiver.swift:58-63 | a chunk that is read adds its chunk stream to the table, if new, leaves every other entry alone, and a completed message carries the entry of the stream that completed it |
| Framing.ChunkTurnOf | Live/RTMP/RTMPReceiver.swift:126-148 | after the three reads, a length at or below 0 gives the empty message, a length equal to what was gathered the message, and otherwise the loop goes on |
| Framing.ReadInterlaced | Live/RTMP/RTMPReceiver.swift:21-149 | `readInterlacedMessage` always finishes, and a message read ends strictly later in the input |
| Framing.AssembledLength | Live/RTMP/RTMPReceiver.swift:131-147 | a message completes with a non-empty payload that extends what was gathered, and the loop goes on only while the buffer differs from the declared length |
| Framing.ReadType0Header | Live/RTMP/RTMPReceiver.swift:32-115 | a type-0 header as the sender writes it reads back as its fmt, chunk stream id and fields |
| Framing.Type0HeaderFields | Live/RTMP/RTMPChunk.swift:49-72 | the sender's type-0 header holds, byte by byte, the id, the 3-byte timestamp or marker, the length, the type, the native-order stream id and the extended timestamp |
| Framing.Type0Layout | Live/RTMP/RTMPChunk.swift:49-72 | where the six parts of a type-0 header stand |
| Framing.LaidOutContinuations | Live/RTMP/RTMPChunk.swift:79-85 | a separator followed by the chunking of the rest is a run of continuation chunks |
| Framing.FirstContinuation | Live/RTMP/RTMPChunk.swift:83-85 | the first of them is the separator followed by the first piece |
| Framing.ContinuationTurn | Live/RTMP/RTMPReceiver.swift:126-148 | a continuation chunk reads as fmt 3 for the same stream, keeps its entry and appends its piece |
| Framing.PiecesPrefix | Live/RTMP/RTMPChunk.swift:79-85 | the chunking of a payload starts with its first piece |
| Framing.ContinuationTurns | Live/RTMP/RTMPReceiver.swift:126-148 | the continuation chunks the sender writes read one at a time as fmt-3 chunks of the same stream that keep its entry and append their pieces until the declared length is reached |
| Framing.ReadContinuations | Live/RTMP/RTMPReceiver.swift:126-148 | continuation chunks that read that way complete the message with the buffer grown by the whole rest, and the loop ends right after the last piece |
| Framing.PiecesNextLength | Live/RTMP/RTMPChunk.swift:79-84 | the chunking of a payload longer than a piece is that piece, a separator and the chunking of the rest |
| Framing.NextContinuation | Live/RTMP/RTMPChunk.swift:79-85 | past a full piece the next continuation chunk starts |
| Framing.ReadInterlacedStep | Live/RTMP/RTMPReceiver.swift:126-148 | after a chunk that leaves the message incomplete, the loop goes on from where the chunk ends with the grown buffer and the updated table |
| Framing.LoopStep | Live/RTMP/RTMPReceiver.swift:126-148 | so a loop that ends with some result from there ends with it from the chunk before |
| Framing.ReadInterlacedUnfold | Live/RTMP/RTMPReceiver.swift:126-148 | the loop is one turn followed, when the message is incomplete, by the rest of the loop |
| Framing.ReadSplitMessage | Live/RTMP/RTMPReceiver.swift:21-149 | a message the sender splits with a type-0 header and the same chunk size reads back as its payload and header fields, ends right after its last chunk, and leaves those fields in its chunk stream's entry (the sender is Live/RTMP/RTMPChunk.swift:46-88) |
| Framing.LongMessageTurns | Live/RTMP/RTMPReceiver.swift:126-148 | a type-0 first chunk of a longer payload opens the message with its header's entry and its first piece, and the continuation chunks after it read one at a time |
| Framing.ReadLongMessage | Live/RTMP/RTMPReceiver.swift:126-148 | a payload longer than a chunk whose chunks read that way is read whole, and the loop ends right after its last piece with the new entry in the table |
| Framing.ReadSingleChunk | Live/RTMP/RTMPReceiver.swift:126-147 | a payload that fits one chunk is read whole with the first chunk |
| Framing.FirstChunkTurn | Live/RTMP/RTMPReceiver.swift:126-148 | the first chunk of a longer payload leaves the loop going on with its first piece |
| Framing.FirstPieceLayout | Live/RTMP/RTMPChunk.swift:79-85 | where a chunked payload longer than a piece stands, the first piece is read whole and the continuation chunks follow |
| Framing.PieceAndRest | Live/RTMP/RTMPChunk.swift:79-85 | a payload longer than a piece is that piece and the rest, and its chunking is one piece, a separator and the chunking of the rest longer |
| Sockets.ReadAt | Live/RTMP/RTMPSocket.swift:29-31 | a blocking read of `n` bytes yields exactly the next `n` bytes of the input and moves past them, stalls exactly when they are not there, and never traps |
| Sockets.Socket.constructor | Live/RTMP/RTMPSocket.swift:11-13 | a new socket has read nothing of the input, written nothing, and holds the chunk sizes and names given |
| Sockets.Socket.Read | Live/RTMP/RTMPSocket.swift:29-31 | `read` returns what `ReadAt` says and advances the position exactly when it succeeds |
| Sockets.Socket.Connect | Live/RTMP/RTMPSocket.swift:15-20 | `connect` opens the connection, logged as one event |
| Sockets.Socket.Disconnect | Live/RTMP/RTMPSocket.swift:22-27 | `disconnect` closes it, logged as one event |
| Sockets.Socket.Write | Live/RTMP/RTMPSocket.swift:33-35 | `write` logs the bytes and changes nothing else |
| Sockets.Socket.WriteMessage | Live/RTMP/RTMPSocket.swift:33-35 | `write(message:chunkType:chunkStreamID:)` logs the message as it stands, the header type, the chunk stream id and the outgoing chunk size |
| Sockets.Statics.constructor | Live/RTMP/RTMPStream.swift:13 | `RTMPStream.messageStreamID` starts at 0 and `RTMPChunk.inWindowAckSize` (Live/RTMP/RTMPChunk.swift:31) at `nil` |
| Receivers.MessageFrom | Live/RTMP/RTMPReceiver.swift:137-147 | a message is made exactly for the creatable types (`nil` otherwise), and it has the type, timestamp and stream id of the chunk stream's entry |
| Receivers.ReadMessage | Live/RTMP/RTMPReceiver.swift:21-149 | a message or an empty one is read strictly further in the input and leaves the chunk size and window size alone; a blocked read or a trap leaves the state as it was |
| Receivers.Handle | Live/RTMP/RTMPReceiver.swift:157-170 | `handleReceivedMessage` sets `inChunkSize` on a set-chunk-size message and `inWindowAckSize` on a window-ack-size message, and changes nothing else |
| Receivers.Receive | Live/RTMP/RTMPReceiver.swift:151-155 | `receiveMessage` returns what `readInterlacedMessage` returns, after handling a message read |
| Receivers.ExpectCommand | Live/RTMP/RTMPReceiver.swift:172-190 | `expectCommandMessage` ends only with a `_result` or `_error` command carrying the transaction id asked for, blocked, or on a trap |
| Receivers.ReadCarried | Live/RTMP/RTMPReceiver.swift:126-147 | a payload assembled on a chunk stream holding a message's header fields, and carrying that message, reads back as the message |
| Receivers.ReadAssembled | Live/RTMP/RTMPReceiver.swift:137-147 | a completed chunk stream from which a message is made delivers that message and moves the state past the chunks |
| Receivers.MessageFromCarried | Live/RTMP/RTMPReceiver.swift:138-146 | the message made from a payload and an entry holding a message's header fields is that message exactly when the payload carries it |
| Receivers.SentMessageCarried | Live/RTMP/RTMPMessage.swift:113-353 | a control, command or data message the sender writes, whose fields encode, is carried by its payload, so the receiver rebuilds it |
| Receivers.ExpectReplyFirst | Live/RTMP/RTMPReceiver.swift:180-183 | a reply received first ends the wait with it |
| Receivers.ExpectSkips | Live/RTMP/RTMPReceiver.swift:174-188 | a `nil` message or any message that is not the reply is dropped after being handled, and the wait goes on |
| Receivers.Receiver.constructor | Live/RTMP/RTMPReceiver.swift:16-19 | a new receiver has an empty chunk stream table |
| Receivers.Receiver.ReadBasicHeader | Live/RTMP/RTMPReceiver.swift:32-54 | the reads of `readBasicHeader` return what `BasicHeaderAsWritten` says, the third byte of a three-byte header lost to the 8-bit shift, and leave the position after the header |
| Receivers.Receiver.ReadExtendedTimestamp | Live/RTMP/RTMPReceiver.swift:110-114 | the extended timestamp read returns what `ExtendedAt` says |
| Receivers.Receiver.ReadMessageHeader | Live/RTMP/RTMPReceiver.swift:56-115 | the reads of `readMessageHeader` return what `MessageHeaderAt` says |
| Receivers.Receiver.ReadMessagePayload | Live/RTMP/RTMPReceiver.swift:117-123 | the read of `readMessagePayload` returns what `PayloadAt` says |
| Receivers.Receiver.ReadChunk | Live/RTMP/RTMPReceiver.swift:127-147 | one turn of the loop returns what `ChunkTurn` says and leaves the position and the table it gives |
| Receivers.Receiver.NewMessage | Live/RTMP/RTMPReceiver.swift:138-146 | `create` and the field assignments give what `MessageFrom` says, as a fresh object |
| Receivers.Receiver.ReadInterlacedMessage | Live/RTMP/RTMPReceiver.swift:21-149 | the `while true` loop returns what `ReadMessage` says and leaves the state it gives |
| Receivers.Receiver.HandleReceivedMessage | Live/RTMP/RTMPReceiver.swift:157-170 | the receiving state becomes what `Handle` says |
| Receivers.Receiver.ReceiveMessage | Live/RTMP/RTMPReceiver.swift:151-155 | returns what `Receive` says and leaves the state it gives |
| Receivers.Receiver.ExpectCommandMessage | Live/RTMP/RTMPReceiver.swift:172-190 | the loop returns what `ExpectCommand` says and leaves the state it gives |
| Handshakes.C0C1Layout | Live/RTMP/RTMPHandshake.swift:28-42 | C0 and C1 are 1537 bytes: version 3, the 4-byte big-endian timestamp that reads back, four zeros and the random bytes, all below 255 |
| Handshakes.MakeC0C1 | Live/RTMP/RTMPHandshake.swift:28-42 | the loop that builds C0 and C1 yields exactly that layout |
| Handshakes.SimpleHandshake | Live/RTMP/RTMPHandshake.swift:21-57 | the handshake traps exactly when the clock does not convert to `Int32`; otherwise it writes C0 and C1, and when S0, S1 and S2 arrive it writes S1 back as C2 and ends after S2 |
| Handshakes.ShakeSimpleHand | Live/RTMP/RTMPHandshake.swift:21-57 | `shakeSimpleHand` logs and reads what `SimpleHandshake` says |
| Connectors.ProgressOf | Live/RTMP/RTMPConnector.swift:47-53 | a connect step goes on after any reply or `nil`, hangs exactly on a blocked read, and otherwise traps |
| Connectors.ConnectKeysDistinct | Live/RTMP/RTMPConnector.swift:25-36 | the eleven keys of the connect object are pairwise different |
| Connectors.ConnectSettingsKeys | Live/RTMP/RTMPConnector.swift:25-36 | `connectApp` sets the eleven keys in order, each once |
| Connectors.ConnectPropertiesDistinct | Live/RTMP/RTMPConnector.swift:24-36 | the connect object holds the eleven keys, in order, each once |
| Connectors.ConnectPropertyAt | Live/RTMP/RTMPConnector.swift:25-36 | each key holds the value set for it |
| Connectors.ConnectPropertiesAbsent | Live/RTMP/RTMPConnector.swift:24-36 | no other key is in the connect object |
| Connectors.ConnectPropertiesContents | Live/RTMP/RTMPConnector.swift:24-36 | the connect object holds exactly `app`, the flash version, an empty `swfUrl`, `tcUrl` = hostname + "/" + app, `fpad` false, capabilities 239, audio codecs 3575, an empty `pageUrl`, object encoding 0, video codecs 252 and video function 1 |
| Connectors.StreamIDOf | Live/RTMP/RTMPConnector.swift:80-85 | the stream id is the second command object when it is a number that converts to `UInt32`; any other object leaves it unset; a missing object or a number out of range traps |
| Connectors.StreamCreated | Live/RTMP/RTMPConnector.swift:75-85 | `createStream` stores an id only when it completes, and traps exactly when the wait traps or the id does |
| Connectors.StreamIDOfResult | Live/RTMP/RTMPConnector.swift:80-85 | a `_result` with a null and the id as a number gives the client that id |
| Connectors.ConnectObject | Live/RTMP/RTMPConnector.swift:24-36 | the eleven `setProperties` calls build the connect object's properties |
| Connectors.ConnectMessage | Live/RTMP/RTMPConnector.swift:23-37 | the `connect` message is transaction 1 on stream 0 with the connect object as its only command object |
| Connectors.Connector.constructor | Live/RTMP/RTMPConnector.swift:15-18 | the connector gets a fresh receiver on its socket, with an empty table |
| Connectors.Connector.SendConnect | Live/RTMP/RTMPConnector.swift:39-45 | `connect` goes with a type-0 header on the command channel at the old chunk size, then set-chunk-size 8192 on the control channel at the new one |
| Connectors.Connector.ConnectApp | Live/RTMP/RTMPConnector.swift:21-54 | `connectApp` writes those two messages, then waits for the reply to transaction 1 as `ExpectCommand` says |
| Connectors.Connector.SendStreamCommands | Live/RTMP/RTMPConnector.swift:59-73 | `releaseStream` and `FCPublish` (a null and the stream name) and `createStream` (a null), transactions 2, 3 and 4, each with a type-1 header on the command channel |
| Connectors.Connector.CreateStream | Live/RTMP/RTMPConnector.swift:58-88 | `createStream` writes those three commands, waits for the reply to transaction 4 and stores the message stream id `StreamCreated` gives, leaving the old one otherwise |
| Streams.DeleteStreamID | Live/RTMP/RTMPStream.swift:54 | the number `deleteStream` carries reads back as the message stream id |
| Streams.MediaWrites | Live/RTMP/RTMPStream.swift:59-77 | a run of media calls writes one message per frame |
| Streams.MediaWritesSnoc | Live/RTMP/RTMPStream.swift:59-77 | one call more is one write more, typed by the flag as the earlier calls left it |
| Streams.MediaWritesTypes | Live/RTMP/RTMPStream.swift:59-77 | on a new stream the first frame of a kind goes with a type-0 header and every later one with type 1, on chunk stream 6 for video and 5 for audio, each with its own timestamp and bytes |
| Streams.MediaWritesLater | Live/RTMP/RTMPStream.swift:63-66 | once the flag is down, every frame goes with a type-1 header |
| Streams.Stream.constructor | Live/RTMP/RTMPStream.swift:14-19 | a new stream has both first-message flags up |
| Streams.Stream.PublishStream | Live/RTMP/RTMPStream.swift:22-29 | `publish`, transaction 5, with a null, the stream name and the application name, type 0 on chunk stream 8 |
| Streams.Stream.SetMetaData | Live/RTMP/RTMPStream.swift:31-41 | `@setDataFrame` with `onMetaData` and an ECMA array (written with the Object tag) built by `setProperties` from every entry of the dictionary, type 0 on chunk stream 4 |
| Streams.Stream.FCUnpublish | Live/RTMP/RTMPStream.swift:43-49 | `FCUnpublish`, transaction 6, with a null and the stream name, type 1 on the command channel |
| Streams.Stream.DeleteStream | Live/RTMP/RTMPStream.swift:51-57 | `deleteStream`, transaction 7, with a null and the stream id as a number, type 1 on the command channel |
| Streams.Stream.PublishVideo | Live/RTMP/RTMPStream.swift:59-67 | one video message with the buffer and timestamp, type 0 if it is the first video message and type 1 otherwise, on chunk stream 6; the flag goes down |
| Streams.Stream.PublishAudio | Live/RTMP/RTMPStream.swift:69-77 | the same for audio on chunk stream 5 |
| PublishClients.Labels | Live/RTMP/RTMPPublishClient.swift:45-68 | one label per write, in the same order, telling the kind of each |
| PublishClients.LabelsAppend | Live/RTMP/RTMPPublishClient.swift:45-68 | the labels of two runs of writes in a row are the labels of each in a row |
| PublishClients.ThenOrdered | Live/RTMP/RTMPPublishClient.swift:45-68 | steps written in order, followed by a run in order from where they stop, are in order |
| PublishClients.ConnectWritesLabels | Live/RTMP/RTMPConnector.swift:39-45 | `connectApp` writes `connect` and then set-chunk-size, the fourth and fifth steps |
| PublishClients.CreateStreamWritesLabels | Live/RTMP/RTMPConnector.swift:59-73 | `createStream` writes `releaseStream`, `FCPublish` and `createStream`, the sixth to eighth steps |
| PublishClients.ConnectRunOrder | Live/RTMP/RTMPPublishClient.swift:45-68 | whatever the server sends, `connect()` writes a prefix of open, C0+C1, C2, `connect`, set-chunk-size, `releaseStream`, `FCPublish`, `createStream`, `publish`, `@setDataFrame`; all of them exactly when it reaches the ready callback; and it makes a stream exactly when it gets as far as `publish` |
| PublishClients.ConnectRunTook | Live/RTMP/RTMPPublishClient.swift:47-64 | once the handshake goes through, the run is the session after the open and the handshake writes |
| PublishClients.HandshakeLabels | Live/RTMP/RTMPPublishClient.swift:47-51 | opening the socket and the handshake write the first three steps when the handshake goes through, and at most two otherwise |
| PublishClients.SessionRunOrder | Live/RTMP/RTMPPublishClient.swift:54-64 | the steps after the handshake write a prefix of theirs, in order |
| PublishClients.StreamRunOrder | Live/RTMP/RTMPPublishClient.swift:58-64 | the stream steps write a prefix of theirs, in order |
| PublishClients.StreamAfterOrder | Live/RTMP/RTMPPublishClient.swift:58-64 | whatever the reply to `createStream`, the stream steps write a prefix of theirs, in order |
| PublishClients.PublishedLabels | Live/RTMP/RTMPPublishClient.swift:61-62 | `publish` follows the stream commands |
| PublishClients.MetaDataLabels | Live/RTMP/RTMPPublishClient.swift:63 | the metadata follows `publish` and is the last step |
| PublishClients.PublishClient.constructor | Live/RTMP/RTMPPublishClient.swift:25-27 | a new client has no metadata and no stream |
| PublishClients.PublishClient.SetMediaMetaData | Live/RTMP/RTMPPublishClient.swift:70-78 | the dictionary, made empty on first use, becomes the old one with every entry of the argument stored into it, a later value replacing an earlier one for the same key |
| PublishClients.PublishClient.ThenEnded | Live/RTMP/RTMPPublishClient.swift:45-68 | a run that follows some writes leaves the client as the whole run does |
| PublishClients.PublishClient.Connect | Live/RTMP/RTMPPublishClient.swift:45-68 | `connect()` writes, reads and leaves the chunk size, stream id and stream as `ConnectRun` says; a new stream is fresh, with both first-message flags up |
| PublishClients.PublishClient.Handshake | Live/RTMP/RTMPPublishClient.swift:47-51 | opening the socket and `shakeSimpleHand` write the open event and what `SimpleHandshake` says |
| PublishClients.PublishClient.Session | Live/RTMP/RTMPPublishClient.swift:53-64 | the steps after the handshake, on a new connector, do what `SessionRun` says |
| PublishClients.PublishClient.StreamSession | Live/RTMP/RTMPPublishClient.swift:57-64 | `createStream`, then on success a new stream, `publishStream` and `setMetaData` (a missing dictionary traps), as `StreamRun` says |
| PublishClients.PublishClient.PublishVideo | Live/RTMP/RTMPPublishClient.swift:80-83 | with no stream nothing is written; otherwise the stream's `publishVideo` writes one video message and the audio flag is untouched |
| PublishClients.PublishClient.PublishAudio | Live/RTMP/RTMPPublishClient.swift:85-88 | the same for audio |
| PublishClients.PublishClient.Stop | Live/RTMP/RTMPPublishClient.swift:90-98 | `FCUnpublish` and `deleteStream` when there is a stream, then the socket is closed in any case |
| Flv.OrBits | Live/Live/RTMPMuxer.swift:106 | the bitwise or of the low `n` bits stays below 2^n |
| Flv.OrZero | Live/Live/RTMPMuxer.swift:106 | or-ing with zero keeps every bit |
| Flv.OrDisjointBits | Live/Live/RTMPMuxer.swift:106 | or-ing a multiple of 2^k with a value below 2^k adds them |
| Flv.OrDisjoint | Live/Live/RTMPMuxer.swift:106 | the same on `UInt8` |
| Flv.VideoCodecFromRaw | Live/Live/FLV.swift:12-20 | `FLVVideoCodec(rawValue:)` gives a codec exactly when its raw value is the byte |
| Flv.VideoCodecSupport | Live/Live/FLV.swift:21-38 | `isSupported` holds exactly for raw value 7, AVC |
| Flv.FrameTypeFromRaw | Live/Live/FLV.swift:41-47 | `FLVFrameType(rawValue:)` gives a frame type exactly when its raw value is the byte |
| Flv.AVCPacketTypeFromRaw | Live/Live/FLV.swift:49-53 | `FLVAVCPacketType(rawValue:)` likewise |
| Flv.VideoTagFields | Live/Live/RTMPMuxer.swift:39 | `frameType << 4 \| codec` is 16 * frame type + codec for every codec with a four-bit value, and both read back from the byte |
| Flv.AVCTagBytes | Live/Live/RTMPMuxer.swift:81 | an AVC key frame starts with 0x17 and an inter frame with 0x27 |
| Flv.AACPacketTypeFromRaw | Live/Live/FLV.swift:55-58 | `FLVAACPacketType(rawValue:)` likewise |
| Flv.SoundRateFromRaw | Live/Live/FLV.swift:60-64 | `FLVSoundRate(rawValue:)` likewise |
| Flv.SoundRateOrder | Live/Live/FLV.swift:60-77 | a higher rate code is a higher rate, from 11 kHz up each code doubles the rate, and 5.5 kHz is not half of 11025 |
| Flv.SoundSizeFromRaw | Live/Live/FLV.swift:80-83 | `FLVSoundSize(rawValue:)` likewise |
| Flv.SoundTypeFromRaw | Live/Live/FLV.swift:85-88 | `FLVSoundType(rawValue:)` likewise |
| Flv.AudioCodecFromRaw | Live/Live/FLV.swift:90-103 | `FLVAudioCodec(rawValue:)` likewise, so 9, 12, 13 and 15 to 254 name no codec |
| Flv.AudioCodecSupport | Live/Live/FLV.swift:105-134 | `isSupported` holds exactly for raw value 10, AAC |
| Flv.AudioHeaderSize | Live/Live/FLV.swift:153-160 | `headerSize` is 2 for AAC and 1 for every other codec |
| Flv.AudioTagFields | Live/Live/RTMPMuxer.swift:106 | `codec << 4 \| rate << 2 \| size << 1 \| type` puts the four fields side by side, each reading back, for every codec with a four-bit value |
| Flv.PackedOr | Live/Live/RTMPMuxer.swift:106 | the shifts and ors of fields that fit their bits add up |
| Flv.ShlFits | Live/Live/RTMPMuxer.swift:106 | a shift that loses no bits multiplies |
| Flv.OrBelow | Live/Live/RTMPMuxer.swift:106 | or-ing a multiple of 2, 4 or 16 with a smaller value adds them |
| Flv.PackedFields | Live/Live/RTMPMuxer.swift:106 | each field reads back from the packed byte |
| Flv.AACTagByteValue | Live/Live/RTMPMuxer.swift:123 | the header byte of every AAC tag (AAC, 44 kHz, 16 bits, stereo) is 0xAF |
| Muxers.AVCSequenceHeader | Live/Live/RTMPMuxer.swift:35-50 | the AVC sequence header is `17 00 00 00 00` followed by the avcC record |
| Muxers.CompositionTimeBytes | Live/Live/RTMPMuxer.swift:85 | the composition time field is three bytes |
| Muxers.CompositionTimeValue | Live/Live/RTMPMuxer.swift:85 | the three bytes are the 32-bit pattern cut to 24 bits, and read back as the composition time exactly when it fits 24 signed bits |
| Muxers.LowBytes | Live/Live/RTMPMuxer.swift:85 | the last three of four big-endian bytes are the value modulo 2^24 |
| Muxers.NaluTagByte | Live/Live/RTMPMuxer.swift:81 | the first byte as written is the FLV video tag byte of a key or inter AVC frame: 0x17 or 0x27 |
| Muxers.NaluPacketLayout | Live/Live/RTMPMuxer.swift:79-88 | a NALU packet is the tag byte, packet type 1, the composition time bytes, then the sample's bytes |
| Muxers.AACPacketLayout | Live/Live/RTMPMuxer.swift:121-126 | an AAC tag body is 0xAF, then 0x00 for the sequence header or 0x01 for raw data, then the data |
| Muxers.MuxVideo | Live/Live/RTMPMuxer.swift:59-91 | a sample without a block buffer gives nothing; one whose composition time does not fit `Int32` traps; otherwise the delegate gets a video tag with the decode time minus `previousDts` (0 while `previousDts` is zero), and `previousDts` becomes the decode time |
| Muxers.MuxAudio | Live/Live/RTMPMuxer.swift:94-112 | a missing sample, a missing block buffer or a time before `audioTimestamp` gives nothing; otherwise the delegate gets the raw AAC tag with a non-negative timestamp and `audioTimestamp` becomes the presentation time |
| Muxers.MuxVideoEmits | Live/Live/RTMPMuxer.swift:59-91 | a sample with a block buffer and a composition time that fits `Int32` goes to the delegate |
| Muxers.VideoRun | Live/Live/RTMPMuxer.swift:59-91 | a run of video calls ends with calls to the delegate or a trap, never with nothing |
| Muxers.VideoRunTimeline | Live/Live/RTMPMuxer.swift:77-90 | once `previousDts` is set, the video timestamps add up to the time from it to the last decode time |
| Muxers.NegativeVideoDelta | Live/Live/RTMPMuxer.swift:77 | a decode time before `previousDts` is handed on as a negative timestamp, since the video path, unlike the audio one, does not check |
| Muxers.AudioRunTimeline | Live/Live/RTMPMuxer.swift:100-111 | once `audioTimestamp` is set, audio timestamps are never negative, `audioTimestamp` never goes back, and the timestamps add up to how far it moved |
| Muxers.MakeNaluPacket | Live/Live/RTMPMuxer.swift:78-88 | the buffer built byte by byte is the NALU packet |
| Muxers.SampleTimes | Live/Live/RTMPMuxer.swift:67-75 | the decode time is the presentation time when missing; the composition time traps exactly when it does not fit `Int32` |
| Muxers.VideoPacket | Live/Live/RTMPMuxer.swift:59-91 | the body of `muxAVCSampleBuffer` does what `MuxVideo` says |
| Muxers.Muxer.constructor | Live/Live/RTMPMuxer.swift:17-21 | both times start at zero, and the delegate has had no call |
| Muxers.Muxer.CreateAVCSequenceHeader | Live/Live/RTMPMuxer.swift:35-50 | a sequence header exactly when the avcC atom is there, and then it is `AVCSequenceHeader` of it |
| Muxers.Muxer.MuxAVCFormatDescription | Live/Live/RTMPMuxer.swift:52-56 | the sequence header goes to the delegate with timestamp 0 when there is one, and nothing happens otherwise; both times are unchanged |
| Muxers.Muxer.MuxAVCSampleBuffer | Live/Live/RTMPMuxer.swift:59-91 | traps exactly when `MuxVideo` traps, otherwise makes the call and leaves the `previousDts` it gives; the audio time is unchanged |
| Muxers.Muxer.MuxAACSampleBuffer | Live/Live/RTMPMuxer.swift:94-112 | makes the call and leaves the `audioTimestamp` `MuxAudio` gives; the video time is unchanged |
| Muxers.Muxer.MuxAACFormatDescription | Live/Live/RTMPMuxer.swift:115-128 | with a description, the AAC sequence header tag with the configuration goes to the delegate with timestamp 0; without, nothing; both times are unchanged |

## Left out

- Live/RTMP/RTMPSocket.swift is a stub. Its `read()` returns no bytes and its `write` sends nothing. The members the other classes call on the socket (`read3Bytes`, `read(_:maxLength:)`, `write(message:chunkType:chunkStreamID:)`, `inChunkSize`, `outChunkSize`, `app`, `stream`, `hostname`) are not defined there. The model replaces the stub with an input sequence that reads block on, plus an event log. TCP, `Stream.getStreamsToHost` and URL parsing (`init(rtmpUrl:)`, `connect(rtmpUrl:)`, `rtmpSocketInit`) are not modelled: a socket is given to the client already made.
- How `write(message:…)` lays out its bytes is not modelled. The log records the message, the header type, the chunk stream id and the chunk size. `Chunks.Split` and `Framing.ReadSplitMessage` state what the bytes of such a write are and how they read back.
- Floating point is left out except for what the protocol carries. AMF0 numbers and dates are 64-bit patterns. Only `Double(Int)` and the truncating conversions `Int(_:)`, `Int32(_:)` and `UInt32(_:)` are written out (module Ieee754). `FLVSoundRate.floatValue` is an integer number of hertz. Media times (`CMTime`, `CMTimeGetSeconds(...) * 1000`) are whole milliseconds, and 0 stands for `kCMTimeZero`. A fractional millisecond, and its truncation by `Int32(...)`, is therefore not modelled.
- The clock (`Date().timeIntervalSince1970`) and `arc4random_uniform(0xff)` are parameters of the handshake.
- CoreMedia and AudioToolbox extraction is not modelled. This covers `CMSampleBufferGetDataBuffer`, the sync-sample attachment, `CMBlockBufferGetDataPointer`, `CMFormatDescriptionGetExtension` and `AudioSpecificConfiguration`. Samples and format descriptions are datatypes that carry the values those calls return. `dataPointer!` and `mData!` are taken to be non-nil whenever a block buffer is present.
- `FLVAudioCodec.formatID` maps to AudioToolbox constants and is not modelled.
- The dispatch queue of `RTMPPublishClient` is not modelled: `connect()` and `stop()` run in the calling thread. Concurrency between them and the media calls is out of scope.
- The delegate (`publishStreamHasDone`, `sampleOutput`) is a log of calls. A `nil` delegate simply receives nothing, and it is not modelled separately.
- `print` output is not modelled.
- Strings are byte sequences, and UTF-8 validity is not checked. `Amf0String` decoding yields `nil` for invalid UTF-8; the model does not have that case. The long-string test (Live/RTMP/Amf0.swift:183) counts the string's characters, not its UTF-8 bytes; the model counts bytes, so for a string with multi-byte characters whose byte length is above 65535 and character count is not, the model picks the long-string tag where the source picks the string tag.
- `Amf0Object.setProperties` is modelled for six input kinds: `Double`, `Int`, `Int32`, `UInt32`, `String` and `Bool` (`Amf0.PropertyInput`). Its `default` branch (Live/RTMP/Amf0.swift:240-242) stores `Amf0Number(value:)` for any other type too; for a type other than `Double`, `Int`, `Int32`, `UInt32` and `Float64` that number's `value` stays nil, and reading its encoding later traps. That trap, and any other input type, is not modelled.
- Swift dictionaries are association lists, so their iteration order is the list order. Swift leaves that order unspecified. `AssocLists.AsMap` gives the order-free view.
- `RTMPHandshake.shakeComplexHand` has an empty body and is not modelled.
- Several names the source uses are declared nowhere in it. The FLV enumeration names `RTMPMuxer` uses (`FLVFrameType.key`, `FLVVideoCodec.avc`, `FLVSoundRate.kHz44`, …) do not match the declared cases. The chunk header types `RTMPChunk.ChunkType.zero` and `.one` (Live/RTMP/RTMPConnector.swift:39-73) and `ChunkType.Type0` and `.Type1` (Live/RTMP/RTMPStream.swift:63 and 73) name no declared type; the declared enumeration is `ChunkMessageHeaderType`. All of these are modelled by the raw values they evidently mean: `.zero` and `.Type0` as header type 0, `.one` and `.Type1` as header type 1.
- `Amf0Map()` (Live/RTMP/RTMPStream.swift:34) is not declared in the source. It is read as `Amf0ECMAArray`, as the name of the variable it is stored in says; it is therefore written as an Object (`Amf0.EcmaArrayReadsAsObject`).
- `RTMPMessage.payloadLength` is not a field of the model. Its getter is the payload's length, and the receiver's assignment to it has no effect.
- The audio and video capture, encoder and view files of Live/Live are not part of this model.
- Amf0.DecodeEncode: the AMF0 round trip is claimed only for numbers, booleans, strings of at most 65535 bytes, null, undefined and objects with distinct keys holding such values. For the other shapes the source's encoders and its decoder disagree, and the model proves what happens instead. An ECMA array is written exactly as an Object and reads back as one (`Amf0.EcmaArrayReadsAsObject`). A Date is written under the ECMA array tag (`Amf0.DateReadsAsEcmaArray`). A long string is tagged 0x0c, which `create` rejects (`Amf0.LongStringNotDecodable`). A strict array's count is read with `readUInt32` as written, which yields the count divided by 256: fewer than 256 items, the empty array included, trap on `1...0`, and a longer array reads back only its first count/256 items (`Amf0.StrictArrayNeverReadsBack`, `Amf0.DecodeStrictArrayEncode`).
- Chunks.Split: requires a chunk size of at least 1 and a payload below 2^32 bytes. With chunk size 0 the source's loop (Live/RTMP/RTMPChunk.swift:78-84) never ends, and a payload of 2^32 bytes or more traps at `UInt32(message.payloadLength)`; neither outcome is modelled.
- Messages.CommandRoundTrip: the transaction id is required to be below 2^53 in magnitude. Above that, `Double(transactionID)` rounds, and the id read back differs.
- Muxers.VideoRunTimeline and Muxers.AudioRunTimeline: the claims assume no decode or presentation time is exactly zero, because the source reads such a time as "no previous sample".

## Where the code and its description differ

The model follows the code in each of these cases.

- Audio timestamps: the first audio sample's time is kept as the previous time. When that time is zero it reads as `kCMTimeZero`. So for samples at 0, 20 and 45 ms the delegate gets 0, 0 and 25, not 0, 20 and 25 (Live/Live/RTMPMuxer.swift:100).
- Video timestamps: a negative video delta is handed on, not rejected (`Muxers.NegativeVideoDelta`). Only the audio path drops a sample whose delta is negative.
- `_error`: `expectCommandMessage` accepts an `_error` reply just as it accepts `_result`. `connectApp` only prints which one it got, and the session goes on in both cases (Live/RTMP/RTMPConnector.swift:47-53).
- First chunk of a stream: the receiver does not check that the first chunk on a chunk stream is fmt 0. A first chunk of fmt 1 or 2 is read on whatever the stream's entry holds. It traps at `chunk.timestamp!` only when no timestamp is stored there, or when the sum overflows. A first chunk of fmt 3 always traps (`Framing.MessageHeaderAt`).
- Unknown message types: a type byte that names no message type does not fail while framing. It leaves the entry's type `nil`, and the receiver then traps at `create(messageType: chunk.messageType)`.

## Findings

| source | as written | input that shows it | evidently intended | confidence | as-written member | corrected member |
|---|---|---|---|---|---|---|
| Live/RTMP/NumberByteOperator.swift:35-39 | `readUInt32` loads `UInt32(bytes: [0x00] + bytes)`, the zero and the first three bytes, so the fourth byte is dropped | bytes `01 02 03 04` read as 0x010203 | the four bytes read big-endian, 0x01020304 | high (not executed) | NumberByteOperator.UInt32AsWrittenDropsLastByte | NumberByteOperator.UInt32AtBigEndian |
| Live/RTMP/RTMPReceiver.swift:50 | `(idInBytes[1] << 8) \| idInBytes[0]` shifts an 8-bit value, so the third byte of a three-byte basic header is lost | basic header `01 00 01` reads as chunk stream id 64 | the third byte times 256 plus the second plus 64, which is id 320 (section 5.3.1.1 of the RTMP specification) | high (not executed) | Framing.BasicHeaderAsWrittenLosesHighByte | Framing.BasicHeaderRoundTrip |
| Live/RTMP/RTMPMessage.swift:248-252 | `init(ackWindowSize:limitType:messageStreamID:)` never stores `limitType` | a Soft limit is sent and read back as Hard | the limit type passed in is stored and sent | high (not executed) | Messages.SetPeerBandwidthLosesLimit | Messages.PeerBandwidthRoundTrip |
