/** The AMF0 values of Live/RTMP/Amf0.swift, their `dataInBytes` encodings and the
    decoding `Amf0Data.create` performs, stated on (input, position) pairs. The
    cursor-walking methods that implement this decoding are in Amf0Decoder. */
module Amf0 {
  import opened Wrappers
  import opened Bytes
  import opened AssocLists
  import opened InputStreams
  import opened NumberByteOperator
  import Ieee754

  const NumberMarker: byte := 0x00
  const BooleanMarker: byte := 0x01
  const StringMarker: byte := 0x02
  const ObjectMarker: byte := 0x03
  const NullMarker: byte := 0x05
  const UndefinedMarker: byte := 0x06
  const EcmaArrayMarker: byte := 0x08
  const ObjectEndMarker: byte := 0x09
  const StrictArrayMarker: byte := 0x0a
  const DateMarker: byte := 0x0b
  const LongStringMarker: byte := 0x0c

  /** The tags `Amf0Data.create` has a decoder for. */
  predicate Decodable(tag: byte)
  {
    tag == NumberMarker || tag == BooleanMarker || tag == StringMarker || tag == ObjectMarker ||
    tag == NullMarker || tag == UndefinedMarker || tag == EcmaArrayMarker || tag == StrictArrayMarker ||
    tag == DateMarker
  }

  /** The object end marker `00 00 09`. */
  const EndMark: seq<byte> := [0x00, 0x00, ObjectEndMarker]

  /** One value of the class hierarchy rooted at `Amf0Data`. Numbers and dates are
      64-bit IEEE-754 patterns; strings are their UTF-8 bytes; the property list of
      an object stands for its dictionary (see AssocLists). */
  datatype Value =
    | Number(bits: uint64)
    | Boolean(flag: bool)
    | Str(chars: seq<byte>)
    | Object(properties: seq<(seq<byte>, Value)>)
    | Null
    | Undefined
    | EcmaArray(entries: seq<(seq<byte>, Value)>)
    | StrictArray(items: seq<Value>)
    | Date(millis: uint64)

  /** What `dataInBytes` can encode without trapping: every length it converts with
      `UInt16(...)` or `UInt32(...)` fits. */
  ghost predicate Encodable(v: Value)
    decreases v, 1
  {
    match v
    case Str(s) => |s| < 0x1_0000_0000
    case Object(ps) => EncodableProperties(v, ps, true)
    case EcmaArray(ps) => EncodableProperties(v, ps, true)
    case StrictArray(items) => |items| < 0x1_0000_0000 && EncodableItems(v, items)
    case _ => true
  }

  /** Every value of `ps`, a suffix of the properties of `parent`, is encodable, and
      so is every key when it is written with a 16-bit length (`keyed`). */
  ghost predicate EncodableProperties(parent: Value, ps: seq<(seq<byte>, Value)>, keyed: bool)
    decreases parent, 0, |ps|
  {
    |ps| == 0 ||
    (ps[0].1 < parent && (keyed ==> |ps[0].0| <= 0xFFFF) && Encodable(ps[0].1) &&
     EncodableProperties(parent, ps[1..], keyed))
  }

  ghost predicate EncodableItems(parent: Value, items: seq<Value>)
    decreases parent, 0, |items|
  {
    |items| == 0 || (items[0] < parent && Encodable(items[0]) && EncodableItems(parent, items[1..]))
  }

  /** `dataInBytes` of every subclass. */
  function Encode(v: Value): (r: seq<byte>)
    requires Encodable(v)
    ensures |r| >= 1 && r[0] != ObjectEndMarker
    decreases v, 1, 0
  {
    match v
    case Number(bits) => [NumberMarker] + BigEndian(bits, 8)
    case Boolean(b) => [BooleanMarker, if b then 0x01 else 0x00]
    case Str(s) =>
      if |s| > 0xFFFF then [LongStringMarker] + BigEndian(|s|, 4) + s
      else [StringMarker] + BigEndian(|s|, 2) + s
    case Object(ps) => [ObjectMarker] + EncodeObjectProperties(v, ps) + EndMark
    case Null => [NullMarker]
    case Undefined => [UndefinedMarker]
    case EcmaArray(ps) =>
      // Amf0ECMAArray's getter first asks Amf0Object's getter, which fills the cache
      // with the object encoding; the cache is then not empty, so that is returned.
      [ObjectMarker] + EncodeObjectProperties(v, ps) + EndMark
    case StrictArray(items) => [StrictArrayMarker] + BigEndian(|items|, 4) + EncodeItems(v, items)
    case Date(millis) =>
      // Amf0Date writes the ECMA array tag, not DateMarker.
      [EcmaArrayMarker] + BigEndian(millis, 8) + [0x00, 0x00]
  }

  /** Numbers and dates are written as `bytes.reversed()`, their little-endian bytes
      in reverse, which is the big-endian encoding `Encode` uses. */
  lemma {:induction false} EncodeReversesBytes(v: Value)
    requires v.Number? || v.Date?
    ensures v.Number? ==> Encode(v) == [NumberMarker] + Reverse(LittleEndian(v.bits, 8))
    ensures v.Date? ==> Encode(v) == [EcmaArrayMarker] + Reverse(LittleEndian(v.millis, 8)) + [0x00, 0x00]
  {
    if v.Number? {
      ReversedBytes(v.bits, 8);
    } else {
      ReversedBytes(v.millis, 8);
    }
  }

  /** One object property: a 2-byte big-endian key length, the key, the value. */
  function EncodeProperty(key: seq<byte>, value: Value): (r: seq<byte>)
    requires |key| <= 0xFFFF && Encodable(value)
    ensures |r| == 2 + |key| + |Encode(value)|
    decreases value, 2, 0
  {
    BigEndian(|key|, 2) + key + Encode(value)
  }

  /** The properties' encodings in order; `parent` is the value holding them. */
  function EncodeObjectProperties(ghost parent: Value, ps: seq<(seq<byte>, Value)>): (r: seq<byte>)
    requires EncodableProperties(parent, ps, true)
    decreases parent, 0, |ps|
  {
    if |ps| == 0 then []
    else EncodeProperty(ps[0].0, ps[0].1) + EncodeObjectProperties(parent, ps[1..])
  }

  function EncodeItems(ghost parent: Value, items: seq<Value>): (r: seq<byte>)
    requires EncodableItems(parent, items)
    decreases parent, 0, |items|
  {
    if |items| == 0 then [] else Encode(items[0]) + EncodeItems(parent, items[1..])
  }

  /** A value `setProperties(key:value:)` accepts, by its dynamic type. */
  datatype PropertyInput =
    | DoubleInput(bits: uint64)
    | IntInput(n: int64)
    | Int32Input(n32: int32)
    | UInt32Input(u32: uint32)
    | StringInput(s: seq<byte>)
    | BoolInput(b: bool)

  /** The AMF0 value `setProperties` stores: numbers become Number (integers
      converted exactly while they fit in 53 bits), strings String, Booleans Boolean. */
  function PropertyValue(input: PropertyInput): (v: Value)
    ensures input.DoubleInput? ==> v == Number(input.bits)
    ensures input.StringInput? ==> v == Str(input.s)
    ensures input.BoolInput? ==> v == Boolean(input.b)
    ensures input.IntInput? && -Ieee754.Two53 < input.n < Ieee754.Two53 ==>
      v.Number? && Ieee754.ToInt(v.bits) == Some(input.n)
    ensures input.Int32Input? ==> v.Number? && Ieee754.ToInt(v.bits) == Some(input.n32 as int)
    ensures input.UInt32Input? ==> v.Number? && Ieee754.ToUInt32(v.bits) == Some(input.u32)
  {
    match input
    case DoubleInput(bits) => Number(bits)
    case IntInput(n) =>
      if -Ieee754.Two53 < n < Ieee754.Two53 then Ieee754.ToIntFromInt(n); Number(Ieee754.FromInt(n))
      else Number(Ieee754.FromInt(n))
    case Int32Input(n) => Ieee754.ToIntFromInt(n as int64); Number(Ieee754.FromInt(n as int64))
    case UInt32Input(u) => Ieee754.ToUInt32FromInt(u); Number(Ieee754.FromInt(u as int64))
    case StringInput(s) => Str(s)
    case BoolInput(b) => Boolean(b)
  }

  /** `setProperties(key:value:)` on an object's property dictionary. */
  function SetProperty(ps: seq<(seq<byte>, Value)>, key: seq<byte>, input: PropertyInput): (r: seq<(seq<byte>, Value)>)
    ensures Lookup(r, key) == Some(PropertyValue(input))
    ensures forall k :: k != key ==> Lookup(r, k) == Lookup(ps, k)
    ensures DistinctKeys(ps) ==> DistinctKeys(r)
    ensures key !in Keys(ps) ==> r == ps + [(key, PropertyValue(input))]
  {
    if DistinctKeys(ps) then InsertDistinct(ps, key, PropertyValue(input)); Insert(ps, key, PropertyValue(input))
    else Insert(ps, key, PropertyValue(input))
  }

  /** The properties a new object holds after `setProperties` has been called
      for each of `settings` in order, when no key comes twice: one entry per
      setting, in the same order. */
  function PropertiesOf(settings: seq<(seq<byte>, PropertyInput)>): (r: seq<(seq<byte>, Value)>)
    ensures |r| == |settings|
    ensures forall j :: 0 <= j < |r| ==> r[j] == (settings[j].0, PropertyValue(settings[j].1))
  {
    if settings == [] then []
    else
      var last := settings[|settings| - 1];
      PropertiesOf(settings[..|settings| - 1]) + [(last.0, PropertyValue(last.1))]
  }

  /** One more `setProperties` call, with a key not set before: its entry goes
      after the ones set before it. */
  lemma {:induction false} SetPropertiesStep(settings: seq<(seq<byte>, PropertyInput)>, i: nat,
                                             ps: seq<(seq<byte>, Value)>)
    requires DistinctKeys(settings) && i < |settings| && ps == PropertiesOf(settings[..i])
    ensures SetProperty(ps, settings[i].0, settings[i].1) == PropertiesOf(settings[..i + 1])
  {
    var key := settings[i].0;
    assert key !in Keys(ps) by {
      forall j | 0 <= j < |ps| ensures Keys(ps)[j] != key {
        assert ps[j].0 == settings[..i][j].0 == settings[j].0;
      }
    }
    assert settings[..i + 1][..i] == settings[..i];
  }

  /** Looking a key up in the object finds the value set for it, converted as
      `setProperties` converts it, and nothing for a key never set. */
  lemma {:induction false} PropertiesOfLookup(settings: seq<(seq<byte>, PropertyInput)>, key: seq<byte>)
    ensures var r := Lookup(PropertiesOf(settings), key);
      var s := Lookup(settings, key);
      (r.Some? <==> s.Some?) && (s.Some? ==> r.value == PropertyValue(s.value))
  {
    IndexOfSameKeys(PropertiesOf(settings), settings, key);
  }

  /** With no key set twice, each key holds the value set for it. */
  lemma {:induction false} PropertiesOfAt(settings: seq<(seq<byte>, PropertyInput)>, i: nat)
    requires DistinctKeys(settings) && i < |settings|
    ensures Lookup(PropertiesOf(settings), settings[i].0) == Some(PropertyValue(settings[i].1))
  {
    PropertiesOfLookup(settings, settings[i].0);
    LookupDistinct(settings, i);
  }

  // ---------------------------------------------------------------------------
  // Decoding
  // ---------------------------------------------------------------------------

  /** What a decoder produced and the cursor position after it. */
  datatype Decoded<+T> = Decoded(result: Outcome<T>, pos: nat)

  /** `read()` used to skip a byte: it moves only when a byte remains. */
  function SkipByte(count: nat, pos: nat): (r: nat)
    requires pos <= count
    ensures r == if pos < count then pos + 1 else pos
  {
    if pos + 1 <= count then pos + 1 else pos
  }

  /** The string body `Amf0String.decode` reads: a 2-byte length, then that many
      bytes (missing bytes read as 0). */
  function StringAt(data: seq<byte>, pos: nat): (r: (seq<byte>, nat))
    requires pos <= |data|
    ensures pos <= r.1 <= |data|
    ensures |r.0| == UInt16At(data, pos)
  {
    var len := UInt16At(data, pos);
    var p := Advanced(|data|, pos, 2);
    (Peek(data, p, len), Advanced(|data|, p, len))
  }

  /** `Amf0Data.create`: reads the tag, then decodes what follows it; fails on empty
      input and on any tag without a decoder. */
  function Decode(data: seq<byte>, pos: nat): (r: Decoded<Value>)
    requires pos <= |data|
    ensures pos <= r.pos <= |data|
    ensures r.result.Ok? ==> r.pos > pos
    ensures r.result.Fail? <==> pos == |data| || !Decodable(data[pos])
    ensures r.result.Fail? ==> r.pos == SkipByte(|data|, pos)
    decreases |data| - pos, 2, 0
  {
    if pos == |data| then Decoded(Fail, pos) else DecodeTagged(data, data[pos], pos + 1)
  }

  /** The decoder `create` picks for `tag`, run from `pos`, just after the tag. */
  function DecodeTagged(data: seq<byte>, tag: byte, pos: nat): (r: Decoded<Value>)
    requires 1 <= pos <= |data|
    ensures pos <= r.pos <= |data|
    ensures r.result.Fail? <==> !Decodable(tag)
    ensures r.result.Fail? ==> r.pos == pos
    decreases |data| - pos + 1, 1, 0
  {
    if tag == NumberMarker then Decoded(Ok(Number(DoubleAt(data, pos))), Advanced(|data|, pos, 8))
    else if tag == BooleanMarker then DecodeBoolean(data, pos)
    else if tag == StringMarker then
      var (s, q) := StringAt(data, pos);
      Decoded(Ok(Str(s)), q)
    else if tag == ObjectMarker || tag == EcmaArrayMarker then DecodeObject(data, pos, tag == ObjectMarker)
    else if tag == NullMarker then Decoded(Ok(Null), pos)
    else if tag == UndefinedMarker then Decoded(Ok(Undefined), pos)
    else if tag == StrictArrayMarker then DecodeStrictArray(data, pos)
    else if tag == DateMarker then Decoded(Ok(Date(DoubleAt(data, pos))), Advanced(|data|, pos, 8))
    else Decoded(Fail, pos)
  }

  /** `Amf0Boolean.decode`: true exactly when the next byte is 0x01. */
  function DecodeBoolean(data: seq<byte>, pos: nat): (r: Decoded<Value>)
    requires pos <= |data|
    ensures r.result.Ok? && r.result.value.Boolean? && r.pos == SkipByte(|data|, pos)
    ensures r.result.value.flag <==> pos < |data| && data[pos] == 0x01
  {
    if pos < |data| then Decoded(Ok(Boolean(data[pos] == 0x01)), pos + 1)
    else Decoded(Ok(Boolean(false)), pos)
  }

  /** `Amf0Object.decode` (also used by `Amf0ECMAArray`, which inherits it, so no
      count is read), after the tag. */
  function DecodeObject(data: seq<byte>, pos: nat, isObject: bool): (r: Decoded<Value>)
    requires pos <= |data|
    ensures pos <= r.pos <= |data|
    ensures !r.result.Fail?
    ensures r.result.Ok? ==> if isObject then r.result.value.Object? else r.result.value.EcmaArray?
    decreases |data| - pos, 4, 0
  {
    var d := DecodeProperties(data, pos, [0, 0, 0], []);
    match d.result
    case Ok(pairs) =>
      var ps := Merge([], pairs);
      Decoded(Ok(if isObject then Object(ps) else EcmaArray(ps)), d.pos)
    case Fail => Decoded(Trap, d.pos)
    case Trap => Decoded(Trap, d.pos)
  }

  /** `Amf0StrictArray.decode`, after the tag: the count `readUInt32` gives (as
      written, the first three of the four count bytes), then at most that many
      items; a zero count traps, since `1...0` is not a valid range. */
  function DecodeStrictArray(data: seq<byte>, pos: nat): (r: Decoded<Value>)
    requires pos <= |data|
    ensures pos <= r.pos <= |data|
    ensures !r.result.Fail?
    ensures r.result.Ok? ==> r.result.value.StrictArray? && |r.result.value.items| <= UInt32AtAsWritten(data, pos)
    ensures UInt32AtAsWritten(data, pos) == 0 ==> r == Decoded(Trap, Advanced(|data|, pos, 4))
    decreases |data| - pos, 4, 0
  {
    var count := UInt32AtAsWritten(data, pos);
    var q := Advanced(|data|, pos, 4);
    if count == 0 then Decoded(Trap, q)
    else
      var d := DecodeItems(data, q, count, []);
      match d.result
      case Ok(items) => Decoded(Ok(StrictArray(items)), d.pos)
      case Fail => Decoded(Trap, d.pos)
      case Trap => Decoded(Trap, d.pos)
  }

  /** The (key, value) pairs `Amf0Object.decode` reads from `pos`, in order, after
      those in `acc`; `buffer` is the 3-byte look-ahead buffer, which keeps stale
      bytes when fewer than 3 remain. It stops after consuming the end marker, or at
      the first key or value that fails, keeping what it has. The dictionary it
      builds stores each pair in turn: `Merge([], pairs)`. */
  function DecodeProperties(data: seq<byte>, pos: nat, buffer: seq<byte>, acc: seq<(seq<byte>, Value)>)
    : (r: Decoded<seq<(seq<byte>, Value)>>)
    requires pos <= |data| && |buffer| == 3
    ensures pos <= r.pos <= |data|
    ensures !r.result.Fail?
    decreases |data| - pos, 3, 0
  {
    var peeked := Filled(data, pos, 3, buffer);
    if peeked == EndMark then Decoded(Ok(acc), Advanced(|data|, pos, 3))
    else
      var (key, q) := StringAt(data, pos);
      var d := Decode(data, q);
      match d.result
      case Fail => Decoded(Ok(acc), d.pos)
      case Trap => Decoded(Trap, d.pos)
      case Ok(v) => DecodeProperties(data, d.pos, peeked, acc + [(key, v)])
  }

  /** `Amf0StrictArray.decode`'s loop over `remaining` more items: it appends to
      `acc` at most that many. */
  function DecodeItems(data: seq<byte>, pos: nat, remaining: nat, acc: seq<Value>): (r: Decoded<seq<Value>>)
    requires pos <= |data|
    ensures pos <= r.pos <= |data|
    ensures !r.result.Fail?
    ensures r.result.Ok? ==> |acc| <= |r.result.value| <= |acc| + remaining && r.result.value[..|acc|] == acc
    decreases |data| - pos, 3, remaining
  {
    if remaining == 0 then Decoded(Ok(acc), pos)
    else
      var d := Decode(data, pos);
      match d.result
      case Fail => Decoded(Ok(acc), d.pos)
      case Trap => Decoded(Trap, d.pos)
      case Ok(v) => DecodeItems(data, d.pos, remaining - 1, acc + [v])
  }

  // ---------------------------------------------------------------------------
  // Round trips
  // ---------------------------------------------------------------------------

  /** The shapes whose encoding decodes back to themselves: strings of at most 65535
      bytes and objects with distinct keys. An ECMA array reads back as an object
      (`EcmaArrayReadsAsObject`), a date as an ECMA array (`DateReadsAsEcmaArray`),
      and a strict array not at all, since the decoder reads its count with
      `readUInt32` as written (`StrictArrayNeverReadsBack`). */
  ghost predicate RoundTrips(v: Value)
    decreases v, 1
  {
    match v
    case Number(_) => true
    case Boolean(_) => true
    case Str(s) => |s| <= 0xFFFF
    case Object(ps) => UniqueKeys(ps) && RoundTripProperties(v, ps)
    case Null => true
    case Undefined => true
    case _ => false
  }

  ghost predicate RoundTripProperties(parent: Value, ps: seq<(seq<byte>, Value)>)
    decreases parent, 0, |ps|
  {
    |ps| == 0 || (ps[0].1 < parent && RoundTrips(ps[0].1) && RoundTripProperties(parent, ps[1..]))
  }

  ghost predicate RoundTripItems(parent: Value, items: seq<Value>)
    decreases parent, 0, |items|
  {
    |items| == 0 || (items[0] < parent && RoundTrips(items[0]) && RoundTripItems(parent, items[1..]))
  }

  /** Decoding the bytes a value encodes to yields that value and consumes exactly
      those bytes, whatever follows them. */
  lemma {:induction false} DecodeEncode(data: seq<byte>, pos: nat, v: Value)
    requires Encodable(v) && RoundTrips(v)
    requires pos + |Encode(v)| <= |data| && data[pos..pos + |Encode(v)|] == Encode(v)
    ensures Decode(data, pos) == Decoded(Ok(v), pos + |Encode(v)|)
  {
    BytesAtSlice(data, pos, Encode(v));
    DecodeEncodeAt(data, pos, v);
  }

  lemma {:induction false} DecodeEncodeAt(data: seq<byte>, pos: nat, v: Value)
    requires Encodable(v) && RoundTrips(v) && BytesAt(data, pos, Encode(v))
    ensures Decode(data, pos) == Decoded(Ok(v), pos + |Encode(v)|)
    decreases v, 4, 0
  {
    if v.Object? {
      DecodeObjectEncode(data, pos, v);
    } else {
      BytesAtSlice(data, pos, Encode(v));
      DecodeScalarEncode(data, pos, v);
    }
  }

  lemma {:induction false} DecodeScalarEncode(data: seq<byte>, pos: nat, v: Value)
    requires !v.Object? && Encodable(v) && RoundTrips(v)
    requires pos + |Encode(v)| <= |data| && data[pos..pos + |Encode(v)|] == Encode(v)
    ensures Decode(data, pos) == Decoded(Ok(v), pos + |Encode(v)|)
  {
    match v
    case Number(bits) =>
      DecodeNumberBytes(data, pos, bits);
    case Boolean(b) =>
      DecodeBooleanBytes(data, pos, b);
    case Str(s) =>
      DecodeStringBytes(data, pos, s);
    case Null =>
      assert data[pos] == NullMarker;
    case Undefined =>
      assert data[pos] == UndefinedMarker;
  }

  lemma {:induction false} DecodeObjectEncode(data: seq<byte>, pos: nat, v: Value)
    requires v.Object? && Encodable(v) && RoundTrips(v) && BytesAt(data, pos, Encode(v))
    ensures Decode(data, pos) == Decoded(Ok(v), pos + |Encode(v)|)
    decreases v, 3, 0
  {
    ObjectBytesRead(data, pos, v, v.properties);
  }

  /** The object layout (tag, encoded properties, end marker) of the properties of
      `parent` reads back as the object of those properties. */
  lemma {:induction false} ObjectBytesRead(data: seq<byte>, pos: nat, parent: Value, ps: seq<(seq<byte>, Value)>)
    requires EncodableProperties(parent, ps, true) && UniqueKeys(ps) && RoundTripProperties(parent, ps)
    requires BytesAt(data, pos, [ObjectMarker] + EncodeObjectProperties(parent, ps) + EndMark)
    ensures Decode(data, pos) == Decoded(Ok(Object(ps)), pos + 1 + |EncodeObjectProperties(parent, ps)| + 3)
    decreases parent, 2, |ps| + 1
  {
    var body := EncodeObjectProperties(parent, ps) + EndMark;
    assert [ObjectMarker] + EncodeObjectProperties(parent, ps) + EndMark == [ObjectMarker] + body;
    BytesAtAppend(data, pos, [ObjectMarker], body);
    assert [] + ps == ps;
    DecodePropertiesEncode(data, pos + 1, [0, 0, 0], [], parent, ps);
    MergeUnique(ps);
    DecodeObjectBytes(data, pos, ps, |body|);
  }

  /** An ECMA array is written as an object, so it reads back as the object of its
      entries, and not as an ECMA array. */
  lemma {:induction false} EcmaArrayReadsAsObject(ps: seq<(seq<byte>, Value)>)
    requires Encodable(EcmaArray(ps)) && UniqueKeys(ps) && RoundTripProperties(EcmaArray(ps), ps)
    ensures Encode(EcmaArray(ps))[0] == ObjectMarker
    ensures Decode(Encode(EcmaArray(ps)), 0) == Decoded(Ok(Object(ps)), |Encode(EcmaArray(ps))|)
  {
    var e := Encode(EcmaArray(ps));
    BytesAtSlice(e, 0, e);
    ObjectBytesRead(e, 0, EcmaArray(ps), ps);
  }

  /** What the decoder makes of an encoded strict array: it takes the item count
      divided by 256 for the count, so under 256 items it traps, and otherwise it
      reads only the first count/256 items and stops before the end. */
  lemma {:induction false} DecodeStrictArrayEncode(data: seq<byte>, pos: nat, v: Value)
    requires v.StrictArray? && Encodable(v) && RoundTripItems(v, v.items) && BytesAt(data, pos, Encode(v))
    ensures |v.items| < 256 ==> Decode(data, pos) == Decoded(Trap, pos + 5)
    ensures |v.items| >= 256 ==>
      Decode(data, pos).result == Ok(StrictArray(v.items[..|v.items| / 256])) &&
      Decode(data, pos).pos < pos + |Encode(v)|
  {
    var items := v.items;
    var k := |items| / 256;
    var count := BigEndian(|items|, 4);
    var body := EncodeItems(v, items);
    assert Encode(v) == [StrictArrayMarker] + (count + body);
    BytesAtAppend(data, pos, [StrictArrayMarker], count + body);
    BytesAtAppend(data, pos + 1, count, body);
    BytesAtSlice(data, pos + 1, count);
    if k == 0 {
      DecodeStrictArrayBytes(data, pos, |items|, [], pos + 5);
    } else {
      ItemsPrefix(v, items, k);
      var front := EncodeItems(v, items[..k]);
      var back := EncodeItems(v, items[k..]);
      BytesAtAppend(data, pos + 5, front, back);
      assert [] + items[..k] == items[..k];
      DecodeItemsEncode(data, pos + 5, [], v, items[..k]);
      assert |items[..k]| == k;
      DecodeStrictArrayBytes(data, pos, |items|, items[..k], pos + 5 + |front|);
      assert |back| >= 1 by {
        assert |items[k..]| > 0;
        assert back == Encode(items[k..][0]) + EncodeItems(v, items[k..][1..]);
      }
    }
  }

  /** A prefix of a strict array's items is encodable and reads back as they do, and
      the items' encoding is the prefix's followed by the rest's. */
  lemma {:induction false} ItemsPrefix(parent: Value, items: seq<Value>, k: nat)
    requires EncodableItems(parent, items) && RoundTripItems(parent, items) && k <= |items|
    ensures EncodableItems(parent, items[..k]) && RoundTripItems(parent, items[..k])
    ensures EncodableItems(parent, items[k..])
    ensures EncodeItems(parent, items) == EncodeItems(parent, items[..k]) + EncodeItems(parent, items[k..])
    decreases k
  {
    if k == 0 {
      assert items[..0] == [] && items[0..] == items;
    } else {
      ItemsPrefix(parent, items[1..], k - 1);
      assert items[1..][..k - 1] == items[..k][1..];
      assert items[1..][k - 1..] == items[k..];
      assert items[..k][0] == items[0];
    }
  }

  /** No strict array reads back from its encoding, and one of fewer than 256 items,
      the empty one included, traps the decoder. */
  lemma {:induction false} StrictArrayNeverReadsBack(items: seq<Value>)
    requires Encodable(StrictArray(items))
    ensures Decode(Encode(StrictArray(items)), 0).result != Ok(StrictArray(items))
    ensures |items| < 256 ==> Decode(Encode(StrictArray(items)), 0).result == Trap
  {
    var v := StrictArray(items);
    var e := Encode(v);
    var count := BigEndian(|items|, 4);
    assert e == [StrictArrayMarker] + count + EncodeItems(v, items);
    assert e[1..5] == count;
    UInt32AtAsWrittenBigEndian(e, 1, |items|);
    assert Decode(e, 0) == DecodeStrictArray(e, 1);
  }

  lemma {:induction false} DecodeNumberBytes(data: seq<byte>, pos: nat, bits: uint64)
    requires pos + 9 <= |data| && data[pos..pos + 9] == [NumberMarker] + BigEndian(bits, 8)
    ensures Decode(data, pos) == Decoded(Ok(Number(bits)), pos + 9)
  {
    SplitSlice(data, pos, [NumberMarker], BigEndian(bits, 8));
    assert data[pos] == data[pos..pos + 1][0] == NumberMarker;
    DoubleAtBigEndian(data, pos + 1, bits);
    PeekWhole(data, pos + 1, 8);
    assert DecodeTagged(data, NumberMarker, pos + 1) == Decoded(Ok(Number(bits)), pos + 9);
  }

  lemma {:induction false} DecodeBooleanBytes(data: seq<byte>, pos: nat, b: bool)
    requires pos + 2 <= |data| && data[pos..pos + 2] == [BooleanMarker, if b then 0x01 else 0x00]
    ensures Decode(data, pos) == Decoded(Ok(Boolean(b)), pos + 2)
  {
    assert data[pos] == BooleanMarker && data[pos + 1] == if b then 0x01 else 0x00;
  }

  lemma {:induction false} DecodeStringBytes(data: seq<byte>, pos: nat, s: seq<byte>)
    requires |s| <= 0xFFFF
    requires var e := [StringMarker] + BigEndian(|s|, 2) + s; pos + |e| <= |data| && data[pos..pos + |e|] == e
    ensures Decode(data, pos) == Decoded(Ok(Str(s)), pos + 3 + |s|)
  {
    var len := BigEndian(|s|, 2);
    assert [StringMarker] + len + s == [StringMarker] + (len + s);
    SplitSlice(data, pos, [StringMarker], len + s);
    StringAtBytes(data, pos + 1, s);
  }

  /** A 2-byte length followed by that many bytes reads back as those bytes. */
  lemma {:induction false} StringAtBytes(data: seq<byte>, pos: nat, s: seq<byte>)
    requires |s| <= 0xFFFF
    requires var e := BigEndian(|s|, 2) + s; pos + |e| <= |data| && data[pos..pos + |e|] == e
    ensures StringAt(data, pos) == (s, pos + 2 + |s|)
  {
    var len := BigEndian(|s|, 2);
    SplitSlice(data, pos, len, s);
    UInt16AtBigEndian(data, pos, |s|);
    PeekWhole(data, pos, 2);
    PeekWhole(data, pos + 2, |s|);
  }

  lemma {:induction false} DecodeObjectBytes(data: seq<byte>, pos: nat, ps: seq<(seq<byte>, Value)>, n: nat)
    requires pos < |data| && data[pos] == ObjectMarker
    requires PropertiesReadBack(data, pos + 1, [0, 0, 0], [], ps, pos + 1 + n)
    requires Merge([], ps) == ps
    ensures Decode(data, pos) == Decoded(Ok(Object(ps)), pos + 1 + n)
  {
    assert DecodeObject(data, pos + 1, true) == Decoded(Ok(Object(ps)), pos + 1 + n);
  }

  /** At a strict array tag and a four-byte count, the decoder takes the count
      divided by 256: below 256 it traps, and otherwise it runs the item loop that
      many times. */
  lemma {:induction false} DecodeStrictArrayBytes(data: seq<byte>, pos: nat, count: nat, xs: seq<Value>, end: nat)
    requires count < 0x1_0000_0000
    requires pos + 5 <= |data| && data[pos] == StrictArrayMarker && data[pos + 1..pos + 5] == BigEndian(count, 4)
    ensures count < 256 ==> Decode(data, pos) == Decoded(Trap, pos + 5)
    ensures count >= 256 && DecodeItems(data, pos + 5, count / 256, []) == Decoded(Ok(xs), end) ==>
      Decode(data, pos) == Decoded(Ok(StrictArray(xs)), end)
  {
    UInt32AtAsWrittenBigEndian(data, pos + 1, count);
    PeekWhole(data, pos + 1, 4);
    assert Decode(data, pos) == DecodeStrictArray(data, pos + 1);
  }

  /** The property loop run from `pos` yields `r` and stops at `end`. */
  ghost predicate PropertiesReadBack(data: seq<byte>, pos: nat, buffer: seq<byte>, acc: seq<(seq<byte>, Value)>,
                                     r: seq<(seq<byte>, Value)>, end: nat)
  {
    pos <= |data| && |buffer| == 3 && DecodeProperties(data, pos, buffer, acc) == Decoded(Ok(r), end)
  }

  /** The property loop run from `pos` continues as it would from `next`. */
  ghost predicate SameRemainder(data: seq<byte>, pos: nat, buffer: seq<byte>, acc: seq<(seq<byte>, Value)>,
                                next: nat, peeked: seq<byte>, acc': seq<(seq<byte>, Value)>)
  {
    pos <= |data| && next <= |data| && |buffer| == 3 && |peeked| == 3 &&
    DecodeProperties(data, pos, buffer, acc) == DecodeProperties(data, next, peeked, acc')
  }

  /** What the loop sees at `pos`: no end marker, the key, then the value ending at `next`. */
  ghost predicate PropertyRead(data: seq<byte>, pos: nat, buffer: seq<byte>, key: seq<byte>, value: Value, next: nat)
  {
    pos + 3 <= |data| && |buffer| == 3 &&
    Filled(data, pos, 3, buffer) == data[pos..pos + 3] != EndMark &&
    StringAt(data, pos) == (key, pos + 2 + |key|) &&
    Decode(data, pos + 2 + |key|) == Decoded(Ok(value), next)
  }

  /** The property loop reads back the encoded pairs in order, appending each to
      those read before it, and consumes the end marker. */
  lemma {:induction false} DecodePropertiesEncode(data: seq<byte>, pos: nat, buffer: seq<byte>,
                                                  acc: seq<(seq<byte>, Value)>, parent: Value,
                                                  ps: seq<(seq<byte>, Value)>)
    requires |buffer| == 3
    requires EncodableProperties(parent, ps, true) && RoundTripProperties(parent, ps)
    requires BytesAt(data, pos, EncodeObjectProperties(parent, ps) + EndMark)
    ensures PropertiesReadBack(data, pos, buffer, acc, acc + ps, pos + |EncodeObjectProperties(parent, ps) + EndMark|)
    decreases parent, 2, |ps|
  {
    if |ps| == 0 {
      assert EncodeObjectProperties(parent, ps) + EndMark == EndMark;
      BytesAtSlice(data, pos, EndMark);
      PeekWhole(data, pos, 3);
      assert acc + ps == acc;
    } else {
      var next := pos + |EncodeProperty(ps[0].0, ps[0].1)|;
      DecodeFirstProperty(data, pos, buffer, acc, parent, ps);
      PropertyStep(data, pos, buffer, acc, ps[0], next);
      DecodePropertiesEncode(data, next, data[pos..pos + 3], acc + [ps[0]], parent, ps[1..]);
    }
  }

  /** The first encoded property is read back, and the others follow it. */
  lemma {:induction false} DecodeFirstProperty(data: seq<byte>, pos: nat, buffer: seq<byte>,
                                               acc: seq<(seq<byte>, Value)>, parent: Value,
                                               ps: seq<(seq<byte>, Value)>)
    requires |buffer| == 3 && |ps| > 0
    requires EncodableProperties(parent, ps, true) && RoundTripProperties(parent, ps)
    requires BytesAt(data, pos, EncodeObjectProperties(parent, ps) + EndMark)
    ensures var next := pos + |EncodeProperty(ps[0].0, ps[0].1)|;
      var rest := EncodeObjectProperties(parent, ps[1..]) + EndMark;
      && pos + 3 <= |data|
      && BytesAt(data, next, rest)
      && EncodableProperties(parent, ps[1..], true) && RoundTripProperties(parent, ps[1..])
      && (acc + [ps[0]]) + ps[1..] == acc + ps
      && next + |rest| == pos + |EncodeObjectProperties(parent, ps) + EndMark|
      && PropertyRead(data, pos, buffer, ps[0].0, ps[0].1, next)
    decreases parent, 1, |ps|
  {
    var first := EncodeProperty(ps[0].0, ps[0].1);
    var rest := EncodeObjectProperties(parent, ps[1..]) + EndMark;
    assert EncodeObjectProperties(parent, ps) + EndMark == first + rest;
    BytesAtAppend(data, pos, first, rest);
    assert (acc + [ps[0]]) + ps[1..] == acc + ps;
    PropertyBytes(data, pos, buffer, ps[0].0, ps[0].1);
  }

  /** What the loop sees at an encoded property. */
  lemma {:induction false} PropertyBytes(data: seq<byte>, pos: nat, buffer: seq<byte>, key: seq<byte>, value: Value)
    requires |buffer| == 3 && |key| <= 0xFFFF && Encodable(value) && RoundTrips(value)
    requires BytesAt(data, pos, EncodeProperty(key, value))
    ensures PropertyRead(data, pos, buffer, key, value, pos + |EncodeProperty(key, value)|)
    decreases value, 5, 0
  {
    var header := BigEndian(|key|, 2) + key;
    var q, next := pos + 2 + |key|, pos + |EncodeProperty(key, value)|;
    assert EncodeProperty(key, value) == header + Encode(value);
    assert pos + |header| == q && q + |Encode(value)| == next;
    BytesAtAppend(data, pos, header, Encode(value));
    PropertyHeader(data, pos, buffer, key, Encode(value));
    DecodeEncodeAt(data, q, value);
  }

  /** One turn of the property loop, which reads `entry`. */
  lemma {:induction false} PropertyStep(data: seq<byte>, pos: nat, buffer: seq<byte>, acc: seq<(seq<byte>, Value)>,
                                        entry: (seq<byte>, Value), next: nat)
    requires PropertyRead(data, pos, buffer, entry.0, entry.1, next)
    ensures SameRemainder(data, pos, buffer, acc, next, data[pos..pos + 3], acc + [entry])
  {
  }

  /** At an encoded property (key length, key, value bytes `ev`) the look-ahead does
      not see the end marker (a key length of 0 is followed by a value tag, never
      0x09), and the key is read back. */
  lemma {:induction false} PropertyHeader(data: seq<byte>, pos: nat, buffer: seq<byte>, key: seq<byte>, ev: seq<byte>)
    requires |buffer| == 3 && |key| <= 0xFFFF && |ev| >= 1 && ev[0] != ObjectEndMarker
    requires BytesAt(data, pos, BigEndian(|key|, 2) + key) && BytesAt(data, pos + 2 + |key|, ev)
    ensures pos + 3 <= |data|
    ensures Filled(data, pos, 3, buffer) == data[pos..pos + 3] != EndMark
    ensures StringAt(data, pos) == (key, pos + 2 + |key|)
  {
    var len := BigEndian(|key|, 2);
    BytesAtAppend(data, pos, len, key);
    BytesAtSlice(data, pos, len);
    BytesAtSlice(data, pos + 2, key);
    BytesAtSlice(data, pos + 2 + |key|, ev);
    var rest := if |key| == 0 then ev else key;
    if |key| == 0 {
      assert data[pos + 2] == ev[0];
    } else {
      BigEndianRoundTrip(|key|, 2);
      BigEndian2(len);
      assert data[pos + 2] == key[0];
    }
    LookaheadAtProperty(data, pos, buffer, len, data[pos + 2]);
    UInt16AtBigEndian(data, pos, |key|);
    PeekWhole(data, pos, 2);
    PeekWhole(data, pos + 2, |key|);
  }

  lemma {:induction false} LookaheadAtProperty(data: seq<byte>, pos: nat, buffer: seq<byte>, len: seq<byte>, third: byte)
    requires |buffer| == 3 && |len| == 2
    requires len != [0, 0] || third != ObjectEndMarker
    requires pos + 3 <= |data| && data[pos..pos + 2] == len && data[pos + 2] == third
    ensures Filled(data, pos, 3, buffer) == data[pos..pos + 3] != EndMark
  {
    PeekWhole(data, pos, 3);
    assert data[pos..pos + 3][..2] == len;
  }

  /** The strict-array loop reads back the items it is asked for. */
  lemma {:induction false} DecodeItemsEncode(data: seq<byte>, pos: nat, acc: seq<Value>, parent: Value,
                                             items: seq<Value>)
    requires EncodableItems(parent, items) && RoundTripItems(parent, items)
    requires BytesAt(data, pos, EncodeItems(parent, items))
    ensures DecodeItems(data, pos, |items|, acc) == Decoded(Ok(acc + items), pos + |EncodeItems(parent, items)|)
    decreases parent, 2, |items|
  {
    if |items| == 0 {
      assert acc + items == acc;
    } else {
      var ev := Encode(items[0]);
      var rest := EncodeItems(parent, items[1..]);
      assert EncodeItems(parent, items) == ev + rest;
      BytesAtAppend(data, pos, ev, rest);
      ItemStep(data, pos, items, acc);
      DecodeItemsEncode(data, pos + |ev|, acc + [items[0]], parent, items[1..]);
      assert (acc + [items[0]]) + items[1..] == acc + items;
    }
  }

  /** One turn of the strict-array loop, reading the encoded first item. */
  lemma {:induction false} ItemStep(data: seq<byte>, pos: nat, items: seq<Value>, acc: seq<Value>)
    requires pos <= |data| && |items| > 0 && Encodable(items[0]) && RoundTrips(items[0])
    requires BytesAt(data, pos, Encode(items[0]))
    ensures DecodeItems(data, pos, |items|, acc)
      == DecodeItems(data, pos + |Encode(items[0])|, |items[1..]|, acc + [items[0]])
    decreases items[0], 4, 1
  {
    DecodeEncodeAt(data, pos, items[0]);
  }

  /** A string longer than 65535 bytes is written with the long-string tag, which
      `create` has no decoder for. */
  lemma {:induction false} LongStringNotDecodable(s: seq<byte>)
    requires 0xFFFF < |s| < 0x1_0000_0000
    ensures Decode(Encode(Str(s)), 0).result == Fail
  {
  }

  /** An encoded date reads back as an ECMA array, since it carries that tag. */
  lemma {:induction false} DateReadsAsEcmaArray(millis: uint64)
    ensures Decode(Encode(Date(millis)), 0).result.Ok? ==>
      Decode(Encode(Date(millis)), 0).result.value.EcmaArray?
  {
  }
}
