/** The cursor-walking AMF0 decoders of Live/RTMP/Amf0.swift (`Amf0Data.create` and
    each subclass's `decode`), and the `dataInBytes` cache every `Amf0Data` keeps.
    Each method is proved to move the cursor and produce the value exactly as the
    functions of Amf0 say. */
module Amf0Decoder {
  import opened Wrappers
  import opened Bytes
  import opened AssocLists
  import opened InputStreams
  import opened NumberByteOperator
  import opened Amf0

  /** `Amf0String.decode(_:isAmfObjectKey: true)`: a 2-byte length, then that many
      bytes read into a zeroed buffer. */
  method ReadStringBody(s: ByteArrayInputStream) returns (str: seq<byte>)
    requires s.Valid()
    modifies s`currentPosition
    ensures s.Valid() && s.byteArray == old(s.byteArray)
    ensures (str, s.currentPosition) == StringAt(s.byteArray, old(s.currentPosition))
  {
    var len := ReadUInt16(s);
    str := ReadInto(s, len);
  }

  /** `Amf0Data.create`: `Fail` stands for the `nil` it returns. */
  method Create(s: ByteArrayInputStream) returns (r: Outcome<Value>)
    requires s.Valid()
    modifies s`currentPosition
    ensures s.Valid() && s.byteArray == old(s.byteArray)
    ensures Decoded(r, s.currentPosition) == Decode(s.byteArray, old(s.currentPosition))
    decreases |s.byteArray| - s.currentPosition, 2
  {
    var tag := s.ReadByte();
    if tag.None? {
      return Fail;
    }
    r := DecodeAfterTag(s, tag.value);
  }

  /** The `decode` of the subclass `create` picks for `tag`. */
  method DecodeAfterTag(s: ByteArrayInputStream, tag: byte) returns (r: Outcome<Value>)
    requires s.Valid() && 1 <= s.currentPosition
    modifies s`currentPosition
    ensures s.Valid() && s.byteArray == old(s.byteArray)
    ensures Decoded(r, s.currentPosition) == DecodeTagged(s.byteArray, tag, old(s.currentPosition))
    decreases |s.byteArray| - s.currentPosition + 1, 1
  {
    if tag == NumberMarker {
      var bits := ReadDouble(s);
      r := Ok(Number(bits));
    } else if tag == BooleanMarker {
      var b := s.ReadByte();
      r := Ok(Boolean(b == Some(0x01)));
    } else if tag == StringMarker {
      var str := ReadStringBody(s);
      r := Ok(Str(str));
    } else if tag == ObjectMarker || tag == EcmaArrayMarker {
      r := ReadObject(s, tag == ObjectMarker);
    } else if tag == NullMarker {
      r := Ok(Null);
    } else if tag == UndefinedMarker {
      r := Ok(Undefined);
    } else if tag == StrictArrayMarker {
      r := ReadStrictArray(s);
    } else if tag == DateMarker {
      var bits := ReadDouble(s);
      r := Ok(Date(bits));
    } else {
      r := Fail;
    }
  }

  /** One turn of the `Amf0Object.decode` loop from `pos`, with the look-ahead buffer
      holding `buffer`: the end marker was consumed, a key or value could not be read
      (the loop returns), a nested decoder trapped, or a pair was read. */
  datatype PropertyStep =
    | EndOfObject(pos: nat)
    | Unreadable(pos: nat)
    | Trapped(pos: nat)
    | Pair(key: seq<byte>, value: Value, pos: nat, peeked: seq<byte>)

  function PropertyStepAt(data: seq<byte>, pos: nat, buffer: seq<byte>): (r: PropertyStep)
    requires pos <= |data| && |buffer| == 3
    ensures pos <= r.pos <= |data|
    ensures r.Pair? ==> pos < r.pos && |r.peeked| == 3
  {
    var peeked := Filled(data, pos, 3, buffer);
    if peeked == EndMark then EndOfObject(Advanced(|data|, pos, 3))
    else
      var (key, q) := StringAt(data, pos);
      var d := Decode(data, q);
      match d.result
      case Fail => Unreadable(d.pos)
      case Trap => Trapped(d.pos)
      case Ok(v) => Pair(key, v, d.pos, peeked)
  }

  /** `DecodeProperties` is that turn followed by the rest of the loop. */
  lemma {:induction false} DecodePropertiesStep(data: seq<byte>, pos: nat, buffer: seq<byte>, acc: seq<(seq<byte>, Value)>)
    requires pos <= |data| && |buffer| == 3
    ensures DecodeProperties(data, pos, buffer, acc) ==
      match PropertyStepAt(data, pos, buffer)
      case EndOfObject(p) => Decoded(Ok(acc), p)
      case Unreadable(p) => Decoded(Ok(acc), p)
      case Trapped(p) => Decoded(Trap, p)
      case Pair(key, value, p, peeked) => DecodeProperties(data, p, peeked, acc + [(key, value)])
  {
  }

  /** One turn of the loop: `tryRead` into the buffer, then either consume the end
      marker or read a key and a value. */
  method NextProperty(s: ByteArrayInputStream, buffer: array<byte>) returns (step: PropertyStep)
    requires s.Valid() && buffer.Length == 3
    modifies s`currentPosition, buffer
    ensures s.Valid() && s.byteArray == old(s.byteArray)
    ensures step == PropertyStepAt(s.byteArray, old(s.currentPosition), old(buffer[..]))
    ensures s.currentPosition == step.pos
    ensures buffer[..] == Filled(s.byteArray, old(s.currentPosition), 3, old(buffer[..]))
    decreases |s.byteArray| - s.currentPosition, 3
  {
    s.TryRead(buffer, 3);
    var peeked := buffer[..];
    if buffer[0] == 0x00 && buffer[1] == 0x00 && buffer[2] == ObjectEndMarker {
      assert buffer[..] == EndMark;
      s.Read(buffer, 3);
      return EndOfObject(s.currentPosition);
    }
    assert buffer[..] != EndMark;
    var key := ReadStringBody(s);
    var value := Create(s);
    match value
    case Fail =>
      step := Unreadable(s.currentPosition);
    case Trap =>
      step := Trapped(s.currentPosition);
    case Ok(v) =>
      step := Pair(key, v, s.currentPosition, peeked);
  }

  /** `Amf0Object.decode`: loop until the end marker, or until a key or value cannot
      be read, storing each pair read in the dictionary (a repeated key keeps the
      last value stored). */
  method ReadObject(s: ByteArrayInputStream, isObject: bool) returns (r: Outcome<Value>)
    requires s.Valid()
    modifies s`currentPosition
    ensures s.Valid() && s.byteArray == old(s.byteArray)
    ensures Decoded(r, s.currentPosition) == DecodeObject(s.byteArray, old(s.currentPosition), isObject)
    decreases |s.byteArray| - s.currentPosition, 4
  {
    ghost var data, start := s.byteArray, s.currentPosition;
    var buffer := new byte[3](_ => 0);
    assert buffer[..] == [0, 0, 0];
    var properties: seq<(seq<byte>, Value)> := [];
    ghost var read: seq<(seq<byte>, Value)> := [];
    while true
      invariant s.Valid() && s.byteArray == data && start <= s.currentPosition
      invariant DecodeProperties(data, s.currentPosition, buffer[..], read) == DecodeProperties(data, start, [0, 0, 0], [])
      invariant properties == Merge([], read)
      decreases |data| - s.currentPosition
    {
      DecodePropertiesStep(data, s.currentPosition, buffer[..], read);
      var step := NextProperty(s, buffer);
      match step
      case EndOfObject(_) =>
        return Ok(if isObject then Object(properties) else EcmaArray(properties));
      case Unreadable(_) =>
        return Ok(if isObject then Object(properties) else EcmaArray(properties));
      case Trapped(_) =>
        return Trap;
      case Pair(key, v, _, _) =>
        MergeSnoc([], read, key, v);
        properties := Insert(properties, key, v);
        read := read + [(key, v)];
    }
  }

  /** `Amf0StrictArray.decode`: the count `readUInt32` reads as written, then
      `for _ in 1...count`, which traps when the count is 0. */
  method ReadStrictArray(s: ByteArrayInputStream) returns (r: Outcome<Value>)
    requires s.Valid()
    modifies s`currentPosition
    ensures s.Valid() && s.byteArray == old(s.byteArray)
    ensures Decoded(r, s.currentPosition) == DecodeStrictArray(s.byteArray, old(s.currentPosition))
    decreases |s.byteArray| - s.currentPosition, 4
  {
    ghost var data, start := s.byteArray, s.currentPosition;
    var count := ReadUInt32AsWritten(s);
    if count == 0 {
      return Trap;
    }
    ghost var q := s.currentPosition;
    var items: seq<Value> := [];
    var n: nat := count;
    for i: nat := 1 to n + 1
      invariant s.Valid() && s.byteArray == data && start <= q <= s.currentPosition
      invariant DecodeItems(data, s.currentPosition, n + 1 - i, items) == DecodeItems(data, q, n, [])
    {
      DecodeItemsStep(data, s.currentPosition, n - i, items);
      var item := Create(s);
      match item
      case Fail =>
        return Ok(StrictArray(items));
      case Trap =>
        return Trap;
      case Ok(v) =>
        items := items + [v];
    }
    r := Ok(StrictArray(items));
  }

  /** One turn of the `Amf0StrictArray.decode` loop. */
  lemma {:induction false} DecodeItemsStep(data: seq<byte>, pos: nat, remaining: nat, acc: seq<Value>)
    requires pos <= |data|
    ensures DecodeItems(data, pos, remaining + 1, acc) ==
      var d := Decode(data, pos);
      match d.result
      case Fail => Decoded(Ok(acc), d.pos)
      case Trap => Decoded(Trap, d.pos)
      case Ok(v) => DecodeItems(data, d.pos, remaining, acc + [v])
  {
  }

  /** An `Amf0Data` with its `dataInBytes` cache: the getter encodes only while the
      cache is empty. */
  class Amf0Data {
    var value: Value
    var cache: seq<byte>

    constructor (value: Value)
      ensures this.value == value && cache == []
    {
      this.value := value;
      cache := [];
    }

    /** The `dataInBytes` getter. */
    method DataInBytes() returns (bytes: seq<byte>)
      requires Encodable(value)
      modifies this`cache
      ensures bytes == if old(cache) == [] then Encode(value) else old(cache)
      ensures cache == bytes
    {
      if cache == [] {
        cache := Encode(value);
      }
      bytes := cache;
    }

    /** The `dataInBytes` setter replaces the cache. */
    method SetDataInBytes(newValue: seq<byte>)
      modifies this`cache
      ensures cache == newValue
    {
      cache := newValue;
    }
  }

  /** Two reads of `dataInBytes` give the same bytes, the encoding of the value when
      the cache started empty. */
  method ReadTwice(d: Amf0Data) returns (first: seq<byte>, second: seq<byte>)
    requires Encodable(d.value)
    modifies d`cache
    ensures first == second
    ensures old(d.cache) == [] ==> first == Encode(d.value)
  {
    first := d.DataInBytes();
    second := d.DataInBytes();
  }
}
