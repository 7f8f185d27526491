/** Big-endian number readers over a `ByteArrayInputStream`
    (Live/RTMP/NumberByteOperator.swift). Each reader fills a zeroed buffer with a
    consuming read, so a short input reads as if padded with zeros. */
module NumberByteOperator {
  import opened Bytes
  import opened InputStreams

  /** A leading zero byte does not change a big-endian value. */
  lemma {:induction false} LeadingZero(bs: seq<byte>)
    ensures FromBigEndian([0] + bs) == FromBigEndian(bs)
    decreases |bs|
  {
    if |bs| == 0 {
    } else {
      var init := bs[..|bs| - 1];
      assert ([0] + bs)[..|[0] + bs| - 1] == [0] + init;
      LeadingZero(init);
    }
  }

  /** The value `readUInt16` returns at `pos`: the next two bytes, big-endian. */
  function UInt16At(data: seq<byte>, pos: nat): (r: uint16)
    requires pos <= |data|
    ensures r == FromBigEndian(Peek(data, pos, 2))
    ensures pos + 2 <= |data| ==> r == data[pos] as int * 0x100 + data[pos + 1]
  {
    var bytes := Peek(data, pos, 2);
    ByteSwapIsBigEndian(bytes);
    BigEndian2(bytes);
    ByteSwap(FromLittleEndian(bytes), 2)
  }

  /** The value `readUInt24` returns at `pos`: the next three bytes, big-endian. */
  function UInt24At(data: seq<byte>, pos: nat): (r: uint24)
    requires pos <= |data|
    ensures r == FromBigEndian(Peek(data, pos, 3))
    ensures pos + 3 <= |data| ==>
      r == data[pos] as int * 0x1_0000 + data[pos + 1] as int * 0x100 + data[pos + 2]
  {
    var bytes := Peek(data, pos, 3);
    var word := [0] + bytes;
    ByteSwapIsBigEndian(word);
    LeadingZero(bytes);
    BigEndian3(bytes);
    ByteSwap(FromLittleEndian(word), 4)
  }

  /** The value `readUInt32` returns at `pos` as written: a zero byte is prepended
      to the four bytes read and only the first four of the five are loaded, so
      the fourth byte read is lost. */
  function UInt32AtAsWritten(data: seq<byte>, pos: nat): (r: uint32)
    requires pos <= |data|
    ensures r == FromBigEndian(Peek(data, pos, 4)[..3])
  {
    var bytes := Peek(data, pos, 4);
    var word := ([0] + bytes)[..4];
    assert word == [0] + bytes[..3];
    ByteSwapIsBigEndian(word);
    LeadingZero(bytes[..3]);
    ByteSwap(FromLittleEndian(word), 4)
  }

  /** The evidently intended `readUInt32`: the next four bytes, big-endian. */
  function UInt32At(data: seq<byte>, pos: nat): (r: uint32)
    requires pos <= |data|
    ensures r == FromBigEndian(Peek(data, pos, 4))
    ensures pos + 4 <= |data| ==>
      r == data[pos] as int * 0x100_0000 + data[pos + 1] as int * 0x1_0000
           + data[pos + 2] as int * 0x100 + data[pos + 3]
  {
    var bytes := Peek(data, pos, 4);
    ByteSwapIsBigEndian(bytes);
    BigEndian4(bytes);
    ByteSwap(FromLittleEndian(bytes), 4)
  }

  /** The bit pattern `readDouble` returns at `pos`: the next eight bytes, big-endian. */
  function DoubleAt(data: seq<byte>, pos: nat): (r: uint64)
    requires pos <= |data|
    ensures r == FromBigEndian(Peek(data, pos, 8))
  {
    var bytes := Peek(data, pos, 8);
    FromLittleEndianReversed(bytes);
    FromLittleEndian(Reverse(bytes))
  }

  /** Reading the as-written `readUInt32` over the bytes 01 02 03 04 gives 0x010203,
      where the big-endian value of the four bytes is 0x01020304. */
  lemma {:induction false} UInt32AsWrittenDropsLastByte()
    ensures UInt32AtAsWritten([1, 2, 3, 4], 0) == 0x01_02_03
    ensures UInt32At([1, 2, 3, 4], 0) == 0x01_02_03_04
  {
    var data: seq<byte> := [1, 2, 3, 4];
    PeekWhole(data, 0, 4);
    assert Peek(data, 0, 4)[..3] == [1, 2, 3];
    BigEndian3([1, 2, 3]);
  }

  /** The corrected reader reads back what a four-byte big-endian encoding wrote. */
  lemma {:induction false} UInt32AtBigEndian(data: seq<byte>, pos: nat, x: uint32)
    requires pos + 4 <= |data| && data[pos..pos + 4] == BigEndian(x, 4)
    ensures UInt32At(data, pos) == x
  {
    PeekWhole(data, pos, 4);
    BigEndianRoundTrip(x, 4);
  }

  /** The as-written reader, over a four-byte big-endian encoding, reads the value
      divided by 256. */
  lemma {:induction false} UInt32AtAsWrittenBigEndian(data: seq<byte>, pos: nat, x: uint32)
    requires pos + 4 <= |data| && data[pos..pos + 4] == BigEndian(x, 4)
    ensures UInt32AtAsWritten(data, pos) == x / 256
  {
    PeekWhole(data, pos, 4);
    assert BigEndian(x, 4)[..3] == BigEndian(x / 256, 3);
    BigEndianRoundTrip(x / 256, 3);
  }

  lemma {:induction false} UInt24AtBigEndian(data: seq<byte>, pos: nat, x: uint24)
    requires pos + 3 <= |data| && data[pos..pos + 3] == BigEndian(x, 3)
    ensures UInt24At(data, pos) == x
  {
    PeekWhole(data, pos, 3);
    BigEndianRoundTrip(x, 3);
  }

  lemma {:induction false} UInt16AtBigEndian(data: seq<byte>, pos: nat, x: uint16)
    requires pos + 2 <= |data| && data[pos..pos + 2] == BigEndian(x, 2)
    ensures UInt16At(data, pos) == x
  {
    PeekWhole(data, pos, 2);
    BigEndianRoundTrip(x, 2);
  }

  lemma {:induction false} DoubleAtBigEndian(data: seq<byte>, pos: nat, x: uint64)
    requires pos + 8 <= |data| && data[pos..pos + 8] == BigEndian(x, 8)
    ensures DoubleAt(data, pos) == x
  {
    PeekWhole(data, pos, 8);
    BigEndianRoundTrip(x, 8);
  }

  /** A consuming read of n bytes into a fresh zeroed buffer. */
  method ReadInto(s: ByteArrayInputStream, n: nat) returns (bytes: seq<byte>)
    requires s.Valid()
    modifies s`currentPosition
    ensures s.Valid() && s.byteArray == old(s.byteArray)
    ensures bytes == Peek(s.byteArray, old(s.currentPosition), n)
    ensures s.currentPosition == Advanced(|s.byteArray|, old(s.currentPosition), n)
  {
    var buffer := new byte[n](_ => 0);
    assert buffer[..] == Zeros(n);
    s.Read(buffer, n);
    bytes := buffer[..];
  }

  method ReadUInt16(s: ByteArrayInputStream) returns (v: uint16)
    requires s.Valid()
    modifies s`currentPosition
    ensures s.Valid() && s.byteArray == old(s.byteArray)
    ensures v == UInt16At(s.byteArray, old(s.currentPosition))
    ensures s.currentPosition == Advanced(|s.byteArray|, old(s.currentPosition), 2)
  {
    var bytes := ReadInto(s, 2);
    v := ByteSwap(FromLittleEndian(bytes), 2);
  }

  method ReadUInt24(s: ByteArrayInputStream) returns (v: uint24)
    requires s.Valid()
    modifies s`currentPosition
    ensures s.Valid() && s.byteArray == old(s.byteArray)
    ensures v == UInt24At(s.byteArray, old(s.currentPosition))
    ensures s.currentPosition == Advanced(|s.byteArray|, old(s.currentPosition), 3)
  {
    var bytes := ReadInto(s, 3);
    ByteSwapIsBigEndian([0] + bytes);
    LeadingZero(bytes);
    v := ByteSwap(FromLittleEndian([0] + bytes), 4);
  }

  /** `readUInt32` as written: four bytes consumed, three of them used. The AMF0
      strict-array decoder, its only caller, uses it. */
  method ReadUInt32AsWritten(s: ByteArrayInputStream) returns (v: uint32)
    requires s.Valid()
    modifies s`currentPosition
    ensures s.Valid() && s.byteArray == old(s.byteArray)
    ensures v == UInt32AtAsWritten(s.byteArray, old(s.currentPosition))
    ensures s.currentPosition == Advanced(|s.byteArray|, old(s.currentPosition), 4)
  {
    var bytes := ReadInto(s, 4);
    v := ByteSwap(FromLittleEndian(([0] + bytes)[..4]), 4);
  }

  /** The evidently intended `readUInt32`: four bytes consumed, all four used. */
  method ReadUInt32(s: ByteArrayInputStream) returns (v: uint32)
    requires s.Valid()
    modifies s`currentPosition
    ensures s.Valid() && s.byteArray == old(s.byteArray)
    ensures v == UInt32At(s.byteArray, old(s.currentPosition))
    ensures s.currentPosition == Advanced(|s.byteArray|, old(s.currentPosition), 4)
  {
    var bytes := ReadInto(s, 4);
    v := ByteSwap(FromLittleEndian(bytes), 4);
  }

  method ReadDouble(s: ByteArrayInputStream) returns (v: uint64)
    requires s.Valid()
    modifies s`currentPosition
    ensures s.Valid() && s.byteArray == old(s.byteArray)
    ensures v == DoubleAt(s.byteArray, old(s.currentPosition))
    ensures s.currentPosition == Advanced(|s.byteArray|, old(s.currentPosition), 8)
  {
    var bytes := ReadInto(s, 8);
    v := FromLittleEndian(Reverse(bytes));
  }
}
