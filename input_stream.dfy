/** The read cursor over an immutable byte array (Live/RTMP/ByteArrayInputStream.swift). */
module InputStreams {
  import opened Bytes
  import opened Wrappers

  /** How many bytes a read of `maxLength` bytes at `pos` copies into a buffer of
      `bufferLength` bytes: the whole buffer when enough input remains, otherwise
      the rest of the input. */
  function CopyCount(count: nat, pos: nat, maxLength: nat, bufferLength: nat): nat
    requires pos <= count
  {
    if pos + maxLength <= count then bufferLength else count - pos
  }

  /** The buffer contents after `read(&buffer, maxLength:)` or `tryRead`: the copied
      input bytes followed by the untouched tail of the old buffer. */
  function Filled(data: seq<byte>, pos: nat, maxLength: nat, buffer: seq<byte>): (r: seq<byte>)
    requires pos <= |data|
    requires CopyCount(|data|, pos, maxLength, |buffer|) <= |buffer|
    requires pos + CopyCount(|data|, pos, maxLength, |buffer|) <= |data|
    ensures |r| == |buffer|
  {
    var k := CopyCount(|data|, pos, maxLength, |buffer|);
    data[pos..pos + k] + buffer[k..]
  }

  /** The cursor position after a consuming read of `maxLength` bytes. */
  function Advanced(count: nat, pos: nat, maxLength: nat): (r: nat)
    requires pos <= count
    ensures pos <= r <= count
  {
    if pos + maxLength <= count then pos + maxLength else count
  }

  /** The bytes a fresh zero-filled buffer of n bytes holds after a read of n bytes:
      what is left of the input, missing bytes reading as 0. */
  function Peek(data: seq<byte>, pos: nat, n: nat): (r: seq<byte>)
    requires pos <= |data|
    ensures |r| == n
  {
    Filled(data, pos, n, Zeros(n))
  }

  lemma {:induction false} PeekWhole(data: seq<byte>, pos: nat, n: nat)
    requires pos + n <= |data|
    ensures Peek(data, pos, n) == data[pos..pos + n]
    ensures Advanced(|data|, pos, n) == pos + n
  {
  }

  /** A short read yields the remaining bytes and then zeros. */
  lemma {:induction false} PeekShort(data: seq<byte>, pos: nat, n: nat)
    requires pos <= |data| < pos + n
    ensures Peek(data, pos, n) == data[pos..] + Zeros(n - (|data| - pos))
    ensures Advanced(|data|, pos, n) == |data|
  {
  }

  class ByteArrayInputStream {
    var byteArray: seq<byte>
    var currentPosition: nat

    ghost predicate Valid()
      reads this
    {
      currentPosition <= |byteArray|
    }

    constructor (byteArray: seq<byte>)
      ensures Valid() && this.byteArray == byteArray && currentPosition == 0
    {
      this.byteArray := byteArray;
      currentPosition := 0;
    }

    /** `remainLength`. */
    function RemainLength(): (n: int)
      reads this
      ensures Valid() ==> 0 <= n <= |byteArray|
      ensures n == 0 <==> currentPosition == |byteArray|
    {
      |byteArray| - currentPosition
    }

    /** `read(_:maxLength:)`: copies into `buffer` and advances; a read past the end
        copies what remains and moves to the end. */
    method Read(buffer: array<byte>, maxLength: nat)
      requires Valid()
      requires CopyCount(|byteArray|, currentPosition, maxLength, buffer.Length) <= buffer.Length
      requires currentPosition + CopyCount(|byteArray|, currentPosition, maxLength, buffer.Length) <= |byteArray|
      modifies this`currentPosition, buffer
      ensures Valid() && byteArray == old(byteArray)
      ensures buffer[..] == Filled(byteArray, old(currentPosition), maxLength, old(buffer[..]))
      ensures currentPosition == Advanced(|byteArray|, old(currentPosition), maxLength)
    {
      CopyInto(buffer, maxLength);
      if currentPosition + maxLength <= |byteArray| {
        currentPosition := currentPosition + maxLength;
      } else {
        currentPosition := |byteArray|;
      }
    }

    /** `tryRead(_:maxLength:)`: fills `buffer` as `Read` does, without moving. */
    method TryRead(buffer: array<byte>, maxLength: nat)
      requires Valid()
      requires CopyCount(|byteArray|, currentPosition, maxLength, buffer.Length) <= buffer.Length
      requires currentPosition + CopyCount(|byteArray|, currentPosition, maxLength, buffer.Length) <= |byteArray|
      modifies buffer
      ensures buffer[..] == Filled(byteArray, currentPosition, maxLength, old(buffer[..]))
    {
      CopyInto(buffer, maxLength);
    }

    /** The copying loop both reads share. */
    method CopyInto(buffer: array<byte>, maxLength: nat)
      requires Valid()
      requires CopyCount(|byteArray|, currentPosition, maxLength, buffer.Length) <= buffer.Length
      requires currentPosition + CopyCount(|byteArray|, currentPosition, maxLength, buffer.Length) <= |byteArray|
      modifies buffer
      ensures buffer[..] == Filled(byteArray, currentPosition, maxLength, old(buffer[..]))
    {
      var k := if currentPosition + maxLength <= |byteArray| then buffer.Length
               else |byteArray| - currentPosition;
      for index := 0 to k
        invariant forall i :: 0 <= i < index ==> buffer[i] == byteArray[currentPosition + i]
        invariant forall i :: index <= i < buffer.Length ==> buffer[i] == old(buffer[i])
      {
        buffer[index] := byteArray[currentPosition + index];
      }
      assert buffer[..] == byteArray[currentPosition..currentPosition + k] + old(buffer[..])[k..];
    }

    /** `read()`: the next byte, or `nil` at the end of the input. */
    method ReadByte() returns (b: Option<byte>)
      requires Valid()
      modifies this`currentPosition
      ensures Valid() && byteArray == old(byteArray)
      ensures old(currentPosition) < |byteArray| ==>
        b == Some(byteArray[old(currentPosition)]) && currentPosition == old(currentPosition) + 1
      ensures old(currentPosition) == |byteArray| ==>
        b == None && currentPosition == old(currentPosition)
    {
      if currentPosition + 1 <= |byteArray| {
        b := Some(byteArray[currentPosition]);
        currentPosition := currentPosition + 1;
      } else {
        b := None;
      }
    }
  }
}
