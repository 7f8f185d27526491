/** The simple RTMP handshake the client runs before any chunk is sent
    (Live/RTMP/RTMPHandshake.swift). The system clock and the random number
    generator are parameters: `now` is the bit pattern of the Double that
    `Date().timeIntervalSince1970` gives, and `random` the 1528 values that
    `arc4random_uniform(0xff)` draws, in order. */
module Handshakes {
  import opened Wrappers
  import opened Bytes
  import Ieee754
  import opened Sockets

  /** The protocol version in C0. */
  const Version: byte := 3
  /** C1, S1, S2 and C2 are each this long. */
  const BlockSize := 1536
  /** The random part of C1. */
  const RandomSize := 1528
  /** S0, S1 and S2 together. */
  const ReplySize := 1 + 2 * BlockSize

  /** What `arc4random_uniform(0xff)` can yield, 1528 times: values below 255. */
  predicate IsRandomDraw(random: seq<byte>)
  {
    |random| == RandomSize && forall i :: 0 <= i < |random| ==> random[i] < 0xff
  }

  /** C0 followed by C1: the version byte, the timestamp in four big-endian
      two's-complement bytes, four zero bytes and the random bytes. */
  function C0C1(timestamp: int32, random: seq<byte>): seq<byte>
  {
    [Version] + BigEndian(Unsigned(timestamp, 4), 4) + Zeros(4) + random
  }

  /** C0 and C1 are 1537 bytes, and a server reads back from them the version,
      the timestamp, the four zero bytes and the random bytes. */
  lemma {:induction false} C0C1Layout(timestamp: int32, random: seq<byte>)
    requires IsRandomDraw(random)
    ensures var c := C0C1(timestamp, random);
      |c| == 1 + BlockSize && c[0] == Version
      && Signed(FromBigEndian(c[1..5]), 4) == timestamp
      && c[5..9] == Zeros(4)
      && c[9..] == random
      && forall i :: 9 <= i < |c| ==> c[i] < 0xff
  {
    var c := C0C1(timestamp, random);
    var u := Unsigned(timestamp, 4);
    assert c[1..5] == BigEndian(u, 4);
    assert c[5..9] == Zeros(4);
    assert c[9..] == random;
    BigEndianRoundTrip(u, 4);
    SignedUnsigned(timestamp, 4);
  }

  /** The loop of `shakeSimpleHand` that builds C0 and C1 one field, then one
      random byte, at a time. */
  method MakeC0C1(timestamp: int32, random: seq<byte>) returns (chunk: seq<byte>)
    requires IsRandomDraw(random)
    ensures chunk == C0C1(timestamp, random)
  {
    chunk := [Version];
    chunk := chunk + BigEndian(Unsigned(timestamp, 4), 4);
    chunk := chunk + Zeros(4);
    var header := chunk;
    for i := 0 to RandomSize
      invariant chunk == header + random[..i]
    {
      chunk := chunk + [random[i]];
      assert random[..i + 1] == random[..i] + [random[i]];
    }
    assert random[..RandomSize] == random;
  }

  /** What the handshake does with the server's bytes from `pos`: how it ends
      (with C2 and the position after S2, stalled waiting for S0, S1 and S2, or
      trapped converting the clock) and what it writes. */
  function SimpleHandshake(input: seq<byte>, pos: nat, now: uint64, random: seq<byte>)
    : (r: (Step<seq<byte>>, seq<Event>))
    requires IsRandomDraw(random)
    ensures r.0.Crashed? <==> Ieee754.ToInt32(now).None?
    ensures r.0.Crashed? ==> r.1 == []
    ensures r.0.Took? <==> Ieee754.ToInt32(now).Some? && pos + ReplySize <= |input|
    ensures r.0.Took? ==> (r.0.pos == pos + ReplySize
      && r.0.value == input[pos + 1..pos + 1 + BlockSize]
      && r.1 == [RawWrite(C0C1(Ieee754.ToInt32(now).value, random)), RawWrite(r.0.value)])
    ensures r.0.Stalled? ==> r.1 == [RawWrite(C0C1(Ieee754.ToInt32(now).value, random))]
  {
    match Ieee754.ToInt32(now)
    case None => (Crashed, [])
    case Some(timestamp) =>
      var c0c1 := C0C1(timestamp, random);
      match ReadAt(input, pos, ReplySize)
      case Took(s0s1s2, end) =>
        var c2 := s0s1s2[1..1 + BlockSize];
        SliceOfSlice(input, pos, pos + ReplySize, 1, 1 + BlockSize);
        (Took(c2, end), [RawWrite(c0c1), RawWrite(c2)])
      case _ => (Stalled, [RawWrite(c0c1)])
  }

  /** `shakeSimpleHand()`: send C0 and C1, read S0, S1 and S2, and send back S1
      as C2. */
  method ShakeSimpleHand(socket: Socket, now: uint64, random: seq<byte>) returns (r: Step<seq<byte>>)
    requires socket.Valid() && IsRandomDraw(random)
    modifies socket`position, socket`log
    ensures socket.Valid()
    ensures var h := SimpleHandshake(socket.input, old(socket.position), now, random);
      r == h.0 && socket.log == old(socket.log) + h.1
    ensures socket.position == if r.Took? then r.pos else old(socket.position)
  {
    var timestamp := Ieee754.ToInt32(now);
    if timestamp.None? {
      return Crashed;
    }
    var c0c1 := MakeC0C1(timestamp.value, random);
    socket.Write(c0c1);
    var s0s1s2 := socket.Read(ReplySize);
    if !s0s1s2.Took? {
      return Stalled;
    }
    var c2 := s0s1s2.value[1..1 + BlockSize];
    socket.Write(c2);
    r := Took(c2, s0s1s2.pos);
  }
}
