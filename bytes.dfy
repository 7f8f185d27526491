/** Bytes and fixed-width integers, and the byte views the source builds with its
    `bytes` / `init(bytes:)` extension (Live/RTMP/NumberByteOperator.swift).
    The model assumes a little-endian host: `x.bytes` is the little-endian view of `x`,
    and `x.bigEndian.bytes` is its big-endian view. */
module Bytes {

  type byte = x: int | 0 <= x < 0x100
  type uint16 = x: int | 0 <= x < 0x1_0000
  type uint24 = x: int | 0 <= x < 0x100_0000
  type uint32 = x: int | 0 <= x < 0x1_0000_0000
  type uint64 = x: int | 0 <= x < 0x1_0000_0000_0000_0000
  type int32 = x: int | -0x8000_0000 <= x < 0x8000_0000
  type int64 = x: int | -0x8000_0000_0000_0000 <= x < 0x8000_0000_0000_0000

  /** 256 to the power n: the number of values an n-byte field can hold. */
  function Pow256(n: nat): (r: nat)
    ensures r >= 1
  {
    if n == 0 then 1 else 256 * Pow256(n - 1)
  }

  /** 2 to the power n: the weight of bit n. */
  function Pow2(n: nat): (r: nat)
    ensures r >= 1
  {
    if n == 0 then 1 else 2 * Pow2(n - 1)
  }

  function Zeros(n: nat): (r: seq<byte>)
    ensures |r| == n && forall i :: 0 <= i < n ==> r[i] == 0
  {
    seq(n, _ => 0)
  }

  function Reverse(s: seq<byte>): (r: seq<byte>)
    ensures |r| == |s|
    ensures forall i :: 0 <= i < |s| ==> r[i] == s[|s| - 1 - i]
  {
    if s == [] then [] else Reverse(s[1..]) + [s[0]]
  }

  /** The n-byte native (little-endian) view of x: `x.bytes`. */
  function LittleEndian(x: nat, n: nat): (r: seq<byte>)
    requires x < Pow256(n)
    ensures |r| == n
  {
    if n == 0 then [] else [x % 256] + LittleEndian(x / 256, n - 1)
  }

  /** `init(bytes:)` on a native (little-endian) byte view. */
  function FromLittleEndian(bs: seq<byte>): (x: nat)
    ensures x < Pow256(|bs|)
  {
    if bs == [] then 0 else bs[0] + 256 * FromLittleEndian(bs[1..])
  }

  /** The n-byte big-endian view of x: `x.bigEndian.bytes`. */
  function BigEndian(x: nat, n: nat): (r: seq<byte>)
    requires x < Pow256(n)
    ensures |r| == n
  {
    if n == 0 then [] else BigEndian(x / 256, n - 1) + [x % 256]
  }

  /** The value of bytes taken most significant first. */
  function FromBigEndian(bs: seq<byte>): (x: nat)
    ensures x < Pow256(|bs|)
  {
    if bs == [] then 0 else FromBigEndian(bs[..|bs| - 1]) * 256 + bs[|bs| - 1]
  }

  /** `.bigEndian` on an n-byte value: the value whose native view is reversed. */
  function ByteSwap(x: nat, n: nat): (r: nat)
    requires x < Pow256(n)
    ensures r < Pow256(n)
  {
    FromLittleEndian(Reverse(LittleEndian(x, n)))
  }

  /** The n-byte two's-complement pattern of a signed value (`Int32(x)` seen as bits). */
  function Unsigned(x: int, n: nat): (r: nat)
    requires n >= 1 && -(Pow256(n) as int) / 2 <= x < Pow256(n) / 2
    ensures r < Pow256(n)
    ensures x >= 0 ==> r == x
  {
    if x < 0 then x + Pow256(n) else x
  }

  /** The signed value of an n-byte two's-complement pattern. */
  function Signed(u: nat, n: nat): (r: int)
    requires n >= 1 && u < Pow256(n)
    ensures -(Pow256(n) as int) / 2 <= r < Pow256(n) / 2
  {
    if u < Pow256(n) / 2 then u else u - Pow256(n)
  }

  lemma {:induction false} SignedUnsigned(x: int, n: nat)
    requires n >= 1 && -(Pow256(n) as int) / 2 <= x < Pow256(n) / 2
    ensures Signed(Unsigned(x, n), n) == x
  {
  }

  /** `init(bytes: x.bytes) == x`: the native view of an n-byte value and its inverse. */
  lemma {:induction false} LittleEndianRoundTrip(x: nat, n: nat)
    requires x < Pow256(n)
    ensures FromLittleEndian(LittleEndian(x, n)) == x
  {
    if n > 0 {
      LittleEndianRoundTrip(x / 256, n - 1);
      assert LittleEndian(x, n)[1..] == LittleEndian(x / 256, n - 1);
    }
  }

  /** The other direction: the native view of the value read from bytes is those bytes. */
  lemma {:induction false} LittleEndianOfValue(bs: seq<byte>)
    ensures LittleEndian(FromLittleEndian(bs), |bs|) == bs
  {
    if bs != [] {
      LittleEndianOfValue(bs[1..]);
      var x := FromLittleEndian(bs);
      assert x % 256 == bs[0] && x / 256 == FromLittleEndian(bs[1..]);
    }
  }

  lemma {:induction false} BigEndianRoundTrip(x: nat, n: nat)
    requires x < Pow256(n)
    ensures FromBigEndian(BigEndian(x, n)) == x
  {
    if n > 0 {
      BigEndianRoundTrip(x / 256, n - 1);
      var bs := BigEndian(x, n);
      assert bs[..|bs| - 1] == BigEndian(x / 256, n - 1);
    }
  }

  lemma {:induction false} BigEndianOfValue(bs: seq<byte>)
    ensures BigEndian(FromBigEndian(bs), |bs|) == bs
  {
    if bs != [] {
      var init := bs[..|bs| - 1];
      BigEndianOfValue(init);
      var x := FromBigEndian(bs);
      assert x % 256 == bs[|bs| - 1] && x / 256 == FromBigEndian(init);
      assert bs == init + [bs[|bs| - 1]];
    }
  }

  /** Equal values have equal big-endian views and distinct values distinct ones. */
  lemma {:induction false} BigEndianInjective(x: nat, y: nat, n: nat)
    requires x < Pow256(n) && y < Pow256(n)
    ensures BigEndian(x, n) == BigEndian(y, n) <==> x == y
  {
    if BigEndian(x, n) == BigEndian(y, n) {
      BigEndianRoundTrip(x, n);
      BigEndianRoundTrip(y, n);
    }
  }

  /** The value of bytes read least significant first equals that of the reversed bytes
      read most significant first. */
  lemma {:induction false} FromLittleEndianReversed(bs: seq<byte>)
    ensures FromLittleEndian(Reverse(bs)) == FromBigEndian(bs)
  {
    if bs != [] {
      var last := bs[|bs| - 1];
      var init := bs[..|bs| - 1];
      assert Reverse(bs)[0] == last;
      assert Reverse(bs)[1..] == Reverse(init);
      FromLittleEndianReversed(init);
    }
  }

  /** `x.bigEndian` read back through the native view is the big-endian reading. */
  lemma {:induction false} ByteSwapIsBigEndian(bs: seq<byte>)
    ensures ByteSwap(FromLittleEndian(bs), |bs|) == FromBigEndian(bs)
  {
    LittleEndianOfValue(bs);
    FromLittleEndianReversed(bs);
  }

  lemma {:induction false} BigEndian2(bs: seq<byte>)
    requires |bs| == 2
    ensures FromBigEndian(bs) == bs[0] as int * 0x100 + bs[1]
  {
    assert bs[..1][..0] == [];
  }

  lemma {:induction false} BigEndian3(bs: seq<byte>)
    requires |bs| == 3
    ensures FromBigEndian(bs) == bs[0] as int * 0x1_0000 + bs[1] as int * 0x100 + bs[2]
  {
    BigEndian2(bs[..2]);
  }

  lemma {:induction false} BigEndian4(bs: seq<byte>)
    requires |bs| == 4
    ensures FromBigEndian(bs) == bs[0] as int * 0x100_0000 + bs[1] as int * 0x1_0000 + bs[2] as int * 0x100 + bs[3]
  {
    BigEndian3(bs[..3]);
  }

  /** `x.bigEndian.bytes` on a little-endian host is the big-endian encoding of x. */
  lemma {:induction false} BigEndianBytes(x: nat, n: nat)
    requires x < Pow256(n)
    ensures LittleEndian(ByteSwap(x, n), n) == BigEndian(x, n)
  {
    var le := LittleEndian(x, n);
    var rev := Reverse(le);
    LittleEndianOfValue(rev);
    assert Reverse(rev) == le;
    FromLittleEndianReversed(rev);
    LittleEndianRoundTrip(x, n);
    BigEndianOfValue(rev);
  }

  /** `x.bytes.reversed()` is the big-endian encoding of x. */
  lemma {:induction false} ReversedBytes(x: nat, n: nat)
    requires x < Pow256(n)
    ensures Reverse(LittleEndian(x, n)) == BigEndian(x, n)
  {
    BigEndianBytes(x, n);
    LittleEndianOfValue(Reverse(LittleEndian(x, n)));
  }

  /** A slice holding `a + b` holds `a` and then `b`. */
  lemma {:induction false} SplitSlice(data: seq<byte>, pos: nat, a: seq<byte>, b: seq<byte>)
    requires pos + |a| + |b| <= |data| && data[pos..pos + |a| + |b|] == a + b
    ensures data[pos..pos + |a|] == a
    ensures data[pos + |a|..pos + |a| + |b|] == b
  {
    assert data[pos..pos + |a|] == data[pos..pos + |a| + |b|][..|a|];
    assert data[pos + |a|..pos + |a| + |b|] == data[pos..pos + |a| + |b|][|a|..];
  }

  /** `e` stands in `data` from `pos` on, stated as one slice. */
  predicate SliceIs(data: seq<byte>, pos: nat, e: seq<byte>)
  {
    pos + |e| <= |data| && data[pos..pos + |e|] == e
  }

  /** Bytes that stand in `data` one after the other stand there together. */
  lemma {:induction false} SliceIsAppend(data: seq<byte>, pos: nat, a: seq<byte>, b: seq<byte>)
    ensures SliceIs(data, pos, a + b) <==> SliceIs(data, pos, a) && SliceIs(data, pos + |a|, b)
  {
    if SliceIs(data, pos, a + b) {
      SplitSlice(data, pos, a, b);
    }
    if SliceIs(data, pos, a) && SliceIs(data, pos + |a|, b) {
      assert data[pos..pos + |a| + |b|] == data[pos..pos + |a|] + data[pos + |a|..pos + |a| + |b|];
    }
  }

  /** `e` stands in `data` from `pos` on, stated byte by byte. */
  predicate BytesAt(data: seq<byte>, pos: nat, e: seq<byte>)
    decreases |e|
  {
    pos + |e| <= |data| && (|e| == 0 || (data[pos] == e[0] && BytesAt(data, pos + 1, e[1..])))
  }

  lemma {:induction false} BytesAtSlice(data: seq<byte>, pos: nat, e: seq<byte>)
    ensures BytesAt(data, pos, e) <==> pos + |e| <= |data| && data[pos..pos + |e|] == e
    decreases |e|
  {
    if |e| > 0 && pos + |e| <= |data| {
      BytesAtSlice(data, pos + 1, e[1..]);
      assert data[pos..pos + |e|] == [data[pos]] + data[pos + 1..pos + 1 + |e[1..]|];
      assert e == [e[0]] + e[1..];
    }
  }

  lemma {:induction false} BytesAtAppend(data: seq<byte>, pos: nat, a: seq<byte>, b: seq<byte>)
    ensures BytesAt(data, pos, a + b) <==> BytesAt(data, pos, a) && BytesAt(data, pos + |a|, b)
  {
    BytesAtSlice(data, pos, a + b);
    BytesAtSlice(data, pos, a);
    BytesAtSlice(data, pos + |a|, b);
    if BytesAt(data, pos, a + b) {
      SplitSlice(data, pos, a, b);
    }
    if BytesAt(data, pos, a) && BytesAt(data, pos + |a|, b) {
      assert data[pos..pos + |a| + |b|] == data[pos..pos + |a|] + data[pos + |a|..pos + |a| + |b|];
    }
  }

  /** `[UInt8](s.utf8)` of a string of ASCII characters: one byte per character. */
  function Ascii(s: string): (r: seq<byte>)
    requires forall i :: 0 <= i < |s| ==> s[i] < 128 as char
    ensures |r| == |s| && forall i :: 0 <= i < |r| ==> r[i] == s[i] as int
  {
    seq(|s|, i requires 0 <= i < |s| => s[i] as int)
  }

  /** A slice of a slice is a slice of the whole. */
  lemma {:induction false} SliceOfSlice<T>(s: seq<T>, a: nat, b: nat, c: nat, d: nat)
    requires a <= b <= |s| && c <= d <= b - a
    ensures s[a..b][c..d] == s[a + c..a + d]
  {
    forall i | 0 <= i < d - c
      ensures s[a..b][c..d][i] == s[a + c..a + d][i]
    {
    }
  }

  /** Appending in two steps is appending the two parts at once. */
  lemma AppendAssociates<T>(a: seq<T>, b: seq<T>, c: seq<T>)
    ensures (a + b) + c == a + (b + c)
  {
  }
}
