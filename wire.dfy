/** Fixed-width integers and the two byte orders, as the standard binary encoding
    package reads them, plus the explicit 64-bit wrap-around of signed arithmetic. */
module Wire {

  type Byte = x: int | 0 <= x < 0x100
  type I8 = x: int | -0x80 <= x < 0x80
  type U16 = x: int | 0 <= x < 0x1_0000
  type I16 = x: int | -0x8000 <= x < 0x8000
  type U32 = x: int | 0 <= x < 0x1_0000_0000
  type I32 = x: int | -0x8000_0000 <= x < 0x8000_0000
  type U64 = x: int | 0 <= x < 0x1_0000_0000_0000_0000
  type I64 = x: int | -0x8000_0000_0000_0000 <= x < 0x8000_0000_0000_0000

  function Pow256(n: nat): (r: nat)
    ensures r > 0
  {
    if n == 0 then 1 else 256 * Pow256(n - 1)
  }

  /** The value of `bs` read most significant byte first. */
  function BigEndian(bs: seq<Byte>): (v: nat)
    ensures v < Pow256(|bs|)
  {
    if bs == [] then 0 else BigEndian(bs[..|bs| - 1]) * 256 + bs[|bs| - 1]
  }

  /** The value of `bs` read least significant byte first. */
  function LittleEndian(bs: seq<Byte>): (v: nat)
    ensures v < Pow256(|bs|)
  {
    if bs == [] then 0 else bs[0] + 256 * LittleEndian(bs[1..])
  }

  /** Decode `bs` in the byte order chosen by the flag: little-endian when it is set,
      big-endian otherwise. */
  function Unsigned(bs: seq<Byte>, little: bool): (v: nat)
    ensures v < Pow256(|bs|)
    ensures |bs| == 2 ==> v < 0x1_0000
    ensures |bs| == 4 ==> v < 0x1_0000_0000
    ensures |bs| == 8 ==> v < 0x1_0000_0000_0000_0000
  {
    if little then LittleEndian(bs) else BigEndian(bs)
  }

  function Reverse<T>(s: seq<T>): (r: seq<T>)
    ensures |r| == |s|
    ensures forall i :: 0 <= i < |s| ==> r[i] == s[|s| - 1 - i]
  {
    if s == [] then [] else Reverse(s[1..]) + [s[0]]
  }

  /** Reading little-endian is reading the reversed bytes big-endian. */
  lemma {:induction false} LittleEndianIsReversedBigEndian(bs: seq<Byte>)
    ensures LittleEndian(bs) == BigEndian(Reverse(bs))
  {
    if bs != [] {
      var r := Reverse(bs);
      LittleEndianIsReversedBigEndian(bs[1..]);
      assert r == Reverse(bs[1..]) + [bs[0]];
      assert r[..|r| - 1] == Reverse(bs[1..]);
    }
  }

  /** The `n`-byte big-endian representation of `v`. */
  function EncodeBigEndian(v: nat, n: nat): (bs: seq<Byte>)
    requires v < Pow256(n)
    ensures |bs| == n
  {
    if n == 0 then [] else EncodeBigEndian(v / 256, n - 1) + [v % 256]
  }

  /** The `n`-byte little-endian representation of `v`. */
  function EncodeLittleEndian(v: nat, n: nat): (bs: seq<Byte>)
    requires v < Pow256(n)
    ensures |bs| == n
  {
    if n == 0 then [] else [v % 256] + EncodeLittleEndian(v / 256, n - 1)
  }

  function Encode(v: nat, n: nat, little: bool): (bs: seq<Byte>)
    requires v < Pow256(n)
    ensures |bs| == n
  {
    if little then EncodeLittleEndian(v, n) else EncodeBigEndian(v, n)
  }

  lemma {:induction false} BigEndianOfEncode(v: nat, n: nat)
    requires v < Pow256(n)
    ensures BigEndian(EncodeBigEndian(v, n)) == v
  {
    if n > 0 {
      var bs := EncodeBigEndian(v, n);
      BigEndianOfEncode(v / 256, n - 1);
      assert bs[..n - 1] == EncodeBigEndian(v / 256, n - 1);
    }
  }

  lemma {:induction false} EncodeOfBigEndian(bs: seq<Byte>)
    ensures EncodeBigEndian(BigEndian(bs), |bs|) == bs
  {
    if bs != [] {
      var init := bs[..|bs| - 1];
      EncodeOfBigEndian(init);
      assert (BigEndian(init) * 256 + bs[|bs| - 1]) / 256 == BigEndian(init);
      assert bs == init + [bs[|bs| - 1]];
    }
  }

  lemma {:induction false} LittleEndianOfEncode(v: nat, n: nat)
    requires v < Pow256(n)
    ensures LittleEndian(EncodeLittleEndian(v, n)) == v
  {
    if n > 0 {
      var bs := EncodeLittleEndian(v, n);
      LittleEndianOfEncode(v / 256, n - 1);
      assert bs[1..] == EncodeLittleEndian(v / 256, n - 1);
    }
  }

  lemma {:induction false} EncodeOfLittleEndian(bs: seq<Byte>)
    ensures EncodeLittleEndian(LittleEndian(bs), |bs|) == bs
  {
    if bs != [] {
      EncodeOfLittleEndian(bs[1..]);
      assert (bs[0] + 256 * LittleEndian(bs[1..])) / 256 == LittleEndian(bs[1..]);
      assert bs == [bs[0]] + bs[1..];
    }
  }

  /** Decoding undoes encoding, in either byte order. */
  lemma UnsignedOfEncode(v: nat, n: nat, little: bool)
    requires v < Pow256(n)
    ensures Unsigned(Encode(v, n, little), little) == v
  {
    if little { LittleEndianOfEncode(v, n); } else { BigEndianOfEncode(v, n); }
  }

  /** Encoding undoes decoding: a decoded value determines its bytes. */
  lemma EncodeOfUnsigned(bs: seq<Byte>, little: bool)
    ensures Encode(Unsigned(bs, little), |bs|, little) == bs
  {
    if little { EncodeOfLittleEndian(bs); } else { EncodeOfBigEndian(bs); }
  }

  /** Two's-complement reinterpretation of an unsigned value of each width. */
  function AsI8(u: Byte): I8 { if u < 0x80 then u else u - 0x100 }
  function AsI16(u: U16): I16 { if u < 0x8000 then u else u - 0x1_0000 }
  function AsI32(u: U32): I32 { if u < 0x8000_0000 then u else u - 0x1_0000_0000 }
  function AsI64(u: U64): I64
  {
    if u < 0x8000_0000_0000_0000 then u else u - 0x1_0000_0000_0000_0000
  }

  /** The unsigned 32-bit pattern of a signed value, as a conversion to uint32 produces it. */
  function AsU32(x: int): (u: U32)
    requires -0x8000_0000 <= x < 0x1_0000_0000
    ensures 0 <= x ==> u == x
    ensures x < 0 ==> u == x + 0x1_0000_0000
  {
    x % 0x1_0000_0000
  }

  /** Signed 64-bit arithmetic wraps around modulo 2^64. */
  function WrapI64(x: int): (r: I64)
    ensures (r - x) % 0x1_0000_0000_0000_0000 == 0
    ensures -0x8000_0000_0000_0000 <= x < 0x8000_0000_0000_0000 ==> r == x
  {
    var m := x % 0x1_0000_0000_0000_0000;
    if m < 0x8000_0000_0000_0000 then m else m - 0x1_0000_0000_0000_0000
  }

  /** The bytes of a text literal (every character used here is ASCII). */
  function Ascii(s: string): (b: seq<Byte>)
    ensures |b| == |s|
  {
    seq(|s|, i requires 0 <= i < |s| => (s[i] as int) % 256)
  }
}
