/** Integers, object identifiers and bit octets (bacdcode.c; sections 20.2.4, 20.2.5, 20.2.10 and
    20.2.14 of ANSI/ASHRAE 135). */
module Primitives {
  import opened Words
  import opened Octets
  import opened Tags

  function UnsignedLength(v: nat): nat
  {
    if v < 0x100 then 1 else if v < 0x1_0000 then 2 else if v < 0x100_0000 then 3 else 4
  }

  function EncodeUnsigned(v: nat): (bs: seq<byte>)
    ensures |bs| == UnsignedLength(v)
  {
    BigEndian(v, UnsignedLength(v))
  }

  /** Lengths other than 1 to 4 decode to zero. */
  function DecodeUnsigned(bs: seq<byte>): nat
  {
    if 1 <= |bs| <= 4 then FromBigEndian(bs) else 0
  }

  /** The strict comparison at the lower end of three octets is the source's. */
  function SignedLength(v: int): nat
  {
    if -128 <= v < 128 then 1
    else if -32768 <= v < 32768 then 2
    else if -8388608 < v < 8388608 then 3
    else 4
  }

  function EncodeSigned(v: int): (bs: seq<byte>)
    ensures |bs| == SignedLength(v)
  {
    SignedOctets(v, SignedLength(v))
  }

  function DecodeSigned(bs: seq<byte>): int
  {
    if 1 <= |bs| <= 4 then FromSigned(bs) else 0
  }

  predicate Is32(v: int) { -0x8000_0000 <= v < 0x8000_0000 }

  lemma UnsignedRoundTrip(v: nat)
    requires v < SPAN32
    ensures DecodeUnsigned(EncodeUnsigned(v)) == v
  {
    SmallPowers();
    BigEndianRoundTrip(v, UnsignedLength(v));
  }

  lemma SignedRoundTrips(v: int)
    requires Is32(v)
    ensures DecodeSigned(EncodeSigned(v)) == v
  {
    SmallPowers();
    SignedRoundTrip(v, SignedLength(v));
  }

  lemma {:induction false} PowersGrow(m: nat, n: nat)
    requires m <= n
    ensures Power256(m) <= Power256(n)
    decreases n - m
  {
    if m < n { PowersGrow(m, n - 1); }
  }

  /** No shorter octet string carries the same unsigned value. */
  lemma UnsignedIsShortest(v: nat, bs: seq<byte>)
    requires v < SPAN32 && bs != [] && FromBigEndian(bs) == v
    ensures |EncodeUnsigned(v)| <= |bs|
  {
    SmallPowers();
    FromBigEndianRoundTrip(bs);
    if |bs| < 3 { PowersGrow(|bs|, 2); }
    if |bs| < 4 { PowersGrow(|bs|, 3); }
  }

  lemma SignedRange(bs: seq<byte>)
    requires bs != []
    ensures -128 * Power256(|bs| - 1) <= FromSigned(bs) < 128 * Power256(|bs| - 1)
  {
    FirstOctet(bs);
    FromBigEndianRoundTrip(bs);
    var p := Power256(|bs| - 1);
    assert Power256(|bs|) == 256 * p;
    var first: int := bs[0];
    if first >= 128 { MulOrder(128, first, p); } else { MulOrder(first + 1, 128, p); }
  }

  /** The signed encoding is the shortest for every value but -8388608, which three octets could
      carry and which gets four. */
  lemma SignedIsShortest(v: int)
    requires Is32(v)
    ensures (forall bs: seq<byte> :: bs != [] && FromSigned(bs) == v ==> |EncodeSigned(v)| <= |bs|) <==> v != -8388608
  {
    SmallPowers();
    if v == -8388608 {
      var bs: seq<byte> := [0x80, 0, 0];
      assert bs[..2] == [0x80, 0] && bs[..2][..1] == [0x80] && bs[..2][..1][..0] == [];
      assert FromBigEndian([]) == 0;
      assert FromBigEndian(bs[..2][..1]) == 0x80;
      assert FromBigEndian(bs[..2]) == 0x8000;
      assert FromSigned(bs) == v && |EncodeSigned(v)| == 4;
    } else {
      forall bs: seq<byte> | bs != [] && FromSigned(bs) == v
        ensures |EncodeSigned(v)| <= |bs|
      {
        SignedRange(bs);
        if |bs| == 1 { assert Power256(0) == 1; }
        if |bs| > 4 { PowersGrow(4, |bs|); }
      }
    }
  }

  /** encode_bacnet_unsigned. */
  method PutUnsigned(apdu: array<byte>, at: nat, v: nat) returns (len: nat)
    requires v < SPAN32 && at + |EncodeUnsigned(v)| <= apdu.Length
    modifies apdu
    ensures len == |EncodeUnsigned(v)| && apdu[..] == Overwrite(old(apdu[..]), at, EncodeUnsigned(v))
  {
    hide Overwrite;
    if v < 0x100 {
      assert BigEndian(v, 1) == BigEndian(v / 256, 0) + [v % 256] == [v];
      PutOctet(apdu, at, v);
      len := 1;
    } else if v < 0x1_0000 {
      len := EncodeUnsigned16(apdu, at, v);
    } else if v < 0x100_0000 {
      len := EncodeUnsigned24(apdu, at, v);
    } else {
      len := EncodeUnsigned32(apdu, at, v);
    }
  }

  /** encode_bacnet_signed: the octets of the value modulo 2^32, leading ones dropped. */
  method PutSigned(apdu: array<byte>, at: nat, v: int) returns (len: nat)
    requires Is32(v) && at + |EncodeSigned(v)| <= apdu.Length
    modifies apdu
    ensures len == |EncodeSigned(v)| && apdu[..] == Overwrite(old(apdu[..]), at, EncodeSigned(v))
  {
    hide Overwrite;
    SmallPowers();
    if -128 <= v < 128 {
      assert SignedOctets(v, 1) == BigEndian(v % 256, 1) == BigEndian(v % 256 / 256, 0) + [v % 256] == [v % 256];
      PutOctet(apdu, at, v % 256);
      len := 1;
    } else if -32768 <= v < 32768 {
      len := EncodeUnsigned16(apdu, at, v % 0x1_0000);
    } else if -8388608 < v < 8388608 {
      len := EncodeUnsigned24(apdu, at, v % 0x100_0000);
    } else {
      len := EncodeUnsigned32(apdu, at, v % SPAN32);
    }
  }

  // --------------------------------------------------- object identifiers

  const INSTANCES := 0x40_0000   // 22 bits
  const TYPES := 0x400           // 10 bits

  function PackObjectId(type_: nat, instance: nat): (v: nat)
    ensures v < SPAN32
  {
    type_ % TYPES * INSTANCES + instance % INSTANCES
  }

  function UnpackType(v: nat): nat { v / INSTANCES % TYPES }

  function UnpackInstance(v: nat): nat { v % INSTANCES }

  /** Packing is a bijection between (10-bit, 22-bit) pairs and 32-bit values. */
  lemma ObjectIdBijection(type_: nat, instance: nat, v: nat)
    requires type_ < TYPES && instance < INSTANCES && v < SPAN32
    ensures UnpackType(PackObjectId(type_, instance)) == type_
    ensures UnpackInstance(PackObjectId(type_, instance)) == instance
    ensures PackObjectId(UnpackType(v), UnpackInstance(v)) == v
  {
  }

  /** Out-of-range pairs do not survive packing. */
  lemma ObjectIdMasked(type_: nat, instance: nat)
    ensures UnpackType(PackObjectId(type_, instance)) == type_ % TYPES
    ensures UnpackInstance(PackObjectId(type_, instance)) == instance % INSTANCES
  {
  }

  // ------------------------------------------------------------- bit octets

  /** The low `n` bits of `b` in the opposite order. */
  function Reversed(b: nat, n: nat): (r: nat)
    ensures r < Power2(n)
  {
    if n == 0 then 0 else (if b % 2 == 1 then Power2(n - 1) else 0) + Reversed(b / 2, n - 1)
  }

  /** A bit added at the top comes out at the bottom. */
  lemma {:induction false} ReversedTop(x: nat, d: nat, n: nat)
    requires x < Power2(n) && d <= 1
    ensures Reversed(x + (if d == 1 then Power2(n) else 0), n + 1) == 2 * Reversed(x, n) + d
  {
    if n > 0 {
      var top := if d == 1 then Power2(n - 1) else 0;
      var y := x + 2 * top;
      assert y % 2 == x % 2 && y / 2 == x / 2 + top;
      ReversedTop(x / 2, d, n - 1);
      assert Reversed(y / 2, n) == 2 * Reversed(x / 2, n - 1) + d;
      assert Reversed(y, n + 1) == (if y % 2 == 1 then Power2(n) else 0) + Reversed(y / 2, n);
    }
  }

  lemma {:induction false} ReversedInvolution(b: nat, n: nat)
    requires b < Power2(n)
    ensures Reversed(Reversed(b, n), n) == b
  {
    if n > 0 {
      ReversedInvolution(b / 2, n - 1);
      ReversedTop(Reversed(b / 2, n - 1), b % 2, n - 1);
    }
  }

  /** byte_reverse_bits: bit 0 becomes bit 7 and so on. */
  function ReverseBits(b: byte): byte
  {
    Power2Of8();
    Reversed(b, 8)
  }

  lemma Power2Of8()
    ensures Power2(8) == 256
  {
    assert Power2(4) == 2 * Power2(3) == 4 * Power2(2) == 8 * Power2(1) == 16;
    assert Power2(8) == 2 * Power2(7) == 4 * Power2(6) == 8 * Power2(5) == 16 * Power2(4);
  }

  lemma ReverseBitsInvolution(b: byte)
    ensures ReverseBits(ReverseBits(b)) == b
  {
    Power2Of8();
    ReversedInvolution(b, 8);
  }

  function ReverseAll(bs: seq<byte>): (r: seq<byte>)
    ensures |r| == |bs|
  {
    if bs == [] then [] else [ReverseBits(bs[0])] + ReverseAll(bs[1..])
  }

  lemma {:induction false} ReverseAllInvolution(bs: seq<byte>)
    ensures ReverseAll(ReverseAll(bs)) == bs
  {
    if bs != [] {
      ReverseBitsInvolution(bs[0]);
      ReverseAllInvolution(bs[1..]);
      assert ReverseAll(bs)[1..] == ReverseAll(bs[1..]);
    }
  }
}
