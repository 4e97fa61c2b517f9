/** Big-endian integers of 8 to 32 bits, unsigned and two's complement (bacint.c). */
module Octets {
  import opened Words

  /** The `n` low octets of `v`, most significant first. */
  function BigEndian(v: nat, n: nat): (bs: seq<byte>)
    ensures |bs| == n
    decreases n
  {
    if n == 0 then [] else BigEndian(v / 256, n - 1) + [v % 256]
  }

  function FromBigEndian(bs: seq<byte>): nat
  {
    if bs == [] then 0 else FromBigEndian(bs[..|bs| - 1]) * 256 + bs[|bs| - 1]
  }

  lemma {:induction false} BigEndianRoundTrip(v: nat, n: nat)
    requires v < Power256(n)
    ensures FromBigEndian(BigEndian(v, n)) == v
    decreases n
  {
    if n > 0 {
      BigEndianRoundTrip(v / 256, n - 1);
      assert BigEndian(v, n)[..n - 1] == BigEndian(v / 256, n - 1);
    }
  }

  lemma {:induction false} FromBigEndianRoundTrip(bs: seq<byte>)
    ensures FromBigEndian(bs) < Power256(|bs|)
    ensures BigEndian(FromBigEndian(bs), |bs|) == bs
  {
    if bs != [] {
      var front := bs[..|bs| - 1];
      FromBigEndianRoundTrip(front);
      assert FromBigEndian(bs) / 256 == FromBigEndian(front);
      assert front + [bs[|bs| - 1]] == bs;
    }
  }

  lemma SmallPowers()
    ensures Power256(0) == 1 && Power256(1) == 0x100 && Power256(2) == 0x1_0000
    ensures Power256(3) == 0x100_0000 && Power256(4) == SPAN32
  {
    assert Power256(1) == 256 * Power256(0);
    assert Power256(2) == 256 * Power256(1);
    assert Power256(3) == 256 * Power256(2);
    assert Power256(4) == 256 * Power256(3);
  }

  /** `n` octets of two's complement. */
  function SignedOctets(v: int, n: nat): (bs: seq<byte>)
    ensures |bs| == n
  {
    BigEndian(v % Power256(n), n)
  }

  /** Sign-extended from bit 7 of the first octet (bacint.c:132-245). */
  function FromSigned(bs: seq<byte>): int
  {
    if bs != [] && bs[0] >= 128 then FromBigEndian(bs) - Power256(|bs|) else FromBigEndian(bs)
  }

  lemma {:induction false} MulOrder(a: int, b: int, p: nat)
    requires a <= b
    ensures a * p <= b * p
  {
  }

  /** The first octet is the value without the others. */
  lemma {:induction false} FirstOctet(bs: seq<byte>)
    requires bs != []
    ensures var first: int := bs[0];
            first * Power256(|bs| - 1) <= FromBigEndian(bs) < (first + 1) * Power256(|bs| - 1)
  {
    var first: int := bs[0];
    if |bs| > 1 {
      var front := bs[..|bs| - 1];
      FirstOctet(front);
      assert front[0] == bs[0];
      var p := Power256(|bs| - 2);
      assert Power256(|bs| - 1) == 256 * p;
      assert first * (256 * p) == 256 * (first * p);
      assert (first + 1) * (256 * p) == 256 * ((first + 1) * p);
    }
  }

  lemma WrapOnce(v: int, m: int)
    requires -m <= v < m && m > 0
    ensures m > 0 && v % m == if v >= 0 then v else v + m
  {
    if v < 0 { assert v + m == v % m; }
  }

  /** Two's complement of any width it fits in loses nothing. */
  lemma SignedRoundTrip(v: int, n: nat)
    requires n >= 1 && -128 * Power256(n - 1) <= v < 128 * Power256(n - 1)
    ensures FromSigned(SignedOctets(v, n)) == v
  {
    var p := Power256(n - 1);
    assert Power256(n) == 256 * p;
    WrapOnce(v, 256 * p);
    var u := v % Power256(n);
    BigEndianRoundTrip(u, n);
    var bs := SignedOctets(v, n);
    FirstOctet(bs);
    var first: int := bs[0];
    if first >= 128 {
      MulOrder(128, first, p);
    } else {
      MulOrder(first + 1, 128, p);
    }
  }

  // ------------------------------------------------------- writing a buffer

  lemma TwoDigits(v: nat)
    ensures BigEndian(v, 2) == [v / 256 % 256, v % 256]
  {
    assert BigEndian(v / 256, 1) == BigEndian(v / 256 / 256, 0) + [v / 256 % 256];
  }

  lemma ThreeDigits(v: nat)
    ensures BigEndian(v, 3) == [v / 65536 % 256, v / 256 % 256, v % 256]
  {
    TwoDigits(v / 256);
    assert v / 256 / 256 == v / 65536;
  }

  lemma FourDigits(v: nat)
    ensures BigEndian(v, 4) == [v / 16777216 % 256, v / 65536 % 256, v / 256 % 256, v % 256]
  {
    ThreeDigits(v / 256);
    assert v / 256 / 256 == v / 65536 && v / 256 / 65536 == v / 16777216;
  }

  method PutOctet(apdu: array<byte>, at: nat, b: byte)
    requires at < apdu.Length
    modifies apdu
    ensures apdu[..] == Overwrite(old(apdu[..]), at, [b])
  {
    ghost var s := apdu[..];
    apdu[at] := b;
    IsOverwrite(s, apdu[..], at, [b]);
  }

  /** Octets copied one by one. */
  method PutOctets(apdu: array<byte>, at: nat, bs: seq<byte>)
    requires at + |bs| <= apdu.Length
    modifies apdu
    ensures apdu[..] == Overwrite(old(apdu[..]), at, bs)
  {
    ghost var s := apdu[..];
    for i := 0 to |bs|
      invariant apdu[..at] == s[..at] && apdu[at + i..] == s[at + i..]
      invariant forall k :: 0 <= k < i ==> apdu[at + k] == bs[k]
    {
      apdu[at + i] := bs[i];
    }

    assert apdu[at..at + |bs|] == bs;
    IsOverwrite(s, apdu[..], at, bs);
  }

  method EncodeUnsigned16(apdu: array<byte>, at: nat, value: nat) returns (len: nat)
    requires at + 2 <= apdu.Length && value < 0x1_0000
    modifies apdu
    ensures len == 2 && apdu[..] == Overwrite(old(apdu[..]), at, BigEndian(value, 2))
  {
    ghost var s := apdu[..];
    apdu[at] := value / 256 % 256;
    apdu[at + 1] := value % 256;
    TwoDigits(value);
    IsOverwrite(s, apdu[..], at, BigEndian(value, 2));
    len := 2;
  }

  method EncodeUnsigned24(apdu: array<byte>, at: nat, value: nat) returns (len: nat)
    requires at + 3 <= apdu.Length && value < SPAN32
    modifies apdu
    ensures len == 3 && apdu[..] == Overwrite(old(apdu[..]), at, BigEndian(value, 3))
  {
    ghost var s := apdu[..];
    apdu[at] := value / 65536 % 256;
    apdu[at + 1] := value / 256 % 256;
    apdu[at + 2] := value % 256;
    ThreeDigits(value);
    IsOverwrite(s, apdu[..], at, BigEndian(value, 3));
    len := 3;
  }

  method EncodeUnsigned32(apdu: array<byte>, at: nat, value: nat) returns (len: nat)
    requires at + 4 <= apdu.Length && value < SPAN32
    modifies apdu
    ensures len == 4 && apdu[..] == Overwrite(old(apdu[..]), at, BigEndian(value, 4))
  {
    ghost var s := apdu[..];
    apdu[at] := value / 16777216 % 256;
    apdu[at + 1] := value / 65536 % 256;
    apdu[at + 2] := value / 256 % 256;
    apdu[at + 3] := value % 256;
    FourDigits(value);
    IsOverwrite(s, apdu[..], at, BigEndian(value, 4));
    len := 4;
  }
}
