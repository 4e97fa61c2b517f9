/** The octets that go out, one by one: what a peer that knows only the standard reads (sections 20.2.1 to
    20.2.14 of ANSI/ASHRAE 135). */
module WireFormat {
  import opened Words
  import opened Octets
  import opened Tags
  import opened Primitives
  import opened AppData

  // ------------------------------------------------------------------- tags

  /** The first octet: tag number, class, and length, value or type. */
  predicate Leads(o: byte, number: nat, context: bool, low: nat)
  {
    o / 16 == number && (o / 8 % 2 == 1 <==> context) && o % 8 == low
  }

  /** A header, for tag numbers up to 14 in one octet and above in two, and for lengths up to 4 in the
      first octet, up to 253 in one more, up to 65535 in two after 254, and in four after 255. */
  lemma HeaderOctets(tag: byte, context: bool, v: nat)
    requires v < SPAN32
    ensures var h := TagHeader(tag, context, v);
            var k := if tag <= 14 then 1 else 2;
            && Leads(h[0], if tag <= 14 then tag else 15, context, if v <= 4 then v else 5)
            && (tag > 14 ==> |h| >= 2 && h[1] == tag)
            && (v <= 4 ==> |h| == k)
            && (4 < v <= 253 ==> h[k..] == [v])
            && (253 < v <= 65535 ==> h[k..] == [254, v / 256, v % 256])
            && (65535 < v ==> h[k..] == [255, v / 16777216, v / 65536 % 256, v / 256 % 256, v % 256])
  {
    hide BigEndian;
    FirstOctetFields(tag, context, v);
    TwoDigits(v);
    FourDigits(v);
    var h := TagHeader(tag, context, v);
    assert h == [h[0]] + TagExtension(tag) + LengthExtension(v);
  }

  lemma BracketOctets(tag: byte)
    ensures Leads(OpeningTag(tag)[0], if tag <= 14 then tag else 15, true, 6)
    ensures Leads(ClosingTag(tag)[0], if tag <= 14 then tag else 15, true, 7)
    ensures OpeningTag(tag)[1..] == ClosingTag(tag)[1..] == if tag <= 14 then [] else [tag]
  {
  }

  // ---------------------------------------------------------------- contents

  /** Bits added above bit `k` do not change it. */
  lemma {:induction false} LowerBit(y: nat, d: nat, n: nat, k: nat)
    requires k < n
    ensures BitAt(y + d * Power2(n), k) == BitAt(y, k)
  {
    var x := y + d * Power2(n);
    assert x == y + 2 * (d * Power2(n - 1));
    if k > 0 {
      HalvedBit(x, k);
      HalvedBit(y, k);
      assert x / 2 == y / 2 + d * Power2(n - 1);
      LowerBit(y / 2, d, n - 1, k - 1);
    } else {
      assert Power2(0) == 1;
    }
  }

  /** The bit above a number of `n` bits. */
  lemma TopBit(y: nat, d: nat, n: nat)
    requires y < Power2(n) && d <= 1
    ensures BitAt(y + d * Power2(n), n) == d
  {
    Quotient(y + d * Power2(n), Power2(n), d, y);
  }

  lemma {:induction false} ReversedBit(b: nat, n: nat, k: nat)
    requires k < n
    ensures BitAt(Reversed(b, n), k) == BitAt(b, n - 1 - k)
  {
    var y, d := Reversed(b / 2, n - 1), b % 2;
    assert Reversed(b, n) == y + d * Power2(n - 1);
    if k == n - 1 {
      TopBit(y, d, n - 1);
      assert Power2(0) == 1;
    } else {
      LowerBit(y, d, n - 1, k);
      ReversedBit(b / 2, n - 1, k);
      HalvedBit(b, n - 1 - k);
    }
  }

  /** byte_reverse_bits moves bit 0 to bit 7, bit 1 to bit 6 and so on. */
  lemma BitsReversed(b: byte, k: nat)
    requires k < 8
    ensures BitAt(ReverseBits(b), k) == BitAt(b, 7 - k)
  {
    ReversedBit(b, 8, k);
  }

  lemma {:induction false} EachReversed(bs: seq<byte>, i: nat)
    requires i < |bs|
    ensures ReverseAll(bs)[i] == ReverseBits(bs[i])
  {
    if i > 0 { EachReversed(bs[1..], i - 1); }
  }

  /** A bit string: the number of unused bits, then its bits from the highest of each octet down. Bit `n`
      of the string, which C keeps in bit n % 8 of its octet n / 8, is bit 7 - n % 8 of contents octet
      1 + n / 8. */
  lemma BitStringOctets(used: nat, octets: seq<byte>, n: nat)
    requires CTyped(BitString(used, octets))
    ensures var p := Payload(BitString(used, octets));
            && |p| == 1 + |octets| && p[0] < 8 && 8 * |octets| - p[0] == used
            && (n < used ==> n / 8 < |octets| && BitAt(p[1 + n / 8], 7 - n % 8) == BitAt(octets[n / 8], n % 8))
  {
    hide ReverseAll, ReverseBits;
    if n < used {
      EachReversed(octets, n / 8);
      BitsReversed(octets[n / 8], 7 - n % 8);
    }
  }

  /** The tag numbers of section 20.2.1.4. */
  lemma TagNumbers(v: Value)
    requires CTyped(v)
    ensures var t := if v.Null? then 0 else if v.Boolean? then 1 else if v.Unsigned? then 2 else if v.Signed? then 3
                     else if v.Real? then 4 else if v.Double? then 5 else if v.OctetString? then 6
                     else if v.CharacterString? then 7 else if v.BitString? then 8 else if v.Enumerated? then 9
                     else if v.Date? then 10 else if v.Time? then 11 else 12;
            Leads(Written(v)[0], t, false, Written(v)[0] % 8)
  {
    hide TagHeader, Payload, Field;
    HeaderOctets(TagOf(v), false, Field(v));
  }

  /** A Boolean is its length field, 0 or 1, and nothing else. */
  lemma BooleanOctets(b: bool)
    ensures Written(Boolean(b)) == [if b then 17 else 16] && Written(Null) == [0]
  {
  }

  /** Numbers are base 256, most significant octet first: the octet `k` from the end is digit `k`. */
  lemma {:induction false} BigEndianDigits(v: nat, n: nat, k: nat)
    requires k < n
    ensures BigEndian(v, n)[n - 1 - k] == v / Power256(k) % 256
    decreases n
  {
    if k > 0 {
      BigEndianDigits(v / 256, n - 1, k - 1);
      Scaled256(v, Power256(k - 1));
    } else {
      assert Power256(0) == 1;
    }
  }

  lemma Scaled256(v: nat, p: nat)
    requires p > 0
    ensures p > 0 && v / 256 / p == v / (256 * p)
  {
    var h := v / 256;
    var q, r := h / p, h % p;
    assert h == p * q + r;
    assert v == (256 * p) * q + (256 * r + v % 256);
    Quotient(v, 256 * p, q, 256 * r + v % 256);
  }

  lemma NumberOctets(u: nat, i: int, k: nat)
    requires u < SPAN32 && Is32(i)
    ensures var p := Payload(Unsigned(u));
            && Payload(Enumerated(u)) == p && 1 <= |p| <= 4
            && (k < |p| ==> p[|p| - 1 - k] == u / Power256(k) % 256)
    ensures var p := Payload(Signed(i));
            && 1 <= |p| <= 4
            && (k < |p| ==> p[|p| - 1 - k] == i % Power256(|p|) / Power256(k) % 256)
  {
    hide BigEndian;
    var p, q := Payload(Unsigned(u)), Payload(Signed(i));
    if k < |p| { BigEndianDigits(u, |p|, k); }
    if k < |q| { BigEndianDigits(i % Power256(|q|), |q|, k); }
  }

  /** Dates count years from 1900; a time is hours, minutes, seconds and hundredths; a character string
      leads with its encoding. */
  lemma DateTimeOctets(year: nat, month: byte, day: byte, wday: byte, e: byte, o: seq<byte>)
    requires year < 0x1_0000 && CTyped(CharacterString(e, o))
    ensures year >= 1900 ==> Payload(Date(year, month, day, wday)) == [(year - 1900) % 256, month, day, wday]
    ensures year < 256 ==> Payload(Date(year, month, day, wday)) == [year, month, day, wday]
    ensures Payload(Time(month, day, wday, e)) == [month, day, wday, e]
    ensures Payload(CharacterString(e, o)) == [e] + o && Payload(OctetString(o)) == o
  {
  }

  /** An object identifier is its type times 2^22 and its instance. */
  lemma ObjectIdOctets(type_: nat, instance: nat)
    requires type_ < 1024 && instance < 0x40_0000
    ensures var x := type_ * 0x40_0000 + instance;
            x < 0x1_0000_0000
            && Payload(ObjectId(type_, instance)) == [x / 16777216, x / 65536 % 256, x / 256 % 256, x % 256]
  {
    hide BigEndian, PackObjectId;
    var x := type_ * 0x40_0000 + instance;
    Packed(type_, instance);
    FourDigits(x);
    assert x / 16777216 < 256;
  }

  lemma Packed(type_: nat, instance: nat)
    requires type_ < 1024 && instance < 0x40_0000
    ensures PackObjectId(type_, instance) == type_ * 0x40_0000 + instance < 0x1_0000_0000
  {
  }
}
