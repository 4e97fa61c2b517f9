/** Tag headers (bacdcode.c:210-470; sections 20.2.1.1 to 20.2.1.3 of ANSI/ASHRAE 135). */
module Tags {
  import opened Words
  import opened Octets

  // --------------------------------------------------------------- encoding

  function TagNibble(tag: byte): int { if tag <= 14 then tag * 16 else 0xF0 }

  function TagExtension(tag: byte): seq<byte> { if tag <= 14 then [] else [tag] }

  function LengthExtension(v: nat): seq<byte>
    requires v < SPAN32
  {
    if v <= 4 then []
    else if v <= 253 then [v]
    else if v <= 65535 then [254] + BigEndian(v, 2)
    else [255] + BigEndian(v, 4)
  }

  function FirstOctetOf(tag: byte, context: bool, v: nat): byte
  {
    TagNibble(tag) + (if context then 8 else 0) + (if v <= 4 then v else 5)
  }

  /** A header with a length, value or type field `v`. */
  function TagHeader(tag: byte, context: bool, v: nat): (bs: seq<byte>)
    requires v < SPAN32
    ensures 1 <= |bs| <= 7
  {
    [FirstOctetOf(tag, context, v)] + TagExtension(tag) + LengthExtension(v)
  }

  function OpeningTag(tag: byte): (bs: seq<byte>)
    ensures 1 <= |bs| <= 2
  {
    [TagNibble(tag) + 8 + 6] + TagExtension(tag)
  }

  function ClosingTag(tag: byte): (bs: seq<byte>)
    ensures 1 <= |bs| <= 2
  {
    [TagNibble(tag) + 8 + 7] + TagExtension(tag)
  }

  /** The first octet with its low three bits `field`, and the extended tag number if there is one. */
  function TagStart(tag: byte, context: bool, field: nat): (bs: seq<byte>)
    requires field < 8
    ensures |bs| == if tag <= 14 then 1 else 2
  {
    [TagNibble(tag) + (if context then 8 else 0) + field] + TagExtension(tag)
  }

  method EncodeTagStart(apdu: array<byte>, at: nat, tag: byte, context: bool, field: nat) returns (len: nat)
    requires field < 8 && at + |TagStart(tag, context, field)| <= apdu.Length
    modifies apdu
    ensures len == |TagStart(tag, context, field)|
    ensures apdu[..] == Overwrite(old(apdu[..]), at, TagStart(tag, context, field))
  {
    hide Overwrite;
    ghost var s := apdu[..];
    len := 1;
    var first: int := 0;
    if context {
      first := 8;
    }
    if tag <= 14 {
      first := first + tag * 16;
      assert TagStart(tag, context, field) == [first + field];
      PutOctet(apdu, at, first + field);
    } else {
      first := first + 0xF0;
      ghost var b: byte := first + field;
      assert TagStart(tag, context, field) == [b] + [tag];
      PutOctet(apdu, at, first + field);
      PutOctet(apdu, at + 1, tag);
      OverwriteOn(s, at, [b], [tag]);
      len := len + 1;
    }
  }

  /** encode_tag. */
  method EncodeTag(apdu: array<byte>, at: nat, tag: byte, context: bool, v: nat) returns (len: nat)
    requires v < SPAN32 && at + |TagHeader(tag, context, v)| <= apdu.Length
    modifies apdu
    ensures len == |TagHeader(tag, context, v)|
    ensures apdu[..] == Overwrite(old(apdu[..]), at, TagHeader(tag, context, v))
  {
    hide Overwrite, BigEndian;
    ghost var s := apdu[..];
    ghost var start := TagStart(tag, context, if v <= 4 then v else 5);
    assert TagHeader(tag, context, v) == start + LengthExtension(v);
    if v <= 4 {
      assert TagHeader(tag, context, v) == start;
      len := EncodeTagStart(apdu, at, tag, context, v);
    } else {
      len := EncodeTagStart(apdu, at, tag, context, 5);
      len := EncodeLength(apdu, at, len, v);
      OverwriteOn(s, at, start, LengthExtension(v));
    }
  }

  /** encode_opening_tag and encode_closing_tag. */
  method EncodeOpeningTag(apdu: array<byte>, at: nat, tag: byte) returns (len: nat)
    requires at + |OpeningTag(tag)| <= apdu.Length
    modifies apdu
    ensures len == |OpeningTag(tag)| && apdu[..] == Overwrite(old(apdu[..]), at, OpeningTag(tag))
  {
    len := EncodeTagStart(apdu, at, tag, true, 6);
  }

  method EncodeClosingTag(apdu: array<byte>, at: nat, tag: byte) returns (len: nat)
    requires at + |ClosingTag(tag)| <= apdu.Length
    modifies apdu
    ensures len == |ClosingTag(tag)| && apdu[..] == Overwrite(old(apdu[..]), at, ClosingTag(tag))
  {
    len := EncodeTagStart(apdu, at, tag, true, 7);
  }

  /** The length octets that follow a header of `len` octets so far. */
  method EncodeLength(apdu: array<byte>, at: nat, len0: nat, v: nat) returns (len: nat)
    requires 4 < v < SPAN32 && at + len0 + |LengthExtension(v)| <= apdu.Length
    modifies apdu
    ensures len == len0 + |LengthExtension(v)|
    ensures apdu[..] == Overwrite(old(apdu[..]), at + len0, LengthExtension(v))
  {
    hide Overwrite, BigEndian;
    ghost var s := apdu[..];
    len := len0 + 1;
    var n: nat := 0;
    if v <= 253 {
      PutOctet(apdu, at + len0, v);
    } else if v <= 65535 {
      PutOctet(apdu, at + len0, 254);
      n := EncodeUnsigned16(apdu, at + len, v);
      OverwriteOn(s, at + len0, [254], BigEndian(v, 2));
    } else {
      PutOctet(apdu, at + len0, 255);
      n := EncodeUnsigned32(apdu, at + len, v);
      OverwriteOn(s, at + len0, [255], BigEndian(v, 4));
    }
    len := len + n;
  }

  // --------------------------------------------------------------- decoding

  predicate IsExtendedTag(b: byte) { b / 16 == 15 }

  predicate IsExtendedValue(b: byte) { b % 8 == 5 }

  predicate IsContext(b: byte) { b / 8 % 2 == 1 }

  predicate IsOpening(b: byte) { b % 8 == 6 }

  predicate IsClosing(b: byte) { b % 8 == 7 }

  datatype Header = Header(tag: byte, value: nat, length: nat)

  /** decode_tag_number; None where it would read past `b`. */
  function DecodeTagNumber(b: seq<byte>): (r: Option<(byte, nat)>)
    ensures r.Some? ==> 1 <= r.value.1 <= 2 && r.value.1 <= |b|
  {
    if b == [] then None
    else if !IsExtendedTag(b[0]) then Some((b[0] / 16, 1))
    else if |b| < 2 then None
    else Some((b[1], 2))
  }

  /** decode_tag_number_and_value; None where it would read past `b`. */
  function DecodeHeader(b: seq<byte>): (r: Option<Header>)
    ensures r.Some? ==> 1 <= r.value.length <= 7 && r.value.length <= |b| && r.value.value < SPAN32
  {
    match DecodeTagNumber(b)
    case None => None
    case Some((tag, len)) =>
      if !IsExtendedValue(b[0]) then
        Some(Header(tag, if IsOpening(b[0]) || IsClosing(b[0]) then 0 else b[0] % 8, len))
      else if |b| <= len then None
      else if b[len] == 255 then
        if |b| < len + 5 then None
        else
          SmallPowers();
          FromBigEndianRoundTrip(b[len + 1..len + 5]);
          Some(Header(tag, FromBigEndian(b[len + 1..len + 5]), len + 5))
      else if b[len] == 254 then
        if |b| < len + 3 then None
        else
          SmallPowers();
          FromBigEndianRoundTrip(b[len + 1..len + 3]);
          Some(Header(tag, FromBigEndian(b[len + 1..len + 3]), len + 3))
      else Some(Header(tag, b[len], len + 1))
  }

  /** decode_tag_number_safe: with one octet left an extended tag number is taken for tag 15. */
  function DecodeTagNumberSafe(b: seq<byte>): (r: (byte, nat))
    ensures r.1 <= 2 && r.1 <= |b|
  {
    if b == [] then (0, 0)
    else if IsExtendedTag(b[0]) && |b| >= 2 then (b[1], 2)
    else (b[0] / 16, 1)
  }

  /** decode_tag_number_and_value_safe on the `|b|` octets remaining; length 0 means truncated.
      Where the C code reads the octet after the last one, its value does not matter. */
  function DecodeHeaderSafe(b: seq<byte>): (r: Header)
    ensures r.length <= 7 && r.length <= |b|
  {
    var (tag, len) := DecodeTagNumberSafe(b);
    if len == 0 then Header(tag, 0, 0)
    else if !IsExtendedValue(b[0]) then
      Header(tag, if IsOpening(b[0]) || IsClosing(b[0]) then 0 else b[0] % 8, len)
    else if |b| == len then Header(tag, 0, 0)
    else if b[len] == 255 && |b| - len >= 5 then Header(tag, FromBigEndian(b[len + 1..len + 5]), len + 5)
    else if b[len] == 254 && |b| - len >= 3 then Header(tag, FromBigEndian(b[len + 1..len + 3]), len + 3)
    else if b[len] < 254 then Header(tag, b[len], len + 1)
    else Header(tag, 0, 0)
  }

  // ------------------------------------------------------------- properties

  /** The first octet carries its three fields apart. */
  lemma FirstOctetFields(tag: byte, context: bool, v: nat)
    ensures var b := FirstOctetOf(tag, context, v);
            && IsExtendedTag(b) == (tag > 14) && (tag <= 14 ==> b / 16 == tag)
            && IsContext(b) == context && b % 8 == (if v <= 4 then v else 5)
  {
  }

  lemma LengthRoundTrip(v: nat)
    requires v < SPAN32
    ensures 253 < v <= 65535 ==> FromBigEndian(BigEndian(v, 2)) == v
    ensures FromBigEndian(BigEndian(v, 4)) == v
  {
    SmallPowers();
    if v <= 65535 { BigEndianRoundTrip(v, 2); }
    BigEndianRoundTrip(v, 4);
  }

  lemma TagNumberRoundTrip(tag: byte, context: bool, v: nat, rest: seq<byte>)
    requires v < SPAN32
    ensures DecodeTagNumber(TagHeader(tag, context, v) + rest) == Some((tag, 1 + |TagExtension(tag)|))
    ensures var b := TagHeader(tag, context, v) + rest;
            && b[0] == FirstOctetOf(tag, context, v)
            && (forall k :: 0 <= k < |LengthExtension(v)| ==>
                  b[1 + |TagExtension(tag)| + k] == LengthExtension(v)[k])
  {
    FirstOctetFields(tag, context, v);
  }

  /** Every header decodes to what was encoded, whatever follows it. */
  lemma HeaderRoundTrip(tag: byte, context: bool, v: nat, rest: seq<byte>)
    requires v < SPAN32
    ensures var h := TagHeader(tag, context, v);
            DecodeHeader(h + rest) == Some(Header(tag, v, |h|)) && IsContext((h + rest)[0]) == context
  {
    var h := TagHeader(tag, context, v);
    var b := h + rest;
    FirstOctetFields(tag, context, v);
    TagNumberRoundTrip(tag, context, v, rest);
    LengthRoundTrip(v);
    var len := 1 + |TagExtension(tag)|;
    var ext := LengthExtension(v);
    if 253 < v <= 65535 {
      assert ext[0] == 254 && b[len] == 254;
      assert b[len + 1..len + 3] == BigEndian(v, 2);
    } else if v > 65535 {
      assert ext[0] == 255 && b[len] == 255;
      assert b[len + 1..len + 5] == BigEndian(v, 4);
    } else if v > 4 {
      assert b[len] == ext[0] == v;
    }
  }

  /** Opening and closing tags decode to their number, value 0, and are told apart. */
  lemma BracketRoundTrip(tag: byte, rest: seq<byte>)
    ensures var o := OpeningTag(tag);
            && DecodeHeader(o + rest) == Some(Header(tag, 0, |o|))
            && IsOpening((o + rest)[0]) && !IsClosing((o + rest)[0]) && IsContext((o + rest)[0])
    ensures var c := ClosingTag(tag);
            && DecodeHeader(c + rest) == Some(Header(tag, 0, |c|))
            && IsClosing((c + rest)[0]) && !IsOpening((c + rest)[0]) && IsContext((c + rest)[0])
  {
    BracketFields(tag, 6);
    BracketFields(tag, 7);
  }

  lemma BracketFields(tag: byte, kind: nat)
    requires kind == 6 || kind == 7
    ensures var b: byte := TagNibble(tag) + 8 + kind;
            && IsExtendedTag(b) == (tag > 14) && (tag <= 14 ==> b / 16 == tag) && IsContext(b) && b % 8 == kind
  {
  }

  /** No header is a proper prefix of another: tag number, class and value are read back from
      the front of any octets. */
  lemma HeadersPrefixFree(tag: byte, context: bool, v: nat, tag': byte, context': bool, v': nat,
                          rest: seq<byte>, rest': seq<byte>)
    requires v < SPAN32 && v' < SPAN32
    requires TagHeader(tag, context, v) + rest == TagHeader(tag', context', v') + rest'
    ensures tag == tag' && context == context' && v == v' && rest == rest'
  {
    HeaderRoundTrip(tag, context, v, rest);
    HeaderRoundTrip(tag', context', v', rest');
    var h := TagHeader(tag, context, v);
    assert rest == (h + rest)[|h|..];
    assert rest' == (TagHeader(tag', context', v') + rest')[|h|..];
  }

  /** On octets that hold the whole header the safe decoder is the plain one. */
  lemma SafeAgrees(b: seq<byte>)
    requires DecodeHeader(b).Some?
    ensures DecodeHeaderSafe(b) == DecodeHeader(b).value
  {
  }

  /** A header cut short is noticed, except the lone first octet of an extended tag number whose
      value field needs no further octets. */
  lemma TruncationNoticed(tag: byte, context: bool, v: nat, k: nat)
    requires v < SPAN32 && k < |TagHeader(tag, context, v)|
    ensures DecodeHeaderSafe(TagHeader(tag, context, v)[..k]).length == 0 <==> !(tag > 14 && k == 1 && v <= 4)
  {
    var h := TagHeader(tag, context, v);
    var b := h[..k];
    FirstOctetFields(tag, context, v);
    if k > 0 {
      assert b[0] == h[0];
      var len := 1 + |TagExtension(tag)|;
      if k > len {
        assert b[len] == h[len] == LengthExtension(v)[0];
      }
    }
  }
}
