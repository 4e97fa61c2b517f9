/** Application-tagged values (bacapp.c:56-318 and the encoders and decoders it calls). */
module AppData {
  import opened Words
  import opened Octets
  import opened Tags
  import opened Primitives

  const MAX_APDU := 1476                       // BACnet/IP
  const MAX_OCTET_STRING := MAX_APDU - 6
  const MAX_CHARACTER_STRING := MAX_APDU - 7   // one octet is kept for a terminator
  const MAX_BITSTRING := 15

  const MAX_TAG := 16                          // MAX_BACNET_APPLICATION_TAG

  /** Reals are their four or eight octets; a bit string has `used` bits in whole octets. */
  datatype Value =
    | Null
    | Boolean(b: bool)
    | Unsigned(u: nat)
    | Signed(i: int)
    | Real(octets: seq<byte>)
    | Double(octets: seq<byte>)
    | OctetString(octets: seq<byte>)
    | CharacterString(encoding: byte, octets: seq<byte>)
    | BitString(used: nat, octets: seq<byte>)
    | Enumerated(u: nat)
    | Date(year: nat, month: byte, day: byte, wday: byte)
    | Time(hour: byte, min: byte, sec: byte, hundredths: byte)
    | ObjectId(type_: nat, instance: nat)

  /** The values the C types hold. */
  predicate CTyped(v: Value)
  {
    match v
    case Null => true
    case Boolean(_) => true
    case Unsigned(u) => u < SPAN32
    case Signed(i) => Is32(i)
    case Real(o) => |o| == 4
    case Double(o) => |o| == 8
    case OctetString(o) => |o| <= MAX_OCTET_STRING
    case CharacterString(_, o) => |o| <= MAX_CHARACTER_STRING
    case BitString(used, o) => used <= 8 * MAX_BITSTRING && |o| == BytesUsed(used)
    case Enumerated(u) => u < SPAN32
    case Date(y, _, _, _) => y < 65536
    case Time(_, _, _, _) => true
    case ObjectId(t, i) => t < 65536 && i < SPAN32
  }

  /** Those that survive encoding and decoding. */
  predicate Representable(v: Value)
  {
    CTyped(v)
    && (v.Date? ==> 1900 <= v.year <= 2155)
    && (v.ObjectId? ==> v.type_ < TYPES && v.instance < INSTANCES)
  }

  /** bitstring_bytes_used. */
  function BytesUsed(used: nat): nat { if used == 0 then 0 else (used - 1) / 8 + 1 }

  function TagOf(v: Value): byte
  {
    match v
    case Null => 0
    case Boolean(_) => 1
    case Unsigned(_) => 2
    case Signed(_) => 3
    case Real(_) => 4
    case Double(_) => 5
    case OctetString(_) => 6
    case CharacterString(_, _) => 7
    case BitString(_, _) => 8
    case Enumerated(_) => 9
    case Date(_, _, _, _) => 10
    case Time(_, _, _, _) => 11
    case ObjectId(_, _) => 12
  }

  /** encode_bitstring. */
  function BitPayload(used: nat, octets: seq<byte>): seq<byte>
    requires |octets| == BytesUsed(used)
  {
    if used == 0 then [0]
    else
      var unused: byte := 8 - (used - (BytesUsed(used) - 1) * 8);
      [unused] + ReverseAll(octets)
  }

  /** The contents octets; a date's year is stored from 1900, or as it is below 256. */
  function Payload(v: Value): (p: seq<byte>)
    requires CTyped(v)
    ensures |p| <= MAX_APDU
  {
    match v
    case Null => []
    case Boolean(_) => []
    case Unsigned(u) => EncodeUnsigned(u)
    case Signed(i) => EncodeSigned(i)
    case Real(o) => o
    case Double(o) => o
    case OctetString(o) => o
    case CharacterString(e, o) => [e] + o
    case BitString(used, o) => BitPayload(used, o)
    case Enumerated(u) => EncodeUnsigned(u)
    case Date(y, m, d, w) =>
      if y >= 1900 then [(y - 1900) % 256, m, d, w] else if y < 256 then [y, m, d, w] else []
    case Time(h, m, s, c) => [h, m, s, c]
    case ObjectId(t, i) => BigEndian(PackObjectId(t, i), 4)
  }

  /** encode_bacnet_date reports an error for these years and encode_application_date goes on
      with -1 as the length. */
  predicate BadDate(v: Value) { v.Date? && 256 <= v.year < 1900 }

  /** The length, value or type field of the header. */
  function Field(v: Value): (n: nat)
    requires CTyped(v)
    ensures n < SPAN32
  {
    if v.Boolean? then (if v.b then 1 else 0)
    else if BadDate(v) then SPAN32 - 1
    else |Payload(v)|
  }

  /** The octets an encoder writes, and the length it answers. */
  function Written(v: Value): (bs: seq<byte>)
    requires CTyped(v)
    ensures |bs| >= 1
  {
    TagHeader(TagOf(v), false, Field(v)) + Payload(v)
  }

  function EncodedLength(v: Value): (n: nat)
    requires CTyped(v)
    ensures n <= |Written(v)|
  {
    if BadDate(v) then |Written(v)| - 1 else |Written(v)|
  }

  function Encode(v: Value): seq<byte>
    requires CTyped(v)
  {
    Written(v)[..EncodedLength(v)]
  }

  // --------------------------------------------------------------- decoding

  datatype Decoded =
    | Short                                // would read past the octets at hand
    | Unable(consumed: int)                // value->tag set to MAX_BACNET_APPLICATION_TAG
    | Stale(consumed: int)                 // value left as it was
    | Good(value: Value, consumed: int)

  function Fixed(b: seq<byte>, len: nat, n: nat, v: Value, otherwise: Value): Decoded
  {
    if len != n then (if len == 0 then Unable(0) else Good(otherwise, ToInt32(len)))
    else if |b| < n then Short else Good(v, n)
  }

  function Integer(b: seq<byte>, len: nat, v: Value, zero: Value): Decoded
  {
    if len == 0 then Unable(0)
    else if len > 4 then Good(zero, ToInt32(len))
    else if |b| < len then Short else Good(v, len)
  }

  function Take(b: seq<byte>, n: nat): seq<byte> { if n <= |b| then b[..n] else b }

  function At(b: seq<byte>, i: nat): byte { if i < |b| then b[i] else 0 }

  /** bacapp_decode_data on the octets `b` that follow a header. */
  function DecodeData(b: seq<byte>, tag: byte, len: nat): Decoded
    requires len < SPAN32
  {
    var p := Take(b, len);
    if tag == 0 then Good(Null, 0)
    else if tag == 1 then Good(Boolean(len != 0), 0)
    else if tag == 2 then Integer(b, len, Unsigned(DecodeUnsigned(p)), Unsigned(0))
    else if tag == 3 then Integer(b, len, Signed(DecodeSigned(p)), Signed(0))
    else if tag == 4 then Fixed(b, len, 4, Real(p), Real([0, 0, 0, 0]))
    else if tag == 5 then Fixed(b, len, 8, Double(p), Double([0, 0, 0, 0, 0, 0, 0, 0]))
    else if tag == 6 then
      if len > MAX_OCTET_STRING then Stale(0) else if |b| < len then Short else Good(OctetString(p), len)
    else if tag == 7 then
      if len == 0 || len - 1 > MAX_CHARACTER_STRING then Unable(0)
      else if |b| < len then Short else Good(CharacterString(b[0], p[1..]), len)
    else if tag == 8 then DecodeBits(b, len)
    else if tag == 9 then Integer(b, len, Enumerated(DecodeUnsigned(p)), Enumerated(0))
    else if tag == 10 then Fixed(b, len, 4, Date(At(p, 0) + 1900, At(p, 1), At(p, 2), At(p, 3)), Date(0, 0, 0, 0))
    else if tag == 11 then Fixed(b, len, 4, Time(At(p, 0), At(p, 1), At(p, 2), At(p, 3)), Time(0, 0, 0, 0))
    else if tag == 12 then
      if len != 4 then Unable(0) else if |b| < 4 then Short
      else Good(ObjectId(UnpackType(FromBigEndian(p)), UnpackInstance(FromBigEndian(p))), 4)
    else Unable(0)
  }

  /** decode_bitstring; bits_used is an octet. */
  function DecodeBits(b: seq<byte>, len: nat): Decoded
  {
    if len == 0 || len - 1 > MAX_BITSTRING then Unable(0)
    else if |b| < len then Short
    else Good(BitString(((len - 1) * 8 - b[0] % 8) % 256, ReverseAll(b[1..len])), len)
  }

  /** bacapp_decode_application_data; a context-specific tag is left alone. */
  function DecodeApplication(b: seq<byte>): Decoded
  {
    if b == [] then Short
    else if IsContext(b[0]) then Stale(0)
    else
      match DecodeHeader(b)
      case None => Short
      case Some(h) =>
        match DecodeData(b[h.length..], h.tag, h.value)
        case Short => Short
        case Unable(_) => Unable(-1)
        case Stale(n) => Stale(h.length + n)
        case Good(v, n) => Good(v, h.length + n)
  }

  // ------------------------------------------------------------ round trip

  lemma UnusedBits(used: nat)
    requires 0 < used <= 8 * MAX_BITSTRING
    ensures var unused := 8 - (used - (BytesUsed(used) - 1) * 8);
            0 <= unused < 8 && (BytesUsed(used) * 8 - unused) % 256 == used && BytesUsed(used) <= MAX_BITSTRING
  {
  }

  lemma NoBits()
    ensures BytesUsed(0) == 0 && ReverseAll([]) == []
  {
  }

  lemma BitsRoundTrip(used: nat, octets: seq<byte>, rest: seq<byte>)
    requires used <= 8 * MAX_BITSTRING && |octets| == BytesUsed(used)
    ensures var p := BitPayload(used, octets);
            DecodeBits(p + rest, |p|) == Good(BitString(used, octets), |p|)
  {
    hide ReverseAll, BytesUsed;
    var p := BitPayload(used, octets);
    var b := p + rest;
    ReverseAllInvolution(octets);
    if used > 0 {
      UnusedBits(used);
      assert b[1..|p|] == ReverseAll(octets);
    } else {
      NoBits();
      assert b[1..1] == octets;
    }
  }

  lemma DataRoundTrip(v: Value, rest: seq<byte>)
    requires Representable(v)
    ensures DecodeData(Payload(v) + rest, TagOf(v), Field(v)) == Good(v, |Payload(v)|)
  {
    hide FromBigEndian, BigEndian, DecodeBits, BitPayload, PackObjectId, UnpackType, UnpackInstance;
    var p := Payload(v);
    var b := p + rest;
    assert Take(b, |p|) == p;
    match v
    case Unsigned(u) => UnsignedRoundTrip(u);
    case Signed(i) => SignedRoundTrips(i);
    case Enumerated(u) => UnsignedRoundTrip(u);
    case BitString(used, o) => BitsRoundTrip(used, o, rest);
    case CharacterString(e, o) => assert p[1..] == o && b[0] == e;
    case ObjectId(t, i) =>
      SmallPowers();
      BigEndianRoundTrip(PackObjectId(t, i), 4);
      ObjectIdBijection(t, i, 0);
    case _ =>
  }

  /** Every representable value decodes, from its encoding followed by anything, to itself, and
      consumes exactly the octets written. */
  lemma ValueRoundTrip(v: Value, rest: seq<byte>)
    requires Representable(v)
    ensures DecodeApplication(Encode(v) + rest) == Good(v, |Encode(v)|)
  {
    hide DecodeHeader, DecodeData, Payload, TagHeader, TagOf;
    var h := TagHeader(TagOf(v), false, Field(v));
    HeaderRoundTrip(TagOf(v), false, Field(v), Payload(v) + rest);
    assert Encode(v) + rest == h + (Payload(v) + rest);
    assert (Encode(v) + rest)[|h|..] == Payload(v) + rest;
    DataRoundTrip(v, rest);
    FieldIsLength(v);
  }

  lemma FieldIsLength(v: Value)
    requires Representable(v)
    ensures Encode(v) == Written(v) && !BadDate(v)
  {
  }

  /** The values that do not: years outside 1900 to 2155, and wider types or instances. */
  lemma OthersDoNot(v: Value)
    requires CTyped(v) && !Representable(v)
    ensures DecodeApplication(Encode(v)) != Good(v, |Encode(v)|)
  {
    if BadDate(v) {
      BadDateEncodes(v);
    } else {
      hide DecodeHeader, TagHeader, FromBigEndian, BigEndian;
      var h := TagHeader(TagOf(v), false, Field(v));
      var p := Payload(v);
      HeaderRoundTrip(TagOf(v), false, Field(v), p);
      assert Encode(v) == h + p && (h + p)[|h|..] == p;
      if v.ObjectId? {
        SmallPowers();
        BigEndianRoundTrip(PackObjectId(v.type_, v.instance), 4);
        ObjectIdMasked(v.type_, v.instance);
      }
    }
  }

  /** The header of such a date announces a four-octet length of which only three are counted. */
  lemma BadDateEncodes(v: Value)
    requires CTyped(v) && BadDate(v)
    ensures DecodeApplication(Encode(v)) == Short
  {
    var h := TagHeader(10, false, SPAN32 - 1);
    assert h == [10 * 16 + 5] + [255] + BigEndian(SPAN32 - 1, 4);
    var b := Encode(v);
    assert b == h[..5] && b[0] == 165 && b[1] == 255 && |b| == 5;
  }

  /** Exactly the representable values survive a round trip. */
  lemma SurvivesIffRepresentable(v: Value)
    requires CTyped(v)
    ensures Representable(v) <==> forall rest :: DecodeApplication(Encode(v) + rest) == Good(v, |Encode(v)|)
  {
    if Representable(v) {
      forall rest
        ensures DecodeApplication(Encode(v) + rest) == Good(v, |Encode(v)|)
      {
        ValueRoundTrip(v, rest);
      }
    } else {
      OthersDoNot(v);
      assert Encode(v) + [] == Encode(v);
    }
  }

  /** Contents of another length than the type has: of a number or of four or eight octets the value is
      zero and the announced length is passed; without contents nothing is decoded; a string longer than
      there is room for is left alone, and other types are not decoded. */
  lemma OddLengths(b: seq<byte>, len: nat)
    requires len < SPAN32 && |b| >= len && len < 0x8000_0000
    ensures len > 4 ==> DecodeData(b, 2, len) == Good(Unsigned(0), len) && DecodeData(b, 3, len) == Good(Signed(0), len)
                        && DecodeData(b, 9, len) == Good(Enumerated(0), len)
    ensures len != 4 && len > 0 ==> DecodeData(b, 4, len) == Good(Real([0, 0, 0, 0]), len)
                                    && DecodeData(b, 10, len) == Good(Date(0, 0, 0, 0), len)
                                    && DecodeData(b, 11, len) == Good(Time(0, 0, 0, 0), len)
    ensures len != 8 && len > 0 ==> DecodeData(b, 5, len) == Good(Double([0, 0, 0, 0, 0, 0, 0, 0]), len)
    ensures len == 0 ==> forall t: byte :: 2 <= t <= 12 && t != 6 ==> DecodeData(b, t, len) == Unable(0)
    ensures DecodeData(b, 6, len) == if len <= 1470 then Good(OctetString(b[..len]), len) else Stale(0)
    ensures len > 0 ==>
              DecodeData(b, 7, len) == if len <= 1470 then Good(CharacterString(b[0], b[1..len]), len) else Unable(0)
    ensures len > 0 ==> (DecodeData(b, 8, len) == Unable(0) <==> len > 16)
    ensures len != 4 ==> DecodeData(b, 12, len) == Unable(0)
    ensures forall t: byte :: t > 12 ==> DecodeData(b, t, len) == Unable(0)
    ensures DecodeData(b, 0, len) == Good(Null, 0) && DecodeData(b, 1, len) == Good(Boolean(len > 0), 0)
  {
    hide FromBigEndian, DecodeUnsigned, DecodeSigned, UnpackType, UnpackInstance;
  }
}
