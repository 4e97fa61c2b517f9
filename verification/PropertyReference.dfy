/** Device object property references, plain and between opening and closing tags
    (bacdevobjpropref.c:43-176). */
module PropertyReference {
  import opened Words
  import opened Octets
  import opened Tags
  import opened Primitives

  const ARRAY_ALL := 0xFFFF_FFFF
  const OBJECT_DEVICE := 8

  datatype ObjectRef = ObjectRef(type_: nat, instance: nat)

  const NO_DEV := ObjectRef(0xFFFF, 0xFFFF_FFFF)

  datatype PropertyRef = PropertyRef(target: ObjectRef, property: nat, index: nat, device: ObjectRef)

  /** The C types: 16-bit object types, everything else 32 bits. */
  predicate CTyped(v: PropertyRef)
  {
    && v.target.type_ < 0x1_0000 && v.target.instance < SPAN32
    && v.property < SPAN32 && v.index < SPAN32
    && v.device.type_ < 0x1_0000 && v.device.instance < SPAN32
  }

  predicate Fits(o: ObjectRef) { o.type_ < TYPES && o.instance < INSTANCES }

  /** What is encoded fits the ten and twenty-two bits there are for it. */
  predicate Visible(v: PropertyRef) { Fits(v.target) && (v.device.type_ == OBJECT_DEVICE ==> Fits(v.device)) }

  /** A device identifier of another type is not encoded. */
  function Normalised(v: PropertyRef): PropertyRef
  {
    if v.device.type_ == OBJECT_DEVICE then v else v.(device := NO_DEV)
  }

  function Masked(o: ObjectRef): ObjectRef { ObjectRef(o.type_ % TYPES, o.instance % INSTANCES) }

  // --------------------------------------------------------------- encoding

  function ObjectField(tag: byte, o: ObjectRef): (bs: seq<byte>)
    ensures |bs| >= 1
  {
    TagHeader(tag, true, 4) + BigEndian(PackObjectId(o.type_, o.instance), 4)
  }

  function NumberField(tag: byte, u: nat): (bs: seq<byte>)
    ensures |bs| >= 1
  {
    TagHeader(tag, true, UnsignedLength(u)) + EncodeUnsigned(u)
  }

  function IndexPart(v: PropertyRef): seq<byte>
  {
    if v.index != ARRAY_ALL then NumberField(2, v.index) else []
  }

  function DevicePart(v: PropertyRef): seq<byte>
  {
    if v.device.type_ == OBJECT_DEVICE then ObjectField(3, v.device) else []
  }

  function EncodeRef(v: PropertyRef): seq<byte>
  {
    ObjectField(0, v.target) + NumberField(1, v.property) + IndexPart(v) + DevicePart(v)
  }

  function EncodeWrapped(tag: byte, v: PropertyRef): seq<byte>
  {
    OpeningTag(tag) + EncodeRef(v) + ClosingTag(tag)
  }

  /** encode_context_object_id. */
  method PutObjectField(apdu: array<byte>, at: nat, tag: byte, o: ObjectRef) returns (len: nat)
    requires at + |ObjectField(tag, o)| <= apdu.Length
    modifies apdu
    ensures len == |ObjectField(tag, o)| && apdu[..] == Overwrite(old(apdu[..]), at, ObjectField(tag, o))
  {
    hide Overwrite, TagHeader, PackObjectId;
    ghost var s := apdu[..];
    len := EncodeTag(apdu, at, tag, true, 4);
    var n := EncodeUnsigned32(apdu, at + len, PackObjectId(o.type_, o.instance));
    OverwriteOn(s, at, TagHeader(tag, true, 4), BigEndian(PackObjectId(o.type_, o.instance), 4));
    len := len + n;
  }

  /** encode_context_enumerated and encode_context_unsigned. */
  method PutNumberField(apdu: array<byte>, at: nat, tag: byte, u: nat) returns (len: nat)
    requires u < SPAN32 && at + |NumberField(tag, u)| <= apdu.Length
    modifies apdu
    ensures len == |NumberField(tag, u)| && apdu[..] == Overwrite(old(apdu[..]), at, NumberField(tag, u))
  {
    hide Overwrite, TagHeader, EncodeUnsigned;
    ghost var s := apdu[..];
    len := if u < 0x100 then 1 else if u < 0x1_0000 then 2 else if u < 0x100_0000 then 3 else 4;
    len := EncodeTag(apdu, at, tag, true, len);
    var n := PutUnsigned(apdu, at + len, u);
    OverwriteOn(s, at, TagHeader(tag, true, UnsignedLength(u)), EncodeUnsigned(u));
    len := len + n;
  }

  /** bacapp_encode_device_obj_property_ref. */
  method PutRef(apdu: array<byte>, at: nat, v: PropertyRef) returns (apdu_len: nat)
    requires CTyped(v) && at + |EncodeRef(v)| <= apdu.Length
    modifies apdu
    ensures apdu_len == |EncodeRef(v)| && apdu[..] == Overwrite(old(apdu[..]), at, EncodeRef(v))
  {
    hide Overwrite, ObjectField, NumberField;
    ghost var s := apdu[..];
    apdu_len := PutObjectField(apdu, at, 0, v.target);
    var len := PutNumberField(apdu, at + apdu_len, 1, v.property);
    OverwriteOn(s, at, ObjectField(0, v.target), NumberField(1, v.property));
    apdu_len := apdu_len + len;
    ghost var front := ObjectField(0, v.target) + NumberField(1, v.property);
    if v.index != ARRAY_ALL {
      len := PutNumberField(apdu, at + apdu_len, 2, v.index);
      OverwriteOn(s, at, front, NumberField(2, v.index));
      apdu_len := apdu_len + len;
    }
    assert front + [] == front;
    front := front + IndexPart(v);
    assert front + [] == front;
    if v.device.type_ == OBJECT_DEVICE {
      len := PutObjectField(apdu, at + apdu_len, 3, v.device);
      OverwriteOn(s, at, front, ObjectField(3, v.device));
      apdu_len := apdu_len + len;
    }
  }

  /** bacapp_encode_context_device_obj_property_ref. */
  method PutWrapped(apdu: array<byte>, at: nat, tag: byte, v: PropertyRef) returns (apdu_len: nat)
    requires CTyped(v) && at + |EncodeWrapped(tag, v)| <= apdu.Length
    modifies apdu
    ensures apdu_len == |EncodeWrapped(tag, v)| && apdu[..] == Overwrite(old(apdu[..]), at, EncodeWrapped(tag, v))
  {
    hide Overwrite, EncodeRef, OpeningTag, ClosingTag;
    ghost var s := apdu[..];
    apdu_len := EncodeOpeningTag(apdu, at, tag);
    var len := PutRef(apdu, at + apdu_len, v);
    OverwriteOn(s, at, OpeningTag(tag), EncodeRef(v));
    apdu_len := apdu_len + len;
    len := EncodeClosingTag(apdu, at + apdu_len, tag);
    OverwriteOn(s, at, OpeningTag(tag) + EncodeRef(v), ClosingTag(tag));
    apdu_len := apdu_len + len;
  }

  // --------------------------------------------------------------- decoding

  /** One field: read past the octets at hand, refused (-1), or read. */
  datatype Part<T> = Past | Refused | Field(value: T, len: int)

  function From(b: seq<byte>, at: int): seq<byte> { if 0 <= at <= |b| then b[at..] else [] }

  /** decode_is_context_tag; false where it would read past `b`. */
  predicate IsContextTag(b: seq<byte>, tag: byte)
  {
    match DecodeTagNumber(b)
    case None => false
    case Some((t, _)) => IsContext(b[0]) && t == tag
  }

  predicate IsOpeningNumber(b: seq<byte>, tag: byte)
  {
    match DecodeTagNumber(b)
    case None => false
    case Some((t, _)) => IsOpening(b[0]) && t == tag
  }

  predicate IsClosingNumber(b: seq<byte>, tag: byte)
  {
    match DecodeTagNumber(b)
    case None => false
    case Some((t, _)) => IsClosing(b[0]) && t == tag
  }

  /** decode_context_object_id: the length in the header is not looked at. */
  function GetObject(b: seq<byte>, tag: byte): Part<ObjectRef>
  {
    match DecodeTagNumber(b)
    case None => Past
    case Some((t, n)) =>
      if !(IsContext(b[0]) && t == tag) then Refused
      else if |b| < n + 4 then Past
      else
        var u := FromBigEndian(b[n..n + 4]);
        Field(ObjectRef(UnpackType(u), UnpackInstance(u)), n + 4)
  }

  /** decode_context_enumerated and decode_context_unsigned: a length outside 1 to 4 reads as
      zero and is skipped, -1 being taken for an error. */
  function GetNumber(b: seq<byte>, tag: byte): Part<nat>
  {
    if DecodeTagNumber(b).None? then Past
    else if !IsContextTag(b, tag) then Refused
    else
      match DecodeHeader(b)
      case None => Past
      case Some(h) =>
        if 1 <= h.value <= 4 && |b| < h.length + h.value then Past
        else
          var u := if 1 <= h.value <= 4 then FromBigEndian(b[h.length..h.length + h.value]) else 0;
          var len := ToInt32(h.length + h.value);
          if len == -1 then Refused else Field(u, len)
  }

  datatype Decoded = Short | Error | Done(value: PropertyRef, len: int)

  /** bacapp_decode_device_obj_property_ref at offset `at`. */
  function DecodeRef(b: seq<byte>, at: int): Decoded
  {
    match GetObject(From(b, at), 0)
    case Past => Short
    case Refused => Error
    case Field(target, n0) =>
      match GetNumber(From(b, at + n0), 1)
      case Past => Short
      case Refused => Error
      case Field(property, n1) => DecodeIndex(b, at, at + n0 + n1, target, property)
  }

  function DecodeIndex(b: seq<byte>, at: int, pos: int, target: ObjectRef, property: nat): (r: Decoded)
    ensures r.Done? ==> r.value.target == target
  {
    if IsContextTag(From(b, pos), 2) then
      match GetNumber(From(b, pos), 2)
      case Past => Short
      case Refused => Error
      case Field(index, n) => DecodeDevice(b, at, pos + n, target, property, index)
    else DecodeDevice(b, at, pos, target, property, ARRAY_ALL)
  }

  function DecodeDevice(b: seq<byte>, at: int, pos: int, target: ObjectRef, property: nat, index: nat): (r: Decoded)
    ensures r.Done? ==> r.value.target == target
  {
    if IsContextTag(From(b, pos), 3) then
      match GetObject(From(b, pos), 3)
      case Past => Short
      case Refused => Error
      case Field(device, n) => Done(PropertyRef(target, property, index, device), pos + n - at)
    else Done(PropertyRef(target, property, index, NO_DEV), pos - at)
  }

  /** bacapp_decode_context_device_obj_property_ref: one octet is skipped for either tag. */
  function DecodeWrapped(b: seq<byte>, tag: byte): Decoded
  {
    if !IsOpeningNumber(b, tag) then Error
    else
      match DecodeRef(b, 1)
      case Short => Short
      case Error => Error
      case Done(v, n) => if n != -1 && IsClosingNumber(From(b, 1 + n), tag) then Done(v, n + 2) else Error
  }

  /** The same, filling the value field by field. */
  method GetRef(apdu: array<byte>, at: nat) returns (r: Decoded)
    ensures r == DecodeRef(apdu[..], at)
  {
    hide GetObject, GetNumber, IsContextTag, From;
    ghost var b := apdu[..];
    var v := PropertyRef(NO_DEV, 0, ARRAY_ALL, NO_DEV);
    var pos: int := at;
    match GetObject(From(apdu[..], pos), 0) {
      case Past => return Short;
      case Refused => return Error;
      case Field(o, len) =>
        v := v.(target := o);
        pos := pos + len;
    }
    match GetNumber(From(apdu[..], pos), 1) {
      case Past => return Short;
      case Refused => return Error;
      case Field(u, len) =>
        v := v.(property := u);
        pos := pos + len;
    }
    assert DecodeRef(b, at) == DecodeIndex(b, at, pos, v.target, v.property);
    if IsContextTag(From(apdu[..], pos), 2) {
      match GetNumber(From(apdu[..], pos), 2) {
        case Past => return Short;
        case Refused => return Error;
        case Field(u, len) =>
          v := v.(index := u);
          pos := pos + len;
      }
    }
    assert DecodeRef(b, at) == DecodeDevice(b, at, pos, v.target, v.property, v.index);
    if IsContextTag(From(apdu[..], pos), 3) {
      match GetObject(From(apdu[..], pos), 3) {
        case Past => return Short;
        case Refused => return Error;
        case Field(o, len) =>
          v := v.(device := o);
          pos := pos + len;
      }
    }
    return Done(v, pos - at);
  }

  // ------------------------------------------------------------- one field

  lemma ObjectFieldRead(tag: byte, o: ObjectRef, rest: seq<byte>)
    ensures GetObject(ObjectField(tag, o) + rest, tag) == Field(Masked(o), |ObjectField(tag, o)|)
    ensures IsContextTag(ObjectField(tag, o) + rest, tag)
  {
    hide TagHeader, FromBigEndian, BigEndian, PackObjectId, UnpackType, UnpackInstance;
    var h, v := TagHeader(tag, true, 4), PackObjectId(o.type_, o.instance);
    var b := ObjectField(tag, o) + rest;
    assert b == h + (BigEndian(v, 4) + rest);
    ShortHeader(tag, 4, BigEndian(v, 4) + rest);
    assert b[|h|..|h| + 4] == BigEndian(v, 4);
    SmallPowers();
    BigEndianRoundTrip(v, 4);
    ObjectIdMasked(o.type_, o.instance);
  }

  /** A header without length octets is a tag number. */
  lemma ShortHeader(tag: byte, v: nat, rest: seq<byte>)
    requires v <= 4
    ensures var h := TagHeader(tag, true, v);
            DecodeTagNumber(h + rest) == Some((tag, |h|)) && IsContext((h + rest)[0])
            && DecodeHeader(h + rest) == Some(Header(tag, v, |h|))
  {
    hide DecodeHeader, DecodeTagNumber;
    TagNumberRoundTrip(tag, true, v, rest);
    HeaderRoundTrip(tag, true, v, rest);
    FirstOctetFields(tag, true, v);
  }

  lemma NumberFieldRead(tag: byte, u: nat, rest: seq<byte>)
    requires u < SPAN32
    ensures GetNumber(NumberField(tag, u) + rest, tag) == Field(u, |NumberField(tag, u)|)
    ensures IsContextTag(NumberField(tag, u) + rest, tag)
  {
    hide TagHeader, FromBigEndian, EncodeUnsigned, DecodeHeader, DecodeTagNumber;
    var n := UnsignedLength(u);
    var h, p := TagHeader(tag, true, n), EncodeUnsigned(u);
    var b := NumberField(tag, u) + rest;
    assert b == h + (p + rest);
    ShortHeader(tag, n, p + rest);
    assert b[|h|..|h| + n] == p;
    UnsignedRoundTrip(u);
  }

  /** One field is not taken for another. */
  lemma OtherTag(tag: byte, o: ObjectRef, rest: seq<byte>, other: byte)
    requires tag != other
    ensures !IsContextTag(ObjectField(tag, o) + rest, other)
  {
    hide TagHeader, BigEndian, DecodeTagNumber;
    var p := BigEndian(PackObjectId(o.type_, o.instance), 4);
    assert ObjectField(tag, o) + rest == TagHeader(tag, true, 4) + (p + rest);
    ShortHeader(tag, 4, p + rest);
  }

  /** A number field with a length that is no number's reads as zero and is skipped; only if that moves by
      -1 is it refused. */
  lemma OddNumbers(b: seq<byte>, tag: byte, h: Header)
    requires IsContextTag(b, tag) && DecodeHeader(b) == Some(h) && !(1 <= h.value <= 4)
    ensures h.length + h.value < 0x8000_0000 ==> GetNumber(b, tag) == Field(0, h.length + h.value)
    ensures h.length + h.value == 0xFFFF_FFFF ==> GetNumber(b, tag) == Refused
    ensures GetNumber(b, tag).Field? ==> GetNumber(b, tag).value == 0
  {
    hide DecodeHeader;
  }

  // ------------------------------------------------------------ round trip

  lemma FromAt(x: seq<byte>, y: seq<byte>)
    ensures From(x + y, |x|) == y
  {
  }

  predicate IndexOmitted(v: PropertyRef) { v.index == ARRAY_ALL }

  predicate DeviceOmitted(v: PropertyRef) { v.device.type_ != OBJECT_DEVICE }

  /** What follows could be read as an optional field that was left out. */
  predicate Confusable(v: PropertyRef, rest: seq<byte>)
  {
    DeviceOmitted(v) && (IsContextTag(rest, 3) || (IndexOmitted(v) && IsContextTag(rest, 2)))
  }

  lemma FrontDecodes(pre: seq<byte>, v: PropertyRef, tail: seq<byte>)
    requires CTyped(v)
    ensures var f0, f1 := ObjectField(0, v.target), NumberField(1, v.property);
            DecodeRef(pre + (f0 + (f1 + tail)), |pre|)
            == DecodeIndex(pre + (f0 + (f1 + tail)), |pre|, |pre| + |f0| + |f1|, Masked(v.target), v.property)
  {
    hide ObjectField, NumberField, GetObject, GetNumber, From, DecodeIndex;
    var f0, f1 := ObjectField(0, v.target), NumberField(1, v.property);
    var b := pre + (f0 + (f1 + tail));
    FromAt(pre, f0 + (f1 + tail));
    ObjectFieldRead(0, v.target, f1 + tail);
    assert b == (pre + f0) + (f1 + tail);
    FromAt(pre + f0, f1 + tail);
    NumberFieldRead(1, v.property, tail);
  }

  /** After the mandatory fields, unless something is mistaken for the index. */
  lemma IndexDecodes(pre: seq<byte>, at: int, v: PropertyRef, tail: seq<byte>, target: ObjectRef)
    requires CTyped(v) && (IndexOmitted(v) ==> !IsContextTag(tail, 2))
    ensures DecodeIndex(pre + (IndexPart(v) + tail), at, |pre|, target, v.property)
            == DecodeDevice(pre + (IndexPart(v) + tail), at, |pre| + |IndexPart(v)|, target, v.property, v.index)
  {
    hide NumberField, GetNumber, From, DecodeDevice;
    FromAt(pre, IndexPart(v) + tail);
    if IndexOmitted(v) {
      assert [] + tail == tail;
    } else {
      NumberFieldRead(2, v.index, tail);
    }
  }

  lemma IndexConfused(b: seq<byte>, at: int, pos: int, target: ObjectRef, property: nat, v: PropertyRef)
    requires IsContextTag(From(b, pos), 2)
    ensures DecodeIndex(b, at, pos, target, property) != Done(v.(index := ARRAY_ALL), pos - at)
  {
    hide From, DecodeHeader, DecodeTagNumber, FromBigEndian, IsContextTag;
  }

  lemma DeviceDecodes(pre: seq<byte>, at: int, v: PropertyRef, rest: seq<byte>, target: ObjectRef)
    requires CTyped(v) && (DeviceOmitted(v) ==> !IsContextTag(rest, 3))
    ensures DecodeDevice(pre + (DevicePart(v) + rest), at, |pre|, target, v.property, v.index)
            == Done(PropertyRef(target, v.property, v.index, if DeviceOmitted(v) then NO_DEV else Masked(v.device)),
                    |pre| + |DevicePart(v)| - at)
  {
    hide ObjectField, GetObject, From, IsContextTag;
    FromAt(pre, DevicePart(v) + rest);
    if DeviceOmitted(v) {
      assert [] + rest == rest;
    } else {
      ObjectFieldRead(3, v.device, rest);
    }
  }

  lemma DeviceConfused(b: seq<byte>, at: int, pos: int, target: ObjectRef, property: nat, index: nat,
                       v: PropertyRef, n: int)
    requires IsContextTag(From(b, pos), 3)
    ensures DecodeDevice(b, at, pos, target, property, index) != Done(v.(device := NO_DEV), n)
  {
    hide From, DecodeTagNumber, FromBigEndian, IsContextTag;
  }

  lemma EncodeRefParts(pre: seq<byte>, v: PropertyRef, rest: seq<byte>)
    ensures var f0, f1 := ObjectField(0, v.target), NumberField(1, v.property);
            var tail := IndexPart(v) + (DevicePart(v) + rest);
            && pre + (EncodeRef(v) + rest) == pre + (f0 + (f1 + tail)) == (pre + f0 + f1) + tail
            && pre + (EncodeRef(v) + rest) == (pre + f0 + f1 + IndexPart(v)) + (DevicePart(v) + rest)
            && |EncodeRef(v)| == |f0| + |f1| + |IndexPart(v)| + |DevicePart(v)|
  {
    hide ObjectField, NumberField, IndexPart, DevicePart;
  }

  /** Decoding an encoded reference, with anything before and after it, gives back the reference
      and its length exactly when its identifiers fit and what follows is not taken for a field
      that was left out. */
  lemma RefRoundTrip(pre: seq<byte>, v: PropertyRef, rest: seq<byte>)
    requires CTyped(v)
    ensures DecodeRef(pre + (EncodeRef(v) + rest), |pre|) == Done(Normalised(v), |EncodeRef(v)|)
            <==> Visible(v) && !Confusable(v, rest)
  {
    hide EncodeRef, ObjectField, NumberField, IndexPart, DevicePart, IsContextTag, DecodeRef, DecodeIndex, DecodeDevice;
    var f0, f1 := ObjectField(0, v.target), NumberField(1, v.property);
    var b, at, target := pre + (EncodeRef(v) + rest), |pre|, Masked(v.target);
    var tail := DevicePart(v) + rest;
    var p2 := pre + f0 + f1;
    EncodeRefParts(pre, v, rest);
    FrontDecodes(pre, v, IndexPart(v) + tail);
    OmittedParts(v, rest);
    FromAt(p2, IndexPart(v) + tail);
    if IndexOmitted(v) && IsContextTag(tail, 2) {
      IndexConfused(b, at, |p2|, target, v.property, Normalised(v));
    } else {
      IndexDecodes(p2, at, v, tail, target);
      var p3 := p2 + IndexPart(v);
      FromAt(p3, tail);
      if DeviceOmitted(v) && IsContextTag(rest, 3) {
        DeviceConfused(b, at, |p3|, target, v.property, v.index, Normalised(v), |EncodeRef(v)|);
      } else {
        DeviceDecodes(p3, at, v, rest, target);
      }
    }
  }

  lemma OmittedParts(v: PropertyRef, rest: seq<byte>)
    ensures IndexOmitted(v) ==> IndexPart(v) == [] && IndexPart(v) + (DevicePart(v) + rest) == DevicePart(v) + rest
    ensures DeviceOmitted(v) ==> DevicePart(v) == [] && DevicePart(v) + rest == rest
    ensures !DeviceOmitted(v) ==> !IsContextTag(DevicePart(v) + rest, 2)
  {
    hide IsContextTag;
    if !DeviceOmitted(v) { OtherTag(3, v.device, rest, 2); }
  }

  /** Every index below 0xFFFF_FFFF is sent, in a context field 2 of its own; 0xFFFF_FFFF is not, and is
      what an index that was not sent decodes to. A device that was not sent decodes to type 0xFFFF and
      instance 0xFFFF_FFFF. */
  lemma AbsentFields(pre: seq<byte>, v: PropertyRef, rest: seq<byte>)
    requires CTyped(v) && Visible(v) && !Confusable(v, rest)
    ensures v.index < 0xFFFF_FFFF ==> IsContextTag(IndexPart(v), 2) && GetNumber(IndexPart(v), 2).Field?
                                      && GetNumber(IndexPart(v), 2).value == v.index
    ensures v.index == 0xFFFF_FFFF ==> IndexPart(v) == []
    ensures v.device.type_ != 8 ==> DevicePart(v) == []
    ensures var r := DecodeRef(pre + (EncodeRef(v) + rest), |pre|);
            && r.Done? && r.len == |EncodeRef(v)|
            && r.value.target == v.target && r.value.property == v.property && r.value.index == v.index
            && r.value.device == if v.device.type_ == 8 then v.device else ObjectRef(0xFFFF, 0xFFFF_FFFF)
  {
    hide DecodeRef, EncodeRef, GetNumber, NumberField, ObjectField, IsContextTag;
    RefRoundTrip(pre, v, rest);
    if v.index < 0xFFFF_FFFF {
      NumberFieldRead(2, v.index, []);
      assert NumberField(2, v.index) + [] == NumberField(2, v.index);
    }
  }

  // ----------------------------------------------------------- in brackets

  lemma BracketNumbers(tag: byte, rest: seq<byte>)
    ensures DecodeTagNumber(OpeningTag(tag) + rest) == Some((tag, |OpeningTag(tag)|))
    ensures IsOpening((OpeningTag(tag) + rest)[0])
    ensures DecodeTagNumber(ClosingTag(tag) + rest) == Some((tag, |ClosingTag(tag)|))
    ensures IsClosing((ClosingTag(tag) + rest)[0]) && IsContext((ClosingTag(tag) + rest)[0])
    ensures |OpeningTag(tag)| == |ClosingTag(tag)| == if tag <= 14 then 1 else 2
  {
    BracketFields(tag, 6);
    BracketFields(tag, 7);
  }

  /** With a one-octet tag. */
  lemma ShortWrap(tag: byte, v: PropertyRef, rest: seq<byte>)
    requires CTyped(v) && tag <= 14
    ensures DecodeWrapped(EncodeWrapped(tag, v) + rest, tag) == Done(Normalised(v), |EncodeWrapped(tag, v)|)
            <==> Visible(v) && !(DeviceOmitted(v) && (tag == 3 || (tag == 2 && IndexOmitted(v))))
  {
    hide EncodeRef, OpeningTag, ClosingTag, DecodeRef, Visible, DecodeTagNumber;
    var o, e, c := OpeningTag(tag), EncodeRef(v), ClosingTag(tag);
    var b := EncodeWrapped(tag, v) + rest;
    assert b == o + (e + (c + rest)) == (o + e) + (c + rest);
    BracketNumbers(tag, e + (c + rest));
    BracketNumbers(tag, rest);
    RefRoundTrip(o, v, c + rest);
    FromAt(o + e, c + rest);
  }

  /** The second octet of a longer tag is read as the first field's header. */
  lemma LongWrap(tag: byte, v: PropertyRef, rest: seq<byte>)
    requires CTyped(v) && tag > 14
    ensures DecodeWrapped(EncodeWrapped(tag, v) + rest, tag) != Done(Normalised(v), |EncodeWrapped(tag, v)|)
    ensures tag > 15 ==> DecodeWrapped(EncodeWrapped(tag, v) + rest, tag) == Error
  {
    hide EncodeRef, ClosingTag, DecodeIndex, GetNumber;
    var o, e, c := OpeningTag(tag), EncodeRef(v), ClosingTag(tag);
    var b := EncodeWrapped(tag, v) + rest;
    assert b == o + (e + (c + rest));
    BracketNumbers(tag, e + (c + rest));
    FirstField(v);
    assert From(b, 1) == [tag] + (e + (c + rest));
    if tag == 15 {
      FifteenFails(e, c + rest, b, v);
    }
  }

  lemma FirstField(v: PropertyRef)
    ensures |EncodeRef(v)| >= 5 && EncodeRef(v)[0] == 12
    ensures EncodeRef(v)[1..5] == BigEndian(PackObjectId(v.target.type_, v.target.instance), 4)
  {
    hide BigEndian, NumberField, IndexPart, DevicePart, PackObjectId;
    assert TagHeader(0, true, 4) == [12];
  }

  /** Tag 15 reads as a context tag 0, so the identifier begins one octet early; it can only be the
      right one if all its octets are 12, and then the property field is refused. */
  lemma FifteenFails(e: seq<byte>, after: seq<byte>, b: seq<byte>, v: PropertyRef)
    requires CTyped(v) && |e| >= 5 && e[0] == 12
    requires e[1..5] == BigEndian(PackObjectId(v.target.type_, v.target.instance), 4)
    requires From(b, 1) == [15] + (e + after)
    ensures DecodeRef(b, 1).Done? ==> DecodeRef(b, 1).value != Normalised(v)
  {
    hide DecodeIndex, UnpackType, UnpackInstance, PackObjectId, FromBigEndian, BigEndian;
    var s := From(b, 1);
    var u := FromBigEndian(s[1..5]);
    assert s[1..5] == e[0..4];
    SmallPowers();
    FromBigEndianRoundTrip(e[0..4]);
    if v.target == ObjectRef(UnpackType(u), UnpackInstance(u)) {
      ObjectIdBijection(0, 0, u);
      assert e[1..5] == e[0..4];
      AllTwelve(e);
      assert From(b, 6) == s[5..] && s[5] == e[4];
    }
  }

  lemma AllTwelve(e: seq<byte>)
    requires |e| >= 5 && e[0] == 12 && e[1..5] == e[0..4]
    ensures e[4] == 12
  {
    assert e[1] == e[1..5][0] == e[0..4][0] == e[0];
    assert e[2] == e[1..5][1] == e[0..4][1] == e[1];
    assert e[3] == e[1..5][2] == e[0..4][2] == e[2];
    assert e[4] == e[1..5][3] == e[0..4][3] == e[3];
  }

  /** Exactly which references survive between which tags. */
  lemma WrappedRoundTrip(tag: byte, v: PropertyRef, rest: seq<byte>)
    requires CTyped(v)
    ensures DecodeWrapped(EncodeWrapped(tag, v) + rest, tag) == Done(Normalised(v), |EncodeWrapped(tag, v)|)
            <==> && Visible(v)
                 && tag <= 14
                 && !(tag == 2 && IndexOmitted(v) && DeviceOmitted(v))
                 && !(tag == 3 && DeviceOmitted(v))
  {
    hide EncodeWrapped, DecodeWrapped, Visible;
    if tag <= 14 { ShortWrap(tag, v, rest); } else { LongWrap(tag, v, rest); }
  }
}
