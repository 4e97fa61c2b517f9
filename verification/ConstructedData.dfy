/** Which context elements bacapp_data_len skips by the length they announce, and that it measures a
    written object property reference exactly (bacapp.c:388-446, 550-700, 905-967; wp.c:140-144). */
module ConstructedData {
  import opened Words
  import opened Octets
  import opened Tags
  import opened Primitives
  import opened DataLength
  import PropertyReference

  /** The context elements typed Boolean: two of an action command, one of a COV subscription. */
  predicate BooleanTag(property: int, tag: byte)
  {
    (property == 2 && (tag == 7 || tag == 8)) || (property == 152 && tag == 2)
  }

  /** Every other context element is skipped by the length it announces, of a Boolean only the header is. */
  lemma ContextSkipped(property: int, tag: byte, v: nat)
    ensures SkipContext(property, tag, v) == if BooleanTag(property, tag) then 0 else v
    ensures ContextType(property, tag) == 1 <==> BooleanTag(property, tag)
  {
  }

  /** An application element is skipped by its length, but for Null and Boolean, whose field is a value. */
  lemma ApplicationSkipped(tag: byte, v: nat)
    requires tag <= 12
    ensures SkipData(tag, v) == if tag <= 1 then 0 else v
  {
  }

  /** Elements as the standard has them, no table of the code consulted: every context element is as long
      as it says, and the one octet of a Boolean is 0 or 1. */
  predicate Standard(e: Elements, property: int)
  {
    match e
    case End => true
    case Leaf(context, tag, field, contents, next) =>
      && |contents| < 0x7FFF_FF00
      && (if context then field == |contents| && (BooleanTag(property, tag) ==> contents == [0] || contents == [1])
          else tag <= 12 && if tag <= 1 then field <= 1 && contents == [] else field == |contents|)
      && Standard(next, property)
    case Constructed(_, inside, next) => Standard(inside, property) && Standard(next, property)
  }

  lemma {:induction false} StandardIsLegal(e: Elements, property: int, outer: byte)
    requires Standard(e, property)
    ensures Legal(e, property, outer)
  {
    hide ContextType;
    match e
    case End =>
    case Leaf(_, tag, _, _, next) =>
      ContextSkipped(property, tag, 0);
      StandardIsLegal(next, property, outer);
    case Constructed(_, inside, next) =>
      StandardIsLegal(inside, property, outer);
      StandardIsLegal(next, property, outer);
  }

  /** They are measured exactly, unless more than 255 brackets of the outer number are open at once. */
  lemma StandardMeasured(tag: byte, e: Elements, rest: seq<byte>, property: int, max: nat)
    requires Standard(e, property) && max < INT_SPAN && 1 + Nesting(e, tag) <= 255
    requires |Bracketed(tag, EncodeElements(e)) + rest| >= max + 9
    ensures var i := EncodeElements(e);
            DataLen(Bracketed(tag, i) + rest, property, max) == if |Bracketed(tag, i)| <= max then |i| else -1
  {
    hide Bracketed, EncodeElements, DataLen, Legal;
    StandardIsLegal(e, property, tag);
    DataLengthExact(tag, e, rest, property, max);
  }

  /** What does not start with an opening tag has no length. */
  lemma NotOpening(b: seq<byte>, property: int, max: nat)
    requires max < INT_SPAN && |b| >= max + 9
    ensures b[0] % 8 != 6 ==> DataLen(b, property, max) == 0
  {
    hide Scan, DecodeHeader;
  }

  // --------------------------------------------------- property references

  function ObjectLeaf(tag: byte, o: PropertyReference.ObjectRef, next: Elements): Elements
  {
    Leaf(true, tag, 4, BigEndian(PackObjectId(o.type_, o.instance), 4), next)
  }

  function NumberLeaf(tag: byte, u: nat, next: Elements): Elements
    requires u < SPAN32
  {
    Leaf(true, tag, UnsignedLength(u), EncodeUnsigned(u), next)
  }

  /** The fields of a reference: object 0, property 1, index 2 unless it is 0xFFFF_FFFF, device 3 if its
      type is that of a device, 8. */
  function RefElements(v: PropertyReference.PropertyRef): Elements
    requires PropertyReference.CTyped(v)
  {
    var device := if v.device.type_ == 8 then ObjectLeaf(3, v.device, End) else End;
    var index := if v.index == 0xFFFF_FFFF then device else NumberLeaf(2, v.index, device);
    ObjectLeaf(0, v.target, NumberLeaf(1, v.property, index))
  }

  lemma ObjectLeafOctets(tag: byte, o: PropertyReference.ObjectRef, next: Elements)
    ensures EncodeElements(ObjectLeaf(tag, o, next)) == PropertyReference.ObjectField(tag, o) + EncodeElements(next)
  {
  }

  lemma NumberLeafOctets(tag: byte, u: nat, next: Elements)
    requires u < SPAN32
    ensures EncodeElements(NumberLeaf(tag, u, next)) == PropertyReference.NumberField(tag, u) + EncodeElements(next)
  {
  }

  /** They are what is written of it. */
  lemma RefIsElements(v: PropertyReference.PropertyRef)
    requires PropertyReference.CTyped(v)
    ensures EncodeElements(RefElements(v)) == PropertyReference.EncodeRef(v)
  {
    hide EncodeElements, PropertyReference.ObjectField, PropertyReference.NumberField, ObjectLeaf, NumberLeaf;
    var device := if v.device.type_ == 8 then ObjectLeaf(3, v.device, End) else End;
    var index := if v.index == 0xFFFF_FFFF then device else NumberLeaf(2, v.index, device);
    NothingEncoded();
    if v.device.type_ == 8 { ObjectLeafOctets(3, v.device, End); }
    if v.index != 0xFFFF_FFFF { NumberLeafOctets(2, v.index, device); }
    NumberLeafOctets(1, v.property, index);
    ObjectLeafOctets(0, v.target, NumberLeaf(1, v.property, index));
    assert EncodeElements(index) == PropertyReference.IndexPart(v) + PropertyReference.DevicePart(v);
  }

  lemma NothingEncoded()
    ensures EncodeElements(End) == []
  {
  }

  /** A reference written between brackets is measured exactly, whatever follows it, for the log device
      object property and every other property but the one that types tag 2 Boolean. */
  lemma ReferenceMeasured(tag: byte, v: PropertyReference.PropertyRef, rest: seq<byte>, property: int, max: nat)
    requires PropertyReference.CTyped(v) && property != 152 && max < INT_SPAN
    requires |PropertyReference.EncodeWrapped(tag, v) + rest| >= max + 9
    ensures DataLen(PropertyReference.EncodeWrapped(tag, v) + rest, property, max)
            == if |PropertyReference.EncodeWrapped(tag, v)| <= max then |PropertyReference.EncodeRef(v)| else -1
  {
    hide DataLen, EncodeElements, PropertyReference.EncodeRef, RefElements;
    RefIsElements(v);
    RefIsStandard(v, property, tag);
    StandardMeasured(tag, RefElements(v), rest, property, max);
  }

  lemma RefIsStandard(v: PropertyReference.PropertyRef, property: int, tag: byte)
    requires PropertyReference.CTyped(v) && property != 152
    ensures Standard(RefElements(v), property) && Nesting(RefElements(v), tag) == 0
  {
    hide Standard, Nesting, ObjectLeaf, NumberLeaf;
    var device := if v.device.type_ == 8 then ObjectLeaf(3, v.device, End) else End;
    var index := if v.index == 0xFFFF_FFFF then device else NumberLeaf(2, v.index, device);
    FieldIsStandard(3, v.device, 0, End, property, tag);
    FieldIsStandard(2, v.device, v.index, device, property, tag);
    FieldIsStandard(1, v.device, v.property, index, property, tag);
    FieldIsStandard(0, v.target, 0, NumberLeaf(1, v.property, index), property, tag);
  }

  lemma FieldIsStandard(n: byte, o: PropertyReference.ObjectRef, u: nat, next: Elements, property: int, tag: byte)
    requires u < SPAN32 && n <= 3 && property != 152
    ensures Standard(End, property) && Nesting(End, tag) == 0
    ensures Standard(next, property) ==>
              Standard(ObjectLeaf(n, o, next), property) && Standard(NumberLeaf(n, u, next), property)
    ensures Nesting(ObjectLeaf(n, o, next), tag) == Nesting(NumberLeaf(n, u, next), tag) == Nesting(next, tag)
  {
    hide BigEndian, PackObjectId;
    UnsignedOctets(u);
  }

  lemma UnsignedOctets(u: nat)
    requires u < SPAN32
    ensures |EncodeUnsigned(u)| == UnsignedLength(u) <= 4
  {
  }
}
