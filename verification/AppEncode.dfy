/** bacapp_encode_application_data writing into the buffer, in the order the C code writes:
    most encoders put the contents first, at the offset where they assume the header ends. */
module AppEncode {
  import opened Words
  import opened Octets
  import opened Tags
  import opened Primitives
  import opened AppData

  /** Header lengths the encoders assume. */
  lemma AssumedHeaders(tag: byte, n: nat)
    requires tag <= 14
    ensures n <= 4 ==> |TagHeader(tag, false, n)| == 1
    ensures 4 < n <= 253 ==> |TagHeader(tag, false, n)| == 2
  {
  }

  method PutBits(apdu: array<byte>, at: nat, used: nat, octets: seq<byte>) returns (len: nat)
    requires |octets| == BytesUsed(used) && at + 1 + |octets| <= apdu.Length
    modifies apdu
    ensures len == |BitPayload(used, octets)| && apdu[..] == Overwrite(old(apdu[..]), at, BitPayload(used, octets))
  {
    hide Overwrite, ReverseBits;
    ghost var s := apdu[..];
    len := 1;
    if used == 0 {
      PutOctet(apdu, at, 0);
      return;
    }
    ghost var first := BitPayload(used, octets)[0];
    PutOctet(apdu, at, 8 - (used - (BytesUsed(used) - 1) * 8));
    ghost var s1 := apdu[..];
    NothingOverwritten(s1, at + 1);
    for i := 0 to |octets|
      invariant len == 1 + i
      invariant apdu[..] == Overwrite(s1, at + 1, ReverseAll(octets[..i]))
    {
      ReverseAllSnoc(octets, i);
      PutOctet(apdu, at + len, ReverseBits(octets[i]));
      OverwriteOn(s1, at + 1, ReverseAll(octets[..i]), [ReverseBits(octets[i])]);
      len := len + 1;
    }

    assert octets[..|octets|] == octets;
    OverwriteOn(s, at, [first], ReverseAll(octets));
  }

  lemma NothingOverwritten(s: seq<byte>, at: nat)
    requires at <= |s|
    ensures Overwrite(s, at, ReverseAll([])) == s
  {
  }

  lemma {:induction false} ReverseAllSnoc(bs: seq<byte>, i: nat)
    requires i < |bs|
    ensures ReverseAll(bs[..i + 1]) == ReverseAll(bs[..i]) + [ReverseBits(bs[i])]
  {
    if i > 0 {
      ReverseAllSnoc(bs[1..], i - 1);
      assert bs[..i + 1][1..] == bs[1..][..i] && bs[..i][1..] == bs[1..][..i - 1];
    }
  }

  /** Contents first at `at + skip`, then the header before them. */
  method PutHeaderBefore(apdu: array<byte>, at: nat, v: Value, skip: nat, len0: nat, ghost s: seq<byte>)
      returns (len: nat)
    requires CTyped(v) && !BadDate(v) && !v.Boolean? && len0 == |Payload(v)|
    requires at + |Written(v)| <= apdu.Length == |s|
    requires skip == |TagHeader(TagOf(v), false, len0)|
    requires apdu[..] == Overwrite(s, at + skip, Payload(v))
    modifies apdu
    ensures len == |Written(v)| && apdu[..] == Overwrite(s, at, Written(v))
  {
    hide Overwrite, Payload, TagHeader;
    var n := EncodeTag(apdu, at, TagOf(v), false, len0);
    OverwriteOn(s, at, TagHeader(TagOf(v), false, len0), Payload(v));
    len := len0 + n;
  }

  method EncodeScalar(apdu: array<byte>, at: nat, v: Value) returns (len: nat)
    requires CTyped(v) && (v.Unsigned? || v.Signed? || v.Real? || v.Double? || v.Enumerated? || v.Time? || v.ObjectId?)
    requires at + |Written(v)| <= apdu.Length
    modifies apdu
    ensures len == |Written(v)| && apdu[..] == Overwrite(old(apdu[..]), at, Written(v))
  {
    hide Overwrite, TagHeader, EncodeUnsigned, EncodeSigned;
    ghost var s := apdu[..];
    AssumedHeaders(TagOf(v), |Payload(v)|);
    var skip := if v.Double? then 2 else 1;
    match v {
      case Unsigned(u) => len := PutUnsigned(apdu, at + 1, u);
      case Signed(i) => len := PutSigned(apdu, at + 1, i);
      case Enumerated(u) => len := PutUnsigned(apdu, at + 1, u);
      case Real(o) => PutOctets(apdu, at + 1, o); len := 4;
      case Double(o) => PutOctets(apdu, at + 2, o); len := 8;
      case Time(h, m, sec, c) => PutOctets(apdu, at + 1, [h, m, sec, c]); len := 4;
      case ObjectId(t, i) => len := EncodeUnsigned32(apdu, at + 1, PackObjectId(t, i));
    }
    len := PutHeaderBefore(apdu, at, v, skip, len, s);
  }

  method EncodeDate(apdu: array<byte>, at: nat, v: Value) returns (len: nat)
    requires CTyped(v) && v.Date? && at + |Written(v)| <= apdu.Length
    modifies apdu
    ensures len == EncodedLength(v) && apdu[..] == Overwrite(old(apdu[..]), at, Written(v))
  {
    hide Overwrite, TagHeader;
    ghost var s := apdu[..];
    AssumedHeaders(10, 4);
    if v.year >= 1900 {
      PutOctets(apdu, at + 1, [(v.year - 1900) % 256, v.month, v.day, v.wday]);
      len := PutHeaderBefore(apdu, at, v, 1, 4, s);
    } else if v.year < 0x100 {
      PutOctets(apdu, at + 1, [v.year, v.month, v.day, v.wday]);
      len := PutHeaderBefore(apdu, at, v, 1, 4, s);
    } else {
      // the error answer -1 is taken for a length
      var n := EncodeTag(apdu, at, 10, false, SPAN32 - 1);
      assert Written(v) == TagHeader(10, false, SPAN32 - 1);
      len := n - 1;
    }
  }

  method EncodeString(apdu: array<byte>, at: nat, v: Value) returns (len: nat)
    requires CTyped(v) && (v.OctetString? || v.CharacterString? || v.BitString?)
    requires at + |Written(v)| <= apdu.Length
    modifies apdu
    ensures len == |Written(v)| && apdu[..] == Overwrite(old(apdu[..]), at, Written(v))
  {
    hide Overwrite, TagHeader;
    ghost var s := apdu[..];
    var n := EncodeTag(apdu, at, TagOf(v), false, |Payload(v)|);
    var total: int := n;
    ghost var h := TagHeader(TagOf(v), false, |Payload(v)|);
    StringsFit(v);
    match v {
      case OctetString(o) =>
        if n + |o| < MAX_APDU {
          PutOctets(apdu, at + n, o);
          total := n + |o|;
        } else {
          total := 0;
        }
      case CharacterString(e, o) =>
        if n + |o| + 1 < MAX_APDU {
          PutOctets(apdu, at + n, [e] + o);
          total := n + |o| + 1;
        } else {
          total := 0;
        }
      case BitString(used, o) =>
        var m := PutBits(apdu, at + n, used, o);
        total := n + m;
    }
    OverwriteOn(s, at, h, Payload(v));
    len := total;
  }

  /** A string the C types hold always passes the encoder's own size test. */
  lemma StringsFit(v: Value)
    requires CTyped(v) && (v.OctetString? || v.CharacterString?|| v.BitString?)
    ensures !v.BitString? ==> |TagHeader(TagOf(v), false, |Payload(v)|)| + |Payload(v)| < MAX_APDU
  {
    var n := |Payload(v)|;
    if n > 253 { assert n <= 65535 && |LengthExtension(n)| == 3; }
  }

  /** bacapp_encode_application_data. */
  method EncodeApplicationData(apdu: array<byte>, at: nat, v: Value) returns (len: nat)
    requires CTyped(v) && at + |Written(v)| <= apdu.Length
    modifies apdu
    ensures len == EncodedLength(v) && apdu[..] == Overwrite(old(apdu[..]), at, Written(v))
    ensures apdu[at..at + len] == Encode(v)
  {
    hide TagHeader;
    match v {
      case Null =>
        assert Written(v) == [0] by { NullHeader(); }
        PutOctet(apdu, at, 0);
        len := 1;
      case Boolean(b) =>
        len := EncodeTag(apdu, at, 1, false, if b then 1 else 0);
        assert Written(v) == TagHeader(1, false, if b then 1 else 0);
      case Date(_, _, _, _) => len := EncodeDate(apdu, at, v);
      case OctetString(_) => len := EncodeString(apdu, at, v);
      case CharacterString(_, _) => len := EncodeString(apdu, at, v);
      case BitString(_, _) => len := EncodeString(apdu, at, v);
      case _ => len := EncodeScalar(apdu, at, v);
    }
    OverwrittenFront(old(apdu[..]), at, Written(v), len);
  }

  lemma NullHeader()
    ensures TagHeader(0, false, 0) == [0]
  {
  }

  lemma OverwrittenFront(s: seq<byte>, at: nat, bs: seq<byte>, n: nat)
    requires at + |bs| <= |s| && n <= |bs|
    ensures Overwrite(s, at, bs)[at..at + n] == bs[..n]
  {
  }
}
