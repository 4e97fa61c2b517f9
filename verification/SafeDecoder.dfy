/** The resumable decoder over octets that may be cut short (bacapp_decode_application_data_safe). */
module SafeDecoder {
  import opened Words
  import opened Octets
  import opened Tags
  import opened Primitives
  import opened AppData

  /** What one successful call leaves in the caller's value. */
  datatype Item =
    | Got(value: Value)
    | Undecodable       // tag set to MAX_BACNET_APPLICATION_TAG
    | Tagged(tag: byte) // only the tag was set

  /** One call: what it answers and how many octets the cursor moves over. */
  datatype Call = Call(item: Option<Item>, moved: nat)

  /** One call on the octets `b` that remain. */
  function Next(b: seq<byte>): (r: Call)
    ensures r.moved <= |b|
    ensures r.item.Some? ==> r.moved > 0
  {
    if b == [] || IsContext(b[0]) then Call(None, 0)
    else
      var h := DecodeHeaderSafe(b);
      if h.length == 0 then Call(None, 0)
      else if h.tag != 1 && h.value > |b| - h.length then Call(None, h.length)
      else
        SafeValueBound(b);
        var p := b[h.length..];
        DataWithin(p, h.tag, h.value);
        match DecodeData(p, h.tag, h.value)
        case Good(v, n) => Call(Some(Got(v)), h.length + n % SPAN32)
        case Stale(n) => Call(Some(Tagged(h.tag)), h.length)
        case _ => Call(Some(Undecodable), h.length)
  }

  lemma SafeValueBound(b: seq<byte>)
    ensures DecodeHeaderSafe(b).value < SPAN32
  {
    var (tag, len) := DecodeTagNumberSafe(b);
    SmallPowers();
    if |b| - len >= 5 { FromBigEndianRoundTrip(b[len + 1..len + 5]); }
    if |b| - len >= 3 { FromBigEndianRoundTrip(b[len + 1..len + 3]); }
  }

  /** Contents that are all there are never read past. A length above 2^31 wraps to a negative
      int, and adding it to the unsigned cursor wraps back. */
  lemma DataWithin(b: seq<byte>, tag: byte, len: nat)
    requires len < SPAN32 && (tag == 1 || len <= |b|)
    ensures var d := DecodeData(b, tag, len);
            !d.Short? && (d.Good? ==> d.consumed % SPAN32 <= |b|)
  {
    hide FromBigEndian, DecodeUnsigned, DecodeSigned, ReverseAll, UnpackType, UnpackInstance, ToInt32;
    Wraps(len);
  }

  lemma Wraps(len: nat)
    requires len < SPAN32
    ensures ToInt32(len) % SPAN32 == len
  {
  }

  /** The static cursor. */
  class Decoder {
    var apdu: array?<byte>
    var remaining: nat
    var consumed: nat

    ghost predicate Valid() reads this
    {
      && (apdu == null ==> remaining == 0)
      && (apdu != null ==> consumed + remaining <= apdu.Length)
      && consumed + remaining < SPAN32
    }

    /** The octets still to be decoded. */
    ghost function Rest(): seq<byte>
      requires Valid()
      reads this, apdu
    {
      if apdu == null then [] else apdu[consumed..consumed + remaining]
    }

    constructor ()
      ensures Valid() && apdu == null && Rest() == [] && consumed == 0
    {
      apdu, remaining, consumed := null, 0, 0;
    }

    /** One call; a null `newApdu` goes on with the octets given before. */
    method Decode(newApdu: array?<byte>, newLength: nat) returns (item: Option<Item>)
      requires Valid()
      requires newApdu != null ==> newLength <= newApdu.Length && newLength < SPAN32
      modifies this
      ensures Valid()
      ensures var b := if newApdu != null then newApdu[..newLength] else old(Rest());
              && item == Next(b).item
              && Rest() == b[Next(b).moved..]
              && consumed + remaining == if newApdu != null then newLength else old(consumed + remaining)
      ensures apdu == if newApdu != null then newApdu else old(apdu)
    {
      hide DecodeHeaderSafe, DecodeData, ToInt32;
      item := None;
      if newApdu != null {
        apdu, remaining, consumed := newApdu, newLength, 0;
      }
      ghost var b := Rest();
      if remaining > 0 && !IsContext(apdu[consumed]) {
        assert b[0] == apdu[consumed];
        var h := DecodeHeaderSafe(apdu[consumed..consumed + remaining]);
        if h.length != 0 {
          consumed := consumed + h.length;
          remaining := remaining - h.length;
          assert Rest() == b[h.length..];
          if h.tag == 1 || h.value <= remaining {
            item := DecodeContents(h, b);
          }
        }
      }
    }

    /** The rest of a call, once the cursor is past a header whose contents are all there. */
    method DecodeContents(h: Header, ghost b: seq<byte>) returns (item: Option<Item>)
      requires Valid() && apdu != null
      requires b != [] && !IsContext(b[0]) && h == DecodeHeaderSafe(b) && h.length != 0
      requires h.tag == 1 || h.value <= remaining
      requires Rest() == b[h.length..]
      modifies this`consumed, this`remaining
      ensures Valid() && item == Next(b).item && Rest() == b[Next(b).moved..]
      ensures consumed + remaining == old(consumed + remaining)
    {
      hide DecodeHeaderSafe, DecodeData, ToInt32;
      SafeValueBound(b);
      ghost var p := Rest();
      DataWithin(p, h.tag, h.value);
      var len := 0;
      match DecodeData(apdu[consumed..consumed + remaining], h.tag, h.value) {
        case Good(v, n) => item, len := Some(Got(v)), n;
        case Stale(n) => item := Some(Tagged(h.tag));
        case _ => item := Some(Undecodable);
      }
      ghost var moved := len % SPAN32;
      assert Next(b) == Call(item, h.length + moved);
      assert b[h.length + moved..] == p[moved..];
      consumed, remaining := Advance(consumed, remaining, len);
      assert Rest() == p[moved..];
    }
  }

  /** The unsigned cursor moved by a signed length. */
  method Advance(consumed: nat, remaining: nat, len: int) returns (c: nat, r: nat)
    requires consumed + remaining < SPAN32 && len % SPAN32 <= remaining
    ensures c == consumed + len % SPAN32 && r == remaining - len % SPAN32
  {
    c := (consumed + len) % SPAN32;
    r := (remaining - len) % SPAN32;
  }

  /** A call on octets whose primitive tag is whole and whose contents are all there answers true: with the
      value, passing its contents, if they decode; else with the tag set to none or, for an octet string
      there is no room for, with the tag alone, and then the contents are left to be read as a tag. */
  lemma CallAnswers(b: seq<byte>, h: Header)
    requires b != [] && !IsContext(b[0]) && DecodeHeader(b) == Some(h)
    requires h.tag == 1 || h.length + h.value <= |b|
    ensures var c := Next(b);
            match DecodeData(b[h.length..], h.tag, h.value)
            case Good(v, n) => c.item == Some(Got(v)) && (0 <= n < SPAN32 ==> c.moved == h.length + n)
            case Stale(_) => c == Call(Some(Tagged(h.tag)), h.length)
            case Unable(_) => c == Call(Some(Undecodable), h.length)
            case Short => false
  {
    hide DecodeHeader, DecodeHeaderSafe, DecodeData;
    SafeAgrees(b);
    DataWithin(b[h.length..], h.tag, h.value);
  }

  // -------------------------------------------------------------- all calls

  /** The items of successive calls up to the first that answers false, and what it leaves. */
  function Drain(b: seq<byte>): (r: (seq<Item>, seq<byte>))
    decreases |b|
  {
    var c := Next(b);
    match c.item
    case None => ([], b[c.moved..])
    case Some(i) => var r := Drain(b[c.moved..]); ([i] + r.0, r.1)
  }

  predicate AllRepresentable(vs: seq<Value>) { forall k :: 0 <= k < |vs| ==> Representable(vs[k]) }

  /** Values encoded one after the other. */
  function EncodeAll(vs: seq<Value>): seq<byte>
    requires AllRepresentable(vs)
  {
    if vs == [] then [] else Encode(vs[0]) + EncodeAll(vs[1..])
  }

  /** How many of the values lie wholly within the first `k` octets. */
  function Whole(vs: seq<Value>, k: nat): (n: nat)
    requires AllRepresentable(vs)
    ensures n <= |vs|
  {
    if vs == [] || |Encode(vs[0])| > k then 0 else 1 + Whole(vs[1..], k - |Encode(vs[0])|)
  }

  /** Whole is the longest prefix whose encoding fits in `k` octets. */
  lemma {:induction false} WholeIsMaximal(vs: seq<Value>, k: nat, m: nat)
    requires AllRepresentable(vs) && m <= |vs|
    ensures m <= Whole(vs, k) <==> |EncodeAll(vs[..m])| <= k
    decreases |vs|
  {
    if m > 0 {
      assert vs[..m][1..] == vs[1..][..m - 1];
      if |Encode(vs[0])| <= k { WholeIsMaximal(vs[1..], k - |Encode(vs[0])|, m - 1); }
    }
  }

  function Gotten(vs: seq<Value>): (r: seq<Item>)
    ensures |r| == |vs| && forall k :: 0 <= k < |vs| ==> r[k] == Got(vs[k])
  {
    if vs == [] then [] else [Got(vs[0])] + Gotten(vs[1..])
  }

  /** The parts of an encoding. */
  lemma EncodingParts(v: Value)
    requires Representable(v)
    ensures Field(v) < SPAN32 && Encode(v) == TagHeader(TagOf(v), false, Field(v)) + Payload(v)
    ensures v.Boolean? ==> TagOf(v) == 1 && Payload(v) == []
    ensures !v.Boolean? ==> TagOf(v) != 1 && Field(v) == |Payload(v)|
    ensures TagOf(v) <= 12
  {
    FieldIsLength(v);
  }

  lemma WholeValueNext(v: Value, rest: seq<byte>)
    requires Representable(v)
    ensures Next(Encode(v) + rest) == Call(Some(Got(v)), |Encode(v)|)
  {
    hide DecodeHeaderSafe, DecodeHeader, DecodeData, Payload, TagHeader, TagOf, Encode, Field;
    var h := TagHeader(TagOf(v), false, Field(v));
    var b := Encode(v) + rest;
    EncodingParts(v);
    assert b == h + (Payload(v) + rest);
    assert b[|h|..] == Payload(v) + rest;
    HeaderRoundTrip(TagOf(v), false, Field(v), Payload(v) + rest);
    SafeAgrees(b);
    DataRoundTrip(v, rest);
    SmallLength(v);
    assert TagOf(v) == 1 || Field(v) <= |b| - |h|;
  }

  lemma SmallLength(v: Value)
    requires Representable(v)
    ensures |Payload(v)| % SPAN32 == |Payload(v)|
  {
  }

  /** A value cut short answers false; the cursor stays if not even the tag is whole, and otherwise
      moves past the tag, to the contents there are. */
  lemma CutValueNext(v: Value, k: nat)
    requires Representable(v) && k < |Encode(v)|
    ensures var n := |TagHeader(TagOf(v), false, Field(v))|;
            Next(Encode(v)[..k]) == Call(None, if k < n then 0 else n)
  {
    hide DecodeHeaderSafe, DecodeHeader, DecodeData, Payload, TagHeader, TagOf, Encode, Field;
    var h := TagHeader(TagOf(v), false, Field(v));
    EncodingParts(v);
    var b := Encode(v)[..k];
    if k < |h| {
      assert b == h[..k];
      TruncationNoticed(TagOf(v), false, Field(v), k);
    } else {
      var p := Payload(v)[..k - |h|];
      assert b == h + p;
      HeaderRoundTrip(TagOf(v), false, Field(v), p);
      SafeAgrees(b);
    }
  }

  /** Any truncation of encoded values decodes to exactly the values it wholly contains, and the
      call after those answers false. */
  lemma {:induction false} TruncationYieldsWholeValues(vs: seq<Value>, k: nat)
    requires AllRepresentable(vs) && k <= |EncodeAll(vs)|
    ensures Drain(EncodeAll(vs)[..k]).0 == Gotten(vs[..Whole(vs, k)])
    decreases |vs|
  {
    hide Next, Encode;
    var b := EncodeAll(vs)[..k];
    if vs == [] {
      assert b == [];
      NothingLeft();
    } else {
      var e := Encode(vs[0]);
      if |e| > k {
        assert b == e[..k];
        CutValueNext(vs[0], k);
      } else {
        var tail := EncodeAll(vs[1..])[..k - |e|];
        assert b == e + tail && b[|e|..] == tail;
        WholeValueNext(vs[0], tail);
        TruncationYieldsWholeValues(vs[1..], k - |e|);
        assert vs[..Whole(vs, k)][1..] == vs[1..][..Whole(vs[1..], k - |e|)];
      }
    }
  }

  lemma NothingLeft()
    ensures Next([]) == Call(None, 0)
  {
  }

  /** The octets start with the tag of a primitive and hold all it announces; a lone octet that
      announces a further tag octet and no contents is taken for a whole one. */
  predicate StartsValue(p: seq<byte>)
  {
    p != [] && !IsContext(p[0]) &&
    match DecodeHeader(p)
    case Some(h) => h.tag == 1 || h.length + h.value <= |p|
    case None => |p| == 1 && IsExtendedTag(p[0]) && p[0] % 8 in {0, 6, 7}
  }

  /** A call answers true exactly on such octets, be they a value's or not. */
  lemma TrueOnStartedValue(p: seq<byte>)
    ensures Next(p).item.Some? <==> StartsValue(p)
  {
    hide DecodeData, DecodeHeader, DecodeHeaderSafe;
    if p != [] && !IsContext(p[0]) {
      if DecodeHeader(p).Some? {
        SafeAgrees(p);
      } else {
        LoneTagOctet(p);
      }
    }
  }

  lemma LoneTagOctet(p: seq<byte>)
    requires p != [] && DecodeHeader(p).None?
    ensures var h := DecodeHeaderSafe(p);
            h.length != 0 <==> |p| == 1 && IsExtendedTag(p[0]) && !IsExtendedValue(p[0])
    ensures var h := DecodeHeaderSafe(p);
            h.length != 0 ==> h == Header(15, if IsOpening(p[0]) || IsClosing(p[0]) then 0 else p[0] % 8, 1)
  {
  }

  /** False is not final: the call after a value cut short reads what contents there are as a tag, and
      answers true exactly when they start a value themselves. */
  lemma SecondCallAfterCut(v: Value, k: nat)
    requires Representable(v) && k < |Encode(v)|
    ensures var b, n := Encode(v)[..k], |TagHeader(TagOf(v), false, Field(v))|;
            var again := b[Next(b).moved..];
            && again == (if k < n then b else Payload(v)[..k - n])
            && (Next(again).item.Some? <==> k >= n && StartsValue(Payload(v)[..k - n]))
  {
    hide Payload, TagHeader, TagOf, Encode, Field, Next, StartsValue;
    var b, h := Encode(v)[..k], TagHeader(TagOf(v), false, Field(v));
    EncodingParts(v);
    CutValueNext(v, k);
    if k < |h| {
      assert b[0..] == b;
    } else {
      var p := Payload(v)[..k - |h|];
      assert b == h + p;
      TrueOnStartedValue(p);
    }
  }

  /** Such a value: two octets whose first reads as a null. */
  lemma FalseMayBeFollowedByTrue()
    ensures var v := OctetString([0, 7]);
            && Representable(v)
            && Next(Encode(v)[..2]) == Call(None, 1)
            && Next(Encode(v)[..2][1..]) == Call(Some(Got(Null)), 1)
  {
    var v := OctetString([0, 7]);
    assert TagHeader(6, false, 2) == [0x62];
    assert Encode(v) == [0x62, 0, 7];
    assert Encode(v)[..2] == [0x62, 0] && Encode(v)[..2][1..] == [0];
  }
}
