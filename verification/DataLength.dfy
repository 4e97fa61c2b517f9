/** The length of constructed data between an opening tag and its closing tag
    (bacapp_data_len and the skippers it calls; section 20.2.1.3.2 of ANSI/ASHRAE 135). */
module DataLength {
  import opened Words
  import opened Octets
  import opened Tags
  import opened Primitives
  import opened AppData

  const PROP_ACTION := 2
  const PROP_EXCEPTION_SCHEDULE := 38
  const PROP_LIST_OF_GROUP_MEMBERS := 53
  const PROP_RECIPIENT_LIST := 102
  const PROP_LOG_DEVICE_OBJECT_PROPERTY := 132
  const PROP_ACTIVE_COV_SUBSCRIPTIONS := 152
  const PROP_SUBORDINATE_LIST := 211
  const PROP_ACTUAL_SHED_LEVEL := 212
  const PROP_EXPECTED_SHED_LEVEL := 214
  const PROP_REQUESTED_SHED_LEVEL := 218

  const INT_SPAN := 0x8000_0000

  /** bacapp_context_tag_type: the application type of a context tag, or MAX_TAG. */
  function ContextType(property: int, tag: byte): (t: byte)
    ensures 1 <= t <= 12 || t == MAX_TAG
  {
    if property == PROP_ACTUAL_SHED_LEVEL || property == PROP_REQUESTED_SHED_LEVEL
       || property == PROP_EXPECTED_SHED_LEVEL
    then (if tag <= 1 then 2 else if tag == 2 then 4 else MAX_TAG)
    else if property == PROP_ACTION
    then (if tag <= 1 then 12 else if tag == 2 then 9 else if tag == 3 || tag == 5 || tag == 6 then 2
          else if tag == 7 || tag == 8 then 1 else MAX_TAG)
    else if property == PROP_LIST_OF_GROUP_MEMBERS || property == PROP_RECIPIENT_LIST
    then (if tag == 0 then 12 else MAX_TAG)
    else if property == PROP_EXCEPTION_SCHEDULE
    then (if tag == 1 then 12 else if tag == 3 then 2 else MAX_TAG)
    else if property == PROP_LOG_DEVICE_OBJECT_PROPERTY
    then (if tag == 0 || tag == 3 then 12 else if tag == 1 then 9 else if tag == 2 then 2 else MAX_TAG)
    else if property == PROP_SUBORDINATE_LIST
    then (if tag <= 1 then 12 else MAX_TAG)
    else if property == PROP_ACTIVE_COV_SUBSCRIPTIONS
    then (if tag == 2 then 1 else if tag == 3 then 2 else if tag == 4 then 4 else MAX_TAG)
    else MAX_TAG
  }

  /** bacapp_decode_data_len. */
  function SkipData(type_: byte, v: nat): nat { if 2 <= type_ <= 12 then v else 0 }

  /** bacapp_decode_context_data_len: an unknown type is skipped by its length. */
  function SkipContext(property: int, tag: byte, v: nat): nat
  {
    var t := ContextType(property, tag);
    if t < MAX_TAG then SkipData(t, v) else v
  }

  // --------------------------------------------------------------- the scan

  datatype Step = Open(tag: byte, n: int) | Close(tag: byte, n: int) | Skip(n: int)

  lemma SevenOctetsSuffice(b: seq<byte>)
    requires |b| >= 7
    ensures DecodeHeader(b).Some?
  {
  }

  /** What one turn of the loop sees at the front of memory `b`. */
  function StepOf(b: seq<byte>, property: int): (s: Step)
    requires |b| >= 7
    ensures s.n < INT_SPAN && (!s.Skip? ==> s.n > 0)
  {
    SevenOctetsSuffice(b);
    var h := DecodeHeader(b).value;
    if IsOpening(b[0]) then Open(h.tag, h.length)
    else if IsClosing(b[0]) then Close(h.tag, h.length)
    else if IsContext(b[0]) then Skip(ToInt32(h.length + SkipContext(property, h.tag, h.value)))
    else Skip(ToInt32(h.length + SkipData(h.tag, h.value)))
  }

  /** The eight-bit count of opening tags numbered like the first. */
  function Count(s: Step, outer: byte, counter: byte): byte
  {
    if s.Open? && s.tag == outer then (counter + 1) % 256
    else if s.Close? && s.tag == outer then (counter - 1) % 256
    else counter
  }

  /** The loop from memory `b` at offset `at`. */
  function Scan(b: seq<byte>, at: nat, total: nat, counter: byte, outer: byte, property: int, max: nat): int
    requires counter != 0 && total <= at && (at <= max || at <= 2) && max < INT_SPAN && |b| + at >= max + 9
    decreases max + 2 - at
  {
    var s := StepOf(b, property);
    var counter' := Count(s, outer, counter);
    var at' := ToInt32(at + s.n);
    if counter' != 0 && s.n <= 0 then -1
    else if at' < 0 || at' > max then -1
    else if counter' == 0 then total
    else Scan(b[s.n..], at', total + s.n, counter', outer, property, max)
  }

  function DataLen(b: seq<byte>, property: int, max: nat): int
    requires max < INT_SPAN && |b| >= max + 9
  {
    SevenOctetsSuffice(b);
    var h := DecodeHeader(b).value;
    if IsOpening(b[0]) then
      OpeningLength(b);
      Scan(b[h.length..], h.length, 0, 1, h.tag, property, max)
    else 0
  }

  lemma OpeningLength(b: seq<byte>)
    requires |b| >= 7 && (IsOpening(b[0]) || IsClosing(b[0]))
    ensures DecodeHeader(b).Some? && DecodeHeader(b).value.length <= 2
  {
  }

  /** One turn, on the memory `m` as a whole. */
  lemma ScanTurn(m: seq<byte>, at: nat, total: nat, counter: byte, outer: byte, property: int, max: nat)
    requires counter != 0 && total <= at && (at <= max || at <= 2) && max < INT_SPAN && |m| >= max + 9
    ensures var s := StepOf(m[at..], property);
            var counter' := Count(s, outer, counter);
            var at' := ToInt32(at + s.n);
            Scan(m[at..], at, total, counter, outer, property, max)
            == if counter' != 0 && s.n <= 0 then -1
               else if at' < 0 || at' > max then -1
               else if counter' == 0 then total
               else Scan(m[at'..], at', total + s.n, counter', outer, property, max)
  {
    hide StepOf;
    var s := StepOf(m[at..], property);
    if s.n > 0 && at + s.n <= max { assert m[at..][s.n..] == m[at + s.n..]; }
  }

  /** bacapp_data_len. It may read a header that begins at the limit it is given, or right after a
      two-octet opening tag. */
  method MeasureData(apdu: array<byte>, max: nat, property: int) returns (total_len: int)
    requires max < INT_SPAN && apdu.Length >= max + 9
    ensures total_len == DataLen(apdu[..], property, max)
  {
    hide DecodeHeader, StepOf, Scan;
    total_len := 0;
    SevenOctetsSuffice(apdu[..]);
    if IsOpening(apdu[0]) {
      OpeningLength(apdu[..]);
      var h := DecodeHeader(apdu[..]).value;
      var at := h.length;
      var counter: byte := 1;
      while counter != 0
        invariant 0 <= total_len <= at && (at <= max || at <= 2)
        invariant DataLen(apdu[..], property, max)
                  == if counter == 0 then total_len
                     else Scan(apdu[..][at..], at, total_len, counter, h.tag, property, max)
        decreases if counter == 0 then 0 else 3 + max - at
      {
        ScanTurn(apdu[..], at, total_len, counter, h.tag, property, max);
        var s := StepOf(apdu[..][at..], property);
        counter := Count(s, h.tag, counter);
        var next := ToInt32(at + s.n);
        if counter != 0 {
          if s.n > 0 {
            total_len := total_len + s.n;
          } else {
            return -1;
          }
        }
        if next < 0 || next > max {
          return -1;
        }
        at := next;
      }
    }
  }

  // ---------------------------------------------------------- lone octets

  /** An octet that the scan, taking it for a tag, passes alone and without counting it: its tag number
      and length are not extended, and it is a bracket of another number, announces no contents, or
      announces contents of a type that has none. */
  predicate PassesAlone(property: int, outer: byte, o: byte)
  {
    var tag, low := o / 16, o % 8;
    tag != 15 && low != 5 &&
    if low >= 6 then tag != outer
    else low == 0 || (if IsContext(o) then ContextType(property, tag) == 1 else !(2 <= tag <= 12))
  }

  lemma LoneOctet(property: int, outer: byte, counter: byte, o: byte, rest: seq<byte>)
    requires |rest| >= 6 && PassesAlone(property, outer, o)
    ensures var s := StepOf([o] + rest, property); s.n == 1 && Count(s, outer, counter) == counter
  {
    hide ContextType;
    var b := [o] + rest;
    assert b[0] == o;
    assert DecodeHeader(b) == Some(Header(o / 16, if o % 8 >= 6 then 0 else o % 8, 1));
  }

  /** On any other octet the scan goes astray, at least if zeros follow. */
  lemma NotAlone(property: int, outer: byte, counter: byte, o: byte)
    requires !PassesAlone(property, outer, o)
    ensures var s := StepOf([o] + Zeros(6), property); s.n != 1 || Count(s, outer, counter) != counter
  {
    hide ContextType;
    var b := [o] + Zeros(6);
    assert b[0] == o && b[1] == 0 && b[2] == 0;
    if o / 16 == 15 || o % 8 == 5 {
      assert DecodeHeader(b).value.length >= 2 && DecodeHeader(b).value.value < 8;
    } else {
      assert DecodeHeader(b) == Some(Header(o / 16, if o % 8 >= 6 then 0 else o % 8, 1));
    }
  }

  /** These are exactly the octets that the scan passes alone whatever follows them. */
  lemma PassesAloneIff(property: int, outer: byte, counter: byte, o: byte)
    ensures PassesAlone(property, outer, o) <==>
            forall rest: seq<byte> :: |rest| >= 6 ==>
              var s := StepOf([o] + rest, property); s.n == 1 && Count(s, outer, counter) == counter
  {
    hide PassesAlone, StepOf, Count;
    if PassesAlone(property, outer, o) {
      forall rest: seq<byte> | |rest| >= 6
        ensures var s := StepOf([o] + rest, property); s.n == 1 && Count(s, outer, counter) == counter
      {
        LoneOctet(property, outer, counter, o, rest);
      }
    } else {
      NotAlone(property, outer, counter, o);
    }
  }

  function Zeros(n: nat): (bs: seq<byte>)
    ensures |bs| == n && forall k :: 0 <= k < n ==> bs[k] == 0
  {
    seq(n, _ => 0)
  }

  // ------------------------------------------------- trees of tagged elements

  /** What a header's length field holds. */
  type Word = n: nat | n < SPAN32

  /** A list of elements: a leaf's tag, class, header field and contents, or a constructed
      element holding a list of its own. */
  datatype Elements =
    | End
    | Leaf(context: bool, tag: byte, field: Word, contents: seq<byte>, next: Elements)
    | Constructed(tag: byte, inside: Elements, next: Elements)

  /** Leaves as the standard has them: an application Null or Boolean has no contents, a context
      element the property types as Boolean has one octet. That octet is to pass alone. */
  predicate LegalLeaf(property: int, outer: byte, context: bool, tag: byte, field: nat, contents: seq<byte>)
  {
    && |contents| < 0x7FFF_FF00
    && if context then
         && field == |contents|
         && (ContextType(property, tag) == 1 ==> |contents| == 1 && PassesAlone(property, outer, contents[0]))
       else
         tag <= 12 && if tag <= 1 then field <= 1 && contents == [] else field == |contents|
  }

  /** Legal between brackets numbered `outer`. */
  predicate Legal(e: Elements, property: int, outer: byte)
  {
    match e
    case End => true
    case Leaf(context, tag, field, contents, next) =>
      LegalLeaf(property, outer, context, tag, field, contents) && Legal(next, property, outer)
    case Constructed(_, inside, next) => Legal(inside, property, outer) && Legal(next, property, outer)
  }

  function LeafOctets(context: bool, tag: byte, field: nat, contents: seq<byte>): (bs: seq<byte>)
    requires field < SPAN32
    ensures |bs| >= 1
  {
    TagHeader(tag, context, field) + contents
  }

  function Bracketed(tag: byte, inside: seq<byte>): seq<byte>
  {
    OpeningTag(tag) + inside + ClosingTag(tag)
  }

  function EncodeElements(e: Elements): seq<byte>
  {
    match e
    case End => []
    case Leaf(context, tag, field, contents, next) =>
      LeafOctets(context, tag, field, contents) + EncodeElements(next)
    case Constructed(tag, inside, next) =>
      Bracketed(tag, EncodeElements(inside)) + EncodeElements(next)
  }

  /** The greatest number of brackets numbered `t` open at once. */
  function Nesting(e: Elements, t: byte): nat
  {
    match e
    case End => 0
    case Leaf(_, _, _, _, next) => Nesting(next, t)
    case Constructed(tag, inside, next) =>
      var n := Nesting(inside, t) + if tag == t then 1 else 0;
      if n > Nesting(next, t) then n else Nesting(next, t)
  }

  /** The octets counted before the count of outer tags, starting at `c`, would reach 256. */
  function CountedUntilWrap(e: Elements, t: byte, c: nat): (n: nat)
    requires 1 <= c <= 255
    ensures n <= |EncodeElements(e)|
    ensures n == |EncodeElements(e)| <==> c + Nesting(e, t) <= 255
  {
    match e
    case End => 0
    case Leaf(context, tag, field, contents, next) =>
      |LeafOctets(context, tag, field, contents)| + CountedUntilWrap(next, t, c)
    case Constructed(tag, inside, next) =>
      var c' := if tag == t then c + 1 else c;
      var all := |EncodeElements(inside)|;
      if c' == 256 then 0
      else
        var n := CountedUntilWrap(inside, t, c');
        |OpeningTag(tag)| + n
        + if n < all then 0 else |ClosingTag(tag)| + CountedUntilWrap(next, t, c)
  }

  lemma OpenStep(tag: byte, rest: seq<byte>, property: int)
    requires |OpeningTag(tag) + rest| >= 7
    ensures StepOf(OpeningTag(tag) + rest, property) == Open(tag, |OpeningTag(tag)|)
  {
    hide DecodeHeader, OpeningTag;
    BracketRoundTrip(tag, rest);
  }

  lemma CloseStep(tag: byte, rest: seq<byte>, property: int)
    requires |ClosingTag(tag) + rest| >= 7
    ensures StepOf(ClosingTag(tag) + rest, property) == Close(tag, |ClosingTag(tag)|)
  {
    hide DecodeHeader, ClosingTag;
    BracketRoundTrip(tag, rest);
  }

  lemma HeaderStep(context: bool, tag: byte, field: nat, rest: seq<byte>, property: int)
    requires field < SPAN32 && |TagHeader(tag, context, field) + rest| >= 7
    requires field < 0x7FFF_FF00
    ensures StepOf(TagHeader(tag, context, field) + rest, property)
            == Skip(|TagHeader(tag, context, field)|
                    + if context then SkipContext(property, tag, field) else SkipData(tag, field))
  {
    hide DecodeHeader, ContextType;
    HeaderRoundTrip(tag, context, field, rest);
    FirstOctetFields(tag, context, field);
  }

  /** The loop at its limit check: beyond the limit the answer is -1. */
  function Resume(b: seq<byte>, at: nat, total: nat, counter: byte, outer: byte, property: int, max: nat): int
    requires counter != 0 && total <= at && max < INT_SPAN && |b| + at >= max + 9
  {
    if at > max then -1 else Scan(b, at, total, counter, outer, property, max)
  }

  /** A turn that leaves the count alone moves on. */
  lemma SkipTurn(x: seq<byte>, rest: seq<byte>,
                 at: nat, total: nat, counter: byte, outer: byte, property: int, max: nat)
    requires counter != 0 && total <= at && max < INT_SPAN && |x + rest| + at >= max + 9
    requires at <= max ==>
               var s := StepOf(x + rest, property);
               Count(s, outer, counter) == counter && s.n == |x| > 0
    ensures Resume(x + rest, at, total, counter, outer, property, max)
            == Resume(rest, at + |x|, total + |x|, counter, outer, property, max)
  {
    hide StepOf, Count;
    if at <= max {
      assert (x + rest)[|x|..] == rest;
    }
  }

  lemma LeafTurn(context: bool, tag: byte, field: nat, contents: seq<byte>, rest: seq<byte>,
                 at: nat, total: nat, counter: byte, outer: byte, property: int, max: nat)
    requires counter != 0 && total <= at && max < INT_SPAN && LegalLeaf(property, outer, context, tag, field, contents)
    requires |LeafOctets(context, tag, field, contents) + rest| + at >= max + 9
    ensures var x := LeafOctets(context, tag, field, contents);
            Resume(x + rest, at, total, counter, outer, property, max)
            == Resume(rest, at + |x|, total + |x|, counter, outer, property, max)
  {
    hide Resume, StepOf, TagHeader, ContextType;
    var x := LeafOctets(context, tag, field, contents);
    var h := TagHeader(tag, context, field);
    assert x + rest == h + (contents + rest);
    if at <= max { HeaderStep(context, tag, field, contents + rest, property); }
    if context && ContextType(property, tag) == 1 {
      SkipTurn(h, contents + rest, at, total, counter, outer, property, max);
      assert contents == [contents[0]];
      if at + |h| <= max { LoneOctet(property, outer, counter, contents[0], rest); }
      SkipTurn(contents, rest, at + |h|, total + |h|, counter, outer, property, max);
    } else {
      SkipTurn(x, rest, at, total, counter, outer, property, max);
    }
  }

  /** Elements whose nesting keeps the count below 256 are passed over. */
  lemma {:induction false} ElementsSkipped(e: Elements, rest: seq<byte>,
                                           at: nat, total: nat, counter: byte, outer: byte, property: int, max: nat)
    requires counter != 0 && total <= at && max < INT_SPAN && Legal(e, property, outer)
    requires |EncodeElements(e) + rest| + at >= max + 9
    requires counter + Nesting(e, outer) <= 255
    ensures var x := EncodeElements(e);
            Resume(x + rest, at, total, counter, outer, property, max)
            == Resume(rest, at + |x|, total + |x|, counter, outer, property, max)
    decreases e, 0
  {
    hide Resume, StepOf, OpeningTag, ClosingTag, LeafOctets, ContextType;
    match e
    case End => assert [] + rest == rest;
    case Leaf(context, tag, field, contents, next) =>
      var x := LeafOctets(context, tag, field, contents);
      var y := EncodeElements(next);
      assert (x + y) + rest == x + (y + rest);
      LeafTurn(context, tag, field, contents, y + rest, at, total, counter, outer, property, max);
      ElementsSkipped(next, rest, at + |x|, total + |x|, counter, outer, property, max);
    case Constructed(tag, inside, next) =>
      var y := EncodeElements(next);
      var x := Bracketed(tag, EncodeElements(inside));
      assert (x + y) + rest == x + (y + rest);
      BracketSkipped(tag, inside, y + rest, at, total, counter, outer, property, max);
      ElementsSkipped(next, rest, at + |x|, total + |x|, counter, outer, property, max);
  }

  lemma {:induction false} BracketSkipped(tag: byte, inside: Elements, rest: seq<byte>,
                                          at: nat, total: nat, counter: byte, outer: byte, property: int, max: nat)
    requires counter != 0 && total <= at && max < INT_SPAN && Legal(inside, property, outer)
    requires |Bracketed(tag, EncodeElements(inside)) + rest| + at >= max + 9
    requires counter + Nesting(inside, outer) + (if tag == outer then 1 else 0) <= 255
    ensures var x := Bracketed(tag, EncodeElements(inside));
            Resume(x + rest, at, total, counter, outer, property, max)
            == Resume(rest, at + |x|, total + |x|, counter, outer, property, max)
    decreases inside, 1
  {
    hide StepOf, OpeningTag, ClosingTag, Scan, Resume, EncodeElements;
    var o, i, c := OpeningTag(tag), EncodeElements(inside), ClosingTag(tag);
    FourParts(o, i, c, rest);
    var deeper := if tag == outer then counter + 1 else counter;
    BracketTurn(true, tag, i + (c + rest), at, total, counter, outer, property, max);
    ElementsSkipped(inside, c + rest, at + |o|, total + |o|, deeper, outer, property, max);
    BracketTurn(false, tag, rest, at + |o| + |i|, total + |o| + |i|, deeper, outer, property, max);
  }

  lemma FourParts(o: seq<byte>, i: seq<byte>, c: seq<byte>, rest: seq<byte>)
    ensures (o + i + c) + rest == o + (i + (c + rest)) && (o + (i + (c + rest)))[|o|..] == i + (c + rest)
  {
  }

  /** Passing an opening or a closing tag that does not end the scan. */
  lemma BracketTurn(open: bool, tag: byte, rest: seq<byte>,
                    at: nat, total: nat, counter: byte, outer: byte, property: int, max: nat)
    requires counter != 0 && total <= at && max < INT_SPAN
    requires |(if open then OpeningTag(tag) else ClosingTag(tag)) + rest| + at >= max + 9
    requires 0 < (if tag != outer then counter else if open then counter + 1 else counter - 1) <= 255
    ensures var x := if open then OpeningTag(tag) else ClosingTag(tag);
            Resume(x + rest, at, total, counter, outer, property, max)
            == Resume(rest, at + |x|, total + |x|,
                      if tag != outer then counter else if open then counter + 1 else counter - 1, outer, property, max)
  {
    hide StepOf, OpeningTag, ClosingTag;
    var x := if open then OpeningTag(tag) else ClosingTag(tag);
    assert (x + rest)[|x|..] == rest;
    if at <= max {
      if open { OpenStep(tag, rest, property); } else { CloseStep(tag, rest, property); }
    }
  }

  /** Where the eight-bit count comes round to zero the scan stops with what it has counted. */
  lemma {:induction false} ElementsWrap(e: Elements, rest: seq<byte>,
                                        at: nat, total: nat, counter: byte, outer: byte, property: int, max: nat)
    requires counter != 0 && total <= at && max < INT_SPAN && Legal(e, property, outer)
    requires |EncodeElements(e) + rest| + at >= max + 9
    requires at + |EncodeElements(e)| <= max && counter + Nesting(e, outer) > 255
    ensures Resume(EncodeElements(e) + rest, at, total, counter, outer, property, max)
            == total + CountedUntilWrap(e, outer, counter)
    decreases e, 0
  {
    hide Resume, StepOf, OpeningTag, ClosingTag, LeafOctets, LegalLeaf, Scan, DataLen;
    match e
    case Leaf(context, tag, field, contents, next) =>
      var x := LeafOctets(context, tag, field, contents);
      var y := EncodeElements(next);
      assert (x + y) + rest == x + (y + rest);
      LeafTurn(context, tag, field, contents, y + rest, at, total, counter, outer, property, max);
      ElementsWrap(next, rest, at + |x|, total + |x|, counter, outer, property, max);
    case Constructed(tag, inside, next) =>
      var o, i, c := OpeningTag(tag), EncodeElements(inside), ClosingTag(tag);
      var y := EncodeElements(next);
      var deeper := if tag == outer then counter + 1 else counter;
      if deeper + Nesting(inside, outer) <= 255 {
        var x := Bracketed(tag, i);
        assert (x + y) + rest == x + (y + rest);
        BracketSkipped(tag, inside, y + rest, at, total, counter, outer, property, max);
        ElementsWrap(next, rest, at + |x|, total + |x|, counter, outer, property, max);
      } else {
        var after := c + (y + rest);
        assert (Bracketed(tag, i) + y) + rest == o + (i + after);
        BracketWrap(tag, inside, after, at, total, counter, outer, property, max);
      }
  }

  lemma {:induction false} BracketWrap(tag: byte, inside: Elements, rest: seq<byte>,
                                       at: nat, total: nat, counter: byte, outer: byte, property: int, max: nat)
    requires counter != 0 && total <= at && max < INT_SPAN && Legal(inside, property, outer)
    requires |OpeningTag(tag) + (EncodeElements(inside) + rest)| + at >= max + 9
    requires at + |OpeningTag(tag)| + |EncodeElements(inside)| <= max
    requires counter + Nesting(inside, outer) + (if tag == outer then 1 else 0) > 255
    ensures var deeper := if tag == outer then counter + 1 else counter;
            Resume(OpeningTag(tag) + (EncodeElements(inside) + rest), at, total, counter, outer, property, max)
            == total + if deeper == 256 then 0
                       else |OpeningTag(tag)| + CountedUntilWrap(inside, outer, deeper)
    decreases inside, 1
  {
    hide Resume, StepOf, OpeningTag, ClosingTag, EncodeElements;
    var o, i := OpeningTag(tag), EncodeElements(inside);
    var deeper := if tag == outer then counter + 1 else counter;
    if deeper == 256 {
      LastOpening(tag, i + rest, at, total, counter, property, max);
    } else {
      BracketTurn(true, tag, i + rest, at, total, counter, outer, property, max);
      ElementsWrap(inside, rest, at + |o|, total + |o|, deeper, outer, property, max);
    }
  }

  lemma LastOpening(tag: byte, rest: seq<byte>, at: nat, total: nat, counter: byte, property: int, max: nat)
    requires counter == 255 && total <= at && max < INT_SPAN
    requires |OpeningTag(tag) + rest| + at >= max + 9 && at + |OpeningTag(tag)| <= max
    ensures Resume(OpeningTag(tag) + rest, at, total, counter, tag, property, max) == total
  {
    hide StepOf, OpeningTag;
    OpenStep(tag, rest, property);
  }

  lemma LastClosing(tag: byte, rest: seq<byte>, at: nat, total: nat, property: int, max: nat)
    requires total <= at && max < INT_SPAN && |ClosingTag(tag) + rest| + at >= max + 9
    ensures Resume(ClosingTag(tag) + rest, at, total, 1, tag, property, max)
            == if at + |ClosingTag(tag)| <= max then total else -1
  {
    hide StepOf, ClosingTag;
    if at <= max { CloseStep(tag, rest, property); }
  }

  /** For every tree of legal elements between matching brackets, whatever follows: the answer is
      the exact length of what is between them if and only if no more than 255 brackets of that
      number are open at once, and -1 if the closing tag does not lie within the limit. */
  lemma DataLengthExact(tag: byte, e: Elements, rest: seq<byte>, property: int, max: nat)
    requires Legal(e, property, tag) && max < INT_SPAN
    requires |Bracketed(tag, EncodeElements(e)) + rest| >= max + 9
    ensures var i := EncodeElements(e);
            var b := Bracketed(tag, i);
            && (1 + Nesting(e, tag) <= 255 ==>
                  DataLen(b + rest, property, max) == if |b| <= max then |i| else -1)
            && (1 + Nesting(e, tag) > 255 && |b| <= max ==> 0 <= DataLen(b + rest, property, max) < |i|)
  {
    hide Resume, Scan, DecodeHeader, StepOf, OpeningTag, ClosingTag, LegalLeaf, EncodeElements;
    var o, i, c := OpeningTag(tag), EncodeElements(e), ClosingTag(tag);
    var b := Bracketed(tag, i);
    var after := i + (c + rest);
    FourParts(o, i, c, rest);
    BracketRoundTrip(tag, after);
    ScanIsResume(after, |o|, 0, 1, tag, property, max);
    if 1 + Nesting(e, tag) <= 255 {
      ElementsSkipped(e, c + rest, |o|, 0, 1, tag, property, max);
      LastClosing(tag, rest, |o| + |i|, |i|, property, max);
    } else if |b| <= max {
      ElementsWrap(e, c + rest, |o|, 0, 1, tag, property, max);
    }
  }

  /** A first turn that begins beyond the limit ends beyond it. */
  lemma ScanIsResume(b: seq<byte>, at: nat, total: nat, counter: byte, outer: byte, property: int, max: nat)
    requires counter != 0 && total <= at <= 2 && max < INT_SPAN && |b| + at >= max + 9
    ensures Scan(b, at, total, counter, outer, property, max) == Resume(b, at, total, counter, outer, property, max)
  {
    hide StepOf;
  }

  /** An encoded application value is one legal leaf, and the skipper passes exactly it. */
  lemma EncodedValueIsLeaf(v: Value, property: int, outer: byte)
    requires Representable(v)
    ensures LegalLeaf(property, outer, false, TagOf(v), Field(v), Payload(v))
    ensures LeafOctets(false, TagOf(v), Field(v), Payload(v)) == Encode(v)
  {
    FieldIsLength(v);
  }

  // ---------------------------------------------------- one context Boolean

  /** The scan answers -1 or no less than it has counted. */
  lemma {:induction false} ScanAnswers(b: seq<byte>, at: nat, total: nat, counter: byte, outer: byte,
                                       property: int, max: nat)
    requires counter != 0 && total <= at && (at <= max || at <= 2) && max < INT_SPAN && |b| + at >= max + 9
    ensures var n := Scan(b, at, total, counter, outer, property, max); n == -1 || n >= total
    decreases max + 2 - at
  {
    hide StepOf, Count;
    var s := StepOf(b, property);
    var c, at' := Count(s, outer, counter), ToInt32(at + s.n);
    if c != 0 && s.n > 0 && 0 <= at' <= max { ScanAnswers(b[s.n..], at', total + s.n, c, outer, property, max); }
  }

  lemma ResumeAnswers(b: seq<byte>, at: nat, total: nat, counter: byte, outer: byte, property: int, max: nat)
    requires counter != 0 && total <= at && max < INT_SPAN && |b| + at >= max + 9
    ensures var n := Resume(b, at, total, counter, outer, property, max); n == -1 || n >= total
  {
    hide Scan;
    if at <= max { ScanAnswers(b, at, total, counter, outer, property, max); }
  }

  /** The turn on the octet of a Boolean, with only the closing tag to come: the count comes out right
      exactly if the octet is passed alone and not counted. */
  lemma OctetTurn(outer: byte, o: byte, rest: seq<byte>, at: nat, total: nat, property: int, max: nat)
    requires total <= at && max < INT_SPAN && at + 1 + |ClosingTag(outer)| <= max
    requires |[o] + (ClosingTag(outer) + rest)| + at >= max + 9
    ensures var b := [o] + (ClosingTag(outer) + rest);
            var s := StepOf(b, property);
            Resume(b, at, total, 1, outer, property, max) == total + 1 <==> s.n == 1 && Count(s, outer, 1) == 1
  {
    hide StepOf, Count, ClosingTag, Scan, Resume;
    var c := ClosingTag(outer);
    var b := [o] + (c + rest);
    var s := StepOf(b, property);
    if s.n == 1 && Count(s, outer, 1) == 1 {
      SkipTurn([o], c + rest, at, total, 1, outer, property, max);
      LastClosing(outer, rest, at + 1, total + 1, property, max);
    } else {
      OctetCounted(outer, o, rest, at, total, property, max);
    }
  }

  lemma OctetCounted(outer: byte, o: byte, rest: seq<byte>, at: nat, total: nat, property: int, max: nat)
    requires total <= at && max < INT_SPAN && at + 1 + |ClosingTag(outer)| <= max
    requires |[o] + (ClosingTag(outer) + rest)| + at >= max + 9
    requires var s := StepOf([o] + (ClosingTag(outer) + rest), property); s.n != 1 || Count(s, outer, 1) != 1
    ensures Resume([o] + (ClosingTag(outer) + rest), at, total, 1, outer, property, max) != total + 1
  {
    hide StepOf, ClosingTag;
    var c := ClosingTag(outer);
    var b := [o] + (c + rest);
    var s := StepOf(b, property);
    var counter, at' := Count(s, outer, 1), ToInt32(at + s.n);
    if counter != 0 && s.n > 0 && 0 <= at' <= max {
      if s.n == 1 {
        assert b[1..] == c + rest && counter == 2;
        BracketTurn(false, outer, rest, at', total + 1, 2, outer, property, max);
        ResumeAnswers(rest, at' + |c|, total + 1 + |c|, 1, outer, property, max);
      } else {
        ScanAnswers(b[s.n..], at', total + s.n, counter, outer, property, max);
      }
    }
  }

  /** One context Boolean between brackets, whatever follows: the answer is the length of the two octets
      or more exactly if its octet is passed alone and not counted. */
  lemma BooleanMeasured(outer: byte, tag: byte, o: byte, rest: seq<byte>, property: int, max: nat)
    requires ContextType(property, tag) == 1 && max < INT_SPAN
    requires |Bracketed(outer, TagHeader(tag, true, 1) + [o])| <= max
    requires |Bracketed(outer, TagHeader(tag, true, 1) + [o]) + rest| >= max + 9
    ensures var i := TagHeader(tag, true, 1) + [o];
            var s := StepOf([o] + (ClosingTag(outer) + rest), property);
            DataLen(Bracketed(outer, i) + rest, property, max) == |i| <==> s.n == 1 && Count(s, outer, 1) == 1
  {
    hide Resume, Scan, DecodeHeader, StepOf, Count, OpeningTag, ClosingTag, TagHeader, ContextType;
    var h, c, op := TagHeader(tag, true, 1), ClosingTag(outer), OpeningTag(outer);
    var i := h + [o];
    FourParts(op, i, c, rest);
    var after := i + (c + rest);
    var tail := [o] + (c + rest);
    assert after == h + tail;
    BracketRoundTrip(outer, after);
    ScanIsResume(after, |op|, 0, 1, outer, property, max);
    HeaderStep(true, tag, 1, tail, property);
    assert Count(Skip(|h|), outer, 1) == 1 by { SkipsUncounted(|h|, outer); }
    SkipTurn(h, tail, |op|, 0, 1, outer, property, max);
    OctetTurn(outer, o, rest, |op| + |h|, |h|, property, max);
  }

  lemma SkipsUncounted(n: int, outer: byte)
    ensures Count(Skip(n), outer, 1) == 1
  {
  }

  /** An octet that does not pass alone is not passed alone before the closing tag and zeros either. */
  lemma NotAloneBeforeClosing(property: int, outer: byte, o: byte)
    requires !PassesAlone(property, outer, o)
    ensures var s := StepOf([o] + (ClosingTag(outer) + Zeros(9)), property); s.n != 1 || Count(s, outer, 1) != 1
  {
    hide ContextType;
    var c := ClosingTag(outer);
    var b := [o] + (c + Zeros(9));
    assert b[0] == o && b[1] == c[0];
    if o / 16 == 15 || o % 8 == 5 {
      LongHeader(b);
    } else {
      assert DecodeHeader(b) == Some(Header(o / 16, if o % 8 >= 6 then 0 else o % 8, 1));
    }
  }

  /** A header announced by such an octet is longer than one octet, and what it announces does not wrap. */
  lemma LongHeader(b: seq<byte>)
    requires |b| >= 7 && (b[0] / 16 == 15 || b[0] % 8 == 5)
    requires b[3..] == Zeros(|b| - 3) || b[2..] == Zeros(|b| - 2)
    ensures DecodeHeader(b).Some? && DecodeHeader(b).value.length >= 2 && DecodeHeader(b).value.value < SPAN32 - 8
  {
  }

  lemma RestIsLong(outer: byte, tag: byte, o: byte, rest: seq<byte>, max: nat)
    requires |Bracketed(outer, TagHeader(tag, true, 1) + [o])| <= max
    requires |Bracketed(outer, TagHeader(tag, true, 1) + [o]) + rest| >= max + 9
    ensures |ClosingTag(outer) + rest| >= 6
  {
  }

  lemma HeaderIsShort(outer: byte, tag: byte, o: byte)
    ensures |Bracketed(outer, TagHeader(tag, true, 1) + [o])| < 20
  {
  }

  /** For a context Boolean between brackets the answer is right before every continuation exactly if
      its octet passes alone. */
  lemma BooleanMeasuredIff(outer: byte, tag: byte, o: byte, property: int)
    requires ContextType(property, tag) == 1
    ensures var i := TagHeader(tag, true, 1) + [o];
            var b := Bracketed(outer, i);
            PassesAlone(property, outer, o) <==>
            forall rest: seq<byte>, max: nat :: |b| <= max < INT_SPAN && |b + rest| >= max + 9 ==>
              DataLen(b + rest, property, max) == |i|
  {
    hide PassesAlone, DataLen, StepOf, Count, ContextType, TagHeader, Bracketed, ClosingTag;
    var i := TagHeader(tag, true, 1) + [o];
    var b := Bracketed(outer, i);
    if PassesAlone(property, outer, o) {
      forall rest: seq<byte>, max: nat | |b| <= max < INT_SPAN && |b + rest| >= max + 9
        ensures DataLen(b + rest, property, max) == |i|
      {
        BooleanMeasured(outer, tag, o, rest, property, max);
        RestIsLong(outer, tag, o, rest, max);
        LoneOctet(property, outer, 1, o, ClosingTag(outer) + rest);
      }
    } else {
      NotAloneBeforeClosing(property, outer, o);
      assert |b| < 20 by { HeaderIsShort(outer, tag, o); }
      BooleanMeasured(outer, tag, o, Zeros(9), property, |b|);
    }
  }

  /** The condition on Boolean octets cannot go: between brackets numbered 0 a context Boolean whose
      octet is 14 has that octet counted as an opening tag, and the answer is -1 where two octets lie
      between the brackets. */
  lemma OddBooleanIsMisread()
    ensures var i: seq<byte> := [0x29, 14];
            && !PassesAlone(PROP_ACTIVE_COV_SUBSCRIPTIONS, 0, 14)
            && i == TagHeader(2, true, 1) + [14] && ContextType(PROP_ACTIVE_COV_SUBSCRIPTIONS, 2) == 1
            && DataLen(Bracketed(0, i) + Zeros(9), PROP_ACTIVE_COV_SUBSCRIPTIONS, 4) == -1
  {
    hide DecodeHeader, Scan, StepOf;
    var p, z := PROP_ACTIVE_COV_SUBSCRIPTIONS, Zeros(9);
    var i: seq<byte> := [0x29, 14];
    assert OpeningTag(0) == [14] && ClosingTag(0) == [15];
    assert TagHeader(2, true, 1) == [0x29] && TagHeader(0, false, 0) == [0];
    FourParts([14], i, [15], z);
    BracketRoundTrip(0, i + ([15] + z));
    var b := i + ([15] + z);
    assert b == [0x29] + ([14] + ([15] + z));
    HeaderStep(true, 2, 1, [14] + ([15] + z), p);
    ScanIsResume(b, 1, 0, 1, 0, p, 4);
    SkipTurn([0x29], [14] + ([15] + z), 1, 0, 1, 0, p, 4);
    BracketTurn(true, 0, [15] + z, 2, 1, 1, 0, p, 4);
    BracketTurn(false, 0, z, 3, 2, 2, 0, p, 4);
    assert z == [0] + z[1..];
    HeaderStep(false, 0, 0, z[1..], p);
    SkipTurn([0], z[1..], 4, 3, 1, 0, p, 4);
  }
}
