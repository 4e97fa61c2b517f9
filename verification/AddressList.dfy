/** The cache as a list for ReadRange, sent in pieces (rr_address_list_encode; section 15.8 of
    ANSI/ASHRAE 135). */
module AddressList {
  import opened Words
  import opened Octets
  import opened Tags
  import opened Primitives
  import opened AppData
  import opened AppEncode
  import opened AddressCache
  import opened SafeDecoder
  import CacheRuns

  const OBJECT_DEVICE := 8
  const ACACHE_MAX_ENC := 17

  /** The C types of what is encoded of a slot, with lengths their arrays can hold. */
  predicate Listable(e: Slot)
  {
    && CTypedAddress(e.address) && e.address.macLen <= MAX_MAC_LEN && e.address.len <= MAX_MAC_LEN
    && e.device < SPAN32
  }

  predicate AllListable(s: seq<Slot>) { forall k :: 0 <= k < |s| ==> Listable(s[k]) }

  /** A routed device by its address on its network, another by its MAC. */
  function Station(a: Address): seq<byte>
    requires CTypedAddress(a) && a.macLen <= MAX_MAC_LEN && a.len <= MAX_MAC_LEN
  {
    if a.len != 0 then a.adr[..a.len] else a.mac[..a.macLen]
  }

  function Fields(e: Slot): (vs: (Value, Value, Value))
    requires Listable(e)
    ensures AppData.CTyped(vs.0) && AppData.CTyped(vs.1) && AppData.CTyped(vs.2)
  {
    (ObjectId(OBJECT_DEVICE, e.device), Unsigned(e.address.net), OctetString(Station(e.address)))
  }

  function EncodeEntry(e: Slot): (bs: seq<byte>)
    requires Listable(e)
  {
    Written(Fields(e).0) + Written(Fields(e).1) + Written(Fields(e).2)
  }

  function EncodeEntries(es: seq<Slot>): seq<byte>
    requires AllListable(es)
  {
    if es == [] then [] else EncodeEntry(es[0]) + EncodeEntries(es[1..])
  }

  /** No entry takes more octets than the bound the source reserves. */
  lemma EntryFits(e: Slot)
    requires Listable(e)
    ensures 8 <= |EncodeEntry(e)| <= ACACHE_MAX_ENC
  {
    AssumedHeaders(12, 4);
    AssumedHeaders(2, UnsignedLength(e.address.net));
    AssumedHeaders(6, |Station(e.address)|);
  }

  // ---------------------------------------------------------------- scanning

  /** The first bound slot from `i` on; the scan stops at the end of the array. */
  function NextBound(s: seq<Slot>, i: nat): (k: nat)
    requires i <= |s|
    ensures i <= k <= |s| && (k < |s| ==> Bound(s[k]))
    ensures forall j :: i <= j < k ==> !Bound(s[j])
    ensures BoundFrom(s, k) == BoundFrom(s, i)
    decreases |s| - i
  {
    if i == |s| || Bound(s[i]) then i else NextBound(s, i + 1)
  }

  /** The slot of the `r`-th bound entry. */
  function Nth(s: seq<Slot>, r: nat): (k: nat)
    requires 1 <= r <= |BoundFrom(s, 0)|
    ensures k < |s| && Bound(s[k]) && BoundFrom(s, k) == BoundFrom(s, 0)[r - 1..]
  {
    if r == 1 then
      var k := NextBound(s, 0);
      assert BoundFrom(s, 0)[0..] == BoundFrom(s, 0);
      k
    else
      var j := Nth(s, r - 1);
      var k := NextBound(s, j + 1);
      assert BoundFrom(s, k) == BoundFrom(s, j)[1..] == BoundFrom(s, 0)[r - 1..];
      k
  }

  /** Where the seek to the `r`-th entry stops: on the slot after the one before it, bound or not. */
  function SeekStop(s: seq<Slot>, r: nat): (k: nat)
    requires 1 <= r <= |BoundFrom(s, 0)|
    ensures k < |s|
  {
    if r == 1 then Nth(s, 1)
    else
      assert Nth(s, r - 1) < Nth(s, r);
      Nth(s, r - 1) + 1
  }

  /** The `m` slots encoded from slot `p` on: that slot itself, then the bound ones after it. */
  function Seen(s: seq<Slot>, p: nat, m: nat): (es: seq<Slot>)
    requires p <= |s|
    ensures |es| <= m
    ensures AllListable(s) ==> AllListable(es)
    decreases m
  {
    if m == 0 || p == |s| then [] else [s[p]] + Seen(s, NextBound(s, p + 1), m - 1)
  }

  /** Slots to list from `start`, when numbers `first` to `target` are wanted. */
  function InWindow(s: seq<Slot>, start: nat, first: nat, target: nat): seq<Slot>
    requires start <= |s|
  {
    Seen(s, start, if target < first then 0 else target - first + 1)
  }

  /** How many entries are encoded before fewer than seventeen octets are left. */
  function Fitting(es: seq<Slot>, room: int): (n: nat)
    requires AllListable(es)
    ensures n <= |es|
  {
    if es == [] || room < ACACHE_MAX_ENC then 0 else 1 + Fitting(es[1..], room - |EncodeEntry(es[0])|)
  }

  /** Seventeen octets of room are enough for one more entry and are needed for it, though only the longest
      entry fills them. */
  lemma SeventeenNeeded(es: seq<Slot>, e: Slot)
    requires AllListable(es) && es != [] && Listable(e) && e.address.net >= 256 && e.address.len == 7
    ensures Fitting(es, 16) == 0 && Fitting(es, 17) >= 1 && |EncodeEntry(e)| == 17
  {
    AssumedHeaders(12, 4);
    AssumedHeaders(2, 2);
    AssumedHeaders(6, 7);
  }

  // ---------------------------------------------------------------- request

  datatype Kind = ByPosition | ReadAll

  /** The entry to start from and the last one wanted, from index and count with the source's
      conversions between signed and unsigned 32 bits. */
  function Span(kind: Kind, refIndex: nat, count: int, total: nat): (r: (nat, nat))
    requires refIndex < SPAN32
  {
    var (ref, n) := Forwards(kind, refIndex, count, total);
    var target := (ref + n - 1) % SPAN32;
    (ref, if target > total then total else target)
  }

  function Forwards(kind: Kind, refIndex: nat, count: int, total: nat): (r: (nat, int))
    requires refIndex < SPAN32
    ensures kind == ReadAll || refIndex >= 1 ==> r.0 >= 1
  {
    if kind == ReadAll then (1, total)
    else if count >= 0 then (refIndex, count)
    else
      var t := ToInt32(ToInt32(refIndex) + count + 1);
      if t < 1 then (1, ToInt32(refIndex)) else (t, ToInt32(-count))
  }

  datatype Answer = Answer(entries: seq<Slot>, first: bool, last: bool, more: bool)

  /** What is listed, with the result flags. */
  function Listed(s: seq<Slot>, kind: Kind, refIndex: nat, count: int, room: int): (a: Answer)
    requires AllListable(s) && refIndex < SPAN32 && (kind == ReadAll || refIndex >= 1)
    ensures AllListable(a.entries)
  {
    var total := |BoundFrom(s, 0)|;
    var (from, target) := Span(kind, refIndex, count, total);
    if total == 0 || from > total then Answer([], false, false, false)
    else
      var es := InWindow(s, SeekStop(s, from), from, target);
      var n := Fitting(es, room);
      Answer(es[..n], from == 1, n > 0 && from + n - 1 == total, n < |es|)
  }

  /** The fields of BACNET_READ_RANGE_DATA that matter here. */
  class RangeRequest {
    const kind: Kind
    const overhead: nat
    var refIndex: nat
    var count: int
    var itemCount: nat
    var firstItem: bool
    var lastItem: bool
    var moreItems: bool

    constructor (kind: Kind, overhead: nat, refIndex: nat, count: int)
      ensures this.kind == kind && this.overhead == overhead && this.refIndex == refIndex && this.count == count
    {
      this.kind, this.overhead, this.refIndex, this.count := kind, overhead, refIndex, count;
    }

    /** Read-all and negative counts become a start index and a positive count. */
    method TurnForwards(uiTotal: nat)
      requires Valid()
      modifies this`refIndex, this`count
      ensures (refIndex, count) == Forwards(kind, old(refIndex), old(count), uiTotal)
    {
      if kind == ReadAll {
        count := uiTotal;
        refIndex := 1;
      }
      if count < 0 {
        var iTemp := ToInt32(refIndex);
        iTemp := ToInt32(iTemp + count + 1);
        if iTemp < 1 {
          count := ToInt32(refIndex);
          refIndex := 1;
        } else {
          refIndex := iTemp;
          count := ToInt32(-count);
        }
      }
    }

    ghost predicate Valid() reads this
    {
      && overhead <= MAX_APDU && refIndex < SPAN32 && Is32(count) && (kind == ReadAll || refIndex >= 1)
    }
  }

  // --------------------------------------------------------------- the loops

  lemma {:induction false} SeenLength(s: seq<Slot>, p: nat, m: nat)
    requires p < |s| && m <= 1 + |BoundFrom(s, p + 1)|
    ensures |Seen(s, p, m)| == m
    decreases m
  {
    if m > 1 { SeenLength(s, NextBound(s, p + 1), m - 1); }
  }

  lemma SeekStopSees(s: seq<Slot>, from: nat, target: nat)
    requires 1 <= from <= |BoundFrom(s, 0)| && target <= |BoundFrom(s, 0)|
    ensures |InWindow(s, SeekStop(s, from), from, target)| == if target < from then 0 else target - from + 1
  {
    hide Nth, NextBound, Seen;
    var p := SeekStop(s, from);
    if from > 1 {
      assert BoundFrom(s, Nth(s, from - 1)) == [s[p - 1]] + BoundFrom(s, p);
    }
    SeenLength(s, p, if target < from then 0 else target - from + 1);
  }

  lemma {:induction false} EncodeEntriesSnoc(es: seq<Slot>, n: nat)
    requires AllListable(es) && n < |es|
    ensures EncodeEntries(es[..n + 1]) == EncodeEntries(es[..n]) + EncodeEntry(es[n])
  {
    hide EncodeEntry, Listable;
    if n > 0 {
      EncodeEntriesSnoc(es[1..], n - 1);
      assert es[..n + 1][1..] == es[1..][..n] && es[..n][1..] == es[1..][..n - 1];
    } else {
      assert es[..1] == [es[0]] && es[..1][1..] == [] && es[..0] == [];
    }
  }

  method EncodeSlot(apdu: array<byte>, at: nat, e: Slot) returns (len: nat)
    requires Listable(e) && at + |EncodeEntry(e)| <= apdu.Length
    modifies apdu
    ensures len == |EncodeEntry(e)| && apdu[..] == Overwrite(old(apdu[..]), at, EncodeEntry(e))
  {
    hide Overwrite, Written, Fields, AppData.CTyped;
    ghost var s := apdu[..];
    ghost var (id, net, station) := Fields(e);
    FieldShapes(e);
    len := EncodeScalar(apdu, at, ObjectId(OBJECT_DEVICE, e.device));
    var n := EncodeScalar(apdu, at + len, Unsigned(e.address.net));
    OverwriteOn(s, at, Written(id), Written(net));
    len := len + n;
    if e.address.len != 0 {
      n := EncodeString(apdu, at + len, OctetString(e.address.adr[..e.address.len]));
    } else {
      n := EncodeString(apdu, at + len, OctetString(e.address.mac[..e.address.macLen]));
    }
    OverwriteOn(s, at, Written(id) + Written(net), Written(station));
    len := len + n;
  }

  lemma FieldShapes(e: Slot)
    requires Listable(e)
    ensures Fields(e).0 == ObjectId(8, e.device)
    ensures Fields(e).1 == Unsigned(e.address.net)
    ensures Fields(e).2 == OctetString(if e.address.len != 0 then e.address.adr[..e.address.len]
                                       else e.address.mac[..e.address.macLen])
  {
  }

  /** Scans to the next bound slot. */
  method FindBound(cache: Cache, from: nat) returns (p: nat)
    requires cache.Valid() && from <= cache.slots.Length
    ensures p == NextBound(cache.slots[..], from)
  {
    p := from;
    while p < cache.slots.Length && !Bound(cache.slots[p])
      invariant from <= p <= cache.slots.Length
      invariant NextBound(cache.slots[..], from) == NextBound(cache.slots[..], p)
    {
      p := p + 1;
    }
  }

  /** Seeks to the start position. */
  method Seek(cache: Cache, refIndex: nat) returns (p: nat)
    requires cache.Valid() && 1 <= refIndex <= |BoundFrom(cache.slots[..], 0)|
    ensures p == SeekStop(cache.slots[..], refIndex)
  {
    ghost var s := cache.slots[..];
    p := FindBound(cache, 0);
    var index := 1;
    while index != refIndex
      invariant 1 <= index <= refIndex
      invariant p < |s| && NextBound(s, p) == Nth(s, index)
      invariant index == refIndex ==> p == SeekStop(s, refIndex)
      decreases |s| - p
    {
      if Bound(cache.slots[p]) {
        p := p + 1;
        index := index + 1;
      } else {
        p := p + 1;
      }
    }
  }

  /** After `n` entries of `es`: what is encoded, the room left, and slot `p` where the rest begin. */
  predicate Progress(s: seq<Slot>, es: seq<Slot>, room: nat, p: nat, n: nat, done: seq<byte>)
  {
    && AllListable(s) && AllListable(es) && n <= |es| && p <= |s| && Seen(s, p, |es| - n) == es[n..]
    && done == EncodeEntries(es[..n]) && |done| <= room
    && Fitting(es, room) == n + Fitting(es[n..], room - |done|)
  }

  lemma NoProgressYet(s: seq<Slot>, es: seq<Slot>, room: nat, p: nat)
    requires AllListable(s) && p <= |s| && es == Seen(s, p, |es|)
    ensures Progress(s, es, room, p, 0, [])
  {
    hide Seen, NextBound, BoundFrom, EncodeEntry, Listable, Fitting;
    assert es[0..] == es && es[..0] == [];
  }

  /** The next entry of the loop. */
  lemma OneMore(s: seq<Slot>, es: seq<Slot>, room: nat, p: nat, n: nat, done: seq<byte>)
    requires Progress(s, es, room, p, n, done) && n < |es| && room - |done| >= ACACHE_MAX_ENC
    ensures p < |s| && s[p] == es[n] && Listable(s[p]) && |EncodeEntry(s[p])| <= room - |done|
    ensures Progress(s, es, room, NextBound(s, p + 1), n + 1, done + EncodeEntry(s[p]))
  {
    hide Seen, NextBound, BoundFrom, EncodeEntry, EncodeEntries, Listable, Fitting;
    var rest := es[n..];
    assert rest[1..] == es[n + 1..] && rest[0] == es[n];
    SeenStep(s, p, |es| - n);
    FittingStep(rest, room - |done|);
    EntryFits(es[n]);
    EncodeEntriesSnoc(es, n);
  }

  lemma SeenStep(s: seq<Slot>, p: nat, m: nat)
    requires p <= |s| && m > 0 && Seen(s, p, m) != []
    ensures p < |s| && Seen(s, p, m)[0] == s[p] && Seen(s, p, m)[1..] == Seen(s, NextBound(s, p + 1), m - 1)
  {
  }

  lemma FittingStep(es: seq<Slot>, room: int)
    requires AllListable(es) && es != [] && room >= ACACHE_MAX_ENC
    ensures Fitting(es, room) == 1 + Fitting(es[1..], room - |EncodeEntry(es[0])|)
  {
    hide EncodeEntry;
  }

  lemma Stopped(s: seq<Slot>, es: seq<Slot>, room: nat, p: nat, n: nat, done: seq<byte>)
    requires Progress(s, es, room, p, n, done) && (n == |es| || room - |done| < ACACHE_MAX_ENC)
    ensures AllListable(es) && n == Fitting(es, room) && done == EncodeEntries(es[..n])
  {
    hide EncodeEntry, Listable, BoundFrom;
  }

  /** The encoding loop, for the entries from number `first` in slot `start` on to `target`. */
  method EncodeFrom(cache: Cache, apdu: array<byte>, start: nat, first: nat, target: nat, room: nat)
      returns (iLen: nat, uiLast: nat, itemCount: nat, more: bool)
    requires cache.Valid() && AllListable(cache.slots[..]) && start <= cache.slots.Length
    requires first >= 1 && room <= apdu.Length
    requires |InWindow(cache.slots[..], start, first, target)| == if target < first then 0 else target - first + 1
    modifies apdu
    ensures var es := InWindow(cache.slots[..], start, first, target);
            && AllListable(es)
            && itemCount == Fitting(es, room)
            && iLen == |EncodeEntries(es[..itemCount])| <= room
            && apdu[..] == Overwrite(old(apdu[..]), 0, EncodeEntries(es[..itemCount]))
            && more == (itemCount < |es|)
            && uiLast == if itemCount == 0 then 0 else first + itemCount - 1
  {
    hide Overwrite, Seen, EncodeEntry, EncodeEntries, Listable, AllListable, BoundFrom, Progress, Fitting, NextBound;
    ghost var s := cache.slots[..];
    ghost var es := InWindow(s, start, first, target);
    ghost var done: seq<byte> := [];
    var uiIndex: nat, uiRemaining: nat, p: nat := first, room, start;
    iLen, uiLast, itemCount, more := 0, 0, 0, false;
    NoProgressYet(s, es, room, start);
    EmptyOverwrite(apdu[..]);
    while uiIndex <= target
      invariant uiIndex == first + itemCount && itemCount <= |es|
      invariant Progress(s, es, room, p, itemCount, done) && iLen == |done| <= room && uiRemaining == room - iLen
      invariant apdu[..] == Overwrite(old(apdu[..]), 0, done)
      invariant uiLast == if itemCount == 0 then 0 else first + itemCount - 1
      invariant !more
    {
      if uiRemaining < ACACHE_MAX_ENC {
        more := true;
        break;
      }
      OneMore(s, es, room, p, itemCount, done);
      var len := EncodeSlot(apdu, iLen, cache.slots[p]);
      OverwriteOn(old(apdu[..]), 0, done, EncodeEntry(s[p]));
      done := done + EncodeEntry(s[p]);
      uiRemaining := uiRemaining - len;
      iLen := iLen + len;
      uiLast := uiIndex;
      uiIndex := uiIndex + 1;
      itemCount := itemCount + 1;
      p := FindBound(cache, p + 1);
    }

    Stopped(s, es, room, p, itemCount, done);
  }

  lemma EmptyOverwrite(t: seq<byte>)
    ensures Overwrite(t, 0, []) == t
  {
  }

  /** rr_address_list_encode. */
  method RangeListEncode(cache: Cache, apdu: array<byte>, request: RangeRequest) returns (iLen: nat)
    requires cache.Valid() && AllListable(cache.slots[..]) && request.Valid() && apdu.Length >= MAX_APDU
    modifies apdu, request
    ensures var a := Listed(cache.slots[..], request.kind, old(request.refIndex), old(request.count),
                            MAX_APDU - request.overhead);
            && AllListable(a.entries)
            && iLen == |EncodeEntries(a.entries)| <= MAX_APDU - request.overhead
            && apdu[..] == Overwrite(old(apdu[..]), 0, EncodeEntries(a.entries))
            && request.itemCount == |a.entries|
            && request.firstItem == a.first && request.lastItem == a.last && request.moreItems == a.more
  {
    hide Overwrite, EncodeEntries, Listable, BoundFrom, SeekStop, AllListable, Forwards, InWindow, Fitting;
    ghost var s := cache.slots[..];
    NoneListed(apdu[..]);
    request.firstItem, request.lastItem, request.moreItems := false, false, false;
    var uiRemaining := MAX_APDU - request.overhead;
    request.itemCount := 0;
    var uiTotal := cache.AddressCount();
    if uiTotal == 0 {
      return 0;
    }
    request.TurnForwards(uiTotal);
    if request.refIndex > uiTotal {
      return 0;
    }
    var uiTarget := (request.refIndex + request.count - 1) % SPAN32;
    if uiTarget > uiTotal {
      uiTarget := uiTotal;
    }
    var p := Seek(cache, request.refIndex);
    var uiFirst, uiLast, items, more := request.refIndex, 0, 0, false;
    SeekStopSees(s, uiFirst, uiTarget);
    iLen, uiLast, items, more := EncodeFrom(cache, apdu, p, uiFirst, uiTarget, uiRemaining);
    request.itemCount, request.moreItems := items, more;
    if uiFirst == 1 {
      request.firstItem := true;
    }
    if uiLast == uiTotal {
      request.lastItem := true;
    }
  }

  lemma NoneListed(t: seq<byte>)
    ensures AllListable([]) && EncodeEntries([]) == [] && Overwrite(t, 0, EncodeEntries([])) == t
  {
  }

  // ----------------------------------------------------------- the window

  /** The bound entries numbered `lo` to `hi`, as far as they exist. */
  function Clip(b: seq<Slot>, lo: int, hi: int): seq<Slot>
  {
    var l, h := if lo < 1 then 1 else lo, if hi > |b| then |b| else hi;
    if l > h then [] else b[l - 1..h]
  }

  /** What a request asks for: `count` entries from `refIndex` on, or `-count` up to it. */
  function Asked(s: seq<Slot>, kind: Kind, refIndex: nat, count: int): seq<Slot>
  {
    var b := BoundFrom(s, 0);
    if kind == ReadAll then b
    else if count >= 0 then Clip(b, refIndex, refIndex + count - 1)
    else Clip(b, refIndex + count + 1, refIndex)
  }

  lemma {:induction false} SeenFromBound(s: seq<Slot>, p: nat, m: nat)
    requires p < |s| && Bound(s[p]) && m <= |BoundFrom(s, p)|
    ensures Seen(s, p, m) == BoundFrom(s, p)[..m]
    decreases m
  {
    if m > 0 {
      var k := NextBound(s, p + 1);
      assert BoundFrom(s, p) == [s[p]] + BoundFrom(s, k);
      if m > 1 {
        SeenFromBound(s, k, m - 1);
      } else {
        assert Seen(s, k, 0) == [];
      }
    }
  }

  /** Counting back from an index of 2^31 or more to one of 2^31 or more: the start index wraps to a
      negative number and is taken for the first entry. */
  predicate Misread(kind: Kind, refIndex: nat, count: int)
  {
    kind == ByPosition && count < 0 && refIndex + count >= 0x7FFF_FFFF
  }

  /** The start and the last entry wanted say exactly what was asked for, unless the request is misread;
      then nothing was asked for and the whole list is wanted. */
  lemma SpanIsAsked(s: seq<Slot>, kind: Kind, refIndex: nat, count: int)
    requires kind == ReadAll || (1 <= refIndex && Is32(count))
    requires refIndex < SPAN32 && 0 < |BoundFrom(s, 0)| < 0x8000_0000
    ensures var b := BoundFrom(s, 0);
            var (from, target) := Span(kind, refIndex, count, |b|);
            && from >= 1 && target <= |b|
            && (Asked(s, kind, refIndex, count) == Clip(b, from, target) <==> !Misread(kind, refIndex, count))
            && (Misread(kind, refIndex, count) ==>
                  Asked(s, kind, refIndex, count) == [] && from == 1 && target == |b| && Clip(b, from, target) == b)
  {
    hide BoundFrom, Span;
    SpanBounds(kind, refIndex, count, |BoundFrom(s, 0)|);
  }

  lemma SpanBounds(kind: Kind, refIndex: nat, count: int, total: nat)
    requires kind == ReadAll || (1 <= refIndex && Is32(count))
    requires refIndex < SPAN32 && 0 < total < 0x8000_0000
    ensures var (from, target) := Span(kind, refIndex, count, total);
            var lo := if kind == ReadAll then 1 else if count >= 0 then refIndex else refIndex + count + 1;
            var hi := if kind == ReadAll then total else if count >= 0 then refIndex + count - 1 else refIndex;
            if Misread(kind, refIndex, count) then from == 1 && target == total
            else if lo > total then from > total && from >= 1 && target <= total
            else from == (if lo < 1 then 1 else lo) && target == if hi > total then total else hi
  {
    if kind == ByPosition && count < 0 { StartWraps(refIndex, count); }
  }

  /** The start index in 32 bits, counting back. */
  lemma StartWraps(refIndex: nat, count: int)
    requires 1 <= refIndex < SPAN32 && Is32(count) && count < 0
    ensures var t := ToInt32(ToInt32(refIndex) + count + 1);
            && (t >= 1 ==> t == refIndex + count + 1)
            && (t < 1 <==> refIndex + count + 1 < 1 || refIndex + count >= 0x7FFF_FFFF)
    ensures ToInt32(refIndex) == if refIndex < 0x8000_0000 then refIndex else refIndex - SPAN32
    ensures ToInt32(-count) == if count == -0x8000_0000 then count else -count
  {
  }

  /** Nothing is listed: no entry is bound, none is wanted, or not even one fits. */
  predicate ListsNothing(total: nat, from: nat, target: nat, room: int)
  {
    total == 0 || from > total || target < from || room < ACACHE_MAX_ENC
  }

  /** What a caller can see before the call: nothing is listed, or the request is not misread and the
      slot the seek stops on is bound. */
  predicate AnswersWell(s: seq<Slot>, kind: Kind, refIndex: nat, count: int, room: int)
    requires refIndex < SPAN32 && (kind == ReadAll || refIndex >= 1)
  {
    var total := |BoundFrom(s, 0)|;
    var (from, target) := Span(kind, refIndex, count, total);
    ListsNothing(total, from, target, room) || (!Misread(kind, refIndex, count) && Bound(s[SeekStop(s, from)]))
  }

  /** What is listed is a prefix of what was asked for exactly then; and it is all that fits, and
      MORE_ITEMS says whether that is less. */
  lemma ListsWhatWasAsked(s: seq<Slot>, kind: Kind, refIndex: nat, count: int, room: int)
    requires AllListable(s) && |s| < 0x8000_0000 && refIndex < SPAN32
    requires kind == ReadAll || (1 <= refIndex && Is32(count))
    ensures var a, w := Listed(s, kind, refIndex, count, room), Asked(s, kind, refIndex, count);
            && (a.entries <= w <==> AnswersWell(s, kind, refIndex, count, room))
            && (a.entries <= w ==> AllListable(w) && a.entries == w[..Fitting(w, room)])
            && (!Misread(kind, refIndex, count) ==> a.more == (|a.entries| < |w|))
  {
    hide BoundFrom, Listable, Span, SeekStop, EncodeEntry, Asked, Nth, Seen, NextBound;
    var b := BoundFrom(s, 0);
    var (from, target) := Span(kind, refIndex, count, |b|);
    NothingBound(s, kind, refIndex, count, room);
    if b != [] {
      SpanIsAsked(s, kind, refIndex, count);
      if from <= |b| {
        SeekStopSees(s, from, target);
        WindowSeen(s, from, target);
        BoundListable(s, 0);
      }
    }
  }

  lemma NothingBound(s: seq<Slot>, kind: Kind, refIndex: nat, count: int, room: int)
    ensures BoundFrom(s, 0) == [] ==> Asked(s, kind, refIndex, count) == []
    ensures Fitting([], room) == 0
  {
  }

  lemma {:induction false} BoundListable(s: seq<Slot>, i: nat)
    requires AllListable(s) && i <= |s|
    ensures AllListable(BoundFrom(s, i))
    decreases |s| - i
  {
    hide Listable;
    if i < |s| { BoundListable(s, i + 1); }
  }

  /** From a bound slot the window is seen; from an unbound one something else is. */
  lemma WindowSeen(s: seq<Slot>, from: nat, target: nat)
    requires 1 <= from <= |BoundFrom(s, 0)| && target <= |BoundFrom(s, 0)|
    ensures var p := SeekStop(s, from);
            var es := InWindow(s, p, from, target);
            && (Bound(s[p]) ==> es == Clip(BoundFrom(s, 0), from, target))
            && (!Bound(s[p]) && es != [] ==> es[0] == s[p])
            && (forall e :: e in Clip(BoundFrom(s, 0), from, target) ==> Bound(e))
            && |Clip(BoundFrom(s, 0), from, target)| == if target < from then 0 else target - from + 1
  {
    hide BoundFrom;
    var p := SeekStop(s, from);
    if Bound(s[p]) {
      SeekStopBound(s, from);
      SeenFromBound(s, p, if target < from then 0 else target - from + 1);
    }
  }

  lemma SeekStopBound(s: seq<Slot>, from: nat)
    requires 1 <= from <= |BoundFrom(s, 0)| && Bound(s[SeekStop(s, from)])
    ensures BoundFrom(s, SeekStop(s, from)) == BoundFrom(s, 0)[from - 1..]
  {
    hide BoundFrom;
    if from > 1 {
      var p := SeekStop(s, from);
      assert NextBound(s, p) == p == Nth(s, from);
    }
  }

  // ------------------------------------------------------------------ flags

  /** A bound entry is in some slot. */
  lemma {:induction false} BoundSlot(s: seq<Slot>, i: nat, j: nat) returns (k: nat)
    requires i <= |s| && j < |BoundFrom(s, i)|
    ensures i <= k < |s| && Bound(s[k]) && BoundFrom(s, i)[j] == s[k]
    decreases |s| - i
  {
    if Bound(s[i]) && j == 0 {
      k := i;
    } else {
      k := BoundSlot(s, i + 1, if Bound(s[i]) then j - 1 else j);
    }
  }

  lemma {:induction false} BoundDistinct(s: seq<Slot>, i: nat, j: nat, k: nat)
    requires CacheRuns.Good(s) && i <= |s| && j < k < |BoundFrom(s, i)|
    ensures BoundFrom(s, i)[j].device != BoundFrom(s, i)[k].device
    decreases |s| - i
  {
    if Bound(s[i]) {
      if j == 0 {
        var n := BoundSlot(s, i + 1, k - 1);
      } else {
        BoundDistinct(s, i + 1, j - 1, k - 1);
      }
    } else {
      BoundDistinct(s, i + 1, j, k);
    }
  }

  /** FIRST_ITEM and LAST_ITEM say whether the first and the last bound entry are listed; with nothing
      listed LAST_ITEM is not set. */
  lemma FlagsTell(s: seq<Slot>, kind: Kind, refIndex: nat, count: int, room: int)
    requires AllListable(s) && |s| < 0x8000_0000 && refIndex < SPAN32 && CacheRuns.Good(s)
    requires (kind == ReadAll || (1 <= refIndex && Is32(count))) && AnswersWell(s, kind, refIndex, count, room)
    ensures var a, b := Listed(s, kind, refIndex, count, room), BoundFrom(s, 0);
            && (a.entries == [] ==> !a.last)
            && (a.entries != [] ==>
                  && b != []
                  && (a.first <==> a.entries[0].device == b[0].device)
                  && (a.last <==> a.entries[|a.entries| - 1].device == b[|b| - 1].device))
  {
    hide BoundFrom, Listable, Listed, AnswersWell, CacheRuns.Good;
    var a, b := Listed(s, kind, refIndex, count, room), BoundFrom(s, 0);
    var n := |a.entries|;
    if n > 0 {
      var from := ListedEntries(s, kind, refIndex, count, room);
      assert a.entries[0] == b[from - 1] && a.entries[n - 1] == b[from + n - 2];
      if from > 1 { BoundDistinct(s, 0, 0, from - 1); }
      if from + n - 1 < |b| { BoundDistinct(s, 0, from + n - 2, |b| - 1); }
    } else {
      NothingLast(s, kind, refIndex, count, room);
    }
  }

  lemma NothingLast(s: seq<Slot>, kind: Kind, refIndex: nat, count: int, room: int)
    requires AllListable(s) && refIndex < SPAN32 && (kind == ReadAll || refIndex >= 1)
    requires Listed(s, kind, refIndex, count, room).entries == []
    ensures !Listed(s, kind, refIndex, count, room).last
  {
    hide BoundFrom, Listable, Span, SeekStop, EncodeEntry, Seen;
  }

  /** What is listed lies together in the list of bound entries. */
  lemma ListedEntries(s: seq<Slot>, kind: Kind, refIndex: nat, count: int, room: int) returns (from: nat)
    requires AllListable(s) && |s| < 0x8000_0000 && refIndex < SPAN32
    requires (kind == ReadAll || (1 <= refIndex && Is32(count))) && AnswersWell(s, kind, refIndex, count, room)
    requires Listed(s, kind, refIndex, count, room).entries != []
    ensures var a, b := Listed(s, kind, refIndex, count, room), BoundFrom(s, 0);
            var n := |a.entries|;
            && 1 <= from && from + n - 1 <= |b| && a.entries == b[from - 1..from - 1 + n]
            && a.first == (from == 1) && a.last == (from + n - 1 == |b|)
  {
    hide BoundFrom, Listable, Span, SeekStop, EncodeEntry, Asked, Seen;
    var b := BoundFrom(s, 0);
    var span := Span(kind, refIndex, count, |b|);
    from := span.0;
    var target := span.1;
    SpanIsAsked(s, kind, refIndex, count);
    SeekStopSees(s, from, target);
    WindowSeen(s, from, target);
  }

  // ------------------------------------------------------------ in pieces

  /** No free or unbound slot lies between two bound ones. */
  predicate Contiguous(s: seq<Slot>)
  {
    forall i, j, k :: 0 <= i < j < k < |s| && Bound(s[i]) && Bound(s[k]) ==> Bound(s[j])
  }

  lemma {:induction false} FewerFromBound(s: seq<Slot>, i: nat, j: nat)
    requires i < j <= |s|
    ensures |BoundFrom(s, j)| <= |BoundFrom(s, i)| && (Bound(s[i]) ==> |BoundFrom(s, j)| < |BoundFrom(s, i)|)
    decreases j - i
  {
    if i + 1 < j { FewerFromBound(s, i + 1, j); }
  }

  /** A bound slot is the one whose number its successors leave. */
  lemma NthOfBound(s: seq<Slot>, i: nat)
    requires i < |s| && Bound(s[i])
    ensures var r := |BoundFrom(s, 0)| - |BoundFrom(s, i)| + 1; 1 <= r <= |BoundFrom(s, 0)| && Nth(s, r) == i
  {
    hide BoundFrom, Nth;
    var r := |BoundFrom(s, 0)| - |BoundFrom(s, i)| + 1;
    if i > 0 { FewerFromBound(s, 0, i); }
    assert |BoundFrom(s, i)| > 0 by { FewerFromBound(s, i, i + 1); }
    var k := Nth(s, r);
    if k < i {
      FewerFromBound(s, k, i);
    } else if i < k {
      FewerFromBound(s, i, k);
    }
  }

  /** Every seek stops on a bound slot. */
  predicate StopsBound(s: seq<Slot>)
  {
    forall r :: 1 <= r <= |BoundFrom(s, 0)| ==> Bound(s[SeekStop(s, r)])
  }

  lemma ContiguousStops(s: seq<Slot>, r: nat)
    requires Contiguous(s) && 1 <= r <= |BoundFrom(s, 0)|
    ensures Bound(s[SeekStop(s, r)])
  {
    hide BoundFrom, Nth;
    if r > 1 {
      var i, j, k := Nth(s, r - 1), SeekStop(s, r), Nth(s, r);
      if k < i {
        FewerFromBound(s, k, i);
      } else if j < k {
        assert i < j < k;
      }
    }
  }

  /** From a bound slot on, every slot before another bound one is bound. */
  lemma {:induction false} StopsFillGap(s: seq<Slot>, i: nat, j: nat, k: nat)
    requires StopsBound(s) && i < j < k < |s| && Bound(s[i]) && Bound(s[k])
    ensures Bound(s[j])
    decreases j - i
  {
    hide BoundFrom, Nth;
    NthOfBound(s, i);
    var r := |BoundFrom(s, 0)| - |BoundFrom(s, i)| + 2;
    FewerFromBound(s, i, k);
    FewerFromBound(s, k, k + 1);
    assert SeekStop(s, r) == i + 1;
    if i + 1 < j { StopsFillGap(s, i + 1, j, k); }
  }

  /** The seek never stops on an unbound slot exactly if none lies between two bound ones. */
  lemma ContiguousIff(s: seq<Slot>)
    ensures Contiguous(s) <==> StopsBound(s)
  {
    hide BoundFrom, SeekStop;
    if Contiguous(s) {
      forall r | 1 <= r <= |BoundFrom(s, 0)| ensures Bound(s[SeekStop(s, r)]) {
        ContiguousStops(s, r);
      }
    } else {
      var i, j, k :| 0 <= i < j < k < |s| && Bound(s[i]) && Bound(s[k]) && !Bound(s[j]);
      if StopsBound(s) { StopsFillGap(s, i, j, k); }
    }
  }

  /** A client that asks on after the last entry it got, while there are more. */
  function Pieces(s: seq<Slot>, refIndex: nat, count: nat, room: int): (es: seq<Slot>)
    requires AllListable(s) && 1 <= refIndex < SPAN32 && count < 0x8000_0000 && |s| < 0x8000_0000
    requires room >= ACACHE_MAX_ENC
    decreases count
  {
    var a := Listed(s, ByPosition, refIndex, count, room);
    var n := |a.entries|;
    PieceFacts(s, refIndex, count, room);
    if a.more then a.entries + Pieces(s, refIndex + n, count - n, room) else a.entries
  }

  lemma PieceFacts(s: seq<Slot>, refIndex: nat, count: nat, room: int)
    requires AllListable(s) && 1 <= refIndex < SPAN32 && count < 0x8000_0000 && |s| < 0x8000_0000
    requires room >= ACACHE_MAX_ENC
    ensures var a := Listed(s, ByPosition, refIndex, count, room);
            a.more ==> 0 < |a.entries| < count && refIndex <= |BoundFrom(s, 0)|
  {
    hide BoundFrom, Listable, SeekStop, EncodeEntry, Seen;
    ListsWhatWasAsked(s, ByPosition, refIndex, count, room);
    var b := BoundFrom(s, 0);
    if b != [] && refIndex <= |b| {
      var (from, target) := Span(ByPosition, refIndex, count, |b|);
      SeekStopSees(s, from, target);
    }
  }

  /** However little fits in one answer, the pieces together are the window, in order, nothing
      twice and nothing left out, if the bound slots are contiguous. */
  lemma {:induction false} PiecesMakeTheWindow(s: seq<Slot>, refIndex: nat, count: nat, room: int)
    requires AllListable(s) && 1 <= refIndex < SPAN32 && count < 0x8000_0000 && |s| < 0x8000_0000
    requires room >= ACACHE_MAX_ENC && Contiguous(s)
    ensures Pieces(s, refIndex, count, room) == Asked(s, ByPosition, refIndex, count)
    decreases count
  {
    hide BoundFrom, Listable, SeekStop, EncodeEntry, Listed, Contiguous, Fitting;
    var a := Listed(s, ByPosition, refIndex, count, room);
    var w, n := Asked(s, ByPosition, refIndex, count), |a.entries|;
    PieceFacts(s, refIndex, count, room);
    PieceIsPrefix(s, refIndex, count, room);
    if a.more {
      PiecesMakeTheWindow(s, refIndex + n, count - n, room);
      assert w == w[..n] + w[n..];
    } else {
      assert w[..n] == w;
    }
  }

  lemma PieceIsPrefix(s: seq<Slot>, refIndex: nat, count: nat, room: int)
    requires AllListable(s) && 1 <= refIndex < SPAN32 && count < 0x8000_0000 && |s| < 0x8000_0000 && Contiguous(s)
    ensures var a, w := Listed(s, ByPosition, refIndex, count, room), Asked(s, ByPosition, refIndex, count);
            var n := |a.entries|;
            && n <= |w| && a.entries == w[..n] && a.more == (n < |w|)
            && (n < |w| ==> w[n..] == Asked(s, ByPosition, refIndex + n, count - n))
  {
    hide BoundFrom, Listable, SeekStop, EncodeEntry, Seen, Contiguous, Fitting;
    var b := BoundFrom(s, 0);
    ListsWhatWasAsked(s, ByPosition, refIndex, count, room);
    if b != [] && refIndex <= |b| { ContiguousStops(s, refIndex); }
  }

  // --------------------------------------------------------------- contents

  function ValuesOf(es: seq<Slot>): (vs: seq<Value>)
    requires AllListable(es)
  {
    if es == [] then [] else var (id, net, station) := Fields(es[0]); [id, net, station] + ValuesOf(es[1..])
  }

  /** The list decodes to each entry's device, network and station address, in order. */
  lemma {:induction false} ListDecodes(es: seq<Slot>)
    requires AllListable(es) && forall k :: 0 <= k < |es| ==> es[k].device < INSTANCES
    ensures AllRepresentable(ValuesOf(es)) && EncodeAll(ValuesOf(es)) == EncodeEntries(es)
    ensures Drain(EncodeEntries(es)).0 == Gotten(ValuesOf(es))
  {
    hide Drain, Encode, Fields, Listable, Whole;
    EntriesAreValues(es);
    var vs := ValuesOf(es);
    var k := |EncodeAll(vs)|;
    TruncationYieldsWholeValues(vs, k);
    assert EncodeAll(vs)[..k] == EncodeAll(vs) && vs[..|vs|] == vs;
    WholeIsMaximal(vs, k, |vs|);
  }

  lemma {:induction false} EntriesAreValues(es: seq<Slot>)
    requires AllListable(es) && forall k :: 0 <= k < |es| ==> es[k].device < INSTANCES
    ensures AllRepresentable(ValuesOf(es)) && EncodeAll(ValuesOf(es)) == EncodeEntries(es)
  {
    hide Encode, Listable;
    if es != [] {
      var (id, net, station) := Fields(es[0]);
      FieldsAreRepresentable(es[0]);
      EntriesAreValues(es[1..]);
      ThreeValues(id, net, station, ValuesOf(es[1..]));
    }
  }

  lemma FieldsAreRepresentable(e: Slot)
    requires Listable(e) && e.device < INSTANCES
    ensures Representable(Fields(e).0) && Representable(Fields(e).1) && Representable(Fields(e).2)
    ensures EncodeEntry(e) == Encode(Fields(e).0) + Encode(Fields(e).1) + Encode(Fields(e).2)
  {
    hide Written;
    FieldIsLength(Fields(e).0);
    FieldIsLength(Fields(e).1);
    FieldIsLength(Fields(e).2);
  }

  lemma OneValue(v: Value, vs: seq<Value>)
    requires Representable(v) && AllRepresentable(vs)
    ensures AllRepresentable([v] + vs) && EncodeAll([v] + vs) == Encode(v) + EncodeAll(vs)
  {
    hide Encode;
    assert ([v] + vs)[1..] == vs;
  }

  lemma ThreeValues(u: Value, v: Value, w: Value, vs: seq<Value>)
    requires Representable(u) && Representable(v) && Representable(w) && AllRepresentable(vs)
    ensures AllRepresentable([u, v, w] + vs)
    ensures EncodeAll([u, v, w] + vs) == Encode(u) + Encode(v) + Encode(w) + EncodeAll(vs)
  {
    hide Encode, EncodeAll, AllRepresentable;
    OneValue(w, vs);
    OneValue(v, [w] + vs);
    OneValue(u, [v] + ([w] + vs));
    assert [u, v, w] + vs == [u] + ([v] + ([w] + vs));
  }

  // ---------------------------------------------------------- where it fails

  lemma {:induction false} NoneBoundFrom(s: seq<Slot>, i: nat)
    requires i <= |s| && forall k :: i <= k < |s| ==> !Bound(s[k])
    ensures BoundFrom(s, i) == []
    decreases |s| - i
  {
    if i < |s| { NoneBoundFrom(s, i + 1); }
  }

  /** The calls made: a reset, three devices added, the second removed. */
  function ThreeThenOneRemoved(d: seq<nat>, maxApdu: nat, a: Address): seq<CacheRuns.Op>
    requires |d| == 3
  {
    [CacheRuns.InitOp([]), CacheRuns.AddOp(d[0], maxApdu, a), CacheRuns.AddOp(d[1], maxApdu, a),
     CacheRuns.AddOp(d[2], maxApdu, a), CacheRuns.RemoveOp(d[1])]
  }

  function Added(device: nat, maxApdu: nat, a: Address): Slot { Slot(BOUND, device, maxApdu, a, SHORT_TIME) }

  /** The first of the slots that are free takes a new device. */
  lemma AddTakesFirstFree(s: seq<Slot>, n: nat, device: nat, maxApdu: nat, a: Address)
    requires n < |s| && forall k :: 0 <= k < |s| ==> (s[k].flags.inUse <==> k < n)
    requires forall k :: 0 <= k < n ==> s[k].device != device
    ensures CacheRuns.Apply(s, CacheRuns.AddOp(device, maxApdu, a)) == s[n := Added(device, maxApdu, a)]
  {
    hide Victim;
    assert Wanted(s[n], NotInUse) && First(s, NotInUse, 0) == n;
    assert First(s, Device(device), 0) == |s|;
  }

  lemma RunFive(s: seq<Slot>, a: CacheRuns.Op, b: CacheRuns.Op, c: CacheRuns.Op, d: CacheRuns.Op, e: CacheRuns.Op)
    ensures CacheRuns.Run(s, [a, b, c, d, e])
            == CacheRuns.Apply(CacheRuns.Apply(CacheRuns.Apply(CacheRuns.Apply(CacheRuns.Apply(s, a), b), c), d), e)
  {
    hide CacheRuns.Apply;
    assert [a, b, c, d, e][1..] == [b, c, d, e] && [b, c, d, e][1..] == [c, d, e] && [c, d, e][1..] == [d, e];
    assert [d, e][1..] == [e] && [e][1..] == [];
    var s1 := CacheRuns.Apply(s, a);
    var s2 := CacheRuns.Apply(s1, b);
    var s3 := CacheRuns.Apply(s2, c);
    var s4 := CacheRuns.Apply(s3, d);
    assert CacheRuns.Run(s4, [e]) == CacheRuns.Apply(s4, e);
    assert CacheRuns.Run(s2, [c, d, e]) == CacheRuns.Run(s3, [d, e]) == CacheRuns.Run(s4, [e]);
    assert CacheRuns.Run(s1, [b, c, d, e]) == CacheRuns.Run(s2, [c, d, e]);
  }

  lemma AfterFiveCalls(s: seq<Slot>, d: seq<nat>, maxApdu: nat, a: Address)
    requires |s| == MAX_ADDRESS_CACHE && |d| == 3 && d[0] != d[1] && d[0] != d[2] && d[1] != d[2]
    ensures var t := CacheRuns.Run(s, ThreeThenOneRemoved(d, maxApdu, a));
            && |t| == |s| && t[0] == Added(d[0], maxApdu, a) && t[2] == Added(d[2], maxApdu, a)
            && t[1] == Added(d[1], maxApdu, a).(flags := NONE)
            && forall k :: 3 <= k < |t| ==> t[k] == s[k].(flags := NONE)
  {
    hide CacheRuns.Run, CacheRuns.Apply, Add;
    var ops := ThreeThenOneRemoved(d, maxApdu, a);
    RunFive(s, ops[0], ops[1], ops[2], ops[3], ops[4]);
    var s0 := CacheRuns.Apply(s, CacheRuns.InitOp([]));
    InitClears(s);
    AddTakesFirstFree(s0, 0, d[0], maxApdu, a);
    var s1 := s0[0 := Added(d[0], maxApdu, a)];
    AddTakesFirstFree(s1, 1, d[1], maxApdu, a);
    var s2 := s1[1 := Added(d[1], maxApdu, a)];
    AddTakesFirstFree(s2, 2, d[2], maxApdu, a);
    var s3 := s2[2 := Added(d[2], maxApdu, a)];
    RemoveClears(s3, 1, d[1]);
  }

  lemma InitClears(s: seq<Slot>)
    ensures CacheRuns.Apply(s, CacheRuns.InitOp([])) == SweepAll(s, Clear)
  {
    assert ReadFile(SweepAll(s, Clear), []) == SweepAll(s, Clear);
  }

  lemma RemoveClears(s: seq<Slot>, k: nat, device: nat)
    requires k < |s| && Holds(s[k], device) && forall j :: 0 <= j < k ==> !Holds(s[j], device)
    ensures CacheRuns.Apply(s, CacheRuns.RemoveOp(device)) == s[k := s[k].(flags := NONE)]
  {
    assert First(s, Device(device), 0) == k;
  }

  /** Bound entries 0 and 2 of a cache, the slot between them free. */
  lemma GapIsSeen(s: seq<Slot>, room: int)
    requires AllListable(s) && |s| >= 3 && Bound(s[0]) && !Bound(s[1]) && Bound(s[2]) && room >= ACACHE_MAX_ENC
    requires forall k :: 3 <= k < |s| ==> !Bound(s[k])
    ensures BoundFrom(s, 0) == [s[0], s[2]] && Asked(s, ByPosition, 2, 1) == [s[2]]
    ensures Listed(s, ByPosition, 2, 1, room).entries == [s[1]]
  {
    hide EncodeEntry, Listable, Seen, Nth, NextBound, BoundFrom;
    GapParts(s);
    assert InWindow(s, 1, 2, 2) == [s[1]];
    assert Fitting([s[1]], room) == 1 + Fitting([], room - |EncodeEntry(s[1])|);
    assert Span(ByPosition, 2, 1, 2) == (2, 2);
  }

  lemma GapParts(s: seq<Slot>)
    requires |s| >= 3 && Bound(s[0]) && !Bound(s[1]) && Bound(s[2]) && forall k :: 3 <= k < |s| ==> !Bound(s[k])
    ensures BoundFrom(s, 0) == [s[0], s[2]] && SeekStop(s, 2) == 1 && Seen(s, 1, 1) == [s[1]]
  {
    NoneBoundFrom(s, 3);
    assert BoundFrom(s, 2) == [s[2]] && BoundFrom(s, 1) == [s[2]];
    assert Nth(s, 1) == NextBound(s, 0) == 0;
    assert Seen(s, NextBound(s, 2), 0) == [];
  }

  /** Five calls from a reset on, asking for the second entry lists the device that was removed, not
      the second bound one. */
  lemma SeekStopsOnFreeSlot(s: seq<Slot>, d: seq<nat>, maxApdu: nat, a: Address, room: int)
    requires |s| == MAX_ADDRESS_CACHE && AllListable(s) && room >= ACACHE_MAX_ENC
    requires |d| == 3 && d[0] != d[1] && d[0] != d[2] && d[1] != d[2]
    requires forall i :: 0 <= i < 3 ==> Listable(Added(d[i], maxApdu, a))
    ensures var t := CacheRuns.Run(s, ThreeThenOneRemoved(d, maxApdu, a));
            && |t| == MAX_ADDRESS_CACHE && AllListable(t) && CacheRuns.Good(t)
            && Asked(t, ByPosition, 2, 1) == [Added(d[2], maxApdu, a)]
            && Listed(t, ByPosition, 2, 1, room).entries == [Added(d[1], maxApdu, a).(flags := NONE)]
  {
    hide CacheRuns.Run, CacheRuns.Good, Listed, Asked, ThreeThenOneRemoved;
    AfterFiveCalls(s, d, maxApdu, a);
    var t := CacheRuns.Run(s, ThreeThenOneRemoved(d, maxApdu, a));
    assert AllListable(t) by {
      forall k | 0 <= k < |t| ensures Listable(t[k]) {
        if k < 3 { assert Listable(Added(d[k], maxApdu, a)); } else { assert Listable(s[k]); }
      }
    }
    RunIsGood(s, d, maxApdu, a);
    GapIsSeen(t, room);
  }

  lemma RunIsGood(s: seq<Slot>, d: seq<nat>, maxApdu: nat, a: Address)
    requires |d| == 3
    ensures CacheRuns.Good(CacheRuns.Run(s, ThreeThenOneRemoved(d, maxApdu, a)))
  {
    hide CacheRuns.Apply, CacheRuns.Good;
    var ops := ThreeThenOneRemoved(d, maxApdu, a);
    CacheRuns.InitMakesGood(s, []);
    CacheRuns.RunKeepsGood(CacheRuns.Apply(s, ops[0]), ops[1..]);
  }

  /** From an index of 2^31, counting back one: nothing is asked for, and the list is sent from its
      first entry on. */
  lemma HighIndexWraps(s: seq<Slot>, room: int)
    requires AllListable(s) && 0 < |BoundFrom(s, 0)| && |s| < 0x8000_0000 && room >= ACACHE_MAX_ENC
    ensures Misread(ByPosition, 0x8000_0000, -1) && Asked(s, ByPosition, 0x8000_0000, -1) == []
    ensures var a := Listed(s, ByPosition, 0x8000_0000, -1, room); a.first && a.entries != []
  {
    hide BoundFrom, Listable, EncodeEntry, SeekStop, Seen, Span;
    SpanIsAsked(s, ByPosition, 0x8000_0000, -1);
    ListsWhatWasAsked(s, ByPosition, 0x8000_0000, -1, room);
  }
}
