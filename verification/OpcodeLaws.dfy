/** What single instructions mean: division, bits, wide values, memory and stack shuffles, each
    against a description of its own. */
module OpcodeLaws {
  import opened Words
  import opened Scode

  // ---------------------------------------------------------------- division

  lemma {:induction false} QuotientSmall(a: int, b: int)
    requires a >= 0 && b > 0
    ensures 0 <= a / b <= a && a == b * (a / b) + a % b && 0 <= a % b < b
  {
    if a / b > a {
      assert b * (a / b) >= a / b by { Scaled(a / b, 1, b); }
    }
  }

  function Magnitude(x: int): (m: int)
    ensures m >= 0
  {
    if x < 0 then -x else x
  }

  lemma TruncDivMagnitude(a: int, b: int)
    requires b != 0
    ensures Magnitude(b) > 0
    ensures var k := Magnitude(a) / Magnitude(b);
            TruncDiv(a, b) == if (a >= 0) == (b > 0) then k else -k
  {
    if a == 0 { QuotientSmall(0, Magnitude(b)); }
  }

  lemma TruncatedParts(a: int, b: int)
    requires b != 0
    ensures var q, r := TruncDiv(a, b), TruncMod(a, b);
            && a == b * q + r && -Magnitude(b) < r < Magnitude(b)
            && (a >= 0 ==> r >= 0) && (a <= 0 ==> r <= 0)
  {
    hide TruncDiv;
    TruncDivMagnitude(a, b);
    var n, d := Magnitude(a), Magnitude(b);
    QuotientSmall(n, d);
    var k := n / d;
    assert b * TruncDiv(a, b) == if a >= 0 then d * k else -(d * k);
  }

  /** Quotient and remainder recombine, the remainder is smaller than the divisor and has the sign of
      the dividend; neither wraps where C defines them. */
  lemma DivisionTruncates(a: int, b: int)
    requires -0x8000_0000 <= a < 0x8000_0000 && -0x8000_0000 <= b < 0x8000_0000
    requires b != 0 && !(a == -0x8000_0000 && b == -1)
    ensures IntResult(Div, a, b).Some? && IntResult(Mod, a, b).Some?
    ensures var q, r := IntResult(Div, a, b).value, IntResult(Mod, a, b).value;
            && a == b * q + r && -Magnitude(b) < r < Magnitude(b)
            && (a >= 0 ==> r >= 0) && (a <= 0 ==> r <= 0)
  {
    TruncatedParts(a, b);
    var q, r := TruncDiv(a, b), TruncMod(a, b);
    if b == -1 { ByMinusOne(a); }
    assert -0x8000_0000 <= q < 0x8000_0000 by { QuotientFits(a, b); }
    hide TruncDiv, TruncMod;
    assert IntResult(Div, a, b) == Some(q) && IntResult(Mod, a, b) == Some(r);
  }

  lemma ByMinusOne(a: int)
    ensures TruncDiv(a, -1) == -a
  {
  }

  lemma QuotientFits(a: int, b: int)
    requires -0x8000_0000 <= a < 0x8000_0000 && b != 0 && !(a == -0x8000_0000 && b == -1)
    ensures -0x8000_0000 <= TruncDiv(a, b) < 0x8000_0000
  {
    hide TruncDiv;
    ByMinusOne(a);
    TruncDivMagnitude(a, b);
    var n, d := Magnitude(a), Magnitude(b);
    QuotientSmall(n, d);
    if n / d > 0 && d >= 2 { Scaled(n / d, 2, d); }
  }

  // -------------------------------------------------------------------- bits

  /** Every bit of a bitwise result is the operation on the operands' bits. */
  lemma {:induction false} BitwiseBits(op: BitOp, a: nat, b: nat, n: nat, k: nat)
    requires k < n
    ensures BitAt(Bitwise(op, a, b, n), k) == BitOf(op, BitAt(a, k), BitAt(b, k))
  {
    var x := Bitwise(op, a, b, n);
    assert x == BitOf(op, a % 2, b % 2) + 2 * Bitwise(op, a / 2, b / 2, n - 1);
    if k > 0 {
      HalvedBit(x, k);
      HalvedBit(a, k);
      HalvedBit(b, k);
      assert x / 2 == Bitwise(op, a / 2, b / 2, n - 1);
      BitwiseBits(op, a / 2, b / 2, n - 1, k - 1);
    }
  }

  // ------------------------------------------------------------- wide values

  predicate Is64(x: int) { -0x8000_0000_0000_0000 <= x < 0x8000_0000_0000_0000 }

  /** Long instructions work on whole values: two cells in, two cells out, the low word first. */
  lemma LongsAreWhole(m: Math, x: int, y: int)
    requires Is64(x) && Is64(y) && !IsLongShift(LongMath(m))
    ensures var r := ComputeMath(LongMath(m), Split(x) + Split(y));
            match LongResult(m, x, y)
            case Some(v) => r.Some? && |r.value| == 2 && Join(r.value[0], r.value[1]) == v
            case None => r.None?
  {
    hide LongResult;
    JoinSplit(x);
    JoinSplit(y);
    var v := LongResult(m, x, y);
    if v.Some? { JoinSplit(v.value); }
  }

  /** An int widened and narrowed is itself, and keeps its value in between. */
  lemma WideningKeepsValue(x: int)
    requires -0x8000_0000 <= x < 0x8000_0000
    ensures var w := ComputeMath(IntToLong, [x]).value;
            Join(w[0], w[1]) == x && ComputeMath(LongToInt, w) == Some([x])
  {
    JoinSplit(x);
  }

  // ------------------------------------------------------------------ memory

  lemma SmallPowers256()
    ensures Power256(1) == 0x100 && Power256(2) == 0x1_0000 && Power256(4) == SPAN32
  {
    assert Power256(4) == 256 * Power256(3) == 65536 * Power256(2) == 0x100_0000 * Power256(1);
    assert Power256(1) == 256 * Power256(0);
  }

  /** What a store of this width keeps of its cells. */
  function Kept(cells: seq<int>, width: nat): seq<int>
    requires |cells| > 0
  {
    if width >= 4 then cells else if width == 2 then [cells[0] % 0x1_0000] else [cells[0] % 0x100]
  }

  predicate Cells32(cells: seq<int>)
  {
    forall k :: 0 <= k < |cells| ==> -0x8000_0000 <= cells[k] < 0x8000_0000
  }

  lemma WordRoundTrip(x: int)
    requires -0x8000_0000 <= x < 0x8000_0000
    ensures ToInt32(FromBytes(Bytes(x % SPAN32, 4))) == x
  {
    SmallPowers256();
    BytesRoundTrip(x % SPAN32, 4);
  }

  /** Loading what was stored at the same place and width. */
  lemma StoreThenLoad(data: seq<byte>, at: int, cells: seq<int>, width: nat)
    requires width == 1 || width == 2 || width == 4 || width == 8
    requires |cells| == (if width == 8 then 2 else 1) && Cells32(cells) && Readable(data, at, width)
    ensures LoadCells(Write(data, at, StoreBytes(cells, width)), at, width) == Kept(cells, width)
  {
    hide Bytes, FromBytes, ToInt32, Write;
    var bs := StoreBytes(cells, width);
    var d := Write(data, at, bs);
    assert d[at..at + width] == bs;
    if width >= 4 { WordRoundTrip(cells[0]); }
    if width == 8 {
      WordRoundTrip(cells[1]);
      SubSlice(d, at, at + 8, 0, 4);
      SubSlice(d, at, at + 8, 4, 8);
      assert bs[0..4] == Bytes(cells[0] % SPAN32, 4) && bs[4..8] == Bytes(cells[1] % SPAN32, 4);
    } else {
      NarrowRoundTrip(cells[0], width);
    }
  }

  lemma OneOctet(v: int)
    ensures Bytes(v, 1) == [v % 256]
  {
    assert Bytes(v, 1) == [v % 256] + Bytes(v / 256, 0);
  }

  lemma TwoOctets(v: int)
    ensures Bytes(v, 2) == [v % 256, v / 256 % 256]
  {
    OneOctet(v / 256);
    assert Bytes(v, 2) == [v % 256] + Bytes(v / 256, 1);
  }

  lemma LowParts(x: int)
    ensures x % SPAN32 % 256 == x % 0x1_0000 % 256 == x % 256
    ensures x % SPAN32 / 256 % 256 == x % 0x1_0000 / 256 % 256
  {
    var y, q := x % SPAN32, x / SPAN32;
    var z, k := y % 0x1_0000, y / 0x1_0000;
    var l, h := z % 256, z / 256;
    By65536(x, 0x1_0000 * q + k, z);
    By256(x, 256 * (0x1_0000 * q + k) + h, l);
    By256(y, 256 * k + h, l);
    By256(256 * k + h, k, h);
  }

  lemma By256(x: int, k: int, r: int)
    requires x == 256 * k + r && 0 <= r < 256
    ensures x / 256 == k && x % 256 == r
  {
  }

  lemma By65536(x: int, k: int, r: int)
    requires x == 0x1_0000 * k + r && 0 <= r < 0x1_0000
    ensures x % 0x1_0000 == r
  {
  }

  lemma LowOctets(x: int)
    ensures Bytes(x % SPAN32, 1) == Bytes(x % 0x100, 1)
    ensures Bytes(x % SPAN32, 2) == Bytes(x % 0x1_0000, 2)
  {
    hide Bytes;
    LowParts(x);
    OneOctet(x % SPAN32);
    OneOctet(x % 0x100);
    TwoOctets(x % SPAN32);
    TwoOctets(x % 0x1_0000);
  }

  lemma NarrowRoundTrip(x: int, width: nat)
    ensures width == 1 ==> FromBytes(Bytes(x % SPAN32, width)) == x % 0x100
    ensures width == 2 ==> FromBytes(Bytes(x % SPAN32, width)) == x % 0x1_0000
  {
    hide Bytes, FromBytes;
    LowOctets(x);
    SmallPowers256();
    if width == 1 { BytesRoundTrip(x % 0x100, 1); }
    if width == 2 { BytesRoundTrip(x % 0x1_0000, 2); }
  }

  lemma StoreAtThenLoadAt(heap: Heap, at: int, cells: seq<int>, width: nat)
    requires width == 1 || width == 2 || width == 4 || width == 8
    requires |cells| == (if width == 8 then 2 else 1) && Cells32(cells) && Readable(heap.data, at, width)
    ensures var stored := StoreAt(heap, at, StoreBytes(cells, width));
            stored.Some? && LoadAt(stored.value.1, at, width) == Some((Kept(cells, width), stored.value.1))
  {
    hide LoadCells, StoreBytes, Write;
    StoreThenLoad(heap.data, at, cells, width);
  }

  /** The four ways to one place: as an element and as a field. */
  function StoreElement(heap: Heap, base: int, index: int, cells: seq<int>, width: nat): Option<(seq<int>, Heap)>
    requires |cells| == if width == 8 then 2 else 1
  {
    ComputeStorage(StoreArray(width), [base, index] + cells, heap)
  }

  function StoreOwnField(heap: Heap, base: int, offset: int, cells: seq<int>, width: nat): Option<(seq<int>, Heap)>
    requires |cells| == if width == 8 then 2 else 1
  {
    ComputeStorage(StoreField(width, offset), [base] + cells, heap)
  }

  function LoadElement(heap: Heap, base: int, index: int, width: nat): Option<(seq<int>, Heap)>
  {
    ComputeStorage(LoadArray(width), [base, index], heap)
  }

  function LoadOwnField(heap: Heap, base: int, offset: int, width: nat): Option<(seq<int>, Heap)>
  {
    ComputeStorage(LoadField(width, offset), [base], heap)
  }

  lemma StorePlaces(heap: Heap, base: int, index: int, field: int, offset: int, cells: seq<int>, width: nat)
    requires |cells| == if width == 8 then 2 else 1
    ensures StoreElement(heap, base, index, cells, width)
            == StoreAt(heap, base + index * width, StoreBytes(cells, width))
    ensures StoreOwnField(heap, field, offset, cells, width) == StoreAt(heap, field + offset, StoreBytes(cells, width))
  {
    hide StoreAt, StoreBytes, LoadAt;
    assert ([base, index] + cells)[2..] == cells && ([field] + cells)[1..] == cells;
  }

  lemma LoadPlaces(heap: Heap, base: int, index: int, field: int, offset: int, width: nat)
    ensures LoadElement(heap, base, index, width) == LoadAt(heap, base + index * width, width)
    ensures LoadOwnField(heap, field, offset, width) == LoadAt(heap, field + offset, width)
  {
    hide StoreAt, StoreBytes, LoadAt;
  }

  /** An array store is seen by the field load of the same place, and a field store by the array
      load, narrowed to its width. */
  lemma FieldsAreElements(heap: Heap, base: int, index: int, field: int, offset: int, cells: seq<int>, width: nat)
      returns (after: Heap)
    requires width == 1 || width == 2 || width == 4 || width == 8
    requires |cells| == (if width == 8 then 2 else 1) && Cells32(cells)
    requires base + index * width == field + offset && Readable(heap.data, field + offset, width)
    ensures StoreElement(heap, base, index, cells, width) == Some(([], after))
    ensures StoreOwnField(heap, field, offset, cells, width) == Some(([], after))
    ensures LoadOwnField(after, field, offset, width) == Some((Kept(cells, width), after))
    ensures LoadElement(after, base, index, width) == Some((Kept(cells, width), after))
  {
    hide StoreBytes, LoadAt, Kept, StoreElement, StoreOwnField, LoadElement, LoadOwnField, Write;
    StoreAtThenLoadAt(heap, field + offset, cells, width);
    StorePlaces(heap, base, index, field, offset, cells, width);
    after := StoreAt(heap, field + offset, StoreBytes(cells, width)).value.1;
    LoadPlaces(after, base, index, field, offset, width);
  }

  /** A store changes no octets it does not cover. */
  lemma StoresStayInPlace(heap: Heap, base: int, offset: int, cells: seq<int>, width: nat, from: int, n: nat)
    requires |cells| == (if width == 8 then 2 else 1)
    requires Readable(heap.data, base + offset, width) && Readable(heap.data, from, n)
    requires from + n <= base + offset || base + offset + width <= from
    ensures var stored := StoreOwnField(heap, base, offset, cells, width);
            stored.Some? && |stored.value.1.data| == |heap.data|
            && stored.value.1.data[from..from + n] == heap.data[from..from + n]
  {
    hide StoreBytes, StoreOwnField, StoreElement;
    StorePlaces(heap, base, 0, base, offset, cells, width);
  }

  // ------------------------------------------------------------------ shuffles

  /** Cells a shuffle copies. */
  function Copied(op: Op): nat
  {
    if op.Dup? || op.DupDown2? || op.DupDown3? then 1 else 2
  }

  /** Every shuffle leaves the cells it takes as they were, on top of a copy of the topmost one or two. */
  lemma ShuffleCopiesBelow(op: Op, a: seq<int>)
    requires IsShuffle(op) && |a| == Pops(op)
    ensures Shuffled(op, a) == a[|a| - Copied(op)..] + a
  {
  }
}
