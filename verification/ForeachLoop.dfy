/** Inline object arrays: InitArray's layout, and the Foreach loop that walks it. */
module ForeachLoop {
  import opened Words
  import opened Scode
  import opened FlatMachine
  import opened FrameMachine

  // ---------------------------------------------------------- initArray

  /** Where initArray puts object `i` of `length`, right after the table of references. */
  function ObjectAt(at: int, length: nat, size: int, i: nat): int { at + 4 * length + size * i }

  /** After `n` stores the first `n` references point at their objects. */
  lemma {:induction false} TableFilled(data: seq<byte>, at: int, length: nat, size: int, n: nat, i: nat)
    requires i < n <= length && Readable(data, at, 4 * length)
    ensures Read(ArrayInited(data, at, length, size, n), at + 4 * i, 4) == ObjectAt(at, length, size, i) % SPAN32
  {
    hide Bytes, FromBytes, ArrayInited, Write;
    var before := ArrayInited(data, at, length, size, n - 1);
    var ref := (at + 4 * length + size * (n - 1)) % SPAN32;
    var d := ArrayInited(data, at, length, size, n);
    InitedStep(data, at, length, size, n);
    if i == n - 1 {
      RefRoundTrip(ref);
    } else {
      TableFilled(data, at, length, size, n - 1, i);
      WriteElsewhere(before, at + 4 * (n - 1), Bytes(ref, 4), at + 4 * i, 4);
    }
  }

  lemma InitedStep(data: seq<byte>, at: int, length: nat, size: int, n: nat)
    requires 0 < n <= length && Readable(data, at, 4 * length)
    ensures ArrayInited(data, at, length, size, n) ==
            Write(ArrayInited(data, at, length, size, n - 1), at + 4 * (n - 1),
                  Bytes((at + 4 * length + size * (n - 1)) % SPAN32, 4))
  {
  }

  lemma RefRoundTrip(ref: int)
    requires 0 <= ref < SPAN32
    ensures FromBytes(Bytes(ref, 4)) == ref
  {
    assert Power256(4) == 256 * Power256(3) == 256 * 256 * Power256(2) == 256 * 256 * 256 * Power256(1);
    assert Power256(1) == 256;
    BytesRoundTrip(ref, 4);
  }

  lemma WriteElsewhere(data: seq<byte>, at: int, bs: seq<byte>, from: int, n: nat)
    requires Readable(data, at, |bs|) && Readable(data, from, n)
    requires from + n <= at || at + |bs| <= from
    ensures Write(data, at, bs)[from..from + n] == data[from..from + n]
  {
  }

  lemma WriteOutside(data: seq<byte>, at: int, bs: seq<byte>, k: nat)
    requires Readable(data, at, |bs|) && k < |data| && !(at <= k < at + |bs|)
    ensures Write(data, at, bs)[k] == data[k]
  {
  }

  /** initArray writes nothing but the table. */
  lemma {:induction false} OnlyTableWritten(data: seq<byte>, at: int, length: nat, size: int, n: nat, k: nat)
    requires n <= length && Readable(data, at, 4 * length) && k < |data| && !(at <= k < at + 4 * length)
    ensures ArrayInited(data, at, length, size, n)[k] == data[k]
  {
    hide Bytes, Write;
    if n > 0 {
      var bs := Bytes((at + 4 * length + size * (n - 1)) % SPAN32, 4);
      OnlyTableWritten(data, at, length, size, n - 1, k);
      WriteOutside(ArrayInited(data, at, length, size, n - 1), at + 4 * (n - 1), bs, k);
    }
  }

  /** The objects lie after the table, in order, and do not overlap. */
  lemma ObjectsDisjoint(at: int, length: nat, size: nat, i: nat, j: nat)
    requires i < j < length
    ensures at + 4 * length <= ObjectAt(at, length, size, i)
    ensures ObjectAt(at, length, size, i) + size <= ObjectAt(at, length, size, j)
    ensures ObjectAt(at, length, size, j) + size <= ObjectAt(at, length, size, length)
  {
    StepsApart(size, 0, i);
    StepsApart(size, i, j);
    StepsApart(size, j, length);
  }

  lemma {:induction false} StepsApart(size: nat, i: nat, j: nat)
    requires i <= j
    ensures size * i + (if i < j then size else 0) <= size * j
    decreases j - i
  {
    if i < j {
      StepsApart(size, i, j - 1);
      assert size * j == size * (j - 1) + size;
    }
  }

  // ------------------------------------------------------------- the loop

  /** A Foreach loop over references as the compiler emits it: Foreach, then LoadRefArray. */
  predicate IsLoop(img: Image, cp: int, offset: int, length: nat)
  {
    && Fetch(img, cp) == Foreach(offset, length)
    && Fetch(img, cp + length) == Simple(LoadArray(4), 1)
  }

  /** At the Foreach, its control cells on top of the operands `pre`. */
  predicate AtLoop(img: Image, base: int, s: State, cp: int, pre: seq<int>, array_: int, count: int, counter: int)
  {
    s.cp == cp && s.top.ops == pre + [array_, count, counter] && StackTop(base, s) + 2 < img.limit
  }

  lemma ForeachGoesOn(img: Image, base: int, s: State, cp: int, offset: int, length: nat,
                      pre: seq<int>, array_: int, count: int, counter: int, e: Effect)
    requires IsLoop(img, cp, offset, length) && AtLoop(img, base, s, cp, pre, array_, count, counter)
    requires -1 <= counter && counter + 1 < count < 0x8000_0000
    ensures FrameStep(img, base, s, e) ==
            Goes(WithOps(s, pre + [array_, count, counter + 1, array_, counter + 1], cp + length))
  {
    hide Decode;
    var ops := s.top.ops;
    assert Top(ops, 3) == [array_, count, counter];
    assert Keep(ops, 1) + [counter + 1] + [array_, counter + 1]
        == pre + [array_, count, counter + 1, array_, counter + 1];
  }

  lemma ForeachExits(img: Image, base: int, s: State, cp: int, offset: int, length: nat,
                     pre: seq<int>, array_: int, count: int, counter: int, e: Effect)
    requires IsLoop(img, cp, offset, length) && AtLoop(img, base, s, cp, pre, array_, count, counter)
    requires -1 <= counter < 0x7FFF_FFFF && counter + 1 >= count
    ensures FrameStep(img, base, s, e) == Goes(WithOps(s, pre + [array_, count, counter + 1], cp + offset))
  {
    hide Decode;
    var ops := s.top.ops;
    assert Top(ops, 3) == [array_, count, counter];
    assert Keep(ops, 1) + [counter + 1] == pre + [array_, count, counter + 1];
  }

  function Element(heap: Heap, array_: int, i: int): int
    requires Readable(heap.data, array_ + i * 4, 4)
  {
    ToInt32(Read(heap.data, array_ + i * 4, 4))
  }

  lemma ElementLoaded(img: Image, base: int, s: State, ops: seq<int>, array_: int, i: int, e: Effect)
    requires Fetch(img, s.cp) == Simple(LoadArray(4), 1) && s.top.ops == ops + [array_, i]
    requires array_ != 0 && Readable(s.heap.data, array_ + i * 4, 4) && StackTop(base, s) < img.limit
    ensures FrameStep(img, base, s, e) == Goes(WithOps(s, ops + [Element(s.heap, array_, i)], s.cp + 1))
  {
    hide Decode, Read;
    assert Top(s.top.ops, 2) == [array_, i];
    assert Keep(s.top.ops, 2) == ops;
    assert LoadCells(s.heap.data, array_ + i * 4, 4) == [Element(s.heap, array_, i)];
  }

  /** The state in which the body of the next iteration starts. */
  function Loaded(s: State, pre: seq<int>, array_: int, count: int, i: int, cp: int): State
    requires Readable(s.heap.data, array_ + i * 4, 4)
  {
    WithOps(s, pre + [array_, count, i, Element(s.heap, array_, i)], cp)
  }

  /** Foreach and LoadRefArray together start iteration `counter + 1`. */
  lemma IterationStarts(img: Image, base: int, s: State, cp: int, offset: int, length: nat,
                        pre: seq<int>, array_: int, count: int, counter: int, e: Effect)
    requires IsLoop(img, cp, offset, length) && AtLoop(img, base, s, cp, pre, array_, count, counter)
    requires -1 <= counter && counter + 1 < count < 0x8000_0000
    requires array_ != 0 && Readable(s.heap.data, array_ + (counter + 1) * 4, 4)
    ensures FrameRun(img, base, s, [e, e]) == Goes(Loaded(s, pre, array_, count, counter + 1, cp + length + 1))
  {
    hide FrameStep, Decode, Element;
    ForeachGoesOn(img, base, s, cp, offset, length, pre, array_, count, counter, e);
    var s' := WithOps(s, pre + [array_, count, counter + 1, array_, counter + 1], cp + length);
    assert s'.top.ops == pre + [array_, count, counter + 1] + [array_, counter + 1];
    ElementLoaded(img, base, s', pre + [array_, count, counter + 1], array_, counter + 1, e);
    assert pre + [array_, count, counter + 1] + [Element(s.heap, array_, counter + 1)]
        == pre + [array_, count, counter + 1, Element(s.heap, array_, counter + 1)];
    var s'' := Loaded(s, pre, array_, count, counter + 1, cp + length + 1);
    assert [e, e][1..] == [e] && [e][1..] == [];
    assert FrameRun(img, base, s'', []) == Goes(s'');
    assert FrameRun(img, base, s', [e]) == Goes(s'');
  }

  /** The body, run from where an iteration starts, comes back to the Foreach having consumed the
      element and left the operands below it alone. Anything else it may change. */
  predicate BodyReturns(img: Image, base: int, s: State, cp: int, body: seq<Effect>)
    requires s.top.ops != []
  {
    var o := FrameRun(img, base, s, body);
    o.Goes? && o.s.cp == cp && o.s.top.ops == Keep(s.top.ops, 1) && StackTop(base, o.s) + 2 < img.limit
  }

  /** Each of `bodies`, the runs of the successive iterations from `counter + 1` on, returns, and
      finds the table readable. */
  predicate BodiesReturn(img: Image, base: int, s: State, cp: int, length: nat,
                         pre: seq<int>, array_: int, count: int, counter: int, bodies: seq<seq<Effect>>)
    decreases |bodies|
  {
    bodies != [] ==>
      && Readable(s.heap.data, array_ + (counter + 1) * 4, 4)
      && var start := Loaded(s, pre, array_, count, counter + 1, cp + length + 1);
         && BodyReturns(img, base, start, cp, bodies[0])
         && BodiesReturn(img, base, FrameRun(img, base, start, bodies[0]).s, cp, length, pre, array_, count,
                         counter + 1, bodies[1..])
  }

  /** The elements handed to the bodies, in order. */
  function Elements(img: Image, base: int, s: State, cp: int, length: nat,
                    pre: seq<int>, array_: int, count: int, counter: int, bodies: seq<seq<Effect>>): (r: seq<int>)
    requires BodiesReturn(img, base, s, cp, length, pre, array_, count, counter, bodies)
    ensures |r| == |bodies|
    decreases |bodies|
  {
    if bodies == [] then []
    else
      var start := Loaded(s, pre, array_, count, counter + 1, cp + length + 1);
      [Element(s.heap, array_, counter + 1)] +
      Elements(img, base, FrameRun(img, base, start, bodies[0]).s, cp, length, pre, array_, count, counter + 1,
               bodies[1..])
  }

  function Flatten(bodies: seq<seq<Effect>>, e: Effect): seq<Effect>
  {
    if bodies == [] then [e] else [e, e] + bodies[0] + Flatten(bodies[1..], e)
  }

  /** The loop runs its body once for each remaining index, in order, and then leaves with the same
      operands below and its three control cells, the counter at the count. */
  lemma {:induction false} LoopVisitsAll(img: Image, base: int, s: State, cp: int, offset: int, length: nat,
                                         pre: seq<int>, array_: int, count: int, counter: int,
                                         bodies: seq<seq<Effect>>, e: Effect)
    requires IsLoop(img, cp, offset, length) && AtLoop(img, base, s, cp, pre, array_, count, counter)
    requires -1 <= counter < 0x7FFF_FFFF && count < 0x8000_0000 && array_ != 0
    requires |bodies| == if counter + 1 < count then count - (counter + 1) else 0
    requires BodiesReturn(img, base, s, cp, length, pre, array_, count, counter, bodies)
    ensures var o := FrameRun(img, base, s, Flatten(bodies, e));
            && o.Goes? && o.s.cp == cp + offset
            && o.s.top.ops == pre + [array_, count, if counter + 1 < count then count else counter + 1]
    decreases |bodies|
  {
    hide FrameStep, Decode, IsLoop, Element;
    if bodies == [] {
      ForeachExits(img, base, s, cp, offset, length, pre, array_, count, counter, e);
      var s' := WithOps(s, pre + [array_, count, counter + 1], cp + offset);
      assert [e][1..] == [];
      assert FrameRun(img, base, s', []) == Goes(s');
    } else {
      IterationStarts(img, base, s, cp, offset, length, pre, array_, count, counter, e);
      var start := Loaded(s, pre, array_, count, counter + 1, cp + length + 1);
      var next := FrameRun(img, base, start, bodies[0]).s;
      assert Keep(start.top.ops, 1) == pre + [array_, count, counter + 1];
      LoopVisitsAll(img, base, next, cp, offset, length, pre, array_, count, counter + 1, bodies[1..], e);
      FrameRunConcat(img, base, s, [e, e], bodies[0]);
      FrameRunConcat(img, base, s, [e, e] + bodies[0], Flatten(bodies[1..], e));
    }
  }

  /** The bodies leave the table of references as it is. */
  predicate TableKept(img: Image, base: int, s: State, cp: int, length: nat, pre: seq<int>, array_: int, count: int,
                      counter: int, bodies: seq<seq<Effect>>, table: seq<byte>)
    requires BodiesReturn(img, base, s, cp, length, pre, array_, count, counter, bodies)
    decreases |bodies|
  {
    && Readable(s.heap.data, array_, |table|) && s.heap.data[array_..array_ + |table|] == table
    && (bodies != [] ==>
          var start := Loaded(s, pre, array_, count, counter + 1, cp + length + 1);
          TableKept(img, base, FrameRun(img, base, start, bodies[0]).s, cp, length, pre, array_, count, counter + 1,
                    bodies[1..], table))
  }

  /** Over an array laid out by initArray the loop's bodies see each object once, in order. */
  lemma {:induction false} LoopSeesObjects(img: Image, base: int, s: State, cp: int, length: nat,
                                           pre: seq<int>, array_: int, count: nat, counter: int,
                                           bodies: seq<seq<Effect>>, data: seq<byte>, size: nat, k: nat)
    requires BodiesReturn(img, base, s, cp, length, pre, array_, count, counter, bodies)
    requires -1 <= counter && counter + 1 + |bodies| == count && k < |bodies|
    requires Readable(data, array_, 4 * count)
    requires var d := ArrayInited(data, array_, count, size, count);
             TableKept(img, base, s, cp, length, pre, array_, count, counter, bodies, d[array_..array_ + 4 * count])
    ensures Elements(img, base, s, cp, length, pre, array_, count, counter, bodies)[k]
         == ToInt32(ObjectAt(array_, count, size, counter + 1 + k) % SPAN32)
    decreases |bodies|
  {
    hide FrameRun, Decode, ArrayInited, Read;
    var d := ArrayInited(data, array_, count, size, count);
    var table := d[array_..array_ + 4 * count];
    if k == 0 {
      var i := counter + 1;
      TableFilled(data, array_, count, size, count, i);
      SameRef(d, s.heap.data, array_, count, i);
    } else {
      var start := Loaded(s, pre, array_, count, counter + 1, cp + length + 1);
      LoopSeesObjects(img, base, FrameRun(img, base, start, bodies[0]).s, cp, length, pre, array_, count, counter + 1,
                      bodies[1..], data, size, k - 1);
    }
  }

  lemma SameRef(d: seq<byte>, d': seq<byte>, at: int, count: nat, i: nat)
    requires i < count && Readable(d, at, 4 * count) && Readable(d', at, 4 * count)
    requires d'[at..at + 4 * count] == d[at..at + 4 * count]
    ensures Read(d', at + i * 4, 4) == Read(d, at + 4 * i, 4)
  {
    SubSlice(d, at, at + 4 * count, 4 * i, 4 * i + 4);
    SubSlice(d', at, at + 4 * count, 4 * i, 4 * i + 4);
  }
}
