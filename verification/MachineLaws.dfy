/** What control instructions do, stated on the cells and registers themselves: where branches go, what a
    callee sees and its caller gets back, how short forms relate to the instructions they stand for. */
module MachineLaws {
  import opened Words
  import opened Scode
  import opened OpcodeLaws
  import opened FlatMachine
  import opened Arithmetic
  import opened Assembler

  // --------------------------------------------------------------- branches

  /** Room for the cells an instruction reads, and no trap. */
  predicate Clear(img: Image, m: Memory, r: Regs)
  {
    var i := Fetch(img, r.cp);
    Within(m.stack, r.sp + 1 - Reads(i), Reads(i)) && Trap(img, m, r, i).None?
  }

  /** A jump goes to its offset exactly if the top cell is not zero, is zero, or the two top cells
      compare, the lower one on the left; otherwise to the next instruction. It takes those cells and
      writes none. */
  lemma BranchGoes(img: Image, m: Memory, r: Regs, n: NativeResult)
    requires Fetch(img, r.cp).Branch? && Clear(img, m, r)
    ensures var Branch(cond, offset, length) := Fetch(img, r.cp);
            var o := FlatStep(img, m, r, n);
            && o.Running? && o.m == m
            && match cond
               case IsNonZero => o.r == r.(sp := r.sp - 1, cp := r.cp + if m.stack[r.sp] != 0 then offset else length)
               case IsZero => o.r == r.(sp := r.sp - 1, cp := r.cp + if m.stack[r.sp] == 0 then offset else length)
               case IntIs(c) =>
                 o.r == r.(sp := r.sp - 2,
                           cp := r.cp + if IntCompare(c, m.stack[r.sp - 1], m.stack[r.sp]) == 1 then offset else length)
  {
    hide Decode;
  }

  lemma JumpGoes(img: Image, m: Memory, r: Regs, n: NativeResult)
    requires Fetch(img, r.cp).Jump? && Clear(img, m, r)
    ensures FlatStep(img, m, r, n) == Running(m, r.(cp := r.cp + Fetch(img, r.cp).offset))
  {
    hide Decode;
  }

  /** A Switch over a table the compiler wrote goes to the entry of the top cell, or behind the table if
      there is none. */
  lemma SwitchGoes(img: Image, m: Memory, r: Regs, n: NativeResult, offsets: seq<int>)
    requires Fetch(img, r.cp) == Switch(|offsets|) && Clear(img, m, r)
    requires forall v :: 0 <= v < |offsets| ==> JumpOffset(offsets[v])
    requires HasCode(img.code, r.cp + 3, Table(offsets))
    ensures var v := m.stack[r.sp];
            FlatStep(img, m, r, n)
            == Running(m, r.(sp := r.sp - 1,
                             cp := r.cp + if 0 <= v < |offsets| then offsets[v] else 3 + 2 * |offsets|))
  {
    hide Decode, SwitchTarget, HasCode, Table;
    TableTarget(img, r.cp, offsets, m.stack[r.sp]);
  }

  lemma TableTarget(img: Image, cp: int, offsets: seq<int>, v: int)
    requires forall v :: 0 <= v < |offsets| ==> JumpOffset(offsets[v])
    requires HasCode(img.code, cp + 3, Table(offsets))
    ensures SwitchTarget(img, cp, |offsets|, v) == cp + if 0 <= v < |offsets| then offsets[v] else 3 + 2 * |offsets|
  {
    hide U1, S2, HasCode, Table;
    if 0 <= v < |offsets| { TableHolds(img.code, cp + 3, offsets, v); }
  }

  // -------------------------------------------------------------- variables

  function CellsOf(wide: bool): nat { if wide then 2 else 1 }

  /** A load pushes what the last store to the variable took, and goes on. */
  lemma VariableRemembers(m: Memory, r: Regs, region: Region, index: nat, wide: bool, length: nat, length': nat)
    requires StoreVarStep(m, r, region, index, wide, length).Running?
    requires Slot(r, region, index) + 2 * CellsOf(wide) <= r.sp + 1
    ensures var o, n := StoreVarStep(m, r, region, index, wide, length), CellsOf(wide);
            var p := LoadVarStep(o.m, o.r, region, index, wide, length');
            && o.r == r.(sp := r.sp - n, cp := r.cp + length)
            && p.Running? && p.r == r.(cp := r.cp + length + length')
            && p.m.stack[r.sp + 1 - n..r.sp + 1] == m.stack[r.sp + 1 - n..r.sp + 1]
  {
    hide Overwrite;
    var n, at, from := CellsOf(wide), Slot(r, region, index), r.sp + 1 - CellsOf(wide);
    var cells := m.stack[from..r.sp + 1];
    var o := StoreVarStep(m, r, region, index, wide, length);
    OverwrittenPart(m.stack, at, cells);
    OverwrittenPart(o.m.stack, from, cells);
  }

  lemma OverwrittenPart(s: seq<int>, at: int, cells: seq<int>)
    requires 0 <= at && at + |cells| <= |s|
    ensures Overwrite(s, at, cells)[at..at + |cells|] == cells && Overwrite(s, at, cells)[..at] == s[..at]
  {
  }

  /** Other variables keep what they held. */
  lemma OtherVariablesStay(m: Memory, r: Regs, region: Region, index: nat, wide: bool, length: nat, at: int, n: nat)
    requires StoreVarStep(m, r, region, index, wide, length).Running? && Within(m.stack, at, n)
    requires at + n <= Slot(r, region, index) || Slot(r, region, index) + CellsOf(wide) <= at
    ensures StoreVarStep(m, r, region, index, wide, length).m.stack[at..at + n] == m.stack[at..at + n]
  {
  }

  /** LoadParam0Call is LoadParam0 and then Call, three octets long. */
  lemma Param0CallIsBoth(img: Image, m: Memory, r: Regs, target: nat, length: nat)
    ensures var o := LoadVarStep(m, r, Params, 0, false, length);
            CallParam0Step(img, m, r, target)
            == if o.Running? then CallStep(img, o.m, o.r, target, r.cp + 3) else o
  {
    hide Overwrite;
    if Within(m.stack, r.pp, 1) { assert m.stack[r.pp..r.pp + 1] == [m.stack[r.pp]]; }
  }

  /** A field of an inline field, an element of an array by its address, a field of parameter 0: short
      forms and what they stand for. */
  lemma AddressesCompose(a: int, k: int, off: int, off': int, width: nat, heap: Heap)
    ensures Compute(InlineField(off), [a], heap) == Some(([a + off], heap))
    ensures Compute(LoadField(width, off'), [a + off], heap) == Compute(LoadField(width, off + off'), [a], heap)
    ensures Compute(AddArray(width), [a, k], heap).Some?
    ensures Compute(LoadField(width, 0), Compute(AddArray(width), [a, k], heap).value.0, heap)
            == Compute(LoadArray(width), [a, k], heap)
    ensures Compute(AddArray(width), [a, 0], heap) == Some(([a], heap))
  {
  }

  /** The header written by InitVirt or InitComp is the block index a 16-bit field load reads. */
  lemma HeaderIsRead(heap: Heap, at: int, off: int, block: int)
    requires 0 <= block < 0x1_0000 && Readable(heap.data, at + off, 2)
    ensures var h := Compute(InitHeader(off, block), [at], heap);
            h.Some? && h.value.0 == [] && Compute(LoadField(2, off), [at], h.value.1) == Some(([block], h.value.1))
  {
    var bs := Bytes(block, 2);
    var d := Write(heap.data, at + off, bs);
    TwoBytes(block);
    assert Read(d, at + off, 2) == FromBytes(bs);
  }

  /** Memory is little-endian: a stored word is its octets from the lowest up, a long its two words so. */
  lemma StoredOctets(x: int)
    ensures StoreBytes([x], 1) == [x % 256]
    ensures StoreBytes([x], 2) == [x % 256, x / 256 % 256]
    ensures StoreBytes([x], 4) == U4Arg(x % 0x1_0000_0000)
  {
    hide Bytes, U4Arg;
    FourBytes(x % 0x1_0000_0000);
    LowOctets(x);
    OneOctet(x % 0x100);
    TwoOctets(x % 0x1_0000);
    Digits(x);
  }

  lemma Digits(x: int)
    ensures x % 0x100 % 256 == x % 256 && x % 0x1_0000 % 256 == x % 256
    ensures x % 0x1_0000 / 256 % 256 == x / 256 % 256
  {
    var q, z := x / 0x1_0000, x % 0x1_0000;
    var h, l := z / 256, z % 256;
    By256(x, 256 * q + h, l);
    By256(256 * q + h, q, h);
  }

  lemma StoredLong(x: int, y: int)
    ensures StoreBytes([x, y], 8) == U4Arg(x % 0x1_0000_0000) + U4Arg(y % 0x1_0000_0000)
  {
    FourBytes(x % 0x1_0000_0000);
    FourBytes(y % 0x1_0000_0000);
  }

  lemma FourBytes(v: nat)
    ensures Bytes(v, 4) == U4Arg(v)
  {
    TwoOctets(v);
    TwoOctets(v / 65536);
    assert v / 256 / 256 == v / 65536 && v / 65536 / 256 == v / 16777216;
    assert Bytes(v, 4) == [v % 256] + Bytes(v / 256, 3);
    assert Bytes(v / 256, 3) == [v / 256 % 256] + Bytes(v / 65536, 2);
  }

  lemma TwoBytes(v: int)
    requires 0 <= v < 0x1_0000
    ensures FromBytes(Bytes(v, 2)) == v
  {
    assert Power256(2) == 256 * Power256(1) == 65536 * Power256(0);
    BytesRoundTrip(v, 2);
  }

  /** A failed assert is counted as one, a passed one as the other. */
  lemma AssertsCounted(v: int, line: int, heap: Heap)
    ensures Compute(Assert(line), [v], heap)
            == Some(([], if v != 0 then heap.(passes := heap.passes + 1) else heap.(failures := heap.failures + 1)))
  {
  }

  // -------------------------------------------------------------------- traps

  /** An operation on the data memory is given its address in the lowest cell it takes. */
  predicate TakesAddress(op: Op)
  {
    op.LoadField? || op.StoreField? || op.LoadArray? || op.StoreArray? || op.AddArray? || op.InlineField?
  }

  /** The debug build tests exactly that cell, so no load or store goes through a null pointer. */
  lemma AddressIsTested(op: Op)
    ensures PointerAt(op).Some? <==> TakesAddress(op)
    ensures PointerAt(op).Some? ==> PointerAt(op).value == Pops(op) - 1
  {
  }

  lemma NullFails(img: Image, m: Memory, r: Regs, n: NativeResult)
    requires var i := Fetch(img, r.cp);
             && i.Simple? && TakesAddress(i.op) && Within(m.stack, r.sp + 1 - Pops(i.op), Pops(i.op))
             && m.stack[r.sp + 1 - Pops(i.op)] == 0
    ensures FlatStep(img, m, r, n) == Failed(m, 100)
  {
    hide Decode;
    AddressIsTested(Fetch(img, r.cp).op);
  }

  /** Otherwise an instruction fails with 101 exactly from maxStackAddr on, with 12 exactly if it calls
      for the result of a native there is not, and with 11 exactly if it has no meaning. */
  lemma OtherFailures(img: Image, m: Memory, r: Regs, n: NativeResult)
    requires var i := Fetch(img, r.cp);
             && Within(m.stack, r.sp + 1 - Reads(i), Reads(i)) && CheckedPointer(i).None?
    ensures var i := Fetch(img, r.cp);
            var o := FlatStep(img, m, r, n);
            && (r.sp >= img.limit ==> o == Failed(m, 101))
            && (r.sp < img.limit && i.CallNative? ==>
                  (o == Failed(m, 12) <==> 1 <= i.cells && (i.kit, i.id) !in img.natives))
            && (r.sp < img.limit && i.Unaccepted? ==> o == Failed(m, 11))
            && (r.sp < img.limit && !i.CallNative? && !i.Unaccepted? ==> !o.Failed?)
  {
    hide Decode, Compute, Dispatch, SwitchTarget, Overwrite, NumParams, NumLocals, Takes, GivenResult;
  }

  lemma WrongArityFails(img: Image, m: Memory, entry: int, args: seq<int>)
    ensures Enter(img, m, entry, args) == Failed(m, 102) <==> U1(img.code, entry) != |args|
  {
  }

  // -------------------------------------------------------------------- calls

  /** A virtual call reaches the method whose block index is in its slot of the table whose block index
      the receiver holds in its first two octets, both little-endian, a block being four octets. */
  lemma VirtualTarget(img: Image, heap: Heap, cp: int, self: int, slot: nat, argc: nat)
    requires Dispatch(img, heap, cp, self, slot, argc).Some?
    ensures 0 <= self && self + 2 <= |heap.data|
    ensures var lo: int, hi: int := heap.data[self], heap.data[self + 1];
            var table := 4 * (lo + 256 * hi);
            Dispatch(img, heap, cp, self, slot, argc).value
            == 4 * (U1(img.code, table + 2 * slot) + 256 * U1(img.code, table + 2 * slot + 1))
  {
    var d := heap.data[self..self + 2];
    assert FromBytes(d) == d[0] + 256 * FromBytes(d[1..]);
    assert FromBytes(d[1..]) == d[1] + 256 * FromBytes(d[1..][1..]);
  }

  /** The frame of an activation: its registers say where its parameters, header and locals are, and its
      header which method it runs. */
  predicate InFrame(img: Image, m: Memory, r: Regs)
  {
    && 0 <= r.fp && r.fp + 3 <= r.sp + 1 <= |m.stack|
    && var entry := m.stack[r.fp + 2];
       && r.numParams == U1(img.code, entry) && r.numLocals == U1(img.code, entry + 1)
       && r.pp == r.fp - r.numParams && r.lp == r.fp + 3
  }

  /** The method at `target` returns its parameters from the `k`-th on, one or two cells of them, or
      nothing; its load is `n` octets long. */
  predicate Echoes(img: Image, target: nat, k: nat, cells: nat, n: nat)
  {
    if cells == 0 then Fetch(img, target + 2) == Return(0)
    else
      && cells <= 2 && k + cells <= U1(img.code, target)
      && Fetch(img, target + 2) == LoadVar(Params, k, cells == 2, n) && Fetch(img, target + 2 + n) == Return(cells)
  }

  /** The machine until such a method is back. */
  function Echoed(img: Image, m: Memory, r: Regs, n: NativeResult, cells: nat): Outcome
  {
    var o := FlatStep(img, m, r, n);
    if !o.Running? then o
    else if cells == 0 then FlatStep(img, o.m, o.r, n)
    else
      var p := FlatStep(img, o.m, o.r, n);
      if !p.Running? then p else FlatStep(img, p.m, p.r, n)
  }

  predicate RoomToCall(img: Image, m: Memory, r: Regs, argc: nat)
  {
    InFrame(img, m, r) && r.lp + argc <= r.sp + 1 && r.sp + 3 + 255 + 2 < img.limit <= |m.stack| && r.cp + 3 != 0
  }

  /** After the call the callee's header is above the arguments, which lie from its pp on. */
  lemma CallPushesFrame(img: Image, m: Memory, r: Regs, target: nat, n: NativeResult)
    requires Fetch(img, r.cp) == Call(target, false) && RoomToCall(img, m, r, U1(img.code, target))
    ensures var o, argc, locals := FlatStep(img, m, r, n), U1(img.code, target), U1(img.code, target + 1);
            && o.Running? && o.m == m.(stack := o.m.stack) && |o.m.stack| == |m.stack|
            && o.r == Regs(r.sp + 3 + locals, target + 2, r.sp + 1, r.sp + 1 - argc, r.sp + 4, argc, locals)
            && o.m.stack[..r.sp + 1] == m.stack[..r.sp + 1]
            && o.m.stack[r.sp + 1] == r.cp + 3 && o.m.stack[r.sp + 2] == r.fp
            && o.m.stack[r.fp + 2] == m.stack[r.fp + 2]
  {
    hide Decode;
    var header := [r.cp + 3, r.fp, target];
    assert header[0] == r.cp + 3 && header[1] == r.fp;
    assert Overwrite(m.stack, r.sp + 1, header)[..r.sp + 1] == m.stack[..r.sp + 1];
  }

  /** The return takes the callee's frame and arguments off and leaves its result. */
  lemma ReturnPopsFrame(img: Image, m: Memory, r: Regs, fp: int, cp: int, cells: nat, n: NativeResult)
    requires Fetch(img, r.cp) == Return(cells) && cells <= 2 && 0 <= r.sp < img.limit <= |m.stack|
    requires cp != 0 && 1 <= r.fp - r.numParams && r.fp + 3 + r.numLocals + cells == r.sp + 1 && r.lp == r.fp + 3
    requires 0 <= r.numParams && 0 <= r.numLocals && m.stack[r.fp] == cp && m.stack[r.fp + 1] == fp
    requires 0 <= fp && fp + 3 <= r.fp - r.numParams
    ensures var o := FlatStep(img, m, r, n);
            var entry, base := m.stack[fp + 2], r.fp - r.numParams;
            && o.Running? && o.m == m.(stack := o.m.stack) && |o.m.stack| == |m.stack|
            && o.r == Regs(base - 1 + cells, cp, fp, fp - U1(img.code, entry), fp + 3,
                           U1(img.code, entry), U1(img.code, entry + 1))
            && o.m.stack[..base] == m.stack[..base]
            && o.m.stack[base..base + cells] == m.stack[r.sp + 1 - cells..r.sp + 1]
  {
    hide Decode, Overwrite;
    OverwrittenPart(m.stack, r.fp - r.numParams, m.stack[r.sp + 1 - cells..r.sp + 1]);
  }

  lemma LoadPushes(img: Image, m: Memory, r: Regs, k: nat, wide: bool, length: nat, n: NativeResult)
    requires Fetch(img, r.cp) == LoadVar(Params, k, wide, length) && 0 <= r.sp < img.limit && r.sp + 3 <= |m.stack|
    requires Within(m.stack, r.pp + k, CellsOf(wide))
    ensures var o, c := FlatStep(img, m, r, n), CellsOf(wide);
            && o.Running? && o.m == m.(stack := o.m.stack) && |o.m.stack| == |m.stack|
            && o.r == r.(sp := r.sp + c, cp := r.cp + length)
            && o.m.stack[..r.sp + 1] == m.stack[..r.sp + 1]
            && o.m.stack[r.sp + 1..r.sp + 1 + c] == m.stack[r.pp + k..r.pp + k + c]
  {
    hide Decode;
  }

  /** The caller is as it was, with the cells from its `first` argument on replaced by `cells` cells: those
      from the `k`-th argument on. */
  predicate ResultInPlace(m: Memory, r: Regs, o: Outcome, first: int, k: nat, cells: nat)
  {
    && o.Running? && o.m == m.(stack := o.m.stack) && o.r == r.(sp := first - 1 + cells, cp := r.cp + 3)
    && 0 <= first && |o.m.stack| == |m.stack| && first + k + cells <= |m.stack|
    && o.m.stack[..first] == m.stack[..first]
    && o.m.stack[first..first + cells] == m.stack[first + k..first + k + cells]
  }

  /** A call and its return: the callee's parameters are the arguments in the order they were pushed, and
      the caller goes on behind the call with its registers, its other cells, and the result in place of
      the arguments. */
  lemma CallEchoes(img: Image, m: Memory, r: Regs, target: nat, k: nat, cells: nat, length: nat, n: NativeResult)
    requires Fetch(img, r.cp) == Call(target, false) && Echoes(img, target, k, cells, length)
    requires RoomToCall(img, m, r, U1(img.code, target)) && (cells == 0 ==> k == 0)
    ensures ResultInPlace(m, r, Echoed(img, m, r, n, cells), r.sp + 1 - U1(img.code, target), k, cells)
  {
    hide Fetch, FlatStep;
    CallPushesFrame(img, m, r, target, n);
    var a := FlatStep(img, m, r, n);
    if cells == 0 {
      BelowSlice(m.stack, a.m.stack, r.sp + 1, 0, r.sp + 1 - U1(img.code, target));
      ReturnPopsFrame(img, a.m, a.r, r.fp, r.cp + 3, 0, n);
    } else {
      EchoReturns(img, m, r, target, k, cells, length, n);
    }
  }

  /** The callee has loaded its `k`-th parameter. */
  lemma CallThenLoad(img: Image, m: Memory, r: Regs, target: nat, k: nat, cells: nat, length: nat, n: NativeResult)
    requires Fetch(img, r.cp) == Call(target, false) && Echoes(img, target, k, cells, length) && cells > 0
    requires RoomToCall(img, m, r, U1(img.code, target))
    ensures var argc, locals := U1(img.code, target), U1(img.code, target + 1);
            var first := r.sp + 1 - argc;
            var a := FlatStep(img, m, r, n);
            && a.Running?
            && var b := FlatStep(img, a.m, a.r, n);
               && b.Running? && b.m == m.(stack := b.m.stack) && |b.m.stack| == |m.stack|
               && b.r == Regs(r.sp + 3 + locals + cells, target + 2 + length, r.sp + 1, first, r.sp + 4, argc, locals)
               && b.m.stack[r.sp + 1] == r.cp + 3 && b.m.stack[r.sp + 2] == r.fp
               && b.m.stack[r.fp + 2] == m.stack[r.fp + 2] && b.m.stack[..first] == m.stack[..first]
               && b.m.stack[b.r.sp + 1 - cells..b.r.sp + 1] == m.stack[first + k..first + k + cells]
  {
    hide Fetch, FlatStep, U1;
    HeaderOctets(img, target);
    CallPushesFrame(img, m, r, target, n);
    var a := FlatStep(img, m, r, n);
    ParameterLoaded(img, m.stack, a.m, a.r, r.fp, k, cells, length, n);
  }

  /** The load in the callee, whose caller's stack was `s`. */
  lemma ParameterLoaded(img: Image, s: seq<int>, m: Memory, r: Regs, fp: int, k: nat, cells: nat, length: nat,
                        n: NativeResult)
    requires Fetch(img, r.cp) == LoadVar(Params, k, cells == 2, length) && 1 <= cells <= 2
    requires 0 <= r.pp && r.pp + k + cells <= r.fp && 0 <= fp && fp + 2 < r.fp && r.fp + 2 <= r.sp
    requires r.sp + 3 <= img.limit <= |m.stack| == |s| && m.stack[..r.fp] == s[..r.fp]
    ensures var b := FlatStep(img, m, r, n);
            && b.Running? && b.m == m.(stack := b.m.stack) && |b.m.stack| == |m.stack|
            && b.r == r.(sp := r.sp + cells, cp := r.cp + length)
            && b.m.stack[r.fp] == m.stack[r.fp] && b.m.stack[r.fp + 1] == m.stack[r.fp + 1]
            && b.m.stack[fp + 2] == s[fp + 2] && b.m.stack[..r.pp] == s[..r.pp]
            && b.m.stack[r.sp + 1..r.sp + 1 + cells] == s[r.pp + k..r.pp + k + cells]
  {
    hide Fetch, FlatStep;
    LoadPushes(img, m, r, k, cells == 2, length, n);
    StacksKept(s, m.stack, FlatStep(img, m, r, n).m.stack, r.fp - 1, r.sp, fp, r.pp, k, cells);
  }

  lemma HeaderOctets(img: Image, target: int)
    ensures U1(img.code, target) <= 255 && U1(img.code, target + 1) <= 255
  {
  }

  /** What two steps keep, the second of them above `sp'`. */
  lemma StacksKept(s: seq<int>, t: seq<int>, u: seq<int>, sp: int, sp': int, fp: int, first: int, k: nat, cells: nat)
    requires 0 <= first && first + k + cells <= sp + 1 && 0 <= fp && fp + 2 <= sp && sp + 2 <= sp' < |s| == |t| == |u|
    requires t[..sp + 1] == s[..sp + 1] && u[..sp' + 1] == t[..sp' + 1]
    ensures u[sp + 1] == t[sp + 1] && u[sp + 2] == t[sp + 2] && u[fp + 2] == s[fp + 2] && u[..first] == s[..first]
    ensures t[first + k..first + k + cells] == s[first + k..first + k + cells]
  {
    BelowAt(t, u, sp' + 1, sp + 1);
    BelowAt(t, u, sp' + 1, sp + 2);
    BelowAt(t, u, sp' + 1, fp + 2);
    BelowAt(s, t, sp + 1, fp + 2);
    BelowSlice(s, t, sp + 1, first + k, first + k + cells);
    BelowSlice(s, t, sp + 1, 0, first);
    BelowSlice(t, u, sp' + 1, 0, first);
  }

  lemma EchoReturns(img: Image, m: Memory, r: Regs, target: nat, k: nat, cells: nat, length: nat, n: NativeResult)
    requires Fetch(img, r.cp) == Call(target, false) && Echoes(img, target, k, cells, length) && cells > 0
    requires RoomToCall(img, m, r, U1(img.code, target))
    ensures ResultInPlace(m, r, Echoed(img, m, r, n, cells), r.sp + 1 - U1(img.code, target), k, cells)
  {
    hide Fetch, FlatStep;
    CallThenLoad(img, m, r, target, k, cells, length, n);
    var a := FlatStep(img, m, r, n);
    var b := FlatStep(img, a.m, a.r, n);
    ReturnPopsFrame(img, b.m, b.r, r.fp, r.cp + 3, cells, n);
  }

  lemma BelowAt(s: seq<int>, t: seq<int>, n: int, k: int)
    requires 0 <= k < n <= |s| == |t| && t[..n] == s[..n]
    ensures t[k] == s[k]
  {
    assert t[k] == t[..n][k] == s[..n][k];
  }

  lemma BelowSlice(s: seq<int>, t: seq<int>, n: int, i: int, j: int)
    requires 0 <= i <= j <= n <= |s| == |t| && t[..n] == s[..n]
    ensures t[i..j] == s[i..j] && (i == 0 ==> t[..j] == s[..j])
  {
    assert t[i..j] == t[..n][i..j] == s[..n][i..j] == s[i..j];
    assert t[..j] == t[..n][..j] == s[..n][..j] == s[..j];
  }

  /** Entered from outside, a method finds its arguments in order from its pp on, and a header that says
      there is no caller. */
  lemma ArgumentsEntered(img: Image, m: Memory, entry: int, args: seq<int>, k: nat)
    requires U1(img.code, entry) == |args| && 0 <= m.sp && m.sp + |args| + 3 < |m.stack|
    ensures var o := Enter(img, m, entry, args);
            && o.Running? && o.r.cp == entry + 2 && o.r.sp == o.r.fp + 2 + U1(img.code, entry + 1)
            && o.r.pp == m.sp + 1 && o.r.fp == m.sp + 1 + |args|
            && o.m.stack[o.r.fp] == 0 && o.m.stack[o.r.fp + 2] == entry
            && (k < |args| ==> o.m.stack[o.r.pp + k] == args[k])
  {
    var bs := args + [0, 0, entry];
    var t := Overwrite(m.stack, m.sp + 1, bs);
    assert t[m.sp + 1 + |args|] == bs[|args|] && t[m.sp + 1 + |args| + 2] == bs[|args| + 2];
    if k < |args| { assert t[m.sp + 1 + k] == bs[k]; }
  }

  /** vmEntry puts -1 into cell 0 and enters the method whose block index is at the offset it is given. */
  lemma EntryNamesBlock(img: Image, m: Memory, at: int, args: seq<int>, events: seq<Event>)
    requires |m.stack| > 0
    ensures var start := Enter(img, m.(sp := 0, stack := m.stack[0 := -1]),
                               4 * (U1(img.code, at) + 256 * U1(img.code, at + 1)), args);
            VmEntry(img, m, at, args, events)
            == if start.Running? then Run(img, start.m, start.r, events) else start
  {
    hide Enter, Run;
  }

  /** The return of the outermost method answers the top cell; a wide one answers 0, and a void one the
      cell below the arguments it was entered with. */
  lemma OutermostAnswers(img: Image, m: Memory, r: Regs, cells: nat, n: NativeResult)
    requires Fetch(img, r.cp) == Return(cells) && cells <= 2 && 0 <= r.sp < img.limit <= |m.stack| && cells <= r.sp + 1
    requires 0 <= r.fp && r.fp + 1 < |m.stack| && m.stack[r.fp] == 0 && 1 <= r.fp - r.numParams <= |m.stack|
    ensures var o := FlatStep(img, m, r, n);
            && o.Returned? && o.m.stack == m.stack && o.m.heap == m.heap && o.m.sp == m.sp
            && o.value == (if cells == 0 then m.stack[r.fp - r.numParams - 1]
                           else if cells == 1 then m.stack[r.sp] else 0)
  {
    hide Decode;
  }

  /** A native's result takes the place of its arguments: nothing, its word, or the low word and above it
      the high one. */
  lemma NativeAnswers(r: Regs, cells: nat, argc: nat, n: NativeResult)
    requires cells <= 2 && 0 <= r.sp + 1 - argc && r.sp + 1 - argc + cells <= |n.m.stack|
    ensures var o := NativeStep(r, cells, argc, n);
            && o.Running? && o.r == r.(sp := r.sp - argc + cells, cp := r.cp + 4)
            && (cells >= 1 ==> o.m.stack[r.sp + 1 - argc] == n.lo)
            && (cells == 2 ==> o.m.stack[r.sp + 2 - argc] == n.hi)
            && o.m.stack[..r.sp + 1 - argc] == n.m.stack[..r.sp + 1 - argc]
  {
  }
}
