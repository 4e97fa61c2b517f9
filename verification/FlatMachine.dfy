/** The interpreter as vmCall runs it: one contiguous cell stack, and the registers sp, cp,
    fp, pp, lp, numParams and numLocals moved by pointer arithmetic (vm.c:396-1275).

    Frame layout, growing upwards (vm.c:374-394):
      params (from pp) | return cp (at fp) | previous fp | method address | locals (from lp) | temporaries (.. sp)

    Pointers are offsets into separate memories: a code pointer is an offset into the code
    image, a stack pointer a cell index, a data pointer an offset into the data memory. */
module FlatMachine {
  import opened Words
  import opened Scode

  const ERR_UNKNOWN_OPCODE := 11
  const ERR_MISSING_NATIVE := 12
  const ERR_NULL_POINTER := 100
  const ERR_STACK_OVERFLOW := 101
  const ERR_INVALID_METHOD_PARAMS := 102

  /** A code image with what its compiler knows about it: `results` gives the cells each
      method (by the offset of its header) returns, `slots` the cells the slot invoked by each
      CallVirtual returns, `tables` the number of entries of each virtual table by its offset.
      `limit` is maxStackAddr as a cell index. */
  datatype Image = Image(
    code: seq<byte>,
    results: map<int, int>,
    slots: map<int, int>,
    tables: map<int, nat>,
    natives: set<(int, int)>,
    dataBase: int,
    limit: nat)

  /** What vmCall activations share. `sp` is vm->sp. `warnings` counts the stack-imbalance
      messages of the debug build. */
  datatype Memory = Memory(stack: seq<int>, heap: Heap, sp: int, warnings: nat)

  /** The registers of one vmCall activation. */
  datatype Regs = Regs(sp: int, cp: int, fp: int, pp: int, lp: int, numParams: int, numLocals: int)

  datatype Outcome =
    | Running(m: Memory, r: Regs)
    | Returned(m: Memory, value: int)
    | Failed(m: Memory, error: int)
    | Suspended(m: Memory)   // a nested activation has not finished yet
    | Undefined              // behaviour C leaves undefined, not involving the stack
    | WildAccess             // a stack access below cell 0 or past the modelled memory

  /** What a native left behind when it returned. */
  datatype NativeResult = NativeResult(m: Memory, lo: int, hi: int)

  function NumParams(img: Image, entry: int): int { U1(img.code, entry) }

  function NumLocals(img: Image, entry: int): int { U1(img.code, entry + 1) }

  function Fetch(img: Image, cp: int): Instr { Decode(img.code, cp, img.dataBase) }

  /** Operand cells an instruction reads at the stack top. */
  function Reads(i: Instr): nat
  {
    match i
    case Simple(op, _) => Pops(op)
    case StoreVar(_, _, wide, _) => if wide then 2 else 1
    case Branch(c, _, _) => if c.IntIs? then 2 else 1
    case Foreach(_, _) => 3
    case Switch(_) => 1
    case CallVirtual(_, argc) => argc
    case CallNative(_, _, _, argc) => argc
    case Return(cells) => cells
    case Given(source, _) => Takes(source)
    case _ => 0
  }

  function CheckedPointer(i: Instr): Option<nat>
  {
    match i
    case Simple(op, _) => PointerAt(op)
    case Given(ConstField(_), _) => Some(0)
    case Given(ConstArray, _) => Some(1)
    case _ => None
  }

  /** The method block in the `slot`-th entry of a virtual table. */
  function TableEntry(img: Image, table: int, slot: nat): int { U2(img.code, table + 2 * slot) * BLOCK }

  /** The method a virtual call reaches: the vtable block is the first field of the receiver,
      its `slot`-th entry the method's block. Undefined unless there is such an entry and it is a
      method of the arity and result width the call site was compiled for. */
  function Dispatch(img: Image, heap: Heap, cp: int, self: int, slot: nat, argc: nat): Option<int>
  {
    if !Readable(heap.data, self, 2) then None
    else
      var vtable := Read(heap.data, self, 2) * BLOCK;
      var target := TableEntry(img, vtable, slot);
      if vtable in img.tables && slot < img.tables[vtable]
         && target in img.results && NumParams(img, target) == argc
         && cp in img.slots && img.results[target] == img.slots[cp]
      then Some(target) else None
  }

  predicate Within(s: seq<int>, at: int, n: int) { 0 <= at && 0 <= n && at + n <= |s| }

  function Advance(r: Regs, n: int): Regs { r.(cp := r.cp + n) }

  function PushCells(m: Memory, r: Regs, cells: seq<int>): Outcome
  {
    if !Within(m.stack, r.sp + 1, |cells|) then WildAccess
    else Running(m.(stack := Overwrite(m.stack, r.sp + 1, cells)), r.(sp := r.sp + |cells|))
  }

  /** Puts a computed result in place of the `k` top cells. */
  function Replace(m: Memory, r: Regs, k: nat, length: nat, c: Option<(seq<int>, Heap)>): Outcome
  {
    match c
    case None => Undefined
    case Some((cells, heap)) => PushCells(m.(heap := heap), r.(sp := r.sp - k, cp := r.cp + length), cells)
  }

  function SimpleStep(m: Memory, r: Regs, op: Op, length: nat): Outcome
  {
    var k := Pops(op);
    if !Within(m.stack, r.sp + 1 - k, k) then WildAccess
    else Replace(m, r, k, length, Compute(op, m.stack[r.sp + 1 - k..r.sp + 1], m.heap))
  }

  function Slot(r: Regs, region: Region, index: nat): int
  {
    (if region.Params? then r.pp else r.lp) + index
  }

  function LoadVarStep(m: Memory, r: Regs, region: Region, index: nat, wide: bool, length: nat): Outcome
  {
    var at := Slot(r, region, index);
    var n := if wide then 2 else 1;
    if !Within(m.stack, at, n) then WildAccess
    else PushCells(m, Advance(r, length), m.stack[at..at + n])
  }

  function StoreVarStep(m: Memory, r: Regs, region: Region, index: nat, wide: bool, length: nat): Outcome
  {
    var at := Slot(r, region, index);
    var n := if wide then 2 else 1;
    if !Within(m.stack, at, n) || !Within(m.stack, r.sp + 1 - n, n) then WildAccess
    else Running(m.(stack := Overwrite(m.stack, at, m.stack[r.sp + 1 - n..r.sp + 1])),
                 Advance(r.(sp := r.sp - n), length))
  }

  function Taken(cond: Condition, below: int, top: int): bool
  {
    match cond
    case IsZero => top == 0
    case IsNonZero => top != 0
    case IntIs(c) => Holds(c, below, top)
  }

  function BranchStep(m: Memory, r: Regs, cond: Condition, offset: int, length: nat): Outcome
  {
    var n := if cond.IntIs? then 2 else 1;
    if !Within(m.stack, r.sp + 1 - n, n) then WildAccess
    else Running(m, Advance(r.(sp := r.sp - n),
                            if Taken(cond, m.stack[r.sp + 1 - n], m.stack[r.sp]) then offset else length))
  }

  /** Control cells from the stack top: counter, length, array. */
  function ForeachStep(m: Memory, r: Regs, offset: int, length: nat): Outcome
  {
    if !Within(m.stack, r.sp - 2, 3) then WildAccess
    else
      var counter := ToInt32(m.stack[r.sp] + 1);
      var m' := m.(stack := Overwrite(m.stack, r.sp, [counter]));
      if counter >= m.stack[r.sp - 1] then Running(m', Advance(r, offset))
      else PushCells(m', Advance(r, length), [m.stack[r.sp - 2], counter])
  }

  function SwitchTarget(img: Image, cp: int, count: nat, v: int): int
  {
    if v >= count || v < 0 then cp + 3 + count * 2 else cp + S2(img.code, cp + 3 + v * 2)
  }

  function SwitchStep(img: Image, m: Memory, r: Regs, count: nat): Outcome
  {
    if !Within(m.stack, r.sp, 1) then WildAccess
    else Running(m, r.(sp := r.sp - 1, cp := SwitchTarget(img, r.cp, count, m.stack[r.sp])))
  }

  /** The common tail of Call, LoadParam0Call and CallVirtual (vm.c:1017-1028). */
  function CallStep(img: Image, m: Memory, r: Regs, target: int, returnCp: int): Outcome
  {
    if !Within(m.stack, r.sp + 1, 3) then WildAccess
    else
      var fp := r.sp + 1;
      var numParams := NumParams(img, target);
      var numLocals := NumLocals(img, target);
      Running(m.(stack := Overwrite(m.stack, fp, [returnCp, r.fp, target])),
              Regs(fp + 2 + numLocals, target + 2, fp, fp - numParams, fp + 3, numParams, numLocals))
  }

  function CallParam0Step(img: Image, m: Memory, r: Regs, target: int): Outcome
  {
    if !Within(m.stack, r.pp, 1) then WildAccess
    else
      match PushCells(m, r, [m.stack[r.pp]])
      case Running(m', r') => CallStep(img, m', r', target, r.cp + 3)
      case o => o
  }

  function CallVirtualStep(img: Image, m: Memory, r: Regs, slot: nat, argc: nat): Outcome
  {
    if !Within(m.stack, r.sp + 1 - argc, 1) then WildAccess
    else
      match Dispatch(img, m.heap, r.cp, m.stack[r.sp + 1 - argc], slot, argc)
      case None => Undefined
      case Some(target) => CallStep(img, m, r, target, r.cp + 4)
  }

  /** After the native has returned `n` (vm.c:1059-1091). */
  function NativeStep(r: Regs, cells: nat, argc: nat, n: NativeResult): Outcome
  {
    PushCells(n.m, Advance(r.(sp := r.sp - argc), 4),
              if cells == 0 then [] else if cells == 1 then [n.lo] else [n.lo, n.hi])
  }

  /** A word from outside takes the place of the cells it was computed from. */
  function GivenStep(m: Memory, r: Regs, source: Source, length: nat, lo: int, hi: int): Outcome
  {
    var k := Takes(source);
    if !Within(m.stack, r.sp + 1 - k, k) then WildAccess
    else Replace(m, r, k, length, GivenResult(source, m.stack[r.sp + 1 - k..r.sp + 1], m.heap, lo, hi))
  }

  /** ReturnVoid, ReturnPop and ReturnPopWide (vm.c:1093-1178). */
  function ReturnStep(img: Image, m: Memory, r: Regs, cells: nat): Outcome
  {
    if !Within(m.stack, r.sp + 1 - cells, cells) || !Within(m.stack, r.fp, 2) then WildAccess
    else
      var result := m.stack[r.sp + 1 - cells..r.sp + 1];
      var balanced := r.sp - cells - r.numLocals + 1 == r.lp;
      var m' := if balanced then m else m.(warnings := m.warnings + 1);
      var sp := r.fp - r.numParams - 1;
      var cp := m.stack[r.fp];
      if cp == 0 then
        if cells == 0 then (if Within(m.stack, sp, 1) then Returned(m', m.stack[sp]) else WildAccess)
        else Returned(m', if cells == 1 then result[0] else 0)
      else
        var fp := m.stack[r.fp + 1];
        if !Within(m.stack, fp, 3) then WildAccess
        else
          var entry := m.stack[fp + 2];
          var numParams := NumParams(img, entry);
          PushCells(m', Regs(sp, cp, fp, fp - numParams, fp + 3, numParams, NumLocals(img, entry)), result)
  }

  function Execute(img: Image, m: Memory, r: Regs, i: Instr, n: NativeResult): Outcome
  {
    match i
    case Simple(op, length) => SimpleStep(m, r, op, length)
    case LoadVar(region, index, wide, length) => LoadVarStep(m, r, region, index, wide, length)
    case StoreVar(region, index, wide, length) => StoreVarStep(m, r, region, index, wide, length)
    case LoadParam0Inline(offset, length) =>
      if Within(m.stack, r.pp, 1) then PushCells(m, Advance(r, length), [m.stack[r.pp] + offset]) else WildAccess
    case Jump(offset) => Running(m, Advance(r, offset))
    case Branch(cond, offset, length) => BranchStep(m, r, cond, offset, length)
    case Foreach(offset, length) => ForeachStep(m, r, offset, length)
    case Switch(count) => SwitchStep(img, m, r, count)
    case Call(target, loadParam0) =>
      if loadParam0 then CallParam0Step(img, m, r, target) else CallStep(img, m, r, target, r.cp + 3)
    case CallVirtual(slot, argc) => CallVirtualStep(img, m, r, slot, argc)
    case CallNative(cells, kit, id, argc) => NativeStep(r, cells, argc, n)
    case Return(cells) => ReturnStep(img, m, r, cells)
    case Given(source, length) => GivenStep(m, r, source, length, n.lo, n.hi)
    case Unaccepted => Failed(m, ERR_UNKNOWN_OPCODE)
  }

  /** The two tests of the debug build before every instruction (vm.c:455-465), and CallNative's
      test that the native exists (vm.c:1049-1055, which CallNativeVoid lacks). Some(e): the run fails with e. */
  function Trap(img: Image, m: Memory, r: Regs, i: Instr): Option<int>
    requires Within(m.stack, r.sp + 1 - Reads(i), Reads(i))
  {
    var p := CheckedPointer(i);
    if p.Some? && p.value < Reads(i) && m.stack[r.sp - p.value] == 0 then Some(ERR_NULL_POINTER)
    else if r.sp >= img.limit then Some(ERR_STACK_OVERFLOW)
    else if i.CallNative? && i.cells > 0 && (i.kit, i.id) !in img.natives then Some(ERR_MISSING_NATIVE)
    else None
  }

  /** One turn of the dispatch loop; `n` is consulted only when the instruction calls a native or
      takes a word from outside. */
  function FlatStep(img: Image, m: Memory, r: Regs, n: NativeResult): Outcome
  {
    var i := Fetch(img, r.cp);
    if !Within(m.stack, r.sp + 1 - Reads(i), Reads(i)) then WildAccess
    else
      match Trap(img, m, r, i)
      case Some(error) => Failed(m, error)
      case None => Execute(img, m, r, i, n)
  }

  /** Frame set-up on entry to vmCall (vm.c:416-441): arguments and a header whose return cp
      and previous fp are zero, pushed from vm->sp without an overflow test. */
  function Enter(img: Image, m: Memory, entry: int, args: seq<int>): Outcome
  {
    var numLocals := NumLocals(img, entry);
    if NumParams(img, entry) != |args| then Failed(m, ERR_INVALID_METHOD_PARAMS)
    else if !Within(m.stack, m.sp + 1, |args| + 3) then WildAccess
    else
      var fp := m.sp + 1 + |args|;
      Running(m.(stack := Overwrite(m.stack, m.sp + 1, args + [0, 0, entry])),
              Regs(fp + 2 + numLocals, entry + 2, fp, fp - |args|, fp + 3, |args|, numLocals))
  }

  // ----------------------------------------------------------- whole runs

  /** How a native behaves: the methods it calls back through vm->call, one after the other,
      with the events of each of those activations, then the heap and result it leaves.
      One event is consumed per instruction; only native calls look at it, and instructions whose
      result it supplies. */
  datatype Event = Event(calls: seq<Nested>, heap: Heap, lo: int, hi: int)
  datatype Nested = Nested(entry: int, args: seq<int>, events: seq<Event>)

  predicate CallsOut(img: Image, m: Memory, r: Regs)
  {
    var i := Fetch(img, r.cp);
    i.CallNative? && Within(m.stack, r.sp + 1 - Reads(i), Reads(i)) && Trap(img, m, r, i).None?
  }

  /** A native's callbacks, one after the other, sharing the memory. They start from vm->sp as
      the previous one left it, and a callback that fails does not stop the native. */
  function RunCalls(img: Image, m: Memory, calls: seq<Nested>): (o: Outcome)
    decreases calls, 0
  {
    if calls == [] then Returned(m, 0)
    else
      match RunNested(img, m, calls[0])
      case Returned(m', _) => RunCalls(img, m', calls[1..])
      case Failed(m', _) => RunCalls(img, m', calls[1..])
      case Running(m', _) => Suspended(m')
      case o => o
  }

  function RunNested(img: Image, m: Memory, call: Nested): Outcome
    decreases call, 0
  {
    match Enter(img, m, call.entry, call.args)
    case Running(m', r') => Run(img, m', r', call.events)
    case o => o
  }

  function EventStep(img: Image, m: Memory, r: Regs, e: Event): Outcome
    decreases e, 0
  {
    if CallsOut(img, m, r) then
      match RunCalls(img, m.(sp := r.sp), e.calls)
      case Returned(m', _) => FlatStep(img, m, r, NativeResult(m'.(heap := e.heap), e.lo, e.hi))
      case o => o
    else FlatStep(img, m, r, NativeResult(m, e.lo, e.hi))
  }

  function Run(img: Image, m: Memory, r: Regs, events: seq<Event>): Outcome
    decreases events, 1
  {
    if events == [] then Running(m, r)
    else
      match EventStep(img, m, r, events[0])
      case Running(m', r') => Run(img, m', r', events[1..])
      case o => o
  }

  /** vmEntry (vm.c:95-114): cell 0 holds the sentinel, two arguments go to the main method. */
  function VmEntry(img: Image, m: Memory, methodOffset: int, args: seq<int>, events: seq<Event>): Outcome
    requires |m.stack| > 0
  {
    RunNested(img, m.(sp := 0, stack := m.stack[0 := -1]),
              Nested(U2(img.code, methodOffset) * BLOCK, args, events))
  }
}
