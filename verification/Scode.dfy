/** The Sedona instruction set: byte-code decoding (vm.c dispatch, scode.h numbering)
    and the effect of every instruction that works on the operand stack alone. */
module Scode {
  import opened Words

  datatype Compare = Eq | NotEq | Gt | GtEq | Lt | LtEq

  predicate Holds(c: Compare, a: int, b: int)
  {
    match c
    case Eq => a == b
    case NotEq => a != b
    case Gt => a > b
    case GtEq => a >= b
    case Lt => a < b
    case LtEq => a <= b
  }

  datatype Math = Mul | Div | Mod | Add | Sub | Or | Xor | And | ShiftL | ShiftR

  datatype Unary = Not | Neg | Inc | Dec | EqZero | NotEqZero

  /** Instructions that replace the top of the operand stack and go to the next one. */
  datatype Op =
    | Push(cells: seq<int>)
    | Cmp(c: Compare)
    | IntMath(m: Math)
    | IntUnary(u: Unary)
    | LongCmp(c: Compare)
    | LongMath(m: Math)
    | LongUnary(u: Unary)
    | LongToInt
    | IntToLong
    | Drop(n: nat)
    | Dup | Dup2 | DupDown2 | DupDown3 | Dup2Down2 | Dup2Down3
    | LoadField(width: nat, offset: int)
    | StoreField(width: nat, offset: int)
    | LoadArray(width: nat)
    | StoreArray(width: nat)
    | AddArray(width: nat)
    | InlineField(offset: int)
    | InitArray
    | InitHeader(offset: int, block: int)
    | Assert(line: int)

  datatype Region = Params | Locals

  datatype Condition = IsZero | IsNonZero | IntIs(c: Compare)

  /** Where a word comes from that the machine does not compute here: an address in the code image,
      floating-point arithmetic, a field or array holding block indices. */
  datatype Source = CodeAddress(block: nat) | Floating(opcode: nat) | ConstField(offset: int) | ConstArray

  datatype Instr =
    | Simple(op: Op, length: nat)
    | LoadVar(region: Region, index: nat, wide: bool, length: nat)
    | StoreVar(region: Region, index: nat, wide: bool, length: nat)
    | LoadParam0Inline(offset: int, length: nat)
    | Jump(offset: int)
    | Branch(cond: Condition, offset: int, length: nat)
    | Foreach(offset: int, length: nat)
    | Switch(count: nat)
    | Call(target: nat, loadParam0: bool)
    | CallVirtual(slot: nat, argc: nat)
    | CallNative(cells: nat, kit: nat, id: nat, argc: nat)
    | Return(cells: nat)
    | Given(source: Source, length: nat)
    | Unaccepted   // answers ERR_UNKNOWN_OPCODE

  // ---------------------------------------------------------------- memory

  /** Everything a running method shares with the rest of the VM except the stack:
      the data memory (index 0 is the null pointer) and the assert counters. */
  datatype Heap = Heap(data: seq<byte>, passes: nat, failures: nat)

  predicate Readable(data: seq<byte>, at: int, n: nat) { 0 <= at && at + n <= |data| }

  function Read(data: seq<byte>, at: int, n: nat): nat
    requires Readable(data, at, n)
  {
    FromBytes(data[at..at + n])
  }

  function Write(data: seq<byte>, at: int, bs: seq<byte>): (d: seq<byte>)
    requires Readable(data, at, |bs|)
    ensures |d| == |data|
    ensures d[at..at + |bs|] == bs
  {
    data[..at] + bs + data[at + |bs|..]
  }

  /** 8- and 16-bit loads are unsigned, 32-bit loads signed, 64-bit loads fill two cells. */
  function LoadCells(data: seq<byte>, at: int, width: nat): (r: seq<int>)
    requires Readable(data, at, width)
    ensures |r| == if width == 8 then 2 else 1
  {
    if width == 8 then [ToInt32(Read(data, at, 4)), ToInt32(Read(data, at + 4, 4))]
    else if width == 4 then [ToInt32(Read(data, at, 4))]
    else [Read(data, at, width)]
  }

  function StoreBytes(cells: seq<int>, width: nat): (bs: seq<byte>)
    requires |cells| == if width == 8 then 2 else 1
    ensures |bs| == width
  {
    if width == 8 then Bytes(cells[0] % SPAN32, 4) + Bytes(cells[1] % SPAN32, 4)
    else Bytes(cells[0] % SPAN32, width)
  }

  /** The data memory after initArray's first `n` stores (vm.c:180-188). */
  function ArrayInited(data: seq<byte>, at: int, length: nat, size: int, n: nat): (d: seq<byte>)
    requires n <= length && Readable(data, at, 4 * length)
    ensures |d| == |data|
  {
    if n == 0 then data
    else Write(ArrayInited(data, at, length, size, n - 1), at + 4 * (n - 1),
               Bytes((at + 4 * length + size * (n - 1)) % SPAN32, 4))
  }

  // ------------------------------------------------------------ arithmetic

  function IntResult(m: Math, a: int, b: int): (r: Option<int>)
    ensures r.Some? ==> -0x8000_0000 <= r.value < 0x8000_0000
    ensures r.None? <==> (((m.Div? || m.Mod?) && (b == 0 || (a == -0x8000_0000 && b == -1)))
                          || ((m.ShiftL? || m.ShiftR?) && !(0 <= b < 32)))
  {
    match m
    case Mul => Some(ToInt32(a * b))
    case Div => if b == 0 || (a == -0x8000_0000 && b == -1) then None else Some(ToInt32(TruncDiv(a, b)))
    case Mod => if b == 0 || (a == -0x8000_0000 && b == -1) then None else Some(ToInt32(TruncMod(a, b)))
    case Add => Some(ToInt32(a + b))
    case Sub => Some(ToInt32(a - b))
    case Or => Some(ToInt32(Bitwise(OrOp, a % SPAN32, b % SPAN32, 32)))
    case Xor => Some(ToInt32(Bitwise(XorOp, a % SPAN32, b % SPAN32, 32)))
    case And => Some(ToInt32(Bitwise(AndOp, a % SPAN32, b % SPAN32, 32)))
    case ShiftL => if 0 <= b < 32 then Some(ToInt32(a * Power2(b))) else None
    case ShiftR => if 0 <= b < 32 then Some(ToInt32(a / Power2(b))) else None
  }

  function UnaryResult(u: Unary, a: int): (r: int)
    ensures -0x8000_0000 <= r < 0x8000_0000
  {
    match u
    case Not => ToInt32(-1 - a)
    case Neg => ToInt32(-a)
    case Inc => ToInt32(a + 1)
    case Dec => ToInt32(a - 1)
    case EqZero => if a == 0 then 1 else 0
    case NotEqZero => if a != 0 then 1 else 0
  }

  function LongResult(m: Math, a: int, b: int): (r: Option<int>)
    ensures r.Some? ==> -0x8000_0000_0000_0000 <= r.value < 0x8000_0000_0000_0000
  {
    match m
    case Mul => Some(ToInt64(a * b))
    case Div => if b == 0 || (a == -0x8000_0000_0000_0000 && b == -1) then None else Some(ToInt64(TruncDiv(a, b)))
    case Mod => if b == 0 || (a == -0x8000_0000_0000_0000 && b == -1) then None else Some(ToInt64(TruncMod(a, b)))
    case Add => Some(ToInt64(a + b))
    case Sub => Some(ToInt64(a - b))
    case Or => Some(ToInt64(Bitwise(OrOp, a % SPAN64, b % SPAN64, 64)))
    case Xor => Some(ToInt64(Bitwise(XorOp, a % SPAN64, b % SPAN64, 64)))
    case And => Some(ToInt64(Bitwise(AndOp, a % SPAN64, b % SPAN64, 64)))
    case ShiftL => if 0 <= b < 64 then Some(ToInt64(a * Power2(b))) else None
    case ShiftR => if 0 <= b < 64 then Some(ToInt64(a / Power2(b))) else None
  }

  function Flag(b: bool): int { if b then 1 else 0 }

  function Split(x: int): seq<int> { [Low(x), High(x)] }

  // -------------------------------------------------- effect of a simple op

  function IsLongShift(op: Op): bool { op.LongMath? && (op.m.ShiftL? || op.m.ShiftR?) }

  /** Cells taken from the operand stack. */
  function Pops(op: Op): (n: nat)
    ensures op.Drop? || n <= 4
  {
    match op
    case Push(_) => 0
    case Cmp(_) => 2
    case IntMath(_) => 2
    case IntUnary(_) => 1
    case LongCmp(_) => 4
    case LongMath(_) => if IsLongShift(op) then 3 else 4
    case LongUnary(_) => 2
    case LongToInt => 2
    case IntToLong => 1
    case Drop(n) => n
    case Dup => 1
    case Dup2 => 2
    case DupDown2 => 2
    case DupDown3 => 3
    case Dup2Down2 => 3
    case Dup2Down3 => 4
    case LoadField(_, _) => 1
    case StoreField(w, _) => if w == 8 then 3 else 2
    case LoadArray(_) => 2
    case StoreArray(w) => if w == 8 then 4 else 3
    case AddArray(_) => 2
    case InlineField(_) => 1
    case InitArray => 3
    case InitHeader(_, _) => 1
    case Assert(_) => 1
  }

  /** Cells put back on the operand stack. */
  function Pushes(op: Op): nat
  {
    match op
    case Push(cells) => |cells|
    case Cmp(_) => 1
    case IntMath(_) => 1
    case IntUnary(_) => 1
    case LongCmp(_) => 1
    case LongMath(_) => 2
    case LongUnary(_) => 2
    case LongToInt => 1
    case IntToLong => 2
    case Drop(_) => 0
    case Dup => 2
    case Dup2 => 4
    case DupDown2 => 3
    case DupDown3 => 4
    case Dup2Down2 => 5
    case Dup2Down3 => 6
    case LoadField(w, _) => if w == 8 then 2 else 1
    case StoreField(_, _) => 0
    case LoadArray(w) => if w == 8 then 2 else 1
    case StoreArray(_) => 0
    case AddArray(_) => 1
    case InlineField(_) => 1
    case InitArray => 0
    case InitHeader(_, _) => 0
    case Assert(_) => 0
  }

  /** Distance from the stack top of the cell that the debug build tests for null
      (OpcodePointerOffsets). */
  function PointerAt(op: Op): Option<nat>
  {
    match op
    case LoadField(_, _) => Some(0)
    case LoadArray(_) => Some(1)
    case StoreField(w, _) => if w == 8 then Some(2) else Some(1)
    case StoreArray(w) => if w == 8 then Some(3) else Some(2)
    case AddArray(_) => Some(1)
    case InlineField(_) => Some(0)
    case _ => None
  }

  function StoreAt(heap: Heap, at: int, bs: seq<byte>): Option<(seq<int>, Heap)>
  {
    if Readable(heap.data, at, |bs|) then Some(([], heap.(data := Write(heap.data, at, bs)))) else None
  }

  function LoadAt(heap: Heap, at: int, width: nat): Option<(seq<int>, Heap)>
  {
    if Readable(heap.data, at, width) then Some((LoadCells(heap.data, at, width), heap)) else None
  }

  predicate IsMath(op: Op)
  {
    op.Cmp? || op.IntMath? || op.IntUnary? || op.LongCmp? || op.LongMath? || op.LongUnary?
    || op.LongToInt? || op.IntToLong?
  }

  predicate IsStorage(op: Op)
  {
    op.LoadField? || op.StoreField? || op.LoadArray? || op.StoreArray? || op.AddArray?
    || op.InlineField? || op.InitArray? || op.InitHeader?
  }

  /** Arithmetic on the cells `a`. */
  function ComputeMath(op: Op, a: seq<int>): (r: Option<seq<int>>)
    requires |a| == Pops(op)
    requires IsMath(op)
    ensures r.Some? ==> |r.value| == Pushes(op)
  {
    match op
    case Cmp(c) => Some([Flag(Holds(c, a[0], a[1]))])
    case IntMath(m) => (match IntResult(m, a[0], a[1]) case Some(v) => Some([v]) case None => None)
    case IntUnary(u) => Some([UnaryResult(u, a[0])])
    case LongCmp(c) => Some([Flag(Holds(c, Join(a[0], a[1]), Join(a[2], a[3])))])
    case LongMath(m) =>
      var right := if IsLongShift(op) then a[2] else Join(a[2], a[3]);
      (match LongResult(m, Join(a[0], a[1]), right) case Some(v) => Some(Split(v)) case None => None)
    case LongUnary(u) =>
      var x := Join(a[0], a[1]);
      Some(Split(ToInt64(if u.Not? then -1 - x else -x)))
    case LongToInt => Some([Low(Join(a[0], a[1]))])
    case IntToLong => Some(Split(a[0]))
  }

  /** Instructions that read or write the data memory or compute addresses into it. */
  function ComputeStorage(op: Op, a: seq<int>, heap: Heap): (r: Option<(seq<int>, Heap)>)
    requires |a| == Pops(op)
    requires IsStorage(op)
    ensures r.Some? ==> |r.value.0| == Pushes(op)
  {
    match op
    case LoadField(w, off) => LoadAt(heap, a[0] + off, w)
    case StoreField(w, off) => StoreAt(heap, a[0] + off, StoreBytes(a[1..], w))
    case LoadArray(w) => LoadAt(heap, a[0] + a[1] * w, w)
    case StoreArray(w) => StoreAt(heap, a[0] + a[1] * w, StoreBytes(a[2..], w))
    case AddArray(w) => Some(([a[0] + a[1] * w], heap))
    case InlineField(off) => Some(([a[0] + off], heap))
    case InitArray =>
      if a[1] <= 0 then Some(([], heap))
      else if Readable(heap.data, a[0], 4 * a[1])
      then Some(([], heap.(data := ArrayInited(heap.data, a[0], a[1], a[2], a[1]))))
      else None
    case InitHeader(off, block) => StoreAt(heap, a[0] + off, Bytes(block, 2))
  }

  predicate IsShuffle(op: Op)
  {
    op.Dup? || op.Dup2? || op.DupDown2? || op.DupDown3? || op.Dup2Down2? || op.Dup2Down3?
  }

  /** Stack manipulation: the top one or two cells copied on top, or below the cells under them. */
  function Shuffled(op: Op, a: seq<int>): (r: seq<int>)
    requires |a| == Pops(op) && IsShuffle(op)
    ensures |r| == Pushes(op)
  {
    match op
    case Dup => [a[0], a[0]]
    case Dup2 => [a[0], a[1], a[0], a[1]]
    case DupDown2 => [a[1], a[0], a[1]]
    case DupDown3 => [a[2], a[0], a[1], a[2]]
    case Dup2Down2 => [a[1], a[2], a[0], a[1], a[2]]
    case Dup2Down3 => [a[2], a[3], a[0], a[1], a[2], a[3]]
  }

  /** What `op` leaves in place of the cells `a` it takes (a[|a|-1] is the stack top).
      None: behaviour C leaves undefined. */
  function Compute(op: Op, a: seq<int>, heap: Heap): (r: Option<(seq<int>, Heap)>)
    requires |a| == Pops(op)
    ensures r.Some? ==> |r.value.0| == Pushes(op)
  {
    if IsStorage(op) then ComputeStorage(op, a, heap)
    else if IsMath(op) then (match ComputeMath(op, a) case Some(cells) => Some((cells, heap)) case None => None)
    else if IsShuffle(op) then Some((Shuffled(op, a), heap))
    else
    match op
    case Push(cells) => Some((cells, heap))
    case Drop(_) => Some(([], heap))
    case Assert(_) =>
      if a[0] == 0 then Some(([], heap.(failures := heap.failures + 1)))
      else Some(([], heap.(passes := heap.passes + 1)))
  }

  // ------------------------------------------------------- words from outside

  /** Cells taken; float conversions and negations take fewer than the binary operations. */
  function Takes(s: Source): (n: nat)
    ensures n <= 4
  {
    match s
    case CodeAddress(_) => 0
    case ConstField(_) => 1
    case ConstArray => 2
    case Floating(o) =>
      if 95 <= o <= 104 then 2                                        // float, two operands
      else if 106 <= o <= 115 then 4                                  // double, two operands
      else if o == 116 || 121 <= o <= 122 || 126 <= o <= 128 then 2   // double or long, one operand
      else 1
  }

  /** Cells put back. */
  function Gives(s: Source): (n: nat)
    ensures n <= 2 && n <= Takes(s) + 1
  {
    match s
    case Floating(o) =>
      if 112 <= o <= 116 || o == 119 || o == 122 || o == 124 || o == 125 || o == 127 then 2 else 1
    case _ => 1
  }

  function GivenWords(s: Source, lo: int, hi: int): (cells: seq<int>)
    ensures |cells| == Gives(s)
  {
    if Gives(s) == 2 then [lo, hi] else [lo]
  }

  /** Block indices are read from the data memory; the rest is always defined. */
  predicate Defined(s: Source, a: seq<int>, heap: Heap)
    requires |a| == Takes(s)
  {
    match s
    case ConstField(offset) => Readable(heap.data, a[0] + offset, 2)
    case ConstArray => Readable(heap.data, a[0] + 2 * a[1], 2)
    case _ => true
  }

  function GivenResult(s: Source, a: seq<int>, heap: Heap, lo: int, hi: int): (r: Option<(seq<int>, Heap)>)
    requires |a| == Takes(s)
    ensures r.Some? ==> |r.value.0| == Gives(s)
  {
    if Defined(s, a, heap) then Some((GivenWords(s, lo, hi), heap)) else None
  }

  // --------------------------------------------------------------- decoding

  const BLOCK := 4   // SCODE_BLOCK_SIZE

  function U1(code: seq<byte>, i: int): nat { if 0 <= i < |code| then code[i] else 0 }

  function U2(code: seq<byte>, i: int): nat { U1(code, i) + 256 * U1(code, i + 1) }

  function U4(code: seq<byte>, i: int): nat { U2(code, i) + 65536 * U2(code, i + 2) }

  function S1(code: seq<byte>, i: int): int { if U1(code, i) < 128 then U1(code, i) else U1(code, i) - 256 }

  function S2(code: seq<byte>, i: int): int { if U2(code, i) < 32768 then U2(code, i) else U2(code, i) - 65536 }

  /** The six comparisons in opcode order. */
  function CompareOf(n: nat): Compare
    requires n < 6
  {
    [Eq, NotEq, Gt, GtEq, Lt, LtEq][n]
  }

  function MathOf(n: nat): Math
    requires n < 8
  {
    [Mul, Div, Mod, Add, Sub, Or, Xor, And][n]
  }

  function DecodeLiteral(code: seq<byte>, cp: int, o: nat): Instr
  {
    if o == 0 then Simple(Push([]), 1)                      // Nop
    else if o <= 7 then Simple(Push([o - 2]), 1)            // LoadIM1, LoadI0 .. LoadI5
    else if o == 8 then Simple(Push([U1(code, cp + 1)]), 2)
    else if o == 9 then Simple(Push([U2(code, cp + 1)]), 3)
    else if o == 10 then Simple(Push([0, 0]), 1)            // LoadL0
    else if o == 11 then Simple(Push([1, 0]), 1)            // LoadL1
    else if o == 12 then Simple(Push([0]), 1)               // LoadF0, as bits
    else if o == 13 then Simple(Push([0x3F80_0000]), 1)     // LoadF1
    else if o == 14 then Simple(Push([0, 0]), 1)            // LoadD0
    else if o == 15 then Simple(Push([0, 0x3FF0_0000]), 1)  // LoadD1
    else if o == 16 then Simple(Push([0]), 1)               // LoadNull
    else if o == 17 then Simple(Push([2]), 1)               // LoadNullBool
    else if o == 18 then Simple(Push([0x7FC0_0000]), 1)     // LoadNullFloat
    else if o == 19 then Simple(Push([0, 0x7FF8_0000]), 1)  // LoadNullDouble
    else if o <= 21 then Simple(Push([ToInt32(U4(code, U2(code, cp + 1) * BLOCK))]), 3)
    else if o <= 23 then                                    // LoadLong, LoadDouble
      var at := U2(code, cp + 1) * BLOCK;
      Simple(Push([ToInt32(U4(code, at)), ToInt32(U4(code, at + 4))]), 3)
    else if o == 28 then Unaccepted                         // LoadDefine
    else Given(CodeAddress(U2(code, cp + 1)), 3)            // LoadStr, LoadBuf, LoadType, LoadSlot
  }

  function DecodeVar(code: seq<byte>, cp: int, o: nat): Instr
    requires 29 <= o
  {
    if o <= 32 then LoadVar(Params, o - 29, false, 1)
    else if o == 33 then LoadVar(Params, U1(code, cp + 1), false, 2)
    else if o == 34 then LoadVar(Params, U1(code, cp + 1), true, 2)
    else if o == 35 then StoreVar(Params, U1(code, cp + 1), false, 2)
    else if o == 36 then StoreVar(Params, U1(code, cp + 1), true, 2)
    else if o <= 44 then LoadVar(Locals, o - 37, false, 1)
    else if o == 45 then LoadVar(Locals, U1(code, cp + 1), false, 2)
    else if o == 46 then LoadVar(Locals, U1(code, cp + 1), true, 2)
    else if o <= 54 then StoreVar(Locals, o - 47, false, 1)
    else if o == 55 then StoreVar(Locals, U1(code, cp + 1), false, 2)
    else StoreVar(Locals, U1(code, cp + 1), true, 2)
  }

  function DecodeMath(code: seq<byte>, cp: int, o: nat): Instr
    requires 57 <= o
  {
    if o <= 62 then Simple(Cmp(CompareOf(o - 57)), 1)
    else if o <= 70 then Simple(IntMath(MathOf(o - 63)), 1)
    else if o == 71 then Simple(IntUnary(Not), 1)
    else if o == 72 then Simple(IntUnary(Neg), 1)
    else if o == 73 then Simple(IntMath(ShiftL), 1)
    else if o == 74 then Simple(IntMath(ShiftR), 1)
    else if o == 75 then Simple(IntUnary(Inc), 1)
    else if o == 76 then Simple(IntUnary(Dec), 1)
    else if o <= 82 then Simple(LongCmp(CompareOf(o - 77)), 1)
    else if o <= 90 then Simple(LongMath(MathOf(o - 83)), 1)
    else if o == 91 then Simple(LongUnary(Not), 1)
    else if o == 92 then Simple(LongUnary(Neg), 1)
    else if o == 93 then Simple(LongMath(ShiftL), 1)
    else if o == 94 then Simple(LongMath(ShiftR), 1)
    else if o == 118 then Simple(IntToLong, 1)
    else if o == 120 then Simple(LongToInt, 1)
    else if o == 129 then Simple(Cmp(Eq), 1)                // ObjEq
    else if o == 130 then Simple(Cmp(NotEq), 1)             // ObjNotEq
    else if o == 131 then Simple(IntUnary(EqZero), 1)
    else if o == 132 then Simple(IntUnary(NotEqZero), 1)
    else Given(Floating(o), 1)
  }

  function DecodeStack(code: seq<byte>, cp: int, o: nat): Instr
  {
    if o == 133 then Simple(Drop(1), 1)
    else if o == 134 then Simple(Drop(2), 1)
    else if o == 135 then Simple(Drop(3), 1)
    else if o == 136 then Simple(Dup, 1)
    else if o == 137 then Simple(Dup2, 1)
    else if o == 138 then Simple(DupDown2, 1)
    else if o == 139 then Simple(DupDown3, 1)
    else if o == 140 then Simple(Dup2Down2, 1)
    else Simple(Dup2Down3, 1)
  }

  function DecodeJump(code: seq<byte>, cp: int, o: nat): Instr
    requires 142 <= o <= 161
  {
    var near := S1(code, cp + 1);
    var far := S2(code, cp + 1);
    if o == 142 then Jump(near)
    else if o == 143 then Branch(IsNonZero, near, 2)
    else if o == 144 then Branch(IsZero, near, 2)
    else if o == 145 then Foreach(near, 2)
    else if o == 146 then Jump(far)
    else if o == 147 then Branch(IsNonZero, far, 3)
    else if o == 148 then Branch(IsZero, far, 3)
    else if o == 149 then Foreach(far, 3)
    else if 150 <= o <= 155 then Branch(IntIs(CompareOf(o - 150)), near, 2)
    else Branch(IntIs(CompareOf(o - 156)), far, 3)
  }

  /** Field and array access of one width, `k` being the opcode's place in its group:
      load U1/U2/U4, load array, store U1/U2/U4, store array, add array. */
  function DecodeStorage(code: seq<byte>, cp: int, width: nat, k: nat): Instr
  {
    if k == 0 then Simple(LoadField(width, U1(code, cp + 1)), 2)
    else if k == 1 then Simple(LoadField(width, U2(code, cp + 1)), 3)
    else if k == 2 then Simple(LoadField(width, U4(code, cp + 1)), 5)
    else if k == 3 then Simple(LoadArray(width), 1)
    else if k == 4 then Simple(StoreField(width, U1(code, cp + 1)), 2)
    else if k == 5 then Simple(StoreField(width, U2(code, cp + 1)), 3)
    else if k == 6 then Simple(StoreField(width, U4(code, cp + 1)), 5)
    else if k == 7 then Simple(StoreArray(width), 1)
    else Simple(AddArray(width), 1)
  }

  function DecodeInline(code: seq<byte>, cp: int, o: nat, dataBase: int): Instr
  {
    if o == 208 then Given(ConstField(U1(code, cp + 1)), 2)
    else if o == 209 then Given(ConstField(U2(code, cp + 1)), 3)
    else if o == 210 then Given(CodeAddress(U2(code, cp + 1)), 3)     // LoadConstStatic
    else if o == 211 then Given(ConstArray, 1)
    else if o == 212 then Simple(InlineField(U1(code, cp + 1)), 2)
    else if o == 213 then Simple(InlineField(U2(code, cp + 1)), 3)
    else if o == 214 then Simple(InlineField(U4(code, cp + 1)), 5)
    else if o == 215 then LoadParam0Inline(U1(code, cp + 1), 2)
    else if o == 216 then LoadParam0Inline(U2(code, cp + 1), 3)
    else if o == 217 then LoadParam0Inline(U4(code, cp + 1), 5)
    else if o == 218 then Simple(Push([dataBase + U1(code, cp + 1)]), 2)
    else if o == 219 then Simple(Push([dataBase + U2(code, cp + 1)]), 3)
    else Simple(Push([dataBase + U4(code, cp + 1)]), 5)
  }

  function DecodeCall(code: seq<byte>, cp: int, o: nat): Instr
  {
    if o == 221 then Call(U2(code, cp + 1) * BLOCK, false)
    else if o == 222 then CallVirtual(U2(code, cp + 1), U1(code, cp + 3))
    else if o == 223 then CallNative(1, U1(code, cp + 1), U1(code, cp + 2), U1(code, cp + 3))
    else if o == 224 then CallNative(2, U1(code, cp + 1), U1(code, cp + 2), U1(code, cp + 3))
    else if o == 225 then CallNative(0, U1(code, cp + 1), U1(code, cp + 2), U1(code, cp + 3))
    else if o == 226 then Return(0)
    else if o == 227 then Return(1)
    else if o == 228 then Return(2)
    else if o == 229 then Call(U2(code, cp + 1) * BLOCK, true)
    else if o == 230 then Simple(InitArray, 1)
    else if o == 231 then Simple(InitHeader(0, U2(code, cp + 1)), 3)   // InitVirt
    else if o == 232 then Simple(InitHeader(2, U2(code, cp + 1)), 3)   // InitComp
    else if o == 234 then Simple(Assert(U2(code, cp + 1)), 3)
    else if o == 235 then Switch(U2(code, cp + 1))
    else if o == 236 then Simple(Push([]), 3)                          // MetaSlot
    else Unaccepted
  }

  function Decode(code: seq<byte>, cp: int, dataBase: int): Instr
  {
    var o := U1(code, cp);
    if o <= 28 then DecodeLiteral(code, cp, o)
    else if o <= 56 then DecodeVar(code, cp, o)
    else if o <= 132 then DecodeMath(code, cp, o)
    else if o <= 141 then DecodeStack(code, cp, o)
    else if o <= 161 then DecodeJump(code, cp, o)
    else if o == 162 then Simple(Push([dataBase]), 1)                  // LoadDataAddr
    else if o <= 171 then DecodeStorage(code, cp, 1, o - 163)
    else if o <= 180 then DecodeStorage(code, cp, 2, o - 172)
    else if o <= 189 then DecodeStorage(code, cp, 4, o - 181)
    else if o <= 198 then DecodeStorage(code, cp, 8, o - 190)
    else if o <= 207 then DecodeStorage(code, cp, 4, o - 199)          // references: 4 octets
    else if o <= 220 then DecodeInline(code, cp, o, dataBase)
    else DecodeCall(code, cp, o)
  }

  /** Every decoded instruction grows the operand stack by at most two cells and takes at most four. */
  lemma DecodedBounds(code: seq<byte>, cp: int, dataBase: int)
    ensures var i := Decode(code, cp, dataBase);
            i.Simple? ==> Pops(i.op) <= 4 && Pushes(i.op) <= Pops(i.op) + 2 && i.length >= 1
  {
  }
}
