/** What the compiler writes for an instruction (forms chosen in CodeAsm.java:614-634 and 1095-1190,
    octets written in ImageGen.java:618-910, opcode numbers of SCode.java:27-326), and that the
    interpreter decodes it to that instruction and steps over exactly those octets. */
module Assembler {
  import opened Words
  import opened Scode

  // ------------------------------------------------------------- arguments

  /** Arguments are little-endian, signed ones in two's complement. */
  function U1Arg(v: int): seq<byte> { [v % 256] }

  function U2Arg(v: int): seq<byte> { [v % 256, v / 256 % 256] }

  function U4Arg(v: int): seq<byte> { [v % 256, v / 256 % 256, v / 65536 % 256, v / 16777216 % 256] }

  /** A field opcode in the form its offset needs: one, two or four octets. */
  function FieldCode(opcode: byte, offset: int): (bs: seq<byte>)
    requires opcode < 254
  {
    if offset < 0x100 then [opcode] + U1Arg(offset)
    else if offset < 0x1_0000 then [opcode + 1] + U2Arg(offset)
    else [opcode + 2] + U4Arg(offset)
  }

  /** A near jump, or a far one where the offset needs it. */
  function JumpCode(near: byte, far: byte, offset: int): (bs: seq<byte>)
  {
    if -128 <= offset < 128 then [near] + U1Arg(offset) else [far] + U2Arg(offset)
  }

  predicate FieldOffset(offset: int) { 0 <= offset < 0x8000_0000 }

  predicate JumpOffset(offset: int) { -32768 <= offset < 32768 }

  // ------------------------------------------------------------------ forms

  function IntLiteral(v: int): seq<byte>
  {
    if -1 <= v <= 5 then [v + 2]
    else if v <= 0xFF then [8] + U1Arg(v)
    else [9] + U2Arg(v)
  }

  function CompareCode(c: Compare): byte
  {
    match c
    case Eq => 0
    case NotEq => 1
    case Gt => 2
    case GtEq => 3
    case Lt => 4
    case LtEq => 5
  }

  function IntMathCode(m: Math): byte
  {
    match m
    case Mul => 63
    case Div => 64
    case Mod => 65
    case Add => 66
    case Sub => 67
    case Or => 68
    case Xor => 69
    case And => 70
    case ShiftL => 73
    case ShiftR => 74
  }

  function LongMathCode(m: Math): byte
  {
    match m
    case Mul => 83
    case Div => 84
    case Mod => 85
    case Add => 86
    case Sub => 87
    case Or => 88
    case Xor => 89
    case And => 90
    case ShiftL => 93
    case ShiftR => 94
  }

  function UnaryCode(u: Unary): byte
  {
    match u
    case Not => 71
    case Neg => 72
    case Inc => 75
    case Dec => 76
    case EqZero => 131
    case NotEqZero => 132
  }

  /** The first storage opcode of a width: 8, 16, 32 or 64 bits. */
  function StorageCode(width: nat): byte
  {
    if width == 1 then 163 else if width == 2 then 172 else if width == 4 then 181 else 190
  }

  predicate StorageWidth(width: nat) { width == 1 || width == 2 || width == 4 || width == 8 }

  predicate MathForm(op: Op)
  {
    IsMath(op) && (op.LongUnary? ==> op.u.Not? || op.u.Neg?)
  }

  function MathCode(op: Op): byte
    requires MathForm(op)
  {
    match op
    case Cmp(c) => 57 + CompareCode(c)
    case IntMath(m) => IntMathCode(m)
    case IntUnary(u) => UnaryCode(u)
    case LongCmp(c) => 77 + CompareCode(c)
    case LongMath(m) => LongMathCode(m)
    case LongUnary(u) => if u.Not? then 91 else 92
    case LongToInt => 120
    case IntToLong => 118
  }

  predicate StackForm(op: Op) { IsShuffle(op) || (op.Drop? && 1 <= op.n <= 3) }

  function StackCode(op: Op): byte
    requires StackForm(op)
  {
    match op
    case Drop(n) => 132 + n
    case Dup => 136
    case Dup2 => 137
    case DupDown2 => 138
    case DupDown3 => 139
    case Dup2Down2 => 140
    case Dup2Down3 => 141
  }

  predicate StorageForm(op: Op)
  {
    match op
    case LoadField(w, off) => StorageWidth(w) && FieldOffset(off)
    case StoreField(w, off) => StorageWidth(w) && FieldOffset(off)
    case LoadArray(w) => StorageWidth(w)
    case StoreArray(w) => StorageWidth(w)
    case AddArray(w) => StorageWidth(w)
    case InlineField(off) => FieldOffset(off)
    case InitArray => true
    case InitHeader(at, block) => (at == 0 || at == 2) && 0 <= block < 0x1_0000
    case _ => false
  }

  function StorageOctets(op: Op): (bs: seq<byte>)
    requires StorageForm(op)
  {
    match op
    case LoadField(w, off) => FieldCode(StorageCode(w), off)
    case StoreField(w, off) => FieldCode(StorageCode(w) + 4, off)
    case LoadArray(w) => [StorageCode(w) + 3]
    case StoreArray(w) => [StorageCode(w) + 7]
    case AddArray(w) => [StorageCode(w) + 8]
    case InlineField(off) => FieldCode(212, off)
    case InitArray => [230]
    case InitHeader(at, block) => [if at == 0 then 231 else 232] + U2Arg(block)
  }

  predicate SimpleForm(op: Op)
  {
    MathForm(op) || StackForm(op) || StorageForm(op)
    || (op.Push? && |op.cells| == 1 && -1 <= op.cells[0] < 0x1_0000) || (op.Assert? && 0 <= op.line < 0x1_0000)
  }

  function SimpleOctets(op: Op): (bs: seq<byte>)
    requires SimpleForm(op)
  {
    if MathForm(op) then [MathCode(op)]
    else if StackForm(op) then [StackCode(op)]
    else if StorageForm(op) then StorageOctets(op)
    else if op.Push? then IntLiteral(op.cells[0])
    else [234] + U2Arg(op.line)
  }

  function VarOctets(load: bool, region: Region, index: nat, wide: bool): (bs: seq<byte>)
    requires index < 256
  {
    if region.Params? then
      if load && !wide && index < 4 then [29 + index]
      else [if load then (if wide then 34 else 33) else (if wide then 36 else 35)] + U1Arg(index)
    else
      if !wide && index < 8 then [(if load then 37 else 47) + index]
      else [if load then (if wide then 46 else 45) else (if wide then 56 else 55)] + U1Arg(index)
  }

  function BranchOctets(cond: Condition, offset: int): (bs: seq<byte>)
  {
    match cond
    case IsNonZero => JumpCode(143, 147, offset)
    case IsZero => JumpCode(144, 148, offset)
    case IntIs(c) => JumpCode(150 + CompareCode(c), 156 + CompareCode(c), offset)
  }

  /** What the compiler can be asked to write. */
  predicate Emittable(i: Instr)
  {
    match i
    case Simple(op, _) => SimpleForm(op)
    case LoadVar(_, index, _, _) => index < 256
    case StoreVar(_, index, _, _) => index < 256
    case LoadParam0Inline(offset, _) => FieldOffset(offset)
    case Jump(offset) => JumpOffset(offset)
    case Branch(_, offset, _) => JumpOffset(offset)
    case Foreach(offset, _) => JumpOffset(offset)
    case Switch(count) => count < 0x1_0000
    case Call(target, _) => target % 4 == 0 && target < 0x4_0000
    case CallVirtual(slot, argc) => slot < 0x1_0000 && argc < 256
    case CallNative(cells, kit, id, argc) => cells <= 2 && kit < 256 && id < 256 && argc < 256
    case Return(cells) => cells <= 2
    case Given(_, _) => false
    case Unaccepted => false
  }

  /** The octets of an instruction; the jump table of a Switch follows them. */
  function Emit(i: Instr): (bs: seq<byte>)
    requires Emittable(i)
  {
    match i
    case Simple(op, _) => SimpleOctets(op)
    case LoadVar(region, index, wide, _) => VarOctets(true, region, index, wide)
    case StoreVar(region, index, wide, _) => VarOctets(false, region, index, wide)
    case LoadParam0Inline(offset, _) => FieldCode(215, offset)
    case Jump(offset) => JumpCode(142, 146, offset)
    case Branch(cond, offset, _) => BranchOctets(cond, offset)
    case Foreach(offset, _) => JumpCode(145, 149, offset)
    case Switch(count) => [235] + U2Arg(count)
    case Call(target, loadParam0) => [if loadParam0 then 229 else 221] + U2Arg(target / 4)
    case CallVirtual(slot, argc) => [222] + U2Arg(slot) + U1Arg(argc)
    case CallNative(cells, kit, id, argc) =>
      [if cells == 1 then 223 else if cells == 2 then 224 else 225] + U1Arg(kit) + U1Arg(id) + U1Arg(argc)
    case Return(cells) => [226 + cells]
  }

  /** The same instruction, as long as its octets. */
  function Sized(i: Instr): Instr
    requires Emittable(i)
  {
    var n := |Emit(i)|;
    match i
    case Simple(op, _) => Simple(op, n)
    case LoadVar(region, index, wide, _) => LoadVar(region, index, wide, n)
    case StoreVar(region, index, wide, _) => StoreVar(region, index, wide, n)
    case LoadParam0Inline(offset, _) => LoadParam0Inline(offset, n)
    case Branch(cond, offset, _) => Branch(cond, offset, n)
    case Foreach(offset, _) => Foreach(offset, n)
    case _ => i
  }

  /** The image holds the octets at `cp`. */
  predicate HasCode(code: seq<byte>, cp: int, bs: seq<byte>)
  {
    forall k :: 0 <= k < |bs| ==> U1(code, cp + k) == bs[k]
  }

  // -------------------------------------------------------------- round trip

  lemma ReadsU2(code: seq<byte>, at: int, v: int)
    requires U1(code, at) == v % 256 && U1(code, at + 1) == v / 256 % 256
    ensures 0 <= v < 0x1_0000 ==> U2(code, at) == v
    ensures -32768 <= v < 32768 ==> S2(code, at) == v
  {
  }

  lemma ReadsS1(code: seq<byte>, at: int, v: int)
    requires U1(code, at) == v % 256
    ensures 0 <= v < 256 ==> U1(code, at) == v
    ensures -128 <= v < 128 ==> S1(code, at) == v
  {
  }

  lemma ReadsU4(code: seq<byte>, at: int, v: int)
    requires U1(code, at) == v % 256 && U1(code, at + 1) == v / 256 % 256
    requires U1(code, at + 2) == v / 65536 % 256 && U1(code, at + 3) == v / 16777216 % 256
    ensures 0 <= v < 0x1_0000_0000 ==> U4(code, at) == v
  {
    hide U1;
    FourDigits(v);
  }

  lemma FourDigits(v: int)
    ensures 0 <= v < 0x1_0000_0000 ==>
              v == v % 256 + 256 * (v / 256 % 256) + 65536 * (v / 65536 % 256 + 256 * (v / 16777216 % 256))
  {
    var b, c, d := v / 256, v / 65536, v / 16777216;
    assert v == 256 * b + v % 256;
    assert b == 256 * c + b % 256 by { Nested(v, 256); }
    assert c == 256 * d + c % 256 by { Nested(v, 65536); }
  }

  lemma Nested(v: int, d: int)
    requires d == 256 || d == 65536
    ensures v / d / 256 == v / (256 * d)
  {
  }

  lemma FieldRead(code: seq<byte>, cp: int, opcode: byte, offset: int)
    requires opcode < 254 && FieldOffset(offset) && HasCode(code, cp, FieldCode(opcode, offset))
    ensures var n := |FieldCode(opcode, offset)|;
            || (n == 2 && U1(code, cp) == opcode && U1(code, cp + 1) == offset)
            || (n == 3 && U1(code, cp) == opcode + 1 && U2(code, cp + 1) == offset)
            || (n == 5 && U1(code, cp) == opcode + 2 && U4(code, cp + 1) == offset)
  {
    var bs := FieldCode(opcode, offset);
    assert U1(code, cp + 0) == bs[0] && U1(code, cp + 1) == bs[1];
    if |bs| == 2 {
      ReadsS1(code, cp + 1, offset);
    } else {
      assert U1(code, cp + 2) == bs[2];
      if |bs| == 3 {
        ReadsU2(code, cp + 1, offset);
      } else {
        assert U1(code, cp + 3) == bs[3] && U1(code, cp + 4) == bs[4];
        ReadsU4(code, cp + 1, offset);
      }
    }
  }

  lemma JumpRead(code: seq<byte>, cp: int, near: byte, far: byte, offset: int)
    requires JumpOffset(offset) && HasCode(code, cp, JumpCode(near, far, offset))
    ensures var n := |JumpCode(near, far, offset)|;
            || (n == 2 && U1(code, cp) == near && S1(code, cp + 1) == offset)
            || (n == 3 && U1(code, cp) == far && S2(code, cp + 1) == offset)
  {
    var bs := JumpCode(near, far, offset);
    assert U1(code, cp + 0) == bs[0] && U1(code, cp + 1) == bs[1];
    if |bs| == 2 {
      ReadsS1(code, cp + 1, offset);
    } else {
      assert U1(code, cp + 2) == bs[2];
      ReadsU2(code, cp + 1, offset);
    }
  }

  lemma FirstOctets(code: seq<byte>, cp: int, bs: seq<byte>)
    requires HasCode(code, cp, bs)
    ensures |bs| > 0 ==> U1(code, cp) == bs[0]
    ensures |bs| > 1 ==> U1(code, cp + 1) == bs[1]
    ensures |bs| > 2 ==> U1(code, cp + 2) == bs[2]
    ensures |bs| > 3 ==> U1(code, cp + 3) == bs[3]
  {
    if |bs| > 0 { assert U1(code, cp + 0) == bs[0]; }
  }

  lemma OneOctetDecodes(code: seq<byte>, cp: int, dataBase: int, op: Op)
    requires MathForm(op) || StackForm(op)
    requires U1(code, cp) == if MathForm(op) then MathCode(op) else StackCode(op)
    ensures Decode(code, cp, dataBase) == Simple(op, 1)
  {
  }

  lemma StorageDecodes(code: seq<byte>, cp: int, dataBase: int, op: Op)
    requires StorageForm(op) && HasCode(code, cp, StorageOctets(op))
    ensures Decode(code, cp, dataBase) == Simple(op, |StorageOctets(op)|)
  {
    hide U1, U2, U4, S1, S2, HasCode, FieldCode;
    FirstOctets(code, cp, StorageOctets(op));
    match op
    case LoadField(w, off) => FieldRead(code, cp, StorageCode(w), off);
    case StoreField(w, off) => FieldRead(code, cp, StorageCode(w) + 4, off);
    case InlineField(off) => FieldRead(code, cp, 212, off);
    case InitHeader(at, block) => ReadsU2(code, cp + 1, block);
    case _ =>
  }

  lemma SimpleDecodes(code: seq<byte>, cp: int, dataBase: int, op: Op)
    requires SimpleForm(op) && HasCode(code, cp, SimpleOctets(op))
    ensures Decode(code, cp, dataBase) == Simple(op, |SimpleOctets(op)|)
  {
    hide HasCode, StorageOctets, MathCode, StackCode;
    FirstOctets(code, cp, SimpleOctets(op));
    if MathForm(op) || StackForm(op) {
      OneOctetDecodes(code, cp, dataBase, op);
    } else if StorageForm(op) {
      StorageDecodes(code, cp, dataBase, op);
    } else if op.Push? {
      LiteralDecodes(code, cp, dataBase, op.cells[0]);
      assert op.cells == [op.cells[0]];
    } else {
      ReadsU2(code, cp + 1, op.line);
    }
  }

  lemma LiteralDecodes(code: seq<byte>, cp: int, dataBase: int, v: int)
    requires -1 <= v < 0x1_0000 && HasCode(code, cp, IntLiteral(v))
    ensures Decode(code, cp, dataBase) == Simple(Push([v]), |IntLiteral(v)|)
  {
    FirstOctets(code, cp, IntLiteral(v));
    if v > 0xFF { ReadsU2(code, cp + 1, v); }
  }

  lemma VarDecodes(code: seq<byte>, cp: int, dataBase: int, region: Region, index: nat, wide: bool)
    requires index < 256
    ensures var bs := VarOctets(true, region, index, wide);
            HasCode(code, cp, bs) ==> Decode(code, cp, dataBase) == LoadVar(region, index, wide, |bs|)
    ensures var bs := VarOctets(false, region, index, wide);
            HasCode(code, cp, bs) ==> Decode(code, cp, dataBase) == StoreVar(region, index, wide, |bs|)
  {
    hide HasCode;
    var bs, cs := VarOctets(true, region, index, wide), VarOctets(false, region, index, wide);
    if HasCode(code, cp, bs) { FirstOctets(code, cp, bs); }
    if HasCode(code, cp, cs) { FirstOctets(code, cp, cs); }
  }

  lemma JumpDecodes(code: seq<byte>, cp: int, dataBase: int, i: Instr)
    requires (i.Jump? || i.Branch? || i.Foreach?) && Emittable(i) && HasCode(code, cp, Emit(i))
    ensures Decode(code, cp, dataBase) == Sized(i)
  {
    hide U1, S1, S2, HasCode, JumpCode;
    match i
    case Jump(offset) => JumpRead(code, cp, 142, 146, offset);
    case Foreach(offset, _) => JumpRead(code, cp, 145, 149, offset);
    case Branch(cond, offset, _) =>
      match cond
      case IsNonZero => JumpRead(code, cp, 143, 147, offset);
      case IsZero => JumpRead(code, cp, 144, 148, offset);
      case IntIs(c) => JumpRead(code, cp, 150 + CompareCode(c), 156 + CompareCode(c), offset);
  }

  lemma CallDecodes(code: seq<byte>, cp: int, dataBase: int, i: Instr)
    requires (i.Call? || i.CallVirtual? || i.CallNative? || i.Return? || i.Switch?)
    requires Emittable(i) && HasCode(code, cp, Emit(i))
    ensures Decode(code, cp, dataBase) == i
  {
    hide HasCode, U1, U2, DecodeLiteral, DecodeVar, DecodeMath, DecodeStack, DecodeJump, DecodeStorage, DecodeInline;
    FirstOctets(code, cp, Emit(i));
    match i
    case Call(target, _) => ReadsU2(code, cp + 1, target / 4);
    case CallVirtual(slot, _) => ReadsU2(code, cp + 1, slot);
    case Switch(count) => ReadsU2(code, cp + 1, count);
    case _ =>
  }

  /** Whatever the compiler writes for an instruction the interpreter decodes to it, and goes on right
      after its octets. */
  lemma AssembledDecodes(code: seq<byte>, cp: int, dataBase: int, i: Instr)
    requires Emittable(i) && HasCode(code, cp, Emit(i))
    ensures Decode(code, cp, dataBase) == Sized(i)
  {
    hide Decode, HasCode, SimpleOctets, VarOctets, FieldCode;
    match i
    case Simple(op, _) => SimpleDecodes(code, cp, dataBase, op);
    case LoadVar(region, index, wide, _) => VarDecodes(code, cp, dataBase, region, index, wide);
    case StoreVar(region, index, wide, _) => VarDecodes(code, cp, dataBase, region, index, wide);
    case LoadParam0Inline(offset, _) => InlineDecodes(code, cp, dataBase, offset);
    case Jump(_) => JumpDecodes(code, cp, dataBase, i);
    case Branch(_, _, _) => JumpDecodes(code, cp, dataBase, i);
    case Foreach(_, _) => JumpDecodes(code, cp, dataBase, i);
    case _ => CallDecodes(code, cp, dataBase, i);
  }

  lemma InlineDecodes(code: seq<byte>, cp: int, dataBase: int, offset: int)
    requires FieldOffset(offset) && HasCode(code, cp, FieldCode(215, offset))
    ensures Decode(code, cp, dataBase) == LoadParam0Inline(offset, |FieldCode(215, offset)|)
  {
    hide U1, U2, U4, HasCode, FieldCode;
    FieldRead(code, cp, 215, offset);
  }

  /** References are stored like 32-bit words, and a static field is at its offset from the data base. */
  lemma OtherFields(code: seq<byte>, cp: int, dataBase: int, k: nat)
    ensures k < 9 && U1(code, cp) == 199 + k ==> Decode(code, cp, dataBase) == DecodeStorage(code, cp, 4, k)
    ensures U1(code, cp) == 162 ==> Decode(code, cp, dataBase) == Simple(Push([dataBase]), 1)
    ensures U1(code, cp) == 218 ==> Decode(code, cp, dataBase) == Simple(Push([dataBase + U1(code, cp + 1)]), 2)
    ensures U1(code, cp) == 219 ==> Decode(code, cp, dataBase) == Simple(Push([dataBase + U2(code, cp + 1)]), 3)
    ensures U1(code, cp) == 220 ==> Decode(code, cp, dataBase) == Simple(Push([dataBase + U4(code, cp + 1)]), 5)
  {
  }

  /** Literals without arguments: null, the null Boolean, 0 and 1 of the other types by their bits, the
      longs and doubles low word first. */
  lemma LiteralOpcodes(code: seq<byte>, cp: int, dataBase: int)
    ensures var o, i := U1(code, cp), Decode(code, cp, dataBase);
            && (o == 0 ==> i == Simple(Push([]), 1)) && (o == 16 ==> i == Simple(Push([0]), 1))
            && (o == 17 ==> i == Simple(Push([2]), 1))
            && (o == 10 ==> i == Simple(Push(Split(0)), 1)) && (o == 11 ==> i == Simple(Push(Split(1)), 1))
            && (o == 12 ==> i == Simple(Push([0]), 1)) && (o == 13 ==> i == Simple(Push([127 * 0x80_0000]), 1))
            && (o == 14 ==> i == Simple(Push(Split(0)), 1))
            && (o == 15 ==> i == Simple(Push(Split(1023 * 0x10_0000_0000_0000)), 1))
            && (o == 18 ==> i == Simple(Push([0x7FC0_0000]), 1))
            && (o == 19 ==> i == Simple(Push(Split(0x7FF8_0000_0000_0000)), 1))
  {
  }

  /** Literals kept in the image are read from their block, four octets a block, little-endian. */
  lemma PooledLiterals(code: seq<byte>, cp: int, dataBase: int, v: int)
    requires -0x8000_0000 <= v < 0x8000_0000
    ensures (U1(code, cp) == 20 || U1(code, cp) == 21) && HasCode(code, 4 * U2(code, cp + 1), U4Arg(v))
            ==> Decode(code, cp, dataBase) == Simple(Push([v]), 3)
  {
    if HasCode(code, 4 * U2(code, cp + 1), U4Arg(v)) {
      FirstOctets(code, 4 * U2(code, cp + 1), U4Arg(v));
      WordRead(code, 4 * U2(code, cp + 1), v);
    }
  }

  lemma WordRead(code: seq<byte>, at: int, v: int)
    requires -0x8000_0000 <= v < 0x8000_0000
    requires U1(code, at) == v % 256 && U1(code, at + 1) == v / 256 % 256
    requires U1(code, at + 2) == v / 65536 % 256 && U1(code, at + 3) == v / 16777216 % 256
    ensures ToInt32(U4(code, at)) == v
  {
    hide U1, U4, ToInt32;
    var u := if v >= 0 then v else v + 0x1_0000_0000;
    SameDigits(v);
    ReadsU4(code, at, u);
    SignedAgain(v);
  }

  lemma SameDigits(v: int)
    ensures var u := v + 0x1_0000_0000;
            u % 256 == v % 256 && u / 256 % 256 == v / 256 % 256
            && u / 65536 % 256 == v / 65536 % 256 && u / 16777216 % 256 == v / 16777216 % 256
  {
    Shifted(v, 256, 0x100_0000);
    Shifted(v, 65536, 0x1_0000);
    Shifted(v, 16777216, 0x100);
    SameLow(v, 0x100_0000);
    SameLow(v / 256, 0x1_0000);
    SameLow(v / 65536, 0x100);
    SameLow(v / 16777216, 1);
  }

  lemma SameLow(q: int, j: int)
    ensures (q + 256 * j) % 256 == q % 256
  {
  }

  lemma Shifted(v: int, d: int, k: int)
    requires d > 0
    ensures d > 0 && (v + d * k) / d == v / d + k
  {
    var q, r := v / d, v % d;
    assert v + d * k == d * (q + k) + r;
    var e := (v + d * k) / d;
    assert v + d * k == d * e + (v + d * k) % d;
    if e < q + k { Steps(e + 1, q + k, d); } else if e > q + k { Steps(q + k + 1, e, d); }
  }

  lemma Steps(x: int, y: int, d: int)
    requires x <= y && d > 0
    ensures d * x <= d * y
  {
  }

  lemma SignedAgain(v: int)
    requires -0x8000_0000 <= v < 0x8000_0000
    ensures ToInt32(if v >= 0 then v else v + 0x1_0000_0000) == v
  {
  }

  lemma PooledLongs(code: seq<byte>, cp: int, dataBase: int, lo: int, hi: int)
    requires -0x8000_0000 <= lo < 0x8000_0000 && -0x8000_0000 <= hi < 0x8000_0000
    requires U1(code, cp) == 22 || U1(code, cp) == 23
    requires HasCode(code, 4 * U2(code, cp + 1), U4Arg(lo)) && HasCode(code, 4 * U2(code, cp + 1) + 4, U4Arg(hi))
    ensures Decode(code, cp, dataBase) == Simple(Push([lo, hi]), 3)
  {
    hide HasCode;
    var at := 4 * U2(code, cp + 1);
    FirstOctets(code, at, U4Arg(lo));
    FirstOctets(code, at + 4, U4Arg(hi));
    WordRead(code, at, lo);
    WordRead(code, at + 4, hi);
  }

  /** Cells of the operand and result types of the floating-point opcodes: an int, float or Boolean is one,
      a long or double two. */
  function OperandCells(o: nat): nat
    requires 95 <= o <= 128
  {
    if o <= 104 then 1 + 1                       // two floats
    else if o == 105 then 1                      // FloatNeg
    else if o <= 115 then 2 + 2                  // two doubles
    else if o == 116 then 2                      // DoubleNeg
    else [1, 1, 1, 2, 2, 2, 1, 1, 1, 2, 2, 2][o - 117]
  }

  function ResultCells(o: nat): nat
    requires 95 <= o <= 128
  {
    if o <= 111 then 1 else if o <= 116 then 2 else [1, 2, 2, 1, 1, 2, 1, 2, 2, 1, 2, 1][o - 117]
  }

  /** They take and leave just these, the low word of a result below its high word. */
  lemma FloatingCells(code: seq<byte>, cp: int, dataBase: int, lo: int, hi: int)
    requires 95 <= U1(code, cp) <= 128 && U1(code, cp) != 118 && U1(code, cp) != 120
    ensures var o, i := U1(code, cp), Decode(code, cp, dataBase);
            && i.Given? && i.length == 1
            && Takes(i.source) == OperandCells(o) && Gives(i.source) == ResultCells(o)
            && GivenWords(i.source, lo, hi) == if ResultCells(o) == 2 then [lo, hi] else [lo]
  {
  }

  /** Literals of the code image and constant fields. */
  lemma GivenOpcodes(code: seq<byte>, cp: int, dataBase: int)
    ensures var o, i := U1(code, cp), Decode(code, cp, dataBase);
            && (24 <= o <= 27 || o == 210 ==> i == Given(CodeAddress(U2(code, cp + 1)), 3))
            && (o == 208 ==> i == Given(ConstField(U1(code, cp + 1)), 2))
            && (o == 209 ==> i == Given(ConstField(U2(code, cp + 1)), 3))
            && (o == 211 ==> i == Given(ConstArray, 1))
    ensures Takes(CodeAddress(0)) == 0 && Takes(ConstField(0)) == 1 && Takes(ConstArray) == 2
  {
  }

  /** The jump table of a Switch as the compiler writes it, and the target the interpreter takes. */
  function Table(offsets: seq<int>): (bs: seq<byte>)
    ensures |bs| == 2 * |offsets|
  {
    if offsets == [] then [] else U2Arg(offsets[0]) + Table(offsets[1..])
  }

  lemma {:induction false} TableHolds(code: seq<byte>, at: int, offsets: seq<int>, v: nat)
    requires v < |offsets| && JumpOffset(offsets[v]) && HasCode(code, at, Table(offsets))
    ensures S2(code, at + 2 * v) == offsets[v]
    decreases v
  {
    hide U1, S2;
    var bs, rest := Table(offsets), Table(offsets[1..]);
    if v == 0 {
      assert U1(code, at + 0) == bs[0] && U1(code, at + 1) == bs[1];
      ReadsU2(code, at, offsets[0]);
    } else {
      forall k | 0 <= k < |rest|
        ensures U1(code, at + 2 + k) == rest[k]
      {
        assert bs[2 + k] == rest[k] && U1(code, at + (2 + k)) == bs[2 + k];
      }
      TableHolds(code, at + 2, offsets[1..], v - 1);
    }
  }
}
