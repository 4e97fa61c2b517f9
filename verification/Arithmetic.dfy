/** What the arithmetic instructions answer, in whole numbers: results agree with exact arithmetic up to
    multiples of 2^32 or 2^64, operands are taken in order, and every bit is accounted for. */
module Arithmetic {
  import opened Words
  import opened Scode
  import opened OpcodeLaws

  predicate Is32(x: int) { -0x8000_0000 <= x < 0x8000_0000 }

  /** `r` is the word for the exact result `x`. */
  predicate Word32(r: int, x: int) { Is32(r) && (r - x) % 0x1_0000_0000 == 0 }

  predicate Word64(r: int, x: int) { Is64(r) && (r - x) % 0x1_0000_0000_0000_0000 == 0 }

  /** The instruction on the cells `a`, `b`, of which `b` is the top one. */
  function Int(m: Math, a: int, b: int): Option<int>
  {
    match ComputeMath(IntMath(m), [a, b])
    case Some(v) => Some(v[0])
    case None => None
  }

  function IntOne(u: Unary, a: int): int { ComputeMath(IntUnary(u), [a]).value[0] }

  function IntCompare(c: Compare, a: int, b: int): int { ComputeMath(Cmp(c), [a, b]).value[0] }

  /** The instruction on two longs, two cells each. */
  function Long(m: Math, x: int, y: int): Option<int>
    requires !IsLongShift(LongMath(m))
  {
    match ComputeMath(LongMath(m), Split(x) + Split(y))
    case Some(v) => Some(Join(v[0], v[1]))
    case None => None
  }

  /** A long is shifted by an int, so it takes three cells. */
  function LongShift(m: Math, x: int, k: int): Option<int>
    requires IsLongShift(LongMath(m))
  {
    match ComputeMath(LongMath(m), Split(x) + [k])
    case Some(v) => Some(Join(v[0], v[1]))
    case None => None
  }

  function LongOne(u: Unary, x: int): int
  {
    var v := ComputeMath(LongUnary(u), Split(x)).value;
    Join(v[0], v[1])
  }

  function LongCompare(c: Compare, x: int, y: int): int { ComputeMath(LongCmp(c), Split(x) + Split(y)).value[0] }

  // -------------------------------------------------------------- wrap-around

  lemma Wrapped32(x: int)
    ensures Word32(ToInt32(x), x)
  {
    var q := (x + 0x8000_0000) / 0x1_0000_0000;
    assert ToInt32(x) - x == 0x1_0000_0000 * -q;
  }

  lemma Wrapped64(x: int)
    ensures Word64(ToInt64(x), x)
  {
    var q := (x + 0x8000_0000_0000_0000) / 0x1_0000_0000_0000_0000;
    assert ToInt64(x) - x == 0x1_0000_0000_0000_0000 * -q;
  }

  /** A number has one word. */
  lemma OneWord32(r: int, q: int, x: int)
    requires Word32(r, x) && Word32(q, x)
    ensures r == q
  {
    assert (r - q) % 0x1_0000_0000 == 0;
  }

  lemma OneWord64(r: int, q: int, x: int)
    requires Word64(r, x) && Word64(q, x)
    ensures r == q
  {
    assert (r - q) % 0x1_0000_0000_0000_0000 == 0;
  }

  // ------------------------------------------------------------------- ints

  /** Add, Sub and Mul are exact up to wrap-around, the left operand the lower cell. */
  lemma IntExact(a: int, b: int)
    requires Is32(a) && Is32(b)
    ensures Int(Add, a, b).Some? && Word32(Int(Add, a, b).value, a + b)
    ensures Int(Sub, a, b).Some? && Word32(Int(Sub, a, b).value, a - b)
    ensures Int(Mul, a, b).Some? && Word32(Int(Mul, a, b).value, a * b)
  {
    hide ToInt32;
    Wrapped32(a + b);
    Wrapped32(a - b);
    Wrapped32(a * b);
  }

  lemma Moved32(s: int, a: int, b: int)
    requires Is32(a)
    ensures Word32(s, a + b) ==> Word32(a, s - b)
    ensures Word32(s, a - b) ==> Word32(a, s + b)
  {
    assert a - (s - b) == -(s - (a + b)) && a - (s + b) == -(s - (a - b));
  }

  /** Sub undoes Add, and Add undoes Sub. */
  lemma IntUndone(a: int, b: int)
    requires Is32(a) && Is32(b)
    ensures Int(Add, a, b).Some? && Int(Sub, Int(Add, a, b).value, b) == Some(a)
    ensures Int(Sub, a, b).Some? && Int(Add, Int(Sub, a, b).value, b) == Some(a)
  {
    IntExact(a, b);
    var s, d := Int(Add, a, b).value, Int(Sub, a, b).value;
    Moved32(s, a, b);
    Moved32(d, a, b);
    hide Int, Word32;
    assert Is32(s) && Is32(d) by { InRange(a, b); }
    IntExact(s, b);
    IntExact(d, b);
    OneWord32(Int(Sub, s, b).value, a, s - b);
    OneWord32(Int(Add, d, b).value, a, d + b);
  }

  lemma InRange(a: int, b: int)
    requires Is32(a) && Is32(b)
    ensures Int(Add, a, b).Some? && Is32(Int(Add, a, b).value) && Int(Sub, a, b).Some? && Is32(Int(Sub, a, b).value)
  {
  }

  /** Neg, Not, Inc and Dec by the others. */
  lemma IntUnaries(a: int)
    requires Is32(a)
    ensures Int(Add, a, IntOne(Neg, a)) == Some(0) && Some(IntOne(Neg, a)) == Int(Sub, 0, a)
    ensures Some(IntOne(Inc, a)) == Int(Add, a, 1) && Some(IntOne(Dec, a)) == Int(Sub, a, 1)
    ensures IntOne(Dec, IntOne(Inc, a)) == a == IntOne(Inc, IntOne(Dec, a))
    ensures Some(IntOne(Not, a)) == Int(Sub, -1, a) && IntOne(Not, IntOne(Not, a)) == a
  {
    IntUndone(a, 1);
    IntUndone(0, a);
    IntUndone(-1, a);
    IntSwapped(a, IntOne(Neg, a));
  }

  lemma IntSwapped(a: int, b: int)
    ensures Int(Add, a, b) == Int(Add, b, a)
  {
  }

  /** Tests against zero. */
  lemma IntZero(a: int)
    ensures IntOne(EqZero, a) == IntCompare(Eq, a, 0) && IntOne(NotEqZero, a) == IntCompare(NotEq, a, 0)
  {
  }

  /** A shift by one more place doubles, or halves rounding down; by none it does nothing, and by fewer
      than none or 32 and more it is undefined. */
  lemma IntShifts(a: int, k: int)
    requires Is32(a)
    ensures Int(ShiftL, a, 0) == Int(ShiftR, a, 0) == Some(a)
    ensures 0 <= k < 31 ==>
              && Int(ShiftL, a, k).Some? && Int(ShiftL, a, k + 1).Some?
              && Int(ShiftL, a, k + 1) == Int(Add, Int(ShiftL, a, k).value, Int(ShiftL, a, k).value)
    ensures 0 <= k < 31 ==>
              && Int(ShiftR, a, k).Some? && Int(ShiftR, a, k + 1).Some?
              && 0 <= Int(ShiftR, a, k).value - 2 * Int(ShiftR, a, k + 1).value <= 1
    ensures !(0 <= k < 32) ==> Int(ShiftL, a, k) == Int(ShiftR, a, k) == None
  {
    if 0 <= k < 31 {
      DoubledShift(a, k);
      HalvedShift(a, k);
    }
    assert Power2(0) == 1;
  }

  lemma DoubledShift(a: int, k: nat)
    requires Is32(a) && k < 31
    ensures Int(ShiftL, a, k).Some? && Int(ShiftL, a, k + 1).Some?
    ensures Int(ShiftL, a, k + 1) == Int(Add, Int(ShiftL, a, k).value, Int(ShiftL, a, k).value)
  {
    hide ToInt32;
    var x := a * Power2(k);
    var s := ToInt32(x);
    assert a * Power2(k + 1) == 2 * x;
    Wrapped32(x);
    Wrapped32(2 * x);
    Wrapped32(s + s);
    Twice32(s, x);
    OneWord32(ToInt32(2 * x), ToInt32(s + s), 2 * x);
  }

  lemma Twice32(s: int, x: int)
    requires Word32(s, x)
    ensures forall r :: Word32(r, s + s) ==> Word32(r, 2 * x)
  {
    forall r | Word32(r, s + s) ensures Word32(r, 2 * x) {
      assert r - 2 * x == (r - (s + s)) + 2 * (s - x);
      var q := (s - x) / 0x1_0000_0000;
      var p := (r - (s + s)) / 0x1_0000_0000;
      assert s - x == 0x1_0000_0000 * q;
      assert r - 2 * x == 0x1_0000_0000 * (p + 2 * q);
    }
  }

  lemma HalvedShift(a: int, k: nat)
    requires Is32(a) && k < 31
    ensures Int(ShiftR, a, k).Some? && Int(ShiftR, a, k + 1).Some?
    ensures 0 <= Int(ShiftR, a, k).value - 2 * Int(ShiftR, a, k + 1).value <= 1
  {
    hide ToInt32;
    var p := Power2(k);
    FloorFits(a, p);
    FloorFits(a, 2 * p);
    HalfFloor(a, p);
  }

  lemma FloorFits(a: int, p: nat)
    requires p > 0
    ensures p > 0 && (a >= 0 ==> 0 <= a / p <= a) && (a < 0 ==> a <= a / p < 0)
  {
    Floor(a, p);
    var q := a / p;
    if a >= 0 {
      if q < 0 { Product(q + 1, 0, p); }
      if q > a { Scaled(q, 1, p); }
    } else {
      if q >= 0 { Product(0, q, p); }
      if q < a { Product(q + 1, a, p); Scaled(-a, 1, p); }
    }
  }

  lemma Floor(a: int, p: nat)
    requires p > 0
    ensures p > 0 && p * (a / p) <= a < p * (a / p) + p
  {
  }

  lemma Product(x: int, y: int, p: nat)
    requires x <= y
    ensures p * x <= p * y
  {
  }

  lemma HalfFloor(a: int, p: nat)
    requires p > 0
    ensures p > 0 && 0 <= a / p - 2 * (a / (2 * p)) <= 1
  {
    Floor(a, p);
    Floor(a, 2 * p);
    var q, h := a / p, a / (2 * p);
    assert 2 * p * h == p * (2 * h);
    if q < 2 * h { Product(q + 1, 2 * h, p); }
    if q > 2 * h + 1 { Product(2 * h + 2, q, p); }
  }

  // ------------------------------------------------------------------- bits

  lemma {:induction false} BitwiseBound(op: BitOp, a: nat, b: nat, n: nat)
    ensures Bitwise(op, a, b, n) < Power2(n)
  {
    if n > 0 { BitwiseBound(op, a / 2, b / 2, n - 1); }
  }

  lemma Power2Of32()
    ensures Power2(32) == 0x1_0000_0000 && Power2(64) == 0x1_0000_0000_0000_0000
  {
    Power2By8(0);
    Power2By8(8);
    Power2By8(16);
    Power2By8(24);
    Power2By8(32);
    Power2By8(40);
    Power2By8(48);
    Power2By8(56);
  }

  lemma Power2By8(n: nat)
    ensures Power2(n + 8) == 256 * Power2(n) && Power2(0) == 1
  {
    assert Power2(n + 4) == 2 * Power2(n + 3) == 4 * Power2(n + 2) == 8 * Power2(n + 1) == 16 * Power2(n);
    assert Power2(n + 8) == 2 * Power2(n + 7) == 4 * Power2(n + 6) == 8 * Power2(n + 5) == 16 * Power2(n + 4);
  }

  /** Bit `k` of a word, and of a long. */
  function Bit32(x: int, k: nat): nat { BitAt(x % 0x1_0000_0000, k) }

  function Bit64(x: int, k: nat): nat { BitAt(x % 0x1_0000_0000_0000_0000, k) }

  lemma WordOfNat(x: nat)
    ensures x < 0x1_0000_0000 ==> ToInt32(x) % 0x1_0000_0000 == x
    ensures x < 0x1_0000_0000_0000_0000 ==> ToInt64(x) % 0x1_0000_0000_0000_0000 == x
  {
  }

  /** A bit is set in the result exactly if it is in one operand, in exactly one, in both; Not sets it
      exactly if it was not. */
  lemma IntBits(a: int, b: int, k: nat)
    requires Is32(a) && Is32(b) && k < 32
    ensures Int(Or, a, b).Some? && Int(Xor, a, b).Some? && Int(And, a, b).Some?
    ensures Bit32(Int(Or, a, b).value, k) == 1 <==> Bit32(a, k) == 1 || Bit32(b, k) == 1
    ensures Bit32(Int(Xor, a, b).value, k) == 1 <==> Bit32(a, k) != Bit32(b, k)
    ensures Bit32(Int(And, a, b).value, k) == 1 <==> Bit32(a, k) == 1 && Bit32(b, k) == 1
    ensures Bit32(IntOne(Not, a), k) == 1 <==> Bit32(a, k) == 0
  {
    hide Bitwise, ToInt32, Power2;
    IntBitsOf(OrOp, a, b, k);
    IntBitsOf(XorOp, a, b, k);
    IntBitsOf(AndOp, a, b, k);
    Power2Of32();
    ComplementBits(a % 0x1_0000_0000, 32, k);
    NotIsComplement(a);
  }

  lemma IntBitsOf(op: BitOp, a: int, b: int, k: nat)
    requires k < 32
    ensures Bit32(ToInt32(Bitwise(op, a % 0x1_0000_0000, b % 0x1_0000_0000, 32)), k)
            == BitOf(op, Bit32(a, k), Bit32(b, k))
  {
    hide Bitwise, ToInt32, Power2;
    var x, y := a % 0x1_0000_0000, b % 0x1_0000_0000;
    BitwiseBound(op, x, y, 32);
    Power2Of32();
    WordOfNat(Bitwise(op, x, y, 32));
    BitwiseBits(op, x, y, 32, k);
  }

  lemma NotIsComplement(a: int)
    requires Is32(a)
    ensures IntOne(Not, a) % 0x1_0000_0000 == 0xFFFF_FFFF - a % 0x1_0000_0000
  {
  }

  lemma Halves(y: int, q: int, d: int)
    requires y == 2 * q + d && 0 <= d <= 1
    ensures y / 2 == q && y % 2 == d
  {
  }

  lemma {:induction false} ComplementBits(x: nat, n: nat, k: nat)
    requires x < Power2(n) && k < n
    ensures BitAt(Power2(n) - 1 - x, k) == 1 - BitAt(x, k)
  {
    var y, h, d := Power2(n) - 1 - x, x / 2, x % 2;
    Halves(y, Power2(n - 1) - 1 - h, 1 - d);
    if k > 0 {
      HalvedBit(x, k);
      HalvedBit(y, k);
      ComplementBits(x / 2, n - 1, k - 1);
    } else {
      assert Power2(0) == 1;
    }
  }

  // ------------------------------------------------------------ comparisons

  /** Eq and Lt are the relations of whole numbers, the lower cell on the left; Gt is Lt with its
      operands exchanged, the other three are the negations, and exactly one of Lt, Eq and Gt holds. */
  lemma IntOrder(a: int, b: int)
    ensures (IntCompare(Lt, a, b) == 1 <==> b - a > 0) && (IntCompare(Eq, a, b) == 1 <==> b - a == 0)
    ensures IntCompare(Gt, a, b) == IntCompare(Lt, b, a)
    ensures IntCompare(GtEq, a, b) == 1 - IntCompare(Lt, a, b) && IntCompare(LtEq, a, b) == 1 - IntCompare(Gt, a, b)
    ensures IntCompare(NotEq, a, b) == 1 - IntCompare(Eq, a, b)
    ensures IntCompare(Lt, a, b) + IntCompare(Eq, a, b) + IntCompare(Gt, a, b) == 1
  {
  }

  /** The same of longs. */
  lemma LongOrder(x: int, y: int)
    requires Is64(x) && Is64(y)
    ensures (LongCompare(Lt, x, y) == 1 <==> y - x > 0) && (LongCompare(Eq, x, y) == 1 <==> y - x == 0)
    ensures LongCompare(Gt, x, y) == LongCompare(Lt, y, x)
    ensures LongCompare(GtEq, x, y) == 1 - LongCompare(Lt, x, y)
    ensures LongCompare(LtEq, x, y) == 1 - LongCompare(Gt, x, y)
    ensures LongCompare(NotEq, x, y) == 1 - LongCompare(Eq, x, y)
    ensures LongCompare(Lt, x, y) + LongCompare(Eq, x, y) + LongCompare(Gt, x, y) == 1
  {
    hide Join, Low, High;
    JoinSplit(x);
    JoinSplit(y);
  }

  // ------------------------------------------------------------------ longs

  /** Two cells hold a long, the low word in the lower one. */
  lemma SplitIsLowFirst(x: int)
    requires Is64(x)
    ensures Is32(Split(x)[0]) && Is32(Split(x)[1])
    ensures x == Split(x)[1] * 0x1_0000_0000 + Split(x)[0] % 0x1_0000_0000
    ensures Join(Split(x)[0], Split(x)[1]) == x
  {
    JoinSplit(x);
  }

  lemma LongWhole(m: Math, x: int, y: int)
    requires Is64(x) && Is64(y) && !IsLongShift(LongMath(m))
    ensures Long(m, x, y) == LongResult(m, x, y)
  {
    hide LongResult, Join, Split;
    LongsAreWhole(m, x, y);
  }

  /** Add, Sub and Mul of longs are exact up to wrap-around. */
  lemma LongExact(x: int, y: int)
    requires Is64(x) && Is64(y)
    ensures Long(Add, x, y).Some? && Word64(Long(Add, x, y).value, x + y)
    ensures Long(Sub, x, y).Some? && Word64(Long(Sub, x, y).value, x - y)
    ensures Long(Mul, x, y).Some? && Word64(Long(Mul, x, y).value, x * y)
  {
    hide ToInt64, Long;
    LongWhole(Add, x, y);
    LongWhole(Sub, x, y);
    LongWhole(Mul, x, y);
    Wrapped64(x + y);
    Wrapped64(x - y);
    Wrapped64(x * y);
  }

  /** Quotient and remainder of longs, as of ints. */
  lemma LongDivisionTruncates(x: int, y: int)
    requires Is64(x) && Is64(y)
    ensures Long(Div, x, y).None? <==> y == 0 || (x == -0x8000_0000_0000_0000 && y == -1)
    ensures Long(Mod, x, y).None? <==> Long(Div, x, y).None?
    ensures Long(Div, x, y).Some? ==>
              var q, r := Long(Div, x, y).value, Long(Mod, x, y).value;
              && x == y * q + r && -Magnitude(y) < r < Magnitude(y)
              && (x >= 0 ==> r >= 0) && (x <= 0 ==> r <= 0)
  {
    hide ToInt64, Long, TruncDiv, TruncMod;
    LongWhole(Div, x, y);
    LongWhole(Mod, x, y);
    if y != 0 && !(x == -0x8000_0000_0000_0000 && y == -1) {
      TruncatedParts(x, y);
      LongQuotientFits(x, y);
      InRange64(TruncDiv(x, y));
      InRange64(TruncMod(x, y));
    }
  }

  lemma InRange64(x: int)
    ensures Is64(x) ==> ToInt64(x) == x
  {
  }

  lemma LongQuotientFits(a: int, b: int)
    requires Is64(a) && b != 0 && !(a == -0x8000_0000_0000_0000 && b == -1)
    ensures Is64(TruncDiv(a, b))
  {
    hide TruncDiv;
    ByMinusOne(a);
    TruncDivMagnitude(a, b);
    var n, d := Magnitude(a), Magnitude(b);
    QuotientSmall(n, d);
    if n / d > 0 && d >= 2 { Scaled(n / d, 2, d); }
  }

  /** Neg and Not of longs by Sub. */
  lemma LongUnaries(x: int)
    requires Is64(x)
    ensures Some(LongOne(Neg, x)) == Long(Sub, 0, x) && Some(LongOne(Not, x)) == Long(Sub, -1, x)
  {
    hide Long, ToInt64, Join, Split;
    LongWhole(Sub, 0, x);
    LongWhole(Sub, -1, x);
    JoinSplit(x);
    SplitBack(x);
    SplitBack(ToInt64(-x));
    SplitBack(ToInt64(-1 - x));
  }

  lemma SplitBack(x: int)
    requires Is64(x)
    ensures |Split(x)| == 2 && Join(Split(x)[0], Split(x)[1]) == x
  {
    JoinSplit(x);
  }

  lemma LongBitsOf(op: BitOp, a: int, b: int, k: nat)
    requires k < 64
    ensures Bit64(ToInt64(Bitwise(op, a % 0x1_0000_0000_0000_0000, b % 0x1_0000_0000_0000_0000, 64)), k)
            == BitOf(op, Bit64(a, k), Bit64(b, k))
  {
    hide Bitwise, ToInt64, Power2;
    var x, y := a % 0x1_0000_0000_0000_0000, b % 0x1_0000_0000_0000_0000;
    BitwiseBound(op, x, y, 64);
    Power2Of32();
    WordOfNat(Bitwise(op, x, y, 64));
    BitwiseBits(op, x, y, 64, k);
  }

  /** Bits of longs, as of ints. */
  lemma LongBits(x: int, y: int, k: nat)
    requires Is64(x) && Is64(y) && k < 64
    ensures Long(Or, x, y).Some? && Long(Xor, x, y).Some? && Long(And, x, y).Some?
    ensures Bit64(Long(Or, x, y).value, k) == 1 <==> Bit64(x, k) == 1 || Bit64(y, k) == 1
    ensures Bit64(Long(Xor, x, y).value, k) == 1 <==> Bit64(x, k) != Bit64(y, k)
    ensures Bit64(Long(And, x, y).value, k) == 1 <==> Bit64(x, k) == 1 && Bit64(y, k) == 1
  {
    hide Bitwise, ToInt64, Power2, Long;
    LongWhole(Or, x, y);
    LongWhole(Xor, x, y);
    LongWhole(And, x, y);
    LongBitsOf(OrOp, x, y, k);
    LongBitsOf(XorOp, x, y, k);
    LongBitsOf(AndOp, x, y, k);
  }

  lemma LongShifted(m: Math, x: int, k: int)
    requires Is64(x) && IsLongShift(LongMath(m))
    ensures LongShift(m, x, k) == LongResult(m, x, k)
  {
    hide LongResult, Join, Split;
    SplitBack(x);
    var v := LongResult(m, x, k);
    if v.Some? { SplitBack(v.value); }
  }

  /** Shifts of longs, as of ints, up to 63 places. */
  lemma LongShifts(x: int, k: int)
    requires Is64(x)
    ensures LongShift(ShiftL, x, 0) == LongShift(ShiftR, x, 0) == Some(x)
    ensures 0 <= k < 63 ==>
              && LongShift(ShiftL, x, k).Some? && LongShift(ShiftL, x, k + 1).Some?
              && LongShift(ShiftL, x, k + 1) == Long(Add, LongShift(ShiftL, x, k).value, LongShift(ShiftL, x, k).value)
    ensures 0 <= k < 63 ==>
              && LongShift(ShiftR, x, k).Some? && LongShift(ShiftR, x, k + 1).Some?
              && 0 <= LongShift(ShiftR, x, k).value - 2 * LongShift(ShiftR, x, k + 1).value <= 1
    ensures !(0 <= k < 64) ==> LongShift(ShiftL, x, k) == LongShift(ShiftR, x, k) == None
  {
    hide LongShift, Long, ToInt64, Power2;
    LongShifted(ShiftL, x, 0);
    LongShifted(ShiftR, x, 0);
    LongShifted(ShiftL, x, k);
    LongShifted(ShiftR, x, k);
    LongShifted(ShiftL, x, k + 1);
    LongShifted(ShiftR, x, k + 1);
    NoShift(x);
    if 0 <= k < 63 {
      LongDoubled(x, k);
      var s := ToInt64(x * Power2(k));
      LongWhole(Add, s, s);
      LongHalved(x, k);
    }
  }

  lemma NoShift(x: int)
    requires Is64(x)
    ensures ToInt64(x * Power2(0)) == x == ToInt64(x / Power2(0))
  {
  }

  lemma LongDoubled(a: int, k: nat)
    ensures var s := ToInt64(a * Power2(k)); ToInt64(a * Power2(k + 1)) == ToInt64(s + s)
  {
    hide ToInt64;
    var x := a * Power2(k);
    var s := ToInt64(x);
    assert a * Power2(k + 1) == 2 * x;
    Wrapped64(x);
    Wrapped64(2 * x);
    Wrapped64(s + s);
    Twice64(s, x, ToInt64(s + s));
    OneWord64(ToInt64(2 * x), ToInt64(s + s), 2 * x);
  }

  lemma Twice64(s: int, x: int, r: int)
    requires Word64(s, x) && Word64(r, s + s)
    ensures Word64(r, 2 * x)
  {
    var q := (s - x) / 0x1_0000_0000_0000_0000;
    var p := (r - (s + s)) / 0x1_0000_0000_0000_0000;
    assert s - x == 0x1_0000_0000_0000_0000 * q;
    assert r - 2 * x == 0x1_0000_0000_0000_0000 * (p + 2 * q);
  }

  lemma LongHalved(a: int, k: nat)
    requires Is64(a)
    ensures 0 <= ToInt64(a / Power2(k)) - 2 * ToInt64(a / Power2(k + 1)) <= 1
  {
    hide ToInt64;
    var p := Power2(k);
    FloorFits(a, p);
    FloorFits(a, 2 * p);
    HalfFloor(a, p);
    InRange64(a / p);
    InRange64(a / (2 * p));
  }
}
