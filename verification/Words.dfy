/** Machine words of the 32-bit target: wrap-around, truncating division, bitwise
    operations on two's complement, and little-endian octets; and writes into sequences. */
module Words {
  datatype Option<+T> = None | Some(value: T)

  type byte = b: int | 0 <= b < 256

  const SPAN32 := 0x1_0000_0000
  const SPAN64 := 0x1_0000_0000_0000_0000

  function ToInt32(x: int): (w: int)
    ensures -0x8000_0000 <= w < 0x8000_0000
    ensures -0x8000_0000 <= x < 0x8000_0000 ==> w == x
  {
    (x + 0x8000_0000) % SPAN32 - 0x8000_0000
  }

  function ToInt64(x: int): (w: int)
    ensures -0x8000_0000_0000_0000 <= w < 0x8000_0000_0000_0000
    ensures -0x8000_0000_0000_0000 <= x < 0x8000_0000_0000_0000 ==> w == x
  {
    (x + 0x8000_0000_0000_0000) % SPAN64 - 0x8000_0000_0000_0000
  }

  /** A 64-bit value held in two consecutive cells, the low word first. */
  function Join(lo: int, hi: int): int {
    ToInt64(hi * SPAN32 + lo % SPAN32)
  }

  function Low(x: int): int { ToInt32(x) }

  function High(x: int): int { ToInt32(x / SPAN32) }

  lemma JoinSplit(x: int)
    requires -0x8000_0000_0000_0000 <= x < 0x8000_0000_0000_0000
    ensures Join(Low(x), High(x)) == x
  {
    assert x == (x / SPAN32) * SPAN32 + x % SPAN32;
    assert -0x8000_0000 <= x / SPAN32 < 0x8000_0000;
    assert High(x) == x / SPAN32;
    assert Low(x) % SPAN32 == x % SPAN32;
  }

  /** C division and remainder truncate toward zero. */
  function TruncDiv(a: int, b: int): int
    requires b != 0
  {
    if a >= 0 then (if b > 0 then a / b else -(a / -b))
    else if b > 0 then -(-a / b) else -a / -b
  }

  function TruncMod(a: int, b: int): int
    requires b != 0
  {
    a - b * TruncDiv(a, b)
  }

  datatype BitOp = OrOp | XorOp | AndOp

  function BitOf(op: BitOp, a: int, b: int): int
  {
    match op
    case OrOp => if a == 1 || b == 1 then 1 else 0
    case XorOp => if a != b then 1 else 0
    case AndOp => if a == 1 && b == 1 then 1 else 0
  }

  /** Combines the low `n` bits of two naturals bit by bit. */
  function Bitwise(op: BitOp, a: nat, b: nat, n: nat): nat
  {
    if n == 0 then 0
    else BitOf(op, a % 2, b % 2) + 2 * Bitwise(op, a / 2, b / 2, n - 1)
  }

  function Power2(n: nat): (p: nat)
    ensures p > 0
  {
    if n == 0 then 1 else 2 * Power2(n - 1)
  }

  /** Bit `k` of a natural, bit 0 the lowest. */
  function BitAt(x: nat, k: nat): nat { x / Power2(k) % 2 }

  lemma Scaled(x: int, b: int, c: int)
    requires x >= 0 && b <= c
    ensures x * b <= x * c
  {
  }

  lemma {:induction false} HalvedBit(x: nat, k: nat)
    requires k > 0
    ensures BitAt(x, k) == BitAt(x / 2, k - 1)
  {
    HalfDivides(x, Power2(k - 1));
  }

  lemma HalfDivides(x: nat, p: nat)
    requires p > 0
    ensures p > 0 && x / (2 * p) == x / 2 / p
  {
    var h := x / 2;
    var q, r := h / p, h % p;
    assert h == p * q + r;
    assert x == (2 * p) * q + (2 * r + x % 2);
    Quotient(x, 2 * p, q, 2 * r + x % 2);
  }

  lemma {:induction false} Quotient(x: nat, d: nat, q: nat, r: nat)
    requires d > 0 && x == d * q + r && r < d
    ensures d > 0 && x / d == q
  {
    var e := x / d;
    assert x == d * e + x % d;
    if e < q { Scaled(d, e + 1, q); } else if e > q { Scaled(d, q + 1, e); }
  }

  /** The `n` low octets of `v`, least significant first. */
  function Bytes(v: int, n: nat): (bs: seq<byte>)
    ensures |bs| == n
    decreases n
  {
    if n == 0 then [] else [v % 256] + Bytes(v / 256, n - 1)
  }

  function FromBytes(bs: seq<byte>): (v: nat)
  {
    if bs == [] then 0 else bs[0] + 256 * FromBytes(bs[1..])
  }

  function Power256(n: nat): (p: nat)
    ensures p > 0
  {
    if n == 0 then 1 else 256 * Power256(n - 1)
  }

  /** Reading octets back gives the value that was stored, for every width it fits. */
  lemma {:induction false} BytesRoundTrip(v: int, n: nat)
    requires 0 <= v < Power256(n)
    ensures FromBytes(Bytes(v, n)) == v
  {
    if n > 0 {
      assert v / 256 < Power256(n - 1);
      BytesRoundTrip(v / 256, n - 1);
      assert Bytes(v, n)[1..] == Bytes(v / 256, n - 1);
    }
  }

  lemma SubSlice<T>(s: seq<T>, from: int, to: int, i: int, j: int)
    requires 0 <= from <= to <= |s| && 0 <= i <= j <= to - from
    ensures s[from..to][i..j] == s[from + i..from + j]
  {
    var a, x, y := s[from..to], s[from..to][i..j], s[from + i..from + j];
    forall k | 0 <= k < |x|
      ensures x[k] == y[k]
    {
      assert x[k] == a[i + k] == s[from + (i + k)];
    }
  }

  /** `cells` written over `s` from `at` on. */
  function Overwrite<T>(s: seq<T>, at: int, cells: seq<T>): (t: seq<T>)
    requires 0 <= at && at + |cells| <= |s|
    ensures |t| == |s|
  {
    s[..at] + cells + s[at + |cells|..]
  }

  lemma IsOverwrite<T>(s: seq<T>, t: seq<T>, at: int, cells: seq<T>)
    requires 0 <= at && at + |cells| <= |s| == |t|
    requires t[..at] == s[..at] && t[at..at + |cells|] == cells && t[at + |cells|..] == s[at + |cells|..]
    ensures t == Overwrite(s, at, cells)
  {
    assert t == t[..at] + t[at..at + |cells|] + t[at + |cells|..];
  }

  /** Adjacent writes in either order. */
  lemma OverwriteOn<T>(s: seq<T>, at: int, cells: seq<T>, more: seq<T>)
    requires 0 <= at && at + |cells| + |more| <= |s|
    ensures Overwrite(Overwrite(s, at, cells), at + |cells|, more) == Overwrite(s, at, cells + more)
    ensures Overwrite(Overwrite(s, at + |cells|, more), at, cells) == Overwrite(s, at, cells + more)
  {
  }
}
