/** JavaScript number conversions and the bitwise operators built on them.
    A number that is exactly an integer is an `int`; ToInt32 and ToUint32 are the
    conversions of sections 7.1.6 and 7.1.7 of ECMA-262. */
module JsNumbers {
  type byte = b: int | 0 <= b < 256
  type word = x: int | 0 <= x < 0x1_0000_0000

  function ToUint32(x: int): word {
    x % 0x1_0000_0000
  }

  function ToInt32(x: int): int {
    if x % 0x1_0000_0000 < 0x8000_0000 then x % 0x1_0000_0000 else x % 0x1_0000_0000 - 0x1_0000_0000
  }

  function Pow2(n: nat): (r: nat)
    ensures r > 0
  {
    if n == 0 then 1 else 2 * Pow2(n - 1)
  }

  datatype BitOp = And | Or | Xor {
    function Apply(p: bool, q: bool): (r: nat)
      ensures r < 2
    {
      if (match this
          case And => p && q
          case Or => p || q
          case Xor => p != q) then 1 else 0
    }
  }

  /** The low n bits of a and b combined position by position. */
  function Bitwise(op: BitOp, a: nat, b: nat, n: nat): (r: nat)
    ensures r < Pow2(n)
  {
    if n == 0 then 0
    else op.Apply(a % 2 == 1, b % 2 == 1) + 2 * Bitwise(op, a / 2, b / 2, n - 1)
  }

  /** The 32-bit operation on words: what both FIPS 180-4 and ECMA-262 start from. */
  function WordOp(op: BitOp, a: word, b: word): word {
    Pow2Of32();
    Bitwise(op, a, b, 32)
  }

  /** x shifted left by n positions, without a width. */
  function ShiftUp(x: int, n: nat): (r: int)
    ensures x >= 0 ==> r >= x
  {
    if n == 0 then x else 2 * ShiftUp(x, n - 1)
  }

  /** x shifted right by n positions, rounding towards minus infinity. */
  function ShiftDown(x: int, n: nat): (r: int)
    ensures x >= 0 ==> 0 <= r <= x
    decreases if x < 0 then -x else x, n
  {
    if n == 0 then x else ShiftDown(x / 2, n - 1)
  }

  /** The n lowest bits of a. */
  function LowBits(a: nat, n: nat): nat {
    if n == 0 then 0 else a % 2 + 2 * LowBits(a / 2, n - 1)
  }

  // The JavaScript operators: operands through ToInt32 or ToUint32, result signed except for >>>.
  function JsAnd(a: int, b: int): int { ToInt32(WordOp(And, ToUint32(a), ToUint32(b))) }
  function JsOr(a: int, b: int): int { ToInt32(WordOp(Or, ToUint32(a), ToUint32(b))) }
  function JsXor(a: int, b: int): int { ToInt32(WordOp(Xor, ToUint32(a), ToUint32(b))) }
  function JsNot(a: int): int { -ToInt32(a) - 1 }
  function JsShl(a: int, n: nat): int { ToInt32(ShiftUp(ToInt32(a), n)) }
  function JsSar(a: int, n: nat): int { ShiftDown(ToInt32(a), n) }
  function JsShr(a: int, n: nat): word { ShiftDown(ToUint32(a), n) }

  // ---------------------------------------------------------------- powers of two

  lemma Pow2Of32()
    ensures Pow2(8) == 256 && Pow2(16) == 0x1_0000 && Pow2(24) == 0x100_0000 && Pow2(32) == 0x1_0000_0000
  {
    assert Pow2(8) == 256;
    assert Pow2(16) == 0x1_0000;
    assert Pow2(24) == 0x100_0000;
  }

  // ---------------------------------------------------------------- bitwise facts

  /** Masking with n ones keeps the n lowest bits. */
  lemma {:induction false} MaskLow(a: nat, n: nat, k: nat)
    requires n <= k
    ensures Bitwise(And, a, Pow2(n) - 1, k) == LowBits(a, n)
  {
    if k > 0 {
      if n == 0 {
        MaskLow(a / 2, 0, k - 1);
      } else {
        var p := Pow2(n - 1);
        assert (2 * p - 1) / 2 == p - 1 && (2 * p - 1) % 2 == 1;
        MaskLow(a / 2, n - 1, k - 1);
      }
    }
  }

  /** OR of a value shifted up by k positions with one below 2^k is their sum. */
  lemma {:induction false} DisjointOr(q: nat, b: nat, k: nat, n: nat)
    requires b < Pow2(k) && k <= n && q < Pow2(n - k)
    ensures Bitwise(Or, ShiftUp(q, k), b, n) == ShiftUp(q, k) + b
    ensures ShiftUp(q, k) + b < Pow2(n)
  {
    if k == 0 {
      OrZero(q, n);
    } else {
      DisjointOr(q, b / 2, k - 1, n - 1);
    }
  }

  lemma {:induction false} OrZero(a: nat, n: nat)
    requires a < Pow2(n)
    ensures Bitwise(Or, a, 0, n) == a
  {
    if n > 0 {
      OrZero(a / 2, n - 1);
    }
  }

  lemma UpNibble(x: int, n: nat)
    ensures ShiftUp(x, n + 4) == 16 * ShiftUp(x, n)
  {
    assert ShiftUp(x, n + 4) == 2 * ShiftUp(x, n + 3) == 4 * ShiftUp(x, n + 2) == 8 * ShiftUp(x, n + 1);
  }

  lemma DownNibble(x: int, n: nat)
    ensures ShiftDown(x, n + 4) == ShiftDown(x / 16, n)
  {
    assert ShiftDown(x, n + 4) == ShiftDown(x / 2, n + 3) == ShiftDown(x / 2 / 2, n + 2);
    assert ShiftDown(x / 2 / 2, n + 2) == ShiftDown(x / 2 / 2 / 2, n + 1) == ShiftDown(x / 2 / 2 / 2 / 2, n);
  }

  /** Shifts by whole bytes, as multiplication and division. */
  lemma ByteUp(x: int, n: nat)
    ensures ShiftUp(x, n + 8) == 0x100 * ShiftUp(x, n)
    ensures ShiftUp(x, 0) == x
  {
    UpNibble(x, n + 4);
    UpNibble(x, n);
  }

  lemma ByteDown(x: int, n: nat)
    ensures ShiftDown(x, n + 8) == ShiftDown(x / 0x100, n)
    ensures ShiftDown(x, 0) == x
  {
    DownNibble(x, n + 4);
    DownNibble(x / 16, n);
  }

  lemma ByteShifts(x: int)
    ensures ShiftUp(x, 8) == 0x100 * x && ShiftUp(x, 16) == 0x1_0000 * x && ShiftUp(x, 24) == 0x100_0000 * x
    ensures ShiftDown(x, 8) == x / 0x100 && ShiftDown(x, 16) == x / 0x1_0000 && ShiftDown(x, 24) == x / 0x100_0000
  {
    ByteUp(x, 0);
    ByteUp(x, 8);
    ByteUp(x, 16);
    ByteDown(x, 0);
    ByteDown(x, 8);
    ByteDown(x / 0x100, 0);
    ByteDown(x, 16);
    ByteDown(x / 0x100, 8);
    ByteDown(x / 0x100 / 0x100, 0);
  }

  lemma LowByte(a: nat)
    ensures LowBits(a, 8) == a % 256
  {
    assert a % 256 == a % 16 + 16 * (a / 16 % 16);
    assert LowBits(a / 16 / 16, 0) == 0;
    hide LowBits;
    LowNibble(a, 4);
    LowNibble(a / 16, 0);
  }

  lemma LowNibble(a: nat, n: nat)
    ensures LowBits(a, n + 4) == a % 16 + 16 * LowBits(a / 16, n)
  {
    assert LowBits(a, n + 4) == a % 2 + 2 * LowBits(a / 2, n + 3);
    assert LowBits(a / 2, n + 3) == a / 2 % 2 + 2 * LowBits(a / 2 / 2, n + 2);
    assert LowBits(a / 2 / 2, n + 2) == a / 2 / 2 % 2 + 2 * LowBits(a / 2 / 2 / 2, n + 1);
    assert LowBits(a / 2 / 2 / 2, n + 1) == a / 2 / 2 / 2 % 2 + 2 * LowBits(a / 2 / 2 / 2 / 2, n);
  }

  // ---------------------------------------------------------------- signed and unsigned agree modulo 2^32

  lemma Congruent(a: int)
    ensures ToUint32(ToInt32(a)) == ToUint32(a)
  {
  }

  /** Multiples of 2^32 do not change a word. */
  lemma WordPeriod(a: int, k: int)
    ensures ToUint32(a + 0x1_0000_0000 * k) == ToUint32(a)
  {
  }

  /** A sum of any representatives is the sum of the words. */
  lemma SumCongruent(a: int, b: int)
    ensures ToUint32(a + b) == ToUint32(ToUint32(a) + b)
  {
    WordPeriod(ToUint32(a) + b, a / 0x1_0000_0000);
  }

  lemma ShlSmall(b: nat, n: nat)
    requires b < 0x8000_0000 && ShiftUp(b, n) < 0x1_0000_0000
    ensures ToUint32(JsShl(b, n)) == ShiftUp(b, n)
  {
    assert ToInt32(b) == b;
    Congruent(ShiftUp(b, n));
  }

  lemma OrBelow(x: int, y: int, q: nat, b: nat, k: nat)
    requires b < Pow2(k) && k <= 32 && q < Pow2(32 - k)
    requires ToUint32(x) == ShiftUp(q, k) && ToUint32(y) == b
    ensures ToUint32(JsOr(x, y)) == ShiftUp(q, k) + b
  {
    hide Bitwise, ShiftUp;
    DisjointOr(q, b, k, 32);
    Congruent(WordOp(Or, ToUint32(x), ToUint32(y)));
  }

  lemma OrFirst(b0: byte, b1: byte)
    ensures ToUint32(JsOr(JsShl(b0, 24), JsShl(b1, 16))) == (b0 * 0x100 + b1) * 0x1_0000
  {
    hide WordOp;
    Pow2Of32();
    ByteShifts(b0);
    ByteShifts(b1);
    ShlSmall(b0, 24);
    ShlSmall(b1, 16);
    OrBelow(JsShl(b0, 24), JsShl(b1, 16), b0, b1 * 0x1_0000, 24);
  }

  lemma OrSecond(x: int, w: nat, b: byte)
    requires w < 0x1_0000 && ToUint32(x) == w * 0x1_0000
    ensures ToUint32(JsOr(x, JsShl(b, 8))) == (w * 0x100 + b) * 0x100
  {
    hide WordOp;
    Pow2Of32();
    ByteShifts(w);
    ByteShifts(b);
    ShlSmall(b, 8);
    OrBelow(x, JsShl(b, 8), w, b * 0x100, 16);
  }

  lemma OrThird(x: int, w: nat, b: byte)
    requires w < 0x100_0000 && ToUint32(x) == w * 0x100
    ensures ToUint32(JsOr(x, b)) == w * 0x100 + b
  {
    hide WordOp;
    Pow2Of32();
    ByteShifts(w);
    OrBelow(x, b, w, b, 8);
  }

  /** Four bytes shifted into place and OR-ed are the big-endian word, read back unsigned. */
  lemma BigEndianWord(b0: byte, b1: byte, b2: byte, b3: byte)
    ensures ToUint32(JsOr(JsOr(JsOr(JsShl(b0, 24), JsShl(b1, 16)), JsShl(b2, 8)), b3))
         == b0 * 0x100_0000 + b1 * 0x1_0000 + b2 * 0x100 + b3
  {
    hide JsOr, JsShl;
    OrFirst(b0, b1);
    var x1 := JsOr(JsShl(b0, 24), JsShl(b1, 16));
    OrSecond(x1, b0 * 0x100 + b1, b2);
    OrThird(JsOr(x1, JsShl(b2, 8)), (b0 * 0x100 + b1) * 0x100 + b2, b3);
  }

  /** x & 0xff */
  lemma AndByte(x: int)
    ensures JsAnd(x, 0xff) == ToUint32(x) % 256
  {
    hide Bitwise, LowBits;
    assert Pow2(8) - 1 == 0xff by { Pow2Of32(); }
    MaskLow(ToUint32(x), 8, 32);
    LowByte(ToUint32(x));
  }

  lemma LowFive(x: nat)
    ensures LowBits(x, 5) == x % 32
  {
    LowNibble(x, 1);
    assert LowBits(x / 16, 1) == x / 16 % 2 + 2 * LowBits(x / 16 / 2, 0);
  }

  /** x & 31 */
  lemma AndFive(x: byte)
    ensures JsAnd(x, 31) == x % 32
  {
    hide Bitwise, LowBits;
    assert Pow2(5) - 1 == 31;
    MaskLow(x, 5, 32);
    LowFive(x);
  }
}
