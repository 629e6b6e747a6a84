/** SHA-256 as FIPS 180-4 defines it, for messages that are whole bytes. */
module Fips180 {
  import opened JsNumbers
  import opened Octets
  import opened Primes

  // ---------------------------------------------------------------- section 4.1.2: functions on 32-bit words

  function Shr(n: nat, x: word): word { ShiftDown(x, n) }

  function Rotr(n: nat, x: word): word
    requires n <= 32
  {
    WordOp(Or, ShiftDown(x, n), ToUint32(ShiftUp(x, 32 - n)))
  }

  function Not(x: word): word { 0xffff_ffff - x }
  function Xor3(x: word, y: word, z: word): word { WordOp(Xor, WordOp(Xor, x, y), z) }
  function Ch(x: word, y: word, z: word): word { WordOp(Xor, WordOp(And, x, y), WordOp(And, Not(x), z)) }
  function Maj(x: word, y: word, z: word): word { Xor3(WordOp(And, x, y), WordOp(And, x, z), WordOp(And, y, z)) }
  function BigSigma0(x: word): word { Xor3(Rotr(2, x), Rotr(13, x), Rotr(22, x)) }
  function BigSigma1(x: word): word { Xor3(Rotr(6, x), Rotr(11, x), Rotr(25, x)) }
  function SmallSigma0(x: word): word { Xor3(Rotr(7, x), Rotr(18, x), Shr(3, x)) }
  function SmallSigma1(x: word): word { Xor3(Rotr(17, x), Rotr(19, x), Shr(10, x)) }

  // ---------------------------------------------------------------- section 4.2.2 and 5.3.3: constants

  /** The constants K_0 .. K_63, eight to a row. */
  const K_ROWS: seq<seq<word>> := [
    [0x428a2f98, 0x71374491, 0xb5c0fbcf, 0xe9b5dba5, 0x3956c25b, 0x59f111f1, 0x923f82a4, 0xab1c5ed5],
    [0xd807aa98, 0x12835b01, 0x243185be, 0x550c7dc3, 0x72be5d74, 0x80deb1fe, 0x9bdc06a7, 0xc19bf174],
    [0xe49b69c1, 0xefbe4786, 0x0fc19dc6, 0x240ca1cc, 0x2de92c6f, 0x4a7484aa, 0x5cb0a9dc, 0x76f988da],
    [0x983e5152, 0xa831c66d, 0xb00327c8, 0xbf597fc7, 0xc6e00bf3, 0xd5a79147, 0x06ca6351, 0x14292967],
    [0x27b70a85, 0x2e1b2138, 0x4d2c6dfc, 0x53380d13, 0x650a7354, 0x766a0abb, 0x81c2c92e, 0x92722c85],
    [0xa2bfe8a1, 0xa81a664b, 0xc24b8b70, 0xc76c51a3, 0xd192e819, 0xd6990624, 0xf40e3585, 0x106aa070],
    [0x19a4c116, 0x1e376c08, 0x2748774c, 0x34b0bcb5, 0x391c0cb3, 0x4ed8aa4a, 0x5b9cca4f, 0x682e6ff3],
    [0x748f82ee, 0x78a5636f, 0x84c87814, 0x8cc70208, 0x90befffa, 0xa4506ceb, 0xbef9a3f7, 0xc67178f2]]

  function K(t: nat): word
    requires t < 64
  {
    K_ROWS[t / 8][t % 8]
  }

  datatype Vars = Vars(a: word, b: word, c: word, d: word, e: word, f: word, g: word, h: word)

  const H0 := Vars(0x6a09e667, 0xbb67ae85, 0x3c6ef372, 0xa54ff53a, 0x510e527f, 0x9b05688c, 0x1f83d9ab, 0x5be0cd19)

  // ---------------------------------------------------------------- section 6.2.2: one block

  function BigEndian(b0: byte, b1: byte, b2: byte, b3: byte): word {
    b0 * 0x100_0000 + b1 * 0x1_0000 + b2 * 0x100 + b3
  }

  function BlockWord(block: seq<byte>, t: nat): word
    requires |block| == 64 && t < 16
  {
    BigEndian(block[4 * t], block[4 * t + 1], block[4 * t + 2], block[4 * t + 3])
  }

  function Schedule(block: seq<byte>, t: nat): word
    requires |block| == 64 && t < 64
  {
    if t < 16 then BlockWord(block, t)
    else ToUint32(SmallSigma1(Schedule(block, t - 2)) + Schedule(block, t - 7)
                  + SmallSigma0(Schedule(block, t - 15)) + Schedule(block, t - 16))
  }

  function Round(v: Vars, k: word, w: word): Vars {
    var t1 := ToUint32(v.h + BigSigma1(v.e) + Ch(v.e, v.f, v.g) + k + w);
    var t2 := ToUint32(BigSigma0(v.a) + Maj(v.a, v.b, v.c));
    Vars(ToUint32(t1 + t2), v.a, v.b, v.c, ToUint32(v.d + t1), v.e, v.f, v.g)
  }

  /** The working variables after the first t rounds. */
  function Rounds(v: Vars, block: seq<byte>, t: nat): Vars
    requires |block| == 64 && t <= 64
  {
    if t == 0 then v else Round(Rounds(v, block, t - 1), K(t - 1), Schedule(block, t - 1))
  }

  function AddVars(x: Vars, y: Vars): Vars {
    Vars(ToUint32(x.a + y.a), ToUint32(x.b + y.b), ToUint32(x.c + y.c), ToUint32(x.d + y.d),
         ToUint32(x.e + y.e), ToUint32(x.f + y.f), ToUint32(x.g + y.g), ToUint32(x.h + y.h))
  }

  function Compress(h: Vars, block: seq<byte>): Vars
    requires |block| == 64
  {
    AddVars(h, Rounds(h, block, 64))
  }

  // ---------------------------------------------------------------- section 5.1.1 and 6.2: whole messages

  function Blocks(m: seq<byte>): Vars
    requires |m| % 64 == 0
  {
    if m == [] then H0 else Compress(Blocks(m[..|m| - 64]), m[|m| - 64..])
  }

  /** The 0x80 byte, k zero bytes and the eight bytes of the length complete a block. */
  predicate PadFits(length: nat, k: nat) {
    (length + 9 + k) % 64 == 0
  }

  /** The number of zero bytes. */
  function PadZeros(length: nat): (k: nat)
    ensures PadFits(length, k)
  {
    if length % 64 <= 55 then 55 - length % 64 else 119 - length % 64
  }

  /** It is the smallest that fits. */
  lemma PadZerosLeast(length: nat, k: nat)
    requires PadFits(length, k)
    ensures PadZeros(length) <= k
  {
    var r := length % 64;
    var blocks := (length + 9 + k) / 64 - length / 64;
    assert r + 9 + k == 64 * blocks;
  }

  function Zeros(n: nat): (r: seq<byte>)
    ensures |r| == n
  {
    seq(n, i => 0)
  }

  function Padding(length: nat): (r: seq<byte>)
    ensures |r| == 9 + PadZeros(length)
  {
    [0x80] + Zeros(PadZeros(length)) + I2osp(8 * length, 8)
  }

  function Hash(m: seq<byte>): Vars
    requires |m| < 0x2000_0000_0000_0000
  {
    assert PadFits(|m|, PadZeros(|m|));
    Blocks(m + Padding(|m|))
  }

  // ---------------------------------------------------------------- what the constants are

  /** w is the first 32 bits of the fractional part of the cube root of p, whose integer part is r. */
  predicate CubeRootFraction(w: word, p: nat, r: nat) {
    var lo := r * 0x1_0000_0000 + w;
    var one := 0x1_0000_0000;
    lo * lo * lo <= p * (one * one * one) < (lo + 1) * (lo + 1) * (lo + 1)
  }

  /** w is the first 32 bits of the fractional part of the square root of p, whose integer part is r. */
  predicate SquareRootFraction(w: word, p: nat, r: nat) {
    var lo := r * 0x1_0000_0000 + w;
    var one := 0x1_0000_0000;
    lo * lo <= p * (one * one) < (lo + 1) * (lo + 1)
  }

  lemma InitialValueIsSquareRoots()
    ensures SquareRootFraction(H0.a, 2, 1) && SquareRootFraction(H0.b, 3, 1)
    ensures SquareRootFraction(H0.c, 5, 2) && SquareRootFraction(H0.d, 7, 2)
    ensures SquareRootFraction(H0.e, 11, 3) && SquareRootFraction(H0.f, 13, 3)
    ensures SquareRootFraction(H0.g, 17, 4) && SquareRootFraction(H0.h, 19, 4)
  {
  }

  predicate IsCubeRoot(w: word, p: nat) {
    exists r: nat :: r < 7 && CubeRootFraction(w, p, r)
  }

  predicate RowIsCubeRoots(ks: seq<word>, ps: seq<nat>) {
    |ks| == |ps| && forall i | 0 <= i < |ks| :: IsCubeRoot(ks[i], ps[i])
  }

  lemma CubeRootRow0()
    ensures RowIsCubeRoots(K_ROWS[0], PRIME_ROWS[0])
  {
    assert CubeRootFraction(0x428a2f98, 2, 1); assert CubeRootFraction(0x71374491, 3, 1);
    assert CubeRootFraction(0xb5c0fbcf, 5, 1); assert CubeRootFraction(0xe9b5dba5, 7, 1);
    assert CubeRootFraction(0x3956c25b, 11, 2); assert CubeRootFraction(0x59f111f1, 13, 2);
    assert CubeRootFraction(0x923f82a4, 17, 2); assert CubeRootFraction(0xab1c5ed5, 19, 2);
  }

  lemma CubeRootRow1()
    ensures RowIsCubeRoots(K_ROWS[1], PRIME_ROWS[1])
  {
    assert CubeRootFraction(0xd807aa98, 23, 2); assert CubeRootFraction(0x12835b01, 29, 3);
    assert CubeRootFraction(0x243185be, 31, 3); assert CubeRootFraction(0x550c7dc3, 37, 3);
    assert CubeRootFraction(0x72be5d74, 41, 3); assert CubeRootFraction(0x80deb1fe, 43, 3);
    assert CubeRootFraction(0x9bdc06a7, 47, 3); assert CubeRootFraction(0xc19bf174, 53, 3);
  }

  lemma CubeRootRow2()
    ensures RowIsCubeRoots(K_ROWS[2], PRIME_ROWS[2])
  {
    assert CubeRootFraction(0xe49b69c1, 59, 3); assert CubeRootFraction(0xefbe4786, 61, 3);
    assert CubeRootFraction(0x0fc19dc6, 67, 4); assert CubeRootFraction(0x240ca1cc, 71, 4);
    assert CubeRootFraction(0x2de92c6f, 73, 4); assert CubeRootFraction(0x4a7484aa, 79, 4);
    assert CubeRootFraction(0x5cb0a9dc, 83, 4); assert CubeRootFraction(0x76f988da, 89, 4);
  }

  lemma CubeRootRow3()
    ensures RowIsCubeRoots(K_ROWS[3], PRIME_ROWS[3])
  {
    assert CubeRootFraction(0x983e5152, 97, 4); assert CubeRootFraction(0xa831c66d, 101, 4);
    assert CubeRootFraction(0xb00327c8, 103, 4); assert CubeRootFraction(0xbf597fc7, 107, 4);
    assert CubeRootFraction(0xc6e00bf3, 109, 4); assert CubeRootFraction(0xd5a79147, 113, 4);
    assert CubeRootFraction(0x06ca6351, 127, 5); assert CubeRootFraction(0x14292967, 131, 5);
  }

  lemma CubeRootRow4()
    ensures RowIsCubeRoots(K_ROWS[4], PRIME_ROWS[4])
  {
    assert CubeRootFraction(0x27b70a85, 137, 5); assert CubeRootFraction(0x2e1b2138, 139, 5);
    assert CubeRootFraction(0x4d2c6dfc, 149, 5); assert CubeRootFraction(0x53380d13, 151, 5);
    assert CubeRootFraction(0x650a7354, 157, 5); assert CubeRootFraction(0x766a0abb, 163, 5);
    assert CubeRootFraction(0x81c2c92e, 167, 5); assert CubeRootFraction(0x92722c85, 173, 5);
  }

  lemma CubeRootRow5()
    ensures RowIsCubeRoots(K_ROWS[5], PRIME_ROWS[5])
  {
    assert CubeRootFraction(0xa2bfe8a1, 179, 5); assert CubeRootFraction(0xa81a664b, 181, 5);
    assert CubeRootFraction(0xc24b8b70, 191, 5); assert CubeRootFraction(0xc76c51a3, 193, 5);
    assert CubeRootFraction(0xd192e819, 197, 5); assert CubeRootFraction(0xd6990624, 199, 5);
    assert CubeRootFraction(0xf40e3585, 211, 5); assert CubeRootFraction(0x106aa070, 223, 6);
  }

  lemma CubeRootRow6()
    ensures RowIsCubeRoots(K_ROWS[6], PRIME_ROWS[6])
  {
    assert CubeRootFraction(0x19a4c116, 227, 6); assert CubeRootFraction(0x1e376c08, 229, 6);
    assert CubeRootFraction(0x2748774c, 233, 6); assert CubeRootFraction(0x34b0bcb5, 239, 6);
    assert CubeRootFraction(0x391c0cb3, 241, 6); assert CubeRootFraction(0x4ed8aa4a, 251, 6);
    assert CubeRootFraction(0x5b9cca4f, 257, 6); assert CubeRootFraction(0x682e6ff3, 263, 6);
  }

  lemma CubeRootRow7()
    ensures RowIsCubeRoots(K_ROWS[7], PRIME_ROWS[7])
  {
    assert CubeRootFraction(0x748f82ee, 269, 6); assert CubeRootFraction(0x78a5636f, 271, 6);
    assert CubeRootFraction(0x84c87814, 277, 6); assert CubeRootFraction(0x8cc70208, 281, 6);
    assert CubeRootFraction(0x90befffa, 283, 6); assert CubeRootFraction(0xa4506ceb, 293, 6);
    assert CubeRootFraction(0xbef9a3f7, 307, 6); assert CubeRootFraction(0xc67178f2, 311, 6);
  }

  /** Section 4.2.2: K_t is taken from the cube root of the t-th of the first sixty-four primes. */
  lemma ConstantsAreCubeRoots(t: nat)
    requires t < 64
    ensures IsCubeRoot(K(t), PrimeAt(t)) && Prime(PrimeAt(t))
    ensures forall s | 0 <= s < t :: PrimeAt(s) < PrimeAt(t)
    ensures forall p: nat | Prime(p) && p <= PrimeAt(t) :: exists s :: 0 <= s <= t && PrimeAt(s) == p
  {
    hide Prime;
    CubeRootRow0(); CubeRootRow1(); CubeRootRow2(); CubeRootRow3();
    CubeRootRow4(); CubeRootRow5(); CubeRootRow6(); CubeRootRow7();
    assert RowIsCubeRoots(K_ROWS[t / 8], PRIME_ROWS[t / 8]);
    PrimesInOrder(t);
  }

  lemma NotLater(s: nat, t: nat)
    requires s < 64 && t < 64 && PrimeAt(s) <= PrimeAt(t)
    ensures s <= t
  {
    hide PrimeAt;
    if s > t { ListRises(t, s); }
  }

  lemma PrimesInOrder(t: nat)
    requires t < 64
    ensures Prime(PrimeAt(t)) && forall s | 0 <= s < t :: PrimeAt(s) < PrimeAt(t)
    ensures forall p: nat | Prime(p) && p <= PrimeAt(t) :: exists s :: 0 <= s <= t && PrimeAt(s) == p
  {
    hide Prime, PrimeAt;
    FirstSixtyFour();
    forall p: nat | Prime(p) && p <= PrimeAt(t) ensures exists s :: 0 <= s <= t && PrimeAt(s) == p {
      assert p <= PrimeAt(63);
      var s :| 0 <= s < 64 && PrimeAt(s) == p;
      NotLater(s, t);
    }
  }
}
