/** The incremental hasher of the upload path: one 64-byte buffer, eight words of state. */
module Sha256 {
  import opened JsNumbers
  import opened Octets
  import opened Fips180
  import opened TypedArrays

  // ---------------------------------------------------------------- JavaScript expressions against words

  function JsRotr(x: int, n: nat): int
    requires n <= 32
  {
    JsOr(JsShr(x, n), JsShl(x, 32 - n))
  }

  function JsXor3(x: int, y: int, z: int): int { JsXor(JsXor(x, y), z) }

  lemma {:induction false} ShiftUpCongruent(x: int, n: nat)
    ensures ToUint32(ShiftUp(ToInt32(x), n)) == ToUint32(ShiftUp(ToUint32(x), n))
  {
    if n == 0 {
      Congruent(x);
    } else {
      ShiftUpCongruent(x, n - 1);
      var p, q := ShiftUp(ToInt32(x), n - 1), ShiftUp(ToUint32(x), n - 1);
      SumCongruent(p, p); SumCongruent(p, ToUint32(p));
      SumCongruent(q, q); SumCongruent(q, ToUint32(q));
    }
  }

  lemma RotrAgrees(x: int, n: nat)
    requires n <= 32
    ensures ToUint32(JsRotr(x, n)) == Rotr(n, ToUint32(x))
  {
    hide WordOp;
    ShiftUpCongruent(x, 32 - n);
    Congruent(ShiftUp(ToInt32(x), 32 - n));
    Congruent(WordOp(Or, ToUint32(JsShr(x, n)), ToUint32(JsShl(x, 32 - n))));
  }

  lemma XorAndAgree(x: int, y: int)
    ensures ToUint32(JsXor(x, y)) == WordOp(Xor, ToUint32(x), ToUint32(y))
    ensures ToUint32(JsAnd(x, y)) == WordOp(And, ToUint32(x), ToUint32(y))
  {
    hide WordOp;
    Congruent(WordOp(Xor, ToUint32(x), ToUint32(y)));
    Congruent(WordOp(And, ToUint32(x), ToUint32(y)));
  }

  lemma NotAgrees(x: int)
    ensures ToUint32(JsNot(x)) == Not(ToUint32(x))
  {
    var u := ToUint32(x);
    if ToInt32(x) >= 0 {
      assert JsNot(x) == Not(u) - 0x1_0000_0000;
      WordPeriod(Not(u), -1);
    } else {
      assert JsNot(x) == Not(u);
    }
  }

  lemma Xor3Agrees(x: int, y: int, z: int)
    ensures ToUint32(JsXor3(x, y, z)) == Xor3(ToUint32(x), ToUint32(y), ToUint32(z))
  {
    hide WordOp;
    XorAndAgree(x, y);
    XorAndAgree(JsXor(x, y), z);
  }

  lemma BigSigmasAgree(x: int)
    ensures ToUint32(JsXor3(JsRotr(x, 6), JsRotr(x, 11), JsRotr(x, 25))) == BigSigma1(ToUint32(x))
    ensures ToUint32(JsXor3(JsRotr(x, 2), JsRotr(x, 13), JsRotr(x, 22))) == BigSigma0(ToUint32(x))
  {
    hide WordOp;
    RotrAgrees(x, 6); RotrAgrees(x, 11); RotrAgrees(x, 25);
    RotrAgrees(x, 2); RotrAgrees(x, 13); RotrAgrees(x, 22);
    Xor3Agrees(JsRotr(x, 6), JsRotr(x, 11), JsRotr(x, 25));
    Xor3Agrees(JsRotr(x, 2), JsRotr(x, 13), JsRotr(x, 22));
  }

  lemma SmallSigmasAgree(x: word)
    ensures ToUint32(JsXor3(JsRotr(x, 7), JsRotr(x, 18), JsShr(x, 3))) == SmallSigma0(x)
    ensures ToUint32(JsXor3(JsRotr(x, 17), JsRotr(x, 19), JsShr(x, 10))) == SmallSigma1(x)
  {
    hide WordOp, JsRotr, JsXor3, Xor3, Rotr, ShiftDown;
    assert ToUint32(JsShr(x, 3)) == Shr(3, x) && ToUint32(JsShr(x, 10)) == Shr(10, x);
    RotrAgrees(x, 7); RotrAgrees(x, 18);
    RotrAgrees(x, 17); RotrAgrees(x, 19);
    Xor3Agrees(JsRotr(x, 7), JsRotr(x, 18), JsShr(x, 3));
    Xor3Agrees(JsRotr(x, 17), JsRotr(x, 19), JsShr(x, 10));
  }

  lemma ChAndMajAgree(x: int, y: int, z: int)
    ensures ToUint32(JsXor(JsAnd(x, y), JsAnd(JsNot(x), z))) == Ch(ToUint32(x), ToUint32(y), ToUint32(z))
    ensures ToUint32(JsXor3(JsAnd(x, y), JsAnd(x, z), JsAnd(y, z))) == Maj(ToUint32(x), ToUint32(y), ToUint32(z))
  {
    hide WordOp;
    NotAgrees(x);
    XorAndAgree(x, y); XorAndAgree(x, z); XorAndAgree(y, z); XorAndAgree(JsNot(x), z);
    XorAndAgree(JsAnd(x, y), JsAnd(JsNot(x), z));
    Xor3Agrees(JsAnd(x, y), JsAnd(x, z), JsAnd(y, z));
  }

  /** Sums taken over signed representatives agree modulo 2^32. */
  lemma SumAgrees(a: int, b: int, c: int, d: int, e: int, a': word, b': word, c': word, d': word, e': word)
    requires ToUint32(a) == a' && ToUint32(b) == b' && ToUint32(c) == c' && ToUint32(d) == d' && ToUint32(e) == e'
    ensures ToUint32(ToInt32(a + b + c + d + e)) == ToUint32(a' + b' + c' + d' + e')
  {
    Congruent(a + b + c + d + e);
    SumCongruent(a, b + c + d + e);
    SumCongruent(b, a' + c + d + e);
    SumCongruent(c, a' + b' + d + e);
    SumCongruent(d, a' + b' + c' + e);
    SumCongruent(e, a' + b' + c' + d');
  }

  function Words(a: int, b: int, c: int, d: int, e: int, f: int, g: int, h: int): Vars {
    Vars(ToUint32(a), ToUint32(b), ToUint32(c), ToUint32(d), ToUint32(e), ToUint32(f), ToUint32(g), ToUint32(h))
  }

  function OfArray(s: seq<word>): Vars
    requires |s| == 8
  {
    Vars(s[0], s[1], s[2], s[3], s[4], s[5], s[6], s[7])
  }

  lemma RoundAgrees(v: Vars, a: int, b: int, c: int, d: int, e: int, f: int, g: int, h: int, k: word, w: word,
                    t1: int, t2: int)
    requires v == Words(a, b, c, d, e, f, g, h)
    requires t1 == ToInt32(h + JsXor3(JsRotr(e, 6), JsRotr(e, 11), JsRotr(e, 25))
                           + JsXor(JsAnd(e, f), JsAnd(JsNot(e), g)) + k + w)
    requires t2 == ToInt32(JsXor3(JsRotr(a, 2), JsRotr(a, 13), JsRotr(a, 22))
                           + JsXor3(JsAnd(a, b), JsAnd(a, c), JsAnd(b, c)))
    ensures Words(ToInt32(t1 + t2), a, b, c, ToInt32(d + t1), e, f, g) == Round(v, k, w)
  {
    hide WordOp, JsRotr, JsXor, JsAnd, JsNot, JsXor3, Xor3, Rotr, BigSigma0, BigSigma1, Ch, Maj, ToInt32;
    BigSigmasAgree(e);
    BigSigmasAgree(a);
    ChAndMajAgree(e, f, g);
    ChAndMajAgree(a, b, c);
    SumAgrees(h, JsXor3(JsRotr(e, 6), JsRotr(e, 11), JsRotr(e, 25)), JsXor(JsAnd(e, f), JsAnd(JsNot(e), g)), k, w,
              v.h, BigSigma1(v.e), Ch(v.e, v.f, v.g), k, w);
    SumAgrees(JsXor3(JsRotr(a, 2), JsRotr(a, 13), JsRotr(a, 22)), JsXor3(JsAnd(a, b), JsAnd(a, c), JsAnd(b, c)),
              0, 0, 0,
              BigSigma0(v.a), Maj(v.a, v.b, v.c), 0, 0, 0);
    SumAgrees(t1, t2, 0, 0, 0, ToUint32(t1), ToUint32(t2), 0, 0, 0);
    SumAgrees(d, t1, 0, 0, 0, v.d, ToUint32(t1), 0, 0, 0);
  }

  // ---------------------------------------------------------------- the streaming state

  /** The bytes of m that wait for the rest of their block. */
  ghost function Tail(m: seq<byte>): (r: seq<byte>)
    ensures |r| == |m| % 64
  {
    m[|m| - |m| % 64..]
  }

  /** Chaining value after the whole blocks of m. */
  ghost function Absorbed(m: seq<byte>): Vars {
    Blocks(m[..|m| - |m| % 64])
  }

  lemma AbsorbShort(m: seq<byte>, x: seq<byte>)
    requires |Tail(m)| + |x| < 64
    ensures Absorbed(m + x) == Absorbed(m)
    ensures Tail(m + x) == Tail(m) + x
  {
    hide Blocks;
    var k := |m| - |m| % 64;
    assert |m + x| - |m + x| % 64 == k;
    assert (m + x)[..k] == m[..k];
    assert (m + x)[k..] == m[k..] + x;
  }

  lemma AbsorbBlock(m: seq<byte>, x: seq<byte>)
    requires |Tail(m)| + |x| == 64
    ensures Absorbed(m + x) == Compress(Absorbed(m), Tail(m) + x)
    ensures Tail(m + x) == []
  {
    hide Compress;
    var whole, last := m[..|m| - |m| % 64], Tail(m) + x;
    assert m + x == whole + last;
    assert (m + x)[..|m + x|] == m + x;
    assert (whole + last)[..|whole|] == whole && (whole + last)[|whole|..] == last;
  }

  class Hasher {
    const H: array<word>
    const w: array<word>
    const buffer: array<byte>
    var bufferLen: nat
    var totalLen: nat
    ghost var message: seq<byte>   // everything passed to Update so far

    ghost predicate Shape()
      reads this
    {
      && H.Length == 8 && w.Length == 64 && buffer.Length == 64
      && H != w
    }

    /** Buffer and chaining value are those of m. */
    ghost predicate Describes(m: seq<byte>)
      reads this, H, buffer
    {
      Shape() && bufferLen == |m| % 64 && buffer[..bufferLen] == Tail(m) && OfArray(H[..]) == Absorbed(m)
    }

    ghost predicate Valid()
      reads this, H, buffer
    {
      totalLen == |message| && Describes(message)
    }

    constructor ()
      ensures Valid() && message == []
      ensures fresh(H) && fresh(w) && fresh(buffer)
    {
      H := new word[][0x6a09e667, 0xbb67ae85, 0x3c6ef372, 0xa54ff53a, 0x510e527f, 0x9b05688c, 0x1f83d9ab, 0x5be0cd19];
      w := new word[64](i => 0);
      buffer := new byte[64](i => 0);
      bufferLen, totalLen, message := 0, 0, [];
      new;
      assert OfArray(H[..]) == H0;
    }

    method LoadSchedule(block: seq<byte>)
      requires Shape() && |block| == 64
      modifies w
      ensures forall t | 0 <= t < 64 :: w[t] == Schedule(block, t)
    {
      hide WordOp, JsOr, JsShl, JsXor3, JsRotr, JsShr, ToInt32, ToUint32, SmallSigma0, SmallSigma1;
      for i := 0 to 16
        invariant forall t | 0 <= t < i :: w[t] == Schedule(block, t)
      {
        var j := i * 4;
        BigEndianWord(block[j], block[j + 1], block[j + 2], block[j + 3]);
        w[i] := ToUint32(JsOr(JsOr(JsOr(JsShl(block[j], 24), JsShl(block[j + 1], 16)), JsShl(block[j + 2], 8)),
                              block[j + 3]));
      }
      for i := 16 to 64
        invariant forall t | 0 <= t < i :: w[t] == Schedule(block, t)
      {
        var s0 := ToInt32(JsXor3(JsRotr(w[i - 15], 7), JsRotr(w[i - 15], 18), JsShr(w[i - 15], 3)));
        var s1 := ToInt32(JsXor3(JsRotr(w[i - 2], 17), JsRotr(w[i - 2], 19), JsShr(w[i - 2], 10)));
        ScheduleAgrees(block, i, w[i - 16], w[i - 15], w[i - 7], w[i - 2], s0, s1);
        w[i] := ToUint32(ToInt32(w[i - 16] + s0 + w[i - 7] + s1));
      }
    }

    method CompressBlock(block: seq<byte>)
      requires Shape() && |block| == 64
      modifies H, w
      ensures OfArray(H[..]) == Compress(old(OfArray(H[..])), block)
    {
      hide WordOp, JsXor, JsAnd, JsNot, JsXor3, JsRotr, JsShr, ToInt32, Round, Schedule, Blocks, AddVars;
      ghost var start := OfArray(H[..]);
      LoadSchedule(block);
      var a, b, c, d, e, f, g, h := H[0], H[1], H[2], H[3], H[4], H[5], H[6], H[7];
      for i := 0 to 64
        invariant Words(a, b, c, d, e, f, g, h) == Rounds(start, block, i)
        invariant OfArray(H[..]) == start
        invariant forall t | 0 <= t < 64 :: w[t] == Schedule(block, t)
      {
        var S1 := JsXor3(JsRotr(e, 6), JsRotr(e, 11), JsRotr(e, 25));
        var ch := JsXor(JsAnd(e, f), JsAnd(JsNot(e), g));
        var t1 := ToInt32(h + S1 + ch + K(i) + w[i]);
        var S0 := JsXor3(JsRotr(a, 2), JsRotr(a, 13), JsRotr(a, 22));
        var maj := JsXor3(JsAnd(a, b), JsAnd(a, c), JsAnd(b, c));
        var t2 := ToInt32(S0 + maj);
        RoundAgrees(Words(a, b, c, d, e, f, g, h), a, b, c, d, e, f, g, h, K(i), w[i], t1, t2);
        h, g, f, e, d, c, b, a := g, f, e, ToInt32(d + t1), c, b, a, ToInt32(t1 + t2);
      }
      AddWords(a, b, c, d, e, f, g, h);
    }

    /** The end of a block: each word is stored as H[i] = (H[i] + x) | 0. */
    method AddWords(a: int, b: int, c: int, d: int, e: int, f: int, g: int, h: int)
      requires Shape()
      modifies H
      ensures OfArray(H[..]) == AddVars(old(OfArray(H[..])), Words(a, b, c, d, e, f, g, h))
    {
      hide ToInt32, ToUint32;
      H[0], H[1], H[2], H[3] := Plus(H[0], a), Plus(H[1], b), Plus(H[2], c), Plus(H[3], d);
      H[4], H[5], H[6], H[7] := Plus(H[4], e), Plus(H[5], f), Plus(H[6], g), Plus(H[7], h);
    }

    method Update(data: seq<byte>)
      requires Valid()
      modifies this, H, w, buffer
      ensures Valid() && message == old(message) + data
    {
      hide Tail, Absorbed, Compress;
      totalLen := totalLen + |data|;
      var i := 0;
      if bufferLen > 0 {
        i := TopUp(data);
      } else {
        assert message + data[..0] == message;
      }
      i := WholeBlocks(data, i);
      assert message + data[..i] + data[i..] == message + data;
      if i < |data| {
        AbsorbShort(message + data[..i], data[i..]);
        Set(buffer, data[i..], 0);
        bufferLen := |data| - i;
        assert buffer[..bufferLen] == Tail(message + data[..i]) + data[i..];
      } else {
        assert message + data[..i] == message + data;
      }
      message := message + data;
    }

    /** The loop of update: blocks taken straight from the data. */
    method WholeBlocks(data: seq<byte>, from: nat) returns (i: nat)
      requires from <= |data| && Describes(message + data[..from])
      requires bufferLen == 0 || from == |data|
      modifies H, w
      ensures from <= i <= |data| && Describes(message + data[..i])
      ensures i == |data| || (bufferLen == 0 && i + 64 > |data|)
    {
      hide Tail, Absorbed, Compress;
      i := from;
      while i + 64 <= |data|
        invariant from <= i <= |data| && (bufferLen == 0 || i == |data|)
        invariant Describes(message + data[..i])
      {
        var done, block := message + data[..i], data[i..i + 64];
        AbsorbBlock(done, block);
        assert done + block == message + data[..i + 64];
        assert Tail(done) + block == block;
        CompressBlock(block);
        i := i + 64;
      }
    }

    /** The first branch of update: fill the partial block, compress it when it is full. */
    method TopUp(data: seq<byte>) returns (i: nat)
      requires Describes(message) && bufferLen > 0
      modifies `bufferLen, H, w, buffer
      ensures i <= |data| && (bufferLen == 0 || i == |data|)
      ensures Describes(message + data[..i])
    {
      var take := if 64 - bufferLen < |data| then 64 - bufferLen else |data|;
      Set(buffer, data[..take], bufferLen);
      assert buffer[..bufferLen + take] == Tail(message) + data[..take];
      bufferLen := bufferLen + take;
      i := take;
      if bufferLen == 64 {
        AbsorbBlock(message, data[..take]);
        assert buffer[..] == buffer[..64];
        CompressBlock(buffer[..]);
        bufferLen := 0;
      } else {
        AbsorbShort(message, data[..take]);
      }
    }

    /** The FIPS 180-4 hash of everything passed to Update, in hexadecimal; the state is spent afterwards.
        Byte counts below 2^53 are the ones a double holds exactly. */
    method Digest() returns (hex: string)
      requires Valid() && totalLen < 0x20_0000_0000_0000
      modifies this, H, w, buffer
      ensures hex == HexOf(Hash(old(message)))
    {
      hide Compress, Hash, HexOf, I2osp, Absorbed, OfArray;
      var bitLenLo := ToUint32(JsShl(totalLen, 3));
      var bitLenHi := ToUint32(totalLen / 0x2000_0000);
      LengthWords(totalLen);
      LastBlocks(message);
      ghost var tail := Tail(message);
      assert buffer[..bufferLen] == tail;
      buffer[bufferLen] := 0x80;
      bufferLen := bufferLen + 1;
      assert buffer[..bufferLen] == tail + [0x80];
      if bufferLen > 56 {
        FillZero(buffer, bufferLen, 64);
        assert buffer[..] == tail + [0x80] + Zeros(64 - bufferLen);
        CompressBlock(buffer[..]);
        bufferLen := 0;
      }
      ghost var start := buffer[..bufferLen];
      StoreLength(bitLenHi, bitLenLo);
      assert start == [] ==> buffer[..] == Zeros(56) + I2osp(8 * totalLen, 8);
      CompressBlock(buffer[..]);
      hex := ReadHex();
    }

    /** The end of the last block: zeros, then the two words of the length. */
    method StoreLength(high: word, low: word)
      requires Shape() && bufferLen <= 56 && I2osp(8 * totalLen, 8) == I2osp(high, 4) + I2osp(low, 4)
      modifies buffer
      ensures buffer[..] == old(buffer[..bufferLen]) + Zeros(56 - bufferLen) + I2osp(8 * totalLen, 8)
    {
      hide I2osp;
      ghost var start := buffer[..bufferLen];
      FillZero(buffer, bufferLen, 56);
      assert buffer[..56] == start + Zeros(56 - bufferLen);
      StoreWord(56, high);
      StoreWord(60, low);
    }

    method ReadHex() returns (hex: string)
      requires Shape()
      ensures hex == HexOf(OfArray(H[..]))
    {
      hide Digits16, ToString16, PadStart;
      hex := "";
      for i := 0 to 8
        invariant hex == HexWords(H[..i])
      {
        HexAgrees(H[i]);
        assert H[..i + 1] == H[..i] + [H[i]];
        hex := hex + PadStart(ToString16(H[i]), 8);
      }
      ghost var v := OfArray(H[..]);
      assert H[..8] == [v.a, v.b, v.c, v.d, v.e, v.f, v.g, v.h];
    }

    /** Four byte stores of one word, as >>> and & 0xff. */
    method StoreWord(at: nat, x: word)
      requires Shape() && at + 4 <= 64
      modifies buffer
      ensures buffer[..] == old(buffer[..at]) + I2osp(x, 4) + old(buffer[at + 4..])
    {
      ShiftsAreBytes(x);
      WordOctets(x);
      hide JsAnd, JsShr, I2osp;
      buffer[at] := JsShr(x, 24);
      buffer[at + 1] := JsAnd(JsShr(x, 16), 0xff);
      buffer[at + 2] := JsAnd(JsShr(x, 8), 0xff);
      buffer[at + 3] := JsAnd(x, 0xff);
    }
  }

  lemma ShiftsAreBytes(x: word)
    ensures JsShr(x, 24) == x / 0x100_0000 && JsAnd(JsShr(x, 16), 0xff) == x / 0x1_0000 % 256
    ensures JsAnd(JsShr(x, 8), 0xff) == x / 0x100 % 256 && JsAnd(x, 0xff) == x % 256
  {
    hide *;
    WordShifts(x);
    LowOctet(JsShr(x, 16));
    LowOctet(JsShr(x, 8));
    LowOctet(x);
  }

  lemma LowOctet(x: word)
    ensures JsAnd(x, 0xff) == x % 256
  {
    hide JsAnd;
    AndByte(x);
  }

  lemma WordShifts(x: word)
    ensures JsShr(x, 24) == x / 0x100_0000 && JsShr(x, 16) == x / 0x1_0000 && JsShr(x, 8) == x / 0x100
  {
    hide ShiftDown;
    ByteShifts(x);
  }

  lemma WordOctets(x: word)
    ensures I2osp(x, 4) == [x / 0x100_0000, x / 0x1_0000 % 256, x / 0x100 % 256, x % 256]
  {
    hide I2osp;
    Octets4(x);
  }

  // ---------------------------------------------------------------- padding

  lemma TimesEight(length: nat)
    ensures ToUint32(JsShl(length, 3)) == ToUint32(8 * length)
  {
    ShiftUpCongruent(length, 3);
    Congruent(ShiftUp(ToInt32(length), 3));
    var low: nat, high := ToUint32(length), length / 0x1_0000_0000;
    assert ShiftUp(low, 3) == 2 * ShiftUp(low, 2) == 4 * ShiftUp(low, 1);
    assert ShiftUp(low, 1) == 2 * ShiftUp(low, 0) == 2 * low;
    assert 8 * length == 8 * low + 0x1_0000_0000 * (8 * high);
    WordPeriod(8 * low, 8 * high);
  }

  /** The two halves of the bit length, taken from the byte count alone. */
  lemma LengthWords(length: nat)
    requires length < 0x20_0000_0000_0000
    ensures I2osp(8 * length, 8) == I2osp(ToUint32(length / 0x2000_0000), 4) + I2osp(ToUint32(JsShl(length, 3)), 4)
  {
    hide I2osp, JsShl;
    TimesEight(length);
    Octets8(8 * length);
    var q, r := length / 0x2000_0000, length % 0x2000_0000;
    assert 8 * length == 0x1_0000_0000 * q + 8 * r;
    assert 8 * length / 0x1_0000_0000 == q;
  }

  /** The padded message ends in one block, or in two when fewer than nine bytes are free. */
  lemma LastBlocks(m: seq<byte>)
    requires |m| < 0x2000_0000_0000_0000
    ensures |Tail(m)| <= 55 ==>
      Hash(m) == Compress(Absorbed(m), Tail(m) + [0x80] + Zeros(55 - |Tail(m)|) + I2osp(8 * |m|, 8))
    ensures |Tail(m)| > 55 ==>
      Hash(m) == Compress(Compress(Absorbed(m), Tail(m) + [0x80] + Zeros(63 - |Tail(m)|)),
        Zeros(56) + I2osp(8 * |m|, 8))
  {
    hide Compress, I2osp;
    var t, field := |Tail(m)|, I2osp(8 * |m|, 8);
    var p := m + Padding(|m|);
    assert p[..|p|] == p;
    assert PadFits(|m|, PadZeros(|m|));
    if t <= 55 {
      var rest := [0x80] + Zeros(55 - t) + field;
      assert Padding(|m|) == rest;
      AbsorbBlock(m, rest);
      assert Tail(m) + rest == Tail(m) + [0x80] + Zeros(55 - t) + field;
    } else {
      var first, second := [0x80] + Zeros(63 - t), Zeros(56) + field;
      assert Padding(|m|) == first + second;
      assert p == m + first + second;
      AbsorbBlock(m, first);
      AbsorbBlock(m + first, second);
      assert Tail(m) + first == Tail(m) + [0x80] + Zeros(63 - t);
      assert Tail(m + first) + second == second;
    }
  }

  // ---------------------------------------------------------------- hexadecimal output

  const DIGITS := "0123456789abcdef"

  /** x.toString(16): no leading zeros. */
  function ToString16(x: nat): (r: string)
    ensures |r| > 0
  {
    if x < 16 then [DIGITS[x]] else ToString16(x / 16) + [DIGITS[x % 16]]
  }

  /** s.padStart(n, '0') */
  function PadStart(s: string, n: nat): string {
    if |s| >= n then s else seq(n - |s|, i => '0') + s
  }

  /** The n lowest hexadecimal digits of x. */
  function Digits16(x: nat, n: nat): (r: string)
    ensures |r| == n
  {
    if n == 0 then "" else Digits16(x / 16, n - 1) + [DIGITS[x % 16]]
  }

  function Pow16(n: nat): nat {
    if n == 0 then 1 else 16 * Pow16(n - 1)
  }

  lemma {:induction false} PaddedDigits(x: nat, n: nat)
    requires 0 < n && x < Pow16(n)
    ensures PadStart(ToString16(x), n) == Digits16(x, n)
  {
    var last := [DIGITS[x % 16]];
    if n == 1 {
      assert Pow16(0) == 1;
      assert Digits16(x, 1) == Digits16(x / 16, 0) + last == last;
    } else {
      PaddedDigits(x / 16, n - 1);
      if x < 16 {
        assert PadStart(['0'], n - 1) + last == PadStart(last, n);
      } else {
        PadStartAppend(ToString16(x / 16), last, n - 1);
      }
    }
  }

  lemma PadStartAppend(s: string, last: string, n: nat)
    requires |last| == 1
    ensures PadStart(s + last, n + 1) == PadStart(s, n) + last
  {
  }

  /** Two digits for each octet. */
  function HexOctets(b: seq<byte>): string {
    if b == [] then "" else HexOctets(b[..|b| - 1]) + [DIGITS[b[|b| - 1] / 16], DIGITS[b[|b| - 1] % 16]]
  }

  lemma {:induction false} DigitsOfOctets(x: nat, n: nat)
    ensures Digits16(x, 2 * n) == HexOctets(I2osp(x, n))
  {
    if n > 0 {
      DigitsOfOctets(x / 256, n - 1);
      NibblesOfByte(x);
      assert I2osp(x, n)[..n - 1] == I2osp(x / 256, n - 1);
      assert Digits16(x, 2 * n) == Digits16(x / 16 / 16, 2 * n - 2) + [DIGITS[x / 16 % 16]] + [DIGITS[x % 16]];
    }
  }

  lemma NibblesOfByte(x: nat)
    ensures x / 16 / 16 == x / 256 && x % 256 / 16 == x / 16 % 16 && x % 256 % 16 == x % 16
  {
  }

  /** A printed and padded word is two digits for each of its four octets. */
  lemma HexAgrees(x: word)
    ensures PadStart(ToString16(x), 8) == Digits16(x, 8) == HexOctets(I2osp(x, 4))
  {
    assert Pow16(8) == 0x1_0000_0000;
    PaddedDigits(x, 8);
    DigitsOfOctets(x, 4);
  }

  /** A hash value as 64 hexadecimal digits, most significant first. */
  function HexOf(v: Vars): string {
    HexWords([v.a, v.b, v.c, v.d, v.e, v.f, v.g, v.h])
  }

  function HexWords(words: seq<word>): string {
    if words == [] then "" else HexWords(words[..|words| - 1]) + Digits16(words[|words| - 1], 8)
  }

  /** The store H[i] = (H[i] + x) | 0 into a Uint32Array. */
  function Plus(x: word, y: int): (r: word)
    ensures r == ToUint32(x + ToUint32(y))
  {
    ToUint32(ToInt32(x + y))
  }

  lemma ScheduleAgrees(block: seq<byte>, t: nat, w16: word, w15: word, w7: word, w2: word, s0: int, s1: int)
    requires |block| == 64 && 16 <= t < 64
    requires w16 == Schedule(block, t - 16) && w15 == Schedule(block, t - 15)
    requires w7 == Schedule(block, t - 7) && w2 == Schedule(block, t - 2)
    requires s0 == ToInt32(JsXor3(JsRotr(w15, 7), JsRotr(w15, 18), JsShr(w15, 3)))
    requires s1 == ToInt32(JsXor3(JsRotr(w2, 17), JsRotr(w2, 19), JsShr(w2, 10)))
    ensures ToUint32(ToInt32(w16 + s0 + w7 + s1)) == Schedule(block, t)
  {
    hide JsXor3, JsRotr, SmallSigma0, SmallSigma1, JsShr, ToInt32, WordOp, BlockWord;
    SmallSigmasAgree(w15);
    SmallSigmasAgree(w2);
    Congruent(JsXor3(JsRotr(w15, 7), JsRotr(w15, 18), JsShr(w15, 3)));
    Congruent(JsXor3(JsRotr(w2, 17), JsRotr(w2, 19), JsShr(w2, 10)));
    SumAgrees(w16, s0, w7, s1, 0, w16, SmallSigma0(w15), w7, SmallSigma1(w2), 0);
  }

  /** hashFileIncremental: slices of chunkSize bytes, in order, through one hasher. */
  method HashFileIncremental(file: seq<byte>, chunkSize: nat) returns (hex: string)
    requires chunkSize > 0 && |file| < 0x20_0000_0000_0000
    ensures hex == HexOf(Hash(file))
  {
    hide HexOf, Hash, Tail, Absorbed, OfArray;
    var hasher := new Hasher();
    var offset := 0;
    while offset < |file|
      invariant offset <= |file|
      invariant hasher.Valid() && hasher.message == file[..offset]
      invariant fresh(hasher) && fresh(hasher.H) && fresh(hasher.w) && fresh(hasher.buffer)
    {
      var end := if offset + chunkSize < |file| then offset + chunkSize else |file|;
      hasher.Update(file[offset..end]);
      assert file[..offset] + file[offset..end] == file[..end];
      offset := end;
    }
    assert file[..offset] == file;
    hex := hasher.Digest();
  }
}
