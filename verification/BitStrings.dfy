/** Bit strings, most significant bit first, and the descriptors of section 7.2 and 9.1 of ITU-T H.264. */
module BitStrings {
  import opened JsNumbers

  type bits = seq<bool>

  // ---------------------------------------------------------------- numbers and bits

  function Bit(b: bool): nat { if b then 1 else 0 }

  /** The n-bit unsigned representation of v, u(n). */
  function UBits(v: nat, n: nat): (r: bits)
    ensures |r| == n
  {
    if n == 0 then [] else UBits(v / 2, n - 1) + [v % 2 == 1]
  }

  function Value(s: bits): (v: nat)
    ensures v < Pow2(|s|)
  {
    if s == [] then 0 else 2 * Value(s[..|s| - 1]) + Bit(s[|s| - 1])
  }

  lemma {:induction false} ValueOfUBits(v: nat, n: nat)
    requires v < Pow2(n)
    ensures Value(UBits(v, n)) == v
  {
    if n > 0 {
      ValueOfUBits(v / 2, n - 1);
      assert UBits(v, n)[..n - 1] == UBits(v / 2, n - 1);
    }
  }

  lemma {:induction false} UBitsOfValue(s: bits)
    ensures UBits(Value(s), |s|) == s
  {
    if s != [] {
      var front, last := s[..|s| - 1], s[|s| - 1];
      UBitsOfValue(front);
      assert s == front + [last];
      assert Value(s) / 2 == Value(front) && Value(s) % 2 == Bit(last);
    }
  }

  /** Number of leading zero bits of the Exp-Golomb code of v: the integer part of log2(v + 1). */
  function ZerosOf(v: nat): nat {
    if v == 0 then 0 else 1 + ZerosOf((v - 1) / 2)
  }

  lemma {:induction false} ZerosRange(v: nat)
    ensures Pow2(ZerosOf(v)) <= v + 1 < 2 * Pow2(ZerosOf(v))
  {
    if v > 0 { ZerosRange((v - 1) / 2); }
  }

  lemma {:induction false} ZerosUnique(v: nat, k: nat)
    requires Pow2(k) <= v + 1 < 2 * Pow2(k)
    ensures ZerosOf(v) == k
  {
    if k > 0 {
      assert v > 0;
      ZerosUnique((v - 1) / 2, k - 1);
    }
  }

  function Zeros(n: nat): (r: bits)
    ensures |r| == n
  {
    seq(n, i => false)
  }

  /** ue(v): k zeros, a one, and the k low bits of v + 1 - 2^k. */
  function UeBits(v: nat): bits {
    ZerosRange(v);
    Zeros(ZerosOf(v)) + [true] + UBits(v + 1 - Pow2(ZerosOf(v)), ZerosOf(v))
  }

  function UeList(vs: seq<nat>): bits {
    if vs == [] then [] else UeBits(vs[0]) + UeList(vs[1..])
  }

  // ---------------------------------------------------------------- bytes and bits

  function ByteBits(b: byte): (r: bits)
    ensures |r| == 8
  {
    UBits(b, 8)
  }

  function BitsOf(bytes: seq<byte>): (r: bits)
    ensures |r| == 8 * |bytes|
  {
    if bytes == [] then [] else ByteBits(bytes[0]) + BitsOf(bytes[1..])
  }

  /** Bytes of a bit string whose length is a multiple of eight. */
  function Pack(s: bits): (r: seq<byte>)
    requires |s| % 8 == 0
    ensures 8 * |r| == |s|
  {
    if s == [] then []
    else
      assert Pow2(8) == 256 by { Pow2Of32(); }
      [Value(s[..8])] + Pack(s[8..])
  }

  lemma {:induction false} BitsOfPack(s: bits)
    requires |s| % 8 == 0
    ensures BitsOf(Pack(s)) == s
  {
    if s != [] {
      BitsOfPack(s[8..]);
      UBitsOfValue(s[..8]);
      assert s == s[..8] + s[8..];
    }
  }

  lemma {:induction false} BitAt(bytes: seq<byte>, p: nat)
    requires p < 8 * |bytes|
    ensures BitsOf(bytes)[p] == ByteBits(bytes[p / 8])[p % 8]
  {
    if p >= 8 {
      BitAt(bytes[1..], p - 8);
    }
  }

  /** Bit k of a number written in n bits, by shifting it down. */
  lemma {:induction false} BitByShift(v: nat, n: nat, k: nat)
    requires k < n
    ensures UBits(v, n)[k] == (ShiftDown(v, n - 1 - k) % 2 == 1)
  {
    if k < n - 1 {
      BitByShift(v / 2, n - 1, k);
    }
  }

  // ---------------------------------------------------------------- reading at a position

  /** The word w stands at position p of s. */
  predicate StandsAt(s: bits, p: nat, w: bits) {
    p + |w| <= |s| && s[p..p + |w|] == w
  }

  lemma StandsConcat(s: bits, p: nat, v: bits, w: bits)
    ensures StandsAt(s, p, v + w) <==> StandsAt(s, p, v) && StandsAt(s, p + |v|, w)
  {
    if p + |v| + |w| <= |s| {
      var x := s[p..p + |v| + |w|];
      assert x[..|v|] == s[p..p + |v|] && x[|v|..] == s[p + |v|..p + |v| + |w|];
      assert x == x[..|v|] + x[|v|..];
      assert (v + w)[..|v|] == v && (v + w)[|v|..] == w;
    }
  }

  /** The outcome of a read: out of bits or malformed, or a value and the next position. */
  datatype Parse<+T> = Fail | Done(value: T, pos: nat) {
    predicate IsFailure() { Fail? }
    function PropagateFailure<U>(): Parse<U> requires Fail? { Fail }
    function Extract(): (T, nat) requires Done? { (value, pos) }
  }

  function ReadU(s: bits, p: nat, n: nat): Parse<nat> {
    if p + n > |s| then Fail else Done(Value(s[p..p + n]), p + n)
  }

  /** The loop of ue(v), after `zeros` zero bits. */
  function ReadUeFrom(s: bits, p: nat, zeros: nat): Parse<nat>
    decreases |s| - p
  {
    if p >= |s| then Fail
    else if s[p] then
      var (low, q) :- ReadU(s, p + 1, zeros);
      Done(Pow2(zeros) - 1 + low, q)
    else if zeros + 1 > 30 then Fail
    else ReadUeFrom(s, p + 1, zeros + 1)
  }

  function ReadUe(s: bits, p: nat): Parse<nat> {
    ReadUeFrom(s, p, 0)
  }

  lemma ReadUExact(s: bits, p: nat, n: nat, v: nat)
    requires v < Pow2(n)
    ensures ReadU(s, p, n) == Done(v, p + n) <==> StandsAt(s, p, UBits(v, n))
  {
    ValueOfUBits(v, n);
    if p + n <= |s| { UBitsOfValue(s[p..p + n]); }
  }

  function ReadFlag(s: bits, p: nat): Parse<bool> {
    var (v, q) :- ReadU(s, p, 1);
    Done(v == 1, q)
  }

  lemma ReadFlagExact(s: bits, p: nat, b: bool)
    ensures ReadFlag(s, p) == Done(b, p + 1) <==> StandsAt(s, p, [b])
  {
    ReadUExact(s, p, 1, Bit(b));
    assert UBits(Bit(b), 1) == UBits(Bit(b) / 2, 0) + [b];
    assert Pow2(1) == 2;
  }

  /** After its zeros, the code of v is a one and its low bits. */
  lemma CodeAfterZeros(v: nat)
    requires Pow2(ZerosOf(v)) <= v + 1
    ensures UeBits(v)[ZerosOf(v)..] == [true] + UBits(v + 1 - Pow2(ZerosOf(v)), ZerosOf(v))
  {
    hide UBits, Pow2;
  }

  /** At the one bit that ends the zeros, the code is v's exactly when v has this many zeros and its low bits follow. */
  lemma ReadUeEndExact(s: bits, p: nat, zeros: nat, v: nat, q: nat)
    requires p < |s| && s[p]
    ensures ReadUeFrom(s, p, zeros) == Done(v, q) <==>
      zeros == ZerosOf(v) && q == p + 1 + zeros && StandsAt(s, p, UeBits(v)[zeros..])
  {
    hide *;
    if zeros == ZerosOf(v) {
      LowBitsFollow(s, p, v, q);
    } else if ReadUeFrom(s, p, zeros) == Done(v, q) {
      ReadUeEnd(s, p, zeros);
      ZerosUnique(v, zeros);
    }
  }

  lemma LowBitsFollow(s: bits, p: nat, v: nat, q: nat)
    requires p < |s| && s[p]
    ensures ReadUeFrom(s, p, ZerosOf(v)) == Done(v, q) <==>
      q == p + 1 + ZerosOf(v) && StandsAt(s, p, UeBits(v)[ZerosOf(v)..])
  {
    hide *;
    var zeros := ZerosOf(v);
    ZerosRange(v);
    ReadUeEnd(s, p, zeros);
    EndStands(s, p, v);
    ReadUExact(s, p + 1, zeros, v + 1 - Pow2(zeros));
  }

  lemma ReadUeEnd(s: bits, p: nat, zeros: nat)
    requires p < |s| && s[p]
    ensures var r := ReadU(s, p + 1, zeros);
      ReadUeFrom(s, p, zeros) == if r.Fail? then Fail else Done(Pow2(zeros) - 1 + r.value, r.pos)
    ensures var r := ReadU(s, p + 1, zeros);
      r.Done? ==> r.value < Pow2(zeros) && r.pos == p + 1 + zeros
  {
    hide Value, Pow2;
  }

  lemma EndStands(s: bits, p: nat, v: nat)
    requires p < |s| && s[p] && Pow2(ZerosOf(v)) <= v + 1
    ensures StandsAt(s, p, UeBits(v)[ZerosOf(v)..]) <==>
      StandsAt(s, p + 1, UBits(v + 1 - Pow2(ZerosOf(v)), ZerosOf(v)))
  {
    OneStands(s, p);
    hide UBits, Pow2, UeBits, ZerosOf;
    CodeAfterZeros(v);
    StandsConcat(s, p, [true], UBits(v + 1 - Pow2(ZerosOf(v)), ZerosOf(v)));
  }

  lemma OneStands(s: bits, p: nat)
    requires p < |s| && s[p]
    ensures StandsAt(s, p, [true])
  {
  }

  /** The loop of ue(v) after some zeros accepts exactly the rest of a code with at most 30 zeros. */
  lemma {:induction false} ReadUeFromExact(s: bits, p: nat, zeros: nat, v: nat, q: nat)
    requires zeros <= 30
    ensures ReadUeFrom(s, p, zeros) == Done(v, q) <==>
      zeros <= ZerosOf(v) <= 30 && q == p + |UeBits(v)| - zeros && StandsAt(s, p, UeBits(v)[zeros..])
    decreases |s| - p
  {
    hide UBits, Value, Pow2;
    var k := ZerosOf(v);
    if p < |s| && s[p] {
      ReadUeEndExact(s, p, zeros, v, q);
      if zeros < k { assert !UeBits(v)[zeros..][0]; }
    } else if p < |s| {
      if zeros < 30 { ReadUeFromExact(s, p + 1, zeros + 1, v, q); }
      if zeros < k {
        assert UeBits(v)[zeros..] == [false] + UeBits(v)[zeros + 1..];
        StandsConcat(s, p, [false], UeBits(v)[zeros + 1..]);
      } else if zeros == k {
        assert UeBits(v)[zeros..][0];
      }
    } else {
      assert zeros <= k ==> |UeBits(v)[zeros..]| > 0;
    }
  }

  lemma ReadUeExact(s: bits, p: nat, v: nat, q: nat)
    ensures ReadUe(s, p) == Done(v, q) <==> v < 0x7fff_ffff && q == p + |UeBits(v)| && StandsAt(s, p, UeBits(v))
  {
    ReadUeFromExact(s, p, 0, v, q);
    assert UeBits(v)[0..] == UeBits(v);
    ZerosRange(v);
    Pow2Of32();
    assert Pow2(32) == 2 * Pow2(31);
    if ZerosOf(v) <= 30 { Pow2Monotone(ZerosOf(v), 30); } else { Pow2Monotone(31, ZerosOf(v)); }
  }

  function ReadUeList(s: bits, p: nat, count: nat): Parse<seq<nat>>
    decreases count
  {
    if count == 0 then Done([], p)
    else
      var (v, q) :- ReadUe(s, p);
      var (vs, q') :- ReadUeList(s, q, count - 1);
      Done([v] + vs, q')
  }

  predicate CodeNumbers(vs: seq<nat>) {
    forall i | 0 <= i < |vs| :: vs[i] < 0x7fff_ffff
  }

  lemma {:induction false} ReadUeListExact(s: bits, p: nat, vs: seq<nat>, q: nat)
    requires p <= |s|
    ensures ReadUeList(s, p, |vs|) == Done(vs, q) <==>
      CodeNumbers(vs) && q == p + |UeList(vs)| && StandsAt(s, p, UeList(vs))
    decreases |vs|
  {
    if vs != [] {
      var r, p1, rest := ReadUe(s, p), p + |UeBits(vs[0])|, vs[1..];
      ReadUeExact(s, p, vs[0], p1);
      if r.Done? && r.value == vs[0] { ReadUeExact(s, p, vs[0], r.pos); }
      StandsConcat(s, p, UeBits(vs[0]), UeList(rest));
      assert vs == [vs[0]] + rest;
      assert forall i | 0 < i < |vs| :: vs[i] == rest[i - 1];
      assert CodeNumbers(vs) <==> vs[0] < 0x7fff_ffff && CodeNumbers(rest);
      if p1 <= |s| {
        ReadUeListExact(s, p1, rest, q);
      }
      if ReadUeList(s, p, |vs|) == Done(vs, q) {
        assert ReadUeList(s, r.pos, |rest|).value == vs[1..];
      }
    }
  }

  lemma {:induction false} Pow2Monotone(m: nat, n: nat)
    requires m <= n
    ensures Pow2(m) <= Pow2(n)
  {
    if m < n { Pow2Monotone(m, n - 1); }
  }
}
