/** The signer that stands in for crypto.subtle: modular power, fixed-length integers, padding. */
module RsaSigner {
  import opened JsNumbers
  import opened ModularArithmetic
  import opened Octets
  import opened Wrappers
  import opened TypedArrays

  // ---------------------------------------------------------------- modular power

  function Pow(b: nat, e: nat): nat {
    if e == 0 then 1 else b * Pow(b, e - 1)
  }

  lemma {:induction false} PowSquare(b: nat, e: nat)
    ensures Pow(b * b, e) == Pow(b, 2 * e)
  {
    if e > 0 {
      PowSquare(b, e - 1);
      var p := Pow(b, 2 * (e - 1));
      assert Pow(b, 2 * e) == b * Pow(b, 2 * e - 1) == b * (b * p);
      assert b * (b * p) == b * b * p;
    }
  }

  lemma {:induction false} PowMod(b: nat, e: nat, m: nat)
    requires m > 0
    ensures Pow(b % m, e) % m == Pow(b, e) % m
  {
    if e > 0 {
      var p, p' := Pow(b, e - 1), Pow(b % m, e - 1);
      PowMod(b, e - 1, m);
      MulMod(b, p', m);
      MulModRight(b, p', p, m);
    }
  }

  lemma MulModRight(a: nat, p: nat, q: nat, m: nat)
    requires m > 0 && p % m == q % m
    ensures (a * p) % m == (a * q) % m
  {
    MulMod(p, a, m);
    MulMod(q, a, m);
    assert a * p == p * a && a * q == q * a;
  }

  /** What the loop keeps: res * base^exp modulo m. */
  ghost function Residue(res: nat, base: nat, exp: nat, m: nat): nat
    requires m > 0
  {
    (res * Pow(base, exp)) % m
  }

  /** One turn of the loop keeps res * base^exp modulo m. */
  lemma HalvingStep(res: nat, base: nat, exp: nat, m: nat)
    requires m > 0 && exp > 0
    ensures var res' := if exp % 2 == 1 then (res * base) % m else res;
      Residue(res', (base * base) % m, exp / 2, m) == Residue(res, base, exp, m)
  {
    var half := exp / 2;
    var p, reduced := Pow(base, 2 * half), Pow((base * base) % m, half);
    PowSquare(base, half);
    PowMod(base * base, half, m);
    if exp % 2 == 1 {
      assert Pow(base, exp) == base * p;
      hide Pow;
      MulMod(res * base, reduced, m);
      MulModRight(res * base, reduced, p, m);
      assert res * base * p == res * (base * p);
    } else {
      hide Pow;
      MulModRight(res, reduced, p, m);
    }
  }

  lemma ResidueEnds(b: nat, e: nat, res: nat, m: nat)
    requires m > 0
    ensures Residue(1, b % m, e, m) == Pow(b, e) % m
    ensures res < m ==> Residue(res, b, 0, m) == res
    ensures e == 0 && m > 1 ==> Pow(b, e) % m == 1
  {
    PowMod(b, e, m);
    assert res * Pow(b, 0) == res;
    if res < m { RemainderUnique(res, m, 0, res); }
    if m > 1 { RemainderUnique(1, m, 0, 1); }
  }

  /** For every base, exponent and modulus; with modulus 1 and exponent 0 the loop never reduces the 1. */
  method PowerMod(b: nat, e: nat, mod: nat) returns (res: nat)
    requires mod > 0
    ensures res == if e == 0 then 1 else Pow(b, e) % mod
    ensures mod > 1 ==> res == Pow(b, e) % mod
  {
    hide Pow;
    res := 1;
    var base: nat, exp: nat := b % mod, e;
    ResidueEnds(b, e, 1, mod);
    while exp > 0
      invariant Residue(res, base, exp, mod) == Pow(b, e) % mod
      invariant exp == 0 && e > 0 ==> res < mod
      invariant e == 0 ==> res == 1
      decreases exp
    {
      HalvingStep(res, base, exp, mod);
      if exp % 2 == 1 {
        res := (res * base) % mod;
      }
      base := (base * base) % mod;
      exp := exp / 2;
    }
    ResidueEnds(base, 0, res, mod);
  }

  // ---------------------------------------------------------------- fixed-length integers

  method BigintToBytes(num: nat) returns (bytes: array<byte>)
    ensures bytes[..] == I2osp(num, 256)
  {
    bytes := new byte[256](i => 0);
    var temp, i := num, 255;
    while i >= 0
      invariant -1 <= i <= 255
      invariant I2osp(num, 256) == I2osp(temp, i + 1) + bytes[i + 1..]
    {
      assert I2osp(temp, i + 1) == I2osp(temp / 256, i) + [temp % 256];
      bytes[i] := temp % 256;
      assert bytes[i..] == [temp % 256] + bytes[i + 1..];
      temp := temp / 256;
      i := i - 1;
    }
    assert I2osp(temp, 0) == [];
    assert bytes[0..] == bytes[..];
  }

  // ---------------------------------------------------------------- padding and signature

  const N: nat := 0xc0b8574a9dec3aa300c15fd367b90b50182ca2a6072bb9ae1128e552571d543d245bc4063c778ffb39ac57620241baeb409844034d28a9bb118bcc1750bce8c501b7b7df93398aaa33dbe8fc1a927d62e33c6afc690b976fdb6e5aaef0e70f4444bce6bf567ffb6d857e8296597e8be22626a948d71303c5d6388745b418bc6aa9952b4b64d6e2787a250ab5a2cc69c6c1b343e972445c1eda63117b48d01c38e6c93c7efb4549143fdce4077dc5c14898a9432a09b66d68eb116ad7fcdee7dc50f78b5f3c18429beac36fff5c5d310184dec698c0dc941c7a71fd55b60a79df547b04669cbe8517208cf3a25aeeea8851de7226bfd97d524bfb5e0c9d4e0b81
  const D: nat := 0x18ec7e4039d64aeb0e76491f526dbdb1ce693a0bc0d2532c2e2f477673aa69079343d99678e17999cda6a53d194f9e3893325e06bdf181549e7b4c44c3a8a56de7bff67965554417fe51a025b7db5ecded8215d003ac7fc44946520207f3c9fca940739326965ca79863ce730555f6b4a3a72258e23fcfa0195eac2d43e7b8637faee9396abbfc9916269b50b7e044d2b154726ae67e721d228fdeb2f69dafc37a26026f70c18803d6320f89bf622d970b723fe430c2a8fa7685254a7cd61ef4b2319be47c4dd492cfa2945ca4e0e9881df5a9302317dd36c67c539d5d712413c9dd56f05867070a1a18cef83f9f450e8556f6a7a85b38daa5f5b6ec08f4b215

  /** EMSA-PKCS1-v1_5 framing (RFC 8017, section 9.2) of the token itself, in 256 bytes. */
  function Encoded(token: seq<byte>): (r: seq<byte>)
    requires |token| <= 253
    ensures |r| == 256
  {
    [0, 1] + seq(253 - |token|, i => 0xff) + [0] + token
  }

  /** What the code frames: tokens of 254 to 256 bytes run over the front of the buffer. */
  function Framed(token: seq<byte>): (r: seq<byte>)
    requires |token| <= 256
    ensures |r| == 256
  {
    if |token| <= 253 then Encoded(token) else seq(256 - |token|, i => 0) + token
  }

  /** None is the exception of set() for a token longer than the buffer. */
  method Frame(token: seq<byte>) returns (padded: Option<array<byte>>)
    ensures padded.None? <==> |token| > 256
    ensures padded.Some? ==> fresh(padded.value) && padded.value[..] == Framed(token)
  {
    var buffer := new byte[256](i => 0);
    buffer[0], buffer[1] := 0x00, 0x01;
    var padLength := 256 - 3 - |token|;
    var i := 0;
    while i < padLength
      invariant 0 <= i && (i <= padLength || (i == 0 && padLength < 0))
      invariant forall k | 0 <= k < 256 :: buffer[k] == if k == 1 then 1 else if 2 <= k < 2 + i then 0xff else 0
    {
      buffer[2 + i] := 0xff;
      i := i + 1;
    }
    if 0 <= 2 + padLength {
      buffer[2 + padLength] := 0x00;
    }
    if |token| > 256 {
      return None;
    }
    Set(buffer, token, 2 + padLength + 1);
    padded := Some(buffer);
  }

  /** The 256-byte big-endian integer of the padded buffer. */
  method ToInteger(padded: array<byte>) returns (m: nat)
    requires padded.Length == 256
    ensures m == Os2ip(padded[..])
  {
    m := 0;
    for i := 0 to 256
      invariant m == Os2ip(padded[..i])
    {
      assert padded[..i + 1][..i] == padded[..i];
      m := m * 256 + padded[i];
    }
    assert padded[..256] == padded[..];
  }

  /** The modulus has 2048 bits, so 255 bytes always stay below it. */
  lemma ModulusSize()
    ensures Pow256(255) < N < Pow256(256)
  {
    Double(128);
    Size128();
    assert Pow256(256) == 256 * Pow256(255);
  }

  lemma Size32()
    ensures Pow256(32) == 0x10000000000000000000000000000000000000000000000000000000000000000
  {
    assert Pow256(8) == 0x10000000000000000;
    assert Pow256(16) == 0x100000000000000000000000000000000;
    assert Pow256(24) == 0x1000000000000000000000000000000000000000000000000;
  }

  lemma Size64()
    ensures Pow256(64) == 0x100000000000000000000000000000000000000000000000000000000000000000000000000000000000000000000000000000000000000000000000000000000
  {
    Double(32);
    Size32();
  }

  lemma Size128()
    ensures Pow256(128) ==
      0x10000000000000000000000000000000000000000000000000000000000000000000000000000000000000000000000000000000000000000000000000000000000000000000000000000000000000000000000000000000000000000000000000000000000000000000000000000000000000000000000000000000000000000
  {
    Double(64);
    Size64();
  }

  lemma {:induction false} Pow256Add(m: nat, n: nat)
    ensures Pow256(m + n) == Pow256(m) * Pow256(n)
  {
    if m > 0 {
      Pow256Add(m - 1, n);
      assert Pow256(m) * Pow256(n) == 256 * (Pow256(m - 1) * Pow256(n));
    }
  }

  lemma Double(n: nat)
    ensures Pow256(2 * n) == Pow256(n) * Pow256(n)
  {
    Pow256Add(n, n);
  }

  /** For every token of at most 255 bytes the framed integer is below the modulus. */
  lemma FramedBelowModulus(token: seq<byte>)
    requires |token| <= 255
    ensures Os2ip(Framed(token)) < N
  {
    hide N;
    ModulusSize();
    assert Framed(token)[0] == 0;
    LeadingZero(Framed(token));
  }

  method SignAdbToken(token: seq<byte>) returns (signature: Option<array<byte>>)
    ensures signature.None? <==> |token| > 256
    ensures signature.Some? ==> signature.value.Length == 256
    ensures signature.Some? ==> Os2ip(signature.value[..]) == Pow(Os2ip(Framed(token)), D) % N
    ensures |token| <= 253 ==> signature.value[..] == I2osp(Pow(Os2ip(Encoded(token)), D) % N, 256)
  {
    hide N, D, Pow;
    ModulusSize();
    var padded := Frame(token);
    if padded.None? {
      return None;
    }
    var m := ToInteger(padded.value);
    var s := PowerMod(m, D, N);
    Os2ipOfI2osp(s, 256);
    var bytes := BigintToBytes(s);
    signature := Some(bytes);
  }
}
