/** Big-endian integers as octet strings (the primitives of sections 4.1 and 4.2 of RFC 8017). */
module Octets {
  import opened JsNumbers

  function Os2ip(x: seq<byte>): nat {
    if x == [] then 0 else 256 * Os2ip(x[..|x| - 1]) + x[|x| - 1]
  }

  /** The low `length` octets of x. */
  function I2osp(x: nat, length: nat): (r: seq<byte>)
    ensures |r| == length
  {
    if length == 0 then [] else I2osp(x / 256, length - 1) + [x % 256]
  }

  function Pow256(n: nat): (r: nat)
    ensures r > 0
  {
    if n == 0 then 1 else 256 * Pow256(n - 1)
  }

  lemma {:induction false} Os2ipOfI2osp(x: nat, length: nat)
    requires x < Pow256(length)
    ensures Os2ip(I2osp(x, length)) == x
  {
    if length > 0 {
      Os2ipOfI2osp(x / 256, length - 1);
      assert I2osp(x, length)[..length - 1] == I2osp(x / 256, length - 1);
    }
  }

  /** Reading octets back gives the number exactly when it fits. */
  lemma FitsOctets(x: nat, length: nat)
    ensures Os2ip(I2osp(x, length)) == x <==> x < Pow256(length)
  {
    Os2ipBound(I2osp(x, length));
    if x < Pow256(length) { Os2ipOfI2osp(x, length); }
  }

  lemma {:induction false} Os2ipBound(x: seq<byte>)
    ensures Os2ip(x) < Pow256(|x|)
  {
    if x != [] { Os2ipBound(x[..|x| - 1]); }
  }

  lemma {:induction false} LeadingZero(x: seq<byte>)
    requires x != [] && x[0] == 0
    ensures Os2ip(x) < Pow256(|x| - 1)
  {
    if |x| == 1 {
      assert Os2ip(x[..0]) == 0;
    } else {
      LeadingZero(x[..|x| - 1]);
    }
  }

  lemma SmallPowers()
    ensures Pow256(2) == 0x1_0000 && Pow256(4) == 0x1_0000_0000 && Pow256(8) == 0x1_0000_0000_0000_0000
  {
  }

  lemma Octets2(x: nat)
    ensures I2osp(x, 2) == [x / 0x100 % 256, x % 256]
  {
    assert I2osp(x / 256, 1) == I2osp(x / 256 / 256, 0) + [x / 256 % 256];
  }

  lemma Octets4(x: nat)
    ensures I2osp(x, 4) == [x / 0x100_0000 % 256, x / 0x1_0000 % 256, x / 0x100 % 256, x % 256]
  {
    Octets2(x / 0x1_0000);
    assert I2osp(x, 4) == I2osp(x / 256, 3) + [x % 256];
    assert I2osp(x / 256, 3) == I2osp(x / 256 / 256, 2) + [x / 256 % 256];
    assert x / 256 / 256 == x / 0x1_0000 && x / 0x1_0000 / 0x100 == x / 0x100_0000;
  }

  lemma LowWord(x: nat)
    ensures I2osp(x, 4) == I2osp(x % 0x1_0000_0000, 4)
  {
    hide I2osp;
    Octets4(x);
    Octets4(x % 0x1_0000_0000);
    BytesOfLowWord(x / 0x1_0000_0000, x % 0x1_0000_0000);
  }

  lemma BytesOfLowWord(q: nat, r: nat)
    ensures var x := 0x1_0000_0000 * q + r;
      x % 256 == r % 256 && x / 0x100 % 256 == r / 0x100 % 256
      && x / 0x1_0000 % 256 == r / 0x1_0000 % 256 && x / 0x100_0000 % 256 == r / 0x100_0000 % 256
  {
    var x := 0x1_0000_0000 * q + r;
    assert x / 0x100 == r / 0x100 + 0x100_0000 * q;
    assert x / 0x1_0000 == r / 0x1_0000 + 0x1_0000 * q;
    assert x / 0x100_0000 == r / 0x100_0000 + 0x100 * q;
  }

  /** Eight octets are the two words of the number. */
  lemma Octets8(x: nat)
    ensures I2osp(x, 8) == I2osp(x / 0x1_0000_0000, 4) + I2osp(x % 0x1_0000_0000, 4)
  {
    LowWord(x);
    var x1, x2, x3, x4 := x / 0x100, x / 0x1_0000, x / 0x100_0000, x / 0x1_0000_0000;
    assert x / 256 == x1 && x1 / 256 == x2 && x2 / 256 == x3 && x3 / 256 == x4;
    Octets4(x);
    assert I2osp(x, 8) == I2osp(x1, 7) + [x % 256];
    assert I2osp(x1, 7) == I2osp(x2, 6) + [x1 % 256];
    assert I2osp(x2, 6) == I2osp(x3, 5) + [x2 % 256];
    assert I2osp(x3, 5) == I2osp(x4, 4) + [x3 % 256];
  }
}
