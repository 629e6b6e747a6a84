/** The two typed-array operations the front end writes with. */
module TypedArrays {
  import opened JsNumbers

  /** dst.set(src, at) */
  method Set(dst: array<byte>, src: seq<byte>, at: nat)
    requires at + |src| <= dst.Length
    modifies dst
    ensures dst[..] == old(dst[..at]) + src + old(dst[at + |src|..])
  {
    forall i | 0 <= i < |src| {
      dst[at + i] := src[i];
    }
  }

  /** dst.fill(0, from, to) */
  method FillZero(dst: array<byte>, from: nat, to: nat)
    requires from <= to <= dst.Length
    modifies dst
    ensures dst[..] == old(dst[..from]) + seq(to - from, i => 0) + old(dst[to..])
  {
    forall i | from <= i < to {
      dst[i] := 0;
    }
  }
}
