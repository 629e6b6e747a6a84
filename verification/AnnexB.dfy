/** Splitting an H.264 byte stream (Annex B of ITU-T H.264) into NAL units. */
module AnnexB {
  import opened JsNumbers

  // ---------------------------------------------------------------- what the splitter computes

  /** Length of the start code detected at i, 0 when there is none. */
  function CodeAt(b: seq<byte>, i: nat): (size: nat)
    requires i + 2 < |b|
    ensures i + size <= |b|
  {
    if b[i] != 0 || b[i + 1] != 0 then 0
    else if b[i + 2] == 1 then 3
    else if b[i + 2] == 0 && i + 3 < |b| && b[i + 3] == 1 then 4
    else 0
  }

  /** The units still to be delivered from position i, the open unit having begun at start (-1: none). */
  function Scan(b: seq<byte>, start: int, i: nat): seq<seq<byte>>
    requires -1 <= start <= i
    decreases |b| - i
  {
    if i + 2 >= |b| then
      if 0 <= start < |b| then [b[start..]] else []
    else if CodeAt(b, i) == 0 then
      Scan(b, start, i + 1)
    else
      var next := i + CodeAt(b, i);
      (if 0 <= start < i then [b[start..i]] else []) + Scan(b, next, next)
  }

  method ParseAnnexB(buffer: seq<byte>) returns (units: seq<seq<byte>>)
    ensures units == Scan(buffer, -1, 0)
  {
    units := [];
    var start := -1;
    var i := 0;
    while i + 2 < |buffer|
      invariant 0 <= i && -1 <= start <= i && start <= |buffer|
      invariant units + Scan(buffer, start, i) == Scan(buffer, -1, 0)
    {
      if buffer[i] == 0 && buffer[i + 1] == 0 {
        var size := if buffer[i + 2] == 1 then 3
                    else if buffer[i + 2] == 0 && i + 3 < |buffer| && buffer[i + 3] == 1 then 4 else 0;
        if size != 0 {
          if start >= 0 && i > start {
            units := units + [buffer[start..i]];
          }
          start := i + size;
          i := start - 1;
        }
      }
      i := i + 1;
    }
    if start >= 0 && start < |buffer| {
      units := units + [buffer[start..]];
    }
  }

  // ---------------------------------------------------------------- section B.1.1: the writer

  datatype Chunk = Chunk(long: bool, unit: seq<byte>)

  function StartCode(long: bool): seq<byte> {
    if long then [0, 0, 0, 1] else [0, 0, 1]
  }

  function Stream(cs: seq<Chunk>): seq<byte> {
    if cs == [] then [] else StartCode(cs[0].long) + cs[0].unit + Stream(cs[1..])
  }

  function Units(cs: seq<Chunk>): (r: seq<seq<byte>>)
    ensures |r| == |cs|
  {
    if cs == [] then [] else [cs[0].unit] + Units(cs[1..])
  }

  predicate PrefixAt(u: seq<byte>, i: nat) {
    i + 2 < |u| && u[i] == 0 && u[i + 1] == 0 && u[i + 2] == 1
  }

  /** No start code prefix 00 00 01 inside the unit. */
  ghost predicate Clean(u: seq<byte>) {
    forall i: nat :: !PrefixAt(u, i)
  }

  /** The boundary after u is unambiguous: a unit ending in 00 is followed by a four-byte start code. */
  predicate Joined(u: seq<byte>, rest: seq<Chunk>) {
    rest == [] || u == [] || u[|u| - 1] != 0 || rest[0].long
  }

  ghost predicate Unambiguous(cs: seq<Chunk>) {
    cs == [] || (Clean(cs[0].unit) && Joined(cs[0].unit, cs[1..]) && Unambiguous(cs[1..]))
  }

  ghost predicate NonEmpty(cs: seq<Chunk>) {
    forall c | c in cs :: c.unit != []
  }

  // ---------------------------------------------------------------- scanning one unit

  ghost predicate NoCodeIn(b: seq<byte>, from: nat, to: nat) {
    forall i: nat | from <= i < to && i + 2 < |b| :: CodeAt(b, i) == 0
  }

  lemma {:induction false} SkipTo(b: seq<byte>, start: int, i: nat, e: nat)
    requires -1 <= start <= i <= e <= |b| && NoCodeIn(b, i, e)
    ensures Scan(b, start, i) == Scan(b, start, e)
    decreases e - i
  {
    if i < e && i + 2 < |b| {
      SkipTo(b, start, i + 1, e);
    }
  }

  /** b continues from s with the unit u and then the chunks of rest. */
  ghost predicate At(b: seq<byte>, s: nat, u: seq<byte>, rest: seq<Chunk>) {
    s <= |b| && b[s..] == u + Stream(rest)
  }

  function NextStart(s: nat, u: seq<byte>, rest: seq<Chunk>): nat
    requires rest != []
  {
    s + |u| + |StartCode(rest[0].long)|
  }

  lemma AtNext(b: seq<byte>, s: nat, u: seq<byte>, rest: seq<Chunk>)
    requires At(b, s, u, rest) && rest != []
    ensures NextStart(s, u, rest) <= |b|
    ensures At(b, NextStart(s, u, rest), rest[0].unit, rest[1..])
    ensures b[s..s + |u|] == u
    ensures b[s + |u|..NextStart(s, u, rest)] == StartCode(rest[0].long)
  {
    assert StartCode(rest[0].long) + rest[0].unit + Stream(rest[1..])
        == StartCode(rest[0].long) + (rest[0].unit + Stream(rest[1..]));
    Pieces(b, s, u, StartCode(rest[0].long), rest[0].unit + Stream(rest[1..]));
  }

  lemma Pieces(b: seq<byte>, s: nat, u: seq<byte>, code: seq<byte>, tail: seq<byte>)
    requires s <= |b| && b[s..] == u + (code + tail)
    ensures b[s..s + |u|] == u && b[s + |u|..s + |u| + |code|] == code && b[s + |u| + |code|..] == tail
  {
    var x := b[s..];
    assert x[..|u|] == u && x[|u|..|u| + |code|] == code && x[|u| + |code|..] == tail;
  }

  /** Inside a clean unit nothing is detected before its last byte, nor there when the boundary is unambiguous. */
  lemma NoCodeInside(b: seq<byte>, s: nat, u: seq<byte>, rest: seq<Chunk>)
    requires At(b, s, u, rest) && Clean(u) && u != []
    ensures NoCodeIn(b, s, s + |u| - 1)
    ensures Joined(u, rest) ==> NoCodeIn(b, s, s + |u|)
  {
    var e := s + |u|;
    if rest != [] {
      AtNext(b, s, u, rest);
      assert b[e] == 0 && b[e + 1] == 0 by {
        assert b[e..NextStart(s, u, rest)][0] == 0;
        assert b[e..NextStart(s, u, rest)][1] == 0;
      }
      assert b[e + 2] == if rest[0].long then 0 else 1 by { assert b[e..NextStart(s, u, rest)][2] == b[e + 2]; }
    } else {
      assert Stream(rest) == [];
    }
    assert forall j | s <= j < e :: b[j] == u[j - s] by { assert forall j | s <= j < e :: b[s..][j - s] == b[j]; }
    forall i: nat | s <= i < e && i + 2 < |b| && (i < e - 1 || Joined(u, rest)) ensures CodeAt(b, i) == 0 {
      assert !PrefixAt(u, i - s) && !PrefixAt(u, i - s + 1);
    }
  }

  /** What the scan delivers for a clean unit, whatever the boundary after it. */
  lemma ScanUnit(b: seq<byte>, s: nat, u: seq<byte>, rest: seq<Chunk>)
    requires At(b, s, u, rest) && Clean(u) && u != []
    ensures rest == [] ==> Scan(b, s, s) == [u]
    ensures rest != [] ==> NextStart(s, u, rest) <= |b|
    ensures rest != [] ==>
      var n := NextStart(s, u, rest);
      Scan(b, s, s) == (if Joined(u, rest) then [u] else if |u| == 1 then [] else [u[..|u| - 1]]) + Scan(b, n, n)
  {
    hide Scan, CodeAt;
    NoCodeInside(b, s, u, rest);
    if rest == [] {
      assert b[s..] == u + [] == u;
      SkipTo(b, s, s, |b|);
      ScanEnd(b, s);
    } else {
      AtNext(b, s, u, rest);
      CodeAfter(b, s, u, rest);
      var e := if Joined(u, rest) then s + |u| else s + |u| - 1;
      SkipTo(b, s, s, e);
      ScanStep(b, s, e);
      assert b[s..e] == b[s..s + |u|][..e - s];
    }
  }

  lemma ScanEnd(b: seq<byte>, s: nat)
    requires s < |b|
    ensures Scan(b, s, |b|) == [b[s..]]
  {
  }

  lemma ScanStep(b: seq<byte>, s: nat, e: nat)
    requires s <= e && e + 2 < |b| && CodeAt(b, e) != 0
    ensures Scan(b, s, e) == (if s < e then [b[s..e]] else []) + Scan(b, e + CodeAt(b, e), e + CodeAt(b, e))
  {
  }

  /** Where the scan detects the start code after u. */
  lemma CodeAfter(b: seq<byte>, s: nat, u: seq<byte>, rest: seq<Chunk>)
    requires At(b, s, u, rest) && u != [] && rest != []
    ensures NextStart(s, u, rest) <= |b|
    ensures Joined(u, rest) ==> CodeAt(b, s + |u|) == |StartCode(rest[0].long)|
    ensures !Joined(u, rest) ==> CodeAt(b, s + |u| - 1) == 4 && |StartCode(rest[0].long)| == 3
  {
    AtNext(b, s, u, rest);
    var e := s + |u|;
    var code := b[e..NextStart(s, u, rest)];
    assert b[e] == code[0] && b[e + 1] == code[1] && b[e + 2] == code[2];
    if rest[0].long { assert b[e + 3] == code[3]; }
    assert b[e - 1] == u[|u| - 1] by { assert b[s..e][|u| - 1] == b[e - 1]; }
  }

  // ---------------------------------------------------------------- the splitter inverts the writer

  lemma {:induction false} ScanUnits(b: seq<byte>, s: nat, u: seq<byte>, rest: seq<Chunk>)
    requires At(b, s, u, rest) && u != [] && NonEmpty(rest)
    requires Clean(u) && Joined(u, rest) && Unambiguous(rest)
    ensures Scan(b, s, s) == [u] + Units(rest)
    decreases |rest|
  {
    ScanUnit(b, s, u, rest);
    if rest != [] {
      AtNext(b, s, u, rest);
      ScanUnits(b, NextStart(s, u, rest), rest[0].unit, rest[1..]);
    }
  }

  lemma FirstCode(cs: seq<Chunk>)
    requires cs != []
    ensures var n := NextStart(0, [], cs); At(Stream(cs), n, cs[0].unit, cs[1..])
    ensures var n := NextStart(0, [], cs); Scan(Stream(cs), -1, 0) == Scan(Stream(cs), n, n)
  {
    var b, n := Stream(cs), NextStart(0, [], cs);
    assert b[0..] == [] + Stream(cs);
    AtNext(b, 0, [], cs);
    var code := b[0..n];
    assert b[0] == code[0] && b[1] == code[1] && b[2] == code[2];
    if cs[0].long { assert b[3] == code[3]; }
    assert CodeAt(b, 0) == n;
  }

  // ---------------------------------------------------------------- and only on unambiguous streams

  /** Whatever the input, no delivered unit contains a start code prefix. */
  lemma {:induction false} DeliveredAreClean(b: seq<byte>, start: int, i: nat)
    requires -1 <= start <= i && (start >= 0 ==> NoCodeIn(b, start, i))
    ensures forall u | u in Scan(b, start, i) :: Clean(u) && u != []
    decreases |b| - i
  {
    if i + 2 < |b| && CodeAt(b, i) == 0 {
      DeliveredAreClean(b, start, i + 1);
    } else if i + 2 < |b| {
      var next := i + CodeAt(b, i);
      DeliveredAreClean(b, next, next);
      if 0 <= start < i { SliceIsClean(b, start, i); }
    } else if 0 <= start < |b| {
      SliceIsClean(b, start, |b|);
      assert b[start..] == b[start..|b|];
    }
  }

  lemma SliceIsClean(b: seq<byte>, from: nat, to: nat)
    requires from <= to <= |b| && NoCodeIn(b, from, to)
    ensures Clean(b[from..to])
  {
    forall j: nat | j + 2 < to - from ensures !PrefixAt(b[from..to], j) {
      assert CodeAt(b, from + j) == 0;
    }
  }

  /** Clean chunks never give more units than were written. */
  lemma {:induction false} NoExtraUnits(b: seq<byte>, s: nat, u: seq<byte>, rest: seq<Chunk>)
    requires At(b, s, u, rest) && Clean(u) && u != [] && NonEmpty(rest)
    requires forall c | c in rest :: Clean(c.unit)
    ensures |Scan(b, s, s)| <= 1 + |rest|
    decreases |rest|
  {
    ScanUnit(b, s, u, rest);
    if rest != [] {
      AtNext(b, s, u, rest);
      NoExtraUnits(b, NextStart(s, u, rest), rest[0].unit, rest[1..]);
    }
  }

  lemma {:induction false} UnitsIndex(cs: seq<Chunk>, k: nat)
    requires k < |cs|
    ensures Units(cs)[k] == cs[k].unit
  {
    if k > 0 { UnitsIndex(cs[1..], k - 1); }
  }

  lemma {:induction false} AmbiguousDiffers(b: seq<byte>, s: nat, u: seq<byte>, rest: seq<Chunk>)
    requires At(b, s, u, rest) && u != [] && NonEmpty(rest)
    requires Clean(u) && (forall c | c in rest :: Clean(c.unit))
    requires !(Joined(u, rest) && Unambiguous(rest))
    ensures Scan(b, s, s) != [u] + Units(rest)
    decreases |rest|
  {
    ScanUnit(b, s, u, rest);
    AtNext(b, s, u, rest);
    var n := NextStart(s, u, rest);
    if Joined(u, rest) {
      AmbiguousDiffers(b, n, rest[0].unit, rest[1..]);
      assert Units(rest) == [rest[0].unit] + Units(rest[1..]);
      assert Scan(b, s, s)[1..] == Scan(b, n, n);
      assert ([u] + Units(rest))[1..] == Units(rest);
    } else if |u| == 1 {
      NoExtraUnits(b, n, rest[0].unit, rest[1..]);
    } else {
      assert Scan(b, s, s)[0] == u[..|u| - 1];
    }
  }

  /** The splitter returns exactly the written units precisely when the stream is unambiguous:
      no unit contains 00 00 01, and none ending in 00 is followed by a three-byte start code. */
  lemma SplitInvertsJoin(cs: seq<Chunk>)
    requires NonEmpty(cs)
    ensures Scan(Stream(cs), -1, 0) == Units(cs) <==> Unambiguous(cs)
  {
    if cs != [] {
      var b, n := Stream(cs), NextStart(0, [], cs);
      FirstCode(cs);
      assert Units(cs) == [cs[0].unit] + Units(cs[1..]);
      if Unambiguous(cs) {
        ScanUnits(b, n, cs[0].unit, cs[1..]);
      } else if k :| 0 <= k < |cs| && !Clean(cs[k].unit) {
        DeliveredAreClean(b, -1, 0);
        UnitsIndex(cs, k);
        assert cs[k].unit in Units(cs);
      } else {
        AmbiguousDiffers(b, n, cs[0].unit, cs[1..]);
      }
    }
  }
}
