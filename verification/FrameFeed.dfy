/** The repacking inside feedFrame: an Annex B frame becomes the length-prefixed sample and the
    configuration record that a WebCodecs decoder takes (ISO/IEC 14496-15). */
module FrameFeed {
  import opened JsNumbers
  import opened Octets
  import opened TypedArrays
  import opened Wrappers
  import BitStrings
  import AnnexB
  import Sps
  import H264Crop

  // ---------------------------------------------------------------- which units are taken

  function UnitType(u: seq<byte>): nat {
    if u == [] then 0 else u[0] % 32
  }

  predicate IsSlice(u: seq<byte>) { UnitType(u) == 5 || UnitType(u) == 1 }

  function Slices(units: seq<seq<byte>>): seq<seq<byte>> {
    if units == [] then [] else (if IsSlice(units[0]) then [units[0]] else []) + Slices(units[1..])
  }

  /** The last unit of a type. */
  function LastOf(units: seq<seq<byte>>, t: nat): Option<seq<byte>> {
    if units == [] then None
    else if UnitType(units[|units| - 1]) == t then Some(units[|units| - 1])
    else LastOf(units[..|units| - 1], t)
  }

  /** The first unit of a type, as find returns it. */
  function FirstOf(units: seq<seq<byte>>, t: nat): Option<seq<byte>> {
    if units == [] then None else if UnitType(units[0]) == t then Some(units[0]) else FirstOf(units[1..], t)
  }

  datatype Sorted = Sorted(sps: Option<seq<byte>>, pps: Option<seq<byte>>, slices: seq<seq<byte>>)

  lemma {:induction false} SlicesAppend(units: seq<seq<byte>>, u: seq<byte>)
    ensures Slices(units + [u]) == Slices(units) + (if IsSlice(u) then [u] else [])
  {
    if units == [] {
      assert units + [u] == [u];
    } else {
      assert (units + [u])[1..] == units[1..] + [u];
      SlicesAppend(units[1..], u);
    }
  }

  /** A unit is taken as often as it is there, if it is a slice by its first byte: a picture's, or a key picture's. */
  lemma {:induction false} SlicesExactly(units: seq<seq<byte>>, u: seq<byte>)
    ensures multiset(Slices(units))[u] == if u != [] && u[0] % 32 in {1, 5} then multiset(units)[u] else 0
  {
    if units != [] {
      SlicesExactly(units[1..], u);
      assert units == [units[0]] + units[1..];
    }
  }

  /** And in order: the slices of two stretches are those of the first and then those of the second. */
  lemma {:induction false} SlicesInOrder(first: seq<seq<byte>>, second: seq<seq<byte>>)
    ensures Slices(first + second) == Slices(first) + Slices(second)
  {
    if first == [] {
      assert first + second == second;
    } else {
      assert (first + second)[1..] == first[1..] + second;
      SlicesInOrder(first[1..], second);
    }
  }

  predicate HasType(u: seq<byte>, t: nat) {
    u != [] && u[0] % 32 == t
  }

  /** The last unit of a type is one after which none has it; there is none only if no unit has it. */
  lemma {:induction false} LastOfExactly(units: seq<seq<byte>>, t: nat)
    requires t > 0
    ensures match LastOf(units, t)
      case None => forall i | 0 <= i < |units| :: !HasType(units[i], t)
      case Some(u) => exists k: nat :: k < |units| && units[k] == u && HasType(units[k], t)
                                       && forall i | k < i < |units| :: !HasType(units[i], t)
  {
    if units != [] && !HasType(units[|units| - 1], t) {
      LastOfExactly(units[..|units| - 1], t);
    }
  }

  /** The first unit of a type is one before which none has it; there is none only if no unit has it. */
  lemma {:induction false} FirstOfExactly(units: seq<seq<byte>>, t: nat)
    requires t > 0
    ensures match FirstOf(units, t)
      case None => forall i | 0 <= i < |units| :: !HasType(units[i], t)
      case Some(u) => exists k: nat :: k < |units| && units[k] == u && HasType(units[k], t)
                                       && forall i | 0 <= i < k :: !HasType(units[i], t)
  {
    if units != [] && !HasType(units[0], t) {
      FirstOfExactly(units[1..], t);
      assert forall i | 1 <= i < |units| :: units[i] == units[1..][i - 1];
      if FirstOf(units, t).Some? {
        var k: nat :| k < |units[1..]| && units[1..][k] == FirstOf(units, t).value && HasType(units[1..][k], t)
          && forall i | 0 <= i < k :: !HasType(units[1..][i], t);
        assert units[k + 1] == units[1..][k];
      }
    }
  }

  /** The loop over the units of one frame. */
  method SortUnits(units: seq<seq<byte>>) returns (r: Sorted)
    ensures r == Sorted(LastOf(units, 7), LastOf(units, 8), Slices(units))
  {
    var sps, pps, slices := None, None, [];
    for i := 0 to |units|
      invariant sps == LastOf(units[..i], 7) && pps == LastOf(units[..i], 8) && slices == Slices(units[..i])
    {
      var n := units[i];
      assert units[..i + 1] == units[..i] + [n];
      assert units[..i + 1][..i] == units[..i];
      SlicesAppend(units[..i], n);
      if |n| != 0 {
        AndFive(n[0]);
        var naluType := JsAnd(n[0], 0x1F);
        if naluType == 7 {
          sps := Some(n);
        } else if naluType == 8 {
          pps := Some(n);
        } else if naluType == 5 || naluType == 1 {
          slices := slices + [n];
        }
      }
    }
    assert units[..|units|] == units;
    r := Sorted(sps, pps, slices);
  }

  // ---------------------------------------------------------------- length-prefixed samples

  function Avcc(slices: seq<seq<byte>>): seq<byte> {
    if slices == [] then [] else I2osp(|slices[0]|, 4) + slices[0] + Avcc(slices[1..])
  }

  /** A reader of samples with four-byte lengths (section 5.2.3); None when the bytes do not divide into units. */
  function Units(sample: seq<byte>): Option<seq<seq<byte>>>
    decreases |sample|
  {
    if sample == [] then Some([])
    else if |sample| < 4 || Os2ip(sample[..4]) > |sample| - 4 then None
    else
      var n := Os2ip(sample[..4]);
      var rest :- Units(sample[4 + n..]);
      Some([sample[4..4 + n]] + rest)
  }

  ghost predicate Short(slices: seq<seq<byte>>) {
    forall s | s in slices :: |s| < 0x1_0000_0000
  }

  /** Reading the sample back gives the slices, in order, with no byte between or after them. */
  lemma {:induction false} UnitsOfAvcc(slices: seq<seq<byte>>)
    requires Short(slices)
    ensures Units(Avcc(slices)) == Some(slices)
  {
    if slices != [] {
      hide I2osp, Os2ip, Units;
      var s := slices[0];
      SmallPowers(); Os2ipOfI2osp(|s|, 4);
      UnitsOfAvcc(slices[1..]);
      FirstUnit(I2osp(|s|, 4), s, Avcc(slices[1..]), slices[1..]);
      assert slices == [s] + slices[1..];
    }
  }

  lemma FirstUnit(prefix: seq<byte>, s: seq<byte>, rest: seq<byte>, more: seq<seq<byte>>)
    requires |prefix| == 4 && Os2ip(prefix) == |s| && Units(rest) == Some(more)
    ensures Units(prefix + s + rest) == Some([s] + more)
  {
    hide Os2ip;
    var sample := prefix + s + rest;
    assert sample[..4] == prefix && sample[4..4 + |s|] == s && sample[4 + |s|..] == rest;
  }

  lemma {:induction false} AvccAppend(slices: seq<seq<byte>>, s: seq<byte>)
    ensures Avcc(slices + [s]) == Avcc(slices) + I2osp(|s|, 4) + s
  {
    hide I2osp;
    if slices == [] {
      assert slices + [s] == [s];
      assert Avcc([s]) == I2osp(|s|, 4) + s + Avcc([]);
    } else {
      assert (slices + [s])[1..] == slices[1..] + [s];
      AvccAppend(slices[1..], s);
    }
  }

  /** (x >> 24) & 0xff and the like, which keep only 32 bits of the length. */
  method StoreLength(buffer: array<byte>, offset: nat, length: nat)
    requires offset + 4 <= buffer.Length
    modifies buffer
    ensures buffer[..] == old(buffer[..offset]) + I2osp(length, 4) + old(buffer[offset + 4..])
  {
    hide JsAnd, JsSar;
    SarBytes(length);
    Octets4(length);
    buffer[offset] := JsAnd(JsSar(length, 24), 0xff);
    buffer[offset + 1] := JsAnd(JsSar(length, 16), 0xff);
    buffer[offset + 2] := JsAnd(JsSar(length, 8), 0xff);
    buffer[offset + 3] := JsAnd(length, 0xff);
  }

  /** The stored bytes are those of the length modulo 2^32, although >> works on the signed value. */
  lemma SarBytes(n: nat)
    ensures JsAnd(JsSar(n, 24), 0xff) == n / 0x100_0000 % 256
    ensures JsAnd(JsSar(n, 16), 0xff) == n / 0x1_0000 % 256
    ensures JsAnd(JsSar(n, 8), 0xff) == n / 0x100 % 256
    ensures JsAnd(n, 0xff) == n % 256
  {
    hide JsAnd, ToInt32, ToUint32, ShiftDown;
    var t := ToInt32(n);
    ByteShifts(t);
    SignedBytes(n);
    LastByteOf(t / 0x100_0000); LastByteOf(t / 0x1_0000); LastByteOf(t / 0x100); LastByteOf(n);
  }

  lemma SignedBytes(n: nat)
    ensures ToInt32(n) / 0x100_0000 % 256 == n / 0x100_0000 % 256
    ensures ToInt32(n) / 0x1_0000 % 256 == n / 0x1_0000 % 256
    ensures ToInt32(n) / 0x100 % 256 == n / 0x100 % 256
  {
    var q := (n - ToInt32(n)) / 0x1_0000_0000;
    assert n == ToInt32(n) + 0x1_0000_0000 * q;
    ShiftedPeriod(ToInt32(n), q);
  }

  lemma ShiftedPeriod(t: int, q: int)
    ensures (t + 0x1_0000_0000 * q) / 0x100_0000 % 256 == t / 0x100_0000 % 256
    ensures (t + 0x1_0000_0000 * q) / 0x1_0000 % 256 == t / 0x1_0000 % 256
    ensures (t + 0x1_0000_0000 * q) / 0x100 % 256 == t / 0x100 % 256
  {
    BytePeriod(t, 0x100_0000 * q);
    BytePeriod(t / 0x100, 0x1_0000 * q);
    BytePeriod(t / 0x1_0000, 0x100 * q);
    assert t / 0x100 / 0x100 == t / 0x1_0000 && t / 0x1_0000 / 0x100 == t / 0x100_0000;
    var u := t + 0x1_0000_0000 * q;
    assert u / 0x100 / 0x100 == u / 0x1_0000 && u / 0x1_0000 / 0x100 == u / 0x100_0000;
    BytePeriod(t / 0x100_0000, q);
  }

  /** Whole multiples pass through a shift by one byte. */
  lemma BytePeriod(t: int, q: int)
    ensures (t + 0x100 * q) / 0x100 == t / 0x100 + q
    ensures (t + 0x100 * q) % 0x100 == t % 0x100
  {
  }

  lemma LastByteOf(x: int)
    ensures JsAnd(x, 0xff) == x % 256
  {
    hide JsAnd;
    AndByte(x);
  }

  /** Filling avccBuffer at a running offset. */
  method Repack(slices: seq<seq<byte>>) returns (sample: array<byte>)
    ensures sample[..] == Avcc(slices)
  {
    hide I2osp;
    var totalLen := 0;
    for i := 0 to |slices|
      invariant totalLen == |Avcc(slices[..i])|
    {
      AvccAppend(slices[..i], slices[i]);
      assert slices[..i + 1] == slices[..i] + [slices[i]];
      totalLen := totalLen + 4 + |slices[i]|;
    }
    assert slices[..|slices|] == slices;
    sample := new byte[totalLen](i => 0);
    var offset := 0;
    for i := 0 to |slices|
      invariant offset == |Avcc(slices[..i])| && sample.Length == totalLen
      invariant offset <= totalLen && sample[..offset] == Avcc(slices[..i])
    {
      var slice := slices[i];
      AvccAppend(slices[..i], slice);
      assert slices[..i + 1] == slices[..i] + [slice];
      AvccGrows(slices, i + 1);
      StoreLength(sample, offset, |slice|);
      Set(sample, slice, offset + 4);
      assert sample[..offset + 4 + |slice|] == Avcc(slices[..i]) + I2osp(|slice|, 4) + slice;
      offset := offset + 4 + |slice|;
    }
    assert sample[..] == sample[..offset];
  }

  lemma {:induction false} AvccGrows(slices: seq<seq<byte>>, i: nat)
    requires i <= |slices|
    ensures |Avcc(slices[..i])| <= |Avcc(slices)|
    decreases |slices| - i
  {
    if i < |slices| {
      AvccAppend(slices[..i], slices[i]);
      assert slices[..i + 1] == slices[..i] + [slices[i]];
      AvccGrows(slices, i + 1);
    } else {
      assert slices[..i] == slices;
    }
  }

  // ---------------------------------------------------------------- the configuration record

  /** Byte i of a Uint8Array as stored into another: missing bytes are 0. */
  function ByteOrZero(s: seq<byte>, i: nat): byte {
    if i < |s| then s[i] else 0
  }

  function Record(sps: seq<byte>, pps: seq<byte>): seq<byte> {
    [1, ByteOrZero(sps, 1), ByteOrZero(sps, 2), ByteOrZero(sps, 3), 0xff, 0xe1]
    + I2osp(|sps|, 2) + sps + [1] + I2osp(|pps|, 2) + pps
  }

  method BuildRecord(sps: seq<byte>, pps: seq<byte>) returns (record: array<byte>)
    ensures record[..] == Record(sps, pps)
  {
    hide I2osp;
    record := new byte[11 + |sps| + |pps|](i => 0);
    BeginRecord(record, sps);
    ghost var head := [1, ByteOrZero(sps, 1), ByteOrZero(sps, 2), ByteOrZero(sps, 3), 0xff, 0xe1];
    hide ByteOrZero;
    StoreSet(record, 6, sps);
    var ppsOffset := 8 + |sps|;
    assert record[..ppsOffset] == head + I2osp(|sps|, 2) + sps;
    record[ppsOffset] := 1;
    assert record[..ppsOffset + 1] == record[..ppsOffset] + [1];
    StoreSet(record, ppsOffset + 1, pps);
    assert record[ppsOffset + 3 + |pps|..] == [];
  }

  /** The fixed beginning of the record, which quotes three bytes of the set. */
  method BeginRecord(record: array<byte>, sps: seq<byte>)
    requires record.Length >= 6
    modifies record
    ensures record[..6] == [1, ByteOrZero(sps, 1), ByteOrZero(sps, 2), ByteOrZero(sps, 3), 0xff, 0xe1]
  {
    hide ByteOrZero;
    record[0], record[1], record[2], record[3] := 1, ByteOrZero(sps, 1), ByteOrZero(sps, 2), ByteOrZero(sps, 3);
    record[4], record[5] := 0xff, 0xe1;
  }

  /** A 16-bit length and the bytes of one parameter set. */
  method StoreSet(record: array<byte>, at: nat, bytes: seq<byte>)
    requires at + 2 + |bytes| <= record.Length
    modifies record
    ensures record[..] == old(record[..at]) + I2osp(|bytes|, 2) + bytes + old(record[at + 2 + |bytes|..])
  {
    hide JsAnd, JsSar;
    SarBytes(|bytes|);
    Octets2(|bytes|);
    record[at] := JsAnd(JsSar(|bytes|, 8), 0xff);
    record[at + 1] := JsAnd(|bytes|, 0xff);
    assert record[..at + 2] == old(record[..at]) + I2osp(|bytes|, 2);
    Set(record, bytes, at + 2);
  }

  /** The record begins with its version, the profile, compatibility and level of its set, and the sizes it uses. */
  lemma RecordTells(sps: seq<byte>, pps: seq<byte>)
    ensures |Record(sps, pps)| == 11 + |sps| + |pps| && Record(sps, pps)[0] == 1
    ensures |sps| >= 4 ==> Record(sps, pps)[1..4] == sps[1..4]
    ensures Record(sps, pps)[4] % 4 + 1 == 4 && Record(sps, pps)[5] % 32 == 1
    ensures Record(sps, pps)[4] == 255 && Record(sps, pps)[5] == 225
  {
  }

  /** AVCDecoderConfigurationRecord with one set of each kind and four-byte lengths (section 5.2.4.1). */
  function ReadRecord(r: seq<byte>): Option<(seq<byte>, seq<byte>)> {
    if |r| < 11 || r[0] != 1 || r[4] % 4 != 3 || r[5] % 32 != 1 then None
    else
      var n := Os2ip(r[6..8]);
      if 11 + n > |r| || r[8 + n] != 1 then None
      else
        var m := Os2ip(r[9 + n..11 + n]);
        if 11 + n + m != |r| then None else Some((r[8..8 + n], r[11 + n..]))
  }

  /** A decoder gets both sets back exactly when their lengths fit the 16-bit fields. */
  lemma RecordRoundTrip(sps: seq<byte>, pps: seq<byte>)
    ensures ReadRecord(Record(sps, pps)) == Some((sps, pps)) <==> |sps| < 0x1_0000 && |pps| < 0x1_0000
  {
    hide I2osp, Os2ip, ByteOrZero;
    var r := Record(sps, pps);
    SmallPowers(); FitsOctets(|sps|, 2);
    FitsOctets(|pps|, 2);
    assert r[6..8] == I2osp(|sps|, 2);
    if |sps| < 0x1_0000 {
      assert r[8..8 + |sps|] == sps;
      assert r[8 + |sps|] == 1;
      assert r[9 + |sps|..11 + |sps|] == I2osp(|pps|, 2);
      assert r[11 + |sps|..] == pps;
    }
  }

  // ---------------------------------------------------------------- whole frames

  /** For every unambiguous byte stream with units below 2^32 bytes, the sample divides into exactly
      the slices written, in their order. */
  lemma FrameRoundTrip(cs: seq<AnnexB.Chunk>)
    requires AnnexB.NonEmpty(cs) && AnnexB.Unambiguous(cs) && Short(AnnexB.Units(cs))
    ensures Units(Avcc(Slices(AnnexB.Scan(AnnexB.Stream(cs), -1, 0)))) == Some(Slices(AnnexB.Units(cs)))
  {
    AnnexB.SplitInvertsJoin(cs);
    SlicesShort(AnnexB.Units(cs));
    UnitsOfAvcc(Slices(AnnexB.Units(cs)));
  }

  lemma {:induction false} SlicesShort(units: seq<seq<byte>>)
    requires Short(units)
    ensures Short(Slices(units))
  {
    if units != [] {
      assert Short(units[1..]);
      SlicesShort(units[1..]);
      assert units[0] in units;
    }
  }

  /** frameCrop of a key frame: the crop of the first parameter set in it. */
  function FrameCrop(frame: seq<byte>): Option<H264Crop.Crop> {
    match FirstOf(AnnexB.Scan(frame, -1, 0), 7)
    case Some(u) => H264Crop.CropOf(u)
    case None => None
  }

  lemma {:induction false} FirstOfIs(units: seq<seq<byte>>, k: nat, t: nat)
    requires k < |units| && UnitType(units[k]) == t && forall i | 0 <= i < k :: UnitType(units[i]) != t
    ensures FirstOf(units, t) == Some(units[k])
  {
    if k > 0 { FirstOfIs(units[1..], k - 1, t); }
  }

  /** A parameter set written into a stream, however its neighbours are delimited, is the one whose picture is used. */
  lemma CropOfStream(cs: seq<AnnexB.Chunk>, k: nat, header: byte, x: Sps.Sps, suffix: BitStrings.bits)
    requires AnnexB.NonEmpty(cs) && AnnexB.Unambiguous(cs) && k < |cs|
    requires forall i | 0 <= i < k :: UnitType(cs[i].unit) != 7
    requires header % 32 == 7 && H264Crop.Profile(x.head.profile) && Sps.SpsOk(x)
    requires (|Sps.SpsBits(x)| + |suffix|) % 8 == 0 && cs[k].unit == H264Crop.UnitOf(header, x, suffix)
    ensures FrameCrop(AnnexB.Stream(cs)) ==
      var p := H264Crop.PictureOf(x);
      if H264Crop.Displayable(p) then Some(p) else None
  {
    AnnexB.SplitInvertsJoin(cs);
    var units := AnnexB.Units(cs);
    forall i | 0 <= i <= k ensures units[i] == cs[i].unit { AnnexB.UnitsIndex(cs, i); }
    FirstOfIs(units, k, 7);
    H264Crop.ReadsWhatIsWritten(header, x, suffix);
  }
}
