/** The sequence parameter set of ITU-T H.264: its syntax (section 7.3.2.1.1), the escaping
    of section 7.3.1, and the reader that takes the picture size and cropping out of it. */
module Sps {
  import opened JsNumbers
  import opened BitStrings
  import AnnexB

  // ---------------------------------------------------------------- emulation prevention

  /** Writer: 03 before a byte up to 03 that follows two zero bytes; zeros counts the zero bytes just written. */
  function EscapeFrom(r: seq<byte>, zeros: nat): seq<byte> {
    if r == [] then []
    else if zeros >= 2 && r[0] <= 3 then [3] + EscapeFrom(r, 0)
    else [r[0]] + EscapeFrom(r[1..], if r[0] == 0 then zeros + 1 else 0)
  }

  function Escape(r: seq<byte>): seq<byte> {
    EscapeFrom(r, 0)
  }

  predicate IsEmulationByte(nalu: seq<byte>, i: nat)
    requires i < |nalu|
  {
    i > 2 && nalu[i] == 3 && nalu[i - 1] == 0 && nalu[i - 2] == 0
  }

  /** The payload bytes from position i on, without the emulation prevention bytes. */
  function UnescapeFrom(nalu: seq<byte>, i: nat): seq<byte>
    decreases |nalu| - i
  {
    if i >= |nalu| then []
    else (if IsEmulationByte(nalu, i) then [] else [nalu[i]]) + UnescapeFrom(nalu, i + 1)
  }

  /** The writer has reached position i of the unit, with r left to write. */
  ghost predicate Writing(nalu: seq<byte>, i: nat, r: seq<byte>, zeros: nat) {
    && 1 <= i <= |nalu| && nalu[i..] == EscapeFrom(r, zeros)
    && nalu[0] != 0
    && (zeros >= 1 <==> i > 1 && nalu[i - 1] == 0)
    && (zeros >= 2 <==> i > 2 && nalu[i - 1] == 0 && nalu[i - 2] == 0)
  }

  /** One written byte; the flag says whether it was an emulation prevention byte. */
  lemma WritingStep(nalu: seq<byte>, i: nat, r: seq<byte>, zeros: nat) returns (r': seq<byte>, zeros': nat)
    requires Writing(nalu, i, r, zeros) && r != []
    ensures i < |nalu| && Writing(nalu, i + 1, r', zeros')
    ensures IsEmulationByte(nalu, i) ==> r' == r && zeros' == 0 < zeros
    ensures !IsEmulationByte(nalu, i) ==> r == [nalu[i]] + r'
    ensures i < 2 || !AnnexB.PrefixAt(nalu, i - 2)
  {
    assert nalu[i] == nalu[i..][0] && nalu[i + 1..] == nalu[i..][1..];
    if zeros >= 2 && r[0] <= 3 {
      r', zeros' := r, 0;
    } else {
      r', zeros' := r[1..], if r[0] == 0 then zeros + 1 else 0;
    }
  }

  lemma {:induction false} UnescapeWriting(nalu: seq<byte>, i: nat, r: seq<byte>, zeros: nat)
    requires Writing(nalu, i, r, zeros)
    ensures UnescapeFrom(nalu, i) == r
    decreases |nalu| - i
  {
    hide AnnexB.PrefixAt;
    if r != [] {
      var r', zeros' := WritingStep(nalu, i, r, zeros);
      UnescapeWriting(nalu, i + 1, r', zeros');
    }
  }

  lemma {:induction false} CleanWriting(nalu: seq<byte>, i: nat, r: seq<byte>, zeros: nat)
    requires Writing(nalu, i, r, zeros)
    ensures forall j: nat | j + 2 >= i :: !AnnexB.PrefixAt(nalu, j)
    ensures r != [] ==> nalu[|nalu| - 1] == r[|r| - 1]
    decreases |nalu| - i
  {
    if r != [] {
      var r', zeros' := WritingStep(nalu, i, r, zeros);
      CleanWriting(nalu, i + 1, r', zeros');
      if r' == [] { assert nalu[i + 1..] == []; }
    }
  }

  /** Removing the emulation prevention bytes gives back every payload; the escaped unit is Annex B clean. */
  lemma UnescapeEscape(header: byte, r: seq<byte>)
    requires header != 0
    ensures UnescapeFrom([header] + Escape(r), 1) == r
    ensures AnnexB.Clean([header] + Escape(r))
    ensures r != [] ==> ([header] + Escape(r))[|Escape(r)|] == r[|r| - 1]
  {
    var nalu := [header] + Escape(r);
    assert nalu[1..] == Escape(r);
    UnescapeWriting(nalu, 1, r, 0);
    CleanWriting(nalu, 1, r, 0);
  }

  // ---------------------------------------------------------------- the syntax

  /** Values of se(v) elements stand by their code number (section 9.1.1). */
  datatype PicOrder =
    | Lsb(log2MaxLsbMinus4: nat)
    | Cycle(deltaAlwaysZero: bool, offsetNonRef: nat, offsetTopBottom: nat, refFrames: seq<nat>)
    | OutputOrder

  datatype Cropping = Uncropped | Cropped(left: nat, right: nat, top: nat, bottom: nat)

  datatype Head = Head(profile: byte, constraints: byte, level: byte, id: nat, log2MaxFrameNumMinus4: nat)

  datatype Flags = Flags(frameMbsOnly: bool, mbAdaptive: bool, direct8x8: bool)

  datatype Frame = Frame(maxRefFrames: nat, gapsAllowed: bool, widthMbsMinus1: nat, heightUnitsMinus1: nat,
                         flags: Flags)

  datatype Sps = Sps(head: Head, order: PicOrder, frame: Frame, cropping: Cropping)

  function HeadBits(h: Head): bits {
    UBits(h.profile, 8)
    + (UBits(h.constraints, 8) + (UBits(h.level, 8) + (UeBits(h.id) + UeBits(h.log2MaxFrameNumMinus4))))
  }

  function OrderBits(o: PicOrder): bits {
    match o
    case Lsb(n) => UeBits(0) + UeBits(n)
    case Cycle(z, nonRef, topBottom, frames) =>
      UeBits(1) + ([z] + (UeBits(nonRef) + (UeBits(topBottom) + (UeBits(|frames|) + UeList(frames)))))
    case OutputOrder => UeBits(2)
  }

  function FlagBits(f: Flags): bits {
    if f.frameMbsOnly then [true] + [f.direct8x8] else [false] + ([f.mbAdaptive] + [f.direct8x8])
  }

  function FrameBits(f: Frame): bits {
    UeBits(f.maxRefFrames)
    + ([f.gapsAllowed] + (UeBits(f.widthMbsMinus1) + (UeBits(f.heightUnitsMinus1) + FlagBits(f.flags))))
  }

  function CroppingBits(c: Cropping): bits {
    match c
    case Uncropped => [false]
    case Cropped(l, r, t, b) => [true] + (UeBits(l) + (UeBits(r) + (UeBits(t) + UeBits(b))))
  }

  /** seq_parameter_set_data up to the cropping, for the profiles without chroma_format_idc. */
  function SpsBits(s: Sps): bits {
    HeadBits(s.head) + (OrderBits(s.order) + (FrameBits(s.frame) + CroppingBits(s.cropping)))
  }

  predicate Small(v: nat) { v < 0x7fff_ffff }

  predicate OrderOk(o: PicOrder) {
    match o
    case Lsb(n) => Small(n)
    case Cycle(_, a, b, frames) => Small(a) && Small(b) && |frames| <= 255 && CodeNumbers(frames)
    case OutputOrder => true
  }

  predicate FrameOk(f: Frame) {
    Small(f.maxRefFrames) && Small(f.widthMbsMinus1) && Small(f.heightUnitsMinus1)
    && (f.flags.frameMbsOnly ==> !f.flags.mbAdaptive)
  }

  predicate CroppingOk(c: Cropping) {
    c.Cropped? ==> Small(c.left) && Small(c.right) && Small(c.top) && Small(c.bottom)
  }

  /** Code numbers in range, and the fields that are not present at their inferred value. */
  predicate SpsOk(s: Sps) {
    Small(s.head.id) && Small(s.head.log2MaxFrameNumMinus4)
    && OrderOk(s.order) && FrameOk(s.frame) && CroppingOk(s.cropping)
  }

  // ---------------------------------------------------------------- reading it

  function ReadHead(s: bits, p: nat): Parse<Head> {
    var (profile, p1) :- ReadU(s, p, 8);
    var (constraints, p2) :- ReadU(s, p1, 8);
    var (level, p3) :- ReadU(s, p2, 8);
    var (id, p4) :- ReadUe(s, p3);
    var (frameNum, p5) :- ReadUe(s, p4);
    Pow2Of32();
    Done(Head(profile, constraints, level, id, frameNum), p5)
  }

  function ReadOrder(s: bits, p: nat): Parse<PicOrder> {
    var (order, p1) :- ReadUe(s, p);
    if order == 0 then
      var (n, p2) :- ReadUe(s, p1);
      Done(Lsb(n), p2)
    else if order == 1 then
      var (zero, p2) :- ReadFlag(s, p1);
      var (nonRef, p3) :- ReadUe(s, p2);
      var (topBottom, p4) :- ReadUe(s, p3);
      var (count, p5) :- ReadUe(s, p4);
      if count > 255 then Fail
      else
        var (frames, p6) :- ReadUeList(s, p5, count);
        Done(Cycle(zero, nonRef, topBottom, frames), p6)
    else if order == 2 then Done(OutputOrder, p1)
    else Fail
  }

  function ReadFlags(s: bits, p: nat): Parse<Flags> {
    var (frameOnly, p1) :- ReadFlag(s, p);
    if frameOnly then
      var (direct, p2) :- ReadFlag(s, p1);
      Done(Flags(true, false, direct), p2)
    else
      var (adaptive, p2) :- ReadFlag(s, p1);
      var (direct, p3) :- ReadFlag(s, p2);
      Done(Flags(false, adaptive, direct), p3)
  }

  function ReadFrame(s: bits, p: nat): Parse<Frame> {
    var (maxRef, p1) :- ReadUe(s, p);
    var (gaps, p2) :- ReadFlag(s, p1);
    var (width, p3) :- ReadUe(s, p2);
    var (height, p4) :- ReadUe(s, p3);
    var (flags, p5) :- ReadFlags(s, p4);
    Done(Frame(maxRef, gaps, width, height, flags), p5)
  }

  function ReadCropping(s: bits, p: nat): Parse<Cropping> {
    var (flag, p1) :- ReadFlag(s, p);
    if !flag then Done(Uncropped, p1)
    else
      var (l, p2) :- ReadUe(s, p1);
      var (r, p3) :- ReadUe(s, p2);
      var (t, p4) :- ReadUe(s, p3);
      var (b, p5) :- ReadUe(s, p4);
      Done(Cropped(l, r, t, b), p5)
  }

  function ReadSps(s: bits): Parse<Sps> {
    var (head, p1) :- ReadHead(s, 0);
    var (order, p2) :- ReadOrder(s, p1);
    var (frame, p3) :- ReadFrame(s, p2);
    var (cropping, p4) :- ReadCropping(s, p3);
    Done(Sps(head, order, frame, cropping), p4)
  }

  // ---------------------------------------------------------------- the reader accepts exactly what the writer writes

  lemma UeComplete(s: bits, p: nat, v: nat, rest: bits)
    requires StandsAt(s, p, UeBits(v) + rest) && Small(v)
    ensures ReadUe(s, p) == Done(v, p + |UeBits(v)|) && StandsAt(s, p + |UeBits(v)|, rest)
  {
    StandsConcat(s, p, UeBits(v), rest);
    ReadUeExact(s, p, v, p + |UeBits(v)|);
  }

  lemma UeCompleteLast(s: bits, p: nat, v: nat)
    requires StandsAt(s, p, UeBits(v)) && Small(v)
    ensures ReadUe(s, p) == Done(v, p + |UeBits(v)|)
  {
    ReadUeExact(s, p, v, p + |UeBits(v)|);
  }

  lemma ByteComplete(s: bits, p: nat, v: byte, rest: bits)
    requires StandsAt(s, p, UBits(v, 8) + rest)
    ensures ReadU(s, p, 8) == Done(v, p + 8) && StandsAt(s, p + 8, rest)
  {
    Pow2Of32();
    StandsConcat(s, p, UBits(v, 8), rest);
    ReadUExact(s, p, 8, v);
  }

  lemma FlagComplete(s: bits, p: nat, b: bool, rest: bits)
    requires StandsAt(s, p, [b] + rest)
    ensures ReadFlag(s, p) == Done(b, p + 1) && StandsAt(s, p + 1, rest)
  {
    StandsConcat(s, p, [b], rest);
    ReadFlagExact(s, p, b);
  }

  lemma HeadComplete(s: bits, p: nat, h: Head)
    requires StandsAt(s, p, HeadBits(h)) && Small(h.id) && Small(h.log2MaxFrameNumMinus4)
    ensures ReadHead(s, p) == Done(h, p + |HeadBits(h)|)
  {
    hide UeBits, UBits, ReadU, ReadUe, StandsAt;
    var r4 := UeBits(h.id) + UeBits(h.log2MaxFrameNumMinus4);
    var r3 := UBits(h.level, 8) + r4;
    ByteComplete(s, p, h.profile, UBits(h.constraints, 8) + r3);
    ByteComplete(s, p + 8, h.constraints, r3);
    ByteComplete(s, p + 16, h.level, r4);
    UeComplete(s, p + 24, h.id, UeBits(h.log2MaxFrameNumMinus4));
    UeCompleteLast(s, p + 24 + |UeBits(h.id)|, h.log2MaxFrameNumMinus4);
  }

  lemma OrderComplete(s: bits, p: nat, o: PicOrder)
    requires StandsAt(s, p, OrderBits(o)) && OrderOk(o)
    ensures ReadOrder(s, p) == Done(o, p + |OrderBits(o)|)
  {
    hide UeBits, ReadUe, StandsAt, UeList, ReadUeList, ReadFlag;
    match o
    case Lsb(n) =>
      UeComplete(s, p, 0, UeBits(n));
      UeCompleteLast(s, p + |UeBits(0)|, n);
    case OutputOrder =>
      UeCompleteLast(s, p, 2);
    case Cycle(_, _, _, _) =>
      CycleComplete(s, p, o);
  }

  lemma CycleComplete(s: bits, p: nat, o: PicOrder)
    requires StandsAt(s, p, OrderBits(o)) && OrderOk(o) && o.Cycle?
    ensures ReadOrder(s, p) == Done(o, p + |OrderBits(o)|)
  {
    hide UeBits, ReadUe, StandsAt, UeList, ReadUeList, ReadFlag;
    var r2 := UeBits(o.offsetNonRef) + (UeBits(o.offsetTopBottom) + (UeBits(|o.refFrames|) + UeList(o.refFrames)));
    UeComplete(s, p, 1, [o.deltaAlwaysZero] + r2);
    FlagComplete(s, p + |UeBits(1)|, o.deltaAlwaysZero, r2);
    OffsetsComplete(s, p + |UeBits(1)| + 1, o.offsetNonRef, o.offsetTopBottom, o.refFrames);
  }

  lemma OffsetsComplete(s: bits, p: nat, nonRef: nat, topBottom: nat, frames: seq<nat>)
    requires StandsAt(s, p, UeBits(nonRef) + (UeBits(topBottom) + (UeBits(|frames|) + UeList(frames))))
    requires Small(nonRef) && Small(topBottom) && Small(|frames|) && CodeNumbers(frames)
    ensures
      var p1 := p + |UeBits(nonRef)|;
      var p2 := p1 + |UeBits(topBottom)|;
      var p3 := p2 + |UeBits(|frames|)|;
      && ReadUe(s, p) == Done(nonRef, p1) && ReadUe(s, p1) == Done(topBottom, p2) && ReadUe(s, p2) == Done(|frames|, p3)
      && ReadUeList(s, p3, |frames|) == Done(frames, p3 + |UeList(frames)|)
  {
    hide *;
    var p1 := p + |UeBits(nonRef)|;
    var p2 := p1 + |UeBits(topBottom)|;
    var p3 := p2 + |UeBits(|frames|)|;
    UeComplete(s, p, nonRef, UeBits(topBottom) + (UeBits(|frames|) + UeList(frames)));
    UeComplete(s, p1, topBottom, UeBits(|frames|) + UeList(frames));
    UeComplete(s, p2, |frames|, UeList(frames));
    StandsInside(s, p3, UeList(frames));
    ReadUeListExact(s, p3, frames, p3 + |UeList(frames)|);
  }

  lemma StandsInside(s: bits, p: nat, w: bits)
    requires StandsAt(s, p, w)
    ensures p <= |s|
  {
  }

  lemma FlagsComplete(s: bits, p: nat, f: Flags)
    requires StandsAt(s, p, FlagBits(f)) && (f.frameMbsOnly ==> !f.mbAdaptive)
    ensures ReadFlags(s, p) == Done(f, p + |FlagBits(f)|)
  {
    hide StandsAt, ReadFlag;
    var last := [f.direct8x8];
    assert last == last + [];
    if f.frameMbsOnly {
      FlagComplete(s, p, true, last);
      FlagComplete(s, p + 1, f.direct8x8, []);
    } else {
      FlagComplete(s, p, false, [f.mbAdaptive] + last);
      FlagComplete(s, p + 1, f.mbAdaptive, last);
      FlagComplete(s, p + 2, f.direct8x8, []);
    }
  }

  lemma FrameComplete(s: bits, p: nat, f: Frame)
    requires StandsAt(s, p, FrameBits(f)) && FrameOk(f)
    ensures ReadFrame(s, p) == Done(f, p + |FrameBits(f)|)
  {
    hide UeBits, ReadUe, StandsAt, ReadFlag, FlagBits, ReadFlags;
    var r3 := UeBits(f.heightUnitsMinus1) + FlagBits(f.flags);
    var r2 := UeBits(f.widthMbsMinus1) + r3;
    UeComplete(s, p, f.maxRefFrames, [f.gapsAllowed] + r2);
    var p1 := p + |UeBits(f.maxRefFrames)|;
    FlagComplete(s, p1, f.gapsAllowed, r2);
    UeComplete(s, p1 + 1, f.widthMbsMinus1, r3);
    var p3 := p1 + 1 + |UeBits(f.widthMbsMinus1)|;
    UeComplete(s, p3, f.heightUnitsMinus1, FlagBits(f.flags));
    FlagsComplete(s, p3 + |UeBits(f.heightUnitsMinus1)|, f.flags);
  }

  lemma CroppingComplete(s: bits, p: nat, c: Cropping)
    requires StandsAt(s, p, CroppingBits(c)) && CroppingOk(c)
    ensures ReadCropping(s, p) == Done(c, p + |CroppingBits(c)|)
  {
    hide UeBits, ReadUe, StandsAt, ReadFlag;
    match c
    case Uncropped =>
      assert [false] == [false] + [];
      FlagComplete(s, p, false, []);
    case Cropped(l, r, t, b) =>
      CroppedComplete(s, p, l, r, t, b);
  }

  lemma CroppedComplete(s: bits, p: nat, l: nat, r: nat, t: nat, b: nat)
    requires var c := Cropped(l, r, t, b); StandsAt(s, p, CroppingBits(c)) && CroppingOk(c)
    ensures var c := Cropped(l, r, t, b); ReadCropping(s, p) == Done(c, p + |CroppingBits(c)|)
  {
    hide UeBits, ReadUe, StandsAt, ReadFlag;
    FlagComplete(s, p, true, UeBits(l) + (UeBits(r) + (UeBits(t) + UeBits(b))));
    EdgesComplete(s, p + 1, l, r, t, b);
  }

  lemma EdgesComplete(s: bits, p: nat, l: nat, r: nat, t: nat, b: nat)
    requires StandsAt(s, p, UeBits(l) + (UeBits(r) + (UeBits(t) + UeBits(b))))
    requires Small(l) && Small(r) && Small(t) && Small(b)
    ensures
      var p1 := p + |UeBits(l)|;
      var p2 := p1 + |UeBits(r)|;
      var p3 := p2 + |UeBits(t)|;
      && ReadUe(s, p) == Done(l, p1) && ReadUe(s, p1) == Done(r, p2)
      && ReadUe(s, p2) == Done(t, p3) && ReadUe(s, p3) == Done(b, p3 + |UeBits(b)|)
  {
    hide *;
    var p1 := p + |UeBits(l)|;
    var p2 := p1 + |UeBits(r)|;
    UeComplete(s, p, l, UeBits(r) + (UeBits(t) + UeBits(b)));
    UeComplete(s, p1, r, UeBits(t) + UeBits(b));
    UeComplete(s, p2, t, UeBits(b));
    UeCompleteLast(s, p2 + |UeBits(t)|, b);
  }

  lemma SpsComplete(s: bits, x: Sps)
    requires StandsAt(s, 0, SpsBits(x)) && SpsOk(x)
    ensures ReadSps(s) == Done(x, |SpsBits(x)|)
  {
    hide HeadBits, OrderBits, FrameBits, CroppingBits, ReadHead, ReadOrder, ReadFrame, ReadCropping, StandsAt;
    var r2 := FrameBits(x.frame) + CroppingBits(x.cropping);
    var r1 := OrderBits(x.order) + r2;
    StandsConcat(s, 0, HeadBits(x.head), r1);
    HeadComplete(s, 0, x.head);
    var p1 := |HeadBits(x.head)|;
    StandsConcat(s, p1, OrderBits(x.order), r2);
    OrderComplete(s, p1, x.order);
    var p2 := p1 + |OrderBits(x.order)|;
    StandsConcat(s, p2, FrameBits(x.frame), CroppingBits(x.cropping));
    FrameComplete(s, p2, x.frame);
    CroppingComplete(s, p2 + |FrameBits(x.frame)|, x.cropping);
  }

  lemma UeSound(s: bits, p: nat, rest: bits)
    requires ReadUe(s, p).Done? && StandsAt(s, ReadUe(s, p).pos, rest)
    ensures var r := ReadUe(s, p);
      Small(r.value) && r.pos == p + |UeBits(r.value)| && StandsAt(s, p, UeBits(r.value) + rest)
  {
    var r := ReadUe(s, p);
    ReadUeExact(s, p, r.value, r.pos);
    StandsConcat(s, p, UeBits(r.value), rest);
  }

  lemma UeInside(s: bits, p: nat)
    requires ReadUe(s, p).Done?
    ensures ReadUe(s, p).pos <= |s|
  {
    ReadUeExact(s, p, ReadUe(s, p).value, ReadUe(s, p).pos);
  }

  lemma ByteSound(s: bits, p: nat, rest: bits)
    requires ReadU(s, p, 8).Done? && StandsAt(s, p + 8, rest)
    ensures var v := ReadU(s, p, 8).value; v < 256 && StandsAt(s, p, UBits(v, 8) + rest)
  {
    hide UBits, Value;
    Pow2Of32();
    var v := ReadU(s, p, 8).value;
    ReadUExact(s, p, 8, v);
    StandsConcat(s, p, UBits(v, 8), rest);
  }

  lemma FlagSound(s: bits, p: nat, rest: bits)
    requires ReadFlag(s, p).Done? && StandsAt(s, ReadFlag(s, p).pos, rest)
    ensures var r := ReadFlag(s, p); r.pos == p + 1 && StandsAt(s, p, [r.value] + rest)
  {
    ReadFlagExact(s, p, ReadFlag(s, p).value);
    StandsConcat(s, p, [ReadFlag(s, p).value], rest);
  }

  lemma HeadSound(s: bits, p: nat, rest: bits)
    requires ReadHead(s, p).Done? && StandsAt(s, ReadHead(s, p).pos, rest)
    ensures var r := ReadHead(s, p);
      StandsAt(s, p, HeadBits(r.value) + rest)
      && r.pos == p + |HeadBits(r.value)| && Small(r.value.id) && Small(r.value.log2MaxFrameNumMinus4)
  {
    hide UeBits, UBits, ReadUe, StandsAt, Value;
    var h := ReadHead(s, p).value;
    var p4 := ReadUe(s, p + 24).pos;
    UeSound(s, p4, rest);
    UeSound(s, p + 24, UeBits(h.log2MaxFrameNumMinus4) + rest);
    var r4 := UeBits(h.id) + (UeBits(h.log2MaxFrameNumMinus4) + rest);
    ByteSound(s, p + 16, r4);
    ByteSound(s, p + 8, UBits(h.level, 8) + r4);
    ByteSound(s, p, UBits(h.constraints, 8) + (UBits(h.level, 8) + r4));
    assert HeadBits(h) + rest == UBits(h.profile, 8) + (UBits(h.constraints, 8) + (UBits(h.level, 8) + r4));
  }

  lemma OrderSound(s: bits, p: nat, rest: bits)
    requires ReadOrder(s, p).Done? && StandsAt(s, ReadOrder(s, p).pos, rest)
    ensures var r := ReadOrder(s, p);
      StandsAt(s, p, OrderBits(r.value) + rest)
      && r.pos == p + |OrderBits(r.value)| && OrderOk(r.value)
  {
    hide UeBits, ReadUe, StandsAt, UeList, ReadUeList, ReadFlag;
    var o := ReadOrder(s, p).value;
    var p1 := ReadUe(s, p).pos;
    match o
    case Lsb(n) =>
      UeSound(s, p1, rest);
      UeSound(s, p, UeBits(n) + rest);
      assert OrderBits(o) + rest == UeBits(0) + (UeBits(n) + rest);
    case OutputOrder =>
      UeSound(s, p, rest);
    case Cycle(z, nonRef, topBottom, frames) =>
      CycleSound(s, p, rest);
  }

  lemma CycleSound(s: bits, p: nat, rest: bits)
    requires ReadOrder(s, p).Done? && StandsAt(s, ReadOrder(s, p).pos, rest) && ReadOrder(s, p).value.Cycle?
    ensures var r := ReadOrder(s, p);
      StandsAt(s, p, OrderBits(r.value) + rest)
      && r.pos == p + |OrderBits(r.value)| && OrderOk(r.value)
  {
    hide UeBits, ReadUe, StandsAt, UeList, ReadUeList, ReadFlag;
    var o := ReadOrder(s, p).value;
    var p1 := ReadUe(s, p).pos;
    var p2 := ReadFlag(s, p1).pos;
    var p3 := ReadUe(s, p2).pos;
    var p4 := ReadUe(s, p3).pos;
    var p5 := ReadUe(s, p4).pos;
    var n := ReadUe(s, p4).value;
    var r := ReadUeList(s, p5, n);
    OffsetsSound(s, p2, p3, p4, p5, n, r.pos, rest);
    var t1 := UeBits(o.offsetNonRef) + (UeBits(o.offsetTopBottom) + (UeBits(n) + (UeList(o.refFrames) + rest)));
    FlagSound(s, p1, t1);
    UeSound(s, p, [o.deltaAlwaysZero] + t1);
    assert OrderBits(o) + rest == UeBits(1) + ([o.deltaAlwaysZero] + t1);
  }

  lemma OffsetsSound(s: bits, p2: nat, p3: nat, p4: nat, p5: nat, n: nat, p6: nat, rest: bits)
    requires ReadUe(s, p2).Done? && ReadUe(s, p2).pos == p3 && ReadUe(s, p3).Done? && ReadUe(s, p3).pos == p4
    requires ReadUe(s, p4) == Done(n, p5) && ReadUeList(s, p5, n).Done? && ReadUeList(s, p5, n).pos == p6
    requires StandsAt(s, p6, rest)
    ensures
      var a, b, frames := ReadUe(s, p2).value, ReadUe(s, p3).value, ReadUeList(s, p5, n).value;
      && StandsAt(s, p2, UeBits(a) + (UeBits(b) + (UeBits(n) + (UeList(frames) + rest))))
      && |frames| == n && Small(a) && Small(b) && CodeNumbers(frames)
      && p6 == p2 + |UeBits(a)| + |UeBits(b)| + |UeBits(n)| + |UeList(frames)|
  {
    hide *;
    UeInside(s, p4);
    ListSound(s, p5, n, rest);
    var t4 := UeList(ReadUeList(s, p5, n).value) + rest;
    UeSound(s, p4, t4);
    UeSound(s, p3, UeBits(n) + t4);
    UeSound(s, p2, UeBits(ReadUe(s, p3).value) + (UeBits(n) + t4));
  }

  lemma ListSound(s: bits, p: nat, n: nat, rest: bits)
    requires ReadUeList(s, p, n).Done? && StandsAt(s, ReadUeList(s, p, n).pos, rest) && p <= |s|
    ensures var r := ReadUeList(s, p, n);
      |r.value| == n && CodeNumbers(r.value)
      && r.pos == p + |UeList(r.value)| && StandsAt(s, p, UeList(r.value) + rest)
  {
    var r := ReadUeList(s, p, n);
    ListLength(s, p, n);
    ReadUeListExact(s, p, r.value, r.pos);
    StandsConcat(s, p, UeList(r.value), rest);
  }

  lemma {:induction false} ListLength(s: bits, p: nat, n: nat)
    requires ReadUeList(s, p, n).Done?
    ensures |ReadUeList(s, p, n).value| == n
    decreases n
  {
    if n > 0 { ListLength(s, ReadUe(s, p).pos, n - 1); }
  }

  lemma FlagsSound(s: bits, p: nat, rest: bits)
    requires ReadFlags(s, p).Done? && StandsAt(s, ReadFlags(s, p).pos, rest)
    ensures var r := ReadFlags(s, p);
      StandsAt(s, p, FlagBits(r.value) + rest)
      && r.pos == p + |FlagBits(r.value)| && (r.value.frameMbsOnly ==> !r.value.mbAdaptive)
  {
    hide StandsAt, ReadFlag;
    var f := ReadFlags(s, p).value;
    var p1 := ReadFlag(s, p).pos;
    if f.frameMbsOnly {
      TwoFlagsSound(s, p, rest);
      assert FlagBits(f) + rest == [true] + ([f.direct8x8] + rest);
    } else {
      TwoFlagsSound(s, p1, rest);
      FlagSound(s, p, [f.mbAdaptive] + ([f.direct8x8] + rest));
      assert FlagBits(f) + rest == [false] + ([f.mbAdaptive] + ([f.direct8x8] + rest));
    }
  }

  lemma TwoFlagsSound(s: bits, p: nat, rest: bits)
    requires ReadFlag(s, p).Done? && ReadFlag(s, ReadFlag(s, p).pos).Done?
    requires StandsAt(s, ReadFlag(s, ReadFlag(s, p).pos).pos, rest)
    ensures
      var r := ReadFlag(s, p);
      var q := ReadFlag(s, r.pos);
      r.pos == p + 1 && q.pos == p + 2 && StandsAt(s, p, [r.value] + ([q.value] + rest))
  {
    hide *;
    var r := ReadFlag(s, p);
    FlagSound(s, r.pos, rest);
    FlagSound(s, p, [ReadFlag(s, r.pos).value] + rest);
  }

  lemma FrameSound(s: bits, p: nat, rest: bits)
    requires ReadFrame(s, p).Done? && StandsAt(s, ReadFrame(s, p).pos, rest)
    ensures var r := ReadFrame(s, p);
      StandsAt(s, p, FrameBits(r.value) + rest)
      && r.pos == p + |FrameBits(r.value)| && FrameOk(r.value)
  {
    hide UeBits, ReadUe, StandsAt, ReadFlag, ReadFlags, FlagBits;
    var f := ReadFrame(s, p).value;
    var p1 := ReadUe(s, p).pos;
    var p2 := ReadFlag(s, p1).pos;
    var p3 := ReadUe(s, p2).pos;
    FlagsSound(s, ReadUe(s, p3).pos, rest);
    var t3 := FlagBits(f.flags) + rest;
    UeSound(s, p3, t3);
    UeSound(s, p2, UeBits(f.heightUnitsMinus1) + t3);
    var t1 := UeBits(f.widthMbsMinus1) + (UeBits(f.heightUnitsMinus1) + t3);
    FlagSound(s, p1, t1);
    UeSound(s, p, [f.gapsAllowed] + t1);
    assert FrameBits(f) + rest == UeBits(f.maxRefFrames) + ([f.gapsAllowed] + t1);
  }

  lemma CroppingSound(s: bits, p: nat, rest: bits)
    requires ReadCropping(s, p).Done? && StandsAt(s, ReadCropping(s, p).pos, rest)
    ensures var r := ReadCropping(s, p);
      StandsAt(s, p, CroppingBits(r.value) + rest)
      && r.pos == p + |CroppingBits(r.value)| && CroppingOk(r.value)
  {
    hide UeBits, ReadUe, StandsAt;
    var c := ReadCropping(s, p).value;
    match c
    case Uncropped =>
      FlagSound(s, p, rest);
    case Cropped(l, r, t, b) =>
      var p2 := ReadUe(s, p + 1).pos;
      var p3 := ReadUe(s, p2).pos;
      var p4 := ReadUe(s, p3).pos;
      UeSound(s, p4, rest);
      UeSound(s, p3, UeBits(b) + rest);
      UeSound(s, p2, UeBits(t) + (UeBits(b) + rest));
      var w := UeBits(r) + (UeBits(t) + (UeBits(b) + rest));
      UeSound(s, p + 1, w);
      FlagSound(s, p, UeBits(l) + w);
      assert CroppingBits(c) + rest == [true] + (UeBits(l) + w);
  }

  lemma SpsSound(s: bits)
    requires ReadSps(s).Done?
    ensures var r := ReadSps(s); SpsOk(r.value) && StandsAt(s, 0, SpsBits(r.value)) && r.pos == |SpsBits(r.value)|
  {
    hide HeadBits, OrderBits, FrameBits, CroppingBits, ReadHead, ReadOrder, ReadFrame, ReadCropping, StandsAt;
    var x := ReadSps(s).value;
    var p1 := ReadHead(s, 0).pos;
    var p2 := ReadOrder(s, p1).pos;
    var p3 := ReadFrame(s, p2).pos;
    CroppingInside(s, p3);
    CroppingSound(s, p3, []);
    var c := CroppingBits(x.cropping);
    assert c + [] == c;
    FrameSound(s, p2, c);
    OrderSound(s, p1, FrameBits(x.frame) + c);
    HeadSound(s, 0, OrderBits(x.order) + (FrameBits(x.frame) + c));
  }

  lemma CroppingInside(s: bits, p: nat)
    requires ReadCropping(s, p).Done?
    ensures StandsAt(s, ReadCropping(s, p).pos, [])
  {
    hide UeBits;
    if ReadCropping(s, p).value.Cropped? {
      UeInside(s, ReadUe(s, ReadUe(s, ReadUe(s, p + 1).pos).pos).pos);
    }
  }

  /** The reader accepts exactly the bit strings that begin with a written parameter set, and returns that one. */
  lemma ReadSpsExact(s: bits, x: Sps)
    ensures ReadSps(s) == Done(x, |SpsBits(x)|) <==> SpsOk(x) && StandsAt(s, 0, SpsBits(x))
    ensures ReadSps(s).Done? <==> exists y: Sps :: SpsOk(y) && StandsAt(s, 0, SpsBits(y))
  {
    if ReadSps(s).Done? { SpsSound(s); }
    if SpsOk(x) && StandsAt(s, 0, SpsBits(x)) { SpsComplete(s, x); }
    if y: Sps :| SpsOk(y) && StandsAt(s, 0, SpsBits(y)) { SpsComplete(s, y); }
  }
}
