/** readH264Crop: coded size, displayed size and offset of a stream, from its parameter set. */
module H264Crop {
  import opened JsNumbers
  import opened BitStrings
  import opened Sps
  import opened Wrappers
  import AnnexB

  datatype Crop = Crop(codedWidth: nat, codedHeight: nat, width: int, height: int, left: nat, top: nat)

  // ---------------------------------------------------------------- the picture a parameter set describes

  /** Field pairs double the height units and the vertical cropping unit (section 7.4.2.1.1, 4:2:0). */
  function FieldFactor(x: Sps): nat { if x.frame.flags.frameMbsOnly then 1 else 2 }

  function PictureOf(x: Sps): Crop {
    var w := 16 * (x.frame.widthMbsMinus1 + 1);
    var h := 16 * FieldFactor(x) * (x.frame.heightUnitsMinus1 + 1);
    var unitY := 2 * FieldFactor(x);
    match x.cropping
    case Uncropped => Crop(w, h, w, h, 0, 0)
    case Cropped(l, r, t, b) => Crop(w, h, w - 2 * (l + r), h - unitY * (t + b), 2 * l, unitY * t)
  }

  predicate Displayable(c: Crop) {
    c.width > 0 && c.height > 0 && c.codedWidth <= 8192 && c.codedHeight <= 8192
  }

  function Payload(nalu: seq<byte>): bits {
    BitsOf(UnescapeFrom(nalu, 1))
  }

  predicate IsSpsUnit(nalu: seq<byte>) {
    |nalu| >= 2 && nalu[0] % 32 == 7 && nalu[1] in [66, 77, 88]
  }

  function CropOf(nalu: seq<byte>): Option<Crop> {
    if !IsSpsUnit(nalu) then None
    else
      match ReadSps(Payload(nalu))
      case Fail => None
      case Done(x, _) => if Displayable(PictureOf(x)) then Some(PictureOf(x)) else None
  }

  // ---------------------------------------------------------------- the bit cursor

  class SpsReader {
    const bytes: seq<byte>
    var bit: nat

    constructor (bytes: seq<byte>)
      ensures this.bytes == bytes && bit == 0
    {
      this.bytes := bytes;
      bit := 0;
    }

    /** read(count); None is the exception. */
    method Read(count: nat) returns (r: Option<nat>)
      modifies `bit
      ensures match ReadU(BitsOf(bytes), old(bit), count)
        case Fail => r == None
        case Done(v, p) => r == Some(v) && bit == p
    {
      if bit + count > |bytes| * 8 {
        return None;
      }
      ghost var s, p := BitsOf(bytes), bit;
      assert Value(s[p..p]) == 0;
      hide BitsOf, JsAnd, JsSar, Value;
      var result, i := 0, 0;
      while i < count
        invariant i <= count && bit == p + i && result == Value(s[p..p + i])
      {
        ValueAppend(s, p, i);
        CursorBit(bytes, bit);
        result := result * 2 + JsAnd(JsSar(bytes[bit / 8], 7 - bit % 8), 1);
        i, bit := i + 1, bit + 1;
      }
      r := Some(result);
    }

    method Ue() returns (r: Option<nat>)
      modifies `bit
      ensures match ReadUe(BitsOf(bytes), old(bit))
        case Fail => r == None
        case Done(v, p) => r == Some(v) && bit == p
    {
      ghost var s := BitsOf(bytes);
      var zeros := 0;
      while true
        invariant zeros <= 30 && ReadUeFrom(s, bit, zeros) == ReadUe(s, old(bit))
        decreases |s| - bit
      {
        ghost var p := bit;
        OneBit(s, p);
        var b := Read(1);
        if b.None? {
          return None;
        }
        if b.value != 0 {
          break;
        }
        zeros := zeros + 1;
        if zeros > 30 {
          return None;
        }
      }
      assert bit >= 1 && s[bit - 1] && ReadUeFrom(s, bit - 1, zeros) == ReadUe(s, old(bit));
      var low := Read(zeros);
      if low.None? {
        return None;
      }
      r := Some(Pow2(zeros) - 1 + low.value);
    }

    method Flag() returns (r: Option<bool>)
      modifies `bit
      ensures match ReadFlag(BitsOf(bytes), old(bit))
        case Fail => r == None
        case Done(v, p) => r == Some(v) && bit == p
    {
      var v := Read(1);
      r := if v.None? then None else Some(v.value == 1);
    }

    // The steps of the try block; false is an exception or `return null`.

    method SkipHead() returns (ok: bool)
      modifies `bit
      ensures match ReadHead(BitsOf(bytes), old(bit))
        case Fail => !ok
        case Done(_, p) => ok && bit == p
    {
      hide ReadUe, Value;
      ThreeBytes(BitsOf(bytes), bit);
      var v := Read(24);
      if v.None? { return false; }
      v := Ue(); // seq_parameter_set_id
      if v.None? { return false; }
      v := Ue(); // log2_max_frame_num_minus4
      ok := v.Some?;
    }

    method SkipOrder() returns (ok: bool)
      modifies `bit
      ensures match ReadOrder(BitsOf(bytes), old(bit))
        case Fail => !ok
        case Done(_, p) => ok && bit == p
    {
      hide ReadUe, ReadFlag;
      var order := Ue();
      if order.None? { return false; }
      if order.value == 0 {
        var v := Ue();
        return v.Some?;
      } else if order.value == 1 {
        var flag := Flag();
        if flag.None? { return false; }
        var v := Ue();
        if v.None? { return false; }
        v := Ue();
        if v.None? { return false; }
        var count := Ue();
        if count.None? || count.value > 255 { return false; }
        ok := SkipList(count.value);
      } else {
        return order.value == 2;
      }
    }

    method SkipList(count: nat) returns (ok: bool)
      modifies `bit
      ensures match ReadUeList(BitsOf(bytes), old(bit), count)
        case Fail => !ok
        case Done(_, p) => ok && bit == p
    {
      ghost var s := BitsOf(bytes);
      var i := 0;
      while i < count
        invariant i <= count
        invariant ReadUeList(s, old(bit), count).Fail? <==> ReadUeList(s, bit, count - i).Fail?
        invariant ReadUeList(s, bit, count - i).Done? ==>
          ReadUeList(s, old(bit), count).pos == ReadUeList(s, bit, count - i).pos
      {
        var v := Ue();
        if v.None? { return false; }
        i := i + 1;
      }
      ok := true;
    }

    method TakeFrame() returns (r: Option<Frame>)
      modifies `bit
      ensures match ReadFrame(BitsOf(bytes), old(bit))
        case Fail => r == None
        case Done(f, p) => r == Some(f) && bit == p
    {
      hide ReadUe, ReadFlag;
      var maxRef := Ue();
      if maxRef.None? { return None; }
      var gaps := Flag();
      if gaps.None? { return None; }
      var width := Ue();
      if width.None? { return None; }
      var height := Ue();
      if height.None? { return None; }
      var flags := TakeFlags();
      if flags.None? { return None; }
      r := Some(Frame(maxRef.value, gaps.value, width.value, height.value, flags.value));
    }

    method TakeFlags() returns (r: Option<Flags>)
      modifies `bit
      ensures match ReadFlags(BitsOf(bytes), old(bit))
        case Fail => r == None
        case Done(f, p) => r == Some(f) && bit == p
    {
      hide ReadFlag;
      var frameOnly := Flag();
      if frameOnly.None? { return None; }
      var adaptive := Some(false);
      if !frameOnly.value { adaptive := Flag(); }
      if adaptive.None? { return None; }
      var direct := Flag();
      if direct.None? { return None; }
      r := Some(Flags(frameOnly.value, adaptive.value, direct.value));
    }

    method TakeCropping() returns (r: Option<Cropping>)
      modifies `bit
      ensures match ReadCropping(BitsOf(bytes), old(bit))
        case Fail => r == None
        case Done(c, p) => r == Some(c) && bit == p
    {
      hide ReadUe, ReadFlag;
      var flag := Flag();
      if flag.None? { return None; }
      if !flag.value { return Some(Uncropped); }
      var left := Ue();
      if left.None? { return None; }
      var right := Ue();
      if right.None? { return None; }
      var top := Ue();
      if top.None? { return None; }
      var bottom := Ue();
      if bottom.None? { return None; }
      r := Some(Cropped(left.value, right.value, top.value, bottom.value));
    }
  }

  /** read(24) skips three bytes. */
  lemma ThreeBytes(s: bits, p: nat)
    ensures ReadU(s, p, 24).Fail? <==> ReadU(s, p, 8).Fail? || ReadU(s, p + 8, 8).Fail? || ReadU(s, p + 16, 8).Fail?
  {
  }

  lemma ValueAppend(s: bits, p: nat, i: nat)
    requires p + i < |s|
    ensures Value(s[p..p + i + 1]) == 2 * Value(s[p..p + i]) + Bit(s[p + i])
  {
    assert s[p..p + i + 1][..i] == s[p..p + i];
  }

  lemma CursorBit(bytes: seq<byte>, p: nat)
    requires p < 8 * |bytes|
    ensures JsAnd(JsSar(bytes[p / 8], 7 - p % 8), 1) == Bit(BitsOf(bytes)[p])
  {
    hide BitsOf, UBits, ShiftDown, JsAnd;
    var b, k := bytes[p / 8], p % 8;
    BitAt(bytes, p);
    BitByShift(b, 8, k);
    assert ToInt32(b) == b;
    AndOne(ShiftDown(b, 7 - k));
  }

  lemma AndOne(x: byte)
    ensures JsAnd(x, 1) == x % 2
  {
    hide Bitwise;
    assert Pow2(1) - 1 == 1;
    MaskLow(x, 1, 32);
    assert LowBits(x, 1) == x % 2 + 2 * LowBits(x / 2, 0);
  }

  lemma OneBit(s: bits, p: nat)
    ensures p >= |s| ==> ReadU(s, p, 1) == Fail
    ensures p < |s| ==> ReadU(s, p, 1) == Done(Bit(s[p]), p + 1)
  {
    if p < |s| {
      assert s[p..p + 1] == [s[p]];
      assert [s[p]][..0] == [];
    }
  }

  // ---------------------------------------------------------------- the reader

  method Unescape(nalu: seq<byte>) returns (bytes: seq<byte>)
    ensures bytes == UnescapeFrom(nalu, 1)
  {
    bytes := [];
    var i := 1;
    while i < |nalu|
      invariant 1 <= i && bytes + UnescapeFrom(nalu, i) == UnescapeFrom(nalu, 1)
    {
      if !(i > 2 && nalu[i] == 3 && nalu[i - 1] == 0 && nalu[i - 2] == 0) {
        bytes := bytes + [nalu[i]];
      }
      i := i + 1;
    }
  }

  method ReadH264Crop(nalu: seq<byte>) returns (crop: Option<Crop>)
    ensures crop == CropOf(nalu)
  {
    hide UnescapeFrom, BitsOf, JsAnd, ReadHead, ReadOrder, ReadFrame, ReadCropping, PictureOf, Displayable;
    if |nalu| == 0 {
      return None;
    }
    AndFive(nalu[0]);
    if JsAnd(nalu[0], 31) != 7 || |nalu| < 2 || nalu[1] !in [66, 77, 88] {
      return None;
    }
    var bytes := Unescape(nalu);
    var r := new SpsReader(bytes);
    var ok := r.SkipHead();
    if !ok { return None; }
    ok := r.SkipOrder();
    if !ok { return None; }
    var frame := r.TakeFrame();
    if frame.None? { return None; }
    var cropping := r.TakeCropping();
    if cropping.None? { return None; }
    crop := Measure(frame.value, cropping.value, ReadSps(Payload(nalu)).value);
  }

  /** The last lines of the reader: the rectangle of a frame and its cropping. */
  method Measure(frame: Frame, cropping: Cropping, ghost x: Sps) returns (crop: Option<Crop>)
    requires x.frame == frame && x.cropping == cropping
    ensures crop == if Displayable(PictureOf(x)) then Some(PictureOf(x)) else None
  {
    var factor := 2 - (if frame.flags.frameMbsOnly then 1 else 0);
    var codedWidth := (frame.widthMbsMinus1 + 1) * 16;
    var codedHeight := (frame.heightUnitsMinus1 + 1) * factor * 16;
    var left, right, top, bottom := 0, 0, 0, 0;
    if cropping.Cropped? {
      left, right := cropping.left * 2, cropping.right * 2;
      top, bottom := cropping.top * 2 * factor, cropping.bottom * 2 * factor;
    }
    var width, height := codedWidth - left - right, codedHeight - top - bottom;
    if width <= 0 || height <= 0 || codedWidth > 8192 || codedHeight > 8192 {
      return None;
    }
    crop := Some(Crop(codedWidth, codedHeight, width, height, left, top));
  }

  // ---------------------------------------------------------------- round trip

  predicate Profile(p: byte) { p in [66, 77, 88] }

  /** A unit carrying the parameter set x and then any further bits. */
  function UnitOf(header: byte, x: Sps, suffix: bits): seq<byte>
    requires (|SpsBits(x)| + |suffix|) % 8 == 0
  {
    [header] + Escape(Pack(SpsBits(x) + suffix))
  }

  lemma {:induction false} PackHead(x: Sps, suffix: bits)
    requires (|SpsBits(x)| + |suffix|) % 8 == 0
    ensures var r := Pack(SpsBits(x) + suffix); r != [] && r[0] == x.head.profile
  {
    hide OrderBits, FrameBits, CroppingBits, UeBits, UBits;
    var s := SpsBits(x) + suffix;
    assert s[..8] == UBits(x.head.profile, 8);
    Pow2Of32();
    ValueOfUBits(x.head.profile, 8);
  }

  /** For every parameter set with code numbers below 2^31 - 1, in any unit of type 7 and with anything after it,
      the reader returns its picture, and null exactly when that picture cannot be displayed. */
  lemma ReadsWhatIsWritten(header: byte, x: Sps, suffix: bits)
    requires header % 32 == 7 && Profile(x.head.profile) && SpsOk(x)
    requires (|SpsBits(x)| + |suffix|) % 8 == 0
    ensures CropOf(UnitOf(header, x, suffix)) == if Displayable(PictureOf(x)) then Some(PictureOf(x)) else None
  {
    hide SpsBits, ReadSps, Escape, UnescapeFrom, Pack;
    var payload := SpsBits(x) + suffix;
    var nalu := UnitOf(header, x, suffix);
    UnescapeEscape(header, Pack(payload));
    BitsOfPack(payload);
    SpsComplete(payload, x);
    PackHead(x, suffix);
    EscapeHead(Pack(payload));
  }

  lemma EscapeHead(r: seq<byte>)
    requires r != []
    ensures Escape(r) != [] && Escape(r)[0] == r[0]
  {
  }

  /** The payload begins with the parameter set x. */
  predicate Carries(payload: bits, x: Sps) {
    SpsOk(x) && StandsAt(payload, 0, SpsBits(x))
  }

  /** Whatever the reader accepts is such a unit: its payload begins with a parameter set whose picture is returned. */
  lemma AcceptsOnlyWritten(nalu: seq<byte>)
    requires CropOf(nalu).Some?
    ensures exists x: Sps ::
      Carries(Payload(nalu), x) && Displayable(PictureOf(x)) && CropOf(nalu) == Some(PictureOf(x))
  {
    hide SpsBits, ReadSps;
    SpsSound(Payload(nalu));
  }

  /** The returned rectangle lies inside the coded picture, whose sides are multiples of 16. */
  lemma CropInside(nalu: seq<byte>)
    requires CropOf(nalu).Some?
    ensures var c := CropOf(nalu).value;
      c.codedWidth % 16 == 0 && c.codedHeight % 16 == 0 && c.left % 2 == 0 && c.top % 2 == 0
      && 0 < c.width && c.left + c.width <= c.codedWidth <= 8192
      && 0 < c.height && c.top + c.height <= c.codedHeight <= 8192
  {
    hide ReadSps, Payload;
  }

  /** The written unit is a legal member of a byte stream: no start code inside, and with the
      stop bit in its last byte no ambiguity after it. */
  lemma WrittenUnitIsClean(header: byte, x: Sps, suffix: bits)
    requires header != 0 && (|SpsBits(x)| + |suffix|) % 8 == 0
    ensures AnnexB.Clean(UnitOf(header, x, suffix))
    ensures true in suffix[if |suffix| < 8 then 0 else |suffix| - 8..] ==>
      UnitOf(header, x, suffix)[|UnitOf(header, x, suffix)| - 1] != 0
  {
    hide SpsBits, Escape, Pack;
    var payload := SpsBits(x) + suffix;
    UnescapeEscape(header, Pack(payload));
    if true in suffix[if |suffix| < 8 then 0 else |suffix| - 8..] {
      LastByte(payload);
      StopBitIsLast(SpsBits(x), suffix);
    }
  }

  lemma StopBitIsLast(front: bits, suffix: bits)
    requires |front| + |suffix| >= 8 && true in suffix[if |suffix| < 8 then 0 else |suffix| - 8..]
    ensures true in (front + suffix)[|front| + |suffix| - 8..]
  {
    var at: nat := if |suffix| < 8 then 0 else |suffix| - 8;
    var k :| 0 <= k < |suffix| - at && suffix[at..][k];
    var s, from := front + suffix, |front| + |suffix| - 8;
    assert s[from..][|front| + at + k - from] == s[|front| + at + k] == suffix[at + k];
  }

  lemma {:induction false} LastByte(s: bits)
    requires |s| % 8 == 0 && s != []
    ensures true in s[|s| - 8..] ==> Pack(s)[|Pack(s)| - 1] != 0
  {
    if |s| == 8 {
      assert s[..8] == s && s[|s| - 8..] == s;
      NonZero(s);
    } else {
      LastByte(s[8..]);
      assert s[8..][|s| - 16..] == s[|s| - 8..];
    }
  }

  lemma {:induction false} NonZero(s: bits)
    ensures true in s ==> Value(s) != 0
  {
    if s != [] {
      NonZero(s[..|s| - 1]);
      assert s == s[..|s| - 1] + [s[|s| - 1]];
    }
  }
}
