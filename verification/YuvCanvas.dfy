/** drawYUV420: a cropped window of a planar 4:2:0 picture, converted to RGBA. */
module YuvCanvas {
  import opened JsNumbers
  import opened Wrappers
  import opened H264Crop

  // ---------------------------------------------------------------- the picture, plane by plane

  /** A picture of even size: a full-resolution luma plane, then two planes of half width and height. */
  predicate IsPicture(yuv: seq<byte>, w: nat, h: nat) {
    w % 2 == 0 && h % 2 == 0 && |yuv| == w * h + 2 * ((w / 2) * (h / 2))
  }

  lemma InPlane(x: nat, y: nat, w: nat, h: nat)
    requires x < w && y < h
    ensures y * w + x < w * h && (y + 1) * w <= w * h
  {
    assert (y + 1) * w <= h * w;
  }

  function Luma(yuv: seq<byte>, w: nat, h: nat, x: nat, y: nat): byte
    requires IsPicture(yuv, w, h) && x < w && y < h
  {
    InPlane(x, y, w, h);
    yuv[..w * h][y * w + x]
  }

  /** The sample of chroma plane 0 or 1 that covers (x, y). */
  function Chroma(yuv: seq<byte>, w: nat, h: nat, plane: nat, x: nat, y: nat): byte
    requires IsPicture(yuv, w, h) && plane < 2 && x < w && y < h
  {
    InPlane(x / 2, y / 2, w / 2, h / 2);
    var size := (w / 2) * (h / 2);
    var base := w * h + plane * size;
    yuv[base..base + size][(y / 2) * (w / 2) + x / 2]
  }

  /** The store into a Uint8ClampedArray: clamped, then rounded half to even. */
  function Clamp8(v: real): byte {
    if v <= 0.0 then 0
    else if v >= 255.0 then 255
    else
      var f := v.Floor;
      if v - f as real < 0.5 || (v - f as real == 0.5 && f % 2 == 0) then f else f + 1
  }

  function Rgba(y: byte, u: byte, v: byte): (r: seq<byte>)
    ensures |r| == 4
  {
    var Y, U, V := y as real, u as real - 128.0, v as real - 128.0;
    [Clamp8(Y + 1.402 * V), Clamp8(Y - 0.344 * U - 0.714 * V), Clamp8(Y + 1.772 * U), 255]
  }

  function Apart(a: real, b: real): real {
    if a < b then b - a else a - b
  }

  /** A clamped value is the byte that is nearest to it. */
  lemma ClampIsNearest(v: real, b: byte)
    ensures Apart(Clamp8(v) as real, v) <= Apart(b as real, v)
  {
    var f := v.Floor;
    assert f as real <= v < f as real + 1.0;
    assert b as int <= f ==> b as real <= f as real;
    assert b as int >= f + 1 ==> b as real >= f as real + 1.0;
  }

  lemma ClampRises(v: real, w: real)
    requires v <= w
    ensures Clamp8(v) <= Clamp8(w)
  {
    assert v.Floor <= w.Floor;
  }

  /** Without colour a pixel is as grey as it is bright, and every pixel is opaque. */
  lemma GreyIsGrey(y: byte)
    ensures Rgba(y, 128, 128) == [y, y, y, 255]
  {
    assert (y as real).Floor == y as int;
  }

  /**
   * More brightness makes nothing darker; more of the second chroma makes a pixel no less red and no more green, and
   * leaves its blue; more of the first makes it no less blue and no more green, and leaves its red. Each step tells.
   */
  lemma ColoursTell(y: byte, u: byte, v: byte, y': byte, u': byte, v': byte)
    requires y <= y' && u <= u' && v <= v'
    ensures
      var was, brighter, bluer, redder := Rgba(y, u, v), Rgba(y', u, v), Rgba(y, u', v), Rgba(y, u, v');
      && was[0] <= brighter[0] && was[1] <= brighter[1] && was[2] <= brighter[2]
      && was[0] == bluer[0] && was[1] >= bluer[1] && was[2] <= bluer[2]
      && was[0] <= redder[0] && was[1] >= redder[1] && was[2] == redder[2]
      && was[3] == brighter[3] == bluer[3] == redder[3] == 255
    ensures Rgba(128, 128, 255)[0] == 255 && Rgba(128, 128, 0)[0] == 0 && Rgba(128, 128, 255)[1] == 37
    ensures Rgba(128, 255, 128)[2] == 255 && Rgba(128, 0, 128)[2] == 0 && Rgba(128, 255, 128)[1] == 84
  {
    var Y, U, V := y as real, u as real - 128.0, v as real - 128.0;
    var Y', U', V' := y' as real, u' as real - 128.0, v' as real - 128.0;
    hide Clamp8;
    ClampRises(Y + 1.402 * V, Y' + 1.402 * V);
    ClampRises(Y - 0.344 * U - 0.714 * V, Y' - 0.344 * U - 0.714 * V);
    ClampRises(Y + 1.772 * U, Y' + 1.772 * U);
    ClampRises(Y - 0.344 * U' - 0.714 * V, Y - 0.344 * U - 0.714 * V);
    ClampRises(Y + 1.772 * U, Y + 1.772 * U');
    ClampRises(Y + 1.402 * V, Y + 1.402 * V');
    ClampRises(Y - 0.344 * U - 0.714 * V', Y - 0.344 * U - 0.714 * V);
    ColoursAtEnds();
  }

  lemma ColoursAtEnds()
    ensures Rgba(128, 128, 255)[0] == 255 && Rgba(128, 128, 0)[0] == 0 && Rgba(128, 128, 255)[1] == 37
    ensures Rgba(128, 255, 128)[2] == 255 && Rgba(128, 0, 128)[2] == 0 && Rgba(128, 255, 128)[1] == 84
  {
    assert (128.0 - 0.714 * 127.0).Floor == 37;
    assert (128.0 - 0.344 * 127.0).Floor == 84;
  }

  function Pixel(yuv: seq<byte>, w: nat, h: nat, x: nat, y: nat): (r: seq<byte>)
    requires IsPicture(yuv, w, h) && x < w && y < h
    ensures |r| == 4
  {
    Rgba(Luma(yuv, w, h, x, y), Chroma(yuv, w, h, 0, x, y), Chroma(yuv, w, h, 1, x, y))
  }

  // ---------------------------------------------------------------- the window that is shown

  predicate Fits(c: Crop, w: nat, h: nat) {
    c.width > 0 && c.height > 0 && c.left + c.width <= w && c.top + c.height <= h
  }

  /** The crop is used when it was read for a picture of this size. */
  function Window(crop: Option<Crop>, w: nat, h: nat): Crop {
    if crop.Some? && crop.value.codedWidth == w && crop.value.codedHeight == h then crop.value
    else Crop(w, h, w, h, 0, 0)
  }

  /** A crop that readH264Crop returned fits the picture it is used for. */
  lemma ReadCropFits(nalu: seq<byte>, w: nat, h: nat)
    requires w > 0 && h > 0
    ensures Fits(Window(CropOf(nalu), w, h), w, h)
  {
    hide CropOf;
    if CropOf(nalu).Some? { CropInside(nalu); }
  }

  // ---------------------------------------------------------------- the canvas, pixel by pixel

  /** Where pixel (x, y) of a canvas starts in its data. */
  function Slot(width: nat, x: nat, y: nat): nat {
    4 * (y * width + x)
  }

  lemma SlotStep(width: nat, x: nat, y: nat)
    ensures Slot(width, x + 1, y) == Slot(width, x, y) + 4
    ensures Slot(width, width, y) == Slot(width, 0, y + 1)
    ensures Slot(width, 0, 0) == 0
  {
  }

  /** Pixels are laid out row by row without overlap. */
  lemma SlotOrder(width: nat, x: nat, y: nat, x': nat, y': nat)
    requires x' < width && (y' < y || (y' == y && x' < x))
    ensures Slot(width, x', y') + 4 <= Slot(width, x, y)
  {
    if y' < y {
      assert (y' + 1) * width <= y * width;
    }
  }

  function PixelAt(data: seq<byte>, width: nat, x: nat, y: nat): Option<seq<byte>> {
    var at := Slot(width, x, y);
    if at + 4 <= |data| then Some(data[at..at + 4]) else None
  }

  /** The pixels before (columns, rows), row by row, are those of the window. */
  ghost predicate Drawn(data: seq<byte>, yuv: seq<byte>, w: nat, h: nat, c: Crop, rows: nat, columns: nat)
    requires IsPicture(yuv, w, h) && Fits(c, w, h)
  {
    forall x: nat, y: nat | x < c.width && y < c.height && (y < rows || (y == rows && x < columns)) ::
      PixelAt(data, c.width, x, y) == Some(Pixel(yuv, w, h, x + c.left, y + c.top))
  }

  /** The positions below n, each once and in order. */
  function Positions(n: nat): seq<nat> {
    seq(n, i => i)
  }

  lemma FourMore(n: nat)
    ensures Positions(n) + [n, n + 1, n + 2, n + 3] == Positions(n + 4)
  {
  }

  /**
   * Every read is inside the buffer, every pixel of the canvas, and nothing else, is the converted pixel of the window,
   * and the positions written are all positions of the canvas, each once and in order.
   */
  method DrawYuv420(yuv: seq<byte>, codedWidth: nat, codedHeight: nat, crop: Option<Crop>)
    returns (width: nat, height: nat, data: array<byte>, ghost written: seq<nat>)
    requires IsPicture(yuv, codedWidth, codedHeight)
    requires Fits(Window(crop, codedWidth, codedHeight), codedWidth, codedHeight)
    ensures
      var used := crop.Some? && crop.value.codedWidth == codedWidth && crop.value.codedHeight == codedHeight;
      var c := if used then crop.value else Crop(codedWidth, codedHeight, codedWidth, codedHeight, 0, 0);
      && width == c.width && height == c.height && data.Length == 4 * (height * width)
      && Drawn(data[..], yuv, codedWidth, codedHeight, c, height, 0)
    ensures written == Positions(data.Length)
  {
    var c := Window(crop, codedWidth, codedHeight);
    width, height := c.width, c.height;
    written := [];
    data := new byte[4 * (height * width)](i => 0);
    var offset := 0;
    for y := 0 to height
      invariant offset == Slot(width, 0, y) && written == Positions(offset)
      invariant Drawn(data[..], yuv, codedWidth, codedHeight, c, y, 0)
    {
      offset, written := DrawRow(data, yuv, codedWidth, codedHeight, c, y, offset, written);
    }
  }

  method DrawRow(data: array<byte>, yuv: seq<byte>, codedWidth: nat, codedHeight: nat, c: Crop, y: nat, from: nat,
                 ghost before: seq<nat>)
    returns (offset: nat, ghost written: seq<nat>)
    requires IsPicture(yuv, codedWidth, codedHeight) && Fits(c, codedWidth, codedHeight) && before == Positions(from)
    requires y < c.height && data.Length == Slot(c.width, 0, c.height) && from == Slot(c.width, 0, y)
    requires Drawn(data[..], yuv, codedWidth, codedHeight, c, y, 0)
    modifies data
    ensures offset == Slot(c.width, 0, y + 1) && written == Positions(offset)
    ensures Drawn(data[..], yuv, codedWidth, codedHeight, c, y + 1, 0)
  {
    var row := (y + c.top) * codedWidth;
    var uvRow := (y + c.top) / 2 * (codedWidth / 2);
    offset, written := from, before;
    hide Drawn, Slot, Pixel, Positions, PixelAt, Rgba, IsPicture, Fits;
    for x := 0 to c.width
      invariant offset == Slot(c.width, x, y) && written == Positions(offset)
      invariant Drawn(data[..], yuv, codedWidth, codedHeight, c, y, x)
    {
      ghost var was := data[..];
      SlotStep(c.width, x, y);
      SlotOrder(c.width, 0, c.height, x, y);
      var pixel := ReadPixel(yuv, codedWidth, codedHeight, row, uvRow, x + c.left, y + c.top);
      ghost var put;
      offset, put := Put(data, offset, pixel);
      written := written + put;
      DrawnGrows(was, data[..], pixel, yuv, codedWidth, codedHeight, c, x, y);
    }
    SlotStep(c.width, c.width, y);
    RowDone(data[..], yuv, codedWidth, codedHeight, c, y);
  }

  method ReadPixel(yuv: seq<byte>, w: nat, h: nat, row: nat, uvRow: nat, x: nat, y: nat) returns (pixel: seq<byte>)
    requires IsPicture(yuv, w, h) && x < w && y < h
    requires row == y * w && uvRow == y / 2 * (w / 2)
    ensures pixel == Pixel(yuv, w, h, x, y)
  {
    hide Rgba;
    ReadsInside(w, h, x, y);
    var ySize := w * h;
    var chromaSize := ySize / 4;
    var uv := uvRow + x / 2;
    pixel := Rgba(yuv[row + x], yuv[ySize + uv], yuv[ySize + chromaSize + uv]);
    PixelIsRead(yuv, w, h, x, y, row + x, ySize + uv, ySize + chromaSize + uv);
  }

  method Put(data: array<byte>, at: nat, pixel: seq<byte>) returns (offset: nat, ghost written: seq<nat>)
    requires |pixel| == 4 && at + 4 <= data.Length
    modifies data
    ensures offset == at + 4 && data[..] == old(data[..at]) + pixel + old(data[at + 4..])
    ensures written == [at, at + 1, at + 2, at + 3] && Positions(at) + written == Positions(offset)
  {
    written := [at, at + 1, at + 2, at + 3];
    FourMore(at);
    data[at], data[at + 1], data[at + 2], data[at + 3] := pixel[0], pixel[1], pixel[2], pixel[3];
    offset := at + 4;
  }

  /** The three buffer positions of one pixel. */
  lemma ReadsInside(w: nat, h: nat, x: nat, y: nat)
    requires w % 2 == 0 && h % 2 == 0 && x < w && y < h
    ensures w * h / 4 == (w / 2) * (h / 2)
    ensures y * w + x < w * h
    ensures w * h + w * h / 4 + y / 2 * (w / 2) + x / 2 < w * h + 2 * ((w / 2) * (h / 2))
  {
    InPlane(x, y, w, h);
    InPlane(x / 2, y / 2, w / 2, h / 2);
    assert w * h == (2 * (w / 2)) * (2 * (h / 2)) == 4 * ((w / 2) * (h / 2));
  }

  lemma LumaAt(yuv: seq<byte>, w: nat, h: nat, x: nat, y: nat, at: nat)
    requires IsPicture(yuv, w, h) && x < w && y < h && at == y * w + x
    ensures at < |yuv| && Luma(yuv, w, h, x, y) == yuv[at]
  {
    InPlane(x, y, w, h);
  }

  lemma ChromaAt(yuv: seq<byte>, w: nat, h: nat, plane: nat, x: nat, y: nat, at: nat)
    requires IsPicture(yuv, w, h) && plane < 2 && x < w && y < h
    requires at == w * h + plane * ((w / 2) * (h / 2)) + (y / 2 * (w / 2) + x / 2)
    ensures at < |yuv| && Chroma(yuv, w, h, plane, x, y) == yuv[at]
  {
    InPlane(x / 2, y / 2, w / 2, h / 2);
  }

  /** The direct indexing of the loop reads the samples of the planes. */
  lemma PixelIsRead(yuv: seq<byte>, w: nat, h: nat, x: nat, y: nat, luma: nat, u: nat, v: nat)
    requires IsPicture(yuv, w, h) && x < w && y < h && w * h / 4 == (w / 2) * (h / 2)
    requires luma == y * w + x && u == w * h + (y / 2 * (w / 2) + x / 2) && v == w * h / 4 + u
    ensures luma < |yuv| && u < |yuv| && v < |yuv|
    ensures Pixel(yuv, w, h, x, y) == Rgba(yuv[luma], yuv[u], yuv[v])
  {
    hide Rgba, Luma, Chroma;
    LumaAt(yuv, w, h, x, y, luma);
    ChromaAt(yuv, w, h, 0, x, y, u);
    ChromaAt(yuv, w, h, 1, x, y, v);
  }

  lemma DrawnGrows(before: seq<byte>, after: seq<byte>, pixel: seq<byte>, yuv: seq<byte>, w: nat, h: nat, c: Crop,
                   x: nat, y: nat)
    requires IsPicture(yuv, w, h) && Fits(c, w, h) && x < c.width && y < c.height
    requires Drawn(before, yuv, w, h, c, y, x) && pixel == Pixel(yuv, w, h, x + c.left, y + c.top)
    requires var at := Slot(c.width, x, y);
      at + 4 <= |before| && after == before[..at] + pixel + before[at + 4..]
    ensures Drawn(after, yuv, w, h, c, y, x + 1)
  {
    hide Pixel, Slot;
    var at := Slot(c.width, x, y);
    forall x': nat, y': nat | x' < c.width && y' < c.height && (y' < y || (y' == y && x' < x + 1))
      ensures PixelAt(after, c.width, x', y') == Some(Pixel(yuv, w, h, x' + c.left, y' + c.top))
    {
      if x' == x && y' == y {
        assert after[at..at + 4] == pixel;
      } else {
        SlotOrder(c.width, x, y, x', y');
        var from := Slot(c.width, x', y');
        assert PixelAt(before, c.width, x', y').Some?;
        assert after[from..from + 4] == before[from..from + 4];
      }
    }
  }

  lemma RowDone(data: seq<byte>, yuv: seq<byte>, w: nat, h: nat, c: Crop, y: nat)
    requires IsPicture(yuv, w, h) && Fits(c, w, h)
    requires Drawn(data, yuv, w, h, c, y, c.width)
    ensures Drawn(data, yuv, w, h, c, y + 1, 0)
  {
    hide Pixel, PixelAt;
  }
}
