/** The image container: a width x height x depth grid of pixels stored as bytes in
    one buffer, the per-format channel decoders and encoders, voxel addressing with
    wrap-around, fill, clear, and the BMP row-size arithmetic. */
module XImage {
  import XMath
  import ArrayX
  import opened Wrappers

  newtype byte = b: int | 0 <= b < 256

  /** A colour with four real channels, as `vec4` holds it. */
  datatype Vec4 = Vec4(x: real, y: real, z: real, w: real)

  /** The pixel decomposition callbacks a format installs. */
  datatype Decomp = RGBA32 | RGB24 | Gray8 | GrayFloat32 | RGBAFloat32

  const FormatRGBA32 := 0
  const FormatRGB24 := 1
  const FormatRGBAFloat32 := 3
  const FormatGrayscale8 := 6
  const FormatGrayscaleFloat32 := 9

  /** `_setCurrentPixelDecompCallBacks`: the callbacks installed for a storage format.
      Formats without a case of their own, 8-bit grayscale among them, get the
      RGBA32 callbacks. */
  function DecompOf(format: int): (d: Decomp)
    ensures d != Gray8
    ensures format == FormatRGB24 <==> d == RGB24
    ensures format == FormatRGBAFloat32 <==> d == RGBAFloat32
    ensures format == FormatGrayscaleFloat32 <==> d == GrayFloat32
    ensures d == RGBA32 <==> format !in {FormatRGB24, FormatRGBAFloat32, FormatGrayscaleFloat32}
  {
    if format == FormatRGB24 then RGB24
    else if format == FormatGrayscaleFloat32 then GrayFloat32
    else if format == FormatRGBAFloat32 then RGBAFloat32
    else RGBA32
  }

  /** `_getPixelSizeBytes_*`. */
  function PixelSize(d: Decomp): nat {
    match d
    case RGBA32 => 4
    case RGB24 => 3
    case Gray8 => 1
    case GrayFloat32 => 4
    case RGBAFloat32 => 32
  }

  /** The formats whose channels are single bytes. */
  predicate ByteFormat(d: Decomp) {
    d == RGBA32 || d == RGB24 || d == Gray8
  }

  /** The number of byte channels a byte format stores. */
  function StoredChannels(d: Decomp): nat
    requires ByteFormat(d)
  {
    match d
    case RGBA32 => 4
    case RGB24 => 3
    case Gray8 => 1
  }

  /** `_getChannelNormalized_*` for the byte formats: the channel's byte over 255.
      A channel RGBA32 does not have reads as 255, one RGB24 does not have as
      1; 8-bit grayscale answers every channel with its one byte. */
  function ChannelNormalized(d: Decomp, pixel: seq<byte>, channel: nat): (r: real)
    requires ByteFormat(d) && |pixel| == PixelSize(d)
    ensures d == RGBA32 && channel > 3 ==> r == 255.0
    ensures d == RGB24 && channel > 2 ==> r == 1.0
    ensures channel < StoredChannels(d) ==> r == pixel[channel] as real / 255.0 && 0.0 <= r <= 1.0
    ensures d == Gray8 ==> r == pixel[0] as real / 255.0
  {
    match d
    case RGBA32 => if channel > 3 then 255.0 else pixel[channel] as real / 255.0
    case RGB24 => if channel > 2 then 1.0 else pixel[channel] as real / 255.0
    case Gray8 => pixel[0] as real / 255.0
  }

  /** The byte a normalised channel value is stored as: `value * 255` clamped into
      [0, 255] and truncated. */
  function StoredByte(value: real): (b: byte)
    ensures value * 255.0 <= 0.0 ==> b == 0
    ensures 255.0 <= value * 255.0 ==> b == 255
    ensures 0.0 <= value * 255.0 <= 255.0 ==> b as real <= value * 255.0 < b as real + 1.0
  {
    var v := XMath.FClamp(value * 255.0, 0.0, 255.0);
    XMath.Trunc(v) as byte
  }

  /** Storing the value a byte decodes to gives back that byte. */
  lemma StoredByteRoundTrip(b: byte)
    ensures StoredByte(b as real / 255.0) == b
  {
    assert (b as real / 255.0) * 255.0 == b as real;
  }

  /** `_setChannelValueNormalized_*` for RGBA32 and RGB24, and the 8-bit grayscale
      setter as it evidently was meant to work (its one byte takes the value, see
      `Gray8StoreAsWritten`). A channel the format does not store is ignored. */
  function SetChannel(d: Decomp, pixel: seq<byte>, channel: nat, value: real): (p: seq<byte>)
    requires ByteFormat(d) && |pixel| == PixelSize(d)
    ensures |p| == |pixel|
    ensures d != Gray8 && channel >= StoredChannels(d) ==> p == pixel
    ensures d != Gray8 && channel < StoredChannels(d) ==>
      p[channel] == StoredByte(value) && forall k :: 0 <= k < |p| && k != channel ==> p[k] == pixel[k]
    ensures d == Gray8 ==> p == [StoredByte(value)]
  {
    match d
    case RGBA32 => if channel > 3 then pixel else pixel[channel := StoredByte(value)]
    case RGB24 => if channel > 2 then pixel else pixel[channel := StoredByte(value)]
    case Gray8 => [StoredByte(value)]
  }

  /** Setting a stored channel and reading it back gives the stored byte over 255. */
  lemma SetThenGetChannel(d: Decomp, pixel: seq<byte>, channel: nat, value: real)
    requires ByteFormat(d) && |pixel| == PixelSize(d) && channel < StoredChannels(d)
    ensures ChannelNormalized(d, SetChannel(d, pixel, channel, value), channel) == StoredByte(value) as real / 255.0
  {
  }

  /** Writing back the value a channel reads leaves the pixel as it was. */
  lemma GetThenSetChannel(d: Decomp, pixel: seq<byte>, channel: nat)
    requires ByteFormat(d) && |pixel| == PixelSize(d)
    ensures SetChannel(d, pixel, channel, ChannelNormalized(d, pixel, channel)) == pixel
  {
    if channel < StoredChannels(d) {
      StoredByteRoundTrip(pixel[channel]);
    } else if d == Gray8 {
      StoredByteRoundTrip(pixel[0]);
    }
  }

  /** The buffer `data` after the 8-bit grayscale setter as written stores the four
      bytes `f` of a `float` at `offset`, where a pixel is one byte; `None` when those
      bytes run past the buffer. */
  function Gray8StoreAsWritten(data: seq<byte>, offset: nat, f: seq<byte>): (r: Option<seq<byte>>)
    requires |f| == 4
    ensures r.Some? <==> offset + 4 <= |data|
    ensures r.Some? ==> |r.value| == |data| && r.value[offset..offset + 4] == f
  {
    if offset + 4 <= |data| then Some(data[..offset] + f + data[offset + 4..]) else None
  }

  /** In an 8-bit grayscale buffer of `width` by `height` by `depth` pixels the last
      voxel is the buffer's last byte: the setter as written runs past the buffer
      there, while the corrected setter replaces that one byte. */
  lemma Gray8SetterWritesPastPixel(data: seq<byte>, width: nat, height: nat, depth: nat, f: seq<byte>, value: real)
    requires 0 < width < 0x1_0000 && 0 < height < 0x1_0000 && 0 < depth < 0x1_0000
    requires |data| == DataSize(width, height, depth, Gray8) && |f| == 4
    ensures var off := PixelOffset(height - 1, width - 1, depth - 1, width, height, depth, PixelSize(Gray8));
      && off + PixelSize(Gray8) == |data|
      && Gray8StoreAsWritten(data, off, f) == None
      && |SetChannel(Gray8, data[off..off + 1], 0, value)| == PixelSize(Gray8)
  {
    var wh := width * height;
    calc {
      VoxelIndex(height - 1, width - 1, depth - 1, width, height);
      (depth - 1) * width * height + (height - 1) * width + width - 1;
      { assert (depth - 1) * width * height == depth * wh - wh; assert (height - 1) * width == wh - width; }
      depth * wh - 1;
    }
    assert depth * wh == width * height * depth;
  }

  /** The bytes `setVoxel` leaves in a pixel: channels 3, 2, 1, 0 set in that order. */
  function SetVoxelBytes(d: Decomp, pixel: seq<byte>, c: Vec4): (p: seq<byte>)
    requires ByteFormat(d) && |pixel| == PixelSize(d)
    ensures |p| == |pixel|
  {
    var p3 := SetChannel(d, pixel, 3, c.w);
    var p2 := SetChannel(d, p3, 2, c.z);
    var p1 := SetChannel(d, p2, 1, c.y);
    SetChannel(d, p1, 0, c.x)
  }

  /** The encoding of a colour in a pixel of a byte format. */
  function Encode(d: Decomp, c: Vec4): (p: seq<byte>)
    requires ByteFormat(d)
    ensures |p| == PixelSize(d)
  {
    match d
    case RGBA32 => [StoredByte(c.x), StoredByte(c.y), StoredByte(c.z), StoredByte(c.w)]
    case RGB24 => [StoredByte(c.x), StoredByte(c.y), StoredByte(c.z)]
    case Gray8 => [StoredByte(c.x)]
  }

  /** `getVoxel`'s colour for a pixel: channels 0 to 3 decoded. */
  function Decode(d: Decomp, pixel: seq<byte>): (c: Vec4)
    requires ByteFormat(d) && |pixel| == PixelSize(d)
    ensures 0.0 <= c.x <= 1.0 && 0.0 <= c.y <= 1.0 && 0.0 <= c.z <= 1.0
    ensures d == RGB24 ==> c.w == 1.0
    ensures d != RGB24 ==> 0.0 <= c.w <= 1.0
  {
    Vec4(ChannelNormalized(d, pixel, 0), ChannelNormalized(d, pixel, 1),
         ChannelNormalized(d, pixel, 2), ChannelNormalized(d, pixel, 3))
  }

  /** Whatever the pixel held, `setVoxel` leaves the encoding of the colour in it. */
  lemma SetVoxelEncodes(d: Decomp, pixel: seq<byte>, c: Vec4)
    requires ByteFormat(d) && |pixel| == PixelSize(d)
    ensures SetVoxelBytes(d, pixel, c) == Encode(d, c)
  {
    var p := SetVoxelBytes(d, pixel, c);
    if d == RGBA32 {
      assert p == [p[0], p[1], p[2], p[3]];
    } else if d == RGB24 {
      assert p == [p[0], p[1], p[2]];
    }
  }

  /** Encoding a decoded pixel gives back its bytes. */
  lemma EncodeDecode(d: Decomp, pixel: seq<byte>)
    requires ByteFormat(d) && |pixel| == PixelSize(d)
    ensures Encode(d, Decode(d, pixel)) == pixel
  {
    StoredByteRoundTrip(pixel[0]);
    if d != Gray8 {
      StoredByteRoundTrip(pixel[1]);
      StoredByteRoundTrip(pixel[2]);
    }
    if d == RGBA32 {
      StoredByteRoundTrip(pixel[3]);
    }
  }

  /** Decoding an encoded colour gives each stored channel's byte over 255. */
  lemma DecodeEncode(d: Decomp, c: Vec4)
    requires ByteFormat(d) && d != Gray8
    ensures var e := Decode(d, Encode(d, c));
      && e.x == StoredByte(c.x) as real / 255.0
      && e.y == StoredByte(c.y) as real / 255.0
      && e.z == StoredByte(c.z) as real / 255.0
      && (d == RGBA32 ==> e.w == StoredByte(c.w) as real / 255.0)
  {
  }

  /** A C++ conversion of an `int` to `unsigned int`. */
  function U32(v: int): (r: nat)
    ensures r < 0x1_0000_0000
    ensures 0 <= v < 0x1_0000_0000 ==> r == v
  {
    v % 0x1_0000_0000
  }

  /** A C++ conversion of an `int` to `unsigned short`. */
  function U16(v: int): (r: nat)
    ensures r < 0x1_0000
    ensures 0 <= v < 0x1_0000 ==> r == v
  {
    v % 0x1_0000
  }

  /** The position of voxel (row, col, dep) in pixel order, depth slice by depth slice. */
  function VoxelIndex(row: nat, col: nat, dep: nat, width: nat, height: nat): nat {
    dep * width * height + row * width + col
  }

  lemma VoxelIndexRowMajor(row: nat, col: nat, dep: nat, width: nat, height: nat)
    ensures VoxelIndex(row, col, dep, width, height) == ArrayX.Index(dep * height + row, col, width)
  {
    assert (dep * height + row) * width == dep * height * width + row * width;
    assert dep * width * height == dep * height * width;
  }

  /** Every in-range voxel has a position below the voxel count. */
  lemma VoxelIndexInRange(row: nat, col: nat, dep: nat, width: nat, height: nat, depth: nat)
    requires row < height && col < width && dep < depth
    ensures VoxelIndex(row, col, dep, width, height) < width * height * depth
  {
    VoxelIndexRowMajor(row, col, dep, width, height);
    ArrayX.IndexInRange(dep, row, depth, height);
    ArrayX.IndexInRange(dep * height + row, col, depth * height, width);
    assert width * height * depth == depth * height * width;
  }

  /** Distinct in-range voxels have distinct positions. */
  lemma VoxelIndexInjective(row1: nat, col1: nat, dep1: nat, row2: nat, col2: nat, dep2: nat,
                            width: nat, height: nat)
    requires row1 < height && col1 < width && row2 < height && col2 < width
    requires VoxelIndex(row1, col1, dep1, width, height) == VoxelIndex(row2, col2, dep2, width, height)
    ensures row1 == row2 && col1 == col2 && dep1 == dep2
  {
    VoxelIndexRowMajor(row1, col1, dep1, width, height);
    VoxelIndexRowMajor(row2, col2, dep2, width, height);
    ArrayX.IndexInjective(dep1 * height + row1, col1, dep2 * height + row2, col2, width);
    ArrayX.IndexInjective(dep1, row1, dep2, row2, height);
  }

  /** A coordinate as `_getPixelOffset` reduces it: converted to `unsigned int`, then
      taken modulo the dimension. */
  function Wrap(v: int, n: nat): (r: nat)
    requires 0 < n < 0x1_0000
    ensures r < n
    ensures 0 <= v < n ==> r == v
  {
    if 0 <= v < n then XMath.DivModUnique(v, n, 0, v); U32(v) % n else U32(v) % n
  }

  /** Non-negative coordinates wrap with the period of their dimension. */
  lemma WrapPeriodic(v: int, n: nat)
    requires 0 < n < 0x1_0000 && 0 <= v && v + n < 0x1_0000_0000
    ensures Wrap(v + n, n) == Wrap(v, n)
  {
    assert U32(v + n) == v + n && U32(v) == v;
    var q, r := v / n, v % n;
    assert v + n == (q + 1) * n + r;
    XMath.DivModUnique(v + n, n, q + 1, r);
  }

  /** `_getPixelOffset(row, col, dep)`: the position of the voxel at the wrapped
      coordinates, times the pixel size. */
  function PixelOffset(row: int, col: int, dep: int, width: nat, height: nat, depth: nat, pixelSize: nat): (r: nat)
    requires 0 < width < 0x1_0000 && 0 < height < 0x1_0000 && 0 < depth < 0x1_0000
    ensures pixelSize == 0 || r % pixelSize == 0
    ensures r + pixelSize <= width * height * depth * pixelSize
  {
    var rw, cw, dw := Wrap(row, height), Wrap(col, width), Wrap(dep, depth);
    VoxelIndexInRange(rw, cw, dw, width, height, depth);
    OffsetBound(VoxelIndex(rw, cw, dw, width, height), width * height * depth, pixelSize);
    VoxelIndex(rw, cw, dw, width, height) * pixelSize
  }

  lemma OffsetBound(v: nat, n: nat, pixelSize: nat)
    requires v < n
    ensures pixelSize == 0 || (v * pixelSize) % pixelSize == 0
    ensures v * pixelSize + pixelSize <= n * pixelSize
  {
    assert v * pixelSize + pixelSize == (v + 1) * pixelSize;
    XMath.MulMonotone(v + 1, n, pixelSize);
    if pixelSize != 0 {
      XMath.DivModUnique(v * pixelSize, pixelSize, v, 0);
    }
  }

  /** In range, the wrap changes nothing. */
  lemma PixelOffsetInRange(row: int, col: int, dep: int, width: nat, height: nat, depth: nat, pixelSize: nat)
    requires 0 <= row < height < 0x1_0000 && 0 <= col < width < 0x1_0000 && 0 <= dep < depth < 0x1_0000
    ensures PixelOffset(row, col, dep, width, height, depth, pixelSize) == VoxelIndex(row, col, dep, width, height) * pixelSize
  {
  }

  /** Non-negative rows wrap with the period of the height; likewise columns and depths. */
  lemma PixelOffsetPeriodic(row: int, col: int, dep: int, width: nat, height: nat, depth: nat, pixelSize: nat)
    requires 0 < width < 0x1_0000 && 0 < height < 0x1_0000 && 0 < depth < 0x1_0000
    requires 0 <= row && row + height < 0x1_0000_0000
    ensures PixelOffset(row + height, col, dep, width, height, depth, pixelSize)
         == PixelOffset(row, col, dep, width, height, depth, pixelSize)
  {
    WrapPeriodic(row, height);
  }

  /** A negative coordinate is converted to `unsigned int` first, so it wraps to the far
      edge only when the dimension divides 2^32: row -1 of a 2-row image is row 1, but
      row -1 of a 3-row image is row 0. */
  lemma NegativeRowWraps()
    ensures Wrap(-1, 2) == 1
    ensures Wrap(-1, 3) == 0
  {
    assert U32(-1) == 0xFFFF_FFFF;
  }

  /** The pixels of distinct in-range voxels do not overlap. */
  lemma OffsetsDisjoint(row1: int, col1: int, dep1: int, row2: int, col2: int, dep2: int,
                        width: nat, height: nat, depth: nat, pixelSize: nat)
    requires 0 <= row1 < height < 0x1_0000 && 0 <= col1 < width < 0x1_0000 && 0 <= dep1 < depth < 0x1_0000
    requires 0 <= row2 < height && 0 <= col2 < width && 0 <= dep2 < depth
    requires (row1, col1, dep1) != (row2, col2, dep2)
    ensures var o1, o2 := PixelOffset(row1, col1, dep1, width, height, depth, pixelSize),
                          PixelOffset(row2, col2, dep2, width, height, depth, pixelSize);
      o1 + pixelSize <= o2 || o2 + pixelSize <= o1
  {
    PixelOffsetInRange(row1, col1, dep1, width, height, depth, pixelSize);
    PixelOffsetInRange(row2, col2, dep2, width, height, depth, pixelSize);
    var v1, v2 := VoxelIndex(row1, col1, dep1, width, height), VoxelIndex(row2, col2, dep2, width, height);
    assert v1 != v2 by {
      if v1 == v2 {
        VoxelIndexInjective(row1, col1, dep1, row2, col2, dep2, width, height);
      }
    }
    MultiplesApart(v1, v2, pixelSize);
  }

  lemma MultiplesApart(v1: nat, v2: nat, k: nat)
    requires v1 != v2
    ensures v1 * k + k <= v2 * k || v2 * k + k <= v1 * k
  {
    if v1 < v2 {
      assert v1 * k + k == (v1 + 1) * k;
      XMath.MulMonotone(v1 + 1, v2, k);
    } else {
      assert v2 * k + k == (v2 + 1) * k;
      XMath.MulMonotone(v2 + 1, v1, k);
    }
  }

  /** `s` with the bytes from `off` on replaced by `p`. */
  function Splice(s: seq<byte>, off: nat, p: seq<byte>): (r: seq<byte>)
    requires off + |p| <= |s|
    ensures |r| == |s|
  {
    s[..off] + p + s[off + |p|..]
  }

  /** Splicing in `p` puts `p` at `off` and keeps every other byte. */
  lemma SpliceCells(s: seq<byte>, off: nat, p: seq<byte>)
    requires off + |p| <= |s|
    ensures forall k :: 0 <= k < |s| ==> Splice(s, off, p)[k] == if off <= k < off + |p| then p[k - off] else s[k]
  {
  }

  lemma SpliceInside(s: seq<byte>, off: nat, p: seq<byte>)
    requires off + |p| <= |s|
    ensures Splice(s, off, p)[off..off + |p|] == p
  {
  }

  lemma SpliceTwice(s: seq<byte>, off: nat, p: seq<byte>, q: seq<byte>)
    requires off + |p| <= |s| && |q| == |p|
    ensures Splice(Splice(s, off, p), off, q) == Splice(s, off, q)
  {
  }

  /** A splice leaves a byte range it does not overlap as it was. */
  lemma SpliceOutside(s: seq<byte>, off: nat, p: seq<byte>, o: nat, n: nat)
    requires off + |p| <= |s| && o + n <= |s| && (o + n <= off || off + |p| <= o)
    ensures Splice(s, off, p)[o..o + n] == s[o..o + n]
  {
    SpliceCells(s, off, p);
  }

  /** A BMP row: `bbp * width` bits rounded up to whole 32-bit words, in bytes. */
  function BmpRowSize(bbp: nat, width: nat): (r: nat)
    ensures r % 4 == 0
    ensures bbp * width <= 8 * r < bbp * width + 32
  {
    var q := (bbp * width) as real / 32.0;
    var ceil := -((-q).Floor);
    assert ceil as real - 1.0 < q <= ceil as real;
    4 * ceil
  }

  /** With `bbp = 8 * pixelSize`, a row holds every pixel's bytes and at most three
      bytes of padding. */
  lemma BmpRowFitsPixels(pixelSize: nat, width: nat)
    ensures width * pixelSize <= BmpRowSize(8 * pixelSize, width) < width * pixelSize + 4
  {
    var r := BmpRowSize(8 * pixelSize, width);
    assert 8 * pixelSize * width == 8 * (width * pixelSize);
  }

  /** `_imageDataSize`: width * height * depth * pixel size bytes. */
  function DataSize(width: nat, height: nat, depth: nat, d: Decomp): nat {
    width * height * depth * PixelSize(d)
  }

  class Image {
    var width: nat
    var height: nat
    var depth: nat
    var format: nat
    var decomp: Decomp
    var dataSize: int
    var data: array<byte>

    ghost predicate Valid()
      reads this
    {
      && width < 0x1_0000 && height < 0x1_0000 && depth < 0x1_0000 && format < 0x1_0000
      && ByteFormat(decomp)
      && dataSize == DataSize(width, height, depth, decomp)
      && data.Length == dataSize
    }

    /** `ximage()`: 0 x 0 x 1, RGBA32, no data. */
    constructor ()
      ensures Valid() && fresh(data)
      ensures width == 0 && height == 0 && depth == 1 && format == FormatRGBA32 && dataSize == 0
    {
      width, height, depth := 0, 0, 1;
      format, decomp := FormatRGBA32, RGBA32;
      dataSize := 0;
      data := new byte[0];
    }

    /** `ximage(imageWidth, imageHeight, imageDepth, storageFormat)`: the dimensions and
        format converted to `unsigned short`, the callbacks of the format, and a buffer
        of width * height * depth * pixel-size bytes. */
    constructor Sized(imageWidth: int, imageHeight: int, imageDepth: int, storageFormat: int)
      requires ByteFormat(DecompOf(storageFormat))
      ensures Valid() && fresh(data)
      ensures width == U16(imageWidth) && height == U16(imageHeight) && depth == U16(imageDepth)
      ensures format == U16(storageFormat) && decomp == DecompOf(storageFormat)
      ensures data.Length == width * height * depth * PixelSize(decomp)
    {
      var w, h, d, dc := U16(imageWidth), U16(imageHeight), U16(imageDepth), DecompOf(storageFormat);
      width, height, depth := w, h, d;
      format, decomp := U16(storageFormat), dc;
      var n := DataSize(w, h, d, dc);
      dataSize := n;
      data := new byte[n];
    }

    function Offset(row: int, col: int, dep: int): (r: nat)
      reads this
      requires Valid() && 0 < width && 0 < height && 0 < depth
      ensures r + PixelSize(decomp) <= data.Length
    {
      PixelOffset(row, col, dep, width, height, depth, PixelSize(decomp))
    }

    /** The bytes of the wrapped voxel (col, row, dep) in the buffer contents `s`. */
    ghost function VoxelIn(s: seq<byte>, col: int, row: int, dep: int): (p: seq<byte>)
      reads this
      requires Valid() && 0 < width && 0 < height && 0 < depth && |s| == data.Length
      ensures |p| == PixelSize(decomp)
    {
      var off := Offset(row, col, dep);
      s[off..off + PixelSize(decomp)]
    }

    /** The bytes of the pixel `operator()(col, row, dep)` points at. */
    function Voxel(col: int, row: int, dep: int): (p: seq<byte>)
      reads this, data
      requires Valid() && 0 < width && 0 < height && 0 < depth
      ensures |p| == PixelSize(decomp) && p == VoxelIn(data[..], col, row, dep)
    {
      var off := Offset(row, col, dep);
      data[off..off + PixelSize(decomp)]
    }

    /** `getVoxel(col, row, dep)`: the decoded colour of the wrapped voxel. */
    function GetVoxel(col: int, row: int, dep: int): (c: Vec4)
      reads this, data
      requires Valid() && 0 < width && 0 < height && 0 < depth
      ensures Encode(decomp, c) == Voxel(col, row, dep)
      ensures 0.0 <= c.x <= 1.0 && 0.0 <= c.y <= 1.0 && 0.0 <= c.z <= 1.0 && 0.0 <= c.w <= 1.0
    {
      EncodeDecode(decomp, Voxel(col, row, dep));
      Decode(decomp, Voxel(col, row, dep))
    }

    /** `_setPixelChannelNormalized(offset, channel, value)`: the pixel at `offset`
        takes the channel's new value; no other byte changes. */
    method SetPixelChannel(offset: nat, channel: nat, value: real)
      requires Valid() && offset + PixelSize(decomp) <= data.Length
      modifies data
      ensures data[..] == Splice(old(data[..]), offset,
                                 SetChannel(decomp, old(data[offset..offset + PixelSize(decomp)]), channel, value))
    {
      var ps := PixelSize(decomp);
      ghost var pixel := data[offset..offset + ps];
      ghost var p := SetChannel(decomp, pixel, channel, value);
      if decomp == Gray8 {
        data[offset] := StoredByte(value);
      } else if channel < StoredChannels(decomp) {
        data[offset + channel] := StoredByte(value);
      }
      assert data[..] == Splice(old(data[..]), offset, p) by {
        SpliceCells(old(data[..]), offset, p);
      }
    }

    /** `setVoxel(col, row, dep, c)`: the wrapped voxel's channels 3, 2, 1, 0 set from
        the colour; no other byte changes. */
    method SetVoxel(col: int, row: int, dep: int, c: Vec4)
      requires Valid() && 0 < width && 0 < height && 0 < depth
      modifies data
      ensures data[..] == Splice(old(data[..]), Offset(row, col, dep), Encode(decomp, c))
      ensures VoxelIn(data[..], col, row, dep) == Encode(decomp, c)
    {
      var off := Offset(row, col, dep);
      ghost var s0 := data[..];
      ghost var p0 := data[off..off + PixelSize(decomp)];
      SetPixelChannel(off, 3, c.w);
      ghost var p3 := SetChannel(decomp, p0, 3, c.w);
      SpliceInside(s0, off, p3);
      SetPixelChannel(off, 2, c.z);
      ghost var p2 := SetChannel(decomp, p3, 2, c.z);
      SpliceTwice(s0, off, p3, p2);
      SpliceInside(s0, off, p2);
      SetPixelChannel(off, 1, c.y);
      ghost var p1 := SetChannel(decomp, p2, 1, c.y);
      SpliceTwice(s0, off, p2, p1);
      SpliceInside(s0, off, p1);
      SetPixelChannel(off, 0, c.x);
      SpliceTwice(s0, off, p1, SetChannel(decomp, p1, 0, c.x));
      SetVoxelEncodes(decomp, p0, c);
      SpliceInside(s0, off, Encode(decomp, c));
    }

    /** Setting an in-range voxel leaves every other in-range voxel as it was. */
    lemma SetVoxelFrame(s: seq<byte>, col: int, row: int, dep: int, p: seq<byte>,
                        col': int, row': int, dep': int)
      requires Valid() && |s| == data.Length && |p| == PixelSize(decomp)
      requires 0 <= col < width && 0 <= row < height && 0 <= dep < depth
      requires 0 <= col' < width && 0 <= row' < height && 0 <= dep' < depth
      requires (col', row', dep') != (col, row, dep)
      ensures VoxelIn(Splice(s, Offset(row, col, dep), p), col', row', dep') == VoxelIn(s, col', row', dep')
    {
      var ps := PixelSize(decomp);
      OffsetsDisjoint(row', col', dep', row, col, dep, width, height, depth, ps);
      SpliceOutside(s, Offset(row, col, dep), p, Offset(row', col', dep'), ps);
    }

    /** The voxels of column `i`, row `j`: every depth set to `c`, no other voxel changes. */
    method FillDepths(i: nat, j: nat, c: Vec4)
      requires Valid() && i < width && j < height && 0 < depth
      modifies data
      ensures forall dep :: 0 <= dep < depth ==> VoxelIn(data[..], i, j, dep) == Encode(decomp, c)
      ensures forall col, row, dep ::
        (0 <= col < width && 0 <= row < height && 0 <= dep < depth && (col != i || row != j)) ==>
        VoxelIn(data[..], col, row, dep) == VoxelIn(old(data[..]), col, row, dep)
    {
      var k := 0;
      while k < depth
        invariant 0 <= k <= depth
        invariant forall dep :: 0 <= dep < k ==> VoxelIn(data[..], i, j, dep) == Encode(decomp, c)
        invariant forall col, row, dep ::
          (0 <= col < width && 0 <= row < height && 0 <= dep < depth && (col != i || row != j)) ==>
          VoxelIn(data[..], col, row, dep) == VoxelIn(old(data[..]), col, row, dep)
      {
        ghost var s := data[..];
        SetVoxel(i, j, k, c);
        forall dep | 0 <= dep <= k
          ensures VoxelIn(data[..], i, j, dep) == Encode(decomp, c)
        {
          if dep < k {
            SetVoxelFrame(s, i, j, k, Encode(decomp, c), i, j, dep);
            assert VoxelIn(s, i, j, dep) == Encode(decomp, c);
          }
        }
        forall col, row, dep | 0 <= col < width && 0 <= row < height && 0 <= dep < depth && (col != i || row != j)
          ensures VoxelIn(data[..], col, row, dep) == VoxelIn(s, col, row, dep)
        {
          SetVoxelFrame(s, i, j, k, Encode(decomp, c), col, row, dep);
        }
        k := k + 1;
      }
    }

    /** The voxels of column `i`: every row and depth set to `c`, no other voxel changes. */
    method FillColumn(i: nat, c: Vec4)
      requires Valid() && i < width && 0 < height && 0 < depth
      modifies data
      ensures forall row, dep :: 0 <= row < height && 0 <= dep < depth ==> VoxelIn(data[..], i, row, dep) == Encode(decomp, c)
      ensures forall col, row, dep ::
        (0 <= col < width && 0 <= row < height && 0 <= dep < depth && col != i) ==>
        VoxelIn(data[..], col, row, dep) == VoxelIn(old(data[..]), col, row, dep)
    {
      var j := 0;
      while j < height
        invariant 0 <= j <= height
        invariant forall row, dep :: 0 <= row < j && 0 <= dep < depth ==> VoxelIn(data[..], i, row, dep) == Encode(decomp, c)
        invariant forall col, row, dep ::
          (0 <= col < width && 0 <= row < height && 0 <= dep < depth && (col != i || j <= row)) ==>
          VoxelIn(data[..], col, row, dep) == VoxelIn(old(data[..]), col, row, dep)
      {
        ghost var s := data[..];
        FillDepths(i, j, c);
        forall row, dep | 0 <= row <= j && 0 <= dep < depth
          ensures VoxelIn(data[..], i, row, dep) == Encode(decomp, c)
        {
          if row < j {
            assert VoxelIn(data[..], i, row, dep) == VoxelIn(s, i, row, dep);
          }
        }
        forall col, row, dep | 0 <= col < width && 0 <= row < height && 0 <= dep < depth && (col != i || j + 1 <= row)
          ensures VoxelIn(data[..], col, row, dep) == VoxelIn(old(data[..]), col, row, dep)
        {
          assert VoxelIn(data[..], col, row, dep) == VoxelIn(s, col, row, dep);
        }
        j := j + 1;
      }
    }

    /** `fill(color)`: every voxel holds the encoding of the colour. */
    method Fill(c: Vec4)
      requires Valid()
      modifies data
      ensures Valid()
      ensures 0 < width && 0 < height && 0 < depth ==>
        forall col, row, dep ::
          (0 <= col < width && 0 <= row < height && 0 <= dep < depth) ==> VoxelIn(data[..], col, row, dep) == Encode(decomp, c)
    {
      if width == 0 || height == 0 || depth == 0 {
        return;
      }
      var i := 0;
      while i < width
        invariant 0 <= i <= width
        invariant forall col, row, dep ::
          (0 <= col < i && 0 <= row < height && 0 <= dep < depth) ==> VoxelIn(data[..], col, row, dep) == Encode(decomp, c)
      {
        FillColumn(i, c);
        i := i + 1;
      }
    }

    /** Filled, every voxel reads back the colour with each channel quantised to a byte. */
    lemma FillReadsBack(c: Vec4, col: int, row: int, dep: int)
      requires Valid() && 0 < width && 0 < height && 0 < depth && decomp == RGBA32
      requires VoxelIn(data[..], col, row, dep) == Encode(decomp, c)
      ensures GetVoxel(col, row, dep) == Vec4(StoredByte(c.x) as real / 255.0, StoredByte(c.y) as real / 255.0,
                                              StoredByte(c.z) as real / 255.0, StoredByte(c.w) as real / 255.0)
    {
      DecodeEncode(decomp, c);
    }

    /** `clear()`: 0 x 0 x 1 with no data; the format is kept. */
    method Clear()
      requires Valid()
      modifies this
      ensures Valid() && fresh(data)
      ensures width == 0 && height == 0 && depth == 1 && dataSize == 0 && data.Length == 0
      ensures format == old(format) && decomp == old(decomp)
    {
      data := new byte[0];
      width, height, depth := 0, 0, 1;
      dataSize := 0;
    }
  }
}
