// The media types, the libyuv calls and the memory-frame arithmetic of
// MFVideoEncoder's start and encode.
module EncoderFormats {
  import opened Options
  import opened Bytes
  import opened Align
  import opened MediaFormats
  import opened Mft
  import opened EncoderMath
  import opened CropLayout
  import opened Arith
  import opened Dx11Convert

  /** The output media type start offers the encoder: H.264 at the encoded
      size and fps_num/1000 frames per second, a key frame at least every
      five seconds and width * height * 100 bits per second. */
  function H264OutputType(w: UInt32, h: UInt32, fpsNum: int): (t: MediaType)
    requires SpacingDefined(fpsNum)
    ensures t.subtype == SubtypeH264 && t.width == w && t.height == h
    ensures t.fpsNum == fpsNum && t.fpsDen == FPS_DEN
    ensures fpsNum >= 0 ==> t.keyFrameSpacing * FPS_DEN <= 5 * fpsNum < (t.keyFrameSpacing + 1) * FPS_DEN
    ensures w * h * 100 < UINT32_LIMIT ==> t.bitRate == w * h * 100
  {
    var t := MediaType(SubtypeH264, w, h, fpsNum, FPS_DEN, KeyFrameSpacing(fpsNum), Bitrate(w, h));
    if fpsNum >= 0 then SpacingIsFiveSeconds(fpsNum); t else t
  }

  /** An uncompressed media type of the given subtype and size at
      fps_num/1000 frames per second (start's pInputType). */
  function RawType(subtype: Guid, w: UInt32, h: UInt32, fpsNum: int): (t: MediaType)
    ensures t.subtype == subtype && t.width == w && t.height == h
    ensures t.fpsNum == fpsNum && t.fpsDen == FPS_DEN
    ensures t.keyFrameSpacing == 0 && t.bitRate == 0
  {
    MediaType(subtype, w, h, fpsNum, FPS_DEN, 0, 0)
  }

  /** The planes of a libyuv destination (or source) of a picture h rows
      high lie one after another from offset 0 and fill exactly len bytes:
      the first plane has h rows, every later (chroma) plane h / 2. */
  predicate PlanesTile(planes: seq<PlaneArg>, h: nat, len: int)
  {
    |planes| > 0 && planes[0].offset == 0 &&
    (forall k | 0 < k < |planes| ::
       planes[k].offset == planes[k - 1].offset + (if k == 1 then h else h / 2) * planes[k - 1].stride) &&
    planes[|planes| - 1].offset + (if |planes| == 1 then h else h / 2) * planes[|planes| - 1].stride == len
  }

  /** The libyuv call encode's memory path makes to convert a w x h frame of
      format `from` into the encoder's format `to`: every offset and stride
      is UINT32 arithmetic on the encoder's width and height. No call is
      made for any other pair of formats. */
  function MemoryConversion(from: VideoFormat, to: VideoFormat, w: UInt32, h: UInt32): (call: Option<YuvCall>)
    ensures call.Some? <==> (from == RGB32 && (to == NV12 || to == IYUV)) ||
                            (from == NV12 && to == IYUV) || (from == IYUV && to == NV12)
    ensures call.Some? ==> call.value.width == w && call.value.height == h
  {
    var y := U32Mul(w, h);
    var v := U32Mul(y, 5) / 4;
    var rgb := [PlaneArg(0, U32Mul(w, 4))];
    var nv12 := [PlaneArg(0, w), PlaneArg(y, w)];
    var i420 := [PlaneArg(0, w), PlaneArg(y, w / 2), PlaneArg(v, w / 2)];
    if from == RGB32 && to == NV12 then Some(YuvCall(ARGBToNV12, rgb, nv12, w, h))
    else if from == RGB32 && to == IYUV then Some(YuvCall(ARGBToI420, rgb, i420, w, h))
    else if from == NV12 && to == IYUV then Some(YuvCall(NV12ToI420, nv12, i420, w, h))
    else if from == IYUV && to == NV12 then Some(YuvCall(I420ToNV12, i420, nv12, w, h))
    else None
  }

  /** width * height * 3 / 2 in UINT32: the size of the memory buffer a
      conversion writes, and of a copied 4:2:0 frame. */
  function Yuv420Len(w: UInt32, h: UInt32): (n: UInt32)
    ensures w * h * 3 < UINT32_LIMIT ==> n == w * h * 3 / 2
  {
    assert w * h >= 0;
    U32Mul(U32Mul(w, h), 3) / 2
  }

  /** For an even-sized picture whose sizes do not wrap UINT32, the planes
      a conversion writes, and the planes it reads from a 4:2:0 source,
      tile a buffer of width * height * 3 / 2 bytes exactly; an RGB32
      source is one plane of width * 4 * height bytes. The source planes
      span ConversionSpan bytes, what MemoryInputFits asks of the frame. */
  lemma ConversionPlanesTile(from: VideoFormat, to: VideoFormat, w: UInt32, h: UInt32)
    requires w % 2 == 0 && h % 2 == 0 && w * h * 5 < UINT32_LIMIT
    requires MemoryConversion(from, to, w, h).Some?
    ensures var call := MemoryConversion(from, to, w, h).value;
      PlanesTile(call.dst, h, Yuv420Len(w, h)) &&
      PlanesTile(call.src, h, ConversionSpan(from, w, h))
  {
    assert w * h >= 0;
    var x := w * h;
    var p := w / 2;
    var q := h / 2;
    assert w == 2 * p && h == 2 * q;
    assert x == 4 * (p * q) by {
      assert w * h == (2 * p) * (2 * q);
    }
    assert U32Mul(w, h) == x;
    assert U32Mul(x, 5) == 5 * x;
    assert U32Mul(x, 3) == 3 * x;
    assert Yuv420Len(w, h) == 6 * (p * q);
    assert U32Mul(x, 5) / 4 == 5 * (p * q);
    assert w * h == h * w;
    assert q * w == 2 * (p * q);
    assert q * p == p * q;
    RgbPlaneTiles(w, h);
  }

  /** The single RGB32 plane of stride UINT32 w * 4 spans w * 4 * h bytes
      when w * h * 5 does not wrap (an empty picture spans none, however
      the stride wraps). */
  lemma RgbPlaneTiles(w: UInt32, h: UInt32)
    requires w * h * 5 < UINT32_LIMIT
    ensures h * U32Mul(w, 4) == w * 4 * h
  {
    if h > 0 {
      MulAtLeast(h, w);
      assert w * 4 <= (h * w) * 4;
      assert U32Mul(w, 4) == w * 4;
    }
  }

  /** The number of bytes encode's memory path copies when no conversion
      is needed: width * height * 4 for RGB32, width * height * 3 / 2
      otherwise, in UINT32. */
  function CopyLength(f: VideoFormat, w: UInt32, h: UInt32): (n: UInt32)
    ensures f == RGB32 && w * h * 4 < UINT32_LIMIT ==> n == w * h * 4
    ensures f != RGB32 ==> n == Yuv420Len(w, h)
  {
    assert w * h >= 0;
    if f == RGB32 then U32Mul(U32Mul(w, h), 4) else Yuv420Len(w, h)
  }

  /** InputVTextureData: a texture, when one is given, described by the
      size in its texture description. */
  datatype TextureInput = TextureInput(width: int, height: int, format: VideoFormat, texture: Option<Size>)

  /** InputVMemoryData: a frame in memory, when one is given, and the size
      field the caller declares for it. */
  datatype MemoryInput = MemoryInput(width: int, height: int, format: VideoFormat,
                                     data: Option<seq<byte>>, size: nat)

  /** The crop_memory_data arguments of a memory frame: the crop origin
      (UINT)(width * left), (UINT)(height * top), and the aligned crop size. */
  predicate MemoryCropDefined(input: MemoryInput, c: CropRect)
  {
    input.width >= 0 && input.height >= 0 && FrameDefined(input.width, input.height, c) &&
    ScaleCasts(input.width, c.left) && ScaleCasts(input.height, c.top)
  }

  function MemoryCrop(input: MemoryInput, c: CropRect): (r: Crop)
    requires MemoryCropDefined(input, c)
    ensures Fw(r) == FrameWidth(input.width, input.height, c)
    ensures Fh(r) == FrameHeight(input.width, input.height, c)
    ensures r.format == input.format && r.width == input.width && r.height == input.height
  {
    var fw := FrameWidth(input.width, input.height, c);
    var fh := FrameHeight(input.width, input.height, c);
    EvenCrop(input.format, input.width, input.height, ScaleTrunc(input.width, c.left), ScaleTrunc(input.height, c.top),
             fw, fh)
  }

  /** The bytes a libyuv conversion of a w x h picture of format `from`
      reads: its source planes, laid end to end from the frame's start
      (the w * 4 * h bytes of RGB32, the w * h * 3 / 2 bytes of a 4:2:0
      frame; see ConversionPlanesTile). */
  function ConversionSpan(from: VideoFormat, w: UInt32, h: UInt32): (n: nat)
    ensures from == RGB32 ==> n == w * 4 * h
    ensures from != RGB32 ==> 2 * n <= 3 * (w * h) < 2 * n + 2
  {
    assert w * h >= 0;
    if from == RGB32 then w * 4 * h else w * h * 3 / 2
  }

  /** What encode reads of a memory frame stays inside it. With the crop
      active, crop_memory_data first casts the cropped frame size; it then
      reads the crop window of an RGB32, NV12 or IYUV frame, and leaves no
      buffer at all for any other format, which is harmless when a
      conversion follows (no libyuv call takes such a frame) but not when
      the frame is to be copied as it is. A conversion reads its source
      planes at the encoder's size from the (cropped) frame, which must
      hold them. The copy of a frame already in the encoder's format must
      also fit the declared size. */
  predicate MemoryInputFits(input: MemoryInput, c: CropRect, t: MediaType)
  {
    input.data.Some? ==>
      (CropActive(c) ==>
         input.width >= 0 && input.height >= 0 && FrameDefined(input.width, input.height, c) &&
         (Croppable(input.format) || GuidToVideoFormat(t.subtype) == input.format ==>
            MemoryCropDefined(input, c) && Croppable(input.format) &&
            SizeFits(MemoryCrop(input, c)) && WindowInFrame(MemoryCrop(input, c), |input.data.value|))) &&
      (GuidToVideoFormat(t.subtype) != input.format &&
       MemoryConversion(input.format, GuidToVideoFormat(t.subtype), t.width, t.height).Some? ==>
         ConversionSpan(input.format, t.width, t.height) <=
           (if CropActive(c) then OutLen(MemoryCrop(input, c)) else |input.data.value|)) &&
      (GuidToVideoFormat(t.subtype) == input.format ==>
         var n := CopyLength(input.format, t.width, t.height);
         n <= input.size &&
         n <= (if CropActive(c) then OutLen(MemoryCrop(input, c)) else |input.data.value|))
  }

  /** A 32 x 2 RGB32 frame (256 bytes), uncropped, is refused by an
      encoder whose input type is 64 x 4 NV12: ARGBToNV12 would read its
      four rows of 256 bytes. */
  lemma ShortFrameRefused(t: MediaType, c: CropRect, bytes: seq<byte>)
    requires t.subtype == SubtypeNV12 && t.width == 64 && t.height == 4
    requires !CropActive(c) && |bytes| == 256
    ensures !MemoryInputFits(MemoryInput(32, 2, RGB32, Some(bytes), 256), c, t)
  {
    assert GuidToVideoFormat(t.subtype) == NV12;
    assert ConversionSpan(RGB32, 64, 4) == 1024;
  }

  /** cropped_data in encode's memory path: the frame itself when the crop
      is not active, otherwise the array crop_memory_data fills, with the
      corrected chroma offsets, or None (null) for a format it does not
      handle. */
  function MemorySource(input: MemoryInput, c: CropRect, t: MediaType): (r: Option<seq<byte>>)
    requires input.data.Some? && MemoryInputFits(input, c, t)
    ensures !CropActive(c) ==> r == input.data
    ensures CropActive(c) ==> (r.Some? <==> Croppable(input.format))
    ensures CropActive(c) && r.Some? ==> |r.value| == OutLen(MemoryCrop(input, c))
  {
    if !CropActive(c) then input.data
    else if !Croppable(input.format) then None
    else
      WindowInBounds(MemoryCrop(input, c), |input.data.value|);
      Some(Cropped(MemoryCrop(input, c), input.data.value, Intended))
  }

  /** The buffer encode's memory path hands the encoder for a frame, t
      being the encoder's input type: when the formats differ, a buffer of
      width * height * 3 / 2 bytes that the libyuv conversion fills from
      the (cropped) frame; otherwise one of the declared size holding the
      first CopyLength bytes of the (cropped) frame. */
  function MemoryBuffer(input: MemoryInput, c: CropRect, t: MediaType): (b: Buffer)
    requires input.data.Some? && MemoryInputFits(input, c, t)
    ensures b.Converted? <==> GuidToVideoFormat(t.subtype) != input.format
    ensures b.Converted? ==> b.len == Yuv420Len(t.width, t.height) && b.source == MemorySource(input, c, t)
    ensures b.Converted? && b.call.Some? ==>
      b.source.Some? && ConversionSpan(input.format, t.width, t.height) <= |b.source.value|
    ensures b.Copied? ==>
      b.len == input.size && |b.bytes| == CopyLength(input.format, t.width, t.height) <= input.size &&
      MemorySource(input, c, t).Some? && b.bytes <= MemorySource(input, c, t).value
  {
    var format := GuidToVideoFormat(t.subtype);
    var n := CopyLength(input.format, t.width, t.height);
    var source := MemorySource(input, c, t);
    if format != input.format then
      Converted(Yuv420Len(t.width, t.height), MemoryConversion(input.format, format, t.width, t.height), source)
    else
      Copied(input.size, source.value[..n])
  }

  /** The memory path's buffer construction, cropping through a fresh
      crop_memory_data array; for a format crop_memory_data does not handle,
      the cropped data stays null (None). */
  method BuildMemoryBuffer(input: MemoryInput, c: CropRect, t: MediaType) returns (b: Buffer)
    requires input.data.Some? && MemoryInputFits(input, c, t)
    ensures b == MemoryBuffer(input, c, t)
  {
    var format := GuidToVideoFormat(t.subtype);
    var frame := input.data.value;
    var cropped: Option<seq<byte>> := Some(frame);
    if CropActive(c) {
      if Croppable(input.format) {
        WindowInBounds(MemoryCrop(input, c), |frame|);
        var a := CropMemoryData(frame, MemoryCrop(input, c), Intended);
        cropped := Some(a[..]);
      } else {
        cropped := None;
      }
    }
    if format != input.format {
      b := Converted(Yuv420Len(t.width, t.height), MemoryConversion(input.format, format, t.width, t.height), cropped);
    } else {
      b := Copied(input.size, cropped.value[..CopyLength(input.format, t.width, t.height)]);
    }
  }

  /** A frame crop_memory_data does not handle (YV12, say), with the crop
      active, is encoded as long as its format differs from the encoder's:
      it is taken on any size that casts, and handed over as a
      width * height * 3 / 2 buffer that no conversion fills. */
  lemma UncroppableFrameEncoded(input: MemoryInput, c: CropRect, t: MediaType)
    requires input.data.Some? && CropActive(c) && !Croppable(input.format)
    requires GuidToVideoFormat(t.subtype) != input.format
    requires input.width >= 0 && input.height >= 0 && FrameDefined(input.width, input.height, c)
    ensures MemoryInputFits(input, c, t)
    ensures MemoryBuffer(input, c, t) == Converted(Yuv420Len(t.width, t.height), None, None)
  {
    assert input.format != RGB32 && input.format != NV12 && input.format != IYUV;
  }
}
