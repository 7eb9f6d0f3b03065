// The arithmetic of MFVideoEncoder: the encode resolution derived from the
// crop rectangle and the scale ratio, the H.264 output type attributes, the
// time stamps, and the libyuv plane arguments of the memory path. The
// float crop and scale values are modelled as exact reals.
module EncoderMath {
  import opened Align
  import opened Arith
  import opened MediaFormats

  /** MPEG_TIME_BASE, the default time base of the stamps. */
  const MPEG_TIME_BASE: int := 90000

  /** The crop rectangle as fractions of the frame. */
  datatype CropRect = CropRect(left: real, top: real, right: real, bottom: real)

  /** The crop the encoder starts with and stop restores: the whole frame. */
  const FullCrop: CropRect := CropRect(0.0, 0.0, 1.0, 1.0)

  /** A (UINT32) or (UINT) cast of a float is defined for values in
      [0, 2^32); it truncates. */
  predicate CastsToUInt32(x: real)
  {
    0.0 <= x < 4294967296.0
  }

  function Trunc(x: real): (r: UInt32)
    requires CastsToUInt32(x)
    ensures r as real <= x < r as real + 1.0
  {
    x.Floor
  }

  /** A (UINT32) or (UINT) cast of n * f, an integer scaled by a float. */
  predicate ScaleCasts(n: int, f: real)
  {
    CastsToUInt32(n as real * f)
  }

  function ScaleTrunc(n: int, f: real): (r: UInt32)
    requires ScaleCasts(n, f)
    ensures r as real <= n as real * f < r as real + 1.0
  {
    Trunc(n as real * f)
  }

  /** An (int) or (int64_t) cast of a float: truncation toward zero. */
  function TruncInt(x: real): (r: int)
    ensures 0.0 <= x ==> r as real <= x < r as real + 1.0
    ensures x < 0.0 ==> r as real - 1.0 < x <= r as real
  {
    if x >= 0.0 then x.Floor else -((-x).Floor)
  }

  /** frame_width and frame_height of start and crop_memory_data: the
      cropped size, truncated, then aligned to 16 columns and 2 rows. */
  predicate FrameDefined(width: int, height: int, c: CropRect)
  {
    ScaleCasts(width, c.right - c.left) && ScaleCasts(height, c.bottom - c.top)
  }

  function FrameWidth(width: int, height: int, c: CropRect): (r: UInt32)
    requires FrameDefined(width, height, c)
    ensures r % 16 == 0 && r % 2 == 0
  {
    XAlign(ScaleTrunc(width, c.right - c.left), 16)
  }

  function FrameHeight(width: int, height: int, c: CropRect): (r: UInt32)
    requires FrameDefined(width, height, c)
    ensures r % 2 == 0
  {
    XAlign(ScaleTrunc(height, c.bottom - c.top), 2)
  }

  /** The encoded size: the frame size scaled, truncated, aligned again. */
  predicate EncodedDefined(width: int, height: int, c: CropRect, scale: real)
  {
    FrameDefined(width, height, c) &&
    ScaleCasts(FrameWidth(width, height, c), scale) && ScaleCasts(FrameHeight(width, height, c), scale)
  }

  function EncodedWidth(width: int, height: int, c: CropRect, scale: real): (r: UInt32)
    requires EncodedDefined(width, height, c, scale)
    ensures r % 16 == 0
  {
    XAlign(ScaleTrunc(FrameWidth(width, height, c), scale), 16)
  }

  function EncodedHeight(width: int, height: int, c: CropRect, scale: real): (r: UInt32)
    requires EncodedDefined(width, height, c, scale)
    ensures r % 2 == 0
  {
    XAlign(ScaleTrunc(FrameHeight(width, height, c), scale), 2)
  }

  /** With scale 1 the encoded size is the frame size: an aligned value
      survives a second alignment. */
  lemma UnitScaleKeepsFrame(width: int, height: int, c: CropRect)
    requires FrameDefined(width, height, c)
    ensures EncodedDefined(width, height, c, 1.0)
    ensures EncodedWidth(width, height, c, 1.0) == FrameWidth(width, height, c)
    ensures EncodedHeight(width, height, c, 1.0) == FrameHeight(width, height, c)
  {
    AlignedFixed(FrameWidth(width, height, c), 16);
    AlignedFixed(FrameHeight(width, height, c), 2);
  }

  /** The full crop of a frame whose width is a multiple of 16 and whose
      height is even keeps the frame size. */
  lemma FullCropKeepsSize(width: UInt32, height: UInt32)
    requires width % 16 == 0 && height % 2 == 0
    ensures FrameDefined(width, height, FullCrop)
    ensures FrameWidth(width, height, FullCrop) == width
    ensures FrameHeight(width, height, FullCrop) == height
  {
    FullSide(width, 16);
    FullSide(height, 2);
  }

  /** One side of the full crop: n * (1 - 0), truncated and aligned. */
  lemma FullSide(n: UInt32, a: int)
    requires IsAlignment(a) && n % a == 0
    ensures ScaleCasts(n, 1.0 - 0.0)
    ensures XAlign(ScaleTrunc(n, 1.0 - 0.0), a) == n
  {
    assert n as real * (1.0 - 0.0) == n as real;
    AlignedFixed(n, a);
  }

  /** The crop is applied when either side differs from the full frame by
      more than the 0.01 tolerance. */
  predicate CropActive(c: CropRect)
  {
    Abs(c.right - c.left - 1.0) > 0.01 || Abs(c.bottom - c.top - 1.0) > 0.01
  }

  function Abs(x: real): (r: real)
    ensures r >= 0.0 && (r == x || r == -x)
  {
    if x < 0.0 then -x else x
  }

  lemma FullCropInactive()
    ensures !CropActive(FullCrop)
  {
  }

  /** fps_num = (int)(fps * 1000), defined when it fits an int. */
  predicate FpsDefined(fps: real)
  {
    -2147483648.0 < fps * 1000.0 < 2147483648.0
  }

  function FpsNum(fps: real): (n: int)
    requires FpsDefined(fps)
    ensures -0x8000_0000 <= n < 0x8000_0000
  {
    TruncInt(fps * 1000.0)
  }

  /** The frame-rate denominator start sets. */
  const FPS_DEN: int := 1000

  /** MF_MT_MAX_KEYFRAME_SPACING: fps_num * 5 / fps_den in int, stored as a
      UINT32; defined when fps_num * 5 does not overflow. */
  predicate SpacingDefined(fpsNum: int)
  {
    -0x8000_0000 <= fpsNum * 5 < 0x8000_0000
  }

  function KeyFrameSpacing(fpsNum: int): (r: UInt32)
    requires SpacingDefined(fpsNum)
    ensures fpsNum >= 0 ==> r == fpsNum * 5 / FPS_DEN
  {
    CDiv(fpsNum * 5, FPS_DEN) % UINT32_LIMIT
  }

  /** One key frame at least every five seconds: at fps frames per second
      the spacing is five seconds' worth of frames, rounded down. */
  lemma SpacingIsFiveSeconds(fpsNum: int)
    requires 0 <= fpsNum && SpacingDefined(fpsNum)
    ensures KeyFrameSpacing(fpsNum) * FPS_DEN <= 5 * fpsNum < (KeyFrameSpacing(fpsNum) + 1) * FPS_DEN
  {
  }

  /** MF_MT_AVG_BITRATE: width * height * 100 in UINT32, so it wraps. */
  function Bitrate(w: UInt32, h: UInt32): (r: UInt32)
    ensures w * h * 100 < UINT32_LIMIT ==> r == w * h * 100
  {
    U32Mul(U32Mul(w, h), 100)
  }

  /** A UINT32 product. */
  function U32Mul(a: UInt32, b: UInt32): (r: UInt32)
    ensures a * b < UINT32_LIMIT ==> r == a * b
  {
    var p := a * b;
    assert p >= 0;
    p % UINT32_LIMIT
  }

  /** The duration of one frame: (int64_t)(time_base / fps), where fps is
      the input type's frame-rate ratio fps_num / fps_den. */
  function FrameDuration(timeBase: int, fpsNum: nat, fpsDen: nat): (d: int)
    requires fpsNum > 0 && fpsDen > 0
    ensures timeBase >= 0 ==> d >= 0 && d * fpsNum <= timeBase * fpsDen < (d + 1) * fpsNum
  {
    var x := timeBase as real * fpsDen as real / fpsNum as real;
    DurationBounds(timeBase, fpsNum, fpsDen, x);
    TruncInt(x)
  }

  /** The truncated quotient bounds the exact one. */
  lemma DurationBounds(timeBase: int, fpsNum: nat, fpsDen: nat, x: real)
    requires fpsNum > 0 && fpsDen > 0 && x == timeBase as real * fpsDen as real / fpsNum as real
    ensures var d := TruncInt(x);
      timeBase >= 0 ==> d >= 0 && d * fpsNum <= timeBase * fpsDen < (d + 1) * fpsNum
  {
    var d := TruncInt(x);
    if timeBase >= 0 {
      assert x >= 0.0;
      ScaleBounds(d, x, fpsNum);
      assert x * fpsNum as real == (timeBase * fpsDen) as real;
    }
  }

  /** d <= x < d + 1 scaled by a positive n. */
  lemma ScaleBounds(d: int, x: real, n: nat)
    requires n > 0 && d as real <= x < d as real + 1.0
    ensures (d * n) as real <= x * n as real
    ensures x * n as real < ((d + 1) * n) as real
  {
    ScaleAgainst(d, x, n);
    ScaleAgainst(d + 1, x, n);
  }

  /** Comparing x with an integer m survives scaling both by a positive n. */
  lemma ScaleAgainst(m: int, x: real, n: nat)
    requires n > 0
    ensures m as real <= x ==> (m * n) as real <= x * n as real
    ensures x < m as real ==> x * n as real < (m * n) as real
  {
    RealOfProduct(m, n);
    if m as real <= x {
      RealScale(m as real, x, n as real);
    } else {
      RealScaleStrict(x, m as real, n as real);
    }
  }

  lemma RealOfProduct(a: int, b: int)
    ensures (a * b) as real == a as real * b as real
  {
  }

  lemma RealScale(a: real, b: real, k: real)
    requires k > 0.0 && a <= b
    ensures a * k <= b * k
  {
    assert (b - a) * k >= 0.0;
  }

  lemma RealScaleStrict(a: real, b: real, k: real)
    requires k > 0.0 && a < b
    ensures a * k < b * k
  {
    assert (b - a) * k > 0.0;
  }
}
