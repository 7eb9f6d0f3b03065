// Media Foundation subtype GUIDs and the two format enumerations that are
// translated to and from them: the encoder's VIDEO_FORMAT and the camera's
// CAMERA_COLOR_FORMAT.
module MediaFormats {

  /** The GUIDs the sources compare against; every other GUID is Other. */
  datatype Guid =
    | GuidNull
    | SubtypeIYUV
    | SubtypeNV12
    | SubtypeYV12
    | SubtypeRGB32
    | SubtypeRGB24
    | SubtypeYUY2
    | SubtypeI420
    | SubtypeUYVY
    | SubtypeH264
    | Other(id: nat)

  /** VIDEO_FORMAT: IYUV = 0, NV12, YV12, RGB32, and the sentinel MAX. */
  datatype VideoFormat = IYUV | NV12 | YV12 | RGB32 | FormatMax

  /** The subtypes that have a VIDEO_FORMAT of their own. */
  predicate IsVideoGuid(g: Guid)
  {
    g == SubtypeIYUV || g == SubtypeNV12 || g == SubtypeYV12 || g == SubtypeRGB32
  }

  /** video_format_to_guid: the subtype of a format, GUID_NULL for MAX. */
  function VideoFormatToGuid(f: VideoFormat): (g: Guid)
    ensures f == FormatMax <==> g == GuidNull
    ensures f != FormatMax <==> IsVideoGuid(g)
  {
    match f
    case IYUV => SubtypeIYUV
    case NV12 => SubtypeNV12
    case YV12 => SubtypeYV12
    case RGB32 => SubtypeRGB32
    case FormatMax => GuidNull
  }

  /** guid_to_video_format: the format of a subtype; any other GUID,
      GUID_NULL included, becomes MAX. */
  function GuidToVideoFormat(g: Guid): (f: VideoFormat)
    ensures f == FormatMax <==> !IsVideoGuid(g)
  {
    if g == SubtypeIYUV then IYUV
    else if g == SubtypeNV12 then NV12
    else if g == SubtypeYV12 then YV12
    else if g == SubtypeRGB32 then RGB32
    else FormatMax
  }

  /** Every real format survives the trip to its GUID and back. */
  lemma FormatGuidRoundTrip(f: VideoFormat)
    requires f != FormatMax
    ensures GuidToVideoFormat(VideoFormatToGuid(f)) == f
  {
  }

  /** Every known subtype survives the trip to its format and back. */
  lemma GuidFormatRoundTrip(g: Guid)
    requires IsVideoGuid(g)
    ensures VideoFormatToGuid(GuidToVideoFormat(g)) == g
  {
  }

  /** CAMERA_COLOR_FORMAT: NONE = 0, RGB32, RGB24, NV12, YUY2, I420, UYVY. */
  datatype CameraFormat =
    CameraNone | CameraRGB32 | CameraRGB24 | CameraNV12 | CameraYUY2 | CameraI420 | CameraUYVY

  predicate IsCameraGuid(g: Guid)
  {
    g == SubtypeRGB32 || g == SubtypeRGB24 || g == SubtypeNV12 || g == SubtypeYUY2
    || g == SubtypeI420 || g == SubtypeUYVY
  }

  /** guid_to_camera_format: the six camera subtypes map to their format,
      everything else (IYUV and YV12 included) to NONE. */
  function GuidToCameraFormat(g: Guid): (f: CameraFormat)
    ensures f == CameraNone <==> !IsCameraGuid(g)
    ensures g == SubtypeI420 <==> f == CameraI420
    ensures g == SubtypeNV12 <==> f == CameraNV12
  {
    if g == SubtypeRGB32 then CameraRGB32
    else if g == SubtypeRGB24 then CameraRGB24
    else if g == SubtypeNV12 then CameraNV12
    else if g == SubtypeYUY2 then CameraYUY2
    else if g == SubtypeI420 then CameraI420
    else if g == SubtypeUYVY then CameraUYVY
    else CameraNone
  }

  /** Distinct camera subtypes yield distinct camera formats. */
  lemma CameraFormatInjective(g: Guid, h: Guid)
    requires IsCameraGuid(g) && IsCameraGuid(h) && g != h
    ensures GuidToCameraFormat(g) != GuidToCameraFormat(h)
  {
  }
}
