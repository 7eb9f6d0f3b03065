// MFVideoEncoder: one H.264 encoding session over the Media Foundation
// encoder transform, with an optional video-processor transform (the IYUV
// fallback) or a GPU NV12 converter (the NV12 path).
module MfEncoder {
  import opened Options
  import opened Bytes
  import opened HResults
  import opened Align
  import opened MediaFormats
  import opened Mft
  import opened EncoderMath
  import opened CropLayout
  import opened Dx11Convert
  import opened EncodeLoop
  import opened EncodeDrive
  import opened EncoderFormats

  /** start takes the NV12 path: the encoder exists, accepts the H.264
      output type and accepts NV12 input. */
  predicate Nv12Path(h264: Transform?)
  {
    h264 != null && SubtypeH264 in h264.acceptedOutputs && SubtypeNV12 in h264.acceptedInputs
  }

  /** start reaches the video processor: NV12 is refused, IYUV accepted. */
  predicate ReachesProcessor(h264: Transform?)
  {
    h264 != null && SubtypeH264 in h264.acceptedOutputs &&
    SubtypeNV12 !in h264.acceptedInputs && SubtypeIYUV in h264.acceptedInputs
  }

  /** start takes the IYUV path: the processor exists, produces IYUV and
      takes RGB32. */
  predicate IyuvPath(h264: Transform?, processor: Transform?)
  {
    ReachesProcessor(h264) && processor != null &&
    SubtypeIYUV in processor.acceptedOutputs && SubtypeRGB32 in processor.acceptedInputs
  }

  /** encode(InputVTextureData) gives up on a texture that already has the
      encoder's format when the cropped texture cannot be created or the
      surface buffer cannot be made. */
  predicate SurfaceFails(input: TextureInput, format: VideoFormat, crop: CropRect, cropOk: bool, surfaceOk: bool)
  {
    input.texture.Some? && format == input.format && ((CropActive(crop) && !cropOk) || !surfaceOk)
  }

  /** stop's release of the device as written: an owned device is released
      through its pointer and the pointer is cleared, but the ownership flag
      stays set, so a stop that finds the pointer already null releases
      through a null pointer (None). Otherwise the new pointer state. */
  function StopDeviceAsWritten(hasDevice: bool, ownDevice: bool): (r: Option<bool>)
    ensures r.None? <==> ownDevice && !hasDevice
    ensures r.Some? ==> (r.value <==> hasDevice && !ownDevice)
  {
    if ownDevice then (if hasDevice then Some(false) else None) else Some(hasDevice)
  }

  /** A second stop of an encoder that owns its device: the first clears the
      pointer, the second releases through it. */
  lemma SecondStopReleasesNull()
    ensures StopDeviceAsWritten(true, true) == Some(false)
    ensures StopDeviceAsWritten(StopDeviceAsWritten(true, true).value, true).None?
  {
  }

  /** stop's release of the device, guarded on the pointer: an owned device
      that is still set is released and cleared; nothing else changes. */
  function StopDevice(hasDevice: bool, ownDevice: bool): (r: bool)
    ensures r ==> hasDevice
    ensures ownDevice ==> !r
    ensures !ownDevice ==> r == hasDevice
    ensures StopDeviceAsWritten(hasDevice, ownDevice).Some? ==> StopDeviceAsWritten(hasDevice, ownDevice) == Some(r)
  {
    hasDevice && !ownDevice
  }

  /** The guarded release is defined on every state and a second stop changes
      nothing a first one has not. */
  lemma StopDeviceIdempotent(hasDevice: bool, ownDevice: bool)
    ensures StopDevice(StopDevice(hasDevice, ownDevice), ownDevice) == StopDevice(hasDevice, ownDevice)
    ensures StopDeviceAsWritten(StopDevice(hasDevice, ownDevice), ownDevice).None? <==> ownDevice
  {
  }

  /** MFVideoEncoder::Impl. hasDevice says whether the D3D11 device pointer
      is set, ownDevice whether the encoder created it. stamps records,
      as ghost state, every sample stamped since the last stop. */
  class VideoEncoder {
    var hasDevice: bool
    const ownDevice: bool
    var encoder: Transform?
    var convert: Transform?
    var shader: ShaderNv12?
    var timeBase: int
    var frameCount: int
    var encodedWidth: UInt32
    var encodedHeight: UInt32
    var crop: CropRect
    var scale: real
    ghost var stamps: seq<Sample>

    /** The frame counter counts the stamped samples, the k-th of which has
        time k * its duration; the transforms keep their script invariant
        and are two distinct objects. */
    ghost predicate Valid()
      reads this, encoder, convert
    {
      frameCount == |stamps| &&
      (forall k | 0 <= k < |stamps| :: stamps[k].time == k * stamps[k].duration) &&
      (encoder != null ==> encoder.Valid()) &&
      (encoder != null && convert != null ==> encoder != convert)
    }

    /** The NV12 converter, when there is one, is consistent. Only start
        and stop touch it. */
    ghost predicate ConverterValid()
      reads this, shader
    {
      shader != null ==> shader.Valid()
    }

    /** The constructor: with no device given the encoder creates its own
        (created says whether that succeeded) and owns it. */
    constructor (deviceGiven: bool, created: bool)
      ensures Valid() && ConverterValid()
      ensures hasDevice == (deviceGiven || created) && ownDevice == !deviceGiven
      ensures encoder == null && convert == null && shader == null
      ensures timeBase == MPEG_TIME_BASE && frameCount == 0 && stamps == []
      ensures encodedWidth == 0 && encodedHeight == 0 && crop == FullCrop && scale == 1.0
    {
      hasDevice := deviceGiven || created;
      ownDevice := !deviceGiven;
      encoder, convert, shader := null, null, null;
      timeBase := MPEG_TIME_BASE;
      frameCount := 0;
      stamps := [];
      encodedWidth, encodedHeight := 0, 0;
      crop := FullCrop;
      scale := 1.0;
    }

    /** start: computes the frame size (the crop, aligned) and the encoded
        size (the frame size scaled, aligned again), then negotiates: the
        H.264 output type, then NV12 input, which brings up the GPU NV12
        converter at the encoded size; failing that IYUV input, with the
        video processor producing IYUV at the encoded size from RGB32 at
        the frame size. h264 and processor are the transforms
        CoCreateInstance returns (null when creation fails); failed lists
        the converter resources whose creation fails. On failure both
        transform pointers are released and reset. */
    method Start(width: int, height: int, fps: real, h264: Transform?, processor: Transform?,
                 failed: set<Resource>) returns (ok: bool)
      requires Valid()
      requires EncodedDefined(width, height, crop, scale) && FpsDefined(fps) && SpacingDefined(FpsNum(fps))
      requires h264 != null ==> h264.Valid() && h264 != encoder && h264 != convert
      requires processor != null ==> processor != h264 && processor != encoder && processor != convert
      requires Nv12Path(h264) ==> hasDevice
      modifies this, h264, processor, convert
      ensures crop == old(crop) && scale == old(scale) && hasDevice == old(hasDevice)
      ensures frameCount == old(frameCount) && stamps == old(stamps) && timeBase == old(timeBase)
      ensures Valid()
      ensures encodedWidth == EncodedWidth(width, height, crop, scale)
      ensures encodedHeight == EncodedHeight(width, height, crop, scale)
      ensures ok <==> Nv12Path(h264) || IyuvPath(h264, processor)
      ensures ok ==> encoder == h264 && h264.outputType == Some(H264OutputType(encodedWidth, encodedHeight, FpsNum(fps)))
      ensures Nv12Path(h264) ==>
        h264.inputType == Some(RawType(SubtypeNV12, encodedWidth, encodedHeight, FpsNum(fps))) &&
        convert == old(convert) && shader != null && fresh(shader) && shader.Valid() && shader.device &&
        shader.viewportWidth == encodedWidth && shader.viewportHeight == encodedHeight &&
        (forall t :: Prepared(shader.views.targets[t], NoTarget, t, encodedWidth, encodedHeight,
                              TargetTexture(t) !in failed, FIRST_VIEW_ID))
      ensures IyuvPath(h264, processor) ==>
        h264.inputType == Some(RawType(SubtypeIYUV, encodedWidth, encodedHeight, FpsNum(fps))) &&
        convert == processor && shader == old(shader) &&
        processor.outputType == Some(RawType(SubtypeIYUV, encodedWidth, encodedHeight, FpsNum(fps))) &&
        processor.inputType == Some(RawType(SubtypeRGB32, FrameWidth(width, height, crop),
                                            FrameHeight(width, height, crop), FpsNum(fps)))
      ensures !ok ==> encoder == null && convert == null && shader == old(shader)
      ensures !ok && h264 != null ==> !h264.live
      ensures !ok && ReachesProcessor(h264) && processor != null ==> !processor.live
      ensures !ok && !ReachesProcessor(h264) && old(convert) != null ==> !old(convert).live
    {
      var fw := FrameWidth(width, height, crop);
      var fh := FrameHeight(width, height, crop);
      var ew := EncodedWidth(width, height, crop, scale);
      var eh := EncodedHeight(width, height, crop, scale);
      var nv12;
      ok, nv12 := OpenTransforms(h264, processor, ew, eh, fw, fh, FpsNum(fps));
      if nv12 {
        shader := NewConverter(hasDevice, encodedWidth, encodedHeight, failed);
      }
    }

    /** start's transform half: the sizes, then the creation and
        negotiation of the transforms. */
    method OpenTransforms(h264: Transform?, processor: Transform?,
                          ew: UInt32, eh: UInt32, fw: UInt32, fh: UInt32, fpsNum: int)
      returns (ok: bool, nv12: bool)
      requires Valid() && SpacingDefined(fpsNum)
      requires h264 != null ==> h264.Valid() && h264 != encoder && h264 != convert
      requires processor != null ==> processor != h264 && processor != encoder && processor != convert
      modifies this, h264, processor, convert
      ensures crop == old(crop) && scale == old(scale) && hasDevice == old(hasDevice) && shader == old(shader)
      ensures frameCount == old(frameCount) && stamps == old(stamps) && timeBase == old(timeBase)
      ensures Valid()
      ensures encodedWidth == ew && encodedHeight == eh
      ensures nv12 <==> Nv12Path(h264)
      ensures ok <==> Nv12Path(h264) || IyuvPath(h264, processor)
      ensures ok ==> encoder == h264 && h264.outputType == Some(H264OutputType(ew, eh, fpsNum))
      ensures Nv12Path(h264) ==>
        h264.inputType == Some(RawType(SubtypeNV12, ew, eh, fpsNum)) && convert == old(convert)
      ensures IyuvPath(h264, processor) ==>
        h264.inputType == Some(RawType(SubtypeIYUV, ew, eh, fpsNum)) && convert == processor &&
        processor.outputType == Some(RawType(SubtypeIYUV, ew, eh, fpsNum)) &&
        processor.inputType == Some(RawType(SubtypeRGB32, fw, fh, fpsNum))
      ensures !ok ==> encoder == null && convert == null
      ensures !ok && h264 != null ==> !h264.live
      ensures !ok && ReachesProcessor(h264) && processor != null ==> !processor.live
      ensures !ok && !ReachesProcessor(h264) && old(convert) != null ==> !old(convert).live
    {
      var enc, conv;
      ok, enc, conv, nv12 := Open(h264, processor, convert, ew, eh, fw, fh, fpsNum);
      encoder, convert, encodedWidth, encodedHeight := enc, conv, ew, eh;
    }

    /** stop's release of the two transforms: each set pointer is released
        and reset. */
    method ReleaseTransforms()
      modifies this, encoder, convert
      ensures encoder == null && convert == null
      ensures old(encoder) != null ==> !old(encoder).live
      ensures old(convert) != null ==> !old(convert).live
      ensures old(encoder) != null ==>
        (old(encoder).inputType == old(encoder.inputType) &&
         old(encoder).outputType == old(encoder.outputType) && old(encoder).pullReplies == old(encoder.pullReplies))
      ensures shader == old(shader) && frameCount == old(frameCount) && stamps == old(stamps)
      ensures timeBase == old(timeBase) && crop == old(crop) && scale == old(scale)
      ensures hasDevice == old(hasDevice)
      ensures encodedWidth == old(encodedWidth) && encodedHeight == old(encodedHeight)
    {
      if encoder != null {
        encoder.Release();
        encoder := null;
      }
      if convert != null {
        convert.Release();
        convert := null;
      }
    }

    /** stop: releases and resets both transforms, releases the converter's
        resources and destroys it, releases an owned device, and resets the
        frame counter, the crop rectangle and the scale ratio. A second
        stop of an encoder that owns its device would release the device
        through a null pointer (StopDeviceAsWritten); the model releases
        the device only while the pointer is set. */
    method Stop()
      requires Valid() && ConverterValid()
      modifies this, encoder, convert, shader
      ensures Valid() && ConverterValid()
      ensures encoder == null && convert == null && shader == null
      ensures old(encoder) != null ==> !old(encoder).live
      ensures old(convert) != null ==> !old(convert).live
      ensures old(shader) != null ==>
        old(shader).released == old(shader.released + Held(shader.views) + shader.shaders)
      ensures hasDevice == StopDevice(old(hasDevice), ownDevice)
      ensures frameCount == 0 && stamps == [] && crop == FullCrop && scale == 1.0
      ensures timeBase == old(timeBase)
      ensures encodedWidth == old(encodedWidth) && encodedHeight == old(encodedHeight)
    {
      ReleaseShader();
      ReleaseTransforms();
      if ownDevice && hasDevice {
        hasDevice := false;
      }
      frameCount := 0;
      stamps := [];
      crop := FullCrop;
      scale := 1.0;
    }

    /** stop's release of the converter: its resources, then the object. */
    method ReleaseShader()
      requires shader != null ==> shader.Valid()
      modifies this, shader
      ensures shader == null
      ensures old(shader) != null ==>
        old(shader).released == old(shader.released + Held(shader.views) + shader.shaders)
      ensures encoder == old(encoder) && convert == old(convert) && frameCount == old(frameCount)
      ensures stamps == old(stamps) && timeBase == old(timeBase) && crop == old(crop) && scale == old(scale)
      ensures hasDevice == old(hasDevice)
      ensures encodedWidth == old(encodedWidth) && encodedHeight == old(encodedHeight)
    {
      if shader != null {
        TearDown(shader);
        shader := null;
      }
    }

    method SetTimeBase(t: int)
      modifies this
      ensures timeBase == t
      ensures encoder == old(encoder) && convert == old(convert) && shader == old(shader)
      ensures frameCount == old(frameCount) && stamps == old(stamps) && crop == old(crop) && scale == old(scale)
      ensures hasDevice == old(hasDevice)
      ensures encodedWidth == old(encodedWidth) && encodedHeight == old(encodedHeight)
    {
      timeBase := t;
    }

    method SetCropRect(left: real, top: real, right: real, bottom: real)
      modifies this
      ensures crop == CropRect(left, top, right, bottom)
      ensures encoder == old(encoder) && convert == old(convert) && shader == old(shader)
      ensures frameCount == old(frameCount) && stamps == old(stamps) && timeBase == old(timeBase)
      ensures scale == old(scale) && hasDevice == old(hasDevice)
      ensures encodedWidth == old(encodedWidth) && encodedHeight == old(encodedHeight)
    {
      crop := CropRect(left, top, right, bottom);
    }

    method SetScaleRatio(ratio: real)
      modifies this
      ensures scale == ratio
      ensures encoder == old(encoder) && convert == old(convert) && shader == old(shader)
      ensures frameCount == old(frameCount) && stamps == old(stamps) && timeBase == old(timeBase)
      ensures crop == old(crop) && hasDevice == old(hasDevice)
      ensures encodedWidth == old(encodedWidth) && encodedHeight == old(encodedHeight)
    {
      scale := ratio;
    }

    /** The stamping both encode overloads apply to a sample: duration
        (int64)(time_base / fps) with fps = fps_num / fps_den, time
        frame_count * duration and quantiser 10; the counter then advances
        by one. */
    method Stamp(buffer: Buffer, t: MediaType) returns (s: Sample)
      requires Valid() && t.fpsNum > 0 && t.fpsDen > 0
      modifies this
      ensures Valid()
      ensures s == Sample(buffer, FrameDuration(timeBase, t.fpsNum, t.fpsDen),
                          old(frameCount) * FrameDuration(timeBase, t.fpsNum, t.fpsDen), 10)
      ensures frameCount == old(frameCount) + 1 && stamps == old(stamps) + [s]
      ensures encoder == old(encoder) && convert == old(convert) && shader == old(shader)
      ensures timeBase == old(timeBase) && crop == old(crop) && scale == old(scale)
      ensures hasDevice == old(hasDevice)
      ensures encodedWidth == old(encodedWidth) && encodedHeight == old(encodedHeight)
    {
      var d := FrameDuration(timeBase, t.fpsNum, t.fpsDen);
      s := Sample(buffer, d, frameCount * d, 10);
      frameCount := frameCount + 1;
      stamps := stamps + [s];
    }

    /** encode(InputVTextureData): fails when the encoder has no input type;
        otherwise crops the texture to the frame size when the crop is
        active (cropOk says whether that texture can be created) and wraps
        it in a surface buffer (surfaceOk says whether that succeeds) when
        it already has the encoder's format, or takes the sample
        get_yuv_texture_sample produces (`converted`, None when it gives
        none) when it has not. A sample is stamped; then the loop runs,
        with no texture, or no converted sample, as a drain. */
    method EncodeTexture(input: TextureInput, cropOk: bool, surfaceOk: bool, converted: Option<Buffer>,
                         out: OutputVData) returns (code: Code)
      requires Valid() && encoder != null
      requires out.data != null ==> out.data.Length >= OUTPUT_BUFFER_SIZE
      requires encoder.inputType.Some? ==> encoder.inputType.value.fpsNum > 0 && encoder.inputType.value.fpsDen > 0
      requires input.texture.Some? && CropActive(crop) ==>
        FrameDefined(input.texture.value.width, input.texture.value.height, crop)
      requires input.texture.Some? && CropActive(crop) && !cropOk && encoder.inputType.Some? ==>
        GuidToVideoFormat(encoder.inputType.value.subtype) == input.format
      modifies this, encoder, out, out.data
      ensures timeBase == old(timeBase) && crop == old(crop) && scale == old(scale)
      ensures encoder == old(encoder) && convert == old(convert) && shader == old(shader)
      ensures Valid()
      ensures old(encoder.inputType).None? ==> code == Fail && frameCount == old(frameCount)
      ensures frameCount == old(frameCount) || frameCount == old(frameCount) + 1
      ensures frameCount == old(frameCount) + 1 ==>
        |encoder.pushed| > |old(encoder.pushed)| &&
        encoder.pushed[|old(encoder.pushed)|] == stamps[old(frameCount)] &&
        stamps[old(frameCount)].time == old(frameCount) * stamps[old(frameCount)].duration &&
        stamps[old(frameCount)].qp == 10
      ensures old(encoder.inputType).Some? && input.texture.Some? && !CropActive(crop) && surfaceOk &&
              GuidToVideoFormat(old(encoder.inputType).value.subtype) == input.format ==>
        frameCount == old(frameCount) + 1 &&
        stamps[old(frameCount)].buffer == Surface(input.texture.value.width, input.texture.value.height)
      ensures old(encoder.inputType).Some? && input.texture.Some? && CropActive(crop) && cropOk && surfaceOk &&
              GuidToVideoFormat(old(encoder.inputType).value.subtype) == input.format ==>
        frameCount == old(frameCount) + 1 &&
        stamps[old(frameCount)].buffer ==
          Surface(FrameWidth(input.texture.value.width, input.texture.value.height, crop),
                  FrameHeight(input.texture.value.width, input.texture.value.height, crop))
      ensures input.texture.None? ==> frameCount == old(frameCount)
      ensures old(encoder.inputType).Some? && input.texture.Some? &&
              GuidToVideoFormat(old(encoder.inputType).value.subtype) != input.format ==>
        frameCount == old(frameCount) + (if converted.Some? then 1 else 0) &&
        (converted.Some? ==> stamps[old(frameCount)].buffer == converted.value)
      ensures old(encoder.inputType).None? ||
              SurfaceFails(input, GuidToVideoFormat(old(encoder.inputType).value.subtype), crop, cropOk, surfaceOk) ==>
        code == Fail && frameCount == old(frameCount) && encoder.pushed == old(encoder.pushed) &&
        encoder.messages == old(encoder.messages) && encoder.pullReplies == old(encoder.pullReplies)
      ensures old(encoder.inputType).Some? &&
              !SurfaceFails(input, GuidToVideoFormat(old(encoder.inputType).value.subtype), crop, cropOk, surfaceOk) ==>
        var sent := frameCount != old(frameCount);
        var r := Pump(sent, old(encoder.pushReplies), old(encoder.pullReplies), None, 0);
        code == r.code && encoder.pushReplies == r.pushes && encoder.pullReplies == r.pulls &&
        encoder.messages == old(encoder.messages) + (if sent then [] else [EndOfStream, Drain]) &&
        (r.last.Some? ==> out.Holds(r.last.value)) &&
        (r.last.None? ==> out.Fields() == old(out.Fields()))
      ensures code in {Fail, Success, Starved(frameCount != old(frameCount))}
    {
      if encoder.inputType.None? {
        return Fail;
      }
      var t := encoder.inputType.value;
      var format := GuidToVideoFormat(t.subtype);
      var buffer: Option<Buffer> := None;
      if input.texture.Some? {
        var tex := input.texture.value;
        var cropped: Option<Size> := Some(tex);
        if CropActive(crop) {
          cropped := if cropOk
            then Some(Size(FrameWidth(tex.width, tex.height, crop), FrameHeight(tex.width, tex.height, crop)))
            else None;
        }
        if format != input.format {
          buffer := converted;
        } else {
          if cropped.None? || !surfaceOk {
            return Fail;
          }
          buffer := Some(Surface(cropped.value.width, cropped.value.height));
        }
      }
      if buffer.Some? {
        var s := Stamp(buffer.value, t);
        code := InternalEncode(encoder, Some(s), out);
      } else {
        code := InternalEncode(encoder, None, out);
      }
      PumpCodes(buffer.Some?, old(encoder.pushReplies), old(encoder.pullReplies), None, 0);
    }

    /** encode(InputVMemoryData): fails when the encoder has no input type;
        otherwise crops the frame (crop_memory_data, corrected) when the
        crop is active, then hands the encoder a memory buffer: when the
        frame's format differs from the encoder's, one of width * height *
        3 / 2 bytes that a libyuv conversion fills; otherwise one of the
        declared size into which the first width * height * 4 (RGB32) or
        width * height * 3 / 2 bytes are copied, width and height being the
        encoder's. A sample is stamped; no frame is a drain. */
    method EncodeMemory(input: MemoryInput, out: OutputVData) returns (code: Code)
      requires Valid() && encoder != null
      requires out.data != null ==> out.data.Length >= OUTPUT_BUFFER_SIZE
      requires encoder.inputType.Some? ==> encoder.inputType.value.fpsNum > 0 && encoder.inputType.value.fpsDen > 0
      requires encoder.inputType.Some? ==> MemoryInputFits(input, crop, encoder.inputType.value)
      modifies this, encoder, out, out.data
      ensures timeBase == old(timeBase) && crop == old(crop) && scale == old(scale)
      ensures encoder == old(encoder) && convert == old(convert) && shader == old(shader)
      ensures Valid()
      ensures old(encoder.inputType).None? ==> code == Fail && frameCount == old(frameCount)
      ensures old(encoder.inputType).Some? ==>
        frameCount == old(frameCount) + (if input.data.Some? then 1 else 0)
      ensures old(encoder.inputType).Some? && input.data.Some? ==>
        var t := old(encoder.inputType).value;
        var s := stamps[old(frameCount)];
        |encoder.pushed| > |old(encoder.pushed)| && encoder.pushed[|old(encoder.pushed)|] == s &&
        s.time == old(frameCount) * s.duration && s.qp == 10 &&
        s.duration == FrameDuration(timeBase, t.fpsNum, t.fpsDen) &&
        s.buffer == MemoryBuffer(input, crop, t)
      ensures old(encoder.inputType).None? ==>
        encoder.pushed == old(encoder.pushed) && encoder.messages == old(encoder.messages) &&
        encoder.pullReplies == old(encoder.pullReplies)
      ensures old(encoder.inputType).Some? ==>
        var r := Pump(input.data.Some?, old(encoder.pushReplies), old(encoder.pullReplies), None, 0);
        code == r.code && encoder.pushReplies == r.pushes && encoder.pullReplies == r.pulls &&
        encoder.pushed == old(encoder.pushed) +
          (if input.data.Some? then Copies(stamps[old(frameCount)], r.rounds) else []) &&
        encoder.messages == old(encoder.messages) + (if input.data.Some? then [] else [EndOfStream, Drain]) &&
        (r.last.Some? ==> out.Holds(r.last.value)) &&
        (r.last.None? ==> out.Fields() == old(out.Fields()))
      ensures code in {Fail, Success, Starved(input.data.Some? && old(encoder.inputType).Some?)}
    {
      if encoder.inputType.None? {
        return Fail;
      }
      var t := encoder.inputType.value;
      var format := GuidToVideoFormat(t.subtype);
      PumpCodes(input.data.Some?, encoder.pushReplies, encoder.pullReplies, None, 0);
      if input.data.None? {
        code := InternalEncode(encoder, None, out);
        return;
      }
      var buffer := BuildMemoryBuffer(input, crop, t);
      var s := Stamp(buffer, t);
      code := InternalEncode(encoder, Some(s), out);
    }
  }

  /** stop's end of the converter: its resources are released, then the
      destructor releases its shaders. */
  method TearDown(s: ShaderNv12)
    requires s.Valid()
    modifies s
    ensures s.released == old(s.released + Held(s.views) + s.shaders)
  {
    s.ReleaseResources();
    s.Destroy();
  }

  /** start's creation and negotiation of the transforms: h264 and
      processor are what CoCreateInstance returns for the encoder and the
      video processor (null when creation fails), prior the converter
      pointer start finds. The result is the status, the encoder and
      converter pointers start leaves, and whether the NV12 input was
      taken. On failure the deferred cleanup releases the encoder and the
      converter pointer as it is then: the processor once it was created,
      prior before that. */
  method Open(h264: Transform?, processor: Transform?, prior: Transform?,
              ew: UInt32, eh: UInt32, fw: UInt32, fh: UInt32, fpsNum: int)
    returns (ok: bool, enc: Transform?, conv: Transform?, nv12: bool)
    requires SpacingDefined(fpsNum)
    requires h264 != null ==> h264 != processor && h264 != prior
    requires processor != null ==> processor != prior
    modifies h264, processor, prior
    ensures nv12 <==> Nv12Path(h264)
    ensures ok <==> Nv12Path(h264) || IyuvPath(h264, processor)
    ensures ok ==> enc == h264 && h264.outputType == Some(H264OutputType(ew, eh, fpsNum))
    ensures Nv12Path(h264) ==> conv == prior && h264.inputType == Some(RawType(SubtypeNV12, ew, eh, fpsNum))
    ensures IyuvPath(h264, processor) ==>
      conv == processor && h264.inputType == Some(RawType(SubtypeIYUV, ew, eh, fpsNum)) &&
      processor.outputType == Some(RawType(SubtypeIYUV, ew, eh, fpsNum)) &&
      processor.inputType == Some(RawType(SubtypeRGB32, fw, fh, fpsNum))
    ensures !ok ==> enc == null && conv == null
    ensures !ok && h264 != null ==> !h264.live
    ensures !ok && ReachesProcessor(h264) && processor != null ==> !processor.live
    ensures !ok && !ReachesProcessor(h264) && prior != null ==> !prior.live
    ensures h264 != null ==> h264.pullReplies == old(h264.pullReplies)
  {
    if h264 == null {
      if prior != null {
        prior.Release();
      }
      return false, null, null, false;
    }
    var input := NegotiateEncoder(h264, ew, eh, fpsNum);
    if input == Some(SubtypeNV12) {
      return true, h264, prior, true;
    }
    if input.None? {
      h264.Release();
      if prior != null {
        prior.Release();
      }
      return false, null, null, false;
    }
    ok := false;
    if processor != null {
      ok := NegotiateProcessor(processor, ew, eh, fw, fh, fpsNum);
    }
    if ok {
      return true, h264, processor, false;
    }
    h264.Release();
    if processor != null {
      processor.Release();
    }
    return false, null, null, false;
  }

  /** start's negotiation with the encoder transform: the H.264 output
      type, then NV12 input, then IYUV input. The result is the input
      subtype the encoder took, None when it refused the output type or
      both inputs. Nothing but the two media types changes. */
  method NegotiateEncoder(h264: Transform, ew: UInt32, eh: UInt32, fpsNum: int) returns (input: Option<Guid>)
    requires SpacingDefined(fpsNum)
    modifies h264
    ensures input == Some(SubtypeNV12) <==> Nv12Path(h264)
    ensures input == Some(SubtypeIYUV) <==> ReachesProcessor(h264)
    ensures input.Some? ==> input == Some(SubtypeNV12) || input == Some(SubtypeIYUV)
    ensures SubtypeH264 in h264.acceptedOutputs ==> h264.outputType == Some(H264OutputType(ew, eh, fpsNum))
    ensures input.Some? ==> h264.inputType == Some(RawType(input.value, ew, eh, fpsNum))
    ensures h264.pushReplies == old(h264.pushReplies) && h264.pullReplies == old(h264.pullReplies)
    ensures h264.pushed == old(h264.pushed) && h264.messages == old(h264.messages) && h264.live == old(h264.live)
  {
    var hr := h264.SetOutputType(H264OutputType(ew, eh, fpsNum));
    if Failed(hr) {
      return None;
    }
    hr := h264.SetInputType(RawType(SubtypeNV12, ew, eh, fpsNum));
    if !Failed(hr) {
      return Some(SubtypeNV12);
    }
    hr := h264.SetInputType(RawType(SubtypeIYUV, ew, eh, fpsNum));
    if Failed(hr) {
      return None;
    }
    input := Some(SubtypeIYUV);
  }

  /** start's negotiation with the video processor: IYUV output at the
      encoded size, then RGB32 input at the frame size. */
  method NegotiateProcessor(processor: Transform, ew: UInt32, eh: UInt32, fw: UInt32, fh: UInt32, fpsNum: int)
    returns (ok: bool)
    modifies processor
    ensures ok <==> SubtypeIYUV in processor.acceptedOutputs && SubtypeRGB32 in processor.acceptedInputs
    ensures ok ==> processor.outputType == Some(RawType(SubtypeIYUV, ew, eh, fpsNum)) &&
                   processor.inputType == Some(RawType(SubtypeRGB32, fw, fh, fpsNum))
    ensures processor.live == old(processor.live)
  {
    var hr := processor.SetOutputType(RawType(SubtypeIYUV, ew, eh, fpsNum));
    if Failed(hr) {
      return false;
    }
    hr := processor.SetInputType(RawType(SubtypeRGB32, fw, fh, fpsNum));
    ok := !Failed(hr);
  }

  /** start's NV12 branch: a new converter on the device, its resources
      prepared at the encoded size. */
  method NewConverter(device: bool, ew: UInt32, eh: UInt32, failed: set<Resource>) returns (s: ShaderNv12)
    ensures fresh(s) && s.Valid() && s.device == device
    ensures s.viewportWidth == ew && s.viewportHeight == eh
    ensures forall t :: Prepared(s.views.targets[t], NoTarget, t, ew, eh, TargetTexture(t) !in failed, FIRST_VIEW_ID)
  {
    s := new ShaderNv12(device);
    s.PrepareResources(ew, eh, failed);
  }
}
