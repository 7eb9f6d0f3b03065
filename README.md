# media_foundation core, modelled in Dafny

This project models the core of a Windows media library: the Media Foundation H.264 video
encoder session (`encoder/src/mf_encoder.cpp`), the Direct3D 11 NV12 shader converter the encoder uses
for GPU frames (`deps/dx11convert/dx11convert.cpp`), and the three capture front ends: camera
(`capture/camera/src/mf_capture_camera.cpp`), audio endpoints (`capture/audio/src/mf_capture_audio.cpp`)
and monitor capture (`capture/monitor/src/mf_capture_monitor.cpp`).

Everything the library asks of the operating system becomes an input of the model. This covers COM
activation, Media Foundation transforms, Direct3D devices, WASAPI endpoints and WinRT capture sessions.
What varies is passed in as a parameter:
- a Media Foundation transform is an object of class `Mft.Transform`. It holds the media subtypes it
  accepts and a script of the replies its `ProcessInput` and `ProcessOutput` give;
- a device enumeration is a sequence of device records;
- a call that may fail is a `bool` or `Option` answer, or a set of resources whose creation fails.

The library's own logic is modelled as written, with the same branches, constants and casts:
- the alignment macro, and the frame-size, bitrate, key-frame and duration arithmetic;
- format negotiation with its IYUV fallback, and the push/pull encode loop and its return codes;
- the memory crop layout;
- the shader converter's resource bookkeeping;
- camera mode selection and vertical flip;
- endpoint id extraction, PCM format classification and device lookup;
- the monitor copy-texture latch.

Module layout, one file each:
- `Align` (XALIGN and 32-bit casts);
- `MediaFormats` (GUID mappings);
- `EncoderMath` (sizes and rates);
- `EncoderFormats` (media types, conversions, memory buffers);
- `CropLayout` (crop_memory_data);
- `Mft` (the transform oracle);
- `EncodeLoop` (the pure specification of internal_encode);
- `EncodeDrive` (the imperative internal_encode and the output record);
- `MfEncoder` (the encoder session class);
- `Dx11Convert` (the NV12 shader converter);
- `CameraCapture`, `AudioCapture`, `MonitorCapture`;
- the helpers `Options`, `HResults`, `Bytes` and `Arith`.

Unsigned 32-bit values are the subset type `Align.UInt32`. Every C cast that can wrap is written out:
- `AsInt32` models a cast to `int`;
- `Wrap32` models an `int` sum;
- `XAlign` models XALIGN, including its wrap at 2^32;
- `U32Mul` models a UINT product;
- `AudioCapture.ExtractId` models the `size_t` difference.

Floating-point crop and scale ratios are modelled as exact `real` values. A `(UINT)` cast of a ratio is
modelled as truncation, and a precondition requires the value to lie in the representable range.

## Model

| member | source | states |
|---|---|---|
| Align.XAlign | encoder/src/mf_encoder.cpp:16 | the result is a multiple of the alignment, lies within one alignment step below the 32-bit wrapped `x + a - 1`, and without wrap-around is the least multiple not below `x` |
| Align.XAlignIdempotent | encoder/src/mf_encoder.cpp:16 | aligning an aligned value again leaves it unchanged |
| Align.AsInt32 | encoder/src/mf_encoder.cpp:85-88 | a cast of a UINT to int keeps the value modulo 2^32 and is non-negative exactly when the value fits in INT32 |
| MediaFormats.VideoFormatToGuid | encoder/src/mf_encoder.cpp:451-466 | the null GUID is produced exactly for the out-of-range format, and every other format maps to one of the four video subtypes |
| MediaFormats.GuidToVideoFormat | encoder/src/mf_encoder.cpp:468-490 | the out-of-range format is produced exactly for a GUID that is not one of the four video subtypes |
| MediaFormats.FormatGuidRoundTrip | encoder/src/mf_encoder.cpp:451-490 | guid_to_video_format inverts video_format_to_guid on every real format |
| MediaFormats.GuidFormatRoundTrip | encoder/src/mf_encoder.cpp:451-490 | video_format_to_guid inverts guid_to_video_format on every video subtype |
| MediaFormats.GuidToCameraFormat | capture/camera/src/mf_capture_camera.cpp:431-458 | the camera "none" format is produced exactly for an unknown subtype; I420 and NV12 map both ways |
| MediaFormats.CameraFormatInjective | capture/camera/src/mf_capture_camera.cpp:431-458 | two different known subtypes never map to the same camera format |
| EncoderMath.Trunc | encoder/src/mf_encoder.cpp:85-88 | a (UINT) cast of a non-negative ratio is its floor |
| EncoderMath.FrameWidth | encoder/src/mf_encoder.cpp:85 | the cropped frame width is a multiple of 16 |
| EncoderMath.FrameHeight | encoder/src/mf_encoder.cpp:86 | the cropped frame height is even |
| EncoderMath.EncodedWidth | encoder/src/mf_encoder.cpp:87 | the encoded width is a multiple of 16 |
| EncoderMath.EncodedHeight | encoder/src/mf_encoder.cpp:88 | the encoded height is even |
| EncoderMath.UnitScaleKeepsFrame | encoder/src/mf_encoder.cpp:85-88 | with scale ratio 1 the encoded size equals the cropped frame size |
| EncoderMath.FullCropKeepsSize | encoder/src/mf_encoder.cpp:85-86 | the default crop rectangle keeps a 16-aligned width and an even height unchanged |
| EncoderMath.FullCropInactive | encoder/src/mf_encoder.cpp:226 | the default crop rectangle does not trigger the texture crop |
| EncoderMath.FpsNum | encoder/src/mf_encoder.cpp:95-96 | the frame-rate numerator fps*1000 is truncated to a 32-bit int |
| EncoderMath.KeyFrameSpacing | encoder/src/mf_encoder.cpp:102 | the key-frame spacing is fps_num*5/fps_den |
| EncoderMath.SpacingIsFiveSeconds | encoder/src/mf_encoder.cpp:102 | the key-frame spacing is the whole number of frames in five seconds |
| EncoderMath.Bitrate | encoder/src/mf_encoder.cpp:103 | without wrap-around the bitrate is width*height*100 |
| EncoderMath.FrameDuration | encoder/src/mf_encoder.cpp:255-262 | the sample duration is the floor of time_base*fps_den/fps_num |
| EncoderMath.DurationBounds | encoder/src/mf_encoder.cpp:255-262 | the truncated real quotient satisfies the same floor bounds as the integer duration |
| EncoderFormats.H264OutputType | encoder/src/mf_encoder.cpp:97-111 | the output type is H.264 at the encoded size and frame rate, with a five-second key-frame spacing and bitrate w*h*100 |
| EncoderFormats.RawType | encoder/src/mf_encoder.cpp:112-148 | an input or processor type carries the subtype, size and frame rate it is built from |
| EncoderFormats.MemoryConversion | encoder/src/mf_encoder.cpp:291-320 | a libyuv conversion is called exactly for RGB32 to NV12 or IYUV, NV12 to IYUV and IYUV to NV12, at the encoder input type's width and height (the encoded size) |
| EncoderFormats.ConversionPlanesTile | encoder/src/mf_encoder.cpp:291-320 | the destination planes a conversion writes are laid end to end and fill the 4:2:0 buffer exactly, and the source planes it reads span `ConversionSpan` bytes |
| EncoderFormats.ConversionSpan | encoder/src/mf_encoder.cpp:299-317 | the bytes a libyuv conversion reads from the frame at the encoder's size: width * 4 * height for ARGBToNV12/ARGBToI420, width * height * 3 / 2 for NV12ToI420 and I420ToNV12 |
| EncoderFormats.MemorySource | encoder/src/mf_encoder.cpp:273-281 | cropped_data is the frame itself when the crop is inactive, the cropped window (of the window's 4:2:0 or RGB32 size) when the format is croppable, and null otherwise |
| EncoderFormats.ShortFrameRefused | encoder/src/mf_encoder.cpp:299-303 | a 32 x 2 RGB32 frame of 256 bytes is refused by a 64 x 4 NV12 encoder, whose ARGBToNV12 call would read 1024 bytes |
| EncoderFormats.Yuv420Len | encoder/src/mf_encoder.cpp:299 | a 4:2:0 buffer is w*h*3/2 bytes |
| EncoderFormats.CopyLength | encoder/src/mf_encoder.cpp:321-333 | an unconverted frame is copied as w*h*4 bytes for RGB32 and as w*h*3/2 bytes otherwise |
| EncoderFormats.MemoryCrop | encoder/src/mf_encoder.cpp:281-288 | the crop window of a memory frame has the aligned cropped frame size and the frame's format and size |
| EncoderFormats.BuildMemoryBuffer | encoder/src/mf_encoder.cpp:277-333 | the buffer handed to the encoder is the converted, cropped or copied frame the specification function defines; a converted buffer names the (cropped) frame libyuv reads, which holds the conversion's source span; a frame of a format crop_memory_data does not handle is left uncropped (null) and still converted when the formats differ |
| EncoderFormats.UncroppableFrameEncoded | encoder/src/mf_encoder.cpp:277-333 | a YV12 (or other uncropped) frame with the crop active and a format other than the encoder's is accepted and handed over as a width * height * 3 / 2 buffer that no libyuv call fills |
| CropLayout.PlanesAdjoin | encoder/src/mf_encoder.cpp:613-648 | each plane starts where the previous one ends, and the last one ends at the output length |
| CropLayout.RgbTile | encoder/src/mf_encoder.cpp:613-620 | the RGB32 rows fill the frame_width*frame_height*4 output exactly |
| CropLayout.Nv12Tile | encoder/src/mf_encoder.cpp:621-632 | the NV12 luma plane is followed directly by the interleaved chroma plane, which ends at w*h*3/2 |
| CropLayout.IyuvTile | encoder/src/mf_encoder.cpp:633-648 | the IYUV Y, U and V planes follow one another and end at w*h*3/2 |
| CropLayout.CropMemoryData | encoder/src/mf_encoder.cpp:609-649 | a non-croppable format yields no buffer; otherwise a fresh buffer holds exactly the cropped rows of every plane |
| CropLayout.CopyPlane | encoder/src/mf_encoder.cpp:615-646 | copying one plane's rows extends the output prefix by exactly that plane's gathered rows |
| CropLayout.CopyRows | encoder/src/mf_encoder.cpp:616-619 | the row loop writes each source row after the previous one |
| CropLayout.GatherContiguous | encoder/src/mf_encoder.cpp:616-619 | rows whose sources are back to back gather into one contiguous slice of the input |
| CropLayout.FullFrameCropIsIdentity | encoder/src/mf_encoder.cpp:609-649 | cropping the whole frame returns the frame unchanged |
| CropLayout.ChromaOverrunAsWritten | encoder/src/mf_encoder.cpp:630 | with the chroma offsets as written, a 16x4 NV12 frame cropped to its lower half reads its first chroma row at offset 96, the end of the frame |
| CropLayout.IntendedCropInBounds | encoder/src/mf_encoder.cpp:621-648 | with the chroma rows offset by top/2, every row of a crop window inside an even-sized frame lies within the frame |
| CropLayout.WindowInBounds | encoder/src/mf_encoder.cpp:609-649 | a crop window inside a frame of sufficient length keeps every corrected row read in bounds |
| Mft.Transform.SetInputType | encoder/src/mf_encoder.cpp:112-148 | SetInputType succeeds exactly for an accepted subtype and then records the type; nothing else changes |
| Mft.Transform.SetOutputType | encoder/src/mf_encoder.cpp:97-111 | SetOutputType succeeds exactly for an accepted subtype and then records the type; nothing else changes |
| Mft.Transform.ProcessInput | encoder/src/mf_encoder.cpp:525-538 | the reply is the next scripted push reply and the sample is appended to the pushed samples |
| Mft.Transform.ProcessOutput | encoder/src/mf_encoder.cpp:546-552 | the reply is the next scripted pull reply and its unit fits the output buffer |
| Mft.Transform.ProcessMessage | encoder/src/mf_encoder.cpp:536-537 | end-of-stream and drain messages are appended to the message log in order |
| Mft.Transform.Release | encoder/src/mf_encoder.cpp:61-83 | releasing ends the transform's life and leaves its state unchanged |
| EncodeLoop.Starved | encoder/src/mf_encoder.cpp:569-580 | NEED_MORE_INPUT maps to "more input" with a sample and to end-of-stream without one |
| EncodeLoop.Keep | encoder/src/mf_encoder.cpp:553-565 | a successful pull replaces the stored unit, and a failed pull keeps the previous one |
| EncodeLoop.Round | encoder/src/mf_encoder.cpp:523-567 | one loop round fails exactly on a hard push or pull failure, repeats exactly when the push is refused as not accepting, and otherwise stops with success or starvation after one pull |
| EncodeLoop.PumpCodes | encoder/src/mf_encoder.cpp:569-580 | internal_encode returns only failure, success, or the starvation code for its mode |
| EncodeLoop.DrainRunsOnce | encoder/src/mf_encoder.cpp:523-567 | draining without a sample runs one round and pushes nothing |
| EncodeLoop.PumpConsumes | encoder/src/mf_encoder.cpp:523-567 | every round consumes at most one pull reply and at least one round runs |
| EncodeLoop.PumpKeepsLast | encoder/src/mf_encoder.cpp:553-565 | the unit left in the output is the previous one or the unit of a successful pull |
| EncodeLoop.PumpRepeatsOnNotAccepting | encoder/src/mf_encoder.cpp:525-538 | with a sample, every round but the last consumed a NOTACCEPTING push reply |
| EncodeLoop.PumpFinalRound | encoder/src/mf_encoder.cpp:546-580 | the final round's pull reply decides the returned code |
| EncodeDrive.OutputVData.Reserve | encoder/src/mf_encoder.cpp:517-521 | the 16 MiB output buffer is allocated only when none exists |
| EncodeDrive.OutputVData.Store | encoder/src/mf_encoder.cpp:553-565 | a pulled unit's bytes, size, duration, timestamp and key-frame flag are copied into the output record |
| EncodeDrive.InternalEncode | encoder/src/mf_encoder.cpp:512-581 | the imperative loop returns the code, consumes the replies and pushes the samples the specification Pump defines, and the output holds Pump's last unit |
| EncodeDrive.Drive | encoder/src/mf_encoder.cpp:523-567 | the while loop agrees with Pump from any starting state |
| EncodeDrive.EncodeRound | encoder/src/mf_encoder.cpp:525-566 | one loop body agrees with Round |
| MfEncoder.VideoEncoder.constructor | encoder/src/mf_encoder.cpp:29-49 | a new encoder has no transforms, the MPEG time base, a zero frame counter, the full crop and scale 1 |
| MfEncoder.VideoEncoder.Start | encoder/src/mf_encoder.cpp:56-155 | start succeeds exactly when the encoder accepts NV12 or the IYUV fallback negotiates; the types set match the encoded size and rate; the NV12 path prepares the shader at the encoded size; on failure every transform is released |
| MfEncoder.VideoEncoder.OpenTransforms | encoder/src/mf_encoder.cpp:89-148 | negotiation outcome and media types as in start, with the deferred cleanup on failure |
| MfEncoder.Open | encoder/src/mf_encoder.cpp:89-148 | the encoder and converter chosen by negotiation, or both released and null on failure |
| MfEncoder.NegotiateEncoder | encoder/src/mf_encoder.cpp:97-125 | the H.264 type is set, then NV12 is tried and IYUV is the fallback input |
| MfEncoder.NegotiateProcessor | encoder/src/mf_encoder.cpp:126-148 | the video processor negotiates exactly when it accepts RGB32 in and IYUV out |
| MfEncoder.NewConverter | encoder/src/mf_encoder.cpp:149-153 | the shader converter is created and prepared at the encoded size |
| MfEncoder.VideoEncoder.Stop | encoder/src/mf_encoder.cpp:157-185 | stop releases the transforms and the shader's resources, resets the counter, crop and scale, and releases the owned device while its pointer is set (`StopDevice`) |
| MfEncoder.StopDeviceAsWritten | encoder/src/mf_encoder.cpp:175-181 | as written, the owned device is released through a null pointer exactly when the encoder owns it and the pointer is already null |
| MfEncoder.StopDevice | encoder/src/mf_encoder.cpp:175-181 | the guarded release clears the pointer of an owned device, keeps a borrowed one, and agrees with the code as written wherever that is defined |
| MfEncoder.StopDeviceIdempotent | encoder/src/mf_encoder.cpp:175-181 | a second guarded stop leaves the device state of the first, while the code as written would release through null after it on every owned device |
| MfEncoder.VideoEncoder.SetTimeBase | encoder/src/mf_encoder.cpp:187-190 | the time base becomes the argument |
| MfEncoder.VideoEncoder.SetCropRect | encoder/src/mf_encoder.cpp:192-198 | the crop ratio becomes the four arguments |
| MfEncoder.VideoEncoder.SetScaleRatio | encoder/src/mf_encoder.cpp:200-203 | the scale ratio becomes the argument |
| MfEncoder.VideoEncoder.Stamp | encoder/src/mf_encoder.cpp:255-262 | the k-th sample has time k*duration, the frame duration, and the counter advances by one |
| MfEncoder.VideoEncoder.EncodeTexture | encoder/src/mf_encoder.cpp:205-264 | a frame is stamped and counted exactly when a sample is built, and its buffer is the surface or the converted sample; a texture of the encoder's format whose crop or surface fails gives FAIL and leaves the encoder untouched; otherwise the code, the replies consumed, the drain messages and the output are those of `Pump` for the sample passed, and the code is FAIL, SUCCESS or the starvation code |
| MfEncoder.VideoEncoder.EncodeMemory | encoder/src/mf_encoder.cpp:266-353 | a frame is stamped and counted exactly when data is given; its buffer is the converted or cropped frame, and a conversion reads only inside the (cropped) frame; the code, the replies consumed, the samples pushed, the drain messages and the output are those of `Pump` for the sample passed, and the code is FAIL, SUCCESS or the starvation code |
| Dx11Convert.Nv12TargetHoldsPlanes | deps/dx11convert/dx11convert.cpp:536-569 | the combined NV12 target is 3/2 of the frame height |
| Dx11Convert.MaskByte | deps/dx11convert/dx11convert.cpp:287-296 | the shift mask byte is 1 on odd columns and 0 on even ones |
| Dx11Convert.FillShiftMask | deps/dx11convert/dx11convert.cpp:287-296 | a fresh mask of the given width has the alternating bytes |
| Dx11Convert.NewTarget | deps/dx11convert/dx11convert.cpp:321-569 | a render target gets its sized texture, a fresh render view, and a fresh shader view except for the combined NV12 target |
| Dx11Convert.InitTargetFresh | deps/dx11convert/dx11convert.cpp:321-569 | creating a target keeps every held view fresh and below the next id |
| Dx11Convert.InputViewReleasedTwice | deps/dx11convert/dx11convert.cpp:86-150 | release_input_texture followed by release_resources releases the input view twice |
| Dx11Convert.Nv12Passes | deps/dx11convert/dx11convert.cpp:166-179 | process_shader_nv12 draws four passes: split at the viewport, downsample at half size with linear sampling, luma copy, and UV combine at twice the height |
| Dx11Convert.HeldRange | deps/dx11convert/dx11convert.cpp:86-150 | every held view handle was created by this converter |
| Dx11Convert.NewViewNotHeld | deps/dx11convert/dx11convert.cpp:164 | a newly created input view is distinct from every held view |
| Dx11Convert.ShaderNv12.constructor | deps/dx11convert/dx11convert.cpp:9-25 | shaders exist exactly when a device is given, and no views are held |
| Dx11Convert.ShaderNv12.InitShiftWidthTexture | deps/dx11convert/dx11convert.cpp:270-319 | the mask has the alternating bytes and the shift texture is created or the call fails |
| Dx11Convert.ShaderNv12.InitRenderTarget | deps/dx11convert/dx11convert.cpp:321-569 | exactly the one target changes, to a new target on success |
| Dx11Convert.ShaderNv12.InitRenderTargets | deps/dx11convert/dx11convert.cpp:53-58 | each of the six targets is prepared unless its creation fails |
| Dx11Convert.ShaderNv12.CreateSamplers | deps/dx11convert/dx11convert.cpp:60-74 | the point and linear samplers exist exactly when their creation succeeds, and they are distinct |
| Dx11Convert.ShaderNv12.PrepareResources | deps/dx11convert/dx11convert.cpp:51-84 | the viewport is the frame size, and the mask, targets and samplers are prepared |
| Dx11Convert.ShaderNv12.ProcessShaderNv12 | deps/dx11convert/dx11convert.cpp:152-187 | without a device the call fails; otherwise a fresh input view is made, the four passes are drawn, and the NV12 target is returned when it exists |
| Dx11Convert.ShaderNv12.ReleaseInputTexture | deps/dx11convert/dx11convert.cpp:189-195 | the input view is released when it exists |
| Dx11Convert.ShaderNv12.ReleaseResources | deps/dx11convert/dx11convert.cpp:86-150 | every held view, sampler and texture is released |
| Dx11Convert.ShaderNv12.Destroy | deps/dx11convert/dx11convert.cpp:27-49 | the shaders are released, and none of them is a held view |
| CameraCapture.LinkIndex | capture/camera/src/mf_capture_camera.cpp:460-478 | the index of the first device with the link, or -1 exactly when none has it |
| CameraCapture.CameraIndex | capture/camera/src/mf_capture_camera.cpp:460-478 | no enumeration gives -1, otherwise the link lookup |
| CameraCapture.PenaltyMeaning | capture/camera/src/mf_capture_camera.cpp:140-150 | a larger mode costs the excess, a smaller one twice the shortfall |
| CameraCapture.SelectMode | capture/camera/src/mf_capture_camera.cpp:118-156 | the selection loop returns the first fast-enough mode of least penalty, stopping at an exact match |
| CameraCapture.SelectionUnique | capture/camera/src/mf_capture_camera.cpp:118-156 | the selected mode is unique |
| CameraCapture.ExactMatchSelected | capture/camera/src/mf_capture_camera.cpp:149-150 | the first fast-enough exact match is the one selected |
| CameraCapture.Camera.constructor | capture/camera/src/mf_capture_camera.cpp:12-31 | the device enumeration is kept and no camera is open |
| CameraCapture.Camera.GetCameraCount | capture/camera/src/mf_capture_camera.cpp:52-64 | the count is the number of devices, which replace the stored enumeration |
| CameraCapture.Camera.CameraId | capture/camera/src/mf_capture_camera.cpp:66-77 | the id is empty without an enumeration |
| CameraCapture.Camera.CameraName | capture/camera/src/mf_capture_camera.cpp:79-90 | the name is empty without an enumeration |
| CameraCapture.Camera.FindCameraIndex | capture/camera/src/mf_capture_camera.cpp:460-478 | the loop returns the specification index |
| CameraCapture.Camera.Start | capture/camera/src/mf_capture_camera.cpp:92-181 | an unknown or unopenable camera is refused; otherwise the selected mode's size and format are reported, the source and reader recorded, and the type kept exactly when stream selection and type setting succeed |
| CameraCapture.Camera.Stop | capture/camera/src/mf_capture_camera.cpp:183-209 | the camera's type, reader and source entries are erased |
| CameraCapture.Camera.GetResolutionList | capture/camera/src/mf_capture_camera.cpp:211-241 | the list is extended by every native mode's size in order |
| CameraCapture.Camera.Capture | capture/camera/src/mf_capture_camera.cpp:353-428 | capture succeeds exactly for an open camera whose read delivers a contiguous sample; the output then holds the sample, flipped for negative stride |
| CameraCapture.CameraOutput.Receive | capture/camera/src/mf_capture_camera.cpp:405-424 | the output buffer is allocated at the sample's size only when absent and then holds the sample |
| CameraCapture.FlipCopy | capture/camera/src/mf_capture_camera.cpp:412-419 | the copy loop writes the rows in reverse order |
| CameraCapture.FlipRow | capture/camera/src/mf_capture_camera.cpp:412-419 | row k of the flipped frame is row h-1-k of the source |
| CameraCapture.FlipTwice | capture/camera/src/mf_capture_camera.cpp:412-419 | flipping twice restores the frame |
| CameraCapture.ConcatRows | capture/camera/src/mf_capture_camera.cpp:412-419 | the rows of a frame concatenate back to the frame |
| AudioCapture.FindOpen | capture/audio/src/mf_capture_audio.cpp:83-84 | the first ".{" at or after the start, or none exactly when there is none |
| AudioCapture.FindLastClose | capture/audio/src/mf_capture_audio.cpp:85 | the last "}", or none exactly when there is none |
| AudioCapture.ExtractId | capture/audio/src/mf_capture_audio.cpp:83-88 | an id without both markers is returned whole; otherwise the substring starts after ".{" with the size_t length last-"}" minus start |
| AudioCapture.ExtractEndpointGuid | capture/audio/src/mf_capture_audio.cpp:83-88 | an endpoint id of the form prefix.{guid} yields the guid |
| AudioCapture.ExtractWrapsToEnd | capture/audio/src/mf_capture_audio.cpp:83-88 | a "}" before ".{" makes the length wrap, so the rest of the id is returned |
| AudioCapture.DeviceIndexFrom | capture/audio/src/mf_capture_audio.cpp:398-428 | the first device with the id, or -1 exactly when none has it |
| AudioCapture.ItemId | capture/audio/src/mf_capture_audio.cpp:71-92 | a present endpoint yields its id, anything else an empty string |
| AudioCapture.FindOwnId | capture/audio/src/mf_capture_audio.cpp:398-428 | looking up an endpoint's own id finds it or an earlier endpoint with the same id |
| AudioCapture.DistinctIdsFoundInPlace | capture/audio/src/mf_capture_audio.cpp:398-428 | with distinct ids, looking up an endpoint's id finds that endpoint |
| AudioCapture.GetPcmFormat | capture/audio/src/mf_capture_audio.cpp:430-497 | the format is unknown exactly for an unclassifiable wave format, and otherwise has the wave format's bits and integer/float coding |
| AudioCapture.FormatDeterminedByTraits | capture/audio/src/mf_capture_audio.cpp:430-497 | two known formats with the same bits, float flag and planar flag are equal |
| AudioCapture.Pcm24IsUnknown | capture/audio/src/mf_capture_audio.cpp:432-450 | 24-bit integer PCM is classified unknown |
| AudioCapture.ParamOf | capture/audio/src/mf_capture_audio.cpp:200-203 | the stored parameters are the mix format's channels, rate and PCM format |
| AudioCapture.Endpoints.constructor | capture/audio/src/mf_capture_audio.cpp:13-34 | the endpoint collection is kept and no device is open |
| AudioCapture.Endpoints.Count | capture/audio/src/mf_capture_audio.cpp:53-69 | the count is the number of endpoints cast to int |
| AudioCapture.Endpoints.Id | capture/audio/src/mf_capture_audio.cpp:71-92 | the id of the endpoint at the index |
| AudioCapture.Endpoints.Name | capture/audio/src/mf_capture_audio.cpp:94-117 | the friendly name of the endpoint at the index; empty for an index out of range, a null device or a missing property store |
| AudioCapture.Endpoints.FindDeviceIndex | capture/audio/src/mf_capture_audio.cpp:398-428 | the loop returns the specification index |
| AudioCapture.Endpoints.Start | capture/audio/src/mf_capture_audio.cpp:167-228 | an unknown device, failed activation or missing mix format is refused; otherwise the parameters are stored, and the clients are recorded exactly when initialisation, service and start succeed |
| AudioCapture.Endpoints.Stop | capture/audio/src/mf_capture_audio.cpp:230-255 | the device's client, capture client and parameters are erased |
| AudioCapture.AudioCapturer.constructor | capture/audio/src/mf_capture_audio.cpp:13-34 | the mic and speaker endpoint sets are separate and empty of open devices |
| AudioCapture.AudioCapturer.CaptureMic | capture/audio/src/mf_capture_audio.cpp:347-371 | capture succeeds exactly for a started mic whose buffer is granted, and then reports its data and parameters |
| AudioCapture.AudioCapturer.CaptureSpeaker | capture/audio/src/mf_capture_audio.cpp:373-395 | capture succeeds exactly for a started speaker whose buffer is granted, and then reports its data and parameters |
| MonitorCapture.MonitorResolution | capture/monitor/src/mf_capture_monitor.cpp:88-95 | the resolution is the rectangle's width and height, modulo 2^32 |
| MonitorCapture.ResolutionOfPlacedMonitor | capture/monitor/src/mf_capture_monitor.cpp:88-95 | a monitor placed at (x, y) with size w x h reports w x h |
| MonitorCapture.CopyUsageFor | capture/monitor/src/mf_capture_monitor.cpp:124-135 | the copy texture is a shader resource exactly for D3D11 output |
| MonitorCapture.BgraStride | capture/monitor/src/mf_capture_monitor.cpp:193 | the BGRA stride is width*4 aligned up to 64 |
| MonitorCapture.Latch | capture/monitor/src/mf_capture_monitor.cpp:183-208 | a frame is copied exactly when its size matches, a mismatch latches the size change, and the texture is recreated exactly on a matching frame after a latch |
| MonitorCapture.SettledFramesRecreateNothing | capture/monitor/src/mf_capture_monitor.cpp:183-208 | matching frames never recreate the copy texture |
| MonitorCapture.ResizeRecreatesOnce | capture/monitor/src/mf_capture_monitor.cpp:183-208 | a run of mismatched frames followed by matching ones recreates the texture once |
| MonitorCapture.MonitorCapturer.constructor | capture/monitor/src/mf_capture_monitor.cpp:30-47 | no capture is running and nothing is latched |
| MonitorCapture.MonitorCapturer.GetMonitorCount | capture/monitor/src/mf_capture_monitor.cpp:54-65 | enumerated monitors are appended and the count is the list's length cast to int |
| MonitorCapture.MonitorCapturer.MonitorHandle | capture/monitor/src/mf_capture_monitor.cpp:67-74 | the monitor at the index, or none exactly for an index out of range |
| MonitorCapture.MonitorCapturer.MonitorName | capture/monitor/src/mf_capture_monitor.cpp:76-86 | the monitor's device name, or empty out of range |
| MonitorCapture.MonitorCapturer.Start | capture/monitor/src/mf_capture_monitor.cpp:97-152 | a second start or a missing item is refused; otherwise the frame pool and session are made, and success depends on the copy texture, which has the item's size and the output format's usage |
| MonitorCapture.MonitorCapturer.FrameArrived | capture/monitor/src/mf_capture_monitor.cpp:242-256 | the frame's content size becomes the monitor size, the frame pool is recreated at it exactly when it differs, and the frame's texture becomes the one capture reads |
| MonitorCapture.MonitorCapturer.Closed | capture/monitor/src/mf_capture_monitor.cpp:258-262 | the stored frame texture is dropped |
| MonitorCapture.ResizeLatchesThenSettles | capture/monitor/src/mf_capture_monitor.cpp:246-252 | after a resize the old pool's last frame mismatches the new monitor size and a frame of the recreated pool matches it |
| MonitorCapture.MonitorCapturer.Stop | capture/monitor/src/mf_capture_monitor.cpp:154-173 | the session, frame pool and copy texture are released |
| MonitorCapture.MonitorCapturer.Settle | capture/monitor/src/mf_capture_monitor.cpp:177-211 | the latch step is applied to the stored frame against the monitor size the latest frame arrival set, and the BGRA buffer is reallocated only when the texture is recreated |
| MonitorCapture.MonitorCapturer.Report | capture/monitor/src/mf_capture_monitor.cpp:212-238 | the output carries the frame size and format, the texture for D3D11, or the mapped bytes and pitch for BGRA |
| MonitorCapture.MonitorCapturer.Capture | capture/monitor/src/mf_capture_monitor.cpp:175-239 | capture always succeeds, applies the latch to the stored frame and then reports it |
| MonitorCapture.MappedSize | capture/monitor/src/mf_capture_monitor.cpp:232 | without wrap-around the mapped size is row pitch times height |

## Findings

| source | as written | input that shows it | evidently intended | confidence | as-written member | corrected member |
|---|---|---|---|---|---|---|
| encoder/src/mf_encoder.cpp:630 | the NV12 chroma rows of crop_memory_data start at `w*h + (i + height*top)*width`, so they use the full-resolution top offset for the half-height chroma plane (IYUV lines 642 and 646 do the same) | a 16x4 NV12 frame cropped with top ratio 0.5: its first chroma row is read at offset 64 + 2*16 = 96, which is the frame's length | chroma row i reads source row i + top/2 | not executed | CropLayout.ChromaOverrunAsWritten | CropLayout.IntendedCropInBounds |
| encoder/src/mf_encoder.cpp:175-181 | stop releases the owned device whenever `m_bOwnD3DDevice` is set, and never clears the flag, while it does clear the pointer | an encoder that created its own device stopped twice: the second stop calls `Release` on the null device pointer (the first stop as well, when `D3D11CreateDevice` at line 46 failed) | release only a device pointer that is set | not executed | MfEncoder.StopDeviceAsWritten | MfEncoder.StopDevice |

The encoder's memory path uses the corrected offsets (`CropLayout.Intended`). `EncoderFormats.MemoryBuffer`
and `EncoderFormats.BuildMemoryBuffer` crop with them. `CropLayout.WindowInBounds` shows that every row
they read lies inside the frame.

## Left out

- Media Foundation, COM, Direct3D 11, WASAPI and WinRT are not modelled; their answers are parameters (scripted transform replies, device records, success flags, sets of failing resources).
- libyuv's pixel arithmetic (the RGB32 to NV12/IYUV and NV12 to IYUV conversions): only which conversion is called, with which planes and sizes, is modelled.
- The HLSL shaders and the GPU draws of dx11convert: a draw is recorded as a pass with its viewport and sampler, and no pixels are computed.
- get_yuv_texture_sample (encoder/src/mf_encoder.cpp:356-449), the texture conversion through the video processor: modelled as the converted buffer given to `MfEncoder.VideoEncoder.EncodeTexture`.
- crop_texture (encoder/src/mf_encoder.cpp:583-607): its GPU copy is a success flag; only the crop test and the frame size are modelled.
- Floating point: crop and scale ratios and fps are exact reals, so rounding of the `float` products is not modelled.
- The camera's set_property, get_property and camera_prop_to_mf_prop are not part of this model, because they forward values to the driver unchanged.
- Monitor on_frame_arrived and on_closed (capture/monitor/src/mf_capture_monitor.cpp:242-262) run on a WinRT thread, under the texture mutex; the model runs `MonitorCapture.MonitorCapturer.FrameArrived` and `MonitorCapture.MonitorCapturer.Closed` between calls, so their interleaving with capture is not modelled, and the frame pool's surfaces are given as parameters.
- MonitorCapture.MonitorCapturer.Start, MonitorCapture.MonitorCapturer.FrameArrived: require a non-negative size no wider than 0x1FFF_FFF0, so that the BGRA stride XALIGN(width * 4, 64) does not wrap its UINT and fits the int capture stores it in; the source accepts any size.
- MonitorCapture.MonitorOutput: the C++ `data` field holds either a byte buffer or the copy texture; the model keeps them as two fields.
- The deferred cleanup helper (defer.hpp) is not part of this model; its effect in start is written out as releases.
- UTF-16 to UTF-8 conversion of ids and names: strings are modelled as already converted.
- COM reference counting: Release is modelled as ending an object's life, not as a counter.
- Mft.Transform.ProcessInput, Mft.Transform.ProcessOutput: a reply script that runs out answers E_FAIL, an assumption of the model. `EncodeLoop.Pump` therefore ends because the script is finite, while the source's do-while (encoder/src/mf_encoder.cpp:567) spins forever on a transform that keeps answering MF_E_NOTACCEPTING.
- MfEncoder.VideoEncoder.EncodeTexture, MfEncoder.VideoEncoder.EncodeMemory: require a started encoder; the source dereferences a null encoder when called before start.
- MfEncoder.VideoEncoder.EncodeTexture: requires crop sizes whose float-to-UINT casts are defined (`FrameDefined`, encoder/src/mf_encoder.cpp:588-589), and requires the crop texture to be created whenever the formats differ; otherwise the source passes a null texture to get_yuv_texture_sample (line 236) and releases it (line 252).
- MfEncoder.VideoEncoder.EncodeMemory, EncoderFormats.BuildMemoryBuffer: require `MemoryInputFits`: the crop window lies inside the frame (`WindowInFrame`, `SizeFits`), excluding the overrunning memcpys of crop_memory_data (encoder/src/mf_encoder.cpp:618, 626, 630, 638, 642, 646), a frame copied as it is holds the bytes copied and fits the declared size, excluding the overrunning memcpys at lines 327 and 331; and a converted frame (cropped when the crop is active) holds the source planes libyuv reads at the encoder's width and height, excluding the overreads at lines 299, 303, 310 and 317 when the scale enlarges the frame; a frame of the encoder's format that crop_memory_data does not handle is excluded too, as the source copies from a null pointer then.
- MfEncoder.VideoEncoder.Start: requires the crop and scale ratios to give sizes in UINT range, because the source's float-to-UINT cast is undefined outside it.
- MfEncoder.VideoEncoder.Start: requires `FpsDefined` (fps * 1000 fits an int, as the cast at encoder/src/mf_encoder.cpp:95 needs) and `SpacingDefined` (the int product fps_num * 5 at line 102 does not overflow); the model does not say what the source does outside these bounds.
- MfEncoder.VideoEncoder.EncodeTexture, MfEncoder.VideoEncoder.EncodeMemory: require a positive frame-rate ratio (`fpsNum > 0 && fpsDen > 0`). The source divides the time base by fps (encoder/src/mf_encoder.cpp:257, 346), which is zero for fps below 0.001; it stores fps_num as a UINT32 ratio (lines 101, 116) and reads it back as UINT32 (lines 501-504), so a negative rate comes back as a large positive one. The model keeps `fpsNum` an int and does not model that wrap.
- MonitorCapture.MonitorCapturer.Settle: the reallocation size stride * height (capture/monitor/src/mf_capture_monitor.cpp:195) is an int product that the source overflows at 2^31; the model's `ReallocSize` is the unbounded product.
- The destructors' device and context release is not modelled beyond `MfEncoder.VideoEncoder.Stop` and `Dx11Convert.ShaderNv12.Destroy`.
- AudioCapture.AudioCapturer.constructor: requires that speakers are not enumerated when mics are not, as in the source's early return.
- AudioCapture.Endpoints.Count, AudioCapture.Endpoints.Id, AudioCapture.Endpoints.Name, AudioCapture.Endpoints.Stop: require an enumerated collection; the source dereferences a null collection otherwise.
- CameraCapture.Camera.CameraId, CameraCapture.Camera.CameraName: the returned string for a valid index is the device's link and name record, with no further contract.
- MonitorCapture.MonitorCapturer.Report: requires that the mapped bytes fit the output buffer on the BGRA path; the overrunning memcpy of capture/monitor/src/mf_capture_monitor.cpp:232-233 is not modelled.
- MonitorCapture.MonitorCapturer.Capture, MonitorCapture.MonitorCapturer.Settle: require a copy texture when a same-sized frame arrives during a size change; the source calls GetDesc on a null texture there (capture/monitor/src/mf_capture_monitor.cpp:198).
- Dx11Convert.ShaderNv12.constructor: without a device the model builds a converter with no shaders whose every conversion fails, while the source's constructor dereferences the null device (deps/dx11convert/dx11convert.cpp:14); that crash is not modelled.
- MfEncoder.VideoEncoder.Start: requires a device when the NV12 path is taken, because the source hands a null device to the converter's constructor (deps/dx11convert/dx11convert.cpp:14); this happens on a restart after a stop that released an owned device, or when `D3D11CreateDevice` failed.
- EncoderFormats.BuildMemoryBuffer, EncoderFormats.MemoryBuffer, MfEncoder.VideoEncoder.EncodeMemory: crop with the corrected chroma offsets (`CropLayout.Intended`), not the ones written at encoder/src/mf_encoder.cpp:630, 642 and 646 (see Findings).
- CameraCapture.Camera.Start: requires every enumerated device to offer at least one media type with a nonzero frame-rate denominator; the source leaves a null media type after an empty type list (capture/camera/src/mf_capture_camera.cpp:159-166) and divides by a zero denominator (line 133).
- CameraCapture.Camera.Capture: requires that the sample fits the output buffer (`CopyFits`); the overrunning memcpy of capture/camera/src/mf_capture_camera.cpp:412-423 is not modelled.
- AudioCapture.AudioCapturer.CaptureMic, AudioCapture.AudioCapturer.CaptureSpeaker: require an enumerated collection; the source's find_device_index dereferences a null collection otherwise (capture/audio/src/mf_capture_audio.cpp:397-401).
- The audio capture buffer contents and timing (GetBuffer and ReleaseBuffer) are an `Option` lease; the sample bytes are not modelled.
