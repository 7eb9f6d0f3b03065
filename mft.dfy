// The Media Foundation transforms the encoder drives (the H.264 encoder and
// the video processor), reduced to what the encoder observes of them: which
// media types they accept, and the status codes and output units their
// ProcessInput and ProcessOutput calls return, given in advance as scripts.
module Mft {
  import opened Options
  import opened Bytes
  import opened MediaFormats
  import opened HResults
  import opened Align

  /** MF_E_NOTACCEPTING: the transform holds output and takes no input. */
  const MF_E_NOTACCEPTING: HResult := 0xC00D_36B5
  /** MF_E_TRANSFORM_NEED_MORE_INPUT: no output until more input arrives. */
  const MF_E_TRANSFORM_NEED_MORE_INPUT: HResult := 0xC00D_6D72

  /** The size of the memory buffer the encoder lends to ProcessOutput and
      of the output_data.data array it allocates: 16 MiB. */
  const OUTPUT_BUFFER_SIZE: nat := 16 * 1024 * 1024

  /** The attributes of an IMFMediaType the encoder sets: subtype, frame
      size, frame rate, and for the H.264 output type the maximum key-frame
      spacing and the average bit rate (0 where the code sets none). */
  datatype MediaType = MediaType(subtype: Guid, width: UInt32, height: UInt32,
                                 fpsNum: int, fpsDen: int,
                                 keyFrameSpacing: int, bitRate: int)

  /** A libyuv conversion the memory path calls; the pixel arithmetic of
      the library is not part of this model. */
  datatype Conversion = ARGBToNV12 | ARGBToI420 | NV12ToI420 | I420ToNV12

  /** One plane argument of a libyuv call: a byte offset into a buffer and
      the stride of its rows. */
  datatype PlaneArg = PlaneArg(offset: int, stride: int)

  /** The arguments of one libyuv call: source and destination planes and
      the picture size. */
  datatype YuvCall = YuvCall(conversion: Conversion, src: seq<PlaneArg>, dst: seq<PlaneArg>,
                             width: int, height: int)

  /** The media buffer of an input sample:
      Surface, a DXGI surface buffer over a (possibly cropped) texture of the
      given size; Processed, the NV12 sample the GPU path returns for a
      texture of the given size; Copied, a memory buffer of len bytes whose
      first bytes are memcpy'd from the frame; Converted, a memory buffer of
      len bytes handed to a libyuv call, or to none when no conversion
      applies, together with the bytes the call reads (the frame, cropped
      when the crop is active; None for the null pointer crop_memory_data
      leaves for a format it does not handle). */
  datatype Buffer =
    | Surface(width: int, height: int)
    | Processed(width: int, height: int)
    | Copied(len: int, bytes: seq<byte>)
    | Converted(len: int, call: Option<YuvCall>, source: Option<seq<byte>>)

  /** An input sample with its stamped duration and time and its
      MFSampleExtension_VideoEncodeQP value. */
  datatype Sample = Sample(buffer: Buffer, duration: int, time: int, qp: int)

  /** What one successful ProcessOutput leaves in the lent sample: the
      encoded bytes, the duration and time, and the clean-point flag. */
  datatype Unit = Unit(bytes: seq<byte>, duration: int, time: int, cleanPoint: bool)

  /** One scripted ProcessOutput answer. */
  datatype Reply = Reply(hr: HResult, unit: Unit)

  /** The messages the encoder posts with ProcessMessage. */
  datatype Message = EndOfStream | Drain

  /** The unit an exhausted script leaves. */
  const NoUnit: Unit := Unit([], 0, 0, false)

  /** An IMFTransform seen from the encoder. acceptedInputs and
      acceptedOutputs are the subtypes whose media types it accepts;
      pushReplies and pullReplies are the answers its next ProcessInput and
      ProcessOutput calls give (E_FAIL once a script is used up); pushed and
      messages record what it was given; live turns false on Release. */
  class Transform {
    const acceptedInputs: set<Guid>
    const acceptedOutputs: set<Guid>
    var inputType: Option<MediaType>
    var outputType: Option<MediaType>
    var pushReplies: seq<HResult>
    var pullReplies: seq<Reply>
    var pushed: seq<Sample>
    var messages: seq<Message>
    var live: bool

    /** Every scripted unit fits the 16 MiB buffer the encoder lends. */
    predicate Valid()
      reads this
    {
      forall i | 0 <= i < |pullReplies| :: |pullReplies[i].unit.bytes| <= OUTPUT_BUFFER_SIZE
    }

    constructor (ins: set<Guid>, outs: set<Guid>, pushes: seq<HResult>, pulls: seq<Reply>)
      requires forall i | 0 <= i < |pulls| :: |pulls[i].unit.bytes| <= OUTPUT_BUFFER_SIZE
      ensures Valid()
      ensures acceptedInputs == ins && acceptedOutputs == outs
      ensures pushReplies == pushes && pullReplies == pulls
      ensures inputType == None && outputType == None
      ensures pushed == [] && messages == [] && live
    {
      acceptedInputs, acceptedOutputs := ins, outs;
      inputType, outputType := None, None;
      pushReplies, pullReplies := pushes, pulls;
      pushed, messages := [], [];
      live := true;
    }

    /** SetInputType: accepted exactly when the subtype is. */
    method SetInputType(t: MediaType) returns (hr: HResult)
      modifies this
      ensures !Failed(hr) <==> t.subtype in acceptedInputs
      ensures inputType == if t.subtype in acceptedInputs then Some(t) else old(inputType)
      ensures outputType == old(outputType) && pushReplies == old(pushReplies)
      ensures pullReplies == old(pullReplies) && pushed == old(pushed)
      ensures messages == old(messages) && live == old(live)
    {
      if t.subtype in acceptedInputs {
        inputType := Some(t);
        hr := S_OK;
      } else {
        hr := E_FAIL;
      }
    }

    /** SetOutputType: accepted exactly when the subtype is. */
    method SetOutputType(t: MediaType) returns (hr: HResult)
      modifies this
      ensures !Failed(hr) <==> t.subtype in acceptedOutputs
      ensures outputType == if t.subtype in acceptedOutputs then Some(t) else old(outputType)
      ensures inputType == old(inputType) && pushReplies == old(pushReplies)
      ensures pullReplies == old(pullReplies) && pushed == old(pushed)
      ensures messages == old(messages) && live == old(live)
    {
      if t.subtype in acceptedOutputs {
        outputType := Some(t);
        hr := S_OK;
      } else {
        hr := E_FAIL;
      }
    }

    /** ProcessInput: the next scripted status. */
    method ProcessInput(s: Sample) returns (hr: HResult)
      modifies this
      ensures hr == NextPush(old(pushReplies)) && pushReplies == RestPushes(old(pushReplies))
      ensures pushed == old(pushed) + [s]
      ensures inputType == old(inputType) && outputType == old(outputType)
      ensures pullReplies == old(pullReplies) && messages == old(messages) && live == old(live)
    {
      hr := NextPush(pushReplies);
      pushReplies := RestPushes(pushReplies);
      pushed := pushed + [s];
    }

    /** ProcessOutput: the next scripted status and unit. */
    method ProcessOutput() returns (r: Reply)
      requires Valid()
      modifies this
      ensures r == NextPull(old(pullReplies)) && pullReplies == RestPulls(old(pullReplies))
      ensures Valid() && |r.unit.bytes| <= OUTPUT_BUFFER_SIZE
      ensures inputType == old(inputType) && outputType == old(outputType)
      ensures pushReplies == old(pushReplies) && pushed == old(pushed)
      ensures messages == old(messages) && live == old(live)
    {
      r := NextPull(pullReplies);
      pullReplies := RestPulls(pullReplies);
    }

    /** ProcessMessage: recorded. */
    method ProcessMessage(m: Message)
      modifies this
      ensures messages == old(messages) + [m]
      ensures inputType == old(inputType) && outputType == old(outputType)
      ensures pushReplies == old(pushReplies) && pullReplies == old(pullReplies)
      ensures pushed == old(pushed) && live == old(live)
    {
      messages := messages + [m];
    }

    /** Release: the last reference is gone. */
    method Release()
      modifies this
      ensures !live
      ensures inputType == old(inputType) && outputType == old(outputType)
      ensures pushReplies == old(pushReplies) && pullReplies == old(pullReplies)
      ensures pushed == old(pushed) && messages == old(messages)
    {
      live := false;
    }
  }

  /** The status the next ProcessInput returns. */
  function NextPush(pushes: seq<HResult>): (hr: HResult)
    ensures pushes == [] ==> hr == E_FAIL
    ensures pushes != [] ==> hr == pushes[0]
  {
    if pushes == [] then E_FAIL else pushes[0]
  }

  /** The script left after one ProcessInput. */
  function RestPushes(pushes: seq<HResult>): (r: seq<HResult>)
    ensures pushes == [] ==> r == []
    ensures pushes != [] ==> pushes == [pushes[0]] + r
  {
    if pushes == [] then [] else pushes[1..]
  }

  /** The answer the next ProcessOutput gives. */
  function NextPull(pulls: seq<Reply>): (r: Reply)
    ensures pulls == [] ==> r == Reply(E_FAIL, NoUnit)
    ensures pulls != [] ==> r == pulls[0]
  {
    if pulls == [] then Reply(E_FAIL, NoUnit) else pulls[0]
  }

  /** The script left after one ProcessOutput. */
  function RestPulls(pulls: seq<Reply>): (r: seq<Reply>)
    ensures pulls == [] ==> r == []
    ensures pulls != [] ==> pulls == [pulls[0]] + r
  {
    if pulls == [] then [] else pulls[1..]
  }
}
