// internal_encode: the push/pull loop of MFVideoEncoder over the encoder
// transform, and the OutputVData it fills.
module EncodeDrive {
  import opened Options
  import opened Bytes
  import opened HResults
  import opened Mft
  import opened EncodeLoop

  /** n copies of one sample: what n ProcessInput calls with it record. */
  function Copies(s: Sample, n: nat): (r: seq<Sample>)
    ensures |r| == n && forall i | 0 <= i < n :: r[i] == s
  {
    if n == 0 then [] else Copies(s, n - 1) + [s]
  }

  /** One more copy at the end of a log of copies. */
  lemma CopiesSnoc(prefix: seq<Sample>, s: Sample, n: nat)
    ensures prefix + Copies(s, n) + [s] == prefix + Copies(s, n + 1)
  {
  }

  /** The OutputVData fields other than the buffer. */
  datatype OutFields = OutFields(size: nat, duration: int, timestamp: int, keyFrame: bool)

  /** OutputVData, filled in by encode. */
  class OutputVData {
    var data: array?<byte>
    var size: nat
    var duration: int
    var timestamp: int
    var keyFrame: bool

    /** A zero-initialised OutputVData with no buffer. */
    constructor ()
      ensures data == null && Fields() == OutFields(0, 0, 0, false)
    {
      data := null;
      size, duration, timestamp, keyFrame := 0, 0, 0, false;
    }

    function Fields(): (f: OutFields)
      reads this
      ensures f.size == size && f.duration == duration && f.timestamp == timestamp && f.keyFrame == keyFrame
    {
      OutFields(size, duration, timestamp, keyFrame)
    }

    /** The output describes unit u: its bytes at the head of the buffer,
        their number, its duration and time, and its clean-point flag. */
    ghost predicate Holds(u: Unit)
      reads this, data
    {
      data != null && size == |u.bytes| <= data.Length && data[..size] == u.bytes &&
      duration == u.duration && timestamp == u.time && keyFrame == u.cleanPoint
    }

    /** internal_encode's allocation: a 16 MiB buffer when the caller gave
        none; a given buffer is kept. */
    method Reserve()
      requires data != null ==> data.Length >= OUTPUT_BUFFER_SIZE
      modifies this
      ensures data != null && data.Length >= OUTPUT_BUFFER_SIZE
      ensures old(data) == null ==> fresh(data) && data.Length == OUTPUT_BUFFER_SIZE
      ensures old(data) != null ==> data == old(data)
      ensures Fields() == old(Fields())
    {
      if data == null {
        data := new byte[OUTPUT_BUFFER_SIZE];
      }
    }

    /** The copy of one pulled unit: its duration, time and clean-point
        flag, its length, and its bytes memcpy'd to the head of the
        buffer. */
    method Store(u: Unit)
      requires data != null && |u.bytes| <= data.Length
      modifies this, data
      ensures Holds(u) && data == old(data)
    {
      duration := u.duration;
      timestamp := u.time;
      keyFrame := u.cleanPoint;
      size := |u.bytes|;
      Memcpy(data, 0, u.bytes, 0, |u.bytes|);
      assert u.bytes[0..|u.bytes|] == u.bytes;
    }
  }

  /** internal_encode: the push/pull loop over the encoder transform,
      after the output buffer is reserved. Every successful pull
      overwrites the output with its unit, so the output holds the unit of
      the last successful pull (or is left as it was when no pull
      succeeded); the status and the transform's remaining scripts are
      those of Pump, and every round pushes the sample again. */
  method InternalEncode(e: Transform, sample: Option<Sample>, out: OutputVData) returns (code: Code)
    requires e.Valid()
    requires out.data != null ==> out.data.Length >= OUTPUT_BUFFER_SIZE
    modifies e, out, out.data
    ensures var r := Pump(sample.Some?, old(e.pushReplies), old(e.pullReplies), None, 0);
      code == r.code && e.pushReplies == r.pushes && e.pullReplies == r.pulls &&
      e.pushed == old(e.pushed) + (if sample.Some? then Copies(sample.value, r.rounds) else []) &&
      (r.last.Some? ==> out.Holds(r.last.value)) &&
      (r.last.None? ==> out.Fields() == old(out.Fields()))
    ensures sample.Some? ==> |e.pushed| > |old(e.pushed)| && e.pushed[|old(e.pushed)|] == sample.value
    ensures e.messages == old(e.messages) + (if sample.Some? then [] else [EndOfStream, Drain])
    ensures old(out.data) == null ==> fresh(out.data) && out.data.Length == OUTPUT_BUFFER_SIZE
    ensures old(out.data) != null ==> out.data == old(out.data)
    ensures e.Valid() && e.inputType == old(e.inputType)
    ensures e.outputType == old(e.outputType) && e.live == old(e.live)
  {
    out.Reserve();
    code := Drive(e, sample, out);
    PumpConsumes(sample.Some?, old(e.pushReplies), old(e.pullReplies), None, 0);
  }

  /** The do-while loop of internal_encode, which repeats while the push
      is refused with MF_E_NOTACCEPTING. */
  method Drive(e: Transform, sample: Option<Sample>, out: OutputVData) returns (code: Code)
    requires e.Valid()
    requires out.data != null && out.data.Length >= OUTPUT_BUFFER_SIZE
    modifies e, out, out.data
    ensures var r := Pump(sample.Some?, old(e.pushReplies), old(e.pullReplies), None, 0);
      code == r.code && e.pushReplies == r.pushes && e.pullReplies == r.pulls &&
      e.pushed == old(e.pushed) + (if sample.Some? then Copies(sample.value, r.rounds) else []) &&
      (r.last.Some? ==> out.Holds(r.last.value)) &&
      (r.last.None? ==> out.Fields() == old(out.Fields()))
    ensures e.messages == old(e.messages) + (if sample.Some? then [] else [EndOfStream, Drain])
    ensures out.data == old(out.data)
    ensures e.Valid() && e.inputType == old(e.inputType)
    ensures e.outputType == old(e.outputType) && e.live == old(e.live)
  {
    var withSample := sample.Some?;
    ghost var r0 := Pump(withSample, e.pushReplies, e.pullReplies, None, 0);
    ghost var last: Option<Unit> := None;
    ghost var rounds: nat := 0;
    while true
      invariant e.Valid() && e.inputType == old(e.inputType)
      invariant e.outputType == old(e.outputType) && e.live == old(e.live)
      invariant Pump(withSample, e.pushReplies, e.pullReplies, last, rounds) == r0
      invariant withSample ==> e.pushed == old(e.pushed) + Copies(sample.value, rounds)
      invariant !withSample ==> e.pushed == old(e.pushed)
      invariant e.messages == old(e.messages)
      invariant out.data == old(out.data)
      invariant last.Some? ==> out.Holds(last.value)
      invariant last.None? ==> out.Fields() == old(out.Fields())
      decreases |e.pullReplies|
    {
      var stop;
      stop, last := EncodeRound(e, sample, out, last);
      if withSample {
        CopiesSnoc(old(e.pushed), sample.value, rounds);
      }
      rounds := rounds + 1;
      if stop.Some? {
        return stop.value;
      }
    }
  }

  /** One execution of internal_encode's do-while body, as Round
      describes it: the push (or the end-of-stream and drain messages),
      the pull, and the copy of a successful pull's unit into the output.
      `last` is the unit the output holds before; `next` the one after. */
  method EncodeRound(e: Transform, sample: Option<Sample>, out: OutputVData, ghost last: Option<Unit>)
    returns (stop: Option<Code>, ghost next: Option<Unit>)
    requires e.Valid()
    requires out.data != null && out.data.Length >= OUTPUT_BUFFER_SIZE
    requires last.Some? ==> out.Holds(last.value)
    modifies e, out, out.data
    ensures var s := Round(sample.Some?, old(e.pushReplies), old(e.pullReplies), last);
      stop == s.stop && next == s.last && e.pushReplies == s.pushes && e.pullReplies == s.pulls
    ensures next.Some? ==> out.Holds(next.value)
    ensures next.None? ==> out.Fields() == old(out.Fields())
    ensures out.data == old(out.data)
    ensures e.pushed == old(e.pushed) + (if sample.Some? then [sample.value] else [])
    ensures e.messages == old(e.messages) + (if sample.Some? then [] else [EndOfStream, Drain])
    ensures e.Valid() && e.inputType == old(e.inputType)
    ensures e.outputType == old(e.outputType) && e.live == old(e.live)
  {
    next := last;
    var hr1 := S_OK;
    if sample.Some? {
      hr1 := e.ProcessInput(sample.value);
      if HardPushFailure(hr1) {
        return Some(Fail), next;
      }
    } else {
      e.ProcessMessage(EndOfStream);
      e.ProcessMessage(Drain);
    }
    var reply := e.ProcessOutput();
    if HardPullFailure(reply.hr) {
      return Some(Fail), next;
    }
    if !Failed(reply.hr) {
      out.Store(reply.unit);
      next := Some(reply.unit);
    }
    if hr1 == MF_E_NOTACCEPTING {
      stop := None;
    } else if reply.hr == MF_E_TRANSFORM_NEED_MORE_INPUT {
      stop := Some(Starved(sample.Some?));
    } else {
      stop := Some(Success);
    }
  }
}
