// The monitor capture (MFMonitorCapture::Impl): the monitor list the
// enumeration appends to, the bounds-checked lookups, the capture session's
// start guard and teardown, and the resize latch that capture uses to
// rebuild its copy texture and output buffer once a resized frame's size
// has settled.
module MonitorCapture {
  import opened Options
  import opened Bytes
  import opened Align

  /** RECT of a MONITORINFO: LONG coordinates. */
  datatype Rect = Rect(left: Int32, top: Int32, right: Int32, bottom: Int32)

  /** An HMONITOR as the enumeration reports it, with what
      GetMonitorInfoA says of it: the device name and the monitor
      rectangle. */
  datatype Monitor = Monitor(handle: nat, device: string, rect: Rect)

  /** MONITOR_COLOR_FORMAT. */
  datatype MonitorFormat = MonitorNone | MonitorBgra | MonitorD3D11

  /** A winrt SizeInt32: the monitor size as the capture item reports it. */
  datatype SizeInt32 = SizeInt32(width: Int32, height: Int32)

  /** The width and height of a texture description (UINTs). */
  datatype Extent = Extent(width: UInt32, height: UInt32)

  /** The texture the latest FrameArrived callback stored: an identity and
      its size. */
  datatype FrameTexture = FrameTexture(id: nat, size: Extent)

  /** How start describes the copy texture: default usage bound as a
      shader resource, or staging usage with CPU read access. */
  datatype CopyUsage = DefaultShaderResource | StagingCpuRead

  /** The copy texture: an identity, its size and its usage. */
  datatype CopyTexture = CopyTexture(id: nat, size: Extent, usage: CopyUsage)

  /** What Map answers for the copy texture: its row pitch and bytes. */
  datatype Mapped = Mapped(rowPitch: UInt32, bytes: seq<byte>)

  /** The largest monitor width for which the BGRA stride,
      XALIGN(width * 4, 64), fits an int. */
  const MAX_WIDTH: int := 0x1FFF_FFF0

  /** get_monitor_resolution: the width and height of the monitor
      rectangle, right - left and bottom - top as LONG arithmetic. */
  function MonitorResolution(m: Monitor): (r: (Int32, Int32))
    ensures INT32_MIN <= m.rect.right - m.rect.left <= INT32_MAX ==> r.0 == m.rect.right - m.rect.left
    ensures INT32_MIN <= m.rect.bottom - m.rect.top <= INT32_MAX ==> r.1 == m.rect.bottom - m.rect.top
    ensures r.0 % UINT32_LIMIT == (m.rect.right - m.rect.left) % UINT32_LIMIT
    ensures r.1 % UINT32_LIMIT == (m.rect.bottom - m.rect.top) % UINT32_LIMIT
  {
    (Wrap32(m.rect.right - m.rect.left), Wrap32(m.rect.bottom - m.rect.top))
  }

  /** A monitor placed at (x, y) with a width and height reports them. */
  lemma ResolutionOfPlacedMonitor(handle: nat, device: string, x: Int32, y: Int32, w: nat, h: nat)
    requires w <= INT32_MAX && h <= INT32_MAX && x + w <= INT32_MAX && y + h <= INT32_MAX
    ensures MonitorResolution(Monitor(handle, device, Rect(x, y, x + w, y + h))) == (w, h)
  {
  }

  /** The usage start gives the copy texture: GPU-shared for D3D11 output,
      CPU-readable staging for any other format. */
  function CopyUsageFor(format: MonitorFormat): (u: CopyUsage)
    ensures u == DefaultShaderResource <==> format == MonitorD3D11
  {
    if format == MonitorD3D11 then DefaultShaderResource else StagingCpuRead
  }

  /** (UINT)x for an int x: its bits read as unsigned. */
  function Unsigned(x: Int32): (r: UInt32)
    ensures x >= 0 ==> r == x
  {
    x % UINT32_LIMIT
  }

  /** The frame's size is the monitor's, compared as UINTs. */
  predicate SameSize(monitor: SizeInt32, frame: Extent)
  {
    Unsigned(monitor.width) == frame.width && Unsigned(monitor.height) == frame.height
  }

  /** The row stride of the BGRA buffer capture reallocates:
      XALIGN(width * 4, 64), in UINT, stored in an int. */
  function BgraStride(width: UInt32): (r: Int32)
    requires width <= MAX_WIDTH
    ensures r % 64 == 0 && width * 4 <= r < width * 4 + 64
  {
    AsInt32(XAlign(width * 4, 64))
  }

  // ---------------------------------------------------------------------
  // The resize latch

  /** What capture does with a frame texture, given the latch: a frame
      whose size differs from the monitor's sets the latch and is not
      copied; a matching frame clears it, and when it was set the copy
      texture is recreated (and, for BGRA output, the buffer
      reallocated) before the copy. */
  datatype LatchStep = LatchStep(latch: bool, recreate: bool, copy: bool)

  function Latch(changing: bool, matches: bool): (s: LatchStep)
    ensures s.copy == matches && s.latch == !matches
    ensures s.recreate <==> matches && changing
  {
    if !matches then LatchStep(true, false, false)
    else LatchStep(false, changing, true)
  }

  /** The number of recreations over a run of frames, each flagged by
      whether its size matched the monitor's. */
  function Recreations(changing: bool, frames: seq<bool>): nat
    decreases |frames|
  {
    if frames == [] then 0
    else
      var s := Latch(changing, frames[0]);
      (if s.recreate then 1 else 0) + Recreations(s.latch, frames[1..])
  }

  /** n frames in a row whose size matches. */
  function Matching(n: nat): (r: seq<bool>)
    ensures |r| == n && forall i | 0 <= i < n :: r[i]
  {
    if n == 0 then [] else [true] + Matching(n - 1)
  }

  /** Once settled, matching frames never recreate anything. */
  lemma {:induction false} SettledFramesRecreateNothing(n: nat)
    ensures Recreations(false, Matching(n)) == 0
  {
    if n > 0 {
      assert Matching(n)[1..] == Matching(n - 1);
      SettledFramesRecreateNothing(n - 1);
    }
  }

  /** A resize, seen as one or more mismatching frames, followed by n >= 1
      matching frames recreates the copy texture exactly once, on the
      first matching frame. */
  lemma {:induction false} ResizeRecreatesOnce(changing: bool, m: nat, n: nat)
    requires m >= 1 && n >= 1
    ensures Recreations(changing, Mismatching(m) + Matching(n)) == 1
    decreases m
  {
    var frames := Mismatching(m) + Matching(n);
    assert frames[0] == false;
    assert frames[1..] == Mismatching(m - 1) + Matching(n);
    if m == 1 {
      assert Mismatching(0) + Matching(n) == Matching(n);
      assert Matching(n)[1..] == Matching(n - 1);
      SettledFramesRecreateNothing(n - 1);
    } else {
      ResizeRecreatesOnce(true, m - 1, n);
    }
  }

  /** m frames in a row whose size differs. */
  function Mismatching(m: nat): (r: seq<bool>)
    ensures |r| == m && forall i | 0 <= i < m :: !r[i]
  {
    if m == 0 then [] else [false] + Mismatching(m - 1)
  }

  /** A display resize as on_frame_arrived reports it: the last frame of
      the old pool, of the old monitor size, differs from the new monitor
      size and so sets the latch, and a frame of the recreated pool,
      sized as the new content, matches it. */
  lemma ResizeLatchesThenSettles(before: SizeInt32, content: SizeInt32)
    requires 0 <= before.width && 0 <= before.height && 0 <= content.width && 0 <= content.height
    requires before != content
    ensures !SameSize(content, Extent(Unsigned(before.width), Unsigned(before.height)))
    ensures SameSize(content, Extent(Unsigned(content.width), Unsigned(content.height)))
  {
  }

  // ---------------------------------------------------------------------
  // The capturer

  /** OutputMonitorData. The source passes the D3D11 copy texture through
      the data pointer; the model keeps it apart, in texture, and marks
      the data pointer null in that case. */
  class MonitorOutput {
    var width: int
    var height: int
    var stride: int
    var format: MonitorFormat
    var data: array?<byte>
    var texture: Option<CopyTexture>
    var size: UInt32

    constructor ()
      ensures data == null && texture == None && size == 0 && format == MonitorNone
      ensures width == 0 && height == 0 && stride == 0
    {
      width, height, stride, format := 0, 0, 0, MonitorNone;
      data, texture, size := null, None, 0;
    }
  }

  /** MFMonitorCapture::Impl. framePool and session say whether those
      winrt objects are set, capturing whether StartCapture ran; cursor
      is the cursor-capture setting when the platform offers it;
      lastCopied is the frame the copy texture last received; nextId
      numbers the textures created. */
  class MonitorCapturer {
    var monitors: seq<Monitor>
    var framePool: bool
    var session: bool
    var capturing: bool
    var cursor: Option<bool>
    var copyTexture: Option<CopyTexture>
    var outputFormat: MonitorFormat
    var monitorSize: SizeInt32
    var poolSize: SizeInt32
    var fullScreen: Option<FrameTexture>
    var changingSize: bool
    var lastCopied: Option<nat>
    var nextId: nat

    /** The monitor size is a real one, narrow enough for a BGRA stride,
        and the copy texture was numbered before nextId. */
    predicate Valid()
      reads this
    {
      0 <= monitorSize.width <= MAX_WIDTH && 0 <= monitorSize.height &&
      (copyTexture.Some? ==> copyTexture.value.id < nextId)
    }

    /** The constructor's enumeration. */
    constructor (found: seq<Monitor>)
      ensures Valid() && monitors == found
      ensures !framePool && !session && !capturing && cursor == None && copyTexture == None
      ensures outputFormat == MonitorNone && monitorSize == SizeInt32(0, 0) && !changingSize
      ensures lastCopied == None && poolSize == SizeInt32(0, 0) && fullScreen == None
    {
      monitors := found;
      framePool, session, capturing, cursor := false, false, false, None;
      copyTexture := None;
      outputFormat := MonitorNone;
      monitorSize := SizeInt32(0, 0);
      changingSize := false;
      lastCopied := None;
      nextId := 0;
      poolSize := SizeInt32(0, 0);
      fullScreen := None;
    }

    /** get_monitor_count: the monitors enumerated now are appended to the
        list, which is never cleared; the result is the new length as an
        int. */
    method GetMonitorCount(found: seq<Monitor>) returns (count: int)
      modifies this`monitors
      ensures monitors == old(monitors) + found
      ensures count == Wrap32(|monitors|)
      ensures |monitors| <= INT32_MAX ==> count == |old(monitors)| + |found|
    {
      monitors := monitors + found;
      count := Wrap32(|monitors|);
    }

    /** get_monitor_handle: the monitor at index, None (a null HMONITOR)
        out of range. */
    function MonitorHandle(index: int): (r: Option<Monitor>)
      reads this
      ensures r.None? <==> index < 0 || index >= |monitors|
      ensures r.Some? ==> r.value == monitors[index]
    {
      if index < 0 || index >= |monitors| then None else Some(monitors[index])
    }

    /** get_monitor_name: the device name at index, "" out of range. */
    function MonitorName(index: int): (name: string)
      reads this
      ensures index < 0 || index >= |monitors| ==> name == []
      ensures 0 <= index < |monitors| ==> name == monitors[index].device
    {
      if index < 0 || index >= |monitors| then [] else monitors[index].device
    }

    /** start: refused while a session exists. item is the size of the
        capture item CreateForMonitor makes for the monitor (None when it
        fails); textureOk says whether the copy texture can be created and
        cursorApi whether the platform offers cursor capture. The frame
        pool and session are created before the copy texture, so a failed
        texture leaves them set, and start stays refused until stop. */
    method Start(showCursor: bool, format: MonitorFormat, item: Option<SizeInt32>,
                 textureOk: bool, cursorApi: bool) returns (ok: bool)
      requires Valid()
      requires item.Some? ==> 0 <= item.value.width <= MAX_WIDTH && 0 <= item.value.height
      modifies this`framePool, this`session, this`capturing, this`cursor, this`copyTexture,
               this`outputFormat, this`monitorSize, this`poolSize, this`nextId
      ensures Valid()
      ensures old(session) || item.None? ==>
        !ok && framePool == old(framePool) && session == old(session) && capturing == old(capturing)
        && cursor == old(cursor) && copyTexture == old(copyTexture)
        && outputFormat == old(outputFormat) && monitorSize == old(monitorSize) && poolSize == old(poolSize)
      ensures !old(session) && item.Some? ==>
        framePool && session && monitorSize == item.value && poolSize == item.value && outputFormat == format
        && (ok <==> textureOk) && capturing == (old(capturing) || ok)
        && (ok ==> copyTexture.Some? && copyTexture.value.usage == CopyUsageFor(format)
                   && copyTexture.value.size == Extent(Unsigned(item.value.width), Unsigned(item.value.height)))
        && (!ok ==> copyTexture == old(copyTexture) && cursor == old(cursor))
        && (ok ==> cursor == if cursorApi then Some(showCursor) else old(cursor))
    {
      if session {
        return false;
      }
      if item.None? {
        return false;
      }
      monitorSize := item.value;
      poolSize := item.value;
      framePool := true;
      session := true;
      outputFormat := format;
      if !textureOk {
        return false;
      }
      var size := Extent(Unsigned(monitorSize.width), Unsigned(monitorSize.height));
      copyTexture := Some(CopyTexture(nextId, size, CopyUsageFor(format)));
      nextId := nextId + 1;
      if cursorApi {
        cursor := Some(showCursor);
      }
      capturing := true;
      ok := true;
    }

    /** stop: the frame pool, the session and the copy texture are closed
        and cleared; the output format, the monitor size and the latch
        stay as they were. */
    method Stop()
      requires Valid()
      modifies this`framePool, this`session, this`capturing, this`copyTexture
      ensures Valid()
      ensures !framePool && !session && !capturing && copyTexture == None
    {
      framePool := false;
      session := false;
      capturing := false;
      copyTexture := None;
    }

    /** on_frame_arrived: a frame whose content size differs from the
        monitor size has the frame pool recreated at the content size,
        which becomes the monitor size; the frame's surface texture then
        becomes the one capture reads. The surface still has the size of
        the pool the frame came from, so the first frame after a resize
        sets capture's latch and the frames of the recreated pool clear
        it. */
    method FrameArrived(content: SizeInt32, surface: FrameTexture)
      requires Valid()
      requires 0 <= content.width <= MAX_WIDTH && 0 <= content.height
      modifies this`monitorSize, this`poolSize, this`fullScreen
      ensures Valid()
      ensures monitorSize == content && fullScreen == Some(surface)
      ensures poolSize == if old(monitorSize) != content then content else old(poolSize)
    {
      if monitorSize != content {
        poolSize := content;
        monitorSize := content;
      }
      fullScreen := Some(surface);
    }

    /** on_closed: the stored frame texture is dropped. */
    method Closed()
      modifies this`fullScreen
      ensures fullScreen == None
    {
      fullScreen := None;
    }

    /** capture: reads the texture the latest frame arrival stored
        (fullScreen, None when there is none). A frame whose size differs
        from the monitor's sets the latch and is not copied. A matching frame, when the latch
        is set, first has the BGRA buffer reallocated to
        XALIGN(width * 4, 64) * height bytes and the copy texture recreated
        at the monitor size (recreateOk says whether that succeeds); the
        latch is cleared and the frame copied into the copy texture. The
        output then describes the frame: for D3D11, stride width * 4, size
        0 and the copy texture; otherwise BGRA, with stride and size from
        the mapped row pitch (mapped: None when Map fails) and the mapped
        bytes copied into the buffer. capture always returns true. */
    method Capture(out: MonitorOutput, recreateOk: bool, mapped: Option<Mapped>) returns (ok: bool)
      requires Valid()
      requires fullScreen.Some? && SameSize(monitorSize, fullScreen.value.size) && changingSize ==> copyTexture.Some?
      requires mapped.Some? && outputFormat != MonitorD3D11 ==>
        MapFits(mapped.value, FrameSize(fullScreen)) &&
        if Reallocates() then MappedSize(mapped.value, FrameSize(fullScreen)) <= ReallocSize()
        else out.data != null && MappedSize(mapped.value, FrameSize(fullScreen)) <= out.data.Length
      modifies this`copyTexture, this`changingSize, this`lastCopied, this`nextId, out
      modifies out.data
      ensures ok && Valid()
      ensures fullScreen.None? ==>
        changingSize == old(changingSize) && copyTexture == old(copyTexture) && lastCopied == old(lastCopied)
      ensures fullScreen.Some? ==> LatchApplied(fullScreen.value, old(changingSize), old(copyTexture), old(lastCopied), recreateOk)
      ensures old(Reallocates()) ==>
        out.data != null && fresh(out.data) && out.data.Length == ReallocSize()
      ensures Reports(out, FrameSize(fullScreen), mapped, old(out.stride), old(out.size), old(out.texture))
    {
      Settle(out, recreateOk);
      Report(out, FrameSize(fullScreen), mapped);
      ok := true;
    }

    /** The size capture reports: the frame's, or zero without a frame. */
    static function FrameSize(frame: Option<FrameTexture>): Extent
    {
      if frame.Some? then frame.value.size else Extent(0, 0)
    }

    /** capture's latch step reallocates the BGRA output buffer. */
    predicate Reallocates()
      reads this
    {
      outputFormat == MonitorBgra && fullScreen.Some? && changingSize && SameSize(monitorSize, fullScreen.value.size)
    }

    /** The length of the reallocated buffer: the BGRA stride times the
        monitor height. */
    function ReallocSize(): int
      reads this
      requires Valid()
    {
      var w := Unsigned(monitorSize.width);
      BgraStride(w) * monitorSize.height
    }

    /** The latch step of capture has been applied to a frame: the latch,
        the copy texture (recreated at the frame's size on the step that
        clears a set latch) and the frame last copied. */
    ghost predicate LatchApplied(frame: FrameTexture, wasChanging: bool, was: Option<CopyTexture>,
                                 wasCopied: Option<nat>, recreateOk: bool)
      reads this
    {
      var s := Latch(wasChanging, SameSize(monitorSize, frame.size));
      changingSize == s.latch
      && (!s.recreate ==> copyTexture == was)
      && (s.recreate ==>
            was.Some? && (recreateOk <==> copyTexture.Some?)
            && (recreateOk ==> copyTexture.value.size == frame.size
                               && copyTexture.value.usage == was.value.usage
                               && copyTexture.value.id != was.value.id))
      && lastCopied == (if s.copy && copyTexture.Some? then Some(frame.id) else wasCopied)
    }

    /** The output fields capture sets for a frame of size desc. */
    ghost predicate Reports(out: MonitorOutput, desc: Extent, mapped: Option<Mapped>,
                            wasStride: int, wasSize: UInt32, wasTexture: Option<CopyTexture>)
      reads this, out, out.data
    {
      out.width == AsInt32(desc.width) && out.height == AsInt32(desc.height)
      && (outputFormat == MonitorD3D11 ==>
            out.format == MonitorD3D11 && out.stride == AsInt32((desc.width * 4) % UINT32_LIMIT)
            && out.size == 0 && out.texture == copyTexture && out.data == null)
      && (outputFormat != MonitorD3D11 ==>
            out.format == MonitorBgra && out.texture == wasTexture
            && (copyTexture.None? || mapped.None? ==> out.stride == wasStride && out.size == wasSize)
            && (copyTexture.Some? && mapped.Some? ==>
                  out.stride == AsInt32(mapped.value.rowPitch)
                  && out.size == MappedSize(mapped.value, desc)
                  && out.data != null && out.size <= out.data.Length
                  && out.size <= |mapped.value.bytes|
                  && out.data[..out.size] == mapped.value.bytes[..out.size]))
    }

    /** capture's latch step, under the texture lock. */
    method Settle(out: MonitorOutput, recreateOk: bool)
      requires Valid()
      requires fullScreen.Some? && SameSize(monitorSize, fullScreen.value.size) && changingSize ==> copyTexture.Some?
      modifies this`copyTexture, this`changingSize, this`lastCopied, this`nextId, out`data
      ensures Valid()
      ensures fullScreen.None? ==>
        changingSize == old(changingSize) && copyTexture == old(copyTexture) && lastCopied == old(lastCopied)
      ensures fullScreen.Some? ==> LatchApplied(fullScreen.value, old(changingSize), old(copyTexture), old(lastCopied), recreateOk)
      ensures old(Reallocates()) ==>
        out.data != null && fresh(out.data) && out.data.Length == ReallocSize()
      ensures !old(Reallocates()) ==> out.data == old(out.data)
    {
      if fullScreen.None? {
        return;
      }
      var desc := fullScreen.value.size;
      if !SameSize(monitorSize, desc) {
        changingSize := true;
        return;
      }
      if changingSize {
        if outputFormat == MonitorBgra {
          var stride := BgraStride(desc.width);
          out.data := new byte[stride * monitorSize.height];
        }
        var prior := copyTexture.value;
        if recreateOk {
          copyTexture := Some(CopyTexture(nextId, desc, prior.usage));
          nextId := nextId + 1;
        } else {
          copyTexture := None;
        }
        changingSize := false;
      }
      if copyTexture.Some? {
        lastCopied := Some(fullScreen.value.id);
      }
    }

    /** capture's output fields, after the lock is released. */
    method Report(out: MonitorOutput, desc: Extent, mapped: Option<Mapped>)
      requires mapped.Some? && outputFormat != MonitorD3D11 && copyTexture.Some? ==>
        MapFits(mapped.value, desc) && out.data != null && MappedSize(mapped.value, desc) <= out.data.Length
      modifies out, out.data
      ensures Reports(out, desc, mapped, old(out.stride), old(out.size), old(out.texture))
      ensures outputFormat != MonitorD3D11 ==> out.data == old(out.data)
    {
      out.width := AsInt32(desc.width);
      out.height := AsInt32(desc.height);
      if outputFormat == MonitorD3D11 {
        out.stride := AsInt32((desc.width * 4) % UINT32_LIMIT);
        out.format := MonitorD3D11;
        out.data := null;
        out.texture := copyTexture;
        out.size := 0;
      } else {
        out.format := MonitorBgra;
        if copyTexture.Some? && mapped.Some? {
          var m := mapped.value;
          var n := MappedSize(m, desc);
          out.stride := AsInt32(m.rowPitch);
          out.size := n;
          Memcpy(out.data, 0, m.bytes, 0, n);
          assert m.bytes[0..n] == m.bytes[..n];
        }
      }
    }
  }

  /** output_data.size: RowPitch * Height in 32-bit unsigned arithmetic. */
  function MappedSize(m: Mapped, desc: Extent): (n: UInt32)
    ensures m.rowPitch * desc.height < UINT32_LIMIT ==> n == m.rowPitch * desc.height
  {
    var p := m.rowPitch * desc.height;
    assert p >= 0;
    p % UINT32_LIMIT
  }


  /** The mapped bytes cover what capture copies out of them. */
  predicate MapFits(m: Mapped, desc: Extent)
  {
    MappedSize(m, desc) <= |m.bytes|
  }
}
