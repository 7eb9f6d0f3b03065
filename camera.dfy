// The camera capture (MFCameraCapture::Impl): the device list the platform
// enumerates, the per-index session maps start and stop maintain, the
// native-mode matching rule of start, and the copy of a read frame into the
// caller's buffer, bottom-up rows flipped.
module CameraCapture {
  import opened Options
  import opened Bytes
  import opened Align
  import opened Arith
  import opened MediaFormats

  /** One native media type of a source reader: its MF_MT_FRAME_RATE ratio,
      its MF_MT_FRAME_SIZE and its subtype. */
  datatype NativeType = NativeType(fpsNum: UInt32, fpsDen: UInt32,
                                   width: UInt32, height: UInt32, subtype: Guid)

  /** The source reader created over a camera's media source: its native
      types in enumeration order, and whether SetStreamSelection and
      SetCurrentMediaType succeed. */
  datatype Reader = Reader(types: seq<NativeType>, selects: bool, setsType: bool)

  /** One IMFActivate of the enumeration: its symbolic link and friendly
      name, whether ActivateObject succeeds, and the reader
      MFCreateSourceReaderFromMediaSource gives for it (None when it fails). */
  datatype Device = Device(link: string, name: string, activates: bool, reader: Option<Reader>)

  /** What one ReadSample call answers: its status, the end-of-stream flag,
      and the sample (None for a null sample). */
  datatype ReadAnswer = ReadAnswer(ok: bool, endOfStream: bool, sample: Option<Frame>)

  /** A read sample: whether ConvertToContiguousBuffer succeeds, and the bytes
      of that buffer (its GetCurrentLength is their number). */
  datatype Frame = Frame(contiguous: bool, bytes: seq<byte>)

  /** The type every native type is read with: a frame rate with a nonzero
      denominator (the mode filter divides by it). */
  predicate Rated(types: seq<NativeType>)
  {
    forall k | 0 <= k < |types| :: types[k].fpsDen > 0
  }

  /** A device whose reader the code can start: its reader lists at least
      one native type (start reads the type at the selected index), every
      one rated. */
  predicate Startable(d: Device)
  {
    d.reader.Some? ==> |d.reader.value.types| > 0 && Rated(d.reader.value.types)
  }

  // ---------------------------------------------------------------------
  // find_camera_index

  /** The first device whose symbolic link is id, or -1. */
  function LinkIndex(ds: seq<Device>, id: string): (r: int)
    ensures -1 <= r < |ds|
    ensures r >= 0 ==> ds[r].link == id && forall k | 0 <= k < r :: ds[k].link != id
    ensures r == -1 <==> forall k | 0 <= k < |ds| :: ds[k].link != id
  {
    if ds == [] then -1
    else if ds[0].link == id then 0
    else
      var r := LinkIndex(ds[1..], id);
      assert forall k | 1 <= k < |ds| :: ds[k] == ds[1..][k - 1];
      if r == -1 then -1 else r + 1
  }

  /** find_camera_index over the (possibly null) activate array. */
  function CameraIndex(devices: Option<seq<Device>>, id: string): (r: int)
    ensures devices.None? ==> r == -1
    ensures devices.Some? ==> r == LinkIndex(devices.value, id)
  {
    if devices.None? then -1 else LinkIndex(devices.value, id)
  }

  // ---------------------------------------------------------------------
  // The mode matching rule of start

  /** A native type start considers: integer frames per second of at least
      30, in UINT32 division. */
  predicate FastEnough(t: NativeType)
    requires t.fpsDen > 0
  {
    t.fpsNum / t.fpsDen >= 30
  }

  /** The delta start computes for a requested size and a native type. The
      comparisons read the frame sizes as int; the sums are done in UINT32
      and stored back into an int, so they wrap modulo 2^32; an exact match
      is 0. */
  function Penalty(width: Int32, height: Int32, t: NativeType): Int32
  {
    var fw := AsInt32(t.width);
    var fh := AsInt32(t.height);
    if width == fw && height == fh then 0 else Wrap32(Mismatch(width, height, fw, fh))
  }

  /** The sum start forms before it is stored: overshoot of the native size
      once, undershoot twice, in each dimension. */
  function Mismatch(width: int, height: int, fw: int, fh: int): int
  {
    (if width < fw then fw - width else 0)
    + (if height < fh then fh - height else 0)
    + (if width > fw then 2 * (width - fw) else 0)
    + (if height > fh then 2 * (height - fh) else 0)
  }

  /** Sizes small enough that no penalty wraps. */
  predicate Small(width: Int32, height: Int32, t: NativeType)
  {
    0 <= width < 0x1000_0000 && 0 <= height < 0x1000_0000
    && t.width < 0x1000_0000 && t.height < 0x1000_0000
  }

  /** Without wrap-around the penalty is the overshoot counted once plus the
      undershoot counted twice, in each dimension, and it is zero exactly
      for an exact match. */
  lemma PenaltyMeaning(width: Int32, height: Int32, t: NativeType)
    requires Small(width, height, t)
    ensures Penalty(width, height, t) ==
      (if t.width > width then t.width - width else 2 * (width - t.width))
      + (if t.height > height then t.height - height else 2 * (height - t.height))
    ensures Penalty(width, height, t) >= 0
    ensures Penalty(width, height, t) == 0 <==> t.width == width && t.height == height
  {
  }

  /** sel is what the matching loop of start leaves in select_index: when
      some considered type has a penalty below INT_MAX, sel is a considered
      type all of whose considered predecessors had a strictly larger,
      positive penalty (so the loop was still running and did not take them
      over it), and, unless its penalty reached 0 and stopped the loop, no
      later considered type has a smaller one; otherwise sel is 0. */
  predicate IsSelection(types: seq<NativeType>, width: Int32, height: Int32, sel: nat)
    requires Rated(types)
  {
    if forall k | 0 <= k < |types| && FastEnough(types[k]) :: Penalty(width, height, types[k]) == INT32_MAX
    then sel == 0
    else
      sel < |types| && FastEnough(types[sel])
      && Penalty(width, height, types[sel]) < INT32_MAX
      && (forall k | 0 <= k < sel && FastEnough(types[k]) ::
            0 < Penalty(width, height, types[k])
            && Penalty(width, height, types[sel]) < Penalty(width, height, types[k]))
      && (0 < Penalty(width, height, types[sel]) ==>
            forall k | sel < k < |types| && FastEnough(types[k]) ::
              Penalty(width, height, types[sel]) <= Penalty(width, height, types[k]))
  }

  /** The selection is determined by the types and the requested size. */
  lemma SelectionUnique(types: seq<NativeType>, width: Int32, height: Int32, a: nat, b: nat)
    requires Rated(types)
    requires IsSelection(types, width, height, a) && IsSelection(types, width, height, b)
    ensures a == b
  {
  }

  /** A considered exact match with no considered type of non-positive
      penalty before it is the one selected. */
  lemma ExactMatchSelected(types: seq<NativeType>, width: Int32, height: Int32, sel: nat, k: nat)
    requires Rated(types) && IsSelection(types, width, height, sel)
    requires k < |types| && FastEnough(types[k])
    requires AsInt32(types[k].width) == width && AsInt32(types[k].height) == height
    requires forall j | 0 <= j < k && FastEnough(types[j]) :: 0 < Penalty(width, height, types[j])
    ensures sel == k
  {
    assert Penalty(width, height, types[k]) == 0;
  }

  /** The matching loop of start: walk the native types while the
      enumeration succeeds and the least penalty so far is positive, skip
      the slow ones, and keep the first type of strictly least penalty. */
  method SelectMode(types: seq<NativeType>, width: Int32, height: Int32) returns (sel: nat)
    requires Rated(types)
    ensures IsSelection(types, width, height, sel)
    ensures |types| > 0 ==> sel < |types|
  {
    var index := 0;
    var minDelta: Int32 := INT32_MAX;
    sel := 0;
    while index < |types| && minDelta > 0
      invariant 0 <= index <= |types|
      invariant minDelta == INT32_MAX ==> sel == 0
      invariant minDelta == INT32_MAX ==>
        forall k | 0 <= k < index && FastEnough(types[k]) :: Penalty(width, height, types[k]) == INT32_MAX
      invariant minDelta < INT32_MAX ==>
        sel < index && FastEnough(types[sel]) && Penalty(width, height, types[sel]) == minDelta
      invariant minDelta < INT32_MAX ==>
        forall k | 0 <= k < sel && FastEnough(types[k]) ::
          0 < Penalty(width, height, types[k]) && minDelta < Penalty(width, height, types[k])
      invariant minDelta < INT32_MAX ==>
        forall k | sel < k < index && FastEnough(types[k]) :: minDelta <= Penalty(width, height, types[k])
    {
      var t := types[index];
      index := index + 1;
      if t.fpsNum / t.fpsDen < 30 {
        continue;
      }
      var delta := Penalty(width, height, t);
      if minDelta > delta {
        minDelta := delta;
        sel := index - 1;
      }
    }
  }

  // ---------------------------------------------------------------------
  // The bottom-up copy of capture

  /** Row k of rows of s bytes lies within the buffer. */
  predicate RowFits(b: seq<byte>, k: nat, s: nat)
  {
    Mul(k, s) + s <= |b|
  }

  /** Row k of a buffer of rows of s bytes. */
  function Row(b: seq<byte>, k: nat, s: nat): (r: seq<byte>)
    requires RowFits(b, k, s)
    ensures |r| == s
  {
    b[Mul(k, s) .. Mul(k, s) + s]
  }

  /** The first n rows of a buffer, in order. */
  function Rows(b: seq<byte>, n: nat, s: nat): (rs: seq<seq<byte>>)
    requires Mul(n, s) <= |b|
    ensures |rs| == n
    ensures forall k | 0 <= k < n :: RowFits(b, k, s) && rs[k] == Row(b, k, s)
  {
    if n == 0 then [] else Rows(b, n - 1, s) + [Row(b, n - 1, s)]
  }

  /** Rows laid end to end. */
  function Concat(rs: seq<seq<byte>>): seq<byte>
  {
    if rs == [] then [] else Concat(rs[..|rs| - 1]) + rs[|rs| - 1]
  }

  function Reverse(rs: seq<seq<byte>>): (r: seq<seq<byte>>)
    ensures |r| == |rs|
    ensures forall k | 0 <= k < |rs| :: r[k] == rs[|rs| - 1 - k]
  {
    if rs == [] then [] else [rs[|rs| - 1]] + Reverse(rs[..|rs| - 1])
  }

  /** The first h rows of s bytes of b, last row first. */
  function Flip(b: seq<byte>, h: nat, s: nat): seq<byte>
    requires Mul(h, s) <= |b|
  {
    Concat(Reverse(Rows(b, h, s)))
  }

  predicate RowsOf(rs: seq<seq<byte>>, s: nat)
  {
    forall k | 0 <= k < |rs| :: |rs[k]| == s
  }

  lemma {:induction false} ConcatLength(rs: seq<seq<byte>>, s: nat)
    requires RowsOf(rs, s)
    ensures |Concat(rs)| == Mul(|rs|, s)
  {
    if rs != [] {
      ConcatLength(rs[..|rs| - 1], s);
    }
  }

  /** The rows of a buffer laid end to end are its prefix. */
  lemma {:induction false} ConcatRows(b: seq<byte>, n: nat, s: nat)
    requires Mul(n, s) <= |b|
    ensures Concat(Rows(b, n, s)) == b[..Mul(n, s)]
  {
    if n > 0 {
      ConcatRows(b, n - 1, s);
      ConcatRowsStep(b, n, s);
    }
  }

  lemma ConcatRowsStep(b: seq<byte>, n: nat, s: nat)
    requires 0 < n && Mul(n, s) <= |b|
    requires Mul(n - 1, s) <= Mul(n, s)
    requires Concat(Rows(b, n - 1, s)) == b[..Mul(n - 1, s)]
    ensures Concat(Rows(b, n, s)) == b[..Mul(n, s)]
  {
    RowsSnoc(b, n, s);
    JoinPrefix(b, Concat(Rows(b, n - 1, s)), Mul(n - 1, s), s);
  }

  /** Laying out n rows is laying out n - 1 rows and then row n - 1. */
  lemma RowsSnoc(b: seq<byte>, n: nat, s: nat)
    requires 0 < n && Mul(n, s) <= |b|
    ensures Mul(n, s) == Mul(n - 1, s) + s
    ensures Concat(Rows(b, n, s)) == Concat(Rows(b, n - 1, s)) + b[Mul(n - 1, s) .. Mul(n - 1, s) + s]
  {
    MulSucc(n - 1, s);
    var rs := Rows(b, n, s);
    assert rs[..n - 1] == Rows(b, n - 1, s);
  }

  /** A prefix followed by the next s bytes is the longer prefix. */
  lemma JoinPrefix(b: seq<byte>, x: seq<byte>, m: nat, s: nat)
    requires m + s <= |b| && x == b[..m]
    ensures x + b[m..m + s] == b[..m + s]
  {
  }

  /** Rows of a buffer depend only on its prefix. */
  lemma {:induction false} RowsPrefix(b: seq<byte>, c: seq<byte>, n: nat, s: nat)
    requires Mul(n, s) <= |b|
    ensures Rows(b + c, n, s) == Rows(b, n, s)
  {
    if n > 0 {
      RowsPrefix(b, c, n - 1, s);
      assert Row(b + c, n - 1, s) == Row(b, n - 1, s);
    }
  }

  /** Cutting rows of s bytes laid end to end gives those rows back. */
  lemma {:induction false} RowsOfConcat(rs: seq<seq<byte>>, s: nat)
    requires RowsOf(rs, s)
    ensures Mul(|rs|, s) <= |Concat(rs)|
    ensures Rows(Concat(rs), |rs|, s) == rs
  {
    ConcatLength(rs, s);
    if rs != [] {
      var front := rs[..|rs| - 1];
      assert RowsOf(front, s);
      RowsOfConcat(front, s);
      ConcatLength(front, s);
      RowsOfConcatStep(rs, s);
    }
  }

  lemma RowsOfConcatStep(rs: seq<seq<byte>>, s: nat)
    requires RowsOf(rs, s) && rs != []
    requires |Concat(rs[..|rs| - 1])| == Mul(|rs| - 1, s)
    requires Rows(Concat(rs[..|rs| - 1]), |rs| - 1, s) == rs[..|rs| - 1]
    ensures Mul(|rs|, s) <= |Concat(rs)|
    ensures Rows(Concat(rs), |rs|, s) == rs
  {
    var n := |rs|;
    var front := rs[..n - 1];
    var whole := Concat(rs);
    assert whole == Concat(front) + rs[n - 1];
    MulSucc(n - 1, s);
    RowsPrefix(Concat(front), rs[n - 1], n - 1, s);
    LastRow(Concat(front), rs[n - 1], n - 1, s);
    LastSplit(rs);
  }

  /** The row right after k full rows is what follows them. */
  lemma LastRow(x: seq<byte>, y: seq<byte>, k: nat, s: nat)
    requires |x| == Mul(k, s) && |y| == s
    ensures RowFits(x + y, k, s) && Row(x + y, k, s) == y
  {
  }

  lemma LastSplit(rs: seq<seq<byte>>)
    requires rs != []
    ensures rs == rs[..|rs| - 1] + [rs[|rs| - 1]]
  {
  }

  lemma ReverseTwice(rs: seq<seq<byte>>)
    ensures Reverse(Reverse(rs)) == rs
  {
  }

  /** Output row k of the bottom-up copy is input row h - 1 - k. */
  lemma FlipRow(b: seq<byte>, h: nat, s: nat, k: nat)
    requires Mul(h, s) <= |b| && k < h
    ensures Mul(k, s) + s <= |Flip(b, h, s)|
    ensures Mul(h - 1 - k, s) + s <= |b|
    ensures Row(Flip(b, h, s), k, s) == Row(b, h - 1 - k, s)
  {
    var rows := Rows(b, h, s);
    var rs := Reverse(rows);
    ReversedRowsOf(b, h, s);
    RowsOfConcat(rs, s);
    var f := Flip(b, h, s);
    assert f == Concat(rs);
    assert Rows(f, h, s)[k] == Row(f, k, s);
    assert rs[k] == rows[h - 1 - k];
  }

  /** The reversed rows of a buffer are still rows of s bytes. */
  lemma ReversedRowsOf(b: seq<byte>, h: nat, s: nat)
    requires Mul(h, s) <= |b|
    ensures RowsOf(Reverse(Rows(b, h, s)), s)
  {
    var rows := Rows(b, h, s);
    var rs := Reverse(rows);
    forall k | 0 <= k < |rs|
      ensures |rs[k]| == s
    {
      ReversedRow(b, h, s, k);
    }
  }

  /** Flipping the rows twice gives back the h rows of the input. */
  lemma FlipTwice(b: seq<byte>, h: nat, s: nat)
    requires Mul(h, s) <= |b|
    ensures Mul(h, s) <= |Flip(b, h, s)|
    ensures Flip(Flip(b, h, s), h, s) == b[..Mul(h, s)]
  {
    var rs := Reverse(Rows(b, h, s));
    ReversedRowsOf(b, h, s);
    RowsOfConcat(rs, s);
    ReverseTwice(Rows(b, h, s));
    ConcatRows(b, h, s);
  }

  /** The buffer the copy writes into is big enough for it: with a negative
      stride the h rows of |stride| bytes must lie within the frame and the
      output buffer; otherwise the whole frame must fit the output buffer
      (a freshly allocated one is frame-sized). */
  predicate CopyFits(data: array?<byte>, bytes: seq<byte>, stride: int, height: int)
  {
    if stride < 0 then
      var rows := Mul(if height > 0 then height else 0, -stride);
      rows <= |bytes| && (data != null ==> rows <= data.Length)
    else
      data != null ==> |bytes| <= data.Length
  }

  /** What the copy leaves in the output buffer: with a negative stride,
      the h rows of |stride| bytes, last row first; otherwise the frame's
      bytes unchanged. */
  predicate Holds(buf: array<byte>, bytes: seq<byte>, stride: int, height: int)
    reads buf
  {
    if stride < 0 then
      var h := if height > 0 then height else 0;
      Mul(h, -stride) <= |bytes| && Mul(h, -stride) <= buf.Length
      && buf[..Mul(h, -stride)] == Flip(bytes, h, -stride)
    else
      |bytes| <= buf.Length && buf[..|bytes|] == bytes
  }

  /** The caller's OutputCameraData. */
  class CameraOutput {
    var width: Int32
    var height: Int32
    var format: CameraFormat
    var stride: Int32
    var data: array?<byte>
    var size: nat

    constructor ()
      ensures width == 0 && height == 0 && format == CameraNone && stride == 0
      ensures data == null && size == 0
    {
      width, height, format, stride := 0, 0, CameraNone, 0;
      data, size := null, 0;
    }

    /** The end of capture: record the buffer's length, allocate data when
        it is null, and copy the frame into it. */
    method Receive(bytes: seq<byte>)
      requires CopyFits(data, bytes, stride, height)
      modifies this, data
      ensures width == old(width) && height == old(height) && format == old(format)
      ensures stride == old(stride) && size == |bytes| && data != null
      ensures old(data) != null ==> data == old(data)
      ensures old(data) == null ==> fresh(data) && data.Length == |bytes|
      ensures Holds(data, bytes, stride, height)
    {
      size := |bytes|;
      if data == null {
        data := new byte[size];
      }
      CopyFrame(data, bytes, stride, height);
    }
  }

  /** The camera capture: the activate array (None when it is null) and the
      per-index maps of activated media sources (by symbolic link), source
      readers and selected media types. */
  class Camera {
    var devices: Option<seq<Device>>
    var sources: map<int, string>
    var readers: map<int, Reader>
    var mediaTypes: map<int, NativeType>

    /** The constructor's enumeration, None when it failed. */
    constructor (found: Option<seq<Device>>)
      ensures devices == found
      ensures sources == map[] && readers == map[] && mediaTypes == map[]
    {
      devices := found;
      sources, readers, mediaTypes := map[], map[], map[];
    }

    /** get_camera_count: a fresh enumeration replaces the activate array;
        the session maps keep their indices. */
    method GetCameraCount(found: seq<Device>) returns (count: int)
      modifies this
      ensures devices == Some(found) && count == |found|
      ensures sources == old(sources) && readers == old(readers) && mediaTypes == old(mediaTypes)
    {
      devices := Some(found);
      count := |found|;
    }

    /** get_camera_id: the symbolic link at index, "" without an array. */
    function CameraId(index: int): (id: string)
      reads this
      requires devices.Some? ==> 0 <= index < |devices.value|
      ensures devices.None? ==> id == []
    {
      if devices.None? then [] else devices.value[index].link
    }

    /** get_camera_name: the friendly name at index, "" without an array. */
    function CameraName(index: int): (name: string)
      reads this
      requires devices.Some? ==> 0 <= index < |devices.value|
      ensures devices.None? ==> name == []
    {
      if devices.None? then [] else devices.value[index].name
    }

    /** find_camera_index. */
    method FindCameraIndex(cameraId: string) returns (r: int)
      ensures r == CameraIndex(devices, cameraId)
    {
      if devices.None? {
        return -1;
      }
      var ds := devices.value;
      var i := 0;
      while i < |ds|
        invariant 0 <= i <= |ds|
        invariant forall k | 0 <= k < i :: ds[k].link != cameraId
      {
        if ds[i].link == cameraId {
          return i;
        }
        i := i + 1;
      }
      return -1;
    }

    /** start: find the camera, activate its media source, create its reader
        and record both, select a native mode, report its size and format
        through the in/out parameters, then select the stream and set the
        type, recording the type only when both succeed. */
    method Start(cameraId: string, width: Int32, height: Int32, format: CameraFormat)
      returns (ok: bool, outWidth: Int32, outHeight: Int32, outFormat: CameraFormat, ghost selected: nat)
      requires devices.Some? ==> forall k | 0 <= k < |devices.value| :: Startable(devices.value[k])
      modifies this
      ensures devices == old(devices)
      ensures var i := CameraIndex(devices, cameraId);
        if i == -1 || !devices.value[i].activates || devices.value[i].reader.None? then
          !ok && outWidth == width && outHeight == height && outFormat == format
          && sources == old(sources) && readers == old(readers) && mediaTypes == old(mediaTypes)
        else
          var d := devices.value[i];
          var r := d.reader.value;
          Startable(d) && selected < |r.types| && IsSelection(r.types, width, height, selected)
          && outWidth == AsInt32(r.types[selected].width)
          && outHeight == AsInt32(r.types[selected].height)
          && outFormat == GuidToCameraFormat(r.types[selected].subtype)
          && sources == old(sources)[i := d.link] && readers == old(readers)[i := r]
          && (ok <==> r.selects && r.setsType)
          && mediaTypes == (if ok then old(mediaTypes)[i := r.types[selected]] else old(mediaTypes))
    {
      ok, outWidth, outHeight, outFormat, selected := false, width, height, format, 0;
      if devices.None? {
        return;
      }
      var i := FindCameraIndex(cameraId);
      if i == -1 {
        return;
      }
      var d := devices.value[i];
      if !d.activates {
        return;
      }
      if d.reader.None? {
        return;
      }
      var r := d.reader.value;
      sources := sources[i := d.link];
      readers := readers[i := r];
      assert Startable(d);
      var sel := SelectMode(r.types, width, height);
      selected := sel;
      var t := r.types[sel];
      outWidth, outHeight := AsInt32(t.width), AsInt32(t.height);
      outFormat := GuidToCameraFormat(t.subtype);
      if !r.selects {
        return;
      }
      if !r.setsType {
        return;
      }
      mediaTypes := mediaTypes[i := t];
      ok := true;
    }

    /** stop: erase the camera's entries from the three maps. */
    method Stop(cameraId: string)
      modifies this
      ensures devices == old(devices)
      ensures var i := CameraIndex(devices, cameraId);
        if i == -1 then
          sources == old(sources) && readers == old(readers) && mediaTypes == old(mediaTypes)
        else
          sources == old(sources) - {i} && readers == old(readers) - {i}
          && mediaTypes == old(mediaTypes) - {i}
    {
      var i := FindCameraIndex(cameraId);
      if i == -1 {
        return;
      }
      mediaTypes := mediaTypes - {i};
      readers := readers - {i};
      sources := sources - {i};
    }

    /** get_resolution_list: append the size of every native type of the
        camera's reader, in enumeration order; nothing for an unknown id or
        a camera without a reader. */
    method GetResolutionList(cameraId: string, list: seq<(Int32, Int32)>) returns (result: seq<(Int32, Int32)>)
      ensures var i := CameraIndex(devices, cameraId);
        if i == -1 || i !in readers then result == list
        else
          var types := readers[i].types;
          |result| == |list| + |types| && result[..|list|] == list
          && forall k | 0 <= k < |types| ::
               result[|list| + k] == (AsInt32(types[k].width), AsInt32(types[k].height))
    {
      result := list;
      var i := FindCameraIndex(cameraId);
      if i == -1 || i !in readers {
        return;
      }
      var types := readers[i].types;
      var index := 0;
      while index < |types|
        invariant 0 <= index <= |types|
        invariant |result| == |list| + index && result[..|list|] == list
        invariant forall k | 0 <= k < index ::
          result[|list| + k] == (AsInt32(types[k].width), AsInt32(types[k].height))
      {
        result := result + [(AsInt32(types[index].width), AsInt32(types[index].height))];
        index := index + 1;
      }
    }

    /** capture: read one sample from the camera's reader; on success take
        size, format and stride from the recorded media type (stride is what
        MFGetStrideForBitmapInfoHeader reports for it), allocate out.data
        only when it is null, and copy the frame, flipping its rows when the
        stride is negative. */
    method Capture(cameraId: string, out: CameraOutput, read: ReadAnswer, stride: Int32) returns (ok: bool)
      requires read.sample.Some? ==>
        var i := CameraIndex(devices, cameraId);
        if i in mediaTypes then CopyFits(out.data, read.sample.value.bytes, stride, AsInt32(mediaTypes[i].height))
        else CopyFits(out.data, read.sample.value.bytes, out.stride, out.height)
      modifies out, out.data
      ensures var i := CameraIndex(devices, cameraId);
        ok <==> i != -1 && i in readers && read.ok && !read.endOfStream
                && read.sample.Some? && read.sample.value.contiguous
      ensures var i := CameraIndex(devices, cameraId);
        if i == -1 || i !in readers || !read.ok || read.endOfStream || read.sample.None? then
          out.width == old(out.width) && out.height == old(out.height) && out.format == old(out.format)
          && out.stride == old(out.stride) && out.data == old(out.data) && out.size == old(out.size)
        else if i in mediaTypes then
          var t := mediaTypes[i];
          out.width == AsInt32(t.width) && out.height == AsInt32(t.height)
          && out.format == GuidToCameraFormat(t.subtype) && out.stride == stride
        else
          out.width == old(out.width) && out.height == old(out.height)
          && out.format == old(out.format) && out.stride == old(out.stride)
      ensures ok ==> out.size == |read.sample.value.bytes| && out.data != null
      ensures ok && old(out.data) != null ==> out.data == old(out.data)
      ensures ok && old(out.data) == null ==> fresh(out.data) && out.data.Length == |read.sample.value.bytes|
      ensures ok ==> Holds(out.data, read.sample.value.bytes, out.stride, out.height)
    {
      var i := FindCameraIndex(cameraId);
      if i == -1 || i !in readers {
        return false;
      }
      if !read.ok || read.endOfStream || read.sample.None? {
        return false;
      }
      if i in mediaTypes {
        var t := mediaTypes[i];
        out.width, out.height := AsInt32(t.width), AsInt32(t.height);
        out.format := GuidToCameraFormat(t.subtype);
        out.stride := stride;
      }
      var frame := read.sample.value;
      if !frame.contiguous {
        return false;
      }
      out.Receive(frame.bytes);
      ok := true;
    }
  }

  /** The copy at the end of capture: with a negative stride, rows of
      |stride| bytes from the last input row up; otherwise the whole
      frame. */
  method CopyFrame(buf: array<byte>, bytes: seq<byte>, stride: Int32, height: Int32)
    requires CopyFits(buf, bytes, stride, height)
    modifies buf
    ensures Holds(buf, bytes, stride, height)
  {
    if stride < 0 {
      FlipCopy(buf, bytes, -(stride as int), if height > 0 then height else 0);
    } else {
      Memcpy(buf, 0, bytes, 0, |bytes|);
    }
  }

  /** The bottom-up loop: for i from h - 1 down to 0, input row i goes to
      output row h - 1 - i. */
  method FlipCopy(buf: array<byte>, bytes: seq<byte>, s: nat, h: nat)
    requires Mul(h, s) <= |bytes| && Mul(h, s) <= buf.Length
    modifies buf
    ensures buf[..Mul(h, s)] == Flip(bytes, h, s)
  {
    var i := h - 1;
    while i >= 0
      invariant -1 <= i < h
      invariant Mul(h - 1 - i, s) <= buf.Length
      invariant buf[..Mul(h - 1 - i, s)] == FlipPrefix(bytes, h, s, h - 1 - i)
    {
      var k := h - 1 - i;
      FlipStep(bytes, h, s, k);
      RowEnd(k, s, h, s);
      AppendRow(buf, Mul(k, s), bytes, Mul(i, s), s);
      i := i - 1;
    }
    FlipPrefixAll(bytes, h, s);
  }

  /** One memcpy of a row, seen as extending the output prefix. */
  method AppendRow(buf: array<byte>, off: nat, src: seq<byte>, from: nat, n: nat)
    requires off + n <= buf.Length && from + n <= |src|
    modifies buf
    ensures buf[..off + n] == old(buf[..off]) + src[from .. from + n]
  {
    Memcpy(buf, off, src, from, n);
  }

  /** The first k output rows of the bottom-up copy: output row j is input
      row h - 1 - j. */
  function FlipPrefix(b: seq<byte>, h: nat, s: nat, k: nat): seq<byte>
    requires Mul(h, s) <= |b| && k <= h
    decreases k
  {
    if k == 0 then []
    else
      RowEnd(h - k, s, h, s);
      FlipPrefix(b, h, s, k - 1) + Row(b, h - k, s)
  }

  /** The loop's prefix is the reversed rows laid end to end. */
  lemma {:induction false} FlipPrefixReversed(b: seq<byte>, h: nat, s: nat, k: nat)
    requires Mul(h, s) <= |b| && k <= h
    ensures FlipPrefix(b, h, s, k) == Concat(Reverse(Rows(b, h, s))[..k])
    decreases k
  {
    if k > 0 {
      var rev := Reverse(Rows(b, h, s));
      var row := Row(b, h - k, s);
      assert FlipPrefix(b, h, s, k) == FlipPrefix(b, h, s, k - 1) + row;
      FlipPrefixReversed(b, h, s, k - 1);
      ConcatSnoc(rev, k);
      ReversedRow(b, h, s, k - 1);
      assert h - 1 - (k - 1) == h - k;
      assert rev[k - 1] == row;
    }
  }

  /** Laying out one more row appends it. */
  lemma ConcatSnoc(rs: seq<seq<byte>>, k: nat)
    requires 0 < k <= |rs|
    ensures Concat(rs[..k]) == Concat(rs[..k - 1]) + rs[k - 1]
  {
    assert rs[..k][..k - 1] == rs[..k - 1];
  }

  /** Row j of the reversed rows is input row h - 1 - j. */
  lemma ReversedRow(b: seq<byte>, h: nat, s: nat, j: nat)
    requires Mul(h, s) <= |b| && j < h
    ensures Mul(h - 1 - j, s) + s <= |b|
    ensures Reverse(Rows(b, h, s))[j] == Row(b, h - 1 - j, s)
  {
    var rows := Rows(b, h, s);
    assert Reverse(rows)[j] == rows[h - 1 - j];
  }

  lemma FlipPrefixAll(b: seq<byte>, h: nat, s: nat)
    requires Mul(h, s) <= |b|
    ensures FlipPrefix(b, h, s, h) == Flip(b, h, s)
  {
    FlipPrefixReversed(b, h, s, h);
    assert Reverse(Rows(b, h, s))[..h] == Reverse(Rows(b, h, s));
  }

  /** One more output row is input row h - 1 - k, placed after the first
      k. */
  lemma FlipStep(b: seq<byte>, h: nat, s: nat, k: nat)
    requires Mul(h, s) <= |b| && k < h
    ensures Mul(k + 1, s) == Mul(k, s) + s
    ensures Mul(h - 1 - k, s) + s <= |b|
    ensures FlipPrefix(b, h, s, k + 1)
            == FlipPrefix(b, h, s, k) + b[Mul(h - 1 - k, s) .. Mul(h - 1 - k, s) + s]
  {
    MulSucc(k, s);
    RowEnd(h - 1 - k, s, h, s);
  }
}
