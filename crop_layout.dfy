// crop_memory_data: the crop window of a frame held in memory is copied row
// by row, plane by plane, into a fresh buffer of the aligned crop size.
module CropLayout {
  import opened Arith
  import opened Bytes
  import opened MediaFormats

  /** One crop: the source frame size in pixels, the truncated crop origin
      (left = (UINT)(width * crop.left), top = (UINT)(height * crop.top)) and
      the aligned crop size. Both aligned sizes are even (frame_width comes
      out of XALIGN(., 16), frame_height out of XALIGN(., 2)), so the crop
      records their halves hw and hh. */
  datatype Crop = Crop(format: VideoFormat, width: nat, height: nat,
                       left: nat, top: nat, hw: nat, hh: nat)

  /** The crop of a width x height frame at (left, top) whose aligned
      size fw x fh is even, as crop_memory_data's arguments give it. */
  function EvenCrop(format: VideoFormat, width: nat, height: nat, left: nat, top: nat, fw: nat, fh: nat): (c: Crop)
    requires fw % 2 == 0 && fh % 2 == 0
    ensures Fw(c) == fw && Fh(c) == fh
    ensures c.format == format && c.width == width && c.height == height && c.left == left && c.top == top
  {
    Crop(format, width, height, left, top, fw / 2, fh / 2)
  }

  /** frame_width, the aligned crop width. */
  function Fw(c: Crop): nat
  {
    2 * c.hw
  }

  /** frame_height, the aligned crop height. */
  function Fh(c: Crop): nat
  {
    2 * c.hh
  }

  /** The formats crop_memory_data copies; any other leaves no output. */
  predicate Croppable(f: VideoFormat)
  {
    f == RGB32 || f == NV12 || f == IYUV
  }

  /** The size of the allocated output buffer: fw*fh*4 for RGB32 and
      fw*fh*3/2 for the 4:2:0 formats. */
  function OutLen(c: Crop): nat
    requires Croppable(c.format)
  {
    if c.format == RGB32 then Mul(Fw(c), Fh(c)) * 4 else Mul(Fw(c), Fh(c)) * 3 / 2
  }

  /** The UINT size expression passed to new[] does not wrap. */
  predicate SizeFits(c: Crop)
  {
    (if c.format == RGB32 then Mul(Fw(c), Fh(c)) * 4 else Mul(Fw(c), Fh(c)) * 3) < 0x1_0000_0000
  }

  /** A destination plane: rows of rowLen bytes starting at dstBase. */
  datatype Plane = Plane(dstBase: nat, rowLen: nat, rows: nat)

  /** The output offset of row i of a plane. */
  function RowStart(pl: Plane, i: nat): nat
  {
    pl.dstBase + Mul(i, pl.rowLen)
  }

  /** The offset just past the last row of a plane. */
  function End(pl: Plane): nat
  {
    RowStart(pl, pl.rows)
  }

  /** The number of destination planes: RGB32 has one, NV12 luma and
      interleaved chroma, IYUV luma, U and V. */
  function PlaneCount(c: Crop): (n: nat)
    requires Croppable(c.format)
    ensures 1 <= n <= 3
  {
    if c.format == RGB32 then 1 else if c.format == NV12 then 2 else 3
  }

  /** Destination plane k in copy order: RGB32 rows of fw*4 bytes; NV12 luma
      then fh/2 interleaved chroma rows of fw bytes; IYUV luma, then U and V
      planes of fh/2 rows of fw/2 bytes (the code's i * frame_width / 2 is
      i * (fw / 2) because fw is even). */
  function PlaneAt(c: Crop, k: nat): (pl: Plane)
    requires Croppable(c.format) && k < PlaneCount(c)
    ensures k == 0 ==> pl.dstBase == 0 && pl.rows == Fh(c)
  {
    if c.format == RGB32 then Plane(0, Fw(c) * 4, Fh(c))
    else if k == 0 then Plane(0, Fw(c), Fh(c))
    else if c.format == NV12 then Plane(Mul(Fw(c), Fh(c)), Fw(c), c.hh)
    else if k == 1 then Plane(Mul(Fw(c), Fh(c)), c.hw, c.hh)
    else Plane(Mul(Fw(c), Fh(c)) * 5 / 4, c.hw, c.hh)
  }

  /** The output offset just past the first k planes. */
  function PlanesEnd(c: Crop, k: nat): nat
    requires Croppable(c.format) && k <= PlaneCount(c)
  {
    if k == 0 then 0 else End(PlaneAt(c, k - 1))
  }

  /** The planes follow one another without gap or overlap and the last ends
      exactly at the output size, so the rows tile the output: plane k
      starts where the planes before it end. */
  lemma PlanesAdjoin(c: Crop, k: nat)
    requires Croppable(c.format) && k < PlaneCount(c)
    ensures PlanesEnd(c, k) == PlaneAt(c, k).dstBase
    ensures PlanesEnd(c, k + 1) <= OutLen(c)
    ensures PlanesEnd(c, PlaneCount(c)) == OutLen(c)
  {
    if c.format == RGB32 {
      RgbTile(c);
    } else if c.format == NV12 {
      Nv12Tile(c);
    } else {
      IyuvTile(c);
    }
  }

  lemma RgbTile(c: Crop)
    requires c.format == RGB32
    ensures End(PlaneAt(c, 0)) == OutLen(c)
  {
    MulComm(Fh(c), Fw(c));
    MulFour(Fh(c), Fw(c));
  }

  lemma Nv12Tile(c: Crop)
    requires c.format == NV12
    ensures End(PlaneAt(c, 0)) == PlaneAt(c, 1).dstBase
    ensures End(PlaneAt(c, 1)) == OutLen(c)
  {
    var y := Mul(c.hh, Fw(c));
    MulComm(Fh(c), Fw(c));
    MulDoubleRows(c.hh, Fw(c));
    assert y * 2 * 3 / 2 == 3 * y;
  }

  lemma IyuvTile(c: Crop)
    requires c.format == IYUV
    ensures End(PlaneAt(c, 0)) == PlaneAt(c, 1).dstBase
    ensures End(PlaneAt(c, 1)) == PlaneAt(c, 2).dstBase
    ensures End(PlaneAt(c, 2)) == OutLen(c)
  {
    var y := Mul(c.hh, c.hw);
    MulComm(Fh(c), Fw(c));
    MulDoubleRows(c.hh, Fw(c));
    MulDouble(c.hh, c.hw);
    assert Mul(Fw(c), Fh(c)) == 4 * y;
    assert 4 * y * 5 / 4 == 5 * y;
    assert 4 * y * 3 / 2 == 6 * y;
  }

  /** Which chroma row offset the copy uses: the code's full-resolution
      crop top for every plane, or half of it for the half-height chroma
      planes (see RowSource). */
  datatype Offsets = AsWritten | Intended

  /** The source offset of the first byte copied into row i of plane k.
      Luma and RGB32 row i come from source row i + top at column left.
      As written, chroma row i comes from chroma row i + top as well; the
      chroma planes have half the rows, so the intended row is i + top / 2. */
  function RowSource(c: Crop, k: nat, i: nat, o: Offsets): nat
    requires Croppable(c.format) && k < PlaneCount(c)
  {
    var row := if k == 0 || o == AsWritten then i + c.top else i + c.top / 2;
    if c.format == RGB32 then Mul(row, c.width) * 4 + c.left * 4
    else if k == 0 then Mul(row, c.width) + c.left
    else if c.format == NV12 then Mul(c.width, c.height) + Mul(row, c.width) + c.left
    else if k == 1 then Mul(c.width, c.height) + Mul(row, c.width) / 2 + c.left / 2
    else Mul(c.width, c.height) * 5 / 4 + Mul(row, c.width) / 2 + c.left / 2
  }

  /** The source offsets of the rows of plane k, in copy order. */
  function SourceStarts(c: Crop, k: nat, o: Offsets): (r: seq<nat>)
    requires Croppable(c.format) && k < PlaneCount(c)
    ensures |r| == PlaneAt(c, k).rows
    ensures forall i | 0 <= i < |r| :: r[i] == RowSource(c, k, i, o)
  {
    seq(PlaneAt(c, k).rows, i requires 0 <= i => RowSource(c, k, i, o))
  }

  /** Rows of len bytes starting at the given offsets all lie inside n bytes. */
  predicate RowsFit(starts: seq<nat>, len: nat, n: nat)
  {
    forall i | 0 <= i < |starts| :: starts[i] + len <= n
  }

  /** Every source row the copy reads lies inside a buffer of n bytes. */
  predicate InBounds(c: Crop, n: nat, o: Offsets)
    requires Croppable(c.format)
  {
    forall k | 0 <= k < PlaneCount(c) :: RowsFit(SourceStarts(c, k, o), PlaneAt(c, k).rowLen, n)
  }

  /** The first i rows of len bytes each, taken from s at the given row
      offsets, one after another: what i memcpy calls of len bytes append. */
  function Gather(s: seq<byte>, starts: seq<nat>, len: nat, i: nat): seq<byte>
    requires i <= |starts| && RowsFit(starts, len, |s|)
  {
    if i == 0 then [] else Gather(s, starts, len, i - 1) + s[starts[i - 1] .. starts[i - 1] + len]
  }

  lemma {:induction false} GatherLength(s: seq<byte>, starts: seq<nat>, len: nat, i: nat)
    requires i <= |starts| && RowsFit(starts, len, |s|)
    ensures |Gather(s, starts, len, i)| == Mul(i, len)
  {
    if i > 0 {
      GatherLength(s, starts, len, i - 1);
    }
  }

  /** Rows that each start where the previous one ends gather into one
      contiguous slice of s. */
  lemma {:induction false} GatherContiguous(s: seq<byte>, starts: seq<nat>, len: nat, i: nat)
    requires 0 < i <= |starts| && RowsFit(starts, len, |s|)
    requires forall j | 0 < j < i :: starts[j] == starts[j - 1] + len
    ensures starts[0] <= starts[i - 1] + len
    ensures Gather(s, starts, len, i) == s[starts[0] .. starts[i - 1] + len]
  {
    if i > 1 {
      GatherContiguous(s, starts, len, i - 1);
      assert s[starts[0] .. starts[i - 1] + len] ==
             s[starts[0] .. starts[i - 1]] + s[starts[i - 1] .. starts[i - 1] + len];
    }
  }

  /** The rows of plane k. */
  function PlaneBytes(c: Crop, s: seq<byte>, k: nat, o: Offsets): (r: seq<byte>)
    requires Croppable(c.format) && k < PlaneCount(c) && InBounds(c, |s|, o)
    ensures |r| == Mul(PlaneAt(c, k).rows, PlaneAt(c, k).rowLen)
  {
    GatherLength(s, SourceStarts(c, k, o), PlaneAt(c, k).rowLen, PlaneAt(c, k).rows);
    Gather(s, SourceStarts(c, k, o), PlaneAt(c, k).rowLen, PlaneAt(c, k).rows)
  }

  /** The first k planes, each the whole of its rows. */
  function Planes(c: Crop, s: seq<byte>, k: nat, o: Offsets): (r: seq<byte>)
    requires Croppable(c.format) && k <= PlaneCount(c) && InBounds(c, |s|, o)
    ensures |r| == PlanesEnd(c, k)
  {
    if k == 0 then []
    else
      PlanesAdjoin(c, k - 1);
      Planes(c, s, k - 1, o) + PlaneBytes(c, s, k - 1, o)
  }

  /** The cropped frame: every row of every plane, in copy order. */
  function Cropped(c: Crop, s: seq<byte>, o: Offsets): (r: seq<byte>)
    requires Croppable(c.format) && InBounds(c, |s|, o)
    ensures |r| == OutLen(c)
  {
    PlanesAdjoin(c, 0);
    Planes(c, s, PlaneCount(c), o)
  }

  /** crop_memory_data: a fresh buffer of OutLen bytes holding the crop
      window for RGB32, NV12 and IYUV, and no buffer for any other format.
      The frame is read only, so it is passed as its bytes. */
  method CropMemoryData(input: seq<byte>, c: Crop, o: Offsets) returns (output: array?<byte>)
    requires Croppable(c.format) ==> SizeFits(c) && InBounds(c, |input|, o)
    ensures !Croppable(c.format) ==> output == null
    ensures Croppable(c.format) ==>
      output != null && fresh(output) && output[..] == Cropped(c, input, o)
  {
    if !Croppable(c.format) {
      return null;
    }
    var out := new byte[OutLen(c)];
    PlanesAdjoin(c, 0);
    for k := 0 to PlaneCount(c)
      invariant PlanesEnd(c, k) <= out.Length
      invariant out[..PlanesEnd(c, k)] == Planes(c, input, k, o)
    {
      CopyPlane(input, out, c, k, o);
    }
    assert out[..] == out[..PlanesEnd(c, PlaneCount(c))];
    return out;
  }

  /** One more row appends the bytes at its offset. */
  lemma GatherStep(s: seq<byte>, starts: seq<nat>, len: nat, i: nat, from: nat)
    requires i < |starts| && RowsFit(starts, len, |s|) && from == starts[i]
    ensures from + len <= |s|
    ensures Gather(s, starts, len, i + 1) == Gather(s, starts, len, i) + s[from .. from + len]
  {
  }

  /** The row loop of one plane: the rows of plane k are appended after the
      planes before it. */
  method CopyPlane(input: seq<byte>, output: array<byte>, c: Crop, k: nat, o: Offsets)
    requires Croppable(c.format) && k < PlaneCount(c) && OutLen(c) == output.Length
    requires InBounds(c, |input|, o)
    requires PlanesEnd(c, k) <= output.Length
    requires output[..PlanesEnd(c, k)] == Planes(c, input, k, o)
    modifies output
    ensures PlanesEnd(c, k + 1) <= output.Length
    ensures output[..PlanesEnd(c, k + 1)] == Planes(c, input, k + 1, o)
  {
    PlanesAdjoin(c, k);
    var pl := PlaneAt(c, k);
    var starts := SourceStarts(c, k, o);
    assert RowsFit(starts, pl.rowLen, |input|);
    CopyRows(input, output, pl, starts, Planes(c, input, k, o));
  }

  /** memcpy of row i, for every row of a plane, from the source offsets
      starts to the rows of pl, after the bytes before. */
  method CopyRows(input: seq<byte>, output: array<byte>, pl: Plane, starts: seq<nat>, ghost before: seq<byte>)
    requires |starts| == pl.rows && RowsFit(starts, pl.rowLen, |input|)
    requires End(pl) <= output.Length && |before| == pl.dstBase
    requires output[..pl.dstBase] == before
    modifies output
    ensures output[..End(pl)] == before + Gather(input, starts, pl.rowLen, pl.rows)
  {
    assert before + [] == before;
    for i := 0 to pl.rows
      invariant RowStart(pl, i) <= End(pl)
      invariant output[..RowStart(pl, i)] == before + Gather(input, starts, pl.rowLen, i)
    {
      RowEnd(i, pl.rowLen, pl.rows, pl.rowLen);
      var dst := RowStart(pl, i);
      var from := starts[i];
      ghost var rows := Gather(input, starts, pl.rowLen, i);
      GatherStep(input, starts, pl.rowLen, i, from);
      Memcpy(output, dst, input, from, pl.rowLen);
      assert (before + rows) + input[from .. from + pl.rowLen] == before + (rows + input[from .. from + pl.rowLen]);
      MulSucc(i, pl.rowLen);
      assert RowStart(pl, i + 1) == dst + pl.rowLen;
    }
  }

  /** The bytes of one whole frame of the crop's format and source size. */
  function FrameLen(c: Crop): nat
    requires Croppable(c.format)
  {
    if c.format == RGB32 then Mul(c.width, c.height) * 4 else Mul(c.width, c.height) * 3 / 2
  }

  /** A crop that starts at the origin and is as large as the frame. */
  predicate FullFrame(c: Crop)
  {
    c.left == 0 && c.top == 0 && Fw(c) == c.width && Fh(c) == c.height
  }

  /** Row i of each plane of a full-frame crop starts where row i of the
      same plane of the source starts. */
  lemma FullFrameRowIsIdentity(c: Crop, k: nat, i: nat, o: Offsets)
    requires Croppable(c.format) && FullFrame(c) && k < PlaneCount(c)
    ensures RowSource(c, k, i, o) == RowStart(PlaneAt(c, k), i)
  {
    if c.format == RGB32 {
      MulFour(i, c.width);
    } else if k > 0 && c.format == IYUV {
      MulDouble(i, c.hw);
    }
  }

  /** Rows that start at lo, each where the previous one ends, and end at
      hi gather into the slice s[lo..hi]. */
  lemma GatherSlice(s: seq<byte>, starts: seq<nat>, len: nat, n: nat, lo: nat, hi: nat)
    requires n <= |starts| && RowsFit(starts, len, |s|) && lo <= hi <= |s|
    requires forall j | 0 < j < n :: starts[j] == starts[j - 1] + len
    requires n == 0 ==> lo == hi
    requires n > 0 ==> starts[0] == lo && starts[n - 1] + len == hi
    ensures Gather(s, starts, len, n) == s[lo..hi]
  {
    if n > 0 {
      GatherContiguous(s, starts, len, n);
    }
  }

  /** A prefix of s followed by the next slice of s is a longer prefix. */
  lemma PrefixExtend(s: seq<byte>, x: seq<byte>, y: seq<byte>, a: nat, b: nat)
    requires a <= b <= |s| && x == s[..a] && y == s[a..b]
    ensures x + y == s[..b]
  {
  }

  /** The source rows of a plane of a full-frame crop follow one another
      from the plane's output start to its end. */
  lemma FullFrameStarts(c: Crop, k: nat, o: Offsets)
    requires Croppable(c.format) && FullFrame(c) && k < PlaneCount(c)
    ensures forall j | 0 < j < PlaneAt(c, k).rows ::
      SourceStarts(c, k, o)[j] == SourceStarts(c, k, o)[j - 1] + PlaneAt(c, k).rowLen
    ensures PlaneAt(c, k).rows > 0 ==>
      SourceStarts(c, k, o)[0] == PlaneAt(c, k).dstBase &&
      SourceStarts(c, k, o)[PlaneAt(c, k).rows - 1] + PlaneAt(c, k).rowLen == End(PlaneAt(c, k))
  {
    var pl := PlaneAt(c, k);
    var st := SourceStarts(c, k, o);
    forall j | 0 < j < pl.rows
      ensures st[j] == st[j - 1] + pl.rowLen
    {
      FullFrameRowStep(c, k, j, o);
    }
    if pl.rows > 0 {
      FullFrameEnds(c, k, o);
    }
  }

  /** The first row of a full-frame plane starts at the plane's base, and
      its last row ends at the plane's end. */
  lemma FullFrameEnds(c: Crop, k: nat, o: Offsets)
    requires Croppable(c.format) && FullFrame(c) && k < PlaneCount(c) && PlaneAt(c, k).rows > 0
    ensures RowSource(c, k, 0, o) == PlaneAt(c, k).dstBase
    ensures RowSource(c, k, PlaneAt(c, k).rows - 1, o) + PlaneAt(c, k).rowLen == End(PlaneAt(c, k))
  {
    var n := PlaneAt(c, k).rows;
    FullFrameRowIsIdentity(c, k, 0, o);
    FullFrameRowStep(c, k, n, o);
    FullFrameRowIsIdentity(c, k, n, o);
  }

  /** Consecutive rows of a plane of a full-frame crop are one row length
      apart in the source. */
  lemma FullFrameRowStep(c: Crop, k: nat, j: nat, o: Offsets)
    requires Croppable(c.format) && FullFrame(c) && k < PlaneCount(c) && 0 < j
    ensures RowSource(c, k, j, o) == RowSource(c, k, j - 1, o) + PlaneAt(c, k).rowLen
  {
    FullFrameRowIsIdentity(c, k, j, o);
    FullFrameRowIsIdentity(c, k, j - 1, o);
    MulSucc(j - 1, PlaneAt(c, k).rowLen);
  }

  /** For a full-frame crop plane k is the same bytes of the source. */
  lemma FullFramePlane(c: Crop, s: seq<byte>, k: nat, o: Offsets)
    requires Croppable(c.format) && FullFrame(c) && k < PlaneCount(c)
    requires OutLen(c) <= |s| && InBounds(c, |s|, o)
    ensures PlanesEnd(c, k) <= PlanesEnd(c, k + 1) <= |s|
    ensures PlaneBytes(c, s, k, o) == s[PlanesEnd(c, k) .. PlanesEnd(c, k + 1)]
  {
    PlanesAdjoin(c, k);
    FullFrameStarts(c, k, o);
    var pl := PlaneAt(c, k);
    GatherSlice(s, SourceStarts(c, k, o), pl.rowLen, pl.rows, PlanesEnd(c, k), PlanesEnd(c, k + 1));
  }

  /** For a full-frame crop the first k planes are the same bytes of the
      source. */
  lemma {:induction false} FullFramePlanes(c: Crop, s: seq<byte>, k: nat, o: Offsets)
    requires Croppable(c.format) && FullFrame(c) && k <= PlaneCount(c)
    requires OutLen(c) <= |s| && InBounds(c, |s|, o)
    ensures PlanesEnd(c, k) <= |s|
    ensures Planes(c, s, k, o) == s[..PlanesEnd(c, k)]
  {
    if k > 0 {
      FullFramePlanes(c, s, k - 1, o);
      FullFramePlane(c, s, k - 1, o);
      PrefixExtend(s, Planes(c, s, k - 1, o), PlaneBytes(c, s, k - 1, o), PlanesEnd(c, k - 1), PlanesEnd(c, k));
    }
  }

  /** With crop (0, 0, 1, 1) on a frame whose width is a multiple of 16 and
      whose height is even, the crop copies the frame byte for byte. */
  lemma FullFrameCropIsIdentity(c: Crop, s: seq<byte>, o: Offsets)
    requires Croppable(c.format) && FullFrame(c) && |s| == FrameLen(c)
    ensures OutLen(c) == |s|
    ensures InBounds(c, |s|, o)
    ensures Cropped(c, s, o) == s
  {
    PlanesAdjoin(c, 0);
    forall k | 0 <= k < PlaneCount(c)
      ensures RowsFit(SourceStarts(c, k, o), PlaneAt(c, k).rowLen, |s|)
    {
      var pl := PlaneAt(c, k);
      PlanesAdjoin(c, k);
      forall i | 0 <= i < pl.rows
        ensures RowSource(c, k, i, o) + pl.rowLen <= |s|
      {
        FullFrameRowIsIdentity(c, k, i, o);
        RowEnd(i, pl.rowLen, pl.rows, pl.rowLen);
      }
    }
    FullFramePlanes(c, s, PlaneCount(c), o);
  }

  /** The frame of the finding: a 16x4 NV12 frame cropped to its lower half
      (crop top 0.5, bottom 1.0), so top = 2, fw = 16 and fh = 2. */
  function LowerHalfCrop(): (c: Crop)
    ensures Croppable(c.format) && Fw(c) == 16 && Fh(c) == 2
    ensures c.top + Fh(c) <= c.height && c.left + Fw(c) <= c.width
  {
    Crop(NV12, 16, 4, 0, 2, 8, 1)
  }

  /** As written, the first chroma row of that crop is read from offset 96,
      which is the end of the 96-byte NV12 frame, so all 16 bytes of the row
      lie past it. */
  lemma ChromaOverrunAsWritten()
    ensures FrameLen(LowerHalfCrop()) == 96
    ensures RowSource(LowerHalfCrop(), 1, 0, AsWritten) == 96
    ensures !InBounds(LowerHalfCrop(), FrameLen(LowerHalfCrop()), AsWritten)
  {
    var c := LowerHalfCrop();
    MulIsProduct(16, 4);
    MulIsProduct(2, 16);
    assert SourceStarts(c, 1, AsWritten)[0] == 96;
  }

  /** With the chroma rows offset by top / 2, a crop window that lies inside
      the frame reads only bytes of the frame. */
  lemma IntendedCropInBounds(c: Crop)
    requires Croppable(c.format)
    requires c.left + Fw(c) <= c.width && c.top + Fh(c) <= c.height
    requires c.format != RGB32 ==> c.width % 2 == 0 && c.height % 2 == 0
    ensures InBounds(c, FrameLen(c), Intended)
  {
    forall k | 0 <= k < PlaneCount(c)
      ensures RowsFit(SourceStarts(c, k, Intended), PlaneAt(c, k).rowLen, FrameLen(c))
    {
      forall i | 0 <= i < PlaneAt(c, k).rows
        ensures RowSource(c, k, i, Intended) + PlaneAt(c, k).rowLen <= FrameLen(c)
      {
        IntendedRowInFrame(c, k, i);
      }
    }
  }

  /** The crop window lies inside a frame of at least FrameLen bytes (of
      even size for the 4:2:0 formats). */
  predicate WindowInFrame(c: Crop, n: nat)
    requires Croppable(c.format)
  {
    c.left + Fw(c) <= c.width && c.top + Fh(c) <= c.height &&
    (c.format != RGB32 ==> c.width % 2 == 0 && c.height % 2 == 0) && FrameLen(c) <= n
  }

  /** The corrected crop reads only bytes of a buffer holding the frame. */
  lemma WindowInBounds(c: Crop, n: nat)
    requires Croppable(c.format) && WindowInFrame(c, n)
    ensures InBounds(c, n, Intended)
  {
    IntendedCropInBounds(c);
    forall k | 0 <= k < PlaneCount(c)
      ensures RowsFit(SourceStarts(c, k, Intended), PlaneAt(c, k).rowLen, n)
    {
      assert RowsFit(SourceStarts(c, k, Intended), PlaneAt(c, k).rowLen, FrameLen(c));
    }
  }

  lemma IntendedRowInFrame(c: Crop, k: nat, i: nat)
    requires Croppable(c.format) && k < PlaneCount(c) && i < PlaneAt(c, k).rows
    requires c.left + Fw(c) <= c.width && c.top + Fh(c) <= c.height
    requires c.format != RGB32 ==> c.width % 2 == 0 && c.height % 2 == 0
    ensures RowSource(c, k, i, Intended) + PlaneAt(c, k).rowLen <= FrameLen(c)
  {
    var w, h := c.width, c.height;
    MulComm(h, w);
    if c.format == RGB32 {
      RowEnd(i + c.top, c.left * 4 + Fw(c) * 4, h, w * 4);
      MulFour(i + c.top, w);
      MulFour(h, w);
    } else if k == 0 {
      RowEnd(i + c.top, c.left + Fw(c), h, w);
    } else {
      IntendedChromaRowInFrame(c, k, i, w / 2, h / 2);
    }
  }

  /** The chroma case, with the source frame w = 2 * hw2 wide and h = 2 * hh2
      high. */
  lemma IntendedChromaRowInFrame(c: Crop, k: nat, i: nat, hw2: nat, hh2: nat)
    requires Croppable(c.format) && c.format != RGB32 && 0 < k < PlaneCount(c)
    requires i < c.hh
    requires c.width == 2 * hw2 && c.height == 2 * hh2
    requires c.left + Fw(c) <= c.width && c.top + Fh(c) <= c.height
    ensures RowSource(c, k, i, Intended) + PlaneAt(c, k).rowLen <= FrameLen(c)
  {
    MulComm(c.height, c.width);
    MulDoubleRows(hh2, c.width);
    if c.format == NV12 {
      IntendedNv12ChromaRow(c, i, hw2, hh2);
    } else {
      IntendedIyuvChromaRow(c, k, i, hw2, hh2);
    }
  }

  /** The NV12 case: the interleaved chroma row ends inside the frame. */
  lemma IntendedNv12ChromaRow(c: Crop, i: nat, hw2: nat, hh2: nat)
    requires c.format == NV12 && i < c.hh
    requires c.width == 2 * hw2 && c.height == 2 * hh2
    requires c.left + Fw(c) <= c.width && c.top + Fh(c) <= c.height
    requires Mul(c.width, c.height) == 2 * Mul(hh2, c.width)
    ensures RowSource(c, 1, i, Intended) + PlaneAt(c, 1).rowLen <= FrameLen(c)
  {
    var r := i + c.top / 2;
    var z := Mul(hh2, c.width);
    RowEnd(r, c.left + Fw(c), hh2, c.width);
    assert 2 * z * 3 / 2 == 3 * z;
  }

  /** The IYUV case: a half-width row of either chroma plane ends inside
      the frame. */
  lemma IntendedIyuvChromaRow(c: Crop, k: nat, i: nat, hw2: nat, hh2: nat)
    requires c.format == IYUV && 0 < k < 3 && i < c.hh
    requires c.width == 2 * hw2 && c.height == 2 * hh2
    requires c.left + Fw(c) <= c.width && c.top + Fh(c) <= c.height
    requires Mul(c.width, c.height) == 2 * Mul(hh2, c.width)
    ensures RowSource(c, k, i, Intended) + PlaneAt(c, k).rowLen <= FrameLen(c)
  {
    var r := i + c.top / 2;
    var y := Mul(hh2, hw2);
    MulDouble(hh2, hw2);
    MulDouble(r, hw2);
    RowEnd(r, c.left / 2 + c.hw, hh2, hw2);
    assert 4 * y * 5 / 4 == 5 * y;
    assert 4 * y * 3 / 2 == 6 * y;
  }

}
