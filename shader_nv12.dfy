// DX11ShaderNV12: the render targets, views and samplers of the GPU
// BGRA -> NV12 conversion, and the fixed sequence of passes it draws. The
// shaders themselves are not modelled; a Direct3D object is a Handle, and
// a ghost log records every Release call.
module Dx11Convert {
  import opened Bytes
  import opened HResults

  /** A COM pointer: null, or the object with the given identity. */
  datatype Handle = Null | H(id: nat)

  /** The render-target textures: luma, full-size Cb and Cr, the two
      downsampled chroma planes, and the combined NV12 target. */
  datatype Target = Luma | ChromaCb | ChromaCr | CbDown | CrDown | FakeNv12

  datatype Size = Size(width: nat, height: nat)

  /** The texture size each InitRenderTarget* creates for a prepare size of
      width x height. */
  function TargetSize(t: Target, width: nat, height: nat): Size
  {
    match t
    case Luma => Size(width, height)
    case ChromaCb => Size(width, height)
    case ChromaCr => Size(width, height)
    case CbDown => Size(width / 2, height / 2)
    case CrDown => Size(width / 2, height / 2)
    case FakeNv12 => Size(width, height + height / 2)
  }

  /** The combined target holds the luma rows followed by one row per
      downsampled chroma row, each as wide as a luma row: two chroma
      samples, Cb and Cr, per downsampled column. */
  lemma Nv12TargetHoldsPlanes(width: nat, height: nat)
    requires width % 2 == 0
    ensures TargetSize(FakeNv12, width, height).height
         == TargetSize(Luma, width, height).height + TargetSize(CbDown, width, height).height
    ensures TargetSize(FakeNv12, width, height).width == TargetSize(Luma, width, height).width
         == 2 * TargetSize(CbDown, width, height).width
    ensures TargetSize(CbDown, width, height) == TargetSize(CrDown, width, height)
  {
  }

  /** Byte i of the shift-width mask: 1 at odd columns, 0 at even ones. */
  function MaskByte(i: nat): (b: byte)
    ensures b == 1 <==> i % 2 == 1
    ensures b == 0 <==> i % 2 == 0
  {
    if i % 2 == 1 then 1 else 0
  }

  /** The loop of InitShiftWidthTexture: width bytes alternating 0, 1. */
  method FillShiftMask(width: nat) returns (data: array<byte>)
    ensures fresh(data) && data.Length == width
    ensures forall i | 0 <= i < width :: data[i] == MaskByte(i)
  {
    data := new byte[width];
    for i := 0 to width
      invariant forall j | 0 <= j < i :: data[j] == MaskByte(j)
    {
      if i % 2 == 1 {
        data[i] := 1;
      } else {
        data[i] := 0;
      }
    }
  }

  /** The resources whose creation can fail: a render target (its texture
      is not created, so none of its views is), the shift texture, and the
      two samplers. */
  datatype Resource = TargetTexture(t: Target) | ShiftTexture | PointSampler | LinearSampler

  /** A render target as the object holds it: its render-target view, its
      shader-resource view (Null for the combined target, which has none)
      and the size its texture was created with. */
  datatype TargetState = TargetState(rt: Handle, srv: Handle, size: Size)

  /** The views and samplers the object holds: those of each render
      target, the input view, the shift-mask view and the two samplers;
      Null until created. */
  datatype Views = Views(targets: map<Target, TargetState>,
                         input: Handle, shift: Handle, point: Handle, linear: Handle)

  const NoTarget: TargetState := TargetState(Null, Null, Size(0, 0))

  const NoTargets: map<Target, TargetState> :=
    map[Luma := NoTarget, ChromaCb := NoTarget, ChromaCr := NoTarget,
        CbDown := NoTarget, CrDown := NoTarget, FakeNv12 := NoTarget]

  const NoViews: Views := Views(NoTargets, Null, Null, Null, Null)

  /** The six targets, in the order prepare_resources creates them. */
  const TargetOrder: seq<Target> := [Luma, ChromaCb, ChromaCr, CbDown, CrDown, FakeNv12]

  lemma AllTargets()
    ensures forall t :: t in TargetOrder && t in NoTargets
  {
    forall t ensures t in TargetOrder && t in NoTargets {
      match t
      case Luma =>
      case ChromaCb =>
      case ChromaCr =>
      case CbDown =>
      case CrDown =>
      case FakeNv12 =>
    }
  }

  /** Every target has an entry. */
  predicate Total(v: Views)
  {
    forall t :: t in v.targets
  }

  /** The pointers release_resources releases when they are set, in its
      order: the render-target views, then the shader-resource views with
      the input view among them, then the samplers. */
  function HeldList(v: Views): seq<Handle>
    requires Total(v)
  {
    var g := v.targets;
    [g[Luma].rt, g[Luma].srv, g[ChromaCb].rt, g[ChromaCr].rt, g[CbDown].rt, g[CrDown].rt, g[FakeNv12].rt,
     v.input, g[ChromaCb].srv, g[ChromaCr].srv, g[CbDown].srv, g[CrDown].srv, v.shift,
     v.point, v.linear]
  }

  /** The set pointers of a list, in order. */
  function NonNulls(s: seq<Handle>): (r: seq<Handle>)
    ensures forall h :: h in r <==> h in s && h != Null
  {
    if s == [] then [] else (if s[0] == Null then [] else [s[0]]) + NonNulls(s[1..])
  }

  /** What release_resources releases. */
  function Held(v: Views): seq<Handle>
    requires Total(v)
  {
    NonNulls(HeldList(v))
  }

  /** release_input_texture followed by release_resources releases the
      input view twice: neither sets a pointer to null. */
  lemma InputViewReleasedTwice(v: Views, log: seq<Handle>)
    requires Total(v) && v.input != Null
    ensures multiset(log + NonNulls([v.input]) + Held(v))[v.input] >= multiset(log)[v.input] + 2
  {
    assert v.input in HeldList(v);
    assert v.input in Held(v);
    assert NonNulls([v.input]) == [v.input];
  }

  /** The draws of process_shader_nv12. */
  datatype PassKind = SplitYCbCr | DownsampleChroma | CopyLuma | CombineUV

  /** One draw with the viewport and the pixel-shader sampler bound. */
  datatype Pass = Pass(kind: PassKind, viewport: Size, sampler: Handle)

  /** The passes process_shader_nv12 draws for a viewport of w x h: the
      split with the state left by the previous call, the downsample at
      half size with the linear sampler, the luma copy at full size with the
      point sampler, and the UV combine at double height. */
  function Nv12Passes(w: nat, h: nat, vp: Size, s: Handle, point: Handle, linear: Handle): (p: seq<Pass>)
    ensures |p| == 4
    ensures p[0] == Pass(SplitYCbCr, vp, s)
    ensures p[1] == Pass(DownsampleChroma, Size(w / 2, h / 2), linear)
    ensures p[2] == Pass(CopyLuma, Size(w, h), point)
    ensures p[3] == Pass(CombineUV, Size(w, 2 * h), point)
  {
    [Pass(SplitYCbCr, vp, s), Pass(DownsampleChroma, Size(w / 2, h / 2), linear),
     Pass(CopyLuma, Size(w, h), point), Pass(CombineUV, Size(w, 2 * h), point)]
  }

  /** The identities the constructor gives its five shaders and its input
      layout; every later object gets a larger one. */
  const FIRST_VIEW_ID: nat := 6

  /** The five shader objects the destructor releases (the input layout,
      H(5), is not among them). */
  const Shaders: seq<Handle> := [H(0), H(1), H(2), H(3), H(4)]

  /** A held pointer is null or an object created after the shaders,
      before the next identity. */
  predicate ViewIn(h: Handle, next: nat)
  {
    h == Null || FIRST_VIEW_ID <= h.id < next
  }

  /** Every object of a list was created before next. */
  predicate Below(s: seq<Handle>, next: nat)
  {
    forall k | 0 <= k < |s| :: s[k].H? && s[k].id < next
  }

  /** An object created at or after next is not in such a list. */
  lemma BelowGrows(s: seq<Handle>, next: nat)
    requires Below(s, next)
    ensures Below(s, next + 1)
  {
  }

  lemma NotBelow(s: seq<Handle>, next: nat, h: Handle)
    requires Below(s, next) && h.H? && next <= h.id
    ensures h !in s
  {
    forall k | 0 <= k < |s|
      ensures s[k] != h
    {
    }
  }

  /** Every pointer of v is null or created in [FIRST_VIEW_ID, next). */
  predicate ViewsIn(v: Views, next: nat)
  {
    FIRST_VIEW_ID <= next && Total(v) && v.targets[FakeNv12].srv == Null &&
    (forall t :: ViewIn(v.targets[t].rt, next) && ViewIn(v.targets[t].srv, next)) &&
    ViewIn(v.input, next) && ViewIn(v.shift, next) && ViewIn(v.point, next) && ViewIn(v.linear, next)
  }

  /** Dropping the null pointers of a list of pointers in [FIRST_VIEW_ID,
      next) leaves objects in that range. */
  lemma {:induction false} NonNullsIn(s: seq<Handle>, next: nat)
    requires forall k | 0 <= k < |s| :: ViewIn(s[k], next)
    ensures forall h | h in NonNulls(s) :: h.H? && FIRST_VIEW_ID <= h.id < next
  {
    if s != [] {
      NonNullsIn(s[1..], next);
    }
  }

  /** Everything release_resources releases was created after the shaders
      and before the next identity. */
  lemma HeldRange(v: Views, next: nat)
    requires ViewsIn(v, next)
    ensures forall h | h in Held(v) :: h.H? && FIRST_VIEW_ID <= h.id < next
  {
    assert forall k | 0 <= k < |HeldList(v)| :: ViewIn(HeldList(v)[k], next);
    NonNullsIn(HeldList(v), next);
  }

  /** A new input view keeps every view below the next identity. */
  lemma InputViewFresh(v: Views, next: nat)
    requires ViewsIn(v, next)
    ensures ViewsIn(v.(input := H(next)), next + 1)
  {
  }

  /** A view created after every view held is none of them, so
      release_resources never releases it before it is set as the input
      view. */
  lemma NewViewNotHeld(v: Views, next: nat)
    requires ViewsIn(v, next)
    ensures H(next) !in Held(v)
  {
    HeldRange(v, next);
  }

  /** The destructor releases none of the views, targets or samplers. */
  lemma ShadersAreNotViews(v: Views, next: nat)
    requires ViewsIn(v, next)
    ensures forall h | h in Shaders :: h !in Held(v)
  {
    HeldRange(v, next);
  }

  /** The objects held and the identity the next created object gets. */
  datatype Alloc = Alloc(views: Views, next: nat)

  /** InitShiftWidthTexture's view: created when the texture is. */
  function InitShift(a: Alloc, ok: bool): Alloc
  {
    if ok then Alloc(a.views.(shift := H(a.next)), a.next + 1) else a
  }

  /** InitRenderTarget*'s views: when the texture is created, the new
      state of t, and TargetViewCount(t) identities used. */
  function InitTarget(a: Alloc, t: Target, width: nat, height: nat, ok: bool): Alloc
  {
    if !ok then a
    else Alloc(a.views.(targets := a.views.targets[t := NewTarget(t, width, height, a.next)]),
               a.next + TargetViewCount(t))
  }

  /** The number of views InitRenderTarget* creates for target t. */
  function TargetViewCount(t: Target): nat
  {
    if t == FakeNv12 then 1 else 2
  }

  /** The state InitRenderTarget* gives target t when its texture is
      created and the next identity is n: the shader-resource view first
      (none for the combined target), then the render-target view. */
  function NewTarget(t: Target, width: nat, height: nat, n: nat): (s: TargetState)
    ensures s.size == TargetSize(t, width, height)
    ensures s.rt.H? && n <= s.rt.id < n + TargetViewCount(t)
    ensures t == FakeNv12 <==> s.srv == Null
    ensures s.srv.H? ==> n <= s.srv.id < n + TargetViewCount(t) && s.srv != s.rt
  {
    if t == FakeNv12 then TargetState(H(n), Null, TargetSize(t, width, height))
    else TargetState(H(n + 1), H(n), TargetSize(t, width, height))
  }

  /** Target t as prepare_resources leaves it, from `before`, when the next
      identity was n0: new views and the texture's size when its texture was
      created, the old state otherwise. */
  predicate Prepared(s: TargetState, before: TargetState, t: Target, width: nat, height: nat, ok: bool, n0: nat)
  {
    if ok then
      s.size == TargetSize(t, width, height) && s.rt.H? && n0 <= s.rt.id &&
      (t != FakeNv12 ==> s.srv.H? && n0 <= s.srv.id)
    else
      s == before
  }

  /** InitTarget creates new views for t when its texture is created,
      keeps the old ones otherwise, and leaves everything else alone. */
  lemma InitTargetFresh(a: Alloc, t: Target, width: nat, height: nat, ok: bool)
    requires ViewsIn(a.views, a.next)
    ensures var r := InitTarget(a, t, width, height, ok);
      ViewsIn(r.views, r.next) && a.next <= r.next &&
      Prepared(r.views.targets[t], a.views.targets[t], t, width, height, ok, a.next) &&
      (forall u | u != t :: r.views.targets[u] == a.views.targets[u]) &&
      r.views.(targets := a.views.targets) == a.views
  {
  }

  /** The converter object: its views and samplers, the shift mask last
      filled in, the viewport size recorded by prepare_resources, the
      viewport and pixel-shader sampler bound on the device context, and the
      draws issued so far. The ghost log `released` lists every Release
      call on a view, target, sampler or shader, in order. */
  class ShaderNv12 {
    const device: bool
    const shaders: seq<Handle>
    var views: Views
    var nextId: nat
    var mask: seq<byte>
    var viewportWidth: nat
    var viewportHeight: nat
    var viewport: Size
    var sampler: Handle
    var passes: seq<Pass>
    ghost var released: seq<Handle>

    /** Every held pointer, and every released one, is an object created
        before nextId. */
    ghost predicate Valid()
      reads this
    {
      ViewsIn(views, nextId) && shaders == (if device then Shaders else []) && Below(released, nextId)
    }

    /** The constructor creates the two vertex shaders, the input layout and
        the three pixel shaders (identities 0 to 5) on the device; every
        other pointer starts null. */
    constructor(device: bool)
      ensures Valid()
      ensures this.device == device && shaders == (if device then Shaders else [])
      ensures views == NoViews && nextId == FIRST_VIEW_ID && mask == []
      ensures viewportWidth == 0 && viewportHeight == 0 && viewport == Size(0, 0)
      ensures sampler == Null && passes == [] && released == []
    {
      this.device := device;
      shaders := if device then Shaders else [];
      views := NoViews;
      nextId := FIRST_VIEW_ID;
      mask := [];
      viewportWidth := 0;
      viewportHeight := 0;
      viewport := Size(0, 0);
      sampler := Null;
      passes := [];
      released := [];
      AllTargets();
    }

    /** InitShiftWidthTexture: fills the width-byte mask, then creates the
        one-dimensional texture (ok says whether that succeeds) and its
        view. */
    method InitShiftWidthTexture(width: nat, ok: bool) returns (hr: HResult)
      requires Valid()
      modifies this
      ensures Valid()
      ensures hr == (if ok then S_OK else E_FAIL)
      ensures |mask| == width && forall i | 0 <= i < width :: mask[i] == MaskByte(i)
      ensures Alloc(views, nextId) == InitShift(old(Alloc(views, nextId)), ok)
      ensures viewportWidth == old(viewportWidth) && viewportHeight == old(viewportHeight)
      ensures viewport == old(viewport) && sampler == old(sampler) && passes == old(passes)
      ensures released == old(released)
    {
      var data := FillShiftMask(width);
      mask := data[..];
      if !ok {
        return E_FAIL;
      }
      views := views.(shift := H(nextId));
      nextId := nextId + 1;
      hr := S_OK;
    }

    /** InitRenderTarget*: creates the texture of target t at its size (ok
        says whether that succeeds), then its shader-resource view (none for
        the combined target) and its render-target view. A failure keeps
        the previous pointers. */
    method InitRenderTarget(t: Target, width: nat, height: nat, ok: bool) returns (hr: HResult)
      requires Valid()
      modifies this
      ensures Valid()
      ensures hr == (if ok then S_OK else E_FAIL)
      ensures old(nextId) <= nextId == old(nextId) + (if ok then TargetViewCount(t) else 0)
      ensures views.targets[t] == if ok then NewTarget(t, width, height, old(nextId)) else old(views.targets[t])
      ensures forall u | u != t :: views.targets[u] == old(views.targets[u])
      ensures views.(targets := old(views.targets)) == old(views)
      ensures mask == old(mask) && viewportWidth == old(viewportWidth) && viewportHeight == old(viewportHeight)
      ensures viewport == old(viewport) && sampler == old(sampler) && passes == old(passes)
      ensures released == old(released)
    {
      var a := InitTarget(Alloc(views, nextId), t, width, height, ok);
      InitTargetFresh(Alloc(views, nextId), t, width, height, ok);
      views, nextId := a.views, a.next;
      hr := if ok then S_OK else E_FAIL;
    }

    /** The six InitRenderTarget* calls of prepare_resources, in its order;
        the creation of each texture in `failed` fails. */
    method InitRenderTargets(width: nat, height: nat, failed: set<Resource>)
      requires Valid()
      modifies this
      ensures Valid()
      ensures old(nextId) <= nextId
      ensures forall t :: Prepared(views.targets[t], old(views.targets[t]), t, width, height,
                                   TargetTexture(t) !in failed, old(nextId))
      ensures views.(targets := old(views.targets)) == old(views)
      ensures mask == old(mask) && viewportWidth == old(viewportWidth) && viewportHeight == old(viewportHeight)
      ensures viewport == old(viewport) && sampler == old(sampler) && passes == old(passes)
      ensures released == old(released)
    {
      ghost var g0, n0 := views.targets, nextId;
      InitTargets(Luma, ChromaCb, ChromaCr, width, height, failed);
      ghost var g1, n1 := views.targets, nextId;
      InitTargets(CbDown, CrDown, FakeNv12, width, height, failed);
      forall t ensures Prepared(views.targets[t], g0[t], t, width, height, TargetTexture(t) !in failed, n0) {
        if t == Luma || t == ChromaCb || t == ChromaCr {
          assert views.targets[t] == g1[t];
        } else {
          assert g1[t] == g0[t];
        }
      }
    }

    /** Three InitRenderTarget* calls in a row, for distinct targets. */
    method InitTargets(t1: Target, t2: Target, t3: Target, width: nat, height: nat, failed: set<Resource>)
      requires Valid() && t1 != t2 && t1 != t3 && t2 != t3
      modifies this
      ensures Valid()
      ensures old(nextId) <= nextId
      ensures forall t | t == t1 || t == t2 || t == t3 ::
        Prepared(views.targets[t], old(views.targets[t]), t, width, height, TargetTexture(t) !in failed, old(nextId))
      ensures forall t | t != t1 && t != t2 && t != t3 :: views.targets[t] == old(views.targets[t])
      ensures views.(targets := old(views.targets)) == old(views)
      ensures mask == old(mask) && viewportWidth == old(viewportWidth) && viewportHeight == old(viewportHeight)
      ensures viewport == old(viewport) && sampler == old(sampler) && passes == old(passes)
      ensures released == old(released)
    {
      ghost var g0, n0 := views.targets, nextId;
      var hr := InitRenderTarget(t1, width, height, TargetTexture(t1) !in failed);
      ghost var s1 := views.targets[t1];
      hr := InitRenderTarget(t2, width, height, TargetTexture(t2) !in failed);
      ghost var s2 := views.targets[t2];
      hr := InitRenderTarget(t3, width, height, TargetTexture(t3) !in failed);
      forall t | t == t1 || t == t2 || t == t3
        ensures Prepared(views.targets[t], g0[t], t, width, height, TargetTexture(t) !in failed, n0)
      {
        if t == t1 {
          assert views.targets[t] == s1;
        } else if t == t2 {
          assert views.targets[t] == s2;
        }
      }
    }

    /** The point and the linear sampler of prepare_resources; a creation
        in `failed` fails and leaves the pointer null. */
    method CreateSamplers(failed: set<Resource>)
      requires Valid()
      modifies this
      ensures Valid()
      ensures old(nextId) <= nextId
      ensures PointSampler !in failed <==> views.point.H?
      ensures views.point.H? ==> old(nextId) <= views.point.id
      ensures LinearSampler !in failed <==> views.linear.H?
      ensures views.linear.H? ==> old(nextId) <= views.linear.id
      ensures views.point != Null && views.linear != Null ==> views.point != views.linear
      ensures views == old(views).(point := views.point, linear := views.linear)
      ensures mask == old(mask) && viewportWidth == old(viewportWidth) && viewportHeight == old(viewportHeight)
      ensures viewport == old(viewport) && sampler == old(sampler) && passes == old(passes)
      ensures released == old(released)
    {
      var point := Null;
      if PointSampler !in failed {
        point, nextId := H(nextId), nextId + 1;
      }
      var linear := Null;
      if LinearSampler !in failed {
        linear, nextId := H(nextId), nextId + 1;
      }
      views := views.(point := point, linear := linear);
    }

    /** prepare_resources: the shift mask, the six render targets, then the
        point and the linear sampler (each creation in `failed` fails; a
        failed sampler leaves its pointer null); then the viewport at
        width x height, the point sampler bound, and the viewport size
        recorded for process_shader_nv12. */
    method PrepareResources(width: nat, height: nat, failed: set<Resource>)
      requires Valid()
      modifies this
      ensures Valid()
      ensures old(nextId) <= nextId
      ensures viewportWidth == width && viewportHeight == height
      ensures viewport == Size(width, height) && sampler == views.point
      ensures |mask| == width && forall i | 0 <= i < width :: mask[i] == MaskByte(i)
      ensures forall t :: Prepared(views.targets[t], old(views.targets[t]), t, width, height,
                                   TargetTexture(t) !in failed, old(nextId))
      ensures ShiftTexture !in failed ==> views.shift.H? && old(nextId) <= views.shift.id
      ensures ShiftTexture in failed ==> views.shift == old(views.shift)
      ensures PointSampler !in failed <==> views.point.H?
      ensures views.point.H? ==> old(nextId) <= views.point.id
      ensures LinearSampler !in failed <==> views.linear.H?
      ensures views.linear.H? ==> old(nextId) <= views.linear.id
      ensures views.input == old(views.input) && passes == old(passes) && released == old(released)
    {
      PrepareTextures(width, height, failed);
      CreateSamplers(failed);
      viewport := Size(width, height);
      sampler := views.point;
      viewportWidth, viewportHeight := width, height;
    }

    /** prepare_resources' texture half: the shift mask, then the six
        render targets. */
    method PrepareTextures(width: nat, height: nat, failed: set<Resource>)
      requires Valid()
      modifies this
      ensures Valid()
      ensures old(nextId) <= nextId
      ensures |mask| == width && forall i | 0 <= i < width :: mask[i] == MaskByte(i)
      ensures forall t :: Prepared(views.targets[t], old(views.targets[t]), t, width, height,
                                   TargetTexture(t) !in failed, old(nextId))
      ensures ShiftTexture !in failed ==> views.shift.H? && old(nextId) <= views.shift.id
      ensures ShiftTexture in failed ==> views.shift == old(views.shift)
      ensures views.input == old(views.input) && views.point == old(views.point) && views.linear == old(views.linear)
      ensures viewportWidth == old(viewportWidth) && viewportHeight == old(viewportHeight)
      ensures viewport == old(viewport) && sampler == old(sampler) && passes == old(passes)
      ensures released == old(released)
    {
      var hr := InitShiftWidthTexture(width, ShiftTexture !in failed);
      InitRenderTargets(width, height, failed);
    }

    /** process_shader_nv12: fails at once when there is no device;
        otherwise creates a new view of the input texture, draws the four
        passes, restores the viewport to the recorded size, and hands out
        the combined target (represented by its render-target view), or
        fails when that target was never created. */
    method ProcessShaderNv12() returns (hr: HResult, output: Handle)
      requires Valid()
      modifies this
      ensures Valid()
      ensures !device ==> hr == E_FAIL && output == Null && views == old(views) && nextId == old(nextId) &&
                          viewport == old(viewport) && sampler == old(sampler) && passes == old(passes)
      ensures device ==> views == old(views).(input := H(old(nextId))) && nextId == old(nextId) + 1
      ensures device ==> passes == old(passes) + Nv12Passes(viewportWidth, viewportHeight, old(viewport),
                                                             old(sampler), views.point, views.linear)
      ensures device ==> viewport == Size(viewportWidth, viewportHeight) && sampler == views.point
      ensures device && views.targets[FakeNv12].rt == Null ==> hr == E_FAIL && output == Null
      ensures device && views.targets[FakeNv12].rt != Null ==> hr == S_OK && output == views.targets[FakeNv12].rt
      ensures mask == old(mask) && viewportWidth == old(viewportWidth) && viewportHeight == old(viewportHeight)
      ensures released == old(released)
    {
      if !device {
        return E_FAIL, Null;
      }
      CreateInputView();
      DrawPasses();
      if views.targets[FakeNv12].rt == Null {
        return E_FAIL, Null;
      }
      hr, output := S_OK, views.targets[FakeNv12].rt;
    }

    /** The shader-resource view process_shader_nv12 creates over the input
        texture: a new object, held by nothing and never released. */
    method CreateInputView()
      requires Valid()
      modifies this
      ensures Valid()
      ensures views == old(views).(input := H(old(nextId))) && nextId == old(nextId) + 1
      ensures mask == old(mask) && viewportWidth == old(viewportWidth) && viewportHeight == old(viewportHeight)
      ensures viewport == old(viewport) && sampler == old(sampler) && passes == old(passes)
      ensures released == old(released)
    {
      InputViewFresh(views, nextId);
      BelowGrows(released, nextId);
      views := views.(input := H(nextId));
      nextId := nextId + 1;
    }

    /** The four draws of process_shader_nv12 with the viewport and sampler
        changes between them, ending with the recorded viewport size. */
    method DrawPasses()
      modifies this
      ensures passes == old(passes) + Nv12Passes(viewportWidth, viewportHeight, old(viewport),
                                                 old(sampler), views.point, views.linear)
      ensures viewport == Size(viewportWidth, viewportHeight) && sampler == views.point
      ensures views == old(views) && nextId == old(nextId) && mask == old(mask) && released == old(released)
      ensures viewportWidth == old(viewportWidth) && viewportHeight == old(viewportHeight)
    {
      var w, h := viewportWidth, viewportHeight;
      passes := passes + [Pass(SplitYCbCr, viewport, sampler)];
      viewport := Size(w / 2, h / 2);
      sampler := views.linear;
      passes := passes + [Pass(DownsampleChroma, viewport, sampler)];
      viewport := Size(w, h);
      sampler := views.point;
      passes := passes + [Pass(CopyLuma, viewport, sampler)];
      viewport := Size(w, 2 * h);
      passes := passes + [Pass(CombineUV, viewport, sampler)];
      viewport := Size(w, h);
    }

    /** release_input_texture: releases the input view if one is set and
        keeps the pointer. */
    method ReleaseInputTexture()
      requires Valid()
      modifies this
      ensures Valid()
      ensures released == old(released) + NonNulls([views.input])
      ensures views == old(views) && nextId == old(nextId) && mask == old(mask)
      ensures viewportWidth == old(viewportWidth) && viewportHeight == old(viewportHeight)
      ensures viewport == old(viewport) && sampler == old(sampler) && passes == old(passes)
    {
      if views.input != Null {
        released := released + [views.input];
      }
    }

    /** release_resources: releases every view, target view and sampler
        that is set, and keeps every pointer. */
    method ReleaseResources()
      requires Valid()
      modifies this
      ensures Valid()
      ensures released == old(released) + Held(views)
      ensures views == old(views) && nextId == old(nextId) && mask == old(mask)
      ensures viewportWidth == old(viewportWidth) && viewportHeight == old(viewportHeight)
      ensures viewport == old(viewport) && sampler == old(sampler) && passes == old(passes)
    {
      HeldRange(views, nextId);
      released := released + Held(views);
    }

    /** The destructor releases the five shaders it created and nothing
        else: no view, target or sampler, and not the input layout. */
    method Destroy()
      requires Valid()
      modifies this
      ensures Valid()
      ensures released == old(released) + shaders
      ensures forall h | h in shaders :: h !in Held(views)
      ensures views == old(views) && nextId == old(nextId) && mask == old(mask)
      ensures viewportWidth == old(viewportWidth) && viewportHeight == old(viewportHeight)
      ensures viewport == old(viewport) && sampler == old(sampler) && passes == old(passes)
    {
      ShadersAreNotViews(views, nextId);
      released := released + shaders;
    }
  }
}
