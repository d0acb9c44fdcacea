/**
 The OpenGL display controller: the plugin's Open and Close entry points and
 the four callbacks Open installs (Pool, PictureRender, PictureDisplay,
 Control). Each operation is a pure function of the controller state, its
 arguments and the outcomes of the fallible external calls it makes, and
 returns the trace of the external calls in the order they are made.
 */
module Display {
  import opened Wrappers
  import opened GlTypes
  import opened Trace
  import Provider
  import Alignment

  /** The controller's private state (vout_display_sys_t). */
  datatype DisplayState = DisplayState(gl: Context, vgl: Renderer, pool: Option<PicturePool>)

  /** The callbacks Open installs in vout_display_t. */
  datatype Callback = PoolCallback | PrepareCallback | DisplayCallback | ControlCallback

  /** What a successful Open publishes in vout_display_t besides the state. */
  datatype DisplayInfo = DisplayInfo(hasPicturesInvalid: bool, subpictureChromas: seq<Chroma>, callbacks: set<Callback>)

  /** What a successful vout_display_opengl_New hands back: the renderer and
      the subpicture chromas it can blend. */
  datatype Constructed = Constructed(vgl: Renderer, spuChromas: seq<Chroma>)

  /** The outcomes of Open's fallible calls: malloc of the state, the strdup
      of "glx" when the provider name is overridden, vlc_gl_Create (NULL is
      None), vlc_gl_MakeCurrent and vout_display_opengl_New (NULL is None). */
  datatype OpenOracle = OpenOracle(
    allocOk: bool,
    nameDupOk: bool,
    context: Option<Context>,
    makeCurrentOk: bool,
    renderer: Option<Constructed>)

  datatype Opened = Opened(sys: DisplayState, info: DisplayInfo)

  datatype OpenOutcome = OpenOutcome(status: Status, started: Option<Opened>, trace: seq<Event>)

  datatype PoolOutcome = PoolOutcome(sys: DisplayState, pool: Option<PicturePool>, trace: seq<Event>)

  datatype ControlOutcome = ControlOutcome(status: Status, trace: seq<Event>)

  const AllCallbacks: set<Callback> := {PoolCallback, PrepareCallback, DisplayCallback, ControlCallback}

  /** Open (plugin activation): allocate the state, resolve the provider name,
      create the context, size it to the display, and construct the renderer
      while the context is current. Every failure after the allocation
      unwinds what was acquired and reports VLC_EGENERIC. The provider name
      option is looked up through `inherit`. */
  function Open(api: Api, vd: VoutDisplay, inherit: string -> Option<string>, o: OpenOracle): (r: OpenOutcome)
    ensures r.status == Success <==> r.started.Some?
    ensures r.status == ENoMem <==> !o.allocOk
    ensures r.status == EGeneric <==> o.allocOk && (o.context.None? || !o.makeCurrentOk || o.renderer.None?)
    ensures !o.allocOk ==> r.trace == []
    ensures r.started.Some? ==>
      && r.started.value.sys == DisplayState(o.context.value, o.renderer.value.vgl, None)
      && r.started.value.info == DisplayInfo(false, o.renderer.value.spuChromas, AllCallbacks)
  {
    if !o.allocOk then
      OpenOutcome(ENoMem, None, [])
    else
      var name := ProviderName(api, vd, inherit, o.nameDupOk);
      match o.context
      case None =>
        OpenOutcome(EGeneric, None, [GlCreate(api, name, false)])
      case Some(gl) =>
        var created := [GlCreate(api, name, true), GlResize(vd.cfg.width, vd.cfg.height)];
        if !o.makeCurrentOk then
          OpenOutcome(EGeneric, None, created + [GlMakeCurrent(false)] + [GlRelease(gl)])
        else
          var made := created + (Scoped([RendererNew(vd.fmt, vd.cfg.viewpoint, o.renderer.Some?)]));
          match o.renderer
          case None =>
            OpenOutcome(EGeneric, None, made + [GlRelease(gl)])
          case Some(c) =>
            OpenOutcome(Success, Some(Opened(DisplayState(gl, c.vgl, None), DisplayInfo(false, c.spuChromas, AllCallbacks))), made)
  }

  /** GL work bracketed by a successful make-current and a release-current. */
  function Scoped(work: seq<Event>): seq<Event> {
    [GlMakeCurrent(true)] + work + [GlReleaseCurrent]
  }

  /** The provider name Open hands to vlc_gl_Create: the inherited option,
      after the VDPAU override. */
  function ProviderName(api: Api, vd: VoutDisplay, inherit: string -> Option<string>, dupOk: bool): Option<string> {
    Provider.ResolveProviderName(api, vd.cfg.window, vd.fmt.chroma, inherit(Provider.ModuleVarName(api)), dupOk)
  }

  /** The whole trace of Open, written out for each outcome. */
  lemma OpenTrace(api: Api, vd: VoutDisplay, inherit: string -> Option<string>, o: OpenOracle)
    ensures var t := Open(api, vd, inherit, o).trace;
      var name := ProviderName(api, vd, inherit, o.nameDupOk);
      var resize := GlResize(vd.cfg.width, vd.cfg.height);
      var build := RendererNew(vd.fmt, vd.cfg.viewpoint, o.renderer.Some?);
      && (o.allocOk && o.context.None? ==> t == [GlCreate(api, name, false)])
      && (o.allocOk && o.context.Some? && !o.makeCurrentOk ==>
            t == [GlCreate(api, name, true), resize, GlMakeCurrent(false), GlRelease(o.context.value)])
      && (o.allocOk && o.context.Some? && o.makeCurrentOk && o.renderer.None? ==>
            t == [GlCreate(api, name, true), resize, GlMakeCurrent(true), build, GlReleaseCurrent, GlRelease(o.context.value)])
      && (o.allocOk && o.context.Some? && o.makeCurrentOk && o.renderer.Some? ==>
            t == [GlCreate(api, name, true), resize, GlMakeCurrent(true), build, GlReleaseCurrent])
  {
  }

  /** Open creates the context with the resolved provider name, sizes it to
      the configured display before making it current, and builds the
      renderer from the negotiated format and the configured viewpoint. */
  lemma OpenOrder(api: Api, vd: VoutDisplay, inherit: string -> Option<string>, o: OpenOracle)
    ensures var t := Open(api, vd, inherit, o).trace;
      && (o.allocOk ==> |t| > 0 && t[0] == GlCreate(api, ProviderName(api, vd, inherit, o.nameDupOk), o.context.Some?))
      && (o.allocOk && o.context.Some? ==>
            Precedes(t, GlResize(vd.cfg.width, vd.cfg.height), GlMakeCurrent(o.makeCurrentOk)))
      && (o.allocOk && o.context.Some? && o.makeCurrentOk ==>
            Precedes(t, GlMakeCurrent(true), RendererNew(vd.fmt, vd.cfg.viewpoint, o.renderer.Some?)))
  {
    OpenTrace(api, vd, inherit, o);
    var t := Open(api, vd, inherit, o).trace;
    if o.allocOk && o.context.Some? {
      assert t[1] == GlResize(vd.cfg.width, vd.cfg.height) && t[2] == GlMakeCurrent(o.makeCurrentOk);
      if o.makeCurrentOk {
        assert t[3] == RendererNew(vd.fmt, vd.cfg.viewpoint, o.renderer.Some?);
      }
    }
  }

  /** Every Open keeps to the make-current discipline. */
  lemma OpenDisciplined(api: Api, vd: VoutDisplay, inherit: string -> Option<string>, o: OpenOracle)
    ensures Disciplined(Open(api, vd, inherit, o).trace)
  {
    var t := Open(api, vd, inherit, o).trace;
    if o.allocOk {
      var name := ProviderName(api, vd, inherit, o.nameDupOk);
      var created := [GlCreate(api, name, true), GlResize(vd.cfg.width, vd.cfg.height)];
      if o.context.None? {
        QuietDisciplined(t);
      } else if !o.makeCurrentOk {
        QuietDisciplined(created);
        FailedAcquireDisciplined();
        ReleaseDisciplined(o.context.value);
        DisciplinedAppend(created, [GlMakeCurrent(false)]);
        DisciplinedAppend(created + [GlMakeCurrent(false)], [GlRelease(o.context.value)]);
      } else {
        var scope := Scoped([RendererNew(vd.fmt, vd.cfg.viewpoint, o.renderer.Some?)]);
        QuietDisciplined(created);
        ScopeDisciplined([RendererNew(vd.fmt, vd.cfg.viewpoint, o.renderer.Some?)]);
        DisciplinedAppend(created, scope);
        if o.renderer.None? {
          ReleaseDisciplined(o.context.value);
          DisciplinedAppend(created + scope, [GlRelease(o.context.value)]);
        }
      }
    }
  }

  /** No context outlives a failed Open: the failure paths destroy every
      context they created, as their last call, and the allocation failure
      creates none. */
  lemma OpenFailureReleases(api: Api, vd: VoutDisplay, inherit: string -> Option<string>, o: OpenOracle)
    requires Open(api, vd, inherit, o).status != Success
    ensures var t := Open(api, vd, inherit, o).trace;
      && Count(t, ContextCreated) == Count(t, ContextReleased) <= 1
      && (o.allocOk && o.context.Some? ==> t[|t| - 1] == GlRelease(o.context.value))
  {
    var t := Open(api, vd, inherit, o).trace;
    OpenTrace(api, vd, inherit, o);
    if !o.allocOk {
    } else if o.context.None? {
      CountZero(t, ContextCreated);
      CountZero(t, ContextReleased);
    } else {
      CountSingle(t, ContextCreated, 0);
      CountSingle(t, ContextReleased, |t| - 1);
    }
  }

  /** A successful Open holds exactly one context and has destroyed none. */
  lemma OpenSuccessHoldsContext(api: Api, vd: VoutDisplay, inherit: string -> Option<string>, o: OpenOracle)
    requires Open(api, vd, inherit, o).status == Success
    ensures var t := Open(api, vd, inherit, o).trace;
      Count(t, ContextCreated) == 1 && Count(t, ContextReleased) == 0
  {
    var t := Open(api, vd, inherit, o).trace;
    OpenTrace(api, vd, inherit, o);
    CountSingle(t, ContextCreated, 0);
    CountZero(t, ContextReleased);
  }

  /** Close (plugin deactivation): destroy the renderer under make-current,
      release the context, then destroy the context. The outcome of
      make-current is ignored: teardown happens either way, so when
      make-current fails the renderer is deleted and the context released
      without the context being current. */
  function Close(sys: DisplayState, makeCurrentOk: bool): (t: seq<Event>)
    ensures |t| > 0 && t[|t| - 1] == GlRelease(sys.gl)
    ensures RendererDelete(sys.vgl) in t
  {
    [GlMakeCurrent(makeCurrentOk), RendererDelete(sys.vgl), GlReleaseCurrent, GlRelease(sys.gl)]
  }

  /** Close makes current, deletes the renderer, releases current and
      destroys the context, in that order and once each, whatever
      make-current returned. */
  lemma CloseTearsDown(sys: DisplayState, makeCurrentOk: bool)
    ensures var t := Close(sys, makeCurrentOk);
      && Precedes(t, GlMakeCurrent(makeCurrentOk), RendererDelete(sys.vgl))
      && Precedes(t, RendererDelete(sys.vgl), GlReleaseCurrent)
      && Precedes(t, GlReleaseCurrent, GlRelease(sys.gl))
      && multiset(t)[RendererDelete(sys.vgl)] == 1
      && multiset(t)[GlReleaseCurrent] == 1
  {
    var t := Close(sys, makeCurrentOk);
    assert t[0] == GlMakeCurrent(makeCurrentOk) && t[1] == RendererDelete(sys.vgl) && t[2] == GlReleaseCurrent && t[3] == GlRelease(sys.gl);
  }

  /** Close destroys exactly the one context and creates none. */
  lemma CloseReleasesContext(sys: DisplayState, makeCurrentOk: bool)
    ensures Count(Close(sys, makeCurrentOk), ContextCreated) == 0
    ensures Count(Close(sys, makeCurrentOk), ContextReleased) == 1
  {
    var t := Close(sys, makeCurrentOk);
    CountZero(t, ContextCreated);
    CountSingle(t, ContextReleased, 3);
  }

  /** Close keeps to the make-current discipline exactly when its
      make-current succeeds. */
  lemma CloseDisciplinedIff(sys: DisplayState, makeCurrentOk: bool)
    ensures Disciplined(Close(sys, makeCurrentOk)) <==> makeCurrentOk
  {
    var t := Close(sys, makeCurrentOk);
    if makeCurrentOk {
      ScopeDisciplined([RendererDelete(sys.vgl)]);
      ReleaseDisciplined(sys.gl);
      DisciplinedAppend(Scoped([RendererDelete(sys.vgl)]), [GlRelease(sys.gl)]);
      assert t == Scoped([RendererDelete(sys.vgl)]) + [GlRelease(sys.gl)];
    } else {
      ReplayAppend(false, [GlMakeCurrent(false)], t[1..]);
      ReplayOne(false, GlMakeCurrent(false));
      ReplayAppend(false, [RendererDelete(sys.vgl)], t[2..]);
      ReplayOne(false, RendererDelete(sys.vgl));
      assert t == [GlMakeCurrent(false)] + t[1..];
      assert t[1..] == [RendererDelete(sys.vgl)] + t[2..];
    }
  }

  /** The Pool callback: build the picture pool the first time it can, under
      make-current, and hand back the stored pool from then on. A NULL pool
      from the renderer is stored as NULL, so a later call tries again. */
  function Pool(sys: DisplayState, count: nat, makeCurrentOk: bool, got: Option<PicturePool>): (r: PoolOutcome)
    ensures r.pool == r.sys.pool
    ensures r.sys.gl == sys.gl && r.sys.vgl == sys.vgl
    ensures sys.pool.Some? ==> r.sys == sys && r.trace == []
    ensures sys.pool.None? && !makeCurrentOk ==> r.sys == sys && r.trace == [GlMakeCurrent(false)]
    ensures sys.pool.None? && makeCurrentOk ==> r.pool == got
  {
    if sys.pool.None? && makeCurrentOk then
      var s := sys.(pool := got);
      PoolOutcome(s, s.pool, Scoped([RendererGetPool(count, got.Some?)]))
    else if sys.pool.None? then
      PoolOutcome(sys, sys.pool, [GlMakeCurrent(false)])
    else
      PoolOutcome(sys, sys.pool, [])
  }

  /** When there is no pool and make-current succeeds, Pool asks the renderer
      for `count` pictures under make-current. */
  lemma PoolAsksRenderer(sys: DisplayState, count: nat, makeCurrentOk: bool, got: Option<PicturePool>)
    requires sys.pool.None? && makeCurrentOk
    ensures var t := Pool(sys, count, makeCurrentOk, got).trace;
      && Precedes(t, GlMakeCurrent(true), RendererGetPool(count, got.Some?))
      && Precedes(t, RendererGetPool(count, got.Some?), GlReleaseCurrent)
  {
    var t := Pool(sys, count, makeCurrentOk, got).trace;
    assert t[0] == GlMakeCurrent(true) && t[1] == RendererGetPool(count, got.Some?) && t[2] == GlReleaseCurrent;
  }

  /** Pool keeps to the make-current discipline. */
  lemma PoolDisciplined(sys: DisplayState, count: nat, makeCurrentOk: bool, got: Option<PicturePool>)
    ensures Disciplined(Pool(sys, count, makeCurrentOk, got).trace)
  {
    if sys.pool.None? && makeCurrentOk {
      ScopeDisciplined([RendererGetPool(count, got.Some?)]);
    } else if sys.pool.None? {
      FailedAcquireDisciplined();
    }
  }

  /** Pool's trace records a pool creation exactly when it turns a missing
      pool into a present one, and it neither creates nor destroys a context
      nor releases a picture. */
  lemma PoolFootprint(sys: DisplayState, count: nat, makeCurrentOk: bool, got: Option<PicturePool>)
    ensures var r := Pool(sys, count, makeCurrentOk, got);
      && Count(r.trace, PoolCreated) == (if sys.pool.None? && r.pool.Some? then 1 else 0)
      && KeepsContext(r.trace)
      && forall p :: PictureRelease(p) !in r.trace
  {
    var t := Pool(sys, count, makeCurrentOk, got).trace;
    if sys.pool.None? && makeCurrentOk && got.Some? {
      CountSingle(t, PoolCreated, 1);
    } else {
      CountZero(t, PoolCreated);
    }
  }

  /** Once a pool exists, later requests of any size return it unchanged and
      make no call at all. */
  lemma PoolReused(sys: DisplayState, n: nat, mc: bool, got: Option<PicturePool>, m: nat, mc2: bool, got2: Option<PicturePool>)
    requires Pool(sys, n, mc, got).pool.Some?
    ensures var first := Pool(sys, n, mc, got);
      var second := Pool(first.sys, m, mc2, got2);
      second.pool == first.pool && second.sys == first.sys && second.trace == []
  {
  }

  /** The prepare callback: hand the picture and the optional subpicture to
      the renderer under make-current; skip the frame if make-current fails.
      The date is not used. */
  function PictureRender(pic: Picture, sub: Option<Subpicture>, date: int, makeCurrentOk: bool): (t: seq<Event>)
    ensures |t| > 0 && t[0] == GlMakeCurrent(makeCurrentOk)
  {
    if makeCurrentOk then Scoped([RendererPrepare(pic, sub)])
    else [GlMakeCurrent(false)]
  }

  /** The renderer prepares the picture exactly when make-current succeeded,
      and releases the context afterwards; the inputs are not released. */
  lemma PictureRenderPrepares(pic: Picture, sub: Option<Subpicture>, date: int, makeCurrentOk: bool)
    ensures var t := PictureRender(pic, sub, date, makeCurrentOk);
      && (RendererPrepare(pic, sub) in t <==> makeCurrentOk)
      && (makeCurrentOk ==> Precedes(t, RendererPrepare(pic, sub), GlReleaseCurrent))
      && forall i :: 0 <= i < |t| ==> !t[i].PictureRelease? && !t[i].SubpictureDelete?
  {
    var t := PictureRender(pic, sub, date, makeCurrentOk);
    if makeCurrentOk {
      assert t[1] == RendererPrepare(pic, sub) && t[2] == GlReleaseCurrent;
    }
  }

  /** PictureRender keeps to the make-current discipline. */
  lemma PictureRenderDisciplined(pic: Picture, sub: Option<Subpicture>, date: int, makeCurrentOk: bool)
    ensures Disciplined(PictureRender(pic, sub, date, makeCurrentOk))
  {
    if makeCurrentOk {
      ScopeDisciplined([RendererPrepare(pic, sub)]);
    } else {
      FailedAcquireDisciplined();
    }
  }

  /** The date argument has no effect. */
  lemma PictureRenderIgnoresDate(pic: Picture, sub: Option<Subpicture>, d1: int, d2: int, makeCurrentOk: bool)
    ensures PictureRender(pic, sub, d1, makeCurrentOk) == PictureRender(pic, sub, d2, makeCurrentOk)
  {
  }

  /** The releases PictureDisplay makes: the picture, then the subpicture if
      there is one. */
  function ReleaseInputs(pic: Picture, sub: Option<Subpicture>): seq<Event> {
    match sub
    case None => [PictureRelease(pic)]
    case Some(s) => [PictureRelease(pic), SubpictureDelete(s)]
  }

  /** The presentation part of PictureDisplay. */
  function Presentation(source: VideoFormat, makeCurrentOk: bool): seq<Event> {
    if makeCurrentOk then Scoped([RendererDisplay(source)])
    else [GlMakeCurrent(false)]
  }

  /** The display callback: present the prepared picture under make-current,
      then release the picture and delete the subpicture whatever
      make-current returned. */
  function PictureDisplay(source: VideoFormat, pic: Picture, sub: Option<Subpicture>, makeCurrentOk: bool): (t: seq<Event>)
    ensures |t| > 0 && t[0] == GlMakeCurrent(makeCurrentOk)
  {
    Presentation(source, makeCurrentOk) + ReleaseInputs(pic, sub)
  }

  /** The picture is released exactly once and the subpicture deleted
      exactly when there is one, whatever make-current returned; nothing
      else is released. */
  lemma PictureDisplayReleasesInputs(source: VideoFormat, pic: Picture, sub: Option<Subpicture>, makeCurrentOk: bool)
    ensures var t := PictureDisplay(source, pic, sub, makeCurrentOk);
      && (forall p :: multiset(t)[PictureRelease(p)] == (if p == pic then 1 else 0))
      && (forall s :: multiset(t)[SubpictureDelete(s)] == (if sub == Some(s) then 1 else 0))
  {
    var t := PictureDisplay(source, pic, sub, makeCurrentOk);
    assert multiset(t) == multiset(Presentation(source, makeCurrentOk)) + multiset(ReleaseInputs(pic, sub));
  }

  /** The renderer presents the source exactly when make-current succeeded,
      and the context is released afterwards. */
  lemma PictureDisplayPresents(source: VideoFormat, pic: Picture, sub: Option<Subpicture>, makeCurrentOk: bool)
    ensures var t := PictureDisplay(source, pic, sub, makeCurrentOk);
      && (RendererDisplay(source) in t <==> makeCurrentOk)
      && (makeCurrentOk ==> Precedes(t, RendererDisplay(source), GlReleaseCurrent))
      && forall i :: 0 <= i < |t| ==> !t[i].RendererPrepare?
  {
    var t := PictureDisplay(source, pic, sub, makeCurrentOk);
    if makeCurrentOk {
      assert t[1] == RendererDisplay(source) && t[2] == GlReleaseCurrent;
    }
  }

  /** PictureDisplay keeps to the make-current discipline. */
  lemma PictureDisplayDisciplined(source: VideoFormat, pic: Picture, sub: Option<Subpicture>, makeCurrentOk: bool)
    ensures Disciplined(PictureDisplay(source, pic, sub, makeCurrentOk))
  {
    var released := ReleaseInputs(pic, sub);
    QuietDisciplined(released);
    if makeCurrentOk {
      ScopeDisciplined([RendererDisplay(source)]);
    } else {
      FailedAcquireDisciplined();
    }
    DisciplinedAppend(Presentation(source, makeCurrentOk), released);
  }

  /** RendererSetAspect(place), then RendererViewport(place), both between a
      successful make-current and the following release-current, and no
      other placement pushed. */
  predicate PlacementPushed(t: seq<Event>, place: Place) {
    && Precedes(t, GlMakeCurrent(true), RendererSetAspect(place))
    && Precedes(t, RendererSetAspect(place), RendererViewport(place))
    && Precedes(t, RendererViewport(place), GlReleaseCurrent)
    && forall i :: 0 <= i < |t| && IsPlacementPush(t[i]) ==> t[i] == RendererSetAspect(place) || t[i] == RendererViewport(place)
  }

  /** Pushes a placement into the renderer: the window aspect ratio, then the
      viewport, under make-current; VLC_EGENERIC when make-current fails. */
  function PushPlacement(place: Place, makeCurrentOk: bool): (r: ControlOutcome)
    ensures r.status == Success <==> makeCurrentOk
    ensures r.status != Success ==> r.status == EGeneric
  {
    if makeCurrentOk then ControlOutcome(Success, Scoped([RendererSetAspect(place), RendererViewport(place)]))
    else ControlOutcome(EGeneric, [GlMakeCurrent(false)])
  }

  /** The resize-family queries (display size, fill mode, zoom): place the
      picture from the query's configuration with its vertical alignment
      swapped, resize the context to the new display size, then push the
      placement. */
  function Relayout(source: VideoFormat, placer: (VideoFormat, DisplayCfg) -> Place, c: DisplayCfg, makeCurrentOk: bool): (r: ControlOutcome)
    ensures r.status == Success <==> makeCurrentOk
    ensures r.status != Success ==> r.status == EGeneric
  {
    var flipped := Alignment.FlipVertical(c);
    var push := PushPlacement(placer(source, flipped), makeCurrentOk);
    ControlOutcome(push.status, [GlResize(flipped.width, flipped.height)] + push.trace)
  }

  /** The control callback. The resize-family queries go through Relayout;
      the source aspect and crop queries place the picture from the stored
      configuration, with no swap and no resize; the viewpoint query is
      forwarded to the renderer without make-current and its result returned
      as is; anything else, including the reset-pictures query in a release
      build, is refused. Placement (vout_display_PlacePicture) is the
      caller-supplied `placer`. */
  function Control(vd: VoutDisplay, placer: (VideoFormat, DisplayCfg) -> Place,
                   q: Query, makeCurrentOk: bool, viewpointResult: Status): (r: ControlOutcome)
    ensures q.IsResizeFamily() || q.IsSourceFamily() ==>
      && (r.status == Success <==> makeCurrentOk)
      && (r.status != Success ==> r.status == EGeneric)
    ensures q.ChangeViewpoint? ==> r.status == viewpointResult
    ensures !q.IsResizeFamily() && !q.IsSourceFamily() && !q.ChangeViewpoint? ==>
      r.status == EGeneric && r.trace == []
  {
    if q.IsResizeFamily() then
      Relayout(vd.source, placer, q.cfg, makeCurrentOk)
    else if q.IsSourceFamily() then
      PushPlacement(placer(vd.source, vd.cfg), makeCurrentOk)
    else if q.ChangeViewpoint? then
      ControlOutcome(viewpointResult, [RendererSetViewpoint(q.cfg.viewpoint, viewpointResult)])
    else
      ControlOutcome(EGeneric, [])
  }

  /** A placement push survives events put in front of it that push none. */
  lemma PlacementPushedPrepend(pre: seq<Event>, t: seq<Event>, place: Place)
    requires NoPlacementPush(pre) && PlacementPushed(t, place)
    ensures PlacementPushed(pre + t, place)
  {
    PrecedesPrepend(pre, t, GlMakeCurrent(true), RendererSetAspect(place));
    PrecedesPrepend(pre, t, RendererSetAspect(place), RendererViewport(place));
    PrecedesPrepend(pre, t, RendererViewport(place), GlReleaseCurrent);
    forall i | 0 <= i < |pre + t| && IsPlacementPush((pre + t)[i])
      ensures (pre + t)[i] == RendererSetAspect(place) || (pre + t)[i] == RendererViewport(place)
    {
      if i >= |pre| {
        assert (pre + t)[i] == t[i - |pre|];
      }
    }
  }

  /** Absence of placement pushes is kept by concatenation. */
  lemma NoPlacementPushAppend(a: seq<Event>, b: seq<Event>)
    requires NoPlacementPush(a) && NoPlacementPush(b)
    ensures NoPlacementPush(a + b)
  {
  }

  /** A successful push records the placement. */
  lemma PushPlacementPushes(place: Place)
    ensures PlacementPushed(PushPlacement(place, true).trace, place)
  {
    var t := PushPlacement(place, true).trace;
    assert t[0] == GlMakeCurrent(true) && t[1] == RendererSetAspect(place);
    assert t[2] == RendererViewport(place) && t[3] == GlReleaseCurrent;
  }

  /** What pushing a placement records besides the push: nothing pushed on
      failure, the make-current discipline kept, and never a resize, a
      viewpoint, a context change or a picture release. */
  lemma PushPlacementFootprint(place: Place, makeCurrentOk: bool)
    ensures var t := PushPlacement(place, makeCurrentOk).trace;
      && (!makeCurrentOk ==> NoPlacementPush(t))
      && Disciplined(t)
      && KeepsContext(t)
      && forall i :: 0 <= i < |t| ==> !t[i].GlResize? && !t[i].RendererSetViewpoint? && !t[i].PictureRelease? && !t[i].RendererGetPool?
  {
  }

  /** Relayout resizes the context to the requested display size first,
      even when make-current then fails, and on success pushes the placement
      computed from the configuration with TOP and BOTTOM exchanged. */
  lemma RelayoutTrace(source: VideoFormat, placer: (VideoFormat, DisplayCfg) -> Place, c: DisplayCfg, makeCurrentOk: bool)
    ensures var t := Relayout(source, placer, c, makeCurrentOk).trace;
      && |t| > 0 && t[0] == GlResize(c.width, c.height)
      && (makeCurrentOk ==> PlacementPushed(t, placer(source, Alignment.FlipVertical(c))))
      && (!makeCurrentOk ==> NoPlacementPush(t))
  {
    var place := placer(source, Alignment.FlipVertical(c));
    var push := PushPlacement(place, makeCurrentOk).trace;
    var resize := [GlResize(c.width, c.height)];
    assert Relayout(source, placer, c, makeCurrentOk).trace == resize + push;
    if makeCurrentOk {
      PushPlacementPushes(place);
      PlacementPushedPrepend(resize, push, place);
    } else {
      PushPlacementFootprint(place, makeCurrentOk);
      NoPlacementPushAppend(resize, push);
    }
  }

  /** Relayout keeps to the make-current discipline, leaves the context alone
      and releases no picture. */
  lemma RelayoutFootprint(source: VideoFormat, placer: (VideoFormat, DisplayCfg) -> Place, c: DisplayCfg, makeCurrentOk: bool)
    ensures var t := Relayout(source, placer, c, makeCurrentOk).trace;
      && Disciplined(t)
      && KeepsContext(t)
      && forall i :: 0 <= i < |t| ==> !t[i].PictureRelease? && !t[i].RendererGetPool?
  {
    var place := placer(source, Alignment.FlipVertical(c));
    var push := PushPlacement(place, makeCurrentOk).trace;
    var resize := [GlResize(c.width, c.height)];
    PushPlacementFootprint(place, makeCurrentOk);
    assert Relayout(source, placer, c, makeCurrentOk).trace == resize + push;
    QuietDisciplined(resize);
    DisciplinedAppend(resize, push);
    assert forall i :: 1 <= i < |resize + push| ==> (resize + push)[i] == push[i - 1];
  }

  /** A resize-family query goes through Relayout with the query's
      configuration. */
  lemma ControlResizeThenPush(vd: VoutDisplay, placer: (VideoFormat, DisplayCfg) -> Place,
                              q: Query, makeCurrentOk: bool, viewpointResult: Status)
    requires q.IsResizeFamily()
    ensures var t := Control(vd, placer, q, makeCurrentOk, viewpointResult).trace;
      && |t| > 0 && t[0] == GlResize(q.cfg.width, q.cfg.height)
      && (makeCurrentOk ==> PlacementPushed(t, placer(vd.source, Alignment.FlipVertical(q.cfg))))
  {
    RelayoutTrace(vd.source, placer, q.cfg, makeCurrentOk);
  }

  /** The source aspect and crop queries push the placement computed from
      the stored configuration, unswapped, and never resize the context. */
  lemma ControlSourcePush(vd: VoutDisplay, placer: (VideoFormat, DisplayCfg) -> Place,
                          q: Query, makeCurrentOk: bool, viewpointResult: Status)
    requires q.IsSourceFamily()
    ensures var t := Control(vd, placer, q, makeCurrentOk, viewpointResult).trace;
      && (makeCurrentOk ==> PlacementPushed(t, placer(vd.source, vd.cfg)))
      && forall i :: 0 <= i < |t| ==> !t[i].GlResize?
  {
    PushPlacementFootprint(placer(vd.source, vd.cfg), makeCurrentOk);
    if makeCurrentOk {
      PushPlacementPushes(placer(vd.source, vd.cfg));
    }
  }

  /** The viewpoint query is forwarded to the renderer as it came and makes
      no make-current call and no placement push. */
  lemma ControlViewpointForwarded(vd: VoutDisplay, placer: (VideoFormat, DisplayCfg) -> Place,
                                  q: Query, makeCurrentOk: bool, viewpointResult: Status)
    requires q.ChangeViewpoint?
    ensures var t := Control(vd, placer, q, makeCurrentOk, viewpointResult).trace;
      && RendererSetViewpoint(q.cfg.viewpoint, viewpointResult) in t
      && forall i :: 0 <= i < |t| ==> !t[i].GlMakeCurrent? && !IsPlacementPush(t[i])
  {
  }

  /** A failed query pushes no placement into the renderer. */
  lemma ControlFailurePushesNothing(vd: VoutDisplay, placer: (VideoFormat, DisplayCfg) -> Place,
                                    q: Query, makeCurrentOk: bool, viewpointResult: Status)
    requires Control(vd, placer, q, makeCurrentOk, viewpointResult).status != Success
    ensures NoPlacementPush(Control(vd, placer, q, makeCurrentOk, viewpointResult).trace)
  {
  }

  /** Every control query keeps to the make-current discipline, leaves the
      context alone and releases no picture. */
  lemma ControlDisciplined(vd: VoutDisplay, placer: (VideoFormat, DisplayCfg) -> Place,
                           q: Query, makeCurrentOk: bool, viewpointResult: Status)
    ensures var t := Control(vd, placer, q, makeCurrentOk, viewpointResult).trace;
      && Disciplined(t)
      && KeepsContext(t)
      && forall i :: 0 <= i < |t| ==> !t[i].PictureRelease? && !t[i].RendererGetPool?
  {
    if q.IsResizeFamily() {
      RelayoutFootprint(vd.source, placer, q.cfg, makeCurrentOk);
    } else if q.IsSourceFamily() {
      PushPlacementFootprint(placer(vd.source, vd.cfg), makeCurrentOk);
    } else if q.ChangeViewpoint? {
      QuietDisciplined([RendererSetViewpoint(q.cfg.viewpoint, viewpointResult)]);
    }
  }

  /** A resize-family query asking for TOP alignment is placed as if it had
      asked for BOTTOM, and vice versa; the placement pushed for CENTER (and
      every other value) uses the alignment as given. */
  lemma ResizeSwapsTopAndBottom(vd: VoutDisplay, placer: (VideoFormat, DisplayCfg) -> Place,
                                q: Query, viewpointResult: Status)
    requires q.IsResizeFamily()
    ensures var pushed := Control(vd, placer, q, true, viewpointResult).trace;
      var v := q.cfg.align.vertical;
      && (v == Top ==> PlacementPushed(pushed, placer(vd.source, q.cfg.(align := q.cfg.align.(vertical := Bottom)))))
      && (v == Bottom ==> PlacementPushed(pushed, placer(vd.source, q.cfg.(align := q.cfg.align.(vertical := Top)))))
      && (v != Top && v != Bottom ==> PlacementPushed(pushed, placer(vd.source, q.cfg)))
  {
    ControlResizeThenPush(vd, placer, q, true, viewpointResult);
  }
}
