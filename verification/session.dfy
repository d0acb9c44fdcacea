/**
 A display session: Open, then any sequence of the four callbacks the video
 output core may invoke (serialized by the caller), then Close. The
 properties the controller promises for single calls are lifted here to
 whole sessions.
 */
module Session {
  import opened Wrappers
  import opened GlTypes
  import opened Trace
  import opened Display

  /** One callback invocation, with the outcomes of its fallible calls. */
  datatype Call =
    | PoolCall(count: nat, makeCurrentOk: bool, got: Option<PicturePool>)
    | RenderCall(pic: Picture, sub: Option<Subpicture>, date: int, makeCurrentOk: bool)
    | DisplayCall(pic: Picture, sub: Option<Subpicture>, makeCurrentOk: bool)
    | ControlCall(query: Query, makeCurrentOk: bool, viewpointResult: Status)

  /** One invocation by the video output core: the display description
      (vout_display_t's format, source and configuration) as it stands when
      the call is made, and the call itself. The core may change the
      description between calls; the controller only reads it. */
  datatype Invocation = Invocation(vd: VoutDisplay, call: Call)

  /** The state after some calls, with the trace they produced. */
  datatype Progress = Progress(sys: DisplayState, trace: seq<Event>)

  /** Dispatches one invocation to the callback it names. */
  function Step(sys: DisplayState, placer: (VideoFormat, DisplayCfg) -> Place, inv: Invocation): Progress {
    match inv.call
    case PoolCall(n, mc, got) =>
      var r := Pool(sys, n, mc, got);
      Progress(r.sys, r.trace)
    case RenderCall(pic, sub, date, mc) => Progress(sys, PictureRender(pic, sub, date, mc))
    case DisplayCall(pic, sub, mc) => Progress(sys, PictureDisplay(inv.vd.source, pic, sub, mc))
    case ControlCall(q, mc, vr) => Progress(sys, Control(inv.vd, placer, q, mc, vr).trace)
  }

  /** Runs the invocations in order. */
  function Run(sys: DisplayState, placer: (VideoFormat, DisplayCfg) -> Place, calls: seq<Invocation>): Progress
    decreases |calls|
  {
    if calls == [] then Progress(sys, [])
    else
      var first := Step(sys, placer, calls[0]);
      var rest := Run(first.sys, placer, calls[1..]);
      Progress(rest.sys, first.trace + rest.trace)
  }

  /** The number of display invocations that hand over picture p. */
  function Displayed(calls: seq<Invocation>, p: Picture): nat
    decreases |calls|
  {
    if calls == [] then 0
    else (if calls[0].call.DisplayCall? && calls[0].call.pic == p then 1 else 0) + Displayed(calls[1..], p)
  }

  /** One invocation keeps the make-current discipline. */
  lemma StepDisciplined(sys: DisplayState, placer: (VideoFormat, DisplayCfg) -> Place, inv: Invocation)
    ensures Disciplined(Step(sys, placer, inv).trace)
  {
    match inv.call
    case PoolCall(n, mc, got) => PoolDisciplined(sys, n, mc, got);
    case RenderCall(pic, sub, date, mc) => PictureRenderDisciplined(pic, sub, date, mc);
    case DisplayCall(pic, sub, mc) => PictureDisplayDisciplined(inv.vd.source, pic, sub, mc);
    case ControlCall(q, mc, vr) => ControlDisciplined(inv.vd, placer, q, mc, vr);
  }

  /** One invocation keeps the context and the renderer, never replaces a
      pool, and records a pool creation exactly when it creates one. */
  lemma StepKeepsHandles(sys: DisplayState, placer: (VideoFormat, DisplayCfg) -> Place, inv: Invocation)
    ensures var r := Step(sys, placer, inv);
      && KeepsContext(r.trace)
      && r.sys.gl == sys.gl && r.sys.vgl == sys.vgl
      && (sys.pool.Some? ==> r.sys.pool == sys.pool)
      && Count(r.trace, PoolCreated) == (if sys.pool.None? && r.sys.pool.Some? then 1 else 0)
  {
    var c := inv.call;
    if c.PoolCall? {
      PoolFootprint(sys, c.count, c.makeCurrentOk, c.got);
    } else if c.RenderCall? {
      RenderStepFootprint(sys, placer, inv);
    } else if c.DisplayCall? {
      NoContextChangeWhileDisplaying(inv.vd.source, c.pic, c.sub, c.makeCurrentOk);
    } else {
      ControlStepFootprint(sys, placer, inv);
    }
  }

  /** A prepare invocation keeps the state, neither creates nor destroys a
      context, and creates no pool. */
  lemma RenderStepFootprint(sys: DisplayState, placer: (VideoFormat, DisplayCfg) -> Place, inv: Invocation)
    requires inv.call.RenderCall?
    ensures var r := Step(sys, placer, inv);
      r.sys == sys && KeepsContext(r.trace) && Count(r.trace, PoolCreated) == 0
  {
    var c := inv.call;
    var t := PictureRender(c.pic, c.sub, c.date, c.makeCurrentOk);
    assert forall i :: 0 <= i < |t| ==> t[i] == GlMakeCurrent(c.makeCurrentOk) || t[i] == RendererPrepare(c.pic, c.sub) || t[i] == GlReleaseCurrent;
    CountZero(t, PoolCreated);
  }

  /** A control invocation keeps the state, neither creates nor destroys a
      context, and creates no pool. */
  lemma ControlStepFootprint(sys: DisplayState, placer: (VideoFormat, DisplayCfg) -> Place, inv: Invocation)
    requires inv.call.ControlCall?
    ensures var r := Step(sys, placer, inv);
      r.sys == sys && KeepsContext(r.trace) && Count(r.trace, PoolCreated) == 0
  {
    var c := inv.call;
    var t := Control(inv.vd, placer, c.query, c.makeCurrentOk, c.viewpointResult).trace;
    ControlDisciplined(inv.vd, placer, c.query, c.makeCurrentOk, c.viewpointResult);
    CountZero(t, PoolCreated);
  }

  /** The display callback neither touches the context's lifetime nor asks
      for a pool. */
  lemma NoContextChangeWhileDisplaying(source: VideoFormat, pic: Picture, sub: Option<Subpicture>, mc: bool)
    ensures var t := PictureDisplay(source, pic, sub, mc);
      KeepsContext(t) && Count(t, PoolCreated) == 0
  {
    var t := PictureDisplay(source, pic, sub, mc);
    assert t == Presentation(source, mc) + ReleaseInputs(pic, sub);
    assert forall i :: 0 <= i < |t| ==> !t[i].GlCreate? && !t[i].GlRelease? && !t[i].RendererGetPool?;
    CountZero(t, PoolCreated);
  }

  /** A control invocation releases no picture. */
  lemma ControlStepReleasesNothing(sys: DisplayState, placer: (VideoFormat, DisplayCfg) -> Place, inv: Invocation, p: Picture)
    requires inv.call.ControlCall?
    ensures PictureRelease(p) !in Step(sys, placer, inv).trace
  {
    var c := inv.call;
    ControlDisciplined(inv.vd, placer, c.query, c.makeCurrentOk, c.viewpointResult);
  }

  /** A prepare invocation releases no picture. */
  lemma RenderStepReleasesNothing(sys: DisplayState, placer: (VideoFormat, DisplayCfg) -> Place, inv: Invocation, p: Picture)
    requires inv.call.RenderCall?
    ensures PictureRelease(p) !in Step(sys, placer, inv).trace
  {
    var c := inv.call;
    PictureRenderPrepares(c.pic, c.sub, c.date, c.makeCurrentOk);
  }

  /** One invocation releases picture p exactly when it is a display
      invocation for p. */
  lemma StepReleases(sys: DisplayState, placer: (VideoFormat, DisplayCfg) -> Place, inv: Invocation, p: Picture)
    ensures multiset(Step(sys, placer, inv).trace)[PictureRelease(p)] == (if inv.call.DisplayCall? && inv.call.pic == p then 1 else 0)
  {
    var c := inv.call;
    if c.PoolCall? {
      PoolFootprint(sys, c.count, c.makeCurrentOk, c.got);
    } else if c.RenderCall? {
      RenderStepReleasesNothing(sys, placer, inv, p);
    } else if c.DisplayCall? {
      PictureDisplayReleasesInputs(inv.vd.source, c.pic, c.sub, c.makeCurrentOk);
    } else {
      ControlStepReleasesNothing(sys, placer, inv, p);
    }
  }

  /** A whole session keeps the make-current discipline: make-current and
      release-current alternate, GL work happens only in between, and the
      context is not current at the end. */
  lemma {:induction false} RunDisciplined(sys: DisplayState, placer: (VideoFormat, DisplayCfg) -> Place, calls: seq<Invocation>)
    ensures Disciplined(Run(sys, placer, calls).trace)
    decreases |calls|
  {
    if calls != [] {
      var first := Step(sys, placer, calls[0]);
      StepDisciplined(sys, placer, calls[0]);
      RunDisciplined(first.sys, placer, calls[1..]);
      DisciplinedAppend(first.trace, Run(first.sys, placer, calls[1..]).trace);
    }
  }

  /** A session keeps the context and the renderer, never creates or
      destroys a context, and never replaces a pool once it exists. */
  lemma {:induction false} RunKeepsHandles(sys: DisplayState, placer: (VideoFormat, DisplayCfg) -> Place, calls: seq<Invocation>)
    ensures var r := Run(sys, placer, calls);
      && r.sys.gl == sys.gl && r.sys.vgl == sys.vgl
      && (sys.pool.Some? ==> r.sys.pool == sys.pool)
      && KeepsContext(r.trace)
    decreases |calls|
  {
    if calls != [] {
      var first := Step(sys, placer, calls[0]);
      StepKeepsHandles(sys, placer, calls[0]);
      RunKeepsHandles(first.sys, placer, calls[1..]);
    }
  }

  /** The pool is created at most once per session: the trace records one
      successful pool creation if the session started without a pool and
      ended with one, and none otherwise. */
  lemma {:induction false} RunCreatesPoolAtMostOnce(sys: DisplayState, placer: (VideoFormat, DisplayCfg) -> Place, calls: seq<Invocation>)
    ensures var r := Run(sys, placer, calls);
      Count(r.trace, PoolCreated) == (if sys.pool.None? && r.sys.pool.Some? then 1 else 0)
    decreases |calls|
  {
    if calls != [] {
      var first := Step(sys, placer, calls[0]);
      var rest := Run(first.sys, placer, calls[1..]);
      StepKeepsHandles(sys, placer, calls[0]);
      RunCreatesPoolAtMostOnce(first.sys, placer, calls[1..]);
      RunKeepsHandles(first.sys, placer, calls[1..]);
      CountAppend(first.trace, rest.trace, PoolCreated);
    }
  }

  /** A session releases picture p once for every time it was handed to the
      display callback, and a picture never displayed is never released. */
  lemma {:induction false} RunReleasesDisplayedPictures(sys: DisplayState, placer: (VideoFormat, DisplayCfg) -> Place, calls: seq<Invocation>, p: Picture)
    ensures multiset(Run(sys, placer, calls).trace)[PictureRelease(p)] == Displayed(calls, p)
    decreases |calls|
  {
    if calls != [] {
      var first := Step(sys, placer, calls[0]);
      StepReleases(sys, placer, calls[0], p);
      RunReleasesDisplayedPictures(first.sys, placer, calls[1..], p);
    }
  }

  /** Open, any session, then Close: exactly one context is created and
      exactly one destroyed, destroying the context Open created is the last
      call, and when Close's make-current succeeds the whole lifetime keeps
      the make-current discipline. The session's invocations may each carry
      a display description different from the one Open saw. */
  lemma Lifetime(api: Api, vd: VoutDisplay, inherit: string -> Option<string>, o: OpenOracle,
                 placer: (VideoFormat, DisplayCfg) -> Place, calls: seq<Invocation>, closeOk: bool)
    requires Open(api, vd, inherit, o).status == Success
    ensures var opening := Open(api, vd, inherit, o);
      var session := Run(opening.started.value.sys, placer, calls);
      var t := opening.trace + session.trace + Close(session.sys, closeOk);
      && Count(t, ContextCreated) == 1
      && Count(t, ContextReleased) == 1
      && t[|t| - 1] == GlRelease(o.context.value)
      && (closeOk ==> Disciplined(t))
  {
    var opening := Open(api, vd, inherit, o);
    var sys := opening.started.value.sys;
    var session := Run(sys, placer, calls);
    var closing := Close(session.sys, closeOk);
    var t := opening.trace + session.trace + closing;
    OpenSuccessHoldsContext(api, vd, inherit, o);
    OpenDisciplined(api, vd, inherit, o);
    RunKeepsHandles(sys, placer, calls);
    RunDisciplined(sys, placer, calls);
    CloseDisciplinedIff(session.sys, closeOk);
    CloseReleasesContext(session.sys, closeOk);
    CountZero(session.trace, ContextCreated);
    CountZero(session.trace, ContextReleased);
    CountZero(opening.trace, ContextReleased);
    CountAppend(opening.trace, session.trace, ContextCreated);
    CountAppend(opening.trace + session.trace, closing, ContextCreated);
    CountAppend(opening.trace, session.trace, ContextReleased);
    CountAppend(opening.trace + session.trace, closing, ContextReleased);
    if closeOk {
      DisciplinedAppend(opening.trace, session.trace);
      DisciplinedAppend(opening.trace + session.trace, closing);
    }
  }
}
