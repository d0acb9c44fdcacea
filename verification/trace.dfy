/**
 The trace of external calls the controller makes, and the discipline those
 calls must follow. Every call into the OpenGL provider (vlc_gl_*), the
 renderer (vout_display_opengl_*) and the picture core is one event; a call
 that can fail records the outcome the environment chose for it.
 */
module Trace {
  import opened Wrappers
  import opened GlTypes

  datatype Event =
    | GlCreate(api: Api, name: Option<string>, ok: bool)     // vlc_gl_Create
    | GlResize(width: nat, height: nat)                     // vlc_gl_Resize
    | GlMakeCurrent(ok: bool)                               // vlc_gl_MakeCurrent
    | GlReleaseCurrent                                      // vlc_gl_ReleaseCurrent
    | GlRelease(gl: Context)                                // vlc_gl_Release
    | RendererNew(fmt: VideoFormat, viewpoint: Viewpoint, ok: bool)
    | RendererDelete(vgl: Renderer)
    | RendererGetPool(count: nat, ok: bool)
    | RendererPrepare(pic: Picture, sub: Option<Subpicture>)
    | RendererDisplay(source: VideoFormat)
    | RendererSetAspect(place: Place)                       // the window aspect ratio derived from place
    | RendererViewport(place: Place)
    | RendererSetViewpoint(viewpoint: Viewpoint, result: Status)
    | PictureRelease(pic: Picture)
    | SubpictureDelete(subpicture: Subpicture)

  /** The renderer calls the controller makes only while the context is
      current. Setting the viewpoint is not among them: the control callback
      forwards the viewpoint query to the renderer without making the context
      current, so the discipline is defined to admit that call anywhere. */
  predicate NeedsCurrent(e: Event) {
    e.RendererNew? || e.RendererDelete? || e.RendererGetPool? || e.RendererPrepare?
    || e.RendererDisplay? || e.RendererSetAspect? || e.RendererViewport?
  }

  /** Whether the context is current after event e, starting from `current`;
      None when e breaks the discipline: make-current while already current,
      release-current while not current, GL work without the context, or
      destroying the context while it is current. */
  function Advance(current: bool, e: Event): Option<bool> {
    if e.GlMakeCurrent? then (if current then None else Some(e.ok))
    else if e.GlReleaseCurrent? then (if current then Some(false) else None)
    else if e.GlRelease? then (if current then None else Some(false))
    else if NeedsCurrent(e) then (if current then Some(true) else None)
    else Some(current)
  }

  /** Replays a trace from `current`; None when some event breaks the discipline. */
  function Replay(current: bool, t: seq<Event>): Option<bool>
    decreases |t|, 1
  {
    if t == [] then Some(current)
    else Then(Advance(current, t[0]), t[1..])
  }

  /** Continues a replay from the outcome of its first part. */
  function Then(r: Option<bool>, t: seq<Event>): Option<bool>
    decreases |t|, 2
  {
    match r
    case None => None
    case Some(c) => Replay(c, t)
  }

  /** A trace that starts and ends with the context not current, never nests
      make-current, releases only what it made current, and does GL work only
      while current: every successful make-current is closed by exactly one
      release-current before the trace ends. */
  predicate Disciplined(t: seq<Event>) {
    Replay(false, t) == Some(false)
  }

  /** The resource events that are counted: a context created, a context
      destroyed, a picture pool created. */
  datatype Tag = ContextCreated | ContextReleased | PoolCreated

  predicate HasTag(e: Event, k: Tag) {
    match k
    case ContextCreated => e.GlCreate? && e.ok
    case ContextReleased => e.GlRelease?
    case PoolCreated => e.RendererGetPool? && e.ok
  }

  /** Number of events of t that carry tag k. */
  function Count(t: seq<Event>, k: Tag): nat
    decreases |t|
  {
    if t == [] then 0
    else (if HasTag(t[0], k) then 1 else 0) + Count(t[1..], k)
  }

  /** The two renderer calls that push a picture placement. */
  predicate IsPlacementPush(e: Event) { e.RendererSetAspect? || e.RendererViewport? }

  /** Event a occurs strictly before event b in t. */
  predicate Precedes(t: seq<Event>, a: Event, b: Event) {
    exists i, j :: 0 <= i < j < |t| && t[i] == a && t[j] == b
  }

  /** An event that neither changes nor needs the context's currency:
      creating or resizing the context, releasing or deleting pictures, and
      setting the viewpoint. */
  predicate Quiet(e: Event) {
    !e.GlMakeCurrent? && !e.GlReleaseCurrent? && !e.GlRelease? && !NeedsCurrent(e)
  }

  /** Replaying a concatenation is replaying its parts one after the other. */
  lemma {:induction false} ReplayAppend(current: bool, a: seq<Event>, b: seq<Event>)
    ensures Replay(current, a + b) == Then(Replay(current, a), b)
    decreases |a|
  {
    if a == [] {
      assert a + b == b;
    } else {
      assert (a + b)[0] == a[0];
      assert (a + b)[1..] == a[1..] + b;
      match Advance(current, a[0])
      case None =>
      case Some(c) => ReplayAppend(c, a[1..], b);
    }
  }

  /** Two disciplined traces in a row make a disciplined trace. */
  lemma DisciplinedAppend(a: seq<Event>, b: seq<Event>)
    requires Disciplined(a) && Disciplined(b)
    ensures Disciplined(a + b)
  {
    ReplayAppend(false, a, b);
  }

  /** Counting over a concatenation adds up. */
  lemma {:induction false} CountAppend(a: seq<Event>, b: seq<Event>, k: Tag)
    ensures Count(a + b, k) == Count(a, k) + Count(b, k)
    decreases |a|
  {
    if a == [] {
      assert a + b == b;
    } else {
      assert (a + b)[0] == a[0];
      assert (a + b)[1..] == a[1..] + b;
      CountAppend(a[1..], b, k);
    }
  }

  /** No event carries tag k exactly when the count of k is zero. */
  lemma {:induction false} CountZero(t: seq<Event>, k: Tag)
    ensures Count(t, k) == 0 <==> forall i :: 0 <= i < |t| ==> !HasTag(t[i], k)
    decreases |t|
  {
    if t != [] {
      CountZero(t[1..], k);
      assert forall i :: 1 <= i < |t| ==> t[i] == t[1..][i - 1];
    }
  }

  /** Replaying one event is advancing over it. */
  lemma ReplayOne(current: bool, e: Event)
    ensures Replay(current, [e]) == Advance(current, e)
  {
    assert [e][1..] == [];
    match Advance(current, e)
    case None =>
    case Some(c) => assert Replay(c, []) == Some(c);
  }

  /** Quiet events leave the currency as it was. */
  lemma {:induction false} QuietReplay(current: bool, t: seq<Event>)
    requires forall i :: 0 <= i < |t| ==> Quiet(t[i])
    ensures Replay(current, t) == Some(current)
    decreases |t|
  {
    if t != [] {
      QuietReplay(current, t[1..]);
    }
  }

  /** While the context is current, GL work and quiet events keep it current. */
  lemma {:induction false} WorkReplay(t: seq<Event>)
    requires forall i :: 0 <= i < |t| ==> NeedsCurrent(t[i]) || Quiet(t[i])
    ensures Replay(true, t) == Some(true)
    decreases |t|
  {
    if t != [] {
      WorkReplay(t[1..]);
    }
  }

  /** A trace of quiet events is disciplined. */
  lemma QuietDisciplined(t: seq<Event>)
    requires forall i :: 0 <= i < |t| ==> Quiet(t[i])
    ensures Disciplined(t)
  {
    QuietReplay(false, t);
  }

  /** A failed make-current leaves nothing to release. */
  lemma FailedAcquireDisciplined()
    ensures Disciplined([GlMakeCurrent(false)])
  {
  }

  /** Destroying a context that is not current is disciplined. */
  lemma ReleaseDisciplined(gl: Context)
    ensures Disciplined([GlRelease(gl)])
  {
    ReplayOne(false, GlRelease(gl));
  }

  /** GL work bracketed by a successful make-current and a release-current is
      disciplined. */
  lemma ScopeDisciplined(body: seq<Event>)
    requires forall i :: 0 <= i < |body| ==> NeedsCurrent(body[i]) || Quiet(body[i])
    ensures Disciplined([GlMakeCurrent(true)] + body + [GlReleaseCurrent])
  {
    ReplayAppend(false, [GlMakeCurrent(true)] + body, [GlReleaseCurrent]);
    ReplayAppend(false, [GlMakeCurrent(true)], body);
    ReplayOne(false, GlMakeCurrent(true));
    WorkReplay(body);
    ReplayOne(true, GlReleaseCurrent);
  }

  /** A single event counts once when it carries tag k. */
  lemma CountOne(e: Event, k: Tag)
    ensures Count([e], k) == if HasTag(e, k) then 1 else 0
  {
  }

  /** A count of one: exactly the event at j carries tag k. */
  lemma CountSingle(t: seq<Event>, k: Tag, j: int)
    requires 0 <= j < |t| && HasTag(t[j], k)
    requires forall i :: 0 <= i < |t| && i != j ==> !HasTag(t[i], k)
    ensures Count(t, k) == 1
  {
    assert t == t[..j] + ([t[j]] + t[j + 1..]);
    CountAppend(t[..j], [t[j]] + t[j + 1..], k);
    CountAppend([t[j]], t[j + 1..], k);
    CountZero(t[..j], k);
    CountZero(t[j + 1..], k);
    CountOne(t[j], k);
  }

  /** The trace neither creates nor destroys a context. */
  predicate KeepsContext(t: seq<Event>) {
    forall i :: 0 <= i < |t| ==> !t[i].GlCreate? && !t[i].GlRelease?
  }

  /** The trace pushes no placement into the renderer. */
  predicate NoPlacementPush(t: seq<Event>) {
    forall i :: 0 <= i < |t| ==> !IsPlacementPush(t[i])
  }

  /** Putting events in front of a trace keeps its order facts. */
  lemma PrecedesPrepend(prefix: seq<Event>, t: seq<Event>, a: Event, b: Event)
    requires Precedes(t, a, b)
    ensures Precedes(prefix + t, a, b)
  {
    var i, j :| 0 <= i < j < |t| && t[i] == a && t[j] == b;
    assert (prefix + t)[|prefix| + i] == a && (prefix + t)[|prefix| + j] == b;
  }

}
