# OpenGL video output display, modelled in Dafny

This project models the controller of VLC's "mygl" OpenGL video output plugin
(`modules/video_output/opengl/display_mygl.c`). The plugin sits between VLC's
video output core and two collaborators. One is an OpenGL context provider
(`vlc_gl_*`). The other is the OpenGL renderer (`vout_display_opengl_*`).

The modelled parts are:

- `Open`, which allocates the private state, resolves the provider name,
  creates and sizes the context and builds the renderer, unwinding on every
  failure;
- `Close`, which tears all of that down;
- the four callbacks `Open` installs: `Pool`, `PictureRender`,
  `PictureDisplay` and `Control`;
- two pure policies: the VDPAU provider-name override and the vertical
  alignment swap of the resize-family control queries.

Every operation is a pure function. It takes the controller state
(`vout_display_sys_t`: context, renderer, pool) and the outcomes of the
fallible calls it makes. It returns its result, the new state, and the
**trace**: the external calls in the order they are made. Properties are
stated over these traces:

- the **make-current discipline** (`Trace.Disciplined`): make-current is never
  nested, release-current only follows a successful make-current, renderer
  work that issues GL commands happens only while the context is current, and
  the context is never destroyed while current;
- resource counts: contexts created and destroyed, pools created, pictures
  released;
- call ordering (`Trace.Precedes`).

Two behaviours of the code are kept as written:

- Close ignores the result of make-current. When make-current fails, it
  still deletes the renderer and calls release-current without the context
  being current. `Display.CloseDisciplinedIff` states that the discipline
  then fails.
- The viewpoint query sets the viewpoint on the renderer without
  make-current. The discipline therefore treats setting the viewpoint as
  work that does not need the context.

Module layout:

- `wrappers.dfy`: `Option`;
- `gl_types.dfy`: the VLC types the controller sees;
- `provider.dfy`: the provider-name policy;
- `alignment.dfy`: the alignment swap;
- `trace.dfy`: events, the discipline and counting;
- `display.dfy`: the six entry points;
- `session.dfy`: whole sessions, meaning Open, any sequence of callbacks, then
  Close. Each callback invocation carries the display description (format,
  source and configuration) in force when it is made, because the video
  output core may change it between calls.

## Model

| member | source | states |
|---|---|---|
| Provider.ModuleVarName | modules/video_output/opengl/display_mygl.c:55-77 | the provider option is named "gl" in the desktop OpenGL build and "gles2" in the OpenGL ES 2 build (MODULE_VARNAME) |
| Provider.ModuleVarNameDistinct | modules/video_output/opengl/display_mygl.c:55-77 | the two builds read their provider name from different options: the option names agree exactly when the builds do |
| Provider.ResolveProviderName | modules/video_output/opengl/display_mygl.c:125-152 | the override applies exactly when the build is desktop OpenGL, the window is an X11 XID, the chroma is one of the three VDPAU chromas and the requested name is NULL, empty or "any"; it then yields "glx", or NULL when the strdup of "glx" fails; otherwise the requested name is passed unchanged; the result differs from the request exactly when the override applies, except that a NULL request stays NULL when the copy fails |
| Provider.ExplicitNameKept | modules/video_output/opengl/display_mygl.c:139-145 | an explicitly chosen provider other than "any" is never overridden, whatever strdup would return |
| Provider.Gles2NeverOverrides | modules/video_output/opengl/display_mygl.c:130-152 | the OpenGL ES 2 build never overrides the name |
| Provider.ResolveIdempotent | modules/video_output/opengl/display_mygl.c:128-152 | applying the override to its own result, with the same strdup outcome, changes nothing |
| Alignment.SwapVertical | modules/video_output/opengl/display_mygl.c:269-273 | TOP becomes BOTTOM and BOTTOM becomes TOP, both ways; every other vertical alignment is unchanged |
| Alignment.FlipVertical | modules/video_output/opengl/display_mygl.c:265-273 | the placement configuration equals the query's configuration except for the swapped vertical alignment |
| Alignment.SwapInvolution | modules/video_output/opengl/display_mygl.c:269-273 | swapping twice gives back the original alignment |
| Alignment.FlipInvolution | modules/video_output/opengl/display_mygl.c:265-273 | flipping a configuration twice gives it back |
| Display.Open | modules/video_output/opengl/display_mygl.c:115-188 | the result is VLC_ENOMEM exactly when allocation fails, with no call made; VLC_EGENERIC exactly when context creation, make-current or renderer construction fails; VLC_SUCCESS exactly when the display is started, with the created context, the built renderer, no pool, has_pictures_invalid false, the renderer's subpicture chromas and all four callbacks installed |
| Display.OpenOrder | modules/video_output/opengl/display_mygl.c:154-169 | the context is created first, with the resolved provider name; it is sized to the configured display before make-current; the renderer is built from the format and configured viewpoint after make-current |
| Display.OpenDisciplined | modules/video_output/opengl/display_mygl.c:154-187 | every outcome of Open keeps the make-current discipline |
| Display.OpenFailureReleases | modules/video_output/opengl/display_mygl.c:183-187 | a failed Open destroys every context it created, and there is at most one; when a context was created, destroying it is the last call |
| Display.OpenSuccessHoldsContext | modules/video_output/opengl/display_mygl.c:154-181 | a successful Open has created exactly one context and destroyed none |
| Display.Close | modules/video_output/opengl/display_mygl.c:193-205 | Close deletes the state's renderer, and its last call destroys the state's context |
| Display.CloseTearsDown | modules/video_output/opengl/display_mygl.c:199-203 | Close calls make-current, deletes the state's renderer, calls release-current and destroys the state's context, in that order, deleting and releasing once each, whatever make-current returned |
| Display.CloseReleasesContext | modules/video_output/opengl/display_mygl.c:197-203 | Close destroys exactly one context and creates none |
| Display.CloseDisciplinedIff | modules/video_output/opengl/display_mygl.c:199-201 | Close keeps the make-current discipline if and only if its make-current succeeds |
| Display.Pool | modules/video_output/opengl/display_mygl.c:210-220 | the returned pool is the stored pool; context and renderer are unchanged; an existing pool is returned with no call made; a failed make-current leaves the state alone; otherwise the renderer's answer, possibly NULL, is stored |
| Display.PoolAsksRenderer | modules/video_output/opengl/display_mygl.c:214-217 | without a pool and with make-current succeeding, the renderer is asked for `count` pictures between make-current and release-current |
| Display.PoolDisciplined | modules/video_output/opengl/display_mygl.c:214-218 | Pool keeps the make-current discipline |
| Display.PoolFootprint | modules/video_output/opengl/display_mygl.c:210-220 | Pool records one pool creation exactly when it turns a missing pool into a present one; it never creates or destroys a context and releases no picture |
| Display.PoolReused | modules/video_output/opengl/display_mygl.c:214-219 | once a pool exists, any later request returns the same pool, keeps the state and makes no call |
| Display.PictureRender | modules/video_output/opengl/display_mygl.c:222-233 | PictureRender always starts by trying make-current |
| Display.PictureRenderPrepares | modules/video_output/opengl/display_mygl.c:228-232 | the picture and subpicture are handed to the renderer if and only if make-current succeeds, before release-current; nothing is released |
| Display.PictureRenderDisciplined | modules/video_output/opengl/display_mygl.c:228-232 | PictureRender keeps the make-current discipline |
| Display.PictureRenderIgnoresDate | modules/video_output/opengl/display_mygl.c:225 | the date argument has no effect |
| Display.PictureDisplay | modules/video_output/opengl/display_mygl.c:235-248 | PictureDisplay always starts by trying make-current |
| Display.PictureDisplayReleasesInputs | modules/video_output/opengl/display_mygl.c:245-247 | the picture is released exactly once, and the subpicture is deleted exactly once when present; no other picture or subpicture is released, whatever make-current returned |
| Display.PictureDisplayPresents | modules/video_output/opengl/display_mygl.c:239-243 | the source is presented if and only if make-current succeeds, before release-current; no picture is prepared |
| Display.PictureDisplayDisciplined | modules/video_output/opengl/display_mygl.c:239-247 | PictureDisplay keeps the make-current discipline |
| Display.PushPlacement | modules/video_output/opengl/display_mygl.c:277-282 | pushing a placement succeeds exactly when make-current succeeds, and otherwise reports VLC_EGENERIC |
| Display.PushPlacementPushes | modules/video_output/opengl/display_mygl.c:279-281 | a successful push sets the window aspect ratio and then the viewport from the placement, between make-current and release-current, and pushes nothing else |
| Display.PushPlacementFootprint | modules/video_output/opengl/display_mygl.c:277-282 | a failed push sends nothing to the renderer; every push keeps the discipline, leaves the context alone, and neither resizes, sets a viewpoint, asks for a pool nor releases a picture |
| Display.Relayout | modules/video_output/opengl/display_mygl.c:261-283 | a resize-family query succeeds exactly when make-current succeeds, and otherwise reports VLC_EGENERIC |
| Display.RelayoutTrace | modules/video_output/opengl/display_mygl.c:265-282 | a resize-family query first resizes the context to the requested display size, even when make-current then fails; on success it pushes the placement computed from the configuration with TOP and BOTTOM exchanged; on failure it pushes nothing |
| Display.RelayoutFootprint | modules/video_output/opengl/display_mygl.c:276-281 | a resize-family query keeps the discipline, leaves the context alone and releases no picture |
| Display.Control | modules/video_output/opengl/display_mygl.c:250-306 | the resize and source-family queries succeed exactly when make-current succeeds, and otherwise report VLC_EGENERIC; the viewpoint query returns the renderer's answer; every other query, including reset-pictures in a release build, reports VLC_EGENERIC and makes no call |
| Display.ControlResizeThenPush | modules/video_output/opengl/display_mygl.c:261-283 | the display-size, fill and zoom queries resize first, then push the swapped placement on success |
| Display.ControlSourcePush | modules/video_output/opengl/display_mygl.c:285-298 | the source aspect and crop queries push the placement from the stored configuration, unswapped, and never resize the context |
| Display.ControlViewpointForwarded | modules/video_output/opengl/display_mygl.c:299-301 | the viewpoint query forwards the query's viewpoint to the renderer, with no make-current and no placement push |
| Display.ControlFailurePushesNothing | modules/video_output/opengl/display_mygl.c:277-278 | a query that fails pushes no placement into the renderer |
| Display.ControlDisciplined | modules/video_output/opengl/display_mygl.c:250-306 | every query keeps the make-current discipline, leaves the context alone, asks for no pool and releases no picture |
| Display.ResizeSwapsTopAndBottom | modules/video_output/opengl/display_mygl.c:269-275 | a resize-family query asking for TOP is placed as if it asked for BOTTOM, and vice versa; every other alignment is placed as given |
| Session.StepDisciplined | modules/video_output/opengl/display_mygl.c:177-180 | each of the four installed callbacks keeps the make-current discipline, whatever display description is in force |
| Session.StepKeepsHandles | modules/video_output/opengl/display_mygl.c:210-306 | a callback never changes the context or the renderer, never replaces an existing pool, and records a pool creation exactly when it creates one |
| Session.RenderStepFootprint | modules/video_output/opengl/display_mygl.c:222-233 | a prepare call keeps the state, neither creates nor destroys a context, and creates no pool |
| Session.ControlStepFootprint | modules/video_output/opengl/display_mygl.c:250-306 | a control call keeps the state, neither creates nor destroys a context, and creates no pool |
| Session.NoContextChangeWhileDisplaying | modules/video_output/opengl/display_mygl.c:235-248 | displaying neither creates nor destroys a context and creates no pool |
| Session.StepReleases | modules/video_output/opengl/display_mygl.c:235-248 | a callback releases a picture exactly when it is a display callback for that picture |
| Session.RenderStepReleasesNothing | modules/video_output/opengl/display_mygl.c:222-233 | a prepare call releases no picture |
| Session.ControlStepReleasesNothing | modules/video_output/opengl/display_mygl.c:250-306 | a control call releases no picture |
| Session.RunDisciplined | modules/video_output/opengl/display_mygl.c:210-306 | any sequence of callbacks keeps the make-current discipline, with the display description free to change between calls |
| Session.RunKeepsHandles | modules/video_output/opengl/display_mygl.c:210-306 | any sequence of callbacks, under any changing display descriptions, keeps the context and the renderer, never creates or destroys a context, and never replaces an existing pool |
| Session.RunCreatesPoolAtMostOnce | modules/video_output/opengl/display_mygl.c:214-219 | a session, under any changing display descriptions, records one pool creation if it started without a pool and ended with one, and none otherwise |
| Session.RunReleasesDisplayedPictures | modules/video_output/opengl/display_mygl.c:235-248 | in any session, each picture is released once for every time it was handed to the display callback, and a picture never displayed is never released |
| Session.Lifetime | modules/video_output/opengl/display_mygl.c:154-205 | after a successful Open, any callbacks (each under the display description then in force, which may differ from the one Open saw) and Close, exactly one context was created and exactly one destroyed, and the last call destroyed the context Open created; the whole lifetime keeps the make-current discipline whenever Close's make-current succeeds |

## Left out

- The module descriptor (lines 54-97): shortnames, capability scores, shortcuts and the projection and alpha-blend options. Only the build choice between OpenGL and OpenGL ES 2, and with it the option name, is modelled, as `Api`.
- `vout_display_PlacePicture` is outside this file. Control takes it as a parameter `placer`, so the model states which configuration the placement is computed from, not the geometry.
- The window aspect ratio is passed as the float `place.width / place.height`. The model records the whole placement instead, so float rounding and the division by a zero height are not modelled.
- The OpenGL provider and the renderer are outside this file. Their fallible results (context creation, make-current, renderer construction, pool allocation, the viewpoint status) are inputs chosen by the caller. Their internal GL work is not modelled.
- `malloc`/`free` of the private state and `strdup`/`free` of the provider name are not modelled as memory. The outcome of the `malloc` is the `allocOk` input and the outcome of the `strdup` of "glx" is the `nameDupOk` input.
- The `va_list` argument decoding and the `msg_Err` log line for an unknown query are not modelled. Queries arrive as a `Query` datatype, with the configuration or viewpoint they carry.
- The debug-build `vlc_assert_unreachable()` for the reset-pictures query (lines 256-259) is not modelled. The release-build behaviour is modelled: the query falls to the default branch and reports VLC_EGENERIC.
- Threading is not modelled. The video output core serializes the callbacks, and a session is modelled as a sequence of calls.
- The numeric values of the VLC status codes are not modelled; `Status` is an enumeration.
