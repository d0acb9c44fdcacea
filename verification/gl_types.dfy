/**
 The data the OpenGL display controller works on: the objects it receives from
 the video-output core (display configuration, formats, pictures) and the
 opaque handles it receives from the OpenGL provider and the renderer.
 Handles are compared only for identity, so each is a numbered box.
 */
module GlTypes {

  /** The graphics API flavour, fixed when the plugin is built: desktop OpenGL,
      or OpenGL ES 2 when USE_OPENGL_ES2 is defined. */
  datatype Api = OpenGL | OpenGLES2

  /** The return codes the controller produces: VLC_SUCCESS, VLC_EGENERIC, VLC_ENOMEM. */
  datatype Status = Success | EGeneric | ENoMem

  /** The kind of native window the surface wraps; only an X11 window (XID)
      matters to the controller. */
  datatype WindowType = Xid | OtherWindow

  /** The chroma (fourcc) of the negotiated picture format; the three VDPAU
      surface chromas are the ones the controller looks at. */
  datatype Chroma = VdpauVideo444 | VdpauVideo422 | VdpauVideo420 | OtherChroma(fourcc: nat)

  /** One value of the display alignment enumeration. */
  datatype Align = Center | Left | Right | Top | Bottom

  datatype Alignment = Alignment(horizontal: Align, vertical: Align)

  /** The 360-degree viewpoint (yaw, pitch, roll, field of view); the
      controller only passes it on, so it is opaque here. */
  datatype Viewpoint = Viewpoint(id: nat)

  /** The display configuration (vout_display_cfg_t): window, display size in
      pixels, alignment, fill mode, zoom and viewpoint. */
  datatype DisplayCfg = DisplayCfg(
    window: WindowType,
    width: nat,
    height: nat,
    align: Alignment,
    isDisplayFilled: bool,
    zoomNum: nat,
    zoomDen: nat,
    viewpoint: Viewpoint)

  /** A picture format (video_format_t), reduced to what the controller reads
      or hands on. */
  datatype VideoFormat = VideoFormat(chroma: Chroma, width: nat, height: nat)

  /** The parts of vout_display_t the controller reads: the negotiated format
      (fmt), the source format (source) and the configuration (cfg). */
  datatype VoutDisplay = VoutDisplay(fmt: VideoFormat, source: VideoFormat, cfg: DisplayCfg)

  /** A placement rectangle (vout_display_place_t). */
  datatype Place = Place(x: int, y: int, width: nat, height: nat)

  /** Opaque handles: the GL context (vlc_gl_t), the renderer
      (vout_display_opengl_t), the picture pool, and the caller's pictures. */
  datatype Context = Context(id: nat)
  datatype Renderer = Renderer(id: nat)
  datatype PicturePool = PicturePool(id: nat)
  datatype Picture = Picture(id: nat)
  datatype Subpicture = Subpicture(id: nat)

  /** The control queries, each with the argument it carries. The three
      resize-family queries and the viewpoint query carry a configuration;
      the source queries read the stored one. Any other query code is
      OtherQuery. */
  datatype Query =
    | ChangeDisplaySize(cfg: DisplayCfg)
    | ChangeDisplayFilled(cfg: DisplayCfg)
    | ChangeZoom(cfg: DisplayCfg)
    | ChangeSourceAspect
    | ChangeSourceCrop
    | ChangeViewpoint(cfg: DisplayCfg)
    | ResetPictures
    | OtherQuery(code: int)
  {
    /** The queries that carry a new display configuration to lay out. */
    predicate IsResizeFamily() {
      ChangeDisplaySize? || ChangeDisplayFilled? || ChangeZoom?
    }

    /** The queries that re-place the picture from the stored configuration. */
    predicate IsSourceFamily() {
      ChangeSourceAspect? || ChangeSourceCrop?
    }
  }
}
