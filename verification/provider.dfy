/**
 The provider-name policy applied by Open before it creates the GL context:
 VDPAU interop only works through GLX, so on desktop OpenGL, for an X11 window
 and a VDPAU chroma, an unset provider name is forced to "glx".
 */
module Provider {
  import opened Wrappers
  import opened GlTypes

  /** The name of the option the provider name is read from (MODULE_VARNAME):
      "gl" in the desktop OpenGL build, "gles2" in the OpenGL ES 2 build. */
  function ModuleVarName(api: Api): (name: string)
    ensures api == OpenGL ==> name == "gl"
    ensures api == OpenGLES2 ==> name == "gles2"
  {
    match api
    case OpenGL => "gl"
    case OpenGLES2 => "gles2"
  }

  /** The two builds read their provider name from different options. */
  lemma ModuleVarNameDistinct(a: Api, b: Api)
    ensures ModuleVarName(a) == ModuleVarName(b) <==> a == b
  {
    if a != b {
      assert ModuleVarName(a)[|ModuleVarName(a)| - 1] != ModuleVarName(b)[|ModuleVarName(b)| - 1];
    }
  }

  predicate IsVdpau(c: Chroma) {
    c.VdpauVideo444? || c.VdpauVideo422? || c.VdpauVideo420?
  }

  /** The caller did not choose a provider: the option is NULL, empty or "any". */
  predicate IsUnset(name: Option<string>) {
    name.None? || name.value == [] || name.value == "any"
  }

  /** The conditions under which the requested name is overridden. */
  predicate OverrideApplies(api: Api, window: WindowType, chroma: Chroma, requested: Option<string>) {
    api == OpenGL && window == Xid && IsVdpau(chroma) && IsUnset(requested)
  }

  /** The provider name handed to vlc_gl_Create. When the override applies,
      the requested name is replaced by a fresh copy of "glx"; `dupOk` is
      the outcome of that strdup, and a failed copy leaves NULL, which asks
      for the default provider. */
  function ResolveProviderName(api: Api, window: WindowType, chroma: Chroma, requested: Option<string>, dupOk: bool): (r: Option<string>)
    ensures OverrideApplies(api, window, chroma, requested) && dupOk ==> r == Some("glx")
    ensures OverrideApplies(api, window, chroma, requested) && !dupOk ==> r == None
    ensures !OverrideApplies(api, window, chroma, requested) ==> r == requested
    ensures r != requested <==> OverrideApplies(api, window, chroma, requested) && (dupOk || requested.Some?)
  {
    if api == OpenGL && window == Xid then
      match chroma
      case VdpauVideo444 | VdpauVideo422 | VdpauVideo420 =>
        if requested.None? || requested.value == [] || requested.value == "any" then
          (if dupOk then Some("glx") else None)
        else requested
      case OtherChroma(_) => requested
    else
      requested
  }

  /** An explicit provider name, other than "any", is never changed. */
  lemma ExplicitNameKept(api: Api, window: WindowType, chroma: Chroma, name: string, dupOk: bool)
    requires name != [] && name != "any"
    ensures ResolveProviderName(api, window, chroma, Some(name), dupOk) == Some(name)
  {
  }

  /** The OpenGL ES 2 build never overrides the name. */
  lemma Gles2NeverOverrides(window: WindowType, chroma: Chroma, requested: Option<string>, dupOk: bool)
    ensures ResolveProviderName(OpenGLES2, window, chroma, requested, dupOk) == requested
  {
  }

  /** Resolving an already resolved name again, with the same copy outcome,
      changes nothing. */
  lemma ResolveIdempotent(api: Api, window: WindowType, chroma: Chroma, requested: Option<string>, dupOk: bool)
    ensures var once := ResolveProviderName(api, window, chroma, requested, dupOk);
            ResolveProviderName(api, window, chroma, once, dupOk) == once
  {
  }
}
