/**
 * The render registry: a map from renderer names to renderers, seeded on
 * first access with "page" and "bundle", extended by `register`, and read by
 * the deferred dispatch that `to_prepared_render` hands back.
 *
 * The process-wide `OnceLock<RwLock<RenderRegistry>>` becomes one
 * `RenderRegistry` object whose `seeded` field records whether the lock has
 * been initialised.
 */
module Render {
  import opened Wrappers
  import opened Errors
  import opened MkEntry

  /** What running a renderer on one entry ends in. */
  datatype Outcome =
    | Rendered              // the renderer returned `Ok(())`
    | Failed(error: Error)  // the renderer, or the lookup, returned an error
    | Unimplemented         // the renderer's body is `todo!()`

  /**
   * The renderers a registry can hold: the two built-ins and any renderer
   * registered from outside, given by what it returns for a context.
   */
  datatype Renderer =
    | PageRender
    | BundleRender
    | Custom(id: string, render: EntryContext -> Result<(), Error>)

  /** `Render::render` for each kind of renderer. */
  function Run(r: Renderer, ctx: EntryContext): (o: Outcome)
    ensures r.PageRender? ==> o == Rendered
    ensures r.BundleRender? ==> o == Unimplemented
    ensures r.Custom? ==> (o == Rendered <==> r.render(ctx).Ok?)
    ensures r.Custom? && r.render(ctx).Err? ==> o == Failed(r.render(ctx).error)
  {
    match r
    case PageRender => Rendered
    case BundleRender => Unimplemented
    case Custom(_, render) =>
      match render(ctx)
      case Ok(_) => Rendered
      case Err(e) => Failed(e)
  }

  const PageName := "page"
  const BundleName := "bundle"

  /** The map the first access installs. */
  function Builtins(): (m: map<string, Renderer>)
    ensures m.Keys == {PageName, BundleName}
    ensures m[PageName] == PageRender && m[BundleName] == BundleRender
  {
    map[PageName := PageRender, BundleName := BundleRender]
  }

  /**
   * The body of the prepared render: look the entry's renderer name up in
   * the registry's map as it is when the render runs, and run it.
   */
  function Dispatch(m: map<string, Renderer>, ctx: EntryContext): (o: Outcome)
    ensures ctx.entry.meta.renderer !in m ==> o == Failed(RenderNotFound(ctx.entry.meta.renderer))
    ensures ctx.entry.meta.renderer in m ==> o == Run(m[ctx.entry.meta.renderer], ctx)
  {
    var name := ctx.entry.meta.renderer;
    if name in m then Run(m[name], ctx) else Failed(RenderNotFound(name))
  }

  /** A prepared render: the context, with the lookup not yet done. */
  datatype Prepared = Prepared(ctx: EntryContext)

  /** `to_prepared_render`: always succeeds; nothing is looked up yet. */
  function ToPreparedRender(ctx: EntryContext): (r: Result<Prepared, Error>)
    ensures r.Ok? && r.value.ctx == ctx
  {
    Ok(Prepared(ctx))
  }

  class RenderRegistry {
    /** The name-to-renderer map (the `map` field of the source). */
    var renderers: map<string, Renderer>
    /** Whether the lazy initialisation has run. */
    var seeded: bool

    /** Nothing is stored before seeding, and the built-in names are never removed. */
    ghost predicate Valid()
      reads this
    {
      && (!seeded ==> renderers == map[])
      && (seeded ==> PageName in renderers && BundleName in renderers)
    }

    /** The registry before anything touches it. */
    constructor ()
      ensures Valid() && !seeded && renderers == map[]
    {
      renderers := map[];
      seeded := false;
    }

    /**
     * `RenderRegistry::new`: the first call installs the built-ins; later
     * calls see the map as it is.
     */
    method Access()
      requires Valid()
      modifies this
      ensures Valid() && seeded
      ensures renderers == if old(seeded) then old(renderers) else Builtins()
    {
      if !seeded {
        renderers := Builtins();
        seeded := true;
      }
    }

    /** `register`: seed first, then insert or overwrite `key`. */
    method Register(key: string, r: Renderer)
      requires Valid()
      modifies this
      ensures Valid() && seeded
      ensures renderers == (if old(seeded) then old(renderers) else Builtins())[key := r]
      ensures PageName in renderers && BundleName in renderers
    {
      Access();
      renderers := renderers[key := r];
    }

    /** `fetch`: an exact-key lookup that changes nothing. */
    function Fetch(key: string): (r: Option<Renderer>)
      reads this
      ensures r.Some? <==> key in renderers
      ensures r.Some? ==> r.value == renderers[key]
    {
      if key in renderers then Some(renderers[key]) else None
    }

    /** Running a prepared render: access the registry, then dispatch. */
    method RunPrepared(p: Prepared) returns (o: Outcome)
      requires Valid()
      modifies this
      ensures Valid() && seeded
      ensures renderers == if old(seeded) then old(renderers) else Builtins()
      ensures o == Dispatch(renderers, p.ctx)
    {
      Access();
      var name := p.ctx.entry.meta.renderer;
      match Fetch(name)
      case Some(r) => o := Run(r, p.ctx);
      case None => o := Failed(RenderNotFound(name));
    }
  }

  /** On a fresh registry, "page" renders and "bundle" is the unimplemented one. */
  method FreshRegistryBuiltins(ctx: EntryContext) returns (page: Outcome, bundle: Outcome)
    ensures page == Rendered
    ensures bundle == Unimplemented
  {
    var reg := new RenderRegistry();
    var p := ToPreparedRender(ctx.(entry := ctx.entry.(meta := ctx.entry.meta.(renderer := PageName))));
    page := reg.RunPrepared(p.value);
    var b := ToPreparedRender(ctx.(entry := ctx.entry.(meta := ctx.entry.meta.(renderer := BundleName))));
    bundle := reg.RunPrepared(b.value);
  }

  /** A name nobody registered fails with `RenderNotFound` carrying that name. */
  method UnknownRenderer(ctx: EntryContext) returns (o: Outcome)
    requires ctx.entry.meta.renderer != PageName && ctx.entry.meta.renderer != BundleName
    ensures o == Failed(RenderNotFound(ctx.entry.meta.renderer))
  {
    var reg := new RenderRegistry();
    var p := ToPreparedRender(ctx);
    o := reg.RunPrepared(p.value);
  }

  /**
   * The lookup happens when the prepared render runs: a renderer registered
   * after `to_prepared_render` and before the run is the one used, and a
   * registration under a built-in name replaces the built-in.
   */
  method RegisteredLateIsUsed(ctx: EntryContext, r: Renderer) returns (o: Outcome)
    ensures o == Run(r, ctx)
  {
    var reg := new RenderRegistry();
    var p := ToPreparedRender(ctx);
    reg.Register(ctx.entry.meta.renderer, r);
    o := reg.RunPrepared(p.value);
  }

  /** Registering a renderer under another name leaves "page" rendering successfully. */
  method PageSurvivesRegistration(ctx: EntryContext, key: string, r: Renderer) returns (o: Outcome)
    requires key != PageName
    requires ctx.entry.meta.renderer == PageName
    ensures o == Rendered
  {
    var reg := new RenderRegistry();
    reg.Register(key, r);
    o := reg.RunPrepared(Prepared(ctx));
  }
}
