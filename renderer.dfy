/**
 * The deferred renderer (`sigma::opengl::renderer`) as bookkeeping over an event
 * trace.  A frame draws the geometry into the G-buffer, adds every light into
 * one of two accumulation images while sampling the other, swaps the two, and
 * draws the result to the screen with gamma conversion.
 *
 * Each GL call the properties need becomes an `Event` appended to `trace`; the
 * GL state changes in between (blend, depth, cull, viewport, uniforms) are not
 * recorded.
 */
module Renderer {
  import opened Scene
  import opened RenderTokens
  import opened TokenSort
  import opened Cascades

  /** `sizeof(unsigned int)`: draw offsets are byte offsets into the index buffer. */
  const INDEX_BYTES: nat := 4

  /** `shadow_textures_.size()`, fixed by `create_shadow_maps`. */
  const SHADOW_MAP_COUNT: nat := 3

  /** `cascade_frustums_.size()`, fixed by the constructor. */
  const CASCADE_COUNT: nat := 3

  /** The renderer settings that steer the passes, with the shadow technique already looked up. */
  datatype Settings = Settings(enableImageBasedLighting: bool, shadowTechnique: Ptr)

  /** What a renderer is created with: the look-ups of the token collector, the cascade split formula and the settings. */
  datatype Config = Config(lookups: Lookups, formula: SplitFormula, settings: Settings)

  datatype DirectionalLight = DirectionalLight(castShadows: bool)
  datatype PointLight = PointLight(position: Position)
  datatype SpotLight = SpotLight(shadowFrustum: Frustum, castShadows: bool)

  /** The world's `for_each` over mesh instances and over each kind of light, in iteration order. */
  datatype World = World(instances: seq<Instance>, directionalLights: seq<DirectionalLight>,
                         pointLights: seq<PointLight>, spotLights: seq<SpotLight>)

  /** The targets cleared: the G-buffer, the bound shadow map, the default framebuffer (bound first). */
  datatype ClearTarget = GeometryTargets | ShadowMap | DefaultFramebuffer

  /** The post-process effects drawn with `draw_effect_mesh`. */
  datatype Effect = ImageBasedLightEffect | DirectionalLightEffect | PointLightEffect | SpotLightEffect | GammaConversionEffect

  /** How a draw loop binds its tokens: with their own technique and material, or with the shadow technique. */
  datatype DrawMode = GeometryMode | ShadowMode(technique: Ptr)

  datatype Event =
    | GeometryWrite(drawn: nat, sampled: nat)     // bind_for_geometry_write: draws into IMAGE_ATTACHMENTS[drawn], samples accumulation[sampled]
    | GeometryRead(sampled: nat, drawn: nat)      // bind_for_geometry_read: samples accumulation[sampled], draws into IMAGE_ATTACHMENTS[drawn]
    | ShadowWrite(index: nat)                     // bind_for_shadow_write(index)
    | ShadowRead(index: nat)                      // shadow map `index` bound to SHADOW_MAP0 + index
    | Clear(target: ClearTarget)
    | BindShadowTechnique(technique: Ptr)
    | BindMaterial(technique: Ptr, material: Ptr) // technique->bind(..., material->data, ...)
    | SetInstanceMatrices(technique: Ptr, matrices: InstanceMatrices)
    | BindBatch(batch: nat)                       // static_meshes_.bind_batch
    | DrawElements(count: nat, byteOffset: nat, baseVertex: int)
    | DrawEffect(effect: Effect)

  // ---------------------------------------------------------------------------
  // Filtering a trace
  // ---------------------------------------------------------------------------

  /** The events of `evs` that satisfy `keep`, in order. */
  function Filter(evs: seq<Event>, keep: Event -> bool): seq<Event>
  {
    if evs == [] then []
    else Filter(evs[..|evs| - 1], keep) + (if keep(evs[|evs| - 1]) then [evs[|evs| - 1]] else [])
  }

  lemma {:induction false} FilterAppend(a: seq<Event>, b: seq<Event>, keep: Event -> bool)
    ensures Filter(a + b, keep) == Filter(a, keep) + Filter(b, keep)
    decreases |b|
  {
    if b == [] {
      assert a + b == a;
    } else {
      assert (a + b)[..|a + b| - 1] == a + b[..|b| - 1];
      FilterAppend(a, b[..|b| - 1], keep);
    }
  }

  /** Filtering one more event keeps it exactly when `keep` holds for it. */
  lemma FilterSnoc(evs: seq<Event>, e: Event, keep: Event -> bool)
    ensures Filter(evs + [e], keep) == Filter(evs, keep) + (if keep(e) then [e] else [])
  {
    assert (evs + [e])[..|evs + [e]| - 1] == evs;
  }

  lemma {:induction false} FilterNone(evs: seq<Event>, keep: Event -> bool)
    requires forall e :: e in evs ==> !keep(e)
    ensures Filter(evs, keep) == []
  {
    if evs != [] {
      var init := evs[..|evs| - 1];
      assert forall e :: e in init ==> e in evs;
      FilterNone(init, keep);
    }
  }

  lemma {:induction false} FilterAll(evs: seq<Event>, keep: Event -> bool)
    requires forall e :: e in evs ==> keep(e)
    ensures Filter(evs, keep) == evs
  {
    if evs != [] {
      var init := evs[..|evs| - 1];
      assert forall e :: e in init ==> e in evs;
      FilterAll(init, keep);
      assert init + [evs[|evs| - 1]] == evs;
    }
  }

  /** Accumulation-image binds and effect draws: the outline of a frame. */
  predicate Marks(e: Event)
  {
    e.GeometryRead? || e.GeometryWrite? || e.DrawEffect?
  }

  predicate IsDraw(e: Event) { e.DrawElements? }

  predicate IsBatchBind(e: Event) { e.BindBatch? }

  /** `n` copies of `block`. */
  function Repeat(block: seq<Event>, n: nat): (r: seq<Event>)
    ensures |r| == n * |block|
  {
    if n == 0 then [] else Repeat(block, n - 1) + block
  }

  // ---------------------------------------------------------------------------
  // Draw loops
  // ---------------------------------------------------------------------------

  /** The binds of one token before its draw: its technique (and material), then its batch unless `last_batch` matches. */
  function TokenBinds(t: RenderToken, mode: DrawMode): seq<Event>
  {
    TechniqueBinds(t, mode) + BatchBind(t)
  }

  /** The geometry loop binds the token's technique with its material; the shadow loop only sets the matrices. */
  function TechniqueBinds(t: RenderToken, mode: DrawMode): seq<Event>
  {
    match mode
    case GeometryMode => [BindMaterial(t.technique, t.material), SetInstanceMatrices(t.technique, t.matrices)]
    case ShadowMode(s) => [SetInstanceMatrices(s, t.matrices)]
  }

  /** `last_batch` stays `(size_t)-1`, so the batch is bound unless its index is `SIZE_MAX`. */
  function BatchBind(t: RenderToken): seq<Event>
  {
    if t.buffer.batchIndex != SIZE_MAX then [BindBatch(t.buffer.batchIndex)] else []
  }

  /** The draw of one token. */
  function TokenDraw(t: RenderToken): Event
  {
    DrawElements(t.count, INDEX_BYTES * (t.buffer.baseIndex + t.offset), t.buffer.baseVertex)
  }

  /** The events of a draw loop over `ts`. */
  function DrawLoopEvents(ts: seq<RenderToken>, mode: DrawMode): seq<Event>
  {
    if ts == [] then [] else DrawLoopEvents(ts[..|ts| - 1], mode) + TokenBinds(ts[|ts| - 1], mode) + [TokenDraw(ts[|ts| - 1])]
  }

  /** The batch binds a loop over `ts` should issue: one for every token whose batch index is not `SIZE_MAX`. */
  function BatchBindsFor(ts: seq<RenderToken>): seq<Event>
  {
    if ts == [] then []
    else
      var t := ts[|ts| - 1];
      BatchBindsFor(ts[..|ts| - 1]) + (if t.buffer.batchIndex != SIZE_MAX then [BindBatch(t.buffer.batchIndex)] else [])
  }

  /** The events of a draw loop over one more token. */
  lemma DrawLoopStep(tokens: seq<RenderToken>, i: nat, mode: DrawMode)
    requires i < |tokens|
    ensures DrawLoopEvents(tokens[..i + 1], mode)
         == DrawLoopEvents(tokens[..i], mode) + (TokenBinds(tokens[i], mode) + [TokenDraw(tokens[i])])
  {
    assert tokens[..i + 1][..i] == tokens[..i];
    assert tokens[..i + 1][i] == tokens[i];
    AppendAssoc(DrawLoopEvents(tokens[..i], mode), TokenBinds(tokens[i], mode), [TokenDraw(tokens[i])]);
  }

  /** Filtering a draw loop's events token by token. */
  lemma DrawLoopFilter(ts: seq<RenderToken>, mode: DrawMode, keep: Event -> bool)
    requires ts != []
    ensures Filter(DrawLoopEvents(ts, mode), keep)
         == Filter(DrawLoopEvents(ts[..|ts| - 1], mode), keep) + Filter(TokenBinds(ts[|ts| - 1], mode), keep)
            + Filter([TokenDraw(ts[|ts| - 1])], keep)
  {
    var init, t := ts[..|ts| - 1], ts[|ts| - 1];
    FilterAppend(DrawLoopEvents(init, mode) + TokenBinds(t, mode), [TokenDraw(t)], keep);
    FilterAppend(DrawLoopEvents(init, mode), TokenBinds(t, mode), keep);
  }

  /** A token's draw follows its binds, which hold no draw. */
  lemma TokenDrawsOnce(t: RenderToken, mode: DrawMode)
    ensures Filter(TokenBinds(t, mode), IsDraw) == [] && Filter([TokenDraw(t)], IsDraw) == [TokenDraw(t)]
  {
    FilterNone(TokenBinds(t, mode), IsDraw);
    FilterAll([TokenDraw(t)], IsDraw);
  }

  /** The draws of a loop over `ts`, one per token in stream order. */
  function DrawsFor(ts: seq<RenderToken>): seq<Event>
  {
    if ts == [] then [] else DrawsFor(ts[..|ts| - 1]) + [TokenDraw(ts[|ts| - 1])]
  }

  /**
   * Draw `k` of a loop over `ts` draws token `k`: its index count, at byte offset
   * `sizeof(unsigned int) * (base_index + offset)` of its batch, from its base vertex.
   */
  lemma {:induction false} DrawsForTokens(ts: seq<RenderToken>)
    ensures |DrawsFor(ts)| == |ts|
    ensures forall k :: 0 <= k < |ts| ==>
      DrawsFor(ts)[k] == DrawElements(ts[k].count, INDEX_BYTES * (ts[k].buffer.baseIndex + ts[k].offset), ts[k].buffer.baseVertex)
  {
    if ts != [] {
      var init := ts[..|ts| - 1];
      DrawsForTokens(init);
      forall k | 0 <= k < |init| ensures ts[k] == init[k] && DrawsFor(ts)[k] == DrawsFor(init)[k] {}
    }
  }

  /** A draw loop issues exactly the draws `DrawsFor(ts)`: nothing but the token draws, in stream order. */
  lemma {:induction false} DrawLoopDraws(ts: seq<RenderToken>, mode: DrawMode)
    ensures Filter(DrawLoopEvents(ts, mode), IsDraw) == DrawsFor(ts)
  {
    if ts != [] {
      DrawLoopDraws(ts[..|ts| - 1], mode);
      DrawLoopFilter(ts, mode, IsDraw);
      TokenDrawsOnce(ts[|ts| - 1], mode);
    }
  }

  /** A token's binds hold its batch bind and nothing else of that kind, and its draw none. */
  lemma TokenBatchBinds(t: RenderToken, mode: DrawMode)
    ensures Filter(TokenBinds(t, mode), IsBatchBind) == BatchBind(t) && Filter([TokenDraw(t)], IsBatchBind) == []
  {
    var technique := TechniqueBinds(t, mode);
    FilterAppend(technique, BatchBind(t), IsBatchBind);
    FilterNone(technique, IsBatchBind);
    FilterAll(BatchBind(t), IsBatchBind);
    FilterNone([TokenDraw(t)], IsBatchBind);
  }

  /** Since `last_batch` is never updated, a batch is bound before every draw whose batch index is not `SIZE_MAX`. */
  lemma {:induction false} DrawLoopBatchBinds(ts: seq<RenderToken>, mode: DrawMode)
    ensures Filter(DrawLoopEvents(ts, mode), IsBatchBind) == BatchBindsFor(ts)
  {
    if ts != [] {
      DrawLoopBatchBinds(ts[..|ts| - 1], mode);
      DrawLoopFilter(ts, mode, IsBatchBind);
      TokenBatchBinds(ts[|ts| - 1], mode);
    }
  }

  /** A draw loop neither binds accumulation images nor draws effects. */
  lemma {:induction false} DrawLoopUnmarked(ts: seq<RenderToken>, mode: DrawMode)
    ensures forall e :: e in DrawLoopEvents(ts, mode) ==> !Marks(e)
  {
    if ts != [] {
      DrawLoopUnmarked(ts[..|ts| - 1], mode);
    }
  }

  // ---------------------------------------------------------------------------
  // The events of each pass
  // ---------------------------------------------------------------------------

  /** `render_to_shadow_map`: bind and clear the shadow map; collect, sort and draw only when casting shadows. */
  function ShadowMapEvents(cfg: Config, view: Frustum, index: nat, world: World, cast: bool): seq<Event>
    // The shadow technique's path reads no material slot, but `StreamTokens` is defined for
    // well-formed worlds only; every caller draws after the geometry pass, which needs it anyway.
    requires AllWellFormed(world.instances)
  {
    [ShadowWrite(index), Clear(ShadowMap)] +
    (if cast then
       var s := cfg.settings.shadowTechnique;
       [BindShadowTechnique(s)] + DrawLoopEvents(SortedTokens(StreamTokens(cfg.lookups, view, world.instances, s)), ShadowMode(s))
     else [])
  }

  /** The shadow maps of the first `n` cascades, map `i` rendered from cascade `i`. */
  function CascadeShadowEvents(cfg: Config, cascades: seq<Frustum>, world: World, cast: bool, n: nat): seq<Event>
    requires AllWellFormed(world.instances) && n <= |cascades|
  {
    if n == 0 then []
    else CascadeShadowEvents(cfg, cascades, world, cast, n - 1) + ShadowMapEvents(cfg, cascades[n - 1], n - 1, world, cast)
  }

  /** `bind_for_shadow_read` over the first `n` shadow maps. */
  function ShadowReadEvents(n: nat): seq<Event>
  {
    if n == 0 then [] else ShadowReadEvents(n - 1) + [ShadowRead(n - 1)]
  }

  /** One directional light: cascades, one shadow map per cascade, then the light drawn over the accumulation image. */
  function DirectionalLightEvents(cfg: Config, view: Frustum, world: World, input: nat, output: nat, light: DirectionalLight): seq<Event>
    requires AllWellFormed(world.instances)
  {
    var cascades := CascadeFrustums(cfg.formula, view, CASCADE_COUNT);
    CascadeShadowEvents(cfg, cascades, world, light.castShadows, |cascades|)
    + [GeometryRead(input, output)] + ShadowReadEvents(SHADOW_MAP_COUNT) + [DrawEffect(DirectionalLightEffect)]
  }

  /** The first `n` directional lights. */
  function DirectionalPassEvents(cfg: Config, view: Frustum, world: World, input: nat, output: nat, n: nat): seq<Event>
    requires AllWellFormed(world.instances) && n <= |world.directionalLights|
  {
    if n == 0 then []
    else DirectionalPassEvents(cfg, view, world, input, output, n - 1)
         + DirectionalLightEvents(cfg, view, world, input, output, world.directionalLights[n - 1])
  }

  /** `point_light_pass`: one read bind, then one effect draw per point light. */
  function PointPassEvents(input: nat, output: nat, n: nat): seq<Event>
  {
    [GeometryRead(input, output)] + Repeat([DrawEffect(PointLightEffect)], n)
  }

  /** One spot light: its shadow map into map 0, then the light drawn over the accumulation image. */
  function SpotLightEvents(cfg: Config, world: World, input: nat, output: nat, light: SpotLight): seq<Event>
    requires AllWellFormed(world.instances)
  {
    ShadowMapEvents(cfg, light.shadowFrustum, 0, world, light.castShadows)
    + [GeometryRead(input, output)] + ShadowReadEvents(SHADOW_MAP_COUNT) + [DrawEffect(SpotLightEffect)]
  }

  /** The first `n` spot lights. */
  function SpotPassEvents(cfg: Config, world: World, input: nat, output: nat, n: nat): seq<Event>
    requires AllWellFormed(world.instances) && n <= |world.spotLights|
  {
    if n == 0 then []
    else SpotPassEvents(cfg, world, input, output, n - 1) + SpotLightEvents(cfg, world, input, output, world.spotLights[n - 1])
  }

  /** `light_pass`: image-based lighting when enabled, then directional, point and spot lights. */
  function LightPassEvents(cfg: Config, view: Frustum, world: World, input: nat, output: nat): seq<Event>
    requires AllWellFormed(world.instances)
  {
    (if cfg.settings.enableImageBasedLighting then [GeometryRead(input, output), DrawEffect(ImageBasedLightEffect)] else [])
    + DirectionalPassEvents(cfg, view, world, input, output, |world.directionalLights|)
    + PointPassEvents(input, output, |world.pointLights|)
    + SpotPassEvents(cfg, world, input, output, |world.spotLights|)
  }

  /** `geometry_pass`: bind the G-buffer for writing, clear it, then draw the sorted geometry tokens. */
  function GeometryPassEvents(cfg: Config, view: Frustum, world: World, input: nat, output: nat): seq<Event>
    requires AllWellFormed(world.instances)
  {
    [GeometryWrite(output, input), Clear(GeometryTargets)]
    + DrawLoopEvents(SortedTokens(StreamTokens(cfg.lookups, view, world.instances, NULL)), GeometryMode)
  }

  /** `render` with the accumulation indices `input` and `output` at its start. */
  function RenderEvents(cfg: Config, view: Frustum, world: World, input: nat, output: nat): seq<Event>
    requires AllWellFormed(world.instances)
  {
    GeometryPassEvents(cfg, view, world, input, output)
    + LightPassEvents(cfg, view, world, input, output)
    + [GeometryRead(output, input), Clear(DefaultFramebuffer), DrawEffect(GammaConversionEffect)]
  }

  // ---------------------------------------------------------------------------
  // The outline of a frame
  // ---------------------------------------------------------------------------

  lemma ShadowMapUnmarked(cfg: Config, view: Frustum, index: nat, world: World, cast: bool)
    requires AllWellFormed(world.instances)
    ensures forall e :: e in ShadowMapEvents(cfg, view, index, world, cast) ==> !Marks(e)
  {
    var s := cfg.settings.shadowTechnique;
    DrawLoopUnmarked(SortedTokens(StreamTokens(cfg.lookups, view, world.instances, s)), ShadowMode(s));
  }

  lemma {:induction false} CascadeShadowUnmarked(cfg: Config, cascades: seq<Frustum>, world: World, cast: bool, n: nat)
    requires AllWellFormed(world.instances) && n <= |cascades|
    ensures forall e :: e in CascadeShadowEvents(cfg, cascades, world, cast, n) ==> !Marks(e)
  {
    if n > 0 {
      CascadeShadowUnmarked(cfg, cascades, world, cast, n - 1);
      ShadowMapUnmarked(cfg, cascades[n - 1], n - 1, world, cast);
    }
  }

  lemma {:induction false} ShadowReadUnmarked(n: nat)
    ensures forall e :: e in ShadowReadEvents(n) ==> !Marks(e)
  {
    if n > 0 {
      ShadowReadUnmarked(n - 1);
    }
  }

  /**
   * A light drawn after its shadow maps, with the shadow maps bound for reading:
   * the outline is one read bind and one effect draw.
   */
  lemma LightOutline(shadows: seq<Event>, binds: seq<Event>, input: nat, output: nat, effect: Effect)
    requires forall e :: e in shadows ==> !Marks(e)
    requires forall e :: e in binds ==> !Marks(e)
    ensures Filter(shadows + [GeometryRead(input, output)] + binds + [DrawEffect(effect)], Marks)
         == [GeometryRead(input, output), DrawEffect(effect)]
  {
    var g, d := GeometryRead(input, output), DrawEffect(effect);
    var lit := shadows + [g];
    FilterNone(shadows, Marks);
    FilterSnoc(shadows, g, Marks);
    assert Filter(lit, Marks) == [g];
    FilterNone(binds, Marks);
    FilterAppend(lit, binds, Marks);
    assert Filter(lit + binds, Marks) == [g];
    FilterSnoc(lit + binds, d, Marks);
  }

  /** One more light whose outline is `block`, after `n - 1` lights with that outline. */
  lemma OutlineStep(init: seq<Event>, last: seq<Event>, block: seq<Event>, n: nat)
    requires n > 0 && Filter(init, Marks) == Repeat(block, n - 1) && Filter(last, Marks) == block
    ensures Filter(init + last, Marks) == Repeat(block, n)
  {
    FilterAppend(init, last, Marks);
  }

  lemma {:induction false} DirectionalOutline(cfg: Config, view: Frustum, world: World, input: nat, output: nat, n: nat)
    requires AllWellFormed(world.instances) && n <= |world.directionalLights|
    ensures Filter(DirectionalPassEvents(cfg, view, world, input, output, n), Marks)
         == Repeat([GeometryRead(input, output), DrawEffect(DirectionalLightEffect)], n)
  {
    if n > 0 {
      var light := world.directionalLights[n - 1];
      var init := DirectionalPassEvents(cfg, view, world, input, output, n - 1);
      var last := DirectionalLightEvents(cfg, view, world, input, output, light);
      assert DirectionalPassEvents(cfg, view, world, input, output, n) == init + last;
      DirectionalOutline(cfg, view, world, input, output, n - 1);
      DirectionalLightOutline(cfg, view, world, input, output, light);
      OutlineStep(init, last, [GeometryRead(input, output), DrawEffect(DirectionalLightEffect)], n);
    }
  }

  lemma DirectionalLightOutline(cfg: Config, view: Frustum, world: World, input: nat, output: nat, light: DirectionalLight)
    requires AllWellFormed(world.instances)
    ensures Filter(DirectionalLightEvents(cfg, view, world, input, output, light), Marks)
         == [GeometryRead(input, output), DrawEffect(DirectionalLightEffect)]
  {
    var cascades := CascadeFrustums(cfg.formula, view, CASCADE_COUNT);
    CascadeShadowUnmarked(cfg, cascades, world, light.castShadows, |cascades|);
    ShadowReadUnmarked(SHADOW_MAP_COUNT);
    LightOutline(CascadeShadowEvents(cfg, cascades, world, light.castShadows, |cascades|), ShadowReadEvents(SHADOW_MAP_COUNT),
                 input, output, DirectionalLightEffect);
  }

  lemma {:induction false} SpotOutline(cfg: Config, world: World, input: nat, output: nat, n: nat)
    requires AllWellFormed(world.instances) && n <= |world.spotLights|
    ensures Filter(SpotPassEvents(cfg, world, input, output, n), Marks)
         == Repeat([GeometryRead(input, output), DrawEffect(SpotLightEffect)], n)
  {
    if n > 0 {
      var light := world.spotLights[n - 1];
      var init := SpotPassEvents(cfg, world, input, output, n - 1);
      var last := SpotLightEvents(cfg, world, input, output, light);
      assert SpotPassEvents(cfg, world, input, output, n) == init + last;
      SpotOutline(cfg, world, input, output, n - 1);
      SpotLightOutline(cfg, world, input, output, light);
      OutlineStep(init, last, [GeometryRead(input, output), DrawEffect(SpotLightEffect)], n);
    }
  }

  lemma SpotLightOutline(cfg: Config, world: World, input: nat, output: nat, light: SpotLight)
    requires AllWellFormed(world.instances)
    ensures Filter(SpotLightEvents(cfg, world, input, output, light), Marks)
         == [GeometryRead(input, output), DrawEffect(SpotLightEffect)]
  {
    ShadowMapUnmarked(cfg, light.shadowFrustum, 0, world, light.castShadows);
    ShadowReadUnmarked(SHADOW_MAP_COUNT);
    LightOutline(ShadowMapEvents(cfg, light.shadowFrustum, 0, world, light.castShadows), ShadowReadEvents(SHADOW_MAP_COUNT),
                 input, output, SpotLightEffect);
  }

  lemma {:induction false} RepeatMarked(block: seq<Event>, n: nat)
    requires forall e :: e in block ==> Marks(e)
    ensures forall e :: e in Repeat(block, n) ==> Marks(e)
  {
    if n > 0 {
      RepeatMarked(block, n - 1);
    }
  }

  /**
   * The light pass, seen through its accumulation binds and effect draws:
   * image-based lighting only when enabled, then every directional light, the
   * point lights after one read bind, then every spot light.  Every read bind
   * samples `input` and draws into `output`.
   */
  function LightOutlineFor(ibl: bool, directional: nat, point: nat, spot: nat, input: nat, output: nat): seq<Event>
  {
    (if ibl then [GeometryRead(input, output), DrawEffect(ImageBasedLightEffect)] else [])
    + Repeat([GeometryRead(input, output), DrawEffect(DirectionalLightEffect)], directional)
    + ([GeometryRead(input, output)] + Repeat([DrawEffect(PointLightEffect)], point))
    + Repeat([GeometryRead(input, output), DrawEffect(SpotLightEffect)], spot)
  }

  lemma LightPassOutline(cfg: Config, view: Frustum, world: World, input: nat, output: nat)
    requires AllWellFormed(world.instances)
    ensures Filter(LightPassEvents(cfg, view, world, input, output), Marks)
         == LightOutlineFor(cfg.settings.enableImageBasedLighting, |world.directionalLights|, |world.pointLights|,
                            |world.spotLights|, input, output)
  {
    var ibl: seq<Event> := if cfg.settings.enableImageBasedLighting then [GeometryRead(input, output), DrawEffect(ImageBasedLightEffect)] else [];
    var d := DirectionalPassEvents(cfg, view, world, input, output, |world.directionalLights|);
    var p := PointPassEvents(input, output, |world.pointLights|);
    var s := SpotPassEvents(cfg, world, input, output, |world.spotLights|);
    assert LightPassEvents(cfg, view, world, input, output) == ibl + d + p + s;
    FilterAll(ibl, Marks);
    DirectionalOutline(cfg, view, world, input, output, |world.directionalLights|);
    RepeatMarked([DrawEffect(PointLightEffect)], |world.pointLights|);
    FilterAll(p, Marks);
    SpotOutline(cfg, world, input, output, |world.spotLights|);
    FilterAppend(ibl + d + p, s, Marks);
    FilterAppend(ibl + d, p, Marks);
    FilterAppend(ibl, d, Marks);
  }

  /** The geometry pass binds the accumulation images once, to draw into `output`, and draws no effect. */
  lemma GeometryPassOutline(cfg: Config, view: Frustum, world: World, input: nat, output: nat)
    requires AllWellFormed(world.instances)
    ensures Filter(GeometryPassEvents(cfg, view, world, input, output), Marks) == [GeometryWrite(output, input)]
  {
    var ts := SortedTokens(StreamTokens(cfg.lookups, view, world.instances, NULL));
    var loop := DrawLoopEvents(ts, GeometryMode);
    assert GeometryPassEvents(cfg, view, world, input, output) == [GeometryWrite(output, input)] + ([Clear(GeometryTargets)] + loop);
    DrawLoopUnmarked(ts, GeometryMode);
    FilterAppend([GeometryWrite(output, input)], [Clear(GeometryTargets)] + loop, Marks);
    FilterAll([GeometryWrite(output, input)], Marks);
    FilterNone([Clear(GeometryTargets)] + loop, Marks);
  }

  lemma CompositeOutline(input: nat, output: nat)
    ensures Filter([GeometryRead(output, input), Clear(DefaultFramebuffer), DrawEffect(GammaConversionEffect)], Marks)
         == [GeometryRead(output, input), DrawEffect(GammaConversionEffect)]
  {
    var g, c, d := GeometryRead(output, input), Clear(DefaultFramebuffer), DrawEffect(GammaConversionEffect);
    FilterSnoc([], g, Marks);
    assert [] + [g] == [g];
    FilterSnoc([g], c, Marks);
    assert [g] + [c] == [g, c];
    FilterSnoc([g, c], d, Marks);
    assert [g, c] + [d] == [g, c, d];
  }

  /**
   * `render`, seen through its accumulation binds and effect draws: the geometry
   * pass draws into `output` while `input` is bound for sampling, the light passes
   * sample `input` and add into `output`, and after the swap the composite samples
   * `output`, the image that the geometry and light passes drew into.
   */
  lemma RenderOutline(cfg: Config, view: Frustum, world: World, input: nat, output: nat)
    requires AllWellFormed(world.instances)
    ensures Filter(RenderEvents(cfg, view, world, input, output), Marks)
         == [GeometryWrite(output, input)]
            + LightOutlineFor(cfg.settings.enableImageBasedLighting, |world.directionalLights|, |world.pointLights|,
                              |world.spotLights|, input, output)
            + [GeometryRead(output, input), DrawEffect(GammaConversionEffect)]
  {
    var g := GeometryPassEvents(cfg, view, world, input, output);
    var l := LightPassEvents(cfg, view, world, input, output);
    var c := [GeometryRead(output, input), Clear(DefaultFramebuffer), DrawEffect(GammaConversionEffect)];
    GeometryPassOutline(cfg, view, world, input, output);
    LightPassOutline(cfg, view, world, input, output);
    CompositeOutline(input, output);
    FilterAppend(g + l, c, Marks);
    FilterAppend(g, l, Marks);
  }

  // ---------------------------------------------------------------------------
  // The renderer
  // ---------------------------------------------------------------------------

  class Renderer {
    const config: Config
    /** `gbuffer_input_image_` and `gbuffer_output_image_`: which accumulation texture is sampled and which drawn into. */
    var gbufferInputImage: nat
    var gbufferOutputImage: nat
    /** `cascade_frustums_`. */
    var cascadeFrustums: seq<Frustum>
    /** `geometry_pass_token_stream_` and `shadow_map_token_stream_`. */
    var geometryTokens: seq<RenderToken>
    var shadowTokens: seq<RenderToken>
    /** The GL calls issued so far. */
    var trace: seq<Event>

    /**
     * The accumulation indices are 0 and 1 in some order, there are three cascades,
     * and both token streams are empty between passes.
     */
    ghost predicate Valid()
      reads this
    {
      gbufferInputImage < 2 && gbufferOutputImage < 2 && gbufferInputImage != gbufferOutputImage &&
      |cascadeFrustums| == CASCADE_COUNT && geometryTokens == [] && shadowTokens == []
    }

    /** Everything but the trace. */
    ghost function State(): (nat, nat, seq<Frustum>, seq<RenderToken>, seq<RenderToken>)
      reads this
    {
      (gbufferInputImage, gbufferOutputImage, cascadeFrustums, geometryTokens, shadowTokens)
    }

    /**
     * The constructor: three default cascades (`cascade_frustums_(3)`), then
     * `create_geometry_buffer`, which starts sampling image 0 and drawing into image 1.
     */
    constructor (config: Config)
      ensures Valid() && this.config == config && trace == []
      ensures gbufferInputImage == 0 && gbufferOutputImage == 1
    {
      this.config := config;
      var blank: Frustum := *;
      cascadeFrustums := [blank, blank, blank];
      geometryTokens := [];
      shadowTokens := [];
      trace := [];
      new;
      CreateGeometryBuffer();
    }

    /** `create_geometry_buffer`, as far as the accumulation indices go. */
    method CreateGeometryBuffer()
      modifies this
      ensures gbufferInputImage == 0 && gbufferOutputImage == 1
      ensures cascadeFrustums == old(cascadeFrustums) && geometryTokens == old(geometryTokens)
      ensures shadowTokens == old(shadowTokens) && trace == old(trace)
    {
      gbufferInputImage := 0;
      gbufferOutputImage := 1;
    }

    /**
     * `geometry_swap_input_image`: both indices step modulo 2, which exchanges
     * them; a second swap restores the first pair.
     */
    method GeometrySwapInputImage()
      requires Valid()
      modifies this
      ensures Valid()
      ensures gbufferOutputImage == (old(gbufferOutputImage) + 1) % 2 && gbufferInputImage == (old(gbufferInputImage) + 1) % 2
      ensures gbufferInputImage == old(gbufferOutputImage) && gbufferOutputImage == old(gbufferInputImage)
      ensures cascadeFrustums == old(cascadeFrustums) && geometryTokens == old(geometryTokens)
      ensures shadowTokens == old(shadowTokens) && trace == old(trace)
    {
      gbufferOutputImage := gbufferOutputImage + 1;
      gbufferOutputImage := gbufferOutputImage % 2;
      gbufferInputImage := gbufferInputImage + 1;
      gbufferInputImage := gbufferInputImage % 2;
    }

    /** `bind_for_geometry_read`: sample the input image, draw into the output image, never the same one. */
    method BindForGeometryRead()
      requires Valid()
      modifies this
      ensures trace == old(trace) + [GeometryRead(gbufferInputImage, gbufferOutputImage)]
      ensures trace[|trace| - 1].sampled != trace[|trace| - 1].drawn
      ensures State() == old(State())
    {
      trace := trace + [GeometryRead(gbufferInputImage, gbufferOutputImage)];
    }

    /** `bind_for_geometry_write`: draw into the output image (and the G-buffer), sample the input image. */
    method BindForGeometryWrite()
      requires Valid()
      modifies this
      ensures trace == old(trace) + [GeometryWrite(gbufferOutputImage, gbufferInputImage)]
      ensures trace[|trace| - 1].sampled != trace[|trace| - 1].drawn
      ensures State() == old(State())
    {
      trace := trace + [GeometryWrite(gbufferOutputImage, gbufferInputImage)];
    }

    /** `bind_for_shadow_read`: every shadow map on its own texture unit, in order. */
    method BindForShadowRead()
      modifies this
      ensures trace == old(trace) + ShadowReadEvents(SHADOW_MAP_COUNT)
      ensures State() == old(State())
    {
      for i := 0 to SHADOW_MAP_COUNT
        invariant trace == old(trace) + ShadowReadEvents(i)
        invariant State() == old(State())
      {
        trace := trace + [ShadowRead(i)];
      }
    }

    /** `bind_for_shadow_write(index)`: shadow map `index` becomes the draw target. */
    method BindForShadowWrite(index: nat)
      requires index < SHADOW_MAP_COUNT
      modifies this
      ensures trace == old(trace) + [ShadowWrite(index)]
      ensures State() == old(State())
    {
      trace := trace + [ShadowWrite(index)];
    }

    /** `draw_effect_mesh`. */
    method DrawEffectMesh(effect: Effect)
      modifies this
      ensures trace == old(trace) + [DrawEffect(effect)]
      ensures State() == old(State())
    {
      trace := trace + [DrawEffect(effect)];
    }

    /** The per-token technique binds of the draw loop: material and matrices, or matrices only. */
    method BindTechnique(token: RenderToken, mode: DrawMode)
      modifies this
      ensures trace == old(trace) + TechniqueBinds(token, mode)
      ensures State() == old(State())
    {
      match mode {
        case GeometryMode =>
          trace := trace + [BindMaterial(token.technique, token.material), SetInstanceMatrices(token.technique, token.matrices)];
        case ShadowMode(s) =>
          trace := trace + [SetInstanceMatrices(s, token.matrices)];
      }
    }

    /** One iteration of the draw loop: the technique binds, the batch bind when the batch differs from `lastBatch`, the draw. */
    method DrawToken(token: RenderToken, mode: DrawMode, lastBatch: nat)
      modifies this
      ensures trace == old(trace) + (TechniqueBinds(token, mode)
                                     + (if token.buffer.batchIndex != lastBatch then [BindBatch(token.buffer.batchIndex)] else [])
                                     + [TokenDraw(token)])
      ensures State() == old(State())
    {
      ghost var batch: seq<Event> := if token.buffer.batchIndex != lastBatch then [BindBatch(token.buffer.batchIndex)] else [];
      BindTechnique(token, mode);
      if token.buffer.batchIndex != lastBatch {
        trace := trace + [BindBatch(token.buffer.batchIndex)];
      }
      assert trace == old(trace) + TechniqueBinds(token, mode) + batch;
      AppendAssoc(old(trace), TechniqueBinds(token, mode), batch);
      trace := trace + [DrawElements(token.count, INDEX_BYTES * (token.buffer.baseIndex + token.offset), token.buffer.baseVertex)];
      AppendAssoc(old(trace), TechniqueBinds(token, mode) + batch, [TokenDraw(token)]);
    }

    /**
     * The draw loop of `geometry_pass` and `render_to_shadow_map`: per token, bind its
     * technique, bind its batch when it differs from `last_batch` (which stays
     * `(size_t)-1`), then draw it.
     */
    method DrawLoop(tokens: seq<RenderToken>, mode: DrawMode)
      modifies this
      ensures trace == old(trace) + DrawLoopEvents(tokens, mode)
      ensures State() == old(State())
    {
      var lastBatch := SIZE_MAX;
      for i := 0 to |tokens|
        invariant trace == old(trace) + DrawLoopEvents(tokens[..i], mode)
        invariant State() == old(State())
      {
        var token := tokens[i];
        DrawToken(token, mode, lastBatch);
        DrawLoopStep(tokens, i, mode);
        AppendAssoc(old(trace), DrawLoopEvents(tokens[..i], mode), TokenBinds(token, mode) + [TokenDraw(token)]);
      }
      assert tokens[..|tokens|] == tokens;
    }

    /**
     * `geometry_pass`: bind for writing, clear, collect the visible tokens, sort them,
     * draw them, and empty the stream again.
     */
    method GeometryPass(view: Frustum, world: World)
      requires Valid() && AllWellFormed(world.instances)
      modifies this
      ensures trace == old(trace) + GeometryPassEvents(config, view, world, gbufferInputImage, gbufferOutputImage)
      ensures State() == old(State()) && Valid()
    {
      ghost var head := [GeometryWrite(gbufferOutputImage, gbufferInputImage), Clear(GeometryTargets)];
      ghost var sorted := SortedTokens(StreamTokens(config.lookups, view, world.instances, NULL));
      BindForGeometryWrite();
      trace := trace + [Clear(GeometryTargets)];
      assert trace == old(trace) + head;
      geometryTokens := FillRenderTokenStream(config.lookups, view, world.instances, geometryTokens, NULL);
      geometryTokens := SortRenderTokenStream(geometryTokens);
      assert geometryTokens == sorted;
      DrawLoop(geometryTokens, GeometryMode);
      assert trace == old(trace) + head + DrawLoopEvents(sorted, GeometryMode);
      AppendAssoc(old(trace), head, DrawLoopEvents(sorted, GeometryMode));
      geometryTokens := [];
    }

    /**
     * `render_to_shadow_map(view, index, world, cast_shadows)`: always bind shadow map
     * `index` and clear it; only when casting shadows, collect whole-mesh tokens with
     * the shadow technique, sort and draw them, and empty the stream.
     */
    method RenderToShadowMap(view: Frustum, index: nat, world: World, cast: bool)
      // Well-formedness is kept for the reason given at `ShadowMapEvents`.
      requires Valid() && AllWellFormed(world.instances) && index < SHADOW_MAP_COUNT
      modifies this
      ensures trace == old(trace) + ShadowMapEvents(config, view, index, world, cast)
      ensures trace[..|old(trace)| + 2] == old(trace) + [ShadowWrite(index), Clear(ShadowMap)]
      ensures !cast ==> trace == old(trace) + [ShadowWrite(index), Clear(ShadowMap)]
      ensures State() == old(State()) && Valid()
    {
      ghost var head := [ShadowWrite(index), Clear(ShadowMap)];
      BindForShadowWrite(index);
      trace := trace + [Clear(ShadowMap)];
      assert trace == old(trace) + head;
      if cast {
        var technique := config.settings.shadowTechnique;
        ghost var sorted := SortedTokens(StreamTokens(config.lookups, view, world.instances, technique));
        trace := trace + [BindShadowTechnique(technique)];
        shadowTokens := FillRenderTokenStream(config.lookups, view, world.instances, shadowTokens, technique);
        shadowTokens := SortRenderTokenStream(shadowTokens);
        assert shadowTokens == sorted;
        DrawLoop(shadowTokens, ShadowMode(technique));
        ghost var draws := DrawLoopEvents(sorted, ShadowMode(technique));
        AppendAssoc(old(trace) + head, [BindShadowTechnique(technique)], draws);
        AppendAssoc(old(trace), head, [BindShadowTechnique(technique)] + draws);
        shadowTokens := [];
      } else {
        assert head + [] == head;
      }
    }

    /** `image_based_light_pass`. */
    method ImageBasedLightPass()
      requires Valid()
      modifies this
      ensures trace == old(trace) + [GeometryRead(gbufferInputImage, gbufferOutputImage), DrawEffect(ImageBasedLightEffect)]
      ensures State() == old(State())
    {
      BindForGeometryRead();
      DrawEffectMesh(ImageBasedLightEffect);
    }

    /**
     * `directional_light_pass`: per directional light, recompute the cascades, render
     * one shadow map per cascade, then draw the light over the accumulation image.
     */
    method DirectionalLightPass(view: Frustum, world: World)
      requires Valid() && AllWellFormed(world.instances)
      modifies this
      ensures trace == old(trace) + DirectionalPassEvents(config, view, world, gbufferInputImage, gbufferOutputImage,
                                                           |world.directionalLights|)
      ensures Valid()
      ensures gbufferInputImage == old(gbufferInputImage) && gbufferOutputImage == old(gbufferOutputImage)
      ensures cascadeFrustums == if world.directionalLights == [] then old(cascadeFrustums)
                                 else CascadeFrustums(config.formula, view, CASCADE_COUNT)
    {
      var lights := world.directionalLights;
      for k := 0 to |lights|
        invariant Valid()
        invariant gbufferInputImage == old(gbufferInputImage) && gbufferOutputImage == old(gbufferOutputImage)
        invariant cascadeFrustums == if k == 0 then old(cascadeFrustums) else CascadeFrustums(config.formula, view, CASCADE_COUNT)
        invariant trace == old(trace) + DirectionalPassEvents(config, view, world, gbufferInputImage, gbufferOutputImage, k)
      {
        ghost var events := DirectionalLightEvents(config, view, world, gbufferInputImage, gbufferOutputImage, lights[k]);
        DirectionalLight(view, world, lights[k]);
        AppendAssoc(old(trace), DirectionalPassEvents(config, view, world, gbufferInputImage, gbufferOutputImage, k), events);
      }
    }

    /** One iteration of `directional_light_pass`: cascades, their shadow maps, then the light. */
    method DirectionalLight(view: Frustum, world: World, light: DirectionalLight)
      requires Valid() && AllWellFormed(world.instances)
      modifies this
      ensures trace == old(trace) + DirectionalLightEvents(config, view, world, gbufferInputImage, gbufferOutputImage, light)
      ensures Valid() && cascadeFrustums == CascadeFrustums(config.formula, view, CASCADE_COUNT)
      ensures gbufferInputImage == old(gbufferInputImage) && gbufferOutputImage == old(gbufferOutputImage)
    {
      cascadeFrustums := CalculateCascadeFrustums(config.formula, view, cascadeFrustums);
      CascadeShadowMaps(world, light.castShadows);
      ghost var events := CascadeShadowEvents(config, cascadeFrustums, world, light.castShadows, |cascadeFrustums|);
      BindForGeometryRead();
      AppendAssoc(old(trace), events, [GeometryRead(gbufferInputImage, gbufferOutputImage)]);
      events := events + [GeometryRead(gbufferInputImage, gbufferOutputImage)];
      BindForShadowRead();
      AppendAssoc(old(trace), events, ShadowReadEvents(SHADOW_MAP_COUNT));
      events := events + ShadowReadEvents(SHADOW_MAP_COUNT);
      DrawEffectMesh(DirectionalLightEffect);
      AppendAssoc(old(trace), events, [DrawEffect(DirectionalLightEffect)]);
    }

    /** The shadow-map loop of `directional_light_pass`: map `i` rendered from cascade `i`. */
    method CascadeShadowMaps(world: World, cast: bool)
      requires Valid() && AllWellFormed(world.instances)
      modifies this
      ensures State() == old(State()) && Valid()
      ensures trace == old(trace) + CascadeShadowEvents(config, cascadeFrustums, world, cast, |cascadeFrustums|)
    {
      for i := 0 to SHADOW_MAP_COUNT
        invariant State() == old(State()) && Valid()
        invariant trace == old(trace) + CascadeShadowEvents(config, cascadeFrustums, world, cast, i)
      {
        ghost var shadows := CascadeShadowEvents(config, cascadeFrustums, world, cast, i);
        RenderToShadowMap(cascadeFrustums[i], i, world, cast);
        AppendAssoc(old(trace), shadows, ShadowMapEvents(config, cascadeFrustums[i], i, world, cast));
      }
    }

    /** `point_light_pass`: bind for reading once, then draw every point light. */
    method PointLightPass(world: World)
      requires Valid()
      modifies this
      ensures trace == old(trace) + PointPassEvents(gbufferInputImage, gbufferOutputImage, |world.pointLights|)
      ensures State() == old(State())
    {
      BindForGeometryRead();
      for k := 0 to |world.pointLights|
        invariant State() == old(State())
        invariant trace == old(trace) + [GeometryRead(gbufferInputImage, gbufferOutputImage)]
                           + Repeat([DrawEffect(PointLightEffect)], k)
      {
        DrawEffectMesh(PointLightEffect);
      }
    }

    /** `spot_light_pass`: per spot light, render its shadow map into map 0, then draw the light. */
    method SpotLightPass(world: World)
      requires Valid() && AllWellFormed(world.instances)
      modifies this
      ensures trace == old(trace) + SpotPassEvents(config, world, gbufferInputImage, gbufferOutputImage, |world.spotLights|)
      ensures State() == old(State())
    {
      for k := 0 to |world.spotLights|
        invariant State() == old(State())
        invariant trace == old(trace) + SpotPassEvents(config, world, gbufferInputImage, gbufferOutputImage, k)
      {
        var light := world.spotLights[k];
        ghost var before := trace;
        RenderToShadowMap(light.shadowFrustum, 0, world, light.castShadows);
        ghost var events := ShadowMapEvents(config, light.shadowFrustum, 0, world, light.castShadows);
        BindForGeometryRead();
        AppendAssoc(before, events, [GeometryRead(gbufferInputImage, gbufferOutputImage)]);
        events := events + [GeometryRead(gbufferInputImage, gbufferOutputImage)];
        BindForShadowRead();
        AppendAssoc(before, events, ShadowReadEvents(SHADOW_MAP_COUNT));
        events := events + ShadowReadEvents(SHADOW_MAP_COUNT);
        DrawEffectMesh(SpotLightEffect);
        AppendAssoc(before, events, [DrawEffect(SpotLightEffect)]);
        events := events + [DrawEffect(SpotLightEffect)];
        assert events == SpotLightEvents(config, world, gbufferInputImage, gbufferOutputImage, light);
        AppendAssoc(old(trace), SpotPassEvents(config, world, gbufferInputImage, gbufferOutputImage, k), events);
      }
    }

    /** `light_pass`: image-based lighting only when enabled, then directional, point and spot lights. */
    method LightPass(view: Frustum, world: World)
      requires Valid() && AllWellFormed(world.instances)
      modifies this
      ensures trace == old(trace) + LightPassEvents(config, view, world, gbufferInputImage, gbufferOutputImage)
      ensures Valid()
      ensures gbufferInputImage == old(gbufferInputImage) && gbufferOutputImage == old(gbufferOutputImage)
      ensures cascadeFrustums == if world.directionalLights == [] then old(cascadeFrustums)
                                 else CascadeFrustums(config.formula, view, CASCADE_COUNT)
    {
      ghost var events: seq<Event> := [];
      if config.settings.enableImageBasedLighting {
        ImageBasedLightPass();
        events := [GeometryRead(gbufferInputImage, gbufferOutputImage), DrawEffect(ImageBasedLightEffect)];
      } else {
        assert trace == old(trace) + events;
      }
      ghost var next := DirectionalPassEvents(config, view, world, gbufferInputImage, gbufferOutputImage, |world.directionalLights|);
      DirectionalLightPass(view, world);
      AppendAssoc(old(trace), events, next);
      events := events + next;
      next := PointPassEvents(gbufferInputImage, gbufferOutputImage, |world.pointLights|);
      PointLightPass(world);
      AppendAssoc(old(trace), events, next);
      events := events + next;
      next := SpotPassEvents(config, world, gbufferInputImage, gbufferOutputImage, |world.spotLights|);
      SpotLightPass(world);
      AppendAssoc(old(trace), events, next);
    }

    /**
     * `render`: the geometry pass, the light pass, the swap, then the composite:
     * bind for reading, clear the default framebuffer and draw the gamma conversion.
     * The composite samples the image the passes drew into, and the next frame draws
     * into the other one.
     */
    method Render(view: Frustum, world: World)
      requires Valid() && AllWellFormed(world.instances)
      modifies this
      ensures trace == old(trace) + RenderEvents(config, view, world, old(gbufferInputImage), old(gbufferOutputImage))
      ensures Valid()
      ensures gbufferInputImage == old(gbufferOutputImage) && gbufferOutputImage == old(gbufferInputImage)
      ensures cascadeFrustums == if world.directionalLights == [] then old(cascadeFrustums)
                                 else CascadeFrustums(config.formula, view, CASCADE_COUNT)
    {
      ghost var events := GeometryPassEvents(config, view, world, gbufferInputImage, gbufferOutputImage);
      GeometryPass(view, world);
      ghost var next := LightPassEvents(config, view, world, gbufferInputImage, gbufferOutputImage);
      LightPass(view, world);
      AppendAssoc(old(trace), events, next);
      events := events + next;
      GeometrySwapInputImage();
      BindForGeometryRead();
      trace := trace + [Clear(DefaultFramebuffer)];
      DrawEffectMesh(GammaConversionEffect);
      assert trace == old(trace) + events + [GeometryRead(old(gbufferOutputImage), old(gbufferInputImage)),
                                             Clear(DefaultFramebuffer), DrawEffect(GammaConversionEffect)];
      AppendAssoc(old(trace), events, [GeometryRead(old(gbufferOutputImage), old(gbufferInputImage)),
                                       Clear(DefaultFramebuffer), DrawEffect(GammaConversionEffect)]);
    }
  }
}
