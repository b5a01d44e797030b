/**
 * The render-token collector of the deferred renderer (`fill_render_token_stream`).
 * Every entity with a transform and a static mesh instance whose bounding sphere
 * lies in the view frustum yields draw tokens: one for the whole mesh when a
 * global technique is given (shadow maps), otherwise one per material slot.
 *
 * The world's `for_each` is a sequence of instances with their mesh and mesh
 * buffer already looked up; the frustum test, the glm products and the cache
 * look-ups are passed in as functions (`Lookups`).
 */
module RenderTokens {
  import opened Scene

  /** The resource identifier of a material. */
  type MaterialId(==)

  /** A mesh's place in the GPU mesh cache (`static_mesh_buffer`): its batch and offsets in that batch. */
  datatype MeshBuffer = MeshBuffer(batchIndex: nat, baseIndex: nat, baseVertex: int)

  /**
   * The parts of a `graphics::static_mesh` the collector reads: its bounding radius,
   * its triangle count, its material slots (first triangle, triangle count) and
   * the material of each slot.
   */
  datatype Mesh = Mesh(radius: Scalar, triangleCount: nat, materialSlots: seq<(nat, nat)>, materials: seq<MaterialId>)

  /** An entity with a `transform` and a `static_mesh_instance`: its position, model matrix, mesh and mesh buffer. */
  datatype Instance = Instance(position: Position, matrix: Matrix, mesh: Mesh, buffer: MeshBuffer)

  /** `render_token::matrices`. */
  datatype InstanceMatrices = InstanceMatrices(model: Matrix, modelView: Matrix, normal: NormalMatrix)

  /** `render_token`: what to draw (buffer, first index, index count), where, with which material and technique. */
  datatype RenderToken = RenderToken(buffer: MeshBuffer, offset: nat, count: nat, matrices: InstanceMatrices,
                                     material: Ptr, technique: Ptr)

  /** The frustum test, the glm operations and the cache look-ups the collector calls. */
  datatype Lookups = Lookups(
    containsSphere: (Frustum, Position, Scalar) -> bool,  // frustum::contains_sphere
    times: (Matrix, Matrix) -> Matrix,                     // view_matrix * model_matrix
    normalMatrix: Matrix -> NormalMatrix,                  // transpose(inverse(mat3(model_matrix)))
    material: MaterialId -> Ptr,                           // MATERIAL_PTR(materials_, id)
    techniqueOf: Ptr -> Ptr)                               // TECHNIQUE_PTR(techniques_, material->data.technique_id)

  /** Every material slot has a material (`mesh->materials[i]` is read for every slot `i`). */
  predicate WellFormed(e: Instance)
  {
    |e.mesh.materialSlots| <= |e.mesh.materials|
  }

  predicate AllWellFormed(world: seq<Instance>)
  {
    forall i :: 0 <= i < |world| ==> WellFormed(world[i])
  }

  /** The instance's bounding sphere passes the frustum test. */
  predicate Visible(lk: Lookups, view: Frustum, e: Instance)
  {
    lk.containsSphere(view, e.position, e.mesh.radius)
  }

  function MatricesOf(lk: Lookups, view: Frustum, e: Instance): InstanceMatrices
  {
    InstanceMatrices(e.matrix, lk.times(view.view, e.matrix), lk.normalMatrix(e.matrix))
  }

  /** The token drawing the whole mesh with the global technique; its material is left null. */
  function WholeMeshToken(lk: Lookups, view: Frustum, e: Instance, technique: Ptr): RenderToken
  {
    RenderToken(e.buffer, 0, 3 * e.mesh.triangleCount, MatricesOf(lk, view, e), NULL, technique)
  }

  /** The token of material slot `i`. */
  function SlotToken(lk: Lookups, view: Frustum, e: Instance, i: nat): RenderToken
    requires WellFormed(e) && i < |e.mesh.materialSlots|
  {
    var material := lk.material(e.mesh.materials[i]);
    RenderToken(e.buffer, 3 * e.mesh.materialSlots[i].0, 3 * e.mesh.materialSlots[i].1,
                MatricesOf(lk, view, e), material, lk.techniqueOf(material))
  }

  /** The tokens of the first `n` material slots, in slot order. */
  function SlotTokens(lk: Lookups, view: Frustum, e: Instance, n: nat): seq<RenderToken>
    requires WellFormed(e) && n <= |e.mesh.materialSlots|
  {
    if n == 0 then [] else SlotTokens(lk, view, e, n - 1) + [SlotToken(lk, view, e, n - 1)]
  }

  /** The tokens one instance contributes. */
  function InstanceTokens(lk: Lookups, view: Frustum, e: Instance, global: Ptr): seq<RenderToken>
    requires WellFormed(e)
  {
    if !Visible(lk, view, e) then []
    else if global != NULL then [WholeMeshToken(lk, view, e, global)]
    else SlotTokens(lk, view, e, |e.mesh.materialSlots|)
  }

  /** The tokens a whole world contributes, instance after instance. */
  function StreamTokens(lk: Lookups, view: Frustum, world: seq<Instance>, global: Ptr): seq<RenderToken>
    requires AllWellFormed(world)
  {
    if world == [] then []
    else StreamTokens(lk, view, world[..|world| - 1], global) + InstanceTokens(lk, view, world[|world| - 1], global)
  }

  /**
   * `fill_render_token_stream(view, world, tokens, global_technique)`: the tokens
   * of every instance are pushed onto the back of `tokens`, so what was there stays
   * as a prefix.
   */
  method FillRenderTokenStream(lk: Lookups, view: Frustum, world: seq<Instance>, tokens: seq<RenderToken>, global: Ptr)
    returns (r: seq<RenderToken>)
    requires AllWellFormed(world)
    ensures r == tokens + StreamTokens(lk, view, world, global)
    ensures |r| >= |tokens| && r[..|tokens|] == tokens
  {
    r := tokens;
    for k := 0 to |world|
      invariant r == tokens + StreamTokens(lk, view, world[..k], global)
    {
      var e := world[k];
      ghost var before := r;
      if lk.containsSphere(view, e.position, e.mesh.radius) {
        var modelView := lk.times(view.view, e.matrix);
        var normal := lk.normalMatrix(e.matrix);
        if global != NULL {
          r := r + [RenderToken(e.buffer, 0, 3 * e.mesh.triangleCount, InstanceMatrices(e.matrix, modelView, normal), NULL, global)];
        } else {
          for i := 0 to |e.mesh.materialSlots|
            invariant r == before + SlotTokens(lk, view, e, i)
          {
            var material := lk.material(e.mesh.materials[i]);
            r := r + [RenderToken(e.buffer, 3 * e.mesh.materialSlots[i].0, 3 * e.mesh.materialSlots[i].1,
                                  InstanceMatrices(e.matrix, modelView, normal), material, lk.techniqueOf(material))];
            AppendAssoc(before, SlotTokens(lk, view, e, i), [SlotToken(lk, view, e, i)]);
          }
        }
      } else {
        assert r == before + [];
      }
      assert r == before + InstanceTokens(lk, view, e, global);
      StreamTokensStep(lk, view, world, k, global);
      AppendAssoc(tokens, StreamTokens(lk, view, world[..k], global), InstanceTokens(lk, view, e, global));
    }
    assert world[..|world|] == world;
  }

  /** The tokens of a world's first `k + 1` instances. */
  lemma StreamTokensStep(lk: Lookups, view: Frustum, world: seq<Instance>, k: nat, global: Ptr)
    requires AllWellFormed(world) && k < |world|
    ensures StreamTokens(lk, view, world[..k + 1], global)
         == StreamTokens(lk, view, world[..k], global) + InstanceTokens(lk, view, world[k], global)
  {
    assert world[..k + 1][..k] == world[..k];
    assert world[..k + 1][k] == world[k];
  }

  /** The world's tokens are those of its parts, in order: a world can be collected piece by piece. */
  lemma {:induction false} StreamTokensAppend(lk: Lookups, view: Frustum, w1: seq<Instance>, w2: seq<Instance>, global: Ptr)
    requires AllWellFormed(w1) && AllWellFormed(w2)
    ensures AllWellFormed(w1 + w2)
    ensures StreamTokens(lk, view, w1 + w2, global) == StreamTokens(lk, view, w1, global) + StreamTokens(lk, view, w2, global)
    decreases |w2|
  {
    assert AllWellFormed(w1 + w2) by {
      forall i | 0 <= i < |w1 + w2| ensures WellFormed((w1 + w2)[i]) {
        if i < |w1| { assert (w1 + w2)[i] == w1[i]; } else { assert (w1 + w2)[i] == w2[i - |w1|]; }
      }
    }
    if w2 != [] {
      var init := w2[..|w2| - 1];
      assert (w1 + w2)[..|w1 + w2| - 1] == w1 + init;
      assert (w1 + w2)[|w1 + w2| - 1] == w2[|w2| - 1];
      assert AllWellFormed(init) by {
        forall i | 0 <= i < |init| ensures WellFormed(init[i]) { assert init[i] == w2[i]; }
      }
      StreamTokensAppend(lk, view, w1, init, global);
    } else {
      assert w1 + w2 == w1;
    }
  }

  /** An instance that fails the frustum test adds no token to the stream. */
  lemma CulledInstanceAddsNothing(lk: Lookups, view: Frustum, world: seq<Instance>, e: Instance, global: Ptr)
    requires AllWellFormed(world) && WellFormed(e) && !Visible(lk, view, e)
    ensures AllWellFormed(world + [e])
    ensures StreamTokens(lk, view, world + [e], global) == StreamTokens(lk, view, world, global)
  {
    StreamTokensAppend(lk, view, world, [e], global);
    assert [e][..0] == [];
  }

  /** The instances that pass the frustum test, in world order. */
  function VisibleInstances(lk: Lookups, view: Frustum, world: seq<Instance>): (vis: seq<Instance>)
    ensures |vis| <= |world|
    ensures forall j :: 0 <= j < |vis| ==> vis[j] in world && Visible(lk, view, vis[j])
    ensures forall i :: 0 <= i < |world| && Visible(lk, view, world[i]) ==> world[i] in vis
  {
    if world == [] then []
    else
      var rest := VisibleInstances(lk, view, world[..|world| - 1]);
      var e := world[|world| - 1];
      if Visible(lk, view, e) then rest + [e] else rest
  }

  /** Filtering a concatenated world filters each part, in order. */
  lemma {:induction false} VisibleInstancesAppend(lk: Lookups, view: Frustum, w1: seq<Instance>, w2: seq<Instance>)
    ensures VisibleInstances(lk, view, w1 + w2) == VisibleInstances(lk, view, w1) + VisibleInstances(lk, view, w2)
    decreases |w2|
  {
    if w2 != [] {
      var init := w2[..|w2| - 1];
      assert (w1 + w2)[..|w1 + w2| - 1] == w1 + init;
      assert (w1 + w2)[|w1 + w2| - 1] == w2[|w2| - 1];
      VisibleInstancesAppend(lk, view, w1, init);
      if Visible(lk, view, w2[|w2| - 1]) {
        AppendAssoc(VisibleInstances(lk, view, w1), VisibleInstances(lk, view, init), [w2[|w2| - 1]]);
      }
    } else {
      assert w1 + w2 == w1;
    }
  }

  /**
   * With a global technique, the stream holds exactly one token per visible
   * instance, in world order: offset 0, three indices per triangle, that technique,
   * and the instance's matrices.
   */
  lemma {:induction false} GlobalTechniqueTokens(lk: Lookups, view: Frustum, world: seq<Instance>, global: Ptr)
    requires AllWellFormed(world) && global != NULL
    ensures var ts, vis := StreamTokens(lk, view, world, global), VisibleInstances(lk, view, world);
      |ts| == |vis| &&
      forall j :: 0 <= j < |ts| ==>
        ts[j].offset == 0 && ts[j].count == 3 * vis[j].mesh.triangleCount && ts[j].technique == global &&
        ts[j].buffer == vis[j].buffer && ts[j].matrices == MatricesOf(lk, view, vis[j])
  {
    if world != [] {
      var init := world[..|world| - 1];
      assert AllWellFormed(init) by {
        forall i | 0 <= i < |init| ensures WellFormed(init[i]) { assert init[i] == world[i]; }
      }
      GlobalTechniqueTokens(lk, view, init, global);
    }
  }

  /**
   * Without a global technique, an instance's tokens are one per material slot in
   * slot order: three indices per triangle of the slot, the slot's material and
   * that material's technique, all with the instance's matrices.
   */
  lemma {:induction false} SlotTokensInOrder(lk: Lookups, view: Frustum, e: Instance, n: nat)
    requires WellFormed(e) && n <= |e.mesh.materialSlots|
    ensures var ts := SlotTokens(lk, view, e, n);
      |ts| == n &&
      forall i :: 0 <= i < n ==>
        ts[i].offset == 3 * e.mesh.materialSlots[i].0 && ts[i].count == 3 * e.mesh.materialSlots[i].1 &&
        ts[i].material == lk.material(e.mesh.materials[i]) && ts[i].technique == lk.techniqueOf(ts[i].material) &&
        ts[i].buffer == e.buffer && ts[i].matrices == MatricesOf(lk, view, e)
  {
    if n > 0 {
      SlotTokensInOrder(lk, view, e, n - 1);
    }
  }

  /** All tokens of one instance share its model, model-view and normal matrices and its mesh buffer. */
  lemma InstanceTokensShareMatrices(lk: Lookups, view: Frustum, e: Instance, global: Ptr)
    requires WellFormed(e)
    ensures forall t :: t in InstanceTokens(lk, view, e, global) ==> t.matrices == MatricesOf(lk, view, e) && t.buffer == e.buffer
    ensures !Visible(lk, view, e) ==> InstanceTokens(lk, view, e, global) == []
    ensures Visible(lk, view, e) && global == NULL ==> |InstanceTokens(lk, view, e, global)| == |e.mesh.materialSlots|
  {
    SlotTokensInOrder(lk, view, e, |e.mesh.materialSlots|);
  }
}
