/**
 * `sigma::graphics::material`: a transparency flag, a map from shader type to
 * shader handle and an ordered list of named texture handles, built from the
 * material's resource data.
 *
 * `resource::handle` is not part of this model: a handle is either empty (its
 * default) or refers to one resource, and two handles are equal when they refer
 * to the same resource.
 */
module Materials {

  /** `graphics::shader_type`. */
  type ShaderType(==)

  /** The identifier a handle is built from. */
  type ResourceId(==)

  /** `resource::handle<...>`: default-constructed handles are `Empty`. */
  datatype Handle = Empty | Handle(id: ResourceId)

  /** `material_data`: the flag, the shaders by type and the named textures, in order. */
  datatype MaterialData = MaterialData(transparent: bool,
                                       shaders: seq<(ShaderType, ResourceId)>,
                                       textures: seq<(string, ResourceId)>)

  /** The shader map after inserting `entries` in order, each with `operator[]` (a later entry for a type wins). */
  ghost function ShaderMap(entries: seq<(ShaderType, ResourceId)>): map<ShaderType, Handle>
  {
    if entries == [] then map[]
    else
      var last := entries[|entries| - 1];
      ShaderMap(entries[..|entries| - 1])[last.0 := Handle(last.1)]
  }

  /** Index `i` holds the last entry for its shader type. */
  ghost predicate LastFor(entries: seq<(ShaderType, ResourceId)>, i: nat)
    requires i < |entries|
  {
    forall j :: i < j < |entries| ==> entries[j].0 != entries[i].0
  }

  /** A type has a shader exactly when some entry names it. */
  lemma {:induction false} ShaderMapKeys(entries: seq<(ShaderType, ResourceId)>, t: ShaderType)
    ensures t in ShaderMap(entries) <==> exists i :: 0 <= i < |entries| && entries[i].0 == t
  {
    if entries != [] {
      var init := entries[..|entries| - 1];
      ShaderMapKeys(init, t);
      if t in ShaderMap(entries) && t != entries[|entries| - 1].0 {
        var i :| 0 <= i < |init| && init[i].0 == t;
        assert entries[i].0 == t;
      }
      if exists i :: 0 <= i < |entries| && entries[i].0 == t {
        var i :| 0 <= i < |entries| && entries[i].0 == t;
        if i < |init| {
          assert init[i].0 == t;
        }
      }
    }
  }

  /** Last write wins: the handle of a type is built from the last entry that names it. */
  lemma {:induction false} ShaderMapLastWins(entries: seq<(ShaderType, ResourceId)>, i: nat)
    requires i < |entries| && LastFor(entries, i)
    ensures entries[i].0 in ShaderMap(entries) && ShaderMap(entries)[entries[i].0] == Handle(entries[i].1)
  {
    var init := entries[..|entries| - 1];
    if i < |init| {
      assert entries[i] == init[i];
      assert LastFor(init, i);
      ShaderMapLastWins(init, i);
    }
  }

  class Material {
    var transparent: bool
    var shaders: map<ShaderType, Handle>
    var textures: seq<(string, Handle)>

    /** `material(data)`: copy the flag, insert the shaders in order, append the textures in order. */
    constructor (data: MaterialData)
      ensures transparent == data.transparent
      ensures shaders == ShaderMap(data.shaders)
      ensures |textures| == |data.textures|
      ensures forall i :: 0 <= i < |textures| ==> textures[i] == (data.textures[i].0, Handle(data.textures[i].1))
    {
      transparent := data.transparent;
      shaders := map[];
      textures := [];
      new;
      for i := 0 to |data.shaders|
        invariant shaders == ShaderMap(data.shaders[..i])
        invariant transparent == data.transparent && textures == []
      {
        assert data.shaders[..i + 1][..i] == data.shaders[..i];
        shaders := shaders[data.shaders[i].0 := Handle(data.shaders[i].1)];
      }
      assert data.shaders[..|data.shaders|] == data.shaders;
      for i := 0 to |data.textures|
        invariant |textures| == i
        invariant forall k :: 0 <= k < i ==> textures[k] == (data.textures[k].0, Handle(data.textures[k].1))
        invariant transparent == data.transparent && shaders == ShaderMap(data.shaders)
      {
        textures := textures + [(data.textures[i].0, Handle(data.textures[i].1))];
      }
    }

    /** `is_transparent()`. */
    function IsTransparent(): bool
      reads this
    {
      transparent
    }

    /** `has_shader(type)`: the type is a key of the map. */
    predicate HasShader(t: ShaderType)
      reads this
    {
      t in shaders
    }

    /** `shader(type)`: looked up with `operator[]`, which inserts an empty handle for a missing type. */
    method Shader(t: ShaderType) returns (h: Handle)
      modifies this
      ensures HasShader(t) && h == shaders[t]
      ensures old(HasShader(t)) ==> shaders == old(shaders)
      ensures !old(HasShader(t)) ==> shaders == old(shaders)[t := Empty] && h == Empty
      ensures transparent == old(transparent) && textures == old(textures)
    {
      if t !in shaders {
        shaders := shaders[t := Empty];
      }
      h := shaders[t];
    }

    /** `set_shader(type, shdr)`: looked up with `operator[]`, then overwritten when it differs. */
    method SetShader(t: ShaderType, h: Handle)
      modifies this
      ensures shaders == old(shaders)[t := h]
      ensures HasShader(t) && shaders[t] == h
      ensures forall u :: u != t ==> (u in shaders <==> u in old(shaders)) && (u in shaders ==> shaders[u] == old(shaders)[u])
      ensures transparent == old(transparent) && textures == old(textures)
    {
      var current := Shader(t);
      if current != h {
        shaders := shaders[t := h];
      }
    }

    /** `texture_count()`. */
    function TextureCount(): nat
      reads this
    {
      |textures|
    }

    /** `texture(index)`: the handle of the texture at `index`. */
    function Texture(i: nat): Handle
      requires i < TextureCount()
      reads this
    {
      textures[i].1
    }

    /** `set_texture(index, txt)`: the handle at `index` is replaced in place; names and order stay. */
    method SetTexture(i: nat, h: Handle)
      requires i < TextureCount()
      modifies this
      ensures TextureCount() == old(TextureCount()) && Texture(i) == h
      ensures forall k :: 0 <= k < |textures| ==> textures[k].0 == old(textures[k].0)
      ensures forall k :: 0 <= k < |textures| && k != i ==> textures[k].1 == old(textures[k].1)
      ensures transparent == old(transparent) && shaders == old(shaders)
    {
      if textures[i].1 != h {
        textures := textures[i := (textures[i].0, h)];
      }
    }
  }
}
