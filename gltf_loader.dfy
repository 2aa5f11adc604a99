/**
 * `GLTFLoader::loadGLTF` and `loadGltfTexture` (engine/asset/gltf_loader.cpp):
 * the walk over scenes, root nodes and primitives of a parsed glTF 2.0
 * document, the assembly of each primitive into a mesh, and the texture
 * resolver used for the material's maps.
 *
 * The parsed document is given as a value. What the loader asks of foreign
 * code is a parameter (`Env`): decoding an image held in memory, opening
 * and decoding an image file, uploading pixels to the GPU (which names the
 * texture), and reading accessor elements.
 */
module GltfLoader {
  import opened Glm
  import opened Wrappers
  import opened Render
  import opened AssetModel

  const Two16: nat := 0x1_0000
  const Two32: nat := 0x1_0000_0000

  // ---------------------------------------------------------------------
  // The parsed document
  // ---------------------------------------------------------------------

  /** `cgltf_component_type` */
  datatype ComponentType = InvalidComponent | R8 | R8U | R16 | R16U | R32U | R32F

  /** An accessor: `id` names its data for the element readers of `Env`. */
  datatype Accessor = Accessor(id: nat, count: nat, componentType: ComponentType)

  /** `cgltf_attribute_type` */
  datatype AttributeType =
    | InvalidAttribute | PositionAttribute | NormalAttribute | TangentAttribute
    | TexCoordAttribute | ColorAttribute | JointsAttribute | WeightsAttribute | CustomAttribute

  datatype Attribute = Attribute(kind: AttributeType, data: Accessor)

  /** A buffer; `data` is absent when its bytes were not loaded. */
  datatype Buffer = Buffer(data: Option<seq<bv8>>)

  datatype BufferView = BufferView(buffer: Option<Buffer>, offset: nat, size: nat)

  datatype Image = Image(uri: Option<string>, bufferView: Option<BufferView>)

  datatype GltfTexture = GltfTexture(image: Option<Image>)

  /** A texture reference of a material, with its `scale` (or strength). */
  datatype TextureView = TextureView(texture: Option<GltfTexture>, scale: real)

  datatype GltfMaterial = GltfMaterial(
    baseColorFactor: Vec4,
    metallicFactor: real,
    roughnessFactor: real,
    baseColorTexture: TextureView,
    metallicRoughnessTexture: TextureView,
    normalTexture: TextureView,
    occlusionTexture: TextureView,
    emissiveTexture: TextureView,
    emissiveFactor: Vec3)

  datatype Primitive = Primitive(attributes: seq<Attribute>, indices: Option<Accessor>, material: Option<GltfMaterial>)

  datatype GltfMesh = GltfMesh(primitives: seq<Primitive>)

  datatype Node = Node(mesh: Option<GltfMesh>, children: seq<Node>)

  datatype Scene = Scene(nodes: seq<Node>)

  datatype Document = Document(scenes: seq<Scene>)

  /** What resolving, parsing and loading the buffers of a glTF file gave. */
  datatype GltfFile =
    | FileMissing(fullPath: string)
    | ParseFailed
    | BuffersFailed
    | Parsed(document: Document, baseDirectory: string)

  // ---------------------------------------------------------------------
  // Foreign code
  // ---------------------------------------------------------------------

  /** Decoded pixels, as `stbi_load*` returns them. */
  datatype Decoded = Decoded(width: int, height: int, channels: int, pixels: seq<bv8>)

  /** Opening an image file: not found (an exception), not decodable, or decoded. */
  datatype FileImage = NotFound | Undecodable | Readable(image: Decoded)

  /** An OpenGL texture name: `glGenTextures` never hands out 0. */
  type GlName = x: nat | x > 0 witness 1

  datatype Env = Env(
    decode: (seq<bv8>, nat, nat) -> Option<Decoded>,
    openImage: string -> FileImage,
    upload: Decoded -> GlName,
    readVec3: (nat, nat) -> Vec3,
    readVec2: (nat, nat) -> Vec2,
    readIndex: (nat, nat) -> nat)

  // ---------------------------------------------------------------------
  // Textures
  // ---------------------------------------------------------------------

  /**
   * `loadGltfTexture`: nothing without a texture and an image; the image's
   * buffer view first (nothing when its buffer or bytes are missing or it is
   * empty, or when decoding fails; otherwise an uploaded texture); else its
   * URI, resolved against the model's directory (nothing when the file is
   * not found; a texture with name 0 when it cannot be decoded); else nothing.
   */
  function LoadGltfTexture(texture: Option<GltfTexture>, baseDirectory: string, env: Env): (r: Option<Texture>)
    ensures r.Some? ==> texture.Some? && texture.value.image.Some?
    ensures r.Some? && texture.value.image.value.bufferView.Some? ==> r.value.IsLoaded() && r.value.filePath == ""
    ensures r.Some? && texture.value.image.value.bufferView.None? ==>
      texture.value.image.value.uri.Some? && r.value.filePath == baseDirectory + "/" + texture.value.image.value.uri.value
  {
    if texture.None? || texture.value.image.None? then None
    else
      var image := texture.value.image.value;
      if image.bufferView.Some? then
        var view := image.bufferView.value;
        if view.buffer.None? || view.buffer.value.data.None? || view.size == 0 then None
        else
          match env.decode(view.buffer.value.data.value, view.offset, view.size)
          case None => None
          case Some(pixels) => Some(Texture(env.upload(pixels), ""))
      else if image.uri.Some? then
        var path := baseDirectory + "/" + image.uri.value;
        match env.openImage(path)
        case NotFound => None
        case Undecodable => Some(Texture(0, path))
        case Readable(pixels) => Some(Texture(env.upload(pixels), path))
      else None
  }

  /** With a buffer view, the image's URI plays no part. */
  lemma BufferViewBeforeUri(view: BufferView, uri1: Option<string>, uri2: Option<string>, baseDirectory: string, env: Env)
    ensures LoadGltfTexture(Some(GltfTexture(Some(Image(uri1, Some(view))))), baseDirectory, env)
         == LoadGltfTexture(Some(GltfTexture(Some(Image(uri2, Some(view))))), baseDirectory, env)
  {
  }

  /** A buffer view without loaded bytes, or an empty one, gives no texture and no error. */
  lemma EmptyBufferViewGivesNothing(view: BufferView, uri: Option<string>, baseDirectory: string, env: Env)
    requires view.buffer.None? || view.buffer.value.data.None? || view.size == 0
    ensures LoadGltfTexture(Some(GltfTexture(Some(Image(uri, Some(view))))), baseDirectory, env) == None
  {
  }

  /**
   * An embedded image with bytes: a texture exactly when its bytes decode,
   * and then a loaded texture with an empty path.
   */
  lemma EmbeddedTexture(view: BufferView, uri: Option<string>, baseDirectory: string, env: Env)
    requires view.buffer.Some? && view.buffer.value.data.Some? && view.size != 0
    ensures var r := LoadGltfTexture(Some(GltfTexture(Some(Image(uri, Some(view))))), baseDirectory, env);
      (r.Some? <==> env.decode(view.buffer.value.data.value, view.offset, view.size).Some?) &&
      (r.Some? ==> r.value.IsLoaded() && r.value.filePath == "")
  {
  }

  /**
   * An external image: no texture exactly when the file is not found, and
   * a loaded texture exactly when it could be decoded.
   */
  lemma ExternalTexture(uri: string, baseDirectory: string, env: Env)
    ensures var r := LoadGltfTexture(Some(GltfTexture(Some(Image(Some(uri), None)))), baseDirectory, env);
      var file := env.openImage(baseDirectory + "/" + uri);
      (r.None? <==> file.NotFound?) && (r.Some? ==> (r.value.IsLoaded() <==> file.Readable?))
  {
  }

  // ---------------------------------------------------------------------
  // Vertex attributes
  // ---------------------------------------------------------------------

  /**
   * The accessor of the last attribute of the given kind: nothing exactly
   * when no attribute has that kind.
   */
  function LastOfKind(attributes: seq<Attribute>, kind: AttributeType): (r: Option<Accessor>)
    ensures r.None? <==> forall i | 0 <= i < |attributes| :: attributes[i].kind != kind
    ensures r.Some? ==> exists i | 0 <= i < |attributes| ::
      attributes[i] == Attribute(kind, r.value) && forall j | i < j < |attributes| :: attributes[j].kind != kind
  {
    if attributes == [] then None
    else
      var last := attributes[|attributes| - 1];
      if last.kind == kind then Some(last.data) else LastOfKind(attributes[..|attributes| - 1], kind)
  }

  /** `current_vertex_count`: the count of the last attribute, of whatever kind. */
  function VertexCount(attributes: seq<Attribute>): nat
  {
    if attributes == [] then 0 else attributes[|attributes| - 1].data.count
  }

  function Values3(a: Accessor, env: Env): (r: seq<Vec3>)
    ensures |r| == a.count
  {
    seq(a.count, k requires 0 <= k => env.readVec3(a.id, k))
  }

  function Values2(a: Accessor, env: Env): (r: seq<Vec2>)
    ensures |r| == a.count
  {
    seq(a.count, k requires 0 <= k => env.readVec2(a.id, k))
  }

  /** The per-kind arrays after the attribute loop. */
  datatype Columns = Columns(positions: seq<Vec3>, normals: seq<Vec3>, texCoords: seq<Vec2>, tangents: seq<Vec3>)

  function Column3(attributes: seq<Attribute>, kind: AttributeType, env: Env): seq<Vec3>
  {
    match LastOfKind(attributes, kind)
    case None => []
    case Some(a) => Values3(a, env)
  }

  function Column2(attributes: seq<Attribute>, kind: AttributeType, env: Env): seq<Vec2>
  {
    match LastOfKind(attributes, kind)
    case None => []
    case Some(a) => Values2(a, env)
  }

  /** Each array holds the elements of the last attribute of its kind. */
  function ColumnsOf(attributes: seq<Attribute>, env: Env): Columns
  {
    Columns(Column3(attributes, PositionAttribute, env), Column3(attributes, NormalAttribute, env),
            Column2(attributes, TexCoordAttribute, env), Column3(attributes, TangentAttribute, env))
  }

  /** `std::vector::resize`: keep a prefix, or pad with value-initialised elements. */
  function Resize<T>(s: seq<T>, n: nat, zero: T): (r: seq<T>)
    ensures |r| == n
    ensures forall k | 0 <= k < n && k < |s| :: r[k] == s[k]
    ensures forall k | |s| <= k < n :: r[k] == zero
  {
    if n <= |s| then s[..n] else s + seq(n - |s|, _ => zero)
  }

  /** `resize(accessor->count)` and one `cgltf_accessor_read_float` per element. */
  method Fill3(column: seq<Vec3>, a: Accessor, env: Env) returns (r: seq<Vec3>)
    ensures r == Values3(a, env)
  {
    r := Resize(column, a.count, Zero3);
    for k := 0 to a.count
      invariant |r| == a.count
      invariant forall j | 0 <= j < k :: r[j] == env.readVec3(a.id, j)
    {
      r := r[k := env.readVec3(a.id, k)];
    }
  }

  method Fill2(column: seq<Vec2>, a: Accessor, env: Env) returns (r: seq<Vec2>)
    ensures r == Values2(a, env)
  {
    r := Resize(column, a.count, Zero2);
    for k := 0 to a.count
      invariant |r| == a.count
      invariant forall j | 0 <= j < k :: r[j] == env.readVec2(a.id, j)
    {
      r := r[k := env.readVec2(a.id, k)];
    }
  }

  lemma LastOfKindStep(attributes: seq<Attribute>, i: nat, kind: AttributeType)
    requires i < |attributes|
    ensures LastOfKind(attributes[..i + 1], kind) ==
      if attributes[i].kind == kind then Some(attributes[i].data) else LastOfKind(attributes[..i], kind)
  {
    assert attributes[..i + 1][..i] == attributes[..i];
  }

  /** The attribute loop: every attribute sets the vertex count; known kinds fill their array. */
  method ReadAttributes(attributes: seq<Attribute>, env: Env)
    returns (positions: seq<Vec3>, normals: seq<Vec3>, texCoords: seq<Vec2>, tangents: seq<Vec3>, vertexCount: nat)
    ensures Columns(positions, normals, texCoords, tangents) == ColumnsOf(attributes, env)
    ensures vertexCount == VertexCount(attributes)
  {
    positions, normals, texCoords, tangents := [], [], [], [];
    vertexCount := 0;
    for i := 0 to |attributes|
      invariant Columns(positions, normals, texCoords, tangents) == ColumnsOf(attributes[..i], env)
      invariant vertexCount == VertexCount(attributes[..i])
    {
      var attribute := attributes[i];
      var accessor := attribute.data;
      LastOfKindStep(attributes, i, PositionAttribute);
      LastOfKindStep(attributes, i, NormalAttribute);
      LastOfKindStep(attributes, i, TexCoordAttribute);
      LastOfKindStep(attributes, i, TangentAttribute);
      vertexCount := accessor.count;
      if attribute.kind == PositionAttribute {
        positions := Fill3(positions, accessor, env);
      } else if attribute.kind == NormalAttribute {
        normals := Fill3(normals, accessor, env);
      } else if attribute.kind == TexCoordAttribute {
        texCoords := Fill2(texCoords, accessor, env);
      } else if attribute.kind == TangentAttribute {
        tangents := Fill3(tangents, accessor, env);
      }
    }
    assert attributes[..|attributes|] == attributes;
  }

  /**
   * Vertex k: each field from its array when the array is long enough,
   * else position (0,0,0), normal (0,1,0), texcoord (0,0), tangent (0,0,0).
   */
  function VertexAt(c: Columns, k: nat): Vertex
  {
    Vertex(if k < |c.positions| then c.positions[k] else Zero3,
           if k < |c.normals| then c.normals[k] else Up,
           if k < |c.texCoords| then c.texCoords[k] else Zero2,
           if k < |c.tangents| then c.tangents[k] else Zero3)
  }

  function VerticesOf(c: Columns, count: nat): (r: seq<Vertex>)
    ensures |r| == count
  {
    seq(count, k requires 0 <= k => VertexAt(c, k))
  }

  /** The vertex loop: exactly `current_vertex_count` vertices. */
  method AssembleVertices(positions: seq<Vec3>, normals: seq<Vec3>, texCoords: seq<Vec2>, tangents: seq<Vec3>, count: nat)
    returns (vertices: seq<Vertex>)
    ensures vertices == VerticesOf(Columns(positions, normals, texCoords, tangents), count)
  {
    vertices := [];
    for k := 0 to count
      invariant vertices == VerticesOf(Columns(positions, normals, texCoords, tangents), k)
    {
      var position := if k < |positions| then positions[k] else Zero3;
      var normal := if k < |normals| then normals[k] else Up;
      var texCoord := if k < |texCoords| then texCoords[k] else Zero2;
      var tangent := if k < |tangents| then tangents[k] else Zero3;
      vertices := vertices + [Vertex(position, normal, texCoord, tangent)];
    }
  }

  // ---------------------------------------------------------------------
  // Indices
  // ---------------------------------------------------------------------

  /**
   * The index list: with an accessor, `count` entries, read through a
   * 16-bit or 32-bit cast for those component types and left 0 for any
   * other; without one, 0, 1, ..., vertexCount - 1.
   */
  function IndicesFor(accessor: Option<Accessor>, vertexCount: nat, env: Env): (r: seq<U32>)
    ensures accessor.Some? ==> |r| == accessor.value.count
    ensures accessor.None? ==> |r| == vertexCount
  {
    match accessor
    case None => seq(vertexCount, k => k % Two32)
    case Some(a) =>
      if a.componentType == R16U then seq(a.count, k requires 0 <= k => env.readIndex(a.id, k) % Two16)
      else if a.componentType == R32U then seq(a.count, k requires 0 <= k => env.readIndex(a.id, k) % Two32)
      else seq(a.count, _ => 0)
  }

  /** The index branch of the primitive loop. */
  method ReadIndices(accessor: Option<Accessor>, vertexCount: nat, env: Env) returns (indices: seq<U32>)
    ensures indices == IndicesFor(accessor, vertexCount, env)
  {
    indices := [];
    if accessor.Some? {
      var a := accessor.value;
      indices := Resize(indices, a.count, 0);
      if a.componentType == R16U {
        for k := 0 to a.count
          invariant |indices| == a.count
          invariant forall j | 0 <= j < k :: indices[j] == env.readIndex(a.id, j) % Two16
        {
          var temp := env.readIndex(a.id, k) % Two16;
          indices := indices[k := temp];
        }
      } else if a.componentType == R32U {
        for k := 0 to a.count
          invariant |indices| == a.count
          invariant forall j | 0 <= j < k :: indices[j] == env.readIndex(a.id, j) % Two32
        {
          var temp := env.readIndex(a.id, k) % Two32;
          indices := indices[k := temp];
        }
      }
    } else {
      for k := 0 to vertexCount
        invariant indices == seq(k, j => j % Two32)
      {
        indices := indices + [k % Two32];
      }
    }
  }

  /** 16-bit and 32-bit indices reach the mesh unchanged; the casts never cut a value of their width. */
  lemma IndicesWidened(a: Accessor, vertexCount: nat, env: Env, k: nat)
    requires k < a.count
    requires a.componentType == R16U ==> env.readIndex(a.id, k) < Two16
    requires a.componentType == R32U ==> env.readIndex(a.id, k) < Two32
    ensures a.componentType in {R16U, R32U} ==> IndicesFor(Some(a), vertexCount, env)[k] == env.readIndex(a.id, k)
    ensures a.componentType !in {R16U, R32U} ==> IndicesFor(Some(a), vertexCount, env)[k] == 0
  {
  }

  /** Without an index accessor the indices enumerate the vertices. */
  lemma SequentialIndices(vertexCount: nat, env: Env)
    requires vertexCount <= Two32
    ensures forall k | 0 <= k < vertexCount :: IndicesFor(None, vertexCount, env)[k] == k
  {
  }

  // ---------------------------------------------------------------------
  // Material
  // ---------------------------------------------------------------------

  /** A setter is called only for a texture reference that is present. */
  function SetIfPresent(m: MaterialState, s: Slot, view: TextureView, baseDirectory: string, env: Env): MaterialState
  {
    if view.texture.Some? then m.WithMap(s, LoadGltfTexture(view.texture, baseDirectory, env)) else m
  }

  /**
   * The factors of a source material; normal scale and occlusion strength
   * are the `scale` of the normal and occlusion texture references.
   */
  function FactorsOf(g: GltfMaterial): Factors
  {
    Factors(g.baseColorFactor, g.metallicFactor, g.roughnessFactor, g.emissiveFactor,
            g.normalTexture.scale, g.occlusionTexture.scale)
  }

  /**
   * The five setter calls, in source order; the metallic-roughness texture
   * goes to the roughness slot.
   */
  function WithTextures(m: MaterialState, g: GltfMaterial, baseDirectory: string, env: Env): MaterialState
  {
    var m1 := SetIfPresent(m, BaseColor, g.baseColorTexture, baseDirectory, env);
    var m2 := SetIfPresent(m1, Normal, g.normalTexture, baseDirectory, env);
    var m3 := SetIfPresent(m2, Roughness, g.metallicRoughnessTexture, baseDirectory, env);
    var m4 := SetIfPresent(m3, Occlusion, g.occlusionTexture, baseDirectory, env);
    SetIfPresent(m4, Emissive, g.emissiveTexture, baseDirectory, env)
  }

  /** The material of a primitive: the default one, or the source material's factors and maps. */
  function MaterialFor(source: Option<GltfMaterial>, baseDirectory: string, env: Env): MaterialState
  {
    match source
    case None => Default
    case Some(g) => WithTextures(Default.(factors := FactorsOf(g)), g, baseDirectory, env)
  }

  /** The texture reference feeding each slot; none feeds the metallic slot. */
  function SourceOf(g: GltfMaterial, s: Slot): Option<TextureView>
  {
    match s
    case BaseColor => Some(g.baseColorTexture)
    case Normal => Some(g.normalTexture)
    case Roughness => Some(g.metallicRoughnessTexture)
    case Metallic => None
    case Occlusion => Some(g.occlusionTexture)
    case Emissive => Some(g.emissiveTexture)
  }

  /** What the setter calls leave in slot s: the resolved texture of its present reference, else what was there. */
  function SlotAfter(m: MaterialState, g: GltfMaterial, baseDirectory: string, env: Env, s: Slot): Option<Texture>
  {
    match SourceOf(g, s)
    case Some(view) => if view.texture.Some? then LoadGltfTexture(view.texture, baseDirectory, env) else m.Map(s)
    case None => m.Map(s)
  }

  lemma SetIfPresentSlot(m: MaterialState, t: Slot, view: TextureView, baseDirectory: string, env: Env, s: Slot)
    ensures var r := SetIfPresent(m, t, view, baseDirectory, env);
      var x := if s == t && view.texture.Some? then LoadGltfTexture(view.texture, baseDirectory, env) else m.Map(s);
      r.Map(s) == x && (r.Has(s) <==> if s == t && view.texture.Some? then x.Some? && x.value.IsLoaded() else m.Has(s))
      && r.factors == m.factors
  {
    if view.texture.Some? {
      var x := LoadGltfTexture(view.texture, baseDirectory, env);
      assert SetIfPresent(m, t, view, baseDirectory, env) == m.WithMap(t, x);
      if s != t {
        WithMapFrame(m, t, x, s);
      }
    }
  }

  /** Each slot after the setter calls, and the factors unchanged. */
  lemma {:induction false} WithTexturesSlots(m: MaterialState, g: GltfMaterial, baseDirectory: string, env: Env, s: Slot)
    ensures var r := WithTextures(m, g, baseDirectory, env);
      var x := SlotAfter(m, g, baseDirectory, env, s);
      r.Map(s) == x && r.factors == m.factors &&
      (r.Has(s) <==> if SourceOf(g, s).Some? && SourceOf(g, s).value.texture.Some? then x.Some? && x.value.IsLoaded() else m.Has(s))
  {
    var m1 := SetIfPresent(m, BaseColor, g.baseColorTexture, baseDirectory, env);
    var m2 := SetIfPresent(m1, Normal, g.normalTexture, baseDirectory, env);
    var m3 := SetIfPresent(m2, Roughness, g.metallicRoughnessTexture, baseDirectory, env);
    var m4 := SetIfPresent(m3, Occlusion, g.occlusionTexture, baseDirectory, env);
    SetIfPresentSlot(m, BaseColor, g.baseColorTexture, baseDirectory, env, s);
    SetIfPresentSlot(m1, Normal, g.normalTexture, baseDirectory, env, s);
    SetIfPresentSlot(m2, Roughness, g.metallicRoughnessTexture, baseDirectory, env, s);
    SetIfPresentSlot(m3, Occlusion, g.occlusionTexture, baseDirectory, env, s);
    SetIfPresentSlot(m4, Emissive, g.emissiveTexture, baseDirectory, env, s);
  }

  /**
   * What a primitive's material holds: the factors unchanged, each slot the
   * resolved texture of its reference (nothing when the reference is
   * absent, and never anything in the metallic slot), and its flag set
   * exactly when that texture is loaded.
   */
  lemma MaterialForSlots(g: GltfMaterial, baseDirectory: string, env: Env, s: Slot)
    ensures MaterialFor(Some(g), baseDirectory, env).factors == FactorsOf(g)
    ensures var m := MaterialFor(Some(g), baseDirectory, env);
      var t := match SourceOf(g, s)
        case None => None
        case Some(view) => if view.texture.Some? then LoadGltfTexture(view.texture, baseDirectory, env) else None;
      m.Map(s) == t && (m.Has(s) <==> t.Some? && t.value.IsLoaded())
  {
    DefaultIsEmpty();
    WithTexturesSlots(Default.(factors := FactorsOf(g)), g, baseDirectory, env, s);
  }

  /**
   * A primitive's material keeps each flag in agreement with its map, so
   * `activate` binds exactly the slots whose flag is set.
   */
  lemma MaterialForConsistent(source: Option<GltfMaterial>, baseDirectory: string, env: Env)
    ensures MaterialFor(source, baseDirectory, env).Consistent()
  {
    DefaultIsEmpty();
    var m := MaterialFor(source, baseDirectory, env);
    if source.Some? {
      forall s: Slot ensures m.Has(s) <==> m.Map(s).Some? && m.Map(s).value.IsLoaded() {
        MaterialForSlots(source.value, baseDirectory, env, s);
      }
    }
  }

  /** The material block of the primitive loop, on a fresh material. */
  method BuildMaterial(source: Option<GltfMaterial>, baseDirectory: string, env: Env) returns (material: Material)
    ensures fresh(material)
    ensures material.State() == MaterialFor(source, baseDirectory, env)
  {
    material := new Material();
    if source.Some? {
      CopyFactors(material, source.value);
      AttachTextures(material, source.value, baseDirectory, env);
    }
  }

  /** The factor assignments of the material block. */
  method CopyFactors(material: Material, g: GltfMaterial)
    modifies material
    ensures material.State() == old(material.State()).(factors := FactorsOf(g))
  {
    material.baseColorFactor := g.baseColorFactor;
    material.metallicFactor := g.metallicFactor;
    material.roughnessFactor := g.roughnessFactor;
    material.normalScale := g.normalTexture.scale;
    material.occlusionStrength := g.occlusionTexture.scale;
    material.emissiveFactor := g.emissiveFactor;
  }

  /** The setter calls of the material block, each only for a present texture reference. */
  method AttachTextures(material: Material, g: GltfMaterial, baseDirectory: string, env: Env)
    modifies material
    ensures material.State() == WithTextures(old(material.State()), g, baseDirectory, env)
  {
    if g.baseColorTexture.texture.Some? {
      material.SetBaseColorMap(LoadGltfTexture(g.baseColorTexture.texture, baseDirectory, env));
    }
    if g.normalTexture.texture.Some? {
      material.SetNormalMap(LoadGltfTexture(g.normalTexture.texture, baseDirectory, env));
    }
    if g.metallicRoughnessTexture.texture.Some? {
      material.SetRoughnessMap(LoadGltfTexture(g.metallicRoughnessTexture.texture, baseDirectory, env));
    }
    if g.occlusionTexture.texture.Some? {
      material.SetAmbientOcclusionMap(LoadGltfTexture(g.occlusionTexture.texture, baseDirectory, env));
    }
    if g.emissiveTexture.texture.Some? {
      material.SetEmissiveMap(LoadGltfTexture(g.emissiveTexture.texture, baseDirectory, env));
    }
  }

  // ---------------------------------------------------------------------
  // Primitives, nodes and scenes
  // ---------------------------------------------------------------------

  /** The data of one assembled primitive. */
  datatype MeshData = MeshData(vertices: seq<Vertex>, indices: seq<U32>, material: MaterialState)

  function PrimitiveData(p: Primitive, baseDirectory: string, env: Env): MeshData
  {
    var count := VertexCount(p.attributes);
    MeshData(VerticesOf(ColumnsOf(p.attributes, env), count), IndicesFor(p.indices, count, env),
             MaterialFor(p.material, baseDirectory, env))
  }

  /** A primitive becomes a mesh only with at least one vertex and one index. */
  predicate Emits(d: MeshData)
  {
    d.vertices != [] && d.indices != []
  }

  /** The mesh object holds the given data. */
  predicate Holds(mesh: Mesh?, d: MeshData)
    reads if mesh != null then {mesh.material} else {}
  {
    mesh != null && mesh.vertices == d.vertices && mesh.indices == d.indices &&
    mesh.material != null && mesh.material.State() == d.material
  }

  /** The body of the primitive loop, up to the emit decision. */
  method BuildPrimitive(p: Primitive, baseDirectory: string, env: Env) returns (mesh: Mesh?)
    ensures mesh != null <==> Emits(PrimitiveData(p, baseDirectory, env))
    ensures mesh != null ==> fresh(mesh) && fresh(mesh.material) && Holds(mesh, PrimitiveData(p, baseDirectory, env))
  {
    var positions, normals, texCoords, tangents, vertexCount := ReadAttributes(p.attributes, env);
    var vertices := AssembleVertices(positions, normals, texCoords, tangents, vertexCount);
    var indices := ReadIndices(p.indices, |vertices|, env);
    var material := BuildMaterial(p.material, baseDirectory, env);
    if vertices != [] && indices != [] {
      mesh := new Mesh(vertices, indices, material);
    } else {
      mesh := null;
    }
  }

  /** The meshes of a list of primitives: those that emit, in order. */
  function PrimitivesOut(prims: seq<Primitive>, baseDirectory: string, env: Env): seq<MeshData>
  {
    if prims == [] then []
    else
      var d := PrimitiveData(prims[|prims| - 1], baseDirectory, env);
      PrimitivesOut(prims[..|prims| - 1], baseDirectory, env) + (if Emits(d) then [d] else [])
  }

  /** A node contributes its own mesh's primitives; its children are not visited. */
  function NodeOut(node: Node, baseDirectory: string, env: Env): seq<MeshData>
  {
    match node.mesh
    case None => []
    case Some(m) => PrimitivesOut(m.primitives, baseDirectory, env)
  }

  function NodesOut(nodes: seq<Node>, baseDirectory: string, env: Env): seq<MeshData>
  {
    if nodes == [] then []
    else NodesOut(nodes[..|nodes| - 1], baseDirectory, env) + NodeOut(nodes[|nodes| - 1], baseDirectory, env)
  }

  function ScenesOut(scenes: seq<Scene>, baseDirectory: string, env: Env): seq<MeshData>
  {
    if scenes == [] then []
    else ScenesOut(scenes[..|scenes| - 1], baseDirectory, env) + NodesOut(scenes[|scenes| - 1].nodes, baseDirectory, env)
  }

  /** The meshes of a model hold the given data, one for one. */
  predicate MeshesHold(meshes: seq<Mesh>, ds: seq<MeshData>)
    reads Materials(meshes)
  {
    |meshes| == |ds| && forall i | 0 <= i < |meshes| :: Holds(meshes[i], ds[i])
  }

  /**
   * The vertices of a primitive: as many as the last attribute's count, each
   * position, normal, texcoord and tangent read from the last attribute of
   * its kind when that one has element k, else the default.
   */
  lemma PrimitiveVertices(p: Primitive, baseDirectory: string, env: Env, k: nat)
    requires k < |PrimitiveData(p, baseDirectory, env).vertices|
    ensures |PrimitiveData(p, baseDirectory, env).vertices| ==
      (if p.attributes == [] then 0 else p.attributes[|p.attributes| - 1].data.count)
    ensures var v := PrimitiveData(p, baseDirectory, env).vertices[k];
      var pos := LastOfKind(p.attributes, PositionAttribute);
      var nor := LastOfKind(p.attributes, NormalAttribute);
      var tex := LastOfKind(p.attributes, TexCoordAttribute);
      var tan := LastOfKind(p.attributes, TangentAttribute);
      && v.position == (if pos.Some? && k < pos.value.count then env.readVec3(pos.value.id, k) else Zero3)
      && v.normal == (if nor.Some? && k < nor.value.count then env.readVec3(nor.value.id, k) else Up)
      && v.texCoords == (if tex.Some? && k < tex.value.count then env.readVec2(tex.value.id, k) else Zero2)
      && v.tangent == (if tan.Some? && k < tan.value.count then env.readVec3(tan.value.id, k) else Zero3)
  {
  }

  /**
   * The vertex count follows the last attribute, whatever its kind: three
   * positions followed by a five-element colour attribute give five
   * vertices, the last two at the origin.
   */
  lemma LastAttributeSetsVertexCount(env: Env)
    ensures var p := Primitive([Attribute(PositionAttribute, Accessor(0, 3, R32F)), Attribute(ColorAttribute, Accessor(1, 5, R32F))], None, None);
      var vs := PrimitiveData(p, "", env).vertices;
      |vs| == 5 && vs[3].position == Zero3 && vs[4].position == Zero3 && vs[2].position == env.readVec3(0, 2)
  {
    var p := Primitive([Attribute(PositionAttribute, Accessor(0, 3, R32F)), Attribute(ColorAttribute, Accessor(1, 5, R32F))], None, None);
    assert LastOfKind(p.attributes, PositionAttribute) == Some(Accessor(0, 3, R32F)) by {
      assert p.attributes[..1] == [Attribute(PositionAttribute, Accessor(0, 3, R32F))];
    }
    PrimitiveVertices(p, "", env, 2);
    PrimitiveVertices(p, "", env, 3);
    PrimitiveVertices(p, "", env, 4);
  }

  /**
   * An unsupported index component type keeps the primitive: it still emits
   * when it has vertices, with `count` zero indices.
   */
  lemma UnsupportedIndicesStillEmit(p: Primitive, baseDirectory: string, env: Env)
    requires p.attributes != [] && p.attributes[|p.attributes| - 1].data.count > 0
    requires p.indices.Some? && p.indices.value.count > 0 && p.indices.value.componentType !in {R16U, R32U}
    ensures Emits(PrimitiveData(p, baseDirectory, env))
    ensures PrimitiveData(p, baseDirectory, env).indices == seq(p.indices.value.count, _ => 0)
  {
    var d := PrimitiveData(p, baseDirectory, env);
    assert |d.vertices| > 0;
    assert |d.indices| > 0;
  }

  /** Indices are not checked against the vertex count: one vertex, index 7. */
  lemma IndicesNotBoundsChecked(env: Env)
    requires env.readIndex(1, 0) == 7
    ensures var p := Primitive([Attribute(PositionAttribute, Accessor(0, 1, R32F))], Some(Accessor(1, 1, R16U)), None);
      var d := PrimitiveData(p, "", env);
      Emits(d) && |d.vertices| == 1 && d.indices == [7]
  {
    var p := Primitive([Attribute(PositionAttribute, Accessor(0, 1, R32F))], Some(Accessor(1, 1, R16U)), None);
    var d := PrimitiveData(p, "", env);
    assert d.indices[0] == 7;
  }

  /** Only root nodes are visited: a node's children contribute nothing. */
  lemma ChildrenNotVisited(m: Option<GltfMesh>, children: seq<Node>, baseDirectory: string, env: Env)
    ensures NodeOut(Node(m, children), baseDirectory, env) == NodeOut(Node(m, []), baseDirectory, env)
    ensures NodeOut(Node(None, children), baseDirectory, env) == []
  {
  }

  /** Every mesh a list of primitives yields is an emitting one, and there are at most as many as primitives. */
  lemma {:induction false} PrimitivesOutEmit(prims: seq<Primitive>, baseDirectory: string, env: Env)
    ensures |PrimitivesOut(prims, baseDirectory, env)| <= |prims|
    ensures forall d | d in PrimitivesOut(prims, baseDirectory, env) :: Emits(d)
  {
    if prims != [] {
      var init := prims[..|prims| - 1];
      var last := PrimitiveData(prims[|prims| - 1], baseDirectory, env);
      PrimitivesOutEmit(init, baseDirectory, env);
      assert PrimitivesOut(prims, baseDirectory, env) == PrimitivesOut(init, baseDirectory, env) + (if Emits(last) then [last] else []);
    }
  }

  /** When every primitive emits, the meshes are the primitives' data one for one. */
  lemma {:induction false} PrimitivesOutAll(prims: seq<Primitive>, baseDirectory: string, env: Env)
    requires AllEmit(prims, baseDirectory, env)
    ensures PrimitivesOut(prims, baseDirectory, env) == AllData(prims, baseDirectory, env)
  {
    if prims != [] {
      var init := prims[..|prims| - 1];
      AllEmitInit(prims, baseDirectory, env);
      PrimitivesOutAll(init, baseDirectory, env);
      AllDataStep(prims, baseDirectory, env);
    }
  }

  lemma AllEmitInit(prims: seq<Primitive>, baseDirectory: string, env: Env)
    requires prims != [] && AllEmit(prims, baseDirectory, env)
    ensures AllEmit(prims[..|prims| - 1], baseDirectory, env)
    ensures Emits(PrimitiveData(prims[|prims| - 1], baseDirectory, env))
  {
    var init := prims[..|prims| - 1];
    forall i | 0 <= i < |init| ensures Emits(PrimitiveData(init[i], baseDirectory, env)) {
      assert init[i] == prims[i];
    }
  }

  lemma AllDataStep(prims: seq<Primitive>, baseDirectory: string, env: Env)
    requires prims != []
    ensures AllData(prims, baseDirectory, env) ==
      AllData(prims[..|prims| - 1], baseDirectory, env) + [PrimitiveData(prims[|prims| - 1], baseDirectory, env)]
  {
    var init := prims[..|prims| - 1];
    var l := AllData(prims, baseDirectory, env);
    var r := AllData(init, baseDirectory, env) + [PrimitiveData(prims[|prims| - 1], baseDirectory, env)];
    forall i | 0 <= i < |prims| ensures l[i] == r[i] {
      if i < |init| {
        assert init[i] == prims[i];
      }
    }
  }

  predicate AllEmit(prims: seq<Primitive>, baseDirectory: string, env: Env)
  {
    forall i | 0 <= i < |prims| :: Emits(PrimitiveData(prims[i], baseDirectory, env))
  }

  function AllData(prims: seq<Primitive>, baseDirectory: string, env: Env): seq<MeshData>
  {
    seq(|prims|, i requires 0 <= i < |prims| => PrimitiveData(prims[i], baseDirectory, env))
  }

  // ---------------------------------------------------------------------
  // Loading
  // ---------------------------------------------------------------------

  /**
   * `GLTFLoader::loadGLTF`: a missing file, a parse failure and a buffer
   * failure are errors; otherwise a new model whose meshes are the emitting
   * primitives, scene by scene, root node by root node.
   */
  method LoadGltf(filePath: string, file: GltfFile, env: Env) returns (r: Result<Model, string>)
    ensures file.FileMissing? ==> r == Failure("Arquivo não encontrado: " + file.fullPath)
    ensures file.ParseFailed? ==> r == Failure("GLTFLoader: Falha ao parsear GLTF: " + filePath)
    ensures file.BuffersFailed? ==> r == Failure("GLTFLoader: Falha ao carregar buffers GLTF: " + filePath)
    ensures file.Parsed? ==> (r.Success? && fresh(r.value) &&
      MeshesHold(r.value.meshes, ScenesOut(file.document.scenes, file.baseDirectory, env)))
  {
    match file
    case FileMissing(fullPath) => return Failure("Arquivo não encontrado: " + fullPath);
    case ParseFailed => return Failure("GLTFLoader: Falha ao parsear GLTF: " + filePath);
    case BuffersFailed => return Failure("GLTFLoader: Falha ao carregar buffers GLTF: " + filePath);
    case Parsed(document, baseDirectory) =>
      var model := new Model();
      var scenes := document.scenes;
      for s := 0 to |scenes|
        invariant MeshesHold(model.meshes, ScenesOut(scenes[..s], baseDirectory, env))
      {
        ScenesOutStep(scenes, s, baseDirectory, env);
        LoadNodes(model, scenes[s].nodes, baseDirectory, env, ScenesOut(scenes[..s], baseDirectory, env));
      }
      assert scenes[..|scenes|] == scenes;
      return Success(model);
  }

  lemma ScenesOutStep(scenes: seq<Scene>, s: nat, baseDirectory: string, env: Env)
    requires s < |scenes|
    ensures ScenesOut(scenes[..s + 1], baseDirectory, env) ==
      ScenesOut(scenes[..s], baseDirectory, env) + NodesOut(scenes[s].nodes, baseDirectory, env)
  {
    assert scenes[..s + 1][..s] == scenes[..s];
  }

  /** The node loop of one scene: a node without a mesh is skipped. */
  method LoadNodes(model: Model, nodes: seq<Node>, baseDirectory: string, env: Env, ghost done: seq<MeshData>)
    requires MeshesHold(model.meshes, done)
    modifies model
    ensures MeshesHold(model.meshes, done + NodesOut(nodes, baseDirectory, env))
  {
    for n := 0 to |nodes|
      invariant MeshesHold(model.meshes, done + NodesOut(nodes[..n], baseDirectory, env))
    {
      ghost var before := done + NodesOut(nodes[..n], baseDirectory, env);
      NodesOutStep(done, nodes, n, baseDirectory, env);
      if nodes[n].mesh.Some? {
        LoadPrimitives(model, nodes[n].mesh.value.primitives, baseDirectory, env, before);
      } else {
        assert before + NodeOut(nodes[n], baseDirectory, env) == before;
      }
    }
    assert nodes[..|nodes|] == nodes;
  }

  lemma NodesOutStep(done: seq<MeshData>, nodes: seq<Node>, n: nat, baseDirectory: string, env: Env)
    requires n < |nodes|
    ensures done + NodesOut(nodes[..n + 1], baseDirectory, env) ==
      (done + NodesOut(nodes[..n], baseDirectory, env)) + NodeOut(nodes[n], baseDirectory, env)
  {
    assert nodes[..n + 1][..n] == nodes[..n];
  }

  lemma PrimitivesOutStep(done: seq<MeshData>, prims: seq<Primitive>, j: nat, baseDirectory: string, env: Env)
    requires j < |prims|
    ensures var d := PrimitiveData(prims[j], baseDirectory, env);
      done + PrimitivesOut(prims[..j + 1], baseDirectory, env) ==
      (done + PrimitivesOut(prims[..j], baseDirectory, env)) + (if Emits(d) then [d] else [])
  {
    assert prims[..j + 1][..j] == prims[..j];
  }

  /** `model->addMesh` of a mesh holding d keeps the model's meshes in step with their data. */
  method AddHeldMesh(model: Model, mesh: Mesh, ghost ds: seq<MeshData>, ghost d: MeshData)
    requires MeshesHold(model.meshes, ds) && Holds(mesh, d)
    modifies model
    ensures MeshesHold(model.meshes, ds + [d])
  {
    assert MeshesHold(model.meshes + [mesh], ds + [d]);
    model.AddMesh(mesh);
  }

  /** The primitive loop of one mesh. */
  method LoadPrimitives(model: Model, prims: seq<Primitive>, baseDirectory: string, env: Env, ghost done: seq<MeshData>)
    requires MeshesHold(model.meshes, done)
    modifies model
    ensures MeshesHold(model.meshes, done + PrimitivesOut(prims, baseDirectory, env))
  {
    for j := 0 to |prims|
      invariant MeshesHold(model.meshes, done + PrimitivesOut(prims[..j], baseDirectory, env))
    {
      ghost var before := done + PrimitivesOut(prims[..j], baseDirectory, env);
      ghost var d := PrimitiveData(prims[j], baseDirectory, env);
      PrimitivesOutStep(done, prims, j, baseDirectory, env);
      var mesh := BuildPrimitive(prims[j], baseDirectory, env);
      assert MeshesHold(model.meshes, before);
      if mesh != null {
        AddHeldMesh(model, mesh, before, d);
      } else {
        assert before + [] == before;
      }
    }
    assert prims[..|prims|] == prims;
  }
}
