/**
 * The renderable model of engine/asset/model.h and model.cpp: the vertex
 * record, meshes that own their vertices, indices and material, and the
 * model that keeps its meshes in insertion order.
 */
module AssetModel {
  import opened Glm
  import opened Render

  /** An unsigned 32-bit value (`GLuint`, `unsigned int`). */
  type U32 = x: nat | x < 0x1_0000_0000

  /** `Vertex`: always all four attributes. */
  datatype Vertex = Vertex(position: Vec3, normal: Vec3, texCoords: Vec2, tangent: Vec3)

  /** `Mesh`: its data is fixed at construction; the GPU buffers are not modelled. */
  class Mesh {
    const vertices: seq<Vertex>
    const indices: seq<U32>
    const material: Material?

    /** The constructor keeps the vertices, indices and material it is given. */
    constructor (vertices: seq<Vertex>, indices: seq<U32>, material: Material?)
      ensures this.vertices == vertices && this.indices == indices && this.material == material
    {
      this.vertices := vertices;
      this.indices := indices;
      this.material := material;
    }

    function GetVertexCount(): (n: nat)
      ensures n == |vertices|
    {
      |vertices|
    }

    function GetIndexCount(): (n: nat)
      ensures n == |indices|
    {
      |indices|
    }

    function GetMaterial(): (m: Material?)
      ensures m == material
    {
      material
    }

    /**
     * `Mesh::draw`: activate the material when there is one, draw the
     * index count, then deactivate the material as `Material::deactivate`
     * is written (units 6 down to 1; see README, Findings).
     */
    function Draw(): (calls: seq<GlCall>)
      reads material
      ensures material == null ==> calls == [DrawElements(|indices|)]
      ensures material != null ==>
        var act := material.State().Activate();
        |calls| == |act| + 7 && calls[..|act|] == act && calls[|act|] == DrawElements(|indices|) && calls[|act| + 1..] == DeactivateAsWritten()
    {
      if material == null then [DrawElements(|indices|)]
      else material.State().Activate() + [DrawElements(|indices|)] + DeactivateAsWritten()
    }
  }

  /** The materials a list of meshes refers to. */
  function Materials(meshes: seq<Mesh>): set<Material?>
  {
    set i | 0 <= i < |meshes| :: meshes[i].material
  }

  /** What `Model::draw` issues: each mesh's draw calls, in list order. */
  function DrawAll(meshes: seq<Mesh>): (calls: seq<GlCall>)
    reads Materials(meshes)
  {
    if meshes == [] then []
    else
      var last := meshes[|meshes| - 1];
      assert Materials(meshes[..|meshes| - 1]) <= Materials(meshes);
      DrawAll(meshes[..|meshes| - 1]) + last.Draw()
  }

  /** The element counts a trace draws, in order. */
  function DrawCounts(calls: seq<GlCall>): seq<nat>
  {
    if calls == [] then []
    else DrawCounts(calls[..|calls| - 1]) + (if calls[|calls| - 1].DrawElements? then [calls[|calls| - 1].count] else [])
  }

  /** The index counts of the meshes of a list, in order. */
  function IndexCounts(meshes: seq<Mesh>): seq<nat>
  {
    if meshes == [] then []
    else IndexCounts(meshes[..|meshes| - 1]) + [|meshes[|meshes| - 1].indices|]
  }

  lemma {:induction false} DrawCountsAppend(a: seq<GlCall>, b: seq<GlCall>)
    ensures DrawCounts(a + b) == DrawCounts(a) + DrawCounts(b)
    decreases |b|
  {
    if b == [] {
      assert a + b == a;
    } else {
      assert (a + b)[..|a + b| - 1] == a + b[..|b| - 1];
      DrawCountsAppend(a, b[..|b| - 1]);
    }
  }

  lemma {:induction false} NoDraws(calls: seq<GlCall>)
    requires forall c | c in calls :: !c.DrawElements?
    ensures DrawCounts(calls) == []
    decreases |calls|
  {
    if calls != [] {
      NoDraws(calls[..|calls| - 1]);
    }
  }

  /** A mesh's draw issues exactly one draw, of its index count. */
  lemma MeshDrawsOnce(mesh: Mesh)
    ensures DrawCounts(mesh.Draw()) == [|mesh.indices|]
  {
    var d := [DrawElements(|mesh.indices|)];
    assert DrawCounts(d) == [|mesh.indices|] by { assert d[..0] == []; }
    if mesh.material != null {
      var act := mesh.material.State().Activate();
      ActivateBinds(mesh.material.State());
      NoDraws(act);
      NoDraws(DeactivateAsWritten());
      DrawCountsAppend(act, d);
      DrawCountsAppend(act + d, DeactivateAsWritten());
    }
  }

  /**
   * `Model::draw` visits the meshes in list order and draws each one
   * exactly once with its own index count.
   */
  lemma {:induction false} DrawAllVisitsInOrder(meshes: seq<Mesh>)
    ensures DrawCounts(DrawAll(meshes)) == IndexCounts(meshes)
    decreases |meshes|
  {
    if meshes != [] {
      var init := meshes[..|meshes| - 1];
      var last := meshes[|meshes| - 1];
      DrawAllVisitsInOrder(init);
      DrawCountsAppend(DrawAll(init), last.Draw());
      MeshDrawsOnce(last);
    }
  }

  /**
   * `Model`: an ordered list of meshes. `addMesh` keeps null out of the
   * list, so the list holds only meshes.
   */
  class Model {
    var meshes: seq<Mesh>

    constructor ()
      ensures meshes == []
    {
      meshes := [];
    }

    /** `addMesh`: a null mesh is ignored, any other is appended. */
    method AddMesh(mesh: Mesh?)
      modifies this
      ensures mesh == null ==> meshes == old(meshes)
      ensures mesh != null ==> meshes == old(meshes) + [mesh]
    {
      if mesh != null {
        meshes := meshes + [mesh];
      }
    }

    function GetMeshes(): (ms: seq<Mesh>)
      reads this
      ensures ms == meshes
    {
      meshes
    }

    /**
     * `Model::draw`: draw every mesh, in list order. Its null test never
     * fails, as the list holds no null.
     */
    method Draw() returns (calls: seq<GlCall>)
      ensures calls == DrawAll(meshes)
    {
      calls := [];
      for i := 0 to |meshes|
        invariant calls == DrawAll(meshes[..i])
      {
        assert meshes[..i + 1][..i] == meshes[..i];
        calls := calls + meshes[i].Draw();
      }
      assert meshes[..|meshes|] == meshes;
    }
  }
}
