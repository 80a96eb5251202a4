// The vertex stream handed to the renderer, reduced to what the generators
// observe of it: the list of vertices and the list of triangle indices.
module UI {
  import opened Geometry

  /** One emitted vertex with every channel the renderer receives. */
  datatype UIVertex = UIVertex(
    position: Vec3,
    normal: Vec3,
    tangent: Vec4,
    color: Color,
    uv0: Vec2,
    uv1: Vec2,
    uv2: Vec2,
    uv3: Vec2)

  /**
   * The framework's template vertex: at the origin, facing the viewer, white,
   * with every texture coordinate zero.
   */
  const SimpleVert := UIVertex(Zero3, Vec3(0.0, 0.0, -1.0), Vec4(1.0, 0.0, 0.0, -1.0), White,
                               Zero2, Zero2, Zero2, Zero2)

  /** The mesh builder a generator fills: vertices, then triangles over them. */
  class VertexHelper {
    var verts: seq<UIVertex>
    var indices: seq<int>

    constructor ()
      ensures verts == [] && indices == []
    {
      verts := [];
      indices := [];
    }

    method Clear()
      modifies this
      ensures verts == [] && indices == []
    {
      verts := [];
      indices := [];
    }

    method AddVert(v: UIVertex)
      modifies this
      ensures verts == old(verts) + [v]
      ensures indices == old(indices)
    {
      verts := verts + [v];
    }

    method AddTriangle(a: int, b: int, c: int)
      modifies this
      ensures indices == old(indices) + [a, b, c]
      ensures verts == old(verts)
    {
      indices := indices + [a, b, c];
    }

    /** Appends a whole vertex list and an index list, indices taken as given. */
    method AddUIVertexStream(vs: seq<UIVertex>, idx: seq<int>)
      modifies this
      ensures verts == old(verts) + vs
      ensures indices == old(indices) + idx
    {
      verts := verts + vs;
      indices := indices + idx;
    }
  }
}
