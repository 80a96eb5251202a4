// The fragment-pattern graphic: a single quad over the layout rectangle
// shrunk by the margins, whose texture coordinates span the unit square and
// whose second texture channel carries the quad's size to the shader.
module FragmentPattern {
  import opened Geometry
  import opened UI
  import MeshIcon

  /**
   * The template vertex moved to corner `v` of `area`, with `uv0` normalised
   * to `area`, `uv1` holding the size of `area` and the tint colour.
   */
  function PatternVertex(area: Rect, v: Vec2, tint: Color): (r: UIVertex)
    requires area.width != 0.0 && area.height != 0.0
    ensures r.position == Vec3(v.x, v.y, 0.0) && r.color == tint
    ensures area.XMin() + r.uv0.x * area.width == v.x && area.YMin() + r.uv0.y * area.height == v.y
    ensures r.uv1 == Vec2(area.width, area.height)
    ensures r.normal == SimpleVert.normal && r.tangent == SimpleVert.tangent
    ensures r.uv2 == Zero2 && r.uv3 == Zero2
  {
    SimpleVert.(position := Vec3(v.x, v.y, 0.0),
                uv0 := Vec2((v.x - area.XMin()) / area.width, (v.y - area.YMin()) / area.height),
                uv1 := Vec2(area.width, area.height),
                color := tint)
  }

  /**
   * The four vertices of the pattern: the corners of the margin-adjusted
   * area in the order bottom-left, top-left, top-right, bottom-right, flat
   * at depth 0, with texture coordinates at the matching corners of the unit
   * square, the area's size in `uv1` and the tint as colour.
   */
  function PatternVertices(rect: Rect, margin: BoundRect, tint: Color): (vs: seq<UIVertex>)
    requires ApplyMargin(rect, margin).width != 0.0 && ApplyMargin(rect, margin).height != 0.0
    ensures |vs| == 4
    ensures var xmin := rect.XMin() + margin.left;
            var xmax := rect.XMax() - margin.right;
            var ymin := rect.YMin() + margin.bottom;
            var ymax := rect.YMax() - margin.top;
            && vs[0].position == Vec3(xmin, ymin, 0.0) && vs[1].position == Vec3(xmin, ymax, 0.0)
            && vs[2].position == Vec3(xmax, ymax, 0.0) && vs[3].position == Vec3(xmax, ymin, 0.0)
            && (forall k | 0 <= k < 4 :: vs[k].uv1 == Vec2(xmax - xmin, ymax - ymin))
    ensures vs[0].uv0 == Vec2(0.0, 0.0) && vs[1].uv0 == Vec2(0.0, 1.0)
    ensures vs[2].uv0 == Vec2(1.0, 1.0) && vs[3].uv0 == Vec2(1.0, 0.0)
    ensures forall k | 0 <= k < 4 :: vs[k].color == tint
    ensures forall k | 0 <= k < 4 ::
      vs[k].normal == SimpleVert.normal && vs[k].tangent == SimpleVert.tangent
      && vs[k].uv2 == Zero2 && vs[k].uv3 == Zero2
  {
    var area := ApplyMargin(rect, margin);
    assert area.width / area.width == 1.0;
    assert area.height / area.height == 1.0;
    seq(4, k requires 0 <= k < 4 => PatternVertex(area, MeshIcon.QuadCorners(area)[k], tint))
  }

  /**
   * The pattern is the icon's fallback quad over the same adjusted area,
   * except that each vertex also carries the area's size in `uv1`.
   */
  lemma PatternIsSizedQuad(rect: Rect, margin: BoundRect, tint: Color)
    requires ApplyMargin(rect, margin).width != 0.0 && ApplyMargin(rect, margin).height != 0.0
    ensures var area := ApplyMargin(rect, margin);
      forall k | 0 <= k < 4 ::
        PatternVertices(rect, margin, tint)[k]
        == MeshIcon.QuadVertex(area, MeshIcon.QuadCorners(area)[k], tint).(uv1 := Vec2(area.width, area.height))
  {
  }

  /**
   * Fills `vh` with the pattern: clears it, emits the four corners of the
   * margin-adjusted rectangle through one reused working vertex, then the
   * two triangles (0, 1, 2) and (2, 3, 0).
   */
  method OnPopulateMesh(vh: VertexHelper, rect: Rect, margin: BoundRect, tint: Color)
    requires ApplyMargin(rect, margin).width != 0.0 && ApplyMargin(rect, margin).height != 0.0
    modifies vh
    ensures vh.verts == PatternVertices(rect, margin, tint)
    ensures vh.indices == MeshIcon.QuadIndices
  {
    var xmin := rect.XMin() + margin.left;
    var xmax := rect.XMax() - margin.right;
    var ymin := rect.YMin() + margin.bottom;
    var ymax := rect.YMax() - margin.top;
    var w := xmax - xmin;
    var h := ymax - ymin;
    var verts := [Vec2(xmin, ymin), Vec2(xmin, ymax), Vec2(xmax, ymax), Vec2(xmax, ymin)];
    ghost var area := ApplyMargin(rect, margin);
    assert verts == MeshIcon.QuadCorners(area);

    vh.Clear();
    var uiv := SimpleVert;
    for k := 0 to 4
      invariant |vh.verts| == k && vh.indices == []
      invariant forall j | 0 <= j < k :: vh.verts[j] == PatternVertex(area, verts[j], tint)
      invariant uiv.normal == SimpleVert.normal && uiv.tangent == SimpleVert.tangent
      invariant uiv.uv2 == Zero2 && uiv.uv3 == Zero2
    {
      var v := verts[k];
      uiv := uiv.(position := Vec3(v.x, v.y, 0.0));
      uiv := uiv.(uv0 := Vec2((v.x - xmin) / w, (v.y - ymin) / h));
      uiv := uiv.(uv1 := Vec2(w, h));
      uiv := uiv.(color := tint);
      vh.AddVert(uiv);
    }
    vh.AddTriangle(0, 1, 2);
    vh.AddTriangle(2, 3, 0);
  }
}
