// The icon mesh generator: trims the layout rectangle by the margins, scales
// and centres a source mesh into it (or falls back to a plain quad), emits one
// vertex per source vertex and an index list that is the source triangle list
// itself or its faces after back-face removal and depth sorting.
module MeshIcon {
  import opened Geometry
  import opened UI
  import opened TriFaces
  import opened MeshFaces

  /** How the mesh is scaled into the drawing area. */
  datatype ScalingMode = Stretch | Fit | NoScale

  /**
   * A read-only source mesh: parallel per-vertex channels (colours and the
   * four texture-coordinate channels may be shorter than the vertex list),
   * a flat triangle list and a precomputed bounding box.
   */
  datatype SourceMesh = SourceMesh(
    vertices: seq<Vec3>,
    normals: seq<Vec3>,
    tangents: seq<Vec4>,
    colors: seq<Color>,
    uv: seq<Vec2>,
    uv2: seq<Vec2>,
    uv3: seq<Vec2>,
    uv4: seq<Vec2>,
    triangles: seq<int>,
    boundsCenter: Vec3,
    boundsSize: Vec3)

  /** Normals and tangents are read for every vertex, without a length check. */
  predicate HasVertexFrames(m: SourceMesh) {
    |m.normals| >= |m.vertices| && |m.tangents| >= |m.vertices|
  }

  /** Every vertex has a normal and a tangent, and the triangles index the vertex list. */
  predicate WellFormed(m: SourceMesh) {
    HasVertexFrames(m) && ValidTriangles(m.triangles, |m.vertices|)
  }

  /** The icon's mesh reference, which may be unset. */
  datatype MeshRef = NoMesh | Mesh(mesh: SourceMesh)

  /** The icon's configuration, read once per generation. */
  datatype Settings = Settings(
    sourceMesh: MeshRef,
    margin: BoundRect,
    scalingMode: ScalingMode,
    useMeshVertexColor: bool,
    removeBackFace: bool,
    sortTriangles: SortMode,
    keepMeshOrigin: bool,
    keepMeshZ: bool,
    color: Color)

  // ---------------------------------------------------------------------
  // Scale policy

  /** Per-axis scale factors for the drawing area `w` by `h` and the mesh extent `meshsize`. */
  function ScaleFor(mode: ScalingMode, w: real, h: real, meshsize: Vec3): (s: Vec3)
    requires mode != NoScale ==> meshsize.x != 0.0 && meshsize.y != 0.0
    ensures mode == Stretch ==> s.x == w / meshsize.x && s.y == h / meshsize.y && s.z == Min(s.x, s.y)
    ensures mode == Fit ==> s.x == s.y == s.z == Min(w / meshsize.x, h / meshsize.y)
    ensures mode == NoScale ==> s == One3
  {
    match mode
    case Stretch =>
      var sx := w / meshsize.x;
      var sy := h / meshsize.y;
      Vec3(sx, sy, Min(sx, sy))
    case Fit =>
      var sx := w / meshsize.x;
      var sy := h / meshsize.y;
      var m := Min(sx, sy);
      Vec3(m, m, m)
    case NoScale =>
      One3
  }

  /**
   * Fit keeps the aspect ratio, and the scaled mesh extent fits inside the
   * drawing area while filling it along at least one axis.
   */
  lemma FitFillsOneAxis(w: real, h: real, meshsize: Vec3)
    requires meshsize.x > 0.0 && meshsize.y > 0.0 && w >= 0.0 && h >= 0.0
    ensures var s := ScaleFor(Fit, w, h, meshsize);
      && s.x == s.y == s.z >= 0.0
      && s.x * meshsize.x <= w && s.y * meshsize.y <= h
      && (s.x * meshsize.x == w || s.y * meshsize.y == h)
  {
    var s := ScaleFor(Fit, w, h, meshsize);
    assert (w / meshsize.x) * meshsize.x == w;
    assert (h / meshsize.y) * meshsize.y == h;
    if w / meshsize.x < h / meshsize.y {
      assert s.y * meshsize.y <= (h / meshsize.y) * meshsize.y;
    } else {
      assert s.x * meshsize.x <= (w / meshsize.x) * meshsize.x;
    }
  }

  /** Stretch maps the mesh extent exactly onto the drawing area on both axes. */
  lemma StretchFillsBothAxes(w: real, h: real, meshsize: Vec3)
    requires meshsize.x != 0.0 && meshsize.y != 0.0
    ensures var s := ScaleFor(Stretch, w, h, meshsize);
      s.x * meshsize.x == w && s.y * meshsize.y == h
  {
  }

  // ---------------------------------------------------------------------
  // Vertex transform

  /** Moves a source position relative to `meshcenter`, scales it, and moves it onto `rectoffset`. */
  function Place(p: Vec3, meshcenter: Vec3, scale: Vec3, rectoffset: Vec3): (q: Vec3)
    ensures Sub(q, rectoffset) == Scale(Sub(p, meshcenter), scale)
  {
    Add(Scale(Sub(p, meshcenter), scale), rectoffset)
  }

  /** The centre of the drawing area, at depth zero. */
  function RectOffset(rect: Rect): (o: Vec3)
    ensures o.x == (rect.XMin() + rect.XMax()) / 2.0 && o.y == (rect.YMin() + rect.YMax()) / 2.0
    ensures o.z == 0.0
  {
    Vec3(rect.Center().x, rect.Center().y, 0.0)
  }

  /** Entry `i` of a channel, or `default` where the channel is shorter. */
  function ChannelAt<T>(ch: seq<T>, i: nat, default: T): T {
    if i < |ch| then ch[i] else default
  }

  /** The emitted vertex for source vertex `i` placed at `pos`. */
  function MeshVertex(m: SourceMesh, i: nat, pos: Vec3, keepMeshZ: bool, useMeshVertexColor: bool, tint: Color): (v: UIVertex)
    requires i < |m.normals| && i < |m.tangents|
    ensures v.position.x == pos.x && v.position.y == pos.y
    ensures v.position.z == if keepMeshZ then pos.z else 0.0
    ensures v.normal == m.normals[i] && v.tangent == m.tangents[i]
    ensures !useMeshVertexColor ==> v.color == tint
    ensures useMeshVertexColor && i >= |m.colors| ==> v.color == Tint(Black, tint)
    ensures i >= |m.uv| ==> v.uv0 == Zero2
  {
    var extraScaleZ := if keepMeshZ then 1.0 else 0.0;
    UIVertex(
      pos.(z := pos.z * extraScaleZ),
      m.normals[i],
      m.tangents[i],
      if useMeshVertexColor then Tint(ChannelAt(m.colors, i, Black), tint) else tint,
      ChannelAt(m.uv, i, Zero2),
      ChannelAt(m.uv2, i, Zero2),
      ChannelAt(m.uv3, i, Zero2),
      ChannelAt(m.uv4, i, Zero2))
  }

  /** All source positions, placed. */
  function PlacedPositions(m: SourceMesh, meshcenter: Vec3, scale: Vec3, rectoffset: Vec3): (ps: seq<Vec3>)
    ensures |ps| == |m.vertices|
  {
    seq(|m.vertices|, i requires 0 <= i < |m.vertices| => Place(m.vertices[i], meshcenter, scale, rectoffset))
  }

  /** All emitted vertices, one per source vertex, in source order. */
  function MeshVertices(m: SourceMesh, meshcenter: Vec3, scale: Vec3, rectoffset: Vec3,
                        keepMeshZ: bool, useMeshVertexColor: bool, tint: Color): (vs: seq<UIVertex>)
    requires HasVertexFrames(m)
    ensures |vs| == |m.vertices|
  {
    seq(|m.vertices|, i requires 0 <= i < |m.vertices| =>
      MeshVertex(m, i, Place(m.vertices[i], meshcenter, scale, rectoffset), keepMeshZ, useMeshVertexColor, tint))
  }

  /**
   * The vertex loop: places every source vertex, records the placed position
   * (depth included) for face processing, and emits the vertex with its depth
   * flattened unless `keepMeshZ`, its normal and tangent passed through, its
   * colour, and its four texture coordinates. One working vertex value is
   * overwritten per source vertex.
   */
  method TransformVertices(m: SourceMesh, meshcenter: Vec3, scale: Vec3, rectoffset: Vec3,
                           keepMeshZ: bool, useMeshVertexColor: bool, tint: Color)
    returns (uiverts: seq<UIVertex>, vertposs: seq<Vec3>)
    requires HasVertexFrames(m)
    ensures vertposs == PlacedPositions(m, meshcenter, scale, rectoffset)
    ensures uiverts == MeshVertices(m, meshcenter, scale, rectoffset, keepMeshZ, useMeshVertexColor, tint)
  {
    var extraScaleZ := if keepMeshZ then 1.0 else 0.0;
    var vcount := |m.vertices|;
    var uiv := SimpleVert;
    uiverts := [];
    vertposs := [];
    for i := 0 to vcount
      invariant |uiverts| == i && |vertposs| == i
      invariant forall k | 0 <= k < i :: vertposs[k] == Place(m.vertices[k], meshcenter, scale, rectoffset)
      invariant forall k | 0 <= k < i ::
        uiverts[k] == MeshVertex(m, k, vertposs[k], keepMeshZ, useMeshVertexColor, tint)
    {
      var pos := Sub(m.vertices[i], meshcenter);
      pos := Scale(pos, scale);
      pos := Add(pos, rectoffset);
      vertposs := vertposs + [pos];

      pos := pos.(z := pos.z * extraScaleZ);
      uiv := uiv.(position := pos);
      uiv := uiv.(normal := m.normals[i]);
      uiv := uiv.(tangent := m.tangents[i]);
      if useMeshVertexColor {
        uiv := uiv.(color := if i < |m.colors| then m.colors[i] else Black);
        uiv := uiv.(color := Tint(uiv.color, tint));
      } else {
        uiv := uiv.(color := tint);
      }
      uiv := uiv.(uv0 := if i < |m.uv| then m.uv[i] else Zero2);
      uiv := uiv.(uv1 := if i < |m.uv2| then m.uv2[i] else Zero2);
      uiv := uiv.(uv2 := if i < |m.uv3| then m.uv3[i] else Zero2);
      uiv := uiv.(uv3 := if i < |m.uv4| then m.uv4[i] else Zero2);
      uiverts := uiverts + [uiv];
    }
  }

  /**
   * The emitted position is the placed position with its depth kept when
   * `keepMeshZ` is set and zero otherwise.
   */
  lemma EmittedDepth(m: SourceMesh, meshcenter: Vec3, scale: Vec3, rectoffset: Vec3,
                     keepMeshZ: bool, useMeshVertexColor: bool, tint: Color, i: int)
    requires HasVertexFrames(m) && 0 <= i < |m.vertices|
    ensures var v := MeshVertices(m, meshcenter, scale, rectoffset, keepMeshZ, useMeshVertexColor, tint)[i];
            var p := PlacedPositions(m, meshcenter, scale, rectoffset)[i];
      && v.position.x == p.x && v.position.y == p.y
      && v.position.z == (if keepMeshZ then p.z else 0.0)
  {
  }

  /** `ch` cut or padded with `default` to exactly `n` entries. */
  function Padded<T>(ch: seq<T>, n: nat, default: T): (r: seq<T>)
    ensures |r| == n
  {
    if |ch| >= n then ch[..n] else ch + seq(n - |ch|, _ => default)
  }

  /** Texture-coordinate channel `k` (0 to 3) of a vertex list. */
  function UvColumn(vs: seq<UIVertex>, k: int): seq<Vec2> {
    seq(|vs|, i requires 0 <= i < |vs| =>
      if k == 0 then vs[i].uv0 else if k == 1 then vs[i].uv1 else if k == 2 then vs[i].uv2 else vs[i].uv3)
  }

  /** Source texture-coordinate channel `k` (0 to 3) of a mesh. */
  function MeshUv(m: SourceMesh, k: int): seq<Vec2> {
    if k == 0 then m.uv else if k == 1 then m.uv2 else if k == 2 then m.uv3 else m.uv4
  }

  function ColorColumn(vs: seq<UIVertex>): seq<Color> {
    seq(|vs|, i requires 0 <= i < |vs| => vs[i].color)
  }

  /**
   * Channel fallback: each emitted texture-coordinate channel is the source
   * channel cut or padded with zero vectors to the vertex count, and the
   * emitted colours are the source colours padded with black and tinted, or
   * the tint alone when mesh colours are not used.
   */
  lemma ChannelsArePadded(m: SourceMesh, meshcenter: Vec3, scale: Vec3, rectoffset: Vec3,
                          keepMeshZ: bool, useMeshVertexColor: bool, tint: Color)
    requires HasVertexFrames(m)
    ensures var vs := MeshVertices(m, meshcenter, scale, rectoffset, keepMeshZ, useMeshVertexColor, tint);
      forall k | 0 <= k < 4 :: UvColumn(vs, k) == Padded(MeshUv(m, k), |m.vertices|, Zero2)
    ensures var vs := MeshVertices(m, meshcenter, scale, rectoffset, keepMeshZ, useMeshVertexColor, tint);
      var padded := Padded(m.colors, |m.vertices|, Black);
      ColorColumn(vs) == if useMeshVertexColor then seq(|padded|, i requires 0 <= i < |padded| => Tint(padded[i], tint))
                         else seq(|m.vertices|, _ => tint)
  {
    var n := |m.vertices|;
    var vs := MeshVertices(m, meshcenter, scale, rectoffset, keepMeshZ, useMeshVertexColor, tint);
    forall k | 0 <= k < 4
      ensures UvColumn(vs, k) == Padded(MeshUv(m, k), n, Zero2)
    {
      var ch := MeshUv(m, k);
      forall i | 0 <= i < n
        ensures UvColumn(vs, k)[i] == Padded(ch, n, Zero2)[i]
      {
        PaddedAt(ch, n, Zero2, i);
      }
    }
    var padded := Padded(m.colors, n, Black);
    forall i | 0 <= i < n
      ensures padded[i] == ChannelAt(m.colors, i, Black)
    {
      PaddedAt(m.colors, n, Black, i);
    }
  }

  lemma PaddedAt<T>(ch: seq<T>, n: nat, default: T, i: nat)
    requires i < n
    ensures Padded(ch, n, default)[i] == ChannelAt(ch, i, default)
  {
  }

  /**
   * With Fit or Stretch, a positive mesh extent, a drawing area of
   * non-negative size and the mesh re-centred on its bounds, every position
   * inside the mesh bounds lands inside the drawing area, and the bounds
   * centre lands on the area's centre.
   */
  lemma PlacementStaysInRect(mode: ScalingMode, rect: Rect, m: SourceMesh, p: Vec3)
    requires mode == Fit || mode == Stretch
    requires m.boundsSize.x > 0.0 && m.boundsSize.y > 0.0
    requires rect.width >= 0.0 && rect.height >= 0.0
    requires -m.boundsSize.x / 2.0 <= p.x - m.boundsCenter.x <= m.boundsSize.x / 2.0
    requires -m.boundsSize.y / 2.0 <= p.y - m.boundsCenter.y <= m.boundsSize.y / 2.0
    ensures var q := Place(p, m.boundsCenter, ScaleFor(mode, rect.width, rect.height, m.boundsSize), RectOffset(rect));
      rect.XMin() <= q.x <= rect.XMax() && rect.YMin() <= q.y <= rect.YMax()
    ensures var q := Place(m.boundsCenter, m.boundsCenter, ScaleFor(mode, rect.width, rect.height, m.boundsSize), RectOffset(rect));
      q.x == rect.Center().x && q.y == rect.Center().y
  {
    var size := m.boundsSize;
    var s := ScaleFor(mode, rect.width, rect.height, size);
    ScaleFitsArea(mode, rect.width, rect.height, size);
    PlacementWithin(p, m.boundsCenter, size, s, rect);
    PlaceCentre(m.boundsCenter, s, RectOffset(rect));
  }

  /** Any non-negative scale that fits the extent into the area keeps points of the bounds inside it. */
  lemma PlacementWithin(p: Vec3, c: Vec3, size: Vec3, s: Vec3, rect: Rect)
    requires size.x > 0.0 && size.y > 0.0 && s.x >= 0.0 && s.y >= 0.0
    requires s.x * size.x <= rect.width && s.y * size.y <= rect.height
    requires -size.x / 2.0 <= p.x - c.x <= size.x / 2.0
    requires -size.y / 2.0 <= p.y - c.y <= size.y / 2.0
    ensures var q := Place(p, c, s, RectOffset(rect));
      rect.XMin() <= q.x <= rect.XMax() && rect.YMin() <= q.y <= rect.YMax()
  {
    PlacedInRect(p, c, s, rect);
    OffsetWithinSpan(p.x - c.x, size.x, s.x, rect.x, rect.width);
    OffsetWithinSpan(p.y - c.y, size.y, s.y, rect.y, rect.height);
  }

  /** Placed on a rectangle's centre, a point sits at its scaled offset from the middle of each side. */
  lemma PlacedInRect(p: Vec3, c: Vec3, s: Vec3, rect: Rect)
    ensures Place(p, c, s, RectOffset(rect)).x == (p.x - c.x) * s.x + (rect.x + rect.width / 2.0)
    ensures Place(p, c, s, RectOffset(rect)).y == (p.y - c.y) * s.y + (rect.y + rect.height / 2.0)
  {
  }

  /** Placing the centre itself lands on the offset, whatever the scale. */
  lemma PlaceCentre(c: Vec3, s: Vec3, offset: Vec3)
    ensures Place(c, c, s, offset) == offset
  {
    assert Sub(c, c) == Zero3;
  }

  /** Fit and Stretch scale a positive mesh extent to no more than the area, by a non-negative factor. */
  lemma ScaleFitsArea(mode: ScalingMode, w: real, h: real, size: Vec3)
    requires mode == Fit || mode == Stretch
    requires size.x > 0.0 && size.y > 0.0 && w >= 0.0 && h >= 0.0
    ensures var s := ScaleFor(mode, w, h, size);
      s.x >= 0.0 && s.y >= 0.0 && s.x * size.x <= w && s.y * size.y <= h
  {
    if mode == Fit {
      FitFillsOneAxis(w, h, size);
    } else {
      StretchFillsBothAxes(w, h, size);
    }
  }

  /** An offset of at most half an extent, scaled to fit `w` and moved to the middle of [lo, lo + w], stays inside it. */
  lemma OffsetWithinSpan(d: real, extent: real, s: real, lo: real, w: real)
    requires extent > 0.0 && s >= 0.0 && s * extent <= w
    requires -extent / 2.0 <= d <= extent / 2.0
    ensures lo <= d * s + (lo + w / 2.0) <= lo + w
  {
    ScaledOffsetWithinHalf(d, extent, s, w);
  }

  /** An offset of at most half an extent, scaled so that the extent fits in `w`, stays within half of `w`. */
  lemma ScaledOffsetWithinHalf(d: real, extent: real, s: real, w: real)
    requires extent > 0.0 && s >= 0.0 && s * extent <= w
    requires -extent / 2.0 <= d <= extent / 2.0
    ensures -w / 2.0 <= d * s <= w / 2.0
  {
    assert (extent / 2.0 - d) * s >= 0.0;
    assert (d + extent / 2.0) * s >= 0.0;
  }

  /**
   * A unit cube centred on the origin, fitted into the area (0, 0) to
   * (100, 50): the uniform scale is 50, and the corner (0.5, 0.5, 0.5) lands
   * 25 units right of and above the area's centre (50, 25), at depth 25 when
   * depth is kept and 0 otherwise.
   */
  lemma FitCubeExample(keepMeshZ: bool, n: Vec3, t: Vec4)
    ensures ScaleFor(Fit, 100.0, 50.0, One3) == Vec3(50.0, 50.0, 50.0)
    ensures var cube := SourceMesh([Vec3(0.5, 0.5, 0.5)], [n], [t], [], [], [], [], [], [], Zero3, One3);
      MeshVertices(cube, cube.boundsCenter, ScaleFor(Fit, 100.0, 50.0, One3), RectOffset(Rect(0.0, 0.0, 100.0, 50.0)),
                   keepMeshZ, true, White)[0].position
      == Vec3(50.0 + 25.0, 25.0 + 25.0, if keepMeshZ then 25.0 else 0.0)
  {
    var s := ScaleFor(Fit, 100.0, 50.0, One3);
    assert s == Vec3(50.0, 50.0, 50.0);
    var o := RectOffset(Rect(0.0, 0.0, 100.0, 50.0));
    assert o == Vec3(50.0, 25.0, 0.0);
    assert Scale(Sub(Vec3(0.5, 0.5, 0.5), Zero3), s) == Vec3(25.0, 25.0, 25.0);
    assert Place(Vec3(0.5, 0.5, 0.5), Zero3, s, o) == Vec3(75.0, 50.0, 25.0);
  }

  // ---------------------------------------------------------------------
  // Quad fallback

  /** The corners of a rectangle in emission order: bottom-left, top-left, top-right, bottom-right. */
  function QuadCorners(rect: Rect): (cs: seq<Vec2>)
    ensures |cs| == 4
    ensures forall k | 0 <= k < 4 ::
      (cs[k].x == rect.XMin() || cs[k].x == rect.XMax()) && (cs[k].y == rect.YMin() || cs[k].y == rect.YMax())
    ensures cs[0].x == cs[1].x && cs[1].y == cs[2].y && cs[2].x == cs[3].x && cs[3].y == cs[0].y
    ensures cs[0] == Vec2(rect.XMin(), rect.YMin()) && cs[2] == Vec2(rect.XMax(), rect.YMax())
  {
    [Vec2(rect.XMin(), rect.YMin()), Vec2(rect.XMin(), rect.YMax()),
     Vec2(rect.XMax(), rect.YMax()), Vec2(rect.XMax(), rect.YMin())]
  }

  /** The two triangles covering the quad. */
  const QuadIndices: seq<int> := [0, 1, 2, 2, 3, 0]

  /** The template vertex moved to `v`, with texture coordinates normalised to `rect`, in the tint colour. */
  function QuadVertex(rect: Rect, v: Vec2, tint: Color): (r: UIVertex)
    requires rect.width != 0.0 && rect.height != 0.0
    ensures r.position == Vec3(v.x, v.y, 0.0) && r.color == tint
    ensures rect.XMin() + r.uv0.x * rect.width == v.x && rect.YMin() + r.uv0.y * rect.height == v.y
    ensures r.normal == SimpleVert.normal && r.tangent == SimpleVert.tangent
    ensures r.uv1 == Zero2 && r.uv2 == Zero2 && r.uv3 == Zero2
  {
    SimpleVert.(position := Vec3(v.x, v.y, 0.0),
                uv0 := Vec2((v.x - rect.XMin()) / rect.width, (v.y - rect.YMin()) / rect.height),
                color := tint)
  }

  /**
   * The quad fallback: clears the builder, emits the four corners and two
   * triangles. One working vertex value is overwritten per corner.
   */
  method PopulateQuad(vh: VertexHelper, rect: Rect, tint: Color)
    requires rect.width != 0.0 && rect.height != 0.0
    modifies vh
    ensures |vh.verts| == 4
    ensures forall k | 0 <= k < 4 :: vh.verts[k] == QuadVertex(rect, QuadCorners(rect)[k], tint)
    ensures vh.indices == QuadIndices
  {
    vh.Clear();
    var verts := QuadCorners(rect);
    vh.Clear();
    var uiv := SimpleVert;
    for k := 0 to 4
      invariant |vh.verts| == k && vh.indices == []
      invariant forall j | 0 <= j < k :: vh.verts[j] == QuadVertex(rect, verts[j], tint)
      invariant uiv.normal == SimpleVert.normal && uiv.tangent == SimpleVert.tangent
      invariant uiv.uv1 == Zero2 && uiv.uv2 == Zero2 && uiv.uv3 == Zero2
    {
      var v := verts[k];
      uiv := uiv.(position := Vec3(v.x, v.y, 0.0));
      uiv := uiv.(uv0 := Vec2((v.x - rect.XMin()) / rect.width, (v.y - rect.YMin()) / rect.height));
      uiv := uiv.(color := tint);
      vh.AddVert(uiv);
    }
    vh.AddTriangle(0, 1, 2);
    vh.AddTriangle(2, 3, 0);
  }

  /**
   * The quad's texture coordinates are the unit square's corners in the same
   * order, every colour is the tint and both triangles index the four vertices.
   */
  lemma QuadLayout(rect: Rect, tint: Color)
    requires rect.width != 0.0 && rect.height != 0.0
    ensures var vs := seq(4, k requires 0 <= k < 4 => QuadVertex(rect, QuadCorners(rect)[k], tint));
      && vs[0].uv0 == Vec2(0.0, 0.0) && vs[1].uv0 == Vec2(0.0, 1.0)
      && vs[2].uv0 == Vec2(1.0, 1.0) && vs[3].uv0 == Vec2(1.0, 0.0)
      && (forall k | 0 <= k < 4 :: vs[k].color == tint && vs[k].position.z == 0.0)
    ensures forall k | 0 <= k < |QuadIndices| :: 0 <= QuadIndices[k] < 4
  {
    assert rect.width / rect.width == 1.0;
    assert rect.height / rect.height == 1.0;
  }

  // ---------------------------------------------------------------------
  // Assembly

  /** What generation demands of its inputs: no division by zero and a well-formed mesh. */
  predicate CanPopulate(icon: Settings, layoutRect: Rect) {
    var rect := ApplyMargin(layoutRect, icon.margin);
    match icon.sourceMesh
    case NoMesh => rect.width != 0.0 && rect.height != 0.0
    case Mesh(m) =>
      && WellFormed(m)
      && (icon.scalingMode != NoScale ==> m.boundsSize.x != 0.0 && m.boundsSize.y != 0.0)
  }

  /** The centre the mesh is placed around: its own origin, or its bounds centre. */
  function MeshCenter(icon: Settings, m: SourceMesh): (c: Vec3)
    ensures icon.keepMeshOrigin ==> c == Zero3
    ensures !icon.keepMeshOrigin ==> c == m.boundsCenter
  {
    if icon.keepMeshOrigin then Zero3 else m.boundsCenter
  }

  /** The scale factors for `m` in the area of `rect`. */
  function MeshScale(icon: Settings, m: SourceMesh, rect: Rect): Vec3
    requires icon.scalingMode != NoScale ==> m.boundsSize.x != 0.0 && m.boundsSize.y != 0.0
  {
    ScaleFor(icon.scalingMode, rect.width, rect.height, m.boundsSize)
  }

  /** The faces left after back-face removal (if enabled), in source order. */
  function KeptFaces(icon: Settings, tris: seq<int>, pos: seq<Vec3>): seq<TriFace>
    requires ValidTriangles(tris, |pos|)
  {
    if icon.removeBackFace then FrontFaces(AllFaces(tris, pos)) else AllFaces(tris, pos)
  }

  /** Neither back-face removal nor sorting: the triangle list is copied verbatim. */
  predicate CopiesTriangles(icon: Settings) {
    !icon.removeBackFace && icon.sortTriangles == None
  }

  /**
   * Face processing: collects the faces of the triangle list (front faces
   * only under back-face removal) in source order, sorts them in place by
   * centroid depth when a sort mode is set, and flattens them to indices.
   */
  method ProcessFaces(tris: seq<int>, vertposs: seq<Vec3>, removeBackFace: bool, sortTriangles: SortMode)
    returns (faces: seq<TriFace>, indices: seq<int>)
    requires ValidTriangles(tris, |vertposs|)
    ensures indices == Flatten(faces)
    ensures var kept := if removeBackFace then FrontFaces(AllFaces(tris, vertposs)) else AllFaces(tris, vertposs);
      && multiset(faces) == multiset(kept)
      && (sortTriangles == None ==> faces == kept)
      && (sortTriangles != None ==> SortedBy(sortTriangles, faces))
  {
    var collected := CollectFaces(tris, vertposs, removeBackFace);
    var list := new TriFace[|collected|](k requires 0 <= k < |collected| => collected[k]);
    assert list[..] == collected;
    match sortTriangles {
      case Normal => SortFaces(list, Normal);
      case Reverse => SortFaces(list, Reverse);
      case None =>
    }
    faces := list[..];
    indices := FlattenFaces(faces);
  }

  /**
   * Generates the icon's geometry into `vh`. Without a mesh this is the quad
   * over the adjusted rectangle. With a mesh, every source vertex is emitted
   * once, in order, and the index list is the source triangle list itself,
   * or the flattened `faces`: the kept faces, sorted by centroid depth when
   * a sort mode is set and in source order otherwise.
   */
  method OnPopulateMesh(icon: Settings, layoutRect: Rect, vh: VertexHelper) returns (ghost faces: seq<TriFace>)
    requires CanPopulate(icon, layoutRect)
    modifies vh
    ensures var rect := ApplyMargin(layoutRect, icon.margin);
      icon.sourceMesh.NoMesh? ==>
        && |vh.verts| == 4
        && (forall k | 0 <= k < 4 :: vh.verts[k] == QuadVertex(rect, QuadCorners(rect)[k], icon.color))
        && vh.indices == QuadIndices
    ensures var rect := ApplyMargin(layoutRect, icon.margin);
      icon.sourceMesh.Mesh? ==>
        var m := icon.sourceMesh.mesh;
        var center, scale := MeshCenter(icon, m), MeshScale(icon, m, rect);
        var kept := KeptFaces(icon, m.triangles, PlacedPositions(m, center, scale, RectOffset(rect)));
        && vh.verts == MeshVertices(m, center, scale, RectOffset(rect), icon.keepMeshZ, icon.useMeshVertexColor, icon.color)
        && (CopiesTriangles(icon) ==> vh.indices == m.triangles)
        && (!CopiesTriangles(icon) ==>
              && vh.indices == Flatten(faces)
              && multiset(faces) == multiset(kept)
              && (icon.sortTriangles == None ==> faces == kept)
              && (icon.sortTriangles != None ==> SortedBy(icon.sortTriangles, faces)))
  {
    faces := [];
    var rect := ApplyMargin(layoutRect, icon.margin);
    if icon.sourceMesh.NoMesh? {
      PopulateQuad(vh, rect, icon.color);
      return;
    }
    var m := icon.sourceMesh.mesh;
    var meshsize := m.boundsSize;
    var scale := ScaleFor(icon.scalingMode, rect.width, rect.height, meshsize);
    var meshcenter := if icon.keepMeshOrigin then Zero3 else m.boundsCenter;
    var rectoffset := Vec3(rect.Center().x, rect.Center().y, 0.0);

    vh.Clear();

    var uiverts, vertposs := TransformVertices(m, meshcenter, scale, rectoffset,
                                               icon.keepMeshZ, icon.useMeshVertexColor, icon.color);
    var indices: seq<int>;
    if !icon.removeBackFace && icon.sortTriangles == None {
      indices := m.triangles;
    } else {
      var kept;
      kept, indices := ProcessFaces(m.triangles, vertposs, icon.removeBackFace, icon.sortTriangles);
      faces := kept;
    }
    vh.AddUIVertexStream(uiverts, indices);
  }

  /**
   * Whatever path is taken, the emitted index list splits into whole
   * triangles, names only emitted vertices, and holds at most as many
   * triangles as the source (exactly as many without back-face removal).
   * Each emitted face is a face of the source mesh.
   */
  lemma EmittedTrianglesFromSource(icon: Settings, tris: seq<int>, pos: seq<Vec3>, faces: seq<TriFace>)
    requires ValidTriangles(tris, |pos|)
    requires multiset(faces) == multiset(KeptFaces(icon, tris, pos))
    ensures forall f | f in faces :: f in AllFaces(tris, pos)
    ensures |Flatten(faces)| % 3 == 0 && |Flatten(faces)| <= |tris|
    ensures !icon.removeBackFace ==> |Flatten(faces)| == |tris|
    ensures forall k | 0 <= k < |Flatten(faces)| :: 0 <= Flatten(faces)[k] < |pos|
  {
    var all := AllFaces(tris, pos);
    FrontFacesSubMultiset(all);
    assert multiset(faces) <= multiset(all) by {
      if icon.removeBackFace {
        assert multiset(faces) == multiset(FrontFaces(all));
      } else {
        assert multiset(faces) == multiset(all);
      }
    }
    forall f | f in faces
      ensures f in all
    {
      assert f in multiset(faces);
    }
    FaceCountBound(faces, all, |tris|);
    if !icon.removeBackFace {
      assert |faces| == |multiset(faces)| == |multiset(all)| == |all|;
    }
    AllFacesIndicesBelow(tris, pos);
    FlattenIndicesBelow(faces, |pos|);
  }

  /** A sub-multiset of the faces of a triangle list flattens to at most that many indices. */
  lemma FaceCountBound(faces: seq<TriFace>, all: seq<TriFace>, n: int)
    requires n % 3 == 0 && |all| == n / 3
    requires multiset(faces) <= multiset(all)
    ensures |Flatten(faces)| % 3 == 0 && |Flatten(faces)| <= n
  {
    var rest := multiset(all) - multiset(faces);
    assert multiset(all) == multiset(faces) + rest;
    assert |faces| == |multiset(faces)| <= |multiset(all)| == |all|;
  }
}
