# Resolution-free image: mesh icon and fragment pattern

This project is a Dafny model of the two geometry generators of the
resolution-free UI image components.

**MeshIcon.** This generator starts from the layout rectangle and trims it by four margins. It then does one of two things:

- With a source mesh, it scales and centres the mesh into the trimmed area. The scale follows the Stretch, Fit or NoScale policy. It emits one UI vertex per source vertex, and emits one of two index lists:
  - the source triangle list unchanged; or
  - the list after the faces were collected, back faces optionally removed and the faces optionally sorted by centroid depth, then flattened back to indices.
- Without a mesh, it emits a quad over the trimmed area.

**FragmentPattern.** This generator emits a quad over the margin-trimmed rectangle. Its texture coordinates span the unit square, and its second texture channel carries the quad's size.

The model is laid out as follows:

- All coordinates are exact `real`s.
- The vertex builder is a class holding the vertex and index sequences.
- The per-vertex and per-triangle loops are methods proved equal to specification functions.
- The face list is an array sorted in place by an insertion sort. The sort is proved to leave the array sorted under the mode's comparator and to be a permutation of its input.

Modules:

- `Geometry`: vectors, colours, the layout rectangle stored as origin and size, margins.
- `UI`: the emitted vertex, the framework's template vertex, and the `VertexHelper` builder.
- `TriFaces`: the face record, the depth comparators and the face sort.
- `MeshFaces`: building faces from a triangle list, back-face removal, flattening.
- `MeshIcon`: the scale policy, the vertex loop, the quad fallback, the whole generator.
- `FragmentPattern`: the pattern quad.

The depth-sort naming follows the code. Mode `Normal` sorts with `CompareByZReverse`, which puts larger centroid depth first; mode `Reverse` sorts with `CompareByZ`, which puts smaller depth first. For faces at depths 1, 3 and 2, `Normal` therefore yields depths 3, 2, 1 and `Reverse` yields 1, 2, 3 (`TriFaces.SortExample`). This matches the source's own comments: the camera looks along +z (MeshIcon.cs:220), `Normal` is commented as descending order (MeshIcon.cs:223) and `Reverse` as ascending order (MeshIcon.cs:227). Descending depth draws the faces farthest from the camera first.

## Model

| member | source | states |
|---|---|---|
| Geometry.ApplyMargin | ResolutionFreeImage/Assets/Scripts/MeshIcon.cs:94-97 | the trimmed area's left edge is xMin+left, right edge xMax−right, bottom yMin+bottom, top yMax−top; width is width−left−right and height is height−bottom−top |
| Geometry.MarginSizeIndependentOfPosition | ResolutionFreeImage/Assets/Scripts/MeshIcon.cs:94-97 | two rectangles of equal size stay equal in size after trimming, wherever they sit; the centre moves by half the left/right and bottom/top imbalance |
| Geometry.Rect.WithXMin | ResolutionFreeImage/Assets/Scripts/MeshIcon.cs:94 | setting the left edge leaves the right, bottom and top edges where they were |
| Geometry.Rect.WithXMax | ResolutionFreeImage/Assets/Scripts/MeshIcon.cs:95 | setting the right edge leaves the other three edges where they were |
| Geometry.Rect.WithYMin | ResolutionFreeImage/Assets/Scripts/MeshIcon.cs:96 | setting the bottom edge leaves the other three edges where they were |
| Geometry.Rect.WithYMax | ResolutionFreeImage/Assets/Scripts/MeshIcon.cs:97 | setting the top edge leaves the other three edges where they were |
| Geometry.Min | ResolutionFreeImage/Assets/Scripts/MeshIcon.cs:113 | the result is one of the two arguments and no larger than either |
| MeshIcon.ScaleFor | ResolutionFreeImage/Assets/Scripts/MeshIcon.cs:108-125 | Stretch scales x by w/meshW, y by h/meshH and z by the smaller of the two; Fit scales all three axes by min(w/meshW, h/meshH); NoScale gives (1,1,1) |
| MeshIcon.FitFillsOneAxis | ResolutionFreeImage/Assets/Scripts/MeshIcon.cs:115-121 | with positive mesh extents, Fit keeps the scaled mesh inside the area on both axes and fills it exactly on at least one |
| MeshIcon.StretchFillsBothAxes | ResolutionFreeImage/Assets/Scripts/MeshIcon.cs:110-114 | Stretch makes the scaled mesh extents equal to the area's width and height |
| MeshIcon.ScaleFitsArea | ResolutionFreeImage/Assets/Scripts/MeshIcon.cs:109-121 | with positive mesh extents and a non-negative area, Fit and Stretch scale factors are non-negative and the scaled extents fit inside the area |
| MeshIcon.PlacementStaysInRect | ResolutionFreeImage/Assets/Scripts/MeshIcon.cs:105-152 | with Fit or Stretch, positive extents and the mesh centred on its bounds, every point inside the bounds lands inside the trimmed area, and the bounds centre lands on the area's centre |
| MeshIcon.MeshCenter | ResolutionFreeImage/Assets/Scripts/MeshIcon.cs:134 | the mesh is placed around its own origin when keepMeshOrigin is set and around its bounds centre otherwise |
| MeshIcon.RectOffset | ResolutionFreeImage/Assets/Scripts/MeshIcon.cs:136-138 | the placement target is the midpoint of the trimmed area's left and right edges and of its bottom and top edges, at depth 0 |
| MeshIcon.Place | ResolutionFreeImage/Assets/Scripts/MeshIcon.cs:150-152 | a placed position's offset from the target is the source position's offset from the mesh centre, scaled per axis |
| MeshIcon.PlacementWithin | ResolutionFreeImage/Assets/Scripts/MeshIcon.cs:150-152 | any non-negative scale that fits the mesh extent into the area keeps every point of the bounds inside the area |
| MeshIcon.MeshVertex | ResolutionFreeImage/Assets/Scripts/MeshIcon.cs:155-168 | the emitted vertex keeps the placed x and y, keeps z only under keepMeshZ, passes the normal and tangent through, is the tint alone without mesh colours and black times the tint past the end of the colour channel, and has uv0 zero past the end of the uv channel |
| MeshIcon.PlacedPositions | ResolutionFreeImage/Assets/Scripts/MeshIcon.cs:147-153 | one placed position per source vertex |
| MeshIcon.MeshVertices | ResolutionFreeImage/Assets/Scripts/MeshIcon.cs:146-170 | one emitted vertex per source vertex, so the vertex count equals the source vertex count |
| MeshIcon.TransformVertices | ResolutionFreeImage/Assets/Scripts/MeshIcon.cs:143-170 | the vertex loop records exactly the placed positions, depth included, and emits exactly the per-vertex output of every source vertex in source order |
| MeshIcon.EmittedDepth | ResolutionFreeImage/Assets/Scripts/MeshIcon.cs:127-156 | an emitted position has the placed x and y, and the placed z when keepMeshZ is set, 0 otherwise |
| MeshIcon.ChannelsArePadded | ResolutionFreeImage/Assets/Scripts/MeshIcon.cs:159-168 | each emitted uv channel is the source channel padded with (0,0) to the vertex count; emitted colours are the source colours padded with black and multiplied by the tint, or the tint alone when mesh colours are off |
| MeshIcon.FitCubeExample | ResolutionFreeImage/Assets/Scripts/MeshIcon.cs:115-156 | a unit cube fitted into a 100×50 area gets scale 50, and its corner (0.5,0.5,0.5) lands at (75,50) with depth 25 if kept and 0 otherwise |
| MeshIcon.QuadCorners | ResolutionFreeImage/Assets/Scripts/MeshIcon.cs:248-253 | four corners of the rectangle, each on a vertical and a horizontal edge, consecutive corners sharing a side, starting at (xMin,yMin) with (xMax,yMax) opposite |
| MeshIcon.QuadVertex | ResolutionFreeImage/Assets/Scripts/MeshIcon.cs:257-262 | the vertex sits at the corner at depth 0 in the tint colour, its uv0 maps back onto the corner through the rectangle's origin and size, and its other channels are the template vertex's |
| MeshIcon.PopulateQuad | ResolutionFreeImage/Assets/Scripts/MeshIcon.cs:246-265 | the builder afterwards holds exactly four vertices, at the corners in the order (xMin,yMin), (xMin,yMax), (xMax,yMax), (xMax,yMin), and the indices 0,1,2,2,3,0 |
| MeshIcon.QuadLayout | ResolutionFreeImage/Assets/Scripts/MeshIcon.cs:253-263 | the quad's uv0 values are (0,0), (0,1), (1,1), (1,0) in emission order; every colour is the tint and every depth 0; every index is below 4 |
| MeshIcon.ProcessFaces | ResolutionFreeImage/Assets/Scripts/MeshIcon.cs:180-240 | the emitted indices are the flattened faces; the faces are a permutation of the collected faces (front faces only under culling), equal to them in source order when unsorted and ordered by the mode's comparator when sorted |
| MeshIcon.OnPopulateMesh | ResolutionFreeImage/Assets/Scripts/MeshIcon.cs:91-244 | without a mesh, the output is the quad over the trimmed area; with a mesh, the vertices are the per-vertex outputs in source order, and the indices are the source triangles verbatim when neither culling nor sorting is on, otherwise the flattened kept faces: a permutation of the source faces (front faces only under culling), in source order when unsorted and ordered by the mode's comparator when sorted |
| MeshIcon.EmittedTrianglesFromSource | ResolutionFreeImage/Assets/Scripts/MeshIcon.cs:176-240 | every emitted face is a face of the source mesh; the emitted index list is whole triangles, no longer than the source list, exactly as long without culling, and every index names an emitted vertex |
| MeshIcon.FaceCountBound | ResolutionFreeImage/Assets/Scripts/MeshIcon.cs:182-240 | any selection of the source faces flattens to a whole number of triangles, no more indices than the source list |
| TriFaces.Centroid | ResolutionFreeImage/Assets/Scripts/MeshIcon.cs:49 | the offsets of the three corners from the centroid sum to zero |
| TriFaces.NormalZ | ResolutionFreeImage/Assets/Scripts/MeshIcon.cs:194-196 | the z component of cross(v1−v0, v2−v0), which reads only x and y: (x1−x0)(y2−y0) − (y1−y0)(x2−x0) |
| TriFaces.FrontFacing | ResolutionFreeImage/Assets/Scripts/MeshIcon.cs:194-197 | a triangle faces the viewer exactly when (x1−x0)(y2−y0) < (y1−y0)(x2−x0) |
| TriFaces.TriFace.SetFace | ResolutionFreeImage/Assets/Scripts/MeshIcon.cs:31-35 | sets the three indices and leaves the positions and centroid unchanged |
| TriFaces.TriFace.SetFaceWinding | ResolutionFreeImage/Assets/Scripts/MeshIcon.cs:37-43 | for a back face the last two indices are exchanged, otherwise they are stored as given |
| TriFaces.TriFace.SetVertices | ResolutionFreeImage/Assets/Scripts/MeshIcon.cs:45-50 | sets the three positions, leaves the indices, and makes the centroid (v0+v1+v2)/3 |
| TriFaces.CentroidDepthWithinCorners | ResolutionFreeImage/Assets/Scripts/MeshIcon.cs:49 | the centroid depth lies between the smallest and largest corner depth |
| TriFaces.SwappedWindingNegatesNormal | ResolutionFreeImage/Assets/Scripts/MeshIcon.cs:194-197 | reversing the winding negates the normal's z, so a front face becomes a back face |
| TriFaces.FacingIgnoresDepth | ResolutionFreeImage/Assets/Scripts/MeshIcon.cs:194-197 | the facing test depends only on x and y of the corners |
| TriFaces.CompareByZ | ResolutionFreeImage/Assets/Scripts/MeshIcon.cs:52-57 | returns 0 exactly when the centroid depths are equal, a negative value exactly when the first is smaller, and one of −1, 0, 1 |
| TriFaces.CompareByZReverse | ResolutionFreeImage/Assets/Scripts/MeshIcon.cs:58-63 | returns 0 exactly when the centroid depths are equal, a negative value exactly when the first is larger, and one of −1, 0, 1 |
| TriFaces.ComparatorsAreOrders | ResolutionFreeImage/Assets/Scripts/MeshIcon.cs:52-63 | both comparators are antisymmetric, reflexive and transitive, and each is the other with its arguments exchanged |
| TriFaces.SortedByMeansDepthOrder | ResolutionFreeImage/Assets/Scripts/MeshIcon.cs:221-229 | a list in Normal order has non-increasing centroid depth and in Reverse order non-decreasing, in both directions |
| TriFaces.CompareIsKeyOrder | ResolutionFreeImage/Assets/Scripts/MeshIcon.cs:221-229 | the mode's comparator is the sign of the difference of the depth keys (−z for Normal, z for Reverse) |
| TriFaces.KeySortedIsSortedBy | ResolutionFreeImage/Assets/Scripts/MeshIcon.cs:221-229 | a list is ordered by key exactly when it is ordered by the mode's comparator |
| TriFaces.InsertFace | ResolutionFreeImage/Assets/Scripts/MeshIcon.cs:221-233 | one insertion step extends the ordered prefix by one face, leaves the rest of the list alone and keeps its contents |
| TriFaces.SortFaces | ResolutionFreeImage/Assets/Scripts/MeshIcon.cs:221-233 | the face list is afterwards ordered by the mode's comparator and is a permutation of what it was |
| TriFaces.SortExample | ResolutionFreeImage/Assets/Scripts/MeshIcon.cs:221-229 | faces at depths 1, 3, 2 are drawn 3, 2, 1 in Normal order and 1, 2, 3 in Reverse order, whatever order they start in |
| MeshFaces.AllFaces | ResolutionFreeImage/Assets/Scripts/MeshIcon.cs:204-217 | one face per source triangle |
| MeshFaces.AllFacesAt | ResolutionFreeImage/Assets/Scripts/MeshIcon.cs:205-216 | face k holds triangle entries 3k, 3k+1, 3k+2, their placed positions and centroid |
| MeshFaces.Flatten | ResolutionFreeImage/Assets/Scripts/MeshIcon.cs:236-240 | three indices per face |
| MeshFaces.FlattenAt | ResolutionFreeImage/Assets/Scripts/MeshIcon.cs:236-240 | index 3k+j of the flattened list is index j of face k |
| MeshFaces.AllFacesRoundTrip | ResolutionFreeImage/Assets/Scripts/MeshIcon.cs:176-240 | flattening the faces of every triangle gives back the source triangle list, so a mesh that is neither culled nor sorted gives the same indices either way |
| MeshFaces.AllFacesIndicesBelow | ResolutionFreeImage/Assets/Scripts/MeshIcon.cs:188-193 | every face of a valid triangle list indexes the vertex list |
| MeshFaces.FlattenIndicesBelow | ResolutionFreeImage/Assets/Scripts/MeshIcon.cs:236-240 | flattening faces that index the vertex list gives indices into the vertex list |
| MeshFaces.FrontFaces | ResolutionFreeImage/Assets/Scripts/MeshIcon.cs:185-202 | culling never lengthens the face list; which faces it keeps is stated by FrontFacesSelects |
| MeshFaces.FrontFacesSelects | ResolutionFreeImage/Assets/Scripts/MeshIcon.cs:185-202 | culling keeps exactly the faces whose normal z is negative, each as often as in the source and none other, in their source order |
| MeshFaces.FrontFacesSubMultiset | ResolutionFreeImage/Assets/Scripts/MeshIcon.cs:185-202 | culling only ever drops faces |
| MeshFaces.AllFrontKeepsAll | ResolutionFreeImage/Assets/Scripts/MeshIcon.cs:197 | a mesh facing the viewer everywhere loses no face to culling |
| MeshFaces.AllBackDropsAll | ResolutionFreeImage/Assets/Scripts/MeshIcon.cs:197 | a mesh facing away everywhere loses every face to culling |
| MeshFaces.CollectFaces | ResolutionFreeImage/Assets/Scripts/MeshIcon.cs:182-218 | the collected faces are the front faces of the triangle list under culling, and all of its faces otherwise, in source order |
| MeshFaces.CollectFrontFaces | ResolutionFreeImage/Assets/Scripts/MeshIcon.cs:185-202 | the culling loop collects exactly the front faces, in source order |
| MeshFaces.CollectAllFaces | ResolutionFreeImage/Assets/Scripts/MeshIcon.cs:203-217 | the non-culling loop collects exactly one face per triangle, in source order |
| MeshFaces.FacesOfLongerPrefix | ResolutionFreeImage/Assets/Scripts/MeshIcon.cs:187-217 | one more loop step appends the next triangle's face to the faces collected so far |
| MeshFaces.FlattenFaces | ResolutionFreeImage/Assets/Scripts/MeshIcon.cs:236-240 | the index loop emits exactly the flattened faces |
| FragmentPattern.PatternVertex | ResolutionFreeImage/Assets/Scripts/FragmentPattern.cs:54-60 | the vertex sits at the corner at depth 0 in the tint colour, its uv0 maps back onto the corner through the area's origin and size, uv1 is the area's size, and its other channels are the template vertex's |
| FragmentPattern.PatternVertices | ResolutionFreeImage/Assets/Scripts/FragmentPattern.cs:38-61 | four vertices at (xmin,ymin), (xmin,ymax), (xmax,ymax), (xmax,ymin) of the margin-trimmed rectangle, depth 0, uv0 at (0,0), (0,1), (1,1), (1,0), uv1 equal to (w,h), colour equal to the tint, and the template vertex's normal, tangent, uv2 and uv3 |
| FragmentPattern.PatternIsSizedQuad | ResolutionFreeImage/Assets/Scripts/FragmentPattern.cs:45-61 | the pattern's vertices are the icon's fallback quad over the same trimmed area with the area's size added in uv1 |
| FragmentPattern.OnPopulateMesh | ResolutionFreeImage/Assets/Scripts/FragmentPattern.cs:36-65 | after clearing, the builder holds exactly the four pattern vertices and the indices 0,1,2,2,3,0 |

## Left out

- Floating point is not modelled: rounding, NaN and infinity. Where the code divides, a precondition requires a nonzero divisor instead: the mesh extents x and y for Stretch and Fit, and the width and height of the quad area.
- MeshIcon.MeshVertex: colours are exact reals and tinting is their exact component-wise product. In the source the working vertex's colour field is 8 bits per channel. A mesh colour is therefore clamped to [0,1] and rounded to a multiple of 1/255 when it is stored (MeshIcon.cs:160). The tinted product is clamped and rounded again (MeshIcon.cs:161). So a mesh red of 2.0 under a tint red of 0.5 comes out as about 128/255, not 1.0 as modelled. MeshIcon.ChannelsArePadded states the same exact product.
- MeshIcon.QuadVertex: the tint is stored unrounded; the source clamps and rounds it once to 8 bits per channel (MeshIcon.cs:163 on the mesh path with mesh colours off, MeshIcon.cs:261 on the quad path).
- FragmentPattern.PatternVertex: the tint is stored unrounded; the source clamps and rounds it once to 8 bits per channel (FragmentPattern.cs:59).
- The mesh's normal and tangent channels are read for every vertex without a length check. The model therefore requires them to be at least as long as the vertex list rather than modelling an out-of-range failure.
- The source triangle list is required to have a length that is a multiple of 3, with every entry indexing a vertex. Malformed meshes are not modelled.
- Engine plumbing is outside the model:
  - the `mainTexture` override and its texture/material fallback;
  - the `MaskableGraphic` base class;
  - `RectTransform.rect` and `GetPixelAdjustedRect`, whose result is an input here;
  - the mesh's bounds, whose centre and size are inputs rather than computed from the vertices;
  - the internals of `VertexHelper`, modelled only as its vertex and index sequences.
- TriFaces.SortFaces: `List<T>.Sort` is not stable, so only sortedness and permutation are claimed. The relative order of faces at equal depth is left open. The sort itself is an insertion sort standing in for the library sort.
- MeshIcon.FitCubeExample: the example starts from the trimmed area directly and does not apply margins.
- TriFaces.TriFace.SetFaceWinding: the back-face overload of `SetFace` is never called by the generator. It is modelled on its own and used nowhere else.
