// Face processing of the mesh generator: turning the source triangle list
// into faces over the transformed positions, back-face removal, and turning
// the (possibly sorted) faces back into a flat index list.
module MeshFaces {
  import opened Geometry
  import opened TriFaces

  /** The list splits into whole triangles and every entry indexes one of `n` vertices. */
  predicate ValidTriangles(tris: seq<int>, n: int) {
    |tris| % 3 == 0 && forall k | 0 <= k < |tris| :: 0 <= tris[k] < n
  }

  /** The face of triangle (a, b, c) over the positions `pos`, centroid included. */
  function MakeFace(a: int, b: int, c: int, pos: seq<Vec3>): TriFace
    requires 0 <= a < |pos| && 0 <= b < |pos| && 0 <= c < |pos|
  {
    TriFace(a, b, c, pos[a], pos[b], pos[c], Centroid(pos[a], pos[b], pos[c]))
  }

  predicate IsFront(f: TriFace) {
    FrontFacing(f.v0, f.v1, f.v2)
  }

  /** The vertex indices of a face all name one of `n` vertices. */
  predicate IndicesBelow(f: TriFace, n: int) {
    0 <= f.i0 < n && 0 <= f.i1 < n && 0 <= f.i2 < n
  }

  /** One face per source triangle, in source order. */
  function AllFaces(tris: seq<int>, pos: seq<Vec3>): (fs: seq<TriFace>)
    requires ValidTriangles(tris, |pos|)
    ensures |fs| == |tris| / 3
    decreases |tris|
  {
    if tris == [] then []
    else
      var n := |tris| - 3;
      AllFaces(tris[..n], pos) + [MakeFace(tris[n], tris[n + 1], tris[n + 2], pos)]
  }

  /** The faces of `fs` that face the viewer, in their original order. */
  function FrontFaces(fs: seq<TriFace>): (r: seq<TriFace>)
    ensures |r| <= |fs|
    decreases |fs|
  {
    if fs == [] then []
    else
      var rest := FrontFaces(fs[..|fs| - 1]);
      if IsFront(fs[|fs| - 1]) then rest + [fs[|fs| - 1]] else rest
  }

  /** `a` can be obtained from `b` by deleting elements. */
  predicate IsSubsequence(a: seq<TriFace>, b: seq<TriFace>)
    decreases |b|
  {
    if a == [] then true
    else if b == [] then false
    else if a[|a| - 1] == b[|b| - 1] then IsSubsequence(a[..|a| - 1], b[..|b| - 1])
    else IsSubsequence(a, b[..|b| - 1])
  }

  /** The index list of a face list: the three indices of each face, face after face. */
  function Flatten(fs: seq<TriFace>): (r: seq<int>)
    ensures |r| == 3 * |fs|
    decreases |fs|
  {
    if fs == [] then []
    else
      var last := fs[|fs| - 1];
      Flatten(fs[..|fs| - 1]) + [last.i0, last.i1, last.i2]
  }

  /** Face `k` is built from entries 3k, 3k+1 and 3k+2 of the triangle list. */
  lemma {:induction false} AllFacesAt(tris: seq<int>, pos: seq<Vec3>, k: int)
    requires ValidTriangles(tris, |pos|)
    requires 0 <= k < |tris| / 3
    ensures AllFaces(tris, pos)[k] == MakeFace(tris[3 * k], tris[3 * k + 1], tris[3 * k + 2], pos)
    decreases |tris|
  {
    var n := |tris| - 3;
    if k < n / 3 {
      AllFacesAt(tris[..n], pos, k);
    }
  }

  /** Entries 3k, 3k+1 and 3k+2 of a flattened list are the indices of face `k`. */
  lemma {:induction false} FlattenAt(fs: seq<TriFace>, k: int)
    requires 0 <= k < |fs|
    ensures Flatten(fs)[3 * k] == fs[k].i0
    ensures Flatten(fs)[3 * k + 1] == fs[k].i1
    ensures Flatten(fs)[3 * k + 2] == fs[k].i2
    decreases |fs|
  {
    if k < |fs| - 1 {
      FlattenAt(fs[..|fs| - 1], k);
    }
  }

  /**
   * Back-face removal keeps exactly the front faces: each face occurs in the
   * result as often as in the input if it faces the viewer and not at all
   * otherwise, and the kept faces stay in their relative order.
   */
  lemma {:induction false} FrontFacesSelects(fs: seq<TriFace>)
    ensures IsSubsequence(FrontFaces(fs), fs)
    ensures forall f | f in FrontFaces(fs) :: IsFront(f)
    ensures forall f :: multiset(FrontFaces(fs))[f] == if IsFront(f) then multiset(fs)[f] else 0
  {
    if fs != [] {
      var p, x := fs[..|fs| - 1], fs[|fs| - 1];
      assert fs == p + [x];
      FrontFacesSelects(p);
      var rest := FrontFaces(p);
      if IsFront(x) {
        assert (rest + [x])[..|rest|] == rest;
      } else if rest != [] {
        assert rest[|rest| - 1] in rest;
      }
    }
  }

  /** Back-face removal only ever drops faces. */
  lemma {:induction false} FrontFacesSubMultiset(fs: seq<TriFace>)
    ensures multiset(FrontFaces(fs)) <= multiset(fs)
    ensures |FrontFaces(fs)| <= |fs|
  {
    if fs != [] {
      var p, x := fs[..|fs| - 1], fs[|fs| - 1];
      assert fs == p + [x];
      FrontFacesSubMultiset(p);
    }
  }

  /** A mesh that faces the viewer everywhere loses no face to back-face removal. */
  lemma {:induction false} AllFrontKeepsAll(fs: seq<TriFace>)
    requires forall k | 0 <= k < |fs| :: IsFront(fs[k])
    ensures FrontFaces(fs) == fs
  {
    if fs != [] {
      AllFrontKeepsAll(fs[..|fs| - 1]);
    }
  }

  /** A mesh that faces away everywhere loses every face to back-face removal. */
  lemma {:induction false} AllBackDropsAll(fs: seq<TriFace>)
    requires forall k | 0 <= k < |fs| :: !IsFront(fs[k])
    ensures FrontFaces(fs) == []
  {
    if fs != [] {
      AllBackDropsAll(fs[..|fs| - 1]);
    }
  }

  /** Flattening all faces of a triangle list gives back that triangle list. */
  lemma {:induction false} AllFacesRoundTrip(tris: seq<int>, pos: seq<Vec3>)
    requires ValidTriangles(tris, |pos|)
    ensures Flatten(AllFaces(tris, pos)) == tris
    decreases |tris|
  {
    if tris != [] {
      var n := |tris| - 3;
      AllFacesRoundTrip(tris[..n], pos);
      var prefix := AllFaces(tris[..n], pos);
      var f := MakeFace(tris[n], tris[n + 1], tris[n + 2], pos);
      assert (prefix + [f])[..|prefix|] == prefix;
      assert tris == tris[..n] + [tris[n], tris[n + 1], tris[n + 2]];
    }
  }

  /** Every face built from a valid triangle list indexes the vertex list. */
  lemma AllFacesIndicesBelow(tris: seq<int>, pos: seq<Vec3>)
    requires ValidTriangles(tris, |pos|)
    ensures forall f | f in AllFaces(tris, pos) :: IndicesBelow(f, |pos|)
  {
    var fs := AllFaces(tris, pos);
    forall f | f in fs
      ensures IndicesBelow(f, |pos|)
    {
      var k :| 0 <= k < |fs| && fs[k] == f;
      AllFacesAt(tris, pos, k);
      assert f == MakeFace(tris[3 * k], tris[3 * k + 1], tris[3 * k + 2], pos);
    }
  }

  /** Flattening faces whose indices are below `n` gives indices below `n`. */
  lemma {:induction false} FlattenIndicesBelow(fs: seq<TriFace>, n: int)
    requires forall f | f in fs :: IndicesBelow(f, n)
    ensures forall m | 0 <= m < |Flatten(fs)| :: 0 <= Flatten(fs)[m] < n
  {
    if fs != [] {
      var p := fs[..|fs| - 1];
      assert forall f | f in p :: f in fs;
      FlattenIndicesBelow(p, n);
      assert fs[|fs| - 1] in fs;
    }
  }

  /**
   * Collects the faces of the source triangle list: every triangle, or, with
   * back-face removal, only the triangles whose normal points towards the
   * viewer.
   */
  method CollectFaces(tris: seq<int>, vertposs: seq<Vec3>, removeBackFace: bool)
    returns (faces: seq<TriFace>)
    requires ValidTriangles(tris, |vertposs|)
    ensures removeBackFace ==> faces == FrontFaces(AllFaces(tris, vertposs))
    ensures !removeBackFace ==> faces == AllFaces(tris, vertposs)
  {
    if removeBackFace {
      faces := CollectFrontFaces(tris, vertposs);
    } else {
      faces := CollectAllFaces(tris, vertposs);
    }
  }

  /**
   * The back-face removal loop: computes each triangle's normal from its
   * transformed corners and keeps the triangle only when the normal points
   * towards the viewer. One working face value is overwritten per kept triangle.
   */
  method CollectFrontFaces(tris: seq<int>, vertposs: seq<Vec3>) returns (faces: seq<TriFace>)
    requires ValidTriangles(tris, |vertposs|)
    ensures faces == FrontFaces(AllFaces(tris, vertposs))
  {
    faces := [];
    var triface := TriFace(0, 0, 0, Zero3, Zero3, Zero3, Zero3);
    var tricount := |tris|;
    var i := 0;
    while i < tricount
      invariant 0 <= i <= tricount && i % 3 == 0
      invariant faces == FrontFaces(AllFaces(tris[..i], vertposs))
    {
      FacesOfLongerPrefix(tris, vertposs, i);
      var i0, i1, i2 := tris[i], tris[i + 1], tris[i + 2];
      var v0, v1, v2 := vertposs[i0], vertposs[i1], vertposs[i2];
      var v01 := Sub(v1, v0);
      var v02 := Sub(v2, v0);
      var n := Cross(v01, v02);
      ghost var f := MakeFace(i0, i1, i2, vertposs);
      assert IsFront(f) <==> n.z < 0.0;
      if n.z < 0.0 {
        triface := triface.SetFace(i0, i1, i2);
        triface := triface.SetVertices(v0, v1, v2);
        assert triface == f;
        faces := faces + [triface];
      }
      i := i + 3;
    }
    assert tris[..tricount] == tris;
  }

  /** The loop that builds one face per triangle when no face is removed. */
  method CollectAllFaces(tris: seq<int>, vertposs: seq<Vec3>) returns (faces: seq<TriFace>)
    requires ValidTriangles(tris, |vertposs|)
    ensures faces == AllFaces(tris, vertposs)
  {
    faces := [];
    var triface := TriFace(0, 0, 0, Zero3, Zero3, Zero3, Zero3);
    var tricount := |tris|;
    var i := 0;
    while i < tricount
      invariant 0 <= i <= tricount && i % 3 == 0
      invariant faces == AllFaces(tris[..i], vertposs)
    {
      FacesOfLongerPrefix(tris, vertposs, i);
      triface := triface.SetFace(tris[i], tris[i + 1], tris[i + 2]);
      triface := triface.SetVertices(vertposs[triface.i0], vertposs[triface.i1], vertposs[triface.i2]);
      faces := faces + [triface];
      i := i + 3;
    }
    assert tris[..tricount] == tris;
  }

  /** Extending a prefix of the triangle list by one triangle adds its face at the end. */
  lemma FacesOfLongerPrefix(tris: seq<int>, pos: seq<Vec3>, i: int)
    requires ValidTriangles(tris, |pos|)
    requires 0 <= i < |tris| && i % 3 == 0
    ensures i + 3 <= |tris|
    ensures ValidTriangles(tris[..i], |pos|) && ValidTriangles(tris[..i + 3], |pos|)
    ensures AllFaces(tris[..i + 3], pos)
         == AllFaces(tris[..i], pos) + [MakeFace(tris[i], tris[i + 1], tris[i + 2], pos)]
    ensures FrontFaces(AllFaces(tris[..i + 3], pos))
         == FrontFaces(AllFaces(tris[..i], pos))
            + (if IsFront(MakeFace(tris[i], tris[i + 1], tris[i + 2], pos))
               then [MakeFace(tris[i], tris[i + 1], tris[i + 2], pos)] else [])
  {
    var q, t := i / 3, |tris| / 3;
    assert i == 3 * q && |tris| == 3 * t;
    assert q + 1 <= t;
    assert (i + 3) % 3 == 0;
    assert tris[..i + 3][..i] == tris[..i];
    var all := AllFaces(tris[..i], pos);
    var f := MakeFace(tris[i], tris[i + 1], tris[i + 2], pos);
    assert (all + [f])[..|all|] == all;
  }

  /** Emits the three indices of each face, face after face. */
  method FlattenFaces(faces: seq<TriFace>) returns (indices: seq<int>)
    ensures indices == Flatten(faces)
  {
    indices := [];
    for k := 0 to |faces|
      invariant indices == Flatten(faces[..k])
    {
      var f := faces[k];
      assert faces[..k + 1][..k] == faces[..k];
      indices := indices + [f.i0];
      indices := indices + [f.i1];
      indices := indices + [f.i2];
    }
    assert faces[..|faces|] == faces;
  }
}
