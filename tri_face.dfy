// One triangle of a source mesh during face processing: its three vertex
// indices, its three transformed corner positions and their centroid, the
// depth comparators that order faces, and the in-place face sort.
module TriFaces {
  import opened Geometry

  /** How faces are ordered before they are emitted. */
  datatype SortMode = None | Normal | Reverse

  /** The mean of three corners: the offsets of the corners from it sum to zero. */
  function Centroid(a: Vec3, b: Vec3, c: Vec3): (g: Vec3)
    ensures Add(Add(Sub(a, g), Sub(b, g)), Sub(c, g)) == Zero3
  {
    Vec3((a.x + b.x + c.x) / 3.0, (a.y + b.y + c.y) / 3.0, (a.z + b.z + c.z) / 3.0)
  }

  /** The centroid depth lies within the depths of the corners. */
  lemma CentroidDepthWithinCorners(a: Vec3, b: Vec3, c: Vec3)
    ensures Min(Min(a.z, b.z), c.z) <= Centroid(a, b, c).z
    ensures Centroid(a, b, c).z <= -Min(Min(-a.z, -b.z), -c.z)
    ensures a.z == b.z == c.z ==> Centroid(a, b, c).z == a.z
  {
  }

  datatype TriFace = TriFace(i0: int, i1: int, i2: int, v0: Vec3, v1: Vec3, v2: Vec3, vc: Vec3) {

    /** The stored centroid belongs to the stored corners. */
    predicate Consistent() {
      vc == Centroid(v0, v1, v2)
    }

    /** Sets the three vertex indices; positions and centroid stay as they were. */
    function SetFace(a: int, b: int, c: int): (r: TriFace)
      ensures r.i0 == a && r.i1 == b && r.i2 == c
      ensures r.v0 == v0 && r.v1 == v1 && r.v2 == v2 && r.vc == vc
      ensures Consistent() ==> r.Consistent()
    {
      this.(i0 := a, i1 := b, i2 := c)
    }

    /** Sets the indices, swapping the last two (reversing the winding) for a back face. */
    function SetFaceWinding(a: int, b: int, c: int, backface: bool): (r: TriFace)
      ensures r.i0 == a
      ensures backface ==> r.i1 == c && r.i2 == b
      ensures !backface ==> r.i1 == b && r.i2 == c
      ensures r.v0 == v0 && r.v1 == v1 && r.v2 == v2 && r.vc == vc
    {
      if backface then SetFace(a, c, b) else SetFace(a, b, c)
    }

    /** Sets the three corner positions and recomputes the centroid; indices stay. */
    function SetVertices(a: Vec3, b: Vec3, c: Vec3): (r: TriFace)
      ensures r.v0 == a && r.v1 == b && r.v2 == c
      ensures r.i0 == i0 && r.i1 == i1 && r.i2 == i2
      ensures r.Consistent()
    {
      var f := this.(v0 := a, v1 := b, v2 := c);
      f.(vc := Centroid(f.v0, f.v1, f.v2))
    }
  }

  /** The depth component of the face normal cross(v1 - v0, v2 - v0). */
  function NormalZ(v0: Vec3, v1: Vec3, v2: Vec3): (n: real)
    ensures n == (v1.x - v0.x) * (v2.y - v0.y) - (v1.y - v0.y) * (v2.x - v0.x)
  {
    Cross(Sub(v1, v0), Sub(v2, v0)).z
  }

  /** A face faces the viewer when its normal points towards -Z. */
  predicate FrontFacing(v0: Vec3, v1: Vec3, v2: Vec3)
    ensures FrontFacing(v0, v1, v2) <==> (v1.x - v0.x) * (v2.y - v0.y) < (v1.y - v0.y) * (v2.x - v0.x)
  {
    NormalZ(v0, v1, v2) < 0.0
  }

  /** Swapping the last two corners reverses the winding and so negates the normal. */
  lemma SwappedWindingNegatesNormal(v0: Vec3, v1: Vec3, v2: Vec3)
    ensures NormalZ(v0, v2, v1) == -NormalZ(v0, v1, v2)
    ensures FrontFacing(v0, v1, v2) ==> !FrontFacing(v0, v2, v1)
  {
  }

  /** The facing test reads only x and y, so flattening the depth cannot change it. */
  lemma FacingIgnoresDepth(v0: Vec3, v1: Vec3, v2: Vec3, z0: real, z1: real, z2: real)
    ensures NormalZ(v0, v1, v2) == NormalZ(v0.(z := z0), v1.(z := z1), v2.(z := z2))
  {
  }

  /** Three-way comparison of centroid depth, nearer (smaller z) first. */
  function CompareByZ(a: TriFace, b: TriFace): (r: int)
    ensures r == 0 <==> a.vc.z == b.vc.z
    ensures r < 0 <==> a.vc.z < b.vc.z
    ensures -1 <= r <= 1
  {
    if a.vc.z == b.vc.z then 0
    else if a.vc.z < b.vc.z then -1 else 1
  }

  /** Three-way comparison of centroid depth, farther (larger z) first. */
  function CompareByZReverse(a: TriFace, b: TriFace): (r: int)
    ensures r == 0 <==> a.vc.z == b.vc.z
    ensures r < 0 <==> a.vc.z > b.vc.z
    ensures -1 <= r <= 1
  {
    if a.vc.z == b.vc.z then 0
    else if a.vc.z < b.vc.z then 1 else -1
  }

  /**
   * Both comparators are antisymmetric and transitive, i.e. valid
   * comparison functions for a sort, and each is the other with its
   * arguments exchanged.
   */
  lemma ComparatorsAreOrders(a: TriFace, b: TriFace, c: TriFace)
    ensures CompareByZ(a, b) == -CompareByZ(b, a)
    ensures CompareByZReverse(a, b) == -CompareByZReverse(b, a)
    ensures CompareByZReverse(a, b) == CompareByZ(b, a)
    ensures CompareByZ(a, a) == 0 && CompareByZReverse(a, a) == 0
    ensures CompareByZ(a, b) <= 0 && CompareByZ(b, c) <= 0 ==> CompareByZ(a, c) <= 0
    ensures CompareByZReverse(a, b) <= 0 && CompareByZReverse(b, c) <= 0 ==> CompareByZReverse(a, c) <= 0
  {
  }

  /** The comparator a sort mode uses: Normal sorts with the reverse comparator, Reverse with the plain one. */
  function Compare(mode: SortMode, a: TriFace, b: TriFace): int
    requires mode != SortMode.None
  {
    if mode == Normal then CompareByZReverse(a, b) else CompareByZ(a, b)
  }

  predicate SortedBy(mode: SortMode, s: seq<TriFace>)
    requires mode != SortMode.None
  {
    forall i, j | 0 <= i < j < |s| :: Compare(mode, s[i], s[j]) <= 0
  }

  /** Normal order is non-increasing centroid depth; Reverse order is non-decreasing. */
  lemma SortedByMeansDepthOrder(s: seq<TriFace>)
    ensures SortedBy(Normal, s) <==> forall i, j | 0 <= i < j < |s| :: s[i].vc.z >= s[j].vc.z
    ensures SortedBy(Reverse, s) <==> forall i, j | 0 <= i < j < |s| :: s[i].vc.z <= s[j].vc.z
  {
  }

  /** The sort key of a face under `mode`: a face with the smaller key is emitted first. */
  function Key(mode: SortMode, f: TriFace): real
    requires mode != SortMode.None
  {
    if mode == Normal then -f.vc.z else f.vc.z
  }

  /** A comparator result is the sign of the key difference. */
  lemma CompareIsKeyOrder(mode: SortMode, a: TriFace, b: TriFace)
    requires mode != SortMode.None
    ensures Compare(mode, a, b) <= 0 <==> Key(mode, a) <= Key(mode, b)
    ensures Compare(mode, a, b) > 0 <==> Key(mode, b) < Key(mode, a)
  {
  }

  predicate KeySorted(mode: SortMode, s: seq<TriFace>)
    requires mode != SortMode.None
  {
    forall i, j | 0 <= i < j < |s| :: Key(mode, s[i]) <= Key(mode, s[j])
  }

  lemma KeySortedIsSortedBy(mode: SortMode, s: seq<TriFace>)
    requires mode != SortMode.None
    ensures KeySorted(mode, s) <==> SortedBy(mode, s)
  {
    forall i, j | 0 <= i < j < |s| {
      CompareIsKeyOrder(mode, s[i], s[j]);
    }
  }

  /** Exchanges two neighbouring faces. */
  method SwapAdjacent(a: array<TriFace>, j: int)
    requires 0 < j < a.Length
    modifies a
    ensures a[..] == old(a[..])[j - 1 := old(a[j])][j := old(a[j - 1])]
    ensures multiset(a[..]) == multiset(old(a[..]))
  {
    a[j - 1], a[j] := a[j], a[j - 1];
  }

  /**
   * The state of an insertion step that has carried the face being inserted
   * down to position `j`: the other faces up to `i` are in key order, and the
   * inserted face has a smaller key than every face after it.
   */
  predicate Inserting(mode: SortMode, s: seq<TriFace>, i: int, j: int)
    requires mode != SortMode.None
  {
    && 0 <= j <= i < |s|
    && (forall p, q | 0 <= p < q <= i && p != j && q != j :: Key(mode, s[p]) <= Key(mode, s[q]))
    && (forall q | j < q <= i :: Key(mode, s[j]) < Key(mode, s[q]))
  }

  lemma InsertingStart(mode: SortMode, s: seq<TriFace>, i: int)
    requires mode != SortMode.None
    requires 0 <= i < |s| && KeySorted(mode, s[..i])
    ensures Inserting(mode, s, i, i)
  {
    forall p, q | 0 <= p < q < i
      ensures Key(mode, s[p]) <= Key(mode, s[q])
    {
      assert s[p] == s[..i][p] && s[q] == s[..i][q];
    }
  }

  /** Exchanging the inserted face with a neighbour of larger key moves it one place down. */
  lemma InsertingSwap(mode: SortMode, s: seq<TriFace>, i: int, j: int)
    requires mode != SortMode.None
    requires Inserting(mode, s, i, j) && 0 < j
    requires Key(mode, s[j]) < Key(mode, s[j - 1])
    ensures Inserting(mode, s[j - 1 := s[j]][j := s[j - 1]], i, j - 1)
  {
  }

  /** Once its left neighbour has no larger key, the inserted face is in place. */
  lemma InsertingDone(mode: SortMode, s: seq<TriFace>, i: int, j: int)
    requires mode != SortMode.None
    requires Inserting(mode, s, i, j)
    requires 0 < j ==> Key(mode, s[j - 1]) <= Key(mode, s[j])
    ensures KeySorted(mode, s[..i + 1])
  {
    var t := s[..i + 1];
    forall p, q | 0 <= p < q < |t|
      ensures Key(mode, t[p]) <= Key(mode, t[q])
    {
      if p == j || q == j {
      } else if p < j < q {
        assert Key(mode, s[p]) <= Key(mode, s[j - 1]);
      }
    }
  }

  /**
   * Moves the face at `i` left past every face that the comparator puts
   * after it, so that the first `i + 1` faces are ordered.
   */
  method InsertFace(a: array<TriFace>, i: int, mode: SortMode)
    requires mode != SortMode.None
    requires 0 <= i < a.Length
    requires KeySorted(mode, a[..i])
    modifies a
    ensures KeySorted(mode, a[..i + 1])
    ensures a[i + 1..] == old(a[i + 1..])
    ensures multiset(a[..]) == multiset(old(a[..]))
  {
    InsertingStart(mode, a[..], i);
    var j := i;
    while 0 < j && Compare(mode, a[j - 1], a[j]) > 0
      invariant Inserting(mode, a[..], i, j)
      invariant a[i + 1..] == old(a[i + 1..])
      invariant multiset(a[..]) == multiset(old(a[..]))
    {
      CompareIsKeyOrder(mode, a[j - 1], a[j]);
      InsertingSwap(mode, a[..], i, j);
      SwapAdjacent(a, j);
      j := j - 1;
    }
    if 0 < j {
      CompareIsKeyOrder(mode, a[j - 1], a[j]);
    }
    InsertingDone(mode, a[..], i, j);
  }

  /**
   * Sorts the face list in place with the comparator of `mode`: the result
   * is ordered and holds exactly the faces it held before. Equal faces may
   * end up in any order.
   */
  method SortFaces(a: array<TriFace>, mode: SortMode)
    requires mode != SortMode.None
    modifies a
    ensures SortedBy(mode, a[..])
    ensures multiset(a[..]) == multiset(old(a[..]))
  {
    var i := 0;
    while i < a.Length
      invariant 0 <= i <= a.Length
      invariant KeySorted(mode, a[..i])
      invariant multiset(a[..]) == multiset(old(a[..]))
    {
      InsertFace(a, i, mode);
      i := i + 1;
    }
    assert a[..a.Length] == a[..];
    KeySortedIsSortedBy(mode, a[..]);
  }

  /**
   * Three faces at depths 1, 3 and 2: Normal order draws them as 3, 2, 1 and
   * Reverse order as 1, 2, 3, whatever permutation the sort starts from.
   */
  lemma SortExample(a: TriFace, b: TriFace, c: TriFace, s: seq<TriFace>)
    requires a.vc.z == 1.0 && b.vc.z == 3.0 && c.vc.z == 2.0
    requires multiset(s) == multiset([a, b, c])
    ensures SortedBy(Normal, s) ==> s == [b, c, a]
    ensures SortedBy(Reverse, s) ==> s == [a, c, b]
  {
    assert |s| == |multiset(s)| == 3;
    assert s[0] in multiset(s) && s[1] in multiset(s) && s[2] in multiset(s);
    assert a in multiset(s) && b in multiset(s) && c in multiset(s);
  }
}
