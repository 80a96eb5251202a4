// Shared value types of the UI geometry: vectors, colours, the layout
// rectangle and the margin insets, with exact `real` arithmetic in place of
// single-precision floats.
module Geometry {

  datatype Vec2 = Vec2(x: real, y: real)
  datatype Vec3 = Vec3(x: real, y: real, z: real)
  /** A tangent: direction in x, y, z and handedness in w. */
  datatype Vec4 = Vec4(x: real, y: real, z: real, w: real)
  datatype Color = Color(r: real, g: real, b: real, a: real)

  const Zero2 := Vec2(0.0, 0.0)
  const Zero3 := Vec3(0.0, 0.0, 0.0)
  const One3 := Vec3(1.0, 1.0, 1.0)
  const White := Color(1.0, 1.0, 1.0, 1.0)
  /** Opaque black, the colour a mesh without a colour entry contributes. */
  const Black := Color(0.0, 0.0, 0.0, 1.0)

  function Add(a: Vec3, b: Vec3): Vec3 {
    Vec3(a.x + b.x, a.y + b.y, a.z + b.z)
  }

  function Sub(a: Vec3, b: Vec3): Vec3 {
    Vec3(a.x - b.x, a.y - b.y, a.z - b.z)
  }

  /** Component-wise product, as `Vector3.Scale` does it. */
  function Scale(a: Vec3, s: Vec3): Vec3 {
    Vec3(a.x * s.x, a.y * s.y, a.z * s.z)
  }

  function Cross(a: Vec3, b: Vec3): Vec3 {
    Vec3(a.y * b.z - a.z * b.y, a.z * b.x - a.x * b.z, a.x * b.y - a.y * b.x)
  }

  /** Component-wise colour product (tinting). */
  function Tint(c: Color, t: Color): Color {
    Color(c.r * t.r, c.g * t.g, c.b * t.b, c.a * t.a)
  }

  /** The smaller of two values (`Mathf.Min`). */
  function Min(a: real, b: real): (m: real)
    ensures m <= a && m <= b
    ensures m == a || m == b
  {
    if a < b then a else b
  }

  /**
   * A layout rectangle stored as its origin and its size, the way the host
   * framework stores it. The size may be zero or negative.
   */
  datatype Rect = Rect(x: real, y: real, width: real, height: real) {
    function XMin(): real { x }
    function XMax(): real { x + width }
    function YMin(): real { y }
    function YMax(): real { y + height }
    function Center(): Vec2 { Vec2(x + width / 2.0, y + height / 2.0) }

    /** Moving the left edge keeps the right edge where it was. */
    function WithXMin(v: real): (r: Rect)
      ensures r.XMin() == v && r.XMax() == XMax() && r.YMin() == YMin() && r.YMax() == YMax()
    {
      Rect(v, y, XMax() - v, height)
    }

    /** Moving the right edge keeps the left edge where it was. */
    function WithXMax(v: real): (r: Rect)
      ensures r.XMax() == v && r.XMin() == XMin() && r.YMin() == YMin() && r.YMax() == YMax()
    {
      Rect(x, y, v - x, height)
    }

    function WithYMin(v: real): (r: Rect)
      ensures r.YMin() == v && r.YMax() == YMax() && r.XMin() == XMin() && r.XMax() == XMax()
    {
      Rect(x, v, width, YMax() - v)
    }

    function WithYMax(v: real): (r: Rect)
      ensures r.YMax() == v && r.YMin() == YMin() && r.XMin() == XMin() && r.XMax() == XMax()
    {
      Rect(x, y, width, v - y)
    }
  }

  /** Inset distances from each side of a rectangle. */
  datatype BoundRect = BoundRect(left: real, right: real, top: real, bottom: real)

  /**
   * The drawing area left after the margins: each edge moves inwards by its
   * margin, with no clamping, so the result may have a negative size.
   */
  function ApplyMargin(rect: Rect, margin: BoundRect): (r: Rect)
    ensures r.XMin() == rect.XMin() + margin.left && r.XMax() == rect.XMax() - margin.right
    ensures r.YMin() == rect.YMin() + margin.bottom && r.YMax() == rect.YMax() - margin.top
    ensures r.width == rect.width - margin.left - margin.right
    ensures r.height == rect.height - margin.bottom - margin.top
  {
    var r1 := rect.WithXMin(rect.XMin() + margin.left);
    var r2 := r1.WithXMax(r1.XMax() - margin.right);
    var r3 := r2.WithYMin(r2.YMin() + margin.bottom);
    r3.WithYMax(r3.YMax() - margin.top)
  }

  /**
   * The size of the adjusted area depends on the margins alone, not on where
   * the rectangle sits, and its centre moves by half the margin imbalance.
   */
  lemma MarginSizeIndependentOfPosition(a: Rect, b: Rect, margin: BoundRect)
    requires a.width == b.width && a.height == b.height
    ensures ApplyMargin(a, margin).width == ApplyMargin(b, margin).width
    ensures ApplyMargin(a, margin).height == ApplyMargin(b, margin).height
    ensures ApplyMargin(a, margin).Center().x == a.Center().x + (margin.left - margin.right) / 2.0
    ensures ApplyMargin(a, margin).Center().y == a.Center().y + (margin.bottom - margin.top) / 2.0
  {
  }
}
