/** Plane vectors and axis-aligned rectangles (math/vector, math/rectf). Floats are reals. */
module Geometry {

  /** A 2-D vector; equality is component-wise, as for glm::vec2. */
  datatype Vec = Vec(x: real, y: real) {
    function Plus(o: Vec): Vec { Vec(x + o.x, y + o.y) }
    function Minus(o: Vec): Vec { Vec(x - o.x, y - o.y) }
    function Times(k: real): Vec { Vec(x * k, y * k) }
    function Dot(o: Vec): real { x * o.x + y * o.y }
    /** The same vector with its axes exchanged. */
    function Swapped(): Vec { Vec(y, x) }
  }

  function Abs(r: real): real { if r < 0.0 then -r else r }
  function Min(a: real, b: real): real { if a <= b then a else b }
  function Max(a: real, b: real): real { if a >= b then a else b }

  // ---------------------------------------------------------------------
  // math::x_y_sorter and math::y_x_sorter

  /** Lexicographic order, x first. */
  predicate XYLess(a: Vec, b: Vec) {
    if a.x != b.x then a.x < b.x else a.y < b.y
  }

  /** Lexicographic order, y first. */
  predicate YXLess(a: Vec, b: Vec) {
    if a.y != b.y then a.y < b.y else a.x < b.x
  }

  lemma XYLessIsStrict(a: Vec, b: Vec)
    ensures !XYLess(a, a)
    ensures XYLess(a, b) ==> !XYLess(b, a)
  {
  }

  lemma XYLessTransitive(a: Vec, b: Vec, c: Vec)
    requires XYLess(a, b) && XYLess(b, c)
    ensures XYLess(a, c)
  {
  }

  lemma XYLessTrichotomy(a: Vec, b: Vec)
    ensures a != b <==> (XYLess(a, b) || XYLess(b, a))
    ensures !(XYLess(a, b) && XYLess(b, a))
  {
  }

  lemma YXLessIsSwappedXYLess(a: Vec, b: Vec)
    ensures YXLess(a, b) == XYLess(a.Swapped(), b.Swapped())
  {
  }

  // ---------------------------------------------------------------------
  // Rectf

  /** True modulus of a positive angle, as fmodf computes it for positive operands. */
  function FMod(a: real, m: real): (r: real)
    requires a >= 0.0 && m > 0.0
    ensures 0.0 <= r < m
    ensures a == (a / m).Floor as real * m + r
  {
    FloorBounds(a, m);
    a - (a / m).Floor as real * m
  }

  lemma FloorBounds(a: real, m: real)
    requires m > 0.0
    ensures (a / m).Floor as real * m <= a < (a / m).Floor as real * m + m
  {
    var q := a / m;
    var k := q.Floor as real;
    assert q * m == a;
    assert k <= q < k + 1.0;
    MulMonotone(k, q, m);
    MulMonotone(q, k + 1.0, m);
    assert q * m < (k + 1.0) * m;
    AddOneTimes(k, m);
    assert a < k * m + m;
  }

  lemma AddOneTimes(x: real, m: real)
    ensures (x + 1.0) * m == x * m + m
  {
  }

  lemma MulMonotone(x: real, y: real, m: real)
    requires x <= y && m > 0.0
    ensures x * m <= y * m
    ensures x < y ==> x * m < y * m
  {
  }

  /**
   * A rectangle: upper-left corner p1, size (width, height) and a rotation
   * angle in degrees. Only the unrotated geometry is modelled.
   */
  datatype Rectf = Rectf(p1: Vec, size: Vec, angle: real) {
    function Left(): real { p1.x }
    function Top(): real { p1.y }
    function Right(): real { p1.x + size.x }
    function Bottom(): real { p1.y + size.y }
    function Width(): real { size.x }
    function Height(): real { size.y }
    function P2(): Vec { Vec(Right(), Bottom()) }
    function Middle(): Vec { Vec(p1.x + size.x / 2.0, p1.y + size.y / 2.0) }

    /** Moves the left edge to v; the right edge stays where it was. */
    function SetLeft(v: real): (r: Rectf)
      ensures r.Left() == v && r.Right() == Right()
      ensures r.Top() == Top() && r.Bottom() == Bottom() && r.angle == angle
    {
      Rectf(Vec(v, p1.y), Vec(size.x - (v - p1.x), size.y), angle)
    }

    /** Moves the right edge to v and nothing else. */
    function SetRight(v: real): (r: Rectf)
      ensures r.Right() == v && r.p1 == p1 && r.Height() == Height() && r.angle == angle
    {
      Rectf(p1, Vec(size.x + (v - Right()), size.y), angle)
    }

    /** Moves the top edge to v; the bottom edge stays where it was. */
    function SetTop(v: real): (r: Rectf)
      ensures r.Top() == v && r.Bottom() == Bottom()
      ensures r.Left() == Left() && r.Right() == Right() && r.angle == angle
    {
      Rectf(Vec(p1.x, v), Vec(size.x, size.y - (v - p1.y)), angle)
    }

    /** Moves the bottom edge to v and nothing else. */
    function SetBottom(v: real): (r: Rectf)
      ensures r.Bottom() == v && r.p1 == p1 && r.Width() == Width() && r.angle == angle
    {
      Rectf(p1, Vec(size.x, size.y + (v - Bottom())), angle)
    }

    /** Moves the upper-left corner to p; the lower-right corner stays fixed. */
    function SetP1(p: Vec): (r: Rectf)
      ensures r.p1 == p && r.P2() == P2() && r.angle == angle
    {
      Rectf(p, Vec(size.x + (p1.x - p.x), size.y + (p1.y - p.y)), angle)
    }

    /** Moves the lower-right corner to p; the upper-left corner stays fixed. */
    function SetP2(p: Vec): (r: Rectf)
      ensures r.P2() == p && r.p1 == P1() && r.angle == angle
    {
      Rectf(p1, Vec(p.x - p1.x, p.y - p1.y), angle)
    }

    function P1(): Vec { p1 }

    /** In-place translation: the angle is kept. */
    function Move(v: Vec): (r: Rectf)
      ensures r.p1 == p1.Plus(v) && r.size == size && r.angle == angle
    {
      Rectf(p1.Plus(v), size, angle)
    }

    /** Translated copy; it is built from p1 and size alone, so its angle is 0. */
    function Moved(v: Vec): (r: Rectf)
      ensures r.p1 == p1.Plus(v) && r.size == size && r.angle == 0.0
    {
      FromPointSize(p1.Plus(v), size)
    }

    /** Grows every edge outward by border, unless a side would become negative. */
    function Grown(border: real): (r: Rectf)
      ensures size.x + 2.0 * border < 0.0 || size.y + 2.0 * border < 0.0 ==> r == this
      ensures size.x + 2.0 * border >= 0.0 && size.y + 2.0 * border >= 0.0 ==>
        r.Left() == Left() - border && r.Top() == Top() - border &&
        r.Right() == Right() + border && r.Bottom() == Bottom() + border &&
        r.angle == angle
    {
      if size.x + border * 2.0 < 0.0 || size.y + border * 2.0 < 0.0 then this
      else FromEdges(p1.x - border, p1.y - border, Right() + border, Bottom() + border, angle)
    }

    /** width <= 0 or height <= 0. */
    predicate Empty() { Width() <= 0.0 || Height() <= 0.0 }

    /** |width - height| < epsilon. */
    predicate IsSquare(epsilon: real) { Abs(size.x - size.y) < epsilon }

    /** Rotated unless the angle is non-positive or a multiple of 180 (of 90 for a square). */
    predicate IsRotated(epsilon: real) {
      angle > 0.0 && FMod(angle, 180.0) >= epsilon &&
      !(IsSquare(epsilon) && FMod(angle, 90.0) < epsilon)
    }

    /** Unrotated point containment: half-open on both axes. */
    predicate ContainsPoint(v: Vec) {
      v.x >= p1.x && v.y >= p1.y && v.x < Right() && v.y < Bottom()
    }

    /** Unrotated rectangle "containment", which really is strict overlap. */
    predicate Overlaps(o: Rectf) {
      if p1.x >= o.Right() || o.Left() >= Right() then false
      else if p1.y >= o.Bottom() || o.Top() >= Bottom() then false
      else true
    }

    /** The four corners of the unrotated rectangle, in construction order. */
    function Corners(): (c: seq<Vec>)
      ensures |c| == 4
      ensures c[0] == p1 && c[1] == Vec(Right(), Top())
      ensures c[2] == Vec(Left(), Bottom()) && c[3] == P2()
    {
      [p1, p1.Plus(Vec(size.x, 0.0)), p1.Plus(Vec(0.0, size.y)), p1.Plus(Vec(size.x, size.y))]
    }
  }

  /** Rectf(p1, size, angle = 0). */
  function FromPointSize(p: Vec, s: Vec): (r: Rectf)
    ensures r.p1 == p && r.size == s && r.angle == 0.0
  {
    Rectf(p, s, 0.0)
  }

  /** Rectf(x1, y1, x2, y2, angle); the constructor asserts a non-negative size. */
  function FromEdges(x1: real, y1: real, x2: real, y2: real, angle: real := 0.0): (r: Rectf)
    requires x1 <= x2 && y1 <= y2
    ensures r.Left() == x1 && r.Top() == y1 && r.Right() == x2 && r.Bottom() == y2
    ensures r.angle == angle
    ensures !r.Empty() <==> x1 < x2 && y1 < y2
  {
    Rectf(Vec(x1, y1), Vec(x2 - x1, y2 - y1), angle)
  }

  /** Rectf::from_center: a rectangle of the given size centred on c. */
  function FromCenter(c: Vec, s: Vec): (r: Rectf)
    requires s.x >= 0.0 && s.y >= 0.0
    ensures r.Middle() == c && r.size == s && r.angle == 0.0
  {
    FromEdges(c.x - s.x / 2.0, c.y - s.y / 2.0, c.x + s.x / 2.0, c.y + s.y / 2.0)
  }

  /** Rectf::operator== compares corner and size only. */
  predicate SameRect(a: Rectf, b: Rectf) { a.p1 == b.p1 && a.size == b.size }

  lemma SameRectIgnoresAngle(r: Rectf, angle: real)
    ensures SameRect(r, Rectf(r.p1, r.size, angle))
    ensures angle != r.angle ==> Rectf(r.p1, r.size, angle) != r
  {
  }

  lemma EdgesFromSize(r: Rectf)
    ensures r.Right() == r.Left() + r.Width() && r.Bottom() == r.Top() + r.Height()
    ensures r.Empty() <==> r.Right() <= r.Left() || r.Bottom() <= r.Top()
  {
  }

  /** Strict overlap on both axes; touching edges do not overlap. */
  lemma OverlapsIsStrictIntervalOverlap(a: Rectf, b: Rectf)
    ensures a.Overlaps(b) <==>
      (a.Left() < b.Right() && b.Left() < a.Right() && a.Top() < b.Bottom() && b.Top() < a.Bottom())
    ensures a.Overlaps(b) == b.Overlaps(a)
  {
  }

  lemma NonPositiveAngleIsNotRotated(r: Rectf, epsilon: real)
    requires r.angle <= 0.0
    ensures !r.IsRotated(epsilon)
  {
  }

  lemma MultipleOf180IsNotRotated(r: Rectf, epsilon: real, k: nat)
    requires epsilon > 0.0 && r.angle == k as real * 180.0
    ensures !r.IsRotated(epsilon)
  {
    if k > 0 {
      var a := r.angle;
      assert a / 180.0 == k as real;
      assert (a / 180.0).Floor == k;
    }
  }
}
