/** Line projection and nearest point on a segment along one axis (math/line). */
module Lines {
  import opened Geometry

  /** A line through origin with the given direction. */
  datatype Line = Line(origin: Vec, direction: Vec) {
    /** The direction has length 1, as project expects. */
    predicate UnitDirection() {
      direction.Dot(direction) == 1.0
    }

    /** The point of the line k direction lengths away from the origin. */
    function At(k: real): Vec {
      origin.Plus(direction.Times(k))
    }

    /** Orthogonal projection of dest onto the line: for a unit direction, dest - r is perpendicular to it. */
    function Project(dest: Vec): (r: Vec)
      ensures UnitDirection() ==> direction.Dot(dest.Minus(r)) == 0.0
    {
      var distance := direction.x * (dest.x - origin.x) + direction.y * (dest.y - origin.y);
      DotAlongDirection(direction, dest.Minus(origin), distance);
      origin.Plus(direction.Times(distance))
    }
  }

  /** Taking t direction lengths off v lowers its dot product with the direction by t |d|^2. */
  lemma DotAlongDirection(d: Vec, v: Vec, t: real)
    ensures d.Dot(v.Minus(d.Times(t))) == d.Dot(v) - t * d.Dot(d)
    ensures d.Dot(d.Times(t)) == t * d.Dot(d)
  {
    assert d.x * (d.x * t) + d.y * (d.y * t) == t * (d.x * d.x + d.y * d.y);
  }

  /** The projection lies on the line. */
  lemma ProjectIsOnLine(l: Line, dest: Vec)
    ensures exists k :: l.Project(dest) == l.At(k)
  {
    assert l.Project(dest) == l.At(l.direction.Dot(dest.Minus(l.origin)));
  }

  /** For a unit direction, a point of the line projects to itself. */
  lemma ProjectFixesLinePoints(l: Line, k: real)
    requires l.UnitDirection()
    ensures l.Project(l.At(k)) == l.At(k)
  {
    var p := l.At(k);
    assert p.Minus(l.origin) == l.direction.Times(k);
    DotAlongDirection(l.direction, l.direction, k);
    assert l.direction.Dot(p.Minus(l.origin)) == k;
  }

  /** For a unit direction, projecting twice is projecting once. */
  lemma ProjectIdempotent(l: Line, dest: Vec)
    requires l.UnitDirection()
    ensures l.Project(l.Project(dest)) == l.Project(dest)
  {
    var k := l.direction.Dot(dest.Minus(l.origin));
    assert l.Project(dest) == l.At(k);
    ProjectFixesLinePoints(l, k);
  }

  /**
   * The x coordinate on the line through a and b at the height of p, or p.x
   * when the line is horizontal; not yet clamped to the segment.
   */
  function InterpolateX(a: Vec, b: Vec, p: Vec): real {
    if a.y == b.y then p.x else ((a.y - p.y) * b.x - (b.y - p.y) * a.x) / (a.y - b.y)
  }

  /**
   * math::get_nearest_point_x. Unless allowOutsideLine is set, the result is
   * clamped to the x range of the segment a-b.
   */
  function NearestPointX(a: Vec, b: Vec, p: Vec, allowOutsideLine: bool := false): (r: real)
    ensures allowOutsideLine ==> r == InterpolateX(a, b, p)
    ensures !allowOutsideLine && a.x != b.x ==> Min(a.x, b.x) <= r <= Max(a.x, b.x)
    ensures !allowOutsideLine && Min(a.x, b.x) <= InterpolateX(a, b, p) <= Max(a.x, b.x) ==>
      r == InterpolateX(a, b, p)
    ensures !allowOutsideLine && InterpolateX(a, b, p) < Min(a.x, b.x) && a.x != b.x ==> r == Min(a.x, b.x)
    ensures !allowOutsideLine && InterpolateX(a, b, p) > Max(a.x, b.x) && a.x != b.x ==> r == Max(a.x, b.x)
  {
    var result := InterpolateX(a, b, p);
    if !allowOutsideLine && ((a.x < b.x && result < a.x) || (a.x > b.x && result > a.x)) then a.x
    else if !allowOutsideLine && ((a.x > b.x && result < b.x) || (a.x < b.x && result > b.x)) then b.x
    else result
  }

  /** The y coordinate on the line through a and b at the x of p, or p.y when the line is vertical. */
  function InterpolateY(a: Vec, b: Vec, p: Vec): real {
    if a.x == b.x then p.y else ((a.x - p.x) * b.y - (b.x - p.x) * a.y) / (a.x - b.x)
  }

  /** math::get_nearest_point_y. */
  function NearestPointY(a: Vec, b: Vec, p: Vec, allowOutsideLine: bool := false): (r: real)
  {
    var result := InterpolateY(a, b, p);
    if !allowOutsideLine && ((a.y < b.y && result < a.y) || (a.y > b.y && result > a.y)) then a.y
    else if !allowOutsideLine && ((a.y > b.y && result < b.y) || (a.y < b.y && result > b.y)) then b.y
    else result
  }

  /** A horizontal segment gives p.x before clamping. */
  lemma HorizontalLineGivesPointX(a: Vec, b: Vec, p: Vec)
    requires a.y == b.y
    ensures NearestPointX(a, b, p, true) == p.x
    ensures a.x <= p.x <= b.x ==> NearestPointX(a, b, p) == p.x
  {
  }

  /** The interpolation passes through both end points. */
  lemma InterpolateXAtEndpoints(a: Vec, b: Vec, p: Vec)
    requires a.y != b.y
    ensures p.y == a.y ==> InterpolateX(a, b, p) == a.x
    ensures p.y == b.y ==> InterpolateX(a, b, p) == b.x
  {
    if p.y == a.y {
      assert (a.y - p.y) * b.x - (b.y - p.y) * a.x == (a.y - b.y) * a.x;
    } else if p.y == b.y {
      assert (a.y - p.y) * b.x - (b.y - p.y) * a.x == (a.y - b.y) * b.x;
    }
  }

  /** On a vertical segment every height maps to the segment's own x. */
  lemma VerticalSegmentGivesItsX(a: Vec, b: Vec, p: Vec)
    requires a.x == b.x && a.y != b.y
    ensures InterpolateX(a, b, p) == a.x
    ensures NearestPointX(a, b, p) == a.x
  {
    assert (a.y - p.y) * b.x - (b.y - p.y) * a.x == (a.y - b.y) * a.x;
  }

  /** get_nearest_point_y is get_nearest_point_x with the axes exchanged. */
  lemma NearestPointYMirrorsX(a: Vec, b: Vec, p: Vec, allowOutsideLine: bool)
    ensures NearestPointY(a, b, p, allowOutsideLine) ==
            NearestPointX(a.Swapped(), b.Swapped(), p.Swapped(), allowOutsideLine)
  {
    assert InterpolateY(a, b, p) == InterpolateX(a.Swapped(), b.Swapped(), p.Swapped());
  }
}
