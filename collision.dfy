/**
 * collision::Constraints and the collision solvers that fill it: the axis-aligned
 * rectangle/rectangle resolver, the rectangle-vs-slope solver and the segment
 * intersection predicates. Floats are reals; the rotated-rectangle solver is not modelled.
 */
module Collision {
  import opened Wrappers
  import opened Geometry

  // ---------------------------------------------------------------------
  // Extended reals for the +/- infinity sentinels

  datatype Ext = NegInf | Fin(v: real) | PosInf

  predicate ExtLe(a: Ext, b: Ext) {
    match (a, b)
    case (NegInf, _) => true
    case (_, PosInf) => true
    case (Fin(x), Fin(y)) => x <= y
    case _ => false
  }

  function ExtMax(a: Ext, b: Ext): (r: Ext)
    ensures ExtLe(a, r) && ExtLe(b, r) && (r == a || r == b)
  {
    if ExtLe(a, b) then b else a
  }

  function ExtMin(a: Ext, b: Ext): (r: Ext)
    ensures ExtLe(r, a) && ExtLe(r, b) && (r == a || r == b)
  {
    if ExtLe(a, b) then a else b
  }

  /** upper - lower, for an upper bound that is never -inf and a lower bound that is never +inf. */
  function Span(lower: Ext, upper: Ext): (r: Ext)
    requires lower != PosInf && upper != NegInf
    ensures r != NegInf
    ensures r.Fin? <==> lower.Fin? && upper.Fin?
  {
    if lower.Fin? && upper.Fin? then Fin(upper.v - lower.v) else PosInf
  }

  // ---------------------------------------------------------------------
  // The collision hit record

  /** CollisionHit: which sides were hit, crush, and the normal of a hit slope. */
  datatype Hit = Hit(left: bool, right: bool, top: bool, bottom: bool, crush: bool, slopeNormal: Vec)

  const NoHit := Hit(false, false, false, false, false, Vec(0.0, 0.0))

  /** Hit flags after merge_constraints: or-ed side and crush flags, own slope normal. */
  function MergeHit(h: Hit, o: Hit): (r: Hit)
    ensures r.left == (h.left || o.left) && r.right == (h.right || o.right)
    ensures r.top == (h.top || o.top) && r.bottom == (h.bottom || o.bottom)
    ensures r.crush == (h.crush || o.crush) && r.slopeNormal == h.slopeNormal
  {
    Hit(h.left || o.left, h.right || o.right, h.top || o.top, h.bottom || o.bottom,
        h.crush || o.crush, h.slopeNormal)
  }

  // ---------------------------------------------------------------------
  // The four bounds as a value

  /** The four position bounds of a Constraints object. */
  datatype Bounds = Bounds(left: Ext, right: Ext, top: Ext, bottom: Ext) {
    /** Lower bounds never reach +inf and upper bounds never reach -inf. */
    predicate WellFormed() {
      left != PosInf && top != PosInf && right != NegInf && bottom != NegInf
    }
  }

  const Unconstrained := Bounds(NegInf, PosInf, NegInf, PosInf)

  function ConstrainLeftB(b: Bounds, p: Ext): Bounds { b.(left := ExtMax(b.left, p)) }
  function ConstrainRightB(b: Bounds, p: Ext): Bounds { b.(right := ExtMin(b.right, p)) }
  function ConstrainTopB(b: Bounds, p: Ext): Bounds { b.(top := ExtMax(b.top, p)) }
  function ConstrainBottomB(b: Bounds, p: Ext): Bounds { b.(bottom := ExtMin(b.bottom, p)) }

  /** merge_constraints on the bounds: constrain each side with the other's bound. */
  function MergeBounds(b: Bounds, o: Bounds): (r: Bounds)
    ensures r.left == ExtMax(b.left, o.left) && r.right == ExtMin(b.right, o.right)
    ensures r.top == ExtMax(b.top, o.top) && r.bottom == ExtMin(b.bottom, o.bottom)
  {
    ConstrainBottomB(ConstrainTopB(ConstrainRightB(ConstrainLeftB(b, o.left), o.right), o.top), o.bottom)
  }

  /** A bound never loosens: the left/top bound can only grow, the right/bottom only shrink. */
  lemma ConstrainNeverLoosens(b: Bounds, p: Ext)
    ensures ExtLe(b.left, ConstrainLeftB(b, p).left) && ExtLe(p, ConstrainLeftB(b, p).left)
    ensures ExtLe(ConstrainRightB(b, p).right, b.right) && ExtLe(ConstrainRightB(b, p).right, p)
    ensures ExtLe(b.top, ConstrainTopB(b, p).top) && ExtLe(p, ConstrainTopB(b, p).top)
    ensures ExtLe(ConstrainBottomB(b, p).bottom, b.bottom) && ExtLe(ConstrainBottomB(b, p).bottom, p)
  {
  }

  /** Two constrain calls on one side commute, and repeating a call changes nothing. */
  lemma ConstrainOrderIrrelevant(b: Bounds, p: Ext, q: Ext)
    ensures ConstrainLeftB(ConstrainLeftB(b, p), q) == ConstrainLeftB(ConstrainLeftB(b, q), p)
    ensures ConstrainRightB(ConstrainRightB(b, p), q) == ConstrainRightB(ConstrainRightB(b, q), p)
    ensures ConstrainTopB(ConstrainTopB(b, p), q) == ConstrainTopB(ConstrainTopB(b, q), p)
    ensures ConstrainBottomB(ConstrainBottomB(b, p), q) == ConstrainBottomB(ConstrainBottomB(b, q), p)
    ensures ConstrainLeftB(ConstrainLeftB(b, p), p) == ConstrainLeftB(b, p)
    ensures ConstrainRightB(ConstrainRightB(b, p), p) == ConstrainRightB(b, p)
    ensures ConstrainTopB(ConstrainTopB(b, p), p) == ConstrainTopB(b, p)
    ensures ConstrainBottomB(ConstrainBottomB(b, p), p) == ConstrainBottomB(b, p)
  {
    ExtAlgebra(b.left, p, q);
    ExtAlgebra(b.right, p, q);
    ExtAlgebra(b.top, p, q);
    ExtAlgebra(b.bottom, p, q);
  }

  /** Narrowing a bound never widens the horizontal or vertical span. */
  lemma NarrowingNeverWidens(b: Bounds, p: real)
    requires b.WellFormed()
    ensures ExtLe(Span(ConstrainLeftB(b, Fin(p)).left, b.right), Span(b.left, b.right))
    ensures ExtLe(Span(b.left, ConstrainRightB(b, Fin(p)).right), Span(b.left, b.right))
    ensures ExtLe(Span(ConstrainTopB(b, Fin(p)).top, b.bottom), Span(b.top, b.bottom))
    ensures ExtLe(Span(b.top, ConstrainBottomB(b, Fin(p)).bottom), Span(b.top, b.bottom))
  {
  }

  /** merge_constraints is commutative and associative on bounds and side flags, and idempotent. */
  lemma MergeAlgebra(a: Bounds, b: Bounds, c: Bounds, h: Hit, g: Hit, k: Hit)
    ensures MergeBounds(a, b) == MergeBounds(b, a)
    ensures MergeBounds(MergeBounds(a, b), c) == MergeBounds(a, MergeBounds(b, c))
    ensures MergeBounds(a, a) == a
    ensures MergeHit(h, g) == MergeHit(g, h).(slopeNormal := h.slopeNormal)
    ensures MergeHit(MergeHit(h, g), k) == MergeHit(h, MergeHit(g, k))
  {
    ExtAlgebra(a.left, b.left, c.left);
    ExtAlgebra(a.right, b.right, c.right);
    ExtAlgebra(a.top, b.top, c.top);
    ExtAlgebra(a.bottom, b.bottom, c.bottom);
  }

  /** The larger and the smaller of extended reals are commutative, associative and idempotent. */
  lemma ExtAlgebra(x: Ext, y: Ext, z: Ext)
    ensures ExtMax(x, y) == ExtMax(y, x) && ExtMin(x, y) == ExtMin(y, x)
    ensures ExtMax(ExtMax(x, y), z) == ExtMax(x, ExtMax(y, z))
    ensures ExtMin(ExtMin(x, y), z) == ExtMin(x, ExtMin(y, z))
    ensures ExtMax(x, x) == x && ExtMin(x, x) == x
    ensures ExtMax(ExtMax(x, y), z) == ExtMax(ExtMax(x, z), y)
    ensures ExtMin(ExtMin(x, y), z) == ExtMin(ExtMin(x, z), y)
    ensures ExtMax(ExtMax(x, y), y) == ExtMax(x, y) && ExtMin(ExtMin(x, y), y) == ExtMin(x, y)
  {
  }

  // ---------------------------------------------------------------------
  // collision::Constraints

  /** A four-sided clamp that collision solvers narrow, plus the hit record. */
  class Constraints {
    var hit: Hit
    var positionLeft: Ext
    var positionRight: Ext
    var positionTop: Ext
    var positionBottom: Ext

    /** The bounds are lower bounds on the left/top and upper bounds on the right/bottom. */
    ghost predicate Valid()
      reads this
    {
      Clamp().WellFormed()
    }

    function Clamp(): Bounds
      reads this
    {
      Bounds(positionLeft, positionRight, positionTop, positionBottom)
    }

    /** A fresh object: every bound at its infinity and no hit recorded. */
    constructor ()
      ensures Valid() && Clamp() == Unconstrained && hit == NoHit
      ensures !HasConstraints() && !ConstrainedHorizontally() && !ConstrainedVertically()
    {
      hit := NoHit;
      positionLeft := NegInf;
      positionRight := PosInf;
      positionTop := NegInf;
      positionBottom := PosInf;
    }

    predicate ConstrainedLeft() reads this { positionLeft != NegInf }
    predicate ConstrainedRight() reads this { positionRight != PosInf }
    predicate ConstrainedTop() reads this { positionTop != NegInf }
    predicate ConstrainedBottom() reads this { positionBottom != PosInf }

    predicate HasConstraints()
      reads this
    {
      ConstrainedLeft() || ConstrainedRight() || ConstrainedTop() || ConstrainedBottom()
    }

    /** bottom - top. */
    function Height(): (r: Ext)
      reads this
      requires Valid()
      ensures r.Fin? <==> ConstrainedTop() && ConstrainedBottom()
      ensures r.Fin? ==> r.v == positionBottom.v - positionTop.v
    {
      Span(positionTop, positionBottom)
    }

    /** right - left. */
    function Width(): (r: Ext)
      reads this
      requires Valid()
      ensures r.Fin? <==> ConstrainedLeft() && ConstrainedRight()
      ensures r.Fin? ==> r.v == positionRight.v - positionLeft.v
    {
      Span(positionLeft, positionRight)
    }

    /**
     * Half the sum of left and right; None stands for the NaN of -inf + inf,
     * and a single infinite bound gives that infinity.
     */
    function XMidpoint(): (r: Option<Ext>)
      reads this
      requires Valid()
      ensures ConstrainedLeft() && ConstrainedRight() <==> r.Some? && r.value.Fin?
      ensures r.Some? && r.value.Fin? ==> r.value.v == (positionLeft.v + positionRight.v) / 2.0
      ensures r.None? <==> !ConstrainedLeft() && !ConstrainedRight()
    {
      if positionLeft.Fin? && positionRight.Fin? then Some(Fin(0.5 * (positionLeft.v + positionRight.v)))
      else if positionLeft == NegInf && positionRight == PosInf then None
      else if positionLeft == NegInf then Some(NegInf)
      else Some(PosInf)
    }

    /** Named after the horizontal axis, but tests the vertical span. */
    predicate ConstrainedHorizontally()
      reads this
      requires Valid()
    {
      Height().Fin?
    }

    /** Named after the vertical axis, but tests the horizontal span. */
    predicate ConstrainedVertically()
      reads this
      requires Valid()
    {
      Width().Fin?
    }

    method ConstrainLeft(position: Ext)
      requires Valid() && position != PosInf
      modifies this
      ensures Valid() && Clamp() == ConstrainLeftB(old(Clamp()), position) && hit == old(hit)
    {
      positionLeft := ExtMax(positionLeft, position);
    }

    method ConstrainRight(position: Ext)
      requires Valid() && position != NegInf
      modifies this
      ensures Valid() && Clamp() == ConstrainRightB(old(Clamp()), position) && hit == old(hit)
    {
      positionRight := ExtMin(positionRight, position);
    }

    method ConstrainTop(position: Ext)
      requires Valid() && position != PosInf
      modifies this
      ensures Valid() && Clamp() == ConstrainTopB(old(Clamp()), position) && hit == old(hit)
    {
      positionTop := ExtMax(positionTop, position);
    }

    method ConstrainBottom(position: Ext)
      requires Valid() && position != NegInf
      modifies this
      ensures Valid() && Clamp() == ConstrainBottomB(old(Clamp()), position) && hit == old(hit)
    {
      positionBottom := ExtMin(positionBottom, position);
    }

    /** Narrows every bound by the other's and or-s the hit flags; other may be this object. */
    method MergeConstraints(other: Constraints)
      requires Valid() && other.Valid()
      modifies this
      ensures Valid()
      ensures Clamp() == MergeBounds(old(Clamp()), old(other.Clamp()))
      ensures hit == MergeHit(old(hit), old(other.hit))
    {
      ConstrainLeft(other.positionLeft);
      ConstrainRight(other.positionRight);
      ConstrainTop(other.positionTop);
      ConstrainBottom(other.positionBottom);
      var h := hit;
      var o := other.hit;
      hit := Hit(h.left || o.left, h.right || o.right, h.top || o.top, h.bottom || o.bottom,
                 h.crush || o.crush, h.slopeNormal);
    }

    /** The unrotated set_rectangle_rectangle_constraints. */
    method SetRectangleRectangleConstraints(r1: Rectf, r2: Rectf, epsilon: real)
      requires Valid() && !r1.IsRotated(epsilon) && !r2.IsRotated(epsilon)
      modifies this
      ensures Valid()
      ensures Clamp() == ApplyResolution(old(Clamp()), RectRectResolution(r1, r2))
      ensures hit == MarkSide(old(hit), RectRectResolution(r1, r2).side)
    {
      var itop := r1.Bottom() - r2.Top();
      var ibottom := r2.Bottom() - r1.Top();
      var ileft := r1.Right() - r2.Left();
      var iright := r2.Right() - r1.Left();
      var vertPenetration := Min(itop, ibottom);
      var horizPenetration := Min(ileft, iright);
      if vertPenetration < horizPenetration {
        if itop < ibottom {
          ConstrainBottom(Fin(r2.Top()));
          hit := hit.(bottom := true);
        } else {
          ConstrainTop(Fin(r2.Bottom()));
          hit := hit.(top := true);
        }
      } else {
        if ileft < iright {
          ConstrainRight(Fin(r2.Left()));
          hit := hit.(right := true);
        } else {
          ConstrainLeft(Fin(r2.Right()));
          hit := hit.(left := true);
        }
      }
    }

    /**
     * rectangle_aatriangle. hitsBottomIn is the caller's hits_rectangle_bottom
     * flag; the returned hitsBottom is its new value.
     */
    /** The direct branch of rectangle_aatriangle: push out along the slope's normal. */
    method PushOut(rect: Rectf, normal: Vec, outvec: Vec) returns (bottom: bool)
      requires Valid()
      modifies this
      ensures Valid() && bottom == (outvec.y < 0.0)
      ensures (Clamp(), hit) == ApplySlope(old(Clamp()), old(hit), rect, Direct(normal, outvec))
    {
      bottom := false;
      if outvec.x < 0.0 {
        ConstrainRight(Fin(rect.Right() + outvec.x));
        hit := hit.(right := true);
      } else {
        ConstrainLeft(Fin(rect.Left() + outvec.x));
        hit := hit.(left := true);
      }
      if outvec.y < 0.0 {
        ConstrainBottom(Fin(rect.Bottom() + outvec.y));
        hit := hit.(bottom := true);
        bottom := true;
      } else {
        ConstrainTop(Fin(rect.Top() + outvec.y));
        hit := hit.(top := true);
      }
      hit := hit.(slopeNormal := normal);
    }

    method RectangleAATriangle(rect: Rectf, triangle: AATriangle, scale: real, epsilon: real,
                               hitsBottomIn: bool)
      returns (collided: bool, hitsBottom: bool)
      requires Valid() && scale > 0.0
      requires !rect.IsRotated(epsilon) && !triangle.bbox.IsRotated(epsilon)
      requires !SlopeDecision(rect, triangle, scale).AssertionFailure?
      modifies this
      ensures Valid()
      ensures collided == SlopeDecision(rect, triangle, scale).Collides()
      ensures hitsBottom == (hitsBottomIn || SlopeDecision(rect, triangle, scale).HitsBottom())
      ensures SlopeDecision(rect, triangle, scale).Collides() ==>
        (Clamp(), hit) == ApplySlope(old(Clamp()), old(hit), rect, SlopeDecision(rect, triangle, scale))
      ensures !SlopeDecision(rect, triangle, scale).Collides() ==> Clamp() == old(Clamp()) && hit == old(hit)
    {
      hitsBottom := hitsBottomIn;
      var outcome := SlopeDecision(rect, triangle, scale);
      if !rect.Overlaps(triangle.bbox) {
        return false, hitsBottom;
      }
      var area := WorkArea(triangle.bbox, triangle.deform).value;
      var corner := TestCorner(rect, triangle.direction).value;
      var plane := SlopePlane(area, triangle.direction, scale);
      var normal, c := plane.0, plane.1;
      var nP1 := -normal.Dot(corner);
      var depth := nP1 - c;
      if depth < 0.0 {
        return false, hitsBottom;
      }
      var outvec := normal.Times(depth + 0.2);
      if corner.x < area.Left() - RDELTA || corner.x > area.Right() + RDELTA
         || corner.y < area.Top() - RDELTA || corner.y > area.Bottom() + RDELTA {
        assert outcome == Fallback(area);
        SetRectangleRectangleConstraints(rect, area, epsilon);
      } else {
        assert outcome == Direct(normal, outvec);
        var bottom := PushOut(rect, normal, outvec);
        hitsBottom := hitsBottom || bottom;
      }
      return true, hitsBottom;
    }
  }

  // ---------------------------------------------------------------------
  // Rectangle/rectangle resolution

  /** collision::intersects: the unrotated overlap test. */
  predicate Intersects(r1: Rectf, r2: Rectf) { r1.Overlaps(r2) }

  datatype Side = LeftSide | RightSide | TopSide | BottomSide

  /** Which bound the resolver narrows and to which position. */
  datatype Resolution = Resolution(side: Side, position: real)

  /** The penetration depth of r1 into r2 when r1 is pushed out across the given side. */
  function Penetration(r1: Rectf, r2: Rectf, s: Side): real {
    match s
    case BottomSide => r1.Bottom() - r2.Top()
    case TopSide => r2.Bottom() - r1.Top()
    case RightSide => r1.Right() - r2.Left()
    case LeftSide => r2.Right() - r1.Left()
  }

  /** The side and position the unrotated resolver picks. */
  function RectRectResolution(r1: Rectf, r2: Rectf): (res: Resolution)
    ensures res.side == BottomSide ==> res.position == r2.Top()
    ensures res.side == TopSide ==> res.position == r2.Bottom()
    ensures res.side == RightSide ==> res.position == r2.Left()
    ensures res.side == LeftSide ==> res.position == r2.Right()
  {
    var itop := Penetration(r1, r2, BottomSide);
    var ibottom := Penetration(r1, r2, TopSide);
    var ileft := Penetration(r1, r2, RightSide);
    var iright := Penetration(r1, r2, LeftSide);
    if Min(itop, ibottom) < Min(ileft, iright) then
      if itop < ibottom then Resolution(BottomSide, r2.Top()) else Resolution(TopSide, r2.Bottom())
    else
      if ileft < iright then Resolution(RightSide, r2.Left()) else Resolution(LeftSide, r2.Right())
  }

  /** The resolver picks a side of minimum penetration. */
  lemma ResolutionMinimisesPenetration(r1: Rectf, r2: Rectf, s: Side)
    ensures Penetration(r1, r2, RectRectResolution(r1, r2).side) <= Penetration(r1, r2, s)
  {
  }

  /** Ties: equal axes resolve horizontally; equal sides resolve to top or left. */
  lemma ResolutionTieBreaks(r1: Rectf, r2: Rectf)
    ensures var p := Penetration;
      Min(p(r1, r2, BottomSide), p(r1, r2, TopSide)) == Min(p(r1, r2, RightSide), p(r1, r2, LeftSide)) ==>
        RectRectResolution(r1, r2).side in {LeftSide, RightSide}
    ensures Penetration(r1, r2, BottomSide) == Penetration(r1, r2, TopSide) ==>
      RectRectResolution(r1, r2).side != BottomSide
    ensures Penetration(r1, r2, RightSide) == Penetration(r1, r2, LeftSide) ==>
      RectRectResolution(r1, r2).side != RightSide
  {
  }

  lemma ResolutionExample()
    ensures RectRectResolution(FromEdges(0.0, 0.0, 10.0, 10.0), FromEdges(5.0, 0.0, 15.0, 10.0))
         == Resolution(RightSide, 5.0)
  {
  }

  function ApplyResolution(b: Bounds, res: Resolution): Bounds {
    match res.side
    case LeftSide => ConstrainLeftB(b, Fin(res.position))
    case RightSide => ConstrainRightB(b, Fin(res.position))
    case TopSide => ConstrainTopB(b, Fin(res.position))
    case BottomSide => ConstrainBottomB(b, Fin(res.position))
  }

  function MarkSide(h: Hit, s: Side): Hit {
    match s
    case LeftSide => h.(left := true)
    case RightSide => h.(right := true)
    case TopSide => h.(top := true)
    case BottomSide => h.(bottom := true)
  }

  /** The resolver narrows one bound to an edge of r2, sets one hit flag and touches nothing else. */
  lemma ResolutionTouchesOneSide(b: Bounds, h: Hit, r1: Rectf, r2: Rectf)
    requires b.WellFormed()
    ensures var res := RectRectResolution(r1, r2);
      var nb := ApplyResolution(b, res);
      var nh := MarkSide(h, res.side);
      (res.side != LeftSide ==> nb.left == b.left && nh.left == h.left) &&
      (res.side != RightSide ==> nb.right == b.right && nh.right == h.right) &&
      (res.side != TopSide ==> nb.top == b.top && nh.top == h.top) &&
      (res.side != BottomSide ==> nb.bottom == b.bottom && nh.bottom == h.bottom) &&
      nh.crush == h.crush && nh.slopeNormal == h.slopeNormal &&
      nb.WellFormed() &&
      (res.side in {LeftSide, TopSide} ==> res.position in {r2.Right(), r2.Bottom()}) &&
      (res.side in {RightSide, BottomSide} ==> res.position in {r2.Left(), r2.Top()})
  {
  }

  // ---------------------------------------------------------------------
  // Rectangle versus axis-aligned triangle (slope)

  /** The deformation part of an AATriangle's dir; Other is a value the solver asserts on. */
  datatype Deform = NoDeform | DeformBottom | DeformTop | DeformLeft | DeformRight | OtherDeform(tag: int)

  /** The direction part of an AATriangle's dir; Other is a value the solver asserts on. */
  datatype SlopeDir = SouthWest | NorthEast | SouthEast | NorthWest | OtherDir(tag: int)

  /** A slope tile: its bounding box and its decoded dir bits. */
  datatype AATriangle = AATriangle(bbox: Rectf, deform: Deform, direction: SlopeDir)

  const RDELTA: real := 3.0

  /** The part of the bounding box the slope occupies: the whole box or one half of it. */
  function WorkArea(bbox: Rectf, d: Deform): (area: Option<Rectf>)
    ensures area.None? <==> d.OtherDeform?
    ensures area.Some? ==> area.value.angle == 0.0
    ensures area.Some? ==> area.value.P2() == (if d.DeformTop? then Vec(bbox.Right(), bbox.Top() + bbox.Height() / 2.0)
                                                else if d.DeformLeft? then Vec(bbox.Left() + bbox.Width() / 2.0, bbox.Bottom())
                                                else bbox.P2())
    ensures area.Some? ==> area.value.p1 == (if d.DeformBottom? then Vec(bbox.Left(), bbox.Top() + bbox.Height() / 2.0)
                                              else if d.DeformRight? then Vec(bbox.Left() + bbox.Width() / 2.0, bbox.Top())
                                              else bbox.p1)
  {
    var blank := Rectf(Vec(0.0, 0.0), Vec(0.0, 0.0), 0.0);
    match d
    case NoDeform => Some(blank.SetP1(bbox.p1).SetP2(bbox.P2()))
    case DeformBottom => Some(blank.SetP1(Vec(bbox.Left(), bbox.Top() + bbox.Height() / 2.0)).SetP2(bbox.P2()))
    case DeformTop => Some(blank.SetP1(bbox.p1).SetP2(Vec(bbox.Right(), bbox.Top() + bbox.Height() / 2.0)))
    case DeformLeft => Some(blank.SetP1(bbox.p1).SetP2(Vec(bbox.Left() + bbox.Width() / 2.0, bbox.Bottom())))
    case DeformRight => Some(blank.SetP1(Vec(bbox.Left() + bbox.Width() / 2.0, bbox.Top())).SetP2(bbox.P2()))
    case OtherDeform(_) => None
  }

  /** The corner of rect tested against the slope: the one that points into it. */
  function TestCorner(rect: Rectf, d: SlopeDir): (p: Option<Vec>)
    ensures p.None? <==> d.OtherDir?
    ensures d.SouthWest? ==> p == Some(rect.Corners()[2])
    ensures d.NorthEast? ==> p == Some(rect.Corners()[1])
    ensures d.SouthEast? ==> p == Some(rect.Corners()[3])
    ensures d.NorthWest? ==> p == Some(rect.Corners()[0])
  {
    match d
    case SouthWest => Some(Vec(rect.Left(), rect.Bottom()))
    case NorthEast => Some(Vec(rect.Right(), rect.Top()))
    case SouthEast => Some(rect.P2())
    case NorthWest => Some(rect.p1)
    case OtherDir(_) => None
  }

  /**
   * makePlane: the line through p1 and p2 as normal n and offset c, with n . x + c == 0
   * on the line. The normal is divided by a positive scale that stands for its length.
   */
  function MakePlane(p1: Vec, p2: Vec, scale: real): (plane: (Vec, real))
    requires scale > 0.0
    ensures plane.0.Dot(p1) + plane.1 == 0.0 && plane.0.Dot(p2) + plane.1 == 0.0
    ensures plane.0 == Vec((p2.y - p1.y) / scale, (p1.x - p2.x) / scale)
  {
    var n := Vec(p2.y - p1.y, p1.x - p2.x);
    var c := -p2.Dot(n);
    assert n.Dot(p1) + c == 0.0;
    PlaneScaled(n, c, p1, scale);
    PlaneScaled(n, c, p2, scale);
    (Vec(n.x / scale, n.y / scale), c / scale)
  }

  lemma PlaneScaled(n: Vec, c: real, p: Vec, scale: real)
    requires scale > 0.0
    ensures Vec(n.x / scale, n.y / scale).Dot(p) + c / scale == (n.Dot(p) + c) / scale
  {
  }

  /** The plane of the slope's diagonal, oriented by direction. */
  function SlopePlane(area: Rectf, d: SlopeDir, scale: real): (Vec, real)
    requires scale > 0.0
  {
    match d
    case SouthWest => MakePlane(area.p1, area.P2(), scale)
    case NorthEast => MakePlane(area.P2(), area.p1, scale)
    case SouthEast => MakePlane(Vec(area.Left(), area.Bottom()), Vec(area.Right(), area.Top()), scale)
    case NorthWest => MakePlane(Vec(area.Right(), area.Top()), Vec(area.Left(), area.Bottom()), scale)
    case OtherDir(_) => (Vec(0.0, 0.0), 0.0)
  }

  /** What rectangle_aatriangle decides for one rectangle and slope. */
  datatype SlopeOutcome =
    | BoxesApart                                   // bounding boxes do not overlap: false
    | AssertionFailure                             // an unknown deform or direction tag
    | Outside(depth: real)                         // test corner on the outer side: false
    | Fallback(area: Rectf)                        // corner far from the area: rect/rect against it
    | Direct(normal: Vec, outvec: Vec)             // push out along the normal
  {
    predicate Collides() { Fallback? || Direct? }
    predicate HitsBottom() { Direct? && outvec.y < 0.0 }
  }

  function SlopeDecision(rect: Rectf, triangle: AATriangle, scale: real): (o: SlopeOutcome)
    requires scale > 0.0
    ensures o.BoxesApart? <==> !rect.Overlaps(triangle.bbox)
    ensures o.AssertionFailure? <==>
      rect.Overlaps(triangle.bbox) && (triangle.deform.OtherDeform? || triangle.direction.OtherDir?)
    ensures o.Outside? ==> o.depth < 0.0
  {
    if !rect.Overlaps(triangle.bbox) then BoxesApart
    else
      var area := WorkArea(triangle.bbox, triangle.deform);
      var corner := TestCorner(rect, triangle.direction);
      if area.None? || corner.None? then AssertionFailure
      else
        var plane := SlopePlane(area.value, triangle.direction, scale);
        var depth := -plane.0.Dot(corner.value) - plane.1;
        if depth < 0.0 then Outside(depth)
        else
          var a := area.value;
          var p := corner.value;
          if p.x < a.Left() - RDELTA || p.x > a.Right() + RDELTA
             || p.y < a.Top() - RDELTA || p.y > a.Bottom() + RDELTA
          then Fallback(a)
          else Direct(plane.0, plane.0.Times(depth + 0.2))
  }

  /** The new bounds and hit record of a colliding rectangle_aatriangle call. */
  function ApplySlope(b: Bounds, h: Hit, rect: Rectf, o: SlopeOutcome): (Bounds, Hit)
    requires o.Collides()
  {
    match o
    case Fallback(area) =>
      var res := RectRectResolution(rect, area);
      (ApplyResolution(b, res), MarkSide(h, res.side))
    case Direct(normal, outvec) =>
      var b1 := if outvec.x < 0.0 then ConstrainRightB(b, Fin(rect.Right() + outvec.x))
                else ConstrainLeftB(b, Fin(rect.Left() + outvec.x));
      var h1 := if outvec.x < 0.0 then h.(right := true) else h.(left := true);
      var b2 := if outvec.y < 0.0 then ConstrainBottomB(b1, Fin(rect.Bottom() + outvec.y))
                else ConstrainTopB(b1, Fin(rect.Top() + outvec.y));
      var h2 := if outvec.y < 0.0 then h1.(bottom := true) else h1.(top := true);
      (b2, h2.(slopeNormal := normal))
  }

  /**
   * A direct slope resolution sets exactly one of left/right and one of top/bottom
   * and records the normal; the fallback keeps the old normal.
   */
  lemma SlopeResolutionSides(b: Bounds, rect: Rectf, o: SlopeOutcome)
    requires o.Collides()
    ensures var h' := ApplySlope(b, NoHit, rect, o).1;
      (o.Direct? ==> (h'.left != h'.right) && (h'.top != h'.bottom) && h'.slopeNormal == o.normal) &&
      (o.Fallback? ==>
        (h'.slopeNormal == NoHit.slopeNormal &&
         (if h'.left then 1 else 0) + (if h'.right then 1 else 0) +
         (if h'.top then 1 else 0) + (if h'.bottom then 1 else 0) == 1))
  {
  }

  // ---------------------------------------------------------------------
  // Segment intersection

  /** The cross product (b - a) x (p - a): positive on one side of line a-b, negative on the other. */
  function Cross(a: Vec, b: Vec, p: Vec): real {
    (b.x - a.x) * (p.y - a.y) - (b.y - a.y) * (p.x - a.x)
  }

  /** The closed 1-D overlap test used for collinear segments. */
  predicate IntervalsMeet(a1: real, a2: real, c1: real, c2: real) {
    Min(a1, a2) <= Max(c1, c2) && Max(a1, a2) >= Min(c1, c2)
  }

  /** collision::line_intersects_line. */
  predicate LineIntersectsLine(s1: Vec, e1: Vec, s2: Vec, e2: Vec) {
    var a1, b1, a2, b2 := s1.x, s1.y, e1.x, e1.y;
    var c1, d1, c2, d2 := s2.x, s2.y, e2.x, e2.y;
    var num0 := (b2 - b1) * (c2 - c1) - (a2 - a1) * (d2 - d1);
    var den10 := (d2 - b2) * (c1 - c2) + (a2 - c2) * (d1 - d2);
    var den20 := (d2 - b2) * (a1 - a2) + (a2 - c2) * (b1 - b2);
    var num := if num0 < 0.0 then -num0 else num0;
    var den1 := if num0 < 0.0 then -den10 else den10;
    var den2 := if num0 < 0.0 then -den20 else den20;
    if num == 0.0 then
      if (b1 - b2) * (c1 - a2) != (a1 - a2) * (d1 - b2) then false
      else if a1 == a2 then IntervalsMeet(b1, b2, d1, d2)
      else IntervalsMeet(a1, a2, c1, c2)
    else
      den1 >= 0.0 && den1 <= num && den2 >= 0.0 && den2 <= num
  }

  /** Swapping the edge's ends flips the side. */
  lemma CrossSwap(a: Vec, b: Vec, p: Vec)
    ensures Cross(b, a, p) == -Cross(a, b, p)
  {
    var ux, uy := b.x - a.x, b.y - a.y;
    var vx, vy := p.x - a.x, p.y - a.y;
    assert Cross(a, b, p) == ux * vy - uy * vx;
    assert Cross(b, a, p) == (-ux) * (vy - uy) - (-uy) * (vx - ux);
    assert (-ux) * (vy - uy) == -(ux * vy) + ux * uy;
    assert (-uy) * (vx - ux) == -(uy * vx) + uy * ux;
  }

  /** Parallel segments on different lines never intersect. */
  lemma ParallelApartNeverIntersect(s1: Vec, e1: Vec, s2: Vec, e2: Vec)
    requires (e1.y - s1.y) * (e2.x - s2.x) == (e1.x - s1.x) * (e2.y - s2.y)
    requires Cross(s1, e1, s2) != 0.0
    ensures !LineIntersectsLine(s1, e1, s2, e2)
  {
    CrossSwap(s1, e1, s2);
    assert (s1.y - e1.y) * (s2.x - e1.x) - (s1.x - e1.x) * (s2.y - e1.y) == -Cross(e1, s1, s2);
  }

  /** Collinear segments meet iff their projections onto the line's main axis overlap. */
  lemma CollinearUsesIntervals(s1: Vec, e1: Vec, s2: Vec, e2: Vec)
    requires (e1.y - s1.y) * (e2.x - s2.x) == (e1.x - s1.x) * (e2.y - s2.y)
    requires Cross(s1, e1, s2) == 0.0
    ensures LineIntersectsLine(s1, e1, s2, e2) ==
      if s1.x == e1.x then IntervalsMeet(s1.y, e1.y, s2.y, e2.y) else IntervalsMeet(s1.x, e1.x, s2.x, e2.x)
  {
    var a1, b1, a2, b2 := s1.x, s1.y, e1.x, e1.y;
    var c1, d1, c2, d2 := s2.x, s2.y, e2.x, e2.y;
    assert (b2 - b1) * (c2 - c1) - (a2 - a1) * (d2 - d1) == 0.0;
    CrossSwap(s1, e1, s2);
    assert (b1 - b2) * (c1 - a2) - (a1 - a2) * (d1 - b2) == -Cross(e1, s1, s2);
    assert (b1 - b2) * (c1 - a2) == (a1 - a2) * (d1 - b2);
  }

  /** When both ends of the second segment lie strictly on one side of the first line, they do not meet. */
  lemma SameSideNeverIntersects(s1: Vec, e1: Vec, s2: Vec, e2: Vec)
    requires (Cross(e1, s1, s2) > 0.0 && Cross(e1, s1, e2) > 0.0) || (Cross(e1, s1, s2) < 0.0 && Cross(e1, s1, e2) < 0.0)
    ensures !LineIntersectsLine(s1, e1, s2, e2)
  {
    var a1, b1, a2, b2 := s1.x, s1.y, e1.x, e1.y;
    var c1, d1, c2, d2 := s2.x, s2.y, e2.x, e2.y;
    var num0 := (b2 - b1) * (c2 - c1) - (a2 - a1) * (d2 - d1);
    var den20 := (d2 - b2) * (a1 - a2) + (a2 - c2) * (b1 - b2);
    var side1 := Cross(e1, s1, s2);
    var side2 := Cross(e1, s1, e2);
    assert den20 == side2;
    assert num0 == side2 - side1;
    assert (b1 - b2) * (c1 - a2) - (a1 - a2) * (d1 - b2) == -side1;
  }

  /** Segments that properly straddle each other's lines always intersect. */
  lemma StraddlingSegmentsIntersect(s1: Vec, e1: Vec, s2: Vec, e2: Vec)
    requires Cross(e1, s1, s2) * Cross(e1, s1, e2) < 0.0
    requires Cross(e2, s2, s1) * Cross(e2, s2, e1) < 0.0
    ensures LineIntersectsLine(s1, e1, s2, e2)
  {
    var a1, b1, a2, b2 := s1.x, s1.y, e1.x, e1.y;
    var c1, d1, c2, d2 := s2.x, s2.y, e2.x, e2.y;
    var num0 := (b2 - b1) * (c2 - c1) - (a2 - a1) * (d2 - d1);
    var den10 := (d2 - b2) * (c1 - c2) + (a2 - c2) * (d1 - d2);
    var den20 := (d2 - b2) * (a1 - a2) + (a2 - c2) * (b1 - b2);
    var side1, side2 := Cross(e1, s1, s2), Cross(e1, s1, e2);
    var t1, t2 := Cross(e2, s2, s1), Cross(e2, s2, e1);
    assert den20 == side2;
    assert num0 == side2 - side1;
    assert den10 == -t2;
    assert num0 == t1 - t2;
  }

  lemma CrossingDiagonalsIntersect()
    ensures LineIntersectsLine(Vec(0.0, 0.0), Vec(10.0, 10.0), Vec(0.0, 10.0), Vec(10.0, 0.0))
    ensures !LineIntersectsLine(Vec(0.0, 0.0), Vec(10.0, 0.0), Vec(0.0, 5.0), Vec(10.0, 5.0))
  {
  }

  /** collision::intersects_line: the segment against the four edges, clockwise from the top. */
  predicate IntersectsLine(r: Rectf, lineStart: Vec, lineEnd: Vec) {
    var p1 := r.p1;
    var p2 := Vec(r.Right(), r.Top());
    var p3 := r.P2();
    var p4 := Vec(r.Left(), r.Bottom());
    LineIntersectsLine(p1, p2, lineStart, lineEnd) || LineIntersectsLine(p2, p3, lineStart, lineEnd) ||
    LineIntersectsLine(p3, p4, lineStart, lineEnd) || LineIntersectsLine(p4, p1, lineStart, lineEnd)
  }

  predicate StrictlyInside(r: Rectf, p: Vec) {
    r.Left() < p.x < r.Right() && r.Top() < p.y < r.Bottom()
  }

  /** Only edges are tested: a segment strictly inside the rectangle does not intersect it. */
  lemma SegmentInsideDoesNotIntersect(r: Rectf, lineStart: Vec, lineEnd: Vec)
    requires StrictlyInside(r, lineStart) && StrictlyInside(r, lineEnd)
    ensures !IntersectsLine(r, lineStart, lineEnd)
  {
    var p1 := r.p1;
    var p2 := Vec(r.Right(), r.Top());
    var p3 := r.P2();
    var p4 := Vec(r.Left(), r.Bottom());
    InsideIsRightOfEdges(r, lineStart);
    InsideIsRightOfEdges(r, lineEnd);
    SameSideNeverIntersects(p1, p2, lineStart, lineEnd);
    SameSideNeverIntersects(p2, p3, lineStart, lineEnd);
    SameSideNeverIntersects(p3, p4, lineStart, lineEnd);
    SameSideNeverIntersects(p4, p1, lineStart, lineEnd);
  }

  /** A point strictly inside lies strictly on the inner side of each clockwise edge. */
  lemma InsideIsRightOfEdges(r: Rectf, p: Vec)
    requires StrictlyInside(r, p)
    ensures Cross(Vec(r.Right(), r.Top()), r.p1, p) < 0.0
    ensures Cross(r.P2(), Vec(r.Right(), r.Top()), p) < 0.0
    ensures Cross(Vec(r.Left(), r.Bottom()), r.P2(), p) < 0.0
    ensures Cross(r.p1, Vec(r.Left(), r.Bottom()), p) < 0.0
  {
    AlongEdge(Vec(r.Right(), r.Top()), r.p1, p);
    AlongEdge(r.P2(), Vec(r.Right(), r.Top()), p);
    AlongEdge(Vec(r.Left(), r.Bottom()), r.P2(), p);
    AlongEdge(r.p1, Vec(r.Left(), r.Bottom()), p);
  }

  /** The cross product against a horizontal or vertical edge is one product. */
  lemma AlongEdge(a: Vec, b: Vec, p: Vec)
    ensures a.y == b.y ==> Cross(a, b, p) == (b.x - a.x) * (p.y - a.y)
    ensures a.x == b.x ==> Cross(a, b, p) == (a.y - b.y) * (p.x - a.x)
    ensures a.y == b.y && b.x < a.x && p.y > a.y ==> Cross(a, b, p) < 0.0
    ensures a.y == b.y && b.x > a.x && p.y < a.y ==> Cross(a, b, p) < 0.0
    ensures a.x == b.x && a.y < b.y && p.x > a.x ==> Cross(a, b, p) < 0.0
    ensures a.x == b.x && a.y > b.y && p.x < a.x ==> Cross(a, b, p) < 0.0
  {
    if a.y == b.y {
      assert (b.y - a.y) * (p.x - a.x) == 0.0;
      if b.x != a.x && p.y != a.y {
        NegTimesPos(b.x - a.x, p.y - a.y);
      }
    }
    if a.x == b.x {
      assert (b.x - a.x) * (p.y - a.y) == 0.0;
      assert Cross(a, b, p) == -((b.y - a.y) * (p.x - a.x));
      assert -((b.y - a.y) * (p.x - a.x)) == (a.y - b.y) * (p.x - a.x);
      if a.y != b.y && p.x != a.x {
        NegTimesPos(a.y - b.y, p.x - a.x);
      }
    }
  }

  lemma NegTimesPos(x: real, y: real)
    requires x != 0.0 && y != 0.0
    ensures x < 0.0 && y > 0.0 ==> x * y < 0.0
    ensures x > 0.0 && y < 0.0 ==> x * y < 0.0
    ensures x > 0.0 && y > 0.0 ==> x * y > 0.0
    ensures x < 0.0 && y < 0.0 ==> x * y > 0.0
  {
  }
}
