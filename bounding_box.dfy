/**
 * BoundingBox: an axis-aligned box grown point by point. Until the first point arrives
 * the box has no value; ExpandToFit then pins both corners to that point, and every
 * later point only pulls the corners outwards.
 */
module BoundingBoxes {
  import opened Vectors

  /** The value a BoundingBox stands for. */
  datatype Box = NoValue | Extent(minPoints: Vector3, maxPoints: Vector3)

  /** Component-wise a <= b. */
  predicate LessEq(a: Vector3, b: Vector3) {
    a.x <= b.x && a.y <= b.y && a.z <= b.z
  }

  predicate Contains(box: Box, p: Vector3) {
    box.Extent? && LessEq(box.minPoints, p) && LessEq(p, box.maxPoints)
  }

  function ComponentMin(a: Vector3, b: Vector3): Vector3 {
    Vector3(Min(a.x, b.x), Min(a.y, b.y), Min(a.z, b.z))
  }

  function ComponentMax(a: Vector3, b: Vector3): Vector3 {
    Vector3(Max(a.x, b.x), Max(a.y, b.y), Max(a.z, b.z))
  }

  /** ExpandToFit on the value of a box. */
  function Expand(box: Box, p: Vector3): Box {
    match box
    case NoValue => Extent(p, p)
    case Extent(lo, hi) => Extent(ComponentMin(lo, p), ComponentMax(hi, p))
  }

  /**
   * After ExpandToFit(p) the box contains p, and its corners only move outwards, so
   * everything it contained before it still contains.
   */
  lemma ExpandContainsPoint(box: Box, p: Vector3)
    ensures Contains(Expand(box, p), p)
    ensures box.Extent? ==>
              LessEq(Expand(box, p).minPoints, box.minPoints) && LessEq(box.maxPoints, Expand(box, p).maxPoints)
    ensures forall q :: Contains(box, q) ==> Contains(Expand(box, q), q) && Contains(Expand(box, p), q)
  {
  }

  /** The box is the smallest one holding the point: the first point pins both corners. */
  lemma ExpandFirstPoint(p: Vector3, q: Vector3)
    ensures Contains(Expand(NoValue, p), q) <==> q == p
  {
    if Contains(Expand(NoValue, p), q) {
      assert q.x == p.x && q.y == p.y && q.z == p.z;
    }
  }

  /** ExpandToFit applied to each point of a list in turn, first to last. */
  function FitAll(box: Box, points: seq<Vector3>): Box
    decreases |points|
  {
    if points == [] then box else Expand(FitAll(box, points[..|points| - 1]), points[|points| - 1])
  }

  /** Fitting one more point of a list is one more ExpandToFit. */
  lemma FitAllStep(box: Box, points: seq<Vector3>, k: nat)
    requires k < |points|
    ensures FitAll(box, points[..k + 1]) == Expand(FitAll(box, points[..k]), points[k])
  {
    assert points[..k + 1][..k] == points[..k];
  }

  /** Fitting a list of points yields a box that holds every one of them and all it held before. */
  lemma {:induction false} FitAllContains(box: Box, points: seq<Vector3>)
    ensures points != [] ==> FitAll(box, points).Extent?
    ensures forall q :: Contains(box, q) ==> Contains(FitAll(box, points), q)
    ensures forall i :: 0 <= i < |points| ==> Contains(FitAll(box, points), points[i])
    decreases |points|
  {
    if points != [] {
      var init := points[..|points| - 1];
      var last := points[|points| - 1];
      FitAllContains(box, init);
      ExpandContainsPoint(FitAll(box, init), last);
      assert forall i :: 0 <= i < |points| - 1 ==> points[i] == init[i];
    }
  }

  /** The eight corners of an extent, in the order BoundingBox::Transform visits them. */
  function Corners(lo: Vector3, hi: Vector3): seq<Vector3> {
    [ Vector3(lo.x, lo.y, lo.z), Vector3(hi.x, lo.y, lo.z), Vector3(lo.x, hi.y, lo.z), Vector3(hi.x, hi.y, lo.z),
      Vector3(lo.x, lo.y, hi.z), Vector3(hi.x, lo.y, hi.z), Vector3(lo.x, hi.y, hi.z), Vector3(hi.x, hi.y, hi.z) ]
  }

  class BoundingBox {
    var minPoints: Vector3
    var maxPoints: Vector3
    var hasValue: bool

    function Value(): Box
      reads this
    {
      if hasValue then Extent(minPoints, maxPoints) else NoValue
    }

    constructor ()
      ensures Value() == NoValue
    {
      hasValue := false;
    }

    method ExpandToFit(point: Vector3)
      modifies this
      ensures Value() == Expand(old(Value()), point)
      ensures Contains(Value(), point)
      ensures forall q :: old(Contains(Value(), q)) ==> Contains(Value(), q)
    {
      if !hasValue {
        minPoints := point;
        maxPoints := point;
        hasValue := true;
      } else {
        minPoints := minPoints.(x := Min(minPoints.x, point.x));
        minPoints := minPoints.(y := Min(minPoints.y, point.y));
        minPoints := minPoints.(z := Min(minPoints.z, point.z));
        maxPoints := maxPoints.(x := Max(maxPoints.x, point.x));
        maxPoints := maxPoints.(y := Max(maxPoints.y, point.y));
        maxPoints := maxPoints.(z := Max(maxPoints.z, point.z));
      }
      ExpandContainsPoint(old(Value()), point);
    }

    /**
     * Transform: a fresh box fitted around the eight corners of this one, each sent
     * through the matrix. Matrix4 * Vector3 is not part of this model; `transformPoint`
     * is the map the matrix applies to a point.
     */
    method Transform(transformPoint: Vector3 -> Vector3) returns (bb: BoundingBox)
      ensures fresh(bb)
      ensures bb.Value() == FitAll(NoValue, TransformedCorners(transformPoint))
      ensures forall i :: 0 <= i < 8 ==> Contains(bb.Value(), TransformedCorners(transformPoint)[i])
    {
      ghost var cs := TransformedCorners(transformPoint);
      var lo, hi := minPoints, maxPoints;
      bb := new BoundingBox();
      assert cs[..0] == [];
      bb.ExpandToFit(transformPoint(Vector3(lo.x, lo.y, lo.z)));
      FitAllStep(NoValue, cs, 0);
      bb.ExpandToFit(transformPoint(Vector3(hi.x, lo.y, lo.z)));
      FitAllStep(NoValue, cs, 1);
      bb.ExpandToFit(transformPoint(Vector3(lo.x, hi.y, lo.z)));
      FitAllStep(NoValue, cs, 2);
      bb.ExpandToFit(transformPoint(Vector3(hi.x, hi.y, lo.z)));
      FitAllStep(NoValue, cs, 3);

      bb.ExpandToFit(transformPoint(Vector3(lo.x, lo.y, hi.z)));
      FitAllStep(NoValue, cs, 4);
      bb.ExpandToFit(transformPoint(Vector3(hi.x, lo.y, hi.z)));
      FitAllStep(NoValue, cs, 5);
      bb.ExpandToFit(transformPoint(Vector3(lo.x, hi.y, hi.z)));
      FitAllStep(NoValue, cs, 6);
      bb.ExpandToFit(transformPoint(Vector3(hi.x, hi.y, hi.z)));
      FitAllStep(NoValue, cs, 7);
      assert cs[..8] == cs;
      FitAllContains(NoValue, cs);
    }

    /** The eight corners of this box sent through the transform, in the order Transform fits them. */
    function TransformedCorners(transformPoint: Vector3 -> Vector3): (cs: seq<Vector3>)
      reads this
      ensures |cs| == 8
    {
      var c := Corners(minPoints, maxPoints);
      [ transformPoint(c[0]), transformPoint(c[1]), transformPoint(c[2]), transformPoint(c[3]),
        transformPoint(c[4]), transformPoint(c[5]), transformPoint(c[6]), transformPoint(c[7]) ]
    }
  }
}
