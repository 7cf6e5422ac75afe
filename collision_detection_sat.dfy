/**
 * CollisionDetectionSAT: the separating-axis narrow phase for one pair of bodies and
 * the contact points it hands to a manifold.
 *
 * The detector gathers candidate axes (each shape's face axes, the cross products of
 * their edges with near-duplicates dropped, and one extra axis for a curved shape),
 * projects both shapes on every axis and stops at the first axis that separates them.
 * When none does, the axis of least penetration is kept, and contact generation clips
 * the incident face of one shape against the reference face of the other.
 *
 * Every shape query goes through the functions a `CollisionShape` carries; lists are
 * sequences, so the clipping routine, which copies its input before it writes its
 * output, is a function of the input polygon's value.
 */
module Sat {
  import opened Vectors
  import opened Shapes
  import opened Bodies
  import opened Manifolds

  /** The squared length below which a candidate axis counts as zero, and the tolerance for "the same axis". */
  const AxisEpsilon: real := 0.0001

  /** |n . (end - start)| at or below this makes PlaneEdgeIntersection treat an edge as parallel to the plane. */
  const ParallelEpsilon: real := 0.0001

  /**
   * CollisionData: the direction of the collision from the first body to the second,
   * the penetration (the negative overlap distance) and the point on the first body
   * where the two overlap.
   */
  datatype CollisionData = CollisionData(normal: Vector3, penetration: real, pointOnPlane: Vector3)

  /** Both shapes and where their bodies are: everything an axis test reads. */
  datatype PairGeometry = PairGeometry(shape1: CollisionShape, pose1: Pose, shape2: CollisionShape, pose2: Pose)

  //<---- LIBRARY CALLS ---->

  /** Vector3::Normalise. */
  function Unit(num: Numerics, v: Vector3): Vector3 {
    num.normalise(v)
  }

  /** Plane::PointInPlane. */
  function Inside(num: Numerics, plane: Plane, p: Vector3): bool {
    num.pointInPlane(plane, p)
  }

  /** CollisionShape::GetCollisionAxes. */
  function AxesOf(shape: CollisionShape, pose: Pose): seq<Vector3> {
    shape.collisionAxes(pose)
  }

  /** CollisionShape::GetEdges. */
  function EdgesOf(shape: CollisionShape, pose: Pose): seq<CollisionEdge> {
    shape.edges(pose)
  }

  /** CollisionShape::GetIncidentReferencePolygon. */
  function FaceOf(shape: CollisionShape, pose: Pose, axis: Vector3): IncidentFace {
    shape.incidentReferencePolygon(pose, axis)
  }

  //<---- ONE AXIS (CheckCollisionAxis) ---->

  /** The closed intervals [lo1, hi1] and [lo2, hi2] have a point in common. */
  predicate IntervalsMeet(lo1: real, hi1: real, lo2: real, hi2: real) {
    Max(lo1, lo2) <= Min(hi1, hi2)
  }

  /**
   * CheckCollisionAxis once both shapes' extreme vertices on the axis are known: the
   * normal is the axis or its negation and the penetration is never positive.
   */
  function AxisOverlap(axis: Vector3, min1: Vector3, max1: Vector3, min2: Vector3, max2: Vector3): (r: Option<CollisionData>)
    ensures r.Some? ==> r.value.penetration <= 0.0
    ensures r.Some? ==> r.value.normal == axis || r.value.normal == Neg(axis)
  {
    var minCorrelation1 := Dot(axis, min1);
    var maxCorrelation1 := Dot(axis, max1);
    var minCorrelation2 := Dot(axis, min2);
    var maxCorrelation2 := Dot(axis, max2);
    if minCorrelation1 <= minCorrelation2 && maxCorrelation1 >= minCorrelation2 then
      var penetration := minCorrelation2 - maxCorrelation1;
      Some(CollisionData(axis, penetration, Add(max1, Scale(axis, penetration))))
    else if minCorrelation2 <= minCorrelation1 && maxCorrelation2 >= minCorrelation1 then
      var penetration := minCorrelation1 - maxCorrelation2;
      Some(CollisionData(Neg(axis), penetration, Add(min1, Scale(Neg(axis), penetration))))
    else
      None
  }

  /**
   * For well-formed projections (each shape's least vertex no further along the axis
   * than its greatest), the axis test succeeds exactly when the two closed intervals
   * meet, and the normal points from shape 1 to shape 2: it is the axis itself when
   * shape 1's projection starts first, its negation otherwise.
   */
  lemma AxisOverlapIffIntervalsMeet(axis: Vector3, min1: Vector3, max1: Vector3, min2: Vector3, max2: Vector3)
    requires Dot(axis, min1) <= Dot(axis, max1) && Dot(axis, min2) <= Dot(axis, max2)
    ensures AxisOverlap(axis, min1, max1, min2, max2).Some? <==>
              IntervalsMeet(Dot(axis, min1), Dot(axis, max1), Dot(axis, min2), Dot(axis, max2))
    ensures AxisOverlap(axis, min1, max1, min2, max2).Some? ==>
              AxisOverlap(axis, min1, max1, min2, max2).value.normal ==
                if Dot(axis, min1) <= Dot(axis, min2) then axis else Neg(axis)
  {
  }

  /** The penetration reported is at least as deep as the overlap of the two intervals. */
  lemma PenetrationCoversOverlap(axis: Vector3, min1: Vector3, max1: Vector3, min2: Vector3, max2: Vector3)
    requires AxisOverlap(axis, min1, max1, min2, max2).Some?
    ensures AxisOverlap(axis, min1, max1, min2, max2).value.penetration <=
              -(Min(Dot(axis, max1), Dot(axis, max2)) - Max(Dot(axis, min1), Dot(axis, min2)))
  {
  }

  /**
   * For a unit axis the reported point lies where shape 2's projection meets shape 1:
   * on shape 2's near extreme along the axis (its least vertex when shape 1 comes
   * first, its greatest otherwise).
   */
  lemma PointOnPlaneOnShape2(axis: Vector3, min1: Vector3, max1: Vector3, min2: Vector3, max2: Vector3)
    requires Dot(axis, axis) == 1.0
    requires Dot(axis, min1) <= Dot(axis, max1) && Dot(axis, min2) <= Dot(axis, max2)
    requires AxisOverlap(axis, min1, max1, min2, max2).Some?
    ensures Dot(axis, min1) <= Dot(axis, min2) ==>
              Dot(axis, AxisOverlap(axis, min1, max1, min2, max2).value.pointOnPlane) == Dot(axis, min2)
    ensures Dot(axis, min2) < Dot(axis, min1) ==>
              Dot(axis, AxisOverlap(axis, min1, max1, min2, max2).value.pointOnPlane) == Dot(axis, max2)
  {
    var p := AxisOverlap(axis, min1, max1, min2, max2).value.pointOnPlane;
    if Dot(axis, min1) <= Dot(axis, min2) {
      MovedOntoLevel(axis, max1, Dot(axis, min2), p);
    } else {
      assert p == Add(min1, Scale(Neg(axis), Dot(axis, min1) - Dot(axis, max2)));
      MovedBackOntoLevel(axis, min1, Dot(axis, max2), p);
    }
  }

  /** A point moved along a unit axis by (level - its projection) projects onto that level. */
  lemma MovedOntoLevel(axis: Vector3, q: Vector3, level: real, p: Vector3)
    requires Dot(axis, axis) == 1.0
    requires p == Add(q, Scale(axis, level - Dot(axis, q)))
    ensures Dot(axis, p) == level
  {
    assert Dot(axis, p) == Dot(axis, q) + (level - Dot(axis, q)) * Dot(axis, axis);
  }

  /** A point moved against a unit axis by (its projection - level) projects onto that level. */
  lemma MovedBackOntoLevel(axis: Vector3, q: Vector3, level: real, p: Vector3)
    requires Dot(axis, axis) == 1.0
    requires p == Add(q, Scale(Neg(axis), Dot(axis, q) - level))
    ensures Dot(axis, p) == level
  {
    assert Scale(Neg(axis), Dot(axis, q) - level) == Scale(axis, level - Dot(axis, q));
    MovedOntoLevel(axis, q, level, p);
  }

  /** CheckCollisionAxis: projects both shapes of the pair on the axis and tests the intervals. */
  function CheckCollisionAxis(g: PairGeometry, axis: Vector3): (r: Option<CollisionData>)
    ensures r.Some? ==> r.value.penetration <= 0.0
    ensures r.Some? ==> r.value.normal == axis || r.value.normal == Neg(axis)
  {
    var (min1, max1) := g.shape1.minMaxVertexOnAxis(g.pose1, axis);
    var (min2, max2) := g.shape2.minMaxVertexOnAxis(g.pose2, axis);
    AxisOverlap(axis, min1, max1, min2, max2)
  }

  //<---- ALL AXES (AreColliding) ---->

  /** The axis test on each candidate axis, in order. */
  function AxisResults(g: PairGeometry, axes: seq<Vector3>): (rs: seq<Option<CollisionData>>)
    ensures |rs| == |axes|
    ensures forall k :: 0 <= k < |axes| ==> rs[k] == CheckCollisionAxis(g, axes[k])
  {
    seq(|axes|, k requires 0 <= k < |axes| => CheckCollisionAxis(g, axes[k]))
  }

  /** No axis separates the shapes. */
  predicate AllOverlap(rs: seq<Option<CollisionData>>) {
    forall k :: 0 <= k < |rs| ==> rs[k].Some?
  }

  /**
   * The best collision data when the axis loop ends: starting from `best`, each
   * overlapping axis whose penetration is at least the best so far replaces it; the
   * first separating axis ends the loop.
   */
  function Strongest(best: CollisionData, rs: seq<Option<CollisionData>>): CollisionData
    decreases |rs|
  {
    if rs == [] || rs[0].None? then best
    else Strongest(if rs[0].value.penetration >= best.penetration then rs[0].value else best, rs[1..])
  }

  /**
   * When no axis separates the shapes, the kept data has the largest (least negative)
   * penetration of all axes and of the starting value, and it is one of them.
   */
  lemma {:induction false} StrongestIsMaximum(best: CollisionData, rs: seq<Option<CollisionData>>)
    requires AllOverlap(rs)
    ensures best.penetration <= Strongest(best, rs).penetration
    ensures forall k :: 0 <= k < |rs| ==> rs[k].value.penetration <= Strongest(best, rs).penetration
    ensures Strongest(best, rs) == best || exists k :: 0 <= k < |rs| && rs[k] == Some(Strongest(best, rs))
    decreases |rs|
  {
    if rs != [] {
      var next := if rs[0].value.penetration >= best.penetration then rs[0].value else best;
      StrongestIsMaximum(next, rs[1..]);
      assert forall k :: 1 <= k < |rs| ==> rs[k] == rs[1..][k - 1];
      var s := Strongest(best, rs);
      if s != best && s != next {
        var m :| 0 <= m < |rs[1..]| && rs[1..][m] == Some(s);
        assert rs[m + 1] == Some(s);
      } else if s != best {
        assert rs[0] == Some(s);
      }
    }
  }

  /**
   * Ties go to the later axis: every axis whose penetration equals the kept one is
   * matched by the kept data at that axis or after it, since the comparison is `>=`.
   */
  lemma StrongestTiesGoLater(best: CollisionData, rs: seq<Option<CollisionData>>)
    requires AllOverlap(rs)
    ensures forall k :: 0 <= k < |rs| && rs[k].value.penetration == Strongest(best, rs).penetration ==>
              exists m :: k <= m < |rs| && rs[m] == Some(Strongest(best, rs))
  {
    forall k | 0 <= k < |rs| && rs[k].value.penetration == Strongest(best, rs).penetration
      ensures exists m :: k <= m < |rs| && rs[m] == Some(Strongest(best, rs))
    {
      StrongestTieAt(best, rs, k);
    }
  }

  lemma {:induction false} StrongestTieAt(best: CollisionData, rs: seq<Option<CollisionData>>, k: nat)
    requires AllOverlap(rs) && k < |rs|
    requires rs[k].value.penetration == Strongest(best, rs).penetration
    ensures exists m :: k <= m < |rs| && rs[m] == Some(Strongest(best, rs))
    decreases |rs|
  {
    var s := Strongest(best, rs);
    var next := if rs[0].value.penetration >= best.penetration then rs[0].value else best;
    var rest := rs[1..];
    assert AllOverlap(rest);
    assert Strongest(next, rest) == s;
    if k == 0 {
      StrongestIsMaximum(best, rs);
      assert next == rs[0].value;
      StrongestIsMaximum(next, rest);
      if s == next {
        assert rs[0] == Some(s);
      } else {
        var m' :| 0 <= m' < |rest| && rest[m'] == Some(s);
        assert rs[m' + 1] == Some(s);
      }
    } else {
      assert rest[k - 1] == rs[k];
      StrongestTieAt(next, rest, k - 1);
      var m' :| k - 1 <= m' < |rest| && rest[m'] == Some(s);
      assert rs[m' + 1] == Some(s);
    }
  }

  //<---- CANDIDATE AXES (FindAllPossibleCollisionAxes, AddPossibleCollisionAxis) ---->

  /** Some axis of the list points within the tolerance of the same direction as n. */
  predicate NearDuplicate(axes: seq<Vector3>, n: Vector3) {
    exists k :: 0 <= k < |axes| && Dot(n, axes[k]) >= 1.0 - AxisEpsilon
  }

  /** AddPossibleCollisionAxis on the list of axes. */
  function AddAxis(axes: seq<Vector3>, axis: Vector3, num: Numerics): seq<Vector3> {
    if Dot(axis, axis) < AxisEpsilon then axes
    else if NearDuplicate(axes, Unit(num, axis)) then axes
    else axes + [Unit(num, axis)]
  }

  /** Every axis from position `from` on differs in direction from all axes before it. */
  predicate DeduplicatedFrom(axes: seq<Vector3>, from: nat) {
    forall i, j :: 0 <= i < j < |axes| && from <= j ==> Dot(axes[j], axes[i]) < 1.0 - AxisEpsilon
  }

  /**
   * AddPossibleCollisionAxis keeps the list free of near-duplicates: it leaves the list
   * alone or appends one axis that differs in direction from every axis already there,
   * and it appends exactly when the axis is not near zero and no listed axis is near it.
   */
  lemma AddAxisKeepsDeduplicated(axes: seq<Vector3>, axis: Vector3, num: Numerics, from: nat)
    requires from <= |axes| && DeduplicatedFrom(axes, from)
    ensures AddAxis(axes, axis, num) == axes || AddAxis(axes, axis, num) == axes + [Unit(num, axis)]
    ensures |AddAxis(axes, axis, num)| == |axes| + 1 <==>
              AxisEpsilon <= Dot(axis, axis) && forall k :: 0 <= k < |axes| ==> Dot(Unit(num, axis), axes[k]) < 1.0 - AxisEpsilon
    ensures DeduplicatedFrom(AddAxis(axes, axis, num), from)
  {
  }

  /**
   * An axis opposite to every listed one is never taken for a duplicate: anti-parallel
   * axes both stay in the list.
   */
  lemma AntiParallelAxisAdded(axes: seq<Vector3>, axis: Vector3, num: Numerics)
    requires AxisEpsilon <= Dot(axis, axis)
    requires forall k :: 0 <= k < |axes| ==> Dot(Unit(num, axis), axes[k]) <= 0.0
    ensures AddAxis(axes, axis, num) == axes + [Unit(num, axis)]
  {
  }

  /** AddPossibleCollisionAxis on each candidate in turn, first to last. */
  function AddAll(axes: seq<Vector3>, candidates: seq<Vector3>, num: Numerics): seq<Vector3>
    decreases |candidates|
  {
    if candidates == [] then axes
    else AddAxis(AddAll(axes, candidates[..|candidates| - 1], num), candidates[|candidates| - 1], num)
  }

  /**
   * Adding candidates keeps the axes already listed, in place, adds at most one axis
   * per candidate, and every axis added differs in direction from every axis before it.
   */
  lemma {:induction false} AddAllKeepsDeduplicated(axes: seq<Vector3>, candidates: seq<Vector3>, num: Numerics, from: nat)
    requires from <= |axes| && DeduplicatedFrom(axes, from)
    ensures |axes| <= |AddAll(axes, candidates, num)| <= |axes| + |candidates|
    ensures AddAll(axes, candidates, num)[..|axes|] == axes
    ensures DeduplicatedFrom(AddAll(axes, candidates, num), from)
    decreases |candidates|
  {
    if candidates != [] {
      var init := candidates[..|candidates| - 1];
      AddAllKeepsDeduplicated(axes, init, num, from);
      AddAxisKeepsDeduplicated(AddAll(axes, init, num), candidates[|candidates| - 1], num, from);
    }
  }

  /** The candidate axis of an edge pair: the cross product of the two normalised edge directions. */
  function EdgeAxis(edge1: CollisionEdge, edge2: CollisionEdge, num: Numerics): Vector3 {
    Cross(Unit(num, Sub(edge1.posB, edge1.posA)), Unit(num, Sub(edge2.posB, edge2.posA)))
  }

  /** The candidate axes of one edge of shape 1 with each edge of shape 2, in order. */
  function EdgeRow(edge1: CollisionEdge, edges2: seq<CollisionEdge>, num: Numerics): seq<Vector3>
    decreases |edges2|
  {
    if edges2 == [] then []
    else EdgeRow(edge1, edges2[..|edges2| - 1], num) + [EdgeAxis(edge1, edges2[|edges2| - 1], num)]
  }

  /** The candidate axes of every edge pair, shape 1's edges in the outer loop. */
  function EdgePairAxes(edges1: seq<CollisionEdge>, edges2: seq<CollisionEdge>, num: Numerics): seq<Vector3>
    decreases |edges1|
  {
    if edges1 == [] then []
    else EdgePairAxes(edges1[..|edges1| - 1], edges2, num) + EdgeRow(edges1[|edges1| - 1], edges2, num)
  }

  /**
   * The extra candidate for curved shapes (a shape without edges is a sphere): the
   * line between the centres for two spheres, otherwise the line from the closest point
   * on the other shape's edges to the sphere's centre.
   */
  function CurvedAxes(g: PairGeometry, num: Numerics): seq<Vector3> {
    var edges1 := EdgesOf(g.shape1, g.pose1);
    var edges2 := EdgesOf(g.shape2, g.pose2);
    if edges1 == [] && edges2 == [] then
      [Unit(num, Sub(g.pose2.position, g.pose1.position))]
    else if edges1 == [] then
      [Unit(num, Sub(g.pose1.position, ClosestPoint(g.pose1.position, edges2)))]
    else if edges2 == [] then
      [Unit(num, Sub(g.pose2.position, ClosestPoint(g.pose2.position, edges1)))]
    else
      []
  }

  /** The face axes of both shapes, appended as they come. */
  function FaceAxes(g: PairGeometry, existing: seq<Vector3>): seq<Vector3> {
    existing + AxesOf(g.shape1, g.pose1) + AxesOf(g.shape2, g.pose2)
  }

  /** The axis list FindAllPossibleCollisionAxes leaves behind. */
  function CandidateAxes(g: PairGeometry, existing: seq<Vector3>, num: Numerics): seq<Vector3> {
    AddAll(FaceAxes(g, existing),
           EdgePairAxes(EdgesOf(g.shape1, g.pose1), EdgesOf(g.shape2, g.pose2), num) + CurvedAxes(g, num),
           num)
  }

  /**
   * The face axes go in as they are; every edge and curved-surface axis after them
   * differs in direction from each axis before it.
   */
  lemma CandidateAxesDeduplicated(g: PairGeometry, existing: seq<Vector3>, num: Numerics)
    ensures |FaceAxes(g, existing)| <= |CandidateAxes(g, existing, num)|
    ensures CandidateAxes(g, existing, num)[..|FaceAxes(g, existing)|] == FaceAxes(g, existing)
    ensures DeduplicatedFrom(CandidateAxes(g, existing, num), |FaceAxes(g, existing)|)
  {
    var faces := FaceAxes(g, existing);
    AddAllKeepsDeduplicated(faces, EdgePairAxes(EdgesOf(g.shape1, g.pose1), EdgesOf(g.shape2, g.pose2), num) + CurvedAxes(g, num),
                            num, |faces|);
  }

  //<---- CLOSEST POINT ON EDGES (GetClosestPoint) ---->

  /**
   * An edge whose ends coincide. Its parameter is 0/0, a NaN in single precision. Taking
   * std::min and std::max as NaN-propagating, the clamped parameter, the point and the
   * distance are NaN and the strict comparison fails, so the edge is skipped; the model
   * skips it outright.
   */
  predicate Degenerate(edge: CollisionEdge) {
    Dot(Sub(edge.posB, edge.posA), Sub(edge.posB, edge.posA)) == 0.0
  }

  /** The position of pos projected on the edge's line, clamped to the segment. */
  function SegmentParameter(pos: Vector3, edge: CollisionEdge): (t: real)
    requires !Degenerate(edge)
    ensures 0.0 <= t <= 1.0
  {
    var ab := Sub(edge.posB, edge.posA);
    Max(Min(Dot(Sub(pos, edge.posA), ab) / Dot(ab, ab), 1.0), 0.0)
  }

  /** The point of the edge closest to pos. */
  function SegmentPoint(pos: Vector3, edge: CollisionEdge): Vector3
    requires !Degenerate(edge)
  {
    Add(edge.posA, Scale(Sub(edge.posB, edge.posA), SegmentParameter(pos, edge)))
  }

  /** The running minimum of GetClosestPoint: the squared distance and the point. */
  datatype Nearest = Nearest(distSq: real, point: Vector3)

  /**
   * The running minimum after the given edges, starting from FLT_MAX and a zero point;
   * an edge replaces it only when strictly closer.
   */
  function NearestOf(pos: Vector3, edges: seq<CollisionEdge>): (r: Nearest)
    ensures r.distSq <= FltMax
    ensures forall k :: 0 <= k < |edges| && !Degenerate(edges[k]) ==>
              r.distSq <= DistSq(pos, SegmentPoint(pos, edges[k]))
    decreases |edges|
  {
    if edges == [] then Nearest(FltMax, Zero)
    else
      var acc := NearestOf(pos, edges[..|edges| - 1]);
      var edge := edges[|edges| - 1];
      assert forall k :: 0 <= k < |edges| - 1 ==> edges[..|edges| - 1][k] == edges[k];
      if Degenerate(edge) then acc
      else
        var p := SegmentPoint(pos, edge);
        if DistSq(pos, p) < acc.distSq then Nearest(DistSq(pos, p), p) else acc
  }

  /** GetClosestPoint's result. */
  function ClosestPoint(pos: Vector3, edges: seq<CollisionEdge>): Vector3 {
    NearestOf(pos, edges).point
  }

  /**
   * The edge k whose segment point GetClosestPoint returns: it is at the least squared
   * distance, and every earlier edge is strictly further away, so ties keep the earlier edge.
   */
  predicate ClosestEdge(pos: Vector3, edges: seq<CollisionEdge>, k: int) {
    && 0 <= k < |edges| && !Degenerate(edges[k])
    && NearestOf(pos, edges).point == SegmentPoint(pos, edges[k])
    && NearestOf(pos, edges).distSq == DistSq(pos, SegmentPoint(pos, edges[k]))
    && forall i :: 0 <= i < k && !Degenerate(edges[i]) ==> NearestOf(pos, edges).distSq < DistSq(pos, SegmentPoint(pos, edges[i]))
  }

  /** Unless no edge came closer than FLT_MAX, the point returned is that of the first closest edge. */
  lemma {:induction false} ClosestPointFromFirstClosestEdge(pos: Vector3, edges: seq<CollisionEdge>) returns (k: int)
    ensures NearestOf(pos, edges).distSq < FltMax ==> ClosestEdge(pos, edges, k)
    ensures NearestOf(pos, edges).distSq == FltMax ==> NearestOf(pos, edges).point == Zero
    decreases |edges|
  {
    k := -1;
    if edges != [] {
      var init := edges[..|edges| - 1];
      var edge := edges[|edges| - 1];
      var acc := NearestOf(pos, init);
      assert forall i :: 0 <= i < |init| ==> init[i] == edges[i];
      if !Degenerate(edge) && DistSq(pos, SegmentPoint(pos, edge)) < acc.distSq {
        k := |edges| - 1;
      } else {
        k := ClosestPointFromFirstClosestEdge(pos, init);
      }
    }
  }

  //<---- CLIPPING (PlaneEdgeIntersection, SutherlandHodgesonClipping) ---->

  /**
   * PlaneEdgeIntersection: where the line from start through end crosses the plane, or
   * start itself when the edge runs (nearly) parallel to it.
   */
  function PlaneEdgeIntersection(plane: Plane, start: Vector3, end: Vector3): (p: Vector3)
    ensures !Crosses(plane, start, end) ==> p == start
    ensures UnitNormal(plane) && Crosses(plane, start, end) ==> OnPlane(plane, p)
  {
    var ab := Sub(end, start);
    var abP := Dot(plane.normal, ab);
    if Abs(abP) > ParallelEpsilon then
      var pCo := Scale(plane.normal, -plane.distance);
      var w := Sub(start, pCo);
      var fac := -Dot(plane.normal, w) / abP;
      CrossingOnPlane(plane, start, ab);
      Add(start, Scale(ab, fac))
    else
      start
  }

  /** The edge from start to end is far enough from parallel to the plane for the source to intersect it. */
  predicate Crosses(plane: Plane, start: Vector3, end: Vector3) {
    Abs(Dot(plane.normal, Sub(end, start))) > ParallelEpsilon
  }

  /** The plane's normal has length 1, so SignedDistance is a true distance. */
  predicate UnitNormal(plane: Plane) {
    Dot(plane.normal, plane.normal) == 1.0
  }

  /** The point lies on the plane. */
  predicate OnPlane(plane: Plane, p: Vector3) {
    SignedDistance(plane, p) == 0.0
  }

  /** Moving start along ab by the source's factor lands on the plane, when the normal is a unit vector. */
  lemma CrossingOnPlane(plane: Plane, start: Vector3, ab: Vector3)
    requires Dot(plane.normal, ab) != 0.0
    ensures Dot(plane.normal, plane.normal) == 1.0 ==>
              var fac := -Dot(plane.normal, Sub(start, Scale(plane.normal, -plane.distance))) / Dot(plane.normal, ab);
              SignedDistance(plane, Add(start, Scale(ab, fac))) == 0.0
  {
    var n := plane.normal;
    if Dot(n, n) == 1.0 {
      var abP := Dot(n, ab);
      var w := Sub(start, Scale(n, -plane.distance));
      var fac := -Dot(n, w) / abP;
      StartOffset(plane, start);
      ProjectionAlongEdge(n, start, ab, fac);
      DivideThenMultiply(-Dot(n, w), abP);
    }
  }

  /** start - n (-d) projects on a unit normal n to the signed distance of start. */
  lemma StartOffset(plane: Plane, start: Vector3)
    requires Dot(plane.normal, plane.normal) == 1.0
    ensures Dot(plane.normal, Sub(start, Scale(plane.normal, -plane.distance))) == SignedDistance(plane, start)
  {
    var n := plane.normal;
    assert Dot(n, Sub(start, Scale(n, -plane.distance))) == Dot(start, n) + plane.distance * Dot(n, n);
  }

  /** Moving start by f ab moves its projection on n by f (n . ab). */
  lemma ProjectionAlongEdge(n: Vector3, start: Vector3, ab: Vector3, f: real)
    ensures Dot(Add(start, Scale(ab, f)), n) == Dot(start, n) + f * Dot(n, ab)
  {
  }

  lemma DivideThenMultiply(a: real, b: real)
    requires b != 0.0
    ensures (a / b) * b == a
  {
  }

  /**
   * With a unit normal and the two ends on opposite sides of the plane (or on it), the
   * intersection lies on the segment between them.
   */
  lemma IntersectionOnSegment(plane: Plane, start: Vector3, end: Vector3) returns (t: real)
    requires Dot(plane.normal, plane.normal) == 1.0
    requires SignedDistance(plane, start) <= 0.0 <= SignedDistance(plane, end) ||
             SignedDistance(plane, end) <= 0.0 <= SignedDistance(plane, start)
    ensures 0.0 <= t <= 1.0
    ensures PlaneEdgeIntersection(plane, start, end) == Add(start, Scale(Sub(end, start), t))
  {
    var n := plane.normal;
    var ab := Sub(end, start);
    var abP := Dot(n, ab);
    if Abs(abP) > ParallelEpsilon {
      var w := Sub(start, Scale(n, -plane.distance));
      t := -Dot(n, w) / abP;
      StartOffset(plane, start);
      EdgeProjection(plane, start, end);
      FractionInUnitInterval(SignedDistance(plane, start), SignedDistance(plane, end));
    } else {
      t := 0.0;
      assert Scale(ab, 0.0) == Zero;
    }
  }

  /** For ds and de on opposite sides of zero and apart, -ds / (de - ds) lies in [0, 1]. */
  lemma FractionInUnitInterval(ds: real, de: real)
    requires ds <= 0.0 <= de || de <= 0.0 <= ds
    requires de - ds != 0.0
    ensures 0.0 <= -ds / (de - ds) <= 1.0
  {
    if de - ds > 0.0 {
      assert -ds <= de - ds;
    } else {
      assert -ds >= de - ds;
    }
  }

  /** The projection of an edge on the normal is the change in signed distance along it. */
  lemma EdgeProjection(plane: Plane, start: Vector3, end: Vector3)
    ensures Dot(plane.normal, Sub(end, start)) == SignedDistance(plane, end) - SignedDistance(plane, start)
  {
  }

  /** What one edge (start, end) of the polygon contributes to one clipping pass. */
  function ClipEdge(plane: Plane, start: Vector3, end: Vector3, removePoints: bool, num: Numerics): seq<Vector3> {
    var startInPlane := Inside(num, plane, start);
    var endInPlane := Inside(num, plane, end);
    if removePoints then
      if endInPlane then [end] else []
    else if startInPlane && endInPlane then
      [end]
    else if startInPlane && !endInPlane then
      [PlaneEdgeIntersection(plane, start, end)]
    else if !startInPlane && endInPlane then
      [PlaneEdgeIntersection(plane, end, start), end]
    else
      []
  }

  /** The point before position k of a closed polygon: the last one before the first. */
  function Previous(polygon: seq<Vector3>, k: int): Vector3
    requires 0 <= k < |polygon|
  {
    if k == 0 then polygon[|polygon| - 1] else polygon[k - 1]
  }

  /** One clipping pass over the first n edges of the polygon. */
  function ClipEdges(polygon: seq<Vector3>, n: nat, plane: Plane, removePoints: bool, num: Numerics): seq<Vector3>
    requires n <= |polygon|
    decreases n
  {
    if n == 0 then []
    else ClipEdges(polygon, n - 1, plane, removePoints, num) + ClipEdge(plane, Previous(polygon, n - 1), polygon[n - 1], removePoints, num)
  }

  /** One clipping pass against one plane. */
  function ClipPass(polygon: seq<Vector3>, plane: Plane, removePoints: bool, num: Numerics): seq<Vector3> {
    ClipEdges(polygon, |polygon|, plane, removePoints, num)
  }

  /** SutherlandHodgesonClipping: one pass per plane, in order, stopping once the polygon is empty. */
  function Clip(polygon: seq<Vector3>, planes: seq<Plane>, removePoints: bool, num: Numerics): seq<Vector3>
    decreases |planes|
  {
    if planes == [] || polygon == [] then polygon
    else Clip(ClipPass(polygon, planes[0], removePoints, num), planes[1..], removePoints, num)
  }

  /** The points of a polygon inside the plane, in their order. */
  function InsidePoints(polygon: seq<Vector3>, plane: Plane, num: Numerics): seq<Vector3>
    decreases |polygon|
  {
    if polygon == [] then []
    else
      var last := polygon[|polygon| - 1];
      InsidePoints(polygon[..|polygon| - 1], plane, num) + (if Inside(num, plane, last) then [last] else [])
  }

  /** A remove-only pass outputs exactly the input points inside the plane, in their original order. */
  lemma RemovePassKeepsInsidePoints(polygon: seq<Vector3>, plane: Plane, num: Numerics)
    ensures ClipPass(polygon, plane, true, num) == InsidePoints(polygon, plane, num)
  {
    RemoveEdgesKeepInsidePoints(polygon, |polygon|, plane, num);
    assert polygon[..|polygon|] == polygon;
  }

  lemma {:induction false} RemoveEdgesKeepInsidePoints(polygon: seq<Vector3>, n: nat, plane: Plane, num: Numerics)
    requires n <= |polygon|
    ensures ClipEdges(polygon, n, plane, true, num) == InsidePoints(polygon[..n], plane, num)
    decreases n
  {
    if n > 0 {
      RemoveEdgesKeepInsidePoints(polygon, n - 1, plane, num);
      assert polygon[..n][..n - 1] == polygon[..n - 1];
    }
  }

  /** The points InsidePoints keeps are points of the polygon that lie inside the plane. */
  lemma {:induction false} InsidePointsAreInside(polygon: seq<Vector3>, plane: Plane, num: Numerics)
    ensures forall p :: p in InsidePoints(polygon, plane, num) ==> p in polygon && Inside(num, plane, p)
    decreases |polygon|
  {
    if polygon != [] {
      var init := polygon[..|polygon| - 1];
      InsidePointsAreInside(init, plane, num);
      assert polygon == init + [polygon[|polygon| - 1]];
    }
  }

  /**
   * Remove mode over a list of planes keeps only points of the input, each inside
   * every plane.
   */
  lemma {:induction false} RemoveModeKeepsInsidePoints(polygon: seq<Vector3>, planes: seq<Plane>, num: Numerics)
    ensures forall p :: p in Clip(polygon, planes, true, num) ==> p in polygon
    ensures forall p, k :: p in Clip(polygon, planes, true, num) && 0 <= k < |planes| ==> Inside(num, planes[k], p)
    decreases |planes|
  {
    if planes != [] && polygon != [] {
      var pass := ClipPass(polygon, planes[0], true, num);
      RemovePassKeepsInsidePoints(polygon, planes[0], num);
      InsidePointsAreInside(polygon, planes[0], num);
      RemoveModeKeepsInsidePoints(pass, planes[1..], num);
      forall p, k | p in Clip(polygon, planes, true, num) && 0 <= k < |planes|
        ensures Inside(num, planes[k], p)
      {
        if k > 0 {
          assert planes[1..][k - 1] == planes[k];
        }
      }
    }
  }

  /** A cutting pass leaves a polygon that lies wholly inside the plane unchanged. */
  lemma CutPassKeepsInsidePolygon(polygon: seq<Vector3>, plane: Plane, num: Numerics)
    requires forall k :: 0 <= k < |polygon| ==> Inside(num, plane, polygon[k])
    ensures ClipPass(polygon, plane, false, num) == polygon
  {
    CutEdgesKeepInsidePolygon(polygon, |polygon|, plane, num);
    assert polygon[..|polygon|] == polygon;
  }

  lemma {:induction false} CutEdgesKeepInsidePolygon(polygon: seq<Vector3>, n: nat, plane: Plane, num: Numerics)
    requires n <= |polygon|
    requires forall k :: 0 <= k < |polygon| ==> Inside(num, plane, polygon[k])
    ensures ClipEdges(polygon, n, plane, false, num) == polygon[..n]
    decreases n
  {
    if n > 0 {
      CutEdgesKeepInsidePolygon(polygon, n - 1, plane, num);
      assert Inside(num, plane, Previous(polygon, n - 1));
      assert polygon[..n] == polygon[..n - 1] + [polygon[n - 1]];
    }
  }

  /** Clipping, in either mode, leaves a polygon inside every plane unchanged. */
  lemma {:induction false} ClipKeepsInsidePolygon(polygon: seq<Vector3>, planes: seq<Plane>, removePoints: bool, num: Numerics)
    requires forall k, i :: 0 <= k < |planes| && 0 <= i < |polygon| ==> Inside(num, planes[k], polygon[i])
    ensures Clip(polygon, planes, removePoints, num) == polygon
    decreases |planes|
  {
    if planes != [] && polygon != [] {
      if removePoints {
        RemovePassKeepsInsidePoints(polygon, planes[0], num);
        InsidePointsAllInside(polygon, planes[0], num);
      } else {
        CutPassKeepsInsidePolygon(polygon, planes[0], num);
      }
      ClipKeepsInsidePolygon(polygon, planes[1..], removePoints, num);
    }
  }

  lemma {:induction false} InsidePointsAllInside(polygon: seq<Vector3>, plane: Plane, num: Numerics)
    requires forall i :: 0 <= i < |polygon| ==> Inside(num, plane, polygon[i])
    ensures InsidePoints(polygon, plane, num) == polygon
    decreases |polygon|
  {
    if polygon != [] {
      InsidePointsAllInside(polygon[..|polygon| - 1], plane, num);
    }
  }

  /** SutherlandHodgesonClipping: two lists swapped per plane, the output refilled edge by edge. */
  method SutherlandHodgesonClipping(inputPolygon: seq<Vector3>, clipPlanes: seq<Plane>, removePoints: bool, num: Numerics)
    returns (outPolygon: seq<Vector3>)
    ensures outPolygon == Clip(inputPolygon, clipPlanes, removePoints, num)
  {
    var output := inputPolygon;
    var i := 0;
    while i < |clipPlanes|
      invariant 0 <= i <= |clipPlanes|
      invariant Clip(output, clipPlanes[i..], removePoints, num) == Clip(inputPolygon, clipPlanes, removePoints, num)
    {
      if output == [] {
        break;
      }
      assert clipPlanes[i..][1..] == clipPlanes[i + 1..];
      output := ClipAgainstPlane(output, clipPlanes[i], removePoints, num);
      i := i + 1;
    }
    if i < |clipPlanes| {
      assert output == [];
    } else {
      assert clipPlanes[i..] == [];
    }
    outPolygon := output;
  }

  /** The body of the clipping loop for one plane: every edge of the polygon, the closing edge first. */
  method ClipAgainstPlane(input: seq<Vector3>, plane: Plane, removePoints: bool, num: Numerics) returns (output: seq<Vector3>)
    requires input != []
    ensures output == ClipPass(input, plane, removePoints, num)
  {
    output := [];
    var startPoint := input[|input| - 1];
    var k := 0;
    while k < |input|
      invariant 0 <= k <= |input|
      invariant output == ClipEdges(input, k, plane, removePoints, num)
      invariant startPoint == if k == 0 then input[|input| - 1] else input[k - 1]
    {
      var endPoint := input[k];
      var startInPlane := Inside(num, plane, startPoint);
      var endInPlane := Inside(num, plane, endPoint);
      ghost var step := ClipEdge(plane, startPoint, endPoint, removePoints, num);
      ghost var sofar := output;
      if removePoints {
        if endInPlane {
          output := output + [endPoint];
        }
      } else {
        if startInPlane && endInPlane {
          output := output + [endPoint];
        } else if startInPlane && !endInPlane {
          output := output + [PlaneEdgeIntersection(plane, startPoint, endPoint)];
        } else if !startInPlane && endInPlane {
          output := output + [PlaneEdgeIntersection(plane, endPoint, startPoint)];
          output := output + [endPoint];
        }
      }
      assert output == sofar + step;
      startPoint := endPoint;
      k := k + 1;
    }
  }

  //<---- CONTACT GENERATION (GenContactPoints) ---->

  /** The arguments of one Manifold::AddContact call. */
  datatype ContactArgs = ContactArgs(globalOnA: Vector3, globalOnB: Vector3, normal: Vector3, penetration: real)

  /**
   * The contact built from one clipped incident point: its depth below the reference
   * face along the normal (the sign taken from whichever shape owns the reference
   * face), and the two contact points that depth apart along the normal.
   */
  function ClippedContact(point: Vector3, normal: Vector3, reference: Vector3, flipped: bool): (c: ContactArgs)
    ensures c.normal == normal
    ensures c.globalOnA == Add(c.globalOnB, Scale(normal, c.penetration))
    ensures c.globalOnA == point || c.globalOnB == point
  {
    if flipped then
      var penetration := -(Dot(point, normal) - Dot(normal, reference));
      ContactArgs(Add(point, Scale(normal, penetration)), point, normal, penetration)
    else
      var penetration := Dot(point, normal) - Dot(normal, reference);
      ContactArgs(point, Sub(point, Scale(normal, penetration)), normal, penetration)
  }

  /** The contact as a list of its own when it penetrates, otherwise nothing. */
  function Penetrating(c: ContactArgs): (cs: seq<ContactArgs>)
    ensures cs == [c] <==> c.penetration < 0.0
    ensures cs == [] <==> c.penetration >= 0.0
  {
    if c.penetration < 0.0 then [c] else []
  }

  /** The contacts of the clipped points, in order, keeping only those that penetrate. */
  function ClippedContacts(points: seq<Vector3>, normal: Vector3, reference: Vector3, flipped: bool): (cs: seq<ContactArgs>)
    ensures |cs| <= |points|
    ensures forall c :: c in cs ==> c.penetration < 0.0 && c.normal == normal
    decreases |points|
  {
    if points == [] then []
    else
      var c := ClippedContact(points[|points| - 1], normal, reference, flipped);
      ClippedContacts(points[..|points| - 1], normal, reference, flipped) + Penetrating(c)
  }

  /**
   * The AddContact calls GenContactPoints makes for the faces of the two shapes around
   * the collision normal: none when a face is empty, the single point when a face is
   * a point, and otherwise the penetrating points of the incident face clipped by the
   * side planes of the reference face and then by the reference face itself.
   */
  function ContactArgsFor(face1: IncidentFace, face2: IncidentFace, best: CollisionData, num: Numerics): seq<ContactArgs> {
    var n := best.normal;
    var pen := best.penetration;
    if |face1.polygon| == 0 || |face2.polygon| == 0 then
      []
    else if |face1.polygon| == 1 then
      [ContactArgs(face1.polygon[0], Add(face1.polygon[0], Scale(n, pen)), n, pen)]
    else if |face2.polygon| == 1 then
      [ContactArgs(Add(face2.polygon[0], Scale(n, pen)), face2.polygon[0], n, pen)]
    else
      var flipped := !FirstIsReference(n, face1, face2);
      var reference := if flipped then face2 else face1;
      var incident := if flipped then face1 else face2;
      var clipped := Clip(Clip(incident.polygon, reference.adjacentPlanes, false, num), [ReferencePlane(reference)], true, num);
      ClippedContacts(clipped, n, reference.polygon[0], flipped)
  }

  /** The first face is the reference face when it is strictly more aligned with the normal. */
  predicate FirstIsReference(normal: Vector3, face1: IncidentFace, face2: IncidentFace) {
    Abs(Dot(normal, face1.normal)) > Abs(Dot(normal, face2.normal))
  }

  /** The plane of the reference face, facing into the shape, through its first point. */
  function ReferencePlane(reference: IncidentFace): (p: Plane)
    requires reference.polygon != []
    ensures p.normal == Neg(reference.normal)
    ensures Dot(p.normal, reference.polygon[0]) + p.distance == 0.0
  {
    Plane(Neg(reference.normal), -Dot(Neg(reference.normal), reference.polygon[0]))
  }

  /**
   * What contact generation adds: nothing for an empty face; exactly one contact, with
   * the collision's own penetration, for a one-point face; and on the clipping path
   * only contacts that penetrate, each along the collision normal.
   */
  lemma ContactArgsForShape(face1: IncidentFace, face2: IncidentFace, best: CollisionData, num: Numerics)
    ensures |face1.polygon| == 0 || |face2.polygon| == 0 ==> ContactArgsFor(face1, face2, best, num) == []
    ensures |face1.polygon| > 0 && |face2.polygon| > 0 && (|face1.polygon| == 1 || |face2.polygon| == 1) ==>
              |ContactArgsFor(face1, face2, best, num)| == 1 &&
              ContactArgsFor(face1, face2, best, num)[0].penetration == best.penetration &&
              ContactArgsFor(face1, face2, best, num)[0].normal == best.normal
    ensures |face1.polygon| > 1 && |face2.polygon| > 1 ==>
              forall c :: c in ContactArgsFor(face1, face2, best, num) ==> c.penetration < 0.0 && c.normal == best.normal
  {
  }

  /** Manifold::AddContact for each argument list in turn, on the contact list alone. */
  function AddContacts(positionA: Vector3, positionB: Vector3, contacts: seq<ContactPoint>, args: seq<ContactArgs>): seq<ContactPoint>
    decreases |args|
  {
    if args == [] then contacts
    else
      var a := args[|args| - 1];
      WithContact(AddContacts(positionA, positionB, contacts, args[..|args| - 1]), BuiltContact(positionA, positionB, a))
  }

  /** The contact AddContact builds from one argument list. */
  function BuiltContact(positionA: Vector3, positionB: Vector3, a: ContactArgs): ContactPoint {
    ContactBetween(positionA, positionB, a.globalOnA, a.globalOnB, a.normal, a.penetration)
  }

  /** Every contact after the calls was there before or was built from one of the arguments. */
  lemma {:induction false} AddContactsOnlyAdds(positionA: Vector3, positionB: Vector3, contacts: seq<ContactPoint>, args: seq<ContactArgs>)
    ensures forall c :: c in AddContacts(positionA, positionB, contacts, args) ==>
              c in contacts || exists a :: a in args && c == BuiltContact(positionA, positionB, a)
    decreases |args|
  {
    if args != [] {
      var init := args[..|args| - 1];
      var a := args[|args| - 1];
      var before := AddContacts(positionA, positionB, contacts, init);
      var added := BuiltContact(positionA, positionB, a);
      AddContactsOnlyAdds(positionA, positionB, contacts, init);
      SurvivingIsSublist(before, added);
      assert forall b :: b in init ==> b in args;
      assert a in args;
    }
  }

  //<---- THE DETECTOR ---->

  class CollisionDetectionSAT {
    var obj1: PhysicsObject?
    var obj2: PhysicsObject?
    var shape1: CollisionShape?
    var shape2: CollisionShape?

    var possibleAxes: seq<Vector3>

    var colliding: bool
    var bestColData: CollisionData

    /** A pair has been set, and a pair found colliding has both shapes. */
    predicate Paired()
      reads this`obj1, this`obj2, this`shape1, this`shape2, this`colliding
    {
      obj1 != null && obj2 != null && (colliding ==> shape1 != null && shape2 != null)
    }

    /** Both shapes of the pair, with where their bodies are now. */
    function Geometry(): PairGeometry
      requires obj1 != null && obj2 != null && shape1 != null && shape2 != null
      reads this`obj1, this`obj2, this`shape1, this`shape2, obj1`position, obj1`orientation, obj2`position, obj2`orientation
    {
      PairGeometry(shape1, Pose(obj1.position, obj1.orientation), shape2, Pose(obj2.position, obj2.orientation))
    }

    /** The detector starts without a pair. */
    constructor ()
      ensures obj1 == null && obj2 == null && shape1 == null && shape2 == null
      ensures possibleAxes == [] && !colliding
    {
      obj1 := null;
      obj2 := null;
      shape1 := null;
      shape2 := null;
      possibleAxes := [];
      colliding := false;
      bestColData := CollisionData(Zero, 0.0, Zero);
    }

    /**
     * BeginNewPair: forgets the previous pair's axes and verdict and takes each shape
     * from its body; the shapes passed in are not used.
     */
    method BeginNewPair(o1: PhysicsObject, o2: PhysicsObject, s1: CollisionShape?, s2: CollisionShape?)
      modifies this`obj1, this`obj2, this`shape1, this`shape2, this`possibleAxes, this`colliding
      ensures Paired()
      ensures possibleAxes == [] && !colliding
      ensures obj1 == o1 && obj2 == o2 && shape1 == o1.colShape && shape2 == o2.colShape
    {
      possibleAxes := [];
      obj1 := o1;
      obj2 := o2;
      shape1 := o1.GetCollisionShape();
      shape2 := o2.GetCollisionShape();
      colliding := false;
    }

    /**
     * AreColliding: no verdict without both shapes; otherwise the candidate axes are
     * gathered, the first separating axis answers false, and when none separates the
     * kept data is that of the least-penetrating axis. The answer does not depend on
     * whether the caller asked for the data.
     */
    method AreColliding(wantData: bool, num: Numerics) returns (result: bool, outColData: Option<CollisionData>)
      requires Paired()
      modifies this`possibleAxes, this`colliding, this`bestColData
      ensures Paired()
      ensures shape1 == null || shape2 == null ==>
                !result && possibleAxes == old(possibleAxes) && colliding == old(colliding) && bestColData == old(bestColData)
      ensures shape1 != null && shape2 != null ==>
                && possibleAxes == CandidateAxes(Geometry(), old(possibleAxes), num)
                && result == AllOverlap(AxisResults(Geometry(), possibleAxes))
                && bestColData == Strongest(old(bestColData).(penetration := -FltMax), AxisResults(Geometry(), possibleAxes))
                && colliding == result
      ensures result && possibleAxes == [] ==> bestColData.penetration == -FltMax
      ensures outColData == if result && wantData then Some(bestColData) else None
    {
      outColData := None;
      if shape1 == null || shape2 == null {
        return false, None;
      }
      colliding := false;
      FindAllPossibleCollisionAxes(num);

      ghost var rs := AxisResults(Geometry(), possibleAxes);
      bestColData := bestColData.(penetration := -FltMax);
      ghost var start := bestColData;
      var i := 0;
      while i < |possibleAxes|
        invariant 0 <= i <= |possibleAxes|
        invariant forall k :: 0 <= k < i ==> rs[k].Some?
        invariant |rs| == |possibleAxes|
        invariant Strongest(bestColData, rs[i..]) == Strongest(start, rs)
        modifies this`bestColData
      {
        var curColData := CheckCollisionAxis(Geometry(), possibleAxes[i]);
        assert rs[i..][0] == curColData && rs[i..][1..] == rs[i + 1..];
        if curColData.None? {
          return false, None;
        }
        if curColData.value.penetration >= bestColData.penetration {
          bestColData := curColData.value;
        }
        i := i + 1;
      }
      assert rs[i..] == [];
      if wantData {
        outColData := Some(bestColData);
      }
      colliding := true;
      return true, outColData;
    }

    /**
     * FindAllPossibleCollisionAxes: both shapes' face axes as they are, then the
     * deduplicated edge-pair axes and, for a curved shape, its one extra axis.
     */
    method FindAllPossibleCollisionAxes(num: Numerics)
      requires obj1 != null && obj2 != null && shape1 != null && shape2 != null
      modifies this`possibleAxes
      ensures possibleAxes == CandidateAxes(Geometry(), old(possibleAxes), num)
    {
      var g := Geometry();
      possibleAxes := possibleAxes + AxesOf(shape1, g.pose1);
      possibleAxes := possibleAxes + AxesOf(shape2, g.pose2);
      ghost var faces := possibleAxes;
      assert faces == FaceAxes(g, old(possibleAxes));

      var shape1Edges := EdgesOf(shape1, g.pose1);
      var shape2Edges := EdgesOf(shape2, g.pose2);
      AddEdgePairAxes(shape1Edges, shape2Edges, num);
      ghost var edgeAxes := EdgePairAxes(shape1Edges, shape2Edges, num);
      AddCurvedAxis(g, num);
      AddAllAppend(faces, edgeAxes, CurvedAxes(g, num), num);
    }

    /** The nested edge loops of FindAllPossibleCollisionAxes, every edge pair in order. */
    method AddEdgePairAxes(shape1Edges: seq<CollisionEdge>, shape2Edges: seq<CollisionEdge>, num: Numerics)
      modifies this`possibleAxes
      ensures possibleAxes == AddAll(old(possibleAxes), EdgePairAxes(shape1Edges, shape2Edges, num), num)
    {
      ghost var start := possibleAxes;
      var i := 0;
      while i < |shape1Edges|
        invariant 0 <= i <= |shape1Edges|
        invariant possibleAxes == AddAll(start, EdgePairAxes(shape1Edges[..i], shape2Edges, num), num)
      {
        ghost var done := EdgePairAxes(shape1Edges[..i], shape2Edges, num);
        AddEdgeRow(shape1Edges[i], shape2Edges, num);
        AddAllAppend(start, done, EdgeRow(shape1Edges[i], shape2Edges, num), num);
        assert shape1Edges[..i + 1][..i] == shape1Edges[..i];
        i := i + 1;
      }
      assert shape1Edges[..i] == shape1Edges;
    }

    /** The inner edge loop: one edge of shape 1 against each edge of shape 2. */
    method AddEdgeRow(edge1: CollisionEdge, shape2Edges: seq<CollisionEdge>, num: Numerics)
      modifies this`possibleAxes
      ensures possibleAxes == AddAll(old(possibleAxes), EdgeRow(edge1, shape2Edges, num), num)
    {
      ghost var start := possibleAxes;
      var j := 0;
      while j < |shape2Edges|
        invariant 0 <= j <= |shape2Edges|
        invariant possibleAxes == AddAll(start, EdgeRow(edge1, shape2Edges[..j], num), num)
      {
        var e1 := Sub(edge1.posB, edge1.posA);
        var e2 := Sub(shape2Edges[j].posB, shape2Edges[j].posA);
        e1 := Unit(num, e1);
        e2 := Unit(num, e2);
        ghost var row := EdgeRow(edge1, shape2Edges[..j], num);
        assert shape2Edges[..j + 1][..j] == shape2Edges[..j];
        assert EdgeRow(edge1, shape2Edges[..j + 1], num) == row + [Cross(e1, e2)];
        AddAllStep(start, row, Cross(e1, e2), num);
        var added := AddPossibleCollisionAxis(Cross(e1, e2), num);
        j := j + 1;
      }
      assert shape2Edges[..j] == shape2Edges;
    }

    /** The curved-shape case at the end of FindAllPossibleCollisionAxes. */
    method AddCurvedAxis(g: PairGeometry, num: Numerics)
      modifies this`possibleAxes
      ensures possibleAxes == AddAll(old(possibleAxes), CurvedAxes(g, num), num)
    {
      var shape1Edges := EdgesOf(g.shape1, g.pose1);
      var shape2Edges := EdgesOf(g.shape2, g.pose2);
      var shape1IsSphere := shape1Edges == [];
      var shape2IsSphere := shape2Edges == [];
      ghost var start := possibleAxes;
      var none: seq<Vector3> := [];
      assert none + [] == none;
      if shape1IsSphere && shape2IsSphere {
        var axis := Sub(g.pose2.position, g.pose1.position);
        axis := Unit(num, axis);
        AddAllStep(start, none, axis, num);
        var added := AddPossibleCollisionAxis(axis, num);
      } else if shape1IsSphere {
        var p := GetClosestPoint(g.pose1.position, shape2Edges);
        var pt := Sub(g.pose1.position, p);
        pt := Unit(num, pt);
        AddAllStep(start, none, pt, num);
        var added := AddPossibleCollisionAxis(pt, num);
      } else if shape2IsSphere {
        var p := GetClosestPoint(g.pose2.position, shape1Edges);
        var pt := Sub(g.pose2.position, p);
        pt := Unit(num, pt);
        AddAllStep(start, none, pt, num);
        var added := AddPossibleCollisionAxis(pt, num);
      }
    }

    /**
     * AddPossibleCollisionAxis: an axis near zero or within the tolerance of a listed
     * axis is turned away; any other is normalised and appended.
     */
    method AddPossibleCollisionAxis(axis: Vector3, num: Numerics) returns (added: bool)
      modifies this`possibleAxes
      ensures possibleAxes == AddAxis(old(possibleAxes), axis, num)
      ensures added <==> possibleAxes == old(possibleAxes) + [Unit(num, axis)]
    {
      if Dot(axis, axis) < AxisEpsilon {
        return false;
      }
      var n := Unit(num, axis);
      var k := 0;
      while k < |possibleAxes|
        invariant 0 <= k <= |possibleAxes|
        invariant forall i :: 0 <= i < k ==> Dot(n, possibleAxes[i]) < 1.0 - AxisEpsilon
      {
        if Dot(n, possibleAxes[k]) >= 1.0 - AxisEpsilon {
          return false;
        }
        k := k + 1;
      }
      possibleAxes := possibleAxes + [n];
      return true;
    }

    /**
     * GetClosestPoint: the running minimum over the edges of the squared distance from
     * pos to each edge's clamped closest point.
     */
    method GetClosestPoint(pos: Vector3, edges: seq<CollisionEdge>) returns (closest: Vector3)
      ensures closest == ClosestPoint(pos, edges)
    {
      var finalClosestPoint := Zero;
      var finalClosestDistSq := FltMax;
      var i := 0;
      while i < |edges|
        invariant 0 <= i <= |edges|
        invariant Nearest(finalClosestDistSq, finalClosestPoint) == NearestOf(pos, edges[..i])
      {
        var edge := edges[i];
        assert edges[..i + 1][..i] == edges[..i];
        var aP := Sub(pos, edge.posA);
        var aB := Sub(edge.posB, edge.posA);
        var magnitudeAB := Dot(aB, aB);
        if magnitudeAB != 0.0 {
          var distance := Dot(aP, aB) / magnitudeAB;
          distance := Max(Min(distance, 1.0), 0.0);
          var edgeClosestPoint := Add(edge.posA, Scale(aB, distance));
          var cT := Sub(pos, edgeClosestPoint);
          var tempDistSq := Dot(cT, cT);
          if tempDistSq < finalClosestDistSq {
            finalClosestDistSq := tempDistSq;
            finalClosestPoint := edgeClosestPoint;
          }
        }
        i := i + 1;
      }
      assert edges[..i] == edges;
      closest := finalClosestPoint;
    }

    /** The faces of both shapes around the collision normal (shape 2's around its negation). */
    function Faces(): (IncidentFace, IncidentFace)
      requires obj1 != null && obj2 != null && shape1 != null && shape2 != null
      reads this`obj1, this`obj2, this`shape1, this`shape2, this`bestColData
      reads obj1`position, obj1`orientation, obj2`position, obj2`orientation
    {
      var g := Geometry();
      (FaceOf(g.shape1, g.pose1, bestColData.normal), FaceOf(g.shape2, g.pose2, Neg(bestColData.normal)))
    }

    /**
     * GenContactPoints: nothing without a manifold or a collision; otherwise the
     * manifold receives, through AddContact, the contacts ContactArgsFor describes.
     */
    method GenContactPoints(manifold: Manifold?, num: Numerics)
      requires Paired()
      requires manifold != null ==> manifold.Initiated()
      modifies if manifold == null then {} else {manifold}
      ensures manifold != null ==> manifold.nodeA == old(manifold.nodeA) && manifold.nodeB == old(manifold.nodeB)
      ensures manifold != null && !colliding ==> manifold.contacts == old(manifold.contacts)
      ensures manifold != null && colliding ==>
                manifold.contacts == AddContacts(manifold.nodeA.position, manifold.nodeB.position, old(manifold.contacts), ContactArgsFor(Faces().0, Faces().1, bestColData, num))
    {
      if manifold == null || !colliding {
        return;
      }
      var faces := Faces();
      var polygon1 := faces.0.polygon;
      var polygon2 := faces.1.polygon;
      var n := bestColData.normal;
      var pen := bestColData.penetration;
      ghost var before := manifold.contacts;
      ghost var expected := ContactArgsFor(faces.0, faces.1, bestColData, num);

      if |polygon1| == 0 || |polygon2| == 0 {
        assert expected == [];
        return;
      } else if |polygon1| == 1 {
        var args := ContactArgs(polygon1[0], Add(polygon1[0], Scale(n, pen)), n, pen);
        assert expected == [args];
        manifold.AddContact(args.globalOnA, args.globalOnB, args.normal, args.penetration);
        AddContactsOne(manifold.nodeA.position, manifold.nodeB.position, before, args);
      } else if |polygon2| == 1 {
        var args := ContactArgs(Add(polygon2[0], Scale(n, pen)), polygon2[0], n, pen);
        assert expected == [args];
        manifold.AddContact(args.globalOnA, args.globalOnB, args.normal, args.penetration);
        AddContactsOne(manifold.nodeA.position, manifold.nodeB.position, before, args);
      } else {
        ClipAndAddContacts(manifold, faces.0, faces.1, bestColData, num);
      }
    }
  }

  /** AddContacts on a single argument list is one AddContact. */
  lemma AddContactsOne(positionA: Vector3, positionB: Vector3, contacts: seq<ContactPoint>, a: ContactArgs)
    ensures AddContacts(positionA, positionB, contacts, [a]) == WithContact(contacts, BuiltContact(positionA, positionB, a))
  {
    assert [a][..0] == [];
  }

  /**
   * The clipping path of GenContactPoints: the face more aligned with the collision
   * normal is the reference; the other is clipped to the reference face's side planes,
   * then stripped of points above the reference face, and each remaining point that
   * penetrates becomes a contact.
   */
  method ClipAndAddContacts(manifold: Manifold, face1: IncidentFace, face2: IncidentFace, best: CollisionData, num: Numerics)
    requires manifold.Initiated()
    requires |face1.polygon| > 1 && |face2.polygon| > 1
    modifies manifold`contacts
    ensures manifold.contacts == AddContacts(manifold.nodeA.position, manifold.nodeB.position, old(manifold.contacts), ContactArgsFor(face1, face2, best, num))
  {
    var n := best.normal;
    var flipped: bool;
    var reference: IncidentFace;
    var incPolygon: seq<Vector3>;
    if FirstIsReference(n, face1, face2) {
      reference := face1;
      incPolygon := face2.polygon;
      flipped := false;
    } else {
      reference := face2;
      incPolygon := face1.polygon;
      flipped := true;
    }
    var refPlane := ReferencePlane(reference);
    var refPoint := reference.polygon[0];

    incPolygon := SutherlandHodgesonClipping(incPolygon, reference.adjacentPlanes, false, num);
    incPolygon := SutherlandHodgesonClipping(incPolygon, [refPlane], true, num);
    assert ContactArgsFor(face1, face2, best, num) == ClippedContacts(incPolygon, n, refPoint, flipped);
    AddClippedContacts(manifold, incPolygon, n, refPoint, flipped);
  }

  /** The last loop of GenContactPoints: AddContact for each clipped point that penetrates. */
  method AddClippedContacts(manifold: Manifold, points: seq<Vector3>, normal: Vector3, reference: Vector3, flipped: bool)
    requires manifold.Initiated()
    modifies manifold`contacts
    ensures manifold.contacts == AddContacts(manifold.nodeA.position, manifold.nodeB.position, old(manifold.contacts), ClippedContacts(points, normal, reference, flipped))
  {
    ghost var before := manifold.contacts;
    var i := 0;
    while i < |points|
      invariant 0 <= i <= |points|
      invariant manifold.contacts == AddContacts(manifold.nodeA.position, manifold.nodeB.position, before, ClippedContacts(points[..i], normal, reference, flipped))
    {
      AddClippedStep(manifold.nodeA.position, manifold.nodeB.position, before, points, i, normal, reference, flipped);
      AddIfPenetrating(manifold, points[i], normal, reference, flipped);
      i := i + 1;
    }
    assert points[..i] == points;
  }

  lemma ClippedContactsStep(points: seq<Vector3>, i: nat, normal: Vector3, reference: Vector3, flipped: bool)
    requires i < |points|
    ensures ClippedContacts(points[..i + 1], normal, reference, flipped) ==
              ClippedContacts(points[..i], normal, reference, flipped) +
              Penetrating(ClippedContact(points[i], normal, reference, flipped))
  {
    assert points[..i + 1][..i] == points[..i];
  }

  /** One pass of the last loop of GenContactPoints: AddContact only when the point penetrates. */
  method AddIfPenetrating(manifold: Manifold, point: Vector3, normal: Vector3, reference: Vector3, flipped: bool)
    requires manifold.Initiated()
    modifies manifold`contacts
    ensures manifold.contacts == AddContacts(manifold.nodeA.position, manifold.nodeB.position, old(manifold.contacts), Penetrating(ClippedContact(point, normal, reference, flipped)))
  {
    var contact := ClippedContact(point, normal, reference, flipped);
    if contact.penetration < 0.0 {
      AddContactsOne(manifold.nodeA.position, manifold.nodeB.position, manifold.contacts, contact);
      manifold.AddContact(contact.globalOnA, contact.globalOnB, contact.normal, contact.penetration);
    }
  }

  /** AddContact over one list of arguments and then another is AddContact over the two joined. */
  lemma {:induction false} AddContactsAppend(positionA: Vector3, positionB: Vector3, contacts: seq<ContactPoint>, first: seq<ContactArgs>, second: seq<ContactArgs>)
    ensures AddContacts(positionA, positionB, AddContacts(positionA, positionB, contacts, first), second) == AddContacts(positionA, positionB, contacts, first + second)
    decreases |second|
  {
    if second == [] {
      assert first + second == first;
    } else {
      var init := second[..|second| - 1];
      AddContactsAppend(positionA, positionB, contacts, first, init);
      assert (first + second)[..|first + second| - 1] == first + init;
    }
  }

  /** One more clipped point is AddContact for it, if it penetrates, after those before it. */
  lemma AddClippedStep(positionA: Vector3, positionB: Vector3, contacts: seq<ContactPoint>, points: seq<Vector3>, i: nat, normal: Vector3, reference: Vector3, flipped: bool)
    requires i < |points|
    ensures var c := ClippedContact(points[i], normal, reference, flipped);
            AddContacts(positionA, positionB, contacts, ClippedContacts(points[..i + 1], normal, reference, flipped)) ==
            AddContacts(positionA, positionB, AddContacts(positionA, positionB, contacts, ClippedContacts(points[..i], normal, reference, flipped)), Penetrating(c))
  {
    var c := ClippedContact(points[i], normal, reference, flipped);
    ClippedContactsStep(points, i, normal, reference, flipped);
    AddContactsAppend(positionA, positionB, contacts, ClippedContacts(points[..i], normal, reference, flipped), Penetrating(c));
  }

  /** Adding one more candidate is one more AddPossibleCollisionAxis. */
  lemma AddAllStep(axes: seq<Vector3>, candidates: seq<Vector3>, c: Vector3, num: Numerics)
    ensures AddAll(axes, candidates + [c], num) == AddAxis(AddAll(axes, candidates, num), c, num)
  {
    assert (candidates + [c])[..|candidates|] == candidates;
  }

  /** Adding one list of candidates and then another is adding the two lists joined. */
  lemma {:induction false} AddAllAppend(axes: seq<Vector3>, first: seq<Vector3>, second: seq<Vector3>, num: Numerics)
    ensures AddAll(AddAll(axes, first, num), second, num) == AddAll(axes, first + second, num)
    decreases |second|
  {
    if second == [] {
      assert first + second == first;
    } else {
      var init := second[..|second| - 1];
      AddAllAppend(axes, first, init, num);
      assert (first + second)[..|first + second| - 1] == first + init;
    }
  }
}
