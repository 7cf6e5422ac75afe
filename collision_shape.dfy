/**
 * Collision shapes. The geometry queries of a shape (CollisionShape, the sphere and
 * cuboid shapes and the Hull they build on) are not part of this model: a
 * `CollisionShape` carries them as functions of the pose of the body that owns it.
 * The cuboid's own state, its half extents and their setters, is modelled.
 */
module Shapes {
  import opened Vectors

  /** Where the owning body is: the part of a PhysicsObject a shape query reads. */
  datatype Pose = Pose(position: Vector3, orientation: Quaternion)

  /** What GetIncidentReferencePolygon hands back: a face, its normal and the planes of its neighbours. */
  datatype IncidentFace = IncidentFace(polygon: seq<Vector3>, normal: Vector3, adjacentPlanes: seq<Plane>)

  /** A shape, seen through the queries the collision detector and the engine make of it. */
  class CollisionShape {
    /** GetCollisionAxes: the face axes this shape contributes (none for a sphere). */
    const collisionAxes: Pose -> seq<Vector3>
    /** GetEdges: the edges of the shape (none for a sphere). */
    const edges: Pose -> seq<CollisionEdge>
    /** GetMinMaxVertexOnAxis: the extreme points of the shape along an axis, least first. */
    const minMaxVertexOnAxis: (Pose, Vector3) -> (Vector3, Vector3)
    /** GetIncidentReferencePolygon along an axis. */
    const incidentReferencePolygon: (Pose, Vector3) -> IncidentFace
    /** BuildInverseInertia for an inverse mass. */
    const buildInverseInertia: real -> Matrix3

    constructor (
      collisionAxes: Pose -> seq<Vector3>,
      edges: Pose -> seq<CollisionEdge>,
      minMaxVertexOnAxis: (Pose, Vector3) -> (Vector3, Vector3),
      incidentReferencePolygon: (Pose, Vector3) -> IncidentFace,
      buildInverseInertia: real -> Matrix3)
      ensures this.collisionAxes == collisionAxes && this.edges == edges
      ensures this.minMaxVertexOnAxis == minMaxVertexOnAxis
      ensures this.incidentReferencePolygon == incidentReferencePolygon
      ensures this.buildInverseInertia == buildInverseInertia
    {
      this.collisionAxes := collisionAxes;
      this.edges := edges;
      this.minMaxVertexOnAxis := minMaxVertexOnAxis;
      this.incidentReferencePolygon := incidentReferencePolygon;
      this.buildInverseInertia := buildInverseInertia;
    }
  }

  /** The half extents of a cuboid shape, kept non-negative by the setters. */
  class CuboidCollisionShape {
    var halfDimensions: Vector3

    method SetHalfWidth(halfWidth: real)
      modifies this
      ensures halfDimensions == old(halfDimensions).(x := Abs(halfWidth))
      ensures GetHalfWidth() >= 0.0
    {
      halfDimensions := halfDimensions.(x := Abs(halfWidth));
    }

    method SetHalfHeight(halfHeight: real)
      modifies this
      ensures halfDimensions == old(halfDimensions).(y := Abs(halfHeight))
      ensures GetHalfHeight() >= 0.0
    {
      halfDimensions := halfDimensions.(y := Abs(halfHeight));
    }

    method SetHalfDepth(halfDepth: real)
      modifies this
      ensures halfDimensions == old(halfDimensions).(z := Abs(halfDepth))
      ensures GetHalfDepth() >= 0.0
    {
      halfDimensions := halfDimensions.(z := Abs(halfDepth));
    }

    function GetHalfDims(): Vector3
      reads this
    {
      halfDimensions
    }

    function GetHalfWidth(): (w: real)
      reads this
      ensures w == GetHalfDims().x
    {
      halfDimensions.x
    }

    function GetHalfHeight(): (h: real)
      reads this
      ensures h == GetHalfDims().y
    {
      halfDimensions.y
    }

    function GetHalfDepth(): (d: real)
      reads this
      ensures d == GetHalfDims().z
    {
      halfDimensions.z
    }
  }

  /** GetHalfDims is exactly the three single-axis getters put together. */
  lemma HalfDimsFromGetters(shape: CuboidCollisionShape)
    ensures shape.GetHalfDims() == Vector3(shape.GetHalfWidth(), shape.GetHalfHeight(), shape.GetHalfDepth())
  {
  }
}
