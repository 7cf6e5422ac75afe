/**
 * PhysicsObject: the mutable state of one rigid body, its setters, its collision
 * callback and the lazily rebuilt world-space transform.
 *
 * The world transform itself (Quaternion::ToMatrix4 followed by
 * Matrix4::SetPositionVector) is not part of this model: each body is given the
 * function that builds it from a position and an orientation, and the model proves
 * that the cache the body keeps always agrees with that function.
 */
module Bodies {
  import opened Vectors
  import opened Shapes

  /** The opaque back-reference to the scene object that owns a body (Object*). */
  type ObjectHandle = nat

  class PhysicsObject {
    /** Quaternion::ToMatrix4 of the orientation with the position as translation. */
    const buildWorldTransform: (Vector3, Quaternion) -> Matrix4

    var associatedObject: ObjectHandle
    var enabled: bool

    var wsTransformInvalidated: bool
    var wsTransform: Matrix4

    var elasticity: real
    var friction: real

    var position: Vector3
    var linearVelocity: Vector3
    var force: Vector3
    var invMass: real

    var orientation: Quaternion
    var angularVelocity: Vector3
    var torque: Vector3
    var invInertia: Matrix3

    var colShape: CollisionShape?
    /** The collision callback, called with (this_obj, colliding_obj); None when unset. */
    var onCollisionCallback: Option<CollisionCallback>

    /**
     * The dirty-flag invariant: whenever the flag is clear, the cached transform is
     * the one built from the current position and orientation.
     */
    ghost predicate Valid()
      reads this`wsTransformInvalidated, this`wsTransform, this`position, this`orientation
    {
      !wsTransformInvalidated ==> wsTransform == buildWorldTransform(position, orientation)
    }

    /** The defaults of PhysicsObject::PhysicsObject(); the associated object is left unset, as there. */
    constructor (buildWorldTransform: (Vector3, Quaternion) -> Matrix4)
      ensures Valid()
      ensures this.buildWorldTransform == buildWorldTransform
      ensures wsTransformInvalidated && !enabled
      ensures position == Zero && linearVelocity == Zero && force == Zero && invMass == 0.0
      ensures orientation == IdentityQuaternion && angularVelocity == Zero && torque == Zero
      ensures invInertia == ZeroMatrix3
      ensures colShape == null && onCollisionCallback == None
      ensures friction == 0.5 && elasticity == 0.9
    {
      this.buildWorldTransform := buildWorldTransform;
      wsTransformInvalidated := true;
      enabled := false;
      position := Zero;
      linearVelocity := Zero;
      force := Zero;
      invMass := 0.0;
      orientation := IdentityQuaternion;
      angularVelocity := Zero;
      torque := Zero;
      invInertia := ZeroMatrix3;
      colShape := null;
      friction := 0.5;
      elasticity := 0.9;
      onCollisionCallback := None;
    }

    /** ~PhysicsObject: the owned shape is released and the field cleared. */
    method Destroy()
      modifies this`colShape
      ensures colShape == null
    {
      if colShape != null {
        colShape := null;
      }
    }

    //<--------- GETTERS ------------->

    function IsEnabled(): bool reads this { enabled }
    function GetElasticity(): real reads this { elasticity }
    function GetFriction(): real reads this { friction }
    function GetPosition(): Vector3 reads this { position }
    function GetLinearVelocity(): Vector3 reads this { linearVelocity }
    function GetForce(): Vector3 reads this { force }
    function GetInverseMass(): real reads this { invMass }
    function GetOrientation(): Quaternion reads this { orientation }
    function GetAngularVelocity(): Vector3 reads this { angularVelocity }
    function GetTorque(): Vector3 reads this { torque }
    function GetInverseInertia(): Matrix3 reads this { invInertia }
    function GetCollisionShape(): CollisionShape? reads this { colShape }
    function GetAssociatedObject(): ObjectHandle reads this { associatedObject }

    function GetPose(): Pose reads this { Pose(position, orientation) }

    /** What a collision callback can see of this body. */
    function View(): BodyView reads this {
      BodyView(associatedObject, enabled, position, linearVelocity, force, invMass,
               orientation, angularVelocity, torque, elasticity, friction)
    }

    /**
     * GetWorldSpaceTransform: rebuilds the cache only when it is flagged invalid, then
     * clears the flag; under Valid() what it returns is always the transform of the
     * current position and orientation.
     */
    method GetWorldSpaceTransform() returns (m: Matrix4)
      requires Valid()
      modifies this`wsTransform, this`wsTransformInvalidated
      ensures Valid() && !wsTransformInvalidated
      ensures m == wsTransform && m == buildWorldTransform(position, orientation)
      ensures !old(wsTransformInvalidated) ==> wsTransform == old(wsTransform)
    {
      if wsTransformInvalidated {
        wsTransform := buildWorldTransform(position, orientation);
        wsTransformInvalidated := false;
      }
      m := wsTransform;
    }

    //<--------- SETTERS ------------->

    method SetElasticity(e: real)
      requires Valid()
      modifies this`elasticity
      ensures Valid() && elasticity == e
    {
      elasticity := e;
    }

    method SetFriction(f: real)
      requires Valid()
      modifies this`friction
      ensures Valid() && friction == f
    {
      friction := f;
    }

    method SetPosition(v: Vector3)
      modifies this`position, this`wsTransformInvalidated
      ensures Valid() && position == v && wsTransformInvalidated
    {
      position := v;
      wsTransformInvalidated := true;
    }

    method SetLinearVelocity(v: Vector3)
      requires Valid()
      modifies this`linearVelocity
      ensures Valid() && linearVelocity == v
    {
      linearVelocity := v;
    }

    method SetForce(v: Vector3)
      requires Valid()
      modifies this`force
      ensures Valid() && force == v
    {
      force := v;
    }

    method SetInverseMass(v: real)
      requires Valid()
      modifies this`invMass
      ensures Valid() && invMass == v
    {
      invMass := v;
    }

    method SetOrientation(q: Quaternion)
      modifies this`orientation, this`wsTransformInvalidated
      ensures Valid() && orientation == q && wsTransformInvalidated
    {
      orientation := q;
      wsTransformInvalidated := true;
    }

    method SetAngularVelocity(v: Vector3)
      requires Valid()
      modifies this`angularVelocity
      ensures Valid() && angularVelocity == v
    {
      angularVelocity := v;
    }

    method SetTorque(v: Vector3)
      requires Valid()
      modifies this`torque
      ensures Valid() && torque == v
    {
      torque := v;
    }

    method SetInverseInertia(m: Matrix3)
      requires Valid()
      modifies this`invInertia
      ensures Valid() && invInertia == m
    {
      invInertia := m;
    }

    /** Overwrites the shape field; a shape set earlier is not released. */
    method SetCollisionShape(shape: CollisionShape?)
      requires Valid()
      modifies this`colShape
      ensures Valid() && colShape == shape
    {
      colShape := shape;
    }

    method SetAssociatedObject(obj: ObjectHandle)
      requires Valid()
      modifies this`associatedObject
      ensures Valid() && associatedObject == obj
    {
      associatedObject := obj;
    }

    method SetOnCollisionCallback(callback: Option<CollisionCallback>)
      requires Valid()
      modifies this`onCollisionCallback
      ensures Valid() && onCollisionCallback == callback
    {
      onCollisionCallback := callback;
    }

    /** FireOnCollisionEvent: the callback's verdict, or true when no callback is set. */
    function FireOnCollisionEvent(objA: PhysicsObject, objB: PhysicsObject): (ok: bool)
      reads this, objA, objB
      ensures onCollisionCallback.None? ==> ok
      ensures onCollisionCallback.Some? ==> ok == onCollisionCallback.value(objA.View(), objB.View())
    {
      match onCollisionCallback
      case None => true
      case Some(callback) => callback(objA.View(), objB.View())
    }
  }

  datatype Option<+T> = None | Some(value: T)

  /** The state of a body a collision callback is given. */
  datatype BodyView = BodyView(
    associatedObject: ObjectHandle, enabled: bool,
    position: Vector3, linearVelocity: Vector3, force: Vector3, invMass: real,
    orientation: Quaternion, angularVelocity: Vector3, torque: Vector3,
    elasticity: real, friction: real)

  /**
   * FuncCollisionCallback: a verdict on (this_obj, colliding_obj); true lets the engine
   * resolve the collision, false drops the pair. The callback sees both bodies' state
   * when it is fired; what else it does is not modelled.
   */
  type CollisionCallback = (BodyView, BodyView) -> bool

  /** Two consecutive GetWorldSpaceTransform calls with nothing in between return the same matrix. */
  method RepeatedTransformQueriesAgree(obj: PhysicsObject) returns (first: Matrix4, second: Matrix4)
    requires obj.Valid()
    modifies obj`wsTransform, obj`wsTransformInvalidated
    ensures first == second
  {
    first := obj.GetWorldSpaceTransform();
    second := obj.GetWorldSpaceTransform();
  }
}
