# ncltech rigid-body core, modelled in Dafny

This project models the rigid-body physics core of the ncltech framework (GameTech 2017):

- **The engine's fixed-timestep world step** (`PhysicsEngine`):
  - Update accumulates frame time and takes at most five catch-up steps.
  - Each step drops the previous manifolds.
  - A brute-force broad phase pairs every two bodies that both have a collision shape.
  - A narrow phase runs the separating-axis test on each pair. It fires both bodies' collision callbacks and builds a contact manifold for each pair that collides and that both callbacks accept.
  - The sequential-impulse solver pre-steps every manifold and constraint, then runs SOLVER_ITERATIONS impulse rounds.
  - Finally every body is integrated with semi-implicit Euler.
- **The separating-axis collision detector** (`CollisionDetectionSAT`):
  - candidate-axis collection with deduplication;
  - the one-dimensional interval test per axis;
  - the early exit on a separating axis and the choice of the least-penetrating axis;
  - the closest point on a set of edges;
  - Sutherland-Hodgman clipping in its two modes (cut and remove-only);
  - contact generation.
- **The contact manifold** (`Manifold`):
  - merging near-duplicate contacts so that the deeper one survives;
  - the per-tick pre-step, which resets the accumulated impulses and caches a clamped restitution term;
  - the solver step for each contact point. The accumulated normal impulse is clamped so it is never positive and never grows. The accumulated friction impulse is clamped into the Coulomb cone.
- **The state of a body** (`PhysicsObject`):
  - its constructor defaults and setters;
  - the collision callback and its default;
  - the lazily rebuilt world transform, kept behind a dirty flag.
- **Small helpers:**
  - the axis-aligned `BoundingBox` with `ExpandToFit` and `Transform`;
  - the cuboid shape's half-extent setters;
  - `CommonUtils::GenColour`.

Scalars are `real`, so floating-point rounding is not modelled. Some routines of the maths library and the C runtime are outside this model: `sqrtf`, `Vector3::Normalise`, `Vector3::Length`, `Plane::PointInPlane` and the quaternion integration step. They are fields of a `Numerics` value that each operation needing them receives as a parameter. The model assumes only that the square root is never negative.

The geometry queries of a collision shape are functions of the owning body's position and orientation, stored in the `CollisionShape` object. The world-transform builder is a function given to each body. Operations that change state in the source are methods on classes with `modifies` frames. Each method is proved against a specification function, and the lemmas state the properties of that function.

Files:

| File | Module | What it models |
|---|---|---|
| `vectors.dfy` | `Vectors` | vectors, quaternions, matrices, planes and the `Numerics` parameter |
| `collision_shape.dfy` | `Shapes` | collision shapes and the cuboid's half extents |
| `physics_object.dfy` | `Bodies` | `PhysicsObject` |
| `bounding_box.dfy` | `BoundingBoxes` | `BoundingBox` |
| `common_utils.dfy` | `CommonUtils` | `GenColour` |
| `manifold.dfy` | `Manifolds` | `Manifold` and the contact solver |
| `collision_detection_sat.dfy` | `Sat` | `CollisionDetectionSAT` |
| `physics_engine.dfy` | `Engine` | `PhysicsEngine` |

## Model

| member | source | states |
|---|---|---|
| Sat.CollisionDetectionSAT.constructor | Build/ncltech/CollisionDetectionSAT.cpp:5-7 | a new detector has an empty candidate-axis list (its other fields start as no bodies, no shapes, not colliding) |
| Sat.CollisionDetectionSAT.BeginNewPair | Build/ncltech/CollisionDetectionSAT.cpp:9-23 | the candidate-axis list is emptied, the colliding flag cleared, and the shapes are read from the two bodies (not from the shape arguments) |
| Sat.AxisOverlap | Build/ncltech/CollisionDetectionSAT.cpp:157-201 | the per-axis result's penetration is never positive and its normal is the axis or its negation |
| Sat.AxisOverlapIffIntervalsMeet | Build/ncltech/CollisionDetectionSAT.cpp:165-197 | an axis overlaps exactly when the closed projected intervals meet or touch; the normal is the axis when shape 1's interval starts first, its negation otherwise |
| Sat.PenetrationCoversOverlap | Build/ncltech/CollisionDetectionSAT.cpp:172-197 | the reported penetration is at least as deep as the overlap of the two projected intervals (at most minus its length) |
| Sat.PointOnPlaneOnShape2 | Build/ncltech/CollisionDetectionSAT.cpp:179-193 | for a unit axis, pointOnPlane (obj1's extreme vertex moved by the penetration along the normal) lies level with shape 2's near extreme: its least vertex when shape 1 comes first, its greatest otherwise |
| Sat.CheckCollisionAxis | Build/ncltech/CollisionDetectionSAT.cpp:157-201 | the axis test on the pair's shapes: penetration at most zero and normal plus or minus the axis |
| Sat.AxisResults | Build/ncltech/CollisionDetectionSAT.cpp:44-54 | one axis test per candidate axis, in order |
| Sat.StrongestIsMaximum | Build/ncltech/CollisionDetectionSAT.cpp:41-59 | when no axis separates, the kept data has the largest penetration of all axes and of the starting value, and it is one of them |
| Sat.StrongestTiesGoLater | Build/ncltech/CollisionDetectionSAT.cpp:50-53 | with `>=`, among axes tied at the maximum the kept data comes from the last of them |
| Sat.CollisionDetectionSAT.AreColliding | Build/ncltech/CollisionDetectionSAT.cpp:26-60 | false with nothing changed when a shape is missing; otherwise the axes are collected, the result is that no axis separates, the best data is the strongest axis up to the first separating one, an empty axis list gives penetration -FLT_MAX, and the optional output does not affect the result |
| Sat.AddAxisKeepsDeduplicated | Build/ncltech/CollisionDetectionSAT.cpp:136-155 | an axis is appended, normalised, exactly when its squared length is at least 0.0001 and its dot product with every listed axis is below 1-0.0001; the list grows by at most one and stays free of near-duplicates |
| Sat.AntiParallelAxisAdded | Build/ncltech/CollisionDetectionSAT.cpp:146-151 | an axis anti-parallel to every listed axis is not rejected as a duplicate |
| Sat.CollisionDetectionSAT.AddPossibleCollisionAxis | Build/ncltech/CollisionDetectionSAT.cpp:136-155 | the axis list after the call is the deduplicating append, and the result says whether the normalised axis was appended |
| Sat.AddAllKeepsDeduplicated | Build/ncltech/CollisionDetectionSAT.cpp:79-132 | offering a list of axes keeps the existing prefix, grows by at most the number offered, and keeps the appended part free of near-duplicates |
| Sat.CandidateAxesDeduplicated | Build/ncltech/CollisionDetectionSAT.cpp:62-134 | the face axes come first, unfiltered, and every axis added after them is deduplicated |
| Sat.CollisionDetectionSAT.FindAllPossibleCollisionAxes | Build/ncltech/CollisionDetectionSAT.cpp:62-134 | the axis list becomes the face axes of both shapes, then the edge-pair cross products, then the one curved-surface axis |
| Sat.CollisionDetectionSAT.AddEdgePairAxes | Build/ncltech/CollisionDetectionSAT.cpp:79-91 | every edge pair's cross product is offered in row order |
| Sat.CollisionDetectionSAT.AddEdgeRow | Build/ncltech/CollisionDetectionSAT.cpp:81-90 | one edge of shape 1 against every edge of shape 2 |
| Sat.CollisionDetectionSAT.AddCurvedAxis | Build/ncltech/CollisionDetectionSAT.cpp:100-132 | two spheres add the centre-to-centre axis; one sphere adds the axis from the closest point on the other shape's edges |
| Sat.SegmentParameter | Build/ncltech/CollisionDetectionSAT.cpp:214-224 | the parameter along an edge is clamped into [0, 1] |
| Sat.NearestOf | Build/ncltech/CollisionDetectionSAT.cpp:203-240 | the distance kept is at most FLT_MAX and no greater than that of any non-degenerate edge's closest point |
| Sat.ClosestPointFromFirstClosestEdge | Build/ncltech/CollisionDetectionSAT.cpp:228-236 | the point returned comes from the first edge that attains the least distance, because the comparison is a strict `<`; with no closer edge the default point is returned |
| Sat.CollisionDetectionSAT.GetClosestPoint | Build/ncltech/CollisionDetectionSAT.cpp:203-240 | the loop's running minimum returns exactly the closest point of the specification |
| Sat.PlaneEdgeIntersection | Build/ncltech/CollisionDetectionSAT.cpp:364-385 | an edge (nearly) parallel to the plane, with the normal's projection of the edge at most 0.0001 in size, gives back its start; otherwise, for a unit normal, the returned point lies on the plane |
| Sat.IntersectionOnSegment | Build/ncltech/CollisionDetectionSAT.cpp:364-385 | for an edge that crosses the plane, the intersection is start + t(end - start) with t in [0, 1] |
| Sat.RemovePassKeepsInsidePoints | Build/ncltech/CollisionDetectionSAT.cpp:417-422 | one remove-mode pass outputs exactly the input points inside the plane, in their order |
| Sat.InsidePointsAreInside | Build/ncltech/CollisionDetectionSAT.cpp:418-422 | every point kept in remove mode is an input point inside the plane |
| Sat.RemoveModeKeepsInsidePoints | Build/ncltech/CollisionDetectionSAT.cpp:400-448 | remove-mode clipping against several planes keeps only input points that lie inside every plane |
| Sat.CutPassKeepsInsidePolygon | Build/ncltech/CollisionDetectionSAT.cpp:424-427 | one cut-mode pass leaves a polygon lying wholly inside the plane unchanged |
| Sat.ClipKeepsInsidePolygon | Build/ncltech/CollisionDetectionSAT.cpp:400-448 | clipping in either mode leaves a polygon inside every plane unchanged |
| Sat.SutherlandHodgesonClipping | Build/ncltech/CollisionDetectionSAT.cpp:387-449 | the swap-and-refill loop computes the specification: one pass per plane, stopping once the polygon is empty; the output is a new value, so aliased input and output lists are safe |
| Sat.ClipAgainstPlane | Build/ncltech/CollisionDetectionSAT.cpp:411-445 | one pass visits each edge, closing edge first, and emits what that edge's mode and sides call for |
| Sat.ClippedContact | Build/ncltech/CollisionDetectionSAT.cpp:329-344 | the two contact points lie one penetration apart along the normal, and one of them is the clipped point |
| Sat.Penetrating | Build/ncltech/CollisionDetectionSAT.cpp:348-355 | a contact is kept exactly when its penetration is negative |
| Sat.ClippedContacts | Build/ncltech/CollisionDetectionSAT.cpp:323-358 | at most one contact per clipped point, each with negative penetration and the collision normal |
| Sat.ReferencePlane | Build/ncltech/CollisionDetectionSAT.cpp:292-306 | the reference plane faces against the reference face's normal and passes through its first vertex |
| Sat.ContactArgsForShape | Build/ncltech/CollisionDetectionSAT.cpp:261-358 | an empty polygon adds nothing; a one-point polygon adds exactly one contact with the best axis's normal and penetration; the clipped path adds only contacts with negative penetration |
| Sat.AddContactsOnlyAdds | Build/ncltech/CollisionDetectionSAT.cpp:267-355 | contact generation leaves only old contacts and contacts built from its own arguments in the manifold |
| Sat.CollisionDetectionSAT.GenContactPoints | Build/ncltech/CollisionDetectionSAT.cpp:245-361 | nothing changes without a manifold or a collision; otherwise the manifold's contacts are its old ones with each generated contact added in turn, and its bodies are unchanged |
| Sat.ClipAndAddContacts | Build/ncltech/CollisionDetectionSAT.cpp:283-358 | the choice of reference face, the two clipping passes and the contact loop add exactly the generated contacts |
| Sat.AddClippedContacts | Build/ncltech/CollisionDetectionSAT.cpp:323-358 | the contact loop adds, in order, the penetrating contacts of the clipped points |
| Sat.AddIfPenetrating | Build/ncltech/CollisionDetectionSAT.cpp:348-355 | one point's contact is added only when its penetration is negative |
| Manifolds.Manifold.constructor | Build/ncltech/Manifold.cpp:11-15 | a new manifold has no bodies and no contacts |
| Manifolds.Manifold.Initiate | Build/ncltech/Manifold.cpp:22-28 | the contact list is emptied and both bodies are recorded |
| Manifolds.ContactBetween | Build/ncltech/Manifold.cpp:160-170 | each body's position plus its offset gives back the given contact point; the normal and penetration are the ones given, and the accumulators start at zero |
| Manifolds.Manifold.NewContact | Build/ncltech/Manifold.cpp:160-170 | for this manifold's bodies where they are now, each body's position plus the contact's offset gives back the given world point; the normal and penetration are the ones given, and both running sums and the restitution term start at zero |
| Manifolds.Manifold.AddContact | Build/ncltech/Manifold.cpp:158-204 | the in-place erase-and-append loop computes the merge: nearby shallower contacts erased, the new one appended unless a nearby one is at least as deep |
| Manifolds.SurvivingIsSublist | Build/ncltech/Manifold.cpp:176-198 | the contacts left in place are a sub-multiset of the old ones, none of them erasable |
| Manifolds.WithContactGrowsByAtMostOne | Build/ncltech/Manifold.cpp:158-204 | AddContact grows the list by at most one |
| Manifolds.FarContactsUnchanged | Build/ncltech/Manifold.cpp:176-198 | contacts farther than 0.2 from the new one are kept unchanged and in order |
| Manifolds.SurvivingKeepsFar | Build/ncltech/Manifold.cpp:183-197 | the erase loop keeps every far contact in order |
| Manifolds.KeepsDeepestNearby | Build/ncltech/Manifold.cpp:174-203 | afterwards some contact lies near the new one and every nearby contact is at least as deep as it; the new contact is added when no nearby one blocks it |
| Manifolds.Manifold.PreSolverStep | Build/ncltech/Manifold.cpp:120-126 | every contact is updated in order; the list keeps its length and each contact its geometry, both running sums become zero, each elasticity term is 0 or at least 0.2, and each contact is inside the friction cone |
| Manifolds.Manifold.UpdateConstraint | Build/ncltech/Manifold.cpp:128-156 | both accumulated impulses reset to zero, geometry unchanged, and the cached restitution term is the clamped elasticity times the approach speed |
| Manifolds.ClampRestitution | Build/ncltech/Manifold.cpp:143-154 | the term kept is 0 or at least the 0.2 slop: a term at or above the slop is kept, anything below (negative included) becomes 0 |
| Manifolds.RestitutionAsWritten | Build/ncltech/Manifold.cpp:137-141 | the term the source computes equals the intended term (elasticity times the approach speed) minus twice the elasticity times the part of the approach speed that comes from spin |
| Manifolds.RestitutionAgreesWithoutSpin | Build/ncltech/Manifold.cpp:137-141 | without spin the term as written and the corrected term agree |
| Manifolds.SpinOnlyFlipsSign | Build/ncltech/Manifold.cpp:137-141 | when only body A moves, and only by spinning, the term as written is exactly the negative of the corrected term |
| Manifolds.RestitutionSignFlip | Build/ncltech/Manifold.cpp:137-141 | a spinning body's contact point approaching at unit speed yields -1 as written (clamped to no bounce) but +1 by kinematics |
| Vectors.RotationalTermNonNegative | Build/ncltech/Manifold.cpp:55-59 | the rotational share of the effective mass is never negative for a positive semi-definite inverse inertia |
| Manifolds.EffectiveMassBound | Build/ncltech/Manifold.cpp:55-59 | the effective mass along a direction is at least the sum of the inverse masses, so it is positive whenever that sum is |
| Manifolds.BaumgarteBias | Build/ncltech/Manifold.cpp:61-68 | the bias is never negative, and it is zero exactly when the penetration is within the 0.001 slop |
| Manifolds.NextNormalSum | Build/ncltech/Manifold.cpp:70-75 | the accumulated normal impulse stays at or below zero and never increases |
| Manifolds.NextFrictionSum | Build/ncltech/Manifold.cpp:105-108 | for a non-positive bound the accumulated friction lies in [bound, -bound], and an in-range sum is kept unchanged |
| Manifolds.ConeWidens | Build/ncltech/Manifold.cpp:105-107 | a friction sum inside the cone stays inside when the normal sum grows more negative |
| Manifolds.ImpulseBalanced | Build/ncltech/Manifold.cpp:77-78 | an impulse added to A and taken from B at their inverse masses conserves linear momentum (stated multiplied through by both inverse masses, so an immovable body is covered) |
| Manifolds.AfterImpulse | Build/ncltech/Manifold.cpp:77-81 | the velocities after one impulse along a direction; between two distinct bodies the change conserves linear momentum |
| Manifolds.BalancedChain | Build/ncltech/Manifold.cpp:77-114 | momentum conserved over each of two successive impulses is conserved over both |
| Manifolds.ApplyImpulseAlong | Build/ncltech/Manifold.cpp:77-81 | the two bodies' velocities become AfterImpulse of their old ones (A gains, B loses, each by its inverse mass and inverse inertia times the impulse's moment; one body gets both when A is B); momentum is conserved between distinct bodies and both transform caches stay consistent |
| Manifolds.ChangeVelocities | Build/ncltech/Manifold.cpp:77-81 | A's velocities gain and B's lose the given changes, in the source's order, so that one body listed as both gets both; nothing else of the bodies changes |
| Manifolds.RelativeVelocity | Build/ncltech/Manifold.cpp:44-49 | dv is A's contact-point velocity less B's, and its component along a contact's normal is that contact's approach speed |
| Manifolds.TangentialPart | Build/ncltech/Manifold.cpp:90 | dv is the tangential part plus dv's component along the normal, and the tangential part is perpendicular to a unit normal |
| Manifolds.SlideDirection | Build/ncltech/Manifold.cpp:90-94 | the friction direction lies in the contact plane of a unit normal |
| Manifolds.FrictionBound | Build/ncltech/Manifold.cpp:106 | the friction bound is never positive for a non-negative coefficient and a pushing normal sum |
| Manifolds.NormalImpulse | Build/ncltech/Manifold.cpp:55-70 | times the effective mass along the normal, the raw normal impulse cancels the approach speed plus the Baumgarte and restitution biases; it pushes apart (is at most zero) exactly when that sum is non-negative |
| Manifolds.FrictionImpulse | Build/ncltech/Manifold.cpp:96-103 | times the effective mass along the tangent, the raw friction impulse is minus the coefficient times the sliding speed, so with a non-negative coefficient it opposes sliding |
| Manifolds.NormalStep | Build/ncltech/Manifold.cpp:53-82 | only the contact's normal sum changes, ending at or below zero and at or below its old value; between two bodies the impulse conserves linear momentum |
| Manifolds.FrictionStep | Build/ncltech/Manifold.cpp:88-117 | only the friction sum changes; at or below the 0.001 sliding threshold nothing changes; a sliding contact whose normal sum pushes ends inside the friction cone; between two bodies linear momentum is conserved |
| Manifolds.ClampedFriction | Build/ncltech/Manifold.cpp:105-114 | only the friction sum changes, and for a non-positive bound it ends in [bound, -bound]; between two bodies linear momentum is conserved |
| Manifolds.SolvedContact | Build/ncltech/Manifold.cpp:39-118 | one contact solved: its geometry and restitution term are kept, and with both inverse masses zero neither the contact nor the velocities change |
| Manifolds.SolvedContactPushes | Build/ncltech/Manifold.cpp:70-75 | the normal sum of a solved contact never rises, and ends at or below zero when it was or the pair can move |
| Manifolds.SolvedContactKeepsCone | Build/ncltech/Manifold.cpp:102-107 | with a non-negative coefficient a contact inside the friction cone stays inside after both impulses, although the normal impulse moves the cone's bound |
| Manifolds.SolvedContactConserves | Build/ncltech/Manifold.cpp:77-114 | between two bodies the normal and friction impulses of one contact together conserve linear momentum |
| Manifolds.SolvedContacts | Build/ncltech/Manifold.cpp:30-36 | solving every contact in order, each seeing the velocities the previous ones left, gives one contact per contact |
| Manifolds.SolvedContactsKeepGeometry | Build/ncltech/Manifold.cpp:30-36 | over the whole list every contact keeps its geometry and restitution term |
| Manifolds.SolvedContactsPush | Build/ncltech/Manifold.cpp:30-36 | over the whole list every normal sum never rises, and ends at or below zero when it was or the pair can move |
| Manifolds.SolvedContactsKeepCone | Build/ncltech/Manifold.cpp:30-36 | over the whole list a contact inside the friction cone stays inside |
| Manifolds.SolvedContactsConserve | Build/ncltech/Manifold.cpp:30-36 | between two bodies, solving the whole list conserves linear momentum |
| Manifolds.Manifold.SolveContactPoint | Build/ncltech/Manifold.cpp:39-118 | contact i and the bodies' velocities become SolvedContact of their old values, and no other contact changes; so with zero total inverse mass nothing changes, the normal sum never rises and stays at or below zero, the geometry and restitution term are kept, a contact inside the friction cone stays inside, and between two bodies linear momentum is conserved |
| Manifolds.Manifold.ResolveCollision | Build/ncltech/Manifold.cpp:53-82 | contact i and the velocities become NormalStep of their old values: only contact i's normal sum changes, to a value at or below zero and at or below the old one, and the impulse returned is the change in the sum |
| Manifolds.Manifold.ResolveFriction | Build/ncltech/Manifold.cpp:88-117 | contact i and the velocities become FrictionStep of their old values: only contact i's friction sum changes; when sliding, the direction returned is the sliding direction and the impulse is the change in the sum, otherwise both are zero; a contact inside the Coulomb cone stays inside |
| Manifolds.Manifold.SolveEachContact | Build/ncltech/Manifold.cpp:32-35 | the loop leaves the contacts and velocities that SolvedContacts gives for the old ones |
| Manifolds.Manifold.ApplyImpulse | Build/ncltech/Manifold.cpp:30-36 | the contacts and velocities are SolvedContacts of the old ones; so every contact keeps its geometry, its normal sum never rises and ends at or below zero, a contact in the friction cone stays in it, and between two bodies linear momentum is conserved |
| Manifolds.AllPushedChain | Build/ncltech/PhysicsEngine.cpp:279-290 | two solver passes over a manifold's contacts compose into one: geometry and restitution kept, normal sums only fall, the friction cone kept |
| Manifolds.ResetChain | Build/ncltech/PhysicsEngine.cpp:268-271 | a manifold pre-stepped twice (listed twice) is still a reset of its original contacts |
| Manifolds.ResetThenPushedSettles | Build/ncltech/PhysicsEngine.cpp:266-291 | after a pre-step and solver passes, every contact is in place and settled: normal sum at or below zero, restitution term off or at least the slop, inside the friction cone |
| Bodies.PhysicsObject.constructor | Build/ncltech/PhysicsObject.cpp:4-20 | disabled, transform flagged invalid, all vectors zero, identity orientation, zero inverse mass and inertia, friction 0.5, elasticity 0.9, no shape, no callback |
| Bodies.PhysicsObject.Destroy | Build/ncltech/PhysicsObject.cpp:22-30 | the owned shape is released and the field is cleared |
| Bodies.PhysicsObject.GetWorldSpaceTransform | Build/ncltech/PhysicsObject.cpp:32-43 | rebuilds only when flagged, then clears the flag; the matrix returned is always the transform of the current position and orientation, and a clean cache is left untouched |
| Bodies.RepeatedTransformQueriesAgree | Build/ncltech/PhysicsObject.cpp:32-43 | two consecutive transform queries return the same matrix |
| Bodies.PhysicsObject.SetPosition | Build/ncltech/PhysicsObject.h:75 | sets the position and flags the transform invalid |
| Bodies.PhysicsObject.SetOrientation | Build/ncltech/PhysicsObject.h:80 | sets the orientation and flags the transform invalid |
| Bodies.PhysicsObject.SetElasticity | Build/ncltech/PhysicsObject.h:72 | sets only the elasticity; the cache stays consistent |
| Bodies.PhysicsObject.SetFriction | Build/ncltech/PhysicsObject.h:73 | sets only the friction; the cache stays consistent |
| Bodies.PhysicsObject.SetLinearVelocity | Build/ncltech/PhysicsObject.h:76 | sets only the linear velocity; the flag is left alone |
| Bodies.PhysicsObject.SetForce | Build/ncltech/PhysicsObject.h:77 | sets only the force |
| Bodies.PhysicsObject.SetInverseMass | Build/ncltech/PhysicsObject.h:78 | sets only the inverse mass |
| Bodies.PhysicsObject.SetAngularVelocity | Build/ncltech/PhysicsObject.h:81 | sets only the angular velocity |
| Bodies.PhysicsObject.SetTorque | Build/ncltech/PhysicsObject.h:82 | sets only the torque |
| Bodies.PhysicsObject.SetInverseInertia | Build/ncltech/PhysicsObject.h:83 | sets only the inverse inertia |
| Bodies.PhysicsObject.SetCollisionShape | Build/ncltech/PhysicsObject.h:85 | overwrites the shape field only; the earlier shape is not released |
| Bodies.PhysicsObject.SetAssociatedObject | Build/ncltech/PhysicsObject.h:90 | sets only the owning object |
| Bodies.PhysicsObject.SetOnCollisionCallback | Build/ncltech/PhysicsObject.h:94 | sets only the callback |
| Bodies.PhysicsObject.FireOnCollisionEvent | Build/ncltech/PhysicsObject.h:95-98 | true when no callback is set, otherwise the callback's verdict on the two bodies |
| Shapes.CuboidCollisionShape.SetHalfWidth | Build/ncltech/CuboidCollisionShape.h:47 | the half width becomes the absolute value of the argument, so it is never negative; the other components are unchanged |
| Shapes.CuboidCollisionShape.SetHalfHeight | Build/ncltech/CuboidCollisionShape.h:48 | only the y component changes, to the absolute value |
| Shapes.CuboidCollisionShape.SetHalfDepth | Build/ncltech/CuboidCollisionShape.h:49 | only the z component changes, to the absolute value |
| Shapes.CuboidCollisionShape.GetHalfWidth | Build/ncltech/CuboidCollisionShape.h:53 | the half width is the x component of GetHalfDims |
| Shapes.CuboidCollisionShape.GetHalfHeight | Build/ncltech/CuboidCollisionShape.h:54 | the half height is the y component of GetHalfDims |
| Shapes.CuboidCollisionShape.GetHalfDepth | Build/ncltech/CuboidCollisionShape.h:55 | the half depth is the z component of GetHalfDims |
| Shapes.HalfDimsFromGetters | Build/ncltech/CuboidCollisionShape.h:52-55 | GetHalfDims returns exactly the vector of the three single-axis getters |
| BoundingBoxes.BoundingBox.constructor | ncltech/BoundingBox.h:10 | a new box has no value |
| BoundingBoxes.ExpandFirstPoint | ncltech/BoundingBox.h:17-22 | the first point pins both corners, so the box then contains exactly that point |
| BoundingBoxes.ExpandContainsPoint | ncltech/BoundingBox.h:15-32 | after expanding, the box contains the point, its corners only move outwards, and everything it contained it still contains |
| BoundingBoxes.BoundingBox.ExpandToFit | ncltech/BoundingBox.h:15-32 | the box becomes the expansion of its old value: it contains the point and keeps every point it contained |
| BoundingBoxes.FitAllContains | ncltech/BoundingBox.h:34-47 | fitting a list of points yields a box with a value that holds every one of them and everything it held before |
| BoundingBoxes.BoundingBox.Transform | ncltech/BoundingBox.h:34-47 | a fresh box fitted to the eight transformed corners, in order, containing every one of them |
| CommonUtils.Frac | Build/ncltech/CommonUtils.cpp:15-17 | modf's fractional part lies strictly between -1 and 1 and keeps the sign of its argument |
| CommonUtils.Clamp01 | Build/ncltech/CommonUtils.cpp:19-21 | the result lies in [0, 1], equals the value when it is already there, and is the nearer bound otherwise |
| CommonUtils.GenColour | Build/ncltech/CommonUtils.cpp:9-24 | alpha is copied into w, every channel lies in [0, 1], and a raw channel already in [0, 1] comes through unchanged |
| CommonUtils.GenColourPeriodic | Build/ncltech/CommonUtils.cpp:15-17 | on non-negative scalars the colour repeats with period one |
| CommonUtils.RedChannelShape | Build/ncltech/CommonUtils.cpp:15-19 | on [0, 1) the red channel is full up to 1/6, zero from 1/3 to 2/3 and full again from 5/6 |
| Engine.PhysicsEngine.constructor | Build/ncltech/PhysicsEngine.cpp:8-21 | the SetDefaults values: not paused, timestep 1/60, empty accumulator, gravity (0, -9.81, 0), damping 0.9999, nothing registered |
| Engine.PhysicsEngine.AddPhysicsObject | Build/ncltech/PhysicsEngine.cpp:44-47 | the body is appended |
| Engine.WithoutFirstRemovesOne | Build/ncltech/PhysicsEngine.cpp:49-57 | removal takes out exactly one copy of a listed body and leaves the list unchanged when the body is absent |
| Engine.PhysicsEngine.RemovePhysicsObject | Build/ncltech/PhysicsEngine.cpp:49-57 | the search loop erases the first occurrence only, or nothing |
| Engine.PhysicsEngine.RemoveAllPhysicsObjects | Build/ncltech/PhysicsEngine.cpp:59-82 | no bodies, constraints or manifolds remain |
| Engine.CatchUpSteps | Build/ncltech/PhysicsEngine.cpp:86-95 | at most five world steps per frame |
| Engine.CatchUpLeftover | Build/ncltech/PhysicsEngine.cpp:90-95 | each step was taken with a whole timestep in hand, and unless all five ran, less than a timestep is left |
| Engine.CatchUpTakesWholeSteps | Build/ncltech/PhysicsEngine.cpp:90-95 | an accumulator holding k whole timesteps, with k within the budget, takes exactly k steps |
| Engine.CatchUpLeftSpent | Build/ncltech/PhysicsEngine.cpp:91-95 | the accumulator left is the one given less one timestep per step taken |
| Engine.PhysicsEngine.CatchUp | Build/ncltech/PhysicsEngine.cpp:91-95 | the catch-up loop takes the specified number of steps and leaves the specified remainder |
| Engine.PhysicsEngine.Update | Build/ncltech/PhysicsEngine.cpp:84-102 | while paused nothing changes; otherwise the frame time joins the accumulator and the catch-up steps run; "too slow" is reported exactly when a whole timestep is still left |
| Engine.ShapedPairsExactly | Build/ncltech/PhysicsEngine.cpp:189-215 | the broad phase emits a pair exactly when it is two shaped bodies at indices i < j |
| Engine.AllShapedPairCount | Build/ncltech/PhysicsEngine.cpp:196-213 | with every body shaped, n(n-1)/2 pairs are emitted |
| Engine.ShapedPairsMembers | Build/ncltech/PhysicsEngine.cpp:200-210 | every pair is made of two listed bodies |
| Engine.BroadPhaseBoundAsWritten | Build/ncltech/PhysicsEngine.cpp:196 | on an empty list, size() - 1 wraps to 2^64 - 1; on any other list the bound is the same test as i + 1 < size() |
| Engine.PhysicsEngine.BroadPhaseCollisions | Build/ncltech/PhysicsEngine.cpp:189-215 | the nested loops emit exactly the shaped pairs i < j in index order, an empty list included |
| Engine.ResolvedPairsSound | Build/ncltech/PhysicsEngine.cpp:227-259 | the narrow phase keeps, in order, only pairs it was given that collide and that both callbacks accept |
| Engine.ResolvedPairsKept | Build/ncltech/PhysicsEngine.cpp:227-259 | given each pair's verdict in advance, the pairs kept are exactly those with a true verdict |
| Engine.ManifoldPairsMatch | Build/ncltech/PhysicsEngine.cpp:255-256 | manifolds built one per kept pair join exactly those pairs' bodies |
| Engine.ManifoldNodesAmong | Build/ncltech/PhysicsEngine.cpp:200-256 | manifolds built from broad-phase pairs join only registered bodies |
| Engine.PhysicsEngine.NarrowPhasePair | Build/ncltech/PhysicsEngine.cpp:229-258 | a manifold is built exactly when the pair collides and both callbacks, each fired with (objectA, objectB), return true; it joins the pair's bodies, and its contacts are those GenContactPoints adds to an empty list from the faces around the strongest axis of this pair's SAT test |
| Engine.PhysicsEngine.NarrowPhaseStep | Build/ncltech/PhysicsEngine.cpp:227-259 | a manifold built for the pair is appended, and the manifolds built so far follow the pairs resolved so far |
| Engine.PhysicsEngine.NarrowPhaseCollisions | Build/ncltech/PhysicsEngine.cpp:217-262 | one fresh manifold is appended per resolved pair, in order; the existing manifolds are kept |
| Engine.PhysicsEngine.DetectCollisions | Build/ncltech/PhysicsEngine.cpp:107-115 | old manifolds are dropped; the pairs are the shaped pairs and the new manifolds join exactly the resolved pairs |
| Engine.Integrate | Build/ncltech/PhysicsEngine.cpp:163-185 | the velocities are updated first, then the position moves by the new linear velocity and the orientation turns by half the new angular velocity |
| Engine.StaticBodyIgnoresGravity | Build/ncltech/PhysicsEngine.cpp:171-172 | a body of zero inverse mass is not affected by gravity |
| Engine.RestingStaticBodyStaysPut | Build/ncltech/PhysicsEngine.cpp:166-175 | a resting body of zero inverse mass stays where it is, whatever the force or gravity |
| Engine.GravityContribution | Build/ncltech/PhysicsEngine.cpp:171-174 | for a body of finite mass, gravity adds exactly gravity times timestep times damping |
| Engine.PhysicsEngine.UpdatePhysicsObject | Build/ncltech/PhysicsEngine.cpp:163-187 | the body's motion is one Integrate step with the engine's timestep, gravity and damping, and its transform is flagged invalid |
| Engine.PhysicsEngine.UpdatePhysicsObjects | Build/ncltech/PhysicsEngine.cpp:155-161 | every body is flagged invalid; when no body is listed twice, each one's motion is exactly one Integrate step |
| Engine.PreSteps | Build/ncltech/PhysicsEngine.cpp:268-276 | one pre-step per manifold and per constraint, and nothing else |
| Engine.ImpulseRound | Build/ncltech/PhysicsEngine.cpp:281-289 | one impulse per manifold and per constraint in a round, all of that round |
| Engine.ImpulseRounds | Build/ncltech/PhysicsEngine.cpp:279-290 | n rounds make n times as many impulses, all from rounds below n |
| Engine.SolverScheduleOrder | Build/ncltech/PhysicsEngine.cpp:266-291 | every pre-step precedes every impulse; manifolds are pre-stepped before constraints, each once; each gets one impulse per iteration |
| Engine.PhysicsEngine.PreStepManifolds | Build/ncltech/PhysicsEngine.cpp:268-271 | every manifold is pre-stepped, in order: each manifold's contacts keep their number and geometry, with both running sums zero and the restitution term off or at least the slop |
| Engine.PhysicsEngine.PreStepAll | Build/ncltech/PhysicsEngine.cpp:268-276 | the manifolds' pre-steps, then the constraints', in order; each manifold's contacts keep their number and geometry, with both running sums zero and the restitution term off or at least the slop |
| Engine.PhysicsEngine.PreStepConstraints | Build/ncltech/PhysicsEngine.cpp:273-276 | every constraint is pre-stepped, in order |
| Engine.PhysicsEngine.ImpulseManifolds | Build/ncltech/PhysicsEngine.cpp:281-284 | every manifold receives its impulse for the round, in order, and each manifold's contacts keep their geometry and restitution term, their normal sums only fall and the friction cone is kept |
| Engine.PhysicsEngine.ImpulseManifold | Build/ncltech/PhysicsEngine.cpp:281-284 | manifold i's ApplyImpulse, logged: its contacts and its two bodies' velocities end exactly as the solver's per-contact fold leaves them from their state before the call (SolvedFrom); the contacts keep their geometry and restitution term, their normal sums only fall, and the friction cone is kept |
| Engine.PhysicsEngine.ImpulseConstraints | Build/ncltech/PhysicsEngine.cpp:286-289 | every constraint receives its impulse for the round, in order |
| Engine.PhysicsEngine.ImpulseIteration | Build/ncltech/PhysicsEngine.cpp:279-290 | one round: the manifolds, then the constraints; each manifold's contacts are pushed as ApplyImpulse pushes them |
| Engine.PhysicsEngine.ImpulseRoundsAll | Build/ncltech/PhysicsEngine.cpp:279-290 | solverIterations rounds in order; over all of them each manifold's contacts keep their geometry and restitution term, their normal sums only fall and the friction cone is kept |
| Engine.PhysicsEngine.SolveConstraints | Build/ncltech/PhysicsEngine.cpp:266-291 | the calls made are exactly the solver schedule, and every manifold keeps its contacts, in order and in place, each ending settled: normal sum at or below zero, restitution term off or at least the slop, inside the friction cone |
| Engine.PhysicsEngine.DetectAndSolve | Build/ncltech/PhysicsEngine.cpp:107-118 | the manifolds are rebuilt as fresh objects, the solver runs its schedule over them, and every contact of every manifold ends settled |
| Engine.PhysicsEngine.UpdatePhysics | Build/ncltech/PhysicsEngine.cpp:105-122 | the manifolds are rebuilt, the solver runs its schedule over them and leaves every contact settled, and every body ends flagged invalid |

## Left out

- Floating-point rounding: every scalar is a `real`, the epsilons (0.0001, 0.001, 0.2, 0.04) are exact constants, and FLT_MAX is written out exactly. Convergence, resting stability and drift are not claimed.
- `sqrtf`, `Vector3::Normalise`, `Vector3::Length`, `Plane::PointInPlane` and the quaternion integration step are parameters (`Numerics`), because their code is not part of this model. The only law assumed is that a square root is never negative.
- `Quaternion::ToMatrix4`, `Matrix4::SetPositionVector` and `Matrix4 * Vector3` are functions given to the model, for the same reason.
- Shape geometry (GetCollisionAxes, GetEdges, GetMinMaxVertexOnAxis, GetIncidentReferencePolygon, BuildInverseInertia) comes from the shape as functions of the body's pose. CollisionShape, Hull and the sphere shape are not part of this model.
- User constraints (DistanceConstraint, Spring) are opaque handles. Only the order of their PreSolverStep and ApplyImpulse calls is recorded, in a ghost log, because their sources are not part of this model.
- SOLVER_ITERATIONS is a constructor parameter. PhysicsEngine.h, which defines it, is not part of this model.
- The engine singleton: PhysicsEngine::Instance() and GetDeltaTime() become the engine's timestep, passed as `dt` to the manifold solver.
- Manifold::Manifold(nodeA, nodeB): the two-argument constructor the narrow phase calls is modelled as default construction followed by Initiate. Manifold.h is not part of this model.
- NCLERROR("Physics too slow ...") becomes the `tooSlow` result of Update.
- Debug drawing (Manifold::DebugDraw, PhysicsEngine::DebugRender, the narrow phase's NCLDebug calls) is not modelled.
- Collision callbacks are pure functions of the two bodies' state. Any other effect of a callback is not modelled.
- PhysicsObject getters are plain field reads with no contract beyond their body.
- The debug fields `broadphase_ptr`, `awake` and `oldVelComb` are not modelled.
- Engine.PhysicsEngine.RemoveAllPhysicsObjects: clearing each body's owner back-reference and deleting the bodies, constraints and manifolds are not modelled, because memory is not modelled.
- Engine.PhysicsEngine.Update: the inner `!m_IsPaused` check of the loop is always true in a single thread. The model keeps the test but does not consider a pause arriving mid-frame.
- Engine.PhysicsEngine.Update, Engine.PhysicsEngine.CatchUp, Engine.PhysicsEngine.UpdatePhysics and the solver methods require `Valid()`, a condition the source never checks. Valid() needs a positive timestep, every body with a consistent cache, a non-negative inverse mass and a positive semi-definite inverse inertia, and every manifold joining registered bodies. These are the conditions under which the solver's clamping guarantees are proved.
- Manifolds.Manifold.ApplyImpulse, Manifolds.Manifold.SolveContactPoint: they require `SolverReady()` and a positive `dt`, for the same reason. The friction-cone guarantee is stated only for a non-negative friction coefficient.
- Engine.PhysicsEngine.UpdatePhysicsObjects: the exact motion of each body is stated only when no body is listed twice. A body listed twice is integrated twice in the source.
- Engine.PhysicsEngine.UpdatePhysics: the contract does not restate, after the solver has run, that the manifolds join exactly the resolved pairs. DetectCollisions states that, and the solver does not change manifold bodies. No per-body motion is stated after the solver's velocity changes.
- Engine.PhysicsEngine.NarrowPhaseCollisions, Engine.PhysicsEngine.NarrowPhaseStep, Engine.PhysicsEngine.DetectCollisions: the contacts of each new manifold are stated per pair only, by Engine.PhysicsEngine.NarrowPhasePair. The detector is shared across pairs, and its best collision data carries over from the previous pair when no axis improves on it, so the list-level statement would have to thread that state through every pair.
- Engine.PhysicsEngine.SolveConstraints, Engine.PhysicsEngine.UpdatePhysics: conservation of momentum and the exact velocities are stated per manifold only (Manifolds.Manifold.ApplyImpulse). A body shared by several manifolds receives impulses from each of them in turn, and the engine-level contracts do not compose those.
- Sat.CollisionDetectionSAT.constructor: the source leaves the body and shape fields, the colliding flag and the best collision data uninitialised. The model starts them as null and false; BeginNewPair sets them before any use.
- Sat.CollisionDetectionSAT.GenContactPoints: the detector's state is carried from the pair given to BeginNewPair. When clipping has emptied the incident polygon, the source still calls `incPolygon->back()` (CollisionDetectionSAT.cpp:323). Calling `back()` on an empty std::list is undefined behaviour in C++, and debug builds of some standard libraries stop on a failed assertion there. The value only goes into a variable the loop never reads, and the model treats the call as harmless: an emptied polygon yields no contacts.
- Sat.NearestOf: an edge whose ends coincide (posA == posB) makes the source divide 0 by 0, a NaN. The model skips such an edge (Sat.NearestOf, and the `magnitudeAB != 0.0` guard in Sat.CollisionDetectionSAT.GetClosestPoint). That matches the source when std::min and std::max propagate the NaN, so that the distance is NaN and the strict comparison never picks the edge; with min/max macros that return the other operand (min(NaN, 1) == 1) the source would instead clamp to an end of the edge.
- Manifolds.Manifold.UpdateConstraint: the engine step uses the corrected restitution term (the contact-point velocity `Cross(angularVelocity, relPos)`, see Findings), so for spinning contacts its cached term differs from the one Manifold.cpp:137-141 computes; the term as written is Manifolds.RestitutionAsWritten.

## Findings

| source | as written | input that shows it | evidently intended | confidence | as-written member | corrected member |
|---|---|---|---|---|---|---|
| Build/ncltech/Manifold.cpp:137-141 | the restitution term uses `Cross(relPos, angularVelocity)`, the negative of the contact-point velocity `Cross(angularVelocity, relPos)` that SolveContactPoint uses at lines 47-48 | body A spinning at unit rate about z, contact offset (1, 0, 0) on A, normal (0, 1, 0), elasticity 1, all else at rest: the term is -1 and is clamped to 0 (no bounce), though the contact point approaches at speed 1 | elasticity times the approach speed of the contact points, +1 here | not executed; high that the sign is inconsistent with lines 47-48 | Manifolds.RestitutionSignFlip | Manifolds.Manifold.UpdateConstraint |
| Build/ncltech/PhysicsEngine.cpp:196 | the outer broad-phase bound is `i < m_PhysicsObjects.size() - 1` in std::size_t | an engine with no bodies: size() - 1 wraps to 2^64 - 1, so the outer loop makes 2^64 - 1 empty passes instead of none | the outer loop should not run on an empty list (`i + 1 < size()`) | not executed; high | Engine.BroadPhaseBoundAsWritten | Engine.PhysicsEngine.BroadPhaseCollisions |
