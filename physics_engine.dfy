/**
 * PhysicsEngine: the fixed-timestep world step. Each step discards the previous
 * manifolds, pairs every two shaped bodies (broad phase), runs the SAT test on each
 * pair and builds a manifold for the pairs that collide and that both bodies' callbacks
 * accept (narrow phase), runs the contact solver, and integrates every body with
 * semi-implicit Euler.
 *
 * The user constraints (DistanceConstraint, Spring) are not part of this model: the
 * engine keeps them as opaque handles, and the solver only records, in a ghost log,
 * the order in which their PreSolverStep and ApplyImpulse would run.
 */
module Engine {
  import opened Vectors
  import opened Shapes
  import opened Bodies
  import opened Manifolds
  import opened Sat

  /** max_updates_per_frame in PhysicsEngine::Update. */
  const MaxUpdatesPerFrame: nat := 5

  /** The defaults SetDefaults installs. */
  const DefaultTimestep: real := 1.0 / 60.0
  const DefaultGravity: Vector3 := Vector3(0.0, -9.81, 0.0)
  const DefaultDamping: real := 0.9999

  /** A broad-phase candidate: two bodies, A before B in the engine's list. */
  datatype CollisionPair = CollisionPair(objectA: PhysicsObject, objectB: PhysicsObject)

  /** An opaque reference to a user constraint (Constraint*). */
  type ConstraintHandle = nat

  /** One call the solver makes: a pre-step or an impulse round on a manifold or a constraint, by index. */
  datatype SolverCall =
    | ManifoldPreStep(manifold: nat)
    | ConstraintPreStep(constraint: nat)
    | ManifoldImpulse(round: nat, manifold: nat)
    | ConstraintImpulse(round: nat, constraint: nat)
  {
    predicate IsPreStep() { ManifoldPreStep? || ConstraintPreStep? }
  }

  //<---- BROAD PHASE ---->

  /** Both bodies carry a collision shape. */
  predicate BothShaped(a: PhysicsObject, b: PhysicsObject)
    reads a`colShape, b`colShape
  {
    a.colShape != null && b.colShape != null
  }

  /** The pairs (i, k) with i < k < j, in order of k, that have both shapes. */
  function RowPairs(objs: seq<PhysicsObject>, i: nat, j: nat): seq<CollisionPair>
    requires i < |objs| && j <= |objs|
    reads objs`colShape
    decreases j
  {
    if j <= i + 1 then []
    else
      RowPairs(objs, i, j - 1) +
      (if BothShaped(objs[i], objs[j - 1]) then [CollisionPair(objs[i], objs[j - 1])] else [])
  }

  /** The rows of the first n bodies, each against every later body. */
  function RowsBefore(objs: seq<PhysicsObject>, n: nat): seq<CollisionPair>
    requires n <= |objs|
    reads objs`colShape
    decreases n
  {
    if n == 0 then [] else RowsBefore(objs, n - 1) + RowPairs(objs, n - 1, |objs|)
  }

  /** What the broad phase emits: every shaped pair i < j, in index order. */
  function ShapedPairs(objs: seq<PhysicsObject>): seq<CollisionPair>
    reads objs`colShape
  {
    if objs == [] then [] else RowsBefore(objs, |objs| - 1)
  }

  /** The pair is the bodies at indices i < j of the list, both shaped. */
  ghost predicate PairAt(objs: seq<PhysicsObject>, p: CollisionPair, i: int, j: int)
    reads objs`colShape
  {
    0 <= i < j < |objs| && p == CollisionPair(objs[i], objs[j]) && BothShaped(objs[i], objs[j])
  }

  /** A pair of bodies at indices i < j of the list, both shaped. */
  ghost predicate IndexedPair(objs: seq<PhysicsObject>, p: CollisionPair)
    reads objs`colShape
  {
    exists i, j :: PairAt(objs, p, i, j)
  }

  lemma {:induction false} RowPairsExactly(objs: seq<PhysicsObject>, i: nat, j: nat, p: CollisionPair)
    requires i < |objs| && j <= |objs|
    ensures p in RowPairs(objs, i, j) <==> exists k :: k < j && PairAt(objs, p, i, k)
    decreases j
  {
    if j > i + 1 {
      RowPairsExactly(objs, i, j - 1, p);
      if p == CollisionPair(objs[i], objs[j - 1]) && BothShaped(objs[i], objs[j - 1]) {
        assert PairAt(objs, p, i, j - 1);
      }
    }
  }

  lemma {:induction false} RowsBeforeExactly(objs: seq<PhysicsObject>, n: nat, p: CollisionPair)
    requires n <= |objs|
    ensures p in RowsBefore(objs, n) <==> exists i, j :: i < n && PairAt(objs, p, i, j)
    decreases n
  {
    if n > 0 {
      var prior, row := RowsBefore(objs, n - 1), RowPairs(objs, n - 1, |objs|);
      assert RowsBefore(objs, n) == prior + row;
      RowsBeforeExactly(objs, n - 1, p);
      RowPairsExactly(objs, n - 1, |objs|, p);
      if p in row {
        var k :| k < |objs| && PairAt(objs, p, n - 1, k);
      }
      if exists i, j :: i < n && PairAt(objs, p, i, j) {
        var i, j :| i < n && PairAt(objs, p, i, j);
        if i == n - 1 {
          assert p in row;
        } else {
          assert p in prior;
        }
      }
    }
  }

  /** The broad phase emits a pair exactly when it is two shaped bodies at indices i < j. */
  lemma ShapedPairsExactly(objs: seq<PhysicsObject>, p: CollisionPair)
    ensures p in ShapedPairs(objs) <==> IndexedPair(objs, p)
  {
    if objs != [] {
      RowsBeforeExactly(objs, |objs| - 1, p);
    }
  }

  lemma {:induction false} RowPairsCount(objs: seq<PhysicsObject>, i: nat, j: nat)
    requires i < |objs| && j <= |objs|
    requires forall k :: 0 <= k < |objs| ==> objs[k].colShape != null
    ensures |RowPairs(objs, i, j)| == if j <= i + 1 then 0 else j - i - 1
    decreases j
  {
    if j > i + 1 {
      RowPairsCount(objs, i, j - 1);
    }
  }

  lemma {:induction false} RowsBeforeCount(objs: seq<PhysicsObject>, n: nat)
    requires n <= |objs|
    requires forall k :: 0 <= k < |objs| ==> objs[k].colShape != null
    ensures 2 * |RowsBefore(objs, n)| == n * (2 * |objs| - n - 1)
    decreases n
  {
    if n > 0 {
      RowsBeforeCount(objs, n - 1);
      RowPairsCount(objs, n - 1, |objs|);
      assert |RowsBefore(objs, n)| == |RowsBefore(objs, n - 1)| + (|objs| - n);
      TriangleStep(|objs|, n);
    }
  }

  /** The row added by the n-th body brings the pair count's double up by 2(len - n). */
  lemma TriangleStep(len: int, n: int)
    ensures n * (2 * len - n - 1) == (n - 1) * (2 * len - (n - 1) - 1) + 2 * (len - n)
  {
  }

  /** With every body shaped, the broad phase emits n(n-1)/2 pairs. */
  lemma AllShapedPairCount(objs: seq<PhysicsObject>)
    requires forall k :: 0 <= k < |objs| ==> objs[k].colShape != null
    ensures 2 * |ShapedPairs(objs)| == |objs| * (|objs| - 1)
  {
    if objs != [] {
      RowsBeforeCount(objs, |objs| - 1);
    }
  }

  /** std::size_t arithmetic: values and results are taken modulo 2^64. */
  const SizeTModulus: int := 0x1_0000_0000_0000_0000

  /** m_PhysicsObjects.size() - 1, computed in std::size_t as the outer loop bound. */
  function SizeMinusOne(size: nat): (r: nat)
    requires size < SizeTModulus
    ensures r < SizeTModulus
  {
    (size - 1) % SizeTModulus
  }

  /**
   * The outer broad-phase bound as written: on an empty list size() - 1 wraps to
   * 2^64 - 1, so the outer loop runs that many empty passes where none were meant; on
   * any other list the bound i < size() - 1 is the same test as i + 1 < size().
   */
  lemma BroadPhaseBoundAsWritten(size: nat, i: nat)
    requires size < SizeTModulus
    ensures size == 0 ==> SizeMinusOne(size) == SizeTModulus - 1
    ensures size > 0 ==> (i < SizeMinusOne(size) <==> i + 1 < size)
  {
  }

  //<---- NARROW PHASE ---->

  /** The two bodies' shapes and poses as the detector sees them. */
  function GeometryOf(p: CollisionPair): PairGeometry
    requires BothShaped(p.objectA, p.objectB)
    reads p.objectA`colShape, p.objectA`position, p.objectA`orientation
    reads p.objectB`colShape, p.objectB`position, p.objectB`orientation
  {
    PairGeometry(p.objectA.colShape, Pose(p.objectA.position, p.objectA.orientation),
                 p.objectB.colShape, Pose(p.objectB.position, p.objectB.orientation))
  }

  /** The SAT verdict on a pair given afresh to the detector: no candidate axis separates the shapes. */
  function Collides(g: PairGeometry, num: Numerics): bool {
    AllOverlap(AxisResults(g, CandidateAxes(g, [], num)))
  }

  /**
   * The contacts a pair's new manifold receives: the SAT test keeps the axis data of
   * greatest penetration, starting from the detector's previous data with its
   * penetration reset to -FLT_MAX, and the faces of both shapes around that normal are
   * clipped into contacts, each added in turn to an empty manifold.
   */
  function NewManifoldContacts(p: CollisionPair, prior: CollisionData, num: Numerics): seq<ContactPoint>
    requires BothShaped(p.objectA, p.objectB)
    reads p.objectA`colShape, p.objectA`position, p.objectA`orientation
    reads p.objectB`colShape, p.objectB`position, p.objectB`orientation
  {
    var g := GeometryOf(p);
    var best := Strongest(prior.(penetration := -FltMax), AxisResults(g, CandidateAxes(g, [], num)));
    var face1 := FaceOf(g.shape1, g.pose1, best.normal);
    var face2 := FaceOf(g.shape2, g.pose2, Neg(best.normal));
    AddContacts(p.objectA.position, p.objectB.position, [], ContactArgsFor(face1, face2, best, num))
  }

  /** Both bodies' collision callbacks, each fired with (objectA, objectB), let the pair through. */
  predicate CallbacksAccept(p: CollisionPair)
    reads p.objectA, p.objectB
  {
    p.objectA.FireOnCollisionEvent(p.objectA, p.objectB) && p.objectB.FireOnCollisionEvent(p.objectA, p.objectB)
  }

  /** A pair the narrow phase builds a manifold for: both shaped, colliding, and accepted by both callbacks. */
  predicate Resolved(p: CollisionPair, num: Numerics)
    reads p.objectA, p.objectB
  {
    BothShaped(p.objectA, p.objectB) && Collides(GeometryOf(p), num) && CallbacksAccept(p)
  }

  /** The pairs, in order, that the narrow phase builds manifolds for. */
  function ResolvedPairs(pairs: seq<CollisionPair>, num: Numerics): (rs: seq<CollisionPair>)
    reads set p | p in pairs :: p.objectA, set p | p in pairs :: p.objectB
    decreases |pairs|
  {
    if pairs == [] then []
    else
      var last := pairs[|pairs| - 1];
      ResolvedPairs(pairs[..|pairs| - 1], num) + (if Resolved(last, num) then [last] else [])
  }

  /** The narrow phase keeps, in order, only pairs of the broad phase that it resolves. */
  lemma {:induction false} ResolvedPairsSound(pairs: seq<CollisionPair>, num: Numerics)
    ensures |ResolvedPairs(pairs, num)| <= |pairs|
    ensures forall r :: r in ResolvedPairs(pairs, num) ==> r in pairs && Resolved(r, num)
    decreases |pairs|
  {
    if pairs != [] {
      ResolvedPairsSound(pairs[..|pairs| - 1], num);
    }
  }

  /** Each pair's narrow-phase verdict, in order. */
  ghost function Verdicts(pairs: seq<CollisionPair>, num: Numerics): (vs: seq<bool>)
    reads set p | p in pairs :: p.objectA, set p | p in pairs :: p.objectB
    ensures |vs| == |pairs|
    ensures forall k :: 0 <= k < |pairs| ==> vs[k] == Resolved(pairs[k], num)
  {
    seq(|pairs|, k requires 0 <= k < |pairs| reads set p | p in pairs :: p.objectA, set p | p in pairs :: p.objectB
                 => Resolved(pairs[k], num))
  }

  /** The first n pairs whose verdict is true, in order: ResolvedPairs with each verdict taken beforehand. */
  function KeptPairs(pairs: seq<CollisionPair>, verdicts: seq<bool>, n: nat): seq<CollisionPair>
    requires |verdicts| == |pairs| && n <= |pairs|
  {
    if n == 0 then []
    else KeptPairs(pairs, verdicts, n - 1) + (if verdicts[n - 1] then [pairs[n - 1]] else [])
  }

  /** Given each pair's verdict, the narrow phase keeps exactly the pairs with a true verdict. */
  lemma {:induction false} ResolvedPairsKept(pairs: seq<CollisionPair>, verdicts: seq<bool>, num: Numerics, n: nat)
    requires |verdicts| == |pairs| && n <= |pairs|
    requires forall k :: 0 <= k < |pairs| ==> verdicts[k] == Resolved(pairs[k], num)
    ensures ResolvedPairs(pairs[..n], num) == KeptPairs(pairs, verdicts, n)
  {
    if n > 0 {
      ResolvedPairsKept(pairs, verdicts, num, n - 1);
      assert pairs[..n][..n - 1] == pairs[..n - 1];
    }
  }

  /** The body pairs of a list of manifolds. */
  function ManifoldPairs(ms: seq<Manifold>): (ps: seq<CollisionPair>)
    requires forall k :: 0 <= k < |ms| ==> ms[k].Initiated()
    reads ms`nodeA, ms`nodeB
    ensures |ps| == |ms|
    decreases |ms|
  {
    if ms == [] then []
    else
      var last := ms[|ms| - 1];
      assert last.Initiated();
      ManifoldPairs(ms[..|ms| - 1]) + [CollisionPair(last.nodeA, last.nodeB)]
  }

  /** The manifolds' bodies are, one by one, those of the pairs. */
  ghost predicate Tracks(ms: seq<Manifold>, ps: seq<CollisionPair>)
    reads ms`nodeA, ms`nodeB
  {
    |ms| == |ps| && forall k :: 0 <= k < |ms| ==> ms[k].nodeA == ps[k].objectA && ms[k].nodeB == ps[k].objectB
  }

  /** Manifolds whose bodies are, one by one, those of a list of pairs have exactly those pairs. */
  lemma {:induction false} ManifoldPairsMatch(ms: seq<Manifold>, ps: seq<CollisionPair>)
    requires Tracks(ms, ps)
    ensures forall k :: 0 <= k < |ms| ==> ms[k].Initiated()
    ensures ManifoldPairs(ms) == ps
    decreases |ms|
  {
    if ms != [] {
      var n := |ms| - 1;
      ManifoldPairsMatch(ms[..n], ps[..n]);
    }
  }

  //<---- REMOVING A BODY ---->

  /** The list with the first occurrence of obj erased; unchanged when obj is absent. */
  function WithoutFirst(objs: seq<PhysicsObject>, obj: PhysicsObject): seq<PhysicsObject>
    decreases |objs|
  {
    if objs == [] then []
    else if objs[0] == obj then objs[1..]
    else [objs[0]] + WithoutFirst(objs[1..], obj)
  }

  /** Erasing the first occurrence removes exactly one copy of obj, or nothing when it is absent. */
  lemma {:induction false} WithoutFirstRemovesOne(objs: seq<PhysicsObject>, obj: PhysicsObject)
    ensures obj in objs ==> multiset(WithoutFirst(objs, obj)) == multiset(objs) - multiset{obj}
    ensures obj !in objs ==> WithoutFirst(objs, obj) == objs
    decreases |objs|
  {
    if objs != [] {
      WithoutFirstRemovesOne(objs[1..], obj);
      assert objs == [objs[0]] + objs[1..];
      if objs[0] != obj && obj in objs {
        assert obj in objs[1..];
      }
    }
  }

  /** Erasing at the first index where obj occurs. */
  lemma {:induction false} WithoutFirstAt(objs: seq<PhysicsObject>, obj: PhysicsObject, k: nat)
    requires k < |objs| && objs[k] == obj && obj !in objs[..k]
    ensures WithoutFirst(objs, obj) == objs[..k] + objs[k + 1..]
    decreases k
  {
    if k > 0 {
      assert objs[1..][..k - 1] == objs[1..k];
      WithoutFirstAt(objs[1..], obj, k - 1);
      assert objs[..k] == [objs[0]] + objs[1..][..k - 1];
      assert objs[1..][k..] == objs[k + 1..];
    }
  }

  //<---- CATCH-UP STEPS ---->

  /**
   * How many world steps Update takes from an accumulator: one per whole timestep,
   * at most budget of them.
   */
  function CatchUpSteps(accum: real, timestep: real, budget: nat): (n: nat)
    ensures n <= budget
    decreases budget
  {
    if budget == 0 || accum < timestep then 0
    else 1 + CatchUpSteps(accum - timestep, timestep, budget - 1)
  }

  /**
   * After the steps the accumulator has lost one timestep per step; every step was
   * taken with at least a whole timestep left; and unless the budget ran out, less
   * than one timestep is left over.
   */
  lemma {:induction false} CatchUpLeftover(accum: real, timestep: real, budget: nat)
    ensures var n := CatchUpSteps(accum, timestep, budget);
            && (n < budget ==> accum - n as real * timestep < timestep)
            && (n > 0 ==> accum - (n - 1) as real * timestep >= timestep)
    decreases budget
  {
    if budget > 0 && accum >= timestep {
      CatchUpLeftover(accum - timestep, timestep, budget - 1);
    }
  }

  /** With a positive timestep, an accumulator holding k < budget whole steps takes exactly k. */
  lemma {:induction false} CatchUpTakesWholeSteps(accum: real, timestep: real, budget: nat, k: nat)
    requires timestep > 0.0 && k <= budget
    requires k as real * timestep <= accum < (k + 1) as real * timestep
    ensures CatchUpSteps(accum, timestep, budget) == k
    decreases budget
  {
    if k > 0 {
      CatchUpTakesWholeSteps(accum - timestep, timestep, budget - 1, k - 1);
    }
  }

  /** What Update's loop leaves in the accumulator: one timestep less per step taken. */
  function CatchUpLeft(accum: real, timestep: real, budget: nat): real
    decreases budget
  {
    if budget == 0 || accum < timestep then accum
    else CatchUpLeft(accum - timestep, timestep, budget - 1)
  }

  /** The accumulator left over is the one given, less a timestep for every step taken. */
  lemma {:induction false} CatchUpLeftSpent(accum: real, timestep: real, budget: nat)
    ensures CatchUpLeft(accum, timestep, budget) == accum - CatchUpSteps(accum, timestep, budget) as real * timestep
    decreases budget
  {
    if budget > 0 && accum >= timestep {
      CatchUpLeftSpent(accum - timestep, timestep, budget - 1);
    }
  }

  //<---- BODY INTEGRATION ---->

  /** The state one integration step changes. */
  datatype Motion = Motion(linearVelocity: Vector3, position: Vector3, angularVelocity: Vector3, orientation: Quaternion)

  /**
   * The linear velocity after one semi-implicit Euler step: force times inverse mass
   * times the timestep, gravity only for a body of finite mass, then damping.
   */
  function NextLinearVelocity(v: Vector3, force: Vector3, invMass: real, gravity: Vector3, dt: real, damping: real): Vector3 {
    var pushed := Add(v, Scale(Scale(force, invMass), dt));
    var fallen := if invMass > 0.0 then Add(pushed, Scale(gravity, dt)) else pushed;
    Scale(fallen, damping)
  }

  /** The angular velocity after one step: inverse inertia times torque times the timestep, then damping. */
  function NextAngularVelocity(w: Vector3, torque: Vector3, invInertia: Matrix3, dt: real, damping: real): Vector3 {
    Scale(Add(w, Scale(MulVec(invInertia, torque), dt)), damping)
  }

  /**
   * PhysicsEngine::UpdatePhysicsObject on the moving state: the new velocities first,
   * then the position moved by the new linear velocity and the orientation turned by
   * half the new angular velocity times the timestep and renormalised.
   */
  function Integrate(m: Motion, force: Vector3, invMass: real, torque: Vector3, invInertia: Matrix3,
                     gravity: Vector3, dt: real, damping: real, num: Numerics): (r: Motion)
    ensures r.linearVelocity == NextLinearVelocity(m.linearVelocity, force, invMass, gravity, dt, damping)
    ensures r.position == Add(m.position, Scale(r.linearVelocity, dt))
    ensures r.angularVelocity == NextAngularVelocity(m.angularVelocity, torque, invInertia, dt, damping)
    ensures r.orientation == num.integrateOrientation(m.orientation, Scale(Scale(r.angularVelocity, dt), 0.5))
  {
    var v := NextLinearVelocity(m.linearVelocity, force, invMass, gravity, dt, damping);
    var w := NextAngularVelocity(m.angularVelocity, torque, invInertia, dt, damping);
    Motion(v, Add(m.position, Scale(v, dt)), w, num.integrateOrientation(m.orientation, Scale(Scale(w, dt), 0.5)))
  }

  /** A body of infinite mass (inverse mass 0) is not pulled by gravity, whatever the gravity. */
  lemma StaticBodyIgnoresGravity(v: Vector3, force: Vector3, gravity1: Vector3, gravity2: Vector3, dt: real, damping: real)
    ensures NextLinearVelocity(v, force, 0.0, gravity1, dt, damping) == NextLinearVelocity(v, force, 0.0, gravity2, dt, damping)
  {
  }

  /** ... and a resting body of infinite mass stays where it is, whatever force or gravity acts on it. */
  lemma RestingStaticBodyStaysPut(m: Motion, force: Vector3, torque: Vector3, invInertia: Matrix3,
                                  gravity: Vector3, dt: real, damping: real, num: Numerics)
    requires m.linearVelocity == Zero
    ensures Integrate(m, force, 0.0, torque, invInertia, gravity, dt, damping, num).linearVelocity == Zero
    ensures Integrate(m, force, 0.0, torque, invInertia, gravity, dt, damping, num).position == m.position
  {
    ScaledByZero(force, dt);
  }

  lemma ScaledByZero(force: Vector3, dt: real)
    ensures Scale(Scale(force, 0.0), dt) == Zero
  {
  }

  /** For a body of finite mass, gravity adds exactly gravity times timestep times damping to the velocity. */
  lemma GravityContribution(v: Vector3, force: Vector3, invMass: real, gravity: Vector3, dt: real, damping: real)
    requires invMass > 0.0
    ensures NextLinearVelocity(v, force, invMass, gravity, dt, damping) ==
              Add(NextLinearVelocity(v, force, invMass, Zero, dt, damping), Scale(gravity, dt * damping))
  {
    var pushed := Add(v, Scale(Scale(force, invMass), dt));
    DampedSum(pushed, gravity, dt, damping);
    DampedSum(pushed, Zero, dt, damping);
  }

  lemma DampedSum(a: Vector3, g: Vector3, dt: real, damping: real)
    ensures Scale(Add(a, Scale(g, dt)), damping) == Add(Scale(a, damping), Scale(g, dt * damping))
  {
    assert (a.x + g.x * dt) * damping == a.x * damping + g.x * (dt * damping);
    assert (a.y + g.y * dt) * damping == a.y * damping + g.y * (dt * damping);
    assert (a.z + g.z * dt) * damping == a.z * damping + g.z * (dt * damping);
  }

  //<---- THE SOLVER'S ORDER ---->

  /** The pre-steps: every manifold, then every constraint. */
  function PreSteps(manifolds: nat, constraints: nat): (calls: seq<SolverCall>)
    ensures |calls| == manifolds + constraints
    ensures forall k :: 0 <= k < |calls| ==> calls[k].IsPreStep()
  {
    seq(manifolds, k requires 0 <= k => ManifoldPreStep(k)) + seq(constraints, k requires 0 <= k => ConstraintPreStep(k))
  }

  /** One impulse round: every manifold, then every constraint. */
  function ImpulseRound(round: nat, manifolds: nat, constraints: nat): (calls: seq<SolverCall>)
    ensures |calls| == manifolds + constraints
    ensures forall k :: 0 <= k < |calls| ==> !calls[k].IsPreStep() && calls[k].round == round
  {
    seq(manifolds, k requires 0 <= k => ManifoldImpulse(round, k)) + seq(constraints, k requires 0 <= k => ConstraintImpulse(round, k))
  }

  /** The first n impulse rounds, in order. */
  function ImpulseRounds(n: nat, manifolds: nat, constraints: nat): (calls: seq<SolverCall>)
    ensures |calls| == n * (manifolds + constraints)
    ensures forall k :: 0 <= k < |calls| ==> !calls[k].IsPreStep() && calls[k].round < n
  {
    if n == 0 then [] else ImpulseRounds(n - 1, manifolds, constraints) + ImpulseRound(n - 1, manifolds, constraints)
  }

  /** PhysicsEngine::SolveConstraints: all pre-steps, then the impulse rounds. */
  function SolverSchedule(manifolds: nat, constraints: nat, iterations: nat): seq<SolverCall> {
    PreSteps(manifolds, constraints) + ImpulseRounds(iterations, manifolds, constraints)
  }

  /**
   * Every pre-step comes before every impulse, each manifold and each constraint is
   * pre-stepped once, and each receives one impulse per iteration.
   */
  lemma SolverScheduleOrder(manifolds: nat, constraints: nat, iterations: nat)
    ensures var s := SolverSchedule(manifolds, constraints, iterations);
            && |s| == (manifolds + constraints) * (iterations + 1)
            && (forall a, b :: 0 <= a < b < |s| && s[b].IsPreStep() ==> s[a].IsPreStep())
            && (forall k :: 0 <= k < manifolds ==> s[k] == ManifoldPreStep(k))
            && (forall k :: 0 <= k < constraints ==> s[manifolds + k] == ConstraintPreStep(k))
  {
    var s := SolverSchedule(manifolds, constraints, iterations);
    var pre := PreSteps(manifolds, constraints);
    forall a, b | 0 <= a < b < |s| && s[b].IsPreStep()
      ensures s[a].IsPreStep()
    {
      assert b < |pre|;
    }
  }

  //<---- WHERE THE MANIFOLDS' BODIES COME FROM ---->

  /** Every broad-phase pair is made of two of the listed bodies. */
  lemma ShapedPairsMembers(objs: seq<PhysicsObject>)
    ensures forall p :: p in ShapedPairs(objs) ==> p.objectA in objs && p.objectB in objs
  {
    forall p | p in ShapedPairs(objs)
      ensures p.objectA in objs && p.objectB in objs
    {
      ShapedPairsExactly(objs, p);
    }
  }

  /** The k-th body pair of a list of manifolds is the k-th manifold's pair. */
  lemma {:induction false} ManifoldPairsAt(ms: seq<Manifold>, k: nat)
    requires forall i :: 0 <= i < |ms| ==> ms[i].Initiated()
    requires k < |ms|
    ensures ManifoldPairs(ms)[k] == CollisionPair(ms[k].nodeA, ms[k].nodeB)
    decreases |ms|
  {
    if k < |ms| - 1 {
      ManifoldPairsAt(ms[..|ms| - 1], k);
    }
  }

  /** Manifolds whose body pairs are all drawn from objs join only bodies of objs. */
  lemma ManifoldNodesAmong(ms: seq<Manifold>, pairs: seq<CollisionPair>, objs: seq<PhysicsObject>)
    requires forall i :: 0 <= i < |ms| ==> ms[i].Initiated()
    requires ManifoldPairs(ms) == pairs
    requires forall p :: p in pairs ==> p.objectA in objs && p.objectB in objs
    ensures forall m :: m in ms ==> m.nodeA in objs && m.nodeB in objs
  {
    forall m | m in ms
      ensures m.nodeA in objs && m.nodeB in objs
    {
      var k :| 0 <= k < |ms| && ms[k] == m;
      ManifoldPairsAt(ms, k);
      assert pairs[k] in pairs;
    }
  }

  //<---- THE ENGINE ---->

  /** The moving state of a body. */
  function MotionOf(o: PhysicsObject): Motion
    reads o`linearVelocity, o`position, o`angularVelocity, o`orientation
  {
    Motion(o.linearVelocity, o.position, o.angularVelocity, o.orientation)
  }

  /** No body is listed twice. */
  predicate Distinct(objs: seq<PhysicsObject>) {
    forall a, b :: 0 <= a < b < |objs| ==> objs[a] != objs[b]
  }

  /** What the solver needs of a body: a consistent cache and a physical mass and inertia. */
  ghost predicate BodyReady(o: PhysicsObject)
    reads o`wsTransformInvalidated, o`wsTransform, o`position, o`orientation, o`invMass, o`invInertia
  {
    o.Valid() && 0.0 <= o.invMass && PositiveSemiDefinite(o.invInertia)
  }

  /** Every listed body is ready for the solver. */
  ghost predicate AllReady(objs: seq<PhysicsObject>)
    reads objs`wsTransformInvalidated, objs`wsTransform, objs`position, objs`orientation, objs`invMass, objs`invInertia
  {
    forall o :: o in objs ==> BodyReady(o)
  }

  /** Every manifold is set up between two of the listed bodies. */
  ghost predicate Among(ms: seq<Manifold>, objs: seq<PhysicsObject>)
    reads ms`nodeA, ms`nodeB
  {
    forall m :: m in ms ==> m.Initiated() && m.nodeA in objs && m.nodeB in objs
  }

  class PhysicsEngine {
    /** SOLVER_ITERATIONS: the number of impulse rounds per step (its value is not part of this model). */
    const solverIterations: nat

    var isPaused: bool
    var updateTimestep: real
    var updateAccum: real
    var gravity: Vector3
    var dampingFactor: real

    var physicsObjects: seq<PhysicsObject>
    var constraints: seq<ConstraintHandle>
    var manifolds: seq<Manifold>
    var broadphasePairs: seq<CollisionPair>

    /** The calls SolveConstraints has made so far, in order. */
    ghost var solverLog: seq<SolverCall>

    /**
     * The engine's invariant: a positive timestep, every body ready for the solver, and
     * every manifold set up between two of the engine's bodies.
     */
    ghost predicate Valid()
      reads this, physicsObjects`wsTransformInvalidated, physicsObjects`wsTransform, physicsObjects`position
      reads physicsObjects`orientation, physicsObjects`invMass, physicsObjects`invInertia
      reads manifolds`nodeA, manifolds`nodeB
    {
      && updateTimestep > 0.0
      && AllReady(physicsObjects)
      && Among(manifolds, physicsObjects)
    }

    /** PhysicsEngine(): SetDefaults, with no bodies, constraints or manifolds. */
    constructor (solverIterations: nat)
      ensures Valid()
      ensures this.solverIterations == solverIterations
      ensures !isPaused && updateTimestep == DefaultTimestep && updateAccum == 0.0
      ensures gravity == DefaultGravity && dampingFactor == DefaultDamping
      ensures physicsObjects == [] && constraints == [] && manifolds == [] && broadphasePairs == []
    {
      this.solverIterations := solverIterations;
      isPaused := false;
      updateTimestep := 1.0 / 60.0;
      updateAccum := 0.0;
      gravity := Vector3(0.0, -9.81, 0.0);
      dampingFactor := 0.9999;
      physicsObjects := [];
      constraints := [];
      manifolds := [];
      broadphasePairs := [];
      solverLog := [];
    }

    /** AddPhysicsObject: appends the body. */
    method AddPhysicsObject(obj: PhysicsObject)
      modifies this`physicsObjects
      ensures physicsObjects == old(physicsObjects) + [obj]
    {
      physicsObjects := physicsObjects + [obj];
    }

    /** RemovePhysicsObject: erases the first occurrence of the body, if there is one. */
    method RemovePhysicsObject(obj: PhysicsObject)
      modifies this`physicsObjects
      ensures physicsObjects == WithoutFirst(old(physicsObjects), obj)
    {
      var k := 0;
      while k < |physicsObjects| && physicsObjects[k] != obj
        invariant 0 <= k <= |physicsObjects|
        invariant obj !in physicsObjects[..k]
      {
        assert physicsObjects[..k + 1] == physicsObjects[..k] + [physicsObjects[k]];
        k := k + 1;
      }
      if k < |physicsObjects| {
        WithoutFirstAt(physicsObjects, obj, k);
        physicsObjects := physicsObjects[..k] + physicsObjects[k + 1..];
      } else {
        assert physicsObjects[..k] == physicsObjects;
        WithoutFirstRemovesOne(physicsObjects, obj);
      }
    }

    /** RemoveAllPhysicsObjects: no bodies, constraints or manifolds remain. */
    method RemoveAllPhysicsObjects()
      modifies this`physicsObjects, this`constraints, this`manifolds
      ensures physicsObjects == [] && constraints == [] && manifolds == []
    {
      physicsObjects := [];
      constraints := [];
      manifolds := [];
    }

    /**
     * NarrowPhaseCollisions: one detector for all pairs; each pair is given to it
     * afresh, and a pair that collides gets both callbacks fired and, when both agree,
     * a new manifold between its bodies, filled by GenContactPoints.
     */
    method NarrowPhaseCollisions(num: Numerics)
      modifies this`manifolds
      ensures |old(manifolds)| <= |manifolds| && manifolds[..|old(manifolds)|] == old(manifolds)
      ensures forall k :: |old(manifolds)| <= k < |manifolds| ==> fresh(manifolds[k]) && manifolds[k].Initiated()
      ensures ManifoldPairs(manifolds[|old(manifolds)|..]) == old(ResolvedPairs(broadphasePairs, num))
    {
      ghost var start := manifolds;
      ghost var built: seq<Manifold> := [];
      var pairs := broadphasePairs;
      ghost var verdicts := Verdicts(pairs, num);
      ResolvedPairsKept(pairs, verdicts, num, |pairs|);
      assert pairs[..|pairs|] == pairs;
      if |pairs| > 0 {
        var colDetect := new CollisionDetectionSAT();
        var i := 0;
        while i < |pairs|
          invariant 0 <= i <= |pairs|
          invariant manifolds == start + built
          invariant forall k :: 0 <= k < |built| ==> fresh(built[k])
          invariant Tracks(built, KeptPairs(pairs, verdicts, i))
          invariant fresh(colDetect)
        {
          var manifold;
          manifold, built := NarrowPhaseStep(colDetect, pairs, i, num, verdicts, start, built);
          i := i + 1;
        }
      }
      ManifoldPairsMatch(built, KeptPairs(pairs, verdicts, |pairs|));
      assert manifolds[|start|..] == built;
    }

    /**
     * The body of the narrow-phase loop for pair i: the manifold built for it, if
     * any, is appended to the engine's list, and the manifolds built so far still
     * follow, one by one, the pairs resolved so far.
     */
    method NarrowPhaseStep(colDetect: CollisionDetectionSAT, pairs: seq<CollisionPair>, i: nat, num: Numerics,
                           ghost verdicts: seq<bool>, ghost start: seq<Manifold>, ghost built: seq<Manifold>)
      returns (manifold: Manifold?, ghost built': seq<Manifold>)
      requires |verdicts| == |pairs| && i < |pairs|
      requires verdicts[i] == Resolved(pairs[i], num)
      requires manifolds == start + built
      requires Tracks(built, KeptPairs(pairs, verdicts, i))
      modifies this`manifolds, colDetect
      ensures built' == built + (if manifold != null then [manifold] else [])
      ensures manifold != null ==> fresh(manifold)
      ensures manifolds == start + built'
      ensures Tracks(built', KeptPairs(pairs, verdicts, i + 1))
    {
      ghost var kept := KeptPairs(pairs, verdicts, i);
      manifold := NarrowPhasePair(colDetect, pairs[i], num);
      assert Tracks(built, kept);
      assert KeptPairs(pairs, verdicts, i + 1) == kept + (if manifold != null then [pairs[i]] else []);
      built' := built;
      if manifold != null {
        manifolds := manifolds + [manifold];
        built' := built + [manifold];
      }
    }

    /**
     * One pass of the narrow-phase loop: the detector is given the pair afresh; when
     * the pair collides both callbacks are fired, and when both agree the new manifold
     * between the pair's bodies is built and filled. Returns that manifold, or null.
     */
    method NarrowPhasePair(colDetect: CollisionDetectionSAT, cp: CollisionPair, num: Numerics) returns (manifold: Manifold?)
      modifies colDetect
      ensures manifold != null <==> old(Resolved(cp, num))
      ensures manifold != null ==> fresh(manifold) && manifold.nodeA == cp.objectA && manifold.nodeB == cp.objectB
      ensures manifold != null ==> manifold.contacts == old(NewManifoldContacts(cp, colDetect.bestColData, num))
    {
      manifold := null;
      ghost var expected := if BothShaped(cp.objectA, cp.objectB) then NewManifoldContacts(cp, colDetect.bestColData, num) else [];
      colDetect.BeginNewPair(cp.objectA, cp.objectB, cp.objectA.GetCollisionShape(), cp.objectB.GetCollisionShape());
      var colliding, colData := colDetect.AreColliding(true, num);
      if colliding {
        var okA := cp.objectA.FireOnCollisionEvent(cp.objectA, cp.objectB);
        var okB := cp.objectB.FireOnCollisionEvent(cp.objectA, cp.objectB);
        if okA && okB {
          manifold := new Manifold();
          manifold.Initiate(cp.objectA, cp.objectB);
          colDetect.GenContactPoints(manifold, num);
          assert manifold.contacts == expected;
        }
      }
    }

    /**
     * BroadPhaseCollisions: every two shaped bodies i < j, in index order. The outer
     * bound is i + 1 < size(), the test size() - 1 meant (see BroadPhaseBoundAsWritten).
     */
    method BroadPhaseCollisions()
      modifies this`broadphasePairs
      ensures broadphasePairs == ShapedPairs(physicsObjects)
    {
      broadphasePairs := [];
      var i := 0;
      while i + 1 < |physicsObjects|
        invariant 0 <= i <= |physicsObjects|
        invariant physicsObjects != [] ==> i <= |physicsObjects| - 1
        invariant broadphasePairs == RowsBefore(physicsObjects, i)
      {
        ghost var done := broadphasePairs;
        var j := i + 1;
        while j < |physicsObjects|
          invariant i + 1 <= j <= |physicsObjects|
          invariant broadphasePairs == done + RowPairs(physicsObjects, i, j)
        {
          var objA := physicsObjects[i];
          var objB := physicsObjects[j];
          if objA.GetCollisionShape() != null && objB.GetCollisionShape() != null {
            broadphasePairs := broadphasePairs + [CollisionPair(objA, objB)];
          }
          j := j + 1;
        }
        i := i + 1;
      }
    }

    /**
     * UpdatePhysicsObject: one semi-implicit Euler step of the body's motion with the
     * engine's timestep, gravity and damping, after which its cached world transform
     * is flagged invalid.
     */
    method UpdatePhysicsObject(obj: PhysicsObject, num: Numerics)
      modifies obj`linearVelocity, obj`position, obj`angularVelocity, obj`orientation, obj`wsTransformInvalidated
      ensures MotionOf(obj) == Integrate(old(MotionOf(obj)), obj.force, obj.invMass, obj.torque, obj.invInertia,
                                         gravity, updateTimestep, dampingFactor, num)
      ensures obj.wsTransformInvalidated && obj.Valid()
    {
      obj.linearVelocity := Add(obj.linearVelocity, Scale(Scale(obj.force, obj.invMass), updateTimestep));
      if obj.invMass > 0.0 {
        obj.linearVelocity := Add(obj.linearVelocity, Scale(gravity, updateTimestep));
      }
      obj.linearVelocity := Scale(obj.linearVelocity, dampingFactor);
      obj.position := Add(obj.position, Scale(obj.linearVelocity, updateTimestep));

      var angularAccel := MulVec(obj.invInertia, obj.torque);
      obj.angularVelocity := Add(obj.angularVelocity, Scale(angularAccel, updateTimestep));
      obj.angularVelocity := Scale(obj.angularVelocity, dampingFactor);

      obj.orientation := num.integrateOrientation(obj.orientation, Scale(Scale(obj.angularVelocity, updateTimestep), 0.5));

      obj.wsTransformInvalidated := true;
    }

    /**
     * UpdatePhysicsObjects: every listed body is stepped, in order. When no body is
     * listed twice, each one's motion is exactly one Integrate step.
     */
    method UpdatePhysicsObjects(num: Numerics)
      requires Valid()
      modifies physicsObjects`linearVelocity, physicsObjects`position, physicsObjects`angularVelocity
      modifies physicsObjects`orientation, physicsObjects`wsTransformInvalidated
      ensures Valid()
      ensures forall o :: o in physicsObjects ==> o.wsTransformInvalidated && o.Valid()
      ensures Distinct(physicsObjects) ==>
                forall k :: 0 <= k < |physicsObjects| ==>
                  MotionOf(physicsObjects[k]) ==
                    Integrate(old(MotionOf(physicsObjects[k])), physicsObjects[k].force, physicsObjects[k].invMass,
                              physicsObjects[k].torque, physicsObjects[k].invInertia,
                              gravity, updateTimestep, dampingFactor, num)
    {
      var objs := physicsObjects;
      var i := 0;
      while i < |objs|
        invariant 0 <= i <= |objs|
        invariant forall k :: 0 <= k < i ==> objs[k].wsTransformInvalidated && objs[k].Valid()
        invariant Distinct(objs) ==>
                    forall k :: 0 <= k < i ==>
                      MotionOf(objs[k]) ==
                        Integrate(old(MotionOf(objs[k])), objs[k].force, objs[k].invMass, objs[k].torque,
                                  objs[k].invInertia, gravity, updateTimestep, dampingFactor, num)
        invariant Distinct(objs) ==> forall k :: i <= k < |objs| ==> MotionOf(objs[k]) == old(MotionOf(objs[k]))
      {
        UpdatePhysicsObject(objs[i], num);
        i := i + 1;
      }
    }

    /** Every manifold's PreSolverStep, in order, each logged. */
    method PreStepManifolds(num: Numerics)
      requires Valid()
      modifies set m | m in manifolds :: m`contacts
      modifies this`solverLog
      ensures Valid()
      ensures solverLog == old(solverLog) + seq(|manifolds|, k requires 0 <= k => ManifoldPreStep(k))
      ensures forall m :: m in manifolds ==> Reset(old(m.contacts), m.contacts)
    {
      var i := 0;
      while i < |manifolds|
        invariant 0 <= i <= |manifolds|
        invariant Valid()
        invariant solverLog == old(solverLog) + seq(i, k requires 0 <= k => ManifoldPreStep(k))
        invariant forall m :: m in manifolds ==>
                    if m in manifolds[..i] then Reset(old(m.contacts), m.contacts) else m.contacts == old(m.contacts)
      {
        var m := manifolds[i];
        assert m in manifolds;
        ghost var before := m.contacts;
        m.PreSolverStep(updateTimestep, num);
        if m in manifolds[..i] {
          ResetChain(old(m.contacts), before, m.contacts);
        }
        assert manifolds[..i + 1] == manifolds[..i] + [m];
        solverLog := solverLog + [ManifoldPreStep(i)];
        assert seq(i + 1, k requires 0 <= k => ManifoldPreStep(k)) == seq(i, k requires 0 <= k => ManifoldPreStep(k)) + [ManifoldPreStep(i)];
        i := i + 1;
      }
    }

    /** Every constraint's PreSolverStep, in order (only the log is modelled). */
    method PreStepConstraints()
      modifies this`solverLog
      ensures solverLog == old(solverLog) + seq(|constraints|, k requires 0 <= k => ConstraintPreStep(k))
    {
      var i := 0;
      while i < |constraints|
        invariant 0 <= i <= |constraints|
        invariant solverLog == old(solverLog) + seq(i, k requires 0 <= k => ConstraintPreStep(k))
      {
        solverLog := solverLog + [ConstraintPreStep(i)];
        assert seq(i + 1, k requires 0 <= k => ConstraintPreStep(k)) == seq(i, k requires 0 <= k => ConstraintPreStep(k)) + [ConstraintPreStep(i)];
        i := i + 1;
      }
    }

    /** One solver iteration: every manifold's ApplyImpulse, then every constraint's, in order. */
    method ImpulseIteration(round: nat, num: Numerics)
      requires Valid()
      modifies set m | m in manifolds :: m`contacts
      modifies physicsObjects`linearVelocity, physicsObjects`angularVelocity, this`solverLog
      ensures Valid()
      ensures solverLog == old(solverLog) + ImpulseRound(round, |manifolds|, |constraints|)
      ensures forall m :: m in manifolds ==> AllPushed(old(m.contacts), m.contacts, m.PairFriction(num))
    {
      ImpulseManifolds(round, num);
      ImpulseConstraints(round);
    }

    /** Every manifold's ApplyImpulse for one round, in order, each logged. */
    method ImpulseManifolds(round: nat, num: Numerics)
      requires Valid()
      modifies set m | m in manifolds :: m`contacts
      modifies physicsObjects`linearVelocity, physicsObjects`angularVelocity, this`solverLog
      ensures Valid()
      ensures solverLog == old(solverLog) + seq(|manifolds|, k requires 0 <= k => ManifoldImpulse(round, k))
      ensures forall m :: m in manifolds ==> AllPushed(old(m.contacts), m.contacts, m.PairFriction(num))
    {
      var i := 0;
      while i < |manifolds|
        invariant 0 <= i <= |manifolds|
        invariant Valid()
        invariant solverLog == old(solverLog) + seq(i, k requires 0 <= k => ManifoldImpulse(round, k))
        invariant forall m :: m in manifolds ==> AllPushed(old(m.contacts), m.contacts, m.PairFriction(num))
      {
        assert seq(i + 1, k requires 0 <= k => ManifoldImpulse(round, k)) == seq(i, k requires 0 <= k => ManifoldImpulse(round, k)) + [ManifoldImpulse(round, i)];
        ghost var m := manifolds[i];
        ghost var before := m.contacts;
        ImpulseManifold(i, round, num);
        AllPushedChain(old(m.contacts), before, m.contacts, m.PairFriction(num));
        i := i + 1;
      }
    }

    /** The body of the impulse loop for manifold i: its ApplyImpulse, logged. */
    method ImpulseManifold(i: nat, round: nat, num: Numerics)
      requires Valid() && i < |manifolds|
      modifies {manifolds[i]}`contacts, physicsObjects`linearVelocity, physicsObjects`angularVelocity, this`solverLog
      ensures Valid()
      ensures solverLog == old(solverLog) + [ManifoldImpulse(round, i)]
      ensures AllPushed(old(manifolds[i].contacts), manifolds[i].contacts, manifolds[i].PairFriction(num))
      ensures manifolds[i].SolverReady()
      ensures manifolds[i].SolvedFrom(old(manifolds[i].contacts), old(manifolds[i].Velocities()), updateTimestep, num)
    {
      var m := manifolds[i];
      assert m in manifolds;
      assert BodyReady(m.nodeA) && BodyReady(m.nodeB);
      m.ApplyImpulse(updateTimestep, num);
      solverLog := solverLog + [ManifoldImpulse(round, i)];
    }

    /** Every constraint's ApplyImpulse for one round, in order (only the log is modelled). */
    method ImpulseConstraints(round: nat)
      modifies this`solverLog
      ensures solverLog == old(solverLog) + seq(|constraints|, k requires 0 <= k => ConstraintImpulse(round, k))
    {
      var j := 0;
      while j < |constraints|
        invariant 0 <= j <= |constraints|
        invariant solverLog == old(solverLog) + seq(j, k requires 0 <= k => ConstraintImpulse(round, k))
      {
        solverLog := solverLog + [ConstraintImpulse(round, j)];
        assert seq(j + 1, k requires 0 <= k => ConstraintImpulse(round, k)) == seq(j, k requires 0 <= k => ConstraintImpulse(round, k)) + [ConstraintImpulse(round, j)];
        j := j + 1;
      }
    }

    /**
     * SolveConstraints: all pre-steps (manifolds, then constraints), then
     * solverIterations rounds of impulses; the calls made are exactly SolverSchedule.
     * Every manifold keeps its contacts, in order and in place, and leaves each one
     * settled: pushing, with its restitution term off or above the slop, and inside
     * the friction cone.
     */
    method SolveConstraints(num: Numerics)
      requires Valid()
      modifies set m | m in manifolds :: m`contacts
      modifies physicsObjects`linearVelocity, physicsObjects`angularVelocity, this`solverLog
      ensures Valid()
      ensures solverLog == old(solverLog) + SolverSchedule(|manifolds|, |constraints|, solverIterations)
      ensures forall m :: m in manifolds ==>
                |m.contacts| == |old(m.contacts)|
                && forall k :: 0 <= k < |m.contacts| ==>
                     SameGeometry(old(m.contacts[k]), m.contacts[k]) && Settled(m.contacts[k], m.PairFriction(num))
    {
      ghost var nm, nc := |manifolds|, |constraints|;
      PreStepAll(num);
      ghost var reset := map m | m in manifolds :: m.contacts;
      assert old(solverLog) + SolverSchedule(nm, nc, solverIterations)
             == old(solverLog) + PreSteps(nm, nc) + ImpulseRounds(solverIterations, nm, nc);
      ImpulseRoundsAll(num);
      forall m | m in manifolds
        ensures |m.contacts| == |old(m.contacts)|
        ensures forall k :: 0 <= k < |m.contacts| ==>
                  SameGeometry(old(m.contacts[k]), m.contacts[k]) && Settled(m.contacts[k], m.PairFriction(num))
      {
        ResetThenPushedSettles(old(m.contacts), reset[m], m.contacts, m.PairFriction(num));
      }
    }

    /** The pre-steps of SolveConstraints: every manifold's, then every constraint's. */
    method PreStepAll(num: Numerics)
      requires Valid()
      modifies set m | m in manifolds :: m`contacts
      modifies this`solverLog
      ensures Valid()
      ensures solverLog == old(solverLog) + PreSteps(|manifolds|, |constraints|)
      ensures forall m :: m in manifolds ==> Reset(old(m.contacts), m.contacts)
    {
      PreStepManifolds(num);
      PreStepConstraints();
    }

    /** The iteration loop of SolveConstraints: solverIterations impulse rounds, in order. */
    method ImpulseRoundsAll(num: Numerics)
      requires Valid()
      modifies set m | m in manifolds :: m`contacts
      modifies physicsObjects`linearVelocity, physicsObjects`angularVelocity, this`solverLog
      ensures Valid()
      ensures solverLog == old(solverLog) + ImpulseRounds(solverIterations, |manifolds|, |constraints|)
      ensures forall m :: m in manifolds ==> AllPushed(old(m.contacts), m.contacts, m.PairFriction(num))
    {
      ghost var nm, nc := |manifolds|, |constraints|;
      var i := 0;
      while i < solverIterations
        invariant 0 <= i <= solverIterations
        invariant Valid() && |manifolds| == nm && |constraints| == nc
        invariant solverLog == old(solverLog) + ImpulseRounds(i, nm, nc)
        invariant forall m :: m in manifolds ==> AllPushed(old(m.contacts), m.contacts, m.PairFriction(num))
      {
        ghost var round := map m | m in manifolds :: m.contacts;
        ImpulseIteration(i, num);
        forall m | m in manifolds
          ensures AllPushed(old(m.contacts), m.contacts, m.PairFriction(num))
        {
          AllPushedChain(old(m.contacts), round[m], m.contacts, m.PairFriction(num));
        }
        assert old(solverLog) + ImpulseRounds(i + 1, nm, nc) == old(solverLog) + ImpulseRounds(i, nm, nc) + ImpulseRound(i, nm, nc);
        i := i + 1;
      }
    }

    /**
     * The collision half of UpdatePhysics: the previous manifolds are dropped, the
     * broad phase pairs the shaped bodies, and the narrow phase builds a manifold for
     * each pair it resolves, in order.
     */
    method DetectCollisions(num: Numerics)
      requires Valid()
      modifies this`manifolds, this`broadphasePairs
      ensures Valid()
      ensures broadphasePairs == ShapedPairs(physicsObjects)
      ensures forall m :: m in manifolds ==> fresh(m)
      ensures ManifoldPairs(manifolds) == ResolvedPairs(broadphasePairs, num)
    {
      manifolds := [];
      BroadPhaseCollisions();
      ShapedPairsMembers(physicsObjects);
      ResolvedPairsSound(broadphasePairs, num);
      NarrowPhaseCollisions(num);
      ManifoldNodesAmong(manifolds, ResolvedPairs(broadphasePairs, num), physicsObjects);
    }

    /**
     * UpdatePhysics: collision detection, then the solver runs its schedule over the
     * new manifolds, then every body is integrated.
     */
    method UpdatePhysics(num: Numerics)
      requires Valid()
      modifies this`manifolds, this`broadphasePairs, this`solverLog
      modifies physicsObjects`linearVelocity, physicsObjects`position, physicsObjects`angularVelocity
      modifies physicsObjects`orientation, physicsObjects`wsTransformInvalidated
      ensures Valid()
      ensures forall m :: m in manifolds ==> fresh(m)
      ensures solverLog == old(solverLog) + SolverSchedule(|manifolds|, |constraints|, solverIterations)
      ensures forall m :: m in manifolds ==> m.AllSettled(num)
      ensures forall o :: o in physicsObjects ==> o.wsTransformInvalidated
    {
      DetectAndSolve(num);
      UpdatePhysicsObjects(num);
    }

    /** The first two stages of UpdatePhysics: new manifolds, then the solver over them. */
    method DetectAndSolve(num: Numerics)
      requires Valid()
      modifies this`manifolds, this`broadphasePairs, this`solverLog
      modifies physicsObjects`linearVelocity, physicsObjects`angularVelocity
      ensures Valid()
      ensures forall m :: m in manifolds ==> fresh(m)
      ensures solverLog == old(solverLog) + SolverSchedule(|manifolds|, |constraints|, solverIterations)
      ensures forall m :: m in manifolds ==> m.AllSettled(num)
    {
      DetectCollisions(num);
      SolveConstraints(num);
    }

    /**
     * Update: unless paused, the frame time joins the accumulator and one world step
     * is taken per whole timestep it holds, at most MaxUpdatesPerFrame of them; the
     * result reports that a whole timestep is still left over (the "too slow" error).
     */
    method Update(deltaTime: real, num: Numerics) returns (tooSlow: bool, ghost steps: nat)
      requires Valid()
      modifies this`updateAccum, this`manifolds, this`broadphasePairs, this`solverLog
      modifies physicsObjects`linearVelocity, physicsObjects`position, physicsObjects`angularVelocity
      modifies physicsObjects`orientation, physicsObjects`wsTransformInvalidated
      ensures Valid()
      ensures isPaused ==> !tooSlow && steps == 0 && updateAccum == old(updateAccum) && solverLog == old(solverLog)
      ensures isPaused ==> manifolds == old(manifolds) && broadphasePairs == old(broadphasePairs)
      ensures isPaused ==> forall o :: o in physicsObjects ==>
                MotionOf(o) == old(MotionOf(o)) && o.wsTransformInvalidated == old(o.wsTransformInvalidated)
      ensures steps > 0 ==> forall o :: o in physicsObjects ==> o.wsTransformInvalidated
      ensures !isPaused ==> steps == CatchUpSteps(old(updateAccum) + deltaTime, updateTimestep, MaxUpdatesPerFrame)
      ensures !isPaused ==> updateAccum == CatchUpLeft(old(updateAccum) + deltaTime, updateTimestep, MaxUpdatesPerFrame)
      ensures tooSlow <==> !isPaused && updateAccum >= updateTimestep
    {
      tooSlow := false;
      steps := 0;
      if !isPaused {
        updateAccum := updateAccum + deltaTime;
        steps := CatchUp(num);
        if updateAccum >= updateTimestep {
          tooSlow := true;
        }
      }
    }

    /**
     * The loop of Update: while a whole timestep is in the accumulator and fewer than
     * MaxUpdatesPerFrame steps were taken, a timestep is taken out and the world is
     * stepped (unless paused meanwhile).
     */
    method CatchUp(num: Numerics) returns (steps: nat)
      requires Valid()
      modifies this`updateAccum, this`manifolds, this`broadphasePairs, this`solverLog
      modifies physicsObjects`linearVelocity, physicsObjects`position, physicsObjects`angularVelocity
      modifies physicsObjects`orientation, physicsObjects`wsTransformInvalidated
      ensures Valid()
      ensures steps == CatchUpSteps(old(updateAccum), updateTimestep, MaxUpdatesPerFrame)
      ensures updateAccum == CatchUpLeft(old(updateAccum), updateTimestep, MaxUpdatesPerFrame)
      ensures steps > 0 && !isPaused ==> forall o :: o in physicsObjects ==> o.wsTransformInvalidated
    {
      ghost var total, ts := updateAccum, updateTimestep;
      ghost var left := total;
      steps := 0;
      while updateAccum >= updateTimestep && steps < MaxUpdatesPerFrame
        invariant 0 <= steps <= MaxUpdatesPerFrame
        invariant Valid()
        invariant updateAccum == left && updateTimestep == ts
        invariant CatchUpLeft(total, ts, MaxUpdatesPerFrame) == CatchUpLeft(left, ts, MaxUpdatesPerFrame - steps)
        invariant CatchUpSteps(total, ts, MaxUpdatesPerFrame) == steps + CatchUpSteps(left, ts, MaxUpdatesPerFrame - steps)
        invariant steps > 0 && !isPaused ==> forall o :: o in physicsObjects ==> o.wsTransformInvalidated
        decreases MaxUpdatesPerFrame - steps
      {
        left := left - ts;
        updateAccum := updateAccum - updateTimestep;
        if !isPaused {
          UpdatePhysics(num);
        }
        steps := steps + 1;
      }
    }
  }
}
