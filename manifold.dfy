/**
 * Manifold: the contact points between one pair of bodies for one tick, and the
 * sequential-impulse solver that resolves them.
 *
 * A contact list is edited in place: AddContact merges a new contact with the
 * existing ones closer than 0.2 to it, keeping only the deepest. PreSolverStep resets
 * every contact's running impulse sums and caches its restitution term.
 * SolveContactPoint applies one normal impulse and one friction impulse. It clamps
 * the running normal sum to stay at or below zero, so contacts only push. It clamps
 * the running friction sum into the Coulomb bound given by that normal sum.
 */
module Manifolds {
  import opened Vectors
  import opened Bodies

  /** AddContact's min_allowed_dist_sq, 0.2 * 0.2. */
  const MinAllowedDistSq: real := 0.2 * 0.2
  /** The Baumgarte factor b_scalar and the penetration slop b_slop of SolveContactPoint. */
  const BaumgarteScalar: real := 0.3
  const BaumgarteSlop: real := 0.001
  /** Restitution terms below elasticity_slop are dropped to avoid jitter at rest. */
  const ElasticitySlop: real := 0.2
  /** Friction is applied only when the tangential speed exceeds this. */
  const TangentThreshold: real := 0.001

  /**
   * One contact: where it lies relative to each body's centre, the collision normal
   * (from A toward B) and penetration (negative when overlapping), the running normal
   * and friction impulse sums, and the cached restitution term.
   */
  datatype ContactPoint = ContactPoint(
    relPosA: Vector3,
    relPosB: Vector3,
    collisionNormal: Vector3,
    collisionPenetration: real,
    sumImpulseContact: real,
    sumImpulseFriction: real,
    elasticityTerm: real)

  //<---- CONTACT MERGING (AddContact) ---->

  /** An existing contact lies within 0.2 of the new one (compared by offset from A's centre). */
  predicate Near(existing: ContactPoint, added: ContactPoint) {
    DistSq(existing.relPosA, added.relPosA) < MinAllowedDistSq
  }

  /** A nearby contact shallower than the new one is erased. */
  predicate Erased(existing: ContactPoint, added: ContactPoint) {
    Near(existing, added) && existing.collisionPenetration > added.collisionPenetration
  }

  /** A nearby contact at least as deep as the new one keeps the new one out. */
  predicate Blocks(existing: ContactPoint, added: ContactPoint) {
    Near(existing, added) && existing.collisionPenetration <= added.collisionPenetration
  }

  /** The existing contacts AddContact leaves in place, in their order. */
  function Surviving(contacts: seq<ContactPoint>, added: ContactPoint): seq<ContactPoint>
    decreases |contacts|
  {
    if contacts == [] then []
    else
      var last := contacts[|contacts| - 1];
      Surviving(contacts[..|contacts| - 1], added) + (if Erased(last, added) then [] else [last])
  }

  /** No existing contact blocks the new one. */
  predicate ShouldAdd(contacts: seq<ContactPoint>, added: ContactPoint) {
    forall k :: 0 <= k < |contacts| ==> !Blocks(contacts[k], added)
  }

  /**
   * The contact AddContact builds for bodies centred at positionA and positionB: the
   * offsets from each centre to the contact points, and zero accumulated impulses.
   */
  function ContactBetween(positionA: Vector3, positionB: Vector3, globalOnA: Vector3, globalOnB: Vector3,
                          normal: Vector3, penetration: real): (c: ContactPoint)
    ensures Add(positionA, c.relPosA) == globalOnA && Add(positionB, c.relPosB) == globalOnB
    ensures c.collisionNormal == normal && c.collisionPenetration == penetration
    ensures c.sumImpulseContact == 0.0 && c.sumImpulseFriction == 0.0 && c.elasticityTerm == 0.0
  {
    ContactPoint(Sub(globalOnA, positionA), Sub(globalOnB, positionB), normal, penetration, 0.0, 0.0, 0.0)
  }

  /** The contact list after AddContact. */
  function WithContact(contacts: seq<ContactPoint>, added: ContactPoint): seq<ContactPoint> {
    Surviving(contacts, added) + (if ShouldAdd(contacts, added) then [added] else [])
  }

  /** The contacts of a list that lie further than 0.2 from a given one, in order. */
  function FarFrom(contacts: seq<ContactPoint>, added: ContactPoint): seq<ContactPoint>
    decreases |contacts|
  {
    if contacts == [] then []
    else
      var last := contacts[|contacts| - 1];
      FarFrom(contacts[..|contacts| - 1], added) + (if Near(last, added) then [] else [last])
  }

  /** The survivors are the contacts of the old list, never more of them. */
  lemma {:induction false} SurvivingIsSublist(contacts: seq<ContactPoint>, added: ContactPoint)
    ensures |Surviving(contacts, added)| <= |contacts|
    ensures multiset(Surviving(contacts, added)) <= multiset(contacts)
    ensures forall c :: c in Surviving(contacts, added) ==> c in contacts && !Erased(c, added)
    decreases |contacts|
  {
    if contacts != [] {
      var init := contacts[..|contacts| - 1];
      SurvivingIsSublist(init, added);
      assert contacts == init + [contacts[|contacts| - 1]];
    }
  }

  /** AddContact grows the list by at most one. */
  lemma WithContactGrowsByAtMostOne(contacts: seq<ContactPoint>, added: ContactPoint)
    ensures |WithContact(contacts, added)| <= |contacts| + 1
  {
    SurvivingIsSublist(contacts, added);
  }

  /** AddContact leaves the contacts further than 0.2 from the new one unchanged and in order. */
  lemma {:induction false} FarContactsUnchanged(contacts: seq<ContactPoint>, added: ContactPoint)
    ensures FarFrom(WithContact(contacts, added), added) == FarFrom(contacts, added)
  {
    SurvivingKeepsFar(contacts, added);
    FarFromAppend(Surviving(contacts, added), if ShouldAdd(contacts, added) then [added] else [], added);
    assert Near(added, added);
    assert FarFrom([added], added) == FarFrom([], added) + [];
  }

  lemma {:induction false} SurvivingKeepsFar(contacts: seq<ContactPoint>, added: ContactPoint)
    ensures FarFrom(Surviving(contacts, added), added) == FarFrom(contacts, added)
    decreases |contacts|
  {
    if contacts != [] {
      var init := contacts[..|contacts| - 1];
      var last := contacts[|contacts| - 1];
      SurvivingKeepsFar(init, added);
      FarFromAppend(Surviving(init, added), if Erased(last, added) then [] else [last], added);
      if !Erased(last, added) {
        assert FarFrom([last], added) == FarFrom([], added) + (if Near(last, added) then [] else [last]);
      }
    }
  }

  lemma {:induction false} FarFromAppend(s: seq<ContactPoint>, t: seq<ContactPoint>, added: ContactPoint)
    ensures FarFrom(s + t, added) == FarFrom(s, added) + FarFrom(t, added)
    decreases |t|
  {
    if t != [] {
      var init := t[..|t| - 1];
      assert (s + t)[..|s + t| - 1] == s + init;
      FarFromAppend(s, init, added);
    } else {
      assert s + t == s;
    }
  }

  /**
   * AddContact keeps the deepest contact of a neighbourhood: afterwards some contact
   * lies within 0.2 of the new one, and every contact that does is at least as deep.
   * When no existing neighbour was at least as deep, the new contact is kept.
   */
  lemma KeepsDeepestNearby(contacts: seq<ContactPoint>, added: ContactPoint)
    ensures forall c :: c in WithContact(contacts, added) && Near(c, added) ==>
              c.collisionPenetration <= added.collisionPenetration
    ensures exists c :: c in WithContact(contacts, added) && Near(c, added)
    ensures added in WithContact(contacts, added) <== ShouldAdd(contacts, added)
  {
    SurvivingIsSublist(contacts, added);
    if !ShouldAdd(contacts, added) {
      var k :| 0 <= k < |contacts| && Blocks(contacts[k], added);
      SurvivingKeepsBlocker(contacts, added, k);
    } else {
      assert Near(added, added);
    }
  }

  lemma {:induction false} SurvivingKeepsBlocker(contacts: seq<ContactPoint>, added: ContactPoint, k: nat)
    requires k < |contacts| && Blocks(contacts[k], added)
    ensures contacts[k] in Surviving(contacts, added)
    decreases |contacts|
  {
    var init := contacts[..|contacts| - 1];
    if k < |contacts| - 1 {
      assert init[k] == contacts[k];
      SurvivingKeepsBlocker(init, added, k);
    }
  }

  lemma SurvivingStep(contacts: seq<ContactPoint>, added: ContactPoint, j: nat)
    requires j < |contacts|
    ensures Surviving(contacts[..j + 1], added)
         == Surviving(contacts[..j], added) + (if Erased(contacts[j], added) then [] else [contacts[j]])
  {
    assert contacts[..j + 1][..j] == contacts[..j];
  }

  //<---- PRE-STEP (UpdateConstraint) ---->

  /** Rigid-body kinematics: the velocity of the point at offset r from a body's centre. */
  function PointVelocity(linearVelocity: Vector3, angularVelocity: Vector3, r: Vector3): Vector3 {
    Add(linearVelocity, Cross(angularVelocity, r))
  }

  /** How fast the contact point of A approaches that of B along the normal. */
  function ApproachSpeed(c: ContactPoint, linA: Vector3, angA: Vector3, linB: Vector3, angB: Vector3): real {
    Dot(c.collisionNormal, Sub(PointVelocity(linA, angA, c.relPosA), PointVelocity(linB, angB, c.relPosB)))
  }

  /** The part of the approach speed that comes from the two bodies' spin. */
  function SpinApproachSpeed(c: ContactPoint, angA: Vector3, angB: Vector3): real {
    Dot(c.collisionNormal, Sub(Cross(angA, c.relPosA), Cross(angB, c.relPosB)))
  }

  /**
   * The restitution term of UpdateConstraint exactly as the source computes it, with
   * Cross(r, w): the spin part enters with the wrong sign, so the term falls short of
   * the intended one by twice the elasticity times the spin part.
   */
  function RestitutionAsWritten(c: ContactPoint, elasticity: real,
                                linA: Vector3, angA: Vector3, linB: Vector3, angB: Vector3): (r: real)
    ensures r == Restitution(c, elasticity, linA, angA, linB, angB) - 2.0 * elasticity * SpinApproachSpeed(c, angA, angB)
  {
    WrittenTermSplits(c, elasticity, linA, angA, linB, angB);
    elasticity * Dot(c.collisionNormal,
      Sub(Sub(Add(linA, Cross(c.relPosA, angA)), linB), Cross(c.relPosB, angB)))
  }

  /** The source's expression splits into a linear part and a spin part of the wrong sign. */
  lemma WrittenTermSplits(c: ContactPoint, elasticity: real,
                          linA: Vector3, angA: Vector3, linB: Vector3, angB: Vector3)
    ensures elasticity * Dot(c.collisionNormal, Sub(Sub(Add(linA, Cross(c.relPosA, angA)), linB), Cross(c.relPosB, angB)))
         == Restitution(c, elasticity, linA, angA, linB, angB) - 2.0 * elasticity * SpinApproachSpeed(c, angA, angB)
  {
    var n := c.collisionNormal;
    var x := Cross(angA, c.relPosA);
    var y := Cross(angB, c.relPosB);
    var lin := Dot(n, Sub(linA, linB));
    var spin := Dot(n, Sub(x, y));
    assert Cross(c.relPosA, angA) == Neg(x) && Cross(c.relPosB, angB) == Neg(y);
    assert Dot(n, Sub(Sub(Add(linA, Neg(x)), linB), Neg(y))) == lin - spin;
    assert ApproachSpeed(c, linA, angA, linB, angB) == lin + spin;
    assert elasticity * (lin - spin) == elasticity * (lin + spin) - 2.0 * elasticity * spin;
  }

  /** The restitution term as intended: elasticity times the approach speed of the contact points. */
  function Restitution(c: ContactPoint, elasticity: real,
                       linA: Vector3, angA: Vector3, linB: Vector3, angB: Vector3): real
  {
    elasticity * ApproachSpeed(c, linA, angA, linB, angB)
  }

  /**
   * A body spinning about its centre, with its contact point moving straight at the
   * other body: the source's term says the point recedes, kinematics says it approaches.
   */
  lemma RestitutionSignFlip()
    ensures RestitutionAsWritten(SpinningContact, 1.0, Zero, ZSpin, Zero, Zero) == -1.0
    ensures Restitution(SpinningContact, 1.0, Zero, ZSpin, Zero, Zero) == 1.0
    ensures ClampRestitution(RestitutionAsWritten(SpinningContact, 1.0, Zero, ZSpin, Zero, Zero)) == 0.0
    ensures ClampRestitution(Restitution(SpinningContact, 1.0, Zero, ZSpin, Zero, Zero)) == 1.0
  {
    assert ClampRestitution(-1.0) == 0.0 && ClampRestitution(1.0) == 1.0;
    SpinApproaches();
    SpinOnlyFlipsSign(SpinningContact, 1.0, ZSpin);
  }

  /**
   * When only A moves, and only by spinning, the term as written is exactly the negative
   * of the intended one: Cross(r, w) is -Cross(w, r).
   */
  lemma SpinOnlyFlipsSign(c: ContactPoint, elasticity: real, angA: Vector3)
    ensures RestitutionAsWritten(c, elasticity, Zero, angA, Zero, Zero) == -Restitution(c, elasticity, Zero, angA, Zero, Zero)
  {
    var u := Cross(angA, c.relPosA);
    assert Cross(c.relPosA, angA) == Neg(u);
    assert Cross(c.relPosB, Zero) == Zero && Cross(Zero, c.relPosB) == Zero;
    assert Sub(Sub(Add(Zero, Neg(u)), Zero), Zero) == Neg(u);
    assert Sub(PointVelocity(Zero, angA, c.relPosA), PointVelocity(Zero, Zero, c.relPosB)) == u;
    var d := Dot(c.collisionNormal, u);
    assert Dot(c.collisionNormal, Neg(u)) == -d;
    assert elasticity * -d == -(elasticity * d);
  }

  /** By kinematics: Cross(w, r) is (0, 1, 0), so the spinning contact point approaches at unit speed. */
  lemma SpinApproaches()
    ensures Restitution(SpinningContact, 1.0, Zero, ZSpin, Zero, Zero) == 1.0
  {
    var c := SpinningContact;
    var up := Vector3(0.0, 1.0, 0.0);
    assert c.relPosA == Vector3(1.0, 0.0, 0.0) && c.relPosB == Zero && c.collisionNormal == up;
    var pa := PointVelocity(Zero, ZSpin, c.relPosA);
    assert pa == up by {
      assert Cross(ZSpin, c.relPosA) == up;
    }
    var pb := PointVelocity(Zero, Zero, c.relPosB);
    assert pb == Zero by {
      assert Cross(Zero, c.relPosB) == Zero;
    }
    assert Sub(pa, pb) == up;
    assert Dot(up, up) == 1.0;
  }

  /** A contact one unit along x from A's centre, with normal +y. */
  const SpinningContact: ContactPoint := ContactPoint(Vector3(1.0, 0.0, 0.0), Zero, Vector3(0.0, 1.0, 0.0), -0.1, 0.0, 0.0, 0.0)
  /** A unit spin about +z. */
  const ZSpin: Vector3 := Vector3(0.0, 0.0, 1.0)

  /** The two agree whenever neither body spins, so the flip only affects rotating bodies. */
  lemma RestitutionAgreesWithoutSpin(c: ContactPoint, elasticity: real, linA: Vector3, linB: Vector3)
    ensures RestitutionAsWritten(c, elasticity, linA, Zero, linB, Zero) == Restitution(c, elasticity, linA, Zero, linB, Zero)
  {
  }

  /** A separating contact (negative term) gets no bias, nor does one below the 0.2 slop. */
  function ClampRestitution(term: real): (t: real)
    ensures t == 0.0 || t >= ElasticitySlop
    ensures term >= ElasticitySlop ==> t == term
    ensures term < ElasticitySlop ==> t == 0.0
  {
    if term < 0.0 then 0.0
    else if term < ElasticitySlop then 0.0
    else term
  }

  /** Two contacts describe the same point, normal and depth. */
  predicate SameGeometry(c: ContactPoint, d: ContactPoint) {
    && c.relPosA == d.relPosA && c.relPosB == d.relPosB
    && c.collisionNormal == d.collisionNormal && c.collisionPenetration == d.collisionPenetration
  }

  //<---- SOLVER (SolveContactPoint) ---->

  /**
   * The effective mass along a direction: both inverse masses plus each body's
   * rotational share. With positive semi-definite inverse inertias it is at least the
   * sum of the inverse masses.
   */
  function EffectiveMass(dir: Vector3, r1: Vector3, r2: Vector3,
                         invMassA: real, invMassB: real, invInertiaA: Matrix3, invInertiaB: Matrix3): real
  {
    (invMassA + invMassB)
      + Dot(dir, Add(Cross(MulVec(invInertiaA, Cross(r1, dir)), r1),
                     Cross(MulVec(invInertiaB, Cross(r2, dir)), r2)))
  }

  lemma EffectiveMassBound(dir: Vector3, r1: Vector3, r2: Vector3,
                           invMassA: real, invMassB: real, invInertiaA: Matrix3, invInertiaB: Matrix3)
    requires PositiveSemiDefinite(invInertiaA) && PositiveSemiDefinite(invInertiaB)
    ensures EffectiveMass(dir, r1, r2, invMassA, invMassB, invInertiaA, invInertiaB) >= invMassA + invMassB
  {
    var u := Cross(MulVec(invInertiaA, Cross(r1, dir)), r1);
    var w := Cross(MulVec(invInertiaB, Cross(r2, dir)), r2);
    RotationalTermNonNegative(invInertiaA, r1, dir);
    RotationalTermNonNegative(invInertiaB, r2, dir);
    assert Dot(dir, Add(u, w)) == Dot(dir, u) + Dot(dir, w);
  }

  /**
   * The Baumgarte bias -(b_scalar / dt) * min(penetration + b_slop, 0): it is zero until
   * the overlap exceeds the slop and otherwise pushes the bodies apart.
   */
  function BaumgarteBias(penetration: real, dt: real): (b: real)
    requires dt > 0.0
    ensures b >= 0.0
    ensures penetration >= -BaumgarteSlop <==> b == 0.0
  {
    -(BaumgarteScalar / dt * Min(penetration + BaumgarteSlop, 0.0))
  }

  /** The running normal sum after adding the impulse jn, itself clamped to push only. */
  function NextNormalSum(sum: real, jn: real): (s: real)
    ensures s <= 0.0 && s <= sum
    ensures sum + Min(jn, 0.0) <= 0.0 ==> s == sum + Min(jn, 0.0)
  {
    Min(sum + Min(jn, 0.0), 0.0)
  }

  /** The running friction sum after adding tn, clamped into [maxTn, -maxTn]. */
  function NextFrictionSum(sum: real, tn: real, maxTn: real): (s: real)
    ensures maxTn <= 0.0 ==> maxTn <= s <= -maxTn
    ensures maxTn <= sum + tn <= -maxTn ==> s == sum + tn
  {
    Max(Min(sum + tn, -maxTn), maxTn)
  }

  /**
   * The friction bound maxTn, the friction coefficient times the normal sum: with a
   * non-negative coefficient and a pushing (non-positive) normal sum it is non-positive.
   */
  function FrictionBound(frictionCoef: real, normalSum: real): (maxTn: real)
    ensures 0.0 <= frictionCoef && normalSum <= 0.0 ==> maxTn <= 0.0
  {
    frictionCoef * normalSum
  }

  /** The Coulomb bound: |friction sum| <= coefficient * |normal sum|, with the normal sum non-positive. */
  predicate InFrictionCone(c: ContactPoint, frictionCoef: real) {
    c.sumImpulseContact <= 0.0
    && FrictionBound(frictionCoef, c.sumImpulseContact) <= c.sumImpulseFriction
    && c.sumImpulseFriction <= -FrictionBound(frictionCoef, c.sumImpulseContact)
  }

  /**
   * A contact already in the cone stays in it when its normal sum only grows in
   * magnitude and its friction sum is left alone: the cone widens.
   */
  lemma ConeWidens(c: ContactPoint, newSum: real, frictionCoef: real)
    requires 0.0 <= frictionCoef && InFrictionCone(c, frictionCoef) && newSum <= c.sumImpulseContact
    ensures InFrictionCone(c.(sumImpulseContact := newSum), frictionCoef)
  {
    var gap := c.sumImpulseContact - newSum;
    assert 0.0 <= frictionCoef * gap;
    assert frictionCoef * c.sumImpulseContact == frictionCoef * newSum + frictionCoef * gap;
    assert FrictionBound(frictionCoef, newSum) <= FrictionBound(frictionCoef, c.sumImpulseContact);
  }

  /** The impulse j along dir is equal and opposite on the two bodies: mA dvA + mB dvB = 0. */
  lemma EqualAndOpposite(dir: Vector3, j: real, invMassA: real, invMassB: real)
    ensures Add(Scale(Scale(dir, j * invMassA), invMassB), Scale(Neg(Scale(dir, j * invMassB)), invMassA)) == Zero
  {
    assert dir.x * (j * invMassA) * invMassB == dir.x * (j * invMassB) * invMassA;
    assert dir.y * (j * invMassA) * invMassB == dir.y * (j * invMassB) * invMassA;
    assert dir.z * (j * invMassA) * invMassB == dir.z * (j * invMassB) * invMassA;
  }

  /**
   * The velocity changes of A and B conserve linear momentum. With masses mA and mB
   * that is mA dvA + mB dvB = 0; multiplied through by invA * invB it becomes
   * dvA * invB + dvB * invA = 0, which also covers an immovable body (inverse mass 0).
   */
  ghost predicate Balanced(linA0: Vector3, linA: Vector3, linB0: Vector3, linB: Vector3, invMassA: real, invMassB: real) {
    Add(Scale(Sub(linA, linA0), invMassB), Scale(Sub(linB, linB0), invMassA)) == Zero
  }

  /** An impulse j along dir, added to A and taken from B at their inverse masses, conserves momentum. */
  lemma ImpulseBalanced(dir: Vector3, j: real, invMassA: real, invMassB: real, linA0: Vector3, linB0: Vector3)
    ensures Balanced(linA0, Add(linA0, Scale(dir, j * invMassA)), linB0, Sub(linB0, Scale(dir, j * invMassB)), invMassA, invMassB)
  {
    EqualAndOpposite(dir, j, invMassA, invMassB);
  }

  /** No change conserves momentum. */
  lemma BalancedAtRest(linA: Vector3, linB: Vector3, invMassA: real, invMassB: real)
    ensures Balanced(linA, linA, linB, linB, invMassA, invMassB)
  {
    assert Sub(linA, linA) == Zero && Sub(linB, linB) == Zero;
  }

  /** Linear momentum is conserved over two steps when it is over each. */
  lemma BalancedChain(linA0: Vector3, linA1: Vector3, linA2: Vector3, linB0: Vector3, linB1: Vector3, linB2: Vector3,
                      invMassA: real, invMassB: real)
    requires Balanced(linA0, linA1, linB0, linB1, invMassA, invMassB)
    requires Balanced(linA1, linA2, linB1, linB2, invMassA, invMassB)
    ensures Balanced(linA0, linA2, linB0, linB2, invMassA, invMassB)
  {
    assert (linA2.x - linA0.x) * invMassB == (linA2.x - linA1.x) * invMassB + (linA1.x - linA0.x) * invMassB;
    assert (linA2.y - linA0.y) * invMassB == (linA2.y - linA1.y) * invMassB + (linA1.y - linA0.y) * invMassB;
    assert (linA2.z - linA0.z) * invMassB == (linA2.z - linA1.z) * invMassB + (linA1.z - linA0.z) * invMassB;
    assert (linB2.x - linB0.x) * invMassA == (linB2.x - linB1.x) * invMassA + (linB1.x - linB0.x) * invMassA;
    assert (linB2.y - linB0.y) * invMassA == (linB2.y - linB1.y) * invMassA + (linB1.y - linB0.y) * invMassA;
    assert (linB2.z - linB0.z) * invMassA == (linB2.z - linB1.z) * invMassA + (linB1.z - linB0.z) * invMassA;
  }

  /** The velocities of a manifold's two bodies, A's then B's; one body twice when A is B. */
  datatype PairVelocities = PairVelocities(linA: Vector3, angA: Vector3, linB: Vector3, angB: Vector3)

  /** The inverse masses and inverse inertias of a manifold's two bodies. */
  datatype PairInertia = PairInertia(invMassA: real, invMassB: real, invInertiaA: Matrix3, invInertiaB: Matrix3)

  /** What the solver assumes of the bodies: non-negative inverse masses, positive semi-definite inverse inertias. */
  ghost predicate Proper(m: PairInertia) {
    0.0 <= m.invMassA && 0.0 <= m.invMassB && PositiveSemiDefinite(m.invInertiaA) && PositiveSemiDefinite(m.invInertiaB)
  }

  function VelocitiesOf(a: PhysicsObject, b: PhysicsObject): PairVelocities
    reads a`linearVelocity, a`angularVelocity, b`linearVelocity, b`angularVelocity
  {
    PairVelocities(a.linearVelocity, a.angularVelocity, b.linearVelocity, b.angularVelocity)
  }

  function InertiaOf(a: PhysicsObject, b: PhysicsObject): PairInertia
    reads a`invMass, a`invInertia, b`invMass, b`invInertia
  {
    PairInertia(a.invMass, b.invMass, a.invInertia, b.invInertia)
  }

  /** The four velocity changes of one impulse: A's linear and angular gains, B's losses. */
  datatype Kick = Kick(dLinA: Vector3, dLinB: Vector3, dAngA: Vector3, dAngB: Vector3)

  /**
   * The velocities after A's gain the kick's changes and B's lose them, in the order
   * linear A, linear B, angular A, angular B. When A is B (same) the one body gets
   * both, A's first.
   */
  function Changed(v: PairVelocities, same: bool, k: Kick): PairVelocities
  {
    if same then
      var lin := Sub(Add(v.linA, k.dLinA), k.dLinB);
      var ang := Sub(Add(v.angA, k.dAngA), k.dAngB);
      PairVelocities(lin, ang, lin, ang)
    else
      PairVelocities(Add(v.linA, k.dLinA), Add(v.angA, k.dAngA), Sub(v.linB, k.dLinB), Sub(v.angB, k.dAngB))
  }

  /**
   * The changes an impulse j along dir at offsets r1 and r2 makes: the linear ones
   * scaled by each body's inverse mass, the angular ones by each inverse inertia
   * times the impulse's moment.
   */
  function ImpulseKick(m: PairInertia, dir: Vector3, j: real, r1: Vector3, r2: Vector3): Kick {
    Kick(Scale(dir, j * m.invMassA), Scale(dir, j * m.invMassB),
         MulVec(m.invInertiaA, Cross(r1, Scale(dir, j))), MulVec(m.invInertiaB, Cross(r2, Scale(dir, j))))
  }

  /** The velocities after an impulse; between two bodies linear momentum is conserved. */
  function AfterImpulse(v: PairVelocities, same: bool, m: PairInertia, dir: Vector3, j: real, r1: Vector3, r2: Vector3)
    : (r: PairVelocities)
    ensures !same ==> Balanced(v.linA, r.linA, v.linB, r.linB, m.invMassA, m.invMassB)
  {
    ImpulseBalanced(dir, j, m.invMassA, m.invMassB, v.linA, v.linB);
    Changed(v, same, ImpulseKick(m, dir, j, r1, r2))
  }

  /**
   * v0 - v1 of SolveContactPoint: the rigid-body velocity of A's contact point less
   * that of B's, the same kinematics the corrected restitution term uses.
   */
  function RelativeVelocity(v: PairVelocities, r1: Vector3, r2: Vector3): (dv: Vector3)
    ensures dv == Sub(PointVelocity(v.linA, v.angA, r1), PointVelocity(v.linB, v.angB, r2))
    ensures forall c: ContactPoint | c.relPosA == r1 && c.relPosB == r2 ::
              Dot(c.collisionNormal, dv) == ApproachSpeed(c, v.linA, v.angA, v.linB, v.angB)
  {
    Sub(Add(v.linA, Cross(v.angA, r1)), Add(v.linB, Cross(v.angB, r2)))
  }

  /** dv less its part along the normal; it lies in the contact plane when the normal is a unit vector. */
  function TangentialPart(dv: Vector3, normal: Vector3): (t: Vector3)
    ensures Add(t, Scale(normal, Dot(dv, normal))) == dv
    ensures Dot(normal, normal) == 1.0 ==> Dot(t, normal) == 0.0
  {
    var d := Dot(dv, normal);
    assert Dot(Scale(normal, d), normal) == d * Dot(normal, normal);
    Sub(dv, Scale(normal, d))
  }

  /** Whether the contact slides faster than the 0.001 below which SolveContactPoint applies no friction. */
  predicate Sliding(dv: Vector3, normal: Vector3, num: Numerics) {
    num.length(TangentialPart(dv, normal)) > TangentThreshold
  }

  /** The friction direction: the tangential part of dv divided by its length, so also in the contact plane. */
  function SlideDirection(dv: Vector3, normal: Vector3, num: Numerics): (t: Vector3)
    requires Sliding(dv, normal, num)
    ensures Dot(normal, normal) == 1.0 ==> Dot(t, normal) == 0.0
  {
    var u := TangentialPart(dv, normal);
    var s := 1.0 / num.length(u);
    assert Dot(Scale(u, s), normal) == s * Dot(u, normal);
    Scale(u, s)
  }

  /**
   * The normal impulse SolveContactPoint computes before clamping: times the effective
   * mass along the normal it cancels the approach speed plus the Baumgarte and
   * restitution biases, so it pushes apart (is non-positive) exactly when that sum is
   * non-negative.
   */
  function NormalImpulse(c: ContactPoint, dv: Vector3, dt: real, m: PairInertia): (jn: real)
    requires dt > 0.0 && Proper(m) && m.invMassA + m.invMassB != 0.0
    ensures jn * EffectiveMass(c.collisionNormal, c.relPosA, c.relPosB, m.invMassA, m.invMassB, m.invInertiaA, m.invInertiaB)
              == -(Dot(dv, c.collisionNormal) + BaumgarteBias(c.collisionPenetration, dt) + c.elasticityTerm)
    ensures jn <= 0.0 <==> Dot(dv, c.collisionNormal) + BaumgarteBias(c.collisionPenetration, dt) + c.elasticityTerm >= 0.0
  {
    var normal := c.collisionNormal;
    var cMass := EffectiveMass(normal, c.relPosA, c.relPosB, m.invMassA, m.invMassB, m.invInertiaA, m.invInertiaB);
    EffectiveMassBound(normal, c.relPosA, c.relPosB, m.invMassA, m.invMassB, m.invInertiaA, m.invInertiaB);
    var closing := Dot(dv, normal) + BaumgarteBias(c.collisionPenetration, dt) + c.elasticityTerm;
    QuotientSign(closing, cMass);
    -closing / cMass
  }

  /**
   * The friction impulse SolveContactPoint computes before clamping: times the effective
   * mass along the tangent it is the friction coefficient times the sliding speed
   * along the tangent, negated, so with a non-negative coefficient it opposes sliding.
   */
  function FrictionImpulse(dv: Vector3, tangent: Vector3, r1: Vector3, r2: Vector3, frictionCoef: real, m: PairInertia)
    : (tn: real)
    requires Proper(m) && m.invMassA + m.invMassB != 0.0
    ensures tn * EffectiveMass(tangent, r1, r2, m.invMassA, m.invMassB, m.invInertiaA, m.invInertiaB)
              == -frictionCoef * Dot(dv, tangent)
    ensures 0.0 <= frictionCoef ==> tn * Dot(dv, tangent) <= 0.0
  {
    var cMass := EffectiveMass(tangent, r1, r2, m.invMassA, m.invMassB, m.invInertiaA, m.invInertiaB);
    EffectiveMassBound(tangent, r1, r2, m.invMassA, m.invMassB, m.invInertiaA, m.invInertiaB);
    var speed := Dot(dv, tangent);
    QuotientSign(frictionCoef * speed, cMass);
    assert 0.0 <= frictionCoef ==> frictionCoef * speed * speed >= 0.0;
    QuotientSign(frictionCoef * speed * speed, cMass);
    -frictionCoef * speed / cMass
  }

  /** Dividing by a positive mass keeps the sign and can be undone. */
  lemma QuotientSign(x: real, mass: real)
    requires mass > 0.0
    ensures (-x / mass) * mass == -x
    ensures -x / mass <= 0.0 <==> x >= 0.0
    ensures (x / mass) * (x / mass) >= 0.0
  {
  }

  /**
   * The collision-resolution half of SolveContactPoint on values: the running normal
   * sum gains the clamped normal impulse, and the bodies receive the part actually
   * applied along the normal. Only the normal sum changes, and it ends at or below
   * zero and at or below where it was.
   */
  function NormalStep(c: ContactPoint, dv: Vector3, v: PairVelocities, same: bool, m: PairInertia, dt: real)
    : (r: (ContactPoint, PairVelocities))
    requires dt > 0.0 && Proper(m) && m.invMassA + m.invMassB != 0.0
    ensures r.0 == c.(sumImpulseContact := r.0.sumImpulseContact)
    ensures r.0.sumImpulseContact <= 0.0 && r.0.sumImpulseContact <= c.sumImpulseContact
    ensures !same ==> Balanced(v.linA, r.1.linA, v.linB, r.1.linB, m.invMassA, m.invMassB)
  {
    var sum := NextNormalSum(c.sumImpulseContact, NormalImpulse(c, dv, dt, m));
    (c.(sumImpulseContact := sum),
     AfterImpulse(v, same, m, c.collisionNormal, sum - c.sumImpulseContact, c.relPosA, c.relPosB))
  }

  /**
   * The friction half of SolveContactPoint on values: below the sliding threshold
   * nothing changes; otherwise the running friction sum gains the friction impulse,
   * clamped into the cone the current normal sum allows, and the bodies receive the
   * part applied along the sliding direction. Only the friction sum changes.
   */
  function FrictionStep(c: ContactPoint, dv: Vector3, v: PairVelocities, same: bool, m: PairInertia, frictionCoef: real,
                        num: Numerics): (r: (ContactPoint, PairVelocities))
    requires Proper(m) && m.invMassA + m.invMassB != 0.0
    ensures r.0 == c.(sumImpulseFriction := r.0.sumImpulseFriction)
    ensures !Sliding(dv, c.collisionNormal, num) ==> r == (c, v)
    ensures Sliding(dv, c.collisionNormal, num) && 0.0 <= frictionCoef && c.sumImpulseContact <= 0.0 ==>
              InFrictionCone(r.0, frictionCoef)
    ensures !same ==> Balanced(v.linA, r.1.linA, v.linB, r.1.linB, m.invMassA, m.invMassB)
  {
    if !Sliding(dv, c.collisionNormal, num) then (c, v)
    else
      var tangent := SlideDirection(dv, c.collisionNormal, num);
      var maxTn := FrictionBound(frictionCoef, c.sumImpulseContact);
      ClampedFriction(c, v, same, m, tangent, FrictionImpulse(dv, tangent, c.relPosA, c.relPosB, frictionCoef, m), maxTn)
  }

  /**
   * The friction half once the tangent, the raw impulse tn and the bound maxTn are known:
   * the running friction sum gains tn clamped to [maxTn, -maxTn], and the bodies receive
   * the part actually applied along the tangent.
   */
  function ClampedFriction(c: ContactPoint, v: PairVelocities, same: bool, m: PairInertia,
                           tangent: Vector3, tn: real, maxTn: real): (r: (ContactPoint, PairVelocities))
    ensures r.0 == c.(sumImpulseFriction := r.0.sumImpulseFriction)
    ensures maxTn <= 0.0 ==> maxTn <= r.0.sumImpulseFriction <= -maxTn
    ensures !same ==> Balanced(v.linA, r.1.linA, v.linB, r.1.linB, m.invMassA, m.invMassB)
  {
    var friction := NextFrictionSum(c.sumImpulseFriction, tn, maxTn);
    (c.(sumImpulseFriction := friction),
     AfterImpulse(v, same, m, tangent, friction - c.sumImpulseFriction, c.relPosA, c.relPosB))
  }

  /** FrictionStep of a sliding contact is ClampedFriction of its tangent, raw impulse and bound. */
  lemma FrictionStepSliding(c: ContactPoint, dv: Vector3, v: PairVelocities, same: bool, m: PairInertia,
                            frictionCoef: real, num: Numerics, tangent: Vector3, tn: real, maxTn: real)
    requires Proper(m) && m.invMassA + m.invMassB != 0.0 && Sliding(dv, c.collisionNormal, num)
    requires tangent == SlideDirection(dv, c.collisionNormal, num)
    requires tn == FrictionImpulse(dv, tangent, c.relPosA, c.relPosB, frictionCoef, m)
    requires maxTn == FrictionBound(frictionCoef, c.sumImpulseContact)
    ensures FrictionStep(c, dv, v, same, m, frictionCoef, num) == ClampedFriction(c, v, same, m, tangent, tn, maxTn)
  {
  }

  /**
   * SolveContactPoint on values: the contact after its normal and friction impulses and
   * the bodies' velocities after them. dv is taken once, before either impulse; the
   * friction bound uses the new normal sum. The contact keeps its geometry and
   * restitution term, and with both inverse masses zero nothing changes.
   */
  function SolvedContact(c: ContactPoint, v: PairVelocities, same: bool, m: PairInertia, frictionCoef: real,
                         dt: real, num: Numerics): (r: (ContactPoint, PairVelocities))
    requires dt > 0.0 && Proper(m)
    ensures SameGeometry(c, r.0) && r.0.elasticityTerm == c.elasticityTerm
    ensures m.invMassA + m.invMassB == 0.0 ==> r == (c, v)
  {
    if m.invMassA + m.invMassB == 0.0 then (c, v)
    else
      var dv := RelativeVelocity(v, c.relPosA, c.relPosB);
      var normal := NormalStep(c, dv, v, same, m, dt);
      FrictionStep(normal.0, dv, normal.1, same, m, frictionCoef, num)
  }

  /**
   * The normal sum SolvedContact leaves never rises, and it is at or below zero
   * whenever it was before or the pair can move at all.
   */
  lemma SolvedContactPushes(c: ContactPoint, v: PairVelocities, same: bool, m: PairInertia, frictionCoef: real,
                            dt: real, num: Numerics)
    requires dt > 0.0 && Proper(m)
    ensures SolvedContact(c, v, same, m, frictionCoef, dt, num).0.sumImpulseContact <= c.sumImpulseContact
    ensures c.sumImpulseContact <= 0.0 || m.invMassA + m.invMassB != 0.0 ==>
              SolvedContact(c, v, same, m, frictionCoef, dt, num).0.sumImpulseContact <= 0.0
  {
    if m.invMassA + m.invMassB != 0.0 {
      var dv := RelativeVelocity(v, c.relPosA, c.relPosB);
      var normal := NormalStep(c, dv, v, same, m, dt);
      var friction := FrictionStep(normal.0, dv, normal.1, same, m, frictionCoef, num);
      assert friction.0.sumImpulseContact == normal.0.sumImpulseContact;
    }
  }

  /** With a non-negative friction coefficient, a contact in the friction cone stays in it. */
  lemma SolvedContactKeepsCone(c: ContactPoint, v: PairVelocities, same: bool, m: PairInertia, frictionCoef: real,
                               dt: real, num: Numerics)
    requires dt > 0.0 && Proper(m)
    requires 0.0 <= frictionCoef && InFrictionCone(c, frictionCoef)
    ensures InFrictionCone(SolvedContact(c, v, same, m, frictionCoef, dt, num).0, frictionCoef)
  {
    if m.invMassA + m.invMassB != 0.0 {
      var dv := RelativeVelocity(v, c.relPosA, c.relPosB);
      var normal := NormalStep(c, dv, v, same, m, dt);
      ConeWidens(c, normal.0.sumImpulseContact, frictionCoef);
      assert normal.0 == c.(sumImpulseContact := normal.0.sumImpulseContact);
    }
  }

  /** Between two bodies, the normal and friction impulses together conserve linear momentum. */
  lemma SolvedContactConserves(c: ContactPoint, v: PairVelocities, same: bool, m: PairInertia, frictionCoef: real,
                               dt: real, num: Numerics)
    requires dt > 0.0 && Proper(m) && !same
    ensures Balanced(v.linA, SolvedContact(c, v, same, m, frictionCoef, dt, num).1.linA,
                     v.linB, SolvedContact(c, v, same, m, frictionCoef, dt, num).1.linB, m.invMassA, m.invMassB)
  {
    var r := SolvedContact(c, v, same, m, frictionCoef, dt, num);
    if m.invMassA + m.invMassB != 0.0 {
      var dv := RelativeVelocity(v, c.relPosA, c.relPosB);
      var normal := NormalStep(c, dv, v, same, m, dt);
      var friction := FrictionStep(normal.0, dv, normal.1, same, m, frictionCoef, num);
      assert r == friction;
      BalancedChain(v.linA, normal.1.linA, friction.1.linA, v.linB, normal.1.linB, friction.1.linB, m.invMassA, m.invMassB);
    } else {
      assert r == (c, v);
      BalancedAtRest(v.linA, v.linB, m.invMassA, m.invMassB);
    }
  }

  /**
   * ApplyImpulse on values: SolvedContact on every contact in order, each seeing the
   * velocities the previous ones left.
   */
  function SolvedContacts(cs: seq<ContactPoint>, v: PairVelocities, same: bool, m: PairInertia, frictionCoef: real,
                          dt: real, num: Numerics): (r: (seq<ContactPoint>, PairVelocities))
    requires dt > 0.0 && Proper(m)
    ensures |r.0| == |cs|
    decreases |cs|
  {
    if cs == [] then ([], v)
    else
      var done := SolvedContacts(cs[..|cs| - 1], v, same, m, frictionCoef, dt, num);
      var last := SolvedContact(cs[|cs| - 1], done.1, same, m, frictionCoef, dt, num);
      (done.0 + [last.0], last.1)
  }

  /** Over the whole list every contact keeps its geometry and restitution term. */
  lemma {:induction false} SolvedContactsKeepGeometry(cs: seq<ContactPoint>, v: PairVelocities, same: bool, m: PairInertia,
                                                      frictionCoef: real, dt: real, num: Numerics, k: nat)
    requires dt > 0.0 && Proper(m) && k < |cs|
    ensures SameGeometry(cs[k], SolvedContacts(cs, v, same, m, frictionCoef, dt, num).0[k])
    ensures SolvedContacts(cs, v, same, m, frictionCoef, dt, num).0[k].elasticityTerm == cs[k].elasticityTerm
    decreases |cs|
  {
    var init := cs[..|cs| - 1];
    var done := SolvedContacts(init, v, same, m, frictionCoef, dt, num);
    var r := SolvedContacts(cs, v, same, m, frictionCoef, dt, num);
    assert r.0 == done.0 + [SolvedContact(cs[|cs| - 1], done.1, same, m, frictionCoef, dt, num).0];
    if k < |cs| - 1 {
      SolvedContactsKeepGeometry(init, v, same, m, frictionCoef, dt, num, k);
      assert r.0[k] == done.0[k] && cs[k] == init[k];
    }
  }

  /**
   * Over the whole list every normal sum never rises, and it ends at or below zero
   * when it was or the pair can move.
   */
  lemma {:induction false} SolvedContactsPush(cs: seq<ContactPoint>, v: PairVelocities, same: bool, m: PairInertia,
                                              frictionCoef: real, dt: real, num: Numerics, k: nat)
    requires dt > 0.0 && Proper(m) && k < |cs|
    ensures SolvedContacts(cs, v, same, m, frictionCoef, dt, num).0[k].sumImpulseContact <= cs[k].sumImpulseContact
    ensures cs[k].sumImpulseContact <= 0.0 || m.invMassA + m.invMassB != 0.0 ==>
              SolvedContacts(cs, v, same, m, frictionCoef, dt, num).0[k].sumImpulseContact <= 0.0
    decreases |cs|
  {
    var init := cs[..|cs| - 1];
    var done := SolvedContacts(init, v, same, m, frictionCoef, dt, num);
    var r := SolvedContacts(cs, v, same, m, frictionCoef, dt, num);
    assert r.0 == done.0 + [SolvedContact(cs[|cs| - 1], done.1, same, m, frictionCoef, dt, num).0];
    if k == |cs| - 1 {
      SolvedContactPushes(cs[k], done.1, same, m, frictionCoef, dt, num);
    } else {
      SolvedContactsPush(init, v, same, m, frictionCoef, dt, num, k);
      assert r.0[k] == done.0[k] && cs[k] == init[k];
    }
  }

  /** With a non-negative coefficient, over the whole list a contact in the friction cone stays in it. */
  lemma {:induction false} SolvedContactsKeepCone(cs: seq<ContactPoint>, v: PairVelocities, same: bool, m: PairInertia,
                                                  frictionCoef: real, dt: real, num: Numerics, k: nat)
    requires dt > 0.0 && Proper(m) && 0.0 <= frictionCoef && k < |cs| && InFrictionCone(cs[k], frictionCoef)
    ensures InFrictionCone(SolvedContacts(cs, v, same, m, frictionCoef, dt, num).0[k], frictionCoef)
    decreases |cs|
  {
    var init := cs[..|cs| - 1];
    var done := SolvedContacts(init, v, same, m, frictionCoef, dt, num);
    var r := SolvedContacts(cs, v, same, m, frictionCoef, dt, num);
    assert r.0 == done.0 + [SolvedContact(cs[|cs| - 1], done.1, same, m, frictionCoef, dt, num).0];
    if k == |cs| - 1 {
      SolvedContactKeepsCone(cs[k], done.1, same, m, frictionCoef, dt, num);
    } else {
      assert cs[k] == init[k];
      SolvedContactsKeepCone(init, v, same, m, frictionCoef, dt, num, k);
      assert r.0[k] == done.0[k];
    }
  }

  /** Between two bodies, solving the whole list conserves linear momentum. */
  lemma {:induction false} SolvedContactsConserve(cs: seq<ContactPoint>, v: PairVelocities, same: bool, m: PairInertia,
                                                  frictionCoef: real, dt: real, num: Numerics)
    requires dt > 0.0 && Proper(m) && !same
    ensures Balanced(v.linA, SolvedContacts(cs, v, same, m, frictionCoef, dt, num).1.linA,
                     v.linB, SolvedContacts(cs, v, same, m, frictionCoef, dt, num).1.linB, m.invMassA, m.invMassB)
    decreases |cs|
  {
    if cs == [] {
      BalancedAtRest(v.linA, v.linB, m.invMassA, m.invMassB);
    } else {
      var init := cs[..|cs| - 1];
      var done := SolvedContacts(init, v, same, m, frictionCoef, dt, num);
      SolvedContactsConserve(init, v, same, m, frictionCoef, dt, num);
      var last := SolvedContact(cs[|cs| - 1], done.1, same, m, frictionCoef, dt, num);
      SolvedContactConserves(cs[|cs| - 1], done.1, same, m, frictionCoef, dt, num);
      BalancedChain(v.linA, done.1.linA, last.1.linA, v.linB, done.1.linB, last.1.linB, m.invMassA, m.invMassB);
    }
  }

  /** The friction coefficient of a pair, the geometric mean of the bodies' coefficients. */
  function FrictionCoefficient(num: Numerics, frictionA: real, frictionB: real): real {
    num.sqrt(frictionA * frictionB)
  }

  /**
   * The bookkeeping of ApplyImpulse's loop: solving contact i, and only it, extends
   * the solved prefix by one and leaves the rest as it was.
   */
  lemma OneMoreSolved(cs0: seq<ContactPoint>, before: seq<ContactPoint>, after: seq<ContactPoint>, i: nat)
    requires |cs0| == |before| == |after| && i < |before| && before[i..] == cs0[i..]
    requires forall k :: 0 <= k < |after| && k != i ==> after[k] == before[k]
    ensures cs0[..i + 1][..i] == cs0[..i] && cs0[..i + 1][i] == cs0[i]
    ensures after[..i + 1] == before[..i] + [after[i]]
    ensures after[i + 1..] == cs0[i + 1..]
  {
    assert forall k :: i + 1 <= k < |after| ==> after[k] == before[k] == before[i..][k - i] == cs0[k];
  }

  //<---- WHAT A SOLVER PASS KEEPS ---->

  /**
   * What ApplyImpulse may do to one contact: its geometry and restitution term stay, its
   * normal sum only falls, and a contact in the friction cone stays in it when the
   * coefficient is non-negative.
   */
  predicate Pushed(before: ContactPoint, after: ContactPoint, frictionCoef: real) {
    && SameGeometry(before, after) && after.elasticityTerm == before.elasticityTerm
    && after.sumImpulseContact <= before.sumImpulseContact
    && (0.0 <= frictionCoef && InFrictionCone(before, frictionCoef) ==> InFrictionCone(after, frictionCoef))
  }

  /** Pushed, contact by contact, over a whole list that keeps its length. */
  predicate AllPushed(before: seq<ContactPoint>, after: seq<ContactPoint>, frictionCoef: real) {
    |before| == |after| && forall k :: 0 <= k < |after| ==> Pushed(before[k], after[k], frictionCoef)
  }

  /**
   * What PreSolverStep leaves: the same contacts, in order, with both running sums at
   * zero and a restitution term that is either off or above the slop.
   */
  predicate Reset(before: seq<ContactPoint>, after: seq<ContactPoint>) {
    && |before| == |after|
    && forall k :: 0 <= k < |after| ==>
         && SameGeometry(before[k], after[k])
         && after[k].sumImpulseContact == 0.0 && after[k].sumImpulseFriction == 0.0
         && (after[k].elasticityTerm == 0.0 || after[k].elasticityTerm >= ElasticitySlop)
  }

  /**
   * A contact as the solver leaves it: it pushes (normal sum at or below zero), its
   * restitution term is off or above the slop, and with a non-negative coefficient it
   * is inside the friction cone.
   */
  predicate Settled(c: ContactPoint, frictionCoef: real) {
    && c.sumImpulseContact <= 0.0
    && (c.elasticityTerm == 0.0 || c.elasticityTerm >= ElasticitySlop)
    && (0.0 <= frictionCoef ==> InFrictionCone(c, frictionCoef))
  }

  /** Two passes of the solver are again a pass: AllPushed composes. */
  lemma {:induction false} AllPushedChain(a: seq<ContactPoint>, b: seq<ContactPoint>, c: seq<ContactPoint>, frictionCoef: real)
    requires AllPushed(a, b, frictionCoef) && AllPushed(b, c, frictionCoef)
    ensures AllPushed(a, c, frictionCoef)
  {
    forall k | 0 <= k < |c|
      ensures Pushed(a[k], c[k], frictionCoef)
    {
      assert Pushed(a[k], b[k], frictionCoef) && Pushed(b[k], c[k], frictionCoef);
    }
  }

  /** A second pre-step of the same list is again a reset of the original. */
  lemma {:induction false} ResetChain(a: seq<ContactPoint>, b: seq<ContactPoint>, c: seq<ContactPoint>)
    requires Reset(a, b) && Reset(b, c)
    ensures Reset(a, c)
  {
    forall k | 0 <= k < |c|
      ensures SameGeometry(a[k], c[k])
    {
      assert SameGeometry(a[k], b[k]) && SameGeometry(b[k], c[k]);
    }
  }

  /** Reset contacts are settled, and solver passes keep them settled and in place. */
  lemma {:induction false} ResetThenPushedSettles(a: seq<ContactPoint>, b: seq<ContactPoint>, c: seq<ContactPoint>,
                                                  frictionCoef: real)
    requires Reset(a, b) && AllPushed(b, c, frictionCoef)
    ensures |c| == |a|
    ensures forall k :: 0 <= k < |c| ==> SameGeometry(a[k], c[k]) && Settled(c[k], frictionCoef)
  {
    forall k | 0 <= k < |c|
      ensures SameGeometry(a[k], c[k]) && Settled(c[k], frictionCoef)
    {
      assert Pushed(b[k], c[k], frictionCoef);
      assert InFrictionCone(b[k], frictionCoef) by {
        assert FrictionBound(frictionCoef, 0.0) == 0.0;
      }
    }
  }

  class Manifold {
    var nodeA: PhysicsObject?
    var nodeB: PhysicsObject?
    var contacts: seq<ContactPoint>

    /** Both bodies are set. */
    predicate Initiated()
      reads this`nodeA, this`nodeB
    {
      nodeA != null && nodeB != null
    }

    /**
     * What the solver needs of the bodies: both set and consistent, non-negative
     * inverse masses and positive semi-definite inverse inertias.
     */
    ghost predicate SolverReady()
      reads this`nodeA, this`nodeB, nodeA, nodeB
    {
      && nodeA != null && nodeB != null
      && nodeA.Valid() && nodeB.Valid()
      && 0.0 <= nodeA.invMass && 0.0 <= nodeB.invMass
      && PositiveSemiDefinite(nodeA.invInertia) && PositiveSemiDefinite(nodeB.invInertia)
    }

    /** Every contact is as the solver leaves it (see Settled). */
    ghost predicate AllSettled(num: Numerics)
      requires Initiated()
      reads this`nodeA, this`nodeB, this`contacts, nodeA`friction, nodeB`friction
    {
      forall k :: 0 <= k < |contacts| ==> Settled(contacts[k], PairFriction(num))
    }

    /** The friction coefficient of this manifold's pair. */
    function PairFriction(num: Numerics): real
      requires Initiated()
      reads this`nodeA, this`nodeB, nodeA`friction, nodeB`friction
    {
      FrictionCoefficient(num, nodeA.friction, nodeB.friction)
    }

    constructor ()
      ensures nodeA == null && nodeB == null && contacts == []
    {
      nodeA := null;
      nodeB := null;
      contacts := [];
    }

    method Initiate(a: PhysicsObject, b: PhysicsObject)
      modifies this
      ensures contacts == [] && nodeA == a && nodeB == b
    {
      contacts := [];
      nodeA := a;
      nodeB := b;
    }

    /** The contact AddContact builds for this manifold's two bodies where they are now. */
    function NewContact(globalOnA: Vector3, globalOnB: Vector3, normal: Vector3, penetration: real): (c: ContactPoint)
      requires Initiated()
      reads this`nodeA, this`nodeB, nodeA`position, nodeB`position
      ensures Add(nodeA.position, c.relPosA) == globalOnA && Add(nodeB.position, c.relPosB) == globalOnB
      ensures c.collisionNormal == normal && c.collisionPenetration == penetration
      ensures c.sumImpulseContact == 0.0 && c.sumImpulseFriction == 0.0 && c.elasticityTerm == 0.0
    {
      ContactBetween(nodeA.position, nodeB.position, globalOnA, globalOnB, normal, penetration)
    }

    /**
     * AddContact: erases the nearby contacts shallower than the new one, in place, and
     * appends the new one unless a nearby contact is at least as deep.
     */
    method AddContact(globalOnA: Vector3, globalOnB: Vector3, normal: Vector3, penetration: real)
      requires Initiated()
      modifies this`contacts
      ensures contacts == WithContact(old(contacts), NewContact(globalOnA, globalOnB, normal, penetration))
    {
      var r1 := Sub(globalOnA, nodeA.GetPosition());
      var r2 := Sub(globalOnB, nodeB.GetPosition());
      var contact := ContactPoint(r1, r2, normal, penetration, 0.0, 0.0, 0.0);

      ghost var before := contacts;
      ghost var j := 0;
      var shouldAdd := true;
      var i := 0;
      while i < |contacts|
        invariant 0 <= i <= |contacts| && 0 <= j <= |before|
        invariant contacts[..i] == Surviving(before[..j], contact)
        invariant contacts[i..] == before[j..]
        invariant shouldAdd == ShouldAdd(before[..j], contact)
        decreases |contacts| - i
      {
        SurvivingStep(before, contact, j);
        assert before[j] == contacts[i];
        assert before[..j + 1][..j] == before[..j] && before[..j + 1][j] == before[j];
        var ab := Sub(contacts[i].relPosA, contact.relPosA);
        var distSq := Dot(ab, ab);
        if distSq < MinAllowedDistSq {
          if contacts[i].collisionPenetration > contact.collisionPenetration {
            assert contacts[i..][1..] == contacts[i + 1..] && before[j..][1..] == before[j + 1..];
            ghost var kept := contacts[..i];
            contacts := contacts[..i] + contacts[i + 1..];
            assert contacts[..i] == kept && contacts[i..] == before[j + 1..];
            j := j + 1;
            continue;
          } else {
            shouldAdd := false;
          }
        }
        assert contacts[..i + 1] == contacts[..i] + [contacts[i]];
        i := i + 1;
        j := j + 1;
      }
      assert before[..j] == before;
      assert contacts[..i] == contacts;
      if shouldAdd {
        contacts := contacts + [contact];
      }
    }

    /** PreSolverStep: UpdateConstraint on every contact, in order. */
    method PreSolverStep(dt: real, num: Numerics)
      requires Initiated()
      modifies this`contacts
      ensures |contacts| == |old(contacts)|
      ensures forall k :: 0 <= k < |contacts| ==> contacts[k] == UpdateConstraint(old(contacts[k]), num)
      ensures forall k :: 0 <= k < |contacts| ==> contacts[k].elasticityTerm == 0.0 || contacts[k].elasticityTerm >= ElasticitySlop
      ensures forall k :: 0 <= k < |contacts| ==> InFrictionCone(contacts[k], PairFriction(num))
      ensures Reset(old(contacts), contacts)
    {
      var i := 0;
      while i < |contacts|
        invariant 0 <= i <= |contacts| == |old(contacts)|
        invariant forall k :: 0 <= k < i ==> contacts[k] == UpdateConstraint(old(contacts[k]), num)
        invariant forall k :: i <= k < |contacts| ==> contacts[k] == old(contacts[k])
      {
        contacts := contacts[i := UpdateConstraint(contacts[i], num)];
        i := i + 1;
      }
    }

    /** The restitution term UpdateConstraint caches for a contact, before clamping. */
    function ContactRestitution(c: ContactPoint, num: Numerics): real
      requires Initiated()
      reads this`nodeA, this`nodeB, nodeA, nodeB
    {
      Restitution(c, num.sqrt(nodeA.elasticity * nodeB.elasticity),
                  nodeA.linearVelocity, nodeA.angularVelocity, nodeB.linearVelocity, nodeB.angularVelocity)
    }

    /** UpdateConstraint: resets the running sums and caches the clamped restitution term. */
    function UpdateConstraint(contact: ContactPoint, num: Numerics): (d: ContactPoint)
      requires Initiated()
      reads this`nodeA, this`nodeB, nodeA, nodeB
      ensures d.sumImpulseContact == 0.0 && d.sumImpulseFriction == 0.0 && SameGeometry(contact, d)
      ensures d.elasticityTerm == ClampRestitution(ContactRestitution(contact, num))
      ensures InFrictionCone(d, PairFriction(num))
    {
      var elasticityTerm := ContactRestitution(contact, num);
      if elasticityTerm < 0.0 then
        contact.(sumImpulseContact := 0.0, sumImpulseFriction := 0.0, elasticityTerm := 0.0)
      else
        var term := if elasticityTerm < ElasticitySlop then 0.0 else elasticityTerm;
        contact.(sumImpulseContact := 0.0, sumImpulseFriction := 0.0, elasticityTerm := term)
    }

    /** The velocities of the two bodies. */
    function Velocities(): PairVelocities
      requires Initiated()
      reads this`nodeA, this`nodeB, nodeA`linearVelocity, nodeA`angularVelocity, nodeB`linearVelocity, nodeB`angularVelocity
    {
      VelocitiesOf(nodeA, nodeB)
    }

    /** The inverse masses and inertias of the two bodies. */
    function Inertia(): PairInertia
      requires Initiated()
      reads this`nodeA, this`nodeB, nodeA`invMass, nodeA`invInertia, nodeB`invMass, nodeB`invInertia
    {
      InertiaOf(nodeA, nodeB)
    }

    /** The contacts and velocities are those ApplyImpulse leaves when it starts from cs0 and v0. */
    ghost predicate SolvedFrom(cs0: seq<ContactPoint>, v0: PairVelocities, dt: real, num: Numerics)
      requires SolverReady() && dt > 0.0
      reads this, nodeA, nodeB
    {
      (contacts, Velocities()) == SolvedContacts(cs0, v0, nodeA == nodeB, Inertia(), PairFriction(num), dt, num)
    }

    /**
     * ApplyImpulse: SolveContactPoint on every contact, in order. The contacts and the
     * velocities are those SolvedContacts gives, so the per-contact guarantees and the
     * conservation of linear momentum hold for the whole list.
     */
    method ApplyImpulse(dt: real, num: Numerics)
      requires SolverReady() && dt > 0.0
      modifies this`contacts, nodeA`linearVelocity, nodeA`angularVelocity, nodeB`linearVelocity, nodeB`angularVelocity
      ensures SolverReady()
      ensures (contacts, Velocities())
              == SolvedContacts(old(contacts), old(Velocities()), nodeA == nodeB, Inertia(), PairFriction(num), dt, num)
      ensures nodeA != nodeB ==>
                Balanced(old(nodeA.linearVelocity), nodeA.linearVelocity, old(nodeB.linearVelocity), nodeB.linearVelocity,
                         nodeA.invMass, nodeB.invMass)
      ensures |contacts| == |old(contacts)|
      ensures forall k :: 0 <= k < |contacts| ==> SameGeometry(old(contacts[k]), contacts[k])
      ensures forall k :: 0 <= k < |contacts| ==> contacts[k].sumImpulseContact <= old(contacts[k].sumImpulseContact)
      ensures forall k :: 0 <= k < |contacts| && (old(contacts[k].sumImpulseContact) <= 0.0 || nodeA.invMass + nodeB.invMass != 0.0) ==>
                contacts[k].sumImpulseContact <= 0.0
      ensures 0.0 <= PairFriction(num) ==>
                forall k :: 0 <= k < |contacts| && InFrictionCone(old(contacts[k]), PairFriction(num)) ==>
                  InFrictionCone(contacts[k], PairFriction(num))
      ensures AllPushed(old(contacts), contacts, PairFriction(num))
    {
      ghost var cs0, v0 := contacts, Velocities();
      SolveEachContact(dt, num);
      ghost var same, m, coef := nodeA == nodeB, Inertia(), PairFriction(num);
      forall k | 0 <= k < |contacts|
        ensures SameGeometry(cs0[k], contacts[k]) && contacts[k].sumImpulseContact <= cs0[k].sumImpulseContact
        ensures cs0[k].sumImpulseContact <= 0.0 || nodeA.invMass + nodeB.invMass != 0.0 ==> contacts[k].sumImpulseContact <= 0.0
        ensures 0.0 <= coef && InFrictionCone(cs0[k], coef) ==> InFrictionCone(contacts[k], coef)
        ensures Pushed(cs0[k], contacts[k], coef)
      {
        SolvedContactsKeepGeometry(cs0, v0, same, m, coef, dt, num, k);
        SolvedContactsPush(cs0, v0, same, m, coef, dt, num, k);
        if 0.0 <= coef && InFrictionCone(cs0[k], coef) {
          SolvedContactsKeepCone(cs0, v0, same, m, coef, dt, num, k);
        }
      }
      if !same {
        SolvedContactsConserve(cs0, v0, same, m, coef, dt, num);
      }
    }

    /** The loop of ApplyImpulse: SolveContactPoint on each contact in turn. */
    method SolveEachContact(dt: real, num: Numerics)
      requires SolverReady() && dt > 0.0
      modifies this`contacts, nodeA`linearVelocity, nodeA`angularVelocity, nodeB`linearVelocity, nodeB`angularVelocity
      ensures SolverReady()
      ensures (contacts, Velocities())
              == SolvedContacts(old(contacts), old(Velocities()), nodeA == nodeB, Inertia(), PairFriction(num), dt, num)
    {
      ghost var cs0, v0 := contacts, Velocities();
      var i := 0;
      while i < |contacts|
        invariant 0 <= i <= |contacts| == |cs0|
        invariant SolverReady()
        invariant contacts[i..] == cs0[i..]
        invariant (contacts[..i], Velocities())
                  == SolvedContacts(cs0[..i], v0, nodeA == nodeB, Inertia(), PairFriction(num), dt, num)
      {
        ghost var before := contacts;
        assert cs0[i] == cs0[i..][0] == contacts[i];
        SolveContactPoint(i, dt, num);
        OneMoreSolved(cs0, before, contacts, i);
        i := i + 1;
      }
      assert contacts == contacts[..i] && cs0 == cs0[..i];
    }

    /**
     * SolveContactPoint: one normal and one friction impulse at contact i. The contact
     * and the velocities are those SolvedContact gives, so:
     *   - with both inverse masses zero nothing changes;
     *   - the running normal sum never rises and never leaves (-inf, 0];
     *   - with a non-negative friction coefficient, a contact in the friction cone stays in it;
     *   - the linear impulses are equal and opposite, so linear momentum is conserved.
     */
    method SolveContactPoint(i: nat, dt: real, num: Numerics)
      requires SolverReady() && i < |contacts| && dt > 0.0
      modifies this`contacts, nodeA`linearVelocity, nodeA`angularVelocity, nodeB`linearVelocity, nodeB`angularVelocity
      ensures SolverReady()
      ensures |contacts| == |old(contacts)|
      ensures forall k :: 0 <= k < |contacts| && k != i ==> contacts[k] == old(contacts[k])
      ensures (contacts[i], Velocities())
              == SolvedContact(old(contacts[i]), old(Velocities()), nodeA == nodeB, Inertia(), PairFriction(num), dt, num)
      ensures nodeA != nodeB ==>
                Balanced(old(nodeA.linearVelocity), nodeA.linearVelocity, old(nodeB.linearVelocity), nodeB.linearVelocity,
                         nodeA.invMass, nodeB.invMass)
      ensures SameGeometry(old(contacts[i]), contacts[i])
      ensures contacts[i].elasticityTerm == old(contacts[i].elasticityTerm)
      ensures contacts[i].sumImpulseContact <= old(contacts[i].sumImpulseContact)
      ensures old(contacts[i].sumImpulseContact) <= 0.0 || old(nodeA.invMass + nodeB.invMass) != 0.0 ==>
                contacts[i].sumImpulseContact <= 0.0
      ensures 0.0 <= PairFriction(num) ==>
                InFrictionCone(old(contacts[i]), PairFriction(num)) ==> InFrictionCone(contacts[i], PairFriction(num))
      ensures old(nodeA.invMass + nodeB.invMass) == 0.0 ==>
                contacts == old(contacts)
                && nodeA.linearVelocity == old(nodeA.linearVelocity) && nodeA.angularVelocity == old(nodeA.angularVelocity)
                && nodeB.linearVelocity == old(nodeB.linearVelocity) && nodeB.angularVelocity == old(nodeB.angularVelocity)
    {
      ghost var c0, v0 := contacts[i], Velocities();
      ghost var same, m, coef := nodeA == nodeB, Inertia(), PairFriction(num);
      SolvedContactPushes(c0, v0, same, m, coef, dt, num);
      if 0.0 <= coef && InFrictionCone(c0, coef) {
        SolvedContactKeepsCone(c0, v0, same, m, coef, dt, num);
      }
      if !same {
        SolvedContactConserves(c0, v0, same, m, coef, dt, num);
      }
      var a, b := nodeA, nodeB;
      if a.GetInverseMass() + b.GetInverseMass() != 0.0 {
        var r1 := contacts[i].relPosA;
        var r2 := contacts[i].relPosB;
        var dv := RelativeVelocity(PairVelocities(a.GetLinearVelocity(), a.GetAngularVelocity(),
                                                  b.GetLinearVelocity(), b.GetAngularVelocity()), r1, r2);
        var jn := ResolveCollision(i, dv, dt);
        var tangent, tn := ResolveFriction(i, dv, num);
      }
      assert m == Inertia() && coef == PairFriction(num);
      assert (contacts[i], Velocities()) == SolvedContact(c0, v0, same, m, coef, dt, num);
    }

    /**
     * The collision-resolution half of SolveContactPoint: the normal impulse that
     * removes the approach speed dv along the normal, plus the Baumgarte and
     * restitution biases, with the running sum clamped to push only. Returns the
     * impulse actually applied, which the bodies receive along the normal.
     */
    method ResolveCollision(i: nat, dv: Vector3, dt: real) returns (jn: real)
      requires SolverReady() && i < |contacts| && dt > 0.0
      requires nodeA.invMass + nodeB.invMass != 0.0
      modifies this`contacts, nodeA`linearVelocity, nodeA`angularVelocity, nodeB`linearVelocity, nodeB`angularVelocity
      ensures SolverReady()
      ensures |contacts| == |old(contacts)|
      ensures forall k :: 0 <= k < |contacts| && k != i ==> contacts[k] == old(contacts[k])
      ensures (contacts[i], Velocities())
              == NormalStep(old(contacts[i]), dv, old(Velocities()), nodeA == nodeB, Inertia(), dt)
      ensures Inertia() == old(Inertia())
      ensures contacts[i] == old(contacts[i]).(sumImpulseContact := contacts[i].sumImpulseContact)
      ensures contacts[i].sumImpulseContact <= 0.0 && contacts[i].sumImpulseContact <= old(contacts[i].sumImpulseContact)
      ensures jn == contacts[i].sumImpulseContact - old(contacts[i].sumImpulseContact)
    {
      var a, b := nodeA, nodeB;
      var c := contacts[i];
      var normal := c.collisionNormal;
      var m := PairInertia(a.GetInverseMass(), b.GetInverseMass(), a.GetInverseInertia(), b.GetInverseInertia());
      jn := NormalImpulse(c, dv, dt, m);
      var oldSumImpulseContact := c.sumImpulseContact;
      c := c.(sumImpulseContact := NextNormalSum(oldSumImpulseContact, jn));
      jn := c.sumImpulseContact - oldSumImpulseContact;
      contacts := contacts[i := c];
      ApplyImpulseAlong(a, b, normal, jn, c.relPosA, c.relPosB);
    }

    /**
     * The friction half of SolveContactPoint: when the tangential part of dv is faster
     * than 0.001, an impulse against it, with the running friction sum clamped into the
     * cone the current normal sum allows. Returns the direction and size of the impulse
     * applied (none when the tangential speed is below the threshold).
     */
    method ResolveFriction(i: nat, dv: Vector3, num: Numerics) returns (tangent: Vector3, tn: real)
      requires SolverReady() && i < |contacts|
      requires nodeA.invMass + nodeB.invMass != 0.0
      modifies this`contacts, nodeA`linearVelocity, nodeA`angularVelocity, nodeB`linearVelocity, nodeB`angularVelocity
      ensures SolverReady()
      ensures |contacts| == |old(contacts)|
      ensures forall k :: 0 <= k < |contacts| && k != i ==> contacts[k] == old(contacts[k])
      ensures (contacts[i], Velocities())
              == FrictionStep(old(contacts[i]), dv, old(Velocities()), nodeA == nodeB, Inertia(), PairFriction(num), num)
      ensures Inertia() == old(Inertia())
      ensures contacts[i] == old(contacts[i]).(sumImpulseFriction := contacts[i].sumImpulseFriction)
      ensures Sliding(dv, old(contacts[i].collisionNormal), num) ==>
                tangent == SlideDirection(dv, old(contacts[i].collisionNormal), num)
                && tn == contacts[i].sumImpulseFriction - old(contacts[i].sumImpulseFriction)
      ensures !Sliding(dv, old(contacts[i].collisionNormal), num) ==> tangent == Zero && tn == 0.0
      ensures 0.0 <= PairFriction(num) && InFrictionCone(old(contacts[i]), PairFriction(num)) ==>
                InFrictionCone(contacts[i], PairFriction(num))
    {
      var a, b := nodeA, nodeB;
      var c := contacts[i];
      var normal := c.collisionNormal;
      if Sliding(dv, normal, num) {
        tangent := SlideDirection(dv, normal, num);
        var m := PairInertia(a.GetInverseMass(), b.GetInverseMass(), a.GetInverseInertia(), b.GetInverseInertia());
        var frictionCoef := FrictionCoefficient(num, a.GetFriction(), b.GetFriction());
        ghost var c0, v0 := c, Velocities();
        tn := FrictionImpulse(dv, tangent, c.relPosA, c.relPosB, frictionCoef, m);
        var oldTangentImpulse := c.sumImpulseFriction;
        var maxTn := FrictionBound(frictionCoef, c.sumImpulseContact);
        FrictionStepSliding(c0, dv, v0, a == b, m, frictionCoef, num, tangent, tn, maxTn);
        c := c.(sumImpulseFriction := NextFrictionSum(oldTangentImpulse, tn, maxTn));
        tn := c.sumImpulseFriction - oldTangentImpulse;
        contacts := contacts[i := c];
        ApplyImpulseAlong(a, b, tangent, tn, c.relPosA, c.relPosB);
        assert Velocities() == AfterImpulse(v0, a == b, m, tangent, tn, c.relPosA, c.relPosB);
      } else {
        tangent, tn := Zero, 0.0;
      }
    }
  }

  /**
   * One impulse j along dir at offsets r1 and r2, applied as AfterImpulse describes:
   * A gains it and B loses it, each scaled by its inverse mass, and each body's spin
   * changes by its inverse inertia times the impulse's moment. When A and B are one
   * body both updates land on it.
   */
  method ApplyImpulseAlong(a: PhysicsObject, b: PhysicsObject, dir: Vector3, j: real, r1: Vector3, r2: Vector3)
    requires a.Valid() && b.Valid()
    modifies a`linearVelocity, a`angularVelocity, b`linearVelocity, b`angularVelocity
    ensures a.Valid() && b.Valid()
    ensures VelocitiesOf(a, b) == AfterImpulse(old(VelocitiesOf(a, b)), a == b, InertiaOf(a, b), dir, j, r1, r2)
    ensures a != b ==> Balanced(old(a.linearVelocity), a.linearVelocity, old(b.linearVelocity), b.linearVelocity, a.invMass, b.invMass)
  {
    var m := PairInertia(a.GetInverseMass(), b.GetInverseMass(), a.GetInverseInertia(), b.GetInverseInertia());
    ChangeVelocities(a, b, ImpulseKick(m, dir, j, r1, r2));
  }

  /**
   * Adds the kick's changes to A's velocities and subtracts the others from B's, in the
   * order linear A, linear B, angular A, angular B; when A is B the body gets both.
   */
  method ChangeVelocities(a: PhysicsObject, b: PhysicsObject, k: Kick)
    requires a.Valid() && b.Valid()
    modifies a`linearVelocity, a`angularVelocity, b`linearVelocity, b`angularVelocity
    ensures a.Valid() && b.Valid()
    ensures a != b ==>
              && a.linearVelocity == Add(old(a.linearVelocity), k.dLinA)
              && b.linearVelocity == Sub(old(b.linearVelocity), k.dLinB)
              && a.angularVelocity == Add(old(a.angularVelocity), k.dAngA)
              && b.angularVelocity == Sub(old(b.angularVelocity), k.dAngB)
    ensures a == b ==>
              && a.linearVelocity == Sub(Add(old(a.linearVelocity), k.dLinA), k.dLinB)
              && a.angularVelocity == Sub(Add(old(a.angularVelocity), k.dAngA), k.dAngB)
    ensures VelocitiesOf(a, b) == Changed(old(VelocitiesOf(a, b)), a == b, k)
  {
    a.SetLinearVelocity(Add(a.GetLinearVelocity(), k.dLinA));
    b.SetLinearVelocity(Sub(b.GetLinearVelocity(), k.dLinB));
    a.SetAngularVelocity(Add(a.GetAngularVelocity(), k.dAngA));
    b.SetAngularVelocity(Sub(b.GetAngularVelocity(), k.dAngB));
  }
}
