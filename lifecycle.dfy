/** Construction and destruction of a rigid body, and the creation of its motion accessor
    and solver motion (`RigidBody::RigidBody`, `~RigidBody`, `createMotionAccessor`,
    `initMotionAccessor`, `initMotionAccessorForDynamicMotion`, `createMotion`). */
module Lifecycle {
  import opened Defines
  import opened BodyState
  import F = Flags

  /** What the body takes over from the solver body it wraps. */
  datatype SolverBody = SolverBody(filter: FilterInfo, motion: MotionType, quality: Quality, hasShape: bool)

  /** The state in which the constructor body starts: the flag words, the contact mask and
      the collision counter are zero-initialised, there is no accessor, no contact points,
      no user tag. */
  function Initial(t: BodyType, hk: SolverBody): (b: Body)
    ensures b.flags == {} && b.motion == {} && b.contactMask == {} && b.collisions == 0
    ensures b.accessor.NoAccessor? && b.contactPoints.None? && b.queue == [] && b.events == []
    ensures b.bodyType == t && b.filter == hk.filter && b.solverMotion == hk.motion
  {
    Body(t, {}, {}, {}, hk.filter, 0, hk.motion, hk.quality, false, false, hk.hasShape,
         false, NoAccessor, None, [], [])
  }

  /** The flags the constructor sets: `HighQualityCollidable` for a character controller,
      `IsSensor` for a sensor, `_10` when asked, and always `UseSystemTimeFactor`. */
  function ConstructorFlags(t: BodyType, layerType: LayerType, a7: bool): set<F.Flag>
  {
    (if t == CharacterController then {F.HighQualityCollidable} else {})
    + (if layerType == Sensor then {F.IsSensor} else {})
    + (if a7 then {F.U10} else {})
    + {F.UseSystemTimeFactor}
  }

  /** The constructor as written: the solver's deactivation is enabled, and mass scaling is
      switched on when `IsSensor` is clear, which is checked before `IsSensor` is set, on the
      zero-initialised flags. */
  function ConstructAsWritten(t: BodyType, layerType: LayerType, hk: SolverBody, a7: bool): (b: Body)
    ensures b.massScaling
    ensures b.flags == ConstructorFlags(t, layerType, a7)
  {
    var b0 := Initial(t, hk).(deactivation := true);
    var b1 := if !IsSensor(b0) then b0.(massScaling := true) else b0;
    b1.(flags := Change(Change(Change(b1.flags, F.HighQualityCollidable, t == CharacterController),
                               F.IsSensor, layerType == Sensor), F.U10, a7) + {F.UseSystemTimeFactor})
  }

  /** As written, a sensor body gets mass scaling too: the role test cannot see the role. */
  lemma SensorGetsMassScalingAsWritten(t: BodyType, hk: SolverBody, a7: bool)
    ensures IsSensor(ConstructAsWritten(t, Sensor, hk, a7))
    ensures ConstructAsWritten(t, Sensor, hk, a7).massScaling
  {
    assert F.IsSensor in ConstructorFlags(t, Sensor, a7);
  }

  /** The constructor with the role test made after the role is known: mass scaling only for
      an entity. Everything else is as written. */
  function Construct(t: BodyType, layerType: LayerType, hk: SolverBody, a7: bool): (b: Body)
    ensures b.flags == ConstructorFlags(t, layerType, a7)
    ensures b == ConstructAsWritten(t, layerType, hk, a7).(massScaling := b.massScaling)
  {
    var b1 := ConstructAsWritten(t, layerType, hk, a7);
    b1.(massScaling := layerType == Entity)
  }

  /** A freshly constructed body: its role is the layer type it was created for and mass
      scaling follows the role; `HighQualityCollidable` marks a character controller, `_10`
      the constructor's last argument; deactivation is enabled; no collision is counted, so
      `_4000000` agrees with the counter; the body holds no accessor. */
  lemma ConstructedBody(t: BodyType, layerType: LayerType, hk: SolverBody, a7: bool)
    ensures var b := Construct(t, layerType, hk, a7);
      && (IsSensor(b) <==> layerType == Sensor)
      && LayerTypeOf(b) == layerType
      && (b.massScaling <==> IsEntity(b))
      && (F.HighQualityCollidable in b.flags <==> t == CharacterController)
      && (F.U10 in b.flags <==> a7)
      && F.UseSystemTimeFactor in b.flags
      && F.Frozen !in b.flags && F.UpdateRequested !in b.flags
      && b.deactivation
      && CollisionFlagTracksCount(b)
      && RoleConsistent(b) && !HasAccessor(b)
      && b.queue == [] && b.events == []
  {
    var b := Construct(t, layerType, hk, a7);
    assert F.IsSensor in b.flags <==> layerType == Sensor;
  }

  /** A body as the constructor builds it, field by field: only the flag word depends on the
      arguments, and mass scaling is on for every role. */
  lemma ConstructedFields(t: BodyType, layerType: LayerType, hk: SolverBody, a7: bool)
    ensures ConstructAsWritten(t, layerType, hk, a7)
      == Body(t, ConstructorFlags(t, layerType, a7), {}, {}, hk.filter, 0, hk.motion,
              hk.quality, true, true, hk.hasShape, false, NoAccessor, None, [], [])
  {
    var b0 := Initial(t, hk).(deactivation := true);
    assert !IsSensor(b0);
  }

  /** Whether the destructor hands the solver body's name and arrays back: not for
      `Type::_0`, terrain height fields or character controllers. */
  predicate ReleasesSolverBody(t: BodyType)
  {
    t != T0 && t != TerrainHeightField && t != CharacterController
  }

  /** `~RigidBody`: releases the solver body's name and internal arrays unless it is one of
      the three kinds that keep them, and deletes the motion accessor. */
  function Destroy(b: Body): (r: Body)
    ensures !HasAccessor(r)
    ensures r.events == b.events + (if ReleasesSolverBody(b.bodyType) then [SolverBodyReleased] else [])
    ensures r == b.(accessor := NoAccessor, events := r.events)
  {
    var b1 := if ReleasesSolverBody(b.bodyType) then b.(events := b.events + [SolverBodyReleased]) else b;
    b1.(accessor := NoAccessor)
  }

  /** `createMotionAccessor`: a sensor motion accessor for a sensor, an entity motion
      accessor for an entity, freshly initialised. */
  function CreateMotionAccessor(b: Body): (r: Body)
    ensures HasAccessor(r) && RoleConsistent(r)
    ensures IsSensor(b) ==> r.accessor == SensorMotion(false, false, None)
    ensures IsEntity(b) ==> r.accessor == EntityMotion({}, map[])
    ensures r == b.(accessor := r.accessor)
  {
    if IsSensor(b) then b.(accessor := SensorMotion(false, false, None))
    else b.(accessor := EntityMotion({}, map[]))
  }

  /** `createMotion(motion, type, param)`: builds a fixed, dynamic or keyframed solver motion
      (nothing for `Unknown` or `Invalid`), then, unless one of the three deactivation flags
      is set, switches deactivation off and on again. */
  function CreateMotion(b: Body, t: MotionType): (r: Body)
    ensures t == Dynamic || t == Fixed || t == Keyframed ==> r.solverMotion == t
    ensures !(t == Dynamic || t == Fixed || t == Keyframed) ==> r.solverMotion == b.solverMotion
    ensures !DeactivationBlocked(b.flags) ==> r.deactivation
    ensures DeactivationBlocked(b.flags) ==> r.deactivation == b.deactivation
    ensures r == b.(solverMotion := r.solverMotion, deactivation := r.deactivation)
  {
    var b1 := if t == Dynamic || t == Fixed || t == Keyframed then b.(solverMotion := t) else b;
    if !DeactivationBlocked(b1.flags) then b1.(deactivation := false).(deactivation := true) else b1
  }

  /** Creating a motion never leaves deactivation less enabled than `updateDeactivation`
      would: with no blocking flag both enable it. */
  lemma CreateMotionAgreesWithDeactivationRule(b: Body, t: MotionType)
    requires !DeactivationBlocked(b.flags)
    ensures CreateMotion(b, t).deactivation == UpdateDeactivation(b).deactivation
  {
  }

  /** `mMotionAccessor->init(param, heap)`: an entity accessor takes the parameter values of
      `param`; a sensor accessor keeps what it holds. */
  function InitAccessor(b: Body, param: map<EntityParam, real>): (r: Body)
    requires HasAccessor(b) && RoleConsistent(b)
    ensures HasAccessor(r) && RoleConsistent(r)
    ensures IsEntity(b) ==> r.accessor == b.accessor.(params := param)
    ensures IsSensor(b) ==> r == b
    ensures r == b.(accessor := r.accessor)
  {
    if IsEntity(b) then b.(accessor := b.accessor.(params := param)) else b
  }

  /** `initMotionAccessor(param, heap, initMotion)`: optionally creates the solver motion of
      the parameter's motion type, then the accessor, which is initialised from `param`. */
  function InitMotionAccessor(b: Body, t: MotionType, initMotion: bool, param: map<EntityParam, real>): (r: Body)
    ensures HasAccessor(r) && RoleConsistent(r)
    ensures initMotion ==> r == InitAccessor(CreateMotionAccessor(CreateMotion(b, t)), param)
    ensures !initMotion ==> r == InitAccessor(CreateMotionAccessor(b), param)
    ensures IsEntity(b) ==> r.accessor == EntityMotion({}, param)
    ensures IsSensor(b) ==> r.accessor == SensorMotion(false, false, None)
  {
    InitAccessor(CreateMotionAccessor(if initMotion then CreateMotion(b, t) else b), param)
  }

  /** `initMotionAccessorForDynamicMotion`: the accessor, initialised from a parameter block
      filled from the solver body's own mass, dampings and gravity factor; `param` stands for
      that block, since the solver body's mass properties are not part of this model. */
  function InitMotionAccessorForDynamicMotion(b: Body, param: map<EntityParam, real>): (r: Body)
    ensures HasAccessor(r) && RoleConsistent(r) && r.flags == b.flags
    ensures r == InitAccessor(CreateMotionAccessor(b), param)
    ensures IsSensor(b) ==> r.accessor == SensorMotion(false, false, None)
    ensures IsEntity(b) ==> r.accessor == EntityMotion({}, param)
    ensures r == b.(accessor := r.accessor)
  {
    InitAccessor(CreateMotionAccessor(b), param)
  }
}
