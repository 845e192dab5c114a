/** The administrative state of a rigid body as a value, and the operations on it that the
    rest of the model builds on: the role reads, `setMotionFlag` with its request queue,
    `resetMotionFlagDirect`, the deactivation rule and the collision counter hooks.

    The solver body (`hkpRigidBody`) is opaque: the model keeps only the facts the
    administrative code reads or writes (its motion type, collidable quality, deactivation
    switch, filter word and whether it has a shape). Calls into the motion accessor, the
    request manager, the contact system and the user tag are recorded, in order, as
    events. */
module BodyState {
  import opened Defines
  import F = Flags
  import M = MotionFlags

  /** `RigidBodyMotionEntity::Flag`; `E<hex>` is the flag `_<hex>`. */
  datatype EntityFlag = E1 | E2 | E4 | E8 | E10 | E20 | E40 | E80 | E100 | E200

  /** The scalar physical parameters an entity motion accessor holds. */
  datatype EntityParam =
    | Mass | MassInv | LinearDamping | AngularDamping | GravityFactor | WaterBuoyancyScale
    | WaterFlowEffectiveRate | MagneMassScalingFactor | FrictionScale | RestitutionScale
    | MaxImpulse | ColImpulseScale

  /** `mMotionAccessor`: absent, a `RigidBodyMotionEntity`, or a `RigidBodyMotionSensor`
      (whose flags `_40000`/`_400000` the body reads and whose linked body it sets). */
  datatype Accessor =
    | NoAccessor
    | EntityMotion(entityFlags: set<EntityFlag>, params: map<EntityParam, real>)
    | SensorMotion(flag40000: bool, flag400000: bool, linked: Option<nat>)

  /** `RigidContactPoints`, as far as `setContactPoints` looks at it. */
  datatype ContactPoints = ContactPoints(id: nat, linked: bool)

  /** Calls the body makes on its motion accessor. */
  datatype AccessorCall =
    | Position(position: Vec3, propagate: bool)
    | Transform(transform: Matrix34, propagate: bool)
    | LinearVelocity(linear: Vec3)
    | AngularVelocity(angular: Vec3)
    | FreezeMotion(on: bool, preserveVelocities: bool, preserveMaxImpulse: bool)
    | FrozenStateReset
    | ApplyLinearImpulse(linearImpulse: Vec3)
    | ApplyAngularImpulse(angularImpulse: Vec3)
    | ApplyPointImpulse(pointImpulse: Vec3, point: Vec3)
    | UpdateMotionExceptStateAndVel
    | DeregisterAllAccessors
    | ShapeReplaced
    | ShapeRecomputed

  /** Everything the body does outside its own fields, in order. */
  datatype Event =
    | InvalidParameter(code: int)
    | Call(call: AccessorCall)
    | TimeFactorRequested(systemTimeFactor: bool)
    | RegisteredForContactSystem(previousLayer: ContactLayer)
    | ContactPointsRegistered(points: ContactPoints)
    | ListShapeFiltersReset
    | MotionTypeChanged(target: MotionType, current: MotionType)
    | MotionSettled
    | X8Called
    | SolverShapeSet
    | SolverShapeUpdated
    | UserTagShapeChanged
    | SolverBodyReleased

  /** Answers from the rest of the system that the body asks for but does not own. */
  datatype Env = Env(
    paused: bool,
    linearVelocityTooHigh: Vec3 -> bool,
    accessorAccepts: bool,
    newShape: bool)

  datatype Body = Body(
    bodyType: BodyType,
    flags: set<F.Flag>,
    motion: set<M.MotionFlag>,
    /** The positions of the bits set in `mContactMask`, each below 32. */
    contactMask: set<nat>,
    filter: FilterInfo,
    collisions: int,
    solverMotion: MotionType,
    quality: Quality,
    deactivation: bool,
    massScaling: bool,
    hasShape: bool,
    hasUserTag: bool,
    accessor: Accessor,
    contactPoints: Option<ContactPoints>,
    queue: seq<LayerType>,
    events: seq<Event>)

  /** `mFlags.change(f, on)` and its motion-flag counterpart. */
  function Change<T>(s: set<T>, x: T, on: bool): (r: set<T>)
    ensures x in r <==> on
    ensures r - {x} == s - {x}
  {
    if on then s + {x} else s - {x}
  }

  /** `isSensor`. */
  predicate IsSensor(b: Body)
  {
    F.IsSensor in b.flags
  }

  /** `isEntity`. */
  predicate IsEntity(b: Body)
  {
    F.IsSensor !in b.flags
  }

  /** `getLayerType`. */
  function LayerTypeOf(b: Body): LayerType
  {
    if F.IsSensor in b.flags then Sensor else Entity
  }

  /** The role reads agree: a body is an entity exactly when it is not a sensor, and its layer
      type is Sensor exactly when `IsSensor` is set. */
  lemma RoleReads(b: Body)
    ensures IsEntity(b) <==> !IsSensor(b)
    ensures LayerTypeOf(b) == Sensor <==> F.IsSensor in b.flags
    ensures LayerTypeOf(b) == Entity <==> IsEntity(b)
  {
  }

  /** `isFlag8Set`: the body is in the state where motion changes are deferred through the
      request queue instead of being applied at once. */
  predicate IsFlag8Set(b: Body)
  {
    F.U8 in b.flags
  }

  predicate HasAccessor(b: Body)
  {
    !b.accessor.NoAccessor?
  }

  /** The motion accessor, when there is one, is the kind `createMotionAccessor` makes for
      the body's role. */
  predicate RoleConsistent(b: Body)
  {
    b.accessor.NoAccessor? || (b.accessor.SensorMotion? <==> IsSensor(b))
  }

  predicate IsCharacterController(b: Body)
  {
    b.bodyType == CharacterController
  }

  /** Whether `setMotionFlag` pushes the body onto the request queue. */
  predicate Enqueues(b: Body)
  {
    F.U20 !in b.flags && F.UpdateRequested !in b.flags
  }

  /** `setMotionFlag`: the flag is always set; the body is pushed onto the request queue of
      its layer type, and marked `UpdateRequested`, only when neither `_20` nor
      `UpdateRequested` is set. Nothing else changes. */
  function SetMotionFlag(b: Body, f: M.MotionFlag): (r: Body)
    ensures r.motion == b.motion + {f}
    ensures F.UpdateRequested in r.flags <==> F.UpdateRequested in b.flags || Enqueues(b)
    ensures r.flags - {F.UpdateRequested} == b.flags - {F.UpdateRequested}
    ensures r.queue == b.queue + (if Enqueues(b) then [LayerTypeOf(b)] else [])
    ensures r == b.(motion := r.motion, flags := r.flags, queue := r.queue)
  {
    var b1 := b.(motion := b.motion + {f});
    if Enqueues(b1) then
      b1.(flags := b1.flags + {F.UpdateRequested}, queue := b1.queue + [LayerTypeOf(b1)])
    else b1
  }

  /** Several `setMotionFlag` calls in a row. */
  function SetMotionFlags(b: Body, fs: seq<M.MotionFlag>): Body
    decreases |fs|
  {
    if fs == [] then b else SetMotionFlags(SetMotionFlag(b, fs[0]), fs[1..])
  }

  /** Repeated `setMotionFlag` calls enqueue the body at most once until `UpdateRequested`
      is cleared again, and not at all if it is already set or `_20` is set; every flag
      passed ends up set. */
  lemma {:induction false} EnqueuedAtMostOnce(b: Body, fs: seq<M.MotionFlag>)
    ensures var r := SetMotionFlags(b, fs);
      && r.queue == b.queue + (if Enqueues(b) && fs != [] then [LayerTypeOf(b)] else [])
      && forall i :: 0 <= i < |fs| ==> fs[i] in r.motion
    decreases |fs|
  {
    if fs != [] {
      var b1 := SetMotionFlag(b, fs[0]);
      EnqueuedAtMostOnce(b1, fs[1..]);
      assert !Enqueues(b1);
      assert LayerTypeOf(b1) == LayerTypeOf(b);
      forall i | 0 <= i < |fs| ensures fs[i] in SetMotionFlags(b, fs).motion {
        if i > 0 {
          assert fs[i] == fs[1..][i - 1];
        } else {
          SetMotionFlagsKeeps(b1, fs[1..], fs[0]);
        }
      }
    }
  }

  /** Setting motion flags never clears one. */
  lemma {:induction false} SetMotionFlagsKeeps(b: Body, fs: seq<M.MotionFlag>, f: M.MotionFlag)
    requires f in b.motion
    ensures f in SetMotionFlags(b, fs).motion
    decreases |fs|
  {
    if fs != [] {
      SetMotionFlagsKeeps(SetMotionFlag(b, fs[0]), fs[1..], f);
    }
  }

  /** `resetMotionFlagDirect`: clears one motion flag and nothing else; unlike
      `setMotionFlag` it never touches `UpdateRequested` or the request queue. */
  function ResetMotionFlagDirect(b: Body, f: M.MotionFlag): (r: Body)
    ensures f !in r.motion && r.motion + {f} >= b.motion && r.motion <= b.motion
    ensures r.flags == b.flags && r.queue == b.queue
    ensures r == b.(motion := r.motion)
  {
    b.(motion := b.motion - {f})
  }

  /** Clearing a flag directly after setting it leaves the motion flags as they were when the
      flag was clear before. */
  lemma ResetUndoesSet(b: Body, f: M.MotionFlag)
    requires f !in b.motion
    ensures ResetMotionFlagDirect(SetMotionFlag(b, f), f).motion == b.motion
  {
  }

  /** Flags `_2000000`, `_4000000` and `_8000000`: while any is set, the solver body must not
      deactivate. */
  predicate DeactivationBlocked(flags: set<F.Flag>)
  {
    F.U2000000 in flags || F.U4000000 in flags || F.U8000000 in flags
  }

  predicate IsDeactivationFlag(f: F.Flag)
  {
    f == F.U2000000 || f == F.U4000000 || f == F.U8000000
  }

  /** `updateDeactivation`: deactivation ends up enabled exactly when none of the three
      blocking flags is set; only the solver's switch changes. */
  function UpdateDeactivation(b: Body): (r: Body)
    ensures r.deactivation <==> !DeactivationBlocked(b.flags)
    ensures r == b.(deactivation := r.deactivation)
  {
    if DeactivationBlocked(b.flags) then
      (if b.deactivation then b.(deactivation := false) else b)
    else if !b.deactivation then b.(deactivation := true)
    else b
  }

  /** `clearFlag2000000`, `clearFlag4000000`, `clearFlag8000000`: the flag ends up clear
      exactly when `clear` is true. If that changed it, the body either marks
      `MotionFlag::_10000` (when flag `_8` is set) or applies the deactivation rule at once. */
  function ClearDeactivationFlag(b: Body, f: F.Flag, clear: bool): (r: Body)
    requires IsDeactivationFlag(f)
    ensures f in r.flags <==> !clear
    ensures (f !in b.flags) == clear ==> r == b
    ensures (f !in b.flags) != clear && IsFlag8Set(b) ==>
      M.U10000 in r.motion && r.deactivation == b.deactivation
    ensures (f !in b.flags) != clear && IsFlag8Set(b) ==>
      r == SetMotionFlag(b.(flags := Change(b.flags, f, !clear)), M.U10000)
    ensures (f !in b.flags) != clear && !IsFlag8Set(b) ==>
      r.deactivation == !DeactivationBlocked(r.flags) && r.motion == b.motion && r.queue == b.queue
    ensures r == b.(flags := r.flags, motion := r.motion, queue := r.queue, deactivation := r.deactivation)
  {
    if (f !in b.flags) == clear then b
    else
      var b1 := b.(flags := Change(b.flags, f, !clear));
      if IsFlag8Set(b1) then SetMotionFlag(b1, M.U10000) else UpdateDeactivation(b1)
  }

  /** Clearing or setting a deactivation flag changes no flag besides itself and
      `UpdateRequested`. */
  lemma ClearDeactivationFlagKeepsOthers(b: Body, f: F.Flag, clear: bool)
    requires IsDeactivationFlag(f)
    ensures var r := ClearDeactivationFlag(b, f, clear);
      r.flags - {f, F.UpdateRequested} == b.flags - {f, F.UpdateRequested}
  {
    if (f !in b.flags) != clear {
      var b1 := b.(flags := Change(b.flags, f, !clear));
      assert b1.flags - {f} == b.flags - {f};
    }
  }

  /** `onCollisionAdded`: the counter's previous value is 0 exactly when the body starts
      touching something, and then flag `_4000000` is set through `clearFlag4000000(false)`,
      which marks `_10000` while flag `_8` is set and otherwise applies the deactivation
      rule. */
  function OnCollisionAdded(b: Body): (r: Body)
    ensures r.collisions == b.collisions + 1
    ensures b.collisions == 0 ==> F.U4000000 in r.flags
    ensures b.collisions == 0 ==>
      r == ClearDeactivationFlag(b.(collisions := b.collisions + 1), F.U4000000, false)
    ensures b.collisions == 0 && F.U4000000 !in b.flags && IsFlag8Set(b) ==>
      M.U10000 in r.motion && r.deactivation == b.deactivation
    ensures b.collisions == 0 && F.U4000000 !in b.flags && !IsFlag8Set(b) ==>
      r.deactivation == !DeactivationBlocked(r.flags) && r.motion == b.motion && r.queue == b.queue
    ensures b.collisions != 0 ==> r == b.(collisions := r.collisions)
  {
    var b1 := b.(collisions := b.collisions + 1);
    if b.collisions == 0 then ClearDeactivationFlag(b1, F.U4000000, false) else b1
  }

  /** `onCollisionRemoved`: the counter's previous value is 1 exactly when the last contact
      goes away, and then flag `_4000000` is cleared through `clearFlag4000000(true)`, with
      the same follow-up as in `onCollisionAdded`. */
  function OnCollisionRemoved(b: Body): (r: Body)
    ensures r.collisions == b.collisions - 1
    ensures b.collisions == 1 ==> F.U4000000 !in r.flags
    ensures b.collisions == 1 ==>
      r == ClearDeactivationFlag(b.(collisions := b.collisions - 1), F.U4000000, true)
    ensures b.collisions == 1 && F.U4000000 in b.flags && IsFlag8Set(b) ==>
      M.U10000 in r.motion && r.deactivation == b.deactivation
    ensures b.collisions == 1 && F.U4000000 in b.flags && !IsFlag8Set(b) ==>
      r.deactivation == !DeactivationBlocked(r.flags) && r.motion == b.motion && r.queue == b.queue
    ensures b.collisions != 1 ==> r == b.(collisions := r.collisions)
  {
    var b1 := b.(collisions := b.collisions - 1);
    if b.collisions == 1 then ClearDeactivationFlag(b1, F.U4000000, true) else b1
  }

  /** Flag `_4000000` is set exactly while the body touches something. */
  predicate CollisionFlagTracksCount(b: Body)
  {
    b.collisions >= 0 && (F.U4000000 in b.flags <==> b.collisions > 0)
  }

  datatype Hook = Added | Removed

  /** A sequence of hook calls that never removes more contacts than were added. */
  predicate Balanced(count: int, hs: seq<Hook>)
    decreases |hs|
  {
    hs == [] || (hs[0] == Added && Balanced(count + 1, hs[1..]))
    || (hs[0] == Removed && count > 0 && Balanced(count - 1, hs[1..]))
  }

  function RunHooks(b: Body, hs: seq<Hook>): Body
    decreases |hs|
  {
    if hs == [] then b
    else RunHooks(if hs[0] == Added then OnCollisionAdded(b) else OnCollisionRemoved(b), hs[1..])
  }

  /** Starting from a body whose flag matches its counter, any balanced sequence of
      `onCollisionAdded`/`onCollisionRemoved` calls keeps flag `_4000000` on exactly while the
      counter is positive. */
  lemma {:induction false} CollisionFlagInvariant(b: Body, hs: seq<Hook>)
    requires CollisionFlagTracksCount(b) && Balanced(b.collisions, hs)
    ensures CollisionFlagTracksCount(RunHooks(b, hs))
    decreases |hs|
  {
    if hs != [] {
      var b1 := if hs[0] == Added then OnCollisionAdded(b) else OnCollisionRemoved(b);
      assert CollisionFlagTracksCount(b1);
      CollisionFlagInvariant(b1, hs[1..]);
    }
  }
}
