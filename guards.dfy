/** Entity/Sensor role dispatch and the parameter guards: the position, transform, velocity
    and impulse setters that reject NaN input through `onInvalidParameter`, the entity-only
    parameters and motion-accessor flags that fall back to fixed defaults on sensors, the
    sensor's linked body, `updateShape` and `setContactPoints`. */
module Guards {
  import opened Defines
  import opened BodyState
  import Lifecycle
  import F = Flags
  import M = MotionFlags

  /** `setPosition`: a position with a NaN component is reported with code 0 and dropped;
      any other is handed to the motion accessor, which the source calls without a null
      check. */
  function SetPosition(b: Body, position: Vec3, propagate: bool): (r: Body)
    requires !HasNaN(position) ==> HasAccessor(b)
    ensures HasNaN(position) ==> r == b.(events := b.events + [InvalidParameter(0)])
    ensures !HasNaN(position) ==> r == b.(events := b.events + [Call(Position(position, propagate))])
  {
    if HasNaN(position) then b.(events := b.events + [InvalidParameter(0)])
    else b.(events := b.events + [Call(Position(position, propagate))])
  }

  /** `setTransform`: the same guard over the twelve matrix entries. */
  function SetTransform(b: Body, transform: Matrix34, propagate: bool): (r: Body)
    requires !MatrixHasNaN(transform) ==> HasAccessor(b)
    ensures MatrixHasNaN(transform) ==> r == b.(events := b.events + [InvalidParameter(0)])
    ensures !MatrixHasNaN(transform) ==> r == b.(events := b.events + [Call(Transform(transform, propagate))])
  {
    if MatrixHasNaN(transform) then b.(events := b.events + [InvalidParameter(0)])
    else b.(events := b.events + [Call(Transform(transform, propagate))])
  }

  /** Whether `setLinearVelocity` rejects `v`: NaN (code 0) or, for an entity, a velocity the
      request manager's configuration calls too high (code 1). */
  predicate LinearVelocityRejected(b: Body, v: Vec3, env: Env)
  {
    HasNaN(v) || (IsEntity(b) && env.linearVelocityTooHigh(v))
  }

  /** `setLinearVelocity`: the NaN check comes first and reports code 0; then an entity's
      velocity that is too high is reported with code 1; otherwise the velocity goes to the
      motion accessor and its answer is returned. Only the event log changes. */
  function SetLinearVelocity(b: Body, v: Vec3, env: Env): (r: (Body, bool))
    requires !LinearVelocityRejected(b, v, env) ==> HasAccessor(b)
    ensures r.1 ==> !LinearVelocityRejected(b, v, env)
    ensures HasNaN(v) ==> r.0.events == b.events + [InvalidParameter(0)]
    ensures !HasNaN(v) && LinearVelocityRejected(b, v, env) ==> r.0.events == b.events + [InvalidParameter(1)]
    ensures !LinearVelocityRejected(b, v, env) ==>
      r.0.events == b.events + [Call(LinearVelocity(v))] && r.1 == env.accessorAccepts
    ensures r.0 == b.(events := r.0.events)
  {
    if HasNaN(v) then (b.(events := b.events + [InvalidParameter(0)]), false)
    else if IsEntity(b) && env.linearVelocityTooHigh(v) then (b.(events := b.events + [InvalidParameter(1)]), false)
    else (b.(events := b.events + [Call(LinearVelocity(v))]), env.accessorAccepts)
  }

  /** `setAngularVelocity`: only the NaN check. */
  function SetAngularVelocity(b: Body, v: Vec3, env: Env): (r: (Body, bool))
    requires !HasNaN(v) ==> HasAccessor(b)
    ensures r.1 ==> !HasNaN(v)
    ensures HasNaN(v) ==> r.0.events == b.events + [InvalidParameter(0)]
    ensures !HasNaN(v) ==> r.0.events == b.events + [Call(AngularVelocity(v))] && r.1 == env.accessorAccepts
    ensures r.0 == b.(events := r.0.events)
  {
    if HasNaN(v) then (b.(events := b.events + [InvalidParameter(0)]), false)
    else (b.(events := b.events + [Call(AngularVelocity(v))]), env.accessorAccepts)
  }

  predicate IsImpulse(call: AccessorCall)
  {
    call.ApplyLinearImpulse? || call.ApplyAngularImpulse? || call.ApplyPointImpulse?
  }

  /** The vectors an impulse call checks, in the order it checks them. */
  function ImpulseInputs(call: AccessorCall): seq<Vec3>
    requires IsImpulse(call)
  {
    match call
    case ApplyLinearImpulse(v) => [v]
    case ApplyAngularImpulse(v) => [v]
    case ApplyPointImpulse(v, p) => [v, p]
  }

  predicate SomeInputInvalid(call: AccessorCall)
    requires IsImpulse(call)
  {
    exists i :: 0 <= i < |ImpulseInputs(call)| && HasNaN(ImpulseInputs(call)[i])
  }

  /** Whether an impulse gets past the pause check, the `_400`/`_40` check and the NaN
      check. */
  predicate ImpulseGuardsPass(b: Body, call: AccessorCall, env: Env)
    requires IsImpulse(call)
  {
    !env.paused && F.U400 !in b.flags && F.U40 !in b.flags && !SomeInputInvalid(call)
  }

  /** `applyLinearImpulse`, `applyAngularImpulse`, `applyPointImpulse`: checked in the order
      paused, flags `_400`/`_40`, invalid input (reported once, with code 0), entity. Only
      an entity's accessor receives the impulse; a sensor ignores it silently. */
  function ApplyImpulse(b: Body, call: AccessorCall, env: Env): (r: Body)
    requires IsImpulse(call)
    requires ImpulseGuardsPass(b, call, env) && IsEntity(b) ==> b.accessor.EntityMotion?
    ensures env.paused ==> r == b
    ensures (F.U400 in b.flags || F.U40 in b.flags) ==> r == b
    ensures !env.paused && F.U400 !in b.flags && F.U40 !in b.flags && SomeInputInvalid(call) ==>
      r == b.(events := b.events + [InvalidParameter(0)])
    ensures ImpulseGuardsPass(b, call, env) ==>
      r == b.(events := b.events + if IsEntity(b) then [Call(call)] else [])
  {
    if env.paused then b
    else if F.U400 in b.flags || F.U40 in b.flags then b
    else if SomeInputInvalid(call) then b.(events := b.events + [InvalidParameter(0)])
    else if IsEntity(b) then b.(events := b.events + [Call(call)])
    else b
  }

  /** Whether the getter of `p` first checks that there is a motion accessor (and otherwise
      returns its default as a sensor would). */
  predicate GetterChecksAccessor(p: EntityParam)
  {
    p.GravityFactor? || p.MagneMassScalingFactor? || p.FrictionScale? || p.RestitutionScale?
    || p.MaxImpulse? || p.ColImpulseScale?
  }

  /** Whether the setter of `p` checks that there is a motion accessor. */
  predicate SetterChecksAccessor(p: EntityParam)
  {
    p.GravityFactor? || p.MagneMassScalingFactor?
  }

  /** What the getter of `p` returns on a sensor: 0 for mass, inverse mass, dampings and the
      water rates, 1 for gravity factor, friction, restitution and the impulse scales, -1 for
      the magne mass scaling factor. */
  function SensorDefault(p: EntityParam): real
  {
    match p
    case Mass => 0.0
    case MassInv => 0.0
    case LinearDamping => 0.0
    case AngularDamping => 0.0
    case WaterBuoyancyScale => 0.0
    case WaterFlowEffectiveRate => 0.0
    case GravityFactor => 1.0
    case FrictionScale => 1.0
    case RestitutionScale => 1.0
    case MaxImpulse => 1.0
    case ColImpulseScale => 1.0
    case MagneMassScalingFactor => -1.0
  }

  /** The value the entity accessor holds for `p` (0 if it was never given one). */
  function Stored(a: Accessor, p: EntityParam): real
    requires a.EntityMotion?
  {
    if p in a.params then a.params[p] else 0.0
  }

  /** Whether the getter of `p` answers with its default instead of asking the accessor. */
  predicate ReadsDefault(b: Body, p: EntityParam)
  {
    IsSensor(b) || (GetterChecksAccessor(p) && !HasAccessor(b))
  }

  /** The entity parameter getters (`getMass`, `getGravityFactor`, …): the default on a
      sensor (and, for getters that check, without an accessor), the accessor's value
      otherwise. */
  function ReadParam(b: Body, p: EntityParam): (v: real)
    requires !ReadsDefault(b, p) ==> b.accessor.EntityMotion?
    ensures ReadsDefault(b, p) ==> v == SensorDefault(p)
    ensures !ReadsDefault(b, p) ==> v == Stored(b.accessor, p)
  {
    if ReadsDefault(b, p) then SensorDefault(p) else Stored(b.accessor, p)
  }

  /** After the accessor is initialised, an entity's getters answer the values handed to
      `init`, and a parameter the block does not carry reads as 0. */
  lemma InitThenReadParam(b: Body, param: map<EntityParam, real>, p: EntityParam)
    requires IsEntity(b)
    ensures var r := Lifecycle.InitMotionAccessorForDynamicMotion(b, param);
      ReadParam(r, p) == (if p in param then param[p] else 0.0)
    ensures var r := Lifecycle.InitMotionAccessor(b, Dynamic, true, param);
      ReadParam(r, p) == (if p in param then param[p] else 0.0)
  {
  }

  /** The value a setter stores: restitution is clamped to [0, 1], the collision impulse
      scale to at least 0. */
  function Normalize(p: EntityParam, v: real): (w: real)
    ensures p == RestitutionScale ==> 0.0 <= w <= 1.0
    ensures p == ColImpulseScale ==> 0.0 <= w
    ensures p != RestitutionScale && p != ColImpulseScale ==> w == v
  {
    if p == RestitutionScale then (if v < 0.0 then 0.0 else if v > 1.0 then 1.0 else v)
    else if p == ColImpulseScale then (if v < 0.0 then 0.0 else v)
    else v
  }

  /** Whether the setter of `p` does nothing. */
  predicate IgnoresWrite(b: Body, p: EntityParam)
  {
    IsSensor(b) || (SetterChecksAccessor(p) && !HasAccessor(b))
  }

  /** The entity parameter setters (`setMass`, `setRestitutionScale`, …; the inverse mass has
      none): ignored on a sensor (and, for setters that check, without an accessor);
      otherwise the accessor stores the normalised value. */
  function WriteParam(b: Body, p: EntityParam, v: real): (r: Body)
    requires p != MassInv
    requires !IgnoresWrite(b, p) ==> b.accessor.EntityMotion?
    ensures IgnoresWrite(b, p) ==> r == b
    ensures !IgnoresWrite(b, p) ==>
      r.accessor.EntityMotion? && Stored(r.accessor, p) == Normalize(p, v)
      && r.accessor.entityFlags == b.accessor.entityFlags
      && (forall q :: q != p ==> Stored(r.accessor, q) == Stored(b.accessor, q))
    ensures r == b.(accessor := r.accessor)
  {
    if IgnoresWrite(b, p) then b
    else b.(accessor := b.accessor.(params := b.accessor.params[p := Normalize(p, v)]))
  }

  /** Reading a parameter back after writing it gives the normalised value on an entity with
      an accessor, and the fixed default on a sensor, whatever was written. */
  lemma ReadAfterWrite(b: Body, p: EntityParam, v: real)
    requires p != MassInv
    requires IsSensor(b) || b.accessor.EntityMotion?
    ensures IsEntity(b) ==> ReadParam(WriteParam(b, p, v), p) == Normalize(p, v)
    ensures IsSensor(b) ==> ReadParam(WriteParam(b, p, v), p) == SensorDefault(p)
  {
  }

  /** `getEffectiveRestitutionScale`: halved while any of flags `_2000`, `_4000`, `_8000`,
      `_10000` is set. */
  function EffectiveRestitutionScale(b: Body): (v: real)
    requires !ReadsDefault(b, RestitutionScale) ==> b.accessor.EntityMotion?
    ensures (F.U2000 in b.flags || F.U4000 in b.flags || F.U8000 in b.flags || F.U10000 in b.flags) ==>
      v == ReadParam(b, RestitutionScale) / 2.0
    ensures !(F.U2000 in b.flags || F.U4000 in b.flags || F.U8000 in b.flags || F.U10000 in b.flags) ==>
      v == ReadParam(b, RestitutionScale)
  {
    var s := ReadParam(b, RestitutionScale);
    if F.U2000 in b.flags || F.U4000 in b.flags || F.U8000 in b.flags || F.U10000 in b.flags then s * 0.5 else s
  }

  /** Whatever is written as restitution, the effective restitution stays within [0, 1]. */
  lemma EffectiveRestitutionBounded(b: Body, v: real)
    requires IsSensor(b) || b.accessor.EntityMotion?
    ensures 0.0 <= EffectiveRestitutionScale(WriteParam(b, RestitutionScale, v)) <= 1.0
  {
    ReadAfterWrite(b, RestitutionScale, v);
  }

  /** Whether a getter/setter of entity motion flag `f` ignores the body. Flag `_40` is
      refused on character controllers instead; its setter does not check for an
      accessor. */
  predicate EntityFlagIgnored(b: Body, f: EntityFlag, setter: bool)
  {
    if f == E40 then IsSensor(b) || IsCharacterController(b) || (!setter && !HasAccessor(b))
    else IsSensor(b) || !HasAccessor(b)
  }

  /** `setEntityMotionFlag<f>(on)` and `clearEntityMotionFlag<f>(clear)` (the latter passes
      `!clear`): the accessor's flag becomes `on`; nothing else changes. */
  function SetEntityMotionFlag(b: Body, f: EntityFlag, on: bool): (r: Body)
    requires !EntityFlagIgnored(b, f, true) ==> b.accessor.EntityMotion?
    ensures EntityFlagIgnored(b, f, true) ==> r == b
    ensures !EntityFlagIgnored(b, f, true) ==>
      r.accessor.EntityMotion? && (f in r.accessor.entityFlags <==> on)
      && r.accessor.entityFlags - {f} == b.accessor.entityFlags - {f}
      && r.accessor.params == b.accessor.params
    ensures r == b.(accessor := r.accessor)
  {
    if EntityFlagIgnored(b, f, true) then b
    else b.(accessor := b.accessor.(entityFlags := Change(b.accessor.entityFlags, f, on)))
  }

  /** `isEntityMotionFlag<f>On()` (`wantOn`) and `isEntityMotionFlag<f>Off()` (`!wantOn`):
      both answer false on a sensor or without an accessor. */
  function QueryEntityMotionFlag(b: Body, f: EntityFlag, wantOn: bool): (r: bool)
    requires !EntityFlagIgnored(b, f, false) ==> b.accessor.EntityMotion?
    ensures EntityFlagIgnored(b, f, false) ==> !r
    ensures !EntityFlagIgnored(b, f, false) ==> (r <==> ((f in b.accessor.entityFlags) == wantOn))
  {
    if EntityFlagIgnored(b, f, false) then false
    else (f in b.accessor.entityFlags) == wantOn
  }

  /** A flag written on an entity with an accessor reads back as written, through either
      query. */
  lemma EntityFlagReadBack(b: Body, f: EntityFlag, on: bool)
    requires IsEntity(b) && b.accessor.EntityMotion? && !IsCharacterController(b)
    ensures QueryEntityMotionFlag(SetEntityMotionFlag(b, f, on), f, true) == on
    ensures QueryEntityMotionFlag(SetEntityMotionFlag(b, f, on), f, false) == !on
  {
  }

  /** `getSensorMotionAccessor` is non-null. */
  predicate HasSensorAccessor(b: Body)
  {
    IsSensor(b) && b.accessor.SensorMotion?
  }

  /** `getLinkedRigidBody`. */
  function GetLinkedRigidBody(b: Body): (r: Option<nat>)
    ensures r.Some? ==> HasSensorAccessor(b)
  {
    if HasSensorAccessor(b) then b.accessor.linked else None
  }

  /** `setLinkedRigidBody`: only a sensor with a sensor accessor accepts, and it refuses a
      non-null body while flag `_20` is set. On success the accessor links the body. */
  function SetLinkedRigidBody(b: Body, other: Option<nat>): (r: (Body, bool))
    ensures r.1 <==> HasSensorAccessor(b) && !(other.Some? && F.U20 in b.flags)
    ensures r.1 ==> GetLinkedRigidBody(r.0) == other
    ensures !r.1 ==> r.0 == b
    ensures r.0 == b.(accessor := r.0.accessor)
  {
    if !IsSensor(b) then (b, false)
    else if other.Some? && F.U20 in b.flags then (b, false)
    else if !HasAccessor(b) then (b, false)
    else if !b.accessor.SensorMotion? then (b, false)
    else (b.(accessor := b.accessor.(linked := other)), true)
  }

  /** `isSensorMotionFlag40000Set`. */
  function IsSensorMotionFlag40000Set(b: Body): (r: bool)
    ensures r <==> HasSensorAccessor(b) && b.accessor.flag40000
  {
    if HasSensorAccessor(b) then b.accessor.flag40000 else false
  }

  /** `updateShape`: while flag `_8` is set it only marks `DirtyShape`; otherwise the solver
      body takes the new shape (or recomputes its own), an entity's accessor is told which,
      and the user tag, if any, is notified. */
  function UpdateShape(b: Body, env: Env): (r: Body)
    ensures IsFlag8Set(b) ==> r == SetMotionFlag(b, M.DirtyShape)
    ensures !IsFlag8Set(b) ==>
      && r.motion == b.motion && r.flags == b.flags && r.queue == b.queue
      && |r.events| > |b.events| && r.events[..|b.events|] == b.events
      && r.events[|b.events|] == (if env.newShape then SolverShapeSet else SolverShapeUpdated)
      && (UserTagShapeChanged in r.events[|b.events|..] <==> b.hasUserTag)
      && (env.newShape ==> r.hasShape) && (!env.newShape ==> r.hasShape == b.hasShape)
      && (IsEntity(b) && HasAccessor(b) <==>
            Call(if env.newShape then ShapeReplaced else ShapeRecomputed) in r.events[|b.events|..])
      && r == b.(hasShape := r.hasShape, events := r.events)
  {
    if IsFlag8Set(b) then SetMotionFlag(b, M.DirtyShape)
    else
      var solverCall := if env.newShape then SolverShapeSet else SolverShapeUpdated;
      var accessorCall := if IsEntity(b) && HasAccessor(b)
        then [Call(if env.newShape then ShapeReplaced else ShapeRecomputed)] else [];
      var tagCall := if b.hasUserTag then [UserTagShapeChanged] else [];
      var tail := [solverCall] + accessorCall + tagCall;
      assert (b.events + tail)[|b.events|..] == tail;
      b.(hasShape := env.newShape || b.hasShape, events := b.events + tail)
  }

  /** `setContactPoints`: stores the points and, while flag `_8` is set, registers points
      that are not linked yet with the contact system. */
  function SetContactPoints(b: Body, points: Option<ContactPoints>): (r: Body)
    ensures r.contactPoints == points
    ensures IsFlag8Set(b) && points.Some? && !points.value.linked ==>
      r.events == b.events + [ContactPointsRegistered(points.value)]
    ensures !(IsFlag8Set(b) && points.Some? && !points.value.linked) ==> r.events == b.events
    ensures r == b.(contactPoints := r.contactPoints, events := r.events)
  {
    var b1 := b.(contactPoints := points);
    if IsFlag8Set(b1) && points.Some? && !points.value.linked
    then b1.(events := b1.events + [ContactPointsRegistered(points.value)])
    else b1
  }
}
