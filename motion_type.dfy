/** The motion-type state machine: the pending motion bits (`MotionFlag::Dynamic`,
    `Keyframed`, `Fixed`), `getMotionType`, `changeMotionType` with its deferred and
    immediate paths, the scheduled change carried by flags `_20000000`/`_40000000`/
    `_80000000`, and the collidable quality chosen for each motion type.

    `doChangeMotionType`, whose body is not part of this model, is an abstract step that
    records its arguments and makes the requested concrete type the solver's motion type;
    `x_40` is recorded as an event. */
module MotionTypes {
  import opened Defines
  import opened BodyState
  import F = Flags
  import M = MotionFlags

  predicate IsConcrete(t: MotionType)
  {
    t.Dynamic? || t.Fixed? || t.Keyframed?
  }

  /** The motion flag that marks a change to `t` as pending. */
  function PendingBit(t: MotionType): M.MotionFlag
    requires IsConcrete(t)
  {
    match t
    case Dynamic => M.Dynamic
    case Fixed => M.Fixed
    case Keyframed => M.Keyframed
  }

  predicate IsPendingBit(f: M.MotionFlag)
  {
    f == M.Dynamic || f == M.Keyframed || f == M.Fixed
  }

  predicate NoPendingMotion(b: Body)
  {
    M.Dynamic !in b.motion && M.Keyframed !in b.motion && M.Fixed !in b.motion
  }

  /** The five dirty marks the immediate path of `changeMotionType` sets. */
  const ChangeDirtyBits: set<M.MotionFlag> :=
    {M.DirtyMass, M.DirtyInertiaLocal, M.DirtyMaxVelOrTimeFactor, M.DirtyDampingOrGravityFactor,
     M.DirtyCenterOfMassLocal}

  /** `getMotionType`: a pending motion bit wins over the solver's motion type, checked in
      the order Dynamic, Keyframed, Fixed. */
  function GetMotionType(b: Body): (t: MotionType)
    ensures M.Dynamic in b.motion ==> t == Dynamic
    ensures M.Dynamic !in b.motion && M.Keyframed in b.motion ==> t == Keyframed
    ensures M.Dynamic !in b.motion && M.Keyframed !in b.motion && M.Fixed in b.motion ==> t == Fixed
    ensures NoPendingMotion(b) ==> t == b.solverMotion
  {
    if M.Dynamic in b.motion then Dynamic
    else if M.Keyframed in b.motion then Keyframed
    else if M.Fixed in b.motion then Fixed
    else b.solverMotion
  }

  /** `doChangeMotionType(target, current)`. */
  function DoChangeMotionType(b: Body, target: MotionType, current: MotionType): Body
  {
    b.(solverMotion := if IsConcrete(target) then target else b.solverMotion,
       events := b.events + [MotionTypeChanged(target, current)])
  }

  /** Whether `changeMotionType(t)` leaves the body as it is: the type is already reported,
      a sensor is asked to become dynamic, or a non-concrete type is requested while flag
      `_8` is set. */
  predicate ChangeIsNoOp(b: Body, t: MotionType)
  {
    GetMotionType(b) == t || (t == Dynamic && IsSensor(b)) || (IsFlag8Set(b) && !IsConcrete(t))
  }

  /** `changeMotionType`; its three cases are stated by the lemmas below. */
  function ChangeMotionType(b: Body, t: MotionType): (r: Body)
    ensures ChangeIsNoOp(b, t) ==> r == b
    ensures r.flags - {F.UpdateRequested} == b.flags - {F.UpdateRequested}
    ensures r == b.(motion := r.motion, flags := r.flags, queue := r.queue, solverMotion := r.solverMotion, events := r.events)
  {
    if GetMotionType(b) == t then b
    else if IsFlag8Set(b) then DeferChange(b, t)
    else if t == Dynamic && !IsEntity(b) then b
    else ApplyChange(b, t)
  }

  /** The path of `changeMotionType` taken while flag `_8` is set: the target's pending bit
      is set through `setMotionFlag` and the other two are cleared; an entity-only Dynamic
      request on a sensor, or a non-concrete type, changes nothing. */
  function DeferChange(b: Body, t: MotionType): (r: Body)
    ensures !IsConcrete(t) || (t == Dynamic && !IsEntity(b)) ==> r == b
    ensures r.flags - {F.UpdateRequested} == b.flags - {F.UpdateRequested}
    ensures r == b.(motion := r.motion, flags := r.flags, queue := r.queue)
  {
    match t
    case Dynamic =>
      if IsEntity(b) then
        var b1 := SetMotionFlag(b, M.Dynamic);
        b1.(motion := b1.motion - {M.Fixed} - {M.Keyframed})
      else b
    case Fixed =>
      var b1 := SetMotionFlag(b, M.Fixed);
      b1.(motion := b1.motion - {M.Dynamic} - {M.Keyframed})
    case Keyframed =>
      var b1 := SetMotionFlag(b, M.Keyframed);
      b1.(motion := b1.motion - {M.Dynamic} - {M.Fixed})
    case _ => b
  }

  /** The path of `changeMotionType` taken otherwise: the pending bit is set directly,
      `doChangeMotionType` is called with the type now reported, the five dirty marks are
      set and `x_40` is called. */
  function ApplyChange(b: Body, t: MotionType): (r: Body)
    ensures r == b.(motion := r.motion, solverMotion := r.solverMotion, events := r.events)
  {
    var b1 := if IsConcrete(t) then b.(motion := b.motion + {PendingBit(t)}) else b;
    var b2 := DoChangeMotionType(b1, t, GetMotionType(b1));
    var b3 := b2.(motion := b2.motion + ChangeDirtyBits);
    b3.(events := b3.events + [MotionSettled])
  }

  /** While flag `_8` is set, `changeMotionType` only sets the target's pending bit (through
      `setMotionFlag`, which may enqueue the body) and clears the other two pending bits;
      every other motion flag, and the solver, stay as they were. */
  lemma ChangeMotionTypeDeferred(b: Body, t: MotionType)
    requires IsFlag8Set(b) && !ChangeIsNoOp(b, t)
    ensures var r := ChangeMotionType(b, t);
      && (forall u :: IsConcrete(u) ==> (PendingBit(u) in r.motion <==> u == t))
      && (forall g :: !IsPendingBit(g) ==> (g in r.motion <==> g in b.motion))
      && r == SetMotionFlag(b, PendingBit(t)).(motion := r.motion)
  {
  }

  /** Otherwise `changeMotionType` sets the pending bit directly (no request is queued),
      calls `doChangeMotionType`, sets exactly the five marks of `ChangeDirtyBits` (not
      `DirtyShape`) and calls `x_40`. */
  lemma ChangeMotionTypeImmediate(b: Body, t: MotionType)
    requires !IsFlag8Set(b) && !ChangeIsNoOp(b, t)
    ensures var r := ChangeMotionType(b, t);
      && r.motion == b.motion + (if IsConcrete(t) then {PendingBit(t)} else {}) + ChangeDirtyBits
      && (M.DirtyShape in r.motion <==> M.DirtyShape in b.motion)
      && r.flags == b.flags && r.queue == b.queue
      && (IsConcrete(t) ==> r.solverMotion == t)
      && |r.events| == |b.events| + 2 && r.events[|b.events| + 1] == MotionSettled
      && r.events[|b.events|].MotionTypeChanged? && r.events[|b.events|].target == t
      && r == b.(motion := r.motion, solverMotion := r.solverMotion, events := r.events)
  {
    var b1 := if IsConcrete(t) then b.(motion := b.motion + {PendingBit(t)}) else b;
    var b2 := DoChangeMotionType(b1, t, GetMotionType(b1));
    var b3 := b2.(motion := b2.motion + ChangeDirtyBits);
    assert ChangeMotionType(b, t) == b3.(events := b3.events + [MotionSettled]);
    assert M.DirtyShape !in ChangeDirtyBits;
  }

  /** A concrete change that was not refused is reported by `getMotionType` at once, provided
      no other change was still pending on the immediate path. */
  lemma ChangeMotionTypeReported(b: Body, t: MotionType)
    requires IsConcrete(t) && !(t == Dynamic && IsSensor(b))
    requires IsFlag8Set(b) || NoPendingMotion(b)
    ensures GetMotionType(ChangeMotionType(b, t)) == t
  {
  }

  /** Asking twice for the same concrete type is the same as asking once. */
  lemma ChangeMotionTypeIdempotent(b: Body, t: MotionType)
    requires IsConcrete(t) && !(t == Dynamic && IsSensor(b))
    requires IsFlag8Set(b) || NoPendingMotion(b)
    ensures ChangeMotionType(ChangeMotionType(b, t), t) == ChangeMotionType(b, t)
  {
    ChangeMotionTypeReported(b, t);
  }

  /** At most one of the three pending motion bits is set. */
  predicate AtMostOnePending(b: Body)
  {
    && !(M.Dynamic in b.motion && M.Keyframed in b.motion)
    && !(M.Dynamic in b.motion && M.Fixed in b.motion)
    && !(M.Keyframed in b.motion && M.Fixed in b.motion)
  }

  /** As written, the immediate path sets the new pending bit without clearing an earlier
      one. Two immediate changes in a row on an entity, to Dynamic and then to Keyframed,
      leave both bits set: `getMotionType` keeps reporting Dynamic while the solver was
      last told Keyframed. */
  lemma ImmediateKeepsEarlierPending(b: Body)
    requires IsEntity(b) && !IsFlag8Set(b) && NoPendingMotion(b) && b.solverMotion != Dynamic
    ensures var r := ChangeMotionType(ChangeMotionType(b, Dynamic), Keyframed);
      && M.Dynamic in r.motion && M.Keyframed in r.motion
      && !AtMostOnePending(r)
      && r.solverMotion == Keyframed
      && GetMotionType(r) == Dynamic
  {
    var b1 := ChangeMotionType(b, Dynamic);
    ChangeMotionTypeImmediate(b, Dynamic);
    assert GetMotionType(b1) == Dynamic;
    ChangeMotionTypeImmediate(b1, Keyframed);
  }

  /** `changeMotionType` with the immediate path also clearing the other two pending bits,
      as the deferred path does. */
  function ChangeMotionTypeCorrected(b: Body, t: MotionType): (r: Body)
    ensures IsConcrete(t) && !(t == Dynamic && IsSensor(b)) ==> GetMotionType(r) == t
    ensures AtMostOnePending(b) ==> AtMostOnePending(r)
    ensures r.flags - {F.UpdateRequested} == b.flags - {F.UpdateRequested}
  {
    if GetMotionType(b) == t then b
    else if IsFlag8Set(b) then DeferChange(b, t)
    else if t == Dynamic && !IsEntity(b) then b
    else if IsConcrete(t) then ApplyChange(b.(motion := b.motion - {M.Dynamic, M.Keyframed, M.Fixed}), t)
    else ApplyChange(b, t)
  }

  /** The corrected path differs from the code only when a change is still pending on the
      immediate path. */
  lemma CorrectedAgreesWhenNothingPending(b: Body, t: MotionType)
    requires IsFlag8Set(b) || NoPendingMotion(b)
    ensures ChangeMotionTypeCorrected(b, t) == ChangeMotionType(b, t)
  {
    if !IsFlag8Set(b) && GetMotionType(b) != t && !(t == Dynamic && !IsEntity(b)) && IsConcrete(t) {
      assert b.(motion := b.motion - {M.Dynamic, M.Keyframed, M.Fixed}) == b;
    }
  }

  /** The flag that schedules a change to `t`. */
  function ScheduleBit(t: MotionType): F.Flag
    requires IsConcrete(t)
  {
    match t
    case Keyframed => F.U20000000
    case Fixed => F.U40000000
    case Dynamic => F.U80000000
  }

  predicate IsScheduleBit(f: F.Flag)
  {
    f == F.U20000000 || f == F.U40000000 || f == F.U80000000
  }

  predicate HasSchedule(b: Body)
  {
    F.U20000000 in b.flags || F.U40000000 in b.flags || F.U80000000 in b.flags
  }

  /** At most one scheduled change at a time. */
  predicate AtMostOneScheduled(flags: set<F.Flag>)
  {
    && !(F.U20000000 in flags && F.U40000000 in flags)
    && !(F.U20000000 in flags && F.U80000000 in flags)
    && !(F.U40000000 in flags && F.U80000000 in flags)
  }

  /** `updateMotionTypeRelatedFlags`: records the current motion type as the scheduled change,
      unless a change is already scheduled. */
  function UpdateMotionTypeRelatedFlags(b: Body): (r: Body)
    ensures HasSchedule(b) ==> r == b
    ensures !HasSchedule(b) ==>
      forall t :: IsConcrete(t) ==> (ScheduleBit(t) in r.flags <==> t == GetMotionType(b))
    ensures forall f :: !IsScheduleBit(f) ==> (f in r.flags <==> f in b.flags)
    ensures r == b.(flags := r.flags)
  {
    if F.U20000000 in b.flags || F.U80000000 in b.flags || F.U40000000 in b.flags then b
    else match GetMotionType(b)
      case Dynamic => b.(flags := b.flags + {F.U80000000} - {F.U20000000} - {F.U40000000})
      case Fixed => b.(flags := b.flags + {F.U40000000} - {F.U20000000} - {F.U80000000})
      case Keyframed => b.(flags := b.flags + {F.U20000000} - {F.U40000000} - {F.U80000000})
      case _ => b.(flags := b.flags - {F.U20000000} - {F.U40000000} - {F.U80000000})
  }

  /** The change `triggerScheduledMotionTypeChange` carries out, in the order Keyframed,
      Fixed, Dynamic. */
  function ScheduledType(b: Body): (t: MotionType)
    requires HasSchedule(b)
    ensures IsConcrete(t) && ScheduleBit(t) in b.flags
  {
    if F.U20000000 in b.flags then Keyframed
    else if F.U40000000 in b.flags then Fixed
    else Dynamic
  }

  /** `triggerScheduledMotionTypeChange`. */
  function TriggerScheduledMotionTypeChange(b: Body): (r: Body)
    ensures !HasSchedule(b) ==> r == b
  {
    if F.U20000000 in b.flags then
      var b1 := ChangeMotionType(b, Keyframed);
      b1.(flags := b1.flags - {F.U20000000})
    else if F.U40000000 in b.flags then
      var b1 := ChangeMotionType(b, Fixed);
      b1.(flags := b1.flags - {F.U40000000})
    else if F.U80000000 in b.flags then
      var b1 := ChangeMotionType(b, Dynamic);
      b1.(flags := b1.flags - {F.U80000000})
    else b
  }

  /** `changeMotionType` never touches the schedule flags. */
  lemma ChangeKeepsSchedule(b: Body, t: MotionType)
    ensures forall f :: IsScheduleBit(f) ==> (f in ChangeMotionType(b, t).flags <==> f in b.flags)
  {
    var r := ChangeMotionType(b, t);
    forall f | IsScheduleBit(f) ensures f in r.flags <==> f in b.flags {
      assert f in r.flags <==> f in r.flags - {F.UpdateRequested};
    }
  }

  /** `triggerScheduledMotionTypeChange` carries out exactly one scheduled change, in the
      order Keyframed, Fixed, Dynamic, and clears its flag; the other schedule flags stay as
      they were. */
  lemma TriggerActsOnOne(b: Body)
    requires HasSchedule(b)
    ensures var r := TriggerScheduledMotionTypeChange(b);
      var t := ScheduledType(b);
      && ScheduleBit(t) !in r.flags
      && (forall u :: IsConcrete(u) && u != t ==> (ScheduleBit(u) in r.flags <==> ScheduleBit(u) in b.flags))
      && r.flags == ChangeMotionType(b, t).flags - {ScheduleBit(t)}
      && r == ChangeMotionType(b, t).(flags := r.flags)
  {
    ChangeKeepsSchedule(b, ScheduledType(b));
  }

  /** Recording the motion type and triggering the recorded change at once gives the body
      back unchanged: the change asked for is the type the body already reports. */
  lemma TriggerUndoesUpdate(b: Body)
    requires !HasSchedule(b)
    ensures TriggerScheduledMotionTypeChange(UpdateMotionTypeRelatedFlags(b)) == b
  {
    var u := UpdateMotionTypeRelatedFlags(b);
    assert GetMotionType(u) == GetMotionType(b);
    if IsConcrete(GetMotionType(b)) {
      var t := GetMotionType(b);
      assert ScheduledType(u) == t;
      assert u.flags - {ScheduleBit(t)} == b.flags;
    } else {
      assert u == b;
    }
  }

  /** Both operations keep at most one change scheduled. */
  lemma ScheduleStaysSingle(b: Body)
    requires AtMostOneScheduled(b.flags)
    ensures AtMostOneScheduled(UpdateMotionTypeRelatedFlags(b).flags)
    ensures AtMostOneScheduled(TriggerScheduledMotionTypeChange(b).flags)
  {
    if HasSchedule(b) {
      var r := TriggerScheduledMotionTypeChange(b);
      TriggerActsOnOne(b);
      assert F.U20000000 in r.flags ==> F.U20000000 in b.flags by {
        assert ScheduleBit(Keyframed) == F.U20000000;
      }
      assert F.U40000000 in r.flags ==> F.U40000000 in b.flags by {
        assert ScheduleBit(Fixed) == F.U40000000;
      }
      assert F.U80000000 in r.flags ==> F.U80000000 in b.flags by {
        assert ScheduleBit(Dynamic) == F.U80000000;
      }
    } else {
      var u := UpdateMotionTypeRelatedFlags(b);
      assert ScheduleBit(Keyframed) == F.U20000000 && ScheduleBit(Fixed) == F.U40000000
        && ScheduleBit(Dynamic) == F.U80000000;
    }
  }

  /** The collidable quality for a motion type: FIXED; MOVING for a high-quality entity and
      KEYFRAMED_REPORTING otherwise; BULLET when high-quality and DEBRIS_SIMPLE_TOI
      otherwise; none for Unknown/Invalid. */
  function QualityFor(t: MotionType, isEntity: bool, highQuality: bool): (r: Option<Quality>)
    ensures r.Some? <==> IsConcrete(t)
    ensures r.Some? ==> MotionOfQuality(r.value) == t
    ensures t == Fixed ==> r == Some(QualityFixed)
    ensures r.Some? && t != Fixed ==>
      ((r.value == QualityMoving || r.value == QualityBullet) <==> highQuality && (isEntity || t == Dynamic))
  {
    match t
    case Fixed => Some(QualityFixed)
    case Keyframed => Some(if isEntity && highQuality then QualityMoving else QualityKeyframedReporting)
    case Dynamic => Some(if highQuality then QualityBullet else QualityDebrisSimpleToi)
    case _ => None
  }

  /** The motion type a quality is chosen for. */
  function MotionOfQuality(q: Quality): MotionType
  {
    match q
    case QualityFixed => Fixed
    case QualityMoving => Keyframed
    case QualityKeyframedReporting => Keyframed
    case QualityBullet => Dynamic
    case QualityDebrisSimpleToi => Dynamic
    case _ => Unknown
  }

  /** `replaceMotionObject` (the flag and quality part): handles the pending Fixed bit, else
      the Keyframed bit, else the Dynamic bit; makes that the solver's motion type, picks its
      quality from flag `HighQualityCollidable` and clears the bit it handled. The Dynamic
      case asks the entity accessor to rebuild the motion, so it needs an entity accessor. */
  function ReplaceMotionObject(b: Body): (r: Body)
    requires M.Fixed !in b.motion && M.Keyframed !in b.motion && M.Dynamic in b.motion ==>
      b.accessor.EntityMotion?
    ensures NoPendingMotion(b) ==> r == b
    ensures !NoPendingMotion(b) ==>
      var t := if M.Fixed in b.motion then Fixed else if M.Keyframed in b.motion then Keyframed else Dynamic;
      && r.motion == b.motion - {PendingBit(t)}
      && r.solverMotion == t
      && Some(r.quality) == QualityFor(t, IsEntity(b), F.HighQualityCollidable in b.flags)
      && r.events == b.events + (if t == Dynamic then [Call(UpdateMotionExceptStateAndVel)] else [])
      && r == b.(motion := r.motion, solverMotion := r.solverMotion, quality := r.quality,
                 events := r.events)
  {
    if M.Fixed in b.motion then
      b.(quality := QualityFixed, solverMotion := Fixed, motion := b.motion - {M.Fixed})
    else if M.Keyframed in b.motion then
      b.(quality := if IsEntity(b) && F.HighQualityCollidable in b.flags
                    then QualityMoving else QualityKeyframedReporting,
         solverMotion := Keyframed, motion := b.motion - {M.Keyframed})
    else if M.Dynamic in b.motion then
      b.(events := b.events + [Call(UpdateMotionExceptStateAndVel)],
         quality := if F.HighQualityCollidable in b.flags then QualityBullet else QualityDebrisSimpleToi,
         solverMotion := Dynamic, motion := b.motion - {M.Dynamic})
    else b
  }

  /** A deferred change followed by the solver-side replacement of the motion object leaves
      the requested type as the solver's motion type with nothing pending. */
  lemma DeferredChangeCompletes(b: Body, t: MotionType)
    requires IsFlag8Set(b) && IsConcrete(t) && !(t == Dynamic && IsSensor(b))
    requires GetMotionType(b) != t
    requires t == Dynamic ==> b.accessor.EntityMotion?
    ensures var r := ReplaceMotionObject(ChangeMotionType(b, t));
      r.solverMotion == t && NoPendingMotion(r) && GetMotionType(r) == t
  {
    ChangeMotionTypeDeferred(b, t);
  }

  /** `updateCollidableQualityType(high_quality)`: a character controller always gets
      CHARACTER and `HighQualityCollidable`; any other body gets the quality of its reported
      motion type (unchanged for Unknown/Invalid) and `HighQualityCollidable` follows the
      argument. */
  function UpdateCollidableQualityType(b: Body, highQuality: bool): (r: Body)
    ensures IsCharacterController(b) ==>
      r.quality == QualityCharacter && F.HighQualityCollidable in r.flags
    ensures !IsCharacterController(b) ==>
      && (F.HighQualityCollidable in r.flags <==> highQuality)
      && r.quality == (match QualityFor(GetMotionType(b), IsEntity(b), highQuality)
                       case Some(q) => q case None => b.quality)
    ensures r.flags - {F.HighQualityCollidable} == b.flags - {F.HighQualityCollidable}
    ensures r == b.(quality := r.quality, flags := r.flags)
  {
    if IsCharacterController(b) then
      b.(quality := QualityCharacter, flags := b.flags + {F.HighQualityCollidable})
    else
      var q := match GetMotionType(b)
        case Dynamic => if highQuality then QualityBullet else QualityDebrisSimpleToi
        case Fixed => QualityFixed
        case Keyframed => if IsEntity(b) && highQuality then QualityMoving else QualityKeyframedReporting
        case _ => b.quality;
      b.(quality := q, flags := Change(b.flags, F.HighQualityCollidable, highQuality))
  }
}
