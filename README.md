# RigidBody administrative state machine

A model, in Dafny, of the bookkeeping side of `ksys::phys::RigidBody`, the rigid body
wrapper of the physics layer of the KingSystem engine. The numerics of the rigid body
belong to the solver (Havok) and are not modelled. What is modelled is the state the
wrapper keeps around the solver body and the rules by which its operations change it:

- the two atomic flag words `mFlags` (`Flag`) and `mMotionFlags` (`MotionFlag`), as sets
  with a proved bit encoding (`Flags`, `MotionFlags`, `BitSets`);
- the contact mask `mContactMask`, as the set of its bit positions (`ContactMask`);
- the collision-filter word, with the layout helpers of `EntityCollisionFilterInfo` and
  `ReceiverMask` passed in as a codec (`CollisionFilter`);
- the motion accessor, the collision counter, the solver's motion type, quality and
  deactivation switch, and the request queue of the rigid-body request manager;
- the calls the wrapper makes into the solver, the accessor, the user tag and the
  system singleton, recorded as an event log.

Every operation is first a function on the value `BodyState.Body`, and its properties are
proved as lemmas about that function: the deferred-update protocol of `setMotionFlag` (the
body is queued at most once until `UpdateRequested` is cleared), the three paths of
`changeMotionType` and its five dirty marks, the motion-type schedule of
`updateMotionTypeRelatedFlags` and `triggerScheduledMotionTypeChange`, `freeze` and the two
fixed switches, contact-mask updates, filter writes, role dispatch and the parameter guards,
the `_1`/`_2` token handshakes, the deactivation rule and the collision counter, and the lock
order of `lock`/`unlock`.

The operations that change the body in place are also methods of the class
`RigidBodies.RigidBody`. Its fields are the body's state, and `ScopedLock` is a class that
takes the locks and releases them. Each method ensures that its new state is the
specification function applied to the old state, and that the class invariant is kept: the
accessor matches the role, at most one motion-type change is scheduled, and the contact
mask has only its 32 bits. Each method also leaves the lock state as it found it.
`resetCollisionFilterInfoForListShapes` writes the child filters of a list shape held in an
array.

The files are:

- `bitsets.dfy`, `flags.dfy`, `motion_flags.dfy` and `defines.dfy`: the flag encodings;
- `body_state.dfy`: the state and the basic operations;
- one file per group of operations: `motion_type.dfy`, `freeze.dfy`, `contact_mask.dfy`,
  `collision_filter.dfy`, `guards.dfy`, `handshakes.dfy`, `lifecycle.dfy`, `locks.dfy`
  and `validation.dfy`;
- `rigid_body.dfy`: the class.

## Model

| member | source | states |
|---|---|---|
| BitSets.WordOfBit | src/KingSystem/Physics/RigidBody/physRigidBody.h:469-470 | bit `k` of a packed flag word is set exactly when the `k`-th element is in the set, and bits above the packed range are clear |
| BitSets.RoundTrip | src/KingSystem/Physics/RigidBody/physRigidBody.h:469-470 | packing a set into a `TypedBitFlag` word and decoding it gives the set back when every element owns a distinct bit |
| Flags.IndexRoundTrip | src/KingSystem/Physics/RigidBody/physRigidBody.h:53-87 | each `Flag` has a bit position below 32 and the position determines the flag |
| Flags.AllFlagsIndexed | src/KingSystem/Physics/RigidBody/physRigidBody.h:53-87 | the bit-ordered list of flags has 32 distinct members |
| Flags.FlagBitsDistinct | src/KingSystem/Physics/RigidBody/physRigidBody.h:53-87 | every `Flag` is a single non-zero bit and two different flags never share a bit |
| Flags.WordBit | src/KingSystem/Physics/RigidBody/physRigidBody.h:469 | testing a flag's bit in the `mFlags` word is membership in the flag set |
| Flags.WordRoundTrip | src/KingSystem/Physics/RigidBody/physRigidBody.h:469 | the `mFlags` word encodes the flag set faithfully |
| MotionFlags.IndexRoundTrip | src/KingSystem/Physics/RigidBody/physRigidBody.h:89-110 | each `MotionFlag` has a bit position below 20 and the position determines the flag |
| MotionFlags.AllMotionFlagsIndexed | src/KingSystem/Physics/RigidBody/physRigidBody.h:89-110 | the bit-ordered list of motion flags has 20 distinct members |
| MotionFlags.MotionFlagBitsDistinct | src/KingSystem/Physics/RigidBody/physRigidBody.h:89-110 | every `MotionFlag` is a single bit below bit 20 and two different motion flags never share a bit |
| MotionFlags.WordBit | src/KingSystem/Physics/RigidBody/physRigidBody.h:470 | testing a motion flag's bit in the `mMotionFlags` word is membership in the set |
| MotionFlags.WordRoundTrip | src/KingSystem/Physics/RigidBody/physRigidBody.h:470 | the `mMotionFlags` word encodes the set faithfully and leaves bits 20-31 clear |
| BodyState.Change | src/KingSystem/Physics/RigidBody/physRigidBody.cpp:60-62 | `mFlags.change(f, on)`: `f` ends up present exactly when `on`, every other element is unchanged |
| BodyState.RoleReads | src/KingSystem/Physics/RigidBody/physRigidBody.h:391-395 | `isEntity` is exactly `!isSensor`; `getLayerType` is Sensor exactly when `IsSensor` is set |
| BodyState.SetMotionFlag | src/KingSystem/Physics/RigidBody/physRigidBody.cpp:223-232 | the flag is set; `UpdateRequested` is set and one push of the layer type is queued exactly when `_20` and `UpdateRequested` were both clear; no other field changes |
| BodyState.EnqueuedAtMostOnce | src/KingSystem/Physics/RigidBody/physRigidBody.cpp:223-232 | any run of `setMotionFlag` calls queues the body at most once (not at all if `_20` or `UpdateRequested` was set) and sets every flag passed |
| BodyState.SetMotionFlagsKeeps | src/KingSystem/Physics/RigidBody/physRigidBody.cpp:223-232 | `setMotionFlag` never clears a motion flag |
| BodyState.ResetMotionFlagDirect | src/KingSystem/Physics/RigidBody/physRigidBody.h:399 | clears exactly the given motion flag; flags, `UpdateRequested` and the request queue are untouched |
| BodyState.ResetUndoesSet | src/KingSystem/Physics/RigidBody/physRigidBody.h:399 | setting a clear motion flag and resetting it directly restores the motion flags |
| BodyState.UpdateDeactivation | src/KingSystem/Physics/RigidBody/physRigidBody.cpp:1729-1736 | deactivation ends up enabled exactly when none of `_2000000`, `_4000000`, `_8000000` is set; nothing else changes |
| BodyState.ClearDeactivationFlag | src/KingSystem/Physics/RigidBody/physRigidBody.cpp:1562-1596 | the flag ends up clear exactly when `clear`; unchanged body when it already was; otherwise, while `_8` is set, the result is `setMotionFlag(_10000)` of the body with the flag changed, and else the deactivation rule is applied with motion flags and queue unchanged |
| BodyState.ClearDeactivationFlagKeepsOthers | src/KingSystem/Physics/RigidBody/physRigidBody.cpp:1562-1596 | `clearFlag*` changes no flag besides its own and `UpdateRequested` |
| BodyState.OnCollisionAdded | src/KingSystem/Physics/RigidBody/physRigidBody.h:449-452 | the counter goes up by one; going up from 0 is `clearFlag4000000(false)` on the counted body: `_4000000` ends up set and, if that changed it, `_10000` is marked while `_8` is set, else the deactivation rule is applied; otherwise only the counter changes |
| BodyState.OnCollisionRemoved | src/KingSystem/Physics/RigidBody/physRigidBody.h:455-458 | the counter goes down by one; going down from 1 is `clearFlag4000000(true)` on the counted body: `_4000000` ends up clear and, if that changed it, `_10000` is marked while `_8` is set, else the deactivation rule is applied; otherwise only the counter changes |
| BodyState.CollisionFlagInvariant | src/KingSystem/Physics/RigidBody/physRigidBody.h:449-458 | from a body whose `_4000000` matches its counter, any balanced run of the two hooks keeps `_4000000` set exactly while the counter is positive |
| Lifecycle.Initial | src/KingSystem/Physics/RigidBody/physRigidBody.h:469-481 | the zero-initialised members before the constructor body runs: empty flag words and mask, zero counter, no accessor or contact points |
| Lifecycle.ConstructAsWritten | src/KingSystem/Physics/RigidBody/physRigidBody.cpp:46-65 | the constructor as written: mass scaling is on whatever the layer type; the flags are `HighQualityCollidable`, `IsSensor`, `_10` as the arguments select, plus `UseSystemTimeFactor` |
| Lifecycle.SensorGetsMassScalingAsWritten | src/KingSystem/Physics/RigidBody/physRigidBody.cpp:57-59 | as written, a sensor body also gets mass scaling, because `IsSensor` is read before it is set |
| Lifecycle.Construct | src/KingSystem/Physics/RigidBody/physRigidBody.cpp:46-65 | the corrected constructor: the same flags and fields as written except mass scaling |
| Lifecycle.ConstructedBody | src/KingSystem/Physics/RigidBody/physRigidBody.cpp:46-65 | a new body is a sensor exactly for layer type Sensor, gets mass scaling exactly as an entity, `HighQualityCollidable` exactly for a character controller, `_10` from `a7`, `UseSystemTimeFactor`, no `Frozen`/`UpdateRequested`, deactivation enabled, counter and `_4000000` agreeing, no accessor, nothing queued |
| Lifecycle.ConstructedFields | src/KingSystem/Physics/RigidBody/physRigidBody.cpp:46-65 | the body `ConstructAsWritten` builds, field by field: only the flag word depends on the arguments, and mass scaling is on for every role |
| Lifecycle.Destroy | src/KingSystem/Physics/RigidBody/physRigidBody.cpp:67-78 | the accessor is gone; the solver body is released unless the type is `_0`, terrain height field or character controller |
| Lifecycle.CreateMotionAccessor | src/KingSystem/Physics/RigidBody/physRigidBody.cpp:80-85 | a fresh sensor accessor for a sensor, a fresh entity accessor for an entity; only the accessor changes |
| Lifecycle.CreateMotion | src/KingSystem/Physics/RigidBody/physRigidBody.cpp:126-184 | a concrete motion type becomes the solver's; deactivation is switched off and on unless a blocking flag is set |
| Lifecycle.CreateMotionAgreesWithDeactivationRule | src/KingSystem/Physics/RigidBody/physRigidBody.cpp:177-181 | with no blocking flag, `createMotion` leaves deactivation as `updateDeactivation` would |
| Lifecycle.InitAccessor | src/KingSystem/Physics/RigidBody/physRigidBody.cpp:122 | `init(param)`: an entity accessor takes the parameter block's values; a sensor accessor is left as it is; only the accessor changes |
| Lifecycle.InitMotionAccessor | src/KingSystem/Physics/RigidBody/physRigidBody.cpp:116-124 | optionally creates the motion, then the accessor matching the role, initialised from `param`: an entity accessor holds exactly the block's parameters |
| Lifecycle.InitMotionAccessorForDynamicMotion | src/KingSystem/Physics/RigidBody/physRigidBody.cpp:91-114 | creates the accessor matching the role and initialises it from the parameter block: a sensor accessor with nothing linked, or an entity accessor with no flags holding exactly the block's parameters; nothing else changes |
| Locks.Step | src/KingSystem/Physics/RigidBody/physRigidBody.cpp:1649-1667 | one lock operation; it fails exactly when releasing a lock that is not held |
| Locks.UnlockMirrorsLock | src/KingSystem/Physics/RigidBody/physRigidBody.cpp:1653-1667 | `unlock(w)` releases exactly what `lock(w)` took, body lock first, world lock last |
| Locks.ReplayAppend | src/KingSystem/Physics/RigidBody/physRigidBody.cpp:1649-1667 | running two lock traces in a row is running the first, then the second |
| Locks.MirrorUndoes | src/KingSystem/Physics/RigidBody/physRigidBody.cpp:1649-1667 | any trace that runs is undone by its mirror |
| Locks.LockAlwaysSucceeds | src/KingSystem/Physics/RigidBody/physRigidBody.cpp:1653-1657 | `lock(w)` never fails and takes the body lock once more |
| Locks.Acquired | src/KingSystem/Physics/RigidBody/physRigidBody.cpp:1653-1657 | the lock state after `lock(w)` |
| Locks.ScopedLockBalanced | src/KingSystem/Physics/RigidBody/physRigidBody.h:112-125 | `ScopedLock` passes the same flag to `unlock` as to `lock`, so lock, a balanced inner trace and unlock leave every lock as it was |
| Validation.IsVectorInvalid | src/KingSystem/Physics/RigidBody/physRigidBody.cpp:30-36 | answers true exactly when some component is NaN |
| Validation.IsMatrixInvalid | src/KingSystem/Physics/RigidBody/physRigidBody.cpp:38-44 | answers true exactly when some of the twelve entries is NaN |
| MotionTypes.GetMotionType | src/KingSystem/Physics/RigidBody/physRigidBody.cpp:361-369 | a pending bit wins over the solver's type, checked Dynamic, Keyframed, Fixed; with none pending, the solver's type |
| MotionTypes.ChangeMotionType | src/KingSystem/Physics/RigidBody/physRigidBody.cpp:943-997 | no change when the type is already reported, a sensor is asked for Dynamic, or a non-concrete type is asked for while `_8` is set; only `UpdateRequested` may change among the flags |
| MotionTypes.DeferChange | src/KingSystem/Physics/RigidBody/physRigidBody.cpp:947-970 | no change for a non-concrete type or a sensor asked for Dynamic; otherwise only motion flags, `UpdateRequested` and the queue change |
| MotionTypes.ApplyChange | src/KingSystem/Physics/RigidBody/physRigidBody.cpp:972-996 | only the motion flags, the solver's type and the event log change |
| MotionTypes.ChangeMotionTypeDeferred | src/KingSystem/Physics/RigidBody/physRigidBody.cpp:947-970 | while `_8` is set, the target's pending bit is set through `setMotionFlag` and the other two cleared; every other motion flag and the solver stay |
| MotionTypes.ChangeMotionTypeImmediate | src/KingSystem/Physics/RigidBody/physRigidBody.cpp:972-996 | otherwise the pending bit is set directly (nothing queued), `doChangeMotionType` gets the target, exactly the five dirty marks are added (not `DirtyShape`) and `x_40` follows |
| MotionTypes.ChangeMotionTypeReported | src/KingSystem/Physics/RigidBody/physRigidBody.cpp:943-997 | a concrete change that is not refused is reported by `getMotionType` at once, provided `_8` is set or no change is pending |
| MotionTypes.ChangeMotionTypeIdempotent | src/KingSystem/Physics/RigidBody/physRigidBody.cpp:943-997 | asking twice for the same concrete type is asking once, provided `_8` is set or no change is pending |
| MotionTypes.ImmediateKeepsEarlierPending | src/KingSystem/Physics/RigidBody/physRigidBody.cpp:972-990 | as written, two immediate changes of an entity, to Dynamic and then to Keyframed, leave two pending bits: the solver was last told Keyframed while `getMotionType` reports Dynamic |
| MotionTypes.ChangeMotionTypeCorrected | src/KingSystem/Physics/RigidBody/physRigidBody.cpp:943-997 | with the immediate path also clearing the other pending bits, a concrete change that is not refused is always reported at once, and at most one pending bit stays at most one |
| MotionTypes.CorrectedAgreesWhenNothingPending | src/KingSystem/Physics/RigidBody/physRigidBody.cpp:943-997 | the corrected change equals the code whenever `_8` is set or nothing is pending |
| MotionTypes.UpdateMotionTypeRelatedFlags | src/KingSystem/Physics/RigidBody/physRigidBody.cpp:999-1027 | nothing when a schedule flag is set; otherwise exactly the schedule flag of the reported type is set (none for Unknown/Invalid); no other flag changes |
| MotionTypes.ScheduledType | src/KingSystem/Physics/RigidBody/physRigidBody.cpp:1029-1040 | the scheduled type is concrete and its flag is set, picked Keyframed, Fixed, Dynamic |
| MotionTypes.TriggerScheduledMotionTypeChange | src/KingSystem/Physics/RigidBody/physRigidBody.cpp:1029-1040 | nothing without a schedule flag |
| MotionTypes.ChangeKeepsSchedule | src/KingSystem/Physics/RigidBody/physRigidBody.cpp:943-997 | `changeMotionType` never touches the schedule flags |
| MotionTypes.TriggerActsOnOne | src/KingSystem/Physics/RigidBody/physRigidBody.cpp:1029-1040 | the trigger performs exactly the change of the first schedule flag in the order `_20000000`, `_40000000`, `_80000000`, clears that flag and keeps the others; every other flag is as the change leaves it |
| MotionTypes.TriggerUndoesUpdate | src/KingSystem/Physics/RigidBody/physRigidBody.cpp:999-1040 | recording the motion type and triggering it at once gives the body back |
| MotionTypes.ScheduleStaysSingle | src/KingSystem/Physics/RigidBody/physRigidBody.cpp:999-1040 | both operations keep at most one schedule flag set |
| MotionTypes.QualityFor | src/KingSystem/Physics/RigidBody/physRigidBody.cpp:380-433 | exactly the concrete types get a quality, which determines the type; Fixed gets FIXED; otherwise the high-quality variant (MOVING, BULLET) is chosen exactly when asked for, and for Keyframed only on an entity |
| MotionTypes.ReplaceMotionObject | src/KingSystem/Physics/RigidBody/physRigidBody.cpp:371-451 | handles pending Fixed, else Keyframed, else Dynamic: that type becomes the solver's, its quality follows `HighQualityCollidable` and the role, its bit is cleared; only the Dynamic case calls `updateRigidBodyMotionExceptStateAndVel`, and it needs an entity accessor; nothing else changes |
| MotionTypes.DeferredChangeCompletes | src/KingSystem/Physics/RigidBody/physRigidBody.cpp:371-451 | a deferred change followed by `replaceMotionObject` leaves the requested type as the solver's with nothing pending |
| MotionTypes.UpdateCollidableQualityType | src/KingSystem/Physics/RigidBody/physRigidBody.cpp:534-562 | a character controller gets CHARACTER and `HighQualityCollidable`; any other body the quality of its reported type (kept for Unknown/Invalid) and `HighQualityCollidable` as asked; no other flag changes |
| ContactMask.LayerBit | src/KingSystem/Physics/RigidBody/physRigidBody.cpp:568-572 | an entity layer is its own bit, a sensor layer counts from `FirstSensor`; a layer of the given type has one of the 32 bits |
| ContactMask.LayerBitInjective | src/KingSystem/Physics/RigidBody/physRigidBody.cpp:568-572 | two layers of one type share a bit only if they are the same layer |
| ContactMask.AddContactLayer | src/KingSystem/Physics/RigidBody/physRigidBody.cpp:574-577 | the layer's bit is set and no other bit changes; only the mask changes |
| ContactMask.RemoveContactLayer | src/KingSystem/Physics/RigidBody/physRigidBody.cpp:579-582 | the layer's bit is cleared and no other bit changes; only the mask changes |
| ContactMask.AddRemoveInverse | src/KingSystem/Physics/RigidBody/physRigidBody.cpp:574-582 | add then remove restores a mask whose bit was clear; remove then add restores one whose bit was set |
| ContactMask.AddIdempotent | src/KingSystem/Physics/RigidBody/physRigidBody.cpp:574-577 | adding a layer twice is adding it once |
| ContactMask.MaskBits | src/KingSystem/Physics/RigidBody/physRigidBody.cpp:584-586 | the positions of the set bits of a raw word, all below 32 |
| ContactMask.SetContactMask | src/KingSystem/Physics/RigidBody/physRigidBody.cpp:584-586 | a layer of the body's type is reported exactly when its bit is set in the raw word |
| ContactMask.SetContactAll | src/KingSystem/Physics/RigidBody/physRigidBody.cpp:588-590 | every layer of the body's type is reported |
| ContactMask.SetContactNone | src/KingSystem/Physics/RigidBody/physRigidBody.cpp:592-594 | no layer is reported |
| CollisionFilter.ContactLayerOf | src/KingSystem/Physics/RigidBody/physRigidBody.cpp:655-657 | the sensor layer field for a sensor, the entity layer field for an entity |
| CollisionFilter.SetCollisionFilterInfo | src/KingSystem/Physics/RigidBody/physRigidBody.cpp:701-719 | the word is written; an unchanged word changes nothing; otherwise re-registration is reported first when the layer changes while `_8` is set, then the list-shape reset, then `MotionFlag::_8000` is marked while `_8` is set |
| CollisionFilter.WriteFilter | src/KingSystem/Physics/RigidBody/physRigidBody.cpp:712-714 | writes the word; only the word and the event log change |
| CollisionFilter.SetCollisionFilterInfoIdempotent | src/KingSystem/Physics/RigidBody/physRigidBody.cpp:701-719 | writing the same word twice is writing it once |
| CollisionFilter.SetCollisionFilterInfoLayer | src/KingSystem/Physics/RigidBody/physRigidBody.cpp:701-719 | afterwards the contact layer is the one the new word holds; re-registration is reported exactly when the layer changed while `_8` was set |
| CollisionFilter.EnableGroundCollision | src/KingSystem/Physics/RigidBody/physRigidBody.cpp:596-609 | no change for a sensor, a body already in the requested state or a ragdoll; otherwise ground collision ends up as requested (or forced on by `unk30`) through a write with `unk5` cleared |
| CollisionFilter.EnableGroundCollisionKeepsRest | src/KingSystem/Physics/RigidBody/physRigidBody.cpp:596-609 | switching ground collision keeps the contact layer and water collision |
| CollisionFilter.EnableWaterCollision | src/KingSystem/Physics/RigidBody/physRigidBody.cpp:624-636 | no change for a sensor, a body already in the requested state or a ragdoll; otherwise a write with water collision switched |
| CollisionFilter.EnableWaterCollisionWorks | src/KingSystem/Physics/RigidBody/physRigidBody.cpp:624-649 | on a non-ragdoll entity water collision ends up enabled exactly when requested or forced by `unk30`; ground collision untouched |
| CollisionFilter.GetContactLayer | src/KingSystem/Physics/RigidBody/physRigidBody.cpp:651-653 | a sensor reads the sensor layer of the filter word, an entity the entity layer |
| CollisionFilter.IsGroundCollisionEnabled | src/KingSystem/Physics/RigidBody/physRigidBody.cpp:611-622 | never for a sensor; for an entity when `unk5` or `unk30` is set, and otherwise exactly when ground collision is not switched off |
| CollisionFilter.IsWaterCollisionEnabled | src/KingSystem/Physics/RigidBody/physRigidBody.cpp:638-649 | never for a sensor; for an entity when `unk30` is set, and otherwise exactly when water collision is not switched off |
| CollisionFilter.SetContactLayer | src/KingSystem/Physics/RigidBody/physRigidBody.cpp:659-672 | a layer of the other type is ignored; otherwise the role's layout is rewritten through the codec and stored through `setCollisionFilterInfo` |
| CollisionFilter.SetContactLayerReaches | src/KingSystem/Physics/RigidBody/physRigidBody.cpp:659-672 | with a codec that writes the layer it is given, the body moves to any layer of its own type |
| CollisionFilter.SetSensorReceiverLayer2 | src/KingSystem/Physics/RigidBody/physRigidBody.cpp:721-726 | writes the second receiver layer whatever the role, through `setCollisionFilterInfo` |
| CollisionFilter.ClearSensorReceiverLayer2 | src/KingSystem/Physics/RigidBody/physRigidBody.cpp:728-740 | no change for an entity or a sensor on `SensorCustomReceiver`; otherwise layer 2 is cleared through `setCollisionFilterInfo` |
| CollisionFilter.GetGroundHitType | src/KingSystem/Physics/RigidBody/physRigidBody.cpp:818-823 | 0 for a sensor, the word's ground hit for an entity |
| CollisionFilter.SetGroundHitType | src/KingSystem/Physics/RigidBody/physRigidBody.cpp:825-835 | no change for a sensor; an entity's word gets the ground hit through the codec and is stored through `setCollisionFilterInfo` |
| CollisionFilter.GroundHitReadBack | src/KingSystem/Physics/RigidBody/physRigidBody.cpp:818-835 | with a sound codec an entity reads back the ground hit it was given; a sensor still answers 0 |
| CollisionFilter.SetSystemGroupHandler | src/KingSystem/Physics/RigidBody/physRigidBody.cpp:761-777 | a handler of the other layer type is ignored; a matching handler builds the word; without a handler the word is rebuilt in the role's layout from layer and ground hit; each word is stored through `setCollisionFilterInfo` |
| CollisionFilter.SetContactLayerAndHandler | src/KingSystem/Physics/RigidBody/physRigidBody.cpp:742-745 | the layer is set, then the handler; only `UpdateRequested` may change among the flags |
| CollisionFilter.SetContactLayerAndGroundHit | src/KingSystem/Physics/RigidBody/physRigidBody.cpp:747-751 | the layer is set, then, for an entity, the ground hit; with a sound codec an entity moved to an entity layer reads back the ground hit; only `UpdateRequested` may change among the flags |
| CollisionFilter.SetContactLayerAndGroundHitReaches | src/KingSystem/Physics/RigidBody/physRigidBody.cpp:747-751 | with a sound codec an entity ends up with both the layer and the ground hit |
| CollisionFilter.SetContactLayerAndGroundHitAndHandler | src/KingSystem/Physics/RigidBody/physRigidBody.cpp:753-759 | the layer and, for an entity, the ground hit are set, then the handler; only `UpdateRequested` may change among the flags |
| CollisionFilter.SetContactLayerAndGroundHitAndHandlerReaches | src/KingSystem/Physics/RigidBody/physRigidBody.cpp:753-759 | without a handler and with a codec that keeps layer and ground hit, the entity ends up on both |
| CollisionFilter.SetSensorCustomReceiver | src/KingSystem/Physics/RigidBody/physRigidBody.cpp:779-801 | no change for an entity; a sensor's word becomes the mask moved to `SensorCustomReceiver`, tagged with the handler's index if any, stored through `setCollisionFilterInfo` |
| CollisionFilter.CustomReceiverSticks | src/KingSystem/Physics/RigidBody/physRigidBody.cpp:728-801 | after `setSensorCustomReceiver` the sensor is on `SensorCustomReceiver`, so `clearSensorReceiverLayer2` leaves it alone |
| CollisionFilter.SetGroundHitMask | src/KingSystem/Physics/RigidBody/physRigidBody.cpp:803-806 | for an entity layer the codec's ground-hit mask is stored through `setCollisionFilterInfo`; otherwise no change |
| CollisionFilter.AddGroundTypeToGroundHitMask | src/KingSystem/Physics/RigidBody/physRigidBody.cpp:808-816 | only for an entity whose word is a ground-hit mask: the ground hit is added, the layer kept, and the word stored through `setCollisionFilterInfo` |
| Freezing.Freeze | src/KingSystem/Physics/RigidBody/physRigidBody.cpp:482-503 | `Frozen` ends up as requested and only flags and the event log change |
| Freezing.FreezeEvents | src/KingSystem/Physics/RigidBody/physRigidBody.cpp:482-503 | a change of state is passed to the accessor if there is one; a repeated thaw changes nothing; a repeated freeze sets linear then angular velocity to zero |
| Freezing.FreezeThenThaw | src/KingSystem/Physics/RigidBody/physRigidBody.cpp:482-503 | freeze then thaw restores the flags, and the accessor sees one freeze and one thaw |
| Freezing.FreezeTwice | src/KingSystem/Physics/RigidBody/physRigidBody.cpp:482-503 | a second freeze changes no flag |
| Freezing.SwitchFixedWithImpulse | src/KingSystem/Physics/RigidBody/physRigidBody.cpp:506-511 | `FixedWithImpulsePreserved` becomes `fixed`; un-fixing with the mark argument marks `DirtyLinearVelocity` through `setMotionFlag`; otherwise motion flags and queue stay |
| Freezing.SetFixedAndPreserveImpulse | src/KingSystem/Physics/RigidBody/physRigidBody.cpp:505-514 | `FixedWithImpulsePreserved` is `fixed`, `Fixed` unchanged, and `Frozen` equals `Fixed` or `FixedWithImpulsePreserved`; the result is `freeze` of the switched body, preserving velocities and the maximum impulse, and a change of freezing calls `freezeMotionState` on the accessor |
| Freezing.SetFixedAndPreserveImpulseKeepsFlags | src/KingSystem/Physics/RigidBody/physRigidBody.cpp:505-514 | no flag changes besides `FixedWithImpulsePreserved`, `Frozen` and `UpdateRequested` |
| Freezing.SetFixedAndPreserveImpulseMarks | src/KingSystem/Physics/RigidBody/physRigidBody.cpp:505-514 | `DirtyLinearVelocity` is marked exactly on un-fixing with the mark argument; otherwise nothing is marked or queued |
| Freezing.SwitchFixed | src/KingSystem/Physics/RigidBody/physRigidBody.cpp:517-523 | `Fixed` becomes `fixed`; un-fixing marks `DirtyLinearVelocity` and `_40000` and queues the body once if `setMotionFlag` would; otherwise motion flags and queue stay |
| Freezing.SetFixed | src/KingSystem/Physics/RigidBody/physRigidBody.cpp:516-527 | `Fixed` is `fixed`, `FixedWithImpulsePreserved` unchanged, and `Frozen` equals `Fixed` or `FixedWithImpulsePreserved`; the result is `freeze` of the switched body, preserving velocities as the caller asks and not the maximum impulse, and a change of freezing calls `freezeMotionState` on the accessor |
| Freezing.SetFixedKeepsFlags | src/KingSystem/Physics/RigidBody/physRigidBody.cpp:516-527 | no flag changes besides `Fixed`, `Frozen` and `UpdateRequested` |
| Freezing.SetFixedMarks | src/KingSystem/Physics/RigidBody/physRigidBody.cpp:516-527 | un-fixing marks `DirtyLinearVelocity` and `_40000` and queues the body once if `setMotionFlag` would; otherwise nothing is marked or queued |
| Freezing.FixedSwitchesCombine | src/KingSystem/Physics/RigidBody/physRigidBody.cpp:505-527 | the body stays frozen while either fixed flag is set and thaws only when both are clear |
| Freezing.ResetFrozenState | src/KingSystem/Physics/RigidBody/physRigidBody.cpp:529-532 | forwarded to the accessor if there is one; only the event log changes |
| Guards.SetPosition | src/KingSystem/Physics/RigidBody/physRigidBody.cpp:842-849 | a NaN position is reported with code 0 and dropped; any other goes to the accessor |
| Guards.SetTransform | src/KingSystem/Physics/RigidBody/physRigidBody.cpp:895-902 | a matrix with a NaN entry is reported with code 0 and dropped; any other goes to the accessor |
| Guards.SetLinearVelocity | src/KingSystem/Physics/RigidBody/physRigidBody.cpp:1042-1054 | NaN is reported with code 0, an entity's too-high velocity with code 1, both answer false; otherwise the accessor's answer; only the event log changes |
| Guards.SetAngularVelocity | src/KingSystem/Physics/RigidBody/physRigidBody.cpp:1069-1076 | NaN is reported with code 0 and answers false; otherwise the accessor's answer; only the event log changes |
| Guards.ApplyImpulse | src/KingSystem/Physics/RigidBody/physRigidBody.cpp:1190-1241 | checked in the order paused, flags `_400`/`_40`, invalid input (code 0), entity; only an entity's accessor gets the impulse |
| Guards.ReadParam | src/KingSystem/Physics/RigidBody/physRigidBody.cpp:1243-1309 | a sensor (or, for the checking getters, a body without accessor) answers the fixed default; otherwise the accessor's value |
| Guards.InitThenReadParam | src/KingSystem/Physics/RigidBody/physRigidBody.cpp:91-124 | after either accessor initialisation, an entity's getters answer the values of the parameter block handed to `init`, and 0 for a parameter the block does not carry |
| Guards.Normalize | src/KingSystem/Physics/RigidBody/physRigidBody.cpp:1398-1497 | restitution is clamped to [0, 1], the collision impulse scale to at least 0, anything else is kept |
| Guards.WriteParam | src/KingSystem/Physics/RigidBody/physRigidBody.cpp:1243-1497 | ignored on a sensor (and, for the checking setters, without accessor); otherwise exactly that parameter takes the normalised value |
| Guards.ReadAfterWrite | src/KingSystem/Physics/RigidBody/physRigidBody.cpp:1243-1430 | reading back after writing gives the normalised value on an entity and the fixed default on a sensor |
| Guards.EffectiveRestitutionScale | src/KingSystem/Physics/RigidBody/physRigidBody.cpp:1411-1418 | halved while any of `_2000`, `_4000`, `_8000`, `_10000` is set |
| Guards.EffectiveRestitutionBounded | src/KingSystem/Physics/RigidBody/physRigidBody.cpp:1398-1418 | whatever is written, the effective restitution stays within [0, 1] |
| Guards.SetEntityMotionFlag | src/KingSystem/Physics/RigidBody/physRigidBody.cpp:1432-1700 | ignored on a sensor, without accessor, or for `_40` on a character controller; otherwise exactly that accessor flag becomes `on` |
| Guards.QueryEntityMotionFlag | src/KingSystem/Physics/RigidBody/physRigidBody.cpp:1432-1490 | both the `On` and the `Off` query answer false when ignored; otherwise they compare the accessor flag |
| Guards.EntityFlagReadBack | src/KingSystem/Physics/RigidBody/physRigidBody.cpp:1432-1529 | a flag written on an entity with an accessor reads back as written through either query |
| Guards.GetLinkedRigidBody | src/KingSystem/Physics/RigidBody/physRigidBody.cpp:322-327 | a linked body is only reported through a sensor accessor |
| Guards.SetLinkedRigidBody | src/KingSystem/Physics/RigidBody/physRigidBody.cpp:336-352 | succeeds exactly for a sensor with a sensor accessor, unless a body is given while `_20` is set; then the body is linked, otherwise nothing changes |
| Guards.IsSensorMotionFlag40000Set | src/KingSystem/Physics/RigidBody/physRigidBody.cpp:354-359 | true exactly for a sensor accessor with flag `_40000` |
| Guards.UpdateShape | src/KingSystem/Physics/RigidBody/physRigidBody.cpp:908-927 | while `_8` is set only `DirtyShape` is marked through `setMotionFlag`; otherwise the solver takes the new or updated shape (a new shape sets `hasShape`), an entity with an accessor is told which, the user tag is notified exactly when there is one, and nothing else changes |
| Guards.SetContactPoints | src/KingSystem/Physics/RigidBody/physRigidBody.cpp:476-480 | the points are stored; unlinked points are registered exactly while `_8` is set |
| Handshakes.X0 | src/KingSystem/Physics/RigidBody/physRigidBody.cpp:198-221 | with an accessor the time factor is requested; a sensor whose accessor has `_400000` stops there; otherwise `_1` ends up set and `_2` clear |
| Handshakes.TakeToken | src/KingSystem/Physics/RigidBody/physRigidBody.cpp:215-220 | `_1` ends up set and `_2` not newly set; only `UpdateRequested` may change among the flags |
| Handshakes.Sub7100F8D21C | src/KingSystem/Physics/RigidBody/physRigidBody.cpp:250-262 | `_1` moves to `_2`; without `_1`, `_2` is set through `setMotionFlag` only while `_8` is set |
| Handshakes.TokenRoundTrip | src/KingSystem/Physics/RigidBody/physRigidBody.cpp:198-262 | `x_0` then `sub_7100F8D21C` leaves the token on `_2` with `_1` clear |
| Handshakes.Detach | src/KingSystem/Physics/RigidBody/physRigidBody.cpp:287-302 | `_20` and `_4` end up set, no other flag changes; a sensor's link is reset, an entity's accessors are deregistered |
| Handshakes.X6 | src/KingSystem/Physics/RigidBody/physRigidBody.cpp:264-304 | answers true exactly when `_8`, `UpdateRequested` and an attachment were all absent; `_20` and `_4` end up set; motion flags and queue are those of the request step, an entity with an attachment logs `deregisterAllAccessors`, and nothing else changes |
| Handshakes.X6Request | src/KingSystem/Physics/RigidBody/physRigidBody.cpp:272-285 | while `_8` is set the token moves to `_2` and the body is queued unless `UpdateRequested` was set; otherwise a body with `UpdateRequested` is queued again and the motion flags stay; `UpdateRequested` ends up set exactly when `_8` or it was set; no flag but `_20` and `UpdateRequested` changes |
| Handshakes.HandToken | src/KingSystem/Physics/RigidBody/physRigidBody.cpp:275-280 | `_2` ends up set and `_1` not newly set; only `UpdateRequested` may change among the flags |
| Handshakes.X6HandsOver | src/KingSystem/Physics/RigidBody/physRigidBody.cpp:264-304 | the token, queue and `UpdateRequested` outcome of the request part of `x_6` survive the detach |
| Handshakes.X10 | src/KingSystem/Physics/RigidBody/physRigidBody.cpp:453-474 | `_20` and `_4` end up set, no other flag changes, motion flags and queue unchanged; an entity with an attachment logs `deregisterAllAccessors` and then `x_8` is called |
| Handshakes.HandedOverStaysQuiet | src/KingSystem/Physics/RigidBody/physRigidBody.cpp:223-232 | after `x_6` or `x_10`, `setMotionFlag` no longer queues the body |
| RigidBodies.ResetCollisionFilterInfoForListShapes | src/KingSystem/Physics/RigidBody/physRigidBody.cpp:678-699 | through any MOPP wrappers, every child filter of a list shape becomes `0xffffffff` |
| RigidBodies.ConsistentFrame | src/KingSystem/Physics/RigidBody/physRigidBody.h:391-395 | a body that differs from a consistent one only in flags other than `IsSensor` and the schedule flags, and in its accessor's contents but not its kind, keeps the class invariant |
| RigidBodies.ConstructKeepsConsistent | src/KingSystem/Physics/RigidBody/physRigidBody.cpp:46-65 | a body built by the constructor as written satisfies the class invariant |
| RigidBodies.SetMotionFlagKeepsConsistent | src/KingSystem/Physics/RigidBody/physRigidBody.cpp:223-232 | `setMotionFlag` keeps the class invariant |
| RigidBodies.DeferChangeKeepsConsistent | src/KingSystem/Physics/RigidBody/physRigidBody.cpp:947-970 | the deferred path of `changeMotionType` keeps the class invariant |
| RigidBodies.UpdateKeepsConsistent | src/KingSystem/Physics/RigidBody/physRigidBody.cpp:999-1027 | `updateMotionTypeRelatedFlags` keeps the class invariant |
| RigidBodies.TriggerKeepsConsistent | src/KingSystem/Physics/RigidBody/physRigidBody.cpp:1029-1040 | `triggerScheduledMotionTypeChange` keeps the class invariant |
| RigidBodies.FreezeKeepsConsistent | src/KingSystem/Physics/RigidBody/physRigidBody.cpp:482-503 | `freeze` keeps the class invariant |
| RigidBodies.SwitchFixedKeepsConsistent | src/KingSystem/Physics/RigidBody/physRigidBody.cpp:505-527 | both fixed switches keep the class invariant, also halfway |
| RigidBodies.ContactMaskKeepsConsistent | src/KingSystem/Physics/RigidBody/physRigidBody.cpp:574-594 | a well-formed contact mask keeps the class invariant |
| RigidBodies.SetCollisionFilterInfoKeepsConsistent | src/KingSystem/Physics/RigidBody/physRigidBody.cpp:701-719 | `setCollisionFilterInfo` keeps the class invariant |
| RigidBodies.DeactivationKeepsConsistent | src/KingSystem/Physics/RigidBody/physRigidBody.cpp:1562-1596 | `clearFlag*` keeps the class invariant, also halfway |
| RigidBodies.TakeTokenKeepsConsistent | src/KingSystem/Physics/RigidBody/physRigidBody.cpp:215-220 | the token step of `x_0` keeps the class invariant |
| RigidBodies.SubKeepsConsistent | src/KingSystem/Physics/RigidBody/physRigidBody.cpp:250-262 | `sub_7100F8D21C` keeps the class invariant |
| RigidBodies.X6RequestKeepsConsistent | src/KingSystem/Physics/RigidBody/physRigidBody.cpp:272-285 | the request part of `x_6` keeps the class invariant, also after clearing `_20` |
| RigidBodies.DetachKeepsConsistent | src/KingSystem/Physics/RigidBody/physRigidBody.cpp:287-302 | detaching keeps the accessor's kind and the class invariant |
| RigidBodies.RigidBody.constructor | src/KingSystem/Physics/RigidBody/physRigidBody.cpp:46-65 | the new object's state is `Lifecycle.ConstructAsWritten`, unlocked and consistent |
| RigidBodies.RigidBody.IsSensor | src/KingSystem/Physics/RigidBody/physRigidBody.h:391 | agrees with `BodyState.IsSensor` on the object's state |
| RigidBodies.RigidBody.GetLayerType | src/KingSystem/Physics/RigidBody/physRigidBody.h:393-395 | agrees with `BodyState.LayerTypeOf` on the object's state |
| RigidBodies.RigidBody.IsFlag8Set | src/KingSystem/Physics/RigidBody/physRigidBody.cpp:238-240 | agrees with `BodyState.IsFlag8Set` on the object's state |
| RigidBodies.RigidBody.GetMotionType | src/KingSystem/Physics/RigidBody/physRigidBody.cpp:361-369 | agrees with `MotionTypes.GetMotionType` on the object's state |
| RigidBodies.RigidBody.GetContactLayer | src/KingSystem/Physics/RigidBody/physRigidBody.cpp:651-653 | agrees with `CollisionFilter.GetContactLayer` on the object's state |
| RigidBodies.RigidBody.ContactLayerOf | src/KingSystem/Physics/RigidBody/physRigidBody.cpp:655-657 | agrees with `CollisionFilter.ContactLayerOf` on the object's state |
| RigidBodies.RigidBody.Lock | src/KingSystem/Physics/RigidBody/physRigidBody.cpp:1653-1657 | the lock counters are those `lock(w)` reaches; the body's state is unchanged |
| RigidBodies.RigidBody.Unlock | src/KingSystem/Physics/RigidBody/physRigidBody.cpp:1663-1667 | the lock counters are those `unlock(w)` reaches; the body's state is unchanged |
| RigidBodies.RigidBody.SetMotionFlag | src/KingSystem/Physics/RigidBody/physRigidBody.cpp:223-232 | under a balanced lock, the state becomes `BodyState.SetMotionFlag` of the old one; locks balanced, invariant kept |
| RigidBodies.RigidBody.ResetMotionFlagDirect | src/KingSystem/Physics/RigidBody/physRigidBody.h:399 | the state becomes `BodyState.ResetMotionFlagDirect` of the old one |
| RigidBodies.RigidBody.DoChangeMotionType | src/KingSystem/Physics/RigidBody/physRigidBody.cpp:990 | the state becomes `MotionTypes.DoChangeMotionType` of the old one |
| RigidBodies.RigidBody.ChangeMotionType | src/KingSystem/Physics/RigidBody/physRigidBody.cpp:943-997 | the state becomes `MotionTypes.ChangeMotionType` of the old one; invariant kept |
| RigidBodies.RigidBody.DeferMotionTypeChange | src/KingSystem/Physics/RigidBody/physRigidBody.cpp:947-970 | the state becomes `MotionTypes.DeferChange` of the old one |
| RigidBodies.RigidBody.ApplyMotionTypeChange | src/KingSystem/Physics/RigidBody/physRigidBody.cpp:972-996 | the state becomes `MotionTypes.ApplyChange` of the old one |
| RigidBodies.RigidBody.UpdateMotionTypeRelatedFlags | src/KingSystem/Physics/RigidBody/physRigidBody.cpp:999-1027 | the state becomes `MotionTypes.UpdateMotionTypeRelatedFlags` of the old one; invariant kept |
| RigidBodies.RigidBody.TriggerScheduledMotionTypeChange | src/KingSystem/Physics/RigidBody/physRigidBody.cpp:1029-1040 | the state becomes `MotionTypes.TriggerScheduledMotionTypeChange` of the old one; invariant kept |
| RigidBodies.RigidBody.OnInvalidParameter | src/KingSystem/Physics/RigidBody/physRigidBody.cpp:1715-1727 | the code is recorded in the event log; nothing else changes |
| RigidBodies.RigidBody.X0 | src/KingSystem/Physics/RigidBody/physRigidBody.cpp:198-221 | under a balanced lock, the state becomes `Handshakes.X0` of the old one |
| RigidBodies.RigidBody.TakeToken | src/KingSystem/Physics/RigidBody/physRigidBody.cpp:215-220 | the state becomes `Handshakes.TakeToken` of the old one |
| RigidBodies.RigidBody.Sub7100F8D21C | src/KingSystem/Physics/RigidBody/physRigidBody.cpp:250-262 | under a balanced lock, the state becomes `Handshakes.Sub7100F8D21C` of the old one |
| RigidBodies.RigidBody.X6 | src/KingSystem/Physics/RigidBody/physRigidBody.cpp:264-304 | under a balanced lock, state and answer are `Handshakes.X6` of the old state |
| RigidBodies.RigidBody.X6Request | src/KingSystem/Physics/RigidBody/physRigidBody.cpp:272-285 | the state becomes `Handshakes.X6Request` of the old one and the answer says whether work was found |
| RigidBodies.RigidBody.HandToken | src/KingSystem/Physics/RigidBody/physRigidBody.cpp:275-280 | the state becomes `Handshakes.HandToken` of the old one |
| RigidBodies.RigidBody.Detach | src/KingSystem/Physics/RigidBody/physRigidBody.cpp:287-302 | the state becomes `Handshakes.Detach` of the old one and the answer says whether there was an attachment |
| RigidBodies.RigidBody.X10 | src/KingSystem/Physics/RigidBody/physRigidBody.cpp:453-474 | under a balanced lock, the state becomes `Handshakes.X10` of the old one |
| RigidBodies.RigidBody.SetLinearVelocity | src/KingSystem/Physics/RigidBody/physRigidBody.cpp:1042-1054 | state and answer are `Guards.SetLinearVelocity` of the old state |
| RigidBodies.RigidBody.SetAngularVelocity | src/KingSystem/Physics/RigidBody/physRigidBody.cpp:1069-1076 | state and answer are `Guards.SetAngularVelocity` of the old state |
| RigidBodies.RigidBody.Freeze | src/KingSystem/Physics/RigidBody/physRigidBody.cpp:482-503 | the state becomes `Freezing.Freeze` of the old one; invariant kept |
| RigidBodies.RigidBody.SwitchFixedWithImpulse | src/KingSystem/Physics/RigidBody/physRigidBody.cpp:506-511 | the state becomes `Freezing.SwitchFixedWithImpulse` of the old one |
| RigidBodies.RigidBody.SetFixedAndPreserveImpulse | src/KingSystem/Physics/RigidBody/physRigidBody.cpp:505-514 | the state becomes `Freezing.SetFixedAndPreserveImpulse` of the old one |
| RigidBodies.RigidBody.SwitchFixed | src/KingSystem/Physics/RigidBody/physRigidBody.cpp:517-523 | the state becomes `Freezing.SwitchFixed` of the old one |
| RigidBodies.RigidBody.SetFixed | src/KingSystem/Physics/RigidBody/physRigidBody.cpp:516-527 | the state becomes `Freezing.SetFixed` of the old one |
| RigidBodies.RigidBody.ResetFrozenState | src/KingSystem/Physics/RigidBody/physRigidBody.cpp:529-532 | the state becomes `Freezing.ResetFrozenState` of the old one |
| RigidBodies.RigidBody.SetCollisionFilterInfo | src/KingSystem/Physics/RigidBody/physRigidBody.cpp:701-719 | under a balanced lock, the state becomes `CollisionFilter.SetCollisionFilterInfo` of the old one, and on a changed word every child filter of the list shape is `0xffffffff` |
| RigidBodies.RigidBody.WriteFilter | src/KingSystem/Physics/RigidBody/physRigidBody.cpp:712-714 | the state becomes `CollisionFilter.WriteFilter` of the old one and the list shape's child filters are reset |
| RigidBodies.RigidBody.AddContactLayer | src/KingSystem/Physics/RigidBody/physRigidBody.cpp:574-577 | the state becomes `ContactMask.AddContactLayer` of the old one |
| RigidBodies.RigidBody.RemoveContactLayer | src/KingSystem/Physics/RigidBody/physRigidBody.cpp:579-582 | the state becomes `ContactMask.RemoveContactLayer` of the old one |
| RigidBodies.RigidBody.SetContactMask | src/KingSystem/Physics/RigidBody/physRigidBody.cpp:584-586 | the state becomes `ContactMask.SetContactMask` of the old one |
| RigidBodies.RigidBody.SetContactAll | src/KingSystem/Physics/RigidBody/physRigidBody.cpp:588-590 | the state becomes `ContactMask.SetContactAll` of the old one |
| RigidBodies.RigidBody.SetContactNone | src/KingSystem/Physics/RigidBody/physRigidBody.cpp:592-594 | the state becomes `ContactMask.SetContactNone` of the old one |
| RigidBodies.RigidBody.UpdateDeactivation | src/KingSystem/Physics/RigidBody/physRigidBody.cpp:1729-1736 | the state becomes `BodyState.UpdateDeactivation` of the old one |
| RigidBodies.RigidBody.ClearDeactivationFlag | src/KingSystem/Physics/RigidBody/physRigidBody.cpp:1562-1596 | the state becomes `BodyState.ClearDeactivationFlag` of the old one; invariant kept |
| RigidBodies.RigidBody.OnCollisionAdded | src/KingSystem/Physics/RigidBody/physRigidBody.h:449-452 | the state becomes `BodyState.OnCollisionAdded` of the old one |
| RigidBodies.RigidBody.OnCollisionRemoved | src/KingSystem/Physics/RigidBody/physRigidBody.h:455-458 | the state becomes `BodyState.OnCollisionRemoved` of the old one |
| RigidBodies.ScopedLock.constructor | src/KingSystem/Physics/RigidBody/physRigidBody.h:114-117 | takes the locks `lock(w)` takes and remembers the state before; the body's state is unchanged |
| RigidBodies.ScopedLock.Release | src/KingSystem/Physics/RigidBody/physRigidBody.h:118 | after a balanced inner section, gives the lock state back exactly as it was before the constructor |

## Left out

- Solver internals are not modelled. This covers the motion-state copying and swept transform of `replaceMotionObject`, `updateCachedShapeInfo`, `hasConstraintWithUserData`, mass properties, the AABB conversion and the Havok stubs. The solver is reduced to its motion type, collidable quality, deactivation switch, collision-filter word and whether it has a shape; the calls into it are recorded as events.
- `doChangeMotionType` (src/KingSystem/Physics/RigidBody/physRigidBody.cpp:990) is declared but its body is not part of this model. `MotionTypes.DoChangeMotionType` is an abstract step that makes a concrete target the solver's motion type and records the call.
- `x_40` is recorded as one event, because its body is not part of this model.
- Floating-point numerics are left out: `setTimeFactor`, `computeVelocityForWarping`, `getPointVelocity`, `getVelocityComputeTimeFactor`, the epsilon comparisons of the velocity setters, and `updateShapeIfNeeded`.
  - A vector or matrix is a sequence of components, each NaN, infinite or finite, and `Validation` tests only for NaN.
  - `isLinearVelocityTooHigh` and the accessor's own answers are parameters in `Env`.
  - Entity parameters are `real`s, and only the clamps of `setRestitutionScale` and `setColImpulseScale` are modelled.
- Concurrency is not modelled. `sead::CriticalSection` and the world locks become lock counters in `Locks.LockState`. The model is sequential, so the atomicity of `mFlags`/`mMotionFlags` is not modelled either.
- `System::instance()` calls become entries in the event log:
  - the time factor request;
  - contact-system registration;
  - the request manager's `pushRigidBody`, which becomes the `queue` field;
  - `lockWorld`/`unlockWorld`, which become lock operations.
- Pausing is a parameter.
- `UserTag` callbacks are events. `RigidBodies.RigidBody.OnInvalidParameter` records the code whether or not a user tag is present, and it does not read position or velocities.
- Debug stubs and diagnostics are left out: `setColor`, `logPosition`, `m4`, `m11`, `m12`, `getNewShape`, `getName`, `SEAD_WARN`, and the debug reads at the top of `x_0` and `x_6`.
- The bit layouts of `EntityCollisionFilterInfo` and `ReceiverMask`, and the contact-layer definitions of physDefines.h, are not part of this model.
  - The filter word is a record of the fields the code reads.
  - The layout helpers are the opaque functions of `Defines.FilterCodec`.
  - Properties that need a helper to keep a field state that assumption (`SoundCodec`) as a precondition.
- The contact mask `mContactMask` is kept as the set of its bit positions; `ContactMask.MaskBits` relates it to a raw `bv32`.
- The two flag words are kept as sets of enum members, and `Flags.WordRoundTrip`/`MotionFlags.WordRoundTrip` relate them to the packed words.
- `resetCollisionFilterInfoForListShapes` walks a list shape's keys with `getFirstKey`/`getNextKey`. In `RigidBodies.ResetCollisionFilterInfoForListShapes` the walk visits every child of the array in index order. A MOPP shape is followed to its child, and every other shape is left alone.
- `ContactMask.AddContactLayer`, `ContactMask.RemoveContactLayer`, `RigidBodies.RigidBody.AddContactLayer` and `RigidBodies.RigidBody.RemoveContactLayer` require the layer to be of the body's layer type. The source checks this only with the debug assertion `assertLayerType` (src/KingSystem/Physics/RigidBody/physRigidBody.cpp:1709-1713). Without it, the computed bit index is outside the 32-bit mask.
- Some members require a motion accessor where the source dereferences `mMotionAccessor` without a check:
  - `Freezing.Freeze`, on a repeated freeze;
  - `Freezing.SetFixed` and `Freezing.SetFixedAndPreserveImpulse`, when they freeze again;
  - `Guards.SetPosition`, `Guards.SetTransform`, `Guards.SetLinearVelocity` and `Guards.SetAngularVelocity`, on valid input;
  - `Guards.ApplyImpulse`, `Guards.ReadParam`, `Guards.WriteParam` and `Guards.SetEntityMotionFlag`, on an entity.

  A null accessor there is a crash in the source and is not modelled.
- `Handshakes.X0` and `Handshakes.Detach` (and so `Handshakes.X6` and `Handshakes.X10`) require the accessor to match the body's role, because the source casts it without a check. The class invariant guarantees this.
- `MotionTypes.ReplaceMotionObject` (and so `MotionTypes.DeferredChangeCompletes`) requires an entity accessor when only the Dynamic bit is pending, because the source calls `getEntityMotionAccessor()` there without a check.
- `MotionTypes.ChangeMotionTypeReported` and `MotionTypes.ChangeMotionTypeIdempotent` hold only while flag `_8` is set or no change is pending. As written, the immediate path leaves an earlier pending bit in place, and that bit can outrank the new one (see Findings).
- The class `RigidBodies.RigidBody` follows the code as written: its constructor builds `Lifecycle.ConstructAsWritten` and its `ChangeMotionType` follows `MotionTypes.ChangeMotionType`. The corrected definitions in Findings are stated next to them with their properties proved, and the class does not use them.
- `Lifecycle.InitMotionAccessorForDynamicMotion` takes the filled parameter block as an argument. Reading it from the solver body (src/KingSystem/Physics/RigidBody/physRigidBody.cpp:96-110), the `MinInertia` clamp, and the inertia, centre of mass, time factor and maximum velocities it also carries are not modelled, because the solver body's mass properties are not part of this model.
- `Lifecycle.InitAccessor` assumes that `RigidBodyMotionEntity::init` stores the block's parameter values and that `RigidBodyMotionSensor::init` leaves the modelled sensor state alone; neither body is part of this model.
- `Guards.Stored` reads 0 for a parameter the accessor was never given: the defaults of `RigidBodyInstanceParam` are not part of this model, so 0 stands for an unknown value.
- `Guards.WriteParam` has no case for the inverse mass, which has no setter.
- The class `RigidBodies.RigidBody` holds the operations that change the body in place. The following are modelled only as functions on `BodyState.Body`, with their properties proved there:
  - the filter-word mutators other than `setCollisionFilterInfo`;
  - `updateCollidableQualityType` and `replaceMotionObject`;
  - the parameter, impulse and entity-flag guards;
  - `setLinkedRigidBody`, `updateShape` and `setContactPoints`;
  - construction helpers and destruction.

  Each of these is a single read-modify-write with no loop.
- `RigidBodies.RigidBody.ApplyMotionTypeChange` adds the five dirty marks in one update. The source sets them one after another, with no observable step between them.
- The accessor classes `RigidBodyMotionEntity`/`RigidBodyMotionSensor` are reduced to the flags, the entity parameters (`params`) and the linked body the code reads.
  - `getSensorMotionAccessor`/`getEntityMotionAccessor` are the `SensorMotion`/`EntityMotion` cases of `Defines.Accessor`.
  - `getLinkedRigidBody` names a linked body by a number.

## Findings

| source | as written | input that shows it | evidently intended | confidence | as-written member | corrected member |
|---|---|---|---|---|---|---|
| src/KingSystem/Physics/RigidBody/physRigidBody.cpp:57-62 | the constructor checks `mFlags.isOff(IsSensor)` before it sets `IsSensor`, on flags that are still all clear, so every body gets `MASS_SCALING` | any construction with layer type Sensor: the sensor body ends up with mass scaling | only entity bodies get mass scaling | low (the behaviour may be deliberate, since the decompiled order is kept as is); not executed | Lifecycle.SensorGetsMassScalingAsWritten | Lifecycle.ConstructedBody |
| src/KingSystem/Physics/RigidBody/physRigidBody.cpp:972-990 | the immediate path of `changeMotionType` sets the new pending bit without clearing an earlier one; `getMotionType` checks Dynamic, then Keyframed, then Fixed | an entity with `_8` clear and no change pending, asked for Dynamic and then for Keyframed: both bits are set, the solver was last told Keyframed, and `getMotionType` reports Dynamic | the immediate path, like the deferred one, leaves only the new pending bit, so the change asked for is the one reported | low (the body of `doChangeMotionType` is not part of this model and may clear the bits itself); not executed | MotionTypes.ImmediateKeepsEarlierPending | MotionTypes.ChangeMotionTypeCorrected |
