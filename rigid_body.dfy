/** `RigidBody` as an object whose methods update its fields in place. Each method follows
    the source's steps and is proved against the function of the same name on the value
    snapshot `Body` (`State()`), whose properties the other modules prove. The request
    queue, the event log and the lock counters are ghost: they record what the body does to
    the rest of the system. */
module RigidBodies {
  import opened Defines
  import opened BodyState
  import F = Flags
  import M = MotionFlags
  import MT = MotionTypes
  import CM = ContactMask
  import CF = CollisionFilter
  import FZ = Freezing
  import G = Guards
  import L = Locks
  import V = Validation
  import LC = Lifecycle
  import HS = Handshakes

  /** The collision shape, as far as the list-shape filter reset looks at it: a list shape
      holds one filter word per child, a MOPP shape wraps a child shape. */
  datatype Shape = ListShape(filters: array<bv32>) | MoppShape(child: Shape) | OtherShape

  /** The list shape reached through any MOPP wrappers, if there is one. */
  function ListOf(s: Shape): Option<array<bv32>>
  {
    match s
    case ListShape(a) => Some(a)
    case MoppShape(c) => ListOf(c)
    case OtherShape => None
  }

  /** The list shape reached from an allocated shape is allocated. */
  lemma {:induction false} ListOfAllocated(s: Shape)
    requires allocated(s)
    ensures ListOf(s).Some? ==> allocated(ListOf(s).value)
  {
    if s.MoppShape? {
      ListOfAllocated(s.child);
    }
  }

  /** The filter words the reset may write. */
  function ListFilters(s: Option<Shape>): set<array<bv32>>
  {
    if s.Some? && ListOf(s.value).Some? then {ListOf(s.value).value} else {}
  }

  /** `resetCollisionFilterInfoForListShapes`: descends through MOPP wrappers; on a list
      shape, every child's filter word becomes `0xffffffff`; any other shape is left alone. */
  method ResetCollisionFilterInfoForListShapes(shape: Shape)
    modifies ListFilters(Some(shape))
    ensures ListOf(shape).Some? ==>
      forall k :: 0 <= k < ListOf(shape).value.Length ==> ListOf(shape).value[k] == 0xffff_ffff
  {
    var s := shape;
    while true
      invariant ListOf(s) == ListOf(shape)
      decreases s
    {
      match s
      case ListShape(list) =>
        for k := 0 to list.Length
          invariant forall j :: 0 <= j < k ==> list[j] == 0xffff_ffff
        {
          list[k] := 0xffff_ffff;
        }
        return;
      case MoppShape(child) =>
        s := child;
      case OtherShape =>
        return;
    }
  }

  /** What every operation of the class keeps: the accessor matches the role, at most one
      motion-type change is scheduled, and the contact mask has only its 32 bits. */
  predicate Consistent(b: Body)
  {
    RoleConsistent(b) && MT.AtMostOneScheduled(b.flags) && CM.WellFormed(b.contactMask)
  }

  /** A body that differs from a consistent one only in flags other than `IsSensor` and the
      three schedule flags, in the contents of its accessor (not its kind) and in fields the
      invariant does not read is consistent. */
  lemma ConsistentFrame(a: Body, b: Body, xs: set<F.Flag>)
    requires Consistent(a)
    requires b.accessor.NoAccessor? == a.accessor.NoAccessor?
    requires b.accessor.SensorMotion? == a.accessor.SensorMotion?
    requires b.contactMask == a.contactMask
    requires b.flags - xs == a.flags - xs
    requires F.IsSensor !in xs && F.U20000000 !in xs && F.U40000000 !in xs && F.U80000000 !in xs
    ensures Consistent(b)
  {
    assert F.IsSensor in b.flags <==> F.IsSensor in a.flags by {
      assert F.IsSensor in b.flags <==> F.IsSensor in b.flags - xs;
    }
    assert F.U20000000 in b.flags <==> F.U20000000 in a.flags by {
      assert F.U20000000 in b.flags <==> F.U20000000 in b.flags - xs;
    }
    assert F.U40000000 in b.flags <==> F.U40000000 in a.flags by {
      assert F.U40000000 in b.flags <==> F.U40000000 in b.flags - xs;
    }
    assert F.U80000000 in b.flags <==> F.U80000000 in a.flags by {
      assert F.U80000000 in b.flags <==> F.U80000000 in b.flags - xs;
    }
  }

  /** A freshly constructed body is consistent. */
  lemma ConstructKeepsConsistent(t: BodyType, layerType: LayerType, hk: LC.SolverBody, a7: bool)
    ensures Consistent(LC.ConstructAsWritten(t, layerType, hk, a7))
  {
    LC.ConstructedBody(t, layerType, hk, a7);
    var flags := LC.ConstructorFlags(t, layerType, a7);
    assert F.U20000000 !in flags && F.U40000000 !in flags && F.U80000000 !in flags;
  }

  lemma SetMotionFlagKeepsConsistent(b: Body, f: M.MotionFlag)
    requires Consistent(b)
    ensures Consistent(SetMotionFlag(b, f))
  {
    ConsistentFrame(b, SetMotionFlag(b, f), {F.UpdateRequested});
  }

  lemma DeferChangeKeepsConsistent(b: Body, t: MotionType)
    requires Consistent(b)
    ensures Consistent(MT.DeferChange(b, t))
  {
    ConsistentFrame(b, MT.DeferChange(b, t), {F.UpdateRequested});
  }

  /** `updateMotionTypeRelatedFlags` keeps the invariant: it never schedules a second
      change and leaves `IsSensor` alone. */
  lemma UpdateKeepsConsistent(b: Body)
    requires Consistent(b)
    ensures Consistent(MT.UpdateMotionTypeRelatedFlags(b))
  {
    MT.ScheduleStaysSingle(b);
  }

  /** `triggerScheduledMotionTypeChange` keeps the invariant: it clears the one scheduled
      change it carries out and leaves `IsSensor` alone. */
  lemma TriggerKeepsConsistent(b: Body)
    requires Consistent(b)
    ensures Consistent(MT.TriggerScheduledMotionTypeChange(b))
  {
    MT.ScheduleStaysSingle(b);
    if MT.HasSchedule(b) {
      var t := MT.ScheduledType(b);
      var c := MT.ChangeMotionType(b, t);
      var r := MT.TriggerScheduledMotionTypeChange(b);
      MT.TriggerActsOnOne(b);
      assert r.flags == c.flags - {MT.ScheduleBit(t)};
      assert F.IsSensor in c.flags <==> F.IsSensor in b.flags by {
        assert F.IsSensor in c.flags <==> F.IsSensor in c.flags - {F.UpdateRequested};
      }
    }
  }

  /** `freeze` keeps the invariant: only `Frozen` and the event log change. */
  lemma FreezeKeepsConsistent(b: Body, s: bool, pv: bool, pm: bool, env: Env)
    requires Consistent(b) && FZ.FreezeCallable(b, s)
    ensures Consistent(FZ.Freeze(b, s, pv, pm, env))
  {
    ConsistentFrame(b, FZ.Freeze(b, s, pv, pm, env), {F.Frozen});
  }

  lemma SwitchFixedKeepsConsistent(b: Body, fixed: bool, mark: bool)
    requires Consistent(b)
    ensures Consistent(FZ.SwitchFixedWithImpulse(b, fixed, mark))
    ensures Consistent(FZ.SwitchFixed(b, fixed))
    ensures Consistent(b.(flags := Change(b.flags, F.FixedWithImpulsePreserved, fixed)))
    ensures Consistent(b.(flags := Change(b.flags, F.Fixed, fixed)))
  {
    ConsistentFrame(b, b.(flags := Change(b.flags, F.FixedWithImpulsePreserved, fixed)), {F.FixedWithImpulsePreserved});
    ConsistentFrame(b, b.(flags := Change(b.flags, F.Fixed, fixed)), {F.Fixed});
    var xs := {F.FixedWithImpulsePreserved, F.UpdateRequested};
    var r := FZ.SwitchFixedWithImpulse(b, fixed, mark);
    assert r.flags - xs == b.flags - xs by {
      assert r.flags - xs == (r.flags - {F.UpdateRequested}) - {F.FixedWithImpulsePreserved};
      assert b.flags - xs == (FZ.FixedFlags(b, F.FixedWithImpulsePreserved, fixed) - {F.FixedWithImpulsePreserved}) - {F.UpdateRequested};
    }
    ConsistentFrame(b, r, xs);
    var ys := {F.Fixed, F.UpdateRequested};
    var q := FZ.SwitchFixed(b, fixed);
    assert q.flags - ys == b.flags - ys by {
      assert q.flags - ys == (q.flags - {F.UpdateRequested}) - {F.Fixed};
      assert b.flags - ys == (FZ.FixedFlags(b, F.Fixed, fixed) - {F.Fixed}) - {F.UpdateRequested};
    }
    ConsistentFrame(b, q, ys);
  }

  /** Replacing the contact mask by a well-formed one keeps the invariant. */
  lemma ContactMaskKeepsConsistent(b: Body, mask: set<nat>)
    requires Consistent(b) && CM.WellFormed(mask)
    ensures Consistent(b.(contactMask := mask))
  {
  }

  /** `setCollisionFilterInfo` keeps the invariant: it changes no flag but
      `UpdateRequested`. */
  lemma SetCollisionFilterInfoKeepsConsistent(b: Body, info: FilterInfo)
    requires Consistent(b)
    ensures Consistent(CF.SetCollisionFilterInfo(b, info))
  {
    ConsistentFrame(b, CF.SetCollisionFilterInfo(b, info), {F.UpdateRequested});
  }

  /** Switching a deactivation flag keeps the invariant, both after the switch itself and
      after the follow-up. */
  lemma DeactivationKeepsConsistent(b: Body, f: F.Flag, clear: bool)
    requires Consistent(b) && IsDeactivationFlag(f)
    ensures Consistent(b.(flags := Change(b.flags, f, !clear)))
    ensures Consistent(ClearDeactivationFlag(b, f, clear))
  {
    ConsistentFrame(b, b.(flags := Change(b.flags, f, !clear)), {f});
    ClearDeactivationFlagKeepsOthers(b, f, clear);
    ConsistentFrame(b, ClearDeactivationFlag(b, f, clear), {f, F.UpdateRequested});
  }

  /** The token step of `x_0` keeps the invariant: it changes no flag but
      `UpdateRequested`. */
  lemma TakeTokenKeepsConsistent(b: Body)
    requires Consistent(b)
    ensures Consistent(HS.TakeToken(b))
  {
    ConsistentFrame(b, HS.TakeToken(b), {F.UpdateRequested});
  }

  /** `sub_7100F8D21C` keeps the invariant. */
  lemma SubKeepsConsistent(b: Body)
    requires Consistent(b)
    ensures Consistent(HS.Sub7100F8D21C(b))
  {
    if M.U1 !in b.motion && IsFlag8Set(b) {
      SetMotionFlagKeepsConsistent(b, M.U2);
    }
  }

  /** The first half of `x_6` keeps the invariant, also after clearing `_20` and moving the
      token. */
  lemma X6RequestKeepsConsistent(b: Body)
    requires Consistent(b)
    ensures Consistent(b.(flags := b.flags - {F.U20}))
    ensures Consistent(HS.X6Request(b))
  {
    ConsistentFrame(b, b.(flags := b.flags - {F.U20}), {F.U20});
    ConsistentFrame(b, HS.X6Request(b), {F.U20, F.UpdateRequested});
  }

  /** Detaching keeps the invariant: the accessor keeps its kind. */
  lemma DetachKeepsConsistent(b: Body)
    requires Consistent(b)
    ensures HS.DetachCallable(b) && Consistent(HS.Detach(b))
  {
    ConsistentFrame(b, HS.Detach(b), {F.U20, F.U4});
  }

  class RigidBody {
    const bodyType: BodyType
    /** The solver body's collision shape; `updateShape` is not part of this class. */
    const shape: Option<Shape>
    var flags: set<F.Flag>
    var motion: set<M.MotionFlag>
    var contactMask: set<nat>
    var filter: FilterInfo
    var collisions: int
    var solverMotion: MotionType
    var quality: Quality
    var deactivation: bool
    var massScaling: bool
    var hasUserTag: bool
    var accessor: Accessor
    var contactPoints: Option<ContactPoints>
    ghost var queue: seq<LayerType>
    ghost var events: seq<Event>
    ghost var locks: L.LockState

    /** The body as a value. */
    ghost function State(): Body
      reads this
    {
      Body(bodyType, flags, motion, contactMask, filter, collisions, solverMotion, quality,
           deactivation, massScaling, shape.Some?, hasUserTag, accessor, contactPoints, queue, events)
    }

    ghost predicate Valid()
      reads this
    {
      Consistent(State())
    }

    /** `RigidBody::RigidBody`, as written: the role check for mass scaling reads the flags
        before `IsSensor` is set, so every body gets mass scaling. */
    constructor (t: BodyType, layerType: LayerType, hk: LC.SolverBody, shape: Option<Shape>, a7: bool)
      requires hk.hasShape == shape.Some?
      ensures Valid() && locks == L.Unlocked && this.shape == shape
      ensures State() == LC.ConstructAsWritten(t, layerType, hk, a7)
    {
      bodyType := t;
      this.shape := shape;
      flags := {};
      motion := {};
      contactMask := {};
      filter := hk.filter;
      collisions := 0;
      solverMotion := hk.motion;
      quality := hk.quality;
      hasUserTag := false;
      accessor := NoAccessor;
      contactPoints := None;
      queue := [];
      events := [];
      locks := L.Unlocked;
      deactivation := true;
      massScaling := false;
      new;
      if F.IsSensor !in flags {
        massScaling := true;
      }
      flags := Change(flags, F.HighQualityCollidable, t == CharacterController);
      flags := Change(flags, F.IsSensor, layerType == Sensor);
      flags := Change(flags, F.U10, a7);
      flags := flags + {F.UseSystemTimeFactor};
      ConstructKeepsConsistent(t, layerType, hk, a7);
      LC.ConstructedFields(t, layerType, hk, a7);
    }

    function IsSensor(): (r: bool)
      reads this
      ensures r == BodyState.IsSensor(State())
    {
      F.IsSensor in flags
    }

    function GetLayerType(): (r: LayerType)
      reads this
      ensures r == LayerTypeOf(State())
    {
      if F.IsSensor in flags then Sensor else Entity
    }

    function IsFlag8Set(): (r: bool)
      reads this
      ensures r == BodyState.IsFlag8Set(State())
    {
      F.U8 in flags
    }

    /** `getMotionType`. */
    function GetMotionType(): (t: MotionType)
      reads this
      ensures t == MT.GetMotionType(State())
    {
      if M.Dynamic in motion then Dynamic
      else if M.Keyframed in motion then Keyframed
      else if M.Fixed in motion then Fixed
      else solverMotion
    }

    /** `getContactLayer`. */
    function GetContactLayer(): (l: ContactLayer)
      reads this
      ensures l == CF.GetContactLayer(State())
    {
      if F.IsSensor in flags then filter.sensorLayer else filter.entityLayer
    }

    /** `lock(also_lock_world)`. */
    method Lock(alsoLockWorld: bool)
      modifies this
      ensures locks == L.Acquired(old(locks), alsoLockWorld, GetLayerType())
      ensures State() == old(State())
    {
      ghost var s, layer := locks, GetLayerType();
      if alsoLockWorld {
        if GetLayerType() == Entity {
          locks := locks.(entityWorld := locks.entityWorld + 1);
        } else {
          locks := locks.(sensorWorld := locks.sensorWorld + 1);
        }
      }
      locks := locks.(body := locks.body + 1);
      if alsoLockWorld {
        assert L.LockOps(alsoLockWorld, layer) == [L.AcquireWorld(layer), L.AcquireBody];
        assert L.LockOps(alsoLockWorld, layer)[1..] == [L.AcquireBody];
      } else {
        assert L.LockOps(alsoLockWorld, layer) == [L.AcquireBody];
      }
      assert [L.AcquireBody][1..] == [];
      assert L.Replay(s, L.LockOps(alsoLockWorld, layer)) == Some(locks);
    }

    /** `unlock(also_unlock_world)`: the body's lock first, then the world's. */
    method Unlock(alsoUnlockWorld: bool)
      requires L.Replay(locks, L.UnlockOps(alsoUnlockWorld, GetLayerType())).Some?
      modifies this
      ensures locks == L.Replay(old(locks), L.UnlockOps(alsoUnlockWorld, old(GetLayerType()))).value
      ensures State() == old(State())
    {
      ghost var layer := GetLayerType();
      assert L.Step(locks, L.ReleaseBody).Some? by {
        L.ReplayAppend(locks, [L.ReleaseBody], if alsoUnlockWorld then [L.ReleaseWorld(layer)] else []);
      }
      L.ReplayAppend(locks, [L.ReleaseBody], if alsoUnlockWorld then [L.ReleaseWorld(layer)] else []);
      locks := locks.(body := locks.body - 1);
      if alsoUnlockWorld {
        if layer == Entity {
          locks := locks.(entityWorld := locks.entityWorld - 1);
        } else {
          locks := locks.(sensorWorld := locks.sensorWorld - 1);
        }
      }
    }

    /** `setMotionFlag`, under the body's own lock. */
    method SetMotionFlag(f: M.MotionFlag)
      requires Valid()
      modifies this
      ensures Valid() && locks == old(locks)
      ensures State() == BodyState.SetMotionFlag(old(State()), f)
    {
      SetMotionFlagKeepsConsistent(State(), f);
      ghost var b := State();
      var lock := new ScopedLock(this, false);
      assert State() == b;
      motion := motion + {f};
      if F.U20 !in flags && F.UpdateRequested !in flags {
        flags := flags + {F.UpdateRequested};
        queue := queue + [GetLayerType()];
      }
      assert State() == BodyState.SetMotionFlag(b, f);
      lock.Release();
    }

    /** `resetMotionFlagDirect`. */
    method ResetMotionFlagDirect(f: M.MotionFlag)
      requires Valid()
      modifies this
      ensures Valid() && locks == old(locks)
      ensures State() == BodyState.ResetMotionFlagDirect(old(State()), f)
    {
      motion := motion - {f};
    }

    /** `doChangeMotionType(target, current)`: the solver takes the requested concrete type;
        the rest of its work is not part of this model. */
    method DoChangeMotionType(target: MotionType, current: MotionType)
      requires Valid()
      modifies this
      ensures Valid() && locks == old(locks)
      ensures State() == MT.DoChangeMotionType(old(State()), target, current)
    {
      if MT.IsConcrete(target) {
        solverMotion := target;
      }
      events := events + [MotionTypeChanged(target, current)];
    }

    /** `changeMotionType`: nothing when the type is already reported; otherwise the
        deferred path while flag `_8` is set, and the immediate path unless a sensor is asked
        to become dynamic. */
    method ChangeMotionType(t: MotionType)
      requires Valid()
      modifies this
      ensures Valid() && locks == old(locks)
      ensures State() == MT.ChangeMotionType(old(State()), t)
    {
      if GetMotionType() == t {
        return;
      }
      if IsFlag8Set() {
        DeferMotionTypeChange(t);
        return;
      }
      if t == Dynamic && IsSensor() {
        return;
      }
      ApplyMotionTypeChange(t);
    }

    /** The part of `changeMotionType` run while flag `_8` is set. */
    method DeferMotionTypeChange(t: MotionType)
      requires Valid()
      modifies this
      ensures Valid() && locks == old(locks)
      ensures State() == MT.DeferChange(old(State()), t)
    {
      DeferChangeKeepsConsistent(State(), t);
      match t {
        case Dynamic =>
          if !IsSensor() {
            SetMotionFlag(M.Dynamic);
            motion := motion - {M.Fixed};
            motion := motion - {M.Keyframed};
          }
        case Fixed =>
          SetMotionFlag(M.Fixed);
          motion := motion - {M.Dynamic};
          motion := motion - {M.Keyframed};
        case Keyframed =>
          SetMotionFlag(M.Keyframed);
          motion := motion - {M.Dynamic};
          motion := motion - {M.Fixed};
        case _ =>
      }
    }

    /** The part of `changeMotionType` run at once. */
    method ApplyMotionTypeChange(t: MotionType)
      requires Valid()
      modifies this
      ensures Valid() && locks == old(locks)
      ensures State() == MT.ApplyChange(old(State()), t)
    {
      ConsistentFrame(State(), MT.ApplyChange(State(), t), {});
      // the switch over the three concrete types
      if MT.IsConcrete(t) {
        motion := motion + {MT.PendingBit(t)};
      }
      DoChangeMotionType(t, GetMotionType());
      // DirtyMass, DirtyInertiaLocal, DirtyMaxVelOrTimeFactor, DirtyDampingOrGravityFactor
      // and DirtyCenterOfMassLocal
      motion := motion + MT.ChangeDirtyBits;
      // x_40
      events := events + [MotionSettled];
    }

    /** `updateMotionTypeRelatedFlags`. */
    method UpdateMotionTypeRelatedFlags()
      requires Valid()
      modifies this
      ensures Valid() && locks == old(locks)
      ensures State() == MT.UpdateMotionTypeRelatedFlags(old(State()))
    {
      UpdateKeepsConsistent(State());
      if F.U20000000 in flags || F.U80000000 in flags || F.U40000000 in flags {
        return;
      }
      match GetMotionType() {
        case Dynamic =>
          flags := flags + {F.U80000000};
          flags := flags - {F.U20000000};
          flags := flags - {F.U40000000};
          return;
        case Fixed =>
          flags := flags + {F.U40000000};
          flags := flags - {F.U20000000};
          flags := flags - {F.U80000000};
          return;
        case Keyframed =>
          flags := flags + {F.U20000000};
          flags := flags - {F.U40000000};
          flags := flags - {F.U80000000};
          return;
        case _ =>
      }
      flags := flags - {F.U20000000};
      flags := flags - {F.U40000000};
      flags := flags - {F.U80000000};
    }

    /** `triggerScheduledMotionTypeChange`. */
    method TriggerScheduledMotionTypeChange()
      requires Valid()
      modifies this
      ensures Valid() && locks == old(locks)
      ensures State() == MT.TriggerScheduledMotionTypeChange(old(State()))
    {
      TriggerKeepsConsistent(State());
      if F.U20000000 in flags {
        ChangeMotionType(Keyframed);
        flags := flags - {F.U20000000};
      } else if F.U40000000 in flags {
        ChangeMotionType(Fixed);
        flags := flags - {F.U40000000};
      } else if F.U80000000 in flags {
        ChangeMotionType(Dynamic);
        flags := flags - {F.U80000000};
      }
    }

    /** `onInvalidParameter(code)`: reported to the user tag, if any. */
    method OnInvalidParameter(code: int)
      requires Valid()
      modifies this
      ensures Valid() && locks == old(locks)
      ensures State() == old(State()).(events := old(State()).events + [InvalidParameter(code)])
    {
      events := events + [InvalidParameter(code)];
    }

    /** `x_0`, under the body's lock. */
    method X0()
      requires Valid()
      modifies this
      ensures Valid() && locks == old(locks)
      ensures State() == HS.X0(old(State()))
    {
      var lock := new ScopedLock(this, false);
      var stop := false;
      if !accessor.NoAccessor? {
        events := events + [TimeFactorRequested(F.UseSystemTimeFactor in flags)];
        stop := IsSensor() && accessor.flag400000;
      }
      if !stop {
        TakeToken();
      }
      lock.Release();
    }

    /** The token step of `x_0`. */
    method TakeToken()
      requires Valid()
      modifies this
      ensures Valid() && locks == old(locks)
      ensures State() == HS.TakeToken(old(State()))
    {
      TakeTokenKeepsConsistent(State());
      if M.U2 in motion {
        motion := motion - {M.U2};
        motion := motion + {M.U1};
      } else if M.U1 !in motion {
        SetMotionFlag(M.U1);
      }
    }

    /** `sub_7100F8D21C`, under the body's lock. */
    method Sub7100F8D21C()
      requires Valid()
      modifies this
      ensures Valid() && locks == old(locks)
      ensures State() == HS.Sub7100F8D21C(old(State()))
    {
      SubKeepsConsistent(State());
      var lock := new ScopedLock(this, false);
      if M.U1 in motion {
        motion := motion - {M.U1};
        motion := motion + {M.U2};
      } else if IsFlag8Set() {
        SetMotionFlag(M.U2);
      }
      lock.Release();
    }

    /** `x_6`, under the body's lock: answers whether neither the request step nor the
        detach step found work. */
    method X6() returns (result: bool)
      requires Valid()
      modifies this
      ensures Valid() && locks == old(locks)
      ensures (State(), result) == HS.X6(old(State()))
    {
      var lock := new ScopedLock(this, false);
      var requested := X6Request();
      var detached := Detach();
      result := !requested && !detached;
      lock.Release();
    }

    /** The first half of `x_6`; answers whether it found work. */
    method X6Request() returns (requested: bool)
      requires Valid()
      modifies this
      ensures Valid() && locks == old(locks)
      ensures State() == HS.X6Request(old(State()))
      ensures requested <==> BodyState.IsFlag8Set(old(State())) || F.UpdateRequested in old(flags)
    {
      X6RequestKeepsConsistent(State());
      requested := false;
      if IsFlag8Set() {
        flags := flags - {F.U20};
        HandToken();
        requested := true;
      } else if F.UpdateRequested in flags {
        queue := queue + [GetLayerType()];
        requested := true;
      }
    }

    /** The token step of `x_6`. */
    method HandToken()
      requires Valid()
      modifies this
      ensures Valid() && locks == old(locks)
      ensures State() == HS.HandToken(old(State()))
    {
      ConsistentFrame(State(), HS.HandToken(State()), {F.UpdateRequested});
      if M.U1 in motion {
        motion := motion - {M.U1};
        motion := motion + {M.U2};
      }
      SetMotionFlag(M.U2);
    }

    /** The common tail of `x_6` and `x_10`; answers whether there was something to
        detach. */
    method Detach() returns (detached: bool)
      requires Valid()
      modifies this
      ensures Valid() && locks == old(locks)
      ensures State() == HS.Detach(old(State()))
      ensures detached == HS.HasAttachment(old(State()))
    {
      DetachKeepsConsistent(State());
      detached := false;
      if IsSensor() {
        if accessor.SensorMotion? && accessor.linked.Some? {
          flags := flags - {F.U20};
          accessor := accessor.(linked := None);
          detached := true;
        }
      } else if !accessor.NoAccessor? && E2 in accessor.entityFlags {
        flags := flags - {F.U20};
        events := events + [Call(DeregisterAllAccessors)];
        detached := true;
      }
      flags := flags + {F.U20, F.U4};
    }

    /** `x_10`, under the body's lock and, while flag `_8` is set, the world's. */
    method X10()
      requires Valid()
      modifies this
      ensures Valid() && locks == old(locks)
      ensures State() == HS.X10(old(State()))
    {
      var lock := new ScopedLock(this, IsFlag8Set());
      var detached := Detach();
      events := events + [X8Called];
      lock.Release();
    }

    /** `setLinearVelocity`. */
    method SetLinearVelocity(v: Vec3, env: Env) returns (accepted: bool)
      requires Valid()
      requires !G.LinearVelocityRejected(State(), v, env) ==> HasAccessor(State())
      modifies this
      ensures Valid() && locks == old(locks)
      ensures (State(), accepted) == G.SetLinearVelocity(old(State()), v, env)
    {
      var invalid := V.IsVectorInvalid(v);
      if invalid {
        OnInvalidParameter(0);
        return false;
      }
      if !IsSensor() && env.linearVelocityTooHigh(v) {
        OnInvalidParameter(1);
        return false;
      }
      events := events + [Call(LinearVelocity(v))];
      return env.accessorAccepts;
    }

    /** `setAngularVelocity`. */
    method SetAngularVelocity(v: Vec3, env: Env) returns (accepted: bool)
      requires Valid()
      requires !HasNaN(v) ==> HasAccessor(State())
      modifies this
      ensures Valid() && locks == old(locks)
      ensures (State(), accepted) == G.SetAngularVelocity(old(State()), v, env)
    {
      var invalid := V.IsVectorInvalid(v);
      if invalid {
        OnInvalidParameter(0);
        return false;
      }
      events := events + [Call(AngularVelocity(v))];
      return env.accessorAccepts;
    }

    /** `freeze(should_freeze, preserve_velocities, preserve_max_impulse)`. */
    method Freeze(shouldFreeze: bool, preserveVelocities: bool, preserveMaxImpulse: bool, env: Env)
      requires Valid() && FZ.FreezeCallable(State(), shouldFreeze)
      modifies this
      ensures Valid() && locks == old(locks)
      ensures State() == FZ.Freeze(old(State()), shouldFreeze, preserveVelocities, preserveMaxImpulse, env)
    {
      FreezeKeepsConsistent(State(), shouldFreeze, preserveVelocities, preserveMaxImpulse, env);
      if (F.Frozen in flags) == shouldFreeze {
        if shouldFreeze {
          var linearAccepted := SetLinearVelocity(Zero, env);
          var angularAccepted := SetAngularVelocity(Zero, env);
        }
        return;
      }
      if accessor.NoAccessor? {
        flags := Change(flags, F.Frozen, shouldFreeze);
        return;
      }
      if shouldFreeze {
        events := events + [Call(FreezeMotion(true, preserveVelocities, preserveMaxImpulse))];
        flags := flags + {F.Frozen};
      } else {
        flags := flags - {F.Frozen};
        events := events + [Call(FreezeMotion(false, preserveVelocities, preserveMaxImpulse))];
      }
    }

    /** The first half of `setFixedAndPreserveImpulse`: the flag switch and the dirty mark. */
    method SwitchFixedWithImpulse(fixed: bool, markLinearVelAsDirty: bool)
      requires Valid()
      modifies this
      ensures Valid() && locks == old(locks)
      ensures State() == FZ.SwitchFixedWithImpulse(old(State()), fixed, markLinearVelAsDirty)
    {
      SwitchFixedKeepsConsistent(State(), fixed, markLinearVelAsDirty);
      if (F.FixedWithImpulsePreserved in flags) != fixed {
        flags := Change(flags, F.FixedWithImpulsePreserved, fixed);
        if !fixed && markLinearVelAsDirty {
          SetMotionFlag(M.DirtyLinearVelocity);
        }
      }
    }

    /** `setFixedAndPreserveImpulse(fixed, mark_linear_vel_as_dirty)`. */
    method SetFixedAndPreserveImpulse(fixed: bool, markLinearVelAsDirty: bool, env: Env)
      requires Valid() && FZ.FixedAndPreserveImpulseCallable(State(), fixed)
      modifies this
      ensures Valid() && locks == old(locks)
      ensures State() == FZ.SetFixedAndPreserveImpulse(old(State()), fixed, markLinearVelAsDirty, env)
    {
      ghost var b := State();
      SwitchFixedWithImpulse(fixed, markLinearVelAsDirty);
      assert F.Frozen in flags <==> F.Frozen in b.flags by {
        assert F.Frozen in flags <==> F.Frozen in flags - {F.UpdateRequested};
        assert F.Frozen in b.flags <==> F.Frozen in FZ.FixedFlags(b, F.FixedWithImpulsePreserved, fixed) - {F.UpdateRequested};
      }
      assert FZ.ShouldBeFrozen(flags) == FZ.ShouldBeFrozen(FZ.FixedFlags(b, F.FixedWithImpulsePreserved, fixed)) by {
        assert F.Fixed in flags <==> F.Fixed in flags - {F.UpdateRequested};
        assert F.FixedWithImpulsePreserved in flags <==> F.FixedWithImpulsePreserved in flags - {F.UpdateRequested};
      }
      Freeze(F.FixedWithImpulsePreserved in flags || F.Fixed in flags, true, true, env);
    }

    /** The first half of `setFixed`: the flag switch and, when un-fixing, the two marks. */
    method SwitchFixed(fixed: bool)
      requires Valid()
      modifies this
      ensures Valid() && locks == old(locks)
      ensures State() == FZ.SwitchFixed(old(State()), fixed)
    {
      SwitchFixedKeepsConsistent(State(), fixed, false);
      if (F.Fixed in flags) != fixed {
        flags := Change(flags, F.Fixed, fixed);
        if !fixed {
          SetMotionFlag(M.DirtyLinearVelocity);
          SetMotionFlag(M.U40000);
        }
      }
    }

    /** `setFixed(fixed, preserve_velocities)`. */
    method SetFixed(fixed: bool, preserveVelocities: bool, env: Env)
      requires Valid() && FZ.FixedCallable(State(), fixed)
      modifies this
      ensures Valid() && locks == old(locks)
      ensures State() == FZ.SetFixed(old(State()), fixed, preserveVelocities, env)
    {
      ghost var b := State();
      SwitchFixed(fixed);
      assert F.Frozen in flags <==> F.Frozen in b.flags by {
        assert F.Frozen in flags <==> F.Frozen in flags - {F.UpdateRequested};
        assert F.Frozen in b.flags <==> F.Frozen in FZ.FixedFlags(b, F.Fixed, fixed) - {F.UpdateRequested};
      }
      assert FZ.ShouldBeFrozen(flags) == FZ.ShouldBeFrozen(FZ.FixedFlags(b, F.Fixed, fixed)) by {
        assert F.Fixed in flags <==> F.Fixed in flags - {F.UpdateRequested};
        assert F.FixedWithImpulsePreserved in flags <==> F.FixedWithImpulsePreserved in flags - {F.UpdateRequested};
      }
      Freeze(F.FixedWithImpulsePreserved in flags || F.Fixed in flags, preserveVelocities, false, env);
    }

    /** `resetFrozenState`. */
    method ResetFrozenState()
      requires Valid()
      modifies this
      ensures Valid() && locks == old(locks)
      ensures State() == FZ.ResetFrozenState(old(State()))
    {
      if !accessor.NoAccessor? {
        events := events + [Call(FrozenStateReset)];
      }
    }

    /** `getContactLayer(info)`: the layer field of the layout that matches the role. */
    function ContactLayerOf(info: FilterInfo): (l: ContactLayer)
      reads this
      ensures l == CF.ContactLayerOf(State(), info)
    {
      if F.IsSensor in flags then info.sensorLayer else info.entityLayer
    }

    /** `setCollisionFilterInfo(info)`, under the body's lock and, while flag `_8` is set,
        the world's. */
    method SetCollisionFilterInfo(info: FilterInfo)
      requires Valid()
      modifies this, ListFilters(shape)
      ensures Valid() && locks == old(locks)
      ensures State() == CF.SetCollisionFilterInfo(old(State()), info)
      ensures old(filter) != info && shape.Some? && ListOf(shape.value).Some? ==>
        forall k :: 0 <= k < ListOf(shape.value).value.Length ==> ListOf(shape.value).value[k] == 0xffff_ffff
    {
      if shape.Some? {
        ListOfAllocated(shape.value);
      }
      SetCollisionFilterInfoKeepsConsistent(State(), info);
      var currentLayer := GetContactLayer();
      var lock := new ScopedLock(this, IsFlag8Set());
      if filter != info {
        WriteFilter(info, currentLayer);
        if IsFlag8Set() {
          SetMotionFlag(M.U8000);
        }
      }
      lock.Release();
    }

    /** The write in `setCollisionFilterInfo`: the contact system is told about the previous
        layer when it changes while flag `_8` is set, the word is written and the list
        shape's child filters are reset in place. */
    method WriteFilter(info: FilterInfo, currentLayer: ContactLayer)
      requires Valid() && currentLayer == GetContactLayer()
      modifies this, ListFilters(shape)
      ensures Valid() && locks == old(locks)
      ensures State() == CF.WriteFilter(old(State()), info)
      ensures shape.Some? && ListOf(shape.value).Some? ==>
        forall k :: 0 <= k < ListOf(shape.value).value.Length ==> ListOf(shape.value).value[k] == 0xffff_ffff
    {
      if IsFlag8Set() && currentLayer != ContactLayerOf(info) {
        events := events + [RegisteredForContactSystem(currentLayer)];
      }
      filter := info;
      if shape.Some? {
        ResetCollisionFilterInfoForListShapes(shape.value);
        events := events + [ListShapeFiltersReset];
      }
    }

    /** `addContactLayer`. */
    method AddContactLayer(layer: ContactLayer)
      requires Valid() && ContactLayerType(layer) == GetLayerType()
      modifies this
      ensures Valid() && locks == old(locks)
      ensures State() == CM.AddContactLayer(old(State()), layer)
    {
      ContactMaskKeepsConsistent(State(), CM.AddContactLayer(State(), layer).contactMask);
      contactMask := contactMask + {CM.LayerBit(layer, GetLayerType()) as nat};
    }

    /** `removeContactLayer`. */
    method RemoveContactLayer(layer: ContactLayer)
      requires Valid() && ContactLayerType(layer) == GetLayerType()
      modifies this
      ensures Valid() && locks == old(locks)
      ensures State() == CM.RemoveContactLayer(old(State()), layer)
    {
      ContactMaskKeepsConsistent(State(), CM.RemoveContactLayer(State(), layer).contactMask);
      contactMask := contactMask - {CM.LayerBit(layer, GetLayerType()) as nat};
    }

    /** `setContactMask(value)`. */
    method SetContactMask(value: bv32)
      requires Valid()
      modifies this
      ensures Valid() && locks == old(locks)
      ensures State() == CM.SetContactMask(old(State()), value)
    {
      contactMask := CM.MaskBits(value);
    }

    /** `setContactAll`. */
    method SetContactAll()
      requires Valid()
      modifies this
      ensures Valid() && locks == old(locks)
      ensures State() == CM.SetContactAll(old(State()))
    {
      contactMask := CM.MaskBits(0xffff_ffff);
    }

    /** `setContactNone`. */
    method SetContactNone()
      requires Valid()
      modifies this
      ensures Valid() && locks == old(locks)
      ensures State() == CM.SetContactNone(old(State()))
    {
      contactMask := {};
    }

    /** `updateDeactivation`: the solver's switch is only touched when it disagrees. */
    method UpdateDeactivation()
      requires Valid()
      modifies this
      ensures Valid() && locks == old(locks)
      ensures State() == BodyState.UpdateDeactivation(old(State()))
    {
      if F.U2000000 in flags || F.U4000000 in flags || F.U8000000 in flags {
        if deactivation {
          deactivation := false;
        }
      } else if !deactivation {
        deactivation := true;
      }
    }

    /** `clearFlag2000000`, `clearFlag4000000`, `clearFlag8000000`. */
    method ClearDeactivationFlag(f: F.Flag, clear: bool)
      requires Valid() && IsDeactivationFlag(f)
      modifies this
      ensures Valid() && locks == old(locks)
      ensures State() == BodyState.ClearDeactivationFlag(old(State()), f, clear)
    {
      DeactivationKeepsConsistent(State(), f, clear);
      if (f !in flags) == clear {
        return;
      }
      flags := Change(flags, f, !clear);
      if IsFlag8Set() {
        SetMotionFlag(M.U10000);
      } else {
        UpdateDeactivation();
      }
    }

    /** `onCollisionAdded`: the counter's previous value decides. */
    method OnCollisionAdded()
      requires Valid()
      modifies this
      ensures Valid() && locks == old(locks)
      ensures State() == BodyState.OnCollisionAdded(old(State()))
    {
      var previous := collisions;
      collisions := collisions + 1;
      if previous == 0 {
        ClearDeactivationFlag(F.U4000000, false);
      }
    }

    /** `onCollisionRemoved`: the counter's previous value decides. */
    method OnCollisionRemoved()
      requires Valid()
      modifies this
      ensures Valid() && locks == old(locks)
      ensures State() == BodyState.OnCollisionRemoved(old(State()))
    {
      var previous := collisions;
      collisions := collisions - 1;
      if previous == 1 {
        ClearDeactivationFlag(F.U4000000, true);
      }
    }
  }

  /** `RigidBody::ScopedLock`: takes the locks when made and gives them back when released
      (the destructor in the source). */
  class ScopedLock {
    const body: RigidBody
    const alsoLockWorld: bool
    /** The lock state before the locks were taken. */
    ghost const before: L.LockState

    constructor (body: RigidBody, alsoLockWorld: bool)
      modifies body
      ensures this.body == body && this.alsoLockWorld == alsoLockWorld && before == old(body.locks)
      ensures body.locks == L.Acquired(old(body.locks), alsoLockWorld, body.GetLayerType())
      ensures body.State() == old(body.State())
    {
      this.body := body;
      this.alsoLockWorld := alsoLockWorld;
      before := body.locks;
      new;
      body.Lock(alsoLockWorld);
    }

    /** Releasing after a balanced inner section restores the lock state. */
    method Release()
      requires body.locks == L.Acquired(before, alsoLockWorld, body.GetLayerType())
      modifies body
      ensures body.locks == before
      ensures body.State() == old(body.State())
    {
      ghost var layer := body.GetLayerType();
      L.ReplayAppend(before, L.LockOps(alsoLockWorld, layer), L.UnlockOps(alsoLockWorld, layer));
      L.ScopedLockBalanced(before, alsoLockWorld, layer, []);
      assert L.LockOps(alsoLockWorld, layer) + [] == L.LockOps(alsoLockWorld, layer);
      body.Unlock(alsoLockWorld);
    }
  }
}
