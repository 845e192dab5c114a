/** Freezing and the two "fixed" switches (`freeze`, `setFixedAndPreserveImpulse`,
    `setFixed`, `resetFrozenState`). A body is frozen through its motion accessor; flag
    `Frozen` records that it is, and the two fixed flags decide whether it should be. */
module Freezing {
  import opened Defines
  import opened BodyState
  import G = Guards
  import F = Flags
  import M = MotionFlags

  /** Whether `freeze(s, …)` finds the body already in the requested state. */
  predicate AlreadyFrozenAs(b: Body, s: bool)
  {
    (F.Frozen in b.flags) == s
  }

  /** What `freeze` demands of the body: a repeated freeze sets both velocities to zero
      through the motion accessor, which it does not check for. */
  predicate FreezeCallable(b: Body, s: bool)
  {
    AlreadyFrozenAs(b, s) && s ==> HasAccessor(b)
  }

  /** The flags and motion flags of `b` are those of `a`, whatever events were recorded. */
  predicate SameExceptEvents(a: Body, b: Body)
  {
    b == a.(events := b.events)
  }

  /** `freeze(s, preserveVelocities, preserveMaxImpulse)`. When the body is already in the
      requested state, a repeated freeze only zeroes both velocities. Otherwise flag
      `Frozen` becomes `s`, and with an accessor the accessor is frozen or thawed (freezing
      it before the flag is set, thawing it after the flag is cleared). */
  function Freeze(b: Body, s: bool, preserveVelocities: bool, preserveMaxImpulse: bool, env: Env): (r: Body)
    requires FreezeCallable(b, s)
    ensures r.flags == Change(b.flags, F.Frozen, s)
    ensures r == b.(flags := r.flags, events := r.events)
  {
    if AlreadyFrozenAs(b, s) then
      if s then
        var b1 := G.SetLinearVelocity(b, Zero, env).0;
        G.SetAngularVelocity(b1, Zero, env).0
      else b
    else if !HasAccessor(b) then b.(flags := Change(b.flags, F.Frozen, s))
    else if s then
      b.(events := b.events + [Call(FreezeMotion(true, preserveVelocities, preserveMaxImpulse))],
         flags := b.flags + {F.Frozen})
    else
      b.(flags := b.flags - {F.Frozen},
         events := b.events + [Call(FreezeMotion(false, preserveVelocities, preserveMaxImpulse))])
  }

  /** What `freeze` tells the accessor: a change of state is passed on when there is an
      accessor; a repeated thaw does nothing; a repeated freeze sets the linear velocity
      (or reports it invalid) and then the angular velocity to zero. */
  lemma FreezeEvents(b: Body, s: bool, preserveVelocities: bool, preserveMaxImpulse: bool, env: Env)
    requires FreezeCallable(b, s)
    ensures var r := Freeze(b, s, preserveVelocities, preserveMaxImpulse, env);
      && (!AlreadyFrozenAs(b, s) ==>
            r.events == b.events + (if HasAccessor(b) then [Call(FreezeMotion(s, preserveVelocities, preserveMaxImpulse))] else []))
      && (AlreadyFrozenAs(b, s) && !s ==> r == b)
      && (AlreadyFrozenAs(b, s) && s ==>
            |r.events| == |b.events| + 2 && r.events[..|b.events|] == b.events
            && (r.events[|b.events|] == Call(LinearVelocity(Zero)) || r.events[|b.events|].InvalidParameter?)
            && r.events[|b.events| + 1] == Call(AngularVelocity(Zero)))
  {
  }

  /** Freezing a thawed body and thawing it again restores its flags, and with an accessor
      the accessor sees exactly one freeze and one thaw. */
  lemma FreezeThenThaw(b: Body, pv: bool, pm: bool, env: Env)
    requires F.Frozen !in b.flags
    ensures var r := Freeze(Freeze(b, true, pv, pm, env), false, pv, pm, env);
      && r.flags == b.flags
      && r.events == b.events + (if HasAccessor(b)
           then [Call(FreezeMotion(true, pv, pm)), Call(FreezeMotion(false, pv, pm))] else [])
  {
    var b1 := Freeze(b, true, pv, pm, env);
    assert b1.flags == b.flags + {F.Frozen};
  }

  /** Freezing twice freezes the accessor once: the second call changes no flag. */
  lemma FreezeTwice(b: Body, pv: bool, pm: bool, env: Env)
    requires HasAccessor(b)
    ensures var b1 := Freeze(b, true, pv, pm, env);
      Freeze(b1, true, pv, pm, env).flags == b1.flags
      && F.Frozen in b1.flags
  {
  }

  /** Whether a body with these flags should be frozen. */
  predicate ShouldBeFrozen(flags: set<F.Flag>)
  {
    F.FixedWithImpulsePreserved in flags || F.Fixed in flags
  }

  /** The flags `setFixedAndPreserveImpulse(fixed, …)` computes before it freezes. */
  function FixedFlags(b: Body, f: F.Flag, fixed: bool): set<F.Flag>
  {
    Change(b.flags, f, fixed)
  }

  /** What `setFixedAndPreserveImpulse(fixed, …)` demands: the freeze at its end must be
      callable. */
  predicate FixedAndPreserveImpulseCallable(b: Body, fixed: bool)
  {
    F.Frozen in b.flags && ShouldBeFrozen(FixedFlags(b, F.FixedWithImpulsePreserved, fixed)) ==> HasAccessor(b)
  }

  /** The first half of `setFixedAndPreserveImpulse`: the flag switch and the dirty mark. */
  function SwitchFixedWithImpulse(b: Body, fixed: bool, markLinearVelAsDirty: bool): (r: Body)
    ensures r.flags - {F.UpdateRequested} == FixedFlags(b, F.FixedWithImpulsePreserved, fixed) - {F.UpdateRequested}
    ensures F.FixedWithImpulsePreserved in b.flags && !fixed && markLinearVelAsDirty ==>
      r.motion == b.motion + {M.DirtyLinearVelocity}
      && r.queue == b.queue + (if Enqueues(b) then [LayerTypeOf(b)] else [])
    ensures !(F.FixedWithImpulsePreserved in b.flags && !fixed && markLinearVelAsDirty) ==>
      r.motion == b.motion && r.queue == b.queue
    ensures r == b.(flags := r.flags, motion := r.motion, queue := r.queue)
  {
    if (F.FixedWithImpulsePreserved in b.flags) != fixed then
      var c := b.(flags := Change(b.flags, F.FixedWithImpulsePreserved, fixed));
      if !fixed && markLinearVelAsDirty then SetMotionFlag(c, M.DirtyLinearVelocity) else c
    else b
  }

  /** `setFixedAndPreserveImpulse(fixed, markLinearVelAsDirty)`: flag
      `FixedWithImpulsePreserved` becomes `fixed`; clearing it marks the linear velocity
      dirty when asked; the body is then frozen exactly while either fixed flag is set,
      preserving velocities and the maximum impulse. */
  function SetFixedAndPreserveImpulse(b: Body, fixed: bool, markLinearVelAsDirty: bool, env: Env): (r: Body)
    requires FixedAndPreserveImpulseCallable(b, fixed)
    ensures F.FixedWithImpulsePreserved in r.flags <==> fixed
    ensures F.Fixed in r.flags <==> F.Fixed in b.flags
    ensures F.Frozen in r.flags <==> ShouldBeFrozen(r.flags)
    ensures r == Freeze(SwitchFixedWithImpulse(b, fixed, markLinearVelAsDirty),
                        ShouldBeFrozen(FixedFlags(b, F.FixedWithImpulsePreserved, fixed)), true, true, env)
    ensures var s := ShouldBeFrozen(FixedFlags(b, F.FixedWithImpulsePreserved, fixed));
      (F.Frozen in b.flags) != s ==>
        r.events == b.events + (if HasAccessor(b) then [Call(FreezeMotion(s, true, true))] else [])
  {
    var b1 := SwitchFixedWithImpulse(b, fixed, markLinearVelAsDirty);
    assert F.Frozen in b1.flags <==> F.Frozen in b.flags;
    assert ShouldBeFrozen(b1.flags) == ShouldBeFrozen(FixedFlags(b, F.FixedWithImpulsePreserved, fixed));
    var r := Freeze(b1, ShouldBeFrozen(b1.flags), true, true, env);
    assert r.flags == Change(b1.flags, F.Frozen, ShouldBeFrozen(b1.flags));
    FreezeEvents(b1, ShouldBeFrozen(b1.flags), true, true, env);
    r
  }

  /** `setFixedAndPreserveImpulse` changes no flag but `FixedWithImpulsePreserved`,
      `Frozen` and `UpdateRequested`. */
  lemma SetFixedAndPreserveImpulseKeepsFlags(b: Body, fixed: bool, markLinearVelAsDirty: bool, env: Env)
    requires FixedAndPreserveImpulseCallable(b, fixed)
    ensures var r := SetFixedAndPreserveImpulse(b, fixed, markLinearVelAsDirty, env);
      forall g :: g != F.FixedWithImpulsePreserved && g != F.Frozen && g != F.UpdateRequested ==>
        (g in r.flags <==> g in b.flags)
  {
    var b1 := SwitchFixedWithImpulse(b, fixed, markLinearVelAsDirty);
    var r := Freeze(b1, ShouldBeFrozen(b1.flags), true, true, env);
    assert SetFixedAndPreserveImpulse(b, fixed, markLinearVelAsDirty, env) == r;
    forall g | g != F.FixedWithImpulsePreserved && g != F.Frozen && g != F.UpdateRequested
      ensures g in r.flags <==> g in b.flags
    {
      assert g in r.flags <==> g in r.flags - {F.Frozen};
      assert g in b1.flags <==> g in b1.flags - {F.UpdateRequested};
      assert g in FixedFlags(b, F.FixedWithImpulsePreserved, fixed) <==> g in b.flags;
    }
  }

  /** Clearing `FixedWithImpulsePreserved` with `markLinearVelAsDirty` marks the linear
      velocity dirty through `setMotionFlag`; otherwise no motion flag changes and nothing
      is queued. */
  lemma SetFixedAndPreserveImpulseMarks(b: Body, fixed: bool, markLinearVelAsDirty: bool, env: Env)
    requires FixedAndPreserveImpulseCallable(b, fixed)
    ensures var r := SetFixedAndPreserveImpulse(b, fixed, markLinearVelAsDirty, env);
      && (F.FixedWithImpulsePreserved in b.flags && !fixed && markLinearVelAsDirty ==>
            r.motion == b.motion + {M.DirtyLinearVelocity}
            && r.queue == b.queue + (if Enqueues(b) then [LayerTypeOf(b)] else []))
      && (!(F.FixedWithImpulsePreserved in b.flags && !fixed && markLinearVelAsDirty) ==>
            r.motion == b.motion && r.queue == b.queue)
  {
    var b1 := SwitchFixedWithImpulse(b, fixed, markLinearVelAsDirty);
    var r := Freeze(b1, ShouldBeFrozen(b1.flags), true, true, env);
    assert r.motion == b1.motion && r.queue == b1.queue;
    assert SetFixedAndPreserveImpulse(b, fixed, markLinearVelAsDirty, env) == r;
  }

  predicate FixedCallable(b: Body, fixed: bool)
  {
    F.Frozen in b.flags && ShouldBeFrozen(FixedFlags(b, F.Fixed, fixed)) ==> HasAccessor(b)
  }

  /** The first half of `setFixed`: the flag switch and, when un-fixing, the two marks. */
  function SwitchFixed(b: Body, fixed: bool): (r: Body)
    ensures r.flags - {F.UpdateRequested} == FixedFlags(b, F.Fixed, fixed) - {F.UpdateRequested}
    ensures F.Fixed in b.flags && !fixed ==>
      r.motion == b.motion + {M.DirtyLinearVelocity, M.U40000}
      && r.queue == b.queue + (if Enqueues(b) then [LayerTypeOf(b)] else [])
    ensures !(F.Fixed in b.flags && !fixed) ==> r.motion == b.motion && r.queue == b.queue
    ensures r == b.(flags := r.flags, motion := r.motion, queue := r.queue)
  {
    if (F.Fixed in b.flags) != fixed then
      var c := b.(flags := Change(b.flags, F.Fixed, fixed));
      if !fixed then SetMotionFlag(SetMotionFlag(c, M.DirtyLinearVelocity), M.U40000) else c
    else b
  }

  /** `setFixed(fixed, preserveVelocities)`: flag `Fixed` becomes `fixed`; clearing it marks
      the linear velocity dirty and sets motion flag `_40000`; the body is then frozen
      exactly while either fixed flag is set, without preserving the maximum impulse. */
  function SetFixed(b: Body, fixed: bool, preserveVelocities: bool, env: Env): (r: Body)
    requires FixedCallable(b, fixed)
    ensures F.Fixed in r.flags <==> fixed
    ensures F.FixedWithImpulsePreserved in r.flags <==> F.FixedWithImpulsePreserved in b.flags
    ensures F.Frozen in r.flags <==> ShouldBeFrozen(r.flags)
    ensures r == Freeze(SwitchFixed(b, fixed), ShouldBeFrozen(FixedFlags(b, F.Fixed, fixed)),
                        preserveVelocities, false, env)
    ensures var s := ShouldBeFrozen(FixedFlags(b, F.Fixed, fixed));
      (F.Frozen in b.flags) != s ==>
        r.events == b.events + (if HasAccessor(b) then [Call(FreezeMotion(s, preserveVelocities, false))] else [])
  {
    var b1 := SwitchFixed(b, fixed);
    assert F.Frozen in b1.flags <==> F.Frozen in b.flags;
    assert ShouldBeFrozen(b1.flags) == ShouldBeFrozen(FixedFlags(b, F.Fixed, fixed));
    var r := Freeze(b1, ShouldBeFrozen(b1.flags), preserveVelocities, false, env);
    assert r.flags == Change(b1.flags, F.Frozen, ShouldBeFrozen(b1.flags));
    FreezeEvents(b1, ShouldBeFrozen(b1.flags), preserveVelocities, false, env);
    r
  }

  /** `setFixed` changes no flag but `Fixed`, `Frozen` and `UpdateRequested`. */
  lemma SetFixedKeepsFlags(b: Body, fixed: bool, preserveVelocities: bool, env: Env)
    requires FixedCallable(b, fixed)
    ensures var r := SetFixed(b, fixed, preserveVelocities, env);
      forall g :: g != F.Fixed && g != F.Frozen && g != F.UpdateRequested ==> (g in r.flags <==> g in b.flags)
  {
    var b1 := SwitchFixed(b, fixed);
    var r := Freeze(b1, ShouldBeFrozen(b1.flags), preserveVelocities, false, env);
    assert SetFixed(b, fixed, preserveVelocities, env) == r;
    forall g | g != F.Fixed && g != F.Frozen && g != F.UpdateRequested
      ensures g in r.flags <==> g in b.flags
    {
      assert g in r.flags <==> g in r.flags - {F.Frozen};
      assert g in b1.flags <==> g in b1.flags - {F.UpdateRequested};
      assert g in FixedFlags(b, F.Fixed, fixed) <==> g in b.flags;
    }
  }

  /** Clearing `Fixed` marks the linear velocity dirty and sets motion flag `_40000`;
      otherwise no motion flag changes and nothing is queued. */
  lemma SetFixedMarks(b: Body, fixed: bool, preserveVelocities: bool, env: Env)
    requires FixedCallable(b, fixed)
    ensures var r := SetFixed(b, fixed, preserveVelocities, env);
      && (F.Fixed in b.flags && !fixed ==>
            r.motion == b.motion + {M.DirtyLinearVelocity, M.U40000}
            && r.queue == b.queue + (if Enqueues(b) then [LayerTypeOf(b)] else []))
      && (!(F.Fixed in b.flags && !fixed) ==> r.motion == b.motion && r.queue == b.queue)
  {
    var b1 := SwitchFixed(b, fixed);
    var r := Freeze(b1, ShouldBeFrozen(b1.flags), preserveVelocities, false, env);
    assert r.motion == b1.motion && r.queue == b1.queue;
    assert SetFixed(b, fixed, preserveVelocities, env) == r;
  }

  /** The two fixed switches are independent: the body stays frozen while the other one is
      still set, and thaws only when both are clear. */
  lemma FixedSwitchesCombine(b: Body, pv: bool, env: Env)
    requires HasAccessor(b)
    ensures var r := SetFixed(SetFixedAndPreserveImpulse(b, true, false, env), true, pv, env);
      && F.Frozen in r.flags
      && F.Frozen in SetFixed(r, false, pv, env).flags
      && F.Frozen !in SetFixedAndPreserveImpulse(SetFixed(r, false, pv, env), false, false, env).flags
  {
  }

  /** `resetFrozenState`: forwarded to the accessor, if there is one. */
  function ResetFrozenState(b: Body): (r: Body)
    ensures r.events == b.events + (if HasAccessor(b) then [Call(FrozenStateReset)] else [])
    ensures SameExceptEvents(b, r)
  {
    if HasAccessor(b) then b.(events := b.events + [Call(FrozenStateReset)]) else b
  }
}
