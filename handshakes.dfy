/** The flag handshakes between a rigid body and the system that steps it (`x_0`,
    `sub_7100F8D21C`, `x_6`, `x_10`). Motion flags `_1` and `_2` pass a token back and
    forth; flags `_20` and `_4` mark a body that has been handed over. */
module Handshakes {
  import opened Defines
  import opened BodyState
  import F = Flags
  import M = MotionFlags

  /** What `x_0` demands: on a sensor with an accessor, the accessor is a sensor accessor
      (the source casts and dereferences it without a check). */
  predicate X0Callable(b: Body)
  {
    IsSensor(b) && HasAccessor(b) ==> b.accessor.SensorMotion?
  }

  /** Whether `x_0` stops after requesting the time factor: a sensor whose accessor has
      flag `_400000` set. */
  predicate X0StopsEarly(b: Body)
  {
    IsSensor(b) && b.accessor.SensorMotion? && b.accessor.flag400000
  }

  /** `x_0`: with an accessor, requests the system time factor (or 1 without
      `UseSystemTimeFactor`); a sensor whose accessor has flag `_400000` stops there.
      Otherwise the token moves to `_1`: `_2` is traded for `_1` directly, and without
      either `_1` is set through `setMotionFlag`. */
  function X0(b: Body): (r: Body)
    requires X0Callable(b)
    ensures r.events == b.events + (if HasAccessor(b) then [TimeFactorRequested(F.UseSystemTimeFactor in b.flags)] else [])
    ensures X0StopsEarly(b) ==> r == b.(events := r.events)
    ensures !X0StopsEarly(b) ==> M.U1 in r.motion && M.U2 !in r.motion
    ensures !X0StopsEarly(b) && M.U2 in b.motion ==>
      r.motion == b.motion - {M.U2} + {M.U1} && r.flags == b.flags && r.queue == b.queue
    ensures !X0StopsEarly(b) && M.U2 !in b.motion && M.U1 !in b.motion ==>
      r == SetMotionFlag(b.(events := r.events), M.U1)
    ensures !X0StopsEarly(b) && M.U2 !in b.motion && M.U1 in b.motion ==> r == b.(events := r.events)
  {
    var b1 := if HasAccessor(b) then b.(events := b.events + [TimeFactorRequested(F.UseSystemTimeFactor in b.flags)]) else b;
    if X0StopsEarly(b) then b1 else TakeToken(b1)
  }

  /** The token step of `x_0`: `_2` is traded for `_1`, and without either `_1` is set
      through `setMotionFlag`. */
  function TakeToken(b: Body): (r: Body)
    ensures M.U1 in r.motion && M.U2 !in r.motion - b.motion
    ensures r.flags - {F.UpdateRequested} == b.flags - {F.UpdateRequested}
    ensures r == b.(motion := r.motion, flags := r.flags, queue := r.queue)
  {
    if M.U2 in b.motion then b.(motion := b.motion - {M.U2} + {M.U1})
    else if M.U1 !in b.motion then SetMotionFlag(b, M.U1)
    else b
  }

  /** `sub_7100F8D21C`: hands the token from `_1` to `_2`; without `_1`, and only while flag
      `_8` is set, `_2` is set through `setMotionFlag`. */
  function Sub7100F8D21C(b: Body): (r: Body)
    ensures M.U1 in b.motion ==> r == b.(motion := b.motion - {M.U1} + {M.U2})
    ensures M.U1 !in b.motion && IsFlag8Set(b) ==> r == SetMotionFlag(b, M.U2)
    ensures M.U1 !in b.motion && !IsFlag8Set(b) ==> r == b
    ensures M.U1 in b.motion || IsFlag8Set(b) ==> M.U2 in r.motion && M.U1 !in r.motion - b.motion
  {
    if M.U1 in b.motion then b.(motion := b.motion - {M.U1} + {M.U2})
    else if IsFlag8Set(b) then SetMotionFlag(b, M.U2)
    else b
  }

  /** `x_0` followed by `sub_7100F8D21C` leaves the token on `_2` and `_1` clear. */
  lemma TokenRoundTrip(b: Body)
    requires X0Callable(b) && !X0StopsEarly(b)
    ensures M.U2 in Sub7100F8D21C(X0(b)).motion && M.U1 !in Sub7100F8D21C(X0(b)).motion
  {
  }

  /** The sensor with a linked body, or the entity whose accessor has flag `_2`: what `x_6`
      and `x_10` detach. */
  predicate HasAttachment(b: Body)
  {
    if IsSensor(b) then b.accessor.SensorMotion? && b.accessor.linked.Some?
    else b.accessor.EntityMotion? && E2 in b.accessor.entityFlags
  }

  /** What `x_6` and `x_10` demand: an entity's accessor, if any, is an entity accessor. */
  predicate DetachCallable(b: Body)
  {
    IsEntity(b) && HasAccessor(b) ==> b.accessor.EntityMotion?
  }

  /** The common tail of `x_6` and `x_10`: a sensor's link is reset, an entity's accessor
      deregisters all accessors; flag `_20` is cleared on the way but both `_20` and `_4`
      end up set. */
  function Detach(b: Body): (r: Body)
    requires DetachCallable(b)
    ensures F.U20 in r.flags && F.U4 in r.flags
    ensures r.flags - {F.U20, F.U4} == b.flags - {F.U20, F.U4}
    ensures IsSensor(b) ==> !HasAttachment(r)
    ensures IsSensor(b) && HasAttachment(b) ==> r.accessor == b.accessor.(linked := None) && r.events == b.events
    ensures IsEntity(b) && HasAttachment(b) ==> r.accessor == b.accessor && r.events == b.events + [Call(DeregisterAllAccessors)]
    ensures !HasAttachment(b) ==> r.accessor == b.accessor && r.events == b.events
    ensures r == b.(flags := r.flags, accessor := r.accessor, events := r.events)
  {
    var b1 :=
      if !HasAttachment(b) then b
      else if IsSensor(b) then b.(flags := b.flags - {F.U20}, accessor := b.accessor.(linked := None))
      else b.(flags := b.flags - {F.U20}, events := b.events + [Call(DeregisterAllAccessors)]);
    b1.(flags := b1.flags + {F.U20, F.U4})
  }

  /** `x_6`: hands the body over, answering whether nothing was pending. While flag `_8` is
      set, `_20` is cleared, the token moves from `_1` to `_2` and `_2` is set through
      `setMotionFlag` (which can enqueue, since `_20` is clear); otherwise a body with
      `UpdateRequested` is pushed onto the request queue again. Then the attachment is
      detached. The answer is true exactly when none of this found work. */
  function X6(b: Body): (r: (Body, bool))
    requires DetachCallable(b)
    ensures r.1 <==> !IsFlag8Set(b) && F.UpdateRequested !in b.flags && !HasAttachment(b)
    ensures F.U20 in r.0.flags && F.U4 in r.0.flags
    ensures IsSensor(b) ==> !HasAttachment(r.0)
    ensures r.0.flags - {F.U20, F.U4, F.UpdateRequested} == b.flags - {F.U20, F.U4, F.UpdateRequested}
    ensures r.0.motion == X6Request(b).motion && r.0.queue == X6Request(b).queue
    ensures IsEntity(b) && HasAttachment(b) ==> r.0.events == b.events + [Call(DeregisterAllAccessors)]
    ensures IsSensor(b) || !HasAttachment(b) ==> r.0.events == b.events
    ensures r.0 == b.(flags := r.0.flags, motion := r.0.motion, queue := r.0.queue,
                      accessor := r.0.accessor, events := r.0.events)
  {
    var b1 := X6Request(b);
    (Detach(b1), !IsFlag8Set(b) && F.UpdateRequested !in b.flags && !HasAttachment(b))
  }

  /** The first half of `x_6`: while flag `_8` is set, `_20` is cleared, the token moves
      from `_1` to `_2` and `_2` is set through `setMotionFlag`; otherwise a body with
      `UpdateRequested` is pushed onto the request queue again. */
  function X6Request(b: Body): (r: Body)
    ensures IsFlag8Set(b) ==> M.U2 in r.motion && M.U1 !in r.motion - b.motion
    ensures IsFlag8Set(b) ==>
      r.queue == b.queue + (if F.UpdateRequested !in b.flags then [LayerTypeOf(b)] else [])
    ensures !IsFlag8Set(b) ==>
      r.queue == b.queue + (if F.UpdateRequested in b.flags then [LayerTypeOf(b)] else [])
      && r.motion == b.motion
    ensures F.UpdateRequested in r.flags <==> IsFlag8Set(b) || F.UpdateRequested in b.flags
    ensures r.flags - {F.U20, F.UpdateRequested} == b.flags - {F.U20, F.UpdateRequested}
    ensures r == b.(flags := r.flags, motion := r.motion, queue := r.queue)
  {
    if IsFlag8Set(b) then HandToken(b.(flags := b.flags - {F.U20}))
    else if F.UpdateRequested in b.flags then b.(queue := b.queue + [LayerTypeOf(b)])
    else b
  }

  /** The token step of `x_6`: the token moves from `_1` to `_2`, and `_2` is then set
      through `setMotionFlag` in any case. */
  function HandToken(b: Body): (r: Body)
    ensures M.U2 in r.motion && M.U1 !in r.motion - b.motion
    ensures r.flags - {F.UpdateRequested} == b.flags - {F.UpdateRequested}
    ensures r == b.(motion := r.motion, flags := r.flags, queue := r.queue)
  {
    var b1 := if M.U1 in b.motion then b.(motion := b.motion - {M.U1} + {M.U2}) else b;
    SetMotionFlag(b1, M.U2)
  }

  /** `x_6` hands the token to `_2` while flag `_8` is set, and re-queues a body that has an
      update pending otherwise; `UpdateRequested` ends up set in both cases. */
  lemma X6HandsOver(b: Body)
    requires DetachCallable(b)
    ensures var r := X6(b).0;
      && (IsFlag8Set(b) ==> M.U2 in r.motion && M.U1 !in r.motion - b.motion)
      && (IsFlag8Set(b) ==>
            r.queue == b.queue + (if F.UpdateRequested !in b.flags then [LayerTypeOf(b)] else []))
      && (!IsFlag8Set(b) ==>
            r.queue == b.queue + (if F.UpdateRequested in b.flags then [LayerTypeOf(b)] else [])
            && r.motion == b.motion)
      && (F.UpdateRequested in r.flags <==> IsFlag8Set(b) || F.UpdateRequested in b.flags)
  {
    var b1 := X6Request(b);
    var r := Detach(b1);
    assert X6(b).0 == r;
    assert F.UpdateRequested in r.flags <==> F.UpdateRequested in b1.flags by {
      assert F.UpdateRequested in r.flags - {F.U20, F.U4} <==> F.UpdateRequested in b1.flags - {F.U20, F.U4};
    }
  }

  /** `x_10`: detaches the attachment and passes on to `x_8`. */
  function X10(b: Body): (r: Body)
    requires DetachCallable(b)
    ensures F.U20 in r.flags && F.U4 in r.flags
    ensures IsSensor(b) ==> !HasAttachment(r)
    ensures r.motion == b.motion && r.queue == b.queue
    ensures |r.events| >= 1 && r.events[|r.events| - 1] == X8Called
    ensures r.flags - {F.U20, F.U4} == b.flags - {F.U20, F.U4}
    ensures IsEntity(b) && HasAttachment(b) ==> r.events == b.events + [Call(DeregisterAllAccessors), X8Called]
    ensures IsSensor(b) || !HasAttachment(b) ==> r.events == b.events + [X8Called]
    ensures r == b.(flags := r.flags, accessor := r.accessor, events := r.events)
  {
    var b1 := Detach(b);
    b1.(events := b1.events + [X8Called])
  }

  /** Once a body has been handed over, `setMotionFlag` no longer enqueues it. */
  lemma HandedOverStaysQuiet(b: Body, f: M.MotionFlag)
    requires DetachCallable(b)
    ensures SetMotionFlag(X6(b).0, f).queue == X6(b).0.queue
    ensures SetMotionFlag(X10(b), f).queue == X10(b).queue
  {
  }
}
