/** The collision filter word of the solver body and every operation that rewrites it. All
    writes go through `setCollisionFilterInfo`, which does nothing for an unchanged word and
    otherwise re-registers the body with the contact system when its contact layer changes
    while flag `_8` is set, resets the filters of a list shape, and marks
    `MotionFlag::_8000` while flag `_8` is set. */
module CollisionFilter {
  import opened Defines
  import opened BodyState
  import F = Flags
  import M = MotionFlags

  /** `getContactLayer(info)`: the layer field of the layout that matches the body's role. */
  function ContactLayerOf(b: Body, info: FilterInfo): (l: ContactLayer)
    ensures IsSensor(b) ==> l == info.sensorLayer
    ensures IsEntity(b) ==> l == info.entityLayer
  {
    if IsSensor(b) then info.sensorLayer else info.entityLayer
  }

  /** `getContactLayer()`. */
  function GetContactLayer(b: Body): (l: ContactLayer)
    ensures IsSensor(b) ==> l == b.filter.sensorLayer
    ensures IsEntity(b) ==> l == b.filter.entityLayer
  {
    ContactLayerOf(b, b.filter)
  }

  /** `isGroundCollisionEnabled`: never for a sensor; for an entity when `unk5` or `unk30`
      is set or ground collision is not switched off. */
  function IsGroundCollisionEnabled(b: Body): (r: bool)
    ensures IsSensor(b) ==> !r
    ensures IsEntity(b) && (b.filter.unk5 || b.filter.unk30) ==> r
    ensures IsEntity(b) && !b.filter.unk5 && !b.filter.unk30 ==> (r <==> !b.filter.noGroundCollision)
  {
    IsEntity(b) && (b.filter.unk5 || b.filter.unk30 || !b.filter.noGroundCollision)
  }

  /** `isWaterCollisionEnabled`: never for a sensor; for an entity when `unk30` is set or
      water collision is not switched off. */
  function IsWaterCollisionEnabled(b: Body): (r: bool)
    ensures IsSensor(b) ==> !r
    ensures IsEntity(b) && b.filter.unk30 ==> r
    ensures IsEntity(b) && !b.filter.unk30 ==> (r <==> !b.filter.noWaterCollision)
  {
    IsEntity(b) && (b.filter.unk30 || !b.filter.noWaterCollision)
  }

  /** Whether writing `info` makes `setCollisionFilterInfo` register the body with the
      contact system again. */
  predicate Reregisters(b: Body, info: FilterInfo)
  {
    b.filter != info && IsFlag8Set(b) && GetContactLayer(b) != ContactLayerOf(b, info)
  }

  /** `setCollisionFilterInfo(info)`. The word is taken as it is; writing the current word
      changes nothing. Otherwise the previous layer is reported to the contact system first
      (when it changes while flag `_8` is set), the word is written, a list shape's child
      filters are reset, and `MotionFlag::_8000` is marked while flag `_8` is set. */
  function SetCollisionFilterInfo(b: Body, info: FilterInfo): (r: Body)
    ensures r.filter == info
    ensures b.filter == info ==> r == b
    ensures b.filter != info ==>
      r.events == b.events
        + (if Reregisters(b, info) then [RegisteredForContactSystem(GetContactLayer(b))] else [])
        + (if b.hasShape then [ListShapeFiltersReset] else [])
    ensures b.filter != info ==>
      r.motion == b.motion + (if IsFlag8Set(b) then {M.U8000} else {})
    ensures F.UpdateRequested in r.flags <==> F.UpdateRequested in b.flags || (b.filter != info && IsFlag8Set(b) && Enqueues(b))
    ensures r.flags - {F.UpdateRequested} == b.flags - {F.UpdateRequested}
    ensures r == b.(filter := r.filter, events := r.events, motion := r.motion, flags := r.flags, queue := r.queue)
  {
    if b.filter == info then b
    else
      var b2 := WriteFilter(b, info);
      if IsFlag8Set(b2) then SetMotionFlag(b2, M.U8000) else b2
  }

  /** The write itself, for a word that differs from the current one: the contact system
      is told about the previous layer when the layer changes while flag `_8` is set, the
      word is written and a list shape's child filters are reset. */
  function WriteFilter(b: Body, info: FilterInfo): (r: Body)
    ensures r.filter == info
    ensures r == b.(filter := info, events := r.events)
  {
    var registered := if Reregisters(b, info) then [RegisteredForContactSystem(GetContactLayer(b))] else [];
    var b1 := b.(filter := info, events := b.events + registered);
    if b1.hasShape then b1.(events := b1.events + [ListShapeFiltersReset]) else b1
  }

  /** Writing the same word twice is writing it once. */
  lemma SetCollisionFilterInfoIdempotent(b: Body, info: FilterInfo)
    ensures SetCollisionFilterInfo(SetCollisionFilterInfo(b, info), info) == SetCollisionFilterInfo(b, info)
  {
  }

  /** After `setCollisionFilterInfo` the body's contact layer is the layer the new word
      holds, and the contact system was told about the previous layer exactly when the
      layer changed while flag `_8` was set. */
  lemma SetCollisionFilterInfoLayer(b: Body, info: FilterInfo)
    ensures GetContactLayer(SetCollisionFilterInfo(b, info)) == ContactLayerOf(b, info)
    ensures (RegisteredForContactSystem(GetContactLayer(b)) in SetCollisionFilterInfo(b, info).events[|b.events|..])
      <==> Reregisters(b, info)
  {
    var r := SetCollisionFilterInfo(b, info);
    if b.filter != info {
      assert r.events[|b.events|..]
        == (if Reregisters(b, info) then [RegisteredForContactSystem(GetContactLayer(b))] else [])
           + (if b.hasShape then [ListShapeFiltersReset] else []);
    }
  }

  /** `enableGroundCollision(enabled)`: nothing for a sensor, for a body that already is in
      the requested state, or for a ragdoll; otherwise `unk5` is cleared and ground
      collision is switched as requested. */
  function EnableGroundCollision(b: Body, enabled: bool): (r: Body)
    ensures !IsEntity(b) || IsGroundCollisionEnabled(b) == enabled || GetContactLayer(b) == EntityRagdoll ==> r == b
    ensures IsEntity(b) && GetContactLayer(b) != EntityRagdoll ==>
      (IsGroundCollisionEnabled(r) <==> enabled || b.filter.unk30)
    ensures IsEntity(b) && IsGroundCollisionEnabled(b) != enabled && GetContactLayer(b) != EntityRagdoll ==>
      r == SetCollisionFilterInfo(b, b.filter.(unk5 := false, noGroundCollision := !enabled))
  {
    if !IsEntity(b) || IsGroundCollisionEnabled(b) == enabled then b
    else if GetContactLayer(b) == EntityRagdoll then b
    else
      var info := b.filter.(unk5 := false, noGroundCollision := !enabled);
      if b.filter != info then SetCollisionFilterInfo(b, info) else b
  }

  /** Switching ground collision keeps the body's contact layer and its water collision. */
  lemma EnableGroundCollisionKeepsRest(b: Body, enabled: bool)
    ensures GetContactLayer(EnableGroundCollision(b, enabled)) == GetContactLayer(b)
    ensures IsWaterCollisionEnabled(EnableGroundCollision(b, enabled)) == IsWaterCollisionEnabled(b)
  {
    if IsGroundCollisionEnabled(b) != enabled {
      var info := b.filter.(unk5 := false, noGroundCollision := !enabled);
      SetCollisionFilterInfoLayer(b, info);
    }
  }

  /** `enableWaterCollision(enabled)`: nothing for a sensor, for a body that already is in
      the requested state, or for a ragdoll; otherwise water collision is switched as
      requested. */
  function EnableWaterCollision(b: Body, enabled: bool): (r: Body)
    ensures !IsEntity(b) || IsWaterCollisionEnabled(b) == enabled || GetContactLayer(b) == EntityRagdoll ==> r == b
    ensures IsEntity(b) && IsWaterCollisionEnabled(b) != enabled && GetContactLayer(b) != EntityRagdoll ==>
      r == SetCollisionFilterInfo(b, b.filter.(noWaterCollision := !enabled))
  {
    if !IsEntity(b) || IsWaterCollisionEnabled(b) == enabled then b
    else if GetContactLayer(b) == EntityRagdoll then b
    else
      var info := b.filter.(noWaterCollision := !enabled);
      if b.filter != info then SetCollisionFilterInfo(b, info) else b
  }

  /** For an entity that is not a ragdoll, water collision ends up enabled exactly when it
      was requested or `unk30` forces it on; ground collision is not touched. */
  lemma EnableWaterCollisionWorks(b: Body, enabled: bool)
    requires IsEntity(b) && GetContactLayer(b) != EntityRagdoll
    ensures IsWaterCollisionEnabled(EnableWaterCollision(b, enabled)) == (enabled || b.filter.unk30)
    ensures IsGroundCollisionEnabled(EnableWaterCollision(b, enabled)) == IsGroundCollisionEnabled(b)
  {
  }

  /** The helpers that set a layer field write the layer they are given, and the ground-hit
      helper writes the ground hit and keeps the layer. */
  ghost predicate SoundCodec(codec: FilterCodec)
  {
    && (forall l, info :: codec.makeEntityCollisionMask(l, info).entityLayer == l)
    && (forall l, info :: codec.sensorReceiverMaskSetLayer(l, info).sensorLayer == l)
    && (forall g, info :: codec.setEntityCollisionMaskGroundHit(g, info).groundHit == g)
    && (forall g, info :: codec.setEntityCollisionMaskGroundHit(g, info).entityLayer == info.entityLayer)
  }

  /** `setContactLayer(layer)`: ignored for a layer of the other type; otherwise the layer
      field of the body's layout is rewritten through the codec. */
  function SetContactLayer(b: Body, layer: ContactLayer, codec: FilterCodec): (r: Body)
    ensures LayerTypeOf(b) != ContactLayerType(layer) ==> r == b
    ensures LayerTypeOf(b) == ContactLayerType(layer) ==>
      r == SetCollisionFilterInfo(b, if IsSensor(b) then codec.sensorReceiverMaskSetLayer(layer, b.filter)
                                     else codec.makeEntityCollisionMask(layer, b.filter))
    ensures r.flags - {F.UpdateRequested} == b.flags - {F.UpdateRequested}
  {
    if LayerTypeOf(b) != ContactLayerType(layer) then b
    else
      var info := if IsSensor(b) then codec.sensorReceiverMaskSetLayer(layer, b.filter)
                  else codec.makeEntityCollisionMask(layer, b.filter);
      if b.filter != info then SetCollisionFilterInfo(b, info) else b
  }

  /** With a codec that writes the layer it is given, `setContactLayer` moves the body to
      any layer of its own type. */
  lemma SetContactLayerReaches(b: Body, layer: ContactLayer, codec: FilterCodec)
    requires SoundCodec(codec) && LayerTypeOf(b) == ContactLayerType(layer)
    ensures GetContactLayer(SetContactLayer(b, layer, codec)) == layer
  {
  }

  /** `setSensorReceiverLayer2(layer)`: writes the second receiver layer; the source checks
      the role but ignores the answer. */
  function SetSensorReceiverLayer2(b: Body, layer: ContactLayer, codec: FilterCodec): (r: Body)
    ensures r == SetCollisionFilterInfo(b, codec.sensorReceiverMaskSetLayer2(true, layer, b.filter))
    ensures r.filter == codec.sensorReceiverMaskSetLayer2(true, layer, b.filter)
  {
    SetCollisionFilterInfo(b, codec.sensorReceiverMaskSetLayer2(true, layer, b.filter))
  }

  /** `clearSensorReceiverLayer2`: only for a sensor whose layer is not
      `SensorCustomReceiver`; the layer passed to the codec is irrelevant and is
      `SensorNoHit`. */
  function ClearSensorReceiverLayer2(b: Body, codec: FilterCodec): (r: Body)
    ensures !IsSensor(b) || GetContactLayer(b) == SensorCustomReceiver ==> r == b
    ensures IsSensor(b) && GetContactLayer(b) != SensorCustomReceiver ==>
      r == SetCollisionFilterInfo(b, codec.sensorReceiverMaskSetLayer2(false, SensorNoHit, b.filter))
  {
    if !IsSensor(b) then b
    else if GetContactLayer(b) == SensorCustomReceiver then b
    else SetCollisionFilterInfo(b, codec.sensorReceiverMaskSetLayer2(false, SensorNoHit, b.filter))
  }

  /** `getGroundHitType`: the default ground hit 0 for a sensor. */
  function GetGroundHitType(b: Body): (g: GroundHit)
    ensures IsSensor(b) ==> g == 0
    ensures IsEntity(b) ==> g == b.filter.groundHit
  {
    if !IsEntity(b) then 0 else b.filter.groundHit
  }

  /** `setGroundHitType(groundHit)`: only for an entity, through the codec. */
  function SetGroundHitType(b: Body, groundHit: GroundHit, codec: FilterCodec): (r: Body)
    ensures IsSensor(b) ==> r == b
    ensures IsEntity(b) ==> r == SetCollisionFilterInfo(b, codec.setEntityCollisionMaskGroundHit(groundHit, b.filter))
    ensures r.flags - {F.UpdateRequested} == b.flags - {F.UpdateRequested}
  {
    if !IsEntity(b) then b
    else
      var info := codec.setEntityCollisionMaskGroundHit(groundHit, b.filter);
      if b.filter != info then SetCollisionFilterInfo(b, info) else b
  }

  /** With a sound codec an entity reads back the ground hit it was given; a sensor keeps
      answering 0. */
  lemma GroundHitReadBack(b: Body, groundHit: GroundHit, codec: FilterCodec)
    requires SoundCodec(codec)
    ensures IsEntity(b) ==> GetGroundHitType(SetGroundHitType(b, groundHit, codec)) == groundHit
    ensures IsSensor(b) ==> GetGroundHitType(SetGroundHitType(b, groundHit, codec)) == 0
  {
  }

  /** `setSystemGroupHandler(handler)`: a handler of the body's own layer type builds the new
      word from the current word, layer and ground hit; a handler of the other type is
      ignored (with a warning); without a handler the word is rebuilt from the layer and
      ground hit alone, in the layout of the body's role. */
  function SetSystemGroupHandler(b: Body, handler: Option<GroupHandler>, codec: FilterCodec): (r: Body)
    ensures handler.Some? && handler.value.layerType != LayerTypeOf(b) ==> r == b
    ensures handler.Some? && handler.value.layerType == LayerTypeOf(b) ==>
      r == SetCollisionFilterInfo(b, handler.value.makeCollisionFilterInfo(b.filter, GetContactLayer(b), GetGroundHitType(b)))
    ensures handler.None? && IsEntity(b) ==>
      r == SetCollisionFilterInfo(b, codec.makeEntityFilter(GetContactLayer(b), GetGroundHitType(b)))
    ensures handler.None? && IsSensor(b) ==> r == SetCollisionFilterInfo(b, codec.makeReceiverMask(GetContactLayer(b)))
    ensures r.flags - {F.UpdateRequested} == b.flags - {F.UpdateRequested}
  {
    var layer := GetContactLayer(b);
    var groundHit := GetGroundHitType(b);
    match handler
    case Some(h) =>
      if h.layerType == LayerTypeOf(b) then SetCollisionFilterInfo(b, h.makeCollisionFilterInfo(b.filter, layer, groundHit))
      else b
    case None =>
      if IsEntity(b) then SetCollisionFilterInfo(b, codec.makeEntityFilter(layer, groundHit))
      else SetCollisionFilterInfo(b, codec.makeReceiverMask(layer))
  }

  /** `setContactLayerAndHandler(layer, handler)`. */
  function SetContactLayerAndHandler(b: Body, layer: ContactLayer, handler: Option<GroupHandler>, codec: FilterCodec): (r: Body)
    ensures r == SetSystemGroupHandler(SetContactLayer(b, layer, codec), handler, codec)
    ensures r.flags - {F.UpdateRequested} == b.flags - {F.UpdateRequested}
  {
    SetSystemGroupHandler(SetContactLayer(b, layer, codec), handler, codec)
  }

  /** `setContactLayerAndGroundHit(layer, groundHit)`: the ground hit only for an entity. */
  function SetContactLayerAndGroundHit(b: Body, layer: ContactLayer, groundHit: GroundHit, codec: FilterCodec): (r: Body)
    ensures r.flags - {F.UpdateRequested} == b.flags - {F.UpdateRequested}
    ensures SoundCodec(codec) && IsEntity(b) && ContactLayerType(layer) == Entity ==>
      GetGroundHitType(r) == groundHit
    ensures IsSensor(b) ==> r == SetContactLayer(b, layer, codec)
    ensures IsEntity(b) ==> r == SetGroundHitType(SetContactLayer(b, layer, codec), groundHit, codec)
  {
    var b1 := SetContactLayer(b, layer, codec);
    if IsEntity(b1) then SetGroundHitType(b1, groundHit, codec) else b1
  }

  /** `setContactLayerAndGroundHitAndHandler(layer, groundHit, handler)`. */
  function SetContactLayerAndGroundHitAndHandler(b: Body, layer: ContactLayer, groundHit: GroundHit,
                                                 handler: Option<GroupHandler>, codec: FilterCodec): (r: Body)
    ensures r == SetSystemGroupHandler(SetContactLayerAndGroundHit(b, layer, groundHit, codec), handler, codec)
    ensures r.flags - {F.UpdateRequested} == b.flags - {F.UpdateRequested}
  {
    SetSystemGroupHandler(SetContactLayerAndGroundHit(b, layer, groundHit, codec), handler, codec)
  }

  /** On an entity and with a sound codec, `setContactLayerAndGroundHit` leaves an entity
      whose filter holds both the layer and the ground hit. */
  lemma SetContactLayerAndGroundHitReaches(b: Body, layer: ContactLayer, groundHit: GroundHit, codec: FilterCodec)
    requires SoundCodec(codec) && IsEntity(b) && ContactLayerType(layer) == Entity
    ensures var r := SetContactLayerAndGroundHit(b, layer, groundHit, codec);
      IsEntity(r) && r.filter.entityLayer == layer && r.filter.groundHit == groundHit
  {
    var b1 := SetContactLayer(b, layer, codec);
    SetContactLayerReaches(b, layer, codec);
    assert F.IsSensor !in b1.flags by {
      assert F.IsSensor !in b1.flags - {F.UpdateRequested};
    }
    var b2 := SetGroundHitType(b1, groundHit, codec);
    assert F.IsSensor !in b2.flags by {
      assert F.IsSensor !in b2.flags - {F.UpdateRequested};
    }
  }

  /** Without a handler, a sound codec whose entity word keeps the layer and ground hit
      it is built from leaves an entity on the layer and ground hit it was given. */
  lemma SetContactLayerAndGroundHitAndHandlerReaches(b: Body, layer: ContactLayer, groundHit: GroundHit, codec: FilterCodec)
    requires SoundCodec(codec) && IsEntity(b) && ContactLayerType(layer) == Entity
    requires forall l, g :: codec.makeEntityFilter(l, g).entityLayer == l && codec.makeEntityFilter(l, g).groundHit == g
    ensures GetContactLayer(SetContactLayerAndGroundHitAndHandler(b, layer, groundHit, None, codec)) == layer
    ensures GetGroundHitType(SetContactLayerAndGroundHitAndHandler(b, layer, groundHit, None, codec)) == groundHit
  {
    var b2 := SetContactLayerAndGroundHit(b, layer, groundHit, codec);
    SetContactLayerAndGroundHitReaches(b, layer, groundHit, codec);
    var r := SetSystemGroupHandler(b2, None, codec);
    assert r == SetContactLayerAndGroundHitAndHandler(b, layer, groundHit, None, codec);
    assert F.IsSensor !in r.flags by {
      assert F.IsSensor !in r.flags - {F.UpdateRequested};
    }
  }

  /** `setSensorCustomReceiver(mask[, handler])`: only for a sensor; the given mask is moved
      to layer `SensorCustomReceiver` and, with a handler, tagged with its index. */
  function SetSensorCustomReceiver(b: Body, mask: FilterInfo, handler: Option<GroupHandler>, codec: FilterCodec): (r: Body)
    ensures !IsSensor(b) ==> r == b
    ensures IsSensor(b) ==>
      var info := codec.sensorReceiverMaskSetLayer(SensorCustomReceiver, mask);
      r == SetCollisionFilterInfo(b, if handler.Some? then info.(groupHandlerIndex := handler.value.index) else info)
  {
    if !IsSensor(b) then b
    else
      var info := codec.sensorReceiverMaskSetLayer(SensorCustomReceiver, mask);
      var info2 := if handler.Some? then info.(groupHandlerIndex := handler.value.index) else info;
      SetCollisionFilterInfo(b, info2)
  }

  /** With a sound codec a sensor ends up on layer `SensorCustomReceiver`, so that
      `clearSensorReceiverLayer2` leaves it alone from then on. */
  lemma CustomReceiverSticks(b: Body, mask: FilterInfo, handler: Option<GroupHandler>, codec: FilterCodec)
    requires SoundCodec(codec) && IsSensor(b)
    ensures GetContactLayer(SetSensorCustomReceiver(b, mask, handler, codec)) == SensorCustomReceiver
    ensures var r := SetSensorCustomReceiver(b, mask, handler, codec);
      ClearSensorReceiverLayer2(r, codec) == r
  {
    var r := SetSensorCustomReceiver(b, mask, handler, codec);
    assert IsSensor(r);
  }

  /** `setGroundHitMask(layer, mask)`: for an entity layer the word becomes the ground-hit
      mask the codec builds; the body's own role is not checked. */
  function SetGroundHitMask(b: Body, layer: ContactLayer, mask: nat, codec: FilterCodec): (r: Body)
    ensures ContactLayerType(layer) != Entity ==> r == b
    ensures ContactLayerType(layer) == Entity ==> r == SetCollisionFilterInfo(b, codec.makeEntityGroundHitMask(layer, mask))
  {
    if ContactLayerType(layer) == Entity then SetCollisionFilterInfo(b, codec.makeEntityGroundHitMask(layer, mask))
    else b
  }

  /** `addGroundTypeToGroundHitMask(groundHit)`: only for an entity whose word is a
      ground-hit mask; the ground hit is added to the mask. */
  function AddGroundTypeToGroundHitMask(b: Body, groundHit: GroundHit, codec: FilterCodec): (r: Body)
    ensures !IsEntity(b) || !b.filter.isGroundHitMask ==> r == b
    ensures IsEntity(b) && b.filter.isGroundHitMask ==>
      r == SetCollisionFilterInfo(b, b.filter.(groundHit := codec.addGroundHit(b.filter.groundHit, groundHit)))
      && GetContactLayer(r) == GetContactLayer(b)
  {
    if !IsEntity(b) || !b.filter.isGroundHitMask then b
    else SetCollisionFilterInfo(b, b.filter.(groundHit := codec.addGroundHit(b.filter.groundHit, groundHit)))
  }
}
