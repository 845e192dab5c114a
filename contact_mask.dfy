/** The contact mask (`mContactMask`): one bit per contact layer of the body's own layer
    type, saying which layers the body reports contacts with (`addContactLayer`,
    `removeContactLayer`, `setContactMask`, `setContactAll`, `setContactNone`). The mask is
    kept as the set of positions of its set bits. */
module ContactMask {
  import opened Defines
  import opened BitSets
  import opened BodyState

  /** `getLayerBit`: an entity layer is its own bit, a sensor layer counts from
      `FirstSensor`. For a layer of the given type the bit is one of the mask's 32. */
  function LayerBit(layer: ContactLayer, t: LayerType): (i: int)
    ensures ContactLayerType(layer) == t ==> 0 <= i < 32
    ensures t == Entity ==> i == layer
    ensures t == Sensor ==> i + FirstSensor == layer
  {
    layer - FirstSensor * (if t == Sensor then 1 else 0)
  }

  /** Two layers of the same type have the same bit only if they are the same layer. */
  lemma LayerBitInjective(l1: ContactLayer, l2: ContactLayer, t: LayerType)
    ensures LayerBit(l1, t) == LayerBit(l2, t) ==> l1 == l2
  {
  }

  /** Every position in the mask is one of its 32 bits. */
  predicate WellFormed(mask: set<nat>)
  {
    forall j :: j in mask ==> j < 32
  }

  /** The layer's bit is set in the mask of a body of that layer type. */
  predicate Reports(mask: set<nat>, layer: ContactLayer, t: LayerType)
  {
    ContactLayerType(layer) == t && LayerBit(layer, t) in mask
  }

  /** `addContactLayer`: sets the layer's bit and no other; the source only asserts, in
      debug builds, that the layer has the body's layer type. */
  function AddContactLayer(b: Body, layer: ContactLayer): (r: Body)
    requires ContactLayerType(layer) == LayerTypeOf(b)
    ensures Reports(r.contactMask, layer, LayerTypeOf(b))
    ensures forall j :: j != LayerBit(layer, LayerTypeOf(b)) ==> (j in r.contactMask <==> j in b.contactMask)
    ensures WellFormed(b.contactMask) ==> WellFormed(r.contactMask)
    ensures r == b.(contactMask := r.contactMask)
  {
    b.(contactMask := b.contactMask + {LayerBit(layer, LayerTypeOf(b)) as nat})
  }

  /** `removeContactLayer`: clears the layer's bit and no other. */
  function RemoveContactLayer(b: Body, layer: ContactLayer): (r: Body)
    requires ContactLayerType(layer) == LayerTypeOf(b)
    ensures !Reports(r.contactMask, layer, LayerTypeOf(b))
    ensures forall j :: j != LayerBit(layer, LayerTypeOf(b)) ==> (j in r.contactMask <==> j in b.contactMask)
    ensures WellFormed(b.contactMask) ==> WellFormed(r.contactMask)
    ensures r == b.(contactMask := r.contactMask)
  {
    b.(contactMask := b.contactMask - {LayerBit(layer, LayerTypeOf(b)) as nat})
  }

  /** Adding a layer the body did not report and removing it again gives the body back;
      removing a reported layer and adding it again does too. */
  lemma AddRemoveInverse(b: Body, layer: ContactLayer)
    requires ContactLayerType(layer) == LayerTypeOf(b)
    ensures !Reports(b.contactMask, layer, LayerTypeOf(b)) ==>
      RemoveContactLayer(AddContactLayer(b, layer), layer) == b
    ensures Reports(b.contactMask, layer, LayerTypeOf(b)) ==>
      AddContactLayer(RemoveContactLayer(b, layer), layer) == b
  {
    var r1 := RemoveContactLayer(AddContactLayer(b, layer), layer);
    var r2 := AddContactLayer(RemoveContactLayer(b, layer), layer);
    if !Reports(b.contactMask, layer, LayerTypeOf(b)) {
      assert r1.contactMask == b.contactMask;
    } else {
      assert r2.contactMask == b.contactMask;
    }
  }

  /** Adding a layer twice is adding it once. */
  lemma AddIdempotent(b: Body, layer: ContactLayer)
    requires ContactLayerType(layer) == LayerTypeOf(b)
    ensures AddContactLayer(AddContactLayer(b, layer), layer) == AddContactLayer(b, layer)
  {
    var r := AddContactLayer(b, layer);
    assert AddContactLayer(r, layer).contactMask == r.contactMask;
  }

  /** The bits of a raw 32-bit mask. */
  function MaskBits(value: bv32): (s: set<nat>)
    ensures WellFormed(s)
    ensures forall j: nat :: j < 32 ==> (j in s <==> IsOn(value, j))
  {
    set j: nat | j < 32 && IsOn(value, j)
  }

  /** `setContactMask`: the whole mask is replaced by the raw word. */
  function SetContactMask(b: Body, value: bv32): (r: Body)
    ensures WellFormed(r.contactMask)
    ensures forall layer: ContactLayer :: ContactLayerType(layer) == LayerTypeOf(b) ==>
      (Reports(r.contactMask, layer, LayerTypeOf(b)) <==> IsOn(value, LayerBit(layer, LayerTypeOf(b))))
    ensures r == b.(contactMask := r.contactMask)
  {
    b.(contactMask := MaskBits(value))
  }

  /** `setContactAll`: every layer of the body's type is reported. */
  function SetContactAll(b: Body): (r: Body)
    ensures WellFormed(r.contactMask)
    ensures forall layer: ContactLayer :: ContactLayerType(layer) == LayerTypeOf(b) ==>
      Reports(r.contactMask, layer, LayerTypeOf(b))
    ensures r == b.(contactMask := r.contactMask)
  {
    forall j: nat | j < 32 ensures IsOn(0xffff_ffff, j) {
      BitsDisjoint(j, j);
    }
    b.(contactMask := MaskBits(0xffff_ffff))
  }

  /** `setContactNone`: no layer is reported. */
  function SetContactNone(b: Body): (r: Body)
    ensures WellFormed(r.contactMask)
    ensures forall layer: ContactLayer :: !Reports(r.contactMask, layer, LayerTypeOf(b))
    ensures r == b.(contactMask := r.contactMask)
  {
    b.(contactMask := {})
  }
}
