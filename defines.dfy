/** Shared vocabulary of the physics layer that a rigid body reads but does not own: layer
    types and contact layers, motion types, collidable quality types, the collision filter
    word and the opaque helpers that build it, and the vectors the guards inspect. */
module Defines {

  datatype Option<T> = None | Some(value: T)

  /** `ContactLayerType`: which of the two collision worlds a body or a layer belongs to. */
  datatype LayerType = Entity | Sensor

  /** `FirstSensor`: the first sensor contact layer. Layers below it are entity layers and
      there are at most 32 layers of each type, so a layer's bit in the 32-bit contact mask
      is `layer - FirstSensor * type`. (physDefines.h is not part of this model; the layer
      numbering is taken from it.) */
  const FirstSensor: nat := 0x20

  type ContactLayer = l: nat | l < 2 * FirstSensor

  /** `getContactLayerType`. */
  function ContactLayerType(layer: ContactLayer): (t: LayerType)
    ensures t == Entity <==> layer < FirstSensor
  {
    if layer < FirstSensor then Entity else Sensor
  }

  type EntityLayer = l: ContactLayer | ContactLayerType(l) == Entity witness 0
  type SensorLayer = l: ContactLayer | ContactLayerType(l) == Sensor witness FirstSensor

  /** Named layers whose numeric values live in physDefines.h, which is not part of this
      model: only their layer type is fixed here, so every property proved below holds
      whatever their values are. */
  const EntityRagdoll: EntityLayer
  const SensorNoHit: SensorLayer
  const SensorCustomReceiver: SensorLayer

  /** `MotionType`. */
  datatype MotionType = Dynamic | Fixed | Keyframed | Unknown | Invalid

  /** `RigidBody::Type`; `T<n>` is the value the source leaves unnamed as `_<n>`. */
  datatype BodyType = T0 | T1 | T2 | TerrainHeightField | T4 | CharacterController | TeraMesh

  /** The collidable quality types the body selects (`hkpCollidableQualityType`);
      `QualityOther` is any quality the solver body was created with. */
  datatype Quality =
    | QualityFixed | QualityMoving | QualityKeyframedReporting | QualityBullet
    | QualityDebrisSimpleToi | QualityCharacter | QualityOther

  /** `GroundHit`, or a ground-hit mask; its default value is 0. */
  type GroundHit = nat

  /** The fields of the 32-bit collision filter word that the body reads or writes. The word
      has two layouts, `EntityCollisionFilterInfo` for entities and `ReceiverMask` for
      sensors, whose definitions are not part of this model; `entityLayer` and
      `sensorLayer` are the layer fields as each layout decodes them, and `other` stands for
      every bit the body never inspects. Two words are equal exactly when their fields are. */
  datatype FilterInfo = FilterInfo(
    entityLayer: ContactLayer,
    sensorLayer: ContactLayer,
    noGroundCollision: bool,
    noWaterCollision: bool,
    unk5: bool,
    unk30: bool,
    isGroundHitMask: bool,
    groundHit: GroundHit,
    groupHandlerIndex: nat,
    other: nat)

  /** The helpers that build filter words, whose bodies are not part of this model: the model
      is proved for every choice of them. */
  datatype FilterCodec = FilterCodec(
    /** `makeEntityCollisionMask(layer, info)` */
    makeEntityCollisionMask: (ContactLayer, FilterInfo) -> FilterInfo,
    /** `sensorReceiverMaskSetLayer(layer, info)` */
    sensorReceiverMaskSetLayer: (ContactLayer, FilterInfo) -> FilterInfo,
    /** `sensorReceiverMaskSetLayer2(set, layer, info)` */
    sensorReceiverMaskSetLayer2: (bool, ContactLayer, FilterInfo) -> FilterInfo,
    /** `setEntityCollisionMaskGroundHit(groundHit, info)` */
    setEntityCollisionMaskGroundHit: (GroundHit, FilterInfo) -> FilterInfo,
    /** `makeEntityGroundHitMask(layer, mask)` */
    makeEntityGroundHitMask: (ContactLayer, nat) -> FilterInfo,
    /** `EntityCollisionFilterInfo::make(layer, groundHit)` */
    makeEntityFilter: (ContactLayer, GroundHit) -> FilterInfo,
    /** `ReceiverMask::make(layer)` */
    makeReceiverMask: ContactLayer -> FilterInfo,
    /** `GroundHitMask::addGroundHit`: the mask with one more ground-hit type */
    addGroundHit: (GroundHit, GroundHit) -> GroundHit)

  /** A `SystemGroupHandler`: the layer type it serves, its index, and the filter word it
      builds from the current word, layer and ground hit. */
  datatype GroupHandler = GroupHandler(
    layerType: LayerType,
    index: nat,
    makeCollisionFilterInfo: (FilterInfo, ContactLayer, GroundHit) -> FilterInfo)

  /** A single-precision value as far as the guards care: only NaN is checked for. */
  datatype Float = NaN | Infinite(negative: bool) | Finite(value: real)

  /** `sead::Vector3f`. */
  datatype Vec3 = Vec3(x: Float, y: Float, z: Float)
  {
    /** `e[i]` */
    function At(i: nat): Float
      requires i < 3
    {
      if i == 0 then x else if i == 1 then y else z
    }
  }

  const Zero: Vec3 := Vec3(Finite(0.0), Finite(0.0), Finite(0.0))

  /** `sead::Matrix34f`: its twelve entries in storage order. */
  type Matrix34 = m: seq<Float> | |m| == 12 witness seq(12, _ => NaN)

  predicate HasNaN(v: Vec3)
  {
    v.x == NaN || v.y == NaN || v.z == NaN
  }

  predicate MatrixHasNaN(m: Matrix34)
  {
    exists i :: 0 <= i < 12 && m[i] == NaN
  }
}
