/** The 20 motion flags of a rigid body (`RigidBody::MotionFlag`): pending motion-type
    changes and the "dirty" marks for state the motion accessor must push to the solver.
    A constructor `U<hex>` is the flag the source leaves unnamed as `_<hex>`. */
module MotionFlags {
  import BitSets

  datatype MotionFlag =
    | U1 | U2 | Dynamic | Keyframed | Fixed
    | DirtyTransform | DirtyLinearVelocity | DirtyAngularVelocity | DirtyMaxVelOrTimeFactor | DirtyMiscState
    | DirtyMass | DirtyCenterOfMassLocal | DirtyInertiaLocal | DirtyDampingOrGravityFactor | DirtyShape
    | U8000 | U10000 | U20000 | U40000 | U80000

  /** The flag at bit position `i`. */
  function FromIndex(i: nat): MotionFlag
    requires i < 20
  {
    if i == 0 then U1
    else if i == 1 then U2
    else if i == 2 then Dynamic
    else if i == 3 then Keyframed
    else if i == 4 then Fixed
    else if i == 5 then DirtyTransform
    else if i == 6 then DirtyLinearVelocity
    else if i == 7 then DirtyAngularVelocity
    else if i == 8 then DirtyMaxVelOrTimeFactor
    else if i == 9 then DirtyMiscState
    else if i == 10 then DirtyMass
    else if i == 11 then DirtyCenterOfMassLocal
    else if i == 12 then DirtyInertiaLocal
    else if i == 13 then DirtyDampingOrGravityFactor
    else if i == 14 then DirtyShape
    else if i == 15 then U8000
    else if i == 16 then U10000
    else if i == 17 then U20000
    else if i == 18 then U40000
    else U80000
  }

  /** The motion flags in bit order: `AllMotionFlags()[i]` is bit `1 << i`. */
  function AllMotionFlags(): (all: seq<MotionFlag>)
    ensures |all| == 20 && forall i :: 0 <= i < 20 ==> all[i] == FromIndex(i)
  {
    seq(20, i requires 0 <= i < 20 => FromIndex(i))
  }

  /** The bit position the source gives each motion flag. */
  function Index(f: MotionFlag): nat
  {
    match f
    case U1 => 0
    case U2 => 1
    case Dynamic => 2
    case Keyframed => 3
    case Fixed => 4
    case DirtyTransform => 5
    case DirtyLinearVelocity => 6
    case DirtyAngularVelocity => 7
    case DirtyMaxVelOrTimeFactor => 8
    case DirtyMiscState => 9
    case DirtyMass => 10
    case DirtyCenterOfMassLocal => 11
    case DirtyInertiaLocal => 12
    case DirtyDampingOrGravityFactor => 13
    case DirtyShape => 14
    case U8000 => 15
    case U10000 => 16
    case U20000 => 17
    case U40000 => 18
    case U80000 => 19
  }

  /** The flag's mask in the 32-bit word. */
  function Bit(f: MotionFlag): bv32
  {
    BitSets.BitAt(Index(f) % 32)
  }

  /** `Index` and `FromIndex` are inverse: each motion flag owns exactly one bit position. */
  lemma IndexRoundTrip(f: MotionFlag, i: nat)
    requires i < 20
    ensures Index(f) < 20 && FromIndex(Index(f)) == f
    ensures Index(FromIndex(i)) == i
  {
  }

  /** `AllMotionFlags` lists every motion flag exactly once, at its own bit position. */
  lemma AllMotionFlagsIndexed()
    ensures |AllMotionFlags()| == 20 && BitSets.Distinct(AllMotionFlags())
  {
    forall i, j | 0 <= i < j < |AllMotionFlags()| ensures AllMotionFlags()[i] != AllMotionFlags()[j] {
      IndexRoundTrip(U1, i);
      IndexRoundTrip(U1, j);
    }
  }

  /** `MotionFlag` has 20 members, each a single bit of its own below bit 20: two different
      motion flags never share a bit. */
  lemma MotionFlagBitsDistinct(f: MotionFlag, g: MotionFlag)
    ensures Bit(f) != 0
    ensures forall k :: 20 <= k < 32 ==> Bit(f) & BitSets.BitAt(k) == 0
    ensures f != g ==> Bit(f) & Bit(g) == 0
  {
    IndexRoundTrip(f, 0);
    IndexRoundTrip(g, 0);
    BitSets.BitsDisjoint(Index(f), Index(g));
    forall k | 20 <= k < 32 ensures Bit(f) & BitSets.BitAt(k) == 0 {
      BitSets.BitsDisjoint(Index(f), k);
    }
  }

  /** The 32-bit word of a motion flag set. */
  function Word(s: set<MotionFlag>): bv32
  {
    BitSets.Word(s, AllMotionFlags())
  }

  /** The motion flag set a 32-bit word holds. */
  function FromWord(w: bv32): set<MotionFlag>
  {
    BitSets.Decode(w, AllMotionFlags())
  }

  /** Testing a flag's bit in the word of a motion flag set is membership in the set. */
  lemma WordBit(s: set<MotionFlag>, f: MotionFlag)
    ensures (Word(s) & Bit(f) != 0) == (f in s)
  {
    IndexRoundTrip(f, 0);
    BitSets.WordOfBit(s, AllMotionFlags(), 20, Index(f));
    BitSets.BitsDisjoint(Index(f), Index(f));
  }

  /** The word encoding is faithful and fits in the low 20 bits of the 32-bit word. */
  lemma WordRoundTrip(s: set<MotionFlag>)
    ensures FromWord(Word(s)) == s
    ensures forall k :: 20 <= k < 32 ==> !BitSets.IsOn(Word(s), k)
  {
    AllMotionFlagsIndexed();
    forall x | x in s ensures x in AllMotionFlags() {
      IndexRoundTrip(x, 0);
      assert AllMotionFlags()[Index(x)] == x;
    }
    BitSets.RoundTrip(s, AllMotionFlags());
    forall k | 20 <= k < 32 ensures !BitSets.IsOn(Word(s), k) {
      BitSets.WordOfBit(s, AllMotionFlags(), 20, k);
    }
  }
}
