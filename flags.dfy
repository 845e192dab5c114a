/** The 32 attribute flags of a rigid body (`RigidBody::Flag`). A constructor `U<hex>`
    is the flag the source leaves unnamed as `_<hex>`; its bit is `0x<hex>`. */
module Flags {
  import BitSets

  datatype Flag =
    | IsSensor | UpdateRequested | U4 | U8 | U10 | U20 | U40 | HighQualityCollidable
    | UseSystemTimeFactor | U200 | U400 | U800 | U1000 | U2000 | U4000 | U8000
    | U10000 | FixedWithImpulsePreserved | Fixed | Frozen
    | U100000 | U200000 | U400000 | U800000
    | U1000000 | U2000000 | U4000000 | U8000000
    | U10000000 | U20000000 | U40000000 | U80000000

  /** The flag at bit position `i`. */
  function FromIndex(i: nat): Flag
    requires i < 32
  {
    if i == 0 then IsSensor
    else if i == 1 then UpdateRequested
    else if i == 2 then U4
    else if i == 3 then U8
    else if i == 4 then U10
    else if i == 5 then U20
    else if i == 6 then U40
    else if i == 7 then HighQualityCollidable
    else if i == 8 then UseSystemTimeFactor
    else if i == 9 then U200
    else if i == 10 then U400
    else if i == 11 then U800
    else if i == 12 then U1000
    else if i == 13 then U2000
    else if i == 14 then U4000
    else if i == 15 then U8000
    else if i == 16 then U10000
    else if i == 17 then FixedWithImpulsePreserved
    else if i == 18 then Fixed
    else if i == 19 then Frozen
    else if i == 20 then U100000
    else if i == 21 then U200000
    else if i == 22 then U400000
    else if i == 23 then U800000
    else if i == 24 then U1000000
    else if i == 25 then U2000000
    else if i == 26 then U4000000
    else if i == 27 then U8000000
    else if i == 28 then U10000000
    else if i == 29 then U20000000
    else if i == 30 then U40000000
    else U80000000
  }

  /** The flags in bit order: `AllFlags()[i]` is bit `1 << i`. */
  function AllFlags(): (all: seq<Flag>)
    ensures |all| == 32 && forall i :: 0 <= i < 32 ==> all[i] == FromIndex(i)
  {
    seq(32, i requires 0 <= i < 32 => FromIndex(i))
  }

  /** The bit position the source gives each flag. */
  function Index(f: Flag): nat
  {
    match f
    case IsSensor => 0               case UpdateRequested => 1
    case U4 => 2                     case U8 => 3
    case U10 => 4                    case U20 => 5
    case U40 => 6                    case HighQualityCollidable => 7
    case UseSystemTimeFactor => 8    case U200 => 9
    case U400 => 10                  case U800 => 11
    case U1000 => 12                 case U2000 => 13
    case U4000 => 14                 case U8000 => 15
    case U10000 => 16                case FixedWithImpulsePreserved => 17
    case Fixed => 18                 case Frozen => 19
    case U100000 => 20               case U200000 => 21
    case U400000 => 22               case U800000 => 23
    case U1000000 => 24              case U2000000 => 25
    case U4000000 => 26              case U8000000 => 27
    case U10000000 => 28             case U20000000 => 29
    case U40000000 => 30             case U80000000 => 31
  }

  /** The flag's mask in the 32-bit word. */
  function Bit(f: Flag): bv32
  {
    BitSets.BitAt(Index(f) % 32)
  }

  /** `Index` and `FromIndex` are inverse: each flag owns exactly one bit position. */
  lemma IndexRoundTrip(f: Flag, i: nat)
    requires i < 32
    ensures Index(f) < 32 && FromIndex(Index(f)) == f
    ensures Index(FromIndex(i)) == i
  {
  }

  /** `AllFlags` lists every flag exactly once, at its own bit position. */
  lemma AllFlagsIndexed()
    ensures |AllFlags()| == 32 && BitSets.Distinct(AllFlags())
  {
    forall i, j | 0 <= i < j < |AllFlags()| ensures AllFlags()[i] != AllFlags()[j] {
      IndexRoundTrip(IsSensor, i);
      IndexRoundTrip(IsSensor, j);
    }
  }

  /** `Flag` has 32 members, each a single bit of its own: two different flags never share a
      bit, so each can be set or cleared without touching the others. */
  lemma FlagBitsDistinct(f: Flag, g: Flag)
    ensures Bit(f) != 0
    ensures f != g ==> Bit(f) & Bit(g) == 0
  {
    IndexRoundTrip(f, 0);
    IndexRoundTrip(g, 0);
    BitSets.BitsDisjoint(Index(f), Index(g));
  }

  /** The 32-bit word of a flag set. */
  function Word(s: set<Flag>): bv32
  {
    BitSets.Word(s, AllFlags())
  }

  /** The flag set a 32-bit word holds. */
  function FromWord(w: bv32): set<Flag>
  {
    BitSets.Decode(w, AllFlags())
  }

  /** Testing a flag's bit in the word of a flag set is membership in the set. */
  lemma WordBit(s: set<Flag>, f: Flag)
    ensures (Word(s) & Bit(f) != 0) == (f in s)
  {
    IndexRoundTrip(f, 0);
    BitSets.WordOfBit(s, AllFlags(), 32, Index(f));
    BitSets.BitsDisjoint(Index(f), Index(f));
  }

  /** The flag word is a faithful encoding of the flag set: decoding it gives the set back. */
  lemma WordRoundTrip(s: set<Flag>)
    ensures FromWord(Word(s)) == s
  {
    AllFlagsIndexed();
    forall x | x in s ensures x in AllFlags() {
      IndexRoundTrip(x, 0);
      assert AllFlags()[Index(x)] == x;
    }
    BitSets.RoundTrip(s, AllFlags());
  }
}
