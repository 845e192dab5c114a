/** A set of named bits packed into a 32-bit word, in the manner of the source's
    `sead::TypedBitFlag`: element `all[i]` is bit `1 << i`. `Flags` and `MotionFlags`
    instantiate it with their enumerations. */
module BitSets {

  /** Bit `i` of a 32-bit word. */
  function BitAt(i: nat): (w: bv32)
    requires i < 32
  {
    (1 as bv32) << i
  }

  ghost predicate Distinct<T>(all: seq<T>)
  {
    forall i, j :: 0 <= i < j < |all| ==> all[i] != all[j]
  }

  /** The word whose bit `i`, for `i < n`, is set exactly when `all[i]` is in `s`. */
  function WordOf<T(==)>(s: set<T>, all: seq<T>, n: nat): bv32
    requires n <= |all| <= 32
    decreases n
  {
    if n == 0 then 0
    else WordOf(s, all, n - 1) | (if all[n - 1] in s then BitAt(n - 1) else 0)
  }

  function Word<T(==)>(s: set<T>, all: seq<T>): bv32
    requires |all| <= 32
  {
    WordOf(s, all, |all|)
  }

  /** The elements of `all` whose bit is set in `w`. */
  function Decode<T>(w: bv32, all: seq<T>): set<T>
    requires |all| <= 32
  {
    set i | 0 <= i < |all| && IsOn(w, i) :: all[i]
  }

  /** Bit `i` of `w` is set. */
  predicate IsOn(w: bv32, i: nat)
    requires i < 32
  {
    w & BitAt(i) != 0
  }

  /** Bits of distinct positions never overlap. */
  lemma BitsDisjoint(i: nat, j: nat)
    requires i < 32 && j < 32
    ensures i != j ==> BitAt(i) & BitAt(j) == 0
    ensures BitAt(i) != 0
  {
  }

  /** Reading bit `k` of the packed word gives membership of `all[k]`, and bits at
      positions `n` and above are clear. */
  lemma {:induction false} WordOfBit<T>(s: set<T>, all: seq<T>, n: nat, k: nat)
    requires n <= |all| <= 32 && k < 32
    ensures WordOf(s, all, n) & BitAt(k) == if k < n && all[k] in s then BitAt(k) else 0
    decreases n
  {
    if n > 0 {
      WordOfBit(s, all, n - 1, k);
      BitsDisjoint(n - 1, k);
    }
  }

  /** Packing a subset of `all` and unpacking it again gives the subset back, provided the
      elements of `all` are distinct: each element owns one bit of its own. */
  lemma RoundTrip<T>(s: set<T>, all: seq<T>)
    requires |all| <= 32 && Distinct(all)
    requires forall x :: x in s ==> x in all
    ensures Decode(Word(s, all), all) == s
  {
    var w := Word(s, all);
    forall i | 0 <= i < |all| ensures IsOn(w, i) == (all[i] in s) {
      WordOfBit(s, all, |all|, i);
      BitsDisjoint(i, i);
    }
    forall x | x in s ensures x in Decode(w, all) {
      var i :| 0 <= i < |all| && all[i] == x;
      assert IsOn(w, i);
    }
    assert Decode(w, all) <= s;
  }
}
