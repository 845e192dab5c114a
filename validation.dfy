/** The parameter checks in front of the position, transform, velocity and impulse setters
    (`isVectorInvalid`, `isMatrixInvalid`): a value is rejected when any component is NaN. */
module Validation {
  import opened Defines

  /** `isVectorInvalid`: scans the three components and stops at the first NaN. */
  method IsVectorInvalid(v: Vec3) returns (invalid: bool)
    ensures invalid <==> HasNaN(v)
  {
    var i := 0;
    while i < 3
      invariant 0 <= i <= 3
      invariant forall k :: 0 <= k < i ==> v.At(k) != NaN
    {
      if v.At(i) == NaN {
        return true;
      }
      i := i + 1;
    }
    assert v.At(0) == v.x && v.At(1) == v.y && v.At(2) == v.z;
    return false;
  }

  /** `isMatrixInvalid`: scans the twelve entries in storage order and stops at the first
      NaN. */
  method IsMatrixInvalid(m: Matrix34) returns (invalid: bool)
    ensures invalid <==> MatrixHasNaN(m)
  {
    for i := 0 to 12
      invariant forall k :: 0 <= k < i ==> m[k] != NaN
    {
      if m[i] == NaN {
        return true;
      }
    }
    return false;
  }
}
