/** The locks a rigid body takes: its own critical section and, optionally, the world lock of
    its layer type (`lock(bool)` / `unlock(bool)` and `ScopedLock`). Both are recursive, so
    the state counts how often each is held. Threads are not modelled: the trace is the
    sequence of lock operations of one caller. */
module Locks {
  import opened Defines

  datatype LockOp = AcquireWorld(layer: LayerType) | ReleaseWorld(layer: LayerType) | AcquireBody | ReleaseBody

  datatype LockState = LockState(entityWorld: nat, sensorWorld: nat, body: nat)

  const Unlocked := LockState(0, 0, 0)

  /** One lock operation; releasing a lock that is not held is an error. */
  function Step(s: LockState, op: LockOp): (r: Option<LockState>)
    ensures r.None? <==> (op == ReleaseBody && s.body == 0)
                         || (op == ReleaseWorld(Entity) && s.entityWorld == 0)
                         || (op == ReleaseWorld(Sensor) && s.sensorWorld == 0)
  {
    match op
    case AcquireWorld(Entity) => Some(s.(entityWorld := s.entityWorld + 1))
    case AcquireWorld(Sensor) => Some(s.(sensorWorld := s.sensorWorld + 1))
    case ReleaseWorld(Entity) => if s.entityWorld == 0 then None else Some(s.(entityWorld := s.entityWorld - 1))
    case ReleaseWorld(Sensor) => if s.sensorWorld == 0 then None else Some(s.(sensorWorld := s.sensorWorld - 1))
    case AcquireBody => Some(s.(body := s.body + 1))
    case ReleaseBody => if s.body == 0 then None else Some(s.(body := s.body - 1))
  }

  /** The state after a whole trace, or `None` if some release finds its lock free. */
  function Replay(s: LockState, ops: seq<LockOp>): Option<LockState>
    decreases |ops|
  {
    if ops == [] then Some(s)
    else match Step(s, ops[0])
      case None => None
      case Some(t) => Replay(t, ops[1..])
  }

  /** `lock(also_lock_world)`: the world lock of the body's layer type first, then the body's
      own critical section. */
  function LockOps(alsoLockWorld: bool, layer: LayerType): seq<LockOp>
  {
    (if alsoLockWorld then [AcquireWorld(layer)] else []) + [AcquireBody]
  }

  /** `unlock(also_unlock_world)`: the body's critical section first, then the world lock. */
  function UnlockOps(alsoUnlockWorld: bool, layer: LayerType): seq<LockOp>
  {
    [ReleaseBody] + (if alsoUnlockWorld then [ReleaseWorld(layer)] else [])
  }

  function Inverse(op: LockOp): LockOp
  {
    match op
    case AcquireWorld(l) => ReleaseWorld(l)
    case ReleaseWorld(l) => AcquireWorld(l)
    case AcquireBody => ReleaseBody
    case ReleaseBody => AcquireBody
  }

  /** The trace that undoes `ops`: each operation inverted, in reverse order. */
  function Mirror(ops: seq<LockOp>): seq<LockOp>
    decreases |ops|
  {
    if ops == [] then [] else Mirror(ops[1..]) + [Inverse(ops[0])]
  }

  /** `unlock(w)` releases exactly what `lock(w)` acquired, in the reverse order. */
  lemma UnlockMirrorsLock(w: bool, layer: LayerType)
    ensures UnlockOps(w, layer) == Mirror(LockOps(w, layer))
  {
    if w {
      assert LockOps(w, layer)[1..] == [AcquireBody];
      assert Mirror([AcquireBody]) == [ReleaseBody];
    }
  }

  /** Running two traces one after the other. */
  lemma {:induction false} ReplayAppend(s: LockState, a: seq<LockOp>, b: seq<LockOp>)
    ensures Replay(s, a + b) == match Replay(s, a) case None => None case Some(t) => Replay(t, b)
    decreases |a|
  {
    if a == [] {
      assert a + b == b;
    } else {
      assert (a + b)[0] == a[0] && (a + b)[1..] == a[1..] + b;
      match Step(s, a[0])
      case None =>
      case Some(t) => ReplayAppend(t, a[1..], b);
    }
  }

  /** Any trace that runs is undone by its mirror: whatever was acquired is released again
      and the lock state returns to where it started. */
  lemma {:induction false} MirrorUndoes(s: LockState, ops: seq<LockOp>)
    requires Replay(s, ops).Some?
    ensures Replay(Replay(s, ops).value, Mirror(ops)) == Some(s)
    decreases |ops|
  {
    if ops != [] {
      var t := Step(s, ops[0]).value;
      var u := Replay(t, ops[1..]).value;
      MirrorUndoes(t, ops[1..]);
      ReplayAppend(u, Mirror(ops[1..]), [Inverse(ops[0])]);
    }
  }

  /** Taking the locks never fails. */
  lemma LockAlwaysSucceeds(s: LockState, w: bool, layer: LayerType)
    ensures Replay(s, LockOps(w, layer)).Some?
    ensures Replay(s, LockOps(w, layer)).value.body == s.body + 1
  {
    ReplayAppend(s, if w then [AcquireWorld(layer)] else [], [AcquireBody]);
  }

  /** The state after `lock(w)`. */
  function Acquired(s: LockState, w: bool, layer: LayerType): (r: LockState)
    ensures r.body == s.body + 1
    ensures Replay(s, LockOps(w, layer)) == Some(r)
  {
    LockAlwaysSucceeds(s, w, layer);
    Replay(s, LockOps(w, layer)).value
  }

  /** A `ScopedLock`: locking with `w`, running a balanced inner trace, and unlocking with the
      same `w` leaves every lock as it was; the inner trace runs while the body's critical
      section is held. */
  lemma ScopedLockBalanced(s: LockState, w: bool, layer: LayerType, inner: seq<LockOp>)
    requires Replay(Acquired(s, w, layer), inner) == Some(Acquired(s, w, layer))
    ensures Replay(s, LockOps(w, layer) + inner + UnlockOps(w, layer)) == Some(s)
  {
    var t := Acquired(s, w, layer);
    ReplayAppend(s, LockOps(w, layer), inner);
    ReplayAppend(s, LockOps(w, layer) + inner, UnlockOps(w, layer));
    UnlockMirrorsLock(w, layer);
    MirrorUndoes(s, LockOps(w, layer));
  }
}
