/**
 * The charged-particle world of Charges.py: 2-D vector helpers, particles
 * with a mutable velocity, and a World holding (particle, position) entries
 * whose `apply_charges` queues one force per ordered pair of distinct
 * entries and only then changes velocities, and whose `apply_velocities`
 * moves every entry.  Python floats are modelled as `real`.
 *
 * `calculate_magnitude` needs a floating square root and the force
 * magnitude is a force law chosen by the caller, so both are parameters:
 * `magnitude` is the vector magnitude, `law(q1, q2, distance)` the strength.
 */
module Charges {

  /** A 2-D vector, the tuple (x, y). */
  type Vector = (real, real)

  // ---------------------------------------------------------------------------
  // Vector helpers (lines 4-27).
  // ---------------------------------------------------------------------------

  function MultiplyVector(v: Vector, amount: real): Vector
  {
    (v.0 * amount, v.1 * amount)
  }

  function DivideVector(v: Vector, amount: real): Vector
    requires amount != 0.0
  {
    (v.0 / amount, v.1 / amount)
  }

  function AddVectors(a: Vector, b: Vector): Vector
  {
    (a.0 + b.0, a.1 + b.1)
  }

  function VectorFromAToB(a: Vector, b: Vector): Vector
  {
    (b.0 - a.0, b.1 - a.1)
  }

  /** `unitize_vector`: the zero vector when the magnitude is zero, else a / |a|. */
  function UnitizeVector(a: Vector, magnitude: Vector -> real): Vector
  {
    var m := magnitude(a);
    if m == 0.0 then (0.0, 0.0) else DivideVector(a, m)
  }

  /** `calculate_distance`: the magnitude of the vector from a to b. */
  function CalculateDistance(a: Vector, b: Vector, magnitude: Vector -> real): real
  {
    magnitude(VectorFromAToB(a, b))
  }

  /** Going from a by the vector from a to b arrives at b. */
  lemma AddVectorFromAToB(a: Vector, b: Vector)
    ensures AddVectors(a, VectorFromAToB(a, b)) == b
  {
  }

  /** Dividing by a non-zero amount undoes multiplying by it. */
  lemma DivideUndoesMultiply(v: Vector, amount: real)
    requires amount != 0.0
    ensures DivideVector(MultiplyVector(v, amount), amount) == v
  {
    var w := DivideVector(MultiplyVector(v, amount), amount);
    assert w.0 == v.0 && w.1 == v.1;
  }

  /** A zero magnitude gives the zero vector rather than a division by zero. */
  lemma UnitizeZeroMagnitude(a: Vector, magnitude: Vector -> real)
    requires magnitude(a) == 0.0
    ensures UnitizeVector(a, magnitude) == (0.0, 0.0)
  {
  }

  /** Otherwise the unit vector scaled back by the magnitude is the vector itself. */
  lemma UnitizeScalesBack(a: Vector, magnitude: Vector -> real)
    requires magnitude(a) != 0.0
    ensures MultiplyVector(UnitizeVector(a, magnitude), magnitude(a)) == a
  {
    var w := MultiplyVector(UnitizeVector(a, magnitude), magnitude(a));
    assert w.0 == a.0 && w.1 == a.1;
  }

  // ---------------------------------------------------------------------------
  // Particles and the world.
  // ---------------------------------------------------------------------------

  /** `ChargedParticle`: charge and mass are set once; the velocity starts at (0, 0). */
  class ChargedParticle {
    const charge: real
    const mass: real
    var velocity: Vector

    constructor (charge: real, mass: real)
      ensures this.charge == charge && this.mass == mass
      ensures velocity == (0.0, 0.0)
    {
      this.charge := charge;
      this.mass := mass;
      velocity := (0.0, 0.0);
    }
  }

  /** One entry of `World.particles`: a particle and its position. */
  type Entry = (ChargedParticle, Vector)

  /** An entry of `forces_to_apply`: the receiving entry's index and the force. */
  datatype QueuedForce = QueuedForce(receiver: int, force: Vector)

  /** The force queued for `second` when visiting the pair (first, second) (lines 66-68). */
  function PairForce(first: Entry, second: Entry, magnitude: Vector -> real,
                     law: (real, real, real) -> real): Vector
  {
    var unitVector := UnitizeVector(VectorFromAToB(first.1, second.1), magnitude);
    var strength := law(first.0.charge, second.0.charge, CalculateDistance(first.1, second.1, magnitude));
    MultiplyVector(unitVector, strength)
  }

  /** A per-pair force: the force the first entry exerts on the second. */
  type ForceField = (Entry, Entry) -> Vector

  /** The force of lines 66-68 as a force field. */
  function PairForces(magnitude: Vector -> real, law: (real, real, real) -> real): ForceField
  {
    (first: Entry, second: Entry) => PairForce(first, second, magnitude, law)
  }

  /** Two entries at zero distance exert no force on each other. */
  lemma ZeroDistanceNoForce(first: Entry, second: Entry, magnitude: Vector -> real,
                            law: (real, real, real) -> real)
    requires CalculateDistance(first.1, second.1, magnitude) == 0.0
    ensures PairForce(first, second, magnitude, law) == (0.0, 0.0)
  {
  }

  /** Two entries at the same position exert no force on each other, whatever the magnitude. */
  lemma SamePositionNoForce(first: Entry, second: Entry, magnitude: Vector -> real,
                            law: (real, real, real) -> real)
    requires first.1 == second.1
    ensures PairForce(first, second, magnitude, law) == (0.0, 0.0)
  {
    var m := magnitude(VectorFromAToB(first.1, second.1));
    if m != 0.0 {
      assert 0.0 / m == 0.0;
    }
  }

  /** The q-th index other than i, in increasing order. */
  function OtherIndex(i: int, q: int): int
  {
    if q < i then q else q + 1
  }

  /**
   * What the inner loop queues for sender i: the force on every receiver
   * j != i, in increasing order of j.
   */
  function RowForces(ps: seq<Entry>, i: int, force: ForceField): (r: seq<QueuedForce>)
    requires 0 <= i < |ps|
  {
    seq(|ps| - 1, q requires 0 <= q < |ps| - 1 =>
      QueuedForce(OtherIndex(i, q), force(ps[i], ps[OtherIndex(i, q)])))
  }

  /** `forces_to_apply` once the outer loop has visited the senders i < t. */
  function QueuedForces(ps: seq<Entry>, t: int, force: ForceField): seq<QueuedForce>
    requires 0 <= t <= |ps|
  {
    if t == 0 then []
    else QueuedForces(ps, t - 1, force) + RowForces(ps, t - 1, force)
  }

  /**
   * Every queued force names a valid receiver and is the force of some
   * sender i on it, and the sender is never the receiver itself.
   */
  lemma {:induction false} QueuedSenders(ps: seq<Entry>, t: int, force: ForceField)
    requires 0 <= t <= |ps|
    ensures var r := QueuedForces(ps, t, force);
      forall q :: 0 <= q < |r| ==>
        0 <= r[q].receiver < |ps| &&
        exists i :: (0 <= i < t && i != r[q].receiver &&
                     r[q].force == force(ps[i], ps[r[q].receiver]))
  {
    if t > 0 {
      var init := QueuedForces(ps, t - 1, force);
      var row := RowForces(ps, t - 1, force);
      var r := init + row;
      forall q | 0 <= q < |r|
        ensures 0 <= r[q].receiver < |ps|
        ensures exists i :: (0 <= i < t && i != r[q].receiver &&
                             r[q].force == force(ps[i], ps[r[q].receiver]))
      {
        if q < |init| {
          assert r[q] == init[q];
          QueuedSenders(ps, t - 1, force);
          assert 0 <= q < |QueuedForces(ps, t - 1, force)|;
          assert 0 <= init[q].receiver < |ps|;
          var i :| 0 <= i < t - 1 && i != init[q].receiver &&
            init[q].force == force(ps[i], ps[init[q].receiver]);
          assert 0 <= i < t && i != r[q].receiver;
        } else {
          var x := q - |init|;
          assert r[q] == row[x];
          assert row[x] == QueuedForce(OtherIndex(t - 1, x), force(ps[t - 1], ps[OtherIndex(t - 1, x)]));
          assert t - 1 != r[q].receiver;
        }
      }
    }
  }

  /** The loops of `apply_charges` queue exactly n * (n - 1) forces. */
  lemma {:induction false} QueuedCount(ps: seq<Entry>, t: int, force: ForceField)
    requires 0 <= t <= |ps|
    ensures |QueuedForces(ps, t, force)| == t * (|ps| - 1)
  {
    if t > 0 {
      QueuedCount(ps, t - 1, force);
      assert (t - 1) * (|ps| - 1) + (|ps| - 1) == t * (|ps| - 1);
    }
  }

  /**
   * The queue is the ordered pairs (i, j), i != j, in the order of the two
   * loops: the force of sender i on receiver j sits at i * (n - 1) plus the
   * rank of j among the receivers other than i.
   */
  lemma {:induction false} QueuedAt(ps: seq<Entry>, t: int, i: int, j: int, force: ForceField)
    requires 0 <= i < t <= |ps| && 0 <= j < |ps| && i != j
    ensures var r := QueuedForces(ps, t, force);
      var q := i * (|ps| - 1) + (if j < i then j else j - 1);
      q < |r| && r[q] == QueuedForce(j, force(ps[i], ps[j]))
  {
    if i == t - 1 {
      QueuedAtLastRow(ps, t, j, force);
    } else {
      QueuedAt(ps, t - 1, i, j, force);
      QueuedPrefix(ps, t, i * (|ps| - 1) + (if j < i then j else j - 1), force);
    }
  }

  /** The row of the last sender sits right after the earlier rows. */
  lemma {:induction false} QueuedAtLastRow(ps: seq<Entry>, t: int, j: int, force: ForceField)
    requires 0 < t <= |ps| && 0 <= j < |ps| && t - 1 != j
    ensures var r := QueuedForces(ps, t, force);
      var q := (t - 1) * (|ps| - 1) + (if j < t - 1 then j else j - 1);
      q < |r| && r[q] == QueuedForce(j, force(ps[t - 1], ps[j]))
  {
    var pos := if j < t - 1 then j else j - 1;
    var init := QueuedForces(ps, t - 1, force);
    var row := RowForces(ps, t - 1, force);
    QueuedCount(ps, t - 1, force);
    assert OtherIndex(t - 1, pos) == j;
    assert QueuedForces(ps, t, force)[|init| + pos] == row[pos];
  }

  /** Queueing one more row keeps the earlier entries in place. */
  lemma {:induction false} QueuedPrefix(ps: seq<Entry>, t: int, q: int, force: ForceField)
    requires 0 < t <= |ps| && 0 <= q < |QueuedForces(ps, t - 1, force)|
    ensures q < |QueuedForces(ps, t, force)|
    ensures QueuedForces(ps, t, force)[q] == QueuedForces(ps, t - 1, force)[q]
  {
  }

  /** How many queued forces target receiver j. */
  function CountFor(forces: seq<QueuedForce>, j: int): nat
  {
    if forces == [] then 0
    else CountFor(forces[..|forces| - 1], j) + (if forces[|forces| - 1].receiver == j then 1 else 0)
  }

  lemma {:induction false} CountForAppend(a: seq<QueuedForce>, b: seq<QueuedForce>, j: int)
    ensures CountFor(a + b, j) == CountFor(a, j) + CountFor(b, j)
    decreases |b|
  {
    if b == [] {
      assert a + b == a;
    } else {
      assert (a + b)[..|a + b| - 1] == a + b[..|b| - 1];
      CountForAppend(a, b[..|b| - 1], j);
    }
  }

  lemma {:induction false} CountForNone(fs: seq<QueuedForce>, j: int)
    requires forall q :: 0 <= q < |fs| ==> fs[q].receiver != j
    ensures CountFor(fs, j) == 0
  {
    if fs != [] {
      var init := fs[..|fs| - 1];
      assert forall q :: 0 <= q < |init| ==> init[q] == fs[q];
      CountForNone(init, j);
    }
  }

  lemma {:induction false} CountForOne(fs: seq<QueuedForce>, j: int, q0: int)
    requires 0 <= q0 < |fs| && fs[q0].receiver == j
    requires forall q :: 0 <= q < |fs| && q != q0 ==> fs[q].receiver != j
    ensures CountFor(fs, j) == 1
  {
    var init := fs[..|fs| - 1];
    assert forall q :: 0 <= q < |init| ==> init[q] == fs[q];
    if q0 == |fs| - 1 {
      CountForNone(init, j);
    } else {
      CountForOne(init, j, q0);
    }
  }

  /** Sender i's row targets every other entry once and i itself never. */
  lemma {:induction false} RowCount(ps: seq<Entry>, i: int, j: int, force: ForceField)
    requires 0 <= i < |ps| && 0 <= j < |ps|
    ensures CountFor(RowForces(ps, i, force), j) == if j != i then 1 else 0
  {
    var row := RowForces(ps, i, force);
    assert forall q :: 0 <= q < |row| ==> row[q].receiver == OtherIndex(i, q);
    if j == i {
      CountForNone(row, j);
    } else {
      CountForOne(row, j, if j < i then j else j - 1);
    }
  }

  /** Every receiver gets one force from each of the other n - 1 senders, no more. */
  lemma {:induction false} ReceiverCount(ps: seq<Entry>, t: int, j: int, force: ForceField)
    requires 0 <= t <= |ps| && 0 <= j < |ps|
    ensures CountFor(QueuedForces(ps, t, force), j) == if j < t then t - 1 else t
  {
    if t > 0 {
      QueuedCountStep(ps, t, j, force);
      ReceiverCount(ps, t - 1, j, force);
    }
  }

  /** Sender t - 1's row adds one force for every receiver but t - 1. */
  lemma {:induction false} QueuedCountStep(ps: seq<Entry>, t: int, j: int, force: ForceField)
    requires 0 < t <= |ps| && 0 <= j < |ps|
    ensures CountFor(QueuedForces(ps, t, force), j) ==
      CountFor(QueuedForces(ps, t - 1, force), j) + if j != t - 1 then 1 else 0
  {
    var init := QueuedForces(ps, t - 1, force);
    var row := RowForces(ps, t - 1, force);
    assert QueuedForces(ps, t, force) == init + row;
    RowCount(ps, t - 1, j, force);
    CountForAppend(init, row, j);
    assert CountFor(init + row, j) == CountFor(init, j) + CountFor(row, j);
  }

  // ---------------------------------------------------------------------------
  // Applying the queued forces (lines 73-76).
  // ---------------------------------------------------------------------------

  /** Every queued force names an entry whose particle's mass can be divided by. */
  predicate Deliverable(ps: seq<Entry>, forces: seq<QueuedForce>)
  {
    forall q :: 0 <= q < |forces| ==>
      0 <= forces[q].receiver < |ps| && ps[forces[q].receiver].0.mass != 0.0
  }

  /** With n <= 1 nothing is queued; otherwise every entry's mass can be divided by. */
  lemma {:induction false} QueuedDeliverable(ps: seq<Entry>, t: int, force: ForceField)
    requires 0 <= t <= |ps| && (|ps| <= 1 || NonZeroMasses(ps))
    ensures Deliverable(ps, QueuedForces(ps, t, force))
  {
    var r := QueuedForces(ps, t, force);
    QueuedSenders(ps, t, force);
    if |ps| <= 1 {
      QueuedCount(ps, t, force);
    }
    forall q | 0 <= q < |r|
      ensures 0 <= r[q].receiver < |ps| && ps[r[q].receiver].0.mass != 0.0
    {
    }
  }

  /**
   * The velocity change one queued force gives its receiver: the receiver's
   * position plus the force, over the mass, times the timestep.
   */
  function ForceGain(ps: seq<Entry>, f: QueuedForce, timestep: real): Vector
    requires 0 <= f.receiver < |ps| && ps[f.receiver].0.mass != 0.0
  {
    var receiver := ps[f.receiver];
    MultiplyVector(DivideVector(AddVectors(receiver.1, f.force), receiver.0.mass), timestep)
  }

  /** The sum of the changes that `forces` gives the particle p (through any entry holding it). */
  function GainFor(ps: seq<Entry>, forces: seq<QueuedForce>, p: ChargedParticle, timestep: real): Vector
    requires Deliverable(ps, forces)
  {
    if forces == [] then (0.0, 0.0)
    else
      var last := forces[|forces| - 1];
      AddVectors(GainFor(ps, forces[..|forces| - 1], p, timestep),
                 if ps[last.receiver].0 == p then ForceGain(ps, last, timestep) else (0.0, 0.0))
  }

  /** One more force adds its change to its receiver's particle and nothing to any other. */
  lemma {:induction false} GainForStep(ps: seq<Entry>, fs: seq<QueuedForce>, q: int, p: ChargedParticle, timestep: real)
    requires Deliverable(ps, fs) && 0 <= q < |fs|
    ensures Deliverable(ps, fs[..q]) && Deliverable(ps, fs[..q + 1])
    ensures var f := fs[q];
      GainFor(ps, fs[..q + 1], p, timestep) ==
        if ps[f.receiver].0 == p then AddVectors(GainFor(ps, fs[..q], p, timestep), ForceGain(ps, f, timestep))
        else GainFor(ps, fs[..q], p, timestep)
  {
    assert fs[..q + 1][..q] == fs[..q];
    var before := GainFor(ps, fs[..q], p, timestep);
    if ps[fs[q].receiver].0 != p {
      assert AddVectors(before, (0.0, 0.0)) == before;
    }
  }

  /**
   * The receiver's position enters the acceleration as well: a zero force
   * still changes the velocity by position / mass * timestep.
   */
  lemma {:induction false} ZeroForceStillAccelerates(ps: seq<Entry>, k: int, timestep: real)
    requires 0 <= k < |ps| && ps[k].0.mass != 0.0
    ensures ForceGain(ps, QueuedForce(k, (0.0, 0.0)), timestep) ==
      MultiplyVector(DivideVector(ps[k].1, ps[k].0.mass), timestep)
  {
  }

  predicate DistinctParticles(ps: seq<Entry>)
  {
    forall a, b :: 0 <= a < b < |ps| ==> ps[a].0 != ps[b].0
  }

  predicate NonZeroMasses(ps: seq<Entry>)
  {
    forall k :: 0 <= k < |ps| ==> ps[k].0.mass != 0.0
  }

  /** What sender i contributes to receiver k. */
  function PairGain(ps: seq<Entry>, i: int, k: int, force: ForceField, timestep: real): Vector
    requires 0 <= i < |ps| && 0 <= k < |ps| && ps[k].0.mass != 0.0
  {
    ForceGain(ps, QueuedForce(k, force(ps[i], ps[k])), timestep)
  }

  /** The contributions of the senders i < t other than k itself, in sender order. */
  function GainFromOthers(ps: seq<Entry>, k: int, t: int, force: ForceField, timestep: real): Vector
    requires 0 <= k < |ps| && 0 <= t <= |ps| && ps[k].0.mass != 0.0
  {
    if t == 0 then (0.0, 0.0)
    else AddVectors(GainFromOthers(ps, k, t - 1, force, timestep),
                    if t - 1 == k then (0.0, 0.0) else PairGain(ps, t - 1, k, force, timestep))
  }

  lemma {:induction false} GainForAppend(ps: seq<Entry>, a: seq<QueuedForce>, b: seq<QueuedForce>,
                                         p: ChargedParticle, timestep: real)
    requires Deliverable(ps, a) && Deliverable(ps, b)
    ensures Deliverable(ps, a + b)
    ensures GainFor(ps, a + b, p, timestep) == AddVectors(GainFor(ps, a, p, timestep), GainFor(ps, b, p, timestep))
    decreases |b|
  {
    DeliverableAppend(ps, a, b);
    if b == [] {
      assert a + b == a;
    } else {
      var init, last := b[..|b| - 1], b[|b| - 1];
      assert (a + b)[..|a + b| - 1] == a + init;
      assert (a + b)[|a + b| - 1] == last;
      GainForAppend(ps, a, init, p, timestep);
      var x := if ps[last.receiver].0 == p then ForceGain(ps, last, timestep) else (0.0, 0.0);
      assert GainFor(ps, a + b, p, timestep) == AddVectors(GainFor(ps, a + init, p, timestep), x);
      assert GainFor(ps, b, p, timestep) == AddVectors(GainFor(ps, init, p, timestep), x);
    }
  }

  lemma {:induction false} DeliverableAppend(ps: seq<Entry>, a: seq<QueuedForce>, b: seq<QueuedForce>)
    requires Deliverable(ps, a) && Deliverable(ps, b)
    ensures Deliverable(ps, a + b)
  {
    forall q | 0 <= q < |a + b|
      ensures 0 <= (a + b)[q].receiver < |ps| && ps[(a + b)[q].receiver].0.mass != 0.0
    {
      if q < |a| {
        assert (a + b)[q] == a[q];
      } else {
        assert (a + b)[q] == b[q - |a|];
      }
    }
  }

  /** A batch in which no force reaches p gives p nothing. */
  lemma {:induction false} GainForNone(ps: seq<Entry>, fs: seq<QueuedForce>, p: ChargedParticle, timestep: real)
    requires Deliverable(ps, fs)
    requires forall q :: 0 <= q < |fs| ==> ps[fs[q].receiver].0 != p
    ensures GainFor(ps, fs, p, timestep) == (0.0, 0.0)
  {
    if fs != [] {
      var init := fs[..|fs| - 1];
      assert forall q :: 0 <= q < |init| ==> init[q] == fs[q];
      GainForNone(ps, init, p, timestep);
    }
  }

  /** A batch in which exactly one force, the q0-th, reaches p gives p that force's change. */
  lemma {:induction false} GainForOne(ps: seq<Entry>, fs: seq<QueuedForce>, p: ChargedParticle, timestep: real, q0: int)
    requires Deliverable(ps, fs) && 0 <= q0 < |fs| && ps[fs[q0].receiver].0 == p
    requires forall q :: 0 <= q < |fs| && q != q0 ==> ps[fs[q].receiver].0 != p
    ensures GainFor(ps, fs, p, timestep) == ForceGain(ps, fs[q0], timestep)
  {
    if q0 == |fs| - 1 {
      GainForLastOnly(ps, fs, p, timestep);
    } else {
      GainForMissesLast(ps, fs, p, timestep, q0);
      GainForOne(ps, fs[..|fs| - 1], p, timestep, q0);
    }
  }

  /** When only the last force reaches p, p gets exactly that force's change. */
  lemma {:induction false} GainForLastOnly(ps: seq<Entry>, fs: seq<QueuedForce>, p: ChargedParticle, timestep: real)
    requires Deliverable(ps, fs) && fs != [] && ps[fs[|fs| - 1].receiver].0 == p
    requires forall q :: 0 <= q < |fs| - 1 ==> ps[fs[q].receiver].0 != p
    ensures GainFor(ps, fs, p, timestep) == ForceGain(ps, fs[|fs| - 1], timestep)
  {
    var init := fs[..|fs| - 1];
    assert forall q :: 0 <= q < |init| ==> init[q] == fs[q];
    GainForNone(ps, init, p, timestep);
  }

  /**
   * When the last force misses p, p gets what the prefix gives it, and the
   * prefix still has the q0-th force as the only one reaching p.
   */
  lemma {:induction false} GainForMissesLast(ps: seq<Entry>, fs: seq<QueuedForce>, p: ChargedParticle, timestep: real, q0: int)
    requires Deliverable(ps, fs) && 0 <= q0 < |fs| - 1 && ps[fs[q0].receiver].0 == p
    requires forall q :: 0 <= q < |fs| && q != q0 ==> ps[fs[q].receiver].0 != p
    ensures var init := fs[..|fs| - 1];
      Deliverable(ps, init) && init[q0] == fs[q0] &&
      (forall q :: 0 <= q < |init| && q != q0 ==> ps[init[q].receiver].0 != p) &&
      GainFor(ps, fs, p, timestep) == GainFor(ps, init, p, timestep)
  {
    var init := fs[..|fs| - 1];
    assert forall q :: 0 <= q < |init| ==> init[q] == fs[q];
    assert ps[fs[|fs| - 1].receiver].0 != p;
  }

  /** Sender i's row gives particle k exactly its pair gain, and nothing to i itself. */
  lemma {:induction false} GainForRow(ps: seq<Entry>, i: int, k: int, force: ForceField, timestep: real)
    requires DistinctParticles(ps) && NonZeroMasses(ps)
    requires 0 <= i < |ps| && 0 <= k < |ps|
    ensures Deliverable(ps, RowForces(ps, i, force))
    ensures GainFor(ps, RowForces(ps, i, force), ps[k].0, timestep) ==
      if i == k then (0.0, 0.0) else PairGain(ps, i, k, force, timestep)
  {
    var row := RowForces(ps, i, force);
    var p := ps[k].0;
    forall q | 0 <= q < |row|
      ensures 0 <= row[q].receiver < |ps| && ps[row[q].receiver].0.mass != 0.0
      ensures ps[row[q].receiver].0 == p <==> row[q].receiver == k
      ensures row[q].receiver == OtherIndex(i, q)
    {
      var x := OtherIndex(i, q);
      assert row[q].receiver == x;
      if x < k {
        assert ps[x].0 != ps[k].0 || x == k;
      } else if k < x {
        assert ps[k].0 != ps[x].0;
      }
    }
    if k == i {
      GainForNone(ps, row, p, timestep);
    } else {
      var pos := if k < i then k else k - 1;
      assert row[pos].receiver == k;
      GainForOne(ps, row, p, timestep, pos);
    }
  }

  /**
   * When no particle object appears twice, the queued forces give particle k
   * exactly one contribution from every other entry.
   */
  lemma {:induction false} DistinctGain(ps: seq<Entry>, k: int, t: int, force: ForceField, timestep: real)
    requires DistinctParticles(ps) && NonZeroMasses(ps)
    requires 0 <= k < |ps| && 0 <= t <= |ps|
    ensures Deliverable(ps, QueuedForces(ps, t, force))
    ensures GainFor(ps, QueuedForces(ps, t, force), ps[k].0, timestep) ==
      GainFromOthers(ps, k, t, force, timestep)
  {
    if t > 0 {
      DistinctGain(ps, k, t - 1, force, timestep);
      GainForRow(ps, t - 1, k, force, timestep);
      QueuedGainStep(ps, t, ps[k].0, force, timestep);
    }
  }

  /** Sender t - 1's row is appended to the queue of the senders before it. */
  lemma {:induction false} QueuedGainStep(ps: seq<Entry>, t: int, p: ChargedParticle, force: ForceField, timestep: real)
    requires 0 < t <= |ps|
    requires Deliverable(ps, QueuedForces(ps, t - 1, force)) && Deliverable(ps, RowForces(ps, t - 1, force))
    ensures Deliverable(ps, QueuedForces(ps, t, force))
    ensures GainFor(ps, QueuedForces(ps, t, force), p, timestep) ==
      AddVectors(GainFor(ps, QueuedForces(ps, t - 1, force), p, timestep),
                 GainFor(ps, RowForces(ps, t - 1, force), p, timestep))
  {
    var init, row := QueuedForces(ps, t - 1, force), RowForces(ps, t - 1, force);
    assert QueuedForces(ps, t, force) == init + row;
    GainForAppend(ps, init, row, p, timestep);
  }

  /** For the whole queue: every particle gets one pair gain from each other entry. */
  lemma {:induction false} EveryOtherEntryOnce(ps: seq<Entry>, force: ForceField, timestep: real)
    requires DistinctParticles(ps) && NonZeroMasses(ps)
    ensures Deliverable(ps, QueuedForces(ps, |ps|, force))
    ensures forall k :: 0 <= k < |ps| ==>
      GainFor(ps, QueuedForces(ps, |ps|, force), ps[k].0, timestep) ==
        GainFromOthers(ps, k, |ps|, force, timestep)
  {
    QueuedDeliverable(ps, |ps|, force);
    forall k | 0 <= k < |ps|
      ensures GainFor(ps, QueuedForces(ps, |ps|, force), ps[k].0, timestep) ==
        GainFromOthers(ps, k, |ps|, force, timestep)
    {
      DistinctGain(ps, k, |ps|, force, timestep);
    }
  }

  // ---------------------------------------------------------------------------
  // The world.
  // ---------------------------------------------------------------------------

  /** `World`: the list of (particle, position) entries. */
  class World {
    var particles: seq<Entry>

    constructor ()
      ensures particles == []
    {
      particles := [];
    }

    /** `add_particle`: appends (particle, (x, y)). */
    method AddParticle(particle: ChargedParticle, x: real, y: real)
      modifies this
      ensures particles == old(particles) + [(particle, (x, y))]
    {
      particles := particles + [(particle, (x, y))];
    }

    /**
     * The two nested loops of `apply_charges`: the force of every sender i
     * on every other receiver j, sender by sender, receivers in order.
     */
    method QueueForces(magnitude: Vector -> real, law: (real, real, real) -> real)
      returns (forcesToApply: seq<QueuedForce>)
      ensures forcesToApply == QueuedForces(particles, |particles|, PairForces(magnitude, law))
    {
      var n := |particles|;
      forcesToApply := [];
      for i := 0 to n
        invariant forcesToApply == QueuedForces(particles, i, PairForces(magnitude, law))
      {
        var firstParticle, firstPosition := particles[i].0, particles[i].1;
        ghost var row := RowForces(particles, i, PairForces(magnitude, law));
        for j := 0 to n
          invariant forcesToApply ==
            QueuedForces(particles, i, PairForces(magnitude, law)) + row[..if j <= i then j else j - 1]
        {
          if i != j {
            var secondParticle, secondPosition := particles[j].0, particles[j].1;
            var unitVector := UnitizeVector(VectorFromAToB(firstPosition, secondPosition), magnitude);
            var strength := law(firstParticle.charge, secondParticle.charge,
                                CalculateDistance(firstPosition, secondPosition, magnitude));
            var force := MultiplyVector(unitVector, strength);
            ghost var pos := if j < i then j else j - 1;
            assert OtherIndex(i, pos) == j;
            assert row[..pos + 1] == row[..pos] + [QueuedForce(j, force)];
            forcesToApply := forcesToApply + [QueuedForce(j, force)];
          }
        }
        assert row[..n - 1] == row;
      }
    }

    /**
     * The delivery loop of `apply_charges`: each queued force, in order,
     * adds (position + force) / mass * timestep to its receiver's velocity.
     */
    method DeliverForces(forcesToApply: seq<QueuedForce>, timestep: real)
      requires Deliverable(particles, forcesToApply)
      modifies set e | e in particles :: e.0
      ensures forall k :: 0 <= k < |particles| ==>
        particles[k].0.velocity == AddVectors(old(particles[k].0.velocity),
          GainFor(particles, forcesToApply, particles[k].0, timestep))
    {
      var n := |particles|;
      assert forcesToApply[..0] == [];
      for q := 0 to |forcesToApply|
        invariant forall k :: 0 <= k < n ==>
          particles[k].0.velocity == AddVectors(old(particles[k].0.velocity),
            GainFor(particles, forcesToApply[..q], particles[k].0, timestep))
      {
        var receiverIndex, force := forcesToApply[q].receiver, forcesToApply[q].force;
        var particle, position := particles[receiverIndex].0, particles[receiverIndex].1;
        var acceleration := DivideVector(AddVectors(position, force), particle.mass);
        ghost var gain := ForceGain(particles, forcesToApply[q], timestep);
        assert MultiplyVector(acceleration, timestep) == gain;
        label Before:
        particle.velocity := AddVectors(particle.velocity, MultiplyVector(acceleration, timestep));
        forall k | 0 <= k < n
          ensures particles[k].0.velocity == AddVectors(old(particles[k].0.velocity),
            GainFor(particles, forcesToApply[..q + 1], particles[k].0, timestep))
        {
          var p := particles[k].0;
          GainForStep(particles, forcesToApply, q, p, timestep);
          var g := GainFor(particles, forcesToApply[..q], p, timestep);
          if p == particle {
            assert p.velocity == AddVectors(AddVectors(old(p.velocity), g), gain);
            assert AddVectors(AddVectors(old(p.velocity), g), gain) == AddVectors(old(p.velocity), AddVectors(g, gain));
          } else {
            assert p.velocity == old@Before(p.velocity);
          }
        }
      }
      assert forcesToApply[..|forcesToApply|] == forcesToApply;
    }

    /**
     * `apply_charges`: queues the force of every ordered pair of distinct
     * entries, then gives each queued force's receiver its velocity change.
     * Only velocities change; the entries (positions, particles, order) stay.
     */
    method ApplyCharges(timestep: real, magnitude: Vector -> real, law: (real, real, real) -> real)
      requires |particles| <= 1 || NonZeroMasses(particles)
      modifies set e | e in particles :: e.0
      ensures particles == old(particles)
      ensures Deliverable(particles, QueuedForces(particles, |particles|, PairForces(magnitude, law)))
      ensures forall k :: 0 <= k < |particles| ==>
        particles[k].0.velocity == AddVectors(old(particles[k].0.velocity),
          GainFor(particles, QueuedForces(particles, |particles|, PairForces(magnitude, law)), particles[k].0, timestep))
      ensures |particles| <= 1 ==>
        forall k :: 0 <= k < |particles| ==> particles[k].0.velocity == old(particles[k].0.velocity)
      ensures DistinctParticles(particles) && NonZeroMasses(particles) ==>
        forall k :: 0 <= k < |particles| ==>
          particles[k].0.velocity == AddVectors(old(particles[k].0.velocity),
            GainFromOthers(particles, k, |particles|, PairForces(magnitude, law), timestep))
    {
      var forcesToApply := QueueForces(magnitude, law);
      QueuedDeliverable(particles, |particles|, PairForces(magnitude, law));
      DeliverForces(forcesToApply, timestep);
      if |particles| <= 1 {
        QueuedCount(particles, |particles|, PairForces(magnitude, law));
        assert forcesToApply == [];
        forall k | 0 <= k < |particles|
          ensures particles[k].0.velocity == old(particles[k].0.velocity)
        {
          var v := old(particles[k].0.velocity);
          assert particles[k].0.velocity == AddVectors(v, (0.0, 0.0));
        }
      }
      if DistinctParticles(particles) && NonZeroMasses(particles) {
        EveryOtherEntryOnce(particles, PairForces(magnitude, law), timestep);
      }
    }

    /**
     * `apply_velocities`: every entry keeps its particle and moves to
     * position + velocity * timestep; no velocity changes.
     */
    method ApplyVelocities(timestep: real)
      modifies this
      ensures |particles| == |old(particles)|
      ensures forall k :: 0 <= k < |particles| ==>
        particles[k].0 == old(particles[k].0) &&
        particles[k].0.velocity == old(particles[k].0.velocity) &&
        particles[k].1 == AddVectors(old(particles[k].1), MultiplyVector(particles[k].0.velocity, timestep))
    {
      for i := 0 to |particles|
        invariant |particles| == |old(particles)|
        invariant forall k :: 0 <= k < i ==>
          particles[k].0 == old(particles[k].0) &&
          particles[k].1 == AddVectors(old(particles[k].1), MultiplyVector(particles[k].0.velocity, timestep))
        invariant forall k :: i <= k < |particles| ==> particles[k] == old(particles[k])
      {
        var particle, position := particles[i].0, particles[i].1;
        var newPosition := AddVectors(position, MultiplyVector(particle.velocity, timestep));
        particles := particles[i := (particle, newPosition)];
      }
    }
  }
}
