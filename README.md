# Physics step kernels: cart collisions and charged particles

This project models the two simulation kernels of a small physics-demo
repository in Dafny, using exact `real` arithmetic in place of Python floats.

* **CartSimulator** (`cart_simulator.dfy`) models `step(carts, dt)` from
  `Cart_Simulator.py`. A cart is the record (position, mass, velocity,
  color). A step does four things:
  1. It sorts the carts lexicographically over the whole tuple.
  2. It records collisions between adjacent carts. A cart records `(i, i - 1)`
     only when its velocity is `<= 0`. It records `(i, i + 1)` only when its
     velocity is `> 0`. Each needs a relative-velocity test and an overlap of
     the half-width edges.
  3. It turns every recorded ordered pair into two centre-of-mass velocity
     changes, computed from the sorted snapshot. The set is visited in an
     unspecified order.
  4. It applies all changes as a batch, then moves every cart by
     `velocity * dt`.

  Each loop of `step` is a method proved against a specification function.
  `Step` composes these methods. It is proved to:
  * return the sorted input, index by index, with the same mass and colour;
  * give each cart its velocity plus the changes of the collisions recorded
    at or next to it, whatever order the set is visited in;
  * advance each position with the new velocity;
  * leave every velocity alone when nothing collides;
  * keep the total momentum `Σ m·v`.

  Any sorting algorithm gives the same list, because the order compares whole
  tuples. Two more consequences are proved:
  * two overlapping neighbours moving towards each other are recorded from
    both sides (a cart at rest counts as moving left);
  * when neither cart of a pair has another collision, a pair recorded once
    makes both carts take the centre-of-mass velocity, and a pair recorded
    from both sides gives the elastic result;
  * two carts with centres −1.0 and 0.0, velocities 1 and −1 and width 0.5
    approach but do not collide: their edges are 0.5 apart, so nothing is
    recorded.
* **Charges** (`charges.dfy`) models `Charges.py`:
  * the 2-D vector helpers;
  * `ChargedParticle`, a class whose velocity is assigned in place;
  * `World`, a class holding the seq of (particle, position) entries, with
    `add_particle`, `apply_charges` and `apply_velocities`.

  `apply_charges` queues one force per ordered pair `i != j` in loop order.
  It then applies `velocity += ((position + force) / mass) * timestep`,
  literally, for each queued force. The per-pair force is a parameter (a
  `ForceField`), and so is the vector magnitude. `World.QueueForces`
  instantiates the field with the expression of lines 66-68, with the
  strength law as a parameter. The model proves:
  * the queue has `n * (n - 1)` entries;
  * the queue's exact layout;
  * every receiver is valid and never its own sender;
  * each entry is the target of exactly `n - 1` forces;
  * only velocities change;
  * nothing changes when there are fewer than two particles;
  * when no particle object appears twice, each particle receives exactly
    one contribution from every other entry.

The model has three parameters:
* the time step, which the source also takes as an argument;
* `magnitude`, a `Vector -> real` function that stands in for
  `calculate_magnitude` (Charges.py:23-24), which needs a floating square
  root;
* `law`, which stands in for the strength expression of Charges.py:67.

Nothing is read from the environment.

## Model

| member | source | states |
|---|---|---|
| CartSimulator.ColorLess | Cart_Simulator.py:42 | Python's `<` on (r, g, b) colour tuples; CartLessIsStrictTotalOrder states its order laws through CartLess |
| CartSimulator.CartLess | Cart_Simulator.py:42 | Python's lexicographic `<` on (position, mass, velocity, colour) tuples; CartLessIsStrictTotalOrder states its order laws |
| CartSimulator.CartLessIsStrictTotalOrder | Cart_Simulator.py:42 | Python's tuple `<` on carts is irreflexive, asymmetric, transitive and total, so `sorted` has exactly one answer |
| CartSimulator.Insert | Cart_Simulator.py:42 | inserting into a sorted list keeps it sorted and adds exactly that cart to the multiset |
| CartSimulator.SortCarts | Cart_Simulator.py:42 | `sorted(carts)` is sorted, a permutation of the input, and of the same length |
| CartSimulator.SortedUnique | Cart_Simulator.py:42 | any two sorted permutations of the same carts are equal, so every sorting algorithm returns SortCarts |
| CartSimulator.SortKeepsMassesPositive | Cart_Simulator.py:42 | sorting keeps every mass positive |
| CartSimulator.DetectCollisions | Cart_Simulator.py:47-77 | the pair is in the set iff it is `(i, i-1)` with velocity ≤ 0, a left neighbour, relative velocity > 0 and overlapping half-width edges, or `(i, i+1)` with velocity > 0, a right neighbour, relative velocity < 0 and overlap; every pair is in range and adjacent; at most one pair per cart |
| CartSimulator.LeftHit | Cart_Simulator.py:53-64 | the condition under which cart i records `(i, i-1)`: velocity ≤ 0, a left neighbour, relative velocity > 0, overlapping edges; DetectCollisions and OneCollisionPerSender state its role |
| CartSimulator.RightHit | Cart_Simulator.py:67-77 | the condition under which cart i records `(i, i+1)`: velocity > 0, a right neighbour, relative velocity < 0, overlapping edges; DetectCollisions and OneCollisionPerSender state its role |
| CartSimulator.HeadOnRecordedTwice | Cart_Simulator.py:49-77 | overlapping neighbours with the left one moving right and the right one moving left or at rest are recorded twice, as `(i, i-1)` and `(i-1, i)` |
| CartSimulator.RestingCartHitFromRightRecordedOnce | Cart_Simulator.py:53-77 | a cart at rest takes the `velocity <= 0` branch, so an overlapping right neighbour moving left is recorded as `(i+1, i)` but never as `(i, i+1)` |
| CartSimulator.OneCollisionPerSender | Cart_Simulator.py:53-77 | the `if`/`elif` lets a cart record a left or a right collision but never both, and nothing but its two neighbours |
| CartSimulator.ComVelocity | Cart_Simulator.py:93-94 | `com_velocity`, total momentum over total mass; SingleRecordMeetsAtCentreOfMass and DoubleRecordIsElastic state its role |
| CartSimulator.FirstDelta | Cart_Simulator.py:96-101 | the change queued for the first cart; PairDeltas ties it to the in-loop arithmetic, PairMomentumNeutral states its property |
| CartSimulator.SecondDelta | Cart_Simulator.py:96-102 | the change queued for the second cart; PairDeltas ties it to the in-loop arithmetic, PairMomentumNeutral states its property |
| CartSimulator.PairDeltas | Cart_Simulator.py:86-102 | the in-loop arithmetic (momenta, COM velocity, relative velocities, mass ratios) yields exactly FirstDelta and SecondDelta |
| CartSimulator.PairMomentumNeutral | Cart_Simulator.py:88-102 | `m_first·Δ_first + m_second·Δ_second = 0` for every pair |
| CartSimulator.SingleRecordMeetsAtCentreOfMass | Cart_Simulator.py:93-102 | applied alone, the two changes of one pair give both carts the centre-of-mass velocity |
| CartSimulator.DoubleRecordIsElastic | Cart_Simulator.py:85-102 | a pair recorded as both (a, b) and (b, a) gives each cart `2·v_com − v`, which keeps kinetic energy |
| CartSimulator.TargetsAppend | Cart_Simulator.py:101-102 | appending changes that target valid carts keeps every target valid |
| CartSimulator.EnumeratesAdd | Cart_Simulator.py:85 | visiting one more unvisited pair extends the enumeration of the visited set |
| CartSimulator.VisitOneMore | Cart_Simulator.py:85-102 | one iteration of the set loop keeps the loop invariant: visited pairs enumerated once, two changes per pair, all computed from the snapshot |
| CartSimulator.CollisionUpdates | Cart_Simulator.py:79-102 | `velocity_updates` is the two changes of each pair in some enumeration of the set, from the sorted snapshot, `2·|collisions|` entries, all targets valid |
| CartSimulator.ApplyUpdates | Cart_Simulator.py:104-110 | after the batch, cart k is the old cart with velocity plus the sum of the changes that target k; position, mass and colour are kept; the result is Shifted, the changes applied one after another |
| CartSimulator.Drift | Cart_Simulator.py:115 | one cart after the position pass; AdvancePositions and CollidedPointwise state its role |
| CartSimulator.AdvancePositions | Cart_Simulator.py:112-115 | each cart's position becomes position + velocity·dt with its updated velocity; mass, velocity and colour are kept |
| CartSimulator.SumForAppend | Cart_Simulator.py:104-110 | the changes a cart receives from two batches add up |
| CartSimulator.PairUpdatesSum | Cart_Simulator.py:101-102 | the two changes of a pair give cart k that pair's contribution |
| CartSimulator.ContributionAdd | Cart_Simulator.py:85-102 | adding an adjacent pair to the visited set adds exactly its own contribution to cart k |
| CartSimulator.UpdatesOfLast | Cart_Simulator.py:85-102 | the last visited pair adds its own contribution to what cart k receives |
| CartSimulator.UpdatesOfContribution | Cart_Simulator.py:85-110 | in any visiting order of distinct adjacent pairs, cart k receives the contribution of the visited set |
| CartSimulator.UpdatesSumToCollisionDelta | Cart_Simulator.py:79-110 | for any enumeration of the recorded set, cart k receives exactly CollisionDelta: its own recorded collision plus those its neighbours record towards it; the order of the set does not matter |
| CartSimulator.MomentumInsert | Cart_Simulator.py:42 | inserting a cart adds its momentum |
| CartSimulator.MomentumSort | Cart_Simulator.py:42 | sorting keeps total momentum |
| CartSimulator.MomentumReplace | Cart_Simulator.py:105-110 | replacing cart i changes total momentum by the difference of the two carts' momenta |
| CartSimulator.MomentumPointwise | Cart_Simulator.py:112-115 | carts with equal masses and velocities index by index have equal momentum, so the position pass keeps momentum |
| CartSimulator.Shifted | Cart_Simulator.py:104-110 | applying a list of changes one after another keeps the number of carts |
| CartSimulator.ShiftedPointwise | Cart_Simulator.py:104-110 | applying the changes one after another adds to each cart exactly the changes that target it |
| CartSimulator.ShiftedMass | Cart_Simulator.py:105-110 | the batch keeps every mass |
| CartSimulator.ShiftMomentum | Cart_Simulator.py:105-110 | one change moves total momentum by the target's mass times the change |
| CartSimulator.ShiftedLast | Cart_Simulator.py:104-110 | the last change of a batch moves momentum by its target's mass in the snapshot times the change |
| CartSimulator.ShiftedMomentum | Cart_Simulator.py:104-110 | applying a batch moves total momentum by its mass-weighted sum |
| CartSimulator.WeightedAppend | Cart_Simulator.py:101-102 | the weighted sums of two batches add up |
| CartSimulator.PairUpdatesBalanced | Cart_Simulator.py:101-102 | the two entries appended for one pair have weighted sum zero |
| CartSimulator.UpdatesOfBalanced | Cart_Simulator.py:85-102 | whatever the visiting order, all queued changes have weighted sum zero |
| CartSimulator.CollidedPointwise | Cart_Simulator.py:104-115 | the batch followed by the position pass gives cart k its collision change, then moves it |
| CartSimulator.QuietStep | Cart_Simulator.py:81-110 | with no recorded collision every velocity is unchanged |
| CartSimulator.Step | Cart_Simulator.py:41-117 | same length as the input; cart k is cart k of the sorted input with the same mass and colour, velocity plus CollisionDelta, position advanced by the new velocity·dt; velocities unchanged when nothing collides; total momentum kept |
| CartSimulator.SeparatedCartsDoNotCollide | Cart_Simulator.py:41-117 | carts at −1.0 and 0.0 with velocities 1 and −1 and width 0.5 do not overlap; nothing is recorded and both only move |
| CartSimulator.OverlappingCartsSwapVelocities | Cart_Simulator.py:41-117 | equal-mass overlapping carts approaching head-on are recorded from both sides and swap velocities |
| Charges.MultiplyVector | Charges.py:11-12 | `multiply_vector`, the vector scaled by amount; DivideUndoesMultiply and UnitizeScalesBack state its properties |
| Charges.DivideVector | Charges.py:14-15 | `divide_vector` for a non-zero amount; DivideUndoesMultiply states that it undoes MultiplyVector |
| Charges.AddVectors | Charges.py:17-18 | `add_vectors`, componentwise sum; AddVectorFromAToB and GainForAppend state its properties |
| Charges.VectorFromAToB | Charges.py:20-21 | `vector_from_a_to_b`, b minus a; AddVectorFromAToB states that adding it to a gives b |
| Charges.UnitizeVector | Charges.py:4-9 | `unitize_vector` over an abstract magnitude; UnitizeZeroMagnitude and UnitizeScalesBack state its two branches |
| Charges.CalculateDistance | Charges.py:26-27 | `calculate_distance`, the magnitude of the vector from a to b; ZeroDistanceNoForce states its role in the force |
| Charges.AddVectorFromAToB | Charges.py:17-21 | `add_vectors(a, vector_from_a_to_b(a, b)) == b` |
| Charges.DivideUndoesMultiply | Charges.py:11-15 | `divide_vector(multiply_vector(v, s), s) == v` for `s != 0` |
| Charges.UnitizeZeroMagnitude | Charges.py:4-7 | `unitize_vector` returns (0, 0) whenever the magnitude is zero |
| Charges.UnitizeScalesBack | Charges.py:4-9 | otherwise the unit vector times the magnitude is the vector again |
| Charges.ChargedParticle.constructor | Charges.py:31-35 | the particle has the given charge and mass and velocity (0, 0) |
| Charges.PairForce | Charges.py:66-68 | the force queued for the second entry of a pair: its unit vector from the first times the strength law at their distance; ZeroDistanceNoForce and SamePositionNoForce state its zero case |
| Charges.ZeroDistanceNoForce | Charges.py:66-68 | two entries at zero distance queue the zero force |
| Charges.SamePositionNoForce | Charges.py:66-68 | two entries at the same position queue the zero force, for every magnitude function and force law |
| Charges.QueuedSenders | Charges.py:54-71 | every queued entry `(j, force)` has a valid receiver j and is the force of some sender `i != j` on j |
| Charges.QueuedCount | Charges.py:54-71 | the two loops queue exactly `n·(n−1)` forces |
| Charges.QueuedAt | Charges.py:54-71 | the force of sender i on receiver `j != i` sits at position `i·(n−1)` plus the rank of j among the receivers other than i |
| Charges.CountForAppend | Charges.py:71 | the forces for receiver j in two batches add up |
| Charges.CountForNone | Charges.py:71 | a batch with no entry for j counts zero for j |
| Charges.CountForOne | Charges.py:71 | a batch with exactly one entry for j counts one for j |
| Charges.RowCount | Charges.py:57-71 | the inner loop for sender i queues one force for every other receiver and none for i |
| Charges.QueuedCountStep | Charges.py:54-71 | each outer iteration adds one force for every receiver but its own sender |
| Charges.ReceiverCount | Charges.py:54-71 | after the loops, each receiver has exactly `n − 1` forces queued for it |
| Charges.QueuedDeliverable | Charges.py:54-75 | every queued receiver is a valid entry whose mass can be divided by |
| Charges.GainForStep | Charges.py:73-76 | delivering one more force adds its change to its receiver's particle and nothing to any other |
| Charges.ForceGain | Charges.py:74-76 | the velocity change one queued force gives its receiver, `(position + force) / mass · timestep`; ZeroForceStillAccelerates and GainForOne state its role |
| Charges.ZeroForceStillAccelerates | Charges.py:75 | as written, the receiver's position enters the acceleration: a zero force still changes the velocity by position / mass · timestep |
| Charges.GainForAppend | Charges.py:73-76 | what two batches deliver to a particle adds up |
| Charges.DeliverableAppend | Charges.py:71-75 | two deliverable batches give a deliverable batch |
| Charges.GainForNone | Charges.py:73-76 | a batch with no force for p leaves p's velocity change zero |
| Charges.GainForOne | Charges.py:73-76 | a batch with exactly one force for p delivers exactly that force's change |
| Charges.GainForRow | Charges.py:57-76 | with distinct particles, sender i's row gives entry k its pair gain when `k != i` and nothing when `k == i` |
| Charges.QueuedGainStep | Charges.py:54-76 | each outer iteration's row adds what it delivers to what the earlier rows deliver |
| Charges.DistinctGain | Charges.py:54-76 | with distinct particles, the forces of senders `i < t` give entry k one pair gain from each of them other than k |
| Charges.EveryOtherEntryOnce | Charges.py:54-76 | for the whole queue, every entry's particle receives one pair gain from each other entry |
| Charges.World.constructor | Charges.py:38-39 | a new world has no entries |
| Charges.World.AddParticle | Charges.py:41-42 | the entry list grows by one, `(particle, (x, y))` is last, and earlier entries are unchanged |
| Charges.World.QueueForces | Charges.py:52-71 | `forces_to_apply` is, sender by sender and receiver by receiver, the force of every i on every `j != i` |
| Charges.World.DeliverForces | Charges.py:73-76 | each particle's velocity becomes its old velocity plus the sum of `(position + force) / mass · timestep` over the queued forces that reach it |
| Charges.World.ApplyCharges | Charges.py:44-76 | entries (positions, particles, order) unchanged; velocities become old plus the delivered queue; unchanged when there are at most one entry; with distinct particles, old plus one pair gain from every other entry |
| Charges.World.ApplyVelocities | Charges.py:78-91 | each position becomes position + velocity·timestep; particles, their order and velocities unchanged |

## Left out

- Rendering and the window are not modelled: `draw_carts`, `scale_pos`, the screen constants and the pygame event loop (Cart_Simulator.py:24-34, 119-155). They only display the state.
- The `print` calls in `step` (Cart_Simulator.py:81-82, 99) write to the console only.
- `Sinusoidal_Acceleration.py` is not part of this model. It is cosine, float accumulation, input prompts and plotting, with nothing exact to state.
- `calculate_magnitude` is not modelled. Its floating square root becomes the parameter `magnitude`; non-negativity is not assumed, since no proof needs it.
- The force magnitude of Charges.py:67 becomes the parameter `law(charge1, charge2, distance)`. As written, that line multiplies the particle objects themselves, which Python rejects. The constant `k_constant` and the inverse-square symmetry of a concrete law are therefore not modelled.
- Float rounding, overflow and NaN are not modelled; arithmetic is exact over `real`.
- CartSimulator.Step: requires every mass to be positive. The only call (Cart_Simulator.py:152) passes the carts of lines 13-22, whose masses are positive, and `step` never changes a mass. Python itself only fails, by dividing, for colliding carts whose masses are zero or sum to zero.
- Charges.World.ApplyCharges: requires non-zero masses only when there are at least two entries. Those are exactly the cases where line 75 divides.
- CartSimulator.CollisionUpdates: the iteration order of a Python set is left open. The model picks any remaining pair and returns the enumeration it used as a ghost value, and the results are proved independent of it.
- `ChargedParticle.charge` and `mass` are `const` fields, because the source never reassigns them. Only `velocity` is mutable.
- Charges.World.ApplyCharges: the per-particle result is stated as one pair gain per other entry only when no particle object is held by two entries. With aliasing, the general `GainFor` statement still holds.
- Charges.World.ApplyCharges and Charges.World.ApplyVelocities: `timestep` is a required argument; the Python default of 0.01 (Charges.py:44, 78) is not modelled, since Dafny methods have no default arguments.
