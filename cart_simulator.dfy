/**
 * One fixed time step of the 1-D cart collision simulator (`step` in
 * Cart_Simulator.py): sort the carts, record collisions between adjacent
 * carts, turn every recorded collision into two velocity changes computed
 * in the centre-of-mass frame, apply all changes as a batch, then advance
 * every position by velocity * dt.  Python floats are modelled as `real`.
 */
module CartSimulator {

  /** A colour tag, the tuple (red, green, blue); Python compares it lexicographically. */
  datatype Color = Color(red: int, green: int, blue: int)

  /**
   * A cart.  The source keeps a cart as the tuple (position, mass, velocity,
   * color) and reads it through the index constants POSITION = 0, MASS = 1,
   * VELOCITY = 2, COLOR = 3; the fields here carry those names.
   */
  datatype Cart = Cart(position: real, mass: real, velocity: real, color: Color)

  /** A recorded collision (i, i - 1) or (i, i + 1): indices into the sorted carts. */
  type Pair = (int, int)

  /** One entry of `velocity_updates`: the cart it targets and the velocity change. */
  datatype VelocityUpdate = VelocityUpdate(cartId: int, delta: real)

  /** `cart_phys_width`: every cart is this wide; collision tests use half of it. */
  const CartPhysWidth: real := 0.5

  predicate AllMassesPositive(s: seq<Cart>)
  {
    forall c :: c in s ==> c.mass > 0.0
  }

  predicate InRange(s: seq<Cart>, p: Pair)
  {
    0 <= p.0 < |s| && 0 <= p.1 < |s|
  }

  // ---------------------------------------------------------------------------
  // Sorting: `sorted(carts)` orders the tuples lexicographically.
  // ---------------------------------------------------------------------------

  /** Python's `<` on (r, g, b) tuples. */
  predicate ColorLess(a: Color, b: Color)
  {
    a.red < b.red ||
    (a.red == b.red && (a.green < b.green || (a.green == b.green && a.blue < b.blue)))
  }

  /** Python's `<` on (position, mass, velocity, color) tuples. */
  predicate CartLess(a: Cart, b: Cart)
  {
    a.position < b.position ||
    (a.position == b.position &&
      (a.mass < b.mass ||
        (a.mass == b.mass &&
          (a.velocity < b.velocity ||
            (a.velocity == b.velocity && ColorLess(a.color, b.color))))))
  }

  lemma CartLessIsStrictTotalOrder(a: Cart, b: Cart, c: Cart)
    ensures !CartLess(a, a)
    ensures CartLess(a, b) ==> !CartLess(b, a)
    ensures CartLess(a, b) && CartLess(b, c) ==> CartLess(a, c)
    ensures a == b || CartLess(a, b) || CartLess(b, a)
  {
  }

  /** No element is smaller than one that precedes it. */
  predicate Sorted(s: seq<Cart>)
  {
    forall i, j :: 0 <= i < j < |s| ==> !CartLess(s[j], s[i])
  }

  lemma {:induction false} SortedHead(r: seq<Cart>, x: Cart)
    requires Sorted(r) && x in r
    ensures !CartLess(x, r[0])
  {
    var k :| 0 <= k < |r| && r[k] == x;
    CartLessIsStrictTotalOrder(x, x, x);
  }

  lemma {:induction false} SortedCons(x: Cart, r: seq<Cart>)
    requires Sorted(r) && forall y :: y in r ==> !CartLess(y, x)
    ensures Sorted([x] + r)
  {
    var t := [x] + r;
    forall i, j | 0 <= i < j < |t| ensures !CartLess(t[j], t[i]) {
      assert t[j] == r[j - 1];
      if i > 0 {
        assert t[i] == r[i - 1];
      }
    }
  }

  /** Inserts `c` into the sorted `r` in front of the first element not smaller than it. */
  function Insert(c: Cart, r: seq<Cart>): (t: seq<Cart>)
    requires Sorted(r)
    ensures Sorted(t)
    ensures multiset(t) == multiset(r) + multiset{c}
    decreases |r|
  {
    if r == [] then [c]
    else if CartLess(r[0], c) then
      var rest := Insert(c, r[1..]);
      assert r == [r[0]] + r[1..];
      assert forall x :: x in rest ==> !CartLess(x, r[0]) by {
        forall x | x in rest ensures !CartLess(x, r[0]) {
          assert x in multiset(rest);
          if x == c {
            CartLessIsStrictTotalOrder(r[0], c, c);
          } else {
            assert x in r;
            SortedHead(r, x);
          }
        }
      }
      SortedCons(r[0], rest);
      [r[0]] + rest
    else
      assert forall x :: x in r ==> !CartLess(x, c) by {
        forall x | x in r ensures !CartLess(x, c) {
          SortedHead(r, x);
          CartLessIsStrictTotalOrder(r[0], x, c);
          CartLessIsStrictTotalOrder(x, r[0], c);
        }
      }
      SortedCons(c, r);
      [c] + r
  }

  /** `sorted(carts)` (line 42): a sorted permutation of the input. */
  function SortCarts(s: seq<Cart>): (r: seq<Cart>)
    ensures Sorted(r)
    ensures multiset(r) == multiset(s)
    ensures |r| == |s|
  {
    if s == [] then []
    else
      assert s == [s[0]] + s[1..];
      Insert(s[0], SortCarts(s[1..]))
  }

  /**
   * Two sorted permutations of the same carts are equal: the order compares
   * whole tuples, so whichever sorting algorithm Python runs, its result is
   * SortCarts.
   */
  lemma {:induction false} SortedUnique(a: seq<Cart>, b: seq<Cart>)
    requires Sorted(a) && Sorted(b) && multiset(a) == multiset(b)
    ensures a == b
    decreases |a|
  {
    if a != [] {
      assert |b| == |a| by {
        assert |b| == |multiset(b)| == |multiset(a)| == |a|;
      }
      assert a[0] == b[0] by {
        assert a[0] in multiset(b) && b[0] in multiset(a);
        SortedHead(b, a[0]);
        SortedHead(a, b[0]);
        CartLessIsStrictTotalOrder(a[0], b[0], b[0]);
      }
      assert multiset(a[1..]) == multiset(b[1..]) by {
        assert a == [a[0]] + a[1..] && b == [b[0]] + b[1..];
        assert multiset(a[1..]) == multiset(a) - multiset{a[0]};
        assert multiset(b[1..]) == multiset(b) - multiset{b[0]};
      }
      assert Sorted(a[1..]) && Sorted(b[1..]);
      SortedUnique(a[1..], b[1..]);
      assert a == [a[0]] + a[1..] && b == [b[0]] + b[1..];
    } else {
      assert |b| == |multiset(b)| == 0;
    }
  }

  lemma {:induction false} SortKeepsMassesPositive(s: seq<Cart>)
    requires AllMassesPositive(s)
    ensures AllMassesPositive(SortCarts(s))
  {
    forall c | c in SortCarts(s) ensures c.mass > 0.0 {
      assert c in multiset(SortCarts(s));
    }
  }

  // ---------------------------------------------------------------------------
  // Collision detection (lines 47-77).
  // ---------------------------------------------------------------------------

  /**
   * Cart i is not moving right, has a left neighbour that moves right
   * relative to it, and the neighbour's right edge lies past its left edge:
   * the pair (i, i - 1) is recorded.
   */
  predicate LeftHit(s: seq<Cart>, i: int)
  {
    1 <= i < |s| && s[i].velocity <= 0.0 &&
    s[i - 1].velocity - s[i].velocity > 0.0 &&
    s[i - 1].position + CartPhysWidth / 2.0 > s[i].position - CartPhysWidth / 2.0
  }

  /**
   * Cart i moves right, has a right neighbour that moves left relative to
   * it, and the neighbour's left edge lies before its right edge: the pair
   * (i, i + 1) is recorded.
   */
  predicate RightHit(s: seq<Cart>, i: int)
  {
    0 <= i && i + 1 < |s| && s[i].velocity > 0.0 &&
    s[i + 1].velocity - s[i].velocity < 0.0 &&
    s[i + 1].position - CartPhysWidth / 2.0 < s[i].position + CartPhysWidth / 2.0
  }

  /** The pairs that end up in `collisions`. */
  predicate Recorded(s: seq<Cart>, p: Pair)
  {
    (p.1 == p.0 - 1 && LeftHit(s, p.0)) || (p.1 == p.0 + 1 && RightHit(s, p.0))
  }

  /** The set `collisions` built by the scan over the sorted carts. */
  method DetectCollisions(s: seq<Cart>) returns (collisions: set<Pair>)
    ensures forall p :: p in collisions <==> Recorded(s, p)
    ensures forall p :: p in collisions ==> InRange(s, p) && (p.1 == p.0 - 1 || p.1 == p.0 + 1)
    ensures |collisions| <= |s|
  {
    collisions := {};
    for i := 0 to |s|
      invariant forall p :: p in collisions <==> Recorded(s, p) && p.0 < i
      invariant |collisions| <= i
    {
      var position, velocity := s[i].position, s[i].velocity;
      if velocity <= 0.0 && i - 1 >= 0 {
        var cartBefore := s[i - 1];
        if cartBefore.velocity - velocity > 0.0 {
          var cartBeforeRightBound := cartBefore.position + CartPhysWidth / 2.0;
          var nextLeftBound := position - CartPhysWidth / 2.0;
          if cartBeforeRightBound > nextLeftBound {
            collisions := collisions + {(i, i - 1)};
          }
        }
      } else if velocity > 0.0 && i + 1 < |s| {
        var cartAfter := s[i + 1];
        if cartAfter.velocity - velocity < 0.0 {
          var cartAfterLeftBound := cartAfter.position - CartPhysWidth / 2.0;
          var nextRightBound := position + CartPhysWidth / 2.0;
          if cartAfterLeftBound < nextRightBound {
            collisions := collisions + {(i, i + 1)};
          }
        }
      }
    }
  }

  /**
   * Two overlapping neighbours, the left one moving right and the right one
   * moving left or at rest, are recorded from both sides: once as (i, i - 1)
   * by the right cart, once as (i - 1, i) by the left cart.
   */
  lemma {:induction false} HeadOnRecordedTwice(s: seq<Cart>, i: int)
    requires 1 <= i < |s| && s[i - 1].velocity > 0.0 && s[i].velocity <= 0.0
    requires s[i - 1].position + CartPhysWidth / 2.0 > s[i].position - CartPhysWidth / 2.0
    ensures Recorded(s, (i, i - 1)) && Recorded(s, (i - 1, i))
  {
  }

  /**
   * A cart at rest only looks to its left: hit by an overlapping right
   * neighbour moving left, the pair is recorded by the neighbour alone.
   */
  lemma {:induction false} RestingCartHitFromRightRecordedOnce(s: seq<Cart>, i: int)
    requires 0 <= i && i + 1 < |s| && s[i].velocity == 0.0 && s[i + 1].velocity < 0.0
    requires s[i].position + CartPhysWidth / 2.0 > s[i + 1].position - CartPhysWidth / 2.0
    ensures Recorded(s, (i + 1, i)) && !Recorded(s, (i, i + 1))
  {
  }

  /** A cart records at most one collision of its own, and only one of the two directions. */
  lemma {:induction false} OneCollisionPerSender(s: seq<Cart>, i: int)
    ensures !(LeftHit(s, i) && RightHit(s, i))
    ensures Recorded(s, (i, i - 1)) <==> LeftHit(s, i)
    ensures Recorded(s, (i, i + 1)) <==> RightHit(s, i)
    ensures forall j :: j != i - 1 && j != i + 1 ==> !Recorded(s, (i, j))
  {
  }

  // ---------------------------------------------------------------------------
  // Centre-of-mass velocity changes (lines 85-102).
  // ---------------------------------------------------------------------------

  /** `com_velocity` of the pair (a, b). */
  function ComVelocity(a: Cart, b: Cart): real
    requires a.mass > 0.0 && b.mass > 0.0
  {
    (a.mass * a.velocity + b.mass * b.velocity) / (a.mass + b.mass)
  }

  /** The change queued for the first cart of a collision (line 101). */
  function FirstDelta(a: Cart, b: Cart): real
    requires a.mass > 0.0 && b.mass > 0.0
  {
    (b.velocity - ComVelocity(a, b)) * b.mass / a.mass
  }

  /** The change queued for the second cart of a collision (line 102). */
  function SecondDelta(a: Cart, b: Cart): real
    requires a.mass > 0.0 && b.mass > 0.0
  {
    (a.velocity - ComVelocity(a, b)) * a.mass / b.mass
  }

  /** The two changes of one collision cancel in momentum. */
  lemma PairMomentumNeutral(a: Cart, b: Cart)
    requires a.mass > 0.0 && b.mass > 0.0
    ensures a.mass * FirstDelta(a, b) + b.mass * SecondDelta(a, b) == 0.0
  {
    var c := ComVelocity(a, b);
    assert a.mass * FirstDelta(a, b) == (b.velocity - c) * b.mass;
    assert b.mass * SecondDelta(a, b) == (a.velocity - c) * a.mass;
    assert c * (a.mass + b.mass) == a.mass * a.velocity + b.mass * b.velocity;
  }

  /**
   * A collision recorded once moves both of its carts to the centre-of-mass
   * velocity: on its own the exchange is perfectly inelastic.
   */
  lemma SingleRecordMeetsAtCentreOfMass(a: Cart, b: Cart)
    requires a.mass > 0.0 && b.mass > 0.0
    ensures a.velocity + FirstDelta(a, b) == ComVelocity(a, b)
    ensures b.velocity + SecondDelta(a, b) == ComVelocity(a, b)
  {
    var c := ComVelocity(a, b);
    assert c * (a.mass + b.mass) == a.mass * a.velocity + b.mass * b.velocity;
    assert a.mass * FirstDelta(a, b) == (b.velocity - c) * b.mass;
    assert b.mass * SecondDelta(a, b) == (a.velocity - c) * a.mass;
    assert a.mass * (a.velocity + FirstDelta(a, b)) == a.mass * c;
    assert b.mass * (b.velocity + SecondDelta(a, b)) == b.mass * c;
  }

  /**
   * A head-on collision is recorded as both (i, i + 1) and (i + 1, i), so each
   * cart receives two changes; together they give the textbook elastic result
   * 2 * v_com - v and keep the kinetic energy.
   */
  lemma DoubleRecordIsElastic(a: Cart, b: Cart)
    requires a.mass > 0.0 && b.mass > 0.0
    ensures a.velocity + FirstDelta(a, b) + SecondDelta(b, a) == 2.0 * ComVelocity(a, b) - a.velocity
    ensures b.velocity + SecondDelta(a, b) + FirstDelta(b, a) == 2.0 * ComVelocity(a, b) - b.velocity
    ensures var c := ComVelocity(a, b);
      a.mass * (2.0 * c - a.velocity) * (2.0 * c - a.velocity) + b.mass * (2.0 * c - b.velocity) * (2.0 * c - b.velocity)
      == a.mass * a.velocity * a.velocity + b.mass * b.velocity * b.velocity
  {
    var c := ComVelocity(a, b);
    assert ComVelocity(b, a) == c;
    SingleRecordMeetsAtCentreOfMass(a, b);
    SingleRecordMeetsAtCentreOfMass(b, a);
    assert c * (a.mass + b.mass) == a.mass * a.velocity + b.mass * b.velocity;
    calc {
      a.mass * (2.0 * c - a.velocity) * (2.0 * c - a.velocity) + b.mass * (2.0 * c - b.velocity) * (2.0 * c - b.velocity)
        - (a.mass * a.velocity * a.velocity + b.mass * b.velocity * b.velocity);
    ==
      4.0 * c * (c * (a.mass + b.mass) - (a.mass * a.velocity + b.mass * b.velocity));
    ==
      0.0;
    }
  }

  /** The two entries `velocity_updates` receives for the collision p. */
  function PairUpdates(s: seq<Cart>, p: Pair): seq<VelocityUpdate>
    requires AllMassesPositive(s) && InRange(s, p)
  {
    [VelocityUpdate(p.0, FirstDelta(s[p.0], s[p.1])), VelocityUpdate(p.1, SecondDelta(s[p.0], s[p.1]))]
  }

  /** `velocity_updates` after the collisions have been visited in the order `order`. */
  function UpdatesOf(s: seq<Cart>, order: seq<Pair>): seq<VelocityUpdate>
    requires AllMassesPositive(s) && forall j :: 0 <= j < |order| ==> InRange(s, order[j])
  {
    if order == [] then []
    else UpdatesOf(s, order[..|order| - 1]) + PairUpdates(s, order[|order| - 1])
  }

  /** `order` lists every element of `P` exactly once. */
  ghost predicate Enumerates(order: seq<Pair>, P: set<Pair>)
  {
    (forall p :: p in P <==> p in order) &&
    (forall j, j' :: 0 <= j < j' < |order| ==> order[j] != order[j'])
  }

  lemma {:induction false} TargetsAppend(s: seq<Cart>, a: seq<VelocityUpdate>, b: seq<VelocityUpdate>)
    requires Targets(s, a) && Targets(s, b)
    ensures Targets(s, a + b)
  {
    forall j | 0 <= j < |a + b| ensures 0 <= (a + b)[j].cartId < |s| {
      if j < |a| {
        assert (a + b)[j] == a[j];
      } else {
        assert (a + b)[j] == b[j - |a|];
      }
    }
  }

  /** Visiting one more, new element extends an enumeration. */
  lemma {:induction false} EnumeratesAdd(order: seq<Pair>, P: set<Pair>, p: Pair)
    requires Enumerates(order, P) && p !in P
    ensures Enumerates(order + [p], P + {p})
  {
    var o := order + [p];
    forall j, j' | 0 <= j < j' < |o| ensures o[j] != o[j'] {
      if j' == |order| {
        assert o[j] == order[j] && order[j] in P;
      } else {
        assert o[j] == order[j] && o[j'] == order[j'];
      }
    }
  }

  /**
   * The arithmetic of one collision: each cart's velocity relative to the
   * centre of mass, turned into the change queued for the other cart.
   */
  method PairDeltas(first: Cart, second: Cart) returns (firstDelta: real, secondDelta: real)
    requires first.mass > 0.0 && second.mass > 0.0
    ensures firstDelta == FirstDelta(first, second) && secondDelta == SecondDelta(first, second)
  {
    var firstMomentum := first.mass * first.velocity;
    var secondMomentum := second.mass * second.velocity;
    var comMomentum := firstMomentum + secondMomentum;
    var comVelocity := comMomentum / (first.mass + second.mass);
    var firstRelativeToCom := first.velocity - comVelocity;
    var secondRelativeToCom := second.velocity - comVelocity;
    firstDelta := secondRelativeToCom * second.mass / first.mass;
    secondDelta := firstRelativeToCom * first.mass / second.mass;
    assert comVelocity == ComVelocity(first, second);
  }

  /**
   * The state of the loop over `collisions`: `order` lists the pairs visited
   * so far, each once, and `updates` holds their changes in that order.
   */
  ghost predicate Visited(s: seq<Cart>, collisions: set<Pair>, remaining: set<Pair>,
                          order: seq<Pair>, updates: seq<VelocityUpdate>)
    requires AllMassesPositive(s)
  {
    remaining <= collisions &&
    Enumerates(order, collisions - remaining) &&
    (forall j :: 0 <= j < |order| ==> InRange(s, order[j])) &&
    updates == UpdatesOf(s, order) &&
    |updates| == 2 * |order| && |order| + |remaining| == |collisions| &&
    Targets(s, updates)
  }

  lemma {:induction false} VisitOneMore(s: seq<Cart>, collisions: set<Pair>, remaining: set<Pair>,
                     order: seq<Pair>, updates: seq<VelocityUpdate>, p: Pair)
    requires AllMassesPositive(s) && forall q :: q in collisions ==> InRange(s, q)
    requires Visited(s, collisions, remaining, order, updates) && p in remaining
    ensures Visited(s, collisions, remaining - {p}, order + [p], updates + PairUpdates(s, p))
  {
    var order' := order + [p];
    assert order'[..|order'| - 1] == order;
    assert Enumerates(order', (collisions - remaining) + {p}) by {
      EnumeratesAdd(order, collisions - remaining, p);
    }
    assert (collisions - remaining) + {p} == collisions - (remaining - {p});
    TargetsAppend(s, updates, PairUpdates(s, p));
    assert |remaining - {p}| == |remaining| - 1;
  }

  /**
   * The loop over the set `collisions`: Python visits a set in an order it
   * does not specify, so the model visits it in any order and returns that
   * order as `order`.  Every change is computed from the carts as they were
   * before any change is applied.
   */
  method CollisionUpdates(s: seq<Cart>, collisions: set<Pair>)
    returns (updates: seq<VelocityUpdate>, ghost order: seq<Pair>)
    requires AllMassesPositive(s)
    requires forall p :: p in collisions ==> InRange(s, p)
    ensures Enumerates(order, collisions)
    ensures forall j :: 0 <= j < |order| ==> InRange(s, order[j])
    ensures updates == UpdatesOf(s, order)
    ensures |updates| == 2 * |collisions|
    ensures Targets(s, updates)
  {
    var remaining := collisions;
    updates, order := [], [];
    while remaining != {}
      invariant Visited(s, collisions, remaining, order, updates)
      decreases |remaining|
    {
      var p :| p in remaining;
      var firstId, secondId := p.0, p.1;
      var firstDelta, secondDelta := PairDeltas(s[firstId], s[secondId]);
      var pairUpdates := [VelocityUpdate(firstId, firstDelta), VelocityUpdate(secondId, secondDelta)];
      assert pairUpdates == PairUpdates(s, p);
      VisitOneMore(s, collisions, remaining, order, updates, p);
      updates := updates + pairUpdates;
      order := order + [p];
      remaining := remaining - {p};
    }
    assert collisions - remaining == collisions;
  }

  // ---------------------------------------------------------------------------
  // Batch application (lines 104-110) and position pass (lines 112-115).
  // ---------------------------------------------------------------------------

  /** The sum of the changes in `u` that target cart k. */
  function SumFor(u: seq<VelocityUpdate>, k: int): real
  {
    if u == [] then 0.0
    else SumFor(u[..|u| - 1], k) + (if u[|u| - 1].cartId == k then u[|u| - 1].delta else 0.0)
  }

  predicate Targets(s: seq<Cart>, u: seq<VelocityUpdate>)
  {
    forall j :: 0 <= j < |u| ==> 0 <= u[j].cartId < |s|
  }

  /** The carts t with the single change x applied. */
  function Shift(t: seq<Cart>, x: VelocityUpdate): seq<Cart>
    requires 0 <= x.cartId < |t|
  {
    t[x.cartId := t[x.cartId].(velocity := t[x.cartId].velocity + x.delta)]
  }

  /**
   * The carts cs with the changes u applied one after another: the batch of
   * lines 104-110 as a function. ApplyUpdates computes it with a loop; the
   * momentum lemmas below reason about it.
   */
  function Shifted(cs: seq<Cart>, u: seq<VelocityUpdate>): (r: seq<Cart>)
    requires Targets(cs, u)
    ensures |r| == |cs|
  {
    if u == [] then cs else Shift(Shifted(cs, u[..|u| - 1]), u[|u| - 1])
  }

  /** Applies every queued change to its cart; nothing but velocities changes. */
  method ApplyUpdates(cs: seq<Cart>, updates: seq<VelocityUpdate>) returns (r: seq<Cart>)
    requires Targets(cs, updates)
    ensures |r| == |cs|
    ensures forall k :: 0 <= k < |r| ==>
      r[k] == cs[k].(velocity := cs[k].velocity + SumFor(updates, k))
    ensures r == Shifted(cs, updates)
  {
    r := cs;
    for j := 0 to |updates|
      invariant |r| == |cs|
      invariant r == Shifted(cs, updates[..j])
      invariant forall k :: 0 <= k < |r| ==>
        r[k] == cs[k].(velocity := cs[k].velocity + SumFor(updates[..j], k))
    {
      var cartId, velocityUpdate := updates[j].cartId, updates[j].delta;
      assert updates[..j + 1][..j] == updates[..j];
      r := r[cartId := Cart(r[cartId].position, r[cartId].mass, r[cartId].velocity + velocityUpdate, r[cartId].color)];
    }
    assert updates[..|updates|] == updates;
  }

  /** A cart after moving for dt at its current velocity. */
  function Drift(c: Cart, dt: real): Cart
  {
    c.(position := c.position + c.velocity * dt)
  }

  /** The position pass: position + velocity * dt with the updated velocity. */
  method AdvancePositions(cs: seq<Cart>, dt: real) returns (r: seq<Cart>)
    ensures |r| == |cs|
    ensures forall k :: 0 <= k < |r| ==> r[k] == Drift(cs[k], dt)
  {
    r := cs;
    for i := 0 to |r|
      invariant |r| == |cs|
      invariant forall k :: 0 <= k < i ==> r[k] == Drift(cs[k], dt)
      invariant forall k :: i <= k < |r| ==> r[k] == cs[k]
    {
      var cart := r[i];
      r := r[i := Cart(cart.position + cart.velocity * dt, cart.mass, cart.velocity, cart.color)];
    }
  }

  // ---------------------------------------------------------------------------
  // What the batch adds to each cart, independent of the visiting order.
  // ---------------------------------------------------------------------------

  /**
   * The velocity change cart k receives: as first cart of (k, k - 1) or
   * (k, k + 1), and as second cart of (k - 1, k) or (k + 1, k).
   */
  function CollisionDelta(s: seq<Cart>, k: int): real
    requires AllMassesPositive(s) && 0 <= k < |s|
  {
    (if LeftHit(s, k) then FirstDelta(s[k], s[k - 1]) else 0.0) +
    (if RightHit(s, k) then FirstDelta(s[k], s[k + 1]) else 0.0) +
    (if RightHit(s, k - 1) then SecondDelta(s[k - 1], s[k]) else 0.0) +
    (if LeftHit(s, k + 1) then SecondDelta(s[k + 1], s[k]) else 0.0)
  }

  /** What the pairs in P (all adjacent) contribute to cart k. */
  function Contribution(s: seq<Cart>, P: set<Pair>, k: int): real
    requires AllMassesPositive(s) && 0 <= k < |s|
  {
    (if 1 <= k && (k, k - 1) in P then FirstDelta(s[k], s[k - 1]) else 0.0) +
    (if k + 1 < |s| && (k, k + 1) in P then FirstDelta(s[k], s[k + 1]) else 0.0) +
    (if 1 <= k && (k - 1, k) in P then SecondDelta(s[k - 1], s[k]) else 0.0) +
    (if k + 1 < |s| && (k + 1, k) in P then SecondDelta(s[k + 1], s[k]) else 0.0)
  }

  lemma {:induction false} SumForAppend(a: seq<VelocityUpdate>, b: seq<VelocityUpdate>, k: int)
    ensures SumFor(a + b, k) == SumFor(a, k) + SumFor(b, k)
    decreases |b|
  {
    if b != [] {
      assert (a + b)[..|a + b| - 1] == a + b[..|b| - 1];
      SumForAppend(a, b[..|b| - 1], k);
    } else {
      assert a + b == a;
    }
  }

  /** What the two entries of the collision p contribute to cart k. */
  function PairContribution(s: seq<Cart>, p: Pair, k: int): real
    requires AllMassesPositive(s) && InRange(s, p)
  {
    (if p.0 == k then FirstDelta(s[p.0], s[p.1]) else 0.0) +
    (if p.1 == k then SecondDelta(s[p.0], s[p.1]) else 0.0)
  }

  lemma {:induction false} PairUpdatesSum(s: seq<Cart>, p: Pair, k: int)
    requires AllMassesPositive(s) && InRange(s, p)
    ensures SumFor(PairUpdates(s, p), k) == PairContribution(s, p, k)
  {
    var u := PairUpdates(s, p);
    assert u[..1][..0] == [];
    assert SumFor(u[..1], k) == (if p.0 == k then FirstDelta(s[p.0], s[p.1]) else 0.0);
  }

  /** Adding one more adjacent pair to P adds exactly its own contribution. */
  lemma {:induction false} ContributionAdd(s: seq<Cart>, P: set<Pair>, p: Pair, k: int)
    requires AllMassesPositive(s) && 0 <= k < |s| && InRange(s, p)
    requires p.1 == p.0 - 1 || p.1 == p.0 + 1
    requires p !in P
    ensures Contribution(s, P + {p}, k) == Contribution(s, P, k) + PairContribution(s, p, k)
  {
    if p == (k, k - 1) {
    } else if p == (k, k + 1) {
    } else if p == (k - 1, k) {
    } else if p == (k + 1, k) {
    } else {
      assert p.0 != k && p.1 != k;
    }
  }

  /** The last visited pair adds its own contribution to what cart k receives. */
  lemma {:induction false} UpdatesOfLast(s: seq<Cart>, order: seq<Pair>, k: int)
    requires AllMassesPositive(s) && order != []
    requires forall j :: 0 <= j < |order| ==> InRange(s, order[j])
    ensures SumFor(UpdatesOf(s, order), k) ==
      SumFor(UpdatesOf(s, order[..|order| - 1]), k) + PairContribution(s, order[|order| - 1], k)
  {
    var init, p := order[..|order| - 1], order[|order| - 1];
    SumForAppend(UpdatesOf(s, init), PairUpdates(s, p), k);
    PairUpdatesSum(s, p, k);
  }

  /**
   * Whatever order the set is visited in, the changes that target cart k add
   * up to the contribution of the visited pairs.
   */
  lemma {:induction false} UpdatesOfContribution(s: seq<Cart>, order: seq<Pair>, k: int)
    requires AllMassesPositive(s) && 0 <= k < |s|
    requires forall j :: 0 <= j < |order| ==>
      InRange(s, order[j]) && (order[j].1 == order[j].0 - 1 || order[j].1 == order[j].0 + 1)
    requires forall j, j' :: 0 <= j < j' < |order| ==> order[j] != order[j']
    ensures SumFor(UpdatesOf(s, order), k) == Contribution(s, (set p | p in order), k)
    decreases |order|
  {
    if order == [] {
      assert (set p | p in order) == {};
    } else {
      var init, p := order[..|order| - 1], order[|order| - 1];
      var P := set q | q in init;
      assert (set q | q in order) == P + {p} by {
        assert order == init + [p];
      }
      assert p !in P;
      UpdatesOfContribution(s, init, k);
      UpdatesOfLast(s, order, k);
      ContributionAdd(s, P, p, k);
    }
  }

  /** For an enumeration of the recorded pairs, the batch gives cart k exactly CollisionDelta. */
  lemma {:induction false} UpdatesSumToCollisionDelta(s: seq<Cart>, collisions: set<Pair>, order: seq<Pair>, k: int)
    requires AllMassesPositive(s) && 0 <= k < |s|
    requires forall p :: p in collisions <==> Recorded(s, p)
    requires Enumerates(order, collisions)
    requires forall j :: 0 <= j < |order| ==> InRange(s, order[j])
    ensures SumFor(UpdatesOf(s, order), k) == CollisionDelta(s, k)
  {
    forall j | 0 <= j < |order|
      ensures order[j].1 == order[j].0 - 1 || order[j].1 == order[j].0 + 1
    {
      assert order[j] in collisions;
    }
    UpdatesOfContribution(s, order, k);
    assert (set p | p in order) == collisions;
    OneCollisionPerSender(s, k);
    OneCollisionPerSender(s, k - 1);
    OneCollisionPerSender(s, k + 1);
  }

  // ---------------------------------------------------------------------------
  // Momentum.
  // ---------------------------------------------------------------------------

  /** The momentum of one cart. */
  function CartMomentum(c: Cart): real
  {
    c.mass * c.velocity
  }

  /** Total momentum: the sum of mass * velocity over all carts. */
  function Momentum(s: seq<Cart>): real
  {
    if s == [] then 0.0 else CartMomentum(s[0]) + Momentum(s[1..])
  }

  /** The momentum-weighted sum of a list of changes: mass of the target times the change. */
  function Weighted(s: seq<Cart>, u: seq<VelocityUpdate>): real
    requires Targets(s, u)
  {
    if u == [] then 0.0
    else Weighted(s, u[..|u| - 1]) + s[u[|u| - 1].cartId].mass * u[|u| - 1].delta
  }

  lemma {:induction false} MomentumInsert(c: Cart, r: seq<Cart>)
    requires Sorted(r)
    ensures Momentum(Insert(c, r)) == CartMomentum(c) + Momentum(r)
    decreases |r|
  {
    if r != [] && CartLess(r[0], c) {
      MomentumInsert(c, r[1..]);
      assert ([r[0]] + Insert(c, r[1..]))[1..] == Insert(c, r[1..]);
    } else if r != [] {
      assert ([c] + r)[1..] == r;
    }
  }

  /** Sorting does not change the total momentum. */
  lemma {:induction false} MomentumSort(s: seq<Cart>)
    ensures Momentum(SortCarts(s)) == Momentum(s)
  {
    if s != [] {
      MomentumSort(s[1..]);
      MomentumInsert(s[0], SortCarts(s[1..]));
    }
  }

  /** Replacing one cart changes the momentum by the difference of the two carts' momenta. */
  lemma {:induction false} MomentumReplace(t: seq<Cart>, i: int, c: Cart)
    requires 0 <= i < |t|
    ensures Momentum(t[i := c]) == Momentum(t) - CartMomentum(t[i]) + CartMomentum(c)
    decreases |t|
  {
    if i > 0 {
      MomentumReplace(t[1..], i - 1, c);
      assert t[i := c][1..] == t[1..][i - 1 := c];
    } else {
      assert t[i := c][1..] == t[1..];
    }
  }

  /** Carts with the same masses and velocities, index by index, have the same momentum. */
  lemma {:induction false} MomentumPointwise(a: seq<Cart>, b: seq<Cart>)
    requires |a| == |b|
    requires forall k :: 0 <= k < |a| ==> a[k].mass == b[k].mass && a[k].velocity == b[k].velocity
    ensures Momentum(a) == Momentum(b)
    decreases |a|
  {
    if a != [] {
      MomentumPointwise(a[1..], b[1..]);
    }
  }

  /** Applying the changes one after another adds to each cart the changes that target it. */
  lemma {:induction false} ShiftedPointwise(cs: seq<Cart>, u: seq<VelocityUpdate>)
    requires Targets(cs, u)
    ensures forall k :: 0 <= k < |cs| ==>
      Shifted(cs, u)[k] == cs[k].(velocity := cs[k].velocity + SumFor(u, k))
    decreases |u|
  {
    if u != [] {
      ShiftedPointwise(cs, u[..|u| - 1]);
    }
  }

  lemma {:induction false} ShiftedMass(cs: seq<Cart>, u: seq<VelocityUpdate>, k: int)
    requires Targets(cs, u) && 0 <= k < |cs|
    ensures Shifted(cs, u)[k].mass == cs[k].mass
  {
    ShiftedPointwise(cs, u);
  }

  lemma {:induction false} ShiftMomentum(t: seq<Cart>, x: VelocityUpdate)
    requires 0 <= x.cartId < |t|
    ensures Momentum(Shift(t, x)) == Momentum(t) + t[x.cartId].mass * x.delta
  {
    var id, c := x.cartId, t[x.cartId].(velocity := t[x.cartId].velocity + x.delta);
    assert Shift(t, x) == t[id := c];
    MomentumReplace(t, id, c);
  }

  /** The last change of u moves the momentum by the mass of its cart in cs times the change. */
  lemma {:induction false} ShiftedLast(cs: seq<Cart>, u: seq<VelocityUpdate>)
    requires Targets(cs, u) && u != []
    ensures Momentum(Shifted(cs, u)) ==
      Momentum(Shifted(cs, u[..|u| - 1])) + cs[u[|u| - 1].cartId].mass * u[|u| - 1].delta
  {
    var init, x := u[..|u| - 1], u[|u| - 1];
    var before := Shifted(cs, init);
    assert Shifted(cs, u) == Shift(before, x);
    ShiftedMass(cs, init, x.cartId);
    ShiftMomentum(before, x);
  }

  /** Applying the changes u moves the momentum by exactly their weighted sum. */
  lemma {:induction false} ShiftedMomentum(cs: seq<Cart>, u: seq<VelocityUpdate>)
    requires Targets(cs, u)
    ensures Momentum(Shifted(cs, u)) == Momentum(cs) + Weighted(cs, u)
    decreases |u|
  {
    if u != [] {
      var init, x := u[..|u| - 1], u[|u| - 1];
      ShiftedLast(cs, u);
      ShiftedMomentum(cs, init);
    }
  }

  lemma {:induction false} WeightedAppend(s: seq<Cart>, a: seq<VelocityUpdate>, b: seq<VelocityUpdate>)
    requires Targets(s, a) && Targets(s, b)
    ensures Targets(s, a + b)
    ensures Weighted(s, a + b) == Weighted(s, a) + Weighted(s, b)
    decreases |b|
  {
    if b != [] {
      assert (a + b)[..|a + b| - 1] == a + b[..|b| - 1];
      WeightedAppend(s, a, b[..|b| - 1]);
    } else {
      assert a + b == a;
    }
  }

  /** The two changes of one collision cancel in momentum. */
  lemma {:induction false} PairUpdatesBalanced(s: seq<Cart>, p: Pair)
    requires AllMassesPositive(s) && InRange(s, p)
    ensures Targets(s, PairUpdates(s, p))
    ensures Weighted(s, PairUpdates(s, p)) == 0.0
  {
    PairMomentumNeutral(s[p.0], s[p.1]);
    var u := PairUpdates(s, p);
    assert u[..1][..0] == [];
    assert Weighted(s, u[..1]) == s[p.0].mass * FirstDelta(s[p.0], s[p.1]);
    assert Weighted(s, u) == s[p.0].mass * FirstDelta(s[p.0], s[p.1]) + s[p.1].mass * SecondDelta(s[p.0], s[p.1]);
  }

  /** The changes of any batch of collisions cancel in momentum. */
  lemma {:induction false} UpdatesOfBalanced(s: seq<Cart>, order: seq<Pair>)
    requires AllMassesPositive(s) && forall j :: 0 <= j < |order| ==> InRange(s, order[j])
    ensures Targets(s, UpdatesOf(s, order))
    ensures Weighted(s, UpdatesOf(s, order)) == 0.0
    decreases |order|
  {
    if order != [] {
      var init, p := order[..|order| - 1], order[|order| - 1];
      UpdatesOfBalanced(s, init);
      PairUpdatesBalanced(s, p);
      WeightedAppend(s, UpdatesOf(s, init), PairUpdates(s, p));
    }
  }

  // ---------------------------------------------------------------------------
  // The step.
  // ---------------------------------------------------------------------------

  /** Cart k of the sorted list after its collision changes and the position pass. */
  function Collided(s: seq<Cart>, k: int, dt: real): Cart
    requires AllMassesPositive(s) && 0 <= k < |s|
  {
    Drift(s[k].(velocity := s[k].velocity + CollisionDelta(s, k)), dt)
  }

  lemma {:induction false} CollidedPointwise(s: seq<Cart>, updated: seq<Cart>, r: seq<Cart>, dt: real)
    requires AllMassesPositive(s) && |updated| == |s| && |r| == |s|
    requires forall k :: 0 <= k < |s| ==>
      updated[k] == s[k].(velocity := s[k].velocity + CollisionDelta(s, k))
    requires forall k :: 0 <= k < |r| ==> r[k] == Drift(updated[k], dt)
    ensures forall k :: 0 <= k < |r| ==> r[k] == Collided(s, k, dt)
  {
  }

  /** No collision is recorded among the sorted carts. */
  predicate NoCollision(s: seq<Cart>)
  {
    forall i :: 0 <= i < |s| ==> !LeftHit(s, i) && !RightHit(s, i)
  }

  /** Without a recorded collision no velocity changes. */
  lemma {:induction false} QuietStep(s: seq<Cart>, dt: real)
    requires AllMassesPositive(s) && NoCollision(s)
    ensures forall k :: 0 <= k < |s| ==> Collided(s, k, dt).velocity == s[k].velocity
  {
    forall k | 0 <= k < |s| ensures CollisionDelta(s, k) == 0.0 {
      assert !LeftHit(s, k) && !RightHit(s, k);
      if k > 0 {
        assert !RightHit(s, k - 1);
      }
      if k + 1 < |s| {
        assert !LeftHit(s, k + 1);
      }
    }
  }

  /**
   * `step(carts, dt)`: the result is the sorted input, index by index, with
   * the same mass and colour, velocity plus the recorded collisions' changes,
   * and position advanced with the new velocity; total momentum is kept.
   */
  method Step(carts: seq<Cart>, dt: real) returns (result: seq<Cart>)
    requires AllMassesPositive(carts)
    ensures |result| == |carts|
    ensures AllMassesPositive(SortCarts(carts))
    ensures forall k :: 0 <= k < |result| ==> result[k] == Collided(SortCarts(carts), k, dt)
    ensures NoCollision(SortCarts(carts)) ==>
      forall k :: 0 <= k < |result| ==> result[k].velocity == SortCarts(carts)[k].velocity
    ensures Momentum(result) == Momentum(carts)
  {
    var sorted := SortCarts(carts);
    SortKeepsMassesPositive(carts);
    var collisions := DetectCollisions(sorted);
    var updates;
    ghost var order;
    updates, order := CollisionUpdates(sorted, collisions);
    var updated := ApplyUpdates(sorted, updates);
    result := AdvancePositions(updated, dt);
    assert forall k :: 0 <= k < |sorted| ==>
      updated[k] == sorted[k].(velocity := sorted[k].velocity + CollisionDelta(sorted, k))
    by {
      forall k | 0 <= k < |sorted|
        ensures updated[k] == sorted[k].(velocity := sorted[k].velocity + CollisionDelta(sorted, k))
      {
        UpdatesSumToCollisionDelta(sorted, collisions, order, k);
      }
    }
    CollidedPointwise(sorted, updated, result, dt);
    if NoCollision(sorted) {
      QuietStep(sorted, dt);
    }
    assert Momentum(result) == Momentum(carts) by {
      UpdatesOfBalanced(sorted, order);
      ShiftedMomentum(sorted, updates);
      MomentumPointwise(result, updated);
      MomentumSort(carts);
    }
  }

  // ---------------------------------------------------------------------------
  // Two concrete two-cart steps (dt = 0.01, both carts of mass 1).
  // ---------------------------------------------------------------------------

  /**
   * Centres 1.0 apart with width 0.5 leave a gap of 0.5 between the edges:
   * although the carts approach each other, nothing is recorded, and the
   * step only moves them.
   */
  lemma SeparatedCartsDoNotCollide()
    ensures var c := Color(255, 0, 0);
      var s := [Cart(-1.0, 1.0, 1.0, c), Cart(0.0, 1.0, -1.0, c)];
      SortCarts(s) == s && NoCollision(s) &&
      Collided(s, 0, 0.01) == Cart(-0.99, 1.0, 1.0, c) &&
      Collided(s, 1, 0.01) == Cart(-0.01, 1.0, -1.0, c)
  {
    var c := Color(255, 0, 0);
    var s := [Cart(-1.0, 1.0, 1.0, c), Cart(0.0, 1.0, -1.0, c)];
    SortedUnique(SortCarts(s), s);
    assert !LeftHit(s, 1) && !RightHit(s, 0);
  }

  /**
   * Overlapping carts moving towards each other are recorded as (0, 1) and
   * as (1, 0); with equal masses they swap velocities.
   */
  lemma OverlappingCartsSwapVelocities()
    ensures var c := Color(0, 255, 0);
      var s := [Cart(-0.2, 1.0, 1.0, c), Cart(0.0, 1.0, -1.0, c)];
      SortCarts(s) == s && Recorded(s, (0, 1)) && Recorded(s, (1, 0)) &&
      Collided(s, 0, 0.01) == Cart(-0.21, 1.0, -1.0, c) &&
      Collided(s, 1, 0.01) == Cart(0.01, 1.0, 1.0, c)
  {
    var c := Color(0, 255, 0);
    var s := [Cart(-0.2, 1.0, 1.0, c), Cart(0.0, 1.0, -1.0, c)];
    SortedUnique(SortCarts(s), s);
    assert LeftHit(s, 1) && RightHit(s, 0);
    assert ComVelocity(s[0], s[1]) == 0.0 && ComVelocity(s[1], s[0]) == 0.0;
    assert CollisionDelta(s, 0) == -2.0;
    assert CollisionDelta(s, 1) == 2.0;
  }
}
