/**
 * The read-only routing queries of the dispatch engine. Each returns a
 * floor delta in {-1, 0, +1} for one car and changes nothing.
 *
 * nearest_car_scan and move_to_passenger_destination are the same code in
 * ENV.py and ENVsql.py and are defined once here. Python's
 * min(floors, key=distance) over ascending floors and the strict "<" scan of
 * nearest_car_scan both keep the lowest floor among equally near ones, so one
 * function, NearestWaitingFloor, stands for both.
 */
module Routing {
  import opened Common

  /** Floor f (1-based) exists and has a passenger waiting in either direction. */
  predicate WaitingAt(waiting: seq<FloorQueue>, f: int) {
    1 <= f <= |waiting| && waiting[f - 1].HasWaiting()
  }

  predicate AnyWaiting(waiting: seq<FloorQueue>) {
    exists f | 1 <= f <= |waiting| :: WaitingAt(waiting, f)
  }

  /**
   * n is a waiting floor below `limit`, no farther from cur than any waiting
   * floor below `limit`, and strictly nearer than every lower waiting floor.
   */
  ghost predicate IsNearestBelow(waiting: seq<FloorQueue>, cur: int, n: int, limit: int) {
    && n < limit
    && WaitingAt(waiting, n)
    && (forall g | 1 <= g < limit && WaitingAt(waiting, g) :: Abs(n - cur) <= Abs(g - cur))
    && (forall g | 1 <= g < n && WaitingAt(waiting, g) :: Abs(n - cur) < Abs(g - cur))
  }

  /** n is the nearest floor with waiting passengers, the lowest one on ties. */
  ghost predicate IsNearestWaiting(waiting: seq<FloorQueue>, cur: int, n: int) {
    IsNearestBelow(waiting, cur, n, |waiting| + 1)
  }

  /** At most one floor is the nearest waiting floor. */
  lemma NearestWaitingUnique(waiting: seq<FloorQueue>, cur: int, n1: int, n2: int)
    requires IsNearestWaiting(waiting, cur, n1) && IsNearestWaiting(waiting, cur, n2)
    ensures n1 == n2
  {
  }

  /**
   * The floor loop of nearest_car_scan from floor f upwards, `best` being the
   * nearest waiting floor found among floors 1..f-1 (None stands for the
   * float('inf') sentinel).
   */
  function ScanNearest(waiting: seq<FloorQueue>, cur: int, f: int, best: Option<int>): Option<int>
    requires 1 <= f <= |waiting| + 1
    decreases |waiting| + 1 - f
  {
    if f > |waiting| then best
    else if waiting[f - 1].HasWaiting() && (best.None? || Abs(f - cur) < Abs(best.value - cur)) then
      ScanNearest(waiting, cur, f + 1, Some(f))
    else
      ScanNearest(waiting, cur, f + 1, best)
  }

  lemma {:induction false} ScanNearestCorrect(waiting: seq<FloorQueue>, cur: int, f: int, best: Option<int>)
    requires 1 <= f <= |waiting| + 1
    requires best.None? ==> forall g | 1 <= g < f :: !WaitingAt(waiting, g)
    requires best.Some? ==> IsNearestBelow(waiting, cur, best.value, f)
    ensures ScanNearest(waiting, cur, f, best).None? <==> !AnyWaiting(waiting)
    ensures ScanNearest(waiting, cur, f, best).Some? ==>
              IsNearestWaiting(waiting, cur, ScanNearest(waiting, cur, f, best).value)
    decreases |waiting| + 1 - f
  {
    if f <= |waiting| {
      if waiting[f - 1].HasWaiting() && (best.None? || Abs(f - cur) < Abs(best.value - cur)) {
        assert WaitingAt(waiting, f);
        ScanNearestCorrect(waiting, cur, f + 1, Some(f));
      } else {
        ScanNearestCorrect(waiting, cur, f + 1, best);
      }
    } else if best.Some? {
      assert WaitingAt(waiting, best.value);
    }
  }

  /** The nearest floor with waiting passengers (lowest on ties), or None. */
  function NearestWaitingFloor(waiting: seq<FloorQueue>, cur: int): (r: Option<int>)
    ensures r.None? <==> !AnyWaiting(waiting)
    ensures r.Some? ==> IsNearestWaiting(waiting, cur, r.value)
  {
    ScanNearestCorrect(waiting, cur, 1, None);
    ScanNearest(waiting, cur, 1, None)
  }

  /**
   * nearest_car_scan: one floor toward the nearest floor with waiting
   * passengers (lowest on ties); 0 when nobody waits or the car is there.
   */
  function NearestCarScan(waiting: seq<FloorQueue>, cur: int): (r: int)
    ensures -1 <= r <= 1
    ensures !AnyWaiting(waiting) ==> r == 0
    ensures forall n | IsNearestWaiting(waiting, cur, n) :: r == Sign(n - cur)
    ensures IsFloor(cur, |waiting|) ==> IsFloor(cur + r, |waiting|)
  {
    match NearestWaitingFloor(waiting, cur)
    case None => 0
    case Some(n) =>
      assert forall m | IsNearestWaiting(waiting, cur, m) :: m == n by {
        forall m | IsNearestWaiting(waiting, cur, m) ensures m == n {
          NearestWaitingUnique(waiting, cur, m, n);
        }
      }
      Sign(n - cur)
  }

  /** Some car other than i is strictly closer to floor c than car i. */
  predicate CloserCarExists(positions: seq<int>, i: int, c: int)
    requires 0 <= i < |positions|
  {
    exists j | 0 <= j < |positions| :: j != i && Abs(c - positions[j]) < Abs(c - positions[i])
  }

  /** Some car other than i carries passengers. */
  predicate OtherCarLoaded(loads: seq<nat>, i: int) {
    exists j | 0 <= j < |loads| :: j != i && loads[j] > 0
  }

  /**
   * energy_efficient_routing (ENVsql.py): car i heads for its nearest waiting
   * floor unless another car is strictly closer to that floor.
   */
  function EnergyEfficientRouting(positions: seq<int>, waiting: seq<FloorQueue>, i: int): (r: int)
    requires 0 <= i < |positions|
    ensures -1 <= r <= 1
    ensures !AnyWaiting(waiting) ==> r == 0
    ensures forall n | IsNearestWaiting(waiting, positions[i], n) ::
              if CloserCarExists(positions, i, n) then r == 0 else r == Sign(n - positions[i])
    ensures IsFloor(positions[i], |waiting|) ==> IsFloor(positions[i] + r, |waiting|)
  {
    match NearestWaitingFloor(waiting, positions[i])
    case None => 0
    case Some(c) =>
      assert forall m | IsNearestWaiting(waiting, positions[i], m) :: m == c by {
        forall m | IsNearestWaiting(waiting, positions[i], m) ensures m == c {
          NearestWaitingUnique(waiting, positions[i], m, c);
        }
      }
      if CloserCarExists(positions, i, c) then 0 else Sign(c - positions[i])
  }

  /**
   * energy_efficient_routing_best: as EnergyEfficientRouting, but car i also
   * stays idle whenever any other car carries passengers.
   */
  function EnergyEfficientRoutingBest(positions: seq<int>, loads: seq<nat>, waiting: seq<FloorQueue>, i: int): (r: int)
    requires 0 <= i < |positions| && |loads| == |positions|
    ensures -1 <= r <= 1
    ensures !AnyWaiting(waiting) ==> r == 0
    ensures OtherCarLoaded(loads, i) ==> r == 0
    ensures !OtherCarLoaded(loads, i) ==> r == EnergyEfficientRouting(positions, waiting, i)
    ensures IsFloor(positions[i], |waiting|) ==> IsFloor(positions[i] + r, |waiting|)
  {
    match NearestWaitingFloor(waiting, positions[i])
    case None => 0
    case Some(c) =>
      if OtherCarLoaded(loads, i) then 0
      else if CloserCarExists(positions, i, c) then 0
      else Sign(c - positions[i])
  }

  /**
   * b is an eligible car no farther from target than any eligible car, and
   * strictly nearer than every eligible car of lower index.
   */
  ghost predicate IsFirstNearestCar(positions: seq<int>, eligible: seq<bool>, target: int, b: int)
    requires |eligible| == |positions|
  {
    && 0 <= b < |positions|
    && eligible[b]
    && (forall j | 0 <= j < |positions| && eligible[j] :: Abs(target - positions[b]) <= Abs(target - positions[j]))
    && (forall j | 0 <= j < b && eligible[j] :: Abs(target - positions[b]) < Abs(target - positions[j]))
  }

  /** The same for the cars 0..limit-1 only. */
  ghost predicate IsFirstNearestCarBelow(positions: seq<int>, eligible: seq<bool>, target: int, b: int, limit: int)
    requires |eligible| == |positions| && limit <= |positions|
  {
    && 0 <= b < limit
    && eligible[b]
    && (forall j | 0 <= j < limit && eligible[j] :: Abs(target - positions[b]) <= Abs(target - positions[j]))
    && (forall j | 0 <= j < b && eligible[j] :: Abs(target - positions[b]) < Abs(target - positions[j]))
  }

  /**
   * The car loop shared by dynamic_assign_routing, assign_vip_elevator and the
   * DYNAMIC-ASSIGN test of detect_elevator_mode: from car j on, keep the first
   * eligible car strictly nearer to target than the best so far.
   */
  function ScanCars(positions: seq<int>, eligible: seq<bool>, target: int, j: int, best: Option<int>): Option<int>
    requires |eligible| == |positions| && 0 <= j <= |positions|
    requires best.Some? ==> 0 <= best.value < j
    decreases |positions| - j
  {
    if j == |positions| then best
    else if eligible[j] && (best.None? || Abs(target - positions[j]) < Abs(target - positions[best.value])) then
      ScanCars(positions, eligible, target, j + 1, Some(j))
    else
      ScanCars(positions, eligible, target, j + 1, best)
  }

  lemma {:induction false} ScanCarsCorrect(positions: seq<int>, eligible: seq<bool>, target: int, j: int, best: Option<int>)
    requires |eligible| == |positions| && 0 <= j <= |positions|
    requires best.None? ==> forall k | 0 <= k < j :: !eligible[k]
    requires best.Some? ==> IsFirstNearestCarBelow(positions, eligible, target, best.value, j)
    ensures ScanCars(positions, eligible, target, j, best).None? <==> forall k | 0 <= k < |positions| :: !eligible[k]
    ensures ScanCars(positions, eligible, target, j, best).Some? ==>
              IsFirstNearestCar(positions, eligible, target, ScanCars(positions, eligible, target, j, best).value)
    decreases |positions| - j
  {
    if j < |positions| {
      if eligible[j] && (best.None? || Abs(target - positions[j]) < Abs(target - positions[best.value])) {
        ScanCarsCorrect(positions, eligible, target, j + 1, Some(j));
      } else {
        ScanCarsCorrect(positions, eligible, target, j + 1, best);
      }
    }
  }

  /** The eligible car nearest to target, lowest index on ties; None if no car is eligible. */
  function FirstNearestCar(positions: seq<int>, eligible: seq<bool>, target: int): (r: Option<int>)
    requires |eligible| == |positions|
    ensures r.None? <==> forall k | 0 <= k < |positions| :: !eligible[k]
    ensures r.Some? ==> IsFirstNearestCar(positions, eligible, target, r.value)
  {
    ScanCarsCorrect(positions, eligible, target, 0, None);
    ScanCars(positions, eligible, target, 0, None)
  }

  /** At most one car is the first nearest eligible car. */
  lemma FirstNearestCarUnique(positions: seq<int>, eligible: seq<bool>, target: int, b1: int, b2: int)
    requires |eligible| == |positions|
    requires IsFirstNearestCar(positions, eligible, target, b1) && IsFirstNearestCar(positions, eligible, target, b2)
    ensures b1 == b2
  {
  }

  /** Cars with no passengers (load == 0). */
  function IdleMask(loads: seq<nat>): (m: seq<bool>)
    ensures |m| == |loads|
    ensures forall j | 0 <= j < |loads| :: m[j] == (loads[j] == 0)
  {
    seq(|loads|, j requires 0 <= j < |loads| => loads[j] == 0)
  }

  /** Cars carrying passengers (load > 0). */
  function LoadedMask(loads: seq<nat>): (m: seq<bool>)
    ensures |m| == |loads|
    ensures forall j | 0 <= j < |loads| :: m[j] == (loads[j] > 0)
  {
    seq(|loads|, j requires 0 <= j < |loads| => loads[j] > 0)
  }

  /**
   * dynamic_assign_routing: car i heads for its nearest waiting floor only if
   * it is, among the idle cars, the one nearest to that floor (lowest index
   * on ties); every other car stays.
   */
  function DynamicAssignRouting(positions: seq<int>, loads: seq<nat>, waiting: seq<FloorQueue>, i: int): (r: int)
    requires 0 <= i < |positions| && |loads| == |positions|
    ensures -1 <= r <= 1
    ensures !AnyWaiting(waiting) ==> r == 0
    ensures r != 0 ==> loads[i] == 0
    ensures forall n | IsNearestWaiting(waiting, positions[i], n) ::
              if IsFirstNearestCar(positions, IdleMask(loads), n, i) then r == Sign(n - positions[i]) else r == 0
    ensures IsFloor(positions[i], |waiting|) ==> IsFloor(positions[i] + r, |waiting|)
  {
    match NearestWaitingFloor(waiting, positions[i])
    case None => 0
    case Some(c) =>
      var best := FirstNearestCar(positions, IdleMask(loads), c);
      assert forall m | IsNearestWaiting(waiting, positions[i], m) :: m == c by {
        forall m | IsNearestWaiting(waiting, positions[i], m) ensures m == c {
          NearestWaitingUnique(waiting, positions[i], m, c);
        }
      }
      assert IsFirstNearestCar(positions, IdleMask(loads), c, i) ==> best == Some(i) by {
        if IsFirstNearestCar(positions, IdleMask(loads), c, i) {
          FirstNearestCarUnique(positions, IdleMask(loads), c, i, best.value);
        }
      }
      if best == Some(i) then Sign(c - positions[i]) else 0
  }

  /**
   * k is the manifest entry whose destination is nearest to cur, the first
   * such entry on ties (Python's min keeps the first minimum).
   */
  ghost predicate IsFirstNearestDest(manifest: seq<Passenger>, cur: int, k: int) {
    && 0 <= k < |manifest|
    && (forall j | 0 <= j < |manifest| :: Abs(manifest[k].dest - cur) <= Abs(manifest[j].dest - cur))
    && (forall j | 0 <= j < k :: Abs(manifest[k].dest - cur) < Abs(manifest[j].dest - cur))
  }

  /**
   * min's scan over the first n destinations: the running minimum is
   * replaced only by a strictly nearer entry, so the first nearest one wins.
   */
  function NearestDestinationAmong(manifest: seq<Passenger>, cur: int, n: nat): (k: nat)
    requires 0 < n <= |manifest|
    ensures k < n
  {
    if n == 1 then 0
    else
      var b := NearestDestinationAmong(manifest, cur, n - 1);
      if Abs(manifest[n - 1].dest - cur) < Abs(manifest[b].dest - cur) then n - 1 else b
  }

  /**
   * min's scan over the first n destinations keeps the first nearest one:
   * the running minimum is replaced only by a strictly nearer entry.
   */
  lemma {:induction false} NearestDestinationAmongFirst(manifest: seq<Passenger>, cur: int, n: nat)
    requires 0 < n <= |manifest|
    ensures var k := NearestDestinationAmong(manifest, cur, n);
            && (forall j | 0 <= j < n :: Abs(manifest[k].dest - cur) <= Abs(manifest[j].dest - cur))
            && (forall j | 0 <= j < k :: Abs(manifest[k].dest - cur) < Abs(manifest[j].dest - cur))
  {
    if n > 1 {
      NearestDestinationAmongFirst(manifest, cur, n - 1);
    }
  }

  /** The index of min(destinations, key=lambda x: abs(x - cur)). */
  function NearestDestinationIndex(manifest: seq<Passenger>, cur: int): (k: nat)
    requires manifest != []
    ensures k < |manifest|
  {
    NearestDestinationAmong(manifest, cur, |manifest|)
  }

  /** The index min finds is the first entry whose destination is nearest to cur. */
  lemma NearestDestinationIndexFirst(manifest: seq<Passenger>, cur: int)
    requires manifest != []
    ensures IsFirstNearestDest(manifest, cur, NearestDestinationIndex(manifest, cur))
  {
    NearestDestinationAmongFirst(manifest, cur, |manifest|);
  }

  /**
   * move_to_passenger_destination: with nobody aboard the car stays; otherwise
   * it moves one floor toward the nearest destination on board (the first
   * one on ties).
   */
  function MoveToPassengerDestination(manifest: seq<Passenger>, cur: int): (r: int)
    ensures -1 <= r <= 1
    ensures manifest == [] ==> r == 0
  {
    if manifest == [] then 0
    else
      var k := NearestDestinationIndex(manifest, cur);
      Sign(manifest[k].dest - cur)
  }

  /** With passengers aboard, the move is the sign toward the first nearest destination. */
  lemma MoveToPassengerDestinationToward(manifest: seq<Passenger>, cur: int, k: int)
    requires IsFirstNearestDest(manifest, cur, k)
    ensures MoveToPassengerDestination(manifest, cur) == Sign(manifest[k].dest - cur)
  {
    NearestDestinationIndexFirst(manifest, cur);
  }

  /** A car whose passengers all go to existing floors never leaves the building. */
  lemma MoveToPassengerDestinationInside(manifest: seq<Passenger>, cur: int, numFloors: int)
    requires IsFloor(cur, numFloors)
    requires forall p | p in manifest :: IsFloor(p.dest, numFloors)
    ensures IsFloor(cur + MoveToPassengerDestination(manifest, cur), numFloors)
  {
    if manifest != [] {
      var k := NearestDestinationIndex(manifest, cur);
      assert manifest[k] in manifest;
      SignStaysBetween(cur, manifest[k].dest, numFloors);
    }
  }

  /**
   * A car that moves under move_to_passenger_destination gets one floor
   * closer to the nearest destination on board.
   */
  lemma MoveToPassengerDestinationCloser(manifest: seq<Passenger>, cur: int, k: int)
    requires IsFirstNearestDest(manifest, cur, k)
    requires MoveToPassengerDestination(manifest, cur) != 0
    ensures Abs(cur + MoveToPassengerDestination(manifest, cur) - manifest[k].dest) == Abs(cur - manifest[k].dest) - 1
  {
    MoveToPassengerDestinationToward(manifest, cur, k);
  }
}
