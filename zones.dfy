/**
 * The routing of the ENV.py engine that ENVsql.py does not share: zone
 * routing (energy_efficient_routing) and the per-car decision of step
 * between carrying passengers, the nearest-car scan and zone routing.
 */
module Zones {
  import opened Common
  import opened Routing
  import opened Invariants

  // ----- Zone routing (energy_efficient_routing, 228-241) -----

  /** The first floor of car i's zone: zone i % 3 + 1, each F div E floors wide. */
  function ZoneStart(i: int, numFloors: int, numElevators: int): int
    requires numElevators >= 1
  {
    (i % 3) * (numFloors / numElevators) + 1
  }

  /** The last floor of car i's zone (below ZoneStart when F < E: an empty zone). */
  function ZoneEnd(i: int, numFloors: int, numElevators: int): int
    requires numElevators >= 1
  {
    (i % 3 + 1) * (numFloors / numElevators)
  }

  lemma MulMono(a: int, b: int, c: int)
    requires a <= b && c >= 0
    ensures a * c <= b * c
  {
  }

  /** Every car's zone lies inside the building, so the scan never asks for a missing floor. */
  lemma ZoneInside(i: int, numFloors: int, numElevators: int)
    requires 0 <= i < numElevators && numFloors >= 0
    ensures 1 <= ZoneStart(i, numFloors, numElevators)
    ensures ZoneEnd(i, numFloors, numElevators) <= numFloors
  {
    var w := numFloors / numElevators;
    assert w >= 0;
    MulMono(0, i % 3, w);
    assert i % 3 + 1 <= numElevators;
    MulMono(i % 3 + 1, numElevators, w);
    assert numElevators * w <= numFloors;
  }

  /** Cars whose indices differ modulo 3 have disjoint zones. */
  lemma ZonesDisjoint(i: int, j: int, numFloors: int, numElevators: int, g: int)
    requires 0 <= i && 0 <= j && numElevators >= 1 && numFloors >= 0
    requires i % 3 != j % 3
    requires ZoneStart(i, numFloors, numElevators) <= g <= ZoneEnd(i, numFloors, numElevators)
    ensures !(ZoneStart(j, numFloors, numElevators) <= g <= ZoneEnd(j, numFloors, numElevators))
  {
    var w := numFloors / numElevators;
    if i % 3 < j % 3 {
      MulMono(i % 3 + 1, j % 3, w);
    } else {
      MulMono(j % 3 + 1, i % 3, w);
    }
  }

  /**
   * Floors above Min(E, 3) * (F div E) are in nobody's zone: outside rush
   * time an idle car never heads for them.
   */
  lemma UnzonedFloors(numFloors: int, numElevators: int, g: int, i: int)
    requires numElevators >= 1 && numFloors >= 0 && 0 <= i < numElevators
    requires Min(numElevators, 3) * (numFloors / numElevators) < g
    ensures g > ZoneEnd(i, numFloors, numElevators)
  {
    var w := numFloors / numElevators;
    assert w >= 0;
    assert i % 3 + 1 <= Min(numElevators, 3);
    MulMono(i % 3 + 1, Min(numElevators, 3), w);
  }

  /** g is the lowest floor in lo..hi with passengers waiting. */
  ghost predicate IsFirstWaitingIn(waiting: seq<FloorQueue>, lo: int, hi: int, g: int) {
    && lo <= g <= hi
    && WaitingAt(waiting, g)
    && forall h | lo <= h < g :: !WaitingAt(waiting, h)
  }

  /** The upward scan over floors lo..hi: the first one with passengers waiting. */
  function FirstWaitingFrom(waiting: seq<FloorQueue>, lo: int, hi: int): (r: Option<int>)
    requires 1 <= lo && hi <= |waiting|
    ensures r.None? <==> forall g | lo <= g <= hi :: !WaitingAt(waiting, g)
    ensures r.Some? ==> IsFirstWaitingIn(waiting, lo, hi, r.value)
    decreases hi - lo
  {
    if lo > hi then None
    else if waiting[lo - 1].HasWaiting() then assert WaitingAt(waiting, lo); Some(lo)
    else FirstWaitingFrom(waiting, lo + 1, hi)
  }

  /** At most one floor is the first waiting floor of a range. */
  lemma FirstWaitingUnique(waiting: seq<FloorQueue>, lo: int, hi: int, g1: int, g2: int)
    requires IsFirstWaitingIn(waiting, lo, hi, g1) && IsFirstWaitingIn(waiting, lo, hi, g2)
    ensures g1 == g2
  {
  }

  /**
   * energy_efficient_routing of ENV.py for car i, standing at cur, with E
   * cars and F = |waiting| floors: one floor toward the lowest floor of the
   * car's zone with passengers waiting; 0 when nobody waits in the zone.
   */
  function ZoneRouting(cur: int, numElevators: int, waiting: seq<FloorQueue>, i: int): (r: int)
    requires 0 <= i < numElevators
    ensures -1 <= r <= 1
    ensures (forall g | ZoneStart(i, |waiting|, numElevators) <= g <= ZoneEnd(i, |waiting|, numElevators) :: !WaitingAt(waiting, g)) ==> r == 0
    ensures forall g | IsFirstWaitingIn(waiting, ZoneStart(i, |waiting|, numElevators), ZoneEnd(i, |waiting|, numElevators), g) ::
              r == Sign(g - cur)
    ensures IsFloor(cur, |waiting|) ==> IsFloor(cur + r, |waiting|)
  {
    var lo := ZoneStart(i, |waiting|, numElevators);
    var hi := ZoneEnd(i, |waiting|, numElevators);
    ZoneInside(i, |waiting|, numElevators);
    match FirstWaitingFrom(waiting, lo, hi)
    case None => 0
    case Some(g) =>
      assert forall h | IsFirstWaitingIn(waiting, lo, hi, h) :: h == g by {
        forall h | IsFirstWaitingIn(waiting, lo, hi, h) ensures h == g {
          FirstWaitingUnique(waiting, lo, hi, h, g);
        }
      }
      assert IsFloor(cur, |waiting|) ==> IsFloor(cur + Sign(g - cur), |waiting|) by {
        if IsFloor(cur, |waiting|) {
          SignStaysBetween(cur, g, |waiting|);
        }
      }
      Sign(g - cur)
  }

  /** Zone routing reads the queues of the car's zone only: what waits elsewhere does not change it. */
  lemma ZoneRoutingLocal(cur: int, numElevators: int, waiting: seq<FloorQueue>, waiting': seq<FloorQueue>, i: int)
    requires 0 <= i < numElevators && |waiting'| == |waiting|
    requires forall g | ZoneStart(i, |waiting|, numElevators) <= g <= ZoneEnd(i, |waiting|, numElevators) ::
               WaitingAt(waiting, g) == WaitingAt(waiting', g)
    ensures ZoneRouting(cur, numElevators, waiting, i) == ZoneRouting(cur, numElevators, waiting', i)
  {
    var lo := ZoneStart(i, |waiting|, numElevators);
    var hi := ZoneEnd(i, |waiting|, numElevators);
    ZoneInside(i, |waiting|, numElevators);
    var r := FirstWaitingFrom(waiting, lo, hi);
    if r.Some? {
      assert IsFirstWaitingIn(waiting', lo, hi, r.value);
    }
  }

  // ----- The per-car decision of step (102-106) -----

  /**
   * The move of car i: toward the nearest destination on board when it
   * carries passengers, else the nearest-car scan in rush time and zone
   * routing otherwise.
   */
  function CarMove(rush: bool, load: nat, manifest: seq<Passenger>, cur: int, numElevators: int, waiting: seq<FloorQueue>, i: int): (r: int)
    requires 0 <= i < numElevators
    ensures -1 <= r <= 1
  {
    if load > 0 then MoveToPassengerDestination(manifest, cur)
    else if rush then NearestCarScan(waiting, cur)
    else ZoneRouting(cur, numElevators, waiting, i)
  }

  /**
   * Every branch of the decision keeps a car on a floor when the passengers
   * it carries are bound for floors, so the bounds test of step always
   * passes and the stop is always at an existing floor.
   */
  lemma CarMoveInside(rush: bool, load: nat, manifest: seq<Passenger>, cur: int, numElevators: int, waiting: seq<FloorQueue>, i: int)
    requires 0 <= i < numElevators && IsFloor(cur, |waiting|)
    requires DestsIn(manifest, |waiting|)
    ensures IsFloor(cur + CarMove(rush, load, manifest, cur, numElevators, waiting, i), |waiting|)
  {
    if load > 0 {
      MoveToPassengerDestinationInside(manifest, cur, |waiting|);
    }
  }
}
