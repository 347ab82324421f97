/**
 * The state invariants of the ENVsql.py engine, stated on plain values so
 * that the engine's class can name each of them as one fact.
 */
module Invariants {
  import opened Common
  import opened Metrics
  import opened Modes
  import opened Prescheduling
  import opened Vip

  /** Every entry is bound for a floor of the building. */
  predicate DestsIn(ps: seq<Passenger>, numFloors: int) {
    forall p {:trigger p in ps} | p in ps :: IsFloor(p.dest, numFloors)
  }

  predicate QueueDestsIn(q: FloorQueue, numFloors: int) {
    DestsIn(q.up, numFloors) && DestsIn(q.down, numFloors)
  }

  /** Every car's load is its manifest's length, within capacity, all bound for floors. */
  predicate ManifestsValid(loads: seq<nat>, manifests: seq<seq<Passenger>>, numFloors: int) {
    && |loads| == |manifests|
    && (forall j | 0 <= j < |manifests| :: loads[j] == |manifests[j]| <= MaxCapacity)
    && (forall j | 0 <= j < |manifests| :: DestsIn(manifests[j], numFloors))
  }

  /** Every waiting passenger is bound for a floor. */
  predicate QueuesDestsIn(waiting: seq<FloorQueue>, numFloors: int) {
    forall f | 0 <= f < |waiting| :: QueueDestsIn(waiting[f], numFloors)
  }

  /** No open request or boarding lies in the future, and every recorded sample is non-negative. */
  predicate TimingsValid(requestTimes: map<int, int>, service: Ledger, waitTimes: seq<int>, clock: int) {
    && (forall f | f in requestTimes :: requestTimes[f] <= clock)
    && (forall k | k in service.open :: service.open[k] <= clock)
    && (forall j | 0 <= j < |waitTimes| :: waitTimes[j] >= 0)
    && (forall j | 0 <= j < |service.samples| :: service.samples[j] >= 0)
  }

  /** The VIP car is a car; VIP target and window floors are floors; the window opened in the past. */
  predicate VipStateValid(vipCar: Option<int>, vipTarget: Option<VipTarget>, window: Option<ReservationWindow>, clock: int, numElevators: int, numFloors: int) {
    && (vipCar.Some? ==> 0 <= vipCar.value < numElevators)
    && (vipTarget.Some? ==> IsFloor(vipTarget.value.entryFloor, numFloors) && IsFloor(vipTarget.value.destinationFloor, numFloors))
    && (window.Some? ==>
          && IsFloor(window.value.reservation.entryFloor, numFloors)
          && IsFloor(window.value.reservation.destinationFloor, numFloors)
          && window.value.start <= clock)
  }

  /** Pre-schedule and maintenance state refer to floors, and maintenance started in the past. */
  predicate ScheduleStateValid(targets: map<int, int>, preschedule: Option<Prediction>, preSchedule: map<int, Prediction>, maintenance: Option<MaintenanceWindow>, clock: int, numFloors: int) {
    && (forall k | k in targets :: IsFloor(targets[k], numFloors))
    && (preschedule.Some? ==> IsFloor(preschedule.value.floor, numFloors))
    && (forall k | k in preSchedule :: IsFloor(preSchedule[k].floor, numFloors))
    && (maintenance.Some? ==> maintenance.value.start <= clock)
  }

  /** Every car is on a floor. */
  predicate PositionsIn(positions: seq<int>, numFloors: int) {
    forall j | 0 <= j < |positions| :: IsFloor(positions[j], numFloors)
  }

  /**
   * The invariant shared by both engines, on their state values: F floors
   * and E cars with one position, load and manifest per car and one queue
   * pair per floor; every car on a floor, loads matching manifests within
   * capacity, and every passenger bound for a floor.
   */
  predicate DispatchValid(numFloors: int, numElevators: int, positions: seq<int>, loads: seq<nat>, manifests: seq<seq<Passenger>>, waiting: seq<FloorQueue>)
  {
    && numFloors >= 1 && numElevators >= 1
    && |positions| == numElevators && |loads| == numElevators && |manifests| == numElevators
    && |waiting| == numFloors
    && PositionsIn(positions, numFloors)
    && ManifestsValid(loads, manifests, numFloors)
    && QueuesDestsIn(waiting, numFloors)
  }
}
