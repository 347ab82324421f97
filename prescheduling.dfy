/**
 * Pre-scheduling (ENVsql.py): at a predicted peak, idle cars are sent to the
 * predicted floor, as many as the prediction asks for, chosen in car-index
 * order among those neither loaded nor already arrived.
 */
module Prescheduling {
  import opened Common
  import opened Routing

  /** One pre_schedule entry (its key is the schedule time): target floor and number of cars. */
  datatype Prediction = Prediction(floor: int, numElevators: int)

  /** Car j may be sent: it has not arrived yet and carries nobody. */
  predicate MayAssign(arrived: set<int>, loads: seq<nat>, j: int)
    requires 0 <= j < |loads|
  {
    j !in arrived && loads[j] == 0
  }

  /**
   * The assignment loop (ENVsql.py:414-424) from car j on: stop once the
   * targets reach the required count, otherwise give the next assignable car
   * without a target the prediction's floor.
   */
  function AssignFrom(targets: map<int, int>, arrived: set<int>, loads: seq<nat>, floor: int, required: int, j: nat): map<int, int>
    requires j <= |loads|
    decreases |loads| - j
  {
    if j == |loads| || |targets| >= required then targets
    else if MayAssign(arrived, loads, j) && j !in targets then
      AssignFrom(targets[j := floor], arrived, loads, floor, required, j + 1)
    else
      AssignFrom(targets, arrived, loads, floor, required, j + 1)
  }

  /** Existing targets are kept, with their floors. */
  lemma {:induction false} AssignFromKeeps(targets: map<int, int>, arrived: set<int>, loads: seq<nat>, floor: int, required: int, j: nat)
    requires j <= |loads|
    ensures forall k | k in targets :: k in AssignFrom(targets, arrived, loads, floor, required, j)
                                       && AssignFrom(targets, arrived, loads, floor, required, j)[k] == targets[k]
    decreases |loads| - j
  {
    if j < |loads| && |targets| < required {
      if MayAssign(arrived, loads, j) && j !in targets {
        AssignFromKeeps(targets[j := floor], arrived, loads, floor, required, j + 1);
      } else {
        AssignFromKeeps(targets, arrived, loads, floor, required, j + 1);
      }
    }
  }

  /** Every new target is an assignable car from j on, sent to the prediction's floor. */
  lemma {:induction false} AssignFromNew(targets: map<int, int>, arrived: set<int>, loads: seq<nat>, floor: int, required: int, j: nat)
    requires j <= |loads|
    ensures forall k | k in AssignFrom(targets, arrived, loads, floor, required, j) && k !in targets ::
              && j <= k < |loads|
              && MayAssign(arrived, loads, k)
              && AssignFrom(targets, arrived, loads, floor, required, j)[k] == floor
    decreases |loads| - j
  {
    if j < |loads| && |targets| < required {
      if MayAssign(arrived, loads, j) && j !in targets {
        AssignFromNew(targets[j := floor], arrived, loads, floor, required, j + 1);
        AssignFromKeeps(targets[j := floor], arrived, loads, floor, required, j + 1);
      } else {
        AssignFromNew(targets, arrived, loads, floor, required, j + 1);
      }
    }
  }

  /**
   * Cars are chosen in index order: a car gets a new target only if every
   * assignable car before it (from j on) has one too.
   */
  lemma {:induction false} AssignFromAddsInOrder(targets: map<int, int>, arrived: set<int>, loads: seq<nat>, floor: int, required: int, j: nat)
    requires j <= |loads|
    ensures forall k, k' | k in AssignFrom(targets, arrived, loads, floor, required, j) && k !in targets && j <= k' < k < |loads| && MayAssign(arrived, loads, k') ::
              k' in AssignFrom(targets, arrived, loads, floor, required, j)
    decreases |loads| - j
  {
    if j < |loads| && |targets| < required {
      var t := if MayAssign(arrived, loads, j) && j !in targets then targets[j := floor] else targets;
      var r := AssignFrom(t, arrived, loads, floor, required, j + 1);
      assert AssignFrom(targets, arrived, loads, floor, required, j) == r;
      AssignFromAddsInOrder(t, arrived, loads, floor, required, j + 1);
      AssignFromKeeps(t, arrived, loads, floor, required, j + 1);
      forall k, k' | k in r && k !in targets && j <= k' < k < |loads| && MayAssign(arrived, loads, k')
        ensures k' in r
      {
        if k' == j {
          assert j in t;
        } else {
          assert k !in t;
        }
      }
    }
  }

  /**
   * The loop never takes the target count past the requirement: it only
   * runs while short of it, one target at a time.
   */
  lemma {:induction false} AssignFromBounded(targets: map<int, int>, arrived: set<int>, loads: seq<nat>, floor: int, required: int, j: nat)
    requires j <= |loads|
    ensures |targets| >= required ==> AssignFrom(targets, arrived, loads, floor, required, j) == targets
    ensures |targets| < required ==> |AssignFrom(targets, arrived, loads, floor, required, j)| <= required
    decreases |loads| - j
  {
    if j < |loads| && |targets| < required {
      if MayAssign(arrived, loads, j) && j !in targets {
        assert |targets[j := floor]| == |targets| + 1;
        AssignFromBounded(targets[j := floor], arrived, loads, floor, required, j + 1);
      } else {
        AssignFromBounded(targets, arrived, loads, floor, required, j + 1);
      }
    }
  }

  /** The loop stops short of the requirement only when every assignable car from j on has a target. */
  lemma {:induction false} AssignFromFills(targets: map<int, int>, arrived: set<int>, loads: seq<nat>, floor: int, required: int, j: nat)
    requires j <= |loads|
    ensures |AssignFrom(targets, arrived, loads, floor, required, j)| < required ==>
              forall k | j <= k < |loads| && MayAssign(arrived, loads, k) :: k in AssignFrom(targets, arrived, loads, floor, required, j)
    decreases |loads| - j
  {
    if j < |loads| && |targets| < required {
      if MayAssign(arrived, loads, j) && j !in targets {
        AssignFromFills(targets[j := floor], arrived, loads, floor, required, j + 1);
        AssignFromKeeps(targets[j := floor], arrived, loads, floor, required, j + 1);
      } else {
        AssignFromFills(targets, arrived, loads, floor, required, j + 1);
        AssignFromKeeps(targets, arrived, loads, floor, required, j + 1);
      }
    }
  }

  /**
   * handle_preschedule_routing's move (ENVsql.py:510-523): a car with a
   * target heads one floor toward it and stays once there; a car without one
   * follows energy_efficient_routing.
   */
  function PrescheduleRouting(positions: seq<int>, targets: map<int, int>, waiting: seq<FloorQueue>, i: int): (r: int)
    requires 0 <= i < |positions|
    ensures -1 <= r <= 1
    ensures i in targets && positions[i] != targets[i] ==> Abs(positions[i] + r - targets[i]) == Abs(positions[i] - targets[i]) - 1
    ensures i in targets && positions[i] == targets[i] ==> r == 0
    ensures i !in targets ==> r == EnergyEfficientRouting(positions, waiting, i)
    ensures IsFloor(positions[i], |waiting|) && (i in targets ==> IsFloor(targets[i], |waiting|)) ==> IsFloor(positions[i] + r, |waiting|)
  {
    if i in targets then Sign(targets[i] - positions[i]) else EnergyEfficientRouting(positions, waiting, i)
  }
}
