/**
 * Operating-mode selection. ENVsql.py picks one of eight modes from a fixed
 * priority chain (detect_elevator_mode); ENV.py only tells rush time from
 * non-rush time by counting five threshold conditions (detect_rush_time).
 */
module Modes {
  import opened Common
  import opened Routing

  datatype Mode = Normal | Rush | EnergySaving | DynamicAssign | VipPending | Vip | Preschedule | Maintenance

  /** One maintenance_schedule entry; its key is the schedule time. */
  datatype MaintenanceEntry = MaintenanceEntry(elevatorId: int, active: bool)

  /** A running maintenance: the car taken offline and when it started. */
  datatype MaintenanceWindow = MaintenanceWindow(elevatorId: int, start: int)

  /** Seconds a maintenance keeps its car offline. */
  const MaintenanceSeconds: nat := 300
  /** Seconds a reservation window counts as VIP_PENDING. */
  const VipPendingSeconds: nat := 60

  /** Passengers waiting in the whole building. */
  function TotalWaiting(waiting: seq<FloorQueue>): nat {
    if waiting == [] then 0 else TotalWaiting(waiting[..|waiting| - 1]) + waiting[|waiting| - 1].Count()
  }

  function SumLoads(loads: seq<nat>): nat {
    if loads == [] then 0 else SumLoads(loads[..|loads| - 1]) + loads[|loads| - 1]
  }

  /**
   * average_occupancy > pct, i.e. sum(load) / (E * capacity) * 100 > pct,
   * compared exactly in integers.
   */
  predicate OccupancyAbove(loads: seq<nat>, pct: nat) {
    SumLoads(loads) * 100 > pct * |loads| * MaxCapacity
  }

  /** Some floor has more than 10 passengers waiting. */
  predicate FloorOverflow(waiting: seq<FloorQueue>) {
    exists f | 0 <= f < |waiting| :: waiting[f].Count() > 10
  }

  /**
   * The DYNAMIC-ASSIGN test for one floor: people wait there, the loaded car
   * nearest to it exists, and some other car is idle.
   */
  predicate DynamicAssignAt(positions: seq<int>, loads: seq<nat>, waiting: seq<FloorQueue>, f: int)
    requires |loads| == |positions|
  {
    && WaitingAt(waiting, f)
    && match FirstNearestCar(positions, LoadedMask(loads), f)
       case None => false
       case Some(c) => exists j | 0 <= j < |loads| :: j != c && loads[j] == 0
  }

  predicate DynamicAssignNeeded(positions: seq<int>, loads: seq<nat>, waiting: seq<FloorQueue>)
    requires |loads| == |positions|
  {
    exists f | 1 <= f <= |waiting| :: DynamicAssignAt(positions, loads, waiting, f)
  }

  /**
   * The nested search of the DYNAMIC-ASSIGN test reduces to: someone waits,
   * some car is loaded and some car is idle (the nearest loaded car is never
   * the idle one).
   */
  lemma DynamicAssignNeededIff(positions: seq<int>, loads: seq<nat>, waiting: seq<FloorQueue>)
    requires |loads| == |positions|
    ensures DynamicAssignNeeded(positions, loads, waiting) <==>
              AnyWaiting(waiting) && (exists j | 0 <= j < |loads| :: loads[j] > 0) && (exists j | 0 <= j < |loads| :: loads[j] == 0)
  {
    if AnyWaiting(waiting) && (exists j | 0 <= j < |loads| :: loads[j] > 0) && (exists j | 0 <= j < |loads| :: loads[j] == 0) {
      var f :| 1 <= f <= |waiting| && WaitingAt(waiting, f);
      var busy :| 0 <= busy < |loads| && loads[busy] > 0;
      var idle :| 0 <= idle < |loads| && loads[idle] == 0;
      assert LoadedMask(loads)[busy];
      var c := FirstNearestCar(positions, LoadedMask(loads), f);
      assert c.Some? && loads[c.value] > 0;
      assert idle != c.value;
      assert DynamicAssignAt(positions, loads, waiting, f);
    }
    if DynamicAssignNeeded(positions, loads, waiting) {
      var f :| 1 <= f <= |waiting| && DynamicAssignAt(positions, loads, waiting, f);
      var c := FirstNearestCar(positions, LoadedMask(loads), f);
      assert LoadedMask(loads)[c.value];
    }
  }

  predicate RushThresholds(waiting: seq<FloorQueue>, loads: seq<nat>, requests: nat) {
    TotalWaiting(waiting) > 10 || requests > 30 || OccupancyAbove(loads, 70)
  }

  predicate NormalThresholds(waiting: seq<FloorQueue>, loads: seq<nat>, requests: nat) {
    TotalWaiting(waiting) > 3 || requests > 6 || OccupancyAbove(loads, 40)
  }

  /** Someone waits, some car is loaded and some car is empty. */
  predicate Mixed(loads: seq<nat>, waiting: seq<FloorQueue>) {
    AnyWaiting(waiting) && (exists j | 0 <= j < |loads| :: loads[j] > 0) && (exists j | 0 <= j < |loads| :: loads[j] == 0)
  }

  /**
   * The traffic-based tail of detect_elevator_mode (698-752), reached when no
   * override applies; requests is the number of floors with an open request.
   * The four modes are tried in priority order: RUSH on an overflowing
   * floor, DYNAMIC-ASSIGN, RUSH on the rush thresholds, NORMAL on the normal
   * thresholds, and ENERGY-SAVING otherwise.
   */
  function TrafficMode(positions: seq<int>, loads: seq<nat>, waiting: seq<FloorQueue>, requests: nat): (r: Mode)
    requires |loads| == |positions|
    ensures r in {Rush, DynamicAssign, Normal, EnergySaving}
    ensures r == Rush <==>
              FloorOverflow(waiting) || (!Mixed(loads, waiting) && RushThresholds(waiting, loads, requests))
    ensures r == DynamicAssign <==> !FloorOverflow(waiting) && Mixed(loads, waiting)
    ensures r == Normal <==>
              && !FloorOverflow(waiting) && !Mixed(loads, waiting)
              && !RushThresholds(waiting, loads, requests) && NormalThresholds(waiting, loads, requests)
    ensures r == EnergySaving <==>
              && !FloorOverflow(waiting) && !Mixed(loads, waiting)
              && !RushThresholds(waiting, loads, requests) && !NormalThresholds(waiting, loads, requests)
  {
    DynamicAssignNeededIff(positions, loads, waiting);
    if FloorOverflow(waiting) then Rush
    else if DynamicAssignNeeded(positions, loads, waiting) then DynamicAssign
    else if RushThresholds(waiting, loads, requests) then Rush
    else if NormalThresholds(waiting, loads, requests) then Normal
    else EnergySaving
  }

  /** The state the overriding modes are decided on. */
  datatype Overrides = Overrides(
    maintenanceSchedule: map<int, MaintenanceEntry>,
    maintenance: Option<MaintenanceWindow>,
    prescheduleActive: bool,
    preScheduleKeys: set<int>,
    windowStart: Option<int>,
    vipTargetsSet: bool)

  /** What the traffic-based modes are decided on: positions, loads, queues, open requests. */
  datatype Traffic = Traffic(positions: seq<int>, loads: seq<nat>, waiting: seq<FloorQueue>, requests: nat)
  {
    ghost predicate Valid() {
      |loads| == |positions|
    }
  }

  datatype ModeDecision = ModeDecision(mode: Mode, maintenance: Option<MaintenanceWindow>)

  /** No maintenance runs and an active schedule entry has the clock's key. */
  predicate MaintenanceStarts(clock: int, o: Overrides) {
    && o.maintenance.None?
    && TimeKey(clock) in o.maintenanceSchedule
    && o.maintenanceSchedule[TimeKey(clock)].active
  }

  /** A maintenance runs and less than 300 s have elapsed. */
  predicate MaintenanceContinues(clock: int, o: Overrides) {
    o.maintenance.Some? && clock - o.maintenance.value.start < MaintenanceSeconds
  }

  predicate PrescheduleDue(clock: int, o: Overrides) {
    o.prescheduleActive || TimeKey(clock) in o.preScheduleKeys
  }

  predicate VipWindowPending(clock: int, o: Overrides) {
    o.windowStart.Some? && clock - o.windowStart.value <= VipPendingSeconds
  }

  /**
   * detect_elevator_mode: maintenance, then pre-schedule, then a pending VIP
   * window, then a VIP target, then traffic. It starts maintenance on a
   * schedule match and ends it once 300 s have elapsed, falling through to
   * the lower modes in that same call.
   */
  function DetectMode(clock: int, o: Overrides, t: Traffic): (r: ModeDecision)
    requires t.Valid()
    ensures r.mode == Maintenance <==> MaintenanceStarts(clock, o) || MaintenanceContinues(clock, o)
    ensures MaintenanceStarts(clock, o) ==>
              r.maintenance == Some(MaintenanceWindow(o.maintenanceSchedule[TimeKey(clock)].elevatorId, clock))
    ensures MaintenanceContinues(clock, o) ==> r.maintenance == o.maintenance
    ensures r.mode != Maintenance ==> r.maintenance.None?
    ensures r.mode != Maintenance ==>
              (r.mode == Preschedule <==> PrescheduleDue(clock, o))
    ensures r.mode !in {Maintenance, Preschedule} ==>
              (r.mode == VipPending <==> VipWindowPending(clock, o))
    ensures r.mode !in {Maintenance, Preschedule, VipPending} ==>
              (r.mode == Vip <==> o.vipTargetsSet)
    ensures r.mode !in {Maintenance, Preschedule, VipPending, Vip} ==>
              r.mode == TrafficMode(t.positions, t.loads, t.waiting, t.requests)
  {
    if MaintenanceStarts(clock, o) then
      ModeDecision(Maintenance, Some(MaintenanceWindow(o.maintenanceSchedule[TimeKey(clock)].elevatorId, clock)))
    else if MaintenanceContinues(clock, o) then
      ModeDecision(Maintenance, o.maintenance)
    else if PrescheduleDue(clock, o) then ModeDecision(Preschedule, None)
    else if VipWindowPending(clock, o) then ModeDecision(VipPending, None)
    else if o.vipTargetsSet then ModeDecision(Vip, None)
    else ModeDecision(TrafficMode(t.positions, t.loads, t.waiting, t.requests), None)
  }

  /** The number of true entries. */
  function CountTrue(bs: seq<bool>): (n: nat)
    ensures n <= |bs|
  {
    if bs == [] then 0 else CountTrue(bs[..|bs| - 1]) + (if bs[|bs| - 1] then 1 else 0)
  }

  /** The hour of the day of a clock reading. */
  function HourOf(clock: int): (h: int)
    ensures 0 <= h < 24
  {
    (clock / 3600) % 24
  }

  predicate IsPeakHour(hour: int) {
    (8 <= hour <= 10) || (17 <= hour <= 19)
  }

  /** The cars standing on a floor of the building (elevator_stops). */
  function Stops(positions: seq<int>, numFloors: int): (n: nat)
    ensures n <= |positions|
  {
    if positions == [] then 0
    else Stops(positions[..|positions| - 1], numFloors) + (if IsFloor(positions[|positions| - 1], numFloors) then 1 else 0)
  }

  /** Every car stands on a floor, so the stop count is the number of cars. */
  lemma {:induction false} StopsCountsEveryCar(positions: seq<int>, numFloors: int)
    requires forall j | 0 <= j < |positions| :: IsFloor(positions[j], numFloors)
    ensures Stops(positions, numFloors) == |positions|
  {
    if positions != [] {
      StopsCountsEveryCar(positions[..|positions| - 1], numFloors);
    }
  }

  /** The five conditions of detect_rush_time, in the source's order. */
  function RushConditions(waiting: seq<FloorQueue>, requests: nat, loads: seq<nat>, hour: int, stops: nat): (c: seq<bool>)
    ensures |c| == 5
  {
    [ TotalWaiting(waiting) > 5,
      requests > 10,
      OccupancyAbove(loads, 70),
      IsPeakHour(hour),
      stops > 15 ]
  }

  /** detect_rush_time: rush iff at least three of the five conditions hold. */
  predicate DetectRushTime(waiting: seq<FloorQueue>, requests: nat, loads: seq<nat>, hour: int, stops: nat) {
    CountTrue(RushConditions(waiting, requests, loads, hour, stops)) >= 3
  }

  lemma {:induction false} CountTrueAtLeast(bs: seq<bool>, i: int, j: int, k: int)
    requires 0 <= i < j < k < |bs| && bs[i] && bs[j] && bs[k]
    ensures CountTrue(bs) >= 3
    decreases |bs|
  {
    var init := bs[..|bs| - 1];
    if k < |bs| - 1 {
      CountTrueAtLeast(init, i, j, k);
    } else {
      CountTrueAtLeastTwo(init, i, j);
    }
  }

  lemma {:induction false} CountTrueAtLeastTwo(bs: seq<bool>, i: int, j: int)
    requires 0 <= i < j < |bs| && bs[i] && bs[j]
    ensures CountTrue(bs) >= 2
    decreases |bs|
  {
    var init := bs[..|bs| - 1];
    if j < |bs| - 1 {
      CountTrueAtLeastTwo(init, i, j);
    } else {
      CountTrueAtLeastOne(init, i);
    }
  }

  lemma {:induction false} CountTrueAtLeastOne(bs: seq<bool>, i: int)
    requires 0 <= i < |bs| && bs[i]
    ensures CountTrue(bs) >= 1
    decreases |bs|
  {
    if i < |bs| - 1 {
      CountTrueAtLeastOne(bs[..|bs| - 1], i);
    }
  }

  /** Any three conditions that hold together make it rush time. */
  lemma AnyThreeMakeRush(waiting: seq<FloorQueue>, requests: nat, loads: seq<nat>, hour: int, stops: nat, i: int, j: int, k: int)
    requires 0 <= i < j < k < 5
    requires RushConditions(waiting, requests, loads, hour, stops)[i]
    requires RushConditions(waiting, requests, loads, hour, stops)[j]
    requires RushConditions(waiting, requests, loads, hour, stops)[k]
    ensures DetectRushTime(waiting, requests, loads, hour, stops)
  {
    CountTrueAtLeast(RushConditions(waiting, requests, loads, hour, stops), i, j, k);
  }

  /** With two or fewer true entries the count stays below three. */
  lemma {:induction false} CountTrueAtMostTwo(bs: seq<bool>)
    requires forall i, j, k | 0 <= i < j < k < |bs| :: !(bs[i] && bs[j] && bs[k])
    ensures CountTrue(bs) <= 2
    decreases |bs|
  {
    if bs != [] {
      var init := bs[..|bs| - 1];
      CountTrueAtMostTwo(init);
      if bs[|bs| - 1] {
        // then init holds at most one true entry
        CountTrueAtMostOne(init);
      }
    }
  }

  lemma {:induction false} CountTrueAtMostOne(bs: seq<bool>)
    requires forall i, j | 0 <= i < j < |bs| :: !(bs[i] && bs[j])
    ensures CountTrue(bs) <= 1
    decreases |bs|
  {
    if bs != [] {
      var init := bs[..|bs| - 1];
      CountTrueAtMostOne(init);
      if bs[|bs| - 1] {
        CountTrueNone(init);
      }
    }
  }

  lemma {:induction false} CountTrueNone(bs: seq<bool>)
    requires forall i | 0 <= i < |bs| :: !bs[i]
    ensures CountTrue(bs) == 0
    decreases |bs|
  {
    if bs != [] {
      CountTrueNone(bs[..|bs| - 1]);
    }
  }

  /** Rush time means some three of the five conditions hold together. */
  lemma RushNeedsThree(waiting: seq<FloorQueue>, requests: nat, loads: seq<nat>, hour: int, stops: nat)
    requires DetectRushTime(waiting, requests, loads, hour, stops)
    ensures exists i, j, k | 0 <= i < j < k < 5 ::
              && RushConditions(waiting, requests, loads, hour, stops)[i]
              && RushConditions(waiting, requests, loads, hour, stops)[j]
              && RushConditions(waiting, requests, loads, hour, stops)[k]
  {
    var c := RushConditions(waiting, requests, loads, hour, stops);
    if forall i, j, k | 0 <= i < j < k < |c| :: !(c[i] && c[j] && c[k]) {
      CountTrueAtMostTwo(c);
      assert false;
    }
  }
}
