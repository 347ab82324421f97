/**
 * The ENVsql.py dispatch engine: one ElevatorEnv whose step opens or expires
 * a VIP reservation window, picks an operating mode, moves every car by at
 * most one floor, lets passengers alight and board, records wait and service
 * times and energy, advances the clock by 5 s and merges newly fetched
 * passengers.
 *
 * The external feeds (reservations, recognised users, passenger rows) are
 * parameters of step; the peak-demand and maintenance schedules are fixed at
 * construction, keyed by seconds of the day.
 */
module EnvSql {
  import opened Common
  import opened Routing
  import opened Boarding
  import opened Metrics
  import opened Ingestion
  import opened Modes
  import opened Prescheduling
  import opened Vip
  import opened Invariants
  import opened Motion

  /** The open requests once a car has served floor f: f's request goes if its queues are empty. */
  function Unserved(requestTimes: map<int, int>, q: FloorQueue, f: int): (r: map<int, int>)
    ensures q.HasWaiting() ==> r == requestTimes
    ensures !q.HasWaiting() ==> f !in r && forall g | g in requestTimes && g != f :: g in r && r[g] == requestTimes[g]
  {
    if q.HasWaiting() then requestTimes else requestTimes - {f}
  }

  /**
   * Closing a floor's request on arrival and again after boarding is the
   * same as closing it once against the queue boarding leaves, because
   * boarding never refills a queue it emptied.
   */
  lemma UnservedTwice(requestTimes: map<int, int>, q: FloorQueue, q': FloorQueue, f: int)
    requires q'.HasWaiting() ==> q.HasWaiting()
    ensures Unserved(Unserved(requestTimes, q, f), q', f) == Unserved(requestTimes, q', f)
  {
    if !q'.HasWaiting() && !q.HasWaiting() {
      assert requestTimes - {f} - {f} == requestTimes - {f};
    }
  }

  /** The wait sample a car's arrival at floor f records: none without an open request. */
  function WaitSample(requestTimes: map<int, int>, f: int, now: int): (r: seq<int>)
    ensures |r| <= 1
    ensures r != [] <==> f in requestTimes
    ensures r != [] ==> r[0] == now - requestTimes[f]
  {
    if f in requestTimes then [now - requestTimes[f]] else []
  }

  /**
   * A stop keeps every destination on a floor and every car within
   * capacity: the new manifest holds survivors of the old one and entries
   * from the floor's queue.
   */
  lemma StopKeepsManifests(loads: seq<nat>, manifests: seq<seq<Passenger>>, waiting: seq<FloorQueue>, i: int, f: int, vipCar: Option<int>, numFloors: int)
    requires ManifestsValid(loads, manifests, numFloors) && QueuesDestsIn(waiting, numFloors)
    requires 0 <= i < |manifests| && 1 <= f <= |waiting|
    ensures var m := ManifestAfter(manifests[i], waiting[f - 1], f, i, vipCar);
            ManifestsValid(loads[i := |m|], manifests[i := m], numFloors)
  {
    var q := waiting[f - 1];
    var s := PlanStop(manifests[i], q, f, i, vipCar);
    var m := ManifestAfter(manifests[i], q, f, i, vipCar);
    AlightSplits(manifests[i], f);
    AlightConserves(manifests[i], f);
    EligibleMembers(q.Get(s.dir), i, vipCar);
    assert DestsIn(manifests[i], numFloors);
    assert QueueDestsIn(q, numFloors);
    assert DestsIn(q.Get(s.dir), numFloors);
    assert m == s.alighted + s.eligible[..s.boarded];
    forall p | p in m
      ensures IsFloor(p.dest, numFloors)
    {
      if p !in s.alighted {
        assert p in s.eligible[..s.boarded];
        assert p in s.eligible;
      }
    }
  }

  /** A stop keeps every queued destination on a floor: the pickup queue only loses entries. */
  lemma StopKeepsQueues(manifests: seq<seq<Passenger>>, waiting: seq<FloorQueue>, i: int, f: int, vipCar: Option<int>, numFloors: int)
    requires QueuesDestsIn(waiting, numFloors)
    requires 0 <= i < |manifests| && 1 <= f <= |waiting|
    ensures QueuesDestsIn(waiting[f - 1 := QueueAfter(manifests[i], waiting[f - 1], f, i, vipCar)], numFloors)
  {
    var q := waiting[f - 1];
    var s := PlanStop(manifests[i], q, f, i, vipCar);
    UnboardKeepsOnly(q.Get(s.dir), i, vipCar, s.boarded);
    assert QueueDestsIn(q, numFloors);
    assert QueueDestsIn(q.Put(s.dir, Unboard(q.Get(s.dir), i, vipCar, s.boarded)), numFloors);
  }

  /**
   * The spawning loop of generate_vip_passengers on the entry floor's 'up'
   * queue: count entries VIP_<uid>_0, VIP_<uid>_1, ... bound for dest are
   * appended in order, and nothing else is queued.
   */
  method AppendVipGroup(up0: seq<Passenger>, uid: string, dest: int, count: int) returns (up: seq<Passenger>)
    ensures up == up0 + VipGroup(uid, dest, count)
    ensures forall p | p in up :: p in up0 || p.dest == dest
  {
    up := up0;
    var k := 0;
    assert up0 + VipGroup(uid, dest, 0) == up0;
    while k < count
      invariant 0 <= k && (count > 0 ==> k <= count) && (count <= 0 ==> k == 0)
      invariant up == up0 + VipGroup(uid, dest, k)
      invariant forall p | p in up :: p in up0 || p.dest == dest
    {
      var pid := VipPrefix(uid) + NatToString(k);
      assert VipGroup(uid, dest, k + 1) == VipGroup(uid, dest, k) + [Passenger(pid, dest)];
      up := up + [Passenger(pid, dest)];
      k := k + 1;
    }
  }

  /**
   * default_elevator_logic's move for car i (494-508): a loaded car heads
   * for the nearest destination on board; an empty one follows the mode's
   * policy, energy_efficient_routing_best for every mode without its own.
   */
  function DefaultRouting(mode: Mode, positions: seq<int>, loads: seq<nat>, manifest: seq<Passenger>, waiting: seq<FloorQueue>, targets: map<int, int>, i: int): (r: int)
    requires 0 <= i < |positions| && |loads| == |positions|
    ensures -1 <= r <= 1
    ensures loads[i] > 0 ==> r == MoveToPassengerDestination(manifest, positions[i])
    ensures loads[i] == 0 && !AnyWaiting(waiting) && !(mode == Preschedule && i in targets) ==> r == 0
    ensures loads[i] == 0 && mode !in {Preschedule, Rush, DynamicAssign, Normal} ==> r == EnergyEfficientRoutingBest(positions, loads, waiting, i)
  {
    if loads[i] > 0 then MoveToPassengerDestination(manifest, positions[i])
    else if mode == Preschedule then PrescheduleRouting(positions, targets, waiting, i)
    else if mode == Rush then NearestCarScan(waiting, positions[i])
    else if mode == DynamicAssign then DynamicAssignRouting(positions, loads, waiting, i)
    else if mode == Normal then EnergyEfficientRouting(positions, waiting, i)
    else EnergyEfficientRoutingBest(positions, loads, waiting, i)
  }

  /**
   * Whatever the mode, default_elevator_logic keeps a car inside the
   * building when it stands on a floor, its passengers are bound for floors
   * and every pre-schedule target is a floor.
   */
  lemma DefaultRoutingInside(mode: Mode, positions: seq<int>, loads: seq<nat>, manifest: seq<Passenger>, waiting: seq<FloorQueue>, targets: map<int, int>, i: int)
    requires 0 <= i < |positions| && |loads| == |positions|
    requires IsFloor(positions[i], |waiting|) && DestsIn(manifest, |waiting|)
    requires forall k | k in targets :: IsFloor(targets[k], |waiting|)
    ensures IsFloor(positions[i] + DefaultRouting(mode, positions, loads, manifest, waiting, targets, i), |waiting|)
  {
    if loads[i] > 0 {
      MoveToPassengerDestinationInside(manifest, positions[i], |waiting|);
    }
  }

  /** A member of the VIP group is aboard the car or waiting in the entry floor's 'up' queue. */
  predicate GroupFound(uid: string, manifest: seq<Passenger>, entryUp: seq<Passenger>) {
    HasGroupMember(manifest, uid) || HasGroupMember(entryUp, uid)
  }

  // ----- One tick of step, on values -----

  /** The VIP bookkeeping: vip_targets, the VIP car, the reservation window and the handled uids. */
  datatype VipBook = VipBook(target: Option<VipTarget>, car: Option<int>, window: Option<ReservationWindow>, handled: set<string>)

  /** Everything step changes; the peak-demand and maintenance schedules stay fixed. */
  datatype Engine = Engine(
    positions: seq<int>, loads: seq<nat>, manifests: seq<seq<Passenger>>, waiting: seq<FloorQueue>, clock: int,
    requestTimes: map<int, int>, waitTimes: seq<int>, service: Ledger, processed: set<PassengerId>, energyUsage: seq<nat>,
    vip: VipBook, preschedule: Option<Prediction>, targets: map<int, int>, arrived: set<int>, maintenance: Option<MaintenanceWindow>)
  {
    /** One load and one manifest per car. */
    predicate Sized() {
      |loads| == |positions| && |manifests| == |positions|
    }
  }

  /**
   * track_reservations (270-292): with no window open, the first due,
   * unhandled reservation opens one now and its user becomes handled.
   */
  function TrackedWindow(s: Engine, rs: seq<Reservation>): (r: Engine)
    ensures r == s.(vip := r.vip) && r.vip.target == s.vip.target && r.vip.car == s.vip.car
    ensures r.vip.window.Some? ==> r.vip.window == s.vip.window || r.vip.window.value.reservation in rs
  {
    if s.vip.window.Some? then s
    else match FirstDue(rs, s.vip.handled, s.clock)
      case None => s
      case Some(k) =>
        s.(vip := s.vip.(window := Some(ReservationWindow(rs[k].firebaseUid, rs[k], s.clock)), handled := s.vip.handled + {rs[k].userUid}))
  }

  /**
   * generate_vip_passengers (327-350): unless a VIP target is set, set one
   * and append the group to the entry floor's 'up' queue, opening that
   * floor's request at now for a non-empty group.
   */
  function Spawned(s: Engine, uid: string, res: Reservation): (r: Engine)
    requires IsFloor(res.entryFloor, |s.waiting|)
    ensures r == s.(vip := r.vip, waiting := r.waiting, requestTimes := r.requestTimes) && |r.waiting| == |s.waiting|
  {
    if s.vip.target.Some? then s
    else
      var e := res.entryFloor;
      s.(vip := s.vip.(target := Some(VipTarget(e, res.destinationFloor, uid, res.numberOfPeople, false, s.clock))),
         waiting := s.waiting[e - 1 := s.waiting[e - 1].(up := s.waiting[e - 1].up + VipGroup(uid, res.destinationFloor, res.numberOfPeople))],
         requestTimes := if res.numberOfPeople > 0 then s.requestTimes[e := s.clock] else s.requestTimes)
  }

  /**
   * The window handling of step (364-392): a recognised VIP spawns the
   * group and closes the window; otherwise the target is set if none is,
   * and the window closes once more than 60 s have passed.
   */
  function WindowChecked(s: Engine, recognized: seq<string>): (r: Engine)
    requires s.vip.window.Some? ==> IsFloor(s.vip.window.value.reservation.entryFloor, |s.waiting|)
    ensures r == s.(vip := r.vip, waiting := r.waiting, requestTimes := r.requestTimes) && |r.waiting| == |s.waiting|
  {
    match s.vip.window
    case None => s
    case Some(w) =>
      var r := w.reservation;
      if w.firebaseUid in recognized then
        var g := Spawned(s, w.firebaseUid, r);
        g.(vip := g.vip.(window := None))
      else
        var t := if s.vip.target.None? then Some(VipTarget(r.entryFloor, r.destinationFloor, r.firebaseUid, r.numberOfPeople, false, s.clock)) else s.vip.target;
        s.(vip := s.vip.(target := t, window := if s.clock - w.start > VipWaitSeconds then None else s.vip.window))
  }

  /** Phase 1 of step (361-392): track the reservations, then handle the window. */
  function Reserved(s: Engine, rs: seq<Reservation>, recognized: seq<string>): (r: Engine)
    requires s.vip.window.Some? ==> IsFloor(s.vip.window.value.reservation.entryFloor, |s.waiting|)
    requires forall r | r in rs :: IsFloor(r.entryFloor, |s.waiting|)
    ensures r == s.(vip := r.vip, waiting := r.waiting, requestTimes := r.requestTimes) && |r.waiting| == |s.waiting|
  {
    WindowChecked(TrackedWindow(s, rs), recognized)
  }

  /** What the overriding modes are decided on, with the fixed schedules. */
  function OverridesOf(s: Engine, preSchedule: map<int, Prediction>, maintenanceSchedule: map<int, MaintenanceEntry>): Overrides
  {
    Overrides(maintenanceSchedule, s.maintenance, s.preschedule.Some?, preSchedule.Keys,
              if s.vip.window.Some? then Some(s.vip.window.value.start) else None, s.vip.target.Some?)
  }

  /** What the traffic modes are decided on; total_requests is the number of open requests. */
  function TrafficOf(s: Engine): Traffic
  {
    Traffic(s.positions, s.loads, s.waiting, |s.requestTimes|)
  }

  /** The tick's mode, as detect_elevator_mode decides it. */
  function TickMode(s: Engine, preSchedule: map<int, Prediction>, maintenanceSchedule: map<int, MaintenanceEntry>): Mode
    requires s.Sized()
  {
    DetectMode(s.clock, OverridesOf(s, preSchedule, maintenanceSchedule), TrafficOf(s)).mode
  }

  /**
   * The state once the mode is chosen (394-424): maintenance starts or ends
   * as detect_elevator_mode decides; under PRESCHEDULE the event due now
   * starts unless one is running, and cars are assigned to it.
   */
  function ModeSetUp(s: Engine, preSchedule: map<int, Prediction>, maintenanceSchedule: map<int, MaintenanceEntry>): (r: Engine)
    requires s.Sized()
    ensures r == s.(maintenance := r.maintenance, preschedule := r.preschedule, targets := r.targets, arrived := r.arrived)
    ensures TickMode(s, preSchedule, maintenanceSchedule) == Maintenance ==> r.maintenance.Some?
  {
    var d := DetectMode(s.clock, OverridesOf(s, preSchedule, maintenanceSchedule), TrafficOf(s));
    var s1 := s.(maintenance := d.maintenance);
    if d.mode != Preschedule then s1 else PrescheduleSetUp(s1, preSchedule)
  }

  /**
   * Entering PRESCHEDULE (400-424): the event keyed by the clock starts,
   * with no targets and no arrivals, unless one is running; then cars are
   * assigned to the running event.
   */
  function PrescheduleSetUp(s: Engine, preSchedule: map<int, Prediction>): (r: Engine)
    requires s.Sized() && (s.preschedule.Some? || TimeKey(s.clock) in preSchedule)
    ensures r == s.(preschedule := r.preschedule, targets := r.targets, arrived := r.arrived)
    ensures r.preschedule.Some?
  {
    var s1 := if s.preschedule.Some? then s else s.(preschedule := Some(preSchedule[TimeKey(s.clock)]), targets := map[], arrived := {});
    var p := s1.preschedule.value;
    s1.(targets := AssignFrom(s1.targets, s1.arrived, s1.loads, p.floor, p.numElevators, 0))
  }

  /** default_elevator_logic for car i (494-508): its move, and the arrivals it records. */
  function DefaultTurn(s: Engine, i: int, mode: Mode): (r: (int, Engine))
    requires s.Sized() && 0 <= i < |s.positions|
    ensures r.1 == s.(arrived := r.1.arrived)
  {
    (DefaultRouting(mode, s.positions, s.loads, s.manifests[i], s.waiting, s.targets, i),
     if s.loads[i] == 0 && mode == Preschedule && i in s.targets && s.positions[i] == s.targets[i] then s.(arrived := s.arrived + {i}) else s)
  }

  /**
   * handle_vip_routing (553-617) for the VIP car standing at floor current:
   * its move and the VIP bookkeeping it leaves; found tells whether a group
   * member is aboard or waiting to go up at the entry floor.
   */
  function VipRoute(b: VipBook, current: int, found: bool, clock: int): (int, VipBook)
    requires b.target.Some?
  {
    var v := b.target.value;
    if !v.pickedUp then
      if current != v.entryFloor then (Sign(v.entryFloor - current), b)
      else if found then (Sign(v.destinationFloor - current), b.(target := Some(v.(pickedUp := true))))
      else if clock - v.waitStart < VipWaitSeconds then (0, b)
      else (0, VipBook(None, None, None, b.handled))
    else if current == v.destinationFloor then (0, VipBook(None, None, None, b.handled + {v.firebaseUid}))
    else (Sign(v.destinationFloor - current), b)
  }

  /**
   * What handle_vip_routing achieves: the VIP car stays in the building and
   * closes in on the entry floor before pickup and on the destination after
   * it, one floor a tick; it waits at the entry floor only while nobody of
   * the group shows up and for less than 60 s; it releases the VIP state
   * exactly on reaching the destination after pickup (marking the uid
   * handled) or on giving up at the entry floor (not marking it).
   */
  lemma VipRouteProgress(b: VipBook, current: int, found: bool, clock: int, numFloors: int)
    requires b.target.Some? && IsFloor(current, numFloors)
    requires IsFloor(b.target.value.entryFloor, numFloors) && IsFloor(b.target.value.destinationFloor, numFloors)
    ensures var (move, b') := VipRoute(b, current, found, clock);
            var v := b.target.value;
            && -1 <= move <= 1 && IsFloor(current + move, numFloors)
            && (!v.pickedUp && current != v.entryFloor ==>
                  Abs(current + move - v.entryFloor) == Abs(current - v.entryFloor) - 1 && b' == b)
            && (!v.pickedUp && current == v.entryFloor && found ==>
                  move == Sign(v.destinationFloor - current) && b'.target == Some(v.(pickedUp := true)))
            && (move == 0 && b' == b ==> !v.pickedUp && current == v.entryFloor && !found && clock - v.waitStart < VipWaitSeconds)
            && (v.pickedUp && current != v.destinationFloor ==>
                  Abs(current + move - v.destinationFloor) == Abs(current - v.destinationFloor) - 1 && b' == b)
            && (b'.target.None? ==>
                  && b'.car.None? && b'.window.None?
                  && ((v.pickedUp && current == v.destinationFloor && b'.handled == b.handled + {v.firebaseUid})
                      || (!v.pickedUp && current == v.entryFloor && !found && b'.handled == b.handled)))
  {
    var v := b.target.value;
    SignStaysBetween(current, v.entryFloor, numFloors);
    SignStaysBetween(current, v.destinationFloor, numFloors);
  }

  /**
   * The VIP branch of step's car loop (434-443): the VIP car is chosen if
   * none is (the nearest empty car), then car i takes its turn.
   */
  function VipTurn(s: Engine, i: int, mode: Mode): (r: (int, Engine))
    requires s.Sized() && 0 <= i < |s.positions| && s.vip.target.Some?
    ensures r.1 == s.(arrived := r.1.arrived, vip := r.1.vip)
  {
    var car := if s.vip.car.Some? then s.vip.car else FirstNearestCar(s.positions, IdleMask(s.loads), s.vip.target.value.entryFloor);
    VipCarTurn(s.(vip := s.vip.(car := car)), i, mode)
  }

  /**
   * Car i's turn once the VIP car is known (436-443): the VIP car follows
   * handle_vip_routing, None counting as 0, and every other car
   * default_elevator_logic.
   */
  function VipCarTurn(s: Engine, i: int, mode: Mode): (r: (int, Engine))
    requires s.Sized() && 0 <= i < |s.positions| && s.vip.target.Some?
    ensures r.1 == s.(arrived := r.1.arrived, vip := r.1.vip)
  {
    var v := s.vip.target.value;
    if s.vip.car == Some(i) then
      var found := HasGroupMember(s.manifests[i], v.firebaseUid)
                   || (IsFloor(v.entryFloor, |s.waiting|) && HasGroupMember(s.waiting[v.entryFloor - 1].up, v.firebaseUid));
      var routed := VipRoute(s.vip, s.positions[i], found, s.clock);
      (routed.0, s.(vip := routed.1))
    else DefaultTurn(s, i, mode)
  }

  /**
   * Car i's move in step's car loop (427-447), with the arrivals and VIP
   * bookkeeping it leaves: the maintenance car stays, the other cars serve
   * passengers or the nearest waiting floor; the VIP modes with a target
   * take the VIP branch; everything else is default_elevator_logic.
   */
  function Dispatch(s: Engine, i: int, mode: Mode): (r: (int, Engine))
    requires s.Sized() && 0 <= i < |s.positions|
    requires mode == Maintenance ==> s.maintenance.Some?
    ensures r.1 == s.(arrived := r.1.arrived, vip := r.1.vip)
  {
    if mode == Maintenance then
      (if i == s.maintenance.value.elevatorId then 0
       else if s.loads[i] > 0 then MoveToPassengerDestination(s.manifests[i], s.positions[i])
       else NearestCarScan(s.waiting, s.positions[i]), s)
    else if (mode == Vip || mode == VipPending) && s.vip.target.Some? then VipTurn(s, i, mode)
    else DefaultTurn(s, i, mode)
  }

  /**
   * Whatever the mode, the dispatched move is -1, 0 or 1 and keeps a car
   * that stands on a floor on a floor, so the bounds test of step always
   * passes: every car is on a floor, every passenger aboard is bound for
   * one, and pre-schedule and VIP targets are floors.
   */
  lemma DispatchInside(s: Engine, i: int, mode: Mode)
    requires s.Sized() && 0 <= i < |s.positions|
    requires mode == Maintenance ==> s.maintenance.Some?
    requires PositionsIn(s.positions, |s.waiting|) && ManifestsValid(s.loads, s.manifests, |s.waiting|)
    requires forall k | k in s.targets :: IsFloor(s.targets[k], |s.waiting|)
    requires VipStateValid(s.vip.car, s.vip.target, s.vip.window, s.clock, |s.positions|, |s.waiting|)
    ensures -1 <= Dispatch(s, i, mode).0 <= 1
    ensures IsFloor(s.positions[i] + Dispatch(s, i, mode).0, |s.waiting|)
  {
    var p := s.positions[i];
    assert IsFloor(p, |s.waiting|) && DestsIn(s.manifests[i], |s.waiting|);
    if mode == Maintenance {
      if s.loads[i] > 0 {
        MoveToPassengerDestinationInside(s.manifests[i], p, |s.waiting|);
      }
    } else if (mode == Vip || mode == VipPending) && s.vip.target.Some? {
      var v := s.vip.target.value;
      var car := if s.vip.car.Some? then s.vip.car else FirstNearestCar(s.positions, IdleMask(s.loads), v.entryFloor);
      if car == Some(i) {
        var found := HasGroupMember(s.manifests[i], v.firebaseUid)
                     || (IsFloor(v.entryFloor, |s.waiting|) && HasGroupMember(s.waiting[v.entryFloor - 1].up, v.firebaseUid));
        VipRouteProgress(s.vip.(car := car), p, found, s.clock, |s.waiting|);
      } else {
        DefaultRoutingInside(mode, s.positions, s.loads, s.manifests[i], s.waiting, s.targets, i);
      }
    } else {
      DefaultRoutingInside(mode, s.positions, s.loads, s.manifests[i], s.waiting, s.targets, i);
    }
  }

  /** handle_passenger_movement for car i at floor f (760-816), on the state. */
  function Stopped(s: Engine, i: int, f: int): (r: Engine)
    requires s.Sized() && 0 <= i < |s.positions| && IsFloor(f, |s.waiting|)
    ensures r.Sized() && |r.positions| == |s.positions| && |r.waiting| == |s.waiting|
    ensures r == s.(loads := r.loads, manifests := r.manifests, waiting := r.waiting, requestTimes := r.requestTimes, waitTimes := r.waitTimes, service := r.service)
  {
    var q := s.waiting[f - 1];
    var m := ManifestAfter(s.manifests[i], q, f, i, s.vip.car);
    var q' := QueueAfter(s.manifests[i], q, f, i, s.vip.car);
    var closed := CloseAll(s.service, Ids(Exiting(s.manifests[i], f)), s.clock);
    s.(loads := s.loads[i := |m|], manifests := s.manifests[i := m], waiting := s.waiting[f - 1 := q'],
       service := Ledger(StampAll(closed.open, BoardedAt(s.manifests[i], q, f, i, s.vip.car), s.clock), closed.samples),
       waitTimes := s.waitTimes + WaitSample(s.requestTimes, f, s.clock),
       requestTimes := Unserved(s.requestTimes, q', f))
  }

  /** The rest of car i's turn (448-459): it moves to floor f and, unless it is the maintenance car, stops there. */
  function Arrive(s: Engine, i: int, f: int, mode: Mode): (r: Engine)
    requires s.Sized() && 0 <= i < |s.positions| && IsFloor(f, |s.waiting|)
    requires mode == Maintenance ==> s.maintenance.Some?
    ensures r.Sized() && |r.positions| == |s.positions| && |r.waiting| == |s.waiting| && r.maintenance == s.maintenance
  {
    var moved := s.(positions := s.positions[i := f]);
    if mode == Maintenance && i == s.maintenance.value.elevatorId then moved else Stopped(moved, i, f)
  }

  /**
   * Car i's turn in step's car loop (427-459): Dispatch decides the move,
   * and the car arrives at the new floor. Every move lands on a floor
   * (DispatchInside); otherwise the source's stop would raise on the missing
   * floor, and the state is left as dispatched.
   */
  function CarTurn(s: Engine, i: int, mode: Mode): (r: Engine)
    requires s.Sized() && 0 <= i < |s.positions|
    requires mode == Maintenance ==> s.maintenance.Some?
    ensures r.Sized() && |r.positions| == |s.positions| && |r.waiting| == |s.waiting| && r.maintenance == s.maintenance
  {
    var d := Dispatch(s, i, mode);
    var f := s.positions[i] + d.0;
    if IsFloor(f, |s.waiting|) then Arrive(d.1, i, f, mode) else d.1
  }

  /** A turn whose dispatched move lands on a floor is an arrival there. */
  lemma CarTurnArrives(s: Engine, i: int, mode: Mode, move: int, s1: Engine, f: int, s2: Engine)
    requires s.Sized() && 0 <= i < |s.positions|
    requires mode == Maintenance ==> s.maintenance.Some?
    requires (move, s1) == Dispatch(s, i, mode) && f == s.positions[i] + move && IsFloor(f, |s.waiting|)
    requires s2 == Arrive(s1, i, f, mode)
    ensures s2 == CarTurn(s, i, mode)
  {
  }

  /** The state after the first n turns of the car loop, taken in index order. */
  function CarsAfter(s: Engine, mode: Mode, n: nat): (r: Engine)
    requires s.Sized() && n <= |s.positions|
    requires mode == Maintenance ==> s.maintenance.Some?
    ensures r.Sized() && |r.positions| == |s.positions| && |r.waiting| == |s.waiting| && r.maintenance == s.maintenance
    decreases n, 1
  {
    if n == 0 then s else AfterTurn(s, mode, n - 1)
  }

  /** The first i + 1 turns are the first i followed by car i's. */
  lemma CarsAfterStep(s: Engine, mode: Mode, i: nat)
    requires s.Sized() && i < |s.positions|
    requires mode == Maintenance ==> s.maintenance.Some?
    ensures CarsAfter(s, mode, i + 1) == CarTurn(CarsAfter(s, mode, i), i, mode)
  {
  }

  /** The state once car i has taken its turn, the cars before it having taken theirs. */
  function AfterTurn(s: Engine, mode: Mode, i: nat): (r: Engine)
    requires s.Sized() && i < |s.positions|
    requires mode == Maintenance ==> s.maintenance.Some?
    ensures r.Sized() && |r.positions| == |s.positions| && |r.waiting| == |s.waiting| && r.maintenance == s.maintenance
    decreases i + 1, 0
  {
    CarTurn(CarsAfter(s, mode, i), i, mode)
  }

  /**
   * The end of step (461-492): the clock advances 5 s, the fetched rows are
   * merged as update_passengers does, a pre-schedule event with enough
   * arrivals is cleared, and the tick's energy is recorded.
   */
  function Ended(s: Engine, rows: seq<Row>, energy: nat): Engine
  {
    var s2 := Cleared(Fed(s, rows));
    s2.(energyUsage := s2.energyUsage + [energy])
  }

  /** The clock advances by 5 s and the rows fetched then are merged as update_passengers does. */
  function Fed(s: Engine, rows: seq<Row>): Engine
  {
    var now := s.clock + TimePerStep;
    var intake := Ingest(Intake(s.waiting, s.processed, s.requestTimes), rows, now);
    s.(clock := now, waiting := intake.waiting, processed := intake.processed, requestTimes := intake.requestTimes)
  }

  /** A pre-schedule event with as many arrivals as cars is cleared with its targets and arrivals. */
  function Cleared(s: Engine): Engine
  {
    if s.preschedule.Some? && |s.arrived| >= s.preschedule.value.numElevators then s.(preschedule := None, targets := map[], arrived := {}) else s
  }

  class ElevatorEnv {
    const numFloors: int
    const numElevators: int
    /** state['elevator_positions']: the numpy buffer of car floors. */
    const positions: array<int>
    /** pre_schedule: predicted peaks by schedule key (seconds of the day). */
    const preSchedule: map<int, Prediction>
    /** maintenance_schedule, by schedule key. */
    const maintenanceSchedule: map<int, MaintenanceEntry>

    var loads: seq<nat>
    var manifests: seq<seq<Passenger>>
    /** passengers_waiting: floor f's queues at index f - 1. */
    var waiting: seq<FloorQueue>
    var clock: int

    /** passenger_wait_times: the time of the oldest open request, by floor. */
    var requestTimes: map<int, int>
    var waitTimes: seq<int>
    /** passenger_board_times (open entries) and service_times (samples). */
    var service: Ledger
    var processed: set<PassengerId>
    var energyUsage: seq<nat>

    var handledVips: set<string>
    var window: Option<ReservationWindow>
    var vipTarget: Option<VipTarget>
    var vipCar: Option<int>

    /** preschedule_active together with preschedule_event. */
    var preschedule: Option<Prediction>
    var targets: map<int, int>
    var arrived: set<int>

    /** maintenance_active together with the car and the start time. */
    var maintenance: Option<MaintenanceWindow>

    /** The sizes: F floors, E cars, one manifest and one load per car, one queue pair per floor. */
    ghost predicate Shape()
      reads this`loads, this`manifests, this`waiting
    {
      && numFloors >= 1 && numElevators >= 1
      && positions.Length == numElevators
      && |loads| == numElevators && |manifests| == numElevators
      && |waiting| == numFloors
    }

    /** Every car is on a floor. */
    ghost predicate PositionsValid()
      reads positions
    {
      forall j | 0 <= j < positions.Length :: IsFloor(positions[j], numFloors)
    }

    ghost predicate CarsValid()
      reads this`loads, this`manifests
    {
      ManifestsValid(loads, manifests, numFloors)
    }

    ghost predicate QueuesValid()
      reads this`waiting
    {
      QueuesDestsIn(waiting, numFloors)
    }

    ghost predicate MetricsValid()
      reads this`requestTimes, this`service, this`waitTimes, this`clock
    {
      TimingsValid(requestTimes, service, waitTimes, clock)
    }

    ghost predicate VipValid()
      reads this`vipCar, this`vipTarget, this`window, this`clock
    {
      VipStateValid(vipCar, vipTarget, window, clock, numElevators, numFloors)
    }

    ghost predicate ScheduleValid()
      reads this`targets, this`preschedule, this`maintenance, this`clock
    {
      ScheduleStateValid(targets, preschedule, preSchedule, maintenance, clock, numFloors)
    }

    ghost predicate Valid()
      reads this, positions
    {
      Shape() && PositionsValid() && CarsValid() && QueuesValid() && MetricsValid() && VipValid() && ScheduleValid()
    }

    /** The state step changes, as a value. */
    function State(): Engine
      reads this, positions
    {
      Engine(positions[..], loads, manifests, waiting, clock, requestTimes, waitTimes, service, processed, energyUsage,
             VipBook(vipTarget, vipCar, window, handledVips), preschedule, targets, arrived, maintenance)
    }

    /** All cars on floor 1, empty queues, no VIP, pre-schedule or maintenance state, clock at 08:00:00. */
    constructor (numFloors: int, numElevators: int, preSchedule: map<int, Prediction>, maintenanceSchedule: map<int, MaintenanceEntry>)
      requires numFloors >= 1 && numElevators >= 1
      requires forall k | k in preSchedule :: IsFloor(preSchedule[k].floor, numFloors)
      ensures Valid() && fresh(positions)
      ensures positions.Length == numElevators && |loads| == numElevators && |manifests| == numElevators && |waiting| == numFloors
      ensures clock == StartTime
      ensures forall j | 0 <= j < numElevators :: positions[j] == 1 && loads[j] == 0 && manifests[j] == []
      ensures forall f | 0 <= f < numFloors :: waiting[f] == EmptyFloor
      ensures requestTimes == map[] && waitTimes == [] && service == Ledger(map[], []) && processed == {} && energyUsage == []
      ensures handledVips == {} && window.None? && vipTarget.None? && vipCar.None?
      ensures preschedule.None? && targets == map[] && arrived == {} && maintenance.None?
    {
      this.numFloors := numFloors;
      this.numElevators := numElevators;
      this.preSchedule := preSchedule;
      this.maintenanceSchedule := maintenanceSchedule;
      positions := new int[numElevators](_ => 1);
      loads := seq(numElevators, _ => 0);
      manifests := seq(numElevators, _ => []);
      waiting := seq(numFloors, _ => EmptyFloor);
      clock := StartTime;
      requestTimes := map[];
      waitTimes := [];
      service := Ledger(map[], []);
      processed := {};
      energyUsage := [];
      handledVips := {};
      window := None;
      vipTarget := None;
      vipCar := None;
      preschedule := None;
      targets := map[];
      arrived := {};
      maintenance := None;
    }

    // ----- VIP reservations -----

    /**
     * track_reservations: with no window open, the first reservation (in
     * feed order) whose user is not handled yet and whose time is 0..60 s in
     * the past opens a window now and marks its user handled; with a window
     * open nothing changes.
     */
    method TrackReservations(rs: seq<Reservation>)
      requires VipValid()
      requires forall r | r in rs :: IsFloor(r.entryFloor, numFloors) && IsFloor(r.destinationFloor, numFloors)
      modifies this`window, this`handledVips
      ensures VipValid()
      ensures old(window).Some? ==> window == old(window) && handledVips == old(handledVips)
      ensures old(window).None? ==>
                match FirstDue(rs, old(handledVips), clock)
                case None => window.None? && handledVips == old(handledVips)
                case Some(k) =>
                  && window == Some(ReservationWindow(rs[k].firebaseUid, rs[k], clock))
                  && handledVips == old(handledVips) + {rs[k].userUid}
      ensures State() == TrackedWindow(old(State()), rs)
    {
      var j := 0;
      while j < |rs|
        invariant 0 <= j <= |rs|
        invariant window == old(window) && handledVips == old(handledVips)
        invariant window.None? ==> forall k | 0 <= k < j :: !Opens(rs[k], handledVips, clock)
      {
        var r := rs[j];
        if r.userUid !in handledVips && r.time.Some? && 0 <= clock - r.time.value <= VipWaitSeconds {
          if window.None? {
            window := Some(ReservationWindow(r.firebaseUid, r, clock));
            handledVips := handledVips + {r.userUid};
            assert r in rs;
            return;
          }
        }
        j := j + 1;
      }
    }

    /**
     * generate_vip_passengers: unless a VIP target is already set, set one
     * (not picked up, waiting from now) and append the group
     * VIP_<uid>_0 .. VIP_<uid>_<count-1> to the entry floor's 'up' queue,
     * opening that floor's request time at now for a non-empty group.
     */
    method GenerateVipPassengers(uid: string, res: Reservation)
      requires Shape() && QueuesValid() && MetricsValid() && VipValid()
      requires IsFloor(res.entryFloor, numFloors) && IsFloor(res.destinationFloor, numFloors)
      modifies this`vipTarget, this`waiting, this`requestTimes
      ensures Shape() && QueuesValid() && MetricsValid() && VipValid()
      ensures old(vipTarget).Some? ==> vipTarget == old(vipTarget) && waiting == old(waiting) && requestTimes == old(requestTimes)
      ensures old(vipTarget).None? ==>
                && vipTarget == Some(VipTarget(res.entryFloor, res.destinationFloor, uid, res.numberOfPeople, false, clock))
                && waiting == old(waiting)[res.entryFloor - 1 := old(waiting)[res.entryFloor - 1].(up := old(waiting)[res.entryFloor - 1].up + VipGroup(uid, res.destinationFloor, res.numberOfPeople))]
                && requestTimes == if res.numberOfPeople > 0 then old(requestTimes)[res.entryFloor := clock] else old(requestTimes)
      ensures State() == Spawned(old(State()), uid, res)
    {
      if vipTarget.Some? {
        return;
      }
      ghost var s0 := State();
      var entry := res.entryFloor;
      var dest := res.destinationFloor;
      var count := res.numberOfPeople;
      vipTarget := Some(VipTarget(entry, dest, uid, count, false, clock));
      var up0 := waiting[entry - 1].up;
      assert DestsIn(up0, numFloors);
      var up := AppendVipGroup(up0, uid, dest, count);
      // every spawned entry re-stamps the floor's request time with now
      var times := if count > 0 then requestTimes[entry := clock] else requestTimes;
      waiting := waiting[entry - 1 := waiting[entry - 1].(up := up)];
      requestTimes := times;
      assert QueueDestsIn(waiting[entry - 1], numFloors);
      assert State() == s0.(vip := s0.vip.(target := vipTarget), waiting := waiting, requestTimes := requestTimes);
    }

    /**
     * The window handling of step (364-392) with the recognised uids fetched
     * this tick: an unrecognised window sets the VIP target if none is set;
     * a recognised one generates the group (which does nothing once a target
     * is set) and closes the window; otherwise the window closes after 60 s.
     */
    method CheckVipWindow(recognized: seq<string>)
      requires Shape() && QueuesValid() && MetricsValid() && VipValid()
      modifies this`vipTarget, this`waiting, this`requestTimes, this`window
      ensures Shape() && QueuesValid() && MetricsValid() && VipValid()
      ensures old(window).None? ==>
                window.None? && vipTarget == old(vipTarget) && waiting == old(waiting) && requestTimes == old(requestTimes)
      ensures old(vipTarget).Some? ==> vipTarget == old(vipTarget) && waiting == old(waiting) && requestTimes == old(requestTimes)
      ensures old(window).Some? && old(vipTarget).None? ==>
                var w := old(window).value;
                var r := w.reservation;
                if w.firebaseUid in recognized then
                  && vipTarget == Some(VipTarget(r.entryFloor, r.destinationFloor, w.firebaseUid, r.numberOfPeople, false, clock))
                  && waiting == old(waiting)[r.entryFloor - 1 := old(waiting)[r.entryFloor - 1].(up := old(waiting)[r.entryFloor - 1].up + VipGroup(w.firebaseUid, r.destinationFloor, r.numberOfPeople))]
                  && requestTimes == if r.numberOfPeople > 0 then old(requestTimes)[r.entryFloor := clock] else old(requestTimes)
                else
                  && vipTarget == Some(VipTarget(r.entryFloor, r.destinationFloor, r.firebaseUid, r.numberOfPeople, false, clock))
                  && waiting == old(waiting) && requestTimes == old(requestTimes)
      ensures old(window).Some? ==>
                var w := old(window).value;
                window == if w.firebaseUid in recognized || clock - w.start > VipWaitSeconds then None else old(window)
      ensures State() == WindowChecked(old(State()), recognized)
    {
      if window.Some? {
        var w := window.value;
        var isRecognized := w.firebaseUid in recognized;
        if !isRecognized && vipTarget.None? {
          var r := w.reservation;
          vipTarget := Some(VipTarget(r.entryFloor, r.destinationFloor, r.firebaseUid, r.numberOfPeople, false, clock));
        }
        if isRecognized {
          GenerateVipPassengers(w.firebaseUid, w.reservation);
          window := None;
        } else if clock - w.start > VipWaitSeconds {
          window := None;
        }
      }
    }
  
    // ----- Metrics -----

    /**
     * track_wait_time: an elevator reaching floor f with an open request
     * records one wait sample (now minus the request time) and closes the
     * request only if nobody is left waiting there.
     */
    method TrackWaitTime(f: int, now: int)
      requires MetricsValid() && now == clock
      requires Shape() && IsFloor(f, numFloors)
      modifies this`waitTimes, this`requestTimes
      ensures MetricsValid()
      ensures waitTimes == old(waitTimes) + WaitSample(old(requestTimes), f, now)
      ensures requestTimes == Unserved(old(requestTimes), waiting[f - 1], f)
    {
      if f in requestTimes {
        var requested := requestTimes[f];
        waitTimes := waitTimes + [now - requested];
        if waiting[f - 1].up == [] && waiting[f - 1].down == [] {
          requestTimes := requestTimes - {f};
        }
      } else {
        assert requestTimes - {f} == requestTimes;
      }
    }

    /**
     * track_service_time: a passenger leaving a car with an open boarding
     * time records one service sample and the boarding time is popped.
     */
    method TrackServiceTime(pid: PassengerId, now: int)
      modifies this`service
      ensures service == Close(old(service), pid, now)
    {
      if pid in service.open {
        var boarded := service.open[pid];
        service := Ledger(service.open - {pid}, service.samples + [now - boarded]);
      }
    }

    // ----- Alighting and boarding -----

    /**
     * handle_passenger_movement for car i stopping at floor f (760-816):
     * record the floor's wait, let everyone bound for f alight and record
     * their service times, then, below capacity, board in queue order the
     * entries of the pickup queue allowed on this car, as many as fit,
     * stamping their boarding times; finally close the floor's request if
     * nobody waits there any more. Boarding.StopProperties states what such
     * a stop achieves.
     */
    method HandlePassengerMovement(i: int, f: int)
      requires Shape() && CarsValid() && QueuesValid() && MetricsValid()
      requires 0 <= i < numElevators && IsFloor(f, numFloors)
      modifies this`manifests, this`loads, this`waiting, this`requestTimes, this`waitTimes, this`service
      ensures Shape() && CarsValid() && QueuesValid() && MetricsValid()
      ensures manifests == old(manifests)[i := ManifestAfter(old(manifests[i]), old(waiting[f - 1]), f, i, old(vipCar))]
      ensures loads == old(loads)[i := |ManifestAfter(old(manifests[i]), old(waiting[f - 1]), f, i, old(vipCar))|]
      ensures waiting == old(waiting)[f - 1 := QueueAfter(old(manifests[i]), old(waiting[f - 1]), f, i, old(vipCar))]
      ensures var closed := CloseAll(old(service), Ids(Exiting(old(manifests[i]), f)), old(clock));
              service == Ledger(StampAll(closed.open, BoardedAt(old(manifests[i]), old(waiting[f - 1]), f, i, old(vipCar)), old(clock)), closed.samples)
      ensures waitTimes == old(waitTimes) + WaitSample(old(requestTimes), f, old(clock))
      ensures requestTimes == Unserved(old(requestTimes), waiting[f - 1], f)
    {
      ghost var m := ManifestAfter(manifests[i], waiting[f - 1], f, i, vipCar);
      assert ManifestsValid(loads[i := |m|], manifests[i := m], numFloors)
          && QueuesDestsIn(waiting[f - 1 := QueueAfter(manifests[i], waiting[f - 1], f, i, vipCar)], numFloors) by {
        StopKeepsManifests(loads, manifests, waiting, i, f, vipCar, numFloors);
        StopKeepsQueues(manifests, waiting, i, f, vipCar, numFloors);
      }
      ghost var q := waiting[f - 1];
      ghost var pending := requestTimes;
      ArriveAt(i, f);
      assert manifests == old(manifests) && loads == old(loads) && waiting == old(waiting);
      StopAt(i, f);
      assert waiting[f - 1].HasWaiting() ==> q.HasWaiting();
      CloseServedRequest(f);
      assert requestTimes == Unserved(pending, waiting[f - 1], f) by {
        UnservedTwice(pending, q, waiting[f - 1], f);
      }
    }

    /** The closing cleanup (813-816): the floor's request goes once nobody waits there. */
    method CloseServedRequest(f: int)
      requires Shape() && MetricsValid() && IsFloor(f, numFloors)
      modifies this`requestTimes
      ensures MetricsValid()
      ensures requestTimes == Unserved(old(requestTimes), waiting[f - 1], f)
    {
      if waiting[f - 1].up == [] && waiting[f - 1].down == [] && f in requestTimes {
        requestTimes := requestTimes - {f};
      }
    }

    /**
     * Arrival bookkeeping (763-776): the floor's wait sample, then the
     * service samples of everyone about to leave.
     */
    method ArriveAt(i: int, f: int)
      requires Shape() && MetricsValid() && 0 <= i < numElevators && IsFloor(f, numFloors)
      modifies this`requestTimes, this`waitTimes, this`service
      ensures MetricsValid()
      ensures service == CloseAll(old(service), Ids(Exiting(old(manifests[i]), f)), old(clock))
      ensures waitTimes == old(waitTimes) + WaitSample(old(requestTimes), f, old(clock))
      ensures requestTimes == Unserved(old(requestTimes), old(waiting[f - 1]), f)
    {
      TrackWaitTime(f, clock);
      ServiceExits(i, f);
    }

    /**
     * Drop-off followed by boarding (778-811), as Boarding.PlanStop
     * describes it on values.
     */
    method StopAt(i: int, f: int)
      requires Shape() && MetricsValid() && 0 <= i < numElevators && IsFloor(f, numFloors)
      requires loads[i] == |manifests[i]|
      modifies this`manifests, this`loads, this`waiting, this`service
      ensures MetricsValid()
      ensures manifests == old(manifests)[i := ManifestAfter(old(manifests[i]), old(waiting[f - 1]), f, i, old(vipCar))]
      ensures loads == old(loads)[i := |ManifestAfter(old(manifests[i]), old(waiting[f - 1]), f, i, old(vipCar))|]
      ensures waiting == old(waiting)[f - 1 := QueueAfter(old(manifests[i]), old(waiting[f - 1]), f, i, old(vipCar))]
      ensures service == Ledger(StampAll(old(service.open), BoardedAt(old(manifests[i]), old(waiting[f - 1]), f, i, old(vipCar)), old(clock)), old(service.samples))
      ensures waiting[f - 1].HasWaiting() ==> old(waiting[f - 1]).HasWaiting()
    {
      AlightAt(i, f);
      Board(i, f);
    }

    /** Drop-off (778-782): the entries bound for f leave car i; its load follows. */
    method AlightAt(i: int, f: int)
      requires 0 <= i < |manifests| == |loads|
      modifies this`manifests, this`loads
      ensures manifests == old(manifests)[i := Alight(old(manifests[i]), f)]
      ensures loads == old(loads)[i := |Alight(old(manifests[i]), f)|]
    {
      var alighted := Alight(manifests[i], f);
      manifests := manifests[i := alighted];
      loads := loads[i := |alighted|];
    }

    /** The exiting entries' service times, closed in manifest order (773-776). */
    method ServiceExits(i: int, f: int)
      requires 0 <= i < |manifests| && MetricsValid()
      modifies this`service
      ensures service == CloseAll(old(service), Ids(Exiting(manifests[i], f)), clock)
      ensures MetricsValid()
    {
      var exited := Exiting(manifests[i], f);
      ghost var ids := Ids(exited);
      var j := 0;
      while j < |exited|
        invariant 0 <= j <= |exited|
        invariant service == CloseAll(old(service), ids[..j], clock)
        invariant MetricsValid()
      {
        assert ids[..j + 1][..j] == ids[..j];
        TrackServiceTime(exited[j].id, clock);
        j := j + 1;
      }
      assert ids[..j] == ids;
    }

    /**
     * Boarding at floor f (779-811): below capacity, filter the pickup queue
     * ('up' if non-empty, else 'down') by the VIP rule, then move the
     * filtered entries, in order and while the car has room, from the queue
     * to the manifest, stamping each boarding time with the clock.
     */
    method Board(i: int, f: int)
      requires Shape() && MetricsValid() && 0 <= i < numElevators && IsFloor(f, numFloors)
      requires loads[i] == |manifests[i]|
      modifies this`manifests, this`loads, this`waiting, this`service
      ensures MetricsValid()
      ensures var q := old(waiting[f - 1]);
              var d := PickupDirection(q);
              var e := Eligible(q.Get(d), i, vipCar);
              var k := BoardCount(old(manifests[i]), e);
              && manifests == old(manifests)[i := old(manifests[i]) + e[..k]]
              && loads == old(loads)[i := old(loads[i]) + k]
              && waiting == old(waiting)[f - 1 := q.Put(d, Unboard(q.Get(d), i, vipCar, k))]
              && service == Ledger(StampAll(old(service.open), e[..k], clock), old(service.samples))
    {
      var q := waiting[f - 1];
      var d := PickupDirection(q);
      var src := q.Get(d);
      if loads[i] < MaxCapacity {
        var filtered := FilteredQueue(src, i);
        BoardFiltered(i, f, d, src, filtered);
      } else {
        UnboardNone(src, i, vipCar);
        assert q.Put(d, src) == q;
        assert Eligible(src, i, vipCar)[..0] == [];
        assert old(manifests[i]) + [] == old(manifests[i]);
      }
    }

    /**
     * The boarding loop (799-811): while the car has room, each filtered
     * entry is removed from the pickup queue, stamped with the boarding time
     * and added to the manifest. list.remove would raise on an absent entry;
     * Boarding.UnboardIsRemoveEach shows every filtered entry is present.
     */
    method BoardFiltered(i: int, f: int, d: Direction, src: seq<Passenger>, filtered: seq<Passenger>)
      requires Shape() && MetricsValid() && 0 <= i < numElevators && IsFloor(f, numFloors)
      requires loads[i] == |manifests[i]|
      requires waiting[f - 1].Get(d) == src && filtered == Eligible(src, i, vipCar)
      modifies this`manifests, this`loads, this`waiting, this`service
      ensures MetricsValid()
      ensures var k := BoardCount(old(manifests[i]), filtered);
              && manifests == old(manifests)[i := old(manifests[i]) + filtered[..k]]
              && loads == old(loads)[i := old(loads[i]) + k]
              && waiting == old(waiting)[f - 1 := old(waiting[f - 1]).Put(d, Unboard(src, i, vipCar, k))]
              && service == Ledger(StampAll(old(service.open), filtered[..k], clock), old(service.samples))
    {
      var manifest, queue, open := BoardInOrder(manifests[i], src, filtered, service.open, clock);
      BoardedQueue(src, i, vipCar, filtered, BoardCount(manifests[i], filtered), queue);
      waiting := waiting[f - 1 := waiting[f - 1].Put(d, queue)];
      service := Ledger(open, service.samples);
      manifests := manifests[i := manifest];
      loads := loads[i := |manifest|];
    }

    /** filtered_queue (787-798): the entries of src allowed on car i, in queue order. */
    method FilteredQueue(src: seq<Passenger>, i: int) returns (filtered: seq<Passenger>)
      ensures filtered == Eligible(src, i, vipCar)
    {
      filtered := [];
      var j := 0;
      while j < |src|
        invariant 0 <= j <= |src|
        invariant filtered == Eligible(src[..j], i, vipCar)
      {
        var p := src[j];
        var isVip := IsVipId(p.id);
        assert Eligible(src[..j + 1], i, vipCar) == filtered + Keep(p, i, vipCar) by {
          EligibleConcat(src[..j], [p], i, vipCar);
          assert src[..j + 1] == src[..j] + [p];
          assert [p][1..] == [];
        }
        if isVip && vipCar != Some(i) {
        } else if !isVip && vipCar == Some(i) {
        } else {
          filtered := filtered + [p];
        }
        j := j + 1;
      }
      assert src[..j] == src;
    }

    // ----- Mode and pre-schedule -----

    /**
     * detect_elevator_mode (646-756): the mode of Modes.DetectMode, starting
     * or ending maintenance as it decides.
     */
    method DetectElevatorMode() returns (mode: Mode)
      requires Shape() && ScheduleValid()
      modifies this`maintenance
      ensures ScheduleValid()
      ensures var d := DetectMode(clock, OverridesOf(old(State()), preSchedule, maintenanceSchedule), TrafficOf(old(State())));
              mode == d.mode && maintenance == d.maintenance
    {
      var d := DetectMode(clock, OverridesOf(State(), preSchedule, maintenanceSchedule), TrafficOf(State()));
      maintenance := d.maintenance;
      mode := d.mode;
    }

    /**
     * Entering PRESCHEDULE (400-405): with no event active, the event keyed
     * by the clock becomes active with no targets and no arrivals.
     */
    method StartPreschedule()
      requires ScheduleValid()
      requires preschedule.Some? || TimeKey(clock) in preSchedule
      modifies this`preschedule, this`targets, this`arrived
      ensures ScheduleValid() && preschedule.Some?
      ensures old(preschedule).Some? ==> preschedule == old(preschedule) && targets == old(targets) && arrived == old(arrived)
      ensures old(preschedule).None? ==> preschedule == Some(preSchedule[TimeKey(clock)]) && targets == map[] && arrived == {}
    {
      if preschedule.None? {
        preschedule := Some(preSchedule[TimeKey(clock)]);
        targets := map[];
        arrived := {};
      }
    }

    /**
     * The assignment loop (409-424): while short of the required count, give
     * each car in index order that has not arrived, is empty and has no
     * target the event's floor.
     */
    method AssignPrescheduleCars()
      requires Shape() && ScheduleValid() && preschedule.Some?
      modifies this`targets
      ensures ScheduleValid()
      ensures targets == AssignFrom(old(targets), arrived, loads, preschedule.value.floor, preschedule.value.numElevators, 0)
    {
      var floor := preschedule.value.floor;
      var required := preschedule.value.numElevators;
      var assignedCount := |targets|;
      if assignedCount < required {
        var eid := 0;
        while eid < numElevators
          invariant 0 <= eid <= numElevators
          invariant assignedCount == |targets| < required
          invariant forall k | k in targets :: IsFloor(targets[k], numFloors)
          invariant AssignFrom(old(targets), arrived, loads, floor, required, 0) == AssignFrom(targets, arrived, loads, floor, required, eid)
        {
          if eid !in arrived && loads[eid] == 0 && eid !in targets {
            targets := targets[eid := floor];
            assignedCount := assignedCount + 1;
            if assignedCount >= required {
              assert AssignFrom(targets, arrived, loads, floor, required, eid + 1) == targets;
              return;
            }
          }
          eid := eid + 1;
        }
      }
    }

    /** handle_preschedule_routing (510-523): a car standing on its target joins the arrived set. */
    method HandlePrescheduleRouting(i: int) returns (move: int)
      requires Shape() && 0 <= i < numElevators
      modifies this`arrived
      ensures move == PrescheduleRouting(positions[..], targets, waiting, i)
      ensures arrived == if i in targets && positions[i] == targets[i] then old(arrived) + {i} else old(arrived)
    {
      if i in targets {
        var target := targets[i];
        var current := positions[i];
        if current != target {
          move := Sign(target - current);
        } else {
          arrived := arrived + {i};
          move := 0;
        }
      } else {
        move := EnergyEfficientRouting(positions[..], waiting, i);
      }
    }

    /** default_elevator_logic (494-508). */
    method DefaultElevatorLogic(i: int, mode: Mode) returns (move: int)
      requires Shape() && 0 <= i < numElevators
      modifies this`arrived
      ensures move == DefaultRouting(mode, positions[..], loads, manifests[i], waiting, targets, i)
      ensures arrived == if loads[i] == 0 && mode == Preschedule && i in targets && positions[i] == targets[i] then old(arrived) + {i} else old(arrived)
      ensures (move, State()) == DefaultTurn(old(State()), i, mode)
    {
      if loads[i] > 0 {
        move := MoveToPassengerDestination(manifests[i], positions[i]);
      } else if mode == Preschedule {
        move := HandlePrescheduleRouting(i);
      } else if mode == Rush {
        move := NearestCarScan(waiting, positions[i]);
      } else if mode == DynamicAssign {
        move := DynamicAssignRouting(positions[..], loads, waiting, i);
      } else if mode == Normal {
        move := EnergyEfficientRouting(positions[..], waiting, i);
      } else {
        move := EnergyEfficientRoutingBest(positions[..], loads, waiting, i);
      }
    }

    /**
     * The PRESCHEDULE exit (466-471): once as many cars have arrived as the
     * event requires, the event and its targets and arrivals are cleared.
     */
    method FinishPreschedule()
      requires ScheduleValid()
      modifies this`preschedule, this`targets, this`arrived
      ensures ScheduleValid()
      ensures preschedule.Some? ==> |arrived| < preschedule.value.numElevators
      ensures old(preschedule).Some? && |old(arrived)| >= old(preschedule).value.numElevators ==>
                preschedule.None? && targets == map[] && arrived == {}
      ensures !(old(preschedule).Some? && |old(arrived)| >= old(preschedule).value.numElevators) ==>
                preschedule == old(preschedule) && targets == old(targets) && arrived == old(arrived)
      ensures State() == Cleared(old(State()))
    {
      if preschedule.Some? && |arrived| >= preschedule.value.numElevators {
        preschedule := None;
        targets := map[];
        arrived := {};
      }
    }

    // ----- VIP routing -----

    /**
     * assign_vip_elevator (527-551): a car once chosen stays the VIP car;
     * otherwise the empty car nearest to the entry floor (lowest index on
     * ties) becomes it, if there is one.
     */
    method AssignVipElevator(entry: int) returns (car: Option<int>)
      requires Shape() && CarsValid() && VipValid()
      modifies this`vipCar
      ensures VipValid()
      ensures old(vipCar).Some? ==> car == old(vipCar) && vipCar == old(vipCar)
      ensures old(vipCar).None? ==> car == FirstNearestCar(positions[..], IdleMask(loads), entry) && vipCar == car
    {
      if vipCar.Some? {
        return vipCar;
      }
      ghost var ps := positions[..];
      ghost var idle := IdleMask(loads);
      var best: Option<int> := None;
      // None stands for the float('inf') starting distance
      var bestDistance: Option<nat> := None;
      var j := 0;
      while j < numElevators
        invariant 0 <= j <= numElevators
        invariant best.Some? ==> 0 <= best.value < j
        invariant bestDistance.Some? <==> best.Some?
        invariant best.Some? ==> bestDistance.value == Abs(entry - ps[best.value])
        invariant ScanCars(ps, idle, entry, j, best) == ScanCars(ps, idle, entry, 0, None)
      {
        var isEmpty := loads[j] == 0;
        var notHandling := |manifests[j]| == 0;
        if isEmpty && notHandling {
          var dist := Abs(positions[j] - entry);
          if bestDistance.None? || dist < bestDistance.value {
            best := Some(j);
            bestDistance := Some(dist);
          }
        }
        j := j + 1;
      }
      if best.Some? {
        vipCar := best;
      }
      car := best;
    }
  
    /** The VIP bookkeeping handle_vip_routing may change. */
    function VipState(): VipBook
      reads this`vipTarget, this`vipCar, this`window, this`handledVips
    {
      VipBook(vipTarget, vipCar, window, handledVips)
    }

    /**
     * handle_vip_routing (553-617): for the VIP car, the move and the VIP
     * bookkeeping of VipRoute, with the group found when a member is aboard
     * or waiting in the entry floor's 'up' queue (VipRouteProgress states
     * what that achieves); any other car gets None and nothing changes.
     */
    method HandleVipRouting(i: int) returns (move: Option<int>)
      requires Shape() && PositionsValid() && VipValid() && 0 <= i < numElevators
      modifies this`vipTarget, this`vipCar, this`window, this`handledVips
      ensures VipValid()
      ensures !(old(vipTarget).Some? && old(vipCar) == Some(i)) ==> move.None? && VipState() == old(VipState())
      ensures old(vipTarget).Some? && old(vipCar) == Some(i) ==>
                var v := old(vipTarget).value;
                && move.Some?
                && (move.value, VipState()) == VipRoute(old(VipState()), positions[i], GroupFound(v.firebaseUid, manifests[i], waiting[v.entryFloor - 1].up), clock)
    {
      if vipTarget.None? || vipCar != Some(i) {
        return None;
      }
      var vip := vipTarget.value;
      var entry := vip.entryFloor;
      var dest := vip.destinationFloor;
      var current := positions[i];
      SignStaysBetween(current, entry, numFloors);
      SignStaysBetween(current, dest, numFloors);
      if !vip.pickedUp {
        if current != entry {
          return Some(Sign(entry - current));
        }
        var onboardVips := HasGroupMember(manifests[i], vip.firebaseUid);
        if onboardVips {
          vipTarget := Some(vip.(pickedUp := true));
          return Some(Sign(dest - current));
        }
        var vipWaiting := HasGroupMember(waiting[entry - 1].up, vip.firebaseUid);
        if vipWaiting {
          vipTarget := Some(vip.(pickedUp := true));
          return Some(Sign(dest - current));
        }
        var waitTime := clock - vip.waitStart;
        if waitTime < VipWaitSeconds {
          return Some(0);
        }
        vipTarget := None;
        vipCar := None;
        window := None;
        return Some(0);
      }
      if current == dest {
        vipTarget := None;
        vipCar := None;
        window := None;
        handledVips := handledVips + {vip.firebaseUid};
        return Some(0);
      }
      return Some(Sign(dest - current));
    }
  
    // ----- The tick -----

    /**
     * One car's move in step's car loop (427-447): the maintenance car stays
     * offline and the others serve passengers or the nearest waiting floor;
     * under VIP or VIP_PENDING with a VIP target the car holding the VIP
     * assignment follows handle_vip_routing (None counting as 0); every
     * other case is default_elevator_logic.
     */
    method DispatchCar(i: int, mode: Mode) returns (move: int)
      requires Valid() && 0 <= i < numElevators
      requires mode == Maintenance ==> maintenance.Some?
      modifies this`arrived, this`vipCar, this`vipTarget, this`window, this`handledVips
      ensures Valid()
      ensures -1 <= move <= 1 && IsFloor(positions[i] + move, numFloors)
      ensures mode == Maintenance && i == maintenance.value.elevatorId ==> move == 0
      ensures mode == Maintenance && i != maintenance.value.elevatorId ==>
                move == if loads[i] > 0 then MoveToPassengerDestination(manifests[i], positions[i]) else NearestCarScan(waiting, positions[i])
      ensures (move, State()) == Dispatch(old(State()), i, mode)
    {
      if mode == Maintenance {
        if i == maintenance.value.elevatorId {
          move := 0;
        } else if loads[i] > 0 {
          move := MoveToPassengerDestination(manifests[i], positions[i]);
          MoveToPassengerDestinationInside(manifests[i], positions[i], numFloors);
        } else {
          move := NearestCarScan(waiting, positions[i]);
        }
      } else if (mode == Vip || mode == VipPending) && vipTarget.Some? {
        move := DispatchVipCar(i, mode);
      } else {
        move := DefaultElevatorLogic(i, mode);
        DefaultRoutingInside(mode, positions[..], loads, manifests[i], waiting, targets, i);
      }
    }

    /**
     * The VIP branch of step's car loop (434-443): the VIP car (assigned on
     * demand) follows handle_vip_routing, None counting as 0; every other car
     * follows default_elevator_logic.
     */
    method DispatchVipCar(i: int, mode: Mode) returns (move: int)
      requires Shape() && PositionsValid() && CarsValid() && VipValid() && ScheduleValid() && 0 <= i < numElevators
      requires vipTarget.Some?
      modifies this`arrived, this`vipCar, this`vipTarget, this`window, this`handledVips
      ensures VipValid()
      ensures -1 <= move <= 1 && IsFloor(positions[i] + move, numFloors)
      ensures (move, State()) == VipTurn(old(State()), i, mode)
    {
      ghost var s0 := State();
      var vipAssigned := AssignVipElevator(vipTarget.value.entryFloor);
      assert State() == s0.(vip := s0.vip.(car := vipAssigned));
      move := TakeVipCarTurn(i, mode);
    }

    /** The VIP car's turn or, for any other car, the default one (436-443). */
    method TakeVipCarTurn(i: int, mode: Mode) returns (move: int)
      requires Shape() && PositionsValid() && CarsValid() && VipValid() && ScheduleValid() && 0 <= i < numElevators
      requires vipTarget.Some?
      modifies this`arrived, this`vipTarget, this`vipCar, this`window, this`handledVips
      ensures VipValid()
      ensures -1 <= move <= 1 && IsFloor(positions[i] + move, numFloors)
      ensures (move, State()) == VipCarTurn(old(State()), i, mode)
    {
      if vipCar == Some(i) {
        move := RouteVipCar(i);
      } else {
        move := DefaultElevatorLogic(i, mode);
        DefaultRoutingInside(mode, positions[..], loads, manifests[i], waiting, targets, i);
      }
    }

    /** The VIP car's turn (436-440): handle_vip_routing, None counting as 0. */
    method RouteVipCar(i: int) returns (move: int)
      requires Shape() && PositionsValid() && VipValid() && 0 <= i < numElevators
      requires vipTarget.Some? && vipCar == Some(i)
      modifies this`vipTarget, this`vipCar, this`window, this`handledVips
      ensures VipValid()
      ensures -1 <= move <= 1 && IsFloor(positions[i] + move, numFloors)
      ensures var v := old(vipTarget).value;
              var found := HasGroupMember(manifests[i], v.firebaseUid)
                           || (IsFloor(v.entryFloor, |waiting|) && HasGroupMember(waiting[v.entryFloor - 1].up, v.firebaseUid));
              var r := VipRoute(old(VipState()), positions[i], found, clock);
              move == r.0 && State() == old(State()).(vip := r.1)
    {
      ghost var v := vipTarget.value;
      ghost var found := GroupFound(v.firebaseUid, manifests[i], waiting[v.entryFloor - 1].up);
      VipRouteProgress(VipState(), positions[i], found, clock, numFloors);
      var routed := HandleVipRouting(i);
      move := routed.value;
    }

    /**
     * Applying a move (448-455): the car moves only when the new floor
     * exists, and the energy it adds is the floors it travelled.
     */
    method ApplyMove(i: int, move: int) returns (delta: nat)
      requires PositionsValid() && 0 <= i < positions.Length
      modifies positions
      ensures PositionsValid()
      ensures positions[..] == old(positions[..])[i := if IsFloor(old(positions[i]) + move, numFloors) then old(positions[i]) + move else old(positions[i])]
      ensures delta == Abs(positions[i] - old(positions[i]))
    {
      var oldPosition := positions[i];
      var newPosition := oldPosition + move;
      delta := 0;
      if 1 <= newPosition <= numFloors {
        positions[i] := newPosition;
        delta := Abs(newPosition - oldPosition);
      }
    }

    /**
     * The passenger step of the car loop (457-459): every car but the one
     * under maintenance stops at floor f; the maintenance car's passengers
     * and the floor's queues are left alone.
     */
    method ServeUnlessOffline(i: int, f: int, mode: Mode)
      requires Shape() && CarsValid() && QueuesValid() && MetricsValid()
      requires 0 <= i < numElevators && IsFloor(f, numFloors)
      requires mode == Maintenance ==> maintenance.Some?
      modifies this`manifests, this`loads, this`waiting, this`requestTimes, this`waitTimes, this`service
      ensures Shape() && CarsValid() && QueuesValid() && MetricsValid()
      ensures State() == if mode == Maintenance && i == maintenance.value.elevatorId then old(State()) else Stopped(old(State()), i, f)
    {
      if !(mode == Maintenance && i == maintenance.value.elevatorId) {
        ghost var s0 := State();
        HandlePassengerMovement(i, f);
        assert State() == s0.(loads := loads, manifests := manifests, waiting := waiting,
                              requestTimes := requestTimes, waitTimes := waitTimes, service := service);
      }
    }

    /**
     * Carrying out a move (448-459): the car moves to the new floor, adding
     * the floors it travelled as energy, and passengers alight and board
     * there unless it is the car under maintenance.
     */
    method CarryOut(i: int, move: int, mode: Mode, ghost s0: Engine) returns (delta: nat)
      requires Valid()
      requires 0 <= i < numElevators && IsFloor(positions[i] + move, numFloors)
      requires mode == Maintenance ==> maintenance.Some?
      requires s0.Sized() && i < |s0.positions| && (mode == Maintenance ==> s0.maintenance.Some?)
      requires s0.positions == positions[..] && (move, State()) == Dispatch(s0, i, mode)
      modifies positions, this`manifests, this`loads, this`waiting, this`requestTimes, this`waitTimes, this`service
      ensures Valid()
      ensures positions[..] == old(positions[..])[i := old(positions[i]) + move]
      ensures delta == Abs(move)
      ensures State() == CarTurn(s0, i, mode)
    {
      ghost var s1 := State();
      ghost var f := positions[i] + move;
      delta := ApplyMove(i, move);
      assert State() == s1.(positions := s1.positions[i := f]);
      ServeUnlessOffline(i, positions[i], mode);
      CarTurnArrives(s0, i, mode, move, s1, f, State());
    }

    /**
     * One iteration of step's car loop (427-459): dispatch car i, then carry
     * out its move. delta is the energy the car adds.
     */
    method MoveCar(i: int, mode: Mode) returns (delta: nat)
      requires Valid() && 0 <= i < numElevators
      requires mode == Maintenance ==> maintenance.Some?
      modifies positions, this`arrived, this`vipCar, this`vipTarget, this`window, this`handledVips
      modifies this`manifests, this`loads, this`waiting, this`requestTimes, this`waitTimes, this`service
      ensures Valid()
      ensures positions[..] == old(positions[..])[i := positions[i]]
      ensures delta == Abs(positions[i] - old(positions[i])) && delta <= 1
      ensures mode == Maintenance && i == maintenance.value.elevatorId ==> positions[i] == old(positions[i])
      ensures State() == CarTurn(old(State()), i, mode)
    {
      var move := DispatchCar(i, mode);
      delta := CarryOut(i, move, mode, old(State()));
    }

    /**
     * Phase 1 of step (361-392): track the reservations, then handle the
     * VIP recognition window.
     */
    method HandleReservations(reservations: seq<Reservation>, recognized: seq<string>)
      requires Shape() && QueuesValid() && MetricsValid() && VipValid()
      requires forall r | r in reservations :: IsFloor(r.entryFloor, numFloors) && IsFloor(r.destinationFloor, numFloors)
      modifies this`window, this`handledVips, this`vipTarget, this`waiting, this`requestTimes
      ensures Shape() && QueuesValid() && MetricsValid() && VipValid()
      ensures State() == Reserved(old(State()), reservations, recognized)
    {
      TrackReservations(reservations);
      CheckVipWindow(recognized);
    }

    /**
     * The mode of the tick (394-424): detect it, and under PRESCHEDULE start
     * the event due now (unless one is running) and assign cars to it.
     */
    method ChooseMode() returns (mode: Mode)
      requires Shape() && ScheduleValid()
      modifies this`maintenance, this`preschedule, this`targets, this`arrived
      ensures ScheduleValid()
      ensures mode == Maintenance ==> maintenance.Some?
      ensures mode == TickMode(old(State()), preSchedule, maintenanceSchedule)
      ensures State() == ModeSetUp(old(State()), preSchedule, maintenanceSchedule)
    {
      mode := DetectElevatorMode();
      if mode == Preschedule {
        EnterPreschedule();
      }
    }

    /** Entering PRESCHEDULE (400-424), as PrescheduleSetUp describes it. */
    method EnterPreschedule()
      requires Shape() && ScheduleValid()
      requires preschedule.Some? || TimeKey(clock) in preSchedule
      modifies this`preschedule, this`targets, this`arrived
      ensures ScheduleValid()
      ensures State() == PrescheduleSetUp(old(State()), preSchedule)
    {
      StartPreschedule();
      AssignPrescheduleCars();
    }

    /**
     * The start of step (361-424): reservations and the VIP window are
     * handled, then the mode is chosen.
     */
    method BeginTick(reservations: seq<Reservation>, recognized: seq<string>) returns (mode: Mode)
      requires Valid()
      requires forall r | r in reservations :: IsFloor(r.entryFloor, numFloors) && IsFloor(r.destinationFloor, numFloors)
      modifies this`window, this`handledVips, this`vipTarget, this`waiting, this`requestTimes
      modifies this`maintenance, this`preschedule, this`targets, this`arrived
      ensures Valid()
      ensures mode == Maintenance ==> maintenance.Some?
      ensures var begun := Reserved(old(State()), reservations, recognized);
              mode == TickMode(begun, preSchedule, maintenanceSchedule) && State() == ModeSetUp(begun, preSchedule, maintenanceSchedule)
    {
      HandleReservations(reservations, recognized);
      mode := ChooseMode();
    }

    /**
     * step's car loop (426-459): every car in index order moves at most one
     * floor; the energy is the total displacement and the maintenance car
     * stays put.
     */
    method MoveCars(mode: Mode) returns (energy: nat)
      requires Valid()
      requires mode == Maintenance ==> maintenance.Some?
      modifies positions, this`arrived, this`vipCar, this`vipTarget, this`window, this`handledVips
      modifies this`manifests, this`loads, this`waiting, this`requestTimes, this`waitTimes, this`service
      ensures Valid()
      ensures State() == CarsAfter(old(State()), mode, numElevators)
      ensures OneFloorMoves(old(positions[..]), positions[..])
      ensures energy == Displacement(old(positions[..]), positions[..]) && energy <= numElevators
      ensures mode == Maintenance ==> var m := maintenance.value.elevatorId; 0 <= m < numElevators ==> positions[m] == old(positions[m])
    {
      ghost var before := positions[..];
      ghost var frozen := if mode == Maintenance then maintenance.value.elevatorId else -1;
      energy := 0;
      MovedNone(before, frozen);
      for i := 0 to numElevators
        invariant Valid()
        invariant mode == Maintenance ==> maintenance.Some?
        invariant frozen == if mode == Maintenance then maintenance.value.elevatorId else -1
        invariant MovedSoFar(before, positions[..], i, frozen, energy)
        invariant State() == CarsAfter(old(State()), mode, i)
      {
        energy := MoveCarCounted(i, mode, old(State()), before, frozen, energy);
      }
      ghost var after := positions[..];
      assert OneFloorMoves(before, after)
          && (0 <= frozen < numElevators ==> after[frozen] == before[frozen])
          && energy == Displacement(before, after) && energy <= numElevators by {
        MovedAll(before, after, frozen, energy);
      }
    }

    /**
     * The body of step's car loop: car i takes its turn after the cars
     * before it, and its displacement is added to the tick's energy.
     */
    method MoveCarCounted(i: int, mode: Mode, ghost start: Engine, ghost before: seq<int>, ghost frozen: int, energy: nat) returns (energy': nat)
      requires Valid() && 0 <= i < numElevators
      requires mode == Maintenance ==> maintenance.Some?
      requires start.Sized() && i < |start.positions| && (mode == Maintenance ==> start.maintenance.Some?)
      requires State() == CarsAfter(start, mode, i)
      requires frozen == if mode == Maintenance then maintenance.value.elevatorId else -1
      requires MovedSoFar(before, positions[..], i, frozen, energy)
      modifies positions, this`arrived, this`vipCar, this`vipTarget, this`window, this`handledVips
      modifies this`manifests, this`loads, this`waiting, this`requestTimes, this`waitTimes, this`service
      ensures Valid()
      ensures MovedSoFar(before, positions[..], i + 1, frozen, energy')
      ensures State() == CarsAfter(start, mode, i + 1)
    {
      ghost var prev := positions[..];
      var delta := MoveCar(i, mode);
      assert MovedSoFar(before, positions[..], i + 1, frozen, energy + delta) by {
        MovedOneMore(before, prev, positions[..], i, frozen, energy, delta);
      }
      assert State() == CarsAfter(start, mode, i + 1) by {
        CarsAfterStep(start, mode, i);
      }
      energy' := energy + delta;
    }

    /** The clock advance of step (462): five seconds later, every invariant tied to the clock still holds. */
    method AdvanceClock()
      requires MetricsValid() && VipValid() && ScheduleValid()
      modifies this`clock
      ensures MetricsValid() && VipValid() && ScheduleValid()
      ensures clock == old(clock) + TimePerStep
    {
      clock := clock + TimePerStep;
    }

    /**
     * The clock advance and passenger fetch of step (461-463): five seconds
     * later, the rows fetched are merged into the queues.
     */
    method NextPassengers(rows: seq<Row>)
      requires Shape() && QueuesValid() && MetricsValid() && VipValid() && ScheduleValid()
      requires forall row | row in rows :: IsFloor(row.dest, numFloors)
      modifies this`clock, this`waiting, this`processed, this`requestTimes
      ensures Shape() && QueuesValid() && MetricsValid() && VipValid() && ScheduleValid()
      ensures clock == old(clock) + TimePerStep
      ensures Intake(waiting, processed, requestTimes) == Ingest(old(Intake(waiting, processed, requestTimes)), rows, clock)
      ensures State() == Fed(old(State()), rows)
    {
      ghost var s0 := State();
      AdvanceClock();
      UpdatePassengers(rows);
      ghost var intake := Ingest(Intake(s0.waiting, s0.processed, s0.requestTimes), rows, s0.clock + TimePerStep);
      assert Intake(waiting, processed, requestTimes) == intake;
      assert State() == s0.(clock := clock, waiting := intake.waiting, processed := intake.processed, requestTimes := intake.requestTimes);
    }

    /**
     * The end of step (461-492): the clock advances and new passengers are
     * fetched, a finished pre-schedule event is cleared and the tick's
     * energy is recorded.
     */
    method EndTick(rows: seq<Row>, energy: nat)
      requires Valid()
      requires forall row | row in rows :: IsFloor(row.dest, numFloors)
      modifies this`clock, this`waiting, this`processed, this`requestTimes
      modifies this`preschedule, this`targets, this`arrived, this`energyUsage
      ensures Valid()
      ensures clock == old(clock) + TimePerStep
      ensures energyUsage == old(energyUsage) + [energy]
      ensures preschedule.Some? ==> |arrived| < preschedule.value.numElevators
      ensures State() == Ended(old(State()), rows, energy)
    {
      NextPassengers(rows);
      FinishPreschedule();
      energyUsage := energyUsage + [energy];
    }

    /**
     * The rest of step once the mode is known (426-492): the car loop, then
     * the end of the tick.
     */
    method RunTick(mode: Mode, rows: seq<Row>) returns (energy: nat)
      requires Valid()
      requires mode == Maintenance ==> maintenance.Some?
      requires forall row | row in rows :: IsFloor(row.dest, numFloors)
      modifies positions, this`arrived, this`vipCar, this`vipTarget, this`window, this`handledVips
      modifies this`manifests, this`loads, this`waiting, this`requestTimes, this`waitTimes, this`service
      modifies this`clock, this`processed, this`preschedule, this`targets, this`energyUsage
      ensures Valid()
      ensures clock == old(clock) + TimePerStep
      ensures OneFloorMoves(old(positions[..]), positions[..])
      ensures energy == Displacement(old(positions[..]), positions[..]) && energy <= numElevators
      ensures energyUsage == old(energyUsage) + [energy]
      ensures mode == Maintenance ==> var m := maintenance.value.elevatorId; 0 <= m < numElevators ==> positions[m] == old(positions[m])
      ensures preschedule.Some? ==> |arrived| < preschedule.value.numElevators
      ensures State() == Ended(CarsAfter(old(State()), mode, numElevators), rows, energy)
    {
      energy := MoveCars(mode);
      ghost var s1 := State();
      EndTick(rows, energy);
      assert State() == Ended(s1, rows, energy);
    }

    /**
     * step (356-492) with this tick's feeds: the reservations, the uids
     * recognised at the door and the passenger rows fetched after the clock
     * advances. Every car moves at most one floor and stays in the building,
     * the energy is the total displacement, the maintenance car stays put,
     * and a pre-schedule event never outlives its arrivals.
     */
    method Step(reservations: seq<Reservation>, recognized: seq<string>, rows: seq<Row>) returns (mode: Mode, energy: nat)
      requires Valid()
      requires forall r | r in reservations :: IsFloor(r.entryFloor, numFloors) && IsFloor(r.destinationFloor, numFloors)
      requires forall row | row in rows :: IsFloor(row.dest, numFloors)
      modifies this, positions
      ensures Valid()
      ensures clock == old(clock) + TimePerStep
      ensures OneFloorMoves(old(positions[..]), positions[..])
      ensures energy == Displacement(old(positions[..]), positions[..]) && energy <= numElevators
      ensures energyUsage == old(energyUsage) + [energy]
      ensures mode == Maintenance ==>
                maintenance.Some? && var m := maintenance.value.elevatorId; 0 <= m < numElevators ==> positions[m] == old(positions[m])
      ensures preschedule.Some? ==> |arrived| < preschedule.value.numElevators
      ensures var begun := Reserved(old(State()), reservations, recognized);
              && mode == TickMode(begun, preSchedule, maintenanceSchedule)
              && State() == Ended(CarsAfter(ModeSetUp(begun, preSchedule, maintenanceSchedule), mode, numElevators), rows, energy)
    {
      ghost var begun := Reserved(State(), reservations, recognized);
      mode := BeginTick(reservations, recognized);
      ghost var setUp := State();
      assert setUp == ModeSetUp(begun, preSchedule, maintenanceSchedule);
      energy := RunTick(mode, rows);
      assert State() == Ended(CarsAfter(setUp, mode, numElevators), rows, energy);
    }

    // ----- Passenger feed -----

    /**
     * update_passengers (972-1006) over the rows fetched this tick: the
     * merge of Ingestion.Ingest, a row on a missing floor ending the batch
     * as the raised KeyError does.
     */
    method UpdatePassengers(rows: seq<Row>)
      requires Shape() && QueuesValid() && MetricsValid()
      requires forall row | row in rows :: IsFloor(row.dest, numFloors)
      modifies this`waiting, this`processed, this`requestTimes
      ensures Shape() && QueuesValid() && MetricsValid()
      ensures Intake(waiting, processed, requestTimes) == Ingest(old(Intake(waiting, processed, requestTimes)), rows, clock)
    {
      var queues := waiting;
      var seen := processed;
      var times := requestTimes;
      var j := 0;
      while j < |rows|
        invariant 0 <= j <= |rows|
        invariant |queues| == numFloors && QueuesDestsIn(queues, numFloors)
        invariant forall f | f in times :: times[f] <= clock
        invariant Ingest(Intake(waiting, processed, requestTimes), rows, clock) == Ingest(Intake(queues, seen, times), rows[j..], clock)
      {
        var row := rows[j];
        assert rows[j..][1..] == rows[j + 1..];
        if row.id in seen {
          j := j + 1;
        } else if !IsFloor(row.floor, numFloors) {
          break;
        } else {
          assert row in rows;
          queues := Enqueue(queues, row.floor, row.dir, Passenger(row.id, row.dest));
          seen := seen + {row.id};
          if row.floor !in times {
            times := times[row.floor := clock];
          }
          j := j + 1;
        }
      }
      assert j == |rows| ==> rows[j..] == [];
      waiting := queues;
      processed := seen;
      requestTimes := times;
    }
  }
}
