# Elevator dispatch engine, modelled in Dafny

This project models the dispatch core of a simulated building with
`num_floors` floors and `num_elevators` cars. The core comes in two versions.

**ENVsql.py** is the full engine, modelled by the `EnvSql.ElevatorEnv` class. Each call of `step`:
1. opens or expires a VIP reservation window;
2. picks one operating mode from a fixed priority chain: MAINTENANCE, PRESCHEDULE, VIP_PENDING, VIP, RUSH, DYNAMIC-ASSIGN, NORMAL, ENERGY-SAVING;
3. computes a move in {-1, 0, +1} for every car, using one of the routing policies or a VIP, pre-schedule or maintenance override;
4. applies the move when it lands on a floor;
5. lets passengers alight and board under the capacity limit of 10 and the VIP-exclusivity rule;
6. records wait, service and energy metrics;
7. advances the clock by 5 s and merges newly fetched passengers.

**ENV.py** is the earlier engine, modelled by the `Env.ElevatorEnv` class. Its `step`:
1. advances the clock;
2. merges fetched rows;
3. decides rush time by a 3-of-5 vote;
4. moves each car toward a destination on board, or else by the nearest-car scan in rush time and by zone routing otherwise;
5. boards FIFO from 'up' and then 'down'.

Modules:
- `Common`: passengers, floor queues, constants and the clock. Time is an integer number of seconds.
- `Routing`: the read-only routing queries shared by both engines. They are min-searches over floors and cars.
- `Modes`: `detect_elevator_mode` as a function of the state, and `detect_rush_time` of ENV.py.
- `Boarding`: alighting, the VIP filter and the `list.remove` boarding loop of ENVsql.py.
- `Metrics`: the pop-and-append ledgers of `track_service_time` and ENV.py's `track_wait_time`.
- `Ingestion`: the two merge rules for fetched passenger rows.
- `Prescheduling`: the car assignment and routing of PRESCHEDULE.
- `Vip`: reservations and VIP groups.
- `Motion`: the energy of one tick.
- `Invariants`: the state invariants.
- `Zones`: ENV.py's zone routing.
- `EnvSql` and `Env`: the two engines as classes. Their positions are an array updated in place. Queues, manifests and maps are fields the methods reassign.

The state invariant, `Valid`, holds across every step of both engines:
- every car is on a floor;
- every load equals its manifest's length and is at most 10;
- every queued or carried passenger is bound for a floor;
- in ENVsql.py, the metric, VIP and pre-schedule bookkeeping is consistent.

Proved, among other things:
- The routing policies:
  - every routing policy returns -1, 0 or 1, and 0 when nobody waits;
  - they pick the nearest request (lowest floor on ties) or the first nearest destination (Python's `min`);
  - they pick the nearest idle car (lowest index on ties).
- The bounds test of `step` always passes, because every policy keeps a car that stands on a floor on a floor.
- Per-tick energy is the total displacement and at most the number of cars. The maintenance car does not move.
- Stops:
  - after a stop, nobody who was aboard before it and is bound for the floor remains (a passenger boarding at the floor for the same floor stays aboard);
  - it conserves passengers (as multisets);
  - it boards from 'up' whenever 'up' is non-empty, in queue order, until the car is full or no eligible entry is left;
  - "VIP_" ids board only the VIP car, and the VIP car boards only them.
- Each closed ledger entry yields exactly one sample.
- Re-delivering the same rows changes nothing, in both merge rules.
- The mode chain has the stated priority. Rush time holds iff some three conditions hold.
- Pre-schedule assignment picks cars in index order and never exceeds the required count.

## Model

| member | source | states |
|---|---|---|
| Common.Sign | ENVsql.py:643 | np.sign: the result is -1, 0 or 1; it is 0 exactly when the argument is 0 and positive exactly when the argument is positive (its helper SignStaysBetween: a step by the sign toward a floor stays on a floor and gets one floor closer) |
| Common.TimeKey | ENVsql.py:398 | the "%I:%M:%S %p" key of the clock is a second of the day, in [0, 86400) |
| Common.RoundDown5 | ENVsql.py:204-207 | the rounded seconds are a multiple of 5, at most the seconds and less than 5 below them (its helper RoundDown5Idempotent: rounding twice is rounding once) |
| Common.ScheduleKey | ENVsql.py:245-252 | a schedule key is a multiple of 5 seconds lying within 5 s at or below the wall-clock time it was built from |
| Common.EveryRoundedKeyIsReached | ENVsql.py:462 | starting at 08:00:00 and stepping by 5 s, the clock meets every 5-second key of the day, so every rounded schedule key can fire |
| Routing.NearestWaitingUnique | ENVsql.py:865-871 | at most one floor is the nearest waiting floor with ties going to the lowest |
| Routing.ScanNearestCorrect | ENVsql.py:865-871 | the upward scan with a strict `<` finds no floor iff nobody waits, and otherwise the nearest waiting floor, lowest on ties |
| Routing.NearestWaitingFloor | ENVsql.py:859-871 | None iff no floor has passengers waiting; otherwise the nearest waiting floor, lowest on ties |
| Routing.NearestCarScan | ENVsql.py:859-877 | in {-1,0,1}; 0 when nobody waits; otherwise the sign toward the nearest waiting floor (lowest on ties); a car on a floor stays on a floor (ENV.py:208-226 is the same code) |
| Routing.EnergyEfficientRouting | ENVsql.py:895-925 | in {-1,0,1}; 0 when nobody waits or when another car is strictly closer to the nearest request; otherwise the sign toward that request; keeps the car on a floor |
| Routing.EnergyEfficientRoutingBest | ENVsql.py:927-968 | in {-1,0,1}; 0 when nobody waits or when any other car has load > 0; otherwise exactly energy_efficient_routing; keeps the car on a floor |
| Routing.ScanCarsCorrect | ENVsql.py:537-545 | the strict-`<` scan over cars returns None iff no car is eligible, else the eligible car nearest the target with the lowest index on ties |
| Routing.FirstNearestCar | ENVsql.py:537-545 | None iff no car is eligible; otherwise the nearest eligible car, lowest index on ties |
| Routing.FirstNearestCarUnique | ENVsql.py:839-848 | at most one car is the first nearest eligible car |
| Routing.DynamicAssignRouting | ENVsql.py:819-856 | in {-1,0,1}; 0 when nobody waits; the car moves toward the nearest request only if it is the nearest idle car to it (lowest index on ties), so only empty cars move; keeps the car on a floor |
| Routing.NearestDestinationAmong | ENVsql.py:641 | min with a key over the first n destinations returns one of those n indices (which one: NearestDestinationAmongFirst) |
| Routing.NearestDestinationAmongFirst | ENVsql.py:641 | min with a key keeps the first minimum: the index found is no farther than any of the first n entries and strictly nearer than every earlier one |
| Routing.NearestDestinationIndex | ENVsql.py:641 | min over the whole manifest returns an index of the manifest |
| Routing.NearestDestinationIndexFirst | ENVsql.py:641 | the index found is the first manifest entry whose destination is nearest the car |
| Routing.MoveToPassengerDestination | ENVsql.py:630-643 | in {-1,0,1}; 0 for an empty manifest (ENV.py:138-151 is the same code) |
| Routing.MoveToPassengerDestinationToward | ENVsql.py:637-643 | with passengers aboard, the move is the sign toward the first nearest destination on board |
| Routing.MoveToPassengerDestinationInside | ENVsql.py:630-643 | a car on a floor whose passengers are bound for floors stays on a floor |
| Routing.MoveToPassengerDestinationCloser | ENV.py:138-151 | a move brings the car exactly one floor closer to the nearest destination on board |
| Modes.DynamicAssignNeededIff | ENVsql.py:711-732 | the nested DYNAMIC-ASSIGN search fires iff someone waits, some car is loaded and some car is empty |
| Modes.TrafficMode | ENVsql.py:683-756 | RUSH when a floor has more than 10 waiting; DYNAMIC-ASSIGN exactly under the condition above; NORMAL and ENERGY-SAVING only below the rush, and respectively normal, thresholds on waiting, requests and occupancy |
| Modes.DetectMode | ENVsql.py:646-756 | MAINTENANCE iff a maintenance starts on a key match or has run less than 300 s; a started one records car and time; otherwise PRESCHEDULE iff an event is active or the key is scheduled; then VIP_PENDING iff a window is at most 60 s old; then VIP iff a target is set; else the traffic mode; maintenance is cleared whenever the mode is not MAINTENANCE |
| Modes.StopsCountsEveryCar | ENV.py:168 | with every car on a floor, elevator_stops counts every car |
| Modes.Stops | ENV.py:168 | elevator_stops never exceeds the number of cars |
| Modes.AnyThreeMakeRush | ENV.py:174-183 | any three conditions that hold make it rush time |
| Modes.RushConditions | ENV.py:174-180 | the five conditions of detect_rush_time, one entry each |
| Modes.RushNeedsThree | ENV.py:174-183 | rush time implies some three of the five conditions hold |
| Metrics.Close | ENVsql.py:1079-1084 | the key is no longer open; an open entry is popped and exactly its sample (now minus its time) is appended; a missing one changes nothing |
| Metrics.CloseAllRemoves | ENVsql.py:771-772 | closing a list of ids removes exactly their open entries |
| Metrics.CloseAllKeepsSamples | ENVsql.py:771-772 | closing only appends: earlier samples stay, in order |
| Metrics.CloseAllPairs | ENVsql.py:1079-1084 | closing a list of ids appends exactly one sample per distinct open id, however often an id repeats |
| Metrics.CloseAllNonNegative | ENVsql.py:1081-1083 | when no open entry lies in the future, every new sample is non-negative |
| Ingestion.IngestRecords | ENVsql.py:984-1001 | ids are only recorded, never forgotten; open request times keep their values; a new one is the current time |
| Ingestion.IngestGrowsAt | ENVsql.py:984-1001 | each queue is extended at its end only, by entries whose ids were new and are now recorded |
| Ingestion.IngestOnlyAdds | ENVsql.py:984-1001 | update_passengers only adds, skips ids already processed and sets a floor's request time only if absent |
| Ingestion.IngestIdempotent | ENVsql.py:984-1001 | re-delivering the same rows leaves queues, processed ids and request times unchanged |
| Ingestion.Enqueue | ENVsql.py:991-995 | appending to a floor queue adds exactly that passenger at the end of that queue and keeps the number of floors |
| Ingestion.QueueRow | ENV.py:288-293 | one row of update_passengers_from_db: the (id, destination) entry is appended unless it is already queued; the floors stay |
| Ingestion.IngestDb | ENV.py:285-293 | the batch merge of update_passengers_from_db keeps the number of floors |
| Ingestion.IngestDbExtends | ENV.py:285-293 | update_passengers_from_db only appends to queues |
| Ingestion.IngestDbKeeps | ENV.py:292-293 | an entry already queued stays queued through a batch |
| Ingestion.IngestDbIdempotent | ENV.py:285-293 | re-delivering the same rows leaves the queues unchanged |
| Boarding.AlightSplits | ENVsql.py:767-777 | the exiting list holds exactly the entries bound for the floor; the remaining manifest holds exactly the others |
| Boarding.AlightConserves | ENVsql.py:767-777 | exiting and remaining entries together are the old manifest, as a multiset |
| Boarding.PickupDirection | ENVsql.py:782-783 | the pickup queue is 'up' iff 'up' is non-empty |
| Boarding.Eligible | ENVsql.py:786-799 | filtered_queue is never longer than the queue (EligibleMembers states which entries it holds) |
| Boarding.EligibleMembers | ENVsql.py:785-798 | filtered_queue holds exactly the queue entries allowed on this car by the VIP rule |
| Boarding.EligibleConcat | ENVsql.py:787-798 | filtering entry by entry: the filter of a concatenation is the concatenation of the filters |
| Boarding.FirstIndex | ENVsql.py:806 | the position of the first entry equal to x |
| Boarding.RemoveFirstSplits | ENVsql.py:806 | list.remove(x) deletes the first entry equal to x and keeps the rest in order |
| Boarding.RemoveFirstCount | ENVsql.py:806 | list.remove(x) deletes exactly one copy of x |
| Boarding.RemoveFirst | ENVsql.py:806 | list.remove(x) on a list holding x: one entry shorter |
| Boarding.UnboardStep | ENVsql.py:800-806 | removing the next filtered entry by value removes the next eligible entry by position; the entry is present, so remove never raises |
| Boarding.UnboardConserves | ENVsql.py:800-806 | queue left plus boarded entries equals the queue before, as a multiset |
| Boarding.UnboardKeepsOnly | ENVsql.py:800-806 | boarding only removes from the queue |
| Boarding.UnboardIsRemoveEach | ENVsql.py:800-806 | k list.remove calls on the first k filtered entries leave the queue minus its first k eligible entries, and the next filtered entry is still present |
| Boarding.RemoveNextEligible | ENVsql.py:806 | one more list.remove of the next filtered entry is one more boarding step |
| Boarding.UnboardKeepsIneligible | ENVsql.py:785-806 | entries not allowed on this car stay queued |
| Boarding.BoardCount | ENVsql.py:781-804 | boarding happens only below capacity; never more than the filtered entries; the car never exceeds capacity; the loop stops early only when the car is full |
| Boarding.BoardNext | ENVsql.py:800-808 | one more loop iteration: one more list.remove and one more board-time stamp |
| Boarding.BoardedQueue | ENVsql.py:800-808 | the queue list.remove leaves after k boardings is the queue minus its first k eligible entries |
| Boarding.BoardInOrder | ENVsql.py:800-808 | the boarding loop appends the first k filtered entries to the manifest in order (k as many as fit), removes each from the queue, stamps each with the current time and keeps every stamp in the past |
| Boarding.PlanStop | ENVsql.py:767-811 | a stop on values: the alighted manifest, the pickup direction, the filtered entries and how many of them board, never more than were filtered |
| Boarding.StampAllStamps | ENVsql.py:807 | every boarded id is stamped with now; other stamps are kept; none is dropped |
| Boarding.StopProperties | ENVsql.py:767-811 | after a stop: nobody who was aboard before it and is bound for the floor remains (a passenger boarding at the floor for the same floor stays aboard, as the boarding loop never reads the destination); the car stays within capacity; boarding stops early only when full; 'up' is used iff non-empty; boarded entries come from the pickup queue and may ride this car; passengers are conserved; ineligible entries stay queued |
| Motion.Displacement | ENVsql.py:450-455 | energy of one tick; at most the number of cars when each moves at most one floor, 0 when none moves |
| Motion.MovedOneMore | ENVsql.py:448-455 | one more car moving at most one floor (the frozen one not at all) extends the energy account by exactly its displacement |
| Motion.MovedAll | ENVsql.py:426-459 | after the loop: every car moved at most one floor, the frozen car not at all, and energy is the total displacement, at most the number of cars |
| Prescheduling.AssignFromKeeps | ENVsql.py:414-424 | existing targets are kept with their floors |
| Prescheduling.AssignFromNew | ENVsql.py:414-424 | every new target is an empty, not-yet-arrived car sent to the event's floor |
| Prescheduling.AssignFromAddsInOrder | ENVsql.py:414-424 | cars are chosen in index order: no assignable car is skipped before a chosen one |
| Prescheduling.AssignFromBounded | ENVsql.py:412-424 | nothing is assigned once the count is reached; otherwise the count never exceeds the requirement |
| Prescheduling.AssignFromFills | ENVsql.py:414-424 | the loop stops short of the requirement only when every assignable car has a target |
| Prescheduling.PrescheduleRouting | ENVsql.py:510-523 | a car with a target moves one floor closer to it, and 0 once there; a car without one follows energy_efficient_routing; a car on a floor stays on a floor |
| Vip.FirstDueFrom | ENVsql.py:274-293 | the scan from position j finds the first reservation not yet handled whose time is 0..60 s in the past, or None iff there is none |
| Vip.FirstDue | ENVsql.py:274-293 | the first reservation in feed order not yet handled and due; None iff there is none |
| Vip.VipGroup | ENVsql.py:345-348 | a group has numberOfPeople members, none for a non-positive count |
| Vip.VipGroupMembers | ENVsql.py:345-348 | member k is ("VIP_<uid>_k", dest) |
| Vip.VipGroupBoardsOnlyVipCar | ENVsql.py:785-796 | every group member carries the "VIP_" and group prefixes, so it may board a car iff that car holds the VIP assignment |
| Zones.ZoneInside | ENV.py:233-235 | every car's zone lies inside [1, num_floors] |
| Zones.ZonesDisjoint | ENV.py:233-235 | cars whose indices differ modulo 3 have disjoint zones |
| Zones.UnzonedFloors | ENV.py:233-235 | floors above min(E,3)·(F div E) are in no zone |
| Zones.FirstWaitingFrom | ENV.py:237-239 | the upward scan of a range: None iff nobody waits in it, else the lowest waiting floor |
| Zones.FirstWaitingUnique | ENV.py:237-239 | at most one floor is the lowest waiting floor of a range |
| Zones.ZoneRouting | ENV.py:228-241 | in {-1,0,1}; 0 when nobody waits in the car's zone; otherwise the sign toward the lowest waiting floor of the zone; keeps the car on a floor |
| Zones.ZoneRoutingLocal | ENV.py:237-239 | only the queues of the car's own zone affect its move |
| Zones.CarMove | ENV.py:102-106 | the per-car decision of step is in {-1,0,1} |
| Zones.CarMoveInside | ENV.py:102-117 | every branch of the decision keeps a car on a floor, so the bounds test of step always passes |
| Env.VisitProperties | ENV.py:185-203 | after a stop the manifest is the survivors, then the heads popped from 'up', then those popped from 'down'; what stays queued is each queue's tail; 'down' boards only once 'up' is empty; someone stays waiting only if the car is full; capacity is kept; nobody boards who was not queued |
| Env.VisitConserves | ENV.py:189-201 | a stop loses and creates no passenger except those alighting, as multisets |
| Env.VisitKeepsValid | ENV.py:185-201 | after a stop all carried and queued passengers are bound for floors and the car is within capacity |
| Env.BoardFifo | ENV.py:195-201 | the pop(0) loop appends as many queue heads as fit to the manifest, leaves the queue's tail and keeps load equal to the manifest's length |
| Env.MergeRows | ENV.py:285-296 | the row loop computes the merge of update_passengers_from_db, ending the batch at a row on a missing floor |
| Env.IngestDbKeepsDests | ENV.py:285-293 | rows bound for floors keep every queued passenger bound for a floor |
| Env.Landed | ENV.py:109-117 | car i on floor f after its stop there: its load is its new manifest length, the number of cars and floors is kept |
| Env.CarTurn | ENV.py:102-117 | car i's turn in the car loop keeps the number of cars and floors |
| Env.CarTurnLands | ENV.py:102-117 | a turn whose move lands on a floor is the stop there |
| Env.CarTurnLocal | ENV.py:102-117 | a turn moves car i at most one floor and changes no other car and no queue but those of the floor it stops at |
| Env.CarsAfter | ENV.py:102-117 | the first n turns of the car loop, in index order, keep the number of cars and floors |
| Env.ElevatorEnv.constructor | ENV.py:25-75 | all cars on floor 1 and empty, all queues empty, clock at 08:00:00, empty ledgers and energy history |
| Env.ElevatorEnv.RushTime | ENV.py:154-183 | rush iff at least three of the five conditions hold |
| Env.ElevatorEnv.TrackWaitTime | ENV.py:333-342 | the open request for the id is popped and its wait appended, once |
| Env.ElevatorEnv.TrackServiceTime | ENV.py:345-354 | the open boarding time for the id is popped and its service time appended, once |
| Env.ElevatorEnv.UpdatePassengersFromDb | ENV.py:272-296 | the queues become the merge of the fetched rows and stay bound for floors |
| Env.ElevatorEnv.BoardFrom | ENV.py:195-201 | one direction's FIFO boarding on car i: as many heads as fit move from the queue to the manifest |
| Env.ElevatorEnv.HandlePassengerMovement | ENV.py:185-203 | car i's manifest, load and the floor's queues become those of the stop; the invariant is kept |
| Env.ElevatorEnv.ApplyMove | ENV.py:109-114 | the position changes only when the new floor exists; energy is the distance moved |
| Env.ElevatorEnv.CarryOut | ENV.py:109-117 | the move onto a floor is applied, its energy is its length, and car i stops there: its manifest, load and the floor's queues become those of the stop (the state is Landed) |
| Env.ElevatorEnv.MoveCar | ENV.py:102-117 | only car i moves, by exactly its decision, at most one floor; it stops at its new floor (the state is CarTurn of the old one) |
| Env.ElevatorEnv.MoveCarCounted | ENV.py:102-117 | one more turn: the state is CarTurn of the old one and the energy account grows by the car's displacement |
| Env.ElevatorEnv.MoveCars | ENV.py:102-117 | the state is CarsAfter of the old one over all cars; every car moves at most one floor; energy is the total displacement, at most the number of cars |
| Env.ElevatorEnv.BeginStep | ENV.py:77-101 | the clock advances 5 s, the queues become the merge of the rows and rush time is decided on the merged queues |
| Env.ElevatorEnv.FinishStep | ENV.py:102-135 | the car loop as MoveCars states, then the tick's energy is appended |
| Env.ElevatorEnv.Step | ENV.py:77-135 | the invariant is kept; the clock advances 5 s; the state is the car loop (CarsAfter) run on the merged queues under the rush decision taken on them; each car moves at most one floor; the energy appended is the total displacement; the ledgers are untouched |
| EnvSql.Unserved | ENVsql.py:813-816 | a floor's request is closed iff both its queues are empty; other requests are kept |
| EnvSql.WaitSample | ENVsql.py:1056-1064 | one wait sample (now minus the request time) iff the floor has an open request, none otherwise |
| EnvSql.UnservedTwice | ENVsql.py:763-816 | closing the floor's request on arrival and again after boarding is closing it once against the queue boarding leaves |
| EnvSql.StopKeepsManifests | ENVsql.py:767-811 | a stop keeps the car within capacity and its passengers bound for floors |
| EnvSql.StopKeepsQueues | ENVsql.py:781-811 | a stop keeps queued passengers bound for floors |
| EnvSql.AppendVipGroup | ENVsql.py:345-348 | the spawn loop appends exactly the group, in order, to the entry floor's 'up' queue |
| EnvSql.DefaultRouting | ENVsql.py:494-508 | in {-1,0,1}; a loaded car heads for its nearest destination; an empty one with nobody waiting and no pre-schedule target stays; modes without their own policy use energy_efficient_routing_best |
| EnvSql.DefaultRoutingInside | ENVsql.py:494-508 | in every mode the move keeps a car on a floor |
| EnvSql.TrackedWindow | ENVsql.py:271-293 | track_reservations on the state: only the VIP window and handled set change; a window that opens holds one of the fetched reservations |
| EnvSql.Spawned | ENVsql.py:326-352 | generate_vip_passengers on the state: only the VIP target, the queues and the request times change; the floors stay |
| EnvSql.WindowChecked | ENVsql.py:364-392 | the window handling of step on the state: only the VIP book, the queues and the request times change |
| EnvSql.Reserved | ENVsql.py:361-392 | phase 1 of step: only the VIP book, the queues and the request times change |
| EnvSql.ModeSetUp | ENVsql.py:394-424 | after the mode is chosen only maintenance, pre-schedule event, targets and arrivals have changed; MAINTENANCE leaves a maintenance record |
| EnvSql.PrescheduleSetUp | ENVsql.py:400-424 | entering PRESCHEDULE: only event, targets and arrivals change, and an event is active |
| EnvSql.DefaultTurn | ENVsql.py:494-523 | default_elevator_logic on the state: only the arrived set changes |
| EnvSql.VipRouteProgress | ENVsql.py:553-617 | the VIP car stays in the building and gets one floor closer to the entry floor before pickup and to the destination after it; it waits at the entry floor only while nobody of the group shows up and for at most 60 s; the VIP state is released exactly at the destination after pickup (uid handled) or on giving up (not handled) |
| EnvSql.VipTurn | ENVsql.py:436-443 | the VIP branch on the state: only the arrived set and the VIP book change |
| EnvSql.VipCarTurn | ENVsql.py:440-445 | the turn once the VIP car is known: only the arrived set and the VIP book change |
| EnvSql.Dispatch | ENVsql.py:426-447 | car i's dispatch on the state: only the arrived set and the VIP book change |
| EnvSql.DispatchInside | ENVsql.py:426-453 | in every mode the dispatched move is -1, 0 or 1 and lands on a floor, so the bounds test of step always passes |
| EnvSql.Stopped | ENVsql.py:760-816 | handle_passenger_movement on the state: only loads, manifests, queues, request times, wait samples and the service ledger change; one load and manifest per car |
| EnvSql.Arrive | ENVsql.py:449-459 | car i moves to floor f and stops there unless it is the maintenance car; sizes and maintenance record are kept |
| EnvSql.CarTurn | ENVsql.py:426-459 | car i's whole turn keeps sizes and the maintenance record |
| EnvSql.CarTurnArrives | ENVsql.py:426-459 | a turn whose dispatched move lands on a floor is the arrival there |
| EnvSql.CarsAfter | ENVsql.py:426-459 | the first n turns of the car loop, in index order, keep sizes and the maintenance record |
| EnvSql.AfterTurn | ENVsql.py:426-459 | car i's turn after the cars before it keeps sizes and the maintenance record |
| EnvSql.CarsAfterStep | ENVsql.py:426-459 | the first i + 1 turns are the first i followed by car i's |
| EnvSql.ElevatorEnv.constructor | ENVsql.py:77-147 | all cars on floor 1 and empty, all queues empty, no open request, empty ledgers, wait samples, processed ids and energy history, no VIP window, target, car or handled uid, no pre-schedule event, targets or arrivals, no maintenance; clock at 08:00:00 |
| EnvSql.ElevatorEnv.TrackReservations | ENVsql.py:271-293 | with a window open nothing changes; otherwise the first due, unhandled reservation in feed order opens one at the current time and its user becomes handled, and with none due nothing changes; the state is TrackedWindow of the old one |
| EnvSql.ElevatorEnv.GenerateVipPassengers | ENVsql.py:326-352 | with a VIP target set nothing changes; otherwise the target is set and the group is appended to the entry floor's 'up' queue, opening its request time when the group is non-empty; the state is Spawned of the old one |
| EnvSql.ElevatorEnv.CheckVipWindow | ENVsql.py:364-392 | no window: nothing changes; an unrecognised window sets a target without a group; a recognised one spawns the group only if no target was set; the window closes when recognised or after 60 s; the state is WindowChecked of the old one |
| EnvSql.ElevatorEnv.TrackWaitTime | ENVsql.py:1056-1077 | one wait sample iff the floor has an open request; the request closes only when nobody waits there |
| EnvSql.ElevatorEnv.TrackServiceTime | ENVsql.py:1079-1088 | the id's boarding time is popped and exactly one service sample is appended, if it was open |
| EnvSql.ElevatorEnv.HandlePassengerMovement | ENVsql.py:760-816 | car i's manifest, load and the floor's queue become those of the stop; the exiting ids' service entries are closed and the boarded ids stamped; the wait sample is recorded; the floor's request closes iff nobody waits; the invariants are kept |
| EnvSql.ElevatorEnv.CloseServedRequest | ENVsql.py:813-816 | the floor's request is deleted iff both its queues are empty |
| EnvSql.ElevatorEnv.ArriveAt | ENVsql.py:763-772 | the floor's wait sample is recorded and the service entries of everyone exiting are closed |
| EnvSql.ElevatorEnv.StopAt | ENVsql.py:774-811 | drop-off then boarding, with manifest, load, queue and board times as the stop computes them; a stop never adds waiting passengers |
| EnvSql.ElevatorEnv.AlightAt | ENVsql.py:774-777 | the entries bound for the floor leave car i and its load is the new manifest length |
| EnvSql.ElevatorEnv.ServiceExits | ENVsql.py:771-772 | the exiting ids' service entries are closed in manifest order |
| EnvSql.ElevatorEnv.Board | ENVsql.py:780-811 | below capacity, the first eligible entries of the pickup queue, as many as fit, move in order from the queue to the manifest and get stamped |
| EnvSql.ElevatorEnv.BoardFiltered | ENVsql.py:799-808 | the boarding loop moves the first k filtered entries, as many as fit, from the queue to the manifest and stamps them |
| EnvSql.ElevatorEnv.FilteredQueue | ENVsql.py:785-798 | the loop builds exactly the entries allowed on car i by the VIP rule, in queue order |
| EnvSql.ElevatorEnv.DetectElevatorMode | ENVsql.py:646-756 | the mode and maintenance state are those of the mode chain |
| EnvSql.ElevatorEnv.StartPreschedule | ENVsql.py:400-405 | an inactive pre-schedule starts the event due now with no targets or arrivals; an active one is kept |
| EnvSql.ElevatorEnv.AssignPrescheduleCars | ENVsql.py:409-424 | the targets become those of the assignment loop |
| EnvSql.ElevatorEnv.HandlePrescheduleRouting | ENVsql.py:510-523 | the move is the pre-schedule routing; the car joins the arrived set iff it stands on its target |
| EnvSql.ElevatorEnv.DefaultElevatorLogic | ENVsql.py:494-508 | the move is the default routing; a car joins the arrived set only when empty, under PRESCHEDULE and at its target |
| EnvSql.ElevatorEnv.FinishPreschedule | ENVsql.py:466-471 | once enough cars have arrived, event, targets and arrivals clear; otherwise nothing changes |
| EnvSql.ElevatorEnv.AssignVipElevator | ENVsql.py:527-551 | a VIP car once chosen is kept; otherwise the nearest empty car, lowest index on ties, becomes it |
| EnvSql.ElevatorEnv.HandleVipRouting | ENVsql.py:553-617 | None unless this is the VIP car with a target. Before pickup the car heads for the entry floor. There, a group member on board or waiting in 'up' marks pickup and the car heads for the destination; otherwise it waits, releasing the target after 60 s. At the destination it releases the target and car and marks the user handled |
| EnvSql.ElevatorEnv.DispatchCar | ENVsql.py:426-447 | the move is in {-1,0,1} and lands on a floor; the maintenance car gets 0; under maintenance other cars serve their passengers or scan; move and state are Dispatch of the old state |
| EnvSql.ElevatorEnv.DispatchVipCar | ENVsql.py:436-445 | the move is in {-1,0,1} and lands on a floor; move and state are VipTurn of the old state |
| EnvSql.ElevatorEnv.TakeVipCarTurn | ENVsql.py:440-445 | the move is in {-1,0,1} and lands on a floor; move and state are VipCarTurn of the old state |
| EnvSql.ElevatorEnv.RouteVipCar | ENVsql.py:440-443 | the VIP car's move is handle_vip_routing's, in {-1,0,1} and on a floor; only the VIP book changes, as VipRoute says |
| EnvSql.ElevatorEnv.ApplyMove | ENVsql.py:448-455 | the position changes only when the new floor exists; energy is the distance moved |
| EnvSql.ElevatorEnv.ServeUnlessOffline | ENVsql.py:457-459 | the maintenance car's passengers and the floor's queues are left alone; every other car's stop gives the state Stopped of the old one |
| EnvSql.ElevatorEnv.CarryOut | ENVsql.py:448-459 | the move is applied, its energy is its length, and the state is CarTurn of the state before dispatch |
| EnvSql.ElevatorEnv.MoveCar | ENVsql.py:426-459 | only car i moves, at most one floor; the maintenance car stays; the state is CarTurn of the old one |
| EnvSql.ElevatorEnv.MoveCarCounted | ENVsql.py:426-459 | one more turn: the state is CarsAfter one more car, and the energy account grows by the car's displacement |
| EnvSql.ElevatorEnv.HandleReservations | ENVsql.py:361-392 | the invariants are kept and the state is Reserved of the old one |
| EnvSql.ElevatorEnv.ChooseMode | ENVsql.py:394-424 | the mode is TickMode of the old state; the state is ModeSetUp of the old one; MAINTENANCE leaves a maintenance record |
| EnvSql.ElevatorEnv.EnterPreschedule | ENVsql.py:400-424 | the state is PrescheduleSetUp of the old one |
| EnvSql.ElevatorEnv.BeginTick | ENVsql.py:361-424 | the invariant is kept; the mode is the one chosen after the reservations; the state is ModeSetUp of Reserved of the old one |
| EnvSql.ElevatorEnv.MoveCars | ENVsql.py:426-459 | the state is CarsAfter of the old one over all cars; every car moves at most one floor; energy is the total displacement, at most the number of cars; the maintenance car stays |
| EnvSql.ElevatorEnv.AdvanceClock | ENVsql.py:462 | the clock advances 5 s |
| EnvSql.ElevatorEnv.NextPassengers | ENVsql.py:462-463 | the clock advances 5 s and the fetched rows merge as update_passengers does; the state is Fed of the old one; the invariants are kept |
| EnvSql.ElevatorEnv.EndTick | ENVsql.py:461-491 | the clock advances 5 s, the energy is appended, an active pre-schedule still lacks arrivals; the state is Ended of the old one |
| EnvSql.ElevatorEnv.RunTick | ENVsql.py:426-491 | the state is Ended of CarsAfter of the old one; each car moves at most one floor; the energy is the total displacement and is appended; the maintenance car stays; the clock advances 5 s |
| EnvSql.ElevatorEnv.Step | ENVsql.py:356-492 | the invariant is kept; the clock advances 5 s; each car moves at most one floor and stays in the building; energy is the total displacement and is appended; the maintenance car stays; an active pre-schedule still lacks arrivals; mode and state are those of the reservation phase, ModeSetUp, CarsAfter and Ended in turn |
| EnvSql.ElevatorEnv.UpdatePassengers | ENVsql.py:972-1006 | waiting, processed ids and request times become the update_passengers merge of the fetched rows |

## Left out

- Database, Firebase and Firestore access are not modelled. The fetched passenger rows, reservations and recognised uids are parameters of `step`, and the two schedules are constructor parameters.
- Rendering, gym spaces, `_get_observation`, the `info` dictionary, `reset`, `close`, printing and `time.sleep` are not modelled. They are I/O, floating point or code that cannot run.
- The `detect_elevator_mode` calls made by the renderers are not modelled.
- `cleanup_expired_reservations` is not modelled: it is never called.
- Passenger destinations and reservation floors are assumed to be floors (a `requires`). A passenger bound for a missing floor makes the source raise `KeyError` at a later stop.
- EnvSql.ElevatorEnv.constructor: requires every pre-schedule floor to be a floor of the building. The loader turns a missing `floor` into 0 (ENVsql.py:196); a car sent to floor 0 then makes `handle_passenger_movement` raise `KeyError` when it reads the floor-0 queue (ENVsql.py:783). The model does not capture that crash.
- EnvSql.ElevatorEnv.TrackReservations: a reservation whose `time` is missing is skipped, as an unparseable one is (ENVsql.py:280-282). In the source, `pd.to_datetime(None)` returns `None` without raising, and the subtraction at ENVsql.py:284 then raises `TypeError` outside the `try`, ending the step. The model does not capture that crash.
- A row naming a missing floor ends the batch, as the exception caught around the ingestion loop does.
- Timestamps are integer seconds. Schedule keys and the reservation time are seconds of the day. A reservation time is `None` when the `time` field is missing or when it does not parse.
- Average occupancy is compared in integers (sum·100 > threshold·E·C), not in floating point.
- Env.ElevatorEnv.RushTime: the request count in ENV.py is the size of `passenger_wait_times`. Nothing in ENV.py fills that dictionary, so the model carries the count but never grows it.
- Env.ElevatorEnv.Step: ENV.py's step never calls `track_wait_time` or `track_service_time`, so the ledgers stay as they are. The two methods are modelled on their own.
- Both constructors require at least one floor and one car. With no car, `detect_elevator_mode` and `detect_rush_time` divide by zero.
- The source sets the VIP target before recognition (step, 368-382). If recognition comes on a later tick, `generate_vip_passengers` returns early and the group is never spawned. The model keeps this behaviour (`CheckVipWindow`) and does not correct it.
- The maintenance schedule entries carry the fixed `elevator_id` 0 and `active` flag that the loader writes.
