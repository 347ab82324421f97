/**
 * The ENV.py dispatch engine, the earlier of the two: one ElevatorEnv whose
 * step advances the clock by 5 s, merges the passenger rows fetched this
 * tick, decides whether it is rush time, and then moves every car by at most
 * one floor (toward the nearest destination on board, else by the nearest-car
 * scan in rush time or by zone routing otherwise) and lets passengers alight
 * and board FIFO at the car's floor.
 *
 * The passenger rows are a parameter of step. ENV.py keeps its wait and
 * service ledgers but its step never closes an entry in them; the two
 * track_* methods are modelled as the operations they are.
 */
module Env {
  import opened Common
  import opened Routing
  import opened Boarding
  import opened Metrics
  import opened Ingestion
  import opened Modes
  import opened Invariants
  import opened Motion
  import opened Zones

  // ----- Drop-off and FIFO boarding (handle_passenger_movement, 185-203) -----

  /** A car's manifest and the floor's queues after a stop. */
  datatype Visit = Visit(manifest: seq<Passenger>, queue: FloorQueue)

  /**
   * A stop at floor f: the entries bound for f leave, then, while the car
   * has room, the 'up' queue boards from its head, and then the 'down' queue.
   */
  function VisitFloor(manifest: seq<Passenger>, q: FloorQueue, f: int): Visit
  {
    var alighted := Alight(manifest, f);
    var ku := BoardCount(alighted, q.up);
    var mid := alighted + q.up[..ku];
    var kd := BoardCount(mid, q.down);
    Visit(mid + q.down[..kd], FloorQueue(q.up[ku..], q.down[kd..]))
  }

  /**
   * What a stop achieves: the manifest is the alighted one followed by the
   * heads popped from 'up' and then from 'down' (what is left of each queue
   * is its tail); 'down' boards only once 'up' is empty; nobody is left
   * waiting unless the car is full; the car stays within capacity; and
   * nobody aboard is bound for f except those who just boarded.
   */
  lemma VisitProperties(manifest: seq<Passenger>, q: FloorQueue, f: int)
    ensures var v := VisitFloor(manifest, q, f);
            var nu := |q.up| - |v.queue.up|;
            var nd := |q.down| - |v.queue.down|;
            && 0 <= nu && 0 <= nd
            && v.queue.up == q.up[nu..] && v.queue.down == q.down[nd..]
            && v.manifest == Alight(manifest, f) + q.up[..nu] + q.down[..nd]
            && (nd > 0 ==> v.queue.up == [])
            && (v.queue.HasWaiting() ==> |v.manifest| >= MaxCapacity)
            && (|manifest| <= MaxCapacity ==> |v.manifest| <= MaxCapacity)
            && (forall p | p in v.manifest && p.dest == f :: p in q.up || p in q.down)
  {
    var alighted := Alight(manifest, f);
    var ku := BoardCount(alighted, q.up);
    var mid := alighted + q.up[..ku];
    var kd := BoardCount(mid, q.down);
    var v := VisitFloor(manifest, q, f);
    assert |v.queue.up| == |q.up| - ku && |v.queue.down| == |q.down| - kd;
    assert v.queue.up == q.up[ku..] && v.queue.down == q.down[kd..];
    assert v.manifest == alighted + q.up[..ku] + q.down[..kd];
    assert kd > 0 ==> v.queue.up == [];
    assert v.queue.HasWaiting() ==> |v.manifest| >= MaxCapacity;
    assert |manifest| <= MaxCapacity ==> |v.manifest| <= MaxCapacity by {
      AlightConserves(manifest, f);
    }
    assert forall p | p in v.manifest && p.dest == f :: p in q.up || p in q.down by {
      AlightSplits(manifest, f);
      forall p | p in v.manifest && p.dest == f
        ensures p in q.up || p in q.down
      {
        assert p in alighted || p in q.up[..ku] || p in q.down[..kd];
      }
    }
  }

  /** A stop moves passengers between the floor's queues and the car, losing and creating none but those alighting. */
  lemma VisitConserves(manifest: seq<Passenger>, q: FloorQueue, f: int)
    ensures var v := VisitFloor(manifest, q, f);
            multiset(v.manifest) + multiset(v.queue.up) + multiset(v.queue.down)
              == multiset(Alight(manifest, f)) + multiset(q.up) + multiset(q.down)
  {
    var alighted := Alight(manifest, f);
    var ku := BoardCount(alighted, q.up);
    var mid := alighted + q.up[..ku];
    var kd := BoardCount(mid, q.down);
    SplitCount(q.up, ku);
    SplitCount(q.down, kd);
    assert multiset(mid) == multiset(alighted) + multiset(q.up[..ku]);
    assert multiset(mid + q.down[..kd]) == multiset(mid) + multiset(q.down[..kd]);
  }

  /** Cutting a sequence in two splits its multiset. */
  lemma SplitCount(s: seq<Passenger>, n: nat)
    requires n <= |s|
    ensures multiset(s[..n]) + multiset(s[n..]) == multiset(s)
  {
    assert s == s[..n] + s[n..];
  }

  /** Every passenger aboard after a stop, and every one still waiting, is bound for a floor, and the car holds at most MaxCapacity. */
  lemma VisitKeepsValid(manifest: seq<Passenger>, q: FloorQueue, f: int, numFloors: int)
    requires DestsIn(manifest, numFloors) && QueueDestsIn(q, numFloors) && |manifest| <= MaxCapacity
    ensures DestsIn(VisitFloor(manifest, q, f).manifest, numFloors)
    ensures QueueDestsIn(VisitFloor(manifest, q, f).queue, numFloors)
    ensures |VisitFloor(manifest, q, f).manifest| <= MaxCapacity
  {
    VisitProperties(manifest, q, f);
    AlightSplits(manifest, f);
    var v := VisitFloor(manifest, q, f);
    forall p | p in v.manifest ensures IsFloor(p.dest, numFloors) {
      var nu := |q.up| - |v.queue.up|;
      var nd := |q.down| - |v.queue.down|;
      assert p in Alight(manifest, f) || p in q.up[..nu] || p in q.down[..nd];
      if p in Alight(manifest, f) {
        assert p in manifest;
      } else if p in q.up[..nu] {
        assert p in q.up;
      } else {
        assert p in q.down;
      }
    }
    forall p | p in v.queue.up ensures IsFloor(p.dest, numFloors) {
      assert p in q.up;
    }
    forall p | p in v.queue.down ensures IsFloor(p.dest, numFloors) {
      assert p in q.down;
    }
  }

  /**
   * The pop(0) loop of one direction: while the queue is non-empty and the
   * load is below capacity, its head is appended to the manifest and the
   * load goes up by one.
   */
  method BoardFifo(manifest: seq<Passenger>, load: nat, queue: seq<Passenger>) returns (manifest': seq<Passenger>, load': nat, queue': seq<Passenger>)
    requires load == |manifest|
    ensures manifest' == manifest + queue[..BoardCount(manifest, queue)]
    ensures queue' == queue[BoardCount(manifest, queue)..]
    ensures load' == |manifest'|
  {
    manifest', load', queue' := manifest, load, queue;
    ghost var n := 0;
    while queue' != [] && load' < MaxCapacity
      invariant 0 <= n <= |queue| && n <= BoardCount(manifest, queue)
      invariant manifest' == manifest + queue[..n] && queue' == queue[n..]
      invariant load' == |manifest'|
      decreases |queue'|
    {
      var p := queue'[0];
      queue' := queue'[1..];
      manifest' := manifest' + [p];
      load' := load' + 1;
      assert queue[..n + 1] == queue[..n] + [p];
      n := n + 1;
    }
  }

  /**
   * The row loop of update_passengers_from_db: each (id, destination) entry
   * is appended to its queue unless that exact entry is already there; a
   * row on a missing floor ends the batch, as the KeyError caught around
   * the loop does.
   */
  method MergeRows(waiting: seq<FloorQueue>, rows: seq<Row>) returns (merged: seq<FloorQueue>)
    ensures merged == IngestDb(waiting, rows)
  {
    merged := waiting;
    var j := 0;
    while j < |rows|
      invariant 0 <= j <= |rows|
      invariant |merged| == |waiting|
      invariant IngestDb(waiting, rows) == IngestDb(merged, rows[j..])
    {
      var row := rows[j];
      assert rows[j..][0] == row;
      if !(1 <= row.floor <= |merged|) {
        break;
      }
      var p := Passenger(row.id, row.dest);
      ghost var next := QueueRow(merged, row);
      assert IngestDb(merged, rows[j..]) == IngestDb(next, rows[j + 1..]) by {
        assert rows[j..][1..] == rows[j + 1..];
      }
      if p !in merged[row.floor - 1].Get(row.dir) {
        merged := Enqueue(merged, row.floor, row.dir, p);
      }
      assert merged == next;
      j := j + 1;
    }
    assert j == |rows| ==> rows[j..] == [];
  }

  /** A batch whose rows are bound for floors leaves every queued passenger bound for a floor. */
  lemma {:induction false} IngestDbKeepsDests(waiting: seq<FloorQueue>, rows: seq<Row>, numFloors: int)
    requires QueuesDestsIn(waiting, numFloors)
    requires forall row | row in rows :: IsFloor(row.dest, numFloors)
    ensures QueuesDestsIn(IngestDb(waiting, rows), numFloors)
    decreases |rows|
  {
    if rows != [] && IsFloor(rows[0].floor, |waiting|) {
      var r := rows[0];
      assert r in rows && forall row | row in rows[1..] :: row in rows;
      if Passenger(r.id, r.dest) !in waiting[r.floor - 1].Get(r.dir) {
        EnqueueKeepsDests(waiting, r.floor, r.dir, Passenger(r.id, r.dest), numFloors);
      }
      IngestDbKeepsDests(QueueRow(waiting, r), rows[1..], numFloors);
    }
  }

  /** Appending a passenger bound for a floor keeps every queued passenger bound for a floor. */
  lemma EnqueueKeepsDests(waiting: seq<FloorQueue>, f: int, d: Direction, p: Passenger, numFloors: int)
    requires QueuesDestsIn(waiting, numFloors) && IsFloor(f, |waiting|) && IsFloor(p.dest, numFloors)
    ensures QueuesDestsIn(Enqueue(waiting, f, d, p), numFloors)
  {
    var w := Enqueue(waiting, f, d, p);
    assert QueueDestsIn(w[f - 1], numFloors);
    ReplaceQueue(waiting, numFloors, f - 1, w[f - 1]);
    assert w == waiting[f - 1 := w[f - 1]];
  }

  /** Replacing one car's manifest by a valid one keeps all manifests valid. */
  lemma ReplaceManifest(loads: seq<nat>, manifests: seq<seq<Passenger>>, numFloors: int, i: int, m: seq<Passenger>)
    requires ManifestsValid(loads, manifests, numFloors) && 0 <= i < |manifests|
    requires |m| <= MaxCapacity && DestsIn(m, numFloors)
    ensures ManifestsValid(loads[i := |m|], manifests[i := m], numFloors)
  {
  }

  /** Replacing one floor's queues by valid ones keeps all queues valid. */
  lemma ReplaceQueue(waiting: seq<FloorQueue>, numFloors: int, f: int, q: FloorQueue)
    requires QueuesDestsIn(waiting, numFloors) && 0 <= f < |waiting|
    requires QueueDestsIn(q, numFloors)
    ensures QueuesDestsIn(waiting[f := q], numFloors)
  {
  }

  // ----- The car loop of step (102-117), on values -----

  /** What step's car loop changes: car floors, loads and manifests, and the floors' queues. */
  datatype Cars = Cars(positions: seq<int>, loads: seq<nat>, manifests: seq<seq<Passenger>>, waiting: seq<FloorQueue>)
  {
    /** One load and one manifest per car. */
    predicate Sized() {
      |loads| == |positions| && |manifests| == |positions|
    }
  }

  /** Car i standing on floor f after a stop there: VisitFloor's manifest and queue pair replace the old ones. */
  function Landed(c: Cars, i: int, f: int): (r: Cars)
    requires c.Sized() && 0 <= i < |c.positions| && IsFloor(f, |c.waiting|)
    ensures r.Sized() && |r.positions| == |c.positions| && |r.waiting| == |c.waiting|
    ensures r.positions[i] == f && r.loads[i] == |r.manifests[i]|
  {
    var v := VisitFloor(c.manifests[i], c.waiting[f - 1], f);
    Cars(c.positions[i := f], c.loads[i := |v.manifest|], c.manifests[i := v.manifest], c.waiting[f - 1 := v.queue])
  }

  /**
   * Car i's turn: it moves as CarMove decides and stops at its new floor as
   * VisitFloor describes. The move always lands on a floor (CarMoveInside);
   * otherwise the source's stop would raise on the missing floor, and the
   * state is left as it is.
   */
  function CarTurn(c: Cars, i: int, rush: bool): (r: Cars)
    requires c.Sized() && 0 <= i < |c.positions|
    ensures r.Sized() && |r.positions| == |c.positions| && |r.waiting| == |c.waiting|
  {
    var f := c.positions[i] + CarMove(rush, c.loads[i], c.manifests[i], c.positions[i], |c.positions|, c.waiting, i);
    if IsFloor(f, |c.waiting|) then Landed(c, i, f) else c
  }

  /** A turn whose move lands on a floor is a stop there. */
  lemma CarTurnLands(c: Cars, i: int, rush: bool, f: int)
    requires c.Sized() && 0 <= i < |c.positions|
    requires f == c.positions[i] + CarMove(rush, c.loads[i], c.manifests[i], c.positions[i], |c.positions|, c.waiting, i)
    requires IsFloor(f, |c.waiting|)
    ensures CarTurn(c, i, rush) == Landed(c, i, f)
  {
  }

  /** The cars after the first n turns of the loop, taken in index order. */
  function CarsAfter(c: Cars, rush: bool, n: nat): (r: Cars)
    requires c.Sized() && n <= |c.positions|
    ensures r.Sized() && |r.positions| == |c.positions| && |r.waiting| == |c.waiting|
  {
    if n == 0 then c else CarTurn(CarsAfter(c, rush, n - 1), n - 1, rush)
  }

  /**
   * A turn changes only car i and the queues of the floor it stops at:
   * every other car keeps its floor, load and manifest, and the car moves
   * at most one floor.
   */
  lemma CarTurnLocal(c: Cars, i: int, rush: bool)
    requires c.Sized() && 0 <= i < |c.positions|
    ensures var r := CarTurn(c, i, rush);
            && Abs(r.positions[i] - c.positions[i]) <= 1
            && (forall j | 0 <= j < |c.positions| && j != i ::
                  r.positions[j] == c.positions[j] && r.loads[j] == c.loads[j] && r.manifests[j] == c.manifests[j])
            && (forall g | 0 <= g < |c.waiting| && g != r.positions[i] - 1 :: r.waiting[g] == c.waiting[g])
  {
  }

  class ElevatorEnv {
    const numFloors: int
    const numElevators: int
    /** state['elevator_positions']: the numpy buffer of car floors. */
    const positions: array<int>

    /** state['elevator_load'] and state['elevator_passengers']. */
    var loads: seq<nat>
    var manifests: seq<seq<Passenger>>
    /** passengers_waiting: floor f's queues at index f - 1. */
    var waiting: seq<FloorQueue>
    var clock: int

    /** passenger_wait_times (open entries) and wait_times (samples). */
    var requests: Ledger
    /** passenger_board_times (open entries) and service_times (samples). */
    var service: Ledger
    var energyUsage: seq<nat>

    /** The sizes, every car on a floor, loads matching manifests within capacity, every destination a floor. */
    ghost predicate Valid()
      reads this, positions
    {
      DispatchValid(numFloors, numElevators, positions[..], loads, manifests, waiting)
    }

    /** The state step's car loop changes. */
    function Snapshot(): Cars
      reads this, positions
    {
      Cars(positions[..], loads, manifests, waiting)
    }

    /** All cars on floor 1 and empty, empty queues and ledgers, clock at 08:00:00. */
    constructor (numFloors: int, numElevators: int)
      requires numFloors >= 1 && numElevators >= 1
      ensures Valid() && fresh(positions)
      ensures positions.Length == numElevators && |loads| == numElevators && |manifests| == numElevators && |waiting| == numFloors
      ensures clock == StartTime
      ensures forall j | 0 <= j < numElevators :: positions[j] == 1 && loads[j] == 0 && manifests[j] == []
      ensures forall f | 0 <= f < numFloors :: waiting[f] == EmptyFloor
      ensures requests == Ledger(map[], []) && service == Ledger(map[], []) && energyUsage == []
    {
      this.numFloors := numFloors;
      this.numElevators := numElevators;
      positions := new int[numElevators](_ => 1);
      loads := seq(numElevators, _ => 0);
      manifests := seq(numElevators, _ => []);
      waiting := seq(numFloors, _ => EmptyFloor);
      clock := StartTime;
      requests := Ledger(map[], []);
      service := Ledger(map[], []);
      energyUsage := [];
    }

    /**
     * detect_rush_time: rush iff at least three of the five conditions hold,
     * the request count being the number of open wait entries. Every car
     * stands on a floor, so the stop count is the number of cars.
     */
    function RushTime(): (r: bool)
      requires Valid()
      reads this, positions
      ensures r <==> CountTrue(RushConditions(waiting, |requests.open|, loads, HourOf(clock), numElevators)) >= 3
    {
      StopsCountsEveryCar(positions[..], numFloors);
      DetectRushTime(waiting, |requests.open|, loads, HourOf(clock), Stops(positions[..], numFloors))
    }

    /** track_wait_time: an open request for pid is popped and its wait recorded. */
    method TrackWaitTime(pid: PassengerId, now: int)
      modifies this`requests
      ensures requests == Close(old(requests), pid, now)
    {
      if pid in requests.open {
        var requested := requests.open[pid];
        requests := Ledger(requests.open - {pid}, requests.samples + [now - requested]);
      }
    }

    /** track_service_time: an open boarding time for pid is popped and its service time recorded. */
    method TrackServiceTime(pid: PassengerId, now: int)
      modifies this`service
      ensures service == Close(old(service), pid, now)
    {
      if pid in service.open {
        var boarded := service.open[pid];
        service := Ledger(service.open - {pid}, service.samples + [now - boarded]);
      }
    }

    /**
     * update_passengers_from_db over the rows fetched this tick, merged as
     * MergeRows does.
     */
    method UpdatePassengersFromDb(rows: seq<Row>)
      requires |waiting| == numFloors && QueuesDestsIn(waiting, numFloors)
      requires forall row | row in rows :: IsFloor(row.dest, numFloors)
      modifies this`waiting
      ensures QueuesDestsIn(waiting, numFloors)
      ensures waiting == IngestDb(old(waiting), rows)
    {
      waiting := MergeRows(waiting, rows);
      IngestDbKeepsDests(old(waiting), rows, numFloors);
    }

    /** One direction's boarding at floor f: the pop(0) loop of BoardFifo on car i and that queue. */
    method BoardFrom(i: int, f: int, d: Direction)
      requires 0 <= i < |manifests| == |loads| && IsFloor(f, |waiting|)
      requires loads[i] == |manifests[i]|
      modifies this`manifests, this`loads, this`waiting
      ensures var k := BoardCount(old(manifests[i]), old(waiting[f - 1].Get(d)));
              && manifests == old(manifests)[i := old(manifests[i]) + old(waiting[f - 1].Get(d))[..k]]
              && loads == old(loads)[i := |old(manifests[i])| + k]
              && waiting == old(waiting)[f - 1 := old(waiting[f - 1]).Put(d, old(waiting[f - 1].Get(d))[k..])]
    {
      var m, load, q := BoardFifo(manifests[i], loads[i], waiting[f - 1].Get(d));
      manifests := manifests[i := m];
      loads := loads[i := load];
      waiting := waiting[f - 1 := waiting[f - 1].Put(d, q)];
    }

    /**
     * handle_passenger_movement for car i at floor f: the entries bound for
     * f leave, the load is reset to the manifest's length, then the 'up'
     * queue and then the 'down' queue board FIFO while the car has room.
     */
    method HandlePassengerMovement(i: int, f: int)
      requires Valid() && 0 <= i < numElevators && IsFloor(f, numFloors)
      modifies this`manifests, this`loads, this`waiting
      ensures Valid()
      ensures manifests == old(manifests)[i := VisitFloor(old(manifests[i]), old(waiting[f - 1]), f).manifest]
      ensures loads == old(loads)[i := |VisitFloor(old(manifests[i]), old(waiting[f - 1]), f).manifest|]
      ensures waiting == old(waiting)[f - 1 := VisitFloor(old(manifests[i]), old(waiting[f - 1]), f).queue]
    {
      ghost var v := VisitFloor(manifests[i], waiting[f - 1], f);
      VisitKeepsValid(manifests[i], waiting[f - 1], f, numFloors);
      ReplaceManifest(loads, manifests, numFloors, i, v.manifest);
      ReplaceQueue(waiting, numFloors, f - 1, v.queue);
      var alighted := Alight(manifests[i], f);
      manifests := manifests[i := alighted];
      loads := loads[i := |alighted|];
      BoardFrom(i, f, Up);
      BoardFrom(i, f, Down);
    }

    /** The bounds test of step: the move is applied only if it lands on a floor; the energy is the distance moved. */
    method ApplyMove(i: int, move: int) returns (delta: nat)
      requires PositionsIn(positions[..], numFloors) && 0 <= i < positions.Length
      modifies positions
      ensures PositionsIn(positions[..], numFloors)
      ensures positions[..] == old(positions[..])[i := if IsFloor(old(positions[i]) + move, numFloors) then old(positions[i]) + move else old(positions[i])]
      ensures delta == Abs(positions[i] - old(positions[i]))
    {
      var oldPosition := positions[i];
      var newPosition := oldPosition + move;
      delta := 0;
      if 1 <= newPosition <= numFloors {
        positions[i] := newPosition;
        delta := Abs(newPosition - oldPosition);
      }
    }

    /**
     * The rest of step's car loop body (109-117) for a move that lands on a
     * floor: the move is applied and the car stops at the new floor.
     */
    method CarryOut(i: int, move: int) returns (delta: nat)
      requires Valid() && 0 <= i < numElevators
      requires IsFloor(positions[i] + move, numFloors)
      modifies positions, this`manifests, this`loads, this`waiting
      ensures Valid()
      ensures positions[..] == old(positions[..])[i := old(positions[i]) + move]
      ensures delta == Abs(move)
      ensures var f := positions[i];
              var v := VisitFloor(old(manifests[i]), old(waiting)[f - 1], f);
              && manifests == old(manifests)[i := v.manifest]
              && loads == old(loads)[i := |v.manifest|]
              && waiting == old(waiting)[f - 1 := v.queue]
      ensures Snapshot() == Landed(old(Snapshot()), i, old(positions[i]) + move)
    {
      var newPosition := positions[i] + move;
      delta := ApplyMove(i, move);
      HandlePassengerMovement(i, newPosition);
    }

    /**
     * One pass of step's car loop (102-117) for car i: decide the move,
     * apply it, and stop at the new floor.
     */
    method MoveCar(i: int, rush: bool) returns (delta: nat)
      requires Valid() && 0 <= i < numElevators
      modifies positions, this`manifests, this`loads, this`waiting
      ensures Valid()
      ensures positions[..] == old(positions[..])[i := positions[i]]
      ensures positions[i] == old(positions[i]) + CarMove(rush, old(loads[i]), old(manifests[i]), old(positions[i]), numElevators, old(waiting), i)
      ensures delta == Abs(positions[i] - old(positions[i])) && delta <= 1
      ensures var f := positions[i];
              var v := VisitFloor(old(manifests[i]), old(waiting)[f - 1], f);
              && manifests == old(manifests)[i := v.manifest]
              && loads == old(loads)[i := |v.manifest|]
              && waiting == old(waiting)[f - 1 := v.queue]
      ensures Snapshot() == CarTurn(old(Snapshot()), i, rush)
    {
      var move := CarMove(rush, loads[i], manifests[i], positions[i], numElevators, waiting, i);
      assert IsFloor(positions[i] + move, numFloors) && CarTurn(Snapshot(), i, rush) == Landed(Snapshot(), i, positions[i] + move) by {
        CarMoveInside(rush, loads[i], manifests[i], positions[i], numElevators, waiting, i);
        CarTurnLands(Snapshot(), i, rush, positions[i] + move);
      }
      delta := CarryOut(i, move);
    }

    /** The body of step's car loop: car i takes its turn and its displacement is added to the tick's energy. */
    method MoveCarCounted(i: int, rush: bool, ghost before: seq<int>, energy: nat) returns (energy': nat)
      requires Valid() && 0 <= i < numElevators
      requires MovedSoFar(before, positions[..], i, -1, energy)
      modifies positions, this`manifests, this`loads, this`waiting
      ensures Valid()
      ensures MovedSoFar(before, positions[..], i + 1, -1, energy')
      ensures Snapshot() == CarTurn(old(Snapshot()), i, rush)
    {
      ghost var prev := positions[..];
      ghost var turn := CarTurn(Snapshot(), i, rush);
      var delta := MoveCar(i, rush);
      assert Snapshot() == turn;
      MovedOneMore(before, prev, positions[..], i, -1, energy, delta);
      energy' := energy + delta;
    }

    /**
     * step's car loop: every car in index order moves at most one floor and
     * the energy is the total displacement.
     */
    method MoveCars(rush: bool) returns (energy: nat)
      requires Valid()
      modifies positions, this`manifests, this`loads, this`waiting
      ensures Valid()
      ensures Snapshot() == CarsAfter(old(Snapshot()), rush, numElevators)
      ensures forall j | 0 <= j < numElevators :: Abs(positions[j] - old(positions[j])) <= 1
      ensures energy == Displacement(old(positions[..]), positions[..]) && energy <= numElevators
    {
      ghost var before := positions[..];
      ghost var start := Snapshot();
      energy := 0;
      var i := 0;
      MovedNone(before, -1);
      while i < numElevators
        invariant 0 <= i <= numElevators
        invariant Valid()
        invariant MovedSoFar(before, positions[..], i, -1, energy)
        invariant Snapshot() == CarsAfter(start, rush, i)
      {
        energy := MoveCarCounted(i, rush, before, energy);
        i := i + 1;
      }
      MovedAll(before, positions[..], -1, energy);
    }

    /**
     * The head of step (77-101): the clock advances by 5 s, the fetched rows
     * are merged, and rush time is decided once on the merged queues.
     */
    method BeginStep(rows: seq<Row>) returns (rush: bool)
      requires Valid()
      requires forall row | row in rows :: IsFloor(row.dest, numFloors)
      modifies this`clock, this`waiting
      ensures Valid()
      ensures clock == old(clock) + TimePerStep
      ensures waiting == IngestDb(old(waiting), rows)
      ensures rush == DetectRushTime(waiting, |requests.open|, loads, HourOf(clock), numElevators)
    {
      clock := clock + TimePerStep;
      UpdatePassengersFromDb(rows);
      rush := RushTime();
      StopsCountsEveryCar(positions[..], numFloors);
    }

    /** The tail of step (102-135): the car loop, then the tick's energy is appended to the record. */
    method FinishStep(rush: bool) returns (energy: nat)
      requires Valid()
      modifies positions, this`manifests, this`loads, this`waiting, this`energyUsage
      ensures Valid()
      ensures Snapshot() == CarsAfter(old(Snapshot()), rush, numElevators)
      ensures forall j | 0 <= j < numElevators :: Abs(positions[j] - old(positions[j])) <= 1
      ensures energy == Displacement(old(positions[..]), positions[..]) && energy <= numElevators
      ensures energyUsage == old(energyUsage) + [energy]
    {
      energy := MoveCars(rush);
      energyUsage := energyUsage + [energy];
    }

    /**
     * step (77-135): the clock advances by 5 s, the fetched rows are merged,
     * rush time is decided once on the merged queues, the cars take their
     * turns in index order, and the tick's energy is appended. The wait and
     * service ledgers are outside the frame, so they are left as they are.
     */
    method Step(rows: seq<Row>) returns (energy: nat)
      requires Valid()
      requires forall row | row in rows :: IsFloor(row.dest, numFloors)
      modifies this`clock, this`waiting, this`manifests, this`loads, this`energyUsage, positions
      ensures Valid()
      ensures var merged := IngestDb(old(waiting), rows);
              var rush := DetectRushTime(merged, |old(requests.open)|, old(loads), HourOf(clock), numElevators);
              Snapshot() == CarsAfter(old(Snapshot()).(waiting := merged), rush, numElevators)
      ensures clock == old(clock) + TimePerStep
      ensures forall j | 0 <= j < numElevators :: Abs(positions[j] - old(positions[j])) <= 1
      ensures energy == Displacement(old(positions[..]), positions[..]) && energy <= numElevators
      ensures energyUsage == old(energyUsage) + [energy]
    {
      var rush := BeginStep(rows);
      assert Snapshot() == old(Snapshot()).(waiting := waiting);
      energy := FinishStep(rush);
    }
  }
}
