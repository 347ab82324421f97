/**
 * Merging freshly fetched passenger rows into the floor queues.
 *
 * ENVsql.py (update_passengers) skips any id it has already admitted, records
 * the id, and opens a request time for the floor if none is open. ENV.py
 * (update_passengers_from_db) appends an (id, destination) entry only if that
 * exact entry is not already in its queue. In both, a row naming a floor that
 * does not exist raises inside the try block, so the rest of the batch is
 * dropped.
 */
module Ingestion {
  import opened Common

  /** One fetched row: passenger_id, floor, direction (already normalised), destination_floor. */
  datatype Row = Row(id: PassengerId, floor: int, dir: Direction, dest: int)

  /** The part of the state update_passengers touches. */
  datatype Intake = Intake(waiting: seq<FloorQueue>, processed: set<PassengerId>, requestTimes: map<int, int>)

  /** Queue q appended with p, on floor f, direction d. */
  function Enqueue(waiting: seq<FloorQueue>, f: int, d: Direction, p: Passenger): (r: seq<FloorQueue>)
    requires IsFloor(f, |waiting|)
    ensures |r| == |waiting|
    ensures r[f - 1].Get(d) == waiting[f - 1].Get(d) + [p]
  {
    waiting[f - 1 := waiting[f - 1].Put(d, waiting[f - 1].Get(d) + [p])]
  }

  /** Admitting one new row (ENVsql.py). */
  function Admit(s: Intake, row: Row, now: int): Intake
    requires IsFloor(row.floor, |s.waiting|)
  {
    Intake(
      Enqueue(s.waiting, row.floor, row.dir, Passenger(row.id, row.dest)),
      s.processed + {row.id},
      if row.floor in s.requestTimes then s.requestTimes else s.requestTimes[row.floor := now])
  }

  /** update_passengers over a batch of rows, in order. */
  function Ingest(s: Intake, rows: seq<Row>, now: int): Intake
    decreases |rows|
  {
    if rows == [] then s
    else if rows[0].id in s.processed then Ingest(s, rows[1..], now)
    else if !IsFloor(rows[0].floor, |s.waiting|) then s
    else Ingest(Admit(s, rows[0], now), rows[1..], now)
  }

  /** q is q0 followed by entries whose ids were new and are now recorded. */
  ghost predicate GrewWithNewIds(q0: seq<Passenger>, q: seq<Passenger>, before: set<PassengerId>, after: set<PassengerId>) {
    && q0 <= q
    && forall k | |q0| <= k < |q| :: q[k].id !in before && q[k].id in after
  }

  /** Ids are only ever recorded, and open request times keep their values; a new one is the current time. */
  lemma {:induction false} IngestRecords(s: Intake, rows: seq<Row>, now: int)
    ensures |Ingest(s, rows, now).waiting| == |s.waiting|
    ensures s.processed <= Ingest(s, rows, now).processed
    ensures forall f | f in s.requestTimes :: f in Ingest(s, rows, now).requestTimes && Ingest(s, rows, now).requestTimes[f] == s.requestTimes[f]
    ensures forall f | f in Ingest(s, rows, now).requestTimes && f !in s.requestTimes :: Ingest(s, rows, now).requestTimes[f] == now
    decreases |rows|
  {
    if rows != [] {
      if rows[0].id in s.processed {
        IngestRecords(s, rows[1..], now);
      } else if IsFloor(rows[0].floor, |s.waiting|) {
        IngestRecords(Admit(s, rows[0], now), rows[1..], now);
      }
    }
  }

  /** Growth by new ids over two stretches is growth by new ids over both. */
  lemma GrewTransitive(q0: seq<Passenger>, q1: seq<Passenger>, q2: seq<Passenger>, b0: set<PassengerId>, b1: set<PassengerId>, b2: set<PassengerId>)
    requires GrewWithNewIds(q0, q1, b0, b1) && GrewWithNewIds(q1, q2, b1, b2)
    requires b0 <= b1 <= b2
    ensures GrewWithNewIds(q0, q2, b0, b2)
  {
  }

  /** One queue through a batch: it is extended at its end by entries whose ids were new and are now recorded. */
  lemma {:induction false} IngestGrowsAt(s: Intake, rows: seq<Row>, now: int, f: nat, d: Direction)
    requires f < |s.waiting|
    ensures |Ingest(s, rows, now).waiting| == |s.waiting|
    ensures GrewWithNewIds(s.waiting[f].Get(d), Ingest(s, rows, now).waiting[f].Get(d), s.processed, Ingest(s, rows, now).processed)
    decreases |rows|
  {
    IngestRecords(s, rows, now);
    if rows != [] {
      if rows[0].id in s.processed {
        IngestGrowsAt(s, rows[1..], now, f, d);
      } else if IsFloor(rows[0].floor, |s.waiting|) {
        var a := Admit(s, rows[0], now);
        var r := Ingest(a, rows[1..], now);
        IngestGrowsAt(a, rows[1..], now, f, d);
        IngestRecords(a, rows[1..], now);
        assert GrewWithNewIds(s.waiting[f].Get(d), a.waiting[f].Get(d), s.processed, a.processed);
        GrewTransitive(s.waiting[f].Get(d), a.waiting[f].Get(d), r.waiting[f].Get(d), s.processed, a.processed, r.processed);
      }
    }
  }

  /**
   * Ingestion only adds: ids already seen are never enqueued again, every
   * queue is extended at its end by entries whose ids were new and are now
   * recorded, and open request times keep their values; a floor gains one
   * only at the current time.
   */
  lemma IngestOnlyAdds(s: Intake, rows: seq<Row>, now: int)
    ensures |Ingest(s, rows, now).waiting| == |s.waiting|
    ensures s.processed <= Ingest(s, rows, now).processed
    ensures forall f | 0 <= f < |s.waiting| ::
              && GrewWithNewIds(s.waiting[f].up, Ingest(s, rows, now).waiting[f].up, s.processed, Ingest(s, rows, now).processed)
              && GrewWithNewIds(s.waiting[f].down, Ingest(s, rows, now).waiting[f].down, s.processed, Ingest(s, rows, now).processed)
    ensures forall f | f in s.requestTimes :: f in Ingest(s, rows, now).requestTimes && Ingest(s, rows, now).requestTimes[f] == s.requestTimes[f]
    ensures forall f | f in Ingest(s, rows, now).requestTimes && f !in s.requestTimes :: Ingest(s, rows, now).requestTimes[f] == now
  {
    IngestRecords(s, rows, now);
    forall f | 0 <= f < |s.waiting|
      ensures GrewWithNewIds(s.waiting[f].up, Ingest(s, rows, now).waiting[f].up, s.processed, Ingest(s, rows, now).processed)
      ensures GrewWithNewIds(s.waiting[f].down, Ingest(s, rows, now).waiting[f].down, s.processed, Ingest(s, rows, now).processed)
    {
      IngestGrowsAt(s, rows, now, f, Up);
      IngestGrowsAt(s, rows, now, f, Down);
    }
  }

  /**
   * Re-delivering the same batch changes nothing: every row admitted the
   * first time is now a known id, and the row that aborted the batch aborts
   * it again.
   */
  lemma {:induction false} IngestIdempotent(s: Intake, rows: seq<Row>, now: int)
    ensures Ingest(Ingest(s, rows, now), rows, now) == Ingest(s, rows, now)
    decreases |rows|
  {
    if rows != [] {
      var r := Ingest(s, rows, now);
      if rows[0].id in s.processed {
        IngestRecords(s, rows[1..], now);
        IngestIdempotent(s, rows[1..], now);
      } else if IsFloor(rows[0].floor, |s.waiting|) {
        var a := Admit(s, rows[0], now);
        IngestRecords(a, rows[1..], now);
        assert rows[0].id in r.processed;
        IngestIdempotent(a, rows[1..], now);
      }
    }
  }

  /** One row of update_passengers_from_db on an existing floor: its entry is appended unless already queued. */
  function QueueRow(waiting: seq<FloorQueue>, row: Row): (r: seq<FloorQueue>)
    requires IsFloor(row.floor, |waiting|)
    ensures |r| == |waiting|
  {
    var p := Passenger(row.id, row.dest);
    if p in waiting[row.floor - 1].Get(row.dir) then waiting
    else Enqueue(waiting, row.floor, row.dir, p)
  }

  /** update_passengers_from_db over a batch (ENV.py): no request times, no processed set. */
  function IngestDb(waiting: seq<FloorQueue>, rows: seq<Row>): (r: seq<FloorQueue>)
    ensures |r| == |waiting|
    decreases |rows|
  {
    if rows == [] || !IsFloor(rows[0].floor, |waiting|) then waiting
    else IngestDb(QueueRow(waiting, rows[0]), rows[1..])
  }

  /** Queues in w are prefixes of those in w'. */
  ghost predicate QueuesExtend(w: seq<FloorQueue>, w': seq<FloorQueue>) {
    |w| == |w'| && forall f | 0 <= f < |w| :: w[f].up <= w'[f].up && w[f].down <= w'[f].down
  }

  lemma {:induction false} IngestDbExtends(waiting: seq<FloorQueue>, rows: seq<Row>)
    ensures QueuesExtend(waiting, IngestDb(waiting, rows))
    decreases |rows|
  {
    if rows != [] && IsFloor(rows[0].floor, |waiting|) {
      var w1 := QueueRow(waiting, rows[0]);
      IngestDbExtends(w1, rows[1..]);
      assert QueuesExtend(waiting, w1);
    }
  }

  /** An entry already queued stays queued through a batch. */
  lemma {:induction false} IngestDbKeeps(waiting: seq<FloorQueue>, rows: seq<Row>, f: int, d: Direction, p: Passenger)
    requires IsFloor(f, |waiting|) && p in waiting[f - 1].Get(d)
    ensures p in IngestDb(waiting, rows)[f - 1].Get(d)
    decreases |rows|
  {
    if rows != [] && IsFloor(rows[0].floor, |waiting|) {
      var w1 := QueueRow(waiting, rows[0]);
      assert waiting[f - 1].Get(d) <= w1[f - 1].Get(d);
      IngestDbKeeps(w1, rows[1..], f, d, p);
    }
  }

  /**
   * The entry of every row the batch reached is in its queue afterwards, so
   * re-delivering the same rows leaves the queues unchanged.
   */
  lemma {:induction false} IngestDbIdempotent(waiting: seq<FloorQueue>, rows: seq<Row>)
    ensures IngestDb(IngestDb(waiting, rows), rows) == IngestDb(waiting, rows)
    decreases |rows|
  {
    if rows != [] && IsFloor(rows[0].floor, |waiting|) {
      var r := rows[0];
      var p := Passenger(r.id, r.dest);
      var w1 := QueueRow(waiting, r);
      assert p in w1[r.floor - 1].Get(r.dir);
      IngestDbKeeps(w1, rows[1..], r.floor, r.dir, p);
      IngestDbIdempotent(w1, rows[1..]);
    }
  }
}
