/**
 * Value types and constants shared by both versions of the elevator dispatch
 * engine (ENV.py, the earlier one, and ENVsql.py).
 *
 * Time is an integer number of seconds since midnight of the simulation's
 * first day; the engines start at 08:00:00 AM and advance 5 s per tick.
 * Schedule keys written as "%I:%M:%S %p" strings are in one-to-one
 * correspondence with seconds-of-day, so they are modelled as integers in
 * [0, 86400).
 */
module Common {

  datatype Option<T> = None | Some(value: T)

  /** A passenger identifier as the engine compares it (its text form). */
  type PassengerId = string

  /** One entry of a floor queue or of a car manifest: (passenger_id, destination floor). */
  datatype Passenger = Passenger(id: PassengerId, dest: int)

  datatype Direction = Up | Down

  /** The two FIFO queues of one floor. */
  datatype FloorQueue = FloorQueue(up: seq<Passenger>, down: seq<Passenger>)
  {
    predicate HasWaiting() {
      up != [] || down != []
    }

    function Count(): nat {
      |up| + |down|
    }

    function Get(d: Direction): seq<Passenger> {
      if d == Up then up else down
    }

    function Put(d: Direction, q: seq<Passenger>): (r: FloorQueue)
      ensures r.Get(d) == q
      ensures d == Up ==> r.down == down
      ensures d == Down ==> r.up == up
    {
      if d == Up then FloorQueue(q, down) else FloorQueue(up, q)
    }
  }

  const EmptyFloor := FloorQueue([], [])

  /** max_capacity: passengers per car. */
  const MaxCapacity: nat := 10
  /** time_per_step: simulated seconds per tick. */
  const TimePerStep: nat := 5
  const SecondsPerDay: nat := 86400
  /** Both engines start their clock at 08:00:00 AM. */
  const StartTime: nat := 8 * 3600

  predicate IsFloor(f: int, numFloors: int) {
    1 <= f <= numFloors
  }

  function Abs(x: int): nat {
    if x < 0 then -x else x
  }

  function Min(a: int, b: int): int {
    if a < b then a else b
  }

  /** np.sign of an integer difference. */
  function Sign(x: int): (r: int)
    ensures -1 <= r <= 1
    ensures r == 0 <==> x == 0
    ensures r > 0 <==> x > 0
  {
    if x > 0 then 1 else if x < 0 then -1 else 0
  }

  /** Moving by Sign(target - cur) from cur stays between cur and target. */
  lemma SignStaysBetween(cur: int, target: int, numFloors: int)
    requires IsFloor(cur, numFloors) && IsFloor(target, numFloors)
    ensures IsFloor(cur + Sign(target - cur), numFloors)
    ensures cur != target ==> Abs(cur + Sign(target - cur) - target) == Abs(cur - target) - 1
  {
  }

  /** The key a "%I:%M:%S %p" time string stands for. */
  function TimeKey(clock: int): (k: int)
    ensures 0 <= k < SecondsPerDay
  {
    clock % SecondsPerDay
  }

  /**
   * The round-down of a timestamp's seconds to the nearest lower multiple
   * of 5 that both schedule loaders apply before building a key.
   */
  function RoundDown5(second: int): (r: int)
    requires 0 <= second < 60
    ensures 0 <= r <= second < r + 5
    ensures r % 5 == 0
  {
    second - second % 5
  }

  /** The schedule key of a wall-clock time, seconds rounded down to 5. */
  function ScheduleKey(hour: int, minute: int, second: int): (k: int)
    requires 0 <= hour < 24 && 0 <= minute < 60 && 0 <= second < 60
    ensures 0 <= k < SecondsPerDay && k % 5 == 0
    ensures hour * 3600 + minute * 60 + second - 5 < k <= hour * 3600 + minute * 60 + second
  {
    hour * 3600 + minute * 60 + RoundDown5(second)
  }

  /** Rounding is idempotent: a rounded time rounds to itself. */
  lemma RoundDown5Idempotent(second: int)
    requires 0 <= second < 60
    ensures RoundDown5(RoundDown5(second)) == RoundDown5(second)
  {
  }

  /**
   * Every 5-second key of the day is met by the clock on some tick: the clock
   * starts at a multiple of 5 and moves in steps of 5, so after n ticks its
   * key is (StartTime + 5n) mod 86400.
   */
  lemma {:induction false} EveryRoundedKeyIsReached(k: int)
    requires 0 <= k < SecondsPerDay && k % 5 == 0
    ensures exists n: nat :: TimeKey(StartTime + TimePerStep * n) == k
  {
    var n: nat := if k >= StartTime then (k - StartTime) / 5 else (k + SecondsPerDay - StartTime) / 5;
    assert TimeKey(StartTime + TimePerStep * n) == k;
  }
}
