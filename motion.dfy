/**
 * Car motion in one step of the ENVsql.py engine: the energy of a tick is
 * the total number of floors the cars moved, and the car loop moves the cars
 * one at a time, in index order.
 */
module Motion {
  import opened Common

  /** The sum of |after[j] - before[j]| over all cars: the energy of one tick. */
  function Displacement(before: seq<int>, after: seq<int>): (e: nat)
    requires |before| == |after|
    ensures (forall j | 0 <= j < |before| :: Abs(after[j] - before[j]) <= 1) ==> e <= |before|
    ensures (forall j | 0 <= j < |before| :: after[j] == before[j]) ==> e == 0
  {
    if before == [] then 0
    else
      var n := |before| - 1;
      Displacement(before[..n], after[..n]) + Abs(after[n] - before[n])
  }

  /** Adding car n to the sum adds its own displacement. */
  lemma DisplacementStep(before: seq<int>, after: seq<int>, n: nat)
    requires |before| == |after| && n < |before|
    ensures Displacement(before[..n + 1], after[..n + 1]) == Displacement(before[..n], after[..n]) + Abs(after[n] - before[n])
  {
    assert before[..n + 1][..n] == before[..n];
    assert after[..n + 1][..n] == after[..n];
  }

  /** Every car is at most one floor from where it was. */
  ghost predicate OneFloorMoves(before: seq<int>, after: seq<int>)
  {
    |after| == |before| && forall j | 0 <= j < |before| :: Abs(after[j] - before[j]) <= 1
  }

  /**
   * The car loop after cars 0..i-1: each of them moved at most one floor,
   * the car under maintenance (`frozen`, -1 when none) did not move, the
   * cars from i on have not moved yet, and `energy` counts the floors moved.
   */
  ghost predicate MovedSoFar(before: seq<int>, cur: seq<int>, i: nat, frozen: int, energy: int)
  {
    && |cur| == |before| && i <= |before|
    && (forall j | i <= j < |before| :: cur[j] == before[j])
    && (forall j | 0 <= j < i :: Abs(cur[j] - before[j]) <= 1)
    && (0 <= frozen < i ==> cur[frozen] == before[frozen])
    && energy == Displacement(before[..i], cur[..i])
  }

  /** Nothing has moved before the loop. */
  lemma MovedNone(before: seq<int>, frozen: int)
    ensures MovedSoFar(before, before, 0, frozen, 0)
  {
    assert before[..0] == [];
  }

  /** Moving car i by at most one floor (not at all if it is frozen) extends the loop's account by one car. */
  lemma MovedOneMore(before: seq<int>, prev: seq<int>, cur: seq<int>, i: nat, frozen: int, energy: int, delta: int)
    requires MovedSoFar(before, prev, i, frozen, energy) && i < |before|
    requires |cur| == |prev| && cur == prev[i := cur[i]]
    requires delta == Abs(cur[i] - prev[i]) && delta <= 1
    requires i == frozen ==> cur[i] == prev[i]
    ensures MovedSoFar(before, cur, i + 1, frozen, energy + delta)
  {
    assert cur[..i] == prev[..i];
    DisplacementStep(before, cur, i);
  }

  /** After the last car: every car moved at most one floor, the frozen one not at all, and energy is the tick's displacement. */
  lemma MovedAll(before: seq<int>, cur: seq<int>, frozen: int, energy: int)
    requires MovedSoFar(before, cur, |before|, frozen, energy)
    ensures OneFloorMoves(before, cur)
    ensures 0 <= frozen < |before| ==> cur[frozen] == before[frozen]
    ensures energy == Displacement(before, cur) && energy <= |before|
  {
    assert before[..|before|] == before && cur[..|cur|] == cur;
  }
}
