/**
 * VIP reservations (ENVsql.py): a reservation falls due within a minute of
 * its time and opens a one-minute recognition window; a recognised VIP group
 * is spawned on its entry floor with ids "VIP_<uid>_<k>", and one car is
 * dedicated to carrying it.
 */
module Vip {
  import opened Common
  import opened Boarding

  /** One fetched reservation: the user key, the Firebase uid and the request. */
  datatype Reservation = Reservation(
    userUid: string,
    firebaseUid: string,
    time: Option<int>,
    entryFloor: int,
    destinationFloor: int,
    numberOfPeople: int)

  /** active_reservation_window. */
  datatype ReservationWindow = ReservationWindow(firebaseUid: string, reservation: Reservation, start: int)

  /** The single vip_targets entry. */
  datatype VipTarget = VipTarget(
    entryFloor: int,
    destinationFloor: int,
    firebaseUid: string,
    groupSize: int,
    pickedUp: bool,
    waitStart: int)

  /** Seconds a reservation stays due, a window stays open and the VIP car waits. */
  const VipWaitSeconds: nat := 60

  /** The reservation's time parsed and 0..60 s in the past. */
  predicate IsDue(r: Reservation, clock: int) {
    r.time.Some? && 0 <= clock - r.time.value <= VipWaitSeconds
  }

  /** A reservation that would open a window: not handled yet, and due. */
  predicate Opens(r: Reservation, handled: set<string>, clock: int) {
    r.userUid !in handled && IsDue(r, clock)
  }

  function FirstDueFrom(rs: seq<Reservation>, handled: set<string>, clock: int, j: nat): (k: Option<nat>)
    requires j <= |rs|
    ensures k.None? <==> forall i | j <= i < |rs| :: !Opens(rs[i], handled, clock)
    ensures k.Some? ==> j <= k.value < |rs| && Opens(rs[k.value], handled, clock)
    ensures k.Some? ==> forall i | j <= i < k.value :: !Opens(rs[i], handled, clock)
    decreases |rs| - j
  {
    if j == |rs| then None
    else if Opens(rs[j], handled, clock) then Some(j)
    else FirstDueFrom(rs, handled, clock, j + 1)
  }

  /** The first reservation, in feed order, that would open a window. */
  function FirstDue(rs: seq<Reservation>, handled: set<string>, clock: int): (k: Option<nat>)
    ensures k.None? <==> forall i | 0 <= i < |rs| :: !Opens(rs[i], handled, clock)
    ensures k.Some? ==> k.value < |rs| && Opens(rs[k.value], handled, clock)
    ensures k.Some? ==> forall i | 0 <= i < k.value :: !Opens(rs[i], handled, clock)
  {
    FirstDueFrom(rs, handled, clock, 0)
  }

  function DigitChar(d: nat): char
    requires d < 10
  {
    "0123456789"[d]
  }

  /** Decimal text of n, as an f-string writes it. */
  function NatToString(n: nat): string
  {
    if n < 10 then [DigitChar(n)] else NatToString(n / 10) + [DigitChar(n % 10)]
  }

  function VipPrefix(uid: string): string {
    "VIP_" + uid + "_"
  }

  /** The group generate_vip_passengers appends to the entry floor's up queue. */
  function VipGroup(uid: string, dest: int, n: int): (g: seq<Passenger>)
    ensures |g| == if n > 0 then n else 0
    decreases if n > 0 then n else 0
  {
    if n <= 0 then [] else VipGroup(uid, dest, n - 1) + [Passenger(VipPrefix(uid) + NatToString(n - 1), dest)]
  }

  /** Member k of a group is VIP_<uid>_<k>, bound for the group's destination. */
  lemma {:induction false} VipGroupMembers(uid: string, dest: int, n: int)
    ensures forall k | 0 <= k < |VipGroup(uid, dest, n)| :: VipGroup(uid, dest, n)[k] == Passenger(VipPrefix(uid) + NatToString(k), dest)
    decreases if n > 0 then n else 0
  {
    if n > 0 {
      VipGroupMembers(uid, dest, n - 1);
    }
  }

  /** Some entry carries the group's id prefix. */
  predicate HasGroupMember(ps: seq<Passenger>, uid: string) {
    exists p | p in ps :: VipPrefix(uid) <= p.id
  }

  /** Prepending a prefix keeps it as a prefix, character by character. */
  lemma PrefixedId(pre: string, rest: string)
    ensures pre <= pre + rest
    ensures forall i | 0 <= i < |pre| :: (pre + rest)[i] == pre[i]
  {
  }

  /**
   * Every member of a VIP group carries a "VIP_" id and the group's prefix,
   * so it may board the car holding the VIP assignment and no other.
   */
  lemma VipGroupBoardsOnlyVipCar(uid: string, dest: int, n: int, car: int, vipCar: Option<int>)
    ensures forall p | p in VipGroup(uid, dest, n) :: VipPrefix(uid) <= p.id && IsVipId(p.id)
    ensures forall p | p in VipGroup(uid, dest, n) :: MayBoard(p, car, vipCar) <==> vipCar == Some(car)
  {
    var g := VipGroup(uid, dest, n);
    VipGroupMembers(uid, dest, n);
    forall p | p in g
      ensures VipPrefix(uid) <= p.id && IsVipId(p.id)
    {
      var k :| 0 <= k < |g| && g[k] == p;
      PrefixedId(VipPrefix(uid), NatToString(k));
      PrefixedId("VIP_", uid + "_");
      assert VipPrefix(uid) == "VIP_" + (uid + "_");
    }
  }
}
