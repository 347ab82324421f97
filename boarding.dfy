/**
 * What happens to one car's manifest and to one floor's queues when the car
 * stops at a floor (handle_passenger_movement in ENVsql.py): alighting,
 * the choice of the pickup queue, the VIP-exclusivity filter and boarding
 * under the capacity limit, stated on values.
 */
module Boarding {
  import opened Common

  /** str(pid).startswith("VIP_") */
  predicate IsVipId(id: PassengerId) {
    |id| >= 4 && id[0] == 'V' && id[1] == 'I' && id[2] == 'P' && id[3] == '_'
  }

  /**
   * The VIP-exclusivity rule: a "VIP_" id may board only the car holding the
   * VIP assignment, and that car boards only "VIP_" ids.
   */
  predicate MayBoard(p: Passenger, car: int, vipCar: Option<int>) {
    if IsVipId(p.id) then vipCar == Some(car) else vipCar != Some(car)
  }

  /** The manifest entries leaving the car at floor f. */
  function Exiting(manifest: seq<Passenger>, f: int): seq<Passenger>
  {
    if manifest == [] then []
    else (if manifest[0].dest == f then [manifest[0]] else []) + Exiting(manifest[1..], f)
  }

  /** The manifest after everyone bound for floor f has left, order kept. */
  function Alight(manifest: seq<Passenger>, f: int): seq<Passenger>
  {
    if manifest == [] then []
    else (if manifest[0].dest != f then [manifest[0]] else []) + Alight(manifest[1..], f)
  }

  /**
   * Alighting splits the manifest: the entries bound for f leave, the
   * others stay.
   */
  lemma {:induction false} AlightSplits(manifest: seq<Passenger>, f: int)
    ensures forall p | p in Exiting(manifest, f) :: p in manifest && p.dest == f
    ensures forall p | p in manifest && p.dest == f :: p in Exiting(manifest, f)
    ensures forall p | p in Alight(manifest, f) :: p in manifest && p.dest != f
    ensures forall p | p in manifest && p.dest != f :: p in Alight(manifest, f)
  {
    if manifest != [] {
      AlightSplits(manifest[1..], f);
      assert forall p | p in manifest :: p == manifest[0] || p in manifest[1..];
    }
  }

  /** Alighting loses and duplicates nobody: those leaving and those staying make up the old manifest. */
  lemma {:induction false} AlightConserves(manifest: seq<Passenger>, f: int)
    ensures multiset(Alight(manifest, f)) + multiset(Exiting(manifest, f)) == multiset(manifest)
    ensures |Alight(manifest, f)| <= |manifest|
  {
    if manifest != [] {
      AlightConserves(manifest[1..], f);
      assert manifest == [manifest[0]] + manifest[1..];
    }
  }

  /** The ids of a list of entries, in order. */
  function Ids(ps: seq<Passenger>): (r: seq<PassengerId>)
    ensures |r| == |ps|
    ensures forall k | 0 <= k < |ps| :: r[k] == ps[k].id
  {
    seq(|ps|, k requires 0 <= k < |ps| => ps[k].id)
  }

  /** The pickup queue: 'up' whenever it is non-empty, else 'down'. */
  function PickupDirection(q: FloorQueue): (d: Direction)
    ensures d == Up <==> q.up != []
  {
    if q.up != [] then Up else Down
  }

  /** The one-entry filter: [p] if p may board `car`, else []. */
  function Keep(p: Passenger, car: int, vipCar: Option<int>): seq<Passenger>
  {
    if MayBoard(p, car, vipCar) then [p] else []
  }

  /** filtered_queue: the entries of q that may board car `car`, in queue order. */
  function Eligible(q: seq<Passenger>, car: int, vipCar: Option<int>): (r: seq<Passenger>)
    ensures |r| <= |q|
  {
    if q == [] then []
    else Keep(q[0], car, vipCar) + Eligible(q[1..], car, vipCar)
  }

  /** filtered_queue holds exactly the queue's entries that may board this car. */
  lemma {:induction false} EligibleMembers(q: seq<Passenger>, car: int, vipCar: Option<int>)
    ensures forall p | p in Eligible(q, car, vipCar) :: p in q && MayBoard(p, car, vipCar)
    ensures forall p | p in q && MayBoard(p, car, vipCar) :: p in Eligible(q, car, vipCar)
  {
    if q != [] {
      EligibleMembers(q[1..], car, vipCar);
      assert q == [q[0]] + q[1..];
    }
  }

  /** Filtering a queue entry by entry: the filter of a concatenation is the concatenation of the filters. */
  lemma {:induction false} EligibleConcat(a: seq<Passenger>, b: seq<Passenger>, car: int, vipCar: Option<int>)
    ensures Eligible(a + b, car, vipCar) == Eligible(a, car, vipCar) + Eligible(b, car, vipCar)
    decreases |a|
  {
    if a != [] {
      var head := Keep(a[0], car, vipCar);
      assert (a + b)[0] == a[0];
      assert (a + b)[1..] == a[1..] + b;
      EligibleConcat(a[1..], b, car, vipCar);
      assert head + (Eligible(a[1..], car, vipCar) + Eligible(b, car, vipCar))
          == (head + Eligible(a[1..], car, vipCar)) + Eligible(b, car, vipCar);
    } else {
      assert a + b == b;
    }
  }

  /** list.remove(x): drop the first entry equal to x. */
  function RemoveFirst(q: seq<Passenger>, x: Passenger): (r: seq<Passenger>)
    requires x in q
    ensures |r| == |q| - 1
  {
    if q[0] == x then
      assert q == [q[0]] + q[1..];
      q[1..]
    else
      assert q == [q[0]] + q[1..];
      [q[0]] + RemoveFirst(q[1..], x)
  }

  /** list.index(x): the position of the first entry equal to x. */
  function FirstIndex(q: seq<Passenger>, x: Passenger): (i: nat)
    requires x in q
    ensures i < |q| && q[i] == x && x !in q[..i]
  {
    if q[0] == x then 0
    else
      assert q == [q[0]] + q[1..];
      var j := FirstIndex(q[1..], x);
      assert q[..j + 1] == [q[0]] + q[1..][..j];
      j + 1
  }

  /** list.remove takes out the first entry equal to x and keeps the rest in order. */
  lemma {:induction false} RemoveFirstSplits(q: seq<Passenger>, x: Passenger)
    requires x in q
    ensures RemoveFirst(q, x) == q[..FirstIndex(q, x)] + q[FirstIndex(q, x) + 1..]
  {
    if q[0] != x {
      assert q == [q[0]] + q[1..];
      RemoveFirstSplits(q[1..], x);
      var i := FirstIndex(q[1..], x);
      assert q[..i + 1] == [q[0]] + q[1..][..i];
      assert q[i + 2..] == q[1..][i + 1..];
    }
  }

  /** list.remove takes out exactly one copy of x. */
  lemma {:induction false} RemoveFirstCount(q: seq<Passenger>, x: Passenger)
    requires x in q
    ensures multiset(RemoveFirst(q, x)) == multiset(q) - multiset{x}
  {
    assert q == [q[0]] + q[1..];
    if q[0] != x {
      RemoveFirstCount(q[1..], x);
    }
  }

  /** q without its first k entries that may board `car`, every other entry in place. */
  function Unboard(q: seq<Passenger>, car: int, vipCar: Option<int>, k: nat): seq<Passenger>
  {
    if q == [] then []
    else if k > 0 && MayBoard(q[0], car, vipCar) then Unboard(q[1..], car, vipCar, k - 1)
    else [q[0]] + Unboard(q[1..], car, vipCar, k)
  }

  lemma {:induction false} UnboardNone(q: seq<Passenger>, car: int, vipCar: Option<int>)
    ensures Unboard(q, car, vipCar, 0) == q
  {
    if q != [] {
      UnboardNone(q[1..], car, vipCar);
    }
  }

  /**
   * Boarding one more passenger by list.remove on the value equals removing
   * the next eligible entry by position: the first entry equal to it cannot
   * lie earlier, since an equal entry is eligible too and would have boarded.
   */
  lemma {:induction false} UnboardStep(q: seq<Passenger>, car: int, vipCar: Option<int>, m: nat)
    requires m < |Eligible(q, car, vipCar)|
    ensures Eligible(q, car, vipCar)[m] in Unboard(q, car, vipCar, m)
    ensures Unboard(q, car, vipCar, m + 1) == RemoveFirst(Unboard(q, car, vipCar, m), Eligible(q, car, vipCar)[m])
    decreases |q|
  {
    var e := Eligible(q, car, vipCar);
    var e' := Eligible(q[1..], car, vipCar);
    if MayBoard(q[0], car, vipCar) {
      assert e == [q[0]] + e';
      if m == 0 {
        UnboardNone(q, car, vipCar);
        UnboardNone(q[1..], car, vipCar);
        assert q == [q[0]] + q[1..];
      } else {
        UnboardStep(q[1..], car, vipCar, m - 1);
      }
    } else {
      assert e == e';
      UnboardStep(q[1..], car, vipCar, m);
      var u := Unboard(q[1..], car, vipCar, m);
      EligibleMembers(q, car, vipCar);
      assert e[m] in e;
      assert q[0] != e[m];
      var w := [q[0]] + u;
      assert w[0] == q[0] && w[1..] == u;
    }
  }

  /**
   * Boarding conserves passengers: the queue after boarding the first k
   * eligible entries plus those k entries is the queue before, as a multiset.
   */
  lemma {:induction false} UnboardConserves(q: seq<Passenger>, car: int, vipCar: Option<int>, k: nat)
    requires k <= |Eligible(q, car, vipCar)|
    ensures multiset(Unboard(q, car, vipCar, k)) + multiset(Eligible(q, car, vipCar)[..k]) == multiset(q)
    ensures |Unboard(q, car, vipCar, k)| + k == |q|
    decreases |q|, 1
  {
    if k == 0 {
      UnboardNone(q, car, vipCar);
      assert Eligible(q, car, vipCar)[..k] == [];
    } else if MayBoard(q[0], car, vipCar) {
      UnboardConservesBoards(q, car, vipCar, k);
    } else {
      UnboardConservesSkips(q, car, vipCar, k);
    }
  }

  lemma {:induction false} UnboardConservesBoards(q: seq<Passenger>, car: int, vipCar: Option<int>, k: nat)
    requires 0 < k <= |Eligible(q, car, vipCar)|
    requires MayBoard(q[0], car, vipCar)
    ensures multiset(Unboard(q, car, vipCar, k)) + multiset(Eligible(q, car, vipCar)[..k]) == multiset(q)
    ensures |Unboard(q, car, vipCar, k)| + k == |q|
    decreases |q|, 0
  {
    var e := Eligible(q, car, vipCar);
    var e' := Eligible(q[1..], car, vipCar);
    var u := Unboard(q[1..], car, vipCar, k - 1);
    assert Unboard(q, car, vipCar, k) == u;
    assert multiset(e[..k]) == multiset{q[0]} + multiset(e'[..k - 1]) by {
      assert e[..k] == [q[0]] + e'[..k - 1];
    }
    assert multiset(q) == multiset{q[0]} + multiset(q[1..]) by {
      assert q == [q[0]] + q[1..];
    }
    UnboardConserves(q[1..], car, vipCar, k - 1);
    MultisetCons(q[0], multiset(u), multiset(e'[..k - 1]), multiset(q[1..]));
  }

  /** Adding x to one side of a multiset sum adds it to the total. */
  lemma MultisetCons(x: Passenger, a: multiset<Passenger>, b: multiset<Passenger>, c: multiset<Passenger>)
    requires a + b == c
    ensures a + (multiset{x} + b) == multiset{x} + c
  {
  }

  lemma {:induction false} UnboardConservesSkips(q: seq<Passenger>, car: int, vipCar: Option<int>, k: nat)
    requires 0 < k <= |Eligible(q, car, vipCar)|
    requires !MayBoard(q[0], car, vipCar)
    ensures multiset(Unboard(q, car, vipCar, k)) + multiset(Eligible(q, car, vipCar)[..k]) == multiset(q)
    ensures |Unboard(q, car, vipCar, k)| + k == |q|
    decreases |q|, 0
  {
    var e' := Eligible(q[1..], car, vipCar);
    var u := Unboard(q[1..], car, vipCar, k);
    assert Unboard(q, car, vipCar, k) == [q[0]] + u;
    assert Eligible(q, car, vipCar) == e';
    UnboardConserves(q[1..], car, vipCar, k);
    assert q == [q[0]] + q[1..];
    assert multiset(q) == multiset{q[0]} + multiset(q[1..]);
    assert multiset([q[0]] + u) == multiset{q[0]} + multiset(u);
  }

  /** Boarding only removes: whatever is still queued was queued before. */
  lemma {:induction false} UnboardKeepsOnly(q: seq<Passenger>, car: int, vipCar: Option<int>, k: nat)
    ensures forall p | p in Unboard(q, car, vipCar, k) :: p in q
    decreases |q|
  {
    if q != [] {
      UnboardKeepsOnly(q[1..], car, vipCar, if k > 0 && MayBoard(q[0], car, vipCar) then k - 1 else k);
      assert forall p | p in q[1..] :: p in q;
    }
  }

  /** list.remove applied to q for each of xs in turn (an absent entry is skipped). */
  function RemoveEach(q: seq<Passenger>, xs: seq<Passenger>): seq<Passenger>
  {
    if xs == [] then q
    else
      var rest := RemoveEach(q, xs[..|xs| - 1]);
      if xs[|xs| - 1] in rest then RemoveFirst(rest, xs[|xs| - 1]) else rest
  }

  /**
   * Removing the first k eligible entries one by one with list.remove is
   * Unboard, and the next eligible entry is still there to be removed.
   */
  lemma {:induction false} UnboardIsRemoveEach(q: seq<Passenger>, car: int, vipCar: Option<int>, k: nat)
    requires k <= |Eligible(q, car, vipCar)|
    ensures RemoveEach(q, Eligible(q, car, vipCar)[..k]) == Unboard(q, car, vipCar, k)
    ensures k < |Eligible(q, car, vipCar)| ==> Eligible(q, car, vipCar)[k] in RemoveEach(q, Eligible(q, car, vipCar)[..k])
  {
    if k == 0 {
      UnboardNone(q, car, vipCar);
      assert Eligible(q, car, vipCar)[..k] == [];
    } else {
      UnboardIsRemoveEach(q, car, vipCar, k - 1);
      RemoveNextEligible(q, car, vipCar, k - 1);
    }
    if k < |Eligible(q, car, vipCar)| {
      UnboardStep(q, car, vipCar, k);
    }
  }

  /** One more list.remove, of the next eligible entry, is one more step of Unboard. */
  lemma RemoveNextEligible(q: seq<Passenger>, car: int, vipCar: Option<int>, m: nat)
    requires m < |Eligible(q, car, vipCar)|
    requires RemoveEach(q, Eligible(q, car, vipCar)[..m]) == Unboard(q, car, vipCar, m)
    ensures RemoveEach(q, Eligible(q, car, vipCar)[..m + 1]) == Unboard(q, car, vipCar, m + 1)
  {
    var e := Eligible(q, car, vipCar);
    var rest := RemoveEach(q, e[..m]);
    UnboardStep(q, car, vipCar, m);
    assert e[..m + 1][..m] == e[..m];
    assert e[..m + 1][m] == e[m] && e[m] in rest;
    assert RemoveEach(q, e[..m + 1]) == RemoveFirst(rest, e[m]);
  }

  /** Entries that may not board this car stay in the queue, whatever k is. */
  lemma {:induction false} UnboardKeepsIneligible(q: seq<Passenger>, car: int, vipCar: Option<int>, k: nat, p: Passenger)
    requires p in q && !MayBoard(p, car, vipCar)
    ensures p in Unboard(q, car, vipCar, k)
    decreases |q|
  {
    if q[0] != p {
      UnboardKeepsIneligible(q[1..], car, vipCar, if k > 0 && MayBoard(q[0], car, vipCar) then k - 1 else k, p);
    }
  }

  /** The number of passengers that board: as many eligible ones as there is room for. */
  function BoardCount(alighted: seq<Passenger>, eligible: seq<Passenger>): (k: nat)
    ensures k <= |eligible|
    ensures |alighted| <= MaxCapacity ==> |alighted| + k <= MaxCapacity
    ensures k < |eligible| ==> |alighted| + k >= MaxCapacity
  {
    if |alighted| >= MaxCapacity then 0
    else Min(MaxCapacity - |alighted|, |eligible|)
  }

  /** passenger_board_times after stamping each boarded entry, in order, with now. */
  function StampAll(open: map<PassengerId, int>, ps: seq<Passenger>, now: int): map<PassengerId, int>
  {
    if ps == [] then open
    else StampAll(open, ps[..|ps| - 1], now)[ps[|ps| - 1].id := now]
  }

  /** Boarding one more filtered entry: one more list.remove and one more stamp. */
  lemma BoardNext(src: seq<Passenger>, open: map<PassengerId, int>, filtered: seq<Passenger>, n: nat, now: int)
    requires n < |filtered|
    ensures filtered[..n + 1] == filtered[..n] + [filtered[n]]
    ensures var rest := RemoveEach(src, filtered[..n]);
            RemoveEach(src, filtered[..n + 1]) == if filtered[n] in rest then RemoveFirst(rest, filtered[n]) else rest
    ensures StampAll(open, filtered[..n + 1], now) == StampAll(open, filtered[..n], now)[filtered[n].id := now]
  {
    assert filtered[..n + 1][..n] == filtered[..n];
  }

  /** The queue list.remove leaves behind, once k filtered entries have boarded, is Unboard's. */
  lemma BoardedQueue(src: seq<Passenger>, car: int, vipCar: Option<int>, filtered: seq<Passenger>, k: nat, queue: seq<Passenger>)
    requires filtered == Eligible(src, car, vipCar) && k <= |filtered|
    requires queue == RemoveEach(src, filtered[..k])
    ensures queue == Unboard(src, car, vipCar, k)
  {
    UnboardIsRemoveEach(src, car, vipCar, k);
  }

  /**
   * The boarding loop of handle_passenger_movement: while there is room,
   * each filtered entry in turn is removed from the queue, stamped with the
   * boarding time and added to the manifest.
   */
  method BoardInOrder(manifest: seq<Passenger>, src: seq<Passenger>, filtered: seq<Passenger>, open: map<PassengerId, int>, now: int)
    returns (manifest': seq<Passenger>, queue: seq<Passenger>, open': map<PassengerId, int>)
    requires forall key | key in open :: open[key] <= now
    ensures var k := BoardCount(manifest, filtered);
            && manifest' == manifest + filtered[..k]
            && queue == RemoveEach(src, filtered[..k])
            && open' == StampAll(open, filtered[..k], now)
    ensures forall key | key in open' :: open'[key] <= now
  {
    ghost var k := BoardCount(manifest, filtered);
    manifest' := manifest;
    queue := src;
    open' := open;
    var n := 0;
    assert filtered[..n] == [];
    while n < |filtered| && |manifest'| < MaxCapacity
      invariant 0 <= n <= k
      invariant manifest' == manifest + filtered[..n]
      invariant queue == RemoveEach(src, filtered[..n])
      invariant open' == StampAll(open, filtered[..n], now)
      invariant forall key | key in open' :: open'[key] <= now
      decreases |filtered| - n
    {
      var p := filtered[n];
      BoardNext(src, open, filtered, n, now);
      if p in queue {
        queue := RemoveFirst(queue, p);
      }
      open' := open'[p.id := now];
      manifest' := manifest' + [p];
      n := n + 1;
    }
    assert n == k;
  }

  /**
   * Every boarded id is stamped with the boarding time; every other entry
   * keeps its time, and no entry is dropped.
   */
  lemma {:induction false} StampAllStamps(open: map<PassengerId, int>, ps: seq<Passenger>, now: int)
    ensures forall p | p in ps :: p.id in StampAll(open, ps, now) && StampAll(open, ps, now)[p.id] == now
    ensures forall k | k in StampAll(open, ps, now) :: (k in open && StampAll(open, ps, now)[k] == open[k]) || StampAll(open, ps, now)[k] == now
    ensures forall k | k in open :: k in StampAll(open, ps, now)
    ensures forall k | k in open && (forall p | p in ps :: p.id != k) :: StampAll(open, ps, now)[k] == open[k]
  {
    if ps != [] {
      StampAllStamps(open, ps[..|ps| - 1], now);
      assert forall p | p in ps[..|ps| - 1] :: p in ps;
      assert forall p | p in ps :: p in ps[..|ps| - 1] || p == ps[|ps| - 1];
    }
  }

  /**
   * One stop of a car at floor f, on values: the manifest after alighting,
   * the pickup queue, the entries allowed to board and how many of them do.
   */
  datatype Stop = Stop(alighted: seq<Passenger>, dir: Direction, eligible: seq<Passenger>, boarded: nat)

  function PlanStop(manifest: seq<Passenger>, q: FloorQueue, f: int, car: int, vipCar: Option<int>): (s: Stop)
    ensures s.boarded <= |s.eligible|
  {
    var a := Alight(manifest, f);
    var d := PickupDirection(q);
    var e := Eligible(q.Get(d), car, vipCar);
    Stop(a, d, e, BoardCount(a, e))
  }

  /** The entries that board during the stop, in boarding order. */
  function BoardedAt(manifest: seq<Passenger>, q: FloorQueue, f: int, car: int, vipCar: Option<int>): seq<Passenger>
  {
    var s := PlanStop(manifest, q, f, car, vipCar);
    s.eligible[..s.boarded]
  }

  /** The car's manifest after the stop: the survivors, then the boarded entries. */
  function ManifestAfter(manifest: seq<Passenger>, q: FloorQueue, f: int, car: int, vipCar: Option<int>): seq<Passenger>
  {
    Alight(manifest, f) + BoardedAt(manifest, q, f, car, vipCar)
  }

  /** The floor's queues after the stop: the boarded entries leave the pickup queue. */
  function QueueAfter(manifest: seq<Passenger>, q: FloorQueue, f: int, car: int, vipCar: Option<int>): FloorQueue
  {
    var s := PlanStop(manifest, q, f, car, vipCar);
    q.Put(s.dir, Unboard(q.Get(s.dir), car, vipCar, s.boarded))
  }

  /**
   * What a stop guarantees: nobody who was aboard and bound for f stays
   * aboard after alighting (a passenger boarding at f for f does stay);
   * the car never exceeds capacity and stops boarding only when full or when
   * no eligible entry is left; it boards from 'up' whenever 'up' is
   * non-empty; every boarded entry came from the pickup queue and may ride
   * this car; boarding moves entries from the queue to the car without
   * losing or duplicating any; and entries barred from this car stay queued.
   */
  lemma StopProperties(manifest: seq<Passenger>, q: FloorQueue, f: int, car: int, vipCar: Option<int>)
    requires |manifest| <= MaxCapacity
    ensures var s := PlanStop(manifest, q, f, car, vipCar);
      && (forall p | p in s.alighted :: p.dest != f)
      && |s.alighted + s.eligible[..s.boarded]| <= MaxCapacity
      && (s.boarded < |s.eligible| ==> |s.alighted| + s.boarded == MaxCapacity)
      && (s.dir == Up <==> q.up != [])
      && (forall p | p in s.eligible[..s.boarded] :: p in q.Get(s.dir) && MayBoard(p, car, vipCar))
      && multiset(Unboard(q.Get(s.dir), car, vipCar, s.boarded)) + multiset(s.eligible[..s.boarded]) == multiset(q.Get(s.dir))
      && (forall p | p in q.Get(s.dir) && !MayBoard(p, car, vipCar) :: p in Unboard(q.Get(s.dir), car, vipCar, s.boarded))
  {
    var s := PlanStop(manifest, q, f, car, vipCar);
    var src := q.Get(s.dir);
    AlightSplits(manifest, f);
    AlightConserves(manifest, f);
    EligibleMembers(src, car, vipCar);
    UnboardConserves(src, car, vipCar, s.boarded);
    forall p | p in src && !MayBoard(p, car, vipCar)
      ensures p in Unboard(src, car, vipCar, s.boarded)
    {
      UnboardKeepsIneligible(src, car, vipCar, s.boarded, p);
    }
    assert forall p | p in s.eligible[..s.boarded] :: p in s.eligible;
  }
}
