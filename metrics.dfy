/**
 * Per-passenger timing ledgers: an open entry (boarding time, or request
 * time in the earlier engine) per key, closed at most once into a sample.
 * track_service_time in both engines and track_wait_time in ENV.py all pop
 * the open entry and append now - entry.
 */
module Metrics {
  import opened Common

  datatype Ledger = Ledger(open: map<PassengerId, int>, samples: seq<int>)

  /** The keys listed, as a set. */
  function KeySet(keys: seq<PassengerId>): (r: set<PassengerId>)
    ensures forall k :: k in r <==> k in keys
  {
    if keys == [] then {} else KeySet(keys[..|keys| - 1]) + {keys[|keys| - 1]}
  }

  /** Close the entry for key, if one is open: pop it and append its sample. */
  function Close(l: Ledger, key: PassengerId, now: int): (r: Ledger)
    ensures key !in r.open
    ensures r.open == l.open - {key}
    ensures key in l.open ==> r.samples == l.samples + [now - l.open[key]]
    ensures key !in l.open ==> r.samples == l.samples
  {
    if key in l.open then Ledger(l.open - {key}, l.samples + [now - l.open[key]])
    else l
  }

  /** Close the entries for keys in order (the loop over the exiting passengers). */
  function CloseAll(l: Ledger, keys: seq<PassengerId>, now: int): Ledger
  {
    if keys == [] then l
    else Close(CloseAll(l, keys[..|keys| - 1], now), keys[|keys| - 1], now)
  }

  /** Closing a list of keys removes exactly their open entries. */
  lemma {:induction false} CloseAllRemoves(l: Ledger, keys: seq<PassengerId>, now: int)
    ensures CloseAll(l, keys, now).open == l.open - KeySet(keys)
  {
    if keys != [] {
      var init := keys[..|keys| - 1];
      CloseAllRemoves(l, init, now);
    }
  }

  /** One more key adds one to the count of open keys met iff it is still open. */
  lemma CountStep(keys: set<PassengerId>, seen: set<PassengerId>, key: PassengerId)
    ensures key in keys && key !in seen ==> |keys * (seen + {key})| == |keys * seen| + 1
    ensures !(key in keys && key !in seen) ==> |keys * (seen + {key})| == |keys * seen|
  {
    if key in keys && key !in seen {
      assert keys * (seen + {key}) == (keys * seen) + {key};
    } else {
      assert keys * (seen + {key}) == keys * seen;
    }
  }

  /** Closing keeps the samples already recorded, in order. */
  lemma {:induction false} CloseAllKeepsSamples(l: Ledger, keys: seq<PassengerId>, now: int)
    ensures |l.samples| <= |CloseAll(l, keys, now).samples|
    ensures CloseAll(l, keys, now).samples[..|l.samples|] == l.samples
  {
    if keys != [] {
      var m := CloseAll(l, keys[..|keys| - 1], now);
      CloseAllKeepsSamples(l, keys[..|keys| - 1], now);
      var r := CloseAll(l, keys, now);
      assert r.samples[..|m.samples|] == m.samples;
      assert r.samples[..|l.samples|] == m.samples[..|l.samples|];
    }
  }

  /**
   * At-most-once pairing: closing a list of keys appends exactly one sample
   * per entry that was open, however often a key repeats.
   */
  lemma {:induction false} CloseAllPairs(l: Ledger, keys: seq<PassengerId>, now: int)
    ensures |CloseAll(l, keys, now).samples| == |l.samples| + |l.open.Keys * KeySet(keys)|
  {
    if keys != [] {
      var init := keys[..|keys| - 1];
      var key := keys[|keys| - 1];
      var m := CloseAll(l, init, now);
      var r := CloseAll(l, keys, now);
      var keysOpen := l.open.Keys;
      var seen := KeySet(init);
      CloseAllPairs(l, init, now);
      CloseAllRemoves(l, init, now);
      assert r == Close(m, key, now);
      CountStep(keysOpen, seen, key);
      if key in m.open {
        assert key in keysOpen && key !in seen;
        assert |r.samples| == |m.samples| + 1;
      } else {
        assert !(key in keysOpen && key !in seen);
        assert |r.samples| == |m.samples|;
      }
    }
  }

  /** When no open entry lies in the future, every sample closing adds is non-negative. */
  lemma {:induction false} CloseAllNonNegative(l: Ledger, keys: seq<PassengerId>, now: int)
    requires forall k | k in l.open :: l.open[k] <= now
    ensures forall j | |l.samples| <= j < |CloseAll(l, keys, now).samples| :: CloseAll(l, keys, now).samples[j] >= 0
  {
    if keys != [] {
      var init := keys[..|keys| - 1];
      CloseAllNonNegative(l, init, now);
      CloseAllRemoves(l, init, now);
    }
  }
}
