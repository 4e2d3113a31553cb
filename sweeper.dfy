/** The two-phase sweep of main.go: collect the keys of the entries that are stale
    at `now`, then delete exactly those keys. One pass of the background loop is
    method Sweep; the loop itself, its timer and its lock are not modelled. */
module Sweeper {
  import opened Items
  import Caman

  /** The keys whose entries are stale at `now`. */
  function ExpiredKeys(m: Items, now: int): set<string>
  {
    set k | k in m && IsExpired(m[k], now)
  }

  /** The table after one sweep at `now`. */
  function AfterSweep(m: Items, now: int): Items
  {
    m - ExpiredKeys(m, now)
  }

  /** The elements of a list of keys, as a set. */
  function KeySet(keys: seq<string>): set<string>
  {
    set k | k in keys
  }

  /** The scan phase: each stale key once, in whatever order the table yields them. */
  method CollectExpired(c: Caman.Cache, now: int) returns (keys: seq<string>)
    ensures forall i, j :: 0 <= i < j < |keys| ==> keys[i] != keys[j]
    ensures KeySet(keys) == ExpiredKeys(c.items, now)
  {
    keys := [];
    var unseen := c.items.Keys;
    while unseen != {}
      invariant unseen <= c.items.Keys
      invariant forall i, j :: 0 <= i < j < |keys| ==> keys[i] != keys[j]
      invariant forall k :: k in keys <==> k in ExpiredKeys(c.items, now) && k !in unseen
      decreases unseen
    {
      var k :| k in unseen;
      var it := c.items[k];
      if now > it.expiration && it.expiration > 0 {
        keys := keys + [k];
      }
      unseen := unseen - {k};
    }
  }

  /** The delete phase: removes each listed key that is present; absent keys are
      ignored, and no other entry changes. */
  method ClearItems(c: Caman.Cache, keys: seq<string>)
    modifies c`items
    ensures c.items == old(c.items) - KeySet(keys)
  {
    for i := 0 to |keys|
      invariant c.items == old(c.items) - KeySet(keys[..i])
    {
      assert KeySet(keys[..i + 1]) == KeySet(keys[..i]) + {keys[i]} by {
        assert keys[..i + 1] == keys[..i] + [keys[i]];
      }
      c.items := c.items - {keys[i]};
    }
    assert keys[..|keys|] == keys;
  }

  /** One pass of the background sweeper: scan, then delete what was found. */
  method Sweep(c: Caman.Cache, now: int)
    modifies c`items
    ensures c.items == AfterSweep(old(c.items), now)
  {
    var keys := CollectExpired(c, now);
    if |keys| != 0 {
      ClearItems(c, keys);
    }
  }

  /** A sweep keeps every live entry (in particular every entry that never
      expires) exactly as it was, and removes every stale one. */
  lemma {:induction false} SweepRemovesExactlyStale(m: Items, now: int, k: string)
    ensures k in AfterSweep(m, now) <==> k in m && !IsExpired(m[k], now)
    ensures k in AfterSweep(m, now) ==> AfterSweep(m, now)[k] == m[k]
  {
  }

  /** A sweep never removes an entry whose expiration is 0. */
  lemma SweepSparesNeverExpiring(m: Items, now: int)
    ensures forall k :: k in m && m[k].expiration == 0 ==> k in AfterSweep(m, now) && AfterSweep(m, now)[k] == m[k]
  {
  }

  /** After a sweep at `now`, nothing left is stale at `now`. */
  lemma SweepLeavesNothingStale(m: Items, now: int)
    ensures forall k :: k in AfterSweep(m, now) ==> !IsExpired(AfterSweep(m, now)[k], now)
  {
  }

  /** A sweep of a table with nothing stale changes nothing. */
  lemma SweepOfFreshTableIsIdentity(m: Items, now: int)
    requires forall k :: k in m ==> !IsExpired(m[k], now)
    ensures AfterSweep(m, now) == m
  {
    assert ExpiredKeys(m, now) == {};
  }

  /** Sweeping twice at the same time is sweeping once. */
  lemma SweepIsIdempotent(m: Items, now: int)
    ensures AfterSweep(AfterSweep(m, now), now) == AfterSweep(m, now)
  {
    SweepLeavesNothingStale(m, now);
    SweepOfFreshTableIsIdentity(AfterSweep(m, now), now);
  }

  /** The sweep is invisible to reads: a read at any time not before the sweep
      reports the same with or without it, because a stale entry stays stale. */
  lemma SweepIsInvisibleToGet(m: Items, now: int, later: int, key: string)
    requires now <= later
    ensures Lookup(AfterSweep(m, now), key, later) == Lookup(m, key, later)
  {
  }

  /** The count after a sweep drops by exactly the number of stale entries. */
  lemma SweepCount(m: Items, now: int)
    ensures |AfterSweep(m, now)| == |m| - |ExpiredKeys(m, now)|
  {
    var gone := ExpiredKeys(m, now);
    assert AfterSweep(m, now).Keys == m.Keys - gone;
    assert gone <= m.Keys;
    assert |m.Keys - gone| == |m.Keys| - |gone| by {
      assert m.Keys == (m.Keys - gone) + gone;
    }
  }

  /** The scan as main.go writes it: the current time in whole seconds
      (`time.Now().Unix()`) against expiry times in nanoseconds. */
  function ExpiredKeysAsWritten(m: Items, nowNanos: int): set<string>
  {
    set k | k in m && nowNanos / 1_000_000_000 > m[k].expiration && m[k].expiration > 0
  }

  /** An entry written with a 10 ms lifetime at a present-day time and read 20 ms
      later is stale, yet the scan as written does not collect it: counted in
      seconds, the clock is about nine orders of magnitude behind every expiry. */
  lemma AsWrittenScanMissesStaleEntry()
    ensures var written := 1_700_000_000_000_000_000;
            var m := map["b" := Item(IntVal(1), written, written + 10_000_000)];
            "b" in ExpiredKeys(m, written + 20_000_000)
            && "b" !in ExpiredKeysAsWritten(m, written + 20_000_000)
  {
    var written := 1_700_000_000_000_000_000;
    var now := written + 20_000_000;
    assert now == 1_700_000_000 * 1_000_000_000 + 20_000_000;
    assert now / 1_000_000_000 == 1_700_000_000;
  }

  /** With the clock past the epoch, the scan as written never collects a live
      entry: its set is always within the stale set. */
  lemma AsWrittenScanIsNeverEarly(m: Items, nowNanos: int)
    requires nowNanos >= 0
    ensures ExpiredKeysAsWritten(m, nowNanos) <= ExpiredKeys(m, nowNanos)
  {
    assert nowNanos / 1_000_000_000 <= nowNanos;
  }

  /** A client of the sweep: an entry written with a 10 ms lifetime is missed by a
      read 20 ms later even before any sweep, and a sweep at that time removes it. */
  method ExpiryScenario(now: int)
    requires now >= 0
  {
    var c := new Caman.Cache.New(0, 5_000_000);
    c.Set("b", IntVal(1), 10_000_000, now);
    var v, found := c.Get("b", now);
    assert found && v == IntVal(1);
    v, found := c.Get("b", now + 20_000_000);
    assert !found;
    var before := c.Count();
    assert before == 1;
    ghost var written := c.items;
    assert "b" in ExpiredKeys(written, now + 20_000_000);
    Sweep(c, now + 20_000_000);
    var after := c.Count();
    assert after == 0;
  }
}
