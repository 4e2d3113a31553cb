/** What the store's operations promise when combined: reads after writes, the
    effect of the default duration, Increment and Decrement undoing each other,
    and reads after Rename, Copy, Delete and FlushAll. */
module CacheProperties {
  import opened Items
  import opened Caman

  /** A write is visible to a read at the same time, whatever the duration, and
      reads of every other key are unaffected at any time. */
  lemma SetThenGet(m: Items, key: string, value: Value, duration: int, defaultExpiration: int, now: int, other: string, t: int)
    ensures Lookup(AfterSet(m, key, value, duration, defaultExpiration, now), key, now) == (value, true)
    ensures other != key ==> Lookup(AfterSet(m, key, value, duration, defaultExpiration, now), other, t) == Lookup(m, other, t)
  {
  }

  /** For a write at a time past the epoch, a later read finds the entry exactly
      when the effective duration is not positive or has not yet run out. */
  lemma SetLifetime(m: Items, key: string, value: Value, duration: int, defaultExpiration: int, now: int, later: int)
    requires 0 <= now <= later
    ensures var d := EffectiveDuration(duration, defaultExpiration);
            Lookup(AfterSet(m, key, value, duration, defaultExpiration, now), key, later).1
            <==> d <= 0 || later <= now + d
  {
  }

  /** A duration of 0 is the same as passing the default duration explicitly. */
  lemma ZeroDurationIsDefault(m: Items, key: string, value: Value, defaultExpiration: int, now: int)
    ensures AfterSet(m, key, value, 0, defaultExpiration, now) == AfterSet(m, key, value, defaultExpiration, defaultExpiration, now)
  {
  }

  /** With no duration and no default, the entry never expires. */
  lemma NoDurationNeverExpires(m: Items, key: string, value: Value, now: int, later: int)
    ensures AfterSet(m, key, value, 0, 0, now)[key].expiration == 0
    ensures Lookup(AfterSet(m, key, value, 0, 0, now), key, later) == (value, true)
  {
  }

  /** A written value is found by Exist. */
  lemma SetThenExist(m: Items, key: string, value: Value, duration: int, defaultExpiration: int, now: int)
    ensures HasValue(AfterSet(m, key, value, duration, defaultExpiration, now), value)
  {
    var r := AfterSet(m, key, value, duration, defaultExpiration, now);
    assert key in r && r[key].value == value;
  }

  /** After a Delete the key reads as missing, and the other keys read as before. */
  lemma DeleteThenGet(m: Items, key: string, other: string, t: int)
    requires key in m
    ensures Lookup(AfterDelete(m, key), key, t) == (Nil, false)
    ensures other != key ==> Lookup(AfterDelete(m, key), other, t) == Lookup(m, other, t)
  {
  }

  /** After a Rename the new key reads as the old one did, at any time; the old
      key reads as missing unless both are the same; every other key reads as before. */
  lemma RenameThenGet(m: Items, oldKey: string, newKey: string, other: string, t: int)
    requires oldKey in m
    ensures Lookup(AfterRename(m, oldKey, newKey), newKey, t) == Lookup(m, oldKey, t)
    ensures oldKey != newKey ==> Lookup(AfterRename(m, oldKey, newKey), oldKey, t) == (Nil, false)
    ensures other != oldKey && other != newKey ==> Lookup(AfterRename(m, oldKey, newKey), other, t) == Lookup(m, other, t)
  {
  }

  /** Renaming a key to itself changes nothing. */
  lemma RenameToSelf(m: Items, key: string)
    requires key in m
    ensures AfterRename(m, key, key) == m
  {
    var r := AfterRename(m, key, key);
    assert r.Keys == m.Keys;
  }

  /** After a Copy the copy reads as the source does, at any time (same value,
      same expiry), and the source still reads as before. */
  lemma CopyThenGet(m: Items, key: string, now: int, t: int)
    requires key in m
    ensures Lookup(AfterCopy(m, key, now), CopyKey(key), t) == Lookup(m, key, t)
    ensures Lookup(AfterCopy(m, key, now), key, t) == Lookup(m, key, t)
  {
  }

  /** Increment keeps the entry's expiry, so it changes no read's found flag. */
  lemma IncrementKeepsLifetime(m: Items, key: string, delta: int, now: int, t: int)
    requires IncrementOutcome(m, key) == Pass
    ensures Lookup(AfterIncrement(m, key, delta, now), key, t).1 == Lookup(m, key, t).1
  {
  }

  /** Increment by `delta` then Decrement by `delta` restores the value and the
      expiry; only the creation time is the one of the second write. */
  lemma IncrementThenDecrement(m: Items, key: string, delta: int, t1: int, t2: int)
    requires IncrementOutcome(m, key) == Pass
    ensures IncrementOutcome(AfterIncrement(m, key, delta, t1), key) == Pass
    ensures AfterIncrement(AfterIncrement(m, key, delta, t1), key, -delta, t2) == m[key := m[key].(created := t2)]
  {
    var m1 := AfterIncrement(m, key, delta, t1);
    var m2 := AfterIncrement(m1, key, -delta, t2);
    assert m2[key] == m[key].(created := t2);
  }

  /** An empty table holds nothing: every read misses and Exist finds nothing. */
  lemma FlushedTableHoldsNothing(key: string, v: Value, t: int)
    ensures Lookup(map[], key, t) == (Nil, false)
    ensures !HasValue(map[], v)
  {
  }

  /** A client of the class: New(0, 0); Set("a", 5, 0); Increment("a", 3) gives 8;
      Get("a") gives (8, true); Delete("a") succeeds; Get("a") misses; a second
      Delete("a") reports KeyNotFound. */
  method IncrementDeleteScenario(t0: int, t1: int, t2: int)
  {
    var c := new Cache.New(0, 0);
    c.Set("a", IntVal(5), 0, t0);
    var n, err := c.Increment("a", 3, t1);
    assert err == Pass && n == 8;
    var v, found := c.Get("a", t2);
    assert found && v == IntVal(8);
    var e1 := c.Delete("a");
    assert e1 == Pass;
    v, found := c.Get("a", t2);
    assert !found && v == Nil;
    var e2 := c.Delete("a");
    assert e2 == Fail(KeyNotFound);
    var count := c.Count();
    assert count == 0;
  }
}
