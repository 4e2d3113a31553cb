/** The store of caman.go: a table of entries with per-entry expiry, and the
    operations on it. Each state-changing operation is a method of class Cache whose
    postcondition gives the new table as a function of the old one; those functions
    say, in their own postconditions, which entries change and how the count moves. */
module Caman {
  import opened Items

  /** The suffix Copy appends to a key to name the copy. */
  const CopySuffix: string := "_copy"

  /** An explicit duration of 0 stands for the store's default. */
  function EffectiveDuration(duration: int, defaultExpiration: int): int
  {
    if duration == 0 then defaultExpiration else duration
  }

  /** The expiry time a write at `now` records: `now` plus the effective duration
      when that is positive, and 0 ("never") otherwise. */
  function ExpirationFor(duration: int, defaultExpiration: int, now: int): int
  {
    var d := EffectiveDuration(duration, defaultExpiration);
    if d > 0 then now + d else 0
  }

  /** The table after writing `value` under `key` at time `now`. */
  function AfterSet(m: Items, key: string, value: Value, duration: int, defaultExpiration: int, now: int): (r: Items)
    ensures key in r && r[key] == Item(value, now, ExpirationFor(duration, defaultExpiration, now))
    ensures AgreeOutside(m, r, {key})
    ensures |r| == if key in m then |m| else |m| + 1
  {
    m[key := Item(value, now, ExpirationFor(duration, defaultExpiration, now))]
  }

  /** The table after removing a present key. */
  function AfterDelete(m: Items, key: string): (r: Items)
    requires key in m
    ensures key !in r
    ensures AgreeOutside(m, r, {key})
    ensures |r| == |m| - 1
  {
    m - {key}
  }

  /** The table after moving the entry of a present `oldKey` to `newKey`. */
  function AfterRename(m: Items, oldKey: string, newKey: string): (r: Items)
    requires oldKey in m
    ensures newKey in r && r[newKey] == m[oldKey]
    ensures oldKey in r <==> oldKey == newKey
    ensures AgreeOutside(m, r, {oldKey, newKey})
    ensures |r| == if newKey in m && newKey != oldKey then |m| - 1 else |m|
  {
    (m - {oldKey})[newKey := m[oldKey]]
  }

  /** The key a copy of `key` is stored under; never `key` itself. */
  function CopyKey(key: string): (c: string)
    ensures |c| == |key| + |CopySuffix| && c[..|key|] == key && c != key
  {
    key + CopySuffix
  }

  /** The table after copying the entry of a present `key` at time `now`: the copy
      has the source's value and expiry and a fresh creation time. */
  function AfterCopy(m: Items, key: string, now: int): (r: Items)
    requires key in m
    ensures CopyKey(key) in r && r[CopyKey(key)] == Item(m[key].value, now, m[key].expiration)
    ensures key in r && r[key] == m[key]
    ensures AgreeOutside(m, r, {CopyKey(key)})
    ensures |r| == if CopyKey(key) in m then |m| else |m| + 1
  {
    m[CopyKey(key) := Item(m[key].value, now, m[key].expiration)]
  }

  /** The error Increment reports for `key`, if any. */
  function IncrementOutcome(m: Items, key: string): (o: Outcome)
    ensures o == Pass <==> key in m && m[key].value.IntVal?
    ensures o == Fail(KeyNotFound) <==> key !in m
  {
    if key !in m then Fail(KeyNotFound)
    else if !m[key].value.IntVal? then Fail(NotAnInteger)
    else Pass
  }

  /** The table after adding `delta` to the integer held under `key` at time `now`;
      the expiry is kept and the creation time refreshed. */
  function AfterIncrement(m: Items, key: string, delta: int, now: int): (r: Items)
    requires IncrementOutcome(m, key) == Pass
    ensures key in r && r[key] == Item(IntVal(m[key].value.n + delta), now, m[key].expiration)
    ensures AgreeOutside(m, r, {key})
    ensures |r| == |m|
  {
    m[key := Item(IntVal(m[key].value.n + delta), now, m[key].expiration)]
  }

  /** The store. The lock that guards it and the background sweeper it may start
      are not part of this model; the current time is an argument of each operation. */
  class Cache {
    var items: Items
    var defaultExpiration: int
    var cleanupInterval: int

    /** An empty store with the given default duration and sweep interval. */
    constructor New(defaultExpiration: int, cleanupInterval: int)
      ensures items == map[]
      ensures this.defaultExpiration == defaultExpiration
      ensures this.cleanupInterval == cleanupInterval
    {
      items := map[];
      this.defaultExpiration := defaultExpiration;
      this.cleanupInterval := cleanupInterval;
    }

    /** Writes `value` under `key`, replacing any entry there. */
    method Set(key: string, value: Value, duration: int, now: int)
      modifies this`items
      ensures items == AfterSet(old(items), key, value, duration, defaultExpiration, now)
    {
      var d := duration;
      if d == 0 {
        d := defaultExpiration;
      }
      var expiration := 0;
      if d > 0 {
        expiration := now + d;
      }
      items := items[key := Item(value, now, expiration)];
    }

    /** Reads `key` at time `now`, without removing a stale entry. */
    method Get(key: string, now: int) returns (value: Value, found: bool)
      ensures found <==> key in items && !IsExpired(items[key], now)
      ensures value == if found then items[key].value else Nil
      ensures (value, found) == Lookup(items, key, now)
    {
      if key !in items {
        return Nil, false;
      }
      var item := items[key];
      if item.expiration > 0 {
        if now > item.expiration {
          return Nil, false;
        }
      }
      return item.value, true;
    }

    /** Removes `key`; an absent key is an error and changes nothing. */
    method Delete(key: string) returns (err: Outcome)
      modifies this`items
      ensures err == if key in old(items) then Pass else Fail(KeyNotFound)
      ensures items == if key in old(items) then AfterDelete(old(items), key) else old(items)
    {
      if key !in items {
        return Fail(KeyNotFound);
      }
      items := items - {key};
      return Pass;
    }

    /** The number of entries, stale ones included. */
    method Count() returns (n: nat)
      ensures n == |items|
    {
      n := |items|;
    }

    /** Moves the entry of `oldKey` to `newKey`, overwriting what was there; an
        absent `oldKey` is an error and changes nothing. */
    method Rename(oldKey: string, newKey: string) returns (err: Outcome)
      modifies this`items
      ensures err == if oldKey in old(items) then Pass else Fail(KeyNotFound)
      ensures items == if oldKey in old(items) then AfterRename(old(items), oldKey, newKey) else old(items)
    {
      if oldKey !in items {
        return Fail(KeyNotFound);
      }
      var item := items[oldKey];
      items := items - {oldKey};
      items := items[newKey := item];
      return Pass;
    }

    /** Removes every entry, one key at a time. */
    method FlushAll()
      modifies this`items
      ensures items == map[]
    {
      var keys := items.Keys;
      while keys != {}
        invariant items.Keys == keys
        decreases keys
      {
        var k :| k in keys;
        items := items - {k};
        keys := keys - {k};
      }
    }

    /** Whether some entry, stale or not, holds `value`; scans the entries and stops
        at the first match. */
    method Exist(value: Value) returns (found: bool)
      ensures found <==> HasValue(items, value)
    {
      var unseen := items.Keys;
      while unseen != {}
        invariant unseen <= items.Keys
        invariant forall k :: k in items && k !in unseen ==> items[k].value != value
        decreases unseen
      {
        var k :| k in unseen;
        if items[k].value == value {
          return true;
        }
        unseen := unseen - {k};
      }
      return false;
    }

    /** Copies the entry of `key` to `key + "_copy"`, overwriting what was there;
        an absent `key` is an error and changes nothing. */
    method Copy(key: string, now: int) returns (err: Outcome)
      modifies this`items
      ensures err == if key in old(items) then Pass else Fail(KeyNotFound)
      ensures items == if key in old(items) then AfterCopy(old(items), key, now) else old(items)
    {
      if key !in items {
        return Fail(KeyNotFound);
      }
      var item := items[key];
      var newKey := key + CopySuffix;
      items := items[newKey := Item(item.value, now, item.expiration)];
      return Pass;
    }

    /** Adds `delta` to the integer under `key` and returns the sum; an absent key
        or a non-integer value is an error, returns 0 and changes nothing. */
    method Increment(key: string, delta: int, now: int) returns (n: int, err: Outcome)
      modifies this`items
      ensures err == IncrementOutcome(old(items), key)
      ensures err == Pass ==> n == old(items)[key].value.n + delta
      ensures err == Pass ==> items == AfterIncrement(old(items), key, delta, now)
      ensures err != Pass ==> n == 0 && items == old(items)
    {
      if key !in items {
        return 0, Fail(KeyNotFound);
      }
      var item := items[key];
      if item.value.IntVal? {
        var newValue := item.value.n + delta;
        items := items[key := Item(IntVal(newValue), now, item.expiration)];
        return newValue, Pass;
      }
      return 0, Fail(NotAnInteger);
    }

    /** Increment by `-delta`. */
    method Decrement(key: string, delta: int, now: int) returns (n: int, err: Outcome)
      modifies this`items
      ensures err == IncrementOutcome(old(items), key)
      ensures err == Pass ==> n == old(items)[key].value.n - delta
      ensures err == Pass ==> items == AfterIncrement(old(items), key, -delta, now)
      ensures err != Pass ==> n == 0 && items == old(items)
    {
      n, err := Increment(key, -delta, now);
    }

    /** Whether a read of `key` at time `now` would miss. */
    method Expire(key: string, now: int) returns (expired: bool)
      ensures expired <==> key !in items || IsExpired(items[key], now)
      ensures expired == !Lookup(items, key, now).1
    {
      if key !in items {
        return true;
      }
      var item := items[key];
      if item.expiration > 0 {
        if now > item.expiration {
          return true;
        }
      }
      return false;
    }
  }
}
