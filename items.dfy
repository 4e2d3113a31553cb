/** What a cache entry is, and when a read treats it as gone.
    Shared by the store operations (module Caman) and the sweeper (module Sweeper). */
module Items {

  /** The payload of an entry. The store keeps an untyped value; this closes it over
      the kinds the operations tell apart: the nil value, a machine integer (the only
      kind Increment accepts), a string, and any other payload, identified by an
      opaque number so that equality between payloads stays structural. */
  datatype Value = Nil | IntVal(n: int) | StrVal(s: string) | Other(id: nat)

  /** One entry: its value, the time it was last written and its absolute expiry
      time, both in nanoseconds since the epoch. An expiration of 0 (or less) means
      the entry never expires. */
  datatype Item = Item(value: Value, created: int, expiration: int)

  /** The store's table: key to entry, unordered, one entry per key. */
  type Items = map<string, Item>

  /** The two errors the store reports: "Key not found" and "Value is not an integer". */
  datatype CacheError = KeyNotFound | NotAnInteger

  /** The error result of an operation: nil (Pass) or one of the errors above. */
  datatype Outcome = Pass | Fail(error: CacheError)

  /** An entry is stale at `now` when it has an expiry time and `now` is past it. */
  predicate IsExpired(it: Item, now: int)
  {
    it.expiration > 0 && now > it.expiration
  }

  /** What a read of `key` at time `now` reports: the value and true for a live
      entry; nil and false for a missing or stale one (the stale entry stays). */
  function Lookup(m: Items, key: string, now: int): (Value, bool)
  {
    if key !in m then (Nil, false)
    else if IsExpired(m[key], now) then (Nil, false)
    else (m[key].value, true)
  }

  /** Some entry, stale or not, holds exactly `v`. */
  predicate HasValue(m: Items, v: Value)
  {
    exists k :: k in m && m[k].value == v
  }

  /** `r` and `m` have the same keys and the same entries outside `ks`. */
  ghost predicate AgreeOutside(m: Items, r: Items, ks: set<string>)
  {
    forall k :: k !in ks ==> (k in r <==> k in m) && (k in m ==> r[k] == m[k])
  }
}
