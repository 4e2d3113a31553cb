# cache-manager-go, modelled in Dafny

`caman` is an in-process key/value cache with per-entry expiry. A `Cache` holds a
table from string keys to entries; each entry carries a value, the time it was
written and an absolute expiry time in nanoseconds, where 0 means "never". Reads
treat a stale entry as missing without removing it (lazy expiry). A background
sweeper periodically collects the keys of stale entries and then deletes exactly
those keys (two-phase sweep).

This project models that store:

- `items.dfy` (module `Items`): the entry and value types, the error kinds, when an
  entry is stale (`IsExpired`: expiry positive and `now` past it), and what a read
  reports (`Lookup`).
- `caman.dfy` (module `Caman`): class `Cache` with the table as a `map` field and
  one method per operation of `caman.go` (`New`, `Set`, `Get`, `Delete`, `Count`,
  `Rename`, `FlushAll`, `Exist`, `Copy`, `Increment`, `Decrement`, `Expire`). Each
  state-changing method's postcondition gives the new table as a function of the
  old one (`AfterSet`, `AfterDelete`, `AfterRename`, `AfterCopy`, `AfterIncrement`).
  Those functions state in their own postconditions which entry changes, that
  every other entry stays the same, and how the count moves. `FlushAll` and
  `Exist` are loops over the keys, with invariants.
- `sweeper.dfy` (module `Sweeper`): the sweep of `main.go`. `CollectExpired` is the
  scan loop, `ClearItems` the delete loop, and `Sweep` is one pass of the background
  loop. The lemmas say a sweep removes exactly the stale entries, never touches an
  entry that never expires, is idempotent, cannot be seen by reads, and lowers the
  count by the number of stale entries. It also holds the finding below.
- `properties.dfy` (module `CacheProperties`): lemmas about combined operations.
  These cover Set then Get, the default duration, Increment then Decrement,
  Rename, Copy, Delete and FlushAll followed by reads. A client method walks through
  the scenario `New(0,0)`, `Set("a",5,0)`, `Increment("a",3)`, `Get`, `Delete`,
  `Get`, `Delete` using only the class's contracts.

Modelling decisions:

- The current time is a parameter `now` (nanoseconds) of every operation that reads
  the clock. `Set` uses the same `now` for the expiry and the creation time.
- The untyped value becomes `Value = Nil | IntVal(int) | StrVal(string) | Other(id)`.
  `Nil` is the nil value that `Get` returns on a miss (a caller can also store it).
  `IntVal` is the Go `int` that Increment's type assertion accepts. Equality of
  values is structural.
- Errors are `Outcome = Pass | Fail(KeyNotFound | NotAnInteger)`, standing for the
  nil error and the two error strings "Key not found" and "Value is not an integer".
- `main.go` repeats `Cache`, `Item`, `New`, `Set`, `Get` and `Delete` word for word
  (main.go:13-99), so the package as written does not compile. One definition
  models both copies. Some rows below cite the `main.go` copy.
- `main.go:113` calls `c.expiredKeys()`, but the scan is declared as `expiration`
  (main.go:120). The model has one scan, `Sweeper.CollectExpired`.
- The code and the design description disagree on Copy's count. The description
  says Count grows by exactly one. The code overwrites an existing `key + "_copy"`
  entry, and then Count does not change. The model follows the code:
  `Caman.AfterCopy` states both cases.
- The sweep compares against the clock in whole seconds (main.go:126). Everywhere
  else the model uses nanoseconds; the as-written comparison is modelled separately
  under "Findings".
- A write whose `now + duration` is not positive (a clock before the epoch) stores
  an expiry that the code reads as "never". The model keeps that behaviour, so
  `CacheProperties.SetLifetime` requires `now >= 0`.

## Model

| member | source | states |
|---|---|---|
| `Caman.Cache.New` | caman.go:28-45 | a new store has an empty table and keeps the given default duration and sweep interval |
| `Caman.Cache.Set` | caman.go:47-67 | the new table is `AfterSet` of the old one, using the store's default duration |
| `Caman.AfterSet` | caman.go:50-66 | the key maps to the new value, the write time and the effective expiry; every other key is unchanged; the count grows by one exactly when the key was absent |
| `Caman.Cache.Get` | caman.go:69-88 | found exactly when the key is present and not stale at `now`; the value is the stored one when found and nil otherwise; the table is not modified |
| `Caman.Cache.Delete` | caman.go:90-101 | an absent key gives KeyNotFound and leaves the table unchanged; otherwise the result is nil and the table is `AfterDelete` |
| `Caman.AfterDelete` | caman.go:94-98 | the key is gone, every other entry is unchanged, and the count drops by one |
| `Caman.Cache.Count` | caman.go:103-108 | the number of entries in the table, stale ones included |
| `Caman.Cache.Rename` | caman.go:110-125 | an absent old key gives KeyNotFound and changes nothing; otherwise the table is `AfterRename` |
| `Caman.AfterRename` | caman.go:118-122 | the new key holds the old key's entry unchanged (overwriting); the old key is absent unless both keys are equal; every other key is unchanged; the count drops by one exactly when a different new key was already present |
| `Caman.Cache.FlushAll` | caman.go:127-134 | the loop deleting one key at a time leaves the table empty |
| `Caman.Cache.Exist` | caman.go:136-147 | true exactly when some entry, stale or not, holds a value equal to the argument |
| `Caman.CopyKey` | caman.go:158 | the copy's key extends the source key by the suffix, so it never equals the source key |
| `Caman.Cache.Copy` | caman.go:149-166 | an absent key gives KeyNotFound and changes nothing; otherwise the table is `AfterCopy` at `now` |
| `Caman.AfterCopy` | caman.go:158-163 | the copy key holds the source's value and expiry with a fresh creation time; the source entry and all other keys are unchanged; the count grows by one exactly when the copy key was absent |
| `Caman.IncrementOutcome` | caman.go:172-187 | the error is KeyNotFound exactly when the key is absent; there is no error exactly when the key holds an integer; otherwise it is NotAnInteger |
| `Caman.AfterIncrement` | caman.go:177-183 | the key holds the old integer plus delta, keeps its expiry and gets a fresh creation time; every other key and the count are unchanged |
| `Caman.Cache.Increment` | caman.go:168-188 | on error it returns 0 and leaves the table unchanged; on success it returns old value plus delta and the table is `AfterIncrement` |
| `Caman.Cache.Decrement` | caman.go:190-192 | the same as Increment with `-delta`: it returns old value minus delta on success |
| `Caman.Cache.Expire` | caman.go:194-213 | true exactly when the key is absent or stale at `now`, that is, exactly when Get at the same `now` would miss |
| `Sweeper.CollectExpired` | main.go:120-132 | the scan returns each key whose entry has a positive expiry that `now` is past, exactly once, and no other key |
| `Sweeper.ClearItems` | main.go:134-142 | removes exactly the listed keys that are present; absent keys are ignored and every other entry is unchanged |
| `Sweeper.Sweep` | main.go:113-115 | one pass (scan, then delete if anything was found) leaves the table minus its stale keys |
| `Sweeper.SweepRemovesExactlyStale` | main.go:120-142 | a key survives a sweep exactly when it is present and not stale, and survivors keep their entry |
| `Sweeper.SweepSparesNeverExpiring` | main.go:126 | an entry with expiry 0 is never removed or changed by a sweep |
| `Sweeper.SweepLeavesNothingStale` | main.go:113-115 | after a sweep at `now` no remaining entry is stale at `now` |
| `Sweeper.SweepOfFreshTableIsIdentity` | main.go:113-115 | a sweep of a table with nothing stale leaves it unchanged |
| `Sweeper.SweepIsIdempotent` | main.go:105-116 | a second sweep at the same time changes nothing |
| `Sweeper.SweepIsInvisibleToGet` | main.go:67-86 | a read at a time no earlier than the sweep sees the same result with or without the sweep |
| `Sweeper.SweepCount` | main.go:134-142 | the count after a sweep is the old count minus the number of stale entries |
| `Sweeper.AsWrittenScanMissesStaleEntry` | main.go:126 | with the clock in seconds, an entry with a 10 ms lifetime, checked 20 ms after it was written at a present-day time, is stale but is not collected |
| `Sweeper.AsWrittenScanIsNeverEarly` | main.go:126 | for a clock past the epoch, the scan as written collects only stale keys |
| `CacheProperties.SetThenGet` | main.go:45-86 | right after a write, a read at the same time returns the written value, whatever the duration; reads of other keys are unaffected at any time |
| `CacheProperties.SetLifetime` | caman.go:47-88 | for a write at `now >= 0`, a read at a later time finds the entry exactly when the effective duration is not positive or has not run out |
| `CacheProperties.ZeroDurationIsDefault` | caman.go:50-52 | a write with duration 0 is the same as a write with the default duration |
| `CacheProperties.NoDurationNeverExpires` | main.go:46-54 | with duration 0 and default 0, the expiry is 0 and every later read finds the value |
| `CacheProperties.SetThenExist` | caman.go:136-147 | after writing a value, Exist finds it |
| `CacheProperties.DeleteThenGet` | main.go:88-99 | after a Delete of a present key, reads of it miss; reads of other keys are unaffected |
| `CacheProperties.RenameThenGet` | caman.go:110-125 | after a Rename, the new key reads as the old key did at any time; the old key misses unless the keys are equal; other keys are unaffected |
| `CacheProperties.RenameToSelf` | caman.go:118-122 | renaming a key to itself leaves the table unchanged |
| `CacheProperties.CopyThenGet` | caman.go:158-163 | after a Copy, the copy reads as the source does at any time, and the source reads as before |
| `CacheProperties.IncrementKeepsLifetime` | caman.go:179-183 | Increment never changes whether a read of the key at any time finds it |
| `CacheProperties.IncrementThenDecrement` | caman.go:168-192 | Increment by d then Decrement by d restores the value and the expiry; only the creation time changes |
| `CacheProperties.FlushedTableHoldsNothing` | caman.go:127-134 | in the empty table left by FlushAll, every read misses and Exist finds nothing |

## Findings

| source | as written | input that shows it | evidently intended | confidence | as-written member | corrected member |
|---|---|---|---|---|---|---|
| main.go:126 | the sweep compares `time.Now().Unix()` (seconds) with `Expiration` (nanoseconds), modelled as `Sweeper.ExpiredKeysAsWritten` | an entry written at 1.7e18 ns with a 10 ms lifetime, swept 20 ms later: the clock reads 1.7e9 in seconds, far below the expiry, so the entry is never collected | compare the clock in nanoseconds, as `Get` and `Expire` do (caman.go:82, caman.go:207), so the sweep removes exactly the entries a read treats as missing | high (not executed) | `Sweeper.AsWrittenScanMissesStaleEntry` | `Sweeper.CollectExpired` |

## Left out

- Locking: the `sync.RWMutex`, every Lock/RLock call, and the read lock that Copy holds while it writes (caman.go:150). The model is sequential, so a concurrency defect like that one cannot show up in it.
- The background loop `GC` and `startGC` (main.go:101-117): these are a goroutine, a timer and an endless loop. `New` records the sweep interval but starts nothing. One pass of the loop body is `Sweeper.Sweep`.
- The loop's early exit when the table is nil (main.go:109-111). The model's table is never nil.
- `SaveFileJSON` and `LoadFileJSON` (caman.go:215-262) use JSON encoding and file I/O. Load's effect on the store is to replace the whole table.
- Reading the wall clock (`time.Now()`): the time is a parameter instead.
- Go's `==` on untyped values, which panics for values that cannot be compared: the closed `Value` type always compares structurally.
- Caman.Cache.Increment: does not model wrap-around of Go's machine `int`, because the model's integers are unbounded.
- Caman.Cache.Set: does not model int64 overflow of `now + duration` or of `UnixNano`, because the model's times are unbounded integers.
