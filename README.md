# keydb-migrator in Dafny

A model of the data path of keydb-migrator, a tool that copies every key of
one KeyDB/Redis instance to another and then checks the copy key by key.
The model covers four parts of the program:

- the **validator**, which re-reads a key from both stores and decides
  whether the destination holds the same value (existence, then type tag,
  then a comparison per type);
- the **type migration** routines, which copy a string (GET then SET with
  the expiration) or a hash (HGETALL, HMSET of the field/value list, then
  EXPIRE) into the destination;
- the **progress counters** (total, migrated, failed);
- the **configuration** loader and its validity check.

Both stores are objects of class `KeyDB.Store`. Each holds a map from key to a
tagged value (string, hash, list, set, sorted set, or `StreamValue` for any
kind the tool does not handle) and a map of remaining lifetimes. Every client
call of the validator and of the type-migration routines is a function or
method of `Store` that follows the server's semantics for that command. GET on a missing key gives `Nil`. A read
of a key of another kind gives `WrongType`. HGETALL, LRANGE, SMEMBERS and
ZRANGE read a missing key as empty. HMSET adds fields to an existing hash.
SET with a positive expiration sets it, -1 keeps the old one, and any other
value clears it. EXPIRE on a missing key does nothing and is not an error.
A store also has a fixed set `failing` of commands whose round trip fails.
This stands for a lost connection or a timeout, so each error path of the
program can be reached.

The validator and the migrator are Go structs that only hold the two client
handles, so here they are modules whose methods take the two stores. No
validator member has a `modifies` clause, so validation cannot write to
either store. Go's `range` over a map visits keys in no fixed order, and
SMEMBERS lists members in the server's order. The model picks these orders
nondeterministically (`:|`), and every contract holds for every order.

## Model

| member | source | states |
|---|---|---|
| `Validator.ValidateKey` | internal/validator/validator.go:28-68 | A failed EXISTS or a key missing at the destination fails before any type is read (`MissingAtDestination`). Different type tags give `TypeMismatch(source, destination)`. A tag without a comparison gives `NotSupported`. The key validates iff it holds equal values of a supported kind in both stores and both stores answer every command used (`Replicated`) |
| `Validator.ValidateString` | internal/validator/validator.go:71-87 | Succeeds iff both GETs answer and both stores hold the same string; read errors are wrapped as source or destination failures |
| `Validator.ValidateHget` | internal/validator/validator.go:89-111 | Succeeds iff both HGETALL answers are the same map. A size difference is reported as such. A field mismatch names a source field that the destination lacks or holds with another value |
| `Validator.SameSizeSubmapIsEqual` | internal/validator/validator.go:100-108 | Equal size plus every source field present at the destination with the same value rules out extra destination fields: the maps are equal |
| `Validator.ValidateList` | internal/validator/validator.go:113-131 | Succeeds iff the two lists are equal. With equal lengths, a mismatch is reported at the first differing position |
| `Validator.ValidateSet` | internal/validator/validator.go:133-155 | Succeeds iff the two member sets are equal; a failed SMEMBERS at either end is the result. A reported missing member is in the destination set and not in the source set |
| `Validator.CompareMembers` | internal/validator/validator.go:142-154 | For two lists without duplicates, equal lengths plus every destination member found among the source members (collected in a map) succeeds iff the two member sets are equal; a length difference or a destination-only member is reported |
| `Validator.DistinctListSize` | internal/validator/validator.go:142-154 | A list without duplicates has exactly as many elements as members, which lets the length comparison stand for the cardinality comparison |
| `Validator.ValidateZSet` | internal/validator/validator.go:157-175 | Succeeds iff the (member, score) sequences are equal rank by rank. With equal lengths, a mismatch is reported at the first differing rank |
| `Validator.EmptyStringIsNotAbsence` | internal/validator/validator.go:71-86 | An empty string matches an empty string and does not match a missing key |
| `Validator.TiedScoresInOtherRankOrder` | internal/validator/validator.go:166-174 | The same pairs with tied scores in another rank order fail at rank 0 |
| `KeyDB.Store.Exists` | internal/validator/validator.go:30 | Answers 1 for a key the store holds and 0 for one it does not, unless the command fails |
| `KeyDB.Store.Type` | internal/client/keydb.go:42-45 | Answers the kind tag of the value at the key, and "none" exactly when the key is missing |
| `KeyDB.Store.Get` | internal/client/keydb.go:52-55 | Answers the string at the key. A missing key gives `Nil` and a key of another kind gives `WrongType` |
| `KeyDB.Store.HGetAll` | internal/client/keydb.go:62-65 | Answers the field map of the hash at the key; a missing key reads as the empty map and a key of another kind gives `WrongType` |
| `KeyDB.Store.LRange` | internal/client/keydb.go:72-75 | Answers the whole list at the key (range 0 to -1); a missing key reads as the empty list and a key of another kind gives `WrongType` |
| `KeyDB.Store.ZRangeWithScores` | internal/client/keydb.go:92-95 | Answers the (member, score) pairs of the sorted set at the key in rank order; a missing key reads as empty and a key of another kind gives `WrongType` |
| `KeyDB.Store.Members` | internal/client/keydb.go:82-85 | The member set SMEMBERS reports: the set at the key, empty for a missing key, `WrongType` for a key of another kind |
| `KeyDB.Store.SMembers` | internal/client/keydb.go:82-85 | Lists each member of the set at the key exactly once, in some order. A missing key reads as empty and a key of another kind fails with `WrongType` |
| `KeyDB.Store.Set` | internal/client/keydb.go:57-60 | Replaces the value at the key by the string and applies the expiration rule; the store is unchanged when the command fails |
| `KeyDB.Store.HMSet` | internal/client/keydb.go:67-70 | Adds the pairs of the argument list to the hash at the key. It is refused for a failing connection, an incomplete pair list or a key of another kind, and then the store is unchanged |
| `KeyDB.Store.Expire` | internal/client/keydb.go:102-105 | Sets the lifetime of an existing key, deletes it for a non-positive one, and leaves a missing key alone without an error |
| `Migrator.MigrateString` | internal/migrator/types.go:10-16 | A failed source GET is the result and the destination is unchanged. Otherwise the destination key holds the source string, replacing any prior value, the ttl goes with the write, and the source is unchanged |
| `Migrator.HMSetArgs` | internal/migrator/types.go:24-29 | The HMSET argument list has length 2·\|hash\| and alternates field and value. Each source field appears exactly once, with its own value, so HMSET of it writes exactly the hash |
| `Migrator.MigrateHash` | internal/migrator/types.go:18-39 | A failed HGETALL is the result and the destination is unchanged. An empty hash causes no HMSET. A refused HMSET is reported as success and no expiry is applied. Otherwise the hash is merged in, EXPIRE runs only for ttl > 0 and its error is the result |
| `Migrator.ApplyTTL` | internal/migrator/types.go:34-38 | For ttl ≤ 0 nothing changes and the result is success. For ttl > 0 the EXPIRE error is the result, and a successful EXPIRE sets the lifetime of an existing key |
| `Migrator.MigrateHashChecked` | internal/migrator/types.go:18-39 | `MigrateHash` with a refused HMSET reported as its error; success implies the hash was written |
| `Migrator.MigrateStringThenValidate` | internal/migrator/types.go:10-16 | After a successful string migration, `ValidateString` and `ValidateKey` succeed on that key |
| `Migrator.MigrateHashThenValidate` | internal/migrator/types.go:18-39 | After a successful `MigrateHashChecked` of a non-empty hash into a destination that lacked the key, `ValidateKey` succeeds |
| `Migrator.MigrateHashAsWrittenThenValidate` | internal/migrator/types.go:18-39 | When the destination accepts HMSET, a successful `MigrateHash` of a non-empty hash into a destination that lacked the key validates |
| `Migrator.MigrateStringTwice` | internal/migrator/types.go:10-16 | The first copy leaves the destination as `MigrateString` promises (the SET applied when GET and SET succeed, nothing changed otherwise); a second copy from an unchanged source gives the same result and leaves values and lifetimes exactly as the first copy left them |
| `Migrator.MigrateHashTwice` | internal/migrator/types.go:18-39 | The first copy leaves the destination as `MigrateHash` promises (`HashMigrated`, or nothing changed on a read error or a refused write); a second copy from an unchanged source gives the same result and leaves values and lifetimes exactly as the first copy left them |
| `Migrator.MergedHashIdempotent` | internal/migrator/types.go:30 | Adding the same fields to a hash a second time changes nothing |
| `Migrator.HiddenHashWriteFailure` | internal/migrator/types.go:30-31 | With HMSET failing at the destination, `MigrateHash` reports success while the key then fails validation as missing |
| `Migrator.ReportedHashWriteFailure` | internal/migrator/types.go:30-31 | In the same situation `MigrateHashChecked` reports the HMSET error |
| `Migrator.StringScenario` | internal/migrator/types.go:10-16 | `user:1 = "alice"` copied into an empty destination reads back as `"alice"` and validates |
| `MigrationStats.Stats.constructor` | internal/stats/stats.go:20-24 | A fresh Stats has total = migrated = failed = 0 and an empty update history |
| `MigrationStats.Stats.SetTotalKeys` | internal/stats/stats.go:27-31 | Sets total and leaves migrated and failed unchanged |
| `MigrationStats.Stats.IncrementMigratedKeys` | internal/stats/stats.go:34-38 | Migrated grows by exactly one; nothing else changes |
| `MigrationStats.Stats.IncrementFailedKeys` | internal/stats/stats.go:41-45 | Failed grows by exactly one; nothing else changes |
| `MigrationStats.Stats.GetStats` | internal/stats/stats.go:48-52 | Returns the current triple. This is the last total set (or 0), the number of migrated increments and the number of failed increments since construction |
| `MigrationStats.ReplayCounts` | internal/stats/stats.go:20-52 | Replaying any sequence of updates from zero gives (last total set or 0, number of migrated increments, number of failed increments) |
| `MigrationStats.ReplayMonotone` | internal/stats/stats.go:34-45 | Further updates never decrease the migrated or failed counter |
| `MigrationStats.CountedRun` | internal/stats/stats.go:20-52 | Setting total 3 then recording two migrated keys and one failed key reads back as (3, 2, 1) |
| `Configuration.GetEnvOrDefault` | internal/config/config.go:93-98 | The variable's value when it is non-empty, the default otherwise (unset or empty) |
| `Configuration.GetEnvIntOrDefault` | internal/config/config.go:100-107 | The parsed value when the variable is non-empty and parses, the default otherwise |
| `Configuration.GetDurationOrDefault` | internal/config/config.go:109-116 | The parsed duration when the variable is non-empty and parses, the default otherwise |
| `Configuration.EmptyMeansUnset` | internal/config/config.go:93-116 | A variable set to "" reads exactly as an unset one for all three helpers |
| `Configuration.Validate` | internal/config/config.go:76-90 | Accepts iff both hosts are non-empty and workers and batch size are positive. Otherwise it reports the first failing check, in the order source host, destination host, workers, batch size |
| `Configuration.ValidateReadsOnlyHostsWorkersBatch` | internal/config/config.go:76-90 | Ports, databases, pool sizes, retry count, delays and logging never change the verdict |
| `Configuration.Load` | internal/config/config.go:43-73 | Returns the built record together with the verdict of `Validate` on it, even when the verdict is a failure |
| `Configuration.LoadDefaults` | internal/config/config.go:43-73 | With an empty environment every end is localhost:6379, db 0, pool 20, with batch 1000, workers 10, retry 3, timeout 30 min, retry delay 1 s and logging info/json, and the record is accepted |
| `Configuration.LoadRejectsOnlyCounts` | internal/config/config.go:43-90 | Loaded hosts are never empty, because the defaults are not. Load therefore rejects only for a non-positive worker count or batch size |

## Findings

| source | as written | input that shows it | evidently intended | confidence | as-written member | corrected member |
|---|---|---|---|---|---|---|
| internal/migrator/types.go:30-31 | `migrateHash` returns `nil` when HMSET fails | source hash `h1 = {f1: v1, f2: v2}`, destination whose HMSET fails | return the HMSET error, so that the key is counted as failed or retried | high; not executed | `Migrator.HiddenHashWriteFailure` | `Migrator.MigrateHashChecked` |

The corrected routine is the one `Migrator.MigrateHashThenValidate` uses. The
same silent success also happens when the destination key already holds a
value of another kind, because HMSET then fails with `WrongType`.

## Left out

- Key enumeration (`GetKeys`, internal/migrator/migrator.go:72-80) is left out. It hands cursor handling to the client library's scan iterator and never looks at its error.
- `Migrate` (internal/migrator/migrator.go:47-51) only logs, so there is no run loop, worker pool, retry, skip outcome or cancellation to model.
- No caller of `migrateString`/`migrateHash` exists in the program. Reading the TTL at the source and choosing the routine by type are not part of this model.
- The client wrapper in internal/client/keydb.go defines no `Exists`, although internal/validator/validator.go:30 calls one; `KeyDB.Store.Exists` assumes the KeyDB/Redis EXISTS command.
- The client calls `Ping` and `Scan` (internal/migrator/migrator.go:56, 60, 74) have no `Store` member, because connection checks and key enumeration are not part of this model.
- Client and migrator construction (`client.New`, `migrator.New`, `validator.New`) and `testconnections` are left out. They open network connections and ping.
- Network faults, context deadlines and timeouts are modelled only as a store's fixed set of failing commands. A fault that comes and goes between two calls is not modelled.
- The logger (internal/logger/logger.go) is left out. It only writes output, and its swapped Info/Error levels do not affect any value.
- `StartProgressReporter` and `LogFinalStats` (internal/stats/stats.go:55-91) are left out. They are a ticker-driven goroutine and a final log line with floating-point rates. Note that `success_rate` divides by a total that may be zero.
- The start time and the read-write mutex of `Stats` are left out; the mutex only serialises access.
- `MigrationStats.Stats.IncrementMigratedKeys`: counters are unbounded integers, so the int64 wrap-around after 2^63 − 1 increments is not modelled. The same holds for `IncrementFailedKeys`.
- Sorted-set scores are an abstract type compared by equality. IEEE behaviour (NaN ≠ NaN, −0 = +0) is not modelled.
- `strconv.Atoi` and `time.ParseDuration` are parameters of `Load` that answer a value or nothing. They are not re-implemented.
- Durations are integers in nanoseconds. The client library rounds an expiration to milliseconds or seconds when it sends SET or EXPIRE, and the model stores the duration as given.
- The destination store's own expiry of keys over time is left out: lifetimes are recorded, never counted down.
- Config fields read straight from `os.Getenv` (the passwords) are the variable's value or "".
- The count invariant migrated + failed ≤ total is not an invariant of this model. The program does not enforce it: `SetTotalKeys` accepts any value at any time.
- `Migrator.MigrateHash` adds the source fields to an existing destination hash and leaves fields that only the destination has. The round trip is therefore stated for a destination that lacked the key.
