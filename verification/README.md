# fly storage managers, modelled in Dafny

This project models the named lazy-resource managers of the `fly` application
scaffold (package `storage`), the process-wide registry that installs and closes
them, and the configuration half of the logger set-up (package `flylog`).

- `DatabaseManager` (`pkg/storage/db.go`) keeps a table from database name to
  an opened gorm connection pool and a monotone `closed` flag. `GetDatabase`
  rejects calls after close, returns a cached handle, or resolves the name's
  configuration sub-tree, opens a MySQL connection and caches it. It stores
  nothing on any failure. `Close` works once: it attempts to close every cached
  handle, ignores individual failures, and empties the table.
- `RedisManager` (`pkg/storage/redis.go`) does the same for Redis clients. It
  has no adapter check, and it checks a new client with a ping.
- `InitStorage` / `DeinitStorage` (`pkg/storage/init.go`) install fresh managers
  and close whichever exist. The package-level `GetDatabase` / `GetRedis` fail
  with "not init" before that.
- `InitLog` (`pkg/flylog/log.go`) starts from default settings and may override
  them from the `log` section. It then maps the level name to a zap level, with
  Debug as the fallback.

Files:

- `wrappers.dfy`: Option and Result.
- `storage_base.dfy`: the atomic flag and the package's errors with their Go
  messages.
- `database.dfy` and `redis.dfy`: the two managers.
- `registry.dfy`: init.go and the package-level lookups.
- `flylog.dfy`: the logger configuration.

Each manager is a `class` whose fields are the Go struct's mutable fields (the
table and the `closed` flag). Its methods follow the Go code statement by
statement. Each method's `ensures` ties the new state and the results to a pure
step function (`GetDatabaseStep`, `CloseStep`, ...). The step function's own
contract states the source's promises: which error on which path, what the table
holds afterwards, and that a failure stores nothing. `Step` and `Run` replay a
sequence of calls. The lemmas over `Run` state the properties that span several
calls:

- the closed flag is never reset;
- a closed manager rejects everything;
- a cached handle is returned unchanged until Close;
- at most one connection is made per name;
- a name with no configuration always fails.

Foreign calls are parameters, each standing for the outcome the outside world
gives:

- `gorm.Open` is `open: Result<GormDb, string>`;
- `redis.NewClient` is the `client` token, and its ping is `ping: Option<string>`;
- `db.DB()`, `sql.DB.Close` and `redis.Client.Close` are maps from a handle to
  its error.

Handles are opaque value tokens, so "the same handle" is token equality. The
lookups also return `dialed`: the DSN or client options that the foreign
constructor was called with, or None when it was not called. This makes "nothing
was opened" observable. `Close` also returns `attempted`, the names whose handles
it closed in order, and `logged`, the names whose close failed and were reported
to the log.

Two behaviours of the code worth knowing:

- A second Close of *either* manager returns "database manager closed". The
  Redis manager's closed lookup says "redis manager closed", so its two closed
  errors differ. `Redis.CloseStep` therefore returns `DatabaseManagerClosed`
  (lemma `Redis.SecondCloseSaysDatabase`).
- The pool-tuning guard at `pkg/storage/db.go:97` is inverted (`err != nil`),
  so tuning runs only when `db.DB()` fails. It is left out (see below) rather
  than corrected.

## Model

| member | source | states |
|---|---|---|
| StorageBase.AtomicBool.SetTrue | pkg/storage/db.go:18-21 | after `setTrue`, `isSet` holds |
| StorageBase.AtomicBool.SetFalse | pkg/storage/db.go:18-22 | after `setFalse`, `isSet` does not hold (no manager ever calls it; see ClosedFlagIsMonotone) |
| Database.WrapGormDbClose | pkg/storage/db.go:32-39 | closing a wrapper fails exactly when unwrapping or closing the pool fails; an unwrap error wins and the pool's close error is then ignored |
| Database.DatabaseManager.constructor | pkg/storage/db.go:48-53 | a new manager has an empty table, the flag unset, and keeps its configuration |
| Database.GetDatabaseStep | pkg/storage/db.go:55-115 | closed gives the closed error and changes nothing; a cached name gives its stored handle and opens nothing; gorm.Open is called with the sub-tree's DSN exactly on a miss whose adapter is mysql; if it succeeds the new handle is returned and cached under the name, and if it fails the wrapped open error carries its cause; a missing sub-tree gives "no database config", another adapter "unsupported adapter" naming it; no other error is returned; every failure leaves the state unchanged; a success adds only the name's entry, and the invariant is kept |
| Database.DatabaseManager.GetDatabase | pkg/storage/db.go:55-115 | the new table, the returned handle or error and the DSN dialed are those of GetDatabaseStep on the old state; the invariant is kept |
| Database.CloseStep | pkg/storage/db.go:117-134 | a second Close returns the closed error and changes nothing; the first succeeds, sets the flag and leaves an empty table |
| Database.FailedCloses | pkg/storage/db.go:125-131 | the names logged are exactly the attempted names whose handle failed to close |
| Database.DatabaseManager.Close | pkg/storage/db.go:117-134 | new state and error as CloseStep; the first Close attempts every stored name exactly once, logs exactly the failing ones and still succeeds; a second attempts nothing |
| Database.Step | pkg/storage/db.go:55-134 | every call keeps the invariant (closed implies empty table, every entry from a MySQL sub-tree); the flag is set afterwards iff it was before or the call was Close |
| Database.RunKeepsConsistent | pkg/storage/db.go:48-134 | every state reachable by lookups and closes keeps the invariant |
| Database.ClosedFlagIsMonotone | pkg/storage/db.go:117-121 | after any calls the flag is set iff it was set before or some call was Close: it is never reset |
| Database.ClosedRejectsEverything | pkg/storage/db.go:56-58 | from a closed state every lookup returns the closed error without dialing, every Close returns the closed error, and the state never changes |
| Database.CachedHandleIsStable | pkg/storage/db.go:60-63 | while not closed, a cached entry stays in the table unchanged, and every lookup of its name returns exactly its handle without dialing |
| Database.OneConnectionPerName | pkg/storage/db.go:60-114 | without Close, once a lookup of a name succeeds, every later lookup of it returns the same handle and opens nothing |
| Database.MissingConfigAlwaysFails | pkg/storage/db.go:66-69 | a name without a sub-tree fails every time ("no database config" or closed) and is never cached |
| Database.FailedOpenIsRetried | pkg/storage/db.go:86-89 | a failed open stores nothing, so the next lookup dials again |
| Redis.WrapRedisClose | pkg/storage/redis.go:18-24 | closing a nil wrapper succeeds and does nothing; otherwise it fails exactly when the client's close fails |
| Redis.RedisManager.constructor | pkg/storage/redis.go:33-38 | a new manager has an empty table, the flag unset, and keeps its configuration |
| Redis.GetRedisStep | pkg/storage/redis.go:40-81 | closed gives "redis manager closed" and changes nothing; a cached name gives its stored client and builds nothing; a client is built from the sub-tree's address, password and database index for every miss with a sub-tree (no adapter check); if its ping succeeds that client is returned and cached under the name; a missing sub-tree gives "no redis config"; a failed ping gives the wrapped ping error with its cause; no other error is returned; every failure leaves the state unchanged; a success adds only the name's entry, and the invariant is kept |
| Redis.RedisManager.GetRedis | pkg/storage/redis.go:40-81 | the new table, the returned client or error and the options dialed are those of GetRedisStep on the old state |
| Redis.CloseStep | pkg/storage/redis.go:83-100 | a second Close returns "database manager closed" and changes nothing; the first succeeds, sets the flag and leaves an empty table |
| Redis.FailedCloses | pkg/storage/redis.go:91-97 | the names logged are exactly the attempted names whose client failed to close |
| Redis.RedisManager.Close | pkg/storage/redis.go:83-100 | new state and error as CloseStep; the first Close attempts every stored name exactly once, logs exactly the failing ones and still succeeds; a second attempts nothing |
| Redis.Step | pkg/storage/redis.go:40-100 | every call keeps the invariant (closed implies empty table, every entry configured); the flag is set afterwards iff it was before or the call was Close |
| Redis.RunKeepsConsistent | pkg/storage/redis.go:33-100 | every reachable state keeps the invariant |
| Redis.ClosedFlagIsMonotone | pkg/storage/redis.go:83-87 | after any calls the flag is set iff it was set before or some call was Close |
| Redis.ClosedRejectsEverything | pkg/storage/redis.go:41-43 | from a closed state every lookup returns the closed error without dialing, every Close the double-close error, and the state never changes |
| Redis.CachedClientIsStable | pkg/storage/redis.go:45-48 | while not closed, a cached client stays and every lookup of its name returns exactly it without building a client |
| Redis.OneClientPerName | pkg/storage/redis.go:45-80 | without Close, once a lookup of a name succeeds, every later lookup of it returns the same client and builds nothing |
| Redis.MissingConfigAlwaysFails | pkg/storage/redis.go:51-54 | a name without a sub-tree fails every time and is never cached |
| Redis.FailedPingIsRetried | pkg/storage/redis.go:71-74 | a failed ping stores nothing, so the next lookup builds and pings again |
| Redis.SecondCloseSaysDatabase | pkg/storage/redis.go:84-86 | a second Close reports "database manager closed", not the Redis manager's closed message |
| Storage.Registry.constructor | pkg/storage/init.go:5-8 | before InitStorage both manager variables are nil |
| Storage.Registry.InitStorage | pkg/storage/init.go:10-14 | always succeeds and installs two fresh managers (empty, not closed) on the given sections, replacing any earlier ones |
| Storage.Registry.DeinitStorage | pkg/storage/init.go:16-25 | always succeeds; each installed manager ends as its Close leaves it; a nil manager is skipped |
| Storage.Registry.GetDatabase | pkg/storage/db.go:136-141 | with no manager, "database manager not init"; otherwise exactly the manager's lookup |
| Storage.Registry.GetRedis | pkg/storage/redis.go:102-107 | with no manager, "redis manager not init"; otherwise exactly the manager's lookup |
| Storage.DeinitBeforeInit | pkg/storage/init.go:16-25 | DeinitStorage before InitStorage succeeds and does nothing; lookups then report "not init" |
| Storage.InitThenDeinit | pkg/storage/init.go:10-25 | after InitStorage and DeinitStorage both managers are closed and empty, later lookups fail with the closed errors, and a second DeinitStorage still succeeds |
| FlyLog.ParseLevel | pkg/flylog/log.go:55-71 | each of the seven level names selects its level; any other string gives Debug |
| FlyLog.ParseLevelName | pkg/flylog/log.go:55-71 | every level's name is recognised and selects that level |
| FlyLog.UpperCaseIsDebug | pkg/flylog/log.go:55-71 | matching is case-sensitive: "INFO" and "Debug" give Debug |
| FlyLog.Unmarshal | pkg/flylog/log.go:46-49 | the `log` section overrides exactly the keys it sets; an empty section leaves the defaults |
| FlyLog.InitLog | pkg/flylog/log.go:30-94 | no `log` section gives the defaults at Debug; an unmarshal error is returned as it is; every other path succeeds at the level named by the effective config |
| FlyLog.DefaultsWithoutLogSection | pkg/flylog/log.go:31-40 | the defaults are level "debug", rotation every 24 hours, file app.log, 500 MB, 3 backups, 30 days |

## Left out

- The mutex and the atomic loads and stores (`pkg/storage/db.go:71-72`, `pkg/storage/redis.go:56-57`): the managers are modelled for one caller at a time. The lock is a no-op and the flag a plain value. So the model says nothing about concurrent first use or about the lock-free fast-path read of the table (`pkg/storage/db.go:60`).
- The re-check of the table under the lock (`pkg/storage/db.go:74-77`, `pkg/storage/redis.go:59-62`): for one caller at a time it sees the same table as the first check, so it can never hit and is left out.
- Pool tuning and debug log mode (`pkg/storage/db.go:94-107`): side effects on the foreign pool with no state in the model.
- Database.GetDatabaseStep: assumes `db.DB()` succeeds during the lookup. The guard at `pkg/storage/db.go:97` is inverted. When `db.DB()` does fail there, the code calls `SetConnMaxLifetime` on the nil `*sql.DB` it got back and panics instead of returning. The model has no panic outcome and returns the opened handle in that case. At Close, `CloseEnv.unwrapErrors` may still make the same handle's `db.DB()` fail.
- The client built before a failed ping is never closed (`pkg/storage/redis.go:71-74`): not observable here.
- A nil configuration root (`viper.Sub("database")` or `viper.Sub("redis")` returning nil): both sections are taken to be present. Only the presence of each name's sub-tree is modelled, not how viper decodes keys.
- Foreign calls (`gorm.Open`, `db.DB()`, `redis.NewClient`, `Ping`, the close calls) appear only as their outcomes; the `log.Error` / `flylog.Error` calls appear only as the `logged` names.
- `InitLog` building the zap core, replacing the global `Logger`, the rotation goroutine, `DeinitLog`, the proxy functions and `LogProxy.Write`: logging I/O and concurrency. InitLog's debug printing is also left out.
- FlyLog.Unmarshal: lumberjack's `localtime` and `compress` keys are not modelled. The section can set them, but the defaults leave them false and the model keeps only filename, size, backups and age.
- FlyLog.InitLog: assumes that a set `log` key holds a map. If it holds a scalar, `viper.Sub("log")` is nil and `Unmarshal` is called on nil at `pkg/flylog/log.go:46`, which panics. The model's input cannot express that case.
- Unmarshalling the `log` section is modelled as overriding the keys it sets. The key names and type conversions of the decoder are not modelled, nor a partial overwrite before a decoding error (the config is discarded then anyway).
- `RunHttpServer` in `http_server.go` (signal handling, graceful shutdown with a timeout): concurrency and I/O.
- `pkg/log/log.go`, `pkg/config/init.go`, `fly.go` and the `examples/` handlers: configuration loading and bootstrap glue.
