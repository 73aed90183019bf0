/**
 * The process-wide registry of pkg/storage/init.go: the package-level
 * `dbManager` and `redisManager` variables, installed by InitStorage and
 * closed by DeinitStorage, and the package-level lookups that go through
 * them. The two variables are the fields of one Registry object.
 *
 * `viper.Sub("database")` and `viper.Sub("redis")` are the two
 * configuration sections passed in; both are taken to be present.
 */
module Storage {
  import opened Wrappers
  import opened StorageBase
  import Database
  import Redis

  class Registry {
    var dbManager: Database.DatabaseManager?
    var redisManager: Redis.RedisManager?

    ghost predicate Valid()
      reads this, dbManager, redisManager
    {
      (dbManager != null ==> dbManager.Valid()) && (redisManager != null ==> redisManager.Valid())
    }

    /** The package's state before InitStorage: both variables nil. */
    constructor ()
      ensures Valid() && dbManager == null && redisManager == null
    {
      dbManager := null;
      redisManager := null;
    }

    /**
     * `InitStorage`: installs a fresh manager of each kind, replacing (and
     * dropping, unclosed) whatever was there; it always succeeds.
     */
    method InitStorage(dbConfig: Database.Config, redisConfig: Redis.Config) returns (err: Option<StorageError>)
      modifies this
      ensures Valid() && err == None
      ensures dbManager != null && fresh(dbManager) && dbManager.config == dbConfig
      ensures dbManager.State() == Database.Fresh
      ensures redisManager != null && fresh(redisManager) && redisManager.config == redisConfig
      ensures redisManager.State() == Redis.Fresh
    {
      dbManager := new Database.DatabaseManager(dbConfig);
      redisManager := new Redis.RedisManager(redisConfig);
      err := None;
    }

    /**
     * `DeinitStorage`: closes whichever managers exist, ignoring what their
     * Close returns, and always succeeds. The close outcomes each manager's
     * handles would meet are parameters.
     */
    method DeinitStorage(dbEnv: Database.CloseEnv, redisCloseErrors: map<Redis.RedisClient, string>)
      returns (err: Option<StorageError>)
      requires Valid()
      modifies dbManager, redisManager
      ensures Valid() && err == None
      ensures dbManager != null ==> dbManager.State() == Database.CloseStep(old(dbManager.State())).0
      ensures redisManager != null ==> redisManager.State() == Redis.CloseStep(old(redisManager.State())).0
    {
      if dbManager != null {
        var _, _, _ := dbManager.Close(dbEnv);
      }
      if redisManager != null {
        var _, _, _ := redisManager.Close(redisCloseErrors);
      }
      err := None;
    }

    /** Package-level `GetDatabase`: fails when no manager is installed, else asks it. */
    method GetDatabase(name: string, open: Result<Database.GormDb, string>)
      returns (db: Result<Database.GormDb, StorageError>, dialed: Option<string>)
      requires Valid()
      modifies dbManager
      ensures Valid()
      ensures dbManager == null ==> db == Failure(DatabaseManagerNotInit) && dialed == None
      ensures dbManager != null ==>
        Database.Lookup(dbManager.State(), db, dialed) ==
        Database.GetDatabaseStep(old(dbManager.State()), dbManager.config, name, open)
    {
      if dbManager == null {
        return Failure(DatabaseManagerNotInit), None;
      }
      db, dialed := dbManager.GetDatabase(name, open);
    }

    /** Package-level `GetRedis`: fails when no manager is installed, else asks it. */
    method GetRedis(name: string, client: Redis.RedisClient, ping: Option<string>)
      returns (rdb: Result<Redis.RedisClient, StorageError>, dialed: Option<Redis.RedisOptions>)
      requires Valid()
      modifies redisManager
      ensures Valid()
      ensures redisManager == null ==> rdb == Failure(RedisManagerNotInit) && dialed == None
      ensures redisManager != null ==>
        Redis.Lookup(redisManager.State(), rdb, dialed) ==
        Redis.GetRedisStep(old(redisManager.State()), redisManager.config, name, client, ping)
    {
      if redisManager == null {
        return Failure(RedisManagerNotInit), None;
      }
      rdb, dialed := redisManager.GetRedis(name, client, ping);
    }
  }

  /** Before InitStorage, DeinitStorage does nothing and lookups report "not init". */
  method DeinitBeforeInit(name: string, open: Result<Database.GormDb, string>,
                          client: Redis.RedisClient, ping: Option<string>,
                          dbEnv: Database.CloseEnv, redisCloseErrors: map<Redis.RedisClient, string>)
    returns (deinit: Option<StorageError>, db: Result<Database.GormDb, StorageError>,
             rdb: Result<Redis.RedisClient, StorageError>)
    ensures deinit == None
    ensures db == Failure(DatabaseManagerNotInit) && rdb == Failure(RedisManagerNotInit)
  {
    var registry := new Registry();
    deinit := registry.DeinitStorage(dbEnv, redisCloseErrors);
    var dialedDsn, dialedOptions;
    db, dialedDsn := registry.GetDatabase(name, open);
    rdb, dialedOptions := registry.GetRedis(name, client, ping);
  }

  /**
   * The application's lifecycle: after InitStorage and DeinitStorage both
   * managers are closed and empty, every later lookup is rejected as closed,
   * and a second DeinitStorage changes nothing and still succeeds.
   */
  method InitThenDeinit(registry: Registry, dbConfig: Database.Config, redisConfig: Redis.Config,
                        name: string, open: Result<Database.GormDb, string>,
                        client: Redis.RedisClient, ping: Option<string>,
                        dbEnv: Database.CloseEnv, redisCloseErrors: map<Redis.RedisClient, string>)
    returns (db: Result<Database.GormDb, StorageError>, rdb: Result<Redis.RedisClient, StorageError>,
             again: Option<StorageError>)
    modifies registry
    ensures registry.Valid()
    ensures registry.dbManager != null && registry.dbManager.State() == Database.ManagerState(map[], Unset.SetTrue())
    ensures registry.redisManager != null && registry.redisManager.State() == Redis.ManagerState(map[], Unset.SetTrue())
    ensures db == Failure(DatabaseManagerClosed) && rdb == Failure(RedisManagerClosed)
    ensures again == None
  {
    var init := registry.InitStorage(dbConfig, redisConfig);
    var deinit := registry.DeinitStorage(dbEnv, redisCloseErrors);
    var dialedDsn, dialedOptions;
    db, dialedDsn := registry.GetDatabase(name, open);
    rdb, dialedOptions := registry.GetRedis(name, client, ping);
    again := registry.DeinitStorage(dbEnv, redisCloseErrors);
  }
}
