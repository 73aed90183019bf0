/**
 * What the two resource managers of package `storage` share: the atomic
 * closed flag and the errors the package returns.
 */
module StorageBase {

  /** Go's int32. */
  newtype Int32 = x: int | -0x8000_0000 <= x < 0x8000_0000

  /**
   * The `atomicBool` of pkg/storage/db.go: a 32-bit word that is read and
   * written atomically; any non-zero word means "set". It lives by value
   * inside each manager, so the model keeps it as a value field that the
   * manager's methods reassign. Atomicity is not modelled: the managers are
   * modelled for one caller at a time.
   */
  datatype AtomicBool = AtomicBool(word: Int32) {

    predicate IsSet() {
      word != 0
    }

    function SetTrue(): (b: AtomicBool)
      ensures b.IsSet()
    {
      AtomicBool(1)
    }

    function SetFalse(): (b: AtomicBool)
      ensures !b.IsSet()
    {
      AtomicBool(0)
    }
  }

  /** Go's zero value of `atomicBool`, which every new manager starts with. */
  const Unset: AtomicBool := AtomicBool(0)

  /** The errors the storage package returns, one constructor per error site. */
  datatype StorageError =
    | DatabaseManagerClosed
    | NoDatabaseConfig
    | UnsupportedAdapter(adapter: string)
    | OpenMysqlConn(cause: string)
    | DatabaseManagerNotInit
    | RedisManagerClosed
    | NoRedisConfig
    | PingRedis(cause: string)
    | RedisManagerNotInit
  {
    /** The text `Error()` gives; a wrapped error reads "context: cause". */
    function Message(): string {
      match this
      case DatabaseManagerClosed => "database manager closed"
      case NoDatabaseConfig => "no database config"
      case UnsupportedAdapter(a) => "unsupported adapater: " + a
      case OpenMysqlConn(c) => "open mysql db conn error: " + c
      case DatabaseManagerNotInit => "database manager not init"
      case RedisManagerClosed => "redis manager closed"
      case NoRedisConfig => "no redis config"
      case PingRedis(c) => "ping redis error: " + c
      case RedisManagerNotInit => "redis manager not init"
    }
  }

  /** True when no name occurs twice. */
  predicate NoDuplicates(names: seq<string>) {
    forall i, j :: 0 <= i < j < |names| ==> names[i] != names[j]
  }

}
