/**
 * The database-handle manager of pkg/storage/db.go: a table from database
 * name to an opened connection pool, filled lazily on first lookup and
 * drained once by Close.
 *
 * The manager is modelled for one caller at a time: its mutex is a no-op and
 * its atomic flag a plain value. Foreign calls are parameters: the outcome
 * `gorm.Open` would give, and the errors `db.DB()` and the pool's `Close`
 * would give for each handle.
 */
module Database {
  import opened Wrappers
  import opened StorageBase

  const AdapterMySQL: string := "mysql"

  /** An opaque token for the `*gorm.DB` that `gorm.Open` returns. */
  datatype GormDb = GormDb(id: nat)

  /** The table's entry: a wrapper around the opened pool. */
  datatype WrapGormDb = WrapGormDb(db: GormDb)

  /** A database's sub-tree of the `database` configuration section. */
  datatype DbConfig = DbConfig(
    adapter: string,
    dsn: string,
    debug: bool,
    maxIdleConnections: int,
    maxOpenConnections: int)

  /** The `database` section: names that have a sub-tree map to it. */
  type Config = map<string, DbConfig>

  /**
   * What closing a handle meets: the error `db.DB()` gives for a pool, if
   * any, and the error the underlying `sql.DB`'s `Close` gives, if any.
   */
  datatype CloseEnv = CloseEnv(unwrapErrors: map<GormDb, string>, closeErrors: map<GormDb, string>)

  /**
   * `WrapGormDb.Close`: unwrap the pool, then close it. An unwrap failure is
   * returned as it is, and the pool's close error then plays no part.
   */
  function WrapGormDbClose(w: WrapGormDb, env: CloseEnv): (err: Option<string>)
    ensures err.None? <==> w.db !in env.unwrapErrors && w.db !in env.closeErrors
    ensures w.db in env.unwrapErrors ==> err == Some(env.unwrapErrors[w.db])
    ensures err.Some? && w.db !in env.unwrapErrors ==> err == Some(env.closeErrors[w.db])
  {
    if w.db in env.unwrapErrors then Some(env.unwrapErrors[w.db])
    else if w.db in env.closeErrors then Some(env.closeErrors[w.db])
    else None
  }

  /** The manager's mutable state: its table and its closed flag. */
  datatype ManagerState = ManagerState(databaseMap: map<string, WrapGormDb>, closed: AtomicBool)

  /** The state `NewDatabaseManager` builds: an empty table, not closed. */
  const Fresh: ManagerState := ManagerState(map[], Unset)

  /**
   * The invariant every reachable state keeps: a closed manager holds no
   * handle, and every stored handle was opened from a MySQL sub-tree.
   */
  predicate Consistent(s: ManagerState, config: Config) {
    (s.closed.IsSet() ==> s.databaseMap == map[]) &&
    forall name :: name in s.databaseMap ==> name in config && config[name].adapter == AdapterMySQL
  }

  /**
   * The result of one lookup: the state after it, what it returned, and the
   * DSN handed to `gorm.Open` if the lookup called it.
   */
  datatype Lookup = Lookup(after: ManagerState, result: Result<GormDb, StorageError>, dialed: Option<string>)

  /** `DatabaseManager.GetDatabase` as a function of the state before it. */
  function GetDatabaseStep(s: ManagerState, config: Config, name: string, open: Result<GormDb, string>): (o: Lookup)
    // A closed manager rejects the lookup and changes nothing.
    ensures s.closed.IsSet() ==> o == Lookup(s, Failure(DatabaseManagerClosed), None)
    // A cached name yields exactly its stored handle, and nothing is opened.
    ensures !s.closed.IsSet() && name in s.databaseMap ==> o == Lookup(s, Success(s.databaseMap[name].db), None)
    // `gorm.Open` is called, with the sub-tree's DSN, exactly on a miss whose sub-tree names MySQL.
    ensures o.dialed.Some? <==>
      !s.closed.IsSet() && name !in s.databaseMap && name in config && config[name].adapter == AdapterMySQL
    ensures o.dialed.Some? ==> name in config && o.dialed.value == config[name].dsn
    ensures o.result == Failure(NoDatabaseConfig) <==> !s.closed.IsSet() && name !in s.databaseMap && name !in config
    ensures (o.result.Failure? && o.result.error.UnsupportedAdapter?) <==>
      !s.closed.IsSet() && name !in s.databaseMap && name in config && config[name].adapter != AdapterMySQL
    ensures o.result.Failure? && o.result.error.UnsupportedAdapter? ==> o.result.error.adapter == config[name].adapter
    ensures (o.result.Failure? && o.result.error.OpenMysqlConn?) <==> o.dialed.Some? && open.Failure?
    ensures o.result.Failure? && o.result.error.OpenMysqlConn? ==> o.result.error.cause == open.error
    // These four are the only errors a lookup returns.
    ensures o.result.Failure? ==>
      o.result.error == DatabaseManagerClosed || o.result.error == NoDatabaseConfig ||
      o.result.error.UnsupportedAdapter? || o.result.error.OpenMysqlConn?
    // A miss on a MySQL sub-tree whose open succeeds returns the new handle and caches it.
    ensures o.dialed.Some? && open.Success? ==>
      o.result == Success(open.value) &&
      o.after == s.(databaseMap := s.databaseMap[name := WrapGormDb(open.value)])
    // A failure stores nothing; the closed flag never changes here.
    ensures o.result.Failure? ==> o.after == s
    ensures o.after.closed == s.closed
    // A success leaves `name` bound to the returned handle; a newly opened
    // handle is the one entry added and the rest of the table is untouched.
    ensures o.result.Success? ==>
      !s.closed.IsSet() && name in o.after.databaseMap && o.after.databaseMap[name].db == o.result.value
    ensures o.after != s ==>
      o.dialed.Some? && open.Success? && o.result == Success(open.value) &&
      o.after.databaseMap == s.databaseMap[name := WrapGormDb(open.value)]
    ensures Consistent(s, config) ==> Consistent(o.after, config)
  {
    if s.closed.IsSet() then Lookup(s, Failure(DatabaseManagerClosed), None)
    else if name in s.databaseMap then Lookup(s, Success(s.databaseMap[name].db), None)
    else if name !in config then Lookup(s, Failure(NoDatabaseConfig), None)
    else
      var sub := config[name];
      if sub.adapter != AdapterMySQL then Lookup(s, Failure(UnsupportedAdapter(sub.adapter)), None)
      else
        match open
        case Failure(e) => Lookup(s, Failure(OpenMysqlConn(e)), Some(sub.dsn))
        case Success(db) =>
          Lookup(s.(databaseMap := s.databaseMap[name := WrapGormDb(db)]), Success(db), Some(sub.dsn))
  }

  /** `DatabaseManager.Close` as a function of the state before it. */
  function CloseStep(s: ManagerState): (r: (ManagerState, Option<StorageError>))
    // A second Close only reports the error and touches nothing.
    ensures s.closed.IsSet() ==> r == (s, Some(DatabaseManagerClosed))
    // The first Close succeeds, sets the flag and empties the table.
    ensures !s.closed.IsSet() ==> r.1 == None && r.0.closed.IsSet() && r.0.databaseMap == map[]
  {
    if s.closed.IsSet() then (s, Some(DatabaseManagerClosed))
    else (ManagerState(map[], s.closed.SetTrue()), None)
  }

  /**
   * The names among `attempted` whose handle failed to close, in order:
   * the ones Close reports to the log.
   */
  function FailedCloses(attempted: seq<string>, table: map<string, WrapGormDb>, env: CloseEnv): (failed: seq<string>)
    requires forall name :: name in attempted ==> name in table
    ensures forall name :: name in failed <==> name in attempted && WrapGormDbClose(table[name], env).Some?
    ensures |failed| <= |attempted|
  {
    if attempted == [] then []
    else
      var last := attempted[|attempted| - 1];
      var before := FailedCloses(attempted[..|attempted| - 1], table, env);
      assert forall name :: name in attempted <==> name in attempted[..|attempted| - 1] || name == last;
      if WrapGormDbClose(table[last], env).Some? then before + [last] else before
  }

  /** Attempting one more close extends the log by that name exactly when it fails. */
  lemma FailedClosesAppend(attempted: seq<string>, name: string, table: map<string, WrapGormDb>, env: CloseEnv)
    requires forall n :: n in attempted ==> n in table
    requires name in table
    ensures forall n :: n in attempted + [name] ==> n in table
    ensures FailedCloses(attempted + [name], table, env) ==
      FailedCloses(attempted, table, env) + (if WrapGormDbClose(table[name], env).Some? then [name] else [])
  {
    assert (attempted + [name])[..|attempted|] == attempted;
  }

  class DatabaseManager {
    const config: Config
    var databaseMap: map<string, WrapGormDb>
    var closed: AtomicBool

    function State(): ManagerState
      reads this
    {
      ManagerState(databaseMap, closed)
    }

    ghost predicate Valid()
      reads this
    {
      Consistent(State(), config)
    }

    /** `NewDatabaseManager`: an empty table and the flag unset. */
    constructor (config: Config)
      ensures this.config == config && State() == Fresh && Valid()
    {
      this.config := config;
      databaseMap := map[];
      closed := Unset;
    }

    /**
     * `GetDatabase`: returns the handle for `name`, opening and caching it on
     * first use. `open` is what `gorm.Open` gives if it is called; `dialed`
     * is the DSN it was called with, or None if it was not called.
     */
    method GetDatabase(name: string, open: Result<GormDb, string>) returns (db: Result<GormDb, StorageError>, dialed: Option<string>)
      requires Valid()
      modifies this
      ensures Valid()
      ensures Lookup(State(), db, dialed) == GetDatabaseStep(old(State()), config, name, open)
    {
      if closed.IsSet() {
        return Failure(DatabaseManagerClosed), None;
      }
      if name in databaseMap {
        return Success(databaseMap[name].db), None;
      }
      if name !in config {
        return Failure(NoDatabaseConfig), None;
      }
      var sub := config[name];
      // The mutex is taken here; for one caller at a time the re-check of the
      // table under it sees the same table as above and cannot hit.
      if sub.adapter != AdapterMySQL {
        return Failure(UnsupportedAdapter(sub.adapter)), None;
      }
      dialed := Some(sub.dsn);
      if open.Failure? {
        return Failure(OpenMysqlConn(open.error)), dialed;
      }
      var wrap := WrapGormDb(open.value);
      databaseMap := databaseMap[name := wrap];
      db := Success(wrap.db);
    }

    /**
     * `Close`: the first call sets the flag, closes every stored handle once
     * (in the table's unspecified order, `attempted`), removes it, and
     * succeeds even when some closes fail (`logged`, the names reported to
     * the log). A later call only returns the error.
     */
    method Close(env: CloseEnv) returns (err: Option<StorageError>, attempted: seq<string>, logged: seq<string>)
      requires Valid()
      modifies this
      ensures Valid()
      ensures (State(), err) == CloseStep(old(State()))
      ensures old(closed.IsSet()) ==> attempted == [] && logged == []
      ensures !old(closed.IsSet()) ==>
        NoDuplicates(attempted) && (forall name :: name in attempted <==> name in old(databaseMap))
      ensures !old(closed.IsSet()) ==> logged == FailedCloses(attempted, old(databaseMap), env)
    {
      if closed.IsSet() {
        return Some(DatabaseManagerClosed), [], [];
      }
      closed := closed.SetTrue();
      attempted, logged := [], [];
      ghost var table := databaseMap;
      while databaseMap != map[]
        invariant closed == old(closed).SetTrue() && table == old(databaseMap)
        invariant forall name :: name in databaseMap ==>
          name in table && databaseMap[name] == table[name] && name !in attempted
        invariant forall name :: name in table <==> name in attempted || name in databaseMap
        invariant NoDuplicates(attempted)
        invariant logged == FailedCloses(attempted, table, env)
        decreases |databaseMap|
      {
        var name :| name in databaseMap;
        var wrap := databaseMap[name];
        if WrapGormDbClose(wrap, env).Some? {
          logged := logged + [name];
        }
        FailedClosesAppend(attempted, name, table, env);
        attempted := attempted + [name];
        databaseMap := databaseMap - {name};
      }
      err := None;
    }
  }

  // ---------------------------------------------------------------------------
  // Sequences of calls on one manager.

  /** One call on the manager, with the foreign outcome a lookup would meet. */
  datatype Call = GetDatabaseCall(name: string, open: Result<GormDb, string>) | CloseCall

  /** What a call returned: a lookup's result and dialed DSN, or Close's error. */
  datatype Reply = Got(result: Result<GormDb, StorageError>, dialed: Option<string>) | Closed(err: Option<StorageError>)

  /** One call's effect. */
  function Step(s: ManagerState, config: Config, call: Call): (r: (ManagerState, Reply))
    ensures Consistent(s, config) ==> Consistent(r.0, config)
    ensures r.0.closed.IsSet() <==> s.closed.IsSet() || call.CloseCall?
  {
    match call
    case GetDatabaseCall(name, open) =>
      var o := GetDatabaseStep(s, config, name, open);
      (o.after, Got(o.result, o.dialed))
    case CloseCall =>
      var (after, err) := CloseStep(s);
      (after, Closed(err))
  }

  /** The state after `calls`, one after another, and the reply to each. */
  function Run(s: ManagerState, config: Config, calls: seq<Call>): (r: (ManagerState, seq<Reply>))
    ensures |r.1| == |calls|
    decreases |calls|
  {
    if calls == [] then (s, [])
    else
      var (s1, reply) := Step(s, config, calls[0]);
      var (s2, replies) := Run(s1, config, calls[1..]);
      (s2, [reply] + replies)
  }

  /** The reply every call gets from a closed manager. */
  function ClosedReply(call: Call): Reply {
    if call.CloseCall? then Closed(Some(DatabaseManagerClosed)) else Got(Failure(DatabaseManagerClosed), None)
  }

  /** Running `a` then `b` is running `a + b`. */
  lemma {:induction false} RunAppend(s: ManagerState, config: Config, a: seq<Call>, b: seq<Call>)
    ensures var ra := Run(s, config, a);
            var rb := Run(ra.0, config, b);
            Run(s, config, a + b) == (rb.0, ra.1 + rb.1)
    decreases |a|
  {
    if a == [] {
      assert a + b == b;
      assert Run(s, config, a) == (s, []);
      assert [] + Run(s, config, b).1 == Run(s, config, b).1;
    } else {
      assert (a + b)[0] == a[0];
      assert (a + b)[1..] == a[1..] + b;
      var (s1, reply) := Step(s, config, a[0]);
      RunAppend(s1, config, a[1..], b);
      var ra := Run(s1, config, a[1..]);
      var rb := Run(ra.0, config, b);
      assert Run(s, config, a) == (ra.0, [reply] + ra.1);
      assert Run(s, config, a + b) == (rb.0, [reply] + (ra.1 + rb.1));
      assert [reply] + (ra.1 + rb.1) == ([reply] + ra.1) + rb.1;
    }
  }

  /** Every reachable state keeps the invariant. */
  lemma {:induction false} RunKeepsConsistent(s: ManagerState, config: Config, calls: seq<Call>)
    requires Consistent(s, config)
    ensures Consistent(Run(s, config, calls).0, config)
    decreases |calls|
  {
    if calls != [] {
      RunKeepsConsistent(Step(s, config, calls[0]).0, config, calls[1..]);
    }
  }

  /** The closed flag is never reset: it is set after `calls` exactly when it was set before or some call was Close. */
  lemma {:induction false} ClosedFlagIsMonotone(s: ManagerState, config: Config, calls: seq<Call>)
    ensures Run(s, config, calls).0.closed.IsSet() <==> s.closed.IsSet() || CloseCall in calls
    decreases |calls|
  {
    if calls != [] {
      ClosedFlagIsMonotone(Step(s, config, calls[0]).0, config, calls[1..]);
      assert CloseCall in calls <==> calls[0] == CloseCall || CloseCall in calls[1..];
    }
  }

  /** Once closed, a manager rejects every lookup and every further Close, and its state never changes. */
  lemma {:induction false} ClosedRejectsEverything(s: ManagerState, config: Config, calls: seq<Call>)
    requires s.closed.IsSet()
    ensures Run(s, config, calls).0 == s
    ensures forall i :: 0 <= i < |calls| ==> Run(s, config, calls).1[i] == ClosedReply(calls[i])
    decreases |calls|
  {
    if calls != [] {
      ClosedRejectsEverything(s, config, calls[1..]);
      var rest := Run(s, config, calls[1..]);
      assert Run(s, config, calls) == (rest.0, [ClosedReply(calls[0])] + rest.1);
      forall i | 0 <= i < |calls|
        ensures Run(s, config, calls).1[i] == ClosedReply(calls[i])
      {
        if i > 0 {
          assert Run(s, config, calls).1[i] == rest.1[i - 1];
        }
      }
    }
  }

  /**
   * Until the manager is closed, a cached handle stays in the table and every
   * lookup of its name returns it without opening anything.
   */
  lemma {:induction false} CachedHandleIsStable(s: ManagerState, config: Config, calls: seq<Call>, name: string)
    requires !s.closed.IsSet() && name in s.databaseMap
    requires CloseCall !in calls
    ensures var r := Run(s, config, calls);
            !r.0.closed.IsSet() && name in r.0.databaseMap && r.0.databaseMap[name] == s.databaseMap[name]
    ensures forall i :: 0 <= i < |calls| && calls[i].GetDatabaseCall? && calls[i].name == name ==>
      Run(s, config, calls).1[i] == Got(Success(s.databaseMap[name].db), None)
    decreases |calls|
  {
    if calls != [] {
      var (s1, reply) := Step(s, config, calls[0]);
      assert calls[0] != CloseCall;
      assert !s1.closed.IsSet() && name in s1.databaseMap && s1.databaseMap[name] == s.databaseMap[name];
      assert CloseCall !in calls[1..] by {
        forall k | 0 <= k < |calls[1..]| ensures calls[1..][k] != CloseCall {
          assert calls[1..][k] == calls[k + 1];
        }
      }
      CachedHandleIsStable(s1, config, calls[1..], name);
      var rest := Run(s1, config, calls[1..]);
      assert Run(s, config, calls) == (rest.0, [reply] + rest.1);
      forall i | 0 <= i < |calls| && calls[i].GetDatabaseCall? && calls[i].name == name
        ensures Run(s, config, calls).1[i] == Got(Success(s.databaseMap[name].db), None)
      {
        if i > 0 {
          assert calls[1..][i - 1] == calls[i];
          assert Run(s, config, calls).1[i] == rest.1[i - 1];
        }
      }
    }
  }

  /**
   * At most one connection per name: between two Close-free lookups of the
   * same name, once the first succeeds the second returns the same handle and
   * opens nothing.
   */
  lemma OneConnectionPerName(s: ManagerState, config: Config, calls: seq<Call>, name: string, i: nat, j: nat)
    requires CloseCall !in calls
    requires i < j < |calls|
    requires calls[i].GetDatabaseCall? && calls[i].name == name
    requires calls[j].GetDatabaseCall? && calls[j].name == name
    requires Run(s, config, calls).1[i].Got? && Run(s, config, calls).1[i].result.Success?
    ensures Run(s, config, calls).1[j] == Got(Run(s, config, calls).1[i].result, None)
  {
    var a, b := calls[..i], calls[i..];
    assert calls == a + b;
    RunAppend(s, config, a, b);
    var ra := Run(s, config, a);
    var (s1, reply) := Step(ra.0, config, b[0]);
    var rest := Run(s1, config, b[1..]);
    assert Run(ra.0, config, b) == (rest.0, [reply] + rest.1);
    assert Run(s, config, calls).1[i] == reply;
    assert CloseCall !in b[1..] by {
      forall k | 0 <= k < |b[1..]| ensures b[1..][k] != CloseCall {
        assert b[1..][k] == calls[i + 1 + k];
      }
    }
    CachedHandleIsStable(s1, config, b[1..], name);
    assert b[1..][j - i - 1] == calls[j];
    assert Run(s, config, calls).1[j] == rest.1[j - i - 1];
  }

  /**
   * A name without a sub-tree fails every time and is never cached, so a
   * failure is never remembered.
   */
  lemma {:induction false} MissingConfigAlwaysFails(s: ManagerState, config: Config, calls: seq<Call>, name: string)
    requires Consistent(s, config) && name !in config
    ensures name !in Run(s, config, calls).0.databaseMap
    ensures forall i :: 0 <= i < |calls| && calls[i].GetDatabaseCall? && calls[i].name == name ==>
      Run(s, config, calls).1[i] in {Got(Failure(NoDatabaseConfig), None), Got(Failure(DatabaseManagerClosed), None)}
    decreases |calls|
  {
    if calls != [] {
      var (s1, reply) := Step(s, config, calls[0]);
      MissingConfigAlwaysFails(s1, config, calls[1..], name);
      var rest := Run(s1, config, calls[1..]);
      assert Run(s, config, calls) == (rest.0, [reply] + rest.1);
      forall i | 0 <= i < |calls| && calls[i].GetDatabaseCall? && calls[i].name == name
        ensures Run(s, config, calls).1[i] in {Got(Failure(NoDatabaseConfig), None), Got(Failure(DatabaseManagerClosed), None)}
      {
        if i > 0 {
          assert calls[1..][i - 1] == calls[i];
          assert Run(s, config, calls).1[i] == rest.1[i - 1];
        }
      }
    }
  }

  /** A failed open stores nothing, so the next lookup of the name tries to open again. */
  lemma FailedOpenIsRetried(s: ManagerState, config: Config, name: string, e: string, open: Result<GormDb, string>)
    requires GetDatabaseStep(s, config, name, Failure(e)).result == Failure(OpenMysqlConn(e))
    ensures GetDatabaseStep(s, config, name, Failure(e)).after == s
    ensures GetDatabaseStep(s, config, name, open).dialed == Some(config[name].dsn)
  {
  }
}
