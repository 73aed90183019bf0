/**
 * The cache-client manager of pkg/storage/redis.go: a table from Redis name
 * to a connected client, filled lazily on first lookup and drained once by
 * Close. It follows the database manager, with two differences: there is no
 * adapter check, and the connection is checked by a ping after the client is
 * built.
 *
 * The manager is modelled for one caller at a time. Foreign calls are
 * parameters: the client `redis.NewClient` builds, the outcome of its ping,
 * and the error each client's `Close` gives.
 */
module Redis {
  import opened Wrappers
  import opened StorageBase

  /** An opaque token for the `*redis.Client` that `redis.NewClient` returns. */
  datatype RedisClient = RedisClient(id: nat)

  /** The table's entry: a wrapper around the client. */
  datatype WrapRedis = WrapRedis(client: RedisClient)

  /** A Redis name's sub-tree of the `redis` configuration section. */
  datatype RedisConfig = RedisConfig(address: string, password: string, db: int)

  /** The `redis` section: names that have a sub-tree map to it. */
  type Config = map<string, RedisConfig>

  /** The options handed to `redis.NewClient`. */
  datatype RedisOptions = RedisOptions(addr: string, password: string, db: int)

  /** The options a sub-tree yields: its address, password and database index. */
  function OptionsOf(c: RedisConfig): RedisOptions {
    RedisOptions(c.address, c.password, c.db)
  }

  /**
   * `WrapRedis.Close`: a nil wrapper closes nothing and succeeds; otherwise
   * the client's own close error, if any, is returned.
   */
  function WrapRedisClose(w: Option<WrapRedis>, closeErrors: map<RedisClient, string>): (err: Option<string>)
    ensures w.None? ==> err == None
    ensures w.Some? ==> (err.Some? <==> w.value.client in closeErrors)
    ensures err.Some? ==> w.Some? && err.value == closeErrors[w.value.client]
  {
    match w
    case None => None
    case Some(wrap) => if wrap.client in closeErrors then Some(closeErrors[wrap.client]) else None
  }

  /** The manager's mutable state: its table and its closed flag. */
  datatype ManagerState = ManagerState(redisMap: map<string, WrapRedis>, closed: AtomicBool)

  /** The state `NewRedisManager` builds: an empty table, not closed. */
  const Fresh: ManagerState := ManagerState(map[], Unset)

  /**
   * The invariant every reachable state keeps: a closed manager holds no
   * client, and every stored client was built from a configured sub-tree.
   */
  predicate Consistent(s: ManagerState, config: Config) {
    (s.closed.IsSet() ==> s.redisMap == map[]) &&
    forall name :: name in s.redisMap ==> name in config
  }

  /**
   * The result of one lookup: the state after it, what it returned, and the
   * options handed to `redis.NewClient` if the lookup built a client.
   */
  datatype Lookup = Lookup(after: ManagerState, result: Result<RedisClient, StorageError>, dialed: Option<RedisOptions>)

  /**
   * `RedisManager.GetRedis` as a function of the state before it. `client`
   * is what `redis.NewClient` builds if it is called, and `ping` the error
   * its ping gives, if any.
   */
  function GetRedisStep(s: ManagerState, config: Config, name: string, client: RedisClient, ping: Option<string>): (o: Lookup)
    // A closed manager rejects the lookup and changes nothing.
    ensures s.closed.IsSet() ==> o == Lookup(s, Failure(RedisManagerClosed), None)
    // A cached name yields exactly its stored client, and no client is built.
    ensures !s.closed.IsSet() && name in s.redisMap ==> o == Lookup(s, Success(s.redisMap[name].client), None)
    // No adapter check: every miss with a sub-tree builds a client from it.
    ensures o.dialed.Some? <==> !s.closed.IsSet() && name !in s.redisMap && name in config
    // The client is built from the sub-tree's address, password and database index.
    ensures o.dialed.Some? ==>
      name in config && o.dialed.value.addr == config[name].address &&
      o.dialed.value.password == config[name].password && o.dialed.value.db == config[name].db
    ensures o.result == Failure(NoRedisConfig) <==> !s.closed.IsSet() && name !in s.redisMap && name !in config
    ensures (o.result.Failure? && o.result.error.PingRedis?) <==> o.dialed.Some? && ping.Some?
    ensures o.result.Failure? && o.result.error.PingRedis? ==> o.result.error.cause == ping.value
    // These three are the only errors a lookup returns.
    ensures o.result.Failure? ==>
      o.result.error == RedisManagerClosed || o.result.error == NoRedisConfig || o.result.error.PingRedis?
    // A miss with a sub-tree whose ping succeeds returns the new client and caches it.
    ensures o.dialed.Some? && ping.None? ==>
      o.result == Success(client) && o.after == s.(redisMap := s.redisMap[name := WrapRedis(client)])
    // A failure stores nothing; the closed flag never changes here.
    ensures o.result.Failure? ==> o.after == s
    ensures o.after.closed == s.closed
    // A success leaves `name` bound to the returned client; a newly built
    // client is the one entry added and the rest of the table is untouched.
    ensures o.result.Success? ==>
      !s.closed.IsSet() && name in o.after.redisMap && o.after.redisMap[name].client == o.result.value
    ensures o.after != s ==>
      o.dialed.Some? && ping.None? && o.result == Success(client) &&
      o.after.redisMap == s.redisMap[name := WrapRedis(client)]
    ensures Consistent(s, config) ==> Consistent(o.after, config)
  {
    if s.closed.IsSet() then Lookup(s, Failure(RedisManagerClosed), None)
    else if name in s.redisMap then Lookup(s, Success(s.redisMap[name].client), None)
    else if name !in config then Lookup(s, Failure(NoRedisConfig), None)
    else
      var options := OptionsOf(config[name]);
      match ping
      case Some(e) => Lookup(s, Failure(PingRedis(e)), Some(options))
      case None => Lookup(s.(redisMap := s.redisMap[name := WrapRedis(client)]), Success(client), Some(options))
  }

  /**
   * `RedisManager.Close` as a function of the state before it. A second Close
   * reports the database manager's error, as the source does.
   */
  function CloseStep(s: ManagerState): (r: (ManagerState, Option<StorageError>))
    ensures s.closed.IsSet() ==> r == (s, Some(DatabaseManagerClosed))
    ensures !s.closed.IsSet() ==> r.1 == None && r.0.closed.IsSet() && r.0.redisMap == map[]
  {
    if s.closed.IsSet() then (s, Some(DatabaseManagerClosed))
    else (ManagerState(map[], s.closed.SetTrue()), None)
  }

  /**
   * The names among `attempted` whose client failed to close, in order:
   * the ones Close reports to the log.
   */
  function FailedCloses(attempted: seq<string>, table: map<string, WrapRedis>, closeErrors: map<RedisClient, string>): (failed: seq<string>)
    requires forall name :: name in attempted ==> name in table
    ensures forall name :: name in failed <==> name in attempted && WrapRedisClose(Some(table[name]), closeErrors).Some?
    ensures |failed| <= |attempted|
  {
    if attempted == [] then []
    else
      var last := attempted[|attempted| - 1];
      var before := FailedCloses(attempted[..|attempted| - 1], table, closeErrors);
      assert forall name :: name in attempted <==> name in attempted[..|attempted| - 1] || name == last;
      if WrapRedisClose(Some(table[last]), closeErrors).Some? then before + [last] else before
  }

  /** Attempting one more close extends the log by that name exactly when it fails. */
  lemma FailedClosesAppend(attempted: seq<string>, name: string, table: map<string, WrapRedis>, closeErrors: map<RedisClient, string>)
    requires forall n :: n in attempted ==> n in table
    requires name in table
    ensures forall n :: n in attempted + [name] ==> n in table
    ensures FailedCloses(attempted + [name], table, closeErrors) ==
      FailedCloses(attempted, table, closeErrors) + (if WrapRedisClose(Some(table[name]), closeErrors).Some? then [name] else [])
  {
    assert (attempted + [name])[..|attempted|] == attempted;
  }

  class RedisManager {
    const config: Config
    var redisMap: map<string, WrapRedis>
    var closed: AtomicBool

    function State(): ManagerState
      reads this
    {
      ManagerState(redisMap, closed)
    }

    ghost predicate Valid()
      reads this
    {
      Consistent(State(), config)
    }

    /** `NewRedisManager`: an empty table and the flag unset. */
    constructor (config: Config)
      ensures this.config == config && State() == Fresh && Valid()
    {
      this.config := config;
      redisMap := map[];
      closed := Unset;
    }

    /**
     * `GetRedis`: returns the client for `name`, building, pinging and caching
     * it on first use. `dialed` is the options `redis.NewClient` was called
     * with, or None if it was not called.
     */
    method GetRedis(name: string, client: RedisClient, ping: Option<string>)
      returns (rdb: Result<RedisClient, StorageError>, dialed: Option<RedisOptions>)
      requires Valid()
      modifies this
      ensures Valid()
      ensures Lookup(State(), rdb, dialed) == GetRedisStep(old(State()), config, name, client, ping)
    {
      if closed.IsSet() {
        return Failure(RedisManagerClosed), None;
      }
      if name in redisMap {
        return Success(redisMap[name].client), None;
      }
      if name !in config {
        return Failure(NoRedisConfig), None;
      }
      var sub := config[name];
      // The mutex is taken here; for one caller at a time the re-check of the
      // table under it sees the same table as above and cannot hit.
      dialed := Some(RedisOptions(sub.address, sub.password, sub.db));
      if ping.Some? {
        return Failure(PingRedis(ping.value)), dialed;
      }
      redisMap := redisMap[name := WrapRedis(client)];
      rdb := Success(client);
    }

    /**
     * `Close`: the first call sets the flag, closes every stored client once
     * (in the table's unspecified order, `attempted`), removes it, and
     * succeeds even when some closes fail (`logged`). A later call only
     * returns the error.
     */
    method Close(closeErrors: map<RedisClient, string>) returns (err: Option<StorageError>, attempted: seq<string>, logged: seq<string>)
      requires Valid()
      modifies this
      ensures Valid()
      ensures (State(), err) == CloseStep(old(State()))
      ensures old(closed.IsSet()) ==> attempted == [] && logged == []
      ensures !old(closed.IsSet()) ==>
        NoDuplicates(attempted) && (forall name :: name in attempted <==> name in old(redisMap))
      ensures !old(closed.IsSet()) ==> logged == FailedCloses(attempted, old(redisMap), closeErrors)
    {
      if closed.IsSet() {
        return Some(DatabaseManagerClosed), [], [];
      }
      closed := closed.SetTrue();
      attempted, logged := [], [];
      ghost var table := redisMap;
      while redisMap != map[]
        invariant closed == old(closed).SetTrue() && table == old(redisMap)
        invariant forall name :: name in redisMap ==>
          name in table && redisMap[name] == table[name] && name !in attempted
        invariant forall name :: name in table <==> name in attempted || name in redisMap
        invariant NoDuplicates(attempted)
        invariant logged == FailedCloses(attempted, table, closeErrors)
        decreases |redisMap|
      {
        var name :| name in redisMap;
        var wrap := redisMap[name];
        if WrapRedisClose(Some(wrap), closeErrors).Some? {
          logged := logged + [name];
        }
        FailedClosesAppend(attempted, name, table, closeErrors);
        attempted := attempted + [name];
        redisMap := redisMap - {name};
      }
      err := None;
    }
  }

  // ---------------------------------------------------------------------------
  // Sequences of calls on one manager.

  /** One call on the manager, with the foreign outcomes a lookup would meet. */
  datatype Call = GetRedisCall(name: string, client: RedisClient, ping: Option<string>) | CloseCall

  /** What a call returned: a lookup's result and dialed options, or Close's error. */
  datatype Reply = Got(result: Result<RedisClient, StorageError>, dialed: Option<RedisOptions>) | Closed(err: Option<StorageError>)

  /** One call's effect. */
  function Step(s: ManagerState, config: Config, call: Call): (r: (ManagerState, Reply))
    ensures Consistent(s, config) ==> Consistent(r.0, config)
    ensures r.0.closed.IsSet() <==> s.closed.IsSet() || call.CloseCall?
  {
    match call
    case GetRedisCall(name, client, ping) =>
      var o := GetRedisStep(s, config, name, client, ping);
      (o.after, Got(o.result, o.dialed))
    case CloseCall =>
      var (after, err) := CloseStep(s);
      (after, Closed(err))
  }

  /** The state after `calls`, one after another, and the reply to each. */
  function Run(s: ManagerState, config: Config, calls: seq<Call>): (r: (ManagerState, seq<Reply>))
    ensures |r.1| == |calls|
    decreases |calls|
  {
    if calls == [] then (s, [])
    else
      var (s1, reply) := Step(s, config, calls[0]);
      var (s2, replies) := Run(s1, config, calls[1..]);
      (s2, [reply] + replies)
  }

  /** The reply every call gets from a closed manager. */
  function ClosedReply(call: Call): Reply {
    if call.CloseCall? then Closed(Some(DatabaseManagerClosed)) else Got(Failure(RedisManagerClosed), None)
  }

  /** Running `a` then `b` is running `a + b`. */
  lemma {:induction false} RunAppend(s: ManagerState, config: Config, a: seq<Call>, b: seq<Call>)
    ensures var ra := Run(s, config, a);
            var rb := Run(ra.0, config, b);
            Run(s, config, a + b) == (rb.0, ra.1 + rb.1)
    decreases |a|
  {
    if a == [] {
      assert a + b == b;
      assert Run(s, config, a) == (s, []);
      assert [] + Run(s, config, b).1 == Run(s, config, b).1;
    } else {
      assert (a + b)[0] == a[0];
      assert (a + b)[1..] == a[1..] + b;
      var (s1, reply) := Step(s, config, a[0]);
      RunAppend(s1, config, a[1..], b);
      var ra := Run(s1, config, a[1..]);
      var rb := Run(ra.0, config, b);
      assert Run(s, config, a) == (ra.0, [reply] + ra.1);
      assert Run(s, config, a + b) == (rb.0, [reply] + (ra.1 + rb.1));
      assert [reply] + (ra.1 + rb.1) == ([reply] + ra.1) + rb.1;
    }
  }

  /** Every reachable state keeps the invariant. */
  lemma {:induction false} RunKeepsConsistent(s: ManagerState, config: Config, calls: seq<Call>)
    requires Consistent(s, config)
    ensures Consistent(Run(s, config, calls).0, config)
    decreases |calls|
  {
    if calls != [] {
      RunKeepsConsistent(Step(s, config, calls[0]).0, config, calls[1..]);
    }
  }

  /** The closed flag is never reset: it is set after `calls` exactly when it was set before or some call was Close. */
  lemma {:induction false} ClosedFlagIsMonotone(s: ManagerState, config: Config, calls: seq<Call>)
    ensures Run(s, config, calls).0.closed.IsSet() <==> s.closed.IsSet() || CloseCall in calls
    decreases |calls|
  {
    if calls != [] {
      ClosedFlagIsMonotone(Step(s, config, calls[0]).0, config, calls[1..]);
      assert CloseCall in calls <==> calls[0] == CloseCall || CloseCall in calls[1..];
    }
  }

  /** Once closed, a manager rejects every lookup and every further Close, and its state never changes. */
  lemma {:induction false} ClosedRejectsEverything(s: ManagerState, config: Config, calls: seq<Call>)
    requires s.closed.IsSet()
    ensures Run(s, config, calls).0 == s
    ensures forall i :: 0 <= i < |calls| ==> Run(s, config, calls).1[i] == ClosedReply(calls[i])
    decreases |calls|
  {
    if calls != [] {
      ClosedRejectsEverything(s, config, calls[1..]);
      var rest := Run(s, config, calls[1..]);
      assert Run(s, config, calls) == (rest.0, [ClosedReply(calls[0])] + rest.1);
      forall i | 0 <= i < |calls|
        ensures Run(s, config, calls).1[i] == ClosedReply(calls[i])
      {
        if i > 0 {
          assert Run(s, config, calls).1[i] == rest.1[i - 1];
        }
      }
    }
  }

  /**
   * Until the manager is closed, a cached client stays in the table and every
   * lookup of its name returns it without building a new one.
   */
  lemma {:induction false} CachedClientIsStable(s: ManagerState, config: Config, calls: seq<Call>, name: string)
    requires !s.closed.IsSet() && name in s.redisMap
    requires CloseCall !in calls
    ensures var r := Run(s, config, calls);
            !r.0.closed.IsSet() && name in r.0.redisMap && r.0.redisMap[name] == s.redisMap[name]
    ensures forall i :: 0 <= i < |calls| && calls[i].GetRedisCall? && calls[i].name == name ==>
      Run(s, config, calls).1[i] == Got(Success(s.redisMap[name].client), None)
    decreases |calls|
  {
    if calls != [] {
      var (s1, reply) := Step(s, config, calls[0]);
      assert calls[0] != CloseCall;
      assert !s1.closed.IsSet() && name in s1.redisMap && s1.redisMap[name] == s.redisMap[name];
      assert CloseCall !in calls[1..] by {
        forall k | 0 <= k < |calls[1..]| ensures calls[1..][k] != CloseCall {
          assert calls[1..][k] == calls[k + 1];
        }
      }
      CachedClientIsStable(s1, config, calls[1..], name);
      var rest := Run(s1, config, calls[1..]);
      assert Run(s, config, calls) == (rest.0, [reply] + rest.1);
      forall i | 0 <= i < |calls| && calls[i].GetRedisCall? && calls[i].name == name
        ensures Run(s, config, calls).1[i] == Got(Success(s.redisMap[name].client), None)
      {
        if i > 0 {
          assert calls[1..][i - 1] == calls[i];
          assert Run(s, config, calls).1[i] == rest.1[i - 1];
        }
      }
    }
  }

  /**
   * At most one client per name: between two Close-free lookups of the same
   * name, once the first succeeds the second returns the same client and
   * builds nothing.
   */
  lemma OneClientPerName(s: ManagerState, config: Config, calls: seq<Call>, name: string, i: nat, j: nat)
    requires CloseCall !in calls
    requires i < j < |calls|
    requires calls[i].GetRedisCall? && calls[i].name == name
    requires calls[j].GetRedisCall? && calls[j].name == name
    requires Run(s, config, calls).1[i].Got? && Run(s, config, calls).1[i].result.Success?
    ensures Run(s, config, calls).1[j] == Got(Run(s, config, calls).1[i].result, None)
  {
    var a, b := calls[..i], calls[i..];
    assert calls == a + b;
    RunAppend(s, config, a, b);
    var ra := Run(s, config, a);
    var (s1, reply) := Step(ra.0, config, b[0]);
    var rest := Run(s1, config, b[1..]);
    assert Run(ra.0, config, b) == (rest.0, [reply] + rest.1);
    assert Run(s, config, calls).1[i] == reply;
    assert CloseCall !in b[1..] by {
      forall k | 0 <= k < |b[1..]| ensures b[1..][k] != CloseCall {
        assert b[1..][k] == calls[i + 1 + k];
      }
    }
    CachedClientIsStable(s1, config, b[1..], name);
    assert b[1..][j - i - 1] == calls[j];
    assert Run(s, config, calls).1[j] == rest.1[j - i - 1];
  }

  /**
   * A name without a sub-tree fails every time and is never cached, so a
   * failure is never remembered.
   */
  lemma {:induction false} MissingConfigAlwaysFails(s: ManagerState, config: Config, calls: seq<Call>, name: string)
    requires Consistent(s, config) && name !in config
    ensures name !in Run(s, config, calls).0.redisMap
    ensures forall i :: 0 <= i < |calls| && calls[i].GetRedisCall? && calls[i].name == name ==>
      Run(s, config, calls).1[i] in {Got(Failure(NoRedisConfig), None), Got(Failure(RedisManagerClosed), None)}
    decreases |calls|
  {
    if calls != [] {
      var (s1, reply) := Step(s, config, calls[0]);
      MissingConfigAlwaysFails(s1, config, calls[1..], name);
      var rest := Run(s1, config, calls[1..]);
      assert Run(s, config, calls) == (rest.0, [reply] + rest.1);
      forall i | 0 <= i < |calls| && calls[i].GetRedisCall? && calls[i].name == name
        ensures Run(s, config, calls).1[i] in {Got(Failure(NoRedisConfig), None), Got(Failure(RedisManagerClosed), None)}
      {
        if i > 0 {
          assert calls[1..][i - 1] == calls[i];
          assert Run(s, config, calls).1[i] == rest.1[i - 1];
        }
      }
    }
  }

  /** A failed ping stores nothing, so the next lookup of the name builds and pings a client again. */
  lemma FailedPingIsRetried(s: ManagerState, config: Config, name: string, client: RedisClient, e: string,
                            client': RedisClient, ping: Option<string>)
    requires GetRedisStep(s, config, name, client, Some(e)).result == Failure(PingRedis(e))
    ensures GetRedisStep(s, config, name, client, Some(e)).after == s
    ensures GetRedisStep(s, config, name, client', ping).dialed == Some(OptionsOf(config[name]))
  {
  }

  /** A second Close of the Redis manager reports the database manager's message, not the Redis one. */
  lemma SecondCloseSaysDatabase(s: ManagerState)
    requires s.closed.IsSet()
    ensures CloseStep(s).1 == Some(DatabaseManagerClosed)
    ensures CloseStep(s).1.value.Message() == "database manager closed"
    ensures CloseStep(s).1.value.Message() != RedisManagerClosed.Message()
  {
  }
}
