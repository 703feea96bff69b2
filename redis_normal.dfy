/**
 * The state store `redisNormal`, as an in-memory object: the deploy-request
 * queue, the pool-request queue and the collection of completed deployments
 * (CDS records), with the username check that guards org deletion.
 */
module RedisNormal {
  import opened Wrappers

  /** A point in time; only its `toJSON` form is ever observed. */
  datatype Instant = Instant(epochMillis: int)

  datatype DeployRequest = DeployRequest(
    deployId: string,
    repo: string,
    username: Option<string>,
    whitelisted: Option<bool>,
    pool: Option<bool>,
    createdTimestamp: Instant)

  /** A deploy request as the store hands it back: the timestamp is in its `toJSON` form. */
  datatype StoredRequest = StoredRequest(
    deployId: string,
    repo: string,
    username: Option<string>,
    whitelisted: Option<bool>,
    pool: Option<bool>,
    createdTimestamp: string)

  datatype PoolConfig = PoolConfig(user: string, repo: string, quantity: int, lifeHours: int)

  datatype MainUser = MainUser(username: string, loginUrl: string)

  datatype HerokuResult = HerokuResult(appName: string, openUrl: string, dashboardUrl: string)

  /** A completed-deployment record. */
  datatype CDS = CDS(deployId: string, mainUser: MainUser, complete: bool, herokuResults: seq<HerokuResult>)

  /** The request after a trip through the store's JSON encoding. */
  function Serialized(req: DeployRequest, toJson: Instant -> string): (s: StoredRequest)
    ensures s.deployId == req.deployId && s.repo == req.repo && s.username == req.username
    ensures s.whitelisted == req.whitelisted && s.pool == req.pool
    ensures s.createdTimestamp == toJson(req.createdTimestamp)
  {
    StoredRequest(req.deployId, req.repo, req.username, req.whitelisted, req.pool, toJson(req.createdTimestamp))
  }

  /**
   * Storing loses nothing: when `toJSON` tells instants apart, two requests
   * with the same stored form are the same request.
   */
  lemma SerializedLossless(a: DeployRequest, b: DeployRequest, toJson: Instant -> string)
    requires forall x, y :: toJson(x) == toJson(y) ==> x == y
    requires Serialized(a, toJson) == Serialized(b, toJson)
    ensures a == b
  {
    assert toJson(a.createdTimestamp) == toJson(b.createdTimestamp);
  }

  predicate MatchesPool(req: StoredRequest, config: PoolConfig) {
    req.username == Some(config.user) && req.repo == config.repo
  }

  /** Number of queued pool requests for the user and repository of `config`. */
  function PoolCount(queue: seq<StoredRequest>, config: PoolConfig): (n: nat)
    ensures n <= |queue|
    ensures n == 0 <==> forall k :: 0 <= k < |queue| ==> !MatchesPool(queue[k], config)
  {
    if queue == [] then 0
    else (if MatchesPool(queue[0], config) then 1 else 0) + PoolCount(queue[1..], config)
  }

  function AppNamesOf(results: seq<HerokuResult>): (names: seq<string>)
    ensures |names| == |results|
    ensures forall k :: 0 <= k < |results| ==> names[k] == results[k].appName
  {
    seq(|results|, k requires 0 <= k < |results| => results[k].appName)
  }

  predicate BelongsTo(cds: CDS, username: string) {
    cds.mainUser.username == username
  }

  /** The app names of every record of `username`, record by record, in order. */
  function AppNames(cdss: seq<CDS>, username: string): (names: seq<string>)
    ensures (forall k :: 0 <= k < |cdss| ==> !BelongsTo(cdss[k], username)) ==> names == []
  {
    if cdss == [] then []
    else (if BelongsTo(cdss[0], username) then AppNamesOf(cdss[0].herokuResults) else [])
         + AppNames(cdss[1..], username)
  }

  /** The records left once those of `username` are consumed. */
  function Remaining(cdss: seq<CDS>, username: string): (r: seq<CDS>)
    ensures |r| <= |cdss|
    ensures forall k :: 0 <= k < |r| ==> !BelongsTo(r[k], username) && r[k] in cdss
  {
    if cdss == [] then []
    else (if BelongsTo(cdss[0], username) then [] else [cdss[0]]) + Remaining(cdss[1..], username)
  }

  /** Every character of the username is on the allow-list. */
  predicate ValidUsername(username: string, allowed: set<char>) {
    forall k :: 0 <= k < |username| ==> username[k] in allowed
  }

  /** Letters, digits, `@`, `.`, `-` and `_`. */
  const DefaultUsernameChars: set<char> :=
    (set c: char | 'a' <= c <= 'z') + (set c: char | 'A' <= c <= 'Z')
    + (set c: char | '0' <= c <= '9') + {'@', '.', '-', '_'}

  class Store {
    var deployQueue: seq<StoredRequest>
    var poolQueue: seq<StoredRequest>
    var herokuCDSs: seq<CDS>
    /** The characters `deleteOrg` admits in a username. */
    const usernameChars: set<char>
    /** `Date.prototype.toJSON`. */
    const toJson: Instant -> string

    constructor (usernameChars: set<char>, toJson: Instant -> string)
      ensures this.usernameChars == usernameChars && this.toJson == toJson
      ensures deployQueue == [] && poolQueue == [] && herokuCDSs == []
    {
      this.usernameChars := usernameChars;
      this.toJson := toJson;
      deployQueue, poolQueue, herokuCDSs := [], [], [];
    }

    /** `putDeployRequest`: appends the serialised request to the deploy queue. */
    method PutDeployRequest(req: DeployRequest)
      modifies this`deployQueue
      ensures deployQueue == old(deployQueue) + [Serialized(req, toJson)]
    {
      deployQueue := deployQueue + [Serialized(req, toJson)];
    }

    /** `getDeployRequest`: takes the oldest request off the deploy queue, if there is one. */
    method GetDeployRequest() returns (msg: Option<StoredRequest>)
      modifies this`deployQueue
      ensures old(deployQueue) == [] ==> msg == None && deployQueue == []
      ensures old(deployQueue) != [] ==>
        msg == Some(old(deployQueue)[0]) && deployQueue == old(deployQueue)[1..]
    {
      if deployQueue == [] {
        msg := None;
      } else {
        msg := Some(deployQueue[0]);
        deployQueue := deployQueue[1..];
      }
    }

    /** `putPoolRequest`: appends the serialised request to the pool queue. */
    method PutPoolRequest(req: DeployRequest)
      modifies this`poolQueue
      ensures poolQueue == old(poolQueue) + [Serialized(req, toJson)]
    {
      poolQueue := poolQueue + [Serialized(req, toJson)];
    }

    /** `getPoolDeployRequestQueueSize`. */
    method GetPoolDeployRequestQueueSize() returns (n: nat)
      ensures n == |poolQueue|
    {
      n := |poolQueue|;
    }

    /** `getPoolDeployCountByRepo`: counts the queued pool requests of `config`'s user and repository. */
    method GetPoolDeployCountByRepo(config: PoolConfig) returns (n: nat)
      ensures n == PoolCount(poolQueue, config)
    {
      var queue := poolQueue;
      n := 0;
      var i := 0;
      while i < |queue|
        invariant 0 <= i <= |queue|
        invariant n == PoolCount(queue[..i], config)
      {
        assert queue[..i + 1] == queue[..i] + [queue[i]];
        PoolCountAppend(queue[..i], [queue[i]], config);
        if MatchesPool(queue[i], config) {
          n := n + 1;
        }
        i := i + 1;
      }
      assert queue[..i] == queue;
    }

    /** `putHerokuCDS`: records a completed deployment. */
    method PutHerokuCDS(cds: CDS)
      modifies this`herokuCDSs
      ensures herokuCDSs == old(herokuCDSs) + [cds]
    {
      herokuCDSs := herokuCDSs + [cds];
    }

    /** `getHerokuCDSs`: every recorded deployment, leaving them in place. */
    method GetHerokuCDSs() returns (cdss: seq<CDS>)
      ensures cdss == herokuCDSs
    {
      cdss := herokuCDSs;
    }

    /**
     * `getAppNamesFromHerokuCDSs`: the app names of the user's records, which
     * are consumed: they are removed from the collection.
     */
    method GetAppNamesFromHerokuCDSs(username: string) returns (names: seq<string>)
      modifies this`herokuCDSs
      ensures names == AppNames(old(herokuCDSs), username)
      ensures herokuCDSs == Remaining(old(herokuCDSs), username)
    {
      var all := herokuCDSs;
      var kept := [];
      names := [];
      var i := 0;
      while i < |all|
        invariant 0 <= i <= |all|
        invariant names == AppNames(all[..i], username)
        invariant kept == Remaining(all[..i], username)
      {
        ConsumeStep(all, i, username);
        if BelongsTo(all[i], username) {
          names := names + AppNamesOf(all[i].herokuResults);
        } else {
          kept := kept + [all[i]];
        }
        i := i + 1;
      }
      assert all[..i] == all;
      herokuCDSs := kept;
    }

    /**
     * `deleteOrg`: refuses a username with a character off the allow-list,
     * before anything else happens; otherwise succeeds with no result.
     */
    method DeleteOrg(username: string) returns (outcome: Outcome<string>)
      ensures outcome == Pass <==> ValidUsername(username, usernameChars)
      ensures outcome != Pass ==> outcome == Fail("invalid username " + username)
    {
      if forall k | 0 <= k < |username| :: username[k] in usernameChars {
        outcome := Pass;
      } else {
        outcome := Fail("invalid username " + username);
      }
    }
  }

  // ---------------------------------------------------------------------------
  // Pool accounting

  lemma {:induction false} PoolCountAppend(a: seq<StoredRequest>, b: seq<StoredRequest>, config: PoolConfig)
    ensures PoolCount(a + b, config) == PoolCount(a, config) + PoolCount(b, config)
  {
    if a == [] {
      assert a + b == b;
    } else {
      assert (a + b)[1..] == a[1..] + b;
      PoolCountAppend(a[1..], b, config);
    }
  }

  /** Queuing a pool request changes the count of `config` exactly when it matches `config`. */
  lemma PoolCountAfterPut(queue: seq<StoredRequest>, req: StoredRequest, config: PoolConfig)
    ensures PoolCount(queue + [req], config)
         == PoolCount(queue, config) + (if MatchesPool(req, config) then 1 else 0)
  {
    PoolCountAppend(queue, [req], config);
    assert [req][1..] == [];
  }

  // ---------------------------------------------------------------------------
  // Consuming completed deployments

  lemma {:induction false} AppNamesAppend(a: seq<CDS>, b: seq<CDS>, username: string)
    ensures AppNames(a + b, username) == AppNames(a, username) + AppNames(b, username)
  {
    if a == [] {
      assert a + b == b;
    } else {
      assert (a + b)[1..] == a[1..] + b;
      AppNamesAppend(a[1..], b, username);
    }
  }

  lemma {:induction false} RemainingAppend(a: seq<CDS>, b: seq<CDS>, username: string)
    ensures Remaining(a + b, username) == Remaining(a, username) + Remaining(b, username)
  {
    if a == [] {
      assert a + b == b;
    } else {
      assert (a + b)[1..] == a[1..] + b;
      RemainingAppend(a[1..], b, username);
    }
  }

  /** Consuming one more record: its app names and whether it is kept. */
  lemma ConsumeStep(all: seq<CDS>, i: nat, username: string)
    requires i < |all|
    ensures AppNames(all[..i + 1], username)
         == AppNames(all[..i], username) + (if BelongsTo(all[i], username) then AppNamesOf(all[i].herokuResults) else [])
    ensures Remaining(all[..i + 1], username)
         == Remaining(all[..i], username) + (if BelongsTo(all[i], username) then [] else [all[i]])
  {
    assert all[..i + 1] == all[..i] + [all[i]];
    AppNamesAppend(all[..i], [all[i]], username);
    RemainingAppend(all[..i], [all[i]], username);
    assert [all[i]][1..] == [];
  }

  lemma {:induction false} RemainingKeepsOthers(cdss: seq<CDS>, username: string, k: nat)
    requires k < |cdss| && !BelongsTo(cdss[k], username)
    ensures cdss[k] in Remaining(cdss, username)
  {
    if k > 0 {
      RemainingKeepsOthers(cdss[1..], username, k - 1);
    }
  }

  /** A record is either consumed or kept: nothing is lost and nothing is duplicated. */
  lemma {:induction false} ConsumedPlusRemaining(cdss: seq<CDS>, username: string)
    ensures |Remaining(cdss, username)| + |Owned(cdss, username)| == |cdss|
  {
    if cdss != [] {
      ConsumedPlusRemaining(cdss[1..], username);
    }
  }

  /** The records of `username`, in order: those a read for that user consumes. */
  function Owned(cdss: seq<CDS>, username: string): seq<CDS> {
    if cdss == [] then []
    else (if BelongsTo(cdss[0], username) then [cdss[0]] else []) + Owned(cdss[1..], username)
  }

  /** Every app name of every record, record by record, in order. */
  function AllAppNames(records: seq<CDS>): seq<string> {
    if records == [] then [] else AppNamesOf(records[0].herokuResults) + AllAppNames(records[1..])
  }

  /** The names handed back are exactly the app names of the records that are consumed. */
  lemma {:induction false} AppNamesOfConsumed(cdss: seq<CDS>, username: string)
    ensures AppNames(cdss, username) == AllAppNames(Owned(cdss, username))
  {
    if cdss != [] {
      AppNamesOfConsumed(cdss[1..], username);
      var rest := Owned(cdss[1..], username);
      if BelongsTo(cdss[0], username) {
        assert ([cdss[0]] + rest)[1..] == rest;
      } else {
        assert [] + rest == rest;
      }
    }
  }

  /** A second request for a consumed user finds nothing, and consumes nothing more. */
  lemma {:induction false} ConsumeTwice(cdss: seq<CDS>, username: string)
    ensures AppNames(Remaining(cdss, username), username) == []
    ensures Remaining(Remaining(cdss, username), username) == Remaining(cdss, username)
  {
    if cdss != [] {
      ConsumeTwice(cdss[1..], username);
      var rest := Remaining(cdss[1..], username);
      if !BelongsTo(cdss[0], username) {
        assert Remaining(cdss, username) == [cdss[0]] + rest;
        assert ([cdss[0]] + rest)[1..] == rest;
        assert AppNames([cdss[0]] + rest, username) == [] + AppNames(rest, username);
      } else {
        assert Remaining(cdss, username) == [] + rest == rest;
      }
    }
  }

  /** Consuming one user's records leaves every other user's app names as they were. */
  lemma {:induction false} ConsumeLeavesOthers(cdss: seq<CDS>, username: string, other: string)
    requires other != username
    ensures AppNames(Remaining(cdss, username), other) == AppNames(cdss, other)
  {
    if cdss != [] {
      ConsumeLeavesOthers(cdss[1..], username, other);
      var rest := Remaining(cdss[1..], username);
      if !BelongsTo(cdss[0], username) {
        assert Remaining(cdss, username) == [cdss[0]] + rest;
        assert ([cdss[0]] + rest)[1..] == rest;
        assert ([cdss[0]] + rest)[0] == cdss[0];
      } else {
        assert Remaining(cdss, username) == [] + rest == rest;
        assert AppNames(cdss, other) == [] + AppNames(cdss[1..], other);
      }
    }
  }
}
