/**
 * The unit tests of the store (test/unitTests/redisNormal.test.ts), each run
 * on a fresh store as a method whose postcondition states what the test
 * expects.
 */
module RedisNormalCases {
  import opened Wrappers
  import opened RedisNormal

  /** The usernames of redisNormal.test.ts:88 and :92. */
  const BadName: string := "hack@you.bad;wget"
  const GoodName: string := "sweet@you.good"

  /**
   * What the tests pin of the username allow-list: every character of the
   * admitted name is allowed, and some character of the refused one is not.
   */
  predicate PinnedUsernameChars(allowed: set<char>) {
    ValidUsername(GoodName, allowed) && !ValidUsername(BadName, allowed)
  }

  const Cds1: CDS := CDS(
    "test1",
    MainUser("test1@mailinator.com", "x"),
    true,
    [HerokuResult("testApp1a", "x", "x")])

  const Cds2: CDS := CDS(
    "test2",
    MainUser("test2@mailinator.com", "x"),
    true,
    [HerokuResult("testApp2a", "x", "x"), HerokuResult("testApp2b", "x", "x")])

  // redisNormal.test.ts:35-76
  method HerokuCdsFunctions(usernameChars: set<char>, toJson: Instant -> string)
    returns (stored: seq<CDS>, appNames: seq<string>, again: seq<string>, remaining: seq<CDS>)
    ensures |stored| == 2 && forall k :: 0 <= k < |stored| ==> stored[k].herokuResults != []
    ensures appNames == ["testApp2a", "testApp2b"]
    ensures again == []
    ensures |remaining| == 1 && remaining == [Cds1]
  {
    var store := new Store(usernameChars, toJson);
    store.PutHerokuCDS(Cds1);
    store.PutHerokuCDS(Cds2);
    stored := store.GetHerokuCDSs();
    assert stored == [Cds1, Cds2];
    appNames := store.GetAppNamesFromHerokuCDSs("test2@mailinator.com");
    remaining := store.GetHerokuCDSs();
    ConsumeTwice(stored, "test2@mailinator.com");
    again := store.GetAppNamesFromHerokuCDSs("test2@mailinator.com");
  }

  // redisNormal.test.ts:25-33, 78-85
  method DeployQueueRoundTrip(usernameChars: set<char>, toJson: Instant -> string, now: Instant)
    returns (msg: Option<StoredRequest>)
    ensures msg == Some(StoredRequest("this-is-the-deploy-id", "testRepo", Some("mshanemc"), None, None, toJson(now)))
  {
    var store := new Store(usernameChars, toJson);
    store.PutDeployRequest(DeployRequest("this-is-the-deploy-id", "testRepo", Some("mshanemc"), None, None, now));
    msg := store.GetDeployRequest();
  }

  /** The deploy queue is first in, first out, and each request is handed out once. */
  method DeployQueueFifo(usernameChars: set<char>, toJson: Instant -> string, a: DeployRequest, b: DeployRequest)
    returns (first: Option<StoredRequest>, second: Option<StoredRequest>, third: Option<StoredRequest>)
    ensures first == Some(Serialized(a, toJson))
    ensures second == Some(Serialized(b, toJson))
    ensures third == None
  {
    var store := new Store(usernameChars, toJson);
    store.PutDeployRequest(a);
    store.PutDeployRequest(b);
    first := store.GetDeployRequest();
    second := store.GetDeployRequest();
    third := store.GetDeployRequest();
  }

  // redisNormal.test.ts:87-95
  method DeleteOrgUsernames(usernameChars: set<char>, toJson: Instant -> string)
    returns (bad: Outcome<string>, good: Outcome<string>)
    requires PinnedUsernameChars(usernameChars)
    ensures bad == Fail("invalid username hack@you.bad;wget")
    ensures good == Pass
  {
    var store := new Store(usernameChars, toJson);
    assert "invalid username " + BadName == "invalid username hack@you.bad;wget";
    bad := store.DeleteOrg(BadName);
    good := store.DeleteOrg(GoodName);
  }

  // redisNormal.test.ts:97-137
  method PoolDeployCounts(usernameChars: set<char>, toJson: Instant -> string, now: Instant, id1: string, id2: string)
    returns (poolSize: nat, trialSize: nat)
    ensures poolSize == 5
    ensures trialSize == 4
  {
    var req := DeployRequest(id1, "platformTrial", Some("mshanemc"), Some(true), Some(true), now);
    var req2 := DeployRequest(id2, "else", Some("mshanemc"), Some(true), Some(true), now);
    var pool := PoolConfig("mshanemc", "platformTrial", 1, 12);
    var store := new Store(usernameChars, toJson);
    assert MatchesPool(Serialized(req, toJson), pool);
    assert !MatchesPool(Serialized(req2, toJson), pool);
    PoolCountAfterPut(store.poolQueue, Serialized(req, toJson), pool);
    store.PutPoolRequest(req);
    PoolCountAfterPut(store.poolQueue, Serialized(req, toJson), pool);
    store.PutPoolRequest(req);
    PoolCountAfterPut(store.poolQueue, Serialized(req, toJson), pool);
    store.PutPoolRequest(req);
    PoolCountAfterPut(store.poolQueue, Serialized(req, toJson), pool);
    store.PutPoolRequest(req);
    PoolCountAfterPut(store.poolQueue, Serialized(req2, toJson), pool);
    store.PutPoolRequest(req2);
    poolSize := store.GetPoolDeployRequestQueueSize();
    trialSize := store.GetPoolDeployCountByRepo(pool);
  }

  /** Letters, digits, `@`, `.`, `-` and `_` agree with the tests. */
  lemma DefaultUsernameCharsPinned()
    ensures PinnedUsernameChars(DefaultUsernameChars)
  {
    assert BadName[12] == ';';
  }
}
