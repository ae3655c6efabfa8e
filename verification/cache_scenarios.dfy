/** Runs of the cache from start to end: the round trips of the source's own
    test, the coalescing of forced refresh requests, retries, and two caches
    coordinating through the shared lease in multiserver mode. */
module CacheScenarios {
  import opened Wrappers
  import opened Redis
  import opened CacheKeys
  import opened Cache

  const TestDocument: string := "{\"Field1\":\"value1\",\"Field2\":42}"

  /** Thirty seconds. */
  const Lease: Duration := 30_000_000_000

  /** A filler that fails in its first `failures` attempts and then stores the
      collection of cache "c". */
  function FlakyFiller(failures: nat): RefreshFunc
  {
    (attempt: nat, keys: Keyspace) =>
      if attempt < failures then Step(keys, Some(Callback("source unavailable")))
      else Step(keys[KeyForAll("c") := Entry(Json("[]"), None)], None)
  }

  /** Flags are key presence, and a stored document reads back until it is
      deleted, after which the read reports `ErrItemNotFound`. */
  method FlagAndDocumentRoundTrip()
    returns (flagAfterSet: bool, flagAfterDelete: bool,
             readBack: Result<string, CacheError>, readAfterDelete: Result<string, CacheError>)
    ensures flagAfterSet && !flagAfterDelete
    ensures readBack == Success(TestDocument)
    ensures readAfterDelete == Failure(ErrItemNotFound)
  {
    var client := new Client(true);
    var cache := new RedisCache(client, "test");
    cache.Init(Config(2, 10, 2, None, false, None), None, None);
    cache.SetToValid();
    var err := cache.SetFlag(KeyForCustom("test", "flag"));
    flagAfterSet, err := cache.GetFlag(KeyForCustom("test", "flag"));
    err := cache.DeleteFlag(KeyForCustom("test", "flag"));
    flagAfterDelete, err := cache.GetFlag(KeyForCustom("test", "flag"));
    err := cache.Store(KeyForCustom("test", "json"), TestDocument);
    readBack := cache.Read(KeyForCustom("test", "json"));
    err := cache.Delete(KeyForCustom("test", "json"));
    readAfterDelete := cache.Read(KeyForCustom("test", "json"));
  }

  /** Two forced requests made while a refresh runs lead to exactly one more
      run, and that run requests nothing further. */
  method ForcedRequestsCoalesce() returns (runs: nat, followUps: nat)
    ensures runs == 2 && followUps == 1
  {
    var client := new Client(true);
    var cache := new RedisCache(client, "c");
    cache.Init(Config(1, 10, 2, None, false, None), None, None);
    cache.RefreshCacheAsync(false);
    cache.RefreshCacheAsync(true);
    cache.RefreshCacheAsync(true);
    runs, followUps := 0, 0;
    while cache.pendingRuns > 0
      invariant fresh(cache) && cache.client == client && !cache.Multiserver() && cache.config.Some?
      invariant cache.config.value.refreshRetryWaitStartMs > 0
      invariant cache.pendingRuns > 0 ==> cache.locked && cache.pendingRuns == 1
      invariant cache.pendingRuns == 0 ==> !cache.forceUpdateRequested
      invariant runs + cache.pendingRuns + (if cache.forceUpdateRequested then 1 else 0) == 2
      invariant followUps == runs - (if cache.pendingRuns == 0 then 1 else 0) || (runs == 0 && followUps == 0)
      invariant runs <= 2 && followUps <= 1 && (runs == 2 ==> followUps == 1)
      decreases 2 - runs
    {
      var followUp, err, outcomes, crashed := cache.RunRefresh();
      runs := runs + 1;
      if followUp {
        followUps := followUps + 1;
        cache.RefreshCacheAsync(false);
      }
    }
  }

  /** With three attempts a filler that fails twice succeeds on the third
      attempt and leaves the cache valid. */
  method RetryUntilFillerSucceeds()
    returns (err: Option<CacheError>, outcomes: seq<Option<CacheError>>, valid: bool)
    ensures err.None? && valid
    ensures outcomes == [Some(Callback("source unavailable")), Some(Callback("source unavailable")), None]
  {
    var client := new Client(true);
    var cache := new RedisCache(client, "c");
    cache.Init(Config(3, 10, 2, None, false, None), Some(FlakyFiller(2)), None);
    cache.RefreshCacheAsync(false);
    FlakyFillerRetries(client.keys);
    assert cache.RefreshEnv() == Env("c", false, true, {}, None, Some(FlakyFiller(2)));
    var followUp, crashed;
    followUp, err, outcomes, crashed := cache.RunRefresh();
    valid := cache.IsValid();
  }

  /** With two attempts the same filler exhausts the retries: the error names
      the attempt count and the last error, and the cache stays invalid. */
  method RetriesRunOut() returns (err: Option<CacheError>, valid: bool)
    ensures err == Some(RetriesExhausted(2, Some(Callback("source unavailable"))))
    ensures !valid
  {
    var client := new Client(true);
    var cache := new RedisCache(client, "c");
    cache.Init(Config(2, 10, 2, None, false, None), Some(FlakyFiller(2)), None);
    cache.RefreshCacheAsync(false);
    FlakyFillerRetries(client.keys);
    assert cache.RefreshEnv() == Env("c", false, true, {}, None, Some(FlakyFiller(2)));
    var followUp, outcomes, crashed;
    followUp, err, outcomes, crashed := cache.RunRefresh();
    valid := cache.IsValid();
  }

  /** Two multiserver caches of the same name share one lease: while the
      first holds it the second cannot start a refresh, and once the lease
      expires it can. */
  method LeaseIsShared() returns (firstStarted: bool, secondStarted: bool, secondAfterExpiry: bool)
    ensures firstStarted && !secondStarted && secondAfterExpiry
  {
    var client := new Client(true);
    var first := new RedisCache(client, "c");
    var second := new RedisCache(client, "c");
    first.Init(Config(1, 10, 2, None, true, Some(Lease)), None, None);
    second.Init(Config(1, 10, 2, None, true, Some(Lease)), None, None);
    first.RefreshCacheAsync(false);
    firstStarted := first.pendingRuns == 1;
    second.RefreshCacheAsync(false);
    secondStarted := second.pendingRuns == 1;
    client.Lapse(LockFlagKey("c"));
    second.RefreshCacheAsync(false);
    secondAfterExpiry := second.pendingRuns == 1;
  }

  /** The purge of a refresh attempt deletes the lease of the run that is
      still going, so a second instance acquires the lock meanwhile. */
  method PurgeDropsLease() returns (firstHolds: bool, secondAcquired: bool)
    ensures firstHolds && secondAcquired
  {
    var client := new Client(true);
    var first := new RedisCache(client, "c");
    var second := new RedisCache(client, "c");
    first.Init(Config(1, 10, 2, None, true, Some(Lease)), None, None);
    second.Init(Config(1, 10, 2, None, true, Some(Lease)), None, None);
    first.RefreshCacheAsync(false);
    firstHolds := first.LockHeld();
    ghost var held := client.keys;
    var err := first.RefreshAttempt(0);
    AttemptReleasesLease(Env("c", true, true, {}, None, None), 0, held);
    secondAcquired := second.MutexTryLock();
  }

  /** With a retry wait of zero the first failed attempt panics when the
      jitter is drawn: no second attempt runs although three are allowed,
      and the forced request made meanwhile is never served. */
  method ZeroWaitPanics() returns (outcomes: seq<Option<CacheError>>, crashed: bool, followUp: bool)
    ensures crashed && outcomes == [Some(Callback("source unavailable"))] && !followUp
  {
    var client := new Client(true);
    var cache := new RedisCache(client, "c");
    cache.Init(Config(3, 0, 2, None, false, None), Some(FlakyFiller(1)), None);
    cache.RefreshCacheAsync(false);
    cache.RefreshCacheAsync(true);
    var err;
    followUp, err, outcomes, crashed := cache.RunRefresh();
  }

  /** A server that refuses SET lets a multiserver refresh report success
      while the cache stays invalid, so every read is refused. */
  method RefusedSetLeavesRefreshedCacheInvalid() returns (err: Option<CacheError>, valid: bool, read: Result<string, CacheError>)
    ensures err.None? && !valid && read == Failure(ErrCacheInvalid)
  {
    var client := new Client(true);
    var cache := new RedisCache(client, "c");
    cache.Init(Config(1, 10, 2, None, true, Some(Lease)), Some(FlakyFiller(0)), None);
    cache.RefreshCacheAsync(false);
    client.refused := {SetCmd};
    RefusedSetRunReportsSuccess(client.keys);
    assert cache.RefreshEnv() == Env("c", true, true, {SetCmd}, None, Some(FlakyFiller(0)));
    var followUp, outcomes, crashed;
    followUp, err, outcomes, crashed := cache.RunRefresh();
    valid := cache.IsValid();
    read := cache.Read(KeyForAll("c"));
  }

  /** The single attempt of that refresh completes, and the purge and the
      refused SET leave no validity flag behind, whatever the keyspace held. */
  lemma RefusedSetRunReportsSuccess(keys: Keyspace)
    ensures var env := Env("c", true, true, {SetCmd}, None, Some(FlakyFiller(0)));
      var r := RetryFrom(env, 1, 10, 0, keys);
      RetryError(1, r.outcomes).None? && !FlagValid(env, r.keys)
  {
    var env := Env("c", true, true, {SetCmd}, None, Some(FlakyFiller(0)));
    SystemFlagsDistinct("c");
    assert ValidFlagKey("c") != KeyForAll("c");
  }

  /** A filler that fails twice: with three attempts the third succeeds, with
      two both fail. */
  lemma FlakyFillerRetries(keys: Keyspace)
    ensures var env := Env("c", false, true, {}, None, Some(FlakyFiller(2)));
      var failed := Some(Callback("source unavailable"));
      && RetryFrom(env, 3, 10, 0, keys).outcomes == [failed, failed, None]
      && RetryFrom(env, 2, 10, 0, keys).outcomes == [failed, failed]
  {
  }
}
