/** The coordination logic of cache/redisCache.go: a named cache over a Redis
    keyspace, with a validity flag, a refresh lock, refresh runs that purge and
    refill the cache's keys with retries, and the gates in front of reads and
    writes. In single-instance mode validity and lock are fields of the cache;
    in multiserver mode they are the flag keys `name:SYS:CACHE_VALID` and
    `name:SYS:MUTEX_LOCK` in the shared keyspace. */
module Cache {
  import opened Wrappers
  import opened Redis
  import opened CacheKeys

  datatype Config = Config(
    refreshRetryAttempts: int,
    refreshRetryWaitStartMs: int,
    refreshRetryWaitExponent: int,
    defaultExpiration: Option<Duration>,
    multiserverMode: bool,
    mutexExpiration: Option<Duration>)

  /** The errors the cache returns: its own sentinels, a Redis error passed
      through, an error of a refresh callback, and the error `retry` wraps
      around the last attempt's error. */
  datatype CacheError =
    | ErrCacheInvalid
    | ErrItemNotFound
    | ErrConfigNotSet
    | ErrExpirationNotSet
    | Backend(cause: RedisError)
    | Callback(reason: string)
    | RetriesExhausted(attempts: int, last: Option<CacheError>)

  /** A Redis error as the cache returns it. */
  function Lift(e: Option<RedisError>): Option<CacheError>
  {
    if e.Some? then Some(Backend(e.value)) else None
  }

  /** A flag: the empty string, without expiration. */
  const Flag: Entry := Entry(Text(""), None)

  /** What a refresh callback (the init or the filler function) did: the
      keyspace it left and its error. */
  datatype Step = Step(keys: Keyspace, err: Option<CacheError>)

  /** A refresh callback, given the number of the attempt it runs in. */
  type RefreshFunc = (nat, Keyspace) -> Step

  /** Everything a refresh run depends on besides the keyspace. */
  datatype Env = Env(
    name: string,
    multiserver: bool,
    reachable: bool,
    refused: set<Command>,
    init: Option<RefreshFunc>,
    filler: Option<RefreshFunc>)

  /** The server applies the write command `c` during the run. */
  predicate Writes(env: Env, c: Command)
  {
    env.reachable && c !in env.refused
  }

  /** The cache is valid in multiserver mode: its validity flag can be read
      and is present. */
  predicate FlagValid(env: Env, keys: Keyspace)
  {
    env.reachable && ValidFlagKey(env.name) in keys
  }

  /** The callback, if any, never creates `key`. */
  ghost predicate KeepsOut(f: Option<RefreshFunc>, key: string)
  {
    f.Some? ==> forall attempt: nat, keys: Keyspace :: key !in keys ==> key !in f.value(attempt, keys).keys
  }

  /** The expiration `StoreWithExpiration` and `ReadWithExpiration` use. */
  function ExpirationFor(config: Option<Config>, expirationTime: Option<Duration>): (r: Result<Duration, CacheError>)
    ensures config.None? ==> r == Failure(ErrConfigNotSet)
    ensures config.Some? && expirationTime.Some? ==> r == Success(expirationTime.value)
    ensures config.Some? && expirationTime.None? ==>
      r == if config.value.defaultExpiration.Some? then Success(config.value.defaultExpiration.value)
           else Failure(ErrExpirationNotSet)
  {
    if config.None? then Failure(ErrConfigNotSet)
    else
      var expiration := if expirationTime.Some? then expirationTime else config.value.defaultExpiration;
      if expiration.None? then Failure(ErrExpirationNotSet) else Success(expiration.value)
  }

  /** The result of `read` on a valid cache: the stored document, or
      `ErrItemNotFound` for a missing key, or the Redis error. */
  function Fetched(reachable: bool, keys: Keyspace, key: string): (r: Result<string, CacheError>)
    ensures r.Success? <==> reachable && key in keys && keys[key].value.Json?
    ensures r.Success? ==> r.value == keys[key].value.doc
    ensures r == Failure(ErrItemNotFound) <==> reachable && key !in keys
  {
    match JsonGetReply(reachable, keys, key)
    case Success(doc) => Success(doc)
    case Failure(e) => Failure(if e == KeyMissing then ErrItemNotFound else Backend(e))
  }

  /** The documents of a `JSON.MGET` reply, nil elements skipped, in order. */
  function Present(reply: seq<Option<string>>): (docs: seq<string>)
    ensures |docs| <= |reply|
  {
    if reply == [] then []
    else
      var last := reply[|reply| - 1];
      Present(reply[..|reply| - 1]) + if last.Some? then [last.value] else []
  }

  /** The positions of the reply's non-nil elements, in increasing order. */
  function Answered(reply: seq<Option<string>>): (idx: seq<nat>)
    ensures forall j :: 0 <= j < |idx| ==> idx[j] < |reply| && reply[idx[j]].Some?
    ensures forall j, k :: 0 <= j < k < |idx| ==> idx[j] < idx[k]
    ensures forall i :: 0 <= i < |reply| && reply[i].Some? ==> i in idx
  {
    if reply == [] then []
    else
      var n := |reply| - 1;
      var init := reply[..n];
      assert forall i :: 0 <= i < n ==> init[i] == reply[i];
      Answered(init) + if reply[n].Some? then [n] else []
  }

  /** The documents are exactly the non-nil elements of the reply, each one
      kept, in the order of the reply. */
  lemma {:induction false} PresentInOrder(reply: seq<Option<string>>)
    ensures |Present(reply)| == |Answered(reply)|
    ensures forall j :: 0 <= j < |Answered(reply)| ==> Present(reply)[j] == reply[Answered(reply)[j]].value
  {
    if reply != [] {
      var n := |reply| - 1;
      var init := reply[..n];
      PresentInOrder(init);
      var idx, docs := Answered(init), Present(init);
      var idx', docs' := Answered(reply), Present(reply);
      assert idx' == idx + if reply[n].Some? then [n] else [];
      assert docs' == docs + if reply[n].Some? then [reply[n].value] else [];
      forall j | 0 <= j < |idx'| ensures docs'[j] == reply[idx'[j]].value {
        if j < |idx| {
          assert idx'[j] == idx[j] && docs'[j] == docs[j];
          assert init[idx[j]] == reply[idx[j]];
        }
      }
    }
  }

  /** Every returned document is an element of the reply. */
  lemma {:induction false} PresentFromReply(reply: seq<Option<string>>)
    ensures forall d :: d in Present(reply) ==> Some(d) in reply
  {
    if reply != [] {
      var init := reply[..|reply| - 1];
      PresentFromReply(init);
      assert reply == init + [reply[|reply| - 1]];
    }
  }

  /** When every key answered, the documents are the reply, in order. */
  lemma {:induction false} PresentAll(reply: seq<Option<string>>)
    requires forall i :: 0 <= i < |reply| ==> reply[i].Some?
    ensures |Present(reply)| == |reply|
    ensures forall i :: 0 <= i < |reply| ==> Present(reply)[i] == reply[i].value
  {
    if reply != [] {
      PresentAll(reply[..|reply| - 1]);
    }
  }

  /** When every requested key holds a document, a group read returns all of
      them, in the order of the keys. */
  lemma GroupOfStoredDocuments(keys: Keyspace, ks: seq<string>)
    requires forall i :: 0 <= i < |ks| ==> ks[i] in keys && keys[ks[i]].value.Json?
    ensures |Present(MGetReply(keys, ks))| == |ks|
    ensures forall i :: 0 <= i < |ks| ==> Present(MGetReply(keys, ks))[i] == keys[ks[i]].value.doc
  {
    PresentAll(MGetReply(keys, ks));
  }

  /** The keyspace after the purge of `clearCache`: exactly the keys outside
      the cache's scope remain, unchanged. */
  function Purged(name: string, keys: Keyspace): (r: Keyspace)
    ensures forall k :: k in r <==> k in keys && !InScope(name, k)
    ensures forall k :: k in r ==> r[k] == keys[k]
  {
    map k | k in keys && !InScope(name, k) :: keys[k]
  }

  /** Removing a key of the scope first makes no difference to the purge. */
  lemma PurgedAfterDelete(name: string, keys: Keyspace, key: string)
    requires InScope(name, key)
    ensures Purged(name, keys - {key}) == Purged(name, keys)
  {
  }

  /** The purge removes both system flags, the refresh lease included. */
  lemma PurgedRemovesSystemFlags(name: string, keys: Keyspace)
    ensures ValidFlagKey(name) !in Purged(name, keys)
    ensures LockFlagKey(name) !in Purged(name, keys)
  {
  }

  /** A callback that may be absent: a missing one does nothing and succeeds. */
  function RunStep(f: Option<RefreshFunc>, attempt: nat, keys: Keyspace): (s: Step)
    ensures f.None? ==> s == Step(keys, None)
  {
    if f.Some? then f.value(attempt, keys) else Step(keys, None)
  }

  /** The keyspace once an attempt has marked the cache invalid and purged
      its scope. Both steps delete with DEL and only log or drop its error,
      so a server that refuses DEL leaves every key in place. */
  function Cleared(env: Env, keys: Keyspace): (r: Keyspace)
    ensures Writes(env, DelCmd) ==> ValidFlagKey(env.name) !in r && LockFlagKey(env.name) !in r
    ensures !Writes(env, DelCmd) ==> r == keys
  {
    if Writes(env, DelCmd) then PurgedRemovesSystemFlags(env.name, keys); Purged(env.name, keys) else keys
  }

  /** Marking invalid and purging only ever remove keys: every key outside
      the cache's scope stays with its value, and with DEL accepted none
      inside it is left. */
  lemma ClearedKeepsOutside(env: Env, keys: Keyspace)
    ensures var r := Cleared(env, keys);
      && (forall k :: k in r ==> k in keys && r[k] == keys[k])
      && (forall k :: k in keys && !InScope(env.name, k) ==> k in r)
      && (Writes(env, DelCmd) ==> forall k :: k in r ==> !InScope(env.name, k))
  {
  }

  /** Where a refresh attempt stopped. */
  datatype Stage = ClearFailed | InitFailed | FillFailed | Completed

  datatype AttemptResult = AttemptResult(stage: Stage, keys: Keyspace, err: Option<CacheError>)

  /** One refresh attempt: mark invalid, purge, init, fill, mark valid,
      stopping at the first failure. */
  function Attempt(env: Env, attempt: nat, keys: Keyspace): (r: AttemptResult)
    ensures r.err.None? <==> r.stage == Completed
    ensures r.stage == ClearFailed <==> !env.reachable
    ensures r.stage == ClearFailed ==> r.keys == keys && r.err == Some(Backend(Unreachable))
  {
    if !env.reachable then AttemptResult(ClearFailed, keys, Some(Backend(Unreachable)))
    else
      var afterInit := RunStep(env.init, attempt, Cleared(env, keys));
      if afterInit.err.Some? then AttemptResult(InitFailed, afterInit.keys, afterInit.err)
      else
        var afterFill := RunStep(env.filler, attempt, afterInit.keys);
        if afterFill.err.Some? then AttemptResult(FillFailed, afterFill.keys, afterFill.err)
        else if env.multiserver && Writes(env, SetCmd) then
          AttemptResult(Completed, afterFill.keys[ValidFlagKey(env.name) := Flag], None)
        else AttemptResult(Completed, afterFill.keys, None)
  }

  /** An attempt fails exactly when it stops before completing. Only the
      scan of the purge can fail it on the server's side, and then nothing
      has changed, because whether the server answers is fixed for the run
      and so only the first SCAN can fail: a refused DEL or SET is logged
      and the attempt goes on.
      It completes when the server answers and both callbacks succeed, and a
      completed multiserver attempt leaves the validity flag set when the
      server accepts SET. */
  lemma AttemptStages(env: Env, attempt: nat, keys: Keyspace)
    ensures var r := Attempt(env, attempt, keys);
      && (r.err.None? <==> r.stage == Completed)
      && (r.stage == ClearFailed <==> !env.reachable)
      && (r.stage == ClearFailed ==> r.keys == keys)
      && (r.stage == Completed && env.multiserver && Writes(env, SetCmd) ==> FlagValid(env, r.keys))
      && (r.stage == Completed <==>
            env.reachable && RunStep(env.init, attempt, Cleared(env, keys)).err.None?
            && RunStep(env.filler, attempt, RunStep(env.init, attempt, Cleared(env, keys)).keys).err.None?)
  {
  }

  /** A missing filler does not stop an attempt from completing. */
  lemma MissingFillerCompletes(env: Env, attempt: nat, keys: Keyspace)
    requires env.reachable && env.filler.None?
    requires RunStep(env.init, attempt, Cleared(env, keys)).err.None?
    ensures Attempt(env, attempt, keys).stage == Completed
  {
  }

  /** In multiserver mode a failed attempt leaves the cache invalid, provided
      the callbacks do not themselves write the validity flag and the flag is
      gone after the purge: the server deletes it, or it was not there. */
  lemma FailedAttemptLeavesInvalid(env: Env, attempt: nat, keys: Keyspace)
    requires KeepsOut(env.init, ValidFlagKey(env.name)) && KeepsOut(env.filler, ValidFlagKey(env.name))
    ensures Attempt(env, attempt, keys).err.Some? && (DelCmd !in env.refused || ValidFlagKey(env.name) !in keys) ==>
      !FlagValid(env, Attempt(env, attempt, keys).keys)
  {
    if env.reachable && (DelCmd !in env.refused || ValidFlagKey(env.name) !in keys) {
      var cleared := Cleared(env, keys);
      PurgedRemovesSystemFlags(env.name, keys);
      assert ValidFlagKey(env.name) !in cleared;
      var afterInit := RunStep(env.init, attempt, cleared);
      assert ValidFlagKey(env.name) !in afterInit.keys;
      var afterFill := RunStep(env.filler, attempt, afterInit.keys);
      assert ValidFlagKey(env.name) !in afterFill.keys;
    }
  }

  /** When the server refuses DEL, a valid multiserver cache stays valid
      through a failed attempt: the flag outlives the attempt that should
      have cleared it. */
  lemma RefusedDeleteKeepsFailedAttemptValid()
    ensures
      var filler: RefreshFunc := (attempt: nat, keys: Keyspace) => Step(keys, Some(Callback("failed")));
      var env := Env("c", true, true, {DelCmd}, None, Some(filler));
      var keys := map[ValidFlagKey("c") := Flag, KeyForAll("c") := Entry(Json("[1]"), None)];
      var r := Attempt(env, 0, keys);
      r.err.Some? && FlagValid(env, r.keys) && r.keys == keys
  {
  }

  /** When the server refuses SET, an attempt completes without error and
      leaves the multiserver cache invalid. */
  lemma RefusedSetCompletesInvalid()
    ensures
      var env := Env("c", true, true, {SetCmd}, None, None);
      var r := Attempt(env, 0, map[]);
      r.err.None? && !FlagValid(env, r.keys)
  {
  }

  /** Every attempt whose purge the server carries out deletes the refresh
      lease along with the other keys of the scope: while a run is still
      going, another instance can take the lease. */
  lemma AttemptReleasesLease(env: Env, attempt: nat, keys: Keyspace)
    requires Writes(env, DelCmd)
    requires KeepsOut(env.init, LockFlagKey(env.name)) && KeepsOut(env.filler, LockFlagKey(env.name))
    ensures LockFlagKey(env.name) !in Attempt(env, attempt, keys).keys
  {
    var purged := Purged(env.name, keys);
    PurgedRemovesSystemFlags(env.name, keys);
    var afterInit := RunStep(env.init, attempt, purged);
    assert LockFlagKey(env.name) !in afterInit.keys;
    var afterFill := RunStep(env.filler, attempt, afterInit.keys);
    assert LockFlagKey(env.name) !in afterFill.keys;
    SystemFlagsDistinct(env.name);
  }

  /** Without the proviso of `FailedAttemptLeavesInvalid` the cache can end
      valid after a failed attempt: a filler that stores under the custom key
      "SYS:CACHE_VALID" and then fails. */
  lemma AliasedFillerValidatesFailedAttempt()
    ensures
      var filler: RefreshFunc := (attempt: nat, keys: Keyspace) =>
        Step(keys[KeyForCustom("c", "SYS:" + CacheValidFlagKey) := Entry(Json("{}"), None)], Some(Callback("failed")));
      var env := Env("c", true, true, {}, None, Some(filler));
      var r := Attempt(env, 0, map[]);
      r.err.Some? && FlagValid(env, r.keys)
  {
    CustomSysIsValidFlag("c");
  }

  /** What `retry` did: the keyspace it left, each attempt's error, and
      whether it panicked. */
  datatype RetryResult = RetryResult(keys: Keyspace, outcomes: seq<Option<CacheError>>, crashed: bool)

  /** `retry` from attempt `i` on, with the wait `waitStartMs` before the
      backoff: the keyspace it leaves and each attempt's error, stopping
      after the first success or after attempt `attempts - 1`. After a failed
      attempt the jitter is drawn by `Int63n` of the wait, which panics when
      the wait is not positive: `retry` then ends with that attempt. */
  function RetryFrom(env: Env, attempts: int, waitStartMs: int, i: nat, keys: Keyspace): (r: RetryResult)
    ensures |r.outcomes| <= Remaining(attempts, i)
    ensures r.crashed ==> waitStartMs <= 0 && |r.outcomes| == 1 && r.outcomes[0].Some?
    decreases attempts - i
  {
    if i >= attempts then RetryResult(keys, [], false)
    else
      var a := Attempt(env, i, keys);
      if a.err.None? then RetryResult(a.keys, [None], false)
      else if waitStartMs <= 0 then RetryResult(a.keys, [a.err], true)
      else
        var rest := RetryFrom(env, attempts, waitStartMs, i + 1, a.keys);
        RetryResult(rest.keys, [a.err] + rest.outcomes, rest.crashed)
  }

  /** One attempt of `retry` and what follows it: a success ends `retry`, a
      failure panics or leads to the next attempt. */
  lemma RetryStep(env: Env, attempts: int, waitStartMs: int, i: nat, keys: Keyspace)
    requires i < attempts
    ensures var a := Attempt(env, i, keys);
      var rest := RetryFrom(env, attempts, waitStartMs, i + 1, a.keys);
      RetryFrom(env, attempts, waitStartMs, i, keys) ==
        if a.err.None? then RetryResult(a.keys, [None], false)
        else if waitStartMs <= 0 then RetryResult(a.keys, [a.err], true)
        else RetryResult(rest.keys, [a.err] + rest.outcomes, rest.crashed)
  {
  }

  /** `retry` as its loop runs it: `done` holds the errors of the attempts
      before `i`, and each failed attempt is appended to it. */
  function RetryLoop(env: Env, attempts: int, waitStartMs: int, i: nat, keys: Keyspace,
                     done: seq<Option<CacheError>>): (r: RetryResult)
    ensures |r.outcomes| - |done| <= if attempts > i then attempts - i else 0
    ensures r.crashed ==> waitStartMs <= 0 && |r.outcomes| > |done|
    decreases attempts - i
  {
    if i >= attempts then RetryResult(keys, done, false)
    else
      var a := Attempt(env, i, keys);
      if a.err.None? then RetryResult(a.keys, done + [None], false)
      else if waitStartMs <= 0 then RetryResult(a.keys, done + [a.err], true)
      else RetryLoop(env, attempts, waitStartMs, i + 1, a.keys, done + [a.err])
  }

  /** One turn of that loop: the attempt either ends `retry` or hands its
      keyspace to the next turn. */
  lemma RetryLoopStep(env: Env, attempts: int, waitStartMs: int, i: nat, keys: Keyspace,
                      done: seq<Option<CacheError>>, a: AttemptResult)
    requires i < attempts && a == Attempt(env, i, keys)
    ensures a.err.None? ==> RetryLoop(env, attempts, waitStartMs, i, keys, done) == RetryResult(a.keys, done + [None], false)
    ensures a.err.Some? && waitStartMs <= 0 ==>
      RetryLoop(env, attempts, waitStartMs, i, keys, done) == RetryResult(a.keys, done + [a.err], true)
    ensures a.err.Some? && waitStartMs > 0 ==>
      RetryLoop(env, attempts, waitStartMs, i, keys, done) == RetryLoop(env, attempts, waitStartMs, i + 1, a.keys, done + [a.err])
  {
  }

  /** The loop form agrees with `RetryFrom`, the errors already collected
      coming first. */
  lemma {:induction false} RetryLoopFrom(env: Env, attempts: int, waitStartMs: int, i: nat, keys: Keyspace,
                                         done: seq<Option<CacheError>>)
    ensures var r := RetryFrom(env, attempts, waitStartMs, i, keys);
      RetryLoop(env, attempts, waitStartMs, i, keys, done) == RetryResult(r.keys, done + r.outcomes, r.crashed)
    decreases attempts - i
  {
    if i >= attempts {
      assert done + [] == done;
    } else {
      var a := Attempt(env, i, keys);
      if a.err.Some? && waitStartMs > 0 {
        RetryLoopFrom(env, attempts, waitStartMs, i + 1, a.keys, done + [a.err]);
        var rest := RetryFrom(env, attempts, waitStartMs, i + 1, a.keys);
        assert (done + [a.err]) + rest.outcomes == done + ([a.err] + rest.outcomes);
      }
    }
  }

  /** The error `retry` returns for the attempts' errors: nil after a success,
      otherwise the attempt count and the last error wrapped. */
  function RetryError(attempts: int, outcomes: seq<Option<CacheError>>): (err: Option<CacheError>)
    ensures err.None? <==> |outcomes| > 0 && outcomes[|outcomes| - 1].None?
  {
    if |outcomes| > 0 && outcomes[|outcomes| - 1].None? then None
    else Some(RetriesExhausted(attempts, if |outcomes| == 0 then None else outcomes[|outcomes| - 1]))
  }

  /** The number of attempts `retry` still has from attempt `i` on. */
  function Remaining(attempts: int, i: nat): nat
  {
    if attempts > i then attempts - i else 0
  }

  /** `retry` stops at the first success, and when it does not panic it
      fails if and only if every attempt it was allowed failed. */
  lemma {:induction false} RetryOutcomes(env: Env, attempts: int, waitStartMs: int, i: nat, keys: Keyspace)
    ensures var r := RetryFrom(env, attempts, waitStartMs, i, keys);
      && (forall k :: 0 <= k < |r.outcomes| - 1 ==> r.outcomes[k].Some?)
      && (!r.crashed ==> (RetryError(attempts, r.outcomes).Some? <==>
            |r.outcomes| == Remaining(attempts, i) && forall k :: 0 <= k < |r.outcomes| ==> r.outcomes[k].Some?))
    decreases attempts - i
  {
    if i < attempts {
      var a := Attempt(env, i, keys);
      if a.err.Some? && waitStartMs > 0 {
        RetryOutcomes(env, attempts, waitStartMs, i + 1, a.keys);
        var rest := RetryFrom(env, attempts, waitStartMs, i + 1, a.keys);
        var outs := [a.err] + rest.outcomes;
        assert RetryFrom(env, attempts, waitStartMs, i, keys).outcomes == outs;
        assert forall k :: 1 <= k < |outs| ==> outs[k] == rest.outcomes[k - 1];
      }
    }
  }

  /** With no attempts allowed, `retry` runs none and returns an error. */
  lemma NoAttempts(env: Env, attempts: int, waitStartMs: int, keys: Keyspace)
    requires attempts <= 0
    ensures RetryFrom(env, attempts, waitStartMs, 0, keys) == RetryResult(keys, [], false)
    ensures RetryError(attempts, []) == Some(RetriesExhausted(attempts, None))
  {
  }

  /** `retry` panics exactly when the wait is not positive and its first
      attempt fails; no second attempt runs then, whatever `attempts`
      allows. */
  lemma {:induction false} RetryPanics(env: Env, attempts: int, waitStartMs: int, i: nat, keys: Keyspace)
    ensures var r := RetryFrom(env, attempts, waitStartMs, i, keys);
      r.crashed <==> waitStartMs <= 0 && i < attempts && Attempt(env, i, keys).err.Some?
    ensures RetryFrom(env, attempts, waitStartMs, i, keys).crashed ==>
      RetryFrom(env, attempts, waitStartMs, i, keys).outcomes == [Attempt(env, i, keys).err]
    decreases attempts - i
  {
    if i < attempts && waitStartMs > 0 && Attempt(env, i, keys).err.Some? {
      RetryPanics(env, attempts, waitStartMs, i + 1, Attempt(env, i, keys).keys);
    }
  }

  /** A successful refresh leaves the multiserver cache valid when the server
      accepts SET. */
  lemma {:induction false} RetrySucceededIsValid(env: Env, attempts: int, waitStartMs: int, i: nat, keys: Keyspace)
    requires env.multiserver && SetCmd !in env.refused
    requires RetryError(attempts, RetryFrom(env, attempts, waitStartMs, i, keys).outcomes).None?
    ensures FlagValid(env, RetryFrom(env, attempts, waitStartMs, i, keys).keys)
    decreases attempts - i
  {
    var a := Attempt(env, i, keys);
    if a.err.Some? && waitStartMs > 0 {
      var rest := RetryFrom(env, attempts, waitStartMs, i + 1, a.keys);
      assert RetryFrom(env, attempts, waitStartMs, i, keys).outcomes == [a.err] + rest.outcomes;
      RetrySucceededIsValid(env, attempts, waitStartMs, i + 1, a.keys);
    }
  }

  /** When the server refuses SET, a refresh reports success and still leaves
      the multiserver cache invalid. */
  lemma RefusedSetRefreshSucceedsInvalid()
    ensures
      var env := Env("c", true, true, {SetCmd}, None, None);
      var r := RetryFrom(env, 2, 10, 0, map[]);
      RetryError(2, r.outcomes).None? && !FlagValid(env, r.keys)
  {
    RefusedSetCompletesInvalid();
  }

  /** A failed refresh that ran at least one attempt leaves the multiserver
      cache invalid, provided the callbacks do not write the validity flag
      and the server accepts DEL. */
  lemma {:induction false} RetryFailedIsInvalid(env: Env, attempts: int, waitStartMs: int, i: nat, keys: Keyspace)
    requires KeepsOut(env.init, ValidFlagKey(env.name)) && KeepsOut(env.filler, ValidFlagKey(env.name))
    requires DelCmd !in env.refused
    requires i < attempts
    requires RetryError(attempts, RetryFrom(env, attempts, waitStartMs, i, keys).outcomes).Some?
    ensures !FlagValid(env, RetryFrom(env, attempts, waitStartMs, i, keys).keys)
    decreases attempts - i
  {
    var a := Attempt(env, i, keys);
    FailedAttemptLeavesInvalid(env, i, keys);
    if i + 1 < attempts && waitStartMs > 0 {
      var rest := RetryFrom(env, attempts, waitStartMs, i + 1, a.keys);
      assert RetryFrom(env, attempts, waitStartMs, i, keys).outcomes == [a.err] + rest.outcomes;
      RetryFailedIsInvalid(env, attempts, waitStartMs, i + 1, a.keys);
    }
  }

  class RedisCache {
    const client: Client
    const name: string
    var cacheValid: bool
    var forceUpdateRequested: bool
    /** `refreshMutex`: held by the running refresh in single-instance mode. */
    var locked: bool
    var config: Option<Config>
    var refreshFillerFunc: Option<RefreshFunc>
    var refreshInitFunc: Option<RefreshFunc>
    /** Refresh goroutines started and not yet run (see `RunRefresh`). */
    var pendingRuns: nat

    /** `NewRedisCache`. */
    constructor (client: Client, name: string)
      ensures this.client == client && this.name == name
      ensures !cacheValid && !forceUpdateRequested && !locked && pendingRuns == 0
      ensures config.None? && refreshFillerFunc.None? && refreshInitFunc.None?
    {
      this.client := client;
      this.name := name;
      cacheValid := false;
      forceUpdateRequested := false;
      locked := false;
      config := None;
      refreshFillerFunc := None;
      refreshInitFunc := None;
      pendingRuns := 0;
    }

    method Init(config: Config, refreshFillerFunc: Option<RefreshFunc>, refreshInitFunc: Option<RefreshFunc>)
      modifies this`config, this`refreshFillerFunc, this`refreshInitFunc
      ensures this.config == Some(config)
      ensures this.refreshFillerFunc == refreshFillerFunc && this.refreshInitFunc == refreshInitFunc
    {
      this.config := Some(config);
      this.refreshFillerFunc := refreshFillerFunc;
      this.refreshInitFunc := refreshInitFunc;
    }

    predicate Multiserver()
      reads this`config
    {
      config.Some? && config.value.multiserverMode
    }

    /** The validity `IsValid` reports. */
    function Validity(): bool
      reads this, client
    {
      if Multiserver() then client.reachable && ValidFlagKey(name) in client.keys else cacheValid
    }

    /** The refresh lock is held. */
    function LockHeld(): bool
      reads this, client
    {
      if Multiserver() then LockFlagKey(name) in client.keys else locked
    }

    /** `mutexTryLock` would succeed. */
    function CanLock(): bool
      reads this, client
    {
      if Multiserver() then
        client.Verdict(SetCmd).None? && LockFlagKey(name) !in client.keys && config.value.mutexExpiration.Some?
      else !locked
    }

    function RefreshEnv(): Env
      reads this`config, this`refreshInitFunc, this`refreshFillerFunc, client`reachable, client`refused
    {
      Env(name, Multiserver(), client.reachable, client.refused, refreshInitFunc, refreshFillerFunc)
    }

    method SetFlag(key: string) returns (err: Option<CacheError>)
      modifies client`keys
      ensures err == Lift(client.Verdict(SetCmd))
      ensures client.keys == if err.None? then old(client.keys)[key := Flag] else old(client.keys)
    {
      var e := client.Set(key, Text(""), 0);
      err := Lift(e);
    }

    /** Sets a flag that expires; the argument overrides the default
        expiration, and one of them must exist. */
    method SetFlagWithExpiration(key: string, expirationTime: Option<Duration>) returns (err: Option<CacheError>)
      requires config.Some?
      requires expirationTime.Some? || config.value.defaultExpiration.Some?
      modifies client`keys
      ensures err == Lift(client.Verdict(SetCmd))
      ensures var expiration := if expirationTime.Some? then expirationTime.value else config.value.defaultExpiration.value;
        client.keys == if err.None? then Stored(old(client.keys), key, Text(""), expiration) else old(client.keys)
    {
      var expiration := config.value.defaultExpiration;
      if expirationTime.Some? {
        expiration := expirationTime;
      }
      var e := client.Set(key, Text(""), expiration.value);
      err := Lift(e);
    }

    /** A flag is the presence of its key. */
    method GetFlag(key: string) returns (flag: bool, err: Option<CacheError>)
      ensures err.Some? <==> !client.reachable
      ensures flag <==> client.reachable && key in client.keys
    {
      var count, e := client.Exists(key);
      flag, err := count > 0, Lift(e);
    }

    method DeleteFlag(key: string) returns (err: Option<CacheError>)
      modifies client`keys
      ensures err == Lift(client.Verdict(DelCmd))
      ensures client.keys == if err.None? then old(client.keys) - {key} else old(client.keys)
      ensures key !in client.keys || err.Some?
    {
      var e := client.Del({key});
      err := Lift(e);
    }

    method IsValid() returns (valid: bool)
      ensures valid == Validity()
      ensures Multiserver() && !client.reachable ==> !valid
    {
      if Multiserver() {
        var flag, err := GetFlag(ValidFlagKey(name));
        if err.Some? {
          return false;
        }
        return flag;
      }
      return cacheValid;
    }

    /** Clears the validity; in multiserver mode the error of deleting the
        flag is only logged, so a refused DEL leaves the validity as it was. */
    method SetToInvalid()
      modifies this`cacheValid, client`keys
      ensures !Multiserver() || client.Verdict(DelCmd).None? ==> !Validity()
      ensures Multiserver() && client.Verdict(DelCmd).Some? ==> Validity() == old(Validity())
      ensures Multiserver() ==> cacheValid == old(cacheValid)
      ensures Multiserver() ==>
        client.keys == if client.Verdict(DelCmd).None? then old(client.keys) - {ValidFlagKey(name)} else old(client.keys)
      ensures !Multiserver() ==> client.keys == old(client.keys)
    {
      if Multiserver() {
        var err := DeleteFlag(ValidFlagKey(name));
      } else {
        cacheValid := false;
      }
    }

    /** Sets the validity; in multiserver mode the error of setting the flag
        is only logged, so a refused SET leaves the validity as it was. */
    method SetToValid()
      modifies this`cacheValid, client`keys
      ensures !Multiserver() || client.Verdict(SetCmd).None? ==> Validity()
      ensures Multiserver() && client.Verdict(SetCmd).Some? ==> Validity() == old(Validity())
      ensures Multiserver() ==> cacheValid == old(cacheValid)
      ensures Multiserver() ==>
        client.keys == if client.Verdict(SetCmd).None? then old(client.keys)[ValidFlagKey(name) := Flag] else old(client.keys)
      ensures !Multiserver() ==> client.keys == old(client.keys)
    {
      if Multiserver() {
        var err := SetFlag(ValidFlagKey(name));
      } else {
        cacheValid := true;
      }
    }

    method MutexTryLock() returns (acquired: bool)
      modifies this`locked, client`keys
      ensures acquired == old(CanLock())
      ensures LockHeld() <==> acquired || old(LockHeld())
      ensures Multiserver() ==> locked == old(locked)
      ensures Multiserver() ==> (client.keys ==
        if acquired then Stored(old(client.keys), LockFlagKey(name), Text(""), config.value.mutexExpiration.value)
        else old(client.keys))
      ensures !Multiserver() ==> client.keys == old(client.keys)
    {
      if Multiserver() {
        var held, err := GetFlag(LockFlagKey(name));
        if err.Some? || held {
          return false;
        }
        if config.value.mutexExpiration.None? {
          return false;
        }
        err := SetFlagWithExpiration(LockFlagKey(name), config.value.mutexExpiration);
        return err.None?;
      }
      acquired := !locked;
      locked := true;
    }

    /** Releases the lock; in multiserver mode the error of deleting the
        lease is only logged, so a refused DEL leaves the lease to expire. */
    method MutexUnlock()
      requires Multiserver() || locked
      modifies this`locked, client`keys
      ensures !Multiserver() || client.Verdict(DelCmd).None? ==> !LockHeld()
      ensures Multiserver() ==> locked == old(locked)
      ensures Multiserver() ==>
        client.keys == if client.Verdict(DelCmd).None? then old(client.keys) - {LockFlagKey(name)} else old(client.keys)
      ensures !Multiserver() ==> client.keys == old(client.keys)
    {
      if Multiserver() {
        var err := DeleteFlag(LockFlagKey(name));
      } else {
        locked := false;
      }
    }

    /** Starts a refresh unless one is running; a forced request made while
        one runs is remembered. The started goroutine is `RunRefresh`. */
    method RefreshCacheAsync(forceUpdate: bool)
      modifies this`locked, this`forceUpdateRequested, this`pendingRuns, client`keys
      ensures config.None? || !old(CanLock()) ==>
        locked == old(locked) && pendingRuns == old(pendingRuns) && client.keys == old(client.keys)
      ensures config.None? ==> forceUpdateRequested == old(forceUpdateRequested)
      ensures config.Some? && !old(CanLock()) ==> forceUpdateRequested == (old(forceUpdateRequested) || forceUpdate)
      ensures config.Some? && old(CanLock()) ==>
        LockHeld() && pendingRuns == old(pendingRuns) + 1 && forceUpdateRequested == old(forceUpdateRequested)
      ensures config.Some? && old(CanLock()) && Multiserver() ==>
        client.keys == Stored(old(client.keys), LockFlagKey(name), Text(""), config.value.mutexExpiration.value)
      ensures !Multiserver() ==> client.keys == old(client.keys)
      ensures Multiserver() ==> locked == old(locked)
    {
      if config.None? {
        return;
      }
      var acquired := MutexTryLock();
      if !acquired {
        if forceUpdate {
          forceUpdateRequested := true;
        }
        return;
      }
      pendingRuns := pendingRuns + 1;
    }

    /** The refresh goroutine: `retry` over refresh attempts, then the
        deferred cleanup, which releases the lock and turns a pending forced
        request into one follow-up request `RefreshCacheAsync(false)`
        (`followUp`). The run's error is only logged by the source; it is
        returned here with every attempt's error. When `retry` panics
        (`crashed`) the deferred cleanup still runs, and then the panic ends
        the process, so the follow-up it starts never runs. */
    method RunRefresh() returns (followUp: bool, err: Option<CacheError>, outcomes: seq<Option<CacheError>>, crashed: bool)
      requires pendingRuns > 0 && config.Some?
      requires Multiserver() || locked
      modifies this`cacheValid, this`locked, this`forceUpdateRequested, this`pendingRuns, client`keys
      ensures pendingRuns == old(pendingRuns) - 1
      ensures var r := RetryFrom(old(RefreshEnv()), config.value.refreshRetryAttempts,
                                 config.value.refreshRetryWaitStartMs, 0, old(client.keys));
        && outcomes == r.outcomes
        && crashed == r.crashed
        && (!crashed ==> err == RetryError(config.value.refreshRetryAttempts, outcomes))
        && client.keys == if Multiserver() && client.Verdict(DelCmd).None? then r.keys - {LockFlagKey(name)} else r.keys
      ensures crashed ==> config.value.refreshRetryWaitStartMs <= 0 && err.Some?
      ensures !Multiserver() || client.Verdict(DelCmd).None? ==> !LockHeld()
      ensures Multiserver() ==> locked == old(locked) && cacheValid == old(cacheValid)
      ensures !Multiserver() ==> cacheValid == if outcomes == [] then old(cacheValid) else err.None?
      ensures err.None? && (!Multiserver() || SetCmd !in client.refused) ==> Validity()
      ensures followUp == (old(forceUpdateRequested) && !crashed) && !forceUpdateRequested
    {
      pendingRuns := pendingRuns - 1;
      ghost var env, keys0 := RefreshEnv(), client.keys;
      var attempts, waitStartMs := config.value.refreshRetryAttempts, config.value.refreshRetryWaitStartMs;
      err, outcomes, crashed := Retry(attempts, waitStartMs);
      if err.None? && env.multiserver && SetCmd !in env.refused {
        RetrySucceededIsValid(env, attempts, waitStartMs, 0, keys0);
        SystemFlagsDistinct(name);
      }
      MutexUnlock();
      followUp := forceUpdateRequested && !crashed;
      forceUpdateRequested := false;
    }

    /** `retry` with the refresh attempt as its function; the backoff
        between attempts is not modelled, only the panic of drawing the
        jitter from a wait that is not positive. */
    method Retry(attempts: int, waitStartMs: int) returns (err: Option<CacheError>, outcomes: seq<Option<CacheError>>, crashed: bool)
      modifies this`cacheValid, client`keys
      ensures var r := RetryFrom(old(RefreshEnv()), attempts, waitStartMs, 0, old(client.keys));
        outcomes == r.outcomes && client.keys == r.keys && crashed == r.crashed
      ensures !crashed ==> err == RetryError(attempts, outcomes)
      ensures crashed ==> waitStartMs <= 0 && |outcomes| == 1 && err == outcomes[0] && err.Some?
      ensures Multiserver() ==> cacheValid == old(cacheValid)
      ensures !Multiserver() ==> cacheValid == if outcomes == [] then old(cacheValid) else err.None?
    {
      ghost var env := RefreshEnv();
      ghost var cur := client.keys;
      ghost var total := RetryLoop(env, attempts, waitStartMs, 0, cur, []);
      RetryLoopFrom(env, attempts, waitStartMs, 0, cur, []);
      outcomes := [];
      var i := 0;
      while i < attempts
        invariant RefreshEnv() == env && client.keys == cur
        invariant |outcomes| == i && None !in outcomes
        invariant i > 0 ==> waitStartMs > 0
        invariant RetryLoop(env, attempts, waitStartMs, i, cur, outcomes) == total
        invariant Multiserver() ==> cacheValid == old(cacheValid)
        invariant !Multiserver() ==> cacheValid == if i == 0 then old(cacheValid) else false
        decreases attempts - i
      {
        var last := RefreshAttempt(i);
        ghost var a := Attempt(env, i, cur);
        RetryLoopStep(env, attempts, waitStartMs, i, cur, outcomes, a);
        cur := client.keys;
        outcomes := outcomes + [last];
        if last.None? {
          return None, outcomes, false;
        }
        if waitStartMs <= 0 {
          // `Int63n` panics on a bound that is not positive.
          return last, outcomes, true;
        }
        i := i + 1;
      }
      err, crashed := RetryError(attempts, outcomes), false;
    }

    /** The function `retry` calls: one refresh attempt. */
    method RefreshAttempt(attempt: nat) returns (err: Option<CacheError>)
      modifies this`cacheValid, client`keys
      ensures var r := Attempt(old(RefreshEnv()), attempt, old(client.keys));
        client.keys == r.keys && err == r.err
      ensures RefreshEnv() == old(RefreshEnv())
      ensures Multiserver() ==> cacheValid == old(cacheValid)
      ensures !Multiserver() ==> cacheValid == err.None?
    {
      ghost var env, keys0 := RefreshEnv(), client.keys;
      SetToInvalid();
      PurgedAfterDelete(name, keys0, ValidFlagKey(name));
      err := ClearCache();
      if err.Some? {
        return;
      }
      assert client.keys == Cleared(env, keys0);
      ghost var afterInit := RunStep(env.init, attempt, client.keys);
      if refreshInitFunc.Some? {
        var step := refreshInitFunc.value(attempt, client.keys);
        client.keys := step.keys;
        if step.err.Some? {
          return step.err;
        }
      }
      assert client.keys == afterInit.keys && afterInit.err.None?;
      ghost var afterFill := RunStep(env.filler, attempt, client.keys);
      if refreshFillerFunc.Some? {
        var step := refreshFillerFunc.value(attempt, client.keys);
        client.keys := step.keys;
        if step.err.Some? {
          return step.err;
        }
      }
      assert client.keys == afterFill.keys && afterFill.err.None?;
      SetToValid();
      err := None;
    }

    /** Deletes every key of the cache's scope, batch by batch as the scan
        returns them. The result of each DEL is dropped: when the server
        refuses it the keys stay and the purge still reports success. */
    method ClearCache() returns (err: Option<CacheError>)
      modifies client`keys
      ensures err == if client.reachable then None else Some(Backend(Unreachable))
      ensures client.keys == if client.Verdict(DelCmd).None? then Purged(name, old(client.keys)) else old(client.keys)
    {
      var cursor := client.Matching(Scope(name));
      ghost var scoped := cursor;
      while true
        invariant cursor <= scoped
        invariant scoped == set k | k in old(client.keys) && InScope(name, k)
        invariant client.Verdict(DelCmd).None? ==>
          client.keys == map k | k in old(client.keys) && (k !in scoped || k in cursor) :: old(client.keys)[k]
        invariant client.Verdict(DelCmd).Some? ==> client.keys == old(client.keys)
        invariant !client.reachable ==> cursor == scoped
        decreases cursor
      {
        var batch, next, e := client.Scan(cursor);
        if e.Some? {
          return Lift(e);
        }
        var ignored := client.Del(batch);
        if next == {} {
          break;
        }
        cursor := next;
      }
      err := None;
    }

    /** `JSON.SET key $ content`. */
    method Store(key: string, content: string) returns (err: Option<CacheError>)
      modifies client`keys
      ensures err.None? <==> client.Verdict(JsonSetCmd).None? && !HoldsText(old(client.keys), key)
      ensures client.Verdict(JsonSetCmd).Some? ==> err == Lift(client.Verdict(JsonSetCmd))
      ensures client.Verdict(JsonSetCmd).None? && HoldsText(old(client.keys), key) ==> err == Some(Backend(WrongType))
      ensures client.keys == if err.None? then old(client.keys)[key := Entry(Json(content), None)] else old(client.keys)
    {
      var e := client.JsonSet(key, content);
      err := Lift(e);
    }

    /** Stores a document that expires, as a pipeline of `JSON.SET` and
        `EXPIRE`: each command takes effect or fails on its own, and the
        error is the first command's error, else the second's. Refused
        without a configuration and without any expiration. */
    method StoreWithExpiration(key: string, content: string, expirationTime: Option<Duration>) returns (err: Option<CacheError>)
      modifies client`keys
      ensures ExpirationFor(config, expirationTime).Failure? ==>
        err == Some(ExpirationFor(config, expirationTime).error) && client.keys == old(client.keys)
      ensures ExpirationFor(config, expirationTime).Success? ==>
        var expiration := ExpirationFor(config, expirationTime).value;
        var setErr := if client.Verdict(JsonSetCmd).Some? then client.Verdict(JsonSetCmd)
                      else if HoldsText(old(client.keys), key) then Some(WrongType) else None;
        var stored := if setErr.None? then old(client.keys)[key := Entry(Json(content), None)] else old(client.keys);
        && err == Lift(if setErr.Some? then setErr else client.Verdict(ExpireCmd))
        && client.keys == if client.Verdict(ExpireCmd).None? then Expired(stored, key, expiration) else stored
      ensures ExpirationFor(config, expirationTime).Success? && err.None? ==>
        var expiration := ExpirationFor(config, expirationTime).value;
        client.keys == if expiration > 0 then old(client.keys)[key := Entry(Json(content), Some(expiration))]
                       else old(client.keys) - {key}
      ensures ExpirationFor(config, expirationTime).Success? && ExpirationFor(config, expirationTime).value > 0 &&
              client.Verdict(JsonSetCmd).None? && client.Verdict(ExpireCmd).None? && HoldsText(old(client.keys), key) ==>
        err == Some(Backend(WrongType))
        && client.keys == old(client.keys)[key := old(client.keys)[key].(ttl := Some(ExpirationFor(config, expirationTime).value))]
    {
      if config.None? {
        return Some(ErrConfigNotSet);
      }
      var expiration := config.value.defaultExpiration;
      if expirationTime.Some? {
        expiration := expirationTime;
      }
      if expiration.None? {
        return Some(ErrExpirationNotSet);
      }
      var e := client.JsonSet(key, content);
      var e2 := client.Expire(key, expiration.value);
      err := Lift(if e.Some? then e else e2);
    }

    /** Reads a document; a cache that is not valid refuses before the store
        is read. */
    method Read(key: string) returns (r: Result<string, CacheError>)
      ensures !Validity() ==> r == Failure(ErrCacheInvalid)
      ensures Validity() ==> r == Fetched(client.reachable, client.keys, key)
    {
      var valid := IsValid();
      if !valid {
        return Failure(ErrCacheInvalid);
      }
      var reply := client.JsonGet(key);
      match reply {
        case Success(doc) => r := Success(doc);
        case Failure(e) => r := Failure(if e == KeyMissing then ErrItemNotFound else Backend(e));
      }
    }

    /** Reads a document whose expiration is to be refreshed; refused without
        a configuration and without any expiration. */
    method ReadWithExpiration(key: string, expirationTime: Option<Duration>) returns (r: Result<string, CacheError>)
      ensures ExpirationFor(config, expirationTime).Failure? ==> r == Failure(ExpirationFor(config, expirationTime).error)
      ensures ExpirationFor(config, expirationTime).Success? && !Validity() ==> r == Failure(ErrCacheInvalid)
      ensures ExpirationFor(config, expirationTime).Success? && Validity() ==> r == Fetched(client.reachable, client.keys, key)
    {
      if config.None? {
        return Failure(ErrConfigNotSet);
      }
      var expiration := config.value.defaultExpiration;
      if expirationTime.Some? {
        expiration := expirationTime;
      }
      if expiration.None? {
        return Failure(ErrExpirationNotSet);
      }
      r := Read(key);
    }

    /** Reads the documents under several keys, skipping keys without one;
        a request without keys is an arity error of `JSON.MGET`. */
    method ReadGroup(ks: seq<string>) returns (r: Result<seq<string>, CacheError>)
      ensures !Validity() ==> r == Failure(ErrCacheInvalid)
      ensures Validity() && !client.reachable ==> r == Failure(Backend(Unreachable))
      ensures Validity() && client.reachable && ks == [] ==> r == Failure(Backend(WrongArity))
      ensures Validity() && client.reachable && ks != [] ==> r == Success(Present(MGetReply(client.keys, ks)))
    {
      var valid := IsValid();
      if !valid {
        return Failure(ErrCacheInvalid);
      }
      var reply := client.JsonMGet(ks);
      if reply.Failure? {
        return Failure(Backend(reply.error));
      }
      var docs: seq<string> := [];
      for i := 0 to |reply.value|
        invariant docs == Present(reply.value[..i])
      {
        assert reply.value[..i + 1][..i] == reply.value[..i];
        if reply.value[i].None? {
          continue;
        }
        docs := docs + [reply.value[i].value];
      }
      assert reply.value[..|reply.value|] == reply.value;
      r := Success(docs);
    }

    method Delete(key: string) returns (err: Option<CacheError>)
      modifies client`keys
      ensures err == Lift(client.Verdict(DelCmd))
      ensures client.keys == if err.None? then old(client.keys) - {key} else old(client.keys)
    {
      var e := client.Del({key});
      err := Lift(e);
    }
  }
}
