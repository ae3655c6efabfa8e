/** The Redis server as the cache sees it: a keyspace of string keys, each
    holding a plain string (the flags) or a JSON document, with an optional
    time to live, and whether the server answers at all. Only the commands the
    cache issues are modelled, each as a method on the shared keyspace. */
module Redis {
  import opened Wrappers

  /** `time.Duration`, in nanoseconds. */
  type Duration = int

  /** go-redis's `KeepTTL` argument of SET: keep the key's current expiration. */
  const KeepTTL: Duration := -1

  datatype Value = Text(text: string) | Json(doc: string)

  /** A stored value and its remaining time to live (`None`: no expiration). */
  datatype Entry = Entry(value: Value, ttl: Option<Duration>)

  type Keyspace = map<string, Entry>

  /** `redis.Nil` (no such key), a server that does not answer, a command
      applied to a key of the wrong kind, a command given no keys, and a
      write the server rejects (a read-only replica, the memory limit, a
      failed snapshot). */
  datatype RedisError = KeyMissing | Unreachable | WrongType | WrongArity | Refused

  /** The write commands the cache issues. */
  datatype Command = SetCmd | DelCmd | JsonSetCmd | ExpireCmd

  /** `JSON.SET` refuses a key that holds a plain string. */
  predicate HoldsText(keys: Keyspace, key: string)
  {
    key in keys && keys[key].value.Text?
  }

  /** The expiration SET gives a key for go-redis's expiration argument: a
      positive duration expires, `KeepTTL` keeps what the key had, anything
      else means no expiration. */
  function TtlFor(expiration: Duration, keys: Keyspace, key: string): (ttl: Option<Duration>)
    ensures expiration > 0 ==> ttl == Some(expiration)
    ensures expiration == 0 ==> ttl.None?
    ensures ttl.Some? && expiration <= 0 ==> expiration == KeepTTL && key in keys && ttl == keys[key].ttl
  {
    if expiration > 0 then Some(expiration)
    else if expiration == KeepTTL && key in keys then keys[key].ttl
    else None
  }

  /** The keyspace after `SET key value expiration`. */
  function Stored(keys: Keyspace, key: string, value: Value, expiration: Duration): (r: Keyspace)
    ensures key in r && r[key].value == value
    ensures forall k :: k != key ==> (k in r <==> k in keys) && (k in keys ==> r[k] == keys[k])
  {
    keys[key := Entry(value, TtlFor(expiration, keys, key))]
  }

  /** The keyspace after `EXPIRE key expiration`: a non-positive expiration
      deletes the key, a missing key is left missing. */
  function Expired(keys: Keyspace, key: string, expiration: Duration): (r: Keyspace)
    ensures key in r <==> key in keys && expiration > 0
    ensures key in r ==> r[key] == keys[key].(ttl := Some(expiration))
    ensures forall k :: k != key ==> (k in r <==> k in keys) && (k in keys ==> r[k] == keys[k])
  {
    if key !in keys then keys
    else if expiration > 0 then keys[key := keys[key].(ttl := Some(expiration))]
    else keys - {key}
  }

  /** The reply of `JSON.GET key`. */
  function JsonGetReply(reachable: bool, keys: Keyspace, key: string): (r: Result<string, RedisError>)
    ensures r.Success? <==> reachable && key in keys && keys[key].value.Json?
    ensures r.Success? ==> r.value == keys[key].value.doc
    ensures r == Failure(KeyMissing) <==> reachable && key !in keys
  {
    if !reachable then Failure(Unreachable)
    else if key !in keys then Failure(KeyMissing)
    else match keys[key].value
      case Json(doc) => Success(doc)
      case Text(_) => Failure(WrongType)
  }

  /** One element of the reply of `JSON.MGET`: the document, or nil for a
      missing key or a key that does not hold JSON. */
  function DocAt(keys: Keyspace, key: string): Option<string>
  {
    if key in keys && keys[key].value.Json? then Some(keys[key].value.doc) else None
  }

  /** The reply of `JSON.MGET k1 k2 ... $`: one element per key, in order. */
  function MGetReply(keys: Keyspace, ks: seq<string>): (r: seq<Option<string>>)
    ensures |r| == |ks|
  {
    seq(|ks|, i requires 0 <= i < |ks| => DocAt(keys, ks[i]))
  }

  /** The server: its keyspace, shared by every cache holding this client,
      whether it answers, and which write commands it rejects. */
  class Client {
    var keys: Keyspace
    var reachable: bool
    var refused: set<Command>

    constructor (reachable: bool)
      ensures keys == map[] && this.reachable == reachable && refused == {}
    {
      keys := map[];
      this.reachable := reachable;
      refused := {};
    }

    /** How the server answers a write command before applying it. */
    function Verdict(c: Command): Option<RedisError>
      reads this`reachable, this`refused
    {
      if !reachable then Some(Unreachable) else if c in refused then Some(Refused) else None
    }

    /** The keys matching the pattern `prefix*`. */
    function Matching(prefix: string): set<string>
      reads this`keys
    {
      set k | k in keys && prefix <= k
    }

    /** `SET key value expiration`: a string value replaces whatever the key
        held. */
    method Set(key: string, value: Value, expiration: Duration) returns (err: Option<RedisError>)
      modifies this`keys
      ensures err == Verdict(SetCmd)
      ensures err.None? <==> reachable && SetCmd !in refused
      ensures keys == if err.None? then Stored(old(keys), key, value, expiration) else old(keys)
    {
      err := Verdict(SetCmd);
      if err.None? {
        keys := Stored(keys, key, value, expiration);
      }
    }

    /** `JSON.SET key $ doc`: the key now holds the document, unless it holds
        a plain string. */
    method JsonSet(key: string, doc: string) returns (err: Option<RedisError>)
      modifies this`keys
      ensures err == if Verdict(JsonSetCmd).Some? then Verdict(JsonSetCmd)
                     else if HoldsText(old(keys), key) then Some(WrongType) else None
      ensures err.None? <==> reachable && JsonSetCmd !in refused && !HoldsText(old(keys), key)
      ensures keys == if err.None? then old(keys)[key := Entry(Json(doc), None)] else old(keys)
    {
      err := Verdict(JsonSetCmd);
      if err.Some? {
        return;
      }
      if HoldsText(keys, key) {
        return Some(WrongType);
      }
      keys := keys[key := Entry(Json(doc), None)];
    }

    /** `EXPIRE key expiration`. */
    method Expire(key: string, expiration: Duration) returns (err: Option<RedisError>)
      modifies this`keys
      ensures err == Verdict(ExpireCmd)
      ensures err.None? <==> reachable && ExpireCmd !in refused
      ensures keys == if err.None? then Expired(old(keys), key, expiration) else old(keys)
    {
      err := Verdict(ExpireCmd);
      if err.None? {
        keys := Expired(keys, key, expiration);
      }
    }

    /** `DEL k1 k2 ...`; a call without keys is an arity error. */
    method Del(ks: set<string>) returns (err: Option<RedisError>)
      modifies this`keys
      ensures err == if !reachable then Some(Unreachable) else if ks == {} then Some(WrongArity) else Verdict(DelCmd)
      ensures err.None? <==> reachable && ks != {} && DelCmd !in refused
      ensures keys == if err.None? then old(keys) - ks else old(keys)
    {
      if !reachable {
        return Some(Unreachable);
      }
      if ks == {} {
        return Some(WrongArity);
      }
      err := Verdict(DelCmd);
      if err.None? {
        keys := keys - ks;
      }
    }

    /** `EXISTS key`: how many of the given keys exist. */
    method Exists(key: string) returns (count: int, err: Option<RedisError>)
      ensures err == (if reachable then None else Some(Unreachable))
      ensures count == if reachable && key in keys then 1 else 0
    {
      if !reachable {
        return 0, Some(Unreachable);
      }
      count := if key in keys then 1 else 0;
      err := None;
    }

    /** `JSON.GET key`. */
    method JsonGet(key: string) returns (r: Result<string, RedisError>)
      ensures r == JsonGetReply(reachable, keys, key)
    {
      if !reachable {
        return Failure(Unreachable);
      }
      if key !in keys {
        return Failure(KeyMissing);
      }
      match keys[key].value {
        case Json(doc) => r := Success(doc);
        case Text(_) => r := Failure(WrongType);
      }
    }

    /** `JSON.MGET k1 k2 ... $`: one reply element per key, in order; a call
        without keys is an arity error. */
    method JsonMGet(ks: seq<string>) returns (r: Result<seq<Option<string>>, RedisError>)
      ensures !reachable ==> r == Failure(Unreachable)
      ensures reachable && ks == [] ==> r == Failure(WrongArity)
      ensures reachable && ks != [] ==> r == Success(MGetReply(keys, ks))
      ensures r.Success? ==> forall i :: 0 <= i < |ks| ==> r.value[i] == DocAt(keys, ks[i])
    {
      if !reachable {
        return Failure(Unreachable);
      }
      if ks == [] {
        return Failure(WrongArity);
      }
      r := Success(MGetReply(keys, ks));
    }

    /** One `SCAN` step. The cursor is modelled as the set of matching keys
        the scan has still to return; a step returns some of them (at least
        one while any are left) and the rest as the next cursor. A real server
        may also answer a step with no keys and a cursor that is not yet zero,
        which only adds steps to the loop that drives the scan; the model
        leaves that out so that every step makes progress. This server returns
        them all at once; callers rely only on the contract. A step fails
        only when the server does not answer, which does not change during
        a scan. */
    method Scan(cursor: set<string>) returns (batch: set<string>, next: set<string>, err: Option<RedisError>)
      ensures err == (if reachable then None else Some(Unreachable))
      ensures err.None? ==> batch + next == cursor && batch !! next
      ensures err.None? && cursor != {} ==> batch != {}
    {
      if !reachable {
        return {}, cursor, Some(Unreachable);
      }
      batch, next, err := cursor, {}, None;
    }

    /** Time passes and a key with an expiration expires. */
    method Lapse(key: string)
      requires key in keys && keys[key].ttl.Some?
      modifies this`keys
      ensures keys == old(keys) - {key}
    {
      keys := keys - {key};
    }
  }
}
