/**
 * RedisService: a key-value cache in front of a Redis server.  Every key is
 * stored under the service's prefix; the server's contents are modelled as a
 * map from full keys to entries, and its replies as functions over that map.
 */
module Redis {
  import opened Exceptions

  /** What `set` is given: a string is stored as it is, anything else as JSON.stringify(value). */
  datatype Value = Text(text: string) | Structured(json: string)

  /** A stored string and the expiry (in seconds) attached when it was set, if any. */
  datatype Entry = Entry(data: string, ttl: Option<int>)

  type Store = map<string, Entry>

  const SetMessage := "Data set for key: "
  const KeyNotFoundMessage := "Key not found in cache: "

  /** The reply of the Redis server to SET ... EX with a non-positive expiry. */
  const InvalidExpireMessage := "ERR invalid expire time in 'set' command"

  /** The constructor's choice: the production prefix exactly when NODE_ENV holds the production value. */
  function KeyPrefix(nodeEnv: Option<string>, prodEnv: string, prodPrefix: string, devPrefix: string): (prefix: string)
    ensures nodeEnv == Some(prodEnv) ==> prefix == prodPrefix
    ensures nodeEnv != Some(prodEnv) ==> prefix == devPrefix
  {
    if nodeEnv == Some(prodEnv) then prodPrefix else devPrefix
  }

  function FormatKey(prefix: string, key: string): string {
    prefix + key
  }

  /** Distinct keys are stored under distinct full keys. */
  lemma FormatKeyInjective(prefix: string, a: string, b: string)
    requires a != b
    ensures FormatKey(prefix, a) != FormatKey(prefix, b)
  {
    assert FormatKey(prefix, a)[|prefix|..] == a;
    assert FormatKey(prefix, b)[|prefix|..] == b;
  }

  function Stringify(v: Value): string {
    match v
    case Text(s) => s
    case Structured(json) => json
  }

  /** SET fullKey data [EX ttl]: overwrite the entry, or fail on a non-positive expiry. */
  function Write(store: Store, fullKey: string, data: string, ttl: Option<int>): Result<Store> {
    if ttl.Some? && ttl.value <= 0 then Err(CacheReplyError(InvalidExpireMessage))
    else Ok(store[fullKey := Entry(data, ttl)])
  }

  /** GET fullKey, with `get` turning a missing key and an empty string alike into null (None). */
  function Read(store: Store, fullKey: string): Option<string> {
    if fullKey in store && store[fullKey].data != "" then Some(store[fullKey].data) else None
  }

  /** DEL fullKey, with `del` turning a count of 0 into a NotFoundException. */
  function Remove(store: Store, fullKey: string): Result<Store> {
    if fullKey in store then Ok(store - {fullKey})
    else Err(NotFound(KeyNotFoundMessage + fullKey))
  }

  /** A write succeeds exactly when its expiry, if any, is positive, and then replaces only its own entry. */
  lemma WriteOverwrites(store: Store, fullKey: string, data: string, ttl: Option<int>)
    ensures Write(store, fullKey, data, ttl).Ok? <==> (ttl.None? || ttl.value > 0)
    ensures Write(store, fullKey, data, ttl).Err? ==>
              Write(store, fullKey, data, ttl).error == CacheReplyError(InvalidExpireMessage)
    ensures Write(store, fullKey, data, ttl).Ok? ==>
              var s := Write(store, fullKey, data, ttl).value;
              && s.Keys == store.Keys + {fullKey}
              && s[fullKey] == Entry(data, ttl)
              && forall k :: k in store && k != fullKey ==> s[k] == store[k]
  {
  }

  /** set(k, s) followed by get(k) gives s back for a non-empty s, and null for the empty string. */
  lemma WriteThenRead(store: Store, fullKey: string, data: string, ttl: Option<int>)
    requires ttl.None? || ttl.value > 0
    ensures Write(store, fullKey, data, ttl).Ok?
    ensures Read(Write(store, fullKey, data, ttl).value, fullKey) == if data == "" then None else Some(data)
  {
  }

  /** Writing one key does not change what any other key reads. */
  lemma WriteKeepsOtherKeys(store: Store, fullKey: string, data: string, ttl: Option<int>, other: string)
    requires other != fullKey
    requires Write(store, fullKey, data, ttl).Ok?
    ensures Read(Write(store, fullKey, data, ttl).value, other) == Read(store, other)
  {
  }

  /**
   * del on a present key removes that key only; on an absent key it fails with
   * NotFoundException and the store stays as it was.
   */
  lemma RemoveOnlyItsKey(store: Store, fullKey: string)
    ensures Remove(store, fullKey).Ok? <==> fullKey in store
    ensures Remove(store, fullKey).Err? ==> Remove(store, fullKey).error == NotFound(KeyNotFoundMessage + fullKey)
    ensures Remove(store, fullKey).Ok? ==>
              var s := Remove(store, fullKey).value;
              && s.Keys == store.Keys - {fullKey}
              && (forall k :: k in s ==> s[k] == store[k])
              && Read(s, fullKey).None?
  {
  }

  class RedisService {
    /** The prefix every key is stored under. */
    const keyPrefix: string
    /** The contents of the Redis database, by full key. */
    var store: Store

    constructor (nodeEnv: Option<string>, prodEnv: string, prodPrefix: string, devPrefix: string, contents: Store)
      ensures keyPrefix == KeyPrefix(nodeEnv, prodEnv, prodPrefix, devPrefix)
      ensures store == contents
    {
      keyPrefix := KeyPrefix(nodeEnv, prodEnv, prodPrefix, devPrefix);
      store := contents;
    }

    /** set(key, value, ttl?): the expiry is attached only when a ttl is given. */
    method Set(key: string, value: Value, ttl: Option<int>) returns (r: Result<string>)
      modifies this
      ensures var full := FormatKey(keyPrefix, key);
              var w := Write(old(store), full, Stringify(value), ttl);
              && (w.Ok? ==> store == w.value && r == Ok(SetMessage + full))
              && (w.Err? ==> store == old(store) && r == Err(w.error))
    {
      var fullKey := keyPrefix + key;
      var stringValue := match value case Text(s) => s case Structured(json) => json;
      if ttl.Some? {
        if ttl.value <= 0 {
          return Err(CacheReplyError(InvalidExpireMessage));
        }
        store := store[fullKey := Entry(stringValue, Some(ttl.value))];
      } else {
        store := store[fullKey := Entry(stringValue, None)];
      }
      return Ok(SetMessage + fullKey);
    }

    method Get(key: string) returns (r: Option<string>)
      ensures r == Read(store, FormatKey(keyPrefix, key))
    {
      var fullKey := keyPrefix + key;
      if fullKey !in store {
        return None;
      }
      var value := store[fullKey].data;
      if value == "" {
        return None;
      }
      return Some(value);
    }

    method Del(key: string) returns (r: Result<int>)
      modifies this
      ensures var full := FormatKey(keyPrefix, key);
              var d := Remove(old(store), full);
              && (d.Ok? ==> store == d.value && r == Ok(1))
              && (d.Err? ==> store == old(store) && r == Err(d.error))
    {
      var fullKey := keyPrefix + key;
      var result := if fullKey in store then 1 else 0;
      if result == 0 {
        return Err(NotFound(KeyNotFoundMessage + fullKey));
      }
      store := store - {fullKey};
      return Ok(result);
    }
  }
}
