/**
  The sharded cache manager: it prefixes keys with the configured namespace,
  routes each key to one shard of the pool, and stores, reads and deletes
  cache entries there. Deleting by a pattern runs an atomic list-and-delete
  script on every shard and resets the auto-load registry once per key the
  script reports.

  A manager without a pool, or a call with a null key, does nothing. In a
  pool without shards a key routes nowhere, and the request fails. Store
  failures are caught and swallowed; the only exception callers see is the
  one setCache raises for a raw key containing `*` or `?`.
 */
module ShardedCache {
  import opened Wrappers
  import opened Glob
  import opened Namespace
  import opened Store

  /** Java's `s + suffix` for a string `s` that may be null: null is written as `null`. */
  function Concat(s: Option<string>, suffix: string): string
  {
    (if s.Some? then s.value else "null") + suffix
  }

  class ShardedCachePointCut<T> {
    var namespace: Option<string>
    var shardedJedisPool: ShardedJedisPool?<T>
    const autoLoadHandler: AutoLoadHandler

    /** A new manager has no namespace and no pool; `autoLoadHandler` comes from its configuration. */
    constructor (autoLoadHandler: AutoLoadHandler)
      ensures namespace == None && shardedJedisPool == null && this.autoLoadHandler == autoLoadHandler
    {
      this.autoLoadHandler := autoLoadHandler;
      namespace := None;
      shardedJedisPool := null;
    }

    method GetNamespace() returns (r: Option<string>)
      ensures r == namespace
    {
      r := namespace;
    }

    method SetNamespace(namespace: Option<string>)
      modifies this
      ensures this.namespace == namespace
      ensures shardedJedisPool == old(shardedJedisPool)
    {
      this.namespace := namespace;
    }

    method GetShardedJedisPool() returns (r: ShardedJedisPool?<T>)
      ensures r == shardedJedisPool
    {
      r := shardedJedisPool;
    }

    method SetShardedJedisPool(pool: ShardedJedisPool?<T>)
      modifies this
      ensures shardedJedisPool == pool && namespace == old(namespace)
    {
      shardedJedisPool := pool;
    }

    /**
      Store `result` under `cacheKey` for `expire` seconds. The wrapper is
      stamped with `now` before the write; `stamped` is the caller's wrapper
      afterwards (stamped even when the write then fails).
     */
    method SetCache(cacheKey: Option<string>, result: CacheWrapper<T>, expire: int, now: int, failing: set<nat>)
      returns (outcome: Outcome, stamped: CacheWrapper<T>)
      modifies shardedJedisPool
      ensures shardedJedisPool != null ==> |shardedJedisPool.shards| == |old(shardedJedisPool.shards)|
      ensures shardedJedisPool == null || cacheKey.None? ==>
                outcome == Returned && stamped == result &&
                (shardedJedisPool != null ==> shardedJedisPool.shards == old(shardedJedisPool.shards))
      ensures shardedJedisPool != null && cacheKey.Some? && HasWildcard(cacheKey.value) ==>
                outcome == Thrown("cacheKey:" + cacheKey.value + "; has '*' or '?'") && stamped == result &&
                shardedJedisPool.shards == old(shardedJedisPool.shards)
      ensures shardedJedisPool != null && cacheKey.Some? && !HasWildcard(cacheKey.value) ==>
                var key := AppendNamespace(namespace, cacheKey.value);
                var i := shardedJedisPool.GetShard(key);
                outcome == Returned && stamped == result.(lastLoadTime := now) &&
                shardedJedisPool.shards ==
                  if i.None? || i.value in failing || expire <= 0 then old(shardedJedisPool.shards)
                  else old(shardedJedisPool.shards)[i.value := old(shardedJedisPool.shards)[i.value][key := Entry(stamped, expire)]]
    {
      stamped := result;
      if shardedJedisPool == null || cacheKey.None? {
        return Returned, stamped;
      }
      if IndexOf(cacheKey.value, '*') != -1 || IndexOf(cacheKey.value, '?') != -1 {
        return Thrown("cacheKey:" + cacheKey.value + "; has '*' or '?'"), stamped;
      }
      var key := AppendNamespace(namespace, cacheKey.value);
      stamped := stamped.(lastLoadTime := now);
      var i := shardedJedisPool.GetShard(key);
      if i.Some? {
        var _ := shardedJedisPool.Setex(i.value, key, expire, stamped, failing);
      }
      outcome := Returned;
    }

    /** The wrapper stored under `cacheKey`, or absent: unconfigured, null key, miss, or a failing shard. */
    method Get(cacheKey: Option<string>, failing: set<nat>) returns (res: Option<CacheWrapper<T>>)
      ensures shardedJedisPool == null || cacheKey.None? ==> res == None
      ensures shardedJedisPool != null && cacheKey.Some? ==>
                var key := AppendNamespace(namespace, cacheKey.value);
                var i := shardedJedisPool.GetShard(key);
                res == if i.None? || i.value in failing || key !in shardedJedisPool.shards[i.value] then None
                       else Some(shardedJedisPool.shards[i.value][key].value)
    {
      if shardedJedisPool == null || cacheKey.None? {
        return None;
      }
      res := None;
      var key := AppendNamespace(namespace, cacheKey.value);
      var i := shardedJedisPool.GetShard(key);
      if i.Some? {
        var ok, value := shardedJedisPool.Get(i.value, key, failing);
        if ok {
          res := value;
        }
      }
    }

    /**
      The effect of `delete(cacheKey)` between the old and the new state.
      `chunks` lists, shard by shard, the keys the pattern branch reported deleted.
     */
    twostate predicate DeletedAsSpecified(new cacheKey: Option<string>, failing: set<nat>, chunks: seq<seq<string>>)
      reads this, shardedJedisPool, autoLoadHandler
    {
      shardedJedisPool == old(shardedJedisPool) && namespace == old(namespace) &&
      if shardedJedisPool == null || cacheKey.None? then
        autoLoadHandler.resets == old(autoLoadHandler.resets) &&
        (shardedJedisPool != null ==> shardedJedisPool.shards == old(shardedJedisPool.shards))
      else
        var key := AppendNamespace(namespace, cacheKey.value);
        var before := old(shardedJedisPool.shards);
        if HasWildcard(key) then
          PatternPurged(before, shardedJedisPool.shards, key, failing) &&
          PurgeLog(before, key, failing, chunks) &&
          autoLoadHandler.resets == old(autoLoadHandler.resets) + Flatten(chunks)
        else
          var i := old(shardedJedisPool.GetShard(key));
          if i.None? || i.value in failing then
            shardedJedisPool.shards == before && autoLoadHandler.resets == old(autoLoadHandler.resets)
          else
            shardedJedisPool.shards == before[i.value := before[i.value] - {key}] &&
            autoLoadHandler.resets == old(autoLoadHandler.resets) + [key]
    }

    /**
      Delete `cacheKey`. A namespaced key with `*` or `?` is a pattern: every
      shard runs the delete script, and each reported key is reset. Otherwise
      the one key is deleted on its shard and reset, whether or not it existed.
     */
    method Delete(cacheKey: Option<string>, failing: set<nat>) returns (ghost chunks: seq<seq<string>>)
      modifies shardedJedisPool, autoLoadHandler
      ensures DeletedAsSpecified(cacheKey, failing, chunks)
    {
      chunks := [];
      if shardedJedisPool == null || cacheKey.None? {
        return;
      }
      var key := AppendNamespace(namespace, cacheKey.value);
      var pool := shardedJedisPool;
      if IndexOf(key, '*') != -1 || IndexOf(key, '?') != -1 {
        chunks := DeleteByPattern(pool, key, failing);
      } else {
        var i := pool.GetShard(key);
        if i.Some? {
          var ok := pool.Del(i.value, key, failing);
          if ok {
            autoLoadHandler.ResetAutoLoadLastLoadTime(key);
          }
        }
      }
    }

    /**
      The pattern branch of delete: run the delete script on every shard in
      turn, and reset each key a shard reports. A failing shard is skipped.
     */
    method DeleteByPattern(pool: ShardedJedisPool<T>, pattern: string, failing: set<nat>)
      returns (ghost chunks: seq<seq<string>>)
      modifies pool, autoLoadHandler
      ensures PatternPurged(old(pool.shards), pool.shards, pattern, failing)
      ensures PurgeLog(old(pool.shards), pattern, failing, chunks)
      ensures autoLoadHandler.resets == old(autoLoadHandler.resets) + Flatten(chunks)
    {
      chunks := [];
      ghost var before := pool.shards;
      ghost var resets0 := autoLoadHandler.resets;
      var n := |pool.shards|;
      var s := 0;
      while s < n
        invariant 0 <= s <= n == |before|
        invariant PurgedUpTo(before, pool.shards, pattern, failing, s)
        invariant |chunks| == s && LoggedUpTo(before, pattern, failing, chunks)
        invariant autoLoadHandler.resets == resets0 + Flatten(chunks)
        invariant s == n ==> PatternPurged(before, pool.shards, pattern, failing) && PurgeLog(before, pattern, failing, chunks)
      {
        ghost var shards := pool.shards;
        ghost var logged := autoLoadHandler.resets;
        var reply := pool.EvalDeleteScript(s, pattern, failing);
        ghost var chunk: seq<string> := [];
        if reply.Keys? && |reply.keys| > 0 {
          ResetAll(reply.keys);
          chunk := reply.keys;
        }
        assert autoLoadHandler.resets == logged + chunk;
        PurgeStep(before, shards, pool.shards, pattern, failing, s);
        LogStep(before, pattern, failing, chunks, chunk);
        ResetLogStep(resets0, chunks, chunk);
        chunks := chunks + [chunk];
        s := s + 1;
      }
    }

    /** Reset the auto-load state of every key a shard reported, in the reported order. */
    method ResetAll(keys: seq<string>)
      modifies autoLoadHandler
      ensures autoLoadHandler.resets == old(autoLoadHandler.resets) + keys
    {
      var k := 0;
      while k < |keys|
        invariant 0 <= k <= |keys|
        invariant autoLoadHandler.resets == old(autoLoadHandler.resets) + keys[..k]
      {
        autoLoadHandler.ResetAutoLoadLastLoadTime(keys[k]);
        k := k + 1;
      }
      assert keys[..|keys|] == keys;
    }

    /**
      Delete by the default cache key of a method call. The key derivation
      of the cache utilities is passed in: `defaultCacheKeyPrefix` and
      `defaultCacheKey` map (class name, method name, arguments, sub-key
      expression) to a key, which may be null (`None`). With
      `deleteByPrefixKey` the prefix followed by `*` is deleted as a pattern;
      Java's concatenation turns a null prefix into `null*`.
     */
    method DeleteByDefaultCacheKey(className: string, methodName: string, arguments: seq<object?>,
                                   subKeySpEL: string, deleteByPrefixKey: bool,
                                   defaultCacheKeyPrefix: (string, string, seq<object?>, string) -> Option<string>,
                                   defaultCacheKey: (string, string, seq<object?>, string) -> Option<string>,
                                   failing: set<nat>)
      returns (ghost chunks: seq<seq<string>>)
      modifies shardedJedisPool, autoLoadHandler
      ensures DeletedAsSpecified(
                if deleteByPrefixKey then Some(Concat(defaultCacheKeyPrefix(className, methodName, arguments, subKeySpEL), "*"))
                else defaultCacheKey(className, methodName, arguments, subKeySpEL),
                failing, chunks)
    {
      var cacheKey;
      if deleteByPrefixKey {
        cacheKey := Some(Concat(defaultCacheKeyPrefix(className, methodName, arguments, subKeySpEL), "*"));
      } else {
        cacheKey := defaultCacheKey(className, methodName, arguments, subKeySpEL);
      }
      chunks := Delete(cacheKey, failing);
    }

    /**
      Delete by a key that `definedCacheKey` derives from a key expression and
      the arguments; a null key makes the delete a no-op.
     */
    method DeleteDefinedCacheKey(keySpEL: string, arguments: seq<object?>,
                                 definedCacheKey: (string, seq<object?>) -> Option<string>, failing: set<nat>)
      returns (ghost chunks: seq<seq<string>>)
      modifies shardedJedisPool, autoLoadHandler
      ensures DeletedAsSpecified(definedCacheKey(keySpEL, arguments), failing, chunks)
    {
      var cacheKey := definedCacheKey(keySpEL, arguments);
      chunks := Delete(cacheKey, failing);
    }
  }

  /**
    Reading a key right after storing it on a reachable shard returns the
    stored wrapper with its fresh load time: both calls namespace and route
    the key the same way.
   */
  method SetThenGet<T>(cache: ShardedCachePointCut<T>, cacheKey: string, result: CacheWrapper<T>,
                       expire: int, now: int, failing: set<nat>)
    returns (got: Option<CacheWrapper<T>>)
    requires cache.shardedJedisPool != null
    requires !HasWildcard(cacheKey) && expire > 0
    requires var i := cache.shardedJedisPool.GetShard(AppendNamespace(cache.namespace, cacheKey));
             i.Some? && i.value !in failing
    modifies cache.shardedJedisPool
    ensures got == Some(result.(lastLoadTime := now))
  {
    var outcome, stamped := cache.SetCache(Some(cacheKey), result, expire, now, failing);
    got := cache.Get(Some(cacheKey), failing);
  }

  /** After an exact delete on a reachable shard the key reads as absent, and its reset is logged. */
  method DeleteThenGet<T>(cache: ShardedCachePointCut<T>, cacheKey: string, failing: set<nat>)
    returns (got: Option<CacheWrapper<T>>)
    requires cache.shardedJedisPool != null
    requires !HasWildcard(AppendNamespace(cache.namespace, cacheKey))
    requires var i := cache.shardedJedisPool.GetShard(AppendNamespace(cache.namespace, cacheKey));
             i.Some? && i.value !in failing
    modifies cache.shardedJedisPool, cache.autoLoadHandler
    ensures got == None
    ensures cache.autoLoadHandler.resets == old(cache.autoLoadHandler.resets) + [AppendNamespace(cache.namespace, cacheKey)]
  {
    ghost var chunks := cache.Delete(Some(cacheKey), failing);
    got := cache.Get(Some(cacheKey), failing);
  }

  /**
    After a pattern delete, every key whose effective key matches the
    effective pattern reads as absent when its shard was reachable, and the
    number of resets logged for it is the number of reachable shards where
    it matched.
   */
  method PatternDeleteThenGet<T>(cache: ShardedCachePointCut<T>, pattern: string, cacheKey: string, failing: set<nat>)
    returns (got: Option<CacheWrapper<T>>)
    requires cache.shardedJedisPool != null
    requires HasWildcard(AppendNamespace(cache.namespace, pattern))
    requires Matches(AppendNamespace(cache.namespace, pattern), AppendNamespace(cache.namespace, cacheKey))
    requires var i := cache.shardedJedisPool.GetShard(AppendNamespace(cache.namespace, cacheKey));
             i.Some? && i.value !in failing
    modifies cache.shardedJedisPool, cache.autoLoadHandler
    ensures got == None
    ensures old(cache.autoLoadHandler.resets) <= cache.autoLoadHandler.resets
    ensures var logged := cache.autoLoadHandler.resets[|old(cache.autoLoadHandler.resets)|..];
            multiset(logged)[AppendNamespace(cache.namespace, cacheKey)] ==
              ShardsMatching(old(cache.shardedJedisPool.shards), AppendNamespace(cache.namespace, pattern), failing,
                             AppendNamespace(cache.namespace, cacheKey), |old(cache.shardedJedisPool.shards)|)
  {
    ghost var before := cache.shardedJedisPool.shards;
    ghost var resets0 := cache.autoLoadHandler.resets;
    ghost var chunks := cache.Delete(Some(pattern), failing);
    got := cache.Get(Some(cacheKey), failing);
    ghost var p := AppendNamespace(cache.namespace, pattern);
    ResetCount(before, p, failing, chunks, AppendNamespace(cache.namespace, cacheKey), |before|);
    assert chunks[..|before|] == chunks;
    assert cache.autoLoadHandler.resets[|resets0|..] == Flatten(chunks);
  }
}
