# Sharded cache manager of AutoLoadCache, modelled in Dafny

This project models `ShardedCachePointCut`, the cache manager that AutoLoadCache
puts in front of a sharded Redis deployment. The manager:

- prefixes every key with the configured namespace (`namespace + ":" + key`);
- routes each key to one shard of the `ShardedJedisPool`;
- stores (`setCache`), reads (`get`) and deletes (`delete`) cache entries there.

A delete whose namespaced key contains `*` or `?` is a pattern delete. It runs a
Lua script on every shard. In one atomic step the script lists the keys
matching the pattern, deletes them and returns them. The manager then asks the
auto-load handler to reset the last-load time of each returned key. Any other
delete removes one key on its shard and resets that one key.

Files and modules:

- `wrappers.dfy` (`Wrappers`): `Option` for Java references that may be null, and `Outcome` for a call that returns or throws.
- `glob.dfy` (`Glob`): Java's `indexOf`, the wildcard test, and key-glob matching for `*` and `?`.
- `namespace.dfy` (`Namespace`): namespace prefixing and its properties.
- `store.dfy` (`Store`): the stored values, the shard pool with its commands (SETEX, GET, DEL, the delete script), the auto-load handler as a log of reset calls, and the lemmas about pattern deletion.
- `sharded_cache.dfy` (`ShardedCache`): the manager class, and client methods that combine its calls.

How the model stands in for the environment:

- Shards are a `seq<map<string, Entry<T>>>` held by a `ShardedJedisPool` object. A key goes to shard `route(key) % shardCount`, where `route` is a fixed function.
- The manager's `shardedJedisPool` field is a nullable reference, as in the source. A null pool turns every operation into a no-op.
- A pool may hold no shards. Routing a key then raises (`GetShard` is `None`), which the manager catches: `setCache` and an exact `delete` change nothing and `get` returns absent. A pattern `delete` visits no shard.
- A null key is `None`.
- The clock (`System.currentTimeMillis()`) is the parameter `now`.
- Store failures are the parameter `failing`, the set of shard indices that cannot be reached during that call. A request to such a shard raises before the shard changes anything. The manager catches the exception, as the source does.
- The stored `expire` is kept as an integer. SETEX with an expire time that is not positive is refused, because Redis rejects it with an error. The manager swallows that error like any other.
- Redis's KEYS command returns keys in no specified order. `KeysMatching` picks them in an arbitrary order. So `Delete` states which keys are reset, shard by shard, not their order within one shard.
- `setCache` stamps `lastLoadTime` on the caller's wrapper in place. The model returns the stamped wrapper as `stamped`. The stamp happens even when the write then fails.

Where the code and the design intent differ, the model follows the code:

- `setCache` checks the raw key for wildcards before it adds the namespace (lines 63-66). `delete` checks the namespaced key (lines 144-147). A namespace containing `*` or `?` therefore lets `setCache` store an effective key that `delete` treats as a pattern. `Namespace.WildcardNamespaceEscapesSetCheck` exhibits this. `Namespace.NamespacedKeyWildcard` shows that the two checks agree when the namespace has no wildcard.
- The exact-key delete resets the key only after `del` returned (lines 177-178). When `del` raises, no reset is logged, although one might expect a reset after every delete attempt.

## Model

| member | source | states |
|---|---|---|
| Glob.IndexOf | src/main/java/com/jarvis/cache/redis/ShardedCachePointCut.java:63 | `indexOf` is -1 exactly when the character is absent; otherwise it is the position of the first occurrence |
| Glob.HasWildcard | src/main/java/com/jarvis/cache/redis/ShardedCachePointCut.java:147 | the two `indexOf` tests hold exactly when the key contains `*` or `?` |
| Glob.GlobMatch | src/main/java/com/jarvis/cache/redis/ShardedCachePointCut.java:152 | the matcher's walk over a key: a match of a pattern without `*` has exactly the pattern's length, because each literal and each `?` takes one character |
| Glob.Matches | src/main/java/com/jarvis/cache/redis/ShardedCachePointCut.java:152 | the test KEYS applies: a match of a pattern without `*` has exactly the pattern's length; the empty key is listed only for the empty pattern and the lone `*` |
| Glob.StarRunMatches | src/main/java/com/jarvis/cache/redis/ShardedCachePointCut.java:152 | a non-empty pattern of only `*`s matches every non-empty key, but matches the empty key only when it is the lone `*` (so `**` does not list the key `""`) |
| Glob.StarFreeMatches | src/main/java/com/jarvis/cache/redis/ShardedCachePointCut.java:152 | a pattern without `*` matches exactly the keys of its length that agree with it wherever it has no `?`, both directions |
| Glob.StarMatchesEverything | src/main/java/com/jarvis/cache/redis/ShardedCachePointCut.java:152 | the glob `*` matches every key, the empty key included |
| Glob.LiteralPatternMatchesItselfOnly | src/main/java/com/jarvis/cache/redis/ShardedCachePointCut.java:152 | a pattern without wildcards matches exactly the key equal to it |
| Glob.PrefixStarMatchesExtensions | src/main/java/com/jarvis/cache/redis/ShardedCachePointCut.java:115 | a wildcard-free prefix followed by `*` matches exactly the keys that start with the prefix |
| Namespace.AppendNamespace | src/main/java/com/jarvis/cache/redis/ShardedCachePointCut.java:51-56 | a null or empty namespace leaves the key unchanged; otherwise the effective key is the namespace, then `:`, then the raw key, character by character |
| Namespace.NamespacePrefix | src/main/java/com/jarvis/cache/redis/ShardedCachePointCut.java:51-56 | the prefix is empty without a non-empty namespace, and otherwise is the namespace followed by `:` |
| Namespace.AppendNamespaceIsPrefixing | src/main/java/com/jarvis/cache/redis/ShardedCachePointCut.java:51-56 | the effective key is the namespace prefix followed by the raw key; a null or empty namespace leaves the key unchanged; namespace `ns` and key `k` give `ns:k` |
| Namespace.AppendNamespaceInjective | src/main/java/com/jarvis/cache/redis/ShardedCachePointCut.java:51-56 | under one namespace, distinct raw keys get distinct effective keys |
| Namespace.NamespacedKeyWildcard | src/main/java/com/jarvis/cache/redis/ShardedCachePointCut.java:144-147 | the effective key has a wildcard exactly when the raw key or the namespace has one |
| Namespace.WildcardNamespaceEscapesSetCheck | src/main/java/com/jarvis/cache/redis/ShardedCachePointCut.java:63-66 | with namespace `a*`, the raw key `k` passes the setCache check while its effective key is a delete pattern |
| Namespace.NamespacedPrefixPattern | src/main/java/com/jarvis/cache/redis/ShardedCachePointCut.java:115 | under a wildcard-free namespace, deleting the prefix plus `*` targets exactly the stored keys that begin with the namespaced prefix |
| Store.Purge | src/main/java/com/jarvis/cache/redis/ShardedCachePointCut.java:152-154 | the script leaves exactly the non-matching keys of a shard, each with its old value |
| Store.FlattenMembers | src/main/java/com/jarvis/cache/redis/ShardedCachePointCut.java:155-163 | a key is in the reset log of a pattern delete exactly when some shard's report holds it |
| Store.EnumerationSize | src/main/java/com/jarvis/cache/redis/ShardedCachePointCut.java:160-162 | one reset for each key a shard reports: the report is as long as the set of matching keys |
| Store.ResetCount | src/main/java/com/jarvis/cache/redis/ShardedCachePointCut.java:155-163 | a pattern delete resets each key once per reachable shard on which it matched, whichever shard that is |
| Store.ResetTotal | src/main/java/com/jarvis/cache/redis/ShardedCachePointCut.java:155-163 | the number of resets equals the number of matching keys on the reachable shards |
| Store.NoMatchNoResets | src/main/java/com/jarvis/cache/redis/ShardedCachePointCut.java:153-159 | when no reachable shard has a matching key (the script's nil reply), no reset is logged |
| Store.PurgeIdempotent | src/main/java/com/jarvis/cache/redis/ShardedCachePointCut.java:152-154 | after the script ran, a second run finds no matching key and changes nothing |
| Store.LiteralPurgeIsExactDelete | src/main/java/com/jarvis/cache/redis/ShardedCachePointCut.java:147-177 | the script with a wildcard-free pattern would remove the same single key as `del` |
| Store.KeysMatching | src/main/java/com/jarvis/cache/redis/ShardedCachePointCut.java:152 | KEYS lists every matching key of the shard exactly once |
| Store.ShardedJedisPool.GetShard | src/main/java/com/jarvis/cache/redis/ShardedCachePointCut.java:71 | every key is routed to one existing shard; a pool with no shards routes no key |
| Store.ShardedJedisPool.Setex | src/main/java/com/jarvis/cache/redis/ShardedCachePointCut.java:72 | SETEX writes exactly one entry on its shard, or nothing when the shard fails or the expire time is not positive |
| Store.ShardedJedisPool.Get | src/main/java/com/jarvis/cache/redis/ShardedCachePointCut.java:92 | GET yields the stored wrapper or absent, and reports a failing shard |
| Store.ShardedJedisPool.Del | src/main/java/com/jarvis/cache/redis/ShardedCachePointCut.java:177 | DEL removes exactly one key from its shard, absent or not, or does nothing on a failing shard |
| Store.ShardedJedisPool.EvalDeleteScript | src/main/java/com/jarvis/cache/redis/ShardedCachePointCut.java:151-158 | on a reachable shard, one step that removes every matching key and replies nil (no match) or the list of removed keys; a failing shard is left unchanged |
| Store.AutoLoadHandler.ResetAutoLoadLastLoadTime | src/main/java/com/jarvis/cache/redis/ShardedCachePointCut.java:161 | each call logs exactly one reset for its key |
| ShardedCache.ShardedCachePointCut.constructor | src/main/java/com/jarvis/cache/redis/ShardedCachePointCut.java:35-37 | a new manager has no namespace and no pool |
| ShardedCache.ShardedCachePointCut.GetNamespace | src/main/java/com/jarvis/cache/redis/ShardedCachePointCut.java:39-41 | returns the configured namespace |
| ShardedCache.ShardedCachePointCut.SetNamespace | src/main/java/com/jarvis/cache/redis/ShardedCachePointCut.java:43-45 | replaces the namespace and nothing else |
| ShardedCache.ShardedCachePointCut.GetShardedJedisPool | src/main/java/com/jarvis/cache/redis/ShardedCachePointCut.java:187-189 | returns the configured pool |
| ShardedCache.ShardedCachePointCut.SetShardedJedisPool | src/main/java/com/jarvis/cache/redis/ShardedCachePointCut.java:191-193 | replaces the pool, whatever its number of shards, and nothing else |
| ShardedCache.ShardedCachePointCut.SetCache | src/main/java/com/jarvis/cache/redis/ShardedCachePointCut.java:58-78 | no pool or null key: nothing happens; raw key with a wildcard: throws the source's message and changes nothing; otherwise: stamps `now`, and when the key routes to a reachable shard and the expire is positive writes exactly the namespaced key on its routed shard, leaving all else unchanged; never throws except for the wildcard case |
| ShardedCache.ShardedCachePointCut.Get | src/main/java/com/jarvis/cache/redis/ShardedCachePointCut.java:80-100 | no pool or null key: absent; otherwise the wrapper stored under the namespaced key on its routed shard, or absent on a miss, a failing shard or a pool with no shards |
| ShardedCache.ShardedCachePointCut.Delete | src/main/java/com/jarvis/cache/redis/ShardedCachePointCut.java:139-185 | no pool or null key: nothing changes; exact key on a reachable shard: that key leaves its routed shard and exactly one reset for it is logged, present or not; exact key on a failing shard or in a pool with no shards: nothing changes; pattern: each reachable shard loses exactly its matching keys, failing shards stay, and the log grows by each reachable shard's removed keys, shard by shard; it never throws |
| ShardedCache.ShardedCachePointCut.DeleteByPattern | src/main/java/com/jarvis/cache/redis/ShardedCachePointCut.java:148-172 | the loop over all shards: each reachable shard loses exactly its matching keys, failing shards stay unchanged and the loop goes on, and the log grows by each shard's report in shard order |
| ShardedCache.ShardedCachePointCut.ResetAll | src/main/java/com/jarvis/cache/redis/ShardedCachePointCut.java:159-163 | the inner loop logs one reset per reported key, in the reported order |
| ShardedCache.ShardedCachePointCut.DeleteByDefaultCacheKey | src/main/java/com/jarvis/cache/redis/ShardedCachePointCut.java:110-123 | has exactly the effect of `delete` on the default key (a no-op when it is null), or on the default prefix plus `*` (`null*` for a null prefix) |
| ShardedCache.ShardedCachePointCut.DeleteDefinedCacheKey | src/main/java/com/jarvis/cache/redis/ShardedCachePointCut.java:130-133 | has exactly the effect of `delete` on the key derived from the expression, a no-op when that key is null |
| ShardedCache.SetThenGet | src/main/java/com/jarvis/cache/redis/ShardedCachePointCut.java:66-93 | `get` right after a successful `setCache` returns the wrapper with its new load time |
| ShardedCache.DeleteThenGet | src/main/java/com/jarvis/cache/redis/ShardedCachePointCut.java:174-178 | after an exact delete on a reachable shard the key reads as absent and one reset for it is logged |
| ShardedCache.PatternDeleteThenGet | src/main/java/com/jarvis/cache/redis/ShardedCachePointCut.java:147-167 | after a pattern delete, a matching key on a reachable shard reads as absent, and it was reset once per reachable shard where it matched |

## Left out

- Pool and connection lifecycle (`getResource`, `close`, lines 47-49): acquisition always succeeds here. When `getResource` fails, the source calls `close()` on null in the `finally` block and throws; that path is not modelled.
- Consistent hashing inside `ShardedJedis`: replaced by the fixed routing `route(key) % shardCount`. `getAllShards` is taken in shard index order.
- Key and value serializers: treated as the identity. Serialization failures are not modelled. For example, a value whose object graph cannot be serialized makes line 72 raise after the stamp, the error is caught, and nothing is written. Deserialization failures and corrupt stored bytes are not modelled either. A null wrapper passed to `setCache` is not modelled. Line 69 then raises before line 70 has taken a connection. The error is caught, but the `finally` block calls `returnResource(null)`, whose `close()` raises again, so `setCache` throws.
- Real TTL expiry: `expire` is only stored.
- Glob.Matches and Glob.GlobMatch: `?` matches one character of the key, while the store matches one byte of the key's UTF-8 encoding. For a key with non-ASCII characters the model's pattern delete therefore differs from the store's. The stored key `aé` (bytes 61 C3 A9) matches `a?` here but not in the store, and matches `a??` in the store but not here. Patterns of literals and `*` behave the same on characters and bytes. The key encoding is not modelled, because keys are strings here.
- Redis glob syntax beyond `*` and `?` (`[...]` classes, `\` escapes): such characters match literally here. The Lua engine itself is not modelled, nor its limit on how many keys `unpack` can pass to `del`.
- A failure after a shard has run a command (a lost reply): failures here happen before the shard acts.
- Failures of the auto-load handler: `resetAutoLoadLastLoadTime` always succeeds. `AutoLoadHandler` and `AbstractCacheManager` are not part of this model beyond that one call.
- `CacheUtil` key derivation: passed in as plain functions whose result may be null (`None`). A null key makes the delete a no-op, and a null prefix becomes `null*`, as Java's string concatenation writes it. The exceptions the derivation may raise are not modelled.
- Logging and concurrency between callers. Each operation here runs alone. The source gives no atomicity across shards, and the model claims none.
- `src/test/java/com/test/HessianTest.java`: a serialization timing benchmark over files and the clock, with no stated behaviour.
