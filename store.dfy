/**
  The sharded key-value store behind the cache manager, and the auto-load
  registry it notifies. Each shard is a map from wire key to stored entry;
  a client request reaches one shard, chosen by a fixed routing function.
  Serialization of keys and values is the identity here.
 */
module Store {
  import opened Wrappers
  import opened Glob

  /** The stored envelope: a payload and the time it was last loaded. */
  datatype CacheWrapper<T> = CacheWrapper(cacheObject: T, lastLoadTime: int)

  /** What SETEX leaves on a shard: the value and its time-to-live in seconds. */
  datatype Entry<T> = Entry(value: CacheWrapper<T>, expire: int)

  type Shard<T> = map<string, Entry<T>>

  /** The keys of one shard that match a glob pattern (what the store's KEYS command lists). */
  function MatchedKeys<T>(shard: Shard<T>, pattern: string): (r: set<string>)
  {
    set k | k in shard && Matches(pattern, k)
  }

  /** A shard after its keys matching `pattern` have been deleted. */
  function Purge<T>(shard: Shard<T>, pattern: string): (r: Shard<T>)
    ensures r.Keys == shard.Keys - MatchedKeys(shard, pattern)
    ensures forall k :: k in r ==> r[k] == shard[k]
  {
    map k | k in shard && !Matches(pattern, k) :: shard[k]
  }

  /** `keys` lists every element of `s` exactly once, in some order. */
  ghost predicate Enumerates(keys: seq<string>, s: set<string>)
  {
    (forall i, j :: 0 <= i < j < |keys| ==> keys[i] != keys[j]) &&
    (forall k :: k in keys <==> k in s)
  }

  /** The chunks laid end to end. */
  function Flatten(chunks: seq<seq<string>>): (r: seq<string>)
  {
    if |chunks| == 0 then [] else Flatten(chunks[..|chunks| - 1]) + chunks[|chunks| - 1]
  }

  /** A key is in the flattened log exactly when some chunk holds it. */
  lemma {:induction false} FlattenMembers(chunks: seq<seq<string>>, key: string)
    ensures key in Flatten(chunks) <==> exists i :: 0 <= i < |chunks| && key in chunks[i]
  {
    if |chunks| > 0 {
      var init := chunks[..|chunks| - 1];
      FlattenMembers(init, key);
      assert forall i :: 0 <= i < |init| ==> init[i] == chunks[i];
    }
  }

  /** Pattern deletion across all shards: every shard not in `failing` loses its matching keys, the rest stay. */
  ghost predicate PatternPurged<T>(before: seq<Shard<T>>, after: seq<Shard<T>>, pattern: string, failing: set<nat>)
  {
    |after| == |before| &&
    forall i :: 0 <= i < |before| ==>
      after[i] == if i in failing then before[i] else Purge(before[i], pattern)
  }

  /**
    The keys reported deleted, one chunk per shard in shard order: a failing
    shard reports nothing, any other shard reports each of its matching keys once.
   */
  ghost predicate PurgeLog<T>(before: seq<Shard<T>>, pattern: string, failing: set<nat>, chunks: seq<seq<string>>)
  {
    |chunks| == |before| &&
    forall i :: 0 <= i < |before| ==> Reported(before[i], pattern, i in failing, chunks[i])
  }

  /** What one shard reports: nothing when it failed, otherwise each of its matching keys once. */
  ghost predicate Reported<T>(shard: Shard<T>, pattern: string, failed: bool, chunk: seq<string>)
  {
    if failed then chunk == [] else Enumerates(chunk, MatchedKeys(shard, pattern))
  }

  /** The first `s` shards have been through the script, the others are untouched. */
  ghost predicate PurgedUpTo<T>(before: seq<Shard<T>>, after: seq<Shard<T>>, pattern: string, failing: set<nat>, s: nat)
  {
    |after| == |before| && s <= |before| &&
    (forall j :: 0 <= j < s ==> after[j] == if j in failing then before[j] else Purge(before[j], pattern)) &&
    (forall j :: s <= j < |before| ==> after[j] == before[j])
  }

  /** The reports of the first `|chunks|` shards. */
  ghost predicate LoggedUpTo<T>(before: seq<Shard<T>>, pattern: string, failing: set<nat>, chunks: seq<seq<string>>)
  {
    |chunks| <= |before| &&
    forall j :: 0 <= j < |chunks| ==> Reported(before[j], pattern, j in failing, chunks[j])
  }

  /** Running the script on shard `s` extends the purged prefix by one shard. */
  lemma PurgeStep<T>(before: seq<Shard<T>>, after: seq<Shard<T>>, next: seq<Shard<T>>,
                     pattern: string, failing: set<nat>, s: nat)
    requires PurgedUpTo(before, after, pattern, failing, s) && s < |before|
    requires next == if s in failing then after else after[s := Purge(after[s], pattern)]
    ensures PurgedUpTo(before, next, pattern, failing, s + 1)
    ensures s + 1 == |before| ==> PatternPurged(before, next, pattern, failing)
  {
  }

  /**
    Logging one more report after the earlier ones: `log0` is what the reset
    log held before the pattern delete began.
   */
  lemma ResetLogStep(log0: seq<string>, chunks: seq<seq<string>>, chunk: seq<string>)
    ensures log0 + Flatten(chunks) + chunk == log0 + Flatten(chunks + [chunk])
  {
    assert (chunks + [chunk])[..|chunks|] == chunks;
  }

  /** Adding shard `|chunks|`'s report extends the log by exactly that report. */
  lemma LogStep<T>(before: seq<Shard<T>>, pattern: string, failing: set<nat>, chunks: seq<seq<string>>, chunk: seq<string>)
    requires LoggedUpTo(before, pattern, failing, chunks) && |chunks| < |before|
    requires Reported(before[|chunks|], pattern, |chunks| in failing, chunk)
    ensures LoggedUpTo(before, pattern, failing, chunks + [chunk])
    ensures Flatten(chunks + [chunk]) == Flatten(chunks) + chunk
    ensures |chunks| + 1 == |before| ==> PurgeLog(before, pattern, failing, chunks + [chunk])
  {
    var extended := chunks + [chunk];
    assert extended[..|chunks|] == chunks;
    forall j | 0 <= j < |extended|
      ensures Reported(before[j], pattern, j in failing, extended[j])
    {
      if j < |chunks| {
        assert extended[j] == chunks[j];
      } else {
        assert j == |chunks| && extended[j] == chunk;
      }
    }
  }

  /** How many of the first `n` shards are reachable and hold a key `key` that matches `pattern`. */
  function ShardsMatching<T>(before: seq<Shard<T>>, pattern: string, failing: set<nat>, key: string, n: nat): (r: nat)
    requires n <= |before|
  {
    if n == 0 then 0
    else ShardsMatching(before, pattern, failing, key, n - 1) +
         (if n - 1 !in failing && key in MatchedKeys(before[n - 1], pattern) then 1 else 0)
  }

  /** A sequence without repetitions holds each key at most once. */
  lemma {:induction false} DistinctCount(keys: seq<string>, key: string)
    requires forall i, j :: 0 <= i < j < |keys| ==> keys[i] != keys[j]
    ensures multiset(keys)[key] == if key in keys then 1 else 0
  {
    if |keys| > 0 {
      var last := keys[|keys| - 1];
      var init := keys[..|keys| - 1];
      assert keys == init + [last];
      DistinctCount(init, key);
      assert last !in init;
    }
  }

  /**
    Pattern deletion resets a key once for every reachable shard on which it
    matched, whichever shard that is.
   */
  lemma {:induction false} ResetCount<T>(before: seq<Shard<T>>, pattern: string, failing: set<nat>,
                                         chunks: seq<seq<string>>, key: string, n: nat)
    requires PurgeLog(before, pattern, failing, chunks)
    requires n <= |before|
    ensures multiset(Flatten(chunks[..n]))[key] == ShardsMatching(before, pattern, failing, key, n)
  {
    if n > 0 {
      ResetCount(before, pattern, failing, chunks, key, n - 1);
      assert chunks[..n][..n - 1] == chunks[..n - 1];
      var c := chunks[n - 1];
      assert Flatten(chunks[..n]) == Flatten(chunks[..n - 1]) + c;
      if n - 1 in failing {
        assert c == [];
      } else {
        DistinctCount(c, key);
      }
    }
  }

  /** How many matching keys the first `n` shards hold, counting reachable shards only. */
  function MatchTotal<T>(before: seq<Shard<T>>, pattern: string, failing: set<nat>, n: nat): (r: nat)
    requires n <= |before|
  {
    if n == 0 then 0
    else MatchTotal(before, pattern, failing, n - 1) +
         (if n - 1 in failing then 0 else |MatchedKeys(before[n - 1], pattern)|)
  }

  /** A list naming each element of a set exactly once is as long as the set is large. */
  lemma {:induction false} EnumerationSize(keys: seq<string>, s: set<string>)
    requires Enumerates(keys, s)
    ensures |keys| == |s|
  {
    if |keys| > 0 {
      var last := keys[|keys| - 1];
      var init := keys[..|keys| - 1];
      assert keys == init + [last];
      assert forall k :: k in init ==> k in keys;
      assert last !in init;
      assert Enumerates(init, s - {last});
      EnumerationSize(init, s - {last});
    } else {
      assert forall k :: k !in s;
      assert s == {};
    }
  }

  /** Pattern deletion logs one reset per matching key on each reachable shard, and no more. */
  lemma {:induction false} ResetTotal<T>(before: seq<Shard<T>>, pattern: string, failing: set<nat>,
                                         chunks: seq<seq<string>>, n: nat)
    requires PurgeLog(before, pattern, failing, chunks)
    requires n <= |before|
    ensures |Flatten(chunks[..n])| == MatchTotal(before, pattern, failing, n)
  {
    if n > 0 {
      ResetTotal(before, pattern, failing, chunks, n - 1);
      assert chunks[..n][..n - 1] == chunks[..n - 1];
      if n - 1 !in failing {
        EnumerationSize(chunks[n - 1], MatchedKeys(before[n - 1], pattern));
      }
    }
  }

  /** When no reachable shard holds a matching key, pattern deletion resets nothing. */
  lemma NoMatchNoResets<T>(before: seq<Shard<T>>, pattern: string, failing: set<nat>, chunks: seq<seq<string>>)
    requires PurgeLog(before, pattern, failing, chunks)
    requires forall i :: 0 <= i < |before| && i !in failing ==> MatchedKeys(before[i], pattern) == {}
    ensures Flatten(chunks) == []
  {
    ResetTotal(before, pattern, failing, chunks, |before|);
    assert chunks[..|before|] == chunks;
    MatchTotalZero(before, pattern, failing, |before|);
  }

  /** With no matching key on any reachable shard the total is zero. */
  lemma {:induction false} MatchTotalZero<T>(before: seq<Shard<T>>, pattern: string, failing: set<nat>, n: nat)
    requires n <= |before|
    requires forall i :: 0 <= i < |before| && i !in failing ==> MatchedKeys(before[i], pattern) == {}
    ensures MatchTotal(before, pattern, failing, n) == 0
  {
    if n > 0 {
      MatchTotalZero(before, pattern, failing, n - 1);
    }
  }

  /** A second pattern deletion finds nothing left to delete and changes nothing. */
  lemma PurgeIdempotent<T>(shard: Shard<T>, pattern: string)
    ensures MatchedKeys(Purge(shard, pattern), pattern) == {}
    ensures Purge(Purge(shard, pattern), pattern) == Purge(shard, pattern)
  {
  }

  /** Deleting by a wildcard-free pattern is deleting that one key: the two delete branches agree. */
  lemma LiteralPurgeIsExactDelete<T>(shard: Shard<T>, key: string)
    requires !HasWildcard(key)
    ensures Purge(shard, key) == shard - {key}
  {
    forall k | k in shard
      ensures Matches(key, k) <==> k == key
    {
      LiteralPatternMatchesItselfOnly(key, k);
    }
  }

  /**
    The store's KEYS command on one shard: every matching key once, in an
    order the store does not specify.
   */
  method KeysMatching<T>(shard: Shard<T>, pattern: string) returns (keys: seq<string>)
    ensures Enumerates(keys, MatchedKeys(shard, pattern))
  {
    var all := MatchedKeys(shard, pattern);
    var rest := all;
    keys := [];
    while rest != {}
      invariant rest <= all
      invariant forall i, j :: 0 <= i < j < |keys| ==> keys[i] != keys[j]
      invariant forall k :: k in keys <==> k in all && k !in rest
      decreases rest
    {
      var k :| k in rest;
      keys := keys + [k];
      rest := rest - {k};
    }
  }

  /** Result of the delete-by-pattern script on one shard. */
  datatype ScriptReply = Failed | Nil | Keys(keys: seq<string>)

  /**
    The shard pool: the shards' contents and the routing that sends each key
    to one shard. `failing` in each request names the shards that cannot be
    reached for it; a request to such a shard raises before the shard acts.
   */
  class ShardedJedisPool<T> {
    var shards: seq<Shard<T>>
    const route: string -> nat

    constructor (route: string -> nat, shards: seq<Shard<T>>)
      ensures this.shards == shards && this.route == route
    {
      this.route := route;
      this.shards := shards;
    }

    /**
      The shard a key is routed to; the same key always goes to the same
      shard. A pool without shards routes nowhere, and the client's lookup
      raises (`None`).
     */
    function GetShard(key: string): (i: Option<nat>)
      reads this
      ensures i.None? <==> |shards| == 0
      ensures i.Some? ==> i.value < |shards|
    {
      if |shards| == 0 then None else Some(route(key) % |shards|)
    }

    /**
      SETEX on shard `i`. It is refused when the shard fails or when the
      time-to-live is not positive (the store rejects such an expire time).
     */
    method Setex(i: nat, key: string, expire: int, value: CacheWrapper<T>, failing: set<nat>) returns (ok: bool)
      requires i < |shards|
      modifies this
      ensures ok <==> i !in failing && expire > 0
      ensures shards == if ok then old(shards)[i := old(shards)[i][key := Entry(value, expire)]] else old(shards)
    {
      ok := i !in failing && expire > 0;
      if ok {
        shards := shards[i := shards[i][key := Entry(value, expire)]];
      }
    }

    /** GET on shard `i`; `ok` is false when the request raised. */
    method Get(i: nat, key: string, failing: set<nat>) returns (ok: bool, value: Option<CacheWrapper<T>>)
      requires i < |shards|
      ensures ok <==> i !in failing
      ensures value == if ok && key in shards[i] then Some(shards[i][key].value) else None
    {
      ok := i !in failing;
      value := if ok && key in shards[i] then Some(shards[i][key].value) else None;
    }

    /** DEL of one key on shard `i`; deleting an absent key succeeds too. */
    method Del(i: nat, key: string, failing: set<nat>) returns (ok: bool)
      requires i < |shards|
      modifies this
      ensures ok <==> i !in failing
      ensures shards == if ok then old(shards)[i := old(shards)[i] - {key}] else old(shards)
    {
      ok := i !in failing;
      if ok {
        shards := shards[i := shards[i] - {key}];
      }
    }

    /**
      The delete-by-pattern script on shard `i`, one atomic step on the
      server: list the keys matching `pattern`; if there are none, reply nil;
      otherwise delete them and reply with the list.
     */
    method EvalDeleteScript(i: nat, pattern: string, failing: set<nat>) returns (reply: ScriptReply)
      requires i < |shards|
      modifies this
      ensures |shards| == |old(shards)|
      ensures i in failing ==> reply == Failed
      ensures i !in failing && MatchedKeys(old(shards)[i], pattern) == {} ==> reply == Nil
      ensures i !in failing && MatchedKeys(old(shards)[i], pattern) != {} ==>
                reply.Keys? && |reply.keys| > 0 && Enumerates(reply.keys, MatchedKeys(old(shards)[i], pattern))
      ensures shards == if i in failing then old(shards) else old(shards)[i := Purge(old(shards)[i], pattern)]
    {
      if i in failing {
        return Failed;
      }
      var keys := KeysMatching(shards[i], pattern);
      if |keys| == 0 {
        assert MatchedKeys(shards[i], pattern) == {};
        assert Purge(shards[i], pattern) == shards[i];
        assert shards[i := Purge(shards[i], pattern)] == shards;
        return Nil;
      }
      assert keys[0] in MatchedKeys(shards[i], pattern);
      shards := shards[i := shards[i] - set k | k in keys];
      assert shards[i] == Purge(old(shards)[i], pattern);
      reply := Keys(keys);
    }
  }

  /** The auto-load registry, seen through the calls the cache manager makes: a log of reset requests. */
  class AutoLoadHandler {
    var resets: seq<string>

    constructor ()
      ensures resets == []
    {
      resets := [];
    }

    /** Forget the last-load time of one key; safe for keys the registry never saw. */
    method ResetAutoLoadLastLoadTime(cacheKey: string)
      modifies this
      ensures resets == old(resets) + [cacheKey]
    {
      resets := resets + [cacheKey];
    }
  }
}
