/**
 The tool client's result cache. Every client has a private dictionary in front of one store
 that all clients may share, whose entries expire on their own. A cache operation reads the
 clock several times, so each operation carries its readings; `lag` bounds how far apart the
 readings of one operation are.
 */
module McpClient {
  import opened Basics
  import opened Wrappers
  import opened StableSorting
  import opened OrderedDict

  /** Tool and canonical parameters: what the digest stands for. */
  datatype Key = Key(tool: string, params: string)

  datatype Cached = Cached(stamp: real, value: string)

  type Cache = Dict<Key, Cached>

  /** An entry of the shared store, readable up to its expiry. */
  datatype Shared = Shared(value: string, expiresAt: real)

  const TTL := 30.0
  const CAPACITY := 200

  predicate Cacheable(tool: string) {
    tool in { "hdfs_cluster_overview", "hdfs_namenode_status", "hdfs_datanode_list", "yarn_cluster_metrics",
              "yarn_queue_status", "kafka_cluster_overview", "kafka_topic_list", "es_cluster_health", "es_node_stats" }
  }

  // ---------------------------------------------------------------- one lookup and one store

  predicate Fresh(c: Cached, now: real) { now - c.stamp < TTL }

  /** The clock when the age is checked, when the shared store answers, and when the copy is stamped. */
  datatype Readings = Readings(checked: real, asked: real, stamped: real)

  predicate HitsL1(cache: Cache, key: Key, t: Readings) { key in cache.data && Fresh(cache.data[key], t.checked) }

  predicate HitsL2(store: map<Key, Shared>, key: Key, t: Readings) {
    key in store && t.asked <= store[key].expiresAt
  }

  /** `reach` says that this client uses the shared store and that the store answers this time. */
  function Answer(cache: Cache, key: Key, store: map<Key, Shared>, reach: bool, t: Readings): Option<string> {
    if HitsL1(cache, key, t) then Some(cache.data[key].value)
    else if reach && HitsL2(store, key, t) then Some(store[key].value)
    else None
  }

  function CacheAfter(cache: Cache, key: Key, store: map<Key, Shared>, reach: bool, t: Readings): Cache {
    if HitsL1(cache, key, t) then cache
    else
      var c := if key in cache.data then Delete(cache, key) else cache;
      if reach && HitsL2(store, key, t) then Set(c, key, Cached(t.stamped, store[key].value)) else c
  }

  /** Least stamp, and of several the key inserted first. */
  predicate IsOldest(c: Cache, k: Key) {
    exists i :: && 0 <= i < |c.keys| && c.keys[i] == k && c.keys[i] in c.data
                && forall j :: 0 <= j < |c.keys| && c.keys[j] in c.data ==>
                     c.data[k].stamp <= c.data[c.keys[j]].stamp && (j < i ==> c.data[k].stamp < c.data[c.keys[j]].stamp)
  }

  /** A store keeps the new entry and then gives up at most one, the oldest. */
  ghost predicate StoredIn(before: Cache, key: Key, value: string, now: real, after: Cache) {
    var c := Set(before, key, Cached(now, value));
    if |c.keys| > 200 then exists k :: IsOldest(c, k) && after == Delete(c, k) else after == c
  }

  class RedisStore {
    var data: map<Key, Shared>

    constructor ()
      ensures data == map[]
    {
      data := map[];
    }

    method Get(key: Key, now: real) returns (r: Option<string>)
      ensures r == if key in data && now <= data[key].expiresAt then Some(data[key].value) else None
    {
      r := if key in data && now <= data[key].expiresAt then Some(data[key].value) else None;
    }

    method SetEx(key: Key, value: string, now: real)
      modifies this
      ensures data == old(data)[key := Shared(value, now + 30.0)]
    {
      data := data[key := Shared(value, now + TTL)];
    }
  }

  datatype Backend = Responds(text: string) | RaisesToolError | RaisesOther

  datatype Outcome = Text(text: string) | UnknownTool | ToolFailed | UnexpectedError

  class McpClient {
    var cache: Cache
    const redis: RedisStore?
    var callCount: nat
    var errorCount: nat

    constructor (redis: RedisStore?)
      ensures this.redis == redis && cache == Empty() && callCount == 0 && errorCount == 0
    {
      this.redis := redis;
      cache, callCount, errorCount := Empty(), 0, 0;
    }

    ghost function Remote(): map<Key, Shared>
      reads redis
    {
      if redis == null then map[] else redis.data
    }

    method GetCache(key: Key, up: bool, t: Readings) returns (r: Option<string>)
      modifies this`cache
      ensures r == Answer(old(cache), key, Remote(), up && redis != null, t)
      ensures cache == CacheAfter(old(cache), key, Remote(), up && redis != null, t)
      ensures var young := key in old(cache).data && t.checked - old(cache).data[key].stamp < 30.0;
              var remote := up && redis != null && key in redis.data && t.asked <= redis.data[key].expiresAt;
              var left := if key in old(cache).data then Delete(old(cache), key) else old(cache);
              && (young ==> r == Some(old(cache).data[key].value) && cache == old(cache))
              && (!young && remote ==> r == Some(redis.data[key].value)
                                       && cache == Set(left, key, Cached(t.stamped, redis.data[key].value)))
              && (!young && !remote ==> r == None && cache == left)
    {
      if key in cache.data {
        if Fresh(cache.data[key], t.checked) { return Some(cache.data[key].value); }
        cache := Delete(cache, key);
      }
      if redis != null && up {
        r := redis.Get(key, t.asked);
        if r.Some? { cache := Set(cache, key, Cached(t.stamped, r.value)); }
        return;
      }
      return None;
    }

    method SetCache(key: Key, value: string, up: bool, now: real, wrote: real)
      requires Valid(cache)
      modifies this`cache, redis
      ensures Valid(cache) && StoredIn(old(cache), key, value, now, cache)
      ensures redis != null ==>
        redis.data == if up then old(redis.data)[key := Shared(value, wrote + 30.0)] else old(redis.data)
    {
      SetValid(cache, key, Cached(now, value));
      cache := Set(cache, key, Cached(now, value));
      if |cache.keys| > CAPACITY {
        var oldest := Oldest(cache);
        DeleteValid(cache, oldest);
        cache := Delete(cache, oldest);
      }
      if redis != null && up { redis.SetEx(key, value, wrote); }
    }

    /**
     * A whole call whose two halves nobody comes between. Only nine tools are ever served from the
     * cache; any other call is that of the bare backend.
     */
    method CallTool(known: bool, key: Key, backend: Backend, up: bool, t: Readings, now: real, wrote: real)
      returns (outcome: Outcome, fromCache: bool)
      requires Valid(cache)
      modifies this, redis
      ensures callCount == old(callCount) + 1
      ensures fromCache ==>
                key.tool in {"hdfs_cluster_overview", "hdfs_namenode_status", "hdfs_datanode_list", "yarn_cluster_metrics",
                            "yarn_queue_status", "kafka_cluster_overview", "kafka_topic_list", "es_cluster_health", "es_node_stats"}
      ensures key.tool !in {"hdfs_cluster_overview", "hdfs_namenode_status", "hdfs_datanode_list", "yarn_cluster_metrics",
                       "yarn_queue_status", "kafka_cluster_overview", "kafka_topic_list", "es_cluster_health", "es_node_stats"} ==>
                && !fromCache && cache == old(cache) && (redis != null ==> redis.data == old(redis.data))
                && outcome == if !known then UnknownTool
                              else match backend
                                case Responds(text) => Text(text)
                                case RaisesToolError => ToolFailed
                                case RaisesOther => UnexpectedError
      ensures fromCache ==> known && Cacheable(key.tool) && outcome.Text? && errorCount == old(errorCount)
                            && Some(outcome.text) == Answer(old(cache), key, old(Remote()), up && redis != null, t)
      ensures !fromCache && !known ==> outcome.UnknownTool? && cache == old(cache) && errorCount == old(errorCount)
      ensures !fromCache && known ==>
        && outcome == (match backend
                       case Responds(text) => Text(text)
                       case RaisesToolError => ToolFailed
                       case RaisesOther => UnexpectedError)
        && errorCount == old(errorCount) + (if backend.Responds? then 0 else 1)
        && (!Cacheable(key.tool) ==> cache == old(cache))
        && (Cacheable(key.tool) ==>
              var looked := CacheAfter(old(cache), key, old(Remote()), up && redis != null, t);
              && Answer(old(cache), key, old(Remote()), up && redis != null, t).None?
              && if backend.Responds? then StoredIn(looked, key, backend.text, now, cache) else cache == looked)
      ensures redis != null ==>
        redis.data == if !fromCache && known && Cacheable(key.tool) && backend.Responds? && up
                      then old(redis.data)[key := Shared(backend.text, wrote + 30.0)] else old(redis.data)
    {
      callCount := callCount + 1;
      if !known { return UnknownTool, false; }
      if Cacheable(key.tool) {
        LookupValid(cache, key, Remote(), up && redis != null, t);
        var cached := GetCache(key, up, t);
        if cached.Some? { return Text(cached.value), true; }
      }
      if !backend.Responds? {
        errorCount := errorCount + 1;
        return if backend.RaisesToolError? then ToolFailed else UnexpectedError, false;
      }
      if Cacheable(key.tool) { SetCache(key, backend.text, up, now, wrote); }
      return Text(backend.text), false;
    }
  }

  /** `min` over the dictionary by stamp. */
  method Oldest(c: Cache) returns (oldest: Key)
    requires Valid(c) && c.keys != []
    ensures IsOldest(c, oldest) && oldest in c.data && forall k :: k in c.data ==> c.data[oldest].stamp <= c.data[k].stamp
  {
    oldest := c.keys[0];
    ghost var at := 0;
    for i := 1 to |c.keys|
      invariant 0 <= at < i && c.keys[at] == oldest && oldest in c.data
      invariant forall j :: 0 <= j < i ==> c.data[oldest].stamp <= c.data[c.keys[j]].stamp
      invariant forall j :: 0 <= j < at ==> c.data[oldest].stamp < c.data[c.keys[j]].stamp
    {
      if c.data[c.keys[i]].stamp < c.data[oldest].stamp { oldest, at := c.keys[i], i; }
    }
  }

  lemma LookupValid(cache: Cache, key: Key, store: map<Key, Shared>, reach: bool, t: Readings)
    requires Valid(cache)
    ensures Valid(CacheAfter(cache, key, store, reach, t))
    ensures |CacheAfter(cache, key, store, reach, t).keys|
            <= |cache.keys| + if reach && !HitsL1(cache, key, t) && HitsL2(store, key, t) then 1 else 0
  {
    if !HitsL1(cache, key, t) {
      DeleteValid(cache, key);
      var c := if key in cache.data then Delete(cache, key) else cache;
      if HitsL2(store, key, t) { SetValid(c, key, Cached(t.stamped, store[key].value)); }
    }
  }

  // ---------------------------------------------------------------- many clients, one store

  /** `backfills` counts the entries a client copied from the shared store. */
  datatype Client = Client(cache: Cache, shares: bool, backfills: nat)

  /** A successful call to a tool, and an answer given from a cache. */
  datatype Call = Call(client: nat, key: Key, value: string, at: real)

  datatype World = World(clients: seq<Client>, store: map<Key, Shared>, made: set<Call>, served: seq<Call>)

  datatype Action =
    | Look(client: nat, key: Key, up: bool, t: Readings)
    | Keep(client: nat, key: Key, value: string, up: bool, now: real, wrote: real, after: Cache)
    | Forget(key: Key)

  function Start(shares: seq<bool>): World {
    World(seq(|shares|, i requires 0 <= i < |shares| => Client(Empty(), shares[i], 0)), map[], {}, [])
  }

  predicate Prompt(a: Action, lag: real) {
    match a
    case Look(_, _, _, t) => t.checked <= t.asked <= t.stamped <= t.checked + lag
    case Keep(_, _, _, _, now, wrote, _) => now <= wrote <= now + lag
    case Forget(_) => true
  }

  ghost predicate Enabled(w: World, a: Action, lag: real) {
    && Prompt(a, lag)
    && (a.Look? || a.Keep? ==> a.client < |w.clients| && Cacheable(a.key.tool))
    && (a.Keep? ==> StoredIn(w.clients[a.client].cache, a.key, a.value, a.now, a.after))
  }

  function LookUp(w: World, i: nat, key: Key, up: bool, t: Readings): World
    requires i < |w.clients|
  {
    var c := w.clients[i];
    var reach := up && c.shares;
    var answer := Answer(c.cache, key, w.store, reach, t);
    var copied := answer.Some? && !HitsL1(c.cache, key, t);
    w.(clients := w.clients[i := Client(CacheAfter(c.cache, key, w.store, reach, t), c.shares,
                                        c.backfills + if copied then 1 else 0)],
       served := if answer.Some? then w.served + [Call(i, key, answer.value, t.checked)] else w.served)
  }

  ghost function Do(w: World, a: Action, lag: real): World
    requires Enabled(w, a, lag)
  {
    match a
    case Look(i, key, up, t) => LookUp(w, i, key, up, t)
    case Keep(i, key, value, up, now, wrote, after) =>
      w.(clients := w.clients[i := w.clients[i].(cache := after)],
         store := if up && w.clients[i].shares then w.store[key := Shared(value, wrote + TTL)] else w.store,
         made := w.made + {Call(i, key, value, now)})
    case Forget(key) => w.(store := w.store - {key})
  }

  ghost predicate IsRun(run: seq<World>, actions: seq<Action>, shares: seq<bool>, lag: real) {
    && |run| == |actions| + 1 && run[0] == Start(shares)
    && forall k :: 0 <= k < |actions| ==> Enabled(run[k], actions[k], lag) && run[k + 1] == Do(run[k], actions[k], lag)
  }

  // ---------------------------------------------------------------- where answers come from

  /** Some successful call with the same tool and parameters gave this value at `since` or later. */
  ghost predicate Backed(made: set<Call>, key: Key, value: string, since: real) {
    exists c :: c in made && c.key == key && c.value == value && since <= c.at
  }

  /** The same, by the client itself. */
  ghost predicate OwnBacked(made: set<Call>, client: nat, key: Key, value: string, since: real) {
    exists c :: c in made && c.client == client && c.key == key && c.value == value && since <= c.at
  }

  /** A call strictly later than `since`. */
  ghost predicate BackedAfter(made: set<Call>, key: Key, value: string, since: real) {
    exists c :: c in made && c.key == key && c.value == value && since < c.at
  }

  ghost predicate OwnBackedAfter(made: set<Call>, client: nat, key: Key, value: string, since: real) {
    exists c :: c in made && c.client == client && c.key == key && c.value == value && since < c.at
  }

  ghost predicate CacheBacked(made: set<Call>, i: nat, c: Client, lag: real) {
    forall k :: k in c.cache.data ==>
      && Cacheable(k.tool)
      && Backed(made, k, c.cache.data[k].value, c.cache.data[k].stamp - TTL - 2.0 * lag)
      && (!c.shares ==> OwnBacked(made, i, k, c.cache.data[k].value, c.cache.data[k].stamp))
  }

  ghost predicate StoreBacked(made: set<Call>, store: map<Key, Shared>, lag: real) {
    forall k :: k in store ==> Cacheable(k.tool) && Backed(made, k, store[k].value, store[k].expiresAt - TTL - lag)
  }

  /** The age limit: twice the lifetime for clients that share, once for those that do not. */
  ghost predicate Recent(w: World, s: Call, lag: real) {
    && s.client < |w.clients| && Cacheable(s.key.tool)
    && BackedAfter(w.made, s.key, s.value, s.at - 2.0 * TTL - 2.0 * lag)
    && (!w.clients[s.client].shares ==> OwnBackedAfter(w.made, s.client, s.key, s.value, s.at - TTL))
  }

  ghost predicate Sized(c: Client) {
    Valid(c.cache) && |c.cache.keys| <= CAPACITY + c.backfills && (!c.shares ==> c.backfills == 0)
  }

  ghost predicate Inv(w: World, lag: real) {
    && (forall i :: 0 <= i < |w.clients| ==> Sized(w.clients[i]) && CacheBacked(w.made, i, w.clients[i], lag))
    && StoreBacked(w.made, w.store, lag)
    && (forall i :: 0 <= i < |w.served| ==> Recent(w, w.served[i], lag))
  }

  // ---------------------------------------------------------------- every step keeps it

  /** Copying an entry stamps it no more than a lifetime and two lags after the call that made it. */
  lemma LookCache(made: set<Call>, c: Client, i: nat, key: Key, store: map<Key, Shared>, up: bool, t: Readings, lag: real)
    requires CacheBacked(made, i, c, lag) && StoreBacked(made, store, lag)
    requires t.asked <= t.stamped <= t.asked + lag
    ensures CacheBacked(made, i, c.(cache := CacheAfter(c.cache, key, store, up && c.shares, t)), lag)
  {
    var after := CacheAfter(c.cache, key, store, up && c.shares, t);
    if !HitsL1(c.cache, key, t) && up && c.shares && HitsL2(store, key, t) {
      CopyBacked(made, store, key, t, lag);
      assert forall k :: k in after.data && k != key ==> k in c.cache.data && after.data[k] == c.cache.data[k];
    } else {
      assert forall k :: k in after.data ==> k in c.cache.data && after.data[k] == c.cache.data[k];
    }
  }

  lemma CopyBacked(made: set<Call>, store: map<Key, Shared>, key: Key, t: Readings, lag: real)
    requires StoreBacked(made, store, lag) && HitsL2(store, key, t) && t.stamped <= t.asked + lag
    ensures Backed(made, key, store[key].value, t.stamped - TTL - 2.0 * lag)
  {
    var e := store[key];
    var call :| call in made && call.key == key && call.value == e.value && e.expiresAt - TTL - lag <= call.at;
    assert t.stamped - TTL - 2.0 * lag <= call.at;
  }

  lemma LookServed(w: World, i: nat, key: Key, up: bool, t: Readings, lag: real)
    requires Inv(w, lag) && i < |w.clients| && Cacheable(key.tool) && t.checked <= t.asked && lag >= 0.0
    ensures var c := w.clients[i];
            var answer := Answer(c.cache, key, w.store, up && c.shares, t);
            answer.Some? ==> Recent(w, Call(i, key, answer.value, t.checked), lag)
  {
    var c := w.clients[i];
    var reach := up && c.shares;
    if HitsL1(c.cache, key, t) {
      var e := c.cache.data[key];
      var call :| call in w.made && call.key == key && call.value == e.value && e.stamp - TTL - 2.0 * lag <= call.at;
      assert t.checked - 2.0 * TTL - 2.0 * lag < call.at;
      if !c.shares {
        var own :| own in w.made && own.client == i && own.key == key && own.value == e.value && e.stamp <= own.at;
        assert t.checked - TTL < own.at;
      }
    } else if reach && HitsL2(w.store, key, t) {
      var e := w.store[key];
      var call :| call in w.made && call.key == key && call.value == e.value && e.expiresAt - TTL - lag <= call.at;
      assert t.checked - 2.0 * TTL - 2.0 * lag < call.at;
    }
  }

  /** What the invariant says of the rest of the world depends on nothing but these. */
  lemma RecentStays(w: World, w': World, s: Call, lag: real)
    requires Recent(w, s, lag) && w.made <= w'.made && |w.clients| == |w'.clients|
    requires forall i :: 0 <= i < |w.clients| ==> w.clients[i].shares == w'.clients[i].shares
    ensures Recent(w', s, lag)
  {
    var since := s.at - 2.0 * TTL - 2.0 * lag;
    var call :| call in w.made && call.key == s.key && call.value == s.value && since < call.at;
    assert call in w'.made;
    if !w.clients[s.client].shares {
      var own :| own in w.made && own.client == s.client && own.key == s.key && own.value == s.value && s.at - TTL < own.at;
      assert own in w'.made;
    }
  }

  lemma ServedStays(w: World, w': World, served: seq<Call>, lag: real)
    requires w.made <= w'.made && |w.clients| == |w'.clients|
    requires forall i :: 0 <= i < |w.clients| ==> w.clients[i].shares == w'.clients[i].shares
    requires forall j :: 0 <= j < |served| ==> Recent(w, served[j], lag)
    ensures forall j :: 0 <= j < |served| ==> Recent(w', served[j], lag)
  {
    forall j | 0 <= j < |served| ensures Recent(w', served[j], lag) { RecentStays(w, w', served[j], lag); }
  }

  lemma StepLook(w: World, i: nat, key: Key, up: bool, t: Readings, lag: real)
    requires Inv(w, lag) && Enabled(w, Look(i, key, up, t), lag)
    ensures Inv(LookUp(w, i, key, up, t), lag)
  {
    var w' := LookUp(w, i, key, up, t);
    var c := w.clients[i];
    LookupValid(c.cache, key, w.store, up && c.shares, t);
    LookCache(w.made, c, i, key, w.store, up, t, lag);
    LookServed(w, i, key, up, t, lag);
    ServedStays(w, w', w'.served, lag);
  }

  lemma BackedStays(made: set<Call>, made': set<Call>, key: Key, value: string, since: real)
    requires Backed(made, key, value, since) && made <= made'
    ensures Backed(made', key, value, since)
  {}

  lemma CacheStays(made: set<Call>, made': set<Call>, i: nat, c: Client, lag: real)
    requires CacheBacked(made, i, c, lag) && made <= made'
    ensures CacheBacked(made', i, c, lag)
  {
    forall k | k in c.cache.data && !c.shares
      ensures OwnBacked(made', i, k, c.cache.data[k].value, c.cache.data[k].stamp)
    {
      var e := c.cache.data[k];
      var own :| own in made && own.client == i && own.key == k && own.value == e.value && e.stamp <= own.at;
      assert own in made';
    }
    forall k | k in c.cache.data
      ensures Backed(made', k, c.cache.data[k].value, c.cache.data[k].stamp - TTL - 2.0 * lag)
    {
      BackedStays(made, made', k, c.cache.data[k].value, c.cache.data[k].stamp - TTL - 2.0 * lag);
    }
  }

  lemma StoredSized(c: Client, key: Key, value: string, now: real, after: Cache)
    requires Sized(c) && StoredIn(c.cache, key, value, now, after)
    ensures Sized(c.(cache := after))
  {
    var grown := Set(c.cache, key, Cached(now, value));
    SetValid(c.cache, key, Cached(now, value));
    if |grown.keys| > CAPACITY {
      var k :| IsOldest(grown, k) && after == Delete(grown, k);
      DeleteValid(grown, k);
    }
  }

  lemma KeepCache(made: set<Call>, i: nat, c: Client, key: Key, value: string, now: real, after: Cache, lag: real)
    requires CacheBacked(made, i, c, lag) && Cacheable(key.tool) && lag >= 0.0
    requires StoredIn(c.cache, key, value, now, after)
    ensures CacheBacked(made + {Call(i, key, value, now)}, i, c.(cache := after), lag)
  {
    var call := Call(i, key, value, now);
    CacheStays(made, made + {call}, i, c, lag);
    assert call in made + {call} && now - TTL - 2.0 * lag <= call.at;
  }

  lemma KeepStore(made: set<Call>, store: map<Key, Shared>, call: Call, wrote: real, lag: real)
    requires StoreBacked(made, store, lag) && Cacheable(call.key.tool) && wrote <= call.at + lag
    ensures StoreBacked(made + {call}, store, lag)
    ensures StoreBacked(made + {call}, store[call.key := Shared(call.value, wrote + TTL)], lag)
  {
    assert call in made + {call};
    forall k | k in store ensures Backed(made + {call}, k, store[k].value, store[k].expiresAt - TTL - lag) {
      BackedStays(made, made + {call}, k, store[k].value, store[k].expiresAt - TTL - lag);
    }
  }

  lemma StepKeep(w: World, a: Action, lag: real)
    requires a.Keep? && Inv(w, lag) && Enabled(w, a, lag)
    ensures Inv(Do(w, a, lag), lag)
  {
    var w' := Do(w, a, lag);
    var call := Call(a.client, a.key, a.value, a.now);
    StoredSized(w.clients[a.client], a.key, a.value, a.now, a.after);
    KeepStore(w.made, w.store, call, a.wrote, lag);
    forall j | 0 <= j < |w'.clients| ensures Sized(w'.clients[j]) && CacheBacked(w'.made, j, w'.clients[j], lag) {
      if j == a.client {
        KeepCache(w.made, j, w.clients[j], a.key, a.value, a.now, a.after, lag);
      } else {
        CacheStays(w.made, w'.made, j, w.clients[j], lag);
      }
    }
    forall j | 0 <= j < |w'.served| ensures Recent(w', w'.served[j], lag) {
      RecentStays(w, w', w'.served[j], lag);
    }
  }

  lemma StepInv(w: World, a: Action, lag: real)
    requires Inv(w, lag) && Enabled(w, a, lag)
    ensures Inv(Do(w, a, lag), lag)
  {
    match a
    case Look(i, key, up, t) => StepLook(w, i, key, up, t, lag);
    case Keep(_, _, _, _, _, _, _) => StepKeep(w, a, lag);
    case Forget(key) =>
      var w' := Do(w, a, lag);
      ServedStays(w, w', w'.served, lag);
  }

  lemma StartInv(shares: seq<bool>, lag: real)
    ensures Inv(Start(shares), lag)
  {
    var w := Start(shares);
    forall i | 0 <= i < |w.clients| ensures Sized(w.clients[i]) && CacheBacked(w.made, i, w.clients[i], lag) {
      assert w.clients[i] == Client(Empty(), shares[i], 0);
    }
  }

  lemma {:induction false} RunKeepsInv(run: seq<World>, actions: seq<Action>, shares: seq<bool>, lag: real, k: nat)
    requires IsRun(run, actions, shares, lag) && k < |run|
    ensures Inv(run[k], lag) && |run[k].clients| == |shares|
    ensures forall i :: 0 <= i < |shares| ==> run[k].clients[i].shares == shares[i]
  {
    if k == 0 {
      StartInv(shares, lag);
    } else {
      RunKeepsInv(run, actions, shares, lag, k - 1);
      StepInv(run[k - 1], actions[k - 1], lag);
    }
  }

  /**
   For any number of clients and any interleaving of their operations: whatever is served from a
   cache was given by a successful call with the same tool and parameters less than two lifetimes
   (and two lags) before; a client without the shared store serves only its own calls, less than
   one lifetime old, and its dictionary never passes 200 entries; a client with it passes 200 by at
   most the number of entries it copied.
   */
  lemma EveryRun(run: seq<World>, actions: seq<Action>, shares: seq<bool>, lag: real, k: nat)
    requires IsRun(run, actions, shares, lag) && k < |run|
    ensures forall s :: s in run[k].served ==>
      && s.client < |shares| && Cacheable(s.key.tool)
      && BackedAfter(run[k].made, s.key, s.value, s.at - 60.0 - 2.0 * lag)
      && (!shares[s.client] ==> OwnBackedAfter(run[k].made, s.client, s.key, s.value, s.at - 30.0))
    ensures |run[k].clients| == |shares|
    ensures forall i :: 0 <= i < |shares| ==>
      && |run[k].clients[i].cache.keys| <= 200 + run[k].clients[i].backfills
      && (!shares[i] ==> |run[k].clients[i].cache.keys| <= 200)
  {
    RunKeepsInv(run, actions, shares, lag, k);
    forall s | s in run[k].served ensures Recent(run[k], s, lag) {
      var j :| 0 <= j < |run[k].served| && run[k].served[j] == s;
    }
  }

  // ---------------------------------------------------------------- the limits are exact

  /** The least age that client i never reaches, alone or not. */
  function AgeLimit(shares: bool, lag: real): real { if shares then 60.0 + 2.0 * lag else 30.0 }

  const SOME_KEY := Key("es_node_stats", "{}")

  function At(now: real): Readings { Readings(now, now, now) }

  function Lone(key: Key, stamp: real): Cache { Dict([key], map[key := Cached(stamp, "v")]) }

  /** When the client looks for the first time: as late as the shared store still answers. */
  function CopyTime(age: real, lag: real): real { if age < TTL + lag then age else TTL + lag }

  /** Client i calls at time 0, looks at the copy time, and serves the entry at `age`. */
  function AgeingActions(i: nat, key: Key, age: real, lag: real): seq<Action> {
    var c := CopyTime(age, lag);
    [ Keep(i, key, "v", true, 0.0, lag, Lone(key, 0.0)),
      Look(i, key, true, Readings(c, c, c + lag)),
      Look(i, key, true, At(age)) ]
  }

  /** Everybody as at the start, but client i. */
  function Only(shares: seq<bool>, i: nat, cache: Cache, backfills: nat): seq<Client>
    requires i < |shares|
  {
    Start(shares).clients[i := Client(cache, shares[i], backfills)]
  }

  function AgeingWorlds(shares: seq<bool>, i: nat, key: Key, age: real, lag: real): seq<World>
    requires i < |shares|
  {
    var c, call := CopyTime(age, lag), Call(i, key, "v", 0.0);
    var store: map<Key, Shared> := if shares[i] then map[key := Shared("v", lag + TTL)] else map[];
    var later := if c < TTL then Only(shares, i, Lone(key, 0.0), 0) else Only(shares, i, Lone(key, c + lag), 1);
    var first, second := Call(i, key, "v", c), Call(i, key, "v", age);
    [ Start(shares),
      World(Only(shares, i, Lone(key, 0.0), 0), store, {call}, []),
      World(later, store, {call}, [first]),
      World(later, store, {call}, [first, second]) ]
  }

  lemma FirstCall(shares: seq<bool>, i: nat, key: Key, age: real, lag: real)
    requires i < |shares| && lag >= 0.0 && Cacheable(key.tool)
    ensures var run, actions := AgeingWorlds(shares, i, key, age, lag), AgeingActions(i, key, age, lag);
            Enabled(run[0], actions[0], lag) && run[1] == Do(run[0], actions[0], lag)
  {
    var none: Cache := Empty();
    assert Set(none, key, Cached(0.0, "v")) == Lone(key, 0.0);
    assert Start(shares).clients[i] == Client(none, shares[i], 0);
  }

  lemma FirstLook(shares: seq<bool>, i: nat, key: Key, age: real, lag: real)
    requires i < |shares| && 0.0 <= age < AgeLimit(shares[i], lag) && lag >= 0.0 && Cacheable(key.tool)
    ensures var run, actions := AgeingWorlds(shares, i, key, age, lag), AgeingActions(i, key, age, lag);
            Enabled(run[1], actions[1], lag) && run[2] == Do(run[1], actions[1], lag)
  {
    var run, c := AgeingWorlds(shares, i, key, age, lag), CopyTime(age, lag);
    var t := Readings(c, c, c + lag);
    if c >= TTL {
      var none: seq<Key> := [];
      assert Without([key], key) == none + Without([key][1..], key) == none;
      assert CacheAfter(Lone(key, 0.0), key, run[1].store, true, t) == Lone(key, c + lag);
    }
    assert run[1].clients[i] == Client(Lone(key, 0.0), shares[i], 0);
  }

  lemma SecondLook(shares: seq<bool>, i: nat, key: Key, age: real, lag: real)
    requires i < |shares| && 0.0 <= age < AgeLimit(shares[i], lag) && lag >= 0.0 && Cacheable(key.tool)
    ensures var run, actions := AgeingWorlds(shares, i, key, age, lag), AgeingActions(i, key, age, lag);
            Enabled(run[2], actions[2], lag) && run[3] == Do(run[2], actions[2], lag)
  {
    var run, c := AgeingWorlds(shares, i, key, age, lag), CopyTime(age, lag);
    assert run[2].clients[i].cache == Lone(key, if c < TTL then 0.0 else c + lag);
    assert HitsL1(run[2].clients[i].cache, key, At(age));
  }

  /** Any age below the limit is served in a run where only client i acts. */
  lemma AgeReached(shares: seq<bool>, i: nat, key: Key, age: real, lag: real)
    requires i < |shares| && 0.0 <= age < AgeLimit(shares[i], lag) && lag >= 0.0 && Cacheable(key.tool)
    ensures IsRun(AgeingWorlds(shares, i, key, age, lag), AgeingActions(i, key, age, lag), shares, lag)
    ensures Call(i, key, "v", age) in AgeingWorlds(shares, i, key, age, lag)[3].served
    ensures AgeingWorlds(shares, i, key, age, lag)[3].made == {Call(i, key, "v", 0.0)}
  {
    FirstCall(shares, i, key, age, lag);
    FirstLook(shares, i, key, age, lag);
    SecondLook(shares, i, key, age, lag);
    var run := AgeingWorlds(shares, i, key, age, lag);
    assert run[3].served[1] == Call(i, key, "v", age);
  }

  /** In no run does client i serve an answer as old as `bound`. */
  ghost predicate ServesWithin(shares: seq<bool>, i: nat, lag: real, bound: real) {
    forall run: seq<World>, actions: seq<Action>, s: Call ::
      IsRun(run, actions, shares, lag) && s in run[|run| - 1].served && s.client == i ==>
        BackedAfter(run[|run| - 1].made, s.key, s.value, s.at - bound)
  }

  /**
   For every client of every sharing pattern: an age bound holds in all runs exactly from sixty
   seconds and two lags on if the client uses the shared store, and from thirty on if it does not.
   */
  lemma AgeLimitExactly(shares: seq<bool>, i: nat, lag: real, bound: real)
    requires i < |shares| && lag >= 0.0
    ensures ServesWithin(shares, i, lag, bound) <==> bound >= AgeLimit(shares[i], lag)
  {
    if bound < AgeLimit(shares[i], lag) {
      var age := if bound < 0.0 then 0.0 else bound;
      AgeReached(shares, i, SOME_KEY, age, lag);
      var run := AgeingWorlds(shares, i, SOME_KEY, age, lag);
      assert !BackedAfter(run[3].made, SOME_KEY, "v", age - bound);
      assert |run| == 4 && Call(i, SOME_KEY, "v", age) in run[|run| - 1].served;
    } else {
      forall run: seq<World>, actions: seq<Action>, s: Call
        | IsRun(run, actions, shares, lag) && s in run[|run| - 1].served && s.client == i
        ensures BackedAfter(run[|run| - 1].made, s.key, s.value, s.at - bound)
      {
        ServedByLimit(run, actions, shares, lag, s, bound);
      }
    }
  }

  lemma ServedByLimit(run: seq<World>, actions: seq<Action>, shares: seq<bool>, lag: real, s: Call, bound: real)
    requires IsRun(run, actions, shares, lag) && s in run[|run| - 1].served && s.client < |shares|
    requires bound >= AgeLimit(shares[s.client], lag)
    ensures BackedAfter(run[|run| - 1].made, s.key, s.value, s.at - bound)
  {
    EveryRun(run, actions, shares, lag, |run| - 1);
    var made := run[|run| - 1].made;
    if shares[s.client] {
      var c :| c in made && c.key == s.key && c.value == s.value && s.at - 60.0 - 2.0 * lag < c.at;
      assert s.at - bound < c.at;
    } else {
      var c :| c in made && c.client == s.client && c.key == s.key && c.value == s.value && s.at - 30.0 < c.at;
      assert s.at - bound < c.at;
    }
  }

  /** Some run in which client i serves an answer of this tool from a cache. */
  ghost predicate CanServe(shares: seq<bool>, i: nat, tool: string) {
    exists run: seq<World>, actions: seq<Action>, s: Call ::
      IsRun(run, actions, shares, 0.0) && s in run[|run| - 1].served && s.client == i && s.key.tool == tool
  }

  /** For every client of every sharing pattern: exactly these nine tools can be served from a cache. */
  lemma NineToolsExactly(shares: seq<bool>, i: nat, tool: string)
    requires i < |shares|
    ensures CanServe(shares, i, tool) <==>
              tool in {"hdfs_cluster_overview", "hdfs_namenode_status", "hdfs_datanode_list", "yarn_cluster_metrics",
                        "yarn_queue_status", "kafka_cluster_overview", "kafka_topic_list", "es_cluster_health", "es_node_stats"}
  {
    if CanServe(shares, i, tool) {
      var run: seq<World>, actions: seq<Action>, s: Call :|
        IsRun(run, actions, shares, 0.0) && s in run[|run| - 1].served && s.client == i && s.key.tool == tool;
      EveryRun(run, actions, shares, 0.0, |run| - 1);
    }
    if Cacheable(tool) {
      var key := Key(tool, "");
      AgeReached(shares, i, key, 0.0, 0.0);
      var run := AgeingWorlds(shares, i, key, 0.0, 0.0);
      assert IsRun(run, AgeingActions(i, key, 0.0, 0.0), shares, 0.0) && Call(i, key, "v", 0.0) in run[|run| - 1].served;
    }
  }

  /** And in every run every key of every cache and of the shared store is of one of the nine. */
  lemma NineToolsOnly(run: seq<World>, actions: seq<Action>, shares: seq<bool>, lag: real, k: nat)
    requires IsRun(run, actions, shares, lag) && k < |run|
    ensures var nine := {"hdfs_cluster_overview", "hdfs_namenode_status", "hdfs_datanode_list", "yarn_cluster_metrics",
                         "yarn_queue_status", "kafka_cluster_overview", "kafka_topic_list", "es_cluster_health", "es_node_stats"};
            && (forall i, key :: 0 <= i < |run[k].clients| && key in run[k].clients[i].cache.data ==> key.tool in nine)
            && (forall key :: key in run[k].store ==> key.tool in nine)
            && (forall s :: s in run[k].served ==> s.key.tool in nine)
  {
    RunKeepsInv(run, actions, shares, lag, k);
    EveryRun(run, actions, shares, lag, k);
    forall i, key | 0 <= i < |run[k].clients| && key in run[k].clients[i].cache.data ensures Cacheable(key.tool) {
      assert CacheBacked(run[k].made, i, run[k].clients[i], lag);
    }
  }

  // ---------------------------------------------------------------- the size

  /** The n-th of a family of different keys. */
  function NthKey(n: nat): Key { Key("es_node_stats", seq(n, _ => 'x')) }

  /** Storing at time zero over a cache of that time gives up the key inserted first. */
  function StoredAtZero(c: Cache, key: Key): Cache {
    var grown := Set(c, key, Cached(0.0, "v"));
    if |grown.keys| > CAPACITY then Delete(grown, grown.keys[0]) else grown
  }

  ghost predicate AllAtZero(c: Cache) { Valid(c) && forall k :: k in c.data ==> c.data[k].stamp == 0.0 }

  lemma StoredAtZeroIsStored(c: Cache, key: Key)
    requires AllAtZero(c) && |c.keys| <= CAPACITY
    ensures StoredIn(c, key, "v", 0.0, StoredAtZero(c, key)) && AllAtZero(StoredAtZero(c, key))
    ensures |StoredAtZero(c, key).keys| == if key in c.data then |c.keys| else Min(|c.keys| + 1, CAPACITY)
    ensures forall k :: k in StoredAtZero(c, key).data ==> k == key || k in c.data
  {
    var grown := Set(c, key, Cached(0.0, "v"));
    SetValid(c, key, Cached(0.0, "v"));
    if |grown.keys| > CAPACITY {
      assert IsOldest(grown, grown.keys[0]);
      DeleteValid(grown, grown.keys[0]);
    }
  }

  /** Client i has stored the first n keys at time zero; the shared store holds them all if it shares. */
  ghost predicate Kept(w: World, shares: seq<bool>, i: nat, n: nat)
    requires i < |shares|
  {
    && |w.clients| == |shares| && w.clients[i].shares == shares[i]
    && AllAtZero(w.clients[i].cache) && |w.clients[i].cache.keys| == Min(n, CAPACITY)
    && (forall k :: k in w.clients[i].cache.data ==> |k.params| < n)
    && (shares[i] ==> forall j: nat :: j < n ==> InStore(w.store, j))
  }

  predicate InStore(store: map<Key, Shared>, j: nat) {
    NthKey(j) in store && store[NthKey(j)] == Shared("v", TTL)
  }

  lemma KeepOne(w: World, shares: seq<bool>, i: nat, n: nat)
    requires i < |shares| && Kept(w, shares, i, n)
    ensures var keep := Keep(i, NthKey(n), "v", true, 0.0, 0.0, StoredAtZero(w.clients[i].cache, NthKey(n)));
            Enabled(w, keep, 0.0) && Kept(Do(w, keep, 0.0), shares, i, n + 1)
  {
    StoredAtZeroIsStored(w.clients[i].cache, NthKey(n));
    assert NthKey(n) !in w.clients[i].cache.data;
    forall j: nat | j < n ensures |NthKey(j).params| != |NthKey(n).params| {}
    var keep := Keep(i, NthKey(n), "v", true, 0.0, 0.0, StoredAtZero(w.clients[i].cache, NthKey(n)));
    var w' := Do(w, keep, 0.0);
    if shares[i] {
      forall j: nat | j < n + 1 ensures InStore(w'.store, j) {
        assert j < n ==> InStore(w.store, j);
      }
    }
  }

  lemma Extend(before: seq<World>, earlier: seq<Action>, a: Action, shares: seq<bool>) returns (run: seq<World>, actions: seq<Action>)
    requires IsRun(before, earlier, shares, 0.0) && Enabled(before[|before| - 1], a, 0.0)
    ensures IsRun(run, actions, shares, 0.0) && actions == earlier + [a]
    ensures run[|run| - 1] == Do(before[|before| - 1], a, 0.0)
  {
    run, actions := before + [Do(before[|before| - 1], a, 0.0)], earlier + [a];
    var n := |earlier|;
    assert run[n] == before[n];
    forall k | 0 <= k < n ensures Enabled(run[k], actions[k], 0.0) && run[k + 1] == Do(run[k], actions[k], 0.0) {
      assert run[k] == before[k] && run[k + 1] == before[k + 1] && actions[k] == earlier[k];
    }
  }

  lemma {:induction false} KeepMany(shares: seq<bool>, i: nat, n: nat) returns (run: seq<World>, actions: seq<Action>)
    requires i < |shares|
    ensures IsRun(run, actions, shares, 0.0) && Kept(run[|run| - 1], shares, i, n)
  {
    if n == 0 {
      run, actions := [Start(shares)], [];
      assert Start(shares).clients[i] == Client(Empty(), shares[i], 0);
    } else {
      var before, earlier := KeepMany(shares, i, n - 1);
      var w := before[|before| - 1];
      KeepOne(w, shares, i, n - 1);
      run, actions := Extend(before, earlier,
                             Keep(i, NthKey(n - 1), "v", true, 0.0, 0.0, StoredAtZero(w.clients[i].cache, NthKey(n - 1))),
                             shares);
    }
  }

  /** Client i has looked up the first m of n stored keys: it holds them all. */
  ghost predicate Regained(w: World, i: nat, n: nat, m: nat) {
    && i < |w.clients| && w.clients[i].shares && AllAtZero(w.clients[i].cache)
    && (forall j: nat :: j < n ==> InStore(w.store, j))
    && (forall j: nat :: j < m ==> Holds(w.clients[i].cache, j))
  }

  predicate Holds(c: Cache, j: nat) { NthKey(j) in c.data }

  lemma LookOne(w: World, i: nat, n: nat, m: nat)
    requires Regained(w, i, n, m) && m < n
    ensures var look := Look(i, NthKey(m), true, At(0.0));
            Enabled(w, look, 0.0) && Regained(Do(w, look, 0.0), i, n, m + 1)
  {
    assert InStore(w.store, m);
    var c := w.clients[i].cache;
    var c' := CacheAfter(c, NthKey(m), w.store, true, At(0.0));
    LookupValid(c, NthKey(m), w.store, true, At(0.0));
    assert c' == if NthKey(m) in c.data then c else Set(c, NthKey(m), Cached(0.0, "v"));
    forall j: nat | j < m + 1 ensures Holds(c', j) {
      assert j < m ==> Holds(c, j);
    }
  }

  lemma {:induction false} LookMany(shares: seq<bool>, i: nat, n: nat, m: nat) returns (run: seq<World>, actions: seq<Action>)
    requires i < |shares| && shares[i] && m <= n
    ensures IsRun(run, actions, shares, 0.0) && Regained(run[|run| - 1], i, n, m)
  {
    if m == 0 {
      run, actions := KeepMany(shares, i, n);
    } else {
      var before, earlier := LookMany(shares, i, n, m - 1);
      LookOne(before[|before| - 1], i, n, m - 1);
      run, actions := Extend(before, earlier, Look(i, NthKey(m - 1), true, At(0.0)), shares);
    }
  }

  /** A list that holds n different keys has at least n entries. */
  lemma {:induction false} HoldsMany(keys: set<Key>, n: nat)
    requires forall j: nat :: j < n ==> NthKey(j) in keys
    ensures |keys| >= n
  {
    if n > 0 {
      assert NthKey(n - 1) in keys;
      forall j: nat | j < n - 1 ensures NthKey(j) in keys - {NthKey(n - 1)} {
        assert |NthKey(j).params| != |NthKey(n - 1).params|;
      }
      HoldsMany(keys - {NthKey(n - 1)}, n - 1);
    }
  }

  lemma {:induction false} KeysSize(keys: seq<Key>)
    ensures |set k | k in keys| <= |keys|
  {
    if keys != [] {
      KeysSize(keys[1..]);
      assert (set k | k in keys) == (set k | k in keys[1..]) + {keys[0]};
    }
  }

  ghost predicate SizeWithin(shares: seq<bool>, i: nat, limit: nat) {
    forall run: seq<World>, actions: seq<Action> ::
      IsRun(run, actions, shares, 0.0) && i < |run[|run| - 1].clients| ==>
        |run[|run| - 1].clients[i].cache.keys| <= limit
  }

  /**
   For every client of every sharing pattern: a size limit holds in all runs exactly when the client
   does not use the shared store and the limit is at least 200. A client that shares has no limit,
   even alone: copying skips the trim.
   */
  lemma SizeLimitExactly(shares: seq<bool>, i: nat, limit: nat)
    requires i < |shares|
    ensures SizeWithin(shares, i, limit) <==> !shares[i] && limit >= 200
  {
    if shares[i] {
      SharingExceeds(shares, i, limit);
    } else if limit < 200 {
      var run, actions := KeepMany(shares, i, limit + 1);
      assert IsRun(run, actions, shares, 0.0) && |run[|run| - 1].clients[i].cache.keys| == limit + 1;
    } else {
      forall run: seq<World>, actions: seq<Action>
        | IsRun(run, actions, shares, 0.0) && i < |run[|run| - 1].clients|
        ensures |run[|run| - 1].clients[i].cache.keys| <= limit
      {
        EveryRun(run, actions, shares, 0.0, |run| - 1);
      }
    }
  }

  lemma SharingExceeds(shares: seq<bool>, i: nat, limit: nat)
    requires i < |shares| && shares[i]
    ensures !SizeWithin(shares, i, limit)
  {
    var run, actions := LookMany(shares, i, limit + 1, limit + 1);
    var c := run[|run| - 1].clients[i].cache;
    forall j: nat | j < limit + 1 ensures NthKey(j) in c.data.Keys { assert Holds(c, j); }
    HoldsMany(c.data.Keys, limit + 1);
    KeysSize(c.keys);
    assert (set k | k in c.keys) == c.data.Keys;
    assert IsRun(run, actions, shares, 0.0) && |c.keys| > limit;
  }
}
