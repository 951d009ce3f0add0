/**
 The tool-result cache of the Go middleware. A lookup takes three steps with the lock released
 between them: read the entry, judge its age, then record the outcome. Goroutines interleave
 these steps with whole `set` calls in any order. Times are integers on one clock.
 */
module GoCache {
  import opened Wrappers

  datatype Entry = Entry(result: string, createdAt: int, ttl: int)

  predicate Expired(e: Entry, now: int) { now - e.createdAt > e.ttl }

  datatype Store = Store(entries: map<string, Entry>, maxEntries: int, hits: nat, misses: nat, evicts: nat)

  function EmptyStore(maxEntries: int): Store {
    Store(map[], if maxEntries <= 0 then 1000 else maxEntries, 0, 0, 0)
  }

  // ---------------------------------------------------------------- the critical sections

  function Lookup(s: Store, key: string): Option<Entry> {
    if key in s.entries then Some(s.entries[key]) else None
  }

  function CountMiss(s: Store): Store { s.(misses := s.misses + 1) }

  function CountHit(s: Store): Store { s.(hits := s.hits + 1) }

  /** Deletes whatever is under the key now, not necessarily the entry that was judged. */
  function DropExpired(s: Store, key: string): Store { s.(entries := s.entries - {key}, misses := s.misses + 1) }

  /** The map is walked in no fixed order, so any entry of the least age may go. */
  predicate IsOldest(s: Store, victim: string) {
    victim in s.entries && forall k :: k in s.entries ==> s.entries[victim].createdAt <= s.entries[k].createdAt
  }

  function Evict(s: Store, victim: string): Store {
    s.(entries := s.entries - {victim}, evicts := s.evicts + 1)
  }

  function Insert(s: Store, key: string, e: Entry): Store { s.(entries := s.entries[key := e]) }

  /** One whole `set`: `victim` is the evicted key when the store is full, and unused otherwise. */
  function SetEntry(s: Store, key: string, e: Entry, victim: string): Store {
    Insert(if |s.entries| >= s.maxEntries then Evict(s, victim) else s, key, e)
  }

  class CacheStore {
    var entries: map<string, Entry>
    const maxEntries: int
    var hits: nat
    var misses: nat
    var evicts: nat

    constructor (maxEntries: int)
      ensures View() == EmptyStore(maxEntries)
      ensures entries == map[] && this.maxEntries == (if maxEntries <= 0 then 1000 else maxEntries)
      ensures hits == 0 && misses == 0 && evicts == 0
    {
      this.maxEntries := if maxEntries <= 0 then 1000 else maxEntries;
      entries, hits, misses, evicts := map[], 0, 0, 0;
    }

    ghost function View(): Store
      reads this
    {
      Store(entries, maxEntries, hits, misses, evicts)
    }

    method Read(key: string) returns (found: Option<Entry>)
      ensures found == Lookup(View(), key)
    {
      found := if key in entries then Some(entries[key]) else None;
    }

    method RecordMiss()
      modifies this
      ensures View() == CountMiss(old(View()))
    {
      misses := misses + 1;
    }

    method RecordExpired(key: string)
      modifies this
      ensures View() == DropExpired(old(View()), key)
      ensures entries == old(entries) - {key} && misses == old(misses) + 1 && hits == old(hits) && evicts == old(evicts)
    {
      entries := entries - {key};
      misses := misses + 1;
    }

    method RecordHit()
      modifies this
      ensures View() == CountHit(old(View()))
    {
      hits := hits + 1;
    }

    /** One `get` that nobody interrupts. */
    method Get(key: string, now: int) returns (answer: Option<string>)
      modifies this
      ensures answer == (if key in old(entries) && !Expired(old(entries)[key], now)
                         then Some(old(entries)[key].result) else None)
      ensures View() == (if answer.Some? then CountHit(old(View()))
                         else if key in old(entries) then DropExpired(old(View()), key) else CountMiss(old(View())))
      ensures answer.Some? <==> key in old(entries) && now - old(entries)[key].createdAt <= old(entries)[key].ttl
      ensures answer.Some? ==> hits == old(hits) + 1 && misses == old(misses) && entries == old(entries)
      ensures answer.None? ==> hits == old(hits) && misses == old(misses) + 1 && entries == old(entries) - {key}
    {
      var found := Read(key);
      if found.None? {
        RecordMiss();
        return None;
      }
      if Expired(found.value, now) {
        RecordExpired(key);
        return None;
      }
      RecordHit();
      answer := Some(found.value.result);
    }

    /** A full store gives up an oldest entry first, even when the key is already there. */
    method Set(key: string, result: string, ttl: int, now: int) returns (ghost victim: string)
      requires maxEntries >= 1 && "" !in entries
      modifies this
      ensures |old(entries)| >= maxEntries ==> IsOldest(old(View()), victim)
      ensures View() == SetEntry(old(View()), key, Entry(result, now, ttl), victim)
      ensures var full := |old(entries)| >= maxEntries;
              && (full ==> victim in old(entries)
                           && forall k :: k in old(entries) ==> old(entries)[victim].createdAt <= old(entries)[k].createdAt)
              && entries == (if full then old(entries) - {victim} else old(entries))[key := Entry(result, now, ttl)]
              && evicts == old(evicts) + (if full then 1 else 0) && hits == old(hits) && misses == old(misses)
    {
      victim := "";
      if |entries| >= maxEntries { victim := EvictOldest(); }
      entries := entries[key := Entry(result, now, ttl)];
    }

    method EvictOldest() returns (victim: string)
      requires "" !in entries
      modifies this
      ensures victim == "" <==> old(entries) == map[]
      ensures victim == "" ==> View() == old(View())
      ensures victim != "" ==> IsOldest(old(View()), victim) && View() == Evict(old(View()), victim)
      ensures victim != "" ==>
                && victim in old(entries) && entries == old(entries) - {victim} && evicts == old(evicts) + 1
                && forall k :: k in old(entries) ==> old(entries)[victim].createdAt <= old(entries)[k].createdAt
    {
      victim := Oldest();
      if victim != "" {
        entries := entries - {victim};
        evicts := evicts + 1;
      }
    }

    /** The scan of the map, in whatever order its keys come; "" means none seen yet. */
    method Oldest() returns (oldest: string)
      requires "" !in entries
      ensures oldest == "" <==> entries == map[]
      ensures oldest != "" ==> IsOldest(View(), oldest)
    {
      var rest := entries.Keys;
      oldest := "";
      while rest != {}
        invariant rest <= entries.Keys && (oldest == "" <==> rest == entries.Keys)
        invariant oldest != "" ==> oldest in entries
        invariant forall k :: k in entries && k !in rest ==>
          oldest != "" && entries[oldest].createdAt <= entries[k].createdAt
        decreases rest
      {
        var k :| k in rest;
        if oldest == "" || entries[k].createdAt < entries[oldest].createdAt { oldest := k; }
        rest := rest - {k};
      }
    }
  }

  // ---------------------------------------------------------------- interleavings

  /** Where a goroutine is inside one `get`. */
  datatype Place =
    | Idle
    | Looked(key: string, found: Option<Entry>)
    | Judged(key: string, entry: Entry, expired: bool, at: int)

  /** An answer handed out: the entry as read, and when its age was checked. */
  datatype Served = Served(key: string, entry: Entry, at: int)

  /** The store, the clock, the goroutines, and the log the properties speak of. */
  datatype World = World(
    store: Store, clock: int, threads: map<nat, Place>,
    written: set<(string, Entry)>, served: seq<Served>, finished: nat, added: nat, dropped: nat)

  datatype Action =
    | Look(t: nat, key: string)
    | Judge(t: nat)
    | Finish(t: nat)
    | SetCall(key: string, result: string, ttl: int, victim: string)
    | Tick(amount: nat)

  function PlaceOf(w: World, t: nat): Place { if t in w.threads then w.threads[t] else Idle }

  predicate Enabled(w: World, a: Action) {
    match a
    case Look(t, _) => PlaceOf(w, t).Idle?
    case Judge(t) => PlaceOf(w, t).Looked? && PlaceOf(w, t).found.Some?
    case Finish(t) => PlaceOf(w, t).Judged? || (PlaceOf(w, t).Looked? && PlaceOf(w, t).found.None?)
    case SetCall(key, _, _, victim) => key != "" && (|w.store.entries| >= w.store.maxEntries ==> IsOldest(w.store, victim))
    case Tick(_) => true
  }

  function FinishGet(w: World, t: nat): World
    requires Enabled(w, Finish(t))
  {
    var w' := w.(threads := w.threads[t := Idle], finished := w.finished + 1);
    match PlaceOf(w, t)
    case Looked(_, _) => w'.(store := CountMiss(w.store))
    case Judged(key, entry, expired, at) =>
      if expired then
        w'.(store := DropExpired(w.store, key), dropped := w.dropped + if key in w.store.entries then 1 else 0)
      else w'.(store := CountHit(w.store), served := w.served + [Served(key, entry, at)])
  }

  function DoSet(w: World, key: string, e: Entry, victim: string): World {
    var full := |w.store.entries| >= w.store.maxEntries;
    var kept := if full then w.store.entries - {victim} else w.store.entries;
    w.(store := SetEntry(w.store, key, e, victim), written := w.written + {(key, e)},
       added := w.added + if key in kept then 0 else 1)
  }

  function Do(w: World, a: Action): World
    requires Enabled(w, a)
  {
    match a
    case Look(t, key) => w.(threads := w.threads[t := Looked(key, Lookup(w.store, key))])
    case Judge(t) =>
      var e := PlaceOf(w, t).found.value;
      w.(threads := w.threads[t := Judged(PlaceOf(w, t).key, e, Expired(e, w.clock), w.clock)])
    case Finish(t) => FinishGet(w, t)
    case SetCall(key, result, ttl, victim) => DoSet(w, key, Entry(result, w.clock, ttl), victim)
    case Tick(amount) => w.(clock := w.clock + amount)
  }

  function Start(maxEntries: int, clock: int): World {
    World(EmptyStore(maxEntries), clock, map[], {}, [], 0, 0, 0)
  }

  ghost predicate IsRun(run: seq<World>, actions: seq<Action>) {
    && |run| == |actions| + 1
    && (exists maxEntries, clock :: run[0] == Start(maxEntries, clock))
    && (forall k :: 0 <= k < |actions| ==> Enabled(run[k], actions[k]) && run[k + 1] == Do(run[k], actions[k]))
  }

  // ---------------------------------------------------------------- what every interleaving keeps

  /** Everything held anywhere was written under its key. */
  ghost predicate Genuine(w: World) {
    && (forall k :: k in w.store.entries ==> k != "" && (k, w.store.entries[k]) in w.written)
    && (forall t :: t in w.threads ==> PlaceGenuine(w, w.threads[t]))
  }

  ghost predicate PlaceGenuine(w: World, p: Place) {
    match p
    case Idle => true
    case Looked(key, found) => found.Some? ==> (key, found.value) in w.written
    case Judged(key, entry, expired, at) => (key, entry) in w.written && expired == Expired(entry, at)
  }

  ghost predicate ServedFresh(w: World) {
    forall i :: 0 <= i < |w.served| ==>
      (w.served[i].key, w.served[i].entry) in w.written
      && w.served[i].at - w.served[i].entry.createdAt <= w.served[i].entry.ttl
  }

  ghost predicate Balanced(w: World) {
    && 1 <= w.store.maxEntries && |w.store.entries| <= w.store.maxEntries
    && w.store.hits + w.store.misses == w.finished && w.store.hits == |w.served|
    && |w.store.entries| + w.store.evicts + w.dropped == w.added
  }

  lemma RemoveSize(m: map<string, Entry>, k: string)
    ensures |m - {k}| == |m| - if k in m then 1 else 0
  {
    assert (m - {k}).Keys == m.Keys - {k};
    assert |m.Keys| == |m| && |(m - {k}).Keys| == |m - {k}|;
  }

  lemma InsertSize(m: map<string, Entry>, k: string, e: Entry)
    ensures |m[k := e]| == |m| + if k in m then 0 else 1
  {
    assert m[k := e].Keys == m.Keys + {k};
    assert |m.Keys| == |m| && |m[k := e].Keys| == |m[k := e]|;
  }

  lemma StepBalanced(w: World, a: Action)
    requires Balanced(w) && Enabled(w, a)
    ensures Balanced(Do(w, a))
  {
    match a
    case Finish(t) =>
      var p := PlaceOf(w, t);
      if p.Judged? && p.expired { RemoveSize(w.store.entries, p.key); }
    case SetCall(key, result, ttl, victim) =>
      var e := Entry(result, w.clock, ttl);
      RemoveSize(w.store.entries, victim);
      InsertSize(w.store.entries - {victim}, key, e);
      InsertSize(w.store.entries, key, e);
    case _ =>
  }

  lemma StepGenuine(w: World, a: Action)
    requires Genuine(w) && Enabled(w, a)
    ensures Genuine(Do(w, a))
  {}

  lemma StepServed(w: World, a: Action)
    requires Genuine(w) && ServedFresh(w) && Enabled(w, a)
    ensures ServedFresh(Do(w, a))
  {
    if a.Finish? { assert a.t in w.threads; }
  }

  /**
   In every interleaving: never more entries than the limit; hits and misses are the finished gets;
   every answer was set for the same key and was within its time when judged; and every entry ever
   added is still there, was evicted, or was dropped as expired.
   */
  lemma {:induction false} EveryInterleaving(run: seq<World>, actions: seq<Action>, k: nat)
    requires IsRun(run, actions) && k < |run|
    ensures Balanced(run[k]) && Genuine(run[k]) && ServedFresh(run[k])
  {
    if k > 0 {
      EveryInterleaving(run, actions, k - 1);
      StepBalanced(run[k - 1], actions[k - 1]);
      StepGenuine(run[k - 1], actions[k - 1]);
      StepServed(run[k - 1], actions[k - 1]);
    }
  }

  // ---------------------------------------------------------------- every get finishes

  /** Steps a goroutine still has to take, all of them its own and never blocked by others. */
  function StepsLeft(p: Place): nat {
    match p
    case Idle => 0
    case Looked(_, found) => if found.Some? then 2 else 1
    case Judged(_, _, _, _) => 1
  }

  lemma GetsFinish(w: World, a: Action, t: nat)
    requires Enabled(w, a)
    ensures StepsLeft(PlaceOf(w, t)) > 0 ==> Enabled(w, Judge(t)) || Enabled(w, Finish(t))
    ensures (a.Judge? || a.Finish?) && a.t == t ==> StepsLeft(PlaceOf(Do(w, a), t)) == StepsLeft(PlaceOf(w, t)) - 1
    ensures !((a.Look? || a.Judge? || a.Finish?) && a.t == t) ==> PlaceOf(Do(w, a), t) == PlaceOf(w, t)
  {}

  /** A get that nobody interrupts: served and counted as a hit exactly when the key is there and in time. */
  lemma UninterruptedGet(w: World, t: nat, key: string)
    requires PlaceOf(w, t).Idle? && key in w.store.entries
    ensures var e, looked := w.store.entries[key], Do(w, Look(t, key));
            && Enabled(looked, Judge(t))
            && var judged := Do(looked, Judge(t));
            && Enabled(judged, Finish(t))
            && var done := Do(judged, Finish(t));
            if w.clock - e.createdAt <= e.ttl
            then done.served == w.served + [Served(key, e, w.clock)] && done.store == w.store.(hits := w.store.hits + 1)
            else done.served == w.served
                 && done.store == w.store.(entries := w.store.entries - {key}, misses := w.store.misses + 1)
  {}

  /** Of a missing key it is counted as a miss, in two steps. */
  lemma UninterruptedMiss(w: World, t: nat, key: string)
    requires PlaceOf(w, t).Idle? && key !in w.store.entries
    ensures var looked := Do(w, Look(t, key));
            && Enabled(looked, Finish(t))
            && var done := Do(looked, Finish(t));
            done.served == w.served && done.store == w.store.(misses := w.store.misses + 1)
  {}

  // ---------------------------------------------------------------- when a fresh entry is lost

  /** The entry that a `set` call writes. */
  function Written(w: World, a: Action): Entry
    requires a.SetCall?
  {
    Entry(a.result, w.clock, a.ttl)
  }

  /** Steps after which another entry is under the key, or none. */
  predicate Displaces(w: World, a: Action, key: string) {
    || (a.SetCall? && (a.key == key || (|w.store.entries| >= w.store.maxEntries && a.victim == key)))
    || (a.Finish? && PlaceOf(w, a.t).Judged? && PlaceOf(w, a.t).expired && PlaceOf(w, a.t).key == key)
  }

  /** The j-th step set the key, and up to the k-th nothing displaced it. */
  ghost predicate SetLives(run: seq<World>, actions: seq<Action>, j: nat, k: nat, key: string)
    requires |run| == |actions| + 1
  {
    && j < k <= |actions| && actions[j].SetCall? && actions[j].key == key
    && forall m: nat :: j < m < k ==> !Displaces(run[m], actions[m], key)
  }

  /** Goroutine t looked the key up in the l-th step and has not begun another get up to the k-th. */
  ghost predicate LookedAt(actions: seq<Action>, l: nat, k: nat, t: nat, key: string) {
    && l < k <= |actions| && actions[l] == Look(t, key)
    && forall m: nat :: l < m < k ==> !(actions[m].Look? && actions[m].t == t)
  }

  lemma KeyAfter(w: World, a: Action, key: string)
    requires Enabled(w, a)
    ensures a.SetCall? && a.key == key ==> Lookup(Do(w, a).store, key) == Some(Written(w, a))
    ensures !Displaces(w, a, key) ==> Lookup(Do(w, a).store, key) == Lookup(w.store, key)
    ensures Displaces(w, a, key) && !(a.SetCall? && a.key == key) ==> Lookup(Do(w, a).store, key) == None
  {}

  lemma {:induction false} SetLivesMeans(run: seq<World>, actions: seq<Action>, j: nat, k: nat, key: string)
    requires IsRun(run, actions) && SetLives(run, actions, j, k, key)
    ensures Lookup(run[k].store, key) == Some(Written(run[j], actions[j]))
  {
    KeyAfter(run[k - 1], actions[k - 1], key);
    if j < k - 1 { SetLivesMeans(run, actions, j, k - 1, key); }
  }

  lemma LivesOn(run: seq<World>, actions: seq<Action>, j: nat, n: nat, key: string)
    requires |run| == |actions| + 1 && n < |actions| && SetLives(run, actions, j, n, key) && !Displaces(run[n], actions[n], key)
    ensures SetLives(run, actions, j, n + 1, key)
  {}

  lemma KeyAfterStep(run: seq<World>, actions: seq<Action>, n: nat, key: string)
    requires IsRun(run, actions) && n < |actions|
    ensures (actions[n].SetCall? && actions[n].key == key) || Lookup(run[n + 1].store, key) == None
            || (!Displaces(run[n], actions[n], key) && Lookup(run[n + 1].store, key) == Lookup(run[n].store, key))
  {
    KeyAfter(run[n], actions[n], key);
  }

  /** What is under a key was there before or was set since, and was not displaced. */
  lemma {:induction false} Origin(run: seq<World>, actions: seq<Action>, l: nat, k: nat, key: string)
    requires IsRun(run, actions) && l <= k <= |actions|
    ensures Lookup(run[k].store, key) == None || Lookup(run[k].store, key) == Lookup(run[l].store, key)
            || exists j: nat :: l <= j && SetLives(run, actions, j, k, key)
  {
    if l < k {
      var n: nat := k - 1;
      KeyAfterStep(run, actions, n, key);
      if actions[n].SetCall? && actions[n].key == key {
        assert SetLives(run, actions, n, k, key);
      } else if !Displaces(run[n], actions[n], key) {
        Origin(run, actions, l, n, key);
        if j: nat :| l <= j && SetLives(run, actions, j, n, key) { LivesOn(run, actions, j, n, key); }
      }
    }
  }

  /** Between the look and the end of the get the goroutine carries what it read, judged at some time past. */
  ghost predicate Carries(w: World, t: nat, key: string, read: Option<Entry>) {
    match PlaceOf(w, t)
    case Idle => true
    case Looked(key', found) => key' == key && found == read
    case Judged(key', entry, expired, at) =>
      key' == key && read == Some(entry) && at <= w.clock && expired == Expired(entry, at)
  }

  lemma CarriesStep(w: World, a: Action, t: nat, key: string, read: Option<Entry>)
    requires Enabled(w, a) && Carries(w, t, key, read) && !(a.Look? && a.t == t)
    ensures Carries(Do(w, a), t, key, read)
  {}

  lemma {:induction false} CarriesRead(run: seq<World>, actions: seq<Action>, l: nat, k: nat, t: nat, key: string)
    requires IsRun(run, actions) && LookedAt(actions, l, k, t, key)
    ensures Carries(run[k], t, key, Lookup(run[l].store, key))
  {
    if l < k - 1 {
      CarriesRead(run, actions, l, k - 1, t, key);
      CarriesStep(run[k - 1], actions[k - 1], t, key, Lookup(run[l].store, key));
    } else {
      assert run[k] == Do(run[l], actions[l]);
    }
  }

  /** Whoever is inside a get has begun it with a look. */
  lemma {:induction false} LookExists(run: seq<World>, actions: seq<Action>, k: nat, t: nat)
    requires IsRun(run, actions) && k <= |actions| && !PlaceOf(run[k], t).Idle?
    ensures exists l: nat :: LookedAt(actions, l, k, t, PlaceOf(run[k], t).key)
  {
    if k > 0 {
      var w, a := run[k - 1], actions[k - 1];
      assert run[k] == Do(w, a);
      if a.Look? && a.t == t {
        assert LookedAt(actions, k - 1, k, t, a.key);
      } else {
        assert !PlaceOf(w, t).Idle? && PlaceOf(w, t).key == PlaceOf(run[k], t).key;
        LookExists(run, actions, k - 1, t);
        var l: nat :| LookedAt(actions, l, k - 1, t, PlaceOf(w, t).key);
        assert LookedAt(actions, l, k, t, PlaceOf(w, t).key);
      }
    }
  }

  ghost predicate DropsAt(run: seq<World>, actions: seq<Action>, k: nat, t: nat, key: string)
    requires |run| == |actions| + 1 && k < |actions|
  {
    actions[k] == Finish(t) && PlaceOf(run[k], t).Judged? && PlaceOf(run[k], t).expired && PlaceOf(run[k], t).key == key
  }

  /**
   In every interleaving, the drop that ends a get removes an entry still in time exactly when some
   `set` of the key since that get's look has not been displaced and is itself still in time.
   */
  lemma DropLosesFreshExactly(run: seq<World>, actions: seq<Action>, l: nat, k: nat, t: nat, key: string)
    requires IsRun(run, actions) && k < |actions| && DropsAt(run, actions, k, t, key) && LookedAt(actions, l, k, t, key)
    ensures key !in run[k + 1].store.entries
    ensures (key in run[k].store.entries && !Expired(run[k].store.entries[key], run[k].clock))
            <==> exists j: nat :: && l < j && SetLives(run, actions, j, k, key)
                                  && !Expired(Written(run[j], actions[j]), run[k].clock)
  {
    var here := Lookup(run[k].store, key);
    CarriesRead(run, actions, l, k, t, key);
    Origin(run, actions, l, k, key);
    if here.Some? && !Expired(here.value, run[k].clock) {
      assert here != Lookup(run[l].store, key);
      var j: nat :| l <= j && SetLives(run, actions, j, k, key);
      SetLivesMeans(run, actions, j, k, key);
      assert l < j;
    }
    if j: nat :| l < j && SetLives(run, actions, j, k, key) && !Expired(Written(run[j], actions[j]), run[k].clock) {
      SetLivesMeans(run, actions, j, k, key);
    }
    KeyAfter(run[k], actions[k], key);
  }

  /** So a drop loses nothing in time when nobody set the key since the look. */
  lemma QuietDropLosesNothing(run: seq<World>, actions: seq<Action>, l: nat, k: nat, t: nat, key: string)
    requires IsRun(run, actions) && k < |actions| && DropsAt(run, actions, k, t, key) && LookedAt(actions, l, k, t, key)
    requires forall j: nat :: l < j < k ==> !(actions[j].SetCall? && actions[j].key == key)
    ensures key in run[k].store.entries ==> Expired(run[k].store.entries[key], run[k].clock)
  {
    DropLosesFreshExactly(run, actions, l, k, t, key);
  }

  // ---------------------------------------------------------------- a stale reader

  function StaleActions(): seq<Action> {
    [SetCall("key", "old", 0, ""), Tick(1), Look(1, "key"), Judge(1), SetCall("key", "new", 60, ""), Finish(1)]
  }

  /** The store of capacity ten holding one entry. */
  function Holding(e: Entry): Store { Store(map["key" := e], 10, 0, 0, 0) }

  /** The six worlds after the start, written out. */
  function StaleWorlds(): seq<World> {
    var old0, new1 := Entry("old", 0, 0), Entry("new", 1, 60);
    var one, both := {("key", old0)}, {("key", old0), ("key", new1)};
    var judged := map[1 := Judged("key", old0, true, 1)];
    [ Start(10, 0),
      World(Holding(old0), 0, map[], one, [], 0, 1, 0),
      World(Holding(old0), 1, map[], one, [], 0, 1, 0),
      World(Holding(old0), 1, map[1 := Looked("key", Some(old0))], one, [], 0, 1, 0),
      World(Holding(old0), 1, judged, one, [], 0, 1, 0),
      World(Holding(new1), 1, judged, both, [], 0, 1, 0),
      World(Store(map[], 10, 0, 1, 0), 1, map[1 := Idle], both, [], 1, 1, 1) ]
  }

  lemma StaleOpening()
    ensures forall k :: 0 <= k < 4 ==>
      Enabled(StaleWorlds()[k], StaleActions()[k]) && StaleWorlds()[k + 1] == Do(StaleWorlds()[k], StaleActions()[k])
  {
    assert Do(StaleWorlds()[0], StaleActions()[0]).store.entries == map["key" := Entry("old", 0, 0)];
    assert Do(StaleWorlds()[2], StaleActions()[2]).threads == map[1 := Looked("key", Some(Entry("old", 0, 0)))];
  }

  lemma StaleEnding()
    ensures forall k :: 4 <= k < 6 ==>
      Enabled(StaleWorlds()[k], StaleActions()[k]) && StaleWorlds()[k + 1] == Do(StaleWorlds()[k], StaleActions()[k])
  {
    assert Do(StaleWorlds()[4], StaleActions()[4]).store.entries == map["key" := Entry("new", 1, 60)];
    assert Do(StaleWorlds()[5], StaleActions()[5]).store.entries == map[];
  }

  /**
   A reader that judged an old entry deletes the new one set meanwhile, although it is in time:
   the cache may lose a fresh entry, but never serves a stale one.
   */
  lemma StaleReaderDropsFreshEntry()
    ensures exists run: seq<World> ::
      && IsRun(run, StaleActions())
      && "key" in run[5].store.entries && !Expired(run[5].store.entries["key"], run[5].clock)
      && "key" !in run[6].store.entries
  {
    StaleOpening();
    StaleEnding();
    var run := StaleWorlds();
    assert run[0] == Start(10, 0);
    assert IsRun(run, StaleActions());
  }
}
