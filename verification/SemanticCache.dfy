/**
 The two-level semantic cache of language-model answers. The ghost field `history` is the
 unbounded log the cache is measured against. Entry objects are shared between the levels, so a
 hit in either raises the same counter.
 */
module SemanticCache {
  import opened Basics
  import opened Wrappers
  import opened StableSorting
  import opened OrderedDict

  type Message = map<string, string>

  /** Roles and contents only. */
  type Normal = seq<(string, string)>

  function Field(m: Message, name: string): string { if name in m then m[name] else "" }

  function Normalise(messages: seq<Message>): Normal {
    seq(|messages|, i requires 0 <= i < |messages| => (Field(messages[i], "role"), Field(messages[i], "content")))
  }

  datatype TaskType = TriageTask | DiagnosticTask | PlanningTask | RemediationTask | ReportTask | PatrolTask | CorrelationTask

  function TtlFor(task: TaskType): real {
    match task
    case TriageTask => 3600.0
    case DiagnosticTask => 900.0
    case PlanningTask => 1800.0
    case RemediationTask => 300.0
    case ReportTask => 14400.0
    case PatrolTask => 600.0
    case CorrelationTask => 300.0
  }

  const SIMILARITY_THRESHOLD := 0.92

  datatype Response = Response(content: string, totalTokens: nat, cached: bool)

  /** What one call of `put` stored, and for which messages. */
  datatype Stored = Stored(asked: seq<Message>, key: string, response: Response, createdAt: real, ttl: real,
                           embedding: Option<seq<real>>)

  predicate Expired(p: Stored, now: real) { now - p.createdAt > p.ttl }

  /** `pattern in s` */
  predicate Contains(s: string, pattern: string) { exists i :: 0 <= i <= |s| && OccursAt(s, pattern, i) }

  /** The same, said by what surrounds the pattern. */
  ghost predicate IsPart(pattern: string, s: string) { exists a, b :: s == a + pattern + b }

  lemma ContainsMeans(s: string, pattern: string)
    ensures Contains(s, pattern) <==> IsPart(pattern, s)
  {
    if i :| 0 <= i <= |s| && OccursAt(s, pattern, i) {
      assert s == s[..i] + pattern + s[i + |pattern|..];
    }
    if a, b :| s == a + pattern + b {
      assert s[|a|..|a| + |pattern|] == pattern;
      assert OccursAt(s, pattern, |a|);
    }
  }

  // ---------------------------------------------------------------- which messages share a key

  /** One question: as many messages, with the same role and the same content; a missing field reads as empty. */
  ghost predicate SameQuestion(a: seq<Message>, b: seq<Message>) {
    && |a| == |b|
    && forall i :: 0 <= i < |a| ==>
         && (if "role" in a[i] then a[i]["role"] else "") == (if "role" in b[i] then b[i]["role"] else "")
         && (if "content" in a[i] then a[i]["content"] else "") == (if "content" in b[i] then b[i]["content"] else "")
  }

  /** Under an injective digest two lists of messages have one key exactly when they are one question. */
  lemma SameKeyExactly(digest: Normal -> string, a: seq<Message>, b: seq<Message>)
    requires Injective(digest)
    ensures digest(Normalise(a)) == digest(Normalise(b)) <==> SameQuestion(a, b)
  {
    if digest(Normalise(a)) == digest(Normalise(b)) {
      assert Normalise(a) == Normalise(b);
      forall i | 0 <= i < |a| ensures Field(a[i], "role") == Field(b[i], "role") && Field(a[i], "content") == Field(b[i], "content") {
        assert Normalise(a)[i] == Normalise(b)[i];
      }
    }
    if SameQuestion(a, b) { assert Normalise(a) == Normalise(b); }
  }

  // ---------------------------------------------------------------- the reference

  datatype Event = Put(stored: Stored) | InvalidateAll | InvalidatePattern(pattern: string)

  predicate Clears(e: Event, key: string) {
    e.InvalidateAll? || (e.InvalidatePattern? && Contains(key, e.pattern))
  }

  /** The unbounded, never-expiring cache: the latest put under a key since it was last invalidated. */
  ghost function Latest(history: seq<Event>, key: string): Option<Stored> {
    if history == [] then None
    else
      var e := history[|history| - 1];
      if e.Put? && e.stored.key == key then Some(e.stored)
      else if Clears(e, key) then None
      else Latest(history[..|history| - 1], key)
  }

  /** A put, possibly superseded by a later one, that no invalidation has cleared. */
  ghost predicate Survives(history: seq<Event>, p: Stored) {
    history != []
    && var e := history[|history| - 1];
    e == Put(p) || (!Clears(e, p.key) && Survives(history[..|history| - 1], p))
  }

  /** What the reference answers at a given time. */
  ghost function Reference(history: seq<Event>, key: string, now: real): Option<Response> {
    var p := Latest(history, key);
    if p.Some? && !Expired(p.value, now) then Some(p.value.response) else None
  }

  ghost predicate KeyedBy(history: seq<Event>, digest: Normal -> string) {
    forall i :: 0 <= i < |history| && history[i].Put? ==> history[i].stored.key == digest(Normalise(history[i].stored.asked))
  }

  ghost predicate Injective(digest: Normal -> string) { forall a, b :: digest(a) == digest(b) ==> a == b }

  /** An invalidation of everything, or by a pattern that is part of the key. */
  ghost predicate Erases(e: Event, key: string) { e.InvalidateAll? || (e.InvalidatePattern? && IsPart(e.pattern, key)) }

  /** The latest put is the last event of the log that stores or erases the key, and it stores. */
  lemma {:induction false} LatestMeans(history: seq<Event>, key: string, p: Stored)
    ensures Latest(history, key) == Some(p)
            <==> exists i :: && 0 <= i < |history| && history[i] == Put(p) && p.key == key
                             && forall j :: i < j < |history| ==>
                                  !(history[j].Put? && history[j].stored.key == key) && !Erases(history[j], key)
  {
    if history != [] {
      var n := |history| - 1;
      LatestMeans(history[..n], key, p);
      if history[n].InvalidatePattern? { ContainsMeans(key, history[n].pattern); }
      assert forall i :: 0 <= i < n ==> history[..n][i] == history[i];
    }
  }

  /** A put survives exactly when no later event erases its key. */
  lemma {:induction false} SurvivesMeans(history: seq<Event>, p: Stored)
    ensures Survives(history, p)
            <==> exists i :: && 0 <= i < |history| && history[i] == Put(p)
                             && forall j :: i < j < |history| ==> !Erases(history[j], p.key)
  {
    if history != [] {
      var n := |history| - 1;
      SurvivesMeans(history[..n], p);
      if history[n].InvalidatePattern? { ContainsMeans(p.key, history[n].pattern); }
      assert forall i :: 0 <= i < n ==> history[..n][i] == history[i];
    }
  }

  lemma {:induction false} LatestSurvives(history: seq<Event>, key: string)
    requires Latest(history, key).Some?
    ensures Survives(history, Latest(history, key).value) && Latest(history, key).value.key == key
  {
    var e := history[|history| - 1];
    if !(e.Put? && e.stored.key == key) { LatestSurvives(history[..|history| - 1], key); }
  }

  /** The i-th event stored an answer to this question, still in time, and nothing since stored or erased one. */
  ghost predicate AnsweredBy(history: seq<Event>, i: nat, digest: Normal -> string, messages: seq<Message>, now: real) {
    && i < |history| && history[i].Put? && SameQuestion(history[i].stored.asked, messages)
    && now - history[i].stored.createdAt <= history[i].stored.ttl
    && forall j :: i < j < |history| ==>
         && !(history[j].Put? && SameQuestion(history[j].stored.asked, messages))
         && !Erases(history[j], digest(Normalise(messages)))
  }

  /** With an injective digest, what the reference answers is the last unexpired answer to the same question. */
  lemma ReferenceAnswersQuestion(history: seq<Event>, digest: Normal -> string, messages: seq<Message>, now: real, answer: Response)
    requires KeyedBy(history, digest) && Injective(digest)
    ensures Reference(history, digest(Normalise(messages)), now) == Some(answer)
            <==> exists i: nat :: AnsweredBy(history, i, digest, messages, now) && history[i].stored.response == answer
  {
    var key := digest(Normalise(messages));
    forall i | 0 <= i < |history| && history[i].Put?
      ensures history[i].stored.key == key <==> SameQuestion(history[i].stored.asked, messages)
    {
      SameKeyExactly(digest, history[i].stored.asked, messages);
    }
    if Latest(history, key).Some? {
      LatestMeans(history, key, Latest(history, key).value);
    }
    if i: nat :| AnsweredBy(history, i, digest, messages, now) && history[i].stored.response == answer {
      LatestMeans(history, key, history[i].stored);
    }
  }

  lemma QuestionAnswered(history: seq<Event>, digest: Normal -> string, messages: seq<Message>, now: real, answer: Response)
    requires KeyedBy(history, digest) && Reference(history, digest(Normalise(messages)), now) == Some(answer)
    ensures Injective(digest) ==>
              exists i: nat :: AnsweredBy(history, i, digest, messages, now) && history[i].stored.response == answer
  {
    if Injective(digest) { ReferenceAnswersQuestion(history, digest, messages, now, answer); }
  }

  /** How long the answer to each kind of task is served after its put. */
  lemma ServedForLifetime(history: seq<Event>, asked: seq<Message>, key: string, response: Response, task: TaskType,
                          embedding: Option<seq<real>>, t: real, now: real)
    ensures var h := history + [Put(Stored(asked, key, response, t, TtlFor(task), embedding))];
            var lifetime := match task
              case TriageTask => 3600.0
              case DiagnosticTask => 900.0
              case PlanningTask => 1800.0
              case RemediationTask => 300.0
              case ReportTask => 14400.0
              case PatrolTask => 600.0
              case CorrelationTask => 300.0;
            Reference(h, key, now) == if now - t <= lifetime then Some(response) else None
  {}

  // ---------------------------------------------------------------- entries

  class CacheEntry {
    const stored: Stored
    var hitCount: nat

    constructor (stored: Stored)
      ensures this.stored == stored && hitCount == 0
    {
      this.stored, hitCount := stored, 0;
    }
  }

  /** An entry the similarity search may return. */
  predicate Candidate(p: Stored, query: seq<real>, similarity: (seq<real>, seq<real>) -> real, now: real) {
    now - p.createdAt <= p.ttl && p.embedding.Some? && similarity(query, p.embedding.value) > 0.92
  }

  /** The first of the candidates of greatest similarity among the first n entries, or -1. */
  ghost predicate IsBest(best: int, entries: seq<CacheEntry>, n: nat, query: seq<real>,
                         similarity: (seq<real>, seq<real>) -> real, now: real)
    requires n <= |entries|
  {
    if best < 0 then forall j :: 0 <= j < n ==> !Candidate(entries[j].stored, query, similarity, now)
    else
      && best < n && Candidate(entries[best].stored, query, similarity, now)
      && (forall j :: 0 <= j < n && Candidate(entries[j].stored, query, similarity, now) ==>
            similarity(query, entries[j].stored.embedding.value) <= similarity(query, entries[best].stored.embedding.value))
      && (forall j :: 0 <= j < best && Candidate(entries[j].stored, query, similarity, now) ==>
            similarity(query, entries[j].stored.embedding.value) < similarity(query, entries[best].stored.embedding.value))
  }

  method FindBest(entries: seq<CacheEntry>, query: seq<real>, similarity: (seq<real>, seq<real>) -> real, now: real)
    returns (best: int)
    ensures IsBest(best, entries, |entries|, query, similarity, now)
  {
    best := -1;
    var bestSimilarity := 0.0;
    for j := 0 to |entries|
      invariant IsBest(best, entries, j, query, similarity, now)
      invariant bestSimilarity == if best < 0 then 0.0 else similarity(query, entries[best].stored.embedding.value)
    {
      var p := entries[j].stored;
      if !Expired(p, now) && p.embedding.Some? {
        var s := similarity(query, p.embedding.value);
        if s > SIMILARITY_THRESHOLD && s > bestSimilarity { best, bestSimilarity := j, s; }
      }
    }
  }

  // ---------------------------------------------------------------- eviction

  /** An entry's rank for eviction, read once before sorting. */
  datatype Ranked = Ranked(key: string, hits: nat, createdAt: real)

  predicate RankLess(a: Ranked, b: Ranked) { a.hits < b.hits || (a.hits == b.hits && a.createdAt < b.createdAt) }

  function ByRank(): (Ranked, Ranked) -> bool { (a: Ranked, b: Ranked) => !RankLess(b, a) }

  lemma ByRankIsPreorder()
    ensures TotalPreorder(ByRank())
  {}

  /** The keys for which `drop` holds, in dictionary order. */
  function Select(keys: seq<string>, drop: string -> bool): seq<string> {
    if keys == [] then [] else (if drop(keys[0]) then [keys[0]] else []) + Select(keys[1..], drop)
  }

  lemma {:induction false} SelectElements(keys: seq<string>, drop: string -> bool)
    requires NoDuplicates(keys)
    ensures NoDuplicates(Select(keys, drop)) && |Select(keys, drop)| <= |keys|
    ensures forall k :: k in Select(keys, drop) <==> k in keys && drop(k)
  {
    if keys != [] {
      SelectElements(keys[1..], drop);
      assert keys == [keys[0]] + keys[1..];
      assert keys[0] !in keys[1..];
      if drop(keys[0]) { PrependNoDuplicates(keys[0], Select(keys[1..], drop)); }
    }
  }

  function DeleteAll<V>(d: Dict<string, V>, keys: seq<string>): Dict<string, V>
    decreases |keys|
  {
    if keys == [] then d else DeleteAll(Delete(d, keys[0]), keys[1..])
  }

  lemma {:induction false} DeleteAllEffect<V>(d: Dict<string, V>, keys: seq<string>)
    requires Valid(d) && NoDuplicates(keys) && forall k :: k in keys ==> k in d.data
    ensures Valid(DeleteAll(d, keys)) && |DeleteAll(d, keys).keys| == |d.keys| - |keys|
    ensures DeleteAll(d, keys).data == map k | k in d.data && k !in keys :: d.data[k]
    decreases |keys|
  {
    if keys != [] {
      var k := keys[0];
      DeleteValid(d, k);
      assert k in keys && k !in keys[1..] && keys == [k] + keys[1..];
      forall x | x in keys[1..] ensures x in Delete(d, k).data {
        assert x in keys && x != k;
      }
      DeleteAllEffect(Delete(d, k), keys[1..]);
    }
  }

  function KeysOf(ranks: seq<Ranked>): seq<string> { seq(|ranks|, i requires 0 <= i < |ranks| => ranks[i].key) }

  lemma RankedKeysDistinct(ranks: seq<Ranked>, s: seq<Ranked>)
    requires NoDuplicates(KeysOf(ranks)) && multiset(ranks) == multiset(s) && forall r :: r in s ==> r in ranks
    ensures NoDuplicates(KeysOf(s))
  {
    assert forall i :: 0 <= i < |ranks| ==> KeysOf(ranks)[i] == ranks[i].key;
    forall i, j | 0 <= i < j < |ranks| ensures ranks[i] != ranks[j] {
      assert KeysOf(ranks)[i] != KeysOf(ranks)[j];
    }
    PermutationNoDuplicates(ranks, s);
    forall i, j | 0 <= i < j < |s| ensures KeysOf(s)[i] != KeysOf(s)[j] {
      DistinctKeys(ranks, s[i], s[j]);
    }
  }

  /** The first n of the ranking: distinct keys, none ranked above any that is left. */
  lemma LowestRanked(ranks: seq<Ranked>, n: nat)
    requires n <= |ranks| && NoDuplicates(KeysOf(ranks))
    ensures var s := StableSort(ranks, ByRank());
            && |s| == |ranks| && NoDuplicates(KeysOf(s[..n]))
            && (forall i :: 0 <= i < n ==> s[i] in ranks)
            && (forall r :: r in ranks && r.key !in KeysOf(s[..n]) ==>
                  forall i :: 0 <= i < n ==> !RankLess(r, s[i]))
  {
    var s := StableSort(ranks, ByRank());
    ByRankIsPreorder();
    SortMultiset(ranks, ByRank());
    SortSorted(ranks, ByRank());
    SameElements(ranks, s);
    RankedKeysDistinct(ranks, s);
    FrontKeys(s, n);
    forall r, i | r in ranks && r.key !in KeysOf(s[..n]) && 0 <= i < n ensures !RankLess(r, s[i]) {
      RestRanksHigher(s, n, r, i);
    }
  }

  lemma FrontKeys(s: seq<Ranked>, n: nat)
    requires n <= |s| && NoDuplicates(KeysOf(s))
    ensures NoDuplicates(KeysOf(s[..n]))
  {
    forall i, j | 0 <= i < j < n ensures KeysOf(s[..n])[i] != KeysOf(s[..n])[j] {
      assert KeysOf(s)[i] != KeysOf(s)[j];
    }
  }

  lemma RestRanksHigher(s: seq<Ranked>, n: nat, r: Ranked, i: nat)
    requires Sorted(s, ByRank()) && i < n <= |s| && r in s && r.key !in KeysOf(s[..n])
    ensures !RankLess(r, s[i])
  {
    var j :| 0 <= j < |s| && s[j] == r;
    assert forall m :: 0 <= m < n ==> KeysOf(s[..n])[m] == s[m].key;
    assert ByRank()(s[i], s[j]);
  }

  lemma DistinctKeys(ranks: seq<Ranked>, a: Ranked, b: Ranked)
    requires NoDuplicates(KeysOf(ranks)) && a in ranks && b in ranks && a != b
    ensures a.key != b.key
  {
    var i :| 0 <= i < |ranks| && ranks[i] == a;
    var j :| 0 <= j < |ranks| && ranks[j] == b;
    assert KeysOf(ranks)[i] == a.key && KeysOf(ranks)[j] == b.key;
  }

  // ---------------------------------------------------------------- the cache

  /** Where an answer came from: level one, an entry of level two, or nowhere. */
  datatype Source = FromL1 | FromL2(stored: Stored) | NoSource

  /** What either level holds, against the log. */
  ghost predicate LinkedTo(history: seq<Event>, l1: Dict<string, CacheEntry>, l2: seq<CacheEntry>, digest: Normal -> string) {
    && Valid(l1)
    && (forall k :: k in l1.data ==> Latest(history, k) == Some(l1.data[k].stored))
    && (forall j :: 0 <= j < |l2| ==> Survives(history, l2[j].stored))
    && KeyedBy(history, digest)
  }

  class SemanticCache {
    const maxEntries: int
    const digest: Normal -> string
    const embed: seq<Message> -> Option<seq<real>>
    const similarity: (seq<real>, seq<real>) -> real
    var l1: Dict<string, CacheEntry>
    var l2: seq<CacheEntry>
    var l1Hits: nat
    var l2Hits: nat
    var misses: nat
    var evictions: nat
    var savedTokens: nat
    ghost var history: seq<Event>
    ghost var gets: nat

    constructor (maxEntries: int, digest: Normal -> string, embed: seq<Message> -> Option<seq<real>>,
                 similarity: (seq<real>, seq<real>) -> real)
      ensures Inv() && history == [] && gets == 0 && this.maxEntries == maxEntries && this.digest == digest
    {
      this.maxEntries, this.digest, this.embed, this.similarity := maxEntries, digest, embed, similarity;
      l1, l2, l1Hits, l2Hits, misses, evictions, savedTokens := Empty(), [], 0, 0, 0, 0, 0;
      history, gets := [], 0;
    }

    /** Level one holds latest puts only; level two only puts that no invalidation has cleared. */
    ghost predicate Linked()
      reads this
    {
      LinkedTo(history, l1, l2, digest)
    }

    ghost predicate Inv()
      reads this
    {
      && Linked()
      && |l1.keys| <= Max(1, maxEntries)
      && l1Hits + l2Hits + misses == gets
    }

    /** `_search_l2` */
    method SearchL2(messages: seq<Message>, now: real) returns (best: Option<CacheEntry>)
      modifies l2
      ensures best.Some? ==>
                exists query, j: nat :: embed(messages) == Some(query) && j < |l2| && l2[j] == best.value
                                   && IsBest(j, l2, |l2|, query, similarity, now)
      ensures best.None? ==>
                l2 == [] || embed(messages).None? || IsBest(-1, l2, |l2|, embed(messages).value, similarity, now)
      ensures best.Some? ==> best.value in l2 && best.value.hitCount == old(best.value.hitCount) + 1
      ensures forall e :: e in l2 && best != Some(e) ==> e.hitCount == old(e.hitCount)
    {
      if l2 == [] { return None; }
      var query := embed(messages);
      if query == None { return None; }
      var j := FindBest(l2, query.value, similarity, now);
      if j < 0 { return None; }
      l2[j].hitCount := l2[j].hitCount + 1;
      best := Some(l2[j]);
    }

    method Get(messages: seq<Message>, now: real)
      returns (answer: Option<Response>, ghost source: Source, ghost hit: Option<CacheEntry>)
      requires Inv()
      modifies this`l1, this`l1Hits, this`l2Hits, this`misses, this`savedTokens, this`gets, l1.data.Values, l2
      ensures Inv() && gets == old(gets) + 1
      // exactly the entry that answers counts the hit
      ensures l1Hits == old(l1Hits) + (if source.FromL1? then 1 else 0)
              && l2Hits == old(l2Hits) + (if source.FromL2? then 1 else 0)
              && misses == old(misses) + (if source.NoSource? then 1 else 0)
              && savedTokens == old(savedTokens) + if answer.Some? then answer.value.totalTokens else 0
      ensures hit.Some? <==> answer.Some?
      ensures hit.Some? ==> (hit.value in old(l1).data.Values || hit.value in old(l2))
                            && hit.value.hitCount == old(hit.value.hitCount) + 1
      ensures source.FromL1? ==> digest(Normalise(messages)) in old(l1).data && hit == Some(old(l1).data[digest(Normalise(messages))])
      ensures source.FromL2? ==> hit.Some? && hit.value in l2 && hit.value.stored == source.stored
      ensures forall e :: (e in old(l1).data.Values || e in l2) && hit != Some(e) ==> e.hitCount == old(e.hitCount)
      // a level-one hit is what the reference answers, marked as cached
      ensures var key := digest(Normalise(messages));
              && (source.FromL1? <==> key in old(l1).data && !Expired(old(l1).data[key].stored, now))
              && (source.FromL1? ==> Reference(history, key, now).Some?
                                     && answer == Some(Reference(history, key, now).value.(cached := true)))
              && l1 == if key in old(l1).data && !source.FromL1? then Delete(old(l1), key) else old(l1)
      // so with an injective digest it is the last unexpired answer to the same question
      ensures Injective(digest) && source.FromL1? ==>
                exists i: nat :: AnsweredBy(history, i, digest, messages, now)
                                 && answer == Some(history[i].stored.response.(cached := true))
      // a level-two hit is an unexpired surviving put of greatest similarity above the threshold
      ensures source.FromL2? ==>
                && Survives(history, source.stored) && !Expired(source.stored, now)
                && answer == Some(source.stored.response.(cached := true))
                && (exists query, j: nat :: embed(messages) == Some(query) && j < |l2| && l2[j].stored == source.stored
                                       && IsBest(j, l2, |l2|, query, similarity, now))
                && embed(messages).Some? && source.stored.embedding.Some?
                && similarity(embed(messages).value, source.stored.embedding.value) > 0.92
      ensures source.NoSource? ==>
                && answer == None
                && (l2 == [] || embed(messages).None? || IsBest(-1, l2, |l2|, embed(messages).value, similarity, now))
    {
      gets := gets + 1;
      var exact := LookupL1(digest(Normalise(messages)), now);
      if exact.Some? {
        QuestionAnswered(history, digest, messages, now, exact.value.response);
        return Some(exact.value.response.(cached := true)), FromL1, Some(old(l1).data[digest(Normalise(messages))]);
      }
      answer, source, hit := GetL2(messages, now);
    }

    /** The second half of a get: the semantic match, or a miss. */
    method GetL2(messages: seq<Message>, now: real)
      returns (answer: Option<Response>, ghost source: Source, ghost hit: Option<CacheEntry>)
      requires Linked()
      modifies this`l2Hits, this`misses, this`savedTokens, l2
      ensures Linked() && !source.FromL1? && (source.FromL2? <==> answer.Some?) && (hit.Some? <==> answer.Some?)
      ensures l2Hits == old(l2Hits) + (if answer.Some? then 1 else 0) && misses == old(misses) + (if answer.Some? then 0 else 1)
      ensures savedTokens == old(savedTokens) + if answer.Some? then answer.value.totalTokens else 0
      ensures hit.Some? ==> hit.value in l2 && hit.value.hitCount == old(hit.value.hitCount) + 1
      ensures forall e :: e in l2 && hit != Some(e) ==> e.hitCount == old(e.hitCount)
      ensures source.FromL2? ==>
                && Survives(history, source.stored) && !Expired(source.stored, now) && hit.value.stored == source.stored
                && answer == Some(source.stored.response.(cached := true))
                && (exists query, j: nat :: embed(messages) == Some(query) && j < |l2| && l2[j].stored == source.stored
                                       && IsBest(j, l2, |l2|, query, similarity, now))
                && embed(messages).Some? && source.stored.embedding.Some?
                && similarity(embed(messages).value, source.stored.embedding.value) > 0.92
      ensures source.NoSource? ==>
                l2 == [] || embed(messages).None? || IsBest(-1, l2, |l2|, embed(messages).value, similarity, now)
    {
      var best := SearchL2(messages, now);
      if best.Some? {
        l2Hits := l2Hits + 1;
        savedTokens := savedTokens + best.value.stored.response.totalTokens;
        return Some(best.value.stored.response.(cached := true)), FromL2(best.value.stored), best;
      }
      misses := misses + 1;
      answer, source, hit := None, NoSource, None;
    }

    /** The exact match; an expired entry is deleted on the way. */
    method LookupL1(key: string, now: real) returns (exact: Option<Stored>)
      requires Linked()
      modifies this`l1, this`l1Hits, this`savedTokens, l1.data.Values
      ensures Linked() && |l1.keys| <= |old(l1).keys|
      ensures exact == if key in old(l1).data && !Expired(old(l1).data[key].stored, now)
                       then Some(old(l1).data[key].stored) else None
      ensures exact.Some? ==> Reference(history, key, now) == Some(exact.value.response)
      ensures l1 == if key in old(l1).data && exact.None? then Delete(old(l1), key) else old(l1)
      ensures l1Hits == old(l1Hits) + if exact.Some? then 1 else 0
      ensures savedTokens == old(savedTokens) + if exact.Some? then exact.value.response.totalTokens else 0
      ensures exact.Some? ==> old(l1).data[key].hitCount == old(l1.data[key].hitCount) + 1
      ensures forall e :: (e in old(l1).data.Values || e in l2) && !(exact.Some? && e == old(l1).data[key]) ==>
                e.hitCount == old(e.hitCount)
    {
      if key in l1.data {
        var entry := l1.data[key];
        if !Expired(entry.stored, now) {
          entry.hitCount := entry.hitCount + 1;
          l1Hits := l1Hits + 1;
          savedTokens := savedTokens + entry.stored.response.totalTokens;
          return Some(entry.stored);
        }
        DeleteValid(l1, key);
        l1 := Delete(l1, key);
      }
      exact := None;
    }

    /** Each key with its entry's hits and age, in dictionary order. */
    method Snapshot() returns (ranks: seq<Ranked>)
      requires Linked()
      ensures KeysOf(ranks) == l1.keys
      ensures forall i :: 0 <= i < |ranks| ==> l1.keys[i] in l1.data && ranks[i] == RankIn(l1.data, l1.keys[i])
    {
      ranks := [];
      for i := 0 to |l1.keys|
        invariant |ranks| == i
        invariant forall j :: 0 <= j < i ==> l1.keys[j] in l1.data && ranks[j] == RankIn(l1.data, l1.keys[j])
      {
        var key := l1.keys[i];
        assert key in l1.keys;
        ranks := ranks + [Ranked(key, l1.data[key].hitCount, l1.data[key].stored.createdAt)];
      }
    }

    method DeleteKeys(keys: seq<string>)
      requires Linked() && NoDuplicates(keys) && forall k :: k in keys ==> k in l1.data
      modifies this`l1, this`evictions
      ensures Linked() && l1 == DeleteAll(old(l1), keys)
      ensures evictions == old(evictions) + |keys|
    {
      ghost var before := l1;
      DeleteAllEffect(before, keys);
      for i := 0 to |keys|
        invariant DeleteAll(l1, keys[i..]) == DeleteAll(before, keys)
        invariant evictions == old(evictions) + i
      {
        assert keys[i..][1..] == keys[i + 1..];
        l1 := Delete(l1, keys[i]);
        evictions := evictions + 1;
      }
    }

    method EvictExpired(now: real) returns (ghost expired: seq<string>)
      requires Linked()
      modifies this`l1, this`evictions
      ensures Linked() && l1 == DeleteAll(old(l1), expired) && evictions == old(evictions) + |expired|
      ensures NoDuplicates(expired) && forall k :: k in expired <==> k in old(l1).data && Expired(old(l1).data[k].stored, now)
    {
      var data := l1.data;
      var drop: string -> bool := key => key in data && Expired(data[key].stored, now);
      var stale := Select(l1.keys, drop);
      SelectElements(l1.keys, drop);
      DeleteKeys(stale);
      expired := stale;
    }

    /** The lowest ranked entries, a hundred more than it takes to be back at the limit. */
    method EvictLowest() returns (ghost victims: seq<string>)
      requires Linked() && |l1.keys| >= maxEntries
      modifies this`l1, this`evictions
      ensures Linked() && l1 == DeleteAll(old(l1), victims) && evictions == old(evictions) + |victims|
      ensures NoDuplicates(victims) && |victims| == Min(|old(l1).keys|, |old(l1).keys| - maxEntries + 100)
      ensures LowestOf(victims, old(RanksOf(l1.data)))
    {
      var ranks := Snapshot();
      var n := Min(|ranks|, |l1.keys| - maxEntries + 100);
      VictimsAreLowest(l1, ranks, n);
      var keys := KeysOf(StableSort(ranks, ByRank())[..n]);
      DeleteKeys(keys);
      victims := keys;
    }

    /** Level two keeps, in order, what level one still has the key of. */
    method SyncL2()
      requires Linked()
      modifies this`l2
      ensures Linked() && l2 == Retain(old(l2), KeyIn(l1.data.Keys))
      ensures forall e :: e in l2 <==> e in old(l2) && e.stored.key in l1.data
    {
      var keep := KeyIn(l1.data.Keys);
      var kept := Keep(l2, keep);
      FewerLinked(history, l1, l2, digest, keep);
      l2 := kept;
    }

    /** First every expired entry; then, if that left the cache full, the lowest ranked ones. */
    method EvictL1(now: real) returns (ghost expired: seq<string>, ghost victims: seq<string>)
      requires Linked()
      modifies this`l1, this`evictions
      ensures Linked() && l1 == Left(old(l1), expired, victims) && (|l1.keys| < maxEntries || l1.keys == [])
      ensures IsEviction(old(l1), old(RanksOf(l1.data)), maxEntries, now, expired, victims)
      ensures evictions == old(evictions) + |expired| + |victims|
    {
      expired := EvictExpired(now);
      victims := EvictRest(old(l1), now, expired);
    }

    /** What follows once the expired entries are gone. */
    method EvictRest(ghost before: Dict<string, CacheEntry>, ghost now: real, ghost expired: seq<string>)
      returns (ghost victims: seq<string>)
      requires Linked() && l1 == DeleteAll(before, expired) && Valid(before) && NoDuplicates(expired)
      requires forall k :: k in expired <==> k in before.data && Expired(before.data[k].stored, now)
      modifies this`l1, this`evictions
      ensures Linked() && l1 == Left(before, expired, victims) && (|l1.keys| < maxEntries || l1.keys == [])
      ensures IsEviction(before, old(RanksOf(before.data)), maxEntries, now, expired, victims)
      ensures evictions == old(evictions) + |victims|
    {
      GoneFrom(before, expired);
      ghost var middle, ranks, ranksLeft := l1, RanksOf(before.data), RanksOf(l1.data);
      victims := EvictIfFull();
      EvictionMade(before, ranks, middle, ranksLeft, maxEntries, now, expired, victims);
    }

    method EvictIfFull() returns (ghost victims: seq<string>)
      requires Linked()
      modifies this`l1, this`evictions
      ensures Linked() && l1 == DeleteAll(old(l1), victims) && (|l1.keys| < maxEntries || l1.keys == [])
      ensures var n := |old(l1).keys|; |victims| == if n >= maxEntries then Min(n, n - maxEntries + 100) else 0
      ensures NoDuplicates(victims) && LowestOf(victims, old(RanksOf(l1.data))) && evictions == old(evictions) + |victims|
    {
      victims := [];
      if |l1.keys| >= maxEntries {
        victims := EvictLowest();
        DeleteAllEffect(old(l1), victims);
      }
    }

    /** Eviction: level one as above, then level two follows level one. */
    method Evict(now: real) returns (ghost expired: seq<string>, ghost victims: seq<string>)
      requires Linked()
      modifies this`l1, this`l2, this`evictions
      ensures Linked() && l1 == Left(old(l1), expired, victims) && (|l1.keys| < maxEntries || l1.keys == [])
      ensures IsEviction(old(l1), old(RanksOf(l1.data)), maxEntries, now, expired, victims)
      ensures l2 == Retain(old(l2), KeyIn(l1.data.Keys)) && forall e :: e in l2 <==> e in old(l2) && e.stored.key in l1.data
      ensures evictions == old(evictions) + |expired| + |victims|
      // what stays is in time, and no victim of the ranking had been used more, or as often and entered later
      ensures forall k :: k in old(l1).data ==>
                (k in expired <==> now - old(l1).data[k].stored.createdAt > old(l1).data[k].stored.ttl)
      ensures forall k :: k in l1.data <==> k in old(l1).data && k !in expired && k !in victims
      ensures RanksBelow(old(l1).data, victims, l1.data.Keys)
    {
      expired, victims := EvictL1(now);
      LeftMeans(old(l1), old(RanksOf(l1.data)), maxEntries, now, expired, victims);
      SyncL2();
    }

    /** At the limit, an eviction; below it, nothing. */
    method MakeRoom(now: real) returns (ghost expired: seq<string>, ghost victims: seq<string>)
      requires Linked()
      modifies this`l1, this`l2, this`evictions
      ensures Linked() && l1 == Left(old(l1), expired, victims) && (|l1.keys| < maxEntries || l1.keys == [])
      ensures if |old(l1).keys| < maxEntries then expired == [] && victims == []
              else IsEviction(old(l1), old(RanksOf(l1.data)), maxEntries, now, expired, victims)
      ensures l2 == if |old(l1).keys| < maxEntries then old(l2) else Retain(old(l2), KeyIn(l1.data.Keys))
      ensures evictions == old(evictions) + |expired| + |victims|
    {
      expired, victims := [], [];
      if |l1.keys| >= maxEntries { expired, victims := Evict(now); }
    }

    method Put(messages: seq<Message>, response: Response, task: TaskType, embedding: Option<seq<real>>, now: real)
      returns (ghost expired: seq<string>, ghost victims: seq<string>)
      requires Inv()
      modifies this`l1, this`l2, this`evictions, this`history
      ensures Inv() && |l1.keys| <= if maxEntries < 1 then 1 else maxEntries
      ensures var key := digest(Normalise(messages));
              history == old(history) + [Event.Put(Stored(messages, key, response, now, TtlFor(task), embedding))]
      ensures if |old(l1).keys| < maxEntries then expired == [] && victims == []
              else IsEviction(old(l1), old(RanksOf(l1.data)), maxEntries, now, expired, victims)
      ensures evictions == old(evictions) + |expired| + |victims|
      ensures var key, left := digest(Normalise(messages)), Left(old(l1), expired, victims);
              && key in l1.data && l1.data[key].stored == history[|history| - 1].stored && fresh(l1.data[key])
              && l1 == Set(left, key, l1.data[key])
              && l2 == (if |old(l1).keys| < maxEntries then old(l2) else Retain(old(l2), KeyIn(left.data.Keys)))
                       + if embedding.Some? && embedding.value != [] then [l1.data[key]] else []
    {
      expired, victims := MakeRoom(now);
      var entry := new CacheEntry(Stored(messages, digest(Normalise(messages)), response, now, TtlFor(task), embedding));
      Enter(entry);
    }

    /** The entry takes its key's place in level one and, with an embedding, the end of level two. */
    method Enter(entry: CacheEntry)
      requires Linked() && (|l1.keys| < maxEntries || l1.keys == []) && l1Hits + l2Hits + misses == gets
      requires entry.stored.key == digest(Normalise(entry.stored.asked))
      modifies this`l1, this`l2, this`history
      ensures Inv() && history == old(history) + [Event.Put(entry.stored)]
      ensures l1 == Set(old(l1), entry.stored.key, entry)
      ensures l2 == old(l2) + if entry.stored.embedding.Some? && entry.stored.embedding.value != [] then [entry] else []
    {
      SetValid(l1, entry.stored.key, entry);
      PutKeepsLinks(l1.data, l2, history, entry.stored);
      l1 := Set(l1, entry.stored.key, entry);
      if entry.stored.embedding.Some? && entry.stored.embedding.value != [] { l2 := l2 + [entry]; }
      history := history + [Event.Put(entry.stored)];
    }

    /** Both levels lose exactly what matches, and keep the rest in order. */
    method Invalidate(pattern: Option<string>) returns (count: nat)
      requires Inv()
      modifies this`l1, this`l2, this`history
      ensures Inv()
      ensures history == old(history) + [if pattern.None? then InvalidateAll else InvalidatePattern(pattern.value)]
      ensures pattern.None? ==> l1 == Empty() && l2 == []
      ensures pattern.Some? ==> l1 == DeleteAll(old(l1), Select(old(l1).keys, Matches(pattern.value)))
                                && l2 == Retain(old(l2), Lacks(pattern.value))
      ensures forall k :: k in l1.data <==> k in old(l1).data && pattern.Some? && !IsPart(pattern.value, k)
      ensures forall k :: k in l1.data ==> l1.data[k] == old(l1).data[k]
      ensures forall e :: e in l2 <==> e in old(l2) && pattern.Some? && !IsPart(pattern.value, e.stored.key)
      ensures count == |old(l1).keys| - |l1.keys|
    {
      if pattern == None {
        count := |l1.keys|;
        l1, l2 := Empty(), [];
        history := history + [InvalidateAll];
      } else {
        count := InvalidateMatching(pattern.value);
      }
    }

    method InvalidateMatching(pattern: string) returns (count: nat)
      requires Inv()
      modifies this`l1, this`l2, this`history
      ensures Inv() && history == old(history) + [InvalidatePattern(pattern)]
      ensures l1 == DeleteAll(old(l1), Select(old(l1).keys, Matches(pattern))) && l2 == Retain(old(l2), Lacks(pattern))
      ensures forall k :: k in l1.data <==> k in old(l1).data && !IsPart(pattern, k)
      ensures forall k :: k in l1.data ==> l1.data[k] == old(l1).data[k]
      ensures forall e :: e in l2 <==> e in old(l2) && !IsPart(pattern, e.stored.key)
      ensures count == |old(l1).keys| - |l1.keys|
    {
      forall k: string ensures Contains(k, pattern) <==> IsPart(pattern, k) { ContainsMeans(k, pattern); }
      var doomed := Select(l1.keys, Matches(pattern));
      SelectElements(l1.keys, Matches(pattern));
      DeleteAllEffect(l1, doomed);
      count := |doomed|;
      var left := DeleteKeysOf(l1, doomed);
      var kept := Keep(l2, Lacks(pattern));
      RetainElements(l2, Lacks(pattern));
      InvalidationKeepsLinks(history, l1, l2, digest, pattern, left, kept);
      l1, l2, history := left, kept, history + [InvalidatePattern(pattern)];
    }
  }

  /** `for k in keys: del d[k]` */
  method DeleteKeysOf<V>(d: Dict<string, V>, keys: seq<string>) returns (r: Dict<string, V>)
    ensures r == DeleteAll(d, keys)
  {
    r := d;
    for i := 0 to |keys|
      invariant DeleteAll(r, keys[i..]) == DeleteAll(d, keys)
    {
      assert keys[i..][1..] == keys[i + 1..];
      r := Delete(r, keys[i]);
    }
  }

  function Matches(pattern: string): string -> bool { key => Contains(key, pattern) }

  function Lacks(pattern: string): CacheEntry -> bool { (e: CacheEntry) => !Contains(e.stored.key, pattern) }

  function KeyIn(keys: set<string>): CacheEntry -> bool { (e: CacheEntry) => e.stored.key in keys }

  /** The entries to keep, in order. */
  function Retain(entries: seq<CacheEntry>, keep: CacheEntry -> bool): seq<CacheEntry> {
    if entries == [] then []
    else
      var last := entries[|entries| - 1];
      Retain(entries[..|entries| - 1], keep) + if keep(last) then [last] else []
  }

  lemma {:induction false} RetainElements(entries: seq<CacheEntry>, keep: CacheEntry -> bool)
    ensures forall e :: e in Retain(entries, keep) <==> e in entries && keep(e)
  {
    if entries != [] {
      var n := |entries| - 1;
      RetainElements(entries[..n], keep);
      assert entries == entries[..n] + [entries[n]];
    }
  }

  /** Retaining is done piece by piece, so order and repetitions stay. */
  lemma {:induction false} RetainPieces(a: seq<CacheEntry>, b: seq<CacheEntry>, keep: CacheEntry -> bool)
    ensures Retain(a + b, keep) == Retain(a, keep) + Retain(b, keep)
  {
    if b == [] {
      assert a + b == a;
    } else {
      var n := |b| - 1;
      var last := if keep(b[n]) then [b[n]] else [];
      RetainPieces(a, b[..n], keep);
      assert (a + b)[..|a + b| - 1] == a + b[..n] && (a + b)[|a + b| - 1] == b[n];
      ConcatAssociates(Retain(a, keep), Retain(b[..n], keep), last);
    }
  }

  lemma RetainOne(e: CacheEntry, keep: CacheEntry -> bool)
    ensures Retain([e], keep) == if keep(e) then [e] else []
  {
    assert Retain([e][..0], keep) == [];
  }

  lemma {:induction false} RetainAt(entries: seq<CacheEntry>, keep: CacheEntry -> bool, j: nat) returns (i: nat)
    requires j < |Retain(entries, keep)|
    ensures i < |entries| && Retain(entries, keep)[j] == entries[i] && keep(entries[i])
  {
    var n := |entries| - 1;
    if j < |Retain(entries[..n], keep)| { i := RetainAt(entries[..n], keep, j); } else { i := n; }
  }

  /** `[e for e in entries if keep(e)]` */
  method Keep(entries: seq<CacheEntry>, keep: CacheEntry -> bool) returns (kept: seq<CacheEntry>)
    ensures kept == Retain(entries, keep) && forall e :: e in kept <==> e in entries && keep(e)
  {
    RetainElements(entries, keep);
    kept := [];
    for j := 0 to |entries|
      invariant kept == Retain(entries[..j], keep)
    {
      assert entries[..j + 1][..j] == entries[..j];
      if keep(entries[j]) { kept := kept + [entries[j]]; }
    }
    assert entries[..|entries|] == entries;
  }

  lemma FewerLinked(history: seq<Event>, l1: Dict<string, CacheEntry>, l2: seq<CacheEntry>, digest: Normal -> string,
                    keep: CacheEntry -> bool)
    requires LinkedTo(history, l1, l2, digest)
    ensures LinkedTo(history, l1, Retain(l2, keep), digest)
  {
    var kept := Retain(l2, keep);
    forall j | 0 <= j < |kept| ensures Survives(history, kept[j].stored) {
      var i := RetainAt(l2, keep, j);
    }
  }

  lemma InvalidationKeepsLinks(history: seq<Event>, l1: Dict<string, CacheEntry>, l2: seq<CacheEntry>,
                               digest: Normal -> string, pattern: string,
                               left: Dict<string, CacheEntry>, kept: seq<CacheEntry>)
    requires LinkedTo(history, l1, l2, digest) && Valid(left)
    requires forall k :: k in left.data ==> k in l1.data && left.data[k] == l1.data[k] && !Contains(k, pattern)
    requires forall e :: e in kept ==> e in l2 && !Contains(e.stored.key, pattern)
    ensures LinkedTo(history + [InvalidatePattern(pattern)], left, kept, digest)
  {
    var h := history + [InvalidatePattern(pattern)];
    assert h[..|h| - 1] == history;
    forall j | 0 <= j < |kept| ensures Survives(h, kept[j].stored) {
      assert kept[j] in kept;
      var i :| 0 <= i < |l2| && l2[i] == kept[j];
    }
  }

  /** What two deletions leave. */
  function Left<V>(d: Dict<string, V>, expired: seq<string>, victims: seq<string>): Dict<string, V> {
    DeleteAll(DeleteAll(d, expired), victims)
  }

  /** The ranks as they are at one time. */
  ghost function RanksOf(data: map<string, CacheEntry>): map<string, Ranked>
    reads data.Values
  {
    map k | k in data :: RankIn(data, k)
  }

  /** No survivor ranks below an entry evicted by rank. */
  ghost predicate LowestOf(victims: seq<string>, ranks: map<string, Ranked>) {
    && (forall v :: v in victims ==> v in ranks)
    && (forall v, k :: v in victims && k in ranks && k !in victims ==>
          ranks[v].hits < ranks[k].hits || (ranks[v].hits == ranks[k].hits && ranks[v].createdAt <= ranks[k].createdAt))
  }

  /** Each victim was used less than every key kept, or as often and entered no later. */
  ghost predicate RanksBelow(data: map<string, CacheEntry>, victims: seq<string>, kept: set<string>)
    reads data.Values
  {
    forall v, k :: v in victims && k in kept && v in data && k in data ==>
      data[v].hitCount < data[k].hitCount
      || (data[v].hitCount == data[k].hitCount && data[v].stored.createdAt <= data[k].stored.createdAt)
  }

  /**
   Every expired key goes; of the rest the lowest ranked ones, if they alone fill the cache, down to
   100 below the limit.
   */
  ghost predicate IsEviction(before: Dict<string, CacheEntry>, ranks: map<string, Ranked>, maxEntries: int, now: real,
                             expired: seq<string>, victims: seq<string>)
  {
    var left := |before.keys| - |expired|;
    && NoDuplicates(expired) && NoDuplicates(victims)
    && (forall k :: k in expired <==> k in before.data && Expired(before.data[k].stored, now))
    && |victims| == (if left >= maxEntries then Min(left, left - maxEntries + 100) else 0)
    && LowestOf(victims, ranks - set k | k in expired)
  }

  lemma LeftKeys(before: Dict<string, CacheEntry>, expired: seq<string>, victims: seq<string>)
    requires Valid(before) && NoDuplicates(expired) && NoDuplicates(victims)
    requires (forall k :: k in expired ==> k in before.data) && forall k :: k in victims ==> k in before.data && k !in expired
    ensures forall k :: k in Left(before, expired, victims).data <==> k in before.data && k !in expired && k !in victims
  {
    DeleteAllEffect(before, expired);
    DeleteAllEffect(DeleteAll(before, expired), victims);
  }

  lemma RanksMean(data: map<string, CacheEntry>, ranks: map<string, Ranked>, expired: seq<string>, victims: seq<string>, kept: set<string>)
    requires ranks == RanksOf(data) && LowestOf(victims, ranks - set k | k in expired)
    requires forall k :: k in kept ==> k in data && k !in expired && k !in victims
    ensures RanksBelow(data, victims, kept)
  {
    forall k | k in data ensures ranks[k].hits == data[k].hitCount && ranks[k].createdAt == data[k].stored.createdAt {}
  }

  lemma LeftMeans(before: Dict<string, CacheEntry>, ranks: map<string, Ranked>, maxEntries: int, now: real,
                  expired: seq<string>, victims: seq<string>)
    requires Valid(before) && IsEviction(before, ranks, maxEntries, now, expired, victims) && ranks == RanksOf(before.data)
    ensures forall k :: k in Left(before, expired, victims).data <==> k in before.data && k !in expired && k !in victims
    ensures RanksBelow(before.data, victims, Left(before, expired, victims).data.Keys)
  {
    LeftKeys(before, expired, victims);
    RanksMean(before.data, ranks, expired, victims, Left(before, expired, victims).data.Keys);
  }

  lemma GoneFrom(l1: Dict<string, CacheEntry>, gone: seq<string>)
    requires Valid(l1) && NoDuplicates(gone) && forall k :: k in gone ==> k in l1.data
    ensures |DeleteAll(l1, gone).keys| == |l1.keys| - |gone|
    ensures RanksOf(DeleteAll(l1, gone).data) == RanksOf(l1.data) - set k | k in gone
  {
    DeleteAllEffect(l1, gone);
    RanksLeft(l1.data, DeleteAll(l1, gone).data, gone);
  }

  lemma EvictionMade(before: Dict<string, CacheEntry>, ranks: map<string, Ranked>,
                     middle: Dict<string, CacheEntry>, ranksLeft: map<string, Ranked>,
                     maxEntries: int, now: real, expired: seq<string>, victims: seq<string>)
    requires |middle.keys| == |before.keys| - |expired| && ranksLeft == ranks - set k | k in expired
    requires NoDuplicates(expired) && NoDuplicates(victims)
    requires forall k :: k in expired <==> k in before.data && Expired(before.data[k].stored, now)
    requires var n := |middle.keys|; |victims| == if n >= maxEntries then Min(n, n - maxEntries + 100) else 0
    requires LowestOf(victims, ranksLeft)
    ensures IsEviction(before, ranks, maxEntries, now, expired, victims)
  {}

  lemma RanksLeft(data: map<string, CacheEntry>, left: map<string, CacheEntry>, gone: seq<string>)
    requires left == map k | k in data && k !in gone :: data[k]
    ensures RanksOf(left) == RanksOf(data) - set k | k in gone
  {}

  ghost function RankIn(data: map<string, CacheEntry>, key: string): Ranked
    reads data.Values
    requires key in data
  {
    Ranked(key, data[key].hitCount, data[key].stored.createdAt)
  }

  lemma VictimsAreLowest(l1: Dict<string, CacheEntry>, ranks: seq<Ranked>, n: nat)
    requires Valid(l1) && n <= |ranks| && KeysOf(ranks) == l1.keys
    requires forall i :: 0 <= i < |ranks| ==> l1.keys[i] in l1.data && ranks[i] == RankIn(l1.data, l1.keys[i])
    ensures |StableSort(ranks, ByRank())| == |ranks|
    ensures var victims := KeysOf(StableSort(ranks, ByRank())[..n]);
            && NoDuplicates(victims) && |victims| == n
            && (forall v :: v in victims ==> v in l1.data)
            && (forall v, k :: v in victims && k in l1.data && k !in victims ==>
                  !RankLess(RankIn(l1.data, k), RankIn(l1.data, v)))
  {
    LowestRanked(ranks, n);
    var s := StableSort(ranks, ByRank());
    var victims := KeysOf(s[..n]);
    forall i | 0 <= i < n ensures victims[i] in l1.data && s[i] == RankIn(l1.data, victims[i]) {
      var j :| 0 <= j < |ranks| && ranks[j] == s[i];
      assert KeysOf(ranks)[j] == ranks[j].key;
    }
    forall v, k | v in victims && k in l1.data && k !in victims ensures !RankLess(RankIn(l1.data, k), RankIn(l1.data, v)) {
      var i :| 0 <= i < n && victims[i] == v;
      assert k in l1.keys;
      var j :| 0 <= j < |l1.keys| && l1.keys[j] == k;
      assert ranks[j].key == k && ranks[j] in ranks;
    }
  }

  /** A put replaces the latest of its own key and clears nothing. */
  lemma PutKeepsLinks(data: map<string, CacheEntry>, l2: seq<CacheEntry>, history: seq<Event>, stored: Stored)
    ensures var h := history + [Event.Put(stored)];
            && Latest(h, stored.key) == Some(stored) && Survives(h, stored)
            && (forall k :: k in data && k != stored.key ==> Latest(h, k) == Latest(history, k))
            && (forall j :: 0 <= j < |l2| && Survives(history, l2[j].stored) ==> Survives(h, l2[j].stored))
  {
    var h := history + [Event.Put(stored)];
    assert h[..|h| - 1] == history;
  }
}
