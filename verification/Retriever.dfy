/**
 Hybrid retrieval after the two searches have answered: reciprocal-rank fusion, metadata
 filter, de-duplication, reranking and the final cut. Scores are ideal reals.
 */
module Retriever {
  import opened Basics
  import opened Wrappers
  import opened StableSorting
  import opened OrderedDict

  datatype Doc = Doc(content: string, source: string, score: real, metadata: map<string, string>)

  /** The content hash, or source and content prefix when the hash is missing or empty. */
  function DocKey(d: Doc): string {
    if "content_hash" in d.metadata && d.metadata["content_hash"] != "" then d.metadata["content_hash"]
    else d.source + "|" + (if |d.content| <= 100 then d.content else d.content[..100])
  }

  function Keys(docs: seq<Doc>): (keys: seq<string>)
    ensures |keys| == |docs|
    ensures forall i :: 0 <= i < |docs| ==> keys[i] == DocKey(docs[i])
  {
    seq(|docs|, i requires 0 <= i < |docs| => DocKey(docs[i]))
  }

  // ---------------------------------------------------------------- reference semantics

  /** No rank of a list of n documents makes the denominator k + rank + 1 zero. */
  predicate Divides(k: int, n: nat) { k >= 0 || k + n < 0 }

  function Weight(k: int, rank: nat): real
    requires k + rank + 1 != 0
  {
    1.0 / (k + rank + 1) as real
  }

  /** What the occurrences of a key at ranks below n contribute. */
  ghost function RouteScore(key: string, keys: seq<string>, k: int, n: nat): real
    requires n <= |keys| && Divides(k, |keys|)
  {
    if n == 0 then 0.0
    else RouteScore(key, keys, k, n - 1) + if keys[n - 1] == key then Weight(k, n - 1) else 0.0
  }

  ghost function FusedScore(key: string, dense: seq<string>, sparse: seq<string>, k: int): real
    requires Divides(k, |dense|) && Divides(k, |sparse|)
  {
    RouteScore(key, dense, k, |dense|) + RouteScore(key, sparse, k, |sparse|)
  }

  /** The last rank below n with the key, or -1. */
  ghost function LastRank(key: string, keys: seq<string>, n: nat): (r: int)
    requires n <= |keys|
    ensures -1 <= r < n
  {
    if n == 0 then -1 else if keys[n - 1] == key then n - 1 else LastRank(key, keys, n - 1)
  }

  /** The first rank below n with the key, or -1. */
  ghost function FirstRank(key: string, keys: seq<string>, n: nat): (r: int)
    requires n <= |keys|
    ensures -1 <= r < n
  {
    if n == 0 then -1
    else
      var earlier := FirstRank(key, keys, n - 1);
      if earlier >= 0 then earlier else if keys[n - 1] == key then n - 1 else -1
  }

  /** The last of the first n dense documents with the key, or else the first of the first m sparse ones. */
  ghost function Choice(key: string, dense: seq<Doc>, dk: seq<string>, n: nat, sparse: seq<Doc>, sk: seq<string>, m: nat)
    : Option<Doc>
    requires n <= |dense| == |dk| && m <= |sparse| == |sk|
  {
    var d, s := LastRank(key, dk, n), FirstRank(key, sk, m);
    if d >= 0 then Some(dense[d]) else if s >= 0 then Some(sparse[s]) else None
  }

  ghost function Representative(key: string, dense: seq<Doc>, sparse: seq<Doc>): Option<Doc> {
    Choice(key, dense, Keys(dense), |dense|, sparse, Keys(sparse), |sparse|)
  }

  /** The distinct keys among the first n, in order of first appearance. */
  ghost function FirstSeen(keys: seq<string>, n: nat): seq<string>
    requires n <= |keys|
  {
    if n == 0 then []
    else
      var seen := FirstSeen(keys, n - 1);
      if keys[n - 1] in seen then seen else seen + [keys[n - 1]]
  }

  ghost function AllSeen(dense: seq<string>, sparse: seq<string>): seq<string> {
    FirstSeen(dense + sparse, |dense + sparse|)
  }

  /** Higher score first; equal scores in order of first appearance. */
  ghost predicate Outranks(key: string, key': string, dense: seq<string>, sparse: seq<string>, k: int)
    requires Divides(k, |dense|) && Divides(k, |sparse|)
  {
    var s, s' := FusedScore(key, dense, sparse, k), FusedScore(key', dense, sparse, k);
    s > s' || (s == s' && Before(AllSeen(dense, sparse), key, key'))
  }

  /** The order of the fused keys: each key of either list once, ranked. */
  ghost predicate IsRanking(ids: seq<string>, dense: seq<string>, sparse: seq<string>, k: int)
    requires Divides(k, |dense|) && Divides(k, |sparse|)
  {
    && (forall key :: key in ids <==> key in dense || key in sparse)
    && (forall i, j :: 0 <= i < j < |ids| ==> ids[i] != ids[j] && Outranks(ids[i], ids[j], dense, sparse, k))
  }

  /** The whole promise of the fusion. */
  ghost predicate IsFusion(fused: seq<Doc>, dense: seq<Doc>, sparse: seq<Doc>, k: int)
    requires Divides(k, |dense|) && Divides(k, |sparse|)
  {
    && IsRanking(Keys(fused), Keys(dense), Keys(sparse), k)
    && (forall i :: 0 <= i < |fused| ==>
          fused[i].score == FusedScore(Keys(fused)[i], Keys(dense), Keys(sparse), k))
    && (forall i :: 0 <= i < |fused| ==>
          && Representative(Keys(fused)[i], dense, sparse).Some?
          && fused[i] == Representative(Keys(fused)[i], dense, sparse).value.(score := fused[i].score))
  }

  // ---------------------------------------------------------------- first appearance

  lemma {:induction false} FirstSeenElements(keys: seq<string>, n: nat)
    requires n <= |keys|
    ensures NoDuplicates(FirstSeen(keys, n))
    ensures forall key :: key in FirstSeen(keys, n) <==> key in keys[..n]
  {
    if n > 0 {
      FirstSeenElements(keys, n - 1);
      assert keys[..n] == keys[..n - 1] + [keys[n - 1]];
    }
  }

  lemma {:induction false} FirstSeenPrefix(a: seq<string>, b: seq<string>, n: nat)
    requires n <= |a|
    ensures FirstSeen(a + b, n) == FirstSeen(a, n)
  {
    if n > 0 { FirstSeenPrefix(a, b, n - 1); }
  }

  // ---------------------------------------------------------------- the fusion loops

  function ByScore(scores: map<string, real>): (string, string) -> bool {
    (a, b) => ScoreOf(scores, a) >= ScoreOf(scores, b)
  }

  function ScoreOf(scores: map<string, real>, key: string): real {
    if key in scores then scores[key] else 0.0
  }

  /** The score dictionary after n dense and m sparse documents. */
  ghost predicate Scored(scores: map<string, real>, dk: seq<string>, n: nat, sk: seq<string>, m: nat, k: int)
    requires n <= |dk| && m <= |sk| && Divides(k, |dk|) && Divides(k, |sk|)
  {
    forall key :: ScoreOf(scores, key) == RouteScore(key, dk, k, n) + RouteScore(key, sk, k, m)
  }

  ghost function Lookup(chosen: map<string, Doc>, key: string): Option<Doc> {
    if key in chosen then Some(chosen[key]) else None
  }

  /** The document dictionary at the same point. */
  ghost predicate Chosen(chosen: map<string, Doc>, dense: seq<Doc>, dk: seq<string>, n: nat,
                         sparse: seq<Doc>, sk: seq<string>, m: nat)
    requires n <= |dense| == |dk| && m <= |sparse| == |sk|
  {
    forall key :: Lookup(chosen, key) == Choice(key, dense, dk, n, sparse, sk, m)
  }

  lemma ScoreDense(scores: map<string, real>, dk: seq<string>, n: nat, sk: seq<string>, k: int)
    requires n < |dk| && Divides(k, |dk|) && Divides(k, |sk|) && Scored(scores, dk, n, sk, 0, k)
    ensures Scored(scores[dk[n] := ScoreOf(scores, dk[n]) + Weight(k, n)], dk, n + 1, sk, 0, k)
  {
    assert ScoreOf(scores, dk[n]) == RouteScore(dk[n], dk, k, n) + RouteScore(dk[n], sk, k, 0);
  }

  lemma ScoreSparse(scores: map<string, real>, dk: seq<string>, sk: seq<string>, m: nat, k: int)
    requires m < |sk| && Divides(k, |dk|) && Divides(k, |sk|) && Scored(scores, dk, |dk|, sk, m, k)
    ensures Scored(scores[sk[m] := ScoreOf(scores, sk[m]) + Weight(k, m)], dk, |dk|, sk, m + 1, k)
  {
    assert ScoreOf(scores, sk[m]) == RouteScore(sk[m], dk, k, |dk|) + RouteScore(sk[m], sk, k, m);
  }

  lemma ChooseDense(chosen: map<string, Doc>, dense: seq<Doc>, dk: seq<string>, n: nat, sparse: seq<Doc>, sk: seq<string>)
    requires n < |dense| == |dk| && |sparse| == |sk| && Chosen(chosen, dense, dk, n, sparse, sk, 0)
    ensures Chosen(chosen[dk[n] := dense[n]], dense, dk, n + 1, sparse, sk, 0)
  {
    var chosen' := chosen[dk[n] := dense[n]];
    forall key ensures Lookup(chosen', key) == Choice(key, dense, dk, n + 1, sparse, sk, 0) {
      assert Lookup(chosen, key) == Choice(key, dense, dk, n, sparse, sk, 0);
    }
  }

  lemma ChooseSparse(chosen: map<string, Doc>, dense: seq<Doc>, dk: seq<string>, sparse: seq<Doc>, sk: seq<string>, m: nat)
    requires |dense| == |dk| && m < |sparse| == |sk| && Chosen(chosen, dense, dk, |dk|, sparse, sk, m)
    ensures var chosen' := if sk[m] in chosen then chosen else chosen[sk[m] := sparse[m]];
            Chosen(chosen', dense, dk, |dk|, sparse, sk, m + 1)
  {
    var chosen' := if sk[m] in chosen then chosen else chosen[sk[m] := sparse[m]];
    forall key ensures Lookup(chosen', key) == Choice(key, dense, dk, |dk|, sparse, sk, m + 1) {
      assert Lookup(chosen, key) == Choice(key, dense, dk, |dk|, sparse, sk, m);
    }
  }

  /** Both dictionaries after n dense and m sparse documents. */
  ghost predicate Tallied(dict: Dict<string, real>, chosen: map<string, Doc>, dense: seq<Doc>, dk: seq<string>, n: nat,
                          sparse: seq<Doc>, sk: seq<string>, m: nat, k: int)
    requires n <= |dense| == |dk| && m <= |sparse| == |sk| && Divides(k, |dk|) && Divides(k, |sk|)
    requires m == 0 || n == |dk|
  {
    && dict.keys == FirstSeen(dk + sk, n + m)
    && (forall key :: key in dict.keys <==> key in dict.data)
    && Scored(dict.data, dk, n, sk, m, k)
    && Chosen(chosen, dense, dk, n, sparse, sk, m)
  }

  lemma TallyDense(dict: Dict<string, real>, chosen: map<string, Doc>, dense: seq<Doc>, dk: seq<string>, n: nat,
                   sparse: seq<Doc>, sk: seq<string>, k: int)
    requires n < |dense| == |dk| && |sparse| == |sk| && Divides(k, |dk|) && Divides(k, |sk|)
    requires Tallied(dict, chosen, dense, dk, n, sparse, sk, 0, k)
    ensures Tallied(Set(dict, dk[n], Get(dict, dk[n], 0.0) + Weight(k, n)), chosen[dk[n] := dense[n]],
                    dense, dk, n + 1, sparse, sk, 0, k)
  {
    ScoreDense(dict.data, dk, n, sk, k);
    ChooseDense(chosen, dense, dk, n, sparse, sk);
    assert (dk + sk)[n] == dk[n];
  }

  lemma TallySparse(dict: Dict<string, real>, chosen: map<string, Doc>, dense: seq<Doc>, dk: seq<string>,
                    sparse: seq<Doc>, sk: seq<string>, m: nat, k: int)
    requires |dense| == |dk| && m < |sparse| == |sk| && Divides(k, |dk|) && Divides(k, |sk|)
    requires Tallied(dict, chosen, dense, dk, |dk|, sparse, sk, m, k)
    ensures Tallied(Set(dict, sk[m], Get(dict, sk[m], 0.0) + Weight(k, m)),
                    if sk[m] in chosen then chosen else chosen[sk[m] := sparse[m]],
                    dense, dk, |dk|, sparse, sk, m + 1, k)
  {
    ScoreSparse(dict.data, dk, sk, m, k);
    ChooseSparse(chosen, dense, dk, sparse, sk, m);
    assert (dk + sk)[|dk| + m] == sk[m];
  }

  /** The loop over the dense results. */
  method TallyAllDense(dense: seq<Doc>, ghost dk: seq<string>, ghost sparse: seq<Doc>, ghost sk: seq<string>, k: int)
    returns (dict: Dict<string, real>, chosen: map<string, Doc>)
    requires |dense| == |dk| && (forall i :: 0 <= i < |dk| ==> dk[i] == DocKey(dense[i])) && |sk| == |sparse|
    requires Divides(k, |dense|) && Divides(k, |sparse|)
    ensures Tallied(dict, chosen, dense, dk, |dense|, sparse, sk, 0, k)
  {
    dict, chosen := Empty(), map[];
    for rank := 0 to |dense|
      invariant Tallied(dict, chosen, dense, dk, rank, sparse, sk, 0, k)
    {
      dict, chosen := TallyOneDense(dict, chosen, dense, dk, rank, sparse, sk, k);
    }
  }

  /** One turn of that loop. */
  method TallyOneDense(dict: Dict<string, real>, chosen: map<string, Doc>, dense: seq<Doc>, ghost dk: seq<string>, rank: nat,
                       ghost sparse: seq<Doc>, ghost sk: seq<string>, k: int)
    returns (dict': Dict<string, real>, chosen': map<string, Doc>)
    requires rank < |dense| == |dk| && dk[rank] == DocKey(dense[rank]) && |sk| == |sparse|
    requires Divides(k, |dense|) && Divides(k, |sparse|) && Tallied(dict, chosen, dense, dk, rank, sparse, sk, 0, k)
    ensures Tallied(dict', chosen', dense, dk, rank + 1, sparse, sk, 0, k)
  {
    TallyDense(dict, chosen, dense, dk, rank, sparse, sk, k);
    var id := DocKey(dense[rank]);
    dict' := Set(dict, id, Get(dict, id, 0.0) + Weight(k, rank));
    chosen' := chosen[id := dense[rank]];
  }

  /** The loop over the sparse results: a document already chosen stays. */
  method TallyAllSparse(dict: Dict<string, real>, chosen: map<string, Doc>, ghost dense: seq<Doc>, ghost dk: seq<string>,
                        sparse: seq<Doc>, ghost sk: seq<string>, k: int)
    returns (dict': Dict<string, real>, chosen': map<string, Doc>)
    requires |dense| == |dk| && |sk| == |sparse| && forall i :: 0 <= i < |sk| ==> sk[i] == DocKey(sparse[i])
    requires Divides(k, |dense|) && Divides(k, |sparse|)
    requires Tallied(dict, chosen, dense, dk, |dense|, sparse, sk, 0, k)
    ensures Tallied(dict', chosen', dense, dk, |dense|, sparse, sk, |sparse|, k)
  {
    dict', chosen' := dict, chosen;
    for rank := 0 to |sparse|
      invariant Tallied(dict', chosen', dense, dk, |dense|, sparse, sk, rank, k)
    {
      TallySparse(dict', chosen', dense, dk, sparse, sk, rank, k);
      var id := DocKey(sparse[rank]);
      dict' := Set(dict', id, Get(dict', id, 0.0) + Weight(k, rank));
      if id !in chosen' { chosen' := chosen'[id := sparse[rank]]; }
    }
  }

  lemma ByScoreIsPreorder(scores: map<string, real>)
    ensures TotalPreorder(ByScore(scores))
  {}

  lemma {:induction false} LastRankIsLast(key: string, keys: seq<string>, n: nat)
    requires n <= |keys|
    ensures var r := LastRank(key, keys, n);
            (r >= 0 ==> keys[r] == key) && forall j :: r < j < n ==> keys[j] != key
  {
    if n > 0 { LastRankIsLast(key, keys, n - 1); }
  }

  lemma {:induction false} FirstRankIsFirst(key: string, keys: seq<string>, n: nat)
    requires n <= |keys|
    ensures var r := FirstRank(key, keys, n);
            (r >= 0 ==> keys[r] == key) && forall j :: 0 <= j < (if r >= 0 then r else n) ==> keys[j] != key
  {
    if n > 0 { FirstRankIsFirst(key, keys, n - 1); }
  }

  lemma ChoiceExists(key: string, keys: seq<string>)
    ensures LastRank(key, keys, |keys|) >= 0 <==> key in keys
    ensures FirstRank(key, keys, |keys|) >= 0 <==> key in keys
    ensures var r := LastRank(key, keys, |keys|); r >= 0 ==> keys[r] == key
    ensures var r := FirstRank(key, keys, |keys|); r >= 0 ==> keys[r] == key
  {
    LastRankIsLast(key, keys, |keys|);
    FirstRankIsFirst(key, keys, |keys|);
  }

  /** `sorted(scores, key=..., reverse=True)`: each key once, by score, ties in first-seen order. */
  lemma SortRanks(dict: Dict<string, real>, dk: seq<string>, sk: seq<string>, k: int)
    requires Divides(k, |dk|) && Divides(k, |sk|)
    requires dict.keys == AllSeen(dk, sk) && Scored(dict.data, dk, |dk|, sk, |sk|, k)
    ensures IsRanking(StableSort(dict.keys, ByScore(dict.data)), dk, sk, k)
  {
    var leq := ByScore(dict.data);
    var ids := StableSort(dict.keys, leq);
    ByScoreIsPreorder(dict.data);
    SortMultiset(dict.keys, leq);
    SortSorted(dict.keys, leq);
    FirstSeenElements(dk + sk, |dk + sk|);
    SameElements(ids, dict.keys);
    PermutationNoDuplicates(dict.keys, ids);
    assert (dk + sk)[..|dk + sk|] == dk + sk;
    forall i, j | 0 <= i < j < |ids| ensures ids[i] != ids[j] && Outranks(ids[i], ids[j], dk, sk, k) {
      SortedPairOutranks(dict, dk, sk, k, ids, i, j);
    }
  }

  lemma SortedPairOutranks(dict: Dict<string, real>, dk: seq<string>, sk: seq<string>, k: int, ids: seq<string>, i: nat, j: nat)
    requires Divides(k, |dk|) && Divides(k, |sk|)
    requires dict.keys == AllSeen(dk, sk) && Scored(dict.data, dk, |dk|, sk, |sk|, k)
    requires ids == StableSort(dict.keys, ByScore(dict.data)) && i < j < |ids|
    requires Sorted(ids, ByScore(dict.data)) && NoDuplicates(ids) && forall key :: key in ids <==> key in dict.keys
    ensures Outranks(ids[i], ids[j], dk, sk, k)
  {
    var leq, a, b := ByScore(dict.data), ids[i], ids[j];
    assert leq(a, b);
    assert ScoreOf(dict.data, a) == FusedScore(a, dk, sk, k) && ScoreOf(dict.data, b) == FusedScore(b, dk, sk, k);
    if FusedScore(a, dk, sk, k) == FusedScore(b, dk, sk, k) {
      assert a in dict.keys && b in dict.keys;
      var p :| 0 <= p < |dict.keys| && dict.keys[p] == a;
      var q :| 0 <= q < |dict.keys| && dict.keys[q] == b;
      ByScoreIsPreorder(dict.data);
      if q < p {
        assert Before(dict.keys, b, a);
        SortStable(dict.keys, leq, b, a);
        NotBeforeTwice(ids, i, j);
      }
    }
  }

  lemma NotBeforeTwice(ids: seq<string>, i: nat, j: nat)
    requires i < j < |ids| && NoDuplicates(ids)
    ensures !Before(ids, ids[j], ids[i])
  {}

  /** Building the result leaves the key of each chosen document as it was. */
  lemma KeyKept(d: Doc, score: real)
    ensures DocKey(d.(score := score)) == DocKey(d)
  {}

  lemma ChosenAll(dict: Dict<string, real>, chosen: map<string, Doc>, dense: seq<Doc>, dk: seq<string>,
                  sparse: seq<Doc>, sk: seq<string>, k: int, ids: seq<string>)
    requires |dense| == |dk| && |sparse| == |sk| && Divides(k, |dk|) && Divides(k, |sk|)
    requires Tallied(dict, chosen, dense, dk, |dk|, sparse, sk, |sk|, k)
    requires forall id :: id in ids ==> id in dk || id in sk
    ensures forall id :: id in ids ==>
              && id in chosen && Choice(id, dense, dk, |dk|, sparse, sk, |sk|) == Some(chosen[id])
              && ScoreOf(dict.data, id) == FusedScore(id, dk, sk, k)
  {
    forall id | id in ids
      ensures id in chosen && Choice(id, dense, dk, |dk|, sparse, sk, |sk|) == Some(chosen[id])
      ensures ScoreOf(dict.data, id) == FusedScore(id, dk, sk, k)
    {
      ChoiceExists(id, dk);
      ChoiceExists(id, sk);
      assert Lookup(chosen, id) == Choice(id, dense, dk, |dk|, sparse, sk, |sk|);
    }
  }

  /** The list of results in ranked order. */
  method Assemble(ids: seq<string>, scores: map<string, real>, chosen: map<string, Doc>) returns (fused: seq<Doc>)
    requires forall id :: id in ids ==> id in chosen
    ensures |fused| == |ids|
    ensures forall j :: 0 <= j < |ids| ==> fused[j] == chosen[ids[j]].(score := ScoreOf(scores, ids[j]))
  {
    fused := [];
    for i := 0 to |ids|
      invariant |fused| == i
      invariant forall j :: 0 <= j < i ==> fused[j] == chosen[ids[j]].(score := ScoreOf(scores, ids[j]))
    {
      var d := chosen[ids[i]];
      fused := fused + [Doc(d.content, d.source, ScoreOf(scores, ids[i]), d.metadata)];
    }
  }

  method RrfFusion(dense: seq<Doc>, sparse: seq<Doc>, k: int) returns (fused: seq<Doc>)
    requires Divides(k, |dense|) && Divides(k, |sparse|)
    ensures IsFusion(fused, dense, sparse, k)
  {
    ghost var dk, sk := Keys(dense), Keys(sparse);
    var dict, chosen := TallyAllDense(dense, dk, sparse, sk, k);
    dict, chosen := TallyAllSparse(dict, chosen, dense, dk, sparse, sk, k);
    var ids := StableSort(dict.keys, ByScore(dict.data));
    assert |dk| + |sk| == |dk + sk|;
    SortRanks(dict, dk, sk, k);
    ChosenAll(dict, chosen, dense, dk, sparse, sk, k, ids);
    fused := Assemble(ids, dict.data, chosen);
    FusedKeys(fused, ids, dense, sparse, k);
  }

  lemma FusedKeys(fused: seq<Doc>, ids: seq<string>, dense: seq<Doc>, sparse: seq<Doc>, k: int)
    requires Divides(k, |dense|) && Divides(k, |sparse|) && |fused| == |ids|
    requires IsRanking(ids, Keys(dense), Keys(sparse), k)
    requires forall j :: 0 <= j < |ids| ==>
               Representative(ids[j], dense, sparse).Some?
               && fused[j] == Representative(ids[j], dense, sparse).value
                              .(score := FusedScore(ids[j], Keys(dense), Keys(sparse), k))
    ensures IsFusion(fused, dense, sparse, k)
  {
    forall j | 0 <= j < |ids| ensures Keys(fused)[j] == ids[j] {
      ChoiceExists(ids[j], Keys(dense));
      ChoiceExists(ids[j], Keys(sparse));
      KeyKept(Representative(ids[j], dense, sparse).value, fused[j].score);
    }
    assert Keys(fused) == ids;
  }

  // ---------------------------------------------------------------- the promise determines the list

  ghost function OutranksRelation(dk: seq<string>, sk: seq<string>, k: int): (string, string) -> bool
    requires Divides(k, |dk|) && Divides(k, |sk|)
  {
    (a, b) => Outranks(a, b, dk, sk, k)
  }

  lemma OutranksAsymmetric(a: string, b: string, dk: seq<string>, sk: seq<string>, k: int)
    requires Divides(k, |dk|) && Divides(k, |sk|)
    ensures Outranks(a, b, dk, sk, k) ==> !Outranks(b, a, dk, sk, k)
  {
    FirstSeenElements(dk + sk, |dk + sk|);
    var seen := AllSeen(dk, sk);
    if Before(seen, a, b) {
      var i, j :| 0 <= i < j < |seen| && seen[i] == a && seen[j] == b;
      NotBeforeTwice(seen, i, j);
    }
  }

  /** Two lists that both keep the fusion's promise are the same list. */
  lemma FusionUnique(f: seq<Doc>, g: seq<Doc>, dense: seq<Doc>, sparse: seq<Doc>, k: int)
    requires Divides(k, |dense|) && Divides(k, |sparse|)
    requires IsFusion(f, dense, sparse, k) && IsFusion(g, dense, sparse, k)
    ensures f == g
  {
    var dk, sk := Keys(dense), Keys(sparse);
    var lt := OutranksRelation(dk, sk, k);
    forall a, b | lt(a, b) ensures !lt(b, a) { OutranksAsymmetric(a, b, dk, sk, k); }
    assert forall key :: key in Keys(f) <==> key in Keys(g);
    OrderDeterminesList(Keys(f), Keys(g), lt);
    assert |f| == |Keys(f)| == |Keys(g)| == |g|;
    forall i | 0 <= i < |f| ensures f[i] == g[i] {
      assert Keys(f)[i] == Keys(g)[i];
    }
  }

  // ---------------------------------------------------------------- found by both routes

  lemma {:induction false} AbsentScore(key: string, keys: seq<string>, k: int, n: nat)
    requires n <= |keys| && Divides(k, |keys|) && key !in keys[..n]
    ensures RouteScore(key, keys, k, n) == 0.0
  {
    if n > 0 {
      assert keys[n - 1] in keys[..n];
      assert keys[..n - 1] == keys[..n][..n - 1];
      AbsentScore(key, keys, k, n - 1);
    }
  }

  lemma {:induction false} SingleScore(keys: seq<string>, k: int, r: nat, n: nat)
    requires r < n <= |keys| && Divides(k, |keys|) && NoDuplicates(keys)
    ensures RouteScore(keys[r], keys, k, n) == Weight(k, r)
  {
    if r == n - 1 {
      AbsentScore(keys[r], keys, k, n - 1);
    } else {
      SingleScore(keys, k, r, n - 1);
    }
  }

  lemma WeightBounds(k: nat, r: nat, n: nat)
    requires r < n
    ensures 1.0 / (k + n) as real <= Weight(k, r) <= 1.0 / (k + 1) as real
  {
    ReciprocalOrder((k + r + 1) as real, (k + n) as real);
    ReciprocalOrder((k + 1) as real, (k + r + 1) as real);
  }

  lemma ReciprocalOrder(x: real, y: real)
    requires 0.0 < x <= y
    ensures 1.0 / y <= 1.0 / x
  {}

  lemma TwiceReciprocal(x: real, y: real)
    requires 0.0 < x && 0.0 < y
    ensures 2.0 / y > 1.0 / x <==> 2.0 * x > y
    ensures 1.0 / y + 1.0 / y == 2.0 / y
  {
    var p, q := 1.0 / x, 1.0 / y;
    assert 2.0 / y == 2.0 * q;
    assert p * x == 1.0 && q * y == 1.0;
    if 2.0 * x > y {
      Scale(y, 2.0 * x, q);
      Scale(1.0 / 2.0, x * q, p);
    } else {
      Scale(2.0 * x, y, q);
      Scale(x * q, 1.0 / 2.0, p);
    }
    assert (x * q) * p == q by { assert (x * q) * p == q * (p * x); }
  }

  /** Every document both routes found, and every one only one route found. */
  ghost predicate BothBeatOne(dk: seq<string>, sk: seq<string>, k: nat) {
    forall a, b :: a in dk && a in sk && (b in dk || b in sk) && !(b in dk && b in sk)
      ==> FusedScore(a, dk, sk, k) > FusedScore(b, dk, sk, k)
  }

  lemma BothRoutesWin(dk: seq<string>, sk: seq<string>, k: nat, n: nat)
    requires NoDuplicates(dk) && NoDuplicates(sk) && |dk| <= n && |sk| <= n
    requires k + 2 > n
    ensures BothBeatOne(dk, sk, k)
  {
    assert dk[..|dk|] == dk && sk[..|sk|] == sk;
    forall a, b | a in dk && a in sk && (b in dk || b in sk) && !(b in dk && b in sk)
      ensures FusedScore(a, dk, sk, k) > FusedScore(b, dk, sk, k)
    {
      var i :| 0 <= i < |dk| && dk[i] == a;
      var j :| 0 <= j < |sk| && sk[j] == a;
      SingleScore(dk, k, i, |dk|);
      SingleScore(sk, k, j, |sk|);
      WeightBounds(k, i, n);
      WeightBounds(k, j, n);
      TwiceReciprocal((k + 1) as real, (k + n) as real);
      OneRouteScore(dk, sk, k, b);
    }
  }

  lemma OneRouteScore(dk: seq<string>, sk: seq<string>, k: nat, b: string)
    requires NoDuplicates(dk) && NoDuplicates(sk)
    requires (b in dk || b in sk) && !(b in dk && b in sk)
    ensures FusedScore(b, dk, sk, k) <= 1.0 / (k + 1) as real
  {
    assert dk[..|dk|] == dk && sk[..|sk|] == sk;
    if b in dk {
      var i :| 0 <= i < |dk| && dk[i] == b;
      SingleScore(dk, k, i, |dk|);
      AbsentScore(b, sk, k, |sk|);
      WeightBounds(k, i, |dk|);
    } else {
      var j :| 0 <= j < |sk| && sk[j] == b;
      SingleScore(sk, k, j, |sk|);
      AbsentScore(b, dk, k, |dk|);
      WeightBounds(k, j, |sk|);
    }
  }

  /** n - 1 documents of one route's own, then one that both routes share. */
  ghost function SharedLast(route: char, n: nat): seq<string>
    requires n >= 1
  {
    seq(n, i requires 0 <= i < n => if i == n - 1 then "shared" else seq(i + 1, _ => route))
  }

  lemma SharedLastKeys(n: nat)
    requires n >= 2
    ensures var dk, sk := SharedLast('d', n), SharedLast('s', n);
            && NoDuplicates(dk) && NoDuplicates(sk)
            && dk[0] == "d" && "d" !in sk && dk[n - 1] == sk[n - 1] == "shared"
  {
    var dk, sk := SharedLast('d', n), SharedLast('s', n);
    assert forall i :: 0 <= i < n - 1 ==> |dk[i]| == |sk[i]| == i + 1 && dk[i][0] == 'd' && sk[i][0] == 's';
    assert forall i :: 0 <= i < n - 1 && i + 1 > 1 ==> dk[i][1] == 'd' && sk[i][1] == 's';
    assert "shared"[0] == 's' && "shared"[1] == 'h' && |"s"| == 1;
    assert dk[0] == "d";
  }

  /** With k <= n - 2, a shared document at the bottom of both lists does not beat the top of one. */
  lemma SmallKFails(n: nat, k: nat)
    requires k + 2 <= n
    ensures !BothBeatOne(SharedLast('d', n), SharedLast('s', n), k)
  {
    var dk, sk := SharedLast('d', n), SharedLast('s', n);
    SharedLastKeys(n);
    SingleScore(dk, k, n - 1, n);
    SingleScore(sk, k, n - 1, n);
    SingleScore(dk, k, 0, n);
    assert sk[..n] == sk;
    AbsentScore("d", sk, k, n);
    TwiceReciprocal((k + 1) as real, (k + n) as real);
    assert dk[n - 1] in dk && sk[n - 1] in sk && dk[0] in dk;
    assert FusedScore("shared", dk, sk, k) <= FusedScore("d", dk, sk, k);
  }

  /**
   Documents found by both routes outrank all others, on all duplicate-free lists of at most n,
   exactly when k > n - 2. The shipped k = 60 with lists of 20 qualifies.
   */
  lemma BothRoutesExactly(n: nat, k: nat)
    ensures (forall dk: seq<string>, sk: seq<string> ::
               NoDuplicates(dk) && NoDuplicates(sk) && |dk| <= n && |sk| <= n ==> BothBeatOne(dk, sk, k))
            <==> k + 2 > n
  {
    if k + 2 > n {
      forall dk: seq<string>, sk: seq<string> | NoDuplicates(dk) && NoDuplicates(sk) && |dk| <= n && |sk| <= n
        ensures BothBeatOne(dk, sk, k)
      {
        BothRoutesWin(dk, sk, k, n);
      }
    } else {
      SharedLastKeys(n);
      SmallKFails(n, k);
    }
  }

  // ---------------------------------------------------------------- filter, de-duplicate, rerank, cut

  /** Python's `xs[:k]`, negative k included. */
  function Take<T>(xs: seq<T>, k: int): seq<T> {
    if k >= |xs| then xs else if k >= 0 then xs[..k] else if k + |xs| >= 0 then xs[..k + |xs|] else []
  }

  /** `[r for r in docs if keep(r)]` */
  function Filter(docs: seq<Doc>, keep: Doc -> bool): seq<Doc> {
    if docs == [] then [] else (if keep(docs[0]) then [docs[0]] else []) + Filter(docs[1..], keep)
  }

  /** The first document of each key, in order. */
  ghost function FirstOfEach(docs: seq<Doc>, n: nat): seq<Doc>
    requires n <= |docs|
  {
    if n == 0 then []
    else
      var kept := FirstOfEach(docs, n - 1);
      if DocKey(docs[n - 1]) in Keys(docs[..n - 1]) then kept else kept + [docs[n - 1]]
  }

  method Deduplicate(docs: seq<Doc>) returns (unique: seq<Doc>)
    ensures unique == FirstOfEach(docs, |docs|)
  {
    var seen: set<string> := {};
    unique := [];
    for i := 0 to |docs|
      invariant unique == FirstOfEach(docs, i)
      invariant forall key :: key in seen <==> key in Keys(docs[..i])
    {
      var key := DocKey(docs[i]);
      assert Keys(docs[..i + 1]) == Keys(docs[..i]) + [key];
      if key !in seen {
        seen := seen + {key};
        unique := unique + [docs[i]];
      }
    }
  }

  /** On documents with distinct keys, de-duplication is the identity. */
  lemma KeyIsNew(docs: seq<Doc>, n: nat)
    requires n < |docs| && NoDuplicates(Keys(docs))
    ensures DocKey(docs[n]) !in Keys(docs[..n])
  {
    var earlier := Keys(docs[..n]);
    forall i | 0 <= i < n ensures earlier[i] != DocKey(docs[n]) {
      assert earlier[i] == Keys(docs)[i] != Keys(docs)[n];
    }
  }

  lemma {:induction false} DeduplicateDistinct(docs: seq<Doc>, n: nat)
    requires n <= |docs| && NoDuplicates(Keys(docs))
    ensures FirstOfEach(docs, n) == docs[..n]
  {
    if n > 0 {
      DeduplicateDistinct(docs, n - 1);
      KeyIsNew(docs, n - 1);
      assert docs[..n] == docs[..n - 1] + [docs[n - 1]];
    }
  }

  function ByDocScore(): (Doc, Doc) -> bool { (a: Doc, b: Doc) => a.score >= b.score }

  /** Distinct keys in descending score order: what fusion returns. */
  ghost predicate Ranked(docs: seq<Doc>) { NoDuplicates(Keys(docs)) && Sorted(docs, ByDocScore()) }

  lemma {:induction false} FusionIsRanked(fused: seq<Doc>, dense: seq<Doc>, sparse: seq<Doc>, k: int)
    requires Divides(k, |dense|) && Divides(k, |sparse|) && IsFusion(fused, dense, sparse, k)
    ensures Ranked(fused)
  {
    var ids := Keys(fused);
    forall i, j | 0 <= i < j < |fused| ensures fused[i].score >= fused[j].score {
      assert Outranks(ids[i], ids[j], Keys(dense), Keys(sparse), k);
    }
  }

  lemma {:induction false} FilterRanked(docs: seq<Doc>, keep: Doc -> bool)
    requires Ranked(docs)
    ensures Ranked(Filter(docs, keep))
    ensures forall d :: d in Filter(docs, keep) <==> d in docs && keep(d)
  {
    if docs != [] {
      RankedTail(docs);
      FilterRanked(docs[1..], keep);
      assert docs == [docs[0]] + docs[1..];
      var kept := Filter(docs[1..], keep);
      if keep(docs[0]) {
        forall j | 0 <= j < |kept| ensures DocKey(docs[0]) != DocKey(kept[j]) && docs[0].score >= kept[j].score {
          assert kept[j] in docs[1..];
        }
        PrependRanked(docs[0], kept);
      }
    }
  }

  lemma RankedTail(docs: seq<Doc>)
    requires docs != [] && Ranked(docs)
    ensures Ranked(docs[1..])
    ensures forall d :: d in docs[1..] ==> DocKey(docs[0]) != DocKey(d) && docs[0].score >= d.score
  {
    var rest := docs[1..];
    assert forall i :: 0 <= i < |rest| ==> Keys(rest)[i] == Keys(docs)[i + 1] && rest[i] == docs[i + 1];
    forall i, j | 0 <= i < j < |rest| ensures ByDocScore()(rest[i], rest[j]) {
      assert ByDocScore()(docs[i + 1], docs[j + 1]);
    }
    forall d | d in rest ensures DocKey(docs[0]) != DocKey(d) && docs[0].score >= d.score {
      var i :| 0 <= i < |rest| && rest[i] == d;
      FirstOutranks(docs, i + 1);
    }
  }

  lemma FirstOutranks(docs: seq<Doc>, j: nat)
    requires 0 < j < |docs| && Ranked(docs)
    ensures DocKey(docs[0]) != DocKey(docs[j]) && docs[0].score >= docs[j].score
  {
    assert Keys(docs)[0] != Keys(docs)[j] && ByDocScore()(docs[0], docs[j]);
  }

  lemma PrependRanked(d: Doc, docs: seq<Doc>)
    requires Ranked(docs)
    requires forall j :: 0 <= j < |docs| ==> DocKey(d) != DocKey(docs[j]) && d.score >= docs[j].score
    ensures Ranked([d] + docs)
  {
    var all := [d] + docs;
    assert forall i :: 0 < i < |all| ==> Keys(all)[i] == Keys(docs)[i - 1] && all[i] == docs[i - 1];
    assert forall i, j :: 0 <= i < j < |docs| ==> ByDocScore()(docs[i], docs[j]);
  }

  /** The bundled reranker: a stable sort by the score already there, then the cut. */
  function Rerank(docs: seq<Doc>, topK: int): seq<Doc> { Take(StableSort(docs, ByDocScore()), topK) }

  /** On ranked documents the bundled reranker only cuts. */
  lemma RerankOnlyCuts(docs: seq<Doc>, topK: int)
    requires Ranked(docs)
    ensures Rerank(Take(docs, 20), topK) == Take(Take(docs, 20), topK)
  {
    assert Sorted(Take(docs, 20), ByDocScore());
    SortedIsFixed(Take(docs, 20), ByDocScore());
  }

  /**
   The reranked answer and the fallback after a reranker failure are the same list exactly when
   no more than 20 documents are left, or topK is from 0 to 20, or topK cuts everything off.
   */
  lemma FallbackAgreesExactly(docs: seq<Doc>, topK: int)
    requires Ranked(docs)
    ensures Rerank(Take(docs, 20), topK) == Take(docs, topK)
            <==> |docs| <= 20 || 0 <= topK <= 20 || topK + |docs| <= 0
  {
    RerankOnlyCuts(docs, topK);
    if |docs| > 20 && !(0 <= topK <= 20) && topK + |docs| > 0 {
      assert |Take(Take(docs, 20), topK)| != |Take(docs, topK)|;
    }
  }

  // ---------------------------------------------------------------- what the definitions come to

  predicate Hashed(d: Doc) { "content_hash" in d.metadata && d.metadata["content_hash"] != "" }

  function Opening(content: string): string { content[..Min(100, |content|)] }

  lemma OpeningIs(d: Doc)
    requires !Hashed(d)
    ensures DocKey(d) == d.source + "|" + Opening(d.content)
  {
    if |d.content| <= 100 { assert d.content[..|d.content|] == d.content; }
  }

  predicate FirstBarAt(s: string, n: nat) { n < |s| && s[n] == '|' && '|' !in s[..n] }

  lemma BarAfter(a: string, x: string)
    requires '|' !in a
    ensures FirstBarAt(a + "|" + x, |a|)
  {
    assert (a + "|" + x)[..|a|] == a;
  }

  lemma OneFirstBar(s: string, n: nat, m: nat)
    requires FirstBarAt(s, n) && FirstBarAt(s, m)
    ensures n == m
  {
    assert forall i :: 0 <= i < n ==> s[..n][i] == s[i];
    assert forall i :: 0 <= i < m ==> s[..m][i] == s[i];
  }

  lemma SplitAtBar(a: string, b: string, x: string, y: string)
    requires '|' !in a && '|' !in b && a + "|" + x == b + "|" + y
    ensures a == b && x == y
  {
    var s := a + "|" + x;
    BarAfter(a, x);
    BarAfter(b, y);
    OneFirstBar(s, |a|, |b|);
    assert a == s[..|a|] && b == s[..|b|];
    assert x == s[|a| + 1..] && y == s[|b| + 1..];
  }

  /**
   Two documents count as one exactly when their content hashes agree; without hashes, when source
   and the first hundred characters agree, provided no source holds a bar.
   */
  lemma SameDocumentExactly(a: Doc, b: Doc)
    ensures Hashed(a) && Hashed(b) ==> (DocKey(a) == DocKey(b) <==> a.metadata["content_hash"] == b.metadata["content_hash"])
    ensures !Hashed(a) && !Hashed(b) && '|' !in a.source && '|' !in b.source ==>
              (DocKey(a) == DocKey(b) <==> a.source == b.source && Opening(a.content) == Opening(b.content))
    ensures Hashed(a) && !Hashed(b) ==>
              (DocKey(a) == DocKey(b) <==> a.metadata["content_hash"] == b.source + "|" + Opening(b.content))
  {
    if !Hashed(a) { OpeningIs(a); }
    if !Hashed(b) { OpeningIs(b); }
    if !Hashed(a) && !Hashed(b) && '|' !in a.source && '|' !in b.source && DocKey(a) == DocKey(b) {
      SplitAtBar(a.source, b.source, Opening(a.content), Opening(b.content));
    }
  }

  lemma {:induction false} RouteScoreAt(key: string, keys: seq<string>, k: int, n: nat, i: nat)
    requires n <= |keys| && Divides(k, |keys|) && NoDuplicates(keys) && i < |keys| && keys[i] == key
    ensures RouteScore(key, keys, k, n) == if i < n then 1.0 / (k + i + 1) as real else 0.0
  {
    if n > 0 { RouteScoreAt(key, keys, k, n - 1, i); }
  }

  lemma {:induction false} RouteScoreNowhere(key: string, keys: seq<string>, k: int, n: nat)
    requires n <= |keys| && Divides(k, |keys|) && key !in keys
    ensures RouteScore(key, keys, k, n) == 0.0
  {
    if n > 0 { RouteScoreNowhere(key, keys, k, n - 1); }
  }

  /** In duplicate-free lists a document at rank i of one route and rank j of the other scores 1/(k+i+1) + 1/(k+j+1). */
  lemma FusedScoreIs(key: string, dk: seq<string>, sk: seq<string>, k: int)
    requires Divides(k, |dk|) && Divides(k, |sk|) && NoDuplicates(dk) && NoDuplicates(sk)
    ensures forall i, j :: 0 <= i < |dk| && dk[i] == key && 0 <= j < |sk| && sk[j] == key ==>
              FusedScore(key, dk, sk, k) == 1.0 / (k + i + 1) as real + 1.0 / (k + j + 1) as real
    ensures forall i :: 0 <= i < |dk| && dk[i] == key && key !in sk ==> FusedScore(key, dk, sk, k) == 1.0 / (k + i + 1) as real
    ensures forall j :: 0 <= j < |sk| && sk[j] == key && key !in dk ==> FusedScore(key, dk, sk, k) == 1.0 / (k + j + 1) as real
  {
    forall i | 0 <= i < |dk| && dk[i] == key ensures RouteScore(key, dk, k, |dk|) == 1.0 / (k + i + 1) as real {
      RouteScoreAt(key, dk, k, |dk|, i);
    }
    forall j | 0 <= j < |sk| && sk[j] == key ensures RouteScore(key, sk, k, |sk|) == 1.0 / (k + j + 1) as real {
      RouteScoreAt(key, sk, k, |sk|, j);
    }
    if key !in dk { RouteScoreNowhere(key, dk, k, |dk|); }
    if key !in sk { RouteScoreNowhere(key, sk, k, |sk|); }
  }

  /** The document shown for a key: its last dense occurrence, or else its first sparse one. */
  lemma RepresentativeIs(key: string, dense: seq<Doc>, sparse: seq<Doc>, d: Doc)
    requires Representative(key, dense, sparse) == Some(d)
    ensures DocKey(d) == key
    ensures if key in Keys(dense)
            then exists i :: 0 <= i < |dense| && dense[i] == d && forall j :: i < j < |dense| ==> DocKey(dense[j]) != key
            else exists i :: 0 <= i < |sparse| && sparse[i] == d && forall j :: 0 <= j < i ==> DocKey(sparse[j]) != key
  {
    LastRankIsLast(key, Keys(dense), |dense|);
    FirstRankIsFirst(key, Keys(sparse), |sparse|);
    ChoiceExists(key, Keys(dense));
    ChoiceExists(key, Keys(sparse));
  }

  /** `xs[:k]`: the first k, or with a negative k all but the last -k. */
  lemma TakeIs<T>(xs: seq<T>, k: int)
    ensures Take(xs, k) == xs[..if k >= 0 then Min(k, |xs|) else Max(0, |xs| + k)]
  {}

  // ---------------------------------------------------------------- the pipeline

  /** One route: not configured, raising, or answering. */
  datatype Route = Absent | Raises(error: string) | Answers(docs: seq<Doc>)

  datatype RerankerKind = NoReranker | Bundled | RerankerRaises

  /** A lone route's exception escapes; with both configured, a failed route counts as empty. */
  function Escapes(dense: Route, sparse: Route): Option<string> {
    if dense.Raises? && sparse.Absent? then Some(dense.error)
    else if dense.Absent? && sparse.Raises? then Some(sparse.error)
    else None
  }

  function DocsOf(route: Route): seq<Doc> { if route.Answers? then route.docs else [] }

  /** The fused list of what the routes answered, filtered, cut to twenty for the reranker, and cut to topK. */
  ghost predicate IsAnswer(answer: seq<Doc>, fused: seq<Doc>, dense: Route, sparse: Route, filter: Option<Doc -> bool>,
                           reranker: RerankerKind, topK: int)
  {
    var dd, sd := if dense.Answers? then dense.docs else [], if sparse.Answers? then sparse.docs else [];
    var kept := if filter.Some? then Filter(fused, filter.value) else fused;
    IsFusion(fused, dd, sd, 60) && answer == Take(if reranker.Bundled? then Take(kept, 20) else kept, topK)
  }

  method Retrieve(dense: Route, sparse: Route, filter: Option<Doc -> bool>, reranker: RerankerKind, topK: int)
    returns (answer: Result<seq<Doc>, string>)
    ensures answer.Failure? <==> (dense.Raises? && sparse.Absent?) || (dense.Absent? && sparse.Raises?)
    ensures answer.Failure? ==> answer.error == if dense.Raises? then dense.error else sparse.error
    ensures answer.Success? ==> exists fused: seq<Doc> :: IsAnswer(answer.value, fused, dense, sparse, filter, reranker, topK)
  {
    var escaped := Escapes(dense, sparse);
    if escaped.Some? { return Failure(escaped.value); }
    var fused := RrfFusion(DocsOf(dense), DocsOf(sparse), 60);
    FusionIsRanked(fused, DocsOf(dense), DocsOf(sparse), 60);
    var kept := Kept(fused, filter);
    KeptRanked(fused, filter);
    var unique := Deduplicate(kept);
    DeduplicateDistinct(kept, |kept|);
    assert unique == kept;
    if reranker.Bundled? && |unique| > 0 {
      RerankOnlyCuts(unique, topK);
      answer := Success(Rerank(Take(unique, 20), topK));
    } else {
      answer := Success(Take(unique, topK));
    }
    assert IsAnswer(answer.value, fused, dense, sparse, filter, reranker, topK);
  }

  function Kept(fused: seq<Doc>, filter: Option<Doc -> bool>): seq<Doc> {
    if filter.Some? then Filter(fused, filter.value) else fused
  }

  lemma KeptRanked(fused: seq<Doc>, filter: Option<Doc -> bool>)
    requires Ranked(fused)
    ensures Ranked(Kept(fused, filter))
  {
    if filter.Some? { FilterRanked(fused, filter.value); }
  }
}
