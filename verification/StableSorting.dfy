/**
 Python's `sorted`: a stable sort by a total preorder. `sorted(xs, reverse=True)` is
 the same sort by the reversed preorder, because Python keeps ties in input order there too.
 */
module StableSorting {
  import opened Basics

  ghost predicate TotalPreorder<T(!new)>(leq: (T, T) -> bool) {
    && (forall x, y :: leq(x, y) || leq(y, x))
    && (forall x, y, z :: leq(x, y) && leq(y, z) ==> leq(x, z))
  }

  ghost predicate Sorted<T>(xs: seq<T>, leq: (T, T) -> bool) {
    forall i, j :: 0 <= i < j < |xs| ==> leq(xs[i], xs[j])
  }

  /** Some occurrence of a comes before some occurrence of b. */
  ghost predicate Before<T(!new)>(xs: seq<T>, a: T, b: T) {
    exists i, j :: 0 <= i < j < |xs| && xs[i] == a && xs[j] == b
  }

  function Insert<T>(x: T, xs: seq<T>, leq: (T, T) -> bool): seq<T> {
    if xs == [] || leq(x, xs[0]) then [x] + xs
    else [xs[0]] + Insert(x, xs[1..], leq)
  }

  function StableSort<T>(xs: seq<T>, leq: (T, T) -> bool): seq<T> {
    if xs == [] then [] else Insert(xs[0], StableSort(xs[1..], leq), leq)
  }

  lemma {:induction false} InsertMultiset<T>(x: T, xs: seq<T>, leq: (T, T) -> bool)
    ensures multiset(Insert(x, xs, leq)) == multiset{x} + multiset(xs)
    ensures |Insert(x, xs, leq)| == |xs| + 1
  {
    if xs == [] || leq(x, xs[0]) {
    } else {
      InsertMultiset(x, xs[1..], leq);
      assert xs == [xs[0]] + xs[1..];
    }
  }

  lemma {:induction false} InsertSorted<T(!new)>(x: T, xs: seq<T>, leq: (T, T) -> bool)
    requires TotalPreorder(leq) && Sorted(xs, leq)
    ensures Sorted(Insert(x, xs, leq), leq)
  {
    if xs == [] || leq(x, xs[0]) {
      forall j | 0 <= j < |xs| ensures leq(x, xs[j]) {
        assert leq(xs[0], xs[j]);
      }
    } else {
      InsertSorted(x, xs[1..], leq);
      InsertMultiset(x, xs[1..], leq);
      var rest := Insert(x, xs[1..], leq);
      forall j | 0 <= j < |rest| ensures leq(xs[0], rest[j]) {
        assert rest[j] in multiset(rest);
        assert rest[j] == x || rest[j] in multiset(xs[1..]);
      }
    }
  }

  /** Sorting rearranges: nothing is lost, added or duplicated. */
  lemma {:induction false} SortMultiset<T>(xs: seq<T>, leq: (T, T) -> bool)
    ensures multiset(StableSort(xs, leq)) == multiset(xs)
    ensures |StableSort(xs, leq)| == |xs|
  {
    if xs != [] {
      SortMultiset(xs[1..], leq);
      InsertMultiset(xs[0], StableSort(xs[1..], leq), leq);
      assert xs == [xs[0]] + xs[1..];
    }
  }

  lemma {:induction false} SortSorted<T(!new)>(xs: seq<T>, leq: (T, T) -> bool)
    requires TotalPreorder(leq)
    ensures Sorted(StableSort(xs, leq), leq)
  {
    if xs != [] {
      SortSorted(xs[1..], leq);
      InsertSorted(xs[0], StableSort(xs[1..], leq), leq);
    }
  }

  lemma {:induction false} InsertKeepsBefore<T(!new)>(x: T, xs: seq<T>, leq: (T, T) -> bool, a: T, b: T)
    requires Before(xs, a, b)
    ensures Before(Insert(x, xs, leq), a, b)
  {
    var i, j :| 0 <= i < j < |xs| && xs[i] == a && xs[j] == b;
    var s := Insert(x, xs, leq);
    if xs == [] || leq(x, xs[0]) {
      assert s[i + 1] == a && s[j + 1] == b;
    } else if i == 0 {
      InsertMultiset(x, xs[1..], leq);
      assert b in multiset(xs[1..]) by { assert xs[1..][j - 1] == b; }
      assert b in multiset(s[1..]) by { assert s[1..] == Insert(x, xs[1..], leq); }
      var k :| 0 <= k < |s[1..]| && s[1..][k] == b;
      assert s[0] == a && s[k + 1] == b;
    } else {
      assert xs[1..][i - 1] == a && xs[1..][j - 1] == b;
      InsertKeepsBefore(x, xs[1..], leq, a, b);
      var p, q :| 0 <= p < q < |s[1..]| && s[1..][p] == a && s[1..][q] == b by {
        assert s[1..] == Insert(x, xs[1..], leq);
      }
      assert s[p + 1] == a && s[q + 1] == b;
    }
  }

  lemma {:induction false} InsertBeforePeers<T(!new)>(x: T, xs: seq<T>, leq: (T, T) -> bool, b: T)
    requires TotalPreorder(leq) && Sorted(xs, leq)
    requires b in xs && leq(x, b)
    ensures Before(Insert(x, xs, leq), x, b)
  {
    var s := Insert(x, xs, leq);
    if leq(x, xs[0]) {
      var j :| 0 <= j < |xs| && xs[j] == b;
      assert s[0] == x && s[j + 1] == b;
    } else {
      assert b in xs[1..] by {
        var j :| 0 <= j < |xs| && xs[j] == b;
        assert j > 0 && xs[1..][j - 1] == b;
      }
      InsertBeforePeers(x, xs[1..], leq, b);
      var p, q :| 0 <= p < q < |s[1..]| && s[1..][p] == x && s[1..][q] == b by {
        assert s[1..] == Insert(x, xs[1..], leq);
      }
      assert s[p + 1] == x && s[q + 1] == b;
    }
  }

  /** Stability: a pair already in order keeps its order, so ties stay in input order. */
  lemma {:induction false} SortStable<T(!new)>(xs: seq<T>, leq: (T, T) -> bool, a: T, b: T)
    requires TotalPreorder(leq)
    requires Before(xs, a, b) && leq(a, b)
    ensures Before(StableSort(xs, leq), a, b)
  {
    var i, j :| 0 <= i < j < |xs| && xs[i] == a && xs[j] == b;
    var rest := StableSort(xs[1..], leq);
    SortMultiset(xs[1..], leq);
    SortSorted(xs[1..], leq);
    assert xs[1..][j - 1] == b;
    if i == 0 {
      assert b in multiset(xs[1..]);
      assert b in multiset(rest);
      InsertBeforePeers(a, rest, leq, b);
    } else {
      assert xs[1..][i - 1] == a;
      SortStable(xs[1..], leq, a, b);
      InsertKeepsBefore(xs[0], rest, leq, a, b);
    }
  }

  /** Sorting what is already sorted changes nothing. */
  lemma {:induction false} SortedIsFixed<T(!new)>(xs: seq<T>, leq: (T, T) -> bool)
    requires Sorted(xs, leq)
    ensures StableSort(xs, leq) == xs
  {
    if xs != [] {
      SortedIsFixed(xs[1..], leq);
      assert |xs| > 1 ==> leq(xs[0], xs[1]);
      assert xs == [xs[0]] + xs[1..];
    }
  }

  lemma {:induction false} SameElements<T>(xs: seq<T>, ys: seq<T>)
    requires multiset(xs) == multiset(ys)
    ensures forall x :: x in xs <==> x in ys
  {
    forall x ensures x in xs <==> x in ys {
      assert x in xs <==> x in multiset(xs);
      assert x in ys <==> x in multiset(ys);
    }
  }

  /** Without duplicates, a permutation has none either. */
  lemma {:induction false} PermutationNoDuplicates<T(!new)>(xs: seq<T>, ys: seq<T>)
    requires multiset(xs) == multiset(ys) && NoDuplicates(xs)
    ensures NoDuplicates(ys)
  {
    forall i, j | 0 <= i < j < |ys| ensures ys[i] != ys[j] {
      if ys[i] == ys[j] {
        var x := ys[i];
        assert ys == ys[..i] + [x] + ys[i + 1..j] + [x] + ys[j + 1..];
        assert multiset(ys)[x] >= 2;
        MultiplicityOne(xs, x);
      }
    }
  }

  lemma {:induction false} MultiplicityOne<T(!new)>(xs: seq<T>, x: T)
    requires NoDuplicates(xs)
    ensures multiset(xs)[x] <= 1
  {
    if xs != [] {
      assert xs == [xs[0]] + xs[1..];
      MultiplicityOne(xs[1..], x);
      if x in xs[1..] {
        var k :| 0 <= k < |xs[1..]| && xs[1..][k] == x;
        assert xs[0] != xs[k + 1];
      }
    }
  }

  /** Two duplicate-free lists of the same elements in the same strict order are one list. */
  lemma {:induction false} OrderDeterminesList<T(!new)>(xs: seq<T>, ys: seq<T>, lt: (T, T) -> bool)
    requires forall x, y :: lt(x, y) ==> !lt(y, x)
    requires forall i, j :: 0 <= i < j < |xs| ==> lt(xs[i], xs[j])
    requires forall i, j :: 0 <= i < j < |ys| ==> lt(ys[i], ys[j])
    requires forall x :: x in xs <==> x in ys
    ensures xs == ys
  {
    assert ys != [] ==> ys[0] in ys;
    if xs != [] {
      assert xs[0] in xs;
      var p :| 0 <= p < |ys| && ys[p] == xs[0];
      assert ys[0] in ys;
      var q :| 0 <= q < |xs| && xs[q] == ys[0];
      assert forall i :: 0 < i < |ys| ==> lt(ys[0], ys[i]);
      assert forall i :: 0 < i < |xs| ==> lt(xs[0], xs[i]);
      assert p == 0;
      forall x ensures x in xs[1..] <==> x in ys[1..] {
        TailElements(xs, lt, x);
        TailElements(ys, lt, x);
      }
      OrderDeterminesList(xs[1..], ys[1..], lt);
      assert xs == [xs[0]] + xs[1..] && ys == [ys[0]] + ys[1..];
    }
  }

  lemma {:induction false} TailElements<T(!new)>(xs: seq<T>, lt: (T, T) -> bool, x: T)
    requires xs != [] && forall x, y :: lt(x, y) ==> !lt(y, x)
    requires forall i, j :: 0 <= i < j < |xs| ==> lt(xs[i], xs[j])
    ensures x in xs[1..] <==> x in xs && x != xs[0]
  {
    if x in xs[1..] {
      var k :| 0 <= k < |xs[1..]| && xs[1..][k] == x;
      assert xs[k + 1] == x && lt(xs[0], xs[k + 1]);
    }
    if x in xs && x != xs[0] {
      var k :| 0 <= k < |xs| && xs[k] == x;
      assert xs[1..][k - 1] == x;
    }
  }
}
