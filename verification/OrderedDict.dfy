/** Python's `dict`: a map that remembers the order in which its keys were first inserted. */
module OrderedDict {
  import opened Basics

  datatype Dict<K, V> = Dict(keys: seq<K>, data: map<K, V>)

  ghost predicate Valid<K(!new), V>(d: Dict<K, V>) {
    NoDuplicates(d.keys) && forall k :: k in d.keys <==> k in d.data
  }

  function Empty<K, V>(): Dict<K, V> { Dict([], map[]) }

  function Get<K(==), V>(d: Dict<K, V>, k: K, default: V): V {
    if k in d.data then d.data[k] else default
  }

  /** `d[k] = v`: an existing key keeps its place. */
  function Set<K(==), V>(d: Dict<K, V>, k: K, v: V): Dict<K, V> {
    Dict(if k in d.data then d.keys else d.keys + [k], d.data[k := v])
  }

  function Without<K(==)>(keys: seq<K>, k: K): seq<K> {
    if keys == [] then [] else (if keys[0] == k then [] else [keys[0]]) + Without(keys[1..], k)
  }

  /** `del d[k]` */
  function Delete<K(==), V>(d: Dict<K, V>, k: K): Dict<K, V> {
    Dict(Without(d.keys, k), d.data - {k})
  }

  lemma SetValid<K(!new), V>(d: Dict<K, V>, k: K, v: V)
    requires Valid(d)
    ensures Valid(Set(d, k, v))
    ensures |Set(d, k, v).keys| == |d.keys| + if k in d.data then 0 else 1
  {}

  lemma {:induction false} WithoutElements<K(!new)>(keys: seq<K>, k: K)
    requires NoDuplicates(keys)
    ensures NoDuplicates(Without(keys, k))
    ensures forall x :: x in Without(keys, k) <==> x in keys && x != k
    ensures |Without(keys, k)| == |keys| - if k in keys then 1 else 0
  {
    if keys != [] {
      WithoutElements(keys[1..], k);
      assert keys == [keys[0]] + keys[1..];
      assert forall x :: x in keys <==> x == keys[0] || x in keys[1..];
      assert keys[0] !in keys[1..];
      if keys[0] != k { PrependNoDuplicates(keys[0], Without(keys[1..], k)); }
    }
  }

  /** Deleting a key keeps the order of the others. */
  lemma {:induction false} WithoutKeepsOrder<K>(a: seq<K>, k: K, b: seq<K>)
    requires k !in a && k !in b
    ensures Without(a + [k] + b, k) == a + b
  {
    if a == [] {
      assert [] + [k] + b == [k] + b && ([k] + b)[1..] == b;
      WithoutOther(b, k);
    } else {
      assert a + [k] + b == [a[0]] + (a[1..] + [k] + b);
      assert a[0] in a && forall x :: x in a[1..] ==> x in a;
      WithoutKeepsOrder(a[1..], k, b);
      assert [a[0]] + (a[1..] + b) == a + b;
    }
  }

  lemma {:induction false} WithoutOther<K>(keys: seq<K>, k: K)
    requires k !in keys
    ensures Without(keys, k) == keys
  {
    if keys != [] {
      assert keys[0] in keys && forall x :: x in keys[1..] ==> x in keys;
      WithoutOther(keys[1..], k);
    }
  }

  lemma PrependNoDuplicates<K(!new)>(x: K, xs: seq<K>)
    requires NoDuplicates(xs) && x !in xs
    ensures NoDuplicates([x] + xs)
  {}

  lemma DeleteValid<K(!new), V>(d: Dict<K, V>, k: K)
    requires Valid(d)
    ensures Valid(Delete(d, k))
    ensures |Delete(d, k).keys| == |d.keys| - if k in d.data then 1 else 0
  {
    WithoutElements(d.keys, k);
  }
}
