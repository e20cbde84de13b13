module Wrappers {
  datatype Option<+T> = None | Some(value: T)

  lemma SubsetSize<T>(a: set<T>, b: set<T>)
    requires a <= b
    ensures |a| <= |b|
    ensures |a| == |b| ==> a == b
  {
    assert b == a + (b - a);
  }

  ghost function Image<A, B>(s: set<A>, f: A -> B): set<B> {
    set x | x in s :: f(x)
  }

  /** An image is no larger than the set itself, and as large only when nothing collides. */
  lemma {:induction false} ImageSize<A, B>(s: set<A>, f: A -> B)
    ensures |Image(s, f)| <= |s|
    ensures |Image(s, f)| == |s| <==> forall x, y :: x in s && y in s && f(x) == f(y) ==> x == y
  {
    if s != {} {
      var x :| x in s;
      var rest := s - {x};
      ImageSize(rest, f);
      assert Image(s, f) == Image(rest, f) + {f(x)};
      if f(x) in Image(rest, f) {
        assert Image(s, f) == Image(rest, f);
      }
    }
  }

  lemma Regroup<T>(a: seq<T>, b: seq<T>, c: seq<T>)
    ensures a + b + c == a + (b + c)
  {
  }

  /** The value last paired with a key. */
  function LastPaired<K(==), V>(keys: seq<K>, values: seq<V>, key: K): Option<V>
    requires |keys| == |values|
  {
    if keys == [] then None
    else if keys[|keys| - 1] == key then Some(values[|keys| - 1])
    else LastPaired(keys[..|keys| - 1], values[..|keys| - 1], key)
  }

  /** Of several pairs with the same key the last one counts. */
  lemma {:induction false} LastPairCounts<K, V>(keys: seq<K>, values: seq<V>, k: nat)
    requires k < |keys| == |values| && forall j :: k < j < |keys| ==> keys[j] != keys[k]
    ensures LastPaired(keys, values, keys[k]) == Some(values[k])
  {
    var last := |keys| - 1;
    if k < last {
      LastPairCounts(keys[..last], values[..last], k);
    }
  }

  lemma {:induction false} UnpairedKey<K, V>(keys: seq<K>, values: seq<V>, key: K)
    requires |keys| == |values| && key !in keys
    ensures LastPaired(keys, values, key) == None
  {
    if keys != [] {
      UnpairedKey(keys[..|keys| - 1], values[..|keys| - 1], key);
    }
  }

  lemma PairedOnce<K, V>(keys: seq<K>, values: seq<V>, k: nat)
    requires |keys| == |values| && k < |keys|
    requires forall i, j :: 0 <= i < j < |keys| ==> keys[i] != keys[j]
    ensures LastPaired(keys, values, keys[k]) == Some(values[k])
  {
    LastPairCounts(keys, values, k);
  }
}
