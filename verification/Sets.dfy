/** Facts about the size of finite sets that several models share. */
module Sets {

  lemma {:induction false} SubsetSize<T>(a: set<T>, b: set<T>)
    requires a <= b
    ensures |a| <= |b|
  {
    assert b == a + (b - a);
    assert a !! (b - a);
  }

  /** The union of three sets is no larger than their sizes added up. */
  lemma {:induction false} CoverSize<T>(s: set<T>, a: set<T>, b: set<T>, c: set<T>)
    requires s <= a + b + c
    ensures |s| <= |a| + |b| + |c|
  {
    SubsetSize(s, a + b + c);
    assert |a + b| <= |a| + |b| by { assert a + b == a + (b - a); SubsetSize(b - a, b); }
    assert |a + b + c| <= |a + b| + |c| by {
      assert (a + b) + c == (a + b) + (c - (a + b));
      SubsetSize(c - (a + b), c);
    }
  }

  /** A map that sends distinct keys of `keys` to distinct members of `image`. */
  lemma {:induction false} InjectionSize<K, V>(keys: set<K>, image: set<V>, f: map<K, V>)
    requires keys <= f.Keys
    requires forall k :: k in keys ==> f[k] in image
    requires forall k1, k2 :: k1 in keys && k2 in keys && k1 != k2 ==> f[k1] != f[k2]
    ensures |keys| <= |image|
    decreases |keys|
  {
    if keys != {} {
      var k :| k in keys;
      InjectionSize(keys - {k}, image - {f[k]}, f);
    }
  }
}
