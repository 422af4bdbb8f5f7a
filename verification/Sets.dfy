/** Sizes of finite sets and maps. */
module Sets {

  /** A map that never repeats a value has as many keys as values. */
  lemma {:induction false} InjectiveMapSize<A, B>(m: map<A, B>)
    requires forall x, y :: x in m && y in m && m[x] == m[y] ==> x == y
    ensures |m.Keys| == |m.Values|
    decreases |m|
  {
    if m.Keys != {} {
      var x :| x in m.Keys;
      var rest := m - {x};
      InjectiveMapSize(rest);
      assert m.Keys == rest.Keys + {x};
      assert m.Values == rest.Values + {m[x]};
    }
  }

  lemma SubsetSize<A>(a: set<A>, b: set<A>)
    requires a <= b
    ensures |a| <= |b|
  {
    assert b == a + (b - a);
  }
}
