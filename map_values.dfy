/** Python's `dict.values()` seen as a bag: the stored values with their
    multiplicities, without the dictionary's iteration order. */
module MapValues {

  /** The multiset of values of `m`, one occurrence per key. */
  ghost function Values<K, V>(m: map<K, V>): (r: multiset<V>)
    ensures |r| == |m|
    ensures forall v :: v in r ==> exists k :: k in m && m[k] == v
    decreases |m|
  {
    if m == map[] then multiset{}
    else
      var k :| k in m;
      Values(m - {k}) + multiset{m[k]}
  }

  /** Taking out any one key takes out exactly one occurrence of its value,
      whichever key `Values` happened to pick first. */
  lemma {:induction false} ValuesRemove<K, V>(m: map<K, V>, k: K)
    requires k in m
    ensures Values(m) == Values(m - {k}) + multiset{m[k]}
    decreases |m|
  {
    var j :| j in m && Values(m) == Values(m - {j}) + multiset{m[j]};
    if j != k {
      var m' := m - {j};
      assert k in m' && m' - {k} == (m - {k}) - {j};
      ValuesRemove(m', k);
      ValuesRemove(m - {k}, j);
    }
  }

  /** A value occurs exactly when some key maps to it. */
  lemma {:induction false} ValuesMember<K, V>(m: map<K, V>, v: V)
    ensures v in Values(m) <==> exists k :: k in m && m[k] == v
    decreases |m|
  {
    if m != map[] {
      var k :| k in m;
      ValuesRemove(m, k);
      ValuesMember(m - {k}, v);
      if v in Values(m - {k}) {
        var j :| j in m - {k} && (m - {k})[j] == v;
        assert j in m && m[j] == v;
      }
      if exists j :: j in m && m[j] == v {
        var j :| j in m && m[j] == v;
        if j != k {
          assert j in m - {k} && (m - {k})[j] == v;
        }
      }
    }
  }

  /** Storing `v` under `k` replaces the occurrence of the old value, if any,
      by one occurrence of `v`. */
  lemma ValuesStore<K, V>(m: map<K, V>, k: K, v: V)
    ensures Values(m[k := v]) == Values(m - {k}) + multiset{v}
  {
    var m' := m[k := v];
    ValuesRemove(m', k);
    assert m' - {k} == m - {k};
  }
}
