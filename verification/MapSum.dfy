/** Sums over finite maps.
    The Go code adds up map entries in whatever order `range` yields them; a sum defined by
    picking any key, with `SplitAt` saying that the pick does not matter, stands for all
    those orders at once. */
module MapSum {

  ghost function Sum<K>(m: map<K, int>): int
    decreases |m|
  {
    if m == map[] then 0 else
      var k :| k in m;
      m[k] + Sum(m - {k})
  }

  /** Any key may be taken out first. */
  lemma {:induction false} SplitAt<K>(m: map<K, int>, k: K)
    requires k in m
    ensures Sum(m) == m[k] + Sum(m - {k})
    decreases |m|
  {
    var first :| first in m && Sum(m) == m[first] + Sum(m - {first});
    if first != k {
      SplitAt(m - {first}, k);
      SplitAt(m - {k}, first);
      assert (m - {first}) - {k} == (m - {k}) - {first};
    }
  }

  lemma {:induction false} AddKey<K>(m: map<K, int>, k: K, v: int)
    requires k !in m
    ensures Sum(m[k := v]) == Sum(m) + v
  {
    SplitAt(m[k := v], k);
    assert m[k := v] - {k} == m;
  }

  /** Two maps over disjoint keys. */
  lemma {:induction false} Join<K>(a: map<K, int>, b: map<K, int>)
    requires a.Keys !! b.Keys
    ensures Sum(a + b) == Sum(a) + Sum(b)
    decreases |b|
  {
    if b == map[] {
      assert a + b == a;
    } else {
      var k :| k in b;
      var v, rest := b[k], b - {k};
      Join(a, rest);
      PutLast(a, b, k);
      AddKey(a + rest, k, v);
      SplitAt(b, k);
    }
  }

  lemma PutLast<K>(a: map<K, int>, b: map<K, int>, k: K)
    requires k in b && k !in a
    ensures a + b == (a + (b - {k}))[k := b[k]]
  {
    var l, r := a + b, (a + (b - {k}))[k := b[k]];
    assert l.Keys == r.Keys;
    assert forall x :: x in l ==> l[x] == r[x];
  }

  /** Pointwise sums add up: c = a + b at every key. */
  lemma {:induction false} Pointwise<K>(a: map<K, int>, b: map<K, int>, c: map<K, int>)
    requires a.Keys == b.Keys == c.Keys
    requires forall k :: k in c ==> c[k] == a[k] + b[k]
    ensures Sum(c) == Sum(a) + Sum(b)
    decreases |c|
  {
    if c != map[] {
      var k :| k in c;
      SplitAt(a, k);
      SplitAt(b, k);
      SplitAt(c, k);
      Pointwise(a - {k}, b - {k}, c - {k});
    } else {
      assert a == map[] && b == map[];
    }
  }

  /** A constant map. */
  lemma {:induction false} Constant<K>(m: map<K, int>, v: int)
    requires forall k :: k in m ==> m[k] == v
    ensures Sum(m) == |m| * v
    decreases |m|
  {
    if m != map[] {
      var k :| k in m;
      SplitAt(m, k);
      Constant(m - {k}, v);
      assert |m - {k}| == |m| - 1;
      assert |m| * v == (|m| - 1) * v + v;
    }
  }

  lemma {:induction false} NonNegative<K>(m: map<K, int>)
    requires forall k :: k in m ==> m[k] >= 0
    ensures Sum(m) >= 0
    decreases |m|
  {
    if m != map[] {
      var k :| k in m;
      SplitAt(m, k);
      NonNegative(m - {k});
    }
  }
}
