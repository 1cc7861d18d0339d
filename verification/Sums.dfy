/** Finite sums over sets and over the values of maps. */
module Sums {
  lemma Element<T>(s: set<T>) returns (x: T)
    requires s != {}
    ensures x in s
  {
    x :| x in s;
  }

  ghost function Sum<K>(s: set<K>, f: K -> int): int {
    if s == {} then 0 else var k :| k in s; f(k) + Sum(s - {k}, f)
  }

  lemma {:induction false} SumRemove<K>(s: set<K>, f: K -> int, k: K)
    requires k in s
    ensures Sum(s, f) == f(k) + Sum(s - {k}, f)
    decreases s
  {
    var j :| j in s && Sum(s, f) == f(j) + Sum(s - {j}, f);
    if j != k {
      SumRemove(s - {j}, f, k);
      SumRemove(s - {k}, f, j);
      assert s - {j} - {k} == s - {k} - {j};
    }
  }

  lemma {:induction false} SumCongruent<K>(s: set<K>, f: K -> int, g: K -> int)
    requires forall k | k in s :: f(k) == g(k)
    ensures Sum(s, f) == Sum(s, g)
    decreases s
  {
    if s != {} {
      var k :| k in s;
      SumRemove(s, f, k);
      SumRemove(s, g, k);
      SumCongruent(s - {k}, f, g);
    }
  }

  lemma {:induction false} SumZero<K>(s: set<K>, f: K -> int)
    requires forall k | k in s :: f(k) == 0
    ensures Sum(s, f) == 0
    decreases s
  {
    if s != {} {
      var k :| k in s;
      SumRemove(s, f, k);
      SumZero(s - {k}, f);
    }
  }

  lemma {:induction false} SumNonNegative<K>(s: set<K>, f: K -> int)
    requires forall k | k in s :: f(k) >= 0
    ensures Sum(s, f) >= 0
    decreases s
  {
    if s != {} {
      var k :| k in s;
      SumRemove(s, f, k);
      SumNonNegative(s - {k}, f);
    }
  }

  /** Terms that are zero may be left out. */
  lemma {:induction false} SumSubset<K>(s: set<K>, t: set<K>, f: K -> int)
    requires s <= t && forall k | k in t && k !in s :: f(k) == 0
    ensures Sum(s, f) == Sum(t, f)
    decreases t
  {
    if k :| k in t && k !in s {
      SumRemove(t, f, k);
      SumSubset(s, t - {k}, f);
    } else {
      assert s == t;
    }
  }

  /** A sum is bounded by another whose terms dominate it along an injection. */
  lemma {:induction false} SumInjection<K, L>(s: set<K>, f: K -> int, t: set<L>, g: L -> int, h: K -> L)
    requires forall k | k in s :: h(k) in t && f(k) <= g(h(k))
    requires forall j, k | j in s && k in s && h(j) == h(k) :: j == k
    requires forall l | l in t :: g(l) >= 0
    ensures Sum(s, f) <= Sum(t, g)
    decreases s
  {
    if s == {} {
      SumNonNegative(t, g);
    } else {
      var k :| k in s;
      SumRemove(s, f, k);
      SumRemove(t, g, h(k));
      SumInjection(s - {k}, f, t - {h(k)}, g, h);
    }
  }

  ghost function At<K, V>(m: map<K, V>, f: V -> int): K -> int {
    k => if k in m then f(m[k]) else 0
  }

  /** The sum of f over the values of a map, one term per key. */
  ghost function MapSum<K, V>(m: map<K, V>, f: V -> int): int {
    Sum(m.Keys, At(m, f))
  }

  lemma MapSumUpdate<K, V>(m: map<K, V>, k: K, v: V, f: V -> int)
    ensures MapSum(m[k := v], f) == MapSum(m, f) + f(v) - (if k in m then f(m[k]) else 0)
  {
    var n := m[k := v];
    SumRemove(n.Keys, At(n, f), k);
    if k in m {
      SumRemove(m.Keys, At(m, f), k);
    } else {
      assert m.Keys - {k} == m.Keys;
    }
    assert n.Keys - {k} == m.Keys - {k};
    SumCongruent(m.Keys - {k}, At(n, f), At(m, f));
  }
}
