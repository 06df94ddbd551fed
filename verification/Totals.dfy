/** Totals over a finite map. */
module Totals {

  ghost function Total<K>(m: map<K, real>): real
    decreases |m|
  {
    if m == map[] then 0.0 else
      var k :| k in m;
      m[k] + Total(m - {k})
  }

  lemma {:induction false} TotalRemove<K>(m: map<K, real>, k: K)
    requires k in m
    ensures Total(m) == m[k] + Total(m - {k})
    decreases |m|
  {
    var j :| j in m && Total(m) == m[j] + Total(m - {j});
    if j != k {
      var mj, mk := m - {j}, m - {k};
      assert mj.Keys == m.Keys - {j} && mk.Keys == m.Keys - {k};
      TotalRemove(mj, k);
      TotalRemove(mk, j);
      assert mj - {k} == mk - {j};
    }
  }

  function At<K>(m: map<K, real>, k: K): real { if k in m then m[k] else 0.0 }

  lemma TotalUpdate<K>(m: map<K, real>, k: K, v: real)
    ensures Total(m[k := v]) == Total(m) - At(m, k) + v
  {
    TotalRemove(m[k := v], k);
    if k in m {
      TotalRemove(m, k);
      assert m[k := v] - {k} == m - {k};
    } else {
      assert m[k := v] - {k} == m;
    }
  }

  lemma {:induction false} TotalDelete<K>(m: map<K, real>, k: K)
    ensures Total(m - {k}) == Total(m) - At(m, k)
  {
    if k in m {
      TotalRemove(m, k);
    } else {
      assert m - {k} == m;
    }
  }

  function Times(c: real, x: real): real { c * x }

  lemma TimesSum(c: real, x: real, y: real)
    ensures Times(c, x + y) == Times(c, x) + Times(c, y)
  {
  }

  lemma DivideTimes(c: real, a: real, x: real)
    requires x > 0.0
    ensures Times(c, a / x) == (a * c) / x
  {
  }

  lemma {:induction false} TotalAdd<K>(a: map<K, real>, b: map<K, real>, d: map<K, real>)
    requires a.Keys == b.Keys == d.Keys
    requires forall k :: k in a ==> a[k] == b[k] + d[k]
    ensures Total(a) == Total(b) + Total(d)
    decreases |a|
  {
    if a.Keys == {} {
      assert a == map[] && b == map[] && d == map[];
    } else {
      var k :| k in a;
      TotalRemove(a, k);
      TotalRemove(b, k);
      TotalRemove(d, k);
      TotalAdd(a - {k}, b - {k}, d - {k});
    }
  }

  lemma ScaledSum(a: real, a1: real, a2: real, w: real, w1: real, w2: real, c: real)
    requires a == a1 + a2 && w == w1 + w2 && a1 == Times(c, w1) && a2 == Times(c, w2)
    ensures a == Times(c, w)
  {
    TimesSum(c, w1, w2);
  }

  lemma {:induction false} TotalScale<K>(a: map<K, real>, w: map<K, real>, c: real)
    requires a.Keys == w.Keys
    requires forall k :: k in a ==> a[k] == Times(c, w[k])
    ensures Total(a) == Times(c, Total(w))
    decreases |a|
  {
    if a.Keys == {} {
      assert a == map[] && w == map[];
    } else {
      var k :| k in a;
      TotalRemove(a, k);
      TotalRemove(w, k);
      TotalScale(a - {k}, w - {k}, c);
      ScaledSum(Total(a), a[k], Total(a - {k}), Total(w), w[k], Total(w - {k}), c);
    }
  }

  lemma {:induction false} TotalMono<K>(a: map<K, real>, b: map<K, real>)
    requires a.Keys == b.Keys
    requires forall k :: k in a ==> a[k] <= b[k]
    ensures Total(a) <= Total(b)
    decreases |a|
  {
    if a.Keys == {} {
      assert a == map[] && b == map[];
    } else {
      var k :| k in a;
      TotalRemove(a, k);
      TotalRemove(b, k);
      TotalMono(a - {k}, b - {k});
    }
  }

  // A part never exceeds a total of non-negative values.
  lemma {:induction false} TotalCovers<K>(m: map<K, real>, k: K)
    requires k in m
    requires forall j :: j in m ==> m[j] >= 0.0
    ensures 0.0 <= m[k] <= Total(m)
  {
    TotalRemove(m, k);
    var zero := map j | j in m - {k} :: 0.0;
    TotalAdd(zero, zero, zero);
    TotalMono(zero, m - {k});
  }

  lemma {:induction false} TotalIntegral<K>(m: map<K, real>) returns (n: int)
    requires forall k :: k in m ==> m[k] == m[k].Floor as real
    ensures Total(m) == n as real
    decreases |m|
  {
    if m.Keys == {} {
      assert m == map[];
      n := 0;
    } else {
      var k :| k in m;
      TotalRemove(m, k);
      n := TotalIntegral(m - {k});
      n := n + m[k].Floor;
    }
  }
}
