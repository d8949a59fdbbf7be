/** Options, and sums over the values of a finite map: what SQL's SUM computes. */
module Sums {
  datatype Option<+T> = None | Some(value: T)

  ghost function Sum<K(!new)>(m: map<K, real>): real
    decreases |m|
  {
    if m == map[] then 0.0 else
      var k :| k in m;
      m[k] + Sum(m - {k})
  }

  /** The order in which a sum visits its keys does not matter. */
  lemma {:induction false} SumRemove<K(!new)>(m: map<K, real>, k: K)
    requires k in m
    ensures Sum(m) == m[k] + Sum(m - {k})
    decreases |m|
  {
    var c :| c in m && Sum(m) == m[c] + Sum(m - {c});
    if c != k {
      SumRemove(m - {c}, k);
      SumRemove(m - {k}, c);
      assert m - {c} - {k} == m - {k} - {c};
    }
  }

  lemma SumInsert<K(!new)>(m: map<K, real>, k: K, v: real)
    requires k !in m
    ensures Sum(m[k := v]) == Sum(m) + v
  {
    SumRemove(m[k := v], k);
    assert m[k := v] - {k} == m;
  }

  /** Raising entries and adding non-negative ones cannot lower a sum. */
  lemma {:induction false} SumMonotone<K(!new)>(m: map<K, real>, n: map<K, real>)
    requires forall k | k in m :: k in n && m[k] <= n[k]
    requires forall k | k in n && k !in m :: 0.0 <= n[k]
    ensures Sum(m) <= Sum(n)
    decreases |n|
  {
    if n != map[] {
      var k :| k in n;
      SumRemove(n, k);
      if k in m {
        SumRemove(m, k);
        SumMonotone(m - {k}, n - {k});
      } else {
        SumMonotone(m, n - {k});
      }
    } else {
      assert m == map[];
    }
  }

  /** SELECT COALESCE(SUM(..), 0): visits the rows in whatever order they come. */
  method SelectSum<K(==, !new)>(m: map<K, real>) returns (total: real)
    ensures total == Sum(m)
  {
    total := 0.0;
    var rest := m.Keys;
    assert m == map k | k in rest :: m[k];
    while rest != {}
      invariant rest <= m.Keys
      invariant total + Sum(map k | k in rest :: m[k]) == Sum(m)
      decreases |rest|
    {
      var k :| k in rest;
      ghost var pending := map j | j in rest :: m[j];
      SumRemove(pending, k);
      assert pending - {k} == map j | j in rest - {k} :: m[j];
      total := total + m[k];
      rest := rest - {k};
    }
  }

  /** The rows of a result set, in some order. */
  method Rows<T(==)>(selected: set<T>) returns (rows: seq<T>)
    ensures forall i, j | 0 <= i < j < |rows| :: rows[i] != rows[j]
    ensures forall x :: x in rows <==> x in selected
    ensures |rows| == |selected|
  {
    rows := [];
    var rest := selected;
    while rest != {}
      invariant rest <= selected && |rows| + |rest| == |selected|
      invariant forall x :: x in rows <==> x in selected && x !in rest
      invariant forall i, j | 0 <= i < j < |rows| :: rows[i] != rows[j]
      decreases |rest|
    {
      var x :| x in rest;
      rest := rest - {x};
      rows := rows + [x];
    }
  }

  lemma Member<T>(s: set<T>) returns (x: T)
    requires s != {}
    ensures x in s
  {
    x :| x in s;
  }

  predicate AboveAll(taken: set<int>, id: int) {
    forall t | t in taken :: t < id
  }

  lemma {:induction false} Fresh(taken: set<int>) returns (id: int)
    ensures AboveAll(taken, id) && id !in taken
    decreases |taken|
  {
    id := 0;
    if taken != {} {
      var t := Member(taken);
      id := Fresh(taken - {t});
      assert forall u | u in taken :: u == t || u in taken - {t};
      if id <= t { id := t + 1; }
    }
  }

  /** A primary key that is not taken, standing for ids.New. */
  method NewId(taken: set<int>) returns (id: int)
    ensures id !in taken
  {
    var rows := Rows(taken);
    id := 0;
    for i := 0 to |rows|
      invariant forall j | 0 <= j < i :: rows[j] < id
    {
      if id <= rows[i] { id := rows[i] + 1; }
    }
  }
}
