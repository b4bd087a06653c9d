/**
 * Money totals over tables.
 *
 * A `map<K, int>` plays the part of a `defaultdict(int)`: a key that is absent
 * reads as zero.  `Sum` adds up every value; since the order in which a set of
 * keys is visited is arbitrary, `SumAt` shows that the order does not matter.
 */
module Sums {

  function At<K>(m: map<K, int>, k: K): int {
    if k in m then m[k] else 0
  }

  /** `m[k] += amount` on a defaultdict. */
  function Plus<K>(m: map<K, int>, k: K, amount: int): map<K, int> {
    m[k := At(m, k) + amount]
  }

  ghost function Sum<K>(m: map<K, int>): int
    decreases m.Keys
  {
    if m == map[] then 0 else
      var k :| k in m;
      m[k] + Sum(m - {k})
  }

  lemma {:induction false} SumAt<K>(m: map<K, int>, k: K)
    requires k in m
    ensures Sum(m) == m[k] + Sum(m - {k})
    decreases m.Keys
  {
    var j :| j in m && Sum(m) == m[j] + Sum(m - {j});
    if j != k {
      SumAt(m - {j}, k);
      SumAt(m - {k}, j);
      assert m - {j} - {k} == m - {k} - {j};
    }
  }

  lemma SumPut<K>(m: map<K, int>, k: K, v: int)
    ensures Sum(m[k := v]) == Sum(m) - At(m, k) + v
  {
    SumAt(m[k := v], k);
    assert m[k := v] - {k} == m - {k};
    if k in m {
      SumAt(m, k);
    } else {
      assert m - {k} == m;
    }
  }

  lemma SumPlus<K>(m: map<K, int>, k: K, amount: int)
    ensures Sum(Plus(m, k, amount)) == Sum(m) + amount
  {
    SumPut(m, k, At(m, k) + amount);
  }

  lemma {:induction false} SumNonNegative<K>(m: map<K, int>)
    requires forall k | k in m :: m[k] >= 0
    ensures Sum(m) >= 0
    ensures Sum(m) == 0 ==> forall k | k in m :: m[k] == 0
    decreases m.Keys
  {
    if m != map[] {
      var j :| j in m;
      SumAt(m, j);
      SumNonNegative(m - {j});
      assert Sum(m) == 0 ==> forall k | k in m :: k == j || m[k] == (m - {j})[k];
    }
  }

  /** Adding two tables row by row adds their totals. */
  lemma {:induction false} SumOfSums<K>(a: map<K, int>, b: map<K, int>, c: map<K, int>)
    requires a.Keys == b.Keys == c.Keys
    requires forall k | k in c :: c[k] == a[k] + b[k]
    ensures Sum(c) == Sum(a) + Sum(b)
    decreases c.Keys
  {
    if c != map[] {
      var k :| k in c;
      SumAt(a, k); SumAt(b, k); SumAt(c, k);
      SumOfSums(a - {k}, b - {k}, c - {k});
    } else {
      assert a == map[] && b == map[];
    }
  }

  lemma {:induction false} SumZeros<K>(m: map<K, int>)
    requires forall k | k in m :: m[k] == 0
    ensures Sum(m) == 0
    decreases m.Keys
  {
    if m != map[] {
      var k :| k in m;
      SumAt(m, k);
      SumZeros(m - {k});
    }
  }

  /** Rows that read as zero can be added or dropped without changing a total. */
  lemma {:induction false} SumSameReads<K>(a: map<K, int>, b: map<K, int>)
    requires a.Keys <= b.Keys
    requires forall k | k in b :: b[k] == At(a, k)
    ensures Sum(a) == Sum(b)
    decreases b.Keys
  {
    if a.Keys == b.Keys {
      assert a == b;
    } else {
      var k :| k in b && k !in a;
      SumAt(b, k);
      SumSameReads(a, b - {k});
    }
  }

  /** Adds up a table the way `sum(table.values())` does. */
  method Total<K(==)>(m: map<K, int>) returns (total: int)
    ensures total == Sum(m)
  {
    total := 0;
    var rest := m;
    while rest != map[]
      invariant total + Sum(rest) == Sum(m)
      decreases rest.Keys
    {
      var k :| k in rest;
      SumAt(rest, k);
      total := total + rest[k];
      rest := rest - {k};
    }
  }

  // ---------- grouping rows ----------

  /** The total of a list of keyed amounts. */
  ghost function Amounts<K>(rows: seq<(K, int)>): int {
    if rows == [] then 0 else Amounts(rows[..|rows| - 1]) + rows[|rows| - 1].1
  }

  /** `for key, amount in rows: table[key] += amount`. */
  ghost function Tally<K>(start: map<K, int>, rows: seq<(K, int)>): map<K, int> {
    if rows == [] then start else
      var last := rows[|rows| - 1];
      Plus(Tally(start, rows[..|rows| - 1]), last.0, last.1)
  }

  /** The amounts that belong to one key. */
  ghost function AmountsOf<K>(rows: seq<(K, int)>, k: K): int {
    if rows == [] then 0 else
      var last := rows[|rows| - 1];
      AmountsOf(rows[..|rows| - 1], k) + if last.0 == k then last.1 else 0
  }

  lemma {:induction false} TallyTotal<K>(start: map<K, int>, rows: seq<(K, int)>)
    ensures Sum(Tally(start, rows)) == Sum(start) + Amounts(rows)
  {
    if rows != [] {
      var last := rows[|rows| - 1];
      TallyTotal(start, rows[..|rows| - 1]);
      SumPlus(Tally(start, rows[..|rows| - 1]), last.0, last.1);
    }
  }

  lemma {:induction false} TallyReads<K>(start: map<K, int>, rows: seq<(K, int)>, k: K)
    ensures At(Tally(start, rows), k) == At(start, k) + AmountsOf(rows, k)
    ensures k in Tally(start, rows) <==> k in start || exists i :: 0 <= i < |rows| && rows[i].0 == k
  {
    if rows != [] {
      var rest, last := rows[..|rows| - 1], rows[|rows| - 1];
      TallyReads(start, rest, k);
      if i :| 0 <= i < |rows| && rows[i].0 == k && i < |rows| - 1 {
        assert rest[i].0 == k;
      }
      if i :| 0 <= i < |rest| && rest[i].0 == k {
        assert rows[i].0 == k;
      }
    }
  }

  lemma {:induction false} AmountsAppend<K>(a: seq<(K, int)>, b: seq<(K, int)>)
    ensures Amounts(a + b) == Amounts(a) + Amounts(b)
  {
    if b == [] {
      assert a + b == a;
    } else {
      assert (a + b)[..|a + b| - 1] == a + b[..|b| - 1];
      AmountsAppend(a, b[..|b| - 1]);
    }
  }

  lemma {:induction false} TallyAppend<K>(start: map<K, int>, a: seq<(K, int)>, b: seq<(K, int)>)
    ensures Tally(start, a + b) == Tally(Tally(start, a), b)
  {
    if b == [] {
      assert a + b == a;
    } else {
      assert (a + b)[..|a + b| - 1] == a + b[..|b| - 1];
      TallyAppend(start, a, b[..|b| - 1]);
    }
  }
}
