/** Sums over the columns of a table, independent of the order in which rows are visited. */
module Sums {
  import opened Prelude

  ghost function MapSum(m: map<Id, int>): int
    decreases |m|
  {
    if m == map[] then 0 else
      var k :| k in m;
      m[k] + MapSum(m - {k})
  }

  /** Any key can be summed first. */
  lemma {:induction false} SumSplit(m: map<Id, int>, k: Id)
    requires k in m
    ensures MapSum(m) == m[k] + MapSum(m - {k})
    decreases |m|
  {
    var j :| j in m && MapSum(m) == m[j] + MapSum(m - {j});
    if j != k {
      SumSplit(m - {j}, k);
      SumSplit(m - {k}, j);
      assert m - {j} - {k} == m - {k} - {j};
    }
  }

  /** Writing one cell moves the sum by the difference. */
  lemma SumWrite(m: map<Id, int>, k: Id, v: int)
    ensures MapSum(m[k := v]) == MapSum(m) - (if k in m then m[k] else 0) + v
  {
    SumSplit(m[k := v], k);
    assert m[k := v] - {k} == m - {k};
    if k in m {
      SumSplit(m, k);
    } else {
      assert m - {k} == m;
    }
  }

  /** One cell grew by d, or was added holding d. */
  lemma SumGrows(before: map<Id, int>, after: map<Id, int>, k: Id, d: int)
    requires after.Keys == before.Keys + {k}
    requires forall j :: j in before && j != k ==> after[j] == before[j]
    requires after[k] == d + if k in before then before[k] else 0
    ensures MapSum(after) == MapSum(before) + d
  {
    SumWrite(before, k, after[k]);
    assert after == before[k := after[k]];
  }

  lemma {:induction false} SumNonNegative(m: map<Id, int>)
    requires forall k :: k in m ==> m[k] >= 0
    ensures MapSum(m) >= 0
    decreases |m|
  {
    if m != map[] {
      var k :| k in m;
      SumSplit(m, k);
      SumNonNegative(m - {k});
    }
  }

  /** Dropping rows that hold zero leaves the sum alone. */
  lemma {:induction false} SumIgnoresZeros(m: map<Id, int>, n: map<Id, int>)
    requires n.Keys <= m.Keys
    requires forall k :: k in m ==> m[k] == if k in n then n[k] else 0
    ensures MapSum(m) == MapSum(n)
    decreases |m|
  {
    if m == map[] {
      assert n == map[];
    } else {
      var k :| k in m;
      SumSplit(m, k);
      if k in n {
        SumSplit(n, k);
      } else {
        assert n - {k} == n;
      }
      SumIgnoresZeros(m - {k}, n - {k});
    }
  }

  lemma DropPart(a: map<Id, int>, b: map<Id, int>, k: Id)
    requires k in a && k !in b
    ensures (a + b) - {k} == (a - {k}) + b && (a + b)[k] == a[k]
  {
    forall j ensures j in (a + b) - {k} <==> j in (a - {k}) + b {}
  }

  /** Two parts of a table add up to the whole. */
  lemma {:induction false} SumParts(a: map<Id, int>, b: map<Id, int>)
    requires forall k :: k in a ==> k !in b
    ensures MapSum(a + b) == MapSum(a) + MapSum(b)
    decreases |a|
  {
    if k :| k in a {
      SumSplit(a + b, k);
      SumSplit(a, k);
      DropPart(a, b, k);
      SumParts(a - {k}, b);
    } else {
      assert a == map[];
      assert a + b == b;
    }
  }

  /** Columns without negative cells sum to zero exactly if every cell is zero. */
  lemma SumZero(m: map<Id, int>)
    requires forall k :: k in m ==> m[k] >= 0
    ensures MapSum(m) == 0 <==> forall k :: k in m ==> m[k] == 0
  {
    if k :| k in m && m[k] != 0 {
      SumSplit(m, k);
      SumNonNegative(m - {k});
    } else {
      SumIgnoresZeros(m, map[]);
    }
  }

  /** The database's `_sum` aggregate, computed row by row. */
  method SumColumn(m: map<Id, int>) returns (total: int)
    ensures total == MapSum(m)
  {
    total := 0;
    var rest := m;
    while rest != map[]
      invariant total + MapSum(rest) == MapSum(m)
      decreases |rest|
    {
      var k :| k in rest;
      SumSplit(rest, k);
      total := total + rest[k];
      rest := rest - {k};
    }
  }
}
