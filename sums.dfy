/**
  Order-free sums over the rows of a table.  A store table is a map from ids to
  records; an aggregate such as `_sum: { amount: true }` over a filtered table is
  `MapSum(Where(table, p), f)`.
 */
module Sums {
  import opened Listing

  /** Some key of a non-empty map: the row a sum takes out first. */
  ghost function Pick<K, V>(m: map<K, V>): (k: K)
    requires |m| != 0
    ensures k in m
  {
    var k :| k in m; k
  }

  /** The sum of `f` over the values of `m`. */
  ghost function MapSum<K, V>(m: map<K, V>, f: V -> int): int
    decreases |m|
  {
    if |m| == 0 then 0
    else
      var k := Pick(m);
      f(m[k]) + MapSum(m - {k}, f)
  }

  /** The rows of `m` whose value satisfies `p`. */
  function Where<K, V>(m: map<K, V>, p: V -> bool): (r: map<K, V>)
    ensures r.Keys <= m.Keys
    ensures forall k | k in m && p(m[k]) :: k in r
    ensures forall k | k in r :: p(r[k])
    ensures forall k | k in r :: r[k] == m[k]
  {
    map k | k in m && p(m[k]) :: m[k]
  }

  /** Any row may be taken out of a sum first, whichever row the definition picks. */
  lemma {:induction false} MapSumRemove<K, V>(m: map<K, V>, f: V -> int, k: K)
    requires k in m
    ensures MapSum(m, f) == f(m[k]) + MapSum(m - {k}, f)
    decreases |m|
  {
    var j := Pick(m);
    if j != k {
      var withoutJ, withoutK := m - {j}, m - {k};
      MapSumRemove(withoutJ, f, k);
      MapSumRemove(withoutK, f, j);
      assert withoutJ - {k} == withoutK - {j};
    }
  }

  /** Overwriting or adding one row changes the sum by exactly that row's difference. */
  lemma MapSumUpdate<K, V>(m: map<K, V>, f: V -> int, k: K, v: V)
    ensures MapSum(m[k := v], f) == MapSum(m, f) - (if k in m then f(m[k]) else 0) + f(v)
  {
    if k in m {
      MapSumReplace(m, f, k, v);
    } else {
      MapSumInsert(m, f, k, v, m[k := v]);
    }
  }

  /** Adding a row under a new key adds its value to the sum. */
  lemma MapSumInsert<K, V>(m: map<K, V>, f: V -> int, k: K, v: V, whole: map<K, V>)
    requires k !in m && whole == m[k := v]
    ensures MapSum(whole, f) == MapSum(m, f) + f(v)
  {
    MapSumRemove(whole, f, k);
    assert whole - {k} == m;
  }

  /** Overwriting a row replaces its value in the sum. */
  lemma MapSumReplace<K, V>(m: map<K, V>, f: V -> int, k: K, v: V)
    requires k in m
    ensures MapSum(m[k := v], f) == MapSum(m, f) - f(m[k]) + f(v)
  {
    var updated := m[k := v];
    MapSumRemove(updated, f, k);
    MapSumRemove(m, f, k);
    assert updated - {k} == m - {k};
  }

  lemma MapSumEmpty<K, V>(m: map<K, V>, f: V -> int)
    requires m == map[]
    ensures MapSum(m, f) == 0
  {
  }

  /** Sums over two maps that agree key by key under `f` are equal. */
  lemma {:induction false} MapSumAgree<K, V>(m: map<K, V>, n: map<K, V>, f: V -> int)
    requires m.Keys == n.Keys
    requires forall k | k in m :: f(m[k]) == f(n[k])
    ensures MapSum(m, f) == MapSum(n, f)
    decreases |m|
  {
    if |m| != 0 {
      var k :| k in m;
      MapSumRemove(m, f, k);
      MapSumRemove(n, f, k);
      MapSumAgree(m - {k}, n - {k}, f);
    }
  }

  /** A sum of rows that each contribute zero is zero. */
  lemma {:induction false} MapSumZero<K, V>(m: map<K, V>, f: V -> int)
    requires forall k | k in m :: f(m[k]) == 0
    ensures MapSum(m, f) == 0
    decreases |m|
  {
    if |m| != 0 {
      var k :| k in m;
      MapSumRemove(m, f, k);
      MapSumZero(m - {k}, f);
    }
  }

  /** Filtering commutes with taking a row out; a row the filter drops leaves the filtered table as it is. */
  lemma WhereRemove<K, V>(m: map<K, V>, p: V -> bool, k: K)
    ensures Where(m - {k}, p) == Where(m, p) - {k}
    ensures k in m && !p(m[k]) ==> Where(m - {k}, p) == Where(m, p)
  {
  }

  /** A filtered sum with one row taken out: the row counts exactly when it passes the filter. */
  lemma MapSumWhereRemove<K, V>(m: map<K, V>, p: V -> bool, f: V -> int, k: K)
    requires k in m
    ensures MapSum(Where(m, p), f) == (if p(m[k]) then f(m[k]) else 0) + MapSum(Where(m - {k}, p), f)
  {
    WhereRemove(m, p, k);
    if p(m[k]) {
      MapSumRemove(Where(m, p), f, k);
    }
  }

  /** The sum of `f` over a list, left to right. */
  function SeqSum<T>(s: seq<T>, f: T -> int): int
    decreases |s|
  {
    if |s| == 0 then 0 else SeqSum(s[..|s| - 1], f) + f(s[|s| - 1])
  }

  /** The filter that keeps what `p` drops. */
  function Not<V>(p: V -> bool): V -> bool {
    v => !p(v)
  }

  /** A sum splits into the rows a filter keeps and the rows it drops. */
  lemma {:induction false} MapSumWhereSplit<K, V>(m: map<K, V>, p: V -> bool, f: V -> int)
    ensures MapSum(m, f) == MapSum(Where(m, p), f) + MapSum(Where(m, Not(p)), f)
    decreases |m|
  {
    if |m| == 0 {
      assert Where(m, p) == map[] && Where(m, Not(p)) == map[];
      MapSumEmpty(Where(m, p), f);
      MapSumEmpty(Where(m, Not(p)), f);
    } else {
      var k :| k in m;
      MapSumRemove(m, f, k);
      MapSumWhereRemove(m, p, f, k);
      MapSumWhereRemove(m, Not(p), f, k);
      MapSumWhereSplit(m - {k}, p, f);
    }
  }

  /** Summing the negated weight gives the negated sum. */
  lemma {:induction false} MapSumNegate<K, V>(m: map<K, V>, f: V -> int, g: V -> int)
    requires forall k | k in m :: g(m[k]) == -f(m[k])
    ensures MapSum(m, g) == -MapSum(m, f)
    decreases |m|
  {
    if |m| != 0 {
      var k :| k in m;
      MapSumRemove(m, f, k);
      MapSumRemove(m, g, k);
      MapSumNegate(m - {k}, f, g);
    }
  }

  /** Summing along a listing is summing over the map, and a listing is as long as the map. */
  lemma {:induction false} ListingSum<V>(rows: seq<V>, m: map<Id, V>, key: V -> Id, f: V -> int)
    requires ListingOf(rows, m, key)
    ensures SeqSum(rows, f) == MapSum(m, f)
    ensures |rows| == |m|
    decreases |rows|
  {
    if |rows| == 0 {
      assert m.Keys == {};
      MapSumEmpty(m, f);
    } else {
      var last := key(rows[|rows| - 1]);
      ListingFront(rows, m, key);
      ListingSum(rows[..|rows| - 1], m - {last}, key, f);
      MapSumRemove(m, f, last);
    }
  }

  function Value(x: int): int {
    x
  }

  /** `acc[k] = (acc[k] || 0) + amount`: a keyed running total. */
  function AddTo<K>(totals: map<K, int>, k: K, amount: int): map<K, int> {
    totals[k := (if k in totals then totals[k] else 0) + amount]
  }

  /** Adding to one key's total adds the same to the sum of all totals. */
  lemma AddToSum<K>(totals: map<K, int>, k: K, amount: int)
    ensures MapSum(AddTo(totals, k, amount), Value) == MapSum(totals, Value) + amount
  {
    MapSumUpdate(totals, Value, k, (if k in totals then totals[k] else 0) + amount);
  }

  /** The aggregate `_sum` over the rows of `m`, taking the rows in order of their ids. */
  function SumOver<V>(m: map<Id, V>, f: V -> int): (s: int)
    ensures s == MapSum(m, f)
    decreases |m|
  {
    if |m| == 0 then 0
    else
      var k := LeastOf(m.Keys);
      MapSumRemove(m, f, k);
      f(m[k]) + SumOver(m - {k}, f)
  }
}
