/**
  The rows a query returns with `orderBy: { <field>: "desc" }`: every id of a
  table whose row passes the filter, each once, ordered by a weight that does
  not increase along the list.  Rows with equal weights may come in any order.
 */
module Listing {

  type Id = nat

  predicate Distinct(s: seq<Id>) {
    forall i, j | 0 <= i < j < |s| :: s[i] != s[j]
  }

  predicate SortedDesc(s: seq<Id>, w: Id -> int) {
    forall i, j | 0 <= i < j < |s| :: w(s[i]) >= w(s[j])
  }

  /** `x` inserted before the first element that weighs less than it. */
  function InsertDesc(s: seq<Id>, x: Id, w: Id -> int): (r: seq<Id>)
    ensures |r| == |s| + 1
    ensures forall y :: y in r <==> y == x || y in s
  {
    if |s| == 0 then [x]
    else if w(s[0]) < w(x) then [x] + s
    else [s[0]] + InsertDesc(s[1..], x, w)
  }

  lemma {:induction false} InsertDescDistinct(s: seq<Id>, x: Id, w: Id -> int)
    requires Distinct(s) && x !in s
    ensures Distinct(InsertDesc(s, x, w))
  {
    if |s| != 0 && w(s[0]) >= w(x) {
      InsertDescDistinct(s[1..], x, w);
      var tail := InsertDesc(s[1..], x, w);
      assert s[0] !in tail;
      assert InsertDesc(s, x, w) == [s[0]] + tail;
    }
  }

  /** Prepending `x` keeps a list sorted when `x` weighs at least as much as every element. */
  lemma SortedCons(x: Id, s: seq<Id>, w: Id -> int)
    requires SortedDesc(s, w)
    requires forall y | y in s :: w(x) >= w(y)
    ensures SortedDesc([x] + s, w)
  {
    var r := [x] + s;
    forall i, j | 0 <= i < j < |r| ensures w(r[i]) >= w(r[j]) {
      if i == 0 {
        assert r[j] == s[j - 1];
      } else {
        assert r[i] == s[i - 1] && r[j] == s[j - 1];
      }
    }
  }

  lemma {:induction false} InsertDescSorted(s: seq<Id>, x: Id, w: Id -> int)
    requires SortedDesc(s, w)
    ensures SortedDesc(InsertDesc(s, x, w), w)
  {
    if |s| == 0 {
    } else if w(s[0]) < w(x) {
      forall y | y in s ensures w(x) >= w(y) {
        var j :| 0 <= j < |s| && s[j] == y;
        assert w(s[0]) >= w(s[j]) || j == 0;
      }
      SortedCons(x, s, w);
    } else {
      assert SortedDesc(s[1..], w) by {
        forall i, j | 0 <= i < j < |s[1..]| ensures w(s[1..][i]) >= w(s[1..][j]) {
          assert s[1..][i] == s[i + 1] && s[1..][j] == s[j + 1];
        }
      }
      InsertDescSorted(s[1..], x, w);
      var tail := InsertDesc(s[1..], x, w);
      forall y | y in tail ensures w(s[0]) >= w(y) {
        if y != x {
          var j :| 0 <= j < |s[1..]| && s[1..][j] == y;
          assert s[j + 1] == y;
        }
      }
      SortedCons(s[0], tail, w);
    }
  }

  /** The ids of the rows of `m` that pass `p`, heaviest first. */
  method SortedIdsDesc<V>(m: map<Id, V>, p: V -> bool, key: V -> int) returns (r: seq<Id>)
    ensures forall k | k in m && p(m[k]) :: k in r
    ensures forall i | 0 <= i < |r| :: r[i] in m && p(m[r[i]])
    ensures Distinct(r)
    ensures forall i, j | 0 <= i < j < |r| :: key(m[r[i]]) >= key(m[r[j]])
  {
    var w := (k: Id) => if k in m then key(m[k]) else 0;
    var rest := set k | k in m && p(m[k]);
    r := [];
    while rest != {}
      invariant forall k | k in m && p(m[k]) :: k in r || k in rest
      invariant forall k | k in rest :: k in m && p(m[k]) && k !in r
      invariant forall k | k in r :: k in m && p(m[k])
      invariant Distinct(r)
      invariant SortedDesc(r, w)
      decreases rest
    {
      var k :| k in rest;
      InsertDescDistinct(r, k, w);
      InsertDescSorted(r, k, w);
      r := InsertDesc(r, k, w);
      rest := rest - {k};
    }
    forall i, j | 0 <= i < j < |r|
      ensures key(m[r[i]]) >= key(m[r[j]])
    {
      assert w(r[i]) >= w(r[j]);
    }
  }

  /** The smallest id of a non-empty set. */
  function LeastOf(s: set<Id>): (r: Id)
    requires s != {}
    ensures r in s
    ensures forall x | x in s :: r <= x
  {
    LeastExists(s);
    var r :| r in s && forall x | x in s :: r <= x; r
  }

  lemma LeastExists(s: set<Id>)
    requires s != {}
    ensures exists r :: r in s && forall x | x in s :: r <= x
  {
    var x :| x in s;
    LeastAtMost(s, x);
  }

  /** Some element of `s`, no larger than `x`, is below every element. */
  lemma {:induction false} LeastAtMost(s: set<Id>, x: Id)
    requires x in s
    ensures exists r :: r in s && forall y | y in s :: r <= y
    decreases x
  {
    if !forall y | y in s :: x <= y {
      var y :| y in s && y < x;
      LeastAtMost(s, y);
    }
  }

  /** `rows` lists the values of `m`, each under its own key (`key`) and each once, in some order. */
  ghost predicate ListingOf<V>(rows: seq<V>, m: map<Id, V>, key: V -> Id) {
    && (forall i | 0 <= i < |rows| :: key(rows[i]) in m && m[key(rows[i])] == rows[i])
    && (forall i, j | 0 <= i < j < |rows| :: key(rows[i]) != key(rows[j]))
    && (forall k | k in m :: exists i :: 0 <= i < |rows| && key(rows[i]) == k)
  }

  /** All but the last of a listing list the map without the last value's key. */
  lemma ListingFront<V>(rows: seq<V>, m: map<Id, V>, key: V -> Id)
    requires ListingOf(rows, m, key) && |rows| != 0
    ensures ListingOf(rows[..|rows| - 1], m - {key(rows[|rows| - 1])}, key)
  {
    var front, last := rows[..|rows| - 1], key(rows[|rows| - 1]);
    forall k | k in m - {last} ensures exists i :: 0 <= i < |front| && key(front[i]) == k {
      var i :| 0 <= i < |rows| && key(rows[i]) == k;
      assert key(front[i]) == k;
    }
  }

  /** The values under a list of the selected keys, each once, list the selected values. */
  lemma SelectedListing<V>(m: map<Id, V>, p: V -> bool, key: V -> Id, ids: seq<Id>, rows: seq<V>)
    requires forall k | k in m :: key(m[k]) == k
    requires forall k | k in m && p(m[k]) :: k in ids
    requires forall i | 0 <= i < |ids| :: ids[i] in m && p(m[ids[i]])
    requires Distinct(ids)
    requires |rows| == |ids| && forall i | 0 <= i < |ids| :: rows[i] == m[ids[i]]
    ensures ListingOf(rows, map k | k in m && p(m[k]) :: m[k], key)
  {
    forall k | k in m && p(m[k]) ensures exists i :: 0 <= i < |rows| && key(rows[i]) == k {
      var i :| 0 <= i < |ids| && ids[i] == k;
      assert key(rows[i]) == k;
    }
  }
}
