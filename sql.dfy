/** The row-level effect of the SQL statements the handlers issue, over a table
    held as a sequence of rows in storage order. */
module Sql {
  import opened Js

  /** `SELECT * ... WHERE p`: the rows satisfying `p`, in storage order.
      `DELETE ... WHERE p` leaves `Where(rows, x => !p(x))`. How often each row
      comes back is `WhereCounts`; the order is `WhereConcat`. */
  function Where<T(!new)>(rows: seq<T>, p: T -> bool): (r: seq<T>)
    ensures |r| <= |rows|
    ensures forall x :: x in r <==> x in rows && p(x)
    ensures r == [] <==> forall x :: x in rows ==> !p(x)
    decreases |rows|
  {
    if rows == [] then []
    else if p(rows[0]) then [rows[0]] + Where(rows[1..], p)
    else Where(rows[1..], p)
  }

  /** A selected row comes back exactly as often as it is stored, and a row
      not satisfying the condition never. */
  lemma {:induction false} WhereCounts<T(!new)>(rows: seq<T>, p: T -> bool)
    ensures forall x :: multiset(Where(rows, p))[x] == if p(x) then multiset(rows)[x] else 0
    decreases |rows|
  {
    if rows != [] {
      assert rows == [rows[0]] + rows[1..];
      WhereCounts(rows[1..], p);
    }
  }

  /** Storage order: selecting from a table read in two parts gives the
      selection from the first part, then the selection from the second. */
  lemma {:induction false} WhereConcat<T(!new)>(a: seq<T>, b: seq<T>, p: T -> bool)
    ensures Where(a + b, p) == Where(a, p) + Where(b, p)
    decreases |a|
  {
    if a == [] {
      assert a + b == b;
    } else {
      assert (a + b)[0] == a[0];
      assert (a + b)[1..] == a[1..] + b;
      WhereConcat(a[1..], b, p);
    }
  }


  /** `UPDATE ... SET f WHERE p`: every row satisfying `p` is rewritten by `f`,
      every other row stays, and no row moves. */
  function UpdateWhere<T>(rows: seq<T>, p: T -> bool, f: T -> T): (r: seq<T>)
    ensures |r| == |rows|
    ensures forall i :: 0 <= i < |rows| ==> r[i] == (if p(rows[i]) then f(rows[i]) else rows[i])
    decreases |rows|
  {
    if rows == [] then []
    else [if p(rows[0]) then f(rows[0]) else rows[0]] + UpdateWhere(rows[1..], p, f)
  }

  /** `COALESCE($n, column)` for a NOT NULL column: an absent parameter is NULL and keeps the column. */
  function Coalesce<T>(given: Option<T>, current: T): T {
    if given.Some? then given.value else current
  }

  /** `COALESCE($n, column)` for a nullable column. */
  function CoalesceNullable<T>(given: Option<T>, current: Option<T>): Option<T> {
    if given.Some? then given else current
  }

  /** Two filters that agree on every row select the same rows. */
  lemma {:induction false} WhereSameFilter<T(!new)>(rows: seq<T>, p: T -> bool, q: T -> bool)
    requires forall x :: x in rows ==> p(x) == q(x)
    ensures Where(rows, p) == Where(rows, q)
    decreases |rows|
  {
    if rows != [] {
      assert rows[0] in rows;
      forall x | x in rows[1..] ensures p(x) == q(x) {
        assert x in rows;
      }
      WhereSameFilter(rows[1..], p, q);
    }
  }

  /** A key constraint (PRIMARY KEY or UNIQUE): no two rows share a key. */
  ghost predicate DistinctBy<T, K>(rows: seq<T>, key: T -> K) {
    forall i, j :: 0 <= i < j < |rows| ==> key(rows[i]) != key(rows[j])
  }

  /** Under a key constraint every stored row is stored exactly once. */
  lemma {:induction false} DistinctStoredOnce<T, K>(rows: seq<T>, key: T -> K, x: T)
    requires DistinctBy(rows, key) && x in rows
    ensures multiset(rows)[x] == 1
    decreases |rows|
  {
    assert rows == [rows[0]] + rows[1..];
    if rows[0] == x {
      forall j | 0 <= j < |rows[1..]| ensures rows[1..][j] != x {
        assert key(rows[0]) != key(rows[j + 1]);
      }
      assert x !in rows[1..];
    } else {
      forall i, j | 0 <= i < j < |rows[1..]| ensures key(rows[1..][i]) != key(rows[1..][j]) {
        assert key(rows[i + 1]) != key(rows[j + 1]);
      }
      DistinctStoredOnce(rows[1..], key, x);
    }
  }

  /** Selecting or deleting rows never breaks a key constraint. */
  lemma {:induction false} WhereKeepsDistinct<T(!new), K>(rows: seq<T>, p: T -> bool, key: T -> K)
    requires DistinctBy(rows, key)
    ensures DistinctBy(Where(rows, p), key)
  {
    if rows != [] {
      var rest := Where(rows[1..], p);
      WhereKeepsDistinct(rows[1..], p, key);
      if p(rows[0]) {
        var r := [rows[0]] + rest;
        forall i, j | 0 <= i < j < |r| ensures key(r[i]) != key(r[j]) {
          if i == 0 {
            assert r[j] in rows[1..];
            var k :| 0 <= k < |rows[1..]| && rows[1..][k] == r[j];
            assert rows[k + 1] == r[j];
          } else {
            assert r[i] == rest[i - 1] && r[j] == rest[j - 1];
          }
        }
      }
    }
  }

  /** An UPDATE whose rewrite keeps the key column keeps the key constraint. */
  lemma UpdateKeepsDistinct<T, K>(rows: seq<T>, p: T -> bool, f: T -> T, key: T -> K)
    requires DistinctBy(rows, key)
    requires forall i :: 0 <= i < |rows| ==> key(f(rows[i])) == key(rows[i])
    ensures DistinctBy(UpdateWhere(rows, p, f), key)
  {
    var r := UpdateWhere(rows, p, f);
    forall i | 0 <= i < |r| ensures key(r[i]) == key(rows[i]) {
    }
  }

  /** In a table with a key constraint, at most one row has a given key. */
  lemma {:induction false} DistinctRowsAgree<T, K>(rows: seq<T>, key: T -> K, x: T, y: T)
    requires DistinctBy(rows, key)
    requires x in rows && y in rows && key(x) == key(y)
    ensures x == y
  {
    var i :| 0 <= i < |rows| && rows[i] == x;
    var j :| 0 <= j < |rows| && rows[j] == y;
    if i != j {
      assert false;
    }
  }
}
