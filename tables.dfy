/**
 * The record tables of the backend's store, abstracted from SQLite: every
 * table is append-only, every row gets the next AUTOINCREMENT id and a
 * timestamp (integer seconds) at insertion, and the read queries are the
 * three shapes the handlers use: the newest row (`ORDER BY timestamp DESC
 * LIMIT 1`), rows after a cut-off (`WHERE timestamp > ...`), and rows ordered
 * by timestamp with a `LIMIT`.
 */
module Tables {

  import opened Json

  datatype Row<T> = Row(id: int, timestamp: int, data: T)

  ghost predicate IdsAscending<T>(rows: seq<Row<T>>)
  {
    forall i, j :: 0 <= i < j < |rows| ==> rows[i].id < rows[j].id
  }

  /** A table: its rows in insertion order and the id the next insert gets. */
  datatype Table<T> = Table(rows: seq<Row<T>>, nextId: int)
  {
    /** AUTOINCREMENT ids start at 1, grow with every insert and are never reused. */
    ghost predicate Valid()
    {
      && 1 <= nextId
      && IdsAscending(rows)
      && forall r | r in rows :: 1 <= r.id < nextId
    }

    /** One INSERT: the new row comes last and its id is larger than every id before it. */
    function Append(data: T, now: int): (t: Table<T>)
      ensures |t.rows| == |rows| + 1 && t.rows[..|rows|] == rows
      ensures t.rows[|rows|].timestamp == now && t.rows[|rows|].data == data
      ensures Valid() ==> t.Valid() && forall r | r in rows :: r.id < t.rows[|rows|].id
    {
      Table(rows + [Row(nextId, now, data)], nextId + 1)
    }
  }

  function EmptyTable<T>(): (t: Table<T>)
    ensures t.Valid() && |t.rows| == 0
  {
    Table([], 1)
  }

  /**
   * The row `ORDER BY timestamp DESC LIMIT 1` returns, `None` for an empty
   * table. SQLite leaves the order of equal timestamps open; among those this
   * picks the one inserted last.
   */
  function Newest<T>(rows: seq<Row<T>>): (r: Option<Row<T>>)
    ensures r.None? <==> |rows| == 0
    ensures r.Some? ==> r.value in rows && forall x | x in rows :: x.timestamp <= r.value.timestamp
  {
    if |rows| == 0 then None
    else
      var last := rows[|rows| - 1];
      var before := Newest(rows[..|rows| - 1]);
      assert rows == rows[..|rows| - 1] + [last];
      if before.Some? && before.value.timestamp > last.timestamp then before else Some(last)
  }

  /** The sort key: the timestamp, negated when the order is descending. */
  function Key<T>(r: Row<T>, descending: bool): int
  {
    if descending then -r.timestamp else r.timestamp
  }

  ghost predicate SortedBy<T>(s: seq<Row<T>>, descending: bool)
  {
    forall i, j :: 0 <= i < j < |s| ==> Key(s[i], descending) <= Key(s[j], descending)
  }

  function InsertBy<T>(x: Row<T>, s: seq<Row<T>>, descending: bool): (r: seq<Row<T>>)
    ensures multiset(r) == multiset(s) + multiset{x}
    decreases |s|
  {
    if |s| == 0 || Key(x, descending) < Key(s[0], descending) then [x] + s
    else
      assert s == [s[0]] + s[1..];
      [s[0]] + InsertBy(x, s[1..], descending)
  }

  /** A lower bound on the keys of `s` and of `x` bounds the keys of the insertion. */
  lemma {:induction false} InsertByBounded<T>(x: Row<T>, s: seq<Row<T>>, descending: bool, bound: int)
    requires bound <= Key(x, descending)
    requires forall y | y in s :: bound <= Key(y, descending)
    ensures forall y | y in InsertBy(x, s, descending) :: bound <= Key(y, descending)
  {
    forall y | y in InsertBy(x, s, descending) ensures bound <= Key(y, descending) {
      assert y in multiset(InsertBy(x, s, descending));
      if y != x {
        assert y in multiset(s);
      }
    }
  }

  lemma {:induction false} InsertByKeepsSorted<T>(x: Row<T>, s: seq<Row<T>>, descending: bool)
    requires SortedBy(s, descending)
    ensures SortedBy(InsertBy(x, s, descending), descending)
    decreases |s|
  {
    if |s| == 0 || Key(x, descending) < Key(s[0], descending) {
    } else {
      var rest := InsertBy(x, s[1..], descending);
      InsertByKeepsSorted(x, s[1..], descending);
      assert forall y | y in s[1..] :: Key(s[0], descending) <= Key(y, descending);
      InsertByBounded(x, s[1..], descending, Key(s[0], descending));
      var r := [s[0]] + rest;
      assert forall j :: 0 < j < |r| ==> r[j] == rest[j - 1];
    }
  }

  /** `ORDER BY timestamp` (ascending, or descending with `DESC`). */
  function SortBy<T>(s: seq<Row<T>>, descending: bool): (r: seq<Row<T>>)
    ensures multiset(r) == multiset(s) && |r| == |s|
    ensures SortedBy(r, descending)
  {
    if |s| == 0 then []
    else
      assert s == s[..|s| - 1] + [s[|s| - 1]];
      var sortedPrefix := SortBy(s[..|s| - 1], descending);
      InsertByKeepsSorted(s[|s| - 1], sortedPrefix, descending);
      var r := InsertBy(s[|s| - 1], sortedPrefix, descending);
      assert |r| == |multiset(r)|;
      r
  }

  /** `WHERE timestamp > cutoff`: every row strictly after the cut-off, each exactly once. */
  function After<T>(rows: seq<Row<T>>, cutoff: int): (r: seq<Row<T>>)
    ensures forall x | x in r :: x.timestamp > cutoff
    ensures multiset(r) <= multiset(rows)
    ensures forall x | x in rows :: multiset(r)[x] == if x.timestamp > cutoff then multiset(rows)[x] else 0
  {
    if |rows| == 0 then []
    else
      var last := rows[|rows| - 1];
      assert rows == rows[..|rows| - 1] + [last];
      var before := After(rows[..|rows| - 1], cutoff);
      if last.timestamp > cutoff then before + [last] else before
  }

  /** `WHERE timestamp > cutoff ORDER BY timestamp ASC`. */
  function Since<T>(rows: seq<Row<T>>, cutoff: int): seq<Row<T>>
  {
    SortBy(After(rows, cutoff), false)
  }

  /** The rows after the cut-off, each as often as stored, oldest first. */
  lemma {:induction false} SinceWindow<T>(rows: seq<Row<T>>, cutoff: int)
    ensures SortedBy(Since(rows, cutoff), false)
    ensures forall x | x in rows :: multiset(Since(rows, cutoff))[x] == if x.timestamp > cutoff then multiset(rows)[x] else 0
    ensures forall x | x in Since(rows, cutoff) :: x in rows && x.timestamp > cutoff
  {
    var window := After(rows, cutoff);
    var r := Since(rows, cutoff);
    assert multiset(r) == multiset(window);
    forall x | x in r ensures x in rows && x.timestamp > cutoff {
      assert x in multiset(r);
      assert x in multiset(window);
      assert x in multiset(rows);
    }
  }

  /** `LIMIT n`. */
  function Take<T>(s: seq<Row<T>>, n: nat): (r: seq<Row<T>>)
    ensures |r| == if |s| < n then |s| else n
    ensures r == s[..|r|] && multiset(r) <= multiset(s)
  {
    if |s| < n then s
    else
      assert s == s[..n] + s[n..];
      s[..n]
  }

  /**
   * The first `n` rows in descending timestamp order are the newest: a row
   * left out has a timestamp no later than any row kept.
   */
  lemma {:induction false} TakeKeepsNewest<T>(rows: seq<Row<T>>, n: nat)
    ensures var kept := Take(SortBy(rows, true), n);
      forall x | x in rows && x !in kept ::
        |rows| > n && forall k :: 0 <= k < |kept| ==> x.timestamp <= kept[k].timestamp
  {
    var sorted := SortBy(rows, true);
    var kept := Take(sorted, n);
    forall x | x in rows && x !in kept
      ensures |rows| > n && forall k :: 0 <= k < |kept| ==> x.timestamp <= kept[k].timestamp
    {
      assert x in multiset(rows);
      assert x in multiset(sorted);
      var i :| 0 <= i < |sorted| && sorted[i] == x;
      assert i >= |kept| by {
        assert forall j :: 0 <= j < |kept| ==> kept[j] == sorted[j];
      }
      forall k | 0 <= k < |kept| ensures x.timestamp <= kept[k].timestamp {
        assert Key(sorted[k], true) <= Key(sorted[i], true);
      }
    }
  }

  /** `ORDER BY timestamp DESC LIMIT n`. */
  function Latest<T>(rows: seq<Row<T>>, n: nat): seq<Row<T>>
  {
    Take(SortBy(rows, true), n)
  }

  /** At most `n` rows of the table, newest first, and no row left out is newer than one kept. */
  lemma {:induction false} LatestNewest<T>(rows: seq<Row<T>>, n: nat)
    ensures var r := Latest(rows, n);
      && |r| == (if |rows| < n then |rows| else n)
      && (forall i, j :: 0 <= i < j < |r| ==> r[i].timestamp >= r[j].timestamp)
      && multiset(r) <= multiset(rows)
      && (forall x | x in r :: x in rows)
      && (forall x | x in rows && x !in r :: |rows| > n && forall k :: 0 <= k < |r| ==> x.timestamp <= r[k].timestamp)
  {
    var sorted := SortBy(rows, true);
    var r := Latest(rows, n);
    TakeKeepsNewest(rows, n);
    forall i, j | 0 <= i < j < |r| ensures r[i].timestamp >= r[j].timestamp {
      assert r[i] == sorted[i] && r[j] == sorted[j];
      assert Key(sorted[i], true) <= Key(sorted[j], true);
    }
    forall x | x in r ensures x in rows {
      assert x in sorted;
      assert x in multiset(sorted);
    }
  }
}
