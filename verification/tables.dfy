/** The stable sort both table chains of the analytics engine begin with. */
module Tables {

  function InsertBy<T>(rows: seq<T>, r: T, key: T -> real): seq<T> {
    if rows == [] || key(r) < key(rows[0]) then [r] + rows
    else [rows[0]] + InsertBy(rows[1..], r, key)
  }

  /** sort_values on one column. */
  function SortBy<T>(rows: seq<T>, key: T -> real): seq<T> {
    if rows == [] then [] else InsertBy(SortBy(rows[..|rows|-1], key), rows[|rows|-1], key)
  }

  ghost predicate AscendingBy<T>(rows: seq<T>, key: T -> real) {
    forall i, j :: 0 <= i < j < |rows| ==> key(rows[i]) <= key(rows[j])
  }

  lemma {:induction false} InsertKeepsAll<T>(rows: seq<T>, r: T, key: T -> real)
    ensures multiset(InsertBy(rows, r, key)) == multiset(rows) + multiset{r}
  {
    if rows != [] && key(r) >= key(rows[0]) {
      InsertKeepsAll(rows[1..], r, key);
      assert rows == [rows[0]] + rows[1..];
    }
  }

  lemma {:induction false} InsertKeepsOrder<T>(rows: seq<T>, r: T, key: T -> real)
    requires AscendingBy(rows, key)
    ensures AscendingBy(InsertBy(rows, r, key), key)
  {
    if rows != [] && key(r) >= key(rows[0]) {
      InsertKeepsOrder(rows[1..], r, key);
      InsertKeepsAll(rows[1..], r, key);
      var tail := InsertBy(rows[1..], r, key);
      forall k | 0 <= k < |tail| ensures key(rows[0]) <= key(tail[k]) {
        assert tail[k] in multiset(tail);
        assert tail[k] == r || tail[k] in rows[1..];
      }
    }
  }

  /** Sorting orders the rows and keeps every one of them. */
  lemma {:induction false} SortSorts<T>(rows: seq<T>, key: T -> real)
    ensures AscendingBy(SortBy(rows, key), key)
    ensures multiset(SortBy(rows, key)) == multiset(rows)
  {
    if rows != [] {
      var n := |rows| - 1;
      SortSorts(rows[..n], key);
      InsertKeepsAll(SortBy(rows[..n], key), rows[n], key);
      InsertKeepsOrder(SortBy(rows[..n], key), rows[n], key);
      assert rows == rows[..n] + [rows[n]];
    }
  }

  lemma SortHolds<T>(rows: seq<T>, key: T -> real, x: T)
    ensures x in SortBy(rows, key) <==> x in rows
  {
    SortSorts(rows, key);
    assert x in SortBy(rows, key) <==> x in multiset(SortBy(rows, key));
    assert x in rows <==> x in multiset(rows);
  }
}
