/** Python's sort by a key: ascending and stable. */
module Sorting {

  ghost predicate Sorted<T>(rows: seq<T>, key: T -> real) {
    forall i, j :: 0 <= i < j < |rows| ==> key(rows[i]) <= key(rows[j])
  }

  /** x goes before the first row whose key is not smaller. */
  function Insert<T>(x: T, rows: seq<T>, key: T -> real): seq<T> {
    if rows == [] || key(x) <= key(rows[0]) then [x] + rows else [rows[0]] + Insert(x, rows[1..], key)
  }

  function StableSort<T>(rows: seq<T>, key: T -> real): seq<T> {
    if rows == [] then [] else Insert(rows[0], StableSort(rows[1..], key), key)
  }

  lemma {:induction false} InsertContents<T>(x: T, rows: seq<T>, key: T -> real)
    ensures multiset(Insert(x, rows, key)) == multiset{x} + multiset(rows)
  {
    if rows == [] || key(x) <= key(rows[0]) {
    } else {
      InsertContents(x, rows[1..], key);
      assert rows == [rows[0]] + rows[1..];
    }
  }

  lemma {:induction false} InsertSorted<T>(x: T, rows: seq<T>, key: T -> real)
    requires Sorted(rows, key)
    ensures Sorted(Insert(x, rows, key), key)
  {
    if rows == [] || key(x) <= key(rows[0]) {
    } else {
      InsertSorted(x, rows[1..], key);
      InsertContents(x, rows[1..], key);
      var tail := Insert(x, rows[1..], key);
      forall j | 0 <= j < |tail| ensures key(rows[0]) <= key(tail[j]) {
        assert tail[j] in multiset(tail);
        assert tail[j] == x || tail[j] in rows[1..];
      }
    }
  }

  lemma {:induction false} StableSortIsSort<T>(rows: seq<T>, key: T -> real)
    ensures Sorted(StableSort(rows, key), key) && multiset(StableSort(rows, key)) == multiset(rows)
  {
    if rows != [] {
      StableSortIsSort(rows[1..], key);
      InsertSorted(rows[0], StableSort(rows[1..], key), key);
      InsertContents(rows[0], StableSort(rows[1..], key), key);
      assert rows == [rows[0]] + rows[1..];
    }
  }

  lemma StableSortSize<T>(rows: seq<T>, key: T -> real)
    ensures |StableSort(rows, key)| == |rows|
  {
    StableSortIsSort(rows, key);
    assert |multiset(StableSort(rows, key))| == |multiset(rows)|;
  }

  lemma SortTwo<T>(x: T, y: T, key: T -> real)
    ensures StableSort([x], key) == [x]
    ensures StableSort([x, y], key) == if key(x) <= key(y) then [x, y] else [y, x]
  {
    assert [x, y][1..] == [y] && [x][1..] == [] && [y][1..] == [];
    assert StableSort([y], key) == [y];
    assert Insert(x, [], key) == [x];
  }

  // ---- The ends of a sorted list -----------------------------------------------------------

  /** Row i has the smallest key, and is the first row with it. */
  ghost predicate FirstLeast<T>(rows: seq<T>, key: T -> real, i: nat) {
    && i < |rows|
    && (forall j :: 0 <= j < i ==> key(rows[i]) < key(rows[j]))
    && (forall j :: i < j < |rows| ==> key(rows[i]) <= key(rows[j]))
  }

  /** Row i has the greatest key, and is the last row with it. */
  ghost predicate LastGreatest<T>(rows: seq<T>, key: T -> real, i: nat) {
    && i < |rows|
    && (forall j :: 0 <= j < i ==> key(rows[j]) <= key(rows[i]))
    && (forall j :: i < j < |rows| ==> key(rows[j]) < key(rows[i]))
  }

  lemma SortedFrom<T>(rows: seq<T>, key: T -> real)
    ensures |StableSort(rows, key)| == |rows|
    ensures forall j :: 0 <= j < |rows| ==> StableSort(rows, key)[j] in rows
  {
    StableSortIsSort(rows, key);
    StableSortSize(rows, key);
    forall j | 0 <= j < |rows| ensures StableSort(rows, key)[j] in rows {
      assert StableSort(rows, key)[j] in multiset(StableSort(rows, key));
    }
  }

  /** The sorted list starts with the first of the smallest rows. */
  lemma {:induction false} SortHead<T>(rows: seq<T>, key: T -> real, i: nat)
    requires FirstLeast(rows, key, i)
    ensures StableSort(rows, key) != [] && StableSort(rows, key)[0] == rows[i]
  {
    var tail := rows[1..];
    SortedFrom(tail, key);
    if i > 0 {
      SortHead(tail, key, i - 1);
    } else if tail != [] {
      var j :| 0 <= j < |tail| && tail[j] == StableSort(tail, key)[0];
      assert key(rows[0]) <= key(rows[j + 1]);
    }
  }

  lemma {:induction false} InsertLast<T>(x: T, rows: seq<T>, key: T -> real)
    requires Sorted(rows, key) && rows != []
    ensures var r, last := Insert(x, rows, key), rows[|rows| - 1];
            r != [] && r[|r| - 1] == if key(x) > key(last) then x else last
  {
    if key(x) > key(rows[0]) && |rows| > 1 {
      InsertLast(x, rows[1..], key);
    }
  }

  lemma SortOne<T>(rows: seq<T>, key: T -> real)
    requires |rows| == 1
    ensures StableSort(rows, key) == rows
  {
    assert rows[1..] == [] && rows == [rows[0]] + [];
  }

  lemma LastGreatestTail<T>(rows: seq<T>, key: T -> real, i: nat)
    requires LastGreatest(rows, key, i) && |rows| > 1
    ensures i > 0 ==> LastGreatest(rows[1..], key, i - 1) && key(rows[0]) <= key(rows[i])
    ensures i == 0 ==> forall t :: t in rows[1..] ==> key(t) < key(rows[0])
  {
  }

  /** The sorted list ends with the last of the greatest rows. */
  lemma {:induction false} SortLast<T>(rows: seq<T>, key: T -> real, i: nat)
    requires LastGreatest(rows, key, i)
    ensures StableSort(rows, key) != [] && StableSort(rows, key)[|StableSort(rows, key)| - 1] == rows[i]
  {
    if |rows| == 1 {
      SortOne(rows, key);
    } else {
      var tail := rows[1..];
      LastGreatestTail(rows, key, i);
      hide Insert, Sorted, LastGreatest;
      SortedFrom(tail, key);
      StableSortIsSort(tail, key);
      InsertLast(rows[0], StableSort(tail, key), key);
      if i > 0 { SortLast(tail, key, i - 1); }
    }
  }

  // ---- Selecting rows -------------------------------------------------------------------

  function Select<T>(rows: seq<T>, keep: T -> bool): (kept: seq<T>)
    ensures forall i :: 0 <= i < |kept| ==> kept[i] in rows && keep(kept[i])
  {
    if rows == [] then []
    else if keep(rows[0]) then [rows[0]] + Select(rows[1..], keep)
    else Select(rows[1..], keep)
  }

  lemma SelectSingle<T>(x: T, keep: T -> bool)
    ensures Select([x], keep) == if keep(x) then [x] else []
  {
  }

  lemma {:induction false} SelectConcat<T>(a: seq<T>, b: seq<T>, keep: T -> bool)
    ensures Select(a + b, keep) == Select(a, keep) + Select(b, keep)
  {
    if a == [] {
      assert a + b == b;
    } else {
      SelectConcat(a[1..], b, keep);
      assert (a + b)[1..] == a[1..] + b;
    }
  }

  lemma {:induction false} InsertThenSelect<T>(x: T, rows: seq<T>, key: T -> real, keep: T -> bool)
    requires Sorted(rows, key)
    ensures Select(Insert(x, rows, key), keep)
            == if keep(x) then Insert(x, Select(rows, keep), key) else Select(rows, keep)
  {
    if rows == [] {
      assert ([x] + rows)[1..] == rows;
    } else if key(x) <= key(rows[0]) {
      assert ([x] + rows)[1..] == rows;
      var kept := Select(rows, keep);
      if kept != [] {
        assert kept[0] in rows;
        assert key(x) <= key(kept[0]);
      }
    } else {
      InsertThenSelect(x, rows[1..], key, keep);
      assert ([rows[0]] + Insert(x, rows[1..], key))[1..] == Insert(x, rows[1..], key);
      var tail := Select(rows[1..], keep);
      if keep(rows[0]) {
        assert ([rows[0]] + tail)[1..] == tail;
      }
    }
  }

  /** Sorting and selecting commute. */
  lemma {:induction false} SortThenSelect<T>(rows: seq<T>, key: T -> real, keep: T -> bool)
    ensures Select(StableSort(rows, key), keep) == StableSort(Select(rows, keep), key)
  {
    if rows != [] {
      SortThenSelect(rows[1..], key, keep);
      StableSortIsSort(rows[1..], key);
      InsertThenSelect(rows[0], StableSort(rows[1..], key), key, keep);
      var tail := Select(rows[1..], keep);
      assert ([rows[0]] + tail)[1..] == tail;
    }
  }

  lemma {:induction false} SelectCounts<T>(rows: seq<T>, keep: T -> bool, t: T)
    ensures multiset(Select(rows, keep))[t] == if keep(t) then multiset(rows)[t] else 0
  {
    if rows != [] {
      SelectCounts(rows[1..], keep, t);
      assert rows == [rows[0]] + rows[1..];
    }
  }

  /** Permuting the rows permutes the selection. */
  lemma SelectPermutes<T>(a: seq<T>, b: seq<T>, keep: T -> bool)
    requires multiset(a) == multiset(b)
    ensures multiset(Select(a, keep)) == multiset(Select(b, keep))
  {
    forall t: T ensures multiset(Select(a, keep))[t] == multiset(Select(b, keep))[t] {
      SelectCounts(a, keep, t);
      SelectCounts(b, keep, t);
    }
  }
}
