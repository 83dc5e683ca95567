/**
 * `ORDER BY key DESC` as the store's queries use it: a stable insertion sort on an integer key,
 * rows with equal keys keeping their table order. `ORDER BY key` is the same sort on the negated
 * key. `LIMIT` and `OFFSET` cut a window out of the sorted rows.
 */
module Sorting {

  predicate SortedDesc<T>(xs: seq<T>, key: T -> int) {
    forall i, j :: 0 <= i < j < |xs| ==> key(xs[i]) >= key(xs[j])
  }

  /** Puts `x` before the first row whose key is not above its own. */
  function Insert<T>(x: T, xs: seq<T>, key: T -> int): (r: seq<T>)
    ensures |r| == |xs| + 1
    ensures multiset(r) == multiset(xs) + multiset{x}
    ensures forall y :: y in r ==> y == x || y in xs
  {
    if xs == [] || key(xs[0]) <= key(x) then [x] + xs
    else
      assert xs == [xs[0]] + xs[1..];
      [xs[0]] + Insert(x, xs[1..], key)
  }

  lemma {:induction false} InsertSorted<T>(x: T, xs: seq<T>, key: T -> int)
    requires SortedDesc(xs, key)
    ensures SortedDesc(Insert(x, xs, key), key)
    decreases |xs|
  {
    if xs != [] && key(xs[0]) > key(x) {
      var tail := xs[1..];
      assert SortedDesc(tail, key) by {
        forall i, j | 0 <= i < j < |tail| ensures key(tail[i]) >= key(tail[j]) {
          assert tail[i] == xs[i + 1] && tail[j] == xs[j + 1];
        }
      }
      InsertSorted(x, tail, key);
      var r := Insert(x, tail, key);
      InsertBelow(x, tail, key, key(xs[0]));
      SortedCons(xs[0], r, key);
    }
  }

  /** Inserting below a bound every row already keeps to stays below it. */
  lemma InsertBelow<T>(x: T, xs: seq<T>, key: T -> int, bound: int)
    requires key(x) <= bound && forall i :: 0 <= i < |xs| ==> key(xs[i]) <= bound
    ensures forall i :: 0 <= i < |Insert(x, xs, key)| ==> key(Insert(x, xs, key)[i]) <= bound
  {
    var r := Insert(x, xs, key);
    forall i | 0 <= i < |r| ensures key(r[i]) <= bound {
      assert r[i] in r;
      if r[i] != x {
        var k :| 0 <= k < |xs| && xs[k] == r[i];
      }
    }
  }

  lemma SortedCons<T>(y: T, r: seq<T>, key: T -> int)
    requires SortedDesc(r, key) && forall i :: 0 <= i < |r| ==> key(r[i]) <= key(y)
    ensures SortedDesc([y] + r, key)
  {
    var s := [y] + r;
    forall i, j | 0 <= i < j < |s| ensures key(s[i]) >= key(s[j]) {
      assert s[j] == r[j - 1];
      if i > 0 {
        assert s[i] == r[i - 1];
      }
    }
  }

  /** The rows in descending key order; among equal keys the earlier row comes first. */
  function SortDesc<T>(xs: seq<T>, key: T -> int): (r: seq<T>)
    ensures |r| == |xs| && multiset(r) == multiset(xs)
  {
    if xs == [] then []
    else
      assert xs == [xs[0]] + xs[1..];
      Insert(xs[0], SortDesc(xs[1..], key), key)
  }

  /** The sort orders its rows and keeps exactly the rows it was given. */
  lemma {:induction false} SortDescSorted<T>(xs: seq<T>, key: T -> int)
    ensures SortedDesc(SortDesc(xs, key), key)
    ensures forall y :: y in SortDesc(xs, key) <==> y in xs
    decreases |xs|
  {
    if xs != [] {
      SortDescSorted(xs[1..], key);
      InsertSorted(xs[0], SortDesc(xs[1..], key), key);
    }
    forall y ensures y in SortDesc(xs, key) <==> y in xs {
      calc {
        y in SortDesc(xs, key);
        y in multiset(SortDesc(xs, key));
        y in multiset(xs);
        y in xs;
      }
    }
  }

  /** The first row `OFFSET` keeps: a negative offset skips nothing. */
  function WindowStart(n: nat, offset: int): (s: nat)
    ensures s <= n
  {
    if offset <= 0 then 0 else if offset >= n then n else offset
  }

  /** The end of the rows `LIMIT` keeps after the start: a negative limit keeps them all. */
  function WindowEnd(n: nat, start: nat, limit: int): (e: nat)
    requires start <= n
    ensures start <= e <= n
    ensures limit >= 0 ==> e - start <= limit
  {
    if limit < 0 || limit >= n - start then n else start + limit
  }

  /** `OFFSET offset LIMIT limit`, as SQLite reads a negative limit: no limit. */
  function Window<T>(xs: seq<T>, offset: int, limit: int): (r: seq<T>)
    ensures offset <= 0 && (limit < 0 || limit >= |xs|) ==> r == xs
    ensures limit >= 0 ==> |r| <= limit
    ensures limit >= 0 && |xs| >= WindowStart(|xs|, offset) + limit ==> |r| == limit
    ensures limit < 0 || |xs| < WindowStart(|xs|, offset) + limit ==> |r| == |xs| - WindowStart(|xs|, offset)
    ensures r <= xs[WindowStart(|xs|, offset)..]
  {
    var s := WindowStart(|xs|, offset);
    xs[s..WindowEnd(|xs|, s, limit)]
  }

  /** A window holds no row more often than the rows it was cut from. */
  lemma WindowMultiset<T>(xs: seq<T>, offset: int, limit: int)
    ensures multiset(Window(xs, offset, limit)) <= multiset(xs)
  {
    var s := WindowStart(|xs|, offset);
    var e := WindowEnd(|xs|, s, limit);
    assert xs == xs[..s] + xs[s..e] + xs[e..];
    assert multiset(xs) == multiset(xs[..s]) + multiset(xs[s..e]) + multiset(xs[e..]);
  }

  /** A window of sorted rows is sorted and holds only rows it was cut from. */
  lemma WindowSorted<T>(xs: seq<T>, key: T -> int, offset: int, limit: int)
    requires SortedDesc(xs, key)
    ensures SortedDesc(Window(xs, offset, limit), key)
    ensures forall y :: y in Window(xs, offset, limit) ==> y in xs
  {
    var s := WindowStart(|xs|, offset);
    var e := WindowEnd(|xs|, s, limit);
    var r := xs[s..e];
    assert Window(xs, offset, limit) == r;
    forall i, j | 0 <= i < j < |r| ensures key(r[i]) >= key(r[j]) {
      assert r[i] == xs[s + i] && r[j] == xs[s + j];
    }
    forall y | y in r ensures y in xs {
      var k :| 0 <= k < |r| && r[k] == y;
      assert xs[s + k] == y;
    }
  }

  /** Without an offset a window of sorted rows keeps the top rows: no dropped row has a higher key. */
  lemma WindowTop<T>(xs: seq<T>, key: T -> int, limit: int)
    requires SortedDesc(xs, key)
    ensures forall y, z :: y in Window(xs, 0, limit) && z in xs && z !in Window(xs, 0, limit) ==> key(z) <= key(y)
  {
    var r := Window(xs, 0, limit);
    assert r == xs[..|r|];
    assert forall k :: 0 <= k < |r| ==> xs[k] == r[k];
    forall y, z | y in r && z in xs && z !in r ensures key(z) <= key(y) {
      var i :| 0 <= i < |r| && r[i] == y;
      var j :| 0 <= j < |xs| && xs[j] == z;
      assert xs[i] == y;
    }
  }
}
