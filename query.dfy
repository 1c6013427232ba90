/**
 * The relational building blocks the dashboard queries are made of, stated over
 * finite sequences of rows: WHERE (Filter), SUM (Sum), ORDER BY ... DESC (SortDesc)
 * and ORDER BY ... DESC LIMIT n (Top).
 */
module Query {

  function Min(a: int, b: int): int
  {
    if a <= b then a else b
  }

  /** SUM(f) over the rows of `s`, with the COALESCE(..., 0) default on no rows. */
  function Sum<T>(s: seq<T>, f: T -> int): int
  {
    if |s| == 0 then 0 else f(s[0]) + Sum(s[1..], f)
  }

  /** WHERE p: the rows of `s` that satisfy `p`, in their original order. */
  function Filter<T>(s: seq<T>, p: T -> bool): (r: seq<T>)
    ensures |r| <= |s|
  {
    if |s| == 0 then [] else (if p(s[0]) then [s[0]] else []) + Filter(s[1..], p)
  }

  /** A row is kept exactly when it is a row of `s` that satisfies `p`. */
  lemma {:induction false} FilterMember<T>(s: seq<T>, p: T -> bool, x: T)
    ensures x in Filter(s, p) <==> x in s && p(x)
  {
    if s != [] {
      FilterMember(s[1..], p, x);
      assert x in s <==> x == s[0] || x in s[1..];
    }
  }

  /** The term a row contributes to a sum over a filter: f on the rows p keeps, 0 elsewhere. */
  function Guarded<T>(p: T -> bool, f: T -> int): T -> int
  {
    (x: T) => if p(x) then f(x) else 0
  }

  /** The term COUNT(*) adds for every row. */
  function One<T>(x: T): int
  {
    1
  }

  /** COUNT(*) under WHERE p: the filter keeps as many rows as there are rows satisfying `p`. */
  lemma {:induction false} FilterCount<T>(s: seq<T>, p: T -> bool)
    ensures |Filter(s, p)| == Sum(s, Guarded(p, One))
  {
    if |s| > 0 {
      FilterCount(s[1..], p);
    }
  }

  lemma {:induction false} SumAppend<T>(a: seq<T>, b: seq<T>, f: T -> int)
    ensures Sum(a + b, f) == Sum(a, f) + Sum(b, f)
  {
    if a == [] {
      assert a + b == b;
    } else {
      assert (a + b)[1..] == a[1..] + b;
      SumAppend(a[1..], b, f);
    }
  }

  /** Summing over the filtered rows is summing the guarded term over all rows. */
  lemma {:induction false} SumFilter<T>(s: seq<T>, p: T -> bool, f: T -> int)
    ensures Sum(Filter(s, p), f) == Sum(s, Guarded(p, f))
  {
    if s != [] {
      SumFilter(s[1..], p, f);
      SumAppend(if p(s[0]) then [s[0]] else [], Filter(s[1..], p), f);
    }
  }

  /** Summing over a filter of a filter is summing the doubly guarded term. */
  lemma NestedFilterSum<T>(s: seq<T>, p: T -> bool, q: T -> bool, f: T -> int)
    ensures Sum(Filter(Filter(s, p), q), f) == Sum(s, Guarded(p, Guarded(q, f)))
  {
    SumFilter(Filter(s, p), q, f);
    SumFilter(s, p, Guarded(q, f));
  }

  /** Two terms that agree on every row give the same sum. */
  lemma {:induction false} SumCongruent<T>(s: seq<T>, f: T -> int, g: T -> int)
    requires forall x :: x in s ==> f(x) == g(x)
    ensures Sum(s, f) == Sum(s, g)
  {
    if s != [] {
      SumCongruent(s[1..], f, g);
    }
  }

  /** A sum of terms that are all zero is zero. */
  lemma {:induction false} SumOfZeros<T>(s: seq<T>, f: T -> int)
    requires forall x :: x in s ==> f(x) == 0
    ensures Sum(s, f) == 0
  {
    if s != [] {
      SumOfZeros(s[1..], f);
    }
  }

  /** A sum of non-negative terms is non-negative. */
  lemma {:induction false} SumNonNegative<T>(s: seq<T>, f: T -> int)
    requires forall x :: x in s ==> f(x) >= 0
    ensures Sum(s, f) >= 0
  {
    if s != [] {
      SumNonNegative(s[1..], f);
    }
  }

  /** A filter that no row passes keeps nothing, so its sum is the default 0. */
  lemma NoMatch<T>(s: seq<T>, p: T -> bool, f: T -> int)
    requires forall x :: x in s ==> !p(x)
    ensures Filter(s, p) == [] && Sum(Filter(s, p), f) == 0
  {
    if Filter(s, p) != [] {
      FilterMember(s, p, Filter(s, p)[0]);
    }
  }

  /** A filter that every row passes keeps the rows as they are. */
  lemma {:induction false} FilterKeepsAll<T>(s: seq<T>, p: T -> bool)
    requires forall i :: 0 <= i < |s| ==> p(s[i])
    ensures Filter(s, p) == s
  {
    if s != [] {
      FilterKeepsAll(s[1..], p);
      assert s == [s[0]] + s[1..];
    }
  }

  /** Rows in non-increasing order of `key`. */
  ghost predicate Descending<T>(s: seq<T>, key: T -> int)
  {
    forall i, j :: 0 <= i < j < |s| ==> key(s[i]) >= key(s[j])
  }

  /** Puts `x` before the first row whose key does not exceed its own. */
  function Insert<T>(x: T, s: seq<T>, key: T -> int): (r: seq<T>)
    ensures |r| == |s| + 1
    ensures multiset(r) == multiset(s) + multiset{x}
  {
    if |s| == 0 || key(x) >= key(s[0]) then [x] + s
    else
      assert s == [s[0]] + s[1..];
      [s[0]] + Insert(x, s[1..], key)
  }

  /** Inserting a row into rows whose keys are all at most `c` keeps every key at most `c`. */
  lemma {:induction false} InsertBounded<T>(x: T, s: seq<T>, key: T -> int, c: int, k: int)
    requires key(x) <= c
    requires forall i :: 0 <= i < |s| ==> key(s[i]) <= c
    requires 0 <= k < |Insert(x, s, key)|
    ensures key(Insert(x, s, key)[k]) <= c
  {
    if |s| == 0 || key(x) >= key(s[0]) {
      if k > 0 {
        assert Insert(x, s, key)[k] == s[k - 1];
      }
    } else if k > 0 {
      InsertBounded(x, s[1..], key, c, k - 1);
      assert Insert(x, s, key)[k] == Insert(x, s[1..], key)[k - 1];
    }
  }

  lemma {:induction false} InsertDescending<T>(x: T, s: seq<T>, key: T -> int)
    requires Descending(s, key)
    ensures Descending(Insert(x, s, key), key)
  {
    if |s| > 0 && key(x) < key(s[0]) {
      var rest := Insert(x, s[1..], key);
      InsertDescending(x, s[1..], key);
      var r := [s[0]] + rest;
      forall i, j | 0 <= i < j < |r|
        ensures key(r[i]) >= key(r[j])
      {
        assert r[j] == rest[j - 1];
        if i > 0 {
          assert r[i] == rest[i - 1];
        } else {
          InsertBounded(x, s[1..], key, key(s[0]), j - 1);
        }
      }
    }
  }

  /** ORDER BY key DESC: an insertion sort. */
  function SortDesc<T>(s: seq<T>, key: T -> int): (r: seq<T>)
    ensures multiset(r) == multiset(s)
    ensures |r| == |s|
  {
    if s == [] then []
    else
      assert s == [s[0]] + s[1..];
      Insert(s[0], SortDesc(s[1..], key), key)
  }

  lemma {:induction false} SortDescDescending<T>(s: seq<T>, key: T -> int)
    ensures Descending(SortDesc(s, key), key)
  {
    if s != [] {
      SortDescDescending(s[1..], key);
      InsertDescending(s[0], SortDesc(s[1..], key), key);
    }
  }

  /** ORDER BY key DESC LIMIT n. */
  function Top<T>(s: seq<T>, key: T -> int, n: nat): seq<T>
  {
    SortDesc(s, key)[..Min(n, |s|)]
  }

  /**
   * The first n rows by descending key: as many rows as there are (at most n),
   * taken from `s`, in non-increasing key order.
   */
  lemma TopSpec<T>(s: seq<T>, key: T -> int, n: nat)
    ensures |Top(s, key, n)| == Min(n, |s|)
    ensures Descending(Top(s, key, n), key)
    ensures multiset(Top(s, key, n)) <= multiset(s)
  {
    var sorted := SortDesc(s, key);
    SortDescDescending(s, key);
    assert sorted == Top(s, key, n) + sorted[Min(n, |s|)..];
  }

  /** No row left out of the first n has a key above a row kept. */
  lemma TopKeepsLargest<T>(s: seq<T>, key: T -> int, n: nat, x: T, y: T)
    requires x in multiset(s) - multiset(Top(s, key, n))
    requires y in Top(s, key, n)
    ensures key(x) <= key(y)
  {
    var sorted := SortDesc(s, key);
    var k := Min(n, |s|);
    var top, rest := sorted[..k], sorted[k..];
    SortDescDescending(s, key);
    assert sorted == top + rest;
    assert multiset(s) == multiset(top) + multiset(rest);
    assert x in multiset(rest);
    var j :| 0 <= j < |rest| && rest[j] == x;
    var i :| 0 <= i < |top| && top[i] == y;
    assert sorted[i] == y && sorted[k + j] == x;
  }
}
