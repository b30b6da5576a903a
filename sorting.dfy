/**
 * Python's `sorted(xs, key=k)` and `sorted(xs, key=k, reverse=True)`.
 * Both are stable: elements with equal keys keep their input order, also
 * with `reverse=True`.  A descending sort is therefore the ascending stable
 * sort on the negated key.  The sort is a builtin call in the source, so it
 * is modelled as a pure function (an insertion sort) plus lemmas.
 */
module Sorting {

  /** Inserts `x` before the first element whose key is not smaller. */
  function Insert<T>(x: T, s: seq<T>, key: T -> real): seq<T>
  {
    if s == [] then [x]
    else if key(x) <= key(s[0]) then [x] + s
    else [s[0]] + Insert(x, s[1..], key)
  }

  function StableSort<T>(s: seq<T>, key: T -> real): seq<T>
  {
    if s == [] then [] else Insert(s[0], StableSort(s[1..], key), key)
  }

  ghost predicate SortedBy<T>(s: seq<T>, key: T -> real)
  {
    forall i, j :: 0 <= i < j < |s| ==> key(s[i]) <= key(s[j])
  }

  /** The elements of `s` whose key is `k`, in their order in `s`. */
  function KeyClass<T>(s: seq<T>, key: T -> real, k: real): seq<T>
  {
    if s == [] then []
    else (if key(s[0]) == k then [s[0]] else []) + KeyClass(s[1..], key, k)
  }

  /** How many elements of `s` satisfy `p`. */
  function CountWhere<T>(s: seq<T>, p: T -> bool): nat
  {
    if s == [] then 0 else (if p(s[0]) then 1 else 0) + CountWhere(s[1..], p)
  }

  /** No two positions of `s` carry the same `name`. */
  ghost predicate DistinctBy<T, U>(s: seq<T>, name: T -> U)
  {
    forall i, j :: 0 <= i < |s| && 0 <= j < |s| && i != j ==> name(s[i]) != name(s[j])
  }

  lemma {:induction false} InsertFacts<T>(x: T, s: seq<T>, key: T -> real)
    ensures |Insert(x, s, key)| == |s| + 1
    ensures multiset(Insert(x, s, key)) == multiset(s) + multiset{x}
    decreases |s|
  {
    if s != [] && key(s[0]) < key(x) {
      InsertFacts(x, s[1..], key);
      assert s == [s[0]] + s[1..];
    }
  }

  lemma SortedCons<T>(h: T, r: seq<T>, key: T -> real)
    requires SortedBy(r, key)
    requires forall y | y in r :: key(h) <= key(y)
    ensures SortedBy([h] + r, key)
  {
    forall i, j | 0 <= i < j < |[h] + r|
      ensures key(([h] + r)[i]) <= key(([h] + r)[j])
    {
      assert ([h] + r)[j] == r[j - 1];
      if i == 0 {
        assert r[j - 1] in r;
      } else {
        assert ([h] + r)[i] == r[i - 1];
      }
    }
  }

  lemma SortedTail<T>(s: seq<T>, key: T -> real)
    requires s != [] && SortedBy(s, key)
    ensures SortedBy(s[1..], key)
    ensures forall y | y in s[1..] :: key(s[0]) <= key(y)
  {
    forall i, j | 0 <= i < j < |s[1..]| ensures key(s[1..][i]) <= key(s[1..][j]) {
      assert s[1..][i] == s[i + 1] && s[1..][j] == s[j + 1];
    }
    forall y | y in s[1..] ensures key(s[0]) <= key(y) {
      var m :| 0 <= m < |s[1..]| && s[1..][m] == y;
      assert s[m + 1] == y;
    }
  }

  lemma {:induction false} InsertSorted<T>(x: T, s: seq<T>, key: T -> real)
    requires SortedBy(s, key)
    ensures SortedBy(Insert(x, s, key), key)
    decreases |s|
  {
    if s == [] {
    } else if key(x) <= key(s[0]) {
      SortedTail(s, key);
      forall y | y in s ensures key(x) <= key(y) {
        if y != s[0] { assert y in s[1..]; }
      }
      SortedCons(x, s, key);
    } else {
      var r := Insert(x, s[1..], key);
      SortedTail(s, key);
      InsertSorted(x, s[1..], key);
      InsertFacts(x, s[1..], key);
      forall y | y in r ensures key(s[0]) <= key(y) {
        assert y in multiset(r);
        if y != x {
          assert y in multiset(s[1..]);
        }
      }
      SortedCons(s[0], r, key);
    }
  }

  lemma {:induction false} InsertKeyClass<T>(x: T, s: seq<T>, key: T -> real, k: real)
    ensures KeyClass(Insert(x, s, key), key, k)
         == (if key(x) == k then [x] else []) + KeyClass(s, key, k)
    decreases |s|
  {
    if s != [] && key(s[0]) < key(x) {
      InsertKeyClass(x, s[1..], key, k);
      assert ([s[0]] + Insert(x, s[1..], key))[1..] == Insert(x, s[1..], key);
    } else if s != [] {
      assert ([x] + s)[1..] == s;
    }
  }

  lemma {:induction false} InsertCount<T>(x: T, s: seq<T>, key: T -> real, p: T -> bool)
    ensures CountWhere(Insert(x, s, key), p) == (if p(x) then 1 else 0) + CountWhere(s, p)
    decreases |s|
  {
    if s != [] && key(s[0]) < key(x) {
      InsertCount(x, s[1..], key, p);
      assert ([s[0]] + Insert(x, s[1..], key))[1..] == Insert(x, s[1..], key);
    } else if s != [] {
      assert ([x] + s)[1..] == s;
    }
  }

  /** The sort returns an ordered permutation of its input. */
  lemma {:induction false} StableSortPermutes<T>(s: seq<T>, key: T -> real)
    ensures |StableSort(s, key)| == |s|
    ensures multiset(StableSort(s, key)) == multiset(s)
  {
    if s != [] {
      StableSortPermutes(s[1..], key);
      InsertFacts(s[0], StableSort(s[1..], key), key);
      assert s == [s[0]] + s[1..];
      assert multiset(s) == multiset{s[0]} + multiset(s[1..]);
    }
  }

  lemma {:induction false} StableSortOrdered<T>(s: seq<T>, key: T -> real)
    ensures SortedBy(StableSort(s, key), key)
  {
    if s != [] {
      StableSortOrdered(s[1..], key);
      InsertSorted(s[0], StableSort(s[1..], key), key);
    }
  }

  lemma StableSortSorted<T>(s: seq<T>, key: T -> real)
    ensures |StableSort(s, key)| == |s|
    ensures multiset(StableSort(s, key)) == multiset(s)
    ensures SortedBy(StableSort(s, key), key)
  {
    StableSortPermutes(s, key);
    StableSortOrdered(s, key);
  }


  /** Stability: among equal keys the input order is kept. */
  lemma {:induction false} StableSortStable<T>(s: seq<T>, key: T -> real, k: real)
    ensures KeyClass(StableSort(s, key), key, k) == KeyClass(s, key, k)
  {
    if s != [] {
      StableSortStable(s[1..], key, k);
      InsertKeyClass(s[0], StableSort(s[1..], key), key, k);
    }
  }

  /** Counting the elements that satisfy a predicate ignores the order. */
  lemma {:induction false} StableSortCount<T>(s: seq<T>, key: T -> real, p: T -> bool)
    ensures CountWhere(StableSort(s, key), p) == CountWhere(s, p)
  {
    if s != [] {
      StableSortCount(s[1..], key, p);
      InsertCount(s[0], StableSort(s[1..], key), key, p);
    }
  }

  /** Distinct names stay distinct, since the result is a permutation. */
  lemma {:induction false} StableSortDistinct<T, U>(s: seq<T>, key: T -> real, name: T -> U)
    requires DistinctBy(s, name)
    ensures DistinctBy(StableSort(s, key), name)
  {
    if s != [] {
      assert s == [s[0]] + s[1..];
      var t := StableSort(s[1..], key);
      assert DistinctBy(s[1..], name) by {
        forall i, j | 0 <= i < |s[1..]| && 0 <= j < |s[1..]| && i != j
          ensures name(s[1..][i]) != name(s[1..][j])
        {
          assert s[1..][i] == s[i + 1] && s[1..][j] == s[j + 1];
        }
      }
      StableSortDistinct(s[1..], key, name);
      StableSortSorted(s[1..], key);
      forall y | y in t ensures name(y) != name(s[0]) {
        assert y in multiset(s[1..]);
        var m :| 0 <= m < |s[1..]| && s[1..][m] == y;
        assert s[m + 1] == y;
      }
      InsertDistinct(s[0], t, key, name);
    }
  }

  lemma {:induction false} InsertDistinct<T, U>(x: T, s: seq<T>, key: T -> real, name: T -> U)
    requires DistinctBy(s, name)
    requires forall y | y in s :: name(y) != name(x)
    ensures DistinctBy(Insert(x, s, key), name)
    decreases |s|
  {
    if s != [] && key(s[0]) < key(x) {
      assert DistinctBy(s[1..], name) by {
        forall i, j | 0 <= i < |s[1..]| && 0 <= j < |s[1..]| && i != j
          ensures name(s[1..][i]) != name(s[1..][j])
        {
          assert s[1..][i] == s[i + 1] && s[1..][j] == s[j + 1];
        }
      }
      forall y | y in s[1..] ensures name(y) != name(x) {
        assert y in s;
      }
      InsertDistinct(x, s[1..], key, name);
      InsertFacts(x, s[1..], key);
      var r := Insert(x, s[1..], key);
      forall y | y in r ensures name(y) != name(s[0]) {
        assert y in multiset(r);
        if y != x {
          assert y in multiset(s[1..]);
          var m :| 0 <= m < |s[1..]| && s[1..][m] == y;
          assert s[m + 1] == y;
        } else {
          assert s[0] in s;
        }
      }
      forall i, j | 0 <= i < |[s[0]] + r| && 0 <= j < |[s[0]] + r| && i != j
        ensures name(([s[0]] + r)[i]) != name(([s[0]] + r)[j])
      {
        if i == 0 { assert r[j - 1] in r; }
        else if j == 0 { assert r[i - 1] in r; }
      }
    } else if s != [] {
      forall i, j | 0 <= i < |[x] + s| && 0 <= j < |[x] + s| && i != j
        ensures name(([x] + s)[i]) != name(([x] + s)[j])
      {
        if i == 0 { assert s[j - 1] in s; }
        else if j == 0 { assert s[i - 1] in s; }
      }
    }
  }

  lemma {:induction false} CountWhereAppend<T>(s: seq<T>, t: seq<T>, p: T -> bool)
    ensures CountWhere(s + t, p) == CountWhere(s, p) + CountWhere(t, p)
  {
    if s != [] {
      CountWhereAppend(s[1..], t, p);
      assert (s + t)[1..] == s[1..] + t;
    } else {
      assert s + t == t;
    }
  }

  /** Predicates that agree on the elements count the same. */
  lemma {:induction false} CountWhereCongruent<T>(s: seq<T>, p: T -> bool, q: T -> bool)
    requires forall x | x in s :: p(x) == q(x)
    ensures CountWhere(s, p) == CountWhere(s, q)
  {
    if s != [] {
      assert forall x | x in s[1..] :: x in s;
      CountWhereCongruent(s[1..], p, q);
    }
  }

  /** A distinct sequence holds each value at most once. */
  lemma {:induction false} DistinctByOnce<T, U>(s: seq<T>, name: T -> U, x: T)
    requires DistinctBy(s, name)
    ensures multiset(s)[x] <= 1
  {
    if s != [] {
      assert s == [s[0]] + s[1..];
      assert DistinctBy(s[1..], name) by {
        forall i, j | 0 <= i < |s[1..]| && 0 <= j < |s[1..]| && i != j
          ensures name(s[1..][i]) != name(s[1..][j])
        {
          assert s[1..][i] == s[i + 1] && s[1..][j] == s[j + 1];
        }
      }
      DistinctByOnce(s[1..], name, x);
      if s[0] == x {
        assert x !in s[1..] by {
          forall i | 0 <= i < |s[1..]| ensures s[1..][i] != x {
            assert s[1..][i] == s[i + 1];
          }
        }
      }
    }
  }

  /** Distinctness by name carries over to any permutation. */
  lemma DistinctByPermutation<T, U>(a: seq<T>, b: seq<T>, name: T -> U)
    requires multiset(a) == multiset(b) && DistinctBy(b, name)
    ensures DistinctBy(a, name)
  {
    forall i, j | 0 <= i < |a| && 0 <= j < |a| && i < j ensures name(a[i]) != name(a[j]) {
      if a[i] == a[j] {
        assert a == a[..j] + a[j..];
        assert a[i] in multiset(a[..j]);
        assert a[j] in multiset(a[j..]);
        DistinctByOnce(b, name, a[i]);
      } else {
        assert a[i] in multiset(b) && a[j] in multiset(b);
      }
    }
  }

  /** Counting under a predicate that is the disjoint union of two others. */
  lemma {:induction false} CountWhereSplit<T>(s: seq<T>, r: T -> bool, p: T -> bool, q: T -> bool)
    requires forall x | x in s :: r(x) == (p(x) || q(x)) && !(p(x) && q(x))
    ensures CountWhere(s, r) == CountWhere(s, p) + CountWhere(s, q)
  {
    if s != [] {
      assert forall x | x in s[1..] :: x in s;
      CountWhereSplit(s[1..], r, p, q);
    }
  }
}
