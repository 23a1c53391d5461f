/**
 * Sequence operations shared by the store and the client lists:
 * `Array.prototype.filter`, string concatenation of a list of chunks,
 * and the stable ordering a query's `orderBy` produces.
 */
module Seqs {

  /** `s.filter(p)`: the elements satisfying `p`, in their original order. */
  function Filter<T(!new)>(s: seq<T>, p: T -> bool): (r: seq<T>)
    ensures |r| <= |s|
    ensures forall x :: x in r <==> x in s && p(x)
  {
    if |s| == 0 then []
    else if p(s[0]) then [s[0]] + Filter(s[1..], p)
    else Filter(s[1..], p)
  }

  /** Filtering distributes over concatenation, which is what "in their original order" means. */
  lemma {:induction false} FilterAppend<T(!new)>(s: seq<T>, t: seq<T>, p: T -> bool)
    ensures Filter(s + t, p) == Filter(s, p) + Filter(t, p)
  {
    if |s| == 0 {
      assert s + t == t;
    } else {
      var st := s + t;
      assert st[0] == s[0] && st[1..] == s[1..] + t;
      FilterAppend(s[1..], t, p);
      if p(s[0]) {
        assert Filter(st, p) == [s[0]] + Filter(st[1..], p);
        assert Filter(s, p) == [s[0]] + Filter(s[1..], p);
      } else {
        assert Filter(st, p) == Filter(st[1..], p);
        assert Filter(s, p) == Filter(s[1..], p);
      }
    }
  }

  /** Filtering with a predicate every element meets changes nothing. */
  lemma {:induction false} FilterKeepsAll<T(!new)>(s: seq<T>, p: T -> bool)
    requires forall i :: 0 <= i < |s| ==> p(s[i])
    ensures Filter(s, p) == s
  {
    if |s| > 0 {
      FilterKeepsAll(s[1..], p);
    }
  }

  /** Filtering with a predicate no element meets leaves nothing. */
  lemma {:induction false} FilterNone<T(!new)>(s: seq<T>, p: T -> bool)
    requires forall i :: 0 <= i < |s| ==> !p(s[i])
    ensures Filter(s, p) == []
  {
    if |s| > 0 {
      FilterNone(s[1..], p);
    }
  }

  /** No two positions of `s` share a key. */
  predicate DistinctBy<T, K(==)>(s: seq<T>, key: T -> K) {
    forall i, j :: 0 <= i < j < |s| ==> key(s[i]) != key(s[j])
  }

  lemma {:induction false} FilterDistinct<T(!new), K>(s: seq<T>, p: T -> bool, key: T -> K)
    requires DistinctBy(s, key)
    ensures DistinctBy(Filter(s, p), key)
  {
    if |s| > 0 {
      assert DistinctBy(s[1..], key) by {
        forall i, j | 0 <= i < j < |s| - 1 ensures key(s[1..][i]) != key(s[1..][j]) {
          assert s[1..][i] == s[i + 1] && s[1..][j] == s[j + 1];
        }
      }
      FilterDistinct(s[1..], p, key);
      var r := Filter(s[1..], p);
      if p(s[0]) {
        forall x | x in r ensures key(x) != key(s[0]) {
          var j :| 0 <= j < |s[1..]| && s[1..][j] == x;
          assert s[j + 1] == x;
        }
        forall i, j | 0 <= i < j < |r| + 1 ensures key(([s[0]] + r)[i]) != key(([s[0]] + r)[j]) {
          if i == 0 {
            assert ([s[0]] + r)[j] == r[j - 1];
            assert r[j - 1] in r;
          } else {
            assert ([s[0]] + r)[i] == r[i - 1] && ([s[0]] + r)[j] == r[j - 1];
          }
        }
      }
    }
  }

  /** Appending an element whose key is new keeps the keys distinct. */
  lemma AppendDistinct<T, K>(s: seq<T>, x: T, key: T -> K)
    requires DistinctBy(s, key)
    requires forall y :: y in s ==> key(y) != key(x)
    ensures DistinctBy(s + [x], key)
  {
    forall i, j | 0 <= i < j < |s| + 1 ensures key((s + [x])[i]) != key((s + [x])[j]) {
      assert (s + [x])[i] == s[i];
      if j < |s| { assert (s + [x])[j] == s[j]; } else { assert s[i] in s; }
    }
  }

  /** The in-order concatenation of a list of strings (`+=` over every chunk). */
  function Concat(chunks: seq<string>): string {
    if |chunks| == 0 then "" else chunks[0] + Concat(chunks[1..])
  }

  lemma {:induction false} ConcatAppend(a: seq<string>, b: seq<string>)
    ensures Concat(a + b) == Concat(a) + Concat(b)
  {
    if |a| == 0 {
      assert a + b == b;
    } else {
      ConcatAppend(a[1..], b);
      assert (a + b)[0] == a[0] && (a + b)[1..] == a[1..] + b;
      calc {
        Concat(a + b);
        a[0] + Concat(a[1..] + b);
        a[0] + (Concat(a[1..]) + Concat(b));
        (a[0] + Concat(a[1..])) + Concat(b);
      }
    }
  }

  /** A non-empty tail splits into its front and its last element, after any prefix. */
  lemma AppendSplitLast<T>(c: seq<T>, l: seq<T>)
    requires |l| >= 1
    ensures c + l == (c + l[..|l| - 1]) + [l[|l| - 1]]
  {
    assert l == l[..|l| - 1] + [l[|l| - 1]];
  }

  /** The prefix one longer is the prefix with the next element. */
  lemma TakeSnoc<T>(s: seq<T>, k: int)
    requires 0 <= k < |s|
    ensures s[..k + 1] == s[..k] + [s[k]]
  {
  }

  /** Two single appends in a row append both elements. */
  lemma SnocTwice<T>(s: seq<T>, s1: seq<T>, s2: seq<T>, x: T, y: T)
    requires s1 == s + [x] && s2 == s1 + [y]
    ensures s2 == s + [x, y]
  {
  }

  /** Adding one chunk at the end adds its text at the end. */
  lemma ConcatSnoc(chunks: seq<string>, last: string)
    ensures Concat(chunks + [last]) == Concat(chunks) + last
  {
    ConcatAppend(chunks, [last]);
    assert Concat([last]) == last + Concat([]);
  }

  /** `s` is in non-decreasing order of `key`. */
  predicate SortedBy<T>(s: seq<T>, key: T -> int) {
    forall i, j :: 0 <= i < j < |s| ==> key(s[i]) <= key(s[j])
  }

  /** Places `x` in front of the first element whose key is not smaller than its own. */
  function InsertByKey<T>(x: T, s: seq<T>, key: T -> int): seq<T> {
    if |s| == 0 || key(x) <= key(s[0]) then [x] + s
    else [s[0]] + InsertByKey(x, s[1..], key)
  }

  /**
   * The order of `ORDER BY key ASC`; rows with the same key keep their
   * storage order (the engine's tie order, taken to be insertion order).
   */
  function SortBy<T>(s: seq<T>, key: T -> int): seq<T> {
    if |s| == 0 then [] else InsertByKey(s[0], SortBy(s[1..], key), key)
  }

  lemma {:induction false} InsertByKeyBound<T>(x: T, s: seq<T>, key: T -> int, lo: int)
    requires lo <= key(x)
    requires forall i :: 0 <= i < |s| ==> lo <= key(s[i])
    ensures forall i :: 0 <= i < |InsertByKey(x, s, key)| ==> lo <= key(InsertByKey(x, s, key)[i])
  {
    if |s| > 0 && key(x) > key(s[0]) {
      InsertByKeyBound(x, s[1..], key, lo);
    }
  }

  lemma {:induction false} InsertByKeySorted<T>(x: T, s: seq<T>, key: T -> int)
    requires SortedBy(s, key)
    ensures SortedBy(InsertByKey(x, s, key), key)
  {
    if |s| > 0 && key(x) > key(s[0]) {
      InsertByKeySorted(x, s[1..], key);
      InsertByKeyBound(x, s[1..], key, key(s[0]));
      var r := InsertByKey(x, s[1..], key);
      forall i, j | 0 <= i < j < |r| + 1 ensures key(([s[0]] + r)[i]) <= key(([s[0]] + r)[j]) {
        if i == 0 {
          assert ([s[0]] + r)[j] == r[j - 1];
        } else {
          assert ([s[0]] + r)[i] == r[i - 1] && ([s[0]] + r)[j] == r[j - 1];
        }
      }
    }
  }

  lemma {:induction false} InsertByKeyPermutes<T>(x: T, s: seq<T>, key: T -> int)
    ensures multiset(InsertByKey(x, s, key)) == multiset(s) + multiset{x}
  {
    if |s| > 0 && key(x) > key(s[0]) {
      InsertByKeyPermutes(x, s[1..], key);
      assert s == [s[0]] + s[1..];
    }
  }

  /** The ordered result is sorted and holds exactly the same rows. */
  lemma {:induction false} SortBySortsAndPermutes<T>(s: seq<T>, key: T -> int)
    ensures SortedBy(SortBy(s, key), key)
    ensures multiset(SortBy(s, key)) == multiset(s)
  {
    if |s| > 0 {
      SortBySortsAndPermutes(s[1..], key);
      InsertByKeySorted(s[0], SortBy(s[1..], key), key);
      InsertByKeyPermutes(s[0], SortBy(s[1..], key), key);
      assert s == [s[0]] + s[1..];
    }
  }

  /** Rows already in key order come back unchanged. */
  lemma {:induction false} SortByKeepsSorted<T>(s: seq<T>, key: T -> int)
    requires SortedBy(s, key)
    ensures SortBy(s, key) == s
  {
    if |s| > 0 {
      SortByKeepsSorted(s[1..], key);
      assert s == [s[0]] + s[1..];
    }
  }

  /** The elements whose key is `k`. */
  function KeyIs<T>(key: T -> int, k: int): T -> bool {
    y => key(y) == k
  }

  lemma {:induction false} InsertByKeyStable<T(!new)>(x: T, s: seq<T>, key: T -> int, k: int)
    ensures Filter(InsertByKey(x, s, key), KeyIs(key, k))
         == (if key(x) == k then [x] else []) + Filter(s, KeyIs(key, k))
  {
    if |s| == 0 || key(x) <= key(s[0]) {
      assert ([x] + s)[1..] == s;
    } else {
      InsertByKeyStable(x, s[1..], key, k);
      var r := InsertByKey(x, s[1..], key);
      assert ([s[0]] + r)[1..] == r;
    }
  }

  /**
   * Stability: for every key value, the rows carrying it appear in the
   * ordered result in the same relative order as in the input.
   */
  lemma {:induction false} SortByStable<T(!new)>(s: seq<T>, key: T -> int, k: int)
    ensures Filter(SortBy(s, key), KeyIs(key, k)) == Filter(s, KeyIs(key, k))
  {
    if |s| > 0 {
      SortByStable(s[1..], key, k);
      InsertByKeyStable(s[0], SortBy(s[1..], key), key, k);
    }
  }
}
