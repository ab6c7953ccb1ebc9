/** Python's `list.sort(key=...)` and `sorted(..., key=...)`: a STABLE sort by a key. Every key the
    core sorts by is an integer or a pair of integers compared lexicographically (a Python tuple),
    so keys are pairs here; a single integer key `k` is the pair `(k, 0)`. */
module Sorting {

  /** Python's `<=` on two-element tuples of integers. */
  predicate KeyLe(a: (int, int), b: (int, int)) {
    a.0 < b.0 || (a.0 == b.0 && a.1 <= b.1)
  }

  predicate KeyLt(a: (int, int), b: (int, int)) {
    !KeyLe(b, a)
  }

  predicate SortedBy<T>(s: seq<T>, key: T -> (int, int)) {
    forall i, j :: 0 <= i < j < |s| ==> KeyLe(key(s[i]), key(s[j]))
  }

  /** The elements of `s` whose key is `k`, in their order in `s`. A sort is stable exactly when
      it leaves every such subsequence as it was. */
  function WithKey<T>(s: seq<T>, key: T -> (int, int), k: (int, int)): (r: seq<T>)
    ensures |r| <= |s|
  {
    if s == [] then [] else (if key(s[0]) == k then [s[0]] else []) + WithKey(s[1..], key, k)
  }

  lemma {:induction false} WithKeyAppend<T>(a: seq<T>, b: seq<T>, key: T -> (int, int), k: (int, int))
    ensures WithKey(a + b, key, k) == WithKey(a, key, k) + WithKey(b, key, k)
  {
    if a == [] {
      assert a + b == b;
    } else {
      assert (a + b)[1..] == a[1..] + b;
      WithKeyAppend(a[1..], b, key, k);
    }
  }

  lemma {:induction false} WithKeyNone<T>(s: seq<T>, key: T -> (int, int), k: (int, int))
    requires forall i :: 0 <= i < |s| ==> KeyLt(k, key(s[i]))
    ensures WithKey(s, key, k) == []
  {
    if s != [] {
      WithKeyNone(s[1..], key, k);
    }
  }

  /** Inserts `x` in front of the first element whose key is strictly greater than `x`'s, so that
      `x` follows every element with an equal key. */
  function Insert<T>(x: T, s: seq<T>, key: T -> (int, int)): (r: seq<T>)
    ensures |r| == |s| + 1
    ensures multiset(r) == multiset(s) + multiset{x}
  {
    if s == [] || KeyLt(key(x), key(s[0])) then [x] + s
    else
      assert s == [s[0]] + s[1..];
      [s[0]] + Insert(x, s[1..], key)
  }

  /** The stable sort: insert the elements one after the other, left to right. */
  function SortBy<T>(s: seq<T>, key: T -> (int, int)): (r: seq<T>)
    ensures |r| == |s|
    ensures multiset(r) == multiset(s)
  {
    if s == [] then []
    else
      assert s == s[..|s| - 1] + [s[|s| - 1]];
      Insert(s[|s| - 1], SortBy(s[..|s| - 1], key), key)
  }

  lemma {:induction false} InsertSorted<T>(x: T, s: seq<T>, key: T -> (int, int))
    requires SortedBy(s, key)
    ensures SortedBy(Insert(x, s, key), key)
  {
    if s == [] || KeyLt(key(x), key(s[0])) {
    } else {
      var t := Insert(x, s[1..], key);
      InsertSorted(x, s[1..], key);
      assert Insert(x, s, key) == [s[0]] + t;
      forall j | 0 <= j < |t| ensures KeyLe(key(s[0]), key(t[j])) {
        assert t[j] in multiset(t);
        assert t[j] in multiset(s[1..]) || t[j] == x;
        if t[j] != x {
          var m :| 0 <= m < |s[1..]| && s[1..][m] == t[j];
          assert s[1 + m] == t[j];
        }
      }
    }
  }

  lemma {:induction false} InsertWithKey<T>(x: T, s: seq<T>, key: T -> (int, int), k: (int, int))
    requires SortedBy(s, key)
    ensures WithKey(Insert(x, s, key), key, k)
            == WithKey(s, key, k) + (if key(x) == k then [x] else [])
  {
    if s == [] {
    } else if KeyLt(key(x), key(s[0])) {
      assert Insert(x, s, key) == [x] + s;
      assert ([x] + s)[1..] == s;
      if key(x) == k {
        WithKeyNone(s, key, k);
      }
    } else {
      var t := Insert(x, s[1..], key);
      InsertWithKey(x, s[1..], key, k);
      assert Insert(x, s, key) == [s[0]] + t;
      assert ([s[0]] + t)[1..] == t;
    }
  }

  /** The sorted list is ordered by the key. */
  lemma {:induction false} SortBySorted<T>(s: seq<T>, key: T -> (int, int))
    ensures SortedBy(SortBy(s, key), key)
  {
    if s != [] {
      SortBySorted(s[..|s| - 1], key);
      InsertSorted(s[|s| - 1], SortBy(s[..|s| - 1], key), key);
    }
  }

  /** The sort is stable: the elements sharing any one key keep their relative order. */
  lemma {:induction false} SortByStable<T>(s: seq<T>, key: T -> (int, int), k: (int, int))
    ensures WithKey(SortBy(s, key), key, k) == WithKey(s, key, k)
  {
    if s != [] {
      var init, last := s[..|s| - 1], s[|s| - 1];
      SortByStep(s, key);
      SortByStable(init, key, k);
      SortBySorted(init, key);
      InsertWithKey(last, SortBy(init, key), key, k);
      WithKeyAppend(init, [last], key, k);
      WithKeySingle(last, key, k);
    }
  }

  /** The last element is inserted into the sorted rest. */
  lemma SortByStep<T>(s: seq<T>, key: T -> (int, int))
    requires s != []
    ensures s == s[..|s| - 1] + [s[|s| - 1]]
    ensures SortBy(s, key) == Insert(s[|s| - 1], SortBy(s[..|s| - 1], key), key)
  {
  }

  lemma WithKeySingle<T>(x: T, key: T -> (int, int), k: (int, int))
    ensures WithKey([x], key, k) == if key(x) == k then [x] else []
  {
    assert [x][1..] == [];
  }

  /** A list that is already sorted is left as it is. */
  lemma {:induction false} SortBySortedIsIdentity<T>(s: seq<T>, key: T -> (int, int))
    requires SortedBy(s, key)
    ensures SortBy(s, key) == s
  {
    if s != [] {
      var init, last := s[..|s| - 1], s[|s| - 1];
      SortByStep(s, key);
      assert SortedBy(init, key);
      SortBySortedIsIdentity(init, key);
      InsertAtEnd(last, init, key);
    }
  }

  lemma {:induction false} InsertAtEnd<T>(x: T, s: seq<T>, key: T -> (int, int))
    requires forall i :: 0 <= i < |s| ==> KeyLe(key(s[i]), key(x))
    ensures Insert(x, s, key) == s + [x]
  {
    if s != [] {
      InsertAtEnd(x, s[1..], key);
      assert s == [s[0]] + s[1..];
    }
  }

  /** Applies `f` to every element. */
  function MapSeq<T>(f: T -> T, s: seq<T>): (r: seq<T>)
    ensures |r| == |s|
    ensures forall i :: 0 <= i < |s| ==> r[i] == f(s[i])
  {
    if s == [] then [] else [f(s[0])] + MapSeq(f, s[1..])
  }

  lemma {:induction false} InsertMap<T>(f: T -> T, x: T, s: seq<T>, key: T -> (int, int))
    requires forall y :: key(f(y)) == key(y)
    ensures MapSeq(f, Insert(x, s, key)) == Insert(f(x), MapSeq(f, s), key)
  {
    if s == [] || KeyLt(key(x), key(s[0])) {
    } else {
      InsertMap(f, x, s[1..], key);
      assert MapSeq(f, s)[1..] == MapSeq(f, s[1..]);
    }
  }

  /** Changing the elements in a way the key cannot see commutes with sorting. */
  lemma {:induction false} SortByMap<T>(f: T -> T, s: seq<T>, key: T -> (int, int))
    requires forall y :: key(f(y)) == key(y)
    ensures MapSeq(f, SortBy(s, key)) == SortBy(MapSeq(f, s), key)
  {
    if s != [] {
      var init := s[..|s| - 1];
      var fs := MapSeq(f, s);
      SortByStep(s, key);
      SortByStep(fs, key);
      assert fs[..|s| - 1] == MapSeq(f, init);
      assert fs[|s| - 1] == f(s[|s| - 1]);
      SortByMap(f, init, key);
      InsertMap(f, s[|s| - 1], SortBy(init, key), key);
    }
  }

  /** Every element of a rearrangement occurs in the original. */
  lemma PermutationMember<T>(u: seq<T>, v: seq<T>, k: int) returns (m: int)
    requires multiset(u) == multiset(v) && 0 <= k < |u|
    ensures 0 <= m < |v| && v[m] == u[k]
  {
    assert u[k] in multiset(v);
    assert u[k] in v;
    m :| 0 <= m < |v| && v[m] == u[k];
  }

  lemma MultisetTwoOccurrences<T>(s: seq<T>, i: int, j: int)
    requires 0 <= i < j < |s| && s[i] == s[j]
    ensures multiset(s)[s[i]] >= 2
  {
    assert s == s[..i] + [s[i]] + s[i + 1..j] + [s[j]] + s[j + 1..];
  }

  lemma MultisetOneOccurrence<T>(s: seq<T>, a: int)
    requires 0 <= a < |s|
    requires forall b :: 0 <= b < |s| && b != a ==> s[b] != s[a]
    ensures multiset(s)[s[a]] == 1
  {
    assert s == s[..a] + [s[a]] + s[a + 1..];
    assert s[a] !in multiset(s[..a]);
    assert s[a] !in multiset(s[a + 1..]);
  }

  /** A rearrangement of a list whose elements have pairwise different keys has pairwise
      different keys too. */
  lemma PermutationKeepsDistinctBy<T, K>(u: seq<T>, v: seq<T>, key: T -> K)
    requires multiset(u) == multiset(v)
    requires forall i, j :: 0 <= i < j < |v| ==> key(v[i]) != key(v[j])
    ensures forall i, j :: 0 <= i < j < |u| ==> key(u[i]) != key(u[j])
  {
    forall i, j | 0 <= i < j < |u| ensures key(u[i]) != key(u[j]) {
      var a := PermutationMember(u, v, i);
      var b := PermutationMember(u, v, j);
      if a == b {
        forall c | 0 <= c < |v| && c != a ensures v[c] != v[a] {
          assert key(v[c]) != key(v[a]) by {
            if c < a { } else { }
          }
        }
        MultisetOneOccurrence(v, a);
        MultisetTwoOccurrences(u, i, j);
      } else if a < b {
      } else {
      }
    }
  }
}
