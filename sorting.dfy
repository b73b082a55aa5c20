/** Python's stable `list.sort(key=...)` on string and string-pair keys, as used by
    `dedup_and_sort`, `normalize_messages` and the dataset merge. Strings compare by code
    point, pairs lexicographically. */
module Sorting {
  import opened Seqs

  /** Python's `a <= b` on strings: lexicographic by code point. */
  predicate StrLe(a: string, b: string)
    decreases |a|
  {
    if a == [] then true
    else if b == [] then false
    else if a[0] != b[0] then a[0] < b[0]
    else StrLe(a[1..], b[1..])
  }

  lemma {:induction false} StrLeTotal(a: string, b: string)
    ensures StrLe(a, b) || StrLe(b, a)
    decreases |a|
  {
    if a != [] && b != [] && a[0] == b[0] {
      StrLeTotal(a[1..], b[1..]);
    }
  }

  lemma {:induction false} StrLeRefl(a: string)
    ensures StrLe(a, a)
    decreases |a|
  {
    if a != [] {
      StrLeRefl(a[1..]);
    }
  }

  lemma {:induction false} StrLeTrans(a: string, b: string, c: string)
    requires StrLe(a, b) && StrLe(b, c)
    ensures StrLe(a, c)
    decreases |a|
  {
    if a != [] && b != [] && c != [] && a[0] == b[0] && b[0] == c[0] {
      StrLeTrans(a[1..], b[1..], c[1..]);
    }
  }

  lemma {:induction false} StrLeAntisym(a: string, b: string)
    requires StrLe(a, b) && StrLe(b, a)
    ensures a == b
    decreases |a|
  {
    if a != [] && b != [] {
      StrLeAntisym(a[1..], b[1..]);
      assert a == [a[0]] + a[1..] && b == [b[0]] + b[1..];
    }
  }

  /** Python's `<=` on a pair of strings. */
  predicate KeyLe(p: (string, string), q: (string, string)) {
    (StrLe(p.0, q.0) && p.0 != q.0) || (p.0 == q.0 && StrLe(p.1, q.1))
  }

  /** Pair order is total, transitive and antisymmetric. */
  lemma KeyLeTotal(p: (string, string), q: (string, string))
    ensures KeyLe(p, q) || KeyLe(q, p)
  {
    StrLeTotal(p.0, q.0);
    StrLeTotal(p.1, q.1);
  }

  lemma KeyLeTrans(p: (string, string), q: (string, string), r: (string, string))
    requires KeyLe(p, q) && KeyLe(q, r)
    ensures KeyLe(p, r)
  {
    if p.0 == q.0 && q.0 == r.0 {
      StrLeTrans(p.1, q.1, r.1);
    } else {
      StrLeRefl(p.0);
      StrLeRefl(q.0);
      StrLeTrans(p.0, q.0, r.0);
      if p.0 == r.0 {
        StrLeAntisym(p.0, q.0);
      }
    }
  }

  lemma KeyLeAntisym(p: (string, string), q: (string, string))
    requires KeyLe(p, q) && KeyLe(q, p)
    ensures p == q
  {
    if p.0 == q.0 {
      StrLeAntisym(p.1, q.1);
    } else {
      StrLeAntisym(p.0, q.0);
    }
  }

  /** Non-decreasing by key. */
  ghost predicate SortedBy<T>(s: seq<T>, key: T -> (string, string)) {
    forall i, j :: 0 <= i < j < |s| ==> KeyLe(key(s[i]), key(s[j]))
  }

  /** Insertion of `x` after every element whose key is at most its own. */
  function Insert<T>(s: seq<T>, x: T, key: T -> (string, string)): (r: seq<T>)
    ensures |r| == |s| + 1
    decreases |s|
  {
    if s == [] || KeyLe(key(s[|s| - 1]), key(x)) then s + [x]
    else Insert(s[..|s| - 1], x, key) + [s[|s| - 1]]
  }

  /** Python's stable `sorted(xs, key=key)`, one insertion per element in input order. */
  function SortBy<T>(xs: seq<T>, key: T -> (string, string)): (r: seq<T>)
    ensures |r| == |xs|
    decreases |xs|
  {
    if xs == [] then [] else Insert(SortBy(xs[..|xs| - 1], key), xs[|xs| - 1], key)
  }

  lemma {:induction false} InsertPerm<T>(s: seq<T>, x: T, key: T -> (string, string))
    ensures multiset(Insert(s, x, key)) == multiset(s) + multiset{x}
    decreases |s|
  {
    if !(s == [] || KeyLe(key(s[|s| - 1]), key(x))) {
      var n := |s| - 1;
      InsertPerm(s[..n], x, key);
      assert s == s[..n] + [s[n]];
    }
  }

  lemma {:induction false} InsertSorted<T>(s: seq<T>, x: T, key: T -> (string, string))
    requires SortedBy(s, key)
    ensures SortedBy(Insert(s, x, key), key)
    decreases |s|
  {
    var r := Insert(s, x, key);
    if s == [] {
    } else if KeyLe(key(s[|s| - 1]), key(x)) {
      forall i, j | 0 <= i < j < |r| ensures KeyLe(key(r[i]), key(r[j])) {
        if j == |s| && i < |s| - 1 {
          KeyLeTrans(key(s[i]), key(s[|s| - 1]), key(x));
        }
      }
    } else {
      var n := |s| - 1;
      var last := s[n];
      KeyLeTotal(key(last), key(x));
      assert SortedBy(s[..n], key);
      InsertSorted(s[..n], x, key);
      var q := Insert(s[..n], x, key);
      InsertPerm(s[..n], x, key);
      forall i | 0 <= i < |q| ensures KeyLe(key(q[i]), key(last)) {
        assert q[i] in multiset(q);
        if q[i] != x {
          assert q[i] in s[..n];
          var k :| 0 <= k < n && s[..n][k] == q[i];
          assert s[k] == q[i];
        }
      }
      assert r == q + [last];
    }
  }

  /** The result is sorted by key. */
  lemma {:induction false} SortBySorted<T>(xs: seq<T>, key: T -> (string, string))
    ensures SortedBy(SortBy(xs, key), key)
    decreases |xs|
  {
    if xs != [] {
      SortBySorted(xs[..|xs| - 1], key);
      InsertSorted(SortBy(xs[..|xs| - 1], key), xs[|xs| - 1], key);
    }
  }

  /** The result is a permutation of the input. */
  lemma {:induction false} SortByPerm<T>(xs: seq<T>, key: T -> (string, string))
    ensures multiset(SortBy(xs, key)) == multiset(xs)
    decreases |xs|
  {
    if xs != [] {
      var n := |xs| - 1;
      SortByPerm(xs[..n], key);
      InsertPerm(SortBy(xs[..n], key), xs[n], key);
      assert xs == xs[..n] + [xs[n]];
    }
  }

  /** The elements with one key, in order. */
  function WithKey<T(!new)>(s: seq<T>, key: T -> (string, string), k: (string, string)): seq<T> {
    Filter(s, (x: T) => key(x) == k)
  }

  lemma WithKeySnoc<T(!new)>(s: seq<T>, x: T, key: T -> (string, string), k: (string, string))
    ensures WithKey(s + [x], key, k) == WithKey(s, key, k) + (if key(x) == k then [x] else [])
  {
    assert (s + [x])[..|s|] == s;
  }

  lemma {:induction false} InsertStable<T(!new)>(s: seq<T>, x: T, key: T -> (string, string), k: (string, string))
    ensures WithKey(Insert(s, x, key), key, k) == WithKey(s, key, k) + (if key(x) == k then [x] else [])
    decreases |s|
  {
    if s == [] || KeyLe(key(s[|s| - 1]), key(x)) {
      WithKeySnoc(s, x, key, k);
    } else {
      var n := |s| - 1;
      var last := s[n];
      InsertStable(s[..n], x, key, k);
      WithKeySnoc(Insert(s[..n], x, key), last, key, k);
      WithKeySnoc(s[..n], last, key, k);
      assert s[..n] + [last] == s;
      if key(x) == k {
        assert key(last) != k by {
          KeyLeTotal(key(last), key(x));
        }
      }
    }
  }

  /** Stability: the elements sharing a key keep their input order. */
  lemma {:induction false} SortByStable<T(!new)>(xs: seq<T>, key: T -> (string, string), k: (string, string))
    ensures WithKey(SortBy(xs, key), key, k) == WithKey(xs, key, k)
    decreases |xs|
  {
    if xs != [] {
      var n := |xs| - 1;
      SortByStable(xs[..n], key, k);
      InsertStable(SortBy(xs[..n], key), xs[n], key, k);
      WithKeySnoc(xs[..n], xs[n], key, k);
      assert xs[..n] + [xs[n]] == xs;
    }
  }

  /** The stable sort with its loop: one insertion per element, in input order. */
  method StableSort<T>(xs: seq<T>, key: T -> (string, string)) returns (r: seq<T>)
    ensures r == SortBy(xs, key)
  {
    r := [];
    var i := 0;
    while i < |xs|
      invariant 0 <= i <= |xs|
      invariant r == SortBy(xs[..i], key)
    {
      TakeSnoc(xs, i);
      r := Insert(r, xs[i], key);
      i := i + 1;
    }
    assert xs[..i] == xs;
  }
}
