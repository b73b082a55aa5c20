/** Generic sequence facts: distinctness, subsequences, Python's order-preserving
    `_unique`, filtering. Functions are defined from the END of the sequence so that
    a loop appending to a list keeps `out == F(input[..i])` as its invariant. */
module Seqs {
  import opened Wrappers


  predicate Distinct<T(==)>(s: seq<T>) {
    forall i, j :: 0 <= i < j < |s| ==> s[i] != s[j]
  }

  /** Python's `set(s)`. */
  function ToSet<T>(s: seq<T>): set<T> {
    set x | x in s
  }

  /** `len(set(s)) == len(s)` is the test for "no value occurs twice". */
  lemma {:induction false} SetSizeDistinct<T>(s: seq<T>)
    ensures |ToSet(s)| <= |s|
    ensures |ToSet(s)| == |s| <==> Distinct(s)
    decreases |s|
  {
    if s == [] {
      assert ToSet(s) == {};
    } else {
      var p, x := s[..|s| - 1], s[|s| - 1];
      SetSizeDistinct(p);
      assert s == p + [x];
      assert ToSet(s) == ToSet(p) + {x};
      if x in p {
        assert ToSet(s) == ToSet(p);
        var i :| 0 <= i < |p| && p[i] == x;
        assert s[i] == s[|s| - 1];
      } else {
        assert Distinct(s) <==> Distinct(p) by {
          if Distinct(p) {
            forall i, j | 0 <= i < j < |s| ensures s[i] != s[j] {
              if j == |s| - 1 {
                assert s[i] == p[i];
              } else {
                assert s[i] == p[i] && s[j] == p[j];
              }
            }
          }
          if Distinct(s) {
            forall i, j | 0 <= i < j < |p| ensures p[i] != p[j] {
              assert p[i] == s[i] && p[j] == s[j];
            }
          }
        }
      }
    }
  }

  /** `a` is obtained from `b` by deleting elements. */
  predicate IsSubseq<T(==)>(a: seq<T>, b: seq<T>)
    decreases |b|
  {
    if a == [] then true
    else if b == [] then false
    else (a[|a| - 1] == b[|b| - 1] && IsSubseq(a[..|a| - 1], b[..|b| - 1])) || IsSubseq(a, b[..|b| - 1])
  }

  lemma SubseqRefl<T>(a: seq<T>)
    ensures IsSubseq(a, a)
  {
  }

  /** `ys` holds the images under `f` of the first `|ys|` elements of `xs`. */
  ghost predicate MapsPrefix<A, B>(xs: seq<A>, ys: seq<B>, f: A -> B) {
    && |ys| <= |xs|
    && forall j :: 0 <= j < |ys| ==> ys[j] == f(xs[j])
  }

  lemma MapsPrefixStep<A, B>(xs: seq<A>, ys: seq<B>, y: B, f: A -> B)
    requires MapsPrefix(xs, ys, f) && |ys| < |xs| && y == f(xs[|ys|])
    ensures MapsPrefix(xs, ys + [y], f)
  {
  }

  /** A non-empty sequence is its front and its last element; each proved here, away from
      callers' contexts, where extensionality is cheap. */
  lemma SnocLast<T>(s: seq<T>)
    requires s != []
    ensures s[..|s| - 1] + [s[|s| - 1]] == s
  {
  }

  lemma TakeAppend<T>(a: seq<T>, b: seq<T>)
    ensures (a + b)[..|a|] == a
  {
  }

  lemma TakeSnoc<T>(s: seq<T>, i: int)
    requires 0 <= i < |s|
    ensures s[..i + 1][..i] == s[..i] && s[..i + 1] == s[..i] + [s[i]]
  {
  }

  lemma TakeAll<T>(s: seq<T>)
    ensures s[..|s|] == s
  {
  }

  lemma AppendSnoc<T>(a: seq<T>, b: seq<T>)
    requires b != []
    ensures a + b[..|b| - 1] + [b[|b| - 1]] == a + b
  {
  }

  lemma AppendNil<T>(a: seq<T>)
    ensures a + [] == a
  {
  }

  lemma DropLast<T>(a: seq<T>, b: seq<T>)
    requires b != []
    ensures (a + b)[..|a + b| - 1] == a + b[..|b| - 1]
  {
  }

  lemma AppendSnocAssoc<T>(a: seq<T>, b: seq<T>, x: T)
    ensures a + (b + [x]) == (a + b) + [x]
  {
  }

  lemma PrefixRest<T>(p: seq<T>, s: seq<T>)
    requires p <= s
    ensures s == p + s[|p|..]
  {
  }

  /** Order-preserving de-duplication: the first occurrence of each value, in order. */
  function Unique<T(==,!new)>(s: seq<T>): (r: seq<T>)
    ensures Distinct(r)
    ensures forall x :: x in r <==> x in s
    decreases |s|
  {
    if s == [] then []
    else
      var p := Unique(s[..|s| - 1]);
      var x := s[|s| - 1];
      assert forall y :: y in s <==> y in s[..|s| - 1] || y == x by {
        assert s == s[..|s| - 1] + [x];
      }
      if x in s[..|s| - 1] then p else p + [x]
  }

  /** De-duplication keeps the input order. */
  lemma {:induction false} UniqueSubseq<T(!new)>(s: seq<T>)
    ensures IsSubseq(Unique(s), s)
    decreases |s|
  {
    if s != [] {
      var n := |s| - 1;
      var p := Unique(s[..n]);
      UniqueSubseq(s[..n]);
      if s[n] !in s[..n] {
        TakeAppend(p, [s[n]]);
      }
    }
  }

  /** `len(_unique(s)) == 1` exactly when `s` is non-empty and all its elements are equal;
      the single survivor is then `s[0]`. */
  lemma {:induction false} UniqueSingleton<T(!new)>(s: seq<T>)
    ensures |Unique(s)| == 1 <==> (s != [] && forall x :: x in s ==> x == s[0])
    ensures |Unique(s)| == 1 ==> Unique(s)[0] == s[0]
    decreases |s|
  {
    if s != [] {
      var p, x := s[..|s| - 1], s[|s| - 1];
      SnocLast(s);
      if p == [] {
        assert s == [x];
      } else {
        UniqueSingleton(p);
        assert p[0] == s[0];
        assert p[0] in Unique(p);
        if x in p {
          assert Unique(s) == Unique(p);
          assert forall y :: y in s <==> y in p;
          assert (forall y :: y in s ==> y == s[0]) <==> (forall y :: y in p ==> y == p[0]);
        } else {
          assert Unique(s) == Unique(p) + [x];
          assert |Unique(s)| >= 2;
          assert x in s && x != s[0];
        }
      }
    }
  }

  /** Python's `[x for x in s if p(x)]`. */
  function Filter<T(!new)>(s: seq<T>, p: T -> bool): (r: seq<T>)
    ensures |r| <= |s|
    ensures forall x :: x in r <==> x in s && p(x)
    decreases |s|
  {
    if s == [] then []
    else
      var x := s[|s| - 1];
      assert forall y :: y in s <==> y in s[..|s| - 1] || y == x by {
        assert s == s[..|s| - 1] + [x];
      }
      Filter(s[..|s| - 1], p) + (if p(x) then [x] else [])
  }

  /** `Unique(a + b)` starts with `Unique(a)` and continues only with values of `b` not in `a`. */
  lemma {:induction false} UniqueAppend<T(!new)>(a: seq<T>, b: seq<T>)
    ensures |Unique(a + b)| >= |Unique(a)| && Unique(a + b)[..|Unique(a)|] == Unique(a)
    ensures forall x :: x in Unique(a + b)[|Unique(a)|..] ==> x in b && x !in a
    decreases |b|
  {
    if b == [] {
      AppendNil(a);
    } else {
      var n := |b| - 1;
      UniqueAppend(a, b[..n]);
      DropLast(a, b);
      var prev := Unique(a + b[..n]);
      var x := b[n];
      assert forall y :: y in prev[|Unique(a)|..] ==> y in b;
      if x !in a + b[..n] {
        assert Unique(a + b) == prev + [x];
        assert Unique(a + b)[..|Unique(a)|] == prev[..|Unique(a)|];
        assert Unique(a + b)[|Unique(a)|..] == prev[|Unique(a)|..] + [x];
      }
    }
  }
  /** A list without duplicates is its own de-duplication. */
  lemma {:induction false} UniqueOfDistinct<T(!new)>(a: seq<T>)
    requires Distinct(a)
    ensures Unique(a) == a
    decreases |a|
  {
    if a != [] {
      var n := |a| - 1;
      UniqueOfDistinct(a[..n]);
      assert a[n] !in a[..n];
      SnocLast(a);
    }
  }
  /** Appending values already present changes no de-duplication. */
  lemma {:induction false} UniqueAbsorb<T(!new)>(a: seq<T>, b: seq<T>)
    requires forall x :: x in b ==> x in a
    ensures Unique(a + b) == Unique(a)
    decreases |b|
  {
    if b == [] {
      AppendNil(a);
    } else {
      var n := |b| - 1;
      assert forall x :: x in b[..n] ==> x in b;
      UniqueAbsorb(a, b[..n]);
      DropLast(a, b);
      assert b[n] in b;
    }
  }
  /** A filter keeps the order of what it keeps. */
  lemma {:induction false} FilterSubseq<T(!new)>(s: seq<T>, p: T -> bool)
    ensures IsSubseq(Filter(s, p), s)
    decreases |s|
  {
    if s != [] {
      var n := |s| - 1;
      var a := Filter(s[..n], p);
      FilterSubseq(s[..n], p);
      if p(s[n]) {
        assert (a + [s[n]])[..|a|] == a;
      } else {
        assert Filter(s, p) == a + [] == a;
      }
    }
  }

  lemma {:induction false} FilterAppend<T(!new)>(a: seq<T>, b: seq<T>, p: T -> bool)
    ensures Filter(a + b, p) == Filter(a, p) + Filter(b, p)
    decreases |b|
  {
    if b == [] {
      assert a + b == a;
    } else {
      var n := |b| - 1;
      assert (a + b)[..|a + b| - 1] == a + b[..n];
      FilterAppend(a, b[..n], p);
    }
  }

  /** The number of elements satisfying `p`. */
  function CountIf<T(!new)>(s: seq<T>, p: T -> bool): (n: nat)
    ensures n <= |s|
  {
    |Filter(s, p)|
  }

  /** Python's `sum(...)` of naturals. */
  function Sum(s: seq<nat>): nat
    decreases |s|
  {
    if s == [] then 0 else Sum(s[..|s| - 1]) + s[|s| - 1]
  }

  /** The index of the first element satisfying `p`: what a `for` loop with an early `return` finds. */
  function FirstWhere<T>(s: seq<T>, p: T -> bool): (r: Option<nat>)
    ensures r.Some? ==> r.value < |s| && p(s[r.value]) && forall j :: 0 <= j < r.value ==> !p(s[j])
    ensures r.None? ==> forall j :: 0 <= j < |s| ==> !p(s[j])
    decreases |s|
  {
    if s == [] then None
    else if p(s[0]) then Some(0)
    else
      match FirstWhere(s[1..], p)
      case None => None
      case Some(i) => Some(i + 1)
  }

  /** The first index satisfying `p` is what `FirstWhere` finds. */
  lemma FirstWhereSome<T>(s: seq<T>, p: T -> bool, i: nat)
    requires i < |s| && p(s[i]) && forall j :: 0 <= j < i ==> !p(s[j])
    ensures FirstWhere(s, p) == Some(i)
  {
  }

  lemma FirstWhereNone<T>(s: seq<T>, p: T -> bool)
    requires forall j :: 0 <= j < |s| ==> !p(s[j])
    ensures FirstWhere(s, p) == None
  {
  }

  /** The search finds something exactly when some element passes. */
  lemma FirstWhereExists<T>(s: seq<T>, p: T -> bool)
    ensures FirstWhere(s, p).Some? <==> exists x :: x in s && p(x)
  {
    if exists x :: x in s && p(x) {
      var x :| x in s && p(x);
      var i :| 0 <= i < |s| && s[i] == x;
      assert p(s[i]);
    }
  }

  /** The search loop: stop at the first element passing `p`. */
  method FindFirst<T>(s: seq<T>, p: T -> bool) returns (r: Option<nat>)
    ensures r == FirstWhere(s, p)
  {
    var i := 0;
    while i < |s|
      invariant 0 <= i <= |s|
      invariant forall j :: 0 <= j < i ==> !p(s[j])
    {
      if p(s[i]) {
        FirstWhereSome(s, p, i);
        return Some(i);
      }
      i := i + 1;
    }
    return None;
  }

  /** `f(x)` for every `x` of `s` with `p(x)`, in order: a loop that appends on a hit. */
  function Hits<T, U>(s: seq<T>, f: T -> U, p: T -> bool): seq<U>
    decreases |s|
  {
    if s == [] then []
    else Hits(s[..|s| - 1], f, p) + (if p(s[|s| - 1]) then [f(s[|s| - 1])] else [])
  }

  lemma HitsSnoc<T, U>(s: seq<T>, x: T, f: T -> U, p: T -> bool)
    ensures Hits(s + [x], f, p) == Hits(s, f, p) + (if p(x) then [f(x)] else [])
  {
    assert (s + [x])[..|s|] == s;
  }

  lemma {:induction false} HitsMembers<T, U(!new)>(s: seq<T>, f: T -> U, p: T -> bool)
    ensures forall y :: y in Hits(s, f, p) <==> exists i :: 0 <= i < |s| && p(s[i]) && f(s[i]) == y
    decreases |s|
  {
    if s != [] {
      var q := s[..|s| - 1];
      HitsMembers(q, f, p);
      assert forall i :: 0 <= i < |q| ==> q[i] == s[i];
    }
  }

  /** The one value the hits agree on, or nothing when there is no hit or two different ones. */
  function SoleHit<T, U(==,!new)>(s: seq<T>, f: T -> U, p: T -> bool): Option<U> {
    var u := Unique(Hits(s, f, p));
    if |u| == 1 then Some(u[0]) else None
  }

  lemma SoleHitSpec<T, U(!new)>(s: seq<T>, f: T -> U, p: T -> bool, k: U)
    ensures SoleHit(s, f, p) == Some(k) <==>
      (exists i :: 0 <= i < |s| && p(s[i]) && f(s[i]) == k)
      && (forall i :: 0 <= i < |s| && p(s[i]) ==> f(s[i]) == k)
  {
    var h := Hits(s, f, p);
    HitsMembers(s, f, p);
    UniqueSingleton(h);
    if SoleHit(s, f, p) == Some(k) {
      assert h[0] == k && h[0] in h;
      forall i | 0 <= i < |s| && p(s[i]) ensures f(s[i]) == k {
        assert f(s[i]) in h;
      }
    }
    if (exists i :: 0 <= i < |s| && p(s[i]) && f(s[i]) == k)
       && (forall i :: 0 <= i < |s| && p(s[i]) ==> f(s[i]) == k) {
      assert k in h;
      assert forall y :: y in h ==> y == k;
      assert h[0] in h;
      assert Unique(h)[0] == k;
    }
  }

  /** Two hits that map to different values leave no sole hit. */
  lemma SoleHitTie<T, U(!new)>(s: seq<T>, f: T -> U, p: T -> bool, i: nat, j: nat)
    requires i < |s| && j < |s| && p(s[i]) && p(s[j]) && f(s[i]) != f(s[j])
    ensures SoleHit(s, f, p).None?
  {
    var r := SoleHit(s, f, p);
    if r.Some? {
      SoleHitSpec(s, f, p, r.value);
      assert false;
    }
  }

  /** The index of the last element of `s` that satisfies `p`, or -1. */
  function LastWhere<T>(s: seq<T>, p: T -> bool): (r: int)
    ensures -1 <= r < |s|
    ensures r >= 0 ==> p(s[r])
    ensures forall j :: r < j < |s| ==> !p(s[j])
    decreases |s|
  {
    if s == [] then -1
    else if p(s[|s| - 1]) then |s| - 1
    else LastWhere(s[..|s| - 1], p)
  }

  lemma {:induction false} FilterLastAt<T(!new)>(s: seq<T>, p: T -> bool)
    ensures Filter(s, p) != [] <==> LastWhere(s, p) >= 0
    ensures Filter(s, p) != [] ==> Filter(s, p)[|Filter(s, p)| - 1] == s[LastWhere(s, p)]
    decreases |s|
  {
    if s != [] {
      var n := |s| - 1;
      FilterLastAt(s[..n], p);
      if !p(s[n]) {
        AppendNil(Filter(s[..n], p));
      }
    }
  }

  /** The last element of a non-empty filter is the last element of `s` that satisfies `p`. */
  lemma FilterLast<T(!new)>(s: seq<T>, p: T -> bool)
    requires Filter(s, p) != []
    ensures exists i :: 0 <= i < |s| && p(s[i]) && Filter(s, p)[|Filter(s, p)| - 1] == s[i]
                        && forall j :: i < j < |s| ==> !p(s[j])
  {
    FilterLastAt(s, p);
    var i := LastWhere(s, p);
    assert 0 <= i < |s| && p(s[i]) && Filter(s, p)[|Filter(s, p)| - 1] == s[i];
  }

}
