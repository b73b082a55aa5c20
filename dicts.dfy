/** Python's insertion-ordered `dict`, as a list of entries. Assignment `d[k] = v`
    replaces the value in place when `k` is present and appends otherwise, so a
    dictionary built only by assignment never holds a key twice. */
module Dicts {
  import opened Wrappers
  import opened Seqs

  type Dict<K, V> = seq<(K, V)>

  function Keys<K, V>(d: Dict<K, V>): (r: seq<K>)
    ensures |r| == |d|
    decreases |d|
  {
    if d == [] then [] else [d[0].0] + Keys(d[1..])
  }

  lemma {:induction false} KeysAt<K, V>(d: Dict<K, V>, i: int)
    requires 0 <= i < |d|
    ensures Keys(d)[i] == d[i].0
    decreases |d|
  {
    if i > 0 {
      KeysAt(d[1..], i - 1);
    }
  }

  predicate HasKey<K(==), V>(d: Dict<K, V>, k: K) {
    k in Keys(d)
  }

  /** `d.get(k)`. */
  function Get<K(==), V>(d: Dict<K, V>, k: K): Option<V>
    decreases |d|
  {
    if d == [] then None
    else if d[0].0 == k then Some(d[0].1)
    else Get(d[1..], k)
  }

  /** A key reads as present exactly when it is a key, and then reads an entry of the dictionary. */
  lemma {:induction false} GetFacts<K, V>(d: Dict<K, V>, k: K)
    ensures Get(d, k).Some? <==> HasKey(d, k)
    ensures Get(d, k).Some? ==> (k, Get(d, k).value) in d
    decreases |d|
  {
    if d != [] {
      GetFacts(d[1..], k);
    }
  }

  /** `d[k] = v`. */
  function Put<K(==), V>(d: Dict<K, V>, k: K, v: V): Dict<K, V>
    decreases |d|
  {
    if d == [] then [(k, v)]
    else if d[0].0 == k then [(k, v)] + d[1..]
    else [d[0]] + Put(d[1..], k, v)
  }

  /** Assignment keeps the key order and appends a new key at the end. */
  lemma {:induction false} PutKeys<K, V>(d: Dict<K, V>, k: K, v: V)
    ensures Keys(Put(d, k, v)) == if HasKey(d, k) then Keys(d) else Keys(d) + [k]
    decreases |d|
  {
    if d != [] {
      if d[0].0 != k {
        PutKeys(d[1..], k, v);
        assert ([d[0]] + Put(d[1..], k, v))[1..] == Put(d[1..], k, v);
      } else {
        assert ([(k, v)] + d[1..])[1..] == d[1..];
      }
    }
  }

  /** The assigned key reads back the new value. */
  /** After an assignment the keys are the old keys and the assigned one. */
  lemma PutHasKey<K, V>(d: Dict<K, V>, k: K, v: V, k': K)
    ensures HasKey(Put(d, k, v), k') <==> HasKey(d, k') || k' == k
  {
    PutKeys(d, k, v);
  }

  lemma {:induction false} PutGetSame<K, V>(d: Dict<K, V>, k: K, v: V)
    ensures Get(Put(d, k, v), k) == Some(v)
    decreases |d|
  {
    if d != [] && d[0].0 != k {
      PutGetSame(d[1..], k, v);
    }
  }

  /** Every other key reads as before. */
  lemma {:induction false} PutGetOther<K, V>(d: Dict<K, V>, k: K, v: V, k': K)
    requires k' != k
    ensures Get(Put(d, k, v), k') == Get(d, k')
    decreases |d|
  {
    if d != [] && d[0].0 != k {
      PutGetOther(d[1..], k, v, k');
    }
  }

  /** `counter[k]` on a `Counter`: an absent key counts zero. */
  function Count<K(==)>(d: Dict<K, nat>, k: K): nat {
    if Get(d, k).Some? then Get(d, k).value else 0
  }

  /** `counter[k] += 1`. */
  function CounterAdd<K(==)>(d: Dict<K, nat>, k: K): Dict<K, nat> {
    Put<K, nat>(d, k, Count(d, k) + 1)
  }

  /** A counter entry reads one more after an increment; other entries are unchanged. */
  lemma CounterAddFacts<K>(d: Dict<K, nat>, k: K, k': K)
    ensures Get(CounterAdd(d, k), k) == Some(if Get(d, k).Some? then Get(d, k).value + 1 else 1)
    ensures k' != k ==> Get(CounterAdd(d, k), k') == Get(d, k')
  {
    PutGetSame<K, nat>(d, k, Count(d, k) + 1);
    if k' != k {
      PutGetOther<K, nat>(d, k, Count(d, k) + 1, k');
    }
  }

  lemma CounterAddHasKey<K>(d: Dict<K, nat>, k: K, k': K)
    ensures HasKey(CounterAdd(d, k), k') <==> HasKey(d, k') || k' == k
  {
    PutHasKey<K, nat>(d, k, Count(d, k) + 1, k');
  }

  /** A dictionary's keys are distinct. */
  predicate ValidDict<K(==), V>(d: Dict<K, V>) {
    Distinct(Keys(d))
  }

  lemma PutValid<K, V>(d: Dict<K, V>, k: K, v: V)
    requires ValidDict(d)
    ensures ValidDict(Put(d, k, v))
  {
    PutKeys(d, k, v);
  }

  /** Assigning a key twice is assigning it once, with the second value. */
  lemma {:induction false} PutTwice<K, V>(d: Dict<K, V>, k: K, v1: V, v2: V)
    ensures Put(Put(d, k, v1), k, v2) == Put(d, k, v2)
    decreases |d|
  {
    if d != [] && d[0].0 != k {
      PutTwice(d[1..], k, v1, v2);
    }
  }

  lemma {:induction false} KeysOfAppend<K, V>(d: Dict<K, V>, d2: Dict<K, V>)
    ensures Keys(d + d2) == Keys(d) + Keys(d2)
    decreases |d|
  {
    if d != [] {
      KeysOfAppend(d[1..], d2);
      assert (d + d2)[1..] == d[1..] + d2;
    } else {
      assert d + d2 == d2;
    }
  }

  /** The keys of a non-empty list of entries are those before the last entry and its own. */
  lemma KeysDropLast<K, V>(d: Dict<K, V>)
    requires d != []
    ensures forall k :: k in Keys(d) <==> k in Keys(d[..|d| - 1]) || k == d[|d| - 1].0
  {
    assert d == d[..|d| - 1] + [d[|d| - 1]];
    KeysOfAppend(d[..|d| - 1], [d[|d| - 1]]);
  }

  /** In a dictionary with distinct keys, each entry is what its key reads. */
  lemma {:induction false} GetAt<K, V>(d: Dict<K, V>, i: int)
    requires ValidDict(d) && 0 <= i < |d|
    ensures Get(d, d[i].0) == Some(d[i].1)
    decreases |d|
  {
    KeysAt(d, i);
    if i > 0 {
      KeysAt(d, 0);
      assert Keys(d)[0] != Keys(d)[i];
      assert ValidDict(d[1..]) by {
        forall a, b | 0 <= a < b < |d| - 1 ensures Keys(d[1..])[a] != Keys(d[1..])[b] {
          assert Keys(d)[a + 1] != Keys(d)[b + 1];
        }
      }
      GetAt(d[1..], i - 1);
    }
  }
}
