/** The catalog's comparison key (`normalize_text`) and the order-preserving alias
    de-duplicators built on it (src/demo/catalog/normalize.py). */
module CatalogNormalize {
  import opened Wrappers
  import opened Text
  import opened Seqs

  /** `normalize_text` on a string: lower-case, `_` and `-` and every other ASCII punctuation
      character become spaces, whitespace runs collapse to one space, ends are trimmed. */
  function Normalize(s: string): string {
    Collapse(SpaceOut(Replace(Replace(Lower(s), '_', ' '), '-', ' '), IsPunct))
  }

  /** `normalize_text(value)`: null normalises to the empty string. */
  function NormalizeText(value: Option<string>): string {
    if value.None? then "" else Normalize(value.value)
  }

  /** Normalised text has no upper-case letter and no punctuation (so no `_` or `-`),
      no whitespace other than single inner spaces, and nothing at either end. */
  lemma NormalizeShape(s: string)
    ensures NoUpper(Normalize(s)) && Collapsed(Normalize(s))
    ensures forall i :: 0 <= i < |Normalize(s)| ==> !IsPunct(Normalize(s)[i])
  {
    var unpunct := SpaceOut(Replace(Replace(Lower(s), '_', ' '), '-', ' '), IsPunct);
    assert forall c :: c in unpunct ==> !IsPunct(c) && !IsUpper(c);
    CollapseShape(unpunct);
  }

  lemma NormalizeTextShape(value: Option<string>)
    ensures value.None? ==> NormalizeText(value) == ""
    ensures NoUpper(NormalizeText(value)) && Collapsed(NormalizeText(value))
    ensures forall i :: 0 <= i < |NormalizeText(value)| ==> !IsPunct(NormalizeText(value)[i])
  {
    if value.Some? {
      NormalizeShape(value.value);
    }
  }

  lemma ReplaceAbsent(t: string, a: char, b: char)
    requires forall i :: 0 <= i < |t| ==> t[i] != a
    ensures Replace(t, a, b) == t
  {
  }

  lemma SpaceOutNone(t: string, p: char -> bool)
    requires forall i :: 0 <= i < |t| ==> !p(t[i])
    ensures SpaceOut(t, p) == t
  {
  }

  /** Text already in normal form (no upper case, no punctuation, collapsed) normalises to itself. */
  lemma NormalFormFixed(t: string)
    requires NoUpper(t) && Collapsed(t)
    requires forall i :: 0 <= i < |t| ==> !IsPunct(t[i])
    ensures Normalize(t) == t
  {
    LowerOfNoUpper(t);
    ReplaceAbsent(t, '_', ' ');
    ReplaceAbsent(t, '-', ' ');
    SpaceOutNone(t, IsPunct);
    CollapseOfCollapsed(t);
  }

  /** Normalised text is a fixed point, so normalising twice changes nothing. */
  lemma NormalizeIdempotent(s: string)
    ensures Normalize(Normalize(s)) == Normalize(s)
  {
    NormalizeShape(s);
    NormalFormFixed(Normalize(s));
  }

  /** Lower-casing, or turning `-` or `_` into spaces, does not change the normal form:
      `normalize_text` does all three itself. */
  lemma NormalizeVariants(s: string)
    ensures Normalize(Lower(s)) == Normalize(s)
    ensures Normalize(Replace(s, '-', ' ')) == Normalize(s)
    ensures Normalize(Replace(s, '_', ' ')) == Normalize(s)
  {
    var base := Replace(Replace(Lower(s), '_', ' '), '-', ' ');
    assert Replace(Replace(Lower(Lower(s)), '_', ' '), '-', ' ') == base;
    assert Replace(Replace(Lower(Replace(s, '-', ' ')), '_', ' '), '-', ' ') == base;
    assert Replace(Replace(Lower(Replace(s, '_', ' ')), '_', ' '), '-', ' ') == base;
  }

  lemma NormalizeTextIdempotent(value: Option<string>)
    ensures NormalizeText(Some(NormalizeText(value))) == NormalizeText(value)
  {
    if value.Some? {
      NormalizeIdempotent(value.value);
    }
  }

  /** The keys occurring in a list of `(alias, key)` pairs. */
  function KeySet(pairs: seq<(string, string)>): set<string>
    decreases |pairs|
  {
    if pairs == [] then {} else KeySet(pairs[..|pairs| - 1]) + {pairs[|pairs| - 1].1}
  }

  lemma {:induction false} KeySetMembers(pairs: seq<(string, string)>)
    ensures forall k :: k in KeySet(pairs) <==> exists i :: 0 <= i < |pairs| && pairs[i].1 == k
    decreases |pairs|
  {
    if pairs != [] {
      KeySetMembers(pairs[..|pairs| - 1]);
    }
  }

  lemma KeySetSnoc(pairs: seq<(string, string)>, x: (string, string))
    ensures KeySet(pairs + [x]) == KeySet(pairs) + {x.1}
  {
    assert (pairs + [x])[..|pairs|] == pairs;
  }

  function Aliases(pairs: seq<(string, string)>): (r: seq<string>)
    ensures |r| == |pairs| && forall i :: 0 <= i < |pairs| ==> r[i] == pairs[i].0
  {
    seq(|pairs|, i requires 0 <= i < |pairs| => pairs[i].0)
  }

  lemma AliasesSnoc(pairs: seq<(string, string)>, x: (string, string))
    ensures Aliases(pairs + [x]) == Aliases(pairs) + [x.0]
  {
  }

  /** Python's `[(a, normalize_text(a)) for a in aliases]`. */
  function KeyPairs(aliases: seq<string>): (r: seq<(string, string)>)
    ensures |r| == |aliases| && forall i :: 0 <= i < |aliases| ==> r[i] == (aliases[i], Normalize(aliases[i]))
  {
    seq(|aliases|, i requires 0 <= i < |aliases| => (aliases[i], Normalize(aliases[i])))
  }

  /** Every pair carries the normalised form of its alias as its key. */
  predicate WellKeyed(pairs: seq<(string, string)>) {
    forall i :: 0 <= i < |pairs| ==> pairs[i].1 == Normalize(pairs[i].0)
  }

  /** No key is empty and no key occurs twice. */
  predicate KeysDistinctNonEmpty(pairs: seq<(string, string)>) {
    (forall i :: 0 <= i < |pairs| ==> pairs[i].1 != "")
    && (forall i, j :: 0 <= i < j < |pairs| ==> pairs[i].1 != pairs[j].1)
  }

  /** Pair `j` is the first with its key, and that key is not empty. */
  predicate FirstOfItsKey(pairs: seq<(string, string)>, j: int)
    requires 0 <= j < |pairs|
  {
    pairs[j].1 != "" && forall k :: 0 <= k < j ==> pairs[k].1 != pairs[j].1
  }

  /** The pairs the `seen`-set loop keeps: the first pair for every non-empty key, in order. */
  function FirstPerKey(pairs: seq<(string, string)>): (r: seq<(string, string)>)
    decreases |pairs|
  {
    if pairs == [] then []
    else
      var prefix := pairs[..|pairs| - 1];
      var last := pairs[|pairs| - 1];
      if last.1 == "" || last.1 in KeySet(prefix) then FirstPerKey(prefix)
      else FirstPerKey(prefix) + [last]
  }

  lemma FirstPerKeySnoc(pairs: seq<(string, string)>, x: (string, string))
    ensures FirstPerKey(pairs + [x]) ==
      if x.1 == "" || x.1 in KeySet(pairs) then FirstPerKey(pairs) else FirstPerKey(pairs) + [x]
  {
    assert (pairs + [x])[..|pairs|] == pairs;
  }

  lemma {:induction false} KeySetAppend(p: seq<(string, string)>, q: seq<(string, string)>)
    ensures KeySet(p + q) == KeySet(p) + KeySet(q)
    decreases |q|
  {
    assert p + [] == p;
    if q != [] {
      var q' := q[..|q| - 1];
      KeySetAppend(p, q');
      assert p + q == (p + q') + [q[|q| - 1]];
      KeySetSnoc(p + q', q[|q| - 1]);
    }
  }

  /** Pairs whose keys are empty or already seen add nothing. */
  lemma {:induction false} FirstPerKeyAbsorb(p: seq<(string, string)>, q: seq<(string, string)>)
    requires forall i :: 0 <= i < |q| ==> q[i].1 == "" || q[i].1 in KeySet(p)
    ensures FirstPerKey(p + q) == FirstPerKey(p)
    decreases |q|
  {
    assert p + [] == p;
    if q != [] {
      var q' := q[..|q| - 1];
      FirstPerKeyAbsorb(p, q');
      assert p + q == (p + q') + [q[|q| - 1]];
      KeySetAppend(p, q');
      FirstPerKeySnoc(p + q', q[|q| - 1]);
    }
  }

  /** Appending pairs never disturbs what was already kept. */
  lemma {:induction false} FirstPerKeyPrefix(p: seq<(string, string)>, q: seq<(string, string)>)
    ensures FirstPerKey(p) <= FirstPerKey(p + q)
    decreases |q|
  {
    assert p + [] == p;
    if q != [] {
      var q' := q[..|q| - 1];
      FirstPerKeyPrefix(p, q');
      assert p + q == (p + q') + [q[|q| - 1]];
      FirstPerKeySnoc(p + q', q[|q| - 1]);
    }
  }

  /** The kept pairs form a subsequence of the input. */
  lemma {:induction false} FirstPerKeySubseq(pairs: seq<(string, string)>)
    ensures IsSubseq(FirstPerKey(pairs), pairs)
    ensures forall x :: x in FirstPerKey(pairs) ==> x in pairs
    decreases |pairs|
  {
    if pairs != [] {
      var prefix := pairs[..|pairs| - 1];
      FirstPerKeySubseq(prefix);
      assert pairs == prefix + [pairs[|pairs| - 1]];
    }
  }

  /** The kept keys are the input's non-empty keys, each exactly once. */
  lemma {:induction false} FirstPerKeyKeys(pairs: seq<(string, string)>)
    ensures KeysDistinctNonEmpty(FirstPerKey(pairs))
    ensures KeySet(FirstPerKey(pairs)) == KeySet(pairs) - {""}
    decreases |pairs|
  {
    if pairs != [] {
      var prefix := pairs[..|pairs| - 1];
      var last := pairs[|pairs| - 1];
      var kept := FirstPerKey(prefix);
      FirstPerKeyKeys(prefix);
      assert pairs == prefix + [last];
      KeySetSnoc(prefix, last);
      if !(last.1 == "" || last.1 in KeySet(prefix)) {
        KeySetSnoc(kept, last);
        KeySetMembers(kept);
        assert forall i :: 0 <= i < |kept| ==> kept[i].1 != last.1;
      }
    }
  }

  /** Every first occurrence of a non-empty key is kept. */
  lemma {:induction false} FirstPerKeyKeepsFirst(pairs: seq<(string, string)>)
    ensures forall j :: 0 <= j < |pairs| && FirstOfItsKey(pairs, j) ==> pairs[j] in FirstPerKey(pairs)
    decreases |pairs|
  {
    if pairs != [] {
      var prefix := pairs[..|pairs| - 1];
      var last := pairs[|pairs| - 1];
      FirstPerKeyKeepsFirst(prefix);
      assert forall j :: 0 <= j < |pairs| - 1 && FirstOfItsKey(pairs, j) ==> FirstOfItsKey(prefix, j);
      if last.1 != "" && last.1 in KeySet(prefix) {
        KeySetMembers(prefix);
      }
    }
  }

  lemma FirstPerKeyFacts(pairs: seq<(string, string)>)
    ensures IsSubseq(FirstPerKey(pairs), pairs)
    ensures forall x :: x in FirstPerKey(pairs) ==> x in pairs
    ensures KeysDistinctNonEmpty(FirstPerKey(pairs))
    ensures KeySet(FirstPerKey(pairs)) == KeySet(pairs) - {""}
    ensures forall j :: 0 <= j < |pairs| && FirstOfItsKey(pairs, j) ==> pairs[j] in FirstPerKey(pairs)
  {
    FirstPerKeySubseq(pairs);
    FirstPerKeyKeys(pairs);
    FirstPerKeyKeepsFirst(pairs);
  }

  /** `dedupe_aliases_with_keys(pairs)`. */
  function DedupeWithKeys(pairs: seq<(string, string)>): seq<string> {
    Aliases(FirstPerKey(pairs))
  }

  /** Whatever holds of every candidate alias holds of every kept alias. */
  lemma DedupeKeeps(pairs: seq<(string, string)>, P: string -> bool)
    requires forall x :: x in pairs ==> P(x.0)
    ensures forall a :: a in DedupeWithKeys(pairs) ==> P(a)
  {
    FirstPerKeySubseq(pairs);
    var kept := FirstPerKey(pairs);
    forall a | a in DedupeWithKeys(pairs) ensures P(a) {
      var i :| 0 <= i < |kept| && Aliases(kept)[i] == a;
      assert kept[i] in pairs;
    }
  }

  /** `dedupe_aliases(aliases)`: the with-keys version on keys computed by `normalize_text`. */
  function DedupeAliasesSpec(aliases: seq<string>): seq<string> {
    DedupeWithKeys(KeyPairs(aliases))
  }

  /** A list whose keys are already distinct and non-empty is left as it is. */
  lemma {:induction false} FirstPerKeyOfDistinct(q: seq<(string, string)>)
    requires KeysDistinctNonEmpty(q)
    ensures FirstPerKey(q) == q
    decreases |q|
  {
    if q != [] {
      var prefix := q[..|q| - 1];
      assert KeysDistinctNonEmpty(prefix);
      FirstPerKeyOfDistinct(prefix);
      KeySetMembers(prefix);
      assert q[|q| - 1].1 !in KeySet(prefix);
      assert q == prefix + [q[|q| - 1]];
      FirstPerKeySnoc(prefix, q[|q| - 1]);
    }
  }

  lemma FirstPerKeyIdempotent(pairs: seq<(string, string)>)
    ensures FirstPerKey(FirstPerKey(pairs)) == FirstPerKey(pairs)
  {
    FirstPerKeyFacts(pairs);
    FirstPerKeyOfDistinct(FirstPerKey(pairs));
  }

  lemma {:induction false} SubseqAliases(a: seq<(string, string)>, b: seq<(string, string)>)
    requires IsSubseq(a, b)
    ensures IsSubseq(Aliases(a), Aliases(b))
    decreases |b|
  {
    if a != [] {
      var na, nb := |a| - 1, |b| - 1;
      assert Aliases(a)[..na] == Aliases(a[..na]);
      assert Aliases(b)[..nb] == Aliases(b[..nb]);
      if a[na] == b[nb] && IsSubseq(a[..na], b[..nb]) {
        SubseqAliases(a[..na], b[..nb]);
      } else {
        SubseqAliases(a, b[..nb]);
      }
    }
  }

  /** Re-keying the output of a well-keyed de-duplication gives back the pairs it kept. */
  lemma KeyPairsOfKept(pairs: seq<(string, string)>)
    requires WellKeyed(pairs)
    ensures KeyPairs(DedupeWithKeys(pairs)) == FirstPerKey(pairs)
  {
    var r := FirstPerKey(pairs);
    FirstPerKeyFacts(pairs);
    forall i | 0 <= i < |r| ensures r[i].1 == Normalize(r[i].0) {
      assert r[i] in pairs;
    }
  }

  /** `dedupe_aliases_with_keys` is idempotent when it is given correct keys. */
  lemma DedupeWithKeysIdempotent(pairs: seq<(string, string)>)
    requires WellKeyed(pairs)
    ensures DedupeWithKeys(KeyPairs(DedupeWithKeys(pairs))) == DedupeWithKeys(pairs)
  {
    KeyPairsOfKept(pairs);
    FirstPerKeyIdempotent(pairs);
  }

  /** `dedupe_aliases` is idempotent. */
  lemma DedupeAliasesIdempotent(aliases: seq<string>)
    ensures DedupeAliasesSpec(DedupeAliasesSpec(aliases)) == DedupeAliasesSpec(aliases)
  {
    DedupeWithKeysIdempotent(KeyPairs(aliases));
  }

  /** `dedupe_aliases` keeps a subsequence of its input. */
  lemma DedupeAliasesSubseq(aliases: seq<string>)
    ensures IsSubseq(DedupeAliasesSpec(aliases), aliases)
  {
    var kp := KeyPairs(aliases);
    FirstPerKeySubseq(kp);
    SubseqAliases(FirstPerKey(kp), kp);
    assert Aliases(kp) == aliases;
  }

  /** The aliases `dedupe_aliases` keeps have non-empty, pairwise different normal forms. */
  lemma DedupeAliasesKeys(aliases: seq<string>)
    ensures var out := DedupeAliasesSpec(aliases);
      && (forall i :: 0 <= i < |out| ==> Normalize(out[i]) != "")
      && (forall i, j :: 0 <= i < j < |out| ==> Normalize(out[i]) != Normalize(out[j]))
  {
    var kp := KeyPairs(aliases);
    var r := FirstPerKey(kp);
    FirstPerKeyKeys(kp);
    KeyPairsOfKept(kp);
    assert forall i :: 0 <= i < |r| ==> Normalize(DedupeAliasesSpec(aliases)[i]) == r[i].1;
  }

  /** `dedupe_aliases` keeps every alias that is the first literal form of its non-empty key. */
  lemma DedupeAliasesKeepsFirst(aliases: seq<string>)
    ensures forall j :: 0 <= j < |aliases| && Normalize(aliases[j]) != ""
              && (forall k :: 0 <= k < j ==> Normalize(aliases[k]) != Normalize(aliases[j]))
              ==> aliases[j] in DedupeAliasesSpec(aliases)
  {
    var kp := KeyPairs(aliases);
    var r := FirstPerKey(kp);
    FirstPerKeyKeepsFirst(kp);
    forall j | 0 <= j < |aliases| && Normalize(aliases[j]) != ""
        && (forall k :: 0 <= k < j ==> Normalize(aliases[k]) != Normalize(aliases[j]))
      ensures aliases[j] in DedupeAliasesSpec(aliases)
    {
      assert FirstOfItsKey(kp, j);
      var m :| 0 <= m < |r| && r[m] == kp[j];
      assert DedupeAliasesSpec(aliases)[m] == aliases[j];
    }
  }

  /** `dedupe_aliases_with_keys` keeps the first alias per supplied non-empty key, in input order. */
  lemma DedupeWithKeysProperties(pairs: seq<(string, string)>)
    ensures IsSubseq(DedupeWithKeys(pairs), Aliases(pairs))
    ensures |DedupeWithKeys(pairs)| == |KeySet(pairs) - {""}|
    ensures forall j :: 0 <= j < |pairs| && FirstOfItsKey(pairs, j) ==> pairs[j].0 in DedupeWithKeys(pairs)
  {
    var r := FirstPerKey(pairs);
    FirstPerKeyFacts(pairs);
    SubseqAliases(r, pairs);
    DistinctKeysCount(r);
    forall j | 0 <= j < |pairs| && FirstOfItsKey(pairs, j) ensures pairs[j].0 in DedupeWithKeys(pairs) {
      var m :| 0 <= m < |r| && r[m] == pairs[j];
      assert DedupeWithKeys(pairs)[m] == pairs[j].0;
    }
  }

  /** A list with distinct keys has exactly as many entries as keys. */
  lemma {:induction false} DistinctKeysCount(q: seq<(string, string)>)
    requires KeysDistinctNonEmpty(q)
    ensures |KeySet(q)| == |q|
    decreases |q|
  {
    if q != [] {
      var prefix := q[..|q| - 1];
      assert KeysDistinctNonEmpty(prefix);
      DistinctKeysCount(prefix);
      assert q == prefix + [q[|q| - 1]];
      KeySetSnoc(prefix, q[|q| - 1]);
      KeySetMembers(prefix);
      assert q[|q| - 1].1 !in KeySet(prefix);
    }
  }

  /** One step of the `seen`-set loop: pair `i` is kept exactly when its key is non-empty
      and not yet seen, and `seen` grows by that key. */
  lemma DedupeStep(pairs: seq<(string, string)>, i: nat, seen: set<string>)
    requires i < |pairs| && seen == KeySet(pairs[..i]) - {""}
    ensures var x, keep := pairs[i], pairs[i].1 != "" && pairs[i].1 !in seen;
      && Aliases(FirstPerKey(pairs[..i + 1]))
         == (if keep then Aliases(FirstPerKey(pairs[..i])) + [x.0] else Aliases(FirstPerKey(pairs[..i])))
      && KeySet(pairs[..i + 1]) - {""} == (if keep then seen + {x.1} else seen)
  {
    TakeSnoc(pairs, i);
    KeySetSnoc(pairs[..i], pairs[i]);
    FirstPerKeySnoc(pairs[..i], pairs[i]);
    AliasesSnoc(FirstPerKey(pairs[..i]), pairs[i]);
  }

  /** `dedupe_aliases`: one pass with a `seen` set of normalised keys. */
  method DedupeAliases(aliases: seq<string>) returns (out: seq<string>)
    ensures out == DedupeAliasesSpec(aliases)
  {
    var seen: set<string> := {};
    out := [];
    var i := 0;
    ghost var kp := KeyPairs(aliases);
    while i < |aliases|
      invariant 0 <= i <= |aliases|
      invariant out == Aliases(FirstPerKey(kp[..i]))
      invariant seen == KeySet(kp[..i]) - {""}
    {
      var key := NormalizeText(Some(aliases[i]));
      DedupeStep(kp, i, seen);
      if key != "" && key !in seen {
        seen := seen + {key};
        out := out + [aliases[i]];
      }
      i := i + 1;
    }
    assert kp[..|aliases|] == kp;
  }

  /** `dedupe_aliases_with_keys`: the same loop over precomputed `(alias, key)` pairs. */
  method DedupeAliasesWithKeys(pairs: seq<(string, string)>) returns (out: seq<string>)
    ensures out == DedupeWithKeys(pairs)
  {
    var seen: set<string> := {};
    out := [];
    var i := 0;
    while i < |pairs|
      invariant 0 <= i <= |pairs|
      invariant out == Aliases(FirstPerKey(pairs[..i]))
      invariant seen == KeySet(pairs[..i]) - {""}
    {
      var (alias, key) := pairs[i];
      DedupeStep(pairs, i, seen);
      if key != "" && key !in seen {
        seen := seen + {key};
        out := out + [alias];
      }
      i := i + 1;
    }
    TakeAll(pairs);
  }
}
