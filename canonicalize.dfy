/** The canonicaliser (src/demo/catalog/canonicalize.py): "first rule wins, ties abstain"
    ladders mapping raw process, client and role text onto the catalogs, and the step
    matcher. The client and role catalog records are given the shape the ladders read
    (a client has a name and aliases; the roles catalog has canonical names and an
    insertion-ordered alias table). */
module Canonicalize {
  import opened Wrappers
  import opened Text
  import opened Seqs
  import opened Dicts
  import opened CatalogNormalize
  import opened CatalogTypes

  datatype Client = Client(name: string, aliases: seq<string>)
  datatype ClientsCatalog = ClientsCatalog(clients: seq<Client>)
  datatype RolesCatalog = RolesCatalog(canonical: seq<string>, aliases: Dict<string, seq<string>>)

  // ---------------------------------------------------------------- normalisers

  /** `norm_text` on a string: whitespace runs collapse to one space, ends are trimmed, then
      the text is lower-cased; punctuation is kept. */
  function NormStr(s: string): string {
    Lower(Collapse(s))
  }

  /** `norm_text(s)`: null becomes the empty string. */
  function NormText(s: Option<string>): string {
    if s.None? then "" else NormStr(s.value)
  }

  lemma NormStrShape(s: string)
    ensures Collapsed(NormStr(s)) && NoUpper(NormStr(s))
  {
    CollapseShape(s);
    LowerKeepsCollapsed(Collapse(s));
  }

  /** The fixed `norm_tokenish` table; `-`, `_` and `@` are not in it. */
  predicate IsTokenPunct(c: char) {
    c in ",.;:()[]{}<>/\\|"
  }

  /** `norm_tokenish` on a string: the table characters become spaces, then whitespace
      collapses and the text is lower-cased. */
  function TokenStr(s: string): string {
    Lower(Collapse(SpaceOut(s, IsTokenPunct)))
  }

  /** `norm_tokenish(s)`: null becomes the empty string. */
  function NormTokenish(s: Option<string>): string {
    if s.None? then "" else TokenStr(s.value)
  }

  lemma TokenStrShape(s: string)
    ensures Collapsed(TokenStr(s)) && NoUpper(TokenStr(s))
    ensures forall i :: 0 <= i < |TokenStr(s)| ==> !IsTokenPunct(TokenStr(s)[i])
  {
    var spaced := SpaceOut(s, IsTokenPunct);
    var c := Collapse(spaced);
    CollapseShape(spaced);
    LowerKeepsCollapsed(c);
    forall i | 0 <= i < |c| ensures !IsTokenPunct(LowerChar(c[i])) {
      if c[i] != ' ' {
        var k :| 0 <= k < |spaced| && spaced[k] == c[i];
        PunctNotLetter(c[i]);
      }
    }
  }

  /** Lower-casing maps no other character onto the table characters. */
  lemma PunctNotLetter(c: char)
    requires !IsTokenPunct(c)
    ensures !IsTokenPunct(LowerChar(c))
  {
  }

  /** `_unique`: the loop with a `seen` set. */
  method UniqueValues(values: seq<string>) returns (out: seq<string>)
    ensures out == Unique(values)
  {
    var seen: set<string> := {};
    out := [];
    var i := 0;
    while i < |values|
      invariant 0 <= i <= |values|
      invariant out == Unique(values[..i])
      invariant seen == set x | x in values[..i]
    {
      var v := values[i];
      TakeSnoc(values, i);
      TakeSnoc(values, i);
      if v !in seen {
        seen := seen + {v};
        out := out + [v];
      }
      i := i + 1;
    }
    TakeAll(values);
  }

  // ---------------------------------------------------------------- processes
  // The ladder is stated for any normaliser `norm`; `canonicalize_process` runs it with
  // `normalize_text` (CatalogNormalize.Normalize) on both sides of every comparison.

  predicate KeyMatches(norm: string -> string, n: string, e: (string, CatalogProcess)) {
    n == norm(e.0)
  }

  predicate DisplayMatches(norm: string -> string, n: string, e: (string, CatalogProcess)) {
    n == norm(e.1.displayName)
  }

  predicate AliasMatches(norm: string -> string, n: string, e: (string, CatalogProcess)) {
    exists a :: a in e.1.processAliases && n == norm(a)
  }

  /** The substring stage's test on one normalised alias: non-empty, and inside the raw
      text or containing it. */
  predicate Related(an: string, n: string) {
    an != "" && (Contains(n, an) || Contains(an, n))
  }

  predicate HasRelatedAlias(norm: string -> string, n: string, e: (string, CatalogProcess)) {
    exists a :: a in e.1.processAliases && Related(norm(a), n)
  }

  /** One `candidates.append(k)` per related alias of `k`. */
  function RelatedHits(norm: string -> string, k: string, aliases: seq<string>, n: string): seq<string>
    decreases |aliases|
  {
    if aliases == [] then []
    else RelatedHits(norm, k, aliases[..|aliases| - 1], n)
         + (if Related(norm(aliases[|aliases| - 1]), n) then [k] else [])
  }

  /** The substring stage's candidate list, before `_unique`. */
  function SubstringCandidates(norm: string -> string, procs: Dict<string, CatalogProcess>, n: string): seq<string>
    decreases |procs|
  {
    if procs == [] then []
    else
      var e := procs[|procs| - 1];
      SubstringCandidates(norm, procs[..|procs| - 1], n) + RelatedHits(norm, e.0, e.1.processAliases, n)
  }

  /** Stage 1: the first process whose normalised key equals the raw text. */
  function KeyStage(norm: string -> string, procs: Dict<string, CatalogProcess>, n: string): Option<nat> {
    FirstWhere(procs, e => KeyMatches(norm, n, e))
  }

  /** Stage 2: the first process whose normalised display name equals the raw text. */
  function DisplayStage(norm: string -> string, procs: Dict<string, CatalogProcess>, n: string): Option<nat> {
    FirstWhere(procs, e => DisplayMatches(norm, n, e))
  }

  /** Stage 3: the first process with an alias that normalises to the raw text. */
  function AliasStage(norm: string -> string, procs: Dict<string, CatalogProcess>, n: string): Option<nat> {
    FirstWhere(procs, e => AliasMatches(norm, n, e))
  }

  /** Stage 4: the candidate list without repeats must hold exactly one process. */
  function SubstringStage(norm: string -> string, procs: Dict<string, CatalogProcess>, n: string): Option<string> {
    var u := Unique(SubstringCandidates(norm, procs, n));
    if |u| == 1 then Some(u[0]) else None
  }

  /** Stages 1-4 in order on the normalised raw text `n`. */
  function ProcessLadder(norm: string -> string, procs: Dict<string, CatalogProcess>, n: string): Option<string> {
    match KeyStage(norm, procs, n)
    case Some(i) => Some(procs[i].0)
    case None =>
      match DisplayStage(norm, procs, n)
      case Some(i) => Some(procs[i].0)
      case None =>
        match AliasStage(norm, procs, n)
        case Some(i) => Some(procs[i].0)
        case None => SubstringStage(norm, procs, n)
  }

  /** `canonicalize_process`. */
  function CanonicalProcessOf(raw: Option<string>, cat: ProcessCatalog): Option<string> {
    if !Truthy(raw) then None
    else
      var n := NormalizeText(raw);
      if n == "" then None else ProcessLadder(Normalize, cat.processes, n)
  }

  lemma {:induction false} RelatedHitsMembers(norm: string -> string, k: string, aliases: seq<string>, n: string)
    ensures forall x :: x in RelatedHits(norm, k, aliases, n) ==> x == k
    ensures RelatedHits(norm, k, aliases, n) != [] <==> exists a :: a in aliases && Related(norm(a), n)
    decreases |aliases|
  {
    if aliases != [] {
      var prefix := aliases[..|aliases| - 1];
      RelatedHitsMembers(norm, k, prefix, n);
      assert aliases == prefix + [aliases[|aliases| - 1]];
    }
  }

  /** A process is a substring candidate exactly when one of its aliases is related to the raw text. */
  lemma {:induction false} SubstringCandidatesMembers(norm: string -> string, procs: Dict<string, CatalogProcess>, n: string)
    ensures forall x :: x in SubstringCandidates(norm, procs, n) <==>
      exists i :: 0 <= i < |procs| && procs[i].0 == x && HasRelatedAlias(norm, n, procs[i])
    decreases |procs|
  {
    if procs != [] {
      var prefix := procs[..|procs| - 1];
      var e := procs[|procs| - 1];
      SubstringCandidatesMembers(norm, prefix, n);
      RelatedHitsMembers(norm, e.0, e.1.processAliases, n);
      forall x
        ensures x in SubstringCandidates(norm, procs, n) <==>
          exists i :: 0 <= i < |procs| && procs[i].0 == x && HasRelatedAlias(norm, n, procs[i])
      {
        if exists i :: 0 <= i < |procs| && procs[i].0 == x && HasRelatedAlias(norm, n, procs[i]) {
          var i :| 0 <= i < |procs| && procs[i].0 == x && HasRelatedAlias(norm, n, procs[i]);
          if i < |procs| - 1 {
            assert prefix[i] == procs[i];
          } else {
            var hits := RelatedHits(norm, e.0, e.1.processAliases, n);
            assert hits != [] && hits[0] in hits;
          }
        }
        if x in SubstringCandidates(norm, procs, n) {
          if x in SubstringCandidates(norm, prefix, n) {
            var i :| 0 <= i < |prefix| && prefix[i].0 == x && HasRelatedAlias(norm, n, prefix[i]);
            assert procs[i] == prefix[i];
          } else {
            assert x in RelatedHits(norm, e.0, e.1.processAliases, n);
            assert procs[|procs| - 1].0 == x;
          }
        }
      }
    }
  }

  /** Ties abstain: stage 4 returns a process exactly when it is the only process with an
      alias related to the raw text. */
  lemma SubstringStageUnique(norm: string -> string, procs: Dict<string, CatalogProcess>, n: string, k: string)
    ensures SubstringStage(norm, procs, n) == Some(k) <==>
      (exists i :: 0 <= i < |procs| && procs[i].0 == k && HasRelatedAlias(norm, n, procs[i]))
      && (forall i :: 0 <= i < |procs| && HasRelatedAlias(norm, n, procs[i]) ==> procs[i].0 == k)
  {
    var cands := SubstringCandidates(norm, procs, n);
    SubstringCandidatesMembers(norm, procs, n);
    UniqueSingleton(cands);
    if SubstringStage(norm, procs, n) == Some(k) {
      assert cands[0] == k && cands[0] in cands;
      forall i | 0 <= i < |procs| && HasRelatedAlias(norm, n, procs[i]) ensures procs[i].0 == k {
        assert procs[i].0 in cands;
      }
    }
    if (exists i :: 0 <= i < |procs| && procs[i].0 == k && HasRelatedAlias(norm, n, procs[i]))
       && (forall i :: 0 <= i < |procs| && HasRelatedAlias(norm, n, procs[i]) ==> procs[i].0 == k) {
      assert k in cands;
      assert forall x :: x in cands ==> x == k;
      assert cands[0] in cands;
      assert Unique(cands)[0] == k;
    }
  }

  /** The ladder only ever answers with a key of the catalog. */
  lemma ProcessLadderIsKey(norm: string -> string, procs: Dict<string, CatalogProcess>, n: string)
    ensures ProcessLadder(norm, procs, n).Some? ==> HasKey(procs, ProcessLadder(norm, procs, n).value)
  {
    var r := ProcessLadder(norm, procs, n);
    if r.Some? {
      if KeyStage(norm, procs, n).None? && DisplayStage(norm, procs, n).None? && AliasStage(norm, procs, n).None? {
        SubstringStageUnique(norm, procs, n, r.value);
        var i :| 0 <= i < |procs| && procs[i].0 == r.value && HasRelatedAlias(norm, n, procs[i]);
        KeysAt(procs, i);
      } else {
        var i :| 0 <= i < |procs| && r.value == procs[i].0;
        KeysAt(procs, i);
      }
    }
  }

  /** First rule wins: an exact key beats a display name, which beats an exact alias, which
      beats the substring stage; within a rule the first process in catalog order answers. */
  lemma ProcessLadderPriority(norm: string -> string, procs: Dict<string, CatalogProcess>, n: string)
    ensures var r := ProcessLadder(norm, procs, n);
      && ((exists i :: 0 <= i < |procs| && KeyMatches(norm, n, procs[i])) ==>
            exists i :: 0 <= i < |procs| && KeyMatches(norm, n, procs[i]) && r == Some(procs[i].0)
              && forall j :: 0 <= j < i ==> !KeyMatches(norm, n, procs[j]))
      && ((forall i :: 0 <= i < |procs| ==> !KeyMatches(norm, n, procs[i]))
          && (exists i :: 0 <= i < |procs| && DisplayMatches(norm, n, procs[i])) ==>
            exists i :: 0 <= i < |procs| && DisplayMatches(norm, n, procs[i]) && r == Some(procs[i].0)
              && forall j :: 0 <= j < i ==> !DisplayMatches(norm, n, procs[j]))
      && ((forall i :: 0 <= i < |procs| ==> !KeyMatches(norm, n, procs[i]) && !DisplayMatches(norm, n, procs[i]))
          && (exists i :: 0 <= i < |procs| && AliasMatches(norm, n, procs[i])) ==>
            exists i :: 0 <= i < |procs| && AliasMatches(norm, n, procs[i]) && r == Some(procs[i].0)
              && forall j :: 0 <= j < i ==> !AliasMatches(norm, n, procs[j]))
      && ((forall i :: 0 <= i < |procs| ==>
            !KeyMatches(norm, n, procs[i]) && !DisplayMatches(norm, n, procs[i]) && !AliasMatches(norm, n, procs[i])) ==>
            r == SubstringStage(norm, procs, n))
  {
  }

  /** A falsy raw value, or one that normalises to nothing, is never mapped; anything else
      maps to null or to a key of the catalog. */
  lemma CanonicalProcessIsKey(raw: Option<string>, cat: ProcessCatalog)
    ensures !Truthy(raw) || NormalizeText(raw) == "" ==> CanonicalProcessOf(raw, cat).None?
    ensures CanonicalProcessOf(raw, cat).Some? ==> HasKey(cat.processes, CanonicalProcessOf(raw, cat).value)
  {
    if Truthy(raw) && NormalizeText(raw) != "" {
      ProcessLadderIsKey(Normalize, cat.processes, NormalizeText(raw));
    }
  }

  /** Stage 1 as a loop. */
  method FindByKey(norm: string -> string, procs: Dict<string, CatalogProcess>, n: string) returns (r: Option<nat>)
    ensures r == KeyStage(norm, procs, n)
  {
    var i := 0;
    while i < |procs|
      invariant 0 <= i <= |procs|
      invariant forall j :: 0 <= j < i ==> !KeyMatches(norm, n, procs[j])
    {
      if n == norm(procs[i].0) {
        return Some(i);
      }
      i := i + 1;
    }
    return None;
  }

  /** Stage 2 as a loop. */
  method FindByDisplay(norm: string -> string, procs: Dict<string, CatalogProcess>, n: string) returns (r: Option<nat>)
    ensures r == DisplayStage(norm, procs, n)
  {
    var i := 0;
    while i < |procs|
      invariant 0 <= i <= |procs|
      invariant forall j :: 0 <= j < i ==> !DisplayMatches(norm, n, procs[j])
    {
      if n == norm(procs[i].1.displayName) {
        return Some(i);
      }
      i := i + 1;
    }
    return None;
  }

  /** Stage 3 as nested loops. */
  method FindByAlias(norm: string -> string, procs: Dict<string, CatalogProcess>, n: string) returns (r: Option<nat>)
    ensures r == AliasStage(norm, procs, n)
  {
    var i := 0;
    while i < |procs|
      invariant 0 <= i <= |procs|
      invariant forall j :: 0 <= j < i ==> !AliasMatches(norm, n, procs[j])
    {
      var aliases := procs[i].1.processAliases;
      var j := 0;
      while j < |aliases|
        invariant 0 <= j <= |aliases|
        invariant forall m :: 0 <= m < j ==> n != norm(aliases[m])
      {
        if n == norm(aliases[j]) {
          assert AliasMatches(norm, n, procs[i]);
          return Some(i);
        }
        j := j + 1;
      }
      i := i + 1;
    }
    return None;
  }

  /** Stage 4's candidate collection as nested loops. */
  method CollectSubstringCandidates(norm: string -> string, procs: Dict<string, CatalogProcess>, n: string)
    returns (candidates: seq<string>)
    ensures candidates == SubstringCandidates(norm, procs, n)
  {
    candidates := [];
    var i := 0;
    while i < |procs|
      invariant 0 <= i <= |procs|
      invariant candidates == SubstringCandidates(norm, procs[..i], n)
    {
      var k := procs[i].0;
      var aliases := procs[i].1.processAliases;
      var j := 0;
      while j < |aliases|
        invariant 0 <= j <= |aliases|
        invariant candidates == SubstringCandidates(norm, procs[..i], n) + RelatedHits(norm, k, aliases[..j], n)
      {
        var an := norm(aliases[j]);
        TakeSnoc(aliases, j);
        if an != "" && (Contains(n, an) || Contains(an, n)) {
          candidates := candidates + [k];
        }
        j := j + 1;
      }
      TakeAll(aliases);
      TakeSnoc(procs, i);
      i := i + 1;
    }
    TakeAll(procs);
  }

  /** `canonicalize_process`, stage by stage. */
  method CanonicalizeProcess(raw: Option<string>, cat: ProcessCatalog) returns (r: Option<string>)
    ensures r == CanonicalProcessOf(raw, cat)
  {
    if !Truthy(raw) {
      return None;
    }
    var n := NormalizeText(raw);
    if n == "" {
      return None;
    }
    var procs := cat.processes;
    var hit := FindByKey(Normalize, procs, n);
    if hit.Some? {
      return Some(procs[hit.value].0);
    }
    hit := FindByDisplay(Normalize, procs, n);
    if hit.Some? {
      return Some(procs[hit.value].0);
    }
    hit := FindByAlias(Normalize, procs, n);
    if hit.Some? {
      return Some(procs[hit.value].0);
    }
    var candidates := CollectSubstringCandidates(Normalize, procs, n);
    var u := UniqueValues(candidates);
    if |u| == 1 {
      return Some(u[0]);
    }
    return None;
  }

  // ---------------------------------------------------------------- clients
  // `canonicalize_client` compares with `norm_text` (NormStr) in stages 1-3 and with
  // `norm_tokenish` (TokenStr) in stage 4.

  function NameOf(c: Client): string { c.name }

  /** The texts a client is known by: its name, then its aliases. */
  function ClientTokens(c: Client): seq<string> { [c.name] + c.aliases }

  predicate ClientAliasMatches(c: Client, n: string) {
    exists a :: a in c.aliases && n == NormStr(a)
  }

  /** Stage 3's test: one of the client's texts, space-collapsed, is inside the raw text or
      contains it. There is no emptiness check, so an empty text on either side matches. */
  predicate TextRelated(c: Client, n: string) {
    exists t :: t in ClientTokens(c) && (Contains(n, NormStr(t)) || Contains(NormStr(t), n))
  }

  /** Stage 4's test: the same containment on the punctuation-stripped forms, ignoring empty ones. */
  predicate TokenRelated(c: Client, tok: string) {
    exists t :: t in TokenForms(c) && (Contains(tok, t) || Contains(t, tok))
  }

  /** The client's texts in `norm_tokenish` form, empty ones dropped. */
  function TokenForms(c: Client): (r: seq<string>)
    ensures forall t :: t in r <==> t != "" && exists u :: u in ClientTokens(c) && t == TokenStr(u)
  {
    var ts := ClientTokens(c);
    var forms := seq(|ts|, i requires 0 <= i < |ts| => TokenStr(ts[i]));
    assert forall t :: t in forms <==> exists u :: u in ts && t == TokenStr(u) by {
      forall t | t in forms ensures exists u :: u in ts && t == TokenStr(u) {
        var i :| 0 <= i < |forms| && forms[i] == t;
        assert ts[i] in ts;
      }
      forall t | (exists u :: u in ts && t == TokenStr(u)) ensures t in forms {
        var u :| u in ts && t == TokenStr(u);
        var i :| 0 <= i < |ts| && ts[i] == u;
        assert forms[i] == t;
      }
    }
    Filter(forms, t => t != "")
  }

  /** The result when no stage decides: the space-collapsed, lower-cased raw text with
      every word capitalised. */
  function ClientFallback(raw: string): string {
    CapitalizeWords(NormStr(raw))
  }

  /** The tests of the four stages, as functions. */
  function NameIs(n: string): Client -> bool {
    (c: Client) => n == NormStr(c.name)
  }

  function AliasIs(n: string): Client -> bool {
    (c: Client) => ClientAliasMatches(c, n)
  }

  function TextTest(n: string): Client -> bool {
    (c: Client) => TextRelated(c, n)
  }

  function TokenTest(tok: string): Client -> bool {
    (c: Client) => TokenRelated(c, tok)
  }

  /** Stage 1: the first client whose name equals the raw text, up to spacing and case. */
  function ClientNameStage(cs: seq<Client>, n: string): Option<nat> {
    FirstWhere(cs, NameIs(n))
  }

  /** Stage 2: the first client with an alias equal to the raw text, up to spacing and case. */
  function ClientAliasStage(cs: seq<Client>, n: string): Option<nat> {
    FirstWhere(cs, AliasIs(n))
  }

  /** `canonicalize_client`. */
  function CanonicalClientOf(raw: Option<string>, cat: ClientsCatalog): Option<string> {
    if raw.None? then None
    else Some(ClientLadder(cat.clients, NormStr(raw.value), TokenStr(raw.value), ClientFallback(raw.value)))
  }

  /** The four stages over the catalog, given the normal form `n`, the token form `tok` and
      the fallback of the raw text. */
  function ClientLadder(cs: seq<Client>, n: string, tok: string, fallback: string): string {
    match ClientNameStage(cs, n)
    case Some(i) => cs[i].name
    case None =>
      match ClientAliasStage(cs, n)
      case Some(i) => cs[i].name
      case None =>
        match SoleHit(cs, NameOf, TextTest(n))
        case Some(k) => k
        case None =>
          match SoleHit(cs, NameOf, TokenTest(tok))
          case Some(k) => k
          case None => fallback
  }

  /** Null is the only input without an answer; the answer is a catalog name or the fallback,
      and the fallback differs from the normalised raw text only in letter case. */
  lemma CanonicalClientShape(raw: Option<string>, cat: ClientsCatalog)
    ensures CanonicalClientOf(raw, cat).None? <==> raw.None?
    ensures raw.Some? ==>
      (exists i :: 0 <= i < |cat.clients| && CanonicalClientOf(raw, cat).value == cat.clients[i].name)
      || CanonicalClientOf(raw, cat).value == ClientFallback(raw.value)
    ensures raw.Some? ==> Lower(ClientFallback(raw.value)) == NormStr(raw.value)
  {
    if raw.Some? {
      var n := NormStr(raw.value);
      ClientLadderShape(cat.clients, n, TokenStr(raw.value), ClientFallback(raw.value));
      NormStrShape(raw.value);
      CapitalizeWordsLower(n);
      LowerOfNoUpper(n);
    }
  }

  /** Every stage answers with a catalog name; only the fallback is not one. */
  lemma ClientLadderShape(cs: seq<Client>, n: string, tok: string, fallback: string)
    ensures var r := ClientLadder(cs, n, tok, fallback);
      (exists i :: 0 <= i < |cs| && r == cs[i].name) || r == fallback
  {
    if ClientNameStage(cs, n).None? && ClientAliasStage(cs, n).None? {
      var s3 := SoleHit(cs, NameOf, TextTest(n));
      var s4 := SoleHit(cs, NameOf, TokenTest(tok));
      if s3.Some? {
        SoleHitSpec(cs, NameOf, TextTest(n), s3.value);
      } else if s4.Some? {
        SoleHitSpec(cs, NameOf, TokenTest(tok), s4.value);
      }
    }
  }

  /** The ladder in order, stage 1: an exact name wins, and the first such client. */
  lemma ClientNameFirst(cs: seq<Client>, n: string, tok: string, fallback: string, i: nat)
    requires i < |cs| && n == NormStr(cs[i].name)
    ensures exists j :: 0 <= j <= i && n == NormStr(cs[j].name) && ClientLadder(cs, n, tok, fallback) == cs[j].name
                        && forall m :: 0 <= m < j ==> n != NormStr(cs[m].name)
  {
    var f := ClientNameStage(cs, n);
    assert f.Some? && f.value <= i;
  }

  /** Stage 2: without an exact name, an exact alias wins, and the first such client. */
  lemma ClientAliasSecond(cs: seq<Client>, n: string, tok: string, fallback: string, i: nat)
    requires forall j :: 0 <= j < |cs| ==> n != NormStr(cs[j].name)
    requires i < |cs| && ClientAliasMatches(cs[i], n)
    ensures exists j :: 0 <= j <= i && ClientAliasMatches(cs[j], n) && ClientLadder(cs, n, tok, fallback) == cs[j].name
                        && forall m :: 0 <= m < j ==> !ClientAliasMatches(cs[m], n)
  {
    FirstWhereNone(cs, NameIs(n));
    var f := ClientAliasStage(cs, n);
    assert f.Some? && f.value <= i;
  }

  /** Stage 3: without an exact name or alias, a containment hit wins when every client it
      hits has the same name `k`. */
  lemma ClientTextThird(cs: seq<Client>, n: string, tok: string, fallback: string, k: string)
    requires forall j :: 0 <= j < |cs| ==> n != NormStr(cs[j].name) && !ClientAliasMatches(cs[j], n)
    requires exists i :: 0 <= i < |cs| && TextRelated(cs[i], n) && cs[i].name == k
    requires forall i :: 0 <= i < |cs| && TextRelated(cs[i], n) ==> cs[i].name == k
    ensures ClientLadder(cs, n, tok, fallback) == k
  {
    FirstWhereNone(cs, NameIs(n));
    FirstWhereNone(cs, AliasIs(n));
    SoleHitSpec(cs, NameOf, TextTest(n), k);
  }

  /** Ties abstain: when no exact stage decides and two clients with different names are
      hit by both containment stages, the answer is the fallback. */
  lemma CanonicalClientAmbiguous(cs: seq<Client>, n: string, tok: string, fallback: string, i: nat, j: nat)
    requires i < |cs| && j < |cs| && cs[i].name != cs[j].name
    requires ClientNameStage(cs, n).None? && ClientAliasStage(cs, n).None?
    requires TextRelated(cs[i], n) && TextRelated(cs[j], n)
    requires TokenRelated(cs[i], tok) && TokenRelated(cs[j], tok)
    ensures ClientLadder(cs, n, tok, fallback) == fallback
  {
    SoleHitTie(cs, NameOf, TextTest(n), i, j);
    SoleHitTie(cs, NameOf, TokenTest(tok), i, j);
  }

  /** Stage 3's inner loop with its `break`: does any of the client's texts relate? */
  method AnyTextRelated(c: Client, n: string) returns (hit: bool)
    ensures hit == TextRelated(c, n)
  {
    var tokens := [c.name] + c.aliases;
    hit := false;
    var j := 0;
    while j < |tokens|
      invariant 0 <= j <= |tokens|
      invariant forall m :: 0 <= m < j ==> !(Contains(n, NormStr(tokens[m])) || Contains(NormStr(tokens[m]), n))
    {
      var tn := NormStr(tokens[j]);
      if Contains(n, tn) || Contains(tn, n) {
        hit := true;
        break;
      }
      j := j + 1;
    }
  }

  /** Stage 4's inner loop over the precomputed non-empty token forms, with its `break`. */
  method AnyTokenRelated(c: Client, tok: string) returns (hit: bool)
    ensures hit == TokenRelated(c, tok)
  {
    var found := FindFirst(TokenForms(c), Relates(tok));
    FirstWhereExists(TokenForms(c), Relates(tok));
    hit := found.Some?;
  }

  /** Stage 4's containment test, as a function. */
  function Relates(tok: string): string -> bool {
    (t: string) => Contains(tok, t) || Contains(t, tok)
  }

  /** The test of containment stage 3, or of stage 4 when `tokenStage` holds. */
  function StageTest(n: string, tokenStage: bool): Client -> bool {
    if tokenStage then TokenTest(n) else TextTest(n)
  }

  /** A containment stage's candidate list: one entry per hit client, in catalog order. */
  method CollectClientHits(cs: seq<Client>, n: string, tokenStage: bool) returns (candidates: seq<string>)
    ensures candidates == Hits(cs, NameOf, StageTest(n, tokenStage))
  {
    var test := StageTest(n, tokenStage);
    candidates := [];
    var i := 0;
    while i < |cs|
      invariant 0 <= i <= |cs|
      invariant candidates == Hits(cs[..i], NameOf, test)
    {
      var hit;
      if tokenStage {
        hit := AnyTokenRelated(cs[i], n);
      } else {
        hit := AnyTextRelated(cs[i], n);
      }
      assert hit == test(cs[i]);
      if hit {
        candidates := candidates + [cs[i].name];
      }
      TakeSnoc(cs, i);
      HitsSnoc(cs[..i], cs[i], NameOf, test);
      i := i + 1;
    }
    TakeAll(cs);
  }

  /** Stage 1 as a loop. */
  method FindClientByName(cs: seq<Client>, n: string) returns (r: Option<nat>)
    ensures r == ClientNameStage(cs, n)
  {
    var i := 0;
    while i < |cs|
      invariant 0 <= i <= |cs|
      invariant forall j :: 0 <= j < i ==> n != NormStr(cs[j].name)
    {
      if n == NormStr(cs[i].name) {
        return Some(i);
      }
      i := i + 1;
    }
    return None;
  }

  /** Stage 2 as nested loops over clients and their aliases. */
  method FindClientByAlias(cs: seq<Client>, n: string) returns (r: Option<nat>)
    ensures r == ClientAliasStage(cs, n)
  {
    var i := 0;
    while i < |cs|
      invariant 0 <= i <= |cs|
      invariant forall j :: 0 <= j < i ==> !ClientAliasMatches(cs[j], n)
    {
      var aliases := cs[i].aliases;
      var j := 0;
      while j < |aliases|
        invariant 0 <= j <= |aliases|
        invariant forall m :: 0 <= m < j ==> n != NormStr(aliases[m])
      {
        if n == NormStr(aliases[j]) {
          assert ClientAliasMatches(cs[i], n);
          return Some(i);
        }
        j := j + 1;
      }
      i := i + 1;
    }
    return None;
  }

  /** `canonicalize_client`, stage by stage. */
  method CanonicalizeClient(raw: Option<string>, cat: ClientsCatalog) returns (r: Option<string>)
    ensures r == CanonicalClientOf(raw, cat)
  {
    if raw.None? {
      return None;
    }
    var n := NormStr(raw.value);
    var tok := TokenStr(raw.value);
    var cs := cat.clients;
    var byName := FindClientByName(cs, n);
    if byName.Some? {
      return Some(cs[byName.value].name);
    }
    var byAlias := FindClientByAlias(cs, n);
    if byAlias.Some? {
      return Some(cs[byAlias.value].name);
    }
    var candidates := CollectClientHits(cs, n, false);
    candidates := UniqueValues(candidates);
    if |candidates| == 1 {
      return Some(candidates[0]);
    }
    var tokHits := CollectClientHits(cs, tok, true);
    tokHits := UniqueValues(tokHits);
    if |tokHits| == 1 {
      return Some(tokHits[0]);
    }
    return Some(ClientFallback(raw.value));
  }

  // ---------------------------------------------------------------- roles

  predicate RoleAliasMatches(e: (string, seq<string>), n: string) {
    exists a :: a in e.1 && n == NormStr(a)
  }

  /** `canonicalize_role`: blank input is "Unknown", an exact canonical name answers itself,
      an alias answers its canonical name, anything else is "Other". */
  function CanonicalRoleOf(raw: Option<string>, cat: RolesCatalog): string {
    if raw.None? || Strip(raw.value) == "" then "Unknown"
    else RoleLadder(cat, NormStr(raw.value))
  }

  /** The two stages over the catalog, given the normal form `n` of the raw text. */
  function RoleLadder(cat: RolesCatalog, n: string): string {
    match FirstWhere(cat.canonical, RoleIs(n))
    case Some(i) => cat.canonical[i]
    case None =>
      match FirstWhere(cat.aliases, RoleAliasIs(n))
      case Some(i) => cat.aliases[i].0
      case None => "Other"
  }

  /** The tests of the two stages, as functions. */
  function RoleIs(n: string): string -> bool {
    (r: string) => n == NormStr(r)
  }

  function RoleAliasIs(n: string): ((string, seq<string>)) -> bool {
    (e: (string, seq<string>)) => RoleAliasMatches(e, n)
  }

  /** The ladder in order: the first canonical name matching exactly, else the first alias
      table entry with a matching alias, else "Other". */
  lemma CanonicalRoleLadder(cat: RolesCatalog, n: string)
    ensures var r := RoleLadder(cat, n);
      && ((exists i :: 0 <= i < |cat.canonical| && n == NormStr(cat.canonical[i])) ==>
            exists i :: 0 <= i < |cat.canonical| && n == NormStr(cat.canonical[i]) && r == cat.canonical[i]
              && forall j :: 0 <= j < i ==> n != NormStr(cat.canonical[j]))
      && ((forall i :: 0 <= i < |cat.canonical| ==> n != NormStr(cat.canonical[i]))
          && (exists i :: 0 <= i < |cat.aliases| && RoleAliasMatches(cat.aliases[i], n)) ==>
            exists i :: 0 <= i < |cat.aliases| && RoleAliasMatches(cat.aliases[i], n) && r == cat.aliases[i].0
              && forall j :: 0 <= j < i ==> !RoleAliasMatches(cat.aliases[j], n))
      && ((forall i :: 0 <= i < |cat.canonical| ==> n != NormStr(cat.canonical[i]))
          && (forall i :: 0 <= i < |cat.aliases| ==> !RoleAliasMatches(cat.aliases[i], n)) ==>
            r == "Other")
  {
    var f := FirstWhere(cat.canonical, RoleIs(n));
    if f.None? {
      var g := FirstWhere(cat.aliases, RoleAliasIs(n));
    }
  }

  /** The role is one of the catalog's canonical names, an alias table key, "Unknown" or "Other". */
  lemma CanonicalRoleRange(raw: Option<string>, cat: RolesCatalog)
    ensures var r := CanonicalRoleOf(raw, cat);
      r in cat.canonical || HasKey(cat.aliases, r) || r == "Unknown" || r == "Other"
  {
    if raw.Some? && Strip(raw.value) != "" {
      var n := NormStr(raw.value);
      if FirstWhere(cat.canonical, RoleIs(n)).None? {
        match FirstWhere(cat.aliases, RoleAliasIs(n))
        case Some(i) => KeysAt(cat.aliases, i);
        case None =>
      }
    }
  }

  /** `canonicalize_role`, with its loops. */
  method CanonicalizeRole(raw: Option<string>, cat: RolesCatalog) returns (r: string)
    ensures r == CanonicalRoleOf(raw, cat)
  {
    if raw.None? || Strip(raw.value) == "" {
      return "Unknown";
    }
    r := RoleLadderLoops(cat, NormStr(raw.value));
  }

  /** The loops of `canonicalize_role` over the canonical names and the alias table. */
  method RoleLadderLoops(cat: RolesCatalog, n: string) returns (r: string)
    ensures r == RoleLadder(cat, n)
  {
    var i := 0;
    while i < |cat.canonical|
      invariant 0 <= i <= |cat.canonical|
      invariant forall j :: 0 <= j < i ==> !RoleIs(n)(cat.canonical[j])
    {
      if n == NormStr(cat.canonical[i]) {
        FirstWhereSome(cat.canonical, RoleIs(n), i);
        return cat.canonical[i];
      }
      i := i + 1;
    }
    FirstWhereNone(cat.canonical, RoleIs(n));
    i := 0;
    while i < |cat.aliases|
      invariant 0 <= i <= |cat.aliases|
      invariant forall j :: 0 <= j < i ==> !RoleAliasIs(n)(cat.aliases[j])
    {
      var (canon, aliases) := cat.aliases[i];
      var j := 0;
      while j < |aliases|
        invariant 0 <= j <= |aliases|
        invariant forall m :: 0 <= m < j ==> n != NormStr(aliases[m])
      {
        if n == NormStr(aliases[j]) {
          assert RoleAliasMatches(cat.aliases[i], n);
          FirstWhereSome(cat.aliases, RoleAliasIs(n), i);
          return canon;
        }
        j := j + 1;
      }
      i := i + 1;
    }
    FirstWhereNone(cat.aliases, RoleAliasIs(n));
    return "Other";
  }

  // ---------------------------------------------------------------- steps

  datatype MatchType = ExactMatch | AliasMatch | FuzzyMatch | NoMatch

  /** `match_step(..., return_details=True)`; the plain form returns `stepId` alone. */
  datatype StepMatch = StepMatch(stepId: Option<string>, matchType: MatchType, score: real, matchedAlias: Option<string>)

  const NoStep: StepMatch := StepMatch(None, NoMatch, 0.0, None)

  /** A fuzzy hit: the step it votes for, the length of the normalised text that hit, and
      that text as written (the step id itself for a step-name hit, the alias for an alias
      hit). Its score is the length over the step text's length. */
  datatype FuzzyHit = FuzzyHit(stepId: string, len: nat, alias: string)

  /** `max(len(step_n), 1)`. */
  function Denominator(n: string): (d: nat)
    ensures d >= 1 && d >= |n|
  {
    if |n| > 1 then |n| else 1
  }

  /** `len(an) / max(len(step_n), 1)` for a text of length `len`. */
  function Ratio(len: nat, n: string): real {
    (len as real) / (Denominator(n) as real)
  }

  /** `max(0.01, min(1.0, x))`. */
  function Clamp(x: real): (r: real)
    ensures 0.01 <= r <= 1.0
    ensures 0.01 <= x <= 1.0 ==> r == x
  {
    if x > 1.0 then 1.0 else if x < 0.01 then 0.01 else x
  }

  /** The tests of the two exact stages, as functions. */
  function SameText(raw: string): string -> bool {
    (s: string) => NormStr(raw) == NormStr(s)
  }

  function NormalizesTo(n: string): string -> bool {
    (a: string) => n == Normalize(a)
  }

  function AliasEntryIs(n: string): ((string, seq<string>)) -> bool {
    (e: (string, seq<string>)) => StepAliasMatches(e, n)
  }

  /** Stage 1: the first step whose `norm_text` equals the raw text's. */
  function ExactStepStage(steps: seq<string>, raw: string): Option<nat> {
    FirstWhere(steps, SameText(raw))
  }

  predicate StepAliasMatches(e: (string, seq<string>), n: string) {
    exists a :: a in e.1 && n == Normalize(a)
  }

  /** Stage 2: in table order, the first alias whose `normalize_text` equals the step text's;
      the answer is its step id and the alias itself. */
  function StepAliasStage(d: Dict<string, seq<string>>, n: string): Option<(string, string)> {
    match FirstWhere(d, AliasEntryIs(n))
    case None => None
    case Some(i) =>
      match FirstWhere(d[i].1, NormalizesTo(n))
      case None => None
      case Some(j) => Some((d[i].0, d[i].1[j]))
  }

  /** A hit for every step whose normalised name lies inside the step text. */
  function StepHits(steps: seq<string>, n: string): seq<FuzzyHit> {
    Hits(steps, StepHit(n), Inside(n))
  }

  /** The hit a step name makes. */
  function StepHit(n: string): string -> FuzzyHit {
    (s: string) => FuzzyHit(s, |Normalize(s)|, s)
  }

  /** The hit an alias of step `k` makes. */
  function AliasHit(k: string, n: string): string -> FuzzyHit {
    (a: string) => FuzzyHit(k, |Normalize(a)|, a)
  }

  /** `normalize_text(t) in step_n`: only a text lying inside the step text hits. */
  predicate InsideText(n: string, t: string) {
    Contains(n, Normalize(t))
  }

  function Inside(n: string): string -> bool {
    (t: string) => InsideText(n, t)
  }

  /** A hit for every alias of step `k` whose normalised form lies inside the step text. */
  function AliasHits(k: string, aliases: seq<string>, n: string): seq<FuzzyHit> {
    Hits(aliases, AliasHit(k, n), Inside(n))
  }

  /** The alias hits of the whole table, entry by entry. */
  function TableHits(d: Dict<string, seq<string>>, n: string): seq<FuzzyHit>
    decreases |d|
  {
    if d == [] then []
    else TableHits(d[..|d| - 1], n) + AliasHits(d[|d| - 1].0, d[|d| - 1].1, n)
  }

  /** Stage 3's hits in the order the source records them: step names, then aliases. */
  function FuzzyHits(spec: CatalogProcess, n: string): seq<FuzzyHit> {
    StepHits(spec.steps, n) + TableHits(spec.stepAliases, n)
  }

  /** The `candidates` list: the step id of every hit, duplicates kept. */
  function HitIds(hs: seq<FuzzyHit>): (r: seq<string>)
    ensures |r| == |hs|
    decreases |hs|
  {
    if hs == [] then [] else HitIds(hs[..|hs| - 1]) + [hs[|hs| - 1].stepId]
  }

  /** The longest hit for `k`, 0 without one; its ratio is the best score `k` gets. */
  function BestLen(hs: seq<FuzzyHit>, k: string): nat
    decreases |hs|
  {
    if hs == [] then 0
    else
      var h, b := hs[|hs| - 1], BestLen(hs[..|hs| - 1], k);
      if h.stepId == k && h.len > b then h.len else b
  }

  /** The text of the last hit for `k`. */
  function LastAlias(hs: seq<FuzzyHit>, k: string): Option<string>
    decreases |hs|
  {
    if hs == [] then None
    else if hs[|hs| - 1].stepId == k then Some(hs[|hs| - 1].alias)
    else LastAlias(hs[..|hs| - 1], k)
  }

  /** Stage 3: when the hits agree on one step, that step, its best ratio clamped to
      [0.01, 1.0], and the text of its last hit. */
  function FuzzyStage(spec: CatalogProcess, n: string): StepMatch {
    var hs := FuzzyHits(spec, n);
    var u := Unique(HitIds(hs));
    if |u| == 1 then StepMatch(Some(u[0]), FuzzyMatch, Clamp(Ratio(BestLen(hs, u[0]), n)), LastAlias(hs, u[0]))
    else NoStep
  }

  /** `match_step`. */
  function MatchStepOf(stepRaw: Option<string>, process: Option<string>, cat: ProcessCatalog): StepMatch {
    if !Truthy(stepRaw) || !Truthy(process) then NoStep
    else
      match Get(cat.processes, process.value)
      case None => NoStep
      case Some(spec) =>
        var n := Normalize(stepRaw.value);
        if n == "" then NoStep else StepLadder(spec, stepRaw.value, n)
  }

  /** The three stages over one catalog process, given the raw step text and its normal form. */
  function StepLadder(spec: CatalogProcess, raw: string, n: string): StepMatch {
    match ExactStepStage(spec.steps, raw)
    case Some(i) => StepMatch(Some(spec.steps[i]), ExactMatch, 1.0, None)
    case None =>
      match StepAliasStage(spec.stepAliases, n)
      case Some(hit) => StepMatch(Some(hit.0), AliasMatch, 1.0, Some(hit.1))
      case None => FuzzyStage(spec, n)
  }

  /** An alias-stage answer is an alias listed under its step id that normalises to the step
      text, and there is one exactly when some alias does. */
  lemma {:induction false} StepAliasStageSpec(d: Dict<string, seq<string>>, n: string)
    ensures var r := StepAliasStage(d, n);
      && (r.Some? <==> exists i :: 0 <= i < |d| && StepAliasMatches(d[i], n))
      && (r.Some? ==> exists i :: 0 <= i < |d| && d[i].0 == r.value.0 && r.value.1 in d[i].1 && Normalize(r.value.1) == n
                        && forall j :: 0 <= j < i ==> !StepAliasMatches(d[j], n))
  {
    match FirstWhere(d, AliasEntryIs(n))
    case None =>
    case Some(i) =>
      AliasMatchesFirst(d[i], n);
  }

  /** An entry has a matching alias exactly when the search over its aliases finds one. */
  lemma AliasMatchesFirst(e: (string, seq<string>), n: string)
    ensures StepAliasMatches(e, n) <==> FirstWhere(e.1, NormalizesTo(n)).Some?
  {
    if StepAliasMatches(e, n) {
      var a :| a in e.1 && n == Normalize(a);
      var j :| 0 <= j < |e.1| && e.1[j] == a;
      assert NormalizesTo(n)(e.1[j]);
    }
  }

  /** What every fuzzy hit says: its text, normalised, lies inside the step text, its ratio is
      that text's length over the step text's, and it votes for a step of the process (by name)
      or for a key of the alias table (by one of that key's aliases). */
  predicate GoodHit(h: FuzzyHit, spec: CatalogProcess, n: string) {
    && InsideText(n, h.alias)
    && h.len == |Normalize(h.alias)|
    && ((h.stepId in spec.steps && h.alias == h.stepId)
        || exists i :: 0 <= i < |spec.stepAliases| && spec.stepAliases[i].0 == h.stepId && h.alias in spec.stepAliases[i].1)
  }

  lemma {:induction false} TableHitsGood(spec: CatalogProcess, d: Dict<string, seq<string>>, n: string)
    requires d <= spec.stepAliases
    ensures forall h :: h in TableHits(d, n) ==> GoodHit(h, spec, n)
    decreases |d|
  {
    if d != [] {
      var m := |d| - 1;
      var last := d[m];
      TableHitsGood(spec, d[..m], n);
      HitsMembers(last.1, AliasHit(last.0, n), Inside(n));
      assert spec.stepAliases[m] == last;
      forall h | h in AliasHits(last.0, last.1, n) ensures GoodHit(h, spec, n) {
        var j :| 0 <= j < |last.1| && Inside(n)(last.1[j]) && AliasHit(last.0, n)(last.1[j]) == h;
        assert h.stepId == spec.stepAliases[m].0 && h.alias in spec.stepAliases[m].1;
      }
    }
  }

  lemma {:induction false} FuzzyHitsGood(spec: CatalogProcess, n: string)
    ensures forall h :: h in FuzzyHits(spec, n) ==> GoodHit(h, spec, n)
  {
    HitsMembers(spec.steps, StepHit(n), Inside(n));
    TableHitsGood(spec, spec.stepAliases, n);
    forall h | h in StepHits(spec.steps, n) ensures GoodHit(h, spec, n) {
      var j :| 0 <= j < |spec.steps| && Inside(n)(spec.steps[j]) && StepHit(n)(spec.steps[j]) == h;
    }
  }

  /** A length no greater than a non-empty step text's gives a ratio in [0, 1]. */
  lemma {:induction false} RatioBounds(len: nat, n: string)
    requires n != "" && len <= |n|
    ensures 0.0 <= Ratio(len, n) <= 1.0
  {
    assert Denominator(n) == |n|;
    assert (len as real) <= (|n| as real);
  }

  /** A longer text has a ratio at least as large. */
  lemma {:induction false} RatioMonotone(a: nat, b: nat, n: string)
    requires a <= b
    ensures Ratio(a, n) <= Ratio(b, n)
  {
    var d := Denominator(n) as real;
    assert (a as real) <= (b as real);
    assert (a as real) / d <= (b as real) / d;
  }

  lemma {:induction false} HitIdsMembers(hs: seq<FuzzyHit>)
    ensures forall k :: k in HitIds(hs) <==> exists h :: h in hs && h.stepId == k
    decreases |hs|
  {
    if hs != [] {
      var q := hs[..|hs| - 1];
      HitIdsMembers(q);
      assert hs == q + [hs[|hs| - 1]];
    }
  }

  /** The longest hit for `k` is one of `k`'s hits (when there is a hit of positive length)
      and no hit for `k` is longer; with every hit within a bound, so is the longest. */
  lemma {:induction false} BestLenBounds(hs: seq<FuzzyHit>, k: string, bound: nat)
    requires forall h :: h in hs ==> h.len <= bound
    ensures BestLen(hs, k) <= bound
    ensures BestLen(hs, k) > 0 ==> exists h :: h in hs && h.stepId == k && h.len == BestLen(hs, k)
    ensures forall h :: h in hs && h.stepId == k ==> h.len <= BestLen(hs, k)
    decreases |hs|
  {
    if hs != [] {
      var q := hs[..|hs| - 1];
      assert hs == q + [hs[|hs| - 1]];
      BestLenBounds(q, k, bound);
    }
  }

  lemma {:induction false} LastAliasIsHit(hs: seq<FuzzyHit>, k: string)
    ensures LastAlias(hs, k).Some? <==> exists h :: h in hs && h.stepId == k
    ensures LastAlias(hs, k).Some? ==> exists h :: h in hs && h.stepId == k && h.alias == LastAlias(hs, k).value
    decreases |hs|
  {
    if hs != [] {
      var q := hs[..|hs| - 1];
      assert hs == q + [hs[|hs| - 1]];
      LastAliasIsHit(q, k);
    }
  }

  /** The null answers: no step text, no process, a process missing from the catalog, or a
      step text that normalises to nothing. */
  lemma {:induction false} MatchStepNoneCases(stepRaw: Option<string>, process: Option<string>, cat: ProcessCatalog)
    requires || !Truthy(stepRaw) || !Truthy(process)
             || !InCatalog(cat, process.value)
             || Normalize(stepRaw.value) == ""
    ensures MatchStepOf(stepRaw, process, cat) == NoStep
  {
    if Truthy(stepRaw) && Truthy(process) {
      GetFacts(cat.processes, process.value);
    }
  }

  /** What an answer `r` for the step text `raw` (normal form `n`) means in process `spec`.
      It names a step of the process or a key of its alias table, with a score in [0.01, 1.0].
      An exact answer is a step equal to the text up to spacing and case, scored 1.0. An alias
      answer reports the alias, which normalises to the step text, scored 1.0. A fuzzy answer
      is the step every hit votes for, scored by its best length ratio (raised to 0.01 at
      least), reporting a hit text that lies inside the step text. */
  ghost predicate StepMeans(r: StepMatch, spec: CatalogProcess, raw: string, n: string)
    requires r.stepId.Some?
  {
    && r.matchType != NoMatch
    && 0.01 <= r.score <= 1.0
    && (r.stepId.value in spec.steps || HasKey(spec.stepAliases, r.stepId.value))
    && (r.matchType == ExactMatch ==>
          r.score == 1.0 && r.matchedAlias.None? && NormStr(r.stepId.value) == NormStr(raw))
    && (r.matchType == AliasMatch ==>
          r.score == 1.0 && r.matchedAlias.Some? && Normalize(r.matchedAlias.value) == n)
    && (r.matchType == FuzzyMatch ==>
          var best := Ratio(BestLen(FuzzyHits(spec, n), r.stepId.value), n);
          && (forall h :: h in FuzzyHits(spec, n) ==> h.stepId == r.stepId.value)
          && 0.0 <= best <= 1.0
          && r.score == (if best < 0.01 then 0.01 else best)
          && r.matchedAlias.Some? && InsideText(n, r.matchedAlias.value))
  }

  /** What each kind of answer means (see `StepMeans`); no answer is exactly the null result. */
  lemma {:induction false} MatchStepMeaning(stepRaw: Option<string>, process: Option<string>, cat: ProcessCatalog)
    ensures var r := MatchStepOf(stepRaw, process, cat);
      && (r.stepId.None? <==> r == NoStep)
      && (r.stepId.Some? ==>
            && stepRaw.Some? && process.Some? && Get(cat.processes, process.value).Some?
            && StepMeans(r, Get(cat.processes, process.value).value, stepRaw.value, Normalize(stepRaw.value)))
  {
    if Truthy(stepRaw) && Truthy(process) && Get(cat.processes, process.value).Some? && Normalize(stepRaw.value) != "" {
      StepLadderMeaning(Get(cat.processes, process.value).value, stepRaw.value, Normalize(stepRaw.value));
    }
  }

  /** The ladder's answers mean what `StepMeans` says. */
  lemma StepLadderMeaning(spec: CatalogProcess, raw: string, n: string)
    requires n != ""
    ensures var r := StepLadder(spec, raw, n);
      (r.stepId.None? <==> r == NoStep) && (r.stepId.Some? ==> StepMeans(r, spec, raw, n))
  {
    var ex := ExactStepStage(spec.steps, raw);
    if ex.None? {
      var al := StepAliasStage(spec.stepAliases, n);
      if al.Some? {
        StepAliasStageSpec(spec.stepAliases, n);
        var i :| 0 <= i < |spec.stepAliases| && spec.stepAliases[i].0 == al.value.0 && al.value.1 in spec.stepAliases[i].1 && Normalize(al.value.1) == n;
        KeysAt(spec.stepAliases, i);
      } else {
        FuzzyStageMeaning(spec, raw, n);
      }
    }
  }

  /** The fuzzy stage's answer means what `StepMeans` says of a fuzzy answer. */
  lemma FuzzyStageMeaning(spec: CatalogProcess, raw: string, n: string)
    requires n != ""
    ensures var r := FuzzyStage(spec, n);
      (r.stepId.None? <==> r == NoStep) && (r.stepId.Some? ==> r.matchType == FuzzyMatch && StepMeans(r, spec, raw, n))
  {
    var r := FuzzyStage(spec, n);
    if r.stepId.Some? {
      var hs := FuzzyHits(spec, n);
      var k := r.stepId.value;
      FuzzyVotes(spec, n, k);
      BestLenBounds(hs, k, |n|);
      RatioBounds(BestLen(hs, k), n);
      var h :| h in hs && h.stepId == k;
      FuzzyVoteKnown(spec, n, h);
    }
  }

  /** The fuzzy stage's step gets a hit, and every hit votes for it and is no longer than
      the step text. */
  lemma FuzzyVotes(spec: CatalogProcess, n: string, k: string)
    requires FuzzyStage(spec, n).stepId == Some(k)
    ensures var hs := FuzzyHits(spec, n);
      && (exists h :: h in hs && h.stepId == k)
      && (forall h :: h in hs ==> h.stepId == k && h.len <= |n|)
      && LastAlias(hs, k).Some? && InsideText(n, LastAlias(hs, k).value)
  {
    var hs := FuzzyHits(spec, n);
    FuzzyHitsGood(spec, n);
    HitIdsMembers(hs);
    UniqueSingleton(HitIds(hs));
    assert k in HitIds(hs) by { assert Unique(HitIds(hs))[0] in Unique(HitIds(hs)); }
    forall h | h in hs ensures h.stepId == k && h.len <= |n| {
      assert h.stepId in HitIds(hs);
      ContainsNoLonger(n, Normalize(h.alias));
    }
    LastAliasIsHit(hs, k);
  }

  /** A fuzzy hit votes for a step of the process or a key of its alias table. */
  lemma FuzzyVoteKnown(spec: CatalogProcess, n: string, h: FuzzyHit)
    requires h in FuzzyHits(spec, n)
    ensures h.stepId in spec.steps || HasKey(spec.stepAliases, h.stepId)
  {
    FuzzyHitsGood(spec, n);
    if !(h.stepId in spec.steps) {
      var i :| 0 <= i < |spec.stepAliases| && spec.stepAliases[i].0 == h.stepId && h.alias in spec.stepAliases[i].1;
      KeysAt(spec.stepAliases, i);
    }
  }

  /** Ties abstain: when neither exact stage answers and two hits vote for different steps,
      there is no answer. */
  lemma {:induction false} MatchStepAmbiguous(stepRaw: string, process: string, cat: ProcessCatalog, spec: CatalogProcess, h1: FuzzyHit, h2: FuzzyHit)
    requires Get(cat.processes, process) == Some(spec)
    requires ExactStepStage(spec.steps, stepRaw).None? && StepAliasStage(spec.stepAliases, Normalize(stepRaw)).None?
    requires h1 in FuzzyHits(spec, Normalize(stepRaw)) && h2 in FuzzyHits(spec, Normalize(stepRaw))
    requires h1.stepId != h2.stepId
    ensures MatchStepOf(Some(stepRaw), Some(process), cat) == NoStep
  {
    var n := Normalize(stepRaw);
    var hs := FuzzyHits(spec, n);
    HitIdsMembers(hs);
    UniqueSingleton(HitIds(hs));
    assert h1.stepId in HitIds(hs) && h2.stepId in HitIds(hs);
  }

  // ------------------------------------------------ match_step as loops

  /** Stage 1 as a loop. */
  method FindExactStep(steps: seq<string>, raw: string) returns (r: Option<nat>)
    ensures r == ExactStepStage(steps, raw)
  {
    var i := 0;
    while i < |steps|
      invariant 0 <= i <= |steps|
      invariant forall j :: 0 <= j < i ==> NormStr(raw) != NormStr(steps[j])
    {
      if NormStr(raw) == NormStr(steps[i]) {
        return Some(i);
      }
      i := i + 1;
    }
    return None;
  }

  /** Stage 2 as nested loops over the alias table and each step's aliases. */
  method FindStepAlias(d: Dict<string, seq<string>>, n: string) returns (r: Option<(string, string)>)
    ensures r == StepAliasStage(d, n)
  {
    var i := 0;
    while i < |d|
      invariant 0 <= i <= |d|
      invariant forall j :: 0 <= j < i ==> !AliasEntryIs(n)(d[j])
    {
      var (canon, aliases) := d[i];
      var j := FindFirst(aliases, NormalizesTo(n));
      AliasMatchesFirst(d[i], n);
      if j.Some? {
        FirstWhereSome(d, AliasEntryIs(n), i);
        return Some((canon, aliases[j.value]));
      }
      i := i + 1;
    }
    FirstWhereNone(d, AliasEntryIs(n));
    return None;
  }

  /** The fuzzy stage's three working collections agree with the hits recorded so far:
      `candidates` lists their step ids, `scores` holds each candidate's best ratio and
      `aliasOf` the text of its last hit. */
  ghost predicate Tracks(hs: seq<FuzzyHit>, n: string, candidates: seq<string>, scores: map<string, real>, aliasOf: map<string, string>) {
    && candidates == HitIds(hs)
    && (forall k :: k in scores <==> k in candidates)
    && (forall k :: k in aliasOf <==> k in candidates)
    && (forall k :: k in scores ==> scores[k] == Ratio(BestLen(hs, k), n))
    && (forall k :: k in aliasOf ==> LastAlias(hs, k) == Some(aliasOf[k]))
  }

  lemma {:induction false} TracksSnoc(hs: seq<FuzzyHit>, h: FuzzyHit, n: string, candidates: seq<string>,
                                     scores: map<string, real>, aliasOf: map<string, string>, v: real)
    requires Tracks(hs, n, candidates, scores, aliasOf)
    requires v == Ratio(BestLen(hs + [h], h.stepId), n)
    ensures Tracks(hs + [h], n, candidates + [h.stepId], scores[h.stepId := v], aliasOf[h.stepId := h.alias])
  {
    var hs' := hs + [h];
    assert hs'[..|hs|] == hs;
    forall k | k != h.stepId
      ensures BestLen(hs', k) == BestLen(hs, k) && LastAlias(hs', k) == LastAlias(hs, k)
    {
    }
  }

  lemma {:induction false} BestLenAtMost(hs: seq<FuzzyHit>, k: string, bound: nat)
    requires forall h :: h in hs && h.stepId == k ==> h.len <= bound
    ensures BestLen(hs, k) <= bound
    decreases |hs|
  {
    if hs != [] {
      var q := hs[..|hs| - 1];
      assert hs == q + [hs[|hs| - 1]];
      BestLenAtMost(q, k, bound);
    }
  }

  /** A step without hits has best length 0. */
  lemma {:induction false} BestLenNoHit(hs: seq<FuzzyHit>, k: string)
    requires k !in HitIds(hs)
    ensures BestLen(hs, k) == 0
  {
    HitIdsMembers(hs);
    BestLenAtMost(hs, k, 0);
  }

  /** Recording one more hit, as both loops of stage 3 do; `v` is the score the source
      stores for the hit's step. */
  method RecordHit(ghost hs: seq<FuzzyHit>, h: FuzzyHit, n: string, candidates: seq<string>,
                   scores: map<string, real>, aliasOf: map<string, string>, v: real)
    returns (candidates': seq<string>, scores': map<string, real>, aliasOf': map<string, string>)
    requires Tracks(hs, n, candidates, scores, aliasOf)
    requires v == Ratio(BestLen(hs + [h], h.stepId), n)
    ensures Tracks(hs + [h], n, candidates', scores', aliasOf')
  {
    TracksSnoc(hs, h, n, candidates, scores, aliasOf, v);
    candidates' := candidates + [h.stepId];
    scores' := scores[h.stepId := v];
    aliasOf' := aliasOf[h.stepId := h.alias];
  }

  /** The score an alias hit stores, `max(candidate_scores.get(k, 0.0), ratio)`, is the
      ratio of the longest hit for `k` once the hit is recorded. */
  lemma {:induction false} AliasScoreStep(hs: seq<FuzzyHit>, h: FuzzyHit, n: string, candidates: seq<string>,
                                         scores: map<string, real>, aliasOf: map<string, string>)
    requires Tracks(hs, n, candidates, scores, aliasOf)
    ensures var prev := if h.stepId in scores then scores[h.stepId] else 0.0;
      (if prev >= Ratio(h.len, n) then prev else Ratio(h.len, n)) == Ratio(BestLen(hs + [h], h.stepId), n)
  {
    var k := h.stepId;
    if k !in scores {
      BestLenNoHit(hs, k);
    }
    var b := BestLen(hs, k);
    if b >= h.len {
      RatioMonotone(h.len, b, n);
    } else {
      RatioMonotone(b, h.len, n);
    }
    assert (hs + [h])[..|hs|] == hs;
  }

  /** A hit at least as long as every earlier hit for its step becomes the longest. */
  lemma {:induction false} LongestSnoc(hs: seq<FuzzyHit>, h: FuzzyHit)
    requires BestLen(hs, h.stepId) <= h.len
    ensures BestLen(hs + [h], h.stepId) == h.len
  {
    assert (hs + [h])[..|hs|] == hs;
  }

  lemma TableHitsSnoc(hs0: seq<FuzzyHit>, d: Dict<string, seq<string>>, i: nat, n: string)
    requires i < |d|
    ensures hs0 + TableHits(d[..i + 1], n) == hs0 + TableHits(d[..i], n) + AliasHits(d[i].0, d[i].1, n)
  {
    TakeSnoc(d, i);
  }

  /** One more alias, appended after the hits `hs0` already recorded. */
  lemma AliasHitsSnoc(hs0: seq<FuzzyHit>, canon: string, aliases: seq<string>, j: nat, n: string)
    requires j < |aliases|
    ensures hs0 + AliasHits(canon, aliases[..j + 1], n)
         == hs0 + AliasHits(canon, aliases[..j], n)
            + (if InsideText(n, aliases[j]) then [FuzzyHit(canon, |Normalize(aliases[j])|, aliases[j])] else [])
  {
    TakeSnoc(aliases, j);
    HitsSnoc(aliases[..j], aliases[j], AliasHit(canon, n), Inside(n));
  }

  /** Stage 3's loop over the step names. */
  method CollectStepHits(steps: seq<string>, n: string)
    returns (ghost hs: seq<FuzzyHit>, candidates: seq<string>, scores: map<string, real>, aliasOf: map<string, string>)
    ensures hs == StepHits(steps, n)
    ensures Tracks(hs, n, candidates, scores, aliasOf)
  {
    hs, candidates, scores, aliasOf := [], [], map[], map[];
    var i := 0;
    while i < |steps|
      invariant 0 <= i <= |steps|
      invariant hs == StepHits(steps[..i], n)
      invariant forall h :: h in hs ==> h.len == |Normalize(h.stepId)|
      invariant Tracks(hs, n, candidates, scores, aliasOf)
    {
      var s := steps[i];
      var sn := Normalize(s);
      TakeSnoc(steps, i);
      HitsSnoc(steps[..i], s, StepHit(n), Inside(n));
      if Contains(n, sn) {
        var h := FuzzyHit(s, |sn|, s);
        BestLenAtMost(hs, s, |sn|);
        LongestSnoc(hs, h);
        candidates, scores, aliasOf := RecordHit(hs, h, n, candidates, scores, aliasOf, Ratio(|sn|, n));
        hs := hs + [h];
      }
      i := i + 1;
    }
    TakeAll(steps);
  }

  /** Stage 3's inner loop over the aliases of one step. */
  method CollectAliasHits(canon: string, aliases: seq<string>, n: string, ghost hs0: seq<FuzzyHit>,
                          candidates0: seq<string>, scores0: map<string, real>, aliasOf0: map<string, string>)
    returns (ghost hs: seq<FuzzyHit>, candidates: seq<string>, scores: map<string, real>, aliasOf: map<string, string>)
    requires Tracks(hs0, n, candidates0, scores0, aliasOf0)
    ensures hs == hs0 + AliasHits(canon, aliases, n)
    ensures Tracks(hs, n, candidates, scores, aliasOf)
  {
    hs, candidates, scores, aliasOf := hs0, candidates0, scores0, aliasOf0;
    var j := 0;
    while j < |aliases|
      invariant 0 <= j <= |aliases|
      invariant hs == hs0 + AliasHits(canon, aliases[..j], n)
      invariant Tracks(hs, n, candidates, scores, aliasOf)
    {
      var alias := aliases[j];
      var an := Normalize(alias);
      AliasHitsSnoc(hs0, canon, aliases, j, n);
      if Contains(n, an) {
        var h := FuzzyHit(canon, |an|, alias);
        var prev := if canon in scores then scores[canon] else 0.0;
        AliasScoreStep(hs, h, n, candidates, scores, aliasOf);
        var v := if prev >= Ratio(|an|, n) then prev else Ratio(|an|, n);
        candidates, scores, aliasOf := RecordHit(hs, h, n, candidates, scores, aliasOf, v);
        hs := hs + [h];
      }
      j := j + 1;
    }
    TakeAll(aliases);
  }

  /** Stage 3's outer loop over the alias table. */
  method CollectTableHits(d: Dict<string, seq<string>>, n: string, ghost hs0: seq<FuzzyHit>,
                          candidates0: seq<string>, scores0: map<string, real>, aliasOf0: map<string, string>)
    returns (ghost hs: seq<FuzzyHit>, candidates: seq<string>, scores: map<string, real>, aliasOf: map<string, string>)
    requires Tracks(hs0, n, candidates0, scores0, aliasOf0)
    ensures hs == hs0 + TableHits(d, n)
    ensures Tracks(hs, n, candidates, scores, aliasOf)
  {
    hs, candidates, scores, aliasOf := hs0, candidates0, scores0, aliasOf0;
    var i := 0;
    while i < |d|
      invariant 0 <= i <= |d|
      invariant hs == hs0 + TableHits(d[..i], n)
      invariant Tracks(hs, n, candidates, scores, aliasOf)
    {
      hs, candidates, scores, aliasOf := CollectAliasHits(d[i].0, d[i].1, n, hs, candidates, scores, aliasOf);
      TableHitsSnoc(hs0, d, i, n);
      i := i + 1;
    }
    TakeAll(d);
  }

  /** Stage 3: step names, then aliases, then the unique-candidate test. */
  method FuzzyStep(spec: CatalogProcess, n: string) returns (r: StepMatch)
    ensures r == FuzzyStage(spec, n)
  {
    ghost var hs;
    var candidates, scores, aliasOf;
    hs, candidates, scores, aliasOf := CollectStepHits(spec.steps, n);
    hs, candidates, scores, aliasOf := CollectTableHits(spec.stepAliases, n, hs, candidates, scores, aliasOf);
    var unique := UniqueValues(candidates);
    if |unique| == 1 {
      var k := unique[0];
      assert k in candidates by { assert k in unique; }
      var score := Clamp(if k in scores then scores[k] else 0.5);
      var alias := if k in aliasOf then Some(aliasOf[k]) else None;
      return StepMatch(Some(k), FuzzyMatch, score, alias);
    }
    return NoStep;
  }

  /** `match_step`, stage by stage. */
  method MatchStep(stepRaw: Option<string>, process: Option<string>, cat: ProcessCatalog) returns (r: StepMatch)
    ensures r == MatchStepOf(stepRaw, process, cat)
  {
    if !Truthy(stepRaw) || !Truthy(process) {
      return NoStep;
    }
    var found := Get(cat.processes, process.value);
    if found.None? {
      return NoStep;
    }
    var spec := found.value;
    var n := Normalize(stepRaw.value);
    if n == "" {
      return NoStep;
    }
    var exact := FindExactStep(spec.steps, stepRaw.value);
    if exact.Some? {
      return StepMatch(Some(spec.steps[exact.value]), ExactMatch, 1.0, None);
    }
    var byAlias := FindStepAlias(spec.stepAliases, n);
    if byAlias.Some? {
      return StepMatch(Some(byAlias.value.0), AliasMatch, 1.0, Some(byAlias.value.1));
    }
    r := FuzzyStep(spec, n);
  }
}
