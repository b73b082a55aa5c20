/** The small helpers of the reconciliation engine: workflow ids, display keys, the
    similarity wrapper, evidence-id merging and extraction, and timestamp choice
    (src/demo/pipeline/reconciliation.py, lines 269-413). */
module ReconHelpers {
  import opened Wrappers
  import opened Text
  import opened Seqs

  // ---------------------------------------------------------------- workflow ids

  /** How an f-string prints an optional string: `None` prints as "None". */
  function Show(o: Option<string>): string {
    if o.None? then "None" else o.value
  }

  /** The text hashed for a new workflow: the canonical triple when all three are truthy,
      otherwise the instance key with the canonical process and raw client and role. */
  function WorkflowIdBase(process: Option<string>, client: Option<string>, role: Option<string>,
                          instanceKey: Option<string>, rawClient: Option<string>, rawRole: Option<string>): string {
    if Truthy(process) && Truthy(client) && Truthy(role) then
      process.value + "|" + client.value + "|" + role.value
    else
      Show(instanceKey) + "|" + OrDefault(process, "") + "|" + OrDefault(rawClient, "") + "|" + OrDefault(rawRole, "")
  }

  /** `generate_workflow_id`: "wf_" and the first 12 characters of the SHA-1 hex digest of the
      base text. The digest is a parameter. */
  function GenerateWorkflowIdOf(process: Option<string>, client: Option<string>, role: Option<string>,
                                instanceKey: Option<string>, rawClient: Option<string>, rawRole: Option<string>,
                                sha1: string -> string): (r: string)
    ensures 3 <= |r| <= 15 && r[..3] == "wf_"
  {
    "wf_" + Take(sha1(WorkflowIdBase(process, client, role, instanceKey, rawClient, rawRole)), 12)
  }

  /** With a full canonical triple, the id depends on the triple alone: two instances of the
      same workflow get the same id whatever their instance keys and raw texts. */
  lemma WorkflowIdStable(process: string, client: string, role: string,
                         k1: Option<string>, c1: Option<string>, r1: Option<string>,
                         k2: Option<string>, c2: Option<string>, r2: Option<string>, sha1: string -> string)
    requires process != "" && client != "" && role != ""
    ensures GenerateWorkflowIdOf(Some(process), Some(client), Some(role), k1, c1, r1, sha1)
         == GenerateWorkflowIdOf(Some(process), Some(client), Some(role), k2, c2, r2, sha1)
  {
  }

  /** Without a full triple the instance key takes part: different instance keys give
      different base texts. */
  lemma WorkflowIdBaseKeyed(process: Option<string>, client: Option<string>, role: Option<string>,
                            k1: string, k2: string, rawClient: Option<string>, rawRole: Option<string>)
    requires !(Truthy(process) && Truthy(client) && Truthy(role))
    requires k1 != k2 && '|' !in k1 && '|' !in k2
    ensures WorkflowIdBase(process, client, role, Some(k1), rawClient, rawRole)
         != WorkflowIdBase(process, client, role, Some(k2), rawClient, rawRole)
  {
    var b1 := WorkflowIdBase(process, client, role, Some(k1), rawClient, rawRole);
    var b2 := WorkflowIdBase(process, client, role, Some(k2), rawClient, rawRole);
    if |k1| <= |k2| {
      assert b2[..|k1|] == k2[..|k1|];
    }
  }

  /** With a digest of 40 hex characters the id has exactly 15 characters. */
  lemma WorkflowIdLength(process: Option<string>, client: Option<string>, role: Option<string>,
                         instanceKey: Option<string>, rawClient: Option<string>, rawRole: Option<string>,
                         sha1: string -> string)
    requires forall t :: |sha1(t)| == 40
    ensures |GenerateWorkflowIdOf(process, client, role, instanceKey, rawClient, rawRole, sha1)| == 15
  {
  }

  // ---------------------------------------------------------------- display keys

  /** `_display_name`: "<role> - <client>" with "Unknown Role" and "Unknown Client" for falsy parts. */
  function DisplayName(role: Option<string>, client: Option<string>): string {
    OrDefault(role, "Unknown Role") + " - " + OrDefault(client, "Unknown Client")
  }

  /** `_display_key`: the display name followed by " - " and the process id, "unknown" when falsy. */
  function DisplayKey(role: Option<string>, client: Option<string>, process: Option<string>): string {
    OrDefault(role, "Unknown Role") + " - " + OrDefault(client, "Unknown Client") + " - " + OrDefault(process, "unknown")
  }

  /** The display key extends the display name; a falsy part and an empty part read alike. */
  lemma DisplayKeyExtendsName(role: Option<string>, client: Option<string>, process: Option<string>)
    ensures DisplayKey(role, client, process) == DisplayName(role, client) + " - " + OrDefault(process, "unknown")
    ensures DisplayKey(role, client, process) == DisplayKey(if Truthy(role) then role else None,
                                                            if Truthy(client) then client else None,
                                                            if Truthy(process) then process else None)
    ensures |DisplayKey(role, client, process)| > |DisplayName(role, client)|
  {
  }

  /** `_similarity`: the ratio of the lower-cased texts. The ratio is a parameter. */
  function Similarity(a: string, b: string, ratio: (string, string) -> real): real {
    ratio(Lower(a), Lower(b))
  }

  /** The similarity ignores case. */
  lemma SimilarityIgnoresCase(a: string, b: string, ratio: (string, string) -> real)
    ensures Similarity(Lower(a), Lower(b), ratio) == Similarity(a, b, ratio)
  {
    LowerOfNoUpper(Lower(a));
    LowerOfNoUpper(Lower(b));
  }

  // ---------------------------------------------------------------- evidence ids

  /** The length at which merging stops: the loop breaks right after an append that reaches
      `max_ids`, so a bound below 1 still lets the first id through. */
  function Cap(maxIds: int): nat {
    if maxIds < 1 then 1 else maxIds
  }

  /** The merge has stopped: the last append reached the bound. */
  predicate Full(m: seq<string>, maxIds: int) {
    m != [] && |m| >= maxIds
  }

  /** One iteration of `_merge_evidence_ids`. */
  function MergeStep(m: seq<string>, x: string, maxIds: int): seq<string> {
    if Full(m, maxIds) || x == "" || x in m then m else m + [x]
  }

  function MergeFold(xs: seq<string>, maxIds: int): seq<string>
    decreases |xs|
  {
    if xs == [] then [] else MergeStep(MergeFold(xs[..|xs| - 1], maxIds), xs[|xs| - 1], maxIds)
  }

  /** `_merge_evidence_ids(existing, incoming, max_ids)`. */
  function MergeIdsOf(existing: seq<string>, incoming: seq<string>, maxIds: int): seq<string> {
    MergeFold(existing + incoming, maxIds)
  }

  /** `[x for x in xs if x]`. */
  function NonEmpty(xs: seq<string>): (r: seq<string>)
    ensures forall x :: x in r <==> x in xs && x != ""
    decreases |xs|
  {
    if xs == [] then []
    else
      var n := |xs| - 1;
      assert forall y :: y in xs <==> y in xs[..n] || y == xs[n] by {
        SnocLast(xs);
      }
      NonEmpty(xs[..n]) + (if xs[n] != "" then [xs[n]] else [])
  }

  lemma {:induction false} NonEmptyAppend(a: seq<string>, b: seq<string>)
    ensures NonEmpty(a + b) == NonEmpty(a) + NonEmpty(b)
    decreases |b|
  {
    if b == [] {
      AppendNil(a);
    } else {
      var n := |b| - 1;
      DropLast(a, b);
      NonEmptyAppend(a, b[..n]);
    }
  }

  /** The reference: the first occurrences of the non-empty ids, in order, cut at the cap. */
  function MergeRef(xs: seq<string>, maxIds: int): seq<string> {
    var u := Unique(NonEmpty(xs));
    if |u| <= Cap(maxIds) then u else u[..Cap(maxIds)]
  }

  /** One more id moves the reference exactly as one more iteration moves the loop. */
  lemma MergeRefSnoc(p: seq<string>, x: string, maxIds: int)
    ensures MergeRef(p + [x], maxIds) == MergeStep(MergeRef(p, maxIds), x, maxIds)
  {
    var u := Unique(NonEmpty(p));
    var m := MergeRef(p, maxIds);
    var ne := NonEmpty(p + [x]);
    assert (p + [x])[..|p|] == p;
    if x == "" {
      assert ne == NonEmpty(p);
    } else {
      assert ne == NonEmpty(p) + [x];
      assert ne[..|ne| - 1] == NonEmpty(p);
      assert Unique(ne) == if x in NonEmpty(p) then u else u + [x];
      if |u| >= Cap(maxIds) {
        assert Full(m, maxIds);
      } else {
        assert !Full(m, maxIds) && (x in m <==> x in NonEmpty(p));
      }
    }
  }

  /** The loop computes the reference. */
  lemma {:induction false} MergeFoldIsRef(xs: seq<string>, maxIds: int)
    ensures MergeFold(xs, maxIds) == MergeRef(xs, maxIds)
    decreases |xs|
  {
    if xs != [] {
      var n := |xs| - 1;
      MergeFoldIsRef(xs[..n], maxIds);
      MergeRefSnoc(xs[..n], xs[n], maxIds);
      SnocLast(xs);
    }
  }

  /** The merged list holds no empty id and no duplicate, only ids of the inputs, and at most
      `Cap(max_ids)` of them; it is a prefix of the first occurrences of the non-empty ids of
      `existing + incoming`, so existing ids come first and first-seen order is kept. */
  lemma MergeIdsMeaning(existing: seq<string>, incoming: seq<string>, maxIds: int)
    ensures var r, u := MergeIdsOf(existing, incoming, maxIds), Unique(NonEmpty(existing + incoming));
      && Distinct(r)
      && (forall x :: x in r ==> x != "" && x in existing + incoming)
      && |r| <= Cap(maxIds)
      && |r| <= |u| && r == u[..|r|]
      && (|r| < Cap(maxIds) ==> forall x :: x in existing + incoming && x != "" ==> x in r)
  {
    var xs := existing + incoming;
    MergeFoldIsRef(xs, maxIds);
    var u := Unique(NonEmpty(xs));
    var r := MergeIdsOf(existing, incoming, maxIds);
    forall x | x in r ensures x != "" && x in xs {
      assert x in u;
    }
    if |u| > Cap(maxIds) {
      forall i, j | 0 <= i < j < |r| ensures r[i] != r[j] {
        assert r[i] == u[i] && r[j] == u[j];
      }
    }
  }



  /** Filtering out empty ids from a list without any changes nothing. */
  lemma {:induction false} NonEmptyOfClean(a: seq<string>)
    requires forall x :: x in a ==> x != ""
    ensures NonEmpty(a) == a
    decreases |a|
  {
    if a != [] {
      var n := |a| - 1;
      assert forall x :: x in a[..n] ==> x in a;
      NonEmptyOfClean(a[..n]);
      assert a[n] in a;
      SnocLast(a);
    }
  }

  /** A clean list that is full, or already holds every non-empty incoming id, is the
      reference of itself followed by the incoming ids. */
  lemma MergeRefStable(r: seq<string>, incoming: seq<string>, maxIds: int)
    requires Distinct(r) && (forall x :: x in r ==> x != "") && |r| <= Cap(maxIds)
    requires |r| == Cap(maxIds) || forall x :: x in incoming && x != "" ==> x in r
    ensures MergeRef(r + incoming, maxIds) == r
  {
    var ni := NonEmpty(incoming);
    NonEmptyAppend(r, incoming);
    NonEmptyOfClean(r);
    UniqueOfDistinct(r);
    UniqueAppend(r, ni);
    var w := Unique(r + ni);
    if |r| < Cap(maxIds) {
      UniqueAbsorb(r, ni);
    }
  }


  /** Merging the same incoming ids into the merged list again changes nothing. */
  lemma MergeIdsIdempotent(existing: seq<string>, incoming: seq<string>, maxIds: int)
    ensures var r := MergeIdsOf(existing, incoming, maxIds);
      MergeIdsOf(r, incoming, maxIds) == r
  {
    var r := MergeIdsOf(existing, incoming, maxIds);
    MergeIdsMeaning(existing, incoming, maxIds);
    MergeFoldIsRef(r + incoming, maxIds);
    MergeRefStable(r, incoming, maxIds);
  }

  /** Merging a clean list that fits under the cap into nothing gives the list back. */
  lemma MergeIdsOfClean(ids: seq<string>, maxIds: int)
    requires Distinct(ids) && (forall x :: x in ids ==> x != "") && |ids| <= Cap(maxIds)
    ensures MergeIdsOf([], ids, maxIds) == ids
  {
    assert [] + ids == ids;
    MergeFoldIsRef(ids, maxIds);
    NonEmptyOfClean(ids);
    UniqueOfDistinct(ids);
  }

  /** Once the merge is full, later ids change nothing: what the `break` relies on. */
  lemma {:induction false} MergeFoldFullStays(xs: seq<string>, k: int, maxIds: int)
    requires 0 <= k <= |xs| && Full(MergeFold(xs[..k], maxIds), maxIds)
    ensures MergeFold(xs, maxIds) == MergeFold(xs[..k], maxIds)
    decreases |xs| - k
  {
    if k < |xs| {
      TakeSnoc(xs, k);
      MergeFoldFullStays(xs, k + 1, maxIds);
    } else {
      assert xs[..k] == xs;
    }
  }

  /** `_merge_evidence_ids` with its `seen` set and its `break`. */
  method MergeEvidenceIds(existing: seq<string>, incoming: seq<string>, maxIds: int) returns (merged: seq<string>)
    ensures merged == MergeIdsOf(existing, incoming, maxIds)
  {
    var all := existing + incoming;
    var seen: set<string> := {};
    merged := [];
    var i := 0;
    while i < |all|
      invariant 0 <= i <= |all|
      invariant merged == MergeFold(all[..i], maxIds)
      invariant seen == ToSet(merged)
      invariant !Full(merged, maxIds)
    {
      var mid := all[i];
      TakeSnoc(all, i);
      if mid == "" || mid in seen {
        i := i + 1;
        continue;
      }
      seen := seen + {mid};
      merged := merged + [mid];
      i := i + 1;
      if |merged| >= maxIds {
        MergeFoldFullStays(all, i, maxIds);
        return;
      }
    }
    assert all[..i] == all;
  }

  // ---------------------------------------------------------------- timestamps

  /** `_parse_iso`: nothing for a falsy text; a final "Z" is read as "+00:00"; the ISO reader
      is a parameter giving epoch seconds (a time without zone is read as UTC by it). */
  function ParseIso(ts: Option<string>, fromIso: string -> Option<int>): Option<int> {
    if !Truthy(ts) then None
    else
      var t := ts.value;
      fromIso(if t[|t| - 1] == 'Z' then t[..|t| - 1] + "+00:00" else t)
  }

  /** `_choose_latest_ts`. */
  function ChooseLatestOf(existing: Option<string>, incoming: Option<string>, fromIso: string -> Option<int>): Option<string> {
    if !Truthy(incoming) then existing
    else if !Truthy(existing) then incoming
    else
      var ex, inc := ParseIso(existing, fromIso), ParseIso(incoming, fromIso);
      if ex.None? || inc.None? then incoming
      else if inc.value >= ex.value then incoming
      else existing
  }

  /** The choice is one of the two; a missing incoming keeps the existing, a missing existing
      takes the incoming, an unparseable side takes the incoming; when both parse, the later
      one wins (the incoming on a tie), so the result never goes back in time; and it is
      truthy when either side is. */
  lemma ChooseLatestMeaning(existing: Option<string>, incoming: Option<string>, fromIso: string -> Option<int>)
    ensures var r := ChooseLatestOf(existing, incoming, fromIso);
      var ex, inc := ParseIso(existing, fromIso), ParseIso(incoming, fromIso);
      && (r == existing || r == incoming)
      && (!Truthy(incoming) ==> r == existing)
      && (Truthy(incoming) && !Truthy(existing) ==> r == incoming)
      && (Truthy(incoming) && Truthy(existing) && (ex.None? || inc.None?) ==> r == incoming)
      && (ex.Some? && inc.Some? ==>
            ParseIso(r, fromIso).Some? && ParseIso(r, fromIso).value >= ex.value && ParseIso(r, fromIso).value >= inc.value
            && (r == incoming <==> inc.value >= ex.value || existing == incoming))
      && (Truthy(r) <==> Truthy(existing) || Truthy(incoming))
  {
  }

  /** Offering the same incoming timestamp again changes nothing. */
  lemma ChooseLatestIdempotent(existing: Option<string>, incoming: Option<string>, fromIso: string -> Option<int>)
    ensures var r := ChooseLatestOf(existing, incoming, fromIso);
      ChooseLatestOf(r, incoming, fromIso) == r
  {
  }

  // ---------------------------------------------------------------- evidence extraction

  /** The values of the truthy entries: `[x for x in xs if x]`. */
  function TruthyIds(xs: seq<Option<string>>): (r: seq<string>)
    ensures forall x :: x in r <==> Some(x) in xs && x != ""
    decreases |xs|
  {
    if xs == [] then []
    else
      var n := |xs| - 1;
      assert forall y :: y in xs <==> y in xs[..n] || y == xs[n] by {
        SnocLast(xs);
      }
      TruthyIds(xs[..n]) + (if Truthy(xs[n]) then [xs[n].value] else [])
  }

  /** Python's `s[start:]` for any integer `start`: a negative start counts from the end. */
  function SliceFrom<T>(s: seq<T>, start: int): (r: seq<T>)
    ensures |r| <= |s| && r == s[|s| - |r|..]
  {
    if start >= 0 then (if start <= |s| then s[start..] else [])
    else if |s| + start >= 0 then s[|s| + start..]
    else s
  }

  /** `s[-n:]` keeps the last `n` elements for a positive `n`, and the whole list for 0. */
  lemma SliceFromTail<T>(s: seq<T>, n: int)
    ensures n > 0 ==> SliceFrom(s, -n) == (if n <= |s| then s[|s| - n..] else s)
    ensures n == 0 ==> SliceFrom(s, -n) == s
  {
  }

  /** What `_extract_evidence_ids` reads from an instance: its instance key, its
      `evidence_message_ids` and the `message_id` of each `evidence` entry (missing lists
      are empty). */
  datatype EvidenceView = EvidenceView(instanceKey: Option<string>, messageIds: seq<Option<string>>, evidence: seq<Option<string>>)

  /** The truthy message ids of the instance's timeline, nothing when the instance has none. */
  function TimelineIds(timeline: map<string, seq<Option<string>>>, key: Option<string>): seq<string> {
    if key.Some? && key.value in timeline then TruthyIds(timeline[key.value]) else []
  }

  /** The ids chosen before merging: the instance's own message ids; failing those, the
      evidence entries' ids; failing those and given a timeline, the last `fallback_max` of the
      instance's timeline ids. */
  function ChosenIds(v: EvidenceView, timeline: Option<map<string, seq<Option<string>>>>, fallbackMax: int): seq<string> {
    var own := TruthyIds(v.messageIds);
    var ids := if own != [] then own else TruthyIds(v.evidence);
    if ids == [] && timeline.Some? then
      var tl := TimelineIds(timeline.value, v.instanceKey);
      if tl != [] then SliceFrom(tl, -fallbackMax) else ids
    else ids
  }

  /** `_extract_evidence_ids`. */
  function EvidenceIdsOf(v: EvidenceView, timeline: Option<map<string, seq<Option<string>>>>, maxIds: int, fallbackMax: int): seq<string> {
    MergeIdsOf([], ChosenIds(v, timeline, fallbackMax), maxIds)
  }

  /** The extracted ids are clean and capped, and come from the first source that has any:
      the instance's own ids, then its evidence entries, then (for a positive `fallback_max`)
      the last `fallback_max` ids of its timeline. */
  lemma EvidenceIdsMeaning(v: EvidenceView, timeline: Option<map<string, seq<Option<string>>>>, maxIds: int, fallbackMax: int)
    ensures var r := EvidenceIdsOf(v, timeline, maxIds, fallbackMax);
      && Distinct(r) && |r| <= Cap(maxIds) && (forall x :: x in r ==> x != "")
      && (TruthyIds(v.messageIds) != [] ==> forall x :: x in r ==> Some(x) in v.messageIds)
      && (TruthyIds(v.messageIds) == [] && TruthyIds(v.evidence) != [] ==> forall x :: x in r ==> Some(x) in v.evidence)
      && (TruthyIds(v.messageIds) == [] && TruthyIds(v.evidence) == [] && timeline.Some? && fallbackMax > 0 ==>
            var tl := TimelineIds(timeline.value, v.instanceKey);
            forall x :: x in r ==> x in tl[|tl| - (if fallbackMax <= |tl| then fallbackMax else |tl|)..])
      && (TruthyIds(v.messageIds) == [] && TruthyIds(v.evidence) == [] && timeline.None? ==> r == [])
  {
    var ids := ChosenIds(v, timeline, fallbackMax);
    MergeIdsMeaning([], ids, maxIds);
    assert [] + ids == ids;
    if TruthyIds(v.messageIds) == [] && TruthyIds(v.evidence) == [] && timeline.Some? {
      var tl := TimelineIds(timeline.value, v.instanceKey);
      SliceFromTail(tl, fallbackMax);
    }
  }

  /** `_extract_evidence_ids` with its loop over the evidence entries. */
  method ExtractEvidenceIds(v: EvidenceView, timeline: Option<map<string, seq<Option<string>>>>, maxIds: int, fallbackMax: int)
    returns (r: seq<string>)
    ensures r == EvidenceIdsOf(v, timeline, maxIds, fallbackMax)
  {
    var ids := TruthyIds(v.messageIds);
    if ids == [] {
      var i := 0;
      while i < |v.evidence|
        invariant 0 <= i <= |v.evidence|
        invariant ids == TruthyIds(v.evidence[..i])
      {
        var mid := v.evidence[i];
        assert v.evidence[..i + 1][..i] == v.evidence[..i];
        if Truthy(mid) {
          ids := ids + [mid.value];
        }
        i := i + 1;
      }
      assert v.evidence[..i] == v.evidence;
    }
    if ids == [] && timeline.Some? {
      var tl := TimelineIds(timeline.value, v.instanceKey);
      if tl != [] {
        ids := SliceFrom(tl, -fallbackMax);
      }
    }
    r := MergeEvidenceIds([], ids, maxIds);
  }

  /** `_is_known_role`: a role is known unless it is null, empty, "Other" or "Unknown". */
  predicate IsKnownRole(role: Option<string>) {
    role.Some? && role.value !in {"", "Other", "Unknown"}
  }
}
