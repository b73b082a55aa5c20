/** The deterministic helpers of the second extraction pass (src/demo/pipeline/pass2.py):
    process-label clean-up, slugs, event timestamps, grouping events by thread, splitting
    a thread by process, instance keys and the most frequent value. */
module Pass2 {
  import opened Wrappers
  import opened Text
  import opened Seqs
  import opened Dicts
  import opened ReconHelpers

  /** A JSON field as the pass reads it: absent or null, a string, or another value. */
  datatype Value = Null | Str(s: string) | NonStr

  // ---------------------------------------------------------------- process labels

  /** `" ".join(s.strip().lower().split())`. */
  function Cleaned(s: string): string {
    Collapse(Lower(Strip(s)))
  }

  /** Cleaned text naming the recruiting process. */
  predicate RecruitingLike(c: string) {
    || c == "recruiting" || c == "hiring"
    || Contains(c, "recruiting pipeline") || Contains(c, "ai search") || Contains(c, "ai searching")
  }

  /** The label of non-empty cleaned text: a synonym's label, else the text in title case. */
  function ProcessLabel(c: string): (r: string)
    requires c != ""
    ensures r != ""
  {
    if RecruitingLike(c) then "recruiting"
    else if c == "software delivery" || c == "delivery" then "delivery"
    else if c == "operations" || c == "ops" then "ops"
    else Title(c)
  }

  /** `canonicalize_process`: null for a non-string or blank label; the synonyms of
      recruiting, delivery and operations map to their label; anything else is the cleaned
      text in title case. */
  function CanonicalizeProcess(p: Value): (r: Option<string>)
    ensures r.Some? ==> r.value != ""
  {
    if !p.Str? || p.s == "" then None
    else
      var c := Cleaned(p.s);
      if c == "" then None else Some(ProcessLabel(c))
  }

  /** Cleaned text is collapsed and has no upper-case letter. */
  lemma CleanedShape(s: string)
    ensures Collapsed(Cleaned(s)) && NoUpper(Cleaned(s))
  {
    var t := Lower(Strip(s));
    CollapseShape(t);
    var c := Cleaned(s);
    forall i | 0 <= i < |c| ensures !IsUpper(c[i]) {
      if c[i] != ' ' {
        var j :| 0 <= j < |t| && t[j] == c[i];
      }
    }
  }

  /** Collapsed text has nothing to strip. */
  lemma StripOfCollapsed(t: string)
    requires Collapsed(t)
    ensures Strip(t) == t
  {
    assert t == [] || !IsSpace(t[0]);
    assert SkipSpaces(t) == t;
    assert t == [] || !IsSpace(t[|t| - 1]);
  }

  /** Collapsed lower-case text is its own cleaned form. */
  lemma CleanedFixed(t: string)
    requires Collapsed(t) && NoUpper(t)
    ensures Cleaned(t) == t
  {
    StripOfCollapsed(t);
    LowerOfNoUpper(t);
    CollapseOfCollapsed(t);
  }

  /** Title case keeps collapsed lower-case text collapsed, and lower-casing undoes it. */
  lemma TitleOfCollapsed(c: string)
    requires Collapsed(c) && NoUpper(c)
    ensures Collapsed(Title(c)) && Lower(Title(c)) == c
  {
    var t := Title(c);
    assert forall i :: 0 <= i < |t| ==> (IsSpace(t[i]) <==> IsSpace(c[i]));
    assert forall i :: 0 <= i < |t| ==> (t[i] == ' ' <==> c[i] == ' ');
    forall i | 0 <= i < |c| ensures LowerChar(t[i]) == c[i] {
    }
  }

  /** Cleaning undoes title case on collapsed lower-case text. */
  lemma CleanedOfTitle(c: string)
    requires Collapsed(c) && NoUpper(c)
    ensures Cleaned(Title(c)) == c
  {
    TitleOfCollapsed(c);
    StripOfCollapsed(Title(c));
    CollapseOfCollapsed(c);
  }

  /** The three labels a synonym maps to. */
  predicate FixedLabel(s: string) {
    s == "recruiting" || s == "delivery" || s == "ops"
  }

  /** A label is a fixed label or the title-cased text. */
  lemma ProcessLabelCases(c: string)
    requires c != ""
    ensures FixedLabel(ProcessLabel(c)) || ProcessLabel(c) == Title(c)
  {
  }

  /** The fixed labels are collapsed lower-case text and are their own labels. */
  lemma FixedLabels(s: string)
    requires FixedLabel(s)
    ensures Collapsed(s) && NoUpper(s) && ProcessLabel(s) == s
  {
    if s == "delivery" || s == "ops" {
      assert !RecruitingLike(s) by {
        if Contains(s, "recruiting pipeline") { ContainsNoLonger(s, "recruiting pipeline"); }
        if Contains(s, "ai search") { ContainsNoLonger(s, "ai search"); }
        if Contains(s, "ai searching") { ContainsNoLonger(s, "ai searching"); }
      }
    }
  }

  /** A null, non-string, empty or all-whitespace label has no process. */
  lemma CanonicalizeProcessNull(p: Value)
    ensures !p.Str? ==> CanonicalizeProcess(p).None?
    ensures p.Str? && (forall i :: 0 <= i < |p.s| ==> IsSpace(p.s[i])) ==> CanonicalizeProcess(p).None?
  {
    if p.Str? && p.s != [] && forall i :: 0 <= i < |p.s| ==> IsSpace(p.s[i]) {
      SkipSpacesShape(p.s);
      assert SkipSpaces(p.s) == [];
      assert Strip(p.s) == [];
      assert Lower([]) == [];
      assert Cleaned(p.s) == [];
    }
  }

  /** The label is one of "recruiting", "delivery" and "ops", or the cleaned text with only
      letters' case changed; in every case it is collapsed text. */
  lemma CanonicalizeProcessShape(p: Value)
    ensures var r := CanonicalizeProcess(p);
      r.Some? ==> Collapsed(r.value) && (FixedLabel(r.value) || Lower(r.value) == Cleaned(p.s))
  {
    var r := CanonicalizeProcess(p);
    if r.Some? {
      var c := Cleaned(p.s);
      CleanedShape(p.s);
      ProcessLabelCases(c);
      if FixedLabel(r.value) {
        FixedLabels(r.value);
      } else {
        TitleOfCollapsed(c);
      }
    }
  }

  /** Canonicalising a canonical label gives it back. */
  lemma CanonicalizeProcessIdempotent(p: Value)
    requires CanonicalizeProcess(p).Some?
    ensures CanonicalizeProcess(Str(CanonicalizeProcess(p).value)) == CanonicalizeProcess(p)
  {
    var r := CanonicalizeProcess(p).value;
    var c := Cleaned(p.s);
    CleanedShape(p.s);
    ProcessLabelCases(c);
    if FixedLabel(r) {
      FixedLabels(r);
      CleanedFixed(r);
    } else {
      CleanedOfTitle(c);
    }
  }

  /** Case and spacing do not matter: a label reads as its cleaned text does. */
  lemma CanonicalizeProcessCleaned(s: string)
    requires s != ""
    ensures CanonicalizeProcess(Str(s)) == CanonicalizeProcess(Str(Cleaned(s)))
  {
    CleanedShape(s);
    CleanedFixed(Cleaned(s));
  }

  // ---------------------------------------------------------------- slugs and keys

  function SlugChar(c: char): char {
    if IsAlnum(c) then LowerChar(c) else '-'
  }

  /** `_slug`: letters and digits lower-cased, everything else a dash, dashes trimmed. */
  function Slug(t: string): string {
    StripChar(seq(|t|, i requires 0 <= i < |t| => SlugChar(t[i])), '-')
  }

  predicate SlugText(s: string) {
    forall i :: 0 <= i < |s| ==> IsLower(s[i]) || IsDigit(s[i]) || s[i] == '-'
  }

  lemma {:induction false} StripCharSub(s: string, ch: char)
    ensures forall i :: 0 <= i < |StripChar(s, ch)| ==> StripChar(s, ch)[i] in s
    decreases |s|
  {
    if s != [] && s[0] == ch {
      StripCharSub(s[1..], ch);
      assert forall c :: c in s[1..] ==> c in s;
    } else if s != [] && s[|s| - 1] == ch {
      StripCharSub(s[..|s| - 1], ch);
      assert forall c :: c in s[..|s| - 1] ==> c in s;
    }
  }

  /** A slug holds only lower-case letters, digits and dashes, and neither starts nor ends
      with a dash; slugging a slug gives it back. */
  lemma SlugShape(t: string)
    ensures SlugText(Slug(t))
    ensures Slug(t) == [] || (Slug(t)[0] != '-' && Slug(t)[|Slug(t)| - 1] != '-')
    ensures Slug(Slug(t)) == Slug(t)
  {
    var m := seq(|t|, i requires 0 <= i < |t| => SlugChar(t[i]));
    StripCharSub(m, '-');
    var s := Slug(t);
    assert SlugText(s) by {
      forall i | 0 <= i < |s| ensures IsLower(s[i]) || IsDigit(s[i]) || s[i] == '-' {
        var j :| 0 <= j < |m| && m[j] == s[i];
      }
    }
    var m2 := seq(|s|, i requires 0 <= i < |s| => SlugChar(s[i]));
    assert m2 == s;
  }

  /** `_det_instance_key`: the base, followed by `|` and the suffix when there is one. */
  function DetInstanceKey(base: string, suffix: string): (r: string)
    ensures suffix == "" ==> r == base
    ensures suffix != "" ==> |r| == |base| + 1 + |suffix|
    ensures suffix != "" ==> r[..|base|] == base && r[|base|] == '|' && r[|base| + 1..] == suffix
  {
    if suffix != "" then base + "|" + suffix else base
  }

  // ---------------------------------------------------------------- events

  /** The fields of an extracted event that these helpers read. */
  datatype Event = Event(
    threadId: Option<string>,
    messageId: Option<string>,
    candidateProcess: Value,
    evidenceTimestamp: Option<string>,
    timestamp: Option<string>)

  /** `_event_timestamp_str`: the evidence timestamp when truthy, else the event's own. */
  function EventTimestamp(e: Event): (r: Option<string>)
    ensures Truthy(e.evidenceTimestamp) ==> r == e.evidenceTimestamp
    ensures !Truthy(e.evidenceTimestamp) ==> r == e.timestamp
  {
    if Truthy(e.evidenceTimestamp) then e.evidenceTimestamp else e.timestamp
  }

  /** The events of `s` whose key is `k`, in order. */
  function Block<T(!new), K(==)>(s: seq<T>, key: T -> K, k: K): (r: seq<T>)
    ensures forall x :: x in r <==> x in s && key(x) == k
  {
    Filter(s, (x: T) => key(x) == k)
  }

  lemma BlockSnoc<T(!new), K>(s: seq<T>, x: T, key: T -> K, k: K)
    ensures Block(s + [x], key, k) == Block(s, key, k) + (if key(x) == k then [x] else [])
  {
    assert (s + [x])[..|s|] == s;
  }

  /** The blocks of the keys `ks`, one after the other. */
  function BlocksFlat<T(!new), K(==)>(ks: seq<K>, s: seq<T>, key: T -> K): seq<T>
    decreases |ks|
  {
    if ks == [] then [] else BlocksFlat(ks[..|ks| - 1], s, key) + Block(s, key, ks[|ks| - 1])
  }

  /** A distinct sequence's last element is not among the others, which are distinct too. */
  lemma DistinctLast<K>(ks: seq<K>)
    requires Distinct(ks) && ks != []
    ensures Distinct(ks[..|ks| - 1]) && ks[|ks| - 1] !in ks[..|ks| - 1]
    ensures forall y :: y in ks <==> y in ks[..|ks| - 1] || y == ks[|ks| - 1]
  {
    var m := |ks| - 1;
    SnocLast(ks);
    forall i | 0 <= i < m ensures ks[..m][i] != ks[m] {
      assert ks[..m][i] == ks[i];
    }
    forall i, j | 0 <= i < j < m ensures ks[..m][i] != ks[..m][j] {
      assert ks[..m][i] == ks[i] && ks[..m][j] == ks[j];
    }
  }

  lemma {:induction false} BlocksFlatSnoc<T(!new), K>(ks: seq<K>, s: seq<T>, x: T, key: T -> K)
    requires Distinct(ks)
    ensures multiset(BlocksFlat(ks, s + [x], key))
            == multiset(BlocksFlat(ks, s, key)) + (if key(x) in ks then multiset{x} else multiset{})
    decreases |ks|
  {
    if ks != [] {
      var m := |ks| - 1;
      DistinctLast(ks);
      BlocksFlatSnoc(ks[..m], s, x, key);
      BlockSnoc(s, x, key, ks[m]);
      var a := BlocksFlat(ks[..m], s, key);
      var a' := BlocksFlat(ks[..m], s + [x], key);
      var b := Block(s, key, ks[m]);
      var b' := Block(s + [x], key, ks[m]);
      assert BlocksFlat(ks, s + [x], key) == a' + b';
      assert BlocksFlat(ks, s, key) == a + b;
      assert multiset(a' + b') == multiset(a') + multiset(b');
      assert multiset(a + b) == multiset(a) + multiset(b);
    }
  }

  /** Blocks over distinct keys that cover every element's key partition the elements. */
  lemma {:induction false} BlocksPartition<T(!new), K>(ks: seq<K>, s: seq<T>, key: T -> K)
    requires Distinct(ks)
    requires forall x :: x in s ==> key(x) in ks
    ensures multiset(BlocksFlat(ks, s, key)) == multiset(s)
    decreases |s|
  {
    if s == [] {
      BlocksEmpty(ks, key);
    } else {
      var n := |s| - 1;
      SnocLast(s);
      BlocksPartition(ks, s[..n], key);
      BlocksFlatSnoc(ks, s[..n], s[n], key);
    }
  }

  lemma {:induction false} BlocksEmpty<T(!new), K>(ks: seq<K>, key: T -> K)
    ensures BlocksFlat(ks, [], key) == []
    decreases |ks|
  {
    if ks != [] {
      BlocksEmpty(ks[..|ks| - 1], key);
    }
  }

  // ---------------------------------------------------------------- grouping by thread

  /** The group of an event: its thread, or its message id when it has no thread (a missing
      id prints as "None"). */
  function GroupKey(e: Event): string {
    if Truthy(e.threadId) then "thread:" + e.threadId.value else "msg:" + Show(e.messageId)
  }

  function OrEmpty<T>(o: Option<seq<T>>): seq<T> {
    if o.Some? then o.value else []
  }

  /** `_group_by_thread`: events appended to their group, groups in first-seen order. */
  function GroupsOf(events: seq<Event>): Dict<string, seq<Event>>
    decreases |events|
  {
    if events == [] then []
    else
      var n := |events| - 1;
      var d := GroupsOf(events[..n]);
      var k := GroupKey(events[n]);
      Put(d, k, OrEmpty(Get(d, k)) + [events[n]])
  }

  function GroupKeys(events: seq<Event>): (r: seq<string>)
    ensures |r| == |events| && forall i :: 0 <= i < |events| ==> r[i] == GroupKey(events[i])
  {
    seq(|events|, i requires 0 <= i < |events| => GroupKey(events[i]))
  }

  /** The group of key `k` among `events`, if any event has that key. */
  function GroupOf(events: seq<Event>, k: string): Option<seq<Event>> {
    if k in GroupKeys(events) then Some(Block(events, GroupKey, k)) else None
  }

  /** Each group holds exactly the events with its key, in their order, and the groups are
      keyed by the distinct keys in first-seen order. */
  ghost predicate GroupsOk(events: seq<Event>, d: Dict<string, seq<Event>>) {
    && Keys(d) == Unique(GroupKeys(events))
    && forall k :: Get(d, k) == GroupOf(events, k)
  }

  lemma GroupKeysSnoc(p: seq<Event>, e: Event)
    ensures GroupKeys(p + [e]) == GroupKeys(p) + [GroupKey(e)]
    ensures forall y :: y in GroupKeys(p + [e]) <==> y in GroupKeys(p) || y == GroupKey(e)
  {
    assert GroupKeys(p + [e]) == GroupKeys(p) + [GroupKey(e)];
  }

  lemma NoMemberEmpty<T>(s: seq<T>)
    ensures s == [] || s[0] in s
  {
  }

  lemma GroupOfSnoc(p: seq<Event>, e: Event, k: string)
    ensures k == GroupKey(e) ==> GroupOf(p + [e], k) == Some(OrEmpty(GroupOf(p, k)) + [e])
    ensures k != GroupKey(e) ==> GroupOf(p + [e], k) == GroupOf(p, k)
  {
    GroupKeysSnoc(p, e);
    BlockSnoc(p, e, GroupKey, k);
    var b := Block(p, GroupKey, k);
    if k !in GroupKeys(p) {
      NoMemberEmpty(b);
      assert b + [e] == [e];
    } else {
      assert b + [] == b;
    }
  }

  lemma GroupsStep(p: seq<Event>, e: Event)
    requires GroupsOk(p, GroupsOf(p))
    ensures GroupsOk(p + [e], GroupsOf(p + [e]))
  {
    var dp := GroupsOf(p);
    var k := GroupKey(e);
    var v := OrEmpty(Get(dp, k)) + [e];
    assert (p + [e])[..|p|] == p;
    assert GroupsOf(p + [e]) == Put(dp, k, v);
    GroupKeysSnoc(p, e);
    var gk := GroupKeys(p + [e]);
    assert gk[..|p|] == GroupKeys(p);
    PutKeys(dp, k, v);
    assert Keys(Put(dp, k, v)) == Unique(gk);
    forall k' ensures Get(Put(dp, k, v), k') == GroupOf(p + [e], k') {
      GroupOfSnoc(p, e, k');
      if k' == k {
        PutGetSame(dp, k, v);
      } else {
        PutGetOther(dp, k, v, k');
      }
    }
  }

  lemma {:induction false} GroupsMeaning(events: seq<Event>)
    ensures GroupsOk(events, GroupsOf(events))
    decreases |events|
  {
    if events != [] {
      var n := |events| - 1;
      GroupsMeaning(events[..n]);
      GroupsStep(events[..n], events[n]);
      SnocLast(events);
    }
  }

  /** Every event is in the group of its key and in no other group. */
  lemma GroupsPartition(events: seq<Event>)
    ensures var d := GroupsOf(events);
      forall e, k :: e in events && Get(d, k).Some? ==> (e in Get(d, k).value <==> GroupKey(e) == k)
    ensures forall e :: e in events ==> Get(GroupsOf(events), GroupKey(e)).Some?
  {
    GroupsMeaning(events);
    var gk := GroupKeys(events);
    forall e | e in events ensures GroupKey(e) in gk {
      var i :| 0 <= i < |events| && events[i] == e;
      assert gk[i] == GroupKey(e);
    }
  }

  /** `_group_by_thread` with its loop. */
  method GroupByThread(events: seq<Event>) returns (groups: Dict<string, seq<Event>>)
    ensures groups == GroupsOf(events)
  {
    groups := [];
    var i := 0;
    while i < |events|
      invariant 0 <= i <= |events|
      invariant groups == GroupsOf(events[..i])
    {
      TakeSnoc(events, i);
      var key := GroupKey(events[i]);
      var current := Get(groups, key);
      groups := Put(groups, key, OrEmpty(current) + [events[i]]);
      i := i + 1;
    }
    assert events[..i] == events;
  }

  // ---------------------------------------------------------------- splitting by process

  function CanonOf(e: Event): Option<string> {
    CanonicalizeProcess(e.candidateProcess)
  }

  function Canons(events: seq<Event>): (r: seq<Option<string>>)
    ensures |r| == |events| && forall i :: 0 <= i < |events| ==> r[i] == CanonOf(events[i])
  {
    seq(|events|, i requires 0 <= i < |events| => CanonOf(events[i]))
  }

  /** The number of processes occurring at least twice. */
  function Repeated(ps: seq<string>, m: multiset<string>): (n: nat)
    ensures n <= |ps|
    decreases |ps|
  {
    if ps == [] then 0 else Repeated(ps[..|ps| - 1], m) + (if m[ps[|ps| - 1]] >= 2 then 1 else 0)
  }

  /** The cluster of one process: its slug label and its events, in order. */
  function ClusterOf(p: string, events: seq<Event>): (string, seq<Event>) {
    ("proc:" + Slug(p), Block(events, CanonOf, Some(p)))
  }

  /** One cluster per process, in first-seen order, labelled with the process slug. */
  function Clusters(ps: seq<string>, events: seq<Event>): seq<(string, seq<Event>)>
    decreases |ps|
  {
    if ps == [] then []
    else
      var c := ClusterOf(ps[|ps| - 1], events);
      Clusters(ps[..|ps| - 1], events) + (if c.1 != [] then [c] else [])
  }

  /** The events without a process, as a final cluster when there are any. */
  function Unassigned(events: seq<Event>): seq<(string, seq<Event>)> {
    var un := Block(events, CanonOf, None);
    if un != [] then [("proc:unknown", un)] else []
  }

  /** `_maybe_split_by_process`: split only when two or more processes occur twice or more. */
  function MaybeSplitOf(events: seq<Event>): seq<(string, seq<Event>)> {
    var vals := TruthyIds(Canons(events));
    var procs := Unique(vals);
    if Repeated(procs, multiset(vals)) >= 2 then Clusters(procs, events) + Unassigned(events)
    else [("", events)]
  }

  /** The events of a list of clusters, one cluster after the other. */
  function EventsOf(cs: seq<(string, seq<Event>)>): seq<Event>
    decreases |cs|
  {
    if cs == [] then [] else EventsOf(cs[..|cs| - 1]) + cs[|cs| - 1].1
  }

  lemma {:induction false} EventsOfAppend(a: seq<(string, seq<Event>)>, b: seq<(string, seq<Event>)>)
    ensures EventsOf(a + b) == EventsOf(a) + EventsOf(b)
    decreases |b|
  {
    if b == [] {
      AppendNil(a);
    } else {
      var n := |b| - 1;
      DropLast(a, b);
      EventsOfAppend(a, b[..n]);
    }
  }

  function Somes(ps: seq<string>): (r: seq<Option<string>>)
    ensures |r| == |ps| && forall i :: 0 <= i < |ps| ==> r[i] == Some(ps[i])
  {
    seq(|ps|, i requires 0 <= i < |ps| => Some(ps[i]))
  }

  lemma {:induction false} ClustersFlat(ps: seq<string>, events: seq<Event>)
    ensures EventsOf(Clusters(ps, events)) == BlocksFlat(Somes(ps), events, CanonOf)
    decreases |ps|
  {
    if ps != [] {
      var m := |ps| - 1;
      ClustersFlat(ps[..m], events);
      assert Somes(ps)[..m] == Somes(ps[..m]);
      var c := ClusterOf(ps[m], events);
      EventsOfAppend(Clusters(ps[..m], events), if c.1 != [] then [c] else []);
    }
  }

  /** The cluster keys: one per process, then the unassigned key. */
  lemma KeysDistinct(procs: seq<string>)
    requires Distinct(procs)
    ensures Distinct(Somes(procs) + [None])
  {
    var ks := Somes(procs) + [None];
    forall i, j | 0 <= i < j < |ks| ensures ks[i] != ks[j] {
      if j < |procs| {
        assert procs[i] != procs[j];
      }
    }
  }

  /** Every event's canonical process is one of the cluster keys. */
  lemma KeysCover(events: seq<Event>)
    ensures var ks := Somes(Unique(TruthyIds(Canons(events)))) + [None];
      forall e :: e in events ==> CanonOf(e) in ks
  {
    var vals := TruthyIds(Canons(events));
    var procs := Unique(vals);
    var ks := Somes(procs) + [None];
    forall e | e in events ensures CanonOf(e) in ks {
      if CanonOf(e).Some? {
        var i :| 0 <= i < |events| && events[i] == e;
        assert Canons(events)[i] == CanonOf(e);
        var v := CanonOf(e).value;
        assert v in vals;
        var j :| 0 <= j < |procs| && procs[j] == v;
        assert ks[j] == Some(v);
      } else {
        assert ks[|procs|] == None;
      }
    }
  }

  /** Whatever the split, the clusters hold every event exactly as often as the input does. */
  lemma SplitPartition(events: seq<Event>)
    ensures multiset(EventsOf(MaybeSplitOf(events))) == multiset(events)
  {
    var vals := TruthyIds(Canons(events));
    var procs := Unique(vals);
    if Repeated(procs, multiset(vals)) >= 2 {
      var ks := Somes(procs) + [None];
      KeysDistinct(procs);
      KeysCover(events);
      BlocksPartition(ks, events, CanonOf);
      BlocksFlatSplit(procs, events);
      EventsOfAppend(Clusters(procs, events), Unassigned(events));
    } else {
      assert EventsOf([("", events)]) == EventsOf([]) + events;
    }
  }

  /** The blocks of all keys are the clusters' events followed by the unassigned ones. */
  lemma BlocksFlatSplit(procs: seq<string>, events: seq<Event>)
    ensures BlocksFlat(Somes(procs) + [None], events, CanonOf)
         == EventsOf(Clusters(procs, events)) + Block(events, CanonOf, None)
  {
    var ks := Somes(procs) + [None];
    assert ks[..|ks| - 1] == Somes(procs);
    ClustersFlat(procs, events);
  }

  /** Without two repeated processes the events stay together; otherwise each process has
      its own non-empty, labelled cluster holding exactly the events of that process. */
  lemma SplitShape(events: seq<Event>)
    ensures var vals := TruthyIds(Canons(events));
      var procs := Unique(vals);
      var r := MaybeSplitOf(events);
      && (Repeated(procs, multiset(vals)) < 2 ==> r == [("", events)])
      && (Repeated(procs, multiset(vals)) >= 2 ==>
            && |r| >= |procs| >= 2
            && forall i :: 0 <= i < |procs| ==>
                 r[i] == ("proc:" + Slug(procs[i]), Block(events, CanonOf, Some(procs[i]))) && r[i].1 != [])
  {
    var vals := TruthyIds(Canons(events));
    var procs := Unique(vals);
    if Repeated(procs, multiset(vals)) >= 2 {
      ProcsHaveBlocks(events);
      SplitClusters(procs, events);
    }
  }

  /** With every block non-empty, the split opens with one labelled cluster per process. */
  lemma SplitClusters(procs: seq<string>, events: seq<Event>)
    requires forall p :: p in procs ==> Block(events, CanonOf, Some(p)) != []
    ensures var r := Clusters(procs, events) + Unassigned(events);
      && |r| >= |procs|
      && forall i :: 0 <= i < |procs| ==>
           r[i] == ("proc:" + Slug(procs[i]), Block(events, CanonOf, Some(procs[i]))) && r[i].1 != []
  {
    assert forall p :: p in procs ==> ClusterOf(p, events).1 != [];
    ClustersAll(procs, events);
    var a := Clusters(procs, events);
    var r := a + Unassigned(events);
    forall i | 0 <= i < |procs|
      ensures r[i] == ("proc:" + Slug(procs[i]), Block(events, CanonOf, Some(procs[i]))) && r[i].1 != []
    {
      assert r[i] == a[i] == ClusterOf(procs[i], events);
      assert procs[i] in procs;
    }
  }

  /** Each process named by some event has a non-empty block. */
  lemma ProcsHaveBlocks(events: seq<Event>)
    ensures forall p :: p in Unique(TruthyIds(Canons(events))) ==> Block(events, CanonOf, Some(p)) != []
  {
    var vals := TruthyIds(Canons(events));
    forall p | p in Unique(vals) ensures Block(events, CanonOf, Some(p)) != [] {
      assert p in vals;
      var i :| 0 <= i < |events| && Canons(events)[i] == Some(p);
      assert events[i] in Block(events, CanonOf, Some(p));
    }
  }

  lemma {:induction false} ClustersAll(ps: seq<string>, events: seq<Event>)
    requires forall p :: p in ps ==> ClusterOf(p, events).1 != []
    ensures |Clusters(ps, events)| == |ps|
    ensures forall i :: 0 <= i < |ps| ==> Clusters(ps, events)[i] == ClusterOf(ps[i], events)
    decreases |ps|
  {
    if ps != [] {
      var m := |ps| - 1;
      var pre := ps[..m];
      assert ps[m] in ps;
      assert forall p :: p in pre ==> p in ps;
      ClustersAll(pre, events);
      var a := Clusters(pre, events);
      assert Clusters(ps, events) == a + [ClusterOf(ps[m], events)];
      forall i | 0 <= i < |ps| ensures Clusters(ps, events)[i] == ClusterOf(ps[i], events) {
        if i < m {
          assert pre[i] == ps[i];
        }
      }
    }
  }

  /** The first loop of `_maybe_split_by_process`: the canonical process of each event that
      has one, in order. */
  method CollectProcesses(events: seq<Event>) returns (vals: seq<string>)
    ensures vals == TruthyIds(Canons(events))
  {
    vals := [];
    var i := 0;
    while i < |events|
      invariant 0 <= i <= |events|
      invariant vals == TruthyIds(Canons(events)[..i])
    {
      assert Canons(events)[..i + 1][..i] == Canons(events)[..i];
      var c := CanonOf(events[i]);
      if Truthy(c) {
        vals := vals + [c.value];
      }
      i := i + 1;
    }
    assert Canons(events)[..i] == Canons(events);
  }

  /** The second loop: one cluster per process that has events, in the order given. */
  method BuildClusters(procs: seq<string>, events: seq<Event>) returns (result: seq<(string, seq<Event>)>)
    ensures result == Clusters(procs, events)
  {
    result := [];
    var j := 0;
    while j < |procs|
      invariant 0 <= j <= |procs|
      invariant result == Clusters(procs[..j], events)
    {
      TakeSnoc(procs, j);
      var cl := Block(events, CanonOf, Some(procs[j]));
      if cl != [] {
        result := result + [("proc:" + Slug(procs[j]), cl)];
      }
      assert ClusterOf(procs[j], events) == ("proc:" + Slug(procs[j]), cl);
      j := j + 1;
    }
    assert procs[..j] == procs;
  }

  /** `_maybe_split_by_process`: processes counted in first-seen order, then one cluster per
      process and one for the events without a process, when two processes repeat. */
  method MaybeSplitByProcess(events: seq<Event>) returns (result: seq<(string, seq<Event>)>)
    ensures result == MaybeSplitOf(events)
  {
    var vals := CollectProcesses(events);
    var procs := Unique(vals);
    var counts := multiset(vals);
    if Repeated(procs, counts) >= 2 {
      result := BuildClusters(procs, events);
      result := result + Unassigned(events);
    } else {
      result := [("", events)];
    }
  }

  // ---------------------------------------------------------------- most frequent value

  /** The first of `ps` with the highest count in `m`. */
  function FirstMost(ps: seq<string>, m: multiset<string>): (r: Option<string>)
    ensures r.Some? <==> ps != []
    decreases |ps|
  {
    if ps == [] then None
    else
      var acc := FirstMost(ps[..|ps| - 1], m);
      var p := ps[|ps| - 1];
      if acc.None? || m[p] > m[acc.value] then Some(p) else acc
  }

  lemma {:induction false} FirstMostMeaning(ps: seq<string>, m: multiset<string>)
    requires ps != []
    ensures var r := FirstMost(ps, m).value;
      && (forall x :: x in ps ==> m[x] <= m[r])
      && exists k :: 0 <= k < |ps| && ps[k] == r && forall j :: 0 <= j < k ==> m[ps[j]] < m[r]
    decreases |ps|
  {
    var n := |ps| - 1;
    var r := FirstMost(ps, m).value;
    assert forall x :: x in ps <==> x in ps[..n] || x == ps[n] by {
      SnocLast(ps);
    }
    if n == 0 {
      assert ps[0] == r;
    } else {
      FirstMostMeaning(ps[..n], m);
      var acc := FirstMost(ps[..n], m).value;
      var k :| 0 <= k < n && ps[..n][k] == acc && forall j :: 0 <= j < k ==> m[ps[..n][j]] < m[acc];
      if m[ps[n]] > m[acc] {
        assert r == ps[n];
        assert forall j :: 0 <= j < n ==> m[ps[j]] < m[r] by {
          forall j | 0 <= j < n ensures m[ps[j]] < m[r] {
            assert ps[j] in ps[..n];
          }
        }
      } else {
        assert r == acc;
        assert forall j :: 0 <= j < k ==> m[ps[j]] < m[r] by {
          forall j | 0 <= j < k ensures m[ps[j]] < m[r] {
            assert ps[j] == ps[..n][j];
          }
        }
      }
    }
  }

  /** `_most_frequent_non_null`: the truthy value seen most often, the first seen among equals. */
  function MostFrequentNonNull(vals: seq<Option<string>>): Option<string> {
    var ts := TruthyIds(vals);
    FirstMost(Unique(ts), multiset(ts))
  }

  /** Null exactly when no value is truthy; otherwise a truthy value no other value
      outnumbers, and none seen before it is as frequent. */
  lemma MostFrequentMeaning(vals: seq<Option<string>>)
    ensures var ts := TruthyIds(vals);
      var r := MostFrequentNonNull(vals);
      && (r.None? <==> forall v :: v in vals ==> !Truthy(v))
      && (r.Some? ==>
            && Truthy(r) && r in vals
            && (forall x :: x in ts ==> multiset(ts)[x] <= multiset(ts)[r.value])
            && exists k :: 0 <= k < |Unique(ts)| && Unique(ts)[k] == r.value
                             && forall j :: 0 <= j < k ==> multiset(ts)[Unique(ts)[j]] < multiset(ts)[r.value])
  {
    var ts := TruthyIds(vals);
    var u := Unique(ts);
    TruthyIdsEmpty(vals);
    if u != [] {
      var m := multiset(ts);
      FirstMostMeaning(u, m);
      var r := FirstMost(u, m).value;
      assert r in ts by {
        assert exists k :: 0 <= k < |u| && u[k] == r;
      }
      assert forall x :: x in ts ==> x in u;
    }
  }

  /** No truthy identifier is collected exactly when no value is truthy. */
  lemma TruthyIdsEmpty(vals: seq<Option<string>>)
    ensures Unique(TruthyIds(vals)) == [] <==> forall v :: v in vals ==> !Truthy(v)
  {
    var ts := TruthyIds(vals);
    if exists v :: v in vals && Truthy(v) {
      var v :| v in vals && Truthy(v);
      assert v.value in ts;
      assert v.value in Unique(ts);
    }
    if Unique(ts) != [] {
      assert Unique(ts)[0] in ts;
    }
  }
}
