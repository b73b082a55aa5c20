/** Raw message ingestion helpers (src/demo/ingestion/models.py and
    src/demo/ingestion/normalize.py): the source check, Slack thread ids, the Gmail search
    query, the text and sender filters, and de-duplication by id with sorting. */
module Ingestion {
  import opened Wrappers
  import opened Text
  import opened Seqs
  import opened Dicts
  import opened Sorting

  /** The fields of a `RawMessage` these helpers read. */
  datatype RawMessage = RawMessage(
    id: string,
    source: string,
    ts: string,
    threadId: Option<string>,
    sender: Option<string>,
    text: string)

  // ---------------------------------------------------------------- models.py

  /** The `source` validator: only "gmail" and "slack" are accepted. */
  function ValidateSource(v: string): (r: Result<string, string>)
    ensures r.Ok? <==> v == "gmail" || v == "slack"
    ensures r.Ok? ==> r.value == v
  {
    if v == "gmail" || v == "slack" then Ok(v) else Err("source must be 'gmail' or 'slack'")
  }

  /** `build_slack_thread_id`: the channel, a colon, then the thread timestamp when
      non-empty, else the message timestamp. */
  function BuildSlackThreadId(channelId: string, threadTs: Option<string>, ts: string): (r: string)
    ensures |r| > |channelId| && r[..|channelId|] == channelId && r[|channelId|] == ':'
    ensures r[|channelId| + 1..] == if Truthy(threadTs) then threadTs.value else ts
  {
    channelId + ":" + (if Truthy(threadTs) then threadTs.value else ts)
  }

  /** A date with `-` written as `/`, the separator Gmail queries use. */
  function GmailDate(d: string): (r: string)
    ensures |r| == |d| && '-' !in r
    ensures forall i :: 0 <= i < |d| && d[i] != '-' ==> r[i] == d[i]
  {
    Replace(d, '-', '/')
  }

  /** `build_gmail_query`: the date window terms, then the stripped extra terms when the
      extra text is non-empty, all joined by single spaces. */
  function BuildGmailQuery(startDate: string, endDate: string, extra: Option<string>): string {
    var window := "after:" + GmailDate(startDate) + " before:" + GmailDate(endDate);
    if Truthy(extra) then window + " " + Strip(extra.value) else window
  }

  /** The query always starts with the window terms; extra text follows only when given. */
  lemma GmailQueryShape(startDate: string, endDate: string, extra: Option<string>)
    ensures var q := BuildGmailQuery(startDate, endDate, extra);
      var window := "after:" + GmailDate(startDate) + " before:" + GmailDate(endDate);
      && |window| <= |q| && q[..|window|] == window
      && (!Truthy(extra) ==> q == window)
      && (Truthy(extra) ==> q[|window|] == ' ' && q[|window| + 1..] == Strip(extra.value))
  {
  }

  // ---------------------------------------------------------------- apply_filters

  /** What `apply_filters` does with one message. */
  datatype Verdict = Keep | ShortText | SenderBlocklist

  /** Whether any token occurs in the lowered sender. */
  predicate AnyToken(lowered: string, tokens: seq<string>) {
    exists i :: 0 <= i < |tokens| && Contains(lowered, tokens[i])
  }

  /** The stripped text is shorter than the minimum. */
  predicate TooShort(m: RawMessage, minTextLen: int) {
    |Strip(m.text)| < minTextLen
  }

  /** A Gmail message whose non-empty sender, lower-cased, contains a blocked token. */
  predicate Blocked(m: RawMessage, tokens: seq<string>) {
    m.source == "gmail" && Truthy(m.sender) && AnyToken(Lower(m.sender.value), tokens)
  }

  /** Too-short stripped text comes first; only Gmail messages with a sender are checked
      against the sender blocklist. */
  function VerdictOf(m: RawMessage, minTextLen: int, tokens: seq<string>): Verdict {
    if TooShort(m, minTextLen) then ShortText
    else if Blocked(m, tokens) then SenderBlocklist
    else Keep
  }

  /** The drop reason's key in the `drops` dictionary. */
  function DropKey(v: Verdict): string
    requires v != Keep
  {
    if v == ShortText then "short_text" else "sender_blocklist"
  }

  /** The loop of `apply_filters` as a fold: kept messages and drop counts. */
  function FiltersOf(items: seq<RawMessage>, minTextLen: int, tokens: seq<string>): (seq<RawMessage>, Dict<string, nat>)
    decreases |items|
  {
    if items == [] then ([], [])
    else
      var n := |items| - 1;
      var acc := FiltersOf(items[..n], minTextLen, tokens);
      var v := VerdictOf(items[n], minTextLen, tokens);
      if v == Keep then (acc.0 + [items[n]], acc.1)
      else (acc.0, CounterAdd(acc.1, DropKey(v)))
  }

  /** The messages with a given verdict, in order. */
  function WithVerdict(items: seq<RawMessage>, minTextLen: int, tokens: seq<string>, v: Verdict): seq<RawMessage> {
    Filter(items, (m: RawMessage) => VerdictOf(m, minTextLen, tokens) == v)
  }

  lemma WithVerdictFacts(items: seq<RawMessage>, minTextLen: int, tokens: seq<string>, v: Verdict)
    ensures var r := WithVerdict(items, minTextLen, tokens, v);
      && IsSubseq(r, items)
      && forall m :: m in r <==> m in items && VerdictOf(m, minTextLen, tokens) == v
  {
    FilterSubseq(items, (m: RawMessage) => VerdictOf(m, minTextLen, tokens) == v);
  }

  /** A drop counter as `drops.get(key)` reads it: absent until the first drop. */
  function Counted(n: nat): Option<nat> {
    if n == 0 then None else Some(n)
  }

  /** Kept messages are exactly the messages passing both filters, in input order; each
      drop counter counts its messages and is present only once something was dropped. */
  ghost predicate FiltersOk(items: seq<RawMessage>, minTextLen: int, tokens: seq<string>, r: (seq<RawMessage>, Dict<string, nat>)) {
    && r.0 == WithVerdict(items, minTextLen, tokens, Keep)
    && Get(r.1, "short_text") == Counted(|WithVerdict(items, minTextLen, tokens, ShortText)|)
    && Get(r.1, "sender_blocklist") == Counted(|WithVerdict(items, minTextLen, tokens, SenderBlocklist)|)
    && DropKeysOnly(r.1)
  }

  /** The verdict lists of a non-empty list extend those of its front by the last message. */
  lemma WithVerdictLast(items: seq<RawMessage>, minTextLen: int, tokens: seq<string>, v: Verdict)
    requires items != []
    ensures var n := |items| - 1;
      var w, w' := WithVerdict(items, minTextLen, tokens, v), WithVerdict(items[..n], minTextLen, tokens, v);
      && (VerdictOf(items[n], minTextLen, tokens) == v ==> w == w' + [items[n]])
      && (VerdictOf(items[n], minTextLen, tokens) != v ==> w == w')
  {
    AppendNil(WithVerdict(items[..|items| - 1], minTextLen, tokens, v));
  }

  lemma FiltersStep(items: seq<RawMessage>, minTextLen: int, tokens: seq<string>)
    requires items != []
    requires FiltersOk(items[..|items| - 1], minTextLen, tokens, FiltersOf(items[..|items| - 1], minTextLen, tokens))
    ensures FiltersOk(items, minTextLen, tokens, FiltersOf(items, minTextLen, tokens))
  {
    KeptStep(items, minTextLen, tokens);
    DropCountStep(items, minTextLen, tokens, ShortText);
    DropCountStep(items, minTextLen, tokens, SenderBlocklist);
    DropKeysStep(items, minTextLen, tokens);
  }

  lemma KeptStep(items: seq<RawMessage>, minTextLen: int, tokens: seq<string>)
    requires items != []
    requires var p := items[..|items| - 1];
      FiltersOf(p, minTextLen, tokens).0 == WithVerdict(p, minTextLen, tokens, Keep)
    ensures FiltersOf(items, minTextLen, tokens).0 == WithVerdict(items, minTextLen, tokens, Keep)
  {
    WithVerdictLast(items, minTextLen, tokens, Keep);
  }

  lemma DropCountStep(items: seq<RawMessage>, minTextLen: int, tokens: seq<string>, w: Verdict)
    requires items != [] && w != Keep
    requires var p := items[..|items| - 1];
      Get(FiltersOf(p, minTextLen, tokens).1, DropKey(w)) == Counted(|WithVerdict(p, minTextLen, tokens, w)|)
    ensures Get(FiltersOf(items, minTextLen, tokens).1, DropKey(w)) == Counted(|WithVerdict(items, minTextLen, tokens, w)|)
  {
    var n := |items| - 1;
    WithVerdictLast(items, minTextLen, tokens, w);
    var v := VerdictOf(items[n], minTextLen, tokens);
    if v != Keep {
      CounterAddFacts(FiltersOf(items[..n], minTextLen, tokens).1, DropKey(v), DropKey(w));
    }
  }

  /** Only the two drop reasons are counted. */
  ghost predicate DropKeysOnly(d: Dict<string, nat>) {
    forall k :: HasKey(d, k) ==> k == "short_text" || k == "sender_blocklist"
  }

  lemma DropKeysStep(items: seq<RawMessage>, minTextLen: int, tokens: seq<string>)
    requires items != []
    requires DropKeysOnly(FiltersOf(items[..|items| - 1], minTextLen, tokens).1)
    ensures DropKeysOnly(FiltersOf(items, minTextLen, tokens).1)
  {
    var n := |items| - 1;
    var d := FiltersOf(items[..n], minTextLen, tokens).1;
    var v := VerdictOf(items[n], minTextLen, tokens);
    if v != Keep {
      var acc := FiltersOf(items[..n], minTextLen, tokens);
      assert FiltersOf(items, minTextLen, tokens) == (acc.0, CounterAdd(d, DropKey(v)));
      forall k | HasKey(CounterAdd(d, DropKey(v)), k) ensures k == "short_text" || k == "sender_blocklist" {
        CounterAddHasKey(d, DropKey(v), k);
      }
    }
  }

  lemma {:induction false} FiltersMeaning(items: seq<RawMessage>, minTextLen: int, tokens: seq<string>)
    ensures FiltersOk(items, minTextLen, tokens, FiltersOf(items, minTextLen, tokens))
    decreases |items|
  {
    if items != [] {
      FiltersMeaning(items[..|items| - 1], minTextLen, tokens);
      FiltersStep(items, minTextLen, tokens);
    }
  }

  function VerdictTotal(items: seq<RawMessage>, minTextLen: int, tokens: seq<string>): nat {
    |WithVerdict(items, minTextLen, tokens, Keep)|
    + |WithVerdict(items, minTextLen, tokens, ShortText)|
    + |WithVerdict(items, minTextLen, tokens, SenderBlocklist)|
  }

  lemma VerdictTotalLast(items: seq<RawMessage>, minTextLen: int, tokens: seq<string>)
    requires items != []
    ensures VerdictTotal(items, minTextLen, tokens) == VerdictTotal(items[..|items| - 1], minTextLen, tokens) + 1
  {
    WithVerdictLast(items, minTextLen, tokens, Keep);
    WithVerdictLast(items, minTextLen, tokens, ShortText);
    WithVerdictLast(items, minTextLen, tokens, SenderBlocklist);
  }

  /** Every message gets exactly one verdict. */
  lemma {:induction false} VerdictsPartition(items: seq<RawMessage>, minTextLen: int, tokens: seq<string>)
    ensures VerdictTotal(items, minTextLen, tokens) == |items|
    decreases |items|
  {
    if items != [] {
      VerdictsPartition(items[..|items| - 1], minTextLen, tokens);
      VerdictTotalLast(items, minTextLen, tokens);
    }
  }

  /** Kept messages plus all drop counts add up to the input; kept messages are a
      subsequence of the input and every one of them passes both filters. */
  lemma FiltersAccount(items: seq<RawMessage>, minTextLen: int, tokens: seq<string>)
    ensures var r := FiltersOf(items, minTextLen, tokens);
      && |r.0| + Count(r.1, "short_text") + Count(r.1, "sender_blocklist") == |items|
      && IsSubseq(r.0, items)
      && forall m :: m in r.0 ==> m in items && VerdictOf(m, minTextLen, tokens) == Keep
  {
    FiltersMeaning(items, minTextLen, tokens);
    VerdictsPartition(items, minTextLen, tokens);
    WithVerdictFacts(items, minTextLen, tokens, Keep);
  }

  /** `apply_filters` with its loop. */
  method ApplyFilters(items: seq<RawMessage>, minTextLen: int, dropSenderContains: seq<string>)
    returns (kept: seq<RawMessage>, drops: Dict<string, nat>)
    ensures (kept, drops) == FiltersOf(items, minTextLen, dropSenderContains)
  {
    kept := [];
    drops := [];
    var i := 0;
    while i < |items|
      invariant 0 <= i <= |items|
      invariant (kept, drops) == FiltersOf(items[..i], minTextLen, dropSenderContains)
    {
      TakeSnoc(items, i);
      var rm := items[i];
      var v := VerdictOf(rm, minTextLen, dropSenderContains);
      if v == ShortText {
        drops := CounterAdd(drops, "short_text");
      } else if v == SenderBlocklist {
        drops := CounterAdd(drops, "sender_blocklist");
      } else {
        kept := kept + [rm];
      }
      i := i + 1;
    }
    assert items[..i] == items;
  }

  // ---------------------------------------------------------------- dedup_and_sort

  function Ids(ms: seq<RawMessage>): (r: seq<string>)
    ensures |r| == |ms| && forall i :: 0 <= i < |ms| ==> r[i] == ms[i].id
  {
    seq(|ms|, i requires 0 <= i < |ms| => ms[i].id)
  }

  /** The first message of each id, in input order. */
  function FirstById(items: seq<RawMessage>): (r: seq<RawMessage>)
    ensures forall m :: m in r ==> m in items
    decreases |items|
  {
    if items == [] then []
    else
      var n := |items| - 1;
      var acc := FirstById(items[..n]);
      assert forall m :: m in items[..n] ==> m in items;
      if items[n].id in Ids(acc) then acc else acc + [items[n]]
  }

  /** The sort key of `dedup_and_sort`. */
  function TsId(m: RawMessage): (string, string) {
    (m.ts, m.id)
  }

  /** `dedup_and_sort` as a value: first occurrences, sorted by timestamp then id. */
  function DedupAndSortOf(items: seq<RawMessage>): seq<RawMessage> {
    SortBy(FirstById(items), TsId)
  }

  /** The first occurrences have distinct ids, cover every input id, and each is the first
      message with its id. */
  lemma FirstByIdMeaning(items: seq<RawMessage>)
    ensures var r := FirstById(items);
      && Distinct(Ids(r))
      && (forall x :: x in Ids(r) <==> x in Ids(items))
      && forall m :: m in r ==> exists i :: FirstOfItsId(items, i) && items[i] == m
  {
    FirstByIdIds(items);
    FirstByIdFirst(items);
  }

  lemma IdsLast(items: seq<RawMessage>)
    requires items != []
    ensures Ids(items) == Ids(items[..|items| - 1]) + [items[|items| - 1].id]
  {
  }

  lemma IdsSnoc(ms: seq<RawMessage>, m: RawMessage)
    ensures Ids(ms + [m]) == Ids(ms) + [m.id]
  {
  }

  lemma {:induction false} FirstByIdIds(items: seq<RawMessage>)
    ensures var r := FirstById(items);
      Distinct(Ids(r)) && forall x :: x in Ids(r) <==> x in Ids(items)
    decreases |items|
  {
    if items != [] {
      var n := |items| - 1;
      FirstByIdIds(items[..n]);
      IdsLast(items);
      var acc := FirstById(items[..n]);
      if items[n].id !in Ids(acc) {
        IdsSnoc(acc, items[n]);
      }
    }
  }

  /** Message `i` is the first one with its id. */
  predicate FirstOfItsId(items: seq<RawMessage>, i: int) {
    0 <= i < |items| && forall j :: 0 <= j < i ==> items[j].id != items[i].id
  }

  lemma {:induction false} FirstByIdFirst(items: seq<RawMessage>)
    ensures forall m :: m in FirstById(items) ==> exists i :: FirstOfItsId(items, i) && items[i] == m
    decreases |items|
  {
    if items != [] {
      var n := |items| - 1;
      var p := items[..n];
      FirstByIdFirst(p);
      FirstByIdIds(p);
      var acc := FirstById(p);
      forall m | m in FirstById(items) ensures exists i :: FirstOfItsId(items, i) && items[i] == m {
        if m in acc {
          var i :| FirstOfItsId(p, i) && p[i] == m;
          FirstOfItsIdPrefix(items, n, i);
        } else {
          assert m == items[n];
          assert m.id !in Ids(p);
          forall j | 0 <= j < n ensures items[j].id != m.id {
            assert Ids(p)[j] == items[j].id;
          }
          assert FirstOfItsId(items, n);
        }
      }
    }
  }

  lemma FirstOfItsIdPrefix(items: seq<RawMessage>, n: nat, i: int)
    requires n <= |items| && FirstOfItsId(items[..n], i)
    ensures FirstOfItsId(items, i) && items[i] == items[..n][i]
  {
    assert forall j :: 0 <= j <= i ==> items[..n][j] == items[j];
  }



  /** Output ids are unique and cover every input id; the output is sorted by
      (timestamp, id) and is a reordering of the first occurrences. */
  lemma DedupAndSortMeaning(items: seq<RawMessage>)
    ensures var r := DedupAndSortOf(items);
      && Distinct(Ids(r))
      && (forall x :: x in Ids(r) <==> x in Ids(items))
      && SortedBy(r, TsId)
      && multiset(r) == multiset(FirstById(items))
  {
    var u := FirstById(items);
    var r := DedupAndSortOf(items);
    FirstByIdMeaning(items);
    SortBySorted(u, TsId);
    SortByPerm(u, TsId);
    SortIds(u);
    DistinctPerm(Ids(u), Ids(r));
    forall x ensures x in Ids(r) <==> x in Ids(u) {
      assert x in multiset(Ids(r)) <==> x in multiset(Ids(u));
    }
  }

  lemma {:induction false} InsertIds(s: seq<RawMessage>, x: RawMessage)
    ensures multiset(Ids(Insert(s, x, TsId))) == multiset(Ids(s)) + multiset{x.id}
    decreases |s|
  {
    if s == [] || KeyLe(TsId(s[|s| - 1]), TsId(x)) {
      assert Ids(s + [x]) == Ids(s) + [x.id];
    } else {
      var n := |s| - 1;
      var q := Insert(s[..n], x, TsId);
      InsertIds(s[..n], x);
      assert Ids(q + [s[n]]) == Ids(q) + [s[n].id];
      assert Ids(s) == Ids(s[..n]) + [s[n].id];
    }
  }

  /** Sorting moves messages, so it moves their ids with them. */
  lemma {:induction false} SortIds(xs: seq<RawMessage>)
    ensures multiset(Ids(SortBy(xs, TsId))) == multiset(Ids(xs))
    decreases |xs|
  {
    if xs != [] {
      var n := |xs| - 1;
      SortIds(xs[..n]);
      InsertIds(SortBy(xs[..n], TsId), xs[n]);
      assert Ids(xs) == Ids(xs[..n]) + [xs[n].id];
    }
  }

  /** A permutation of a duplicate-free sequence is duplicate-free. */
  lemma DistinctPerm<T>(a: seq<T>, b: seq<T>)
    requires Distinct(a) && multiset(a) == multiset(b)
    ensures Distinct(b)
  {
    forall i, j | 0 <= i < j < |b| ensures b[i] != b[j] {
      if b[i] == b[j] {
        assert multiset(b)[b[i]] >= 2 by {
          assert b == b[..j] + [b[j]] + b[j + 1..];
          assert b[i] in multiset(b[..j]);
        }
        MultiplicityDistinct(a, b[i]);
      }
    }
  }

  lemma {:induction false} MultiplicityDistinct<T>(a: seq<T>, x: T)
    requires Distinct(a)
    ensures multiset(a)[x] <= 1
    decreases |a|
  {
    if a != [] {
      var n := |a| - 1;
      SnocLast(a);
      assert Distinct(a[..n]) by {
        forall i, j | 0 <= i < j < n ensures a[..n][i] != a[..n][j] {
          assert a[..n][i] == a[i] && a[..n][j] == a[j];
        }
      }
      MultiplicityDistinct(a[..n], x);
      if a[n] == x {
        assert x !in a[..n] by {
          forall i | 0 <= i < n ensures a[..n][i] != x {
            assert a[..n][i] == a[i];
          }
        }
      }
    }
  }

  /** `dedup_and_sort` with its loop over a `seen` set, then the sort. */
  method DedupAndSort(items: seq<RawMessage>) returns (r: seq<RawMessage>)
    ensures r == DedupAndSortOf(items)
  {
    var seen: set<string> := {};
    var unique: seq<RawMessage> := [];
    var i := 0;
    while i < |items|
      invariant 0 <= i <= |items|
      invariant unique == FirstById(items[..i])
      invariant seen == set x | x in Ids(unique)
    {
      TakeSnoc(items, i);
      var rm := items[i];
      if rm.id !in seen {
        seen := seen + {rm.id};
        unique := unique + [rm];
        assert Ids(unique) == Ids(FirstById(items[..i])) + [rm.id];
      }
      i := i + 1;
    }
    assert items[..i] == items;
    r := StableSort(unique, TsId);
  }
}
