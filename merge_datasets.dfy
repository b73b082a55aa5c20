/** The per-client dataset merge (scripts/merge_client_datasets.py): client labels from file
    names, the stable de-duplication key, and the merge that keeps the first copy of each
    message while recording which clients and files it was seen in. File contents are given
    as input; the SHA-1 digest is a parameter. */
module MergeDatasets {
  import opened Wrappers
  import opened Text
  import opened Seqs
  import opened Dicts
  import opened Sorting

  // ---------------------------------------------------------------- JSON values

  /** A JSON field as the merge reads it: absent or null, a string, or another value with its
      `str()` text and its truthiness. */
  datatype Json = JNull | JStr(s: string) | JOther(shown: string, truthy: bool)

  predicate JTruthy(j: Json) {
    (j.JStr? && j.s != "") || (j.JOther? && j.truthy)
  }

  /** `str(value or default)`. */
  function StrOr(j: Json, default: string): (r: string)
    ensures !JTruthy(j) ==> r == default
    ensures j.JStr? && j.s != "" ==> r == j.s
  {
    if !JTruthy(j) then default else if j.JStr? then j.s else j.shown
  }

  // ---------------------------------------------------------------- client labels

  /** `name.rsplit(".", 1)[0]`: everything before the last dot, or the whole name. */
  function DropExtension(name: string): (r: string)
    ensures |r| <= |name| && r == name[..|r|]
    ensures '.' in name ==> |r| < |name| && name[|r|] == '.' && '.' !in name[|r| + 1..]
    ensures '.' !in name ==> r == name
    decreases |name|
  {
    if name == [] then []
    else if name[|name| - 1] == '.' then name[..|name| - 1]
    else
      var n := |name| - 1;
      assert forall c :: c in name <==> c in name[..n] || c == name[n] by {
        SnocLast(name);
      }
      var r := DropExtension(name[..n]);
      if '.' in name[..n] then
        assert name[|r| + 1..] == name[..n][|r| + 1..] + [name[n]];
        r
      else name
  }

  const RawPrefix := "01_raw_messages_"

  /** The file's base name without extension and without the raw-messages prefix. */
  function ClientStem(name: string): (r: string)
    ensures IsPrefix(RawPrefix, DropExtension(name)) ==> r == DropExtension(name)[|RawPrefix|..]
    ensures !IsPrefix(RawPrefix, DropExtension(name)) ==> r == DropExtension(name)
  {
    var base := DropExtension(name);
    if IsPrefix(RawPrefix, base) then base[|RawPrefix|..] else base
  }

  /** `_derive_client_labels`: the lower-cased stem as slug, and as human label the stem
      with underscores as spaces, stripped and title-cased. */
  function DeriveClientLabels(name: string): (string, string) {
    var stem := ClientStem(name);
    (Lower(stem), Title(Strip(Replace(stem, '_', ' '))))
  }

  /** Title case changes letters' case only. */
  lemma LowerOfTitle(s: string)
    ensures Lower(Title(s)) == Lower(s)
  {
    forall i | 0 <= i < |s| ensures LowerChar(Title(s)[i]) == LowerChar(s[i]) {
      if IsAlpha(s[i]) {
        assert IsLower(s[i]) ==> LowerChar(UpperChar(s[i])) == s[i];
      }
    }
  }

  /** Title case keeps letters letters. */
  lemma TitleAlpha(s: string)
    ensures forall i :: 0 <= i < |s| ==> (IsAlpha(Title(s)[i]) <==> IsAlpha(s[i]))
  {
    forall i | 0 <= i < |s| ensures IsAlpha(Title(s)[i]) <==> IsAlpha(s[i]) {
      if IsAlpha(s[i]) && !(i > 0 && IsAlpha(s[i - 1])) {
        assert IsLower(s[i]) ==> IsUpper(UpperChar(s[i]));
      }
    }
  }

  /** The slug is the stem in lower case: no capitals, and lowering it again changes nothing. */
  lemma SlugLabelShape(name: string)
    ensures var slug := DeriveClientLabels(name).0;
      var stem := ClientStem(name);
      && |slug| == |stem| && NoUpper(slug) && Lower(slug) == slug
      && forall i :: 0 <= i < |stem| && !IsUpper(stem[i]) ==> slug[i] == stem[i]
  {
    LowerOfNoUpper(DeriveClientLabels(name).0);
  }

  /** The human label has no underscore and no surrounding whitespace, and differs from
      the stem only in case and in underscores turned to spaces and trimmed. */
  lemma HumanLabelShape(name: string)
    ensures var human := DeriveClientLabels(name).1;
      var stem := ClientStem(name);
      && '_' !in human
      && (human == [] || (!IsSpace(human[0]) && !IsSpace(human[|human| - 1])))
      && Lower(human) == Lower(Strip(Replace(stem, '_', ' ')))
  {
    var stem := ClientStem(name);
    var u := Replace(stem, '_', ' ');
    var t := Strip(u);
    StripSub(u);
    assert '_' !in u;
    TitleEnds(t);
    LowerOfTitle(t);
  }

  /** Title case neither creates an underscore nor puts whitespace where there was none. */
  lemma TitleEnds(t: string)
    requires '_' !in t
    ensures '_' !in Title(t)
    ensures forall i :: 0 <= i < |t| && IsSpace(Title(t)[i]) ==> IsSpace(t[i])
  {
    TitleAlpha(t);
    forall i | 0 <= i < |t| ensures Title(t)[i] != '_' && (IsSpace(Title(t)[i]) ==> IsSpace(t[i])) {
      assert t[i] in t;
    }
  }

  /** Stripping only removes characters. */
  lemma StripSub(s: string)
    ensures forall c :: c in Strip(s) ==> c in s
  {
    SkipSpacesSub(s);
    DropTrailingSub(SkipSpaces(s));
  }

  lemma {:induction false} SkipSpacesSub(s: string)
    ensures forall c :: c in SkipSpaces(s) ==> c in s
    decreases |s|
  {
    if s != [] && IsSpace(s[0]) {
      SkipSpacesSub(s[1..]);
    }
  }

  lemma {:induction false} DropTrailingSub(s: string)
    ensures forall c :: c in DropTrailingSpaces(s) ==> c in s
    decreases |s|
  {
    if s != [] && IsSpace(s[|s| - 1]) {
      DropTrailingSub(s[..|s| - 1]);
    }
  }

  // ---------------------------------------------------------------- messages and keys

  /** The `ingestion` object of a message; each field may be absent. */
  datatype Ingest = Ingest(datasetId: Slot<Json>, matchedClients: Slot<seq<string>>, filesSeenIn: Slot<seq<string>>)

  /** The fields of a message the merge reads; `hasTs` says whether the key "ts" is present. */
  datatype Msg = Msg(id: Json, source: Json, ts: Json, hasTs: bool, text: Json, ingestion: Option<Ingest>)

  /** `_stable_key`: the id when it is a non-empty string, else source, timestamp and the
      first ten hex digits of the SHA-1 of the text's first 200 characters. */
  function StableKey(m: Msg, sha1: string -> string): string {
    if m.id.JStr? && m.id.s != "" then m.id.s
    else StrOr(m.source, "unknown") + ":" + StrOr(m.ts, "unknown_ts") + ":" + Take(sha1(Take(StrOr(m.text, ""), 200)), 10)
  }

  /** A non-empty string id is its own key; otherwise the key starts with the source and
      the timestamp (or their placeholders) and ends in at most ten digest characters. */
  lemma StableKeyShape(m: Msg, sha1: string -> string)
    ensures m.id.JStr? && m.id.s != "" ==> StableKey(m, sha1) == m.id.s
    ensures !(m.id.JStr? && m.id.s != "") ==>
      var head := StrOr(m.source, "unknown") + ":" + StrOr(m.ts, "unknown_ts") + ":";
      var r := StableKey(m, sha1);
      |head| <= |r| <= |head| + 10 && r[..|head|] == head
  {
  }

  /** Messages without a usable id share a key when source, timestamp and the first 200
      characters of text agree. */
  lemma StableKeyContent(a: Msg, b: Msg, sha1: string -> string)
    requires !(a.id.JStr? && a.id.s != "") && !(b.id.JStr? && b.id.s != "")
    requires StrOr(a.source, "unknown") == StrOr(b.source, "unknown")
    requires StrOr(a.ts, "unknown_ts") == StrOr(b.ts, "unknown_ts")
    requires Take(StrOr(a.text, ""), 200) == Take(StrOr(b.text, ""), 200)
    ensures StableKey(a, sha1) == StableKey(b, sha1)
  {
  }

  // ---------------------------------------------------------------- provenance

  /** `inj.setdefault(...)` for the three provenance fields of an `ingestion` object that is
      present and non-empty, or a fresh one. */
  function Fill(o: Option<Ingest>, datasetId: string): Ingest {
    var i := if o.Some? then o.value else Ingest(Missing, Missing, Missing);
    Ingest(
      if i.datasetId.Present? then i.datasetId else Present(JStr(datasetId)),
      if i.matchedClients.Present? then i.matchedClients else Present([]),
      if i.filesSeenIn.Present? then i.filesSeenIn else Present([]))
  }

  /** A first copy with its provenance fields defaulted. */
  function Seed(m: Msg, datasetId: string): Msg {
    m.(ingestion := Some(Fill(m.ingestion, datasetId)))
  }

  function Clients(m: Msg): seq<string> {
    if m.ingestion.Some? && m.ingestion.value.matchedClients.Present? then m.ingestion.value.matchedClients.value else []
  }

  function Files(m: Msg): seq<string> {
    if m.ingestion.Some? && m.ingestion.value.filesSeenIn.Present? then m.ingestion.value.filesSeenIn.value else []
  }

  /** The message with both provenance lists replaced. */
  function WithLists(m: Msg, clients: seq<string>, files: seq<string>): (r: Msg)
    ensures Clients(r) == clients && Files(r) == files
  {
    var i := if m.ingestion.Some? then m.ingestion.value else Ingest(Missing, Missing, Missing);
    m.(ingestion := Some(i.(matchedClients := Present(clients), filesSeenIn := Present(files))))
  }

  /** `if x not in l: l.append(x)`. */
  function AddNew(l: seq<string>, x: string): seq<string> {
    if x in l then l else l + [x]
  }

  /** Each of `xs` appended in turn when not yet present. */
  function Extend(l: seq<string>, xs: seq<string>): seq<string>
    decreases |xs|
  {
    if xs == [] then l else AddNew(Extend(l, xs[..|xs| - 1]), xs[|xs| - 1])
  }

  /** The original list is kept as a prefix; the result holds exactly the original values
      and the added ones, and stays duplicate-free when the original was. */
  lemma {:induction false} ExtendMeaning(l: seq<string>, xs: seq<string>)
    ensures |l| <= |Extend(l, xs)| && Extend(l, xs)[..|l|] == l
    ensures forall x :: x in Extend(l, xs) <==> x in l || x in xs
    ensures Distinct(l) ==> Distinct(Extend(l, xs))
    decreases |xs|
  {
    if xs != [] {
      var n := |xs| - 1;
      ExtendMeaning(l, xs[..n]);
      assert forall x :: x in xs <==> x in xs[..n] || x == xs[n] by {
        SnocLast(xs);
      }
      var e := Extend(l, xs[..n]);
      if xs[n] !in e {
        assert (e + [xs[n]])[..|l|] == e[..|l|];
      }
    }
  }

  // ---------------------------------------------------------------- the merge

  /** One message of one input file, with the file's name and human client label. */
  datatype Entry = Entry(fileName: string, human: string, msg: Msg)

  /** One input file: its name and the messages it holds. */
  datatype InputFile = InputFile(name: string, msgs: seq<Msg>)

  function FileEntries(f: InputFile): (r: seq<Entry>)
    ensures |r| == |f.msgs|
    ensures forall i :: 0 <= i < |r| ==> r[i] == Entry(f.name, DeriveClientLabels(f.name).1, f.msgs[i])
  {
    var human := DeriveClientLabels(f.name).1;
    seq(|f.msgs|, i requires 0 <= i < |f.msgs| => Entry(f.name, human, f.msgs[i]))
  }

  /** Every message of every file, in order. */
  function Entries(files: seq<InputFile>): seq<Entry>
    decreases |files|
  {
    if files == [] then [] else Entries(files[..|files| - 1]) + FileEntries(files[|files| - 1])
  }

  /** The merge's running state: the ordered de-duplication map and the client counter. */
  datatype MergeState = MergeState(dedup: Dict<string, Msg>, clientCounts: Dict<string, nat>)

  /** The stored copy of a key, or the new message as a first copy. */
  function OrSeed(o: Option<Msg>, m: Msg, datasetId: string): Msg {
    if o.Some? then o.value else Seed(m, datasetId)
  }

  /** The copy with the entry's client label and file name recorded. */
  function Absorb(obj: Msg, e: Entry): Msg {
    WithLists(obj, AddNew(Clients(obj), e.human), AddNew(Files(obj), e.fileName))
  }

  /** One message of the merge loop. */
  function MergeStep(st: MergeState, e: Entry, datasetId: string, sha1: string -> string): MergeState {
    var key := StableKey(e.msg, sha1);
    var obj := OrSeed(Get(st.dedup, key), e.msg, datasetId);
    var counts := if e.human in Clients(obj) then st.clientCounts else CounterAdd(st.clientCounts, e.human);
    MergeState(Put(st.dedup, key, Absorb(obj, e)), counts)
  }

  function MergeFold(es: seq<Entry>, datasetId: string, sha1: string -> string): MergeState
    decreases |es|
  {
    if es == [] then MergeState([], [])
    else MergeStep(MergeFold(es[..|es| - 1], datasetId, sha1), es[|es| - 1], datasetId, sha1)
  }

  // ---------------------------------------------------------------- the per-key reference

  function KeyOf(e: Entry, sha1: string -> string): string {
    StableKey(e.msg, sha1)
  }

  function KeyList(es: seq<Entry>, sha1: string -> string): (r: seq<string>)
    ensures |r| == |es| && forall i :: 0 <= i < |es| ==> r[i] == KeyOf(es[i], sha1)
  {
    seq(|es|, i requires 0 <= i < |es| => KeyOf(es[i], sha1))
  }

  /** The entries sharing key `k`, in order. */
  function EntriesFor(es: seq<Entry>, k: string, sha1: string -> string): seq<Entry> {
    Filter(es, (e: Entry) => KeyOf(e, sha1) == k)
  }

  function Humans(es: seq<Entry>): (r: seq<string>)
    ensures |r| == |es| && forall i :: 0 <= i < |es| ==> r[i] == es[i].human
  {
    seq(|es|, i requires 0 <= i < |es| => es[i].human)
  }

  function FileNames(es: seq<Entry>): (r: seq<string>)
    ensures |r| == |es| && forall i :: 0 <= i < |es| ==> r[i] == es[i].fileName
  {
    seq(|es|, i requires 0 <= i < |es| => es[i].fileName)
  }

  /** The merged message of key `k`, read off the entries directly: the first copy with
      defaulted provenance, extended by every client label and file name of that key. */
  function ItemOf(es: seq<Entry>, k: string, datasetId: string, sha1: string -> string): Option<Msg> {
    var group := EntriesFor(es, k, sha1);
    if group == [] then None
    else
      var seed := Seed(group[0].msg, datasetId);
      Some(WithLists(seed, Extend(Clients(seed), Humans(group)), Extend(Files(seed), FileNames(group))))
  }

  /** Whether the merged message of key `k` gained client label `h`. */
  predicate Gained(es: seq<Entry>, k: string, h: string, datasetId: string, sha1: string -> string) {
    var group := EntriesFor(es, k, sha1);
    group != [] && h in Humans(group) && h !in Clients(Seed(group[0].msg, datasetId))
  }

  /** The number of keys among `ks` whose message gained label `h`. */
  function Holders(ks: seq<string>, es: seq<Entry>, h: string, datasetId: string, sha1: string -> string): nat
    decreases |ks|
  {
    if ks == [] then 0
    else Holders(ks[..|ks| - 1], es, h, datasetId, sha1) + (if Gained(es, ks[|ks| - 1], h, datasetId, sha1) then 1 else 0)
  }

  /** The map is keyed by the distinct keys in first-seen order and holds each key's merged
      message; the counter counts, per client label, the messages that gained it. */
  ghost predicate MergeOk(es: seq<Entry>, st: MergeState, datasetId: string, sha1: string -> string) {
    && Keys(st.dedup) == Unique(KeyList(es, sha1))
    && (forall k :: Get(st.dedup, k) == ItemOf(es, k, datasetId, sha1))
    && forall h :: Count(st.clientCounts, h) == Holders(Keys(st.dedup), es, h, datasetId, sha1)
  }

  lemma EntriesForSnoc(es: seq<Entry>, e: Entry, k: string, sha1: string -> string)
    ensures EntriesFor(es + [e], k, sha1) == EntriesFor(es, k, sha1) + (if KeyOf(e, sha1) == k then [e] else [])
  {
    assert (es + [e])[..|es|] == es;
  }

  lemma HumansSnoc(g: seq<Entry>, e: Entry)
    ensures Humans(g + [e]) == Humans(g) + [e.human]
    ensures FileNames(g + [e]) == FileNames(g) + [e.fileName]
  {
  }

  /** A key has entries exactly when it occurs in the key list. */
  lemma NoEntriesNoKey(es: seq<Entry>, k: string, sha1: string -> string)
    ensures EntriesFor(es, k, sha1) == [] <==> k !in KeyList(es, sha1)
  {
    var g := EntriesFor(es, k, sha1);
    if g != [] {
      assert g[0] in g;
      var i :| 0 <= i < |es| && es[i] == g[0];
      assert KeyList(es, sha1)[i] == k;
    }
    if k in KeyList(es, sha1) {
      var i :| 0 <= i < |es| && KeyList(es, sha1)[i] == k;
      assert es[i] in g;
    }
  }

  /** Adding an entry leaves the merged messages of other keys as they were. */
  lemma ItemOfSnocOther(es: seq<Entry>, e: Entry, k: string, datasetId: string, sha1: string -> string)
    requires k != KeyOf(e, sha1)
    ensures ItemOf(es + [e], k, datasetId, sha1) == ItemOf(es, k, datasetId, sha1)
  {
    EntriesForSnoc(es, e, k, sha1);
    assert EntriesFor(es, k, sha1) + [] == EntriesFor(es, k, sha1);
  }

  lemma ExtendSnoc(l: seq<string>, xs: seq<string>, x: string)
    ensures Extend(l, xs + [x]) == AddNew(Extend(l, xs), x)
  {
    assert (xs + [x])[..|xs|] == xs;
  }

  lemma AbsorbWithLists(m: Msg, clients: seq<string>, files: seq<string>, e: Entry)
    ensures Absorb(WithLists(m, clients, files), e) == WithLists(m, AddNew(clients, e.human), AddNew(files, e.fileName))
  {
  }

  /** The first entry of a key stays first when entries are added. */
  lemma GroupSnoc(es: seq<Entry>, e: Entry, sha1: string -> string)
    ensures var k := KeyOf(e, sha1);
      var g := EntriesFor(es, k, sha1);
      var g' := EntriesFor(es + [e], k, sha1);
      && g' == g + [e] && g'[0] == (if g == [] then e else g[0])
      && Humans(g') == Humans(g) + [e.human] && FileNames(g') == FileNames(g) + [e.fileName]
  {
    var k := KeyOf(e, sha1);
    EntriesForSnoc(es, e, k, sha1);
    HumansSnoc(EntriesFor(es, k, sha1), e);
  }

  /** Adding an entry to a key absorbs it into that key's merged message, as a merge step does. */
  lemma ItemOfSnocSame(es: seq<Entry>, e: Entry, datasetId: string, sha1: string -> string)
    ensures var k := KeyOf(e, sha1);
      ItemOf(es + [e], k, datasetId, sha1) == Some(Absorb(OrSeed(ItemOf(es, k, datasetId, sha1), e.msg, datasetId), e))
  {
    var k := KeyOf(e, sha1);
    var g := EntriesFor(es, k, sha1);
    GroupSnoc(es, e, sha1);
    var seed := Seed(EntriesFor(es + [e], k, sha1)[0].msg, datasetId);
    ExtendSnoc(Clients(seed), Humans(g), e.human);
    ExtendSnoc(Files(seed), FileNames(g), e.fileName);
    AbsorbWithLists(seed, Extend(Clients(seed), Humans(g)), Extend(Files(seed), FileNames(g)), e);
    if g == [] {
      assert Humans(g) == [] && FileNames(g) == [];
    }
  }

  /** Adding an entry leaves the labels other keys gained as they were. */
  lemma GainedSnocOther(es: seq<Entry>, e: Entry, k: string, h: string, datasetId: string, sha1: string -> string)
    requires k != KeyOf(e, sha1)
    ensures Gained(es + [e], k, h, datasetId, sha1) == Gained(es, k, h, datasetId, sha1)
  {
    EntriesForSnoc(es, e, k, sha1);
    assert EntriesFor(es, k, sha1) + [] == EntriesFor(es, k, sha1);
  }

  /** Adding an entry makes its key gain its label exactly when the copy did not hold it yet. */
  lemma GainedSnocSame(es: seq<Entry>, e: Entry, h: string, datasetId: string, sha1: string -> string)
    ensures var k := KeyOf(e, sha1);
      Gained(es + [e], k, h, datasetId, sha1)
      == (Gained(es, k, h, datasetId, sha1) || (h == e.human && h !in Clients(OrSeed(ItemOf(es, k, datasetId, sha1), e.msg, datasetId))))
  {
    var k := KeyOf(e, sha1);
    var g := EntriesFor(es, k, sha1);
    GroupSnoc(es, e, sha1);
    assert h in Humans(g) + [e.human] <==> h in Humans(g) || h == e.human;
    if g != [] {
      ExtendMeaning(Clients(Seed(g[0].msg, datasetId)), Humans(g));
    }
  }

  lemma GainedSnoc(es: seq<Entry>, e: Entry, k: string, h: string, datasetId: string, sha1: string -> string)
    ensures Gained(es + [e], k, h, datasetId, sha1)
      == (Gained(es, k, h, datasetId, sha1)
          || (k == KeyOf(e, sha1) && h == e.human && h !in Clients(OrSeed(ItemOf(es, k, datasetId, sha1), e.msg, datasetId))))
  {
    if k == KeyOf(e, sha1) {
      GainedSnocSame(es, e, h, datasetId, sha1);
    } else {
      GainedSnocOther(es, e, k, h, datasetId, sha1);
    }
  }

  lemma {:induction false} HoldersSnoc(ks: seq<string>, es: seq<Entry>, e: Entry, h: string, datasetId: string, sha1: string -> string)
    requires Distinct(ks)
    ensures var k := KeyOf(e, sha1);
      var bump := k in ks && h == e.human && !Gained(es, k, h, datasetId, sha1)
                  && h !in Clients(OrSeed(ItemOf(es, k, datasetId, sha1), e.msg, datasetId));
      Holders(ks, es + [e], h, datasetId, sha1) == Holders(ks, es, h, datasetId, sha1) + (if bump then 1 else 0)
    decreases |ks|
  {
    if ks != [] {
      var m := |ks| - 1;
      DistinctLast(ks);
      HoldersSnoc(ks[..m], es, e, h, datasetId, sha1);
      GainedSnoc(es, e, ks[m], h, datasetId, sha1);
    }
  }

  lemma DistinctLast(ks: seq<string>)
    requires Distinct(ks) && ks != []
    ensures Distinct(ks[..|ks| - 1]) && ks[|ks| - 1] !in ks[..|ks| - 1]
    ensures forall y :: y in ks <==> y in ks[..|ks| - 1] || y == ks[|ks| - 1]
  {
    var m := |ks| - 1;
    SnocLast(ks);
    forall i | 0 <= i < m ensures ks[..m][i] != ks[m] {
      assert ks[..m][i] == ks[i];
    }
    forall i, j | 0 <= i < j < m ensures ks[..m][i] != ks[..m][j] {
      assert ks[..m][i] == ks[i] && ks[..m][j] == ks[j];
    }
  }

  lemma HoldersAppend(ks: seq<string>, k: string, es: seq<Entry>, h: string, datasetId: string, sha1: string -> string)
    ensures Holders(ks + [k], es, h, datasetId, sha1)
            == Holders(ks, es, h, datasetId, sha1) + (if Gained(es, k, h, datasetId, sha1) then 1 else 0)
  {
    assert (ks + [k])[..|ks|] == ks;
  }

  /** A copy already held the label when its key had gained it. */
  lemma GainedHeld(es: seq<Entry>, k: string, h: string, datasetId: string, sha1: string -> string)
    requires Gained(es, k, h, datasetId, sha1)
    ensures ItemOf(es, k, datasetId, sha1).Some? && h in Clients(ItemOf(es, k, datasetId, sha1).value)
  {
    var g := EntriesFor(es, k, sha1);
    ExtendMeaning(Clients(Seed(g[0].msg, datasetId)), Humans(g));
  }

  /** The counter after a step on a key already merged. */
  lemma CountsStepPresent(ks: seq<string>, counts: Dict<string, nat>, es: seq<Entry>, e: Entry, h: string, datasetId: string, sha1: string -> string)
    requires Distinct(ks) && KeyOf(e, sha1) in ks && ItemOf(es, KeyOf(e, sha1), datasetId, sha1).Some?
    requires Count(counts, h) == Holders(ks, es, h, datasetId, sha1)
    ensures var obj := ItemOf(es, KeyOf(e, sha1), datasetId, sha1).value;
      var counts' := if e.human in Clients(obj) then counts else CounterAdd(counts, e.human);
      Count(counts', h) == Holders(ks, es + [e], h, datasetId, sha1)
  {
    var k := KeyOf(e, sha1);
    HoldersSnoc(ks, es, e, h, datasetId, sha1);
    CounterAddFacts(counts, e.human, h);
    if Gained(es, k, h, datasetId, sha1) {
      GainedHeld(es, k, h, datasetId, sha1);
    }
  }

  /** The counter after a step on a new key. */
  lemma CountsStepAbsent(ks: seq<string>, counts: Dict<string, nat>, es: seq<Entry>, e: Entry, h: string, datasetId: string, sha1: string -> string)
    requires Distinct(ks) && KeyOf(e, sha1) !in ks && ItemOf(es, KeyOf(e, sha1), datasetId, sha1).None?
    requires Count(counts, h) == Holders(ks, es, h, datasetId, sha1)
    ensures var obj := Seed(e.msg, datasetId);
      var counts' := if e.human in Clients(obj) then counts else CounterAdd(counts, e.human);
      Count(counts', h) == Holders(ks + [KeyOf(e, sha1)], es + [e], h, datasetId, sha1)
  {
    var k := KeyOf(e, sha1);
    HoldersSnoc(ks, es, e, h, datasetId, sha1);
    CounterAddFacts(counts, e.human, h);
    GainedSnoc(es, e, k, h, datasetId, sha1);
    HoldersAppend(ks, k, es + [e], h, datasetId, sha1);
  }

  /** The counter after one step. */
  lemma CountsStep(es: seq<Entry>, e: Entry, st: MergeState, h: string, datasetId: string, sha1: string -> string)
    requires MergeOk(es, st, datasetId, sha1)
    ensures var st' := MergeStep(st, e, datasetId, sha1);
      Count(st'.clientCounts, h) == Holders(Keys(st'.dedup), es + [e], h, datasetId, sha1)
  {
    var k := KeyOf(e, sha1);
    var ks := Keys(st.dedup);
    var obj := OrSeed(Get(st.dedup, k), e.msg, datasetId);
    assert Get(st.dedup, k) == ItemOf(es, k, datasetId, sha1);
    assert Distinct(ks);
    PutKeys(st.dedup, k, Absorb(obj, e));
    GetFacts(st.dedup, k);
    if HasKey(st.dedup, k) {
      CountsStepPresent(ks, st.clientCounts, es, e, h, datasetId, sha1);
    } else {
      CountsStepAbsent(ks, st.clientCounts, es, e, h, datasetId, sha1);
    }
  }

  lemma KeysStep(es: seq<Entry>, e: Entry, st: MergeState, datasetId: string, sha1: string -> string)
    requires Keys(st.dedup) == Unique(KeyList(es, sha1))
    ensures Keys(MergeStep(st, e, datasetId, sha1).dedup) == Unique(KeyList(es + [e], sha1))
  {
    var k := KeyOf(e, sha1);
    var kl := KeyList(es + [e], sha1);
    assert kl == KeyList(es, sha1) + [k];
    assert kl[..|es|] == KeyList(es, sha1);
    PutKeys(st.dedup, k, Absorb(OrSeed(Get(st.dedup, k), e.msg, datasetId), e));
  }

  lemma ItemsStep(es: seq<Entry>, e: Entry, st: MergeState, datasetId: string, sha1: string -> string)
    requires forall k :: Get(st.dedup, k) == ItemOf(es, k, datasetId, sha1)
    ensures forall k :: Get(MergeStep(st, e, datasetId, sha1).dedup, k) == ItemOf(es + [e], k, datasetId, sha1)
  {
    var key := KeyOf(e, sha1);
    var obj' := Absorb(OrSeed(Get(st.dedup, key), e.msg, datasetId), e);
    forall k ensures Get(Put(st.dedup, key, obj'), k) == ItemOf(es + [e], k, datasetId, sha1) {
      if k == key {
        ItemOfSnocSame(es, e, datasetId, sha1);
        PutGetSame(st.dedup, key, obj');
      } else {
        ItemOfSnocOther(es, e, k, datasetId, sha1);
        PutGetOther(st.dedup, key, obj', k);
      }
    }
  }

  lemma MergeStepOk(es: seq<Entry>, e: Entry, st: MergeState, datasetId: string, sha1: string -> string)
    requires MergeOk(es, st, datasetId, sha1)
    ensures MergeOk(es + [e], MergeStep(st, e, datasetId, sha1), datasetId, sha1)
  {
    KeysStep(es, e, st, datasetId, sha1);
    ItemsStep(es, e, st, datasetId, sha1);
    forall h ensures Count(MergeStep(st, e, datasetId, sha1).clientCounts, h)
                     == Holders(Keys(MergeStep(st, e, datasetId, sha1).dedup), es + [e], h, datasetId, sha1) {
      CountsStep(es, e, st, h, datasetId, sha1);
    }
  }

  lemma MergeEmptyOk(datasetId: string, sha1: string -> string)
    ensures MergeOk([], MergeState([], []), datasetId, sha1)
  {
    forall k ensures Get<string, Msg>([], k) == ItemOf([], k, datasetId, sha1) {
      assert EntriesFor([], k, sha1) == [];
    }
  }

  lemma MergeFoldSnoc(es: seq<Entry>, e: Entry, datasetId: string, sha1: string -> string)
    ensures MergeFold(es + [e], datasetId, sha1) == MergeStep(MergeFold(es, datasetId, sha1), e, datasetId, sha1)
  {
    assert (es + [e])[..|es|] == es;
  }

  lemma MergeFoldPrefix(es: seq<Entry>, m: nat, datasetId: string, sha1: string -> string)
    requires m < |es|
    ensures MergeFold(es[..m + 1], datasetId, sha1) == MergeStep(MergeFold(es[..m], datasetId, sha1), es[m], datasetId, sha1)
  {
    TakeSnoc(es, m);
  }

  /** The merge loop run on from a given state. */
  function MergeFrom(st: MergeState, es: seq<Entry>, datasetId: string, sha1: string -> string): MergeState
    decreases |es|
  {
    if es == [] then st
    else MergeStep(MergeFrom(st, es[..|es| - 1], datasetId, sha1), es[|es| - 1], datasetId, sha1)
  }

  lemma {:induction false} MergeFromFold(done: seq<Entry>, fes: seq<Entry>, datasetId: string, sha1: string -> string)
    ensures MergeFrom(MergeFold(done, datasetId, sha1), fes, datasetId, sha1) == MergeFold(done + fes, datasetId, sha1)
    decreases |fes|
  {
    if fes == [] {
      AppendNil(done);
    } else {
      var n := |fes| - 1;
      MergeFromFold(done, fes[..n], datasetId, sha1);
      MergeFoldSnoc(done + fes[..n], fes[n], datasetId, sha1);
      AppendSnoc(done, fes);
    }
  }

  lemma MergeFromPrefix(st: MergeState, fes: seq<Entry>, j: nat, datasetId: string, sha1: string -> string)
    requires j < |fes|
    ensures MergeFrom(st, fes[..j + 1], datasetId, sha1) == MergeStep(MergeFrom(st, fes[..j], datasetId, sha1), fes[j], datasetId, sha1)
  {
    TakeSnoc(fes, j);
  }

  lemma MergeOkSame(es: seq<Entry>, es': seq<Entry>, st: MergeState, datasetId: string, sha1: string -> string)
    requires es == es' && MergeOk(es, st, datasetId, sha1)
    ensures MergeOk(es', st, datasetId, sha1)
  {
  }

  /** The merge loop computes the per-key reference: keys in first-seen order, each key's
      merged message, and per label the number of messages that gained it. */
  lemma {:induction false} MergeMeaning(es: seq<Entry>, datasetId: string, sha1: string -> string)
    ensures MergeOk(es, MergeFold(es, datasetId, sha1), datasetId, sha1)
    decreases |es|
  {
    if es == [] {
      MergeEmptyOk(datasetId, sha1);
    } else {
      var n := |es| - 1;
      var st := MergeFold(es[..n], datasetId, sha1);
      MergeMeaning(es[..n], datasetId, sha1);
      MergeStepOk(es[..n], es[n], st, datasetId, sha1);
      SnocLast(es);
      MergeOkSame(es[..n] + [es[n]], es, MergeStep(st, es[n], datasetId, sha1), datasetId, sha1);
    }
  }

  /** Every merged message is the first copy of its key with the provenance fields only
      defaulted, never overwritten, and with lists that keep their original entries, stay
      duplicate-free when they were, and gain exactly the labels and files of that key. */
  lemma ItemFacts(es: seq<Entry>, k: string, datasetId: string, sha1: string -> string)
    requires ItemOf(es, k, datasetId, sha1).Some?
    ensures var group := EntriesFor(es, k, sha1);
      var first := group[0].msg;
      var item := ItemOf(es, k, datasetId, sha1).value;
      var seed := Seed(first, datasetId);
      && item.(ingestion := None) == first.(ingestion := None)
      && item.ingestion.Some? && item.ingestion.value.datasetId == Fill(first.ingestion, datasetId).datasetId
      && (first.ingestion.Some? && first.ingestion.value.datasetId.Present? ==> item.ingestion.value.datasetId == first.ingestion.value.datasetId)
      && |Clients(seed)| <= |Clients(item)| && Clients(item)[..|Clients(seed)|] == Clients(seed)
      && (forall h :: h in Clients(item) <==> h in Clients(seed) || exists i :: 0 <= i < |group| && group[i].human == h)
      && (Distinct(Clients(seed)) ==> Distinct(Clients(item)))
      && |Files(seed)| <= |Files(item)| && Files(item)[..|Files(seed)|] == Files(seed)
      && (forall f :: f in Files(item) <==> f in Files(seed) || exists i :: 0 <= i < |group| && group[i].fileName == f)
      && (Distinct(Files(seed)) ==> Distinct(Files(item)))
  {
    var group := EntriesFor(es, k, sha1);
    var seed := Seed(group[0].msg, datasetId);
    ExtendMeaning(Clients(seed), Humans(group));
    ExtendMeaning(Files(seed), FileNames(group));
  }

  // ---------------------------------------------------------------- output

  /** The values of the map in key order. */
  function Values(d: Dict<string, Msg>): (r: seq<Msg>)
    ensures |r| == |d| && forall i :: 0 <= i < |d| ==> r[i] == d[i].1
  {
    seq(|d|, i requires 0 <= i < |d| => d[i].1)
  }

  /** The sort key `(ts or "", id or "")`. */
  function TsIdKey(m: Msg): (string, string) {
    (if m.ts.JStr? then m.ts.s else "", if m.id.JStr? then m.id.s else "")
  }

  /** Sorting compares only strings: a truthy non-string timestamp or id would not compare. */
  predicate Sortable(items: seq<Msg>) {
    forall i :: 0 <= i < |items| ==> !(items[i].ts.JOther? && items[i].ts.truthy) && !(items[i].id.JOther? && items[i].id.truthy)
  }

  predicate AnyTs(items: seq<Msg>) {
    exists i :: 0 <= i < |items| && items[i].hasTs
  }

  /** The merged output: its messages and the counts of its `meta` block. */
  datatype Merged = Merged(messages: seq<Msg>, inputFiles: nat, rawTotal: nat, unique: nat, duplicatesRemoved: nat, clientCounts: Dict<string, nat>)

  function Order(items: seq<Msg>): seq<Msg> {
    if AnyTs(items) && Sortable(items) then SortBy(items, TsIdKey) else items
  }

  function Finish(st: MergeState, nfiles: nat, total: nat): Merged {
    var items := Order(Values(st.dedup));
    Merged(items, nfiles, total, |items|, if total >= |items| then total - |items| else 0, st.clientCounts)
  }

  /** `_merge`: every message of every file merged by stable key, then ordered. */
  function MergeOf(files: seq<InputFile>, datasetId: string, sha1: string -> string): Merged {
    var es := Entries(files);
    Finish(MergeFold(es, datasetId, sha1), |files|, |es|)
  }

  lemma {:induction false} UniqueNoLonger(s: seq<string>)
    ensures |Unique(s)| <= |s|
    decreases |s|
  {
    if s != [] {
      UniqueNoLonger(s[..|s| - 1]);
    }
  }

  function Sizes(files: seq<InputFile>): (r: seq<nat>)
    ensures |r| == |files| && forall i :: 0 <= i < |files| ==> r[i] == |files[i].msgs|
  {
    seq(|files|, i requires 0 <= i < |files| => |files[i].msgs|)
  }

  /** The entries are the files' messages one after another. */
  lemma {:induction false} EntriesCount(files: seq<InputFile>)
    ensures |Entries(files)| == Sum(Sizes(files))
    decreases |files|
  {
    if files != [] {
      var n := |files| - 1;
      EntriesCount(files[..n]);
      assert Sizes(files)[..n] == Sizes(files[..n]);
    }
  }

  /** The counts of the `meta` block: the raw total is the number of input messages, the
      unique count is the number of distinct stable keys, the duplicates removed are the
      difference, and each client count is the number of messages that gained that label. */
  lemma MergeCounts(files: seq<InputFile>, datasetId: string, sha1: string -> string)
    ensures var r := MergeOf(files, datasetId, sha1);
      var es := Entries(files);
      var ks := Unique(KeyList(es, sha1));
      && r.inputFiles == |files|
      && r.rawTotal == |es| == Sum(Sizes(files))
      && r.unique == |ks|
      && r.duplicatesRemoved == r.rawTotal - r.unique
      && forall h :: Count(r.clientCounts, h) == Holders(ks, es, h, datasetId, sha1)
  {
    var es := Entries(files);
    MergeMeaning(es, datasetId, sha1);
    EntriesCount(files);
    UniqueNoLonger(KeyList(es, sha1));
  }

  /** The output messages are the merged messages of the distinct keys in first-seen order,
      sorted stably by timestamp and id when any message has a timestamp. */
  lemma MergeMessages(files: seq<InputFile>, datasetId: string, sha1: string -> string)
    ensures var r := MergeOf(files, datasetId, sha1);
      var es := Entries(files);
      var ks := Unique(KeyList(es, sha1));
      var items := Values(MergeFold(es, datasetId, sha1).dedup);
      && |items| == |ks|
      && (forall i :: 0 <= i < |ks| ==> Some(items[i]) == ItemOf(es, ks[i], datasetId, sha1))
      && multiset(r.messages) == multiset(items)
      && (AnyTs(items) && Sortable(items) ==> SortedBy(r.messages, TsIdKey))
      && (!AnyTs(items) ==> r.messages == items)
  {
    var es := Entries(files);
    var st := MergeFold(es, datasetId, sha1);
    MergeMeaning(es, datasetId, sha1);
    var items := Values(st.dedup);
    forall i | 0 <= i < |items| ensures Some(items[i]) == ItemOf(es, Keys(st.dedup)[i], datasetId, sha1) {
      KeysAt(st.dedup, i);
      GetAt(st.dedup, i);
    }
    SortByPerm(items, TsIdKey);
    SortBySorted(items, TsIdKey);
  }

  /** The inner loop: the messages of one file merged in order. */
  method MergeFile(st: MergeState, done: seq<Entry>, f: InputFile, datasetId: string, sha1: string -> string) returns (st': MergeState)
    requires st == MergeFold(done, datasetId, sha1)
    ensures st' == MergeFold(done + FileEntries(f), datasetId, sha1)
  {
    var fes := FileEntries(f);
    st' := st;
    var j := 0;
    while j < |fes|
      invariant 0 <= j <= |fes|
      invariant st' == MergeFrom(st, fes[..j], datasetId, sha1)
    {
      MergeFromPrefix(st, fes, j, datasetId, sha1);
      st' := MergeStep(st', fes[j], datasetId, sha1);
      j := j + 1;
    }
    TakeAll(fes);
    MergeFromFold(done, fes, datasetId, sha1);
  }

  /** `_merge` with its loops: over the files, then over each file's messages. */
  method Merge(files: seq<InputFile>, datasetId: string, sha1: string -> string) returns (r: Merged)
    ensures r == MergeOf(files, datasetId, sha1)
  {
    var st := MergeState([], []);
    var total := 0;
    var i := 0;
    while i < |files|
      invariant 0 <= i <= |files|
      invariant st == MergeFold(Entries(files[..i]), datasetId, sha1)
      invariant total == |Entries(files[..i])|
    {
      TakeSnoc(files, i);
      st := MergeFile(st, Entries(files[..i]), files[i], datasetId, sha1);
      total := total + |files[i].msgs|;
      i := i + 1;
    }
    assert files[..i] == files;
    var items := Values(st.dedup);
    if AnyTs(items) && Sortable(items) {
      items := StableSort(items, TsIdKey);
    }
    r := Merged(items, |files|, total, |items|, if total >= |items| then total - |items| else 0, st.clientCounts);
  }
}
