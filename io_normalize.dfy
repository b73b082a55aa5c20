/** Message normalisation for the raw-dataset reader (src/demo/io/normalize.py and
    src/demo/io/load_raw.py): the dataset shape dispatch, one raw message turned into a
    normalised record, and the batch with its empty-text count and optional stable sort by
    timestamp. JSON encoding, the SHA-256 digest and Python's `str()` of a list or an object
    are parameters. */
module IoNormalize {
  import opened Wrappers
  import opened Text
  import opened Seqs
  import opened Dicts
  import opened Sorting

  // ---------------------------------------------------------------- JSON values

  /** A JSON value as the reader sees it. Numbers and booleans are scalars carrying their
      `str()` text and their truthiness; objects keep their key order. */
  datatype Json =
    | JNull
    | JStr(s: string)
    | JScalar(shown: string, truthy: bool)
    | JList(items: seq<Json>)
    | JObject(fields: Dict<string, Json>)

  /** Python truthiness of a JSON value. */
  predicate JTruthy(j: Json) {
    match j
    case JNull => false
    case JStr(s) => s != ""
    case JScalar(_, t) => t
    case JList(items) => items != []
    case JObject(fields) => fields != []
  }

  /** The library calls the normaliser leaves opaque: `json.dumps(raw, sort_keys=True)`, the
      hexadecimal SHA-256 digest of a text, and `str()` of a list or an object. */
  datatype Codecs = Codecs(dumps: Dict<string, Json> -> string, sha256: string -> string, show: Json -> string)

  /** `raw.get(k)`: an absent key reads as null. */
  function Field(raw: Dict<string, Json>, k: string): (r: Json)
    ensures !HasKey(raw, k) ==> r == JNull
    ensures HasKey(raw, k) ==> (k, r) in raw
  {
    GetFacts(raw, k);
    match Get(raw, k)
    case Some(v) => v
    case None => JNull
  }

  /** `str(value)`. */
  function StrOf(j: Json, c: Codecs): (r: string)
    ensures j.JStr? ==> r == j.s
    ensures j.JNull? ==> r == "None"
  {
    match j
    case JNull => "None"
    case JStr(s) => s
    case JScalar(shown, _) => shown
    case _ => c.show(j)
  }

  // ---------------------------------------------------------------- load_raw

  datatype ExtractError = MissingMessagesList | NotObjectOrArray

  /** `extract_messages`: the list under "messages" of a top-level object, or a top-level list
      itself. An object without a list there, and any other top-level value, are errors. */
  function ExtractMessages(dataset: Json): (r: Result<seq<Json>, ExtractError>)
    ensures r.Ok? <==> (dataset.JObject? && Field(dataset.fields, "messages").JList?) || dataset.JList?
    ensures r.Ok? && dataset.JObject? ==> Field(dataset.fields, "messages") == JList(r.value)
    ensures dataset.JList? ==> r.Ok? && r.value == dataset.items
    ensures r.Err? ==> (r.error == MissingMessagesList <==> dataset.JObject?)
  {
    match dataset
    case JObject(fields) =>
      (match Field(fields, "messages")
       case JList(messages) => Ok(messages)
       case _ => Err(MissingMessagesList))
    case JList(items) => Ok(items)
    case _ => Err(NotObjectOrArray)
  }

  // ---------------------------------------------------------------- one message

  /** A normalised message. Fields hold the raw JSON values they were read from, except the
      text, which is always a string. */
  datatype Normalized = Normalized(
    messageId: Json,
    source: Json,
    timestamp: Json,
    text: string,
    threadId: Json,
    sender: Json,
    senderName: Json,
    recipients: Json,
    subject: Json,
    hasAttachments: Json,
    accountEmail: Json,
    attachments: Json,
    raw: Option<Dict<string, Json>>)

  /** Why normalisation stops: a message without a timestamp (reported with the id it would
      have had), or an entry of the message list that is not an object. */
  datatype NormalizeError = MissingTimestamp(messageId: Json) | NotAnObject

  const AutoPrefix := "auto_"

  /** `_deterministic_id`: "auto_" and the first 16 hex digits of the SHA-256 of the message's
      canonical JSON. */
  function DeterministicId(raw: Dict<string, Json>, c: Codecs): (r: string)
    ensures IsPrefix(AutoPrefix, r) && |AutoPrefix| <= |r| <= |AutoPrefix| + 16
  {
    AutoPrefix + Take(c.sha256(c.dumps(raw)), 16)
  }

  /** `normalize_message`. The id is the raw id when truthy, otherwise the deterministic id; a
      missing or falsy timestamp is an error; the source defaults to "unknown" only when the
      key is absent; the text defaults to "" and is coerced to a string; the raw record is kept
      exactly when `keep_raw` is set. */
  function NormalizeMessage(raw: Dict<string, Json>, keepRaw: bool, c: Codecs): (r: Result<Normalized, NormalizeError>)
    ensures r.Ok? <==> JTruthy(Field(raw, "ts"))
    ensures r.Err? ==> r.error.MissingTimestamp? && JTruthy(r.error.messageId)
    ensures r.Ok? ==>
      var m := r.value;
      && JTruthy(m.messageId)
      && (JTruthy(Field(raw, "id")) ==> m.messageId == Field(raw, "id"))
      && (!JTruthy(Field(raw, "id")) ==> m.messageId.JStr? && IsPrefix(AutoPrefix, m.messageId.s))
      && m.timestamp == Field(raw, "ts")
      && (HasKey(raw, "source") ==> m.source == Field(raw, "source"))
      && (!HasKey(raw, "source") ==> m.source == JStr("unknown"))
      && (!HasKey(raw, "text") ==> m.text == "")
      && (Field(raw, "text").JStr? ==> m.text == Field(raw, "text").s)
      && (keepRaw <==> m.raw == Some(raw))
      && (!keepRaw ==> m.raw == None)
  {
    var id := Field(raw, "id");
    var messageId := if JTruthy(id) then id else JStr(DeterministicId(raw, c));
    var source := if HasKey(raw, "source") then Field(raw, "source") else JStr("unknown");
    var timestamp := Field(raw, "ts");
    if !JTruthy(timestamp) then Err(MissingTimestamp(messageId))
    else
      var text := if HasKey(raw, "text") then Field(raw, "text") else JStr("");
      Ok(Normalized(messageId, source, timestamp, StrOf(text, c), Field(raw, "thread_id"),
                    Field(raw, "sender"), Field(raw, "sender_name"), Field(raw, "recipients"),
                    Field(raw, "subject"), Field(raw, "has_attachments"), Field(raw, "account_email"),
                    Field(raw, "attachments"), if keepRaw then Some(raw) else None))
  }

  /** One entry of the message list: `raw.get` fails on anything but an object. */
  function NormalizeEntry(entry: Json, keepRaw: bool, c: Codecs): (r: Result<Normalized, NormalizeError>)
    ensures !entry.JObject? ==> r == Err(NotAnObject)
    ensures entry.JObject? ==> r == NormalizeMessage(entry.fields, keepRaw, c)
  {
    if entry.JObject? then NormalizeMessage(entry.fields, keepRaw, c) else Err(NotAnObject)
  }

  // ---------------------------------------------------------------- the batch

  /** `[f(x) for x in xs]` where `f` may raise: every element mapped in order, and the first
      failure stops the list. */
  function Traverse<A, B, E>(xs: seq<A>, f: A -> Result<B, E>): (r: Result<seq<B>, E>)
    ensures r.Ok? ==> |r.value| == |xs|
    decreases |xs|
  {
    if xs == [] then Ok([])
    else
      var n := |xs| - 1;
      var acc := Traverse(xs[..n], f);
      if acc.Err? then acc
      else
        match f(xs[n])
        case Ok(y) => Ok(acc.value + [y])
        case Err(e) => Err(e)
  }

  /** Element `i` is the first one that fails, and fails with `e`. */
  ghost predicate FirstFailure<A, B, E>(xs: seq<A>, f: A -> Result<B, E>, i: int, e: E) {
    && 0 <= i < |xs|
    && f(xs[i]) == Err(e)
    && forall j :: 0 <= j < i ==> f(xs[j]).Ok?
  }

  /** The traversal succeeds exactly when every element does, and then holds each element's
      image at its own position; otherwise it reports the first failure. */
  lemma {:induction false} TraverseMeaning<A, B, E>(xs: seq<A>, f: A -> Result<B, E>)
    ensures var r := Traverse(xs, f);
      && (r.Ok? <==> forall i :: 0 <= i < |xs| ==> f(xs[i]).Ok?)
      && (r.Ok? ==> forall i :: 0 <= i < |xs| ==> r.value[i] == f(xs[i]).value)
      && (r.Err? ==> exists i :: FirstFailure(xs, f, i, r.error))
    decreases |xs|
  {
    if xs != [] {
      var n := |xs| - 1;
      var prefix := xs[..n];
      TraverseMeaning(prefix, f);
      assert forall j :: 0 <= j < n ==> prefix[j] == xs[j];
      var acc := Traverse(prefix, f);
      if acc.Err? {
        var i :| FirstFailure(prefix, f, i, acc.error);
        assert FirstFailure(xs, f, i, acc.error);
      } else if f(xs[n]).Err? {
        assert FirstFailure(xs, f, n, Traverse(xs, f).error);
      }
    }
  }

  /** Once a prefix has failed, the whole traversal fails the same way. */
  lemma {:induction false} TraverseErrSticks<A, B, E>(xs: seq<A>, i: nat, f: A -> Result<B, E>)
    requires i <= |xs| && Traverse(xs[..i], f).Err?
    ensures Traverse(xs, f) == Traverse(xs[..i], f)
    decreases |xs|
  {
    if i == |xs| {
      TakeAll(xs);
    } else {
      var n := |xs| - 1;
      assert xs[..n][..i] == xs[..i];
      TraverseErrSticks(xs[..n], i, f);
    }
  }

  /** One more element that succeeds extends a successful prefix by its image. */
  lemma TraverseStep<A, B, E>(xs: seq<A>, i: nat, f: A -> Result<B, E>)
    requires i < |xs| && Traverse(xs[..i], f).Ok? && f(xs[i]).Ok?
    ensures Traverse(xs[..i + 1], f) == Ok(Traverse(xs[..i], f).value + [f(xs[i]).value])
  {
    TakeSnoc(xs, i);
  }

  /** Every entry normalised in order; the first failure stops the batch. */
  function NormalizeAll(entries: seq<Json>, keepRaw: bool, c: Codecs): (r: Result<seq<Normalized>, NormalizeError>)
    ensures r.Ok? ==> |r.value| == |entries|
  {
    Traverse(entries, Normalizer(keepRaw, c))
  }

  /** `normalize_message` applied to list entries. */
  function Normalizer(keepRaw: bool, c: Codecs): Json -> Result<Normalized, NormalizeError> {
    (e: Json) => NormalizeEntry(e, keepRaw, c)
  }

  /** The texts of a message list. */
  function Texts(ms: seq<Normalized>): (r: seq<string>)
    ensures |r| == |ms| && forall i :: 0 <= i < |ms| ==> r[i] == ms[i].text
  {
    seq(|ms|, i requires 0 <= i < |ms| => ms[i].text)
  }

  /** The running count of a loop: the elements satisfying `p`. */
  function CountWhere<B>(ys: seq<B>, p: B -> bool): nat
    decreases |ys|
  {
    if ys == [] then 0 else CountWhere(ys[..|ys| - 1], p) + (if p(ys[|ys| - 1]) then 1 else 0)
  }

  predicate EmptyText(m: Normalized) {
    m.text == ""
  }

  function EmptyTexts(ms: seq<Normalized>): nat {
    CountWhere(ms, EmptyText)
  }

  /** The count is the number of empty texts among the messages. */
  lemma {:induction false} EmptyTextsMeaning(ms: seq<Normalized>)
    ensures EmptyTexts(ms) == multiset(Texts(ms))[""]
    decreases |ms|
  {
    if ms != [] {
      var n := |ms| - 1;
      EmptyTextsMeaning(ms[..n]);
      assert Texts(ms) == Texts(ms[..n]) + [ms[n].text];
      assert EmptyTexts(ms) == EmptyTexts(ms[..n]) + (if ms[n].text == "" then 1 else 0);
    }
  }

  /** The sort key: the timestamp text. */
  function TsKey(m: Normalized): (string, string) {
    if m.timestamp.JStr? then (m.timestamp.s, "") else ("", "")
  }

  /** Every timestamp is a string, so that Python can compare them. */
  predicate AllTsStrings(ms: seq<Normalized>) {
    forall i :: 0 <= i < |ms| ==> ms[i].timestamp.JStr?
  }

  /** `normalize_messages`: the normalised list (sorted stably by timestamp when asked and
      the timestamps compare) and the count of empty texts. */
  function NormalizeMessagesOf(entries: seq<Json>, sortByTs: bool, keepRaw: bool, c: Codecs)
    : (r: Result<(seq<Normalized>, nat), NormalizeError>)
    ensures r.Ok? ==> |r.value.0| == |entries| && r.value.1 <= |entries|
  {
    match NormalizeAll(entries, keepRaw, c)
    case Err(e) => Err(e)
    case Ok(ms) =>
      EmptyTextsMeaning(ms);
      SortByPerm(ms, TsKey);
      Ok((if sortByTs && AllTsStrings(ms) then SortBy(ms, TsKey) else ms, EmptyTexts(ms)))
  }

  /** The batch fails exactly when some entry does, with the first failure. Otherwise it
      returns one message per entry: in input order without sorting, and with sorting a
      permutation of them that is ordered by timestamp and keeps the input order among equal
      timestamps. The count is the number of messages whose text is "". */
  lemma NormalizeMessagesMeaning(entries: seq<Json>, sortByTs: bool, keepRaw: bool, c: Codecs)
    ensures var all := NormalizeAll(entries, keepRaw, c);
      var r := NormalizeMessagesOf(entries, sortByTs, keepRaw, c);
      && (r.Ok? <==> forall i :: 0 <= i < |entries| ==> NormalizeEntry(entries[i], keepRaw, c).Ok?)
      && (r.Err? ==> exists i :: FirstFailure(entries, Normalizer(keepRaw, c), i, r.error))
      && (r.Ok? ==>
            && multiset(r.value.0) == multiset(all.value)
            && r.value.1 == multiset(Texts(all.value))[""]
            && (forall i :: 0 <= i < |entries| ==> all.value[i] == NormalizeEntry(entries[i], keepRaw, c).value)
            && (!(sortByTs && AllTsStrings(all.value)) ==> r.value.0 == all.value)
            && (sortByTs && AllTsStrings(all.value) ==>
                  && SortedBy(r.value.0, TsKey)
                  && forall k :: WithKey(r.value.0, TsKey, k) == WithKey(all.value, TsKey, k)))
  {
    TraverseMeaning(entries, Normalizer(keepRaw, c));
    var all := NormalizeAll(entries, keepRaw, c);
    if all.Ok? {
      EmptyTextsMeaning(all.value);
      SortByPerm(all.value, TsKey);
      SortBySorted(all.value, TsKey);
      forall k {
        SortByStable(all.value, TsKey, k);
      }
    }
  }

  /** The loop of `normalize_messages`: each element mapped and appended, the images
      satisfying `p` counted on the way; the first failure is raised. */
  method TraverseCount<A, B, E>(xs: seq<A>, f: A -> Result<B, E>, p: B -> bool) returns (r: Result<(seq<B>, nat), E>)
    ensures r.Ok? <==> Traverse(xs, f).Ok?
    ensures r.Ok? ==> r.value == (Traverse(xs, f).value, CountWhere(Traverse(xs, f).value, p))
    ensures r.Err? ==> r.error == Traverse(xs, f).error
  {
    var ys: seq<B> := [];
    var count := 0;
    var i := 0;
    while i < |xs|
      invariant i <= |xs|
      invariant Traverse(xs[..i], f) == Ok(ys)
      invariant count == CountWhere(ys, p)
    {
      var y := f(xs[i]);
      if y.Err? {
        TakeSnoc(xs, i);
        TraverseErrSticks(xs, i + 1, f);
        return Err(y.error);
      }
      TraverseStep(xs, i, f);
      if p(y.value) {
        count := count + 1;
      }
      DropLast(ys, [y.value]);
      ys := ys + [y.value];
      i := i + 1;
    }
    TakeAll(xs);
    return Ok((ys, count));
  }

  /** `normalize_messages`: the loop over the entries, then the optional sort. */
  method NormalizeMessages(entries: seq<Json>, sortByTs: bool, keepRaw: bool, c: Codecs)
    returns (r: Result<(seq<Normalized>, nat), NormalizeError>)
    ensures r == NormalizeMessagesOf(entries, sortByTs, keepRaw, c)
  {
    var counted := TraverseCount(entries, Normalizer(keepRaw, c), EmptyText);
    if counted.Err? {
      return Err(counted.error);
    }
    var normalized, emptyTextCount := counted.value.0, counted.value.1;
    if sortByTs && AllTsStrings(normalized) {
      normalized := StableSort(normalized, TsKey);
    }
    return Ok((normalized, emptyTextCount));
  }
}
