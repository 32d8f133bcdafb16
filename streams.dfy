/** The stream classes: `AppFiguresBase` with its single-window `do_sync` and
    `generate_catalog`, and the `do_sync` overrides of `ProductsStream` and `RanksStream`.
    One class `Stream` carries the fields of a stream object; the per-class constants
    (name, URI template, key properties, response depth) are a `StreamDef`. */
module Streams {
  import opened Common
  import opened Flatten
  import opened Window
  import opened Batches
  import opened RankApi
  import opened Retry
  import opened RankRun
  import opened Catalog

  /** The class constants `STREAM_NAME`, `URI`, `KEY_PROPERTIES` and `RESPONSE_LEVELS`. */
  datatype StreamDef = StreamDef(name: string, uri: string, keyProperties: seq<string>, levels: int)

  const SalesDef := StreamDef("sales",
    "/reports/sales/?group_by=products,dates,countries&start_date={}&end_date={}&granularity=daily",
    ["country", "product_id", "date"], 3)
  const RevenueDef := StreamDef("revenue",
    "/reports/revenue?group_by=products,dates,country&start_date={}&end_date={}&granularity=daily",
    ["country", "product_id", "date"], 3)
  const SubscriptionsDef := StreamDef("subscriptions",
    "/reports/subscriptions?group_by=product,date,country&start_date={}&end_date={}&granularity=daily",
    ["country", "product_id", "date"], 3)
  const ProductsDef := StreamDef("products", "", ["id"], 2)
  const RanksDef := StreamDef("ranks", "", ["product_id", "country", "category", "date"], 2)

  /** A request to the API client: a report URI filled with a window, or the product list. */
  datatype Request = Report(uri: string, start: Date, end: Date) | ProductsMine

  /** What the client gives back: a decoded body, a `RequestError`, or any other failure. */
  datatype Reply = Body(json: Value) | RequestError | Fault

  /** A message to the Singer writer: one record, or (as `ProductsStream` passes) a list of them. */
  datatype Message = RecordMsg(stream: string, record: Value) | BatchMsg(stream: string, records: seq<Value>)

  /** How a `do_sync` ends: normally, by returning early on a `RequestError`, or by an
      exception that leaves the method. */
  datatype SyncOutcome = Finished | RequestFailed | Crashed

  /** Records are written in groups once this many are buffered. */
  const FlushEvery := 2500

  /** Product records are written as one list once this many are buffered. */
  const ProductsFlushEvery := 1000

  // ---- Bookmark seeding and schema choice (`__init__`). ----

  /** A value read as a date by `str_to_date`: only a date string reads. */
  function AsDate(v: Value): (r: Option<Date>)
    ensures r.Some? <==> v.Day?
    ensures r.Some? ==> r.value == v.d
  {
    if v.Day? then Some(v.d) else None
  }

  /** The stored `last_record` of a stream when it is truthy, else the configured start date,
      as `str_to_date` reads it: nothing when the stored value is not a date (every `do_sync`
      then raises before its first request). */
  function SeedBookmark(state: map<string, Value>, name: string, startDate: Date): (b: Option<Date>)
    ensures name in state && Truthy(state[name]) ==> (b.Some? <==> state[name].Day?)
    ensures name in state && state[name].Day? ==> b == Some(state[name].d)
    ensures !(name in state && Truthy(state[name])) ==> b == Some(startDate)
  {
    if name in state && Truthy(state[name]) then AsDate(state[name]) else Some(startDate)
  }

  /** A bookmark the sync writes is the one the next run starts from. */
  lemma SeedAfterWrite(state: map<string, Value>, name: string, written: Date, startDate: Date)
    ensures SeedBookmark(state[name := Day(written)], name, startDate) == Some(written)
  {
  }

  /** Entry `k` of the catalog is the first one for the stream `name`. */
  predicate FirstEntry(catalog: Option<seq<CatalogEntry>>, name: string, k: int) {
    catalog.Some? && 0 <= k < |catalog.value| && catalog.value[k].tapStreamId == name &&
    forall j :: 0 <= j < k ==> catalog.value[j].tapStreamId != name
  }

  /** The schema and key properties: those of the catalog's first entry for the stream when
      its schema is non-empty, else the schema file's and the class's `KEY_PROPERTIES`. */
  function SchemaChoice(def: StreamDef, catalog: Option<seq<CatalogEntry>>, fileSchema: Value): (r: (Value, seq<string>))
    ensures forall k :: FirstEntry(catalog, def.name, k) && Truthy(catalog.value[k].schema) ==>
              r == (catalog.value[k].schema, catalog.value[k].keyProperties)
    ensures (forall k :: FirstEntry(catalog, def.name, k) ==> !Truthy(catalog.value[k].schema)) ==>
              r == (fileSchema, def.keyProperties)
  {
    var details := if catalog.Some? then StreamDetails(catalog.value, def.name) else None;
    if details.Some? && Truthy(details.value.schema) then (details.value.schema, details.value.keyProperties)
    else (fileSchema, def.keyProperties)
  }

  /** Without a catalog, the products and ranks streams key on fields their data carries:
      `id` of every product the loop lists, and the product, country, category and date
      of every rank record. */
  lemma FallbackKeysPresent(fileSchema: Value, product: Value, r: RankRecord)
    requires ProductId(product).Some?
    ensures forall key :: key in SchemaChoice(ProductsDef, None, fileSchema).1 ==> Get(product, key).Some?
    ensures forall key :: key in SchemaChoice(RanksDef, None, fileSchema).1 ==> Get(RecordValue(r), key).Some?
  {
    var fields := RecordValue(r).fields;
    forall key | key in SchemaChoice(RanksDef, None, fileSchema).1 ensures Get(RecordValue(r), key).Some? {
      LookupFinds(fields, key);
      assert key == fields[0].0 || key == fields[1].0 || key == fields[2].0 || key == fields[5].0;
    }
  }

  // ---- The single-window sync (`AppFiguresBase.do_sync`). ----

  /** The report request for the window around the bookmark. */
  function ReportRequest(def: StreamDef, bookmark: Date, today: Date): Request {
    var w := WindowFor(bookmark, today);
    Report(def.uri, w.start, w.end)
  }

  /** The flattened entries of a reply, when it is a body the traversal can walk. */
  function ReportEntries(reply: Reply, levels: int): Option<seq<Value>> {
    if reply.Body? then Traverse(reply.json, levels) else None
  }

  /** The sales, revenue and subscriptions reports are three levels deep: a response of
      N products by M dates by K countries gives N * M * K entries. */
  lemma ReportGridEntries(def: StreamDef, response: Value, n: nat, m: nat, k: nat)
    requires def == SalesDef || def == RevenueDef || def == SubscriptionsDef
    requires Shaped([response], [n, m, k])
    ensures ReportEntries(Body(response), def.levels).Some?
    ensures |ReportEntries(Body(response), def.levels).value| == n * m * k
  {
    TraverseGridCount(response, n, m, k);
  }

  predicate AllDated(entries: seq<Value>) {
    forall k :: 0 <= k < |entries| ==> DateOf(entries[k]).Some?
  }

  /** Entry `f` is the first entry without a date, the one whose `entry['date']` raises. */
  predicate FirstUndated(entries: seq<Value>, f: int) {
    0 <= f < |entries| && AllDated(entries[..f]) && DateOf(entries[f]).None?
  }

  /** Entries that are not all dated have exactly one first undated entry. */
  lemma FirstUndatedUnique(entries: seq<Value>)
    ensures !AllDated(entries) <==> exists f :: FirstUndated(entries, f)
    ensures forall f, g :: FirstUndated(entries, f) && FirstUndated(entries, g) ==> f == g
  {
    if !AllDated(entries) {
      var f :| 0 <= f < |entries| && DateOf(entries[f]).None?;
      while f > 0 && !AllDated(entries[..f])
        invariant 0 <= f < |entries| && DateOf(entries[f]).None?
        decreases f
      {
        var g :| 0 <= g < f && DateOf(entries[..f][g]).None?;
        f := g;
      }
      assert f == 0 ==> entries[..f] == [];
      assert FirstUndated(entries, f);
    }
  }

  /** `entry['date']` of every entry. */
  function EntryDates(entries: seq<Value>): seq<Date>
    requires AllDated(entries)
  {
    seq(|entries|, k requires 0 <= k < |entries| => DateOf(entries[k]).value)
  }

  /** One record message per entry, in order, each entry normalised by `strings_to_floats`. */
  function RecordMsgs(name: string, normalize: Value -> Value, entries: seq<Value>): seq<Message>
  {
    seq(|entries|, k requires 0 <= k < |entries| => RecordMsg(name, normalize(entries[k])))
  }

  lemma RecordMsgsSplit(name: string, normalize: Value -> Value, entries: seq<Value>, a: nat, b: nat)
    requires a <= b <= |entries|
    ensures RecordMsgs(name, normalize, entries[..a]) + RecordMsgs(name, normalize, entries[a..b])
            == RecordMsgs(name, normalize, entries[..b])
  {
    var left := RecordMsgs(name, normalize, entries[..a]);
    var right := RecordMsgs(name, normalize, entries[a..b]);
    var whole := RecordMsgs(name, normalize, entries[..b]);
    assert |left + right| == |whole|;
    forall k | 0 <= k < |whole| ensures (left + right)[k] == whole[k] {
      if k < a {
        assert (left + right)[k] == left[k];
      } else {
        assert (left + right)[k] == right[k - a];
      }
    }
  }

  /** One more dated entry: the prefix stays dated and its dates grow by that entry's date. */
  lemma EntryDatesSnoc(entries: seq<Value>, i: nat)
    requires i < |entries| && AllDated(entries[..i]) && DateOf(entries[i]).Some?
    ensures AllDated(entries[..i + 1])
    ensures EntryDates(entries[..i + 1]) == EntryDates(entries[..i]) + [DateOf(entries[i]).value]
  {
    assert forall k :: 0 <= k < i ==> entries[..i + 1][k] == entries[..i][k];
    assert entries[..i + 1][i] == entries[i];
  }

  lemma RecordMsgsSnoc(name: string, normalize: Value -> Value, entries: seq<Value>, a: nat, b: nat)
    requires a <= b < |entries|
    ensures RecordMsgs(name, normalize, entries[a..b + 1])
            == RecordMsgs(name, normalize, entries[a..b]) + [RecordMsg(name, normalize(entries[b]))]
  {
    assert forall k :: 0 <= k < b - a ==> entries[a..b + 1][k] == entries[a..b][k];
    assert entries[a..b + 1][b - a] == entries[b];
  }

  /** An index `i` inside group `g` (of 2500 entries, or of 1000 products) lies after
      exactly the `g` whole groups before it. */
  lemma GroupStart(i: nat, g: nat, size: nat)
    requires size == FlushEvery || size == ProductsFlushEvery
    requires g * size <= i < g * size + size
    ensures g * size == size * (i / size)
  {
  }

  // ---- The products sync (`ProductsStream.do_sync`). ----

  /** `product['id']`, when it is an integer. */
  function ProductId(product: Value): Option<int> {
    match Get(product, "id")
    case Some(Num(n)) => Some(n)
    case _ => None
  }

  /** `updated_date` when it is truthy, else `added_date`, read as a date; nothing when
      a key it reads is missing or the value is not a date (the source raises). */
  function ProductDate(product: Value): Option<Date> {
    match Get(product, "updated_date")
    case None => None
    case Some(updated) =>
      if Truthy(updated) then AsDate(updated)
      else match Get(product, "added_date")
        case None => None
        case Some(added) => AsDate(added)
  }

  /** Whether every product has an integer id and a readable date. */
  predicate Listable(products: seq<Value>) {
    forall k :: 0 <= k < |products| ==> ProductId(products[k]).Some? && ProductDate(products[k]).Some?
  }

  /** Product `f` is the first product without an integer id or a readable date, the one
      at which the loop raises. */
  predicate FirstUnlistable(products: seq<Value>, f: int) {
    0 <= f < |products| && Listable(products[..f]) &&
    (ProductId(products[f]).None? || ProductDate(products[f]).None?)
  }

  /** Products that are not all listable have exactly one first unlistable product. */
  lemma FirstUnlistableUnique(products: seq<Value>)
    ensures !Listable(products) <==> exists f :: FirstUnlistable(products, f)
    ensures forall f, g :: FirstUnlistable(products, f) && FirstUnlistable(products, g) ==> f == g
  {
    if !Listable(products) {
      var f :| 0 <= f < |products| && (ProductId(products[f]).None? || ProductDate(products[f]).None?);
      while f > 0 && !Listable(products[..f])
        invariant 0 <= f < |products| && (ProductId(products[f]).None? || ProductDate(products[f]).None?)
        decreases f
      {
        var g :| 0 <= g < f && (ProductId(products[..f][g]).None? || ProductDate(products[..f][g]).None?);
        f := g;
      }
      assert f == 0 ==> products[..f] == [];
      assert FirstUnlistable(products, f);
    }
  }

  function ProductIds(products: seq<Value>): seq<int>
    requires Listable(products)
  {
    seq(|products|, k requires 0 <= k < |products| => ProductId(products[k]).value)
  }

  function ProductDates(products: seq<Value>): seq<Date>
    requires Listable(products)
  {
    seq(|products|, k requires 0 <= k < |products| => ProductDate(products[k]).value)
  }

  /** The records carried by a run of messages, in order. */
  function Unbatch(msgs: seq<Message>): seq<Value> {
    if msgs == [] then []
    else (match msgs[0] case RecordMsg(_, r) => [r] case BatchMsg(_, rs) => rs) + Unbatch(msgs[1..])
  }

  lemma {:induction false} UnbatchSnoc(msgs: seq<Message>, m: Message)
    ensures Unbatch(msgs + [m]) == Unbatch(msgs) + Unbatch([m])
    decreases |msgs|
  {
    if msgs == [] {
      assert msgs + [m] == [m];
    } else {
      assert (msgs + [m])[0] == msgs[0];
      assert (msgs + [m])[1..] == msgs[1..] + [m];
      UnbatchSnoc(msgs[1..], m);
    }
  }

  /** Writing the buffered records as one list message moves them from the buffer to the
      written messages. */
  lemma FlushProducts(written: seq<Message>, name: string, records: seq<Value>)
    ensures Unbatch(written + [BatchMsg(name, records)]) + [] == Unbatch(written) + records
  {
    UnbatchSnoc(written, BatchMsg(name, records));
    assert Unbatch([BatchMsg(name, records)]) == records + Unbatch([]);
  }

  /** `msgs` are list messages of `name` that carry `records` in order, every one but the
      last full (`size` records) and the last one short (possibly empty). */
  ghost predicate BatchedAs(msgs: seq<Message>, name: string, records: seq<Value>, size: nat) {
    |msgs| > 0 &&
    Unbatch(msgs) == records &&
    (forall k :: 0 <= k < |msgs| ==> msgs[k].BatchMsg? && msgs[k].stream == name) &&
    (forall k :: 0 <= k < |msgs| - 1 ==> |msgs[k].records| == size) &&
    |msgs[|msgs| - 1].records| < size
  }

  /** Every message is a list message of `name` holding exactly `size` records. */
  predicate FullBatches(msgs: seq<Message>, name: string, size: nat) {
    msgs == [] ||
    (FullBatches(msgs[..|msgs| - 1], name, size) &&
     msgs[|msgs| - 1].BatchMsg? && msgs[|msgs| - 1].stream == name && |msgs[|msgs| - 1].records| == size)
  }

  lemma {:induction false} FullBatchesAll(msgs: seq<Message>, name: string, size: nat)
    requires FullBatches(msgs, name, size)
    ensures forall k :: 0 <= k < |msgs| ==>
              msgs[k].BatchMsg? && msgs[k].stream == name && |msgs[k].records| == size
    decreases |msgs|
  {
    if msgs != [] {
      var front := msgs[..|msgs| - 1];
      FullBatchesAll(front, name, size);
      assert forall k :: 0 <= k < |front| ==> msgs[k] == front[k];
    }
  }

  /** Full list messages carry `size` records each. */
  lemma {:induction false} FullBatchesLength(msgs: seq<Message>, name: string, size: nat)
    requires FullBatches(msgs, name, size)
    ensures |Unbatch(msgs)| == size * |msgs|
    decreases |msgs|
  {
    if msgs != [] {
      var front, last := msgs[..|msgs| - 1], msgs[|msgs| - 1];
      FullBatchesLength(front, name, size);
      assert front + [last] == msgs;
      UnbatchSnoc(front, last);
      assert Unbatch([last]) == last.records + Unbatch([]);
    }
  }

  /** Full list messages followed by the short remainder are the records, batched. */
  lemma LastBatch(written: seq<Message>, name: string, records: seq<Value>, all: seq<Value>, size: nat)
    requires Unbatch(written) + records == all
    requires FullBatches(written, name, size)
    requires |records| < size
    ensures BatchedAs(written + [BatchMsg(name, records)], name, all, size)
  {
    FullBatchesAll(written, name, size);
    FlushProducts(written, name, records);
    var msgs := written + [BatchMsg(name, records)];
    assert Unbatch(msgs) == all;
    assert forall k :: 0 <= k < |written| ==> msgs[k] == written[k];
  }

  /** `tidy_dates` of every product, in order. */
  function Tidied(tidy: Value -> Value, products: seq<Value>): seq<Value>
  {
    seq(|products|, k requires 0 <= k < |products| => tidy(products[k]))
  }

  /** `out` is `out0` followed by full lists of 1000 of `name` that carry, in order, the
      tidied records of the first `n` products. */
  predicate ListsAppended(out0: seq<Message>, out: seq<Message>, name: string, tidy: Value -> Value,
                          products: seq<Value>, n: nat)
  {
    n <= |products| && |out0| <= |out| && out[..|out0|] == out0 &&
    FullBatches(out[|out0|..], name, ProductsFlushEvery) &&
    Unbatch(out[|out0|..]) == Tidied(tidy, products[..n])
  }

  /** The tidied records of a prefix are the prefix of the tidied records. */
  lemma TidiedPrefix(tidy: Value -> Value, products: seq<Value>, n: nat, i: nat)
    requires n <= i <= |products|
    ensures Tidied(tidy, products[..i])[..n] == Tidied(tidy, products[..n])
  {
  }

  /** When the loop stops at product `i`, the lists written hold the tidied records of
      the whole lists of 1000 before `i`. */
  lemma WrittenBefore(tidy: Value -> Value, products: seq<Value>, i: nat, name: string,
                      written: seq<Message>, records: seq<Value>)
    requires i <= |products|
    requires Unbatch(written) + records == Tidied(tidy, products[..i])
    requires FullBatches(written, name, ProductsFlushEvery) && |records| < ProductsFlushEvery
    ensures Unbatch(written) == Tidied(tidy, products[..ProductsFlushEvery * (i / ProductsFlushEvery)])
  {
    FullBatchesLength(written, name, ProductsFlushEvery);
    var n := |Unbatch(written)|;
    GroupStart(i, |written|, ProductsFlushEvery);
    TidiedPrefix(tidy, products, n, i);
    assert Unbatch(written) == (Unbatch(written) + records)[..n];
  }

  // ---- The ranks sync (`RanksStream.do_sync`). ----

  /** One record message per rank record, each normalised by `strings_to_floats`. */
  function RankMsgs(name: string, normalize: Value -> Value, rs: seq<RankRecord>): seq<Message>
  {
    seq(|rs|, k requires 0 <= k < |rs| => RecordMsg(name, normalize(RecordValue(rs[k]))))
  }

  lemma RankMsgsAppend(name: string, normalize: Value -> Value, a: seq<RankRecord>, b: seq<RankRecord>)
    ensures RankMsgs(name, normalize, a + b) == RankMsgs(name, normalize, a) + RankMsgs(name, normalize, b)
  {
    var whole := RankMsgs(name, normalize, a + b);
    var parts := RankMsgs(name, normalize, a) + RankMsgs(name, normalize, b);
    assert |whole| == |parts|;
    forall k | 0 <= k < |whole| ensures whole[k] == parts[k] {
      if k < |a| {
        assert (a + b)[k] == a[k];
      } else {
        assert (a + b)[k] == b[k - |a|];
      }
    }
  }

  lemma RecordDatesAppend(a: seq<RankRecord>, b: seq<RankRecord>)
    ensures RecordDates(a + b) == RecordDates(a) + RecordDates(b)
  {
    var whole := RecordDates(a + b);
    var parts := RecordDates(a) + RecordDates(b);
    assert |whole| == |parts|;
    forall k | 0 <= k < |whole| ensures whole[k] == parts[k] {
      if k < |a| {
        assert (a + b)[k] == a[k];
      } else {
        assert (a + b)[k] == b[k - |a|];
      }
    }
  }

  /** The records `done` so far, followed by what the rest of the expansion gives. */
  function After(done: seq<RankRecord>, rest: Expansion): Expansion {
    Expansion(done + rest.records, rest.ok)
  }

  /** Expanding entry `e` moves its records in front of the rest: all of the rest when it
      covers every date, or the end of the expansion when it runs short. */
  lemma ExpandStep(data: seq<RankEntry>, dates: seq<Date>, e: nat, done: seq<RankRecord>)
    requires e < |data|
    ensures Complete(data[e], dates) ==>
              After(done, Expand(data[e..], dates))
              == After(done + EntryRecords(data[e], dates), Expand(data[e + 1..], dates))
    ensures !Complete(data[e], dates) ==>
              After(done, Expand(data[e..], dates)) == Expansion(done + EntryRecords(data[e], dates), false)
  {
    assert data[e..][0] == data[e];
    assert data[e..][1..] == data[e + 1..];
    var here := EntryRecords(data[e], dates);
    if Complete(data[e], dates) {
      var rest := Expand(data[e + 1..], dates).records;
      assert done + (here + rest) == (done + here) + rest;
    }
  }

  lemma EntryPrefixSnoc(before: seq<RankRecord>, entry: RankEntry, dates: seq<Date>, i: nat)
    requires i < Covered(entry, dates)
    ensures before + EntryPrefix(entry, dates, i + 1)
            == (before + EntryPrefix(entry, dates, i)) + [RecordAt(entry, dates, i)]
  {
  }

  /** Writing one more record: one more message, and the bookmark fold takes its date. */
  lemma EmitOne(name: string, normalize: Value -> Value, origin: Date, rs: seq<RankRecord>, r: RankRecord)
    ensures LatestDate(origin, RecordDates(rs + [r])) == Max(LatestDate(origin, RecordDates(rs)), r.date)
    ensures RankMsgs(name, normalize, rs + [r]) == RankMsgs(name, normalize, rs) + [RecordMsg(name, normalize(RecordValue(r)))]
  {
    RecordDatesAppend(rs, [r]);
    assert RecordDates([r]) == [r.date];
    LatestDateSnoc(origin, RecordDates(rs), r.date);
    RankMsgsAppend(name, normalize, rs, [r]);
  }

  /** The state after a run: its last write, when it made one, set the bookmark to the
      latest of `bookmark` and the dates of the records emitted up to that write. */
  function StateAfter(state: map<string, Value>, name: string, bookmark: Date, run: Run): map<string, Value> {
    if run.mark.Some? then state[name := Day(LatestDate(bookmark, RecordDates(run.mark.value)))] else state
  }

  /** A stream object: its schema and key properties, the shared state, its bookmark, the
      product ids it collected, the sub-product ids it skips, and every message it wrote. */
  class Stream {
    const def: StreamDef
    var schema: Value
    var keyProperties: seq<string>
    /** The bookmarks of the state: each stream's `last_record`. */
    var state: map<string, Value>
    /** Whether the seeded bookmark reads as a date; when it does not, `bookmarkDate` is the
        configured start date and is never used. */
    var bookmarkReadable: bool
    var bookmarkDate: Date
    var productIds: seq<int>
    var subProductIds: seq<string>
    var output: seq<Message>

    /** `__init__`: take the schema from the catalog or the schema file, seed the bookmark. */
    constructor (def: StreamDef, state: map<string, Value>, catalog: Option<seq<CatalogEntry>>,
                 fileSchema: Value, startDate: Date, subProductIds: seq<string>)
      ensures this.def == def && this.state == state && this.subProductIds == subProductIds
      ensures (schema, keyProperties) == SchemaChoice(def, catalog, fileSchema)
      ensures bookmarkReadable <==> SeedBookmark(state, def.name, startDate).Some?
      ensures bookmarkReadable ==> bookmarkDate == SeedBookmark(state, def.name, startDate).value
      ensures productIds == [] && output == []
    {
      this.def := def;
      var chosen := SchemaChoice(def, catalog, fileSchema);
      schema := chosen.0;
      keyProperties := chosen.1;
      this.state := state;
      var seeded := SeedBookmark(state, def.name, startDate);
      bookmarkReadable := seeded.Some?;
      bookmarkDate := if seeded.Some? then seeded.value else startDate;
      productIds := [];
      this.subProductIds := subProductIds;
      output := [];
    }

    /** `generate_catalog`: the stream's catalog entry, with one metadata entry for the
        stream and one per schema property, `automatic` exactly for the key properties.
        Nothing when the schema has no `properties` dict (the source raises). */
    method GenerateCatalog() returns (r: Option<CatalogOut>)
      ensures r.None? <==> PropertyNames(schema).None?
      ensures r.Some? ==>
                r.value.tapStreamId == def.name && r.value.stream == def.name &&
                r.value.keyProperties == keyProperties && r.value.schema == schema
      ensures r.Some? ==>
                var props := PropertyNames(schema).value;
                var md := r.value.metadata;
                |md| == |props| + 1 && md[0] == StreamMetadata(def.name) && md[0].breadcrumb == [] &&
                (forall k :: 0 <= k < |props| ==>
                   md[k + 1] == PropertyMetadata(props[k], md[k + 1].inclusion) &&
                   md[k + 1].breadcrumb == ["properties", props[k]] &&
                   (md[k + 1].inclusion == Automatic <==> props[k] in keyProperties))
    {
      var props := PropertyNames(schema);
      if props.None? {
        return None;
      }
      var names := props.value;
      var metadata := [StreamMetadata(def.name)];
      for k := 0 to |names|
        invariant |metadata| == k + 1 && metadata[0] == StreamMetadata(def.name)
        invariant forall j :: 0 <= j < k ==>
                    metadata[j + 1] == PropertyMetadata(names[j], InclusionOf(names[j], keyProperties))
      {
        var inclusion := if names[k] in keyProperties then Automatic else Available;
        metadata := metadata + [PropertyMetadata(names[k], inclusion)];
      }
      return Some(CatalogOut(def.name, def.name, keyProperties, schema, metadata));
    }

    /** `AppFiguresBase.do_sync`: one request for the window around the bookmark, every
        flattened entry written once and in order, the bookmark moved to the latest entry
        date. A `RequestError` returns with nothing written; an entry without a date raises,
        after the groups of 2500 already flushed; an unreadable bookmark raises at once. */
    method DoSync(today: Date, server: Request -> Reply, normalize: Value -> Value) returns (outcome: SyncOutcome)
      modifies this`state, this`output
      ensures !bookmarkReadable ==> outcome == Crashed && state == old(state) && output == old(output)
      ensures var reply := server(ReportRequest(def, bookmarkDate, today));
              outcome == RequestFailed <==> bookmarkReadable && reply == RequestError
      ensures var entries := ReportEntries(server(ReportRequest(def, bookmarkDate, today)), def.levels);
              outcome == Finished <==> bookmarkReadable && entries.Some? && AllDated(entries.value)
      ensures var entries := ReportEntries(server(ReportRequest(def, bookmarkDate, today)), def.levels);
              outcome == Finished ==>
                output == old(output) + RecordMsgs(def.name, normalize, entries.value) &&
                state == old(state)[def.name := Day(LatestDate(bookmarkDate, EntryDates(entries.value)))]
      ensures outcome != Finished ==> state == old(state)
      ensures var entries := ReportEntries(server(ReportRequest(def, bookmarkDate, today)), def.levels);
              entries.None? ==> output == old(output)
      ensures var entries := ReportEntries(server(ReportRequest(def, bookmarkDate, today)), def.levels);
              bookmarkReadable && entries.Some? && !AllDated(entries.value) ==>
                exists f :: FirstUndated(entries.value, f) &&
                  output == old(output) + RecordMsgs(def.name, normalize, entries.value[..FlushEvery * (f / FlushEvery)])
    {
      if !bookmarkReadable {
        return Crashed;
      }
      var w := WindowFor(bookmarkDate, today);
      var reply := server(Report(def.uri, w.start, w.end));
      if reply.RequestError? {
        return RequestFailed;
      }
      var traversed := ReportEntries(reply, def.levels);
      if traversed.None? {
        return Crashed;
      }
      var newBookmark, ok;
      ghost var stop;
      newBookmark, ok, stop := WriteEntries(traversed.value, normalize);
      if !ok {
        return Crashed;
      }
      state := state[def.name := Day(newBookmark)];
      return Finished;
    }

    /** The loop of `AppFiguresBase.do_sync` over the flattened entries: each written once
        and in order, in groups of 2500 and a final shorter one, the bookmark folded over
        their dates. `ok` is false when an entry has no date, which raises after the groups
        already flushed: the whole groups before the undated entry `stop`. */
    method WriteEntries(entries: seq<Value>, normalize: Value -> Value)
      returns (newBookmark: Date, ok: bool, ghost stop: nat)
      modifies this`output
      ensures ok <==> AllDated(entries)
      ensures ok ==> output == old(output) + RecordMsgs(def.name, normalize, entries) &&
                     newBookmark == LatestDate(bookmarkDate, EntryDates(entries))
      ensures !ok ==> FirstUndated(entries, stop) &&
                      output == old(output) + RecordMsgs(def.name, normalize, entries[..FlushEvery * (stop / FlushEvery)])
    {
      var records: seq<Message> := [];
      newBookmark := bookmarkDate;
      ghost var flushed := 0;
      ghost var groups: nat := 0;
      var i := 0;
      assert entries[..0] == [] && entries[0..0] == [];
      while i < |entries|
        invariant Buffered(entries, i, flushed, groups, newBookmark, records, normalize, old(output))
      {
        if DateOf(entries[i]).None? {
          GroupStart(i, groups, FlushEvery);
          return newBookmark, false, i;
        }
        newBookmark, records, flushed, groups := TakeEntry(entries, i, normalize, newBookmark, records,
                                                          flushed, groups, old(output));
        i := i + 1;
      }
      RecordMsgsSplit(def.name, normalize, entries, flushed, i);
      assert entries[..i] == entries;
      if records != [] {
        output := output + records;
      }
      ok, stop := true, |entries|;
    }

    /** What the loop of `AppFiguresBase.do_sync` holds after `i` entries: all dated, the
        bookmark folded over their dates, the first `flushed` (a whole number of groups of
        2500) written after `output0` and the rest buffered. */
    ghost predicate Buffered(entries: seq<Value>, i: nat, flushed: nat, groups: nat, newBookmark: Date,
                             records: seq<Message>, normalize: Value -> Value, output0: seq<Message>)
      reads this
    {
      flushed <= i <= |entries| &&
      flushed == groups * FlushEvery &&
      AllDated(entries[..i]) &&
      newBookmark == LatestDate(bookmarkDate, EntryDates(entries[..i])) &&
      output == output0 + RecordMsgs(def.name, normalize, entries[..flushed]) &&
      records == RecordMsgs(def.name, normalize, entries[flushed..i]) &&
      |records| < FlushEvery
    }

    /** One dated entry of the loop: fold its date into the bookmark, buffer its record,
        and write the buffer once it holds 2500 records. */
    method TakeEntry(entries: seq<Value>, i: nat, normalize: Value -> Value, newBookmark: Date,
                     records: seq<Message>, ghost flushed: nat, ghost groups: nat, ghost output0: seq<Message>)
      returns (newBookmark': Date, records': seq<Message>, ghost flushed': nat, ghost groups': nat)
      requires i < |entries| && DateOf(entries[i]).Some?
      requires Buffered(entries, i, flushed, groups, newBookmark, records, normalize, output0)
      modifies this`output
      ensures Buffered(entries, i + 1, flushed', groups', newBookmark', records', normalize, output0)
    {
      var date := DateOf(entries[i]).value;
      EntryDatesSnoc(entries, i);
      LatestDateSnoc(bookmarkDate, EntryDates(entries[..i]), date);
      RecordMsgsSnoc(def.name, normalize, entries, flushed, i);
      newBookmark' := Max(newBookmark, date);
      records' := records + [RecordMsg(def.name, normalize(entries[i]))];
      flushed', groups' := flushed, groups;
      if |records'| >= FlushEvery {
        RecordMsgsSplit(def.name, normalize, entries, flushed, i + 1);
        output := output + records';
        records' := [];
        flushed', groups' := i + 1, groups + 1;
        assert entries[flushed'..i + 1] == [];
      }
    }

    /** `ProductsStream.do_sync`: every product of `/products/mine/` written once and in
        order, in lists of 1000 and a final shorter one; its ids kept in order for the ranks
        stream; the bookmark moved to the latest product date. An unreadable bookmark raises
        at once, and so does a reply that is not a dict (nothing is caught). */
    method SyncProducts(server: Request -> Reply, tidy: Value -> Value) returns (outcome: SyncOutcome)
      modifies this`state, this`output, this`productIds
      ensures outcome != RequestFailed
      ensures var reply := server(ProductsMine);
              outcome == Finished <==> bookmarkReadable && reply.Body? && reply.json.Obj? &&
                                       Listable(Values(reply.json.fields))
      ensures var reply := server(ProductsMine);
              outcome == Finished ==>
                var products := Values(reply.json.fields);
                productIds == ProductIds(products) &&
                state == old(state)[def.name := Day(LatestDate(bookmarkDate, ProductDates(products)))] &&
                |old(output)| < |output| && output[..|old(output)|] == old(output) &&
                BatchedAs(output[|old(output)|..], def.name, Tidied(tidy, products), ProductsFlushEvery)
      ensures outcome != Finished ==> state == old(state) && productIds == old(productIds)
      ensures var reply := server(ProductsMine);
              !(bookmarkReadable && reply.Body? && reply.json.Obj?) ==> output == old(output)
      ensures var reply := server(ProductsMine);
              bookmarkReadable && reply.Body? && reply.json.Obj? && outcome != Finished ==>
                var products := Values(reply.json.fields);
                exists f :: FirstUnlistable(products, f) &&
                  ListsAppended(old(output), output, def.name, tidy, products,
                                ProductsFlushEvery * (f / ProductsFlushEvery))
    {
      if !bookmarkReadable {
        return Crashed;
      }
      var reply := server(ProductsMine);
      if !(reply.Body? && reply.json.Obj?) {
        return Crashed;
      }
      var products := Values(reply.json.fields);
      var ids, maxDate, records, ok;
      ghost var written, stop;
      ids, maxDate, records, ok, written, stop := ListProducts(products, tidy);
      if !ok {
        return Crashed;
      }
      LastBatch(written, def.name, records, Tidied(tidy, products), ProductsFlushEvery);
      output := output + [BatchMsg(def.name, records)];
      written := written + [BatchMsg(def.name, records)];
      assert output[|old(output)|..] == written && output[..|old(output)|] == old(output);
      state := state[def.name := Day(maxDate)];
      productIds := ids;
      return Finished;
    }

    /** What the loop of `ProductsStream.do_sync` holds after the products `seen`: their
        ids collected, the bookmark folded over their dates, and their tidied records
        written in full lists of 1000 after `output0` with fewer than 1000 left buffered. */
    ghost predicate Listed(seen: seq<Value>, tidy: Value -> Value, ids: seq<int>, maxDate: Date,
                           records: seq<Value>, written: seq<Message>, output0: seq<Message>)
      reads this
    {
      Listable(seen) &&
      ids == ProductIds(seen) &&
      maxDate == LatestDate(bookmarkDate, ProductDates(seen)) &&
      output == output0 + written &&
      Unbatch(written) + records == Tidied(tidy, seen) &&
      FullBatches(written, def.name, ProductsFlushEvery) &&
      |records| < ProductsFlushEvery
    }

    /** The loop of `ProductsStream.do_sync` over the products: ids collected, the bookmark
        folded over the product dates, tidied records written in full lists of 1000 with the
        rest left buffered. `ok` is false when a product has no integer id or no readable
        date, which raises after the lists already written. */
    method ListProducts(products: seq<Value>, tidy: Value -> Value)
      returns (ids: seq<int>, maxDate: Date, records: seq<Value>, ok: bool,
               ghost written: seq<Message>, ghost stop: nat)
      modifies this`output
      ensures ok <==> Listable(products)
      ensures output == old(output) + written && FullBatches(written, def.name, ProductsFlushEvery)
      ensures ok ==> ids == ProductIds(products) &&
                     maxDate == LatestDate(bookmarkDate, ProductDates(products)) &&
                     Unbatch(written) + records == Tidied(tidy, products) &&
                     |records| < ProductsFlushEvery
      ensures !ok ==> FirstUnlistable(products, stop) &&
                      Unbatch(written) == Tidied(tidy, products[..ProductsFlushEvery * (stop / ProductsFlushEvery)]) &&
                      ListsAppended(old(output), output, def.name, tidy, products,
                                    ProductsFlushEvery * (stop / ProductsFlushEvery))
    {
      ids := [];
      records := [];
      maxDate := bookmarkDate;
      written := [];
      assert products[..0] == [];
      for i := 0 to |products|
        invariant Listed(products[..i], tidy, ids, maxDate, records, written, old(output))
      {
        var product := products[i];
        if ProductId(product).None? || ProductDate(product).None? {
          NotListable(products, i);
          WrittenBefore(tidy, products, i, def.name, written, records);
          assert output[..|old(output)|] == old(output) && output[|old(output)|..] == written;
          return ids, maxDate, records, false, written, i;
        }
        ids, maxDate, records, written := TakeProduct(product, tidy, ids, maxDate, records,
                                                      written, products[..i], old(output));
        TakeSnoc(products, i);
      }
      assert products[..|products|] == products;
      ok, stop := true, |products|;
    }

    /** One product of the loop: collect its id, buffer its tidied record, write the buffer
        as one list once it holds 1000 records, fold its date into the bookmark. */
    method TakeProduct(product: Value, tidy: Value -> Value, ids: seq<int>, maxDate: Date,
                       records: seq<Value>, ghost written: seq<Message>,
                       ghost seen: seq<Value>, ghost output0: seq<Message>)
      returns (ids': seq<int>, maxDate': Date, records': seq<Value>, ghost written': seq<Message>)
      requires Listed(seen, tidy, ids, maxDate, records, written, output0)
      requires ProductId(product).Some? && ProductDate(product).Some?
      modifies this`output
      ensures Listed(seen + [product], tidy, ids', maxDate', records', written', output0)
    {
      var id := ProductId(product).value;
      var date := ProductDate(product).value;
      ProductSnoc(tidy, seen, product);
      LatestDateSnoc(bookmarkDate, ProductDates(seen), date);
      ids' := ids + [id];
      records' := records + [tidy(product)];
      written' := written;
      assert Unbatch(written) + records' == Tidied(tidy, seen + [product]);
      if |records'| >= ProductsFlushEvery {
        FlushProducts(written, def.name, records');
        assert (written + [BatchMsg(def.name, records')])[..|written|] == written;
        output := output + [BatchMsg(def.name, records')];
        written' := written + [BatchMsg(def.name, records')];
        records' := [];
      }
      maxDate' := Max(maxDate, date);
    }

    /** `RanksStream.do_sync`: the id batches are planned once, then every 28-day stride from
        the bookmark up to today asks for every batch, repairing rejected batches and writing
        the bookmark after each fetched one. The records emitted, whether an exception ended
        the sync, and the bookmark left in the state are those of `StridesRun` over the
        batch runs of `api`. An unreadable bookmark raises at once. */
    method SyncRanks(today: Date, api: RankQuery -> RankReply, ghost batch: (string, Date) -> Run,
                     normalize: Value -> Value)
      returns (outcome: SyncOutcome, ghost emitted: seq<RankRecord>)
      requires Repairs(api) && RunsOf(batch, api)
      modifies this`state, this`output
      ensures !bookmarkReadable ==> outcome == Crashed && emitted == [] && state == old(state)
      ensures var run := StridesRun(batch, IdBatches(productIds, subProductIds), bookmarkDate, today);
              bookmarkReadable ==>
                emitted == run.records && (outcome == Finished <==> run.complete) &&
                state == StateAfter(old(state), def.name, bookmarkDate, run)
      ensures outcome != RequestFailed
      ensures output == old(output) + RankMsgs(def.name, normalize, emitted)
    {
      if !bookmarkReadable {
        assert RankMsgs(def.name, normalize, []) == [];
        return Crashed, [];
      }
      var batches := PlanBatches(productIds, subProductIds);
      outcome, emitted := SyncStrides(today, api, batch, batches, normalize);
    }

    /** What the stretch `run` of the ranks sync has done, counted from the bookmark `origin`
        and the messages and state it started from: its records written in order, `latest`
        the latest of `origin` and their dates, and the state as its last write left it. */
    ghost predicate Emitted(run: Run, normalize: Value -> Value, origin: Date, latest: Date,
                            output0: seq<Message>, state0: map<string, Value>)
      reads this
    {
      Wrote(run.records, normalize, origin, latest, output0) &&
      state == StateAfter(state0, def.name, origin, run)
    }

    /** The rank records `records` are written in order after `output0`, and `latest` is
        the latest of `origin` and their dates. */
    ghost predicate Wrote(records: seq<RankRecord>, normalize: Value -> Value, origin: Date, latest: Date,
                          output0: seq<Message>)
      reads this
    {
      latest == LatestDate(origin, RecordDates(records)) &&
      output == output0 + RankMsgs(def.name, normalize, records)
    }

    /** The loop over the strides, for the planned batches. */
    method SyncStrides(today: Date, api: RankQuery -> RankReply, ghost batch: (string, Date) -> Run,
                       batches: seq<string>, normalize: Value -> Value)
      returns (outcome: SyncOutcome, ghost emitted: seq<RankRecord>)
      requires Repairs(api) && RunsOf(batch, api)
      modifies this`state, this`output
      ensures var run := StridesRun(batch, batches, bookmarkDate, today);
              emitted == run.records && (outcome == Finished <==> run.complete) &&
              state == StateAfter(old(state), def.name, bookmarkDate, run)
      ensures outcome != RequestFailed
      ensures output == old(output) + RankMsgs(def.name, normalize, emitted)
    {
      ghost var total := StridesRun(batch, batches, bookmarkDate, today);
      ghost var acc := Idle;
      var newBookmark := bookmarkDate;
      var start := bookmarkDate;
      StridesAfterThen(batch, batches, Idle, start, today);
      IdleThen(total);
      assert output == old(output) + [];
      while start <= today
        invariant acc.complete
        invariant StridesAfter(batch, batches, acc, start, today) == total
        invariant Emitted(acc, normalize, bookmarkDate, newBookmark, old(output), old(state))
        decreases today - start
      {
        assert StridesAfter(batch, batches, acc, start, today)
               == StridesAfter(batch, batches, Then(acc, StrideRun(batch, batches, start)), start + StrideDays, today);
        var ok;
        newBookmark, ok, acc := SyncStride(api, batch, batches, start, normalize, newBookmark,
                                           acc, bookmarkDate, old(output), old(state));
        if !ok {
          assert StridesAfter(batch, batches, acc, start + StrideDays, today) == acc;
          return Crashed, acc.records;
        }
        start := start + StrideDays;
      }
      assert StridesAfter(batch, batches, acc, start, today) == acc;
      return Finished, acc.records;
    }

    /** One stride of `RanksStream.do_sync`, after the stretch `acc`: every batch in turn,
        until one raises. */
    method SyncStride(api: RankQuery -> RankReply, ghost batch: (string, Date) -> Run,
                      batches: seq<string>, start: Date, normalize: Value -> Value, bookmark: Date,
                      ghost acc: Run, ghost origin: Date, ghost output0: seq<Message>, ghost state0: map<string, Value>)
      returns (latest: Date, ok: bool, ghost run: Run)
      requires Repairs(api) && RunsOf(batch, api)
      requires acc.complete && Emitted(acc, normalize, origin, bookmark, output0, state0)
      modifies this`state, this`output
      ensures run == Then(acc, StrideRun(batch, batches, start)) && ok == run.complete
      ensures Emitted(run, normalize, origin, latest, output0, state0)
    {
      ghost var total := BatchesAfter(batch, batches, 0, acc, start);
      BatchesAfterThen(batch, batches, 0, acc, start);
      assert batches[0..] == batches;
      latest := bookmark;
      run := acc;
      for j := 0 to |batches|
        invariant run.complete
        invariant BatchesAfter(batch, batches, j, run, start) == total
        invariant Emitted(run, normalize, origin, latest, output0, state0)
      {
        assert BatchesAfter(batch, batches, j, run, start)
               == BatchesAfter(batch, batches, j + 1, Then(run, batch(batches[j], start)), start);
        var batchOk;
        latest, batchOk, run := SyncBatch(api, batch, batches[j], start, normalize, latest,
                                          run, origin, output0, state0);
        if !batchOk {
          assert BatchesAfter(batch, batches, j + 1, run, start) == run;
          return latest, false, run;
        }
      }
      assert BatchesAfter(batch, batches, |batches|, run, start) == run;
      ok := true;
    }

    /** One batch in one stride, after the stretch `acc`: the repair loop, then the expansion
        of a fetched reply and the bookmark written after it. */
    method SyncBatch(api: RankQuery -> RankReply, ghost batch: (string, Date) -> Run,
                     ids: string, start: Date, normalize: Value -> Value, bookmark: Date,
                     ghost acc: Run, ghost origin: Date, ghost output0: seq<Message>, ghost state0: map<string, Value>)
      returns (latest: Date, ok: bool, ghost run: Run)
      requires Repairs(api) && RunsOf(batch, api)
      requires acc.complete && Emitted(acc, normalize, origin, bookmark, output0, state0)
      modifies this`state, this`output
      ensures run == Then(acc, batch(ids, start)) && ok == run.complete
      ensures Emitted(run, normalize, origin, latest, output0, state0)
    {
      ghost var one := BatchRun(api, ids, start);
      run := Then(acc, one);
      var result := RetryBatch(api, ids, start, start + StrideDays);
      if result.Raised? {
        assert acc.records + [] == acc.records;
        return bookmark, false, run;
      }
      if result.Abandoned? {
        ThenIdle(acc);
        return bookmark, true, run;
      }
      ghost var records;
      latest, ok, records := EmitRanks(result.data, result.dates, normalize, bookmark, acc.records, origin, output0);
      if ok {
        state := state[def.name := Day(latest)];
      }
    }

    /** The expansion of one fetched reply, written after the records `before`: every
        record written in order, the bookmark folded over their dates; `ok` is false when
        an entry runs short of positions or deltas, which raises after the records before it. */
    method EmitRanks(data: seq<RankEntry>, dates: seq<Date>, normalize: Value -> Value, bookmark: Date,
                     ghost before: seq<RankRecord>, ghost origin: Date, ghost output0: seq<Message>)
      returns (latest: Date, ok: bool, ghost records: seq<RankRecord>)
      requires Wrote(before, normalize, origin, bookmark, output0)
      modifies this`output
      ensures records == before + Expand(data, dates).records && ok == Expand(data, dates).ok
      ensures Wrote(records, normalize, origin, latest, output0)
    {
      latest := bookmark;
      records := before;
      assert data[0..] == data;
      for e := 0 to |data|
        invariant After(before, Expand(data, dates)) == After(records, Expand(data[e..], dates))
        invariant Wrote(records, normalize, origin, latest, output0)
      {
        ghost var done := records;
        var entryOk;
        latest, entryOk, records := EmitEntry(data[e], dates, normalize, latest, done, origin, output0);
        ExpandStep(data, dates, e, done);
        if !entryOk {
          return latest, false, records;
        }
      }
      assert data[|data|..] == [];
      assert records + [] == records;
      ok := true;
    }

    /** `for i, rank_date in enumerate(dates): ...` for one entry, written after the
        records `before`: a record per date until the entry runs short of positions or
        deltas. */
    method EmitEntry(entry: RankEntry, dates: seq<Date>, normalize: Value -> Value, bookmark: Date,
                     ghost before: seq<RankRecord>, ghost origin: Date, ghost output0: seq<Message>)
      returns (latest: Date, ok: bool, ghost records: seq<RankRecord>)
      requires Wrote(before, normalize, origin, bookmark, output0)
      modifies this`output
      ensures records == before + EntryRecords(entry, dates) && ok == Complete(entry, dates)
      ensures Wrote(records, normalize, origin, latest, output0)
    {
      latest := bookmark;
      records := before;
      assert before + [] == before;
      for i := 0 to |dates|
        invariant i <= Covered(entry, dates)
        invariant records == before + EntryPrefix(entry, dates, i)
        invariant Wrote(records, normalize, origin, latest, output0)
      {
        if i >= |entry.positions| || i >= |entry.deltas| {
          return latest, false, records;
        }
        var record := RankRecord(entry.country, entry.category, entry.productId,
                                 entry.positions[i], entry.deltas[i], dates[i]);
        latest := WriteRank(record, normalize, latest, records, origin, output0);
        EntryPrefixSnoc(before, entry, dates, i);
        records := records + [record];
      }
      ok := true;
    }

    /** One record of the inner loop: fold its date into the bookmark, normalise it with
        `strings_to_floats` and write it. */
    method WriteRank(record: RankRecord, normalize: Value -> Value, bookmark: Date,
                     ghost before: seq<RankRecord>, ghost origin: Date, ghost output0: seq<Message>)
      returns (latest: Date)
      requires Wrote(before, normalize, origin, bookmark, output0)
      modifies this`output
      ensures latest == Max(bookmark, record.date)
      ensures output == old(output) + [RecordMsg(def.name, normalize(RecordValue(record)))]
      ensures Wrote(before + [record], normalize, origin, latest, output0)
    {
      EmitOne(def.name, normalize, origin, before, record);
      latest := Max(bookmark, record.date);
      output := output + [RecordMsg(def.name, normalize(RecordValue(record)))];
    }
  }

  lemma NotListable(products: seq<Value>, i: nat)
    requires i < |products| && (ProductId(products[i]).None? || ProductDate(products[i]).None?)
    ensures !Listable(products)
  {
  }

  /** One more listable product: one more id, date and tidied record. */
  lemma ProductSnoc(tidy: Value -> Value, seen: seq<Value>, p: Value)
    requires Listable(seen) && ProductId(p).Some? && ProductDate(p).Some?
    ensures Listable(seen + [p])
    ensures ProductIds(seen + [p]) == ProductIds(seen) + [ProductId(p).value]
    ensures ProductDates(seen + [p]) == ProductDates(seen) + [ProductDate(p).value]
    ensures Tidied(tidy, seen + [p]) == Tidied(tidy, seen) + [tidy(p)]
  {
    assert forall k :: 0 <= k < |seen| ==> (seen + [p])[k] == seen[k];
    assert (seen + [p])[|seen|] == p;
  }
}
