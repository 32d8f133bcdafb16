# AppFigures tap: incremental sync engine

A Dafny model of the synchronisation core of the AppFigures Singer tap. It covers:

- **The stream base class `AppFiguresBase`:**
  - picking a stream's entry from a catalog;
  - choosing the schema and key properties, and seeding the bookmark from the state or the configured start date;
  - flattening responses nested two, three or four mappings deep;
  - the single-window `do_sync` that most report streams use;
  - building the catalog entry and its metadata.
- **The products stream:** it lists every product, writes the records in lists of 1000, collects the product ids, and moves the bookmark to the latest product date.
- **The ranks stream:**
  - it filters the product ids and cuts them into comma-joined batches of ten;
  - it walks 28-day strides from the bookmark up to today;
  - it repairs batches that the API rejects with a 400 naming an id, by deleting that id from the URI;
  - it expands each reply into one record per entry and date, writing the bookmark after every fetched batch.

Modules, in dependency order:

- `Common`: JSON values, dates as day numbers, and the bookmark fold `max`.
- `Flatten`: the nested-dict generator, and a reference "descend n levels" definition.
- `Window`: the request window and the 28-day strides.
- `Catalog`: catalog lookup and Singer metadata.
- `Batches`: the id filter, chunking and joining.
- `RankApi`: the ranks endpoint and the expansion of a reply.
- `Retry`: the `re.sub` deletion and the 400-repair loop.
- `RankRun`: the effect of the ranks sync over strides and batches, as a value.
- `Streams`: the stream class `Stream` with its three `do_sync` methods, its constructor and `GenerateCatalog`.

The imperative parts are methods of the class `Stream`:

- The class's fields are the stream object's state: schema, key properties, state, bookmark, product ids, sub-product ids and the messages written.
- Each method is proved against a specification function: `RecordMsgs`/`EntryDates`, `Tidied`/`ProductIds`/`ProductDates`, or `StridesRun`.
- Properties of those functions are lemmas.

The API client, `today`, and the helpers `strings_to_floats` and `tidy_dates` are parameters.

## Model

| member | source | states |
|---|---|---|
| Catalog.StreamDetails | tap_appfigures/streams/base.py:13-20 | the first catalog entry whose `tap_stream_id` is the name, and none exactly when no entry has it |
| Streams.SchemaChoice | tap_appfigures/streams/base.py:33-48 | when the catalog's first entry for the stream has a non-empty schema, that entry's schema and key properties; in every other case (no catalog, no entry, an empty schema) the schema file and the class's `KEY_PROPERTIES` |
| Streams.SeedBookmark | tap_appfigures/streams/base.py:52-58 | a truthy stored `last_record` is the bookmark, read as a date (nothing when it is not one); otherwise the configured start date |
| Streams.FallbackKeysPresent | tap_appfigures/streams/ranks.py:14-15 | without a catalog the products stream keys on `id`, which every listed product has, and the ranks stream on product, country, category and date, which every rank record has |
| Streams.SeedAfterWrite | tap_appfigures/streams/base.py:52-58 | a bookmark written to the state is the one the next run seeds |
| Streams.Stream.constructor | tap_appfigures/streams/base.py:33-61 | fields set from `SchemaChoice` and `SeedBookmark`; readable exactly when the seed reads as a date; no product ids and no messages yet |
| Flatten.KeepTruthy | tap_appfigures/streams/base.py:85-87 | keeps exactly the truthy leaves, never adding any; order and multiplicity by `KeepTruthyAppend` |
| Flatten.KeepTruthyAppend | tap_appfigures/streams/base.py:85-87 | the filter keeps order and multiplicity: filtering a concatenation concatenates the filtered parts |
| Flatten.Traverse | tap_appfigures/streams/base.py:74-91 | the generator as written, failing when a node it calls `.values()` on is not a mapping; equal to the reference `Leaves` by `TraverseIsLeaves` |
| Flatten.OverX | tap_appfigures/streams/base.py:79-91 | the outer loop over the response's values |
| Flatten.OverY | tap_appfigures/streams/base.py:80-91 | the middle loop, yielding `y` below depth 3 |
| Flatten.OverZ | tap_appfigures/streams/base.py:83-89 | the inner loop, yielding `z` at depth 3 and the truthy `a` at depth 4 |
| Flatten.TraverseIsLeaves | tap_appfigures/streams/base.py:74-91 | the generator yields exactly the nodes 2, 3 or 4 levels down, in iteration order, dropping falsy leaves only at depth 4, and fails when a node it descends through is not a mapping |
| Flatten.TraverseShapedCount | tap_appfigures/streams/base.py:79-91 | below depth 4, a response with `dims[k]` entries per mapping at level `k` yields the product of the `dims` |
| Flatten.TraverseGridCount | tap_appfigures/streams/base.py:79-89 | an N x M x K response at depth 3 yields N*M*K records |
| Streams.ReportGridEntries | tap_appfigures/streams/base.py:113 | the sales, revenue and subscriptions reports are read three levels deep: an N x M x K response gives N*M*K entries |
| Window.WindowFor | tap_appfigures/streams/base.py:99-100 | start is bookmark minus 14 days; end is the earlier of yesterday and bookmark plus 14; at most 28 days wide; non-empty exactly when the bookmark is at most 13 days past today |
| Window.StrideCount | tap_appfigures/streams/ranks.py:28-29 | every stride the loop runs starts on or before today, and the next one does not |
| Common.LookupFinds | tap_appfigures/streams/products.py:21-24 | a key lookup finds the first entry with that key, and finds nothing exactly when no entry has it |
| Common.LatestDate | tap_appfigures/streams/base.py:110-117 | the bookmark fold `new = max(new, date)` over the dates in order; never below the start |
| Common.LatestDateIsMax | tap_appfigures/streams/base.py:110-117 | the fold `max(b, date)` ends at or past every date and equals the start or one of the dates |
| Common.LatestDateSnoc | tap_appfigures/streams/base.py:117 | one more entry takes one more `max` |
| Common.LatestDateAppend | tap_appfigures/streams/ranks.py:61 | folding two stretches in turn is folding their concatenation (the ranks bookmark carries across batches) |
| Common.LatestDateIdempotent | tap_appfigures/streams/base.py:131 | re-folding the same dates leaves the bookmark unchanged |
| Streams.Stream.DoSync | tap_appfigures/streams/base.py:93-132 | an unreadable bookmark raises at once; a `RequestError` returns with nothing written and the state unchanged; it finishes exactly when the response flattens and every entry has a date; then every entry is written once and in order and the bookmark becomes the latest date; otherwise the state is unchanged: nothing was written when the reply is a `RequestError` or does not flatten, and when an entry has no date exactly the whole groups of 2500 before the first undated entry `f`, that is its first `2500*(f/2500)` entries |
| Streams.Stream.WriteEntries | tap_appfigures/streams/base.py:108-131 | succeeds exactly when every entry is dated; then all entries are written in order and the bookmark is the fold of their dates; otherwise `stop` is the first undated entry and exactly its first `2500*(stop/2500)` entries are written |
| Streams.FirstUndatedUnique | tap_appfigures/streams/base.py:113-117 | entries not all dated have exactly one first undated entry, where `entry['date']` raises |
| Streams.Stream.TakeEntry | tap_appfigures/streams/base.py:117-126 | one entry keeps the loop invariant: bookmark folded, record buffered, a full buffer of 2500 written |
| Streams.ProductId | tap_appfigures/streams/products.py:21 | `product['id']`, when present and an integer |
| Streams.ProductDate | tap_appfigures/streams/products.py:24-25 | `updated_date` when truthy, else `added_date`, read as a date; nothing when a key is missing or the value is not a date |
| Streams.LastBatch | tap_appfigures/streams/products.py:33-37 | full lists followed by the final short list carry all the records in order, every list but the last holding 1000 |
| Streams.Stream.SyncProducts | tap_appfigures/streams/products.py:11-42 | never returns early on a request error; finishes exactly when the bookmark reads, the reply is a dict, and every product has an integer id and a readable date; then the ids in order, the bookmark at the latest product date, and the tidied products written as lists of 1000 and a shorter last list; otherwise state and ids are unchanged; nothing is written when the bookmark does not read or the reply is not a dict; else, with `f` the first unlistable product, exactly full lists of 1000 carrying the tidied first `1000*(f/1000)` products are appended |
| Streams.Stream.ListProducts | tap_appfigures/streams/products.py:20-36 | succeeds exactly when every product is listable; everything written is full lists of 1000; on success the ids, the bookmark fold and the written and buffered records are those of all products; otherwise `stop` is the first unlistable product and the lists written carry the tidied first `1000*(stop/1000)` products |
| Streams.FirstUnlistableUnique | tap_appfigures/streams/products.py:20-25 | products not all listable have exactly one first product without an integer id or a readable date, where the loop raises |
| Streams.Stream.TakeProduct | tap_appfigures/streams/products.py:21-36 | one product keeps the loop invariant: id collected, date folded, tidied record buffered, a full buffer of 1000 written as one list |
| Catalog.PropertyNames | tap_appfigures/streams/base.py:175 | the keys of `schema['properties']` in order; nothing when there is no such dict |
| Streams.Stream.GenerateCatalog | tap_appfigures/streams/base.py:156-193 | nothing exactly when the schema has no `properties` dict; otherwise the stream's id, key properties and schema, the stream metadata first, then one entry per property in order, each exactly the property entry (breadcrumb `properties/<name>`, no other field) with inclusion automatic exactly for key properties |
| Batches.IntText | tap_appfigures/streams/ranks.py:25 | `str(id)` is non-empty and comma-free, and all digits for non-negative ids |
| Batches.Join | tap_appfigures/streams/ranks.py:25 | `','.join(parts)`; split back into its parts by `SplitJoin` |
| Batches.ExcludeSubProducts | tap_appfigures/streams/ranks.py:24 | keeps exactly the ids whose text is not a sub-product id; order and multiplicity by `ExcludeAppend` |
| Batches.ExcludeAppend | tap_appfigures/streams/ranks.py:24 | the filter keeps order and multiplicity (it distributes over concatenation) |
| Batches.Chunks | tap_appfigures/streams/ranks.py:23-24 | the groups put back together are the list |
| Batches.ChunkSizes | tap_appfigures/streams/ranks.py:23 | each group has 1 to 10 ids, all but the last exactly 10 |
| Batches.TwentyThreeIds | tap_appfigures/streams/ranks.py:23-24 | 23 ids make batches of 10, 10 and 3 |
| Batches.SplitJoin | tap_appfigures/streams/ranks.py:25 | splitting the join of comma-free parts at the commas gives the parts back |
| Batches.JoinedGroupsSplit | tap_appfigures/streams/ranks.py:24-25 | each segment splits back into the id texts of its group, in order |
| Batches.IdBatchesSplit | tap_appfigures/streams/ranks.py:22-25 | every batch names, in order, the texts of 1 to 10 kept ids, all but the last exactly 10, and the groups put back together are all the kept ids in order |
| Batches.PlanBatches | tap_appfigures/streams/ranks.py:22-25 | the batches are the joined groups of the kept ids |
| Batches.JoinGroups | tap_appfigures/streams/ranks.py:24-25 | the loop builds exactly the joined groups |
| Retry.DigitPrefix | tap_appfigures/streams/ranks.py:38 | the longest prefix of digits |
| Retry.FirstDigit | tap_appfigures/streams/ranks.py:38 | the position of the first digit, with no digit before it |
| Retry.FirstDigitRun | tap_appfigures/streams/ranks.py:38 | `re.findall('\d+', msg)[0]`: none exactly when the message has no digit; otherwise a non-empty digit run starting at the first digit and ending before a non-digit or the end |
| Retry.StripId | tap_appfigures/streams/ranks.py:40 | the deletion never lengthens the URI |
| Retry.StripFromJoin | tap_appfigures/streams/ranks.py:40 | on a batch where no other id starts or ends with the rejected id, the deletion removes exactly the ids equal to it, in order; a batch of only that id keeps one copy |
| Retry.StripShrinks | tap_appfigures/streams/ranks.py:38-43 | deleting a rejected id of a batch of two or more ids drops a comma, so the loop moves on |
| Retry.StripAbsentId | tap_appfigures/streams/ranks.py:37-43 | a rejected id not in the batch leaves the URI as it was, so the same request is made again |
| Retry.StripIsSubstringBased | tap_appfigures/streams/ranks.py:40 | the deletion works on substrings: ids 142, 7, 42 with 42 rejected become the single id 17 |
| Retry.JoinCommas | tap_appfigures/streams/ranks.py:25 | a batch of n comma-free ids has n-1 commas |
| Retry.StripNoComma | tap_appfigures/streams/ranks.py:40-41 | the deletion never adds a comma |
| Retry.Settle | tap_appfigures/streams/ranks.py:36-45 | how a batch ends, request after request: raised on a failure or a message without digits, abandoned once no comma is left, else fetched |
| Retry.SettleOutcome | tap_appfigures/streams/ranks.py:36-45 | a fetched batch carries the reply to the URI finally requested; an abandoned one has no comma left |
| Retry.LastIdAbandoned | tap_appfigures/streams/ranks.py:41-45 | a single rejected id is abandoned: no records, no error |
| Retry.StripSecondId | tap_appfigures/streams/ranks.py:40 | deleting the second of two ids leaves the first, comma-free |
| Retry.LastGoodIdAbandoned | tap_appfigures/streams/ranks.py:40-42 | a two-id batch whose second id is rejected is abandoned, leaving the good id, which is never requested |
| Retry.RetryBatch | tap_appfigures/streams/ranks.py:36-45 | the repair loop ends as `Settle` says: fetched, abandoned or raised |
| RankApi.Covered | tap_appfigures/streams/ranks.py:50-57 | how many dates expand before a position or a delta is missing; all of them exactly when the entry is complete |
| RankApi.EntryRecords | tap_appfigures/streams/ranks.py:51-57 | one entry's records, date by date, up to the first missing position or delta |
| RankApi.Expand | tap_appfigures/streams/ranks.py:50-66 | the records of all entries, entry-major, stopping at the first entry that runs short |
| RankApi.EntryRecordsAt | tap_appfigures/streams/ranks.py:51-58 | an entry gives one record per date exactly when it is complete; record i pairs its fields with `positions[i]`, `deltas[i]`, `dates[i]` |
| RankApi.ExpandOk | tap_appfigures/streams/ranks.py:50-66 | the expansion runs to the end exactly when every entry covers every date |
| RankApi.ExpandCompleteLength | tap_appfigures/streams/ranks.py:50-58 | complete entries give `|data| * |dates|` records |
| RankApi.ExpandCompleteAt | tap_appfigures/streams/ranks.py:50-58 | record `e*|dates|+i` is entry e on date i (entry-major order) |
| RankApi.ExpandStops | tap_appfigures/streams/ranks.py:50-57 | nothing after the first short entry is emitted |
| RankApi.TwoDatesOneEntry | tap_appfigures/streams/ranks.py:50-58 | a worked reply: two dates, one entry, two records |
| RankRun.ThenAssoc | tap_appfigures/streams/ranks.py:28-73 | running stretches in sequence is associative |
| RankRun.Then | tap_appfigures/streams/ranks.py:30-71 | one stretch after another: an exception stops everything after it, and a later bookmark write covers the earlier records |
| RankRun.BatchRun | tap_appfigures/streams/ranks.py:31-71 | one batch: nothing when raised or abandoned; otherwise its expansion, with the bookmark written when it ran to the end |
| RankRun.StrideRun | tap_appfigures/streams/ranks.py:30-71 | every batch in turn within one stride |
| RankRun.StridesRun | tap_appfigures/streams/ranks.py:28-73 | every 28-day stride from the bookmark while its start is on or before today |
| RankRun.ThenSound | tap_appfigures/streams/ranks.py:28-73 | sequencing keeps the run sound |
| RankRun.BatchRunSound | tap_appfigures/streams/ranks.py:46-71 | a batch writes the bookmark after all of its records or not at all |
| RankRun.EmptyReplyWrites | tap_appfigures/streams/ranks.py:46-71 | a fetched reply without entries writes the bookmark after no record |
| RankRun.StrideRunSound | tap_appfigures/streams/ranks.py:30-71 | a stride writes the bookmark only after a prefix of its records |
| RankRun.StridesRunSound | tap_appfigures/streams/ranks.py:28-73 | the whole sync writes the bookmark only after a prefix of its records; when it finishes, the last write follows its last record, and if it never wrote the bookmark it emitted no record |
| RankRun.BatchesAfterThen | tap_appfigures/streams/ranks.py:30 | the loop over batches, in its own order of work, is the stride run |
| RankRun.StridesAfterThen | tap_appfigures/streams/ranks.py:28-73 | the loop over strides, in its own order of work, is the strides run |
| RankRun.StridesRunCount | tap_appfigures/streams/ranks.py:28-73 | the strides visited are exactly `0 .. StrideCount - 1`, the k-th starting 28k days after the bookmark |
| RankRun.AbandonedSync | tap_appfigures/streams/ranks.py:37-45 | when every batch is abandoned in every stride, nothing is emitted and the bookmark is never written |
| RankRun.NoBatchesSync | tap_appfigures/streams/ranks.py:22-30 | with no batch (no products, or only sub-products) the sync does nothing |
| Streams.Stream.SyncRanks | tap_appfigures/streams/ranks.py:17-73 | an unreadable bookmark raises at once; otherwise the records written in order, whether it finished, and the bookmark left in the state are those of `StridesRun` over the planned batches; never returns early on a request error |
| Streams.Stream.SyncStrides | tap_appfigures/streams/ranks.py:28-73 | the stride loop gives the strides run |
| Streams.Stream.SyncStride | tap_appfigures/streams/ranks.py:30-71 | one stride appends its stride run to what came before |
| Streams.Stream.SyncBatch | tap_appfigures/streams/ranks.py:31-71 | one batch appends its batch run: nothing when raised or abandoned; otherwise its expansion, with the bookmark written when it ran to the end |
| Streams.Stream.EmitRanks | tap_appfigures/streams/ranks.py:50-66 | writes the expansion's records in order and folds their dates; fails exactly when the expansion does |
| Streams.Stream.EmitEntry | tap_appfigures/streams/ranks.py:51-66 | writes one entry's records in order, stopping at the first missing position or delta |
| Streams.Stream.WriteRank | tap_appfigures/streams/ranks.py:52-66 | one record: bookmark is `max` with its date, one message appended |
| Streams.ExpandStep | tap_appfigures/streams/ranks.py:50-57 | expanding one entry moves its records in front of the rest, or ends the expansion when it runs short |

## Left out

- `client.py` (`make_request`, the HTTP transport, and the exit on a 420 rate limit) is not part of this model. The API is a function parameter and is assumed deterministic.
- The `streams/__init__.py` registry, the ratings and usage streams, `sync()`'s schema and state writes, Singer's writer, the metric counters, and logging are not modelled.
- Loading the schema file from disk is not modelled. Its content is a parameter (`fileSchema`).
- `strings_to_floats` and `tidy_dates` are uninterpreted function parameters, and floats are not modelled.
- `str_to_date` and `date_to_str` are the identity on day numbers. Comparing ISO date strings with `max` is integer `max` on day numbers. Dates that are not ISO `YYYY-MM-DD` strings are not modelled.
- Streams.Stream.SyncProducts: product ids are taken to be integers. A product with a non-integer `id` is treated like one whose read fails.
- Streams.Stream.DoSync: a response the traversal cannot walk raises before any record. The source's generator may yield some records before it reaches the bad node.
- Retry.FirstDigitRun: only ASCII digits count as `\d`; Unicode digits are not modelled.
- Retry.RetryBatch: requires `Repairs(api)`, that every rejection of a multi-id batch names an id whose deletion drops a comma. `Repairs` ranges over every query, including ones the sync never sends. The source loops forever only when a rejection that breaks this is actually reached, for example one naming an id that is not in the batch (see `Retry.StripAbsentId`). Such runs are not modelled.
- RankApi.Expand: every reply entry is taken to carry `country`, `category`, `product_id`, `positions` and `deltas`. An entry that misses one of these keys, or is not a dict, makes the source raise after the earlier entries' records were written; that partial output is not modelled. A 400 body without a string `message`, or a body without `dates` or `data`, raises before the batch writes anything, and is modelled as `Failed`.
- Streams.Stream.SyncRanks: requires `Repairs(api)` for the same reason. The per-batch run is a ghost function tied to the API by `RankRun.RunsOf`.
- Streams.Stream.SyncProducts: `write_message` receives a Python list of messages, modelled as one `BatchMsg`. What Singer makes of such a list is not modelled.
- The state is modelled as a map from stream name to its `last_record` value, without the nested `bookmarks` dicts.
- Behaviours of the code that a reader might not expect, which the model keeps:
  - The window's start can come after its end, when the bookmark is more than 13 days past today (see `Window.WindowFor`).
  - The ranks sync writes the bookmark after every fetched batch, not after every stride.
  - Every ranks stride is 28 days long, and the last one may end after today.
  - The repair loop abandons a batch as soon as no comma remains, even if one good id is left (see `Retry.LastGoodIdAbandoned`). It deletes substrings, not ids (see `Retry.StripIsSubstringBased`).
  - Reassigning `records = []` inside the 2500-record flush loop does not stop the loop, so every buffered record is written.
