/** The ranks endpoint `/ranks/{ids}/daily/{start}/{end}/?tz=utc` as seen by
    `RanksStream.do_sync`, and the expansion of a successful reply into records. */
module RankApi {
  import opened Common

  /** One ranks request: the comma-joined id segment of the URI and the stride bounds. */
  datatype RankQuery = RankQuery(ids: string, start: Date, end: Date)

  /** One `data` entry of a reply: parallel `positions` and `deltas`, indexed like `dates`. */
  datatype RankEntry = RankEntry(country: Value, category: Value, productId: Value,
                                 positions: seq<Value>, deltas: seq<Value>)

  /** What a ranks request gives back: a body with `status == 400` and its `message`,
      a body with `dates` and `data`, or anything that makes the source raise before
      the batch emits a record (a transport or HTTP error, a 400 body without a string
      `message`, a body without `dates` or `data`). Entries always carry the five keys
      the expansion reads. */
  datatype RankReply =
    | Rejected(message: string)
    | Ranked(dates: seq<Date>, data: seq<RankEntry>)
    | Failed

  /** One emitted rank record, before `strings_to_floats`. */
  datatype RankRecord = RankRecord(country: Value, category: Value, productId: Value,
                                   position: Value, delta: Value, date: Date)

  /** The record as the JSON object the source builds with `dict(...)`. */
  function RecordValue(r: RankRecord): Value {
    Obj([("country", r.country), ("category", r.category), ("product_id", r.productId),
         ("position", r.position), ("delta", r.delta), ("date", Day(r.date))])
  }
  /** Whether `entry` has a position and a delta for every date. */
  predicate Complete(entry: RankEntry, dates: seq<Date>) {
    |dates| <= |entry.positions| && |dates| <= |entry.deltas|
  }

  /** How many dates of `entry` are expanded before the first missing position or delta. */
  function Covered(entry: RankEntry, dates: seq<Date>): (n: nat)
    ensures n <= |dates| && n <= |entry.positions| && n <= |entry.deltas|
    ensures n == |dates| <==> Complete(entry, dates)
    ensures n == |dates| || n == |entry.positions| || n == |entry.deltas|
  {
    if Complete(entry, dates) then |dates|
    else if |entry.positions| <= |entry.deltas| then |entry.positions|
    else |entry.deltas|
  }

  /** The record of `entry` on the `i`-th date. */
  function RecordAt(entry: RankEntry, dates: seq<Date>, i: nat): RankRecord
    requires i < |dates| && i < |entry.positions| && i < |entry.deltas|
  {
    RankRecord(entry.country, entry.category, entry.productId, entry.positions[i], entry.deltas[i], dates[i])
  }

  /** The records of `entry` on its first `n` dates. */
  function EntryPrefix(entry: RankEntry, dates: seq<Date>, n: nat): seq<RankRecord>
    requires n <= Covered(entry, dates)
  {
    if n == 0 then [] else EntryPrefix(entry, dates, n - 1) + [RecordAt(entry, dates, n - 1)]
  }

  /** The records of one entry, date by date, up to the first date without a position or
      a delta (where the source raises `IndexError`). */
  function EntryRecords(entry: RankEntry, dates: seq<Date>): seq<RankRecord> {
    EntryPrefix(entry, dates, Covered(entry, dates))
  }

  lemma {:induction false} EntryPrefixAt(entry: RankEntry, dates: seq<Date>, n: nat)
    requires n <= Covered(entry, dates)
    ensures |EntryPrefix(entry, dates, n)| == n
    ensures forall i :: 0 <= i < n ==> EntryPrefix(entry, dates, n)[i] == RecordAt(entry, dates, i)
  {
    if n > 0 {
      EntryPrefixAt(entry, dates, n - 1);
    }
  }

  /** An entry gives one record per date exactly when it covers every date; record `i` pairs
      the entry's fields with `positions[i]`, `deltas[i]` and `dates[i]`. */
  lemma EntryRecordsAt(entry: RankEntry, dates: seq<Date>)
    ensures |EntryRecords(entry, dates)| <= |dates|
    ensures |EntryRecords(entry, dates)| == |dates| <==> Complete(entry, dates)
    ensures forall i :: 0 <= i < |EntryRecords(entry, dates)| ==>
              i < |entry.positions| && i < |entry.deltas| &&
              EntryRecords(entry, dates)[i] ==
                RankRecord(entry.country, entry.category, entry.productId,
                           entry.positions[i], entry.deltas[i], dates[i])
  {
    EntryPrefixAt(entry, dates, Covered(entry, dates));
  }

  /** The records emitted for a reply, and whether the expansion ran to the end. */
  datatype Expansion = Expansion(records: seq<RankRecord>, ok: bool)

  /** `for rank_entry in data: for i, rank_date in enumerate(dates): ...`, entry-major. */
  function Expand(data: seq<RankEntry>, dates: seq<Date>): Expansion {
    if data == [] then Expansion([], true)
    else
      var here := EntryRecords(data[0], dates);
      if !Complete(data[0], dates) then Expansion(here, false)
      else
        var rest := Expand(data[1..], dates);
        Expansion(here + rest.records, rest.ok)
  }

  /** The expansion runs to the end exactly when every entry covers every date. */
  lemma {:induction false} ExpandOk(data: seq<RankEntry>, dates: seq<Date>)
    ensures Expand(data, dates).ok <==> forall k :: 0 <= k < |data| ==> Complete(data[k], dates)
    decreases |data|
  {
    if data != [] {
      var rest := data[1..];
      ExpandOk(rest, dates);
      assert forall k :: 0 < k < |data| ==> data[k] == rest[k - 1];
    }
  }

  /** Entry `e`'s block of `n` records lies wholly before entry `m`'s block when `e < m`. */
  lemma BlockBefore(e: nat, m: nat, i: nat, n: nat)
    requires e < m && i < n
    ensures e * n + i < m * n
    decreases m - e
  {
    assert (e + 1) * n == e * n + n;
    if e + 1 < m {
      BlockBefore(e + 1, m, i, n);
    }
  }

  /** Entries that all cover every date expand in full: |data| * |dates| records. */
  lemma {:induction false} ExpandCompleteLength(data: seq<RankEntry>, dates: seq<Date>)
    requires forall k :: 0 <= k < |data| ==> Complete(data[k], dates)
    ensures Expand(data, dates).ok
    ensures |Expand(data, dates).records| == |data| * |dates|
    decreases |data|
  {
    if data != [] {
      var rest := data[1..];
      assert forall k :: 0 <= k < |rest| ==> Complete(rest[k], dates) by {
        forall k | 0 <= k < |rest| ensures Complete(rest[k], dates) {
          assert rest[k] == data[k + 1];
        }
      }
      ExpandCompleteLength(rest, dates);
      assert Complete(data[0], dates);
      EntryRecordsAt(data[0], dates);
      assert |data| * |dates| == |dates| + |rest| * |dates|;
    }
  }

  /** Record `e * |dates| + i` of a full expansion is entry `e` on date `i`. */
  lemma {:induction false} ExpandCompleteAt(data: seq<RankEntry>, dates: seq<Date>, e: nat, i: nat)
    requires forall k :: 0 <= k < |data| ==> Complete(data[k], dates)
    requires e < |data| && i < |dates|
    ensures Complete(data[e], dates)
    ensures e * |dates| + i < |Expand(data, dates).records|
    ensures Expand(data, dates).records[e * |dates| + i] ==
              RankRecord(data[e].country, data[e].category, data[e].productId,
                         data[e].positions[i], data[e].deltas[i], dates[i])
    decreases e
  {
    ExpandCompleteLength(data, dates);
    BlockBefore(e, |data|, i, |dates|);
    EntryRecordsAt(data[0], dates);
    var rest := data[1..];
    var here := EntryRecords(data[0], dates);
    assert Complete(data[0], dates);
    assert Expand(data, dates).records == here + Expand(rest, dates).records;
    if e > 0 {
      assert forall k :: 0 <= k < |rest| ==> Complete(rest[k], dates) by {
        forall k | 0 <= k < |rest| ensures Complete(rest[k], dates) {
          assert rest[k] == data[k + 1];
        }
      }
      ExpandCompleteAt(rest, dates, e - 1, i);
      assert e * |dates| + i == |here| + ((e - 1) * |dates| + i);
      assert rest[e - 1] == data[e];
    }
  }

  /** Expansion stops at the first entry that runs short: nothing after it counts. */
  lemma {:induction false} ExpandStops(a: seq<RankEntry>, b: seq<RankEntry>, dates: seq<Date>)
    requires !Expand(a, dates).ok
    ensures Expand(a + b, dates) == Expand(a, dates)
    decreases |a|
  {
    assert (a + b)[0] == a[0];
    if Complete(a[0], dates) {
      assert (a + b)[1..] == a[1..] + b;
      ExpandStops(a[1..], b, dates);
    }
  }

  /** The example of two dates and one entry with positions [5, 7] and deltas [-1, 2]. */
  lemma TwoDatesOneEntry(country: Value, category: Value, product: Value, d1: Date, d2: Date)
    ensures Expand([RankEntry(country, category, product, [Num(5), Num(7)], [Num(-1), Num(2)])], [d1, d2])
            == Expansion([RankRecord(country, category, product, Num(5), Num(-1), d1),
                          RankRecord(country, category, product, Num(7), Num(2), d2)], true)
  {
    var e := RankEntry(country, category, product, [Num(5), Num(7)], [Num(-1), Num(2)]);
    ExpandCompleteLength([e], [d1, d2]);
    ExpandCompleteAt([e], [d1, d2], 0, 0);
    ExpandCompleteAt([e], [d1, d2], 0, 1);
  }

  /** The dates of the records, in order. */
  function RecordDates(rs: seq<RankRecord>): (ds: seq<Date>)
    ensures |ds| == |rs|
    ensures forall k :: 0 <= k < |rs| ==> ds[k] == rs[k].date
  {
    seq(|rs|, k requires 0 <= k < |rs| => rs[k].date)
  }
}
