/** What `RanksStream.do_sync` produces over all its strides and batches, as a function of
    the API: the records in order, whether it ran to the end, and whether it wrote the
    bookmark. The method in `Streams` is proved against `StridesRun`. */
module RankRun {
  import opened Common
  import opened Window
  import opened RankApi
  import opened Retry

  /** The effect of a stretch of the sync: the records emitted, in order; whether it ended
      without an exception; and, when it wrote the bookmark at least once, the records
      emitted up to its last write (the bookmark written is the latest of their dates). */
  datatype Run = Run(records: seq<RankRecord>, complete: bool, mark: Option<seq<RankRecord>>)

  /** A stretch that did nothing. */
  const Idle := Run([], true, None)

  /** `a` followed by `b`: an exception in `a` stops everything after it; a write in `b`
      covers everything `a` emitted. */
  function Then(a: Run, b: Run): Run {
    if !a.complete then a
    else Run(a.records + b.records, b.complete,
             if b.mark.Some? then Some(a.records + b.mark.value) else a.mark)
  }

  lemma ThenAssoc(a: Run, b: Run, c: Run)
    ensures Then(Then(a, b), c) == Then(a, Then(b, c))
  {
    if a.complete && b.complete {
      assert (a.records + b.records) + c.records == a.records + (b.records + c.records);
      if c.mark.Some? {
        assert (a.records + b.records) + c.mark.value == a.records + (b.records + c.mark.value);
      }
    }
  }

  lemma ThenIdle(a: Run)
    ensures Then(a, Idle) == a
  {
    if a.complete {
      assert a.records + [] == a.records;
    }
  }

  lemma IdleThen(b: Run)
    ensures Then(Idle, b) == b
  {
    assert [] + b.records == b.records;
    if b.mark.Some? {
      assert [] + b.mark.value == b.mark.value;
    }
  }

  /** What every run of the sync satisfies: the bookmark is only ever written after a
      prefix of the records, a run that finished wrote it after its last record, and a
      run that finished without writing it emitted nothing. */
  predicate Sound(r: Run) {
    (r.mark.Some? ==> |r.mark.value| <= |r.records| && r.records[..|r.mark.value|] == r.mark.value) &&
    (r.complete ==> (r.mark.Some? ==> r.mark.value == r.records) && (r.mark.None? ==> r.records == []))
  }

  lemma ThenSound(a: Run, b: Run)
    requires Sound(a) && Sound(b)
    ensures Sound(Then(a, b))
  {
    if a.complete {
      var r := Then(a, b);
      if b.mark.Some? {
        assert r.records[..|r.mark.value|] == a.records + b.records[..|b.mark.value|];
      } else if a.mark.Some? {
        assert r.records[..|a.mark.value|] == a.records[..|a.mark.value|];
      }
      if b.complete && b.mark.None? {
        assert r.records == a.records + [];
      }
    }
  }

  /** How a batch ends in the stride starting on `start`, which ends 28 days later. */
  function StrideSettle(api: RankQuery -> RankReply, ids: string, start: Date): BatchResult
    requires Repairs(api)
  {
    Settle(api, ids, start, start + StrideDays)
  }

  /** One batch in one stride: settle the retries, then expand a fetched reply. A fetched
      reply whose entries all cover every date writes the bookmark; one that runs short
      raises before the write. */
  function BatchRun(api: RankQuery -> RankReply, ids: string, start: Date): Run
    requires Repairs(api)
  {
    match StrideSettle(api, ids, start)
    case Raised => Run([], false, None)
    case Abandoned(_) => Idle
    case Fetched(_, dates, data) =>
      var x := Expand(data, dates);
      Run(x.records, x.ok, if x.ok then Some(x.records) else None)
  }

  /** A batch run is sound: the bookmark is written after all of its records or not at all. */
  lemma BatchRunSound(api: RankQuery -> RankReply, ids: string, start: Date)
    requires Repairs(api)
    ensures Sound(BatchRun(api, ids, start))
  {
    var b := BatchRun(api, ids, start);
    if b.mark.Some? {
      assert b.records[..|b.mark.value|] == b.records;
    }
  }

  /** A fetched reply without entries still writes the bookmark, after no record. */
  lemma EmptyReplyWrites(api: RankQuery -> RankReply, ids: string, start: Date)
    requires Repairs(api)
    requires StrideSettle(api, ids, start).Fetched? && StrideSettle(api, ids, start).data == []
    ensures BatchRun(api, ids, start) == Run([], true, Some([]))
  {
  }

  /** `batch` gives, for every id segment and stride start, the run of that batch under
      `api`. The strides below are stated over such a function. */
  ghost predicate RunsOf(batch: (string, Date) -> Run, api: RankQuery -> RankReply)
    requires Repairs(api)
  {
    forall ids: string, start: Date {:trigger BatchRun(api, ids, start)} :: batch(ids, start) == BatchRun(api, ids, start)
  }

  /** `for product_ids in products: ...` within one stride. */
  function StrideRun(batch: (string, Date) -> Run, batches: seq<string>, start: Date): Run
    decreases |batches|
  {
    if batches == [] then Idle
    else Then(batch(batches[0], start), StrideRun(batch, batches[1..], start))
  }

  lemma {:induction false} StrideRunSound(api: RankQuery -> RankReply, batch: (string, Date) -> Run,
                                          batches: seq<string>, start: Date)
    requires Repairs(api) && RunsOf(batch, api)
    ensures Sound(StrideRun(batch, batches, start))
    decreases |batches|
  {
    if batches != [] {
      BatchRunSound(api, batches[0], start);
      StrideRunSound(api, batch, batches[1..], start);
      ThenSound(batch(batches[0], start), StrideRun(batch, batches[1..], start));
    }
  }

  /** The batches from the `j`-th on, after the stretch `acc`: the loop's own order of work. */
  function BatchesAfter(batch: (string, Date) -> Run, batches: seq<string>, j: nat, acc: Run, start: Date): Run
    decreases |batches| - j
  {
    if !acc.complete || |batches| <= j then acc
    else BatchesAfter(batch, batches, j + 1, Then(acc, batch(batches[j], start)), start)
  }

  lemma {:induction false} BatchesAfterThen(batch: (string, Date) -> Run, batches: seq<string>, j: nat, acc: Run, start: Date)
    requires j <= |batches|
    ensures BatchesAfter(batch, batches, j, acc, start) == Then(acc, StrideRun(batch, batches[j..], start))
    decreases |batches| - j
  {
    if !acc.complete {
    } else if |batches| == j {
      assert batches[j..] == [];
      ThenIdle(acc);
    } else {
      var one := batch(batches[j], start);
      assert batches[j..][0] == batches[j] && batches[j..][1..] == batches[j + 1..];
      BatchesAfterThen(batch, batches, j + 1, Then(acc, one), start);
      ThenAssoc(acc, one, StrideRun(batch, batches[j + 1..], start));
    }
  }

  /** `while start_date <= today: ...; start_date = end_date`. */
  function StridesRun(batch: (string, Date) -> Run, batches: seq<string>, start: Date, today: Date): Run
    decreases today - start
  {
    if today < start then Idle
    else Then(StrideRun(batch, batches, start), StridesRun(batch, batches, start + StrideDays, today))
  }

  /** The whole sync only writes the bookmark after a prefix of its records; when it
      finishes, the last write came after its last record, and a finished sync that never
      wrote the bookmark emitted no record. (It may write without emitting any: see
      `EmptyReplyWrites`.) */
  lemma {:induction false} StridesRunSound(api: RankQuery -> RankReply, batch: (string, Date) -> Run,
                                           batches: seq<string>, start: Date, today: Date)
    requires Repairs(api) && RunsOf(batch, api)
    ensures Sound(StridesRun(batch, batches, start, today))
    decreases today - start
  {
    if start <= today {
      StrideRunSound(api, batch, batches, start);
      StridesRunSound(api, batch, batches, start + StrideDays, today);
      ThenSound(StrideRun(batch, batches, start), StridesRun(batch, batches, start + StrideDays, today));
    }
  }

  /** The strides from `start` on, after the stretch `acc`: the loop's own order of work. */
  function StridesAfter(batch: (string, Date) -> Run, batches: seq<string>, acc: Run, start: Date, today: Date): Run
    decreases today - start
  {
    if !acc.complete || today < start then acc
    else StridesAfter(batch, batches, Then(acc, StrideRun(batch, batches, start)), start + StrideDays, today)
  }

  lemma {:induction false} StridesAfterThen(batch: (string, Date) -> Run, batches: seq<string>, acc: Run, start: Date, today: Date)
    ensures StridesAfter(batch, batches, acc, start, today) == Then(acc, StridesRun(batch, batches, start, today))
    decreases today - start
  {
    if !acc.complete {
    } else if today < start {
      ThenIdle(acc);
    } else {
      var stride := StrideRun(batch, batches, start);
      StridesAfterThen(batch, batches, Then(acc, stride), start + StrideDays, today);
      ThenAssoc(acc, stride, StridesRun(batch, batches, start + StrideDays, today));
    }
  }

  /** The strides from the `k`-th to the `n`-th, each starting 28 days after the last. */
  function StridesFrom(batch: (string, Date) -> Run, batches: seq<string>, bookmark: Date, k: nat, n: nat): Run
    decreases n - k
  {
    if n <= k then Idle
    else Then(StrideRun(batch, batches, StrideStart(bookmark, k)), StridesFrom(batch, batches, bookmark, k + 1, n))
  }

  /** The loop visits exactly the strides `0 .. StrideCount(bookmark, today) - 1`: the `k`-th
      starts on `bookmark + 28k`, on or before today, and the one after the last does not. */
  lemma {:induction false} StridesRunCount(batch: (string, Date) -> Run, batches: seq<string>,
                                          bookmark: Date, today: Date, k: nat)
    requires k <= StrideCount(bookmark, today)
    ensures StridesRun(batch, batches, StrideStart(bookmark, k), today)
            == StridesFrom(batch, batches, bookmark, k, StrideCount(bookmark, today))
    decreases StrideCount(bookmark, today) - k
  {
    var n := StrideCount(bookmark, today);
    if k < n {
      assert StrideStart(bookmark, k) + StrideDays == StrideStart(bookmark, k + 1);
      StridesRunCount(batch, batches, bookmark, today, k + 1);
    } else {
      assert StrideStart(bookmark, k) == StrideStart(bookmark, n);
    }
  }

  /** A batch that is abandoned in every stride emits nothing, writes nothing, raises nothing. */
  ghost predicate AbandonedEverywhere(api: RankQuery -> RankReply, ids: string)
    requires Repairs(api)
  {
    forall start: Date :: StrideSettle(api, ids, start).Abandoned?
  }

  lemma {:induction false} AbandonedStride(api: RankQuery -> RankReply, batch: (string, Date) -> Run,
                                          batches: seq<string>, start: Date)
    requires Repairs(api) && RunsOf(batch, api)
    requires forall j :: 0 <= j < |batches| ==> AbandonedEverywhere(api, batches[j])
    ensures StrideRun(batch, batches, start) == Idle
    decreases |batches|
  {
    if batches != [] {
      assert AbandonedEverywhere(api, batches[0]);
      assert StrideSettle(api, batches[0], start).Abandoned?;
      assert batch(batches[0], start) == BatchRun(api, batches[0], start) == Idle;
      assert forall j :: 0 <= j < |batches[1..]| ==> batches[1..][j] == batches[j + 1];
      AbandonedStride(api, batch, batches[1..], start);
    }
  }

  /** When every batch is abandoned, the whole sync emits no record and leaves the
      bookmark unwritten, however many strides it walks. */
  lemma {:induction false} AbandonedSync(api: RankQuery -> RankReply, batch: (string, Date) -> Run,
                                        batches: seq<string>, start: Date, today: Date)
    requires Repairs(api) && RunsOf(batch, api)
    requires forall j :: 0 <= j < |batches| ==> AbandonedEverywhere(api, batches[j])
    ensures StridesRun(batch, batches, start, today) == Idle
    decreases today - start
  {
    if start <= today {
      AbandonedStride(api, batch, batches, start);
      AbandonedSync(api, batch, batches, start + StrideDays, today);
    }
  }

  /** With no batch at all (every product a sub-product, or no products), nothing happens. */
  lemma {:induction false} NoBatchesSync(batch: (string, Date) -> Run, start: Date, today: Date)
    ensures StridesRun(batch, [], start, today) == Idle
    decreases today - start
  {
    if start <= today {
      NoBatchesSync(batch, start + StrideDays, today);
    }
  }
}
