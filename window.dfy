/** Date windows: the single request window of `AppFiguresBase.do_sync` and the
    28-day strides of `RanksStream.do_sync`. */
module Window {
  import opened Common

  /** Half-width of the single-window lookback, in days. */
  const Lookback := 14

  /** Length of one ranks stride, in days. */
  const StrideDays := 28

  datatype RequestWindow = RequestWindow(start: Date, end: Date)

  /** `[bookmark - 14d, min(today - 1d, bookmark + 14d)]`. The end never passes yesterday,
      the window is at most 28 days wide, and it is non-empty exactly when the bookmark is
      at most 13 days past today. */
  function WindowFor(bookmark: Date, today: Date): (w: RequestWindow)
    ensures w.start == bookmark - Lookback
    ensures w.end <= today - 1 && w.end <= bookmark + Lookback
    ensures w.end == today - 1 || w.end == bookmark + Lookback
    ensures w.end - w.start <= 2 * Lookback
    ensures w.start <= w.end <==> bookmark <= today + 13
  {
    RequestWindow(bookmark - Lookback, if today - 1 < bookmark + Lookback then today - 1 else bookmark + Lookback)
  }

  /** The `k`-th stride starts `28 * k` days after the bookmark. */
  function StrideStart(bookmark: Date, k: nat): Date {
    bookmark + StrideDays * k
  }

  /** How many strides the loop `while start <= today: ...; start = start + 28d` runs:
      every stride it runs starts on or before today, and the one after them does not. */
  function StrideCount(bookmark: Date, today: Date): (n: nat)
    ensures forall k: nat :: k < n ==> StrideStart(bookmark, k) <= today
    ensures today < StrideStart(bookmark, n)
  {
    if today < bookmark then 0
    else
      var n := (today - bookmark) / StrideDays + 1;
      assert forall k: nat :: k < n ==> StrideStart(bookmark, k) <= today by {
        forall k: nat | k < n ensures StrideStart(bookmark, k) <= today {
          assert k <= (today - bookmark) / StrideDays;
          assert StrideDays * k <= StrideDays * ((today - bookmark) / StrideDays);
        }
      }
      n
  }
}
